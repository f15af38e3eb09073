/** Entity-tags and the scanner for `If-None-Match` lists (sections 8.8.3 and
    13.1.2 of RFC 9110). */
module EntityTags {
  import opened Wrappers
  import opened Text

  datatype Tag = Tag(weak: bool, value: string)

  function Quoted(value: string): string {
    ['"'] + value + ['"']
  }

  function Printed(t: Tag): string {
    if t.weak then ['W', '/'] + Quoted(t.value) else Quoted(t.value)
  }

  predicate HasWeakPrefix(s: string) {
    |s| >= 2 && s[0] == 'W' && s[1] == '/'
  }

  // ---- The operations of the source ----

  // Strip the optional weak prefix and the surrounding quotes.
  function EtagOpaque(etag: string): Option<string> {
    var e := Trim(etag);
    var e := if HasWeakPrefix(e) then e[2..] else e;
    if e == [] || e[0] != '"' then None
    else
      var inner := e[1..];
      if inner != [] && inner[|inner| - 1] == '"' then Some(inner[..|inner| - 1]) else None
  }

  // Leading whitespace, commas and weak prefixes dropped.
  function Skip(s: string): (r: string)
    ensures |r| <= |s|
    decreases |s|
  {
    var t := TrimStart(s);
    if t != [] && t[0] == ',' then Skip(t[1..])
    else if HasWeakPrefix(t) then Skip(t[2..])
    else t
  }

  function FindQuote(s: string): (r: nat)
    ensures r <= |s|
  {
    if s == [] || s[0] == '"' then 0 else 1 + FindQuote(s[1..])
  }

  // The tag at the cursor, if a quoted one starts there and is closed.
  predicate AtTag(t: string) {
    t != [] && t[0] == '"' && FindQuote(t[1..]) < |t| - 1
  }

  // What follows a closed tag at the cursor.
  function AfterTag(t: string): (r: string)
    requires AtTag(t)
    ensures |r| < |t|
  {
    t[FindQuote(t[1..]) + 2..]
  }

  function TagAt(t: string): string
    requires AtTag(t)
  {
    t[1..FindQuote(t[1..]) + 1]
  }

  function ScanTags(s: string): seq<string>
    decreases |s|
  {
    var t := Skip(s);
    if !AtTag(t) then [] else [TagAt(t)] + ScanTags(AfterTag(t))
  }

  // Where the scanner stops.
  function Leftover(s: string): string
    decreases |s|
  {
    var t := Skip(s);
    if !AtTag(t) then t else Leftover(AfterTag(t))
  }

  // The cursor loop that stands before the next tag.
  method SkipToTag(s: string) returns (remaining: string)
    ensures remaining == Skip(s)
  {
    remaining := s;
    while true
      invariant Skip(remaining) == Skip(s)
      decreases |remaining|
    {
      TrimStartTwice(remaining);
      remaining := TrimStart(remaining);
      if remaining != [] && remaining[0] == ',' {
        remaining := remaining[1..];
        continue;
      }
      if HasWeakPrefix(remaining) {
        remaining := remaining[2..];
        continue;
      }
      break;
    }
  }

  // The scanner as the source runs it: one cursor, advanced tag by tag.
  method IterEtagOpaques(s: string) returns (tags: seq<string>)
    ensures tags == ScanTags(s)
  {
    var remaining := s;
    tags := [];
    while true
      invariant tags + ScanTags(remaining) == ScanTags(s)
      decreases |remaining|
    {
      ghost var before := remaining;
      remaining := SkipToTag(remaining);
      if remaining == [] || remaining[0] != '"' { return; }
      var inner := remaining[1..];
      var close := FindQuote(inner);
      if close == |inner| { return; }
      var tag, after := inner[..close], inner[close + 1..];
      assert tag == TagAt(remaining) && after == AfterTag(remaining);
      assert ScanTags(before) == [tag] + ScanTags(after);
      tags := tags + [tag];
      remaining := after;
    }
  }

  function InmMatches(ifNoneMatch: string, cachedEtag: Option<string>): bool {
    var inm := Trim(ifNoneMatch);
    if inm == "*" then true
    else if cachedEtag.None? || EtagOpaque(cachedEtag.value).None? then false
    else EtagOpaque(cachedEtag.value).value in ScanTags(inm)
  }

  // ---- Scanning a concatenation ----

  lemma {:induction false} TrimStartTwice(s: string)
    ensures TrimStart(TrimStart(s)) == TrimStart(s)
  {
  }

  lemma {:induction false} TrimStartAppend(a: string, b: string)
    ensures TrimStart(a + b) == if TrimStart(a) == [] then TrimStart(b) else TrimStart(a) + b
  {
    if a == [] {
      assert a + b == b;
    } else if IsSpace(a[0]) {
      TrimStartAppend(a[1..], b);
      assert (a + b)[1..] == a[1..] + b;
    }
  }

  // Only a `W` at the very end of the first part could join up with the second.
  lemma {:induction false} SkipAppend(a: string, b: string)
    requires b == [] || b[0] != '/'
    ensures Skip(a + b) == if Skip(a) == [] then Skip(b) else Skip(a) + b
    decreases |a|
  {
    var t := TrimStart(a);
    TrimStartAppend(a, b);
    if t != [] {
      assert (t + b)[0] == t[0];
      assert |t| >= 2 ==> (t + b)[..2] == t[..2];
      assert |t| == 1 && b != [] ==> (t + b)[..2] == [t[0], b[0]];
      if t[0] == ',' {
        assert (t + b)[1..] == t[1..] + b;
        SkipAppend(t[1..], b);
      } else if HasWeakPrefix(t) {
        assert (t + b)[2..] == t[2..] + b;
        SkipAppend(t[2..], b);
      }
    }
  }

  lemma {:induction false} FindQuoteAppend(a: string, b: string)
    ensures FindQuote(a + b) == if FindQuote(a) < |a| then FindQuote(a) else |a| + FindQuote(b)
  {
    if a == [] {
      assert a + b == b;
    } else if a[0] != '"' {
      FindQuoteAppend(a[1..], b);
      assert (a + b)[1..] == a[1..] + b;
    }
  }

  lemma {:induction false} SkipIsNormal(s: string)
    ensures Skip(Skip(s)) == Skip(s)
    decreases |s|
  {
    var t := TrimStart(s);
    TrimStartTwice(s);
    if t != [] && t[0] == ',' {
      SkipIsNormal(t[1..]);
    } else if HasWeakPrefix(t) {
      SkipIsNormal(t[2..]);
    }
  }

  lemma AtTagAppend(t: string, b: string)
    requires AtTag(t)
    ensures AtTag(t + b) && TagAt(t + b) == TagAt(t) && AfterTag(t + b) == AfterTag(t) + b
  {
    assert (t + b)[1..] == t[1..] + b;
    FindQuoteAppend(t[1..], b);
  }

  lemma ScanAppendStopped(t: string, b: string)
    requires b == [] || b[0] != '/'
    requires Skip(t) == t
    ensures Skip(t + b) == if t == [] then Skip(b) else t + b
  {
    SkipAppend(t, b);
  }

  lemma SameSkipSameTags(a: string, b: string)
    requires Skip(a) == Skip(b)
    ensures ScanTags(a) == ScanTags(b)
  {
  }

  lemma ScanAtTag(s: string, t: string)
    requires t == Skip(s) && AtTag(t)
    ensures ScanTags(s) == [TagAt(t)] + ScanTags(AfterTag(t))
    ensures Leftover(s) == Leftover(AfterTag(t))
  {
  }

  lemma ScanStopped(s: string)
    requires !AtTag(Skip(s))
    ensures ScanTags(s) == [] && Leftover(s) == Skip(s)
  {
  }

  lemma ScanAppendAtTag(a: string, b: string, t: string)
    requires b == [] || b[0] != '/'
    requires t == Skip(a) && AtTag(t)
    ensures ScanTags(a + b) == [TagAt(t)] + ScanTags(AfterTag(t) + b)
  {
    SkipAppend(a, b);
    AtTagAppend(t, b);
    ScanAtTag(a + b, t + b);
  }

  lemma ScanAppendAtStop(a: string, b: string)
    requires b == [] || b[0] != '/'
    requires !AtTag(Skip(a))
    ensures ScanTags(a + b) == ScanTags(Leftover(a) + b) && ScanTags(a) == []
  {
    ScanStopped(a);
    SkipIsNormal(a);
    SkipAppend(a, b);
    ScanAppendStopped(Skip(a), b);
    SameSkipSameTags(a + b, Skip(a) + b);
  }

  lemma Regroup(x: seq<string>, y: seq<string>, z: seq<string>)
    ensures x + (y + z) == (x + y) + z
  {
  }

  // Scanning a concatenation is scanning the first part and then going on from
  // where it stopped.
  lemma {:induction false} ScanAppend(a: string, b: string)
    requires b == [] || b[0] != '/'
    ensures ScanTags(a + b) == ScanTags(a) + ScanTags(Leftover(a) + b)
    decreases |a|
  {
    var t := Skip(a);
    if AtTag(t) {
      var rest := AfterTag(t);
      ScanAppend(rest, b);
      ScanAppendAtTag(a, b, t);
      ScanAtTag(a, t);
      Regroup([TagAt(t)], ScanTags(rest), ScanTags(Leftover(rest) + b));
    } else {
      ScanAppendAtStop(a, b);
      assert [] + ScanTags(Leftover(a) + b) == ScanTags(Leftover(a) + b);
    }
  }

  lemma {:induction false} LeftoverStops(s: string)
    ensures Skip(Leftover(s)) == Leftover(s) && !AtTag(Leftover(s))
    decreases |s|
  {
    var t := Skip(s);
    if AtTag(t) {
      LeftoverStops(AfterTag(t));
    } else {
      SkipIsNormal(s);
    }
  }

  // ---- Printing and scanning ----

  predicate IsSeparator(s: string) {
    forall i :: 0 <= i < |s| ==> IsSpace(s[i]) || s[i] == ','
  }

  // One list member: what precedes it, and the tag.
  datatype Item = Item(sep: string, tag: Tag)

  predicate WellFormed(items: seq<Item>) {
    forall i :: 0 <= i < |items| ==> IsSeparator(items[i].sep) && '"' !in items[i].tag.value
  }

  function Render(items: seq<Item>, tail: string): string {
    if items == [] then tail
    else items[0].sep + Printed(items[0].tag) + Render(items[1..], tail)
  }

  function Values(items: seq<Item>): seq<string> {
    seq(|items|, i requires 0 <= i < |items| => items[i].tag.value)
  }

  lemma {:induction false} SkipSeparator(sep: string, s: string)
    requires IsSeparator(sep)
    ensures Skip(sep + s) == Skip(s)
  {
    if sep == [] {
      assert sep + s == s;
    } else {
      SkipSeparator(sep[1..], s);
      assert (sep + s)[1..] == sep[1..] + s;
      if sep[0] == ',' {
        assert TrimStart(sep + s) == sep + s;
      }
    }
  }

  lemma SkipPrinted(t: Tag, rest: string)
    ensures Skip(Printed(t) + rest) == ['"'] + t.value + ['"'] + rest
  {
    var q := ['"'] + t.value + ['"'] + rest;
    assert q[0] == '"' && TrimStart(q) == q;
    assert Skip(q) == q;
    if t.weak {
      var s := Printed(t) + rest;
      assert s == ['W', '/'] + q;
      assert s[..2] == ['W', '/'] && s[2..] == q;
      assert TrimStart(s) == s;
    } else {
      assert Printed(t) + rest == q;
    }
  }

  lemma {:induction false} NoQuote(s: string)
    requires '"' !in s
    ensures FindQuote(s) == |s|
  {
    if s != [] { NoQuote(s[1..]); }
  }

  lemma {:induction false} FindQuoteFirst(v: string, rest: string)
    requires '"' !in v
    ensures FindQuote(v + ['"'] + rest) == |v|
  {
    assert v + ['"'] + rest == v + (['"'] + rest);
    FindQuoteAppend(v, ['"'] + rest);
    NoQuote(v);
  }

  lemma QuotedAtTag(v: string, rest: string)
    requires '"' !in v
    ensures var q := ['"'] + v + ['"'] + rest; AtTag(q) && TagAt(q) == v && AfterTag(q) == rest
  {
    var q := ['"'] + v + ['"'] + rest;
    assert q[1..] == v + ['"'] + rest;
    FindQuoteFirst(v, rest);
    assert FindQuote(q[1..]) == |v|;
    assert q[1..|v| + 1] == v && q[|v| + 2..] == rest;
  }

  lemma SkipToQuoted(sep: string, t: Tag, rest: string)
    requires IsSeparator(sep)
    ensures Skip(sep + Printed(t) + rest) == ['"'] + t.value + ['"'] + rest
  {
    assert sep + Printed(t) + rest == sep + (Printed(t) + rest);
    SkipSeparator(sep, Printed(t) + rest);
    SkipPrinted(t, rest);
  }

  lemma ScanOne(sep: string, t: Tag, rest: string)
    requires IsSeparator(sep) && '"' !in t.value
    ensures ScanTags(sep + Printed(t) + rest) == [t.value] + ScanTags(rest)
  {
    SkipToQuoted(sep, t, rest);
    QuotedAtTag(t.value, rest);
    ScanAtTag(sep + Printed(t) + rest, ['"'] + t.value + ['"'] + rest);
  }

  // Scanning undoes printing, whatever whitespace and commas stand between.
  lemma {:induction false} ScanUndoesRender(items: seq<Item>, tail: string)
    requires WellFormed(items) && IsSeparator(tail)
    ensures ScanTags(Render(items, tail)) == Values(items)
  {
    if items == [] {
      SkipSeparator(tail, []);
      assert tail + [] == tail;
    } else {
      ScanUndoesRender(items[1..], tail);
      ScanOne(items[0].sep, items[0].tag, Render(items[1..], tail));
      assert Values(items) == [items[0].tag.value] + Values(items[1..]);
    }
  }

  lemma {:induction false} TrimEndSplits(s: string)
    ensures TrimEnd(s) == s[..|TrimEnd(s)|] && IsSeparator(s[|TrimEnd(s)|..])
  {
    if s != [] && IsSpace(s[|s| - 1]) {
      var init := s[..|s| - 1];
      TrimEndSplits(init);
      assert s[|TrimEnd(s)|..] == init[|TrimEnd(init)|..] + [s[|s| - 1]];
    }
  }

  lemma SeparatorHasNoTag(l: string, sep: string)
    requires l != [] && !AtTag(l) && IsSeparator(sep)
    ensures !AtTag(l + sep)
  {
    assert (l + sep)[0] == l[0] && (l + sep)[1..] == l[1..] + sep;
    FindQuoteAppend(l[1..], sep);
    NoQuote(sep);
  }

  lemma ScanSeparatorFromStop(l: string, sep: string)
    requires Skip(l) == l && !AtTag(l) && IsSeparator(sep)
    ensures ScanTags(l + sep) == []
  {
    SkipAppend(l, sep);
    SkipSeparator(sep, []);
    assert sep + [] == sep;
    if l != [] { SeparatorHasNoTag(l, sep); }
    assert !AtTag(Skip(l + sep));
    ScanStopped(l + sep);
  }

  lemma ScanTrim(s: string)
    ensures ScanTags(Trim(s)) == ScanTags(s)
  {
    var a := TrimStart(s);
    TrimStartTwice(s);
    assert ScanTags(a) == ScanTags(s);
    var b := TrimEnd(a);
    var sep := a[|b|..];
    TrimEndSplits(a);
    assert a == b + sep;
    ScanAppend(b, sep);
    LeftoverStops(b);
    ScanSeparatorFromStop(Leftover(b), sep);
  }

  lemma OpaqueOfPrinted(t: Tag)
    ensures EtagOpaque(Printed(t)) == Some(t.value)
  {
    var s := Printed(t);
    assert TrimStart(s) == s && TrimEnd(s) == s;
    if t.weak {
      assert s[..2] == ['W', '/'] && s[2..] == ['"'] + t.value + ['"'];
    } else {
      assert s == ['"'] + t.value + ['"'];
      assert s[0] == '"';
    }
    var q := ['"'] + t.value + ['"'];
    assert q[..1] == ['"'] && q[1..] == t.value + ['"'];
    assert (t.value + ['"'])[..|t.value|] == t.value;
  }

  // A text stands for an opaque value exactly when, trimmed, it is that value
  // in quotes, with or without the weak mark.
  lemma OpaqueIff(text: string, value: string)
    ensures EtagOpaque(text) == Some(value) <==>
            Trim(text) == Quoted(value) || Trim(text) == ['W', '/'] + Quoted(value)
  {
    var e := Trim(text);
    var q := Quoted(value);
    assert q[0] == '"' && q[1..] == value + ['"'] && (value + ['"'])[..|value|] == value;
    if e == ['W', '/'] + q { assert e[2..] == q; }
    if EtagOpaque(text) == Some(value) {
      var core := if HasWeakPrefix(e) then e[2..] else e;
      var inner := core[1..];
      assert inner == inner[..|inner| - 1] + [inner[|inner| - 1]];
      assert core == [core[0]] + inner;
      assert core == q;
      if HasWeakPrefix(e) { assert e == [e[0], e[1]] + e[2..]; }
    }
  }

  // The precondition on any text: a star, or a list with the stored opaque
  // value among its tags; without a usable stored tag only a star.
  lemma InmIff(text: string, etag: Option<string>)
    ensures InmMatches(text, etag) <==>
            || Trim(text) == "*"
            || exists value :: etag.Some? && EtagOpaque(etag.value) == Some(value) && value in ScanTags(text)
  {
    ScanTrim(text);
    if InmMatches(text, etag) && Trim(text) != "*" {
      assert EtagOpaque(etag.value) == Some(EtagOpaque(etag.value).value);
    }
  }

  lemma {:induction false} TrimStartMember(s: string, c: char)
    requires c in TrimStart(s)
    ensures c in s
  {
    if s != [] && IsSpace(s[0]) { TrimStartMember(s[1..], c); }
  }

  lemma RenderIsNotStar(items: seq<Item>, tail: string)
    requires WellFormed(items) && IsSeparator(tail)
    ensures Trim(Render(items, tail)) != "*"
  {
    if Trim(Render(items, tail)) == "*" {
      ScanTrim(Render(items, tail));
      ScanUndoesRender(items, tail);
      assert Skip("*") == "*";
      assert |Values(items)| == 0;
      assert items == [] && '*' in Trim(tail);
      TrimEndSplits(TrimStart(tail));
      TrimStartMember(tail, '*');
    }
  }

  // The precondition is list membership under weak comparison: the weak marks
  // of both sides are ignored.
  lemma InmIsMembership(items: seq<Item>, tail: string, stored: Tag)
    requires WellFormed(items) && IsSeparator(tail)
    ensures InmMatches(Render(items, tail), Some(Printed(stored))) <==>
            exists i :: 0 <= i < |items| && items[i].tag.value == stored.value
  {
    var s := Render(items, tail);
    RenderIsNotStar(items, tail);
    ScanTrim(s);
    ScanUndoesRender(items, tail);
    OpaqueOfPrinted(stored);
    assert stored.value in Values(items) <==>
           exists i :: 0 <= i < |items| && items[i].tag.value == stored.value by {
      if i :| 0 <= i < |items| && items[i].tag.value == stored.value {
        assert Values(items)[i] == stored.value;
      }
    }
  }

  // ---- Lists joined with commas ----

  predicate Clean(tags: seq<Tag>) {
    forall i :: 0 <= i < |tags| ==> '"' !in tags[i].value && ',' !in tags[i].value
  }

  function Prints(tags: seq<Tag>): (r: seq<string>)
    ensures |r| == |tags|
  {
    seq(|tags|, i requires 0 <= i < |tags| => Printed(tags[i]))
  }

  function Opaques(tags: seq<Tag>): (r: seq<string>)
    ensures |r| == |tags|
  {
    seq(|tags|, i requires 0 <= i < |tags| => tags[i].value)
  }

  lemma PrintsOfCons(tag: Tag, tags: seq<Tag>)
    ensures Prints([tag] + tags) == [Printed(tag)] + Prints(tags)
  {
  }

  lemma OpaquesOfCons(tag: Tag, tags: seq<Tag>)
    ensures Opaques([tag] + tags) == [tag.value] + Opaques(tags)
  {
  }

  lemma ScanLast(tag: Tag)
    requires '"' !in tag.value
    ensures ScanTags(Printed(tag)) == [tag.value]
  {
    ScanOne("", tag, "");
    assert "" + Printed(tag) + "" == Printed(tag);
    SkipSeparator("", "");
    ScanStopped("");
  }

  lemma ScanFirst(tag: Tag, text: string)
    requires '"' !in tag.value
    ensures ScanTags(Printed(tag) + ", " + text) == [tag.value] + ScanTags(text)
  {
    ScanOne("", tag, ", " + text);
    assert "" + Printed(tag) + (", " + text) == Printed(tag) + ", " + text;
    SkipSeparator(", ", text);
    SameSkipSameTags(", " + text, text);
  }

  lemma JoinPrints(tag: Tag, tags: seq<Tag>)
    ensures Join(Prints([tag] + tags), ", ")
            == if tags == [] then Printed(tag) else Printed(tag) + ", " + Join(Prints(tags), ", ")
  {
    PrintsOfCons(tag, tags);
    assert ([Printed(tag)] + Prints(tags))[1..] == Prints(tags);
  }

  lemma {:induction false} ScanJoined(tags: seq<Tag>)
    requires Clean(tags)
    ensures ScanTags(Join(Prints(tags), ", ")) == Opaques(tags)
  {
    if tags == [] {
      ScanStopped("");
    } else {
      var tag, rest := tags[0], tags[1..];
      assert tags == [tag] + rest;
      JoinPrints(tag, rest);
      OpaquesOfCons(tag, rest);
      ScanJoined(rest);
      if rest == [] {
        ScanLast(tag);
      } else {
        ScanFirst(tag, Join(Prints(rest), ", "));
      }
    }
  }

  // ---- Appending the stored tag to the caller's list ----

  // An unterminated quote closes at the appended tag's own opening quote, so
  // the first tag found contains the separator.
  lemma OpenQuoteSwallows(m: string, t: Tag)
    requires '"' !in m
    ensures var s := ['"'] + (m + (", " + Printed(t))); AtTag(s) && ',' in TagAt(s)
  {
    NoQuote(m);
    QuoteAfterSeparator(t);
    SwallowedFrom(m, ", " + Printed(t));
  }

  lemma {:induction false} QuoteFree(s: string)
    requires FindQuote(s) == |s|
    ensures '"' !in s
  {
    if s != [] {
      QuoteFree(s[1..]);
      assert s == [s[0]] + s[1..];
    }
  }

  lemma QuoteAfterSeparator(t: Tag)
    ensures 1 <= FindQuote(", " + Printed(t)) < |", " + Printed(t)|
  {
    var b := ", " + Printed(t);
    assert b[0] == ',' && b[1..] == [' '] + Printed(t);
    QuoteInPrinted(t);
  }

  lemma SwallowedFrom(m: string, b: string)
    requires FindQuote(m) == |m|
    requires 1 <= FindQuote(b) < |b| && b[0] == ','
    ensures AtTag(['"'] + (m + b)) && ',' in TagAt(['"'] + (m + b))
  {
    var rest := m + b;
    FindQuoteAppend(m, b);
    TagMember(rest, FindQuote(rest), |m|);
  }

  lemma TagMember(rest: string, close: nat, j: nat)
    requires close == FindQuote(rest) && j < close < |rest|
    ensures AtTag(['"'] + rest) && rest[j] in TagAt(['"'] + rest)
  {
    var s := ['"'] + rest;
    assert s[1..] == rest;
    assert TagAt(s) == rest[..close];
    assert rest[..close][j] == rest[j];
  }

  lemma QuoteInPrinted(t: Tag)
    ensures FindQuote([' '] + Printed(t)) < |[' '] + Printed(t)|
  {
    var lead := if t.weak then [' ', 'W', '/'] else [' '];
    assert [' '] + Printed(t) == lead + (['"'] + (t.value + ['"']));
    FindQuoteAppend(lead, ['"'] + (t.value + ['"']));
  }

  // Going on from where the scanner stopped, in each of the three ways it can.
  lemma FromNothing(t: Tag)
    requires '"' !in t.value
    ensures ScanTags(", " + Printed(t)) == [t.value]
  {
    ScanOne(", ", t, "");
    assert ", " + Printed(t) + "" == ", " + Printed(t);
  }

  lemma FromOpenQuote(m: string, t: Tag)
    requires '"' !in m && ',' !in t.value
    ensures ScanTags(['"'] + (m + (", " + Printed(t)))) != [t.value]
  {
    var s := ['"'] + (m + (", " + Printed(t)));
    OpenQuoteSwallows(m, t);
    assert TrimStart(s) == s;
    assert Skip(s) == s;
    ScanAtTag(s, s);
    assert ScanTags(s)[0] == TagAt(s);
  }

  lemma FromOther(l: string, b: string)
    requires l != [] && l[0] != '"' && Skip(l) == l && (b == [] || b[0] != '/')
    ensures ScanTags(l + b) == []
  {
    ScanAppendStopped(l, b);
    assert (l + b)[0] == l[0];
    ScanStopped(l + b);
  }

  lemma OpenTail(l: string)
    requires l != [] && l[0] == '"' && !AtTag(l)
    ensures '"' !in l[1..]
  {
    QuoteFree(l[1..]);
  }

  lemma Requoted(l: string, b: string)
    requires l != [] && l[0] == '"'
    ensures ['"'] + (l[1..] + b) == l + b
  {
  }

  lemma FromUnclosed(l: string, t: Tag)
    requires l != [] && l[0] == '"' && !AtTag(l) && ',' !in t.value
    ensures ScanTags(l + (", " + Printed(t))) != [t.value]
  {
    OpenTail(l);
    FromOpenQuote(l[1..], t);
    Requoted(l, ", " + Printed(t));
  }

  lemma FromStop(l: string, t: Tag)
    requires '"' !in t.value && ',' !in t.value
    requires Skip(l) == l && !AtTag(l)
    ensures ScanTags(l + (", " + Printed(t))) == [t.value] <==> l == []
  {
    if l == [] {
      FromNothing(t);
      assert l + (", " + Printed(t)) == ", " + Printed(t);
    } else if l[0] == '"' {
      FromUnclosed(l, t);
    } else {
      FromOther(l, ", " + Printed(t));
    }
  }

  // Appending `, tag` adds exactly that tag exactly when scanning the caller's
  // list alone runs to its end; an unterminated or malformed list swallows it.
  lemma AppendAddsTagIff(existing: string, t: Tag)
    requires '"' !in t.value && ',' !in t.value
    ensures ScanTags(existing + ", " + Printed(t)) == ScanTags(existing) + [t.value]
            <==> Leftover(existing) == []
  {
    var b := ", " + Printed(t);
    var more := ScanTags(Leftover(existing) + b);
    assert existing + ", " + Printed(t) == existing + b;
    ScanAppend(existing, b);
    LeftoverStops(existing);
    FromStop(Leftover(existing), t);
    assert ScanTags(existing) + more == ScanTags(existing) + [t.value] <==> more == [t.value] by {
      var n := |ScanTags(existing)|;
      assert (ScanTags(existing) + more)[n..] == more;
      assert (ScanTags(existing) + [t.value])[n..] == [t.value];
    }
  }

  // A list this module prints always lets the appended tag through.
  lemma AppendToRendered(items: seq<Item>, tail: string, t: Tag)
    requires WellFormed(items) && IsSeparator(tail) && '"' !in t.value
    ensures ScanTags(Render(items, tail) + ", " + Printed(t)) == Values(items) + [t.value]
  {
    var last := Item(tail + ", ", t);
    RenderAppend(items, tail, t);
    LongerList(items, last);
    ScanUndoesRender(items + [last], "");
  }

  lemma LongerList(items: seq<Item>, last: Item)
    requires WellFormed(items) && '"' !in last.tag.value
    requires exists tail :: IsSeparator(tail) && last.sep == tail + ", "
    ensures WellFormed(items + [last])
    ensures Values(items + [last]) == Values(items) + [last.tag.value]
  {
  }

  lemma {:induction false} RenderAppend(items: seq<Item>, tail: string, t: Tag)
    ensures Render(items + [Item(tail + ", ", t)], "") == Render(items, tail) + ", " + Printed(t)
  {
    var last := [Item(tail + ", ", t)];
    if items == [] {
      assert items + last == last;
      assert Render(last[1..], "") == "";
    } else {
      RenderAppend(items[1..], tail, t);
      assert (items + last)[0] == items[0] && (items + last)[1..] == items[1..] + last;
    }
  }
}
