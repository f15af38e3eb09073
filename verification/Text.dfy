/** Optional values. */
module Wrappers {
  datatype Option<+T> = None | Some(value: T)
}

/** The string operations the cache applies to header text: trimming, splitting
    on a separator, ASCII case folding, and decimal integers. Header text is
    ASCII, one `char` per byte. */
module Text {
  import opened Wrappers

  const U64_MAX: nat := 0xFFFF_FFFF_FFFF_FFFF

  predicate IsSpace(c: char) {
    9 <= c as int <= 13 || c == ' '
  }

  function TrimStart(s: string): (r: string)
    ensures |r| <= |s|
    ensures r == [] || !IsSpace(r[0])
  {
    if s != [] && IsSpace(s[0]) then TrimStart(s[1..]) else s
  }

  function TrimEnd(s: string): (r: string)
    ensures |r| <= |s|
  {
    if s != [] && IsSpace(s[|s| - 1]) then TrimEnd(s[..|s| - 1]) else s
  }

  function Trim(s: string): string {
    TrimEnd(TrimStart(s))
  }

  predicate StartsWith(s: string, prefix: string) {
    |prefix| <= |s| && s[..|prefix|] == prefix
  }

  // Pieces between separators; a string with n separators has n + 1 pieces.
  function Split(s: string, sep: char): (r: seq<string>)
    ensures |r| >= 1
  {
    if s == [] then [[]]
    else
      var rest := Split(s[1..], sep);
      if s[0] == sep then [[]] + rest
      else [[s[0]] + rest[0]] + rest[1..]
  }

  function Join(parts: seq<string>, sep: string): string {
    if parts == [] then []
    else if |parts| == 1 then parts[0]
    else parts[0] + sep + Join(parts[1..], sep)
  }

  lemma {:induction false} SplitWithoutSeparator(s: string, sep: char)
    requires sep !in s
    ensures Split(s, sep) == [s]
  {
    if s != [] {
      SplitWithoutSeparator(s[1..], sep);
      assert [s[0]] + s[1..] == s;
    }
  }

  // Splitting and joining undo each other; no piece holds the separator.
  lemma {:induction false} JoinSplit(s: string, sep: char)
    ensures Join(Split(s, sep), [sep]) == s
    ensures forall i :: 0 <= i < |Split(s, sep)| ==> sep !in Split(s, sep)[i]
  {
    if s != [] {
      var rest := Split(s[1..], sep);
      JoinSplit(s[1..], sep);
      assert s == [s[0]] + s[1..];
      if s[0] == sep {
        assert ([[]] + rest)[1..] == rest;
      } else {
        var all := [[s[0]] + rest[0]] + rest[1..];
        assert all[1..] == rest[1..];
      }
    }
  }

  lemma {:induction false} SplitPiece(part: string, more: string, sep: char)
    requires sep !in part
    ensures Split(part + [sep] + more, sep) == [part] + Split(more, sep)
  {
    var s := part + [sep] + more;
    if part == [] {
      assert s[1..] == more;
    } else {
      assert s[1..] == part[1..] + [sep] + more;
      SplitPiece(part[1..], more, sep);
      assert [part[0]] + part[1..] == part;
    }
  }

  lemma {:induction false} SplitJoin(parts: seq<string>, sep: char)
    requires parts != [] && forall i :: 0 <= i < |parts| ==> sep !in parts[i]
    ensures Split(Join(parts, [sep]), sep) == parts
  {
    if |parts| == 1 {
      SplitWithoutSeparator(parts[0], sep);
    } else {
      SplitJoin(parts[1..], sep);
      SplitPiece(parts[0], Join(parts[1..], [sep]), sep);
      assert parts == [parts[0]] + parts[1..];
    }
  }

  predicate AllSpace(s: string) {
    forall i :: 0 <= i < |s| ==> IsSpace(s[i])
  }

  lemma {:induction false} TrimStartCut(s: string)
    ensures exists a :: AllSpace(a) && s == a + TrimStart(s)
  {
    if s != [] && IsSpace(s[0]) {
      TrimStartCut(s[1..]);
      var a :| AllSpace(a) && s[1..] == a + TrimStart(s[1..]);
      assert s == ([s[0]] + a) + TrimStart(s);
      assert AllSpace([s[0]] + a);
    } else {
      assert s == [] + TrimStart(s);
      assert AllSpace([]);
    }
  }

  lemma {:induction false} TrimEndCut(s: string)
    ensures exists b :: AllSpace(b) && s == TrimEnd(s) + b
    ensures TrimEnd(s) == [] || !IsSpace(TrimEnd(s)[|TrimEnd(s)| - 1])
    ensures TrimEnd(s) == [] || TrimEnd(s)[0] == s[0]
  {
    if s != [] && IsSpace(s[|s| - 1]) {
      var init := s[..|s| - 1];
      TrimEndCut(init);
      var b :| AllSpace(b) && init == TrimEnd(init) + b;
      assert s == TrimEnd(s) + (b + [s[|s| - 1]]);
      assert AllSpace(b + [s[|s| - 1]]);
    } else {
      assert s == TrimEnd(s) + [];
      assert AllSpace([]);
    }
  }

  // Trimming takes off whitespace at both ends, all of it, and nothing else.
  lemma TrimTakesOffSpace(s: string)
    ensures exists a, b :: AllSpace(a) && AllSpace(b) && s == a + Trim(s) + b
    ensures Trim(s) != [] ==> !IsSpace(Trim(s)[0]) && !IsSpace(Trim(s)[|Trim(s)| - 1])
  {
    var t := TrimStart(s);
    TrimStartCut(s);
    TrimEndCut(t);
    var a :| AllSpace(a) && s == a + t;
    var b :| AllSpace(b) && t == TrimEnd(t) + b;
    assert s == a + Trim(s) + b;
  }

  // A piece ends at the first separator.
  lemma UpToFirst(c: char, a: string, x: string, b: string, y: string)
    requires c !in a && c !in b
    requires a + [c] + x == b + [c] + y
    ensures a == b && x == y
  {
    var s, t := a + [c] + x, b + [c] + y;
    assert s[|a|] == c && t[|b|] == c;
    assert |a| == |b|;
    assert s[..|a|] == a && t[..|b|] == b;
    assert s[|a| + 1..] == x && t[|b| + 1..] == y;
  }

  function LowerChar(c: char): char {
    if 'A' <= c <= 'Z' then (c as int + 32) as char else c
  }

  function Lower(s: string): (r: string)
    ensures |r| == |s|
  {
    seq(|s|, i requires 0 <= i < |s| => LowerChar(s[i]))
  }

  lemma LowerIsStar(s: string)
    ensures Lower(s) == "*" <==> s == "*"
  {
    if Lower(s) == "*" {
      assert Lower(s)[0] == LowerChar(s[0]);
    }
    if s == "*" {
      assert Lower(s)[0] == '*';
    }
  }

  // ---- Decimal integers ----

  predicate IsDigit(c: char) {
    '0' <= c <= '9'
  }

  predicate AllDigits(s: string) {
    forall i :: 0 <= i < |s| ==> IsDigit(s[i])
  }

  function DecimalValue(s: string): nat
    requires AllDigits(s)
  {
    if s == [] then 0
    else DecimalValue(s[..|s| - 1]) * 10 + (s[|s| - 1] as int - '0' as int)
  }

  // `u64::from_str`: an optional plus sign, then one or more digits, in range.
  function ParseU64(s: string): Option<nat> {
    var digits := if StartsWith(s, "+") then s[1..] else s;
    if digits == [] || !AllDigits(digits) then None
    else if DecimalValue(digits) > U64_MAX then None
    else Some(DecimalValue(digits))
  }

  function ToDecimal(n: nat): (r: string)
    ensures r != [] && AllDigits(r)
  {
    var last := [(n % 10 + '0' as int) as char];
    if n < 10 then last else ToDecimal(n / 10) + last
  }

  lemma {:induction false} DecimalRoundTrip(n: nat)
    ensures DecimalValue(ToDecimal(n)) == n
  {
    var s := ToDecimal(n);
    if n >= 10 {
      DecimalRoundTrip(n / 10);
      assert s[..|s| - 1] == ToDecimal(n / 10);
    }
  }

  // Reading back a printed counter, through the trimming that precedes it.
  lemma ParsePrinted(n: nat)
    requires n <= U64_MAX
    ensures ParseU64(Trim(ToDecimal(n))) == Some(n)
  {
    var s := ToDecimal(n);
    DecimalRoundTrip(n);
    assert IsDigit(s[0]) && IsDigit(s[|s| - 1]);
    assert Trim(s) == s;
    assert s[..1] != "+" by { assert s[..1][0] == s[0]; }
  }

  // A sign in front changes nothing, and what does not fit is refused.
  lemma ParseSignedOrTooLarge(n: nat)
    ensures ParseU64("+" + ToDecimal(n)) == ParseU64(ToDecimal(n)) == if n <= U64_MAX then Some(n) else None
  {
    var s := ToDecimal(n);
    DecimalRoundTrip(n);
    assert ("+" + s)[..1] == "+" && ("+" + s)[1..] == s;
    assert s[..1] != "+" by { assert s[..1][0] == s[0]; }
  }
}
