/** The captured exchange (`CachePolicy`), its Vary snapshot, and its on-disk
    proxy. */
module Policy {
  import opened Wrappers
  import opened Text
  import opened Http

  datatype CacheOptions = CacheOptions(
    shared: bool,
    cacheHeuristic: real,
    immutableMinTimeToLive: Duration)

  type Snapshot = seq<(string, Option<string>)>

  datatype CachePolicy = CachePolicy(
    requestMethod: Method,
    varySnapshot: Snapshot,
    responseStatus: Status,
    responseHeaders: Headers,
    responseCacheControl: Option<CacheControl>,
    targetedCcInEffect: bool,
    responseTime: Time,
    options: CacheOptions)

  predicate SameVariantAs(p: CachePolicy, q: CachePolicy) {
    p.varySnapshot == q.varySnapshot
  }

  // ---- Effective Cache-Control ----

  predicate IsAlphabetic(c: char) {
    'a' <= c <= 'z' || 'A' <= c <= 'Z'
  }

  predicate IsKeyChar(c: char) {
    IsAlphabetic(c) || IsDigit(c) || c in "_-.*"
  }

  predicate IsValidSfKey(s: string) {
    s != [] && (IsAlphabetic(s[0]) || s[0] == '*')
    && forall i :: 1 <= i < |s| ==> IsKeyChar(s[i])
  }

  predicate IsValidSfMember(piece: string) {
    var member := Trim(piece);
    member != [] && IsValidSfKey(TrimEnd(Split(member, '=')[0]))
  }

  predicate LooksLikeValidSfDictionary(s: string) {
    var s := Trim(s);
    s != [] && forall piece :: piece in Split(s, ',') ==> IsValidSfMember(piece)
  }

  function EffectiveCacheControl(lib: Library, response: Headers, options: CacheOptions)
    : (Option<CacheControl>, bool)
  {
    var raw := GetStr(response, "cdn-cache-control");
    var cdn := lib.cdnCacheControl(response);
    if options.shared && raw.Some? && LooksLikeValidSfDictionary(raw.value)
       && cdn.Some? && !cdn.value.isEmpty
    then (cdn, true)
    else (lib.cacheControl(response), false)
  }

  predicate Contains(s: string, needle: string) {
    StartsWith(s, needle) || (s != [] && Contains(s[1..], needle))
  }

  lemma {:induction false} ContainsIff(s: string, needle: string)
    ensures Contains(s, needle) <==> exists i :: 0 <= i <= |s| && StartsWith(s[i..], needle)
  {
    assert s[0..] == s;
    if s != [] {
      ContainsIff(s[1..], needle);
      if StartsWith(s, needle) {
        assert StartsWith(s[0..], needle);
      } else if Contains(s[1..], needle) {
        var i :| 0 <= i <= |s[1..]| && StartsWith(s[1..][i..], needle);
        assert s[1..][i..] == s[i + 1..];
        assert StartsWith(s[i + 1..], needle);
      }
      if i :| 0 < i <= |s| && StartsWith(s[i..], needle) {
        assert s[1..][i - 1..] == s[i..];
        assert 0 <= i - 1 <= |s[1..]| && StartsWith(s[1..][i - 1..], needle);
      }
    }
  }

  predicate PragmaNoCache(h: Headers) {
    var pragma := GetStr(h, "pragma");
    pragma.Some? && Contains(pragma.value, "no-cache")
  }

  function DeriveResponseCacheControl(lib: Library, response: Headers, options: CacheOptions)
    : (Option<CacheControl>, bool)
  {
    var (cc, targeted) := EffectiveCacheControl(lib, response, options);
    (if cc.None? && PragmaNoCache(response) then Some(NO_CACHE_DIRECTIVE) else cc, targeted)
  }

  // The targeted field takes effect exactly on a shared cache whose response
  // has one well-formed line of it with some directive in it. Then Cache-Control
  // and Pragma have no say; otherwise the targeted field has none, and
  // Pragma: no-cache counts exactly where there is no Cache-Control.
  lemma TargetedFieldDisplaces(
    lib: Library, response: Headers, options: CacheOptions, other: Headers -> Option<CacheControl>)
    ensures var (cc, targeted) := DeriveResponseCacheControl(lib, response, options);
            var name := "cdn-cache-control";
            && (targeted <==>
                  && options.shared && name in response && |response[name]| == 1
                  && LooksLikeValidSfDictionary(response[name][0])
                  && lib.cdnCacheControl(response).Some? && !lib.cdnCacheControl(response).value.isEmpty)
            && (targeted ==>
                  && cc == lib.cdnCacheControl(response)
                  && DeriveResponseCacheControl(lib.(cacheControl := other), response, options) == (cc, targeted))
            && (!targeted ==>
                  && (lib.cacheControl(response).Some? ==> cc == lib.cacheControl(response))
                  && (lib.cacheControl(response).None? ==>
                        cc == if PragmaNoCache(response) then Some(NO_DIRECTIVES.(noCache := true)) else None)
                  && (!options.shared ==>
                        DeriveResponseCacheControl(lib.(cdnCacheControl := other), response, options)
                        == (cc, targeted)))
  {
  }

  // ---- Well-formed targeted fields ----

  // A member of the dictionary: a key, or a key and a value.
  datatype Member = Member(key: string, value: Option<string>)

  function MemberText(m: Member): string {
    if m.value.Some? then m.key + ['='] + m.value.value else m.key
  }

  // Keys start with a letter or a star; nothing else splits the text.
  predicate MemberOk(m: Member) {
    && IsValidSfKey(m.key)
    && (m.value.Some? ==> ',' !in m.value.value && (m.value.value == [] || !IsSpace(m.value.value[|m.value.value| - 1])))
  }

  lemma KeyChars(key: string)
    requires IsValidSfKey(key)
    ensures '=' !in key && ',' !in key && (forall i :: 0 <= i < |key| ==> !IsSpace(key[i]))
  {
  }

  lemma MemberIsValid(m: Member)
    requires MemberOk(m)
    ensures IsValidSfMember(MemberText(m)) && ',' !in MemberText(m)
    ensures MemberText(m) != [] && !IsSpace(MemberText(m)[0]) && !IsSpace(MemberText(m)[|MemberText(m)| - 1])
  {
    var s := MemberText(m);
    KeyChars(m.key);
    assert s[0] == m.key[0];
    if m.value.Some? {
      SplitPiece(m.key, m.value.value, '=');
      assert Split(s, '=')[0] == m.key;
      assert s[|s| - 1] == if m.value.value == [] then '=' else m.value.value[|m.value.value| - 1];
    } else {
      SplitWithoutSeparator(m.key, '=');
    }
    assert TrimStart(s) == s && TrimEnd(s) == s;
    assert TrimEnd(m.key) == m.key;
  }

  function MemberTexts(members: seq<Member>): seq<string> {
    seq(|members|, i requires 0 <= i < |members| => MemberText(members[i]))
  }

  // Every printed list of members is accepted; a list with an empty member, or
  // one whose key starts with anything else, is not.
  lemma PrintedDictionaryIsValid(members: seq<Member>)
    requires members != [] && forall i :: 0 <= i < |members| ==> MemberOk(members[i])
    ensures LooksLikeValidSfDictionary(Join(MemberTexts(members), ","))
  {
    var texts := MemberTexts(members);
    forall i | 0 <= i < |texts|
      ensures IsValidSfMember(texts[i]) && ',' !in texts[i] && texts[i] != []
      ensures !IsSpace(texts[i][0]) && !IsSpace(texts[i][|texts[i]| - 1])
    {
      MemberIsValid(members[i]);
    }
    var s := Join(texts, ",");
    SplitJoin(texts, ',');
    JoinEnds(texts);
    assert TrimStart(s) == s && TrimEnd(s) == s;
  }

  lemma {:induction false} JoinEnds(texts: seq<string>)
    requires texts != [] && forall i :: 0 <= i < |texts| ==> texts[i] != []
    ensures Join(texts, ",") != []
    ensures Join(texts, ",")[0] == texts[0][0]
    ensures var s, last := Join(texts, ","), texts[|texts| - 1]; s[|s| - 1] == last[|last| - 1]
  {
    if |texts| > 1 {
      JoinEnds(texts[1..]);
      var rest := Join(texts[1..], ",");
      var s := texts[0] + "," + rest;
      assert s[|s| - 1] == rest[|rest| - 1];
    }
  }

  lemma BadMemberSpoilsDictionary(parts: seq<string>, bad: nat)
    requires bad < |parts| && forall i :: 0 <= i < |parts| ==> ',' !in parts[i]
    requires var s := Join(parts, ","); Trim(s) == s
    requires var m := Trim(parts[bad]); m == [] || !(IsAlphabetic(m[0]) || m[0] == '*' || m[0] == '=')
    ensures !LooksLikeValidSfDictionary(Join(parts, ","))
  {
    SplitJoin(parts, ',');
    assert parts[bad] in parts;
    var m := Trim(parts[bad]);
    if m != [] {
      KeyStart(m);
    }
  }

  lemma KeyStart(m: string)
    requires m != [] && m[0] != '='
    ensures var key := TrimEnd(Split(m, '=')[0]); key == [] || key[0] == m[0]
  {
    assert Split(m, '=')[0] == [m[0]] + Split(m[1..], '=')[0];
    TrimEndCut(Split(m, '=')[0]);
  }

  // ---- Vary ----

  // The names one list of comma-separated pieces contributes.
  function PieceNames(pieces: seq<string>): seq<string> {
    if pieces == [] then []
    else
      var name := Trim(pieces[0]);
      (if name == [] then [] else [Lower(name)]) + PieceNames(pieces[1..])
  }

  function LineNames(lines: seq<string>): seq<string> {
    if lines == [] then [] else PieceNames(Split(lines[0], ',')) + LineNames(lines[1..])
  }

  function VaryNames(response: Headers): seq<string> {
    var values := GetValues(response, "vary");
    if values.None? then [] else LineNames(values.value)
  }

  function SnapshotOf(names: seq<string>, request: Headers): (r: Snapshot)
    ensures |r| == |names|
  {
    seq(|names|, i requires 0 <= i < |names| => (names[i], GetStr(request, names[i])))
  }

  function BuildVarySnapshot(response: Headers, request: Headers): Snapshot {
    SnapshotOf(VaryNames(response), request)
  }

  predicate IsStar(piece: string) {
    Trim(piece) == "*"
  }

  ghost predicate AnyStar(pieces: seq<string>) {
    exists i :: 0 <= i < |pieces| && IsStar(pieces[i])
  }

  ghost predicate LineListsStar(line: string) {
    AnyStar(Split(line, ','))
  }

  ghost predicate LinesListStar(lines: seq<string>) {
    exists i :: 0 <= i < |lines| && LineListsStar(lines[i])
  }

  // Some line of the Vary header lists `*` as one of its members.
  ghost predicate ListsStar(response: Headers) {
    "vary" in response && LinesListStar(response["vary"])
  }

  lemma {:induction false} PieceNamesStar(pieces: seq<string>)
    ensures "*" in PieceNames(pieces) <==> AnyStar(pieces)
  {
    if pieces != [] {
      var rest := pieces[1..];
      PieceNamesStar(rest);
      LowerIsStar(Trim(pieces[0]));
      assert AnyStar(pieces) <==> IsStar(pieces[0]) || AnyStar(rest) by {
        if AnyStar(rest) {
          var i :| 0 <= i < |rest| && IsStar(rest[i]);
          assert IsStar(pieces[i + 1]);
        }
      }
    }
  }

  lemma {:induction false} LineNamesStar(lines: seq<string>)
    ensures "*" in LineNames(lines) <==> LinesListStar(lines)
  {
    if lines != [] {
      var first, rest := PieceNames(Split(lines[0], ',')), LineNames(lines[1..]);
      LineNamesStar(lines[1..]);
      PieceNamesStar(Split(lines[0], ','));
      assert LineNames(lines) == first + rest;
      assert "*" in first + rest <==> "*" in first || "*" in rest;
      LinesListStarStep(lines);
    }
  }

  lemma LinesListStarStep(lines: seq<string>)
    requires lines != []
    ensures LinesListStar(lines) <==> LineListsStar(lines[0]) || LinesListStar(lines[1..])
  {
    var rest := lines[1..];
    if LinesListStar(rest) {
      var i :| 0 <= i < |rest| && LineListsStar(rest[i]);
      assert LineListsStar(lines[i + 1]);
    }
    if LinesListStar(lines) && !LineListsStar(lines[0]) {
      var i :| 0 <= i < |lines| && LineListsStar(lines[i]);
      assert LineListsStar(rest[i - 1]);
    }
  }

  lemma VaryNamesStar(response: Headers)
    ensures "*" in VaryNames(response) <==> ListsStar(response)
  {
    if "vary" in response {
      LineNamesStar(response["vary"]);
    }
  }

  // A member of some Vary line, as it is written there.
  ghost predicate AmongPieces(pieces: seq<string>, n: string) {
    exists i :: 0 <= i < |pieces| && Trim(pieces[i]) == n
  }

  ghost predicate AmongLines(lines: seq<string>, n: string) {
    exists i :: 0 <= i < |lines| && AmongPieces(Split(lines[i], ','), n)
  }

  ghost predicate Listed(response: Headers, n: string) {
    n != [] && "vary" in response && AmongLines(response["vary"], n)
  }

  // The name is some listed member, its letters folded.
  ghost predicate FoldedFrom(pieces: seq<string>, name: string) {
    exists i :: 0 <= i < |pieces| && Trim(pieces[i]) != [] && Lower(Trim(pieces[i])) == name
  }

  lemma {:induction false} PieceNamesAre(pieces: seq<string>, name: string)
    ensures name in PieceNames(pieces) <==> FoldedFrom(pieces, name)
  {
    if pieces != [] {
      var rest := pieces[1..];
      PieceNamesAre(rest, name);
      if FoldedFrom(rest, name) {
        var i :| 0 <= i < |rest| && Trim(rest[i]) != [] && Lower(Trim(rest[i])) == name;
        assert Trim(pieces[i + 1]) == Trim(rest[i]);
      }
      if i :| 0 < i < |pieces| && Trim(pieces[i]) != [] && Lower(Trim(pieces[i])) == name {
        assert rest[i - 1] == pieces[i];
      }
    }
  }

  lemma {:induction false} LineNamesAre(lines: seq<string>, name: string)
    ensures name in LineNames(lines) <==>
            exists i :: 0 <= i < |lines| && FoldedFrom(Split(lines[i], ','), name)
  {
    if lines != [] {
      var rest := lines[1..];
      LineNamesAre(rest, name);
      PieceNamesAre(Split(lines[0], ','), name);
      if i :| 0 <= i < |rest| && FoldedFrom(Split(rest[i], ','), name) {
        assert lines[i + 1] == rest[i];
      }
      if i :| 0 < i < |lines| && FoldedFrom(Split(lines[i], ','), name) {
        assert rest[i - 1] == lines[i];
      }
    }
  }

  // The selecting names are the listed members with their letters folded: all
  // of them, from every line, and no others.
  lemma VaryNamesAre(response: Headers, name: string)
    ensures name in VaryNames(response) <==> exists n :: Listed(response, n) && Lower(n) == name
  {
    if "vary" in response {
      var lines := response["vary"];
      LineNamesAre(lines, name);
      if i :| 0 <= i < |lines| && FoldedFrom(Split(lines[i], ','), name) {
        var pieces := Split(lines[i], ',');
        var j :| 0 <= j < |pieces| && Trim(pieces[j]) != [] && Lower(Trim(pieces[j])) == name;
        assert AmongPieces(pieces, Trim(pieces[j]));
        assert Listed(response, Trim(pieces[j]));
      }
      if n :| Listed(response, n) && Lower(n) == name {
        var i :| 0 <= i < |lines| && AmongPieces(Split(lines[i], ','), n);
        assert FoldedFrom(Split(lines[i], ','), name);
      }
    }
  }

  // The two requests carry the same value for every listed member, whatever
  // the case it is listed in.
  ghost predicate SameSelection(response: Headers, request: Headers, other: Headers) {
    forall n :: Listed(response, n) ==> GetStr(request, Lower(n)) == GetStr(other, Lower(n))
  }

  lemma SelectionByName(response: Headers, request: Headers, other: Headers)
    ensures SameSelection(response, request, other) <==>
            forall i :: 0 <= i < |VaryNames(response)| ==>
              GetStr(request, VaryNames(response)[i]) == GetStr(other, VaryNames(response)[i])
  {
    var names := VaryNames(response);
    if SameSelection(response, request, other) {
      forall i | 0 <= i < |names| ensures GetStr(request, names[i]) == GetStr(other, names[i]) {
        assert names[i] in names;
        VaryNamesAre(response, names[i]);
      }
    }
    if forall i :: 0 <= i < |names| ==> GetStr(request, names[i]) == GetStr(other, names[i]) {
      forall n | Listed(response, n) ensures GetStr(request, Lower(n)) == GetStr(other, Lower(n)) {
        VaryNamesAre(response, Lower(n));
        var i :| 0 <= i < |names| && names[i] == Lower(n);
      }
    }
  }

  // Two exchanges with one response get one signature exactly when the
  // requests agree on every listed member.
  lemma SameSignatureIff(response: Headers, request: Headers, other: Headers)
    ensures BuildVarySnapshot(response, request) == BuildVarySnapshot(response, other)
            <==> SameSelection(response, request, other)
  {
    var names := VaryNames(response);
    var one, two := BuildVarySnapshot(response, request), BuildVarySnapshot(response, other);
    SelectionByName(response, request, other);
    assert forall i :: 0 <= i < |names| ==>
             one[i] == (names[i], GetStr(request, names[i])) && two[i] == (names[i], GetStr(other, names[i]));
  }

  // ---- Construction and persistence ----

  function NewPolicy(
    lib: Library, verb: Method, request: Headers, status: Status, response: Headers,
    time: Time, options: CacheOptions): CachePolicy
  {
    var (cc, targeted) := DeriveResponseCacheControl(lib, response, options);
    CachePolicy(verb, BuildVarySnapshot(response, request), status, response, cc, targeted,
                time, options)
  }

  // The directly captured fields only; the derived ones are recomputed on load.
  datatype PolicyRepr = PolicyRepr(
    requestMethod: Method,
    varySnapshot: Snapshot,
    responseStatus: Status,
    responseHeaders: Headers,
    responseTime: Time,
    shared: bool,
    cacheHeuristic: real,
    immutableMinTimeToLive: Duration)

  function ToRepr(p: CachePolicy): PolicyRepr {
    var CacheOptions(shared, heuristic, minTtl) := p.options;
    PolicyRepr(p.requestMethod, p.varySnapshot, p.responseStatus, p.responseHeaders,
               p.responseTime, shared, heuristic, minTtl)
  }

  function FromRepr(lib: Library, r: PolicyRepr): CachePolicy {
    var options := CacheOptions(r.shared, r.cacheHeuristic, r.immutableMinTimeToLive);
    var (cc, targeted) := DeriveResponseCacheControl(lib, r.responseHeaders, options);
    CachePolicy(r.requestMethod, r.varySnapshot, r.responseStatus, r.responseHeaders, cc,
                targeted, r.responseTime, options)
  }

  // The derived fields are the ones the constructor computes.
  predicate Derived(lib: Library, p: CachePolicy) {
    (p.responseCacheControl, p.targetedCcInEffect)
    == DeriveResponseCacheControl(lib, p.responseHeaders, p.options)
  }

  // Reloading gives back every field of a policy exactly when its derived
  // fields are the ones the constructor computes.
  lemma ReprRoundTrip(lib: Library, p: CachePolicy)
    ensures FromRepr(lib, ToRepr(p)) == p <==> Derived(lib, p)
  {
  }
}
