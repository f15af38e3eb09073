/** Serving from a stored response, conditional requests, and 304 updates
    (sections 3.2, 4.1 and 4.3 of RFC 9111). */
module Validation {
  import opened Wrappers
  import opened Text
  import opened Http
  import opened Policy
  import opened Freshness
  import opened EntityTags

  datatype CachedResponse = CachedResponse(status: Status, headers: Headers)

  datatype BeforeRequest =
    | Fresh(response: CachedResponse)
    | NotModified(response: CachedResponse)
    | Stale(requestHeaders: Headers, matches: bool)

  datatype AfterResponse =
    | Revalidated(policy: CachePolicy, response: CachedResponse)
    | Modified

  // ---- Hop-by-hop headers (section 7.6.1 of RFC 9110) ----

  const HOP_BY_HOP: set<string> :=
    {"connection", "keep-alive", "proxy-authenticate", "proxy-authorization", "te", "trailer",
     "transfer-encoding", "upgrade"}

  function NamesIn(pieces: seq<string>): set<string> {
    set i | 0 <= i < |pieces| && Trim(pieces[i]) != [] :: Lower(Trim(pieces[i]))
  }

  // The per-hop names a Connection header enumerates.
  function ConnectionNames(h: Headers): set<string> {
    var connection := GetStr(h, "connection");
    if connection.None? then {} else NamesIn(Split(connection.value, ','))
  }

  function WithoutHopByHop(h: Headers): Headers {
    h - (HOP_BY_HOP + ConnectionNames(h))
  }

  method CopyWithoutHopByHopHeaders(h: Headers) returns (out: Headers)
    ensures out == WithoutHopByHop(h)
  {
    out := h - HOP_BY_HOP;
    var connection := GetStr(h, "connection");
    if connection.Some? {
      var pieces := Split(connection.value, ',');
      var i := 0;
      while i < |pieces|
        invariant 0 <= i <= |pieces|
        invariant out == h - (HOP_BY_HOP + NamesIn(pieces[..i]))
      {
        NamesInStep(pieces, i);
        var name := Trim(pieces[i]);
        if name != [] {
          out := out - {Lower(name)};
        }
        i := i + 1;
      }
      assert pieces[..i] == pieces;
    }
  }

  lemma NamesInStep(pieces: seq<string>, i: nat)
    requires i < |pieces|
    ensures NamesIn(pieces[..i + 1])
            == NamesIn(pieces[..i])
               + if Trim(pieces[i]) != [] then {Lower(Trim(pieces[i]))} else {}
  {
    var before, upTo := pieces[..i], pieces[..i + 1];
    assert forall j :: 0 <= j < i ==> upTo[j] == before[j];
    assert upTo[i] == pieces[i];
  }

  // A name the Connection line enumerates, in any letter case.
  ghost predicate OnConnectionLine(h: Headers, name: string) {
    var line := GetStr(h, "connection");
    line.Some? && FoldedFrom(Split(line.value, ','), name)
  }

  // Per-hop, by its name or because the Connection line says so.
  ghost predicate PerHop(h: Headers, name: string) {
    || name == "connection" || name == "keep-alive" || name == "proxy-authenticate"
    || name == "proxy-authorization" || name == "te" || name == "trailer" || name == "transfer-encoding"
    || name == "upgrade" || OnConnectionLine(h, name)
  }

  // A copy carries every header that is not per-hop as it was, and no other.
  lemma CopyIsEndToEnd(h: Headers, name: string)
    ensures GetValues(WithoutHopByHop(h), name) == if PerHop(h, name) then None else GetValues(h, name)
  {
    var line := GetStr(h, "connection");
    if line.Some? {
      var pieces := Split(line.value, ',');
      assert name in NamesIn(pieces) <==> FoldedFrom(pieces, name);
    }
  }

  // ---- Answering from the stored response ----

  function WithAge(h: Headers, p: CachePolicy, now: Time): Headers {
    InsertStr(h, "age", ToDecimal(Age(p, now) / SECOND))
  }

  function ResponseAt(p: CachePolicy, now: Time): CachedResponse {
    CachedResponse(p.responseStatus, WithAge(WithoutHopByHop(p.responseHeaders), p, now))
  }

  const KEPT_ON_304: seq<string> :=
    ["date", "etag", "last-modified", "vary", "cache-control", "content-location", "expires"]

  function Only(h: Headers, names: seq<string>): Headers {
    map n | n in names && n in h :: h[n]
  }

  function Response304At(p: CachePolicy, now: Time): CachedResponse {
    CachedResponse(NOT_MODIFIED, WithAge(Only(p.responseHeaders, KEPT_ON_304), p, now))
  }

  method CachedResponse304(p: CachePolicy, now: Time) returns (r: CachedResponse)
    ensures r == Response304At(p, now)
  {
    var headers: Headers := map[];
    var i := 0;
    while i < |KEPT_ON_304|
      invariant 0 <= i <= |KEPT_ON_304|
      invariant headers == Only(p.responseHeaders, KEPT_ON_304[..i])
    {
      var name := KEPT_ON_304[i];
      assert KEPT_ON_304[..i + 1] == KEPT_ON_304[..i] + [name];
      var value := GetValues(p.responseHeaders, name);
      if value.Some? {
        headers := headers[name := value.value];
      }
      i := i + 1;
    }
    assert KEPT_ON_304[..i] == KEPT_ON_304;
    r := CachedResponse(NOT_MODIFIED, WithAge(headers, p, now));
  }

  // A served response has the stored status and every stored header that is
  // not per-hop, under an age of its own in whole seconds.
  lemma ServedHeaders(p: CachePolicy, now: Time, name: string)
    ensures ResponseAt(p, now).status == p.responseStatus
    ensures GetValues(ResponseAt(p, now).headers, name)
            == if name == "age" then Some([ToDecimal(Age(p, now) / SECOND)])
               else if PerHop(p.responseHeaders, name) then None
               else GetValues(p.responseHeaders, name)
  {
    CopyIsEndToEnd(p.responseHeaders, name);
  }

  // A 304 the cache makes itself carries seven of the stored headers, as they
  // are, and the age; nothing else.
  lemma NotModifiedHeaders(p: CachePolicy, now: Time, name: string)
    ensures Response304At(p, now).status == 304
    ensures GetValues(Response304At(p, now).headers, name)
            == if name == "age" then Some([ToDecimal(Age(p, now) / SECOND)])
               else if name == "date" || name == "etag" || name == "last-modified" || name == "vary"
                       || name == "cache-control" || name == "content-location" || name == "expires"
               then GetValues(p.responseHeaders, name)
               else None
  {
  }

  function ImsMatches(lib: Library, ims: string, cached: Option<string>): bool {
    var since := lib.parseDate(ims);
    if since.None? || cached.None? then false
    else
      var modified := lib.parseDate(cached.value);
      modified.Some? && modified.value <= since.value
  }

  predicate InboundConditionalMatches(lib: Library, p: CachePolicy, request: Headers) {
    var inm := GetStr(request, "if-none-match");
    var ims := GetStr(request, "if-modified-since");
    if inm.Some? then InmMatches(inm.value, GetStr(p.responseHeaders, "etag"))
    else if ims.Some? then ImsMatches(lib, ims.value, GetStr(p.responseHeaders, "last-modified"))
    else false
  }

  // The caller's own precondition: its tags decide when it lists any, whatever
  // date it gives; otherwise the dates do, where both can be read.
  lemma CallerConditionIff(lib: Library, p: CachePolicy, request: Headers, date: seq<string>, since: Time, modified: Time)
    ensures var text := GetStr(request, "if-none-match");
            text.Some? ==>
              && (InboundConditionalMatches(lib, p, request) <==>
                    || Trim(text.value) == "*"
                    || exists value :: GetStr(p.responseHeaders, "etag").Some?
                                       && EtagOpaque(GetStr(p.responseHeaders, "etag").value) == Some(value)
                                       && value in ScanTags(text.value))
              && InboundConditionalMatches(lib, p, request["if-modified-since" := date])
                 == InboundConditionalMatches(lib, p, request)
    ensures GetStr(request, "if-none-match").None? && Dated(lib, request, "if-modified-since", since) ==>
              && (Dated(lib, p.responseHeaders, "last-modified", modified) ==>
                    (InboundConditionalMatches(lib, p, request) <==> modified <= since))
              && ((forall at :: !Dated(lib, p.responseHeaders, "last-modified", at)) ==>
                    !InboundConditionalMatches(lib, p, request))
    ensures GetStr(request, "if-none-match").None? && (forall at :: !Dated(lib, request, "if-modified-since", at)) ==>
              !InboundConditionalMatches(lib, p, request)
  {
    var text := GetStr(request, "if-none-match");
    if text.Some? {
      InmIff(text.value, GetStr(p.responseHeaders, "etag"));
    } else {
      var ims, lm := GetStr(request, "if-modified-since"), GetStr(p.responseHeaders, "last-modified");
      if ims.Some? && lib.parseDate(ims.value).Some? {
        assert Dated(lib, request, "if-modified-since", lib.parseDate(ims.value).value);
      }
      if lm.Some? && lib.parseDate(lm.value).Some? {
        assert Dated(lib, p.responseHeaders, "last-modified", lib.parseDate(lm.value).value);
      }
    }
  }

  predicate VaryMatches(p: CachePolicy, request: Headers) {
    forall i :: 0 <= i < |p.varySnapshot| ==>
      p.varySnapshot[i].0 != "*" && GetStr(request, p.varySnapshot[i].0) == p.varySnapshot[i].1
  }

  predicate SatisfiesWithoutRevalidation(lib: Library, p: CachePolicy, request: Headers, now: Time) {
    var cc := Directives(lib.cacheControl(request));
    if cc.noCache || PragmaNoCache(request) then false
    else if cc.maxAge.Some? && Age(p, now) > cc.maxAge.value then false
    else if cc.minFresh.Some? && TimeToLive(lib, p, now) < cc.minFresh.value then false
    else if IsStale(lib, p, now) then
      var staleness: nat := Age(p, now) - MaxAge(lib, p);
      !MustRevalidate(p)
      && cc.maxStale.Some?
      && (cc.maxStale.value.None? || cc.maxStale.value.value > staleness)
    else true
  }

  function Before(lib: Library, p: CachePolicy, request: Headers, now: Time): BeforeRequest {
    var matches := VaryMatches(p, request);
    if matches && SatisfiesWithoutRevalidation(lib, p, request, now) then
      if InboundConditionalMatches(lib, p, request)
      then NotModified(Response304At(p, now))
      else Fresh(ResponseAt(p, now))
    else Stale(RevalidationHeaders(p, request), matches)
  }

  // When a matching response may be used without contact, as a stretch of the
  // clock: never under no-cache; up to the request's max-age after generation;
  // at least min-fresh before expiry; and before expiry, or, unless it must be
  // revalidated, before expiry plus what max-stale allows.
  lemma UsableStretch(lib: Library, p: CachePolicy, request: Headers, now: Time)
    ensures var cc := Directives(lib.cacheControl(request));
            var t := Clamped(p, now);
            var generated := Expiry(lib, p) - MaxAge(lib, p);
            SatisfiesWithoutRevalidation(lib, p, request, now) <==>
              && !cc.noCache && !PragmaNoCache(request)
              && (cc.maxAge.Some? ==> t <= generated + cc.maxAge.value)
              && (cc.minFresh.Some? ==> cc.minFresh.value == 0 || t + cc.minFresh.value <= Expiry(lib, p))
              && (|| t < Expiry(lib, p)
                  || (!Response(p).mustRevalidate && cc.maxStale.Some?
                      && (cc.maxStale.value.None? || t < Expiry(lib, p) + cc.maxStale.value.value)))
  {
  }

  // With an unlimited `max-stale` and nothing else on the request, the only
  // thing that keeps a stale response from being served is `must-revalidate`:
  // neither a response `no-cache` nor a shared cache's `proxy-revalidate` does.
  lemma OnlyMustRevalidateStopsMaxStale(lib: Library, p: CachePolicy, request: Headers, now: Time)
    requires Directives(lib.cacheControl(request)) == NO_DIRECTIVES.(maxStale := Some(None))
    requires !PragmaNoCache(request)
    ensures Response(p).noCache || (p.options.shared && Response(p).proxyRevalidate) ==> IsStale(lib, p, now)
    ensures SatisfiesWithoutRevalidation(lib, p, request, now)
            <==> !(IsStale(lib, p, now) && Response(p).mustRevalidate)
  {
  }

  // ---- The conditional request (section 4.3.1 of RFC 9111) ----

  function WithStoredEtag(p: CachePolicy, h: Headers): Headers {
    var etag := GetStr(p.responseHeaders, "etag");
    var existing := GetStr(h, "if-none-match");
    if etag.None? then h
    else if existing.Some?
    then InsertStr(h, "if-none-match", existing.value + ", " + etag.value)
    else InsertStr(h, "if-none-match", etag.value)
  }

  predicate ForbidsWeakValidators(p: CachePolicy, h: Headers) {
    !p.requestMethod.Get?
    || "accept-ranges" in h || "if-match" in h || "if-unmodified-since" in h
  }

  function StrongPieces(pieces: seq<string>): seq<string> {
    if pieces == [] then []
    else
      var piece := Trim(pieces[0]);
      (if HasWeakPrefix(piece) then [] else [piece]) + StrongPieces(pieces[1..])
  }

  function StrongOnly(inm: string): string {
    Join(StrongPieces(Split(inm, ',')), ", ")
  }

  function WithoutWeakValidators(h: Headers): Headers {
    var h := h - {"if-modified-since"};
    var inm := GetStr(h, "if-none-match");
    if inm.None? then h
    else if StrongOnly(inm.value) == [] then h - {"if-none-match"}
    else InsertStr(h, "if-none-match", StrongOnly(inm.value))
  }

  function WithStoredDate(p: CachePolicy, h: Headers): Headers {
    var modified := GetStr(p.responseHeaders, "last-modified");
    if "if-modified-since" !in h && modified.Some?
    then InsertStr(h, "if-modified-since", modified.value) else h
  }

  function RevalidationHeaders(p: CachePolicy, request: Headers): Headers {
    var h := WithStoredEtag(p, WithoutHopByHop(request) - {"if-range"});
    if ForbidsWeakValidators(p, h) then WithoutWeakValidators(h) else WithStoredDate(p, h)
  }

  // The source's in-place edits of one header map.
  method RevalidationRequestHeaders(p: CachePolicy, request: Headers) returns (headers: Headers)
    ensures headers == RevalidationHeaders(p, request)
  {
    headers := CopyWithoutHopByHopHeaders(request);
    headers := headers - {"if-range"};
    var etag := GetStr(p.responseHeaders, "etag");
    if etag.Some? {
      var existing := GetStr(headers, "if-none-match");
      var combined := if existing.Some? then existing.value + ", " + etag.value else etag.value;
      headers := InsertStr(headers, "if-none-match", combined);
    }
    if ForbidsWeakValidators(p, headers) {
      headers := headers - {"if-modified-since"};
      var inm := GetStr(headers, "if-none-match");
      if inm.Some? {
        var strong := StrongOnly(inm.value);
        if strong == [] {
          headers := headers - {"if-none-match"};
        } else {
          headers := InsertStr(headers, "if-none-match", strong);
        }
      }
    } else if "if-modified-since" !in headers {
      var modified := GetStr(p.responseHeaders, "last-modified");
      if modified.Some? {
        headers := InsertStr(headers, "if-modified-since", modified.value);
      }
    }
  }

  // The headers the builder may touch.
  function Rewritten(request: Headers): set<string> {
    HOP_BY_HOP + ConnectionNames(request) + {"if-range", "if-none-match", "if-modified-since"}
  }

  lemma RevalidationKeepsOthers(p: CachePolicy, request: Headers, name: string)
    requires name !in Rewritten(request)
    ensures GetValues(RevalidationHeaders(p, request), name) == GetValues(request, name)
  {
    var base := WithoutHopByHop(request) - {"if-range"};
    assert GetValues(base, name) == GetValues(request, name);
    var h := WithStoredEtag(p, base);
    assert GetValues(h, name) == GetValues(base, name);
  }

  // ---- What the origin is asked ----

  // The request carries the header past this hop.
  ghost predicate Carries(request: Headers, name: string) {
    name in request && !PerHop(request, name)
  }

  // Besides its own preconditions the conditional request is the caller's,
  // without what is per-hop.
  lemma ForwardedIsEndToEnd(p: CachePolicy, request: Headers, name: string)
    requires name != "if-none-match" && name != "if-modified-since" && name != "if-range"
    ensures GetValues(RevalidationHeaders(p, request), name)
            == if PerHop(request, name) then None else GetValues(request, name)
  {
    CopyIsEndToEnd(request, name);
    var base := WithoutHopByHop(request) - {"if-range"};
    assert GetValues(base, name) == GetValues(WithoutHopByHop(request), name);
    var h := WithStoredEtag(p, base);
    assert GetValues(h, name) == GetValues(base, name);
  }

  // Weak validators may not be used: not a GET, or ranges or strong
  // preconditions are involved.
  ghost predicate StrongOnlyWanted(p: CachePolicy, request: Headers) {
    !p.requestMethod.Get? || Carries(request, "accept-ranges") || Carries(request, "if-match")
    || Carries(request, "if-unmodified-since")
  }

  lemma WantedIff(p: CachePolicy, request: Headers)
    ensures ForbidsWeakValidators(p, WithStoredEtag(p, WithoutHopByHop(request) - {"if-range"}))
            <==> StrongOnlyWanted(p, request)
  {
    CopyIsEndToEnd(request, "accept-ranges");
    CopyIsEndToEnd(request, "if-match");
    CopyIsEndToEnd(request, "if-unmodified-since");
  }

  // The conditional request has no If-Range. Its date is the caller's, or else
  // the stored Last-Modified; and there is none where weak validators may not
  // be used.
  lemma ConditionalDates(p: CachePolicy, request: Headers)
    ensures var out := RevalidationHeaders(p, request);
            && "if-range" !in out
            && GetValues(out, "if-modified-since")
               == (if StrongOnlyWanted(p, request) then None
                   else if Carries(request, "if-modified-since") then Some(request["if-modified-since"])
                   else var modified := GetStr(p.responseHeaders, "last-modified");
                        if modified.Some? then Some([modified.value]) else None)
  {
    var base := WithoutHopByHop(request) - {"if-range"};
    CopyIsEndToEnd(request, "if-modified-since");
    WantedIff(p, request);
    assert GetValues(base, "if-modified-since")
           == if Carries(request, "if-modified-since") then Some(request["if-modified-since"]) else None;
    var h := WithStoredEtag(p, base);
    assert GetValues(h, "if-modified-since") == GetValues(base, "if-modified-since");
    assert "if-range" !in h;
  }

  // The list the origin sees: the caller's with the stored tag behind it, or
  // the one there is; filtered where weak validators may not be used. A list
  // of the caller's on several lines counts as none.
  lemma ConditionalTags(p: CachePolicy, request: Headers)
    ensures var etag := GetStr(p.responseHeaders, "etag");
            var own := if Carries(request, "if-none-match") && |request["if-none-match"]| == 1
                       then Some(request["if-none-match"][0]) else None;
            var all := if own.Some? && etag.Some? then Some(own.value + ", " + etag.value)
                       else if etag.Some? then etag else own;
            GetStr(RevalidationHeaders(p, request), "if-none-match")
            == if all.Some? && StrongOnlyWanted(p, request)
               then (if StrongOnly(all.value) == [] then None else Some(StrongOnly(all.value))) else all
  {
    var base := WithoutHopByHop(request) - {"if-range"};
    CopyIsEndToEnd(request, "if-none-match");
    WantedIff(p, request);
    assert GetValues(base, "if-none-match")
           == if Carries(request, "if-none-match") then Some(request["if-none-match"]) else None;
    DateLeavesTags(p, WithStoredEtag(p, base));
  }

  function Strong(tags: seq<Tag>): seq<Tag> {
    if tags == [] then [] else (if tags[0].weak then [] else [tags[0]]) + Strong(tags[1..])
  }

  lemma PrintedStands(tag: Tag)
    ensures Trim(Printed(tag)) == Printed(tag) && (HasWeakPrefix(Printed(tag)) <==> tag.weak)
  {
    var text := Printed(tag);
    assert !IsSpace(text[0]) && text[|text| - 1] == '"';
    assert TrimStart(text) == text;
    assert text[0] == 'W' <==> tag.weak;
  }

  lemma {:induction false} StrongPiecesOfPrints(tags: seq<Tag>)
    ensures StrongPieces(Prints(tags)) == Prints(Strong(tags))
  {
    if tags != [] {
      var tag, rest := tags[0], tags[1..];
      StrongPiecesOfPrints(rest);
      PrintedStands(tag);
      assert tags == [tag] + rest;
      PrintsOfCons(tag, rest);
      assert ([Printed(tag)] + Prints(rest))[1..] == Prints(rest);
      var kept := if tag.weak then [] else [Printed(tag)];
      assert StrongPieces(Prints(tags)) == kept + StrongPieces(Prints(rest));
      if tag.weak {
        assert Strong(tags) == [] + Strong(rest) == Strong(rest);
      } else {
        PrintsOfCons(tag, Strong(rest));
      }
    }
  }

  lemma {:induction false} StrongIsClean(tags: seq<Tag>)
    requires Clean(tags)
    ensures Clean(Strong(tags))
  {
    if tags != [] { StrongIsClean(tags[1..]); }
  }

  // The filter drops exactly the weak tags of a list and keeps the others in
  // order.
  lemma FilterKeepsStrongTags(tags: seq<Tag>)
    requires tags != [] && Clean(tags)
    ensures ScanTags(StrongOnly(Join(Prints(tags), ","))) == Opaques(Strong(tags))
  {
    forall i | 0 <= i < |tags| ensures ',' !in Prints(tags)[i] {
      assert Prints(tags)[i] == Printed(tags[i]);
    }
    SplitJoin(Prints(tags), ',');
    StrongPiecesOfPrints(tags);
    StrongIsClean(tags);
    ScanJoined(Strong(tags));
  }

  lemma StrongListStays(h: Headers, tag: string)
    requires GetStr(h, "if-none-match") == Some(tag) && StrongOnly(tag) == tag && tag != []
    ensures GetStr(WithoutWeakValidators(h), "if-none-match") == Some(tag)
  {
    var kept := h - {"if-modified-since"};
    assert GetStr(kept, "if-none-match") == Some(tag);
  }

  lemma DateLeavesTags(p: CachePolicy, h: Headers)
    ensures GetStr(WithStoredDate(p, h), "if-none-match") == GetStr(h, "if-none-match")
  {
  }

  lemma EtagAlone(p: CachePolicy, request: Headers, tag: string)
    requires "if-none-match" !in request
    requires GetStr(p.responseHeaders, "etag") == Some(tag)
    ensures GetStr(WithStoredEtag(p, WithoutHopByHop(request) - {"if-range"}), "if-none-match") == Some(tag)
  {
  }

  // When the request lists no tags, the conditional request lists exactly the
  // stored strong tag, even after the weak-validator filter.
  lemma RevalidationListsStoredTag(p: CachePolicy, request: Headers, value: string)
    requires "if-none-match" !in request
    requires GetStr(p.responseHeaders, "etag") == Some(Printed(Tag(false, value)))
    requires ',' !in value && '"' !in value
    ensures GetStr(RevalidationHeaders(p, request), "if-none-match") == Some(Printed(Tag(false, value)))
    ensures ScanTags(Printed(Tag(false, value))) == [value]
  {
    var tag := Printed(Tag(false, value));
    var h := WithStoredEtag(p, WithoutHopByHop(request) - {"if-range"});
    EtagAlone(p, request, tag);
    StrongTagSurvives(value);
    if ForbidsWeakValidators(p, h) {
      StrongListStays(h, tag);
    } else {
      DateLeavesTags(p, h);
    }
    ScanStoredTag(value);
  }

  lemma ScanStoredTag(value: string)
    requires '"' !in value
    ensures ScanTags(Printed(Tag(false, value))) == [value]
  {
    var tag := Printed(Tag(false, value));
    ScanOne("", Tag(false, value), "");
    assert "" + tag + "" == tag;
  }

  lemma StrongTagSurvives(value: string)
    requires ',' !in value
    ensures StrongOnly(Printed(Tag(false, value))) == Printed(Tag(false, value))
    ensures Printed(Tag(false, value)) != []
  {
    var tag := Printed(Tag(false, value));
    assert ',' !in tag;
    SplitWithoutSeparator(tag, ',');
    assert TrimStart(tag) == tag && TrimEnd(tag) == tag;
    assert StrongPieces([tag]) == [tag] by {
      assert StrongPieces([tag][1..]) == [];
    }
  }

  // ---- The origin's reply ----

  const BODY_DESCRIPTION: set<string> :=
    {"content-length", "content-encoding", "transfer-encoding", "content-range"}

  // The reply's fields win, except the excluded ones.
  function MergedExcept(stored: Headers, reply: Headers, excluded: set<string>): Headers {
    stored + (reply - excluded)
  }

  // The 304's fields win, except those that describe the body.
  function Merged(stored: Headers, reply: Headers): Headers {
    MergedExcept(stored, reply, BODY_DESCRIPTION)
  }

  method MergeExcept(stored: Headers, reply: Headers, excluded: set<string>) returns (out: Headers)
    ensures out == MergedExcept(stored, reply, excluded)
  {
    out := stored;
    var names := reply.Keys;
    MergeNothing(stored, reply, excluded);
    while names != {}
      invariant names <= reply.Keys
      invariant out == MergedExcept(stored, reply - names, excluded)
      decreases names
    {
      var name :| name in names;
      MergeStep(stored, reply, excluded, names, name);
      if name !in excluded {
        out := out[name := reply[name]];
      }
      names := names - {name};
    }
    assert reply - {} == reply;
  }

  lemma MergeNothing(stored: Headers, reply: Headers, excluded: set<string>)
    ensures MergedExcept(stored, reply - reply.Keys, excluded) == stored
  {
    assert reply - reply.Keys == map[];
  }

  method MergeRevalidationHeaders(stored: Headers, reply: Headers) returns (out: Headers)
    ensures out == Merged(stored, reply)
  {
    out := MergeExcept(stored, reply, BODY_DESCRIPTION);
  }

  lemma MergeStep(stored: Headers, reply: Headers, excluded: set<string>, names: set<string>, name: string)
    requires name in names && names <= reply.Keys
    ensures MergedExcept(stored, reply - (names - {name}), excluded)
            == if name in excluded then MergedExcept(stored, reply - names, excluded)
               else MergedExcept(stored, reply - names, excluded)[name := reply[name]]
  {
    var rest := reply - names;
    if name in excluded {
      assert reply - (names - {name}) - excluded == rest - excluded;
    } else {
      assert reply - (names - {name}) - excluded == (rest - excluded)[name := reply[name]];
    }
  }

  function After(
    lib: Library, p: CachePolicy, request: Headers, status: Status, reply: Headers, time: Time)
    : AfterResponse
  {
    if status == NOT_MODIFIED then
      var policy := NewPolicy(lib, p.requestMethod, request, p.responseStatus,
                              Merged(p.responseHeaders, reply), time, p.options);
      Revalidated(policy, ResponseAt(policy, time))
    else Modified
  }

  // ---- Vary signatures ----

  // A policy matches the request it was built from exactly when no Vary line
  // lists `*`.
  lemma OwnRequestMatchesIff(
    lib: Library, verb: Method, request: Headers, status: Status, response: Headers, time: Time,
    options: CacheOptions)
    ensures VaryMatches(NewPolicy(lib, verb, request, status, response, time, options), request)
            <==> !ListsStar(response)
  {
    var names := VaryNames(response);
    var snapshot := NewPolicy(lib, verb, request, status, response, time, options).varySnapshot;
    VaryNamesStar(response);
    assert forall i :: 0 <= i < |names| ==> snapshot[i] == (names[i], GetStr(request, names[i]));
    if "*" in names {
      var i :| 0 <= i < |names| && names[i] == "*";
      assert snapshot[i].0 == "*";
    }
  }

  // And it matches another request exactly when, besides, that request carries
  // the same value for every listed member.
  lemma MatchesIff(
    lib: Library, verb: Method, request: Headers, status: Status, response: Headers, time: Time,
    options: CacheOptions, other: Headers)
    ensures VaryMatches(NewPolicy(lib, verb, request, status, response, time, options), other)
            <==> !ListsStar(response) && SameSelection(response, request, other)
  {
    var names := VaryNames(response);
    var snapshot := NewPolicy(lib, verb, request, status, response, time, options).varySnapshot;
    VaryNamesStar(response);
    SelectionByName(response, request, other);
    assert forall i :: 0 <= i < |names| ==> snapshot[i] == (names[i], GetStr(request, names[i]));
    if "*" in names {
      var i :| 0 <= i < |names| && names[i] == "*";
      assert snapshot[i].0 == "*";
    }
  }

  // The stored snapshot is what the stored headers give for some request.
  ghost predicate Captured(p: CachePolicy) {
    exists request: Headers :: p.varySnapshot == BuildVarySnapshot(p.responseHeaders, request)
  }

  lemma SnapshotNames(p: CachePolicy)
    requires Captured(p)
    ensures |p.varySnapshot| == |VaryNames(p.responseHeaders)|
    ensures forall i :: 0 <= i < |p.varySnapshot| ==>
              p.varySnapshot[i].0 == VaryNames(p.responseHeaders)[i]
  {
  }

  // Refreshing with a 304 keeps the signature exactly when the merged headers
  // name the same selecting headers and the forwarded request still carries
  // the stored values for them.
  lemma RefreshSignatureIff(
    lib: Library, p: CachePolicy, request: Headers, reply: Headers, time: Time)
    requires Captured(p)
    ensures var after := After(lib, p, request, NOT_MODIFIED, reply, time);
            after.Revalidated?
            && (SameVariantAs(after.policy, p) <==>
                VaryNames(Merged(p.responseHeaders, reply)) == VaryNames(p.responseHeaders)
                && forall i :: 0 <= i < |p.varySnapshot| ==>
                     GetStr(request, p.varySnapshot[i].0) == p.varySnapshot[i].1)
  {
    var renewed := After(lib, p, request, NOT_MODIFIED, reply, time).policy.varySnapshot;
    var stored := p.varySnapshot;
    var names, merged := VaryNames(p.responseHeaders), VaryNames(Merged(p.responseHeaders, reply));
    SnapshotNames(p);
    assert forall i :: 0 <= i < |merged| ==> renewed[i] == (merged[i], GetStr(request, merged[i]));
    if renewed == stored {
      assert forall i :: 0 <= i < |merged| ==> merged[i] == renewed[i].0 == stored[i].0 == names[i];
      assert merged == names;
    }
  }

  // A 304 without Vary, for a stored response whose Vary names nothing the
  // conditional-request builder rewrites, refreshes that same variant.
  lemma RefreshKeepsVariant(
    lib: Library, p: CachePolicy, request: Headers, reply: Headers, time: Time)
    requires Captured(p) && VaryMatches(p, request)
    requires "vary" !in reply
    requires forall n :: n in VaryNames(p.responseHeaders) ==> n !in Rewritten(request)
    ensures var after := After(lib, p, RevalidationHeaders(p, request), NOT_MODIFIED, reply, time);
            after.Revalidated? && SameVariantAs(after.policy, p)
  {
    var forwarded := RevalidationHeaders(p, request);
    SnapshotNames(p);
    forall i | 0 <= i < |p.varySnapshot|
      ensures GetStr(forwarded, p.varySnapshot[i].0) == p.varySnapshot[i].1
    {
      assert p.varySnapshot[i].0 in VaryNames(p.responseHeaders);
      RevalidationKeepsOthers(p, request, p.varySnapshot[i].0);
    }
    assert GetValues(Merged(p.responseHeaders, reply), "vary")
           == GetValues(p.responseHeaders, "vary");
    RefreshSignatureIff(lib, p, forwarded, reply, time);
  }

  // A 304 that adds a Vary line moves the refreshed policy to another variant.
  lemma VaryOn304MovesVariant(lib: Library, p: CachePolicy, request: Headers, time: Time)
    requires "vary" !in p.responseHeaders && p.varySnapshot == []
    ensures var after := After(lib, p, request, NOT_MODIFIED, map["vary" := ["a"]], time);
            after.Revalidated? && !SameVariantAs(after.policy, p)
  {
    var merged := Merged(p.responseHeaders, map["vary" := ["a"]]);
    assert merged["vary"] == ["a"];
    SplitWithoutSeparator("a", ',');
    assert PieceNames(["a"]) == [Lower("a")] + PieceNames(["a"][1..]);
    assert |VaryNames(merged)| >= 1;
  }

  // ---- A refresh starts the clock again ----

  // What the merged headers announce, and the time since.
  function AgeSince(stored: Headers, reply: Headers, elapsed: Duration): Duration {
    AgeHeaderSeconds(Merged(stored, reply)) * SECOND + elapsed
  }

  // After a 304 the age counts from its arrival, on top of what the merged
  // headers announce; and the response is fresh on arrival exactly when its
  // lifetime exceeds that.
  lemma RefreshRestartsClock(
    lib: Library, p: CachePolicy, request: Headers, reply: Headers, time: Time, now: Time)
    requires time <= now
    ensures var after := After(lib, p, request, NOT_MODIFIED, reply, time);
            && after.Revalidated?
            && Age(after.policy, now) == AgeSince(p.responseHeaders, reply, now - time)
            && (IsStale(lib, after.policy, time) <==>
                  MaxAge(lib, after.policy) <= AgeSince(p.responseHeaders, reply, 0))
            && after.policy.responseTime == time && after.policy.options == p.options
            && after.response == ResponseAt(after.policy, time)
  {
  }

  // The age is the 304's if it announces one, and else the stored one.
  lemma AnnouncedAge(stored: Headers, reply: Headers)
    ensures AgeHeaderSeconds(Merged(stored, reply))
            == if "age" in reply then AgeHeaderSeconds(reply) else AgeHeaderSeconds(stored)
  {
    MergedValue(stored, reply, "age");
  }

  // ---- Any number of refreshes ----

  datatype Refresh = Refresh(request: Headers, reply: Headers, time: Time)

  function RefreshAll(lib: Library, p: CachePolicy, refreshes: seq<Refresh>): CachePolicy {
    if refreshes == [] then p
    else
      var n := |refreshes| - 1;
      var last := refreshes[n];
      After(lib, RefreshAll(lib, p, refreshes[..n]), last.request, NOT_MODIFIED, last.reply,
            last.time).policy
  }

  function Replies(refreshes: seq<Refresh>): (r: seq<Headers>)
    ensures |r| == |refreshes|
    ensures forall i :: 0 <= i < |r| ==> r[i] == refreshes[i].reply
  {
    seq(|refreshes|, i requires 0 <= i < |refreshes| => refreshes[i].reply)
  }

  function MergeAll(stored: Headers, replies: seq<Headers>): Headers {
    if replies == [] then stored
    else Merged(MergeAll(stored, replies[..|replies| - 1]), replies[|replies| - 1])
  }

  lemma {:induction false} RefreshAllFields(lib: Library, p: CachePolicy, refreshes: seq<Refresh>)
    ensures var q := RefreshAll(lib, p, refreshes);
            && q.responseStatus == p.responseStatus
            && q.requestMethod == p.requestMethod
            && q.options == p.options
            && q.responseTime == (if refreshes == [] then p.responseTime else refreshes[|refreshes| - 1].time)
            && q.responseHeaders == MergeAll(p.responseHeaders, Replies(refreshes))
  {
    if refreshes != [] {
      var n := |refreshes| - 1;
      RefreshAllFields(lib, p, refreshes[..n]);
      assert Replies(refreshes[..n]) == Replies(refreshes)[..n];
    }
  }

  // `last` is the last 304 that carried the field; -1 if none did.
  predicate LastCarrier(replies: seq<Headers>, name: string, last: int) {
    && -1 <= last < |replies|
    && (last >= 0 ==> name in replies[last])
    && forall j :: last < j < |replies| ==> name !in replies[j]
  }

  function LastCarrierOf(replies: seq<Headers>, name: string): (last: int)
    ensures LastCarrier(replies, name, last)
  {
    var n := |replies| - 1;
    if replies == [] then -1
    else if name in replies[n] then n
    else LastCarrierOf(replies[..n], name)
  }

  lemma MergedValue(stored: Headers, reply: Headers, name: string)
    ensures GetValues(Merged(stored, reply), name)
            == if name in reply && name !in BODY_DESCRIPTION then Some(reply[name])
               else GetValues(stored, name)
  {
  }

  lemma {:induction false} MergeAllValue(
    stored: Headers, replies: seq<Headers>, name: string, last: int)
    requires LastCarrier(replies, name, last)
    ensures GetValues(MergeAll(stored, replies), name)
            == if name in BODY_DESCRIPTION || last < 0 then GetValues(stored, name)
               else Some(replies[last][name])
  {
    if replies != [] {
      var n := |replies| - 1;
      var before := replies[..n];
      var earlier := if last < n then last else LastCarrierOf(before, name);
      MergeAllValue(stored, before, name, earlier);
      MergedValue(MergeAll(stored, before), replies[n], name);
    }
  }

  predicate DescribesBody(name: string) {
    name == "content-length" || name == "content-encoding" || name == "transfer-encoding" || name == "content-range"
  }

  // Through any number of 304s the status and the fields that describe the
  // body stay those stored with it, and every other field is the one in the
  // last 304 that carried it, or the original if none did.
  lemma RefreshesKeepBodyDescription(
    lib: Library, p: CachePolicy, refreshes: seq<Refresh>, name: string, last: int)
    requires LastCarrier(Replies(refreshes), name, last)
    ensures var q := RefreshAll(lib, p, refreshes);
            && q.responseStatus == p.responseStatus
            && q.options == p.options && q.requestMethod == p.requestMethod
            && q.responseTime == (if refreshes == [] then p.responseTime else refreshes[|refreshes| - 1].time)
            && GetValues(q.responseHeaders, name)
               == if DescribesBody(name) || last < 0 then GetValues(p.responseHeaders, name)
                  else Some(refreshes[last].reply[name])
  {
    RefreshAllFields(lib, p, refreshes);
    MergeAllValue(p.responseHeaders, Replies(refreshes), name, last);
  }
}

/** What becomes of Age along a chain of caches. */
module AgeChain {
  import opened Wrappers
  import opened Text
  import opened Http
  import opened Policy
  import opened Freshness
  import opened Validation

  // One cache: what it was asked for, its options, and when it captured.
  datatype Hop = Hop(verb: Method, request: Headers, options: CacheOptions, time: Time)

  // Each cache captures, at the instant of serving, the head the previous one
  // produces; the first captures the origin's.
  function Captured(lib: Library, origin: CachedResponse, hops: seq<Hop>): CachePolicy
    requires hops != []
  {
    var n := |hops| - 1;
    var hop := hops[n];
    var head :=
      if n == 0 then origin else ResponseAt(Captured(lib, origin, hops[..n]), hop.time);
    NewPolicy(lib, hop.verb, hop.request, head.status, head.headers, hop.time, hop.options)
  }

  predicate InOrder(hops: seq<Hop>) {
    forall i, j :: 0 <= i < j < |hops| ==> hops[i].time <= hops[j].time
  }

  lemma ServedAge(p: CachePolicy, now: Time)
    requires Age(p, now) <= DURATION_MAX
    ensures AgeHeaderSeconds(ResponseAt(p, now).headers) == Age(p, now) / SECOND
  {
    ParsePrintedAge(Age(p, now) / SECOND);
  }

  // The age the origin announced, if any, and the time since the first capture.
  function TrueAge(origin: CachedResponse, first: Hop, now: Time): int {
    AgeHeaderSeconds(origin.headers) * SECOND + (now - first.time)
  }

  // The age computed by the last of k caches never exceeds the true age, and
  // understates it by less than one second for each cache after the first.
  lemma {:induction false} AgeAlongChain(
    lib: Library, origin: CachedResponse, hops: seq<Hop>, now: Time)
    requires hops != [] && InOrder(hops)
    requires hops[|hops| - 1].time <= now && TrueAge(origin, hops[0], now) <= DURATION_MAX
    ensures var trueAge := TrueAge(origin, hops[0], now);
            var age := Age(Captured(lib, origin, hops), now);
            age <= trueAge <= age + (|hops| - 1) * (SECOND - 1)
  {
    var n := |hops| - 1;
    if n > 0 {
      var before, at := hops[..n], hops[n].time;
      var prev := Captured(lib, origin, before);
      AgeAlongChain(lib, origin, before, at);
      HopAge(lib, origin, hops, now);
      Shortfall(Age(prev, at), TrueAge(origin, hops[0], at), n, now - at);
    }
  }

  // Cutting an age to whole seconds costs less than a second more.
  lemma Shortfall(age: nat, trueAge: int, n: nat, resident: nat)
    requires n > 0 && age <= trueAge <= age + (n - 1) * (SECOND - 1)
    ensures var next := (age / SECOND) * SECOND + resident;
            next <= trueAge + resident <= next + n * (SECOND - 1)
  {
    assert n * (SECOND - 1) == (n - 1) * (SECOND - 1) + (SECOND - 1);
    assert age == (age / SECOND) * SECOND + age % SECOND;
  }

  // What the last cache adds to what the one before it announced.
  lemma HopAge(lib: Library, origin: CachedResponse, hops: seq<Hop>, now: Time)
    requires |hops| > 1 && hops[|hops| - 1].time <= now
    requires Age(Captured(lib, origin, hops[..|hops| - 1]), hops[|hops| - 1].time) <= DURATION_MAX
    ensures var n := |hops| - 1;
            var at := hops[n].time;
            Age(Captured(lib, origin, hops), now)
            == (Age(Captured(lib, origin, hops[..n]), at) / SECOND) * SECOND + (now - at)
  {
    ServedAge(Captured(lib, origin, hops[..|hops| - 1]), hops[|hops| - 1].time);
  }
}
