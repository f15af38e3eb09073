/** Age, freshness lifetime and stale-serving windows (section 4.2 of RFC 9111,
    RFC 5861). */
module Freshness {
  import opened Wrappers
  import opened Text
  import opened Http
  import opened Policy

  // The text before the first `;` or `,`.
  function FirstSegment(s: string): string {
    if s == [] || s[0] == ';' || s[0] == ',' then [] else [s[0]] + FirstSegment(s[1..])
  }

  function ParseAgeValue(raw: string): Option<nat> {
    ParseU64(Trim(FirstSegment(raw)))
  }

  // The first Age line, in seconds; zero when missing or unparseable.
  function AgeHeaderSeconds(h: Headers): nat {
    if "age" in h && h["age"] != [] then
      var n := ParseAgeValue(h["age"][0]);
      if n.Some? then n.value else 0
    else 0
  }

  function Resident(p: CachePolicy, now: Time): Duration {
    if now >= p.responseTime then now - p.responseTime else 0
  }

  function Age(p: CachePolicy, now: Time): Duration {
    AgeHeaderSeconds(p.responseHeaders) * SECOND + Resident(p, now)
  }

  function Response(p: CachePolicy): CacheControl {
    Directives(p.responseCacheControl)
  }

  predicate NoCache(p: CachePolicy) {
    Response(p).noCache
  }

  predicate MustRevalidate(p: CachePolicy) {
    Response(p).mustRevalidate
  }

  predicate SharedProxyRevalidate(p: CachePolicy) {
    p.options.shared && Response(p).proxyRevalidate
  }

  function ServerDate(lib: Library, p: CachePolicy): Time {
    var date := GetStr(p.responseHeaders, "date");
    if date.Some? && lib.parseDate(date.value).Some?
    then lib.parseDate(date.value).value
    else p.responseTime
  }

  function Max(a: nat, b: nat): nat {
    if a < b then b else a
  }

  function Since(later: Time, earlier: Time): Duration {
    if later >= earlier then later - earlier else 0
  }

  // A ratio of whole seconds, truncated to whole seconds.
  function HeuristicLifetime(diff: Duration, ratio: real): Duration {
    var secs := ((diff / SECOND) as real * ratio).Floor;
    (if secs < 0 then 0 else secs) * SECOND
  }

  // The lifetime when neither a directive nor a guard decides it.
  function FallbackLifetime(lib: Library, p: CachePolicy): Duration {
    var minTtl := if Response(p).immutable then p.options.immutableMinTimeToLive else 0;
    var date := ServerDate(lib, p);
    var expires := GetStr(p.responseHeaders, "expires");
    var modified := GetStr(p.responseHeaders, "last-modified");
    if !p.targetedCcInEffect && expires.Some? then
      var at := lib.parseDate(expires.value);
      if at.None? then 0 else Max(minTtl, Since(at.value, date))
    else if modified.Some? && lib.parseDate(modified.value).Some?
            && date >= lib.parseDate(modified.value).value then
      Max(minTtl, HeuristicLifetime(date - lib.parseDate(modified.value).value,
                                    p.options.cacheHeuristic))
    else minTtl
  }

  function MaxAge(lib: Library, p: CachePolicy): Duration {
    var vary := GetStr(p.responseHeaders, "vary");
    if NoCache(p) then 0
    else if p.options.shared && "set-cookie" in p.responseHeaders
            && !(Response(p).isPublic || Response(p).immutable) then 0
    else if vary.Some? && Trim(vary.value) == "*" then 0
    else if SharedProxyRevalidate(p) then 0
    else if p.options.shared && Response(p).sMaxAge.Some? then
      Response(p).sMaxAge.value
    else if Response(p).maxAge.Some? then
      Response(p).maxAge.value
    else FallbackLifetime(lib, p)
  }

  function TimeToLive(lib: Library, p: CachePolicy, now: Time): Duration {
    var lifetime, age := MaxAge(lib, p), Age(p, now);
    if lifetime >= age then lifetime - age else 0
  }

  predicate IsStale(lib: Library, p: CachePolicy, now: Time) {
    MaxAge(lib, p) <= Age(p, now)
  }

  function OrZero(d: Option<Duration>): Duration {
    if d.Some? then d.value else 0
  }

  function StaleWhileRevalidateWindow(p: CachePolicy): Duration {
    OrZero(Response(p).staleWhileRevalidate)
  }

  function StaleIfErrorWindow(p: CachePolicy): Duration {
    OrZero(Response(p).staleIfError)
  }

  predicate IsEligibleForStaleServing(lib: Library, p: CachePolicy, now: Time, window: Duration) {
    if !IsStale(lib, p, now) || window == 0 then false
    else if MustRevalidate(p) then false
    else if SharedProxyRevalidate(p) then false
    else Since(Age(p, now), MaxAge(lib, p)) < window
  }

  predicate IsSwrEligible(lib: Library, p: CachePolicy, now: Time) {
    IsEligibleForStaleServing(lib, p, now, StaleWhileRevalidateWindow(p))
  }

  predicate IsSieEligible(lib: Library, p: CachePolicy, now: Time) {
    IsEligibleForStaleServing(lib, p, now, StaleIfErrorWindow(p))
  }

  // ---- Which fields decide the lifetime ----

  // The response is never fresh: revalidate every time, a shared cache holding
  // cookies without opt-in, `Vary: *`, or a shared `proxy-revalidate`.
  predicate AlwaysStale(p: CachePolicy) {
    var vary := GetStr(p.responseHeaders, "vary");
    || Response(p).noCache
    || (p.options.shared && Response(p).proxyRevalidate)
    || (vary.Some? && Trim(vary.value) == "*")
    || (p.options.shared && "set-cookie" in p.responseHeaders
        && !Response(p).isPublic && !Response(p).immutable)
  }

  function WithDirectives(p: CachePolicy, cc: CacheControl): CachePolicy {
    p.(responseCacheControl := Some(cc))
  }

  // The source of the lifetime, by what may be changed without changing it:
  // a private cache never looks at the shared-cache fields; a max-age makes
  // Expires, Date and Last-Modified irrelevant; on a shared cache s-maxage
  // makes max-age irrelevant too; a targeted field makes Expires irrelevant.
  lemma LifetimeSources(lib: Library, p: CachePolicy, other: Option<Duration>, flag: bool, dates: Headers)
    requires dates.Keys <= {"expires", "date", "last-modified"}
    ensures AlwaysStale(p) ==> MaxAge(lib, p) == 0
    ensures !AlwaysStale(p) && Response(p).maxAge.None? && (!p.options.shared || Response(p).sMaxAge.None?) ==>
              MaxAge(lib, p) == FallbackLifetime(lib, p)
    ensures !p.options.shared && p.responseCacheControl.Some? ==>
              MaxAge(lib, WithDirectives(p, Response(p).(sMaxAge := other, proxyRevalidate := flag)))
              == MaxAge(lib, p)
    ensures !AlwaysStale(p) && Response(p).maxAge.Some? ==>
              MaxAge(lib, p.(responseHeaders := p.responseHeaders + dates)) == MaxAge(lib, p)
    ensures !AlwaysStale(p) && !p.options.shared && Response(p).maxAge.Some? ==>
              MaxAge(lib, p) == Response(p).maxAge.value
    ensures !AlwaysStale(p) && p.options.shared && Response(p).sMaxAge.Some? ==>
              MaxAge(lib, p) == Response(p).sMaxAge.value
              && MaxAge(lib, WithDirectives(p, Response(p).(maxAge := other))) == MaxAge(lib, p)
    ensures p.targetedCcInEffect ==>
              MaxAge(lib, p.(responseHeaders := p.responseHeaders - {"expires"})) == MaxAge(lib, p)
  {
    DatesDoNotDecide(lib, p, dates);
    if p.targetedCcInEffect { ExpiresIgnored(lib, p); }
  }

  lemma DatesDoNotDecide(lib: Library, p: CachePolicy, dates: Headers)
    requires dates.Keys <= {"expires", "date", "last-modified"}
    ensures !AlwaysStale(p) && Response(p).maxAge.Some? ==>
              MaxAge(lib, p.(responseHeaders := p.responseHeaders + dates)) == MaxAge(lib, p)
  {
    var h := p.responseHeaders + dates;
    assert "vary" !in dates && "set-cookie" !in dates;
    assert GetStr(h, "vary") == GetStr(p.responseHeaders, "vary");
    assert "set-cookie" in h <==> "set-cookie" in p.responseHeaders;
  }

  lemma ExpiresIgnored(lib: Library, p: CachePolicy)
    requires p.targetedCcInEffect
    ensures MaxAge(lib, p.(responseHeaders := p.responseHeaders - {"expires"})) == MaxAge(lib, p)
  {
    var q := p.(responseHeaders := p.responseHeaders - {"expires"});
    assert forall n :: n != "expires" ==> GetStr(q.responseHeaders, n) == GetStr(p.responseHeaders, n);
    assert ServerDate(lib, q) == ServerDate(lib, p);
    assert "set-cookie" in q.responseHeaders <==> "set-cookie" in p.responseHeaders;
  }

  // ---- The timeline of one policy ----

  // The instant at which age reaches the lifetime.
  function Expiry(lib: Library, p: CachePolicy): Time {
    p.responseTime + MaxAge(lib, p) - AgeHeaderSeconds(p.responseHeaders) * SECOND
  }

  // A clock behind the capture instant counts as the capture instant.
  function Clamped(p: CachePolicy, now: Time): Time {
    if now >= p.responseTime then now else p.responseTime
  }

  // Stale responses of this kind are never served within a window.
  predicate NoWindow(p: CachePolicy) {
    Response(p).mustRevalidate || (p.options.shared && Response(p).proxyRevalidate)
  }

  // Inside a window of this length after expiry.
  predicate InWindow(lib: Library, p: CachePolicy, window: Option<Duration>, now: Time) {
    && window.Some? && !NoWindow(p)
    && Expiry(lib, p) <= Clamped(p, now) < Expiry(lib, p) + window.value
  }

  // Each window is the one its own directive opens.
  lemma WindowsAreDirectives(lib: Library, p: CachePolicy, now: Time)
    ensures IsSwrEligible(lib, p, now) <==> InWindow(lib, p, Response(p).staleWhileRevalidate, now)
    ensures IsSieEligible(lib, p, now) <==> InWindow(lib, p, Response(p).staleIfError, now)
  {
  }

  // Time divides once, at expiry: fresh before, stale for ever after; and the
  // stale window is the interval of exactly its own length starting there.
  lemma FreshnessTimeline(lib: Library, p: CachePolicy, window: Duration, now: Time, later: Time)
    requires now <= later
    ensures TimeToLive(lib, p, now)
            == if Clamped(p, now) < Expiry(lib, p) then Expiry(lib, p) - Clamped(p, now) else 0
    ensures Age(p, now) <= Age(p, later) <= Age(p, now) + (later - now)
    ensures IsStale(lib, p, now) <==> Expiry(lib, p) <= Clamped(p, now)
    ensures IsStale(lib, p, now) <==> TimeToLive(lib, p, now) == 0
    ensures IsStale(lib, p, now) ==> IsStale(lib, p, later)
    ensures IsEligibleForStaleServing(lib, p, now, window) <==>
            !NoWindow(p) && Expiry(lib, p) <= Clamped(p, now) < Expiry(lib, p) + window
  {
  }

  // ---- Lifetimes from dates ----

  // A date header with one parseable line.
  predicate Dated(lib: Library, h: Headers, name: string, at: Time) {
    GetStr(h, name).Some? && lib.parseDate(GetStr(h, name).value) == Some(at)
  }

  // Nothing but dates decides the lifetime.
  predicate DatesDecide(p: CachePolicy) {
    !AlwaysStale(p) && Response(p).maxAge.None? && (!p.options.shared || Response(p).sMaxAge.None?)
  }

  // With Expires the response lives from its Date to its Expires: captured at
  // its Date with no age, it expires at that very instant. An unreadable
  // Expires means expired already; an immutable response lives at least its
  // minimum unless so.
  lemma ExpiresIsExpiry(lib: Library, p: CachePolicy, expires: Time, date: Time)
    requires DatesDecide(p) && !p.targetedCcInEffect && Dated(lib, p.responseHeaders, "date", date)
    ensures Dated(lib, p.responseHeaders, "expires", expires) && !Response(p).immutable && date <= expires ==>
              MaxAge(lib, p) == expires - date
              && (p.responseTime == date && AgeHeaderSeconds(p.responseHeaders) == 0 ==> Expiry(lib, p) == expires)
    ensures Dated(lib, p.responseHeaders, "expires", expires) && !Response(p).immutable && expires <= date ==>
              MaxAge(lib, p) == 0
    ensures Dated(lib, p.responseHeaders, "expires", expires) && Response(p).immutable ==>
              MaxAge(lib, p) == Max(p.options.immutableMinTimeToLive, Since(expires, date))
    ensures var raw := GetStr(p.responseHeaders, "expires");
            raw.Some? && lib.parseDate(raw.value).None? ==> MaxAge(lib, p) == 0
  {
  }

  // Without a Date the capture instant stands for it.
  lemma CaptureStandsForDate(lib: Library, p: CachePolicy, expires: Time)
    requires DatesDecide(p) && !p.targetedCcInEffect && !Response(p).immutable
    requires GetStr(p.responseHeaders, "date").None? && Dated(lib, p.responseHeaders, "expires", expires)
    requires p.responseTime <= expires
    ensures MaxAge(lib, p) == expires - p.responseTime
  {
  }

  lemma NonNegative(a: real, b: real)
    requires a >= 0.0 && b >= 0.0
    ensures a * b >= 0.0
  {
  }

  // Without Expires the lifetime is the ratio of the time since the last
  // change, to within the second; and nothing without a last change. An
  // immutable response lives at least its minimum.
  lemma HeuristicIsRatio(lib: Library, p: CachePolicy, modified: Time)
    requires DatesDecide(p) && "expires" !in p.responseHeaders
    requires p.options.cacheHeuristic >= 0.0
    ensures Response(p).immutable ==> MaxAge(lib, p) >= p.options.immutableMinTimeToLive
    ensures Response(p).immutable && "last-modified" !in p.responseHeaders ==>
              MaxAge(lib, p) == p.options.immutableMinTimeToLive
    ensures !Response(p).immutable && Dated(lib, p.responseHeaders, "last-modified", modified) && modified <= ServerDate(lib, p) ==>
              var secs := ((ServerDate(lib, p) - modified) / SECOND) as real;
              var lifetime := (MaxAge(lib, p) / SECOND) as real;
              MaxAge(lib, p) % SECOND == 0 && lifetime <= secs * p.options.cacheHeuristic < lifetime + 1.0
    ensures !Response(p).immutable && "last-modified" !in p.responseHeaders ==> MaxAge(lib, p) == 0
  {
    if Dated(lib, p.responseHeaders, "last-modified", modified) && modified <= ServerDate(lib, p) {
      RatioBounds(ServerDate(lib, p) - modified, p.options.cacheHeuristic);
    }
  }

  lemma RatioBounds(diff: Duration, ratio: real)
    requires ratio >= 0.0
    ensures var lifetime := HeuristicLifetime(diff, ratio);
            && lifetime % SECOND == 0
            && (lifetime / SECOND) as real <= (diff / SECOND) as real * ratio < (lifetime / SECOND) as real + 1.0
  {
    var product := (diff / SECOND) as real * ratio;
    NonNegative((diff / SECOND) as real, ratio);
    var secs := product.Floor;
    assert secs as real <= product < secs as real + 1.0;
    assert secs >= 0;
    WholeSeconds(secs);
  }

  lemma WholeSeconds(secs: nat)
    ensures (secs * SECOND) % SECOND == 0 && (secs * SECOND) / SECOND == secs
  {
  }

  // ---- Where the age sum overflows ----

  const DURATION_MAX: nat := U64_MAX * SECOND + (SECOND - 1)

  // `age` adds two durations of up to 2^64 seconds without saturating. The sum
  // stays representable exactly when the whole seconds leave room.
  lemma AgeFitsIff(p: CachePolicy, now: Time)
    ensures Age(p, now) <= DURATION_MAX <==>
            AgeHeaderSeconds(p.responseHeaders) + Resident(p, now) / SECOND <= U64_MAX
  {
    var secs, r := AgeHeaderSeconds(p.responseHeaders), Resident(p, now);
    assert r == (r / SECOND) * SECOND + r % SECOND;
  }

  // An upstream reaches the other case with one header: the largest Age a
  // parse accepts.
  lemma AgeCanOverflow(p: CachePolicy, now: Time)
    requires p.responseHeaders == map["age" := [ToDecimal(U64_MAX)]]
    requires now >= p.responseTime + SECOND
    ensures Age(p, now) > DURATION_MAX
  {
    ParsePrintedAge(U64_MAX);
  }

  // An Age this cache printed is read back unchanged.
  lemma ParsePrintedAge(n: nat)
    requires n <= U64_MAX
    ensures ParseAgeValue(ToDecimal(n)) == Some(n)
  {
    SegmentOfDigits(ToDecimal(n));
    ParsePrinted(n);
  }

  // A list or parameters after the number are ignored, and so is whitespace
  // around it; of several lines the first counts.
  lemma AgeTakesFirstNumber(n: nat, before: string, after: string, cut: char, rest: string, more: seq<string>)
    requires n <= U64_MAX && AllSpace(before) && AllSpace(after) && (cut == ';' || cut == ',')
    ensures var line := before + ToDecimal(n) + after + [cut] + rest;
            && ParseAgeValue(line) == Some(n)
            && AgeHeaderSeconds(map["age" := [line] + more]) == n
  {
    var digits := ToDecimal(n);
    var head := before + digits + after;
    assert before + digits + after + [cut] + rest == head + [cut] + rest;
    assert forall i :: 0 <= i < |head| ==> head[i] != ';' && head[i] != ',';
    SegmentUpTo(head, cut, rest);
    TrimAround(before, digits, after);
    ParseSignedOrTooLarge(n);
  }

  lemma {:induction false} SegmentUpTo(head: string, cut: char, rest: string)
    requires (cut == ';' || cut == ',') && forall i :: 0 <= i < |head| ==> head[i] != ';' && head[i] != ','
    ensures FirstSegment(head + [cut] + rest) == head
  {
    var s := head + [cut] + rest;
    if head != [] {
      assert s[1..] == head[1..] + [cut] + rest;
      SegmentUpTo(head[1..], cut, rest);
      assert [head[0]] + head[1..] == head;
    }
  }

  lemma {:induction false} TrimAround(before: string, digits: string, after: string)
    requires AllSpace(before) && AllSpace(after) && digits != [] && AllDigits(digits)
    ensures Trim(before + digits + after) == digits
    decreases |before| + |after|
  {
    var s := before + digits + after;
    if before != [] {
      assert s[1..] == before[1..] + digits + after;
      TrimAround(before[1..], digits, after);
    } else {
      assert s == digits + after;
      assert IsDigit(s[0]) && TrimStart(s) == s;
      TrimTail(digits, after);
    }
  }

  lemma {:induction false} TrimTail(digits: string, after: string)
    requires AllSpace(after) && digits != [] && AllDigits(digits)
    ensures TrimEnd(digits + after) == digits
  {
    var s := digits + after;
    if after == [] {
      assert s == digits && IsDigit(s[|s| - 1]);
    } else {
      assert s[..|s| - 1] == digits + after[..|after| - 1];
      TrimTail(digits, after[..|after| - 1]);
    }
  }

  lemma {:induction false} SegmentOfDigits(s: string)
    requires AllDigits(s)
    ensures FirstSegment(s) == s
  {
    if s != [] {
      SegmentOfDigits(s[1..]);
      assert s == [s[0]] + s[1..];
    }
  }
}
