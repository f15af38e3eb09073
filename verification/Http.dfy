/** Requests, responses and header maps, as the cache sees them. */
module Http {
  import opened Wrappers
  import opened Text

  newtype byte = x: int | 0 <= x < 256
  type Bytes = seq<byte>

  // Chunks put end to end.
  function Flat(chunks: seq<Bytes>): Bytes {
    if chunks == [] then [] else chunks[0] + Flat(chunks[1..])
  }

  lemma {:induction false} FlatAppend(chunks: seq<Bytes>, last: Bytes)
    ensures Flat(chunks + [last]) == Flat(chunks) + last
  {
    var all := chunks + [last];
    if chunks == [] {
      assert all[1..] == [] && last + [] == last;
    } else {
      FlatAppend(chunks[1..], last);
      assert all[1..] == chunks[1..] + [last];
    }
  }

  // Header names are stored lower-case; a name carries one value per line.
  type Headers = map<string, seq<string>>

  // `get_str`: nothing when the header is absent or has several lines.
  function GetStr(h: Headers, name: string): Option<string> {
    if name in h && |h[name]| == 1 then Some(h[name][0]) else None
  }

  function GetValues(h: Headers, name: string): Option<seq<string>> {
    if name in h then Some(h[name]) else None
  }

  function InsertStr(h: Headers, name: string, value: string): Headers {
    h[name := [value]]
  }

  datatype Method =
    | Get | Head | Post | Put | Delete | Patch | Options | Trace
    | Other(name: string, safe: bool)

  predicate IsSafe(m: Method) {
    m.Get? || m.Head? || m.Options? || m.Trace? || (m.Other? && m.safe)
  }

  type Status = nat

  const NOT_MODIFIED: Status := 304

  predicate IsSuccess(s: Status) { 200 <= s < 300 }
  predicate IsRedirection(s: Status) { 300 <= s < 400 }
  predicate IsServerError(s: Status) { 500 <= s < 600 }

  datatype Url = Url(text: string)

  datatype CacheKey = CacheKey(verb: Method, url: Url)

  // Instants and durations are counted in nanoseconds.
  type Time = int
  type Duration = nat

  const SECOND: nat := 1_000_000_000

  // Parsed Cache-Control directives.
  datatype CacheControl = CacheControl(
    noCache: bool,
    noStore: bool,
    isPrivate: bool,
    isPublic: bool,
    mustRevalidate: bool,
    proxyRevalidate: bool,
    immutable: bool,
    isEmpty: bool,
    maxAge: Option<Duration>,
    sMaxAge: Option<Duration>,
    minFresh: Option<Duration>,
    maxStale: Option<Option<Duration>>,
    staleWhileRevalidate: Option<Duration>,
    staleIfError: Option<Duration>)

  const NO_CACHE_DIRECTIVE := CacheControl(
    true, false, false, false, false, false, false, false,
    None, None, None, None, None, None)

  const NO_DIRECTIVES := NO_CACHE_DIRECTIVE.(noCache := false)

  // An absent header carries no directive.
  function Directives(cc: Option<CacheControl>): CacheControl {
    if cc.Some? then cc.value else NO_DIRECTIVES
  }

  // The parsers and URL functions that come from other crates. Every result
  // below holds for any choice of these.
  datatype Library = Library(
    cacheControl: Headers -> Option<CacheControl>,
    cdnCacheControl: Headers -> Option<CacheControl>,
    parseDate: string -> Option<Time>,
    join: (Url, string) -> Option<Url>,
    host: Url -> Option<string>)
}
