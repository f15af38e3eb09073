/** The client and server cache handlers: lookup, forwarding, and what happens
    to the origin's reply. */
module Handlers {
  import opened Wrappers
  import opened Text
  import opened Http
  import opened Policy
  import opened Freshness
  import opened Storability
  import opened Validation
  import opened Storage
  import Memory
  import Tee

  datatype Config = Config(options: CacheOptions, maxCacheableSize: nat)

  // A body as the origin sends it; the length is known up front or not.
  datatype OriginBody = OriginBody(bytes: Bytes, trailers: Option<Headers>, len: Option<nat>)

  datatype Reply = Reply(status: Status, headers: Headers, body: Option<OriginBody>)

  datatype Body =
    | Replay(entry: Entry)             // streamed from storage
    | MadeNotModified(entry: Entry)    // the empty body of a cache-made 304
    | PassThrough(origin: OriginBody)
    | Teed(origin: OriginBody)         // passed through and written to storage

  datatype Ctx =
    | Hit
    | Revalidation(stored: Entry, key: CacheKey)
    | Miss(key: CacheKey)
    | Unsafe(url: Url)

  datatype Conn = Conn(
    verb: Method,
    url: Url,
    request: Headers,
    status: Option<Status>,
    response: Headers,
    body: Option<Body>,
    error: bool,
    halted: bool,
    ctx: Option<Ctx>)

  datatype PendingPut = PendingPut(key: CacheKey, policy: CachePolicy)
  datatype Background = Background(stored: Entry, key: CacheKey, request: Headers)

  // The connection, the store, and what the handler left running.
  datatype State = State(
    conn: Conn, store: Memory.Buckets, put: Option<PendingPut>, background: Option<Background>)

  // The clock at each reading, and whether storage calls succeed.
  datatype Env = Env(
    atLookup: Time, atReply: Time, atMerge: Time, atStore: Time,
    openOk: bool, putOk: bool, refreshOk: bool)

  // ---- Shared steps ----

  // The first candidate whose Vary signature matches the request.
  function Pick(lib: Library, entries: seq<Entry>, request: Headers, now: Time): Option<Entry> {
    if entries == [] then None
    else
      var before := Before(lib, entries[0].policy, request, now);
      if before.Stale? && !before.matches then Pick(lib, entries[1..], request, now)
      else Some(entries[0])
  }

  function Served(s: State, response: CachedResponse, body: Body): State {
    s.(conn := s.conn.(status := Some(response.status), response := response.headers,
                       body := Some(body)))
  }

  function Halt(s: State): State {
    s.(conn := s.conn.(halted := true, ctx := Some(Hit)))
  }

  function Candidates(s: State): seq<Entry> {
    Memory.BucketOf(s.store, CacheKey(s.conn.verb, s.conn.url))
  }

  // A candidate that may be used as it is.
  function Usable(s: State, stored: Entry, before: BeforeRequest, env: Env): State
    requires !before.Stale?
  {
    if before.NotModified? then Halt(Served(s, before.response, MadeNotModified(stored)))
    else if env.openOk then Halt(Served(s, before.response, Replay(stored)))
    else s.(conn := s.conn.(response := before.response.headers))
  }

  function Forward(s: State, stored: Entry, key: CacheKey, request: Headers): State {
    s.(conn := s.conn.(request := request, ctx := Some(Revalidation(stored, key))))
  }

  function ServeStale(s: State, stored: Entry, now: Time, env: Env): State {
    if env.openOk then Served(s, ResponseAt(stored.policy, now), Replay(stored)) else s
  }

  function HandleRevalidation(
    lib: Library, cfg: Config, s: State, stored: Entry, key: CacheKey, status: Status, env: Env,
    overCap: bool): State
  {
    match After(lib, stored.policy, s.conn.request, status, s.conn.response, env.atMerge)
    case Revalidated(policy, response) =>
      var s := s.(store := if env.refreshOk then Memory.Step(s.store, RefreshEntry(key, policy)) else s.store);
      if env.openOk then Served(s, response, Replay(stored.(policy := policy))) else s
    case Modified => HandleMiss(lib, cfg, s, key, status, env, overCap)
  }

  function HandleMiss(
    lib: Library, cfg: Config, s: State, key: CacheKey, status: Status, env: Env, overCap: bool): State
  {
    var c := s.conn;
    if !IsStorable(lib, c.verb, c.request, status, c.response, cfg.options) then s
    else if overCap then s
    else if !env.putOk then s
    else if c.body.None? || !c.body.value.PassThrough? then s
    else
      var policy := NewPolicy(lib, c.verb, c.request, status, c.response, env.atStore, cfg.options);
      s.(conn := c.(body := Some(Teed(c.body.value.origin))), put := Some(PendingPut(key, policy)))
  }

  // ---- Unsafe methods (section 4.4 of RFC 9111) ----

  const TARGET_HEADERS: seq<string> := ["location", "content-location"]

  function Target(lib: Library, url: Url, response: Headers, header: string): Option<Url> {
    var value := GetStr(response, header);
    if value.None? then None
    else
      var target := lib.join(url, value.value);
      if target.None? || lib.host(target.value) != lib.host(url) then None else target
  }

  function InvalidateUrl(store: Memory.Buckets, url: Url): Memory.Buckets {
    store - {CacheKey(Get, url), CacheKey(Head, url)}
  }

  function InvalidateTarget(store: Memory.Buckets, target: Option<Url>): Memory.Buckets {
    if target.Some? then InvalidateUrl(store, target.value) else store
  }

  function HandleUnsafe(lib: Library, s: State, url: Url, status: Status): State {
    if !IsSuccess(status) && !IsRedirection(status) then s
    else
      var store := InvalidateUrl(s.store, url);
      var store := InvalidateTarget(store, Target(lib, url, s.conn.response, TARGET_HEADERS[0]));
      var store := InvalidateTarget(store, Target(lib, url, s.conn.response, TARGET_HEADERS[1]));
      s.(store := store)
  }

  // ---- The client handler ----

  function ClientRun(lib: Library, s: State, env: Env): State {
    var c := s.conn;
    var key := CacheKey(c.verb, c.url);
    if !IsSafe(c.verb) then s.(conn := c.(ctx := Some(Unsafe(c.url))))
    else
      var picked := Pick(lib, Candidates(s), c.request, env.atLookup);
      if picked.None? then s.(conn := c.(ctx := Some(Miss(key))))
      else
        var stored := picked.value;
        var before := Before(lib, stored.policy, c.request, env.atLookup);
        if !before.Stale? then Usable(s, stored, before, env)
        else if IsSwrEligible(lib, stored.policy, env.atLookup) then
          var s := s.(background := Some(Background(stored, key, before.requestHeaders)));
          if env.openOk then Halt(ServeStale(s, stored, env.atLookup, env)) else s
        else Forward(s, stored, key, before.requestHeaders)
  }

  predicate HeaderOverCap(cfg: Config, response: Headers) {
    var value := GetStr(response, "content-length");
    value.Some? && ParseU64(value.value).Some? && ParseU64(value.value).value > cfg.maxCacheableSize
  }

  function ClientAfter(lib: Library, cfg: Config, s: State, env: Env): State {
    if s.conn.ctx.None? then s
    else
      var ctx := s.conn.ctx.value;
      var s := s.(conn := s.conn.(ctx := None));
      var c := s.conn;
      if ctx.Revalidation? && (c.error || (c.status.Some? && IsServerError(c.status.value)))
         && IsSieEligible(lib, ctx.stored.policy, env.atReply) then
        if env.openOk
        then var s := ServeStale(s, ctx.stored, env.atReply, env); s.(conn := s.conn.(error := false))
        else s
      else if c.status.None? then s
      else
        match ctx
        case Hit => s
        case Revalidation(stored, key) =>
          HandleRevalidation(lib, cfg, s, stored, key, c.status.value, env, HeaderOverCap(cfg, c.response))
        case Miss(key) =>
          HandleMiss(lib, cfg, s, key, c.status.value, env, HeaderOverCap(cfg, c.response))
        case Unsafe(url) => HandleUnsafe(lib, s, url, c.status.value)
  }

  // The network fills in the response, or fails.
  function ClientReceive(s: State, reply: Option<Reply>): State {
    match reply
    case None => s.(conn := s.conn.(error := true))
    case Some(r) =>
      s.(conn := s.conn.(status := Some(r.status), response := r.headers,
                         body := if r.body.Some? then Some(PassThrough(r.body.value)) else None))
  }

  function ClientExchange(lib: Library, cfg: Config, s: State, reply: Option<Reply>, env: Env): State {
    var s := ClientRun(lib, s, env);
    ClientAfter(lib, cfg, if s.conn.halted then s else ClientReceive(s, reply), env)
  }

  // ---- The server handler ----

  function ServerRun(lib: Library, s: State, env: Env): State {
    var c := s.conn;
    var key := CacheKey(c.verb, c.url);
    if !IsSafe(c.verb) then s.(conn := c.(ctx := Some(Unsafe(c.url))))
    else
      var picked := Pick(lib, Candidates(s), c.request, env.atLookup);
      if picked.None? then s.(conn := c.(ctx := Some(Miss(key))))
      else
        var stored := picked.value;
        var before := Before(lib, stored.policy, c.request, env.atLookup);
        if !before.Stale? then Usable(s, stored, before, env)
        else Forward(s, stored, key, before.requestHeaders)
  }

  predicate LengthOverCap(cfg: Config, body: Option<Body>) {
    body.Some? && body.value.PassThrough? && body.value.origin.len.Some?
    && body.value.origin.len.value > cfg.maxCacheableSize
  }

  function ServerAfter(lib: Library, cfg: Config, s: State, env: Env): State {
    if s.conn.ctx.None? then s
    else
      var ctx := s.conn.ctx.value;
      var s := s.(conn := s.conn.(ctx := None));
      var c := s.conn;
      match ctx
      case Hit => s
      case Revalidation(stored, key) =>
        if c.status.Some? && IsServerError(c.status.value) && IsSieEligible(lib, stored.policy, env.atReply)
        then ServeStale(s, stored, env.atReply, env)
        else if c.status.None? then s
        else HandleRevalidation(lib, cfg, s, stored, key, c.status.value, env, LengthOverCap(cfg, c.body))
      case Miss(key) =>
        if c.status.None? then s
        else HandleMiss(lib, cfg, s, key, c.status.value, env, LengthOverCap(cfg, c.body))
      case Unsafe(url) =>
        if c.status.None? then s else HandleUnsafe(lib, s, url, c.status.value)
  }

  // The downstream handler sets its headers over whatever is there, or does
  // nothing.
  function ServerReceive(s: State, reply: Option<Reply>): State {
    match reply
    case None => s
    case Some(r) =>
      s.(conn := s.conn.(status := Some(r.status), response := s.conn.response + r.headers,
                         body := if r.body.Some? then Some(PassThrough(r.body.value)) else None))
  }

  function ServerExchange(lib: Library, cfg: Config, s: State, reply: Option<Reply>, env: Env): State {
    var s := ServerRun(lib, s, env);
    ServerAfter(lib, cfg, if s.conn.halted then s else ServerReceive(s, reply), env)
  }

  // A request on its way in.
  predicate Incoming(s: State) {
    var c := s.conn;
    c.status.None? && c.response == map[] && c.body.None? && !c.error && !c.halted && c.ctx.None?
    && s.put.None? && s.background.None?
  }

  // ---- What the user receives and what storage ends up with ----

  // The bytes and trailers the reader of the final body gets. A tee that gave
  // up on the cache never surfaces trailers.
  function Received(cfg: Config, body: Option<Body>): (Bytes, Option<Headers>) {
    match body
    case None => ([], None)
    case Some(Replay(e)) => (e.body, e.trailers)
    case Some(MadeNotModified(_)) => ([], None)
    case Some(PassThrough(o)) => (o.bytes, o.trailers)
    case Some(Teed(o)) =>
      (o.bytes, if Tee.Fits(|o.bytes|, cfg.maxCacheableSize) then o.trailers else None)
  }

  // Storage once the response body has been read to its end.
  function Settled(cfg: Config, s: State): Memory.Buckets {
    if s.put.Some? && s.conn.body.Some? && s.conn.body.value.Teed? then
      var o := s.conn.body.value.origin;
      var outcome := Tee.StoredOutcome(o.bytes, o.trailers, cfg.maxCacheableSize);
      if outcome.Some? then
        Memory.Step(s.store, PutEntry(s.put.value.key,
                                      Entry(s.put.value.policy, outcome.value.bytes, outcome.value.trailers)))
      else s.store
    else s.store
  }

  // ---- The client handler simulates the server handler ----

  // What the Content-Length line says and what the body object knows agree.
  predicate LengthsAgree(r: Reply) {
    var value := GetStr(r.headers, "content-length");
    (if value.Some? then ParseU64(value.value) else None)
    == (if r.body.Some? then r.body.value.len else None)
  }

  ghost predicate NoSwrCandidate(lib: Library, s: State, env: Env) {
    forall e :: e in Candidates(s) ==> !IsSwrEligible(lib, e.policy, env.atLookup)
  }

  // The place of the first candidate whose signature matches.
  function FirstMatch(entries: seq<Entry>, request: Headers): (r: Option<nat>)
    ensures r.Some? ==>
              && r.value < |entries| && VaryMatches(entries[r.value].policy, request)
              && forall j :: 0 <= j < r.value ==> !VaryMatches(entries[j].policy, request)
    ensures r.None? ==> forall j :: 0 <= j < |entries| ==> !VaryMatches(entries[j].policy, request)
  {
    if entries == [] then None
    else if VaryMatches(entries[0].policy, request) then Some(0)
    else
      var rest := FirstMatch(entries[1..], request);
      if rest.Some? then Some(rest.value + 1) else None
  }

  // The handlers settle on the first matching candidate, usable or not, and
  // on none exactly when none matches.
  lemma {:induction false} PickFacts(lib: Library, entries: seq<Entry>, request: Headers, now: Time)
    ensures var picked, first := Pick(lib, entries, request, now), FirstMatch(entries, request);
            && picked == (if first.Some? then Some(entries[first.value]) else None)
            && (picked.Some? ==> picked.value in entries && VaryMatches(picked.value.policy, request))
  {
    if entries != [] {
      PickFacts(lib, entries[1..], request, now);
    }
  }

  lemma RunsAgree(lib: Library, s: State, env: Env)
    requires NoSwrCandidate(lib, s, env)
    ensures ClientRun(lib, s, env) == ServerRun(lib, s, env)
  {
    PickFacts(lib, Candidates(s), s.conn.request, env.atLookup);
  }

  lemma RunResponse(lib: Library, s: State, env: Env)
    requires Incoming(s) && env.openOk
    ensures var t := ServerRun(lib, s, env);
            !t.conn.halted ==> t.conn.response == map[] && t.conn.body.None? && !t.conn.error && t.conn.ctx.Some?
  {
  }

  lemma AftersAgree(lib: Library, cfg: Config, s: State, env: Env)
    requires !s.conn.error
    requires s.conn.ctx.Some? && !s.conn.ctx.value.Hit? ==>
               s.conn.status.Some?
               && HeaderOverCap(cfg, s.conn.response) == LengthOverCap(cfg, s.conn.body)
    ensures ClientAfter(lib, cfg, s, env) == ServerAfter(lib, cfg, s, env)
  {
  }

  // With no stale-while-revalidate candidate, no transport error, no failing
  // open and lengths that agree, the client and the server handler leave the
  // same response, the same writes and the same storage.
  lemma ClientSimulatesServer(lib: Library, cfg: Config, s: State, reply: Reply, env: Env)
    requires Incoming(s) && env.openOk && NoSwrCandidate(lib, s, env) && LengthsAgree(reply)
    ensures var c := ClientExchange(lib, cfg, s, Some(reply), env);
            var v := ServerExchange(lib, cfg, s, Some(reply), env);
            && c == v
            && Received(cfg, c.conn.body) == Received(cfg, v.conn.body)
            && Settled(cfg, c) == Settled(cfg, v)
  {
    RunsAgree(lib, s, env);
    RunResponse(lib, s, env);
    var run := ServerRun(lib, s, env);
    if !run.conn.halted {
      assert run.conn.response + reply.headers == reply.headers;
      assert ClientReceive(run, Some(reply)) == ServerReceive(run, Some(reply));
      AftersAgree(lib, cfg, ServerReceive(run, Some(reply)), env);
    } else {
      HaltedIsHit(lib, s, env);
      AftersAgree(lib, cfg, run, env);
    }
  }

  lemma HaltedIsHit(lib: Library, s: State, env: Env)
    requires Incoming(s)
    ensures var run := ServerRun(lib, s, env);
            run.conn.halted ==> run.conn.ctx == Some(Hit) && !run.conn.error
  {
  }
}
