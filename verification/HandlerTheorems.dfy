/** What the two handlers guarantee on every path. */
module HandlerTheorems {
  import opened Wrappers
  import opened Text
  import opened Http
  import opened Policy
  import opened Freshness
  import opened Storability
  import opened EntityTags
  import opened Validation
  import opened Storage
  import opened Handlers
  import Memory
  import Tee

  function Exchange(
    isClient: bool, lib: Library, cfg: Config, s: State, reply: Option<Reply>, env: Env): State
  {
    if isClient then ClientExchange(lib, cfg, s, reply, env) else ServerExchange(lib, cfg, s, reply, env)
  }

  function Start(isClient: bool, lib: Library, s: State, env: Env): State {
    if isClient then ClientRun(lib, s, env) else ServerRun(lib, s, env)
  }

  function Receive(isClient: bool, s: State, reply: Option<Reply>): State {
    if isClient then ClientReceive(s, reply) else ServerReceive(s, reply)
  }

  function Finish(isClient: bool, lib: Library, cfg: Config, s: State, env: Env): State {
    if isClient then ClientAfter(lib, cfg, s, env) else ServerAfter(lib, cfg, s, env)
  }

  lemma ExchangePhases(
    isClient: bool, lib: Library, cfg: Config, s: State, reply: Option<Reply>, env: Env)
    ensures var start := Start(isClient, lib, s, env);
            Exchange(isClient, lib, cfg, s, reply, env)
            == Finish(isClient, lib, cfg,
                      if start.conn.halted then start else Receive(isClient, start, reply), env)
  {
  }

  // The candidate the handler settled on.
  function Chosen(lib: Library, s: State, env: Env): Option<Entry> {
    if IsSafe(s.conn.verb) then Pick(lib, Candidates(s), s.conn.request, env.atLookup) else None
  }

  // ---- must-revalidate ----

  predicate FromStorage(body: Option<Body>) {
    body.Some? && (body.value.Replay? || body.value.MadeNotModified?)
  }

  // What a lookup can leave behind.
  ghost predicate LookupOk(lib: Library, s: State, env: Env, t: State) {
    && (t.conn.halted <==> FromStorage(t.conn.body))
    && (t.conn.halted ==>
          var e := Chosen(lib, s, env);
          && t.conn.ctx == Some(Hit) && e.Some?
          && t.conn.body.value.entry == e.value
          && (IsStale(lib, e.value.policy, env.atLookup) ==> !Response(e.value.policy).mustRevalidate))
    && (t.conn.ctx.Some? && t.conn.ctx.value.Revalidation? ==>
          Chosen(lib, s, env) == Some(t.conn.ctx.value.stored))
    && (!t.conn.halted ==> t.conn.body.None?)
    && t.store == s.store && t.put.None?
  }

  lemma UsableNotForbidden(lib: Library, p: CachePolicy, request: Headers, now: Time)
    ensures !Before(lib, p, request, now).Stale? && IsStale(lib, p, now) ==> !Response(p).mustRevalidate
  {
  }

  lemma ServerLookup(lib: Library, s: State, env: Env)
    requires Incoming(s)
    ensures LookupOk(lib, s, env, ServerRun(lib, s, env))
  {
    var e := Chosen(lib, s, env);
    if e.Some? { UsableNotForbidden(lib, e.value.policy, s.conn.request, env.atLookup); }
  }

  lemma ClientLookup(lib: Library, s: State, env: Env)
    requires Incoming(s)
    ensures LookupOk(lib, s, env, ClientRun(lib, s, env))
  {
    var e := Chosen(lib, s, env);
    if e.Some? { UsableNotForbidden(lib, e.value.policy, s.conn.request, env.atLookup); }
  }

  // Served at lookup only if usable as it is, or inside the client's
  // stale-while-revalidate window.
  lemma ServedAtLookup(isClient: bool, lib: Library, s: State, env: Env)
    requires Incoming(s)
    ensures LookupOk(lib, s, env, Start(isClient, lib, s, env))
  {
    if isClient { ClientLookup(lib, s, env); } else { ServerLookup(lib, s, env); }
  }

  // What the reply can leave behind.
  ghost predicate ReplyOk(s: State, t: State) {
    FromStorage(t.conn.body) ==>
      && s.conn.ctx.Some? && s.conn.ctx.value.Revalidation?
      && t.conn.body.value.entry.body == s.conn.ctx.value.stored.body
      && (s.conn.status == Some(NOT_MODIFIED) || !Response(s.conn.ctx.value.stored.policy).mustRevalidate)
  }

  lemma RevalidationBody(
    lib: Library, cfg: Config, s: State, stored: Entry, key: CacheKey, status: Status, env: Env, overCap: bool)
    requires !FromStorage(s.conn.body)
    ensures var t := HandleRevalidation(lib, cfg, s, stored, key, status, env, overCap);
            FromStorage(t.conn.body) ==> status == NOT_MODIFIED && t.conn.body.value.entry.body == stored.body
  {
  }

  // A validated response: stored on a 304 or within the error window.
  ghost predicate ValidatedOk(stored: Entry, status: Option<Status>, t: State) {
    FromStorage(t.conn.body) ==>
      && t.conn.body.value.entry.body == stored.body
      && (status == Some(NOT_MODIFIED) || !Response(stored.policy).mustRevalidate)
  }

  lemma HandledOk(
    lib: Library, cfg: Config, s: State, stored: Entry, key: CacheKey, env: Env, overCap: bool)
    requires !FromStorage(s.conn.body) && s.conn.status.Some?
    ensures ValidatedOk(stored, s.conn.status,
                        HandleRevalidation(lib, cfg, s, stored, key, s.conn.status.value, env, overCap))
  {
    RevalidationBody(lib, cfg, s, stored, key, s.conn.status.value, env, overCap);
  }

  lemma StaleOk(lib: Library, s: State, stored: Entry, env: Env)
    requires !FromStorage(s.conn.body) && IsSieEligible(lib, stored.policy, env.atReply)
    ensures ValidatedOk(stored, s.conn.status, ServeStale(s, stored, env.atReply, env))
  {
  }

  lemma ClientValidatedOk(lib: Library, cfg: Config, s: State, stored: Entry, key: CacheKey, env: Env)
    requires !FromStorage(s.conn.body) && s.conn.ctx == Some(Revalidation(stored, key))
    ensures ValidatedOk(stored, s.conn.status, ClientAfter(lib, cfg, s, env))
  {
    var u := s.(conn := s.conn.(ctx := None));
    if s.conn.status.Some? { HandledOk(lib, cfg, u, stored, key, env, HeaderOverCap(cfg, u.conn.response)); }
    if IsSieEligible(lib, stored.policy, env.atReply) { StaleOk(lib, u, stored, env); }
  }

  lemma ServerValidatedOk(lib: Library, cfg: Config, s: State, stored: Entry, key: CacheKey, env: Env)
    requires !FromStorage(s.conn.body) && s.conn.ctx == Some(Revalidation(stored, key))
    ensures ValidatedOk(stored, s.conn.status, ServerAfter(lib, cfg, s, env))
  {
    var u := s.(conn := s.conn.(ctx := None));
    if s.conn.status.Some? { HandledOk(lib, cfg, u, stored, key, env, LengthOverCap(cfg, u.conn.body)); }
    if IsSieEligible(lib, stored.policy, env.atReply) { StaleOk(lib, u, stored, env); }
  }

  lemma NotValidatedOk(lib: Library, cfg: Config, s: State, env: Env)
    requires !FromStorage(s.conn.body) && (s.conn.ctx.Some? ==> !s.conn.ctx.value.Revalidation?)
    ensures !FromStorage(ClientAfter(lib, cfg, s, env).conn.body)
    ensures !FromStorage(ServerAfter(lib, cfg, s, env).conn.body)
  {
  }

  // After the reply, storage is served on a 304 or inside the stale-if-error
  // window, which must-revalidate closes.
  lemma ServedAfterReply(isClient: bool, lib: Library, cfg: Config, s: State, env: Env)
    requires !FromStorage(s.conn.body)
    ensures ReplyOk(s, Finish(isClient, lib, cfg, s, env))
  {
    if s.conn.ctx.Some? && s.conn.ctx.value.Revalidation? {
      var stored, key := s.conn.ctx.value.stored, s.conn.ctx.value.key;
      if isClient {
        ClientValidatedOk(lib, cfg, s, stored, key, env);
      } else {
        ServerValidatedOk(lib, cfg, s, stored, key, env);
      }
    } else {
      NotValidatedOk(lib, cfg, s, env);
    }
  }

  // On every path of both handlers, a response from storage is the chosen
  // candidate's; and one that must be revalidated and was stale at lookup is
  // never it, unless a 304 arrived for this very request.
  lemma MustRevalidateIsHonoured(
    isClient: bool, lib: Library, cfg: Config, s: State, reply: Option<Reply>, env: Env)
    requires Incoming(s)
    ensures var t := Exchange(isClient, lib, cfg, s, reply, env);
            FromStorage(t.conn.body) ==>
              var e := Chosen(lib, s, env);
              && e.Some?
              && t.conn.body.value.entry.body == e.value.body
              && (IsStale(lib, e.value.policy, env.atLookup) && Response(e.value.policy).mustRevalidate ==>
                    reply.Some? && reply.value.status == NOT_MODIFIED)
  {
    ExchangePhases(isClient, lib, cfg, s, reply, env);
    ServedAtLookup(isClient, lib, s, env);
    var start := Start(isClient, lib, s, env);
    if start.conn.halted {
      HitIsFinal(isClient, lib, cfg, start, env);
    } else {
      ReceiveFacts(isClient, lib, s, env, reply);
      ServedAfterReply(isClient, lib, cfg, Receive(isClient, start, reply), env);
    }
  }

  lemma HitIsFinal(isClient: bool, lib: Library, cfg: Config, s: State, env: Env)
    requires s.conn.ctx == Some(Hit)
    ensures Finish(isClient, lib, cfg, s, env) == s.(conn := s.conn.(ctx := None))
  {
  }

  lemma ReceiveFacts(isClient: bool, lib: Library, s: State, env: Env, reply: Option<Reply>)
    requires Incoming(s)
    ensures var start := Start(isClient, lib, s, env);
            var t := Receive(isClient, start, reply);
            !start.conn.halted ==>
              && !FromStorage(t.conn.body)
              && t.conn.ctx == start.conn.ctx
              && t.conn.request == start.conn.request && t.conn.verb == s.conn.verb
              && (t.conn.status == Some(NOT_MODIFIED) ==> reply.Some? && reply.value.status == NOT_MODIFIED)
              && t.store == s.store && t.put == start.put
  {
    ServedAtLookup(isClient, lib, s, env);
  }

  // ---- Head and body belong together ----

  // The head of a final response, given where its body comes from.
  ghost predicate HeadFitsBody(c: Conn, reply: Option<Reply>, env: Env) {
    match c.body
    case Some(Replay(e)) =>
      c.status == Some(e.policy.responseStatus)
      && (|| c.response == ResponseAt(e.policy, env.atLookup).headers
          || c.response == ResponseAt(e.policy, env.atReply).headers
          || c.response == ResponseAt(e.policy, env.atMerge).headers)
    case Some(MadeNotModified(e)) => c.status == Some(NOT_MODIFIED) && OnlyMetadata(c.response, e.policy)
    case Some(PassThrough(o)) => FromReply(c, reply) && reply.value.body == Some(o)
    case Some(Teed(o)) => FromReply(c, reply) && reply.value.body == Some(o)
    case None => FromReply(c, reply) && reply.value.body.None?
  }

  predicate FromReply(c: Conn, reply: Option<Reply>) {
    reply.Some? && c.status == Some(reply.value.status) && c.response == reply.value.headers
  }

  // A cache-made 304 carries stored metadata and the age, nothing about a body.
  ghost predicate OnlyMetadata(h: Headers, p: CachePolicy) {
    forall n :: n in h && n != "age" ==>
      n in KEPT_ON_304 && n in p.responseHeaders && h[n] == p.responseHeaders[n]
  }

  lemma UsableHead(s: State, stored: Entry, before: BeforeRequest, env: Env, lib: Library)
    requires before == Before(lib, stored.policy, s.conn.request, env.atLookup) && !before.Stale?
    requires env.openOk || before.NotModified?
    ensures HeadFitsBody(Usable(s, stored, before, env).conn, None, env)
  {
  }

  // The connection as the origin's reply left it.
  ghost predicate Answered(c: Conn, reply: Option<Reply>) {
    && FromReply(c, reply)
    && c.body == (if reply.value.body.Some? then Some(PassThrough(reply.value.body.value)) else None)
  }

  lemma MissHead(
    lib: Library, cfg: Config, s: State, key: CacheKey, env: Env, overCap: bool, reply: Option<Reply>)
    requires Answered(s.conn, reply)
    ensures HeadFitsBody(HandleMiss(lib, cfg, s, key, s.conn.status.value, env, overCap).conn, reply, env)
  {
  }

  lemma StaleHead(s: State, stored: Entry, env: Env, reply: Option<Reply>)
    requires Answered(s.conn, reply)
    ensures HeadFitsBody(ServeStale(s, stored, env.atReply, env).conn, reply, env)
  {
  }

  lemma RevalidationHead(
    lib: Library, cfg: Config, s: State, stored: Entry, key: CacheKey, env: Env, overCap: bool,
    reply: Option<Reply>)
    requires Answered(s.conn, reply)
    ensures HeadFitsBody(
              HandleRevalidation(lib, cfg, s, stored, key, s.conn.status.value, env, overCap).conn, reply, env)
  {
    if s.conn.status.value == NOT_MODIFIED {
      RenewedHead(lib, cfg, s, stored, key, env, overCap, reply);
    } else {
      MissHead(lib, cfg, s, key, env, overCap, reply);
    }
  }

  lemma RenewedHead(
    lib: Library, cfg: Config, s: State, stored: Entry, key: CacheKey, env: Env, overCap: bool,
    reply: Option<Reply>)
    requires Answered(s.conn, reply)
    ensures HeadFitsBody(HandleRevalidation(lib, cfg, s, stored, key, NOT_MODIFIED, env, overCap).conn, reply, env)
  {
    var t := HandleRevalidation(lib, cfg, s, stored, key, NOT_MODIFIED, env, overCap);
    var policy := After(lib, stored.policy, s.conn.request, NOT_MODIFIED, s.conn.response, env.atMerge).policy;
    assert if env.openOk then t.conn.body == Some(Replay(stored.(policy := policy))) else t.conn == s.conn;
  }

  // The client's reply to a validation is one of three outcomes.
  lemma ClientRevalidationCases(
    lib: Library, cfg: Config, s: State, stored: Entry, key: CacheKey, env: Env)
    requires s.conn.ctx == Some(Revalidation(stored, key)) && s.conn.status.Some?
    ensures var u := s.(conn := s.conn.(ctx := None));
            var stale := ServeStale(u, stored, env.atReply, env);
            var after := ClientAfter(lib, cfg, s, env);
            || after == stale || after == stale.(conn := stale.conn.(error := false))
            || after == HandleRevalidation(lib, cfg, u, stored, key, s.conn.status.value, env,
                                           HeaderOverCap(cfg, u.conn.response))
  {
  }

  lemma ClientRevalidationHead(
    lib: Library, cfg: Config, s: State, stored: Entry, key: CacheKey, reply: Option<Reply>, env: Env)
    requires Answered(s.conn, reply) && s.conn.ctx == Some(Revalidation(stored, key))
    ensures HeadFitsBody(ClientAfter(lib, cfg, s, env).conn, reply, env)
  {
    var u := s.(conn := s.conn.(ctx := None));
    ClientRevalidationCases(lib, cfg, s, stored, key, env);
    RevalidationHead(lib, cfg, u, stored, key, env, HeaderOverCap(cfg, u.conn.response), reply);
    StaleHead(u, stored, env, reply);
  }

  lemma ClientHead(lib: Library, cfg: Config, s: State, reply: Option<Reply>, env: Env)
    requires Answered(s.conn, reply)
    ensures HeadFitsBody(ClientAfter(lib, cfg, s, env).conn, reply, env)
  {
    if s.conn.ctx.Some? {
      var u := s.(conn := s.conn.(ctx := None));
      var overCap := HeaderOverCap(cfg, u.conn.response);
      match s.conn.ctx.value
      case Hit =>
      case Unsafe(url) =>
      case Miss(key) => MissHead(lib, cfg, u, key, env, overCap, reply);
      case Revalidation(stored, key) => ClientRevalidationHead(lib, cfg, s, stored, key, reply, env);
    }
  }

  lemma ServerHead(lib: Library, cfg: Config, s: State, reply: Option<Reply>, env: Env)
    requires Answered(s.conn, reply)
    ensures HeadFitsBody(ServerAfter(lib, cfg, s, env).conn, reply, env)
  {
    if s.conn.ctx.Some? {
      var u := s.(conn := s.conn.(ctx := None));
      var overCap := LengthOverCap(cfg, u.conn.body);
      match s.conn.ctx.value
      case Hit =>
      case Unsafe(url) =>
      case Miss(key) => MissHead(lib, cfg, u, key, env, overCap, reply);
      case Revalidation(stored, key) =>
        RevalidationHead(lib, cfg, u, stored, key, env, overCap, reply);
        StaleHead(u, stored, env, reply);
    }
  }

  // The cached head a failing open leaves behind: a response fit to be served
  // as it is, some of whose headers the reply does not overwrite.
  predicate Leaks(lib: Library, s: State, reply: Reply, env: Env) {
    var e := Chosen(lib, s, env);
    && !env.openOk && e.Some?
    && Before(lib, e.value.policy, s.conn.request, env.atLookup).Fresh?
    && !(ResponseAt(e.value.policy, env.atLookup).headers.Keys <= reply.headers.Keys)
  }

  // On every path of both handlers, with the origin answering if asked, status
  // and headers are those of whatever the body is, except exactly where the
  // server handler leaks a cached head.
  lemma HeadAndBodyTogether(
    isClient: bool, lib: Library, cfg: Config, s: State, reply: Reply, env: Env)
    requires Incoming(s)
    ensures HeadFitsBody(Exchange(isClient, lib, cfg, s, Some(reply), env).conn, Some(reply), env)
            <==> isClient || !Leaks(lib, s, reply, env)
  {
    ExchangePhases(isClient, lib, cfg, s, Some(reply), env);
    var start := Start(isClient, lib, s, env);
    StartHead(isClient, lib, s, env);
    if start.conn.halted {
      ServedAtLookup(isClient, lib, s, env);
      HitIsFinal(isClient, lib, cfg, start, env);
    } else if isClient {
      ClientHead(lib, cfg, Receive(true, start, Some(reply)), Some(reply), env);
    } else {
      ServerHeadIff(lib, cfg, start, reply, env);
      Overwritten(start.conn.response, reply.headers);
    }
  }

  lemma Overwritten(under: Headers, over: Headers)
    ensures under + over == over <==> under.Keys <= over.Keys
  {
    if under.Keys <= over.Keys {
      assert under + over == over;
    } else {
      var name :| name in under && name !in over;
      assert name in under + over;
    }
  }

  // The reply goes on top of what the lookup left on the response.
  lemma ServerHeadIff(lib: Library, cfg: Config, start: State, reply: Reply, env: Env)
    requires start.conn.response != map[] ==> start.conn.ctx.None?
    ensures HeadFitsBody(ServerAfter(lib, cfg, Receive(false, start, Some(reply)), env).conn, Some(reply), env)
            <==> start.conn.response + reply.headers == reply.headers
  {
    var got := Receive(false, start, Some(reply));
    if start.conn.response + reply.headers == reply.headers {
      ServerHead(lib, cfg, got, Some(reply), env);
    } else {
      assert map[] + reply.headers == reply.headers;
      assert ServerAfter(lib, cfg, got, env) == got;
    }
  }

  lemma StartHead(isClient: bool, lib: Library, s: State, env: Env)
    requires Incoming(s)
    ensures var start := Start(isClient, lib, s, env);
            var e := Chosen(lib, s, env);
            var failed := !env.openOk && e.Some? && Before(lib, e.value.policy, s.conn.request, env.atLookup).Fresh?;
            && (!start.conn.halted ==>
                  && start.conn.response == (if failed then ResponseAt(e.value.policy, env.atLookup).headers else map[])
                  && (failed ==> start.conn.ctx.None?))
            && (start.conn.halted ==>
                  !failed && FromStorage(start.conn.body) && HeadFitsBody(start.conn, None, env))
  {
    ServedAtLookup(isClient, lib, s, env);
    var e := Chosen(lib, s, env);
    if e.Some? {
      var before := Before(lib, e.value.policy, s.conn.request, env.atLookup);
      if !before.Stale? && (env.openOk || before.NotModified?) { UsableHead(s, e.value, before, env, lib); }
    }
  }

  // ---- Stored, then served ----

  lemma {:induction false} PickNew(
    lib: Library, bucket: Memory.Bucket, entry: Entry, request: Headers, now: Time)
    requires forall e :: e in bucket ==> !VaryMatches(e.policy, request)
    requires VaryMatches(entry.policy, request)
    ensures Pick(lib, bucket + [entry], request, now) == Some(entry)
  {
    var all := bucket + [entry];
    if bucket != [] {
      PickNew(lib, bucket[1..], entry, request, now);
      assert all[1..] == bucket[1..] + [entry];
      assert all[0] == bucket[0];
    }
  }

  lemma {:induction false} NothingPicked(lib: Library, entries: seq<Entry>, request: Headers, now: Time)
    requires Pick(lib, entries, request, now).None?
    ensures forall e :: e in entries ==> !VaryMatches(e.policy, request)
  {
    if entries != [] {
      NothingPicked(lib, entries[1..], request, now);
      assert entries == [entries[0]] + entries[1..];
    }
  }

  // The policy under which a missed exchange is stored.
  function MissPolicy(lib: Library, cfg: Config, s: State, reply: Reply, env: Env): CachePolicy {
    NewPolicy(lib, s.conn.verb, s.conn.request, reply.status, reply.headers, env.atStore, cfg.options)
  }

  // A miss that can be stored: nothing matches, the reply may be stored, fits
  // and does not vary on everything.
  ghost predicate StorableMiss(lib: Library, cfg: Config, s: State, reply: Reply, env: Env) {
    && Incoming(s) && IsSafe(s.conn.verb) && Chosen(lib, s, env).None? && env.openOk && env.putOk
    && IsStorable(lib, s.conn.verb, s.conn.request, reply.status, reply.headers, cfg.options)
    && LengthsAgree(reply) && !HeaderOverCap(cfg, reply.headers)
    && reply.body.Some? && Tee.Fits(|reply.body.value.bytes|, cfg.maxCacheableSize)
    && !ListsStar(reply.headers)
  }

  lemma MissIsStored(isClient: bool, lib: Library, cfg: Config, s: State, reply: Reply, env: Env)
    requires StorableMiss(lib, cfg, s, reply, env)
    ensures var o := reply.body.value;
            var t := Exchange(isClient, lib, cfg, s, Some(reply), env);
            var key := CacheKey(s.conn.verb, s.conn.url);
            && Received(cfg, t.conn.body) == (o.bytes, o.trailers)
            && Settled(cfg, t)
               == Memory.Step(s.store, PutEntry(key, Entry(MissPolicy(lib, cfg, s, reply, env), o.bytes, o.trailers)))
  {
    var c := s.conn;
    var key := CacheKey(c.verb, c.url);
    assert Start(isClient, lib, s, env) == s.(conn := c.(ctx := Some(Miss(key))));
    assert c.response + reply.headers == reply.headers;
    var got := s.(conn := c.(status := Some(reply.status), response := reply.headers,
                             body := Some(PassThrough(reply.body.value))));
    assert !LengthOverCap(cfg, got.conn.body);
    assert Exchange(isClient, lib, cfg, s, Some(reply), env)
           == HandleMiss(lib, cfg, got, key, reply.status, env, false);
  }

  lemma StoredIsChosen(lib: Library, cfg: Config, s: State, reply: Reply, env: Env, env': Env)
    requires StorableMiss(lib, cfg, s, reply, env)
    ensures var entry := Entry(MissPolicy(lib, cfg, s, reply, env), reply.body.value.bytes, reply.body.value.trailers);
            var put := PutEntry(CacheKey(s.conn.verb, s.conn.url), entry);
            Chosen(lib, s.(store := Memory.Step(s.store, put)), env') == Some(entry)
  {
    var p := MissPolicy(lib, cfg, s, reply, env);
    var entry := Entry(p, reply.body.value.bytes, reply.body.value.trailers);
    var s' := s.(store := Memory.Step(s.store, PutEntry(CacheKey(s.conn.verb, s.conn.url), entry)));
    NothingPicked(lib, Candidates(s), s.conn.request, env.atLookup);
    OwnRequestMatchesIff(lib, s.conn.verb, s.conn.request, reply.status, reply.headers, env.atStore, cfg.options);
    Memory.RetainFacts(Candidates(s), p, []);
    PickNew(lib, Memory.Retain(Candidates(s), p), entry, s.conn.request, env'.atLookup);
    assert Candidates(s') == Memory.Finalized(Candidates(s), entry);
  }

  lemma ChosenIsServed(again: bool, lib: Library, cfg: Config, s: State, e: Entry, env: Env)
    requires IsSafe(s.conn.verb) && Chosen(lib, s, env) == Some(e) && env.openOk
    requires SatisfiesWithoutRevalidation(lib, e.policy, s.conn.request, env.atLookup)
    requires !InboundConditionalMatches(lib, e.policy, s.conn.request)
    ensures var t := Start(again, lib, s, env);
            && t.conn.halted
            && t.conn.status == Some(e.policy.responseStatus)
            && t.conn.response == ResponseAt(e.policy, env.atLookup).headers
            && Received(cfg, t.conn.body) == (e.body, e.trailers)
  {
    PickFacts(lib, Candidates(s), s.conn.request, env.atLookup);
    assert Before(lib, e.policy, s.conn.request, env.atLookup).Fresh?;
  }

  // A header of a reply as it is served again later.
  ghost function HeaderAgain(reply: Headers, now: Time, storedAt: Time, name: string): Option<seq<string>> {
    if name == "age" then
      Some([ToDecimal((AgeHeaderSeconds(reply) * SECOND + Since(now, storedAt)) / SECOND)])
    else if PerHop(reply, name) then None
    else GetValues(reply, name)
  }

  lemma MissHeaders(lib: Library, cfg: Config, s: State, reply: Reply, env: Env, now: Time, name: string)
    ensures GetValues(ResponseAt(MissPolicy(lib, cfg, s, reply, env), now).headers, name)
            == HeaderAgain(reply.headers, now, env.atStore, name)
  {
    ServedHeaders(MissPolicy(lib, cfg, s, reply, env), now, name);
  }

  // Store, then serve: once such a reply has been read to its end, the same
  // request is answered from storage with the same status, bytes and trailers
  // and with the reply's headers, bar the per-hop ones and under the age since
  // it was stored, by either handler, for as long as the stored policy may be
  // used.
  lemma StoredThenServed(
    isClient: bool, again: bool, lib: Library, cfg: Config, s: State, reply: Reply, env: Env, env': Env,
    name: string)
    requires StorableMiss(lib, cfg, s, reply, env) && env'.openOk
    requires var p := MissPolicy(lib, cfg, s, reply, env);
             SatisfiesWithoutRevalidation(lib, p, s.conn.request, env'.atLookup)
             && !InboundConditionalMatches(lib, p, s.conn.request)
    ensures var settled := Settled(cfg, Exchange(isClient, lib, cfg, s, Some(reply), env));
            var t := Start(again, lib, s.(store := settled), env');
            && t.conn.halted
            && t.conn.status == Some(reply.status)
            && Received(cfg, t.conn.body) == (reply.body.value.bytes, reply.body.value.trailers)
            && GetValues(t.conn.response, name) == HeaderAgain(reply.headers, env'.atLookup, env.atStore, name)
  {
    MissHeaders(lib, cfg, s, reply, env, env'.atLookup, name);
    MissIsStored(isClient, lib, cfg, s, reply, env);
    StoredIsChosen(lib, cfg, s, reply, env, env');
    var entry := Entry(MissPolicy(lib, cfg, s, reply, env), reply.body.value.bytes, reply.body.value.trailers);
    var put := PutEntry(CacheKey(s.conn.verb, s.conn.url), entry);
    ChosenIsServed(again, lib, cfg, s.(store := Memory.Step(s.store, put)), entry, env');
  }

  // ---- Revalidation serves the current representation ----

  // The origin answers 304 only when a listed tag is the current one, and
  // otherwise sends the current body.
  ghost predicate Honest(forwarded: Headers, reply: Reply, current: string, bodyOf: string -> Bytes) {
    if reply.status == NOT_MODIFIED then
      var inm := GetStr(forwarded, "if-none-match");
      inm.Some? && current in ScanTags(inm.value)
    else reply.body.Some? && reply.body.value.bytes == bodyOf(current)
  }

  // The stored response carries a strong tag for the body stored with it.
  ghost predicate TaggedWith(stored: Entry, value: string, bodyOf: string -> Bytes) {
    && GetStr(stored.policy.responseHeaders, "etag") == Some(Printed(Tag(false, value)))
    && ',' !in value && '"' !in value
    && stored.body == bodyOf(value)
  }

  // The handler found a stale match and sends it on for validation.
  ghost predicate Revalidating(isClient: bool, lib: Library, s: State, env: Env, stored: Entry) {
    && Incoming(s) && env.openOk
    && Chosen(lib, s, env) == Some(stored)
    && Before(lib, stored.policy, s.conn.request, env.atLookup).Stale?
    && (isClient ==> !IsSwrEligible(lib, stored.policy, env.atLookup))
  }

  lemma RevalidatingFacts(isClient: bool, lib: Library, s: State, env: Env, stored: Entry, reply: Reply)
    requires Revalidating(isClient, lib, s, env, stored)
    ensures var t := Receive(isClient, Start(isClient, lib, s, env), Some(reply));
            && !Start(isClient, lib, s, env).conn.halted
            && t.conn.ctx == Some(Revalidation(stored, CacheKey(s.conn.verb, s.conn.url)))
            && t.conn.request == RevalidationHeaders(stored.policy, s.conn.request)
            && t.conn.status == Some(reply.status) && !t.conn.error
            && t.conn.body == (if reply.body.Some? then Some(PassThrough(reply.body.value)) else None)
  {
  }

  lemma FinishRevalidation(
    isClient: bool, lib: Library, cfg: Config, s: State, env: Env, stored: Entry, key: CacheKey, status: Status)
    returns (overCap: bool)
    requires s.conn.ctx == Some(Revalidation(stored, key)) && s.conn.status == Some(status)
    requires !s.conn.error && !IsServerError(status)
    ensures Finish(isClient, lib, cfg, s, env)
            == HandleRevalidation(lib, cfg, s.(conn := s.conn.(ctx := None)), stored, key, status, env, overCap)
  {
    overCap := if isClient then HeaderOverCap(cfg, s.conn.response) else LengthOverCap(cfg, s.conn.body);
  }

  lemma HandledBody(
    lib: Library, cfg: Config, s: State, stored: Entry, key: CacheKey, status: Status, env: Env, overCap: bool)
    requires env.openOk && (s.conn.body.Some? ==> s.conn.body.value.PassThrough?)
    ensures var t := HandleRevalidation(lib, cfg, s, stored, key, status, env, overCap);
            Received(cfg, t.conn.body).0
            == if status == NOT_MODIFIED then stored.body else Received(cfg, s.conn.body).0
  {
  }

  // What the user gets after a synchronous revalidation: the stored body on a
  // 304, the origin's otherwise.
  lemma RevalidationOutcome(
    isClient: bool, lib: Library, cfg: Config, s: State, reply: Reply, env: Env, stored: Entry)
    requires Revalidating(isClient, lib, s, env, stored)
    requires !IsServerError(reply.status)
    ensures var t := Exchange(isClient, lib, cfg, s, Some(reply), env);
            Received(cfg, t.conn.body).0
            == if reply.status == NOT_MODIFIED then stored.body
               else if reply.body.Some? then reply.body.value.bytes else []
  {
    ExchangePhases(isClient, lib, cfg, s, Some(reply), env);
    RevalidatingFacts(isClient, lib, s, env, stored, reply);
    var key := CacheKey(s.conn.verb, s.conn.url);
    var got := Receive(isClient, Start(isClient, lib, s, env), Some(reply));
    var overCap := FinishRevalidation(isClient, lib, cfg, got, env, stored, key, reply.status);
    HandledBody(lib, cfg, got.(conn := got.conn.(ctx := None)), stored, key, reply.status, env, overCap);
  }

  // If the request carries no tags of its own and the stored tag is strong,
  // then against an honest origin the body served after revalidation is the
  // origin's current one.
  lemma RevalidationServesCurrent(
    isClient: bool, lib: Library, cfg: Config, s: State, reply: Reply, env: Env, stored: Entry,
    value: string, current: string, bodyOf: string -> Bytes)
    requires Revalidating(isClient, lib, s, env, stored) && !IsServerError(reply.status)
    requires "if-none-match" !in s.conn.request
    requires TaggedWith(stored, value, bodyOf)
    requires Honest(RevalidationHeaders(stored.policy, s.conn.request), reply, current, bodyOf)
    ensures Received(cfg, Exchange(isClient, lib, cfg, s, Some(reply), env).conn.body).0 == bodyOf(current)
  {
    RevalidationOutcome(isClient, lib, cfg, s, reply, env, stored);
    RevalidationListsStoredTag(stored.policy, s.conn.request, value);
    if reply.status == NOT_MODIFIED {
      assert current in [value];
    }
  }

  // A GET whose own tag list reaches the origin in front of the stored tag.
  ghost predicate ListsOwnTags(stored: Entry, request: Headers, items: seq<Item>, tail: string) {
    && stored.policy.requestMethod.Get?
    && WellFormed(items) && IsSeparator(tail)
    && GetStr(request, "if-none-match") == Some(Render(items, tail))
    && "if-none-match" !in ConnectionNames(request)
    && "accept-ranges" !in request && "if-match" !in request && "if-unmodified-since" !in request
  }

  lemma ForwardedTags(stored: Entry, request: Headers, items: seq<Item>, tail: string, value: string)
    requires ListsOwnTags(stored, request, items, tail)
    requires GetStr(stored.policy.responseHeaders, "etag") == Some(Printed(Tag(false, value)))
    requires '"' !in value
    ensures var inm := GetStr(RevalidationHeaders(stored.policy, request), "if-none-match");
            inm.Some? && ScanTags(inm.value) == Values(items) + [value]
  {
    var base := WithoutHopByHop(request) - {"if-range"};
    assert GetStr(base, "if-none-match") == Some(Render(items, tail));
    var h := WithStoredEtag(stored.policy, base);
    assert !ForbidsWeakValidators(stored.policy, h);
    assert GetStr(h, "if-none-match") == Some(Render(items, tail) + ", " + Printed(Tag(false, value)));
    AppendToRendered(items, tail, Tag(false, value));
  }

  // Every tag the forwarded request lists names the stored body.
  ghost predicate EveryTagNames(forwarded: Headers, bodyOf: string -> Bytes, body: Bytes) {
    var inm := GetStr(forwarded, "if-none-match");
    inm.Some? ==> forall i :: 0 <= i < |ScanTags(inm.value)| ==> bodyOf(ScanTags(inm.value)[i]) == body
  }

  // For any request, method and list at all, a 304 is safe against every
  // honest origin exactly when every tag scanned from the list that reaches
  // the origin names the stored body: otherwise the 304 was about the caller's
  // copy and the cache answers with its own.
  lemma ForwardedTagsAreSafeIff(
    isClient: bool, lib: Library, cfg: Config, s: State, reply: Reply, env: Env, stored: Entry,
    bodyOf: string -> Bytes)
    requires Revalidating(isClient, lib, s, env, stored) && reply.status == NOT_MODIFIED
    ensures var forwarded := RevalidationHeaders(stored.policy, s.conn.request);
            (forall current :: Honest(forwarded, reply, current, bodyOf)
               ==> Received(cfg, Exchange(isClient, lib, cfg, s, Some(reply), env).conn.body).0 == bodyOf(current))
            <==> EveryTagNames(forwarded, bodyOf, stored.body)
  {
    RevalidationOutcome(isClient, lib, cfg, s, reply, env, stored);
    ListedIffHonest(RevalidationHeaders(stored.policy, s.conn.request), reply, bodyOf, stored.body);
  }

  lemma ListedIffHonest(forwarded: Headers, reply: Reply, bodyOf: string -> Bytes, body: Bytes)
    requires reply.status == NOT_MODIFIED
    ensures (forall current :: Honest(forwarded, reply, current, bodyOf) ==> body == bodyOf(current))
            <==> EveryTagNames(forwarded, bodyOf, body)
  {
    var inm := GetStr(forwarded, "if-none-match");
    if inm.Some? {
      forall i | 0 <= i < |ScanTags(inm.value)|
        ensures Honest(forwarded, reply, ScanTags(inm.value)[i], bodyOf)
      {
      }
    }
  }

  // In particular, for a GET with a well-formed list of its own: exactly when
  // each of those tags names the stored body.
  lemma OwnTagsAreSafeIff(
    isClient: bool, lib: Library, cfg: Config, s: State, reply: Reply, env: Env, stored: Entry,
    value: string, bodyOf: string -> Bytes, items: seq<Item>, tail: string)
    requires Revalidating(isClient, lib, s, env, stored) && reply.status == NOT_MODIFIED
    requires TaggedWith(stored, value, bodyOf)
    requires ListsOwnTags(stored, s.conn.request, items, tail)
    ensures (forall current :: Honest(RevalidationHeaders(stored.policy, s.conn.request), reply, current, bodyOf)
               ==> Received(cfg, Exchange(isClient, lib, cfg, s, Some(reply), env).conn.body).0 == bodyOf(current))
            <==> (forall i :: 0 <= i < |items| ==> bodyOf(items[i].tag.value) == stored.body)
  {
    ForwardedTagsAreSafeIff(isClient, lib, cfg, s, reply, env, stored, bodyOf);
    ForwardedTags(stored, s.conn.request, items, tail, value);
    OwnTagsNameIff(RevalidationHeaders(stored.policy, s.conn.request), value, bodyOf, items);
  }

  lemma OwnTagsNameIff(forwarded: Headers, value: string, bodyOf: string -> Bytes, items: seq<Item>)
    requires var inm := GetStr(forwarded, "if-none-match");
             inm.Some? && ScanTags(inm.value) == Values(items) + [value]
    ensures EveryTagNames(forwarded, bodyOf, bodyOf(value))
            <==> (forall i :: 0 <= i < |items| ==> bodyOf(items[i].tag.value) == bodyOf(value))
  {
    var tags := Values(items) + [value];
    assert forall i :: 0 <= i < |items| ==> tags[i] == items[i].tag.value;
    assert tags[|items|] == value;
  }

  // ---- What a refresh does to the stored variant ----

  // A 304 without Vary, for a response whose Vary names nothing the builder
  // rewrites, puts the merged policy on the stored variant and keeps its body.
  lemma RefreshUpdatesStoredVariant(
    lib: Library, bucket: Memory.Bucket, stored: Entry, request: Headers, reply: Headers, time: Time)
    requires Memory.Distinct(bucket) && stored in bucket
    requires Captured(stored.policy) && VaryMatches(stored.policy, request)
    requires "vary" !in reply
    requires forall n :: n in VaryNames(stored.policy.responseHeaders) ==> n !in Rewritten(request)
    ensures var after := After(lib, stored.policy, RevalidationHeaders(stored.policy, request),
                               NOT_MODIFIED, reply, time);
            && after.Revalidated?
            && Memory.Find(Memory.Refreshed(bucket, after.policy), stored.policy.varySnapshot)
               == Some(stored.(policy := after.policy))
  {
    RefreshKeepsVariant(lib, stored.policy, request, reply, time);
    var policy := After(lib, stored.policy, RevalidationHeaders(stored.policy, request),
                        NOT_MODIFIED, reply, time).policy;
    Memory.RefreshedFacts(bucket, policy, stored.policy.varySnapshot);
    Memory.FindMember(bucket, stored);
  }

  // The stored variant takes the new policy and no other variant changes.
  ghost predicate OnlyStoredRenewed(
    bucket: Memory.Bucket, out: Memory.Bucket, stored: Entry, policy: CachePolicy)
  {
    && Memory.Find(out, stored.policy.varySnapshot) == Some(stored.(policy := policy))
    && forall signature :: signature != stored.policy.varySnapshot ==>
         Memory.Find(out, signature) == Memory.Find(bucket, signature)
  }

  // A refresh does what it is for exactly when it keeps the signature.
  // Otherwise the stored variant is left as it was, and the new policy is lost
  // when nothing has its signature, or else put over the body of the sibling
  // that has it.
  lemma RefreshOutcomeIff(bucket: Memory.Bucket, stored: Entry, policy: CachePolicy)
    requires Memory.Distinct(bucket) && stored in bucket
    ensures var out := Memory.Refreshed(bucket, policy);
            var sibling := Memory.Find(bucket, policy.varySnapshot);
            && (OnlyStoredRenewed(bucket, out, stored, policy) <==> SameVariantAs(policy, stored.policy))
            && (!SameVariantAs(policy, stored.policy) ==>
                  && Memory.Find(out, stored.policy.varySnapshot) == Some(stored)
                  && (sibling.None? ==> out == bucket)
                  && (sibling.Some? ==>
                        && Memory.Find(out, policy.varySnapshot) == Some(sibling.value.(policy := policy))
                        && (out == bucket ==> sibling.value.policy == policy)))
  {
    var out := Memory.Refreshed(bucket, policy);
    forall signature
      ensures Memory.Find(out, signature)
              == var found := Memory.Find(bucket, signature);
                 if found.Some? && signature == policy.varySnapshot
                 then Some(found.value.(policy := policy)) else found
    {
      Memory.RefreshedFacts(bucket, policy, signature);
    }
    Memory.FindMember(bucket, stored);
    if Memory.Find(bucket, policy.varySnapshot).None? { MovedRefreshIsLost(bucket, policy); }
  }

  lemma {:induction false} MovedRefreshIsLost(bucket: Memory.Bucket, policy: CachePolicy)
    requires Memory.Find(bucket, policy.varySnapshot).None?
    ensures Memory.Refreshed(bucket, policy) == bucket
  {
    if bucket != [] {
      MovedRefreshIsLost(bucket[1..], policy);
      assert bucket == [bucket[0]] + bucket[1..];
    }
  }

  // So a 304 renews the stored variant and nothing else exactly when the
  // merged headers name the same selecting headers and the forwarded request
  // carries the stored values for them.
  lemma NotModifiedRenewsIff(
    lib: Library, bucket: Memory.Bucket, stored: Entry, forwarded: Headers, reply: Headers, time: Time)
    requires Memory.Distinct(bucket) && stored in bucket && Captured(stored.policy)
    ensures var p := stored.policy;
            var after := After(lib, p, forwarded, NOT_MODIFIED, reply, time);
            && after.Revalidated?
            && (OnlyStoredRenewed(bucket, Memory.Refreshed(bucket, after.policy), stored, after.policy) <==>
                  && VaryNames(Merged(p.responseHeaders, reply)) == VaryNames(p.responseHeaders)
                  && forall i :: 0 <= i < |p.varySnapshot| ==>
                       GetStr(forwarded, p.varySnapshot[i].0) == p.varySnapshot[i].1)
  {
    RefreshSignatureIff(lib, stored.policy, forwarded, reply, time);
    RefreshOutcomeIff(bucket, stored, After(lib, stored.policy, forwarded, NOT_MODIFIED, reply, time).policy);
  }

  lemma SingleVaryName(h: Headers)
    requires "vary" in h && h["vary"] == ["b"]
    ensures VaryNames(h) == ["b"]
  {
    SplitWithoutSeparator("b", ',');
    assert Trim("b") == "b";
    assert Lower("b") == "b" by { assert Lower("b")[0] == 'b'; }
    assert PieceNames(["b"]) == ["b"] + PieceNames(["b"][1..]);
    assert PieceNames(["b"]) == ["b"];
    assert LineNames(["b"]) == PieceNames(Split("b", ',')) + LineNames(["b"][1..]);
  }

  // Two variants, one varying on `a` and one on `b`, and a 304 for the first
  // that says `Vary: b`: the second one's body is left under the first one's
  // status and merged headers, its validators among them.
  lemma RefreshCanHitSibling(
    lib: Library, cfg: Config, s: State, key: CacheKey, first: Entry, second: Entry, env: Env, overCap: bool)
    requires key in s.store && s.store[key] == [first, second] && env.refreshOk
    requires first.policy.varySnapshot == [("a", GetStr(s.conn.request, "a"))]
    requires second.policy.varySnapshot == [("b", GetStr(s.conn.request, "b"))]
    requires "vary" in s.conn.response && s.conn.response["vary"] == ["b"]
    ensures var p := first.policy;
            var after := HandleRevalidation(lib, cfg, s, first, key, NOT_MODIFIED, env, overCap).store;
            && key in after && |after[key]| == 2
            && after[key][0] == first
            && after[key][1].body == second.body
            && after[key][1].policy.responseStatus == p.responseStatus
            && after[key][1].policy.responseHeaders == Merged(p.responseHeaders, s.conn.response)
  {
    var merged := Merged(first.policy.responseHeaders, s.conn.response);
    SingleVaryName(merged);
    var policy := After(lib, first.policy, s.conn.request, NOT_MODIFIED, s.conn.response, env.atMerge).policy;
    assert policy.varySnapshot == [("b", GetStr(s.conn.request, "b"))];
    assert first.policy.varySnapshot[0].0 != policy.varySnapshot[0].0;
    var bucket := [first, second];
    assert bucket[1..] == [second];
    assert Memory.Refreshed([second], policy) == [second.(policy := policy)] + [second][1..];
    assert Memory.Refreshed(bucket, policy) == [first] + [second.(policy := policy)];
  }

  // ---- Unsafe methods ----

  // The header has one line, which leads to this URL on the same host.
  predicate LeadsTo(lib: Library, url: Url, response: Headers, header: string, target: Url) {
    && header in response && |response[header]| == 1
    && lib.join(url, response[header][0]) == Some(target) && lib.host(target) == lib.host(url)
  }

  ghost predicate Targeted(lib: Library, url: Url, response: Headers, target: Url) {
    || target == url
    || LeadsTo(lib, url, response, "location", target)
    || LeadsTo(lib, url, response, "content-location", target)
  }

  predicate GetOrHead(key: CacheKey) {
    key.verb.Get? || key.verb.Head?
  }

  predicate MayChange(verb: Method) {
    verb.Post? || verb.Put? || verb.Delete? || verb.Patch? || (verb.Other? && !verb.safe)
  }

  // After an unsafe request exactly the GET and HEAD entries of its URL and of
  // its same-host targets are gone if the reply is a 2xx or 3xx, and none is
  // otherwise.
  lemma UnsafeInvalidatesExactly(
    isClient: bool, lib: Library, cfg: Config, s: State, reply: Reply, env: Env, key: CacheKey)
    requires Incoming(s) && MayChange(s.conn.verb)
    ensures var t := Exchange(isClient, lib, cfg, s, Some(reply), env);
            && (key in t.store <==>
                  && key in s.store
                  && !(200 <= reply.status < 400 && GetOrHead(key)
                       && Targeted(lib, s.conn.url, reply.headers, key.url)))
            && (key in t.store ==> t.store[key] == s.store[key])
            && t.put.None? && t.background.None?
  {
    var got := s.(conn := s.conn.(status := Some(reply.status), response := reply.headers,
                                  body := if reply.body.Some? then Some(PassThrough(reply.body.value)) else None));
    UnsafeIsHandled(isClient, lib, cfg, s, reply, env);
    UnsafeStore(lib, got, s.conn.url, reply.status, key);
  }

  lemma UnsafeIsHandled(isClient: bool, lib: Library, cfg: Config, s: State, reply: Reply, env: Env)
    requires Incoming(s) && MayChange(s.conn.verb)
    ensures var got := s.(conn := s.conn.(status := Some(reply.status), response := reply.headers,
                            body := if reply.body.Some? then Some(PassThrough(reply.body.value)) else None));
            Exchange(isClient, lib, cfg, s, Some(reply), env) == HandleUnsafe(lib, got, s.conn.url, reply.status)
  {
    assert Start(isClient, lib, s, env) == s.(conn := s.conn.(ctx := Some(Unsafe(s.conn.url))));
    assert map[] + reply.headers == reply.headers;
  }

  lemma UnsafeStore(lib: Library, s: State, url: Url, status: Status, key: CacheKey)
    ensures var after := HandleUnsafe(lib, s, url, status);
            && after.put == s.put && after.background == s.background
            && (key in after.store <==>
                  && key in s.store
                  && !(200 <= status < 400 && GetOrHead(key) && Targeted(lib, url, s.conn.response, key.url)))
            && (key in after.store ==> after.store[key] == s.store[key])
  {
  }
}
