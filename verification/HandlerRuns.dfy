/** Whole runs of the handlers: lookups, replies, bodies finishing or being
    abandoned, and background revalidations, in any order. */
module HandlerRuns {
  import opened Wrappers
  import opened Text
  import opened Http
  import opened Policy
  import opened Freshness
  import opened Storability
  import opened Validation
  import opened Storage
  import opened Handlers
  import opened HandlerTheorems
  import Memory
  import Tee
  import Tiered

  // ---- What reaches a put ----

  // A put is opened only for a safe method, under the key of the request, with
  // the policy of an exchange that may be stored.
  lemma PutsMayBeStored(
    isClient: bool, lib: Library, cfg: Config, s: State, reply: Option<Reply>, env: Env)
    requires Incoming(s)
    ensures var t := Exchange(isClient, lib, cfg, s, reply, env);
            t.put.Some? ==>
              && t.conn.status.Some?
              && var x := Tiered.Exchange(t.conn.verb, t.conn.request, t.conn.status.value,
                                          t.conn.response, env.atStore, cfg.options);
              && Tiered.MayPut(lib, x)
              && t.put.value == PendingPut(CacheKey(s.conn.verb, s.conn.url), Tiered.PolicyOf(lib, x))
              && t.conn.body.Some? && t.conn.body.value.Teed?
              && GetOrHead(t.put.value.key)
  {
    ExchangePhases(isClient, lib, cfg, s, reply, env);
    ServedAtLookup(isClient, lib, s, env);
    var start := Start(isClient, lib, s, env);
    StartCtx(isClient, lib, s, env);
    if start.conn.halted {
      HitIsFinal(isClient, lib, cfg, start, env);
    } else {
      ReceiveFacts(isClient, lib, s, env, reply);
      var got := Receive(isClient, start, reply);
      FinishPut(isClient, lib, cfg, got, env);
      var t := Finish(isClient, lib, cfg, got, env);
      if t.put.Some? {
        SafeStorableIsGetOrHead(lib, t.conn.verb, t.conn.request, t.conn.status.value, t.conn.response,
                                cfg.options);
      }
    }
  }

  // What a lookup leaves the request with.
  ghost predicate StartOk(lib: Library, s: State, env: Env, t: State) {
    && t.conn.verb == s.conn.verb && t.conn.url == s.conn.url
    && (t.conn.ctx.Some? && (t.conn.ctx.value.Miss? || t.conn.ctx.value.Revalidation?) ==>
          IsSafe(s.conn.verb) && t.conn.ctx.value.key == CacheKey(s.conn.verb, s.conn.url))
    && (t.background.Some? ==>
          && IsSafe(s.conn.verb)
          && t.background.value.key == CacheKey(s.conn.verb, s.conn.url)
          && Candidates(s) != []
          && Chosen(lib, s, env) == Some(t.background.value.stored))
    && (!t.conn.halted ==> t.conn.status.None? && !t.conn.error)
    && (t.conn.ctx.Some? && t.conn.ctx.value.Unsafe? ==> t.conn.response == map[])
  }

  lemma ClientStart(lib: Library, s: State, env: Env)
    requires Incoming(s)
    ensures StartOk(lib, s, env, ClientRun(lib, s, env))
  {
    PickFacts(lib, Candidates(s), s.conn.request, env.atLookup);
  }

  lemma ServerStart(lib: Library, s: State, env: Env)
    requires Incoming(s)
    ensures StartOk(lib, s, env, ServerRun(lib, s, env))
  {
    PickFacts(lib, Candidates(s), s.conn.request, env.atLookup);
  }

  lemma StartCtx(isClient: bool, lib: Library, s: State, env: Env)
    requires Incoming(s)
    ensures StartOk(lib, s, env, Start(isClient, lib, s, env))
  {
    if isClient { ClientStart(lib, s, env); } else { ServerStart(lib, s, env); }
  }

  lemma FinishPut(isClient: bool, lib: Library, cfg: Config, s: State, env: Env)
    requires s.put.None?
    ensures var t := Finish(isClient, lib, cfg, s, env);
            t.put.Some? ==>
              && s.conn.ctx.Some? && (s.conn.ctx.value.Miss? || s.conn.ctx.value.Revalidation?)
              && t.conn.status.Some?
              && t.conn.verb == s.conn.verb
              && IsStorable(lib, t.conn.verb, t.conn.request, t.conn.status.value, t.conn.response, cfg.options)
              && t.put.value == PendingPut(s.conn.ctx.value.key,
                   NewPolicy(lib, t.conn.verb, t.conn.request, t.conn.status.value, t.conn.response,
                             env.atStore, cfg.options))
              && t.conn.body.Some? && t.conn.body.value.Teed?
  {
  }

  // ---- Background revalidation ----

  // What the detached task asks of storage.
  function BackgroundOp(lib: Library, cfg: Config, b: Background, reply: Option<Reply>, env: Env): Option<Op> {
    if reply.None? then None
    else
      var r := reply.value;
      match After(lib, b.stored.policy, b.request, r.status, r.headers, env.atMerge)
      case Revalidated(policy, _) => if env.refreshOk then Some(RefreshEntry(b.key, policy)) else None
      case Modified =>
        if !IsStorable(lib, b.key.verb, b.request, r.status, r.headers, cfg.options) then None
        else if !env.putOk || r.body.None? then None
        else
          var policy := NewPolicy(lib, b.key.verb, b.request, r.status, r.headers, env.atMerge, cfg.options);
          var outcome := Tee.StoredOutcome(r.body.value.bytes, r.body.value.trailers, cfg.maxCacheableSize);
          if outcome.None? then None
          else Some(PutEntry(b.key, Entry(policy, outcome.value.bytes, outcome.value.trailers)))
  }

  function BackgroundRevalidation(
    lib: Library, cfg: Config, store: Memory.Buckets, b: Background, reply: Option<Reply>, env: Env)
    : Memory.Buckets
  {
    var op := BackgroundOp(lib, cfg, b, reply, env);
    if op.Some? then Memory.Step(store, op.value) else store
  }

  // ---- Unsafe requests ----

  lemma UnsafeRemovesExactly(lib: Library, s: State, url: Url, status: Status, key: CacheKey)
    requires 200 <= status < 400
    ensures var after := HandleUnsafe(lib, s, url, status).store;
            && (key in after <==>
                  key in s.store && !(GetOrHead(key) && Targeted(lib, url, s.conn.response, key.url)))
            && (key in after ==> after[key] == s.store[key])
  {
  }

  // The keys an unsafe reply invalidates, in the order of the calls.
  function InvalidationCalls(lib: Library, url: Url, response: Headers): seq<CacheKey> {
    CallsFor(Some(url)) + CallsFor(Target(lib, url, response, TARGET_HEADERS[0]))
    + CallsFor(Target(lib, url, response, TARGET_HEADERS[1]))
  }

  function CallsFor(target: Option<Url>): seq<CacheKey> {
    if target.None? then [] else [CacheKey(Get, target.value), CacheKey(Head, target.value)]
  }

  function WithoutAll(store: Memory.Buckets, keys: seq<CacheKey>): Memory.Buckets {
    store - set i | 0 <= i < |keys| :: keys[i]
  }

  // Those calls are what the handler makes, and reach exactly the GET and HEAD
  // keys of the targeted URLs.
  lemma CallsAreTargets(lib: Library, s: State, url: Url, status: Status, key: CacheKey)
    requires 200 <= status < 400
    ensures var calls := InvalidationCalls(lib, url, s.conn.response);
            && (key in calls <==> GetOrHead(key) && Targeted(lib, url, s.conn.response, key.url))
            && (key in HandleUnsafe(lib, s, url, status).store <==> key in WithoutAll(s.store, calls))
  {
    var calls := InvalidationCalls(lib, url, s.conn.response);
    UnsafeRemovesExactly(lib, s, url, status, key);
    CallsReach(lib, url, s.conn.response, key);
    assert key in (set i | 0 <= i < |calls| :: calls[i]) <==> key in calls;
  }

  lemma CallsReach(lib: Library, url: Url, response: Headers, key: CacheKey)
    ensures key in InvalidationCalls(lib, url, response) <==>
            GetOrHead(key) && Targeted(lib, url, response, key.url)
  {
    var one, two, three := CallsFor(Some(url)), CallsFor(Target(lib, url, response, "location")),
                           CallsFor(Target(lib, url, response, "content-location"));
    assert InvalidationCalls(lib, url, response) == one + two + three;
    assert key in one + two + three <==> key in one || key in two || key in three;
  }

  // ---- Runs ----

  // The puts a stored body and the policy over it come from, by their place in
  // the order of commits.
  datatype Origin = Origin(body: nat, policy: nat)

  // A request between lookup and reply, and the put behind the policy of the
  // candidate it was looked up with.
  datatype Waiting = Waiting(isClient: bool, conn: Conn, from: nat)
  datatype Later = Later(task: Background, from: nat)

  datatype System = System(
    store: Memory.Buckets,
    origins: map<Slot, Origin>,
    log: seq<Entry>,
    waiting: map<nat, Waiting>,
    puts: seq<(PendingPut, OriginBody)>,
    backgrounds: seq<Later>,
    calls: seq<CacheKey>)

  const NOTHING := System(map[], map[], [], map[], [], [], [])

  datatype Event =
    | LookUp(id: nat, isClient: bool, conn: Conn, env: Env)
    | Answer(id: nat, reply: Option<Reply>, env: Env)
    | PerformCall(i: nat)
    | CommitPut(i: nat)
    | AbandonPut(i: nat)
    | FinishBackground(i: nat, reply: Option<Reply>, env: Env)

  function Remove<T>(xs: seq<T>, i: nat): seq<T>
    requires i < |xs|
  {
    xs[..i] + xs[i + 1..]
  }

  // Storage and its provenance after a put, or after a refresh through an
  // entry whose policy comes from the put `from`.
  function DoOp(sys: System, op: Op, from: nat): System {
    var store := Memory.Step(sys.store, op);
    match op
    case PutEntry(key, entry) =>
      sys.(store := store, log := sys.log + [entry],
           origins := sys.origins[SlotOf(key, entry.policy) := Origin(|sys.log|, |sys.log|)])
    case RefreshEntry(key, policy) =>
      var slot := SlotOf(key, policy);
      sys.(store := store,
           origins := if slot in sys.origins then sys.origins[slot := sys.origins[slot].(policy := from)]
                      else sys.origins)
    case _ => sys
  }

  function PolicyPut(sys: System, key: CacheKey, policy: CachePolicy): nat {
    if SlotOf(key, policy) in sys.origins then sys.origins[SlotOf(key, policy)].policy else 0
  }

  function OnLookUp(lib: Library, sys: System, id: nat, isClient: bool, conn: Conn, env: Env): System {
    var s := State(conn, sys.store, None, None);
    if id in sys.waiting || !Incoming(s) then sys
    else
      var t := Start(isClient, lib, s, env);
      var e := Chosen(lib, s, env);
      var from := if e.Some? then PolicyPut(sys, CacheKey(conn.verb, conn.url), e.value.policy) else 0;
      sys.(waiting := sys.waiting[id := Waiting(isClient, t.conn, from)],
           backgrounds := if t.background.Some? then sys.backgrounds + [Later(t.background.value, from)]
                          else sys.backgrounds)
  }

  // The request as the reply finds it: storage may have changed since.
  function Got(sys: System, w: Waiting, reply: Option<Reply>): State {
    var s := State(w.conn, sys.store, None, None);
    if w.conn.halted then s else Receive(w.isClient, s, reply)
  }

  // The refresh a 304 asks for.
  function RefreshOp(lib: Library, s: State, env: Env): Option<Op> {
    if s.conn.ctx.Some? && s.conn.ctx.value.Revalidation? && s.conn.status == Some(NOT_MODIFIED) && env.refreshOk
    then
      var ctx := s.conn.ctx.value;
      Some(RefreshEntry(ctx.key, After(lib, ctx.stored.policy, s.conn.request, NOT_MODIFIED, s.conn.response,
                                       env.atMerge).policy))
    else None
  }

  function Kept(origins: map<Slot, Origin>, store: Memory.Buckets): map<Slot, Origin> {
    map slot | slot in origins && slot.key in store :: origins[slot]
  }

  // The invalidations a reply to an unsafe request calls for.
  function CallsOf(lib: Library, s: State): seq<CacheKey> {
    if s.conn.ctx.Some? && s.conn.ctx.value.Unsafe? && s.conn.status.Some?
       && 200 <= s.conn.status.value < 400
    then InvalidationCalls(lib, s.conn.ctx.value.url, s.conn.response) else []
  }

  // A refresh is carried out with the reply; the calls of an unsafe request
  // are made one by one, and other events may come between them.
  function OnAnswer(lib: Library, cfg: Config, sys: System, id: nat, reply: Option<Reply>, env: Env): System {
    if id !in sys.waiting then sys
    else
      var w := sys.waiting[id];
      var got := Got(sys, w, reply);
      var t := Finish(w.isClient, lib, cfg, got, env);
      var puts :=
        if t.put.Some? && t.conn.body.Some? && t.conn.body.value.Teed?
        then sys.puts + [(t.put.value, t.conn.body.value.origin)] else sys.puts;
      var left := sys.(waiting := sys.waiting - {id}, puts := puts);
      var op := RefreshOp(lib, got, env);
      if op.Some? then DoOp(left, op.value, w.from).(store := t.store)
      else left.(calls := sys.calls + CallsOf(lib, got))
  }

  function OnEvent(lib: Library, cfg: Config, sys: System, event: Event): System {
    match event
    case LookUp(id, isClient, conn, env) => OnLookUp(lib, sys, id, isClient, conn, env)
    case Answer(id, reply, env) => OnAnswer(lib, cfg, sys, id, reply, env)
    case PerformCall(i) =>
      if i >= |sys.calls| then sys
      else
        var store := sys.store - {sys.calls[i]};
        sys.(store := store, origins := Kept(sys.origins, store), calls := Remove(sys.calls, i))
    case CommitPut(i) =>
      if i >= |sys.puts| then sys
      else
        var (put, o) := sys.puts[i];
        var outcome := Tee.StoredOutcome(o.bytes, o.trailers, cfg.maxCacheableSize);
        var rest := sys.(puts := Remove(sys.puts, i));
        if outcome.None? then rest
        else DoOp(rest, PutEntry(put.key, Entry(put.policy, outcome.value.bytes, outcome.value.trailers)), 0)
    case AbandonPut(i) => if i >= |sys.puts| then sys else sys.(puts := Remove(sys.puts, i))
    case FinishBackground(i, reply, env) =>
      if i >= |sys.backgrounds| then sys
      else
        var later := sys.backgrounds[i];
        var rest := sys.(backgrounds := Remove(sys.backgrounds, i));
        var op := BackgroundOp(lib, cfg, later.task, reply, env);
        if op.Some? then DoOp(rest, op.value, later.from) else rest
  }

  function RunEvents(lib: Library, cfg: Config, events: seq<Event>): System {
    if events == [] then NOTHING
    else OnEvent(lib, cfg, RunEvents(lib, cfg, events[..|events| - 1]), events[|events| - 1])
  }

  // ---- Only GET and HEAD are stored ----

  predicate WaitOk(w: Waiting) {
    && (w.conn.ctx.Some? && (w.conn.ctx.value.Miss? || w.conn.ctx.value.Revalidation?) ==>
          IsSafe(w.conn.verb) && w.conn.ctx.value.key == CacheKey(w.conn.verb, w.conn.url))
    && (if w.conn.halted then w.conn.ctx == Some(Hit) else w.conn.status.None? && !w.conn.error)
    && (w.conn.ctx.Some? && w.conn.ctx.value.Unsafe? ==> w.conn.response == map[])
  }

  ghost predicate KeysOk(sys: System) {
    && (forall key :: key in sys.store ==> GetOrHead(key))
    && (forall id :: id in sys.waiting ==> WaitOk(sys.waiting[id]))
    && (forall i :: 0 <= i < |sys.puts| ==> GetOrHead(sys.puts[i].0.key))
    && (forall i :: 0 <= i < |sys.backgrounds| ==> GetOrHead(sys.backgrounds[i].task.key))
  }

  lemma StartWaits(isClient: bool, lib: Library, s: State, env: Env, from: nat)
    requires Incoming(s)
    ensures WaitOk(Waiting(isClient, Start(isClient, lib, s, env).conn, from))
  {
    StartCtx(isClient, lib, s, env);
    ServedAtLookup(isClient, lib, s, env);
  }

  lemma BackgroundIsStored(isClient: bool, lib: Library, s: State, env: Env)
    requires Incoming(s)
    ensures var t := Start(isClient, lib, s, env); t.background.Some? ==> t.background.value.key in s.store
  {
    StartCtx(isClient, lib, s, env);
  }

  lemma MoreKeepsKeys(sys: System, id: nat, w: Waiting, backgrounds: seq<Later>)
    requires KeysOk(sys) && WaitOk(w)
    requires backgrounds == sys.backgrounds
             || exists l :: backgrounds == sys.backgrounds + [l] && l.task.key in sys.store
    ensures KeysOk(sys.(waiting := sys.waiting[id := w], backgrounds := backgrounds))
  {
  }

  lemma LookUpKeepsKeys(lib: Library, sys: System, id: nat, isClient: bool, conn: Conn, env: Env)
    requires KeysOk(sys)
    ensures KeysOk(OnLookUp(lib, sys, id, isClient, conn, env))
  {
    var s := State(conn, sys.store, None, None);
    if id !in sys.waiting && Incoming(s) {
      var sys' := OnLookUp(lib, sys, id, isClient, conn, env);
      StartWaits(isClient, lib, s, env, sys'.waiting[id].from);
      BackgroundIsStored(isClient, lib, s, env);
      MoreKeepsKeys(sys, id, sys'.waiting[id], sys'.backgrounds);
    }
  }

  lemma GotFacts(sys: System, w: Waiting, reply: Option<Reply>)
    requires WaitOk(w)
    ensures var got := Got(sys, w, reply);
            && got.conn.ctx == w.conn.ctx && got.conn.verb == w.conn.verb && got.conn.url == w.conn.url
            && got.store == sys.store && got.put.None? && got.background.None?
            && (got.conn.error ==> got.conn.status.None? || got.conn.ctx == Some(Hit))
  {
  }

  // What a reply does to storage: the refresh of a 304, the deletions of an
  // unsafe request, or nothing yet.
  function StoreAfter(lib: Library, s: State, env: Env): Memory.Buckets {
    var op := RefreshOp(lib, s, env);
    if op.Some? then Memory.Step(s.store, op.value)
    else if s.conn.ctx.Some? && s.conn.ctx.value.Unsafe? && s.conn.status.Some?
    then HandleUnsafe(lib, s, s.conn.ctx.value.url, s.conn.status.value).store
    else s.store
  }

  lemma HandledStore(
    lib: Library, cfg: Config, s: State, stored: Entry, key: CacheKey, status: Status, env: Env, overCap: bool)
    ensures HandleRevalidation(lib, cfg, s, stored, key, status, env, overCap).store
            == if status == NOT_MODIFIED && env.refreshOk
               then Memory.Step(s.store, RefreshEntry(key, After(lib, stored.policy, s.conn.request, NOT_MODIFIED,
                                                                 s.conn.response, env.atMerge).policy))
               else s.store
  {
  }

  lemma ClientStore(lib: Library, cfg: Config, s: State, env: Env)
    requires s.conn.error ==> s.conn.status.None? || s.conn.ctx == Some(Hit)
    ensures ClientAfter(lib, cfg, s, env).store == StoreAfter(lib, s, env)
  {
    if s.conn.ctx.Some? && s.conn.ctx.value.Revalidation? && s.conn.status.Some? {
      var u, ctx := s.(conn := s.conn.(ctx := None)), s.conn.ctx.value;
      HandledStore(lib, cfg, u, ctx.stored, ctx.key, s.conn.status.value, env, HeaderOverCap(cfg, u.conn.response));
    }
  }

  lemma ServerStore(lib: Library, cfg: Config, s: State, env: Env)
    ensures ServerAfter(lib, cfg, s, env).store == StoreAfter(lib, s, env)
  {
    if s.conn.ctx.Some? && s.conn.ctx.value.Revalidation? && s.conn.status.Some? {
      var u, ctx := s.(conn := s.conn.(ctx := None)), s.conn.ctx.value;
      HandledStore(lib, cfg, u, ctx.stored, ctx.key, s.conn.status.value, env, LengthOverCap(cfg, u.conn.body));
    }
  }

  lemma FinishStore(isClient: bool, lib: Library, cfg: Config, s: State, env: Env)
    requires s.conn.error ==> s.conn.status.None? || s.conn.ctx == Some(Hit)
    ensures Finish(isClient, lib, cfg, s, env).store == StoreAfter(lib, s, env)
  {
    if isClient { ClientStore(lib, cfg, s, env); } else { ServerStore(lib, cfg, s, env); }
  }

  // So the handler run in one go does its refresh or its calls in one go.
  lemma AnswerStore(isClient: bool, lib: Library, cfg: Config, s: State, env: Env)
    requires s.conn.error ==> s.conn.status.None? || s.conn.ctx == Some(Hit)
    ensures var op := RefreshOp(lib, s, env);
            Finish(isClient, lib, cfg, s, env).store
            == if op.Some? then Memory.Step(s.store, op.value) else WithoutAll(s.store, CallsOf(lib, s))
  {
    FinishStore(isClient, lib, cfg, s, env);
    assert WithoutAll(s.store, []) == s.store;
    if s.conn.ctx.Some? && s.conn.ctx.value.Unsafe? && s.conn.status.Some?
       && 200 <= s.conn.status.value < 400 {
      CallsAreAll(lib, s, s.conn.ctx.value.url, s.conn.status.value);
    }
  }

  lemma CallsAreAll(lib: Library, s: State, url: Url, status: Status)
    requires 200 <= status < 400
    ensures HandleUnsafe(lib, s, url, status).store == WithoutAll(s.store, InvalidationCalls(lib, url, s.conn.response))
  {
    var after := HandleUnsafe(lib, s, url, status).store;
    var calls := InvalidationCalls(lib, url, s.conn.response);
    forall key ensures key in after <==> key in WithoutAll(s.store, calls)
               ensures key in after ==> after[key] == s.store[key]
    {
      CallsAreTargets(lib, s, url, status, key);
      UnsafeRemovesExactly(lib, s, url, status, key);
    }
  }

  lemma AnswerPutKey(isClient: bool, lib: Library, cfg: Config, s: State, env: Env)
    requires s.put.None?
    requires s.conn.ctx.Some? && (s.conn.ctx.value.Miss? || s.conn.ctx.value.Revalidation?) ==>
               IsSafe(s.conn.verb) && s.conn.ctx.value.key == CacheKey(s.conn.verb, s.conn.url)
    ensures var t := Finish(isClient, lib, cfg, s, env); t.put.Some? ==> GetOrHead(t.put.value.key)
  {
    FinishPut(isClient, lib, cfg, s, env);
    var t := Finish(isClient, lib, cfg, s, env);
    if t.put.Some? {
      SafeStorableIsGetOrHead(lib, t.conn.verb, t.conn.request, t.conn.status.value, t.conn.response, cfg.options);
    }
  }

  lemma LeftKeepsKeys(sys: System, id: nat, puts: seq<(PendingPut, OriginBody)>, calls: seq<CacheKey>)
    requires KeysOk(sys)
    requires puts == sys.puts || exists p :: puts == sys.puts + [p] && GetOrHead(p.0.key)
    ensures KeysOk(sys.(waiting := sys.waiting - {id}, puts := puts, calls := calls))
  {
  }

  lemma AnswerKeepsKeys(lib: Library, cfg: Config, sys: System, id: nat, reply: Option<Reply>, env: Env)
    requires KeysOk(sys)
    ensures KeysOk(OnAnswer(lib, cfg, sys, id, reply, env))
  {
    if id in sys.waiting {
      var w := sys.waiting[id];
      var got := Got(sys, w, reply);
      var sys' := OnAnswer(lib, cfg, sys, id, reply, env);
      GotFacts(sys, w, reply);
      AnswerPutKey(w.isClient, lib, cfg, got, env);
      LeftKeepsKeys(sys, id, sys'.puts, sys'.calls);
      AnswerShape(lib, cfg, sys, id, reply, env);
      var op := RefreshOp(lib, got, env);
      if op.Some? { OpKeepsKeys(Left(sys, id, sys'), op.value, w.from); }
    }
  }

  // The system with the request off the list and its put and calls on theirs.
  function Left(sys: System, id: nat, sys': System): System {
    sys.(waiting := sys.waiting - {id}, puts := sys'.puts, calls := sys'.calls)
  }

  lemma AnswerShape(lib: Library, cfg: Config, sys: System, id: nat, reply: Option<Reply>, env: Env)
    requires id in sys.waiting && WaitOk(sys.waiting[id])
    ensures var w := sys.waiting[id];
            var op := RefreshOp(lib, Got(sys, w, reply), env);
            var sys' := OnAnswer(lib, cfg, sys, id, reply, env);
            sys' == if op.Some? then DoOp(Left(sys, id, sys'), op.value, w.from) else Left(sys, id, sys')
  {
    var w := sys.waiting[id];
    var got := Got(sys, w, reply);
    GotFacts(sys, w, reply);
    FinishStore(w.isClient, lib, cfg, got, env);
  }

  lemma BackgroundKey(lib: Library, cfg: Config, b: Background, reply: Option<Reply>, env: Env)
    ensures var op := BackgroundOp(lib, cfg, b, reply, env);
            op.Some? ==> (op.value.PutEntry? || op.value.RefreshEntry?) && op.value.key == b.key
  {
  }

  lemma OpKeepsKeys(sys: System, op: Op, from: nat)
    requires KeysOk(sys) && (op.RefreshEntry? || (op.PutEntry? && GetOrHead(op.key)))
    ensures KeysOk(DoOp(sys, op, from))
  {
  }

  lemma RemovalKeepsKeys(sys: System, i: nat)
    requires KeysOk(sys)
    ensures i < |sys.puts| ==> KeysOk(sys.(puts := Remove(sys.puts, i)))
    ensures i < |sys.backgrounds| ==> KeysOk(sys.(backgrounds := Remove(sys.backgrounds, i)))
  {
  }

  lemma CommitKeepsKeys(lib: Library, cfg: Config, sys: System, i: nat)
    requires KeysOk(sys)
    ensures KeysOk(OnEvent(lib, cfg, sys, CommitPut(i)))
  {
    if i < |sys.puts| {
      var (put, o) := sys.puts[i];
      var outcome := Tee.StoredOutcome(o.bytes, o.trailers, cfg.maxCacheableSize);
      RemovalKeepsKeys(sys, i);
      if outcome.Some? {
        OpKeepsKeys(sys.(puts := Remove(sys.puts, i)),
                    PutEntry(put.key, Entry(put.policy, outcome.value.bytes, outcome.value.trailers)), 0);
      }
    }
  }

  lemma BackgroundKeepsKeys(lib: Library, cfg: Config, sys: System, i: nat, reply: Option<Reply>, env: Env)
    requires KeysOk(sys)
    ensures KeysOk(OnEvent(lib, cfg, sys, FinishBackground(i, reply, env)))
  {
    if i < |sys.backgrounds| {
      var later := sys.backgrounds[i];
      var op := BackgroundOp(lib, cfg, later.task, reply, env);
      BackgroundKey(lib, cfg, later.task, reply, env);
      RemovalKeepsKeys(sys, i);
      if op.Some? { OpKeepsKeys(sys.(backgrounds := Remove(sys.backgrounds, i)), op.value, later.from); }
    }
  }

  lemma EventKeepsKeys(lib: Library, cfg: Config, sys: System, event: Event)
    requires KeysOk(sys)
    ensures KeysOk(OnEvent(lib, cfg, sys, event))
  {
    match event
    case LookUp(id, isClient, conn, env) => LookUpKeepsKeys(lib, sys, id, isClient, conn, env);
    case Answer(id, reply, env) => AnswerKeepsKeys(lib, cfg, sys, id, reply, env);
    case PerformCall(i) =>
    case CommitPut(i) => CommitKeepsKeys(lib, cfg, sys, i);
    case AbandonPut(i) => RemovalKeepsKeys(sys, i);
    case FinishBackground(i, reply, env) => BackgroundKeepsKeys(lib, cfg, sys, i, reply, env);
  }

  // In every run of both handlers only GET and HEAD keys are ever stored.
  lemma {:induction false} OnlyGetAndHeadStored(lib: Library, cfg: Config, events: seq<Event>)
    ensures KeysOk(RunEvents(lib, cfg, events))
  {
    if events != [] {
      OnlyGetAndHeadStored(lib, cfg, events[..|events| - 1]);
      EventKeepsKeys(lib, cfg, RunEvents(lib, cfg, events[..|events| - 1]), events[|events| - 1]);
    }
  }

  // When the reply to an unsafe request arrives, exactly the GET and HEAD keys
  // of its URL and same-host targets are called for if it is a 2xx or 3xx, and
  // none otherwise; nothing else changes and nothing new is in flight.
  lemma UnsafeCallsExactly(
    lib: Library, cfg: Config, events: seq<Event>, id: nat, url: Url, reply: Reply, env: Env, key: CacheKey)
    requires var w := RunEvents(lib, cfg, events).waiting;
             id in w && w[id].conn.ctx == Some(Unsafe(url))
    ensures var before := RunEvents(lib, cfg, events);
            var after := OnEvent(lib, cfg, before, Answer(id, Some(reply), env));
            var calls := InvalidationCalls(lib, url, reply.headers);
            && after.calls == before.calls + (if 200 <= reply.status < 400 then calls else [])
            && (key in calls <==> GetOrHead(key) && Targeted(lib, url, reply.headers, key.url))
            && after.store == before.store && after.puts == before.puts && after.backgrounds == before.backgrounds
  {
    OnlyGetAndHeadStored(lib, cfg, events);
    var before := RunEvents(lib, cfg, events);
    var w := before.waiting[id];
    GotFacts(before, w, Some(reply));
    FinishPut(w.isClient, lib, cfg, Got(before, w, Some(reply)), env);
    assert map[] + reply.headers == reply.headers;
    CallsReach(lib, url, reply.headers, key);
  }

  // ---- Which keys are stored ----

  // The event commits a put under the key.
  predicate Puts(lib: Library, cfg: Config, sys: System, event: Event, key: CacheKey) {
    match event
    case CommitPut(i) =>
      && i < |sys.puts| && sys.puts[i].0.key == key
      && Tee.Fits(|sys.puts[i].1.bytes|, cfg.maxCacheableSize)
    case FinishBackground(i, reply, env) =>
      && i < |sys.backgrounds|
      && var op := BackgroundOp(lib, cfg, sys.backgrounds[i].task, reply, env);
      op.Some? && op.value.PutEntry? && op.value.key == key
    case _ => false
  }

  predicate Calls(sys: System, event: Event, key: CacheKey) {
    event.PerformCall? && event.i < |sys.calls| && sys.calls[event.i] == key
  }

  // A put under the key came after the last call for it.
  predicate PutSinceCall(lib: Library, cfg: Config, events: seq<Event>, key: CacheKey) {
    if events == [] then false
    else
      var n := |events| - 1;
      var sys := RunEvents(lib, cfg, events[..n]);
      if Puts(lib, cfg, sys, events[n], key) then true
      else if Calls(sys, events[n], key) then false
      else PutSinceCall(lib, cfg, events[..n], key)
  }

  lemma OpKey(sys: System, op: Op, from: nat, key: CacheKey)
    requires op.PutEntry? || op.RefreshEntry?
    ensures key in DoOp(sys, op, from).store <==> key in sys.store || (op.PutEntry? && op.key == key)
  {
  }

  lemma AnswerKey(lib: Library, cfg: Config, sys: System, id: nat, reply: Option<Reply>, env: Env, key: CacheKey)
    requires KeysOk(sys)
    ensures key in OnAnswer(lib, cfg, sys, id, reply, env).store <==> key in sys.store
  {
    if id in sys.waiting {
      var w := sys.waiting[id];
      GotFacts(sys, w, reply);
      FinishStore(w.isClient, lib, cfg, Got(sys, w, reply), env);
    }
  }

  lemma EventKey(lib: Library, cfg: Config, sys: System, event: Event, key: CacheKey)
    requires KeysOk(sys)
    ensures key in OnEvent(lib, cfg, sys, event).store
            <==> Puts(lib, cfg, sys, event, key) || (key in sys.store && !Calls(sys, event, key))
  {
    match event
    case LookUp(_, _, _, _) =>
    case Answer(id, reply, env) => AnswerKey(lib, cfg, sys, id, reply, env, key);
    case PerformCall(i) =>
    case CommitPut(i) =>
    case AbandonPut(i) =>
    case FinishBackground(i, reply, env) =>
      if i < |sys.backgrounds| { BackgroundKey(lib, cfg, sys.backgrounds[i].task, reply, env); }
  }

  // In every run a key is stored exactly when it was put after the last call
  // to invalidate it. So once the calls of an unsafe request have been made,
  // nothing is stored for a targeted URL except what was committed since, the
  // calls for GET and HEAD each counting from its own moment.
  lemma {:induction false} StoredIffPutSinceCall(lib: Library, cfg: Config, events: seq<Event>, key: CacheKey)
    ensures key in RunEvents(lib, cfg, events).store <==> PutSinceCall(lib, cfg, events, key)
  {
    if events != [] {
      var n := |events| - 1;
      StoredIffPutSinceCall(lib, cfg, events[..n], key);
      OnlyGetAndHeadStored(lib, cfg, events[..n]);
      EventKey(lib, cfg, RunEvents(lib, cfg, events[..n]), events[n], key);
    }
  }

  // A call for the key was made, and no put under it since.
  predicate CalledSincePut(lib: Library, cfg: Config, events: seq<Event>, key: CacheKey) {
    && events != []
    && var n := |events| - 1;
    var sys := RunEvents(lib, cfg, events[..n]);
    || Calls(sys, events[n], key)
    || (CalledSincePut(lib, cfg, events[..n], key) && !Puts(lib, cfg, sys, events[n], key))
  }

  lemma {:induction false} CalledMeansNoPut(lib: Library, cfg: Config, events: seq<Event>, key: CacheKey)
    requires CalledSincePut(lib, cfg, events, key)
    ensures !PutSinceCall(lib, cfg, events, key)
  {
    var n := |events| - 1;
    if !Calls(RunEvents(lib, cfg, events[..n]), events[n], key) {
      CalledMeansNoPut(lib, cfg, events[..n], key);
    }
  }

  // So after a successful unsafe request nothing is left for a targeted URL:
  // under GET and HEAD once their calls were made, unless put again since; and
  // under any other method never.
  lemma UnsafeLeavesNothing(
    lib: Library, cfg: Config, events: seq<Event>, url: Url, response: Headers, key: CacheKey)
    requires Targeted(lib, url, response, key.url)
    requires key in InvalidationCalls(lib, url, response) ==> CalledSincePut(lib, cfg, events, key)
    ensures key !in RunEvents(lib, cfg, events).store
  {
    CallsReach(lib, url, response, key);
    OnlyGetAndHeadStored(lib, cfg, events);
    if GetOrHead(key) {
      CalledMeansNoPut(lib, cfg, events, key);
      StoredIffPutSinceCall(lib, cfg, events, key);
    }
  }

  // ---- Trailers ----

  // What the model says the reader of a teed body receives is what the tee
  // hands over, for every sequence of polls that never refuses a write and
  // runs to the end.
  lemma TeedBodyIsReceived(cfg: Config, o: OriginBody, ios: seq<Tee.PollIo>)
    requires Tee.ReadToEnd(o.bytes, o.trailers, cfg.maxCacheableSize, ios)
    ensures var (t, got) := Tee.Run(Tee.NewTee(o.bytes, o.trailers, cfg.maxCacheableSize), ios);
            (got, t.trailers) == Received(cfg, Some(Teed(o)))
  {
    Tee.TrailersFollowStorage(o.bytes, o.trailers, cfg.maxCacheableSize, ios);
  }

  // Whether the handler declines the put on the length it was told.
  predicate Declines(isClient: bool, cfg: Config, reply: Reply, o: OriginBody) {
    if isClient then HeaderOverCap(cfg, reply.headers) else LengthOverCap(cfg, Some(PassThrough(o)))
  }

  // On a miss the reader gets all bytes, and loses the trailers exactly when
  // there are some, the reply may be stored, its length was not declined up
  // front, and the body turns out too long. The client goes by the
  // Content-Length line and the server by the length of the body object, so
  // they differ exactly where only one of them declines.
  lemma TrailersLostIff(
    isClient: bool, lib: Library, cfg: Config, s: State, reply: Reply, env: Env, o: OriginBody)
    requires Incoming(s) && IsSafe(s.conn.verb) && Chosen(lib, s, env).None? && env.putOk
    requires reply.body == Some(o)
    ensures var (bytes, trailers) := Received(cfg, Exchange(isClient, lib, cfg, s, Some(reply), env).conn.body);
            && bytes == o.bytes
            && (trailers != o.trailers <==>
                  && o.trailers.Some? && !Tee.Fits(|o.bytes|, cfg.maxCacheableSize)
                  && IsStorable(lib, s.conn.verb, s.conn.request, reply.status, reply.headers, cfg.options)
                  && !Declines(isClient, cfg, reply, o))
  {
    MissIsHandled(isClient, lib, cfg, s, reply, env, o);
  }

  // On a miss both handlers come down to one call.
  lemma MissIsHandled(
    isClient: bool, lib: Library, cfg: Config, s: State, reply: Reply, env: Env, o: OriginBody)
    requires Incoming(s) && IsSafe(s.conn.verb) && Chosen(lib, s, env).None? && reply.body == Some(o)
    ensures var got := s.(conn := s.conn.(status := Some(reply.status), response := reply.headers,
                                          body := Some(PassThrough(o))));
            Exchange(isClient, lib, cfg, s, Some(reply), env)
            == HandleMiss(lib, cfg, got, CacheKey(s.conn.verb, s.conn.url), reply.status, env,
                          Declines(isClient, cfg, reply, o))
  {
    assert s.conn.response + reply.headers == reply.headers;
    assert Start(isClient, lib, s, env) == s.(conn := s.conn.(ctx := Some(Miss(CacheKey(s.conn.verb, s.conn.url)))));
  }

  // A stored body that fails to open: the server has already put the cached
  // head on the response, and the downstream reply goes on top of it. The age
  // it shows then belongs to no response; the client shows the reply.
  lemma FailedOpenLeaksCachedHead(lib: Library, cfg: Config, s: State, reply: Reply, env: Env, stored: Entry)
    requires Incoming(s) && !env.openOk && Chosen(lib, s, env) == Some(stored)
    requires Before(lib, stored.policy, s.conn.request, env.atLookup).Fresh?
    ensures var server := Exchange(false, lib, cfg, s, Some(reply), env).conn;
            && server.response == ResponseAt(stored.policy, env.atLookup).headers + reply.headers
            && ("age" !in reply.headers ==>
                  "age" in server.response && Leaks(lib, s, reply, env) && !HeadFitsBody(server, Some(reply), env))
    ensures Exchange(true, lib, cfg, s, Some(reply), env).conn.response == reply.headers
  {
    HeadAndBodyTogether(false, lib, cfg, s, reply, env);
    assert "age" in ResponseAt(stored.policy, env.atLookup).headers;
  }
}
