/** Whether the policy stored over a body comes from the exchange that body came
    from, over whole runs of the handlers: every body is a committed put's, every
    policy descends from a committed put's, and the two part exactly when a 304
    lands on a put it was not looked up with. */
module HandlerPairing {
  import opened Wrappers
  import opened Text
  import opened Http
  import opened Policy
  import opened Freshness
  import opened Storability
  import opened EntityTags
  import opened Validation
  import opened Storage
  import opened Handlers
  import opened HandlerTheorems
  import opened HandlerRuns
  import Memory
  import Tee

  // ---- Where stored policies come from ----

  // One policy is the other after some number of 304s.
  ghost predicate Descends(lib: Library, p: CachePolicy, q: CachePolicy) {
    exists refreshes: seq<Refresh> :: q == RefreshAll(lib, p, refreshes)
  }

  lemma DescendsFromItself(lib: Library, p: CachePolicy)
    ensures Descends(lib, p, p)
  {
    assert RefreshAll(lib, p, []) == p;
  }

  lemma DescendsFurther(lib: Library, p: CachePolicy, q: CachePolicy, r: Refresh)
    requires Descends(lib, p, q)
    ensures Descends(lib, p, After(lib, q, r.request, NOT_MODIFIED, r.reply, r.time).policy)
  {
    var refreshes: seq<Refresh> :| q == RefreshAll(lib, p, refreshes);
    var more := refreshes + [r];
    assert more[..|refreshes|] == refreshes;
    assert RefreshAll(lib, p, more) == After(lib, q, r.request, NOT_MODIFIED, r.reply, r.time).policy;
  }

  // What is stored in a slot.
  function At(store: Memory.Buckets, slot: Slot): Option<Entry> {
    Memory.Find(Memory.BucketOf(store, slot.key), slot.signature)
  }

  ghost predicate PolicyFrom(lib: Library, log: seq<Entry>, put: nat, policy: CachePolicy) {
    put < |log| && Descends(lib, log[put].policy, policy)
  }

  // The stored entry is the body and trailers of one put under the policy of
  // one put.
  ghost predicate OriginOk(lib: Library, log: seq<Entry>, o: Origin, e: Entry) {
    && o.body < |log| && log[o.body].body == e.body && log[o.body].trailers == e.trailers
    && PolicyFrom(lib, log, o.policy, e.policy)
  }

  ghost predicate BucketsDistinct(store: Memory.Buckets) {
    forall key :: key in store ==> Memory.Distinct(store[key])
  }

  ghost predicate SlotTracked(lib: Library, sys: System, slot: Slot) {
    && (slot in sys.origins <==> At(sys.store, slot).Some?)
    && (slot in sys.origins ==> OriginOk(lib, sys.log, sys.origins[slot], At(sys.store, slot).value))
  }

  ghost predicate WaitTracked(lib: Library, log: seq<Entry>, w: Waiting) {
    w.conn.ctx.Some? && w.conn.ctx.value.Revalidation? ==> PolicyFrom(lib, log, w.from, w.conn.ctx.value.stored.policy)
  }

  ghost predicate Tracked(lib: Library, sys: System) {
    && BucketsDistinct(sys.store)
    && (forall slot :: SlotTracked(lib, sys, slot))
    && (forall id :: id in sys.waiting ==> WaitTracked(lib, sys.log, sys.waiting[id]))
    && (forall i :: 0 <= i < |sys.backgrounds| ==>
          PolicyFrom(lib, sys.log, sys.backgrounds[i].from, sys.backgrounds[i].task.stored.policy))
  }

  lemma LogGrows(lib: Library, log: seq<Entry>, log': seq<Entry>, put: nat, policy: CachePolicy)
    requires log <= log' && PolicyFrom(lib, log, put, policy)
    ensures PolicyFrom(lib, log', put, policy)
  {
  }

  // The requests and tasks still under way.
  ghost predicate PendingTracked(lib: Library, sys: System) {
    && (forall id :: id in sys.waiting ==> WaitTracked(lib, sys.log, sys.waiting[id]))
    && (forall i :: 0 <= i < |sys.backgrounds| ==>
          PolicyFrom(lib, sys.log, sys.backgrounds[i].from, sys.backgrounds[i].task.stored.policy))
  }

  lemma PutPending(lib: Library, sys: System, entry: Entry)
    requires PendingTracked(lib, sys)
    ensures PendingTracked(lib, sys.(log := sys.log + [entry]))
  {
    var log := sys.log + [entry];
    forall id | id in sys.waiting ensures WaitTracked(lib, log, sys.waiting[id]) {
      var w := sys.waiting[id];
      assert WaitTracked(lib, sys.log, w);
      if w.conn.ctx.Some? && w.conn.ctx.value.Revalidation? {
        LogGrows(lib, sys.log, log, w.from, w.conn.ctx.value.stored.policy);
      }
    }
    forall i | 0 <= i < |sys.backgrounds|
      ensures PolicyFrom(lib, log, sys.backgrounds[i].from, sys.backgrounds[i].task.stored.policy)
    {
      LogGrows(lib, sys.log, log, sys.backgrounds[i].from, sys.backgrounds[i].task.stored.policy);
    }
  }

  // ---- Operations keep track ----

  lemma PutAt(store: Memory.Buckets, key: CacheKey, entry: Entry, slot: Slot)
    requires BucketsDistinct(store)
    ensures var after := Memory.Step(store, PutEntry(key, entry));
            && Memory.Distinct(after[key])
            && At(after, slot) == if slot == SlotOf(key, entry.policy) then Some(entry) else At(store, slot)
  {
    Memory.FinalizedFacts(Memory.BucketOf(store, key), entry, slot.signature);
  }

  lemma RefreshAt(store: Memory.Buckets, key: CacheKey, policy: CachePolicy, slot: Slot)
    requires BucketsDistinct(store)
    ensures var after := Memory.Step(store, RefreshEntry(key, policy));
            && (key in after ==> Memory.Distinct(after[key]))
            && At(after, slot) == var found := At(store, slot);
                                  if found.Some? && slot == SlotOf(key, policy)
                                  then Some(found.value.(policy := policy)) else found
  {
    Memory.RefreshedFacts(Memory.BucketOf(store, key), policy, slot.signature);
  }

  lemma PutTracked(lib: Library, sys: System, key: CacheKey, entry: Entry, from: nat)
    requires Tracked(lib, sys)
    ensures Tracked(lib, DoOp(sys, PutEntry(key, entry), from))
  {
    var sys' := DoOp(sys, PutEntry(key, entry), from);
    PutPending(lib, sys, entry);
    forall slot ensures SlotTracked(lib, sys', slot) {
      PutSlotTracked(lib, sys, key, entry, from, slot);
    }
    forall k | k in sys'.store ensures Memory.Distinct(sys'.store[k]) {
      PutAt(sys.store, key, entry, Slot(key, []));
    }
  }

  lemma PutSlotTracked(lib: Library, sys: System, key: CacheKey, entry: Entry, from: nat, slot: Slot)
    requires BucketsDistinct(sys.store) && SlotTracked(lib, sys, slot)
    ensures SlotTracked(lib, DoOp(sys, PutEntry(key, entry), from), slot)
  {
    PutAt(sys.store, key, entry, slot);
    var log := sys.log + [entry];
    if slot == SlotOf(key, entry.policy) {
      DescendsFromItself(lib, entry.policy);
      assert log[|sys.log|] == entry;
    } else if slot in sys.origins {
      LogGrows(lib, sys.log, log, sys.origins[slot].policy, At(sys.store, slot).value.policy);
    }
  }

  lemma RefreshTracked(lib: Library, sys: System, key: CacheKey, policy: CachePolicy, from: nat)
    requires Tracked(lib, sys) && PolicyFrom(lib, sys.log, from, policy)
    ensures Tracked(lib, DoOp(sys, RefreshEntry(key, policy), from))
  {
    var sys' := DoOp(sys, RefreshEntry(key, policy), from);
    forall slot ensures SlotTracked(lib, sys', slot) {
      assert SlotTracked(lib, sys, slot);
      RefreshAt(sys.store, key, policy, slot);
    }
    forall k | k in sys'.store ensures Memory.Distinct(sys'.store[k]) {
      RefreshAt(sys.store, key, policy, Slot(key, []));
    }
  }

  // ---- Events keep track ----

  lemma LookUpTracked(lib: Library, sys: System, id: nat, isClient: bool, conn: Conn, env: Env)
    requires Tracked(lib, sys)
    ensures Tracked(lib, OnLookUp(lib, sys, id, isClient, conn, env))
  {
    var s := State(conn, sys.store, None, None);
    var sys' := OnLookUp(lib, sys, id, isClient, conn, env);
    if id !in sys.waiting && Incoming(s) {
      StartCtx(isClient, lib, s, env);
      ServedAtLookup(isClient, lib, s, env);
      var e := Chosen(lib, s, env);
      if e.Some? { ChosenTracked(lib, sys, s, env); }
      forall slot ensures SlotTracked(lib, sys', slot) {
        assert SlotTracked(lib, sys, slot);
      }
    }
  }

  lemma ChosenTracked(lib: Library, sys: System, s: State, env: Env)
    requires Tracked(lib, sys) && s.store == sys.store && Chosen(lib, s, env).Some?
    ensures var e := Chosen(lib, s, env).value;
            PolicyFrom(lib, sys.log, PolicyPut(sys, CacheKey(s.conn.verb, s.conn.url), e.policy), e.policy)
  {
    var e, key := Chosen(lib, s, env).value, CacheKey(s.conn.verb, s.conn.url);
    PickFacts(lib, Candidates(s), s.conn.request, env.atLookup);
    Memory.FindMember(Candidates(s), e);
    assert SlotTracked(lib, sys, SlotOf(key, e.policy));
    assert At(sys.store, SlotOf(key, e.policy)) == Some(e);
  }

  lemma RefreshPolicyFrom(lib: Library, sys: System, s: State, env: Env, from: nat)
    requires RefreshOp(lib, s, env).Some?
    requires PolicyFrom(lib, sys.log, from, s.conn.ctx.value.stored.policy)
    ensures RefreshOp(lib, s, env).value.RefreshEntry?
    ensures PolicyFrom(lib, sys.log, from, RefreshOp(lib, s, env).value.policy)
  {
    DescendsFurther(lib, sys.log[from].policy, s.conn.ctx.value.stored.policy,
                    Refresh(s.conn.request, s.conn.response, env.atMerge));
  }

  // Deletions under whole keys.
  lemma ShrinkTracked(lib: Library, sys: System, store: Memory.Buckets)
    requires Tracked(lib, sys)
    requires forall key :: key in store ==> key in sys.store && store[key] == sys.store[key]
    ensures Tracked(lib, sys.(store := store, origins := Kept(sys.origins, store)))
  {
    var sys' := sys.(store := store, origins := Kept(sys.origins, store));
    forall slot ensures SlotTracked(lib, sys', slot) {
      assert SlotTracked(lib, sys, slot);
    }
  }

  lemma FewerWaiting(lib: Library, sys: System, id: nat, puts: seq<(PendingPut, OriginBody)>)
    requires Tracked(lib, sys)
    ensures Tracked(lib, sys.(waiting := sys.waiting - {id}, puts := puts))
  {
    var sys' := sys.(waiting := sys.waiting - {id}, puts := puts);
    forall slot ensures SlotTracked(lib, sys', slot) {
      assert SlotTracked(lib, sys, slot);
    }
  }

  lemma AnswerTracked(lib: Library, cfg: Config, sys: System, id: nat, reply: Option<Reply>, env: Env)
    requires Tracked(lib, sys) && KeysOk(sys)
    ensures Tracked(lib, OnAnswer(lib, cfg, sys, id, reply, env))
  {
    if id in sys.waiting {
      var w := sys.waiting[id];
      var got := Got(sys, w, reply);
      GotFacts(sys, w, reply);
      FinishStore(w.isClient, lib, cfg, got, env);
      var left := sys.(waiting := sys.waiting - {id}, puts := OnAnswer(lib, cfg, sys, id, reply, env).puts);
      FewerWaiting(lib, sys, id, left.puts);
      var op := RefreshOp(lib, got, env);
      if op.Some? {
        assert WaitTracked(lib, sys.log, w);
        RefreshPolicyFrom(lib, sys, got, env, w.from);
        RefreshTracked(lib, left, op.value.key, op.value.policy, w.from);
      } else {
        MoreCalls(lib, left, OnAnswer(lib, cfg, sys, id, reply, env).calls);
      }
    }
  }

  lemma MoreCalls(lib: Library, sys: System, calls: seq<CacheKey>)
    requires Tracked(lib, sys)
    ensures Tracked(lib, sys.(calls := calls))
  {
    forall slot ensures SlotTracked(lib, sys.(calls := calls), slot) {
      assert SlotTracked(lib, sys, slot);
    }
  }

  lemma CallTracked(lib: Library, cfg: Config, sys: System, i: nat)
    requires Tracked(lib, sys)
    ensures Tracked(lib, OnEvent(lib, cfg, sys, PerformCall(i)))
  {
    if i < |sys.calls| {
      var store := sys.store - {sys.calls[i]};
      ShrinkTracked(lib, sys, store);
      MoreCalls(lib, sys.(store := store, origins := Kept(sys.origins, store)), Remove(sys.calls, i));
    }
  }

  lemma FewerLeft(lib: Library, sys: System, i: nat)
    requires Tracked(lib, sys)
    ensures i < |sys.puts| ==> Tracked(lib, sys.(puts := Remove(sys.puts, i)))
    ensures i < |sys.backgrounds| ==> Tracked(lib, sys.(backgrounds := Remove(sys.backgrounds, i)))
  {
    if i < |sys.puts| {
      forall slot ensures SlotTracked(lib, sys.(puts := Remove(sys.puts, i)), slot) {
        assert SlotTracked(lib, sys, slot);
      }
    }
    if i < |sys.backgrounds| {
      forall slot ensures SlotTracked(lib, sys.(backgrounds := Remove(sys.backgrounds, i)), slot) {
        assert SlotTracked(lib, sys, slot);
      }
    }
  }

  lemma BackgroundTracked(lib: Library, cfg: Config, sys: System, i: nat, reply: Option<Reply>, env: Env)
    requires Tracked(lib, sys)
    ensures Tracked(lib, OnEvent(lib, cfg, sys, FinishBackground(i, reply, env)))
  {
    if i < |sys.backgrounds| {
      var later := sys.backgrounds[i];
      var rest := sys.(backgrounds := Remove(sys.backgrounds, i));
      FewerLeft(lib, sys, i);
      var op := BackgroundOp(lib, cfg, later.task, reply, env);
      BackgroundKey(lib, cfg, later.task, reply, env);
      if op.Some? && op.value.PutEntry? {
        PutTracked(lib, rest, op.value.key, op.value.entry, later.from);
      } else if op.Some? {
        BackgroundPolicyFrom(lib, cfg, sys, later, reply, env);
        RefreshTracked(lib, rest, op.value.key, op.value.policy, later.from);
      }
    }
  }

  lemma BackgroundPolicyFrom(lib: Library, cfg: Config, sys: System, later: Later, reply: Option<Reply>, env: Env)
    requires PolicyFrom(lib, sys.log, later.from, later.task.stored.policy)
    requires var op := BackgroundOp(lib, cfg, later.task, reply, env); op.Some? && op.value.RefreshEntry?
    ensures PolicyFrom(lib, sys.log, later.from, BackgroundOp(lib, cfg, later.task, reply, env).value.policy)
  {
    DescendsFurther(lib, sys.log[later.from].policy, later.task.stored.policy,
                    Refresh(later.task.request, reply.value.headers, env.atMerge));
  }

  lemma CommitTracked(lib: Library, cfg: Config, sys: System, i: nat)
    requires Tracked(lib, sys)
    ensures Tracked(lib, OnEvent(lib, cfg, sys, CommitPut(i)))
  {
    if i < |sys.puts| {
      var (put, o) := sys.puts[i];
      var outcome := Tee.StoredOutcome(o.bytes, o.trailers, cfg.maxCacheableSize);
      FewerLeft(lib, sys, i);
      if outcome.Some? {
        PutTracked(lib, sys.(puts := Remove(sys.puts, i)), put.key,
                   Entry(put.policy, outcome.value.bytes, outcome.value.trailers), 0);
      }
    }
  }

  lemma EventTracked(lib: Library, cfg: Config, sys: System, event: Event)
    requires Tracked(lib, sys) && KeysOk(sys)
    ensures Tracked(lib, OnEvent(lib, cfg, sys, event))
  {
    match event
    case LookUp(id, isClient, conn, env) => LookUpTracked(lib, sys, id, isClient, conn, env);
    case Answer(id, reply, env) => AnswerTracked(lib, cfg, sys, id, reply, env);
    case PerformCall(i) => CallTracked(lib, cfg, sys, i);
    case CommitPut(i) => CommitTracked(lib, cfg, sys, i);
    case AbandonPut(i) => FewerLeft(lib, sys, i);
    case FinishBackground(i, reply, env) => BackgroundTracked(lib, cfg, sys, i, reply, env);
  }

  // In every run of both handlers, whatever is stored is the body and trailers
  // of one committed put, under a policy that descends by 304s from one
  // committed put.
  lemma {:induction false} StoredComesFromPuts(lib: Library, cfg: Config, events: seq<Event>)
    ensures Tracked(lib, RunEvents(lib, cfg, events))
  {
    if events != [] {
      var n := |events| - 1;
      StoredComesFromPuts(lib, cfg, events[..n]);
      OnlyGetAndHeadStored(lib, cfg, events[..n]);
      EventTracked(lib, cfg, RunEvents(lib, cfg, events[..n]), events[n]);
    }
  }

  // ---- When they are the same put ----

  ghost predicate AllPaired(sys: System) {
    forall slot :: slot in sys.origins ==> sys.origins[slot].policy == sys.origins[slot].body
  }

  // A paired entry describes its own body: status and body-describing headers
  // are those stored with it.
  lemma PairedDescribesBody(lib: Library, sys: System, slot: Slot, name: string)
    requires Tracked(lib, sys) && slot in sys.origins && sys.origins[slot].policy == sys.origins[slot].body
    requires DescribesBody(name)
    ensures var e, put := At(sys.store, slot), sys.origins[slot].body;
            && e.Some? && put < |sys.log|
            && e.value.body == sys.log[put].body && e.value.trailers == sys.log[put].trailers
            && e.value.policy.responseStatus == sys.log[put].policy.responseStatus
            && GetValues(e.value.policy.responseHeaders, name)
               == GetValues(sys.log[put].policy.responseHeaders, name)
  {
    assert SlotTracked(lib, sys, slot);
    var e, p := At(sys.store, slot).value, sys.log[sys.origins[slot].policy].policy;
    var refreshes: seq<Refresh> :| e.policy == RefreshAll(lib, p, refreshes);
    RefreshesKeepBodyDescription(lib, p, refreshes, name, LastCarrierOf(Replies(refreshes), name));
  }

  // The operation an event performs, and the put its policy comes from.
  function EventOp(lib: Library, cfg: Config, sys: System, event: Event): Option<(Op, nat)> {
    match event
    case Answer(id, reply, env) =>
      if id !in sys.waiting then None
      else
        var op := RefreshOp(lib, Got(sys, sys.waiting[id], reply), env);
        if op.Some? then Some((op.value, sys.waiting[id].from)) else None
    case FinishBackground(i, reply, env) =>
      if i >= |sys.backgrounds| then None
      else
        var op := BackgroundOp(lib, cfg, sys.backgrounds[i].task, reply, env);
        if op.Some? then Some((op.value, sys.backgrounds[i].from)) else None
    case _ => None
  }

  // A 304 that lands on a stored variant lands on the put it was looked up
  // with: not replaced meanwhile, and no sibling.
  predicate LandsOnOwn(lib: Library, cfg: Config, sys: System, event: Event) {
    var did := EventOp(lib, cfg, sys, event);
    did.Some? && did.value.0.RefreshEntry? ==>
      var slot := SlotOf(did.value.0.key, did.value.0.policy);
      slot in sys.origins ==> sys.origins[slot].body == did.value.1
  }

  lemma OpPairsIff(sys: System, op: Op, from: nat)
    requires AllPaired(sys) && (op.PutEntry? || op.RefreshEntry?)
    ensures AllPaired(DoOp(sys, op, from)) <==>
            (op.RefreshEntry? && SlotOf(op.key, op.policy) in sys.origins ==>
               sys.origins[SlotOf(op.key, op.policy)].body == from)
  {
    var sys' := DoOp(sys, op, from);
    if op.RefreshEntry? && SlotOf(op.key, op.policy) in sys.origins {
      assert sys'.origins[SlotOf(op.key, op.policy)].policy == from;
    }
  }

  lemma AnswerPairsIff(lib: Library, cfg: Config, sys: System, id: nat, reply: Option<Reply>, env: Env)
    requires AllPaired(sys)
    ensures AllPaired(OnAnswer(lib, cfg, sys, id, reply, env)) <==>
            LandsOnOwn(lib, cfg, sys, Answer(id, reply, env))
  {
    if id in sys.waiting {
      var w := sys.waiting[id];
      var op := RefreshOp(lib, Got(sys, w, reply), env);
      if op.Some? {
        var left := sys.(waiting := sys.waiting - {id}, puts := OnAnswer(lib, cfg, sys, id, reply, env).puts);
        OpPairsIff(left, op.value, w.from);
      }
    }
  }

  lemma BackgroundPairsIff(lib: Library, cfg: Config, sys: System, i: nat, reply: Option<Reply>, env: Env)
    requires AllPaired(sys)
    ensures AllPaired(OnEvent(lib, cfg, sys, FinishBackground(i, reply, env))) <==>
            LandsOnOwn(lib, cfg, sys, FinishBackground(i, reply, env))
  {
    if i < |sys.backgrounds| {
      var later := sys.backgrounds[i];
      var op := BackgroundOp(lib, cfg, later.task, reply, env);
      BackgroundKey(lib, cfg, later.task, reply, env);
      if op.Some? { OpPairsIff(sys.(backgrounds := Remove(sys.backgrounds, i)), op.value, later.from); }
    }
  }

  // An event keeps every stored policy over the body it belongs to exactly
  // when its 304, if any, lands on its own put.
  lemma EventPairsIff(lib: Library, cfg: Config, sys: System, event: Event)
    requires AllPaired(sys)
    ensures AllPaired(OnEvent(lib, cfg, sys, event)) <==> LandsOnOwn(lib, cfg, sys, event)
  {
    match event
    case LookUp(id, isClient, conn, env) =>
    case Answer(id, reply, env) => AnswerPairsIff(lib, cfg, sys, id, reply, env);
    case PerformCall(i) =>
    case CommitPut(i) =>
    case AbandonPut(i) =>
    case FinishBackground(i, reply, env) => BackgroundPairsIff(lib, cfg, sys, i, reply, env);
  }

  ghost predicate AlwaysPaired(lib: Library, cfg: Config, events: seq<Event>) {
    AllPaired(RunEvents(lib, cfg, events)) && (events == [] || AlwaysPaired(lib, cfg, events[..|events| - 1]))
  }

  ghost predicate AlwaysLandsOnOwn(lib: Library, cfg: Config, events: seq<Event>) {
    events == []
    || (var n := |events| - 1;
        AlwaysLandsOnOwn(lib, cfg, events[..n]) && LandsOnOwn(lib, cfg, RunEvents(lib, cfg, events[..n]), events[n]))
  }

  // Over a whole run, policy and body of everything stored are of one put
  // throughout exactly when every 304 lands on its own put.
  lemma {:induction false} RunPairsIff(lib: Library, cfg: Config, events: seq<Event>)
    ensures AlwaysPaired(lib, cfg, events) <==> AlwaysLandsOnOwn(lib, cfg, events)
  {
    if events != [] {
      var n := |events| - 1;
      RunPairsIff(lib, cfg, events[..n]);
      if AlwaysPaired(lib, cfg, events[..n]) { EventPairsIff(lib, cfg, RunEvents(lib, cfg, events[..n]), events[n]); }
    }
  }
}
