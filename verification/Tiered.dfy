/** Two tiers: a hot store written through and a cold one filled in the
    background, under every interleaving of puts, flushes, promotions,
    evictions, invalidations, refreshes and restarts. */
module Tiered {
  import opened Wrappers
  import opened Text
  import opened Http
  import opened Policy
  import opened Storability
  import opened Storage

  // A completed exchange, as the handlers pass it to `put`.
  datatype Exchange = Exchange(
    verb: Method, request: Headers, status: Status, response: Headers, time: Time,
    options: CacheOptions)

  function PolicyOf(lib: Library, x: Exchange): CachePolicy {
    NewPolicy(lib, x.verb, x.request, x.status, x.response, x.time, x.options)
  }

  // The handlers look up safe methods only, and put only what may be stored.
  predicate MayPut(lib: Library, x: Exchange) {
    IsSafe(x.verb) && IsStorable(lib, x.verb, x.request, x.status, x.response, x.options)
  }

  // A put that was finalized.
  datatype PutRecord = PutRecord(key: CacheKey, exchange: Exchange, entry: Entry)

  // The finalized puts in order, and those whose policy was refreshed.
  datatype Past = Past(finalized: seq<PutRecord>, refreshed: set<nat>)

  // A stored entry, and what no store holds: the finalized puts its body,
  // policy and trailers come from, and whether its body was cut short.
  datatype Held = Held(entry: Entry, body: nat, policy: nat, trailers: Option<nat>, cut: bool)

  type Tier = map<Slot, Held>

  datatype Task =
    | Writing(key: CacheKey, exchange: Exchange, policy: CachePolicy, buffer: Bytes)
    | Flush(key: CacheKey, policy: CachePolicy, put: nat)
    | Copying(key: CacheKey, policy: CachePolicy, put: nat, source: Held, written: Bytes)
    | Promoting(key: CacheKey, policy: CachePolicy, put: nat, source: Held, written: Bytes)

  datatype Handle = Handle(isHot: bool, key: CacheKey, held: Held)

  datatype Tiers = Tiers(
    hot: Tier, cold: Tier, tasks: map<nat, Task>, handles: map<nat, Handle>, past: Past)

  const EMPTY := Tiers(map[], map[], map[], map[], Past([], {}))

  datatype Step =
    | BeginPut(id: nat, url: Url, exchange: Exchange)
    | WriteChunk(id: nat, bytes: Bytes)
    | FinalizePut(id: nat, trailers: Option<Headers>)
    | StartFlush(id: nat)
    | Copy(id: nat, n: nat)
    | FinishFlush(id: nat)
    | FinishPromotion(id: nat)
    | Abandon(id: nat)
    | LookupHot(h: nat, slot: Slot)
    | LookupCold(h: nat, slot: Slot)
    | OpenCold(h: nat, id: nat, byPath: bool)
    | Refresh(h: nat, policy: CachePolicy)
    | Release(h: nat)
    | EvictHot(key: CacheKey)
    | EvictCold(slot: Slot)
    | InvalidateHot(key: CacheKey)
    | InvalidateCold(key: CacheKey)
    | Restart

  function SetTask(s: Tiers, id: nat, t: Task): Tiers {
    s.(tasks := s.tasks[id := t])
  }

  function EndTask(s: Tiers, id: nat): Tiers {
    s.(tasks := s.tasks - {id})
  }

  function WithoutKey(tier: Tier, key: CacheKey): Tier {
    map x | x in tier && x.key != key :: tier[x]
  }

  function TaskSlot(t: Task): Slot {
    SlotOf(t.key, t.policy)
  }

  function HandleSlot(h: Handle): Slot {
    SlotOf(h.key, h.held.entry.policy)
  }

  function Advance(written: Bytes, body: Bytes, n: nat): Bytes {
    if |written| + n <= |body| then written + body[|written|..|written| + n] else written
  }

  function Further(t: Task, n: nat): Task
    requires t.Copying? || t.Promoting?
  {
    var written := Advance(t.written, t.source.entry.body, n);
    if t.Copying? then Copying(t.key, t.policy, t.put, t.source, written)
    else Promoting(t.key, t.policy, t.put, t.source, written)
  }

  // An entry as its put leaves it.
  function Fresh(entry: Entry, put: nat): Held {
    Held(entry, put, put, Some(put), false)
  }

  // Commit to hot, then spawn the flush with the put's own policy.
  function Finalized(s: Tiers, id: nat, t: Task, trailers: Option<Headers>): Tiers
    requires t.Writing?
  {
    var put := |s.past.finalized|;
    var entry := Entry(t.policy, t.buffer, trailers);
    SetTask(s.(hot := s.hot[TaskSlot(t) := Fresh(entry, put)],
               past := s.past.(finalized := s.past.finalized + [PutRecord(t.key, t.exchange, entry)])),
            id, Flush(t.key, t.policy, put))
  }

  // What a copy leaves behind: the source's body and trailers under the
  // task's own policy.
  function Copied(t: Task): Held
    requires t.Copying? || t.Promoting?
  {
    Held(Entry(t.policy, t.written, t.source.entry.trailers), t.source.body, t.put, t.source.trailers, t.source.cut)
  }

  // A tee that reads nothing takes that for the end of the body. Before the
  // end, as with an empty buffer, it commits what it has, without trailers.
  function Teed(t: Task): Held
    requires t.Promoting?
  {
    if |t.written| >= |t.source.entry.body| then Copied(t)
    else Held(Entry(t.policy, t.written, None), t.source.body, t.put, None, true)
  }

  function StepTask(s: Tiers, step: Step, id: nat, t: Task): Tiers {
    match (step, t)
    case (WriteChunk(_, bytes), Writing(_, _, _, _)) => SetTask(s, id, t.(buffer := t.buffer + bytes))
    case (FinalizePut(_, trailers), Writing(_, _, _, _)) => Finalized(s, id, t, trailers)
    case (StartFlush(_), Flush(key, policy, put)) =>
      // Find the variant in hot, whatever is there now.
      if TaskSlot(t) in s.hot then SetTask(s, id, Copying(key, policy, put, s.hot[TaskSlot(t)], []))
      else EndTask(s, id)
    case (Copy(_, n), Copying(_, _, _, _, _)) => SetTask(s, id, Further(t, n))
    case (Copy(_, n), Promoting(_, _, _, _, _)) => SetTask(s, id, Further(t, n))
    case (FinishFlush(_), Copying(_, _, _, source, written)) =>
      if |written| < |source.entry.body| then s
      else EndTask(s.(cold := s.cold[TaskSlot(t) := Copied(t)]), id)
    case (FinishPromotion(_), Promoting(_, _, _, _, _)) =>
      EndTask(s.(hot := s.hot[TaskSlot(t) := Teed(t)]), id)
    case (Abandon(_), _) => EndTask(s, id)
    case _ => s
  }

  function Renewed(held: Held, policy: CachePolicy, put: nat): Held {
    held.(entry := held.entry.(policy := policy), policy := put)
  }

  // Hot keeps body and trailers and swaps the policy; cold rewrites metadata
  // from the handle. Both only where a variant of that signature is stored,
  // and only for refreshes that keep the signature.
  function RefreshedThrough(s: Tiers, h: nat, policy: CachePolicy): Tiers
    requires h in s.handles
  {
    var handle := s.handles[h];
    var slot := SlotOf(handle.key, policy);
    var put := handle.held.policy;
    if !SameVariantAs(policy, handle.held.entry.policy) then s
    else
      var s := s.(handles := s.handles[h := handle.(held := Renewed(handle.held, policy, put))],
                  past := s.past.(refreshed := s.past.refreshed + {put}));
      if handle.isHot then
        if slot in s.hot then s.(hot := s.hot[slot := Renewed(s.hot[slot], policy, put)]) else s
      else if slot in s.cold then
        var held := Renewed(s.cold[slot], policy, put);
        s.(cold := s.cold[slot := held.(entry := held.entry.(trailers := handle.held.entry.trailers),
                                        trailers := handle.held.trailers)])
      else s
  }

  // The entry as the handle has it, over the body now in place.
  function Relocated(held: Held, there: Held): Held {
    held.(entry := held.entry.(body := there.entry.body), body := there.body, cut := there.cut)
  }

  // Opening a cold entry starts a promotion. A memory tier hands out the body
  // with the entry; a file tier finds the body by its path, so whatever is
  // stored there by now.
  function Opened(s: Tiers, h: nat, id: nat, byPath: bool): Tiers
    requires h in s.handles
  {
    var handle := s.handles[h];
    var held, policy := handle.held, handle.held.entry.policy;
    var left := s.(handles := s.handles - {h});
    if !byPath then SetTask(left, id, Promoting(handle.key, policy, held.policy, held, []))
    else if HandleSlot(handle) in s.cold then
      var there := s.cold[HandleSlot(handle)];
      SetTask(left, id, Promoting(handle.key, policy, held.policy, Relocated(held, there), []))
    else left
  }

  predicate OwnTask(step: Step) {
    step.WriteChunk? || step.FinalizePut? || step.StartFlush? || step.Copy? || step.FinishFlush?
    || step.FinishPromotion? || step.Abandon?
  }

  function ApplyStep(lib: Library, s: Tiers, step: Step): Tiers {
    match step
    case BeginPut(id, url, x) =>
      if id in s.tasks || !MayPut(lib, x) then s
      else SetTask(s, id, Writing(CacheKey(x.verb, url), x, PolicyOf(lib, x), []))
    case LookupHot(h, slot) =>
      if h in s.handles || slot !in s.hot then s
      else s.(handles := s.handles[h := Handle(true, slot.key, s.hot[slot])])
    case LookupCold(h, slot) =>
      if h in s.handles || slot !in s.cold then s
      else s.(handles := s.handles[h := Handle(false, slot.key, s.cold[slot])])
    case OpenCold(h, id, byPath) =>
      if h !in s.handles || s.handles[h].isHot || id in s.tasks then s else Opened(s, h, id, byPath)
    case Refresh(h, policy) => if h in s.handles then RefreshedThrough(s, h, policy) else s
    case Release(h) => s.(handles := s.handles - {h})
    case EvictHot(key) => s.(hot := WithoutKey(s.hot, key))
    case EvictCold(slot) => s.(cold := s.cold - {slot})
    case InvalidateHot(key) => s.(hot := WithoutKey(s.hot, key))
    case InvalidateCold(key) => s.(cold := WithoutKey(s.cold, key))
    case Restart => s.(hot := map[], tasks := map[], handles := map[])
    case _ => if step.id in s.tasks then StepTask(s, step, step.id, s.tasks[step.id]) else s
  }

  function Run(lib: Library, s: Tiers, steps: seq<Step>): Tiers {
    if steps == [] then s
    else ApplyStep(lib, Run(lib, s, steps[..|steps| - 1]), steps[|steps| - 1])
  }

  // ---- Every body served is a finalized body ----

  // A policy of this finalized put, perhaps refreshed.
  predicate FromPut(past: Past, key: CacheKey, policy: CachePolicy, put: nat) {
    && put < |past.finalized| && past.finalized[put].key == key
    && SameVariantAs(past.finalized[put].entry.policy, policy)
    && (past.finalized[put].entry.policy == policy || put in past.refreshed)
  }

  // The body of a finalized put for this key and signature, complete exactly
  // when it was not cut short, with the trailers and the policy of such puts.
  predicate HeldOk(past: Past, key: CacheKey, h: Held) {
    && h.body < |past.finalized| && past.finalized[h.body].key == key
    && SameVariantAs(past.finalized[h.body].entry.policy, h.entry.policy)
    && h.entry.body <= past.finalized[h.body].entry.body
    && (h.entry.body == past.finalized[h.body].entry.body <==> !h.cut)
    && FromPut(past, key, h.entry.policy, h.policy)
    && TrailersOk(past, key, h)
  }

  predicate TrailersOk(past: Past, key: CacheKey, h: Held) {
    match h.trailers
    case None => h.entry.trailers.None?
    case Some(put) =>
      && put < |past.finalized| && past.finalized[put].key == key
      && past.finalized[put].entry.trailers == h.entry.trailers
  }

  ghost predicate TierOk(past: Past, tier: Tier) {
    forall slot :: slot in tier ==>
      SlotOf(slot.key, tier[slot].entry.policy) == slot && HeldOk(past, slot.key, tier[slot])
  }

  predicate TaskOk(past: Past, t: Task) {
    && (!t.Writing? ==> FromPut(past, t.key, t.policy, t.put))
    && (t.Copying? || t.Promoting? ==>
          && HeldOk(past, t.key, t.source)
          && SameVariantAs(t.source.entry.policy, t.policy) && t.written <= t.source.entry.body)
  }

  ghost predicate TasksOk(past: Past, tasks: map<nat, Task>) {
    forall id :: id in tasks ==> TaskOk(past, tasks[id])
  }

  ghost predicate HandlesOk(past: Past, handles: map<nat, Handle>) {
    forall h :: h in handles ==> HeldOk(past, handles[h].key, handles[h].held)
  }

  ghost predicate Inv(s: Tiers) {
    && TierOk(s.past, s.hot) && TierOk(s.past, s.cold)
    && TasksOk(s.past, s.tasks) && HandlesOk(s.past, s.handles)
  }

  predicate Grows(past: Past, past': Past) {
    past.finalized <= past'.finalized && past.refreshed <= past'.refreshed
  }

  lemma HeldGrows(past: Past, past': Past, key: CacheKey, h: Held)
    requires Grows(past, past') && HeldOk(past, key, h)
    ensures HeldOk(past', key, h)
  {
  }

  lemma TaskGrows(past: Past, past': Past, t: Task)
    requires Grows(past, past') && TaskOk(past, t)
    ensures TaskOk(past', t)
  {
  }

  lemma TierGrows(past: Past, past': Past, tier: Tier)
    requires Grows(past, past') && TierOk(past, tier)
    ensures TierOk(past', tier)
  {
    forall x | x in tier ensures HeldOk(past', x.key, tier[x]) {
      HeldGrows(past, past', x.key, tier[x]);
    }
  }

  lemma PastGrows(s: Tiers, past: Past)
    requires Inv(s) && Grows(s.past, past)
    ensures Inv(s.(past := past))
  {
    TierGrows(s.past, past, s.hot);
    TierGrows(s.past, past, s.cold);
    forall id | id in s.tasks ensures TaskOk(past, s.tasks[id]) {
      TaskGrows(s.past, past, s.tasks[id]);
    }
    forall h | h in s.handles ensures HeldOk(past, s.handles[h].key, s.handles[h].held) {
      HeldGrows(s.past, past, s.handles[h].key, s.handles[h].held);
    }
  }

  // ---- Every step keeps the invariant ----

  // Losing entries, tasks or handles breaks nothing.
  lemma ShrinkKeepsInv(s: Tiers, s': Tiers)
    requires Inv(s) && s'.past == s.past
    requires forall x :: x in s'.hot ==> x in s.hot && s'.hot[x] == s.hot[x]
    requires forall x :: x in s'.cold ==> x in s.cold && s'.cold[x] == s.cold[x]
    requires forall x :: x in s'.tasks ==> x in s.tasks && s'.tasks[x] == s.tasks[x]
    requires forall x :: x in s'.handles ==> x in s.handles && s'.handles[x] == s.handles[x]
    ensures Inv(s')
  {
  }

  lemma MoveOnKeepsInv(s: Tiers, id: nat, t: Task)
    requires Inv(s) && TaskOk(s.past, t)
    ensures Inv(SetTask(s, id, t))
  {
  }

  lemma HotKeepsInv(s: Tiers, slot: Slot, held: Held)
    requires Inv(s) && SlotOf(slot.key, held.entry.policy) == slot && HeldOk(s.past, slot.key, held)
    ensures Inv(s.(hot := s.hot[slot := held]))
  {
  }

  lemma ColdKeepsInv(s: Tiers, slot: Slot, held: Held)
    requires Inv(s) && SlotOf(slot.key, held.entry.policy) == slot && HeldOk(s.past, slot.key, held)
    ensures Inv(s.(cold := s.cold[slot := held]))
  {
  }

  lemma FinalizeKeepsInv(s: Tiers, id: nat, t: Task, trailers: Option<Headers>)
    requires Inv(s) && t.Writing?
    ensures Inv(Finalized(s, id, t, trailers))
  {
    var put := |s.past.finalized|;
    var entry := Entry(t.policy, t.buffer, trailers);
    var past := s.past.(finalized := s.past.finalized + [PutRecord(t.key, t.exchange, entry)]);
    PastGrows(s, past);
    var s1 := s.(past := past);
    assert past.finalized[put] == PutRecord(t.key, t.exchange, entry);
    HotKeepsInv(s1, TaskSlot(t), Fresh(entry, put));
    MoveOnKeepsInv(s1.(hot := s1.hot[TaskSlot(t) := Fresh(entry, put)]), id, Flush(t.key, t.policy, put));
  }

  lemma CopiedIsOk(past: Past, t: Task)
    requires TaskOk(past, t) && (t.Copying? || t.Promoting?) && |t.written| >= |t.source.entry.body|
    ensures HeldOk(past, t.key, Copied(t)) && Copied(t).entry.body == t.source.entry.body
  {
    assert t.written == t.source.entry.body;
  }

  lemma FlushedKeepsInv(s: Tiers, id: nat, t: Task)
    requires Inv(s) && id in s.tasks && s.tasks[id] == t && t.Copying? && |t.written| >= |t.source.entry.body|
    ensures Inv(EndTask(s.(cold := s.cold[TaskSlot(t) := Copied(t)]), id))
  {
    assert TaskOk(s.past, t);
    CopiedIsOk(s.past, t);
    ColdKeepsInv(s, TaskSlot(t), Copied(t));
    EndKeepsInv(s.(cold := s.cold[TaskSlot(t) := Copied(t)]), id);
  }

  lemma PromotedKeepsInv(s: Tiers, id: nat, t: Task)
    requires Inv(s) && id in s.tasks && s.tasks[id] == t && t.Promoting?
    ensures Inv(EndTask(s.(hot := s.hot[TaskSlot(t) := Teed(t)]), id))
  {
    assert TaskOk(s.past, t);
    if |t.written| >= |t.source.entry.body| { CopiedIsOk(s.past, t); } else { CutIsOk(s.past, t); }
    HotKeepsInv(s, TaskSlot(t), Teed(t));
    EndKeepsInv(s.(hot := s.hot[TaskSlot(t) := Teed(t)]), id);
  }

  lemma CutIsOk(past: Past, t: Task)
    requires TaskOk(past, t) && t.Promoting? && |t.written| < |t.source.entry.body|
    ensures HeldOk(past, t.key, Teed(t))
  {
    var whole := past.finalized[t.source.body].entry.body;
    assert t.source.entry.body <= whole && t.written <= t.source.entry.body;
    assert t.written == whole[..|t.written|];
    assert |t.written| < |whole|;
  }

  lemma AdvanceIsPrefix(written: Bytes, body: Bytes, n: nat)
    requires written <= body
    ensures Advance(written, body, n) <= body
  {
  }

  lemma CopyKeepsInv(s: Tiers, id: nat, t: Task, n: nat)
    requires Inv(s) && TaskOk(s.past, t) && (t.Copying? || t.Promoting?)
    ensures Inv(SetTask(s, id, Further(t, n)))
  {
    AdvanceIsPrefix(t.written, t.source.entry.body, n);
    MoveOnKeepsInv(s, id, Further(t, n));
  }

  lemma FlushKeepsInv(s: Tiers, id: nat, t: Task)
    requires Inv(s) && TaskOk(s.past, t) && t.Flush? && TaskSlot(t) in s.hot
    ensures Inv(SetTask(s, id, Copying(t.key, t.policy, t.put, s.hot[TaskSlot(t)], [])))
  {
    MoveOnKeepsInv(s, id, Copying(t.key, t.policy, t.put, s.hot[TaskSlot(t)], []));
  }

  lemma EndKeepsInv(s: Tiers, id: nat)
    requires Inv(s)
    ensures Inv(EndTask(s, id))
  {
    ShrinkKeepsInv(s, EndTask(s, id));
  }

  lemma WriterStepKeepsInv(s: Tiers, step: Step, id: nat, t: Task)
    requires Inv(s) && id in s.tasks && s.tasks[id] == t && (t.Writing? || t.Flush?)
    ensures Inv(StepTask(s, step, id, t))
  {
    assert TaskOk(s.past, t);
    if step.WriteChunk? && t.Writing? {
      MoveOnKeepsInv(s, id, t.(buffer := t.buffer + step.bytes));
    } else if step.FinalizePut? && t.Writing? {
      FinalizeKeepsInv(s, id, t, step.trailers);
    } else if step.StartFlush? && t.Flush? {
      if TaskSlot(t) in s.hot { FlushKeepsInv(s, id, t); } else { EndKeepsInv(s, id); }
    } else if step.Abandon? {
      EndKeepsInv(s, id);
    }
  }

  // The steps of a copy, one by one.
  function CopyNext(s: Tiers, step: Step, id: nat, t: Task): Tiers
    requires t.Copying? || t.Promoting?
  {
    if step.Copy? then SetTask(s, id, Further(t, step.n))
    else if step.FinishFlush? && t.Copying? && |t.written| >= |t.source.entry.body|
    then EndTask(s.(cold := s.cold[TaskSlot(t) := Copied(t)]), id)
    else if step.FinishPromotion? && t.Promoting? then EndTask(s.(hot := s.hot[TaskSlot(t) := Teed(t)]), id)
    else if step.Abandon? then EndTask(s, id)
    else s
  }

  lemma CopyShape(s: Tiers, step: Step, id: nat, t: Task)
    requires t.Copying? || t.Promoting?
    ensures StepTask(s, step, id, t) == CopyNext(s, step, id, t)
  {
  }

  lemma CopyNextKeepsInv(s: Tiers, step: Step, id: nat, t: Task)
    requires Inv(s) && id in s.tasks && s.tasks[id] == t && (t.Copying? || t.Promoting?)
    ensures Inv(CopyNext(s, step, id, t))
  {
    assert TaskOk(s.past, t);
    if step.Copy? {
      CopyKeepsInv(s, id, t, step.n);
    } else if step.FinishFlush? && t.Copying? && |t.written| >= |t.source.entry.body| {
      FlushedKeepsInv(s, id, t);
    } else if step.FinishPromotion? && t.Promoting? {
      PromotedKeepsInv(s, id, t);
    } else if step.Abandon? {
      EndKeepsInv(s, id);
    }
  }

  lemma TaskStepKeepsInv(s: Tiers, step: Step, id: nat, t: Task)
    requires Inv(s) && id in s.tasks && s.tasks[id] == t
    ensures Inv(StepTask(s, step, id, t))
  {
    if t.Copying? || t.Promoting? {
      CopyShape(s, step, id, t);
      CopyNextKeepsInv(s, step, id, t);
    } else {
      WriterStepKeepsInv(s, step, id, t);
    }
  }

  lemma RenewedIsOk(past: Past, key: CacheKey, held: Held, from: Held, policy: CachePolicy)
    requires HeldOk(past, key, held) && HeldOk(past, key, from) && from.policy in past.refreshed
    requires SameVariantAs(policy, held.entry.policy) && SameVariantAs(policy, from.entry.policy)
    ensures HeldOk(past, key, Renewed(held, policy, from.policy))
  {
  }

  lemma RefreshKeepsInv(s: Tiers, h: nat, policy: CachePolicy)
    requires Inv(s) && h in s.handles
    ensures Inv(RefreshedThrough(s, h, policy))
  {
    var handle := s.handles[h];
    var held, slot := handle.held, SlotOf(handle.key, policy);
    if SameVariantAs(policy, held.entry.policy) {
      var past := s.past.(refreshed := s.past.refreshed + {held.policy});
      PastGrows(s, past);
      var s1 := s.(past := past);
      assert HeldOk(past, handle.key, held);
      RenewedIsOk(past, handle.key, held, held, policy);
      var s2 := s1.(handles := s.handles[h := handle.(held := Renewed(held, policy, held.policy))]);
      assert Inv(s2);
      RenewTierKeepsInv(s2, handle, policy);
    }
  }

  lemma RenewTierKeepsInv(s: Tiers, handle: Handle, policy: CachePolicy)
    requires Inv(s) && HeldOk(s.past, handle.key, handle.held) && handle.held.policy in s.past.refreshed
    requires SameVariantAs(policy, handle.held.entry.policy)
    ensures var slot, put := SlotOf(handle.key, policy), handle.held.policy;
            && (slot in s.hot ==> Inv(s.(hot := s.hot[slot := Renewed(s.hot[slot], policy, put)])))
            && (slot in s.cold ==>
                  var held := Renewed(s.cold[slot], policy, put);
                  var with := held.(entry := held.entry.(trailers := handle.held.entry.trailers),
                                    trailers := handle.held.trailers);
                  Inv(s.(cold := s.cold[slot := with])))
  {
    var slot, put := SlotOf(handle.key, policy), handle.held.policy;
    if slot in s.hot {
      RenewedIsOk(s.past, handle.key, s.hot[slot], handle.held, policy);
      HotKeepsInv(s, slot, Renewed(s.hot[slot], policy, put));
    }
    if slot in s.cold {
      RenewedIsOk(s.past, handle.key, s.cold[slot], handle.held, policy);
      var held := Renewed(s.cold[slot], policy, put);
      var with := held.(entry := held.entry.(trailers := handle.held.entry.trailers),
                        trailers := handle.held.trailers);
      ColdKeepsInv(s, slot, with);
    }
  }

  lemma OpenKeepsInv(s: Tiers, h: nat, id: nat, byPath: bool)
    requires Inv(s) && h in s.handles
    ensures Inv(Opened(s, h, id, byPath))
  {
    var handle := s.handles[h];
    assert HeldOk(s.past, handle.key, handle.held);
    var left := s.(handles := s.handles - {h});
    ShrinkKeepsInv(s, left);
    var s' := Opened(s, h, id, byPath);
    if id in s'.tasks && s' != left {
      assert TaskOk(s.past, s'.tasks[id]);
      MoveOnKeepsInv(left, id, s'.tasks[id]);
    }
  }

  lemma LookupKeepsInv(lib: Library, s: Tiers, step: Step)
    requires Inv(s) && (step.LookupHot? || step.LookupCold?)
    ensures Inv(ApplyStep(lib, s, step))
  {
  }

  predicate Loses(step: Step) {
    step.Release? || step.EvictHot? || step.EvictCold? || step.InvalidateHot? || step.InvalidateCold?
    || step.Restart?
  }

  lemma FewerHotKeepsInv(s: Tiers, key: CacheKey)
    requires Inv(s)
    ensures Inv(s.(hot := WithoutKey(s.hot, key)))
  {
    ShrinkKeepsInv(s, s.(hot := WithoutKey(s.hot, key)));
  }

  lemma FewerColdKeepsInv(s: Tiers, key: CacheKey, slot: Slot)
    requires Inv(s)
    ensures Inv(s.(cold := WithoutKey(s.cold, key))) && Inv(s.(cold := s.cold - {slot}))
  {
    ShrinkKeepsInv(s, s.(cold := WithoutKey(s.cold, key)));
    ShrinkKeepsInv(s, s.(cold := s.cold - {slot}));
  }

  lemma ReleaseKeepsInv(s: Tiers, h: nat)
    requires Inv(s)
    ensures Inv(s.(handles := s.handles - {h}))
  {
    ShrinkKeepsInv(s, s.(handles := s.handles - {h}));
  }

  lemma RestartKeepsInv(s: Tiers)
    requires Inv(s)
    ensures Inv(s.(hot := map[], tasks := map[], handles := map[]))
  {
    ShrinkKeepsInv(s, s.(hot := map[], tasks := map[], handles := map[]));
  }

  lemma HotLossKeepsInv(lib: Library, s: Tiers, key: CacheKey)
    requires Inv(s)
    ensures Inv(ApplyStep(lib, s, EvictHot(key))) && Inv(ApplyStep(lib, s, InvalidateHot(key)))
  {
    FewerHotKeepsInv(s, key);
  }

  lemma ColdLossKeepsInv(lib: Library, s: Tiers, slot: Slot)
    requires Inv(s)
    ensures Inv(ApplyStep(lib, s, EvictCold(slot))) && Inv(ApplyStep(lib, s, InvalidateCold(slot.key)))
  {
    FewerColdKeepsInv(s, slot.key, slot);
  }

  lemma LossKeepsInv(lib: Library, s: Tiers, step: Step)
    requires Inv(s) && Loses(step)
    ensures Inv(ApplyStep(lib, s, step))
  {
    if step.Release? {
      ReleaseKeepsInv(s, step.h);
    } else if step.EvictHot? || step.InvalidateHot? {
      HotLossKeepsInv(lib, s, step.key);
    } else if step.EvictCold? {
      ColdLossKeepsInv(lib, s, step.slot);
    } else if step.InvalidateCold? {
      ColdLossKeepsInv(lib, s, Slot(step.key, []));
    } else {
      RestartKeepsInv(s);
    }
  }

  lemma BeginKeepsInv(lib: Library, s: Tiers, id: nat, url: Url, x: Exchange)
    requires Inv(s)
    ensures Inv(ApplyStep(lib, s, BeginPut(id, url, x)))
  {
    MoveOnKeepsInv(s, id, Writing(CacheKey(x.verb, url), x, PolicyOf(lib, x), []));
  }

  lemma OwnTaskKeepsInv(lib: Library, s: Tiers, step: Step)
    requires Inv(s) && OwnTask(step)
    ensures Inv(ApplyStep(lib, s, step))
  {
    if step.id in s.tasks { TaskStepKeepsInv(s, step, step.id, s.tasks[step.id]); }
  }

  lemma RefreshStepKeepsInv(lib: Library, s: Tiers, h: nat, policy: CachePolicy)
    requires Inv(s)
    ensures Inv(ApplyStep(lib, s, Refresh(h, policy)))
  {
    if h in s.handles { RefreshKeepsInv(s, h, policy); }
  }

  lemma OpenStepKeepsInv(lib: Library, s: Tiers, h: nat, id: nat, byPath: bool)
    requires Inv(s)
    ensures Inv(ApplyStep(lib, s, OpenCold(h, id, byPath)))
  {
    if h in s.handles { OpenKeepsInv(s, h, id, byPath); }
  }

  lemma StepKeepsInv(lib: Library, s: Tiers, step: Step)
    requires Inv(s)
    ensures Inv(ApplyStep(lib, s, step))
  {
    match step
    case BeginPut(id, url, x) => BeginKeepsInv(lib, s, id, url, x);
    case LookupHot(_, _) => LookupKeepsInv(lib, s, step);
    case LookupCold(_, _) => LookupKeepsInv(lib, s, step);
    case Refresh(h, policy) => RefreshStepKeepsInv(lib, s, h, policy);
    case OpenCold(h, id, byPath) => OpenStepKeepsInv(lib, s, h, id, byPath);
    case _ => if Loses(step) { LossKeepsInv(lib, s, step); } else { OwnTaskKeepsInv(lib, s, step); }
  }

  // ---- Every finalized put may be stored ----

  predicate RecordOk(lib: Library, r: PutRecord) {
    MayPut(lib, r.exchange) && r.exchange.verb == r.key.verb && r.entry.policy == PolicyOf(lib, r.exchange)
  }

  predicate WriterOk(lib: Library, t: Task) {
    t.Writing? ==> MayPut(lib, t.exchange) && t.exchange.verb == t.key.verb && t.policy == PolicyOf(lib, t.exchange)
  }

  ghost predicate LogOk(lib: Library, s: Tiers) {
    && (forall k :: 0 <= k < |s.past.finalized| ==> RecordOk(lib, s.past.finalized[k]))
    && (forall id :: id in s.tasks ==> WriterOk(lib, s.tasks[id]))
  }

  lemma FinalizeKeepsLog(lib: Library, s: Tiers, id: nat, t: Task, trailers: Option<Headers>)
    requires LogOk(lib, s) && t.Writing? && WriterOk(lib, t)
    ensures LogOk(lib, Finalized(s, id, t, trailers))
  {
  }

  // A step that leaves the log alone and makes nobody a writer.
  lemma QuietKeepsLog(lib: Library, s: Tiers, s': Tiers)
    requires LogOk(lib, s) && s'.past.finalized == s.past.finalized
    requires forall x :: x in s'.tasks ==>
               WriterOk(lib, s'.tasks[x]) || (x in s.tasks && s'.tasks[x] == s.tasks[x])
    ensures LogOk(lib, s')
  {
  }

  lemma TaskStepKeepsLog(lib: Library, s: Tiers, step: Step, id: nat, t: Task)
    requires LogOk(lib, s) && id in s.tasks && s.tasks[id] == t
    ensures LogOk(lib, StepTask(s, step, id, t))
  {
    assert WriterOk(lib, t);
    if step.FinalizePut? && t.Writing? {
      FinalizeKeepsLog(lib, s, id, t, step.trailers);
    } else {
      QuietKeepsLog(lib, s, StepTask(s, step, id, t));
    }
  }

  // Any other step begins a put that may be stored, or writes nothing.
  lemma OtherStepKeepsLog(lib: Library, s: Tiers, step: Step)
    requires LogOk(lib, s) && !OwnTask(step)
    ensures LogOk(lib, ApplyStep(lib, s, step))
  {
    if step.Refresh? && step.h in s.handles {
      assert RefreshedThrough(s, step.h, step.policy).past.finalized == s.past.finalized;
    }
  }

  lemma StepKeepsLog(lib: Library, s: Tiers, step: Step)
    requires LogOk(lib, s)
    ensures LogOk(lib, ApplyStep(lib, s, step))
  {
    if !OwnTask(step) {
      OtherStepKeepsLog(lib, s, step);
    } else if step.id in s.tasks {
      TaskStepKeepsLog(lib, s, step, step.id, s.tasks[step.id]);
    }
  }

  lemma {:induction false} RunKeepsInv(lib: Library, steps: seq<Step>)
    ensures Inv(Run(lib, EMPTY, steps)) && LogOk(lib, Run(lib, EMPTY, steps))
  {
    if steps != [] {
      var before := Run(lib, EMPTY, steps[..|steps| - 1]);
      RunKeepsInv(lib, steps[..|steps| - 1]);
      StepKeepsInv(lib, before, steps[|steps| - 1]);
      StepKeepsLog(lib, before, steps[|steps| - 1]);
    }
  }

  // In every interleaving, what either tier holds for a key and signature is
  // a body of a finalized put for that key and signature, whose exchange
  // passed the storability test; the key is a GET or HEAD; and the body is
  // complete exactly when no promotion it came through was cut short.
  lemma TiersHoldFinalizedBodies(lib: Library, steps: seq<Step>, slot: Slot, inHot: bool)
    requires var s := Run(lib, EMPTY, steps); slot in (if inHot then s.hot else s.cold)
    ensures var s := Run(lib, EMPTY, steps);
            var held := if inHot then s.hot[slot] else s.cold[slot];
            && held.entry.policy.varySnapshot == slot.signature
            && held.body < |s.past.finalized|
            && var put := s.past.finalized[held.body];
            && put.key == slot.key && put.entry.policy.varySnapshot == slot.signature
            && held.entry.body <= put.entry.body
            && (held.entry.body == put.entry.body <==> !held.cut)
            && RecordOk(lib, put)
            && (slot.key.verb.Get? || slot.key.verb.Head?)
  {
    RunKeepsInv(lib, steps);
    var s := Run(lib, EMPTY, steps);
    var held := if inHot then s.hot[slot] else s.cold[slot];
    assert HeldOk(s.past, slot.key, held);
    assert RecordOk(lib, s.past.finalized[held.body]);
    var x := s.past.finalized[held.body].exchange;
    SafeStorableIsGetOrHead(lib, x.verb, x.request, x.status, x.response, x.options);
  }

  // A reader's handle carries such a body too, however old it is.
  lemma HandlesCarryFinalizedBodies(lib: Library, steps: seq<Step>, h: nat)
    requires h in Run(lib, EMPTY, steps).handles
    ensures var s := Run(lib, EMPTY, steps);
            HeldOk(s.past, s.handles[h].key, s.handles[h].held)
  {
    RunKeepsInv(lib, steps);
  }

  // ---- When every body is complete ----

  predicate TaskUncut(t: Task) {
    t.Copying? || t.Promoting? ==> !t.source.cut
  }

  ghost predicate AllComplete(s: Tiers) {
    && (forall x :: x in s.hot ==> !s.hot[x].cut)
    && (forall x :: x in s.cold ==> !s.cold[x].cut)
    && (forall h :: h in s.handles ==> !s.handles[h].held.cut)
    && (forall id :: id in s.tasks ==> TaskUncut(s.tasks[id]))
  }

  // A promotion is finished only at the end of its body.
  predicate ReadsToTheEnd(s: Tiers, step: Step) {
    step.FinishPromotion? && step.id in s.tasks && s.tasks[step.id].Promoting? ==>
      |s.tasks[step.id].written| >= |s.tasks[step.id].source.entry.body|
  }

  lemma TaskStepCompleteIff(s: Tiers, step: Step, id: nat, t: Task)
    requires AllComplete(s) && id in s.tasks && s.tasks[id] == t && OwnTask(step) && step.id == id
    ensures AllComplete(StepTask(s, step, id, t)) <==> ReadsToTheEnd(s, step)
  {
    assert TaskUncut(t);
    if step.FinishPromotion? && t.Promoting? {
      assert StepTask(s, step, id, t).hot[TaskSlot(t)] == Teed(t);
    }
  }

  lemma OpenComplete(s: Tiers, h: nat, id: nat, byPath: bool)
    requires AllComplete(s) && h in s.handles
    ensures AllComplete(Opened(s, h, id, byPath))
  {
  }

  lemma RefreshComplete(s: Tiers, h: nat, policy: CachePolicy)
    requires AllComplete(s) && h in s.handles
    ensures AllComplete(RefreshedThrough(s, h, policy))
  {
  }

  lemma OtherStepComplete(lib: Library, s: Tiers, step: Step)
    requires AllComplete(s) && !OwnTask(step) && !step.OpenCold? && !step.Refresh?
    ensures AllComplete(ApplyStep(lib, s, step))
  {
  }

  lemma StepCompleteIff(lib: Library, s: Tiers, step: Step)
    requires AllComplete(s)
    ensures AllComplete(ApplyStep(lib, s, step)) <==> ReadsToTheEnd(s, step)
  {
    if OwnTask(step) {
      if step.id in s.tasks { TaskStepCompleteIff(s, step, step.id, s.tasks[step.id]); }
    } else if step.OpenCold? {
      if step.h in s.handles { OpenComplete(s, step.h, step.id, step.byPath); }
    } else if step.Refresh? {
      if step.h in s.handles { RefreshComplete(s, step.h, step.policy); }
    } else {
      OtherStepComplete(lib, s, step);
    }
  }

  ghost predicate AlwaysComplete(lib: Library, steps: seq<Step>) {
    AllComplete(Run(lib, EMPTY, steps)) && (steps == [] || AlwaysComplete(lib, steps[..|steps| - 1]))
  }

  ghost predicate AlwaysReadsToTheEnd(lib: Library, steps: seq<Step>) {
    steps == []
    || (var n := |steps| - 1;
        AlwaysReadsToTheEnd(lib, steps[..n]) && ReadsToTheEnd(Run(lib, EMPTY, steps[..n]), steps[n]))
  }

  // Over a whole run, every body stored, handed out or under way is complete
  // throughout exactly when no promotion is finished before its body's end.
  lemma {:induction false} RunCompleteIff(lib: Library, steps: seq<Step>)
    ensures AlwaysComplete(lib, steps) <==> AlwaysReadsToTheEnd(lib, steps)
  {
    if steps != [] {
      var n := |steps| - 1;
      RunCompleteIff(lib, steps[..n]);
      if AlwaysComplete(lib, steps[..n]) { StepCompleteIff(lib, Run(lib, EMPTY, steps[..n]), steps[n]); }
    }
  }
}
