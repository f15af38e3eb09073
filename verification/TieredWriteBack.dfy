/** Write-back: that cold ends up holding what hot was given, and when it does
    not. */
module TieredWriteBack {
  import opened Wrappers
  import opened Http
  import opened Policy
  import opened Storage
  import opened Tiered
  import opened TieredRaces
  import opened TieredInvalidation

  // A flush of the slot, waiting or copying.
  predicate Pending(t: Task, slot: Slot) {
    (t.Flush? || t.Copying?) && TaskSlot(t) == slot
  }

  ghost predicate Scheduled(s: Tiers, slot: Slot) {
    exists id :: id in s.tasks && Pending(s.tasks[id], slot)
  }

  predicate Promotes(t: Task, slot: Slot) {
    t.Promoting? && TaskSlot(t) == slot
  }

  predicate ColdHandle(h: Handle, slot: Slot) {
    !h.isHot && HandleSlot(h) == slot
  }

  // The cold copy is not deleted and no flush of the slot fails.
  predicate Keeps(s: Tiers, step: Step, slot: Slot) {
    match step
    case EvictCold(x) => x != slot
    case InvalidateCold(key) => key != slot.key
    case Abandon(id) => id in s.tasks ==> !Pending(s.tasks[id], slot)
    case _ => true
  }

  ghost predicate KeepsAlong(lib: Library, s: Tiers, steps: seq<Step>, slot: Slot) {
    forall i :: 0 <= i < |steps| ==> Keeps(Run(lib, s, steps[..i]), steps[i], slot)
  }

  // Where a task of the slot stays in the slot's queue.
  lemma StillScheduled(s: Tiers, s': Tiers, slot: Slot, id: nat)
    requires Scheduled(s, slot)
    requires forall a :: a in s.tasks && a != id ==> a in s'.tasks && s'.tasks[a] == s.tasks[a]
    requires id in s.tasks && Pending(s.tasks[id], slot) ==> id in s'.tasks && Pending(s'.tasks[id], slot)
    ensures Scheduled(s', slot)
  {
    var a :| a in s.tasks && Pending(s.tasks[a], slot);
    assert a in s'.tasks && Pending(s'.tasks[a], slot);
  }

  // ---- Presence, in every interleaving ----

  // What hot has is in cold or on its way there; what comes out of cold is
  // still in cold.
  ghost predicate Backed(s: Tiers, slot: Slot) {
    && (slot in s.hot ==> slot in s.cold || Scheduled(s, slot))
    && (forall id :: id in s.tasks && Promotes(s.tasks[id], slot) ==> slot in s.cold)
    && (forall h :: h in s.handles && ColdHandle(s.handles[h], slot) ==> slot in s.cold)
  }

  // Replacing a task by one that is no less pending.
  lemma MoveOnKeepsBacked(s: Tiers, id: nat, t: Task, slot: Slot)
    requires Backed(s, slot) && id in s.tasks
    requires Pending(s.tasks[id], slot) ==> Pending(t, slot)
    requires Promotes(t, slot) ==> Promotes(s.tasks[id], slot)
    ensures Backed(SetTask(s, id, t), slot)
  {
    if Scheduled(s, slot) { StillScheduled(s, SetTask(s, id, t), slot, id); }
  }

  // Ending a task that is not needed.
  lemma EndKeepsBacked(s: Tiers, id: nat, slot: Slot)
    requires Backed(s, slot)
    requires id in s.tasks && Pending(s.tasks[id], slot) ==> slot !in s.hot || slot in s.cold
    ensures Backed(EndTask(s, id), slot)
  {
    if slot in s.hot && slot !in s.cold { StillScheduled(s, EndTask(s, id), slot, id); }
  }

  lemma FinalizeKeepsBacked(s: Tiers, id: nat, t: Task, trailers: Option<Headers>, slot: Slot)
    requires Backed(s, slot) && id in s.tasks && s.tasks[id] == t && t.Writing?
    ensures Backed(Finalized(s, id, t, trailers), slot)
  {
    var s' := Finalized(s, id, t, trailers);
    assert s'.tasks[id] == Flush(t.key, t.policy, |s.past.finalized|);
    assert TaskSlot(t) == slot ==> Pending(s'.tasks[id], slot);
    if Scheduled(s, slot) { StillScheduled(s, s', slot, id); }
  }

  lemma CommitKeepsBacked(s: Tiers, id: nat, t: Task, slot: Slot)
    requires Backed(s, slot) && id in s.tasks && s.tasks[id] == t
    ensures t.Copying? ==> Backed(EndTask(s.(cold := s.cold[TaskSlot(t) := Copied(t)]), id), slot)
    ensures t.Promoting? ==> Backed(EndTask(s.(hot := s.hot[TaskSlot(t) := Teed(t)]), id), slot)
  {
    if t.Copying? || t.Promoting? {
      var mid := if t.Copying? then s.(cold := s.cold[TaskSlot(t) := Copied(t)])
                 else s.(hot := s.hot[TaskSlot(t) := Teed(t)]);
      if Scheduled(s, slot) { StillScheduled(s, mid, slot, id); }
      assert t.Promoting? && TaskSlot(t) == slot ==> Promotes(t, slot);
      EndKeepsBacked(mid, id, slot);
    }
  }

  lemma TaskStepKeepsBacked(s: Tiers, step: Step, id: nat, t: Task, slot: Slot)
    requires Backed(s, slot) && id in s.tasks && s.tasks[id] == t && Keeps(s, step, slot)
    requires OwnTask(step) && step.id == id
    ensures Backed(StepTask(s, step, id, t), slot)
  {
    match (step, t) {
      case (WriteChunk(_, bytes), Writing(_, _, _, buffer)) =>
        MoveOnKeepsBacked(s, id, t.(buffer := buffer + bytes), slot);
      case (FinalizePut(_, trailers), Writing(_, _, _, _)) => FinalizeKeepsBacked(s, id, t, trailers, slot);
      case (StartFlush(_), Flush(key, policy, put)) =>
        if TaskSlot(t) in s.hot {
          MoveOnKeepsBacked(s, id, Copying(key, policy, put, s.hot[TaskSlot(t)], []), slot);
        } else {
          EndKeepsBacked(s, id, slot);
        }
      case (Copy(_, n), Copying(_, _, _, _, _)) => MoveOnKeepsBacked(s, id, Further(t, n), slot);
      case (Copy(_, n), Promoting(_, _, _, _, _)) => MoveOnKeepsBacked(s, id, Further(t, n), slot);
      case (FinishFlush(_), Copying(_, _, _, _, _)) => CommitKeepsBacked(s, id, t, slot);
      case (FinishPromotion(_), Promoting(_, _, _, _, _)) => CommitKeepsBacked(s, id, t, slot);
      case (Abandon(_), _) => EndKeepsBacked(s, id, slot);
      case _ =>
    }
  }

  // Steps that leave the tasks and the presence of entries alone.
  lemma QuietKeepsBacked(s: Tiers, s': Tiers, slot: Slot)
    requires Backed(s, slot) && s'.tasks == s.tasks
    requires slot in s'.hot ==> slot in s.hot
    requires slot in s.cold ==> slot in s'.cold
    requires forall h :: h in s'.handles && ColdHandle(s'.handles[h], slot) ==> slot in s'.cold
    ensures Backed(s', slot)
  {
    assert Scheduled(s, slot) ==> Scheduled(s', slot);
  }

  lemma NewTaskKeepsBacked(s: Tiers, id: nat, t: Task, slot: Slot)
    requires Backed(s, slot) && id !in s.tasks && (Promotes(t, slot) ==> slot in s.cold)
    ensures Backed(SetTask(s, id, t), slot)
  {
    if Scheduled(s, slot) { StillScheduled(s, SetTask(s, id, t), slot, id); }
  }

  lemma OpenKeepsBacked(s: Tiers, h: nat, id: nat, byPath: bool, slot: Slot)
    requires Backed(s, slot) && h in s.handles && !s.handles[h].isHot && id !in s.tasks
    ensures Backed(Opened(s, h, id, byPath), slot)
  {
    var left := s.(handles := s.handles - {h});
    QuietKeepsBacked(s, left, slot);
    var s' := Opened(s, h, id, byPath);
    if id in s'.tasks {
      assert Promotes(s'.tasks[id], slot) ==> ColdHandle(s.handles[h], slot);
      NewTaskKeepsBacked(left, id, s'.tasks[id], slot);
    }
  }

  lemma NewHandleKeepsBacked(s: Tiers, h: nat, handle: Handle, slot: Slot)
    requires Backed(s, slot) && (ColdHandle(handle, slot) ==> slot in s.cold)
    ensures Backed(s.(handles := s.handles[h := handle]), slot)
  {
    QuietKeepsBacked(s, s.(handles := s.handles[h := handle]), slot);
  }

  lemma LookupKeepsBacked(s: Tiers, h: nat, at: Slot, slot: Slot)
    requires Inv(s) && Backed(s, slot)
    ensures at in s.hot ==> Backed(s.(handles := s.handles[h := Handle(true, at.key, s.hot[at])]), slot)
    ensures at in s.cold ==> Backed(s.(handles := s.handles[h := Handle(false, at.key, s.cold[at])]), slot)
  {
    if at in s.hot { NewHandleKeepsBacked(s, h, Handle(true, at.key, s.hot[at]), slot); }
    if at in s.cold { NewHandleKeepsBacked(s, h, Handle(false, at.key, s.cold[at]), slot); }
  }

  lemma ReleaseKeepsBacked(s: Tiers, h: nat, slot: Slot)
    requires Backed(s, slot)
    ensures Backed(s.(handles := s.handles - {h}), slot)
  {
    QuietKeepsBacked(s, s.(handles := s.handles - {h}), slot);
  }

  lemma RefreshKeepsBacked(s: Tiers, h: nat, policy: CachePolicy, slot: Slot)
    requires Backed(s, slot) && h in s.handles
    ensures Backed(RefreshedThrough(s, h, policy), slot)
  {
    QuietKeepsBacked(s, RefreshedThrough(s, h, policy), slot);
  }

  predicate Removes(step: Step) {
    step.EvictHot? || step.EvictCold? || step.InvalidateHot? || step.InvalidateCold?
  }

  lemma RemovalKeepsBacked(lib: Library, s: Tiers, step: Step, slot: Slot)
    requires Backed(s, slot) && Keeps(s, step, slot) && Removes(step)
    ensures Backed(ApplyStep(lib, s, step), slot)
  {
    QuietKeepsBacked(s, ApplyStep(lib, s, step), slot);
  }

  lemma StepKeepsBacked(lib: Library, s: Tiers, step: Step, slot: Slot)
    requires Inv(s) && Backed(s, slot) && Keeps(s, step, slot)
    ensures Backed(ApplyStep(lib, s, step), slot)
  {
    match step
    case BeginPut(id, url, x) =>
      if id !in s.tasks {
        NewTaskKeepsBacked(s, id, Writing(CacheKey(x.verb, url), x, PolicyOf(lib, x), []), slot);
      }
    case OpenCold(h, id, byPath) =>
      if h in s.handles && !s.handles[h].isHot && id !in s.tasks { OpenKeepsBacked(s, h, id, byPath, slot); }
    case LookupHot(h, at) => LookupKeepsBacked(s, h, at, slot);
    case LookupCold(h, at) => LookupKeepsBacked(s, h, at, slot);
    case Refresh(h, policy) => if h in s.handles { RefreshKeepsBacked(s, h, policy, slot); }
    case Release(h) => ReleaseKeepsBacked(s, h, slot);
    case EvictHot(_) => RemovalKeepsBacked(lib, s, step, slot);
    case EvictCold(_) => RemovalKeepsBacked(lib, s, step, slot);
    case InvalidateHot(_) => RemovalKeepsBacked(lib, s, step, slot);
    case InvalidateCold(_) => RemovalKeepsBacked(lib, s, step, slot);
    case Restart =>
    case _ => if step.id in s.tasks { TaskStepKeepsBacked(s, step, step.id, s.tasks[step.id], slot); }
  }

  lemma {:induction false} RunKeepsBacked(lib: Library, s: Tiers, steps: seq<Step>, slot: Slot)
    requires Inv(s) && Backed(s, slot) && KeepsAlong(lib, s, steps, slot)
    ensures Inv(Run(lib, s, steps)) && Backed(Run(lib, s, steps), slot)
  {
    if steps != [] {
      var n := |steps| - 1;
      var before := steps[..n];
      assert forall i :: 0 <= i <= n ==> before[..i] == steps[..i];
      RunKeepsBacked(lib, s, before, slot);
      StepKeepsInv(lib, Run(lib, s, before), steps[n]);
      StepKeepsBacked(lib, Run(lib, s, before), steps[n], slot);
    }
  }

  lemma GoneIsBacked(s: Tiers, slot: Slot)
    requires Gone(s, slot.key)
    ensures Backed(s, slot)
  {
    assert slot in s.hot ==> Holds(s.hot, slot.key);
    assert forall id :: id in s.tasks && Promotes(s.tasks[id], slot) ==> Carries(s.tasks[id], slot.key);
  }

  // From any reachable state in which the key is gone, an empty store for
  // one: as long as no cold copy is deleted and no flush fails, everything hot
  // holds is in cold once the slot's flushes have run.
  lemma ColdEndsUpHolding(lib: Library, s: Tiers, steps: seq<Step>, slot: Slot)
    requires Inv(s) && Gone(s, slot.key) && KeepsAlong(lib, s, steps, slot)
    requires var s' := Run(lib, s, steps); slot in s'.hot && !Scheduled(s', slot)
    ensures var s' := Run(lib, s, steps);
            slot in s'.cold && HeldOk(s'.past, slot.key, s'.cold[slot])
  {
    GoneIsBacked(s, slot);
    RunKeepsBacked(lib, s, steps, slot);
  }

  // ---- Two ways cold falls short ----

  // A hot eviction before the flush has looked loses the put from both tiers.
  lemma EvictedBeforeFlushIsLost(lib: Library, url: Url, x: Exchange, body: Bytes) returns (steps: seq<Step>)
    requires MayPut(lib, x)
    ensures var entry := Entry(PolicyOf(lib, x), body, None);
            Run(lib, EMPTY, steps)
            == Tiers(map[], map[], map[], map[], Past([PutRecord(CacheKey(x.verb, url), x, entry)], {}))
  {
    var key, p := CacheKey(x.verb, url), PolicyOf(lib, x);
    steps := PutRun(lib, EMPTY, [], EMPTY, 0, url, x, body);
    var s1 := PutDone(lib, EMPTY, 0, url, x, body);
    var s2 := s1.(hot := map[]);
    assert ApplyStep(lib, s1, EvictHot(key)) == s2;
    Extend(lib, EMPTY, steps, s1, EvictHot(key), s2);
    assert s2.tasks - {0} == map[];
    Extend(lib, EMPTY, steps + [EvictHot(key)], s2, StartFlush(0), EndTask(s2, 0));
    steps := steps + [EvictHot(key)] + [StartFlush(0)];
  }

  // A flush that started before a replacement and ends after the replacement's
  // own flush puts the older response back into cold, and nothing is left to
  // correct it.
  lemma OlderFlushCanWin(lib: Library, url: Url, x: Exchange, old_: Bytes, y: Exchange, new_: Bytes)
    returns (steps: seq<Step>)
    requires MayPut(lib, x) && MayPut(lib, y) && x.verb == y.verb
    requires SameVariantAs(PolicyOf(lib, x), PolicyOf(lib, y))
    ensures var p, q := PolicyOf(lib, x), PolicyOf(lib, y);
            var slot := SlotOf(CacheKey(x.verb, url), p);
            var s := Run(lib, EMPTY, steps);
            && s.hot == map[slot := Fresh(Entry(q, new_, None), 1)]
            && s.cold == map[slot := Fresh(Entry(p, old_, None), 0)]
            && s.tasks == map[]
  {
    steps := ReachOverlap(lib, url, x, old_, y, new_);
    var s := Overlap(lib, url, x, old_, y, new_);
    var copying := s.tasks[0];
    LateCopy(lib, s, 0, copying);
    var s' := ApplyStep(lib, s, Copy(0, |old_|));
    Extend(lib, EMPTY, steps, s, Copy(0, |old_|), s');
    steps := steps + [Copy(0, |old_|)];
    Extend(lib, EMPTY, steps, s', FinishFlush(0),
           EndTask(s.(cold := s.cold[TaskSlot(copying) := copying.source]), 0));
    steps := steps + [FinishFlush(0)];
    assert s.tasks - {0} == map[];
  }

  // The newer put in both tiers, the older one's flush just started.
  function Overlap(lib: Library, url: Url, x: Exchange, old_: Bytes, y: Exchange, new_: Bytes): Tiers {
    var key, p, q := CacheKey(x.verb, url), PolicyOf(lib, x), PolicyOf(lib, y);
    var older, newer := Fresh(Entry(p, old_, None), 0), Fresh(Entry(q, new_, None), 1);
    Tiers(map[SlotOf(key, p) := newer], map[SlotOf(key, p) := newer], map[0 := Copying(key, p, 0, older, [])],
          map[], Past([PutRecord(key, x, older.entry), PutRecord(key, y, newer.entry)], {}))
  }

  lemma ReachOverlap(lib: Library, url: Url, x: Exchange, old_: Bytes, y: Exchange, new_: Bytes)
    returns (steps: seq<Step>)
    requires MayPut(lib, x) && MayPut(lib, y) && x.verb == y.verb
    requires SameVariantAs(PolicyOf(lib, x), PolicyOf(lib, y))
    ensures Run(lib, EMPTY, steps) == Overlap(lib, url, x, old_, y, new_)
  {
    var key, q := CacheKey(x.verb, url), PolicyOf(lib, y);
    var s := Started(lib, url, x, old_);
    steps := ReachStarted(lib, url, x, old_);
    steps := PutRun(lib, EMPTY, steps, s, 1, url, y, new_);
    steps := FlushRun(lib, EMPTY, steps, PutDone(lib, s, 1, url, y, new_), 1, Flush(key, q, 1));
    OverlapShape(lib, url, x, old_, y, new_);
  }

  function Started(lib: Library, url: Url, x: Exchange, body: Bytes): Tiers {
    var key, p := CacheKey(x.verb, url), PolicyOf(lib, x);
    var held := Fresh(Entry(p, body, None), 0);
    Tiers(map[SlotOf(key, p) := held], map[], map[0 := Copying(key, p, 0, held, [])], map[],
          Past([PutRecord(key, x, held.entry)], {}))
  }

  lemma ReachStarted(lib: Library, url: Url, x: Exchange, body: Bytes) returns (steps: seq<Step>)
    requires MayPut(lib, x)
    ensures Run(lib, EMPTY, steps) == Started(lib, url, x, body)
  {
    steps := PutRun(lib, EMPTY, [], EMPTY, 0, url, x, body);
    Extend(lib, EMPTY, steps, PutDone(lib, EMPTY, 0, url, x, body), StartFlush(0), Started(lib, url, x, body));
    steps := steps + [StartFlush(0)];
  }

  lemma OverlapShape(lib: Library, url: Url, x: Exchange, old_: Bytes, y: Exchange, new_: Bytes)
    requires x.verb == y.verb && SameVariantAs(PolicyOf(lib, x), PolicyOf(lib, y))
    ensures var s := PutDone(lib, Started(lib, url, x, old_), 1, url, y, new_);
            FlushDone(s, 1, Flush(CacheKey(x.verb, url), PolicyOf(lib, y), 1)) == Overlap(lib, url, x, old_, y, new_)
  {
    var s := PutDone(lib, Started(lib, url, x, old_), 1, url, y, new_);
    assert s.tasks - {1} == Started(lib, url, x, old_).tasks;
  }

  // A copy that has just started runs to its end.
  lemma LateCopy(lib: Library, s: Tiers, id: nat, t: Task)
    requires id in s.tasks && s.tasks[id] == t && t.Copying? && t.written == []
    requires t.source == Fresh(Entry(t.policy, t.source.entry.body, t.source.entry.trailers), t.put)
    ensures ApplyStep(lib, ApplyStep(lib, s, Copy(id, |t.source.entry.body|)), FinishFlush(id))
            == EndTask(s.(cold := s.cold[TaskSlot(t) := t.source]), id)
  {
    var body := t.source.entry.body;
    assert Advance([], body, |body|) == body;
    var s1 := ApplyStep(lib, s, Copy(id, |body|));
    assert s1.tasks[id] == Copying(t.key, t.policy, t.put, t.source, body);
    assert s1.tasks - {id} == s.tasks - {id};
  }

  // ---- The same put in both tiers, when writers take turns ----

  // A cold entry is opened only while cold still holds that put.
  predicate OpensCurrent(s: Tiers, step: Step) {
    step.OpenCold? && step.h in s.handles ==>
      var slot := HandleSlot(s.handles[step.h]);
      slot in s.cold && s.cold[slot].body == s.handles[step.h].held.body
  }

  ghost predicate OrderlyStep(s: Tiers, step: Step, slot: Slot) {
    TakesTurn(s, step) && OpensCurrent(s, step) && Keeps(s, step, slot)
  }

  ghost predicate OrderlyRun(lib: Library, steps: seq<Step>, slot: Slot) {
    forall i :: 0 <= i < |steps| ==> OrderlyStep(Run(lib, EMPTY, steps[..i]), steps[i], slot)
  }

  predicate SameInBoth(s: Tiers, slot: Slot) {
    slot in s.hot && slot in s.cold && s.hot[slot].body == s.cold[slot].body
  }

  ghost predicate Synced(s: Tiers, slot: Slot) {
    && (slot in s.hot ==> SameInBoth(s, slot) || Scheduled(s, slot))
    && (forall id :: id in s.tasks && s.tasks[id].Copying? && Pending(s.tasks[id], slot) && slot in s.hot
          ==> s.tasks[id].source.body == s.hot[slot].body)
    && (forall id :: id in s.tasks && Promotes(s.tasks[id], slot)
          ==> slot in s.cold && s.cold[slot].body == s.tasks[id].source.body)
  }

  lemma MoveOnKeepsSynced(s: Tiers, id: nat, t: Task, slot: Slot)
    requires Synced(s, slot) && id in s.tasks
    requires Pending(s.tasks[id], slot) ==> Pending(t, slot)
    requires t.Copying? && Pending(t, slot) && slot in s.hot ==> t.source.body == s.hot[slot].body
    requires Promotes(t, slot) ==> Promotes(s.tasks[id], slot) && t.source == s.tasks[id].source
    ensures Synced(SetTask(s, id, t), slot)
  {
    if Scheduled(s, slot) { StillScheduled(s, SetTask(s, id, t), slot, id); }
  }

  lemma EndKeepsSynced(s: Tiers, id: nat, slot: Slot)
    requires Synced(s, slot)
    requires id in s.tasks && Pending(s.tasks[id], slot) ==> slot !in s.hot || SameInBoth(s, slot)
    ensures Synced(EndTask(s, id), slot)
  {
    if slot in s.hot && !SameInBoth(s, slot) { StillScheduled(s, EndTask(s, id), slot, id); }
  }

  lemma FinalizeKeepsSynced(s: Tiers, id: nat, t: Task, trailers: Option<Headers>, slot: Slot)
    requires Synced(s, slot) && id in s.tasks && s.tasks[id] == t && t.Writing? && Free(s, TaskSlot(t))
    ensures Synced(Finalized(s, id, t, trailers), slot)
  {
    var s' := Finalized(s, id, t, trailers);
    assert s'.tasks[id] == Flush(t.key, t.policy, |s.past.finalized|);
    if TaskSlot(t) == slot {
      assert Pending(s'.tasks[id], slot);
      forall a | a in s.tasks ensures !Busy(s.tasks[a], slot) {}
    } else if Scheduled(s, slot) {
      StillScheduled(s, s', slot, id);
    }
  }

  // The only busy task of its slot.
  lemma Alone(s: Tiers, id: nat, slot: Slot)
    requires OneWriter(s) && id in s.tasks && Busy(s.tasks[id], slot)
    ensures forall a :: a in s.tasks && a != id ==> !Pending(s.tasks[a], slot) && !Promotes(s.tasks[a], slot)
  {
  }

  lemma FlushedKeepsSynced(s: Tiers, id: nat, t: Task, slot: Slot)
    requires OneWriter(s) && Synced(s, slot) && id in s.tasks && s.tasks[id] == t && t.Copying?
    ensures Synced(EndTask(s.(cold := s.cold[TaskSlot(t) := Copied(t)]), id), slot)
  {
    var mid := s.(cold := s.cold[TaskSlot(t) := Copied(t)]);
    if TaskSlot(t) == slot { Alone(s, id, slot); }
    assert Scheduled(s, slot) ==> Scheduled(mid, slot);
    EndKeepsSynced(mid, id, slot);
  }

  lemma PromotedKeepsSynced(s: Tiers, id: nat, t: Task, slot: Slot)
    requires OneWriter(s) && Synced(s, slot) && id in s.tasks && s.tasks[id] == t && t.Promoting?
    ensures Synced(EndTask(s.(hot := s.hot[TaskSlot(t) := Teed(t)]), id), slot)
  {
    var mid := s.(hot := s.hot[TaskSlot(t) := Teed(t)]);
    if TaskSlot(t) == slot {
      Alone(s, id, slot);
      assert Promotes(t, slot);
    }
    assert Scheduled(s, slot) ==> Scheduled(mid, slot);
    EndKeepsSynced(mid, id, slot);
  }

  lemma TaskStepKeepsSynced(s: Tiers, step: Step, id: nat, t: Task, slot: Slot)
    requires OneWriter(s) && Synced(s, slot) && id in s.tasks && s.tasks[id] == t && OrderlyStep(s, step, slot)
    requires OwnTask(step) && step.id == id
    ensures Synced(StepTask(s, step, id, t), slot)
  {
    match (step, t) {
      case (WriteChunk(_, bytes), Writing(_, _, _, buffer)) =>
        MoveOnKeepsSynced(s, id, t.(buffer := buffer + bytes), slot);
      case (FinalizePut(_, trailers), Writing(_, _, _, _)) => FinalizeKeepsSynced(s, id, t, trailers, slot);
      case (StartFlush(_), Flush(key, policy, put)) =>
        if TaskSlot(t) in s.hot {
          MoveOnKeepsSynced(s, id, Copying(key, policy, put, s.hot[TaskSlot(t)], []), slot);
        } else {
          EndKeepsSynced(s, id, slot);
        }
      case (Copy(_, n), Copying(_, _, _, _, _)) => MoveOnKeepsSynced(s, id, Further(t, n), slot);
      case (Copy(_, n), Promoting(_, _, _, _, _)) => MoveOnKeepsSynced(s, id, Further(t, n), slot);
      case (FinishFlush(_), Copying(_, _, _, _, _)) => FlushedKeepsSynced(s, id, t, slot);
      case (FinishPromotion(_), Promoting(_, _, _, _, _)) => PromotedKeepsSynced(s, id, t, slot);
      case (Abandon(_), _) => EndKeepsSynced(s, id, slot);
      case _ =>
    }
  }

  lemma QuietKeepsSynced(s: Tiers, s': Tiers, slot: Slot)
    requires Synced(s, slot) && s'.tasks == s.tasks
    requires slot in s'.hot ==> slot in s.hot && s'.hot[slot].body == s.hot[slot].body
    requires slot in s.cold ==> slot in s'.cold && s'.cold[slot].body == s.cold[slot].body
    ensures Synced(s', slot)
  {
    assert Scheduled(s, slot) ==> Scheduled(s', slot);
  }

  lemma NewTaskKeepsSynced(s: Tiers, id: nat, t: Task, slot: Slot)
    requires Synced(s, slot) && id !in s.tasks && (t.Writing? || t.Promoting?)
    requires Promotes(t, slot) ==> slot in s.cold && s.cold[slot].body == t.source.body
    ensures Synced(SetTask(s, id, t), slot)
  {
    if Scheduled(s, slot) { StillScheduled(s, SetTask(s, id, t), slot, id); }
  }

  lemma OpenKeepsSynced(s: Tiers, h: nat, id: nat, byPath: bool, slot: Slot)
    requires Synced(s, slot) && h in s.handles && id !in s.tasks
    requires OpensCurrent(s, OpenCold(h, id, byPath))
    ensures Synced(Opened(s, h, id, byPath), slot)
  {
    var left := s.(handles := s.handles - {h});
    QuietKeepsSynced(s, left, slot);
    NewTaskKeepsSynced(left, id, Opened(s, h, id, byPath).tasks[id], slot);
  }

  lemma RefreshKeepsSynced(s: Tiers, h: nat, policy: CachePolicy, slot: Slot)
    requires Synced(s, slot) && h in s.handles
    ensures Synced(RefreshedThrough(s, h, policy), slot)
  {
    QuietKeepsSynced(s, RefreshedThrough(s, h, policy), slot);
  }

  lemma PassiveKeepsSynced(lib: Library, s: Tiers, step: Step, slot: Slot)
    requires Synced(s, slot) && Keeps(s, step, slot)
    requires step.LookupHot? || step.LookupCold? || step.Release? || Removes(step)
    ensures Synced(ApplyStep(lib, s, step), slot)
  {
    QuietKeepsSynced(s, ApplyStep(lib, s, step), slot);
  }

  lemma StepKeepsSynced(lib: Library, s: Tiers, step: Step, slot: Slot)
    requires OneWriter(s) && Synced(s, slot) && OrderlyStep(s, step, slot)
    ensures Synced(ApplyStep(lib, s, step), slot)
  {
    match step
    case BeginPut(id, url, x) =>
      if id !in s.tasks {
        NewTaskKeepsSynced(s, id, Writing(CacheKey(x.verb, url), x, PolicyOf(lib, x), []), slot);
      }
    case OpenCold(h, id, byPath) =>
      if h in s.handles && !s.handles[h].isHot && id !in s.tasks { OpenKeepsSynced(s, h, id, byPath, slot); }
    case LookupHot(_, _) => PassiveKeepsSynced(lib, s, step, slot);
    case LookupCold(_, _) => PassiveKeepsSynced(lib, s, step, slot);
    case Refresh(h, policy) => if h in s.handles { RefreshKeepsSynced(s, h, policy, slot); }
    case Release(_) => PassiveKeepsSynced(lib, s, step, slot);
    case EvictHot(_) => PassiveKeepsSynced(lib, s, step, slot);
    case EvictCold(_) => PassiveKeepsSynced(lib, s, step, slot);
    case InvalidateHot(_) => PassiveKeepsSynced(lib, s, step, slot);
    case InvalidateCold(_) => PassiveKeepsSynced(lib, s, step, slot);
    case Restart =>
    case _ => if step.id in s.tasks { TaskStepKeepsSynced(s, step, step.id, s.tasks[step.id], slot); }
  }

  lemma {:induction false} OrderlyKeepsSynced(lib: Library, steps: seq<Step>, slot: Slot)
    requires OrderlyRun(lib, steps, slot)
    ensures var s := Run(lib, EMPTY, steps); TurnInv(s) && AllWhole(s) && Inv(s) && Synced(s, slot)
  {
    if steps != [] {
      var n := |steps| - 1;
      var before := steps[..n];
      assert forall i :: 0 <= i <= n ==> before[..i] == steps[..i];
      OrderlyKeepsSynced(lib, before, slot);
      var s := Run(lib, EMPTY, before);
      StepKeepsInv(lib, s, steps[n]);
      StepKeepsTurns(lib, s, steps[n]);
      StepWholeIff(lib, s, steps[n]);
      StepKeepsSynced(lib, s, steps[n], slot);
    }
  }

  // If writers of a slot take turns and cold entries are opened while current,
  // then once the slot's flushes have run the two tiers hold the same put: the
  // same body and trailers, and a policy of that put, in both. So evicting it
  // from hot changes nothing but, at most, a refresh of its policy.
  lemma TiersAgreeWhenSettled(lib: Library, steps: seq<Step>, slot: Slot)
    requires OrderlyRun(lib, steps, slot)
    requires var s := Run(lib, EMPTY, steps); slot in s.hot && !Scheduled(s, slot)
    ensures var s := Run(lib, EMPTY, steps);
            && slot in s.cold
            && s.cold[slot].entry.(policy := s.hot[slot].entry.policy) == s.hot[slot].entry
            && s.cold[slot].policy == s.hot[slot].policy
            && (s.cold[slot].entry == s.hot[slot].entry || s.hot[slot].policy in s.past.refreshed)
  {
    OrderlyKeepsSynced(lib, steps, slot);
    var s := Run(lib, EMPTY, steps);
    assert Whole(s.hot[slot]) && Whole(s.cold[slot]);
    WholeIsOnePut(s.past, slot.key, s.hot[slot]);
    WholeIsOnePut(s.past, slot.key, s.cold[slot]);
  }
}
