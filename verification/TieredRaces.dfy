/** What the tiers promise only under conditions: that policy and body come
    from one put, that every stored variant is visible. */
module TieredRaces {
  import opened Wrappers
  import opened Http
  import opened Policy
  import opened Storage
  import opened Tiered

  // ---- Building runs ----

  lemma Extend(lib: Library, s0: Tiers, steps: seq<Step>, s: Tiers, a: Step, s': Tiers)
    requires Run(lib, s0, steps) == s && ApplyStep(lib, s, a) == s'
    ensures Run(lib, s0, steps + [a]) == s'
  {
    assert (steps + [a])[..|steps|] == steps;
  }

  lemma ExtendThree(lib: Library, s0: Tiers, steps: seq<Step>, s: Tiers, a: Step, b: Step, c: Step, s': Tiers)
    requires Run(lib, s0, steps) == s && ApplyStep(lib, ApplyStep(lib, ApplyStep(lib, s, a), b), c) == s'
    ensures Run(lib, s0, steps + [a] + [b] + [c]) == s'
  {
    var s1 := ApplyStep(lib, s, a);
    var s2 := ApplyStep(lib, s1, b);
    Extend(lib, s0, steps, s, a, s1);
    Extend(lib, s0, steps + [a], s1, b, s2);
    Extend(lib, s0, steps + [a] + [b], s2, c, s');
  }

  // A put of the whole body at once, under a task of its own.
  function PutDone(lib: Library, s: Tiers, id: nat, url: Url, x: Exchange, body: Bytes): Tiers {
    var key, p, put := CacheKey(x.verb, url), PolicyOf(lib, x), |s.past.finalized|;
    var entry := Entry(p, body, None);
    s.(hot := s.hot[SlotOf(key, p) := Fresh(entry, put)],
       tasks := s.tasks[id := Flush(key, p, put)],
       past := s.past.(finalized := s.past.finalized + [PutRecord(key, x, entry)]))
  }

  lemma PutEffect(lib: Library, s: Tiers, id: nat, url: Url, x: Exchange, body: Bytes)
    requires MayPut(lib, x) && id !in s.tasks
    ensures ApplyStep(lib, ApplyStep(lib, ApplyStep(lib, s, BeginPut(id, url, x)), WriteChunk(id, body)),
                      FinalizePut(id, None))
            == PutDone(lib, s, id, url, x, body)
  {
    var key, p := CacheKey(x.verb, url), PolicyOf(lib, x);
    var s1 := ApplyStep(lib, s, BeginPut(id, url, x));
    assert s1 == SetTask(s, id, Writing(key, x, p, []));
    assert [] + body == body;
    var s2 := ApplyStep(lib, s1, WriteChunk(id, body));
    assert s2.tasks[id] == Writing(key, x, p, body);
    var t := Flush(key, p, |s.past.finalized|);
    assert s2.tasks[id := t] == s.tasks[id := t];
  }

  lemma PutRun(lib: Library, s0: Tiers, steps: seq<Step>, s: Tiers, id: nat, url: Url, x: Exchange, body: Bytes)
    returns (more: seq<Step>)
    requires Run(lib, s0, steps) == s && MayPut(lib, x) && id !in s.tasks
    ensures Run(lib, s0, more) == PutDone(lib, s, id, url, x, body)
  {
    PutEffect(lib, s, id, url, x, body);
    var a, b, c := BeginPut(id, url, x), WriteChunk(id, body), FinalizePut(id, None);
    ExtendThree(lib, s0, steps, s, a, b, c, PutDone(lib, s, id, url, x, body));
    more := steps + [a] + [b] + [c];
  }

  // A waiting flush run to its end: whatever hot holds by then, under the
  // policy of the put that spawned it.
  function FlushDone(s: Tiers, id: nat, t: Task): Tiers
    requires t.Flush? && TaskSlot(t) in s.hot
  {
    var held := s.hot[TaskSlot(t)];
    EndTask(s.(cold := s.cold[TaskSlot(t) := Renewed(held, t.policy, t.put)]), id)
  }

  lemma FlushCopiesCurrentBody(lib: Library, s: Tiers, id: nat, t: Task)
    requires id in s.tasks && s.tasks[id] == t && t.Flush? && TaskSlot(t) in s.hot
    ensures var n := |s.hot[TaskSlot(t)].entry.body|;
            ApplyStep(lib, ApplyStep(lib, ApplyStep(lib, s, StartFlush(id)), Copy(id, n)), FinishFlush(id))
            == FlushDone(s, id, t)
  {
    var held := s.hot[TaskSlot(t)];
    var body := held.entry.body;
    var s1 := ApplyStep(lib, s, StartFlush(id));
    assert s1 == SetTask(s, id, Copying(t.key, t.policy, t.put, held, []));
    assert Advance([], body, |body|) == body;
    var s2 := ApplyStep(lib, s1, Copy(id, |body|));
    assert s2.tasks[id] == Copying(t.key, t.policy, t.put, held, body);
    assert s2.tasks - {id} == s.tasks - {id};
    assert Copied(s2.tasks[id]) == Renewed(held, t.policy, t.put);
  }

  lemma FlushRun(lib: Library, s0: Tiers, steps: seq<Step>, s: Tiers, id: nat, t: Task) returns (more: seq<Step>)
    requires Run(lib, s0, steps) == s
    requires id in s.tasks && s.tasks[id] == t && t.Flush? && TaskSlot(t) in s.hot
    ensures Run(lib, s0, more) == FlushDone(s, id, t)
  {
    FlushCopiesCurrentBody(lib, s, id, t);
    var a, b, c := StartFlush(id), Copy(id, |s.hot[TaskSlot(t)].entry.body|), FinishFlush(id);
    ExtendThree(lib, s0, steps, s, a, b, c, FlushDone(s, id, t));
    more := steps + [a] + [b] + [c];
  }

  // ---- Policy, body and trailers of one put ----

  predicate Whole(h: Held) {
    h.policy == h.body && h.trailers == Some(h.body) && !h.cut
  }

  predicate TaskWhole(t: Task) {
    t.Copying? || t.Promoting? ==> t.source.body == t.put && t.source.trailers == Some(t.put) && !t.source.cut
  }

  // Every entry, handle and copy is of one put throughout.
  ghost predicate AllWhole(s: Tiers) {
    && (forall x :: x in s.hot ==> Whole(s.hot[x]))
    && (forall x :: x in s.cold ==> Whole(s.cold[x]))
    && (forall h :: h in s.handles ==> Whole(s.handles[h].held))
    && (forall id :: id in s.tasks ==> TaskWhole(s.tasks[id]))
  }

  // A whole entry is that put: its body, its trailers, and its policy unless
  // that was refreshed.
  lemma WholeIsOnePut(past: Past, key: CacheKey, h: Held)
    requires HeldOk(past, key, h) && Whole(h)
    ensures var put := past.finalized[h.body];
            && put.key == key
            && put.entry.(policy := h.entry.policy) == h.entry
            && (put.entry == h.entry || h.body in past.refreshed)
  {
  }

  // What a step must find: a flush its own put's body in hot, an open by path
  // the handle's own put in cold, a refresh the handle's own put in its tier,
  // the end of a promotion the end of the body.
  predicate FindsOwnPut(s: Tiers, step: Step) {
    match step
    case StartFlush(id) =>
      id in s.tasks && s.tasks[id].Flush? && TaskSlot(s.tasks[id]) in s.hot ==>
        s.hot[TaskSlot(s.tasks[id])].body == s.tasks[id].put
    case OpenCold(h, id, byPath) =>
      byPath && h in s.handles && !s.handles[h].isHot && id !in s.tasks
      && HandleSlot(s.handles[h]) in s.cold ==>
        s.cold[HandleSlot(s.handles[h])].body == s.handles[h].held.policy
    case Refresh(h, policy) =>
      h in s.handles && SameVariantAs(policy, s.handles[h].held.entry.policy) ==>
        var slot, put := SlotOf(s.handles[h].key, policy), s.handles[h].held.policy;
        if s.handles[h].isHot then slot in s.hot ==> s.hot[slot].body == put
        else slot in s.cold ==> s.cold[slot].body == put
    case FinishPromotion(_) => ReadsToTheEnd(s, step)
    case _ => true
  }

  lemma TaskStepWholeIff(s: Tiers, step: Step, id: nat, t: Task)
    requires AllWhole(s) && id in s.tasks && s.tasks[id] == t && OwnTask(step) && step.id == id
    ensures AllWhole(StepTask(s, step, id, t)) <==> FindsOwnPut(s, step)
  {
    assert TaskWhole(t);
    var s' := StepTask(s, step, id, t);
    if step.StartFlush? && t.Flush? && TaskSlot(t) in s.hot {
      assert s'.tasks[id] == Copying(t.key, t.policy, t.put, s.hot[TaskSlot(t)], []);
    }
    if step.FinishPromotion? && t.Promoting? { assert s'.hot[TaskSlot(t)] == Teed(t); }
  }

  lemma OpenWholeIff(s: Tiers, h: nat, id: nat, byPath: bool)
    requires AllWhole(s) && h in s.handles && !s.handles[h].isHot && id !in s.tasks
    ensures AllWhole(Opened(s, h, id, byPath)) <==> FindsOwnPut(s, OpenCold(h, id, byPath))
  {
    var s', handle := Opened(s, h, id, byPath), s.handles[h];
    assert Whole(handle.held);
    if byPath && HandleSlot(handle) in s.cold {
      assert s'.tasks[id].Promoting? && s'.tasks[id].source.body == s.cold[HandleSlot(handle)].body;
    }
  }

  lemma RefreshWholeIff(s: Tiers, h: nat, policy: CachePolicy)
    requires AllWhole(s) && h in s.handles
    ensures AllWhole(RefreshedThrough(s, h, policy)) <==> FindsOwnPut(s, Refresh(h, policy))
  {
    var s', handle := RefreshedThrough(s, h, policy), s.handles[h];
    var slot := SlotOf(handle.key, policy);
    assert Whole(handle.held);
    if SameVariantAs(policy, handle.held.entry.policy) {
      if handle.isHot && slot in s.hot {
        assert s'.hot[slot].policy == handle.held.policy && s'.hot[slot].body == s.hot[slot].body;
      }
      if !handle.isHot && slot in s.cold {
        assert s'.cold[slot].policy == handle.held.policy && s'.cold[slot].body == s.cold[slot].body;
      }
    }
  }

  lemma OtherStepWhole(lib: Library, s: Tiers, step: Step)
    requires AllWhole(s) && !OwnTask(step) && !step.OpenCold? && !step.Refresh?
    ensures AllWhole(ApplyStep(lib, s, step))
  {
  }

  // A step keeps every entry, handle and copy of one put exactly when it finds
  // its own put where it looks.
  lemma StepWholeIff(lib: Library, s: Tiers, step: Step)
    requires AllWhole(s)
    ensures AllWhole(ApplyStep(lib, s, step)) <==> FindsOwnPut(s, step)
  {
    if OwnTask(step) {
      if step.id in s.tasks { TaskStepWholeIff(s, step, step.id, s.tasks[step.id]); }
    } else if step.OpenCold? {
      if step.h in s.handles && !s.handles[step.h].isHot && step.id !in s.tasks {
        OpenWholeIff(s, step.h, step.id, step.byPath);
      }
    } else if step.Refresh? {
      if step.h in s.handles { RefreshWholeIff(s, step.h, step.policy); }
    } else {
      OtherStepWhole(lib, s, step);
    }
  }

  // At every step of the run.
  ghost predicate AlwaysFindsOwnPut(lib: Library, steps: seq<Step>) {
    steps == []
    || (var n := |steps| - 1;
        AlwaysFindsOwnPut(lib, steps[..n]) && FindsOwnPut(Run(lib, EMPTY, steps[..n]), steps[n]))
  }

  // After every step of the run.
  ghost predicate AlwaysWhole(lib: Library, steps: seq<Step>) {
    AllWhole(Run(lib, EMPTY, steps)) && (steps == [] || AlwaysWhole(lib, steps[..|steps| - 1]))
  }

  // In every run, policy, body and trailers are of one put throughout exactly
  // when every flush, open by path and refresh finds its own put and every
  // promotion reads to the end.
  lemma {:induction false} RunWholeIff(lib: Library, steps: seq<Step>)
    ensures AlwaysWhole(lib, steps) <==> AlwaysFindsOwnPut(lib, steps)
  {
    if steps != [] {
      var n := |steps| - 1;
      RunWholeIff(lib, steps[..n]);
      if AlwaysWhole(lib, steps[..n]) { StepWholeIff(lib, Run(lib, EMPTY, steps[..n]), steps[n]); }
    }
  }

  // Two puts into one slot, the second finalized before the first one's flush
  // runs: cold ends with the first policy over the second body.
  lemma FlushCanMixPuts(lib: Library, url: Url, x: Exchange, first: Bytes, y: Exchange, second: Bytes)
    returns (steps: seq<Step>)
    requires MayPut(lib, x) && MayPut(lib, y) && x.verb == y.verb
    requires SameVariantAs(PolicyOf(lib, x), PolicyOf(lib, y))
    ensures var key, p, q := CacheKey(x.verb, url), PolicyOf(lib, x), PolicyOf(lib, y);
            var s := Run(lib, EMPTY, steps);
            && SlotOf(key, p) in s.cold
            && s.cold[SlotOf(key, p)] == Held(Entry(p, second, None), 1, 0, Some(1), false)
            && s.past.finalized == [PutRecord(key, x, Entry(p, first, None)), PutRecord(key, y, Entry(q, second, None))]
  {
    var key, p, q := CacheKey(x.verb, url), PolicyOf(lib, x), PolicyOf(lib, y);
    steps := PutRun(lib, EMPTY, [], EMPTY, 0, url, x, first);
    var s1 := PutDone(lib, EMPTY, 0, url, x, first);
    steps := PutRun(lib, EMPTY, steps, s1, 1, url, y, second);
    var s2 := PutDone(lib, s1, 1, url, y, second);
    assert s2.tasks[0] == Flush(key, p, 0);
    steps := FlushRun(lib, EMPTY, steps, s2, 0, Flush(key, p, 0));
  }

  // ---- Writers that take turns ----

  // A task that will write a body into the slot.
  predicate Busy(t: Task, slot: Slot) {
    !t.Writing? && TaskSlot(t) == slot
  }

  ghost predicate Free(s: Tiers, slot: Slot) {
    forall id :: id in s.tasks ==> !Busy(s.tasks[id], slot)
  }

  // No put of a slot is finalized and no cold entry of it opened while a flush
  // or promotion of it is under way; handles are used while they are current.
  ghost predicate TakesTurn(s: Tiers, step: Step) {
    match step
    case FinalizePut(id, _) => id in s.tasks && s.tasks[id].Writing? ==> Free(s, TaskSlot(s.tasks[id]))
    case OpenCold(h, _, _) => (h in s.handles ==> Free(s, HandleSlot(s.handles[h]))) && FindsOwnPut(s, step)
    case Refresh(_, _) => FindsOwnPut(s, step)
    case FinishPromotion(_) => FindsOwnPut(s, step)
    case _ => true
  }

  ghost predicate TurnRun(lib: Library, steps: seq<Step>) {
    forall i :: 0 <= i < |steps| ==> TakesTurn(Run(lib, EMPTY, steps[..i]), steps[i])
  }

  ghost predicate OneWriter(s: Tiers) {
    forall a, b :: a in s.tasks && b in s.tasks && a != b && !s.tasks[a].Writing? && !s.tasks[b].Writing?
      ==> TaskSlot(s.tasks[a]) != TaskSlot(s.tasks[b])
  }

  // A waiting flush still finds its own put in hot, or nothing.
  ghost predicate FlushesCurrent(s: Tiers) {
    forall id :: id in s.tasks && s.tasks[id].Flush? && TaskSlot(s.tasks[id]) in s.hot ==>
      s.hot[TaskSlot(s.tasks[id])].body == s.tasks[id].put
  }

  ghost predicate TurnInv(s: Tiers) {
    OneWriter(s) && FlushesCurrent(s)
  }

  lemma FinalizeKeepsTurns(s: Tiers, id: nat, t: Task, trailers: Option<Headers>)
    requires TurnInv(s) && id in s.tasks && s.tasks[id] == t && t.Writing? && Free(s, TaskSlot(t))
    ensures TurnInv(Finalized(s, id, t, trailers))
  {
    var s' := Finalized(s, id, t, trailers);
    forall a | a in s.tasks && a != id ensures s'.tasks[a] == s.tasks[a] && !Busy(s.tasks[a], TaskSlot(t)) {
    }
  }

  // A task that stays in its slot, or ends.
  lemma MoveOnKeepsTurns(s: Tiers, id: nat, t: Task)
    requires TurnInv(s) && id in s.tasks && TaskSlot(t) == TaskSlot(s.tasks[id])
    requires t.Writing? <==> s.tasks[id].Writing?
    requires !t.Flush?
    ensures TurnInv(SetTask(s, id, t))
  {
  }

  lemma EndKeepsTurns(s: Tiers, id: nat)
    requires TurnInv(s)
    ensures TurnInv(EndTask(s, id))
  {
  }

  lemma CommitKeepsTurns(s: Tiers, id: nat, t: Task)
    requires TurnInv(s) && id in s.tasks && s.tasks[id] == t && (t.Copying? || t.Promoting?)
    ensures TurnInv(EndTask(s.(cold := s.cold[TaskSlot(t) := Copied(t)]), id))
    ensures t.Promoting? ==> TurnInv(EndTask(s.(hot := s.hot[TaskSlot(t) := Teed(t)]), id))
  {
  }

  lemma TaskStepKeepsTurns(s: Tiers, step: Step, id: nat, t: Task)
    requires TurnInv(s) && TakesTurn(s, step) && id in s.tasks && s.tasks[id] == t && OwnTask(step) && step.id == id
    ensures TurnInv(StepTask(s, step, id, t))
  {
    match (step, t) {
      case (WriteChunk(_, bytes), Writing(_, _, _, buffer)) => MoveOnKeepsTurns(s, id, t.(buffer := buffer + bytes));
      case (FinalizePut(_, trailers), Writing(_, _, _, _)) => FinalizeKeepsTurns(s, id, t, trailers);
      case (StartFlush(_), Flush(key, policy, put)) =>
        if TaskSlot(t) in s.hot {
          MoveOnKeepsTurns(s, id, Copying(key, policy, put, s.hot[TaskSlot(t)], []));
        } else {
          EndKeepsTurns(s, id);
        }
      case (Copy(_, n), Copying(_, _, _, _, _)) => MoveOnKeepsTurns(s, id, Further(t, n));
      case (Copy(_, n), Promoting(_, _, _, _, _)) => MoveOnKeepsTurns(s, id, Further(t, n));
      case (FinishFlush(_), Copying(_, _, _, _, _)) => CommitKeepsTurns(s, id, t);
      case (FinishPromotion(_), Promoting(_, _, _, _, _)) => CommitKeepsTurns(s, id, t);
      case (Abandon(_), _) => EndKeepsTurns(s, id);
      case _ =>
    }
  }

  lemma OpenKeepsTurns(s: Tiers, h: nat, id: nat, byPath: bool)
    requires TurnInv(s) && h in s.handles && id !in s.tasks && Free(s, HandleSlot(s.handles[h]))
    ensures TurnInv(Opened(s, h, id, byPath))
  {
    var slot := HandleSlot(s.handles[h]);
    forall a | a in s.tasks ensures !Busy(s.tasks[a], slot) {
    }
    assert id in Opened(s, h, id, byPath).tasks ==> TaskSlot(Opened(s, h, id, byPath).tasks[id]) == slot;
  }

  lemma RefreshKeepsTurns(s: Tiers, h: nat, policy: CachePolicy)
    requires TurnInv(s) && h in s.handles
    ensures TurnInv(RefreshedThrough(s, h, policy))
  {
  }

  lemma OtherStepKeepsTurns(lib: Library, s: Tiers, step: Step)
    requires TurnInv(s) && !OwnTask(step) && !step.OpenCold? && !step.Refresh?
    ensures TurnInv(ApplyStep(lib, s, step))
  {
  }

  lemma StepKeepsTurns(lib: Library, s: Tiers, step: Step)
    requires TurnInv(s) && TakesTurn(s, step)
    ensures TurnInv(ApplyStep(lib, s, step))
  {
    if OwnTask(step) {
      if step.id in s.tasks { TaskStepKeepsTurns(s, step, step.id, s.tasks[step.id]); }
    } else if step.OpenCold? {
      if step.h in s.handles && !s.handles[step.h].isHot && step.id !in s.tasks {
        OpenKeepsTurns(s, step.h, step.id, step.byPath);
      }
    } else if step.Refresh? {
      if step.h in s.handles { RefreshKeepsTurns(s, step.h, step.policy); }
    } else {
      OtherStepKeepsTurns(lib, s, step);
    }
  }

  // Taking turns is enough: every flush then finds its own put, so every entry
  // in either tier and every handle is one finalized put, refreshes included.
  lemma {:induction false} TurnsKeepPutsWhole(lib: Library, steps: seq<Step>)
    requires TurnRun(lib, steps)
    ensures TurnInv(Run(lib, EMPTY, steps)) && AllWhole(Run(lib, EMPTY, steps))
  {
    if steps != [] {
      var n := |steps| - 1;
      var before := steps[..n];
      assert forall i :: 0 <= i <= n ==> before[..i] == steps[..i];
      TurnsKeepPutsWhole(lib, before);
      var s := Run(lib, EMPTY, before);
      StepKeepsTurns(lib, s, steps[n]);
      StepWholeIff(lib, s, steps[n]);
    }
  }

  // ---- Which variants a lookup shows ----

  function SlotsFor(tier: Tier, key: CacheKey): (r: set<Slot>)
    ensures forall x :: x in r <==> x in tier && x.key == key
  {
    set x | x in tier && x.key == key
  }

  function Visible(s: Tiers, key: CacheKey): set<Slot> {
    if SlotsFor(s.hot, key) != {} then SlotsFor(s.hot, key) else SlotsFor(s.cold, key)
  }

  // Committing one variant to hot, by a put or by a promotion, leaves every
  // cold variant of the key visible exactly when hot already had the others.
  lemma CommitHidesSiblingsIff(s: Tiers, slot: Slot, held: Held)
    ensures var s' := s.(hot := s.hot[slot := held]);
            (forall c :: c in s.cold && c.key == slot.key ==> c in Visible(s', slot.key))
            <==> (forall c :: c in s.cold && c.key == slot.key ==> c == slot || c in s.hot)
  {
    var s' := s.(hot := s.hot[slot := held]);
    assert slot in SlotsFor(s'.hot, slot.key);
    assert Visible(s', slot.key) == SlotsFor(s'.hot, slot.key);
  }
}
