/** What each tier holds, read off the schedule: the put last committed to it
    and not removed since. So when the two tiers agree, and when a put reaches
    cold at all. */
module TieredSchedule {
  import opened Wrappers
  import opened Http
  import opened Policy
  import opened Storage
  import opened Tiered
  import opened TieredWriteBack

  // ---- The schedule of one slot ----

  predicate FinalizesInto(s: Tiers, step: Step, slot: Slot) {
    step.FinalizePut? && step.id in s.tasks && s.tasks[step.id].Writing? && TaskSlot(s.tasks[step.id]) == slot
  }

  predicate PromotesInto(s: Tiers, step: Step, slot: Slot) {
    step.FinishPromotion? && step.id in s.tasks && Promotes(s.tasks[step.id], slot)
  }

  predicate FlushesInto(s: Tiers, step: Step, slot: Slot) {
    && step.FinishFlush? && step.id in s.tasks
    && var t := s.tasks[step.id];
    t.Copying? && TaskSlot(t) == slot && |t.written| >= |t.source.entry.body|
  }

  predicate ClearsHot(step: Step, slot: Slot) {
    ((step.EvictHot? || step.InvalidateHot?) && step.key == slot.key) || step.Restart?
  }

  predicate ClearsCold(step: Step, slot: Slot) {
    (step.EvictCold? && step.slot == slot) || (step.InvalidateCold? && step.key == slot.key)
  }

  // The put of the last finalize or finished promotion into hot.
  function LastHot(lib: Library, steps: seq<Step>, slot: Slot): Option<nat> {
    if steps == [] then None
    else
      var n := |steps| - 1;
      var s, step := Run(lib, EMPTY, steps[..n]), steps[n];
      if FinalizesInto(s, step, slot) then Some(|s.past.finalized|)
      else if PromotesInto(s, step, slot) then Some(s.tasks[step.id].source.body)
      else if ClearsHot(step, slot) then None
      else LastHot(lib, steps[..n], slot)
  }

  // The put of the last finished flush into cold.
  function LastCold(lib: Library, steps: seq<Step>, slot: Slot): Option<nat> {
    if steps == [] then None
    else
      var n := |steps| - 1;
      var s, step := Run(lib, EMPTY, steps[..n]), steps[n];
      if FlushesInto(s, step, slot) then Some(s.tasks[step.id].source.body)
      else if ClearsCold(step, slot) then None
      else LastCold(lib, steps[..n], slot)
  }

  function PutIn(tier: Tier, slot: Slot): Option<nat> {
    if slot in tier then Some(tier[slot].body) else None
  }

  // ---- The tiers follow it ----

  lemma TaskStepPuts(s: Tiers, step: Step, id: nat, t: Task, slot: Slot)
    requires id in s.tasks && s.tasks[id] == t && OwnTask(step) && step.id == id
    ensures var s' := StepTask(s, step, id, t);
            && PutIn(s'.hot, slot) == (if FinalizesInto(s, step, slot) then Some(|s.past.finalized|)
                                       else if PromotesInto(s, step, slot) then Some(t.source.body)
                                       else PutIn(s.hot, slot))
            && PutIn(s'.cold, slot) == (if FlushesInto(s, step, slot) then Some(t.source.body)
                                        else PutIn(s.cold, slot))
  {
  }

  lemma RefreshPuts(s: Tiers, h: nat, policy: CachePolicy, slot: Slot)
    requires h in s.handles
    ensures var s' := RefreshedThrough(s, h, policy);
            PutIn(s'.hot, slot) == PutIn(s.hot, slot) && PutIn(s'.cold, slot) == PutIn(s.cold, slot)
  {
  }

  lemma OtherStepPuts(lib: Library, s: Tiers, step: Step, slot: Slot)
    requires !OwnTask(step)
    ensures var s' := ApplyStep(lib, s, step);
            && PutIn(s'.hot, slot) == (if ClearsHot(step, slot) then None else PutIn(s.hot, slot))
            && PutIn(s'.cold, slot) == (if ClearsCold(step, slot) then None else PutIn(s.cold, slot))
  {
    if step.Refresh? && step.h in s.handles { RefreshPuts(s, step.h, step.policy, slot); }
  }

  // In every run each tier holds for a slot the put the schedule says.
  lemma {:induction false} TiersFollowSchedule(lib: Library, steps: seq<Step>, slot: Slot)
    ensures var s := Run(lib, EMPTY, steps);
            && PutIn(s.hot, slot) == LastHot(lib, steps, slot)
            && PutIn(s.cold, slot) == LastCold(lib, steps, slot)
  {
    if steps != [] {
      var n := |steps| - 1;
      TiersFollowSchedule(lib, steps[..n], slot);
      var s, step := Run(lib, EMPTY, steps[..n]), steps[n];
      if !OwnTask(step) {
        OtherStepPuts(lib, s, step, slot);
      } else if step.id in s.tasks {
        TaskStepPuts(s, step, step.id, s.tasks[step.id], slot);
      }
    }
  }

  // In every run, a variant in both tiers is of one put in both exactly when
  // the last commit to hot and the last flush into cold were of one put; and
  // then, where neither copy was cut short, the bodies are equal.
  lemma TiersAgreeIff(lib: Library, steps: seq<Step>, slot: Slot)
    requires var s := Run(lib, EMPTY, steps); slot in s.hot && slot in s.cold
    ensures var s := Run(lib, EMPTY, steps);
            && (s.hot[slot].body == s.cold[slot].body <==> LastHot(lib, steps, slot) == LastCold(lib, steps, slot))
            && (s.hot[slot].body == s.cold[slot].body && !s.hot[slot].cut && !s.cold[slot].cut ==>
                  s.hot[slot].entry.body == s.cold[slot].entry.body)
  {
    TiersFollowSchedule(lib, steps, slot);
    RunKeepsInv(lib, steps);
    var s := Run(lib, EMPTY, steps);
    assert HeldOk(s.past, slot.key, s.hot[slot]) && HeldOk(s.past, slot.key, s.cold[slot]);
  }

  // ---- When a put reaches cold ----

  predicate CopiesTo(t: Task, slot: Slot) {
    t.Copying? && TaskSlot(t) == slot
  }

  ghost predicate UnderWay(s: Tiers, slot: Slot) {
    exists id :: id in s.tasks && CopiesTo(s.tasks[id], slot)
  }

  // A flush of the slot looks into hot and finds the slot there.
  predicate FlushFinds(s: Tiers, step: Step, slot: Slot) {
    && step.StartFlush? && step.id in s.tasks
    && s.tasks[step.id].Flush? && TaskSlot(s.tasks[step.id]) == slot && slot in s.hot
  }

  // Some flush of the slot found it in hot; a restart forgets the copies that
  // had not been finished by then.
  predicate SomeFlushFound(lib: Library, steps: seq<Step>, slot: Slot) {
    if steps == [] then false
    else
      var n := |steps| - 1;
      if FlushFinds(Run(lib, EMPTY, steps[..n]), steps[n], slot) then true
      else if steps[n].Restart? then LastCold(lib, steps[..n], slot).Some?
      else SomeFlushFound(lib, steps[..n], slot)
  }

  // In cold, or on its way from hot.
  ghost predicate Reached(s: Tiers, slot: Slot) {
    slot in s.cold || UnderWay(s, slot)
  }

  lemma StillUnderWay(s: Tiers, s': Tiers, slot: Slot, id: nat)
    requires forall a :: a in s.tasks && a != id ==> a in s'.tasks && s'.tasks[a] == s.tasks[a]
    requires forall a :: a in s'.tasks && a != id ==> a in s.tasks
    requires (id in s.tasks && CopiesTo(s.tasks[id], slot)) <==> (id in s'.tasks && CopiesTo(s'.tasks[id], slot))
    ensures UnderWay(s, slot) <==> UnderWay(s', slot)
  {
    if UnderWay(s, slot) {
      var a :| a in s.tasks && CopiesTo(s.tasks[a], slot);
      assert a in s'.tasks && CopiesTo(s'.tasks[a], slot);
    }
    if UnderWay(s', slot) {
      var a :| a in s'.tasks && CopiesTo(s'.tasks[a], slot);
      assert a in s.tasks && CopiesTo(s.tasks[a], slot);
    }
  }

  lemma TaskStepReaches(s: Tiers, step: Step, id: nat, t: Task, slot: Slot)
    requires id in s.tasks && s.tasks[id] == t && OwnTask(step) && step.id == id && Keeps(s, step, slot)
    ensures Reached(StepTask(s, step, id, t), slot) <==> Reached(s, slot) || FlushFinds(s, step, slot)
  {
    var s' := StepTask(s, step, id, t);
    if FlushFinds(s, step, slot) {
      assert CopiesTo(s'.tasks[id], slot);
    } else if FlushesInto(s, step, slot) {
      assert CopiesTo(s.tasks[id], slot) && slot in s'.cold;
    } else {
      StillUnderWay(s, s', slot, id);
    }
  }

  lemma OpenReaches(s: Tiers, h: nat, id: nat, byPath: bool, slot: Slot)
    requires h in s.handles && id !in s.tasks
    ensures Reached(Opened(s, h, id, byPath), slot) <==> Reached(s, slot)
  {
    StillUnderWay(s, Opened(s, h, id, byPath), slot, id);
  }

  lemma RefreshReaches(s: Tiers, h: nat, policy: CachePolicy, slot: Slot)
    requires h in s.handles
    ensures Reached(RefreshedThrough(s, h, policy), slot) <==> Reached(s, slot)
  {
    StillUnderWay(s, RefreshedThrough(s, h, policy), slot, 0);
  }

  lemma OtherStepReaches(lib: Library, s: Tiers, step: Step, slot: Slot)
    requires !OwnTask(step) && !step.OpenCold? && !step.Refresh? && !step.Restart? && Keeps(s, step, slot)
    ensures Reached(ApplyStep(lib, s, step), slot) <==> Reached(s, slot)
  {
    var s' := ApplyStep(lib, s, step);
    if step.BeginPut? {
      StillUnderWay(s, s', slot, step.id);
    } else {
      StillUnderWay(s, s', slot, 0);
    }
  }

  lemma StepReaches(lib: Library, s: Tiers, step: Step, slot: Slot)
    requires Keeps(s, step, slot) && !step.Restart?
    ensures Reached(ApplyStep(lib, s, step), slot) <==> Reached(s, slot) || FlushFinds(s, step, slot)
  {
    if OwnTask(step) {
      if step.id in s.tasks { TaskStepReaches(s, step, step.id, s.tasks[step.id], slot); }
    } else if step.OpenCold? {
      if step.h in s.handles && step.id !in s.tasks { OpenReaches(s, step.h, step.id, step.byPath, slot); }
    } else if step.Refresh? {
      if step.h in s.handles { RefreshReaches(s, step.h, step.policy, slot); }
    } else {
      OtherStepReaches(lib, s, step, slot);
    }
  }

  // While no cold copy is deleted and no flush fails, the slot is in cold or
  // being copied there exactly when some flush of it found it in hot.
  lemma {:induction false} ReachesColdIff(lib: Library, steps: seq<Step>, slot: Slot)
    requires KeepsAlong(lib, EMPTY, steps, slot)
    ensures Reached(Run(lib, EMPTY, steps), slot) <==> SomeFlushFound(lib, steps, slot)
  {
    if steps != [] {
      var n := |steps| - 1;
      var before := steps[..n];
      assert forall i :: 0 <= i <= n ==> before[..i] == steps[..i];
      ReachesColdIff(lib, before, slot);
      var s := Run(lib, EMPTY, before);
      if steps[n].Restart? {
        TiersFollowSchedule(lib, before, slot);
      } else {
        StepReaches(lib, s, steps[n], slot);
      }
    }
  }

  // So once no copy is left running, a stored entry is in cold exactly when
  // some flush found it: an eviction from hot is harmless after that and loses
  // the put before.
  lemma SettledInColdIff(lib: Library, steps: seq<Step>, slot: Slot)
    requires KeepsAlong(lib, EMPTY, steps, slot) && !UnderWay(Run(lib, EMPTY, steps), slot)
    ensures slot in Run(lib, EMPTY, steps).cold <==> SomeFlushFound(lib, steps, slot)
  {
    ReachesColdIff(lib, steps, slot);
  }
}
