/** Invalidation of a key in two tiers, one after the other: what it removes,
    and exactly when the key outlives it. */
module TieredInvalidation {
  import opened Wrappers
  import opened Http
  import opened Policy
  import opened Storage
  import opened Tiered
  import opened TieredRaces

  ghost predicate Holds(tier: Tier, key: CacheKey) {
    exists slot :: slot in tier && slot.key == key
  }

  ghost predicate Present(s: Tiers, key: CacheKey) {
    Holds(s.hot, key) || Holds(s.cold, key)
  }

  predicate Carries(t: Task, key: CacheKey) {
    t.key == key && !t.Flush?
  }

  // A write for the key that could still commit: an open put, a copy or a
  // promotion under way, or a reader about to promote.
  ghost predicate InFlight(s: Tiers, key: CacheKey) {
    || (exists id :: id in s.tasks && Carries(s.tasks[id], key))
    || (exists h :: h in s.handles && !s.handles[h].isHot && s.handles[h].key == key)
  }

  predicate NoPutStep(step: Step, key: CacheKey) {
    step.BeginPut? ==> CacheKey(step.exchange.verb, step.url) != key
  }

  predicate NoPut(steps: seq<Step>, key: CacheKey) {
    forall i :: 0 <= i < |steps| ==> NoPutStep(steps[i], key)
  }

  ghost predicate Gone(s: Tiers, key: CacheKey) {
    !Present(s, key) && !InFlight(s, key)
  }

  // ---- A key that is gone stays gone ----

  lemma TaskStepKeepsGone(s: Tiers, step: Step, id: nat, t: Task, key: CacheKey)
    requires Gone(s, key) && id in s.tasks && s.tasks[id] == t
    ensures Gone(StepTask(s, step, id, t), key)
  {
    assert !Carries(t, key);
  }

  lemma OpenKeepsGone(s: Tiers, h: nat, id: nat, byPath: bool, key: CacheKey)
    requires Gone(s, key) && h in s.handles && !s.handles[h].isHot
    ensures Gone(Opened(s, h, id, byPath), key)
  {
    assert s.handles[h].key != key;
  }

  lemma RefreshKeepsGone(s: Tiers, h: nat, policy: CachePolicy, key: CacheKey)
    requires Gone(s, key) && h in s.handles
    ensures Gone(RefreshedThrough(s, h, policy), key)
  {
  }

  lemma OtherStepKeepsGone(lib: Library, s: Tiers, step: Step, key: CacheKey)
    requires Gone(s, key) && !OwnTask(step) && !step.OpenCold? && !step.Refresh? && NoPutStep(step, key)
    ensures Gone(ApplyStep(lib, s, step), key)
  {
  }

  lemma StepKeepsGone(lib: Library, s: Tiers, step: Step, key: CacheKey)
    requires Gone(s, key) && NoPutStep(step, key)
    ensures Gone(ApplyStep(lib, s, step), key)
  {
    if OwnTask(step) {
      if step.id in s.tasks { TaskStepKeepsGone(s, step, step.id, s.tasks[step.id], key); }
    } else if step.OpenCold? {
      if step.h in s.handles && !s.handles[step.h].isHot && step.id !in s.tasks {
        OpenKeepsGone(s, step.h, step.id, step.byPath, key);
      }
    } else if step.Refresh? {
      if step.h in s.handles { RefreshKeepsGone(s, step.h, step.policy, key); }
    } else {
      OtherStepKeepsGone(lib, s, step, key);
    }
  }

  lemma {:induction false} RunKeepsGone(lib: Library, s: Tiers, steps: seq<Step>, key: CacheKey)
    requires Gone(s, key) && NoPut(steps, key)
    ensures Gone(Run(lib, s, steps), key)
  {
    if steps != [] {
      var n := |steps| - 1;
      RunKeepsGone(lib, s, steps[..n], key);
      StepKeepsGone(lib, Run(lib, s, steps[..n]), steps[n], key);
    }
  }

  lemma {:induction false} RunKeepsInvFrom(lib: Library, s: Tiers, steps: seq<Step>)
    requires Inv(s)
    ensures Inv(Run(lib, s, steps))
  {
    if steps != [] {
      var n := |steps| - 1;
      RunKeepsInvFrom(lib, s, steps[..n]);
      StepKeepsInv(lib, Run(lib, s, steps[..n]), steps[n]);
    }
  }

  // ---- A write in flight can land ----

  lemma {:induction false} FreshId(used: set<nat>) returns (id: nat)
    ensures forall x :: x in used ==> x < id
  {
    id := 0;
    if used != {} {
      var x :| x in used;
      var other := FreshId(used - {x});
      id := if x < other then other else x + 1;
      assert forall y :: y in used ==> y == x || y in used - {x};
    }
  }

  // Any task that carries a body can be run to its commit.
  lemma TaskCanCommit(lib: Library, s0: Tiers, before: seq<Step>, s: Tiers, id: nat, t: Task)
    returns (steps: seq<Step>)
    requires Run(lib, s0, before) == s && NoPut(before, t.key)
    requires id in s.tasks && s.tasks[id] == t && !t.Flush? && TaskOk(s.past, t)
    ensures NoPut(steps, t.key) && Present(Run(lib, s0, steps), t.key)
    ensures t.Promoting? ==> Holds(Run(lib, s0, steps).hot, t.key)
  {
    if t.Writing? {
      var s' := ApplyStep(lib, s, FinalizePut(id, None));
      Extend(lib, s0, before, s, FinalizePut(id, None), s');
      steps := before + [FinalizePut(id, None)];
      assert TaskSlot(t) in s'.hot;
    } else {
      steps := CopyCanCommit(lib, s0, before, s, id, t);
    }
  }

  lemma CopyCanCommit(lib: Library, s0: Tiers, before: seq<Step>, s: Tiers, id: nat, t: Task)
    returns (steps: seq<Step>)
    requires Run(lib, s0, before) == s && NoPut(before, t.key)
    requires id in s.tasks && s.tasks[id] == t && (t.Copying? || t.Promoting?) && TaskOk(s.past, t)
    ensures NoPut(steps, t.key) && Present(Run(lib, s0, steps), t.key)
    ensures t.Promoting? ==> Holds(Run(lib, s0, steps).hot, t.key)
  {
    var a := Copy(id, |t.source.entry.body| - |t.written|);
    var b := if t.Copying? then FinishFlush(id) else FinishPromotion(id);
    var t' := Further(t, a.n);
    assert |t'.written| == |t.source.entry.body|;
    var s1 := SetTask(s, id, t');
    assert ApplyStep(lib, s, a) == s1;
    var s2 := ApplyStep(lib, s1, b);
    Extend(lib, s0, before, s, a, s1);
    Extend(lib, s0, before + [a], s1, b, s2);
    steps := before + [a] + [b];
    assert TaskSlot(t) in (if t.Promoting? then s2.hot else s2.cold);
  }

  lemma InFlightCanReturn(lib: Library, s: Tiers, key: CacheKey) returns (steps: seq<Step>)
    requires Inv(s) && InFlight(s, key)
    ensures NoPut(steps, key) && Present(Run(lib, s, steps), key)
  {
    if id :| id in s.tasks && Carries(s.tasks[id], key) {
      assert TaskOk(s.past, s.tasks[id]);
      steps := TaskCanCommit(lib, s, [], s, id, s.tasks[id]);
    } else {
      var h :| h in s.handles && !s.handles[h].isHot && s.handles[h].key == key;
      steps := HandleCanPromote(lib, s, [], s, h);
    }
  }

  // A reader holding a cold entry can promote it.
  lemma HandleCanPromote(lib: Library, s0: Tiers, before: seq<Step>, s: Tiers, h: nat) returns (steps: seq<Step>)
    requires Run(lib, s0, before) == s && Inv(s) && h in s.handles && !s.handles[h].isHot
    requires NoPut(before, s.handles[h].key)
    ensures NoPut(steps, s.handles[h].key) && Holds(Run(lib, s0, steps).hot, s.handles[h].key)
  {
    var id := FreshId(s.tasks.Keys);
    var handle := s.handles[h];
    var a := OpenCold(h, id, false);
    var s' := Opened(s, h, id, false);
    var t := Promoting(handle.key, handle.held.entry.policy, handle.held.policy, handle.held, []);
    assert s'.tasks[id] == t;
    Extend(lib, s0, before, s, a, s');
    OpenKeepsInv(s, h, id, false);
    assert TaskOk(s'.past, t);
    steps := TaskCanCommit(lib, s0, before + [a], s', id, t);
  }

  // A reader that misses hot can fill it from cold.
  lemma ReaderCanRefill(lib: Library, s: Tiers, slot: Slot) returns (steps: seq<Step>)
    requires Inv(s) && slot in s.cold
    ensures NoPut(steps, slot.key) && Holds(Run(lib, s, steps).hot, slot.key)
  {
    var h := FreshId(s.handles.Keys);
    var a := LookupCold(h, slot);
    LookupEffect(lib, s, h, slot);
    Extend(lib, s, [], s, a, LookedUp(s, h, slot));
    steps := HandleCanPromote(lib, s, [] + [a], LookedUp(s, h, slot), h);
  }

  function LookedUp(s: Tiers, h: nat, slot: Slot): Tiers
    requires slot in s.cold
  {
    s.(handles := s.handles[h := Handle(false, slot.key, s.cold[slot])])
  }

  lemma LookupEffect(lib: Library, s: Tiers, h: nat, slot: Slot)
    requires Inv(s) && slot in s.cold && h !in s.handles
    ensures ApplyStep(lib, s, LookupCold(h, slot)) == LookedUp(s, h, slot) && Inv(LookedUp(s, h, slot))
  {
    LookupKeepsInv(lib, s, LookupCold(h, slot));
  }

  // ---- The two halves of an invalidation ----

  // Some continuation without a new put for the key shows it.
  ghost predicate CanReturn(lib: Library, s: Tiers, key: CacheKey) {
    exists steps :: NoPut(steps, key) && Present(Run(lib, s, steps), key)
  }

  lemma ReturnIff(lib: Library, s: Tiers, key: CacheKey)
    requires Inv(s)
    ensures CanReturn(lib, s, key) <==> Present(s, key) || InFlight(s, key)
  {
    if Present(s, key) {
      assert NoPut([], key) && Run(lib, s, []) == s;
    } else if InFlight(s, key) {
      var steps := InFlightCanReturn(lib, s, key);
      assert NoPut(steps, key);
    } else {
      forall steps | NoPut(steps, key)
        ensures !Present(Run(lib, s, steps), key)
      {
        RunKeepsGone(lib, s, steps, key);
      }
    }
  }

  function WithoutHot(s: Tiers, key: CacheKey): Tiers {
    s.(hot := WithoutKey(s.hot, key))
  }

  function WithoutCold(s: Tiers, key: CacheKey): Tiers {
    s.(cold := WithoutKey(s.cold, key))
  }

  lemma HalfFacts(lib: Library, s: Tiers, key: CacheKey)
    ensures ApplyStep(lib, s, InvalidateHot(key)) == WithoutHot(s, key)
    ensures ApplyStep(lib, s, InvalidateCold(key)) == WithoutCold(s, key)
    ensures !Holds(WithoutHot(s, key).hot, key) && !Holds(WithoutCold(s, key).cold, key)
    ensures InFlight(WithoutHot(s, key), key) <==> InFlight(s, key)
    ensures InFlight(WithoutCold(s, key), key) <==> InFlight(s, key)
  {
  }

  // An invalidation as it runs: hot, whatever happens meanwhile, cold.
  function AtCold(lib: Library, s: Tiers, key: CacheKey, meanwhile: seq<Step>): Tiers {
    Run(lib, ApplyStep(lib, s, InvalidateHot(key)), meanwhile)
  }

  function Invalidated(lib: Library, s: Tiers, key: CacheKey, meanwhile: seq<Step>): Tiers {
    ApplyStep(lib, AtCold(lib, s, key, meanwhile), InvalidateCold(key))
  }

  // Whatever happens between the two halves, the key is there afterwards, or
  // can come back without a new put, exactly when hot holds it again or a
  // write for it is in flight by the time cold is emptied. Neither half
  // touches another key.
  lemma InvalidationIsFinalIff(lib: Library, s: Tiers, key: CacheKey, meanwhile: seq<Step>)
    requires Inv(s)
    ensures var mid, end := AtCold(lib, s, key, meanwhile), Invalidated(lib, s, key, meanwhile);
            && (Present(end, key) <==> Holds(mid.hot, key))
            && (CanReturn(lib, end, key) <==> Holds(mid.hot, key) || InFlight(mid, key))
            && (forall slot :: slot in end.cold <==> slot in mid.cold && slot.key != key)
            && (forall slot :: slot in end.cold ==> end.cold[slot] == mid.cold[slot])
            && end.hot == mid.hot
  {
    var mid := AtCold(lib, s, key, meanwhile);
    StepKeepsInv(lib, s, InvalidateHot(key));
    RunKeepsInvFrom(lib, ApplyStep(lib, s, InvalidateHot(key)), meanwhile);
    HalfFacts(lib, mid, key);
    StepKeepsInv(lib, mid, InvalidateCold(key));
    ReturnIff(lib, WithoutCold(mid, key), key);
  }

  // Some course of events without a new put leaves the key stored after the
  // invalidation.
  ghost predicate CanSurvive(lib: Library, s: Tiers, key: CacheKey) {
    exists meanwhile :: NoPut(meanwhile, key) && CanReturn(lib, Invalidated(lib, s, key, meanwhile), key)
  }

  // Seen from before the call: the key can outlive it exactly when a write for
  // it is in flight or cold holds it, for a reader may carry it over to hot
  // between the two halves.
  lemma InvalidationCanFailIff(lib: Library, s: Tiers, key: CacheKey)
    requires Inv(s)
    ensures CanSurvive(lib, s, key) <==> InFlight(s, key) || Holds(s.cold, key)
  {
    var s1 := ApplyStep(lib, s, InvalidateHot(key));
    HalfFacts(lib, s, key);
    StepKeepsInv(lib, s, InvalidateHot(key));
    if InFlight(s, key) {
      InvalidationIsFinalIff(lib, s, key, []);
      assert NoPut([], key) && Run(lib, s1, []) == s1;
    } else if Holds(s.cold, key) {
      var slot :| slot in s.cold && slot.key == key;
      var meanwhile := ReaderCanRefill(lib, s1, slot);
      InvalidationIsFinalIff(lib, s, key, meanwhile);
    } else {
      forall meanwhile | NoPut(meanwhile, key)
        ensures !CanReturn(lib, Invalidated(lib, s, key, meanwhile), key)
      {
        RunKeepsGone(lib, s1, meanwhile, key);
        InvalidationIsFinalIff(lib, s, key, meanwhile);
      }
    }
  }

  // ---- The run in which a reader carries the key over ----

  // A put that has reached both tiers, and nothing else going on.
  function Settled(lib: Library, url: Url, x: Exchange, body: Bytes): Tiers {
    var key, p := CacheKey(x.verb, url), PolicyOf(lib, x);
    var held := Fresh(Entry(p, body, None), 0);
    Tiers(map[SlotOf(key, p) := held], map[SlotOf(key, p) := held], map[], map[],
          Past([PutRecord(key, x, held.entry)], {}))
  }

  lemma ReachSettled(lib: Library, url: Url, x: Exchange, body: Bytes) returns (steps: seq<Step>)
    requires MayPut(lib, x)
    ensures Run(lib, EMPTY, steps) == Settled(lib, url, x, body)
  {
    var key, p := CacheKey(x.verb, url), PolicyOf(lib, x);
    steps := PutRun(lib, EMPTY, [], EMPTY, 0, url, x, body);
    var s1 := PutDone(lib, EMPTY, 0, url, x, body);
    steps := FlushRun(lib, EMPTY, steps, s1, 0, Flush(key, p, 0));
    assert s1.tasks - {0} == map[];
  }

  function Calling(lib: Library, url: Url, x: Exchange, body: Bytes): Tiers {
    Settled(lib, url, x, body).(hot := map[])
  }

  // Opened, copied and committed, from a state with nothing in hot.
  lemma CarryOver(lib: Library, url: Url, x: Exchange, body: Bytes, slot: Slot)
    requires slot == SlotOf(CacheKey(x.verb, url), PolicyOf(lib, x))
    ensures var s := Calling(lib, url, x, body);
            var promoting := ApplyStep(lib, ApplyStep(lib, s, LookupCold(0, slot)), OpenCold(0, 1, false));
            ApplyStep(lib, ApplyStep(lib, promoting, Copy(1, |body|)), FinishPromotion(1)) == Settled(lib, url, x, body)
  {
    var s, held := Calling(lib, url, x, body), Fresh(Entry(PolicyOf(lib, x), body, None), 0);
    var s1 := ApplyStep(lib, s, LookupCold(0, slot));
    assert s1.handles == map[0 := Handle(false, slot.key, held)];
    var s2 := ApplyStep(lib, s1, OpenCold(0, 1, false));
    assert s2.handles == map[] by { assert s1.handles - {0} == map[]; }
    assert s2.tasks == map[1 := Promoting(slot.key, held.entry.policy, 0, held, [])];
    assert Advance([], body, |body|) == body;
    var s3 := ApplyStep(lib, s2, Copy(1, |body|));
    assert s3.tasks == map[1 := Promoting(slot.key, held.entry.policy, 0, held, body)];
    var s4 := ApplyStep(lib, s3, FinishPromotion(1));
    assert s4.tasks == map[] by { assert s3.tasks - {1} == map[]; }
  }

  // From an empty store: a put, its flush, then an invalidation with a reader
  // between its halves. When `invalidate` has returned, hot holds the key, and
  // nothing is in flight.
  lemma ReaderOutlivesInvalidation(lib: Library, url: Url, x: Exchange, body: Bytes)
    returns (before: seq<Step>, meanwhile: seq<Step>)
    requires MayPut(lib, x)
    ensures var key := CacheKey(x.verb, url);
            var s := Run(lib, EMPTY, before);
            && NoPut(meanwhile, key)
            && !InFlight(s, key)
            && Invalidated(lib, s, key, meanwhile) == Settled(lib, url, x, body).(cold := map[])
  {
    var key := CacheKey(x.verb, url);
    var slot := SlotOf(key, PolicyOf(lib, x));
    before := ReachSettled(lib, url, x, body);
    var s := Settled(lib, url, x, body);
    var s1 := Calling(lib, url, x, body);
    HalfFacts(lib, s, key);
    assert WithoutHot(s, key) == s1;
    meanwhile := CarriedOver(lib, url, x, body, slot);
    assert WithoutCold(s, key) == s.(cold := map[]);
  }

  lemma CarriedOver(lib: Library, url: Url, x: Exchange, body: Bytes, slot: Slot) returns (steps: seq<Step>)
    requires slot == SlotOf(CacheKey(x.verb, url), PolicyOf(lib, x))
    ensures Run(lib, Calling(lib, url, x, body), steps) == Settled(lib, url, x, body) && NoPut(steps, slot.key)
  {
    var s := Calling(lib, url, x, body);
    var a, b, c, d := LookupCold(0, slot), OpenCold(0, 1, false), Copy(1, |body|), FinishPromotion(1);
    CarryOver(lib, url, x, body, slot);
    var s3 := ApplyStep(lib, ApplyStep(lib, ApplyStep(lib, s, a), b), c);
    ExtendThree(lib, s, [], s, a, b, c, s3);
    Extend(lib, s, [] + [a] + [b] + [c], s3, d, Settled(lib, url, x, body));
    steps := [] + [a] + [b] + [c] + [d];
  }
}
