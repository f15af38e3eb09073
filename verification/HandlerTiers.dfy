/** An unsafe request over the tiered storage: the invalidations it calls for,
    and what they leave. */
module HandlerTiers {
  import opened Wrappers
  import opened Http
  import opened Policy
  import opened Storability
  import opened Storage
  import opened Tiered
  import opened TieredInvalidation
  import opened Handlers
  import opened HandlerTheorems
  import opened HandlerRuns

  // No lookup of the key in cold.
  predicate NoColdLookup(steps: seq<Step>, key: CacheKey) {
    forall i :: 0 <= i < |steps| && steps[i].LookupCold? ==> steps[i].slot.key != key
  }

  // A call for the key that ran cleanly: nothing in flight for it when the
  // call began, no lookup of it in cold between the two halves, and no put of
  // it since.
  ghost predicate CalledCleanly(s: Tiers, key: CacheKey, meanwhile: seq<Step>, rest: seq<Step>) {
    !InFlight(s, key) && NoPut(meanwhile, key) && NoColdLookup(meanwhile, key) && NoPut(rest, key)
  }

  // The tiers after such a call, with anything else going on before, during
  // and after it.
  function AfterCall(lib: Library, before: seq<Step>, key: CacheKey, meanwhile: seq<Step>, rest: seq<Step>): Tiers {
    Run(lib, Invalidated(lib, Run(lib, EMPTY, before), key, meanwhile), rest)
  }

  // Over the tiers, after the calls of a successful unsafe request nothing is
  // left in either tier for a targeted URL: not under GET or HEAD, whose calls
  // ran cleanly, and not under any other method, which is never stored.
  lemma UnsafeLeavesNothingInTiers(
    lib: Library, url: Url, response: Headers, key: CacheKey,
    before: seq<Step>, meanwhile: seq<Step>, rest: seq<Step>)
    requires Targeted(lib, url, response, key.url)
    requires key in InvalidationCalls(lib, url, response) ==>
               CalledCleanly(Run(lib, EMPTY, before), key, meanwhile, rest)
    ensures !Present(AfterCall(lib, before, key, meanwhile, rest), key)
  {
    CallsReach(lib, url, response, key);
    if GetOrHead(key) {
      CleanCallRemoves(lib, Run(lib, EMPTY, before), key, meanwhile, rest);
    } else {
      CallKeepsInv(lib, before, key, meanwhile, rest);
      OnlyGetAndHeadHeld(lib, AfterCall(lib, before, key, meanwhile, rest));
    }
  }

  lemma {:induction false} RunKeepsBoth(lib: Library, s: Tiers, steps: seq<Step>)
    requires Inv(s) && LogOk(lib, s)
    ensures Inv(Run(lib, s, steps)) && LogOk(lib, Run(lib, s, steps))
  {
    if steps != [] {
      var n := |steps| - 1;
      RunKeepsBoth(lib, s, steps[..n]);
      StepKeepsInv(lib, Run(lib, s, steps[..n]), steps[n]);
      StepKeepsLog(lib, Run(lib, s, steps[..n]), steps[n]);
    }
  }

  lemma CallKeepsInv(lib: Library, before: seq<Step>, key: CacheKey, meanwhile: seq<Step>, rest: seq<Step>)
    ensures var s := AfterCall(lib, before, key, meanwhile, rest); Inv(s) && LogOk(lib, s)
  {
    var s := Run(lib, EMPTY, before);
    Tiered.RunKeepsInv(lib, before);
    StepKeepsInv(lib, s, InvalidateHot(key));
    StepKeepsLog(lib, s, InvalidateHot(key));
    RunKeepsBoth(lib, ApplyStep(lib, s, InvalidateHot(key)), meanwhile);
    var mid := AtCold(lib, s, key, meanwhile);
    StepKeepsInv(lib, mid, InvalidateCold(key));
    StepKeepsLog(lib, mid, InvalidateCold(key));
    RunKeepsBoth(lib, Invalidated(lib, s, key, meanwhile), rest);
  }

  lemma OnlyGetAndHeadHeld(lib: Library, s: Tiers)
    requires Inv(s) && LogOk(lib, s)
    ensures forall slot :: slot in s.hot || slot in s.cold ==> GetOrHead(slot.key)
  {
    forall slot | slot in s.hot || slot in s.cold ensures GetOrHead(slot.key) {
      var held := if slot in s.hot then s.hot[slot] else s.cold[slot];
      assert HeldOk(s.past, slot.key, held);
      assert RecordOk(lib, s.past.finalized[held.body]);
      var x := s.past.finalized[held.body].exchange;
      SafeStorableIsGetOrHead(lib, x.verb, x.request, x.status, x.response, x.options);
    }
  }

  // Hot has nothing for the key and nothing for it is on its way.
  ghost predicate HotGone(s: Tiers, key: CacheKey) {
    !Holds(s.hot, key) && !InFlight(s, key)
  }

  lemma StepKeepsHotGone(lib: Library, s: Tiers, step: Step, key: CacheKey)
    requires HotGone(s, key) && NoPutStep(step, key)
    requires step.LookupCold? ==> step.slot.key != key
    ensures HotGone(ApplyStep(lib, s, step), key)
  {
    if OwnTask(step) {
      if step.id in s.tasks {
        var t := s.tasks[step.id];
        assert !Carries(t, key);
        TaskKeepsHotGone(s, step, step.id, t, key);
      }
    } else if step.OpenCold? {
      if step.h in s.handles && !s.handles[step.h].isHot { assert s.handles[step.h].key != key; }
    } else if step.Refresh? {
      if step.h in s.handles { RefreshKeepsHotGone(s, step.h, step.policy, key); }
    } else {
      QuietKeepsHotGone(lib, s, step, key);
    }
  }

  lemma TaskKeepsHotGone(s: Tiers, step: Step, id: nat, t: Task, key: CacheKey)
    requires HotGone(s, key) && id in s.tasks && s.tasks[id] == t && !Carries(t, key)
    ensures HotGone(StepTask(s, step, id, t), key)
  {
  }

  lemma RefreshKeepsHotGone(s: Tiers, h: nat, policy: CachePolicy, key: CacheKey)
    requires HotGone(s, key) && h in s.handles
    ensures HotGone(RefreshedThrough(s, h, policy), key)
  {
  }

  lemma QuietKeepsHotGone(lib: Library, s: Tiers, step: Step, key: CacheKey)
    requires HotGone(s, key) && NoPutStep(step, key)
    requires !OwnTask(step) && !step.OpenCold? && !step.Refresh?
    requires step.LookupCold? ==> step.slot.key != key
    ensures HotGone(ApplyStep(lib, s, step), key)
  {
  }

  lemma {:induction false} HotStaysGone(lib: Library, s: Tiers, steps: seq<Step>, key: CacheKey)
    requires HotGone(s, key) && NoPut(steps, key) && NoColdLookup(steps, key)
    ensures HotGone(Run(lib, s, steps), key)
  {
    if steps != [] {
      var n := |steps| - 1;
      HotStaysGone(lib, s, steps[..n], key);
      StepKeepsHotGone(lib, Run(lib, s, steps[..n]), steps[n], key);
    }
  }

  lemma CleanCallRemoves(lib: Library, s: Tiers, key: CacheKey, meanwhile: seq<Step>, rest: seq<Step>)
    requires CalledCleanly(s, key, meanwhile, rest)
    ensures Gone(Run(lib, Invalidated(lib, s, key, meanwhile), rest), key)
  {
    HalfFacts(lib, s, key);
    HotStaysGone(lib, WithoutHot(s, key), meanwhile, key);
    var mid := AtCold(lib, s, key, meanwhile);
    HalfFacts(lib, mid, key);
    RunKeepsGone(lib, WithoutCold(mid, key), rest, key);
  }
}
