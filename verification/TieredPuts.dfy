/** What a finalized put is, read off the schedule: the chunks written to it in
    order, the trailers it was finalized with, the policy of the exchange it was
    begun with. */
module TieredPuts {
  import opened Wrappers
  import opened Http
  import opened Policy
  import opened Storage
  import opened Tiered

  // A put that was begun and neither finalized nor abandoned since.
  datatype OpenPut = OpenPut(url: Url, exchange: Exchange, chunks: seq<Bytes>)

  function Written(lib: Library, steps: seq<Step>, id: nat): Option<OpenPut> {
    if steps == [] then None
    else
      var n := |steps| - 1;
      var earlier := Written(lib, steps[..n], id);
      match steps[n]
      case BeginPut(i, url, x) =>
        if i == id && id !in Run(lib, EMPTY, steps[..n]).tasks && MayPut(lib, x) then Some(OpenPut(url, x, []))
        else earlier
      case WriteChunk(i, bytes) =>
        if i == id && earlier.Some? then Some(earlier.value.(chunks := earlier.value.chunks + [bytes])) else earlier
      case FinalizePut(i, _) => if i == id then None else earlier
      case Abandon(i) => if i == id then None else earlier
      case Restart => None
      case _ => earlier
  }

  function Record(lib: Library, o: OpenPut, trailers: Option<Headers>): PutRecord {
    PutRecord(CacheKey(o.exchange.verb, o.url), o.exchange, Entry(PolicyOf(lib, o.exchange), Flat(o.chunks), trailers))
  }

  // The finalized puts in the order of their finalization.
  function Puts(lib: Library, steps: seq<Step>): seq<PutRecord> {
    if steps == [] then []
    else
      var n := |steps| - 1;
      var earlier := Puts(lib, steps[..n]);
      if steps[n].FinalizePut? && Written(lib, steps[..n], steps[n].id).Some?
      then earlier + [Record(lib, Written(lib, steps[..n], steps[n].id).value, steps[n].trailers)]
      else earlier
  }

  // The task of an open put, as the schedule has it.
  function AsTask(lib: Library, o: OpenPut): Task {
    Writing(CacheKey(o.exchange.verb, o.url), o.exchange, PolicyOf(lib, o.exchange), Flat(o.chunks))
  }

  function OpenTask(s: Tiers, id: nat): Option<Task> {
    if id in s.tasks && s.tasks[id].Writing? then Some(s.tasks[id]) else None
  }

  // How a step moves an open put on.
  lemma TaskStepOpen(s: Tiers, step: Step, actor: nat, t: Task, id: nat)
    requires actor in s.tasks && s.tasks[actor] == t && OwnTask(step) && step.id == actor
    ensures OpenTask(StepTask(s, step, actor, t), id)
            == if actor != id || !t.Writing? then OpenTask(s, id)
               else if step.WriteChunk? then Some(Writing(t.key, t.exchange, t.policy, t.buffer + step.bytes))
               else if step.FinalizePut? || step.Abandon? then None
               else Some(t)
  {
  }

  lemma OtherStepOpen(lib: Library, s: Tiers, step: Step, id: nat)
    requires !OwnTask(step)
    ensures OpenTask(ApplyStep(lib, s, step), id)
            == if step.Restart? then None
               else if step.BeginPut? && step.id == id && id !in s.tasks && MayPut(lib, step.exchange)
               then Some(AsTask(lib, OpenPut(step.url, step.exchange, [])))
               else OpenTask(s, id)
  {
    if step.Refresh? && step.h in s.handles {
      assert RefreshedThrough(s, step.h, step.policy).tasks == s.tasks;
    }
  }

  lemma StepPuts(lib: Library, s: Tiers, step: Step)
    ensures ApplyStep(lib, s, step).past.finalized
            == if step.FinalizePut? && OpenTask(s, step.id).Some?
               then var t := s.tasks[step.id];
                    s.past.finalized + [PutRecord(t.key, t.exchange, Entry(t.policy, t.buffer, step.trailers))]
               else s.past.finalized
  {
    if step.Refresh? && step.h in s.handles {
      assert RefreshedThrough(s, step.h, step.policy).past.finalized == s.past.finalized;
    }
  }

  // In every run an open put holds exactly the chunks written to it since it
  // was begun, in order.
  lemma {:induction false} OpenPutHoldsItsChunks(lib: Library, steps: seq<Step>, id: nat)
    ensures OpenTask(Run(lib, EMPTY, steps), id)
            == var o := Written(lib, steps, id); if o.Some? then Some(AsTask(lib, o.value)) else None
  {
    if steps != [] {
      var n := |steps| - 1;
      var s, step := Run(lib, EMPTY, steps[..n]), steps[n];
      OpenPutHoldsItsChunks(lib, steps[..n], id);
      if !OwnTask(step) {
        OtherStepOpen(lib, s, step, id);
      } else if step.id in s.tasks {
        TaskStepOpen(s, step, step.id, s.tasks[step.id], id);
        var o := Written(lib, steps[..n], id);
        if step.WriteChunk? && step.id == id && o.Some? { FlatAppend(o.value.chunks, step.bytes); }
      }
    }
  }

  // And in every run the finalized puts are those, each with the trailers of
  // its own finalization and under the policy of its own exchange.
  lemma {:induction false} FinalizedPutsAreWhatWasWritten(lib: Library, steps: seq<Step>)
    ensures Run(lib, EMPTY, steps).past.finalized == Puts(lib, steps)
  {
    if steps != [] {
      var n := |steps| - 1;
      FinalizedPutsAreWhatWasWritten(lib, steps[..n]);
      StepPuts(lib, Run(lib, EMPTY, steps[..n]), steps[n]);
      if steps[n].FinalizePut? { OpenPutHoldsItsChunks(lib, steps[..n], steps[n].id); }
    }
  }

  // So whatever either tier holds uncut is, byte for byte, what some put
  // wrote for that key and signature.
  lemma TiersHoldWhatWasWritten(lib: Library, steps: seq<Step>, slot: Slot, inHot: bool)
    requires var s := Run(lib, EMPTY, steps); slot in (if inHot then s.hot else s.cold)
    ensures var s := Run(lib, EMPTY, steps);
            var held := if inHot then s.hot[slot] else s.cold[slot];
            && held.body < |Puts(lib, steps)|
            && var put := Puts(lib, steps)[held.body];
            && put.key == slot.key && put.entry.policy.varySnapshot == slot.signature
            && held.entry.body <= put.entry.body && (!held.cut ==> held.entry.body == put.entry.body)
  {
    TiersHoldFinalizedBodies(lib, steps, slot, inHot);
    FinalizedPutsAreWhatWasWritten(lib, steps);
  }

  // ---- Refreshes ----

  // A refresh puts the new policy on the variant of the tier that served the
  // handle, and on the handle; bodies, other variants and the other tier stay.
  lemma RefreshTouchesServingTier(s: Tiers, h: nat, policy: CachePolicy, slot: Slot)
    requires h in s.handles && SameVariantAs(policy, s.handles[h].held.entry.policy)
    ensures var handle, s' := s.handles[h], RefreshedThrough(s, h, policy);
            var own := SlotOf(handle.key, policy);
            && s'.tasks == s.tasks && s'.past.finalized == s.past.finalized
            && (slot in s'.hot <==> slot in s.hot) && (slot in s'.cold <==> slot in s.cold)
            && (slot in s.hot ==>
                  s'.hot[slot].entry == if handle.isHot && slot == own then s.hot[slot].entry.(policy := policy)
                                        else s.hot[slot].entry)
            && (slot in s.cold ==>
                  s'.cold[slot].entry == if !handle.isHot && slot == own
                                         then Entry(policy, s.cold[slot].entry.body, handle.held.entry.trailers)
                                         else s.cold[slot].entry)
            && h in s'.handles && s'.handles[h].held.entry == handle.held.entry.(policy := policy)
  {
  }
}
