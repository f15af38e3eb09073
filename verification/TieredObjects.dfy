/** The tiered storage as the source runs it: an object over two tiers, whose
    methods are runs of the steps in `Tiered`. What other tasks do in between is
    what the interleavings there add. */
module TieredObjects {
  import opened Wrappers
  import opened Http
  import opened Policy
  import opened Storage
  import opened Tiered
  import opened TieredRaces
  import opened TieredInvalidation

  class TieredStorage {
    var hot: Tier
    var cold: Tier
    // Open puts, spawned flushes and bodies being promoted.
    var tasks: map<nat, Task>
    // Entries handed out.
    var handles: map<nat, Handle>
    var past: Past

    ghost function View(): Tiers
      reads this
    {
      Tiers(hot, cold, tasks, handles, past)
    }

    constructor ()
      ensures View() == EMPTY
    {
      hot, cold, tasks, handles, past := map[], map[], map[], map[], Past([], {});
    }

    // One handle, for a variant of the tier that answers.
    method HandOut(lib: Library, h: nat, slot: Slot, isHot: bool)
      requires h !in handles && slot in (if isHot then hot else cold)
      modifies this`handles
      ensures View() == ApplyStep(lib, old(View()), if isHot then LookupHot(h, slot) else LookupCold(h, slot))
      ensures handles == old(handles)[h := Handle(isHot, slot.key, (if isHot then hot else cold)[slot])]
    {
      handles := handles[h := Handle(isHot, slot.key, if isHot then hot[slot] else cold[slot])];
    }

    // Each slot found has a handle carrying what its tier holds.
    ghost predicate GaveOut(found: map<Slot, nat>, isHot: bool, next: nat)
      reads this
    {
      && (forall h :: h in handles ==> h < next)
      && (forall slot :: slot in found ==>
            && slot in (if isHot then hot else cold) && found[slot] in handles
            && handles[found[slot]] == Handle(isHot, slot.key, (if isHot then hot else cold)[slot]))
    }

    method HandOutAll(lib: Library, slots: set<Slot>, isHot: bool, unused: nat)
      returns (found: map<Slot, nat>, next: nat, ghost steps: seq<Step>)
      requires forall h :: h in handles ==> h < unused
      requires forall slot :: slot in slots ==> slot in (if isHot then hot else cold)
      modifies this`handles
      ensures View() == Run(lib, old(View()), steps)
      ensures found.Keys == slots && GaveOut(found, isHot, next)
    {
      var left := slots;
      found, next, steps := map[], unused, [];
      while left != {}
        invariant left <= slots && found.Keys == slots - left
        invariant View() == Run(lib, old(View()), steps)
        invariant GaveOut(found, isHot, next)
        decreases |left|
      {
        var slot :| slot in left;
        ghost var before := View();
        HandOut(lib, next, slot, isHot);
        ghost var step := if isHot then LookupHot(next, slot) else LookupCold(next, slot);
        Extend(lib, old(View()), steps, before, step, View());
        steps := steps + [step];
        found := found[slot := next];
        next := next + 1;
        left := left - {slot};
      }
    }

    // Hot first; cold only when hot has nothing for the key. Each variant
    // found gets a handle of its own.
    method Fetch(lib: Library, key: CacheKey, unused: nat)
      returns (found: map<Slot, nat>, isHot: bool, next: nat, ghost steps: seq<Step>)
      requires forall h :: h in handles ==> h < unused
      modifies this`handles
      ensures View() == Run(lib, old(View()), steps)
      ensures found.Keys == Visible(old(View()), key)
      ensures isHot <==> exists slot :: slot in hot && slot.key == key
      ensures GaveOut(found, isHot, next)
    {
      var slots := SlotsFor(hot, key);
      isHot := slots != {};
      if !isHot { slots := SlotsFor(cold, key); }
      found, next, steps := HandOutAll(lib, slots, isHot, unused);
    }

    method Put(lib: Library, url: Url, x: Exchange, id: nat)
      requires MayPut(lib, x) && id !in tasks
      modifies this`tasks
      ensures View() == ApplyStep(lib, old(View()), BeginPut(id, url, x))
    {
      tasks := tasks[id := Writing(CacheKey(x.verb, url), x, PolicyOf(lib, x), [])];
    }

    method Write(lib: Library, id: nat, bytes: Bytes)
      requires id in tasks && tasks[id].Writing?
      modifies this`tasks
      ensures View() == ApplyStep(lib, old(View()), WriteChunk(id, bytes))
    {
      tasks := tasks[id := tasks[id].(buffer := tasks[id].buffer + bytes)];
    }

    // Commit to hot, then spawn the flush.
    method Finalize(lib: Library, id: nat, trailers: Option<Headers>)
      requires id in tasks && tasks[id].Writing?
      modifies this
      ensures View() == ApplyStep(lib, old(View()), FinalizePut(id, trailers))
    {
      var t := tasks[id];
      var entry := Entry(t.policy, t.buffer, trailers);
      var put := |past.finalized|;
      hot := hot[TaskSlot(t) := Fresh(entry, put)];
      past := past.(finalized := past.finalized + [PutRecord(t.key, t.exchange, entry)]);
      tasks := tasks[id := Flush(t.key, t.policy, put)];
    }

    // Read the source in chunks of any size and write each on.
    method CopyAll(lib: Library, id: nat, ghost s0: Tiers, ghost before: seq<Step>) returns (ghost steps: seq<Step>)
      requires id in tasks && (tasks[id].Copying? || tasks[id].Promoting?)
      requires tasks[id].written <= tasks[id].source.entry.body
      requires View() == Run(lib, s0, before)
      modifies this`tasks
      ensures View() == Run(lib, s0, steps)
      ensures var t := old(tasks)[id];
              tasks == old(tasks)[id := Further(t, |t.source.entry.body| - |t.written|)]
    {
      var t := tasks[id];
      var body, put := t.source.entry.body, t.written;
      steps := before;
      while |put| < |body|
        invariant t.written <= put <= body
        invariant tasks == old(tasks)[id := WithWritten(t, put)]
        invariant View() == Run(lib, s0, steps)
        decreases |body| - |put|
      {
        var n: nat :| 1 <= n <= |body| - |put| && n <= 8192;
        ghost var prior := View();
        CopyChunk(lib, prior, id, t, put, n);
        put := put + body[|put|..|put| + n];
        tasks := tasks[id := WithWritten(t, put)];
        Extend(lib, s0, steps, prior, Copy(id, n), View());
        steps := steps + [Copy(id, n)];
      }
      RestOfCopy(t);
      assert put == body;
    }

    // Copy the variant now in hot to cold.
    method FlushToCold(lib: Library, id: nat) returns (ghost steps: seq<Step>)
      requires id in tasks && tasks[id].Flush?
      modifies this`tasks, this`cold
      ensures View() == Run(lib, old(View()), steps)
      ensures View() == var s, t := old(View()), old(tasks)[id];
                        if TaskSlot(t) in s.hot then FlushDone(s, id, t) else EndTask(s, id)
    {
      var t := tasks[id];
      ghost var s0 := View();
      if TaskSlot(t) !in hot {
        tasks := tasks - {id};
        Extend(lib, s0, [], s0, StartFlush(id), View());
        return [] + [StartFlush(id)];
      }
      tasks := tasks[id := Copying(t.key, t.policy, t.put, hot[TaskSlot(t)], [])];
      Extend(lib, s0, [], s0, StartFlush(id), View());
      steps := CopyAll(lib, id, s0, [] + [StartFlush(id)]);
      WholeCopy(hot[TaskSlot(t)].entry.body);
      var done := Copied(tasks[id]);
      ghost var prior := View();
      cold := cold[TaskSlot(t) := done];
      tasks := tasks - {id};
      Extend(lib, s0, steps, prior, FinishFlush(id), View());
      steps := steps + [FinishFlush(id)];
    }

    // Open a cold entry and read it to its end: the reader gets the body, and
    // hot a copy. A file tier finds the body by its path, and fails when there
    // is none any more.
    method OpenAndRead(lib: Library, h: nat, id: nat, byPath: bool)
      returns (body: Option<Bytes>, ghost steps: seq<Step>)
      requires h in handles && !handles[h].isHot && id !in tasks
      modifies this`tasks, this`handles, this`hot
      ensures View() == Run(lib, old(View()), steps)
      ensures var handle := old(handles)[h];
              var source := if byPath && HandleSlot(handle) in cold then Relocated(handle.held, cold[HandleSlot(handle)])
                            else handle.held;
              && (body.None? <==> byPath && HandleSlot(handle) !in cold)
              && (body.Some? ==>
                    body.value == source.entry.body && hot == old(hot)[HandleSlot(handle) := source])
              && (body.None? ==> hot == old(hot))
      ensures tasks == old(tasks) && handles == old(handles) - {h}
    {
      var handle := handles[h];
      ghost var s0 := View();
      handles := handles - {h};
      if byPath && HandleSlot(handle) !in cold {
        Extend(lib, s0, [], s0, OpenCold(h, id, true), View());
        return None, [] + [OpenCold(h, id, true)];
      }
      var source := if byPath then Relocated(handle.held, cold[HandleSlot(handle)]) else handle.held;
      tasks := tasks[id := Promoting(handle.key, handle.held.entry.policy, handle.held.policy, source, [])];
      Extend(lib, s0, [], s0, OpenCold(h, id, byPath), View());
      var bytes;
      bytes, steps := ReadPromoted(lib, id, s0, [] + [OpenCold(h, id, byPath)]);
      body := Some(bytes);
    }

    // Read a body being promoted to its end.
    method ReadPromoted(lib: Library, id: nat, ghost s0: Tiers, ghost before: seq<Step>)
      returns (body: Bytes, ghost steps: seq<Step>)
      requires id in tasks && tasks[id].Promoting? && tasks[id].written == []
      requires View() == Run(lib, s0, before)
      modifies this`tasks, this`hot
      ensures View() == Run(lib, s0, steps)
      ensures var t := old(tasks)[id];
              && body == t.source.entry.body
              && hot == old(hot)[TaskSlot(t) := Renewed(t.source, t.policy, t.put)]
              && tasks == old(tasks) - {id}
    {
      var t := tasks[id];
      steps := CopyAll(lib, id, s0, before);
      body := tasks[id].written;
      WholeCopy(t.source.entry.body);
      ghost var prior := View();
      CommitPromotion(lib, id);
      Extend(lib, s0, steps, prior, FinishPromotion(id), View());
      steps := steps + [FinishPromotion(id)];
    }

    // The tee's finalize at the end of a promoted body.
    method CommitPromotion(lib: Library, id: nat)
      requires id in tasks && tasks[id].Promoting?
      modifies this`tasks, this`hot
      ensures View() == ApplyStep(lib, old(View()), FinishPromotion(id))
      ensures hot == old(hot)[TaskSlot(old(tasks)[id]) := Teed(old(tasks)[id])] && tasks == old(tasks) - {id}
    {
      hot := hot[TaskSlot(tasks[id]) := Teed(tasks[id])];
      tasks := tasks - {id};
    }

    // Hot, then cold; nothing here stops others in between.
    method Invalidate(lib: Library, key: CacheKey)
      modifies this`hot, this`cold
      ensures View() == Invalidated(lib, old(View()), key, [])
      ensures hot == WithoutKey(old(hot), key) && cold == WithoutKey(old(cold), key)
    {
      hot := WithoutKey(hot, key);
      cold := WithoutKey(cold, key);
    }
  }

  function WithWritten(t: Task, written: Bytes): Task
    requires t.Copying? || t.Promoting?
  {
    if t.Copying? then Copying(t.key, t.policy, t.put, t.source, written)
    else Promoting(t.key, t.policy, t.put, t.source, written)
  }

  // One chunk is one step.
  lemma CopyChunk(lib: Library, s: Tiers, id: nat, t: Task, written: Bytes, n: nat)
    requires (t.Copying? || t.Promoting?) && |written| + n <= |t.source.entry.body|
    requires id in s.tasks && s.tasks[id] == WithWritten(t, written)
    ensures ApplyStep(lib, s, Copy(id, n))
            == SetTask(s, id, WithWritten(t, written + t.source.entry.body[|written|..|written| + n]))
  {
  }

  lemma RestOfCopy(t: Task)
    requires (t.Copying? || t.Promoting?) && t.written <= t.source.entry.body
    ensures Further(t, |t.source.entry.body| - |t.written|) == WithWritten(t, t.source.entry.body)
  {
    var body := t.source.entry.body;
    assert t.written + body[|t.written|..] == body;
  }

  lemma WholeCopy(body: Bytes)
    ensures Advance([], body, |body|) == body
  {
  }
}
