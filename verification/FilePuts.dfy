/** What a closed put of the file backend is, read off the schedule: the chunks
    written to it in order, under the policy it was begun with; that dropped puts
    leave nothing behind; and what a refresh installs. */
module FilePuts {
  import opened Wrappers
  import opened Http
  import opened Policy
  import opened Storage
  import opened FileSystem
  import opened FileCommit
  import opened FilePairing
  import opened FileRaces

  // ---- Chunks ----

  datatype OpenFile = OpenFile(slot: Slot, policy: CachePolicy, chunks: seq<Bytes>)

  // A put that was begun and neither closed nor dropped since.
  function WrittenTo(steps: seq<Step>, tid: nat): Option<OpenFile> {
    if steps == [] then None
    else
      var n := |steps| - 1;
      var earlier := WrittenTo(steps[..n], tid);
      match steps[n]
      case Begin(i, key, policy) =>
        if i == tid && tid !in Run(EMPTY, steps[..n]).threads then Some(OpenFile(SlotOf(key, policy), policy, []))
        else earlier
      case Write(i, bytes) =>
        if i == tid && earlier.Some? then Some(earlier.value.(chunks := earlier.value.chunks + [bytes])) else earlier
      case Close(i, _) => if i == tid then None else earlier
      case Drop(i) => if i == tid then None else earlier
      case Crash => None
      case _ => earlier
  }

  // The closed puts in the order of their closing.
  function Closings(steps: seq<Step>): seq<ClosedPut> {
    if steps == [] then []
    else
      var n := |steps| - 1;
      var earlier := Closings(steps[..n]);
      if steps[n].Close? && WrittenTo(steps[..n], steps[n].tid).Some? then
        var o := WrittenTo(steps[..n], steps[n].tid).value;
        earlier + [ClosedPut(o.slot, Meta(o.policy, steps[n].trailers, |earlier|), Flat(o.chunks))]
      else earlier
  }

  // What an open put has on disk.
  datatype OnDisk = OnDisk(slot: Slot, policy: CachePolicy, bytes: Bytes)

  function StreamOf(s: Fs, tid: nat): Option<OnDisk> {
    if tid in s.threads && s.threads[tid].Streaming? && s.threads[tid].inode in s.inodes
       && s.inodes[s.threads[tid].inode].BodyInode?
    then Some(OnDisk(s.threads[tid].slot, s.threads[tid].policy, s.inodes[s.threads[tid].inode].bytes)) else None
  }

  // Another task's step leaves an open body alone.
  lemma StreamKept(s: Fs, step: Step, actor: nat, t: Thread, a: nat)
    requires Inv(s) && actor in s.threads && s.threads[actor] == t && actor != a && a in s.threads && s.threads[a].Streaming?
    ensures StreamOf(StepThread(s, step, actor, t), a) == StreamOf(s, a)
  {
    var i := s.threads[a].inode;
    assert ThreadOk(s, t) && ThreadOk(s, s.threads[a]);
    ThreadLeavesOthers(s, step, actor, t, a);
    if t.BodyIn? { StreamNotTemporary(s, a, MetaTemp(t.slot, t.n)); }
    if t.Holding? { StreamNotTemporary(s, a, MetaTemp(t.slot, s.counter)); }
    ThreadWritesOwn(s, step, actor, t, i);
  }

  lemma StreamNotTemporary(s: Fs, a: nat, temp: Path)
    requires Inv(s) && a in s.threads && s.threads[a].Streaming?
    requires temp != BodyTemp(s.threads[a].slot, s.threads[a].n)
    ensures s.threads[a].inode in s.inodes && InodeFor(s, temp) != s.threads[a].inode
  {
    assert ThreadOk(s, s.threads[a]);
  }

  lemma BegunKeepsStream(s: Fs, tid: nat, slot: Slot, policy: CachePolicy, a: nat)
    requires Inv(s) && tid !in s.threads
    ensures StreamOf(Begun(s, tid, slot, policy), a)
            == if a == tid then Some(OnDisk(slot, policy, [])) else StreamOf(s, a)
  {
    if a in s.threads && s.threads[a].Streaming? {
      assert ThreadOk(s, s.threads[a]);
      StreamNotTemporary(s, a, BodyTemp(slot, s.counter));
    }
  }

  lemma StreamExists(s: Fs, a: nat)
    requires Inv(s)
    ensures StreamOf(s, a).Some? <==> a in s.threads && s.threads[a].Streaming?
  {
    if a in s.threads && s.threads[a].Streaming? { assert ThreadOk(s, s.threads[a]); }
  }

  // A task that is not streaming does not start to.
  lemma NoNewStream(s: Fs, step: Step, actor: nat, t: Thread, a: nat)
    requires actor in s.threads && s.threads[actor] == t && (a == actor ==> !t.Streaming?)
    requires a in s.threads ==> !s.threads[a].Streaming?
    ensures StreamOf(StepThread(s, step, actor, t), a).None?
  {
    if a != actor { ThreadLeavesOthers(s, step, actor, t, a); }
  }

  lemma OwnStream(s: Fs, step: Step, a: nat, t: Thread)
    requires Inv(s) && a in s.threads && s.threads[a] == t && t.Streaming?
    requires !step.Remove? && !step.Unindex? && !step.Crash? && step.tid == a
    ensures var before, after := StreamOf(s, a), StreamOf(StepThread(s, step, a, t), a);
            && before.Some?
            && after == (if step.Write? then Some(before.value.(bytes := before.value.bytes + step.bytes))
                         else if step.Close? || step.Drop? then None
                         else before)
  {
    StreamExists(s, a);
  }

  lemma ThreadStream(s: Fs, step: Step, a: nat)
    requires Inv(s) && !step.Begin? && !step.ReadMeta? && !step.Remove? && !step.Unindex? && !step.Crash?
    requires step.tid in s.threads
    ensures var before, after := StreamOf(s, a), StreamOf(ApplyStep(s, step), a);
            after == (if step.tid != a || before.None? then before
                      else if step.Write? then Some(before.value.(bytes := before.value.bytes + step.bytes))
                      else if step.Close? || step.Drop? then None
                      else before)
  {
    var t := s.threads[step.tid];
    StreamExists(s, a);
    if a in s.threads && s.threads[a].Streaming? {
      if step.tid == a { OwnStream(s, step, a, t); } else { StreamKept(s, step, step.tid, t, a); }
    } else {
      NoNewStream(s, step, step.tid, t, a);
    }
  }

  lemma QuietStream(s: Fs, step: Step, a: nat)
    requires Inv(s) && (step.ReadMeta? || step.Remove? || step.Unindex? || step.Crash?)
    ensures StreamOf(ApplyStep(s, step), a) == if step.Crash? then None else StreamOf(s, a)
  {
  }

  // In every run an open put has on disk exactly the chunks written to it, in
  // order.
  lemma {:induction false} OpenFileHoldsItsChunks(steps: seq<Step>, tid: nat)
    ensures StreamOf(Run(EMPTY, steps), tid)
            == var o := WrittenTo(steps, tid);
               if o.Some? then Some(OnDisk(o.value.slot, o.value.policy, Flat(o.value.chunks))) else None
  {
    if steps != [] {
      var n := |steps| - 1;
      var s, step := Run(EMPTY, steps[..n]), steps[n];
      OpenFileHoldsItsChunks(steps[..n], tid);
      RunKeepsInv(steps[..n]);
      if step.Begin? {
        if step.tid !in s.threads { BegunKeepsStream(s, step.tid, SlotOf(step.key, step.policy), step.policy, tid); }
      } else if step.ReadMeta? || step.Remove? || step.Unindex? || step.Crash? {
        QuietStream(s, step, tid);
      } else {
        MoveOn(s, steps, tid);
      }
    }
  }

  lemma MoveOn(s: Fs, steps: seq<Step>, tid: nat)
    requires steps != [] && s == Run(EMPTY, steps[..|steps| - 1]) && Inv(s)
    requires var step := steps[|steps| - 1];
             !step.Begin? && !step.ReadMeta? && !step.Remove? && !step.Unindex? && !step.Crash?
    requires StreamOf(s, tid)
             == var o := WrittenTo(steps[..|steps| - 1], tid);
                if o.Some? then Some(OnDisk(o.value.slot, o.value.policy, Flat(o.value.chunks))) else None
    ensures StreamOf(ApplyStep(s, steps[|steps| - 1]), tid)
            == var o := WrittenTo(steps, tid);
               if o.Some? then Some(OnDisk(o.value.slot, o.value.policy, Flat(o.value.chunks))) else None
  {
    var n := |steps| - 1;
    var step, o := steps[n], WrittenTo(steps[..n], tid);
    StreamExists(s, tid);
    if step.tid in s.threads { ThreadStream(s, step, tid); }
    if step.Write? && step.tid == tid && o.Some? { FlatAppend(o.value.chunks, step.bytes); }
  }

  lemma StepClosed(s: Fs, step: Step)
    requires Inv(s)
    ensures ApplyStep(s, step).closed
            == if step.Close? && StreamOf(s, step.tid).Some?
               then var d := StreamOf(s, step.tid).value;
                    s.closed + [ClosedPut(d.slot, Meta(d.policy, step.trailers, |s.closed|), d.bytes)]
               else s.closed
  {
    if step.Close? { StreamExists(s, step.tid); }
  }

  // And in every run the closed puts are those, under the policy each was
  // begun with and with the trailers it was closed with.
  lemma {:induction false} ClosedPutsAreWhatWasWritten(steps: seq<Step>)
    ensures Run(EMPTY, steps).closed == Closings(steps)
  {
    if steps != [] {
      var n := |steps| - 1;
      ClosedPutsAreWhatWasWritten(steps[..n]);
      RunKeepsInv(steps[..n]);
      StepClosed(Run(EMPTY, steps[..n]), steps[n]);
      if steps[n].Close? { OpenFileHoldsItsChunks(steps[..n], steps[n].tid); }
    }
  }

  // ---- Dropped puts ----

  // A task that may still have a body temporary of its own.
  predicate MayOwn(t: Thread) {
    t.Streaming? || t.BodyClosed?
  }

  ghost predicate Owned(s: Fs, p: Path)
    requires p.BodyTemp?
  {
    exists a :: a in s.threads && MayOwn(s.threads[a]) && s.threads[a].slot == p.slot && s.threads[a].n == p.n
  }

  ghost predicate NoOrphans(s: Fs) {
    forall p :: p in s.links && p.BodyTemp? ==> Owned(s, p)
  }

  lemma StillOwned(s: Fs, s': Fs, p: Path, tid: nat)
    requires p.BodyTemp? && Owned(s, p)
    requires forall a :: a in s.threads && a != tid ==> a in s'.threads && s'.threads[a] == s.threads[a]
    requires tid in s.threads && MayOwn(s.threads[tid]) && s.threads[tid].slot == p.slot && s.threads[tid].n == p.n ==>
               tid in s'.threads && MayOwn(s'.threads[tid]) && s'.threads[tid].slot == p.slot && s'.threads[tid].n == p.n
    ensures Owned(s', p)
  {
    var a :| a in s.threads && MayOwn(s.threads[a]) && s.threads[a].slot == p.slot && s.threads[a].n == p.n;
    assert a in s'.threads && MayOwn(s'.threads[a]);
  }

  lemma BegunKeepsOwners(s: Fs, tid: nat, slot: Slot, policy: CachePolicy)
    requires NoOrphans(s) && tid !in s.threads
    ensures NoOrphans(Begun(s, tid, slot, policy))
  {
    var s' := Begun(s, tid, slot, policy);
    forall p | p in s'.links && p.BodyTemp? ensures Owned(s', p) {
      if p == BodyTemp(slot, s.counter) {
        assert tid in s'.threads && MayOwn(s'.threads[tid]);
      } else {
        StillOwned(s, s', p, tid);
      }
    }
  }

  lemma ThreadKeepsOwners(s: Fs, step: Step, tid: nat, t: Thread)
    requires NoOrphans(s) && tid in s.threads && s.threads[tid] == t
    ensures NoOrphans(StepThread(s, step, tid, t))
  {
    var s' := StepThread(s, step, tid, t);
    forall p | p in s'.links && p.BodyTemp? ensures Owned(s', p) {
      OwnerMovesOn(s, step, tid, t, p);
      forall a | a in s.threads && a != tid ensures a in s'.threads && s'.threads[a] == s.threads[a] {
        ThreadLeavesOthers(s, step, tid, t, a);
      }
      StillOwned(s, s', p, tid);
    }
  }

  // A step takes a body temporary away before its task stops owning it.
  lemma OwnerMovesOn(s: Fs, step: Step, tid: nat, t: Thread, p: Path)
    requires tid in s.threads && s.threads[tid] == t && p.BodyTemp?
    requires p in StepThread(s, step, tid, t).links
    ensures p in s.links
    ensures var s' := StepThread(s, step, tid, t);
            MayOwn(t) && t.slot == p.slot && t.n == p.n ==>
              tid in s'.threads && MayOwn(s'.threads[tid]) && s'.threads[tid].slot == p.slot && s'.threads[tid].n == p.n
  {
  }

  // While the process lives, every body temporary belongs to a put under way:
  // a dropped, failed or committed put leaves none.
  lemma {:induction false} DroppedPutsLeaveNothing(steps: seq<Step>)
    requires forall i :: 0 <= i < |steps| ==> steps[i] != Crash
    ensures NoOrphans(Run(EMPTY, steps))
  {
    if steps != [] {
      var n := |steps| - 1;
      var s, step := Run(EMPTY, steps[..n]), steps[n];
      DroppedPutsLeaveNothing(steps[..n]);
      if step.Begin? {
        if step.tid !in s.threads { BegunKeepsOwners(s, step.tid, SlotOf(step.key, step.policy), step.policy); }
      } else if step.ReadMeta? || step.Remove? || step.Unindex? {
        QuietKeepsOwners(s, step);
      } else if step.tid in s.threads {
        ThreadKeepsOwners(s, step, step.tid, s.threads[step.tid]);
      }
    }
  }

  lemma QuietKeepsOwners(s: Fs, step: Step)
    requires NoOrphans(s) && (step.ReadMeta? || step.Remove? || step.Unindex?)
    ensures NoOrphans(ApplyStep(s, step))
  {
    var s' := ApplyStep(s, step);
    forall p | p in s'.links && p.BodyTemp? ensures Owned(s', p) {
      StillOwned(s, s', p, if step.ReadMeta? then step.tid else 0);
    }
  }

  // ---- Refreshes ----

  // A refresh run on its own installs the new policy over the record's own
  // trailers and leaves the body in place.
  lemma RefreshInstallsPolicy(s: Fs, tid: nat, slot: Slot, meta: Meta, policy: CachePolicy)
    requires Inv(s) && tid in s.threads && s.threads[tid] == Holding(slot, meta)
    requires policy.varySnapshot == slot.signature && MetaTemp(slot, s.counter) !in s.links
    ensures var s1 := ApplyStep(ApplyStep(s, BeginRefresh(tid, policy)), CompleteMeta(tid));
            var s' := ApplyStep(s1, RenameMeta(tid));
            && MetaAt(s', slot) == Some(Meta(policy, meta.trailers, meta.put))
            && BodyAt(s', slot) == BodyAt(s, slot)
            && tid in s'.threads && s'.threads[tid] == Holding(slot, Meta(policy, meta.trailers, meta.put))
  {
    var renewed := meta.(policy := policy);
    BeginRefreshShape(s, tid, policy);
    var s0 := RefreshBegun(s, tid, slot, renewed);
    RefreshCompleted(s, tid, slot, renewed);
    var s1 := ApplyStep(s0, CompleteMeta(tid));
    RenameMetaShape(s1, tid);
    var body := BodyFile(slot);
    if body in s.links {
      assert LinkOk(s, body, s.links[body]);
      NotTheTemporary(s, body, MetaTemp(slot, s.counter));
    }
  }

  lemma RefreshCompleted(s: Fs, tid: nat, slot: Slot, renewed: Meta)
    requires tid in s.threads && MetaTemp(slot, s.counter) !in s.links
    ensures var s0 := RefreshBegun(s, tid, slot, renewed);
            var s1 := ApplyStep(s0, CompleteMeta(tid));
            && s1.links == s.links[MetaTemp(slot, s.counter) := s.next]
            && s1.inodes == s.inodes[s.next := MetaInode(renewed, true)]
            && tid in s1.threads && s1.threads[tid] == MetaReady(slot, renewed, s.counter, true)
  {
    var s0 := RefreshBegun(s, tid, slot, renewed);
    assert s0.threads[tid] == MetaDraft(slot, renewed, s.counter, s.next, true);
    assert s0.inodes[s.next := MetaInode(renewed, true)] == s.inodes[s.next := MetaInode(renewed, true)];
  }
}
