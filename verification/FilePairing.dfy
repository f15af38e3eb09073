/** When the metadata and the body found in a slot belong to one put: exactly
    when the same put made the last body rename and the metadata in place, in
    every interleaving and after any crash or abandoned task. */
module FilePairing {
  import opened Wrappers
  import opened Http
  import opened Policy
  import opened Storage
  import opened FileSystem
  import opened FileCommit

  // The put behind the metadata in place.
  function MetaPut(s: Fs, slot: Slot): Option<nat> {
    if MetaAt(s, slot).Some? then Some(MetaAt(s, slot).value.put) else None
  }

  function CountAt(s: Fs, slot: Slot): Option<Count> {
    if slot in s.index then Some(s.index[slot]) else None
  }

  // ---- The schedule of one slot ----

  predicate RenamesBody(s: Fs, step: Step, slot: Slot) {
    && step.RenameBody? && step.tid in s.threads
    && var t := s.threads[step.tid];
    t.BodyClosed? && t.slot == slot && BodyTemp(slot, t.n) in s.links
  }

  predicate RenamesMeta(s: Fs, step: Step, slot: Slot) {
    && step.RenameMeta? && step.tid in s.threads
    && var t := s.threads[step.tid];
    t.MetaReady? && t.slot == slot && MetaTemp(slot, t.n) in s.links
  }

  predicate Inserts(s: Fs, step: Step, slot: Slot) {
    && step.Insert? && step.tid in s.threads
    && s.threads[step.tid].Counting? && s.threads[step.tid].slot == slot
  }

  // The put that last renamed its body into the slot, unless deleted since.
  function LastBody(steps: seq<Step>, slot: Slot): Option<nat> {
    if steps == [] then None
    else
      var n := |steps| - 1;
      var s := Run(EMPTY, steps[..n]);
      if RenamesBody(s, steps[n], slot) then Some(s.threads[steps[n].tid].meta.put)
      else if steps[n] == Remove(BodyFile(slot)) then None
      else LastBody(steps[..n], slot)
  }

  // The put whose metadata, perhaps refreshed, was last renamed into the slot.
  function LastMeta(steps: seq<Step>, slot: Slot): Option<nat> {
    if steps == [] then None
    else
      var n := |steps| - 1;
      var s := Run(EMPTY, steps[..n]);
      if RenamesMeta(s, steps[n], slot) then Some(s.threads[steps[n].tid].meta.put)
      else if steps[n] == Remove(MetaFile(slot)) then None
      else LastMeta(steps[..n], slot)
  }

  // The last count put into the index for the slot; a restart counts the disk.
  function LastCount(steps: seq<Step>, slot: Slot): Option<Count> {
    if steps == [] then None
    else
      var n := |steps| - 1;
      var s := Run(EMPTY, steps[..n]);
      if Inserts(s, steps[n], slot)
      then Some(Count(s.threads[steps[n].tid].len, s.threads[steps[n].tid].meta.put))
      else if steps[n] == Unindex(slot) then None
      else if steps[n] == Crash then Scanned(s, slot)
      else LastCount(steps[..n], slot)
  }

  // ---- What is in place is what the schedule put there ----

  lemma SameFile(s: Fs, step: Step, p: Path)
    requires Inv(s) && (p.BodyFile? || p.MetaFile?) && SameLink(s, ApplyStep(s, step), p)
    ensures p.BodyFile? ==> BodyPut(ApplyStep(s, step), p.slot) == BodyPut(s, p.slot)
    ensures p.MetaFile? ==> MetaPut(ApplyStep(s, step), p.slot) == MetaPut(s, p.slot)
  {
    if p in s.links { FinalInodeKept(s, step, p); }
  }

  // A rename for the slot that does not reach the name leaves it alone.
  lemma OtherRename(s: Fs, step: Step, slot: Slot)
    requires ActsOn(s, step, slot)
    ensures !RenamesBody(s, step, slot) ==> SameLink(s, ApplyStep(s, step), BodyFile(slot))
    ensures !RenamesMeta(s, step, slot) ==> SameLink(s, ApplyStep(s, step), MetaFile(slot))
  {
  }

  lemma BodyPutStep(s: Fs, step: Step, slot: Slot)
    requires Inv(s)
    ensures BodyPut(ApplyStep(s, step), slot)
            == if RenamesBody(s, step, slot) then Some(s.threads[step.tid].meta.put)
               else if step == Remove(BodyFile(slot)) then None
               else BodyPut(s, slot)
  {
    if RenamesBody(s, step, slot) {
      BodyLands(s, step.tid, s.threads[step.tid]);
    } else if step != Remove(BodyFile(slot)) {
      if ActsOn(s, step, slot) { OtherRename(s, step, slot); } else { FinalLinksKept(s, step, slot); }
      SameFile(s, step, BodyFile(slot));
    }
  }

  lemma BodyLands(s: Fs, tid: nat, t: Thread)
    requires Inv(s) && tid in s.threads && s.threads[tid] == t && t.BodyClosed?
    requires BodyTemp(t.slot, t.n) in s.links
    ensures ApplyStep(s, RenameBody(tid)) == BodyRenamed(s, tid, t.slot, t.meta, t.n)
    ensures t.inode in s.inodes && s.inodes[t.inode].BodyInode?
    ensures BodyAt(BodyRenamed(s, tid, t.slot, t.meta, t.n), t.slot) == Some(s.inodes[t.inode].bytes)
    ensures BodyPut(BodyRenamed(s, tid, t.slot, t.meta, t.n), t.slot) == Some(t.meta.put)
  {
    assert ThreadOk(s, t);
  }

  lemma MetaPutStep(s: Fs, step: Step, slot: Slot)
    requires Inv(s)
    ensures MetaPut(ApplyStep(s, step), slot)
            == if RenamesMeta(s, step, slot) then Some(s.threads[step.tid].meta.put)
               else if step == Remove(MetaFile(slot)) then None
               else MetaPut(s, slot)
  {
    if RenamesMeta(s, step, slot) {
      var t := s.threads[step.tid];
      assert ThreadOk(s, t);
      RenameMetaShape(s, step.tid);
    } else if step != Remove(MetaFile(slot)) {
      if ActsOn(s, step, slot) { OtherRename(s, step, slot); } else { FinalLinksKept(s, step, slot); }
      SameFile(s, step, MetaFile(slot));
    }
  }

  lemma RescanAt(s: Fs, slot: Slot)
    ensures (if slot in Rescan(s) then Some(Rescan(s)[slot]) else None) == Scanned(s, slot)
  {
    if Scanned(s, slot).Some? {
      assert MetaFile(slot) in s.links && MetaFile(slot).slot == slot;
    }
  }

  lemma ThreadKeepsIndex(s: Fs, step: Step, tid: nat, t: Thread)
    requires tid in s.threads && s.threads[tid] == t && !step.Insert?
    ensures StepThread(s, step, tid, t).index == s.index
  {
  }

  lemma CountStep(s: Fs, step: Step, slot: Slot)
    ensures CountAt(ApplyStep(s, step), slot)
            == if Inserts(s, step, slot) then Some(Count(s.threads[step.tid].len, s.threads[step.tid].meta.put))
               else if step == Unindex(slot) then None
               else if step == Crash then Scanned(s, slot)
               else CountAt(s, slot)
  {
    match step
    case Begin(_, _, _) =>
    case ReadMeta(_, _) =>
    case Remove(_) =>
    case Unindex(_) =>
    case Crash => RescanAt(s, slot);
    case Insert(tid) => if tid in s.threads { InsertShape(s, tid); }
    case _ => if step.tid in s.threads { ThreadKeepsIndex(s, step, step.tid, s.threads[step.tid]); }
  }

  // A count is the body length of the put it is of.
  predicate CountOk(s: Fs, count: Option<Count>) {
    count.Some? ==> count.value.put < |s.closed| && count.value.len == |s.closed[count.value.put].bytes|
  }

  lemma RecordsGrow(s: Fs, step: Step)
    ensures s.closed <= ApplyStep(s, step).closed
  {
  }

  lemma CountStaysOk(s: Fs, step: Step, slot: Slot)
    requires Inv(s) && CountOk(s, CountAt(s, slot))
    ensures CountOk(ApplyStep(s, step), CountAt(ApplyStep(s, step), slot))
  {
    CountStep(s, step, slot);
    RecordsGrow(s, step);
    InPlaceIsKnown(s, slot);
    if Inserts(s, step, slot) { assert ThreadOk(s, s.threads[step.tid]); }
  }

  // In every run the body, the metadata and the count of a slot are those the
  // schedule says; and what each is a record of is a closed put of that slot.
  lemma {:induction false} SlotFollowsSchedule(steps: seq<Step>, slot: Slot)
    ensures var s := Run(EMPTY, steps);
            && BodyPut(s, slot) == LastBody(steps, slot)
            && MetaPut(s, slot) == LastMeta(steps, slot)
            && CountAt(s, slot) == LastCount(steps, slot)
            && (BodyAt(s, slot).Some? ==>
                  && BodyPut(s, slot).Some? && BodyPut(s, slot).value < |s.closed|
                  && var put := s.closed[BodyPut(s, slot).value];
                  put.slot == slot && put.bytes == BodyAt(s, slot).value)
            && (MetaAt(s, slot).Some? ==> KnownMeta(s, slot, MetaAt(s, slot).value))
            && CountOk(s, CountAt(s, slot))
  {
    if steps != [] {
      var n := |steps| - 1;
      var s := Run(EMPTY, steps[..n]);
      SlotFollowsSchedule(steps[..n], slot);
      RunKeepsInv(steps[..n]);
      BodyPutStep(s, steps[n], slot);
      MetaPutStep(s, steps[n], slot);
      CountStep(s, steps[n], slot);
      CountStaysOk(s, steps[n], slot);
    }
    RunKeepsInv(steps);
    InPlaceIsKnown(Run(EMPTY, steps), slot);
  }

  lemma InPlaceIsKnown(s: Fs, slot: Slot)
    requires Inv(s)
    ensures BodyFile(slot) in s.links ==>
              s.links[BodyFile(slot)] in s.inodes && ClosedBody(s, slot, s.inodes[s.links[BodyFile(slot)]])
    ensures MetaAt(s, slot).Some? ==> KnownMeta(s, slot, MetaAt(s, slot).value)
  {
    if BodyFile(slot) in s.links { assert LinkOk(s, BodyFile(slot), s.links[BodyFile(slot)]); }
    if MetaFile(slot) in s.links { assert LinkOk(s, MetaFile(slot), s.links[MetaFile(slot)]); }
  }

  // ---- The pairing ----

  // A lookup and an open would find something.
  predicate InPlace(s: Fs, slot: Slot) {
    BodyAt(s, slot).Some? && MetaAt(s, slot).Some?
  }

  // Body and metadata in place come from one put: its bytes, its trailers, and
  // its policy unless that put's policy was refreshed.
  ghost predicate Paired(s: Fs, slot: Slot) {
    exists k :: PairedAs(s, slot, k)
  }

  predicate PairedAs(s: Fs, slot: Slot, k: nat) {
    && BodyPut(s, slot) == Some(k) && MetaPut(s, slot) == Some(k)
    && k < |s.closed|
    && s.closed[k].slot == slot
    && s.closed[k].bytes == BodyAt(s, slot).value
    && s.closed[k].meta.trailers == MetaAt(s, slot).value.trailers
    && (s.closed[k].meta.policy == MetaAt(s, slot).value.policy || k in s.refreshed)
  }

  // In every run, whatever crashes or is abandoned, the slot is paired exactly
  // when the last body rename and the last metadata rename are of one put.
  lemma PairedIff(steps: seq<Step>, slot: Slot)
    requires InPlace(Run(EMPTY, steps), slot)
    ensures Paired(Run(EMPTY, steps), slot) <==> LastBody(steps, slot) == LastMeta(steps, slot)
  {
    SlotFollowsSchedule(steps, slot);
    var s := Run(EMPTY, steps);
    if LastBody(steps, slot) == LastMeta(steps, slot) {
      assert PairedAs(s, slot, BodyPut(s, slot).value);
    }
  }

  // The index agrees with what a scan would count exactly when the last count
  // is of the put whose body was renamed last and metadata is in place.
  lemma IndexedIff(steps: seq<Step>, slot: Slot)
    ensures var s := Run(EMPTY, steps);
            CountAt(s, slot) == Scanned(s, slot) <==>
              match LastCount(steps, slot)
              case None => LastMeta(steps, slot).None? || LastBody(steps, slot).None?
              case Some(count) => LastMeta(steps, slot).Some? && LastBody(steps, slot) == Some(count.put)
  {
    SlotFollowsSchedule(steps, slot);
    RunKeepsInv(steps);
    var s := Run(EMPTY, steps);
    if MetaFile(slot) in s.links { assert LinkOk(s, MetaFile(slot), s.links[MetaFile(slot)]); }
  }

  // ---- Commits that take turns ----

  // Between the body rename and the metadata rename, or inside a refresh.
  predicate InWindow(t: Thread) {
    t.BodyIn? || t.MetaDraft? || t.MetaReady?
  }

  predicate Window(s: Fs, slot: Slot, a: nat) {
    a in s.threads && s.threads[a].slot == slot && InWindow(s.threads[a])
  }

  // A put on its way from one rename to the other.
  predicate Writer(t: Thread) {
    t.BodyIn? || ((t.MetaDraft? || t.MetaReady?) && !t.isRefresh)
  }

  ghost predicate Idle(s: Fs, slot: Slot) {
    forall a :: !Window(s, slot, a)
  }

  // No commit or refresh of the slot starts while another is under way, and a
  // refresh starts from the metadata that is there. Crashes, abandoned tasks
  // and deletions may come at any time.
  ghost predicate Serial(s: Fs, step: Step, slot: Slot) {
    match step
    case RenameBody(tid) =>
      tid in s.threads && s.threads[tid].slot == slot && s.threads[tid].BodyClosed? ==> Idle(s, slot)
    case BeginRefresh(tid, _) =>
      tid in s.threads && s.threads[tid].slot == slot && s.threads[tid].Holding? ==>
        Idle(s, slot) && MetaAt(s, slot) == Some(s.threads[tid].meta)
    case _ => true
  }

  ghost predicate SerialRun(steps: seq<Step>, slot: Slot) {
    forall i :: 0 <= i < |steps| ==> Serial(Run(EMPTY, steps[..i]), steps[i], slot)
  }

  // Whether the last put to rename its body went on to rename its metadata.
  predicate Finished(steps: seq<Step>, slot: Slot) {
    if steps == [] then true
    else
      var n := |steps| - 1;
      var s := Run(EMPTY, steps[..n]);
      if RenamesBody(s, steps[n], slot) then false
      else if RenamesMeta(s, steps[n], slot)
              && LastBody(steps[..n], slot) == Some(s.threads[steps[n].tid].meta.put) then true
      else Finished(steps[..n], slot)
  }

  // Where a task with metadata comes from: itself one step earlier, a lookup,
  // or the closing of its body.
  lemma TaskOrigin(s: Fs, step: Step, b: nat)
    requires b in ApplyStep(s, step).threads && !ApplyStep(s, step).threads[b].Streaming?
    ensures var t' := ApplyStep(s, step).threads[b];
            || (&& b in s.threads && !s.threads[b].Streaming? && s.threads[b].meta.put == t'.meta.put
                && s.threads[b].slot == t'.slot
                && (Writer(s.threads[b]) ==> Writer(t') || (RenamesMeta(s, step, t'.slot) && step.tid == b))
                && (t'.BodyClosed? ==> s.threads[b].BodyClosed?)
                && (InWindow(t') ==>
                      || (InWindow(s.threads[b]) && (Writer(t') <==> Writer(s.threads[b]))
                          && !(RenamesMeta(s, step, t'.slot) && step.tid == b))
                      || (RenamesBody(s, step, t'.slot) && step.tid == b && Writer(t'))
                      || (step.BeginRefresh? && step.tid == b && s.threads[b].Holding? && !Writer(t'))))
            || (step.ReadMeta? && step.tid == b && t'.Holding? && MetaPut(s, step.slot) == Some(t'.meta.put))
            || (step.Close? && step.tid == b && t'.BodyClosed? && t'.meta.put == |s.closed|)
  {
    match step
    case Begin(_, _, _) =>
    case ReadMeta(_, _) =>
    case Remove(_) =>
    case Unindex(_) =>
    case Crash =>
    case Drop(tid) => if tid != b { OthersStay(s, step, b); }
    case _ => if step.tid == b { OwnOrigin(s, step, b, s.threads[b]); } else { OthersStay(s, step, b); }
  }

  lemma ThreadLeavesOthers(s: Fs, step: Step, tid: nat, t: Thread, b: nat)
    requires tid in s.threads && s.threads[tid] == t && tid != b
    ensures b in StepThread(s, step, tid, t).threads <==> b in s.threads
    ensures b in s.threads ==> StepThread(s, step, tid, t).threads[b] == s.threads[b]
  {
  }

  lemma OthersStay(s: Fs, step: Step, b: nat)
    requires !step.Remove? && !step.Unindex? && !step.Crash? && step.tid != b
    ensures b in ApplyStep(s, step).threads <==> b in s.threads
    ensures b in s.threads ==> ApplyStep(s, step).threads[b] == s.threads[b]
  {
    if !step.Begin? && !step.ReadMeta? && step.tid in s.threads {
      ThreadLeavesOthers(s, step, step.tid, s.threads[step.tid], b);
    }
  }

  lemma OwnOrigin(s: Fs, step: Step, b: nat, t: Thread)
    requires !step.Remove? && !step.Unindex? && !step.Crash? && !step.Begin? && !step.ReadMeta? && step.tid == b
    requires b in s.threads && s.threads[b] == t
    requires b in StepThread(s, step, b, t).threads && !StepThread(s, step, b, t).threads[b].Streaming?
    ensures var t' := StepThread(s, step, b, t).threads[b];
            || (&& !t.Streaming? && t.meta.put == t'.meta.put && t.slot == t'.slot
                && (Writer(t) ==> Writer(t') || RenamesMeta(s, step, t'.slot))
                && (t'.BodyClosed? ==> t.BodyClosed?)
                && (InWindow(t') ==>
                      || (InWindow(t) && (Writer(t') <==> Writer(t)) && !RenamesMeta(s, step, t'.slot))
                      || (RenamesBody(s, step, t'.slot) && Writer(t'))
                      || (step.BeginRefresh? && t.Holding? && !Writer(t'))))
            || (step.Close? && t'.BodyClosed? && t'.meta.put == |s.closed|)
  {
  }

  // ---- A put's metadata is out only after its own rename ----

  // A closed put that has not renamed its body is known to nobody else.
  ghost predicate SoleAt(s: Fs, a: nat)
    requires a in s.threads && s.threads[a].BodyClosed?
  {
    && (forall b :: b in s.threads && b != a && !s.threads[b].Streaming?
          ==> s.threads[b].meta.put != s.threads[a].meta.put)
    && (forall slot :: MetaPut(s, slot) != Some(s.threads[a].meta.put))
  }

  ghost predicate Sole(s: Fs) {
    forall a :: a in s.threads && s.threads[a].BodyClosed? ==> SoleAt(s, a)
  }

  // Only the put itself, between its renames, has its metadata.
  ghost predicate OnlyWriters(s: Fs, q: nat) {
    && (forall b :: b in s.threads && !s.threads[b].Streaming? && s.threads[b].meta.put == q
          ==> Writer(s.threads[b]))
    && (forall slot :: MetaPut(s, slot) != Some(q))
  }

  lemma PutsBelow(s: Fs)
    requires Inv(s)
    ensures forall b :: b in s.threads && !s.threads[b].Streaming? ==> s.threads[b].meta.put < |s.closed|
    ensures forall slot :: MetaPut(s, slot).Some? ==> MetaPut(s, slot).value < |s.closed|
  {
    forall b | b in s.threads && !s.threads[b].Streaming? ensures s.threads[b].meta.put < |s.closed| {
      assert ThreadOk(s, s.threads[b]);
    }
    forall slot | MetaPut(s, slot).Some? ensures MetaPut(s, slot).value < |s.closed| {
      InPlaceIsKnown(s, slot);
    }
  }

  lemma StepKeepsSole(s: Fs, step: Step)
    requires Inv(s) && Sole(s)
    ensures Sole(ApplyStep(s, step))
  {
    var s' := ApplyStep(s, step);
    PutsBelow(s);
    forall a | a in s'.threads && s'.threads[a].BodyClosed? ensures SoleAt(s', a) {
      SoleAfter(s, step, a);
    }
  }

  lemma SoleAfter(s: Fs, step: Step, a: nat)
    requires Inv(s) && Sole(s)
    requires a in ApplyStep(s, step).threads && ApplyStep(s, step).threads[a].BodyClosed?
    ensures SoleAt(ApplyStep(s, step), a)
  {
    var s' := ApplyStep(s, step);
    var q := s'.threads[a].meta.put;
    PutsBelow(s);
    TaskOrigin(s, step, a);
    assert q == |s.closed| || (a in s.threads && SoleAt(s, a) && s.threads[a].meta.put == q);
    forall b | b in s'.threads && b != a && !s'.threads[b].Streaming? ensures s'.threads[b].meta.put != q {
      TaskOrigin(s, step, b);
    }
    forall slot ensures MetaPut(s', slot) != Some(q) {
      MetaPutStep(s, step, slot);
    }
  }

  lemma StepKeepsOnlyWriters(s: Fs, step: Step, q: nat)
    requires Inv(s) && OnlyWriters(s, q) && q < |s.closed|
    requires step.RenameMeta? && step.tid in s.threads && s.threads[step.tid].MetaReady? ==>
               s.threads[step.tid].meta.put != q || !RenamesMeta(s, step, s.threads[step.tid].slot)
    ensures OnlyWriters(ApplyStep(s, step), q)
  {
    var s' := ApplyStep(s, step);
    forall b | b in s'.threads && !s'.threads[b].Streaming? && s'.threads[b].meta.put == q
      ensures Writer(s'.threads[b])
    {
      TaskOrigin(s, step, b);
    }
    forall slot ensures MetaPut(s', slot) != Some(q) {
      MetaPutStep(s, step, slot);
    }
  }

  lemma RenamedIsOnlyWriter(s: Fs, tid: nat, slot: Slot)
    requires Inv(s) && Sole(s) && RenamesBody(s, RenameBody(tid), slot)
    ensures OnlyWriters(ApplyStep(s, RenameBody(tid)), s.threads[tid].meta.put)
  {
    var q := s.threads[tid].meta.put;
    var s' := ApplyStep(s, RenameBody(tid));
    assert SoleAt(s, tid);
    BodyLands(s, tid, s.threads[tid]);
    forall x ensures MetaPut(s', x) != Some(q) {
      MetaPutStep(s, RenameBody(tid), x);
    }
  }

  // Until the last put to rename its body renames its metadata, the metadata
  // in place is another's.
  lemma {:induction false} UnfinishedIsUnpaired(steps: seq<Step>, slot: Slot)
    ensures Sole(Run(EMPTY, steps))
    ensures !Finished(steps, slot) && LastBody(steps, slot).Some? ==>
              OnlyWriters(Run(EMPTY, steps), LastBody(steps, slot).value)
  {
    if steps != [] {
      var n := |steps| - 1;
      var s, step := Run(EMPTY, steps[..n]), steps[n];
      UnfinishedIsUnpaired(steps[..n], slot);
      RunKeepsInv(steps[..n]);
      StepKeepsSole(s, step);
      if RenamesBody(s, step, slot) {
        RenamedIsOnlyWriter(s, step.tid, slot);
      } else if !Finished(steps, slot) && LastBody(steps, slot).Some? {
        StillUnfinished(steps, slot);
      }
    }
  }

  lemma StillUnfinished(steps: seq<Step>, slot: Slot)
    requires steps != []
    requires var n := |steps| - 1;
             && !RenamesBody(Run(EMPTY, steps[..n]), steps[n], slot)
             && !Finished(steps, slot) && LastBody(steps, slot).Some?
             && OnlyWriters(Run(EMPTY, steps[..n]), LastBody(steps, slot).value)
    ensures OnlyWriters(Run(EMPTY, steps), LastBody(steps, slot).value)
  {
    var n := |steps| - 1;
    var s, step := Run(EMPTY, steps[..n]), steps[n];
    var q := LastBody(steps, slot).value;
    RunKeepsInv(steps[..n]);
    SlotFollowsSchedule(steps[..n], slot);
    if step.RenameMeta? && step.tid in s.threads && s.threads[step.tid].MetaReady? {
      assert ThreadOk(s, s.threads[step.tid]);
    }
    StepKeepsOnlyWriters(s, step, q);
  }

  // ---- Taking turns ----

  ghost predicate TurnInv(s: Fs, slot: Slot, last: Option<nat>, finished: bool) {
    && (forall a, b :: Window(s, slot, a) && Window(s, slot, b) ==> a == b)
    && (forall a :: Window(s, slot, a) && last.Some? && (finished || Writer(s.threads[a]))
          ==> last == Some(s.threads[a].meta.put))
    && (finished && last.Some? && MetaPut(s, slot).Some? ==> MetaPut(s, slot) == last)
  }

  // A window open after a step that neither renames nor starts a refresh here
  // was open before, for the same put.
  lemma WindowStays(s: Fs, step: Step, slot: Slot, a: nat)
    requires !RenamesBody(s, step, slot)
    requires !(step.BeginRefresh? && step.tid in s.threads && s.threads[step.tid].Holding?
               && s.threads[step.tid].slot == slot)
    requires Window(ApplyStep(s, step), slot, a)
    ensures Window(s, slot, a)
    ensures ApplyStep(s, step).threads[a].meta.put == s.threads[a].meta.put
    ensures Writer(ApplyStep(s, step).threads[a]) <==> Writer(s.threads[a])
    ensures !(RenamesMeta(s, step, slot) && step.tid == a)
  {
    TaskOrigin(s, step, a);
  }

  lemma TurnQuiet(s: Fs, step: Step, slot: Slot, last: Option<nat>, finished: bool)
    requires Inv(s) && TurnInv(s, slot, last, finished)
    requires !RenamesBody(s, step, slot) && !RenamesMeta(s, step, slot)
    requires !(step.BeginRefresh? && step.tid in s.threads && s.threads[step.tid].Holding?
               && s.threads[step.tid].slot == slot)
    ensures TurnInv(ApplyStep(s, step), slot, if step == Remove(BodyFile(slot)) then None else last, finished)
  {
    var s' := ApplyStep(s, step);
    MetaPutStep(s, step, slot);
    forall a | Window(s', slot, a)
      ensures Window(s, slot, a)
      ensures s'.threads[a].meta.put == s.threads[a].meta.put
      ensures Writer(s'.threads[a]) <==> Writer(s.threads[a])
    {
      WindowStays(s, step, slot, a);
    }
  }

  lemma TurnBody(s: Fs, tid: nat, slot: Slot)
    requires Inv(s) && RenamesBody(s, RenameBody(tid), slot) && Idle(s, slot)
    ensures TurnInv(ApplyStep(s, RenameBody(tid)), slot, Some(s.threads[tid].meta.put), false)
  {
    var s' := ApplyStep(s, RenameBody(tid));
    BodyLands(s, tid, s.threads[tid]);
    forall a | a != tid ensures !Window(s', slot, a) {
      OthersStay(s, RenameBody(tid), a);
      assert !Window(s, slot, a);
    }
  }

  lemma TurnMeta(s: Fs, tid: nat, slot: Slot, last: Option<nat>, finished: bool)
    requires Inv(s) && TurnInv(s, slot, last, finished) && RenamesMeta(s, RenameMeta(tid), slot)
    ensures TurnInv(ApplyStep(s, RenameMeta(tid)), slot, last,
                    finished || last == Some(s.threads[tid].meta.put))
  {
    var s' := ApplyStep(s, RenameMeta(tid));
    MetaPutStep(s, RenameMeta(tid), slot);
    assert Window(s, slot, tid);
    forall a ensures !Window(s', slot, a) {
      if Window(s', slot, a) { WindowStays(s, RenameMeta(tid), slot, a); }
    }
  }

  lemma TurnRefresh(s: Fs, tid: nat, policy: CachePolicy, slot: Slot, last: Option<nat>, finished: bool)
    requires Inv(s) && TurnInv(s, slot, last, finished) && tid in s.threads
    requires s.threads[tid].Holding? && s.threads[tid].slot == slot
    requires Idle(s, slot) && MetaAt(s, slot) == Some(s.threads[tid].meta)
    ensures TurnInv(ApplyStep(s, BeginRefresh(tid, policy)), slot, last, finished)
  {
    var step := BeginRefresh(tid, policy);
    var s' := ApplyStep(s, step);
    BeginRefreshShape(s, tid, policy);
    MetaPutStep(s, step, slot);
    forall a | a != tid ensures !Window(s', slot, a) {
      OthersStay(s, step, a);
      assert !Window(s, slot, a);
    }
  }

  // How one step moves the schedule on.
  function NextBody(s: Fs, step: Step, slot: Slot, last: Option<nat>): Option<nat> {
    if RenamesBody(s, step, slot) then Some(s.threads[step.tid].meta.put)
    else if step == Remove(BodyFile(slot)) then None
    else last
  }

  predicate NextFinished(s: Fs, step: Step, slot: Slot, last: Option<nat>, finished: bool) {
    if RenamesBody(s, step, slot) then false
    else finished || (RenamesMeta(s, step, slot) && last == Some(s.threads[step.tid].meta.put))
  }

  lemma SerialStep(s: Fs, step: Step, slot: Slot, last: Option<nat>, finished: bool)
    requires Inv(s) && TurnInv(s, slot, last, finished) && Serial(s, step, slot)
    ensures TurnInv(ApplyStep(s, step), slot, NextBody(s, step, slot, last), NextFinished(s, step, slot, last, finished))
  {
    if RenamesBody(s, step, slot) {
      TurnBody(s, step.tid, slot);
    } else if RenamesMeta(s, step, slot) {
      TurnMeta(s, step.tid, slot, last, finished);
    } else if step.BeginRefresh? && step.tid in s.threads && s.threads[step.tid].Holding?
              && s.threads[step.tid].slot == slot {
      TurnRefresh(s, step.tid, step.policy, slot, last, finished);
    } else {
      TurnQuiet(s, step, slot, last, finished);
    }
  }

  lemma NextSchedule(steps: seq<Step>, slot: Slot)
    requires steps != []
    ensures var n := |steps| - 1;
            var s := Run(EMPTY, steps[..n]);
            && LastBody(steps, slot) == NextBody(s, steps[n], slot, LastBody(steps[..n], slot))
            && Finished(steps, slot)
               == NextFinished(s, steps[n], slot, LastBody(steps[..n], slot), Finished(steps[..n], slot))
  {
  }

  lemma {:induction false} SerialKeepsSlot(steps: seq<Step>, slot: Slot)
    requires SerialRun(steps, slot)
    ensures TurnInv(Run(EMPTY, steps), slot, LastBody(steps, slot), Finished(steps, slot))
  {
    if steps != [] {
      var n := |steps| - 1;
      var before := steps[..n];
      assert forall i :: 0 <= i <= n ==> before[..i] == steps[..i];
      SerialKeepsSlot(before, slot);
      RunKeepsInv(before);
      NextSchedule(steps, slot);
      SerialStep(Run(EMPTY, before), steps[n], slot, LastBody(before, slot), Finished(before, slot));
    }
  }

  // While commits into a slot take turns, the slot is paired exactly when the
  // last of them was not cut short between its two renames. In any run at all,
  // one that was cut short leaves it unpaired.
  lemma SerialPairedIff(steps: seq<Step>, slot: Slot)
    requires InPlace(Run(EMPTY, steps), slot)
    ensures Paired(Run(EMPTY, steps), slot) ==> Finished(steps, slot)
    ensures SerialRun(steps, slot) && Finished(steps, slot) ==> Paired(Run(EMPTY, steps), slot)
  {
    PairedIff(steps, slot);
    SlotFollowsSchedule(steps, slot);
    UnfinishedIsUnpaired(steps, slot);
    if SerialRun(steps, slot) { SerialKeepsSlot(steps, slot); }
  }
}
