/** What a reader of the file backend gets, read off the schedule: metadata when
    it looks up, a length when it measures, a body when it opens, each of the
    put that was last renamed into place by then. */
module FileReaders {
  import opened Wrappers
  import opened Http
  import opened Policy
  import opened Storage
  import opened FileSystem
  import opened FileCommit
  import opened FilePairing

  // A lookup hands out metadata of the put last renamed into the slot, and
  // nothing exactly when there is none.
  lemma LookupHandsOutLastMeta(steps: seq<Step>, r: nat, slot: Slot)
    requires r !in Run(EMPTY, steps).threads
    ensures var s' := ApplyStep(Run(EMPTY, steps), ReadMeta(r, slot));
            && (r in s'.threads <==> LastMeta(steps, slot).Some?)
            && (r in s'.threads ==>
                  && s'.threads[r].Holding? && s'.threads[r].slot == slot
                  && LastMeta(steps, slot) == Some(s'.threads[r].meta.put))
  {
    RunKeepsInv(steps);
    SlotFollowsSchedule(steps, slot);
    var s := Run(EMPTY, steps);
    if MetaFile(slot) in s.links { assert LinkOk(s, MetaFile(slot), s.links[MetaFile(slot)]); }
  }

  // Measuring takes the length of the body last renamed into the slot, and
  // fails exactly when there is none.
  lemma MeasureTakesLastBody(steps: seq<Step>, r: nat, t: Thread)
    requires var s := Run(EMPTY, steps); r in s.threads && s.threads[r] == t && t.Holding?
    ensures var s, s' := Run(EMPTY, steps), ApplyStep(Run(EMPTY, steps), MeasureBody(r));
            && (r in s'.threads <==> LastBody(steps, t.slot).Some?)
            && (r in s'.threads ==>
                  && LastBody(steps, t.slot).value < |s.closed|
                  && s'.threads[r] == Measured(t.slot, t.meta, |s.closed[LastBody(steps, t.slot).value].bytes|))
  {
    RunKeepsInv(steps);
    SlotFollowsSchedule(steps, t.slot);
    InPlaceIsKnown(Run(EMPTY, steps), t.slot);
  }

  // The put whose body a reading task streams.
  function Streams(s: Fs, r: nat): Option<nat> {
    if r in s.threads && s.threads[r].Reading? && s.threads[r].inode in s.inodes
       && s.inodes[s.threads[r].inode].BodyInode?
    then s.inodes[s.threads[r].inode].put else None
  }

  // Opening streams the body last renamed into the slot, and fails exactly
  // when there is none. So the reader gets the put of its metadata exactly
  // when that put made the last body rename.
  lemma OpenStreamsLastBody(steps: seq<Step>, r: nat, t: Thread)
    requires var s := Run(EMPTY, steps); r in s.threads && s.threads[r] == t && t.Measured?
    ensures var s, s' := Run(EMPTY, steps), ApplyStep(Run(EMPTY, steps), OpenBody(r));
            && (r in s'.threads <==> LastBody(steps, t.slot).Some?)
            && Streams(s', r) == LastBody(steps, t.slot)
            && (Streams(s', r) == Some(t.meta.put) <==> LastBody(steps, t.slot) == Some(t.meta.put))
            && (r in s'.threads ==>
                  && s'.threads[r].Reading? && s'.threads[r].meta == t.meta && s'.threads[r].len == t.len
                  && LastBody(steps, t.slot).value < |s.closed|
                  && s'.threads[r].inode in s'.inodes && s'.inodes[s'.threads[r].inode].BodyInode?
                  && s'.inodes[s'.threads[r].inode].bytes == s.closed[LastBody(steps, t.slot).value].bytes)
  {
    RunKeepsInv(steps);
    SlotFollowsSchedule(steps, t.slot);
    InPlaceIsKnown(Run(EMPTY, steps), t.slot);
  }

  lemma {:induction false} RecordsStay(steps: seq<Step>, n: nat)
    requires n <= |steps|
    ensures Run(EMPTY, steps[..n]).closed <= Run(EMPTY, steps).closed
    decreases |steps| - n
  {
    if n == |steps| {
      assert steps[..n] == steps;
    } else {
      RecordsStay(steps, n + 1);
      RecordsGrow(Run(EMPTY, steps[..n]), steps[n]);
      assert steps[..n + 1][..n] == steps[..n];
    }
  }

  // A reader that measured after `n` steps and opens after all of them opens
  // the put it measured exactly when the last body rename is still the same;
  // and the announced length is that of the body it streams exactly when the
  // two puts have bodies of one length.
  lemma OpensWhatItMeasuredIff(steps: seq<Step>, n: nat, r: nat, held: Thread)
    requires n < |steps| && steps[n] == MeasureBody(r)
    requires var s := Run(EMPTY, steps[..n]); r in s.threads && s.threads[r] == held && held.Holding?
    requires LastBody(steps[..n], held.slot).Some? && LastBody(steps, held.slot).Some?
    requires r in Run(EMPTY, steps).threads
             && r in Run(EMPTY, steps[..n + 1]).threads
             && Run(EMPTY, steps).threads[r] == Run(EMPTY, steps[..n + 1]).threads[r]
    ensures var was, now := LastBody(steps[..n], held.slot), LastBody(steps, held.slot);
            var s, s' := Run(EMPTY, steps), ApplyStep(Run(EMPTY, steps), OpenBody(r));
            && (Streams(s', r) == was <==> was == now)
            && was.value < |s.closed| && now.value < |s.closed|
            && r in s'.threads && s'.threads[r].Reading?
            && s'.threads[r].inode in s'.inodes && s'.inodes[s'.threads[r].inode].BodyInode?
            && (s'.threads[r].len == |s'.inodes[s'.threads[r].inode].bytes|
                <==> |s.closed[was.value].bytes| == |s.closed[now.value].bytes|)
  {
    var at := Run(EMPTY, steps[..n]);
    assert steps[..n + 1][..n] == steps[..n];
    MeasureTakesLastBody(steps[..n], r, held);
    RecordsStay(steps, n);
    assert at.closed <= Run(EMPTY, steps).closed;
    OpenStreamsLastBody(steps, r, Run(EMPTY, steps).threads[r]);
  }

  // A reader that looked up after `n` steps and opens after all of them gets
  // metadata and body of one put exactly when the last metadata rename by the
  // lookup and the last body rename by the opening are of one put.
  lemma GetsOnePutIff(steps: seq<Step>, n: nat, r: nat, slot: Slot, t: Thread)
    requires n < |steps| && steps[n] == ReadMeta(r, slot)
    requires r !in Run(EMPTY, steps[..n]).threads && LastMeta(steps[..n], slot).Some?
    requires r in Run(EMPTY, steps).threads && Run(EMPTY, steps).threads[r] == t && t.Measured? && t.slot == slot
    requires r in Run(EMPTY, steps[..n + 1]).threads && Run(EMPTY, steps[..n + 1]).threads[r].Holding?
             && Run(EMPTY, steps[..n + 1]).threads[r].meta.put == t.meta.put
    ensures Streams(ApplyStep(Run(EMPTY, steps), OpenBody(r)), r) == Some(t.meta.put)
            <==> LastBody(steps, slot) == LastMeta(steps[..n], slot)
  {
    assert steps[..n + 1][..n] == steps[..n];
    LookupHandsOutLastMeta(steps[..n], r, slot);
    OpenStreamsLastBody(steps, r, t);
  }
}
