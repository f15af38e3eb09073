/** Runs from an empty directory that leave a slot, or a reader, with one put's
    metadata, length or count over another put's body. */
module FileRaces {
  import opened Wrappers
  import opened Http
  import opened Policy
  import opened Storage
  import opened FileSystem
  import opened FileCommit
  import opened FilePairing

  // ---- Building a run ----

  lemma Extend(steps: seq<Step>, s: Fs, a: Step, s': Fs)
    requires Run(EMPTY, steps) == s && ApplyStep(s, a) == s'
    ensures Run(EMPTY, steps + [a]) == s'
  {
    assert (steps + [a])[..|steps|] == steps;
  }

  lemma ExtendThree(steps: seq<Step>, s: Fs, a: Step, b: Step, c: Step, s': Fs)
    requires Run(EMPTY, steps) == s && ApplyStep(ApplyStep(ApplyStep(s, a), b), c) == s'
    ensures Run(EMPTY, steps + [a] + [b] + [c]) == s'
  {
    Extend(steps, s, a, ApplyStep(s, a));
    Extend(steps + [a], ApplyStep(s, a), b, ApplyStep(ApplyStep(s, a), b));
    Extend(steps + [a] + [b], ApplyStep(ApplyStep(s, a), b), c, s');
  }

  // ---- Stretches of a run ----

  // A body written and closed.
  function Streamed(s: Fs, tid: nat, slot: Slot, policy: CachePolicy, bytes: Bytes): Fs {
    var meta := Meta(policy, None, |s.closed|);
    s.(links := s.links[BodyTemp(slot, s.counter) := s.next],
       inodes := s.inodes[s.next := BodyInode(bytes, Some(meta.put))],
       next := s.next + 1,
       threads := s.threads[tid := BodyClosed(slot, meta, s.counter, s.next)],
       counter := s.counter + 1,
       closed := s.closed + [ClosedPut(slot, meta, bytes)])
  }

  // A body being written.
  function Open(s: Fs, tid: nat, slot: Slot, policy: CachePolicy, bytes: Bytes): Fs {
    s.(links := s.links[BodyTemp(slot, s.counter) := s.next],
       inodes := s.inodes[s.next := BodyInode(bytes, None)],
       next := s.next + 1,
       threads := s.threads[tid := Streaming(slot, policy, s.counter, s.next)],
       counter := s.counter + 1)
  }

  lemma BeginEffect(s: Fs, tid: nat, key: CacheKey, policy: CachePolicy)
    requires tid !in s.threads && BodyTemp(SlotOf(key, policy), s.counter) !in s.links
    ensures ApplyStep(s, Begin(tid, key, policy)) == Open(s, tid, SlotOf(key, policy), policy, [])
  {
  }

  lemma WriteEffect(s: Fs, tid: nat, slot: Slot, policy: CachePolicy, bytes: Bytes)
    ensures ApplyStep(Open(s, tid, slot, policy, []), Write(tid, bytes)) == Open(s, tid, slot, policy, bytes)
  {
    var open := Open(s, tid, slot, policy, []);
    assert [] + bytes == bytes;
    assert open.inodes[s.next := BodyInode(bytes, None)] == s.inodes[s.next := BodyInode(bytes, None)];
  }

  lemma CloseEffect(s: Fs, tid: nat, slot: Slot, policy: CachePolicy, bytes: Bytes)
    ensures ApplyStep(Open(s, tid, slot, policy, bytes), Close(tid, None)) == Streamed(s, tid, slot, policy, bytes)
  {
    var open := Open(s, tid, slot, policy, bytes);
    var body := BodyInode(bytes, Some(|s.closed|));
    var t := BodyClosed(slot, Meta(policy, None, |s.closed|), s.counter, s.next);
    assert open.inodes[s.next := body] == s.inodes[s.next := body];
    assert open.threads[tid := t] == s.threads[tid := t];
  }

  lemma Stream(steps: seq<Step>, s: Fs, tid: nat, key: CacheKey, policy: CachePolicy, bytes: Bytes)
    returns (more: seq<Step>)
    requires Run(EMPTY, steps) == s
    requires tid !in s.threads && BodyTemp(SlotOf(key, policy), s.counter) !in s.links
    ensures Run(EMPTY, more) == Streamed(s, tid, SlotOf(key, policy), policy, bytes)
  {
    var slot := SlotOf(key, policy);
    var a, b, c := Begin(tid, key, policy), Write(tid, bytes), Close(tid, None);
    BeginEffect(s, tid, key, policy);
    WriteEffect(s, tid, slot, policy, bytes);
    CloseEffect(s, tid, slot, policy, bytes);
    ExtendThree(steps, s, a, b, c, Streamed(s, tid, slot, policy, bytes));
    more := steps + [a] + [b] + [c];
  }

  // The metadata of a put whose body is in, down to the index.
  function Committed(s: Fs, tid: nat, slot: Slot, meta: Meta): Fs {
    s.(links := s.links[MetaFile(slot) := s.next],
       inodes := s.inodes[s.next := MetaInode(meta, true)],
       next := s.next + 1,
       threads := s.threads - {tid},
       index := s.index[slot := Count(Written(s, meta), meta.put)])
  }

  // A metadata temporary, drafted or finished.
  function Drafted(s: Fs, tid: nat, slot: Slot, n: nat, content: Inode, t: Thread): Fs {
    s.(links := s.links[MetaTemp(slot, n) := s.next],
       inodes := s.inodes[s.next := content],
       next := s.next + 1,
       threads := s.threads[tid := t])
  }

  lemma DraftEffect(s: Fs, tid: nat, slot: Slot, meta: Meta, n: nat)
    requires tid in s.threads && s.threads[tid] == BodyIn(slot, meta, n) && MetaTemp(slot, n) !in s.links
    ensures ApplyStep(s, DraftMeta(tid))
            == Drafted(s, tid, slot, n, MetaInode(meta, false), MetaDraft(slot, meta, n, s.next, false))
  {
  }

  lemma CompleteEffect(s: Fs, tid: nat, slot: Slot, meta: Meta, n: nat)
    ensures ApplyStep(Drafted(s, tid, slot, n, MetaInode(meta, false), MetaDraft(slot, meta, n, s.next, false)),
                      CompleteMeta(tid))
            == Drafted(s, tid, slot, n, MetaInode(meta, true), MetaReady(slot, meta, n, false))
  {
    var draft := Drafted(s, tid, slot, n, MetaInode(meta, false), MetaDraft(slot, meta, n, s.next, false));
    var t := MetaReady(slot, meta, n, false);
    assert draft.inodes[s.next := MetaInode(meta, true)] == s.inodes[s.next := MetaInode(meta, true)];
    assert draft.threads[tid := t] == s.threads[tid := t];
  }

  lemma LandEffect(s: Fs, tid: nat, slot: Slot, meta: Meta, n: nat)
    requires MetaTemp(slot, n) !in s.links
    ensures ApplyStep(Drafted(s, tid, slot, n, MetaInode(meta, true), MetaReady(slot, meta, n, false)),
                      RenameMeta(tid))
            == s.(links := s.links[MetaFile(slot) := s.next],
                  inodes := s.inodes[s.next := MetaInode(meta, true)],
                  next := s.next + 1,
                  threads := s.threads[tid := Counting(slot, meta, Written(s, meta))])
  {
    var ready := Drafted(s, tid, slot, n, MetaInode(meta, true), MetaReady(slot, meta, n, false));
    var t := Counting(slot, meta, Written(s, meta));
    assert (ready.links - {MetaTemp(slot, n)})[MetaFile(slot) := s.next] == s.links[MetaFile(slot) := s.next];
    assert ready.threads[tid := t] == s.threads[tid := t];
  }

  lemma Commit(steps: seq<Step>, s: Fs, tid: nat, slot: Slot, meta: Meta, n: nat) returns (more: seq<Step>)
    requires Run(EMPTY, steps) == s
    requires tid in s.threads && s.threads[tid] == BodyIn(slot, meta, n) && MetaTemp(slot, n) !in s.links
    ensures Run(EMPTY, more) == Committed(s, tid, slot, meta)
  {
    var a, b, c := DraftMeta(tid), CompleteMeta(tid), RenameMeta(tid);
    DraftEffect(s, tid, slot, meta, n);
    CompleteEffect(s, tid, slot, meta, n);
    LandEffect(s, tid, slot, meta, n);
    var landed := ApplyStep(ApplyStep(ApplyStep(s, a), b), c);
    ExtendThree(steps, s, a, b, c, landed);
    InsertShape(landed, tid);
    assert landed.threads - {tid} == s.threads - {tid};
    more := steps + [a] + [b] + [c];
    Extend(more, landed, Insert(tid), Committed(s, tid, slot, meta));
    more := more + [Insert(tid)];
  }

  lemma Rename(steps: seq<Step>, s: Fs, tid: nat, slot: Slot, meta: Meta, n: nat, i: nat)
    returns (more: seq<Step>)
    requires Run(EMPTY, steps) == s
    requires tid in s.threads && s.threads[tid] == BodyClosed(slot, meta, n, i) && BodyTemp(slot, n) in s.links
    ensures Run(EMPTY, more) == BodyRenamed(s, tid, slot, meta, n)
  {
    Extend(steps, s, RenameBody(tid), BodyRenamed(s, tid, slot, meta, n));
    more := steps + [RenameBody(tid)];
  }

  // ---- One put committed, its replacement written but not yet in place ----

  function FirstPut(key: CacheKey, p: CachePolicy, bytes: Bytes): Fs {
    var slot := SlotOf(key, p);
    Fs(map[BodyFile(slot) := 0, MetaFile(slot) := 1],
       map[0 := BodyInode(bytes, Some(0)), 1 := MetaInode(Meta(p, None, 0), true)],
       2, map[], 1, [ClosedPut(slot, Meta(p, None, 0), bytes)], {}, map[slot := Count(|bytes|, 0)])
  }

  lemma FirstCommitted(key: CacheKey, p: CachePolicy, bytes: Bytes) returns (steps: seq<Step>)
    ensures Run(EMPTY, steps) == FirstPut(key, p, bytes)
  {
    var slot, meta := SlotOf(key, p), Meta(p, None, 0);
    steps := Stream([], EMPTY, 0, key, p, bytes);
    var s1 := Streamed(EMPTY, 0, slot, p, bytes);
    steps := Rename(steps, s1, 0, slot, meta, 0, 0);
    var s2 := BodyRenamed(s1, 0, slot, meta, 0);
    FirstRenamed(key, p, bytes);
    steps := Commit(steps, s2, 0, slot, meta, 0);
  }

  lemma FirstRenamed(key: CacheKey, p: CachePolicy, bytes: Bytes)
    ensures var slot, meta := SlotOf(key, p), Meta(p, None, 0);
            var s := BodyRenamed(Streamed(EMPTY, 0, slot, p, bytes), 0, slot, meta, 0);
            && s.links == map[BodyFile(slot) := 0]
            && s.threads == map[0 := BodyIn(slot, meta, 0)]
            && Committed(s, 0, slot, meta) == FirstPut(key, p, bytes)
  {
    var slot, meta := SlotOf(key, p), Meta(p, None, 0);
    var s := BodyRenamed(Streamed(EMPTY, 0, slot, p, bytes), 0, slot, meta, 0);
    assert s.links == map[BodyFile(slot) := 0];
    assert s.threads - {0} == map[];
  }

  function Replacing(key: CacheKey, p: CachePolicy, old_: Bytes, q: CachePolicy, new_: Bytes): Fs {
    var slot := SlotOf(key, p);
    Fs(map[BodyFile(slot) := 0, MetaFile(slot) := 1, BodyTemp(slot, 1) := 2],
       map[0 := BodyInode(old_, Some(0)), 1 := MetaInode(Meta(p, None, 0), true), 2 := BodyInode(new_, Some(1))],
       3,
       map[1 := BodyClosed(slot, Meta(q, None, 1), 1, 2)],
       2,
       [ClosedPut(slot, Meta(p, None, 0), old_), ClosedPut(slot, Meta(q, None, 1), new_)],
       {},
       map[slot := Count(|old_|, 0)])
  }

  lemma ReplacementWritten(key: CacheKey, p: CachePolicy, old_: Bytes, q: CachePolicy, new_: Bytes)
    returns (steps: seq<Step>)
    requires SameVariantAs(p, q)
    ensures Run(EMPTY, steps) == Replacing(key, p, old_, q, new_)
  {
    steps := FirstCommitted(key, p, old_);
    steps := Stream(steps, FirstPut(key, p, old_), 1, key, q, new_);
  }

  // The replacement's body renamed, its metadata not.
  function Torn(key: CacheKey, p: CachePolicy, old_: Bytes, q: CachePolicy, new_: Bytes): Fs {
    BodyRenamed(Replacing(key, p, old_, q, new_), 1, SlotOf(key, p), Meta(q, None, 1), 1)
  }

  lemma TornFacts(key: CacheKey, p: CachePolicy, old_: Bytes, q: CachePolicy, new_: Bytes)
    ensures var s, slot := Torn(key, p, old_, q, new_), SlotOf(key, p);
            && s.links == map[BodyFile(slot) := 2, MetaFile(slot) := 1]
            && MetaAt(s, slot) == Some(Meta(p, None, 0)) && BodyAt(s, slot) == Some(new_)
            && BodyPut(s, slot) == Some(1)
  {
    var s, slot := Torn(key, p, old_, q, new_), SlotOf(key, p);
    assert s.links == map[BodyFile(slot) := 2, MetaFile(slot) := 1];
  }

  lemma ReachTorn(key: CacheKey, p: CachePolicy, old_: Bytes, q: CachePolicy, new_: Bytes)
    returns (steps: seq<Step>)
    requires SameVariantAs(p, q)
    ensures Run(EMPTY, steps) == Torn(key, p, old_, q, new_)
  {
    steps := ReplacementWritten(key, p, old_, q, new_);
    steps := Rename(steps, Replacing(key, p, old_, q, new_), 1, SlotOf(key, p), Meta(q, None, 1), 1, 2);
  }

  // ---- The four failures ----

  // One writer at a time and a crash between its two renames: the restarted
  // directory holds, for good, the old put's metadata over the new put's body.
  lemma CrashTearsReplacement(key: CacheKey, p: CachePolicy, old_: Bytes, q: CachePolicy, new_: Bytes)
    returns (steps: seq<Step>)
    requires SameVariantAs(p, q)
    ensures var s, slot := Run(EMPTY, steps), SlotOf(key, p);
            && s.threads == map[]
            && s.closed == [ClosedPut(slot, Meta(p, None, 0), old_), ClosedPut(slot, Meta(q, None, 1), new_)]
            && MetaAt(s, slot) == Some(Meta(p, None, 0)) && BodyAt(s, slot) == Some(new_)
            && !Paired(s, slot)
  {
    steps := ReachTorn(key, p, old_, q, new_);
    TornFacts(key, p, old_, q, new_);
    var torn := Torn(key, p, old_, q, new_);
    CrashShows(torn, SlotOf(key, p));
    Extend(steps, torn, Crash, ApplyStep(torn, Crash));
    steps := steps + [Crash];
  }

  lemma CrashShows(s: Fs, slot: Slot)
    ensures var s' := ApplyStep(s, Crash);
            && s'.threads == map[] && s'.closed == s.closed
            && MetaAt(s', slot) == MetaAt(s, slot) && BodyAt(s', slot) == BodyAt(s, slot)
            && BodyPut(s', slot) == BodyPut(s, slot) && MetaPut(s', slot) == MetaPut(s, slot)
  {
  }

  // A reader between the two renames of a replacement gets the old put's
  // metadata with the new put's body.
  lemma ReplacementShowsOldMetaNewBody(
    key: CacheKey, p: CachePolicy, old_: Bytes, q: CachePolicy, new_: Bytes)
    returns (steps: seq<Step>)
    requires SameVariantAs(p, q)
    ensures var s, slot := Run(EMPTY, steps), SlotOf(key, p);
            && 2 in s.threads && s.threads[2] == Reading(slot, Meta(p, None, 0), 2, |new_|)
            && 2 in s.inodes && s.inodes[2] == BodyInode(new_, Some(1))
  {
    var slot := SlotOf(key, p);
    steps := ReachTorn(key, p, old_, q, new_);
    TornFacts(key, p, old_, q, new_);
    var torn := Torn(key, p, old_, q, new_);
    var a, b, c := ReadMeta(2, slot), MeasureBody(2), OpenBody(2);
    ReaderRuns(torn, 2, slot, Meta(p, None, 0), new_);
    ExtendThree(steps, torn, a, b, c, Set(torn, 2, Reading(slot, Meta(p, None, 0), 2, |new_|)));
    steps := steps + [a] + [b] + [c];
  }

  // A reader that runs its three steps without interruption.
  lemma ReaderRuns(s: Fs, r: nat, slot: Slot, meta: Meta, bytes: Bytes)
    requires r !in s.threads && MetaAt(s, slot) == Some(meta) && BodyAt(s, slot) == Some(bytes)
    requires s.inodes[s.links[MetaFile(slot)]].complete
    ensures ApplyStep(ApplyStep(ApplyStep(s, ReadMeta(r, slot)), MeasureBody(r)), OpenBody(r))
            == Set(s, r, Reading(slot, meta, s.links[BodyFile(slot)], |bytes|))
  {
    var s1 := ApplyStep(s, ReadMeta(r, slot));
    assert s1 == Set(s, r, Holding(slot, meta));
    var s2 := ApplyStep(s1, MeasureBody(r));
    assert s2 == Set(s1, r, Measured(slot, meta, |bytes|));
    var reading := Reading(slot, meta, s.links[BodyFile(slot)], |bytes|);
    assert ApplyStep(s2, OpenBody(r)) == Set(s2, r, reading);
    assert s2.threads[r := reading] == s.threads[r := reading];
  }

  // A body rename between measuring and opening: the reader streams the new
  // body under the length of the old one.
  lemma ReplacementMisstatesLength(
    key: CacheKey, p: CachePolicy, old_: Bytes, q: CachePolicy, new_: Bytes)
    returns (steps: seq<Step>)
    requires SameVariantAs(p, q) && |old_| != |new_|
    ensures var s := Run(EMPTY, steps);
            && 2 in s.threads && s.threads[2] == Reading(SlotOf(key, p), Meta(p, None, 0), 2, |old_|)
            && 2 in s.inodes && s.inodes[2] == BodyInode(new_, Some(1))
            && s.threads[2].len != |s.inodes[2].bytes|
  {
    var slot := SlotOf(key, p);
    steps := ReplacementWritten(key, p, old_, q, new_);
    var s := Replacing(key, p, old_, q, new_);
    var a, b, c, d := ReadMeta(2, slot), MeasureBody(2), RenameBody(1), OpenBody(2);
    var s' := ApplyStep(ApplyStep(ApplyStep(s, a), b), c);
    MeasuredThenRenamed(key, p, old_, q, new_);
    ExtendThree(steps, s, a, b, c, s');
    OpensWhatIsThere(s', 2, slot, Meta(p, None, 0), |old_|);
    Extend(steps + [a] + [b] + [c], s', d, Set(s', 2, Reading(slot, Meta(p, None, 0), 2, |old_|)));
    steps := steps + [a] + [b] + [c] + [d];
  }

  lemma OpensWhatIsThere(s: Fs, r: nat, slot: Slot, meta: Meta, len: nat)
    requires r in s.threads && s.threads[r] == Measured(slot, meta, len) && BodyFile(slot) in s.links
    ensures ApplyStep(s, OpenBody(r)) == Set(s, r, Reading(slot, meta, s.links[BodyFile(slot)], len))
  {
  }

  lemma MeasuredThenRenamed(key: CacheKey, p: CachePolicy, old_: Bytes, q: CachePolicy, new_: Bytes)
    ensures var s, slot := Replacing(key, p, old_, q, new_), SlotOf(key, p);
            var s' := ApplyStep(ApplyStep(ApplyStep(s, ReadMeta(2, slot)), MeasureBody(2)), RenameBody(1));
            && 2 in s'.threads && s'.threads[2] == Measured(slot, Meta(p, None, 0), |old_|)
            && BodyFile(slot) in s'.links && s'.links[BodyFile(slot)] == 2 && s'.inodes == s.inodes
  {
    var s, slot := Replacing(key, p, old_, q, new_), SlotOf(key, p);
    var m := Measured(slot, Meta(p, None, 0), |old_|);
    MeasuredFirst(key, p, old_, q, new_);
    RenamedBeside(Set(s, 2, m), 1, 2, slot, Meta(q, None, 1), 1, 2);
  }

  lemma MeasuredFirst(key: CacheKey, p: CachePolicy, old_: Bytes, q: CachePolicy, new_: Bytes)
    ensures var s, slot := Replacing(key, p, old_, q, new_), SlotOf(key, p);
            ApplyStep(ApplyStep(s, ReadMeta(2, slot)), MeasureBody(2))
            == Set(s, 2, Measured(slot, Meta(p, None, 0), |old_|))
  {
    var s, slot := Replacing(key, p, old_, q, new_), SlotOf(key, p);
    var m := Measured(slot, Meta(p, None, 0), |old_|);
    var s1 := ApplyStep(s, ReadMeta(2, slot));
    assert s1 == Set(s, 2, Holding(slot, Meta(p, None, 0)));
    assert BodyAt(s1, slot) == Some(old_);
    assert s1.threads[2 := m] == s.threads[2 := m];
  }

  // A body rename leaves the other tasks and the inodes alone.
  lemma RenamedBeside(s: Fs, tid: nat, other: nat, slot: Slot, meta: Meta, n: nat, i: nat)
    requires tid in s.threads && s.threads[tid] == BodyClosed(slot, meta, n, i)
    requires BodyTemp(slot, n) in s.links && other in s.threads && other != tid
    ensures var s' := ApplyStep(s, RenameBody(tid));
            && other in s'.threads && s'.threads[other] == s.threads[other] && s'.inodes == s.inodes
            && BodyFile(slot) in s'.links && s'.links[BodyFile(slot)] == s.links[BodyTemp(slot, n)]
  {
  }

  // Two puts, both bodies renamed, no metadata yet.
  function BothRenamed(key: CacheKey, p: CachePolicy, first: Bytes, q: CachePolicy, second: Bytes): Fs {
    var slot := SlotOf(key, p);
    Fs(map[BodyFile(slot) := 1],
       map[0 := BodyInode(first, Some(0)), 1 := BodyInode(second, Some(1))],
       2,
       map[0 := BodyIn(slot, Meta(p, None, 0), 0), 1 := BodyIn(slot, Meta(q, None, 1), 1)],
       2,
       [ClosedPut(slot, Meta(p, None, 0), first), ClosedPut(slot, Meta(q, None, 1), second)],
       {}, map[])
  }

  lemma ReachBothRenamed(key: CacheKey, p: CachePolicy, first: Bytes, q: CachePolicy, second: Bytes)
    returns (steps: seq<Step>)
    requires SameVariantAs(p, q)
    ensures Run(EMPTY, steps) == BothRenamed(key, p, first, q, second)
  {
    var slot := SlotOf(key, p);
    steps := Stream([], EMPTY, 0, key, p, first);
    var s1 := Streamed(EMPTY, 0, slot, p, first);
    steps := Stream(steps, s1, 1, key, q, second);
    var s2 := Streamed(s1, 1, slot, q, second);
    steps := Rename(steps, s2, 0, slot, Meta(p, None, 0), 0, 0);
    var s3 := BodyRenamed(s2, 0, slot, Meta(p, None, 0), 0);
    RenamedTwice(key, p, first, q, second);
    steps := Rename(steps, s3, 1, slot, Meta(q, None, 1), 1, 1);
  }

  lemma RenamedTwice(key: CacheKey, p: CachePolicy, first: Bytes, q: CachePolicy, second: Bytes)
    ensures var slot := SlotOf(key, p);
            var s2 := Streamed(Streamed(EMPTY, 0, slot, p, first), 1, slot, q, second);
            var s3 := BodyRenamed(s2, 0, slot, Meta(p, None, 0), 0);
            && BodyTemp(slot, 1) in s3.links
            && BodyRenamed(s3, 1, slot, Meta(q, None, 1), 1) == BothRenamed(key, p, first, q, second)
  {
    var slot := SlotOf(key, p);
    var s2 := Streamed(Streamed(EMPTY, 0, slot, p, first), 1, slot, q, second);
    var s3 := BodyRenamed(s2, 0, slot, Meta(p, None, 0), 0);
    assert s3.links == map[BodyFile(slot) := 0, BodyTemp(slot, 1) := 1];
    var s4 := BodyRenamed(s3, 1, slot, Meta(q, None, 1), 1);
    assert s4.links == map[BodyFile(slot) := 1];
  }

  // Two overlapping puts that rename their bodies in one order and their
  // metadata in the other leave, with nothing left running, the one's metadata
  // and count over the other's body.
  lemma CrossedCommitsMismatch(
    key: CacheKey, p: CachePolicy, first: Bytes, q: CachePolicy, second: Bytes)
    returns (steps: seq<Step>)
    requires SameVariantAs(p, q)
    ensures var s, slot := Run(EMPTY, steps), SlotOf(key, p);
            && s.threads == map[]
            && s.closed == [ClosedPut(slot, Meta(p, None, 0), first), ClosedPut(slot, Meta(q, None, 1), second)]
            && MetaAt(s, slot) == Some(Meta(p, None, 0)) && BodyAt(s, slot) == Some(second)
            && !Paired(s, slot)
            && CountAt(s, slot) == Some(Count(|first|, 0)) && Scanned(s, slot) == Some(Count(|second|, 1))
  {
    var slot := SlotOf(key, p);
    var s1 := BothRenamed(key, p, first, q, second);
    var s2 := Committed(s1, 1, slot, Meta(q, None, 1));
    steps := ReachBothRenamed(key, p, first, q, second);
    steps := Commit(steps, s1, 1, slot, Meta(q, None, 1), 1);
    steps := Commit(steps, s2, 0, slot, Meta(p, None, 0), 0);
    CrossedFacts(key, p, first, q, second);
  }

  lemma CrossedFacts(key: CacheKey, p: CachePolicy, first: Bytes, q: CachePolicy, second: Bytes)
    ensures var slot := SlotOf(key, p);
            var s1 := BothRenamed(key, p, first, q, second);
            var s := Committed(Committed(s1, 1, slot, Meta(q, None, 1)), 0, slot, Meta(p, None, 0));
            && s.threads == map[]
            && s.closed == s1.closed
            && MetaAt(s, slot) == Some(Meta(p, None, 0)) && BodyAt(s, slot) == Some(second)
            && BodyPut(s, slot) == Some(1)
            && CountAt(s, slot) == Some(Count(|first|, 0)) && Scanned(s, slot) == Some(Count(|second|, 1))
  {
    var slot := SlotOf(key, p);
    var s1 := BothRenamed(key, p, first, q, second);
    var s := Committed(Committed(s1, 1, slot, Meta(q, None, 1)), 0, slot, Meta(p, None, 0));
    assert s.threads == map[];
    assert s.links[BodyFile(slot)] == 1 && s.links[MetaFile(slot)] == 3;
  }
}
