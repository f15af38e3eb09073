/** The file commit protocol under every interleaving of puts, refreshes,
    readers and deletions, and at every crash point. Files are links to inodes,
    so an open body or a half-written temporary keeps its inode while names
    move. */
module FileCommit {
  import opened Wrappers
  import opened Http
  import opened Policy
  import opened Storage
  import opened FileSystem

  // A metadata record, and the put it comes from: its place among the closed
  // puts, which no file holds.
  datatype Meta = Meta(policy: CachePolicy, trailers: Option<Headers>, put: nat)

  datatype Inode =
    | BodyInode(bytes: Bytes, put: Option<nat>)    // the put, once closed
    | MetaInode(meta: Meta, complete: bool)

  // A put whose body file was closed.
  datatype ClosedPut = ClosedPut(slot: Slot, meta: Meta, bytes: Bytes)

  // Where each task stands. `n` is its temporary-file number.
  datatype Thread =
    | Streaming(slot: Slot, policy: CachePolicy, n: nat, inode: nat)
    | BodyClosed(slot: Slot, meta: Meta, n: nat, inode: nat)
    | BodyIn(slot: Slot, meta: Meta, n: nat)
    | MetaDraft(slot: Slot, meta: Meta, n: nat, inode: nat, isRefresh: bool)
    | MetaReady(slot: Slot, meta: Meta, n: nat, isRefresh: bool)
    | Counting(slot: Slot, meta: Meta, len: nat)
    | Holding(slot: Slot, meta: Meta)
    | Measured(slot: Slot, meta: Meta, len: nat)
    | Reading(slot: Slot, meta: Meta, inode: nat, len: nat)

  // What the capacity index holds for a variant, and whose count it is.
  datatype Count = Count(len: nat, put: nat)

  datatype Fs = Fs(
    links: map<Path, nat>,
    inodes: map<nat, Inode>,
    next: nat,
    threads: map<nat, Thread>,
    counter: nat,
    closed: seq<ClosedPut>,
    refreshed: set<nat>,
    index: map<Slot, Count>)

  const EMPTY := Fs(map[], map[], 0, map[], 0, [], {}, map[])

  datatype Step =
    | Begin(tid: nat, key: CacheKey, policy: CachePolicy)
    | Write(tid: nat, bytes: Bytes)
    | Close(tid: nat, trailers: Option<Headers>)
    | RenameBody(tid: nat)
    | DraftMeta(tid: nat)
    | CompleteMeta(tid: nat)
    | RenameMeta(tid: nat)
    | Insert(tid: nat)
    | BeginRefresh(tid: nat, policy: CachePolicy)
    | ReadMeta(tid: nat, slot: Slot)
    | MeasureBody(tid: nat)
    | OpenBody(tid: nat)
    | Drop(tid: nat)
    | Remove(path: Path)
    | Unindex(slot: Slot)
    | Crash

  // Open for writing: an existing file is truncated, its inode kept.
  function InodeFor(s: Fs, path: Path): nat {
    if path in s.links then s.links[path] else s.next
  }

  function CreateFile(s: Fs, path: Path, content: Inode): Fs {
    var i := InodeFor(s, path);
    s.(links := s.links[path := i], inodes := s.inodes[i := content],
       next := if path in s.links then s.next else s.next + 1)
  }

  function Unlink(s: Fs, path: Path): Fs {
    s.(links := s.links - {path})
  }

  function Move(s: Fs, from: Path, to: Path): Fs
    requires from in s.links
  {
    s.(links := (s.links - {from})[to := s.links[from]])
  }

  function Set(s: Fs, tid: nat, t: Thread): Fs {
    s.(threads := s.threads[tid := t])
  }

  function Exit(s: Fs, tid: nat): Fs {
    s.(threads := s.threads - {tid})
  }

  // The temporary a dropped put handle removes.
  function Dropped(s: Fs, tid: nat): Fs
    requires tid in s.threads
  {
    var t := s.threads[tid];
    var s := if t.Streaming? || t.BodyClosed? || t.BodyIn? || (t.MetaDraft? && !t.isRefresh)
                || (t.MetaReady? && !t.isRefresh)
             then Unlink(s, BodyTemp(t.slot, t.n)) else s;
    Exit(s, tid)
  }

  // Take a number and open the metadata temporary.
  function RefreshBegun(s: Fs, tid: nat, slot: Slot, renewed: Meta): Fs {
    var path := MetaTemp(slot, s.counter);
    Set(CreateFile(s, path, MetaInode(renewed, false))
          .(counter := s.counter + 1, refreshed := s.refreshed + {renewed.put}),
        tid, MetaDraft(slot, renewed, s.counter, InodeFor(s, path), true))
  }

  function BodyRenamed(s: Fs, tid: nat, slot: Slot, meta: Meta, n: nat): Fs
    requires BodyTemp(slot, n) in s.links
  {
    Set(Move(s, BodyTemp(slot, n), BodyFile(slot)), tid, BodyIn(slot, meta, n))
  }

  function BodyAt(s: Fs, slot: Slot): Option<Bytes> {
    var p := BodyFile(slot);
    if p in s.links && s.links[p] in s.inodes && s.inodes[s.links[p]].BodyInode?
    then Some(s.inodes[s.links[p]].bytes) else None
  }

  // The put whose body is in place.
  function BodyPut(s: Fs, slot: Slot): (r: Option<nat>)
    ensures r.Some? ==> BodyAt(s, slot).Some?
  {
    if BodyAt(s, slot).Some? then s.inodes[s.links[BodyFile(slot)]].put else None
  }

  // What the put counted while writing its body.
  function Written(s: Fs, meta: Meta): nat {
    if meta.put < |s.closed| then |s.closed[meta.put].bytes| else 0
  }

  function Inserted(s: Fs, tid: nat, slot: Slot, count: Count): Fs {
    Exit(s, tid).(index := s.index[slot := count])
  }

  function StepThread(s: Fs, step: Step, tid: nat, t: Thread): Fs
    requires tid in s.threads && s.threads[tid] == t
  {
    match (step, t)
    case (Write(_, bytes), Streaming(_, _, _, i)) =>
      if i in s.inodes && s.inodes[i].BodyInode?
      then s.(inodes := s.inodes[i := BodyInode(s.inodes[i].bytes + bytes, None)]) else s
    case (Close(_, trailers), Streaming(slot, policy, n, i)) =>
      if i in s.inodes && s.inodes[i].BodyInode? then
        var bytes, meta := s.inodes[i].bytes, Meta(policy, trailers, |s.closed|);
        Set(s.(inodes := s.inodes[i := BodyInode(bytes, Some(meta.put))],
               closed := s.closed + [ClosedPut(slot, meta, bytes)]),
            tid, BodyClosed(slot, meta, n, i))
      else s
    case (RenameBody(_), BodyClosed(slot, meta, n, _)) =>
      if BodyTemp(slot, n) in s.links then BodyRenamed(s, tid, slot, meta, n) else Dropped(s, tid)
    case (DraftMeta(_), BodyIn(slot, meta, n)) =>
      var path := MetaTemp(slot, n);
      Set(CreateFile(s, path, MetaInode(meta, false)), tid,
          MetaDraft(slot, meta, n, InodeFor(s, path), false))
    case (CompleteMeta(_), MetaDraft(slot, meta, n, i, isRefresh)) =>
      Set(s.(inodes := s.inodes[i := MetaInode(meta, true)]), tid,
          MetaReady(slot, meta, n, isRefresh))
    case (RenameMeta(_), MetaReady(slot, meta, n, isRefresh)) =>
      if MetaTemp(slot, n) in s.links then
        var s := Move(s, MetaTemp(slot, n), MetaFile(slot));
        if isRefresh then Set(s, tid, Holding(slot, meta)) else Set(s, tid, Counting(slot, meta, Written(s, meta)))
      else Dropped(s, tid)
    case (Insert(_), Counting(slot, meta, len)) =>
      Inserted(s, tid, slot, Count(len, meta.put))
    case (BeginRefresh(_, policy), Holding(slot, meta)) =>
      // Only refreshes that keep the signature.
      if policy.varySnapshot != slot.signature then s
      else RefreshBegun(s, tid, slot, meta.(policy := policy))
    case (MeasureBody(_), Holding(slot, meta)) =>
      // The length is read first, the file opened afterwards.
      if BodyAt(s, slot).Some? then Set(s, tid, Measured(slot, meta, |BodyAt(s, slot).value|))
      else Dropped(s, tid)
    case (OpenBody(_), Measured(slot, meta, len)) =>
      if BodyFile(slot) in s.links then Set(s, tid, Reading(slot, meta, s.links[BodyFile(slot)], len))
      else Dropped(s, tid)
    case (Drop(_), _) => Dropped(s, tid)
    case _ => s
  }

  // Take a number and open the body temporary.
  function Begun(s: Fs, tid: nat, slot: Slot, policy: CachePolicy): Fs {
    var path := BodyTemp(slot, s.counter);
    Set(CreateFile(s, path, BodyInode([], None)).(counter := s.counter + 1), tid,
        Streaming(slot, policy, s.counter, InodeFor(s, path)))
  }

  // What a scan counts for a slot: both names there, the length of the body.
  function Scanned(s: Fs, slot: Slot): Option<Count> {
    if MetaFile(slot) in s.links && BodyPut(s, slot).Some?
    then Some(Count(|BodyAt(s, slot).value|, BodyPut(s, slot).value)) else None
  }

  function Rescan(s: Fs): map<Slot, Count> {
    map p | p in s.links && p.MetaFile? && Scanned(s, p.slot).Some? :: p.slot := Scanned(s, p.slot).value
  }

  function ApplyStep(s: Fs, step: Step): Fs {
    match step
    case Begin(tid, key, policy) =>
      if tid in s.threads then s else Begun(s, tid, SlotOf(key, policy), policy)
    case ReadMeta(tid, slot) =>
      if tid in s.threads || MetaFile(slot) !in s.links then s
      else
        var i := s.links[MetaFile(slot)];
        if i in s.inodes && s.inodes[i].MetaInode? && s.inodes[i].complete
        then Set(s, tid, Holding(slot, s.inodes[i].meta)) else s
    case Remove(path) => Unlink(s, path)
    case Unindex(slot) => s.(index := s.index - {slot})
    case Crash => s.(threads := map[], counter := 0, index := Rescan(s))
    case _ =>
      if step.tid in s.threads then StepThread(s, step, step.tid, s.threads[step.tid]) else s
  }

  function Run(s: Fs, steps: seq<Step>): Fs {
    if steps == [] then s
    else ApplyStep(Run(s, steps[..|steps| - 1]), steps[|steps| - 1])
  }

  // ---- The invariant ----

  // The closed body of a put for the slot.
  predicate ClosedBody(s: Fs, slot: Slot, body: Inode) {
    && body.BodyInode? && body.put.Some? && body.put.value < |s.closed|
    && s.closed[body.put.value].slot == slot && s.closed[body.put.value].bytes == body.bytes
  }

  ghost predicate ClosedLength(s: Fs, slot: Slot, len: nat) {
    exists k :: 0 <= k < |s.closed| && s.closed[k].slot == slot && |s.closed[k].bytes| == len
  }

  // The metadata of a closed put for the slot, its policy perhaps refreshed.
  predicate KnownMeta(s: Fs, slot: Slot, meta: Meta) {
    && meta.policy.varySnapshot == slot.signature
    && meta.put < |s.closed| && s.closed[meta.put].slot == slot
    && s.closed[meta.put].meta.trailers == meta.trailers
    && (s.closed[meta.put].meta.policy == meta.policy || meta.put in s.refreshed)
  }

  ghost predicate LinkOk(s: Fs, p: Path, i: nat) {
    && i in s.inodes
    && match p
       case BodyFile(slot) => ClosedBody(s, slot, s.inodes[i])
       case MetaFile(slot) =>
         s.inodes[i].MetaInode? && s.inodes[i].complete && KnownMeta(s, slot, s.inodes[i].meta)
       case BodyTemp(_, _) => s.inodes[i].BodyInode?
       case MetaTemp(_, _) => s.inodes[i].MetaInode?
  }

  // A private inode: reachable by name only through its own temporary, and
  // that name leads to nothing else.
  ghost predicate Private(s: Fs, i: nat, own: Path) {
    && i in s.inodes
    && (forall p :: p in s.links && s.links[p] == i ==> p == own)
    && (own in s.links ==> s.links[own] == i)
  }

  ghost predicate ThreadOk(s: Fs, t: Thread) {
    match t
    case Streaming(slot, policy, n, i) =>
      && n < s.counter && policy.varySnapshot == slot.signature
      && Private(s, i, BodyTemp(slot, n))
      && s.inodes[i].BodyInode? && s.inodes[i].put.None?
    case BodyClosed(slot, meta, n, i) =>
      && n < s.counter && KnownMeta(s, slot, meta)
      && Private(s, i, BodyTemp(slot, n))
      && ClosedBody(s, slot, s.inodes[i]) && s.inodes[i].put == Some(meta.put)
    case BodyIn(slot, meta, n) => n < s.counter && KnownMeta(s, slot, meta)
    case MetaDraft(slot, meta, n, i, _) =>
      && n < s.counter && KnownMeta(s, slot, meta)
      && Private(s, i, MetaTemp(slot, n))
      && s.inodes[i].MetaInode?
    case MetaReady(slot, meta, n, _) =>
      && n < s.counter && KnownMeta(s, slot, meta)
      && (MetaTemp(slot, n) in s.links ==>
            var i := s.links[MetaTemp(slot, n)];
            i in s.inodes && s.inodes[i] == MetaInode(meta, true))
    case Counting(slot, meta, len) => KnownMeta(s, slot, meta) && len == |s.closed[meta.put].bytes|
    case Holding(slot, meta) => KnownMeta(s, slot, meta)
    case Measured(slot, meta, len) => KnownMeta(s, slot, meta) && ClosedLength(s, slot, len)
    case Reading(slot, meta, i, len) =>
      && KnownMeta(s, slot, meta) && ClosedLength(s, slot, len)
      && i in s.inodes && ClosedBody(s, slot, s.inodes[i])
      && (forall p :: p in s.links && s.links[p] == i ==> p.BodyFile?)
  }

  predicate HasNumber(t: Thread) {
    !t.Counting? && !t.Holding? && !t.Measured? && !t.Reading?
  }

  ghost predicate Bounded(s: Fs) {
    forall i :: i in s.inodes ==> i < s.next
  }

  ghost predicate LinksInjective(s: Fs) {
    forall p, q :: p in s.links && q in s.links && s.links[p] == s.links[q] ==> p == q
  }

  ghost predicate LinksOk(s: Fs) {
    forall p :: p in s.links ==> LinkOk(s, p, s.links[p])
  }

  ghost predicate ThreadsOk(s: Fs) {
    forall a :: a in s.threads ==> ThreadOk(s, s.threads[a])
  }

  // No two live tasks of one process use the same temporary number, nor write
  // to the same inode.
  ghost predicate TempsDistinct(s: Fs) {
    forall a, b :: a in s.threads && b in s.threads && a != b
                   && HasNumber(s.threads[a]) && HasNumber(s.threads[b])
      ==> s.threads[a].n != s.threads[b].n
  }

  ghost predicate StreamsDistinct(s: Fs) {
    forall a, b :: a in s.threads && b in s.threads && a != b
                   && s.threads[a].Streaming? && s.threads[b].Streaming?
      ==> s.threads[a].inode != s.threads[b].inode
  }

  ghost predicate Numbered(s: Fs) {
    forall k :: 0 <= k < |s.closed| ==> s.closed[k].meta.put == k
  }

  ghost predicate Inv(s: Fs) {
    Numbered(s) && Bounded(s) && LinksInjective(s) && LinksOk(s) && ThreadsOk(s) && TempsDistinct(s)
    && StreamsDistinct(s)
  }

  // ---- Every step keeps it ----

  // Dropping names and tasks loses nothing.
  lemma ShrinkKeepsInv(s: Fs, s': Fs)
    requires Inv(s)
    requires s' == s.(links := s'.links, threads := s'.threads)
    requires forall p :: p in s'.links ==> p in s.links && s'.links[p] == s.links[p]
    requires forall a :: a in s'.threads ==> a in s.threads && s'.threads[a] == s.threads[a]
    ensures Inv(s')
  {
    forall p | p in s'.links ensures LinkOk(s', p, s'.links[p]) {
      assert LinkOk(s, p, s.links[p]);
    }
    forall a | a in s'.threads ensures ThreadOk(s', s'.threads[a]) {
      assert ThreadOk(s, s.threads[a]);
    }
  }

  lemma DroppedKeepsInv(s: Fs, tid: nat)
    requires Inv(s) && tid in s.threads
    ensures Inv(Dropped(s, tid))
  {
    ShrinkKeepsInv(s, Dropped(s, tid));
  }

  lemma CrashKeepsInv(s: Fs)
    requires Inv(s)
    ensures Inv(ApplyStep(s, Crash))
  {
    var s' := ApplyStep(s, Crash);
    forall p | p in s'.links ensures LinkOk(s', p, s'.links[p]) {
      assert LinkOk(s, p, s.links[p]);
    }
  }

  // The tasks a new temporary could collide with have other numbers.
  ghost predicate Unused(s: Fs, path: Path)
    requires path.BodyTemp? || path.MetaTemp?
  {
    forall a :: a in s.threads && HasNumber(s.threads[a])
                && (path.BodyTemp? ==> s.threads[a].Streaming? || s.threads[a].BodyClosed?)
                && (path.MetaTemp? ==> s.threads[a].MetaDraft? || s.threads[a].MetaReady?)
      ==> s.threads[a].n != path.n
  }

  predicate Fitting(path: Path, content: Inode) {
    (path.BodyTemp? && content.BodyInode?) || (path.MetaTemp? && content.MetaInode?)
  }

  lemma CreateKeepsThread(s: Fs, path: Path, content: Inode, counter: nat, a: nat)
    requires Inv(s) && counter >= s.counter && Fitting(path, content) && Unused(s, path)
    requires a in s.threads
    ensures ThreadOk(CreateFile(s, path, content).(counter := counter), s.threads[a])
    ensures s.threads[a].Streaming? ==> s.threads[a].inode != InodeFor(s, path)
  {
    var t := s.threads[a];
    var s' := CreateFile(s, path, content).(counter := counter);
    assert ThreadOk(s, t);
    if path in s.links { assert LinkOk(s, path, s.links[path]); }
    KnownGrows(s, s', t.slot);
    match t {
      case Streaming(slot, _, n, i) => assert Private(s', i, BodyTemp(slot, n));
      case BodyClosed(slot, _, n, i) => assert Private(s', i, BodyTemp(slot, n));
      case MetaDraft(slot, _, n, i, _) => assert Private(s', i, MetaTemp(slot, n));
      case _ =>
    }
  }

  lemma CreateKeepsLinks(s: Fs, path: Path, content: Inode, counter: nat)
    requires Inv(s) && Fitting(path, content)
    ensures var s' := CreateFile(s, path, content).(counter := counter);
            Bounded(s') && LinksOk(s') && LinksInjective(s') && Private(s', InodeFor(s, path), path)
  {
    var s' := CreateFile(s, path, content).(counter := counter);
    if path in s.links { assert LinkOk(s, path, s.links[path]); }
    forall p | p in s'.links ensures LinkOk(s', p, s'.links[p]) {
      if p != path { assert LinkOk(s, p, s.links[p]); }
    }
    forall p | p in s.links ensures s.links[p] < s.next {
      assert LinkOk(s, p, s.links[p]);
    }
  }

  // Creating a temporary touches no inode another task or name relies on.
  lemma CreateKeepsInv(s: Fs, path: Path, content: Inode, counter: nat)
    requires Inv(s) && counter >= s.counter && Fitting(path, content) && Unused(s, path)
    ensures var s' := CreateFile(s, path, content).(counter := counter);
            && Inv(s')
            && Private(s', InodeFor(s, path), path)
            && (forall a :: a in s.threads && s.threads[a].Streaming?
                  ==> s.threads[a].inode != InodeFor(s, path))
  {
    CreateKeepsLinks(s, path, content, counter);
    var s' := CreateFile(s, path, content).(counter := counter);
    forall a | a in s.threads
      ensures ThreadOk(s', s.threads[a])
      ensures s.threads[a].Streaming? ==> s.threads[a].inode != InodeFor(s, path)
    {
      CreateKeepsThread(s, path, content, counter, a);
    }
  }

  lemma BeginInPlace(s: Fs, tid: nat, slot: Slot, policy: CachePolicy)
    requires Inv(s) && tid !in s.threads && policy.varySnapshot == slot.signature
    ensures Inv(Begun(s, tid, slot, policy))
  {
    var path := BodyTemp(slot, s.counter);
    var i := InodeFor(s, path);
    NumbersBelowCounter(s);
    CreateKeepsInv(s, path, BodyInode([], None), s.counter + 1);
    var mid := CreateFile(s, path, BodyInode([], None)).(counter := s.counter + 1);
    assert mid.inodes[i] == BodyInode([], None);
    assert ThreadOk(mid, Streaming(slot, policy, s.counter, i));
    assert mid.threads == s.threads;
    AddThread(mid, tid, Streaming(slot, policy, s.counter, i));
    assert Begun(s, tid, slot, policy) == Set(mid, tid, Streaming(slot, policy, s.counter, i));
  }

  lemma BeginKeepsInv(s: Fs, tid: nat, key: CacheKey, policy: CachePolicy)
    requires Inv(s)
    ensures Inv(ApplyStep(s, Begin(tid, key, policy)))
  {
    if tid !in s.threads {
      BeginInPlace(s, tid, SlotOf(key, policy), policy);
    }
  }

  // Replacing or adding one task.
  lemma AddThread(s: Fs, tid: nat, t: Thread)
    requires Inv(s) && ThreadOk(s, t)
    requires HasNumber(t) ==>
               forall a :: a in s.threads && a != tid && HasNumber(s.threads[a]) ==> s.threads[a].n != t.n
    requires t.Streaming? ==>
               forall a :: a in s.threads && a != tid && s.threads[a].Streaming?
                 ==> s.threads[a].inode != t.inode
    ensures Inv(Set(s, tid, t))
  {
    var s' := Set(s, tid, t);
    SameFilesSameThread(s, s');
  }

  // Records only accumulate.
  lemma KnownGrows(s: Fs, s': Fs, slot: Slot)
    requires s.closed <= s'.closed && s.refreshed <= s'.refreshed
    ensures forall body :: ClosedBody(s, slot, body) ==> ClosedBody(s', slot, body)
    ensures forall meta :: KnownMeta(s, slot, meta) ==> KnownMeta(s', slot, meta)
    ensures forall len :: ClosedLength(s, slot, len) ==> ClosedLength(s', slot, len)
  {
    assert forall k :: 0 <= k < |s.closed| ==> s'.closed[k] == s.closed[k];
  }

  // Changing the content of an open body inode, with records appended.
  lemma StreamKeepsInv(s: Fs, tid: nat, content: Inode, more: seq<ClosedPut>)
    requires Inv(s) && tid in s.threads && s.threads[tid].Streaming?
    requires content.BodyInode?
    ensures var i := s.threads[tid].inode;
            var s' := s.(inodes := s.inodes[i := content], closed := s.closed + more);
            && Bounded(s') && LinksInjective(s') && LinksOk(s') && TempsDistinct(s') && StreamsDistinct(s')
            && (|more| <= 1 && (more != [] ==> more[0].meta.put == |s.closed|) ==> Numbered(s'))
            && Private(s', i, BodyTemp(s.threads[tid].slot, s.threads[tid].n))
            && (forall a :: a in s'.threads && a != tid ==> ThreadOk(s', s'.threads[a]))
  {
    var t := s.threads[tid];
    var i := t.inode;
    var s' := s.(inodes := s.inodes[i := content], closed := s.closed + more);
    assert ThreadOk(s, t);
    forall p | p in s'.links ensures LinkOk(s', p, s'.links[p]) {
      assert LinkOk(s, p, s.links[p]);
      KnownGrows(s, s', p.slot);
    }
    forall a | a in s'.threads && a != tid ensures ThreadOk(s', s'.threads[a]) {
      var b := s.threads[a];
      assert ThreadOk(s, b);
      KnownGrows(s, s', b.slot);
    }
  }

  lemma WriteKeepsInv(s: Fs, tid: nat, bytes: Bytes)
    requires Inv(s)
    ensures Inv(ApplyStep(s, Write(tid, bytes)))
  {
    if tid in s.threads && s.threads[tid].Streaming? {
      var i := s.threads[tid].inode;
      assert ThreadOk(s, s.threads[tid]);
      StreamKeepsInv(s, tid, BodyInode(s.inodes[i].bytes + bytes, None), []);
      assert s.closed + [] == s.closed;
      var s' := ApplyStep(s, Write(tid, bytes));
      assert ThreadOk(s', s'.threads[tid]);
    }
  }

  // The body closed, its record made, the task still to be moved on.
  function ClosedFile(s: Fs, i: nat, record: ClosedPut): Fs {
    s.(inodes := s.inodes[i := BodyInode(record.bytes, Some(|s.closed|))], closed := s.closed + [record])
  }

  lemma ClosedFileKeepsInv(s: Fs, tid: nat, t: Thread, record: ClosedPut)
    requires Inv(s) && tid in s.threads && s.threads[tid] == t && t.Streaming?
    requires record == ClosedPut(t.slot, Meta(t.policy, record.meta.trailers, |s.closed|), record.bytes)
    ensures var mid := ClosedFile(s, t.inode, record);
            Inv(Exit(mid, tid)) && ThreadOk(Exit(mid, tid), BodyClosed(t.slot, record.meta, t.n, t.inode))
  {
    assert ThreadOk(s, t);
    var mid := ClosedFile(s, t.inode, record);
    StreamKeepsInv(s, tid, BodyInode(record.bytes, Some(|s.closed|)), [record]);
    assert mid.closed[|s.closed|] == record;
    assert ThreadOk(mid, BodyClosed(t.slot, record.meta, t.n, t.inode));
    SameFilesSameThread(mid, Exit(mid, tid));
  }

  lemma CloseKeepsInv(s: Fs, tid: nat, trailers: Option<Headers>)
    requires Inv(s)
    ensures Inv(ApplyStep(s, Close(tid, trailers)))
  {
    if tid in s.threads && s.threads[tid].Streaming? {
      var t := s.threads[tid];
      assert ThreadOk(s, t);
      var record := ClosedPut(t.slot, Meta(t.policy, trailers, |s.closed|), s.inodes[t.inode].bytes);
      ClosedFileKeepsInv(s, tid, t, record);
      var rest := Exit(ClosedFile(s, t.inode, record), tid);
      var after := BodyClosed(t.slot, record.meta, t.n, t.inode);
      AddThread(rest, tid, after);
      assert (s.threads - {tid})[tid := after] == s.threads[tid := after];
    }
  }

  // Task and link conditions do not look at the other tasks.
  lemma SameFilesSameThread(s: Fs, s': Fs)
    requires s' == s.(threads := s'.threads)
    ensures forall t :: ThreadOk(s, t) <==> ThreadOk(s', t)
    ensures LinksOk(s) <==> LinksOk(s')
  {
    forall t
      ensures ThreadOk(s, t) <==> ThreadOk(s', t)
    {
      OneThread(s, s', t);
    }
    forall p, i
      ensures LinkOk(s, p, i) <==> LinkOk(s', p, i)
    {
    }
  }

  lemma OneThread(s: Fs, s': Fs, t: Thread)
    requires s' == s.(threads := s'.threads)
    ensures ThreadOk(s, t) <==> ThreadOk(s', t)
  {
    match t {
      case Streaming(slot, _, n, i) =>
        assert Private(s, i, BodyTemp(slot, n)) <==> Private(s', i, BodyTemp(slot, n));
      case BodyClosed(slot, _, n, i) =>
        assert Private(s, i, BodyTemp(slot, n)) <==> Private(s', i, BodyTemp(slot, n));
      case MetaDraft(slot, _, n, i, _) =>
        assert Private(s, i, MetaTemp(slot, n)) <==> Private(s', i, MetaTemp(slot, n));
      case Measured(slot, _, len) =>
        assert ClosedLength(s, slot, len) <==> ClosedLength(s', slot, len);
      case Reading(slot, _, _, len) =>
        assert ClosedLength(s, slot, len) <==> ClosedLength(s', slot, len);
      case _ =>
    }
  }

  // Renaming a closed body whose temporary no other task uses.
  lemma MoveBodyKeepsInv(s: Fs, slot: Slot, n: nat)
    requires Inv(s) && BodyTemp(slot, n) in s.links
    requires var i := s.links[BodyTemp(slot, n)];
             i in s.inodes && ClosedBody(s, slot, s.inodes[i])
    requires forall a :: a in s.threads && HasNumber(s.threads[a]) ==> s.threads[a].n != n
    ensures Inv(Move(s, BodyTemp(slot, n), BodyFile(slot)))
  {
    var tmp := BodyTemp(slot, n);
    var s' := Move(s, tmp, BodyFile(slot));
    forall p | p in s'.links ensures LinkOk(s', p, s'.links[p]) {
      assert LinkOk(s, if p == BodyFile(slot) then tmp else p, s'.links[p]);
    }
    forall a | a in s'.threads ensures ThreadOk(s', s'.threads[a]) {
      assert ThreadOk(s, s.threads[a]);
    }
  }

  lemma RenameBodyInPlace(s: Fs, tid: nat, t: Thread)
    requires Inv(s) && tid in s.threads && s.threads[tid] == t && t.BodyClosed?
    requires BodyTemp(t.slot, t.n) in s.links
    ensures Inv(BodyRenamed(s, tid, t.slot, t.meta, t.n))
  {
    assert ThreadOk(s, t);
    var rest := Exit(s, tid);
    ShrinkKeepsInv(s, rest);
    MoveBodyKeepsInv(rest, t.slot, t.n);
    AddThread(Move(rest, BodyTemp(t.slot, t.n), BodyFile(t.slot)), tid, BodyIn(t.slot, t.meta, t.n));
    BodyRenamedShape(s, tid, t.slot, t.meta, t.n);
  }

  lemma BodyRenamedShape(s: Fs, tid: nat, slot: Slot, meta: Meta, n: nat)
    requires tid in s.threads && BodyTemp(slot, n) in s.links
    ensures BodyRenamed(s, tid, slot, meta, n)
            == Set(Move(Exit(s, tid), BodyTemp(slot, n), BodyFile(slot)), tid, BodyIn(slot, meta, n))
  {
    assert (s.threads - {tid})[tid := BodyIn(slot, meta, n)] == s.threads[tid := BodyIn(slot, meta, n)];
  }

  lemma RenameBodyKeepsInv(s: Fs, tid: nat)
    requires Inv(s)
    ensures Inv(ApplyStep(s, RenameBody(tid)))
  {
    if tid in s.threads && s.threads[tid].BodyClosed? {
      var t := s.threads[tid];
      if BodyTemp(t.slot, t.n) in s.links {
        RenameBodyInPlace(s, tid, t);
      } else {
        DroppedKeepsInv(s, tid);
      }
    }
  }

  lemma DraftMetaKeepsInv(s: Fs, tid: nat)
    requires Inv(s)
    ensures Inv(ApplyStep(s, DraftMeta(tid)))
  {
    if tid in s.threads && s.threads[tid].BodyIn? {
      var t := s.threads[tid];
      var path := MetaTemp(t.slot, t.n);
      assert ThreadOk(s, t);
      CreateKeepsInv(s, path, MetaInode(t.meta, false), s.counter);
      var mid := CreateFile(s, path, MetaInode(t.meta, false));
      assert mid == mid.(counter := s.counter);
      AddThread(mid, tid, MetaDraft(t.slot, t.meta, t.n, InodeFor(s, path), false));
    }
  }

  // Completing a private metadata inode, seen from the other tasks.
  lemma CompleteKeepsThread(s: Fs, tid: nat, a: nat)
    requires Inv(s) && tid in s.threads && s.threads[tid].MetaDraft? && a in s.threads && a != tid
    ensures var t := s.threads[tid];
            ThreadOk(s.(inodes := s.inodes[t.inode := MetaInode(t.meta, true)]), s.threads[a])
  {
    assert ThreadOk(s, s.threads[tid]) && ThreadOk(s, s.threads[a]);
  }

  lemma CompletedKeepsInv(s: Fs, tid: nat, t: Thread)
    requires Inv(s) && tid in s.threads && s.threads[tid] == t && t.MetaDraft?
    ensures Inv(s.(inodes := s.inodes[t.inode := MetaInode(t.meta, true)]))
  {
    assert ThreadOk(s, t);
    var mid := s.(inodes := s.inodes[t.inode := MetaInode(t.meta, true)]);
    forall p | p in mid.links ensures LinkOk(mid, p, mid.links[p]) {
      assert LinkOk(s, p, s.links[p]);
    }
    forall a | a in mid.threads ensures ThreadOk(mid, mid.threads[a]) {
      if a != tid { CompleteKeepsThread(s, tid, a); }
    }
  }

  lemma CompleteMetaKeepsInv(s: Fs, tid: nat)
    requires Inv(s)
    ensures Inv(ApplyStep(s, CompleteMeta(tid)))
  {
    if tid in s.threads && s.threads[tid].MetaDraft? {
      var t := s.threads[tid];
      assert ThreadOk(s, t);
      var mid := s.(inodes := s.inodes[t.inode := MetaInode(t.meta, true)]);
      CompletedKeepsInv(s, tid, t);
      AddThread(mid, tid, MetaReady(t.slot, t.meta, t.n, t.isRefresh));
    }
  }

  // Renaming a finished metadata temporary that no task owns any more.
  lemma MoveMetaKeepsInv(s: Fs, slot: Slot, n: nat, meta: Meta)
    requires Inv(s) && MetaTemp(slot, n) in s.links && KnownMeta(s, slot, meta)
    requires var i := s.links[MetaTemp(slot, n)]; i in s.inodes && s.inodes[i] == MetaInode(meta, true)
    requires forall a :: a in s.threads && HasNumber(s.threads[a]) ==> s.threads[a].n != n
    ensures Inv(Move(s, MetaTemp(slot, n), MetaFile(slot)))
  {
    var tmp := MetaTemp(slot, n);
    var s' := Move(s, tmp, MetaFile(slot));
    forall p | p in s'.links ensures LinkOk(s', p, s'.links[p]) {
      assert LinkOk(s, if p == MetaFile(slot) then tmp else p, s'.links[p]);
    }
    forall a | a in s'.threads ensures ThreadOk(s', s'.threads[a]) {
      assert ThreadOk(s, s.threads[a]);
    }
  }

  // What a finished metadata rename leaves the task doing.
  function AfterMeta(s: Fs, t: Thread): Thread
    requires t.MetaReady?
  {
    if t.isRefresh then Holding(t.slot, t.meta) else Counting(t.slot, t.meta, Written(s, t.meta))
  }

  lemma RenameMetaShape(s: Fs, tid: nat)
    requires tid in s.threads && s.threads[tid].MetaReady?
    requires MetaTemp(s.threads[tid].slot, s.threads[tid].n) in s.links
    ensures var t := s.threads[tid];
            ApplyStep(s, RenameMeta(tid))
            == Set(Move(Exit(s, tid), MetaTemp(t.slot, t.n), MetaFile(t.slot)), tid, AfterMeta(s, t))
  {
    var t := s.threads[tid];
    assert (s.threads - {tid})[tid := AfterMeta(s, t)] == s.threads[tid := AfterMeta(s, t)];
  }

  lemma RenameMetaInPlace(s: Fs, tid: nat, t: Thread)
    requires Inv(s) && tid in s.threads && s.threads[tid] == t && t.MetaReady?
    requires MetaTemp(t.slot, t.n) in s.links
    ensures Inv(Set(Move(Exit(s, tid), MetaTemp(t.slot, t.n), MetaFile(t.slot)), tid, AfterMeta(s, t)))
  {
    assert ThreadOk(s, t);
    var rest := Exit(s, tid);
    ShrinkKeepsInv(s, rest);
    MoveMetaKeepsInv(rest, t.slot, t.n, t.meta);
    AddThread(Move(rest, MetaTemp(t.slot, t.n), MetaFile(t.slot)), tid, AfterMeta(s, t));
  }

  lemma RenameMetaKeepsInv(s: Fs, tid: nat)
    requires Inv(s)
    ensures Inv(ApplyStep(s, RenameMeta(tid)))
  {
    if tid in s.threads && s.threads[tid].MetaReady? {
      var t := s.threads[tid];
      if MetaTemp(t.slot, t.n) in s.links {
        RenameMetaShape(s, tid);
        RenameMetaInPlace(s, tid, t);
      } else {
        DroppedKeepsInv(s, tid);
      }
    }
  }

  // The index is no part of the invariant.
  lemma IndexIsFree(s: Fs, index: map<Slot, Count>)
    requires Inv(s)
    ensures Inv(s.(index := index))
  {
    var s' := s.(index := index);
    forall p | p in s'.links ensures LinkOk(s', p, s'.links[p]) {
      assert LinkOk(s, p, s.links[p]);
    }
    forall a | a in s'.threads ensures ThreadOk(s', s'.threads[a]) {
      var t := s.threads[a];
      assert ThreadOk(s, t);
      KnownGrows(s, s', t.slot);
    }
  }

  lemma InsertShape(s: Fs, tid: nat)
    requires tid in s.threads
    ensures ApplyStep(s, Insert(tid))
            == var t := s.threads[tid];
               if t.Counting? then Inserted(s, tid, t.slot, Count(t.len, t.meta.put)) else s
  {
  }

  lemma InsertKeepsInv(s: Fs, tid: nat)
    requires Inv(s)
    ensures Inv(ApplyStep(s, Insert(tid)))
  {
    if tid in s.threads { InsertShape(s, tid); }
    if tid in s.threads && s.threads[tid].Counting? {
      InsertedKeepsInv(s, tid, s.threads[tid].slot, Count(s.threads[tid].len, s.threads[tid].meta.put));
    }
  }

  lemma InsertedKeepsInv(s: Fs, tid: nat, slot: Slot, count: Count)
    requires Inv(s)
    ensures Inv(Inserted(s, tid, slot, count))
  {
    ShrinkKeepsInv(s, Exit(s, tid));
    IndexIsFree(Exit(s, tid), s.index[slot := count]);
  }

  lemma RefreshInPlace(s: Fs, tid: nat, t: Thread, policy: CachePolicy)
    requires Inv(s) && tid in s.threads && s.threads[tid] == t && t.Holding?
    requires policy.varySnapshot == t.slot.signature
    ensures Inv(RefreshBegun(s, tid, t.slot, t.meta.(policy := policy)))
  {
    var path, renewed := MetaTemp(t.slot, s.counter), t.meta.(policy := policy);
    assert ThreadOk(s, t);
    NumbersBelowCounter(s);
    CreateKeepsInv(s, path, MetaInode(renewed, false), s.counter + 1);
    var mid := CreateFile(s, path, MetaInode(renewed, false)).(counter := s.counter + 1);
    var marked := mid.(refreshed := s.refreshed + {t.meta.put});
    MarkKeepsInv(mid, marked);
    var draft := MetaDraft(t.slot, renewed, s.counter, InodeFor(s, path), true);
    assert Private(marked, InodeFor(s, path), path) by {
      assert Private(mid, InodeFor(s, path), path);
    }
    assert ThreadOk(marked, draft);
    AddThread(marked, tid, draft);
    assert RefreshBegun(s, tid, t.slot, renewed) == Set(marked, tid, draft);
  }

  lemma NumbersBelowCounter(s: Fs)
    requires Inv(s)
    ensures forall a :: a in s.threads && HasNumber(s.threads[a]) ==> s.threads[a].n < s.counter
  {
    forall a | a in s.threads && HasNumber(s.threads[a]) ensures s.threads[a].n < s.counter {
      assert ThreadOk(s, s.threads[a]);
    }
  }

  lemma BeginRefreshShape(s: Fs, tid: nat, policy: CachePolicy)
    requires tid in s.threads
    ensures ApplyStep(s, BeginRefresh(tid, policy))
            == var t := s.threads[tid];
               if t.Holding? && policy.varySnapshot == t.slot.signature
               then RefreshBegun(s, tid, t.slot, t.meta.(policy := policy)) else s
  {
  }

  lemma BeginRefreshKeepsInv(s: Fs, tid: nat, policy: CachePolicy)
    requires Inv(s)
    ensures Inv(ApplyStep(s, BeginRefresh(tid, policy)))
  {
    if tid in s.threads {
      BeginRefreshShape(s, tid, policy);
      var t := s.threads[tid];
      if t.Holding? && policy.varySnapshot == t.slot.signature {
        RefreshInPlace(s, tid, t, policy);
      }
    }
  }

  lemma MarkKeepsInv(s: Fs, s': Fs)
    requires Inv(s)
    requires s' == s.(refreshed := s'.refreshed) && s.refreshed <= s'.refreshed
    ensures Inv(s')
  {
    forall p | p in s'.links ensures LinkOk(s', p, s'.links[p]) {
      assert LinkOk(s, p, s.links[p]);
      KnownGrows(s, s', p.slot);
    }
    forall a | a in s'.threads ensures ThreadOk(s', s'.threads[a]) {
      var t := s.threads[a];
      assert ThreadOk(s, t);
      KnownGrows(s, s', t.slot);
    }
  }

  lemma ReadMetaKeepsInv(s: Fs, tid: nat, slot: Slot)
    requires Inv(s)
    ensures Inv(ApplyStep(s, ReadMeta(tid, slot)))
  {
    if tid !in s.threads && MetaFile(slot) in s.links {
      var i := s.links[MetaFile(slot)];
      assert LinkOk(s, MetaFile(slot), i);
      AddThread(s, tid, Holding(slot, s.inodes[i].meta));
    }
  }

  lemma MeasureKeepsInv(s: Fs, tid: nat)
    requires Inv(s)
    ensures Inv(ApplyStep(s, MeasureBody(tid)))
  {
    if tid in s.threads && s.threads[tid].Holding? {
      var t := s.threads[tid];
      assert ThreadOk(s, t);
      if BodyAt(s, t.slot).Some? {
        var i := s.links[BodyFile(t.slot)];
        assert LinkOk(s, BodyFile(t.slot), i);
        assert ClosedLength(s, t.slot, |s.inodes[i].bytes|);
        AddThread(s, tid, Measured(t.slot, t.meta, |s.inodes[i].bytes|));
      } else {
        DroppedKeepsInv(s, tid);
      }
    }
  }

  lemma OpenKeepsInv(s: Fs, tid: nat)
    requires Inv(s)
    ensures Inv(ApplyStep(s, OpenBody(tid)))
  {
    if tid in s.threads && s.threads[tid].Measured? {
      var t := s.threads[tid];
      assert ThreadOk(s, t);
      if BodyFile(t.slot) in s.links {
        var i := s.links[BodyFile(t.slot)];
        assert LinkOk(s, BodyFile(t.slot), i);
        AddThread(s, tid, Reading(t.slot, t.meta, i, t.len));
      } else {
        DroppedKeepsInv(s, tid);
      }
    }
  }

  lemma StepKeepsInv(s: Fs, step: Step)
    requires Inv(s)
    ensures Inv(ApplyStep(s, step))
  {
    match step
    case Begin(tid, key, policy) => BeginKeepsInv(s, tid, key, policy);
    case Write(tid, bytes) => WriteKeepsInv(s, tid, bytes);
    case Close(tid, trailers) => CloseKeepsInv(s, tid, trailers);
    case RenameBody(tid) => RenameBodyKeepsInv(s, tid);
    case DraftMeta(tid) => DraftMetaKeepsInv(s, tid);
    case CompleteMeta(tid) => CompleteMetaKeepsInv(s, tid);
    case RenameMeta(tid) => RenameMetaKeepsInv(s, tid);
    case Insert(tid) => InsertKeepsInv(s, tid);
    case BeginRefresh(tid, policy) => BeginRefreshKeepsInv(s, tid, policy);
    case ReadMeta(tid, slot) => ReadMetaKeepsInv(s, tid, slot);
    case MeasureBody(tid) => MeasureKeepsInv(s, tid);
    case OpenBody(tid) => OpenKeepsInv(s, tid);
    case Drop(tid) => if tid in s.threads { DroppedKeepsInv(s, tid); }
    case Remove(path) => ShrinkKeepsInv(s, Unlink(s, path));
    case Unindex(slot) => IndexIsFree(s, s.index - {slot});
    case Crash => CrashKeepsInv(s);
  }

  lemma {:induction false} RunKeepsInv(steps: seq<Step>)
    ensures Inv(Run(EMPTY, steps))
  {
    if steps != [] {
      RunKeepsInv(steps[..|steps| - 1]);
      StepKeepsInv(Run(EMPTY, steps[..|steps| - 1]), steps[|steps| - 1]);
    }
  }

  // ---- What readers see ----

  // In every interleaving and after any crash, an open body is the complete
  // bytes of one closed put for the slot that was asked for, the metadata is
  // that of a put for the same slot, possibly refreshed, and the announced
  // length that of a put for the same slot.
  lemma OpenBodyIsComplete(steps: seq<Step>, tid: nat)
    requires var s := Run(EMPTY, steps); tid in s.threads && s.threads[tid].Reading?
    ensures var s := Run(EMPTY, steps);
            var t := s.threads[tid];
            && t.inode in s.inodes && ClosedBody(s, t.slot, s.inodes[t.inode])
            && KnownMeta(s, t.slot, t.meta)
            && ClosedLength(s, t.slot, t.len)
  {
    RunKeepsInv(steps);
    var s := Run(EMPTY, steps);
    assert ThreadOk(s, s.threads[tid]);
  }

  // A first write is all or nothing: while a slot has had one closed put and
  // no refresh, whoever reads it reads that put's policy, trailers and body.
  lemma FirstWriteIsAtomic(steps: seq<Step>, tid: nat, k: nat)
    requires var s := Run(EMPTY, steps);
             && tid in s.threads && s.threads[tid].Reading?
             && k < |s.closed|
             && (forall j :: 0 <= j < |s.closed| && s.closed[j].slot == s.threads[tid].slot ==> j == k)
             && k !in s.refreshed
    ensures var s := Run(EMPTY, steps);
            var t := s.threads[tid];
            && t.inode in s.inodes && s.inodes[t.inode].BodyInode?
            && s.closed[k] == ClosedPut(t.slot, t.meta, s.inodes[t.inode].bytes)
            && t.len == |s.inodes[t.inode].bytes|
  {
    OpenBodyIsComplete(steps, tid);
    RunKeepsInv(steps);
  }

  // No two live tasks share a temporary file.
  lemma LiveTemporariesDiffer(steps: seq<Step>, a: nat, b: nat)
    requires var s := Run(EMPTY, steps);
             && a in s.threads && b in s.threads && a != b
             && HasNumber(s.threads[a]) && HasNumber(s.threads[b])
    ensures var s := Run(EMPTY, steps); s.threads[a].n != s.threads[b].n
  {
    RunKeepsInv(steps);
  }

  // ---- The metadata file as commit marker ----

  predicate PastBodyRename(t: Thread) {
    t.BodyIn? || t.MetaDraft? || t.MetaReady? || t.Holding?
  }

  ghost predicate MarkerOk(s: Fs, slot: Slot) {
    && (MetaFile(slot) in s.links ==> BodyFile(slot) in s.links)
    && forall a :: a in s.threads && s.threads[a].slot == slot && PastBodyRename(s.threads[a])
         ==> BodyFile(slot) in s.links
  }

  lemma RenameKeepsMarker(s: Fs, step: Step, tid: nat, t: Thread, slot: Slot)
    requires MarkerOk(s, slot) && tid in s.threads && s.threads[tid] == t
    requires step.RenameBody? || step.RenameMeta?
    ensures MarkerOk(StepThread(s, step, tid, t), slot)
  {
  }

  lemma DraftKeepsMarker(s: Fs, step: Step, tid: nat, t: Thread, slot: Slot)
    requires MarkerOk(s, slot) && tid in s.threads && s.threads[tid] == t
    requires step.DraftMeta? || step.BeginRefresh?
    ensures MarkerOk(StepThread(s, step, tid, t), slot)
  {
  }

  lemma ThreadKeepsMarker(s: Fs, step: Step, tid: nat, t: Thread, slot: Slot)
    requires MarkerOk(s, slot) && tid in s.threads && s.threads[tid] == t
    ensures MarkerOk(StepThread(s, step, tid, t), slot)
  {
    if step.RenameBody? || step.RenameMeta? {
      RenameKeepsMarker(s, step, tid, t, slot);
    } else if step.DraftMeta? || step.BeginRefresh? {
      DraftKeepsMarker(s, step, tid, t, slot);
    }
  }

  lemma StepKeepsMarker(s: Fs, step: Step, slot: Slot)
    requires MarkerOk(s, slot) && step != Remove(BodyFile(slot))
    ensures MarkerOk(ApplyStep(s, step), slot)
  {
    match step
    case Begin(_, _, _) =>
    case ReadMeta(_, _) =>
    case Remove(_) =>
    case Unindex(_) =>
    case Crash =>
    case _ => if step.tid in s.threads { ThreadKeepsMarker(s, step, step.tid, s.threads[step.tid], slot); }
  }

  // Unless its body is deleted, an entry that can be looked up can be opened:
  // no reader ever sees a half-committed put, whatever crashes.
  lemma {:induction false} VisibleImpliesOpenable(steps: seq<Step>, slot: Slot)
    requires forall i :: 0 <= i < |steps| ==> steps[i] != Remove(BodyFile(slot))
    ensures MarkerOk(Run(EMPTY, steps), slot)
  {
    if steps != [] {
      VisibleImpliesOpenable(steps[..|steps| - 1], slot);
      StepKeepsMarker(Run(EMPTY, steps[..|steps| - 1]), steps[|steps| - 1], slot);
    }
  }

  // ---- Whether metadata and body belong together ----

  function MetaAt(s: Fs, slot: Slot): Option<Meta> {
    var p := MetaFile(slot);
    if p in s.links && s.links[p] in s.inodes && s.inodes[s.links[p]].MetaInode?
    then Some(s.inodes[s.links[p]].meta) else None
  }

  predicate ActsOn(s: Fs, step: Step, slot: Slot) {
    (step.RenameBody? || step.RenameMeta?)
    && step.tid in s.threads && s.threads[step.tid].slot == slot
  }

  // A name stays and leads where it led.
  predicate SameLink(s: Fs, s': Fs, p: Path) {
    (p in s.links <==> p in s'.links) && (p in s.links ==> s'.links[p] == s.links[p])
  }

  lemma ThreadLinksKept(s: Fs, step: Step, tid: nat, t: Thread, slot: Slot)
    requires tid in s.threads && s.threads[tid] == t
    requires step.RenameBody? || step.RenameMeta? ==> t.slot != slot
    ensures SameLink(s, StepThread(s, step, tid, t), BodyFile(slot))
    ensures SameLink(s, StepThread(s, step, tid, t), MetaFile(slot))
  {
  }

  lemma FinalLinksKept(s: Fs, step: Step, slot: Slot)
    requires !ActsOn(s, step, slot)
    ensures step != Remove(BodyFile(slot)) ==> SameLink(s, ApplyStep(s, step), BodyFile(slot))
    ensures step != Remove(MetaFile(slot)) ==> SameLink(s, ApplyStep(s, step), MetaFile(slot))
  {
    match step
    case Begin(_, _, _) =>
    case ReadMeta(_, _) =>
    case Remove(_) =>
    case Unindex(_) =>
    case Crash =>
    case _ => if step.tid in s.threads { ThreadLinksKept(s, step, step.tid, s.threads[step.tid], slot); }
  }

  lemma NotTheTemporary(s: Fs, p: Path, temp: Path)
    requires Inv(s) && p in s.links && p != temp
    ensures InodeFor(s, temp) != s.links[p]
  {
    assert LinkOk(s, p, s.links[p]);
  }

  // A task writes only to an inode of its own.
  lemma ThreadWritesOwn(s: Fs, step: Step, tid: nat, t: Thread, i: nat)
    requires tid in s.threads && s.threads[tid] == t && i in s.inodes
    requires t.Streaming? || t.MetaDraft? ==> t.inode != i
    requires t.BodyIn? ==> InodeFor(s, MetaTemp(t.slot, t.n)) != i
    requires t.Holding? ==> InodeFor(s, MetaTemp(t.slot, s.counter)) != i
    ensures i in StepThread(s, step, tid, t).inodes && StepThread(s, step, tid, t).inodes[i] == s.inodes[i]
  {
  }

  lemma ThreadKeepsFinal(s: Fs, step: Step, tid: nat, t: Thread, p: Path)
    requires Inv(s) && p in s.links && (p.BodyFile? || p.MetaFile?) && tid in s.threads && s.threads[tid] == t
    ensures var i := s.links[p];
            && i in s.inodes && i in StepThread(s, step, tid, t).inodes
            && StepThread(s, step, tid, t).inodes[i] == s.inodes[i]
  {
    assert LinkOk(s, p, s.links[p]);
    assert ThreadOk(s, t);
    if t.BodyIn? { NotTheTemporary(s, p, MetaTemp(t.slot, t.n)); }
    if t.Holding? { NotTheTemporary(s, p, MetaTemp(t.slot, s.counter)); }
    ThreadWritesOwn(s, step, tid, t, s.links[p]);
  }

  lemma BegunKeepsFinal(s: Fs, tid: nat, slot: Slot, policy: CachePolicy, p: Path)
    requires Inv(s) && p in s.links && (p.BodyFile? || p.MetaFile?)
    ensures var i := s.links[p];
            && i in s.inodes && i in Begun(s, tid, slot, policy).inodes
            && Begun(s, tid, slot, policy).inodes[i] == s.inodes[i]
  {
    assert LinkOk(s, p, s.links[p]);
    NotTheTemporary(s, p, BodyTemp(slot, s.counter));
  }

  // The inode behind a committed name is never written again.
  lemma FinalInodeKept(s: Fs, step: Step, p: Path)
    requires Inv(s) && p in s.links && (p.BodyFile? || p.MetaFile?)
    ensures var i := s.links[p];
            i in s.inodes && i in ApplyStep(s, step).inodes && ApplyStep(s, step).inodes[i] == s.inodes[i]
  {
    assert LinkOk(s, p, s.links[p]);
    match step
    case Begin(tid, key, policy) => BegunKeepsFinal(s, tid, SlotOf(key, policy), policy, p);
    case ReadMeta(_, _) =>
    case Remove(_) =>
    case Unindex(_) =>
    case Crash =>
    case _ => if step.tid in s.threads { ThreadKeepsFinal(s, step, step.tid, s.threads[step.tid], p); }
  }

  // What a lookup finds changes only by a rename for that slot or a deletion.
  lemma OnlyRenamesChange(s: Fs, step: Step, slot: Slot)
    requires Inv(s) && !ActsOn(s, step, slot)
    ensures step != Remove(BodyFile(slot)) ==> BodyAt(ApplyStep(s, step), slot) == BodyAt(s, slot)
    ensures step != Remove(MetaFile(slot)) ==> MetaAt(ApplyStep(s, step), slot) == MetaAt(s, slot)
  {
    FinalLinksKept(s, step, slot);
    if BodyFile(slot) in s.links { FinalInodeKept(s, step, BodyFile(slot)); }
    if MetaFile(slot) in s.links { FinalInodeKept(s, step, MetaFile(slot)); }
  }

  // Nothing is renamed into the slot and its body is not deleted.
  ghost predicate Untouched(s: Fs, steps: seq<Step>, slot: Slot) {
    forall i :: 0 <= i < |steps| ==>
      !ActsOn(Run(s, steps[..i]), steps[i], slot) && steps[i] != Remove(BodyFile(slot))
  }

  lemma {:induction false} UntouchedKeepsBody(s: Fs, steps: seq<Step>, slot: Slot)
    requires Inv(s) && Untouched(s, steps, slot)
    ensures Inv(Run(s, steps)) && BodyAt(Run(s, steps), slot) == BodyAt(s, slot)
  {
    if steps != [] {
      var n := |steps| - 1;
      var before := steps[..n];
      assert forall i :: 0 <= i < n ==> before[..i] == steps[..i] && before[i] == steps[i];
      UntouchedKeepsBody(s, before, slot);
      StepKeepsInv(Run(s, before), steps[n]);
      OnlyRenamesChange(Run(s, before), steps[n], slot);
    }
  }

  // Otherwise the length is true: whatever the other tasks do in between, a
  // reader whose slot is left alone opens the body it measured.
  lemma UntouchedOpenIsMeasured(s: Fs, r: nat, m: Thread, steps: seq<Step>, bytes: Bytes)
    requires Inv(s) && m.Measured? && BodyAt(s, m.slot) == Some(bytes) && m.len == |bytes|
    requires r in s.threads && s.threads[r] == m && Untouched(s, steps, m.slot)
    requires r in Run(s, steps).threads && Run(s, steps).threads[r] == m
    ensures var s' := ApplyStep(Run(s, steps), OpenBody(r));
            && BodyFile(m.slot) in s'.links
            && var i := s'.links[BodyFile(m.slot)];
            && r in s'.threads && s'.threads[r] == Reading(m.slot, m.meta, i, |bytes|)
            && i in s'.inodes && s'.inodes[i].BodyInode? && s'.inodes[i].bytes == bytes
  {
    UntouchedKeepsBody(s, steps, m.slot);
    OpenInPlace(Run(s, steps), r, m, bytes);
  }

  lemma OpenInPlace(s: Fs, r: nat, m: Thread, bytes: Bytes)
    requires r in s.threads && s.threads[r] == m && m.Measured?
    requires BodyAt(s, m.slot) == Some(bytes) && m.len == |bytes|
    ensures ApplyStep(s, OpenBody(r))
            == Set(s, r, Reading(m.slot, m.meta, s.links[BodyFile(m.slot)], |bytes|))
  {
  }
}
