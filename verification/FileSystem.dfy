/** The file-system backend run without interleaving: temporary files, renames,
    the capacity index, and its agreement with the in-memory backend. Hashes are
    taken as collision-free, so a directory is a key and a file stem a Vary
    signature; the metadata codec is taken as lossless. */
module FileSystem {
  import opened Wrappers
  import opened Http
  import opened Policy
  import opened Storage
  import Memory

  datatype Path =
    | BodyFile(slot: Slot)
    | MetaFile(slot: Slot)
    | BodyTemp(slot: Slot, n: nat)
    | MetaTemp(slot: Slot, n: nat)

  datatype File =
    | BodyBytes(bytes: Bytes)
    | MetaRecord(policy: PolicyRepr, trailers: Option<Headers>)

  type Files = map<Path, File>
  type Index = map<Slot, nat>

  datatype Disk = Disk(files: Files, index: Index, counter: nat)

  function Length(f: File): nat {
    if f.BodyBytes? then |f.bytes| else 0
  }

  function Rename(files: Files, from: Path, to: Path): Files
    requires from in files
  {
    (files - {from})[to := files[from]]
  }

  // ---- Effect of each operation on the disk ----

  function Create(d: Disk, slot: Slot): Disk {
    d.(files := d.files[BodyTemp(slot, d.counter) := BodyBytes([])], counter := d.counter + 1)
  }

  function Append(d: Disk, slot: Slot, n: nat, bytes: Bytes): Disk {
    var tmp := BodyTemp(slot, n);
    if tmp in d.files && d.files[tmp].BodyBytes?
    then d.(files := d.files[tmp := BodyBytes(d.files[tmp].bytes + bytes)]) else d
  }

  // Body rename, metadata to a temporary, metadata rename, index.
  function Commit(d: Disk, slot: Slot, n: nat, meta: File, written: nat): Disk {
    if BodyTemp(slot, n) !in d.files then d
    else
      var files := Rename(d.files, BodyTemp(slot, n), BodyFile(slot));
      var files := files[MetaTemp(slot, n) := meta];
      var files := Rename(files, MetaTemp(slot, n), MetaFile(slot));
      d.(files := files, index := d.index[slot := written])
  }

  function Discard(d: Disk, slot: Slot, n: nat): Disk {
    d.(files := d.files - {BodyTemp(slot, n)})
  }

  function RewriteMeta(d: Disk, slot: Slot, meta: File): Disk {
    var tmp := MetaTemp(slot, d.counter);
    d.(files := Rename(d.files[tmp := meta], tmp, MetaFile(slot)), counter := d.counter + 1)
  }

  function MetaSlots(files: Files): set<Slot> {
    set p | p in files && p.MetaFile? :: p.slot
  }

  function RemoveKey(d: Disk, key: CacheKey): Disk {
    Disk(map p | p in d.files && p.slot.key != key :: d.files[p],
         d.index - (set s | s in MetaSlots(d.files) && s.key == key),
         d.counter)
  }

  function RemoveVariant(d: Disk, slot: Slot): Disk {
    d.(files := d.files - {MetaFile(slot), BodyFile(slot)}, index := d.index - {slot})
  }

  // The index a scan of the directory builds: every variant that has both its
  // files, with the length of its body.
  function ScanIndex(files: Files): Index {
    map s | s in MetaSlots(files) && BodyFile(s) in files :: Length(files[BodyFile(s)])
  }

  // ---- The backend objects ----

  // What `get` returns: metadata read, body still on disk.
  datatype StoredEntry = StoredEntry(slot: Slot, policy: CachePolicy, trailers: Option<Headers>)

  function ReadMeta(lib: Library, files: Files, slot: Slot): Option<StoredEntry> {
    if MetaFile(slot) in files && files[MetaFile(slot)].MetaRecord? then
      var meta := files[MetaFile(slot)];
      Some(StoredEntry(slot, FromRepr(lib, meta.policy), meta.trailers))
    else None
  }

  class FileSystemStorage {
    var files: Files
    var index: Index
    var counter: nat

    ghost function View(): Disk
      reads this
    {
      Disk(files, index, counter)
    }

    // Open over an existing directory; the counter starts again at zero.
    constructor (files: Files)
      ensures View() == Disk(files, ScanIndex(files), 0)
    {
      this.files := files;
      counter := 0;
      index := map[];
      new;
      ScanRoot();
    }

    // Walk the key directories and their files, in any order.
    method ScanRoot()
      requires index == map[]
      modifies this`index
      ensures index == ScanIndex(files)
    {
      var dirs := set p | p in files :: p.slot.key;
      while dirs != {}
        invariant forall s :: s in index <==> s.key !in dirs && MetaFile(s) in files && BodyFile(s) in files
        invariant forall s :: s in index ==> index[s] == Length(files[BodyFile(s)])
        decreases |dirs|
      {
        var key :| key in dirs;
        ScanDirectory(key);
        dirs := dirs - {key};
      }
      IndexFacts(files);
      assert index == ScanIndex(files);
    }

    method ScanDirectory(key: CacheKey)
      requires forall s :: s in index ==> s.key != key
      modifies this`index
      ensures forall s :: s in index <==>
                s in old(index) || (s.key == key && MetaFile(s) in files && BodyFile(s) in files)
      ensures forall s :: s in old(index) ==> index[s] == old(index)[s]
      ensures forall s :: s in index && s.key == key ==> index[s] == Length(files[BodyFile(s)])
    {
      var paths := set p | p in files && p.slot.key == key;
      while paths != {}
        invariant paths <= set p | p in files && p.slot.key == key
        invariant forall s :: s in index <==>
                    s in old(index) || (s.key == key && MetaFile(s) in files && MetaFile(s) !in paths
                                        && BodyFile(s) in files)
        invariant forall s :: s in old(index) ==> index[s] == old(index)[s]
        invariant forall s :: s in index && s.key == key ==>
                    BodyFile(s) in files && index[s] == Length(files[BodyFile(s)])
        decreases |paths|
      {
        var path :| path in paths;
        paths := paths - {path};
        if !path.MetaFile? { continue; }
        var body := BodyFile(path.slot);
        if body !in files { continue; }
        index := index[path.slot := Length(files[body])];
      }
    }

    method Fetch(lib: Library, key: CacheKey) returns (entries: seq<StoredEntry>)
      ensures forall e :: e in entries <==> e.slot.key == key && ReadMeta(lib, files, e.slot) == Some(e)
      ensures forall i, j :: 0 <= i < j < |entries| ==> entries[i].slot != entries[j].slot
    {
      entries := [];
      var paths := set p | p in files && p.slot.key == key;
      while paths != {}
        invariant paths <= set p | p in files && p.slot.key == key
        invariant forall e :: e in entries <==>
                    && e.slot.key == key
                    && MetaFile(e.slot) !in paths
                    && ReadMeta(lib, files, e.slot) == Some(e)
        invariant forall i, j :: 0 <= i < j < |entries| ==> entries[i].slot != entries[j].slot
        decreases |paths|
      {
        var path :| path in paths;
        paths := paths - {path};
        if !path.MetaFile? { continue; }
        var read := ReadMeta(lib, files, path.slot);
        if read.None? { continue; }
        entries := entries + [read.value];
      }
    }

    method Open(entry: StoredEntry) returns (body: Option<Bytes>)
      ensures body.Some? <==> BodyFile(entry.slot) in files && files[BodyFile(entry.slot)].BodyBytes?
      ensures body.Some? ==> body.value == files[BodyFile(entry.slot)].bytes
    {
      var path := BodyFile(entry.slot);
      if path !in files || !files[path].BodyBytes? { return None; }
      body := Some(files[path].bytes);
    }

    method Put(key: CacheKey, policy: CachePolicy) returns (handle: FsPutHandle)
      modifies this
      ensures fresh(handle) && handle.storage == this
      ensures handle.slot == SlotOf(key, policy) && handle.policy == policy
      ensures handle.n == old(counter) && handle.written == 0 && !handle.committed
      ensures View() == Create(old(View()), handle.slot)
      ensures handle.Valid()
    {
      var slot := SlotOf(key, policy);
      var n := counter;
      counter := counter + 1;
      files := files[BodyTemp(slot, n) := BodyBytes([])];
      handle := new FsPutHandle(this, slot, n, policy);
    }

    method RefreshPolicy(entry: StoredEntry, policy: CachePolicy)
      modifies this
      ensures View() == RewriteMeta(old(View()), entry.slot, MetaRecord(ToRepr(policy), entry.trailers))
    {
      var tmp := MetaTemp(entry.slot, counter);
      counter := counter + 1;
      files := files[tmp := MetaRecord(ToRepr(policy), entry.trailers)];
      files := Rename(files, tmp, MetaFile(entry.slot));
    }

    method Invalidate(key: CacheKey)
      modifies this
      ensures View() == RemoveKey(old(View()), key)
    {
      var paths := set p | p in files && p.slot.key == key;
      while paths != {}
        invariant paths <= set p | p in files && p.slot.key == key
        invariant index == old(index) - set s | s in MetaSlots(files) && s.key == key
                                                && MetaFile(s) !in paths
        invariant files == old(files) && counter == old(counter)
        decreases |paths|
      {
        var path :| path in paths;
        paths := paths - {path};
        if path.MetaFile? {
          index := index - {path.slot};
        }
      }
      files := map p | p in files && p.slot.key != key :: files[p];
    }

    // The eviction listener, for a victim the index chose.
    method Evicted(victim: Slot)
      modifies this
      ensures View() == RemoveVariant(old(View()), victim)
    {
      index := index - {victim};
      files := files - {MetaFile(victim)};
      files := files - {BodyFile(victim)};
    }
  }

  class FsPutHandle {
    const storage: FileSystemStorage
    const slot: Slot
    const n: nat
    const policy: CachePolicy
    var written: nat
    var committed: bool

    constructor (storage: FileSystemStorage, slot: Slot, n: nat, policy: CachePolicy)
      ensures this.storage == storage && this.slot == slot && this.n == n && this.policy == policy
      ensures written == 0 && !committed
    {
      this.storage, this.slot, this.n, this.policy := storage, slot, n, policy;
      written, committed := 0, false;
    }

    // The temporary is there and the count is its length.
    ghost predicate Valid()
      reads this, storage
    {
      var tmp := BodyTemp(slot, n);
      tmp in storage.files && storage.files[tmp].BodyBytes? && written == |storage.files[tmp].bytes|
    }

    method Write(bytes: Bytes)
      requires Valid()
      modifies this`written, storage`files
      ensures Valid() && written == old(written) + |bytes|
      ensures storage.View() == Append(old(storage.View()), slot, n, bytes)
    {
      var tmp := BodyTemp(slot, n);
      storage.files := storage.files[tmp := BodyBytes(storage.files[tmp].bytes + bytes)];
      written := written + |bytes|;
    }

    // False when the temporary is gone, as after an invalidation.
    method Finalize(trailers: Option<Headers>) returns (ok: bool)
      modifies this`committed, storage
      ensures ok <==> BodyTemp(slot, n) in old(storage.files)
      ensures committed == (ok || old(committed))
      ensures storage.View()
              == Commit(old(storage.View()), slot, n, MetaRecord(ToRepr(policy), trailers), written)
    {
      if BodyTemp(slot, n) !in storage.files { return false; }
      storage.files := Rename(storage.files, BodyTemp(slot, n), BodyFile(slot));
      storage.files := storage.files[MetaTemp(slot, n) := MetaRecord(ToRepr(policy), trailers)];
      storage.files := Rename(storage.files, MetaTemp(slot, n), MetaFile(slot));
      storage.index := storage.index[slot := written];
      committed := true;
      ok := true;
    }

    method Drop()
      modifies storage`files
      ensures storage.View()
              == if committed then old(storage.View()) else Discard(old(storage.View()), slot, n)
    {
      if !committed {
        storage.files := storage.files - {BodyTemp(slot, n)};
      }
    }
  }

  // ---- Completed operations, evictions and late refreshes ----

  datatype DiskOp =
    | Completed(op: Op)
    | Evict(victim: Slot)
    | LateRefresh(slot: Slot, policy: CachePolicy, trailers: Option<Headers>)

  function PutDisk(d: Disk, slot: Slot, entry: Entry): Disk {
    var open := Append(Create(d, slot), slot, d.counter, entry.body);
    Commit(open, slot, d.counter, MetaRecord(ToRepr(entry.policy), entry.trailers), |entry.body|)
  }

  function Step(d: Disk, op: Op): Disk {
    match op
    case PutEntry(key, entry) => PutDisk(d, SlotOf(key, entry.policy), entry)
    case DropPut(key, policy, partial) =>
      var slot := SlotOf(key, policy);
      Discard(Append(Create(d, slot), slot, d.counter, partial), slot, d.counter)
    case RefreshEntry(key, policy) =>
      var slot := SlotOf(key, policy);
      if MetaFile(slot) in d.files && d.files[MetaFile(slot)].MetaRecord?
      then RewriteMeta(d, slot, MetaRecord(ToRepr(policy), d.files[MetaFile(slot)].trailers)) else d
    case InvalidateKey(key) => RemoveKey(d, key)
  }

  // An eviction victim is an indexed variant; a late refresh goes through a
  // handle whose variant may be gone.
  function StepDisk(d: Disk, op: DiskOp): Disk {
    match op
    case Completed(op) => Step(d, op)
    case Evict(victim) => if victim in d.index then RemoveVariant(d, victim) else d
    case LateRefresh(slot, policy, trailers) =>
      RewriteMeta(d, slot, MetaRecord(ToRepr(policy), trailers))
  }

  function StepDiskAll(ops: seq<DiskOp>): Disk {
    if ops == [] then Disk(map[], map[], 0)
    else StepDisk(StepDiskAll(ops[..|ops| - 1]), ops[|ops| - 1])
  }

  predicate Tidy(files: Files) {
    forall p :: p in files ==>
      && (p.BodyFile? || p.MetaFile?)
      && (p.BodyFile? ==> files[p].BodyBytes? && MetaFile(p.slot) in files)
      && (p.MetaFile? ==> files[p].MetaRecord?)
  }

  lemma PutFiles(d: Disk, slot: Slot, entry: Entry)
    requires Tidy(d.files)
    ensures PutDisk(d, slot, entry).files
            == d.files[BodyFile(slot) := BodyBytes(entry.body)]
                      [MetaFile(slot) := MetaRecord(ToRepr(entry.policy), entry.trailers)]
  {
    var tmp := BodyTemp(slot, d.counter);
    assert [] + entry.body == entry.body;
    var open := Append(Create(d, slot), slot, d.counter, entry.body);
    assert open.files == d.files[tmp := BodyBytes(entry.body)];
    var renamed := Rename(open.files, tmp, BodyFile(slot));
    assert renamed == d.files[BodyFile(slot) := BodyBytes(entry.body)];
    var meta := MetaRecord(ToRepr(entry.policy), entry.trailers);
    assert MetaTemp(slot, d.counter) !in renamed;
    assert Rename(renamed[MetaTemp(slot, d.counter) := meta], MetaTemp(slot, d.counter), MetaFile(slot))
           == renamed[MetaFile(slot) := meta];
  }

  lemma RewriteFiles(d: Disk, slot: Slot, meta: File)
    requires Tidy(d.files)
    ensures RewriteMeta(d, slot, meta).files == d.files[MetaFile(slot) := meta]
  {
  }

  lemma DropFiles(d: Disk, slot: Slot, partial: Bytes)
    requires Tidy(d.files)
    ensures Discard(Append(Create(d, slot), slot, d.counter, partial), slot, d.counter).files == d.files
  {
  }

  lemma IndexFacts(files: Files)
    ensures forall s :: s in ScanIndex(files) <==> MetaFile(s) in files && BodyFile(s) in files
    ensures forall s :: s in ScanIndex(files) ==> ScanIndex(files)[s] == Length(files[BodyFile(s)])
  {
    forall s: Slot
      ensures s in MetaSlots(files) <==> MetaFile(s) in files
    {
      if MetaFile(s) in files {
        assert MetaFile(s).slot == s;
      }
    }
  }

  // The index counts exactly the complete variants, each at its body length.
  ghost predicate CountsVariant(index: Index, files: Files, s: Slot) {
    && (s in index <==> MetaFile(s) in files && BodyFile(s) in files)
    && (s in index ==> index[s] == Length(files[BodyFile(s)]))
  }

  lemma ScanPointwise(index: Index, files: Files)
    ensures index == ScanIndex(files) <==> forall s :: CountsVariant(index, files, s)
  {
    IndexFacts(files);
    var scan := ScanIndex(files);
    assert forall s :: CountsVariant(scan, files, s);
    if forall s :: CountsVariant(index, files, s) {
      forall s: Slot
        ensures s in index <==> s in scan
        ensures s in index ==> index[s] == scan[s]
      {
        assert CountsVariant(index, files, s) && CountsVariant(scan, files, s);
      }
      assert index == scan;
    }
  }

  ghost predicate Counted(d: Disk) {
    Tidy(d.files) && d.index == ScanIndex(d.files)
  }

  lemma PutCounts(files: Files, index: Index, slot: Slot, body: Bytes, meta: File)
    requires Tidy(files) && index == ScanIndex(files) && meta.MetaRecord?
    ensures var files' := files[BodyFile(slot) := BodyBytes(body)][MetaFile(slot) := meta];
            Tidy(files') && index[slot := |body|] == ScanIndex(files')
  {
    var files' := files[BodyFile(slot) := BodyBytes(body)][MetaFile(slot) := meta];
    var index' := index[slot := |body|];
    ScanPointwise(index, files);
    forall s
      ensures CountsVariant(index', files', s)
    {
      assert CountsVariant(index, files, s);
    }
    ScanPointwise(index', files');
  }

  lemma PutKeepsIndex(d: Disk, slot: Slot, entry: Entry)
    requires Counted(d)
    ensures Counted(PutDisk(d, slot, entry))
  {
    PutFiles(d, slot, entry);
    PutIndex(d, slot, entry);
    PutCounts(d.files, d.index, slot, entry.body, MetaRecord(ToRepr(entry.policy), entry.trailers));
  }

  lemma PutIndex(d: Disk, slot: Slot, entry: Entry)
    ensures PutDisk(d, slot, entry).index == d.index[slot := |entry.body|]
  {
  }

  lemma RewriteKeepsIndex(d: Disk, slot: Slot, meta: File)
    requires Counted(d) && meta.MetaRecord?
    requires BodyFile(slot) in d.files ==> MetaFile(slot) in d.files
    ensures Counted(RewriteMeta(d, slot, meta))
  {
    var after := RewriteMeta(d, slot, meta);
    RewriteFiles(d, slot, meta);
    IndexFacts(d.files);
    IndexFacts(after.files);
    assert after.index == ScanIndex(after.files);
  }

  lemma RemoveKeepsIndex(d: Disk, key: CacheKey)
    requires Counted(d)
    ensures Counted(RemoveKey(d, key))
  {
    var after := RemoveKey(d, key);
    ScanPointwise(d.index, d.files);
    forall s
      ensures CountsVariant(after.index, after.files, s)
    {
      assert CountsVariant(d.index, d.files, s);
      if s in d.index { assert MetaFile(s).slot == s; }
    }
    ScanPointwise(after.index, after.files);
  }

  lemma EvictKeepsIndex(d: Disk, victim: Slot)
    requires Counted(d)
    ensures Counted(RemoveVariant(d, victim))
  {
    var after := RemoveVariant(d, victim);
    ScanPointwise(d.index, d.files);
    forall s
      ensures CountsVariant(after.index, after.files, s)
    {
      assert CountsVariant(d.index, d.files, s);
    }
    ScanPointwise(after.index, after.files);
  }

  lemma StepKeepsIndex(d: Disk, op: DiskOp)
    requires Counted(d)
    ensures Counted(StepDisk(d, op))
  {
    match op {
      case Completed(PutEntry(key, entry)) => PutKeepsIndex(d, SlotOf(key, entry.policy), entry);
      case Completed(DropPut(key, policy, partial)) => DropFiles(d, SlotOf(key, policy), partial);
      case Completed(RefreshEntry(key, policy)) =>
        var slot := SlotOf(key, policy);
        if MetaFile(slot) in d.files {
          RewriteKeepsIndex(d, slot, MetaRecord(ToRepr(policy), d.files[MetaFile(slot)].trailers));
        }
      case Completed(InvalidateKey(key)) => RemoveKeepsIndex(d, key);
      case Evict(victim) => EvictKeepsIndex(d, victim);
      case LateRefresh(slot, policy, trailers) =>
        RewriteKeepsIndex(d, slot, MetaRecord(ToRepr(policy), trailers));
    }
  }

  // After any sequence of completed operations, evictions of arbitrary victims
  // and late refreshes, the index kept step by step is the one a fresh scan of
  // the directory builds, variant for variant and length for length.
  lemma {:induction false} IndexEqualsScan(ops: seq<DiskOp>)
    ensures Counted(StepDiskAll(ops))
  {
    if ops != [] {
      IndexEqualsScan(ops[..|ops| - 1]);
      StepKeepsIndex(StepDiskAll(ops[..|ops| - 1]), ops[|ops| - 1]);
    }
  }

  // ---- Agreement with the in-memory backend ----

  // The entry a `get` followed by an `open` yields.
  function Load(lib: Library, files: Files, slot: Slot): Option<Entry> {
    var meta, body := MetaFile(slot), BodyFile(slot);
    if meta in files && files[meta].MetaRecord? && body in files && files[body].BodyBytes?
    then Some(Entry(FromRepr(lib, files[meta].policy), files[body].bytes, files[meta].trailers))
    else None
  }

  ghost predicate Represents(lib: Library, files: Files, store: Store) {
    && Tidy(files)
    && (forall slot :: MetaFile(slot) in files <==> BodyFile(slot) in files)
    && (forall slot :: Load(lib, files, slot) == Lookup(store, slot))
  }

  // Policies come from the constructor, so their derived fields are the ones a
  // reload recomputes.
  predicate FromConstructor(lib: Library, op: Op) {
    match op
    case PutEntry(_, entry) => Derived(lib, entry.policy)
    case RefreshEntry(_, policy) => Derived(lib, policy)
    case _ => true
  }

  lemma PutRefines(lib: Library, d: Disk, store: Store, slot: Slot, entry: Entry)
    requires Represents(lib, d.files, store) && Derived(lib, entry.policy)
    ensures Represents(lib, PutDisk(d, slot, entry).files, store[slot := entry])
  {
    PutFiles(d, slot, entry);
    ReprRoundTrip(lib, entry.policy);
    var after := PutDisk(d, slot, entry).files;
    forall s
      ensures Load(lib, after, s) == Lookup(store[slot := entry], s)
    {
      assert Load(lib, d.files, s) == Lookup(store, s);
    }
  }

  lemma RewriteRefines(lib: Library, d: Disk, store: Store, slot: Slot, policy: CachePolicy)
    requires Represents(lib, d.files, store) && Derived(lib, policy)
    requires MetaFile(slot) in d.files
    ensures slot in store
    ensures var meta := MetaRecord(ToRepr(policy), d.files[MetaFile(slot)].trailers);
            Represents(lib, RewriteMeta(d, slot, meta).files,
                       store[slot := store[slot].(policy := policy)])
  {
    assert Load(lib, d.files, slot) == Lookup(store, slot);
    var meta := MetaRecord(ToRepr(policy), d.files[MetaFile(slot)].trailers);
    RewriteFiles(d, slot, meta);
    ReprRoundTrip(lib, policy);
    var after := RewriteMeta(d, slot, meta).files;
    forall s
      ensures Load(lib, after, s) == Lookup(store[slot := store[slot].(policy := policy)], s)
    {
      assert Load(lib, d.files, s) == Lookup(store, s);
    }
  }

  lemma RemoveRefines(lib: Library, d: Disk, store: Store, key: CacheKey)
    requires Represents(lib, d.files, store)
    ensures Represents(lib, RemoveKey(d, key).files, Without(store, key))
  {
    var after := RemoveKey(d, key).files;
    forall s
      ensures Load(lib, after, s) == Lookup(Without(store, key), s)
    {
      assert Load(lib, d.files, s) == Lookup(store, s);
    }
  }

  lemma StepRefines(lib: Library, d: Disk, store: Store, op: Op)
    requires Represents(lib, d.files, store) && FromConstructor(lib, op)
    ensures Represents(lib, Step(d, op).files, Apply(store, op))
  {
    match op {
      case PutEntry(key, entry) => PutRefines(lib, d, store, SlotOf(key, entry.policy), entry);
      case DropPut(key, policy, partial) => DropFiles(d, SlotOf(key, policy), partial);
      case RefreshEntry(key, policy) =>
        var slot := SlotOf(key, policy);
        assert Load(lib, d.files, slot) == Lookup(store, slot);
        if MetaFile(slot) in d.files {
          RewriteRefines(lib, d, store, slot, policy);
        }
      case InvalidateKey(key) => RemoveRefines(lib, d, store, key);
    }
  }

  function StepAll(ops: seq<Op>): Disk {
    if ops == [] then Disk(map[], map[], 0) else Step(StepAll(ops[..|ops| - 1]), ops[|ops| - 1])
  }

  lemma {:induction false} DiskRefines(lib: Library, ops: seq<Op>)
    requires forall i :: 0 <= i < |ops| ==> FromConstructor(lib, ops[i])
    ensures Represents(lib, StepAll(ops).files, ApplyAll(ops))
  {
    if ops != [] {
      DiskRefines(lib, ops[..|ops| - 1]);
      StepRefines(lib, StepAll(ops[..|ops| - 1]), ApplyAll(ops[..|ops| - 1]), ops[|ops| - 1]);
    }
  }

  // For every sequence of completed operations the two backends hold the same
  // entry in every slot, policies reloaded from disk equal in every field.
  lemma BackendsAgree(lib: Library, ops: seq<Op>, slot: Slot)
    requires forall i :: 0 <= i < |ops| ==> FromConstructor(lib, ops[i])
    ensures Load(lib, StepAll(ops).files, slot)
            == Memory.Find(Memory.BucketOf(Memory.StepAll(ops), slot.key), slot.signature)
            == Lookup(ApplyAll(ops), slot)
  {
    DiskRefines(lib, ops);
    Memory.MemoryRefines(ops);
  }
}
