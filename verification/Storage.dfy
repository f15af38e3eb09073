/** The storage contract as one abstract map, and the operations that complete
    without interleaving. */
module Storage {
  import opened Wrappers
  import opened Http
  import opened Policy

  // One stored response.
  datatype Entry = Entry(policy: CachePolicy, body: Bytes, trailers: Option<Headers>)

  // Where it is stored: a key holds one entry for each Vary signature.
  datatype Slot = Slot(key: CacheKey, signature: Snapshot)

  type Store = map<Slot, Entry>

  function SlotOf(key: CacheKey, policy: CachePolicy): Slot {
    Slot(key, policy.varySnapshot)
  }

  function Lookup(store: Store, slot: Slot): Option<Entry> {
    if slot in store then Some(store[slot]) else None
  }

  // Operations run to completion; a refresh goes through a handle that is
  // still current and keeps the signature.
  datatype Op =
    | PutEntry(key: CacheKey, entry: Entry)
    | DropPut(key: CacheKey, policy: CachePolicy, partial: Bytes)
    | RefreshEntry(key: CacheKey, policy: CachePolicy)
    | InvalidateKey(key: CacheKey)

  function Without(store: Store, key: CacheKey): Store {
    map s | s in store && s.key != key :: store[s]
  }

  function Apply(store: Store, op: Op): Store {
    match op
    case PutEntry(key, entry) => store[SlotOf(key, entry.policy) := entry]
    case DropPut(_, _, _) => store
    case RefreshEntry(key, policy) =>
      var slot := SlotOf(key, policy);
      if slot in store then store[slot := store[slot].(policy := policy)] else store
    case InvalidateKey(key) => Without(store, key)
  }

  function ApplyAll(ops: seq<Op>): Store {
    if ops == [] then map[] else Apply(ApplyAll(ops[..|ops| - 1]), ops[|ops| - 1])
  }

  predicate PutsInto(op: Op, slot: Slot) {
    op.PutEntry? && SlotOf(op.key, op.entry.policy) == slot
  }

  predicate Refreshes(op: Op, slot: Slot) {
    op.RefreshEntry? && SlotOf(op.key, op.policy) == slot
  }

  predicate Ends(op: Op, slot: Slot) {
    PutsInto(op, slot) || (op.InvalidateKey? && op.key == slot.key)
  }

  // The policy a put at `i` has after the refreshes that follow it.
  function LatestPolicy(ops: seq<Op>, i: nat, slot: Slot): CachePolicy
    requires i < |ops| && PutsInto(ops[i], slot)
  {
    var n := |ops| - 1;
    if n == i then ops[i].entry.policy
    else if Refreshes(ops[n], slot) then ops[n].policy
    else LatestPolicy(ops[..n], i, slot)
  }

  // A slot holds the body and trailers of the last put into it since its key
  // was last invalidated, under the policy of the last refresh.
  lemma {:induction false} LastPutWins(ops: seq<Op>, i: nat, slot: Slot)
    requires i < |ops| && PutsInto(ops[i], slot)
    requires forall j :: i < j < |ops| ==> !Ends(ops[j], slot)
    ensures Lookup(ApplyAll(ops), slot)
            == Some(ops[i].entry.(policy := LatestPolicy(ops, i, slot)))
  {
    var n := |ops| - 1;
    if i < n {
      LastPutWins(ops[..n], i, slot);
    }
  }

  // And holds nothing if there was no such put.
  lemma {:induction false} NoPutNoEntry(ops: seq<Op>, from: nat, slot: Slot)
    requires from <= |ops|
    requires from > 0 ==> ops[from - 1] == InvalidateKey(slot.key)
    requires forall j :: from <= j < |ops| ==> !PutsInto(ops[j], slot)
    ensures Lookup(ApplyAll(ops), slot) == None
  {
    if ops != [] && from < |ops| {
      NoPutNoEntry(ops[..|ops| - 1], from, slot);
    }
  }
}

/** The in-memory backend: one bucket of variants per key. */
module Memory {
  import opened Wrappers
  import opened Http
  import opened Policy
  import opened Storage

  type Bucket = seq<Entry>

  function Retain(bucket: Bucket, policy: CachePolicy): Bucket {
    if bucket == [] then []
    else (if SameVariantAs(bucket[0].policy, policy) then [] else [bucket[0]])
         + Retain(bucket[1..], policy)
  }

  function Finalized(bucket: Bucket, entry: Entry): Bucket {
    Retain(bucket, entry.policy) + [entry]
  }

  // The first variant with the new policy's signature takes it over.
  function Refreshed(bucket: Bucket, policy: CachePolicy): Bucket {
    if bucket == [] then []
    else if SameVariantAs(bucket[0].policy, policy)
    then [bucket[0].(policy := policy)] + bucket[1..]
    else [bucket[0]] + Refreshed(bucket[1..], policy)
  }

  lemma RetainStep(bucket: Bucket, policy: CachePolicy, i: nat)
    requires i < |bucket|
    ensures Retain(bucket[i..], policy)
            == (if SameVariantAs(bucket[i].policy, policy) then [] else [bucket[i]])
               + Retain(bucket[i + 1..], policy)
  {
    assert bucket[i..][1..] == bucket[i + 1..];
  }

  method RetainOthers(bucket: Bucket, policy: CachePolicy) returns (kept: Bucket)
    ensures kept == Retain(bucket, policy)
  {
    kept := [];
    var i := 0;
    while i < |bucket|
      invariant 0 <= i <= |bucket|
      invariant kept + Retain(bucket[i..], policy) == Retain(bucket, policy)
    {
      RetainStep(bucket, policy, i);
      if !SameVariantAs(bucket[i].policy, policy) {
        Shift(kept, bucket[i], Retain(bucket[i + 1..], policy));
        kept := kept + [bucket[i]];
      }
      i := i + 1;
    }
    assert kept + [] == kept;
  }

  lemma Shift(a: Bucket, v: Entry, rest: Bucket)
    ensures a + ([v] + rest) == (a + [v]) + rest
  {
  }

  lemma RefreshedStep(bucket: Bucket, policy: CachePolicy, i: nat)
    requires i < |bucket|
    ensures bucket[i..] == [bucket[i]] + bucket[i + 1..]
    ensures Refreshed(bucket[i..], policy)
            == if SameVariantAs(bucket[i].policy, policy)
               then [bucket[i].(policy := policy)] + bucket[i + 1..]
               else [bucket[i]] + Refreshed(bucket[i + 1..], policy)
  {
    assert bucket[i..][1..] == bucket[i + 1..];
  }

  method RefreshVariants(bucket: Bucket, policy: CachePolicy)
    returns (variants: Bucket, updated: bool)
    ensures variants == Refreshed(bucket, policy)
    ensures !updated ==> variants == bucket
  {
    updated := false;
    variants := [];
    var i := 0;
    while i < |bucket|
      invariant 0 <= i <= |bucket|
      invariant updated ==> variants + bucket[i..] == Refreshed(bucket, policy)
      invariant !updated ==> variants + Refreshed(bucket[i..], policy) == Refreshed(bucket, policy)
      invariant !updated ==> variants == bucket[..i]
    {
      RefreshedStep(bucket, policy, i);
      var rest := bucket[i + 1..];
      if !updated && SameVariantAs(bucket[i].policy, policy) {
        Shift(variants, bucket[i].(policy := policy), rest);
        updated := true;
        variants := variants + [bucket[i].(policy := policy)];
      } else {
        Shift(variants, bucket[i], if updated then rest else Refreshed(rest, policy));
        variants := variants + [bucket[i]];
      }
      i := i + 1;
    }
    assert bucket[i..] == [] && variants + [] == variants;
  }

  type Buckets = map<CacheKey, Bucket>

  function BucketOf(cache: Buckets, key: CacheKey): Bucket {
    if key in cache then cache[key] else []
  }

  // The backend object.
  class InMemoryStorage {
    var cache: Buckets

    constructor ()
      ensures cache == map[]
    {
      cache := map[];
    }

    method Fetch(key: CacheKey) returns (entries: seq<Entry>)
      ensures entries == BucketOf(cache, key)
    {
      if key !in cache { return []; }
      entries := cache[key];
    }

    // `finalize` of a put handle whose buffer holds the written bytes.
    method FinalizePut(key: CacheKey, entry: Entry)
      modifies this
      ensures cache == old(cache)[key := Finalized(BucketOf(old(cache), key), entry)]
    {
      var variants := if key in cache then cache[key] else [];
      var kept := RetainOthers(variants, entry.policy);
      cache := cache[key := kept + [entry]];
    }

    // `refresh_policy` of an entry handle for this key.
    method RefreshPolicy(key: CacheKey, policy: CachePolicy)
      modifies this
      ensures cache == if key in old(cache)
                       then old(cache)[key := Refreshed(old(cache)[key], policy)]
                       else old(cache)
    {
      if key !in cache { return; }
      var variants, updated := RefreshVariants(cache[key], policy);
      if updated {
        cache := cache[key := variants];
      } else {
        assert cache[key := variants] == cache;
      }
    }

    method Invalidate(key: CacheKey)
      modifies this
      ensures cache == old(cache) - {key}
    {
      cache := cache - {key};
    }
  }

  // ---- Refinement of the abstract store ----

  function Step(cache: Buckets, op: Op): Buckets {
    match op
    case PutEntry(key, entry) => cache[key := Finalized(BucketOf(cache, key), entry)]
    case DropPut(_, _, _) => cache
    case RefreshEntry(key, policy) =>
      if key in cache then cache[key := Refreshed(cache[key], policy)] else cache
    case InvalidateKey(key) => cache - {key}
  }

  function StepAll(ops: seq<Op>): Buckets {
    if ops == [] then map[] else Step(StepAll(ops[..|ops| - 1]), ops[|ops| - 1])
  }

  function Find(bucket: Bucket, signature: Snapshot): Option<Entry> {
    if bucket == [] then None
    else if bucket[0].policy.varySnapshot == signature then Some(bucket[0])
    else Find(bucket[1..], signature)
  }

  predicate Distinct(bucket: Bucket) {
    forall i, j :: 0 <= i < j < |bucket| ==> !SameVariantAs(bucket[i].policy, bucket[j].policy)
  }

  ghost predicate Represents(cache: Buckets, store: Store) {
    && (forall key :: key in cache ==> Distinct(cache[key]))
    && (forall slot: Slot :: Find(BucketOf(cache, slot.key), slot.signature) == Lookup(store, slot))
  }

  lemma {:induction false} RetainFacts(bucket: Bucket, policy: CachePolicy, signature: Snapshot)
    ensures forall e :: e in Retain(bucket, policy) ==> e in bucket && !SameVariantAs(e.policy, policy)
    ensures Distinct(bucket) ==> Distinct(Retain(bucket, policy))
    ensures Find(Retain(bucket, policy), signature)
            == if signature == policy.varySnapshot then None else Find(bucket, signature)
  {
    if bucket != [] {
      var rest := Retain(bucket[1..], policy);
      RetainFacts(bucket[1..], policy, signature);
      if !SameVariantAs(bucket[0].policy, policy) {
        assert Retain(bucket, policy)[1..] == rest;
      } else {
        assert Retain(bucket, policy) == rest;
      }
    }
  }

  lemma {:induction false} FindLast(bucket: Bucket, entry: Entry, signature: Snapshot)
    ensures Find(bucket + [entry], signature)
            == if Find(bucket, signature).Some? then Find(bucket, signature)
               else if entry.policy.varySnapshot == signature then Some(entry) else None
  {
    var all := bucket + [entry];
    if bucket == [] {
      assert all[1..] == [];
    } else {
      FindLast(bucket[1..], entry, signature);
      assert all[1..] == bucket[1..] + [entry];
    }
  }

  lemma {:induction false} FinalizedFacts(bucket: Bucket, entry: Entry, signature: Snapshot)
    requires Distinct(bucket)
    ensures Distinct(Finalized(bucket, entry))
    ensures Find(Finalized(bucket, entry), signature)
            == if signature == entry.policy.varySnapshot then Some(entry) else Find(bucket, signature)
  {
    RetainFacts(bucket, entry.policy, signature);
    FindLast(Retain(bucket, entry.policy), entry, signature);
    var kept := Retain(bucket, entry.policy);
    assert forall i :: 0 <= i < |kept| ==> kept[i] in kept;
  }

  lemma {:induction false} RefreshedFacts(bucket: Bucket, policy: CachePolicy, signature: Snapshot)
    requires Distinct(bucket)
    ensures |Refreshed(bucket, policy)| == |bucket|
    ensures forall i :: 0 <= i < |bucket| ==>
              SameVariantAs(Refreshed(bucket, policy)[i].policy, bucket[i].policy)
    ensures Distinct(Refreshed(bucket, policy))
    ensures Find(Refreshed(bucket, policy), signature)
            == var found := Find(bucket, signature);
               if found.Some? && signature == policy.varySnapshot
               then Some(found.value.(policy := policy)) else found
  {
    if bucket != [] {
      var out := Refreshed(bucket, policy);
      RefreshedFacts(bucket[1..], policy, signature);
      if SameVariantAs(bucket[0].policy, policy) {
        assert out[1..] == bucket[1..];
      } else {
        assert out[1..] == Refreshed(bucket[1..], policy);
      }
    }
  }

  lemma StepRefines(cache: Buckets, store: Store, op: Op)
    requires Represents(cache, store)
    ensures Represents(Step(cache, op), Apply(store, op))
  {
    var after, abstr := Step(cache, op), Apply(store, op);
    if op.PutEntry? || op.RefreshEntry? {
      var bucket := BucketOf(cache, op.key);
      forall slot: Slot
        ensures Find(BucketOf(after, slot.key), slot.signature) == Lookup(abstr, slot)
      {
        if op.PutEntry? {
          FinalizedFacts(bucket, op.entry, slot.signature);
        } else {
          RefreshedFacts(bucket, op.policy, slot.signature);
        }
        assert Find(BucketOf(cache, slot.key), slot.signature) == Lookup(store, slot);
      }
      forall key | key in after
        ensures Distinct(after[key])
      {
        if op.PutEntry? {
          FinalizedFacts(bucket, op.entry, []);
        } else {
          RefreshedFacts(bucket, op.policy, []);
        }
      }
    } else if op.InvalidateKey? {
      forall slot: Slot
        ensures Find(BucketOf(after, slot.key), slot.signature) == Lookup(abstr, slot)
      {
        assert Find(BucketOf(cache, slot.key), slot.signature) == Lookup(store, slot);
      }
    }
  }

  lemma {:induction false} MemoryRefines(ops: seq<Op>)
    ensures Represents(StepAll(ops), ApplyAll(ops))
  {
    if ops != [] {
      MemoryRefines(ops[..|ops| - 1]);
      StepRefines(StepAll(ops[..|ops| - 1]), ApplyAll(ops[..|ops| - 1]), ops[|ops| - 1]);
    }
  }

  lemma {:induction false} FindMember(bucket: Bucket, entry: Entry)
    requires Distinct(bucket)
    ensures entry in bucket <==> Find(bucket, entry.policy.varySnapshot) == Some(entry)
  {
    if bucket != [] {
      var rest := bucket[1..];
      FindMember(rest, entry);
      assert bucket == [bucket[0]] + rest;
    }
  }

  // What `get` returns is exactly what the abstract store holds for the key,
  // one entry for each signature.
  lemma FetchedIsStored(ops: seq<Op>, key: CacheKey, entry: Entry)
    ensures Distinct(BucketOf(StepAll(ops), key))
    ensures entry in BucketOf(StepAll(ops), key)
            <==> Lookup(ApplyAll(ops), SlotOf(key, entry.policy)) == Some(entry)
  {
    MemoryRefines(ops);
    var bucket := BucketOf(StepAll(ops), key);
    FindMember(bucket, entry);
    assert Find(BucketOf(StepAll(ops), SlotOf(key, entry.policy).key), entry.policy.varySnapshot)
           == Lookup(ApplyAll(ops), SlotOf(key, entry.policy));
  }
}
