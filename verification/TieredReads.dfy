/** Runs from an empty store in which a reader misses or shortens what is
    stored: a cold variant hidden by a sibling in hot, and a promotion cut short
    by an empty read. */
module TieredReads {
  import opened Wrappers
  import opened Http
  import opened Policy
  import opened Storage
  import opened Tiered
  import opened TieredRaces
  import opened TieredInvalidation

  // One variant put and flushed, its key evicted from hot, then another
  // variant put: the first is in cold and no lookup shows it.
  lemma PutHidesSibling(lib: Library, url: Url, x: Exchange, a: Bytes, y: Exchange, b: Bytes)
    returns (steps: seq<Step>)
    requires MayPut(lib, x) && MayPut(lib, y) && x.verb == y.verb
    requires !SameVariantAs(PolicyOf(lib, x), PolicyOf(lib, y))
    ensures var key := CacheKey(x.verb, url);
            var s, slot := Run(lib, EMPTY, steps), SlotOf(key, PolicyOf(lib, x));
            && slot in s.cold && s.cold[slot] == Fresh(Entry(PolicyOf(lib, x), a, None), 0)
            && slot !in Visible(s, key)
            && SlotOf(key, PolicyOf(lib, y)) in Visible(s, key)
  {
    var key := CacheKey(x.verb, url);
    steps := ReachSettled(lib, url, x, a);
    var s1 := Settled(lib, url, x, a);
    var s2 := s1.(hot := map[]);
    assert ApplyStep(lib, s1, EvictHot(key)) == s2;
    Extend(lib, EMPTY, steps, s1, EvictHot(key), s2);
    steps := PutRun(lib, EMPTY, steps + [EvictHot(key)], s2, 0, url, y, b);
    var s := PutDone(lib, s2, 0, url, y, b);
    assert SlotOf(key, PolicyOf(lib, y)) in SlotsFor(s.hot, key);
  }

  // A reader that opens the cold entry and reads into an empty buffer first:
  // hot is left with an empty body.
  lemma EmptyReadCutsPromotion(lib: Library, url: Url, x: Exchange, body: Bytes) returns (steps: seq<Step>)
    requires MayPut(lib, x) && body != []
    ensures var slot := SlotOf(CacheKey(x.verb, url), PolicyOf(lib, x));
            var s := Run(lib, EMPTY, steps);
            && slot in s.hot && s.hot[slot] == Held(Entry(PolicyOf(lib, x), [], None), 0, 0, None, true)
            && |s.past.finalized| == 1 && s.past.finalized[0].entry.body == body
  {
    var key := CacheKey(x.verb, url);
    var slot := SlotOf(key, PolicyOf(lib, x));
    steps := ReachSettled(lib, url, x, body);
    var s1 := Settled(lib, url, x, body);
    var s2 := Calling(lib, url, x, body);
    assert ApplyStep(lib, s1, EvictHot(key)) == s2;
    Extend(lib, EMPTY, steps, s1, EvictHot(key), s2);
    steps := steps + [EvictHot(key)];
    var a, b, c := LookupCold(0, slot), OpenCold(0, 1, false), FinishPromotion(1);
    CutShort(lib, url, x, body, slot);
    ExtendThree(lib, EMPTY, steps, s2, a, b, c, ApplyStep(lib, ApplyStep(lib, ApplyStep(lib, s2, a), b), c));
    steps := steps + [a] + [b] + [c];
  }

  lemma CutShort(lib: Library, url: Url, x: Exchange, body: Bytes, slot: Slot)
    requires slot == SlotOf(CacheKey(x.verb, url), PolicyOf(lib, x)) && body != []
    ensures var s := Calling(lib, url, x, body);
            var promoting := ApplyStep(lib, ApplyStep(lib, s, LookupCold(0, slot)), OpenCold(0, 1, false));
            var s' := ApplyStep(lib, promoting, FinishPromotion(1));
            && s'.past == s.past
            && s'.hot == map[slot := Held(Entry(PolicyOf(lib, x), [], None), 0, 0, None, true)]
  {
    var s, held := Calling(lib, url, x, body), Fresh(Entry(PolicyOf(lib, x), body, None), 0);
    var s1 := ApplyStep(lib, s, LookupCold(0, slot));
    assert s1.handles == map[0 := Handle(false, slot.key, held)];
    var s2 := ApplyStep(lib, s1, OpenCold(0, 1, false));
    assert s2.tasks == map[1 := Promoting(slot.key, held.entry.policy, 0, held, [])];
  }
}
