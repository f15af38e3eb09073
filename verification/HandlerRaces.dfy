/** A run of the client handler, from an empty store, in which a 304 puts an
    older response's headers over a newer one's body. */
module HandlerRaces {
  import opened Wrappers
  import opened Text
  import opened Http
  import opened Policy
  import opened Freshness
  import opened Storability
  import opened Validation
  import opened Storage
  import opened Handlers
  import opened HandlerTheorems
  import opened HandlerRuns
  import opened HandlerPairing
  import Memory
  import Tee

  // ---- A plain setting: a private cache and no directives at all ----

  const LIB := Library(_ => None, _ => None, _ => None, (_, _) => None, _ => None)
  const CFG := Config(CacheOptions(false, 0.0, 0), U64_MAX)
  const ENV := Env(0, 0, 0, 0, true, true, true)

  function Asking(url: Url): Conn {
    Conn(Get, url, map[], None, map[], None, false, false, None)
  }

  function Sending(tag: string, bytes: Bytes): Reply {
    Reply(200, map["etag" := [tag]], Some(OriginBody(bytes, None, None)))
  }

  // What is stored of such a reply.
  function Stored(tag: string, request: Headers, bytes: Bytes): Entry {
    Entry(NewPolicy(LIB, Get, request, 200, map["etag" := [tag]], 0, CFG.options), bytes, None)
  }

  function Key(url: Url): CacheKey {
    CacheKey(Get, url)
  }

  function TheSlot(url: Url): Slot {
    Slot(Key(url), [])
  }

  lemma StoredFacts(tag: string, request: Headers, bytes: Bytes)
    ensures var p := Stored(tag, request, bytes).policy;
            p.varySnapshot == [] && p.responseCacheControl.None? && p.responseHeaders == map["etag" := [tag]]
  {
  }

  // Without directives a stored response is stale at once and nothing allows
  // serving it.
  lemma AlwaysValidated(tag: string, request: Headers, bytes: Bytes)
    ensures var p := Stored(tag, request, bytes).policy;
            && Before(LIB, p, map[], 0) == Stale(RevalidationHeaders(p, map[]), true)
            && !IsSwrEligible(LIB, p, 0)
  {
    StoredFacts(tag, request, bytes);
    var p := Stored(tag, request, bytes).policy;
    assert MaxAge(LIB, p) == 0;
  }

  lemma MayStore(request: Headers, tag: string)
    ensures IsStorable(LIB, Get, request, 200, map["etag" := [tag]], CFG.options)
  {
  }

  // ---- Building the run ----

  lemma Extend(events: seq<Event>, sys: System, e: Event, sys': System)
    requires RunEvents(LIB, CFG, events) == sys && OnEvent(LIB, CFG, sys, e) == sys'
    ensures RunEvents(LIB, CFG, events + [e]) == sys'
  {
    assert (events + [e])[..|events|] == events;
  }

  // One response stored, and these requests under way.
  function Holding(url: Url, e: Entry, o: Origin, log: seq<Entry>, waiting: map<nat, Waiting>): System {
    System(map[Key(url) := [e]], map[TheSlot(url) := o], log, waiting, [], [], [])
  }

  function Missing(url: Url): Conn {
    Asking(url).(ctx := Some(Miss(Key(url))))
  }

  lemma LookUpMisses(url: Url)
    ensures OnEvent(LIB, CFG, NOTHING, LookUp(0, true, Asking(url), ENV))
            == NOTHING.(waiting := map[0 := Waiting(true, Missing(url), 0)])
  {
  }

  lemma MissAnswered(url: Url, tag: string, bytes: Bytes)
    ensures OnEvent(LIB, CFG, NOTHING.(waiting := map[0 := Waiting(true, Missing(url), 0)]),
                    Answer(0, Some(Sending(tag, bytes)), ENV))
            == NOTHING.(puts := [(PendingPut(Key(url), Stored(tag, map[], bytes).policy),
                                  OriginBody(bytes, None, None))])
  {
    MayStore(map[], tag);
    var sys := NOTHING.(waiting := map[0 := Waiting(true, Missing(url), 0)]);
    var got := Got(sys, sys.waiting[0], Some(Sending(tag, bytes)));
    assert got.conn == Missing(url).(status := Some(200), response := map["etag" := [tag]],
                                     body := Some(PassThrough(OriginBody(bytes, None, None))));
    assert !HeaderOverCap(CFG, got.conn.response);
    assert sys.waiting - {0} == map[];
  }

  // Committing the only pending put.
  lemma CommitEffect(sys: System, put: PendingPut, bytes: Bytes)
    requires sys.puts == [(put, OriginBody(bytes, None, None))]
    ensures OnEvent(LIB, CFG, sys, CommitPut(0))
            == DoOp(sys.(puts := []), PutEntry(put.key, Entry(put.policy, bytes, None)), 0)
  {
    assert Remove(sys.puts, 0) == [];
  }

  lemma FirstCommitted(url: Url, tag: string, bytes: Bytes)
    ensures var e := Stored(tag, map[], bytes);
            OnEvent(LIB, CFG, NOTHING.(puts := [(PendingPut(Key(url), e.policy), OriginBody(bytes, None, None))]),
                    CommitPut(0))
            == Holding(url, e, Origin(0, 0), [e], map[])
  {
    var e := Stored(tag, map[], bytes);
    StoredFacts(tag, map[], bytes);
    CommitEffect(NOTHING.(puts := [(PendingPut(Key(url), e.policy), OriginBody(bytes, None, None))]),
                 PendingPut(Key(url), e.policy), bytes);
    assert Memory.Retain([], e.policy) == [];
    assert Memory.Finalized([], e) == [e];
  }

  function Validating(url: Url, e: Entry): Conn {
    Asking(url).(request := RevalidationHeaders(e.policy, map[]), ctx := Some(Revalidation(e, Key(url))))
  }

  lemma LookUpValidates(url: Url, tag: string, bytes: Bytes, id: nat, waiting: map<nat, Waiting>)
    requires id !in waiting
    ensures var e := Stored(tag, map[], bytes);
            OnEvent(LIB, CFG, Holding(url, e, Origin(0, 0), [e], waiting), LookUp(id, true, Asking(url), ENV))
            == Holding(url, e, Origin(0, 0), [e], waiting[id := Waiting(true, Validating(url, e), 0)])
  {
    AlwaysValidated(tag, map[], bytes);
    StoredFacts(tag, map[], bytes);
    var e := Stored(tag, map[], bytes);
    var s := State(Asking(url), map[Key(url) := [e]], None, None);
    assert Candidates(s) == [e];
    assert Chosen(LIB, s, ENV) == Some(e);
  }

  // A newer response comes back for the one, and is committed.
  function Newer(url: Url, old_: Entry, tag: string, bytes: Bytes): Entry {
    Stored(tag, RevalidationHeaders(old_.policy, map[]), bytes)
  }

  lemma ReplacementAnswered(url: Url, e: Entry, tag: string, bytes: Bytes, other: Waiting)
    requires e.policy.requestMethod == Get
    ensures var w := Waiting(true, Validating(url, e), 0);
            var sys := Holding(url, e, Origin(0, 0), [e], map[1 := other, 2 := w]);
            OnEvent(LIB, CFG, sys, Answer(2, Some(Sending(tag, bytes)), ENV))
            == sys.(waiting := map[1 := other],
                    puts := [(PendingPut(Key(url), Newer(url, e, tag, bytes).policy),
                              OriginBody(bytes, None, None))])
  {
    var w := Waiting(true, Validating(url, e), 0);
    var sys := Holding(url, e, Origin(0, 0), [e], map[1 := other, 2 := w]);
    ReplacementHandled(sys, url, e, tag, bytes);
    assert sys.waiting - {2} == map[1 := other];
  }

  lemma ReplacementHandled(sys: System, url: Url, e: Entry, tag: string, bytes: Bytes)
    ensures var got := Got(sys, Waiting(true, Validating(url, e), 0), Some(Sending(tag, bytes)));
            var t := Finish(true, LIB, CFG, got, ENV);
            && RefreshOp(LIB, got, ENV).None? && t.store == sys.store
            && t.conn.body == Some(Teed(OriginBody(bytes, None, None)))
            && t.put == Some(PendingPut(Key(url), Newer(url, e, tag, bytes).policy))
  {
    var w := Waiting(true, Validating(url, e), 0);
    MayStore(w.conn.request, tag);
    var got := Got(sys, w, Some(Sending(tag, bytes)));
    assert got.conn == w.conn.(status := Some(200), response := map["etag" := [tag]],
                               body := Some(PassThrough(OriginBody(bytes, None, None))));
    assert !HeaderOverCap(CFG, got.conn.response);
  }

  lemma ReplacementCommitted(url: Url, e: Entry, tag: string, bytes: Bytes, other: Waiting)
    requires e.policy.varySnapshot == []
    ensures var new_ := Newer(url, e, tag, bytes);
            OnEvent(LIB, CFG, Holding(url, e, Origin(0, 0), [e], map[1 := other]).(
                                puts := [(PendingPut(Key(url), new_.policy), OriginBody(bytes, None, None))]),
                    CommitPut(0))
            == Holding(url, new_, Origin(1, 1), [e, new_], map[1 := other])
  {
    var new_ := Newer(url, e, tag, bytes);
    StoredFacts(tag, RevalidationHeaders(e.policy, map[]), bytes);
    var sys := Holding(url, e, Origin(0, 0), [e], map[1 := other]);
    var pending := sys.(puts := [(PendingPut(Key(url), new_.policy), OriginBody(bytes, None, None))]);
    CommitEffect(pending, PendingPut(Key(url), new_.policy), bytes);
    assert pending.(puts := []) == sys;
    PutReplaces(url, e, new_, map[1 := other]);
  }

  lemma PutReplaces(url: Url, e: Entry, new_: Entry, waiting: map<nat, Waiting>)
    requires e.policy.varySnapshot == [] && new_.policy.varySnapshot == []
    ensures DoOp(Holding(url, e, Origin(0, 0), [e], waiting), PutEntry(Key(url), new_), 0)
            == Holding(url, new_, Origin(1, 1), [e, new_], waiting)
  {
    ReplacedBucket(url, e, new_);
  }

  lemma ReplacedBucket(url: Url, e: Entry, new_: Entry)
    requires SameVariantAs(e.policy, new_.policy)
    ensures Memory.Step(map[Key(url) := [e]], PutEntry(Key(url), new_)) == map[Key(url) := [new_]]
  {
    assert [e][1..] == [];
    assert Memory.Retain([e], new_.policy) == [];
    assert Memory.Finalized([e], new_) == [new_];
  }

  // The policy a 304 for the older response leaves.
  function Refreshed304(url: Url, e: Entry): CachePolicy {
    After(LIB, e.policy, Validating(url, e).request, NOT_MODIFIED, map[], 0).policy
  }

  lemma Refreshed304Facts(url: Url, e: Entry)
    requires "vary" !in e.policy.responseHeaders
    ensures Refreshed304(url, e).varySnapshot == []
    ensures Refreshed304(url, e).responseHeaders == e.policy.responseHeaders
  {
    assert Merged(e.policy.responseHeaders, map[]) == e.policy.responseHeaders;
  }

  lemma NotModifiedHandled(sys: System, url: Url, e: Entry)
    ensures var got := Got(sys, Waiting(true, Validating(url, e), 0), Some(Reply(NOT_MODIFIED, map[], None)));
            && RefreshOp(LIB, got, ENV) == Some(RefreshEntry(Key(url), Refreshed304(url, e)))
            && Finish(true, LIB, CFG, got, ENV).store
               == Memory.Step(sys.store, RefreshEntry(Key(url), Refreshed304(url, e)))
            && Finish(true, LIB, CFG, got, ENV).put.None?
  {
    var w := Waiting(true, Validating(url, e), 0);
    var got := Got(sys, w, Some(Reply(NOT_MODIFIED, map[], None)));
    assert got.conn == w.conn.(status := Some(NOT_MODIFIED), response := map[]);
    FinishStore(true, LIB, CFG, got, ENV);
    NoPutOn304(got);
  }

  // The 304 for the other one arrives after all.
  lemma LateNotModified(url: Url, e: Entry, new_: Entry)
    requires new_.policy.varySnapshot == [] && "vary" !in e.policy.responseHeaders
    ensures var sys := Holding(url, new_, Origin(1, 1), [e, new_], map[1 := Waiting(true, Validating(url, e), 0)]);
            OnEvent(LIB, CFG, sys, Answer(1, Some(Reply(NOT_MODIFIED, map[], None)), ENV))
            == Holding(url, new_.(policy := Refreshed304(url, e)), Origin(1, 0), [e, new_], map[])
  {
    var sys := Holding(url, new_, Origin(1, 1), [e, new_], map[1 := Waiting(true, Validating(url, e), 0)]);
    var policy := Refreshed304(url, e);
    Refreshed304Facts(url, e);
    NotModifiedHandled(sys, url, e);
    assert sys.waiting - {1} == map[];
    assert sys.(waiting := map[]) == Holding(url, new_, Origin(1, 1), [e, new_], map[]);
    RefreshLands(url, new_, policy, [e, new_]);
  }

  lemma RefreshLands(url: Url, new_: Entry, policy: CachePolicy, log: seq<Entry>)
    requires new_.policy.varySnapshot == [] && policy.varySnapshot == []
    ensures DoOp(Holding(url, new_, Origin(1, 1), log, map[]), RefreshEntry(Key(url), policy), 0)
            == Holding(url, new_.(policy := policy), Origin(1, 0), log, map[])
  {
    assert [new_][1..] == [];
    assert Memory.Refreshed([new_], policy) == [new_.(policy := policy)];
  }

  lemma NoPutOn304(s: State)
    requires s.conn.ctx.Some? && s.conn.ctx.value.Revalidation? && s.conn.status == Some(NOT_MODIFIED)
    requires s.put.None?
    ensures Finish(true, LIB, CFG, s, ENV).put.None?
  {
  }

  // Two lookups of one stale response; the origin answers the second with a
  // newer one, which is stored, and then the first with a 304. The newer body
  // is left under the older entity-tag.
  lemma LateRefreshMixes(url: Url, tagA: string, a: Bytes, tagB: string, b: Bytes) returns (events: seq<Event>)
    requires tagA != tagB
    ensures var sys, slot := RunEvents(LIB, CFG, events), TheSlot(url);
            && sys.waiting == map[] && sys.puts == [] && sys.backgrounds == [] && sys.calls == []
            && slot in sys.origins && sys.origins[slot] == Origin(1, 0)
            && At(sys.store, slot).Some?
            && At(sys.store, slot).value.body == b
            && GetStr(At(sys.store, slot).value.policy.responseHeaders, "etag") == Some(tagA)
            && |sys.log| == 2 && sys.log[1].body == b
            && GetStr(sys.log[1].policy.responseHeaders, "etag") == Some(tagB)
  {
    var e := Stored(tagA, map[], a);
    StoredFacts(tagA, map[], a);
    StoredFacts(tagB, RevalidationHeaders(e.policy, map[]), b);
    events := FirstThree(url, tagA, a);
    events := NextTwo(url, tagA, a, events);
    events := LastThree(url, e, tagB, b, events);
    Refreshed304Facts(url, e);
  }

  lemma NextTwo(url: Url, tag: string, bytes: Bytes, before: seq<Event>) returns (events: seq<Event>)
    requires var e := Stored(tag, map[], bytes);
             RunEvents(LIB, CFG, before) == Holding(url, e, Origin(0, 0), [e], map[])
    ensures var e := Stored(tag, map[], bytes);
            var w := Waiting(true, Validating(url, e), 0);
            RunEvents(LIB, CFG, events) == Holding(url, e, Origin(0, 0), [e], map[1 := w, 2 := w])
  {
    var e := Stored(tag, map[], bytes);
    var w := Waiting(true, Validating(url, e), 0);
    var s0 := Holding(url, e, Origin(0, 0), [e], map[]);
    var s1 := Holding(url, e, Origin(0, 0), [e], map[1 := w]);
    LookUpValidates(url, tag, bytes, 1, map[]);
    Extend(before, s0, LookUp(1, true, Asking(url), ENV), s1);
    events := before + [LookUp(1, true, Asking(url), ENV)];
    LookUpValidates(url, tag, bytes, 2, map[1 := w]);
    Extend(events, s1, LookUp(2, true, Asking(url), ENV), Holding(url, e, Origin(0, 0), [e], map[1 := w, 2 := w]));
    events := events + [LookUp(2, true, Asking(url), ENV)];
  }

  lemma FirstThree(url: Url, tag: string, bytes: Bytes) returns (events: seq<Event>)
    ensures var e := Stored(tag, map[], bytes);
            RunEvents(LIB, CFG, events) == Holding(url, e, Origin(0, 0), [e], map[])
  {
    var e := Stored(tag, map[], bytes);
    var s1 := NOTHING.(waiting := map[0 := Waiting(true, Missing(url), 0)]);
    var s2 := NOTHING.(puts := [(PendingPut(Key(url), e.policy), OriginBody(bytes, None, None))]);
    LookUpMisses(url);
    Extend([], NOTHING, LookUp(0, true, Asking(url), ENV), s1);
    events := [] + [LookUp(0, true, Asking(url), ENV)];
    MissAnswered(url, tag, bytes);
    Extend(events, s1, Answer(0, Some(Sending(tag, bytes)), ENV), s2);
    events := events + [Answer(0, Some(Sending(tag, bytes)), ENV)];
    FirstCommitted(url, tag, bytes);
    Extend(events, s2, CommitPut(0), Holding(url, e, Origin(0, 0), [e], map[]));
    events := events + [CommitPut(0)];
  }

  lemma LastThree(url: Url, e: Entry, tag: string, bytes: Bytes, before: seq<Event>) returns (events: seq<Event>)
    requires e.policy.requestMethod == Get && e.policy.varySnapshot == [] && "vary" !in e.policy.responseHeaders
    requires var w := Waiting(true, Validating(url, e), 0);
             RunEvents(LIB, CFG, before) == Holding(url, e, Origin(0, 0), [e], map[1 := w, 2 := w])
    ensures var new_ := Newer(url, e, tag, bytes);
            RunEvents(LIB, CFG, events)
            == Holding(url, new_.(policy := Refreshed304(url, e)), Origin(1, 0), [e, new_], map[])
  {
    var w := Waiting(true, Validating(url, e), 0);
    var new_ := Newer(url, e, tag, bytes);
    var policy := Refreshed304(url, e);
    var s2 := Holding(url, e, Origin(0, 0), [e], map[1 := w, 2 := w]);
    var s3 := Holding(url, e, Origin(0, 0), [e], map[1 := w]).(
                puts := [(PendingPut(Key(url), new_.policy), OriginBody(bytes, None, None))]);
    var s4 := Holding(url, new_, Origin(1, 1), [e, new_], map[1 := w]);
    ReplacementAnswered(url, e, tag, bytes, w);
    Extend(before, s2, Answer(2, Some(Sending(tag, bytes)), ENV), s3);
    events := before + [Answer(2, Some(Sending(tag, bytes)), ENV)];
    ReplacementCommitted(url, e, tag, bytes, w);
    Extend(events, s3, CommitPut(0), s4);
    events := events + [CommitPut(0)];
    StoredFacts(tag, RevalidationHeaders(e.policy, map[]), bytes);
    LateNotModified(url, e, new_);
    Extend(events, s4, Answer(1, Some(Reply(NOT_MODIFIED, map[], None)), ENV),
           Holding(url, new_.(policy := policy), Origin(1, 0), [e, new_], map[]));
    events := events + [Answer(1, Some(Reply(NOT_MODIFIED, map[], None)), ENV)];
  }
}
