/** An origin that sends every body with its own strong tag, and callers that
    list no tags: as long as every 304 lands on its own put, every stored body
    stays under its own tag, so revalidation serves the current body over whole
    runs. */
module HandlerHonesty {
  import opened Wrappers
  import opened Text
  import opened Http
  import opened Policy
  import opened Freshness
  import opened Storability
  import opened EntityTags
  import opened Validation
  import opened Storage
  import opened Handlers
  import opened HandlerTheorems
  import opened HandlerRuns
  import opened HandlerPairing
  import opened HandlerOutcomes
  import Memory
  import Tee

  // ---- Tags and replies ----

  predicate TagOf(h: Headers, value: string) {
    GetStr(h, "etag") == Some(Printed(Tag(false, value))) && ',' !in value && '"' !in value
  }

  // The headers carry a strong tag that names the body.
  ghost predicate Tagged(h: Headers, body: Bytes, bodyOf: string -> Bytes) {
    exists value :: TagOf(h, value) && body == bodyOf(value)
  }

  // A 304 answers a listed tag and names no other; anything else comes with
  // the tag of its body.
  ghost predicate HonestReply(request: Headers, reply: Reply, bodyOf: string -> Bytes) {
    if reply.status == NOT_MODIFIED then
      var inm := GetStr(request, "if-none-match");
      && inm.Some?
      && exists current :: current in ScanTags(inm.value)
                           && ("etag" in reply.headers ==> TagOf(reply.headers, current))
    else reply.body.Some? ==> Tagged(reply.headers, reply.body.value.bytes, bodyOf)
  }

  // The request lists the tag of the stored response and nothing else.
  predicate ListsItsTag(request: Headers, stored: Entry) {
    GetStr(request, "if-none-match") == GetStr(stored.policy.responseHeaders, "etag")
  }

  lemma PrintedOnce(a: string, b: string)
    requires Printed(Tag(false, a)) == Printed(Tag(false, b))
    ensures a == b
  {
    OpaqueOfPrinted(Tag(false, a));
    OpaqueOfPrinted(Tag(false, b));
  }

  lemma ForwardsItsTag(stored: Entry, request: Headers, bodyOf: string -> Bytes)
    requires Tagged(stored.policy.responseHeaders, stored.body, bodyOf) && "if-none-match" !in request
    ensures ListsItsTag(RevalidationHeaders(stored.policy, request), stored)
  {
    var value :| TagOf(stored.policy.responseHeaders, value) && stored.body == bodyOf(value);
    RevalidationListsStoredTag(stored.policy, request, value);
  }

  // An honest 304 leaves the tag as it was.
  lemma NotModifiedKeepsTag(
    lib: Library, stored: Entry, request: Headers, reply: Reply, time: Time, bodyOf: string -> Bytes)
    requires Tagged(stored.policy.responseHeaders, stored.body, bodyOf) && ListsItsTag(request, stored)
    requires reply.status == NOT_MODIFIED && HonestReply(request, reply, bodyOf)
    ensures var policy := After(lib, stored.policy, request, NOT_MODIFIED, reply.headers, time).policy;
            Tagged(policy.responseHeaders, stored.body, bodyOf)
  {
    var value :| TagOf(stored.policy.responseHeaders, value) && stored.body == bodyOf(value);
    ScanStoredTag(value);
    var current :| current in ScanTags(Printed(Tag(false, value)))
                   && ("etag" in reply.headers ==> TagOf(reply.headers, current));
    assert current == value;
    MergedValue(stored.policy.responseHeaders, reply.headers, "etag");
    assert TagOf(Merged(stored.policy.responseHeaders, reply.headers), value);
  }

  // ---- What a run keeps ----

  // A candidate under validation: tagged, asked for by its tag, and the body
  // of the put its policy comes from.
  ghost predicate CandidateOk(log: seq<Entry>, stored: Entry, request: Headers, from: nat, bodyOf: string -> Bytes) {
    && Tagged(stored.policy.responseHeaders, stored.body, bodyOf)
    && ListsItsTag(request, stored)
    && from < |log| && log[from].body == stored.body
  }

  ghost predicate WaitTagged(log: seq<Entry>, w: Waiting, bodyOf: string -> Bytes) {
    w.conn.ctx.Some? && (w.conn.ctx.value.Miss? || w.conn.ctx.value.Revalidation?) ==>
      && w.conn.response == map[] && !w.conn.halted
      && (w.conn.ctx.value.Miss? ==> "if-none-match" !in w.conn.request)
      && (w.conn.ctx.value.Revalidation? ==>
            CandidateOk(log, w.conn.ctx.value.stored, w.conn.request, w.from, bodyOf))
  }

  ghost predicate EntriesTagged(sys: System, bodyOf: string -> Bytes) {
    forall slot :: At(sys.store, slot).Some? ==>
      Tagged(At(sys.store, slot).value.policy.responseHeaders, At(sys.store, slot).value.body, bodyOf)
  }

  ghost predicate PendingTagged(sys: System, bodyOf: string -> Bytes) {
    && (forall i :: 0 <= i < |sys.puts| ==>
          Tagged(sys.puts[i].0.policy.responseHeaders, sys.puts[i].1.bytes, bodyOf))
    && (forall id :: id in sys.waiting ==> WaitTagged(sys.log, sys.waiting[id], bodyOf))
    && (forall i :: 0 <= i < |sys.backgrounds| ==>
          CandidateOk(sys.log, sys.backgrounds[i].task.stored, sys.backgrounds[i].task.request,
                      sys.backgrounds[i].from, bodyOf))
  }

  ghost predicate HonestEvent(sys: System, event: Event, bodyOf: string -> Bytes) {
    match event
    case LookUp(_, _, conn, _) => "if-none-match" !in conn.request
    case Answer(id, reply, _) =>
      id in sys.waiting && reply.Some? ==> HonestReply(sys.waiting[id].conn.request, reply.value, bodyOf)
    case FinishBackground(i, reply, _) =>
      i < |sys.backgrounds| && reply.Some? ==> HonestReply(sys.backgrounds[i].task.request, reply.value, bodyOf)
    case _ => true
  }

  // ---- Operations ----

  lemma PutKeepsTags(lib: Library, sys: System, key: CacheKey, entry: Entry, from: nat, bodyOf: string -> Bytes)
    requires BucketsDistinct(sys.store) && EntriesTagged(sys, bodyOf) && PendingTagged(sys, bodyOf)
    requires Tagged(entry.policy.responseHeaders, entry.body, bodyOf)
    ensures var sys' := DoOp(sys, PutEntry(key, entry), from);
            EntriesTagged(sys', bodyOf) && PendingTagged(sys', bodyOf)
  {
    var sys' := DoOp(sys, PutEntry(key, entry), from);
    forall slot | At(sys'.store, slot).Some?
      ensures Tagged(At(sys'.store, slot).value.policy.responseHeaders, At(sys'.store, slot).value.body, bodyOf)
    {
      PutAt(sys.store, key, entry, slot);
    }
    forall id | id in sys.waiting ensures WaitTagged(sys'.log, sys.waiting[id], bodyOf) {
      assert WaitTagged(sys.log, sys.waiting[id], bodyOf);
    }
    forall i | 0 <= i < |sys.backgrounds|
      ensures CandidateOk(sys'.log, sys.backgrounds[i].task.stored, sys.backgrounds[i].task.request,
                          sys.backgrounds[i].from, bodyOf)
    {
    }
  }

  // A refresh that lands on its own put keeps the tag over the body.
  lemma RefreshKeepsTags(
    lib: Library, sys: System, key: CacheKey, policy: CachePolicy, from: nat, body: Bytes, bodyOf: string -> Bytes)
    requires Tracked(lib, sys) && EntriesTagged(sys, bodyOf) && PendingTagged(sys, bodyOf)
    requires Tagged(policy.responseHeaders, body, bodyOf) && from < |sys.log| && sys.log[from].body == body
    requires SlotOf(key, policy) in sys.origins ==> sys.origins[SlotOf(key, policy)].body == from
    ensures var sys' := DoOp(sys, RefreshEntry(key, policy), from);
            EntriesTagged(sys', bodyOf) && PendingTagged(sys', bodyOf)
  {
    var sys' := DoOp(sys, RefreshEntry(key, policy), from);
    forall slot | At(sys'.store, slot).Some?
      ensures Tagged(At(sys'.store, slot).value.policy.responseHeaders, At(sys'.store, slot).value.body, bodyOf)
    {
      RefreshAt(sys.store, key, policy, slot);
      assert SlotTracked(lib, sys, slot);
    }
  }

  // ---- Events ----

  lemma StartTags(isClient: bool, lib: Library, s: State, env: Env)
    requires Incoming(s)
    ensures var t := Start(isClient, lib, s, env);
            && (t.conn.ctx.Some? && (t.conn.ctx.value.Miss? || t.conn.ctx.value.Revalidation?) ==>
                  t.conn.response == map[] && !t.conn.halted)
            && (t.conn.ctx.Some? && t.conn.ctx.value.Miss? ==> t.conn.request == s.conn.request)
            && (t.conn.ctx.Some? && t.conn.ctx.value.Revalidation? ==>
                  var stored := t.conn.ctx.value.stored;
                  && Chosen(lib, s, env) == Some(stored)
                  && t.conn.request == RevalidationHeaders(stored.policy, s.conn.request))
            && (t.background.Some? ==>
                  && Chosen(lib, s, env) == Some(t.background.value.stored)
                  && t.background.value.request == RevalidationHeaders(t.background.value.stored.policy, s.conn.request))
  {
    LookupOutcome(isClient, lib, s, env);
    PickFacts(lib, Candidates(s), s.conn.request, env.atLookup);
  }

  lemma ChosenOk(lib: Library, sys: System, s: State, env: Env, bodyOf: string -> Bytes)
    requires Tracked(lib, sys) && AllPaired(sys) && EntriesTagged(sys, bodyOf)
    requires s.store == sys.store && Chosen(lib, s, env).Some? && "if-none-match" !in s.conn.request
    ensures var e := Chosen(lib, s, env).value;
            CandidateOk(sys.log, e, RevalidationHeaders(e.policy, s.conn.request),
                        PolicyPut(sys, CacheKey(s.conn.verb, s.conn.url), e.policy), bodyOf)
  {
    var e := Chosen(lib, s, env).value;
    var slot := SlotOf(CacheKey(s.conn.verb, s.conn.url), e.policy);
    PickFacts(lib, Candidates(s), s.conn.request, env.atLookup);
    Memory.FindMember(Candidates(s), e);
    assert SlotTracked(lib, sys, slot) && At(sys.store, slot) == Some(e);
    ForwardsItsTag(e, s.conn.request, bodyOf);
  }

  lemma LookUpKeepsTags(
    lib: Library, sys: System, id: nat, isClient: bool, conn: Conn, env: Env, bodyOf: string -> Bytes)
    requires Tracked(lib, sys) && AllPaired(sys) && EntriesTagged(sys, bodyOf) && PendingTagged(sys, bodyOf)
    requires "if-none-match" !in conn.request
    ensures var sys' := OnLookUp(lib, sys, id, isClient, conn, env);
            EntriesTagged(sys', bodyOf) && PendingTagged(sys', bodyOf)
  {
    var s := State(conn, sys.store, None, None);
    if id !in sys.waiting && Incoming(s) {
      var sys' := OnLookUp(lib, sys, id, isClient, conn, env);
      StartedTagged(isClient, lib, sys, s, env, bodyOf);
      MorePending(sys, id, sys'.waiting[id], sys'.backgrounds, bodyOf);
    }
  }

  // The put behind the policy of the chosen candidate.
  function ChosenPut(lib: Library, sys: System, s: State, env: Env): nat {
    var e := Chosen(lib, s, env);
    if e.Some? then PolicyPut(sys, CacheKey(s.conn.verb, s.conn.url), e.value.policy) else 0
  }

  lemma StartedTagged(isClient: bool, lib: Library, sys: System, s: State, env: Env, bodyOf: string -> Bytes)
    requires Tracked(lib, sys) && AllPaired(sys) && EntriesTagged(sys, bodyOf)
    requires s.store == sys.store && Incoming(s) && "if-none-match" !in s.conn.request
    ensures var t, from := Start(isClient, lib, s, env), ChosenPut(lib, sys, s, env);
            && WaitTagged(sys.log, Waiting(isClient, t.conn, from), bodyOf)
            && (t.background.Some? ==>
                  CandidateOk(sys.log, t.background.value.stored, t.background.value.request, from, bodyOf))
  {
    StartTags(isClient, lib, s, env);
    if Chosen(lib, s, env).Some? { ChosenOk(lib, sys, s, env, bodyOf); }
  }

  lemma MorePending(sys: System, id: nat, w: Waiting, backgrounds: seq<Later>, bodyOf: string -> Bytes)
    requires PendingTagged(sys, bodyOf) && WaitTagged(sys.log, w, bodyOf)
    requires backgrounds == sys.backgrounds
             || exists l :: backgrounds == sys.backgrounds + [l]
                            && CandidateOk(sys.log, l.task.stored, l.task.request, l.from, bodyOf)
    ensures PendingTagged(sys.(waiting := sys.waiting[id := w], backgrounds := backgrounds), bodyOf)
  {
  }

  // Where a new put comes from: the reply as it was received.
  lemma PutIsReply(isClient: bool, lib: Library, cfg: Config, s: State, env: Env)
    requires s.put.None?
    ensures var t := Finish(isClient, lib, cfg, s, env);
            t.put.Some? ==>
              && s.conn.status.Some? && t.put.value.policy.responseHeaders == s.conn.response
              && t.conn.body.Some? && t.conn.body.value.Teed?
              && s.conn.body == Some(PassThrough(t.conn.body.value.origin))
              && (s.conn.ctx.Some? && s.conn.ctx.value.Revalidation? ==> s.conn.status != Some(NOT_MODIFIED))
  {
  }

  lemma GotIsReply(sys: System, w: Waiting, reply: Option<Reply>)
    requires w.conn.ctx.Some? && w.conn.response == map[] && !w.conn.halted && WaitOk(w)
    ensures var got := Got(sys, w, reply);
            && got.conn.request == w.conn.request
            && (got.conn.status.Some? ==>
                  && reply.Some? && got.conn.status == Some(reply.value.status)
                  && got.conn.response == reply.value.headers
                  && (got.conn.body.Some? ==>
                        got.conn.body == Some(PassThrough(reply.value.body.value)) && reply.value.body.Some?))
  {
    if reply.Some? { assert map[] + reply.value.headers == reply.value.headers; }
  }

  lemma AnswerPutTagged(
    lib: Library, cfg: Config, sys: System, w: Waiting, reply: Option<Reply>, env: Env, bodyOf: string -> Bytes)
    requires WaitOk(w) && WaitTagged(sys.log, w, bodyOf)
    requires reply.Some? ==> HonestReply(w.conn.request, reply.value, bodyOf)
    ensures var t := Finish(w.isClient, lib, cfg, Got(sys, w, reply), env);
            t.put.Some? && t.conn.body.Some? && t.conn.body.value.Teed? ==>
              Tagged(t.put.value.policy.responseHeaders, t.conn.body.value.origin.bytes, bodyOf)
  {
    var got := Got(sys, w, reply);
    var t := Finish(w.isClient, lib, cfg, got, env);
    GotFacts(sys, w, reply);
    FinishPut(w.isClient, lib, cfg, got, env);
    PutIsReply(w.isClient, lib, cfg, got, env);
    if t.put.Some? {
      GotIsReply(sys, w, reply);
      assert reply.value.status != NOT_MODIFIED;
    }
  }

  lemma FewerPending(sys: System, sys': System, bodyOf: string -> Bytes)
    requires PendingTagged(sys, bodyOf) && sys'.log == sys.log && sys'.backgrounds == sys.backgrounds
    requires forall id :: id in sys'.waiting ==> id in sys.waiting && sys'.waiting[id] == sys.waiting[id]
    requires sys'.puts == sys.puts
             || exists p :: sys'.puts == sys.puts + [p] && Tagged(p.0.policy.responseHeaders, p.1.bytes, bodyOf)
    ensures PendingTagged(sys', bodyOf)
  {
  }

  lemma AnswerRefresh(
    lib: Library, cfg: Config, sys: System, w: Waiting, reply: Option<Reply>, env: Env, bodyOf: string -> Bytes)
    requires WaitOk(w) && WaitTagged(sys.log, w, bodyOf)
    requires reply.Some? ==> HonestReply(w.conn.request, reply.value, bodyOf)
    requires RefreshOp(lib, Got(sys, w, reply), env).Some?
    ensures var op := RefreshOp(lib, Got(sys, w, reply), env).value;
            && op.RefreshEntry? && w.from < |sys.log|
            && Tagged(op.policy.responseHeaders, sys.log[w.from].body, bodyOf)
  {
    var got := Got(sys, w, reply);
    GotFacts(sys, w, reply);
    GotIsReply(sys, w, reply);
    var stored := w.conn.ctx.value.stored;
    NotModifiedKeepsTag(lib, stored, w.conn.request, reply.value, env.atMerge, bodyOf);
  }

  // Storage and what is pending, together.
  ghost predicate TagInv(sys: System, bodyOf: string -> Bytes) {
    EntriesTagged(sys, bodyOf) && PendingTagged(sys, bodyOf)
  }

  lemma LeftPending(
    lib: Library, cfg: Config, sys: System, id: nat, reply: Option<Reply>, env: Env, bodyOf: string -> Bytes)
    requires id in sys.waiting && WaitOk(sys.waiting[id]) && PendingTagged(sys, bodyOf)
    requires reply.Some? ==> HonestReply(sys.waiting[id].conn.request, reply.value, bodyOf)
    ensures PendingTagged(Left(sys, id, OnAnswer(lib, cfg, sys, id, reply, env)), bodyOf)
  {
    AnswerPutTagged(lib, cfg, sys, sys.waiting[id], reply, env, bodyOf);
    FewerPending(sys, Left(sys, id, OnAnswer(lib, cfg, sys, id, reply, env)), bodyOf);
  }

  lemma AnswerKeepsTags(
    lib: Library, cfg: Config, sys: System, id: nat, reply: Option<Reply>, env: Env, bodyOf: string -> Bytes)
    requires Tracked(lib, sys) && KeysOk(sys) && TagInv(sys, bodyOf)
    requires HonestEvent(sys, Answer(id, reply, env), bodyOf) && LandsOnOwn(lib, cfg, sys, Answer(id, reply, env))
    ensures TagInv(OnAnswer(lib, cfg, sys, id, reply, env), bodyOf)
  {
    if id in sys.waiting {
      var w := sys.waiting[id];
      var sys' := OnAnswer(lib, cfg, sys, id, reply, env);
      var left := Left(sys, id, sys');
      assert WaitTagged(sys.log, w, bodyOf);
      AnswerShape(lib, cfg, sys, id, reply, env);
      LeftPending(lib, cfg, sys, id, reply, env, bodyOf);
      var op := RefreshOp(lib, Got(sys, w, reply), env);
      if op.Some? {
        LeftTracked(lib, sys, left);
        AnswerRefreshes(lib, cfg, sys, left, w, reply, env, bodyOf);
      }
    }
  }

  lemma AnswerRefreshes(
    lib: Library, cfg: Config, sys: System, left: System, w: Waiting, reply: Option<Reply>, env: Env,
    bodyOf: string -> Bytes)
    requires WaitOk(w) && WaitTagged(sys.log, w, bodyOf)
    requires reply.Some? ==> HonestReply(w.conn.request, reply.value, bodyOf)
    requires Tracked(lib, left) && TagInv(left, bodyOf) && left.log == sys.log
    requires var op := RefreshOp(lib, Got(sys, w, reply), env);
             && op.Some? && op.value.RefreshEntry?
             && var slot := SlotOf(op.value.key, op.value.policy);
             slot in left.origins ==> left.origins[slot].body == w.from
    ensures TagInv(DoOp(left, RefreshOp(lib, Got(sys, w, reply), env).value, w.from), bodyOf)
  {
    var op := RefreshOp(lib, Got(sys, w, reply), env).value;
    AnswerRefresh(lib, cfg, sys, w, reply, env, bodyOf);
    RefreshKeepsTags(lib, left, op.key, op.policy, w.from, sys.log[w.from].body, bodyOf);
  }

  lemma LeftTracked(lib: Library, sys: System, sys': System)
    requires Tracked(lib, sys)
    requires sys'.store == sys.store && sys'.origins == sys.origins && sys'.log == sys.log
    requires forall id :: id in sys'.waiting ==> id in sys.waiting && sys'.waiting[id] == sys.waiting[id]
    requires forall i :: 0 <= i < |sys'.backgrounds| ==> sys'.backgrounds[i] in sys.backgrounds
    ensures Tracked(lib, sys')
  {
    forall slot ensures SlotTracked(lib, sys', slot) {
      assert SlotTracked(lib, sys, slot);
    }
  }

  lemma CommitKeepsTags(lib: Library, cfg: Config, sys: System, i: nat, bodyOf: string -> Bytes)
    requires Tracked(lib, sys) && TagInv(sys, bodyOf)
    ensures TagInv(OnEvent(lib, cfg, sys, CommitPut(i)), bodyOf)
  {
    if i < |sys.puts| {
      var (put, o) := sys.puts[i];
      var rest := sys.(puts := Remove(sys.puts, i));
      assert forall k :: 0 <= k < |rest.puts| ==> rest.puts[k] in sys.puts;
      assert TagInv(rest, bodyOf);
      if Tee.Fits(|o.bytes|, cfg.maxCacheableSize) {
        PutKeepsTags(lib, rest, put.key, Entry(put.policy, o.bytes, o.trailers), 0, bodyOf);
      }
    }
  }

  lemma BackgroundKeepsTags(
    lib: Library, cfg: Config, sys: System, i: nat, reply: Option<Reply>, env: Env, bodyOf: string -> Bytes)
    requires Tracked(lib, sys) && TagInv(sys, bodyOf)
    requires HonestEvent(sys, FinishBackground(i, reply, env), bodyOf)
    requires LandsOnOwn(lib, cfg, sys, FinishBackground(i, reply, env))
    ensures TagInv(OnEvent(lib, cfg, sys, FinishBackground(i, reply, env)), bodyOf)
  {
    if i < |sys.backgrounds| {
      var later := sys.backgrounds[i];
      var rest := sys.(backgrounds := Remove(sys.backgrounds, i));
      assert forall k :: 0 <= k < |rest.backgrounds| ==> rest.backgrounds[k] in sys.backgrounds;
      assert TagInv(rest, bodyOf);
      LeftTracked(lib, sys, rest);
      var op := BackgroundOp(lib, cfg, later.task, reply, env);
      BackgroundKey(lib, cfg, later.task, reply, env);
      if op.Some? {
        BackgroundOpTagged(lib, cfg, sys, later, reply, env, bodyOf);
        if op.value.PutEntry? {
          PutKeepsTags(lib, rest, op.value.key, op.value.entry, later.from, bodyOf);
        } else {
          RefreshKeepsTags(lib, rest, op.value.key, op.value.policy, later.from, later.task.stored.body, bodyOf);
        }
      }
    }
  }

  lemma BackgroundOpTagged(
    lib: Library, cfg: Config, sys: System, later: Later, reply: Option<Reply>, env: Env, bodyOf: string -> Bytes)
    requires CandidateOk(sys.log, later.task.stored, later.task.request, later.from, bodyOf)
    requires reply.Some? ==> HonestReply(later.task.request, reply.value, bodyOf)
    requires BackgroundOp(lib, cfg, later.task, reply, env).Some?
    ensures var op := BackgroundOp(lib, cfg, later.task, reply, env).value;
            && (op.PutEntry? ==> Tagged(op.entry.policy.responseHeaders, op.entry.body, bodyOf))
            && (op.RefreshEntry? ==> Tagged(op.policy.responseHeaders, later.task.stored.body, bodyOf))
  {
    if reply.value.status == NOT_MODIFIED {
      NotModifiedKeepsTag(lib, later.task.stored, later.task.request, reply.value, env.atMerge, bodyOf);
    }
  }

  lemma CallKeepsTags(lib: Library, cfg: Config, sys: System, i: nat, bodyOf: string -> Bytes)
    requires TagInv(sys, bodyOf)
    ensures TagInv(OnEvent(lib, cfg, sys, PerformCall(i)), bodyOf)
  {
    if i < |sys.calls| {
      var sys' := OnEvent(lib, cfg, sys, PerformCall(i));
      forall slot | At(sys'.store, slot).Some? ensures At(sys'.store, slot) == At(sys.store, slot) {
      }
    }
  }

  lemma EventKeepsTags(lib: Library, cfg: Config, sys: System, event: Event, bodyOf: string -> Bytes)
    requires Tracked(lib, sys) && KeysOk(sys) && AllPaired(sys) && TagInv(sys, bodyOf)
    requires HonestEvent(sys, event, bodyOf) && LandsOnOwn(lib, cfg, sys, event)
    ensures TagInv(OnEvent(lib, cfg, sys, event), bodyOf)
  {
    match event
    case LookUp(id, isClient, conn, env) => LookUpKeepsTags(lib, sys, id, isClient, conn, env, bodyOf);
    case Answer(id, reply, env) => AnswerKeepsTags(lib, cfg, sys, id, reply, env, bodyOf);
    case PerformCall(i) => CallKeepsTags(lib, cfg, sys, i, bodyOf);
    case CommitPut(i) => CommitKeepsTags(lib, cfg, sys, i, bodyOf);
    case AbandonPut(i) =>
      if i < |sys.puts| {
        assert forall k :: 0 <= k < |Remove(sys.puts, i)| ==> Remove(sys.puts, i)[k] in sys.puts;
      }
    case FinishBackground(i, reply, env) => BackgroundKeepsTags(lib, cfg, sys, i, reply, env, bodyOf);
  }

  ghost predicate AlwaysHonest(lib: Library, cfg: Config, events: seq<Event>, bodyOf: string -> Bytes) {
    events == []
    || (var n := |events| - 1;
        AlwaysHonest(lib, cfg, events[..n], bodyOf)
        && HonestEvent(RunEvents(lib, cfg, events[..n]), events[n], bodyOf))
  }

  // In every such run each stored body is the one its tag names.
  lemma {:induction false} StoredBodiesKeepTheirTags(
    lib: Library, cfg: Config, events: seq<Event>, bodyOf: string -> Bytes)
    requires AlwaysHonest(lib, cfg, events, bodyOf) && AlwaysLandsOnOwn(lib, cfg, events)
    ensures TagInv(RunEvents(lib, cfg, events), bodyOf)
  {
    if events != [] {
      var n := |events| - 1;
      StoredBodiesKeepTheirTags(lib, cfg, events[..n], bodyOf);
      StoredComesFromPuts(lib, cfg, events[..n]);
      OnlyGetAndHeadStored(lib, cfg, events[..n]);
      RunPairsIff(lib, cfg, events[..n]);
      EventKeepsTags(lib, cfg, RunEvents(lib, cfg, events[..n]), events[n], bodyOf);
    }
  }

  // So at any point of such a run a request that is revalidated gets the
  // origin's current body.
  lemma RunServesCurrent(
    lib: Library, cfg: Config, events: seq<Event>, bodyOf: string -> Bytes,
    isClient: bool, conn: Conn, reply: Reply, env: Env, stored: Entry, current: string)
    requires AlwaysHonest(lib, cfg, events, bodyOf) && AlwaysLandsOnOwn(lib, cfg, events)
    requires var s := State(conn, RunEvents(lib, cfg, events).store, None, None);
             Revalidating(isClient, lib, s, env, stored) && !IsServerError(reply.status)
    requires "if-none-match" !in conn.request
    requires Honest(RevalidationHeaders(stored.policy, conn.request), reply, current, bodyOf)
    ensures var s := State(conn, RunEvents(lib, cfg, events).store, None, None);
            Received(cfg, Exchange(isClient, lib, cfg, s, Some(reply), env).conn.body).0 == bodyOf(current)
  {
    var sys := RunEvents(lib, cfg, events);
    var s := State(conn, sys.store, None, None);
    StoredBodiesKeepTheirTags(lib, cfg, events, bodyOf);
    StoredComesFromPuts(lib, cfg, events);
    PickFacts(lib, Candidates(s), conn.request, env.atLookup);
    Memory.FindMember(Candidates(s), stored);
    assert At(sys.store, SlotOf(CacheKey(conn.verb, conn.url), stored.policy)) == Some(stored);
    var value :| TagOf(stored.policy.responseHeaders, value) && stored.body == bodyOf(value);
    RevalidationServesCurrent(isClient, lib, cfg, s, reply, env, stored, value, current, bodyOf);
  }
}
