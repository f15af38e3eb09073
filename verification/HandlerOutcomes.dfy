/** Which of its courses a handler takes, request by request: a hit, a made 304, a
    stale answer with a revalidation behind it, a conditional request, a miss; and
    the stored answer on an error. */
module HandlerOutcomes {
  import opened Wrappers
  import opened Text
  import opened Http
  import opened Policy
  import opened Freshness
  import opened Storability
  import opened Validation
  import opened Storage
  import opened Handlers
  import opened HandlerTheorems
  import opened HandlerRuns
  import EntityTags
  import Memory
  import Tee

  // The candidate may be used without asking the origin.
  predicate Usable(lib: Library, s: State, env: Env, e: Entry) {
    SatisfiesWithoutRevalidation(lib, e.policy, s.conn.request, env.atLookup)
  }

  // What a lookup does with the first matching candidate.
  ghost predicate CandidateOutcome(isClient: bool, lib: Library, s: State, env: Env, e: Entry, t: State) {
    var p, key := e.policy, CacheKey(s.conn.verb, s.conn.url);
    var asks := RevalidationHeaders(p, s.conn.request);
    var window := isClient && InWindow(lib, p, Response(p).staleWhileRevalidate, env.atLookup);
    if Usable(lib, s, env, e) then
      && t.background.None?
      && if InboundConditionalMatches(lib, p, s.conn.request) then
           t == s.(conn := s.conn.(status := Some(304), response := Response304At(p, env.atLookup).headers,
                                   body := Some(MadeNotModified(e)), halted := true, ctx := Some(Hit)))
         else if env.openOk then
           t == s.(conn := s.conn.(status := Some(p.responseStatus), response := ResponseAt(p, env.atLookup).headers,
                                   body := Some(Replay(e)), halted := true, ctx := Some(Hit)))
         else t.conn.body.None? && t.conn.ctx.None? && !t.conn.halted && t.conn.request == s.conn.request
    else if window then
      && t.background == Some(Background(e, key, asks))
      && (t.conn.halted <==> env.openOk)
      && (if env.openOk then
            t.conn == s.conn.(status := Some(p.responseStatus), response := ResponseAt(p, env.atLookup).headers,
                              body := Some(Replay(e)), halted := true, ctx := Some(Hit))
          else t.conn == s.conn)
    else
      t == s.(conn := s.conn.(request := asks, ctx := Some(Revalidation(e, key))))
  }

  lemma ClientOutcome(lib: Library, s: State, env: Env, e: Entry)
    requires Incoming(s) && Chosen(lib, s, env) == Some(e)
    ensures CandidateOutcome(true, lib, s, env, e, ClientRun(lib, s, env))
  {
    PickFacts(lib, Candidates(s), s.conn.request, env.atLookup);
    WindowsAreDirectives(lib, e.policy, env.atLookup);
  }

  lemma ServerOutcome(lib: Library, s: State, env: Env, e: Entry)
    requires Incoming(s) && Chosen(lib, s, env) == Some(e)
    ensures CandidateOutcome(false, lib, s, env, e, ServerRun(lib, s, env))
  {
    PickFacts(lib, Candidates(s), s.conn.request, env.atLookup);
  }

  // Every lookup of both handlers: unsafe methods are passed on and remembered;
  // the first candidate whose signature matches is answered from, served stale
  // with a revalidation started, or sent for validation; without one it is a
  // miss.
  lemma LookupOutcome(isClient: bool, lib: Library, s: State, env: Env)
    requires Incoming(s)
    ensures var t, key := Start(isClient, lib, s, env), CacheKey(s.conn.verb, s.conn.url);
            var first := FirstMatch(Candidates(s), s.conn.request);
            if MayChange(s.conn.verb) then t == s.(conn := s.conn.(ctx := Some(Unsafe(s.conn.url))))
            else if first.None? then t == s.(conn := s.conn.(ctx := Some(Miss(key))))
            else CandidateOutcome(isClient, lib, s, env, Candidates(s)[first.value], t)
  {
    PickFacts(lib, Candidates(s), s.conn.request, env.atLookup);
    var first := FirstMatch(Candidates(s), s.conn.request);
    if IsSafe(s.conn.verb) && first.Some? {
      if isClient {
        ClientOutcome(lib, s, env, Candidates(s)[first.value]);
      } else {
        ServerOutcome(lib, s, env, Candidates(s)[first.value]);
      }
    }
  }

  // A caller whose own precondition holds of a usable candidate gets a 304
  // without a body, with the stored metadata and the age.
  lemma CallerConditionAnswered(
    isClient: bool, lib: Library, cfg: Config, s: State, env: Env, e: Entry, name: string)
    requires Incoming(s) && Chosen(lib, s, env) == Some(e) && Usable(lib, s, env, e)
    requires InboundConditionalMatches(lib, e.policy, s.conn.request)
    ensures var t := Start(isClient, lib, s, env);
            && t.conn.halted && t.conn.status == Some(304) && Received(cfg, t.conn.body) == ([], None)
            && GetValues(t.conn.response, name)
               == (if name == "age" then AgeText(Age(e.policy, env.atLookup))
                   else if name == "date" || name == "etag" || name == "last-modified" || name == "vary"
                           || name == "cache-control" || name == "content-location" || name == "expires"
                   then GetValues(e.policy.responseHeaders, name)
                   else None)
  {
    LookupOutcome(isClient, lib, s, env);
    PickFacts(lib, Candidates(s), s.conn.request, env.atLookup);
    NotModifiedHeaders(e.policy, env.atLookup, name);
  }

  // So a revalidation is started in the background exactly when the client has
  // a first match that may not be used as it is and lies within the window of
  // its stale-while-revalidate directive; it is for that candidate and key,
  // and its request lists the stored tag where the caller lists none.
  lemma BackgroundStartedIff(lib: Library, s: State, env: Env, value: string)
    requires Incoming(s)
    ensures var t, e := ClientRun(lib, s, env), Chosen(lib, s, env);
            && (t.background.Some? <==>
                  && e.Some? && !Usable(lib, s, env, e.value)
                  && InWindow(lib, e.value.policy, Response(e.value.policy).staleWhileRevalidate, env.atLookup))
            && (t.background.Some? ==>
                  && t.background.value.stored == e.value
                  && t.background.value.key == CacheKey(s.conn.verb, s.conn.url)
                  && (t.conn.halted <==> env.openOk)
                  && ("if-none-match" !in s.conn.request && ',' !in value && '"' !in value
                      && GetStr(e.value.policy.responseHeaders, "etag") == Some(EntityTags.Printed(EntityTags.Tag(false, value)))
                      ==> GetStr(t.background.value.request, "if-none-match")
                          == Some(EntityTags.Printed(EntityTags.Tag(false, value)))))
  {
    LookupOutcome(true, lib, s, env);
    PickFacts(lib, Candidates(s), s.conn.request, env.atLookup);
    var e := Chosen(lib, s, env);
    if e.Some? && "if-none-match" !in s.conn.request && ',' !in value && '"' !in value
       && GetStr(e.value.policy.responseHeaders, "etag") == Some(EntityTags.Printed(EntityTags.Tag(false, value))) {
      RevalidationListsStoredTag(e.value.policy, s.conn.request, value);
    }
  }

  // ---- The stored answer on an error ----

  // A validation that came back with a 5xx, or for the client with no answer.
  predicate FailedReply(isClient: bool, reply: Option<Reply>) {
    if reply.None? then isClient else 500 <= reply.value.status < 600
  }

  ghost predicate ErrorOutcome(lib: Library, s: State, stored: Entry, env: Env, t: State) {
    var inside := InWindow(lib, stored.policy, Response(stored.policy).staleIfError, env.atReply);
    && (FromStorage(t.conn.body) <==> inside && env.openOk)
    && (inside && env.openOk ==>
          && t.conn.body == Some(Replay(stored)) && t.conn.status == Some(stored.policy.responseStatus)
          && t.conn.response == ResponseAt(stored.policy, env.atReply).headers && !t.conn.error)
  }

  lemma ClientError(lib: Library, cfg: Config, s: State, stored: Entry, key: CacheKey, env: Env)
    requires s.conn.ctx == Some(Revalidation(stored, key)) && !FromStorage(s.conn.body)
    requires s.conn.error || (s.conn.status.Some? && IsServerError(s.conn.status.value))
    requires s.conn.error ==> s.conn.status.None?
    ensures ErrorOutcome(lib, s, stored, env, ClientAfter(lib, cfg, s, env))
  {
    WindowsAreDirectives(lib, stored.policy, env.atReply);
    if s.conn.status.Some? && s.conn.status.value != NOT_MODIFIED {
      var u := s.(conn := s.conn.(ctx := None));
      RevalidationBody(lib, cfg, u, stored, key, s.conn.status.value, env, HeaderOverCap(cfg, u.conn.response));
    }
  }

  lemma ServerError(lib: Library, cfg: Config, s: State, stored: Entry, key: CacheKey, env: Env)
    requires s.conn.ctx == Some(Revalidation(stored, key)) && !FromStorage(s.conn.body) && !s.conn.error
    requires s.conn.status.Some? && IsServerError(s.conn.status.value)
    ensures ErrorOutcome(lib, s, stored, env, ServerAfter(lib, cfg, s, env))
  {
    WindowsAreDirectives(lib, stored.policy, env.atReply);
    var u := s.(conn := s.conn.(ctx := None));
    RevalidationBody(lib, cfg, u, stored, key, s.conn.status.value, env, LengthOverCap(cfg, u.conn.body));
  }

  // When validation fails, the stored response is served exactly within the
  // window of its stale-if-error directive, if its body opens; and then whole,
  // with the error put aside.
  lemma StaleIfErrorIff(
    isClient: bool, lib: Library, cfg: Config, s: State, reply: Option<Reply>, env: Env, stored: Entry)
    requires Incoming(s) && Chosen(lib, s, env) == Some(stored) && !Usable(lib, s, env, stored)
    requires isClient ==> !InWindow(lib, stored.policy, Response(stored.policy).staleWhileRevalidate, env.atLookup)
    requires FailedReply(isClient, reply)
    ensures ErrorOutcome(lib, s, stored, env, Exchange(isClient, lib, cfg, s, reply, env))
  {
    ExchangePhases(isClient, lib, cfg, s, reply, env);
    LookupOutcome(isClient, lib, s, env);
    PickFacts(lib, Candidates(s), s.conn.request, env.atLookup);
    var key := CacheKey(s.conn.verb, s.conn.url);
    var got := Receive(isClient, Start(isClient, lib, s, env), reply);
    if isClient {
      ClientError(lib, cfg, got, stored, key, env);
    } else {
      ServerError(lib, cfg, got, stored, key, env);
    }
  }

  // ---- The background and the foreground ----

  // The connection of a synchronous revalidation that got this reply.
  ghost predicate Foreground(s: State, b: Background, reply: Reply) {
    && s.conn.verb == b.key.verb && s.conn.request == b.request && s.put.None?
    && s.conn.response == reply.headers
    && s.conn.body == if reply.body.Some? then Some(PassThrough(reply.body.value)) else None
  }

  lemma ModifiedLikeForeground(
    lib: Library, cfg: Config, s: State, b: Background, reply: Reply, env: Env)
    requires Foreground(s, b, reply) && env.atStore == env.atMerge
    requires After(lib, b.stored.policy, b.request, reply.status, reply.headers, env.atMerge).Modified?
    ensures BackgroundRevalidation(lib, cfg, s.store, b, Some(reply), env)
            == Settled(cfg, HandleMiss(lib, cfg, s, b.key, reply.status, env, false))
  {
  }

  // A background revalidation leaves the storage a synchronous one would,
  // once its body has been read to the end.
  lemma BackgroundLikeForeground(
    lib: Library, cfg: Config, s: State, b: Background, reply: Reply, env: Env)
    requires Foreground(s, b, reply) && env.atStore == env.atMerge
    ensures BackgroundRevalidation(lib, cfg, s.store, b, Some(reply), env)
            == Settled(cfg, HandleRevalidation(lib, cfg, s, b.stored, b.key, reply.status, env, false))
  {
    if After(lib, b.stored.policy, b.request, reply.status, reply.headers, env.atMerge).Modified? {
      ModifiedLikeForeground(lib, cfg, s, b, reply, env);
    }
  }

  // ---- Revalidated, then served ----

  // Candidates whose signatures agree place by place have the same first match.
  lemma {:induction false} SameFirstMatch(a: seq<Entry>, b: seq<Entry>, request: Headers)
    requires |a| == |b| && forall i :: 0 <= i < |a| ==> SameVariantAs(a[i].policy, b[i].policy)
    ensures FirstMatch(a, request) == FirstMatch(b, request)
  {
    if a != [] {
      SameFirstMatch(a[1..], b[1..], request);
      assert VaryMatches(a[0].policy, request) <==> VaryMatches(b[0].policy, request);
    }
  }

  // Where a refresh lands in the bucket.
  lemma {:induction false} RefreshedAt(bucket: Memory.Bucket, i: nat, policy: CachePolicy)
    requires Memory.Distinct(bucket) && i < |bucket| && SameVariantAs(bucket[i].policy, policy)
    ensures Memory.Refreshed(bucket, policy) == bucket[i := bucket[i].(policy := policy)]
  {
    if i > 0 {
      assert !SameVariantAs(bucket[0].policy, bucket[i].policy);
      RefreshedAt(bucket[1..], i - 1, policy);
      assert bucket == [bucket[0]] + bucket[1..];
    }
  }

  // The request found the stored response stale and a 304 came back that
  // keeps its signature.
  ghost predicate RenewedBy(isClient: bool, lib: Library, s: State, env: Env, stored: Entry, reply: Reply) {
    && Revalidating(isClient, lib, s, env, stored)
    && Memory.Distinct(Candidates(s)) && env.refreshOk
    && Captured(stored.policy)
    && reply.status == NOT_MODIFIED && "vary" !in reply.headers
    && (forall n :: n in VaryNames(stored.policy.responseHeaders) ==> n !in Rewritten(s.conn.request))
  }

  function RenewedPolicy(lib: Library, s: State, env: Env, stored: Entry, reply: Reply): CachePolicy {
    After(lib, stored.policy, RevalidationHeaders(stored.policy, s.conn.request), NOT_MODIFIED, reply.headers,
          env.atMerge).policy
  }

  lemma RenewedStore(
    isClient: bool, lib: Library, cfg: Config, s: State, reply: Reply, env: Env, stored: Entry)
    requires RenewedBy(isClient, lib, s, env, stored, reply)
    ensures Exchange(isClient, lib, cfg, s, Some(reply), env).store
            == Memory.Step(s.store, RefreshEntry(CacheKey(s.conn.verb, s.conn.url),
                                                 RenewedPolicy(lib, s, env, stored, reply)))
  {
    ExchangePhases(isClient, lib, cfg, s, Some(reply), env);
    RevalidatingFacts(isClient, lib, s, env, stored, reply);
    var got := Receive(isClient, Start(isClient, lib, s, env), Some(reply));
    StartStore(isClient, lib, s, env);
    ReceivedStore(isClient, Start(isClient, lib, s, env), reply);
    FinishStore(isClient, lib, cfg, got, env);
  }

  lemma ReceivedStore(isClient: bool, s: State, reply: Reply)
    requires s.conn.response == map[]
    ensures var got := Receive(isClient, s, Some(reply));
            got.store == s.store && got.conn.response == reply.headers
  {
    assert map[] + reply.headers == reply.headers;
  }

  lemma StartStore(isClient: bool, lib: Library, s: State, env: Env)
    requires Incoming(s)
    ensures var t := Start(isClient, lib, s, env);
            t.store == s.store && (t.conn.ctx.Some? && t.conn.ctx.value.Revalidation? ==> t.conn.response == map[])
  {
    LookupOutcome(isClient, lib, s, env);
    ServedAtLookup(isClient, lib, s, env);
  }

  lemma RenewedIsChosen(
    isClient: bool, lib: Library, cfg: Config, s: State, reply: Reply, env: Env, stored: Entry, env': Env)
    requires RenewedBy(isClient, lib, s, env, stored, reply)
    ensures var key, policy := CacheKey(s.conn.verb, s.conn.url), RenewedPolicy(lib, s, env, stored, reply);
            Chosen(lib, s.(store := Memory.Step(s.store, RefreshEntry(key, policy))), env')
            == Some(stored.(policy := policy))
  {
    var key, policy := CacheKey(s.conn.verb, s.conn.url), RenewedPolicy(lib, s, env, stored, reply);
    var bucket := Candidates(s);
    var s' := s.(store := Memory.Step(s.store, RefreshEntry(key, policy)));
    PickFacts(lib, bucket, s.conn.request, env.atLookup);
    var i := FirstMatch(bucket, s.conn.request).value;
    RefreshKeepsVariant(lib, stored.policy, s.conn.request, reply.headers, env.atMerge);
    RefreshedAt(bucket, i, policy);
    assert Candidates(s') == bucket[i := stored.(policy := policy)];
    SameFirstMatch(bucket, Candidates(s'), s.conn.request);
    PickFacts(lib, Candidates(s'), s.conn.request, env'.atLookup);
  }

  // Once the 304 has been merged, the same request is a hit again, by either
  // handler: the stored bytes under the stored status, for as long as the
  // merged policy may be used, counted from the 304's arrival.
  lemma RevalidatedThenServed(
    isClient: bool, again: bool, lib: Library, cfg: Config, s: State, reply: Reply, env: Env, stored: Entry,
    env': Env)
    requires RenewedBy(isClient, lib, s, env, stored, reply) && env'.openOk && env.atMerge <= env'.atLookup
    requires SatisfiesWithoutRevalidation(lib, RenewedPolicy(lib, s, env, stored, reply), s.conn.request, env'.atLookup)
    requires !InboundConditionalMatches(lib, RenewedPolicy(lib, s, env, stored, reply), s.conn.request)
    ensures var store := Exchange(isClient, lib, cfg, s, Some(reply), env).store;
            var t := Start(again, lib, s.(store := store), env');
            && t.conn.halted
            && t.conn.status == Some(stored.policy.responseStatus)
            && Received(cfg, t.conn.body) == (stored.body, stored.trailers)
            && GetValues(t.conn.response, "age")
               == AgeText(AgeSince(stored.policy.responseHeaders, reply.headers, env'.atLookup - env.atMerge))
  {
    var policy := RenewedPolicy(lib, s, env, stored, reply);
    RenewedStore(isClient, lib, cfg, s, reply, env, stored);
    RenewedIsChosen(isClient, lib, cfg, s, reply, env, stored, env');
    var key := CacheKey(s.conn.verb, s.conn.url);
    ChosenIsServed(again, lib, cfg, s.(store := Memory.Step(s.store, RefreshEntry(key, policy))),
                   stored.(policy := policy), env');
    RenewedAge(lib, s, env, stored, reply, env'.atLookup);
  }

  function AgeText(age: Duration): Option<seq<string>> {
    Some([ToDecimal(age / SECOND)])
  }

  lemma ServedAgeText(p: CachePolicy, now: Time)
    ensures GetValues(ResponseAt(p, now).headers, "age") == AgeText(Age(p, now))
  {
    ServedHeaders(p, now, "age");
  }

  lemma RenewedAge(lib: Library, s: State, env: Env, stored: Entry, reply: Reply, now: Time)
    requires env.atMerge <= now
    ensures var policy := RenewedPolicy(lib, s, env, stored, reply);
            && policy.responseStatus == stored.policy.responseStatus
            && GetValues(ResponseAt(policy, now).headers, "age")
               == AgeText(AgeSince(stored.policy.responseHeaders, reply.headers, now - env.atMerge))
  {
    ServedAgeText(RenewedPolicy(lib, s, env, stored, reply), now);
    RefreshRestartsClock(lib, stored.policy, RevalidationHeaders(stored.policy, s.conn.request), reply.headers,
                         env.atMerge, now);
  }
}
