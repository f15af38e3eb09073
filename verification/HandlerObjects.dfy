/** The handlers as the source runs them: a connection edited in place, a loop
    over candidates, calls into storage. Each is proved to do what the functions
    in `Handlers` say. */
module HandlerObjects {
  import opened Wrappers
  import opened Text
  import opened Http
  import opened Policy
  import opened Freshness
  import opened Storability
  import opened Validation
  import opened Storage
  import opened Handlers
  import HandlerRuns
  import Memory
  import Tee

  class Connection {
    const verb: Method
    const url: Url
    var request: Headers
    var status: Option<Status>
    var response: Headers
    var body: Option<Body>
    var error: bool
    var halted: bool
    var ctx: Option<Ctx>

    ghost function View(): Conn
      reads this
    {
      Conn(verb, url, request, status, response, body, error, halted, ctx)
    }

    constructor (verb: Method, url: Url, request: Headers)
      ensures View() == Conn(verb, url, request, None, map[], None, false, false, None)
    {
      this.verb, this.url, this.request := verb, url, request;
      status, response, body := None, map[], None;
      error, halted, ctx := false, false, None;
    }
  }

  class Cache {
    const lib: Library
    const cfg: Config
    var store: Memory.Buckets
    // Left behind by the last request.
    var put: Option<PendingPut>
    var background: Option<Background>

    constructor (lib: Library, cfg: Config)
      ensures store == map[] && put.None? && background.None?
    {
      this.lib, this.cfg := lib, cfg;
      store, put, background := map[], None, None;
    }

    ghost function View(conn: Connection): State
      reads this, conn
    {
      State(conn.View(), store, put, background)
    }

    method Serve(conn: Connection, cached: CachedResponse, body: Body)
      modifies conn`status, conn`response, conn`body
      ensures View(conn) == Served(old(View(conn)), cached, body)
    {
      conn.response := cached.headers;
      conn.status := Some(cached.status);
      conn.body := Some(body);
    }

    // What both handlers do with the first matching candidate that needs no
    // validation.
    method UseCandidate(conn: Connection, stored: Entry, before: BeforeRequest, env: Env)
      requires !before.Stale?
      modifies conn
      ensures View(conn) == Usable(old(View(conn)), stored, before, env)
    {
      conn.response := before.response.headers;
      if before.Fresh? {
        if !env.openOk { return; }
        conn.body := Some(Replay(stored));
      } else {
        conn.body := Some(MadeNotModified(stored));
      }
      conn.status := Some(before.response.status);
      conn.halted := true;
      conn.ctx := Some(Hit);
    }

    method ClientRequest(conn: Connection, env: Env)
      modifies conn, this`background
      ensures View(conn) == ClientRun(lib, old(View(conn)), env)
    {
      var key := CacheKey(conn.verb, conn.url);
      if !IsSafe(conn.verb) {
        conn.ctx := Some(Unsafe(conn.url));
        return;
      }
      var entries := Memory.BucketOf(store, key);
      var i := 0;
      while i < |entries|
        invariant 0 <= i <= |entries|
        invariant View(conn) == old(View(conn))
        invariant Pick(lib, entries[i..], conn.request, env.atLookup)
                  == Pick(lib, entries, conn.request, env.atLookup)
      {
        var stored := entries[i];
        assert entries[i..][0] == stored && entries[i..][1..] == entries[i + 1..];
        var before := Before(lib, stored.policy, conn.request, env.atLookup);
        if !before.Stale? {
          UseCandidate(conn, stored, before, env);
          return;
        }
        if before.matches {
          if IsSwrEligible(lib, stored.policy, env.atLookup) {
            background := Some(Background(stored, key, before.requestHeaders));
            if env.openOk {
              Serve(conn, ResponseAt(stored.policy, env.atLookup), Replay(stored));
              conn.halted := true;
              conn.ctx := Some(Hit);
            }
            return;
          }
          conn.request := before.requestHeaders;
          conn.ctx := Some(Revalidation(stored, key));
          return;
        }
        i := i + 1;
      }
      conn.ctx := Some(Miss(key));
    }

    method ServerRequest(conn: Connection, env: Env)
      modifies conn
      ensures View(conn) == ServerRun(lib, old(View(conn)), env)
    {
      var key := CacheKey(conn.verb, conn.url);
      if !IsSafe(conn.verb) {
        conn.ctx := Some(Unsafe(conn.url));
        return;
      }
      var entries := Memory.BucketOf(store, key);
      var i := 0;
      while i < |entries|
        invariant 0 <= i <= |entries|
        invariant View(conn) == old(View(conn))
        invariant Pick(lib, entries[i..], conn.request, env.atLookup)
                  == Pick(lib, entries, conn.request, env.atLookup)
      {
        var stored := entries[i];
        assert entries[i..][0] == stored && entries[i..][1..] == entries[i + 1..];
        var before := Before(lib, stored.policy, conn.request, env.atLookup);
        if !before.Stale? {
          UseCandidate(conn, stored, before, env);
          return;
        }
        if before.matches {
          conn.request := before.requestHeaders;
          conn.ctx := Some(Revalidation(stored, key));
          return;
        }
        i := i + 1;
      }
      conn.ctx := Some(Miss(key));
    }

    method MissReply(conn: Connection, key: CacheKey, status: Status, env: Env, overCap: bool)
      modifies conn`body, this`put
      ensures View(conn) == HandleMiss(lib, cfg, old(View(conn)), key, status, env, overCap)
    {
      if !IsStorable(lib, conn.verb, conn.request, status, conn.response, cfg.options) { return; }
      if overCap { return; }
      var policy := NewPolicy(lib, conn.verb, conn.request, status, conn.response, env.atStore, cfg.options);
      if !env.putOk { return; }
      if conn.body.None? || !conn.body.value.PassThrough? { return; }
      conn.body := Some(Teed(conn.body.value.origin));
      put := Some(PendingPut(key, policy));
    }

    method RevalidationReply(
      conn: Connection, stored: Entry, key: CacheKey, status: Status, env: Env, overCap: bool)
      modifies conn, this`store, this`put
      ensures View(conn) == HandleRevalidation(lib, cfg, old(View(conn)), stored, key, status, env, overCap)
    {
      var after := After(lib, stored.policy, conn.request, status, conn.response, env.atMerge);
      match after {
        case Revalidated(policy, response) =>
          if env.refreshOk {
            store := Memory.Step(store, RefreshEntry(key, policy));
          }
          if !env.openOk { return; }
          Serve(conn, response, Replay(stored.(policy := policy)));
        case Modified => MissReply(conn, key, status, env, overCap);
      }
    }

    method InvalidateUrls(conn: Connection, url: Url, status: Status)
      modifies this`store
      ensures View(conn) == HandleUnsafe(lib, old(View(conn)), url, status)
    {
      if !IsSuccess(status) && !IsRedirection(status) { return; }
      store := store - {CacheKey(Get, url), CacheKey(Head, url)};
      var i := 0;
      while i < |TARGET_HEADERS|
        invariant 0 <= i <= |TARGET_HEADERS| == 2
        invariant put == old(put) && background == old(background)
        invariant var first := InvalidateUrl(old(store), url);
                  var second := InvalidateTarget(first, Target(lib, url, conn.response, TARGET_HEADERS[0]));
                  var third := InvalidateTarget(second, Target(lib, url, conn.response, TARGET_HEADERS[1]));
                  store == if i == 0 then first else if i == 1 then second else third
      {
        var target := Target(lib, url, conn.response, TARGET_HEADERS[i]);
        if target.Some? {
          store := InvalidateUrl(store, target.value);
        }
        i := i + 1;
      }
    }

    method ClientReply(conn: Connection, env: Env)
      modifies conn, this`store, this`put
      ensures View(conn) == ClientAfter(lib, cfg, old(View(conn)), env)
    {
      if conn.ctx.None? { return; }
      var ctx := conn.ctx.value;
      conn.ctx := None;
      if ctx.Revalidation? {
        var failed := conn.error || (conn.status.Some? && IsServerError(conn.status.value));
        if failed && IsSieEligible(lib, ctx.stored.policy, env.atReply) {
          if !env.openOk { return; }
          Serve(conn, ResponseAt(ctx.stored.policy, env.atReply), Replay(ctx.stored));
          conn.error := false;
          return;
        }
      }
      if conn.status.None? { return; }
      var status := conn.status.value;
      match ctx {
        case Hit =>
        case Revalidation(stored, key) =>
          RevalidationReply(conn, stored, key, status, env, HeaderOverCap(cfg, conn.response));
        case Miss(key) => MissReply(conn, key, status, env, HeaderOverCap(cfg, conn.response));
        case Unsafe(url) => InvalidateUrls(conn, url, status);
      }
    }

    method ServerReply(conn: Connection, env: Env)
      modifies conn, this`store, this`put
      ensures View(conn) == ServerAfter(lib, cfg, old(View(conn)), env)
    {
      if conn.ctx.None? { return; }
      var ctx := conn.ctx.value;
      conn.ctx := None;
      match ctx {
        case Hit =>
        case Revalidation(stored, key) =>
          var failed := conn.status.Some? && IsServerError(conn.status.value);
          if failed && IsSieEligible(lib, stored.policy, env.atReply) {
            if !env.openOk { return; }
            Serve(conn, ResponseAt(stored.policy, env.atReply), Replay(stored));
            return;
          }
          if conn.status.None? { return; }
          RevalidationReply(conn, stored, key, conn.status.value, env, LengthOverCap(cfg, conn.body));
        case Miss(key) =>
          if conn.status.None? { return; }
          MissReply(conn, key, conn.status.value, env, LengthOverCap(cfg, conn.body));
        case Unsafe(url) =>
          if conn.status.None? { return; }
          InvalidateUrls(conn, url, conn.status.value);
      }
    }

    // The detached task a stale-while-revalidate answer leaves behind. With
    // `faulty` false the copy into storage meets no read or write error.
    method BackgroundReply(b: Background, reply: Option<Reply>, env: Env, faulty: bool)
      modifies this`store
      ensures store == HandlerRuns.BackgroundRevalidation(lib, cfg, old(store), b, reply, env)
              || (faulty && store == old(store))
    {
      if reply.None? { return; }
      var r := reply.value;
      match After(lib, b.stored.policy, b.request, r.status, r.headers, env.atMerge) {
        case Revalidated(policy, _) =>
          if env.refreshOk {
            store := Memory.Step(store, RefreshEntry(b.key, policy));
          }
        case Modified =>
          if !IsStorable(lib, b.key.verb, b.request, r.status, r.headers, cfg.options) { return; }
          var policy := NewPolicy(lib, b.key.verb, b.request, r.status, r.headers, env.atMerge, cfg.options);
          if !env.putOk { return; }
          if r.body.None? { return; }
          var stored := Tee.CopyIntoStorage(r.body.value.bytes, r.body.value.trailers,
                                            cfg.maxCacheableSize, faulty);
          if stored.Some? {
            store := Memory.Step(store, PutEntry(b.key, Entry(policy, stored.value.bytes, stored.value.trailers)));
          }
      }
    }
  }
}
