/** Which exchanges may be stored (section 3 of RFC 9111). */
module Storability {
  import opened Wrappers
  import opened Http
  import opened Policy

  const CACHEABLE_BY_DEFAULT: set<Status> :=
    {200, 203, 204, 206, 300, 301, 308, 404, 405, 410, 414, 501}

  predicate HasExplicitExpiration(
    cc: CacheControl, response: Headers, options: CacheOptions, targeted: bool)
  {
    (options.shared && cc.sMaxAge.Some?) || cc.maxAge.Some? || (!targeted && "expires" in response)
  }

  predicate IsStorable(
    lib: Library, verb: Method, request: Headers, status: Status, response: Headers,
    options: CacheOptions)
  {
    var (effective, targeted) := EffectiveCacheControl(lib, response, options);
    var cc := Directives(effective);
    if Directives(lib.cacheControl(request)).noStore then false
    else if !(verb.Get? || verb.Head?
              || (verb.Post? && HasExplicitExpiration(cc, response, options, targeted))) then false
    else if cc.noStore then false
    else if options.shared && cc.isPrivate then false
    else if options.shared && "authorization" in request
            && !(cc.mustRevalidate || cc.isPublic || cc.sMaxAge.Some?) then false
    else
      (!targeted && "expires" in response)
      || cc.maxAge.Some? || cc.isPublic || (options.shared && cc.sMaxAge.Some?)
      || status in CACHEABLE_BY_DEFAULT
  }

  // POST passes the storability gate but is not safe, so of the methods that
  // reach a lookup only GET and HEAD can be stored.
  lemma SafeStorableIsGetOrHead(
    lib: Library, verb: Method, request: Headers, status: Status, response: Headers,
    options: CacheOptions)
    requires IsSafe(verb) && IsStorable(lib, verb, request, status, response, options)
    ensures verb.Get? || verb.Head?
  {
  }

  // The prohibitions, each on its own.
  predicate MustNotStore(
    lib: Library, verb: Method, request: Headers, cc: CacheControl, options: CacheOptions)
  {
    || cc.noStore
    || Directives(lib.cacheControl(request)).noStore
    || (options.shared && (cc.isPrivate
                           || ("authorization" in request && !cc.isPublic && cc.sMaxAge.None? && !cc.mustRevalidate)))
  }

  // The exchange may be stored exactly when nothing prohibits it, the method
  // is GET or HEAD or an explicitly expiring POST, and the response either
  // says how long it lives, is public, or has a status cacheable by default.
  lemma StorableIff(
    lib: Library, verb: Method, request: Headers, status: Status, response: Headers,
    options: CacheOptions)
    ensures var (effective, targeted) := EffectiveCacheControl(lib, response, options);
            var cc := Directives(effective);
            var expires := HasExplicitExpiration(cc, response, options, targeted);
            IsStorable(lib, verb, request, status, response, options) <==>
              && !MustNotStore(lib, verb, request, cc, options)
              && (verb.Get? || verb.Head? || (verb.Post? && expires))
              && (expires || cc.isPublic
                  || status in {200, 203, 204, 206, 300, 301, 308, 404, 405, 410, 414, 501})
  {
  }
}
