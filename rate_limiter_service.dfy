/** The two-tier policy: a disabled limiter admits everything; otherwise
    the endpoint's global bucket is checked first (when that tier is on)
    and then the caller's own bucket. A global block stops before the
    user bucket is touched. */
module RateLimiterService {
  import opened Wrappers
  import opened CommonConstants
  import R = RateLimiterResponse
  import opened TokenBucket
  import opened KeyBuilder
  import opened ServiceConfigs
  import opened Registry
  import opened RateLimiterRequests

  const IntegerMaxValue: int := 2147483647
  /** How far ahead a disabled limiter puts the reset time. */
  const DisabledResetSeconds: int := 3600
  const GlobalLimitExceeded: string := "Global rate limit exceeded"
  const UserLimitExceeded: string := "User rate limit exceeded"

  /** The limiter's configuration. The quotas come from the matched
      service: `defaultLimit` appears only in a log message and
      `globalLimit` is never read. */
  datatype Settings = Settings(
    enabled: bool,
    defaultLimit: int,
    defaultWindowSeconds: int,
    globalEnabled: bool,
    globalLimit: int,
    globalWindowSeconds: int)

  /** The decision for one request: allowed, blocked by a tier (the thrown
      RateLimitExceededException), or no service for its path (the
      routing error, which is not turned into an allow). */
  datatype Outcome = Allowed(response: R.Response) | Blocked(response: R.Response) | NoService(path: string)

  /** The windows a decision reads are positive: the user window when the
      limiter is on, the global window when the global tier is on too. */
  predicate SettingsUsable(s: Settings)
  {
    s.enabled ==> s.defaultWindowSeconds > 0 && (s.globalEnabled ==> s.globalWindowSeconds > 0)
  }

  /** The quotas a decision reads are positive: every service's per-user
      limit when the limiter is on, its global limit when the global tier
      is on too. */
  ghost predicate QuotasPositive(services: map<string, ServiceConfig>, s: Settings)
  {
    forall c :: c in services.Values ==>
      s.enabled ==> c.perUserLimit > 0 && (s.globalEnabled ==> c.globalLimit > 0)
  }

  /** `createAllowedResponse`: an unbounded allow that resets an hour on. */
  function DisabledResponse(now: int): (r: R.Response)
    ensures r.allowed && r.limit == IntegerMaxValue && r.remaining == IntegerMaxValue
    ensures r.resetAt == now + DisabledResetSeconds
    ensures r.identifier.None? && r.reason.None?
  {
    R.Response(true, IntegerMaxValue, IntegerMaxValue, now + DisabledResetSeconds, None, None)
  }

  /** The global tier for `path` with the service found for it, if any. */
  function GlobalPhase(m: BucketMap, reachable: bool, s: Settings, cfg: Option<ServiceConfig>, path: string, now: int): (res: (BucketMap, Result<R.Response, string>))
    requires SettingsUsable(s) && s.enabled && s.globalEnabled
    requires cfg.Some? ==> cfg.value.globalLimit > 0
    ensures cfg.None? ==> res == (m, Failure(path))
    ensures cfg.Some? ==> res.1.Success? && res.1.value.limit == cfg.value.globalLimit
    ensures cfg.Some? ==>
              var (mg, g) := Check(m, reachable, GlobalKey(path), cfg.value.globalLimit, s.globalWindowSeconds, now);
              res.0 == mg && res.1.value == g
    ensures cfg.Some? && reachable ==> res.0.Keys == m.Keys + {GlobalKey(path)}
    ensures forall k :: k in m && k != GlobalKey(path) ==> k in res.0 && res.0[k] == m[k]
  {
    match cfg
    case None => (m, Failure(path))
    case Some(c) =>
      var (m', r) := Check(m, reachable, GlobalKey(path), c.globalLimit, s.globalWindowSeconds, now);
      (m', Success(r))
  }

  /** The user tier for `path` with the service found for it, if any. */
  function UserPhase(m: BucketMap, reachable: bool, s: Settings, cfg: Option<ServiceConfig>, req: RateLimiterRequest, path: string, now: int): (res: (BucketMap, Result<R.Response, string>))
    requires SettingsUsable(s) && s.enabled
    requires cfg.Some? ==> cfg.value.perUserLimit > 0
    ensures cfg.None? ==> res == (m, Failure(path))
    ensures cfg.Some? ==> res.1.Success? && res.1.value.limit == cfg.value.perUserLimit
    ensures cfg.Some? ==>
              var (mu, u) := Check(m, reachable, UserKey(path, req.identifier, req.ipAddress), cfg.value.perUserLimit, s.defaultWindowSeconds, now);
              res.0 == mu && res.1.value == u
    ensures cfg.Some? && reachable ==> res.0.Keys == m.Keys + {UserKey(path, req.identifier, req.ipAddress)}
    ensures forall k :: k in m && k != UserKey(path, req.identifier, req.ipAddress) ==> k in res.0 && res.0[k] == m[k]
  {
    match cfg
    case None => (m, Failure(path))
    case Some(c) =>
      var (m', r) := Check(m, reachable, UserKey(path, req.identifier, req.ipAddress), c.perUserLimit, s.defaultWindowSeconds, now);
      (m', Success(r))
  }

  /** The decision once the global tier has passed or is off. */
  function UserDecision(m: BucketMap, reachable: bool, s: Settings, cfg: Option<ServiceConfig>, req: RateLimiterRequest, path: string, now: int): (res: (BucketMap, Outcome))
    requires SettingsUsable(s) && s.enabled
    requires cfg.Some? ==> cfg.value.perUserLimit > 0
    ensures res.1.NoService? <==> cfg.None?
    ensures cfg.None? ==> res == (m, NoService(path))
    ensures cfg.Some? ==> res.1.response.limit == cfg.value.perUserLimit
    ensures cfg.Some? ==>
              var (mu, u) := Check(m, reachable, UserKey(path, req.identifier, req.ipAddress), cfg.value.perUserLimit, s.defaultWindowSeconds, now);
              && res.0 == mu
              && (res.1.Allowed? <==> u.allowed) && (res.1.Blocked? <==> !u.allowed)
              && res.1.response.remaining == u.remaining && res.1.response.resetAt == u.resetAt
    ensures res.1.Blocked? ==> !res.1.response.allowed && res.1.response.remaining == 0
                               && res.1.response.reason == Some(UserLimitExceeded)
    ensures res.1.Allowed? ==> res.1.response.allowed && res.1.response.identifier == req.identifier
                               && res.1.response.reason.None?
  {
    var (m', u) := UserPhase(m, reachable, s, cfg, req, path, now);
    match u
    case Failure(p) => (m', NoService(p))
    case Success(r) =>
      if !r.allowed then (m', Blocked(r.(reason := Some(UserLimitExceeded))))
      else (m', Allowed(r.(identifier := req.identifier)))
  }

  /** `checkRateLimit` as a function of the store, the settings and the
      services the two lookups found. A disabled limiter never reads the
      endpoint. Otherwise, with `path` the endpoint with "/gateway" removed,
      the global tier (when on) checks the global key of `path` and a
      refusal there is the decision; once it passes or is off, the user
      tier checks the caller's key in the store the global check left, and
      its verdict, remaining count and reset time are the decision. */
  function Decide(m: BucketMap, reachable: bool, s: Settings, globalCfg: Option<ServiceConfig>, userCfg: Option<ServiceConfig>, req: RateLimiterRequest, now: int): (res: (BucketMap, Outcome))
    requires SettingsUsable(s) && (s.enabled ==> req.endpoint.Some?)
    requires s.enabled && s.globalEnabled && globalCfg.Some? ==> globalCfg.value.globalLimit > 0
    requires s.enabled && userCfg.Some? ==> userCfg.value.perUserLimit > 0
    ensures !s.enabled ==> res == (m, Allowed(DisabledResponse(now)))
    ensures s.enabled && res.1.Allowed? ==>
              res.1.response.allowed && res.1.response.identifier == req.identifier && res.1.response.reason.None?
    ensures res.1.NoService? ==> s.enabled && res.1.path == RequestPath(req.endpoint.value)
    ensures s.enabled && s.globalEnabled && globalCfg.None? ==> res == (m, NoService(RequestPath(req.endpoint.value)))
    ensures s.enabled && s.globalEnabled && globalCfg.Some? ==>
              var (mg, g) := Check(m, reachable, GlobalKey(RequestPath(req.endpoint.value)), globalCfg.value.globalLimit, s.globalWindowSeconds, now);
              !g.allowed ==> && res.0 == mg && res.1.Blocked?
                             && res.1.response.remaining == 0 && res.1.response.resetAt == g.resetAt
                             && res.1.response.limit == globalCfg.value.globalLimit
                             && res.1.response.reason == Some(GlobalLimitExceeded)
    ensures s.enabled && (s.globalEnabled ==> globalCfg.Some?) ==>
              var path := RequestPath(req.endpoint.value);
              var global := if s.globalEnabled then Some(Check(m, reachable, GlobalKey(path), globalCfg.value.globalLimit, s.globalWindowSeconds, now)) else None;
              var mg := if global.Some? then global.value.0 else m;
              (global.None? || global.value.1.allowed) ==>
                && (userCfg.None? ==> res == (mg, NoService(path)))
                && (userCfg.Some? ==>
                      var (mu, u) := Check(mg, reachable, UserKey(path, req.identifier, req.ipAddress), userCfg.value.perUserLimit, s.defaultWindowSeconds, now);
                      && res.0 == mu
                      && (res.1.Allowed? <==> u.allowed) && (res.1.Blocked? <==> !u.allowed)
                      && res.1.response.limit == userCfg.value.perUserLimit
                      && res.1.response.remaining == u.remaining && res.1.response.resetAt == u.resetAt)
  {
    if !s.enabled then (m, Allowed(DisabledResponse(now)))
    else
      var path := RequestPath(req.endpoint.value);
      if s.globalEnabled then
        var (m1, g) := GlobalPhase(m, reachable, s, globalCfg, path, now);
        match g
        case Failure(p) => (m1, NoService(p))
        case Success(r) =>
          if !r.allowed then (m1, Blocked(r.(reason := Some(GlobalLimitExceeded))))
          else UserDecision(m1, reachable, s, userCfg, req, path, now)
      else UserDecision(m, reachable, s, userCfg, req, path, now)
  }

  /** When the global tier blocks, the decision is Blocked with reason
      "Global rate limit exceeded", and the caller's own bucket is exactly
      as it was: a global block spends none of the user's quota. */
  lemma GlobalBlockSparesUserBucket(m: BucketMap, reachable: bool, s: Settings, globalCfg: Option<ServiceConfig>, userCfg: Option<ServiceConfig>, req: RateLimiterRequest, now: int)
    requires SettingsUsable(s) && req.endpoint.Some?
    requires globalCfg.Some? && globalCfg.value.globalLimit > 0
    requires s.enabled && userCfg.Some? ==> userCfg.value.perUserLimit > 0
    requires s.enabled && s.globalEnabled
    requires var path := RequestPath(req.endpoint.value);
             !Check(m, reachable, GlobalKey(path), globalCfg.value.globalLimit, s.globalWindowSeconds, now).1.allowed
    ensures var path := RequestPath(req.endpoint.value);
            var userKey := UserKey(path, req.identifier, req.ipAddress);
            var (m', outcome) := Decide(m, reachable, s, globalCfg, userCfg, req, now);
            && outcome.Blocked?
            && outcome.response.reason == Some(GlobalLimitExceeded)
            && (userKey in m' <==> userKey in m)
            && (userKey in m ==> m'[userKey] == m[userKey])
  {
    var path := RequestPath(req.endpoint.value);
    TierKeysDisjoint(UserKey(path, req.identifier, req.ipAddress), GlobalKey(path));
  }

  /** With the global tier off, the endpoint's global bucket is never read
      or written, and a block can only come from the user tier. */
  lemma GlobalTierOffSparesGlobalBucket(m: BucketMap, reachable: bool, s: Settings, globalCfg: Option<ServiceConfig>, userCfg: Option<ServiceConfig>, req: RateLimiterRequest, now: int)
    requires SettingsUsable(s) && req.endpoint.Some?
    requires s.enabled && s.globalEnabled && globalCfg.Some? ==> globalCfg.value.globalLimit > 0
    requires s.enabled && userCfg.Some? ==> userCfg.value.perUserLimit > 0
    requires s.enabled && !s.globalEnabled
    ensures var globalKey := GlobalKey(RequestPath(req.endpoint.value));
            var (m', outcome) := Decide(m, reachable, s, globalCfg, userCfg, req, now);
            && (globalKey in m' <==> globalKey in m)
            && (globalKey in m ==> m'[globalKey] == m[globalKey])
            && (outcome.Blocked? ==> outcome.response.reason == Some(UserLimitExceeded))
  {
    var path := RequestPath(req.endpoint.value);
    var userKey := UserKey(path, req.identifier, req.ipAddress);
    TierKeysDisjoint(userKey, GlobalKey(path));
  }

  /** A blocked decision names the tier that blocked it: the global tier
      when it is on and its check blocked, the user tier otherwise. It
      always reports nothing remaining. */
  lemma BlockReasonNamesTier(m: BucketMap, reachable: bool, s: Settings, globalCfg: Option<ServiceConfig>, userCfg: Option<ServiceConfig>, req: RateLimiterRequest, now: int)
    requires SettingsUsable(s) && req.endpoint.Some?
    requires s.enabled && s.globalEnabled && globalCfg.Some? ==> globalCfg.value.globalLimit > 0
    requires s.enabled && userCfg.Some? ==> userCfg.value.perUserLimit > 0
    ensures var path := RequestPath(req.endpoint.value);
            var outcome := Decide(m, reachable, s, globalCfg, userCfg, req, now).1;
            var globalBlocked := s.enabled && s.globalEnabled && globalCfg.Some?
              && !Check(m, reachable, GlobalKey(path), globalCfg.value.globalLimit, s.globalWindowSeconds, now).1.allowed;
            outcome.Blocked? ==>
              && !outcome.response.allowed && outcome.response.remaining == 0
              && outcome.response.reason == Some(if globalBlocked then GlobalLimitExceeded else UserLimitExceeded)
  {
  }

  /** A path no registered service matches is a routing failure, not an
      allow, and no bucket is touched. */
  lemma UnmatchedPathIsNoService(services: map<string, ServiceConfig>, m: BucketMap, reachable: bool, s: Settings, globalCfg: Option<ServiceConfig>, userCfg: Option<ServiceConfig>, req: RateLimiterRequest, now: int)
    requires SettingsUsable(s) && req.endpoint.Some? && s.enabled
    requires s.enabled && s.globalEnabled && globalCfg.Some? ==> globalCfg.value.globalLimit > 0
    requires s.enabled && userCfg.Some? ==> userCfg.value.perUserLimit > 0
    requires var path := Some(RequestPath(req.endpoint.value));
             IsSearchResult(services, path, globalCfg) && IsSearchResult(services, path, userCfg)
    requires forall c :: c in services.Values ==> !Matches(c, Some(RequestPath(req.endpoint.value)))
    ensures Decide(m, reachable, s, globalCfg, userCfg, req, now) == (m, NoService(RequestPath(req.endpoint.value)))
  {
    assert globalCfg.None? && userCfg.None?;
  }

  /** With the store unreachable, an enabled limiter fails open at both
      tiers: the decision is the user tier's fail-open allow (full per-user
      quota, reset one window on) and no bucket changes. */
  lemma StoreOutageFailsOpen(m: BucketMap, s: Settings, globalCfg: Option<ServiceConfig>, userCfg: Option<ServiceConfig>, req: RateLimiterRequest, now: int)
    requires SettingsUsable(s) && req.endpoint.Some? && s.enabled
    requires s.enabled && s.globalEnabled && globalCfg.Some? ==> globalCfg.value.globalLimit > 0
    requires userCfg.Some? && userCfg.value.perUserLimit > 0
    requires s.globalEnabled ==> globalCfg.Some?
    ensures var (m', outcome) := Decide(m, false, s, globalCfg, userCfg, req, now);
            && m' == m && outcome.Allowed?
            && outcome.response.remaining == outcome.response.limit == userCfg.value.perUserLimit
            && outcome.response.resetAt == now + s.defaultWindowSeconds
            && outcome.response.identifier == req.identifier
  {
  }

  /** Every decision that carries a response resets no earlier than the
      instant it was made. */
  lemma DecisionResetsNotBeforeNow(m: BucketMap, reachable: bool, s: Settings, globalCfg: Option<ServiceConfig>, userCfg: Option<ServiceConfig>, req: RateLimiterRequest, now: int)
    requires SettingsUsable(s) && (s.enabled ==> req.endpoint.Some?)
    requires s.enabled && s.globalEnabled && globalCfg.Some? ==> globalCfg.value.globalLimit > 0
    requires s.enabled && userCfg.Some? ==> userCfg.value.perUserLimit > 0
    requires TokensNonNegative(m)
    ensures var outcome := Decide(m, reachable, s, globalCfg, userCfg, req, now).1;
            !outcome.NoService? ==> outcome.response.resetAt >= now
  {
    if s.enabled {
      var path := RequestPath(req.endpoint.value);
      var m1 := m;
      if s.globalEnabled && globalCfg.Some? {
        var g := globalCfg.value;
        if reachable { CheckOutcome(m, GlobalKey(path), g.globalLimit, s.globalWindowSeconds, now); }
        CheckKeepsTokensNonNegative(m, reachable, GlobalKey(path), g.globalLimit, s.globalWindowSeconds, now);
        m1 := Check(m, reachable, GlobalKey(path), g.globalLimit, s.globalWindowSeconds, now).0;
      }
      if userCfg.Some? && reachable {
        CheckOutcome(m1, UserKey(path, req.identifier, req.ipAddress), userCfg.value.perUserLimit, s.defaultWindowSeconds, now);
      }
    }
  }

  class RateLimiterService {
    const store: TokenBucketStore
    const registry: ServiceRegistry
    const settings: Settings

    ghost predicate Valid()
      reads this, store, registry
    {
      store.Valid() && SettingsUsable(settings) && QuotasPositive(registry.services, settings)
    }

    constructor (store: TokenBucketStore, registry: ServiceRegistry, settings: Settings)
      requires store.Valid() && SettingsUsable(settings) && QuotasPositive(registry.services, settings)
      ensures this.store == store && this.registry == registry && this.settings == settings
      ensures Valid()
    {
      this.store := store;
      this.registry := registry;
      this.settings := settings;
    }

    /** `checkGlobalRateLimit`: find the service for the path with
        "/gateway" removed and check its global bucket. The source calls it
        only when the limiter and its global tier are on. */
    method CheckGlobalRateLimit(endpoint: string, now: int) returns (r: Result<R.Response, string>, ghost cfg: Option<ServiceConfig>)
      requires Valid() && settings.enabled && settings.globalEnabled
      modifies store`buckets
      ensures Valid()
      ensures IsSearchResult(registry.services, Some(RequestPath(endpoint)), cfg)
      ensures (store.buckets, r) == GlobalPhase(old(store.buckets), store.reachable, settings, cfg, RequestPath(endpoint), now)
    {
      var requestPath := RequestPath(endpoint);
      var found := registry.FindServiceByPath(Some(requestPath));
      if found.Failure? {
        cfg := None;
        return Failure(requestPath), cfg;
      }
      var targetService := found.value;
      cfg := Some(targetService);
      var globalKey := GlobalRedisBaseKey + Sanitize(Some(requestPath));
      var response := store.IsAllowed(globalKey, targetService.globalLimit, settings.globalWindowSeconds, now);
      r := Success(response);
    }

    /** `checkUserRateLimit`: build the user key, find the service for the
        path and check the caller's bucket against its per-user quota. The
        source calls it only when the limiter is on. */
    method CheckUserRateLimit(req: RateLimiterRequest, now: int) returns (r: Result<R.Response, string>, ghost cfg: Option<ServiceConfig>)
      requires Valid() && settings.enabled && req.endpoint.Some?
      modifies store`buckets
      ensures Valid()
      ensures IsSearchResult(registry.services, Some(RequestPath(req.endpoint.value)), cfg)
      ensures (store.buckets, r) == UserPhase(old(store.buckets), store.reachable, settings, cfg, req, RequestPath(req.endpoint.value), now)
    {
      var requestPath := RequestPath(req.endpoint.value);
      var userKey := UserKey(requestPath, req.identifier, req.ipAddress);
      var found := registry.FindServiceByPath(Some(requestPath));
      if found.Failure? {
        cfg := None;
        return Failure(requestPath), cfg;
      }
      var targetService := found.value;
      cfg := Some(targetService);
      var response := store.IsAllowed(userKey, targetService.perUserLimit, settings.defaultWindowSeconds, now);
      r := Success(response);
    }

    /** `checkRateLimit` at clock `now`. A disabled limiter returns before
        the endpoint is read, so only an enabled one needs it. `globalCfg`
        and `userCfg` are the services the two lookups chose (each a valid
        search result; unused when a lookup did not run). */
    method CheckRateLimit(req: RateLimiterRequest, now: int) returns (outcome: Outcome, ghost globalCfg: Option<ServiceConfig>, ghost userCfg: Option<ServiceConfig>)
      requires Valid() && (settings.enabled ==> req.endpoint.Some?)
      modifies store`buckets
      ensures Valid()
      ensures req.endpoint.Some? ==> IsSearchResult(registry.services, Some(RequestPath(req.endpoint.value)), globalCfg)
      ensures req.endpoint.Some? ==> IsSearchResult(registry.services, Some(RequestPath(req.endpoint.value)), userCfg)
      ensures req.endpoint.None? ==> globalCfg.None? && userCfg.None?
      ensures (store.buckets, outcome) == Decide(old(store.buckets), store.reachable, settings, globalCfg, userCfg, req, now)
    {
      globalCfg := if req.endpoint.Some? then SearchResult(registry.services, Some(RequestPath(req.endpoint.value))) else None;
      userCfg := globalCfg;
      if !settings.enabled {
        return Allowed(DisabledResponse(now)), globalCfg, userCfg;
      }
      if settings.globalEnabled {
        var globalResult;
        globalResult, globalCfg := CheckGlobalRateLimit(req.endpoint.value, now);
        if globalResult.Failure? {
          return NoService(globalResult.error), globalCfg, userCfg;
        }
        if !globalResult.value.allowed {
          return Blocked(globalResult.value.(reason := Some(GlobalLimitExceeded))), globalCfg, userCfg;
        }
      }
      var userResult;
      userResult, userCfg := CheckUserRateLimit(req, now);
      if userResult.Failure? {
        return NoService(userResult.error), globalCfg, userCfg;
      }
      if !userResult.value.allowed {
        return Blocked(userResult.value.(reason := Some(UserLimitExceeded))), globalCfg, userCfg;
      }
      outcome := Allowed(userResult.value.(identifier := req.identifier));
    }

    /** `resetUserRateLimit`: delete the bucket named by the request's raw
        endpoint and identifier. */
    method ResetUserRateLimit(req: RateLimiterRequest)
      requires Valid()
      modifies store`buckets
      ensures Valid()
      ensures store.buckets == if store.reachable then old(store.buckets) - {ResetUserKey(req.endpoint, req.identifier)} else old(store.buckets)
    {
      var endPoint := Sanitize(req.endpoint);
      var key := UserRedisBaseKey + endPoint + ":" + Sanitize(req.identifier);
      store.Reset(key);
    }

    /** `resetGlobalRateLimit`: delete the global bucket of the raw endpoint. */
    method ResetGlobalRateLimit(endpoint: Option<string>)
      requires Valid()
      modifies store`buckets
      ensures Valid()
      ensures store.buckets == if store.reachable then old(store.buckets) - {ResetGlobalKey(endpoint)} else old(store.buckets)
    {
      var apiEndpoint := Sanitize(endpoint);
      var globalKey := GlobalRedisBaseKey + apiEndpoint;
      store.Reset(globalKey);
    }
  }

  /** Some valid search result, for the lookups that do not run. */
  ghost function SearchResult(services: map<string, ServiceConfig>, path: Option<string>): (c: Option<ServiceConfig>)
    ensures IsSearchResult(services, path, c)
  {
    if exists x :: x in services.Values && Matches(x, path) then
      Some(var x :| x in services.Values && Matches(x, path); x)
    else None
  }
}
