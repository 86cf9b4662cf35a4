/** One routable backend service: its name, the path prefix it serves, its
    target, whether the prefix is stripped before forwarding, and its two
    quotas. */
module ServiceConfigs {
  import opened Wrappers

  datatype ServiceConfig = ServiceConfig(
    name: Option<string>,
    pathPrefix: Option<string>,
    targetUrl: Option<string>,
    stripPrefix: bool,
    perUserLimit: int,
    globalLimit: int)

  /** `matches(path)`: false for a null path or a null prefix, otherwise
      whether the path starts with the prefix. */
  predicate Matches(cfg: ServiceConfig, path: Option<string>)
    ensures Matches(cfg, path) <==>
              && path.Some? && cfg.pathPrefix.Some?
              && |cfg.pathPrefix.value| <= |path.value|
              && path.value[..|cfg.pathPrefix.value|] == cfg.pathPrefix.value
  {
    path.Some? && cfg.pathPrefix.Some? && cfg.pathPrefix.value <= path.value
  }

  /** `transformPath(path)`: when the prefix is stripped and the path
      starts with it, the rest of the path with a leading '/' guaranteed;
      otherwise the path unchanged. A null prefix with stripping on would
      throw, so it is excluded. */
  function TransformPath(cfg: ServiceConfig, path: string): (r: string)
    requires cfg.stripPrefix ==> cfg.pathPrefix.Some?
    ensures !cfg.stripPrefix || !(cfg.pathPrefix.value <= path) ==> r == path
    ensures cfg.stripPrefix && cfg.pathPrefix.value <= path ==> "/" <= r
  {
    if cfg.stripPrefix && cfg.pathPrefix.value <= path then
      var transformed := path[|cfg.pathPrefix.value|..];
      if !("/" <= transformed) then "/" + transformed else transformed
    else path
  }

  /** Stripping keeps everything after the prefix: the result is that rest,
      with a '/' put in front exactly when the rest did not begin with one,
      so the prefix and the result give back the path. */
  lemma TransformPathKeepsRest(cfg: ServiceConfig, path: string)
    requires cfg.stripPrefix && cfg.pathPrefix.Some?
    requires cfg.pathPrefix.value <= path
    ensures var prefix, r := cfg.pathPrefix.value, TransformPath(cfg, path);
            && (r == path[|prefix|..] <==> "/" <= path[|prefix|..])
            && (if "/" <= path[|prefix|..] then path == prefix + r else path == prefix + r[1..])
  {
    var prefix := cfg.pathPrefix.value;
    var rest := path[|prefix|..];
    assert path == prefix + rest;
    if !("/" <= rest) {
      assert ("/" + rest)[1..] == rest;
      assert "/" <= "/" + rest;
    }
  }

  /** A path that is exactly the prefix becomes "/". */
  lemma TransformPathOfPrefixIsRoot(cfg: ServiceConfig)
    requires cfg.stripPrefix && cfg.pathPrefix.Some?
    ensures TransformPath(cfg, cfg.pathPrefix.value) == "/"
  {
    assert cfg.pathPrefix.value[|cfg.pathPrefix.value|..] == "";
  }

  /** Whenever a service matches a path, its transform strips that prefix
      (if it strips at all). */
  lemma MatchedPathIsStripped(cfg: ServiceConfig, path: string)
    requires cfg.stripPrefix && Matches(cfg, Some(path))
    ensures |TransformPath(cfg, path)| <= |path| - |cfg.pathPrefix.value| + 1
    ensures "/" <= TransformPath(cfg, path)
  {
  }
}
