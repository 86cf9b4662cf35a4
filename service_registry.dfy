/** The in-memory registry of services, keyed by service name. */
module Registry {
  import opened Wrappers
  import opened ServiceConfigs

  datatype RegistryError =
    | InvalidConfig                       // null config or null name
    | ServiceNotFound(name: string)       // no entry under that name
    | NoServiceForPath(path: Option<string>)  // no entry's prefix matches

  /** `c` is a valid answer of a search for `path`: some registered config
      that matches it, or nothing when no registered config matches. */
  ghost predicate IsSearchResult(services: map<string, ServiceConfig>, path: Option<string>, c: Option<ServiceConfig>)
  {
    match c
    case Some(cfg) => cfg in services.Values && Matches(cfg, path)
    case None => forall x :: x in services.Values ==> !Matches(x, path)
  }

  class ServiceRegistry {
    var services: map<string, ServiceConfig>

    constructor ()
      ensures services == map[]
    {
      services := map[];
    }

    /** `registerService`: a null config or name fails and changes nothing;
        otherwise the name maps to the config, replacing any earlier one. */
    method RegisterService(config: Option<ServiceConfig>) returns (r: Outcome<RegistryError>)
      modifies this
      ensures config.None? || config.value.name.None? ==> r == Fail(InvalidConfig) && services == old(services)
      ensures config.Some? && config.value.name.Some? ==>
                r == Pass && services == old(services)[config.value.name.value := config.value]
    {
      if config.None? || config.value.name.None? {
        return Fail(InvalidConfig);
      }
      services := services[config.value.name.value := config.value];
      return Pass;
    }

    /** `getService`: the config stored under the name, or ServiceNotFound. */
    function GetService(name: string): (r: Result<ServiceConfig, RegistryError>)
      reads this
      ensures r.Success? <==> name in services
      ensures r.Success? ==> r.value == services[name]
      ensures r.Failure? ==> r.error == ServiceNotFound(name)
    {
      if name in services then Success(services[name]) else Failure(ServiceNotFound(name))
    }

    /** `findServiceByPath`: the first matching config in the map's
        iteration order, which is unspecified; so this returns some
        registered config that matches, and fails iff none matches. */
    method FindServiceByPath(path: Option<string>) returns (r: Result<ServiceConfig, RegistryError>)
      ensures r.Success? ==> IsSearchResult(services, path, Some(r.value))
      ensures r.Failure? ==> r.error == NoServiceForPath(path) && IsSearchResult(services, path, None)
    {
      var unvisited := services.Keys;
      while unvisited != {}
        invariant unvisited <= services.Keys
        invariant forall n :: n in services && n !in unvisited ==> !Matches(services[n], path)
        decreases unvisited
      {
        var n :| n in unvisited;
        if Matches(services[n], path) {
          return Success(services[n]);
        }
        unvisited := unvisited - {n};
      }
      return Failure(NoServiceForPath(path));
    }

    /** `isServiceRegistered`: whether the name is present. */
    predicate IsServiceRegistered(name: string)
      reads this
      ensures IsServiceRegistered(name) <==> GetService(name).Success?
    {
      name in services
    }

    /** `getAllServices`: every registered config once per name, in an
        unspecified order; `names` says which entry each one comes from. */
    method GetAllServices() returns (all: seq<ServiceConfig>, ghost names: seq<string>)
      ensures |all| == |names| == |services|
      ensures forall i :: 0 <= i < |names| ==> names[i] in services && all[i] == services[names[i]]
      ensures forall i, j :: 0 <= i < j < |names| ==> names[i] != names[j]
      ensures forall n :: n in services ==> n in names
      ensures forall c :: c in all ==> c in services.Values
      ensures forall n :: n in services ==> services[n] in all
    {
      all, names := [], [];
      var unvisited := services.Keys;
      while unvisited != {}
        invariant unvisited <= services.Keys
        invariant |all| == |names|
        invariant |names| + |unvisited| == |services|
        invariant forall i :: 0 <= i < |names| ==> names[i] in services && names[i] !in unvisited && all[i] == services[names[i]]
        invariant forall i, j :: 0 <= i < j < |names| ==> names[i] != names[j]
        invariant forall n :: n in services ==> n in names || n in unvisited
        decreases unvisited
      {
        var n :| n in unvisited;
        all, names := all + [services[n]], names + [n];
        unvisited := unvisited - {n};
      }
    }

    /** `updateService`: fails when the name is absent, otherwise replaces
        only that entry (under the given name, whatever the config's own
        name is). */
    method UpdateService(name: string, config: ServiceConfig) returns (r: Outcome<RegistryError>)
      modifies this
      ensures old(name !in services) ==> r == Fail(ServiceNotFound(name)) && services == old(services)
      ensures old(name in services) ==> r == Pass && services == old(services)[name := config]
    {
      if !IsServiceRegistered(name) {
        return Fail(ServiceNotFound(name));
      }
      services := services[name := config];
      return Pass;
    }

    /** `unregisterService`: removes a present name, fails on an absent one. */
    method UnregisterService(name: string) returns (r: Outcome<RegistryError>)
      modifies this
      ensures old(name !in services) ==> r == Fail(ServiceNotFound(name)) && services == old(services)
      ensures old(name in services) ==> r == Pass && services == old(services) - {name}
    {
      if name in services {
        services := services - {name};
        return Pass;
      }
      return Fail(ServiceNotFound(name));
    }

    /** `getServiceCount`: the number of registered names. */
    function GetServiceCount(): (n: nat)
      reads this
      ensures n == |services.Keys|
      ensures n == 0 <==> services == map[]
    {
      |services|
    }

    /** `clearAllServices`: the registry becomes empty. */
    method ClearAllServices()
      modifies this
      ensures services == map[] && GetServiceCount() == 0
    {
      services := map[];
    }
  }

  /** Registering under a name that is already present replaces the earlier
      config entirely and keeps the count; a new name adds one. */
  lemma RegisterReplacesOrAdds(services: map<string, ServiceConfig>, first: ServiceConfig, second: ServiceConfig, name: string)
    ensures services[name := first][name := second] == services[name := second]
    ensures name in services ==> |services[name := second]| == |services|
    ensures name !in services ==> |services[name := second]| == |services| + 1
  {
    if name in services {
      assert services[name := second].Keys == services.Keys;
    } else {
      assert services[name := second].Keys == services.Keys + {name};
    }
  }

  /** Unregistering a freshly registered name restores the registry. */
  lemma UnregisterUndoesRegister(services: map<string, ServiceConfig>, config: ServiceConfig, name: string)
    requires name !in services
    ensures services[name := config] - {name} == services
  {
  }
}
