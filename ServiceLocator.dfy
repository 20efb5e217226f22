/**
 * ServiceLocator: the app-wide registry of services keyed by their type. The source keeps it in a
 * static dictionary; here the single registry is an object. Overwrite warnings are recorded.
 */
module ServiceLocator {
  import opened Wrappers

  type ServiceType = string
  /** A service instance, by identity. */
  type Service = nat

  /** The InvalidOperationException Get throws for an unregistered type. */
  datatype LocatorError = ServiceNotFound(serviceType: ServiceType)

  class ServiceLocator {
    var services: map<ServiceType, Service>
    /** The types whose registration overwrote an existing one, oldest first. */
    var warnings: seq<ServiceType>

    constructor ()
      ensures services == map[] && warnings == []
    {
      services := map[];
      warnings := [];
    }

    /** Stores the service, replacing (with a warning) any earlier one of that type. */
    method Register(t: ServiceType, s: Service)
      modifies this
      ensures services == old(services)[t := s]
      ensures warnings == old(warnings) + (if t in old(services) then [t] else [])
    {
      if t in services {
        warnings := warnings + [t];
      }
      services := services[t := s];
    }

    method Get(t: ServiceType) returns (r: Result<Service, LocatorError>)
      ensures t in services <==> r.Ok?
      ensures r.Ok? ==> r.value == services[t]
      ensures r.Err? ==> r.error == ServiceNotFound(t)
    {
      if t in services {
        return Ok(services[t]);
      }
      return Err(ServiceNotFound(t));
    }

    /** (true, service) for a registered type, (false, null) otherwise. */
    method TryGet(t: ServiceType) returns (found: bool, service: Option<Service>)
      ensures found <==> t in services
      ensures found ==> service == Some(services[t])
      ensures !found ==> service == None
    {
      if t in services {
        return true, Some(services[t]);
      }
      return false, None;
    }

    method Has(t: ServiceType) returns (r: bool)
      ensures r <==> t in services
    {
      r := t in services;
    }

    /** Removes only that type; an absent type changes nothing. */
    method Unregister(t: ServiceType)
      modifies this`services
      ensures services == old(services) - {t}
      ensures t !in old(services) ==> services == old(services)
      ensures forall u :: u != t ==> (u in services <==> u in old(services))
    {
      services := services - {t};
    }

    method Reset()
      modifies this`services
      ensures services == map[]
    {
      services := map[];
    }
  }

  /** A registered service is what Get hands back, until its type is registered again or removed. */
  method RegisterThenGet(locator: ServiceLocator, t: ServiceType, s: Service, other: ServiceType)
    requires other != t
    modifies locator
    ensures t in locator.services && locator.services[t] == s
  {
    locator.Register(t, s);
    var got := locator.Get(t);
    assert got == Ok(s);
    locator.Unregister(other);
    var again := locator.Get(t);
    assert again == Ok(s);
  }
}
