/** The dependency-injection container of src/utils/dependency_injection.py:
    services registered as ready instances or as factories, singletons
    cached on first resolution. Service types are named by strings,
    factories are opaque handles, and the instance a factory builds is given
    by the caller of `Resolve`. The lock is left out: every call is taken as
    one step. */
module Container {
  import opened Common

  /** What `register` receives: a callable that is not a class is a
      factory; anything else (a class object included) is an instance. */
  datatype Implementation = Instance(value: Value) | Factory(handle: nat)

  /** The three dictionaries of the container. */
  datatype Tables = Tables(services: map<string, Value>, factories: map<string, nat>, singletons: map<string, bool>)

  const Empty := Tables(map[], map[], map[])

  /** The outcome of `resolve`: the stored instance, an instance the factory
      just built, or the `KeyError` for a type that is not registered. */
  datatype Resolution = Stored(value: Value) | Built(factory: nat, value: Value) | NotRegistered

  /** `is_registered`. */
  predicate Registered(t: Tables, service: string)
  {
    service in t.services || service in t.factories
  }

  /** `register`: an instance is stored as a service (always a singleton); a
      factory is stored with its singleton flag. */
  function Registration(t: Tables, service: string, impl: Implementation, singleton: bool): (r: Tables)
    ensures Registered(r, service)
    ensures forall s :: s != service ==> (Registered(r, s) <==> Registered(t, s))
    ensures impl.Instance? ==> r.services == t.services[service := impl.value] && r.factories == t.factories
    ensures impl.Factory? ==> r.factories == t.factories[service := impl.handle] && r.services == t.services
  {
    match impl
    case Instance(v) => Tables(t.services[service := v], t.factories, t.singletons[service := true])
    case Factory(f) => Tables(t.services, t.factories[service := f], t.singletons[service := singleton])
  }

  /** `self._singletons.get(service_type, True)`. */
  predicate Caches(t: Tables, service: string)
  {
    service !in t.singletons || t.singletons[service]
  }

  /** `resolve`, with `produced` the instance the factory returns if it is
      called: services are looked up first, then factories, whose instance
      is cached when the type is a singleton. */
  function Resolved(t: Tables, service: string, produced: Value): (r: (Resolution, Tables))
    ensures r.0.NotRegistered? <==> !Registered(t, service)
    ensures service in t.services ==> r == (Stored(t.services[service]), t)
    ensures service !in t.services && service in t.factories ==>
              r.0 == Built(t.factories[service], produced) &&
              r.1 == (if Caches(t, service) then t.(services := t.services[service := produced]) else t)
    ensures !Registered(t, service) ==> r.1 == t
  {
    if service in t.services then (Stored(t.services[service]), t)
    else if service in t.factories then
      (Built(t.factories[service], produced),
       if Caches(t, service) then t.(services := t.services[service := produced]) else t)
    else (NotRegistered, t)
  }

  // ---------------------------------------------------------------- properties

  /** A registered instance resolves to itself, and nothing is built. */
  lemma {:induction false} InstanceResolvesToItself(t: Tables, service: string, v: Value, singleton: bool, produced: Value)
    ensures Resolved(Registration(t, service, Instance(v), singleton), service, produced) ==
            (Stored(v), Registration(t, service, Instance(v), singleton))
  {
  }

  /** A singleton factory is called on the first resolve only: the second
      resolve returns the cached instance and calls nothing. */
  lemma {:induction false} SingletonBuiltOnce(t: Tables, service: string, f: nat, first: Value, second: Value)
    requires service !in t.services
    ensures var t1 := Registration(t, service, Factory(f), true);
            var (r1, t2) := Resolved(t1, service, first);
            var (r2, t3) := Resolved(t2, service, second);
            r1 == Built(f, first) && r2 == Stored(first) && t3 == t2
  {
    var t1 := Registration(t, service, Factory(f), true);
    assert Caches(t1, service);
  }

  /** A factory registered as not a singleton is called on every resolve,
      and no instance is ever cached. */
  lemma {:induction false} TransientBuiltEveryTime(t: Tables, service: string, f: nat, first: Value, second: Value)
    requires service !in t.services
    ensures var t1 := Registration(t, service, Factory(f), false);
            var (r1, t2) := Resolved(t1, service, first);
            var (r2, t3) := Resolved(t2, service, second);
            r1 == Built(f, first) && r2 == Built(f, second) && t2 == t1 && t3 == t1
  {
    var t1 := Registration(t, service, Factory(f), false);
    assert !Caches(t1, service);
  }

  /** An instance already stored shadows a factory registered later:
      services are tried first, and the factory is never called. */
  lemma {:induction false} ServiceShadowsFactory(t: Tables, service: string, f: nat, singleton: bool, produced: Value)
    requires service in t.services
    ensures Resolved(Registration(t, service, Factory(f), singleton), service, produced).0 == Stored(t.services[service])
  {
  }

  /** After `clear` nothing is registered, so every resolve raises. */
  lemma {:induction false} ClearedResolvesNothing(service: string, produced: Value)
    ensures !Registered(Empty, service) && Resolved(Empty, service, produced).0 == NotRegistered
  {
  }

  // ---------------------------------------------------------------- the container

  class ServiceContainer {
    var services: map<string, Value>
    var factories: map<string, nat>
    var singletons: map<string, bool>

    function Current(): (t: Tables)
      reads this
      ensures t.services == services && t.factories == factories && t.singletons == singletons
    {
      Tables(services, factories, singletons)
    }

    constructor ()
      ensures Current() == Empty
    {
      services, factories, singletons := map[], map[], map[];
    }

    /** `register`. */
    method Register(service: string, impl: Implementation, singleton: bool)
      modifies this
      ensures Current() == Registration(old(Current()), service, impl, singleton)
    {
      match impl {
        case Instance(v) =>
          services := services[service := v];
          singletons := singletons[service := true];
        case Factory(f) =>
          factories := factories[service := f];
          singletons := singletons[service := singleton];
      }
    }

    /** `resolve`; `produced` is what the factory returns if it is called. */
    method Resolve(service: string, produced: Value) returns (r: Resolution)
      modifies this
      ensures (r, Current()) == Resolved(old(Current()), service, produced)
    {
      if service in services {
        return Stored(services[service]);
      }
      if service in factories {
        var instance := produced;
        if service !in singletons || singletons[service] {
          services := services[service := instance];
        }
        return Built(factories[service], instance);
      }
      return NotRegistered;
    }

    /** `is_registered`. */
    function IsRegistered(service: string): (r: bool)
      reads this
      ensures r <==> Registered(Current(), service)
      ensures r <==> service in services || service in factories
    {
      service in services || service in factories
    }

    /** `clear`. */
    method Clear()
      modifies this
      ensures Current() == Empty
    {
      services, factories, singletons := map[], map[], map[];
    }
  }
}
