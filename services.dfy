/** The service container: a name-to-instance registry used for dependency injection. */
module Services {
  import opened Optional

  class ServiceContainer<T> {
    var services: map<string, T>

    /** A new container knows no service. */
    constructor ()
      ensures services == map[]
      ensures forall name :: Get(services, name) == None
    {
      services := map[];
    }

    /** Registers `instance` under `name`, replacing any earlier one; other names are untouched. */
    method Register(name: string, instance: T)
      modifies this
      ensures services == old(services)[name := instance]
      ensures Get(services, name) == Some(instance)
      ensures forall other :: other != name ==> Get(services, other) == Get(old(services), other)
    {
      services := services[name := instance];
    }

    /** The instance registered under `name`, or absent (`undefined`) when there is none. */
    method Resolve(name: string) returns (instance: Option<T>)
      ensures instance.Some? <==> name in services
      ensures instance.Some? ==> instance.value == services[name]
    {
      instance := Get(services, name);
    }
  }

  /** After registering `x` under `n`, resolving `n` gives `x` and every other name what it gave before. */
  lemma ResolveAfterRegister<T>(services: map<string, T>, n: string, x: T, m: string)
    ensures Get(services[n := x], n) == Some(x)
    ensures m != n ==> Get(services[n := x], m) == Get(services, m)
  {
  }
}
