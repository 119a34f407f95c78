/**
 * The single-binding engine as Python runs it: a `Container` whose service,
 * factory and singleton tables and resolving set are updated in place, and
 * `Scope` objects holding their own cache. Each method is proved to leave
 * exactly the outcome and state that the matching function of `DiModel`
 * computes; the properties of those functions are proved in `DiProperties`.
 */
module Di {
  import opened Common
  import M = DiModel

  class Scope {
    const container: Container
    var scoped: map<Key, Value>

    constructor(container: Container)
      ensures this.container == container && scoped == map[]
    {
      this.container := container;
      scoped := map[];
    }

    /** `Scope.resolve`: this scope's cache, then `_resolve_in_scope`. */
    method Resolve(iface: TypeId, name: Option<string>) returns (r: Result<Value>)
      modifies this, container
      decreases |container.Classes() - container.resolving|, 4
      ensures container.services == old(container.services) && container.factories == old(container.factories)
      ensures container.resolving == old(container.resolving)
      ensures Step(r, container.State(this))
              == M.ScopeResolve(container.Env(), Key(iface, name), old(container.resolving), old(container.State(this)))
    {
      var key := Key(iface, name);
      if key in scoped {
        return Ok(scoped[key]);
      }
      r := container.ResolveInScope(iface, this, name);
    }
  }

  class Container {
    var services: map<Key, M.Service>
    var factories: map<Key, M.FactoryEntry>
    var singletons: map<Key, Value>
    var resolving: set<TypeId>
    /** The objects user code has built so far; `Ref(i)` is `objects[i]`. */
    var objects: seq<Obj>
    /** Reflection over classes and factory callables, fixed for the program's lifetime. */
    const types: map<TypeId, TypeInfo>
    const callables: map<FactoryId, FactoryInfo>

    constructor(types: map<TypeId, TypeInfo>, callables: map<FactoryId, FactoryInfo>)
      ensures services == map[] && factories == map[] && singletons == map[] && resolving == {} && objects == []
      ensures this.types == types && this.callables == callables
    {
      services := map[];
      factories := map[];
      singletons := map[];
      resolving := {};
      objects := [];
      this.types := types;
      this.callables := callables;
    }

    function Env(): M.Env
      reads this
    {
      M.Env(services, factories, types, callables)
    }

    function State(scope: Scope): M.St
      reads this, scope
    {
      M.St(singletons, scope.scoped, objects)
    }

    function Classes(): set<TypeId>
      reads this
    {
      M.Classes(Env())
    }

    /** `register`: validate the lifestyle, then overwrite the key's service entry. */
    method Register(interface: TypeId, implementation: Option<TypeId>, lifestyle: string, name: Option<string>)
      returns (r: Result<()>)
      modifies this
      ensures factories == old(factories) && singletons == old(singletons)
      ensures resolving == old(resolving) && objects == old(objects)
      ensures match M.ServiceEntry(interface, implementation, lifestyle)
              case Err(e) => r == Err(e) && services == old(services)
              case Ok(entry) => r == Ok(()) && services == old(services)[Key(interface, name) := entry]
    {
      var l := ParseLifestyle(lifestyle);
      if l.None? {
        return Err(InvalidLifestyle(lifestyle));
      }
      var impl := if implementation.None? then interface else implementation.value;
      services := services[Key(interface, name) := M.Service(impl, l.value)];
      r := Ok(());
    }

    /** `register_factory`: refuse a non-callable, validate the lifestyle, overwrite the key's factory entry. */
    method RegisterFactory(interface: TypeId, factory: Value, lifestyle: string, name: Option<string>)
      returns (r: Result<()>)
      modifies this
      ensures services == old(services) && singletons == old(singletons)
      ensures resolving == old(resolving) && objects == old(objects)
      ensures match M.FactoryEntryFor(factory, lifestyle)
              case Err(e) => r == Err(e) && factories == old(factories)
              case Ok(entry) => r == Ok(()) && factories == old(factories)[Key(interface, name) := entry]
    {
      if !factory.Callable? {
        return Err(FactoryNotCallable);
      }
      var l := ParseLifestyle(lifestyle);
      if l.None? {
        return Err(InvalidLifestyle(lifestyle));
      }
      factories := factories[Key(interface, name) := M.FactoryEntry(factory.f, l.value)];
      r := Ok(());
    }

    /** `add_instance`: the value goes straight into the singleton cache. */
    method AddInstance(interface: TypeId, instance: Value, name: Option<string>)
      modifies this
      ensures services == old(services) && factories == old(factories)
      ensures resolving == old(resolving) && objects == old(objects)
      ensures singletons == old(singletons)[Key(interface, name) := instance]
    {
      singletons := singletons[Key(interface, name) := instance];
    }

    /** `create_scope` */
    method CreateScope() returns (scope: Scope)
      ensures fresh(scope) && scope.container == this && scope.scoped == map[]
    {
      scope := new Scope(this);
    }

    /** `resolve`: the singleton cache, the registration check, then a new scope. */
    method Resolve(iface: TypeId, name: Option<string>) returns (r: Result<Value>)
      modifies this
      ensures services == old(services) && factories == old(factories) && resolving == old(resolving)
      ensures var out := M.Resolve(Env(), Key(iface, name), old(resolving), M.St(old(singletons), map[], old(objects)));
              r == out.result && singletons == out.st.singletons && objects == out.st.objects
    {
      var key := Key(iface, name);
      if key in singletons {
        return Ok(singletons[key]);
      }
      if key in services || key in factories {
        var scope := CreateScope();
        r := ResolveInScope(iface, scope, name);
      } else {
        r := Err(NotRegistered(key));
      }
    }

    /** `_resolve_in_scope`: caches, service entry, factory entry; then caching by lifestyle. */
    method ResolveInScope(iface: TypeId, scope: Scope, name: Option<string>) returns (r: Result<Value>)
      requires scope.container == this
      modifies this, scope
      decreases |Classes() - resolving|, 3
      ensures services == old(services) && factories == old(factories) && resolving == old(resolving)
      ensures Step(r, State(scope)) == M.ResolveInScope(Env(), Key(iface, name), old(resolving), old(State(scope)))
    {
      var key := Key(iface, name);
      if key in singletons {
        return Ok(singletons[key]);
      }
      if key in scope.scoped {
        return Ok(scope.scoped[key]);
      }
      var lifestyle: Lifestyle;
      if key in services {
        var service := services[key];
        lifestyle := service.lifestyle;
        r := CreateInstance(service.implementation, scope);
      } else if key in factories {
        var entry := factories[key];
        lifestyle := entry.lifestyle;
        // factory(self)
        var info := M.CallableOf(Env(), entry.factory);
        if info.raises.Some? {
          return Err(Raised(info.raises.value));
        }
        r := Ok(Ref(|objects|));
        objects := objects + [Obj(OfFactory(entry.factory), [ContainerRef], map[])];
      } else {
        return Err(NotRegistered(key));
      }
      if r.Err? {
        return;
      }
      if lifestyle == Singleton {
        singletons := singletons[key := r.value];
      } else if lifestyle == Scoped {
        scope.scoped := scope.scoped[key := r.value];
      }
    }

    /** `_create_instance`: the cycle check, then the `try` body, then the `finally` removal. */
    method CreateInstance(cls: TypeId, scope: Scope) returns (r: Result<Value>)
      requires scope.container == this
      modifies this, scope
      decreases |Classes() - resolving| + (if cls in Classes() then 0 else 1), 2
      ensures services == old(services) && factories == old(factories) && resolving == old(resolving)
      ensures Step(r, State(scope)) == M.CreateInstance(Env(), cls, old(resolving), old(State(scope)))
    {
      if cls in resolving {
        return Err(CyclicDependency(cls));
      }
      AddShrinks(Classes(), resolving, cls);
      resolving := resolving + {cls};
      r := BuildInstance(cls, scope);
      resolving := resolving - {cls};
    }

    /** The `try` body of `_create_instance`: constructor arguments, `cls(*args)`, property injection. */
    method BuildInstance(cls: TypeId, scope: Scope) returns (r: Result<Value>)
      requires scope.container == this
      modifies this, scope
      decreases |Classes() - resolving| + 1, 1
      ensures services == old(services) && factories == old(factories) && resolving == old(resolving)
      ensures Step(r, State(scope)) == M.BuildInstance(Env(), cls, old(resolving), old(State(scope)))
    {
      var info := M.TypeOf(Env(), cls);
      var args := [];
      if info.ctor.Some? {
        var params := info.ctor.value;
        ghost var s0 := State(scope);
        for i := 0 to |params|
          invariant services == old(services) && factories == old(factories) && resolving == old(resolving)
          invariant M.ArgsFrom(Env(), cls, params, i, args, resolving, State(scope))
                    == M.ArgsFrom(Env(), cls, params, 0, [], resolving, s0)
        {
          var p := params[i];
          if p.annotation.Unannotated? {
            return Err(MissingTypeAnnotation(p.name, OfType(cls)));
          }
          var dependency := scope.Resolve(p.annotation.dep, None);
          if dependency.Err? && dependency.error.NotRegistered? && p.annotation.optional {
            dependency := Ok(NoneValue);
          }
          if dependency.Err? {
            return Err(dependency.error);
          }
          args := args + [dependency.value];
        }
      }
      if info.raises.Some? {
        return Err(Raised(info.raises.value));
      }
      var instance := |objects|;
      objects := objects + [Obj(OfType(cls), args, map[])];
      var injected := InjectProperties(instance, info.members, scope);
      if injected.Err? {
        return Err(injected.error);
      }
      r := Ok(Ref(instance));
    }

    /** `_inject_properties` on object `obj`, whose injectable members are `members`. */
    method InjectProperties(obj: nat, members: seq<Member>, scope: Scope) returns (r: Result<()>)
      requires scope.container == this
      requires obj < |objects|
      modifies this, scope
      decreases |Classes() - resolving| + 1, 0
      ensures services == old(services) && factories == old(factories) && resolving == old(resolving)
      ensures Step(r, State(scope)) == M.InjectFrom(Env(), obj, members, 0, old(resolving), old(State(scope)))
    {
      ghost var s0 := State(scope);
      for i := 0 to |members|
        invariant services == old(services) && factories == old(factories) && resolving == old(resolving)
        invariant obj < |objects|
        invariant M.InjectFrom(Env(), obj, members, i, resolving, State(scope))
                  == M.InjectFrom(Env(), obj, members, 0, resolving, s0)
      {
        var m := members[i];
        if m.preset || m.returnType.None? {
          continue;
        }
        var dependency := scope.Resolve(m.returnType.value, None);
        if dependency.Err? {
          return Err(dependency.error);
        }
        objects := SetField(objects, obj, m.name, dependency.value);
      }
      r := Ok(());
    }
  }
}
