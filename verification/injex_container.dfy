/**
 * The multi-binding engine as Python runs it: a `Container` whose registry,
 * singleton cache and resolving set are updated in place, and `Scope` objects
 * holding their own cache. Each method is proved to leave exactly the outcome
 * and state that the matching function of `InjexModel` computes; the
 * properties of those functions are proved in `InjexProperties`.
 *
 * The extra `fuel` argument of the resolution methods is the number of nested
 * `Scope.resolve` frames the interpreter's recursion limit still allows.
 */
module Injex {
  import opened Common
  import M = InjexModel

  class Scope {
    const container: Container
    var scoped: map<M.CacheKey, Value>

    constructor(container: Container)
      ensures this.container == container && scoped == map[]
    {
      this.container := container;
      scoped := map[];
    }

    /** `Scope.resolve`: builds every registration under the key, returns the first. */
    method Resolve(iface: TypeId, name: Option<string>, fuel: nat) returns (r: Result<Value>)
      modifies this, container
      decreases fuel, 9
      ensures container.registrations == old(container.registrations)
      ensures container.resolving == old(container.resolving)
      ensures Step(r, container.State(this))
              == M.ScopeResolve(container.Env(), Key(iface, name), old(container.resolving), old(container.State(this)), fuel)
    {
      if fuel == 0 {
        return Err(RecursionLimit);
      }
      var instances := container.ResolveInScope(iface, this, name, fuel - 1);
      match instances {
        case Err(e) =>
          r := Err(e);
        case Ok(xs) =>
          if xs == [] {
            r := Err(NotRegistered(Key(iface, name)));
          } else {
            r := Ok(xs[0]);
          }
      }
    }

    /** `Scope.resolve_all` */
    method ResolveAll(iface: TypeId, name: Option<string>, fuel: nat) returns (r: Result<seq<Value>>)
      modifies this, container
      ensures container.registrations == old(container.registrations)
      ensures container.resolving == old(container.resolving)
      ensures Step(r, container.State(this))
              == M.ResolveInScope(container.Env(), Key(iface, name), old(container.resolving), old(container.State(this)), fuel)
    {
      r := container.ResolveInScope(iface, this, name, fuel);
    }
  }

  class Container {
    var registrations: M.Registry
    var singletons: map<M.CacheKey, Value>
    var resolving: set<TypeId>
    /** The objects user code has built so far; `Ref(i)` is `objects[i]`. */
    var objects: seq<Obj>
    /** Reflection over classes and factories, fixed for the program's lifetime. */
    const types: map<TypeId, TypeInfo>
    const factories: map<FactoryId, FactoryInfo>
    /** The interpreter's recursion limit, counted in nested `Scope.resolve` frames. */
    const recursionLimit: nat

    constructor(types: map<TypeId, TypeInfo>, factories: map<FactoryId, FactoryInfo>, recursionLimit: nat)
      ensures registrations == map[] && singletons == map[] && resolving == {} && objects == []
      ensures this.types == types && this.factories == factories && this.recursionLimit == recursionLimit
    {
      registrations := map[];
      singletons := map[];
      resolving := {};
      objects := [];
      this.types := types;
      this.factories := factories;
      this.recursionLimit := recursionLimit;
    }

    function Env(): M.Env
      reads this
    {
      M.Env(registrations, types, factories)
    }

    function State(scope: Scope): M.St
      reads this, scope
    {
      M.St(singletons, scope.scoped, objects)
    }

    /** `register`: validate the lifestyle, then append a service registration. */
    method Register(interface: TypeId, implementation: Option<TypeId>, lifestyle: string, name: Option<string>)
      returns (r: Result<()>)
      modifies this
      ensures singletons == old(singletons) && resolving == old(resolving) && objects == old(objects)
      ensures match M.ServiceRegistration(interface, implementation, lifestyle)
              case Err(e) => r == Err(e) && registrations == old(registrations)
              case Ok(reg) => r == Ok(()) && registrations == M.Append(old(registrations), Key(interface, name), reg)
    {
      var l := ParseLifestyle(lifestyle);
      if l.None? {
        return Err(InvalidLifestyle(lifestyle));
      }
      var impl := if implementation.None? then interface else implementation.value;
      var key := Key(interface, name);
      var registration := M.Service(impl, l.value);
      registrations := registrations[key := M.Registrations(registrations, key) + [registration]];
      r := Ok(());
    }

    /** `register_factory`: refuse a non-callable, validate the lifestyle, append. */
    method RegisterFactory(interface: TypeId, factory: Value, lifestyle: string, name: Option<string>)
      returns (r: Result<()>)
      modifies this
      ensures singletons == old(singletons) && resolving == old(resolving) && objects == old(objects)
      ensures match M.FactoryRegistration(factory, lifestyle)
              case Err(e) => r == Err(e) && registrations == old(registrations)
              case Ok(reg) => r == Ok(()) && registrations == M.Append(old(registrations), Key(interface, name), reg)
    {
      if !factory.Callable? {
        return Err(FactoryNotCallable);
      }
      var l := ParseLifestyle(lifestyle);
      if l.None? {
        return Err(InvalidLifestyle(lifestyle));
      }
      var key := Key(interface, name);
      var registration := M.Factory(factory.f, l.value);
      registrations := registrations[key := M.Registrations(registrations, key) + [registration]];
      r := Ok(());
    }

    /** `add_instance`: append an instance registration. */
    method AddInstance(interface: TypeId, instance: Value, name: Option<string>)
      modifies this
      ensures singletons == old(singletons) && resolving == old(resolving) && objects == old(objects)
      ensures registrations == M.Append(old(registrations), Key(interface, name), M.Instance(instance))
    {
      var key := Key(interface, name);
      registrations := registrations[key := M.Registrations(registrations, key) + [M.Instance(instance)]];
    }

    /** `create_scope` */
    method CreateScope() returns (scope: Scope)
      ensures fresh(scope) && scope.container == this && scope.scoped == map[]
    {
      scope := new Scope(this);
    }

    /** `resolve`: `Scope.resolve` in a new scope. */
    method Resolve(iface: TypeId, name: Option<string>) returns (r: Result<Value>)
      modifies this
      ensures registrations == old(registrations) && resolving == old(resolving)
      ensures var out := M.ScopeResolve(Env(), Key(iface, name), old(resolving), M.St(old(singletons), map[], old(objects)), recursionLimit);
              r == out.result && singletons == out.st.singletons && objects == out.st.objects
    {
      var scope := CreateScope();
      r := scope.Resolve(iface, name, recursionLimit);
    }

    /** `resolve_all`: `Scope.resolve_all` in a new scope. */
    method ResolveAll(iface: TypeId, name: Option<string>) returns (r: Result<seq<Value>>)
      modifies this
      ensures registrations == old(registrations) && resolving == old(resolving)
      ensures var out := M.ResolveInScope(Env(), Key(iface, name), old(resolving), M.St(old(singletons), map[], old(objects)), recursionLimit);
              r == out.result && singletons == out.st.singletons && objects == out.st.objects
    {
      var scope := CreateScope();
      r := scope.ResolveAll(iface, name, recursionLimit);
    }

    /** `_resolve_in_scope`: one instance per registration under the key, in order. */
    method ResolveInScope(iface: TypeId, scope: Scope, name: Option<string>, fuel: nat) returns (r: Result<seq<Value>>)
      requires scope.container == this
      modifies this, scope
      decreases fuel + 1, 8
      ensures registrations == old(registrations) && resolving == old(resolving)
      ensures Step(r, State(scope)) == M.ResolveInScope(Env(), Key(iface, name), old(resolving), old(State(scope)), fuel)
    {
      var key := Key(iface, name);
      var regs := M.Registrations(registrations, key);
      var instances := [];
      ghost var s0 := State(scope);
      for i := 0 to |regs|
        invariant registrations == old(registrations) && resolving == old(resolving)
        invariant M.CollectFrom(Env(), key, i, instances, resolving, State(scope), fuel)
                  == M.CollectFrom(Env(), key, 0, [], resolving, s0, fuel)
      {
        var instance := GetInstance(key, i, scope, fuel);
        if instance.Err? {
          return Err(instance.error);
        }
        instances := instances + [instance.value];
      }
      r := Ok(instances);
    }

    /** `_get_instance_from_registration` for the `i`-th registration under `key`. */
    method GetInstance(key: Key, i: nat, scope: Scope, fuel: nat) returns (r: Result<Value>)
      requires scope.container == this
      requires i < |M.Registrations(registrations, key)|
      modifies this, scope
      decreases fuel + 1, 6
      ensures registrations == old(registrations) && resolving == old(resolving)
      ensures Step(r, State(scope)) == M.GetInstance(Env(), key, i, old(resolving), old(State(scope)), fuel)
    {
      var registration := M.Registrations(registrations, key)[i];
      var instanceKey := M.CacheKey(key, i);
      if registration.Instance? {
        return Ok(registration.instance);
      }
      match registration.lifestyle {
        case Singleton =>
          if instanceKey in singletons {
            return Ok(singletons[instanceKey]);
          }
          r := CreateFromRegistration(registration, scope, fuel);
          if r.Ok? {
            singletons := singletons[instanceKey := r.value];
          }
        case Scoped =>
          if instanceKey in scope.scoped {
            return Ok(scope.scoped[instanceKey]);
          }
          r := CreateFromRegistration(registration, scope, fuel);
          if r.Ok? {
            scope.scoped := scope.scoped[instanceKey := r.value];
          }
        case Transient =>
          r := CreateFromRegistration(registration, scope, fuel);
      }
    }

    /** `_create_instance_from_registration` */
    method CreateFromRegistration(registration: M.Registration, scope: Scope, fuel: nat) returns (r: Result<Value>)
      requires scope.container == this
      requires !registration.Instance?
      modifies this, scope
      decreases fuel + 1, 5
      ensures registrations == old(registrations) && resolving == old(resolving)
      ensures Step(r, State(scope)) == M.CreateFromRegistration(Env(), registration, old(resolving), old(State(scope)), fuel)
    {
      match registration {
        case Service(cls, _) =>
          r := CreateInstance(cls, scope, fuel);
        case Factory(f, _) =>
          r := InvokeFactory(f, scope, fuel);
      }
    }

    /** `_invoke_factory`: resolve each parameter in declaration order, then call the factory. */
    method InvokeFactory(f: FactoryId, scope: Scope, fuel: nat) returns (r: Result<Value>)
      requires scope.container == this
      modifies this, scope
      decreases fuel + 1, 4
      ensures registrations == old(registrations) && resolving == old(resolving)
      ensures Step(r, State(scope)) == M.InvokeFactory(Env(), f, old(resolving), old(State(scope)), fuel)
    {
      var info := M.FactoryOf(Env(), f);
      var args := [];
      ghost var s0 := State(scope);
      for i := 0 to |info.params|
        invariant registrations == old(registrations) && resolving == old(resolving)
        invariant M.FactoryArgsFrom(Env(), f, info.params, i, args, resolving, State(scope), fuel)
                  == M.FactoryArgsFrom(Env(), f, info.params, 0, [], resolving, s0, fuel)
      {
        var p := info.params[i];
        var dependency: Value;
        if p.annotation.Unannotated? {
          if p.name == "container" {
            dependency := ContainerRef;
          } else {
            return Err(MissingTypeAnnotation(p.name, OfFactory(f)));
          }
        } else {
          var d := scope.Resolve(p.annotation.dep, None, fuel);
          if d.Err? && d.error.NotRegistered? {
            if p.default.Some? {
              d := Ok(p.default.value);
            } else if M.IsOptional(p) {
              d := Ok(NoneValue);
            }
          }
          if d.Err? {
            return Err(d.error);
          }
          dependency := d.value;
        }
        args := args + [dependency];
      }
      if info.raises.Some? {
        return Err(Raised(info.raises.value));
      }
      r := Ok(Ref(|objects|));
      objects := objects + [Obj(OfFactory(f), args, map[])];
    }

    /** `_create_instance`: the cycle check, then the `try` body, then the `finally` removal. */
    method CreateInstance(cls: TypeId, scope: Scope, fuel: nat) returns (r: Result<Value>)
      requires scope.container == this
      modifies this, scope
      decreases fuel + 1, 4
      ensures registrations == old(registrations) && resolving == old(resolving)
      ensures Step(r, State(scope)) == M.CreateInstance(Env(), cls, old(resolving), old(State(scope)), fuel)
    {
      if cls in resolving {
        return Err(CyclicDependency(cls));
      }
      resolving := resolving + {cls};
      r := BuildInstance(cls, scope, fuel);
      resolving := resolving - {cls};
    }

    /** The `try` body of `_create_instance`: constructor arguments, `cls(*args)`, property injection. */
    method BuildInstance(cls: TypeId, scope: Scope, fuel: nat) returns (r: Result<Value>)
      requires scope.container == this
      modifies this, scope
      decreases fuel + 1, 3
      ensures registrations == old(registrations) && resolving == old(resolving)
      ensures Step(r, State(scope)) == M.BuildInstance(Env(), cls, old(resolving), old(State(scope)), fuel)
    {
      var info := M.TypeOf(Env(), cls);
      var args := [];
      if info.ctor.Some? {
        var params := info.ctor.value;
        ghost var s0 := State(scope);
        for i := 0 to |params|
          invariant registrations == old(registrations) && resolving == old(resolving)
          invariant M.CtorArgsFrom(Env(), cls, params, i, args, resolving, State(scope), fuel)
                    == M.CtorArgsFrom(Env(), cls, params, 0, [], resolving, s0, fuel)
        {
          var p := params[i];
          if p.annotation.Unannotated? {
            return Err(MissingTypeAnnotation(p.name, OfType(cls)));
          }
          var t := p.annotation.dep;
          if t in resolving {
            return Err(CyclicDependency(t));
          }
          var dependency := scope.Resolve(t, None, fuel);
          if dependency.Err? && dependency.error.NotRegistered? {
            if p.default.Some? {
              dependency := Ok(p.default.value);
            } else if M.IsOptional(p) {
              dependency := Ok(NoneValue);
            }
          }
          if dependency.Err? {
            return Err(dependency.error);
          }
          args := args + [dependency.value];
        }
      }
      if info.raises.Some? {
        return Err(Raised(info.raises.value));
      }
      var instance := |objects|;
      objects := objects + [Obj(OfType(cls), args, map[])];
      var injected := InjectProperties(instance, info.members, scope, fuel);
      if injected.Err? {
        return Err(injected.error);
      }
      r := Ok(Ref(instance));
    }

    /** `_inject_properties` on object `obj`, whose injectable members are `members`. */
    method InjectProperties(obj: nat, members: seq<Member>, scope: Scope, fuel: nat) returns (r: Result<()>)
      requires scope.container == this
      requires obj < |objects|
      modifies this, scope
      decreases fuel + 1, 2
      ensures registrations == old(registrations) && resolving == old(resolving)
      ensures Step(r, State(scope)) == M.InjectFrom(Env(), obj, members, 0, old(resolving), old(State(scope)), fuel)
    {
      ghost var s0 := State(scope);
      for i := 0 to |members|
        invariant registrations == old(registrations) && resolving == old(resolving)
        invariant obj < |objects|
        invariant M.InjectFrom(Env(), obj, members, i, resolving, State(scope), fuel)
                  == M.InjectFrom(Env(), obj, members, 0, resolving, s0, fuel)
      {
        var m := members[i];
        if m.preset || m.returnType.None? {
          continue;
        }
        var t := m.returnType.value;
        if t in resolving {
          return Err(CyclicDependency(t));
        }
        var dependency := scope.Resolve(t, None, fuel);
        if dependency.Err? {
          return Err(dependency.error);
        }
        objects := SetField(objects, obj, m.name, dependency.value);
      }
      r := Ok(());
    }
  }
}
