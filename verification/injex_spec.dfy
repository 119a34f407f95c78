/**
 * The multi-binding engine (`injex`) as state-passing functions: one function
 * per method of the Python `Container` and `Scope`, and one per `for` loop.
 *
 * Every resolution function takes
 *   - the environment `env`: the registry and the descriptor tables, which
 *     resolution never changes;
 *   - the resolving set `R` in force when the Python method is entered;
 *   - the state `s`: the singleton cache, the active scope's cache and the
 *     object store;
 *   - `fuel`: how many more nested `Scope.resolve` frames the interpreter's
 *     recursion limit allows (factories never enter the resolving set, so only
 *     this limit stops a factory that depends on its own key);
 * and returns the outcome together with the new state.
 */
module InjexModel {
  import opened Common

  /** `Registration`: a service, factory or instance binding. */
  datatype Registration =
    | Service(implementation: TypeId, lifestyle: Lifestyle)
    | Factory(factory: FactoryId, lifestyle: Lifestyle)
    | Instance(instance: Value)

  /** `_registrations`: every key's registrations, in registration order. */
  type Registry = map<Key, seq<Registration>>

  /** `_registrations.get(key, [])` */
  function Registrations(registry: Registry, key: Key): seq<Registration>
  {
    if key in registry then registry[key] else []
  }

  /**
   * `_registrations.setdefault(key, []).append(r)`: `r` goes to the end of
   * `key`'s list, nothing is deduplicated, and no other key's list changes.
   */
  function Append(registry: Registry, key: Key, r: Registration): (registry': Registry)
    ensures |Registrations(registry', key)| == |Registrations(registry, key)| + 1
    ensures Registrations(registry', key)[|Registrations(registry, key)|] == r
    ensures forall k :: Registrations(registry, k) <= Registrations(registry', k)
    ensures forall k :: k != key ==> Registrations(registry', k) == Registrations(registry, k)
  {
    registry[key := Registrations(registry, key) + [r]]
  }

  /**
   * What `register` appends, or what it raises: an unknown lifestyle is
   * refused, and a missing implementation means the interface itself.
   */
  function ServiceRegistration(interface: TypeId, implementation: Option<TypeId>, lifestyle: string): (r: Result<Registration>)
    ensures r.Err? <==> ParseLifestyle(lifestyle).None?
    ensures r.Err? ==> r.error == InvalidLifestyle(lifestyle)
    ensures r.Ok? ==> r.value.Service? && LifestyleName(r.value.lifestyle) == lifestyle
    ensures r.Ok? && implementation.None? ==> r.value.implementation == interface
    ensures r.Ok? && implementation.Some? ==> r.value.implementation == implementation.value
  {
    match ParseLifestyle(lifestyle)
    case None => Err(InvalidLifestyle(lifestyle))
    case Some(l) => Ok(Service(if implementation.Some? then implementation.value else interface, l))
  }

  /**
   * What `register_factory` appends, or what it raises: a non-callable is
   * refused first, then an unknown lifestyle.
   */
  function FactoryRegistration(factory: Value, lifestyle: string): (r: Result<Registration>)
    ensures r.Ok? <==> factory.Callable? && ParseLifestyle(lifestyle).Some?
    ensures !factory.Callable? ==> r == Err(FactoryNotCallable)
    ensures factory.Callable? && ParseLifestyle(lifestyle).None? ==> r == Err(InvalidLifestyle(lifestyle))
    ensures r.Ok? ==> factory.Callable? && r.value.Factory? && r.value.factory == factory.f
                      && LifestyleName(r.value.lifestyle) == lifestyle
  {
    if !factory.Callable? then Err(FactoryNotCallable)
    else match ParseLifestyle(lifestyle)
      case None => Err(InvalidLifestyle(lifestyle))
      case Some(l) => Ok(Factory(factory.f, l))
  }

  /**
   * `instance_key = (key, registration)`. Lists only ever grow at the end, so
   * a registration's position in its key's list identifies the object.
   */
  datatype CacheKey = CacheKey(key: Key, index: nat)

  /** What resolution reads but never changes. */
  datatype Env = Env(registry: Registry, types: map<TypeId, TypeInfo>, factories: map<FactoryId, FactoryInfo>)

  function TypeOf(env: Env, cls: TypeId): TypeInfo
  {
    if cls in env.types then env.types[cls] else PlainType
  }

  function FactoryOf(env: Env, f: FactoryId): FactoryInfo
  {
    if f in env.factories then env.factories[f] else PlainFactory
  }

  /** `_singletons`, the active scope's `_scoped_instances`, and the objects built so far. */
  datatype St = St(singletons: map<CacheKey, Value>, scoped: map<CacheKey, Value>, objects: seq<Obj>)

  type Out<T> = Step<T, St>

  /** `Container.resolve` and `resolve_all` start from a new, empty scope. */
  function InFreshScope(s: St): St { s.(scoped := map[]) }

  /** Who builds the objects a service or factory registration stands for. */
  function OriginOf(reg: Registration): Owner
    requires !reg.Instance?
  {
    match reg
    case Service(cls, _) => OfType(cls)
    case Factory(f, _) => OfFactory(f)
  }

  /**
   * `v` is what registration `reg` may yield: the bound value itself for an
   * instance binding, otherwise an object built by the registration's class
   * or factory.
   */
  ghost predicate Delivers(reg: Registration, v: Value, objects: seq<Obj>)
  {
    if reg.Instance? then v == reg.instance
    else v.Ref? && v.id < |objects| && objects[v.id].origin == OriginOf(reg)
  }

  /** The registration a cache key names exists, has lifestyle `l`, and `v` is an object it built. */
  ghost predicate CachedAs(env: Env, ck: CacheKey, l: Lifestyle, v: Value, objects: seq<Obj>)
  {
    var regs := Registrations(env.registry, ck.key);
    ck.index < |regs| && !regs[ck.index].Instance? && regs[ck.index].lifestyle == l
    && Delivers(regs[ck.index], v, objects)
  }

  /**
   * Only singleton registrations are in the singleton cache, only scoped ones
   * in a scope, and each cached value is an object its registration built.
   */
  ghost predicate CacheWF(env: Env, s: St)
  {
    && (forall ck :: ck in s.singletons ==> CachedAs(env, ck, Singleton, s.singletons[ck], s.objects))
    && (forall ck :: ck in s.scoped ==> CachedAs(env, ck, Scoped, s.scoped[ck], s.objects))
  }

  /** Objects are only ever added, and cache entries are never replaced or evicted. */
  ghost predicate Grows(s: St, s': St)
  {
    && s.objects <= s'.objects
    && Extends(s.singletons, s'.singletons)
    && Extends(s.scoped, s'.scoped)
  }

  /** `ServiceNotRegisteredException` is only ever raised for a key with no registration. */
  ghost predicate NamesUnregistered<T>(env: Env, r: Result<T>)
  {
    r.Err? && r.error.NotRegistered? ==> Registrations(env.registry, r.error.key) == []
  }

  /** What every resolution step guarantees about the state it leaves and the error it raises. */
  ghost predicate Advances<T>(env: Env, s: St, out: Out<T>)
  {
    Grows(s, out.st) && (CacheWF(env, s) ==> CacheWF(env, out.st)) && NamesUnregistered(env, out.result)
  }

  /** `v` is an object built during the step from `s` to `s'`. */
  ghost predicate FreshIn(v: Value, s: St, s': St)
  {
    v.Ref? && |s.objects| <= v.id < |s'.objects|
  }

  /** `Scope.resolve`: every registration under `key` is built; the first result is returned. */
  function ScopeResolve(env: Env, key: Key, R: set<TypeId>, s: St, fuel: nat): (out: Out<Value>)
    ensures Advances(env, s, out)
    decreases fuel, 9
  {
    if fuel == 0 then Step(Err(RecursionLimit), s)
    else
      var all := ResolveInScope(env, key, R, s, fuel - 1);
      match all.result
      case Err(e) => Step(Err(e), all.st)
      case Ok(xs) => if xs == [] then Step(Err(NotRegistered(key)), all.st) else Step(Ok(xs[0]), all.st)
  }

  /** `_resolve_in_scope` (and `Scope.resolve_all`): one instance per registration, in order. */
  function ResolveInScope(env: Env, key: Key, R: set<TypeId>, s: St, fuel: nat): (out: Out<seq<Value>>)
    ensures Advances(env, s, out)
    ensures out.result.Ok? ==> |out.result.value| == |Registrations(env.registry, key)|
    decreases fuel + 1, 8
  {
    CollectFrom(env, key, 0, [], R, s, fuel)
  }

  /** The loop of `_resolve_in_scope` from registration `i` on, `acc` holding the instances so far. */
  function CollectFrom(env: Env, key: Key, i: nat, acc: seq<Value>, R: set<TypeId>, s: St, fuel: nat): (out: Out<seq<Value>>)
    requires i <= |Registrations(env.registry, key)|
    ensures Advances(env, s, out)
    ensures out.result.Ok? ==> |out.result.value| == |acc| + |Registrations(env.registry, key)| - i
    ensures out.result.Ok? ==> out.result.value[..|acc|] == acc
    decreases fuel + 1, 7, |Registrations(env.registry, key)| - i
  {
    if i == |Registrations(env.registry, key)| then Step(Ok(acc), s)
    else
      var one := GetInstance(env, key, i, R, s, fuel);
      match one.result
      case Err(e) => Step(Err(e), one.st)
      case Ok(v) =>
        var rest := CollectFrom(env, key, i + 1, acc + [v], R, one.st, fuel);
        assert rest.result.Ok? ==> rest.result.value[..|acc|] == (acc + [v])[..|acc|];
        rest
  }

  /** `_get_instance_from_registration`: instance bindings verbatim, then the lifestyle's cache. */
  function GetInstance(env: Env, key: Key, i: nat, R: set<TypeId>, s: St, fuel: nat): (out: Out<Value>)
    requires i < |Registrations(env.registry, key)|
    ensures Advances(env, s, out)
    decreases fuel + 1, 6
  {
    var reg := Registrations(env.registry, key)[i];
    var ck := CacheKey(key, i);
    if reg.Instance? then Step(Ok(reg.instance), s)
    else match reg.lifestyle
      case Singleton =>
        if ck in s.singletons then Step(Ok(s.singletons[ck]), s)
        else
          var made := CreateFromRegistration(env, reg, R, s, fuel);
          if made.result.Err? then made
          else Step(made.result, made.st.(singletons := made.st.singletons[ck := made.result.value]))
      case Scoped =>
        if ck in s.scoped then Step(Ok(s.scoped[ck]), s)
        else
          var made := CreateFromRegistration(env, reg, R, s, fuel);
          if made.result.Err? then made
          else Step(made.result, made.st.(scoped := made.st.scoped[ck := made.result.value]))
      case Transient =>
        CreateFromRegistration(env, reg, R, s, fuel)
  }

  /** `_create_instance_from_registration`: construct a service, or invoke a factory. */
  function CreateFromRegistration(env: Env, reg: Registration, R: set<TypeId>, s: St, fuel: nat): (out: Out<Value>)
    requires !reg.Instance?
    ensures Advances(env, s, out)
    ensures out.result.Ok? ==> FreshIn(out.result.value, s, out.st) && Delivers(reg, out.result.value, out.st.objects)
    decreases fuel + 1, 5
  {
    match reg
    case Service(cls, _) => CreateInstance(env, cls, R, s, fuel)
    case Factory(f, _) => InvokeFactory(env, f, R, s, fuel)
  }

  /** `cls(*args)` / `factory(*args)` on the state's object store. */
  function Run(owner: Owner, raises: Option<nat>, args: seq<Value>, s: St): (out: Out<Value>)
    ensures out.st.singletons == s.singletons && out.st.scoped == s.scoped
  {
    var made := Construct(owner, raises, args, s.objects);
    Step(made.result, s.(objects := made.st))
  }

  /**
   * `except ServiceNotRegisteredException` around a parameter's resolution:
   * only that error is recovered, by the declared default if there is one,
   * else by None for an optional parameter; everything else passes unchanged.
   */
  function Recover(p: Param, r: Result<Value>): (r': Result<Value>)
    ensures r'.Err? ==> r' == r
    ensures r' != r ==> r.Err? && r.error.NotRegistered? && (p.default.Some? || IsOptional(p))
    ensures r' != r ==> r' == Ok(Fallback(p))
    ensures r.Err? && r.error.NotRegistered? && (p.default.Some? || IsOptional(p)) ==> r'.Ok?
  {
    if r.Err? && r.error.NotRegistered? then
      if p.default.Some? || IsOptional(p) then Ok(Fallback(p)) else r
    else r
  }

  /** What a parameter receives when its type is not registered: its default, else None. */
  function Fallback(p: Param): Value
  {
    if p.default.Some? then p.default.value else NoneValue
  }

  predicate IsOptional(p: Param)
  {
    p.annotation.Annotated? && p.annotation.optional
  }

  /** `_invoke_factory`: resolve the factory's parameters, then call it. */
  function InvokeFactory(env: Env, f: FactoryId, R: set<TypeId>, s: St, fuel: nat): (out: Out<Value>)
    ensures Advances(env, s, out)
    ensures out.result.Ok? ==> FreshIn(out.result.value, s, out.st)
    ensures out.result.Ok? ==> out.st.objects[out.result.value.id].origin == OfFactory(f)
    decreases fuel + 1, 4
  {
    var info := FactoryOf(env, f);
    var args := FactoryArgsFrom(env, f, info.params, 0, [], R, s, fuel);
    match args.result
    case Err(e) => Step(Err(e), args.st)
    case Ok(xs) => Run(OfFactory(f), info.raises, xs, args.st)
  }

  /** The parameter loop of `_invoke_factory` from parameter `i` on. */
  function FactoryArgsFrom(env: Env, f: FactoryId, params: seq<Param>, i: nat, acc: seq<Value>, R: set<TypeId>, s: St, fuel: nat)
    : (out: Out<seq<Value>>)
    requires i <= |params|
    ensures Advances(env, s, out)
    ensures out.result.Ok? ==> |out.result.value| == |acc| + |params| - i && out.result.value[..|acc|] == acc
    decreases fuel + 1, 3, |params| - i
  {
    if i == |params| then Step(Ok(acc), s)
    else
      var p := params[i];
      match p.annotation
      case Unannotated =>
        if p.name == "container" then
          var rest := FactoryArgsFrom(env, f, params, i + 1, acc + [ContainerRef], R, s, fuel);
          assert rest.result.Ok? ==> rest.result.value[..|acc| + 1] == acc + [ContainerRef];
          rest
        else Step(Err(MissingTypeAnnotation(p.name, OfFactory(f))), s)
      case Annotated(t, _) =>
        var dep := ScopeResolve(env, Unnamed(t), R, s, fuel);
        match Recover(p, dep.result)
        case Err(e) => Step(Err(e), dep.st)
        case Ok(v) =>
          var rest := FactoryArgsFrom(env, f, params, i + 1, acc + [v], R, dep.st, fuel);
          assert rest.result.Ok? ==> rest.result.value[..|acc| + 1] == acc + [v];
          rest
  }

  /** `_create_instance`: the cycle check, then the body run with `cls` in the resolving set. */
  function CreateInstance(env: Env, cls: TypeId, R: set<TypeId>, s: St, fuel: nat): (out: Out<Value>)
    ensures Advances(env, s, out)
    ensures out.result.Ok? ==> FreshIn(out.result.value, s, out.st)
    ensures out.result.Ok? ==> out.st.objects[out.result.value.id].origin == OfType(cls)
    ensures cls in R ==> out == Step(Err(CyclicDependency(cls)), s)
    decreases fuel + 1, 4
  {
    if cls in R then Step(Err(CyclicDependency(cls)), s)
    else BuildInstance(env, cls, R + {cls}, s, fuel)
  }

  /** The `try` body of `_create_instance`: arguments, `cls(*args)`, property injection. */
  function BuildInstance(env: Env, cls: TypeId, R: set<TypeId>, s: St, fuel: nat): (out: Out<Value>)
    ensures Advances(env, s, out)
    ensures out.result.Ok? ==> FreshIn(out.result.value, s, out.st)
    ensures out.result.Ok? ==> out.st.objects[out.result.value.id].origin == OfType(cls)
    decreases fuel + 1, 3
  {
    var info := TypeOf(env, cls);
    var args := match info.ctor
                case None => Step(Ok([]), s)
                case Some(params) => CtorArgsFrom(env, cls, params, 0, [], R, s, fuel);
    match args.result
    case Err(e) => Step(Err(e), args.st)
    case Ok(xs) =>
      var made := Run(OfType(cls), info.raises, xs, args.st);
      match made.result
      case Err(e) => Step(Err(e), made.st)
      case Ok(v) =>
        var injected := InjectFrom(env, v.id, info.members, 0, R, made.st, fuel);
        NewObjectKeepsCache(env, args.st, made.st);
        InjectionGrows(s, args.st, made.st, injected.st, v.id);
        match injected.result
        case Err(e) => Step(Err(e), injected.st)
        case Ok(_) => Step(Ok(v), injected.st)
  }

  /** The parameter loop of `_create_instance` from parameter `i` on. */
  function CtorArgsFrom(env: Env, cls: TypeId, params: seq<Param>, i: nat, acc: seq<Value>, R: set<TypeId>, s: St, fuel: nat)
    : (out: Out<seq<Value>>)
    requires i <= |params|
    ensures Advances(env, s, out)
    ensures out.result.Ok? ==> |out.result.value| == |acc| + |params| - i && out.result.value[..|acc|] == acc
    ensures out.result.Ok? ==> forall j :: i <= j < |params| ==> params[j].annotation.Annotated?
    decreases fuel + 1, 2, |params| - i
  {
    if i == |params| then Step(Ok(acc), s)
    else
      var p := params[i];
      match p.annotation
      case Unannotated => Step(Err(MissingTypeAnnotation(p.name, OfType(cls))), s)
      case Annotated(t, _) =>
        if t in R then Step(Err(CyclicDependency(t)), s)
        else
          var dep := ScopeResolve(env, Unnamed(t), R, s, fuel);
          match Recover(p, dep.result)
          case Err(e) => Step(Err(e), dep.st)
          case Ok(v) =>
            var rest := CtorArgsFrom(env, cls, params, i + 1, acc + [v], R, dep.st, fuel);
            assert rest.result.Ok? ==> rest.result.value[..|acc| + 1] == acc + [v];
            rest
  }

  /** Like Grows, except that object `obj` may have gained fields. */
  ghost predicate GrowsBeside(s: St, s': St, obj: nat)
  {
    && obj < |s.objects| <= |s'.objects|
    && (forall j :: 0 <= j < |s.objects| && j != obj ==> s'.objects[j] == s.objects[j])
    && s'.objects[obj].origin == s.objects[obj].origin
    && s'.objects[obj].args == s.objects[obj].args
    && s.objects[obj].fields.Keys <= s'.objects[obj].fields.Keys
    && Extends(s.singletons, s'.singletons)
    && Extends(s.scoped, s'.scoped)
  }

  /** `_inject_properties` on object `obj` from member `i` on. */
  function InjectFrom(env: Env, obj: nat, members: seq<Member>, i: nat, R: set<TypeId>, s: St, fuel: nat): (out: Out<()>)
    requires obj < |s.objects| && i <= |members|
    ensures GrowsBeside(s, out.st, obj) && (CacheWF(env, s) ==> CacheWF(env, out.st)) && NamesUnregistered(env, out.result)
    ensures out.result.Ok? ==> forall j :: i <= j < |members| && Injects(members[j]) ==>
              members[j].name in out.st.objects[obj].fields
    decreases fuel + 1, 2, |members| - i
  {
    if i == |members| then Step(Ok(()), s)
    else
      var m := members[i];
      if m.preset || m.returnType.None? then InjectFrom(env, obj, members, i + 1, R, s, fuel)
      else if m.returnType.value in R then Step(Err(CyclicDependency(m.returnType.value)), s)
      else
        var dep := ScopeResolve(env, Unnamed(m.returnType.value), R, s, fuel);
        match dep.result
        case Err(e) => Step(Err(e), dep.st)
        case Ok(v) =>
          var s' := dep.st.(objects := SetField(dep.st.objects, obj, m.name, v));
          FieldWriteKeepsCache(env, dep.st, obj, m.name, v);
          var rest := InjectFrom(env, obj, members, i + 1, R, s', fuel);
          GrowsBesideAfter(s, dep.st, s', rest.st, obj);
          rest
  }

  /** Setting a field of one object changes nothing else and keeps every cache entry well formed. */
  lemma FieldWriteKeepsCache(env: Env, s: St, obj: nat, name: string, v: Value)
    requires obj < |s.objects|
    ensures var s' := s.(objects := SetField(s.objects, obj, name, v));
            && GrowsBeside(s, s', obj) && name in s'.objects[obj].fields
            && (CacheWF(env, s) ==> CacheWF(env, s'))
  {
    var s' := s.(objects := SetField(s.objects, obj, name, v));
    if CacheWF(env, s) {
      forall ck | ck in s'.singletons
        ensures CachedAs(env, ck, Singleton, s'.singletons[ck], s'.objects)
      {
        assert CachedAs(env, ck, Singleton, s.singletons[ck], s.objects);
      }
      forall ck | ck in s'.scoped
        ensures CachedAs(env, ck, Scoped, s'.scoped[ck], s'.objects)
      {
        assert CachedAs(env, ck, Scoped, s.scoped[ck], s.objects);
      }
    }
  }

  /** A resolution, a field write on `obj`, then further injection into `obj`, together only grow the state beside `obj`. */
  lemma GrowsBesideAfter(s0: St, s1: St, s2: St, s3: St, obj: nat)
    requires obj < |s0.objects| && Grows(s0, s1)
    requires GrowsBeside(s1, s2, obj) && GrowsBeside(s2, s3, obj)
    ensures GrowsBeside(s0, s3, obj)
  {
    assert s1.objects[obj] == s0.objects[obj];
  }

  /** Appending an object keeps every cache entry well formed. */
  lemma NewObjectKeepsCache(env: Env, s: St, s': St)
    requires s'.singletons == s.singletons && s'.scoped == s.scoped && s.objects <= s'.objects
    ensures Grows(s, s')
    ensures CacheWF(env, s) ==> CacheWF(env, s')
  {
    if CacheWF(env, s) {
      forall ck | ck in s'.singletons
        ensures CachedAs(env, ck, Singleton, s'.singletons[ck], s'.objects)
      {
        assert CachedAs(env, ck, Singleton, s.singletons[ck], s.objects);
      }
      forall ck | ck in s'.scoped
        ensures CachedAs(env, ck, Scoped, s'.scoped[ck], s'.objects)
      {
        assert CachedAs(env, ck, Scoped, s.scoped[ck], s.objects);
      }
    }
  }

  /**
   * Injecting into the object just built, at or beyond the end of the store
   * `s0` began with, leaves `s0`'s objects untouched.
   */
  lemma InjectionGrows(s0: St, s1: St, s2: St, s3: St, obj: nat)
    requires Grows(s0, s1) && Grows(s1, s2) && |s1.objects| <= obj
    requires GrowsBeside(s2, s3, obj)
    ensures Grows(s0, s3)
  {
    assert s0.objects <= s1.objects <= s2.objects;
    forall j | 0 <= j < |s0.objects|
      ensures s3.objects[j] == s0.objects[j]
    {
      assert s2.objects[j] == s1.objects[j] == s0.objects[j];
    }
  }
}
