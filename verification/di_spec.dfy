/**
 * The single-binding engine (`di`) as state-passing functions: one function
 * per method of the Python `Container` and `Scope`, and one per `for` loop.
 *
 * Every resolution function takes the environment `env` (the service and
 * factory tables and the descriptor tables, which resolution never changes),
 * the resolving set `R` in force when the Python method is entered, and the
 * state `s` (the singleton cache, the active scope's cache and the object
 * store), and returns the outcome together with the new state.
 *
 * No fuel is needed: every nested `_create_instance` adds a registered
 * implementation to the resolving set, and factories are called with the
 * container alone, so the number of registered implementations outside the
 * set bounds the nesting.
 */
module DiModel {
  import opened Common

  /** A `_services` entry: `{"implementation": ..., "lifestyle": ...}`. */
  datatype Service = Service(implementation: TypeId, lifestyle: Lifestyle)

  /** A `_factories` entry: `{"factory": ..., "lifestyle": ...}`. */
  datatype FactoryEntry = FactoryEntry(factory: FactoryId, lifestyle: Lifestyle)

  /** What resolution reads but never changes. */
  datatype Env = Env(
    services: map<Key, Service>,
    factories: map<Key, FactoryEntry>,
    types: map<TypeId, TypeInfo>,
    callables: map<FactoryId, FactoryInfo>)

  /** `_singletons`, the active scope's `_scoped_instances`, and the objects built so far. */
  datatype St = St(singletons: map<Key, Value>, scoped: map<Key, Value>, objects: seq<Obj>)

  type Out<T> = Step<T, St>

  /**
   * What `register` stores, or what it raises: an unknown lifestyle is
   * refused, and a missing implementation means the interface itself.
   */
  function ServiceEntry(interface: TypeId, implementation: Option<TypeId>, lifestyle: string): (r: Result<Service>)
    ensures r.Err? <==> ParseLifestyle(lifestyle).None?
    ensures r.Err? ==> r.error == InvalidLifestyle(lifestyle)
    ensures r.Ok? ==> LifestyleName(r.value.lifestyle) == lifestyle
    ensures r.Ok? ==> r.value.implementation == if implementation.Some? then implementation.value else interface
  {
    match ParseLifestyle(lifestyle)
    case None => Err(InvalidLifestyle(lifestyle))
    case Some(l) => Ok(Service(if implementation.Some? then implementation.value else interface, l))
  }

  /**
   * What `register_factory` stores, or what it raises: a non-callable is
   * refused first, then an unknown lifestyle.
   */
  function FactoryEntryFor(factory: Value, lifestyle: string): (r: Result<FactoryEntry>)
    ensures r.Ok? <==> factory.Callable? && ParseLifestyle(lifestyle).Some?
    ensures !factory.Callable? ==> r == Err(FactoryNotCallable)
    ensures factory.Callable? && ParseLifestyle(lifestyle).None? ==> r == Err(InvalidLifestyle(lifestyle))
    ensures r.Ok? ==> factory.Callable? && r.value.factory == factory.f && LifestyleName(r.value.lifestyle) == lifestyle
  {
    if !factory.Callable? then Err(FactoryNotCallable)
    else match ParseLifestyle(lifestyle)
      case None => Err(InvalidLifestyle(lifestyle))
      case Some(l) => Ok(FactoryEntry(factory.f, l))
  }

  function TypeOf(env: Env, cls: TypeId): TypeInfo
  {
    if cls in env.types then env.types[cls] else PlainType
  }

  function CallableOf(env: Env, f: FactoryId): FactoryInfo
  {
    if f in env.callables then env.callables[f] else PlainFactory
  }

  /** The implementations `_create_instance` can be asked to build: every registered service's. */
  function Classes(env: Env): set<TypeId>
  {
    set k | k in env.services :: env.services[k].implementation
  }

  /** The lifestyle lookup uses for `key`: the service entry's, else the factory entry's. */
  function ActiveLifestyle(env: Env, key: Key): Option<Lifestyle>
  {
    if key in env.services then Some(env.services[key].lifestyle)
    else if key in env.factories then Some(env.factories[key].lifestyle)
    else None
  }

  /** `Container.resolve` starts from a new, empty scope. */
  function InFreshScope(s: St): St { s.(scoped := map[]) }

  /** Objects are only ever added, and cache entries are never replaced or evicted. */
  ghost predicate Grows(s: St, s': St)
  {
    && s.objects <= s'.objects
    && Extends(s.singletons, s'.singletons)
    && Extends(s.scoped, s'.scoped)
  }

  /** Resolution caches a key only under the lifestyle its registration names. */
  ghost predicate StoresByLifestyle(env: Env, s: St, s': St)
  {
    && (forall k :: k in s'.singletons && k !in s.singletons ==> ActiveLifestyle(env, k) == Some(Singleton))
    && (forall k :: k in s'.scoped && k !in s.scoped ==> ActiveLifestyle(env, k) == Some(Scoped))
  }

  /** `ServiceNotRegisteredException` is only raised for a key with neither a service nor a factory. */
  ghost predicate NamesUnregistered<T>(env: Env, r: Result<T>)
  {
    r.Err? && r.error.NotRegistered? ==> r.error.key !in env.services && r.error.key !in env.factories
  }

  /** What every resolution step guarantees about the state it leaves and the error it raises. */
  ghost predicate Advances<T>(env: Env, s: St, out: Out<T>)
  {
    Grows(s, out.st) && StoresByLifestyle(env, s, out.st) && NamesUnregistered(env, out.result)
  }

  /** `v` is an object built during the step from `s` to `s'`. */
  ghost predicate FreshIn(v: Value, s: St, s': St)
  {
    v.Ref? && |s.objects| <= v.id < |s'.objects|
  }

  /** `cls(*args)` / `factory(self)` on the state's object store. */
  function Run(owner: Owner, raises: Option<nat>, args: seq<Value>, s: St): (out: Out<Value>)
    ensures out.st.singletons == s.singletons && out.st.scoped == s.scoped
  {
    var made := Construct(owner, raises, args, s.objects);
    Step(made.result, s.(objects := made.st))
  }

  /**
   * `Container.resolve`: the singleton cache first, even for a key registered
   * again since; a key with neither a service nor a factory is refused;
   * anything else is resolved in a new scope.
   */
  function Resolve(env: Env, key: Key, R: set<TypeId>, s: St): (out: Out<Value>)
    ensures s.objects <= out.st.objects && Extends(s.singletons, out.st.singletons)
    ensures forall k :: k in out.st.singletons && k !in s.singletons ==> ActiveLifestyle(env, k) == Some(Singleton)
    ensures out.result == Err(NotRegistered(key)) <==>
              key !in s.singletons && key !in env.services && key !in env.factories
    ensures NamesUnregistered(env, out.result)
  {
    if key in s.singletons then Step(Ok(s.singletons[key]), s)
    else if key in env.services || key in env.factories then ResolveInScope(env, key, R, InFreshScope(s))
    else Step(Err(NotRegistered(key)), s)
  }

  /** `Scope.resolve`: the scope's cache, then `_resolve_in_scope`. */
  function ScopeResolve(env: Env, key: Key, R: set<TypeId>, s: St): (out: Out<Value>)
    ensures Advances(env, s, out)
    decreases |Classes(env) - R|, 4
  {
    if key in s.scoped then Step(Ok(s.scoped[key]), s)
    else ResolveInScope(env, key, R, s)
  }

  /**
   * `_resolve_in_scope`: the singleton cache, the scope's cache, the service
   * entry, the factory entry called with the container, in that order; what
   * is built is then cached according to the entry's lifestyle.
   */
  function ResolveInScope(env: Env, key: Key, R: set<TypeId>, s: St): (out: Out<Value>)
    ensures Advances(env, s, out)
    ensures out.result.Ok? && key !in s.singletons && key !in s.scoped ==> FreshIn(out.result.value, s, out.st)
    decreases |Classes(env) - R|, 3
  {
    if key in s.singletons then Step(Ok(s.singletons[key]), s)
    else if key in s.scoped then Step(Ok(s.scoped[key]), s)
    else if key in env.services then
      var service := env.services[key];
      Remember(key, service.lifestyle, CreateInstance(env, service.implementation, R, s))
    else if key in env.factories then
      var entry := env.factories[key];
      Remember(key, entry.lifestyle, Run(OfFactory(entry.factory), CallableOf(env, entry.factory).raises, [ContainerRef], s))
    else Step(Err(NotRegistered(key)), s)
  }

  /** The tail of `_resolve_in_scope`: a built instance is cached by lifestyle, a failure passes. */
  function Remember(key: Key, lifestyle: Lifestyle, made: Out<Value>): (out: Out<Value>)
    ensures out.result == made.result && out.st.objects == made.st.objects
    ensures made.result.Err? ==> out == made
    ensures made.result.Ok? && lifestyle == Singleton ==>
              out.st == made.st.(singletons := made.st.singletons[key := made.result.value])
    ensures made.result.Ok? && lifestyle == Scoped ==>
              out.st == made.st.(scoped := made.st.scoped[key := made.result.value])
    ensures lifestyle == Transient ==> out == made
  {
    if made.result.Err? then made
    else match lifestyle
      case Singleton => Step(made.result, made.st.(singletons := made.st.singletons[key := made.result.value]))
      case Scoped => Step(made.result, made.st.(scoped := made.st.scoped[key := made.result.value]))
      case Transient => made
  }

  /** `_create_instance`: the cycle check, then the body run with `cls` in the resolving set. */
  function CreateInstance(env: Env, cls: TypeId, R: set<TypeId>, s: St): (out: Out<Value>)
    ensures Advances(env, s, out)
    ensures out.result.Ok? ==> FreshIn(out.result.value, s, out.st) && out.st.objects[out.result.value.id].origin == OfType(cls)
    ensures cls in R ==> out == Step(Err(CyclicDependency(cls)), s)
    decreases |Classes(env) - R| + (if cls in Classes(env) then 0 else 1), 2
  {
    if cls in R then Step(Err(CyclicDependency(cls)), s)
    else
      AddShrinks(Classes(env), R, cls);
      BuildInstance(env, cls, R + {cls}, s)
  }

  /** The `try` body of `_create_instance`: arguments, `cls(*args)`, property injection. */
  function BuildInstance(env: Env, cls: TypeId, R: set<TypeId>, s: St): (out: Out<Value>)
    ensures Advances(env, s, out)
    ensures out.result.Ok? ==> FreshIn(out.result.value, s, out.st) && out.st.objects[out.result.value.id].origin == OfType(cls)
    decreases |Classes(env) - R| + 1, 1
  {
    var info := TypeOf(env, cls);
    var args := match info.ctor
                case None => Step(Ok([]), s)
                case Some(params) => ArgsFrom(env, cls, params, 0, [], R, s);
    match args.result
    case Err(e) => Step(Err(e), args.st)
    case Ok(xs) =>
      var made := Run(OfType(cls), info.raises, xs, args.st);
      match made.result
      case Err(e) => Step(Err(e), made.st)
      case Ok(v) =>
        var injected := InjectFrom(env, v.id, info.members, 0, R, made.st);
        InjectionGrows(s, args.st, made.st, injected.st, v.id);
        match injected.result
        case Err(e) => Step(Err(e), injected.st)
        case Ok(_) => Step(Ok(v), injected.st)
  }

  /**
   * `except ServiceNotRegisteredException` around a constructor parameter's
   * resolution: None for an optional parameter, re-raised otherwise; a
   * declared default is never used.
   */
  function RecoverOptional(p: Param, r: Result<Value>): (r': Result<Value>)
    ensures r'.Err? ==> r' == r
    ensures r' != r <==> r.Err? && r.error.NotRegistered? && p.annotation.Annotated? && p.annotation.optional
    ensures r' != r ==> r' == Ok(NoneValue)
  {
    if r.Err? && r.error.NotRegistered? && p.annotation.Annotated? && p.annotation.optional then Ok(NoneValue)
    else r
  }

  /** The parameter loop of `_create_instance` from parameter `i` on. */
  function ArgsFrom(env: Env, cls: TypeId, params: seq<Param>, i: nat, acc: seq<Value>, R: set<TypeId>, s: St)
    : (out: Out<seq<Value>>)
    requires i <= |params|
    ensures Advances(env, s, out)
    ensures out.result.Ok? ==> |out.result.value| == |acc| + |params| - i && out.result.value[..|acc|] == acc
    ensures out.result.Ok? ==> forall j :: i <= j < |params| ==> params[j].annotation.Annotated?
    decreases |Classes(env) - R| + 1, 0, |params| - i
  {
    if i == |params| then Step(Ok(acc), s)
    else
      var p := params[i];
      match p.annotation
      case Unannotated => Step(Err(MissingTypeAnnotation(p.name, OfType(cls))), s)
      case Annotated(t, _) =>
        var dep := ScopeResolve(env, Unnamed(t), R, s);
        match RecoverOptional(p, dep.result)
        case Err(e) => Step(Err(e), dep.st)
        case Ok(v) =>
          var rest := ArgsFrom(env, cls, params, i + 1, acc + [v], R, dep.st);
          assert rest.result.Ok? ==> rest.result.value[..|acc| + 1] == acc + [v];
          rest
  }

  /** Like Grows, except that object `obj` may have gained fields. */
  ghost predicate GrowsBeside(s: St, s': St, obj: nat)
  {
    && obj < |s.objects| <= |s'.objects|
    && (forall j :: 0 <= j < |s.objects| && j != obj ==> s'.objects[j] == s.objects[j])
    && s'.objects[obj].origin == s.objects[obj].origin
    && s'.objects[obj].args == s.objects[obj].args
    && s.objects[obj].fields.Keys <= s'.objects[obj].fields.Keys
    && Extends(s.singletons, s'.singletons)
    && Extends(s.scoped, s'.scoped)
  }

  /**
   * `_inject_properties` on object `obj` from member `i` on. A member the
   * constructor assigned shadows the marked method, so `getattr` finds no
   * marker and it is skipped.
   */
  function InjectFrom(env: Env, obj: nat, members: seq<Member>, i: nat, R: set<TypeId>, s: St): (out: Out<()>)
    requires obj < |s.objects| && i <= |members|
    ensures GrowsBeside(s, out.st, obj) && StoresByLifestyle(env, s, out.st) && NamesUnregistered(env, out.result)
    ensures out.result.Ok? ==> forall j :: i <= j < |members| && Injects(members[j]) ==>
              members[j].name in out.st.objects[obj].fields
    decreases |Classes(env) - R| + 1, 0, |members| - i
  {
    if i == |members| then Step(Ok(()), s)
    else
      var m := members[i];
      if m.preset || m.returnType.None? then InjectFrom(env, obj, members, i + 1, R, s)
      else
        var dep := ScopeResolve(env, Unnamed(m.returnType.value), R, s);
        match dep.result
        case Err(e) => Step(Err(e), dep.st)
        case Ok(v) =>
          var s' := dep.st.(objects := SetField(dep.st.objects, obj, m.name, v));
          InjectFrom(env, obj, members, i + 1, R, s')
  }

  /**
   * Injecting into the object just built, at or beyond the end of the store
   * `s0` began with, leaves `s0`'s objects untouched.
   */
  lemma InjectionGrows(s0: St, s1: St, s2: St, s3: St, obj: nat)
    requires Grows(s0, s1) && s1.objects <= s2.objects && |s1.objects| <= obj
    requires s2.singletons == s1.singletons && s2.scoped == s1.scoped
    requires GrowsBeside(s2, s3, obj)
    ensures Grows(s0, s3)
  {
    forall j | 0 <= j < |s0.objects|
      ensures s3.objects[j] == s0.objects[j]
    {
      assert s2.objects[j] == s1.objects[j] == s0.objects[j];
    }
  }
}
