/**
 * What the single-binding engine promises, proved about `DiModel`: the
 * lookup priority, lifestyle caching and identity, cycle detection through
 * constructors and through property injection, and parameter handling.
 */
module DiProperties {
  import opened Common
  import opened DiModel

  /** Nothing is cached under `key` in `s`, so resolving it consults the registrations. */
  ghost predicate Uncached(key: Key, s: St)
  {
    key !in s.singletons && key !in s.scoped
  }

  /**
   * A value in the singleton cache wins over everything, even over a service
   * or factory registered for the key afterwards; so a value written by
   * `add_instance` shadows any registration.
   */
  lemma SingletonCacheFirst(env: Env, key: Key, R: set<TypeId>, s: St)
    requires key in s.singletons
    ensures Resolve(env, key, R, s) == Step(Ok(s.singletons[key]), s)
    ensures ResolveInScope(env, key, R, s) == Step(Ok(s.singletons[key]), s)
  {
  }

  /**
   * The lookup priority of `_resolve_in_scope` for an uncached key: a service
   * entry is built by its implementation, shadowing any factory entry; else
   * a factory entry is called with the container as its only argument; else
   * `ServiceNotRegisteredException`.
   */
  lemma LookupPriority(env: Env, key: Key, R: set<TypeId>, s: St)
    requires Uncached(key, s)
    ensures var out := ResolveInScope(env, key, R, s);
            && (key in env.services && out.result.Ok? ==>
                  out.st.objects[out.result.value.id].origin == OfType(env.services[key].implementation))
            && (key !in env.services && key in env.factories && out.result.Ok? ==>
                  out.st.objects[out.result.value.id] == Obj(OfFactory(env.factories[key].factory), [ContainerRef], map[]))
            && (key !in env.services && key !in env.factories ==> out == Step(Err(NotRegistered(key)), s))
  {
  }

  /**
   * What `_resolve_in_scope` caches after building: a singleton under its
   * key in the singleton cache, a scoped instance in the scope's cache, and
   * a transient one nowhere.
   */
  lemma LifestyleCaching(env: Env, key: Key, R: set<TypeId>, s: St)
    requires Uncached(key, s)
    ensures var out := ResolveInScope(env, key, R, s);
            out.result.Ok? ==>
              && (ActiveLifestyle(env, key) == Some(Singleton) ==>
                    key in out.st.singletons && out.st.singletons[key] == out.result.value)
              && (ActiveLifestyle(env, key) == Some(Scoped) ==>
                    key in out.st.scoped && out.st.scoped[key] == out.result.value)
              && (ActiveLifestyle(env, key) == Some(Transient) ==> Uncached(key, out.st))
  {
    if key in env.services {
      var made := CreateInstance(env, env.services[key].implementation, R, s);
      assert StoresByLifestyle(env, s, made.st);
    }
  }

  /**
   * Singleton identity: once `resolve` has returned `v` for a singleton key,
   * every later `resolve` of it returns `v` without building anything.
   */
  lemma SingletonSameEveryResolve(env: Env, key: Key, R: set<TypeId>, s: St, R2: set<TypeId>, s2: St)
    requires ActiveLifestyle(env, key) == Some(Singleton)
    requires Resolve(env, key, R, s).result.Ok?
    requires Extends(Resolve(env, key, R, s).st.singletons, s2.singletons)
    ensures Resolve(env, key, R2, s2) == Step(Resolve(env, key, R, s).result, s2)
  {
    if key !in s.singletons {
      LifestyleCaching(env, key, R, InFreshScope(s));
    }
  }

  /**
   * Scoped identity: within one scope (its cache only growing), `Scope.resolve`
   * of a scoped key returns the same object every time.
   */
  lemma ScopedSameWithinScope(env: Env, key: Key, R: set<TypeId>, s: St, R2: set<TypeId>, s2: St)
    requires ActiveLifestyle(env, key) == Some(Scoped) && key !in s.singletons
    requires ScopeResolve(env, key, R, s).result.Ok?
    requires Extends(ScopeResolve(env, key, R, s).st.singletons, s2.singletons)
    requires Extends(ScopeResolve(env, key, R, s).st.scoped, s2.scoped)
    ensures ScopeResolve(env, key, R2, s2) == Step(ScopeResolve(env, key, R, s).result, s2)
  {
    if Uncached(key, s) {
      LifestyleCaching(env, key, R, s);
    }
  }

  /** Resolving an uncached key builds a new object, distinct from any built before. */
  lemma {:induction false} UncachedBuildsAfresh(env: Env, key: Key, R: set<TypeId>, s: St, R2: set<TypeId>, s2: St)
    requires Uncached(key, s) && Uncached(key, s2)
    requires ScopeResolve(env, key, R, s).st.objects <= s2.objects
    ensures var first := ScopeResolve(env, key, R, s);
            var second := ScopeResolve(env, key, R2, s2);
            first.result.Ok? && second.result.Ok? ==> first.result.value != second.result.value
  {
    var first := ScopeResolve(env, key, R, s);
    var second := ScopeResolve(env, key, R2, s2);
    assert first == ResolveInScope(env, key, R, s);
    assert second == ResolveInScope(env, key, R2, s2);
  }

  /**
   * Scoped instances differ across scopes: a scoped key resolved in one
   * scope and then in a new scope yields two distinct objects.
   */
  lemma ScopedDistinctAcrossScopes(env: Env, key: Key, R: set<TypeId>, s: St, R2: set<TypeId>, s2: St)
    requires ActiveLifestyle(env, key) == Some(Scoped)
    requires Uncached(key, s)
    requires s2.scoped == map[] && s2.singletons == ScopeResolve(env, key, R, s).st.singletons
    requires ScopeResolve(env, key, R, s).st.objects <= s2.objects
    ensures var first := ScopeResolve(env, key, R, s);
            var second := ScopeResolve(env, key, R2, s2);
            first.result.Ok? && second.result.Ok? ==> first.result.value != second.result.value
  {
    var first := ScopeResolve(env, key, R, s);
    assert first == ResolveInScope(env, key, R, s);
    assert StoresByLifestyle(env, s, first.st);
    UncachedBuildsAfresh(env, key, R, s, R2, s2);
  }

  /** Transient instances differ on every `resolve`, and are never cached. */
  lemma TransientDistinct(env: Env, key: Key, R: set<TypeId>, s: St, R2: set<TypeId>)
    requires ActiveLifestyle(env, key) == Some(Transient)
    requires key !in s.singletons
    ensures var first := Resolve(env, key, R, s);
            var second := Resolve(env, key, R2, first.st);
            && key !in first.st.singletons
            && (first.result.Ok? && second.result.Ok? ==> first.result.value != second.result.value)
  {
    var first := Resolve(env, key, R, s);
    LifestyleCaching(env, key, R, InFreshScope(s));
    UncachedBuildsAfresh(env, key, R, InFreshScope(s), R2, InFreshScope(first.st));
  }

  /** Resolving an uncached service key whose build fails is that failure. */
  lemma ResolveFailingService(env: Env, key: Key, R: set<TypeId>, s: St)
    requires Uncached(key, s) && key in env.services
    requires CreateInstance(env, env.services[key].implementation, R, s).result.Err?
    ensures ScopeResolve(env, key, R, s) == CreateInstance(env, env.services[key].implementation, R, s)
  {
  }

  /**
   * If `x`'s first constructor parameter needs `y`, bound as a service to
   * itself and not cached, then a failure building `y` (with `x` being built)
   * is the failure building `x`, in the state `y`'s build left; unless it is
   * `ServiceNotRegisteredException` and the parameter is optional.
   */
  lemma ConstructorNeeds(env: Env, x: TypeId, y: TypeId, R: set<TypeId>, s: St, e: Error, s3: St)
    requires x !in R
    requires TypeOf(env, x).ctor.Some? && |TypeOf(env, x).ctor.value| > 0
    requires TypeOf(env, x).ctor.value[0].annotation.Annotated? && TypeOf(env, x).ctor.value[0].annotation.dep == y
    requires !(e.NotRegistered? && TypeOf(env, x).ctor.value[0].annotation.optional)
    requires Unnamed(y) in env.services && env.services[Unnamed(y)].implementation == y && Uncached(Unnamed(y), s)
    requires CreateInstance(env, y, R + {x}, s) == Step(Err(e), s3)
    ensures CreateInstance(env, x, R, s) == Step(Err(e), s3)
  {
    var ps := TypeOf(env, x).ctor.value;
    ResolveFailingService(env, Unnamed(y), R + {x}, s);
    assert ArgsFrom(env, x, ps, 0, [], R + {x}, s) == Step(Err(e), s3);
  }

  /**
   * Two classes whose constructors need each other, both registered as
   * services of themselves: resolving the first raises
   * `CyclicDependencyException` for it, and nothing is built or cached.
   */
  lemma TwoHopCycle(env: Env, c: TypeId, d: TypeId, s: St)
    requires c != d
    requires Unnamed(c) in env.services && env.services[Unnamed(c)].implementation == c && Uncached(Unnamed(c), s)
    requires Unnamed(d) in env.services && env.services[Unnamed(d)].implementation == d && Uncached(Unnamed(d), s)
    requires TypeOf(env, c).ctor.Some? && |TypeOf(env, c).ctor.value| > 0
    requires TypeOf(env, c).ctor.value[0].annotation.Annotated? && TypeOf(env, c).ctor.value[0].annotation.dep == d
    requires TypeOf(env, d).ctor.Some? && |TypeOf(env, d).ctor.value| > 0
    requires TypeOf(env, d).ctor.value[0].annotation.Annotated? && TypeOf(env, d).ctor.value[0].annotation.dep == c
    ensures Resolve(env, Unnamed(c), {}, s) == Step(Err(CyclicDependency(c)), InFreshScope(s))
  {
    var s' := InFreshScope(s);
    var err := CyclicDependency(c);
    assert CreateInstance(env, c, {} + {c} + {d}, s') == Step(Err(err), s');
    ConstructorNeeds(env, d, c, {} + {c}, s', err, s');
    ConstructorNeeds(env, c, d, {}, s', err, s');
    ResolveFailingService(env, Unnamed(c), {}, s');
  }

  /**
   * Three classes whose constructors need one another in a ring
   * `a -> b -> c -> a`: resolving `a` raises `CyclicDependencyException`
   * for `a`, and nothing is built or cached.
   */
  lemma ThreeHopCycle(env: Env, a: TypeId, b: TypeId, c: TypeId, s: St)
    requires a != b && b != c && a != c
    requires Unnamed(a) in env.services && env.services[Unnamed(a)].implementation == a && Uncached(Unnamed(a), s)
    requires Unnamed(b) in env.services && env.services[Unnamed(b)].implementation == b && Uncached(Unnamed(b), s)
    requires Unnamed(c) in env.services && env.services[Unnamed(c)].implementation == c && Uncached(Unnamed(c), s)
    requires TypeOf(env, a).ctor.Some? && |TypeOf(env, a).ctor.value| > 0
    requires TypeOf(env, a).ctor.value[0].annotation.Annotated? && TypeOf(env, a).ctor.value[0].annotation.dep == b
    requires TypeOf(env, b).ctor.Some? && |TypeOf(env, b).ctor.value| > 0
    requires TypeOf(env, b).ctor.value[0].annotation.Annotated? && TypeOf(env, b).ctor.value[0].annotation.dep == c
    requires TypeOf(env, c).ctor.Some? && |TypeOf(env, c).ctor.value| > 0
    requires TypeOf(env, c).ctor.value[0].annotation.Annotated? && TypeOf(env, c).ctor.value[0].annotation.dep == a
    ensures Resolve(env, Unnamed(a), {}, s) == Step(Err(CyclicDependency(a)), InFreshScope(s))
  {
    var s' := InFreshScope(s);
    var err := CyclicDependency(a);
    assert CreateInstance(env, a, {} + {a} + {b} + {c}, s') == Step(Err(err), s');
    ConstructorNeeds(env, c, a, {} + {a} + {b}, s', err, s');
    ConstructorNeeds(env, b, c, {} + {a}, s', err, s');
    ConstructorNeeds(env, a, b, {}, s', err, s');
    ResolveFailingService(env, Unnamed(a), {}, s');
  }

  /** The state right after `x()` built a plain instance of `x`. */
  function AfterPlainBuild(x: TypeId, s: St): St
  {
    s.(objects := s.objects + [Obj(OfType(x), [], map[])])
  }

  /**
   * If `x` has a plain constructor and its first injectable member returns
   * `y`, bound as a service to itself and not cached, then a failure
   * building `y` (with `x` being built, after `x()`) is the failure
   * building `x`.
   */
  lemma PropertyNeeds(env: Env, x: TypeId, y: TypeId, R: set<TypeId>, s: St, e: Error, s3: St)
    requires x !in R
    requires TypeOf(env, x).ctor.None? && TypeOf(env, x).raises.None? && |TypeOf(env, x).members| > 0
    requires !TypeOf(env, x).members[0].preset && TypeOf(env, x).members[0].returnType == Some(y)
    requires Unnamed(y) in env.services && env.services[Unnamed(y)].implementation == y && Uncached(Unnamed(y), s)
    requires CreateInstance(env, y, R + {x}, AfterPlainBuild(x, s)) == Step(Err(e), s3)
    ensures CreateInstance(env, x, R, s) == Step(Err(e), s3)
  {
    var s1 := AfterPlainBuild(x, s);
    ResolveFailingService(env, Unnamed(y), R + {x}, s1);
    assert InjectFrom(env, |s.objects|, TypeOf(env, x).members, 0, R + {x}, s1) == Step(Err(e), s3);
  }

  /**
   * Two classes with plain constructors whose injectable members return each
   * other: resolving the first raises `CyclicDependencyException` for it,
   * after both instances were built.
   */
  lemma PropertyInjectionCycle(env: Env, a: TypeId, b: TypeId, s: St)
    requires a != b
    requires Unnamed(a) in env.services && env.services[Unnamed(a)].implementation == a && Uncached(Unnamed(a), s)
    requires Unnamed(b) in env.services && env.services[Unnamed(b)].implementation == b && Uncached(Unnamed(b), s)
    requires TypeOf(env, a).ctor.None? && TypeOf(env, a).raises.None? && |TypeOf(env, a).members| > 0
    requires !TypeOf(env, a).members[0].preset && TypeOf(env, a).members[0].returnType == Some(b)
    requires TypeOf(env, b).ctor.None? && TypeOf(env, b).raises.None? && |TypeOf(env, b).members| > 0
    requires !TypeOf(env, b).members[0].preset && TypeOf(env, b).members[0].returnType == Some(a)
    ensures Resolve(env, Unnamed(a), {}, s).result == Err(CyclicDependency(a))
  {
    var s0 := InFreshScope(s);
    var s1 := AfterPlainBuild(a, s0);
    var s2 := AfterPlainBuild(b, s1);
    var err := CyclicDependency(a);
    assert CreateInstance(env, a, {} + {a} + {b}, s2) == Step(Err(err), s2);
    PropertyNeeds(env, b, a, {} + {a}, s1, err, s2);
    PropertyNeeds(env, a, b, {}, s0, err, s2);
    ResolveFailingService(env, Unnamed(a), {}, s0);
  }

  /**
   * An unannotated constructor parameter raises
   * `MissingTypeAnnotationException` naming the parameter and the class,
   * before anything is resolved or built.
   */
  lemma UnannotatedConstructorParameter(env: Env, cls: TypeId, R: set<TypeId>, s: St)
    requires cls !in R
    requires TypeOf(env, cls).ctor.Some? && |TypeOf(env, cls).ctor.value| > 0
    requires TypeOf(env, cls).ctor.value[0].annotation.Unannotated?
    ensures CreateInstance(env, cls, R, s)
            == Step(Err(MissingTypeAnnotation(TypeOf(env, cls).ctor.value[0].name, OfType(cls))), s)
  {
    var ps := TypeOf(env, cls).ctor.value;
    assert ArgsFrom(env, cls, ps, 0, [], R + {cls}, s)
           == Step(Err(MissingTypeAnnotation(ps[0].name, OfType(cls))), s);
  }

  /**
   * A constructor parameter whose type is neither registered nor cached
   * receives None when it is optional; otherwise the
   * `ServiceNotRegisteredException` for its type propagates, even when the
   * parameter declares a default value.
   */
  lemma UnregisteredConstructorParameter(env: Env, cls: TypeId, params: seq<Param>, R: set<TypeId>, s: St)
    requires |params| > 0 && params[0].annotation.Annotated?
    requires Unnamed(params[0].annotation.dep) !in env.services && Unnamed(params[0].annotation.dep) !in env.factories
    requires Uncached(Unnamed(params[0].annotation.dep), s)
    ensures var out := ArgsFrom(env, cls, params, 0, [], R, s);
            && (!params[0].annotation.optional ==> out == Step(Err(NotRegistered(Unnamed(params[0].annotation.dep))), s))
            && (out.result.Ok? ==> out.result.value[0] == NoneValue)
  {
    var t := params[0].annotation.dep;
    assert ScopeResolve(env, Unnamed(t), R, s) == Step(Err(NotRegistered(Unnamed(t))), s);
    var r := RecoverOptional(params[0], Err(NotRegistered(Unnamed(t))));
    if r.Ok? {
      var rest := ArgsFrom(env, cls, params, 1, [r.value], R, s);
      assert [] + [r.value] == [r.value];
      if rest.result.Ok? {
        assert rest.result.value[..1] == [r.value];
      }
    }
  }

  /**
   * Property injection: a member the constructor already set is skipped,
   * and a member whose return type is neither registered nor cached raises
   * `ServiceNotRegisteredException`, with no optional fallback.
   */
  lemma PropertyInjectionOutcomes(env: Env, obj: nat, members: seq<Member>, i: nat, R: set<TypeId>, s: St)
    requires obj < |s.objects| && i < |members|
    ensures members[i].preset ==>
              InjectFrom(env, obj, members, i, R, s) == InjectFrom(env, obj, members, i + 1, R, s)
    ensures !members[i].preset && members[i].returnType.Some?
            && Unnamed(members[i].returnType.value) !in env.services
            && Unnamed(members[i].returnType.value) !in env.factories
            && Uncached(Unnamed(members[i].returnType.value), s) ==>
              InjectFrom(env, obj, members, i, R, s) == Step(Err(NotRegistered(Unnamed(members[i].returnType.value))), s)
  {
    if !members[i].preset && members[i].returnType.Some? {
      var key := Unnamed(members[i].returnType.value);
      if key !in env.services && key !in env.factories && Uncached(key, s) {
        assert ScopeResolve(env, key, R, s) == Step(Err(NotRegistered(key)), s);
      }
    }
  }
}
