/**
 * What the multi-binding engine promises, proved about `InjexModel`:
 * resolve versus resolve_all, lifestyle identity, cycle detection, parameter
 * fallback, property-injection errors, and registration keeping the caches
 * meaningful.
 */
module InjexProperties {
  import opened Common
  import opened InjexModel

  /**
   * `v` is what the `j`-th registration under `key` yields in state `s`:
   * what the registration delivers, and, for a cached lifestyle, the value
   * its cache holds.
   */
  ghost predicate Yields(env: Env, key: Key, j: nat, v: Value, s: St)
    requires j < |Registrations(env.registry, key)|
  {
    var reg := Registrations(env.registry, key)[j];
    var ck := CacheKey(key, j);
    && Delivers(reg, v, s.objects)
    && (!reg.Instance? && reg.lifestyle == Singleton ==> ck in s.singletons && s.singletons[ck] == v)
    && (!reg.Instance? && reg.lifestyle == Scoped ==> ck in s.scoped && s.scoped[ck] == v)
  }

  /** Nothing is cached for the registration yet, so resolving it must build. */
  ghost predicate Uncached(reg: Registration, ck: CacheKey, s: St)
  {
    && !reg.Instance?
    && (reg.lifestyle == Singleton ==> ck !in s.singletons)
    && (reg.lifestyle == Scoped ==> ck !in s.scoped)
  }

  lemma YieldsGrows(env: Env, key: Key, j: nat, v: Value, s: St, s': St)
    requires j < |Registrations(env.registry, key)|
    requires Yields(env, key, j, v, s) && Grows(s, s')
    ensures Yields(env, key, j, v, s')
  {
    if v.Ref? && v.id < |s.objects| {
      assert s'.objects[v.id] == s.objects[v.id];
    }
  }

  /** `_get_instance_from_registration` yields what the registration stands for, and caches it by lifestyle. */
  lemma GetInstanceYields(env: Env, key: Key, i: nat, R: set<TypeId>, s: St, fuel: nat)
    requires i < |Registrations(env.registry, key)|
    requires CacheWF(env, s)
    ensures var out := GetInstance(env, key, i, R, s, fuel);
            out.result.Ok? ==> Yields(env, key, i, out.result.value, out.st)
  {
    var reg := Registrations(env.registry, key)[i];
    var ck := CacheKey(key, i);
    if !reg.Instance? {
      if reg.lifestyle == Singleton && ck in s.singletons {
        assert CachedAs(env, ck, Singleton, s.singletons[ck], s.objects);
      } else if reg.lifestyle == Scoped && ck in s.scoped {
        assert CachedAs(env, ck, Scoped, s.scoped[ck], s.objects);
      }
    }
  }

  /** An instance binding is handed out verbatim, and no cache is touched. */
  lemma InstanceVerbatim(env: Env, key: Key, i: nat, R: set<TypeId>, s: St, fuel: nat)
    requires i < |Registrations(env.registry, key)|
    requires Registrations(env.registry, key)[i].Instance?
    ensures GetInstance(env, key, i, R, s, fuel) == Step(Ok(Registrations(env.registry, key)[i].instance), s)
  {
  }

  /** An uncached registration is built afresh: the value is a new object. */
  lemma UncachedIsFresh(env: Env, key: Key, i: nat, R: set<TypeId>, s: St, fuel: nat)
    requires i < |Registrations(env.registry, key)|
    requires Uncached(Registrations(env.registry, key)[i], CacheKey(key, i), s)
    ensures var out := GetInstance(env, key, i, R, s, fuel);
            out.result.Ok? ==> FreshIn(out.result.value, s, out.st)
  {
  }

  /** What holds from position `b = a + 1` on, and at position `a`, holds from `a` on. */
  lemma YieldsShifted(env: Env, key: Key, i: nat, a: nat, b: nat, xs: seq<Value>, s: St)
    requires b == a + 1 && a < |xs| && i + (|xs| - a) <= |Registrations(env.registry, key)|
    requires Yields(env, key, i, xs[a], s)
    requires forall k :: b <= k < |xs| ==> Yields(env, key, k - b + (i + 1), xs[k], s)
    ensures forall k :: a <= k < |xs| ==> Yields(env, key, k - a + i, xs[k], s)
  {
    forall k | a <= k < |xs|
      ensures Yields(env, key, k - a + i, xs[k], s)
    {
      if k > a {
        assert k - b + (i + 1) == k - a + i;
      }
    }
  }

  /** The loop of `_resolve_in_scope`: the `j`-th instance is what the `j`-th registration yields. */
  lemma {:induction false} CollectFromYields(env: Env, key: Key, i: nat, acc: seq<Value>, R: set<TypeId>, s: St, fuel: nat)
    requires i <= |Registrations(env.registry, key)|
    requires CacheWF(env, s)
    ensures var out := CollectFrom(env, key, i, acc, R, s, fuel);
            out.result.Ok? ==> forall k :: |acc| <= k < |out.result.value| ==>
              Yields(env, key, k - |acc| + i, out.result.value[k], out.st)
    decreases |Registrations(env.registry, key)| - i
  {
    var n := |Registrations(env.registry, key)|;
    if i == n {
      assert CollectFrom(env, key, i, acc, R, s, fuel) == Step(Ok(acc), s);
    } else {
      var one := GetInstance(env, key, i, R, s, fuel);
      if one.result.Err? {
        assert CollectFrom(env, key, i, acc, R, s, fuel) == Step(Err(one.result.error), one.st);
      } else {
        var v := one.result.value;
        GetInstanceYields(env, key, i, R, s, fuel);
        var rest := CollectFrom(env, key, i + 1, acc + [v], R, one.st, fuel);
        assert CollectFrom(env, key, i, acc, R, s, fuel) == rest;
        CollectFromYields(env, key, i + 1, acc + [v], R, one.st, fuel);
        if rest.result.Ok? {
          var xs := rest.result.value;
          assert xs[..|acc| + 1] == acc + [v];
          assert xs[|acc|] == (acc + [v])[|acc|];
          YieldsGrows(env, key, i, v, one.st, rest.st);
          YieldsShifted(env, key, i, |acc|, |acc + [v]|, xs, rest.st);
        }
      }
    }
  }

  /**
   * `resolve_all` returns one instance per registration under the key, in
   * registration order: the bound value of an instance binding, an object
   * built by the registration's class or factory otherwise; and it leaves
   * every singleton and scoped registration under the key cached. An
   * unregistered key yields `[]`.
   */
  lemma ResolveAllPerRegistration(env: Env, key: Key, R: set<TypeId>, s: St, fuel: nat)
    requires CacheWF(env, s)
    ensures var out := ResolveInScope(env, key, R, s, fuel);
            out.result.Ok? ==>
              && |out.result.value| == |Registrations(env.registry, key)|
              && forall j :: 0 <= j < |Registrations(env.registry, key)| ==>
                   Yields(env, key, j, out.result.value[j], out.st)
    ensures Registrations(env.registry, key) == [] ==> ResolveInScope(env, key, R, s, fuel) == Step(Ok([]), s)
  {
    var acc0: seq<Value> := [];
    CollectFromYields(env, key, 0, acc0, R, s, fuel);
    var out := ResolveInScope(env, key, R, s, fuel);
    assert out == CollectFrom(env, key, 0, [], R, s, fuel);
    if out.result.Ok? {
      forall j | 0 <= j < |Registrations(env.registry, key)|
        ensures Yields(env, key, j, out.result.value[j], out.st)
      {
        assert j - |acc0| + 0 == j;
      }
    }
    if Registrations(env.registry, key) == [] {
      assert CollectFrom(env, key, 0, [], R, s, fuel) == Step(Ok([]), s);
    }
  }

  /**
   * `resolve` raises `ServiceNotRegisteredException` exactly when the key has
   * no registration; otherwise it returns the first element of what
   * `resolve_all` builds, after building all of it.
   */
  lemma ResolveIsFirstOfAll(env: Env, key: Key, R: set<TypeId>, s: St, fuel: nat)
    requires fuel > 0
    ensures var out := ScopeResolve(env, key, R, s, fuel);
            var all := ResolveInScope(env, key, R, s, fuel - 1);
            && out.st == all.st
            && (out.result == Err(NotRegistered(key)) <==> Registrations(env.registry, key) == [])
            && (all.result.Err? ==> out.result == Err(all.result.error))
            && (out.result.Ok? <==> all.result.Ok? && all.result.value != [])
            && (out.result.Ok? ==> out.result.value == all.result.value[0])
  {
    if Registrations(env.registry, key) == [] {
      assert CollectFrom(env, key, 0, [], R, s, fuel - 1) == Step(Ok([]), s);
    }
  }

  /**
   * The quirk of `Scope.resolve`: every singleton and scoped registration
   * under the key is built and cached, not only the first one, whose value
   * is returned.
   */
  lemma ResolveCachesEveryRegistration(env: Env, key: Key, R: set<TypeId>, s: St, fuel: nat)
    requires fuel > 0 && CacheWF(env, s)
    ensures var out := ScopeResolve(env, key, R, s, fuel);
            var regs := Registrations(env.registry, key);
            out.result.Ok? ==>
              && Yields(env, key, 0, out.result.value, out.st)
              && (forall j :: 0 <= j < |regs| && !regs[j].Instance? && regs[j].lifestyle == Singleton ==>
                    CacheKey(key, j) in out.st.singletons)
              && (forall j :: 0 <= j < |regs| && !regs[j].Instance? && regs[j].lifestyle == Scoped ==>
                    CacheKey(key, j) in out.st.scoped)
  {
    ResolveAllPerRegistration(env, key, R, s, fuel - 1);
    var all := ResolveInScope(env, key, R, s, fuel - 1);
    if all.result.Ok? && all.result.value != [] {
      var regs := Registrations(env.registry, key);
      forall j | 0 <= j < |regs| && !regs[j].Instance?
        ensures regs[j].lifestyle == Singleton ==> CacheKey(key, j) in all.st.singletons
        ensures regs[j].lifestyle == Scoped ==> CacheKey(key, j) in all.st.scoped
      {
        assert Yields(env, key, j, all.result.value[j], all.st);
      }
    }
  }

  /**
   * When a key's first registration is cached as `v`, resolving the key
   * builds nothing for that registration and returns `v` (or fails on a
   * later registration).
   */
  lemma ResolveCachedFirst(env: Env, key: Key, R: set<TypeId>, s: St, fuel: nat, v: Value)
    requires Registrations(env.registry, key) != [] && !Registrations(env.registry, key)[0].Instance?
    requires Registrations(env.registry, key)[0].lifestyle == Singleton ==>
               CacheKey(key, 0) in s.singletons && s.singletons[CacheKey(key, 0)] == v
    requires Registrations(env.registry, key)[0].lifestyle == Scoped ==>
               CacheKey(key, 0) in s.scoped && s.scoped[CacheKey(key, 0)] == v
    requires Registrations(env.registry, key)[0].lifestyle != Transient
    ensures var out := ScopeResolve(env, key, R, s, fuel);
            out.result.Ok? ==> out.result == Ok(v)
  {
    if fuel > 0 {
      assert GetInstance(env, key, 0, R, s, fuel - 1) == Step(Ok(v), s);
      assert [] + [v] == [v];
      var rest := CollectFrom(env, key, 1, [v], R, s, fuel - 1);
      assert CollectFrom(env, key, 0, [], R, s, fuel - 1) == rest;
    }
  }

  /** A successful `Scope.resolve` returns what the key's first registration yields. */
  lemma {:induction false} ResolveYieldsFirst(env: Env, key: Key, R: set<TypeId>, s: St, fuel: nat)
    requires fuel > 0 && Registrations(env.registry, key) != []
    ensures var out := ScopeResolve(env, key, R, s, fuel);
            var one := GetInstance(env, key, 0, R, s, fuel - 1);
            out.result.Ok? ==> one.result.Ok? && out.result.value == one.result.value
  {
    var one := GetInstance(env, key, 0, R, s, fuel - 1);
    if one.result.Ok? {
      assert [] + [one.result.value] == [one.result.value];
      var rest := CollectFrom(env, key, 1, [one.result.value], R, one.st, fuel - 1);
      assert CollectFrom(env, key, 0, [], R, s, fuel - 1) == rest;
      assert ResolveInScope(env, key, R, s, fuel - 1) == rest;
      if rest.result.Ok? {
        assert rest.result.value[..1] == [one.result.value];
      }
    } else {
      assert CollectFrom(env, key, 0, [], R, s, fuel - 1) == Step(Err(one.result.error), one.st);
    }
  }

  /**
   * A key's first registration with a lifestyle other than transient that
   * was not cached yet is built: the value resolved is a new object.
   */
  lemma ResolveUncachedFirst(env: Env, key: Key, R: set<TypeId>, s: St, fuel: nat)
    requires Registrations(env.registry, key) != []
    requires Uncached(Registrations(env.registry, key)[0], CacheKey(key, 0), s)
    ensures var out := ScopeResolve(env, key, R, s, fuel);
            out.result.Ok? ==> out.result.value.Ref? && |s.objects| <= out.result.value.id
  {
    if fuel > 0 {
      UncachedIsFresh(env, key, 0, R, s, fuel - 1);
      ResolveYieldsFirst(env, key, R, s, fuel);
    }
  }

  /**
   * Singleton identity: once a key whose first registration is a singleton
   * has been resolved to `v`, every later resolution of it, in any scope,
   * that succeeds returns `v` again.
   */
  lemma SingletonSameAcrossScopes(env: Env, key: Key, R: set<TypeId>, s: St, fuel: nat,
                                  R2: set<TypeId>, s2: St, fuel2: nat)
    requires Registrations(env.registry, key) != [] && !Registrations(env.registry, key)[0].Instance?
    requires Registrations(env.registry, key)[0].lifestyle == Singleton
    requires CacheWF(env, s)
    requires ScopeResolve(env, key, R, s, fuel).result.Ok?
    requires Extends(ScopeResolve(env, key, R, s, fuel).st.singletons, s2.singletons)
    ensures var second := ScopeResolve(env, key, R2, s2, fuel2);
            second.result.Ok? ==> second.result == ScopeResolve(env, key, R, s, fuel).result
  {
    ResolveCachesEveryRegistration(env, key, R, s, fuel);
    var first := ScopeResolve(env, key, R, s, fuel);
    assert first.st.singletons[CacheKey(key, 0)] == first.result.value;
    ResolveCachedFirst(env, key, R2, s2, fuel2, first.result.value);
  }

  /** Scoped identity: within one scope a scoped registration resolves to one object. */
  lemma ScopedSameWithinScope(env: Env, key: Key, R: set<TypeId>, s: St, fuel: nat,
                              R2: set<TypeId>, s2: St, fuel2: nat)
    requires Registrations(env.registry, key) != [] && !Registrations(env.registry, key)[0].Instance?
    requires Registrations(env.registry, key)[0].lifestyle == Scoped
    requires CacheWF(env, s)
    requires ScopeResolve(env, key, R, s, fuel).result.Ok?
    requires Extends(ScopeResolve(env, key, R, s, fuel).st.scoped, s2.scoped)
    ensures var second := ScopeResolve(env, key, R2, s2, fuel2);
            second.result.Ok? ==> second.result == ScopeResolve(env, key, R, s, fuel).result
  {
    ResolveCachesEveryRegistration(env, key, R, s, fuel);
    var first := ScopeResolve(env, key, R, s, fuel);
    assert first.st.scoped[CacheKey(key, 0)] == first.result.value;
    ResolveCachedFirst(env, key, R2, s2, fuel2, first.result.value);
  }

  /**
   * A scoped registration resolved in a later, different scope (one that
   * has not cached it) yields a different object; a transient registration
   * yields a different object on every resolution.
   */
  lemma FreshAcrossResolutions(env: Env, key: Key, R: set<TypeId>, s: St, fuel: nat,
                               R2: set<TypeId>, s2: St, fuel2: nat)
    requires Registrations(env.registry, key) != [] && !Registrations(env.registry, key)[0].Instance?
    requires Registrations(env.registry, key)[0].lifestyle != Singleton
    requires Registrations(env.registry, key)[0].lifestyle == Scoped ==> CacheKey(key, 0) !in s2.scoped
    requires CacheWF(env, s)
    requires ScopeResolve(env, key, R, s, fuel).st.objects <= s2.objects
    ensures var first := ScopeResolve(env, key, R, s, fuel);
            var second := ScopeResolve(env, key, R2, s2, fuel2);
            first.result.Ok? && second.result.Ok? ==> first.result.value != second.result.value
  {
    if fuel > 0 {
      ResolveCachesEveryRegistration(env, key, R, s, fuel);
    }
    ResolveUncachedFirst(env, key, R2, s2, fuel2);
  }

  /** A transient registration is never cached, whatever is resolved. */
  lemma TransientNeverCached(env: Env, key: Key, i: nat, k: Key, R: set<TypeId>, s: St, fuel: nat)
    requires i < |Registrations(env.registry, key)|
    requires !Registrations(env.registry, key)[i].Instance? && Registrations(env.registry, key)[i].lifestyle == Transient
    requires CacheWF(env, s)
    ensures var out := ScopeResolve(env, k, R, s, fuel);
            CacheKey(key, i) !in out.st.singletons && CacheKey(key, i) !in out.st.scoped
  {
  }

  /**
   * Appending a registration never invalidates a cache entry: lists only
   * grow at the end, so every cached `(key, index)` still names the same
   * registration.
   */
  lemma AppendKeepsCacheWF(env: Env, s: St, key: Key, reg: Registration)
    requires CacheWF(env, s)
    ensures CacheWF(env.(registry := Append(env.registry, key, reg)), s)
  {
    var env' := env.(registry := Append(env.registry, key, reg));
    forall ck | ck in s.singletons
      ensures CachedAs(env', ck, Singleton, s.singletons[ck], s.objects)
    {
      assert CachedAs(env, ck, Singleton, s.singletons[ck], s.objects);
      assert Registrations(env.registry, ck.key) <= Registrations(env'.registry, ck.key);
    }
    forall ck | ck in s.scoped
      ensures CachedAs(env', ck, Scoped, s.scoped[ck], s.objects)
    {
      assert CachedAs(env, ck, Scoped, s.scoped[ck], s.objects);
      assert Registrations(env.registry, ck.key) <= Registrations(env'.registry, ck.key);
    }
  }

  /**
   * Resolving a key bound only to the transient service `c` is
   * `_create_instance(c)`: the same value or the same error, and the same
   * state.
   */
  lemma ResolveSoleService(env: Env, key: Key, c: TypeId, R: set<TypeId>, s: St, fuel: nat)
    requires Registrations(env.registry, key) == [Service(c, Transient)]
    requires fuel > 0
    ensures ScopeResolve(env, key, R, s, fuel) == CreateInstance(env, c, R, s, fuel - 1)
  {
    var made := CreateInstance(env, c, R, s, fuel - 1);
    assert GetInstance(env, key, 0, R, s, fuel - 1) == made;
    match made.result
    case Err(e) =>
      assert ResolveInScope(env, key, R, s, fuel - 1) == Step(Err(e), made.st);
    case Ok(v) =>
      assert [] + [v] == [v];
      assert CollectFrom(env, key, 1, [v], R, made.st, fuel - 1) == Step(Ok([v]), made.st);
      assert ResolveInScope(env, key, R, s, fuel - 1) == Step(Ok([v]), made.st);
  }

  /**
   * A two-hop constructor cycle: `c` needs a `d` and `d` needs a `c`, both
   * bound as transient services. Resolving `c` raises
   * `CyclicDependencyException(c)` once `d`'s constructor finds `c` in the
   * resolving set, and nothing is built.
   */
  lemma TwoHopCycle(env: Env, c: TypeId, d: TypeId, s: St, fuel: nat)
    requires c != d
    requires Registrations(env.registry, Unnamed(c)) == [Service(c, Transient)]
    requires Registrations(env.registry, Unnamed(d)) == [Service(d, Transient)]
    requires TypeOf(env, c).ctor.Some? && |TypeOf(env, c).ctor.value| > 0
    requires TypeOf(env, c).ctor.value[0].annotation.Annotated? && TypeOf(env, c).ctor.value[0].annotation.dep == d
    requires TypeOf(env, d).ctor.Some? && |TypeOf(env, d).ctor.value| > 0
    requires TypeOf(env, d).ctor.value[0].annotation.Annotated? && TypeOf(env, d).ctor.value[0].annotation.dep == c
    requires fuel >= 2
    ensures ScopeResolve(env, Unnamed(c), {}, s, fuel) == Step(Err(CyclicDependency(c)), s)
  {
    var pc := TypeOf(env, c).ctor.value;
    var pd := TypeOf(env, d).ctor.value;
    var err := Step(Err(CyclicDependency(c)), s);
    // inside d's constructor, with c and d being built
    assert CtorArgsFrom(env, d, pd, 0, [], {c, d}, s, fuel - 2) == Step(Err(CyclicDependency(c)), s);
    assert BuildInstance(env, d, {c} + {d}, s, fuel - 2) == err;
    assert CreateInstance(env, d, {c}, s, fuel - 2) == err;
    ResolveSoleService(env, Unnamed(d), d, {c}, s, fuel - 1);
    // inside c's constructor, with c being built
    assert Recover(pc[0], err.result) == err.result;
    assert CtorArgsFrom(env, c, pc, 0, [], {c}, s, fuel - 1) == Step(Err(CyclicDependency(c)), s);
    assert {} + {c} == {c};
    assert BuildInstance(env, c, {c}, s, fuel - 1) == err;
    assert CreateInstance(env, c, {}, s, fuel - 1) == err;
    ResolveSoleService(env, Unnamed(c), c, {}, s, fuel);
  }

  /**
   * An unannotated constructor parameter raises
   * `MissingTypeAnnotationException` naming the parameter and the class,
   * before anything is resolved or built.
   */
  lemma UnannotatedConstructorParameter(env: Env, cls: TypeId, R: set<TypeId>, s: St, fuel: nat)
    requires cls !in R
    requires TypeOf(env, cls).ctor.Some? && |TypeOf(env, cls).ctor.value| > 0
    requires TypeOf(env, cls).ctor.value[0].annotation.Unannotated?
    ensures CreateInstance(env, cls, R, s, fuel)
            == Step(Err(MissingTypeAnnotation(TypeOf(env, cls).ctor.value[0].name, OfType(cls))), s)
  {
    var ps := TypeOf(env, cls).ctor.value;
    assert CtorArgsFrom(env, cls, ps, 0, [], R + {cls}, s, fuel)
           == Step(Err(MissingTypeAnnotation(ps[0].name, OfType(cls))), s);
  }

  /**
   * A constructor parameter whose type has no registration receives its
   * declared default, else None when it is optional; otherwise the
   * `ServiceNotRegisteredException` for its type propagates.
   */
  lemma UnregisteredConstructorParameter(env: Env, cls: TypeId, params: seq<Param>, R: set<TypeId>, s: St, fuel: nat)
    requires |params| > 0 && params[0].annotation.Annotated? && params[0].annotation.dep !in R
    requires Registrations(env.registry, Unnamed(params[0].annotation.dep)) == []
    requires fuel > 0
    ensures var out := CtorArgsFrom(env, cls, params, 0, [], R, s, fuel);
            && (params[0].default.None? && !params[0].annotation.optional ==>
                  out == Step(Err(NotRegistered(Unnamed(params[0].annotation.dep))), s))
            && (out.result.Ok? ==>
                  out.result.value[0] == (if params[0].default.Some? then params[0].default.value else NoneValue))
  {
    var t := params[0].annotation.dep;
    ResolveIsFirstOfAll(env, Unnamed(t), R, s, fuel);
    ResolveAllPerRegistrationEmpty(env, Unnamed(t), R, s, fuel - 1);
    var dep := ScopeResolve(env, Unnamed(t), R, s, fuel);
    assert dep == Step(Err(NotRegistered(Unnamed(t))), s);
    var r := Recover(params[0], dep.result);
    if r.Ok? {
      var rest := CtorArgsFrom(env, cls, params, 1, [r.value], R, s, fuel);
      if rest.result.Ok? {
        assert rest.result.value[..1] == [r.value];
      }
    }
  }

  lemma ResolveAllPerRegistrationEmpty(env: Env, key: Key, R: set<TypeId>, s: St, fuel: nat)
    requires Registrations(env.registry, key) == []
    ensures ResolveInScope(env, key, R, s, fuel) == Step(Ok([]), s)
  {
  }

  /**
   * Property injection: a member whose return type is being resolved raises
   * `CyclicDependencyException`, and one whose return type has no
   * registration raises `ServiceNotRegisteredException` even when optional
   * fallback would apply to a constructor parameter; a member the
   * constructor already set is skipped.
   */
  lemma PropertyInjectionOutcomes(env: Env, obj: nat, members: seq<Member>, i: nat, R: set<TypeId>, s: St, fuel: nat)
    requires obj < |s.objects| && i < |members|
    ensures members[i].preset ==>
              InjectFrom(env, obj, members, i, R, s, fuel) == InjectFrom(env, obj, members, i + 1, R, s, fuel)
    ensures !members[i].preset && members[i].returnType.Some? && members[i].returnType.value in R ==>
              InjectFrom(env, obj, members, i, R, s, fuel) == Step(Err(CyclicDependency(members[i].returnType.value)), s)
    ensures !members[i].preset && members[i].returnType.Some? && members[i].returnType.value !in R
            && Registrations(env.registry, Unnamed(members[i].returnType.value)) == [] && fuel > 0 ==>
              InjectFrom(env, obj, members, i, R, s, fuel) == Step(Err(NotRegistered(Unnamed(members[i].returnType.value))), s)
  {
    if !members[i].preset && members[i].returnType.Some? && members[i].returnType.value !in R {
      var t := members[i].returnType.value;
      if Registrations(env.registry, Unnamed(t)) == [] && fuel > 0 {
        ResolveIsFirstOfAll(env, Unnamed(t), R, s, fuel);
        ResolveAllPerRegistrationEmpty(env, Unnamed(t), R, s, fuel - 1);
      }
    }
  }
}
