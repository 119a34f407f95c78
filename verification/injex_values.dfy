/**
 * Which values the multi-binding engine hands to user code, proved about
 * `InjexModel`: the arguments a constructor or factory is called with, and
 * the values property injection stores, are what resolving the declared
 * types returns (or a parameter's fallback).
 */
module InjexValues {
  import opened Common
  import opened InjexModel
  import opened InjexProperties

  /** `v` is what `resolve(key)` returns in state `s`: what the key's first registration yields. */
  ghost predicate ResolvesTo(env: Env, key: Key, v: Value, s: St)
  {
    Registrations(env.registry, key) != [] && Yields(env, key, 0, v, s)
  }

  /**
   * `v` is what `_create_instance` or `_invoke_factory` passes for parameter
   * `p`: the container for an unannotated `container` parameter (factories
   * only); otherwise what resolving `p`'s type returns, or, for a parameter
   * with a default or an optional annotation, its fallback.
   */
  ghost predicate ArgFor(env: Env, p: Param, v: Value, s: St)
  {
    match p.annotation
    case Unannotated => p.name == "container" && v == ContainerRef
    case Annotated(t, _) =>
      || ResolvesTo(env, Unnamed(t), v, s)
      || ((p.default.Some? || IsOptional(p)) && v == Fallback(p))
  }

  lemma ArgForGrows(env: Env, p: Param, v: Value, s: St, s': St)
    requires ArgFor(env, p, v, s) && Grows(s, s')
    ensures ArgFor(env, p, v, s')
  {
    if p.annotation.Annotated? && ResolvesTo(env, Unnamed(p.annotation.dep), v, s) {
      YieldsGrows(env, Unnamed(p.annotation.dep), 0, v, s, s');
    }
  }

  /**
   * `v` came out of one resolution of `p`'s type, run with resolving set `R`
   * in some state between `s0` and `s`: it is the value that resolution
   * returned, or `p`'s fallback only when the resolution raised
   * `ServiceNotRegisteredException`. An unannotated parameter is resolved
   * by nobody, and ArgFor covers it.
   */
  ghost predicate Received(env: Env, p: Param, v: Value, R: set<TypeId>, fuel: nat, s0: St, s: St)
  {
    p.annotation.Annotated? ==>
      exists sk :: && Grows(s0, sk) && Grows(sk, s)
                   && Recover(p, ScopeResolve(env, Unnamed(p.annotation.dep), R, sk, fuel).result) == Ok(v)
  }

  /** What one annotated parameter's resolution hands over was received from it. */
  lemma ReceivedHead(env: Env, p: Param, R: set<TypeId>, s: St, fuel: nat)
    requires p.annotation.Annotated?
    ensures var dep := ScopeResolve(env, Unnamed(p.annotation.dep), R, s, fuel);
            var r := Recover(p, dep.result);
            r.Ok? ==> Received(env, p, r.value, R, fuel, s, dep.st)
  {
    var dep := ScopeResolve(env, Unnamed(p.annotation.dep), R, s, fuel);
    assert Grows(s, s) && Grows(s, dep.st);
  }

  /** Received still holds over a wider window of states. */
  lemma ReceivedWithin(env: Env, p: Param, v: Value, R: set<TypeId>, fuel: nat, s0: St, s: St, s0': St, s': St)
    requires Received(env, p, v, R, fuel, s0, s) && Grows(s0', s0) && Grows(s, s')
    ensures Received(env, p, v, R, fuel, s0', s')
  {
    if p.annotation.Annotated? {
      var sk :| && Grows(s0, sk) && Grows(sk, s)
                && Recover(p, ScopeResolve(env, Unnamed(p.annotation.dep), R, sk, fuel).result) == Ok(v);
      GrowsTransitive(s0', s0, sk);
      GrowsTransitive(sk, s, s');
    }
  }

  lemma GrowsTransitive(s1: St, s2: St, s3: St)
    requires Grows(s1, s2) && Grows(s2, s3)
    ensures Grows(s1, s3)
  {
  }

  /** Writing fields of object `obj` changes nothing a resolved value depends on. */
  lemma ResolvesToBeside(env: Env, key: Key, v: Value, s: St, s': St, obj: nat)
    requires ResolvesTo(env, key, v, s) && GrowsBeside(s, s', obj)
    ensures ResolvesTo(env, key, v, s')
  {
    if v.Ref? && v.id < |s.objects| && v.id != obj {
      assert s'.objects[v.id] == s.objects[v.id];
    }
  }

  /** A successful `Scope.resolve` returns what the key's first registration yields. */
  lemma ResolveResolvesTo(env: Env, key: Key, R: set<TypeId>, s: St, fuel: nat)
    requires CacheWF(env, s)
    ensures var out := ScopeResolve(env, key, R, s, fuel);
            out.result.Ok? ==> ResolvesTo(env, key, out.result.value, out.st)
  {
    if fuel > 0 {
      ResolveIsFirstOfAll(env, key, R, s, fuel);
      ResolveCachesEveryRegistration(env, key, R, s, fuel);
    }
  }

  /**
   * One annotated parameter: a successful resolution of its type is the
   * argument, the fallback replaces only `ServiceNotRegisteredException`, and
   * what comes out is an argument for it.
   */
  lemma RecoveredArg(env: Env, p: Param, R: set<TypeId>, s: St, fuel: nat)
    requires p.annotation.Annotated? && CacheWF(env, s)
    ensures var dep := ScopeResolve(env, Unnamed(p.annotation.dep), R, s, fuel);
            var r := Recover(p, dep.result);
            && (dep.result.Ok? ==> r == dep.result && ResolvesTo(env, Unnamed(p.annotation.dep), dep.result.value, dep.st))
            && (r.Ok? && dep.result.Err? ==> dep.result.error.NotRegistered? && r.value == Fallback(p))
            && (r.Ok? ==> ArgFor(env, p, r.value, dep.st))
  {
    ResolveResolvesTo(env, Unnamed(p.annotation.dep), R, s, fuel);
  }

  /**
   * Argument `v` for parameter `i`, put before arguments already matched
   * with parameters `i + 1` on, gives arguments matched from `i` on.
   */
  lemma ArgsPrepended(env: Env, params: seq<Param>, i: nat, acc: seq<Value>, v: Value, xs: seq<Value>, s1: St, s2: St)
    requires i < |params| && |xs| == |acc| + |params| - i && xs[..|acc| + 1] == acc + [v]
    requires ArgFor(env, params[i], v, s1) && Grows(s1, s2)
    requires forall k :: |acc + [v]| <= k < |xs| ==> ArgFor(env, params[k - |acc + [v]| + (i + 1)], xs[k], s2)
    ensures forall k :: |acc| <= k < |xs| ==> ArgFor(env, params[k - |acc| + i], xs[k], s2)
  {
    ArgForGrows(env, params[i], v, s1, s2);
    forall k | |acc| <= k < |xs|
      ensures ArgFor(env, params[k - |acc| + i], xs[k], s2)
    {
      if k == |acc| {
        assert xs[k] == (acc + [v])[|acc|];
      } else {
        assert k - |acc + [v]| + (i + 1) == k - |acc| + i;
      }
    }
  }

  /** Received for argument `i`, put before arguments received for parameters `i + 1` on. */
  lemma ReceivedPrepended(env: Env, params: seq<Param>, i: nat, v: Value, xs: seq<Value>, R: set<TypeId>, fuel: nat,
                          s: St, s1: St, s2: St)
    requires i < |xs| <= |params| && xs[i] == v
    requires Received(env, params[i], v, R, fuel, s, s1) && Grows(s, s1) && Grows(s1, s2)
    requires forall k :: i + 1 <= k < |xs| ==> Received(env, params[k], xs[k], R, fuel, s1, s2)
    ensures forall k :: i <= k < |xs| ==> Received(env, params[k], xs[k], R, fuel, s, s2)
  {
    forall k | i <= k < |xs|
      ensures Received(env, params[k], xs[k], R, fuel, s, s2)
    {
      if k == i {
        ReceivedWithin(env, params[i], v, R, fuel, s, s1, s, s2);
      } else {
        ReceivedWithin(env, params[k], xs[k], R, fuel, s1, s2, s, s2);
      }
    }
  }

  /** The parameter loop of `_create_instance`: argument `k` is an argument for parameter `k`. */
  lemma {:induction false} CtorArgsResolved(env: Env, cls: TypeId, params: seq<Param>, i: nat, acc: seq<Value>,
                                            R: set<TypeId>, s: St, fuel: nat)
    requires i <= |params| && CacheWF(env, s)
    ensures var out := CtorArgsFrom(env, cls, params, i, acc, R, s, fuel);
            out.result.Ok? ==> forall k :: |acc| <= k < |out.result.value| ==>
              ArgFor(env, params[k - |acc| + i], out.result.value[k], out.st)
    decreases |params| - i
  {
    if i == |params| {
      assert CtorArgsFrom(env, cls, params, i, acc, R, s, fuel) == Step(Ok(acc), s);
    } else {
      var p := params[i];
      if p.annotation.Unannotated? {
        assert CtorArgsFrom(env, cls, params, i, acc, R, s, fuel) == Step(Err(MissingTypeAnnotation(p.name, OfType(cls))), s);
      } else if p.annotation.dep in R {
        assert CtorArgsFrom(env, cls, params, i, acc, R, s, fuel) == Step(Err(CyclicDependency(p.annotation.dep)), s);
      } else {
        var dep := ScopeResolve(env, Unnamed(p.annotation.dep), R, s, fuel);
        var r := Recover(p, dep.result);
        if r.Err? {
          assert CtorArgsFrom(env, cls, params, i, acc, R, s, fuel) == Step(Err(r.error), dep.st);
        } else {
          var v := r.value;
          RecoveredArg(env, p, R, s, fuel);
          var rest := CtorArgsFrom(env, cls, params, i + 1, acc + [v], R, dep.st, fuel);
          assert CtorArgsFrom(env, cls, params, i, acc, R, s, fuel) == rest;
          CtorArgsResolved(env, cls, params, i + 1, acc + [v], R, dep.st, fuel);
          if rest.result.Ok? {
            var xs := rest.result.value;
            assert forall k :: |acc + [v]| <= k < |xs| ==> ArgFor(env, params[k - |acc + [v]| + (i + 1)], xs[k], rest.st);
            ArgsPrepended(env, params, i, acc, v, xs, dep.st, rest.st);
          }
        }
      }
    }
  }

  /**
   * The parameter loop of `_create_instance`: argument `k` came out of the
   * resolution of parameter `k`'s type, the fallback only where it raised
   * `ServiceNotRegisteredException`.
   * The loop starts at the first parameter with no arguments, so one
   * argument has been collected per parameter before `i`.
   */
  lemma {:induction false} CtorArgsReceived(env: Env, cls: TypeId, params: seq<Param>, i: nat, acc: seq<Value>,
                                            R: set<TypeId>, s: St, fuel: nat)
    requires i <= |params| && |acc| == i
    ensures var out := CtorArgsFrom(env, cls, params, i, acc, R, s, fuel);
            out.result.Ok? ==> forall k :: i <= k < |out.result.value| ==>
              Received(env, params[k], out.result.value[k], R, fuel, s, out.st)
    decreases |params| - i
  {
    if i == |params| {
      assert CtorArgsFrom(env, cls, params, i, acc, R, s, fuel) == Step(Ok(acc), s);
    } else {
      var p := params[i];
      if p.annotation.Unannotated? {
        assert CtorArgsFrom(env, cls, params, i, acc, R, s, fuel) == Step(Err(MissingTypeAnnotation(p.name, OfType(cls))), s);
      } else if p.annotation.dep in R {
        assert CtorArgsFrom(env, cls, params, i, acc, R, s, fuel) == Step(Err(CyclicDependency(p.annotation.dep)), s);
      } else {
        var dep := ScopeResolve(env, Unnamed(p.annotation.dep), R, s, fuel);
        var r := Recover(p, dep.result);
        if r.Err? {
          assert CtorArgsFrom(env, cls, params, i, acc, R, s, fuel) == Step(Err(r.error), dep.st);
        } else {
          var v := r.value;
          ReceivedHead(env, p, R, s, fuel);
          var rest := CtorArgsFrom(env, cls, params, i + 1, acc + [v], R, dep.st, fuel);
          assert CtorArgsFrom(env, cls, params, i, acc, R, s, fuel) == rest;
          CtorArgsReceived(env, cls, params, i + 1, acc + [v], R, dep.st, fuel);
          if rest.result.Ok? {
            var xs := rest.result.value;
            assert xs[i] == xs[..|acc + [v]|][i];
            ReceivedPrepended(env, params, i, v, xs, R, fuel, s, dep.st, rest.st);
          }
        }
      }
    }
  }

  /** The parameter loop of `_invoke_factory`: argument `k` is an argument for parameter `k`. */
  lemma {:induction false} FactoryArgsResolved(env: Env, f: FactoryId, params: seq<Param>, i: nat, acc: seq<Value>,
                                               R: set<TypeId>, s: St, fuel: nat)
    requires i <= |params| && CacheWF(env, s)
    ensures var out := FactoryArgsFrom(env, f, params, i, acc, R, s, fuel);
            out.result.Ok? ==> forall k :: |acc| <= k < |out.result.value| ==>
              ArgFor(env, params[k - |acc| + i], out.result.value[k], out.st)
    decreases |params| - i, 1
  {
    if i == |params| {
      assert FactoryArgsFrom(env, f, params, i, acc, R, s, fuel) == Step(Ok(acc), s);
    } else if params[i].annotation.Unannotated? {
      if params[i].name == "container" {
        FactoryContainerResolved(env, f, params, i, acc, R, s, fuel);
      } else {
        assert FactoryArgsFrom(env, f, params, i, acc, R, s, fuel)
               == Step(Err(MissingTypeAnnotation(params[i].name, OfFactory(f))), s);
      }
    } else {
      FactoryResolvedArg(env, f, params, i, acc, R, s, fuel);
    }
  }

  /** FactoryArgsResolved at an unannotated `container` parameter. */
  lemma {:induction false} FactoryContainerResolved(env: Env, f: FactoryId, params: seq<Param>, i: nat, acc: seq<Value>,
                                                    R: set<TypeId>, s: St, fuel: nat)
    requires i < |params| && CacheWF(env, s)
    requires params[i].annotation.Unannotated? && params[i].name == "container"
    ensures var out := FactoryArgsFrom(env, f, params, i, acc, R, s, fuel);
            out.result.Ok? ==> forall k :: |acc| <= k < |out.result.value| ==>
              ArgFor(env, params[k - |acc| + i], out.result.value[k], out.st)
    decreases |params| - i, 0
  {
    var rest := FactoryArgsFrom(env, f, params, i + 1, acc + [ContainerRef], R, s, fuel);
    assert FactoryArgsFrom(env, f, params, i, acc, R, s, fuel) == rest;
    FactoryArgsResolved(env, f, params, i + 1, acc + [ContainerRef], R, s, fuel);
    if rest.result.Ok? {
      var xs := rest.result.value;
      assert forall k :: |acc + [ContainerRef]| <= k < |xs| ==>
               ArgFor(env, params[k - |acc + [ContainerRef]| + (i + 1)], xs[k], rest.st);
      ArgsPrepended(env, params, i, acc, ContainerRef, xs, s, rest.st);
    }
  }

  /** FactoryArgsResolved at an annotated parameter. */
  lemma {:induction false} FactoryResolvedArg(env: Env, f: FactoryId, params: seq<Param>, i: nat, acc: seq<Value>,
                                              R: set<TypeId>, s: St, fuel: nat)
    requires i < |params| && CacheWF(env, s) && params[i].annotation.Annotated?
    ensures var out := FactoryArgsFrom(env, f, params, i, acc, R, s, fuel);
            out.result.Ok? ==> forall k :: |acc| <= k < |out.result.value| ==>
              ArgFor(env, params[k - |acc| + i], out.result.value[k], out.st)
    decreases |params| - i, 0
  {
    var p := params[i];
    var dep := ScopeResolve(env, Unnamed(p.annotation.dep), R, s, fuel);
    var r := Recover(p, dep.result);
    FactoryArgStep(env, f, params, i, acc, R, s, fuel);
    if r.Ok? {
      var v := r.value;
      RecoveredArg(env, p, R, s, fuel);
      var rest := FactoryArgsFrom(env, f, params, i + 1, acc + [v], R, dep.st, fuel);
      FactoryArgsResolved(env, f, params, i + 1, acc + [v], R, dep.st, fuel);
      if rest.result.Ok? {
        var xs := rest.result.value;
        assert forall k :: |acc + [v]| <= k < |xs| ==> ArgFor(env, params[k - |acc + [v]| + (i + 1)], xs[k], rest.st);
        ArgsPrepended(env, params, i, acc, v, xs, dep.st, rest.st);
      }
    }
  }

  /** One turn of the `_invoke_factory` loop at an annotated parameter. */
  lemma FactoryArgStep(env: Env, f: FactoryId, params: seq<Param>, i: nat, acc: seq<Value>, R: set<TypeId>, s: St, fuel: nat)
    requires i < |params| && params[i].annotation.Annotated?
    ensures var dep := ScopeResolve(env, Unnamed(params[i].annotation.dep), R, s, fuel);
            var r := Recover(params[i], dep.result);
            FactoryArgsFrom(env, f, params, i, acc, R, s, fuel)
              == if r.Err? then Step(Err(r.error), dep.st)
                 else FactoryArgsFrom(env, f, params, i + 1, acc + [r.value], R, dep.st, fuel)
  {
  }

  /**
   * The parameter loop of `_invoke_factory`: an argument for an annotated
   * parameter came out of the resolution of its type, the fallback only where
   * it raised `ServiceNotRegisteredException`.
   * The loop starts at the first parameter with no arguments, so one
   * argument has been collected per parameter before `i`.
   */
  lemma {:induction false} FactoryArgsReceived(env: Env, f: FactoryId, params: seq<Param>, i: nat, acc: seq<Value>,
                                               R: set<TypeId>, s: St, fuel: nat)
    requires i <= |params| && |acc| == i
    ensures var out := FactoryArgsFrom(env, f, params, i, acc, R, s, fuel);
            out.result.Ok? ==> forall k :: i <= k < |out.result.value| ==>
              Received(env, params[k], out.result.value[k], R, fuel, s, out.st)
    decreases |params| - i, 2
  {
    if i == |params| {
      assert FactoryArgsFrom(env, f, params, i, acc, R, s, fuel) == Step(Ok(acc), s);
    } else if params[i].annotation.Unannotated? {
      if params[i].name == "container" {
        FactoryContainerReceived(env, f, params, i, acc, R, s, fuel);
      } else {
        assert FactoryArgsFrom(env, f, params, i, acc, R, s, fuel)
               == Step(Err(MissingTypeAnnotation(params[i].name, OfFactory(f))), s);
      }
    } else {
      FactoryReceivedArg(env, f, params, i, acc, R, s, fuel);
    }
  }

  /** FactoryArgsReceived at an unannotated `container` parameter. */
  lemma {:induction false} FactoryContainerReceived(env: Env, f: FactoryId, params: seq<Param>, i: nat, acc: seq<Value>,
                                                    R: set<TypeId>, s: St, fuel: nat)
    requires i < |params| && params[i].annotation.Unannotated? && params[i].name == "container" && |acc| == i
    ensures var out := FactoryArgsFrom(env, f, params, i, acc, R, s, fuel);
            out.result.Ok? ==> forall k :: i <= k < |out.result.value| ==>
              Received(env, params[k], out.result.value[k], R, fuel, s, out.st)
    decreases |params| - i, 0
  {
    var rest := FactoryArgsFrom(env, f, params, i + 1, acc + [ContainerRef], R, s, fuel);
    assert FactoryArgsFrom(env, f, params, i, acc, R, s, fuel) == rest;
    FactoryArgsReceived(env, f, params, i + 1, acc + [ContainerRef], R, s, fuel);
    if rest.result.Ok? {
      var xs := rest.result.value;
      assert xs[i] == xs[..|acc + [ContainerRef]|][i];
      ReceivedPrepended(env, params, i, ContainerRef, xs, R, fuel, s, s, rest.st);
    }
  }

  /** FactoryArgsReceived at an annotated parameter. */
  lemma {:induction false} FactoryReceivedArg(env: Env, f: FactoryId, params: seq<Param>, i: nat, acc: seq<Value>,
                                              R: set<TypeId>, s: St, fuel: nat)
    requires i < |params| && params[i].annotation.Annotated? && |acc| == i
    ensures var out := FactoryArgsFrom(env, f, params, i, acc, R, s, fuel);
            out.result.Ok? ==> forall k :: i <= k < |out.result.value| ==>
              Received(env, params[k], out.result.value[k], R, fuel, s, out.st)
    decreases |params| - i, 1
  {
    var p := params[i];
    var dep := ScopeResolve(env, Unnamed(p.annotation.dep), R, s, fuel);
    var r := Recover(p, dep.result);
    FactoryArgStep(env, f, params, i, acc, R, s, fuel);
    if r.Ok? {
      ReceivedHead(env, p, R, s, fuel);
      FactoryReceivedRest(env, f, params, i, acc, r.value, R, s, dep.st, fuel);
    }
  }

  /** FactoryReceivedArg once the argument `v` for parameter `i` was received between `s` and `s1`. */
  lemma {:induction false} FactoryReceivedRest(env: Env, f: FactoryId, params: seq<Param>, i: nat, acc: seq<Value>, v: Value,
                                               R: set<TypeId>, s: St, s1: St, fuel: nat)
    requires i < |params| && Received(env, params[i], v, R, fuel, s, s1) && Grows(s, s1) && |acc| == i
    ensures var rest := FactoryArgsFrom(env, f, params, i + 1, acc + [v], R, s1, fuel);
            rest.result.Ok? ==> forall k :: i <= k < |rest.result.value| ==>
              Received(env, params[k], rest.result.value[k], R, fuel, s, rest.st)
    decreases |params| - i, 0
  {
    var rest := FactoryArgsFrom(env, f, params, i + 1, acc + [v], R, s1, fuel);
    FactoryArgsReceived(env, f, params, i + 1, acc + [v], R, s1, fuel);
    if rest.result.Ok? {
      var xs := rest.result.value;
      assert xs[i] == xs[..|acc + [v]|][i];
      ReceivedPrepended(env, params, i, v, xs, R, fuel, s, s1, rest.st);
    }
  }

  /** The whole parameter loop of `_invoke_factory`: argument `j` is an argument for parameter `j`. */
  lemma FactoryArgsAll(env: Env, f: FactoryId, params: seq<Param>, R: set<TypeId>, s: St, fuel: nat)
    requires CacheWF(env, s)
    ensures var out := FactoryArgsFrom(env, f, params, 0, [], R, s, fuel);
            out.result.Ok? ==>
              && |out.result.value| == |params|
              && (forall j :: 0 <= j < |params| ==> ArgFor(env, params[j], out.result.value[j], out.st))
              && (forall j :: 0 <= j < |params| ==> Received(env, params[j], out.result.value[j], R, fuel, s, out.st))
  {
    FactoryArgsResolvedAll(env, f, params, R, s, fuel);
    FactoryArgsReceived(env, f, params, 0, [], R, s, fuel);
  }

  /** FactoryArgsResolved from the first parameter, indexed by parameter. */
  lemma FactoryArgsResolvedAll(env: Env, f: FactoryId, params: seq<Param>, R: set<TypeId>, s: St, fuel: nat)
    requires CacheWF(env, s)
    ensures var out := FactoryArgsFrom(env, f, params, 0, [], R, s, fuel);
            out.result.Ok? ==> forall j :: 0 <= j < |out.result.value| ==> ArgFor(env, params[j], out.result.value[j], out.st)
  {
    var acc0: seq<Value> := [];
    FactoryArgsResolved(env, f, params, 0, acc0, R, s, fuel);
    var out := FactoryArgsFrom(env, f, params, 0, acc0, R, s, fuel);
    if out.result.Ok? {
      forall j | 0 <= j < |out.result.value|
        ensures ArgFor(env, params[j], out.result.value[j], out.st)
      {
        assert j - |acc0| + 0 == j;
      }
    }
  }

  /**
   * `_invoke_factory` calls the factory with one argument per parameter, in
   * order: the container for `container`, otherwise what resolving the
   * parameter's type returned, or its fallback.
   */
  lemma InvokeFactoryArgs(env: Env, f: FactoryId, R: set<TypeId>, s: St, fuel: nat)
    requires CacheWF(env, s)
    ensures var out := InvokeFactory(env, f, R, s, fuel);
            var ps := FactoryOf(env, f).params;
            out.result.Ok? ==>
              var args := out.st.objects[out.result.value.id].args;
              && |args| == |ps|
              && (forall j :: 0 <= j < |ps| ==> ArgFor(env, ps[j], args[j], out.st))
              && (forall j :: 0 <= j < |ps| ==> Received(env, ps[j], args[j], R, fuel, s, out.st))
  {
    var info := FactoryOf(env, f);
    var args := FactoryArgsFrom(env, f, info.params, 0, [], R, s, fuel);
    FactoryArgsAll(env, f, info.params, R, s, fuel);
    if args.result.Ok? {
      var xs := args.result.value;
      var made := Run(OfFactory(f), info.raises, xs, args.st);
      assert InvokeFactory(env, f, R, s, fuel) == made;
      if made.result.Ok? {
        NewObjectKeepsCache(env, args.st, made.st);
        forall j | 0 <= j < |info.params|
          ensures ArgFor(env, info.params[j], xs[j], made.st)
          ensures Received(env, info.params[j], xs[j], R, fuel, s, made.st)
        {
          ArgForGrows(env, info.params[j], xs[j], args.st, made.st);
          ReceivedWithin(env, info.params[j], xs[j], R, fuel, s, args.st, s, made.st);
        }
      }
    }
  }

  /**
   * `_create_instance` calls `cls(*args)` with one argument per constructor
   * parameter, in order, each what resolving the parameter's type returned
   * or the parameter's fallback; a class without its own `__init__` gets
   * none.
   */
  lemma BuildArgs(env: Env, cls: TypeId, R: set<TypeId>, s: St, fuel: nat)
    requires CacheWF(env, s)
    ensures var out := BuildInstance(env, cls, R, s, fuel);
            var ctor := TypeOf(env, cls).ctor;
            out.result.Ok? ==>
              var args := out.st.objects[out.result.value.id].args;
              && (ctor.None? ==> args == [])
              && (ctor.Some? ==>
                    && |args| == |ctor.value|
                    && (forall j :: 0 <= j < |args| ==> ArgFor(env, ctor.value[j], args[j], out.st))
                    && (forall j :: 0 <= j < |args| ==> Received(env, ctor.value[j], args[j], R, fuel, s, out.st)))
  {
    BuiltArgsResolved(env, cls, R, s, fuel);
    BuiltArgsReceived(env, cls, R, s, fuel);
  }

  /** The ArgFor half of BuildArgs. */
  lemma BuiltArgsResolved(env: Env, cls: TypeId, R: set<TypeId>, s: St, fuel: nat)
    requires CacheWF(env, s)
    ensures var out := BuildInstance(env, cls, R, s, fuel);
            var ctor := TypeOf(env, cls).ctor;
            out.result.Ok? ==>
              var args := out.st.objects[out.result.value.id].args;
              && (ctor.None? ==> args == [])
              && (ctor.Some? ==>
                    && |args| == |ctor.value|
                    && (forall j :: 0 <= j < |args| ==> ArgFor(env, ctor.value[j], args[j], out.st)))
  {
    var info := TypeOf(env, cls);
    var out := BuildInstance(env, cls, R, s, fuel);
    BuiltFromArgs(env, cls, R, s, fuel);
    if out.result.Ok? && info.ctor.Some? {
      var ps := info.ctor.value;
      var acc0: seq<Value> := [];
      var args := CtorArgsFrom(env, cls, ps, 0, acc0, R, s, fuel);
      CtorArgsResolved(env, cls, ps, 0, acc0, R, s, fuel);
      var xs := args.result.value;
      forall j | 0 <= j < |xs|
        ensures ArgFor(env, ps[j], xs[j], out.st)
      {
        assert ArgFor(env, ps[j - |acc0| + 0], xs[j], args.st);
        ArgForGrows(env, ps[j], xs[j], args.st, out.st);
      }
    }
  }

  /** The Received half of BuildArgs. */
  lemma BuiltArgsReceived(env: Env, cls: TypeId, R: set<TypeId>, s: St, fuel: nat)
    ensures var out := BuildInstance(env, cls, R, s, fuel);
            var ctor := TypeOf(env, cls).ctor;
            out.result.Ok? && ctor.Some? ==>
              var args := out.st.objects[out.result.value.id].args;
              forall j :: 0 <= j < |args| && j < |ctor.value| ==> Received(env, ctor.value[j], args[j], R, fuel, s, out.st)
  {
    var info := TypeOf(env, cls);
    var out := BuildInstance(env, cls, R, s, fuel);
    BuiltFromArgs(env, cls, R, s, fuel);
    if out.result.Ok? && info.ctor.Some? {
      var ps := info.ctor.value;
      CtorArgsReceivedAll(env, cls, ps, R, s, fuel, out.st);
    }
  }

  /** CtorArgsReceived from the first parameter, indexed by parameter and read in any later state `s'`. */
  lemma CtorArgsReceivedAll(env: Env, cls: TypeId, ps: seq<Param>, R: set<TypeId>, s: St, fuel: nat, s': St)
    ensures var out := CtorArgsFrom(env, cls, ps, 0, [], R, s, fuel);
            out.result.Ok? && Grows(out.st, s') ==> forall j :: 0 <= j < |out.result.value| && j < |ps| ==>
              Received(env, ps[j], out.result.value[j], R, fuel, s, s')
  {
    var acc0: seq<Value> := [];
    var out := CtorArgsFrom(env, cls, ps, 0, acc0, R, s, fuel);
    CtorArgsReceived(env, cls, ps, 0, acc0, R, s, fuel);
    if out.result.Ok? && Grows(out.st, s') {
      ReceivedAllWithin(env, ps, out.result.value, R, fuel, s, out.st, s');
    }
  }

  /** Received for a whole argument list still holds in a later state. */
  lemma ReceivedAllWithin(env: Env, ps: seq<Param>, xs: seq<Value>, R: set<TypeId>, fuel: nat, s0: St, s: St, s': St)
    requires |xs| <= |ps| && Grows(s, s')
    requires forall j :: 0 <= j < |xs| ==> Received(env, ps[j], xs[j], R, fuel, s0, s)
    ensures forall j :: 0 <= j < |xs| ==> Received(env, ps[j], xs[j], R, fuel, s0, s')
  {
    forall j | 0 <= j < |xs|
      ensures Received(env, ps[j], xs[j], R, fuel, s0, s')
    {
      ReceivedWithin(env, ps[j], xs[j], R, fuel, s0, s, s0, s');
    }
  }

  /**
   * The loop of `_inject_properties` on object `obj`: a field no member from
   * `i` on names keeps its value, and on success each injected member that no
   * later member overwrites holds what resolving its return type returned.
   */
  lemma {:induction false} InjectResolved(env: Env, obj: nat, members: seq<Member>, i: nat, R: set<TypeId>, s: St, fuel: nat)
    requires obj < |s.objects| && i <= |members| && CacheWF(env, s)
    ensures var out := InjectFrom(env, obj, members, i, R, s, fuel);
            var fields := out.st.objects[obj].fields;
            && (forall n :: n in s.objects[obj].fields && NotNamedFrom(members, i, n) ==>
                  fields[n] == s.objects[obj].fields[n])
            && (out.result.Ok? ==> forall j :: i <= j < |members| && Injects(members[j]) && NotNamedFrom(members, j + 1, members[j].name) ==>
                  ResolvesTo(env, Unnamed(members[j].returnType.value), fields[members[j].name], out.st))
    decreases |members| - i
  {
    if i == |members| {
      assert InjectFrom(env, obj, members, i, R, s, fuel) == Step(Ok(()), s);
    } else {
      var m := members[i];
      if !Injects(m) {
        assert InjectFrom(env, obj, members, i, R, s, fuel) == InjectFrom(env, obj, members, i + 1, R, s, fuel);
        InjectResolved(env, obj, members, i + 1, R, s, fuel);
      } else if m.returnType.value in R {
        assert InjectFrom(env, obj, members, i, R, s, fuel) == Step(Err(CyclicDependency(m.returnType.value)), s);
      } else {
        var key := Unnamed(m.returnType.value);
        var dep := ScopeResolve(env, key, R, s, fuel);
        assert dep.st.objects[obj] == s.objects[obj];
        if dep.result.Err? {
          assert InjectFrom(env, obj, members, i, R, s, fuel) == Step(Err(dep.result.error), dep.st);
        } else {
          var v := dep.result.value;
          ResolveResolvesTo(env, key, R, s, fuel);
          var s' := dep.st.(objects := SetField(dep.st.objects, obj, m.name, v));
          FieldWriteKeepsCache(env, dep.st, obj, m.name, v);
          var rest := InjectFrom(env, obj, members, i + 1, R, s', fuel);
          assert InjectFrom(env, obj, members, i, R, s, fuel) == rest;
          InjectResolved(env, obj, members, i + 1, R, s', fuel);
          ResolvesToBeside(env, key, v, dep.st, s', obj);
          ResolvesToBeside(env, key, v, s', rest.st, obj);
          InjectedHead(env, obj, members, i, v, s, s', rest.st, rest.result.Ok?);
        }
      }
    }
  }

  /** The step of InjectResolved that writes member `i`: the write survives, and untouched fields stay. */
  lemma InjectedHead(env: Env, obj: nat, members: seq<Member>, i: nat, v: Value, s: St, s': St, s'': St, ok: bool)
    requires i < |members| && Injects(members[i]) && obj < |s.objects| && obj < |s'.objects| && obj < |s''.objects|
    requires s'.objects[obj].fields == s.objects[obj].fields[members[i].name := v]
    requires forall n :: n in s'.objects[obj].fields && NotNamedFrom(members, i + 1, n) ==>
               n in s''.objects[obj].fields && s''.objects[obj].fields[n] == s'.objects[obj].fields[n]
    requires ResolvesTo(env, Unnamed(members[i].returnType.value), v, s'')
    requires ok ==> forall j :: i + 1 <= j < |members| && Injects(members[j]) && NotNamedFrom(members, j + 1, members[j].name) ==>
               members[j].name in s''.objects[obj].fields &&
               ResolvesTo(env, Unnamed(members[j].returnType.value), s''.objects[obj].fields[members[j].name], s'')
    ensures forall n :: n in s.objects[obj].fields && NotNamedFrom(members, i, n) ==>
              n in s''.objects[obj].fields && s''.objects[obj].fields[n] == s.objects[obj].fields[n]
    ensures ok ==> forall j :: i <= j < |members| && Injects(members[j]) && NotNamedFrom(members, j + 1, members[j].name) ==>
              members[j].name in s''.objects[obj].fields &&
              ResolvesTo(env, Unnamed(members[j].returnType.value), s''.objects[obj].fields[members[j].name], s'')
  {
    var name := members[i].name;
    forall n | n in s.objects[obj].fields && NotNamedFrom(members, i, n)
      ensures n in s''.objects[obj].fields && s''.objects[obj].fields[n] == s.objects[obj].fields[n]
    {
      assert members[i].name != n;
    }
    if ok {
      forall j | i <= j < |members| && Injects(members[j]) && NotNamedFrom(members, j + 1, members[j].name)
        ensures members[j].name in s''.objects[obj].fields
        ensures ResolvesTo(env, Unnamed(members[j].returnType.value), s''.objects[obj].fields[members[j].name], s'')
      {
        if j == i {
          assert name in s'.objects[obj].fields && NotNamedFrom(members, i + 1, name);
        }
      }
    }
  }

  /**
   * `_create_instance` on success: every injectable member that no later
   * member overwrites holds what resolving its return type returned.
   */
  lemma BuildFields(env: Env, cls: TypeId, R: set<TypeId>, s: St, fuel: nat)
    requires CacheWF(env, s)
    ensures var out := BuildInstance(env, cls, R, s, fuel);
            var members := TypeOf(env, cls).members;
            out.result.Ok? ==>
              var fields := out.st.objects[out.result.value.id].fields;
              forall j :: 0 <= j < |members| && Injects(members[j]) && NotNamedFrom(members, j + 1, members[j].name) ==>
                ResolvesTo(env, Unnamed(members[j].returnType.value), fields[members[j].name], out.st)
  {
    var info := TypeOf(env, cls);
    var args := match info.ctor
                case None => Step(Ok([]), s)
                case Some(params) => CtorArgsFrom(env, cls, params, 0, [], R, s, fuel);
    if args.result.Ok? {
      var made := Run(OfType(cls), info.raises, args.result.value, args.st);
      if made.result.Ok? {
        var v := made.result.value;
        NewObjectKeepsCache(env, args.st, made.st);
        InjectResolved(env, v.id, info.members, 0, R, made.st, fuel);
        var injected := InjectFrom(env, v.id, info.members, 0, R, made.st, fuel);
        if injected.result.Ok? {
          assert BuildInstance(env, cls, R, s, fuel) == Step(Ok(v), injected.st);
        }
      }
    }
  }

  /** `v` is an object of the store built by `owner` with arguments `args`. */
  ghost predicate BuiltWith(v: Value, owner: Owner, args: seq<Value>, objects: seq<Obj>)
  {
    v.Ref? && v.id < |objects| && objects[v.id].origin == owner && objects[v.id].args == args
  }

  /**
   * A transient `Handler` whose constructor takes a `Logger`, itself bound as
   * a singleton: two handlers resolved one after the other are distinct
   * objects, both built with the one cached logger.
   */
  lemma SharedSingletonDependency(env: Env, handler: TypeId, logger: TypeId, p: Param, s: St, fuel: nat)
    requires Registrations(env.registry, Unnamed(handler)) == [Service(handler, Transient)]
    requires Registrations(env.registry, Unnamed(logger)) == [Service(logger, Singleton)]
    requires TypeOf(env, handler).ctor == Some([p])
    requires p.annotation == Annotated(logger, false) && p.default.None?
    requires CacheWF(env, s)
    ensures var first := ScopeResolve(env, Unnamed(handler), {}, InFreshScope(s), fuel);
            var second := ScopeResolve(env, Unnamed(handler), {}, InFreshScope(first.st), fuel);
            var ck := CacheKey(Unnamed(logger), 0);
            first.result.Ok? && second.result.Ok? ==>
              && first.result.value != second.result.value
              && ck in second.st.singletons
              && BuiltWith(first.result.value, OfType(handler), [second.st.singletons[ck]], second.st.objects)
              && BuiltWith(second.result.value, OfType(handler), [second.st.singletons[ck]], second.st.objects)
  {
    var first := ScopeResolve(env, Unnamed(handler), {}, InFreshScope(s), fuel);
    if first.result.Ok? {
      var s2 := InFreshScope(first.st);
      var second := ScopeResolve(env, Unnamed(handler), {}, s2, fuel);
      HandlerBuilt(env, handler, logger, p, InFreshScope(s), fuel);
      HandlerBuilt(env, handler, logger, p, s2, fuel);
      if second.result.Ok? {
        assert second.st.objects[first.result.value.id] == first.st.objects[first.result.value.id];
      }
    }
  }

  /** One resolution of the handler in SharedSingletonDependency: a new object holding the cached logger. */
  lemma HandlerBuilt(env: Env, handler: TypeId, logger: TypeId, p: Param, s: St, fuel: nat)
    requires Registrations(env.registry, Unnamed(handler)) == [Service(handler, Transient)]
    requires Registrations(env.registry, Unnamed(logger)) == [Service(logger, Singleton)]
    requires TypeOf(env, handler).ctor == Some([p])
    requires p.annotation == Annotated(logger, false) && p.default.None?
    requires CacheWF(env, s)
    ensures var out := ScopeResolve(env, Unnamed(handler), {}, s, fuel);
            var ck := CacheKey(Unnamed(logger), 0);
            out.result.Ok? ==>
              && FreshIn(out.result.value, s, out.st)
              && ck in out.st.singletons
              && BuiltWith(out.result.value, OfType(handler), [out.st.singletons[ck]], out.st.objects)
  {
    if fuel > 0 {
      ResolveSoleService(env, Unnamed(handler), handler, {}, s, fuel);
      BuiltArgsResolved(env, handler, {} + {handler}, s, fuel - 1);
      var out := ScopeResolve(env, Unnamed(handler), {}, s, fuel);
      if out.result.Ok? {
        var args := out.st.objects[out.result.value.id].args;
        assert ArgFor(env, p, args[0], out.st);
        assert args == [args[0]];
      }
    }
  }

  /**
   * The fallback is not reserved for an unregistered parameter type: `except
   * ServiceNotRegisteredException` also catches the exception raised for a
   * missing dependency of a registered type `t`. Here `t`'s constructor
   * needs the unregistered `u`, so parameter 0 receives its fallback, and
   * nothing was built or cached.
   */
  lemma NestedUnregisteredFallsBack(env: Env, cls: TypeId, params: seq<Param>, t: TypeId, u: TypeId, q: Param,
                                    R: set<TypeId>, s: St, fuel: nat)
    requires |params| > 0 && params[0].annotation.Annotated? && params[0].annotation.dep == t
    requires params[0].default.Some? || IsOptional(params[0])
    requires Registrations(env.registry, Unnamed(t)) == [Service(t, Transient)]
    requires TypeOf(env, t).ctor == Some([q]) && q.annotation == Annotated(u, false) && q.default.None?
    requires Registrations(env.registry, Unnamed(u)) == []
    requires t !in R && u !in R && fuel >= 2
    ensures CtorArgsFrom(env, cls, params, 0, [], R, s, fuel)
            == CtorArgsFrom(env, cls, params, 1, [Fallback(params[0])], R, s, fuel)
  {
    var missing := Step(Err(NotRegistered(Unnamed(u))), s);
    ResolveIsFirstOfAll(env, Unnamed(u), R + {t}, s, fuel - 1);
    ResolveAllPerRegistrationEmpty(env, Unnamed(u), R + {t}, s, fuel - 2);
    assert ScopeResolve(env, Unnamed(u), R + {t}, s, fuel - 1) == missing;
    assert CtorArgsFrom(env, t, [q], 0, [], R + {t}, s, fuel - 1) == Step(Err(NotRegistered(Unnamed(u))), s);
    assert BuildInstance(env, t, R + {t}, s, fuel - 1) == missing;
    ResolveSoleService(env, Unnamed(t), t, R, s, fuel);
    assert ScopeResolve(env, Unnamed(t), R, s, fuel) == missing;
    assert [] + [Fallback(params[0])] == [Fallback(params[0])];
  }

  /**
   * What `BuildInstance` returns was made by `cls(*args)` with the arguments
   * the parameter loop collected (none without an `__init__`), and the state
   * only grew after them.
   */
  lemma BuiltFromArgs(env: Env, cls: TypeId, R: set<TypeId>, s: St, fuel: nat)
    ensures var out := BuildInstance(env, cls, R, s, fuel);
            var args := match TypeOf(env, cls).ctor
                        case None => Step(Ok([]), s)
                        case Some(params) => CtorArgsFrom(env, cls, params, 0, [], R, s, fuel);
            out.result.Ok? ==>
              && args.result.Ok?
              && out.st.objects[out.result.value.id].args == args.result.value
              && Grows(args.st, out.st)
  {
    var info := TypeOf(env, cls);
    var args := match info.ctor
                case None => Step(Ok([]), s)
                case Some(params) => CtorArgsFrom(env, cls, params, 0, [], R, s, fuel);
    if args.result.Err? {
      assert BuildInstance(env, cls, R, s, fuel) == Step(Err(args.result.error), args.st);
    } else {
      var made := Run(OfType(cls), info.raises, args.result.value, args.st);
      if made.result.Ok? {
        var v := made.result.value;
        var injected := InjectFrom(env, v.id, info.members, 0, R, made.st, fuel);
        InjectionGrows(args.st, args.st, made.st, injected.st, v.id);
        if injected.result.Ok? {
          assert BuildInstance(env, cls, R, s, fuel) == Step(Ok(v), injected.st);
        } else {
          assert BuildInstance(env, cls, R, s, fuel) == Step(Err(injected.result.error), injected.st);
        }
      } else {
        assert BuildInstance(env, cls, R, s, fuel) == Step(Err(made.result.error), made.st);
      }
    }
  }

  /**
   * The `try`/`except` around the first constructor parameter, seen from the
   * object `_create_instance` returns: when resolving the parameter's type
   * (with `cls` being built) succeeds, the first argument is the value
   * resolved; it is the fallback only when that resolution raised
   * `ServiceNotRegisteredException`.
   */
  lemma FirstArgRecovered(env: Env, cls: TypeId, R: set<TypeId>, s: St, fuel: nat)
    requires cls !in R
    requires TypeOf(env, cls).ctor.Some? && |TypeOf(env, cls).ctor.value| > 0
    requires TypeOf(env, cls).ctor.value[0].annotation.Annotated?
    ensures var out := CreateInstance(env, cls, R, s, fuel);
            var p := TypeOf(env, cls).ctor.value[0];
            var dep := ScopeResolve(env, Unnamed(p.annotation.dep), R + {cls}, s, fuel);
            out.result.Ok? ==>
              var args := out.st.objects[out.result.value.id].args;
              && |args| > 0
              && (dep.result.Ok? ==> args[0] == dep.result.value)
              && (dep.result.Err? ==> dep.result.error.NotRegistered? && (p.default.Some? || IsOptional(p)) && args[0] == Fallback(p))
  {
    var ps := TypeOf(env, cls).ctor.value;
    var p := ps[0];
    var R' := R + {cls};
    assert CreateInstance(env, cls, R, s, fuel) == BuildInstance(env, cls, R', s, fuel);
    BuiltFromArgs(env, cls, R', s, fuel);
    var args := CtorArgsFrom(env, cls, ps, 0, [], R', s, fuel);
    if p.annotation.dep in R' {
      assert args == Step(Err(CyclicDependency(p.annotation.dep)), s);
    } else {
      var dep := ScopeResolve(env, Unnamed(p.annotation.dep), R', s, fuel);
      var r := Recover(p, dep.result);
      if r.Err? {
        assert args == Step(Err(r.error), dep.st);
      } else {
        var rest := CtorArgsFrom(env, cls, ps, 1, [] + [r.value], R', dep.st, fuel);
        assert args == rest;
        if rest.result.Ok? {
          assert rest.result.value[..1] == [r.value];
          assert rest.result.value[0] == r.value;
        }
      }
    }
  }

  /**
   * The same for the first parameter of a factory: when resolving its type
   * succeeds, the factory's first argument is the value resolved; it is the
   * fallback only when that resolution raised `ServiceNotRegisteredException`.
   */
  lemma FactoryFirstArgRecovered(env: Env, f: FactoryId, R: set<TypeId>, s: St, fuel: nat)
    requires |FactoryOf(env, f).params| > 0 && FactoryOf(env, f).params[0].annotation.Annotated?
    ensures var out := InvokeFactory(env, f, R, s, fuel);
            var p := FactoryOf(env, f).params[0];
            var dep := ScopeResolve(env, Unnamed(p.annotation.dep), R, s, fuel);
            out.result.Ok? ==>
              var args := out.st.objects[out.result.value.id].args;
              && |args| > 0
              && (dep.result.Ok? ==> args[0] == dep.result.value)
              && (dep.result.Err? ==> dep.result.error.NotRegistered? && (p.default.Some? || IsOptional(p)) && args[0] == Fallback(p))
  {
    var info := FactoryOf(env, f);
    var ps := info.params;
    var p := ps[0];
    var args := FactoryArgsFrom(env, f, ps, 0, [], R, s, fuel);
    FactoryArgStep(env, f, ps, 0, [], R, s, fuel);
    var dep := ScopeResolve(env, Unnamed(p.annotation.dep), R, s, fuel);
    var r := Recover(p, dep.result);
    if args.result.Ok? {
      var made := Run(OfFactory(f), info.raises, args.result.value, args.st);
      assert InvokeFactory(env, f, R, s, fuel) == made;
      if r.Ok? {
        assert args == FactoryArgsFrom(env, f, ps, 1, [] + [r.value], R, dep.st, fuel);
        assert args.result.value[..1] == [r.value];
        assert args.result.value[0] == r.value;
      }
    }
  }

  /**
   * An optional constructor parameter gets a real instance once its type is
   * registered: with `iface` bound to a transient `impl` that takes no
   * arguments and injects nothing, resolving the transient `main`, whose
   * constructor takes an optional `iface`, builds an `impl` and then a
   * `main` called with it, not with the fallback.
   */
  lemma RegisteredOptionalSupplied(env: Env, main: TypeId, iface: TypeId, impl: TypeId, p: Param, s: St, fuel: nat)
    requires Registrations(env.registry, Unnamed(main)) == [Service(main, Transient)]
    requires Registrations(env.registry, Unnamed(iface)) == [Service(impl, Transient)]
    requires main != iface && main != impl
    requires TypeOf(env, main) == TypeInfo(Some([p]), [], None) && p.annotation == Annotated(iface, true)
    requires TypeOf(env, impl) == PlainType
    requires fuel >= 2
    ensures var out := ScopeResolve(env, Unnamed(main), {}, s, fuel);
            var n := |s.objects|;
            && out.result == Ok(Ref(n + 1))
            && BuiltWith(out.result.value, OfType(main), [Ref(n)], out.st.objects)
            && out.st.objects[n].origin == OfType(impl)
  {
    var n := |s.objects|;
    var R1: set<TypeId> := {} + {main};
    ResolveSoleService(env, Unnamed(main), main, {}, s, fuel);
    assert CreateInstance(env, main, {}, s, fuel - 1) == BuildInstance(env, main, R1, s, fuel - 1);
    ResolveSoleService(env, Unnamed(iface), impl, R1, s, fuel - 1);
    var s1 := s.(objects := s.objects + [Obj(OfType(impl), [], map[])]);
    assert InjectFrom(env, n, [], 0, R1 + {impl}, s1, fuel - 2) == Step(Ok(()), s1);
    assert BuildInstance(env, impl, R1 + {impl}, s, fuel - 2) == Step(Ok(Ref(n)), s1);
    assert CreateInstance(env, impl, R1, s, fuel - 2) == Step(Ok(Ref(n)), s1);
    assert ScopeResolve(env, Unnamed(iface), R1, s, fuel - 1) == Step(Ok(Ref(n)), s1);
    assert [] + [Ref(n)] == [Ref(n)];
    assert CtorArgsFrom(env, main, [p], 1, [Ref(n)], R1, s1, fuel - 1) == Step(Ok([Ref(n)]), s1);
    assert CtorArgsFrom(env, main, [p], 0, [], R1, s, fuel - 1) == Step(Ok([Ref(n)]), s1);
    var s2 := s1.(objects := s1.objects + [Obj(OfType(main), [Ref(n)], map[])]);
    assert InjectFrom(env, n + 1, [], 0, R1, s2, fuel - 1) == Step(Ok(()), s2);
    assert BuildInstance(env, main, R1, s, fuel - 1) == Step(Ok(Ref(n + 1)), s2);
  }
}
