/**
 * Which values the single-binding engine hands to user code, proved about
 * `DiModel`: the arguments a constructor is called with, and the values
 * property injection stores, are what resolving the declared types returns
 * (or None for an optional parameter whose type is not registered).
 */
module DiValues {
  import opened Common
  import opened DiModel
  import opened DiProperties

  /** Who builds what `_resolve_in_scope` builds for `key`: the service's implementation, else the factory. */
  function Builder(env: Env, key: Key): (owner: Option<Owner>)
    ensures owner.None? <==> key !in env.services && key !in env.factories
  {
    if key in env.services then Some(OfType(env.services[key].implementation))
    else if key in env.factories then Some(OfFactory(env.factories[key].factory))
    else None
  }

  /**
   * `v` is what `Scope.resolve(key)` returned, seen from the later state `s`:
   * the value cached under `key` in the singleton cache or in the scope, or,
   * for a transient key, an object built by the key's implementation or
   * factory.
   */
  ghost predicate Serves(env: Env, key: Key, v: Value, s: St)
  {
    || (key in s.singletons && s.singletons[key] == v)
    || (key in s.scoped && s.scoped[key] == v)
    || (&& ActiveLifestyle(env, key) == Some(Transient)
        && v.Ref? && v.id < |s.objects| && Some(s.objects[v.id].origin) == Builder(env, key))
  }

  /**
   * `v` is what `_create_instance` passes for parameter `p`: what resolving
   * `p`'s type returned, or None for an optional parameter.
   */
  ghost predicate ArgFor(env: Env, p: Param, v: Value, s: St)
  {
    && p.annotation.Annotated?
    && (Serves(env, Unnamed(p.annotation.dep), v, s) || (p.annotation.optional && v == NoneValue))
  }

  /**
   * `v` came out of one resolution of `p`'s type, run with resolving set `R`
   * in some state between `s0` and `s`: it is the value that resolution
   * returned, or None only when the resolution raised
   * `ServiceNotRegisteredException` for an optional parameter.
   */
  ghost predicate Received(env: Env, p: Param, v: Value, R: set<TypeId>, s0: St, s: St)
  {
    p.annotation.Annotated? ==>
      exists sk :: && Grows(s0, sk) && Grows(sk, s)
                   && RecoverOptional(p, ScopeResolve(env, Unnamed(p.annotation.dep), R, sk).result) == Ok(v)
  }

  /** What one annotated parameter's resolution hands over was received from it. */
  lemma ReceivedHead(env: Env, p: Param, R: set<TypeId>, s: St)
    requires p.annotation.Annotated?
    ensures var dep := ScopeResolve(env, Unnamed(p.annotation.dep), R, s);
            var r := RecoverOptional(p, dep.result);
            r.Ok? ==> Received(env, p, r.value, R, s, dep.st)
  {
    var dep := ScopeResolve(env, Unnamed(p.annotation.dep), R, s);
    assert Grows(s, s) && Grows(s, dep.st);
  }

  /** Received still holds over a wider window of states. */
  lemma ReceivedWithin(env: Env, p: Param, v: Value, R: set<TypeId>, s0: St, s: St, s0': St, s': St)
    requires Received(env, p, v, R, s0, s) && Grows(s0', s0) && Grows(s, s')
    ensures Received(env, p, v, R, s0', s')
  {
    if p.annotation.Annotated? {
      var sk :| && Grows(s0, sk) && Grows(sk, s)
                && RecoverOptional(p, ScopeResolve(env, Unnamed(p.annotation.dep), R, sk).result) == Ok(v);
      GrowsTransitive(s0', s0, sk);
      GrowsTransitive(sk, s, s');
    }
  }

  lemma GrowsTransitive(s1: St, s2: St, s3: St)
    requires Grows(s1, s2) && Grows(s2, s3)
    ensures Grows(s1, s3)
  {
  }

  lemma ServesGrows(env: Env, key: Key, v: Value, s: St, s': St)
    requires Serves(env, key, v, s) && Grows(s, s')
    ensures Serves(env, key, v, s')
  {
    if v.Ref? && v.id < |s.objects| {
      assert s'.objects[v.id] == s.objects[v.id];
    }
  }

  /** Writing fields of object `obj` changes nothing a resolved value depends on. */
  lemma ServesBeside(env: Env, key: Key, v: Value, s: St, s': St, obj: nat)
    requires Serves(env, key, v, s) && GrowsBeside(s, s', obj)
    ensures Serves(env, key, v, s')
  {
    if v.Ref? && v.id < |s.objects| && v.id != obj {
      assert s'.objects[v.id] == s.objects[v.id];
    }
  }

  /** A successful `Scope.resolve` returns what `key` serves, and it still does in the state it leaves. */
  lemma ResolveServes(env: Env, key: Key, R: set<TypeId>, s: St)
    ensures var out := ScopeResolve(env, key, R, s);
            out.result.Ok? ==> Serves(env, key, out.result.value, out.st)
  {
    if key !in s.scoped && key !in s.singletons {
      LifestyleCaching(env, key, R, s);
      LookupPriority(env, key, R, s);
    }
  }

  /**
   * Argument `v` for parameter `i`, put before arguments already matched
   * with parameters `i + 1` on, gives arguments matched from `i` on.
   */
  lemma ArgsPrepended(env: Env, params: seq<Param>, i: nat, acc: seq<Value>, v: Value, xs: seq<Value>, s1: St, s2: St)
    requires i < |params| && |xs| == |acc| + |params| - i && xs[..|acc| + 1] == acc + [v]
    requires ArgFor(env, params[i], v, s1) && Grows(s1, s2)
    requires forall k :: |acc + [v]| <= k < |xs| ==> ArgFor(env, params[k - |acc + [v]| + (i + 1)], xs[k], s2)
    ensures forall k :: |acc| <= k < |xs| ==> ArgFor(env, params[k - |acc| + i], xs[k], s2)
  {
    if Serves(env, Unnamed(params[i].annotation.dep), v, s1) {
      ServesGrows(env, Unnamed(params[i].annotation.dep), v, s1, s2);
    }
    forall k | |acc| <= k < |xs|
      ensures ArgFor(env, params[k - |acc| + i], xs[k], s2)
    {
      if k == |acc| {
        assert xs[k] == (acc + [v])[|acc|];
      } else {
        assert k - |acc + [v]| + (i + 1) == k - |acc| + i;
      }
    }
  }

  /** Received for argument `i`, put before arguments received for parameters `i + 1` on. */
  lemma ReceivedPrepended(env: Env, params: seq<Param>, i: nat, v: Value, xs: seq<Value>, R: set<TypeId>,
                          s: St, s1: St, s2: St)
    requires i < |xs| <= |params| && xs[i] == v
    requires Received(env, params[i], v, R, s, s1) && Grows(s, s1) && Grows(s1, s2)
    requires forall k :: i + 1 <= k < |xs| ==> Received(env, params[k], xs[k], R, s1, s2)
    ensures forall k :: i <= k < |xs| ==> Received(env, params[k], xs[k], R, s, s2)
  {
    forall k | i <= k < |xs|
      ensures Received(env, params[k], xs[k], R, s, s2)
    {
      if k == i {
        ReceivedWithin(env, params[i], v, R, s, s1, s, s2);
      } else {
        ReceivedWithin(env, params[k], xs[k], R, s1, s2, s, s2);
      }
    }
  }

  /** The parameter loop of `_create_instance`: argument `k` is an argument for parameter `k`. */
  lemma {:induction false} ArgsResolved(env: Env, cls: TypeId, params: seq<Param>, i: nat, acc: seq<Value>, R: set<TypeId>, s: St)
    requires i <= |params|
    ensures var out := ArgsFrom(env, cls, params, i, acc, R, s);
            out.result.Ok? ==> forall k :: |acc| <= k < |out.result.value| ==>
              ArgFor(env, params[k - |acc| + i], out.result.value[k], out.st)
    decreases |params| - i
  {
    if i == |params| {
      assert ArgsFrom(env, cls, params, i, acc, R, s) == Step(Ok(acc), s);
    } else {
      var p := params[i];
      if p.annotation.Unannotated? {
        assert ArgsFrom(env, cls, params, i, acc, R, s) == Step(Err(MissingTypeAnnotation(p.name, OfType(cls))), s);
      } else {
        var dep := ScopeResolve(env, Unnamed(p.annotation.dep), R, s);
        var r := RecoverOptional(p, dep.result);
        if r.Err? {
          assert ArgsFrom(env, cls, params, i, acc, R, s) == Step(Err(r.error), dep.st);
        } else {
          var v := r.value;
          ResolveServes(env, Unnamed(p.annotation.dep), R, s);
          var rest := ArgsFrom(env, cls, params, i + 1, acc + [v], R, dep.st);
          assert ArgsFrom(env, cls, params, i, acc, R, s) == rest;
          ArgsResolved(env, cls, params, i + 1, acc + [v], R, dep.st);
          if rest.result.Ok? {
            var xs := rest.result.value;
            assert forall k :: |acc + [v]| <= k < |xs| ==> ArgFor(env, params[k - |acc + [v]| + (i + 1)], xs[k], rest.st);
            ArgsPrepended(env, params, i, acc, v, rest.result.value, dep.st, rest.st);
          }
        }
      }
    }
  }

  /**
   * The parameter loop of `_create_instance`: argument `k` came out of the
   * resolution of parameter `k`'s type, None only where it raised
   * `ServiceNotRegisteredException` for an optional parameter.
   * The loop starts at the first parameter with no arguments, so one
   * argument has been collected per parameter before `i`.
   */
  lemma {:induction false} ArgsReceived(env: Env, cls: TypeId, params: seq<Param>, i: nat, acc: seq<Value>, R: set<TypeId>, s: St)
    requires i <= |params| && |acc| == i
    ensures var out := ArgsFrom(env, cls, params, i, acc, R, s);
            out.result.Ok? ==> forall k :: i <= k < |out.result.value| ==>
              Received(env, params[k], out.result.value[k], R, s, out.st)
    decreases |params| - i
  {
    if i == |params| {
      assert ArgsFrom(env, cls, params, i, acc, R, s) == Step(Ok(acc), s);
    } else {
      var p := params[i];
      if p.annotation.Unannotated? {
        assert ArgsFrom(env, cls, params, i, acc, R, s) == Step(Err(MissingTypeAnnotation(p.name, OfType(cls))), s);
      } else {
        var dep := ScopeResolve(env, Unnamed(p.annotation.dep), R, s);
        var r := RecoverOptional(p, dep.result);
        if r.Err? {
          assert ArgsFrom(env, cls, params, i, acc, R, s) == Step(Err(r.error), dep.st);
        } else {
          var v := r.value;
          ReceivedHead(env, p, R, s);
          var rest := ArgsFrom(env, cls, params, i + 1, acc + [v], R, dep.st);
          assert ArgsFrom(env, cls, params, i, acc, R, s) == rest;
          ArgsReceived(env, cls, params, i + 1, acc + [v], R, dep.st);
          if rest.result.Ok? {
            var xs := rest.result.value;
            assert xs[i] == xs[..|acc + [v]|][i];
            ReceivedPrepended(env, params, i, v, xs, R, s, dep.st, rest.st);
          }
        }
      }
    }
  }

  /**
   * `_create_instance` calls `cls(*args)` with one argument per constructor
   * parameter, in order, each what resolving the parameter's type returned,
   * or None for an optional one; a class without its own `__init__` gets
   * none.
   */
  lemma BuildArgs(env: Env, cls: TypeId, R: set<TypeId>, s: St)
    ensures var out := BuildInstance(env, cls, R, s);
            var ctor := TypeOf(env, cls).ctor;
            out.result.Ok? ==>
              var args := out.st.objects[out.result.value.id].args;
              && (ctor.None? ==> args == [])
              && (ctor.Some? ==>
                    && |args| == |ctor.value|
                    && (forall j :: 0 <= j < |args| ==> ArgFor(env, ctor.value[j], args[j], out.st))
                    && (forall j :: 0 <= j < |args| ==> Received(env, ctor.value[j], args[j], R, s, out.st)))
  {
    BuiltArgsResolved(env, cls, R, s);
    BuiltArgsReceived(env, cls, R, s);
  }

  /** The ArgFor half of BuildArgs. */
  lemma BuiltArgsResolved(env: Env, cls: TypeId, R: set<TypeId>, s: St)
    ensures var out := BuildInstance(env, cls, R, s);
            var ctor := TypeOf(env, cls).ctor;
            out.result.Ok? ==>
              var args := out.st.objects[out.result.value.id].args;
              && (ctor.None? ==> args == [])
              && (ctor.Some? ==>
                    && |args| == |ctor.value|
                    && (forall j :: 0 <= j < |args| ==> ArgFor(env, ctor.value[j], args[j], out.st)))
  {
    var info := TypeOf(env, cls);
    var out := BuildInstance(env, cls, R, s);
    BuiltFromArgs(env, cls, R, s);
    if out.result.Ok? && info.ctor.Some? {
      var ps := info.ctor.value;
      var acc0: seq<Value> := [];
      var args := ArgsFrom(env, cls, ps, 0, acc0, R, s);
      ArgsResolved(env, cls, ps, 0, acc0, R, s);
      var xs := args.result.value;
      forall j | 0 <= j < |xs|
        ensures ArgFor(env, ps[j], xs[j], out.st)
      {
        var p := ps[j];
        assert ArgFor(env, ps[j - |acc0| + 0], xs[j], args.st);
        if Serves(env, Unnamed(p.annotation.dep), xs[j], args.st) {
          ServesGrows(env, Unnamed(p.annotation.dep), xs[j], args.st, out.st);
        }
      }
    }
  }

  /** The Received half of BuildArgs. */
  lemma BuiltArgsReceived(env: Env, cls: TypeId, R: set<TypeId>, s: St)
    ensures var out := BuildInstance(env, cls, R, s);
            var ctor := TypeOf(env, cls).ctor;
            out.result.Ok? && ctor.Some? ==>
              var args := out.st.objects[out.result.value.id].args;
              forall j :: 0 <= j < |args| && j < |ctor.value| ==> Received(env, ctor.value[j], args[j], R, s, out.st)
  {
    var info := TypeOf(env, cls);
    var out := BuildInstance(env, cls, R, s);
    BuiltFromArgs(env, cls, R, s);
    if out.result.Ok? && info.ctor.Some? {
      var ps := info.ctor.value;
      ArgsReceivedAll(env, cls, ps, R, s, out.st);
    }
  }

  /** ArgsReceived from the first parameter, indexed by parameter and read in any later state `s'`. */
  lemma ArgsReceivedAll(env: Env, cls: TypeId, ps: seq<Param>, R: set<TypeId>, s: St, s': St)
    ensures var out := ArgsFrom(env, cls, ps, 0, [], R, s);
            out.result.Ok? && Grows(out.st, s') ==> forall j :: 0 <= j < |out.result.value| && j < |ps| ==>
              Received(env, ps[j], out.result.value[j], R, s, s')
  {
    var acc0: seq<Value> := [];
    var out := ArgsFrom(env, cls, ps, 0, acc0, R, s);
    ArgsReceived(env, cls, ps, 0, acc0, R, s);
    if out.result.Ok? && Grows(out.st, s') {
      ReceivedAllWithin(env, ps, out.result.value, R, s, out.st, s');
    }
  }

  /** Received for a whole argument list still holds in a later state. */
  lemma ReceivedAllWithin(env: Env, ps: seq<Param>, xs: seq<Value>, R: set<TypeId>, s0: St, s: St, s': St)
    requires |xs| <= |ps| && Grows(s, s')
    requires forall j :: 0 <= j < |xs| ==> Received(env, ps[j], xs[j], R, s0, s)
    ensures forall j :: 0 <= j < |xs| ==> Received(env, ps[j], xs[j], R, s0, s')
  {
    forall j | 0 <= j < |xs|
      ensures Received(env, ps[j], xs[j], R, s0, s')
    {
      ReceivedWithin(env, ps[j], xs[j], R, s0, s, s0, s');
    }
  }

  /**
   * The loop of `_inject_properties` on object `obj`: a field no member from
   * `i` on names keeps its value, and on success each injected member that no
   * later member overwrites holds what resolving its return type returned.
   */
  lemma {:induction false} InjectResolved(env: Env, obj: nat, members: seq<Member>, i: nat, R: set<TypeId>, s: St)
    requires obj < |s.objects| && i <= |members|
    ensures var out := InjectFrom(env, obj, members, i, R, s);
            var fields := out.st.objects[obj].fields;
            && (forall n :: n in s.objects[obj].fields && NotNamedFrom(members, i, n) ==>
                  fields[n] == s.objects[obj].fields[n])
            && (out.result.Ok? ==> forall j :: i <= j < |members| && Injects(members[j]) && NotNamedFrom(members, j + 1, members[j].name) ==>
                  Serves(env, Unnamed(members[j].returnType.value), fields[members[j].name], out.st))
    decreases |members| - i
  {
    if i == |members| {
      assert InjectFrom(env, obj, members, i, R, s) == Step(Ok(()), s);
    } else {
      var m := members[i];
      if !Injects(m) {
        assert InjectFrom(env, obj, members, i, R, s) == InjectFrom(env, obj, members, i + 1, R, s);
        InjectResolved(env, obj, members, i + 1, R, s);
      } else {
        var key := Unnamed(m.returnType.value);
        var dep := ScopeResolve(env, key, R, s);
        assert dep.st.objects[obj] == s.objects[obj];
        if dep.result.Err? {
          assert InjectFrom(env, obj, members, i, R, s) == Step(Err(dep.result.error), dep.st);
        } else {
          var v := dep.result.value;
          ResolveServes(env, key, R, s);
          var s' := dep.st.(objects := SetField(dep.st.objects, obj, m.name, v));
          var rest := InjectFrom(env, obj, members, i + 1, R, s');
          assert InjectFrom(env, obj, members, i, R, s) == rest;
          InjectResolved(env, obj, members, i + 1, R, s');
          ServesBeside(env, key, v, dep.st, s', obj);
          ServesBeside(env, key, v, s', rest.st, obj);
          InjectedHead(env, obj, members, i, v, s, s', rest.st, rest.result.Ok?);
        }
      }
    }
  }

  /** The step of InjectResolved that writes member `i`: the write survives, and untouched fields stay. */
  lemma InjectedHead(env: Env, obj: nat, members: seq<Member>, i: nat, v: Value, s: St, s': St, s'': St, ok: bool)
    requires i < |members| && Injects(members[i]) && obj < |s.objects| && obj < |s'.objects| && obj < |s''.objects|
    requires s'.objects[obj].fields == s.objects[obj].fields[members[i].name := v]
    requires forall n :: n in s'.objects[obj].fields && NotNamedFrom(members, i + 1, n) ==>
               n in s''.objects[obj].fields && s''.objects[obj].fields[n] == s'.objects[obj].fields[n]
    requires Serves(env, Unnamed(members[i].returnType.value), v, s'')
    requires ok ==> forall j :: i + 1 <= j < |members| && Injects(members[j]) && NotNamedFrom(members, j + 1, members[j].name) ==>
               members[j].name in s''.objects[obj].fields &&
               Serves(env, Unnamed(members[j].returnType.value), s''.objects[obj].fields[members[j].name], s'')
    ensures forall n :: n in s.objects[obj].fields && NotNamedFrom(members, i, n) ==>
              n in s''.objects[obj].fields && s''.objects[obj].fields[n] == s.objects[obj].fields[n]
    ensures ok ==> forall j :: i <= j < |members| && Injects(members[j]) && NotNamedFrom(members, j + 1, members[j].name) ==>
              members[j].name in s''.objects[obj].fields &&
              Serves(env, Unnamed(members[j].returnType.value), s''.objects[obj].fields[members[j].name], s'')
  {
    var name := members[i].name;
    forall n | n in s.objects[obj].fields && NotNamedFrom(members, i, n)
      ensures n in s''.objects[obj].fields && s''.objects[obj].fields[n] == s.objects[obj].fields[n]
    {
      assert members[i].name != n;
    }
    if ok {
      forall j | i <= j < |members| && Injects(members[j]) && NotNamedFrom(members, j + 1, members[j].name)
        ensures members[j].name in s''.objects[obj].fields
        ensures Serves(env, Unnamed(members[j].returnType.value), s''.objects[obj].fields[members[j].name], s'')
      {
        if j == i {
          assert name in s'.objects[obj].fields && NotNamedFrom(members, i + 1, name);
        }
      }
    }
  }

  /**
   * `_create_instance` on success: every injectable member that no later
   * member overwrites holds what resolving its return type returned.
   */
  lemma BuildFields(env: Env, cls: TypeId, R: set<TypeId>, s: St)
    ensures var out := BuildInstance(env, cls, R, s);
            var members := TypeOf(env, cls).members;
            out.result.Ok? ==>
              var fields := out.st.objects[out.result.value.id].fields;
              forall j :: 0 <= j < |members| && Injects(members[j]) && NotNamedFrom(members, j + 1, members[j].name) ==>
                Serves(env, Unnamed(members[j].returnType.value), fields[members[j].name], out.st)
  {
    var info := TypeOf(env, cls);
    var args := match info.ctor
                case None => Step(Ok([]), s)
                case Some(params) => ArgsFrom(env, cls, params, 0, [], R, s);
    if args.result.Ok? {
      var made := Run(OfType(cls), info.raises, args.result.value, args.st);
      if made.result.Ok? {
        var v := made.result.value;
        InjectResolved(env, v.id, info.members, 0, R, made.st);
        var injected := InjectFrom(env, v.id, info.members, 0, R, made.st);
        if injected.result.Ok? {
          assert BuildInstance(env, cls, R, s) == Step(Ok(v), injected.st);
        }
      }
    }
  }

  /**
   * The success side of PropertyNeeds: when `x()` builds a plain instance
   * whose first injectable member returns `y`, and no later member has the
   * same name, the instance built holds in that member what resolving `y`
   * (with `x` being built, right after `x()`) returned.
   */
  lemma PropertyInjected(env: Env, x: TypeId, y: TypeId, R: set<TypeId>, s: St)
    requires x !in R
    requires TypeOf(env, x).ctor.None? && TypeOf(env, x).raises.None? && |TypeOf(env, x).members| > 0
    requires Injects(TypeOf(env, x).members[0]) && TypeOf(env, x).members[0].returnType == Some(y)
    requires NotNamedFrom(TypeOf(env, x).members, 1, TypeOf(env, x).members[0].name)
    ensures var out := CreateInstance(env, x, R, s);
            var dep := ScopeResolve(env, Unnamed(y), R + {x}, AfterPlainBuild(x, s));
            var name := TypeOf(env, x).members[0].name;
            out.result.Ok? ==>
              && dep.result.Ok?
              && out.result.value == Ref(|s.objects|)
              && name in out.st.objects[|s.objects|].fields
              && out.st.objects[|s.objects|].fields[name] == dep.result.value
  {
    var members := TypeOf(env, x).members;
    var obj := |s.objects|;
    var s1 := AfterPlainBuild(x, s);
    var dep := ScopeResolve(env, Unnamed(y), R + {x}, s1);
    var injected := InjectFrom(env, obj, members, 0, R + {x}, s1);
    assert BuildInstance(env, x, R + {x}, s) ==
           match injected.result
           case Err(e) => Step(Err(e), injected.st)
           case Ok(_) => Step(Ok(Ref(obj)), injected.st);
    if dep.result.Err? {
      assert injected == Step(Err(dep.result.error), dep.st);
    } else {
      var v := dep.result.value;
      assert dep.st.objects[obj] == s1.objects[obj];
      var s' := dep.st.(objects := SetField(dep.st.objects, obj, members[0].name, v));
      assert injected == InjectFrom(env, obj, members, 1, R + {x}, s');
      InjectResolved(env, obj, members, 1, R + {x}, s');
    }
  }

  /**
   * A transient `Handler` whose constructor takes a `Logger`, itself bound as
   * a singleton: two handlers resolved one after the other are distinct
   * objects, both built with the one cached logger.
   */
  lemma SharedSingletonDependency(env: Env, handler: TypeId, logger: TypeId, p: Param, s: St)
    requires Unnamed(handler) in env.services && env.services[Unnamed(handler)] == Service(handler, Transient)
    requires Unnamed(logger) in env.services && env.services[Unnamed(logger)] == Service(logger, Singleton)
    requires TypeOf(env, handler).ctor == Some([p]) && p.annotation == Annotated(logger, false)
    requires Unnamed(handler) !in s.singletons
    ensures var first := Resolve(env, Unnamed(handler), {}, s);
            var second := Resolve(env, Unnamed(handler), {}, first.st);
            var lk := Unnamed(logger);
            first.result.Ok? && second.result.Ok? ==>
              && first.result.value != second.result.value
              && lk in second.st.singletons
              && BuiltWith(first.result.value, OfType(handler), [second.st.singletons[lk]], second.st.objects)
              && BuiltWith(second.result.value, OfType(handler), [second.st.singletons[lk]], second.st.objects)
  {
    var first := Resolve(env, Unnamed(handler), {}, s);
    HandlerBuilt(env, handler, logger, p, s);
    if first.result.Ok? {
      var second := Resolve(env, Unnamed(handler), {}, first.st);
      HandlerBuilt(env, handler, logger, p, first.st);
      if second.result.Ok? {
        assert second.st.objects[first.result.value.id] == first.st.objects[first.result.value.id];
      }
    }
  }

  /** `v` is an object of the store built by `owner` with arguments `args`. */
  ghost predicate BuiltWith(v: Value, owner: Owner, args: seq<Value>, objects: seq<Obj>)
  {
    v.Ref? && v.id < |objects| && objects[v.id].origin == owner && objects[v.id].args == args
  }

  /** One `resolve` of the handler in SharedSingletonDependency: a new object holding the cached logger. */
  lemma HandlerBuilt(env: Env, handler: TypeId, logger: TypeId, p: Param, s: St)
    requires Unnamed(handler) in env.services && env.services[Unnamed(handler)] == Service(handler, Transient)
    requires Unnamed(logger) in env.services && env.services[Unnamed(logger)] == Service(logger, Singleton)
    requires TypeOf(env, handler).ctor == Some([p]) && p.annotation == Annotated(logger, false)
    requires Unnamed(handler) !in s.singletons
    ensures var out := Resolve(env, Unnamed(handler), {}, s);
            var lk := Unnamed(logger);
            && Unnamed(handler) !in out.st.singletons
            && (out.result.Ok? ==>
                  && FreshIn(out.result.value, s, out.st)
                  && lk in out.st.singletons
                  && BuiltWith(out.result.value, OfType(handler), [out.st.singletons[lk]], out.st.objects))
  {
    var s0 := InFreshScope(s);
    var out := CreateInstance(env, handler, {}, s0);
    assert Resolve(env, Unnamed(handler), {}, s) == out;
    assert out == BuildInstance(env, handler, {} + {handler}, s0);
    BuiltArgsResolved(env, handler, {} + {handler}, s0);
    if out.result.Ok? {
      var args := out.st.objects[out.result.value.id].args;
      assert ArgFor(env, p, args[0], out.st);
      assert Unnamed(logger) !in out.st.scoped by {
        assert StoresByLifestyle(env, s0, out.st);
      }
      assert args == [args[0]];
    }
  }

  /**
   * None is not reserved for an unregistered parameter type: `except
   * ServiceNotRegisteredException` also catches the exception raised for a
   * missing dependency of a registered type `t`. Here `t`'s constructor
   * needs the unregistered `u`, so the optional parameter 0 receives None,
   * and nothing was built or cached.
   */
  lemma NestedUnregisteredGivesNone(env: Env, cls: TypeId, params: seq<Param>, t: TypeId, u: TypeId, q: Param,
                                    R: set<TypeId>, s: St)
    requires |params| > 0 && params[0].annotation == Annotated(t, true)
    requires Unnamed(t) in env.services && env.services[Unnamed(t)] == Service(t, Transient) && Uncached(Unnamed(t), s)
    requires TypeOf(env, t).ctor == Some([q]) && q.annotation == Annotated(u, false)
    requires Unnamed(u) !in env.services && Unnamed(u) !in env.factories && Uncached(Unnamed(u), s)
    requires t !in R
    ensures ArgsFrom(env, cls, params, 0, [], R, s) == ArgsFrom(env, cls, params, 1, [NoneValue], R, s)
  {
    var missing := Step(Err(NotRegistered(Unnamed(u))), s);
    assert ScopeResolve(env, Unnamed(u), R + {t}, s) == missing;
    assert ArgsFrom(env, t, [q], 0, [], R + {t}, s) == Step(Err(NotRegistered(Unnamed(u))), s);
    assert BuildInstance(env, t, R + {t}, s) == missing;
    ResolveFailingService(env, Unnamed(t), R, s);
    assert ScopeResolve(env, Unnamed(t), R, s) == missing;
    assert [] + [NoneValue] == [NoneValue];
  }

  /**
   * What `BuildInstance` returns was made by `cls(*args)` with the arguments
   * the parameter loop collected (none without an `__init__`), and the state
   * only grew after them.
   */
  lemma BuiltFromArgs(env: Env, cls: TypeId, R: set<TypeId>, s: St)
    ensures var out := BuildInstance(env, cls, R, s);
            var args := match TypeOf(env, cls).ctor
                        case None => Step(Ok([]), s)
                        case Some(params) => ArgsFrom(env, cls, params, 0, [], R, s);
            out.result.Ok? ==>
              && args.result.Ok?
              && out.st.objects[out.result.value.id].args == args.result.value
              && Grows(args.st, out.st)
  {
    var info := TypeOf(env, cls);
    var args := match info.ctor
                case None => Step(Ok([]), s)
                case Some(params) => ArgsFrom(env, cls, params, 0, [], R, s);
    if args.result.Err? {
      assert BuildInstance(env, cls, R, s) == Step(Err(args.result.error), args.st);
    } else {
      var made := Run(OfType(cls), info.raises, args.result.value, args.st);
      if made.result.Ok? {
        var v := made.result.value;
        var injected := InjectFrom(env, v.id, info.members, 0, R, made.st);
        InjectionGrows(args.st, args.st, made.st, injected.st, v.id);
        if injected.result.Ok? {
          assert BuildInstance(env, cls, R, s) == Step(Ok(v), injected.st);
        } else {
          assert BuildInstance(env, cls, R, s) == Step(Err(injected.result.error), injected.st);
        }
      } else {
        assert BuildInstance(env, cls, R, s) == Step(Err(made.result.error), made.st);
      }
    }
  }

  /**
   * The `try`/`except` around the first constructor parameter, seen from the
   * object `_create_instance` returns: when resolving the parameter's type
   * (with `cls` being built) succeeds, the first argument is the value
   * resolved; it is None only when that resolution raised
   * `ServiceNotRegisteredException` and the parameter is optional.
   */
  lemma FirstArgRecovered(env: Env, cls: TypeId, R: set<TypeId>, s: St)
    requires cls !in R
    requires TypeOf(env, cls).ctor.Some? && |TypeOf(env, cls).ctor.value| > 0
    requires TypeOf(env, cls).ctor.value[0].annotation.Annotated?
    ensures var out := CreateInstance(env, cls, R, s);
            var p := TypeOf(env, cls).ctor.value[0];
            var dep := ScopeResolve(env, Unnamed(p.annotation.dep), R + {cls}, s);
            out.result.Ok? ==>
              var args := out.st.objects[out.result.value.id].args;
              && |args| > 0
              && (dep.result.Ok? ==> args[0] == dep.result.value)
              && (dep.result.Err? ==> dep.result.error.NotRegistered? && p.annotation.optional && args[0] == NoneValue)
  {
    var ps := TypeOf(env, cls).ctor.value;
    var p := ps[0];
    var R' := R + {cls};
    assert CreateInstance(env, cls, R, s) == BuildInstance(env, cls, R', s);
    BuiltFromArgs(env, cls, R', s);
    var args := ArgsFrom(env, cls, ps, 0, [], R', s);
    var dep := ScopeResolve(env, Unnamed(p.annotation.dep), R', s);
    var r := RecoverOptional(p, dep.result);
    if r.Err? {
      assert args == Step(Err(r.error), dep.st);
    } else {
      var rest := ArgsFrom(env, cls, ps, 1, [] + [r.value], R', dep.st);
      assert args == rest;
      if rest.result.Ok? {
        assert rest.result.value[..1] == [r.value];
        assert rest.result.value[0] == r.value;
      }
    }
  }

  /**
   * An optional constructor parameter gets a real instance once its type is
   * registered: with `iface` bound to a transient `impl` that takes no
   * arguments and injects nothing, `resolve` of the transient `main`, whose
   * constructor takes an optional `iface`, builds an `impl` and then a
   * `main` called with it, not with None.
   */
  lemma RegisteredOptionalSupplied(env: Env, main: TypeId, iface: TypeId, impl: TypeId, p: Param, s: St)
    requires Unnamed(main) in env.services && env.services[Unnamed(main)] == Service(main, Transient)
    requires Unnamed(iface) in env.services && env.services[Unnamed(iface)] == Service(impl, Transient)
    requires Unnamed(main) !in s.singletons && Unnamed(iface) !in s.singletons
    requires main != impl
    requires TypeOf(env, main) == TypeInfo(Some([p]), [], None) && p.annotation == Annotated(iface, true)
    requires TypeOf(env, impl) == PlainType
    ensures var out := Resolve(env, Unnamed(main), {}, s);
            var n := |s.objects|;
            && out.result == Ok(Ref(n + 1))
            && BuiltWith(out.result.value, OfType(main), [Ref(n)], out.st.objects)
            && out.st.objects[n].origin == OfType(impl)
  {
    var n := |s.objects|;
    var s0 := InFreshScope(s);
    var R1: set<TypeId> := {} + {main};
    var s1 := s0.(objects := s0.objects + [Obj(OfType(impl), [], map[])]);
    assert InjectFrom(env, n, [], 0, R1 + {impl}, s1) == Step(Ok(()), s1);
    assert BuildInstance(env, impl, R1 + {impl}, s0) == Step(Ok(Ref(n)), s1);
    assert CreateInstance(env, impl, R1, s0) == Step(Ok(Ref(n)), s1);
    assert ScopeResolve(env, Unnamed(iface), R1, s0) == Step(Ok(Ref(n)), s1);
    assert [] + [Ref(n)] == [Ref(n)];
    assert ArgsFrom(env, main, [p], 1, [Ref(n)], R1, s1) == Step(Ok([Ref(n)]), s1);
    assert ArgsFrom(env, main, [p], 0, [], R1, s0) == Step(Ok([Ref(n)]), s1);
    var s2 := s1.(objects := s1.objects + [Obj(OfType(main), [Ref(n)], map[])]);
    assert InjectFrom(env, n + 1, [], 0, R1, s2) == Step(Ok(()), s2);
    assert BuildInstance(env, main, R1, s0) == Step(Ok(Ref(n + 1)), s2);
    assert CreateInstance(env, main, {}, s0) == Step(Ok(Ref(n + 1)), s2);
    assert Resolve(env, Unnamed(main), {}, s) == Step(Ok(Ref(n + 1)), s2);
  }
}
