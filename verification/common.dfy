/**
 * Vocabulary shared by both resolution engines: interface keys, the values an
 * engine hands out, the error taxonomy, lifestyles, and the descriptor tables
 * that stand in for Python's run-time reflection over constructors, factories
 * and `@inject`-marked members.
 */
module Common {

  datatype Option<+T> = None | Some(value: T)

  /** An interface or class identity (a Python type or the string used as an interface). */
  type TypeId = nat

  /** The identity of a factory callable. */
  type FactoryId = nat

  /** `(interface, name)`: the key every registration and lookup is made under. */
  datatype Key = Key(iface: TypeId, name: Option<string>)

  /** The key `scope.resolve(t)` looks up for a dependency of declared type `t`. */
  function Unnamed(t: TypeId): Key { Key(t, None) }

  /** Values the container passes around. */
  datatype Value =
    | Ref(id: nat)            // an object the container built: index into the object store
    | NoneValue               // Python's None
    | Literal(n: int)         // any other plain value (a default, a registered instance)
    | Callable(f: FactoryId)  // a callable object, usable as a factory
    | ContainerRef            // the container itself

  /** Whose code was running: a class's constructor or a factory. */
  datatype Owner = OfType(cls: TypeId) | OfFactory(factory: FactoryId)

  datatype Error =
    | NotRegistered(key: Key)                            // ServiceNotRegisteredException
    | CyclicDependency(cls: TypeId)                      // CyclicDependencyException
    | MissingTypeAnnotation(param: string, owner: Owner) // MissingTypeAnnotationException
    | InvalidLifestyle(lifestyle: string)                // InvalidLifestyleException
    | FactoryNotCallable                                 // ValueError("Factory must be callable")
    | RecursionLimit                                     // the interpreter's RecursionError
    | Raised(code: nat)                                  // any other exception raised by user code

  datatype Result<+T> = Ok(value: T) | Err(error: Error)

  /** The outcome of one step of resolution and the state it leaves behind. */
  datatype Step<+T, +S> = Step(result: Result<T>, st: S)

  datatype Lifestyle = Transient | Singleton | Scoped

  const TRANSIENT: string := "transient"
  const SINGLETON: string := "singleton"
  const SCOPED: string := "scoped"

  function LifestyleName(l: Lifestyle): string
  {
    match l
    case Transient => TRANSIENT
    case Singleton => SINGLETON
    case Scoped => SCOPED
  }

  /**
   * The registration-time lifestyle check: exactly the three lifestyle strings
   * are accepted, and each names its own lifestyle.
   */
  function ParseLifestyle(s: string): (r: Option<Lifestyle>)
    ensures r.None? <==> s != TRANSIENT && s != SINGLETON && s != SCOPED
    ensures r.Some? ==> LifestyleName(r.value) == s
  {
    if s == TRANSIENT then Some(Transient)
    else if s == SINGLETON then Some(Singleton)
    else if s == SCOPED then Some(Scoped)
    else None
  }

  /**
   * A parameter's declared type: none at all, or a dependency type together
   * with whether it was written `Optional[T]` / `T | None` (already unwrapped
   * to `T`; a bare `Optional` unwraps to the id standing for `Any`).
   */
  datatype Annotation = Unannotated | Annotated(dep: TypeId, optional: bool)

  /** A constructor or factory parameter, `self` excluded, in declaration order. */
  datatype Param = Param(name: string, annotation: Annotation, default: Option<Value>)

  /**
   * An `@inject`-marked member, in `dir()` order: its name, its declared return
   * type (if any), and whether `preset` by the constructor, which assigned that
   * name on the instance (it is then in the instance's `__dict__`).
   */
  datatype Member = Member(name: string, returnType: Option<TypeId>, preset: bool)

  /**
   * What reflection reveals about a class: its explicit `__init__` parameters
   * (None when it inherits `object.__init__`), its injectable members, and the
   * code of the exception its constructor body raises, if it raises one.
   */
  datatype TypeInfo = TypeInfo(ctor: Option<seq<Param>>, members: seq<Member>, raises: Option<nat>)

  /** What reflection reveals about a factory: its parameters and the exception its body raises, if any. */
  datatype FactoryInfo = FactoryInfo(params: seq<Param>, raises: Option<nat>)

  /** A class absent from the descriptor table: `object.__init__`, nothing to inject. */
  const PlainType := TypeInfo(None, [], None)

  /** A factory absent from the descriptor table: no parameters, returns normally. */
  const PlainFactory := FactoryInfo([], None)

  /** An object built by user code: who built it, with which arguments, and what was injected into it. */
  datatype Obj = Obj(origin: Owner, args: seq<Value>, fields: map<string, Value>)

  /**
   * User code, `cls(*args)` or `factory(*args)`: it raises its exception, or
   * yields a new object, appended to the store, that records who built it and
   * with which arguments.
   */
  function Construct(owner: Owner, raises: Option<nat>, args: seq<Value>, objects: seq<Obj>): (out: Step<Value, seq<Obj>>)
    ensures raises.Some? <==> out.result.Err?
    ensures raises.Some? ==> out == Step(Err(Raised(raises.value)), objects)
    ensures out.result.Ok? ==> out.result.value == Ref(|objects|) && out.st == objects + [Obj(owner, args, map[])]
  {
    if raises.Some? then Step(Err(Raised(raises.value)), objects)
    else Step(Ok(Ref(|objects|)), objects + [Obj(owner, args, map[])])
  }

  /** `m'` keeps every entry of `m`: a cache entry, once written, is never replaced or evicted. */
  ghost predicate Extends<K, V>(m: map<K, V>, m': map<K, V>)
  {
    forall k :: k in m ==> k in m' && m'[k] == m[k]
  }

  /** `setattr(instance, name, v)` on the object store. */
  function SetField(objects: seq<Obj>, id: nat, name: string, v: Value): (objects': seq<Obj>)
    requires id < |objects|
    ensures |objects'| == |objects|
    ensures objects'[id].origin == objects[id].origin && objects'[id].args == objects[id].args
    ensures objects'[id].fields == objects[id].fields[name := v]
    ensures forall j :: 0 <= j < |objects| && j != id ==> objects'[j] == objects[j]
  {
    objects[id := objects[id].(fields := objects[id].fields[name := v])]
  }

  /** `_inject_properties` sets member `m`: the constructor left it alone and it declares a return type. */
  predicate Injects(m: Member)
  {
    !m.preset && m.returnType.Some?
  }

  /** No member from position `i` on is named `name`, so injecting them never overwrites that field. */
  ghost predicate NotNamedFrom(members: seq<Member>, i: nat, name: string)
  {
    forall k :: i <= k < |members| ==> members[k].name != name
  }

  /**
   * Adding `x` to `done` never enlarges what is left of `universe`, and
   * shrinks it when `x` is a member of `universe` not yet done.
   */
  lemma AddShrinks<T>(universe: set<T>, done: set<T>, x: T)
    ensures |universe - (done + {x})| <= |universe - done|
    ensures x in universe && x !in done ==> |universe - (done + {x})| < |universe - done|
  {
    assert universe - (done + {x}) == (universe - done) - {x};
  }
}
