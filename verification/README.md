# Object resolution in the `injex` and `di` dependency-injection containers

The repository ships two containers with the same public surface: `register`,
`register_factory`, `add_instance`, `resolve`, `create_scope`. Each container
builds objects by reading constructor type hints, and it caches them by
lifestyle: `transient`, `singleton` or `scoped`. Both detect dependency cycles
through a set of classes currently being built, and both inject dependencies
into methods marked `@inject`.

- `injex/__init__.py` is the **multi-binding** engine. Every registration
  under a `(interface, name)` key is kept in a list. `resolve_all` builds one
  instance per registration. `resolve` builds them all and returns the first.
  Caches are keyed by `(key, registration)`.
- `di/__init__.py` is the **single-binding** engine. A key has at most one
  service entry and one factory entry, and the last registration wins. Caches
  are keyed by `(interface, name)`. The lookup order is singleton cache,
  scope cache, service entry, factory entry.

## How the model is built

Each engine is modelled in four files:

- **A specification module** (`InjexModel`, `DiModel`) holds one
  state-passing function per Python function and per `for` loop. Each
  function returns a `Step(result, state)`, and the set of classes being
  resolved is a parameter `R`.
- **An imperative module** (`Injex`, `Di`) holds the `Container` and `Scope`
  classes. Their fields are the Python attributes, updated in place. Every
  method is proved to leave exactly the outcome and state that its
  specification function computes.
- **A properties module** (`InjexProperties`, `DiProperties`) holds the
  lemmas that state what the engine promises.
- **A values module** (`InjexValues`, `DiValues`) states which values reach
  user code: the arguments each constructor and factory is called with, and
  the values property injection stores.

`Common` holds what the two engines share: keys, values, errors, lifestyles,
reflection descriptors and the object store.

Some parts of Python become explicit data:

- **Reflection becomes descriptor tables.** A class is a `TypeInfo`:
  - its constructor parameters (`None` when it inherits `object.__init__`);
  - its `@inject` members in `dir()` order, each with its return type and
    whether the instance already set that name;
  - whether its body raises.

  A factory is a `FactoryInfo` with its parameters and whether it raises.
- **Objects live in a store.** A constructor or factory call that does not
  raise appends a new `Obj` to `objects`, recording its origin and arguments.
  The call returns `Ref(index)`. Property injection writes the object's
  fields.
- **Exceptions are `Err` results**, with the container's exceptions named by
  `Error`. A `try/finally` is a function that removes the class from `R` on
  both paths.
- **Python's recursion limit** bounds `injex`'s resolution depth as `fuel`.
  Each `Scope.resolve` frame costs one unit, and running out is the error
  `RecursionLimit`. `di` needs no fuel: every nested resolution adds a
  registered class to the resolving set, so `|Classes(env) - R|` decreases.

## Model

| member | source | states |
|---|---|---|
| Common.ParseLifestyle | injex/__init__.py:127-132 | rejects exactly the strings other than `transient`, `singleton` and `scoped`; an accepted string is the name of the lifestyle parsed |
| Common.Construct | injex/__init__.py:350 | a constructor or factory call raises its own exception exactly when its descriptor says so, leaving the store unchanged; otherwise it returns a new object appended to the store with the given origin and arguments |
| Common.SetField | injex/__init__.py:302 | `setattr` on one object changes only that object's named field |
| Common.AddShrinks | di/__init__.py:256 | adding a registered class not yet being resolved to the resolving set shrinks the set of classes still free to resolve |
| InjexModel.Append | injex/__init__.py:141 | `setdefault(key, []).append` lengthens only the key's list, by the new registration at its end; every list keeps its old entries as a prefix |
| InjexModel.ServiceRegistration | injex/__init__.py:120-141 | `register` raises `InvalidLifestyleException` exactly for an unknown lifestyle; otherwise the registration is a service whose implementation defaults to the interface |
| InjexModel.FactoryRegistration | injex/__init__.py:143-162 | `register_factory` succeeds exactly for a callable factory with a known lifestyle, refusing a non-callable first; the registration holds the factory |
| InjexModel.ScopeResolve | injex/__init__.py:79-86 | `Scope.resolve` only grows the store and the caches, keeps every cache entry a product of its registration, and raises `ServiceNotRegisteredException` only for a key with no registration |
| InjexModel.ResolveInScope | injex/__init__.py:188-197 | one instance per registration of the key, with the same growth and cache guarantees |
| InjexModel.CollectFrom | injex/__init__.py:193-196 | the loop keeps what was collected so far as a prefix and adds one instance per remaining registration |
| InjexModel.GetInstance | injex/__init__.py:199-224 | serving a registration (from its instance, a cache or a build) keeps the caches well formed and only grows the state |
| InjexModel.CreateFromRegistration | injex/__init__.py:226-242 | a service or factory registration yields a new object that its class or factory built |
| InjexModel.Run | injex/__init__.py:350 | calling user code never touches the caches |
| InjexModel.Recover | injex/__init__.py:269-278 | only `ServiceNotRegisteredException` is recovered from: by the parameter's default, else by None for an optional parameter; every other error passes unchanged |
| InjexModel.InvokeFactory | injex/__init__.py:244-279 | a successful `_invoke_factory` returns a new object made by that factory; its arguments are stated by `InjexValues.InvokeFactoryArgs` |
| InjexModel.FactoryArgsFrom | injex/__init__.py:247-278 | the loop keeps the arguments already collected as a prefix and adds one per remaining factory parameter; which value each one is, is stated by `InjexValues.FactoryArgsResolved` |
| InjexModel.CreateInstance | injex/__init__.py:304-354 | a class already being resolved raises `CyclicDependencyException` for it with nothing changed; a success is a new object of that class |
| InjexModel.BuildInstance | injex/__init__.py:310-352 | a successful `try` body returns a new object of the class, only growing the state and keeping the caches well formed; its arguments and fields are stated by `InjexValues.BuildArgs` and `InjexValues.BuildFields` |
| InjexModel.CtorArgsFrom | injex/__init__.py:316-349 | the loop keeps the arguments already collected as a prefix, adds one per remaining constructor parameter, and succeeds only when every parameter is annotated; the values are stated by `InjexValues.CtorArgsResolved` |
| InjexModel.InjectFrom | injex/__init__.py:281-302 | changes only the object injected into (and what resolving its members builds); on success every non-preset member with a return type has been set, to the value stated by `InjexValues.InjectResolved` |
| InjexModel.FieldWriteKeepsCache | injex/__init__.py:302 | `setattr` on the object being injected into changes no other object and keeps the caches well formed |
| InjexModel.GrowsBesideAfter | injex/__init__.py:297-302 | resolving a member's dependency and then setting it changes only the object injected into |
| InjexModel.NewObjectKeepsCache | injex/__init__.py:350 | appending an object keeps the caches well formed |
| InjexModel.InjectionGrows | injex/__init__.py:351 | injecting into a newly built object leaves every older object untouched |
| Injex.Scope.constructor | injex/__init__.py:75-77 | a new scope has an empty cache |
| Injex.Scope.Resolve | injex/__init__.py:79-86 | `Scope.resolve` leaves exactly the outcome and state of `ScopeResolve` |
| Injex.Scope.ResolveAll | injex/__init__.py:88-91 | `Scope.resolve_all` leaves exactly the outcome and state of `ResolveInScope` |
| Injex.Container.constructor | injex/__init__.py:113-118 | a new container has no registrations, no singletons and nothing being resolved |
| Injex.Container.Register | injex/__init__.py:120-141 | `register` appends the registration `ServiceRegistration` builds, or raises its error with the registry unchanged |
| Injex.Container.RegisterFactory | injex/__init__.py:143-162 | `register_factory` appends the factory registration, or raises with the registry unchanged |
| Injex.Container.AddInstance | injex/__init__.py:164-173 | `add_instance` appends an instance registration |
| Injex.Container.CreateScope | injex/__init__.py:185-186 | a new, empty scope of this container |
| Injex.Container.Resolve | injex/__init__.py:175-177 | `resolve` is `Scope.resolve` in a new scope |
| Injex.Container.ResolveAll | injex/__init__.py:179-183 | `resolve_all` is `Scope.resolve_all` in a new scope |
| Injex.Container.ResolveInScope | injex/__init__.py:188-197 | the loop leaves exactly the outcome and state of `ResolveInScope` |
| Injex.Container.GetInstance | injex/__init__.py:199-224 | matches `GetInstance` |
| Injex.Container.CreateFromRegistration | injex/__init__.py:226-242 | matches `CreateFromRegistration` |
| Injex.Container.InvokeFactory | injex/__init__.py:244-279 | the loop over factory parameters matches `InvokeFactory` |
| Injex.Container.CreateInstance | injex/__init__.py:304-354 | the cycle check and the `try/finally` match `CreateInstance`, and the resolving set is restored |
| Injex.Container.BuildInstance | injex/__init__.py:310-352 | the loop over constructor parameters matches `BuildInstance` |
| Injex.Container.InjectProperties | injex/__init__.py:281-302 | the loop over injectable members matches `InjectFrom` |
| InjexProperties.YieldsGrows | injex/__init__.py:199-224 | what a registration yielded stays yielded as the state grows |
| InjexProperties.GetInstanceYields | injex/__init__.py:199-224 | a registration yields its bound instance or a product of its class or factory, and a singleton or scoped one is cached under `(key, registration)` |
| InjexProperties.InstanceVerbatim | injex/__init__.py:205-207 | an instance binding is returned as bound, with no state change |
| InjexProperties.UncachedIsFresh | injex/__init__.py:211-224 | a registration not yet cached is built afresh |
| InjexProperties.CollectFromYields | injex/__init__.py:193-196 | the `j`-th collected instance is what the `j`-th registration yields |
| InjexProperties.ResolveAllPerRegistration | injex/__init__.py:179-197 | `resolve_all` returns one instance per registration in registration order, caches every singleton and scoped one, and returns `[]` for an unregistered key |
| InjexProperties.ResolveIsFirstOfAll | injex/__init__.py:79-86 | `resolve` raises `ServiceNotRegisteredException` exactly when the key has no registration, and otherwise returns the first of everything `resolve_all` builds, in the same final state |
| InjexProperties.ResolveCachesEveryRegistration | injex/__init__.py:80 | resolving a key builds and caches every singleton and scoped registration under it, not only the first |
| InjexProperties.ResolveYieldsFirst | injex/__init__.py:79-86 | a successful `resolve` returns exactly what the first registration under the key yields |
| InjexProperties.ResolveCachedFirst | injex/__init__.py:211-219 | a cached first registration is returned from the cache |
| InjexProperties.ResolveUncachedFirst | injex/__init__.py:214-221 | an uncached first registration is built afresh |
| InjexProperties.SingletonSameAcrossScopes | injex/__init__.py:211-216 | a singleton resolves to the same object in every later scope |
| InjexProperties.ScopedSameWithinScope | injex/__init__.py:217-222 | a scoped registration resolves to one object within a scope |
| InjexProperties.FreshAcrossResolutions | injex/__init__.py:217-224 | a scoped registration in a new scope, and a transient one every time, resolve to distinct objects |
| InjexProperties.TransientNeverCached | injex/__init__.py:223-224 | a transient registration is never cached |
| InjexProperties.AppendKeepsCacheWF | injex/__init__.py:141 | registering after resolving keeps every cache entry attached to its own registration |
| InjexProperties.ResolveSoleService | injex/__init__.py:226-230 | resolving a key bound only to a transient service is `_create_instance` of that class: the same new object or the same error, in the same final state |
| InjexProperties.TwoHopCycle | injex/__init__.py:337-338 | two classes whose constructors need each other raise `CyclicDependencyException`, with nothing built |
| InjexProperties.UnannotatedConstructorParameter | injex/__init__.py:334-335 | an unannotated constructor parameter raises `MissingTypeAnnotationException` naming the parameter and the class |
| InjexProperties.UnregisteredConstructorParameter | injex/__init__.py:340-348 | a parameter whose type has no registration gets its default, else None when optional; otherwise the error propagates |
| InjexProperties.ResolveAllPerRegistrationEmpty | injex/__init__.py:192-197 | `resolve_all` of an unregistered key is `[]`, with no state change |
| InjexProperties.PropertyInjectionOutcomes | injex/__init__.py:281-302 | a preset member is skipped; a return type being resolved raises `CyclicDependencyException`; an unregistered one raises `ServiceNotRegisteredException` with no fallback |
| InjexValues.ResolveResolvesTo | injex/__init__.py:79-86 | a successful `Scope.resolve` returns what the key's first registration yields, and it still yields it in the state left behind |
| InjexValues.RecoveredArg | injex/__init__.py:340-348 | for one parameter type's resolution, the `except` keeps a successful result unchanged (a value the key's first registration yields); it substitutes the default, or None for an optional parameter, only for `ServiceNotRegisteredException`; any other error is re-raised |
| InjexValues.CtorArgsResolved | injex/__init__.py:316-349 | each argument the constructor loop collects is an argument for its parameter, in order: a value the parameter type's registration yields, or its default, or None when optional (`ArgFor`); which of these it is, is fixed by `InjexValues.CtorArgsReceived` |
| InjexValues.CtorArgsReceived | injex/__init__.py:316-349 | each argument the constructor loop collects is what the `try`/`except` made of one resolution of its parameter's type in a state the loop passed through: the resolved value when it succeeded, the fallback only when it raised `ServiceNotRegisteredException` (`Received`) |
| InjexValues.FirstArgRecovered | injex/__init__.py:316-350 | for the object `_create_instance` returns: when resolving the first parameter's type succeeds, the first argument is exactly the resolved value; when it fails, the error was `ServiceNotRegisteredException`, the parameter has a default or is optional, and the first argument is that fallback |
| InjexValues.RegisteredOptionalSupplied | injex/__init__.py:316-350 | with an optional parameter's type bound to a transient class, resolving the transient class that needs it builds that class first and passes the new instance, not None |
| InjexValues.FactoryArgsResolved | injex/__init__.py:247-278 | each argument the factory loop collects is an argument for its parameter, in order: the container for an unannotated parameter (which must be named `container`), else a value its type's registration yields, or its fallback; which of these it is, is fixed by `InjexValues.FactoryArgsReceived` |
| InjexValues.FactoryArgsReceived | injex/__init__.py:247-278 | each argument the factory loop collects for an annotated parameter is what the `try`/`except` made of one resolution of its type: the resolved value when it succeeded, the fallback only on `ServiceNotRegisteredException` |
| InjexValues.FactoryFirstArgRecovered | injex/__init__.py:269-278 | for the object `_invoke_factory` returns: when resolving the first parameter's type succeeds, the first argument is exactly the resolved value; otherwise the error was `ServiceNotRegisteredException` and the argument is the fallback |
| InjexValues.FactoryArgsAll | injex/__init__.py:247-278 | a successful factory loop yields exactly one argument per factory parameter, each an argument for it and, when annotated, received from the resolution of its type as above |
| InjexValues.InvokeFactoryArgs | injex/__init__.py:244-279 | the object `_invoke_factory` returns was made with exactly one argument per factory parameter, in order: the container for `container`, else the value resolving the parameter's type returned, the fallback only when that resolution raised `ServiceNotRegisteredException` |
| InjexValues.BuildArgs | injex/__init__.py:310-352 | the object `_create_instance` returns was made with no arguments when the class has no `__init__`, else with exactly one per constructor parameter, in order, each the value resolving its type returned, the fallback only when that resolution raised `ServiceNotRegisteredException` |
| InjexValues.InjectResolved | injex/__init__.py:281-302 | the injection loop leaves alone every field no remaining member names; on success the field of each injected member holds what resolving its return type returned, unless a later member has the same name |
| InjexValues.BuildFields | injex/__init__.py:310-352 | the object `_create_instance` returns holds, in the field of each injected member, what resolving the member's return type returned |
| InjexValues.SharedSingletonDependency | injex/__init__.py:211-224 | two transient handlers resolved in successive scopes are distinct objects, both built with the one cached singleton logger |
| InjexValues.HandlerBuilt | injex/__init__.py:304-352 | one such resolution builds a new handler whose only argument is the cached logger |
| InjexValues.NestedUnregisteredFallsBack | injex/__init__.py:340-348 | a registered parameter type whose own dependency is unregistered also gets the fallback, because the `except` catches the nested exception; nothing is built |
| DiModel.ServiceEntry | di/__init__.py:94-110 | `register` raises `InvalidLifestyleException` exactly for an unknown lifestyle; otherwise the entry's implementation defaults to the interface |
| DiModel.FactoryEntryFor | di/__init__.py:112-128 | `register_factory` succeeds exactly for a callable factory with a known lifestyle, refusing a non-callable first; the entry holds the factory and its lifestyle |
| DiModel.Run | di/__init__.py:228 | calling user code never touches the caches |
| DiModel.Resolve | di/__init__.py:130-142 | `resolve` only grows the store and the singleton cache, adds only singleton-lifestyle keys, and raises `ServiceNotRegisteredException` for the key exactly when it is neither cached nor registered |
| DiModel.ScopeResolve | di/__init__.py:72-77 | `Scope.resolve` only grows the state, caches each key by its lifestyle, and raises `ServiceNotRegisteredException` only for unregistered keys |
| DiModel.ResolveInScope | di/__init__.py:209-237 | the same guarantees, and a key in neither cache is served by a new object |
| DiModel.Remember | di/__init__.py:232-237 | a built instance is stored in the singleton or the scope cache according to the lifestyle, and a transient one nowhere; errors pass unchanged |
| DiModel.CreateInstance | di/__init__.py:252-297 | a class already being resolved raises `CyclicDependencyException` for it with nothing changed; a success is a new object of that class |
| DiModel.BuildInstance | di/__init__.py:257-295 | a successful `try` body returns a new object of the class, only growing the state and caching by lifestyle; its arguments and fields are stated by `DiValues.BuildArgs` and `DiValues.BuildFields` |
| DiModel.RecoverOptional | di/__init__.py:287-291 | `ServiceNotRegisteredException` becomes None exactly for an optional parameter; defaults play no part |
| DiModel.ArgsFrom | di/__init__.py:264-292 | the loop keeps the arguments already collected as a prefix, adds one per remaining constructor parameter, and succeeds only when every parameter is annotated; the values are stated by `DiValues.ArgsResolved` |
| DiModel.InjectFrom | di/__init__.py:239-250 | changes only the object injected into (and what resolving builds); on success every non-preset member with a return type has been set, to the value stated by `DiValues.InjectResolved` |
| DiModel.InjectionGrows | di/__init__.py:294 | injecting into a newly built object leaves every older object untouched |
| Di.Scope.constructor | di/__init__.py:68-70 | a new scope has an empty cache |
| Di.Scope.Resolve | di/__init__.py:72-77 | the scope cache first, then `_resolve_in_scope`; matches `ScopeResolve` |
| Di.Container.constructor | di/__init__.py:88-92 | a new container has no entries, no singletons and nothing being resolved |
| Di.Container.Register | di/__init__.py:94-110 | `register` overwrites the key's service entry with what `ServiceEntry` builds, or raises with nothing changed |
| Di.Container.RegisterFactory | di/__init__.py:112-128 | `register_factory` overwrites the key's factory entry, or raises with nothing changed |
| Di.Container.AddInstance | di/__init__.py:203-207 | `add_instance` writes the singleton cache directly |
| Di.Container.CreateScope | di/__init__.py:144-145 | a new, empty scope of this container |
| Di.Container.Resolve | di/__init__.py:130-142 | matches `Resolve`: the singleton cache, the registration check, then a new scope |
| Di.Container.ResolveInScope | di/__init__.py:209-237 | matches `ResolveInScope` |
| Di.Container.CreateInstance | di/__init__.py:252-297 | the cycle check and the `try/finally` match `CreateInstance`, and the resolving set is restored |
| Di.Container.BuildInstance | di/__init__.py:257-295 | the loop over constructor parameters matches `BuildInstance` |
| Di.Container.InjectProperties | di/__init__.py:239-250 | the loop over injectable members matches `InjectFrom` |
| DiProperties.SingletonCacheFirst | di/__init__.py:132-133 | a cached singleton, including one written by `add_instance`, wins over any registration made later |
| DiProperties.LookupPriority | di/__init__.py:219-230 | for an uncached key, a service entry shadows a factory entry; a factory is called with the container as its only argument; a key with neither raises `ServiceNotRegisteredException` with nothing changed |
| DiProperties.LifestyleCaching | di/__init__.py:232-237 | a singleton is cached in the container, a scoped instance in the scope, and a transient one nowhere |
| DiProperties.SingletonSameEveryResolve | tests/test_container.py:118-122 | every later `resolve` of a singleton returns the same object |
| DiProperties.ScopedSameWithinScope | tests/test_container.py:248-269 | a scoped key resolves to one object within a scope |
| DiProperties.UncachedBuildsAfresh | di/__init__.py:219-222 | resolving an uncached key yields an object distinct from every object built before |
| DiProperties.ScopedDistinctAcrossScopes | tests/test_container.py:248-269 | a scoped key resolved in a new scope yields a different object |
| DiProperties.TransientDistinct | tests/test_container.py:124-128 | two `resolve` calls of a transient key yield distinct objects, and the key is never cached |
| DiProperties.ResolveFailingService | di/__init__.py:219-223 | a failing build of an uncached service is the failure of resolving its key |
| DiProperties.ConstructorNeeds | di/__init__.py:285-291 | a failure building a constructor's first dependency is the failure building the class, with the same error and final state, except `ServiceNotRegisteredException` for an optional parameter |
| DiProperties.TwoHopCycle | tests/test_container.py:102-107 | two classes whose constructors need each other raise `CyclicDependencyException`, with nothing built or cached |
| DiProperties.ThreeHopCycle | tests/test_container.py:305-312 | a three-class constructor ring raises `CyclicDependencyException`, with nothing built or cached |
| DiProperties.PropertyNeeds | di/__init__.py:248-250 | a failure resolving an injected member's type is the failure building the class |
| DiProperties.PropertyInjectionCycle | tests/test_container.py:408-414 | two classes whose `@inject` members return each other raise `CyclicDependencyException` |
| DiProperties.UnannotatedConstructorParameter | tests/test_container.py:109-116 | an unannotated constructor parameter raises `MissingTypeAnnotationException` naming the parameter and the class |
| DiProperties.UnregisteredConstructorParameter | di/__init__.py:285-291 | an unregistered optional parameter gets None; a non-optional one raises `ServiceNotRegisteredException` even when it declares a default |
| DiProperties.PropertyInjectionOutcomes | tests/test_container.py:397-406 | a preset member is skipped, and an unregistered return type raises `ServiceNotRegisteredException` |
| DiValues.Builder | di/__init__.py:219-230 | a key has a builder exactly when it has a service entry or a factory entry |
| DiValues.ResolveServes | di/__init__.py:72-77 | a successful `Scope.resolve` returns the key's singleton or scoped cached instance, or, for a transient key, an object built by its implementation or factory |
| DiValues.ArgsResolved | di/__init__.py:264-292 | each argument the constructor loop collects is an argument for its parameter, in order: a value the parameter type serves, or None for an optional parameter (`ArgFor`); which of these it is, is fixed by `DiValues.ArgsReceived` |
| DiValues.ArgsReceived | di/__init__.py:264-292 | each argument the constructor loop collects is what the `try`/`except` made of one resolution of its parameter's type in a state the loop passed through: the resolved value when it succeeded, None only when it raised `ServiceNotRegisteredException` for an optional parameter (`Received`) |
| DiValues.FirstArgRecovered | di/__init__.py:264-293 | for the object `_create_instance` returns: when resolving the first parameter's type succeeds, the first argument is exactly the resolved value; when it fails, the error was `ServiceNotRegisteredException`, the parameter is optional and the first argument is None |
| DiValues.RegisteredOptionalSupplied | tests/test_container.py:189-218 | once the optional service's interface is registered to a transient implementation, resolving the main service builds the implementation and passes it, not None |
| DiValues.BuildArgs | di/__init__.py:257-295 | the object `_create_instance` returns was made with no arguments when the class has no `__init__`, else with exactly one per constructor parameter, in order, each the value resolving its type returned, None only when that resolution raised `ServiceNotRegisteredException` for an optional parameter |
| DiValues.InjectResolved | di/__init__.py:239-250 | the injection loop leaves alone every field no remaining member names; on success the field of each injected member holds what resolving its return type returned, unless a later member has the same name |
| DiValues.BuildFields | di/__init__.py:257-295 | the object `_create_instance` returns holds, in the field of each injected member, what resolving the member's return type returned |
| DiValues.PropertyInjected | di/__init__.py:239-250 | the success side of `PropertyNeeds`: the new instance holds in its injected member exactly what resolving the member's return type returned |
| DiValues.SharedSingletonDependency | tests/test_container.py:314-342 | two transient handlers resolved one after the other are distinct objects, both built with the one singleton logger |
| DiValues.HandlerBuilt | di/__init__.py:252-297 | one such resolution builds a new handler whose only argument is the cached logger |
| DiValues.NestedUnregisteredGivesNone | di/__init__.py:285-291 | a registered parameter type whose own dependency is unregistered also gives None for an optional parameter, because the `except` catches the nested exception; nothing is built |

## Left out

- **Reflection** (`inspect.signature`, `get_type_hints`, `dir`, `callable`) is replaced by the descriptor tables described above. The unwrapping of `Optional[...]` into a type and an `optional` flag is assumed already done.
- **User code** in constructors and factories is a descriptor: it either raises its own exception (`Raised(code)`) or returns a new object. It never raises one of the container's exceptions, and it never calls back into the container. A factory that resolves services itself, as `factory(self)` in `di` allows, is not modelled.
- **Keyword and variadic parameters** (`*args`, `**kwargs`) of factories and constructors are not modelled; every parameter is positional.
- **Exception messages** are not modelled; an error carries only the data that identifies it.
- **The `add_singleton`, `add_transient`, `add_scoped` and `add_*_factory` shortcuts** (injex/__init__.py:356-411, di/__init__.py:147-201) are not modelled separately: each is `register` or `register_factory` with a fixed lifestyle.
- **The `inject` marker and `is_injectable`** are not modelled as functions: a class descriptor lists its marked members.
- **The `ValueError` branches of `_create_instance_from_registration`** (injex/__init__.py:231-242) are not modelled. The service branch is reachable only through `register(None)`, whose implementation defaults to the `None` interface (lines 133-134). The factory branch cannot be reached, because `register_factory` refuses a non-callable. The kind branch cannot be reached either. The model's registrations always name a class or a factory.
- **Preset members in `di`**: `di/__init__.py:239-250` has no explicit skip. A member the constructor assigned shadows the marked method, so `getattr` no longer finds the marker, and the model skips it like `injex` does. A constructor that assigns another `@inject`-marked function is not modelled.
- **Concurrency** is out of scope; both containers are single-threaded.
- **Python's recursion limit** is modelled as `fuel` in `injex`. Running out is `RecursionLimit`, which stands in for `RecursionError`; its exact depth is a parameter.
- DiModel.CreateInstance: the `RecursionError` Python raises on an acyclic dependency chain deeper than its recursion limit is not modelled; `di` resolution terminates through the shrinking set of free registered classes, so the model succeeds where a very deep chain would raise. The same holds for `DiModel.ArgsFrom` and `DiModel.InjectFrom`.
- InjexValues.CtorArgsReceived: like `InjexValues.FactoryArgsReceived` and `DiValues.ArgsReceived`, it is stated for the loop as it runs, with one argument already collected per parameter before `i` (`|acc| == i`). Every use of the loop starts at the first parameter with no arguments.
- **Object identity** is the store index. Python objects outside the store (instances passed to `add_instance`, defaults) are opaque `Value`s.
