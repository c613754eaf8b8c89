# basic-dependency-injection, modelled in Dafny

This project models the engine of the `com.hakan.basicdi` dependency-injection
library.

A **module** keeps an insertion-ordered set of **entities**. Each entity is a
recipe for one object: a class to construct, a method to invoke, or a value
supplied from outside. It also holds a type, the subtypes captured from that
type, a scope (SINGLETON or PROTOTYPE), a mutable instance slot, and the module
that owns it.
- `bind` adds entities. An entity's kind is chosen from the class or method's
  markers (@Service, @Component, @Provide, @Runner).
- `install` configures another module, makes this module the owner of all its
  entities, and appends them.
- `getInstance(type)` answers the first entity that matches the type: a
  singleton's slot as it stands, or whatever its `createInstance()` answers for
  anything else.
- `create()` takes the entities in insertion order. It builds each one and runs
  the @PostConstruct methods of its object right away, before the next entity.
- A `CombinerModule` installs a set of user modules. An `Injector` wraps one
  combiner.

## How the model is built

- `Entity`, `Module` and `Injector` are Dafny classes whose fields the methods
  update in place:
  - an entity's `owner`, `ty`, `subTypes`, `scope`, `instance` and `parameters`;
  - a module's `entities`, a `seq` kept free of duplicates, which is the
    LinkedHashSet.
- An entity's concrete class (ClassEntity, InjectorEntity,
  MethodProviderEntity, MethodRunnerEntity, ProviderEntity, EmptyEntity) is a
  `Kind` value. It holds what the entity captured when it was built: the
  constructor, the @Autowired fields, the @PostConstruct methods, and the
  method with the module it is invoked on.
- Reflection is replaced by metadata records (`ClassMeta`, `MethodMeta`,
  `CtorMeta`).
- The objects the library builds are values `Obj(id, cls, hooks)`.
- The Java runtime is a value `World` that is passed through every step. It
  holds the next allocation number, the values of injected fields, and a log of
  every constructor call, method invocation, field write, hook and `run()`.
- Every method that resolves dependencies is proved equal to a ghost
  specification function that reads no heap, for example `ClassCreate` and
  `ClassCreateSpec`:
  - a `Shape` holds what resolution reads but never writes: each entity's
    owner, type, subtypes and scope, and each module's entity list;
  - a `Store` holds every entity's slot plus the `World`;
  - `Mirrors(sh)` ties the `Shape` to the heap, `Current(sh, slots)` ties the
    slots to the `instance` fields, and `Yields` states the method's result.
- The properties are lemmas about these functions, in module `Properties`.
- Nested resolution has no cycle detection in the library. A `depth` argument
  stands for the remaining call stack, and running out of it yields
  `StackOverflow`.

Files:
- `types.dfy`: types, markers, metadata, errors.
- `jvm.dfy`: the runtime.
- `factory.dfy`: marker classification.
- `linkedset.dfy`: the ordered set.
- `engine.dfy`: entities and modules.
- `injector.dfy`: the facade.
- `properties.dfy`: what resolution guarantees.

The `com.hakan.basicdi` base class `AbstractEntity` is not part of this model's
sources. Its fields, `getInstance` and `with*` setters are taken from
`com.hakan.injection.entity.AbstractEntity`, as is the subtype capture in its
constructor. `withModule` is the setter `Module.install` calls.

Behaviours of the code that the model makes explicit:
- A singleton's `getInstance()` never builds. Lookups made before `create()`
  see an empty slot, so bind order matters.
- A ClassEntity's @PostConstruct methods run twice when `create()` builds it:
  once inside `createInstance()`, and again in `Module.create()`, which runs the
  hooks of the returned object's class (`Properties.ClassHooksRunTwice`).
- ClassEntity, MethodProviderEntity and MethodRunnerEntity drop array and
  primitive parameters from the argument list. The reflective call still
  checks the parameter count, so such a constructor or method can never be
  invoked (`Properties.FilteredParameterNeverInvoked`).
- A ClassEntity stores the new object in its slot before injecting fields. A
  build that then fails leaves a half-injected object cached
  (`Properties.FailedBuildMayStayCached`).
- MethodRunnerEntity has no cache: each `createInstance()` invokes the method
  and runs the result again.

## Model

| member | source | states |
|---|---|---|
| Types.InjectablesAreTheInjectableParameters | src/main/java/com/hakan/basicdi/entity/impl/ClassEntity.java:82-84 | the parameter filter keeps exactly the parameters that are neither arrays nor primitives, and never lengthens the list |
| Types.InjectablesKeepArity | src/main/java/com/hakan/basicdi/entity/impl/ClassEntity.java:82-88 | the filtered list is as long as the parameter list exactly when no parameter is filtered out, and is then the parameter list itself |
| Types.InjectablesDistribute | src/main/java/com/hakan/basicdi/entity/impl/ClassEntity.java:82-84 | filtering a concatenation filters each part, so the kept parameters stay in their declared order |
| Types.Wrapped | src/main/java/com/hakan/injection/entity/AbstractEntity.java:91 | the interfaces are added one for one, in declaration order |
| Types.ShallowSubTypes | src/main/java/com/hakan/injection/entity/AbstractEntity.java:88-91 | the captured list holds the immediate superclass (possibly null) first, then exactly the declared interfaces; a type is listed exactly when it is one of these |
| Jvm.NewInstance | src/main/java/com/hakan/basicdi/entity/impl/ClassEntity.java:88 | `newInstance` succeeds exactly when the argument count matches and the constructor does not throw; success allocates one new object and logs it, failure changes nothing |
| Jvm.Invoke | src/main/java/com/hakan/basicdi/entity/impl/MethodProviderEntity.java:74 | `invoke` succeeds exactly when the argument count matches and the method does not throw; the method answers a newly allocated object, an object that already exists (allocating nothing) or null, as its outcome says, and a successful call is logged with its target, arguments and result |
| Jvm.SetField | src/main/java/com/hakan/basicdi/entity/impl/ClassEntity.java:91 | `Field.set` changes exactly that field of that object and logs it |
| Jvm.HookEvents | src/main/java/com/hakan/basicdi/entity/impl/ClassEntity.java:92-93 | one event per hook, in the hooks' order |
| Jvm.RunHook | src/main/java/com/hakan/basicdi/entity/impl/ClassEntity.java:93 | one hook invocation logs exactly one event and touches nothing else |
| Jvm.RunHooks | src/main/java/com/hakan/basicdi/entity/impl/ClassEntity.java:92-93 | running the hooks appends exactly their events and changes no field or allocation |
| Jvm.InvokeHooks | src/main/java/com/hakan/basicdi/module/Module.java:98-99 | the hook loop computes `RunHooks`: every hook once, in order |
| Jvm.Run | src/main/java/com/hakan/basicdi/entity/impl/MethodRunnerEntity.java:75 | `run()` appends one event and changes no field or allocation; it throws, naming the method that returned the Runnable, exactly when that Runnable's `run()` throws |
| EntityFactory.ServiceDecidesScope | src/main/java/com/hakan/basicdi/entity/EntityFactory.java:30-31 | a @Service class binds to a ClassEntity with the @Service scope, whatever other marker it has |
| EntityFactory.ComponentDecidesScope | src/main/java/com/hakan/basicdi/entity/EntityFactory.java:32-33 | a class marked only @Component binds to a ClassEntity with that marker's scope |
| EntityFactory.EmptyExactlyWhenUnmarked | src/main/java/com/hakan/basicdi/entity/EntityFactory.java:30-35 | classifying a class is total, and yields an EmptyEntity exactly when it carries neither marker |
| EntityFactory.DefaultScopeIsSingleton | src/main/java/com/hakan/basicdi/annotations/Service.java:31-32 | an unset scope attribute means SINGLETON, and a set one is taken as given |
| EntityFactory.ProvideTakesPrecedence | src/main/java/com/hakan/basicdi/entity/EntityFactory.java:48-49 | a @Provide method binds to a MethodProviderEntity even when also marked @Runner |
| EntityFactory.MethodClassification | src/main/java/com/hakan/basicdi/entity/EntityFactory.java:46-53 | a method binds to a runner exactly when marked @Runner and not @Provide, and fails with an error naming it exactly when it has neither marker |
| LinkedSet.Add | src/main/java/com/hakan/basicdi/module/Module.java:69-72 | a set add: the element is present afterwards, nothing changes if it was there, otherwise it is appended |
| LinkedSet.AddUnique | src/main/java/com/hakan/basicdi/module/Module.java:69-72 | a set add keeps the elements distinct |
| LinkedSet.AddAllExtends | src/main/java/com/hakan/basicdi/module/Module.java:85 | `addAll` keeps the existing elements and their positions |
| LinkedSet.AddAllMembers | src/main/java/com/hakan/basicdi/module/Module.java:85 | after `addAll` the set holds the elements of both sides and nothing else |
| LinkedSet.AddAllUnique | src/main/java/com/hakan/basicdi/module/Module.java:36 | `addAll` keeps the elements distinct |
| LinkedSet.AddAllFresh | src/main/java/com/hakan/basicdi/module/Module.java:85 | new, distinct elements are appended as they are, in their order |
| LinkedSet.AddAllIdempotent | src/main/java/com/hakan/basicdi/module/Module.java:85 | adding the same elements again changes nothing |
| LinkedSet.AddAllPresent | src/main/java/com/hakan/basicdi/module/Module.java:85 | adding elements that are all present changes nothing |
| Engine.Entity.constructor | src/main/java/com/hakan/injection/entity/AbstractEntity.java:82-92 | the base constructor stores owner, type and scope as given, captures the subtypes from the type, and leaves slot and parameters empty |
| Engine.Entity.ClassEntity | src/main/java/com/hakan/basicdi/entity/impl/ClassEntity.java:37-48 | a ClassEntity captures the chosen constructor, the @Autowired fields and the @PostConstruct methods, and fails exactly when the class has no usable constructor |
| Engine.Entity.InjectorEntity | src/main/java/com/hakan/basicdi/entity/impl/InjectorEntity.java:30-35 | an InjectorEntity captures the chosen constructor and fails exactly when there is none |
| Engine.Entity.EmptyEntity | src/main/java/com/hakan/basicdi/entity/impl/EmptyEntity.java:28-31 | an EmptyEntity is always a singleton with an empty slot |
| Engine.Entity.MethodProviderEntity | src/main/java/com/hakan/basicdi/entity/impl/MethodProviderEntity.java:31-36 | typed by the method's return type, singleton, invoking the method on the module it was created for |
| Engine.Entity.MethodRunnerEntity | src/main/java/com/hakan/basicdi/entity/impl/MethodRunnerEntity.java:31-36 | typed by the method's return type, singleton, invoking the method on the module it was created for |
| Engine.Entity.ProviderEntity | src/main/java/com/hakan/basicdi/entity/impl/ProviderEntity.java:28-33 | typed by the method's return type, singleton, invoking the method on the module it was created for |
| Engine.Entity.ByType | src/main/java/com/hakan/injection/entity/AbstractEntity.java:38-46 | `byType`: @Service first, then @Component, each with its scope, yields an injector entity; an unmarked class yields an EmptyEntity; it fails exactly when a marked class has no usable constructor. The entity built has basicdi's InjectorEntity behaviour, not the older package's |
| Engine.Entity.ByMethod | src/main/java/com/hakan/injection/entity/AbstractEntity.java:56-62 | `byMethod`: a @Provide method yields a provider entity bound to the given module; any other method fails with an error naming it. The entity built has basicdi's ProviderEntity behaviour, not the older package's |
| Engine.Entity.WithScope | src/main/java/com/hakan/injection/entity/AbstractEntity.java:157-160 | sets only the scope and returns the same entity |
| Engine.Entity.WithInstance | src/main/java/com/hakan/injection/entity/AbstractEntity.java:168-171 | sets the slot and forces the scope to SINGLETON, touching nothing else, and returns the same entity |
| Engine.Entity.WithParameters | src/main/java/com/hakan/injection/entity/AbstractEntity.java:179-182 | sets only the parameters and returns the same entity |
| Engine.Entity.WithType | src/main/java/com/hakan/injection/entity/AbstractEntity.java:190-193 | sets only the type and returns the same entity |
| Engine.Entity.WithSubTypes | src/main/java/com/hakan/injection/entity/AbstractEntity.java:201-204 | sets only the subtype list and returns the same entity |
| Engine.Entity.WithModule | src/main/java/com/hakan/basicdi/module/Module.java:83 | sets only the owner; the invocation target of a method entity is unaffected |
| Engine.Entity.GetInstance | src/main/java/com/hakan/injection/entity/AbstractEntity.java:101-103 | `getInstance()` computes `GetSpec`: a singleton answers its slot, anything else is built |
| Engine.Entity.CreateInstance | src/main/java/com/hakan/basicdi/entity/impl/EmptyEntity.java:38-41 | `createInstance()` of every entity class computes `CreateSpec` (EmptyEntity answers its slot) |
| Engine.Entity.ClassCreate | src/main/java/com/hakan/basicdi/entity/impl/ClassEntity.java:77-96 | ClassEntity's `createInstance()` computes `ClassCreateSpec` |
| Engine.Entity.Initialise | src/main/java/com/hakan/basicdi/entity/impl/ClassEntity.java:88-95 | storing, injecting and running hooks on the new object computes `InitSpec` |
| Engine.Entity.InjectInto | src/main/java/com/hakan/basicdi/entity/impl/ClassEntity.java:90-91 | the @Autowired field loop computes `InjectFields` |
| Engine.Entity.InjectorCreate | src/main/java/com/hakan/basicdi/entity/impl/InjectorEntity.java:51-63 | InjectorEntity's `createInstance()` computes `InjectorCreateSpec` |
| Engine.Entity.ProvideCreate | src/main/java/com/hakan/basicdi/entity/impl/MethodProviderEntity.java:61-75 | provider `createInstance()` (MethodProviderEntity and ProviderEntity) computes `ProvideSpec` |
| Engine.Entity.RunnerCreate | src/main/java/com/hakan/basicdi/entity/impl/MethodRunnerEntity.java:61-78 | MethodRunnerEntity's `createInstance()` computes `RunnerCreateSpec` |
| Engine.Entity.RunnerInvoke | src/main/java/com/hakan/basicdi/entity/impl/MethodRunnerEntity.java:74-77 | invoking, storing and running the result computes `RunnerInvokeSpec`, including a `run()` that throws |
| Engine.CreateForType | src/main/java/com/hakan/basicdi/entity/EntityFactory.java:28-36 | `create(module, class)` builds the entity the classification names; it fails, naming the class, exactly when a marked class has no usable constructor |
| Engine.CreateForMethod | src/main/java/com/hakan/basicdi/entity/EntityFactory.java:46-54 | `create(module, method)` builds a provider or runner entity bound to this module, and fails, naming the method, exactly when it has neither marker |
| Engine.FirstRejected | src/main/java/com/hakan/basicdi/module/Module.java:135 | the position of the first binding that throws: every earlier binding succeeds, and the one there throws |
| Engine.Provided | src/main/java/com/hakan/basicdi/module/Module.java:38 | the methods bound at construction are all marked @Provide |
| Engine.Module.constructor | src/main/java/com/hakan/basicdi/module/Module.java:35-39 | a new module holds one provider entity per @Provide method of its class, in the iteration order of the reflected method set, each owned by the module, before any `configure()` |
| Engine.Module.Combiner | src/main/java/com/hakan/basicdi/module/impl/CombinerModule.java:24-44 | the module list is collapsed into a set, and the combiner starts with no entities |
| Engine.Module.Bind | src/main/java/com/hakan/basicdi/module/Module.java:69-72 | `bind(entity)` is a set add of the same object, returned unchanged, and keeps the entity list free of duplicates |
| Engine.Module.BindType | src/main/java/com/hakan/basicdi/module/Module.java:48-50 | `bind(class)`: the factory's new entity appended, or the factory's error with the entities unchanged; the list stays free of duplicates |
| Engine.Module.BindMethod | src/main/java/com/hakan/basicdi/module/Module.java:59-61 | `bind(method)`: the factory's new entity appended, or the factory's error with the entities unchanged; the list stays free of duplicates |
| Engine.Module.Configure | src/main/java/com/hakan/basicdi/module/Module.java:135 | a user module's bindings run up to the first that throws; a combiner succeeds exactly when no child's bindings throw. A combiner's entities are its old ones grown by each installed child's entities in turn, in the set's iteration order, each child once; on success every child was installed and its entities are owned by the combiner. The list stays free of duplicates |
| Engine.Module.RunBindings | src/main/java/com/hakan/basicdi/module/Module.java:135 | each binding of a `configure()` body appends one new entity, in order, stopping at the first that throws with its error; the list stays free of duplicates |
| Engine.Module.DeclareNext | src/main/java/com/hakan/basicdi/module/Module.java:135 | one binding of that body, after the ones before it: it throws exactly when it is the first rejected declaration, and otherwise appends one new entity that matches it |
| Engine.Module.Declare | src/main/java/com/hakan/basicdi/module/Module.java:48-61 | one `bind` statement: appends the declared entity or throws its error; the list stays free of duplicates |
| Engine.Module.InstallChildren | src/main/java/com/hakan/basicdi/module/impl/CombinerModule.java:50-52 | installs the children one at a time in the set's iteration order, each once: the entity list is the old one grown by each installed child's entities in that order. It succeeds exactly when no child throws, and then every child was installed. The list stays free of duplicates |
| Engine.Module.InstallChild | src/main/java/com/hakan/basicdi/module/impl/CombinerModule.java:51 | one `install` of the loop adds the child's entities to the combiner's list and extends what the modules installed before it contributed; a failure leaves the combiner's entities unchanged |
| Engine.Module.InstallNext | src/main/java/com/hakan/basicdi/module/impl/CombinerModule.java:51 | the same step, with the child recorded as the next module of the installation order: the list is the old one grown by each installed module's entities in that order |
| Engine.Module.Install | src/main/java/com/hakan/basicdi/module/Module.java:81-86 | `install(m)` configures `m` first, then every entity of `m` names this module as owner, then they are added in `m`'s order; `m` keeps its own entities; no other entity's owner changes; both lists stay free of duplicates |
| Engine.Module.Adopt | src/main/java/com/hakan/basicdi/module/Module.java:83 | after the `withModule(this)` pass every entity of the list names this module as its owner |
| Engine.GatheredKeepsOrder | src/main/java/com/hakan/basicdi/module/Module.java:85 | when no entity occurs twice, installing modules one after the other puts each module's whole list, in its own order, after the entities already there |
| Engine.Module.GetEntity | src/main/java/com/hakan/basicdi/module/Module.java:122-127 | the first entity in insertion order whose type or captured subtypes match, or an error naming the type when none does |
| Engine.Module.GetInstance | src/main/java/com/hakan/basicdi/module/Module.java:112-114 | `getInstance(t)` computes `LookupSpec`: `getEntity(t).getInstance()` |
| Engine.Module.ResolveAll | src/main/java/com/hakan/basicdi/entity/impl/ClassEntity.java:82-86 | the argument stream computes `LookupAll`, resolving every type in order |
| Engine.Module.Create | src/main/java/com/hakan/basicdi/module/Module.java:93-101 | `create()` computes `CreatePass` over the entities in insertion order |
| Engine.Module.Prepare | src/main/java/com/hakan/basicdi/module/Module.java:95-99 | one entity of `create()` computes `PrepareSpec`: build it, fail on null, run the hooks of the object's class |
| Engine.FirstMatch | src/main/java/com/hakan/basicdi/module/Module.java:123-125 | the position of the first matching entity: none before it matches |
| Engine.Shape.Find | src/main/java/com/hakan/basicdi/module/Module.java:122-127 | a found entity belongs to the module |
| Engine.Shape.Locate | src/main/java/com/hakan/basicdi/module/Module.java:123-125 | the position of the first match: the entity there matches the type, and none before it does |
| Engine.GetEntityAgrees | src/main/java/com/hakan/basicdi/module/Module.java:122-127 | the heap's `getEntity` and the structure's `Find` give the same answer |
| Engine.LookupAll | src/main/java/com/hakan/basicdi/entity/impl/MethodRunnerEntity.java:68-72 | a successful argument stream has one value per parameter type |
| Engine.ClassCreateSpec | src/main/java/com/hakan/basicdi/entity/impl/ClassEntity.java:77-96 | a successful build returns what the slot then holds |
| Engine.InitSpec | src/main/java/com/hakan/basicdi/entity/impl/ClassEntity.java:88-95 | a successful initialisation returns what the slot then holds |
| Engine.InjectorCreateSpec | src/main/java/com/hakan/basicdi/entity/impl/InjectorEntity.java:52-63 | a successful build returns what the slot then holds |
| Engine.ProvideSpec | src/main/java/com/hakan/basicdi/entity/impl/ProviderEntity.java:49-61 | a successful call returns what the slot then holds |
| Engine.ProvideInvokeSpec | src/main/java/com/hakan/basicdi/entity/impl/MethodProviderEntity.java:74 | the invocation's result is what goes into the slot |
| Engine.RunnerCreateSpec | src/main/java/com/hakan/basicdi/entity/impl/MethodRunnerEntity.java:61-78 | a successful call returns what the slot then holds |
| Engine.RunnerInvokeSpec | src/main/java/com/hakan/basicdi/entity/impl/MethodRunnerEntity.java:74-77 | a successful run returns what the slot then holds |
| Engine.CreateSpec | src/main/java/com/hakan/basicdi/entity/impl/EmptyEntity.java:38-41 | every entity class's successful `createInstance()` returns its slot |
| Injection.Injector.constructor | src/main/java/com/hakan/basicdi/Injector.java:33-35 | the injector keeps the module it is given, fixed for its lifetime, which is what `getModule()` returns |
| Injection.Injector.Of | src/main/java/com/hakan/basicdi/Injector.java:20-22 | `of(modules)` builds a fresh combiner over the set of the modules and configures it once. It throws exactly when some module's bindings throw. Otherwise the combiner holds every module's entities exactly once, module after module in the set's iteration order, each owned by the combiner |
| Injection.Injector.Configure | src/main/java/com/hakan/basicdi/Injector.java:62-65 | `configure()` is the combiner's `configure()`: the entities grow by each child's, in the set's iteration order |
| Injection.Injector.GetInstance | src/main/java/com/hakan/basicdi/Injector.java:53-55 | `getInstance(t)` is the combiner's `getInstance(t)` |
| Injection.Injector.Create | src/main/java/com/hakan/basicdi/Injector.java:73-76 | `create()` is the combiner's `create()` |
| Properties.LookupEvolves | src/main/java/com/hakan/basicdi/module/Module.java:112-114 | a lookup only allocates and appends, keeps the fields of older objects, fills the slots of entities that build new objects only with new objects or null, and changes no singleton's slot |
| Properties.GetEvolves | src/main/java/com/hakan/injection/entity/AbstractEntity.java:101-103 | the same for an entity's `getInstance()` |
| Properties.LookupAllEvolves | src/main/java/com/hakan/basicdi/entity/impl/ClassEntity.java:82-86 | the same for an argument stream |
| Properties.InjectEvolves | src/main/java/com/hakan/basicdi/entity/impl/ClassEntity.java:90-91 | the field loop sets fields only on the object in the entity's slot and changes no singleton's slot |
| Properties.CreateEvolves | src/main/java/com/hakan/basicdi/entity/impl/ClassEntity.java:77-96 | `createInstance()` leaves every other singleton's slot alone, and an answer not taken from the cache is a newly allocated object unless the entity's method returns an existing one |
| Properties.ClassCreateEvolves | src/main/java/com/hakan/basicdi/entity/impl/ClassEntity.java:77-96 | the same for ClassEntity |
| Properties.ClassBuildEvolves | src/main/java/com/hakan/basicdi/entity/impl/ClassEntity.java:88-95 | construction with the resolved arguments, then injection and hooks, answers a new object and keeps the other singletons' slots |
| Properties.InitEvolves | src/main/java/com/hakan/basicdi/entity/impl/ClassEntity.java:88-95 | after `newInstance`, only the new object's fields are written, and the slot holds it or another new object |
| Properties.InjectorCreateEvolves | src/main/java/com/hakan/basicdi/entity/impl/InjectorEntity.java:52-63 | the same for InjectorEntity |
| Properties.ProvideEvolves | src/main/java/com/hakan/basicdi/entity/impl/ProviderEntity.java:49-61 | the same for MethodProviderEntity and ProviderEntity; a method that returns an existing object answers that object |
| Properties.ProvideInvokeEvolves | src/main/java/com/hakan/basicdi/entity/impl/MethodProviderEntity.java:74 | the provider invocation answers a new object or null, or the existing object its method returns |
| Properties.RunnerCreateEvolves | src/main/java/com/hakan/basicdi/entity/impl/MethodRunnerEntity.java:61-78 | the same for MethodRunnerEntity, whose every answer is new unless its method returns an existing object |
| Properties.GetAnswersSlotOrBuilds | src/main/java/com/hakan/injection/entity/AbstractEntity.java:101-103 | a singleton's `getInstance()` answers its slot as it is (so after `withInstance(v)` it answers `v`) and changes nothing; a prototype's builds |
| Properties.SingletonLookupIsStable | src/test/java/com/hakan/basicdi/InjectorTest.java:38-46 | a type bound to a singleton answers that slot, and again the same after any other lookup |
| Properties.PrototypeLookupsDiffer | src/main/java/com/hakan/basicdi/entity/impl/ClassEntity.java:78-88 | a type bound to a prototype that builds new objects answers a newly allocated object, and two lookups never answer the same one |
| Properties.PrototypeMayShareObject | src/main/java/com/hakan/basicdi/entity/impl/MethodProviderEntity.java:61-75 | a prototype whose @Provide method returns an existing object answers that same object on every lookup that succeeds |
| Properties.CachedCreateChangesNothing | src/main/java/com/hakan/basicdi/entity/impl/ClassEntity.java:78-79 | a singleton with a filled slot, and every EmptyEntity, answers its slot without constructing, invoking or running anything |
| Properties.SecondCreateIsCached | src/main/java/com/hakan/basicdi/entity/impl/MethodProviderEntity.java:64-65 | building a singleton (other than a runner) once makes the next `createInstance()` answer the same object with no effect |
| Properties.RunnerRunsOnEveryCall | src/main/java/com/hakan/basicdi/entity/impl/MethodRunnerEntity.java:63-77 | a runner fails before any lookup unless its return type is Runnable; otherwise every call invokes the method on its captured module and runs the result exactly once, right after; the result is new unless the method returns an existing object |
| Properties.ThrowingRunLeavesRunnable | src/main/java/com/hakan/basicdi/entity/impl/MethodRunnerEntity.java:74-77 | a runner whose Runnable throws from `run()` never succeeds; once the method has returned an object, that object is already in the slot and `run()` was called on it |
| Properties.InjectSetsOnlyItsFields | src/main/java/com/hakan/basicdi/entity/impl/ClassEntity.java:90-91 | the field loop writes no field other than the @Autowired ones |
| Properties.InjectedFieldIsShared | src/main/java/com/hakan/basicdi/entity/impl/ClassEntity.java:90-91 | an @Autowired field whose type is bound to a singleton ends up holding that singleton's slot |
| Properties.ComponentSeesSharedService | src/test/java/com/hakan/basicdi/InjectorTest.java:25-30 | a component's injected field is the very object a lookup of the service type then answers |
| Properties.FailedBuildMayStayCached | src/main/java/com/hakan/basicdi/entity/impl/ClassEntity.java:82-91 | from an empty slot: a failed argument lookup or a throwing constructor leaves the slot empty; once the constructor returns, the slot holds its object whether or not the field loop then fails, and the next call answers it without building |
| Properties.InjectorBuildsPlainObject | src/main/java/com/hakan/basicdi/entity/impl/InjectorEntity.java:62 | an InjectorEntity's build ends with the construction: no field injection, no hooks |
| Properties.FilteredParameterNeverInvoked | src/main/java/com/hakan/basicdi/entity/impl/ClassEntity.java:82-88 | a constructor or filtered-argument method with an array or primitive parameter can never be invoked, so building through it throws |
| Properties.PrepareEvolves | src/main/java/com/hakan/basicdi/module/Module.java:95-99 | a successful step of `create()` leaves the entity's slot filled and no other singleton touched |
| Properties.CreateFillsSingletons | src/main/java/com/hakan/basicdi/module/Module.java:93-101 | after a successful `create()` every singleton it visited, and every one already filled, holds an object |
| Properties.CreatePassSplits | src/main/java/com/hakan/basicdi/module/Module.java:94 | `create()` visits entities in order: on a concatenation it runs the first part, then the rest from where it left off |
| Properties.CreatedSingletonIsShared | src/test/java/com/hakan/basicdi/InjectorTest.java:36-46 | after a successful `create()`, a type bound to one of the module's singletons answers a non-null object, the same on every lookup |
| Properties.ClassHooksRunTwice | src/main/java/com/hakan/basicdi/module/Module.java:95-99 | a ClassEntity's @PostConstruct methods run inside `createInstance()` and then once more in `create()` |
| Properties.ProvidedObjectInitialisedByCreate | src/test/java/com/hakan/basicdi/module/ModuleTest.java:15-23 | `createInstance()` of a @Provide entity only invokes the method; `create()` then runs the hooks of the returned object's class once |
| Properties.ProvidedAreTheProvideMethods | src/main/java/com/hakan/basicdi/module/Module.java:38 | the methods bound at construction are exactly those marked @Provide |
| Properties.ScriptSucceedsExactlyWhenNothingRejects | src/main/java/com/hakan/basicdi/module/Module.java:135 | a `configure()` body runs to the end exactly when none of its bindings throws |

## Left out

- Reflection, classpath and jar scanning, annotation search and `setAccessible`. The model starts from the metadata they would produce: markers, the chosen constructor, @Autowired fields, @PostConstruct methods and the return types.
- What user constructors and methods compute. A constructor builds an object or throws. A method's abstract outcome returns a new object, returns an object that already exists, returns null, or throws. Whether the Runnable a @Runner method returns throws from `run()` is one flag of that method.
- @PostConstruct methods that throw. A hook is only logged.
- The iteration order of the @PostConstruct methods and @Autowired fields, and of the @Provide methods a module binds when it is constructed. Reflection returns them in a new `HashSet` each time, so that order is unspecified, and for hooks and fields it may differ between `createInstance()` and `create()`. The model uses one fixed sequence for each class, captured when the entity or module is built, in every place it is read. When two @Provide methods return the same type, which one `getEntity` finds therefore depends on that unspecified order; the model finds the first of the given sequence.
- `configure()` bodies are modelled only as sequences of `bind(Class)` and `bind(Method)` statements. A body that does anything else, including `install` and `bind(entity)` of a hand-built entity, is not modelled.
- Engine.Module.Installable: combiners are flat. A combiner's children are user modules, and a combiner is never its own child, so nested combiners are not modelled.
- A module installed into two combiners, and a module that is its own child, are not modelled.
- Engine.Module.InstallChildren: the HashSet's iteration order is an arbitrary choice of the next child. No particular order is modelled.
- The Java call stack: `depth` bounds nested resolution, and exhausting it yields `StackOverflow`, where the JVM would throw StackOverflowError at a depth this model does not fix.
- Unchecked casts in `getInstance`: no `ClassCastException` is modelled. A lookup answers whatever object the entity holds.
- `getParameters` and the other getters: they read a field, and the model reads that field directly. `Injector.getModule()` is the constant `combined`.
- `Injector.configure()` and `Injector.create()` return the injector itself. The model's methods return only the result, because the injector is unchanged.
- The older parallel `com.hakan.injection` package: its call graph does not resolve, so it is not part of this model. The exceptions are `AbstractEntity` and its static factories `byType` and `byMethod`.
- Engine.Entity.ByType: the entity it builds behaves like basicdi's InjectorEntity. The older package's InjectorEntity (`src/main/java/com/hakan/injection/entity/impl/InjectorEntity.java`, lines 52-77) is not modelled. It differs in four ways. It looks each parameter up with `getEntityByClass`. It falls back to `module.createInstance(entity)` when the looked-up instance is null. It records the arguments in `parameters`. It runs on the new object every @PostConstruct method its package scan finds.
- Engine.Entity.ByMethod: the entity it builds behaves like basicdi's ProviderEntity and invokes the method on the module it was built for. The older package's ProviderEntity (`src/main/java/com/hakan/injection/entity/impl/ProviderEntity.java`, lines 47-72) invokes it on whichever module owns the entity at call time, and has the same lookup fallback, argument recording and hooks as its InjectorEntity. Neither is modelled.
- Properties.LookupEvolves: a slot it changes is promised to hold a new object or null only for entities that build new objects (`BuildsNew`); a method entity whose method returns an existing object may receive that object.
- Properties.GetEvolves: the same restriction on changed slots, for the same reason.
- Properties.CreateEvolves: freshness of an answer is promised only for entities that build new objects (`BuildsNew`). A method that returns an object that already exists answers that object as it is.
- Properties.ProvideEvolves: freshness only under `BuildsNew`, for the same reason.
- Properties.ProvideInvokeEvolves: freshness only under `BuildsNew`, for the same reason.
- Properties.RunnerCreateEvolves: freshness only under `BuildsNew`, for the same reason.
- Properties.RunnerRunsOnEveryCall: freshness only under `BuildsNew`, for the same reason.
- Properties.PrototypeLookupsDiffer: distinct answers only under `BuildsNew`. A prototype whose method returns an existing object answers it every time (`Properties.PrototypeMayShareObject`).
- `@Autowired` field injection. In this code `@Autowired` targets constructors only (`src/main/java/com/hakan/basicdi/annotations/Autowired.java:14`), so no field can carry it, and the field loop of ClassEntity never finds a field in compiled code. The model's `autowired` field list is the one that loop would iterate. The model lets it be non-empty, so it also covers the field injection the tests expect.
- Injection.Injector.Of: requires every module passed in to be a user module, because nested combiners are not modelled.
