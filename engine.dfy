/**
 * The entity-resolution engine: entities (how one object is built, with its
 * scope and cached instance) and modules (insertion-ordered entity sets with
 * binding, installation, lookup and the eager creation pass).
 *
 * Entities and modules are objects whose fields the engine updates in place.
 * Every method that resolves dependencies is proved equal to a ghost
 * specification function. Such a function reads no heap: it is given the
 * structure resolution consults but never changes (a `Shape`) and a `Store`,
 * which holds the instance slots of all entities plus the Java runtime.
 */
module Engine {
  import opened Types
  import opened Jvm
  import opened LinkedSet
  import EntityFactory

  /** The concrete entity class, with the final fields it captured when built. */
  datatype Kind =
    | ClassKind(cls: JType, ctor: CtorMeta, fields: seq<Field>, hooks: seq<string>)  // ClassEntity
    | InjectorKind(cls: JType, ctor: CtorMeta, hooks: seq<string>)                   // InjectorEntity
    | MethodProviderKind(callee: MethodMeta, target: Module)                         // MethodProviderEntity
    | MethodRunnerKind(callee: MethodMeta, target: Module)                           // MethodRunnerEntity
    | ProviderKind(callee: MethodMeta, target: Module)                               // ProviderEntity
    | EmptyKind                                                                      // EmptyEntity

  /** A statement of a user module's `configure()` body. */
  datatype Declaration = BindType(meta: ClassMeta) | BindMethod(callee: MethodMeta)

  /** What `configure()` does: a user module's bindings, or a CombinerModule's children. */
  datatype Configuration = Script(decls: seq<Declaration>) | Combine(children: set<Module>)

  /** `entity.getType().equals(t) || entity.getSubTypes().contains(t)` */
  predicate Provides(ty: JType, subTypes: seq<Option<JType>>, t: JType)
  {
    ty == t || Some(t) in subTypes
  }

  // ---------------------------------------------------------------------------
  // Entities
  // ---------------------------------------------------------------------------

  class Entity {
    var owner: Module  // the Java field `module`
    var ty: JType
    var subTypes: seq<Option<JType>>
    var scope: Scope
    var instance: Value
    var parameters: Option<seq<Value>>
    const kind: Kind

    predicate Matches(t: JType)
      reads this`ty, this`subTypes
    {
      Provides(ty, subTypes, t)
    }

    /** The state the base-class constructor leaves. */
    ghost predicate Built(owner: Module, info: TypeInfo, scope: Scope, kind: Kind)
      reads this
    {
      && this.owner == owner && ty == info.ty && subTypes == SubTypesOf(info) && this.scope == scope
      && instance == None && parameters == None && this.kind == kind
    }

    /** The base-class constructor: owner, type and scope as given, subtypes captured from the type. */
    constructor (owner: Module, info: TypeInfo, scope: Scope, kind: Kind)
      ensures Built(owner, info, scope, kind)
    {
      this.owner := owner;
      ty := info.ty;
      subTypes := SubTypesOf(info);
      this.scope := scope;
      instance := None;
      parameters := None;
      this.kind := kind;
    }

    /** `new ClassEntity(module, type, scope)`; choosing the constructor fails when there is none. */
    static method ClassEntity(owner: Module, meta: ClassMeta, scope: Scope) returns (r: Result<Entity>)
      ensures r.Failure? <==> meta.ctor.None?
      ensures r.Failure? ==> r.error == NoSuchConstructor(meta.info.ty)
      ensures r.Success? ==> fresh(r.value) && r.value.Built(owner, meta.info, scope,
                               ClassKind(meta.info.ty, meta.ctor.value, meta.autowired, meta.postConstruct))
    {
      if meta.ctor.None? {
        return Failure(NoSuchConstructor(meta.info.ty));
      }
      var e := new Entity(owner, meta.info, scope, ClassKind(meta.info.ty, meta.ctor.value, meta.autowired, meta.postConstruct));
      r := Success(e);
    }

    /** `new InjectorEntity(module, type, scope)` */
    static method InjectorEntity(owner: Module, meta: ClassMeta, scope: Scope) returns (r: Result<Entity>)
      ensures r.Failure? <==> meta.ctor.None?
      ensures r.Failure? ==> r.error == NoSuchConstructor(meta.info.ty)
      ensures r.Success? ==> fresh(r.value) && r.value.Built(owner, meta.info, scope,
                               InjectorKind(meta.info.ty, meta.ctor.value, meta.postConstruct))
    {
      if meta.ctor.None? {
        return Failure(NoSuchConstructor(meta.info.ty));
      }
      var e := new Entity(owner, meta.info, scope, InjectorKind(meta.info.ty, meta.ctor.value, meta.postConstruct));
      r := Success(e);
    }

    /** `new EmptyEntity(module, type)`: always a singleton. */
    static method EmptyEntity(owner: Module, info: TypeInfo) returns (e: Entity)
      ensures fresh(e) && e.Built(owner, info, Singleton, EmptyKind)
    {
      e := new Entity(owner, info, Singleton, EmptyKind);
    }

    /** `new MethodProviderEntity(module, method)`: typed by the return type, singleton, invoked on `owner`. */
    static method MethodProviderEntity(owner: Module, callee: MethodMeta) returns (e: Entity)
      ensures fresh(e) && e.Built(owner, callee.returnType, Singleton, MethodProviderKind(callee, owner))
    {
      e := new Entity(owner, callee.returnType, Singleton, MethodProviderKind(callee, owner));
    }

    /** `new MethodRunnerEntity(module, method)` */
    static method MethodRunnerEntity(owner: Module, callee: MethodMeta) returns (e: Entity)
      ensures fresh(e) && e.Built(owner, callee.returnType, Singleton, MethodRunnerKind(callee, owner))
    {
      e := new Entity(owner, callee.returnType, Singleton, MethodRunnerKind(callee, owner));
    }

    /** `new ProviderEntity(module, method)` */
    static method ProviderEntity(owner: Module, callee: MethodMeta) returns (e: Entity)
      ensures fresh(e) && e.Built(owner, callee.returnType, Singleton, ProviderKind(callee, owner))
    {
      e := new Entity(owner, callee.returnType, Singleton, ProviderKind(callee, owner));
    }

    /** `AbstractEntity.byType(module, type)`: a marked class binds to an InjectorEntity, any other to an EmptyEntity. */
    static method ByType(owner: Module, meta: ClassMeta) returns (r: Result<Entity>)
      ensures r.Failure? <==> EntityFactory.ClassifyType(meta).ClassBinding? && meta.ctor.None?
      ensures r.Failure? ==> r.error == NoSuchConstructor(meta.info.ty)
      ensures r.Success? ==> fresh(r.value) && match EntityFactory.ClassifyType(meta)
                case ClassBinding(sc) => r.value.Built(owner, meta.info, sc, InjectorKind(meta.info.ty, meta.ctor.value, meta.postConstruct))
                case EmptyBinding => r.value.Built(owner, meta.info, Singleton, EmptyKind)
    {
      match EntityFactory.ClassifyType(meta)
      case ClassBinding(sc) =>
        r := InjectorEntity(owner, meta, sc);
      case EmptyBinding =>
        var e := EmptyEntity(owner, meta.info);
        r := Success(e);
    }

    /** `AbstractEntity.byMethod(module, method)`: only a @Provide method binds, to a ProviderEntity. */
    static method ByMethod(owner: Module, callee: MethodMeta) returns (r: Result<Entity>)
      ensures r.Failure? <==> !callee.provide
      ensures r.Failure? ==> r.error == NoBindingMarker(callee.name)
      ensures r.Success? ==> fresh(r.value) && r.value.Built(owner, callee.returnType, Singleton, ProviderKind(callee, owner))
    {
      if !callee.provide {
        return Failure(NoBindingMarker(callee.name));
      }
      var e := ProviderEntity(owner, callee);
      r := Success(e);
    }

    method WithScope(scope: Scope) returns (r: Entity)
      modifies this`scope
      ensures r == this && this.scope == scope
    {
      this.scope := scope;
      r := this;
    }

    /** Sets the slot and makes the entity a singleton, so the slot is what it answers. */
    method WithInstance(v: Value) returns (r: Entity)
      modifies this`instance, this`scope
      ensures r == this && instance == v && scope == Singleton
    {
      instance := v;
      r := WithScope(Singleton);
    }

    method WithParameters(ps: seq<Value>) returns (r: Entity)
      modifies this`parameters
      ensures r == this && parameters == Some(ps)
    {
      parameters := Some(ps);
      r := this;
    }

    method WithType(t: JType) returns (r: Entity)
      modifies this`ty
      ensures r == this && ty == t
    {
      ty := t;
      r := this;
    }

    method WithSubTypes(ts: seq<Option<JType>>) returns (r: Entity)
      modifies this`subTypes
      ensures r == this && subTypes == ts
    {
      subTypes := ts;
      r := this;
    }

    method WithModule(m: Module) returns (r: Entity)
      modifies this`owner
      ensures r == this && owner == m
    {
      owner := m;
      r := this;
    }

    /** `getInstance()` */
    method GetInstance(w: World, depth: nat, ghost sh: Shape, ghost slots: map<Entity, Value>) returns (r: Result<Value>, w': World)
      requires Mirrors(sh) && Current(sh, slots) && this in sh.info
      modifies sh.info.Keys`instance
      ensures Yields(r, w', sh, GetSpec(this, Store(slots, w), depth, sh))
      decreases depth, 1, 0
    {
      if scope == Singleton {
        return Success(instance), w;
      }
      if depth == 0 {
        return Failure(StackOverflow), w;
      }
      r, w' := CreateInstance(w, depth - 1, sh, slots);
    }

    /** `createInstance()`, as each entity class overrides it. */
    method CreateInstance(w: World, depth: nat, ghost sh: Shape, ghost slots: map<Entity, Value>) returns (r: Result<Value>, w': World)
      requires Mirrors(sh) && Current(sh, slots) && this in sh.info
      modifies sh.info.Keys`instance
      ensures Yields(r, w', sh, CreateSpec(this, Store(slots, w), depth, sh))
      decreases depth, 6, 0
    {
      match kind
      case EmptyKind =>
        r, w' := Success(instance), w;
      case ClassKind(_, _, _, _) =>
        r, w' := ClassCreate(w, depth, sh, slots);
      case InjectorKind(_, _, _) =>
        r, w' := InjectorCreate(w, depth, sh, slots);
      case MethodProviderKind(_, _) =>
        r, w' := ProvideCreate(w, depth, sh, slots);
      case ProviderKind(_, _) =>
        r, w' := ProvideCreate(w, depth, sh, slots);
      case MethodRunnerKind(_, _) =>
        r, w' := RunnerCreate(w, depth, sh, slots);
    }

    method ClassCreate(w: World, depth: nat, ghost sh: Shape, ghost slots: map<Entity, Value>) returns (r: Result<Value>, w': World)
      requires Mirrors(sh) && Current(sh, slots) && this in sh.info && kind.ClassKind?
      modifies sh.info.Keys`instance
      ensures Yields(r, w', sh, ClassCreateSpec(this, Store(slots, w), depth, sh))
      decreases depth, 5, 0
    {
      if scope == Singleton && instance.Some? {
        return Success(instance), w;
      }
      var args, w1 := owner.ResolveAll(Injectables(kind.ctor.params), w, depth, sh, slots);
      ghost var a := LookupAll(owner, Injectables(kind.ctor.params), Store(slots, w), depth, sh);
      if args.Failure? {
        return Failure(args.error), w1;
      }
      var c := NewInstance(w1, kind.cls, kind.hooks, kind.ctor, args.value);
      if c.0.Failure? {
        return Failure(c.0.error), c.1;
      }
      r, w' := Initialise(c.0.value, c.1, depth, sh, a.store.slots);
    }

    /** The rest of `ClassEntity.createInstance()` once the object exists: store, inject, run hooks. */
    method Initialise(obj: Obj, w: World, depth: nat, ghost sh: Shape, ghost slots: map<Entity, Value>)
      returns (r: Result<Value>, w': World)
      requires Mirrors(sh) && Current(sh, slots) && this in sh.info && kind.ClassKind?
      modifies sh.info.Keys`instance
      ensures Yields(r, w', sh, InitSpec(this, obj, Store(slots, w), depth, sh))
      decreases depth, 4, 0
    {
      instance := Some(obj);
      var f, w1 := InjectInto(w, depth, sh, slots[this := Some(obj)]);
      if f.Failure? {
        return Failure(f.error), w1;
      }
      if instance.None? {
        // Invoking a hook on null throws; with no hooks the null is returned as it is.
        if kind.hooks != [] {
          return Failure(NullReference), w1;
        }
        return Success(None), w1;
      }
      w' := InvokeHooks(w1, instance.value, kind.hooks);
      r := Success(instance);
    }

    /** The @Autowired field loop of `ClassEntity.createInstance()`. */
    method InjectInto(w: World, depth: nat, ghost sh: Shape, ghost slots: map<Entity, Value>) returns (r: Result<()>, w': World)
      requires Mirrors(sh) && Current(sh, slots) && this in sh.info && kind.ClassKind?
      modifies sh.info.Keys`instance
      ensures Yields(r, w', sh, InjectFields(this, kind.fields, Store(slots, w), depth, sh))
      decreases depth, 3, |kind.fields|
    {
      var fields := kind.fields;
      w' := w;
      ghost var cur := slots;
      var i := 0;
      while i < |fields|
        invariant 0 <= i <= |fields| && Mirrors(sh) && Current(sh, cur)
        invariant InjectFields(this, fields[i..], Store(cur, w'), depth, sh) == InjectFields(this, fields, Store(slots, w), depth, sh)
      {
        var target := instance;
        var v, w1 := owner.GetInstance(fields[i].ty, w', depth, sh, cur);
        ghost var g := LookupSpec(owner, fields[i].ty, Store(cur, w'), depth, sh);
        assert fields[i..][1..] == fields[i + 1..];
        if v.Failure? {
          return Failure(v.error), w1;
        }
        if target.None? {
          return Failure(NullReference), w1;
        }
        w', cur := SetField(w1, target.value, fields[i].name, v.value), g.store.slots;
        i := i + 1;
      }
      r := Success(());
    }

    method InjectorCreate(w: World, depth: nat, ghost sh: Shape, ghost slots: map<Entity, Value>) returns (r: Result<Value>, w': World)
      requires Mirrors(sh) && Current(sh, slots) && this in sh.info && kind.InjectorKind?
      modifies sh.info.Keys`instance
      ensures Yields(r, w', sh, InjectorCreateSpec(this, Store(slots, w), depth, sh))
      decreases depth, 5, 0
    {
      if scope == Singleton && instance.Some? {
        return Success(instance), w;
      }
      var args, w1 := owner.ResolveAll(kind.ctor.params, w, depth, sh, slots);
      if args.Failure? {
        return Failure(args.error), w1;
      }
      var c := NewInstance(w1, kind.cls, kind.hooks, kind.ctor, args.value);
      if c.0.Failure? {
        return Failure(c.0.error), c.1;
      }
      instance := Some(c.0.value);
      r, w' := Success(instance), c.1;
    }

    /** `createInstance()` of MethodProviderEntity and ProviderEntity. */
    method ProvideCreate(w: World, depth: nat, ghost sh: Shape, ghost slots: map<Entity, Value>) returns (r: Result<Value>, w': World)
      requires Mirrors(sh) && Current(sh, slots) && this in sh.info && (kind.MethodProviderKind? || kind.ProviderKind?)
      modifies sh.info.Keys`instance
      ensures Yields(r, w', sh, ProvideSpec(this, Store(slots, w), depth, sh))
      decreases depth, 5, 0
    {
      if scope == Singleton && instance.Some? {
        return Success(instance), w;
      }
      var args, w1 := owner.ResolveAll(InvocationTypes(kind), w, depth, sh, slots);
      if args.Failure? {
        return Failure(args.error), w1;
      }
      var c := Invoke(w1, kind.callee, kind.target, args.value);
      if c.0.Failure? {
        return Failure(c.0.error), c.1;
      }
      instance := c.0.value;
      r, w' := Success(instance), c.1;
    }

    method RunnerCreate(w: World, depth: nat, ghost sh: Shape, ghost slots: map<Entity, Value>) returns (r: Result<Value>, w': World)
      requires Mirrors(sh) && Current(sh, slots) && this in sh.info && kind.MethodRunnerKind?
      modifies sh.info.Keys`instance
      ensures Yields(r, w', sh, RunnerCreateSpec(this, Store(slots, w), depth, sh))
      decreases depth, 5, 0
    {
      if kind.callee.returnType.ty != RUNNABLE {
        return Failure(NotRunnable(kind.callee.name)), w;
      }
      var args, w1 := owner.ResolveAll(InvocationTypes(kind), w, depth, sh, slots);
      if args.Failure? {
        return Failure(args.error), w1;
      }
      ghost var a := LookupAll(owner, InvocationTypes(kind), Store(slots, w), depth, sh);
      r, w' := RunnerInvoke(args.value, w1, sh, a.store.slots);
    }

    /** MethodRunnerEntity after its arguments are resolved: invoke, store the result, run it (which may throw). */
    method RunnerInvoke(args: seq<Value>, w: World, ghost sh: Shape, ghost slots: map<Entity, Value>) returns (r: Result<Value>, w': World)
      requires Mirrors(sh) && Current(sh, slots) && this in sh.info && kind.MethodRunnerKind?
      modifies this`instance
      ensures Yields(r, w', sh, RunnerInvokeSpec(this, args, Store(slots, w)))
    {
      var c := Invoke(w, kind.callee, kind.target, args);
      if c.0.Failure? {
        return Failure(c.0.error), c.1;
      }
      instance := c.0.value;
      if instance.None? {
        return Failure(NullReference), c.1;
      }
      var run := Run(c.1, instance.value, kind.callee);
      w' := run.1;
      if run.0.Failure? {
        return Failure(run.0.error), w';
      }
      r := Success(instance);
    }
  }

  // ---------------------------------------------------------------------------
  // Entity factory
  // ---------------------------------------------------------------------------

  /** `e` is the entity `EntityFactory.create(module, type)` builds for `meta`, apart from its owner. */
  ghost predicate FromType(e: Entity, meta: ClassMeta)
    reads e`ty, e`subTypes, e`scope, e`instance, e`parameters
  {
    && e.ty == meta.info.ty && e.subTypes == SubTypesOf(meta.info) && e.instance == None && e.parameters == None
    && match EntityFactory.ClassifyType(meta)
       case ClassBinding(sc) =>
         meta.ctor.Some? && e.scope == sc && e.kind == ClassKind(meta.info.ty, meta.ctor.value, meta.autowired, meta.postConstruct)
       case EmptyBinding => e.scope == Singleton && e.kind == EmptyKind
  }

  /** `e` is the entity `EntityFactory.create(module, method)` builds, invoking `callee` on `target`. */
  ghost predicate FromMethod(e: Entity, target: Module, callee: MethodMeta)
    reads e`ty, e`subTypes, e`scope, e`instance, e`parameters
  {
    && e.ty == callee.returnType.ty && e.subTypes == SubTypesOf(callee.returnType) && e.scope == Singleton
    && e.instance == None && e.parameters == None
    && match EntityFactory.ClassifyMethod(callee)
       case Success(ProviderBinding) => e.kind == MethodProviderKind(callee, target)
       case Success(RunnerBinding) => e.kind == MethodRunnerKind(callee, target)
       case Failure(_) => false
  }

  /** `EntityFactory.create(module, type)` */
  method CreateForType(owner: Module, meta: ClassMeta) returns (r: Result<Entity>)
    ensures r.Failure? <==> EntityFactory.ClassifyType(meta).ClassBinding? && meta.ctor.None?
    ensures r.Failure? ==> r.error == NoSuchConstructor(meta.info.ty)
    ensures r.Success? ==> fresh(r.value) && r.value.owner == owner && FromType(r.value, meta)
  {
    match EntityFactory.ClassifyType(meta)
    case ClassBinding(sc) =>
      r := Entity.ClassEntity(owner, meta, sc);
    case EmptyBinding =>
      var e := Entity.EmptyEntity(owner, meta.info);
      r := Success(e);
  }

  /** `EntityFactory.create(module, method)` */
  method CreateForMethod(owner: Module, callee: MethodMeta) returns (r: Result<Entity>)
    ensures r.Failure? <==> EntityFactory.ClassifyMethod(callee).Failure?
    ensures r.Failure? ==> r.error == NoBindingMarker(callee.name)
    ensures r.Success? ==> fresh(r.value) && r.value.owner == owner && FromMethod(r.value, owner, callee)
  {
    match EntityFactory.ClassifyMethod(callee)
    case Success(ProviderBinding) =>
      var e := Entity.MethodProviderEntity(owner, callee);
      r := Success(e);
    case Success(RunnerBinding) =>
      var e := Entity.MethodRunnerEntity(owner, callee);
      r := Success(e);
    case Failure(err) =>
      r := Failure(err);
  }

  /** A declaration that makes `configure()` throw. */
  predicate Rejects(d: Declaration)
  {
    match d
    case BindType(meta) => EntityFactory.ClassifyType(meta).ClassBinding? && meta.ctor.None?
    case BindMethod(callee) => EntityFactory.ClassifyMethod(callee).Failure?
  }

  function Rejection(d: Declaration): Error
  {
    match d
    case BindType(meta) => NoSuchConstructor(meta.info.ty)
    case BindMethod(callee) => NoBindingMarker(callee.name)
  }

  /** The position of the first declaration that throws, or the number of declarations. */
  function FirstRejected(ds: seq<Declaration>): (n: nat)
    ensures n <= |ds| && (n < |ds| ==> Rejects(ds[n]))
    ensures forall i :: 0 <= i < n ==> !Rejects(ds[i])
  {
    if ds == [] then 0 else if Rejects(ds[0]) then 0 else 1 + FirstRejected(ds[1..])
  }

  ghost predicate Declared(e: Entity, target: Module, d: Declaration)
    reads e`ty, e`subTypes, e`scope, e`instance, e`parameters
  {
    match d
    case BindType(meta) => FromType(e, meta)
    case BindMethod(callee) => FromMethod(e, target, callee)
  }

  /**
   * Running the bindings `ds` of module `target` turned its entity list `before`
   * into `after`: one new entity per declaration up to the first that throws,
   * and the result names that declaration's error.
   */
  ghost predicate ScriptRan(ds: seq<Declaration>, target: Module, before: seq<Entity>, after: seq<Entity>, r: Result<()>)
    reads (set e | e in after)`ty, (set e | e in after)`subTypes, (set e | e in after)`scope
    reads (set e | e in after)`instance, (set e | e in after)`parameters
  {
    var n := FirstRejected(ds);
    && before <= after && |after| == |before| + n
    && (forall i :: 0 <= i < n ==> Declared(after[|before| + i], target, ds[i]))
    && r == if n == |ds| then Success(()) else Failure(Rejection(ds[n]))
  }

  /** Every module in `done` ran all of its bindings, starting from the entity list `start` records for it. */
  ghost predicate Settled(done: set<Module>, start: map<Module, seq<Entity>>)
    reads done`entities, EntitiesOf(done)`ty, EntitiesOf(done)`subTypes, EntitiesOf(done)`scope
    reads EntitiesOf(done)`instance, EntitiesOf(done)`parameters
  {
    forall c <- done :: c in start && c.configuration.Script? && ScriptRan(c.configuration.decls, c, start[c], c.entities, Success(()))
  }

  /** The methods marked @Provide, in the order given. */
  function Provided(ms: seq<MethodMeta>): (r: seq<MethodMeta>)
    ensures forall i :: 0 <= i < |r| ==> r[i].provide
  {
    if ms == [] then [] else (if ms[0].provide then [ms[0]] else []) + Provided(ms[1..])
  }

  // ---------------------------------------------------------------------------
  // Modules
  // ---------------------------------------------------------------------------

  class Module {
    var entities: seq<Entity>
    const configuration: Configuration

    /** The modules a CombinerModule installs. */
    function Children(): set<Module>
    {
      if configuration.Combine? then configuration.children else {}
    }

    /** `configure()` can run: a combiner's children are user modules other than itself. */
    predicate Installable()
    {
      configuration.Combine? ==> this !in configuration.children && forall c <- configuration.children :: c.configuration.Script?
    }

    /** A user module: constructing it binds every @Provide method of its class, in the iteration order of the reflected method set `methods`. */
    constructor (methods: seq<MethodMeta>, decls: seq<Declaration>)
      ensures configuration == Script(decls) && Unique(entities)
      ensures |entities| == |Provided(methods)|
      ensures forall i :: 0 <= i < |entities| ==>
                fresh(entities[i]) && entities[i].owner == this && FromMethod(entities[i], this, Provided(methods)[i])
    {
      entities := [];
      configuration := Script(decls);
      new;
      var ps := Provided(methods);
      for i := 0 to |ps|
        invariant |entities| == i && Unique(entities)
        invariant forall k :: 0 <= k < i ==> fresh(entities[k]) && entities[k].owner == this && FromMethod(entities[k], this, ps[k])
      {
        var e := BindMethod(ps[i]);
      }
    }

    /** `new CombinerModule(modules)`: the list is collapsed into a set. */
    constructor Combiner(modules: seq<Module>)
      ensures configuration == Combine(set m | m in modules) && entities == []
    {
      configuration := Combine(set m | m in modules);
      entities := [];
    }

    /** `bind(entity)`: a LinkedHashSet add. */
    method Bind(e: Entity) returns (r: Entity)
      modifies this`entities
      ensures r == e && entities == Add(old(entities), e)
      ensures Unique(old(entities)) ==> Unique(entities)
    {
      if Unique(entities) {
        AddUnique(entities, e);
      }
      entities := Add(entities, e);
      r := e;
    }

    /** `bind(clazz)`: `bind(EntityFactory.create(this, clazz))`. */
    method BindType(meta: ClassMeta) returns (r: Result<Entity>)
      modifies this`entities
      ensures r.Failure? <==> Rejects(Declaration.BindType(meta))
      ensures r.Failure? ==> r.error == Rejection(Declaration.BindType(meta)) && entities == old(entities)
      ensures Unique(old(entities)) ==> Unique(entities)
      ensures r.Success? ==> fresh(r.value) && r.value.owner == this && FromType(r.value, meta)
                             && entities == old(entities) + [r.value]
    {
      var c := CreateForType(this, meta);
      if c.Failure? {
        return Failure(c.error);
      }
      var e := Bind(c.value);
      r := Success(e);
    }

    /** `bind(method)`: `bind(EntityFactory.create(this, method))`. */
    method BindMethod(callee: MethodMeta) returns (r: Result<Entity>)
      modifies this`entities
      ensures r.Failure? <==> Rejects(Declaration.BindMethod(callee))
      ensures r.Failure? ==> r.error == Rejection(Declaration.BindMethod(callee)) && entities == old(entities)
      ensures Unique(old(entities)) ==> Unique(entities)
      ensures r.Success? ==> fresh(r.value) && r.value.owner == this && FromMethod(r.value, this, callee)
                             && entities == old(entities) + [r.value]
    {
      var c := CreateForMethod(this, callee);
      if c.Failure? {
        return Failure(c.error);
      }
      var e := Bind(c.value);
      r := Success(e);
    }

    /**
     * `configure()`: a user module runs its bindings, stopping at the first that
     * throws; a CombinerModule installs each of its children once, in the
     * unspecified order of its HashSet, which `order` records.
     */
    method Configure() returns (r: Result<()>, ghost order: seq<Module>)
      requires Installable()
      modifies this`entities, Children()`entities, EntitiesOf(Children())`owner
      ensures configuration.Script? ==> ScriptRan(configuration.decls, this, old(entities), entities, r)
      ensures configuration.Script? ==>
                forall i :: |old(entities)| <= i < |entities| ==> fresh(entities[i]) && entities[i].owner == this
      ensures configuration.Combine? ==>
                (r.Success? <==> forall c <- configuration.children :: FirstRejected(c.configuration.decls) == |c.configuration.decls|)
      ensures configuration.Combine? && r.Success? ==>
                && (forall c <- configuration.children :: ScriptRan(c.configuration.decls, c, old(c.entities), c.entities, Success(())))
                && Absorbed(configuration.children, old(entities))
      ensures configuration.Combine? && r.Failure? ==>
                old(entities) <= entities && forall e <- entities :: e in old(entities) || e in EntitiesOf(configuration.children)
      ensures configuration.Combine? ==>
                && entities == Gathered(old(entities), order)
                && Unique(order) && (forall d <- order :: d in configuration.children)
                && (r.Success? ==> forall c <- configuration.children :: c in order)
      ensures Unique(old(entities)) ==> Unique(entities)
      decreases if configuration.Combine? then 4 else 1
    {
      if configuration.Script? {
        r := RunBindings();
        order := [];
      } else {
        r, order := InstallChildren();
      }
    }

    /** A user module's `configure()` body: each binding in order, up to the first that throws. */
    method RunBindings() returns (r: Result<()>)
      requires configuration.Script?
      modifies this`entities
      ensures ScriptRan(configuration.decls, this, old(entities), entities, r)
      ensures forall i :: |old(entities)| <= i < |entities| ==> fresh(entities[i]) && entities[i].owner == this
      ensures Unique(old(entities)) ==> Unique(entities)
      decreases 0
    {
      var ds := configuration.decls;
      r := Success(());
      var i := 0;
      while i < |ds|
        invariant 0 <= i <= FirstRejected(ds)
        invariant old(entities) <= entities && |entities| == |old(entities)| + i
        invariant forall k :: 0 <= k < i ==> Declared(entities[|old(entities)| + k], this, ds[k])
        invariant forall k :: |old(entities)| <= k < |entities| ==> fresh(entities[k]) && entities[k].owner == this
        invariant Unique(old(entities)) ==> Unique(entities)
      {
        var b := DeclareNext(ds, i, old(entities));
        if b.Failure? {
          return Failure(b.error);
        }
        i := i + 1;
      }
    }

    /** One turn of the loop in `RunBindings`: declaration `i`, with what the declarations before it added. */
    method DeclareNext(ds: seq<Declaration>, i: nat, ghost base: seq<Entity>) returns (r: Result<Entity>)
      requires i < |ds| && i <= FirstRejected(ds)
      requires base <= entities && |entities| == |base| + i
      requires forall k :: 0 <= k < i ==> Declared(entities[|base| + k], this, ds[k])
      modifies this`entities
      ensures r.Failure? ==> FirstRejected(ds) == i && r.error == Rejection(ds[i]) && entities == old(entities)
      ensures r.Success? ==> i < FirstRejected(ds) && base <= entities && |entities| == |base| + i + 1
      ensures r.Success? ==> forall k :: 0 <= k <= i ==> Declared(entities[|base| + k], this, ds[k])
      ensures r.Success? ==> fresh(r.value) && r.value.owner == this && entities == old(entities) + [r.value]
      ensures Unique(old(entities)) ==> Unique(entities)
    {
      r := Declare(ds[i]);
      if r.Success? {
        assert entities[|base| + i] == r.value;
      }
    }

    /** One statement of a `configure()` body. */
    method Declare(d: Declaration) returns (r: Result<Entity>)
      modifies this`entities
      ensures r.Failure? <==> Rejects(d)
      ensures r.Failure? ==> r.error == Rejection(d) && entities == old(entities)
      ensures Unique(old(entities)) ==> Unique(entities)
      ensures r.Success? ==> fresh(r.value) && r.value.owner == this && Declared(r.value, this, d)
                             && entities == old(entities) + [r.value]
    {
      match d
      case BindType(meta) =>
        r := BindType(meta);
      case BindMethod(callee) =>
        r := BindMethod(callee);
    }

    /**
     * `CombinerModule.configure()`: `install` for every child, in the HashSet's
     * order, which `order` records: the entity list grows by each child's
     * entities in turn, and stops growing at the first child that throws.
     */
    method InstallChildren() returns (r: Result<()>, ghost order: seq<Module>)
      requires configuration.Combine? && Installable()
      modifies this`entities, Children()`entities, EntitiesOf(Children())`owner
      ensures r.Success? <==> forall c <- configuration.children :: FirstRejected(c.configuration.decls) == |c.configuration.decls|
      ensures r.Success? ==>
                && (forall c <- configuration.children :: ScriptRan(c.configuration.decls, c, old(c.entities), c.entities, Success(())))
                && Absorbed(configuration.children, old(entities))
      ensures r.Failure? ==> old(entities) <= entities && forall e <- entities :: e in old(entities) || e in EntitiesOf(configuration.children)
      ensures entities == Gathered(old(entities), order)
      ensures Unique(order) && forall d <- order :: d in configuration.children
      ensures r.Success? ==> forall c <- configuration.children :: c in order
      ensures Unique(old(entities)) ==> Unique(entities)
      decreases 3
    {
      var children := configuration.children;
      r := Success(());
      var remaining := children;
      ghost var done: set<Module> := {};
      order := [];
      ghost var start := map c | c in children :: old(c.entities);
      while remaining != {}
        invariant remaining <= children && done <= children && r.Success?
        invariant forall c <- children :: c in done <==> c !in remaining
        invariant forall c <- remaining :: c.entities == start[c]
        invariant Settled(done, start) && Absorbed(done, old(entities))
        invariant Enumerates(order, done, old(entities))
        invariant Unique(old(entities)) ==> Unique(entities)
        decreases remaining
      {
        var c :| c in remaining;
        r := InstallNext(c, done, start, old(entities), order);
        if r.Failure? {
          return;
        }
        remaining := remaining - {c};
        done := done + {c};
        order := order + [c];
      }
      assert done == children;
      assert Settled(children, start);
    }

    /** One turn of the loop in `CombinerModule.configure()`: `install(c)`, with what it adds to the modules installed before it. */
    method InstallChild(c: Module, ghost done: set<Module>, ghost start: map<Module, seq<Entity>>, ghost base: seq<Entity>)
      returns (r: Result<()>)
      requires c.configuration.Script? && c != this && c !in done && c in start && start[c] == c.entities
      requires forall d <- done :: d != this
      requires Settled(done, start) && Absorbed(done, base)
      modifies this`entities, c`entities, (set e | e in c.entities)`owner
      ensures r.Failure? ==> FirstRejected(c.configuration.decls) < |c.configuration.decls| && entities == old(entities)
      ensures r.Success? ==> FirstRejected(c.configuration.decls) == |c.configuration.decls|
      ensures r.Success? ==> Settled(done + {c}, start) && Absorbed(done + {c}, base)
      ensures r.Failure? ==> Absorbed(done, base)
      ensures r.Success? ==> entities == AddAll(old(entities), c.entities)
      ensures Unique(old(entities)) ==> Unique(entities)
      decreases 2, 1
    {
      ghost var before := entities;
      ghost var prior := EntitiesOf(done);
      r := Install(c);
      if r.Failure? {
        return;
      }
      AddAllExtends(before, c.entities);
      AddAllMembers(before, c.entities);
      assert Settled(done, start);
      assert EntitiesOf(done) == prior;
      EntitiesOfAdd(done, c);
      Settles(done, c, start);
      Absorbs(done, c, base, before);
    }

    /** A module that ran all its bindings joins the settled ones. */
    lemma Settles(done: set<Module>, c: Module, start: map<Module, seq<Entity>>)
      requires Settled(done, start) && c in start && c.configuration.Script?
      requires ScriptRan(c.configuration.decls, c, start[c], c.entities, Success(()))
      ensures Settled(done + {c}, start)
    {
    }

    /** Once `c`'s entities are added and owned, `c` joins the absorbed modules. */
    lemma Absorbs(done: set<Module>, c: Module, base: seq<Entity>, before: seq<Entity>)
      requires base <= before <= entities
      requires forall e <- before :: e in base || e in EntitiesOf(done)
      requires forall e <- entities :: e in before || e in c.entities
      requires forall e <- EntitiesOf(done) :: e in before && e.owner == this
      requires forall e <- c.entities :: e in entities && e.owner == this
      ensures Absorbed(done + {c}, base)
    {
      EntitiesOfAdd(done, c);
      forall d, e | d in done && e in d.entities
        ensures e in entities && e.owner == this
      {
        assert e in EntitiesOf(done);
        assert e in before;
      }
    }

    /** `InstallChild`, recording `c` as the next module in the installation order `order`. */
    method InstallNext(c: Module, ghost done: set<Module>, ghost start: map<Module, seq<Entity>>, ghost base: seq<Entity>,
                       ghost order: seq<Module>)
      returns (r: Result<()>)
      requires c.configuration.Script? && c != this && c !in done && c in start && start[c] == c.entities
      requires forall d <- done :: d != this
      requires Settled(done, start) && Absorbed(done, base) && Enumerates(order, done, base)
      modifies this`entities, c`entities, (set e | e in c.entities)`owner
      ensures r.Failure? ==> FirstRejected(c.configuration.decls) < |c.configuration.decls| && entities == old(entities)
      ensures r.Success? ==> FirstRejected(c.configuration.decls) == |c.configuration.decls|
      ensures r.Success? ==> Settled(done + {c}, start) && Absorbed(done + {c}, base)
      ensures r.Failure? ==> Absorbed(done, base)
      ensures r.Success? ==> Enumerates(order + [c], done + {c}, base)
      ensures r.Failure? ==> Enumerates(order, done, base)
      ensures Unique(old(entities)) ==> Unique(entities)
      decreases 2, 2
    {
      r := InstallChild(c, done, start, base);
      assert Gathered(base, order) == old(Gathered(base, order));
      if r.Success? {
        assert (order + [c])[..|order|] == order;
      }
    }

    /**
     * `order` lists the modules of `done`, each once, and this module's entities
     * are `base` grown by theirs in that order.
     */
    ghost predicate Enumerates(order: seq<Module>, done: set<Module>, base: seq<Entity>)
      reads this`entities, (set m | m in order)`entities
    {
      && Unique(order) && (forall d <- order :: d in done) && (forall d <- done :: d in order)
      && entities == Gathered(base, order)
    }

    /**
     * This module's entities are `base` followed by those of the modules in `done`,
     * and every entity of a module in `done` now names this module as its owner.
     */
    ghost predicate Absorbed(done: set<Module>, base: seq<Entity>)
      reads this`entities, done`entities, EntitiesOf(done)`owner
    {
      && base <= entities
      && (forall d <- done :: forall e <- d.entities :: e in entities && e.owner == this)
      && forall e <- entities :: e in base || e in EntitiesOf(done)
    }

    /**
     * `install(module)`: configures `m`, makes this the owner of every entity of
     * `m`, then adds them to this module's set; `m` keeps its own entities.
     */
    method Install(m: Module) returns (r: Result<()>)
      requires m.configuration.Script? && m != this
      modifies this`entities, m`entities, (set e | e in m.entities)`owner
      ensures ScriptRan(m.configuration.decls, m, old(m.entities), m.entities, r)
      ensures forall i :: |old(m.entities)| <= i < |m.entities| ==> fresh(m.entities[i])
      ensures old(m.entities) <= m.entities
      ensures r.Success? ==> (forall e <- m.entities :: e.owner == this) && entities == AddAll(old(entities), m.entities)
      ensures Unique(old(entities)) ==> Unique(entities)
      ensures Unique(old(m.entities)) ==> Unique(m.entities)
      ensures forall e: Entity | old(allocated(e)) :: e.owner == old(e.owner) || e.owner == this
      ensures r.Failure? ==>
                && entities == old(entities)
                && (forall i :: 0 <= i < |old(m.entities)| ==> m.entities[i].owner == old(m.entities[i].owner))
                && (forall i :: |old(m.entities)| <= i < |m.entities| ==> m.entities[i].owner == m)
      decreases 2, 0
    {
      ghost var order;
      r, order := m.Configure();
      if r.Failure? {
        return;
      }
      Adopt(m.entities);
      if Unique(entities) {
        AddAllUnique(entities, m.entities);
      }
      entities := AddAll(entities, m.entities);
    }

    /** The loop in `install(module)` that makes this module the owner of each entity of `es`. */
    method Adopt(es: seq<Entity>)
      modifies (set e | e in es)`owner
      ensures forall e <- es :: e.owner == this
    {
      var i := 0;
      while i < |es|
        invariant 0 <= i <= |es|
        invariant forall k :: 0 <= k < i ==> es[k].owner == this
      {
        var _ := es[i].WithModule(this);
        i := i + 1;
      }
    }

    /** `getEntity(t)`: the first entity, in insertion order, whose type or captured subtypes match. */
    function GetEntity(t: JType): (r: Result<Entity>)
      reads this`entities, (set e | e in entities)`ty, (set e | e in entities)`subTypes
      ensures r.Failure? ==> r.error == NoEntityFound(t) && forall i :: 0 <= i < |entities| ==> !entities[i].Matches(t)
      ensures r.Success? ==> exists i :: 0 <= i < |entities| && entities[i] == r.value && r.value.Matches(t)
                                         && forall j :: 0 <= j < i ==> !entities[j].Matches(t)
    {
      var i := FirstMatch(entities, t);
      if i == |entities| then Failure(NoEntityFound(t)) else Success(entities[i])
    }

    /** `getInstance(t)` */
    method GetInstance(t: JType, w: World, depth: nat, ghost sh: Shape, ghost slots: map<Entity, Value>) returns (r: Result<Value>, w': World)
      requires Mirrors(sh) && Current(sh, slots) && this in sh.members
      modifies sh.info.Keys`instance
      ensures Yields(r, w', sh, LookupSpec(this, t, Store(slots, w), depth, sh))
      decreases depth, 2, 0
    {
      GetEntityAgrees(sh, this, t);
      var e := GetEntity(t);
      if e.Failure? {
        return Failure(e.error), w;
      }
      r, w' := e.value.GetInstance(w, depth, sh, slots);
    }

    /** The argument stream: `getInstance(p)` for each type, in order. */
    method ResolveAll(ts: seq<JType>, w: World, depth: nat, ghost sh: Shape, ghost slots: map<Entity, Value>)
      returns (r: Result<seq<Value>>, w': World)
      requires Mirrors(sh) && Current(sh, slots) && this in sh.members
      modifies sh.info.Keys`instance
      ensures Yields(r, w', sh, LookupAll(this, ts, Store(slots, w), depth, sh))
      decreases depth, 3, |ts|
    {
      var vs := [];
      w' := w;
      ghost var cur := slots;
      var i := 0;
      assert ts[0..] == ts;
      PrefixedEmpty(LookupAll(this, ts, Store(slots, w), depth, sh));
      while i < |ts|
        invariant 0 <= i <= |ts| && Mirrors(sh) && Current(sh, cur)
        invariant Prefixed(vs, LookupAll(this, ts[i..], Store(cur, w'), depth, sh)) == LookupAll(this, ts, Store(slots, w), depth, sh)
      {
        var v, w1 := GetInstance(ts[i], w', depth, sh, cur);
        ghost var g := LookupSpec(this, ts[i], Store(cur, w'), depth, sh);
        assert ts[i..][1..] == ts[i + 1..];
        if v.Failure? {
          return Failure(v.error), w1;
        }
        PrefixedStep(vs, v.value, LookupAll(this, ts[i + 1..], g.store, depth, sh));
        vs, w', cur := vs + [v.value], w1, g.store.slots;
        i := i + 1;
      }
      assert vs + [] == vs;
      r := Success(vs);
    }

    /** `create()` */
    method Create(w: World, depth: nat, ghost sh: Shape, ghost slots: map<Entity, Value>) returns (r: Result<()>, w': World)
      requires Mirrors(sh) && Current(sh, slots) && this in sh.members
      modifies sh.info.Keys`instance
      ensures Yields(r, w', sh, CreatePass(entities, Store(slots, w), depth, sh))
    {
      w' := w;
      ghost var cur := slots;
      var es := entities;
      var i := 0;
      while i < |es|
        invariant 0 <= i <= |es| && Mirrors(sh) && Current(sh, cur)
        invariant CreatePass(es[i..], Store(cur, w'), depth, sh) == CreatePass(es, Store(slots, w), depth, sh)
      {
        var v, w1 := Prepare(es[i], w', depth, sh, cur);
        ghost var p := PrepareSpec(es[i], Store(cur, w'), depth, sh);
        assert es[i..][1..] == es[i + 1..];
        if v.Failure? {
          return v, w1;
        }
        w', cur := w1, p.store.slots;
        i := i + 1;
      }
      r := Success(());
    }

    /** One step of `create()`: build the entity's instance, then run the hooks of its runtime class on it. */
    method Prepare(e: Entity, w: World, depth: nat, ghost sh: Shape, ghost slots: map<Entity, Value>) returns (r: Result<()>, w': World)
      requires Mirrors(sh) && Current(sh, slots) && e in sh.info
      modifies sh.info.Keys`instance
      ensures Yields(r, w', sh, PrepareSpec(e, Store(slots, w), depth, sh))
    {
      var v, w1 := e.CreateInstance(w, depth, sh, slots);
      if v.Failure? {
        return Failure(v.error), w1;
      }
      if v.value.None? {
        return Failure(NullReference), w1;
      }
      var obj := v.value.value;
      w' := InvokeHooks(w1, obj, obj.hooks);
      r := Success(());
    }
  }

  ghost function EntitiesOf(ms: set<Module>): set<Entity>
    reads ms`entities
  {
    set m, e | m in ms && e in m.entities :: e
  }

  /** Adding a module to a set adds exactly its entities. */
  lemma EntitiesOfAdd(ms: set<Module>, m: Module)
    ensures EntitiesOf(ms + {m}) == EntitiesOf(ms) + set e | e in m.entities
  {
  }

  /** `base` after `addAll` of the entities of each module of `order`, one module after the other. */
  ghost function Gathered(base: seq<Entity>, order: seq<Module>): seq<Entity>
    reads (set m | m in order)`entities
    decreases |order|
  {
    if order == [] then base else AddAll(Gathered(base, order[..|order| - 1]), order[|order| - 1].entities)
  }

  /** The entity lists of the modules of `order`, one after the other. */
  ghost function Concatenated(order: seq<Module>): seq<Entity>
    reads (set m | m in order)`entities
    decreases |order|
  {
    if order == [] then [] else Concatenated(order[..|order| - 1]) + order[|order| - 1].entities
  }

  /**
   * When no entity occurs twice across `base` and the modules' lists, gathering
   * adds every list whole and in its own order.
   */
  lemma {:induction false} GatheredKeepsOrder(base: seq<Entity>, order: seq<Module>)
    requires Unique(base + Concatenated(order))
    ensures Gathered(base, order) == base + Concatenated(order)
    decreases |order|
  {
    if order == [] {
      assert base + [] == base;
    } else {
      var front := order[..|order| - 1];
      var last := order[|order| - 1].entities;
      assert base + Concatenated(order) == (base + Concatenated(front)) + last;
      UniqueSplit(base + Concatenated(front), last);
      GatheredKeepsOrder(base, front);
      AddAllFresh(base + Concatenated(front), last);
    }
  }

  function FirstMatch(es: seq<Entity>, t: JType): (i: nat)
    reads (set e | e in es)`ty, (set e | e in es)`subTypes
    ensures i <= |es| && (i < |es| ==> es[i].Matches(t))
    ensures forall j :: 0 <= j < i ==> !es[j].Matches(t)
  {
    if es == [] then 0
    else if es[0].Matches(t) then 0
    else 1 + FirstMatch(es[1..], t)
  }

  // ---------------------------------------------------------------------------
  // The state resolution works on
  // ---------------------------------------------------------------------------

  /** What resolution reads of an entity and never writes. */
  datatype Info = Info(owner: Module, ty: JType, subTypes: seq<Option<JType>>, scope: Scope)

  /** The fixed structure: each entity's owner, type, subtypes and scope, and each module's entity list. */
  datatype Shape = Shape(info: map<Entity, Info>, members: map<Module, seq<Entity>>)
  {
    /** Owners and members stay inside the structure. */
    ghost predicate Closed()
    {
      && (forall e <- info :: info[e].owner in members)
      && (forall m <- members :: forall i :: 0 <= i < |members[m]| ==> members[m][i] in info)
    }

    /** `getEntity(t)` on module `m`, read from the structure. */
    function Find(m: Module, t: JType): (r: Result<Entity>)
      requires Closed() && m in members
      ensures r.Success? ==> r.value in info && r.value in members[m]
    {
      var i := Locate(members[m], t);
      if i == |members[m]| then Failure(NoEntityFound(t)) else Success(members[m][i])
    }

    function Locate(es: seq<Entity>, t: JType): (i: nat)
      requires forall k :: 0 <= k < |es| ==> es[k] in info
      ensures i <= |es|
      ensures i < |es| ==> Provides(info[es[i]].ty, info[es[i]].subTypes, t)
      ensures forall j :: 0 <= j < i ==> !Provides(info[es[j]].ty, info[es[j]].subTypes, t)
    {
      if es == [] then 0
      else if Provides(info[es[0]].ty, info[es[0]].subTypes, t) then 0
      else 1 + Locate(es[1..], t)
    }
  }

  /** `sh` is what the heap holds now: every entity's fields and every module's entity list. */
  ghost predicate Mirrors(sh: Shape)
    reads sh.info.Keys`owner, sh.info.Keys`ty, sh.info.Keys`subTypes, sh.info.Keys`scope, sh.members.Keys`entities
  {
    && sh.Closed()
    && (forall e <- sh.info :: sh.info[e] == Info(e.owner, e.ty, e.subTypes, e.scope))
    && (forall m <- sh.members :: sh.members[m] == m.entities)
  }

  /** `slots` holds the current instance of every entity of `sh`. */
  ghost predicate Current(sh: Shape, slots: map<Entity, Value>)
    reads sh.info.Keys`instance
  {
    forall e <- sh.info :: e.instance == Slot(slots, e)
  }

  /** A method returned what the specification outcome `o` says, and left the slots it says. */
  ghost predicate Yields<T>(r: Result<T>, w': World, sh: Shape, o: Outcome<T>)
    reads sh.info.Keys`instance
  {
    r == o.result && w' == o.store.world && Current(sh, o.store.slots)
  }

  /** The instance slot of every entity, and the Java runtime. */
  datatype Store = Store(slots: map<Entity, Value>, world: World)

  /** What a resolution step returns together with the store it leaves. */
  datatype Outcome<+T> = Outcome(result: Result<T>, store: Store)

  /** An entity's slot in a store; an entity the store does not list holds null. */
  function Slot(slots: map<Entity, Value>, e: Entity): Value
  {
    if e in slots then slots[e] else None
  }

  /** The heap's `getEntity` and the structure's `Find` give the same answer. */
  lemma GetEntityAgrees(sh: Shape, m: Module, t: JType)
    requires Mirrors(sh) && m in sh.members
    ensures m.GetEntity(t) == sh.Find(m, t)
  {
    LocateAgrees(sh, m.entities, t);
  }

  lemma {:induction false} LocateAgrees(sh: Shape, es: seq<Entity>, t: JType)
    requires Mirrors(sh) && forall k :: 0 <= k < |es| ==> es[k] in sh.info
    ensures FirstMatch(es, t) == sh.Locate(es, t)
  {
    if es != [] {
      LocateAgrees(sh, es[1..], t);
    }
  }

  ghost function Prefixed(vs: seq<Value>, o: Outcome<seq<Value>>): Outcome<seq<Value>>
  {
    if o.result.Success? then Outcome(Success(vs + o.result.value), o.store) else o
  }

  lemma PrefixedEmpty(o: Outcome<seq<Value>>)
    ensures Prefixed([], o) == o
  {
    if o.result.Success? {
      assert [] + o.result.value == o.result.value;
    }
  }

  lemma PrefixedStep(vs: seq<Value>, v: Value, o: Outcome<seq<Value>>)
    ensures Prefixed(vs, if o.result.Failure? then o else Outcome(Success([v] + o.result.value), o.store))
         == Prefixed(vs + [v], o)
  {
    if o.result.Success? {
      assert vs + ([v] + o.result.value) == vs + [v] + o.result.value;
    }
  }

  // ---------------------------------------------------------------------------
  // Specification of resolution
  //
  // Each function below is what the method of the same name computes, as a
  // function of the store it starts from. `depth` is the remaining call depth:
  // resolution has no cycle detection, and a dependency chain longer than the
  // stack ends in StackOverflow.
  // ---------------------------------------------------------------------------

  /** `AbstractEntity.getInstance()`: a singleton answers its slot; anything else is built. */
  ghost function GetSpec(e: Entity, s: Store, depth: nat, sh: Shape): (o: Outcome<Value>)
    requires sh.Closed() && e in sh.info
    decreases depth, 1, 0
  {
    if sh.info[e].scope == Singleton then Outcome(Success(Slot(s.slots, e)), s)
    else if depth == 0 then Outcome(Failure(StackOverflow), s)
    else CreateSpec(e, s, depth - 1, sh)
  }

  /** `Module.getInstance(t)`: `getEntity(t).getInstance()`. */
  ghost function LookupSpec(m: Module, t: JType, s: Store, depth: nat, sh: Shape): (o: Outcome<Value>)
    requires sh.Closed() && m in sh.members
    decreases depth, 2, 0
  {
    match sh.Find(m, t)
    case Failure(err) => Outcome(Failure(err), s)
    case Success(d) => GetSpec(d, s, depth, sh)
  }

  /** Looks every type up in order; the first failure aborts the rest. */
  ghost function LookupAll(m: Module, ts: seq<JType>, s: Store, depth: nat, sh: Shape): (o: Outcome<seq<Value>>)
    requires sh.Closed() && m in sh.members
    ensures o.result.Success? ==> |o.result.value| == |ts|
    decreases depth, 3, |ts|
  {
    if ts == [] then Outcome(Success([]), s)
    else
      var g := LookupSpec(m, ts[0], s, depth, sh);
      if g.result.Failure? then Outcome(Failure(g.result.error), g.store)
      else
        var rest := LookupAll(m, ts[1..], g.store, depth, sh);
        if rest.result.Failure? then rest
        else Outcome(Success([g.result.value] + rest.result.value), rest.store)
  }

  /**
   * ClassEntity's field loop: each field of the object in `e`'s slot, read before
   * the lookup, is set to `module.getInstance(type)`; setting a field of null throws.
   */
  ghost function InjectFields(e: Entity, fields: seq<Field>, s: Store, depth: nat, sh: Shape): (o: Outcome<()>)
    requires sh.Closed() && e in sh.info
    decreases depth, 3, |fields|
  {
    if fields == [] then Outcome(Success(()), s)
    else
      var target := Slot(s.slots, e);
      var g := LookupSpec(sh.info[e].owner, fields[0].ty, s, depth, sh);
      if g.result.Failure? then Outcome(Failure(g.result.error), g.store)
      else if target.None? then Outcome(Failure(NullReference), g.store)
      else
        var w := SetField(g.store.world, target.value, fields[0].name, g.result.value);
        InjectFields(e, fields[1..], Store(g.store.slots, w), depth, sh)
  }

  /** `ClassEntity.createInstance()` */
  ghost function ClassCreateSpec(e: Entity, s: Store, depth: nat, sh: Shape): (o: Outcome<Value>)
    requires sh.Closed() && e in sh.info && e.kind.ClassKind?
    ensures o.result.Success? ==> o.result.value == Slot(o.store.slots, e)
    decreases depth, 5, 0
  {
    var k := e.kind;
    if sh.info[e].scope == Singleton && Slot(s.slots, e).Some? then Outcome(Success(Slot(s.slots, e)), s)
    else
      var a := LookupAll(sh.info[e].owner, Injectables(k.ctor.params), s, depth, sh);
      if a.result.Failure? then Outcome(Failure(a.result.error), a.store)
      else
        var c := NewInstance(a.store.world, k.cls, k.hooks, k.ctor, a.result.value);
        if c.0.Failure? then Outcome(Failure(c.0.error), Store(a.store.slots, c.1))
        else InitSpec(e, c.0.value, Store(a.store.slots, c.1), depth, sh)
  }

  /**
   * ClassEntity after `newInstance`: the object goes into the slot, its fields are
   * injected, and the hooks run on whatever the slot then holds; a null slot
   * throws only when there is a hook to invoke on it.
   */
  ghost function InitSpec(e: Entity, obj: Obj, s: Store, depth: nat, sh: Shape): (o: Outcome<Value>)
    requires sh.Closed() && e in sh.info && e.kind.ClassKind?
    ensures o.result.Success? ==> o.result.value == Slot(o.store.slots, e)
    decreases depth, 4, 0
  {
    var f := InjectFields(e, e.kind.fields, Store(s.slots[e := Some(obj)], s.world), depth, sh);
    if f.result.Failure? then Outcome(Failure(f.result.error), f.store)
    else if Slot(f.store.slots, e).None? then
      Outcome(if e.kind.hooks != [] then Failure(NullReference) else Success(None), f.store)
    else Outcome(Success(Slot(f.store.slots, e)), Store(f.store.slots, RunHooks(f.store.world, Slot(f.store.slots, e).value, e.kind.hooks)))
  }

  /** `InjectorEntity.createInstance()`: unfiltered constructor arguments, no fields, no hooks. */
  ghost function InjectorCreateSpec(e: Entity, s: Store, depth: nat, sh: Shape): (o: Outcome<Value>)
    requires sh.Closed() && e in sh.info && e.kind.InjectorKind?
    ensures o.result.Success? ==> o.result.value == Slot(o.store.slots, e)
    decreases depth, 5, 0
  {
    var k := e.kind;
    if sh.info[e].scope == Singleton && Slot(s.slots, e).Some? then Outcome(Success(Slot(s.slots, e)), s)
    else
      var a := LookupAll(sh.info[e].owner, k.ctor.params, s, depth, sh);
      if a.result.Failure? then Outcome(Failure(a.result.error), a.store)
      else
        var c := NewInstance(a.store.world, k.cls, k.hooks, k.ctor, a.result.value);
        if c.0.Failure? then Outcome(Failure(c.0.error), Store(a.store.slots, c.1))
        else Outcome(Success(Some(c.0.value)), Store(a.store.slots[e := Some(c.0.value)], c.1))
  }

  /**
   * The parameter types a method-backed entity resolves before invoking:
   * ProviderEntity resolves every parameter, the other two skip arrays and primitives.
   */
  function InvocationTypes(k: Kind): seq<JType>
    requires k.MethodProviderKind? || k.ProviderKind? || k.MethodRunnerKind?
  {
    if k.ProviderKind? then k.callee.params else Injectables(k.callee.params)
  }

  /**
   * `MethodProviderEntity.createInstance()` and `ProviderEntity.createInstance()`:
   * cache check, arguments, invocation on the captured module, slot.
   */
  ghost function ProvideSpec(e: Entity, s: Store, depth: nat, sh: Shape): (o: Outcome<Value>)
    requires sh.Closed() && e in sh.info && (e.kind.MethodProviderKind? || e.kind.ProviderKind?)
    ensures o.result.Success? ==> o.result.value == Slot(o.store.slots, e)
    decreases depth, 5, 0
  {
    var k := e.kind;
    if sh.info[e].scope == Singleton && Slot(s.slots, e).Some? then Outcome(Success(Slot(s.slots, e)), s)
    else
      var a := LookupAll(sh.info[e].owner, InvocationTypes(k), s, depth, sh);
      if a.result.Failure? then Outcome(Failure(a.result.error), a.store)
      else ProvideInvokeSpec(e, a.result.value, a.store)
  }

  /** The invocation of a provider method on its captured module; the result, null or not, goes into the slot. */
  ghost function ProvideInvokeSpec(e: Entity, args: seq<Value>, s: Store): (o: Outcome<Value>)
    requires e.kind.MethodProviderKind? || e.kind.ProviderKind?
    ensures o.result.Success? ==> o.result.value == Slot(o.store.slots, e)
  {
    var k := e.kind;
    var c := Invoke(s.world, k.callee, k.target, args);
    if c.0.Failure? then Outcome(Failure(c.0.error), Store(s.slots, c.1))
    else Outcome(Success(c.0.value), Store(s.slots[e := c.0.value], c.1))
  }

  /** `MethodRunnerEntity.createInstance()`: no cache check; invoke, store, run. */
  ghost function RunnerCreateSpec(e: Entity, s: Store, depth: nat, sh: Shape): (o: Outcome<Value>)
    requires sh.Closed() && e in sh.info && e.kind.MethodRunnerKind?
    ensures o.result.Success? ==> o.result.value == Slot(o.store.slots, e)
    decreases depth, 5, 0
  {
    var k := e.kind;
    if k.callee.returnType.ty != RUNNABLE then Outcome(Failure(NotRunnable(k.callee.name)), s)
    else
      var a := LookupAll(sh.info[e].owner, InvocationTypes(k), s, depth, sh);
      if a.result.Failure? then Outcome(Failure(a.result.error), a.store)
      else RunnerInvokeSpec(e, a.result.value, a.store)
  }

  /**
   * MethodRunnerEntity's invocation: the result goes into the slot even when it
   * is null, then it is run; a `run()` that throws fails the call with the
   * Runnable left in the slot.
   */
  ghost function RunnerInvokeSpec(e: Entity, args: seq<Value>, s: Store): (o: Outcome<Value>)
    requires e.kind.MethodRunnerKind?
    ensures o.result.Success? ==> o.result.value == Slot(o.store.slots, e)
  {
    var k := e.kind;
    var c := Invoke(s.world, k.callee, k.target, args);
    if c.0.Failure? then Outcome(Failure(c.0.error), Store(s.slots, c.1))
    else if c.0.value.None? then Outcome(Failure(NullReference), Store(s.slots[e := None], c.1))
    else
      var run := Run(c.1, c.0.value.value, k.callee);
      Outcome(if run.0.Failure? then Failure(run.0.error) else Success(c.0.value), Store(s.slots[e := c.0.value], run.1))
  }

  /** `createInstance()`, dispatched on the entity's class. */
  ghost function CreateSpec(e: Entity, s: Store, depth: nat, sh: Shape): (o: Outcome<Value>)
    requires sh.Closed() && e in sh.info
    ensures o.result.Success? ==> o.result.value == Slot(o.store.slots, e)
    decreases depth, 6, 0
  {
    match e.kind
    case EmptyKind => Outcome(Success(Slot(s.slots, e)), s)
    case ClassKind(_, _, _, _) => ClassCreateSpec(e, s, depth, sh)
    case InjectorKind(_, _, _) => InjectorCreateSpec(e, s, depth, sh)
    case MethodProviderKind(_, _) => ProvideSpec(e, s, depth, sh)
    case ProviderKind(_, _) => ProvideSpec(e, s, depth, sh)
    case MethodRunnerKind(_, _) => RunnerCreateSpec(e, s, depth, sh)
  }

  /** One entity of `Module.create()`: built, then the @PostConstruct methods of the returned object's class run on it. */
  ghost function PrepareSpec(e: Entity, s: Store, depth: nat, sh: Shape): Outcome<()>
    requires sh.Closed() && e in sh.info
  {
    var c := CreateSpec(e, s, depth, sh);
    if c.result.Failure? then Outcome(Failure(c.result.error), c.store)
    else if c.result.value.None? then Outcome(Failure(NullReference), c.store)
    else
      var obj := c.result.value.value;
      Outcome(Success(()), Store(c.store.slots, RunHooks(c.store.world, obj, obj.hooks)))
  }

  /** `Module.create()`: every entity in insertion order; a null instance or a failure aborts the rest. */
  ghost function CreatePass(es: seq<Entity>, s: Store, depth: nat, sh: Shape): (o: Outcome<()>)
    requires sh.Closed() && forall i :: 0 <= i < |es| ==> es[i] in sh.info
    decreases |es|
  {
    if es == [] then Outcome(Success(()), s)
    else
      var p := PrepareSpec(es[0], s, depth, sh);
      if p.result.Failure? then p else CreatePass(es[1..], p.store, depth, sh)
  }
}
