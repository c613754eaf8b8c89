/**
 * What resolution guarantees, proved about the specification functions the
 * engine's methods are shown to compute.
 *
 * The central facts say how a store can evolve under resolution: allocation
 * only grows, effects are only appended, a slot either keeps its value, becomes
 * null, or receives an object allocated during the step, the fields of older
 * objects stay as they were, and no lookup ever changes a singleton's slot.
 * The properties the tests rely on follow from these.
 */
module Properties {
  import opened Types
  import opened Jvm
  import opened Engine

  // ---------------------------------------------------------------------------
  // How a store evolves
  // ---------------------------------------------------------------------------

  /** `v` is null or an object allocated between the two worlds. */
  ghost predicate Fresh(v: Value, a: World, b: World)
  {
    v.Some? ==> a.nextId <= v.value.id < b.nextId
  }

  /**
   * Whatever an entity of kind `k` builds is allocated by the build: true of
   * every kind but a method entity whose method returns an object that already
   * existed.
   */
  ghost predicate BuildsNew(k: Kind)
  {
    (k.MethodProviderKind? || k.ProviderKind? || k.MethodRunnerKind?) ==> !k.callee.outcome.ReturnsExisting?
  }

  /**
   * Every slot of an entity that builds new objects kept its value, or holds
   * null or a newly allocated object.
   */
  ghost predicate SlotsFresh(sh: Shape, a: Store, b: Store)
  {
    forall e <- sh.info :: BuildsNew(e.kind) ==> Slot(b.slots, e) == Slot(a.slots, e) || Fresh(Slot(b.slots, e), a.world, b.world)
  }

  /** Every field set on an object that existed in `a` still holds its value, except the fields of `target`. */
  ghost predicate FieldsKeptBut(a: World, b: World, target: Value)
  {
    forall k | k in a.fields && k.0 < a.nextId && (target.None? || k.0 != target.value.id) ::
      k in b.fields && b.fields[k] == a.fields[k]
  }

  /** The slot of every singleton outside `except` is unchanged. */
  ghost predicate SingletonsKept(sh: Shape, a: map<Entity, Value>, b: map<Entity, Value>, except: set<Entity>)
  {
    forall e <- sh.info :: sh.info[e].scope == Singleton && e !in except ==> Slot(b, e) == Slot(a, e)
  }

  ghost predicate Evolves(sh: Shape, a: Store, b: Store, target: Value)
  {
    Grows(a.world, b.world) && SlotsFresh(sh, a, b) && FieldsKeptBut(a.world, b.world, target)
  }

  /** `createInstance()` answers the slot without building anything. */
  ghost predicate Caches(sh: Shape, e: Entity, s: Store)
    requires e in sh.info
  {
    e.kind.EmptyKind? || (!e.kind.MethodRunnerKind? && sh.info[e].scope == Singleton && Slot(s.slots, e).Some?)
  }

  lemma EvolvesTransitive(sh: Shape, a: Store, b: Store, c: Store)
    requires Evolves(sh, a, b, None) && Evolves(sh, b, c, None)
    ensures Evolves(sh, a, c, None)
  {
  }

  /** A lookup: no singleton slot changes. */
  lemma {:induction false} LookupEvolves(m: Module, t: JType, s: Store, depth: nat, sh: Shape)
    requires sh.Closed() && m in sh.members
    ensures var o := LookupSpec(m, t, s, depth, sh);
            Evolves(sh, s, o.store, None) && SingletonsKept(sh, s.slots, o.store.slots, {})
    decreases depth, 2, 0
  {
    match sh.Find(m, t)
    case Failure(_) =>
    case Success(d) => GetEvolves(d, s, depth, sh);
  }

  lemma {:induction false} GetEvolves(e: Entity, s: Store, depth: nat, sh: Shape)
    requires sh.Closed() && e in sh.info
    ensures var o := GetSpec(e, s, depth, sh);
            Evolves(sh, s, o.store, None) && SingletonsKept(sh, s.slots, o.store.slots, {})
    decreases depth, 1, 0
  {
    if sh.info[e].scope != Singleton && depth > 0 {
      CreateEvolves(e, s, depth - 1, sh);
    }
  }

  lemma {:induction false} LookupAllEvolves(m: Module, ts: seq<JType>, s: Store, depth: nat, sh: Shape)
    requires sh.Closed() && m in sh.members
    ensures var o := LookupAll(m, ts, s, depth, sh);
            Evolves(sh, s, o.store, None) && SingletonsKept(sh, s.slots, o.store.slots, {})
    decreases depth, 3, |ts|
  {
    if ts != [] {
      var g := LookupSpec(m, ts[0], s, depth, sh);
      LookupEvolves(m, ts[0], s, depth, sh);
      if g.result.Success? {
        LookupAllEvolves(m, ts[1..], g.store, depth, sh);
      }
    }
  }

  /**
   * The field loop: only the object in `e`'s slot has fields set, and since it
   * only looks dependencies up, no singleton slot changes.
   */
  lemma {:induction false} InjectEvolves(e: Entity, fields: seq<Field>, s: Store, depth: nat, sh: Shape)
    requires sh.Closed() && e in sh.info && BuildsNew(e.kind)
    ensures var o := InjectFields(e, fields, s, depth, sh);
            Evolves(sh, s, o.store, Slot(s.slots, e)) && SingletonsKept(sh, s.slots, o.store.slots, {})
    decreases depth, 3, |fields|
  {
    if fields != [] {
      var target := Slot(s.slots, e);
      var g := LookupSpec(sh.info[e].owner, fields[0].ty, s, depth, sh);
      LookupEvolves(sh.info[e].owner, fields[0].ty, s, depth, sh);
      if g.result.Success? && target.Some? {
        var w := SetField(g.store.world, target.value, fields[0].name, g.result.value);
        var s1 := Store(g.store.slots, w);
        InjectEvolves(e, fields[1..], s1, depth, sh);
      }
    }
  }

  /**
   * `createInstance()`: the slots of other singletons are untouched, and an
   * answer that does not come from the cache is a newly allocated object.
   */
  lemma {:induction false} CreateEvolves(e: Entity, s: Store, depth: nat, sh: Shape)
    requires sh.Closed() && e in sh.info
    ensures var o := CreateSpec(e, s, depth, sh);
            && Evolves(sh, s, o.store, None) && SingletonsKept(sh, s.slots, o.store.slots, {e})
            && (o.result.Success? && !Caches(sh, e, s) && BuildsNew(e.kind) ==> Fresh(o.result.value, s.world, o.store.world))
    decreases depth, 6, 0
  {
    match e.kind
    case EmptyKind =>
    case ClassKind(_, _, _, _) => ClassCreateEvolves(e, s, depth, sh);
    case InjectorKind(_, _, _) => InjectorCreateEvolves(e, s, depth, sh);
    case MethodProviderKind(_, _) => ProvideEvolves(e, s, depth, sh);
    case ProviderKind(_, _) => ProvideEvolves(e, s, depth, sh);
    case MethodRunnerKind(_, _) => RunnerCreateEvolves(e, s, depth, sh);
  }

  lemma {:induction false} ClassCreateEvolves(e: Entity, s: Store, depth: nat, sh: Shape)
    requires sh.Closed() && e in sh.info && e.kind.ClassKind?
    ensures var o := ClassCreateSpec(e, s, depth, sh);
            && Evolves(sh, s, o.store, None) && SingletonsKept(sh, s.slots, o.store.slots, {e})
            && (o.result.Success? && !Caches(sh, e, s) ==> Fresh(o.result.value, s.world, o.store.world))
    decreases depth, 5, 0
  {
    var k := e.kind;
    if !(sh.info[e].scope == Singleton && Slot(s.slots, e).Some?) {
      var a := LookupAll(sh.info[e].owner, Injectables(k.ctor.params), s, depth, sh);
      LookupAllEvolves(sh.info[e].owner, Injectables(k.ctor.params), s, depth, sh);
      if a.result.Success? {
        ClassBuildEvolves(e, a.result.value, a.store, depth, sh);
        EvolvesTransitive(sh, s, a.store, ClassCreateSpec(e, s, depth, sh).store);
      }
    }
  }

  /** `newInstance` with the resolved arguments, then the field loop and the hooks. */
  lemma {:induction false} ClassBuildEvolves(e: Entity, args: seq<Value>, s: Store, depth: nat, sh: Shape)
    requires sh.Closed() && e in sh.info && e.kind.ClassKind?
    ensures var k := e.kind;
            var c := NewInstance(s.world, k.cls, k.hooks, k.ctor, args);
            var o := if c.0.Failure? then Outcome(Failure(c.0.error), Store(s.slots, c.1))
                     else InitSpec(e, c.0.value, Store(s.slots, c.1), depth, sh);
            && Evolves(sh, s, o.store, None) && SingletonsKept(sh, s.slots, o.store.slots, {e})
            && (o.result.Success? ==> Fresh(o.result.value, s.world, o.store.world))
    decreases depth, 4, 1
  {
    var k := e.kind;
    var c := NewInstance(s.world, k.cls, k.hooks, k.ctor, args);
    if c.0.Success? {
      var obj := c.0.value;
      var o := InitSpec(e, obj, Store(s.slots, c.1), depth, sh);
      InitEvolves(e, obj, Store(s.slots, c.1), depth, sh);
      assert s.world.nextId <= obj.id < c.1.nextId <= o.store.world.nextId;
      assert FieldsKeptBut(s.world, o.store.world, None) by {
        forall k | k in s.world.fields && k.0 < s.world.nextId
          ensures k in o.store.world.fields && o.store.world.fields[k] == s.world.fields[k]
        {
          assert k in c.1.fields && k.0 != obj.id;
        }
      }
      assert Fresh(Slot(o.store.slots, e), s.world, o.store.world);
    }
  }

  /** After `newInstance`: the store changes only as the fresh object `obj` and the field loop allow. */
  lemma {:induction false} InitEvolves(e: Entity, obj: Obj, s: Store, depth: nat, sh: Shape)
    requires sh.Closed() && e in sh.info && e.kind.ClassKind?
    ensures var o := InitSpec(e, obj, s, depth, sh);
            && Grows(s.world, o.store.world) && FieldsKeptBut(s.world, o.store.world, Some(obj))
            && SingletonsKept(sh, s.slots, o.store.slots, {e})
            && (forall d <- sh.info :: BuildsNew(d.kind) ==>
                  Slot(o.store.slots, d) == Slot(s.slots, d) || Slot(o.store.slots, d) == Some(obj)
                  || Fresh(Slot(o.store.slots, d), s.world, o.store.world))
            && (Slot(o.store.slots, e) == Some(obj) || Fresh(Slot(o.store.slots, e), s.world, o.store.world))
    decreases depth, 4, 0
  {
    var s1 := Store(s.slots[e := Some(obj)], s.world);
    InjectEvolves(e, e.kind.fields, s1, depth, sh);
  }

  lemma {:induction false} InjectorCreateEvolves(e: Entity, s: Store, depth: nat, sh: Shape)
    requires sh.Closed() && e in sh.info && e.kind.InjectorKind?
    ensures var o := InjectorCreateSpec(e, s, depth, sh);
            && Evolves(sh, s, o.store, None) && SingletonsKept(sh, s.slots, o.store.slots, {e})
            && (o.result.Success? && !Caches(sh, e, s) ==> Fresh(o.result.value, s.world, o.store.world))
    decreases depth, 5, 0
  {
    if !(sh.info[e].scope == Singleton && Slot(s.slots, e).Some?) {
      LookupAllEvolves(sh.info[e].owner, e.kind.ctor.params, s, depth, sh);
    }
  }

  lemma {:induction false} ProvideEvolves(e: Entity, s: Store, depth: nat, sh: Shape)
    requires sh.Closed() && e in sh.info && (e.kind.MethodProviderKind? || e.kind.ProviderKind?)
    ensures var o := ProvideSpec(e, s, depth, sh);
            && Evolves(sh, s, o.store, None) && SingletonsKept(sh, s.slots, o.store.slots, {e})
            && (o.result.Success? && !Caches(sh, e, s) && BuildsNew(e.kind) ==> Fresh(o.result.value, s.world, o.store.world))
            && (o.result.Success? && !Caches(sh, e, s) && e.kind.callee.outcome.ReturnsExisting? ==>
                  o.result.value == Some(e.kind.callee.outcome.obj))
    decreases depth, 5, 0
  {
    if !(sh.info[e].scope == Singleton && Slot(s.slots, e).Some?) {
      var k := e.kind;
      var a := LookupAll(sh.info[e].owner, InvocationTypes(k), s, depth, sh);
      LookupAllEvolves(sh.info[e].owner, InvocationTypes(k), s, depth, sh);
      if a.result.Success? {
        ProvideInvokeEvolves(e, a.result.value, a.store, sh);
        EvolvesTransitive(sh, s, a.store, ProvideInvokeSpec(e, a.result.value, a.store).store);
      }
    }
  }

  lemma ProvideInvokeEvolves(e: Entity, args: seq<Value>, s: Store, sh: Shape)
    requires e.kind.MethodProviderKind? || e.kind.ProviderKind?
    ensures var o := ProvideInvokeSpec(e, args, s);
            && Evolves(sh, s, o.store, None) && SingletonsKept(sh, s.slots, o.store.slots, {e})
            && (o.result.Success? && BuildsNew(e.kind) ==> Fresh(o.result.value, s.world, o.store.world))
            && (o.result.Success? && e.kind.callee.outcome.ReturnsExisting? ==> o.result.value == Some(e.kind.callee.outcome.obj))
  {
  }

  lemma {:induction false} RunnerCreateEvolves(e: Entity, s: Store, depth: nat, sh: Shape)
    requires sh.Closed() && e in sh.info && e.kind.MethodRunnerKind?
    ensures var o := RunnerCreateSpec(e, s, depth, sh);
            && Evolves(sh, s, o.store, None) && SingletonsKept(sh, s.slots, o.store.slots, {e})
            && (o.result.Success? && BuildsNew(e.kind) ==> Fresh(o.result.value, s.world, o.store.world))
    decreases depth, 5, 0
  {
    if e.kind.callee.returnType.ty == RUNNABLE {
      var k := e.kind;
      var a := LookupAll(sh.info[e].owner, InvocationTypes(k), s, depth, sh);
      LookupAllEvolves(sh.info[e].owner, InvocationTypes(k), s, depth, sh);
      if a.result.Success? {
        var c := Invoke(a.store.world, k.callee, k.target, a.result.value);
        if c.0.Success? && BuildsNew(k) {
          assert Fresh(c.0.value, s.world, c.1);
        }
      }
    }
  }

  // ---------------------------------------------------------------------------
  // Lookups
  // ---------------------------------------------------------------------------

  /** `getInstance()` on a singleton answers its slot as it is; otherwise it builds. */
  lemma GetAnswersSlotOrBuilds(e: Entity, s: Store, depth: nat, sh: Shape)
    requires sh.Closed() && e in sh.info
    ensures sh.info[e].scope == Singleton ==> GetSpec(e, s, depth, sh) == Outcome(Success(Slot(s.slots, e)), s)
    ensures sh.info[e].scope == Prototype && depth > 0 ==> GetSpec(e, s, depth, sh) == CreateSpec(e, s, depth - 1, sh)
  {
  }

  /**
   * A type bound to a singleton answers that entity's slot and changes nothing,
   * and whatever other lookup happens in between, asking again gives the same answer.
   */
  lemma SingletonLookupIsStable(m: Module, t: JType, m2: Module, t2: JType, s: Store, depth: nat, depth2: nat, sh: Shape)
    requires sh.Closed() && m in sh.members && m2 in sh.members
    requires sh.Find(m, t).Success? && sh.info[sh.Find(m, t).value].scope == Singleton
    ensures var o1 := LookupSpec(m, t, s, depth, sh);
            && o1 == Outcome(Success(Slot(s.slots, sh.Find(m, t).value)), s)
            && LookupSpec(m, t, LookupSpec(m2, t2, s, depth2, sh).store, depth, sh).result == o1.result
  {
    LookupEvolves(m2, t2, s, depth2, sh);
  }

  /**
   * A type bound to a prototype that builds new objects gets a newly allocated
   * object on every lookup, so two lookups never share one.
   */
  lemma PrototypeLookupsDiffer(m: Module, t: JType, s: Store, depth: nat, sh: Shape)
    requires sh.Closed() && m in sh.members && sh.Find(m, t).Success?
    requires sh.info[sh.Find(m, t).value].scope == Prototype && !sh.Find(m, t).value.kind.EmptyKind?
    ensures var o1 := LookupSpec(m, t, s, depth, sh);
            var o2 := LookupSpec(m, t, o1.store, depth, sh);
            var d := sh.Find(m, t).value;
            && (o1.result.Success? && BuildsNew(d.kind) ==> Fresh(o1.result.value, s.world, o1.store.world))
            && (o1.result.Success? && o2.result.Success? && o1.result.value.Some? && BuildsNew(d.kind) ==>
                  o2.result.value != o1.result.value)
  {
    var d := sh.Find(m, t).value;
    var o1 := LookupSpec(m, t, s, depth, sh);
    if depth > 0 {
      CreateEvolves(d, s, depth - 1, sh);
      CreateEvolves(d, o1.store, depth - 1, sh);
    }
  }

  /**
   * Prototype scope alone does not give distinct objects: a prototype whose
   * @Provide method returns an object that already exists answers that object
   * on every lookup that succeeds.
   */
  lemma PrototypeMayShareObject(m: Module, t: JType, s: Store, depth: nat, sh: Shape)
    requires sh.Closed() && m in sh.members && sh.Find(m, t).Success?
    requires var d := sh.Find(m, t).value;
             && sh.info[d].scope == Prototype && (d.kind.MethodProviderKind? || d.kind.ProviderKind?)
             && d.kind.callee.outcome.ReturnsExisting?
    ensures var o1 := LookupSpec(m, t, s, depth, sh);
            var o2 := LookupSpec(m, t, o1.store, depth, sh);
            var obj := sh.Find(m, t).value.kind.callee.outcome.obj;
            o1.result.Success? && o2.result.Success? ==> o1.result.value == o2.result.value == Some(obj)
  {
    var d := sh.Find(m, t).value;
    var o1 := LookupSpec(m, t, s, depth, sh);
    if depth > 0 {
      assert o1 == ProvideSpec(d, s, depth - 1, sh) by {
        GetAnswersSlotOrBuilds(d, s, depth, sh);
      }
      assert LookupSpec(m, t, o1.store, depth, sh) == ProvideSpec(d, o1.store, depth - 1, sh) by {
        GetAnswersSlotOrBuilds(d, o1.store, depth, sh);
      }
      ProvideEvolves(d, s, depth - 1, sh);
      ProvideEvolves(d, o1.store, depth - 1, sh);
    }
  }

  // ---------------------------------------------------------------------------
  // createInstance()
  // ---------------------------------------------------------------------------

  /** A cache hit, and EmptyEntity always: the slot is answered and nothing is built, invoked or run. */
  lemma CachedCreateChangesNothing(e: Entity, s: Store, depth: nat, sh: Shape)
    requires sh.Closed() && e in sh.info && Caches(sh, e, s)
    ensures CreateSpec(e, s, depth, sh) == Outcome(Success(Slot(s.slots, e)), s)
  {
  }

  /**
   * For every singleton entity but a runner, building once fills the slot, so a
   * second `createInstance()` answers the same object and has no effect.
   */
  lemma SecondCreateIsCached(e: Entity, s: Store, depth: nat, depth2: nat, sh: Shape)
    requires sh.Closed() && e in sh.info && sh.info[e].scope == Singleton && !e.kind.MethodRunnerKind?
    ensures var o := CreateSpec(e, s, depth, sh);
            o.result.Success? && o.result.value.Some? ==> CreateSpec(e, o.store, depth2, sh) == Outcome(o.result, o.store)
  {
    var o := CreateSpec(e, s, depth, sh);
    if o.result.Success? && o.result.value.Some? {
      assert Caches(sh, e, o.store);
      CachedCreateChangesNothing(e, o.store, depth2, sh);
    }
  }

  /**
   * MethodRunnerEntity: a declared return type other than Runnable fails before
   * any lookup; otherwise every call, whatever the slot holds, invokes the method
   * anew and runs the returned object exactly once, right after the invocation.
   */
  lemma RunnerRunsOnEveryCall(e: Entity, s: Store, depth: nat, sh: Shape)
    requires sh.Closed() && e in sh.info && e.kind.MethodRunnerKind?
    ensures e.kind.callee.returnType.ty != RUNNABLE ==>
              CreateSpec(e, s, depth, sh) == Outcome(Failure(NotRunnable(e.kind.callee.name)), s)
    ensures var o := CreateSpec(e, s, depth, sh);
            var log := o.store.world.log;
            o.result.Success? ==>
              && o.result.value.Some? && (BuildsNew(e.kind) ==> Fresh(o.result.value, s.world, o.store.world))
              && s.world.log <= log && |log| >= |s.world.log| + 2
              && log[|log| - 1] == Ran(o.result.value.value)
              && log[|log| - 2].Invoked? && log[|log| - 2].methodName == e.kind.callee.name
              && log[|log| - 2].target == e.kind.target && log[|log| - 2].result == o.result.value
  {
    RunnerCreateEvolves(e, s, depth, sh);
    if e.kind.callee.returnType.ty == RUNNABLE {
      var k := e.kind;
      var a := LookupAll(sh.info[e].owner, InvocationTypes(k), s, depth, sh);
      LookupAllEvolves(sh.info[e].owner, InvocationTypes(k), s, depth, sh);
    }
  }

  /**
   * A runner whose Runnable throws from `run()` never succeeds; once the
   * invocation has returned an object, that object is already in the slot, and
   * `run()` was called on it just before the failure.
   */
  lemma ThrowingRunLeavesRunnable(e: Entity, s: Store, depth: nat, sh: Shape)
    requires sh.Closed() && e in sh.info && e.kind.MethodRunnerKind? && e.kind.callee.runThrows
    ensures CreateSpec(e, s, depth, sh).result.Failure?
    ensures var k := e.kind;
            var o := CreateSpec(e, s, depth, sh);
            var a := LookupAll(sh.info[e].owner, InvocationTypes(k), s, depth, sh);
            k.callee.returnType.ty == RUNNABLE && a.result.Success? ==>
              var c := Invoke(a.store.world, k.callee, k.target, a.result.value);
              c.0.Success? && c.0.value.Some? ==>
                && o.result == Failure(RunFailed(k.callee.name))
                && Slot(o.store.slots, e) == c.0.value
                && o.store.world.log == c.1.log + [Ran(c.0.value.value)]
  {
    assert CreateSpec(e, s, depth, sh) == RunnerCreateSpec(e, s, depth, sh);
  }

  ghost predicate DistinctNames(fields: seq<Field>)
  {
    forall i, j :: 0 <= i < j < |fields| ==> fields[i].name != fields[j].name
  }

  /** Injecting into a singleton's object sets only the fields it lists on it, and nothing on other old objects. */
  lemma {:induction false} InjectSetsOnlyItsFields(e: Entity, fields: seq<Field>, s: Store, depth: nat, sh: Shape)
    requires sh.Closed() && e in sh.info && sh.info[e].scope == Singleton
    ensures var o := InjectFields(e, fields, s, depth, sh);
            forall key | key in s.world.fields && key.0 < s.world.nextId && (forall j :: 0 <= j < |fields| ==> key.1 != fields[j].name) ::
              key in o.store.world.fields && o.store.world.fields[key] == s.world.fields[key]
    decreases |fields|
  {
    if fields != [] {
      var target := Slot(s.slots, e);
      var g := LookupSpec(sh.info[e].owner, fields[0].ty, s, depth, sh);
      LookupEvolves(sh.info[e].owner, fields[0].ty, s, depth, sh);
      if g.result.Success? && target.Some? {
        var w := SetField(g.store.world, target.value, fields[0].name, g.result.value);
        InjectSetsOnlyItsFields(e, fields[1..], Store(g.store.slots, w), depth, sh);
        var o := InjectFields(e, fields, s, depth, sh);
        forall key | key in s.world.fields && key.0 < s.world.nextId && (forall j :: 0 <= j < |fields| ==> key.1 != fields[j].name)
          ensures key in o.store.world.fields && o.store.world.fields[key] == s.world.fields[key]
        {
          assert key.1 != fields[0].name;
          assert forall j :: 0 <= j < |fields[1..]| ==> key.1 != fields[1..][j].name by {
            forall j | 0 <= j < |fields[1..]| ensures key.1 != fields[1..][j].name {
              assert fields[1..][j] == fields[j + 1];
            }
          }
        }
      }
    }
  }

  /**
   * The k-th @Autowired field of a singleton's object, when its type is bound to
   * a singleton, ends up holding that singleton's slot: the object a later
   * lookup of the same type answers.
   */
  lemma {:induction false} InjectedFieldIsShared(e: Entity, fields: seq<Field>, k: nat, s: Store, depth: nat, sh: Shape)
    requires sh.Closed() && e in sh.info && e.kind.ClassKind? && sh.info[e].scope == Singleton
    requires Slot(s.slots, e).Some? && Slot(s.slots, e).value.id < s.world.nextId
    requires DistinctNames(fields) && k < |fields|
    requires sh.Find(sh.info[e].owner, fields[k].ty).Success?
    requires sh.info[sh.Find(sh.info[e].owner, fields[k].ty).value].scope == Singleton
    ensures var o := InjectFields(e, fields, s, depth, sh);
            var key := (Slot(s.slots, e).value.id, fields[k].name);
            o.result.Success? ==>
              key in o.store.world.fields
              && o.store.world.fields[key] == Slot(o.store.slots, sh.Find(sh.info[e].owner, fields[k].ty).value)
    decreases |fields|
  {
    var obj := Slot(s.slots, e).value;
    var g := LookupSpec(sh.info[e].owner, fields[0].ty, s, depth, sh);
    LookupEvolves(sh.info[e].owner, fields[0].ty, s, depth, sh);
    if g.result.Success? {
      var w := SetField(g.store.world, obj, fields[0].name, g.result.value);
      var s1 := Store(g.store.slots, w);
      assert Slot(s1.slots, e) == Some(obj);
      InjectEvolves(e, fields[1..], s1, depth, sh);
      assert DistinctNames(fields[1..]) by {
        forall i, j | 0 <= i < j < |fields[1..]| ensures fields[1..][i].name != fields[1..][j].name {
          assert fields[1..][i] == fields[i + 1] && fields[1..][j] == fields[j + 1];
        }
      }
      if k == 0 {
        InjectSetsOnlyItsFields(e, fields[1..], s1, depth, sh);
        var key := (obj.id, fields[0].name);
        assert key in w.fields && key.0 < w.nextId;
        assert forall j :: 0 <= j < |fields[1..]| ==> key.1 != fields[1..][j].name by {
          forall j | 0 <= j < |fields[1..]| ensures key.1 != fields[1..][j].name {
            assert fields[1..][j] == fields[j + 1];
          }
        }
      } else {
        assert fields[1..][k - 1] == fields[k];
        InjectedFieldIsShared(e, fields[1..], k - 1, s1, depth, sh);
      }
    }
  }

  /**
   * A singleton ClassEntity built from an empty slot: each @Autowired field whose
   * type is bound to a singleton holds the very object that `getInstance` then
   * answers for that type.
   */
  lemma ComponentSeesSharedService(e: Entity, k: nat, s: Store, depth: nat, depth2: nat, sh: Shape)
    requires sh.Closed() && e in sh.info && e.kind.ClassKind? && sh.info[e].scope == Singleton && Slot(s.slots, e).None?
    requires DistinctNames(e.kind.fields) && k < |e.kind.fields|
    requires sh.Find(sh.info[e].owner, e.kind.fields[k].ty).Success?
    requires sh.info[sh.Find(sh.info[e].owner, e.kind.fields[k].ty).value].scope == Singleton
    ensures var o := ClassCreateSpec(e, s, depth, sh);
            var f := e.kind.fields[k];
            o.result.Success? ==>
              && o.result.value.Some?
              && (o.result.value.value.id, f.name) in o.store.world.fields
              && LookupSpec(sh.info[e].owner, f.ty, o.store, depth2, sh).result
                   == Success(o.store.world.fields[(o.result.value.value.id, f.name)])
  {
    var kd := e.kind;
    var a := LookupAll(sh.info[e].owner, Injectables(kd.ctor.params), s, depth, sh);
    if a.result.Success? {
      var c := NewInstance(a.store.world, kd.cls, kd.hooks, kd.ctor, a.result.value);
      if c.0.Success? {
        var obj := c.0.value;
        var s1 := Store(a.store.slots[e := Some(obj)], c.1);
        InjectedFieldIsShared(e, kd.fields, k, s1, depth, sh);
        InjectEvolves(e, kd.fields, s1, depth, sh);
      }
    }
  }

  /**
   * A singleton ClassEntity built from an empty slot: a failing constructor
   * lookup or a throwing constructor leaves the slot empty; once the constructor
   * has returned, the slot holds its object whether or not the field loop then
   * fails (the slot is written before the fields are injected). So a build that
   * throws either left the slot empty, or left in it an object built during the
   * failed call, which the next `createInstance()` answers without building again.
   */
  lemma FailedBuildMayStayCached(e: Entity, s: Store, depth: nat, depth2: nat, sh: Shape)
    requires sh.Closed() && e in sh.info && e.kind.ClassKind? && sh.info[e].scope == Singleton && Slot(s.slots, e).None?
    ensures var o := ClassCreateSpec(e, s, depth, sh);
            LookupAll(sh.info[e].owner, Injectables(e.kind.ctor.params), s, depth, sh).result.Failure? ==>
              o.result.Failure? && Slot(o.store.slots, e).None?
    ensures var k := e.kind;
            var o := ClassCreateSpec(e, s, depth, sh);
            var a := LookupAll(sh.info[e].owner, Injectables(k.ctor.params), s, depth, sh);
            a.result.Success? ==>
              var c := NewInstance(a.store.world, k.cls, k.hooks, k.ctor, a.result.value);
              && (c.0.Failure? ==> o.result.Failure? && Slot(o.store.slots, e).None?)
              && (c.0.Success? ==> Slot(o.store.slots, e) == Some(c.0.value))
    ensures var o := ClassCreateSpec(e, s, depth, sh);
            o.result.Failure? ==>
              || Slot(o.store.slots, e).None?
              || (&& Fresh(Slot(o.store.slots, e), s.world, o.store.world)
                  && CreateSpec(e, o.store, depth2, sh) == Outcome(Success(Slot(o.store.slots, e)), o.store))
  {
    var k := e.kind;
    var o := ClassCreateSpec(e, s, depth, sh);
    ClassCreateEvolves(e, s, depth, sh);
    var a := LookupAll(sh.info[e].owner, Injectables(k.ctor.params), s, depth, sh);
    LookupAllEvolves(sh.info[e].owner, Injectables(k.ctor.params), s, depth, sh);
    if a.result.Success? {
      var c := NewInstance(a.store.world, k.cls, k.hooks, k.ctor, a.result.value);
      if c.0.Success? {
        InjectEvolves(e, k.fields, Store(a.store.slots[e := Some(c.0.value)], c.1), depth, sh);
      }
    }
    if Slot(o.store.slots, e).Some? {
      CachedCreateChangesNothing(e, o.store, depth2, sh);
    }
  }

  /**
   * InjectorEntity: a build that does not come from the cache ends with the
   * construction itself; no field is set and no hook runs on the new object.
   */
  lemma InjectorBuildsPlainObject(e: Entity, s: Store, depth: nat, sh: Shape)
    requires sh.Closed() && e in sh.info && e.kind.InjectorKind? && !Caches(sh, e, s)
    ensures var o := CreateSpec(e, s, depth, sh);
            var log := o.store.world.log;
            o.result.Success? ==>
              && o.result.value.Some? && |log| > 0 && log[|log| - 1].Constructed?
              && log[|log| - 1].obj == o.result.value.value && o.result.value.value.cls == e.kind.cls
  {
  }

  /**
   * Arrays and primitives are dropped from the argument list, while the
   * reflective call still checks the parameter count: a constructor or method
   * with such a parameter can never be invoked, so building through it always
   * throws.
   */
  lemma FilteredParameterNeverInvoked(e: Entity, s: Store, depth: nat, sh: Shape)
    requires sh.Closed() && e in sh.info && !Caches(sh, e, s)
    requires e.kind.ClassKind? ==> exists i :: 0 <= i < |e.kind.ctor.params| && !Injectable(e.kind.ctor.params[i])
    requires e.kind.MethodProviderKind? || e.kind.MethodRunnerKind? ==>
               exists i :: 0 <= i < |e.kind.callee.params| && !Injectable(e.kind.callee.params[i])
    requires e.kind.ClassKind? || e.kind.MethodProviderKind? || e.kind.MethodRunnerKind?
    ensures CreateSpec(e, s, depth, sh).result.Failure?
  {
    var ps := if e.kind.ClassKind? then e.kind.ctor.params else e.kind.callee.params;
    InjectablesKeepArity(ps);
    if e.kind.MethodRunnerKind? {
      assert CreateSpec(e, s, depth, sh) == RunnerCreateSpec(e, s, depth, sh);
    }
  }

  // ---------------------------------------------------------------------------
  // create()
  // ---------------------------------------------------------------------------

  /** One step of `create()`: a success leaves the entity's slot filled and no other singleton touched. */
  lemma PrepareEvolves(e: Entity, s: Store, depth: nat, sh: Shape)
    requires sh.Closed() && e in sh.info
    ensures var p := PrepareSpec(e, s, depth, sh);
            && Evolves(sh, s, p.store, None) && SingletonsKept(sh, s.slots, p.store.slots, {e})
            && (p.result.Success? ==> Slot(p.store.slots, e).Some?)
  {
    CreateEvolves(e, s, depth, sh);
  }

  /**
   * A successful `create()` leaves every singleton it visited, and every
   * singleton that already held an object, holding one.
   */
  lemma {:induction false} CreateFillsSingletons(es: seq<Entity>, s: Store, depth: nat, sh: Shape)
    requires sh.Closed() && forall i :: 0 <= i < |es| ==> es[i] in sh.info
    ensures var o := CreatePass(es, s, depth, sh);
            && Evolves(sh, s, o.store, None)
            && (o.result.Success? ==>
                  forall e <- sh.info :: sh.info[e].scope == Singleton && (e in es || Slot(s.slots, e).Some?) ==> Slot(o.store.slots, e).Some?)
    decreases |es|
  {
    if es != [] {
      var p := PrepareSpec(es[0], s, depth, sh);
      PrepareEvolves(es[0], s, depth, sh);
      if p.result.Success? {
        CreateFillsSingletons(es[1..], p.store, depth, sh);
        assert forall e :: e in es ==> e == es[0] || e in es[1..];
      }
    }
  }

  /** `create()` visits the entities in order: running it on a concatenation runs the first part, then the rest. */
  lemma {:induction false} CreatePassSplits(es1: seq<Entity>, es2: seq<Entity>, s: Store, depth: nat, sh: Shape)
    requires sh.Closed() && (forall i :: 0 <= i < |es1| ==> es1[i] in sh.info) && (forall i :: 0 <= i < |es2| ==> es2[i] in sh.info)
    ensures var p := CreatePass(es1, s, depth, sh);
            CreatePass(es1 + es2, s, depth, sh) == if p.result.Failure? then p else CreatePass(es2, p.store, depth, sh)
    decreases |es1|
  {
    if es1 == [] {
      assert es1 + es2 == es2;
    } else {
      assert (es1 + es2)[1..] == es1[1..] + es2;
      var p := PrepareSpec(es1[0], s, depth, sh);
      if p.result.Success? {
        CreatePassSplits(es1[1..], es2, p.store, depth, sh);
      }
    }
  }

  /**
   * After a successful `create()` of a module, a type bound to a singleton of
   * that module answers a non-null object, the same one on every lookup.
   */
  lemma CreatedSingletonIsShared(m: Module, t: JType, m2: Module, t2: JType, s: Store, depth: nat, depth1: nat, depth2: nat, sh: Shape)
    requires sh.Closed() && m in sh.members && m2 in sh.members
    requires sh.Find(m, t).Success? && sh.info[sh.Find(m, t).value].scope == Singleton
    ensures var c := CreatePass(sh.members[m], s, depth, sh);
            var o1 := LookupSpec(m, t, c.store, depth1, sh);
            c.result.Success? ==>
              && o1.result.Success? && o1.result.value.Some?
              && LookupSpec(m, t, LookupSpec(m2, t2, c.store, depth2, sh).store, depth1, sh).result == o1.result
  {
    var c := CreatePass(sh.members[m], s, depth, sh);
    CreateFillsSingletons(sh.members[m], s, depth, sh);
    SingletonLookupIsStable(m, t, m2, t2, c.store, depth1, depth2, sh);
  }

  /**
   * The @PostConstruct methods of a ClassEntity built by `create()` run twice on the
   * new object: once inside `createInstance()`, then again by `create()` itself.
   */
  lemma ClassHooksRunTwice(e: Entity, s: Store, depth: nat, sh: Shape)
    requires sh.Closed() && e in sh.info && e.kind.ClassKind? && sh.info[e].scope == Singleton && Slot(s.slots, e).None?
    ensures var c := CreateSpec(e, s, depth, sh);
            var p := PrepareSpec(e, s, depth, sh);
            p.result.Success? ==>
              var obj := c.result.value.value;
              var hooks := HookEvents(obj, e.kind.hooks);
              && obj.hooks == e.kind.hooks
              && |hooks| <= |c.store.world.log| && c.store.world.log[|c.store.world.log| - |hooks|..] == hooks
              && p.store.world.log == c.store.world.log + hooks
  {
    var kd := e.kind;
    var c := CreateSpec(e, s, depth, sh);
    assert c == ClassCreateSpec(e, s, depth, sh);
    var a := LookupAll(sh.info[e].owner, Injectables(kd.ctor.params), s, depth, sh);
    assert c.result.Success? ==> a.result.Success?;
    if a.result.Success? {
      var n := NewInstance(a.store.world, kd.cls, kd.hooks, kd.ctor, a.result.value);
      assert c.result.Success? ==> n.0.Success?;
      if n.0.Success? {
        var obj := n.0.value;
        var s1 := Store(a.store.slots[e := Some(obj)], n.1);
        assert c == InitSpec(e, obj, Store(a.store.slots, n.1), depth, sh);
        InjectEvolves(e, kd.fields, s1, depth, sh);
        var f := InjectFields(e, kd.fields, s1, depth, sh);
        if f.result.Success? {
          assert Slot(f.store.slots, e) == Some(obj);
          var w := RunHooks(f.store.world, obj, kd.hooks);
          assert c == Outcome(Success(Some(obj)), Store(f.store.slots, w));
          var hs := HookEvents(obj, kd.hooks);
          assert w.log == f.store.world.log + hs;
          assert w.log[|w.log| - |hs|..] == hs;
        }
      }
    }
  }

  /**
   * A @Provide method's object: `createInstance()` only invokes the method, and
   * `create()` then runs the @PostConstruct methods of the returned object's class
   * on it, once, right after the invocation.
   */
  lemma ProvidedObjectInitialisedByCreate(e: Entity, s: Store, depth: nat, sh: Shape)
    requires sh.Closed() && e in sh.info && e.kind.MethodProviderKind? && sh.info[e].scope == Singleton && Slot(s.slots, e).None?
    ensures var c := CreateSpec(e, s, depth, sh);
            var p := PrepareSpec(e, s, depth, sh);
            var log := c.store.world.log;
            p.result.Success? ==>
              var obj := c.result.value.value;
              && |log| > |s.world.log| && log[|log| - 1].Invoked? && log[|log| - 1].methodName == e.kind.callee.name
              && log[|log| - 1].target == e.kind.target && log[|log| - 1].result == Some(obj)
              && p.store.world.log == log + HookEvents(obj, obj.hooks)
  {
    var a := LookupAll(sh.info[e].owner, InvocationTypes(e.kind), s, depth, sh);
    LookupAllEvolves(sh.info[e].owner, InvocationTypes(e.kind), s, depth, sh);
  }

  // ---------------------------------------------------------------------------
  // Binding
  // ---------------------------------------------------------------------------

  /** A module's constructor binds exactly the methods marked @Provide. */
  lemma {:induction false} ProvidedAreTheProvideMethods(ms: seq<MethodMeta>)
    ensures forall m :: m in Provided(ms) <==> m in ms && m.provide
    ensures |Provided(ms)| <= |ms|
  {
    if ms != [] {
      ProvidedAreTheProvideMethods(ms[1..]);
      assert ms == [ms[0]] + ms[1..];
    }
  }

  /** A `configure()` body runs to the end exactly when none of its bindings throws. */
  lemma ScriptSucceedsExactlyWhenNothingRejects(ds: seq<Declaration>)
    ensures FirstRejected(ds) == |ds| <==> forall i :: 0 <= i < |ds| ==> !Rejects(ds[i])
  {
  }
}
