/**
 * The part of the Java runtime the engine acts on: it allocates objects through
 * reflective constructor and method calls, sets injected fields, invokes hooks and
 * runs Runnables. The runtime is a value threaded through the engine: the next
 * allocation number, the contents of injected fields, and a log of every effect
 * in the order it happened.
 */
module Jvm {
  import opened Types

  datatype Event =
    | Constructed(obj: Obj, args: seq<Value>)
    | Invoked(methodName: string, target: object, args: seq<Value>, result: Value)
    | FieldSet(obj: Obj, field: string, value: Value)
    | HookRan(obj: Obj, hook: string)
    | Ran(obj: Obj)

  datatype World = World(nextId: nat, fields: map<(nat, string), Value>, log: seq<Event>)

  /** Allocation numbers only grow and effects are only appended. */
  ghost predicate Grows(w: World, w': World)
  {
    w.nextId <= w'.nextId && w.log <= w'.log
  }

  lemma GrowsTransitive(w1: World, w2: World, w3: World)
    requires Grows(w1, w2) && Grows(w2, w3)
    ensures Grows(w1, w3)
  {
  }

  /**
   * `Constructor.newInstance(args)`: the JVM refuses an argument list whose length
   * differs from the parameter list; a constructor that throws yields no object;
   * otherwise a new object of class `cls` is allocated.
   */
  function NewInstance(w: World, cls: JType, hooks: seq<string>, ctor: CtorMeta, args: seq<Value>): (r: (Result<Obj>, World))
    ensures r.0.Success? <==> |args| == |ctor.params| && !ctor.throws
    ensures r.0.Success? ==> r.0.value == Obj(w.nextId, cls, hooks) && r.1.nextId == w.nextId + 1
                             && r.1.log == w.log + [Constructed(r.0.value, args)] && r.1.fields == w.fields
    ensures r.0.Failure? ==> r.1 == w
    ensures r.0.Failure? ==> r.0.error == if |args| != |ctor.params| then WrongArgumentCount(cls.name) else InvocationFailed(cls.name)
  {
    if |args| != |ctor.params| then (Failure(WrongArgumentCount(cls.name)), w)
    else if ctor.throws then (Failure(InvocationFailed(cls.name)), w)
    else
      var o := Obj(w.nextId, cls, hooks);
      (Success(o), w.(nextId := w.nextId + 1, log := w.log + [Constructed(o, args)]))
  }

  /**
   * `Method.invoke(target, args)` for a user method: the same arity check, then
   * the method returns a new object, returns an object that already exists,
   * returns null, or throws.
   */
  function Invoke(w: World, m: MethodMeta, target: object, args: seq<Value>): (r: (Result<Value>, World))
    ensures r.0.Success? <==> |args| == |m.params| && !m.outcome.Throws?
    ensures r.0.Success? ==> r.1.log == w.log + [Invoked(m.name, target, args, r.0.value)] && r.1.fields == w.fields
    ensures r.0.Success? && m.outcome.ReturnsNew? ==>
              r.0.value == Some(Obj(w.nextId, m.outcome.cls, m.outcome.hooks)) && r.1.nextId == w.nextId + 1
    ensures r.0.Success? && m.outcome.ReturnsExisting? ==> r.0.value == Some(m.outcome.obj) && r.1.nextId == w.nextId
    ensures r.0.Success? && m.outcome.ReturnsNull? ==> r.0.value == None && r.1.nextId == w.nextId
    ensures r.0.Failure? ==> r.1 == w
  {
    if |args| != |m.params| then (Failure(WrongArgumentCount(m.name)), w)
    else match m.outcome
      case Throws => (Failure(InvocationFailed(m.name)), w)
      case ReturnsExisting(o) => (Success(Some(o)), w.(log := w.log + [Invoked(m.name, target, args, Some(o))]))
      case ReturnsNull => (Success(None), w.(log := w.log + [Invoked(m.name, target, args, None)]))
      case ReturnsNew(cls, hooks) =>
        var o := Obj(w.nextId, cls, hooks);
        (Success(Some(o)), w.(nextId := w.nextId + 1, log := w.log + [Invoked(m.name, target, args, Some(o))]))
  }

  /** `Field.set(obj, v)` */
  function SetField(w: World, o: Obj, field: string, v: Value): (w': World)
    ensures w'.nextId == w.nextId && w'.log == w.log + [FieldSet(o, field, v)]
    ensures w'.fields == w.fields[(o.id, field) := v]
  {
    w.(fields := w.fields[(o.id, field) := v], log := w.log + [FieldSet(o, field, v)])
  }

  /** One event per hook, in the order given. */
  function HookEvents(o: Obj, hooks: seq<string>): (r: seq<Event>)
    ensures |r| == |hooks| && forall i :: 0 <= i < |hooks| ==> r[i] == HookRan(o, hooks[i])
  {
    if hooks == [] then [] else [HookRan(o, hooks[0])] + HookEvents(o, hooks[1..])
  }

  /** `hook.invoke(o)` */
  function RunHook(w: World, o: Obj, hook: string): (w': World)
    ensures w'.nextId == w.nextId && w'.fields == w.fields && w'.log == w.log + [HookRan(o, hook)]
  {
    w.(log := w.log + [HookRan(o, hook)])
  }

  /** Every hook invoked once on `o`, in order. */
  function RunHooks(w: World, o: Obj, hooks: seq<string>): (w': World)
    ensures w'.nextId == w.nextId && w'.fields == w.fields && w'.log == w.log + HookEvents(o, hooks)
  {
    w.(log := w.log + HookEvents(o, hooks))
  }

  lemma RunHooksStep(w: World, o: Obj, hooks: seq<string>, i: nat)
    requires i < |hooks|
    ensures RunHook(RunHooks(w, o, hooks[..i]), o, hooks[i]) == RunHooks(w, o, hooks[..i + 1])
  {
    assert HookEvents(o, hooks[..i + 1]) == HookEvents(o, hooks[..i]) + [HookRan(o, hooks[i])];
  }

  /** The hook loop: every hook invoked on `o`, one after another. */
  method InvokeHooks(w: World, o: Obj, hooks: seq<string>) returns (w': World)
    ensures w' == RunHooks(w, o, hooks)
  {
    w' := w;
    for i := 0 to |hooks|
      invariant w' == RunHooks(w, o, hooks[..i])
    {
      RunHooksStep(w, o, hooks, i);
      w' := RunHook(w', o, hooks[i]);
    }
    assert hooks[..|hooks|] == hooks;
  }

  /**
   * `((Runnable) o).run()` on the Runnable that method `m` returned: the call is
   * logged, and it throws exactly when `m`'s Runnable does.
   */
  function Run(w: World, o: Obj, m: MethodMeta): (r: (Result<()>, World))
    ensures r.0.Failure? <==> m.runThrows
    ensures r.0.Failure? ==> r.0.error == RunFailed(m.name)
    ensures r.1.nextId == w.nextId && r.1.fields == w.fields && r.1.log == w.log + [Ran(o)]
  {
    var w' := w.(log := w.log + [Ran(o)]);
    if m.runThrows then (Failure(RunFailed(m.name)), w') else (Success(()), w')
  }
}
