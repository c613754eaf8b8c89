/**
 * Values shared by every part of the dependency-injection engine: Java class
 * identities, scopes, the marker metadata a reflection layer would extract from
 * classes and methods, the objects the engine builds, and the exceptions it can
 * throw.
 */
module Types {

  datatype Option<+T> = None | Some(value: T)

  /** The Java exceptions the engine raises or lets escape, one per cause. */
  datatype Error =
    | NoEntityFound(missing: JType)        // Module.getEntity: no entity matches the requested class
    | NoBindingMarker(methodName: string)      // EntityFactory.create(Module, Method): neither @Provide nor @Runner
    | NoSuchConstructor(declaring: JType)  // getConstructor: no @Autowired and no zero-argument constructor
    | NotRunnable(methodName: string)          // MethodRunnerEntity: declared return type is not Runnable
    | WrongArgumentCount(callee: string)   // reflective call given fewer arguments than parameters
    | InvocationFailed(callee: string)     // the constructor or method itself threw
    | NullReference                        // NullPointerException on a null instance
    | RunFailed(methodName: string)        // the Runnable a @Runner method returned threw from run()
    | StackOverflow                        // nested resolution deeper than the stack allows

  datatype Result<+T> = Success(value: T) | Failure(error: Error) {
    predicate IsFailure() { Failure? }
    function PropagateFailure<U>(): Result<U> requires Failure? { Failure(error) }
    function Extract(): T requires Success? { value }
  }

  /** A `java.lang.Class`: compared by identity, modelled by its name and kind. */
  datatype TypeKind = Reference | ArrayType | Primitive
  datatype JType = JType(name: string, kind: TypeKind)

  const RUNNABLE: JType := JType("java.lang.Runnable", Reference)

  /** The parameter filter `!isArray() && !isPrimitive()` used before injecting. */
  predicate Injectable(t: JType) { t.kind == Reference }

  function Injectables(ts: seq<JType>): seq<JType>
  {
    if ts == [] then [] else (if Injectable(ts[0]) then [ts[0]] else []) + Injectables(ts[1..])
  }

  /** The filter keeps exactly the injectable parameters, and never lengthens the list. */
  lemma {:induction false} InjectablesAreTheInjectableParameters(ts: seq<JType>)
    ensures forall t :: t in Injectables(ts) <==> t in ts && Injectable(t)
    ensures |Injectables(ts)| <= |ts|
  {
    if ts != [] {
      InjectablesAreTheInjectableParameters(ts[1..]);
      assert ts == [ts[0]] + ts[1..];
    }
  }

  /** Filtering a concatenation filters each part: the kept parameters stay in their declared order. */
  lemma {:induction false} InjectablesDistribute(ts1: seq<JType>, ts2: seq<JType>)
    ensures Injectables(ts1 + ts2) == Injectables(ts1) + Injectables(ts2)
  {
    if ts1 != [] {
      InjectablesDistribute(ts1[1..], ts2);
      assert (ts1 + ts2)[1..] == ts1[1..] + ts2 && (ts1 + ts2)[0] == ts1[0];
    } else {
      assert ts1 + ts2 == ts2;
    }
  }

  /**
   * The filtered argument list is as long as the parameter list exactly when no
   * parameter is an array or a primitive; otherwise the reflective call that
   * receives it has too few arguments.
   */
  lemma {:induction false} InjectablesKeepArity(ts: seq<JType>)
    ensures |Injectables(ts)| == |ts| <==> forall i :: 0 <= i < |ts| ==> Injectable(ts[i])
    ensures (forall i :: 0 <= i < |ts| ==> Injectable(ts[i])) ==> Injectables(ts) == ts
  {
    if ts != [] {
      InjectablesKeepArity(ts[1..]);
      InjectablesAreTheInjectableParameters(ts[1..]);
      assert forall i :: 1 <= i < |ts| ==> ts[i] == ts[1..][i - 1];
    }
  }

  datatype Scope = Singleton | Prototype

  /** A @Service or @Component marker. Its scope attribute may be left unset. */
  datatype Marker = Marker(scopeAttribute: Option<Scope>) {
    /** The annotation's declared default for `scope()` is SINGLETON. */
    function EffectiveScope(): Scope
    {
      if scopeAttribute.Some? then scopeAttribute.value else Singleton
    }
  }

  /**
   * What `Class.getSuperclass()` and `Class.getInterfaces()` report for a type:
   * the superclass is absent (Java null) for interfaces, primitives and Object.
   */
  datatype TypeInfo = TypeInfo(ty: JType, superclass: Option<JType>, interfaces: seq<JType>)

  function Wrapped(ts: seq<JType>): (r: seq<Option<JType>>)
    ensures |r| == |ts| && forall i :: 0 <= i < |ts| ==> r[i] == Some(ts[i])
  {
    if ts == [] then [] else [Some(ts[0])] + Wrapped(ts[1..])
  }

  /** The subtype list an entity captures: the superclass (possibly null), then the interfaces. */
  function SubTypesOf(info: TypeInfo): seq<Option<JType>>
  {
    [info.superclass] + Wrapped(info.interfaces)
  }

  /**
   * The captured list mentions a class exactly when it is the immediate superclass
   * or a directly declared interface: ancestors further up are not included.
   */
  lemma ShallowSubTypes(info: TypeInfo, t: JType)
    ensures Some(t) in SubTypesOf(info) <==> info.superclass == Some(t) || t in info.interfaces
    ensures |SubTypesOf(info)| == 1 + |info.interfaces| && SubTypesOf(info)[0] == info.superclass
  {
    var w := Wrapped(info.interfaces);
    if t in info.interfaces {
      var i :| 0 <= i < |info.interfaces| && info.interfaces[i] == t;
      assert SubTypesOf(info)[i + 1] == w[i];
    }
  }

  /** The constructor `ReflectionUtils.getConstructor` selects, as metadata. */
  datatype CtorMeta = CtorMeta(params: seq<JType>, throws: bool)

  /** A field marked @Autowired. */
  datatype Field = Field(name: string, ty: JType)

  /** What reflection reports about a class the engine may bind. */
  datatype ClassMeta = ClassMeta(
    info: TypeInfo,
    service: Option<Marker>,
    component: Option<Marker>,
    ctor: Option<CtorMeta>,        // the @Autowired constructor, else the zero-argument one, if any
    autowired: seq<Field>,
    postConstruct: seq<string>)    // the @PostConstruct methods, in iteration order

  /** What a reflective call of a user method does: the abstract callable. */
  datatype CallOutcome =
    | ReturnsNew(cls: JType, hooks: seq<string>)   // returns a new object of class `cls`
    | ReturnsExisting(obj: Obj)                   // returns an object it did not build (a field, a cache)
    | ReturnsNull
    | Throws

  /** A method of a module class, with its markers. */
  datatype MethodMeta = MethodMeta(
    name: string,
    returnType: TypeInfo,
    params: seq<JType>,
    provide: bool,
    runner: bool,
    outcome: CallOutcome,
    runThrows: bool)               // a Runnable it returns throws from run()

  /**
   * An object built by a constructor or returned by a method, identified by its
   * allocation number; `hooks` are the @PostConstruct methods of its runtime class.
   */
  datatype Obj = Obj(id: nat, cls: JType, hooks: seq<string>)

  /** A Java reference: `None` is null. */
  type Value = Option<Obj>
}
