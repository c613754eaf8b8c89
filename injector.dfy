/**
 * The public entry point: an injector wraps one CombinerModule built from the
 * user's modules and forwards configuration, lookup and eager creation to it.
 */
module Injection {
  import opened Types
  import opened Jvm
  import opened Engine
  import opened LinkedSet

  class Injector {
    /** The Java field `module`, the combined module; `getModule()` returns it. */
    const combined: Module

    /** The private constructor. */
    constructor (m: Module)
      ensures combined == m
    {
      combined := m;
    }

    /** The combined module is a combiner whose children are distinct user modules, as `of` builds it. */
    predicate Valid()
    {
      combined.configuration.Combine? && combined.Installable()
    }

    /**
     * `Injector.of(modules)`: a CombinerModule over the set of the given modules,
     * configured before the injector is returned. The call throws exactly when
     * some module's bindings throw. On success the combined module holds the
     * distinct entities of all the modules, gathered module by module in the
     * iteration order `order` of the set.
     */
    static method Of(modules: seq<Module>) returns (r: Result<Injector>, ghost order: seq<Module>)
      requires forall m <- modules :: m.configuration.Script?
      modifies (set m | m in modules)`entities, EntitiesOf(set m | m in modules)`owner
      ensures r.Success? <==> forall m <- modules :: FirstRejected(m.configuration.decls) == |m.configuration.decls|
      ensures r.Success? ==>
                && fresh(r.value) && fresh(r.value.combined) && r.value.Valid()
                && r.value.combined.configuration == Combine(set m | m in modules)
                && (forall m <- modules :: ScriptRan(m.configuration.decls, m, old(m.entities), m.entities, Success(())))
                && r.value.combined.Absorbed(set m | m in modules, [])
                && r.value.combined.entities == Gathered([], order) && Unique(r.value.combined.entities)
                && Unique(order) && (forall d <- order :: d in modules) && (forall m <- modules :: m in order)
    {
      var m := new Module.Combiner(modules);
      var injector := new Injector(m);
      var c;
      c, order := injector.Configure();
      if c.Failure? {
        r := Failure(c.error);
        return;
      }
      r := Success(injector);
    }

    /** `configure()`: configures the combined module. */
    method Configure() returns (r: Result<()>, ghost order: seq<Module>)
      requires Valid()
      modifies combined`entities, combined.Children()`entities, EntitiesOf(combined.Children())`owner
      ensures r.Success? <==>
                forall c <- combined.configuration.children :: FirstRejected(c.configuration.decls) == |c.configuration.decls|
      ensures r.Success? ==>
                && (forall c <- combined.configuration.children ::
                      ScriptRan(c.configuration.decls, c, old(c.entities), c.entities, Success(())))
                && combined.Absorbed(combined.configuration.children, old(combined.entities))
      ensures combined.entities == Gathered(old(combined.entities), order)
      ensures Unique(order) && forall d <- order :: d in combined.configuration.children
      ensures r.Success? ==> forall c <- combined.configuration.children :: c in order
      ensures Unique(old(combined.entities)) ==> Unique(combined.entities)
    {
      r, order := combined.Configure();
    }

    /** `getInstance(t)`: the combined module's lookup. */
    method GetInstance(t: JType, w: World, depth: nat, ghost sh: Shape, ghost slots: map<Entity, Value>)
      returns (r: Result<Value>, w': World)
      requires Mirrors(sh) && Current(sh, slots) && combined in sh.members
      modifies sh.info.Keys`instance
      ensures Yields(r, w', sh, LookupSpec(combined, t, Store(slots, w), depth, sh))
    {
      r, w' := combined.GetInstance(t, w, depth, sh, slots);
    }

    /** `create()`: the combined module's eager creation pass. */
    method Create(w: World, depth: nat, ghost sh: Shape, ghost slots: map<Entity, Value>) returns (r: Result<()>, w': World)
      requires Mirrors(sh) && Current(sh, slots) && combined in sh.members
      modifies sh.info.Keys`instance
      ensures Yields(r, w', sh, CreatePass(combined.entities, Store(slots, w), depth, sh))
    {
      r, w' := combined.Create(w, depth, sh, slots);
    }
  }
}
