/**
 * EntityFactory: which kind of entity a class or a method binds to, decided from
 * its markers alone.
 */
module EntityFactory {
  import opened Types

  /** The entity `create(Module, Class)` builds for a class. */
  datatype TypeBinding =
    | ClassBinding(scope: Scope)   // a ClassEntity with this scope
    | EmptyBinding                 // an EmptyEntity: a value supplied from outside

  /** The entity `create(Module, Method)` builds for a method. */
  datatype MethodBinding = ProviderBinding | RunnerBinding

  function ClassifyType(meta: ClassMeta): TypeBinding
  {
    if meta.service.Some? then ClassBinding(meta.service.value.EffectiveScope())
    else if meta.component.Some? then ClassBinding(meta.component.value.EffectiveScope())
    else EmptyBinding
  }

  function ClassifyMethod(m: MethodMeta): Result<MethodBinding>
  {
    if m.provide then Success(ProviderBinding)
    else if m.runner then Success(RunnerBinding)
    else Failure(NoBindingMarker(m.name))
  }

  /** @Service is consulted first: its scope wins even when @Component is present too. */
  lemma ServiceDecidesScope(meta: ClassMeta)
    requires meta.service.Some?
    ensures ClassifyType(meta) == ClassBinding(meta.service.value.EffectiveScope())
  {
  }

  /** A class marked only @Component binds to a ClassEntity with that marker's scope. */
  lemma ComponentDecidesScope(meta: ClassMeta)
    requires meta.service.None? && meta.component.Some?
    ensures ClassifyType(meta) == ClassBinding(meta.component.value.EffectiveScope())
  {
  }

  /** Classifying a class never fails; it is an EmptyEntity exactly when it carries no marker. */
  lemma EmptyExactlyWhenUnmarked(meta: ClassMeta)
    ensures ClassifyType(meta).EmptyBinding? <==> meta.service.None? && meta.component.None?
  {
  }

  /** A marker that leaves `scope` unset means SINGLETON. */
  lemma DefaultScopeIsSingleton(m: Marker)
    ensures m.scopeAttribute.None? ==> m.EffectiveScope() == Singleton
    ensures m.scopeAttribute.Some? ==> m.EffectiveScope() == m.scopeAttribute.value
  {
  }

  /** @Provide is consulted before @Runner. */
  lemma ProvideTakesPrecedence(m: MethodMeta)
    requires m.provide
    ensures ClassifyMethod(m) == Success(ProviderBinding)
  {
  }

  /**
   * A method binds to a runner exactly when it is marked @Runner and not @Provide,
   * and binding fails, naming the method, exactly when it carries neither marker.
   */
  lemma MethodClassification(m: MethodMeta)
    ensures ClassifyMethod(m) == Success(RunnerBinding) <==> !m.provide && m.runner
    ensures ClassifyMethod(m).Failure? <==> !m.provide && !m.runner
    ensures ClassifyMethod(m).Failure? ==> ClassifyMethod(m).error == NoBindingMarker(m.name)
  {
  }
}
