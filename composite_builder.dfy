/**
 * The `compositeSiphon { … }` builder (`CompositeSiphonBuilder` in
 * CompositeSiphonBuilder.kt): the sections that set the initial state, the
 * lifecycle scope and the library-wide interceptors, and the `build` checks.
 * Changes and actions of a composite are of any type; what a delegate adds is
 * in `Delegates`.
 */
module CompositeBuilders {
  import opened Wrappers
  import opened Relays
  import opened Interceptors
  import opened SiphonBuilders
  import opened Delegates
  import opened Composites

  const InitialNotSet: string := "state { initial } must be set"
  const ScopeNotSet: string := "Lifecycle Scope must be set"

  /** `build()`'s checks, in argument order: the initial state, then the lifecycle scope. */
  function CompositeBuildCheck<S>(initial: Option<S>, scope: Option<Scope>): (r: Outcome<string>)
    ensures r.Pass? <==> initial.Some? && scope.Some?
    ensures initial.None? ==> r == Fail(InitialNotSet)
    ensures initial.Some? && scope.None? ==> r == Fail(ScopeNotSet)
  {
    if initial.None? then Fail(InitialNotSet)
    else if scope.None? then Fail(ScopeNotSet)
    else Pass
  }

  class CompositeSiphonBuilder<S, C, A> {
    var initialState: Option<S>
    var lifecycleScope: Option<Scope>
    var stateInterceptors: seq<Interceptor<S>>
    var changeInterceptors: seq<Interceptor<C>>
    var actionInterceptors: seq<Interceptor<A>>

    constructor ()
      ensures initialState == None && lifecycleScope == None
      ensures stateInterceptors == [] && changeInterceptors == [] && actionInterceptors == []
    {
      initialState, lifecycleScope := None, None;
      stateInterceptors, changeInterceptors, actionInterceptors := [], [], [];
    }

    /** `life {}`: `lifecycleScope` becomes the scope the block leaves, `null` when it assigns none. */
    method Life(calls: seq<LifeCall>)
      modifies this
      ensures lifecycleScope == ScopeOf(calls)
      ensures initialState == old(initialState) && stateInterceptors == old(stateInterceptors)
      ensures changeInterceptors == old(changeInterceptors) && actionInterceptors == old(actionInterceptors)
    {
      var scope: Option<Scope> := None;
      for k := 0 to |calls|
        invariant scope == ScopeOf(calls[..k])
      {
        assert Last(calls[..k + 1]) == calls[k];
        scope := calls[k].scope;
      }
      assert calls[..|calls|] == calls;
      lifecycleScope := scope;
    }

    /**
     * `state {}` (the siphon `StateBuilder`): `initialState` becomes what the
     * block leaves in `initial`; its `intercept`/`watchAll` calls append to the
     * state interceptors in order.
     */
    method State(calls: seq<SiphonBuilders.StateCall<S>>)
      modifies this
      ensures initialState == InitialOf(calls)
      ensures stateInterceptors == old(stateInterceptors) + FlatMap(calls, SiphonBuilders.StateAdds)
      ensures lifecycleScope == old(lifecycleScope)
      ensures changeInterceptors == old(changeInterceptors) && actionInterceptors == old(actionInterceptors)
    {
      var initial: Option<S> := None;
      for k := 0 to |calls|
        invariant initial == InitialOf(calls[..k])
        invariant stateInterceptors == old(stateInterceptors) + FlatMap(calls[..k], SiphonBuilders.StateAdds)
        invariant lifecycleScope == old(lifecycleScope) && initialState == old(initialState)
        invariant changeInterceptors == old(changeInterceptors) && actionInterceptors == old(actionInterceptors)
      {
        assert Init(calls[..k + 1]) == calls[..k] && Last(calls[..k + 1]) == calls[k];
        match calls[k]
        case SetInitial(v) =>
          initial := v;
        case InterceptState(i) =>
          stateInterceptors := stateInterceptors + [i];
        case WatchAllStates(w) =>
          stateInterceptors := stateInterceptors + [Watching(w)];
      }
      assert calls[..|calls|] == calls;
      initialState := initial;
    }

    /** `changes {}`: each `watchAll(w)` appends `WatchingInterceptor(w)` to the change interceptors. */
    method Changes(watchers: seq<Watcher<C>>)
      modifies this
      ensures changeInterceptors == old(changeInterceptors) + seq(|watchers|, k requires 0 <= k < |watchers| => Watching(watchers[k]))
      ensures initialState == old(initialState) && lifecycleScope == old(lifecycleScope)
      ensures stateInterceptors == old(stateInterceptors) && actionInterceptors == old(actionInterceptors)
    {
      for k := 0 to |watchers|
        invariant changeInterceptors == old(changeInterceptors) + seq(k, j requires 0 <= j < k => Watching(watchers[j]))
        invariant initialState == old(initialState) && lifecycleScope == old(lifecycleScope)
        invariant stateInterceptors == old(stateInterceptors) && actionInterceptors == old(actionInterceptors)
      {
        changeInterceptors := changeInterceptors + [Watching(watchers[k])];
      }
    }

    /** `actions {}`: each `watchAll(w)` appends `WatchingInterceptor(w)` to the action interceptors. */
    method Actions(watchers: seq<Watcher<A>>)
      modifies this
      ensures actionInterceptors == old(actionInterceptors) + seq(|watchers|, k requires 0 <= k < |watchers| => Watching(watchers[k]))
      ensures initialState == old(initialState) && lifecycleScope == old(lifecycleScope)
      ensures stateInterceptors == old(stateInterceptors) && changeInterceptors == old(changeInterceptors)
    {
      for k := 0 to |watchers|
        invariant actionInterceptors == old(actionInterceptors) + seq(k, j requires 0 <= j < k => Watching(watchers[j]))
        invariant initialState == old(initialState) && lifecycleScope == old(lifecycleScope)
        invariant stateInterceptors == old(stateInterceptors) && changeInterceptors == old(changeInterceptors)
      {
        actionInterceptors := actionInterceptors + [Watching(watchers[k])];
      }
    }

    /**
     * `build(actionSubject)`: fails with the first missing mandatory field's
     * message; otherwise a new composite, in its registration phase, over the
     * collected initial state, scope and interceptors.
     */
    method Build<T(==)>(actionSubject: Relay<A>, tagOf: C -> T) returns (r: Result<DefaultCompositeSiphon<S, C, T, A>, string>)
      requires actionSubject.Valid()
      ensures var check := CompositeBuildCheck(initialState, lifecycleScope);
        && (r.Failure? <==> check.Fail?)
        && (r.Failure? ==> r.error == check.error)
      ensures r.Success? ==> (
        && fresh(r.value) && r.value.Valid()
        && r.value.initialState == initialState.value && r.value.value == initialState.value
        && r.value.actionSubject == actionSubject && r.value.tagOf == tagOf
        && r.value.changeSubject.items == []
        && r.value.composition.Some? && fresh(r.value.composition.value)
        && r.value.composition.value.lifecycleScope == lifecycleScope.value
        && r.value.composition.value.Contents()
           == Registry(map[], [], [], stateInterceptors, changeInterceptors, actionInterceptors))
      ensures unchanged(actionSubject)
    {
      var check := CompositeBuildCheck(initialState, lifecycleScope);
      if check.Fail? {
        r := Failure(check.error);
      } else {
        var s := new DefaultCompositeSiphon(initialState.value, lifecycleScope.value, tagOf,
                                            stateInterceptors, changeInterceptors, actionInterceptors, actionSubject);
        r := Success(s);
      }
    }
  }

  /**
   * `compositeSiphon { … }` once its block has run on `builder`: builds with
   * a new action subject of the library's capacity.
   */
  method CompositeSiphon<S, C, T(==), A>(builder: CompositeSiphonBuilder<S, C, A>, tagOf: C -> T)
    returns (r: Result<DefaultCompositeSiphon<S, C, T, A>, string>)
    ensures var check := CompositeBuildCheck(builder.initialState, builder.lifecycleScope);
      && (r.Failure? <==> check.Fail?)
      && (r.Failure? ==> r.error == check.error)
    ensures r.Success? ==> (
      && fresh(r.value) && fresh(r.value.actionSubject) && r.value.Valid()
      && r.value.actionSubject.capacity == RelayCapacity && r.value.actionSubject.items == []
      && r.value.initialState == builder.initialState.value && r.value.value == builder.initialState.value
      && r.value.tagOf == tagOf && r.value.changeSubject.items == []
      && r.value.composition.Some? && fresh(r.value.composition.value)
      && r.value.composition.value.lifecycleScope == builder.lifecycleScope.value
      && r.value.composition.value.Contents()
         == Registry(map[], [], [], builder.stateInterceptors, builder.changeInterceptors, builder.actionInterceptors))
  {
    var subject := new Relay<A>(RelayCapacity);
    r := builder.Build(subject, tagOf);
  }
}
