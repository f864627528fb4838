/**
 * The `siphon { … }` builder (SiphonBuilder.kt): the DSL sections that
 * collect a `Siphon`'s configuration, the reducer helpers of its `changes`
 * section, `perform` of its `actions` section, and the `build` checks.
 *
 * A DSL block (`StateBuilder.() -> Unit` and the like) is modelled by the
 * sequence of calls it makes on its sub-builder, in order.
 */
module SiphonBuilders {
  import opened Wrappers
  import opened Effects
  import opened Interceptors
  import opened Engine

  /** A `CoroutineScope`, known to the builder only by identity. */
  datatype Scope = Scope(id: nat)

  const MissingInitial: string := "state { initial } must be declared"
  const MissingReducer: string := "changes { reduce } must be declared"
  const MissingScope: string := "You must define a scope for the Siphon to live in"

  /** The failure `unexpected(change)` raises: "Unexpected $change in $this". */
  datatype Unexpected<C, S> = Unexpected(change: C, state: S)

  // ---------------------------------------------------------------------------
  // Reducer helpers of `ChangesBuilder`

  /** `State.only`: the state with no action. */
  function Only<S, A>(s: S): (r: Effect<S, A>)
    ensures r.WithAction? && r.state == s && Actions(r) == []
  {
    WithAction(s, None)
  }

  /** `State.plus(action)`: the state with one nullable action. */
  function With<S, A>(s: S, a: Option<A>): (r: Effect<S, A>)
    ensures r.WithAction? && r.state == s && Actions(r) == Added(a)
  {
    WithAction(s, a)
  }

  /**
   * `whenState<W>(block)`: runs `block` when the state is of the target
   * subtype (`isTarget`), and otherwise ignores the change.
   */
  function WhenState<S, A>(s: S, isTarget: S -> bool, block: S -> Effect<S, A>): (r: Effect<S, A>)
    ensures isTarget(s) ==> r == block(s)
    ensures !isTarget(s) ==> r.state == s && Actions(r) == []
  {
    if isTarget(s) then block(s) else Only(s)
  }

  /**
   * `requireState<W>(change, block)`: runs `block` when the state is of the
   * target subtype, and otherwise fails with `unexpected(change)`.
   */
  function RequireState<S, C, A>(s: S, c: C, isTarget: S -> bool, block: S -> Effect<S, A>)
    : (r: Result<Effect<S, A>, Unexpected<C, S>>)
    ensures r.Success? <==> isTarget(s)
    ensures r.Success? ==> r.value == block(s)
    ensures r.Failure? ==> r.error == Unexpected(c, s)
  {
    if isTarget(s) then Success(block(s)) else Failure(Unexpected(c, s))
  }

  /**
   * The two guards agree on the target subtype; outside it `whenState`
   * ignores exactly the changes `requireState` refuses.
   */
  lemma WhenStateAgreesWithRequireState<S, C, A>(s: S, c: C, isTarget: S -> bool, block: S -> Effect<S, A>)
    ensures var r := RequireState(s, c, isTarget, block);
      if r.Success? then WhenState(s, isTarget, block) == r.value
      else WhenState(s, isTarget, block) == Only(s)
  {
  }

  // ---------------------------------------------------------------------------
  // `ActionsBuilder.perform`

  /**
   * `perform<P>(transformer)` on one action: `flowOf(action)`, kept only when
   * it is a `P` (`isP`), then flat-mapped through `transformer`.
   */
  function Perform<A, C>(isP: A -> bool, t: A -> seq<C>, a: A): (r: seq<C>)
    ensures !isP(a) ==> r == []
    ensures isP(a) ==> r == t(a)
  {
    var kept := Filter([a], isP);
    assert kept == if isP(a) then [a] else [] by {
      assert Init([a]) == [] && Last([a]) == a;
    }
    assert FlatMap([a], t) == t(a) by {
      assert Init([a]) == [] && Last([a]) == a;
    }
    FlatMap(kept, t)
  }

  /** The transformer `perform<P>` registers. */
  function Performer<A, C>(isP: A -> bool, t: A -> seq<C>): ActionTransformer<A, C>
  {
    a => Perform(isP, t, a)
  }

  /** What a registered `perform<P>` produces for a whole stream of actions: only the `P`s contribute, in order. */
  lemma {:induction false} PerformerSeesOnlyItsType<A, C>(isP: A -> bool, t: A -> seq<C>, acts: seq<A>)
    ensures FlatMap(acts, Performer(isP, t)) == FlatMap(Filter(acts, isP), t)
    decreases |acts|
  {
    if acts != [] {
      PerformerSeesOnlyItsType(isP, t, Init(acts));
      var x := Last(acts);
      if isP(x) {
        FlatMapConcat(Filter(Init(acts), isP), [x], t);
        assert FlatMap([x], t) == t(x) by { assert Init([x]) == []; }
      } else {
        assert Filter(acts, isP) == Filter(Init(acts), isP);
      }
    }
  }

  // ---------------------------------------------------------------------------
  // The calls a section block can make

  /** Calls on a `LifeBuilder`: assigning `lifesycleScope` (`reduceOn` has no effect on the fold). */
  datatype LifeCall = SetScope(scope: Option<Scope>)

  /** Calls on a `StateBuilder`: assigning `initial`, `intercept`, `watchAll`. */
  datatype StateCall<!S> =
    | SetInitial(initial: Option<S>)
    | InterceptState(interceptor: Interceptor<S>)
    | WatchAllStates(watcher: Watcher<S>)

  /** Calls on a `ChangesBuilder`: `reduce`, `intercept`, `watchAll`. */
  datatype ChangesCall<!S, !C, A> =
    | Reduce(reducer: Reducer<S, C, A>)
    | InterceptChange(interceptor: Interceptor<C>)
    | WatchAllChanges(watcher: Watcher<C>)

  /** Calls on an `ActionsBuilder`: `performAll`, `perform<P>`, `intercept`, `watchAll`. */
  datatype ActionsCall<!A, C> =
    | PerformAll(transformer: ActionTransformer<A, C>)
    | PerformOf(isP: A -> bool, transform: A -> seq<C>)
    | InterceptAction(interceptor: Interceptor<A>)
    | WatchAllActions(watcher: Watcher<A>)

  /** The scope a `life {}` block leaves in `lifesycleScope`: the last one assigned, or `null`. */
  function ScopeOf(calls: seq<LifeCall>): Option<Scope>
    decreases |calls|
  {
    if calls == [] then None else Last(calls).scope
  }

  /** The `initial` a `state {}` block leaves: the last value assigned, or `null` when it assigns none. */
  function InitialOf<S>(calls: seq<StateCall<S>>): Option<S>
    decreases |calls|
  {
    if calls == [] then None
    else if Last(calls).SetInitial? then Last(calls).initial
    else InitialOf(Init(calls))
  }

  /** The `reducer` a `changes {}` block leaves: the one of its last `reduce`, or `null` when it has none. */
  function ReducerOf<S, C, A>(calls: seq<ChangesCall<S, C, A>>): Option<Reducer<S, C, A>>
    decreases |calls|
  {
    if calls == [] then None
    else if Last(calls).Reduce? then Some(Last(calls).reducer)
    else ReducerOf(Init(calls))
  }

  /** The interceptor one state call appends: `watchAll(w)` appends `WatchingInterceptor(w)`. */
  function StateAdds<S>(call: StateCall<S>): seq<Interceptor<S>>
  {
    match call
    case SetInitial(_) => []
    case InterceptState(i) => [i]
    case WatchAllStates(w) => [Watching(w)]
  }

  function ChangeAdds<S, C, A>(call: ChangesCall<S, C, A>): seq<Interceptor<C>>
  {
    match call
    case Reduce(_) => []
    case InterceptChange(i) => [i]
    case WatchAllChanges(w) => [Watching(w)]
  }

  /** The transformer one actions call appends: `perform<P>(t)` appends `performAll` of its filtering wrapper. */
  function TransformerAdds<A, C>(call: ActionsCall<A, C>): seq<ActionTransformer<A, C>>
  {
    match call
    case PerformAll(t) => [t]
    case PerformOf(isP, t) => [Performer(isP, t)]
    case InterceptAction(_) => []
    case WatchAllActions(_) => []
  }

  function ActionAdds<A, C>(call: ActionsCall<A, C>): seq<Interceptor<A>>
  {
    match call
    case PerformAll(_) => []
    case PerformOf(_, _) => []
    case InterceptAction(i) => [i]
    case WatchAllActions(w) => [Watching(w)]
  }

  /**
   * Within a `changes {}` block the last `reduce` wins: any earlier `reduce`
   * is overwritten by it, and later calls that are not `reduce` leave it.
   */
  lemma {:induction false} LastReduceWins<S, C, A>(calls: seq<ChangesCall<S, C, A>>, k: nat)
    requires k < |calls| && calls[k].Reduce?
    requires forall j :: k < j < |calls| ==> !calls[j].Reduce?
    ensures ReducerOf(calls) == Some(calls[k].reducer)
    decreases |calls|
  {
    if k < |calls| - 1 {
      LastReduceWins(Init(calls), k);
    }
  }

  /** A `changes {}` block leaves no reducer exactly when it never calls `reduce`. */
  lemma {:induction false} NoReduceNoReducer<S, C, A>(calls: seq<ChangesCall<S, C, A>>)
    ensures ReducerOf(calls).None? <==> forall j :: 0 <= j < |calls| ==> !calls[j].Reduce?
    decreases |calls|
  {
    if calls != [] {
      NoReduceNoReducer(Init(calls));
      if !Last(calls).Reduce? {
        assert forall j :: 0 <= j < |calls| - 1 ==> calls[j] == Init(calls)[j];
      }
    }
  }

  /** A `state {}` block that never assigns `initial` leaves it `null`. */
  lemma {:induction false} NoInitialIsNull<S>(calls: seq<StateCall<S>>)
    requires forall j :: 0 <= j < |calls| ==> !calls[j].SetInitial?
    ensures InitialOf(calls) == None
    decreases |calls|
  {
    if calls != [] {
      assert forall j :: 0 <= j < |calls| - 1 ==> Init(calls)[j] == calls[j];
      NoInitialIsNull(Init(calls));
    }
  }

  /**
   * `build()`'s checks, in the order its arguments are evaluated: the initial
   * state, then the reducer, then the scope.
   */
  function BuildCheck<S, C, A>(initial: Option<S>, reducer: Option<Reducer<S, C, A>>, scope: Option<Scope>)
    : (r: Outcome<string>)
    ensures r.Pass? <==> initial.Some? && reducer.Some? && scope.Some?
    ensures initial.None? ==> r == Fail(MissingInitial)
    ensures initial.Some? && reducer.None? ==> r == Fail(MissingReducer)
    ensures initial.Some? && reducer.Some? && scope.None? ==> r == Fail(MissingScope)
  {
    if initial.None? then Fail(MissingInitial)
    else if reducer.None? then Fail(MissingReducer)
    else if scope.None? then Fail(MissingScope)
    else Pass
  }

  /** The three `build()` failures are told apart by their messages. */
  lemma BuildMessagesDiffer()
    ensures MissingInitial != MissingReducer && MissingReducer != MissingScope && MissingInitial != MissingScope
  {
    assert |MissingInitial| == 34 && |MissingReducer| == 35 && |MissingScope| == 49;
  }

  class SiphonBuilder<S, C, A> {
    var initialState: Option<S>
    var liveIn: Option<Scope>
    var reducer: Option<Reducer<S, C, A>>
    /** Each event source, given by the changes it emits. */
    var eventSources: seq<seq<C>>
    var actionTransformers: seq<ActionTransformer<A, C>>
    var stateInterceptors: seq<Interceptor<S>>
    var changeInterceptors: seq<Interceptor<C>>
    var actionInterceptors: seq<Interceptor<A>>

    constructor ()
      ensures initialState == None && liveIn == None && reducer == None
      ensures eventSources == [] && actionTransformers == []
      ensures stateInterceptors == [] && changeInterceptors == [] && actionInterceptors == []
    {
      initialState, liveIn, reducer := None, None, None;
      eventSources, actionTransformers := [], [];
      stateInterceptors, changeInterceptors, actionInterceptors := [], [], [];
    }

    /** `life {}`: `liveIn` becomes the scope the block leaves, `null` when it assigns none. */
    method Life(calls: seq<LifeCall>)
      modifies this
      ensures liveIn == ScopeOf(calls)
      ensures initialState == old(initialState) && reducer == old(reducer)
      ensures eventSources == old(eventSources) && actionTransformers == old(actionTransformers)
      ensures stateInterceptors == old(stateInterceptors) && changeInterceptors == old(changeInterceptors)
      ensures actionInterceptors == old(actionInterceptors)
    {
      var scope: Option<Scope> := None;
      for k := 0 to |calls|
        invariant scope == ScopeOf(calls[..k])
      {
        assert Last(calls[..k + 1]) == calls[k];
        scope := calls[k].scope;
      }
      assert calls[..|calls|] == calls;
      liveIn := scope;
    }

    /**
     * `state {}`: `initialState` becomes what the block leaves in `initial`
     * (so a later section without `initial` resets it to `null`); the block's
     * `intercept`/`watchAll` calls append to the state interceptors in order.
     */
    method State(calls: seq<StateCall<S>>)
      modifies this
      ensures initialState == InitialOf(calls)
      ensures stateInterceptors == old(stateInterceptors) + FlatMap(calls, StateAdds)
      ensures liveIn == old(liveIn) && reducer == old(reducer)
      ensures eventSources == old(eventSources) && actionTransformers == old(actionTransformers)
      ensures changeInterceptors == old(changeInterceptors) && actionInterceptors == old(actionInterceptors)
    {
      var initial: Option<S> := None;
      for k := 0 to |calls|
        invariant initial == InitialOf(calls[..k])
        invariant stateInterceptors == old(stateInterceptors) + FlatMap(calls[..k], StateAdds)
        invariant liveIn == old(liveIn) && reducer == old(reducer) && initialState == old(initialState)
        invariant eventSources == old(eventSources) && actionTransformers == old(actionTransformers)
        invariant changeInterceptors == old(changeInterceptors) && actionInterceptors == old(actionInterceptors)
      {
        assert Init(calls[..k + 1]) == calls[..k] && Last(calls[..k + 1]) == calls[k];
        match calls[k]
        case SetInitial(v) =>
          initial := v;
        case InterceptState(i) =>
          stateInterceptors := stateInterceptors + [i];
        case WatchAllStates(w) =>
          stateInterceptors := stateInterceptors + [Watching(w)];
      }
      assert calls[..|calls|] == calls;
      initialState := initial;
    }

    /**
     * `changes {}`: `reducer` becomes the block's last `reduce`, `null` when it
     * has none; its `intercept`/`watchAll` calls append to the change
     * interceptors in order.
     */
    method Changes(calls: seq<ChangesCall<S, C, A>>)
      modifies this
      ensures reducer == ReducerOf(calls)
      ensures changeInterceptors == old(changeInterceptors) + FlatMap(calls, ChangeAdds)
      ensures liveIn == old(liveIn) && initialState == old(initialState)
      ensures eventSources == old(eventSources) && actionTransformers == old(actionTransformers)
      ensures stateInterceptors == old(stateInterceptors) && actionInterceptors == old(actionInterceptors)
    {
      var r: Option<Reducer<S, C, A>> := None;
      for k := 0 to |calls|
        invariant r == ReducerOf(calls[..k])
        invariant changeInterceptors == old(changeInterceptors) + FlatMap(calls[..k], ChangeAdds)
        invariant liveIn == old(liveIn) && reducer == old(reducer) && initialState == old(initialState)
        invariant eventSources == old(eventSources) && actionTransformers == old(actionTransformers)
        invariant stateInterceptors == old(stateInterceptors) && actionInterceptors == old(actionInterceptors)
      {
        assert Init(calls[..k + 1]) == calls[..k] && Last(calls[..k + 1]) == calls[k];
        match calls[k]
        case Reduce(f) =>
          r := Some(f);
        case InterceptChange(i) =>
          changeInterceptors := changeInterceptors + [i];
        case WatchAllChanges(w) =>
          changeInterceptors := changeInterceptors + [Watching(w)];
      }
      assert calls[..|calls|] == calls;
      reducer := r;
    }

    /** `actions {}`: transformers and action interceptors are appended in call order. */
    method Actions(calls: seq<ActionsCall<A, C>>)
      modifies this
      ensures actionTransformers == old(actionTransformers) + FlatMap(calls, TransformerAdds)
      ensures actionInterceptors == old(actionInterceptors) + FlatMap(calls, ActionAdds)
      ensures liveIn == old(liveIn) && initialState == old(initialState) && reducer == old(reducer)
      ensures eventSources == old(eventSources)
      ensures stateInterceptors == old(stateInterceptors) && changeInterceptors == old(changeInterceptors)
    {
      for k := 0 to |calls|
        invariant actionTransformers == old(actionTransformers) + FlatMap(calls[..k], TransformerAdds)
        invariant actionInterceptors == old(actionInterceptors) + FlatMap(calls[..k], ActionAdds)
        invariant liveIn == old(liveIn) && reducer == old(reducer) && initialState == old(initialState)
        invariant eventSources == old(eventSources)
        invariant stateInterceptors == old(stateInterceptors) && changeInterceptors == old(changeInterceptors)
      {
        assert Init(calls[..k + 1]) == calls[..k] && Last(calls[..k + 1]) == calls[k];
        match calls[k]
        case PerformAll(t) =>
          actionTransformers := actionTransformers + [t];
        case PerformOf(isP, t) =>
          actionTransformers := actionTransformers + [Performer(isP, t)];
        case InterceptAction(i) =>
          actionInterceptors := actionInterceptors + [i];
        case WatchAllActions(w) =>
          actionInterceptors := actionInterceptors + [Watching(w)];
      }
      assert calls[..|calls|] == calls;
    }

    /** `events {}`: every `source(s)` call of the block appends `s`, in call order. */
    method Events(sources: seq<seq<C>>)
      modifies this
      ensures eventSources == old(eventSources) + sources
      ensures liveIn == old(liveIn) && initialState == old(initialState) && reducer == old(reducer)
      ensures actionTransformers == old(actionTransformers)
      ensures stateInterceptors == old(stateInterceptors) && changeInterceptors == old(changeInterceptors)
      ensures actionInterceptors == old(actionInterceptors)
    {
      for k := 0 to |sources|
        invariant eventSources == old(eventSources) + sources[..k]
        invariant liveIn == old(liveIn) && initialState == old(initialState) && reducer == old(reducer)
        invariant actionTransformers == old(actionTransformers)
        invariant stateInterceptors == old(stateInterceptors) && changeInterceptors == old(changeInterceptors)
        invariant actionInterceptors == old(actionInterceptors)
      {
        assert sources[..k + 1] == sources[..k] + [sources[k]];
        eventSources := eventSources + [sources[k]];
      }
      assert sources[..|sources|] == sources;
    }

    /**
     * `build()`: fails with the first missing mandatory field's message;
     * otherwise a new `Siphon` over the collected initial state, reducer,
     * event sources and transformers, with empty relays.
     */
    method Build() returns (r: Result<Siphon<S, C, A>, string>)
      ensures var check := BuildCheck(initialState, reducer, liveIn);
        && (r.Failure? <==> check.Fail?)
        && (r.Failure? ==> r.error == check.error)
      ensures r.Success? ==> (
        && fresh(r.value) && r.value.Valid()
        && r.value.initialState == initialState.value && r.value.reducer == reducer.value
        && r.value.events == eventSources && r.value.actionTransformers == actionTransformers
        && r.value.state == initialState.value && r.value.delivered == []
        && r.value.changeRelay.items == [] && r.value.actionRelay.items == []
        && r.value.notices == [] && r.value.cursors == seq(|eventSources|, _ => 0))
    {
      var check := BuildCheck(initialState, reducer, liveIn);
      if check.Fail? {
        r := Failure(check.error);
      } else {
        var s := new Siphon(initialState.value, reducer.value, actionTransformers, eventSources);
        r := Success(s);
      }
    }
  }
}
