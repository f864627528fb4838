/**
 * The `DelegateBuilder` of a composite siphon (CompositeSiphonBuilder.kt): the
 * calls a delegate's `registerDelegate { … }` block makes, what each adds to
 * the composition, and the partial-reducer helpers `dispatch` and
 * `dispatchStateOnly`.
 *
 * A change's runtime class is its tag `T`: `reduce<C>` registers a reducer
 * under `C::class`, and the composite looks a change up by `change::class`.
 */
module Delegates {
  import opened Wrappers
  import opened Effects
  import opened Interceptors
  import opened Engine
  import opened SiphonBuilders

  /** Calls on a delegate's `StateBuilder`: `intercept` and `watchAll`. */
  datatype StateCall<!S> =
    | InterceptState(interceptor: Interceptor<S>)
    | WatchAllStates(watcher: Watcher<S>)

  /**
   * Calls on a delegate's `ChangesBuilder`: `reduce(type, r)` (and its
   * `reduce<C>` form), `intercept<C>` with the type test `isC`, and `watchAll`.
   */
  datatype ChangesCall<!S, !C, T, A> =
    | ReduceTag(tag: T, reducer: Reducer<S, C, A>)
    | InterceptOf(isC: C -> bool, interceptor: Interceptor<C>)
    | WatchAllChanges(watcher: Watcher<C>)

  /**
   * One section of a delegate block: `state {}`, `changes {}`, `actions {}`
   * (the calls of the siphon `ActionsBuilder`) or `events {}` (its `source`
   * calls, each source given by the changes it emits).
   */
  datatype Section<!S, !C, T, !A> =
    | StateSection(stateCalls: seq<StateCall<S>>)
    | ChangesSection(changeCalls: seq<ChangesCall<S, C, T, A>>)
    | ActionsSection(actionCalls: seq<ActionsCall<A, C>>)
    | EventsSection(sources: seq<seq<C>>)

  // ---------------------------------------------------------------------------
  // `reduce`: the reducer registry

  /** The registry after a `changes {}` block: each `reduce(type, r)` stores `r` under `type`. */
  function ReduceAll<S, C, T, A>(m: map<T, Reducer<S, C, A>>, calls: seq<ChangesCall<S, C, T, A>>)
    : map<T, Reducer<S, C, A>>
    decreases |calls|
  {
    if calls == [] then m
    else
      var m' := ReduceAll(m, Init(calls));
      if Last(calls).ReduceTag? then m'[Last(calls).tag := Last(calls).reducer] else m'
  }

  /** Whether `calls` registers a reducer under `t`. */
  ghost predicate Registers<S, C, T, A>(calls: seq<ChangesCall<S, C, T, A>>, t: T)
  {
    exists j :: 0 <= j < |calls| && calls[j].ReduceTag? && calls[j].tag == t
  }

  /** Last writer wins: the reducer stored under `t` is the one of the last `reduce` for `t`. */
  lemma {:induction false} ReduceLastWriterWins<S, C, T, A>(
    m: map<T, Reducer<S, C, A>>, calls: seq<ChangesCall<S, C, T, A>>, k: nat)
    requires k < |calls| && calls[k].ReduceTag?
    requires forall j :: k < j < |calls| ==> !(calls[j].ReduceTag? && calls[j].tag == calls[k].tag)
    ensures calls[k].tag in ReduceAll(m, calls)
    ensures ReduceAll(m, calls)[calls[k].tag] == calls[k].reducer
    decreases |calls|
  {
    if k < |calls| - 1 {
      ReduceLastWriterWins(m, Init(calls), k);
    }
  }

  /** Every key `calls` does not register keeps its presence and its reducer. */
  lemma {:induction false} ReduceOtherKeysUnchanged<S, C, T, A>(
    m: map<T, Reducer<S, C, A>>, calls: seq<ChangesCall<S, C, T, A>>, t: T)
    requires !Registers(calls, t)
    ensures t in ReduceAll(m, calls) <==> t in m
    ensures t in m ==> ReduceAll(m, calls)[t] == m[t]
    decreases |calls|
  {
    if calls != [] {
      assert !Registers(Init(calls), t) by {
        forall j | 0 <= j < |Init(calls)|
          ensures !(Init(calls)[j].ReduceTag? && Init(calls)[j].tag == t)
        {
          assert Init(calls)[j] == calls[j];
        }
      }
      ReduceOtherKeysUnchanged(m, Init(calls), t);
      assert !(Last(calls).ReduceTag? && Last(calls).tag == t);
    }
  }

  /** The keys after a `changes {}` block: the old ones and every registered type. */
  lemma {:induction false} ReduceAllKeys<S, C, T, A>(m: map<T, Reducer<S, C, A>>, calls: seq<ChangesCall<S, C, T, A>>, t: T)
    ensures t in ReduceAll(m, calls) <==> t in m || Registers(calls, t)
    decreases |calls|
  {
    if calls != [] {
      ReduceAllKeys(m, Init(calls), t);
      if Registers(calls, t) && !Registers(Init(calls), t) {
        assert Last(calls).ReduceTag? && Last(calls).tag == t;
      }
      if Registers(Init(calls), t) {
        var j :| 0 <= j < |Init(calls)| && Init(calls)[j].ReduceTag? && Init(calls)[j].tag == t;
        assert calls[j] == Init(calls)[j];
      }
    }
  }

  /** A `changes {}` block overrides the reducers it registers and keeps every other one. */
  lemma {:induction false} ReduceAllOverrides<S, C, T, A>(m: map<T, Reducer<S, C, A>>, calls: seq<ChangesCall<S, C, T, A>>)
    ensures ReduceAll(m, calls) == m + ReduceAll(map[], calls)
    decreases |calls|
  {
    if calls == [] {
      assert m + map[] == m;
    } else {
      ReduceAllOverrides(m, Init(calls));
      var c := Last(calls);
      if c.ReduceTag? {
        var mine := ReduceAll(map[], Init(calls));
        assert (m + mine)[c.tag := c.reducer] == m + mine[c.tag := c.reducer];
      }
    }
  }

  // ---------------------------------------------------------------------------
  // `intercept<C>`

  /**
   * `intercept<C>` as written: the registered interceptor passes
   * `flowOf(change).filterIsInstance<C>()` to `interceptor`. Its lambda's
   * parameter `change` is the whole change stream, so `flowOf(change)` is a
   * stream whose one element is that stream object. For every `C` that
   * object is not an instance of (every change type the builder is used
   * with), the filter leaves the empty stream, whatever the input; `isC`
   * plays no part. With `C = Any` the filter would keep the stream object
   * itself, a case not modelled.
   */
  function InterceptOfAsWritten<C>(isC: C -> bool, interceptor: Interceptor<C>): Interceptor<C>
  {
    Custom((stream: seq<C>) => Apply(interceptor, []))
  }

  /** As written, the registered interceptor ignores its input: every change stream is replaced by the same one. */
  lemma InterceptOfAsWrittenIgnoresInput<C>(isC: C -> bool, interceptor: Interceptor<C>, s1: seq<C>, s2: seq<C>)
    ensures Apply(InterceptOfAsWritten(isC, interceptor), s1) == Apply(InterceptOfAsWritten(isC, interceptor), s2)
  {
  }

  /** So even a transparent interceptor registered with `intercept<C>` erases every change. */
  lemma InterceptOfAsWrittenErasesChanges<C>(isC: C -> bool, w: Watcher<C>, c: C)
    ensures Apply(InterceptOfAsWritten(isC, Watching(w)), [c]) == []
    ensures Apply(Watching(w), [c]) == [c]
  {
    assert Init([c]) == [];
  }

  /** What one change becomes under a typed interceptor: a `C` goes through the interceptor, any other change passes. */
  function InterceptOne<C>(isC: C -> bool, interceptor: Interceptor<C>, c: C): seq<C>
  {
    if isC(c) then Apply(interceptor, [c]) else [c]
  }

  /** `intercept<C>` corrected: the interceptor sees the changes of type `C`, and other changes pass unchanged. */
  function TypedInterceptor<C>(isC: C -> bool, interceptor: Interceptor<C>): Interceptor<C>
  {
    Custom((stream: seq<C>) => FlatMap(stream, c => InterceptOne(isC, interceptor, c)))
  }

  /** The corrected form leaves a stream with no `C` in it unchanged. */
  lemma {:induction false} InterceptOfPassesOtherChanges<C>(isC: C -> bool, interceptor: Interceptor<C>, stream: seq<C>)
    requires forall k :: 0 <= k < |stream| ==> !isC(stream[k])
    ensures Apply(TypedInterceptor(isC, interceptor), stream) == stream
    decreases |stream|
  {
    if stream != [] {
      assert forall k :: 0 <= k < |Init(stream)| ==> Init(stream)[k] == stream[k];
      InterceptOfPassesOtherChanges(isC, interceptor, Init(stream));
    }
  }

  /** The corrected form with a transparent interceptor is itself transparent. */
  lemma {:induction false} InterceptOfWatchingIsTransparent<C>(isC: C -> bool, w: Watcher<C>, stream: seq<C>)
    ensures Apply(TypedInterceptor(isC, Watching(w)), stream) == stream
    decreases |stream|
  {
    if stream != [] {
      InterceptOfWatchingIsTransparent(isC, w, Init(stream));
      var c := Last(stream);
      assert InterceptOne(isC, Watching(w), c) == [c] by {
        WatchingIsTransparent(w, [c]);
      }
    }
  }

  // ---------------------------------------------------------------------------
  // What each section appends to the shared lists

  function StateAdds<S>(call: StateCall<S>): seq<Interceptor<S>>
  {
    match call
    case InterceptState(i) => [i]
    case WatchAllStates(w) => [Watching(w)]
  }

  function ChangeAdds<S, C, T, A>(call: ChangesCall<S, C, T, A>): seq<Interceptor<C>>
  {
    match call
    case ReduceTag(_, _) => []
    case InterceptOf(isC, i) => [TypedInterceptor(isC, i)]
    case WatchAllChanges(w) => [Watching(w)]
  }

  /** The shared registry a delegate block writes to (the `Composition` minus its fixed parts). */
  datatype Registry<!S, !C, T, !A> = Registry(
    reducers: map<T, Reducer<S, C, A>>,
    actionTransformers: seq<ActionTransformer<A, C>>,
    eventSources: seq<seq<C>>,
    stateInterceptors: seq<Interceptor<S>>,
    changeInterceptors: seq<Interceptor<C>>,
    actionInterceptors: seq<Interceptor<A>>)

  /** What one section of a delegate block does to the registry. */
  function ApplySection<S, C, T, A>(reg: Registry<S, C, T, A>, sec: Section<S, C, T, A>): Registry<S, C, T, A>
  {
    match sec
    case StateSection(calls) =>
      reg.(stateInterceptors := reg.stateInterceptors + FlatMap(calls, StateAdds))
    case ChangesSection(calls) =>
      reg.(reducers := ReduceAll(reg.reducers, calls),
           changeInterceptors := reg.changeInterceptors + FlatMap(calls, ChangeAdds))
    case ActionsSection(calls) =>
      reg.(actionTransformers := reg.actionTransformers + FlatMap(calls, TransformerAdds),
           actionInterceptors := reg.actionInterceptors + FlatMap(calls, ActionAdds))
    case EventsSection(sources) =>
      reg.(eventSources := reg.eventSources + sources)
  }

  /** What a whole delegate block does to the registry, its sections taken in order. */
  function Registered<S, C, T, A>(reg: Registry<S, C, T, A>, block: seq<Section<S, C, T, A>>): Registry<S, C, T, A>
    decreases |block|
  {
    if block == [] then reg else ApplySection(Registered(reg, Init(block)), Last(block))
  }

  /** The reducers a delegate block registers, under each of their types. */
  function BlockReducers<S, C, T, A>(block: seq<Section<S, C, T, A>>): map<T, Reducer<S, C, A>>
  {
    Registered(Registry(map[], [], [], [], [], []), block).reducers
  }

  /**
   * Registering a block only appends: lists keep their old entries as a
   * prefix, in order (the reducers are `RegisteredOverridesReducers`).
   */
  lemma {:induction false} RegisteredAppends<S, C, T, A>(reg: Registry<S, C, T, A>, block: seq<Section<S, C, T, A>>)
    ensures var r := Registered(reg, block);
      && |reg.actionTransformers| <= |r.actionTransformers|
      && r.actionTransformers[..|reg.actionTransformers|] == reg.actionTransformers
      && |reg.eventSources| <= |r.eventSources| && r.eventSources[..|reg.eventSources|] == reg.eventSources
      && |reg.stateInterceptors| <= |r.stateInterceptors|
      && r.stateInterceptors[..|reg.stateInterceptors|] == reg.stateInterceptors
      && |reg.changeInterceptors| <= |r.changeInterceptors|
      && r.changeInterceptors[..|reg.changeInterceptors|] == reg.changeInterceptors
      && |reg.actionInterceptors| <= |r.actionInterceptors|
      && r.actionInterceptors[..|reg.actionInterceptors|] == reg.actionInterceptors
    decreases |block|
  {
    if block != [] {
      RegisteredAppends(reg, Init(block));
    }
  }

  /** The reducers after a block: the old ones, overridden by those the block registers under the same type. */
  lemma {:induction false} RegisteredOverridesReducers<S, C, T, A>(reg: Registry<S, C, T, A>, block: seq<Section<S, C, T, A>>)
    ensures Registered(reg, block).reducers == reg.reducers + BlockReducers(block)
    decreases |block|
  {
    if block == [] {
      assert reg.reducers + map[] == reg.reducers;
    } else {
      RegisteredOverridesReducers(reg, Init(block));
      if Last(block).ChangesSection? {
        var calls := Last(block).changeCalls;
        var before := BlockReducers(Init(block));
        ReduceAllOverrides(reg.reducers + before, calls);
        ReduceAllOverrides(before, calls);
        assert reg.reducers + before + ReduceAll(map[], calls)
            == reg.reducers + (before + ReduceAll(map[], calls));
      }
    }
  }

  // ---------------------------------------------------------------------------
  // Partial reducers: `dispatch` and `dispatchStateOnly`

  /** `dispatchStateOnly(state, block)`: the state threaded through the partial reducers, first to last. */
  function DispatchStateOnly<R, S>(reducers: seq<R>, state: S, block: (R, S) -> S): S
    decreases |reducers|
  {
    if reducers == [] then state
    else block(Last(reducers), DispatchStateOnly(Init(reducers), state, block))
  }

  /** `dispatchStateOnly` is the plain left fold: the first partial reducer sees the input state. */
  lemma {:induction false} DispatchStateOnlyIsLeftFold<R, S>(r: R, reducers: seq<R>, state: S, block: (R, S) -> S)
    ensures DispatchStateOnly([r] + reducers, state, block) == DispatchStateOnly(reducers, block(r, state), block)
    decreases |reducers|
  {
    if reducers == [] {
      assert Init([r]) == [];
    } else {
      assert Init([r] + reducers) == [r] + Init(reducers);
      DispatchStateOnlyIsLeftFold(r, Init(reducers), state, block);
    }
  }

  /** The state each partial reducer hands on, as `dispatch` sees it. */
  function StateOf<R, S, A>(block: (R, S) -> Effect<S, A>): (R, S) -> S
  {
    (r, s) => block(r, s).state
  }

  /** The actions `dispatch` collects: each step's actions, in order. */
  function DispatchedActions<R, S, A>(reducers: seq<R>, state: S, block: (R, S) -> Effect<S, A>): seq<A>
    decreases |reducers|
  {
    if reducers == [] then []
    else
      DispatchedActions(Init(reducers), state, block)
        + Actions(block(Last(reducers), DispatchStateOnly(Init(reducers), state, StateOf(block))))
  }

  /**
   * `dispatch(state, block)`: folds the state through the partial reducers
   * collecting every non-null action in order; returns a `WithAction` without
   * action when none was collected, else a `WithActions` of all of them.
   */
  method Dispatch<R, S, A>(reducers: seq<R>, state: S, block: (R, S) -> Effect<S, A>) returns (e: Effect<S, A>)
    ensures e.state == DispatchStateOnly(reducers, state, StateOf(block))
    ensures Actions(e) == DispatchedActions(reducers, state, block)
    ensures e.WithAction? <==> Actions(e) == []
    ensures e.WithAction? ==> e.action == None
  {
    var actions: seq<A> := [];
    var s := state;
    for i := 0 to |reducers|
      invariant s == DispatchStateOnly(reducers[..i], state, StateOf(block))
      invariant actions == DispatchedActions(reducers[..i], state, block)
    {
      assert Init(reducers[..i + 1]) == reducers[..i] && Last(reducers[..i + 1]) == reducers[i];
      var effect := block(reducers[i], s);
      match effect
      case WithAction(st, a) =>
        if a.Some? {
          actions := actions + [a.value];
        }
        s := st;
      case WithActions(st, acts) =>
        actions := actions + acts;
        s := st;
    }
    assert reducers[..|reducers|] == reducers;
    if actions == [] {
      e := WithAction(s, None);
    } else {
      e := WithActions(s, actions);
    }
  }

  /** No step `dispatch` takes over `reducers` yields an action, each step seeing the state the earlier ones handed on. */
  ghost predicate QuietSteps<R, S, A>(reducers: seq<R>, state: S, block: (R, S) -> Effect<S, A>)
  {
    forall k :: 0 <= k < |reducers| ==>
      Actions(block(reducers[k], DispatchStateOnly(reducers[..k], state, StateOf(block)))) == []
  }

  /** The steps over `reducers` are quiet exactly when those over all but the last are and the last is. */
  lemma QuietStepsSnoc<R, S, A>(reducers: seq<R>, state: S, block: (R, S) -> Effect<S, A>)
    requires reducers != []
    ensures QuietSteps(reducers, state, block) <==>
      && QuietSteps(Init(reducers), state, block)
      && Actions(block(Last(reducers), DispatchStateOnly(Init(reducers), state, StateOf(block)))) == []
  {
    var xs := Init(reducers);
    forall k | 0 <= k < |xs|
      ensures xs[k] == reducers[k] && xs[..k] == reducers[..k]
    {
    }
    assert reducers[..|xs|] == xs;
  }

  /**
   * `dispatch` collects no action exactly when none of the steps it takes
   * yields one; then `Dispatch` is `dispatchStateOnly` followed by `only`.
   */
  lemma {:induction false} DispatchWithoutActions<R, S, A>(reducers: seq<R>, state: S, block: (R, S) -> Effect<S, A>)
    ensures DispatchedActions(reducers, state, block) == [] <==> QuietSteps(reducers, state, block)
    decreases |reducers|
  {
    if reducers != [] {
      DispatchWithoutActions(Init(reducers), state, block);
      QuietStepsSnoc(reducers, state, block);
    }
  }

}
