/**
 * The composite siphon (`DefaultCompositeSiphon` in CompositeSiphon.kt): a
 * registration phase in which delegates add reducers, transformers, event
 * sources and interceptors to a shared `Composition`, then, after
 * `compose()`, an operating phase in which every change is reduced by the
 * reducer registered under its runtime class.
 *
 * As for the single siphon, the merged change stream is modelled one
 * delivery at a time: the scheduler calls `PumpSubmitted`, `PumpEvent(i)` or
 * `PerformNextAction`, one per source kind of `changeStream`.
 */
module Composites {
  import opened Wrappers
  import opened Effects
  import opened Relays
  import opened Interceptors
  import opened Engine
  import opened SiphonBuilders
  import opened Delegates

  const RegisteredTooLate: string := "Delegates cannot be registered after compose() was called"

  /** The failure that stops the operating phase: "Cannot find reducer for $change". */
  datatype Stop<C> = CannotFindReducer(change: C)

  /**
   * The reducer the composite applies to every change: the one registered
   * under the change's runtime class. A change with no reducer is never
   * reduced (the operating phase stops before it), so the fallback here is
   * only there to make the function total.
   */
  function Routed<S, C, T, A>(reducers: map<T, Reducer<S, C, A>>, tagOf: C -> T): Reducer<S, C, A>
  {
    (s: S, c: C) => if tagOf(c) in reducers then reducers[tagOf(c)](s, c) else WithAction(s, None)
  }

  /** Whether every change of `cs` has a reducer registered under its runtime class. */
  ghost predicate Covered<S, C, T, A>(reducers: map<T, Reducer<S, C, A>>, tagOf: C -> T, cs: seq<C>)
  {
    forall k :: 0 <= k < |cs| ==> tagOf(cs[k]) in reducers
  }

  /**
   * `distinctUntilChanged`: drops every element equal to the one before it.
   * (The source compares by identity; the state subject it feeds is a
   * `StateFlow`, which then drops equal values too, so its subscribers see
   * exactly this sequence.)
   */
  function DistinctUntilChanged<S(==)>(xs: seq<S>): (r: seq<S>)
    ensures |r| <= |xs|
    ensures xs != [] ==> r != [] && r[0] == xs[0]
    decreases |xs|
  {
    if |xs| <= 1 then xs
    else if Last(xs) == Last(Init(xs)) then DistinctUntilChanged(Init(xs))
    else DistinctUntilChanged(Init(xs)) + [Last(xs)]
  }

  /** The last state of the scan always reaches the state subject. */
  lemma {:induction false} DistinctKeepsLast<S>(xs: seq<S>)
    requires xs != []
    ensures Last(DistinctUntilChanged(xs)) == Last(xs)
    decreases |xs|
  {
    if |xs| > 1 && Last(xs) == Last(Init(xs)) {
      DistinctKeepsLast(Init(xs));
    }
  }

  /** No two consecutive states pushed to the state subject are equal. */
  lemma {:induction false} DistinctHasNoRepeats<S>(xs: seq<S>)
    ensures var r := DistinctUntilChanged(xs);
      forall k :: 0 < k < |r| ==> r[k] != r[k - 1]
    decreases |xs|
  {
    if |xs| > 1 {
      DistinctHasNoRepeats(Init(xs));
      if Last(xs) != Last(Init(xs)) {
        DistinctKeepsLast(Init(xs));
      }
    }
  }

  /** Removing repeats twice removes nothing more. */
  lemma {:induction false} DistinctIsIdempotent<S>(xs: seq<S>)
    ensures DistinctUntilChanged(DistinctUntilChanged(xs)) == DistinctUntilChanged(xs)
    decreases |xs|
  {
    if |xs| > 1 {
      DistinctIsIdempotent(Init(xs));
      var d := DistinctUntilChanged(Init(xs));
      DistinctKeepsLast(Init(xs));
      if Last(xs) != Last(Init(xs)) {
        assert Init(d + [Last(xs)]) == d;
        if |d| > 1 {
          assert Last(Init(d + [Last(xs)])) == Last(d);
        }
      }
    }
  }

  /**
   * With two delegates whose reducers sit under disjoint runtime classes,
   * routing a change of the first delegate's class runs that delegate's
   * reducer, and only it.
   */
  lemma DisjointDelegatesRouteToOwner<S, C, T, A>(
    mine: map<T, Reducer<S, C, A>>, theirs: map<T, Reducer<S, C, A>>, tagOf: C -> T, s: S, c: C)
    requires mine.Keys !! theirs.Keys
    requires tagOf(c) in mine
    ensures Routed(mine + theirs, tagOf)(s, c) == mine[tagOf(c)](s, c)
    ensures Routed(theirs + mine, tagOf)(s, c) == mine[tagOf(c)](s, c)
  {
    assert tagOf(c) !in theirs;
  }

  /**
   * The operating phase's trace after reducing `ds`: each has a reducer,
   * `scanned` is the scan of the routed reducer, the state subject has held
   * its distinct states, and holds the last one.
   */
  ghost predicate Traced<S, C, T, A>(reducers: map<T, Reducer<S, C, A>>, tagOf: C -> T, s0: S, ds: seq<C>,
                                     scanned: seq<S>, published: seq<S>, value: S)
  {
    && Covered(reducers, tagOf, ds)
    && scanned == Scan(Routed(reducers, tagOf), s0, ds)
    && published == DistinctUntilChanged(scanned)
    && value == Last(scanned)
  }

  /** Reducing one more change that has a reducer extends the trace by its state. */
  lemma TracedSnoc<S, C, T, A>(reducers: map<T, Reducer<S, C, A>>, tagOf: C -> T, s0: S, ds: seq<C>,
                               scanned: seq<S>, published: seq<S>, value: S, c: C)
    requires Traced(reducers, tagOf, s0, ds, scanned, published, value)
    requires tagOf(c) in reducers
    ensures var e := reducers[tagOf(c)](value, c);
      Traced(reducers, tagOf, s0, ds + [c], scanned + [e.state],
             published + (if e.state == value then [] else [e.state]), e.state)
  {
    var e := reducers[tagOf(c)](value, c);
    assert Routed(reducers, tagOf)(value, c) == e;
    FoldSnoc(Routed(reducers, tagOf), s0, ds, c);
    assert Init(scanned + [e.state]) == scanned;
    assert Covered(reducers, tagOf, ds + [c]) by {
      assert forall k :: 0 <= k < |ds| ==> (ds + [c])[k] == ds[k];
    }
  }

  /**
   * The shared `Composition` delegates register into. A `DelegateBuilder`
   * writes straight into these collections; its sections are the methods
   * below.
   */
  class Composition<S, C, T(==), A> {
    const initialState: S
    const lifecycleScope: Scope
    var reducers: map<T, Reducer<S, C, A>>
    var actionTransformers: seq<ActionTransformer<A, C>>
    var eventSources: seq<seq<C>>
    var stateInterceptors: seq<Interceptor<S>>
    var changeInterceptors: seq<Interceptor<C>>
    var actionInterceptors: seq<Interceptor<A>>

    /** The registry as it stands. */
    function Contents(): Registry<S, C, T, A>
      reads this
    {
      Registry(reducers, actionTransformers, eventSources,
               stateInterceptors, changeInterceptors, actionInterceptors)
    }

    constructor (initialState: S, lifecycleScope: Scope, stateInterceptors: seq<Interceptor<S>>,
                 changeInterceptors: seq<Interceptor<C>>, actionInterceptors: seq<Interceptor<A>>)
      ensures this.initialState == initialState && this.lifecycleScope == lifecycleScope
      ensures Contents() == Registry(map[], [], [], stateInterceptors, changeInterceptors, actionInterceptors)
    {
      this.initialState := initialState;
      this.lifecycleScope := lifecycleScope;
      reducers := map[];
      actionTransformers, eventSources := [], [];
      this.stateInterceptors := stateInterceptors;
      this.changeInterceptors := changeInterceptors;
      this.actionInterceptors := actionInterceptors;
    }

    /** `DelegateBuilder.state {}`: appends the block's interceptors and watchers. */
    method State(calls: seq<Delegates.StateCall<S>>)
      modifies this
      ensures Contents() == ApplySection(old(Contents()), StateSection(calls))
    {
      for k := 0 to |calls|
        invariant Contents() == old(Contents()).(
          stateInterceptors := old(stateInterceptors) + FlatMap(calls[..k], Delegates.StateAdds))
      {
        assert Init(calls[..k + 1]) == calls[..k] && Last(calls[..k + 1]) == calls[k];
        match calls[k]
        case InterceptState(i) =>
          stateInterceptors := stateInterceptors + [i];
        case WatchAllStates(w) =>
          stateInterceptors := stateInterceptors + [Watching(w)];
      }
      assert calls[..|calls|] == calls;
    }

    /**
     * `DelegateBuilder.changes {}`: `reduce(type, r)` sets `reducers[type] = r`;
     * `intercept<C>` and `watchAll` append to the change interceptors.
     */
    method Changes(calls: seq<Delegates.ChangesCall<S, C, T, A>>)
      modifies this
      ensures Contents() == ApplySection(old(Contents()), ChangesSection(calls))
    {
      for k := 0 to |calls|
        invariant Contents() == old(Contents()).(
          reducers := ReduceAll(old(reducers), calls[..k]),
          changeInterceptors := old(changeInterceptors) + FlatMap(calls[..k], Delegates.ChangeAdds))
      {
        assert Init(calls[..k + 1]) == calls[..k] && Last(calls[..k + 1]) == calls[k];
        match calls[k]
        case ReduceTag(t, r) =>
          reducers := reducers[t := r];
        case InterceptOf(isC, i) =>
          changeInterceptors := changeInterceptors + [TypedInterceptor(isC, i)];
        case WatchAllChanges(w) =>
          changeInterceptors := changeInterceptors + [Watching(w)];
      }
      assert calls[..|calls|] == calls;
    }

    /** `DelegateBuilder.actions {}`: appends transformers and action interceptors in call order. */
    method Actions(calls: seq<ActionsCall<A, C>>)
      modifies this
      ensures Contents() == ApplySection(old(Contents()), ActionsSection(calls))
    {
      for k := 0 to |calls|
        invariant Contents() == old(Contents()).(
          actionTransformers := old(actionTransformers) + FlatMap(calls[..k], TransformerAdds),
          actionInterceptors := old(actionInterceptors) + FlatMap(calls[..k], ActionAdds))
      {
        assert Init(calls[..k + 1]) == calls[..k] && Last(calls[..k + 1]) == calls[k];
        match calls[k]
        case PerformAll(t) =>
          actionTransformers := actionTransformers + [t];
        case PerformOf(isP, t) =>
          actionTransformers := actionTransformers + [Performer(isP, t)];
        case InterceptAction(i) =>
          actionInterceptors := actionInterceptors + [i];
        case WatchAllActions(w) =>
          actionInterceptors := actionInterceptors + [Watching(w)];
      }
      assert calls[..|calls|] == calls;
    }

    /** `DelegateBuilder.events {}`: appends each `source` in call order. */
    method Events(sources: seq<seq<C>>)
      modifies this
      ensures Contents() == ApplySection(old(Contents()), EventsSection(sources))
    {
      for k := 0 to |sources|
        invariant Contents() == old(Contents()).(eventSources := old(eventSources) + sources[..k])
      {
        assert sources[..k + 1] == sources[..k] + [sources[k]];
        eventSources := eventSources + [sources[k]];
      }
      assert sources[..|sources|] == sources;
    }

    /** Runs a delegate block: its sections, in order. */
    method Register(block: seq<Section<S, C, T, A>>)
      modifies this
      ensures Contents() == Registered(old(Contents()), block)
    {
      for k := 0 to |block|
        invariant Contents() == Registered(old(Contents()), block[..k])
      {
        assert Init(block[..k + 1]) == block[..k] && Last(block[..k + 1]) == block[k];
        match block[k]
        case StateSection(calls) => State(calls);
        case ChangesSection(calls) => Changes(calls);
        case ActionsSection(calls) => Actions(calls);
        case EventsSection(sources) => Events(sources);
      }
      assert block[..|block|] == block;
    }
  }

  class DefaultCompositeSiphon<S, C, T(==), A> {
    /** `change::class`: the runtime class of a change, its key in the reducer registry. */
    const tagOf: C -> T
    const initialState: S
    /** `changeSubject`, exposed as `change`: where delegates put changes. */
    const changeSubject: Relay<C>
    /** The action subject the builder hands in, shared by every delegate. */
    const actionSubject: Relay<A>

    /** `composition`: the shared registry while delegates register, `null` once composed. */
    var composition: Option<Composition<S, C, T, A>>
    /** The registry `compose()` launched the operating phase with. */
    var launched: Option<Registry<S, C, T, A>>
    /** `stateSubject.value`. */
    var value: S
    /** How many changes each event source has delivered. */
    var cursors: seq<nat>
    /** Set when the operating phase stopped on a change with no reducer. */
    var stopped: Option<Stop<C>>

    /** Every change reduced so far, in order. */
    ghost var delivered: seq<C>
    /** What `scan` has emitted: the initial state, then one state per reduced change. */
    ghost var scanned: seq<S>
    /** What the state subject has held, in order. */
    ghost var published: seq<S>

    /** The two subjects: distinct, well-formed, the change subject of the library's capacity. */
    ghost predicate Wired()
      reads changeSubject, actionSubject
    {
      && changeSubject as object != actionSubject as object
      && changeSubject.Valid() && actionSubject.Valid() && changeSubject.capacity == RelayCapacity
    }

    ghost predicate Valid()
      reads this, changeSubject, actionSubject
    {
      && Wired()
      && (composition.Some? <==> launched.None?)
      && (composition.Some? ==> composition.value.initialState == initialState)
      && (launched.None? ==> (
           && delivered == [] && stopped.None?
           && scanned == [initialState] && published == [initialState] && value == initialState))
      && (launched.Some? ==> (
           && |cursors| == |launched.value.eventSources|
           && Traced(launched.value.reducers, tagOf, initialState, delivered, scanned, published, value)
           && (stopped.Some? ==> tagOf(stopped.value.change) !in launched.value.reducers)))
    }

    /**
     * The composite as its builder creates it: in the registration phase,
     * with an empty registry and the state subject holding the initial state.
     */
    constructor (initialState: S, lifecycleScope: Scope, tagOf: C -> T,
                 stateInterceptors: seq<Interceptor<S>>, changeInterceptors: seq<Interceptor<C>>,
                 actionInterceptors: seq<Interceptor<A>>, actionSubject: Relay<A>)
      requires actionSubject.Valid()
      ensures Valid() && fresh(changeSubject)
      ensures this.initialState == initialState && this.tagOf == tagOf && this.actionSubject == actionSubject
      ensures composition.Some? && fresh(composition.value)
      ensures composition.value.lifecycleScope == lifecycleScope
      ensures composition.value.Contents()
        == Registry(map[], [], [], stateInterceptors, changeInterceptors, actionInterceptors)
      ensures launched == None && value == initialState && published == [initialState]
      ensures changeSubject.items == [] && unchanged(actionSubject)
    {
      this.tagOf := tagOf;
      this.initialState := initialState;
      this.actionSubject := actionSubject;
      changeSubject := new Relay(RelayCapacity);
      var c := new Composition(initialState, lifecycleScope, stateInterceptors, changeInterceptors, actionInterceptors);
      composition := Some(c);
      launched := None;
      value := initialState;
      cursors := [];
      stopped := None;
      delivered, scanned, published := [], [initialState], [initialState];
    }

    /**
     * `registerDelegate(block)`: runs the delegate block against the shared
     * composition while it is there, and fails once `compose()` took it.
     */
    method RegisterDelegate(block: seq<Section<S, C, T, A>>) returns (r: Outcome<string>)
      requires Valid()
      modifies if composition.Some? then {composition.value} else {}
      ensures Valid()
      ensures r == if old(composition).None? then Fail(RegisteredTooLate) else Pass
      ensures old(composition).Some? ==>
        composition.value.Contents() == Registered(old(composition.value.Contents()), block)
    {
      if composition.Some? {
        composition.value.Register(block);
        r := Pass;
      } else {
        r := Fail(RegisteredTooLate);
      }
    }

    /**
     * `compose()`: `getAndSet(null)` takes the composition and launches the
     * operating phase on it; a later call finds `null` and does nothing.
     */
    method Compose()
      requires Valid()
      modifies this
      ensures Valid()
      ensures composition == None
      ensures old(composition).Some? ==> launched == Some(old(composition.value.Contents()))
                                         && cursors == seq(|launched.value.eventSources|, _ => 0)
      ensures old(composition).None? ==> launched == old(launched) && cursors == old(cursors)
      ensures value == old(value) && delivered == old(delivered) && published == old(published)
      ensures stopped == old(stopped)
    {
      if composition.Some? {
        var c := composition.value;
        composition := None;
        launched := Some(c.Contents());
        cursors := seq(|c.eventSources|, _ => 0);
      }
    }

    /** `change.tryEmit(c)`: offers a change to the change subject; a full subject refuses it. */
    method Change(c: C) returns (ok: bool)
      requires Valid()
      modifies changeSubject
      ensures Valid()
      ensures ok == (|old(changeSubject.items)| < RelayCapacity)
      ensures changeSubject.items == if ok then old(changeSubject.items) + [c] else old(changeSubject.items)
    {
      ok := changeSubject.TryEmit(c);
    }

    /**
     * The body of the operating phase's `scan` for one change: looks up the
     * reducer registered under the change's runtime class and stops with
     * `CannotFindReducer` when there is none; otherwise reduces, hands the
     * effect's actions to the action subject, and pushes the new state to
     * the state subject unless it equals the previous one.
     */
    method Reduce(c: C)
      requires Valid() && launched.Some? && stopped.None?
      modifies this, actionSubject
      ensures composition == old(composition) && launched == old(launched) && cursors == old(cursors)
      ensures Valid()
      ensures var reducers := launched.value.reducers;
        if tagOf(c) !in reducers then
          && stopped == Some(CannotFindReducer(c))
          && value == old(value) && delivered == old(delivered) && published == old(published)
          && actionSubject.items == old(actionSubject.items)
        else
          var e := reducers[tagOf(c)](old(value), c);
          && stopped == None
          && value == e.state && delivered == old(delivered) + [c]
          && published == old(published) + (if e.state == old(value) then [] else [e.state])
          && actionSubject.items == OfferAll(old(actionSubject.items), Actions(e), actionSubject.capacity).kept
      ensures unchanged(changeSubject)
    {
      var reducers := launched.value.reducers;
      if tagOf(c) !in reducers {
        stopped := Some(CannotFindReducer(c));
      } else {
        var e := reducers[tagOf(c)](value, c);
        Record(c, e.state);
        var _ := Offer(actionSubject, Actions(e));
      }
    }

    /** The state half of a reduction with a reducer: `scan`'s next state, and the state subject's update. */
    method Record(c: C, next: S)
      requires Valid() && launched.Some? && stopped.None? && tagOf(c) in launched.value.reducers
      requires next == launched.value.reducers[tagOf(c)](value, c).state
      modifies this
      ensures composition == old(composition) && launched == old(launched) && cursors == old(cursors)
      ensures Valid() && stopped == None
      ensures value == next && delivered == old(delivered) + [c]
      ensures published == old(published) + (if next == old(value) then [] else [next])
    {
      TracedSnoc(launched.value.reducers, tagOf, initialState, delivered, scanned, published, value, c);
      delivered := delivered + [c];
      scanned := scanned + [next];
      published := published + (if next == value then [] else [next]);
      value := next;
    }

    /** The merged stream delivers the oldest change of the change subject, if any. */
    method PumpSubmitted() returns (took: bool)
      requires Valid()
      modifies this, changeSubject, actionSubject
      ensures Valid()
      ensures took == (old(launched).Some? && old(stopped).None? && old(changeSubject.items) != [])
      ensures took ==> var c := old(changeSubject.items)[0];
        var reducers := old(launched).value.reducers;
        && changeSubject.items == old(changeSubject.items)[1..]
        && if tagOf(c) !in reducers then
             && stopped == Some(CannotFindReducer(c))
             && value == old(value) && delivered == old(delivered) && published == old(published)
             && actionSubject.items == old(actionSubject.items)
           else
             var e := reducers[tagOf(c)](old(value), c);
             && stopped == None
             && value == e.state && delivered == old(delivered) + [c]
             && published == old(published) + (if e.state == old(value) then [] else [e.state])
             && actionSubject.items == OfferAll(old(actionSubject.items), Actions(e), actionSubject.capacity).kept
      ensures !took ==> (
        && delivered == old(delivered) && value == old(value) && stopped == old(stopped)
        && published == old(published) && unchanged(changeSubject) && unchanged(actionSubject))
      ensures composition == old(composition) && launched == old(launched) && cursors == old(cursors)
    {
      took := false;
      if launched.Some? && stopped.None? && changeSubject.items != [] {
        var x := changeSubject.Take();
        took := true;
        Reduce(x.value);
      }
    }

    /** The merged stream delivers event source `i`'s next change, if it has one left. */
    method PumpEvent(i: nat) returns (took: bool)
      requires Valid()
      modifies this, actionSubject
      ensures Valid()
      ensures took == (old(launched).Some? && old(stopped).None? && i < |old(cursors)|
                       && old(cursors)[i] < |old(launched).value.eventSources[i]|)
      ensures took ==> var c := old(launched).value.eventSources[i][old(cursors)[i]];
        var reducers := old(launched).value.reducers;
        && cursors == old(cursors)[i := old(cursors)[i] + 1]
        && if tagOf(c) !in reducers then
             && stopped == Some(CannotFindReducer(c))
             && value == old(value) && delivered == old(delivered) && published == old(published)
             && actionSubject.items == old(actionSubject.items)
           else
             var e := reducers[tagOf(c)](old(value), c);
             && stopped == None
             && value == e.state && delivered == old(delivered) + [c]
             && published == old(published) + (if e.state == old(value) then [] else [e.state])
             && actionSubject.items == OfferAll(old(actionSubject.items), Actions(e), actionSubject.capacity).kept
      ensures !took ==> (
        && delivered == old(delivered) && value == old(value) && stopped == old(stopped)
        && published == old(published) && cursors == old(cursors) && unchanged(actionSubject))
      ensures composition == old(composition) && launched == old(launched)
      ensures unchanged(changeSubject)
    {
      took := launched.Some? && stopped.None? && i < |cursors| && cursors[i] < |launched.value.eventSources[i]|;
      if took {
        var c := launched.value.eventSources[i][cursors[i]];
        Reduce(c);
        cursors := cursors[i := cursors[i] + 1];
      }
    }

    /**
     * The merged stream takes the oldest action of the action subject, runs
     * every registered transformer on it, and delivers the changes they
     * produce in order, until one of them stops the operating phase. The
     * action leaves the subject; the actions of the delivered reductions are
     * offered behind the ones still waiting.
     */
    method PerformNextAction() returns (took: bool, count: nat)
      requires Valid()
      modifies this, actionSubject
      ensures composition == old(composition) && launched == old(launched) && cursors == old(cursors)
      ensures Valid()
      ensures took == (old(launched).Some? && old(stopped).None? && old(actionSubject.items) != [])
      ensures took ==> var derived := TransformAll(launched.value.actionTransformers, old(actionSubject.items)[0]);
        var routed := Routed(launched.value.reducers, tagOf);
        && count <= |derived| && delivered == old(delivered) + derived[..count]
        && (stopped.None? ==> count == |derived|)
        && (stopped.Some? ==> count < |derived| && stopped == Some(CannotFindReducer(derived[count])))
        && value == Fold(routed, old(value), derived[..count])
        && actionSubject.items
           == OfferAll(old(actionSubject.items)[1..], StepActions(routed, old(value), derived[..count]),
                       actionSubject.capacity).kept
        && old(actionSubject.items)[1..] <= actionSubject.items
      ensures !took ==> (
        && delivered == old(delivered) && value == old(value) && stopped == old(stopped)
        && published == old(published) && actionSubject.items == old(actionSubject.items))
      ensures unchanged(changeSubject)
    {
      took := false;
      count := 0;
      if launched.Some? && stopped.None? && actionSubject.items != [] {
        var x := actionSubject.Take();
        took := true;
        ghost var rest := actionSubject.items;
        var derived := TransformAll(launched.value.actionTransformers, x.value);
        count := DeliverDerived(derived);
        OfferAllPartitions(rest, StepActions(Routed(launched.value.reducers, tagOf), old(value), derived[..count]),
                           actionSubject.capacity);
      }
    }

    /**
     * `Reduce` as the delivery of derived changes sees it, through the routed
     * reducer: after reducing `done` from `v0` (the action subject then
     * holding `items0`), the change is recorded and its actions offered,
     * unless it stops the phase, which then leaves everything as it was.
     */
    method Deliver(c: C, ghost v0: S, ghost items0: seq<A>, ghost done: seq<C>)
      requires Valid() && launched.Some? && stopped.None?
      requires ReducedFrom(Routed(launched.value.reducers, tagOf), v0, items0, actionSubject.capacity,
                           done, value, actionSubject.items)
      modifies this, actionSubject
      ensures composition == old(composition) && launched == old(launched) && cursors == old(cursors)
      ensures Valid() && unchanged(changeSubject)
      ensures stopped.None? ==> delivered == old(delivered) + [c]
      ensures stopped.Some? ==> (
        && stopped == Some(CannotFindReducer(c)) && delivered == old(delivered)
        && value == old(value) && published == old(published))
      ensures ReducedFrom(Routed(launched.value.reducers, tagOf), v0, items0, actionSubject.capacity,
                          if stopped.None? then done + [c] else done, value, actionSubject.items)
    {
      ghost var routed := Routed(launched.value.reducers, tagOf);
      ReducedFromSnoc(routed, v0, items0, actionSubject.capacity, done, c, value, actionSubject.items);
      Reduce(c);
    }

    /**
     * Delivers the changes one action produced, in order, until one of them
     * stops the operating phase: the delivered prefix is folded into the
     * value, and the action subject is what offering all its actions leaves.
     */
    method DeliverDerived(derived: seq<C>) returns (count: nat)
      requires Valid() && launched.Some? && stopped.None?
      modifies this, actionSubject
      ensures composition == old(composition) && launched == old(launched) && cursors == old(cursors)
      ensures Valid()
      ensures count <= |derived| && delivered == old(delivered) + derived[..count]
      ensures stopped.None? ==> count == |derived|
      ensures stopped.Some? ==> count < |derived| && stopped == Some(CannotFindReducer(derived[count]))
      ensures ReducedFrom(Routed(launched.value.reducers, tagOf), old(value), old(actionSubject.items),
                          actionSubject.capacity, derived[..count], value, actionSubject.items)
      ensures unchanged(changeSubject)
    {
      count := 0;
      while count < |derived| && stopped.None?
        invariant Valid() && launched == old(launched) && composition == old(composition) && cursors == old(cursors)
        invariant unchanged(changeSubject)
        invariant count <= |derived| && delivered == old(delivered) + derived[..count]
        invariant stopped.Some? ==> count < |derived| && stopped == Some(CannotFindReducer(derived[count]))
        invariant ReducedFrom(Routed(launched.value.reducers, tagOf), old(value), old(actionSubject.items),
                              actionSubject.capacity, derived[..count], value, actionSubject.items)
        decreases |derived| - count, if stopped.None? then 1 else 0
      {
        Deliver(derived[count], old(value), old(actionSubject.items), derived[..count]);
        if stopped.None? {
          TakeSnoc(derived, count);
          ConcatSnoc(old(delivered), derived[..count], derived[count]);
          count := count + 1;
        }
      }
    }
  }

  /**
   * While every delivered change has a reducer, the states the composite's
   * `scan` emits are those of a single siphon whose reducer dispatches on the
   * runtime class: the fold of the routed reducer, from the initial state.
   */
  lemma {:induction false} CompositeIsRoutedFold<S, C, T, A>(
    reducers: map<T, Reducer<S, C, A>>, tagOf: C -> T, s0: S, cs: seq<C>)
    requires Covered(reducers, tagOf, cs)
    ensures var states := Scan(Routed(reducers, tagOf), s0, cs);
      forall k :: 0 < k < |states| ==> states[k] == reducers[tagOf(cs[k - 1])](states[k - 1], cs[k - 1]).state
  {
    var states := Scan(Routed(reducers, tagOf), s0, cs);
    forall k | 0 < k < |states|
      ensures states[k] == reducers[tagOf(cs[k - 1])](states[k - 1], cs[k - 1]).state
    {
      ScanAt(Routed(reducers, tagOf), s0, cs, k);
      ScanAt(Routed(reducers, tagOf), s0, cs, k - 1);
      FoldSnoc(Routed(reducers, tagOf), s0, cs[..k - 1], cs[k - 1]);
      assert cs[..k - 1] + [cs[k - 1]] == cs[..k];
    }
  }
}
