/**
 * The single-reducer engine (class `Siphon` in Siphon.kt): three kinds of input
 * merged into one change stream, folded over the state by the reducer, with the
 * actions of every effect offered to a bounded action relay.
 *
 * The merged stream is delivered one change at a time; which source delivers
 * next is the scheduler's choice, so each source has its own method.
 */
module Engine {
  import opened Wrappers
  import opened Effects
  import opened Relays

  /** `Reducer`: the state and a change give an effect. */
  type Reducer<!S, -C, A> = (S, C) -> Effect<S, A>

  /** `ActionTransformer`: the changes produced by performing one action (a finite stream). */
  type ActionTransformer<-A, C> = A -> seq<C>

  /** The diagnostics the engine reports when a relay refuses an item. */
  datatype Notice = ChangeBufferOverload | ActionBufferOverload

  /** The three kinds of source merged into the change stream. */
  datatype Origin = Submitted | Performed | Event(source: nat)

  /** The state after folding the reducer over `cs`, starting from `s`. */
  function Fold<S, C, A>(r: Reducer<S, C, A>, s: S, cs: seq<C>): S
    decreases |cs|
  {
    if cs == [] then s else r(Fold(r, s, Init(cs)), Last(cs)).state
  }

  /**
   * The states `scan(initial)` emits for changes `cs`: the initial state, then
   * one state per change.
   */
  function Scan<S, C, A>(r: Reducer<S, C, A>, s: S, cs: seq<C>): (states: seq<S>)
    ensures |states| == |cs| + 1
    ensures states[0] == s
    ensures Last(states) == Fold(r, s, cs)
    decreases |cs|
  {
    if cs == [] then [s] else Scan(r, s, Init(cs)) + [Fold(r, s, cs)]
  }

  /** Every action the reductions of `cs` produced, step by step and in each effect's own order. */
  function StepActions<S, C, A>(r: Reducer<S, C, A>, s: S, cs: seq<C>): seq<A>
    decreases |cs|
  {
    if cs == [] then [] else StepActions(r, s, Init(cs)) + Actions(r(Fold(r, s, Init(cs)), Last(cs)))
  }

  /** The changes one action yields: every transformer in registration order. */
  function TransformAll<A, C>(ts: seq<ActionTransformer<A, C>>, a: A): seq<C>
    decreases |ts|
  {
    if ts == [] then [] else TransformAll(Init(ts), a) + Last(ts)(a)
  }

  /** The changes a sequence of actions yields, action by action. */
  function TransformEach<A, C>(ts: seq<ActionTransformer<A, C>>, acts: seq<A>): seq<C>
    decreases |acts|
  {
    if acts == [] then [] else TransformEach(ts, Init(acts)) + TransformAll(ts, Last(acts))
  }

  /** The changes among `ds` that came from source `o`, in delivery order. */
  function Project<C>(ds: seq<C>, os: seq<Origin>, o: Origin): seq<C>
    requires |ds| == |os|
    decreases |ds|
  {
    if ds == [] then [] else Project(Init(ds), Init(os), o) + (if Last(os) == o then [Last(ds)] else [])
  }

  /** `n` reports of an action-buffer overload. */
  function Overloads(n: nat): seq<Notice>
  {
    if n == 0 then [] else Overloads(n - 1) + [ActionBufferOverload]
  }

  /** One more change extends the fold, the scan and the action log by that change's step. */
  lemma FoldSnoc<S, C, A>(r: Reducer<S, C, A>, s: S, cs: seq<C>, c: C)
    ensures Fold(r, s, cs + [c]) == r(Fold(r, s, cs), c).state
    ensures Scan(r, s, cs + [c]) == Scan(r, s, cs) + [r(Fold(r, s, cs), c).state]
    ensures StepActions(r, s, cs + [c]) == StepActions(r, s, cs) + Actions(r(Fold(r, s, cs), c))
  {
    assert Init(cs + [c]) == cs;
  }

  /**
   * After the changes `ds`: `state` is their fold, `emitted` the states emitted
   * so far and `offered` every action the reductions produced.
   */
  ghost predicate Reduced<S, C, A>(r: Reducer<S, C, A>, s0: S, ds: seq<C>, state: S, emitted: seq<S>, offered: seq<A>)
  {
    && state == Fold(r, s0, ds)
    && emitted == Scan(r, s0, ds)
    && offered == StepActions(r, s0, ds)
  }

  /** Reducing one more change against the current state keeps `Reduced`. */
  lemma ReducedSnoc<S, C, A>(r: Reducer<S, C, A>, s0: S, ds: seq<C>, state: S, emitted: seq<S>, offered: seq<A>, c: C)
    requires Reduced(r, s0, ds, state, emitted, offered)
    ensures Reduced(r, s0, ds + [c], r(state, c).state, emitted + [r(state, c).state], offered + Actions(r(state, c)))
  {
    FoldSnoc(r, s0, ds, c);
  }

  /** One more delivered change extends the projection of its own source only. */
  lemma ProjectSnoc<C>(ds: seq<C>, os: seq<Origin>, c: C, o: Origin, p: Origin)
    requires |ds| == |os|
    ensures Project(ds + [c], os + [o], p) == Project(ds, os, p) + (if o == p then [c] else [])
  {
    assert Init(ds + [c]) == ds && Init(os + [o]) == os;
  }

  /**
   * `Fold` is the left fold of the reducer: the first change is reduced against
   * the initial state and the rest against its result.
   */
  lemma {:induction false} FoldIsLeftFold<S, C, A>(r: Reducer<S, C, A>, s: S, c: C, cs: seq<C>)
    ensures Fold(r, s, [c] + cs) == Fold(r, r(s, c).state, cs)
    decreases |cs|
  {
    if cs == [] {
      assert Init([c]) == [];
    } else {
      assert Init([c] + cs) == [c] + Init(cs);
      FoldIsLeftFold(r, s, c, Init(cs));
    }
  }

  /** `a + b` overload reports are `a` of them followed by `b` more. */
  lemma {:induction false} OverloadsAppend(a: nat, b: nat)
    ensures Overloads(a + b) == Overloads(a) + Overloads(b)
    decreases b
  {
    if b > 0 {
      OverloadsAppend(a, b - 1);
    }
  }

  /**
   * The relay after the reductions of `cs` from `s`, each step's actions
   * offered in turn with nothing taken in between, is the relay after
   * offering all of their actions at once: one more step offers its own
   * actions to what the earlier steps left.
   */
  lemma OfferedSnoc<S, C, A>(r: Reducer<S, C, A>, s: S, buf: seq<A>, cs: seq<C>, c: C, cap: nat)
    ensures var o := OfferAll(buf, StepActions(r, s, cs), cap);
      var p := OfferAll(o.kept, Actions(r(Fold(r, s, cs), c)), cap);
      var q := OfferAll(buf, StepActions(r, s, cs + [c]), cap);
      && q.kept == p.kept
      && Overloads(|q.dropped|) == Overloads(|o.dropped|) + Overloads(|p.dropped|)
  {
    FoldSnoc(r, s, cs, c);
    var o := OfferAll(buf, StepActions(r, s, cs), cap);
    var p := OfferAll(o.kept, Actions(r(Fold(r, s, cs), c)), cap);
    OfferAllAppend(buf, StepActions(r, s, cs), Actions(r(Fold(r, s, cs), c)), cap);
    OverloadsAppend(|o.dropped|, |p.dropped|);
  }

  /**
   * Reducing `done` from state `s0` with `r`, while the action relay held
   * `buf` and nothing was taken from it, leaves the state `s` and the relay
   * holding `items`: the fold, and what offering all the steps' actions leaves.
   */
  ghost predicate ReducedFrom<S, C, A>(r: Reducer<S, C, A>, s0: S, buf: seq<A>, cap: nat, done: seq<C>,
                                       s: S, items: seq<A>)
  {
    s == Fold(r, s0, done) && items == OfferAll(buf, StepActions(r, s0, done), cap).kept
  }

  /** One more reduction, its actions offered to what the earlier ones left, extends `ReducedFrom`. */
  lemma ReducedFromSnoc<S, C, A>(r: Reducer<S, C, A>, s0: S, buf: seq<A>, cap: nat, done: seq<C>, c: C,
                                 s: S, items: seq<A>)
    requires ReducedFrom(r, s0, buf, cap, done, s, items)
    ensures ReducedFrom(r, s0, buf, cap, done + [c], r(s, c).state, OfferAll(items, Actions(r(s, c)), cap).kept)
  {
    FoldSnoc(r, s0, done, c);
    OfferedSnoc(r, s0, buf, done, c, cap);
  }

  /** Folding `xs` and then `ys` is folding `xs + ys`: the fold resumes from where it stopped. */
  lemma {:induction false} FoldAppend<S, C, A>(r: Reducer<S, C, A>, s: S, xs: seq<C>, ys: seq<C>)
    ensures Fold(r, s, xs + ys) == Fold(r, Fold(r, s, xs), ys)
    decreases |ys|
  {
    if ys == [] {
      assert xs + ys == xs;
    } else {
      assert Init(xs + ys) == xs + Init(ys) && Last(xs + ys) == Last(ys);
      FoldAppend(r, s, xs, Init(ys));
    }
  }

  /** Element `k` of the emitted states is the fold over the first `k` changes. */
  lemma {:induction false} ScanAt<S, C, A>(r: Reducer<S, C, A>, s: S, cs: seq<C>, k: nat)
    requires k <= |cs|
    ensures Scan(r, s, cs)[k] == Fold(r, s, cs[..k])
    decreases |cs|
  {
    if k == |cs| {
      assert cs[..k] == cs;
    } else {
      ScanAt(r, s, Init(cs), k);
      assert Init(cs)[..k] == cs[..k];
    }
  }

  /**
   * Where the delivered changes `ds` (from sources `os`) came from: the merged
   * stream holds exactly the three kinds of source. The submitted ones followed
   * by those still waiting in the change relay are the admitted ones; the
   * performed ones are `performedChanges`; event source `i` has delivered the
   * first `cursors[i]` of its changes.
   */
  ghost predicate Sourced<C>(events: seq<seq<C>>, ds: seq<C>, os: seq<Origin>, pending: seq<C>,
                             admitted: seq<C>, performedChanges: seq<C>, cursors: seq<nat>)
  {
    && |ds| == |os|
    && Project(ds, os, Submitted) + pending == admitted
    && Project(ds, os, Performed) == performedChanges
    && |cursors| == |events|
    && (forall i :: 0 <= i < |events| ==>
          cursors[i] <= |events[i]| && Project(ds, os, Event(i)) == events[i][..cursors[i]])
  }

  /** Delivering one more change extends the projection of its own source and no other. */
  lemma ProjectSnocAll<C>(ds: seq<C>, os: seq<Origin>, c: C, o: Origin)
    requires |ds| == |os|
    ensures forall p :: Project(ds + [c], os + [o], p) == Project(ds, os, p) + (if o == p then [c] else [])
  {
    assert Init(ds + [c]) == ds && Init(os + [o]) == os;
  }

  /** A change the relay accepts is admitted and waits at the end of the relay. */
  lemma SourcedAdmit<C>(events: seq<seq<C>>, ds: seq<C>, os: seq<Origin>, pending: seq<C>,
                        admitted: seq<C>, pc: seq<C>, cursors: seq<nat>, c: C)
    requires Sourced(events, ds, os, pending, admitted, pc, cursors)
    ensures Sourced(events, ds, os, pending + [c], admitted + [c], pc, cursors)
  {
  }

  /** Delivering the oldest waiting submitted change keeps the sources accounted for. */
  lemma SourcedSubmitted<C>(events: seq<seq<C>>, ds: seq<C>, os: seq<Origin>, c: C, pending: seq<C>,
                            admitted: seq<C>, pc: seq<C>, cursors: seq<nat>)
    requires Sourced(events, ds, os, [c] + pending, admitted, pc, cursors)
    ensures Sourced(events, ds + [c], os + [Submitted], pending, admitted, pc, cursors)
  {
    ProjectSnocAll(ds, os, c, Submitted);
    assert Project(ds, os, Submitted) + [c] + pending == Project(ds, os, Submitted) + ([c] + pending);
    forall i | 0 <= i < |events|
      ensures Project(ds + [c], os + [Submitted], Event(i)) == events[i][..cursors[i]]
    {
      assert Project(ds + [c], os + [Submitted], Event(i)) == Project(ds, os, Event(i));
    }
  }

  /** Delivering a change derived from an action extends the performed changes. */
  lemma SourcedPerformed<C>(events: seq<seq<C>>, ds: seq<C>, os: seq<Origin>, c: C, pending: seq<C>,
                            admitted: seq<C>, pc: seq<C>, cursors: seq<nat>)
    requires Sourced(events, ds, os, pending, admitted, pc, cursors)
    ensures Sourced(events, ds + [c], os + [Performed], pending, admitted, pc + [c], cursors)
  {
    ProjectSnocAll(ds, os, c, Performed);
    forall i | 0 <= i < |events|
      ensures Project(ds + [c], os + [Performed], Event(i)) == events[i][..cursors[i]]
    {
      assert Project(ds + [c], os + [Performed], Event(i)) == Project(ds, os, Event(i));
    }
  }

  /** One more change derived from an action adds one more `Performed` origin. */
  lemma PerformedSnoc(n: nat)
    ensures seq(n + 1, _ => Performed) == seq(n, _ => Performed) + [Performed]
  {
  }

  /** Delivering all the changes one action yielded extends the performed changes by all of them. */
  lemma {:induction false} SourcedPerformedAll<C>(events: seq<seq<C>>, ds: seq<C>, os: seq<Origin>, derived: seq<C>,
                                                pending: seq<C>, admitted: seq<C>, pc: seq<C>, cursors: seq<nat>)
    requires Sourced(events, ds, os, pending, admitted, pc, cursors)
    ensures Sourced(events, ds + derived, os + seq(|derived|, _ => Performed), pending, admitted, pc + derived, cursors)
    decreases |derived|
  {
    if derived == [] {
      assert ds + derived == ds && os + seq(0, _ => Performed) == os && pc + derived == pc;
    } else {
      var n := |derived| - 1;
      SourcedPerformedAll(events, ds, os, Init(derived), pending, admitted, pc, cursors);
      SourcedPerformed(events, ds + Init(derived), os + seq(n, _ => Performed), Last(derived),
                       pending, admitted, pc + Init(derived), cursors);
      assert ds + Init(derived) + [Last(derived)] == ds + derived;
      assert os + seq(n, _ => Performed) + [Performed] == os + seq(|derived|, _ => Performed);
      assert pc + Init(derived) + [Last(derived)] == pc + derived;
    }
  }

  /** Delivering the next change of event source `i` advances that source's cursor only. */
  lemma SourcedEvent<C>(events: seq<seq<C>>, ds: seq<C>, os: seq<Origin>, pending: seq<C>,
                        admitted: seq<C>, pc: seq<C>, cursors: seq<nat>, i: nat)
    requires Sourced(events, ds, os, pending, admitted, pc, cursors)
    requires i < |events| && cursors[i] < |events[i]|
    ensures Sourced(events, ds + [events[i][cursors[i]]], os + [Event(i)], pending, admitted, pc,
                    cursors[i := cursors[i] + 1])
  {
    var c := events[i][cursors[i]];
    ProjectSnocAll(ds, os, c, Event(i));
    var cursors' := cursors[i := cursors[i] + 1];
    forall j | 0 <= j < |events|
      ensures Project(ds + [c], os + [Event(i)], Event(j)) == events[j][..cursors'[j]]
    {
      if j == i {
        assert events[i][..cursors[i] + 1] == events[i][..cursors[i]] + [c];
      }
    }
  }

  class Siphon<S, C, A> {
    const initialState: S
    const reducer: Reducer<S, C, A>
    const actionTransformers: seq<ActionTransformer<A, C>>
    /** The event sources, each given by the changes it emits. */
    const events: seq<seq<C>>
    /** `changeRelay`: where `change()` puts submitted changes. */
    const changeRelay: Relay<C>
    /** `actionRelay`: where the actions of every effect are offered. */
    const actionRelay: Relay<A>

    /** The latest state of the state flow (what its replay of one hands a new subscriber). */
    var state: S
    /** How many changes each event source has delivered. */
    var cursors: seq<nat>
    /** The overload diagnostics reported so far, in order. */
    var notices: seq<Notice>

    /** Every change reduced so far, in delivery order, and the source each came from. */
    ghost var delivered: seq<C>
    ghost var origins: seq<Origin>
    /** Every state the state flow has emitted. */
    ghost var emitted: seq<S>
    /** Every action offered to the action relay. */
    ghost var offered: seq<A>
    /** Every change the change relay accepted. */
    ghost var admitted: seq<C>
    /** Every action the action relay accepted, and those already taken from it and performed. */
    ghost var acceptedActions: seq<A>
    ghost var performed: seq<A>

    /** The fold invariant: what the reduction step keeps. */
    ghost predicate Folded()
      reads this, changeRelay, actionRelay
    {
      && changeRelay as object != actionRelay as object
      && changeRelay.Valid() && actionRelay.Valid()
      && changeRelay.capacity == RelayCapacity && actionRelay.capacity == RelayCapacity
      && |origins| == |delivered|
      && Reduced(reducer, initialState, delivered, state, emitted, offered)
      && performed + actionRelay.items == acceptedActions
    }

    ghost predicate Valid()
      reads this, changeRelay, actionRelay
    {
      && Folded()
      && Sourced(events, delivered, origins, changeRelay.items, admitted,
                 TransformEach(actionTransformers, performed), cursors)
    }

    constructor (initialState: S, reducer: Reducer<S, C, A>,
                 actionTransformers: seq<ActionTransformer<A, C>>, events: seq<seq<C>>)
      ensures Valid() && fresh(changeRelay) && fresh(actionRelay)
      ensures this.initialState == initialState && this.reducer == reducer
      ensures this.actionTransformers == actionTransformers && this.events == events
      ensures state == initialState && emitted == [initialState]
      ensures delivered == [] && changeRelay.items == [] && actionRelay.items == [] && notices == []
      ensures cursors == seq(|events|, _ => 0)
    {
      this.initialState := initialState;
      this.reducer := reducer;
      this.actionTransformers := actionTransformers;
      this.events := events;
      changeRelay := new Relay(RelayCapacity);
      actionRelay := new Relay(RelayCapacity);
      state := initialState;
      cursors := seq(|events|, _ => 0);
      notices := [];
      delivered, origins, emitted, offered := [], [], [initialState], [];
      admitted, acceptedActions, performed := [], [], [];
    }

    /**
     * `change(change)`: offers a change to the change relay. When the relay is
     * full the change is dropped with an overload report and nothing else changes.
     */
    method Change(c: C)
      requires Valid()
      modifies this, changeRelay
      ensures Valid()
      ensures var ok := |old(changeRelay.items)| < RelayCapacity;
        && changeRelay.items == (if ok then old(changeRelay.items) + [c] else old(changeRelay.items))
        && admitted == (if ok then old(admitted) + [c] else old(admitted))
        && notices == (if ok then old(notices) else old(notices) + [ChangeBufferOverload])
      ensures state == old(state) && delivered == old(delivered) && emitted == old(emitted)
      ensures unchanged(actionRelay) && cursors == old(cursors)
    {
      var ok := changeRelay.TryEmit(c);
      if ok {
        SourcedAdmit(events, delivered, origins, old(changeRelay.items), admitted,
                     TransformEach(actionTransformers, performed), cursors, c);
        admitted := admitted + [c];
      } else {
        notices := notices + [ChangeBufferOverload];
      }
    }

    /**
     * The body of `scan`: reduces one change from source `o`, commits the new
     * state and offers the effect's actions to the action relay in order. A
     * refused action is dropped with an overload report; the later ones are
     * still offered.
     */
    method Step(c: C, ghost o: Origin)
      requires Folded()
      modifies this, actionRelay
      ensures Folded()
      ensures var e := reducer(old(state), c);
        && state == e.state
        && delivered == old(delivered) + [c] && origins == old(origins) + [o]
        && emitted == old(emitted) + [e.state]
        && offered == old(offered) + Actions(e)
        && var sent := OfferAll(old(actionRelay.items), Actions(e), RelayCapacity);
           && actionRelay.items == sent.kept
           && notices == old(notices) + Overloads(|sent.dropped|)
      ensures |old(actionRelay.items)| <= |actionRelay.items|
      ensures acceptedActions == old(acceptedActions) + actionRelay.items[|old(actionRelay.items)|..]
      ensures cursors == old(cursors) && admitted == old(admitted) && performed == old(performed)
      ensures unchanged(changeRelay)
    {
      var e := reducer(state, c);
      ghost var items0 := actionRelay.items;
      EmitActions(e);
      assert actionRelay.items == items0 + actionRelay.items[|items0|..];
      ReducedSnoc(reducer, initialState, delivered, state, emitted, offered, c);
      state := e.state;
      delivered := delivered + [c];
      origins := origins + [o];
      emitted := emitted + [e.state];
      offered := offered + Actions(e);
    }

    /**
     * Offers the actions of effect `e` to the action relay: every action of a
     * `WithActions`, in list order, and the action of a `WithAction` unless it
     * is `null`.
     */
    method EmitActions(e: Effect<S, A>)
      requires actionRelay.Valid() && actionRelay.capacity == RelayCapacity
      modifies this`notices, this`acceptedActions, actionRelay
      ensures actionRelay.Valid()
      ensures var sent := OfferAll(old(actionRelay.items), Actions(e), RelayCapacity);
        && actionRelay.items == sent.kept
        && notices == old(notices) + Overloads(|sent.dropped|)
      ensures |old(actionRelay.items)| <= |actionRelay.items|
      ensures actionRelay.items[..|old(actionRelay.items)|] == old(actionRelay.items)
      ensures acceptedActions == old(acceptedActions) + actionRelay.items[|old(actionRelay.items)|..]
    {
      OfferAllPartitions(actionRelay.items, Actions(e), RelayCapacity);
      match e {
        case WithActions(_, list) =>
          OfferActions(list);
        case WithAction(_, action) =>
          if action.Some? {
            var ok := actionRelay.TryEmit(action.value);
            if ok {
              acceptedActions := acceptedActions + [action.value];
            } else {
              notices := notices + [ActionBufferOverload];
            }
            assert [action.value] == Init([action.value]) + [action.value];
          }
      }
    }

    /** The `forEach` of `scan` over a `WithActions` effect: one `tryEmit` per action, in list order. */
    method OfferActions(list: seq<A>)
      requires actionRelay.Valid() && actionRelay.capacity == RelayCapacity
      modifies this`notices, this`acceptedActions, actionRelay
      ensures actionRelay.Valid()
      ensures var sent := OfferAll(old(actionRelay.items), list, RelayCapacity);
        && actionRelay.items == sent.kept
        && notices == old(notices) + Overloads(|sent.dropped|)
      ensures |old(actionRelay.items)| <= |actionRelay.items|
      ensures acceptedActions == old(acceptedActions) + actionRelay.items[|old(actionRelay.items)|..]
    {
      ghost var buf0 := actionRelay.items;
      OfferAllPartitions(buf0, list, RelayCapacity);
      var refused := Offer(actionRelay, list);
      notices := notices + Overloads(refused);
      acceptedActions := acceptedActions + actionRelay.items[|buf0|..];
    }

    /** The merged stream delivers the oldest submitted change, if there is one. */
    method PumpSubmitted() returns (took: bool)
      requires Valid()
      modifies this, changeRelay, actionRelay
      ensures Valid()
      ensures took == (old(changeRelay.items) != [])
      ensures took ==> var c := old(changeRelay.items)[0];
        var e := reducer(old(state), c);
        var sent := OfferAll(old(actionRelay.items), Actions(e), RelayCapacity);
        && changeRelay.items == old(changeRelay.items)[1..]
        && delivered == old(delivered) + [c] && state == e.state
        && actionRelay.items == sent.kept && notices == old(notices) + Overloads(|sent.dropped|)
      ensures !took ==> (
        && delivered == old(delivered) && state == old(state) && notices == old(notices)
        && changeRelay.items == old(changeRelay.items) && unchanged(actionRelay))
      ensures cursors == old(cursors) && admitted == old(admitted) && performed == old(performed)
    {
      ghost var pending0 := changeRelay.items;
      var x := changeRelay.Take();
      took := x.Some?;
      if took {
        assert pending0 == [x.value] + changeRelay.items;
        SourcedSubmitted(events, delivered, origins, x.value, changeRelay.items, admitted,
                         TransformEach(actionTransformers, performed), cursors);
        Step(x.value, Submitted);
      }
    }

    /** The merged stream delivers an event source's next change, if it has one left. */
    method PumpEvent(i: nat) returns (took: bool)
      requires Valid() && i < |events|
      modifies this, actionRelay
      ensures Valid()
      ensures took == (old(cursors)[i] < |events[i]|)
      ensures took ==> var c := events[i][old(cursors)[i]];
        var e := reducer(old(state), c);
        var sent := OfferAll(old(actionRelay.items), Actions(e), RelayCapacity);
        && delivered == old(delivered) + [c] && state == e.state
        && cursors == old(cursors)[i := old(cursors)[i] + 1]
        && actionRelay.items == sent.kept && notices == old(notices) + Overloads(|sent.dropped|)
      ensures !took ==> (
        && delivered == old(delivered) && state == old(state) && notices == old(notices)
        && cursors == old(cursors) && unchanged(actionRelay))
      ensures admitted == old(admitted) && performed == old(performed)
      ensures unchanged(changeRelay)
    {
      took := cursors[i] < |events[i]|;
      if took {
        var c := events[i][cursors[i]];
        SourcedEvent(events, delivered, origins, changeRelay.items, admitted,
                     TransformEach(actionTransformers, performed), cursors, i);
        cursors := cursors[i := cursors[i] + 1];
        Step(c, Event(i));
      }
    }

    /**
     * The merged stream takes the oldest buffered action, performs it with every
     * transformer, and delivers the resulting changes in order. The action
     * leaves the relay; the actions of the derived reductions are offered
     * behind the ones still waiting.
     */
    method PerformNextAction() returns (took: bool)
      requires Valid()
      modifies this, actionRelay
      ensures Valid()
      ensures took == (old(actionRelay.items) != [])
      ensures took ==> var a := old(actionRelay.items)[0];
        var derived := TransformAll(actionTransformers, a);
        var sent := OfferAll(old(actionRelay.items)[1..], StepActions(reducer, old(state), derived), RelayCapacity);
        && performed == old(performed) + [a]
        && delivered == old(delivered) + derived && state == Fold(reducer, old(state), derived)
        && actionRelay.items == sent.kept && notices == old(notices) + Overloads(|sent.dropped|)
        && old(actionRelay.items)[1..] <= actionRelay.items
      ensures !took ==> (
        && delivered == old(delivered) && state == old(state) && notices == old(notices)
        && performed == old(performed) && actionRelay.items == old(actionRelay.items))
      ensures cursors == old(cursors) && admitted == old(admitted)
      ensures unchanged(changeRelay)
    {
      var x := actionRelay.Take();
      took := x.Some?;
      if took {
        var a := x.value;
        var derived := TransformAll(actionTransformers, a);
        ghost var changes0 := TransformEach(actionTransformers, performed);
        ghost var rest := actionRelay.items;
        performed := performed + [a];
        assert Init(performed) == old(performed);
        DeliverPerformed(derived, changes0);
        OfferAllPartitions(rest, StepActions(reducer, old(state), derived), RelayCapacity);
      } else {
        assert actionRelay.items == old(actionRelay.items);
      }
    }

    /**
     * Where delivering `done` from state `s0` leaves the state, the action
     * relay (which held `buf0`) and the notices (which were `n0`).
     */
    ghost predicate DeliveredFrom(s0: S, buf0: seq<A>, n0: seq<Notice>, done: seq<C>)
      reads this, actionRelay
    {
      && ReducedFrom(reducer, s0, buf0, RelayCapacity, done, state, actionRelay.items)
      && notices == n0 + Overloads(|OfferAll(buf0, StepActions(reducer, s0, done), RelayCapacity).dropped|)
    }

    /**
     * Delivers the changes performing one action produced, one after the
     * other: the state is their fold, and the relay is what offering all
     * their actions leaves.
     */
    method DeliverPerformed(derived: seq<C>, ghost changes0: seq<C>)
      requires Folded()
      requires Sourced(events, delivered, origins, changeRelay.items, admitted, changes0, cursors)
      modifies this, actionRelay
      ensures Folded()
      ensures Sourced(events, delivered, origins, changeRelay.items, admitted, changes0 + derived, cursors)
      ensures delivered == old(delivered) + derived
      ensures DeliveredFrom(old(state), old(actionRelay.items), old(notices), derived)
      ensures performed == old(performed) && cursors == old(cursors) && admitted == old(admitted)
      ensures unchanged(changeRelay)
    {
      ghost var s0, buf0, n0 := state, actionRelay.items, notices;
      for i := 0 to |derived|
        invariant Folded() && unchanged(changeRelay)
        invariant performed == old(performed) && cursors == old(cursors) && admitted == old(admitted)
        invariant delivered == old(delivered) + derived[..i]
        invariant origins == old(origins) + seq(i, _ => Performed)
        invariant DeliveredFrom(s0, buf0, n0, derived[..i])
      {
        TakeSnoc(derived, i);
        PerformedSnoc(i);
        ConcatSnoc(old(delivered), derived[..i], derived[i]);
        ConcatSnoc(old(origins), seq(i, _ => Performed), Performed);
        StepPerformed(derived[i], s0, buf0, n0, derived[..i]);
      }
      TakeAll(derived);
      SourcedPerformedAll(events, old(delivered), old(origins), derived, changeRelay.items, admitted, changes0, cursors);
    }

    /** One step of `DeliverPerformed`: a derived change is reduced, and `DeliveredFrom` extends by it. */
    method StepPerformed(c: C, ghost s0: S, ghost buf0: seq<A>, ghost n0: seq<Notice>, ghost done: seq<C>)
      requires Folded() && DeliveredFrom(s0, buf0, n0, done)
      modifies this, actionRelay
      ensures Folded() && DeliveredFrom(s0, buf0, n0, done + [c])
      ensures delivered == old(delivered) + [c] && origins == old(origins) + [Performed]
      ensures performed == old(performed) && cursors == old(cursors) && admitted == old(admitted)
      ensures unchanged(changeRelay)
    {
      ReducedFromSnoc(reducer, s0, buf0, RelayCapacity, done, c, state, actionRelay.items);
      OfferedSnoc(reducer, s0, buf0, done, c, RelayCapacity);
      Step(c, Performed);
    }
  }
}
