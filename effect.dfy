/**
 * The outcome of one reduction in siphon (`Effect` in Siphon.kt): a new state
 * together with zero, one or many follow-up actions.
 */
module Effects {
  import opened Wrappers

  /**
   * `WithAction` holds at most one (nullable) action, `WithActions` a list of actions.
   * Both shapes always hold a state.
   */
  datatype Effect<S, A> =
    | WithAction(state: S, action: Option<A>)
    | WithActions(state: S, actions: seq<A>)

  /** The actions an effect carries, in order, whatever its shape. */
  function Actions<S, A>(e: Effect<S, A>): (r: seq<A>)
    ensures e.WithAction? ==> |r| <= 1
    ensures e.WithAction? && e.action.Some? ==> r == [e.action.value]
  {
    match e
    case WithAction(_, None) => []
    case WithAction(_, Some(a)) => [a]
    case WithActions(_, acts) => acts
  }

  /** The actions `x` adds when appended: nothing for `null`, otherwise `x` itself. */
  function Added<A>(x: Option<A>): seq<A>
  {
    if x.Some? then [x.value] else []
  }

  /**
   * `Effect.plus(action)`: appends a nullable action. A `null` leaves the effect
   * as it is; a `WithAction` that already holds an action turns into a
   * `WithActions` of the old action followed by the new one.
   */
  function Plus<S, A>(e: Effect<S, A>, x: Option<A>): (r: Effect<S, A>)
    ensures r.state == e.state
    ensures Actions(r) == Actions(e) + Added(x)
  {
    match e
    case WithAction(s, old_) =>
      if x.None? then e
      else if old_.None? then WithAction(s, x)
      else WithActions(s, [old_.value, x.value])
    case WithActions(s, acts) =>
      if x.None? then e
      else WithActions(s, acts + [x.value])
  }

  /** Adding `null` returns the very same effect, for both shapes. */
  lemma PlusNullIsIdentity<S, A>(e: Effect<S, A>)
    ensures Plus(e, None) == e
  {
  }

  /** An action added to a `WithAction` that already holds one yields a two-element `WithActions`, old action first. */
  lemma PlusPromotesToWithActions<S, A>(s: S, first: A, second: A)
    ensures Plus(WithAction(s, Some(first)), Some(second)) == WithActions(s, [first, second])
  {
  }

  /** An action added to an empty `WithAction` stays in the single-action shape. */
  lemma PlusKeepsSingleShape<S, A>(s: S, a: A)
    ensures Plus(WithAction(s, None), Some(a)) == WithAction(s, Some(a))
  {
  }

  /** Appending a list of nullable actions one `plus` at a time (`e + a1 + a2 + …`). */
  function PlusAll<S, A>(e: Effect<S, A>, xs: seq<Option<A>>): Effect<S, A>
    decreases |xs|
  {
    if xs == [] then e else Plus(PlusAll(e, Init(xs)), Last(xs))
  }

  /** The non-null actions of a list, in order. */
  function NonNull<A>(xs: seq<Option<A>>): seq<A>
    decreases |xs|
  {
    if xs == [] then [] else NonNull(Init(xs)) + Added(Last(xs))
  }

  /**
   * A chain of `plus` calls keeps the state and ends with the original actions
   * followed by every non-null added action, in the order they were added.
   */
  lemma {:induction false} PlusAllAppends<S, A>(e: Effect<S, A>, xs: seq<Option<A>>)
    ensures PlusAll(e, xs).state == e.state
    ensures Actions(PlusAll(e, xs)) == Actions(e) + NonNull(xs)
    decreases |xs|
  {
    if xs != [] {
      PlusAllAppends(e, Init(xs));
    }
  }
}
