/** Small shared datatypes and sequence helpers used by every module of the model. */
module Wrappers {

  /** Kotlin's nullable `T?`: `None` stands for `null`. */
  datatype Option<+T> = None | Some(value: T)

  /** The outcome of an operation that may throw (`error(…)`, `checkNotNull(…)`). */
  datatype Result<+R, +E> = Success(value: R) | Failure(error: E)

  /** The outcome of an operation that returns `Unit` or throws. */
  datatype Outcome<+E> = Pass | Fail(error: E)

  /** The last element of a non-empty sequence. */
  function Last<T>(s: seq<T>): T
    requires |s| > 0
  {
    s[|s| - 1]
  }

  /** Every element but the last. */
  function Init<T>(s: seq<T>): seq<T>
    requires |s| > 0
  {
    s[..|s| - 1]
  }

  /** A prefix one element longer is the prefix followed by that element. */
  lemma TakeSnoc<T>(s: seq<T>, i: nat)
    requires i < |s|
    ensures s[..i + 1] == s[..i] + [s[i]]
  {
  }

  /** Appending one element after a concatenation appends it to the second part. */
  lemma ConcatSnoc<T>(a: seq<T>, b: seq<T>, x: T)
    ensures a + (b + [x]) == (a + b) + [x]
  {
  }

  /** The prefix as long as the sequence is the sequence. */
  lemma TakeAll<T>(s: seq<T>)
    ensures s[..|s|] == s
  {
  }

  /** Concatenation of a sequence of sequences, in order (Kotlin's `flatten`). */
  function Flatten<T>(xss: seq<seq<T>>): (r: seq<T>)
    decreases |xss|
  {
    if xss == [] then [] else Flatten(Init(xss)) + Last(xss)
  }

  /** Kotlin's `flatMap`: the outputs of `f` on each element of `xs`, concatenated in order. */
  function FlatMap<X, Y>(xs: seq<X>, f: X -> seq<Y>): seq<Y>
    decreases |xs|
  {
    if xs == [] then [] else FlatMap(Init(xs), f) + f(Last(xs))
  }

  /** Mapping a concatenation concatenates the mapped parts: order is kept across both halves. */
  lemma {:induction false} FlatMapConcat<X, Y>(xs: seq<X>, ys: seq<X>, f: X -> seq<Y>)
    ensures FlatMap(xs + ys, f) == FlatMap(xs, f) + FlatMap(ys, f)
    decreases |ys|
  {
    if ys == [] {
      assert xs + ys == xs;
    } else {
      assert Init(xs + ys) == xs + Init(ys);
      assert Last(xs + ys) == Last(ys);
      FlatMapConcat(xs, Init(ys), f);
    }
  }

  /** Kotlin's `filter`: the elements of `xs` that satisfy `p`, in order. */
  function Filter<X>(xs: seq<X>, p: X -> bool): (r: seq<X>)
    ensures |r| <= |xs|
    ensures forall k :: 0 <= k < |r| ==> p(r[k])
    decreases |xs|
  {
    if xs == [] then [] else Filter(Init(xs), p) + (if p(Last(xs)) then [Last(xs)] else [])
  }
}
