/**
 * The bounded relays of siphon: a `MutableSharedFlow(replay = 0,
 * extraBufferCapacity = 100)` used only through `tryEmit`, seen as a FIFO queue
 * that refuses an item when full.
 */
module Relays {
  import opened Wrappers

  /** The buffer capacity of every relay in the library. */
  const RelayCapacity: nat := 100

  class Relay<T> {
    /** How many items the relay buffers before `tryEmit` fails. */
    const capacity: nat
    /** The buffered items, oldest first. */
    var items: seq<T>

    ghost predicate Valid()
      reads this
    {
      |items| <= capacity
    }

    constructor (capacity: nat)
      ensures Valid() && this.capacity == capacity && items == []
    {
      this.capacity := capacity;
      items := [];
    }

    /** `tryEmit`: buffers `x` when there is room and reports whether it did. */
    method TryEmit(x: T) returns (ok: bool)
      requires Valid()
      modifies this
      ensures Valid()
      ensures ok == (|old(items)| < capacity)
      ensures items == if ok then old(items) + [x] else old(items)
    {
      ok := |items| < capacity;
      if ok {
        items := items + [x];
      }
    }

    /** The collector side: takes the oldest buffered item, if any. */
    method Take() returns (x: Option<T>)
      requires Valid()
      modifies this
      ensures Valid()
      ensures old(items) == [] ==> x == None && items == []
      ensures old(items) != [] ==> x == Some(old(items)[0]) && items == old(items)[1..]
    {
      if items == [] {
        x := None;
      } else {
        x := Some(items[0]);
        items := items[1..];
      }
    }
  }

  /** What offering a list of items one `tryEmit` at a time does to a buffer: what it then holds and what was refused. */
  datatype Offered<T> = Offered(kept: seq<T>, dropped: seq<T>)

  /** Offers `xs` in order to a buffer holding `buf` with room for `capacity` items. */
  function OfferAll<T>(buf: seq<T>, xs: seq<T>, capacity: nat): Offered<T>
    decreases |xs|
  {
    if xs == [] then Offered(buf, [])
    else
      var o := OfferAll(buf, Init(xs), capacity);
      if |o.kept| < capacity then Offered(o.kept + [Last(xs)], o.dropped)
      else Offered(o.kept, o.dropped + [Last(xs)])
  }

  function Min(a: nat, b: nat): nat
  {
    if a <= b then a else b
  }

  /**
   * Offering items without taking any in between keeps exactly the first ones
   * that fit, appended after the buffered items in order, and drops every later
   * one: once the buffer is full every further `tryEmit` fails.
   */
  lemma {:induction false} OfferAllKeepsPrefix<T>(buf: seq<T>, xs: seq<T>, capacity: nat)
    requires |buf| <= capacity
    ensures var room := Min(|xs|, capacity - |buf|);
      OfferAll(buf, xs, capacity) == Offered(buf + xs[..room], xs[room..])
    decreases |xs|
  {
    if xs != [] {
      OfferAllKeepsPrefix(buf, Init(xs), capacity);
      var room := Min(|Init(xs)|, capacity - |buf|);
      assert Init(xs)[..room] == xs[..room];
      if room < capacity - |buf| {
        assert xs[..room] + [Last(xs)] == xs[..room + 1];
      } else {
        assert Init(xs)[room..] + [Last(xs)] == xs[room..];
      }
    }
  }

  /** Nothing is lost: every offered item is either kept (after the buffered ones) or dropped, in the offered order. */
  lemma OfferAllPartitions<T>(buf: seq<T>, xs: seq<T>, capacity: nat)
    requires |buf| <= capacity
    ensures var o := OfferAll(buf, xs, capacity);
      |buf| <= |o.kept| <= capacity && o.kept[..|buf|] == buf && o.kept[|buf|..] + o.dropped == xs
  {
    OfferAllKeepsPrefix(buf, xs, capacity);
    var room := Min(|xs|, capacity - |buf|);
    assert xs[..room] + xs[room..] == xs;
    assert (buf + xs[..room])[|buf|..] == xs[..room];
  }

  /** Offering one more item extends the result of offering the others. */
  lemma OfferAllStep<T>(buf: seq<T>, xs: seq<T>, x: T, capacity: nat)
    ensures var o := OfferAll(buf, xs, capacity);
      OfferAll(buf, xs + [x], capacity) ==
        if |o.kept| < capacity then Offered(o.kept + [x], o.dropped) else Offered(o.kept, o.dropped + [x])
  {
    assert Init(xs + [x]) == xs;
  }

  /**
   * Offering `xs` and then `ys`, with nothing taken in between, is offering
   * `xs + ys`: the buffer ends the same, and the refusals of both rounds are,
   * in order, those of the single round.
   */
  lemma {:induction false} OfferAllAppend<T>(buf: seq<T>, xs: seq<T>, ys: seq<T>, capacity: nat)
    ensures var o := OfferAll(buf, xs, capacity);
      var p := OfferAll(o.kept, ys, capacity);
      OfferAll(buf, xs + ys, capacity) == Offered(p.kept, o.dropped + p.dropped)
    decreases |ys|
  {
    if ys == [] {
      assert xs + ys == xs;
    } else {
      OfferAllAppend(buf, xs, Init(ys), capacity);
      assert Init(xs + ys) == xs + Init(ys) && Last(xs + ys) == Last(ys);
    }
  }

  /**
   * `list.forEach { relay.tryEmit(it) }`: offers every item in order; a refused
   * item is dropped and the later ones are still offered. Returns how many
   * were refused.
   */
  method Offer<T>(relay: Relay<T>, xs: seq<T>) returns (refused: nat)
    requires relay.Valid()
    modifies relay
    ensures relay.Valid()
    ensures var o := OfferAll(old(relay.items), xs, relay.capacity);
      relay.items == o.kept && refused == |o.dropped|
  {
    ghost var buf0 := relay.items;
    refused := 0;
    for i := 0 to |xs|
      invariant relay.Valid()
      invariant var o := OfferAll(buf0, xs[..i], relay.capacity);
        relay.items == o.kept && refused == |o.dropped|
    {
      OfferAllStep(buf0, xs[..i], xs[i], relay.capacity);
      assert xs[..i + 1] == xs[..i] + [xs[i]];
      var ok := relay.TryEmit(xs[i]);
      if !ok {
        refused := refused + 1;
      }
    }
    assert xs[..|xs|] == xs;
  }
}
