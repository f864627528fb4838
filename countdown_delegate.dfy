/**
 * The clock of the composite app (CountdownDelegate.kt): two reducers, one
 * per private change class, a ticking event source, and its share of the
 * screen's events.
 */
module CountdownDelegate {
  import opened Wrappers
  import opened Effects
  import opened Relays
  import opened AppState
  import SiphonBuilders
  import opened Delegates
  import opened Composites
  import opened CompositeApp

  /** `reduce<Change.Reset>`: the clock goes back to zero; the users and the button are kept. */
  function ResetTime(s: State, c: AppChange): (r: Effect<State, AppAction>)
    ensures r.state.time == 0 && r.state.getUsersEnabled == s.getUsersEnabled && r.state.users == s.users
    ensures r.WithAction? && Actions(r) == []
  {
    SiphonBuilders.Only(s.(time := 0))
  }

  /** `reduce<Change.Tick>`: the clock advances one second and nothing else changes. */
  function AddSecond(s: State, c: AppChange): (r: Effect<State, AppAction>)
    ensures r.state.time == s.time + 1 && r.state.getUsersEnabled == s.getUsersEnabled && r.state.users == s.users
    ensures r.WithAction? && Actions(r) == []
  {
    SiphonBuilders.Only(s.(time := s.time + 1))
  }

  /** The first `n` changes of the event source that emits a tick every second. */
  function Ticks(n: nat): (r: seq<AppChange>)
    ensures |r| == n && forall k :: 0 <= k < n ==> r[k] == CountdownTick
  {
    seq(n, _ => CountdownTick)
  }

  /** `register()`'s block: `changes { reduce<Reset>; reduce<Tick> }` and `events { source(ticks) }`. */
  function Block(ticks: nat): AppBlock
  {
    [ChangesSection([ReduceTag(CountdownResetClass, ResetTime), ReduceTag(CountdownTickClass, AddSecond)]),
     EventsSection([Ticks(ticks)])]
  }

  /** The class keys the block registers. */
  const Keys: set<Tag> := {CountdownResetClass, CountdownTickClass}

  /**
   * Registering the block stores exactly two reducers, `ResetTime` under
   * `Reset` and `AddSecond` under `Tick`, appends the ticking source, and
   * leaves everything else of the registry as it was.
   */
  lemma RegistersResetAndTick(reg: AppRegistry, ticks: nat)
    ensures var r := Registered(reg, Block(ticks));
      && r.reducers == reg.reducers[CountdownResetClass := ResetTime][CountdownTickClass := AddSecond]
      && r.eventSources == reg.eventSources + [Ticks(ticks)]
      && r.actionTransformers == reg.actionTransformers
      && r.stateInterceptors == reg.stateInterceptors
      && r.changeInterceptors == reg.changeInterceptors
      && r.actionInterceptors == reg.actionInterceptors
  {
    var b := Block(ticks);
    assert Init(b) == [b[0]] && Init([b[0]]) == [] && Last(b) == b[1] && Last([b[0]]) == b[0];
    var calls := b[0].changeCalls;
    assert Init(calls) == [calls[0]] && Init([calls[0]]) == [];
    assert Last(calls) == calls[1] && Last([calls[0]]) == calls[0];
    assert FlatMap([calls[0]], Delegates.ChangeAdds) == [];
    var mid := ApplySection(reg, b[0]);
    assert Registered(reg, [b[0]]) == mid;
    assert b[1] == EventsSection([Ticks(ticks)]);
    assert Registered(reg, b) == ApplySection(mid, b[1]);
    assert ReduceAll(reg.reducers, [calls[0]]) == reg.reducers[CountdownResetClass := ResetTime];
  }

  /** On its own the block registers reducers under its two classes and no other. */
  lemma OwnsResetAndTick(ticks: nat)
    ensures BlockReducers(Block(ticks)).Keys == Keys
  {
    RegistersResetAndTick(Registry(map[], [], [], [], [], []), ticks);
  }

  /** `register()`: registers the block with the composite, which refuses it once composed. */
  method Register(siphon: AppSiphon, ticks: nat) returns (r: Outcome<string>)
    requires siphon.Valid()
    modifies if siphon.composition.Some? then {siphon.composition.value} else {}
    ensures siphon.Valid()
    ensures r == if old(siphon.composition).None? then Fail(RegisteredTooLate) else Pass
    ensures old(siphon.composition).Some? ==>
      siphon.composition.value.Contents() == Registered(old(siphon.composition.value.Contents()), Block(ticks))
  {
    r := siphon.RegisterDelegate(Block(ticks));
  }

  /**
   * `onEvent`: a reset is this delegate's, which submits its `Reset` change
   * and reports it handled; a click on "get users" is not.
   */
  method OnEvent(siphon: AppSiphon, event: Event) returns (handled: bool)
    requires siphon.Valid()
    modifies siphon.changeSubject
    ensures siphon.Valid()
    ensures handled <==> event == Reset
    ensures siphon.changeSubject.items
         == if handled && |old(siphon.changeSubject.items)| < RelayCapacity
            then old(siphon.changeSubject.items) + [CountdownReset]
            else old(siphon.changeSubject.items)
  {
    match event
    case OnClickGetUsers =>
      handled := false;
    case Reset =>
      var _ := siphon.Change(CountdownReset);
      handled := true;
  }
}
