/**
 * The composite app put together (CompositeMainSiphon.kt): a composite siphon
 * with a scope and the default state, its delegates (taken to be the
 * countdown and users delegates) registered in that order and then
 * composed, and screen events offered to each delegate until one handles
 * them.
 */
module CompositeMain {
  import opened Wrappers
  import opened Effects
  import opened Relays
  import opened Engine
  import opened AppState
  import SiphonBuilders
  import opened Delegates
  import opened Composites
  import opened CompositeBuilders
  import opened CompositeApp
  import Monolith
  import CountdownDelegate
  import UsersDelegate

  /** The registry once both delegates' blocks have run on `base`, countdown first. */
  function Composed(base: AppRegistry, ticks: nat): AppRegistry
  {
    Registered(Registered(base, CountdownDelegate.Block(ticks)), UsersDelegate.Block())
  }

  /** The empty registry the app's composite starts with: it registers no composite-wide interceptor. */
  const Empty: AppRegistry := Registry(map[], [], [], [], [], [])

  /** The reducers the composed app routes by, one per change class. */
  function AppReducers(ticks: nat): map<Tag, Reducer<State, AppChange, AppAction>>
  {
    Composed(Empty, ticks).reducers
  }

  /**
   * The two delegates own disjoint classes, and together every class of the
   * app's changes: the composed registry holds each delegate's reducers
   * under its own keys, the ticking source, and no transformer.
   */
  lemma ComposedRegistry(ticks: nat)
    ensures CountdownDelegate.Keys !! UsersDelegate.Keys
    ensures AppReducers(ticks)
         == BlockReducers(CountdownDelegate.Block(ticks)) + BlockReducers(UsersDelegate.Block())
    ensures AppReducers(ticks).Keys == CountdownDelegate.Keys + UsersDelegate.Keys
    ensures forall c :: TagOf(c) in AppReducers(ticks)
    ensures Composed(Empty, ticks).eventSources == [CountdownDelegate.Ticks(ticks)]
    ensures Composed(Empty, ticks).actionTransformers == []
  {
    CountdownDelegate.RegistersResetAndTick(Empty, ticks);
    UsersDelegate.RegistersSetUsersAndClick(Registered(Empty, CountdownDelegate.Block(ticks)));
    CountdownDelegate.OwnsResetAndTick(ticks);
    UsersDelegate.OwnsSetUsersAndClick();
    CountdownDelegate.RegistersResetAndTick(Empty, ticks);
    UsersDelegate.RegistersSetUsersAndClick(Empty);
  }

  /** The composed app has one event source, the countdown's ticks; so it starts with one cursor, at 0. */
  lemma ComposedSources(ticks: nat)
    ensures Composed(Empty, ticks).eventSources == [CountdownDelegate.Ticks(ticks)]
    ensures seq(|Composed(Empty, ticks).eventSources|, _ => 0) == [0]
  {
    CountdownDelegate.RegistersResetAndTick(Empty, ticks);
    UsersDelegate.RegistersSetUsersAndClick(Registered(Empty, CountdownDelegate.Block(ticks)));
  }

  /** In the composed app, every change runs the reducer of the delegate that owns its class. */
  lemma RoutesToOwner(ticks: nat, s: State, c: AppChange)
    ensures Routed(AppReducers(ticks), TagOf)(s, c)
         == match c
            case CountdownTick => CountdownDelegate.AddSecond(s, c)
            case CountdownReset => CountdownDelegate.ResetTime(s, c)
            case UsersOnClickGetUsers => UsersDelegate.RequestUsers(s, c)
            case UsersSetUsers(_) => UsersDelegate.StoreUsers(s, c)
  {
    ComposedRegistry(ticks);
    CountdownDelegate.RegistersResetAndTick(Empty, ticks);
    UsersDelegate.RegistersSetUsersAndClick(Empty);
    var mine, theirs := BlockReducers(CountdownDelegate.Block(ticks)), BlockReducers(UsersDelegate.Block());
    if TagOf(c) in mine {
      DisjointDelegatesRouteToOwner(mine, theirs, TagOf, s, c);
    } else {
      DisjointDelegatesRouteToOwner(theirs, mine, TagOf, s, c);
    }
  }

  /** The composed app never stops for a missing reducer, whatever changes arrive. */
  lemma NeverStops(ticks: nat, cs: seq<AppChange>)
    ensures Covered(AppReducers(ticks), TagOf, cs)
  {
    ComposedRegistry(ticks);
  }

  /** The composite app's counterpart of each monolith change. */
  function Translate(c: Monolith.Change): AppChange
  {
    match c
    case Tick => CountdownTick
    case Reset => CountdownReset
    case OnClickGetUsers => UsersOnClickGetUsers
    case SetUsers(us) => UsersSetUsers(us)
  }

  function TranslateAll(cs: seq<Monolith.Change>): (r: seq<AppChange>)
    ensures |r| == |cs|
    decreases |cs|
  {
    if cs == [] then [] else TranslateAll(Init(cs)) + [Translate(Last(cs))]
  }

  /**
   * The composite app and the monolith keep the same clock: the same
   * changes give the same time, resets included.
   */
  lemma {:induction false} ClockAgreesWithMonolith(ticks: nat, s: State, cs: seq<Monolith.Change>)
    ensures Fold(Routed(AppReducers(ticks), TagOf), s, TranslateAll(cs)).time == Fold(Monolith.Reduce, s, cs).time
    decreases |cs|
  {
    if cs != [] {
      var xs, c := Init(cs), Last(cs);
      assert cs == xs + [c];
      assert TranslateAll(cs) == TranslateAll(xs) + [Translate(c)];
      ClockAgreesWithMonolith(ticks, s, xs);
      FoldSnoc(Routed(AppReducers(ticks), TagOf), s, TranslateAll(xs), Translate(c));
      RoutesToOwner(ticks, Fold(Routed(AppReducers(ticks), TagOf), s, TranslateAll(xs)), Translate(c));
    }
  }

  /**
   * Without a reset the two apps agree on the whole state; a reset is where
   * they differ, since the countdown delegate keeps the users and the button.
   */
  lemma {:induction false} StateAgreesWithMonolithUntilReset(ticks: nat, s: State, cs: seq<Monolith.Change>)
    requires Monolith.Reset !in cs
    ensures Fold(Routed(AppReducers(ticks), TagOf), s, TranslateAll(cs)) == Fold(Monolith.Reduce, s, cs)
    decreases |cs|
  {
    if cs != [] {
      var xs, c := Init(cs), Last(cs);
      assert cs == xs + [c];
      assert TranslateAll(cs) == TranslateAll(xs) + [Translate(c)];
      StateAgreesWithMonolithUntilReset(ticks, s, xs);
      FoldSnoc(Routed(AppReducers(ticks), TagOf), s, TranslateAll(xs), Translate(c));
      RoutesToOwner(ticks, Fold(Monolith.Reduce, s, xs), Translate(c));
    }
  }

  /** The change the delegate that handles `event` submits in answer. */
  function Answer(event: Event, users: seq<User>): AppChange
  {
    match event
    case Reset => CountdownReset
    case OnClickGetUsers => UsersSetUsers(users)
  }

  /**
   * `DefaultCompositeMainSiphon`'s construction: `compositeSiphon { life;
   * state { initial = State() } }`, each delegate's `register()` in list
   * order, then `compose()`. The composite is left in its operating phase
   * on the composed registry, holding the initial state.
   */
  method MainSiphon(scope: SiphonBuilders.Scope, ticks: nat) returns (siphon: AppSiphon)
    ensures fresh(siphon) && siphon.Valid()
    ensures siphon.composition == None && siphon.launched == Some(Composed(Empty, ticks))
    ensures siphon.tagOf == TagOf && siphon.initialState == Initial && siphon.value == Initial
    ensures siphon.delivered == [] && siphon.stopped == None && siphon.published == [Initial]
    ensures siphon.changeSubject.items == [] && siphon.actionSubject.items == []
    ensures siphon.cursors == [0]
  {
    var b := new CompositeSiphonBuilder<State, AppChange, AppAction>();
    var lifeCalls := [SiphonBuilders.SetScope(Some(scope))];
    assert Last(lifeCalls) == lifeCalls[0];
    b.Life(lifeCalls);
    var stateCalls := [SiphonBuilders.SetInitial(Some(Initial))];
    assert Last(stateCalls) == stateCalls[0] && Init(stateCalls) == [];
    assert FlatMap(stateCalls, SiphonBuilders.StateAdds) == [];
    b.State(stateCalls);
    var r := CompositeSiphon(b, TagOf);
    siphon := r.value;
    var _ := CountdownDelegate.Register(siphon, ticks);
    var _ := UsersDelegate.Register(siphon);
    siphon.Compose();
    ComposedSources(ticks);
  }

  /**
   * `onEvent(event)`: offered to the countdown delegate, then to the users
   * delegate unless the first handled it (Kotlin's `any`). Each event is
   * handled by exactly one of them, which submits its answer.
   */
  method OnEvent(siphon: AppSiphon, event: Event, users: seq<User>) returns (handled: bool)
    requires siphon.Valid()
    modifies siphon.changeSubject
    ensures siphon.Valid() && handled
    ensures siphon.changeSubject.items
         == if |old(siphon.changeSubject.items)| < RelayCapacity
            then old(siphon.changeSubject.items) + [Answer(event, users)]
            else old(siphon.changeSubject.items)
  {
    handled := CountdownDelegate.OnEvent(siphon, event);
    if !handled {
      handled := UsersDelegate.OnEvent(siphon, event, users);
    }
  }

  /** From the default state, the composed app's clock shows 0, 1, 2, 0, 1 for Tick, Tick, Reset, Tick. */
  lemma TicksAndReset(ticks: nat)
    ensures var states := Scan(Routed(AppReducers(ticks), TagOf), Initial,
                               [CountdownTick, CountdownTick, CountdownReset, CountdownTick]);
      && |states| == 5
      && states[0].time == 0 && states[1].time == 1 && states[2].time == 2
      && states[3].time == 0 && states[4].time == 1
  {
    var cs := [CountdownTick, CountdownTick, CountdownReset, CountdownTick];
    var r := Routed(AppReducers(ticks), TagOf);
    assert Init(cs) == [CountdownTick, CountdownTick, CountdownReset] && Init(Init(cs)) == [CountdownTick, CountdownTick];
    assert Init([CountdownTick, CountdownTick]) == [CountdownTick] && Init([CountdownTick]) == [];
    RoutesToOwner(ticks, Initial, CountdownTick);
    RoutesToOwner(ticks, Fold(r, Initial, [CountdownTick]), CountdownTick);
    RoutesToOwner(ticks, Fold(r, Initial, Init(Init(cs))), CountdownReset);
    RoutesToOwner(ticks, Fold(r, Initial, Init(cs)), CountdownTick);
  }
}
