/**
 * The sample app's single-reducer siphon (MonolithicMainViewModel.kt): a
 * clock that ticks once a second and can be reset, and a button that fetches
 * users from a backend and stays disabled until they arrive.
 *
 * The backend is a parameter: `Answers` takes what each call of
 * `service.getUsers()` returns; the built siphon, whose transformers are
 * functions of the action alone, takes one list of users for every call.
 */
module Monolith {
  import opened Wrappers
  import opened Effects
  import opened Relays
  import opened Interceptors
  import opened Engine
  import opened AppState
  import SiphonBuilders

  /** The monolith's `Change`. */
  datatype Change = Tick | Reset | OnClickGetUsers | SetUsers(users: seq<User>)

  /** The monolith's `Action`. */
  datatype Action = GetUsers

  /**
   * The reducer of `changes { reduce { … } }`, total over the four changes:
   * new users re-enable the button, a tick adds a second, a reset restores
   * the defaults, and a click disables the button and asks for users.
   */
  function Reduce(s: State, c: Change): (r: Effect<State, Action>)
    ensures c.SetUsers? ==> (
      && r.state.users == c.users && r.state.getUsersEnabled && r.state.time == s.time
      && Actions(r) == [])
    ensures c.Tick? ==> (
      && r.state.time == s.time + 1
      && r.state.getUsersEnabled == s.getUsersEnabled && r.state.users == s.users
      && Actions(r) == [])
    ensures c.Reset? ==> (
      && r.state.time == 0 && r.state.getUsersEnabled && r.state.users == []
      && Actions(r) == [])
    ensures c.OnClickGetUsers? ==> (
      && !r.state.getUsersEnabled && r.state.time == s.time && r.state.users == s.users
      && Actions(r) == [GetUsers])
  {
    match c
    case SetUsers(us) => SiphonBuilders.Only(s.(users := us, getUsersEnabled := true))
    case Tick => SiphonBuilders.Only(s.(time := s.time + 1))
    case Reset => SiphonBuilders.Only(StateAt(0))
    case OnClickGetUsers => SiphonBuilders.With(s.(getUsersEnabled := false), Some(GetUsers))
  }

  /** Whatever happened before, a reset starts the app over from its initial state. */
  lemma ResetForgets(s: State, cs: seq<Change>, ds: seq<Change>)
    ensures Fold(Reduce, s, cs + [Reset] + ds) == Fold(Reduce, Initial, ds)
  {
    FoldAppend(Reduce, s, cs + [Reset], ds);
    FoldSnoc(Reduce, s, cs, Reset);
  }

  /** Without a reset, the clock shows its starting time plus the number of ticks. */
  lemma {:induction false} TicksAdvanceTime(s: State, ds: seq<Change>)
    requires Reset !in ds
    ensures Fold(Reduce, s, ds).time == s.time + multiset(ds)[Tick]
    decreases |ds|
  {
    if ds != [] {
      var xs, c := Init(ds), Last(ds);
      assert ds == xs + [c];
      assert multiset(ds) == multiset(xs) + multiset{c};
      TicksAdvanceTime(s, xs);
    }
  }

  /** The clock shows the number of ticks since the last reset. */
  lemma ClockCountsTicksSinceReset(s: State, cs: seq<Change>, ds: seq<Change>)
    requires Reset !in ds
    ensures Fold(Reduce, s, cs + [Reset] + ds).time == multiset(ds)[Tick]
  {
    ResetForgets(s, cs, ds);
    TicksAdvanceTime(Initial, ds);
  }

  /** Every change of `cs` is a tick. */
  ghost predicate OnlyTicks(cs: seq<Change>)
  {
    forall j :: 0 <= j < |cs| ==> cs[j] == Tick
  }

  /** A click that no later change but ticks has answered. */
  ghost predicate AwaitingUsers(cs: seq<Change>)
  {
    exists k :: 0 <= k < |cs| && cs[k] == OnClickGetUsers && OnlyTicks(cs[k + 1..])
  }

  /** A tick neither answers a click nor makes one. */
  lemma AwaitingAfterTick(xs: seq<Change>)
    ensures AwaitingUsers(xs + [Tick]) <==> AwaitingUsers(xs)
    ensures OnlyTicks(xs + [Tick]) <==> OnlyTicks(xs)
  {
    OnlyTicksAfterTick(xs);
    if AwaitingUsers(xs) {
      AwaitingKeptByTick(xs);
    }
    if AwaitingUsers(xs + [Tick]) {
      AwaitingBeforeTick(xs);
    }
  }

  /** Appending a tick keeps a run of ticks a run of ticks, and only then. */
  lemma OnlyTicksAfterTick(xs: seq<Change>)
    ensures OnlyTicks(xs + [Tick]) <==> OnlyTicks(xs)
  {
    var cs := xs + [Tick];
    assert forall j :: 0 <= j < |xs| ==> cs[j] == xs[j];
  }

  /** A click still unanswered stays so after a tick. */
  lemma AwaitingKeptByTick(xs: seq<Change>)
    requires AwaitingUsers(xs)
    ensures AwaitingUsers(xs + [Tick])
  {
    var cs := xs + [Tick];
    var k :| 0 <= k < |xs| && xs[k] == OnClickGetUsers && OnlyTicks(xs[k + 1..]);
    assert cs[k + 1..] == xs[k + 1..] + [Tick];
    OnlyTicksAfterTick(xs[k + 1..]);
    assert cs[k] == OnClickGetUsers;
  }

  /** A click unanswered after a tick was unanswered before it: the tick is not a click. */
  lemma AwaitingBeforeTick(xs: seq<Change>)
    requires AwaitingUsers(xs + [Tick])
    ensures AwaitingUsers(xs)
  {
    var cs := xs + [Tick];
    var k :| 0 <= k < |cs| && cs[k] == OnClickGetUsers && OnlyTicks(cs[k + 1..]);
    assert k < |xs| by { assert cs[|xs|] == Tick; }
    assert cs[k + 1..] == xs[k + 1..] + [Tick];
    OnlyTicksAfterTick(xs[k + 1..]);
    assert xs[k] == cs[k];
  }

  /** A click is unanswered right after it is made. */
  lemma AwaitingAfterClick(xs: seq<Change>)
    ensures AwaitingUsers(xs + [OnClickGetUsers])
  {
    var cs := xs + [OnClickGetUsers];
    assert cs[|xs|] == OnClickGetUsers && OnlyTicks(cs[|xs| + 1..]);
  }

  /** A reset or arriving users answer every click. */
  lemma NotAwaitingAfterAnswer(xs: seq<Change>, c: Change)
    requires c != Tick && c != OnClickGetUsers
    ensures !AwaitingUsers(xs + [c]) && !OnlyTicks(xs + [c])
  {
    var cs := xs + [c];
    assert cs[|xs|] == c;
    forall k | 0 <= k < |cs| && cs[k] == OnClickGetUsers
      ensures !OnlyTicks(cs[k + 1..])
    {
      assert cs[k + 1..][|xs| - k - 1] == c;
    }
  }

  /**
   * The button is disabled exactly while a click is unanswered (or, when only
   * ticks came, when it was disabled to begin with).
   */
  lemma {:induction false} ButtonDisabledWhileAwaiting(s: State, cs: seq<Change>)
    ensures !Fold(Reduce, s, cs).getUsersEnabled <==> AwaitingUsers(cs) || (!s.getUsersEnabled && OnlyTicks(cs))
    decreases |cs|
  {
    if cs != [] {
      var xs, c := Init(cs), Last(cs);
      assert cs == xs + [c];
      ButtonDisabledWhileAwaiting(s, xs);
      if c == Tick {
        AwaitingAfterTick(xs);
      } else if c == OnClickGetUsers {
        AwaitingAfterClick(xs);
      } else {
        NotAwaitingAfterAnswer(xs, c);
      }
    }
  }

  /** Every click asks for users exactly once, and nothing else asks. */
  lemma {:induction false} ClicksRequestUsers(s: State, cs: seq<Change>)
    ensures StepActions(Reduce, s, cs) == seq(multiset(cs)[OnClickGetUsers], _ => GetUsers)
    decreases |cs|
  {
    if cs != [] {
      var xs, c := Init(cs), Last(cs);
      assert cs == xs + [c];
      assert multiset(cs) == multiset(xs) + multiset{c};
      ClicksRequestUsers(s, xs);
      var n := multiset(xs)[OnClickGetUsers];
      assert seq(n, _ => GetUsers) + [GetUsers] == seq(n + 1, _ => GetUsers);
    }
  }

  /** From the initial state, the changes Tick, Tick, Reset, Tick show the times 0, 1, 2, 0, 1. */
  lemma TicksAndReset()
    ensures var states := Scan(Reduce, Initial, [Tick, Tick, Reset, Tick]);
      && |states| == 5
      && states[0].time == 0 && states[1].time == 1 && states[2].time == 2
      && states[3].time == 0 && states[4].time == 1
  {
    var cs := [Tick, Tick, Reset, Tick];
    assert Init(cs) == [Tick, Tick, Reset] && Init(Init(cs)) == [Tick, Tick] && Init([Tick, Tick]) == [Tick];
    assert Init([Tick]) == [];
  }

  /** `perform<Action.GetUsers>`'s type test. */
  function IsGetUsers(a: Action): bool
  {
    a.GetUsers?
  }

  /** `perform<Action.GetUsers>`'s block: one `SetUsers` with what the service returned. */
  function Fetched(users: seq<User>): Action -> seq<Change>
  {
    _ => [SetUsers(users)]
  }

  /** The transformer `perform<Action.GetUsers> { … }` registers. */
  function FetchUsers(users: seq<User>): (t: ActionTransformer<Action, Change>)
    ensures t(GetUsers) == [SetUsers(users)]
  {
    SiphonBuilders.Performer(IsGetUsers, Fetched(users))
  }

  /**
   * The changes `perform<GetUsers>` sends back for the actions `acts`, when
   * request number `k` (counted from 0) to `service.getUsers()` returns
   * `service(k)`: the backend picks users at random on every call, so each
   * request may be answered differently.
   */
  function Answers(service: nat -> seq<User>, acts: seq<Action>): seq<Change>
    decreases |acts|
  {
    if acts == [] then [] else Answers(service, Init(acts)) + FetchUsers(service(|acts| - 1))(Last(acts))
  }

  /** Performing `n` requests yields `n` arrivals, the `k`-th carrying what the `k`-th call returned. */
  lemma {:induction false} FetchEach(service: nat -> seq<User>, n: nat)
    ensures Answers(service, seq(n, _ => GetUsers))
         == seq(n, k requires 0 <= k => SetUsers(service(k)))
    decreases n
  {
    if n > 0 {
      var acts := seq(n, _ => GetUsers);
      assert Init(acts) == seq(n - 1, _ => GetUsers) && Last(acts) == GetUsers;
      FetchEach(service, n - 1);
      assert seq(n - 1, k requires 0 <= k => SetUsers(service(k))) + [SetUsers(service(n - 1))]
          == seq(n, k requires 0 <= k => SetUsers(service(k)));
    }
  }

  /** Every click of the reduced changes comes back as exactly one `SetUsers`, with the answer of its own request. */
  lemma EachClickFetchesOnce(service: nat -> seq<User>, s: State, cs: seq<Change>)
    ensures Answers(service, StepActions(Reduce, s, cs))
         == seq(multiset(cs)[OnClickGetUsers], k requires 0 <= k => SetUsers(service(k)))
  {
    ClicksRequestUsers(s, cs);
    FetchEach(service, multiset(cs)[OnClickGetUsers]);
  }

  /**
   * A service answering every request with the same users is what the built
   * siphon's single transformer performs: the requests' answers are then
   * the transformer's outputs, in order.
   */
  lemma {:induction false} AnswersFromOneService(users: seq<User>, acts: seq<Action>)
    ensures Answers(_ => users, acts) == TransformEach([FetchUsers(users)], acts)
    decreases |acts|
  {
    if acts != [] {
      AnswersFromOneService(users, Init(acts));
      var ts := [FetchUsers(users)];
      assert Init(ts) == [] && Last(ts) == FetchUsers(users);
      assert TransformAll(ts, Last(acts)) == FetchUsers(users)(Last(acts));
    }
  }

  /** The first `n` changes of the event source that emits a tick every second. */
  function TickSource(n: nat): (r: seq<Change>)
    ensures |r| == n && forall k :: 0 <= k < n ==> r[k] == Tick
  {
    seq(n, _ => Tick)
  }

  /** The view model's `life {}` block: its scope (`reduceOn` has no effect on the fold). */
  function LifeBlock(scope: SiphonBuilders.Scope): seq<SiphonBuilders.LifeCall>
  {
    [SiphonBuilders.SetScope(Some(scope))]
  }

  /** The view model's `state {}` block: the initial state and a `println` watcher. */
  function StateBlock(): seq<SiphonBuilders.StateCall<State>>
  {
    [SiphonBuilders.SetInitial(Some(Initial)), SiphonBuilders.WatchAllStates((_: State) => ())]
  }

  /** The view model's `changes {}` block: the reducer, a `println` watcher and an identity interceptor. */
  function ChangesBlock(): seq<SiphonBuilders.ChangesCall<State, Change, Action>>
  {
    [SiphonBuilders.Reduce(Reduce), SiphonBuilders.WatchAllChanges((_: Change) => ()),
     SiphonBuilders.InterceptChange(Custom((stream: seq<Change>) => stream))]
  }

  /** The view model's `actions {}` block: `perform<GetUsers>` and a `println` watcher. */
  function ActionsBlock(users: seq<User>): seq<SiphonBuilders.ActionsCall<Action, Change>>
  {
    [SiphonBuilders.PerformOf(IsGetUsers, Fetched(users)), SiphonBuilders.WatchAllActions((_: Action) => ())]
  }

  /**
   * The view model's blocks leave every mandatory field set: the scope, the
   * initial state and the reducer, with the one transformer and two watchers
   * of `actions {}`.
   */
  lemma BlocksSetEveryField(scope: SiphonBuilders.Scope, users: seq<User>)
    ensures SiphonBuilders.ScopeOf(LifeBlock(scope)) == Some(scope)
    ensures SiphonBuilders.InitialOf(StateBlock()) == Some(Initial)
    ensures SiphonBuilders.ReducerOf(ChangesBlock()) == Some(Reduce)
    ensures FlatMap(ActionsBlock(users), SiphonBuilders.TransformerAdds) == [FetchUsers(users)]
  {
    var sc := StateBlock();
    assert Init(sc) == [sc[0]] && Last(sc) == sc[1] && Last([sc[0]]) == sc[0];
    var cc := ChangesBlock();
    assert Init(cc) == cc[..2] && Init(cc[..2]) == [cc[0]];
    assert Last(cc) == cc[2] && Last(cc[..2]) == cc[1] && Last([cc[0]]) == cc[0];
    var ac := ActionsBlock(users);
    assert Init(ac) == [ac[0]] && Init([ac[0]]) == [];
    assert Last(ac) == ac[1] && Last([ac[0]]) == ac[0];
    assert SiphonBuilders.TransformerAdds(ac[0]) == [FetchUsers(users)];
    assert SiphonBuilders.TransformerAdds(ac[1]) == [];
    assert FlatMap([ac[0]], SiphonBuilders.TransformerAdds) == [FetchUsers(users)];
  }

  /**
   * The view model's `siphon { … }` block, built: its scope, the initial
   * state, the reducer, the `perform<GetUsers>` transformer and the ticking
   * source. The `println` watchers and the identity interceptor are
   * registered too; the built `Siphon` does not take them.
   */
  method MonolithSiphon(scope: SiphonBuilders.Scope, users: seq<User>, ticks: nat)
    returns (siphon: Siphon<State, Change, Action>)
    ensures fresh(siphon) && siphon.Valid()
    ensures siphon.initialState == Initial && siphon.reducer == Reduce
    ensures siphon.actionTransformers == [FetchUsers(users)] && siphon.events == [TickSource(ticks)]
    ensures siphon.state == Initial && siphon.delivered == []
    ensures siphon.changeRelay.items == [] && siphon.actionRelay.items == []
    ensures siphon.notices == [] && siphon.cursors == [0]
  {
    BlocksSetEveryField(scope, users);
    var b := new SiphonBuilders.SiphonBuilder<State, Change, Action>();
    b.Life(LifeBlock(scope));
    b.State(StateBlock());
    b.Changes(ChangesBlock());
    b.Actions(ActionsBlock(users));
    b.Events([TickSource(ticks)]);
    var r := b.Build();
    siphon := r.value;
  }

  /** `reset()`: submits a `Reset`. */
  method ResetClicked(siphon: Siphon<State, Change, Action>)
    requires siphon.Valid()
    modifies siphon, siphon.changeRelay
    ensures siphon.Valid()
    ensures var ok := |old(siphon.changeRelay.items)| < RelayCapacity;
      && siphon.changeRelay.items == (if ok then old(siphon.changeRelay.items) + [Reset] else old(siphon.changeRelay.items))
      && siphon.admitted == (if ok then old(siphon.admitted) + [Reset] else old(siphon.admitted))
      && siphon.notices == (if ok then old(siphon.notices) else old(siphon.notices) + [ChangeBufferOverload])
    ensures siphon.state == old(siphon.state) && siphon.delivered == old(siphon.delivered)
    ensures siphon.emitted == old(siphon.emitted) && siphon.cursors == old(siphon.cursors)
    ensures unchanged(siphon.actionRelay)
  {
    siphon.Change(Reset);
  }

  /** `getUsers()`: submits an `OnClickGetUsers`. */
  method GetUsersClicked(siphon: Siphon<State, Change, Action>)
    requires siphon.Valid()
    modifies siphon, siphon.changeRelay
    ensures siphon.Valid()
    ensures var ok := |old(siphon.changeRelay.items)| < RelayCapacity;
      && siphon.changeRelay.items == (if ok then old(siphon.changeRelay.items) + [OnClickGetUsers] else old(siphon.changeRelay.items))
      && siphon.admitted == (if ok then old(siphon.admitted) + [OnClickGetUsers] else old(siphon.admitted))
      && siphon.notices == (if ok then old(siphon.notices) else old(siphon.notices) + [ChangeBufferOverload])
    ensures siphon.state == old(siphon.state) && siphon.delivered == old(siphon.delivered)
    ensures siphon.emitted == old(siphon.emitted) && siphon.cursors == old(siphon.cursors)
    ensures unchanged(siphon.actionRelay)
  {
    siphon.Change(OnClickGetUsers);
  }
}
