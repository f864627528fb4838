/**
 * The user list of the composite app (UsersDelegate.kt): two reducers, one
 * per private change class, no action transformer, and its share of the
 * screen's events. The backend is a parameter: `users` is what
 * `service.getUsers()` returns.
 */
module UsersDelegate {
  import opened Wrappers
  import opened Effects
  import opened Relays
  import opened Engine
  import opened AppState
  import SiphonBuilders
  import opened Delegates
  import opened Composites
  import opened CompositeApp

  /**
   * `reduce<Change.SetUsers>`: the list becomes the change's users and the
   * button is enabled again; the clock is kept. The composite hands this
   * reducer only changes of its own class (the unchecked cast in the source
   * would fail on any other), so nothing is promised for them.
   */
  function StoreUsers(s: State, c: AppChange): (r: Effect<State, AppAction>)
    ensures c.UsersSetUsers? ==> (
      && r.state.users == c.users && r.state.getUsersEnabled && r.state.time == s.time
      && r.WithAction? && Actions(r) == [])
  {
    if c.UsersSetUsers? then SiphonBuilders.Only(s.(users := c.users, getUsersEnabled := true))
    else SiphonBuilders.Only(s)
  }

  /**
   * `reduce<Change.OnClickGetUsers>`: the button is disabled and one
   * `GetUsers` action is asked for; the clock and the list are kept.
   */
  function RequestUsers(s: State, c: AppChange): (r: Effect<State, AppAction>)
    ensures !r.state.getUsersEnabled && r.state.time == s.time && r.state.users == s.users
    ensures r.WithAction? && Actions(r) == [GetUsers]
  {
    SiphonBuilders.With(s.(getUsersEnabled := false), Some(GetUsers))
  }

  /** `register()`'s block: `changes { reduce<SetUsers>; reduce<OnClickGetUsers> }`. */
  function Block(): AppBlock
  {
    [ChangesSection([ReduceTag(UsersSetUsersClass, StoreUsers), ReduceTag(UsersOnClickGetUsersClass, RequestUsers)])]
  }

  /** The class keys the block registers. */
  const Keys: set<Tag> := {UsersSetUsersClass, UsersOnClickGetUsersClass}

  /**
   * Registering the block stores exactly two reducers, `StoreUsers` under
   * `SetUsers` and `RequestUsers` under `OnClickGetUsers`, and leaves
   * everything else of the registry as it was: in particular it adds no
   * action transformer and no event source.
   */
  lemma RegistersSetUsersAndClick(reg: AppRegistry)
    ensures var r := Registered(reg, Block());
      && r.reducers == reg.reducers[UsersSetUsersClass := StoreUsers][UsersOnClickGetUsersClass := RequestUsers]
      && r.eventSources == reg.eventSources
      && r.actionTransformers == reg.actionTransformers
      && r.stateInterceptors == reg.stateInterceptors
      && r.changeInterceptors == reg.changeInterceptors
      && r.actionInterceptors == reg.actionInterceptors
  {
    var b := Block();
    assert Init(b) == [] && Last(b) == b[0];
    var calls := b[0].changeCalls;
    assert Init(calls) == [calls[0]] && Init([calls[0]]) == [];
    assert Last(calls) == calls[1] && Last([calls[0]]) == calls[0];
    assert FlatMap([calls[0]], Delegates.ChangeAdds) == [];
    assert ReduceAll(reg.reducers, [calls[0]]) == reg.reducers[UsersSetUsersClass := StoreUsers];
    assert Registered(reg, b) == ApplySection(reg, b[0]);
  }

  /** On its own the block registers reducers under its two classes and no other. */
  lemma OwnsSetUsersAndClick()
    ensures BlockReducers(Block()).Keys == Keys
  {
    RegistersSetUsersAndClick(Registry(map[], [], [], [], [], []));
  }

  /**
   * With no transformer of its own, a `GetUsers` action yields no change
   * in a composite where no other delegate registers one.
   */
  lemma GetUsersYieldsNothing(reg: AppRegistry)
    requires reg.actionTransformers == []
    ensures TransformAll(Registered(reg, Block()).actionTransformers, GetUsers) == []
  {
    RegistersSetUsersAndClick(reg);
  }

  /** `register()`: registers the block with the composite, which refuses it once composed. */
  method Register(siphon: AppSiphon) returns (r: Outcome<string>)
    requires siphon.Valid()
    modifies if siphon.composition.Some? then {siphon.composition.value} else {}
    ensures siphon.Valid()
    ensures r == if old(siphon.composition).None? then Fail(RegisteredTooLate) else Pass
    ensures old(siphon.composition).Some? ==>
      siphon.composition.value.Contents() == Registered(old(siphon.composition.value.Contents()), Block())
  {
    r := siphon.RegisterDelegate(Block());
  }

  /**
   * `onEvent`: a click on "get users" is this delegate's, which fetches the
   * users, submits a `SetUsers` change carrying them and reports it
   * handled; a reset is not.
   */
  method OnEvent(siphon: AppSiphon, event: Event, users: seq<User>) returns (handled: bool)
    requires siphon.Valid()
    modifies siphon.changeSubject
    ensures siphon.Valid()
    ensures handled <==> event == OnClickGetUsers
    ensures siphon.changeSubject.items
         == if handled && |old(siphon.changeSubject.items)| < RelayCapacity
            then old(siphon.changeSubject.items) + [UsersSetUsers(users)]
            else old(siphon.changeSubject.items)
  {
    match event
    case OnClickGetUsers =>
      var _ := siphon.Change(UsersSetUsers(users));
      handled := true;
    case Reset =>
      handled := false;
  }
}
