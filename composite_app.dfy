/**
 * The types the sample app's composite siphon works over. The library types
 * a composite's changes as `Any` and keys its reducers by runtime class; the
 * app's changes are the two delegates' private `Change` classes, gathered
 * here into one type with one tag per class.
 */
module CompositeApp {
  import opened AppState
  import opened Delegates
  import opened Composites

  /**
   * `CountdownDelegate.Change` (`Tick`, `Reset`) and `UsersDelegate.Change`
   * (`OnClickGetUsers`, `SetUsers`): four classes, none shared between the
   * delegates.
   */
  datatype AppChange =
    | CountdownTick
    | CountdownReset
    | UsersOnClickGetUsers
    | UsersSetUsers(users: seq<User>)

  /** The runtime class of each change: the key of the composite's reducer registry. */
  datatype Tag = CountdownTickClass | CountdownResetClass | UsersOnClickGetUsersClass | UsersSetUsersClass

  /** `change::class`. */
  function TagOf(c: AppChange): Tag
  {
    match c
    case CountdownTick => CountdownTickClass
    case CountdownReset => CountdownResetClass
    case UsersOnClickGetUsers => UsersOnClickGetUsersClass
    case UsersSetUsers(_) => UsersSetUsersClass
  }

  /** `UsersDelegate.Action`. */
  datatype AppAction = GetUsers

  /** The screen's `Event`s the delegates route (`Event.OnClickGetUsers`, `Event.Reset`). */
  datatype Event = OnClickGetUsers | Reset

  /** `CompositeSiphon<State>` as the app uses it. */
  type AppSiphon = DefaultCompositeSiphon<State, AppChange, Tag, AppAction>

  /** A delegate's `registerDelegate { … }` block. */
  type AppBlock = seq<Section<State, AppChange, Tag, AppAction>>

  /** The registry the delegates write into. */
  type AppRegistry = Registry<State, AppChange, Tag, AppAction>
}
