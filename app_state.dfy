/**
 * The sample app's screen state (`State` in MainViewModel.kt, and the
 * identical one in composite/State.kt) and the `User` the backend returns.
 * `Duration` is modelled as a whole number of seconds.
 */
module AppState {
  /** `User(name)`. */
  datatype User = User(name: string)

  /** `State(time, getUsersEnabled, users)`; `time` in seconds. */
  datatype State = State(time: int, getUsersEnabled: bool, users: seq<User>)

  /**
   * `State(time = t)`: the given time with every other field at its default,
   * the button enabled and no users.
   */
  function StateAt(t: int): (r: State)
    ensures r.time == t && r.getUsersEnabled && r.users == []
  {
    State(t, true, [])
  }

  /** `State()` / `State(time = Duration.ZERO)`: the state both apps start in. */
  const Initial: State := StateAt(0)
}
