# siphon — a Dafny model of the reduce pipeline

siphon is a small Kotlin library for unidirectional state management. A
`Siphon` holds a state. It merges three kinds of input into one stream of
*changes*:

- changes submitted with `change()`;
- the changes that action transformers produce from *actions*;
- event sources.

A reducer folds each change into the state. It returns an `Effect`: the new
state plus zero, one or many actions. The actions go to a bounded action relay,
and from there through the transformers back into the change stream.

A *composite* siphon splits this work among delegates. While the composite is in
its registration phase, each delegate registers reducers keyed by the runtime
class of their change, plus transformers, event sources and interceptors.
`compose()` ends that phase exactly once. From then on every change is reduced
by the reducer registered under its class, and a change with no reducer stops
the composite.

The model covers:

- the library's `Effect`, `Siphon`, `DefaultCompositeSiphon`, `SiphonBuilder`
  and `CompositeSiphonBuilder`;
- the sample app's monolithic view model;
- the sample app's composite with its countdown and users delegates.

## Modelling choices

- **Streams** are finite sequences of their elements. A DSL block
  (`changes { … }` and the like) is the sequence of calls it makes on its
  sub-builder, applied in order.
- **Relays.** Each relay is a `MutableSharedFlow` with no replay and a buffer of
  100, used only through `tryEmit`. It is a `Relay` class with a `seq` field
  that refuses an item when it is full.
- **The merged stream** is delivered one change at a time. The scheduler picks
  the source of the next change by calling one of three methods:
  - `PumpSubmitted`: the oldest change in the change relay;
  - `PumpEvent(i)`: the next change of event source `i`;
  - `PerformNextAction`: the oldest action, run through every transformer, with
    its changes delivered in order.

  Each method is specified against `Fold`/`Scan` of the reducer and against
  `OfferAll`, which says what a run of `tryEmit` calls leaves in a relay and
  what it refuses: the contracts state the new state, both relays, the
  cursors and the overload notices after the step. Ghost fields
  record what was delivered and where it came from, and the `Valid()` invariant
  ties the two together.
- **The composite's `scan`** uses `Routed`: the reducer registered under the
  change's class. Its invariant `Traced` states three things:
  - every delivered change had a reducer;
  - the scanned states are the routed fold;
  - the state subject has held the `distinctUntilChanged` of those states.
- **Backend, time and state.**
  - The backend is a parameter. `Monolith.Answers` takes a function from the
    request number to what that call of `getUsers()` returns, since the real
    service picks users at random on every call. The built siphon's
    transformer takes one list `users` for every call (see "Left out").
  - `kotlin.time.Duration` is a whole number of seconds.
  - The app's `State` is one datatype. The monolith's `State` in
    MainViewModel.kt and the composite's in composite/State.kt declare the same
    fields.
- **The composite app's changes.** The library types a composite's changes as
  `Any` and keys reducers by `KClass`. The app's four change classes form the
  datatype `AppChange`, and `TagOf` gives each change's class.
- **`emitActions`.** `compose()` calls `emitActions(actionSubject)` at
  siphon/src/main/java/com/shredder/siphon/CompositeSiphon.kt:147, which is not
  in the files modelled here. The model takes it to do what the single siphon
  does with an effect: offer each action to the action subject with `tryEmit`,
  then return the state.
- **`SiphonBuilder.build`** passes `reduceOn` and the three interceptor lists to
  a `Siphon` whose constructor declares none of them. The code is followed as
  far as it goes: the built `Siphon` gets the initial state, the reducer, the
  transformers and the event sources, and the interceptor lists stay in the
  builder. The scope (`liveIn`) is checked to be set and is passed on
  (siphon/src/main/java/com/shredder/siphon/SiphonBuilder.kt:83), but the
  `Siphon` uses it only to host the coroutine of `shareIn`
  (siphon/src/main/java/com/shredder/siphon/Siphon.kt:103), so the model's
  `Siphon` has no scope field.

## What is proved

**Effects and relays**

- `plus` keeps the state and appends exactly the non-null actions, in order.
- Offering actions to a full relay keeps the first ones that fit and drops the
  rest. Nothing is lost or reordered between what is kept and what is dropped.

**The single siphon**

- Each delivery extends the fold, the emitted states and the offered actions by
  exactly one reducer step. After performing an action, the state is the fold
  of its derived changes and the action relay is the waiting actions followed
  by what offering their actions keeps.
- Each source's changes reach the reducer in that source's own order.
- Every accepted action is either performed or still waiting.

**Builders**

- The last `reduce` of a `changes {}` block wins.
- `build` fails with the message of the first missing field.
- `whenState` ignores exactly the changes that `requireState` refuses.
- `perform<P>` sees only `P`s.
- `dispatch` collects every step's actions in order. With no actions it is
  `dispatchStateOnly` followed by `only`.

**The composite**

- Registration only appends to the lists, and a block's reducers override the
  old ones class by class.
- `registerDelegate` fails once `compose()` ran.
- A later `compose()` does nothing.
- For changes that all have a reducer, the composite's scan is the fold of the
  routed reducer.
- The state subject never sees two equal states in a row, and always holds the
  last state.

**The sample app**

- The monolith's clock counts the ticks since the last reset.
- A reset forgets everything before it.
- The button is disabled exactly while a click is unanswered.
- Every click asks for users exactly once, and comes back as one `SetUsers`
  carrying the answer of its own request.
- The two delegates own disjoint change classes that together cover every
  change, so the composed app never stops.
- The composed app agrees with the monolith on the clock always, and on the
  whole state until a reset. On a reset they differ: the countdown delegate's
  `Reset` keeps the users and the button, while the monolith's restores the
  defaults.

## Model

| member | source | states |
|---|---|---|
| `Effects.Actions` | siphon/src/main/java/com/shredder/siphon/Siphon.kt:87-100 | the actions `scan` sends for an effect: none for a `WithAction` with a null action, its one action otherwise, and the whole list for a `WithActions` |
| `Effects.Plus` | siphon/src/main/java/com/shredder/siphon/Siphon.kt:18-39 | `plus` keeps the state, and its actions are the old actions followed by the added one when that is not null |
| `Effects.PlusNullIsIdentity` | siphon/src/main/java/com/shredder/siphon/Siphon.kt:24-38 | adding `null` returns the same effect, in both shapes |
| `Effects.PlusPromotesToWithActions` | siphon/src/main/java/com/shredder/siphon/Siphon.kt:28 | adding an action to a `WithAction` that holds one gives a two-element `WithActions`, with the old action first |
| `Effects.PlusKeepsSingleShape` | siphon/src/main/java/com/shredder/siphon/Siphon.kt:27 | adding an action to an empty `WithAction` stays a `WithAction` |
| `Effects.PlusAllAppends` | siphon/src/main/java/com/shredder/siphon/Siphon.kt:18-39 | a chain of `plus` calls keeps the state and appends every non-null action in call order |
| `Relays.Relay.constructor` | siphon/src/main/java/com/shredder/siphon/Siphon.kt:71-72 | a new relay has the given capacity and holds nothing |
| `Relays.Relay.TryEmit` | siphon/src/main/java/com/shredder/siphon/Siphon.kt:71-72 | `tryEmit` succeeds exactly when the buffer has room, and then appends the item; otherwise nothing changes |
| `Relays.Relay.Take` | siphon/src/main/java/com/shredder/siphon/Siphon.kt:73-77 | the collector takes the oldest buffered item, or nothing when the buffer is empty |
| `Relays.OfferAllKeepsPrefix` | siphon/src/main/java/com/shredder/siphon/Siphon.kt:89-92 | offering items in a row keeps exactly the first ones that fit, after the buffered ones, and drops every later one |
| `Relays.OfferAllPartitions` | siphon/src/main/java/com/shredder/siphon/Siphon.kt:89-92 | every offered item is kept or dropped, in offer order; the buffer never exceeds its capacity and keeps its earlier items as a prefix |
| `Relays.OfferAllAppend` | siphon/src/main/java/com/shredder/siphon/Siphon.kt:89-92 | offering two lists one after the other, with nothing taken between, is offering their concatenation: same buffer, and the refusals of both offers in order |
| `Relays.Offer` | siphon/src/main/java/com/shredder/siphon/Siphon.kt:89-92 | one `tryEmit` per item, in order: the relay ends as `OfferAll` says, and the result counts the refused items |
| `Interceptors.WatchingInterceptor` | siphon/src/main/java/com/shredder/siphon/SiphonBuilder.kt:294-298 | `onEach { watcher(it) }` passes the stream on unchanged and calls the watcher once per element, in order |
| `Interceptors.WatchingIsTransparent` | siphon/src/main/java/com/shredder/siphon/SiphonBuilder.kt:297 | applying a watching interceptor returns the stream it was given |
| `Engine.Scan` | siphon/src/main/java/com/shredder/siphon/Siphon.kt:86-102 | `scan(initial)` emits one state more than there are changes, starting with the initial state and ending with the fold |
| `Engine.FoldSnoc` | siphon/src/main/java/com/shredder/siphon/Siphon.kt:86-102 | one more change extends the fold, the scan and the action log by exactly that change's reducer step |
| `Engine.OverloadsAppend` | siphon/src/main/java/com/shredder/siphon/Siphon.kt:90-96 | the overload notices of two rounds of refusals are those of their total |
| `Engine.OfferedSnoc` | siphon/src/main/java/com/shredder/siphon/Siphon.kt:86-102 | reducing one more change offers its actions after those of the earlier reductions: the relay is the same as offering all of them at once, and the notice counts add up |
| `Engine.ReducedFromSnoc` | siphon/src/main/java/com/shredder/siphon/Siphon.kt:86-102 | reducing one more change from a reached state and relay extends the fold and the offered actions by exactly that change |
| `Engine.FoldIsLeftFold` | siphon/src/main/java/com/shredder/siphon/Siphon.kt:86-102 | the first change is reduced against the initial state and the rest against its result |
| `Engine.FoldAppend` | siphon/src/main/java/com/shredder/siphon/Siphon.kt:86-102 | folding `xs` and then `ys` is folding `xs + ys` |
| `Engine.ScanAt` | siphon/src/main/java/com/shredder/siphon/Siphon.kt:86-102 | the `k`-th emitted state is the fold of the first `k` changes |
| `Engine.ReducedSnoc` | siphon/src/main/java/com/shredder/siphon/Siphon.kt:86-102 | reducing one more change against the current state keeps state, emitted states and offered actions equal to fold, scan and action log |
| `Engine.SourcedAdmit` | siphon/src/main/java/com/shredder/siphon/Siphon.kt:105-107 | a change the relay accepts is admitted and waits at the end of the relay |
| `Engine.SourcedSubmitted` | siphon/src/main/java/com/shredder/siphon/Siphon.kt:73-80 | delivering the oldest waiting submitted change keeps every source's changes accounted for, in order |
| `Engine.SourcedPerformedAll` | siphon/src/main/java/com/shredder/siphon/Siphon.kt:74-77 | delivering all changes of one performed action extends the performed changes by exactly those, in order |
| `Engine.SourcedEvent` | siphon/src/main/java/com/shredder/siphon/Siphon.kt:78-80 | delivering event source `i`'s next change advances that source's cursor only |
| `Engine.Siphon.constructor` | siphon/src/main/java/com/shredder/siphon/Siphon.kt:63-80 | a new siphon holds its initial state, has emitted only that state, has two distinct empty relays of capacity 100, no notices, and every event source at its start |
| `Engine.Siphon.Change` | siphon/src/main/java/com/shredder/siphon/Siphon.kt:105-107 | `change()` admits the change when the relay has room, and otherwise drops it with a change-buffer overload notice; the state is untouched |
| `Engine.Siphon.Step` | siphon/src/main/java/com/shredder/siphon/Siphon.kt:86-102 | one `scan` step: the state becomes the reducer's state, which is emitted, and the effect's actions are offered in order, with one overload notice per refused action |
| `Engine.Siphon.EmitActions` | siphon/src/main/java/com/shredder/siphon/Siphon.kt:87-100 | every action of a `WithActions`, and the action of a `WithAction` unless it is null, is offered in order, with a notice per refusal |
| `Engine.Siphon.OfferActions` | siphon/src/main/java/com/shredder/siphon/Siphon.kt:88-94 | the `forEach` over a `WithActions`: every action is offered in list order |
| `Engine.Siphon.PumpSubmitted` | siphon/src/main/java/com/shredder/siphon/Siphon.kt:73-102 | when a submitted change waits, the oldest one leaves the change relay and is reduced: the state becomes the reducer's, the action relay holds what offering the effect's actions leaves, and one overload notice is added per refused action; otherwise nothing changes. Cursors, admitted and performed records stay |
| `Engine.Siphon.PumpEvent` | siphon/src/main/java/com/shredder/siphon/Siphon.kt:78-102 | event source `i`'s next change is reduced and only its cursor advances: new state, action relay and notices as for a submitted change; an exhausted source changes nothing. The change relay stays |
| `Engine.Siphon.PerformNextAction` | siphon/src/main/java/com/shredder/siphon/Siphon.kt:74-102 | the oldest buffered action leaves the relay and is recorded as performed; the changes all transformers produce for it are delivered in order: the state is their fold, the relay is the remaining actions followed by those of the derived reductions that fit, with one notice per refused one. The waiting actions stay in front; an empty relay changes nothing |
| `Engine.Siphon.DeliverPerformed` | siphon/src/main/java/com/shredder/siphon/Siphon.kt:74-102 | the changes of one performed action are reduced one after the other: the state is their fold from the old state, the relay is what offering all their actions to the old relay leaves, the notices count every refusal, and the delivered changes are recorded as performed-derived |
| `Engine.Siphon.StepPerformed` | siphon/src/main/java/com/shredder/siphon/Siphon.kt:86-102 | one derived change is reduced, and the fold, relay and notices reached so far extend by exactly that change |
| `SiphonBuilders.Only` | siphon/src/main/java/com/shredder/siphon/SiphonBuilder.kt:135 | `only` gives a `WithAction` with the same state and no action |
| `SiphonBuilders.With` | siphon/src/main/java/com/shredder/siphon/SiphonBuilder.kt:138 | `state + action` gives a `WithAction` with the state and exactly the non-null action |
| `SiphonBuilders.WhenState` | siphon/src/main/java/com/shredder/siphon/SiphonBuilder.kt:164-168 | runs the block when the state is of the target subtype, and otherwise keeps the state with no action |
| `SiphonBuilders.RequireState` | siphon/src/main/java/com/shredder/siphon/SiphonBuilder.kt:191-195 | succeeds exactly when the state is of the target subtype, with the block's effect; otherwise fails with the change and the state |
| `SiphonBuilders.WhenStateAgreesWithRequireState` | siphon/src/main/java/com/shredder/siphon/SiphonBuilder.kt:164-195 | the two guards agree on the target subtype; outside it `whenState` ignores exactly the changes `requireState` refuses |
| `SiphonBuilders.Perform` | siphon/src/main/java/com/shredder/siphon/SiphonBuilder.kt:259-263 | `perform<P>` on an action gives the transformer's changes when it is a `P`, and nothing otherwise |
| `SiphonBuilders.PerformerSeesOnlyItsType` | siphon/src/main/java/com/shredder/siphon/SiphonBuilder.kt:259-263 | over a stream of actions, a `perform<P>` transformer yields what its block yields for the `P`s alone, in order |
| `SiphonBuilders.LastReduceWins` | siphon/src/main/java/com/shredder/siphon/SiphonBuilder.kt:113-115 | in a `changes {}` block the last `reduce` is the reducer the section leaves |
| `SiphonBuilders.NoReduceNoReducer` | siphon/src/main/java/com/shredder/siphon/SiphonBuilder.kt:56-62 | a `changes {}` block leaves no reducer exactly when it never calls `reduce` |
| `SiphonBuilders.NoInitialIsNull` | siphon/src/main/java/com/shredder/siphon/SiphonBuilder.kt:47-53 | a `state {}` block that never assigns `initial` leaves it null |
| `SiphonBuilders.BuildCheck` | siphon/src/main/java/com/shredder/siphon/SiphonBuilder.kt:74-84 | `build` passes exactly when initial state, reducer and scope are all set, and otherwise fails with the first missing one's message |
| `SiphonBuilders.BuildMessagesDiffer` | siphon/src/main/java/com/shredder/siphon/SiphonBuilder.kt:75-83 | the three `checkNotNull` messages are pairwise distinct |
| `SiphonBuilders.SiphonBuilder.constructor` | siphon/src/main/java/com/shredder/siphon/SiphonBuilder.kt:23-36 | a new builder has every field null and every list empty |
| `SiphonBuilders.SiphonBuilder.Life` | siphon/src/main/java/com/shredder/siphon/SiphonBuilder.kt:38-44 | `life {}` sets the scope to the last one the block assigns, null when none, and touches nothing else |
| `SiphonBuilders.SiphonBuilder.State` | siphon/src/main/java/com/shredder/siphon/SiphonBuilder.kt:47-53 | `state {}` sets the initial state to what the block leaves and appends its interceptors and watchers in order |
| `SiphonBuilders.SiphonBuilder.Changes` | siphon/src/main/java/com/shredder/siphon/SiphonBuilder.kt:56-62 | `changes {}` sets the reducer to the block's last `reduce`, null when none, and appends its interceptors and watchers in order |
| `SiphonBuilders.SiphonBuilder.Actions` | siphon/src/main/java/com/shredder/siphon/SiphonBuilder.kt:65-67 | `actions {}` appends transformers and action interceptors in call order, `perform<P>` as its filtering wrapper |
| `SiphonBuilders.SiphonBuilder.Events` | siphon/src/main/java/com/shredder/siphon/SiphonBuilder.kt:70-72 | `events {}` appends each source in call order |
| `SiphonBuilders.SiphonBuilder.Build` | siphon/src/main/java/com/shredder/siphon/SiphonBuilder.kt:74-84 | fails exactly as `BuildCheck` says; otherwise gives a fresh, valid siphon over the collected initial state, reducer, sources and transformers, with empty relays, no notices and every source at its start |
| `Delegates.ReduceLastWriterWins` | siphon/src/main/java/com/shredder/siphon/CompositeSiphonBuilder.kt:232-234 | the reducer stored under a class is the one of the last `reduce` for that class |
| `Delegates.ReduceOtherKeysUnchanged` | siphon/src/main/java/com/shredder/siphon/CompositeSiphonBuilder.kt:232-234 | a class the block does not register keeps its presence and its reducer |
| `Delegates.ReduceAllKeys` | siphon/src/main/java/com/shredder/siphon/CompositeSiphonBuilder.kt:232-239 | after a `changes {}` block a class has a reducer exactly when it had one before or the block registers one |
| `Delegates.InterceptOfAsWrittenIgnoresInput` | siphon/src/main/java/com/shredder/siphon/CompositeSiphonBuilder.kt:242-246 | as written, the interceptor `intercept<C>` registers gives the same output for every input stream |
| `Delegates.InterceptOfAsWrittenErasesChanges` | siphon/src/main/java/com/shredder/siphon/CompositeSiphonBuilder.kt:242-246 | as written, `intercept<C>` of a watching interceptor turns the stream of one change into the empty stream, though the watcher alone passes it on |
| `Delegates.InterceptOfPassesOtherChanges` | siphon/src/main/java/com/shredder/siphon/CompositeSiphonBuilder.kt:242-246 | the corrected `intercept<C>` leaves a stream without `C`s unchanged |
| `Delegates.InterceptOfWatchingIsTransparent` | siphon/src/main/java/com/shredder/siphon/CompositeSiphonBuilder.kt:242-246 | the corrected `intercept<C>` of a watching interceptor returns every stream unchanged |
| `Delegates.RegisteredAppends` | siphon/src/main/java/com/shredder/siphon/CompositeSiphonBuilder.kt:147-165 | registering a block only appends: every list keeps its old entries as a prefix, in order |
| `Delegates.RegisteredOverridesReducers` | siphon/src/main/java/com/shredder/siphon/CompositeSiphonBuilder.kt:147-165 | after a block the reducers are the old ones overridden by those the block registers, type by type |
| `Delegates.ReduceAllOverrides` | siphon/src/main/java/com/shredder/siphon/CompositeSiphonBuilder.kt:232-239 | a `changes {}` block overrides exactly the reducers it registers and keeps every other one |
| `Delegates.DispatchStateOnlyIsLeftFold` | siphon/src/main/java/com/shredder/siphon/CompositeSiphonBuilder.kt:376-382 | `dispatchStateOnly` is the left fold: the first partial reducer sees the input state |
| `Delegates.Dispatch` | siphon/src/main/java/com/shredder/siphon/CompositeSiphonBuilder.kt:339-358 | `dispatch` threads the state through the partial reducers and collects every step's actions in order; it returns a `WithAction` without action exactly when none was collected |
| `Delegates.DispatchWithoutActions` | siphon/src/main/java/com/shredder/siphon/CompositeSiphonBuilder.kt:339-358 | `dispatch` collects no action exactly when none of the steps it takes, each on the state handed on so far, yields one |
| `Delegates.QuietStepsSnoc` | siphon/src/main/java/com/shredder/siphon/CompositeSiphonBuilder.kt:339-358 | the steps over a list yield no action exactly when those over all but the last do and the last step does not |
| `Composites.DistinctUntilChanged` | siphon/src/main/java/com/shredder/siphon/CompositeSiphon.kt:149 | `distinctUntilChanged` never lengthens the stream and always keeps its first element |
| `Composites.DistinctKeepsLast` | siphon/src/main/java/com/shredder/siphon/CompositeSiphon.kt:149-154 | the last state of the scan always reaches the state subject |
| `Composites.DistinctHasNoRepeats` | siphon/src/main/java/com/shredder/siphon/CompositeSiphon.kt:149 | no two consecutive states pushed to the state subject are equal |
| `Composites.DistinctIsIdempotent` | siphon/src/main/java/com/shredder/siphon/CompositeSiphon.kt:149 | removing repeats twice removes nothing more |
| `Composites.DisjointDelegatesRouteToOwner` | siphon/src/main/java/com/shredder/siphon/CompositeSiphon.kt:139-147 | with reducers under disjoint classes, a change of one delegate's class runs that delegate's reducer, whichever order the delegates registered in |
| `Composites.TracedSnoc` | siphon/src/main/java/com/shredder/siphon/CompositeSiphon.kt:139-154 | reducing one more change that has a reducer extends the scan by its state, and the state subject's history by it unless it equals the previous state |
| `Composites.CompositeIsRoutedFold` | siphon/src/main/java/com/shredder/siphon/CompositeSiphon.kt:139-148 | while every change has a reducer, each state `scan` emits is the reducer registered under that change's class applied to the previous state |
| `Composites.Composition.constructor` | siphon/src/main/java/com/shredder/siphon/CompositeSiphon.kt:174-186 | a new composition has no reducers, transformers or sources, and the builder's interceptor lists |
| `Composites.Composition.State` | siphon/src/main/java/com/shredder/siphon/CompositeSiphonBuilder.kt:148-150 | a delegate's `state {}` appends its interceptors and watchers, and changes nothing else |
| `Composites.Composition.Changes` | siphon/src/main/java/com/shredder/siphon/CompositeSiphonBuilder.kt:153-155 | a delegate's `changes {}` stores each `reduce` under its class and appends its interceptors and watchers in order, `intercept<C>` in its corrected form |
| `Composites.Composition.Actions` | siphon/src/main/java/com/shredder/siphon/CompositeSiphonBuilder.kt:158-160 | a delegate's `actions {}` appends transformers and action interceptors in call order |
| `Composites.Composition.Events` | siphon/src/main/java/com/shredder/siphon/CompositeSiphonBuilder.kt:163-165 | a delegate's `events {}` appends each source in call order |
| `Composites.Composition.Register` | siphon/src/main/java/com/shredder/siphon/CompositeSiphon.kt:83-92 | running a delegate block leaves the composition as `Registered` says: its sections applied in order |
| `Composites.DefaultCompositeSiphon.constructor` | siphon/src/main/java/com/shredder/siphon/CompositeSiphon.kt:53-77 | a new composite is in its registration phase, with an empty registry, the builder's interceptors, the state subject holding the initial state and an empty change subject |
| `Composites.DefaultCompositeSiphon.RegisterDelegate` | siphon/src/main/java/com/shredder/siphon/CompositeSiphon.kt:80-94 | before `compose()` the block is applied to the shared composition; after it, the call fails with the library's message |
| `Composites.DefaultCompositeSiphon.Compose` | siphon/src/main/java/com/shredder/siphon/CompositeSiphon.kt:133-157 | the first `compose()` takes the composition and launches the operating phase on its registry with every source at its start; later calls change nothing |
| `Composites.DefaultCompositeSiphon.Change` | siphon/src/main/java/com/shredder/siphon/CompositeSiphon.kt:98-102 | a change is offered to the change subject, which accepts it exactly when it has room |
| `Composites.DefaultCompositeSiphon.Reduce` | siphon/src/main/java/com/shredder/siphon/CompositeSiphon.kt:139-154 | a change with no reducer for its class stops the phase with `Cannot find reducer`; otherwise the reducer's state becomes the value, it is published unless it equals the previous one, and the effect's actions are offered to the action subject |
| `Composites.DefaultCompositeSiphon.Record` | siphon/src/main/java/com/shredder/siphon/CompositeSiphon.kt:147-154 | the reduced state becomes the subject's value and is published unless it equals the previous state |
| `Composites.DefaultCompositeSiphon.PumpSubmitted` | siphon/src/main/java/com/shredder/siphon/CompositeSiphon.kt:136-162 | in the operating phase the oldest submitted change leaves the change subject; with no reducer for its class the phase stops on it and value, delivered changes, published states and actions stay; otherwise the value is its reducer's state, a new value is published, and the action subject holds what offering the effect's actions leaves. Before `compose()` or after a stop nothing is taken |
| `Composites.DefaultCompositeSiphon.PumpEvent` | siphon/src/main/java/com/shredder/siphon/CompositeSiphon.kt:136-170 | event source `i`'s next change is reduced as a submitted one would be, stopping the phase when it has no reducer, and only its cursor advances; the change subject stays |
| `Composites.DefaultCompositeSiphon.PerformNextAction` | siphon/src/main/java/com/shredder/siphon/CompositeSiphon.kt:136-169 | the oldest action leaves the action subject and its derived changes are delivered in order up to the first one without a reducer: the value is the routed fold of the delivered ones, the subject is the remaining actions followed by what their reductions offered, and the waiting actions stay in front |
| `Composites.DefaultCompositeSiphon.Deliver` | siphon/src/main/java/com/shredder/siphon/CompositeSiphon.kt:140-147 | one derived change is reduced with the reducer for its class, extending the routed fold and the offered actions by it, unless it has none; then the phase stops on it and value, published states and actions stay |
| `Composites.DefaultCompositeSiphon.DeliverDerived` | siphon/src/main/java/com/shredder/siphon/CompositeSiphon.kt:136-169 | derived changes are delivered as a prefix, in order; all of them unless one has no reducer, and then delivery stops at that one; the value is the routed fold of the delivered prefix and the action subject what offering their actions leaves |
| `CompositeBuilders.CompositeBuildCheck` | siphon/src/main/java/com/shredder/siphon/CompositeSiphonBuilder.kt:71-83 | `build` passes exactly when initial state and scope are set, and otherwise fails with the first missing one's message |
| `CompositeBuilders.CompositeSiphonBuilder.constructor` | siphon/src/main/java/com/shredder/siphon/CompositeSiphonBuilder.kt:29-38 | a new builder has no initial state, no scope and empty interceptor lists |
| `CompositeBuilders.CompositeSiphonBuilder.Life` | siphon/src/main/java/com/shredder/siphon/CompositeSiphonBuilder.kt:40-45 | `life {}` sets the scope to the last one the block assigns, null when none |
| `CompositeBuilders.CompositeSiphonBuilder.State` | siphon/src/main/java/com/shredder/siphon/CompositeSiphonBuilder.kt:48-55 | `state {}` sets the initial state to what the block leaves and appends its interceptors and watchers in order |
| `CompositeBuilders.CompositeSiphonBuilder.Changes` | siphon/src/main/java/com/shredder/siphon/CompositeSiphonBuilder.kt:107-109 | each `watchAll` of `changes {}` appends a watching interceptor, in order |
| `CompositeBuilders.CompositeSiphonBuilder.Actions` | siphon/src/main/java/com/shredder/siphon/CompositeSiphonBuilder.kt:126-128 | each `watchAll` of `actions {}` appends a watching interceptor, in order |
| `CompositeBuilders.CompositeSiphonBuilder.Build` | siphon/src/main/java/com/shredder/siphon/CompositeSiphonBuilder.kt:71-83 | fails exactly as `CompositeBuildCheck` says; otherwise a fresh composite in its registration phase over the collected state, scope and interceptors |
| `CompositeBuilders.CompositeSiphon` | siphon/src/main/java/com/shredder/siphon/CompositeSiphonBuilder.kt:16-23 | `compositeSiphon {}` fails exactly as `CompositeBuildCheck` says, with its message; otherwise it builds a composite in its registration phase over the collected initial state, scope and interceptors, with a fresh, empty action subject of capacity 100 |
| `AppState.StateAt` | app/src/main/java/com/shredder/siphonapp/composite/State.kt:8-12 | `State(time = t)` has the given time, the button enabled and no users |
| `Monolith.Reduce` | app/src/main/java/com/shredder/siphonapp/monolith/MonolithicMainViewModel.kt:42-53 | users re-enable the button, a tick adds a second, a reset restores the defaults, and a click disables the button and asks for exactly one `GetUsers` |
| `Monolith.ResetForgets` | app/src/main/java/com/shredder/siphonapp/monolith/MonolithicMainViewModel.kt:49 | after a reset the state is what the later changes make of the initial state, whatever came before |
| `Monolith.TicksAdvanceTime` | app/src/main/java/com/shredder/siphonapp/monolith/MonolithicMainViewModel.kt:48 | without a reset the time is the starting time plus the number of ticks |
| `Monolith.ClockCountsTicksSinceReset` | app/src/main/java/com/shredder/siphonapp/monolith/MonolithicMainViewModel.kt:48-49 | the clock shows the number of ticks since the last reset |
| `Monolith.AwaitingAfterTick` | app/src/main/java/com/shredder/siphonapp/monolith/MonolithicMainViewModel.kt:48 | a tick neither answers a click nor makes one |
| `Monolith.OnlyTicksAfterTick` | app/src/main/java/com/shredder/siphonapp/monolith/MonolithicMainViewModel.kt:48 | a run of ticks stays one after another tick, and only then |
| `Monolith.AwaitingKeptByTick` | app/src/main/java/com/shredder/siphonapp/monolith/MonolithicMainViewModel.kt:48 | an unanswered click stays unanswered after a tick |
| `Monolith.AwaitingBeforeTick` | app/src/main/java/com/shredder/siphonapp/monolith/MonolithicMainViewModel.kt:48 | a click unanswered after a tick was unanswered before it |
| `Monolith.AwaitingAfterClick` | app/src/main/java/com/shredder/siphonapp/monolith/MonolithicMainViewModel.kt:50-51 | a click is unanswered right after it is made |
| `Monolith.NotAwaitingAfterAnswer` | app/src/main/java/com/shredder/siphonapp/monolith/MonolithicMainViewModel.kt:44-49 | users or a reset answer every click |
| `Monolith.ButtonDisabledWhileAwaiting` | app/src/main/java/com/shredder/siphonapp/monolith/MonolithicMainViewModel.kt:44-51 | the button is disabled exactly while a click is unanswered, or, after only ticks, when it was disabled to begin with |
| `Monolith.ClicksRequestUsers` | app/src/main/java/com/shredder/siphonapp/monolith/MonolithicMainViewModel.kt:50-51 | the reductions ask for exactly one `GetUsers` per click, and nothing else |
| `Monolith.TicksAndReset` | app/src/main/java/com/shredder/siphonapp/monolith/MonolithicMainViewModel.kt:36-49 | from the initial state, Tick, Tick, Reset, Tick show the times 0, 1, 2, 0, 1 |
| `Monolith.FetchUsers` | app/src/main/java/com/shredder/siphonapp/monolith/MonolithicMainViewModel.kt:71-74 | `perform<GetUsers>` answers a `GetUsers` with one `SetUsers` carrying the service's users |
| `Monolith.FetchEach` | app/src/main/java/com/shredder/siphonapp/BackendService.kt:24-29 | performing `n` requests yields `n` arrivals in order, the `k`-th with what the `k`-th call of the randomised service returned |
| `Monolith.EachClickFetchesOnce` | app/src/main/java/com/shredder/siphonapp/monolith/MonolithicMainViewModel.kt:50-74 | every click of the reduced changes comes back as exactly one `SetUsers`, in click order, each with the answer of its own request |
| `Monolith.AnswersFromOneService` | app/src/main/java/com/shredder/siphonapp/monolith/MonolithicMainViewModel.kt:71-74 | when every call returns the same users, the per-request answers are exactly what the built siphon's single transformer produces |
| `Monolith.TickSource` | app/src/main/java/com/shredder/siphonapp/monolith/MonolithicMainViewModel.kt:79-88 | the first `n` changes of the ticking source are all ticks |
| `Monolith.BlocksSetEveryField` | app/src/main/java/com/shredder/siphonapp/monolith/MonolithicMainViewModel.kt:30-89 | the view model's blocks set the scope, the initial state and the reducer, and register the one `perform<GetUsers>` transformer |
| `Monolith.MonolithSiphon` | app/src/main/java/com/shredder/siphonapp/monolith/MonolithicMainViewModel.kt:30-89 | the built siphon starts at the initial state with the reducer, the fetching transformer, the ticking source at its first tick, empty relays and no notices |
| `Monolith.ResetClicked` | app/src/main/java/com/shredder/siphonapp/monolith/MonolithicMainViewModel.kt:91-93 | `reset()` submits a `Reset`: with room in the change relay it is queued and admitted, otherwise it is dropped with one change-buffer overload notice; state, delivered changes, emitted states, cursors and the action relay stay |
| `Monolith.GetUsersClicked` | app/src/main/java/com/shredder/siphonapp/monolith/MonolithicMainViewModel.kt:95-97 | `getUsers()` submits a `OnClickGetUsers`: with room in the change relay it is queued and admitted, otherwise it is dropped with one change-buffer overload notice; state, delivered changes, emitted states, cursors and the action relay stay |
| `CountdownDelegate.ResetTime` | app/src/main/java/com/shredder/siphonapp/composite/delegates/CountdownDelegate.kt:24-26 | `reduce<Reset>` sets the time to zero, keeps the users and the button, and asks for nothing |
| `CountdownDelegate.AddSecond` | app/src/main/java/com/shredder/siphonapp/composite/delegates/CountdownDelegate.kt:27-29 | `reduce<Tick>` adds one second and changes nothing else |
| `CountdownDelegate.Ticks` | app/src/main/java/com/shredder/siphonapp/composite/delegates/CountdownDelegate.kt:31-40 | the first `n` changes of the delegate's source are all ticks |
| `CountdownDelegate.RegistersResetAndTick` | app/src/main/java/com/shredder/siphonapp/composite/delegates/CountdownDelegate.kt:21-42 | the block stores `ResetTime` under `Reset` and `AddSecond` under `Tick`, appends the ticking source, and leaves the rest of the registry as it was |
| `CountdownDelegate.OwnsResetAndTick` | app/src/main/java/com/shredder/siphonapp/composite/delegates/CountdownDelegate.kt:23-30 | on its own the block registers reducers under exactly its two classes |
| `CountdownDelegate.Register` | app/src/main/java/com/shredder/siphonapp/composite/delegates/CountdownDelegate.kt:21-42 | `register()` applies the block before `compose()` and fails after it |
| `CountdownDelegate.OnEvent` | app/src/main/java/com/shredder/siphonapp/composite/delegates/CountdownDelegate.kt:44-51 | a reset is handled by submitting `Reset`; a click is not this delegate's |
| `UsersDelegate.StoreUsers` | app/src/main/java/com/shredder/siphonapp/composite/delegates/UsersDelegate.kt:28-33 | `reduce<SetUsers>` stores the change's users, re-enables the button, keeps the time and asks for nothing |
| `UsersDelegate.RequestUsers` | app/src/main/java/com/shredder/siphonapp/composite/delegates/UsersDelegate.kt:34-36 | `reduce<OnClickGetUsers>` disables the button, keeps time and users, and asks for one `GetUsers` |
| `UsersDelegate.RegistersSetUsersAndClick` | app/src/main/java/com/shredder/siphonapp/composite/delegates/UsersDelegate.kt:26-38 | the block stores its two reducers under their classes and adds no transformer, source or interceptor |
| `UsersDelegate.OwnsSetUsersAndClick` | app/src/main/java/com/shredder/siphonapp/composite/delegates/UsersDelegate.kt:27-37 | on its own the block registers reducers under exactly its two classes |
| `UsersDelegate.GetUsersYieldsNothing` | app/src/main/java/com/shredder/siphonapp/composite/delegates/UsersDelegate.kt:26-38 | with no transformer registered, a `GetUsers` action yields no change |
| `UsersDelegate.Register` | app/src/main/java/com/shredder/siphonapp/composite/delegates/UsersDelegate.kt:25-39 | `register()` applies the block before `compose()` and fails after it |
| `UsersDelegate.OnEvent` | app/src/main/java/com/shredder/siphonapp/composite/delegates/UsersDelegate.kt:41-49 | a click is handled by submitting `SetUsers` with the service's users; a reset is not this delegate's |
| `CompositeMain.ComposedRegistry` | app/src/main/java/com/shredder/siphonapp/composite/CompositeMainSiphon.kt:35-40 | the delegates own disjoint classes, the composed reducers are the union of theirs and cover every change, and the registry holds the ticking source and no transformer |
| `CompositeMain.ComposedSources` | app/src/main/java/com/shredder/siphonapp/composite/delegates/CountdownDelegate.kt:31-40 | the composed app has exactly one event source, the countdown's ticks, so it starts with one cursor at 0 |
| `CompositeMain.RoutesToOwner` | siphon/src/main/java/com/shredder/siphon/CompositeSiphon.kt:139-147 | in the composed app every change runs the reducer of the delegate that owns its class |
| `CompositeMain.NeverStops` | siphon/src/main/java/com/shredder/siphon/CompositeSiphon.kt:140-146 | the composed app has a reducer for every change, so it never stops |
| `CompositeMain.ClockAgreesWithMonolith` | app/src/main/java/com/shredder/siphonapp/composite/delegates/CountdownDelegate.kt:24-29 | the composite app and the monolith show the same time for the same changes, resets included |
| `CompositeMain.StateAgreesWithMonolithUntilReset` | app/src/main/java/com/shredder/siphonapp/composite/delegates/UsersDelegate.kt:28-36 | without a reset the two apps reach the same state |
| `CompositeMain.MainSiphon` | app/src/main/java/com/shredder/siphonapp/composite/CompositeMainSiphon.kt:19-40 | the app composite ends composed on both delegates' registry, with its ticking source at its start, holding and having published only the initial state |
| `CompositeMain.OnEvent` | app/src/main/java/com/shredder/siphonapp/composite/CompositeMainSiphon.kt:25-33 | every event is handled by exactly one delegate, which submits its answer when the change subject has room |
| `CompositeMain.TicksAndReset` | app/src/main/java/com/shredder/siphonapp/composite/delegates/CountdownDelegate.kt:24-29 | from the default state the composed app's clock shows 0, 1, 2, 0, 1 for Tick, Tick, Reset, Tick |

## Left out

- Coroutines, `Flow` laziness and the real interleaving of `merge`/`flatMapMerge` are not modelled. A scheduler picks the next delivery instead. The changes derived from one action are delivered together, in transformer order.
- `println` diagnostics are not modelled, except the single siphon's two overload messages, which become notices.
- `reduceOn`, dispatchers and `observeOn`/`watchOn` are left out: they change where code runs, not what it computes.
- The interceptor lists are recorded but not applied to the running streams. `intercept(list)` and the library-wide `watchAll` are outside the files modelled here.
- `emitActions` is not part of this model; its assumed behaviour is stated above.
- The `onSubscription` check on the composite's `change` (CompositeSiphon.kt:98-102) is not modelled because it never runs: `changeSubject.apply { onSubscription { … } }` builds a new flow and discards it, so `change` is `changeSubject` itself, and the composite's own collector (CompositeSiphon.kt:162) subscribes to `changeSubject` directly.
- `change.emit` in the delegates is modelled as `tryEmit`: when the subject is full, the suspension is not modelled and the change is not added.
- Infinite event sources are finite prefixes of `n` ticks, and `delay` is not modelled.
- `BackendService.getUsers` and its randomness are a parameter: `Monolith.Answers` takes the answer of each request (`service(k)` for the `k`-th), so any sequence of random picks is covered.
- `CompositeMain.MainSiphon`: the `delegates` list of CompositeMainSiphon.kt:15 is a constructor parameter built elsewhere; the model takes it to be exactly the countdown delegate followed by the users delegate. Their reducer keys are disjoint, so `Composites.DisjointDelegatesRouteToOwner` makes the routing the same in either order.
- `Monolith.MonolithSiphon`: the built siphon's `perform<GetUsers>` transformer answers every request with the same `users`, because the engine's transformers are functions of the action alone. The per-request answers are `Monolith.Answers` and `Monolith.EachClickFetchesOnce`; `Monolith.AnswersFromOneService` shows the two agree when every call returns the same users.
- `watch<T>` of the single siphon's `changes {}` (siphon/src/main/java/com/shredder/siphon/SiphonBuilder.kt:128-132) is not modelled: its watcher builds `flowOf(change).filterIsInstance<T>().onEach { … }` and discards that flow, which nothing collects, so the user's watcher never runs.
- `watch<T>` of a delegate's `changes {}` (siphon/src/main/java/com/shredder/siphon/CompositeSiphonBuilder.kt:249-253), the `is T` test wrapped around `watchAll`, is not modelled separately.
- `Composites.Composition.Changes`: for `intercept<C>` the registry records the corrected per-change interceptor `Delegates.TypedInterceptor`, not the lambda of CompositeSiphonBuilder.kt:243-245, which as written erases every change (see Findings; `Delegates.InterceptOfAsWritten` models that lambda).
- `Delegates.ChangeAdds`: records the same corrected `Delegates.TypedInterceptor` for an `intercept<C>` call of a delegate block.
- `Duration` is unbounded whole seconds: there is no overflow and no sub-second part.
- Aliasing between the builder's interceptor lists and the composition's is not modelled. The composition gets a copy.
- The built `Siphon` does not take the builder's interceptor lists or `reduceOn`, as its constructor declares neither. It does take the scope (Siphon.kt:68, passed at SiphonBuilder.kt:83), which only hosts the coroutine of `shareIn` (Siphon.kt:103); coroutines are left out, so the model drops it.
- `Composites.DistinctUntilChanged`: compares states by value, whereas the source compares by identity. The `StateFlow` the states then feed drops equal values, so subscribers see the same sequence.
- `UsersDelegate.StoreUsers`: promises nothing for a change of another class. The composite never hands it one, and the source's unchecked cast would fail on it.
- The composite app's `Event` type is not part of this model's source files. Its two cases are inferred from the exhaustive `when`s of the delegates.
- `UsersDelegate` never submits its `OnClickGetUsers` change, so in the composite app the button is never disabled. The model keeps this as written.
- MainActivity, the view models' `Flow` mappings to text and the other `MainViewModel` implementations are not modelled: they are UI wiring.

## Findings

| source | as written | input that shows it | evidently intended | confidence | as-written member | corrected member |
|---|---|---|---|---|---|---|
| siphon/src/main/java/com/shredder/siphon/CompositeSiphonBuilder.kt:242-246 | the lambda that `intercept<C>` registers takes the whole change stream as its parameter, so `flowOf(change).filterIsInstance<C>()` wraps that stream in a one-element stream whose element is the stream object, so for every `C` that object is not an instance of (every change type; with `C = Any` the filter would keep it) the user's interceptor always receives the empty stream | any change stream such as `[c]`, under `intercept<C>` of a pass-through or watching interceptor: the stream comes out empty, erasing every change | the interceptor sees the changes of type `C`, and every other change passes through unchanged | not executed | `Delegates.InterceptOfAsWrittenErasesChanges` | `Delegates.InterceptOfWatchingIsTransparent` |
