# miyo: MVVM navigation, lifecycle and utilities in Dafny

This project models the core of miyo, a Unity app for children with a parent login. Screens and popups follow an MVVM scheme: a view-model type maps to a kebab-case screen id; the id is looked up in a screen registry; the prefab found there is instantiated; its view is bound to a fresh view-model and animated in. Two routers manage the result:

- the navigation service keeps a LIFO stack of hidden screens, the current screen, and a flag that drops calls made during a transition;
- the popup service keeps a LIFO stack of popups and a dim background.

Around the routers sit their parts:

- the reactive primitives: an observable property with disposable subscriptions, a composite disposable, and a list that announces its changes;
- the one-shot lifecycle of view-models, including the settle-once result of a popup view-model;
- the bind/unbind pairing of views and the hook order of their animations;
- a pooled UI list that keeps its active elements before its reusable ones.

The model also covers the app's general utilities: a bounded undo history, an event bus, a service locator, an object pool, a state machine, a countdown timer, and a random pick and Fisher-Yates shuffle. Finally it models the domain logic:

- play-time statistics over date windows;
- game catalogue lookups;
- child-profile CRUD;
- the pure parts of email/PIN authentication;
- the field validators and the two input fields.

Every component keeps the source's own form:

- code that updates objects in place is a `class`, whose methods say exactly what the new state is;
- loops are `while` loops with their invariants;
- pure lookups and string functions are functions with lemmas.

Calls into code outside the model are recorded in a trace or log field of the object that makes them. These include view-model hooks, subscriber callbacks, disposals, animations, and backend and cloud requests. This makes the order of those calls part of the proved state. An awaited animation is an opaque step that returns. Each router operation is split at its first await into the guard that may drop it and the rest, which clears the transition flag on every path. Thrown exceptions are `Result` errors, and null references are `Option`s.

Behaviours that the code shows and the model keeps as written:

- A failed `NavigateTo` leaves the previous screen both current and on top of the stack. A `GoBack` after that disposes and destroys that screen as the current one, then pops the same instance and shows it again as current.
- A failed `ClearAndNavigateTo` leaves the destroyed previous screen recorded as current.
- `CloseTop` pops the top popup without any identity check. Only the popup's own close request checks that the popup is still the top.
- A popup view in animator mode calls `OnAppearing` (and `OnDisappearing`) twice, once in its override and once in the base method it delegates to.
- The mail check accepts an address followed by one line feed, because `$` in .NET regular expressions also matches before a final `\n`.
- The password-match hook always passes, because the password field stores its value before raising its input event. The confirmation field is not revalidated when the password changes.
- A history bound of 0 does not bound the undo history.

## Model

| member | source | states |
|---|---|---|
| `ViewModelIdHelper.StripSuffix` | Assets/App/UI/Framework/MVVM/ViewModelIdHelper.cs:18-21 | a name ending in "ViewModel" loses exactly that suffix (the rest plus the suffix gives the name back); any other name is kept whole |
| `ViewModelIdHelper.RemoveDashesAppend` | Assets/App/UI/Framework/MVVM/ViewModelIdHelper.cs:30-37 | dash removal distributes over concatenation of the builder's pieces |
| `ViewModelIdHelper.KebabLength` | Assets/App/UI/Framework/MVVM/ViewModelIdHelper.cs:31-36 | after n loop steps the builder holds n characters plus one dash per upper-case letter past index 0 |
| `ViewModelIdHelper.KebabPrefix` | Assets/App/UI/Framework/MVVM/ViewModelIdHelper.cs:31-36 | the builder only grows: its contents after n steps are a prefix of its contents after m >= n steps |
| `ViewModelIdHelper.ToKebabCaseLength` | Assets/App/UI/Framework/MVVM/ViewModelIdHelper.cs:26-38 | the kebab-case output is as long as the input plus the number of upper-case letters after the first character |
| `ViewModelIdHelper.KebabAt` | Assets/App/UI/Framework/MVVM/ViewModelIdHelper.cs:31-36 | each input character lands lowered at its index shifted by the dashes before it, with a '-' in front exactly when it is upper case and not first |
| `ViewModelIdHelper.KebabHasNoUpper` | Assets/App/UI/Framework/MVVM/ViewModelIdHelper.cs:31-36 | no loop step appends an upper-case letter |
| `ViewModelIdHelper.ToKebabCaseLowerOnly` | Assets/App/UI/Framework/MVVM/ViewModelIdHelper.cs:26-38 | the output contains no upper-case letter |
| `ViewModelIdHelper.ToKebabCaseFirst` | Assets/App/UI/Framework/MVVM/ViewModelIdHelper.cs:33-35 | a non-empty output starts with the lowered first character, never with an inserted dash |
| `ViewModelIdHelper.KebabUndash` | Assets/App/UI/Framework/MVVM/ViewModelIdHelper.cs:31-36 | for a dash-free name, deleting the dashes from the builder after n steps gives the first n characters lowered |
| `ViewModelIdHelper.PieceUndash` | Assets/App/UI/Framework/MVVM/ViewModelIdHelper.cs:33-35 | one loop step contributes, besides an optional dash, exactly the lowered character |
| `ViewModelIdHelper.ToKebabCaseUndash` | Assets/App/UI/Framework/MVVM/ViewModelIdHelper.cs:26-38 | inverse view: for a name without '-', removing the dashes from the output gives the lower-cased name, so only letter case is lost |
| `ViewModelIdHelper.GetIdSuffix` | Assets/App/UI/Framework/MVVM/ViewModelIdHelper.cs:16-24 | GetId strips the suffix only when present and maps the bare name "ViewModel" to "" |
| `ViewModelIdHelper.KebabParentLogin` | Assets/App/UI/Framework/MVVM/ViewModelIdHelper.cs:7 | "ParentLogin" becomes "parent-login" |
| `ViewModelIdHelper.KebabHome` | Assets/App/UI/Framework/MVVM/ViewModelIdHelper.cs:8 | "Home" becomes "home" |
| `ViewModelIdHelper.KebabGameSelect` | Assets/App/UI/Framework/MVVM/ViewModelIdHelper.cs:9 | "GameSelect" becomes "game-select" |
| `ViewModelIdHelper.GetIdExamples` | Assets/App/UI/Framework/MVVM/ViewModelIdHelper.cs:6-10 | the documented type-name to screen-id examples hold for GetId |
| `ScreenRegistry.Registry.FindFrom` | Assets/App/UI/Framework/Navigation/ScreenRegistry.cs:21-25 | the scan stops at the first matching entry from `from` on, or finds none when no later entry matches |
| `ScreenRegistry.Registry.GetPrefab` | Assets/App/UI/Framework/Navigation/ScreenRegistry.cs:19-29 | the prefab of the lowest-index entry with the id; null when no entry has it |
| `ScreenRegistry.Registry.HasScreen` | Assets/App/UI/Framework/Navigation/ScreenRegistry.cs:31-39 | true exactly when some entry has the id |
| `ScreenRegistry.GetPrefabImpliesHasScreen` | Assets/App/UI/Framework/Navigation/ScreenRegistry.cs:19-39 | a prefab returned for an id means HasScreen holds for it |
| `ScreenRegistry.HasScreenWithoutPrefab` | Assets/App/UI/Framework/Navigation/ScreenRegistry.cs:19-39 | the converse fails: an entry with an empty prefab slot is reported by HasScreen while GetPrefab yields null |
| `ScreenRegistry.LaterEntriesShadowed` | Assets/App/UI/Framework/Navigation/ScreenRegistry.cs:21-25 | entries after a matching one never change the lookup: later duplicates are shadowed |
| `CommandHistory.TrimmedAsWritten` | Assets/App/Core/Commands/CommandHistory.cs:38-50 | the trim keeps the stack's top Count - maxHistory commands, in order |
| `CommandHistory.KeepNewest` | Assets/App/Core/Commands/CommandHistory.cs:23-24 | the intended bound: the newest min(Count, maxHistory) commands, in order |
| `CommandHistory.TrimCollapsesFullHistory` | Assets/App/Core/Commands/CommandHistory.cs:18-50 | overflowing a full history by one leaves only the newest command, where the intended trim keeps maxHistory of them |
| `CommandHistory.TwentyFirstCommandCollapses` | Assets/App/Core/Commands/CommandHistory.cs:13-50 | with the default bound 20, the 21st command leaves a history of one |
| `CommandHistory.ZeroBoundKeepsAll` | Assets/App/Core/Commands/CommandHistory.cs:38-50 | with a bound of 0 the trim moves every command out and back, so the history is not bounded |
| `CommandHistory.CommandHistory.constructor` | Assets/App/Core/Commands/CommandHistory.cs:13-16 | a new history is empty and keeps the given bound |
| `CommandHistory.CommandHistory.CanUndo` | Assets/App/Core/Commands/CommandHistory.cs:11 | undo is possible exactly when the stack is non-empty |
| `CommandHistory.CommandHistory.Execute` | Assets/App/Core/Commands/CommandHistory.cs:18-25 | the command runs once and ends on top; under the bound it is simply pushed, over it the stack is trimmed as written; from a bounded stack with maxHistory >= 1 the bound is kept |
| `CommandHistory.CommandHistory.Undo` | Assets/App/Core/Commands/CommandHistory.cs:27-31 | an empty history is left alone; otherwise the top command is popped and undone, and nothing else |
| `CommandHistory.CommandHistory.Clear` | Assets/App/Core/Commands/CommandHistory.cs:33-36 | the stack is emptied without undoing anything |
| `CommandHistory.CommandHistory.TrimOldest` | Assets/App/Core/Commands/CommandHistory.cs:38-50 | the two loops together leave exactly the top Count - maxHistory commands in their original order |
| `CommandHistory.CommandHistory.PopAbove` | Assets/App/Core/Commands/CommandHistory.cs:40-44 | the first loop leaves the bottom maxHistory commands and holds the others in reverse in the temporary stack |
| `CommandHistory.CommandHistory.PushBack` | Assets/App/Core/Commands/CommandHistory.cs:46-49 | the second loop appends the temporary stack reversed, restoring the original order |
| `StateMachine.TransitionCalls` | Assets/App/Core/StateMachine/StateMachine.cs:7-12 | a transition exits the old state (if any) first and enters the new state (if any) last |
| `StateMachine.StateMachine.constructor` | Assets/App/Core/StateMachine/StateMachine.cs:5 | a new machine has no current state and has made no calls |
| `StateMachine.StateMachine.TransitionTo` | Assets/App/Core/StateMachine/StateMachine.cs:7-12 | the new state becomes current, after exactly the calls TransitionCalls lists |
| `StateMachine.StateMachine.Update` | Assets/App/Core/StateMachine/StateMachine.cs:14-17 | a frame update reaches the current state only, and nothing happens without one |
| `StateMachine.SelfTransition` | Assets/App/Core/StateMachine/StateMachine.cs:7-12 | re-entering the current state exits it and then enters it again |
| `StateMachine.ChainAlternates` | Assets/App/Core/StateMachine/StateMachine.cs:7-12 | over a chain of transitions each state is exited before the next one is entered |
| `CollectionExtensions.GetRandom` | Assets/App/Core/Extensions/CollectionExtensions.cs:8-14 | the default for an empty list, otherwise the element at the drawn index |
| `Lists.Swap` | Assets/App/Core/Extensions/CollectionExtensions.cs:21 | the tuple assignment exchanges the two positions and touches no other |
| `Lists.SwapPermutation` | Assets/App/Core/Extensions/CollectionExtensions.cs:21 | a swap keeps the multiset of elements |
| `CollectionExtensions.ShuffledPermutation` | Assets/App/Core/Extensions/CollectionExtensions.cs:16-23 | the shuffle steps keep the length and the multiset of elements |
| `CollectionExtensions.ShuffledKeepsAbove` | Assets/App/Core/Extensions/CollectionExtensions.cs:18-22 | positions above the loop index are never touched by the remaining steps |
| `CollectionExtensions.ShuffleShort` | Assets/App/Core/Extensions/CollectionExtensions.cs:18 | lists of at most one element are left as they are |
| `CollectionExtensions.ShuffleInPlace` | Assets/App/Core/Extensions/CollectionExtensions.cs:16-23 | the in-place loop leaves the array equal to the shuffle of its old contents for the drawn indices, a permutation of them; at every turn the positions above the loop index already hold their final values |
| `CollectionExtensions.KeptAbove` | Assets/App/Core/Extensions/CollectionExtensions.cs:18-22 | once the loop has reached index i, the remaining steps leave every position above i as it is |
| `EmptyFieldValidator.EmptyFieldValidator.constructor` | Assets/App/UI/Framework/EmptyFieldValidator.cs:11-14 | the error label starts empty |
| `EmptyFieldValidator.EmptyFieldValidator.Validate` | Assets/App/UI/Framework/EmptyFieldValidator.cs:16-25 | accepts exactly the non-null, non-empty values; the label shows the message exactly on rejection |
| `EmptyFieldValidator.WhiteSpaceIsNotEmpty` | Assets/App/UI/Framework/EmptyFieldValidator.cs:18 | a lone space passes; null and "" do not |
| `PasswordValidator.PasswordValidator.constructor` | Assets/App/UI/Framework/PasswordValidator.cs:12-15 | the error label starts empty |
| `PasswordValidator.PasswordValidator.Validate` | Assets/App/UI/Framework/PasswordValidator.cs:17-26 | accepts exactly the values whose length in UTF-16 code units (`string.Length`) is at least the minimum; the label shows the message exactly on rejection |
| `PasswordValidator.DefaultBoundary` | Assets/App/UI/Framework/PasswordValidator.cs:8-26 | with the default minimum of 4, four characters pass and three do not, and two characters outside the Basic Multilingual Plane pass as four code units |
| `GameDatabase.GameDatabase.GetGame` | Assets/App/Data/GameDatabase.cs:15-16 | null exactly when no game has the name, otherwise the first game that has it |
| `GameDatabase.GameDatabase.GetCategory` | Assets/App/Data/GameDatabase.cs:18-19 | null exactly when no category has the name, otherwise the first category that has it |
| `GameDatabase.LaterGameShadowed` | Assets/App/Data/GameDatabase.cs:15-16 | a game listed after another of the same name is never returned |
| `ViewModels.SettledIsFinal` | Assets/App/UI/Framework/MVVM/PopupViewModel.cs:11-24 | once the result is set or canceled, no later SetResult, Cancel or dispose changes it |
| `ViewModels.FirstPokeWins` | Assets/App/UI/Framework/MVVM/PopupViewModel.cs:11-24 | a pending result settles on the first call: to its value for SetResult, to canceled for Cancel or dispose |
| `ViewModels.ViewModel.constructor` | Assets/App/UI/Framework/MVVM/ViewModelBase.cs:9-15 | a new view-model is neither initialised nor disposed, owns a fresh empty Disposables, and its result is pending |
| `ViewModels.ViewModel.InitializeInternal` | Assets/App/UI/Framework/MVVM/ViewModelBase.cs:17-22 | Initialize runs on the first call only; later calls change nothing; at most one Initialize is ever recorded |
| `ViewModels.ViewModel.RunHook` | Assets/App/UI/Framework/MVVM/ViewModelBase.cs:26-32 | an appearance hook is recorded once and keeps the one-shot invariant |
| `ViewModels.ViewModel.Dispose` | Assets/App/UI/Framework/MVVM/ViewModelBase.cs:34-40 | the first call runs OnDispose and then disposes Disposables newest first; later calls change nothing; a popup's pending result becomes canceled |
| `ViewModels.ViewModel.OnDisposeHook` | Assets/App/UI/Framework/MVVM/PopupViewModel.cs:21-24 | the override cancels a popup's result if it is still pending and leaves a plain view-model's alone |
| `ViewModels.ViewModel.SetResult` | Assets/App/UI/Framework/MVVM/PopupViewModel.cs:11-14 | a pending result takes the value; a settled one is unchanged |
| `ViewModels.ViewModel.Cancel` | Assets/App/UI/Framework/MVVM/PopupViewModel.cs:16-19 | a pending result becomes canceled; a settled one is unchanged |
| `ReactiveProperty.NotifyRoundAt` | Assets/App/UI/Framework/MVVM/ReactiveProperty.cs:53-60 | the k-th call of a notification round goes to the (k+1)-th subscriber counted from the end |
| `ReactiveProperty.NotifyRoundLength` | Assets/App/UI/Framework/MVVM/ReactiveProperty.cs:53-60 | a round calls each subscriber exactly once |
| `ReactiveProperty.NotifyRoundIsReverse` | Assets/App/UI/Framework/MVVM/ReactiveProperty.cs:53-60 | a round is the subscriber list reversed, each call carrying the current value |
| `ReactiveProperty.ReactiveProperty.constructor` | Assets/App/UI/Framework/MVVM/ReactiveProperty.cs:15-18 | a new property holds the initial value, no subscribers, and is not disposed |
| `ReactiveProperty.ReactiveProperty.SetValue` | Assets/App/UI/Framework/MVVM/ReactiveProperty.cs:23-28 | an equal value changes nothing and calls no one; a different value is stored and then announced in one reverse round |
| `ReactiveProperty.ReactiveProperty.SetValueWithoutNotify` | Assets/App/UI/Framework/MVVM/ReactiveProperty.cs:31-34 | the value is stored and no subscriber is called |
| `ReactiveProperty.ReactiveProperty.ForceNotify` | Assets/App/UI/Framework/MVVM/ReactiveProperty.cs:36-39 | the current value is announced in one reverse round, changed or not |
| `ReactiveProperty.ReactiveProperty.NotifySubscribers` | Assets/App/UI/Framework/MVVM/ReactiveProperty.cs:53-60 | the reverse index loop calls the subscribers from last to first, each once |
| `ReactiveProperty.ReactiveProperty.Subscribe` | Assets/App/UI/Framework/MVVM/ReactiveProperty.cs:41-51 | a disposed property registers nothing and returns an inert handle; otherwise the callback is appended, called at once with the value when asked, and the handle removes it |
| `ReactiveProperty.ReactiveProperty.RemoveSubscriber` | Assets/App/UI/Framework/MVVM/ReactiveProperty.cs:50 | the handle's action drops the first registration of the callback |
| `ReactiveProperty.ReactiveProperty.Dispose` | Assets/App/UI/Framework/MVVM/ReactiveProperty.cs:62-66 | the property is marked disposed and loses all subscribers |
| `ReactiveProperty.Disposable.constructor` | Assets/App/UI/Framework/MVVM/ReactiveProperty.cs:79-82 | a handle holds its removal action |
| `ReactiveProperty.Disposable.Empty` | Assets/App/UI/Framework/MVVM/ReactiveProperty.cs:75 | the empty handle has no action |
| `ReactiveProperty.Disposable.Dispose` | Assets/App/UI/Framework/MVVM/ReactiveProperty.cs:84-88 | the action runs at most once: the first call removes the callback, later calls and the empty handle change nothing else |
| `ReactiveProperty.SubscribeThenDispose` | Assets/App/UI/Framework/MVVM/ReactiveProperty.cs:41-88 | subscribing a new callback and disposing its handle (even twice) restores the subscriber list |
| `CompositeDisposable.CompositeDisposable.constructor` | Assets/App/UI/Framework/MVVM/CompositeDisposable.cs:8-9 | a new composite is empty and not disposed |
| `CompositeDisposable.CompositeDisposable.Add` | Assets/App/UI/Framework/MVVM/CompositeDisposable.cs:13-21 | a live composite keeps the item; a disposed one disposes it at once and keeps nothing |
| `CompositeDisposable.CompositeDisposable.Remove` | Assets/App/UI/Framework/MVVM/CompositeDisposable.cs:23-26 | the first occurrence is dropped without being disposed |
| `CompositeDisposable.CompositeDisposable.Dispose` | Assets/App/UI/Framework/MVVM/CompositeDisposable.cs:28-37 | the first call disposes every item newest first and empties the bag; later calls change nothing |
| `CompositeDisposable.CompositeDisposable.Clear` | Assets/App/UI/Framework/MVVM/CompositeDisposable.cs:39-45 | every item is disposed newest first and the bag is emptied, without marking it disposed |
| `CompositeDisposable.CompositeDisposable.DisposeItemsNewestFirst` | Assets/App/UI/Framework/MVVM/CompositeDisposable.cs:33-36 | the reverse index loop disposes the items in reverse order, then clears the list |
| `CompositeDisposable.AddTo` | Assets/App/UI/Framework/MVVM/CompositeDisposable.cs:50-54 | adds the disposable as Add does and returns the same one |
| `ReactiveCollection.AddedEvents` | Assets/App/UI/Framework/MVVM/ReactiveCollection.cs:71-75 | an appended range raises one ItemAdded per item |
| `ReactiveCollection.AddedEventsAt` | Assets/App/UI/Framework/MVVM/ReactiveCollection.cs:71-75 | the k-th ItemAdded of a range names the k-th item and the position after the old end plus k |
| `ReactiveCollection.AddRangeEventsTruthful` | Assets/App/UI/Framework/MVVM/ReactiveCollection.cs:69-77 | every event of an AddRange names a position that holds the announced item afterwards |
| `ReactiveCollection.ReactiveCollection.constructor` | Assets/App/UI/Framework/MVVM/ReactiveCollection.cs:9-15 | a new collection is empty with no handlers attached |
| `ReactiveCollection.ReactiveCollection.Attach` | Assets/App/UI/Framework/MVVM/ReactiveCollection.cs:11-15 | subscribing to one of the five events attaches handlers to that event only |
| `ReactiveCollection.ReactiveCollection.Raise` | Assets/App/UI/Framework/MVVM/ReactiveCollection.cs:27-28 | a raised event (`?.Invoke`) reaches handlers exactly when some are attached to that event, and otherwise nobody |
| `ReactiveCollection.ReactiveCollection.Set` | Assets/App/UI/Framework/MVVM/ReactiveCollection.cs:23-29 | the slot is replaced, then ItemReplaced with the old and new items and Changed are raised, even for an equal item |
| `ReactiveCollection.ReactiveCollection.Add` | Assets/App/UI/Framework/MVVM/ReactiveCollection.cs:32-37 | the item is appended, then ItemAdded at the last index and Changed are raised |
| `ReactiveCollection.ReactiveCollection.Insert` | Assets/App/UI/Framework/MVVM/ReactiveCollection.cs:39-44 | the item is inserted at the index, then ItemAdded at that index and Changed are raised |
| `ReactiveCollection.ReactiveCollection.Remove` | Assets/App/UI/Framework/MVVM/ReactiveCollection.cs:46-52 | returns whether the item was present; removes its first occurrence and raises ItemRemoved at its old index and Changed; an absent item raises nothing |
| `ReactiveCollection.ReactiveCollection.RemoveAt` | Assets/App/UI/Framework/MVVM/ReactiveCollection.cs:54-60 | the slot is removed, then ItemRemoved with the old item and Changed are raised |
| `ReactiveCollection.ReactiveCollection.Clear` | Assets/App/UI/Framework/MVVM/ReactiveCollection.cs:62-67 | the list is emptied, then Cleared and Changed are raised, even if it was empty |
| `ReactiveCollection.ReactiveCollection.AddRange` | Assets/App/UI/Framework/MVVM/ReactiveCollection.cs:69-77 | the items are appended in order with one ItemAdded each, then a single Changed, even for an empty range |
| `ReactiveCollection.ReactiveCollection.Dispose` | Assets/App/UI/Framework/MVVM/ReactiveCollection.cs:85-93 | the handlers of all five events are detached and the list emptied, raising nothing |
| `ReactiveCollection.DisposeSilences` | Assets/App/UI/Framework/MVVM/ReactiveCollection.cs:32-93 | after Dispose the collection still works but a later Add reaches no one |
| `ReactiveCollection.InsertThenRemoveAt` | Assets/App/UI/Framework/MVVM/ReactiveCollection.cs:39-60 | Insert followed by RemoveAt at the same index restores the list, with both event pairs raised in order |
| `ReactiveCollection.DeliveredConcat` | Assets/App/UI/Framework/MVVM/ReactiveCollection.cs:27-28 | delivering two batches of events one after the other is delivering their concatenation |
| `ReactiveCollection.DeliveredExactly` | Assets/App/UI/Framework/MVVM/ReactiveCollection.cs:11-15 | an event is delivered exactly when it was raised and its own event has handlers |
| `ReactiveCollection.DeliveredAllOrNone` | Assets/App/UI/Framework/MVVM/ReactiveCollection.cs:11-15 | with all five events subscribed every raised event is delivered; with none, nothing is |
| `ReactiveCollection.ChangedOnlyConsumer` | Assets/App/UI/Framework/MVVM/ReactiveCollection.cs:32-37 | a consumer subscribed only to OnChanged hears one Changed for an Add and not the ItemAdded |
| `Lists.IndexFrom` | Assets/App/UI/Framework/MVVM/ReactiveCollection.cs:80 | the first index from `from` on holding x, or -1 exactly when none does |
| `Lists.Project` | Assets/App/Data/GameDatabase.cs:15-19 | the key of each element at the same position, the name that `FirstOrDefault` compares |
| `Lists.IndexOf` | Assets/App/UI/Framework/MVVM/ReactiveCollection.cs:80 | List.IndexOf: the first index holding x, or -1 exactly when x is absent |
| `Lists.RemoveFirst` | Assets/App/UI/Framework/MVVM/CompositeDisposable.cs:23-26 | List.Remove: an absent item leaves the list alone; otherwise exactly its first occurrence is cut out |
| `Lists.RemoveFirstOfAppended` | Assets/App/UI/Framework/MVVM/ReactiveProperty.cs:45-50 | removing an item just appended, when it was not there before, restores the list |
| `Lists.Reverse` | Assets/App/UI/Framework/MVVM/CompositeDisposable.cs:31-32 | the order a reverse index loop visits a list in; as long as the list |
| `Lists.ReverseAt` | Assets/App/UI/Framework/MVVM/CompositeDisposable.cs:31-32 | the k-th visit of a reverse index loop is the (k+1)-th element from the end |
| `Lists.ReverseMultiset` | Assets/App/UI/Framework/MVVM/CompositeDisposable.cs:31-32 | a reverse loop visits every element exactly once |
| `Lists.ReverseSnoc` | Assets/App/Core/Commands/CommandHistory.cs:46-49 | popping the top of a stack first yields the last element |
| `Lists.ReverseReverse` | Assets/App/Core/Commands/CommandHistory.cs:38-50 | moving a stack to another and back restores its order |
| `Lists.InsertAt` | Assets/App/UI/Framework/MVVM/ReactiveCollection.cs:41 | List.Insert: the item lands at the index, earlier elements stay, later ones shift up by one |
| `Lists.InsertAtMultiset` | Assets/App/UI/Framework/MVVM/ReactiveCollection.cs:41 | insertion adds exactly the inserted item |
| `Lists.RemoveAt` | Assets/App/UI/Framework/MVVM/ReactiveCollection.cs:57 | List.RemoveAt: the element at the index goes, later ones shift down by one |
| `Lists.RemoveAtMultiset` | Assets/App/UI/Framework/MVVM/ReactiveCollection.cs:57 | removal takes away exactly the element at that index |
| `Lists.RemoveAtInsertAt` | Assets/App/UI/Framework/MVVM/ReactiveCollection.cs:39-60 | removing at the index just inserted at restores the list |
| `Lists.InsertAtRemoveAt` | Assets/App/UI/Framework/MVVM/ReactiveCollection.cs:39-60 | re-inserting a removed element at its old index restores the list |
| `EventBus.Round` | Assets/App/Core/Events/EventBus.cs:16-29 | one publish round makes one call per registration |
| `EventBus.RoundAt` | Assets/App/Core/Events/EventBus.cs:16-29 | the k-th call of a round goes to the (k+1)-th handler counted from the end |
| `EventBus.RoundOnlyRegistered` | Assets/App/Core/Events/EventBus.cs:12-29 | a round reaches only handlers registered for the event's type, with the published payload |
| `EventBus.FailuresAreCalled` | Assets/App/Core/Events/EventBus.cs:20-27 | every logged exception comes from a throwing handler that was called in the round; throwing does not stop the others |
| `EventBus.EventBus.constructor` | Assets/App/Core/Events/EventBus.cs:8 | a new bus has no handlers and has made no calls |
| `EventBus.EventBus.Publish` | Assets/App/Core/Events/EventBus.cs:10-30 | an unknown type calls no one; otherwise the handlers of that type are called last registered first, the throwing ones logged, and no other handler is called |
| `EventBus.EventBus.Subscribe` | Assets/App/Core/Events/EventBus.cs:32-42 | the handler is appended to its type's list, which is created on first use; duplicates are kept |
| `EventBus.EventBus.Unsubscribe` | Assets/App/Core/Events/EventBus.cs:44-51 | the first registration of the handler is dropped from its type's list; an unknown type changes nothing |
| `EventBus.EventBus.Clear` | Assets/App/Core/Events/EventBus.cs:53-56 | every handler list is forgotten |
| `ServiceLocator.ServiceLocator.constructor` | Assets/App/Core/ServiceLocator/ServiceLocator.cs:8 | the registry starts empty |
| `ServiceLocator.ServiceLocator.Register` | Assets/App/Core/ServiceLocator/ServiceLocator.cs:10-20 | the service is stored under its type, replacing an earlier one with a warning exactly when there was one |
| `ServiceLocator.ServiceLocator.Get` | Assets/App/Core/ServiceLocator/ServiceLocator.cs:22-30 | the registered service of that type, or the not-found error exactly when none is registered |
| `ServiceLocator.ServiceLocator.TryGet` | Assets/App/Core/ServiceLocator/ServiceLocator.cs:32-42 | true with the service exactly when the type is registered, false with null otherwise |
| `ServiceLocator.ServiceLocator.Has` | Assets/App/Core/ServiceLocator/ServiceLocator.cs:44-47 | true exactly when the type is registered |
| `ServiceLocator.ServiceLocator.Unregister` | Assets/App/Core/ServiceLocator/ServiceLocator.cs:49-52 | only that type is removed; an absent type changes nothing |
| `ServiceLocator.ServiceLocator.Reset` | Assets/App/Core/ServiceLocator/ServiceLocator.cs:54-57 | every registration is forgotten |
| `ServiceLocator.RegisterThenGet` | Assets/App/Core/ServiceLocator/ServiceLocator.cs:10-52 | a registered service is what Get returns, also after another type is unregistered |
| `ObjectPool.Pooled.Instantiate` | Assets/App/Core/ObjectPool/ObjectPool.cs:82-86 | a new instance takes the prefab's active state and is not destroyed |
| `ObjectPool.ObjectPool.constructor` | Assets/App/Core/ObjectPool/ObjectPool.cs:16-28 | the queue holds initialSize fresh inactive instances (none for a negative size) and nothing is active |
| `ObjectPool.ObjectPool.Get` | Assets/App/Core/ObjectPool/ObjectPool.cs:30-46 | the oldest queued instance is dequeued, or a fresh one made when the queue is empty; it is activated, spawned once, and the active count grows by one |
| `ObjectPool.ObjectPool.Return` | Assets/App/Core/ObjectPool/ObjectPool.cs:48-62 | the instance is despawned and deactivated and the active count drops by one; it is queued while the queue is below the cap and destroyed otherwise |
| `ObjectPool.ObjectPool.ReturnAll` | Assets/App/Core/ObjectPool/ObjectPool.cs:64-68 | nothing changes |
| `ObjectPool.ObjectPool.Clear` | Assets/App/Core/ObjectPool/ObjectPool.cs:70-80 | every queued instance ends destroyed, the queue is empty and the active count is reset to 0 |
| `ObjectPool.ReturnRespectsCap` | Assets/App/Core/ObjectPool/ObjectPool.cs:48-62 | Return never grows a queue that is within the cap past it |
| `Timer.Clamp01` | Assets/App/Core/Utilities/Timer.cs:11 | the result lies in [0, 1] and equals the input when that already does |
| `Timer.Timer.constructor` | Assets/App/Core/Utilities/Timer.cs:18-21 | a new timer has the duration, nothing elapsed, and is not running |
| `Timer.Timer.RemainingSeconds` | Assets/App/Core/Utilities/Timer.cs:10 | never negative: duration minus elapsed until the duration is reached, 0 after |
| `Timer.Timer.NormalizedProgress` | Assets/App/Core/Utilities/Timer.cs:11 | lies in [0, 1]; 0 without a positive duration; otherwise the elapsed fraction of the duration |
| `Timer.Timer.IsCompleted` | Assets/App/Core/Utilities/Timer.cs:13 | completed exactly when the duration is positive and no time remains, that is, the elapsed time has reached it |
| `Timer.Timer.Start` | Assets/App/Core/Utilities/Timer.cs:23-30 | a non-negative argument becomes the duration (a negative one keeps it); elapsed is reset and the timer runs |
| `Timer.Timer.Pause` | Assets/App/Core/Utilities/Timer.cs:32-35 | the timer stops running and keeps its elapsed time |
| `Timer.Timer.Resume` | Assets/App/Core/Utilities/Timer.cs:37-41 | only a timer that has not completed is set running |
| `Timer.Timer.Stop` | Assets/App/Core/Utilities/Timer.cs:43-47 | the timer stops and elapsed is reset |
| `Timer.Timer.Update` | Assets/App/Core/Utilities/Timer.cs:49-62 | a stopped timer ignores the update; a running one advances, ticks with the new elapsed time, and on reaching a positive duration stops and completes; a non-positive duration never completes |
| `Timer.CompletesOnce` | Assets/App/Core/Utilities/Timer.cs:49-62 | completion fires at most once over consecutive updates |
| `Timer.ZeroDurationNeverCompletes` | Assets/App/Core/Utilities/Timer.cs:57-61 | a timer without a positive duration never completes, however many updates it gets |
| `GameStatistic.PlayTimesSince` | Assets/App/Data/GameStatistic.cs:18-37 | the minutes of the entries dated on or after the cut-off, in input order; never more than the entries |
| `GameStatistic.CountSinceIsLength` | Assets/App/Data/GameStatistic.cs:21-28 | the array the second pass fills has exactly the length the first pass counted |
| `GameStatistic.PlayTimesSinceSound` | Assets/App/Data/GameStatistic.cs:30-35 | every reported minute count comes from an entry inside the window |
| `GameStatistic.WiderWindowCountsMore` | Assets/App/Data/GameStatistic.cs:18-58 | an earlier cut-off counts at least as many entries, so the monthly list is never shorter than the weekly one |
| `GameStatistic.PlayTimeSince` | Assets/App/Data/GameStatistic.cs:21-36 | the two passes return a fresh array holding exactly the qualifying minutes, in order |
| `GameStatistic.CountPass` | Assets/App/Data/GameStatistic.cs:21-26 | the first loop counts the entries dated on or after the cut-off |
| `GameStatistic.FillPass` | Assets/App/Data/GameStatistic.cs:28-35 | the second loop writes the qualifying minutes, in order, into the counted array |
| `GameStatistic.PrefixGrows` | Assets/App/Data/GameStatistic.cs:30-35 | the list for a prefix of the entries is a prefix of the whole list, so `idx` never overruns |
| `GameStatistic.GetWeeklyPlayTime` | Assets/App/Data/GameStatistic.cs:18-37 | the minutes of the entries from 7 days before today on, in order |
| `GameStatistic.GetMonthlyPlayTime` | Assets/App/Data/GameStatistic.cs:39-58 | the minutes of the entries from 30 days before today on, in order |
| `GameStatistic.GamesOfExact` | Assets/App/Data/GameStatistic.cs:79-93 | the grouped games are distinct, and a game is listed exactly when one of its entries falls in the window |
| `GameStatistic.SumForAbsent` | Assets/App/Data/GameStatistic.cs:86-87 | a game that never qualifies contributes nothing, as TryGetValue's default 0 |
| `GameStatistic.SumTotalsStep` | Assets/App/Data/GameStatistic.cs:84-87 | one more entry adds its minutes to the total of its game and to nothing else |
| `GameStatistic.GrandTotal` | Assets/App/Data/GameStatistic.cs:77-95 | the per-game totals add up to all minutes inside the window |
| `GameStatistic.Accumulate` | Assets/App/Data/GameStatistic.cs:79-88 | the dictionary maps exactly the qualifying games, each to its minutes inside [from, to) |
| `GameStatistic.GroupByGame` | Assets/App/Data/GameStatistic.cs:77-95 | a fresh array of (total, game) pairs, one per qualifying game, each game once, in first-qualifying order |
| `GameStatistic.GetDailyPlayTimeByGame` | Assets/App/Data/GameStatistic.cs:61-64 | the per-game totals of today only |
| `GameStatistic.GetWeeklyPlayTimeByGame` | Assets/App/Data/GameStatistic.cs:66-69 | the per-game totals from 7 days before today on, with no upper bound |
| `GameStatistic.GetMonthlyPlayTimeByGame` | Assets/App/Data/GameStatistic.cs:71-74 | the per-game totals from 30 days before today on, with no upper bound |
| `ChildProfileService.FindIndex` | Assets/App/Services/ChildProfile/ChildProfileService.cs:54 | List.FindIndex on the id: the first position holding it, or -1 exactly when none does |
| `ChildProfileService.FirstWithId` | Assets/App/Services/ChildProfile/ChildProfileService.cs:48 | FirstOrDefault on the id: null exactly when no profile has it, otherwise the first one that has it |
| `ChildProfileService.OfParent` | Assets/App/Services/ChildProfile/ChildProfileService.cs:42 | a profile is listed exactly when it is stored and belongs to the parent |
| `ChildProfileService.WithoutId` | Assets/App/Services/ChildProfile/ChildProfileService.cs:66 | RemoveAll on the id: no survivor has the id, and every profile with another id survives |
| `ChildProfileService.WithoutAbsentId` | Assets/App/Services/ChildProfile/ChildProfileService.cs:63-68 | deleting an id no profile has leaves the list unchanged |
| `ChildProfileService.OfParentAppend` | Assets/App/Services/ChildProfile/ChildProfileService.cs:39-43 | the filter keeps stored order: filtering a longer list extends the filter of its prefix |
| `ChildProfileService.ChildProfileService.constructor` | Assets/App/Services/ChildProfile/ChildProfileService.cs:16-19 | the service starts over the given store with no current child |
| `ChildProfileService.ChildProfileService.CreateChild` | Assets/App/Services/ChildProfile/ChildProfileService.cs:21-37 | one profile with the new id, the given fields and the creation time is appended and saved; the stored ones keep their order |
| `ChildProfileService.ChildProfileService.UpdateChild` | Assets/App/Services/ChildProfile/ChildProfileService.cs:51-61 | an unknown id is the not-found error and saves nothing; otherwise the first profile with the id is replaced in place and saved |
| `ChildProfileService.ChildProfileService.DeleteChild` | Assets/App/Services/ChildProfile/ChildProfileService.cs:63-68 | every profile with the id is removed, the rest keep their order, and the list is saved even when none matched |
| `ChildProfileService.ChildProfileService.SetCurrentChild` | Assets/App/Services/ChildProfile/ChildProfileService.cs:86-89 | the id becomes the current child id |
| `ChildProfileService.ChildProfileService.GetCurrentChild` | Assets/App/Services/ChildProfile/ChildProfileService.cs:80-84 | nothing while no child is set; otherwise the profile GetChild finds for the current id |
| `ChildProfileService.UpdateThenDelete` | Assets/App/Services/ChildProfile/ChildProfileService.cs:45-68 | after an update and a delete of an id, GetChild finds nothing for it |
| `ChildProfileService.CreateThenList` | Assets/App/Services/ChildProfile/ChildProfileService.cs:21-43 | a created profile is listed last among its parent's children, after the ones listed before |
| `MailValidator.PlainAt` | Assets/App/UI/Framework/MailValidator.cs:14 | every character of a [^@\s] run is neither '@' nor white space |
| `MailValidator.SplitShape` | Assets/App/UI/Framework/MailValidator.cs:13-16 | a pattern match has exactly one '@', at the split point, and no white space |
| `MailValidator.MatchShape` | Assets/App/UI/Framework/MailValidator.cs:13-16 | a match, final line feed included, has one '@' inside, a '.' after it, and white space only as a trailing '\n' |
| `MailValidator.MatchPassesAtChecks` | Assets/App/UI/Framework/MailValidator.cs:54-72 | an input the pattern matches is not blank and passes the '@' edge, '@' position and domain checks |
| `MailValidator.ExtraChecksRedundant` | Assets/App/UI/Framework/MailValidator.cs:52-75 | IsValidEmail holds exactly when the pattern matches, the length in UTF-16 code units is at most 254, and the first and last characters are not '.' |
| `MailValidator.AcceptedShape` | Assets/App/UI/Framework/MailValidator.cs:52-75 | an accepted address has exactly one '@', not at either end, a '.' in the domain, and no white space except one trailing line feed |
| `MailValidator.TrailingLineFeedAccepted` | Assets/App/UI/Framework/MailValidator.cs:14 | "a@b.c\n" is accepted, because `$` also matches before a final line feed |
| `MailValidator.MailValidator.constructor` | Assets/App/UI/Framework/MailValidator.cs:18-21 | the error label starts empty |
| `MailValidator.MailValidator.Validate` | Assets/App/UI/Framework/MailValidator.cs:24-50 | accepts exactly the non-null valid addresses; the label shows the invalid-mail message exactly on rejection |
| `AdvancedInputField.PasswordMatchValidator.constructor` | Assets/App/UI/Framework/PasswordMatchValidator.cs:11-15 | Awake clears the label and subscribes the validator to the password field's input event |
| `AdvancedInputField.PasswordMatchValidator.Validate` | Assets/App/UI/Framework/PasswordMatchValidator.cs:22-31 | accepts exactly a value equal to the password field's current value; the label shows the message exactly on rejection |
| `AdvancedInputField.AdvancedInputField.constructor` | Assets/App/UI/Framework/InputField/AdvancedInputField.cs:40-48 | Awake turns both indicators off, sets validity to the optional flag and the value to "" |
| `AdvancedInputField.AdvancedInputField.Validity` | Assets/App/UI/Framework/InputField/AdvancedInputField.cs:29-32 | the intended IsValid: while the indicators are shown it agrees with the success indicator and is the negation of the error indicator |
| `AdvancedInputField.AdvancedInputField.RunValidator` | Assets/App/UI/Framework/InputField/AdvancedInputField.cs:58 | the attached validator's verdict on the value, each kind of validator by its own rule |
| `AdvancedInputField.AdvancedInputField.UpdateValidationUI` | Assets/App/UI/Framework/InputField/AdvancedInputField.cs:84-88 | the error indicator is on exactly when invalid and shown, the success indicator exactly when valid and shown |
| `AdvancedInputField.AdvancedInputField.NotifyInputChanged` | Assets/App/UI/Framework/PasswordMatchValidator.cs:17-20 | each match validator hooked to the field revalidates with the field's own new value and so clears its label |
| `AdvancedInputField.AdvancedInputField.OnValueChanged` | Assets/App/UI/Framework/InputField/AdvancedInputField.cs:50-71 | the value is stored; validity is the validator's verdict with auto-validation and a validator, else true; the input event and then the validation event are raised even when validity did not change; the indicators follow |
| `AdvancedInputField.AdvancedInputField.Validate` | Assets/App/UI/Framework/InputField/AdvancedInputField.cs:73-82 | without a validator the call fails with the null-reference error and changes nothing; otherwise validity becomes the validator's verdict on the current value, the validation event is raised only when it flips, and the indicators follow |
| `AdvancedInputField.IsValidInverted` | Assets/App/UI/Framework/InputField/AdvancedInputField.cs:29-32 | as written, IsValid reads the error indicator: a shown field that is valid after input reports IsValid false |
| `AdvancedInputField.ValidityAfterInput` | Assets/App/UI/Framework/InputField/AdvancedInputField.cs:50-71 | the corrected reading: the same field is valid, with the success indicator on and the error indicator off |
| `AdvancedInputField.ConfirmAfterPassword` | Assets/App/UI/Framework/PasswordMatchValidator.cs:22-31 | entering the password and then the same confirmation makes the confirmation valid |
| `AdvancedInputField.PasswordAfterConfirm` | Assets/App/UI/Framework/PasswordMatchValidator.cs:14-20 | entering the confirmation first and then the same password clears the matcher's label but leaves the confirmation invalid, with its error indicator on |
| `DateTimeInputField.RangeIsInclusive` | Assets/App/UI/Framework/InputField/DateTimeInputField.cs:120-125 | both bounds are inside the range and their neighbours outside; without bounds every date is inside |
| `DateTimeInputField.OptionalDiffersOnlyWhenEmpty` | Assets/App/UI/Framework/InputField/DateTimeInputField.cs:111-112 | optional and required fields judge a present value alike; an empty one is valid exactly when optional |
| `DateTimeInputField.DateTimeInputField.constructor` | Assets/App/UI/Framework/InputField/DateTimeInputField.cs:49-60 | Awake: no value and no bounds, validity as the optional flag, both indicators off |
| `DateTimeInputField.DateTimeInputField.SetMinDate` | Assets/App/UI/Framework/InputField/DateTimeInputField.cs:77-80 | the lower bound is replaced, without revalidating |
| `DateTimeInputField.DateTimeInputField.SetMaxDate` | Assets/App/UI/Framework/InputField/DateTimeInputField.cs:82-85 | the upper bound is replaced, without revalidating |
| `DateTimeInputField.DateTimeInputField.UpdateValidationUI` | Assets/App/UI/Framework/InputField/DateTimeInputField.cs:170-176 | the error indicator is on exactly when invalid, shown and holding a value; the success indicator exactly when valid, shown and holding a value |
| `DateTimeInputField.DateTimeInputField.Validate` | Assets/App/UI/Framework/InputField/DateTimeInputField.cs:108-118 | validity becomes the rule for the current value and bounds; the validation event is raised only when it flips; the indicators follow |
| `DateTimeInputField.DateTimeInputField.SetValue` | Assets/App/UI/Framework/InputField/DateTimeInputField.cs:87-94 | an equal value changes nothing; a new value is stored and validated, then the value event is raised once, after any validation event |
| `DateTimeInputField.DateTimeInputField.SetValueWithoutNotify` | Assets/App/UI/Framework/InputField/DateTimeInputField.cs:96-101 | the value is stored and the indicators refreshed, with the validity kept and no event |
| `DateTimeInputField.DateTimeInputField.Clear` | Assets/App/UI/Framework/InputField/DateTimeInputField.cs:103-106 | an empty field is unchanged; otherwise the value goes, validity becomes the optional flag, and the events of SetValue(null) are raised |
| `DateTimeInputField.ClearRequiredField` | Assets/App/UI/Framework/InputField/DateTimeInputField.cs:87-118 | clearing a required field makes it invalid, yet both indicators are off because it holds no value |
| `DateTimeInputField.SilentOutOfRange` | Assets/App/UI/Framework/InputField/DateTimeInputField.cs:96-101 | a value outside the bounds set without notifying keeps the old validity and shows success |
| `Chars.ToLower` | Assets/App/UI/Framework/MVVM/ViewModelIdHelper.cs:35 | the result is never a capital; a capital maps to the small letter 32 code points above it, every other character to itself |
| `Chars.LowerAll` | Assets/App/Services/Auth/AuthService.cs:169 | the result has the input's length and holds ToLower of each input character at the same position |
| `Chars.Trim` | Assets/App/Services/Auth/AuthService.cs:169 | the result is no longer than the input and neither starts nor ends with white space |
| `Chars.TrimInfix` | Assets/App/Services/Auth/AuthService.cs:169 | Trim returns the input cut at two points with only white space before the first and from the second on, so with Trim's own ensures it is the input without its leading and trailing white space |
| `Chars.Utf16Length` | Assets/App/UI/Framework/PasswordValidator.cs:19 | `string.Length` counts UTF-16 code units: between the number of characters and twice that, and equal to it when every character is in the Basic Multilingual Plane |
| `AuthService.HexDigit` | Assets/App/Services/Auth/AuthService.cs:174 | each nibble value 0..15 is written as a lower-case hex digit |
| `AuthService.HexValue` | Assets/App/Services/Auth/AuthService.cs:174 | reading a lower-case hex digit gives a nibble that HexDigit writes back as that same digit |
| `AuthService.ToHex` | Assets/App/Services/Auth/AuthService.cs:172-175 | two lower-case hex digits per byte |
| `AuthService.FromHex` | Assets/App/Services/Auth/AuthService.cs:172-175 | reading an even-length hex string gives half as many bytes |
| `AuthService.ByteHexRoundTrip` | Assets/App/Services/Auth/AuthService.cs:174 | a byte's two digits, high nibble first, read back as that byte |
| `AuthService.HexRoundTrip` | Assets/App/Services/Auth/AuthService.cs:172-176 | FromHex(ToHex(b)) == b for every byte sequence |
| `AuthService.HexInjective` | Assets/App/Services/Auth/AuthService.cs:172-176 | two digests have the same hex string exactly when they are equal |
| `AuthService.AppendHex` | Assets/App/Services/Auth/AuthService.cs:172-175 | the StringBuilder loop produces ToHex of the bytes |
| `AuthService.NormalizeEmail` | Assets/App/Services/Auth/AuthService.cs:169 | the normalised email holds no capital letter |
| `AuthService.TrimKeepsClean` | Assets/App/Services/Auth/AuthService.cs:169 | Trim leaves a string that neither starts nor ends with white space unchanged |
| `AuthService.LowerAllIdempotent` | Assets/App/Services/Auth/AuthService.cs:169 | lower-casing twice is lower-casing once |
| `AuthService.NormalizeIdempotent` | Assets/App/Services/Auth/AuthService.cs:169 | normalising an already normalised email changes nothing, so it maps to the same username |
| `AuthService.EmailToUsername` | Assets/App/Services/Auth/AuthService.cs:166-177 | the username is the first 20 characters of the MD5 hex of the normalised email, and has exactly 20 characters |
| `AuthService.HashPin` | Assets/App/Services/Auth/AuthService.cs:261-270 | the hash is the 64-character hex string of the PIN's SHA-256 digest |
| `AuthService.PinToPassword` | Assets/App/Services/Auth/AuthService.cs:183-189 | the password starts with the PIN, is at least 8 characters long, and holds a capital, a small letter, a digit and a symbol |
| `AuthService.PinToPasswordInjective` | Assets/App/Services/Auth/AuthService.cs:183-189 | different PINs never share a password |
| `AuthService.ParseAuthError` | Assets/App/Services/Auth/AuthService.cs:147-158 | invalid parameters and an already linked account have their fixed messages; any other code gives the generic prefix followed by the backend message |
| `AuthService.AuthErrorsDistinct` | Assets/App/Services/Auth/AuthService.cs:147-158 | the generic message never equals either fixed message, and the two fixed messages differ |
| `AuthService.AuthService.constructor` | Assets/App/Services/Auth/AuthService.cs:12-18 | a new service is signed out with nothing cached and no request sent |
| `AuthService.AuthService.LoadPinHash` | Assets/App/Services/Auth/AuthService.cs:226-240 | one load request for the PinHash key; the stored hash is cached when returned, and a failed or empty load changes nothing |
| `AuthService.AuthService.Username` | Assets/App/Services/Auth/AuthService.cs:166-177 | the backend username of an email has 20 characters |
| `AuthService.AuthService.Login` | Assets/App/Services/Auth/AuthService.cs:49-75 | an empty email or password fails with its message and no request; otherwise the sign-in request carries the derived username and password; success signs in, caches the email and loads the PIN hash; an auth error gives its parsed message and a failed request the connection message, both leaving the cached state as it was |
| `AuthService.AuthService.SavePinHash` | Assets/App/Services/Auth/AuthService.cs:242-259 | the PIN's hash is cached and one save request sends it under the PinHash key |
| `AuthService.AuthService.Register` | Assets/App/Services/Auth/AuthService.cs:77-120 | empty fields fail first, then a PIN that is not 6 UTF-16 code units long, neither sending anything; a successful sign-up signs in, caches the email and the PIN hash, and sends the email save, the PIN hash save and the player name in that order; failures give the parsed or connection message and keep the cached state |
| `AuthService.AuthService.SignUpAndSave` | Assets/App/Services/Auth/AuthService.cs:88-119 | the sign-up request followed, on success only, by the saves and the player name; failures give their messages and change nothing else |
| `AuthService.AuthService.AfterSignUp` | Assets/App/Services/Auth/AuthService.cs:91-119 | after the sign-up request: on success the saves and the player name in order with Success; an auth error gives its parsed message and a failed request the connection message, both sending nothing more and keeping the cached state |
| `AuthService.AuthService.SaveRegistration` | Assets/App/Services/Auth/AuthService.cs:91-106 | signed in, email and PIN hash cached, and the email save, PIN hash save and player name requests appended in order |
| `AuthService.AuthService.VerifyPin` | Assets/App/Services/Auth/AuthService.cs:122-136 | the cloud is asked only when no hash is cached; the PIN is accepted exactly when a non-empty hash is held afterwards and equals the PIN's hash |
| `AuthService.AuthService.Logout` | Assets/App/Services/Auth/AuthService.cs:138-145 | the cached email and hash are forgotten, the service is signed out, the session token cleared, and a sign-out and a token clear are sent |
| `AuthService.RegisterThenVerify` | Assets/App/Services/Auth/AuthService.cs:77-136 | right after a successful registration the registered PIN verifies and a PIN with a different digest does not |
| `AuthService.LogoutThenVerify` | Assets/App/Services/Auth/AuthService.cs:122-145 | after a logout, with the cloud unreachable, no PIN verifies |
| `NavigationService.NavigationService.constructor` | Assets/App/UI/Framework/Navigation/NavigationService.cs:29-31 | a new router has an empty stack, no current screen and no transition in flight |
| `NavigationService.NavigationService.TryBegin` | Assets/App/UI/Framework/Navigation/NavigationService.cs:71-74 | a navigation starts exactly when no transition is in flight and, for GoBack, the stack is not empty; starting sets the transition flag |
| `NavigationService.NavigationService.CreateAndShowScreen` | Assets/App/UI/Framework/Navigation/NavigationService.cs:123-149 | an unregistered screen id fails with PrefabNotFound and touches nothing; a prefab without the view for the type is instantiated and destroyed again and fails with ViewNotFound; otherwise a fresh, active screen for that id holds a fresh view-model that was initialized and shown, in the order instantiate, configure, bind, activate, animate in |
| `NavigationService.NavigationService.RejectPrefab` | Assets/App/UI/Framework/Navigation/NavigationService.cs:131-139 | the rejected instance is created and then destroyed, and nothing else is recorded |
| `NavigationService.NavigationService.ShowNewScreen` | Assets/App/UI/Framework/Navigation/NavigationService.cs:131-148 | the new screen carries the id, a fresh active object of the prefab and a fresh, initialized, undisposed view-model |
| `NavigationService.NavigationService.BindAndShow` | Assets/App/UI/Framework/Navigation/NavigationService.cs:141-146 | a fresh view-model is configured when asked, bound to the view, then the object is activated and animated in |
| `NavigationService.NavigationService.UnbindAndDestroy` | Assets/App/UI/Framework/Navigation/NavigationService.cs:151-156 | the view-model is disposed and then the object destroyed |
| `NavigationService.NavigationService.HideCurrent` | Assets/App/UI/Framework/Navigation/NavigationService.cs:55-61 | the current screen is faded out, deactivated and pushed on the stack, not disposed |
| `NavigationService.NavigationService.ShowAsCurrent` | Assets/App/UI/Framework/Navigation/NavigationService.cs:63-68 | on success the new screen becomes current; on failure the current screen is kept; the flag is cleared either way |
| `NavigationService.NavigationService.CompleteNavigateTo` | Assets/App/UI/Framework/Navigation/NavigationService.cs:53-68 | the old current screen is on top of the stack, inactive and not disposed; the new screen becomes current on success, the old one stays current on failure; the flag is cleared |
| `NavigationService.NavigationService.CompleteGoBack` | Assets/App/UI/Framework/Navigation/NavigationService.cs:76-94 | the current screen is disposed and destroyed, the top of the stack is popped, reactivated and becomes current, and the flag is cleared |
| `NavigationService.NavigationService.DropCurrent` | Assets/App/UI/Framework/Navigation/NavigationService.cs:105-110 | the current screen is faded out, disposed and destroyed |
| `NavigationService.NavigationService.DrainStack` | Assets/App/UI/Framework/Navigation/NavigationService.cs:112-113 | the loop empties the stack, disposing and destroying every stacked screen, the top one first |
| `NavigationService.NavigationService.PopAndDispose` | Assets/App/UI/Framework/Navigation/NavigationService.cs:112-113 | one turn pops the top screen and disposes and destroys it, keeping the loop's invariant |
| `NavigationService.NavigationService.Teardown` | Assets/App/UI/Framework/Navigation/NavigationService.cs:105-113 | the current screen and then every stacked screen, top first, are disposed and destroyed, and the stack is empty |
| `NavigationService.NavigationService.CompleteClearAndNavigateTo` | Assets/App/UI/Framework/Navigation/NavigationService.cs:103-120 | the stack ends empty with every old screen disposed and destroyed; the new screen becomes current on success, and on failure the destroyed old screen stays recorded as current |
| `NavigationService.NavigationService.NavigateTo` | Assets/App/UI/Framework/Navigation/NavigationService.cs:47-69 | dropped with nothing changed while a transition is in flight; otherwise the old current screen is pushed, the flag cleared, and the new screen current on success |
| `NavigationService.NavigationService.GoBack` | Assets/App/UI/Framework/Navigation/NavigationService.cs:71-95 | runs exactly when no transition is in flight and the stack is not empty; then the stack shrinks by one, its old top becomes current and the old current screen is disposed and destroyed |
| `NavigationService.NavigationService.ClearAndNavigateTo` | Assets/App/UI/Framework/Navigation/NavigationService.cs:97-121 | dropped with nothing changed while a transition is in flight; otherwise nothing is left to go back to, every old screen is disposed and destroyed, and the new screen is current on success |
| `NavigationService.TeardownStep` | Assets/App/UI/Framework/Navigation/NavigationService.cs:112-113 | draining from one position tears down the screens above it, then the one at it |
| `NavigationService.TeardownLength` | Assets/App/UI/Framework/Navigation/NavigationService.cs:112-113 | draining records two steps per stacked screen, so each is disposed exactly once |
| `NavigationService.TeardownAt` | Assets/App/UI/Framework/Navigation/NavigationService.cs:112-113 | the k-th screen torn down is the k-th from the top: its view-model is disposed, then its object destroyed |
| `PopupService.PopupService.constructor` | Assets/App/UI/Framework/Popup/PopupService.cs:11-29 | a new service has no popup open and its dim background off, in sync |
| `PopupService.PopupService.UpdateDimBackground` | Assets/App/UI/Framework/Popup/PopupService.cs:128-132 | with a dim background assigned it is switched on exactly when a popup is open; without one nothing happens |
| `PopupService.PopupService.ShowPopupInternal` | Assets/App/UI/Framework/Popup/PopupService.cs:54-88 | an unregistered id fails with PrefabNotFound and touches nothing; a prefab without a popup view for the type is instantiated and destroyed and fails with ViewNotFound, the stack unchanged; otherwise a fresh, active popup with a fresh initialized view-model and a pending result is pushed, in the order configure, bind, subscribe close, push, dim, activate, animate in |
| `PopupService.PopupService.RejectPrefab` | Assets/App/UI/Framework/Popup/PopupService.cs:64-72 | the rejected instance is created and then destroyed, and nothing else is recorded |
| `PopupService.PopupService.ShowNewPopup` | Assets/App/UI/Framework/Popup/PopupService.cs:64-87 | a fresh popup of the prefab is pushed on top, active, with a fresh view-model of the requested kind whose result is pending |
| `PopupService.PopupService.BindPushAndShow` | Assets/App/UI/Framework/Popup/PopupService.cs:74-85 | the view-model is bound to the view, the popup pushed with the dim in sync, and the object activated |
| `PopupService.PopupService.BindPopup` | Assets/App/UI/Framework/Popup/PopupService.cs:74-78 | a fresh view-model is configured when asked, bound, and the close request subscribed |
| `PopupService.PopupService.PushAndShow` | Assets/App/UI/Framework/Popup/PopupService.cs:80-85 | the popup is pushed and the dim updated before the object is activated and animated in; the view-model's state is kept |
| `PopupService.PopupService.ShowPopup` | Assets/App/UI/Framework/Popup/PopupService.cs:41-45 | for a view-model of either kind, plain or popup: on success exactly one popup is pushed whose fresh view-model has that kind and a pending result, and the dim is in sync; on failure the stack is unchanged |
| `PopupService.PopupService.ShowPopupForResult` | Assets/App/UI/Framework/Popup/PopupService.cs:47-52 | on success the returned view-model is fresh, of popup kind, with its result still pending, and is the top of the stack |
| `PopupService.PopupService.DestroyPopup` | Assets/App/UI/Framework/Popup/PopupService.cs:121-126 | the view-model is disposed, which cancels a still pending popup result, and then the object destroyed |
| `PopupService.PopupService.CloseTop` | Assets/App/UI/Framework/Popup/PopupService.cs:90-96 | an empty stack changes nothing; otherwise only the top popup's objects may change: it is popped, its view-model disposed and then its object destroyed, a popup-kind result still pending is cancelled, then the dim is updated and in sync; the trace is exactly Pop, Dispose, Destroy, Dim |
| `PopupService.PopupService.PopTop` | Assets/App/UI/Framework/Popup/PopupService.cs:93-95 | the shared closing sequence: pop, dispose before destroy, cancel a pending popup result, update the dim, touching only the top popup's objects |
| `PopupService.PopupService.CloseAll` | Assets/App/UI/Framework/Popup/PopupService.cs:98-106 | every open popup, top first, is popped, disposed and destroyed, and then the dim is turned off |
| `PopupService.PopupService.PopAndDestroy` | Assets/App/UI/Framework/Popup/PopupService.cs:100-104 | one turn pops the top popup and disposes and destroys it, keeping the loop's invariant |
| `PopupService.PopupService.ClosePopup` | Assets/App/UI/Framework/Popup/PopupService.cs:108-119 | a close request acts only when the requesting object is the top of the stack, and otherwise may change no popup at all; when it acts, that popup is popped, disposed and then destroyed, a popup-kind result still pending is cancelled, the dim is in sync, and the trace is exactly Pop, Dispose, Destroy, Dim |
| `PopupService.CloseAllAt` | Assets/App/UI/Framework/Popup/PopupService.cs:98-106 | CloseAll's k-th pop is the k-th popup from the top, and its view-model is disposed right after |
| `PopupService.CloseAllLength` | Assets/App/UI/Framework/Popup/PopupService.cs:98-106 | CloseAll records three steps per popup, so each is popped and destroyed exactly once |
| `Views.AnimateInShape` | Assets/App/UI/Framework/MVVM/PopupViewBase.cs:16-34 | AnimateIn of any view starts inert and turns interaction back on, and the hooks it calls are OnAppearing then OnAppeared, with OnAppearing called twice by a popup view in animator mode |
| `Views.AnimateOutLeavesInert` | Assets/App/UI/Framework/MVVM/ViewBase.cs:87-102 | AnimateOut of any view turns interaction off and never back on |
| `Views.GameObject.Instantiate` | Assets/App/UI/Framework/Navigation/NavigationService.cs:131-132 | the copy carries the prefab, its active flag and, when the prefab has a view, a fresh unbound view of the same kind and animation mode |
| `Views.View.constructor` | Assets/App/UI/Framework/MVVM/ViewBase.cs:22-37 | a new view is unbound, holds nothing and is interactable |
| `Views.View.Unbind` | Assets/App/UI/Framework/MVVM/ViewBase.cs:51-61 | an unbound view is unchanged; a bound one becomes unbound, runs OnUnbind, disposes its own composite and then the view-model, and drops both references |
| `Views.View.Bind` | Assets/App/UI/Framework/MVVM/ViewBase.cs:39-49 | whatever was bound is unbound first; the view then holds the view-model and a fresh empty composite, initializes the view-model and runs OnBind |
| `Views.View.OnDestroy` | Assets/App/UI/Framework/MVVM/ViewBase.cs:122-125 | destroying a bound view disposes its view-model |
| `Views.View.AnimateIn` | Assets/App/UI/Framework/MVVM/PopupViewBase.cs:16-34 | the view ends interactable, records the steps of its kind's AnimateIn, and calls exactly AppearHooks on a bound view-model, changing nothing else of it |
| `Views.View.BaseAnimateIn` | Assets/App/UI/Framework/MVVM/ViewBase.cs:67-85 | inert, OnAppearing, the animator or the delayed fade, interactable again, OnAppeared |
| `Views.View.AnimateOut` | Assets/App/UI/Framework/MVVM/PopupViewBase.cs:36-50 | the view ends inert, records its kind's AnimateOut steps, and calls exactly DisappearHooks on a bound view-model |
| `Views.View.BaseAnimateOut` | Assets/App/UI/Framework/MVVM/ViewBase.cs:87-102 | inert, OnDisappearing, the animator or the fade, OnDisappeared, with interaction left off |
| `Views.View.SetInteractable` | Assets/App/UI/Framework/MVVM/ViewBase.cs:69 | the canvas group's interactable flag takes the given value |
| `Views.View.CallHook` | Assets/App/UI/Framework/MVVM/ViewBase.cs:70 | a hook reaches the view-model only when one is bound, and is then recorded once |
| `UICollection.Element.Clone` | Assets/App/UI/Framework/MVVM/UICollection.cs:196 | a clone starts with its template's active flag |
| `UICollection.FindReusable` | Assets/App/UI/Framework/MVVM/UICollection.cs:179-185 | the first inactive position tagged with the id, with no earlier inactive one tagged so, or -1 exactly when no inactive position has that tag |
| `UICollection.Move` | Assets/App/UI/Framework/MVVM/UICollection.cs:198-202 | taking an element out and reinserting it keeps the length and puts the element at its new position |
| `UICollection.MovePermutes` | Assets/App/UI/Framework/MVVM/UICollection.cs:198-202 | a move is a permutation of the list |
| `UICollection.MoveDown` | Assets/App/UI/Framework/MVVM/UICollection.cs:198-202 | moving an element to an earlier place shifts the ones between up by one and leaves all others where they were |
| `UICollection.MoveDistinct` | Assets/App/UI/Framework/MVVM/UICollection.cs:198-202 | a move keeps every element listed once |
| `UICollection.MoveLayout` | Assets/App/UI/Framework/MVVM/UICollection.cs:186-207 | reusing an inactive element inside the active part leaves every other position active exactly when it is below the grown count |
| `UICollection.MoveAvoids` | Assets/App/UI/Framework/MVVM/UICollection.cs:198-202 | a move brings in no element that was not listed, in particular not the template |
| `UICollection.SwapLayout` | Assets/App/UI/Framework/MVVM/UICollection.cs:117-129 | SetResourceId's swap keeps every element listed once and leaves the positions other than the last active one active exactly below it |
| `UICollection.InsertKeeps` | Assets/App/UI/Framework/MVVM/UICollection.cs:186-197 | inserting a new active element inside the active part keeps positions active exactly below the grown count and every element listed once |
| `UICollection.UICollection.constructor` | Assets/App/UI/Framework/MVVM/UICollection.cs:10-15 | a new collection is uninitialized, empty and with count 0 |
| `UICollection.UICollection.NormalizeItemId` | Assets/App/UI/Framework/MVVM/UICollection.cs:165-172 | a negative id is kept, an id naming a predefined item is kept, and an id past the predefined items becomes -1 |
| `UICollection.UICollection.IndexOf` | Assets/App/UI/Framework/MVVM/UICollection.cs:153-160 | the first active position holding the item, or -1 exactly when no active position holds it |
| `UICollection.UICollection.SetCount` | Assets/App/UI/Framework/MVVM/UICollection.cs:78-104 | the collection ends initialized with exactly the requested number of active elements; the list starts with the old list, or on the first call with each predefined item tagged with its index; it grows to the requested count with fresh clones tagged -1 only when a default resource exists, and otherwise keeps its length |
| `UICollection.Listed` | Assets/App/UI/Framework/MVVM/UICollection.cs:94-100 | the first Count assignment lists each predefined item at its own position, tagged with its index |
| `UICollection.UICollection.InitializeListItems` | Assets/App/UI/Framework/MVVM/UICollection.cs:227-246 | with a resource the list grows to the target with fresh clones tagged -1; the existing positions are kept and exactly the first target positions end active |
| `UICollection.UICollection.GrowTo` | Assets/App/UI/Framework/MVVM/UICollection.cs:229-235 | the list becomes as long as the target when shorter, with fresh elements tagged -1 appended and nothing existing changed |
| `UICollection.UICollection.ActivateUpTo` | Assets/App/UI/Framework/MVVM/UICollection.cs:236-241 | the positions from the count up to the target become active and the count reaches the target |
| `UICollection.UICollection.DeactivateDownTo` | Assets/App/UI/Framework/MVVM/UICollection.cs:242-245 | the positions from the count down to the target become inactive and the count drops to the target |
| `UICollection.UICollection.InsertElement` | Assets/App/UI/Framework/MVVM/UICollection.cs:176-209 | the first reusable inactive element with the id is moved to the insert position; failing that a fresh clone is inserted there; either way it is active, tagged with the id, and the count grows by one |
| `UICollection.UICollection.FindReusableIndex` | Assets/App/UI/Framework/MVVM/UICollection.cs:179-185 | the search loop returns FindReusable over the inactive part |
| `UICollection.UICollection.InsertClone` | Assets/App/UI/Framework/MVVM/UICollection.cs:188-197 | a fresh, active clone of the matching template is inserted at the position |
| `UICollection.UICollection.MoveIntoPlace` | Assets/App/UI/Framework/MVVM/UICollection.cs:198-207 | the reused element is moved to the position and activated |
| `UICollection.UICollection.AddElement` | Assets/App/UI/Framework/MVVM/UICollection.cs:173-175 | the element lands right after the active part, which is otherwise unchanged; it is fresh exactly when nothing was waiting for reuse; the whole new list is the first reusable element moved to that place, or the fresh clone inserted there |
| `UICollection.UICollection.RemoveElement` | Assets/App/UI/Framework/MVVM/UICollection.cs:138-152 | a position at or past the count is IndexOutOfRange and a negative position, which passes that guard, is the list's ArgumentOutOfRange; neither changes anything; otherwise that element is deactivated, moved to the end of the list and returned, and the count drops by one |
| `UICollection.UICollection.SetResourceId` | Assets/App/UI/Framework/MVVM/UICollection.cs:117-132 | the same tag changes nothing; a different tag puts an active element for the new tag at the position, moves the old one, deactivated, to the first inactive place, and keeps the count and every other active position; after that place the inactive elements keep their order, shifted by one up to the reused element, or all of them after a fresh clone, and the list keeps its length or grows by one |
| `UICollection.UICollection.SwapOut` | Assets/App/UI/Framework/MVVM/UICollection.cs:122-128 | the added element and the replaced one trade places, and the replaced one is deactivated and leaves the active part |

## Left out

- Unity rendering and layout are not modelled: sibling indices, transforms, canvas-group alpha, tween curves, and the frame-by-frame polling of animator states. Each awaited animation, fade or delay is one opaque step that returns.
- Unity's `Destroy` is modelled as an immediate `destroyed` flag. The deferred `OnDestroy` call that unbinds a destroyed view is modelled on its own, as `Views.View.OnDestroy`.
- The routers' registration with the service locator in `Awake`/`OnDestroy` is not modelled.
- Generic type parameters are modelled as type-name strings. `typeof(T).Name` becomes a string parameter, and `GetComponent<ViewBase<T>>` becomes a comparison of that name with the prefab's view type.
- Concurrency is not modelled. Everything runs on one cooperative thread, and the only in-flight state is the routers' transition flag.
- `ReactiveProperty` notification and `EventBus` publication use the handler list of the moment they start. A subscriber that changes the list during a round is not modelled; handlers are opaque.
- `EventBus`: the `is Action<T>` test is always true for handlers stored under the key of their own type, so it is not modelled.
- `EventBus` and `ServiceLocator` key by type. The types are opaque key values.
- `Timer` times are reals. Float rounding is not modelled.
- `CollectionExtensions`: `Random.Range` is an oracle whose answers are parameters in the range the code asks for.
- GameStatistic.Accumulate: play times add up as unbounded integers. The code's 32-bit `int` addition wraps past 2147483647 minutes, and the model does not capture that.
- GameStatistic.GroupByGame: the per-game totals are unbounded sums, as in Accumulate, with no 32-bit wrap-around.
- GameStatistic.GrandTotal: states the sum of the totals over unbounded integers, where the code's `int` totals would wrap.
- MailValidator.MailValidator.Validate: compares the first and last characters with '.' exactly. The code's `StartsWith(".")` and `EndsWith(".")` compare by culture, which can skip ignorable characters. An address such as "a@b.c.\u00AD", ending in a soft hyphen, can then be rejected by the code while the model accepts it.
- ReactiveCollection: each event is modelled by whether any handler is attached to it. Individual handlers, their order and unsubscription with `-=` are not modelled.
- `GameStatistic` dates are whole day numbers (the `Date` part of a `DateTime`). `DateTimeInputField` values are integer tick counts.
- `DateTimeInputField.OpenPicker`, `UpdateDisplay`, the date formatting and the native date pickers are platform calls and are not modelled.
- `AuthService`: the Unity Authentication and Cloud Save calls are outside the model. Their outcomes are parameters, and the requests sent are logged.
- `AuthService`: `InitializeAsync`, `LoadUserDataFromCloud` and the session restore at start-up are not modelled; they consist only of those backend calls.
- `AuthService`: MD5 and SHA-256 are opaque digest functions of 16 and 32 bytes. The UTF-8 encoding of their input is folded into them.
- `AuthService`: the getters `CurrentUserEmail`, `PlayerId` and `PlayerName` are not modelled; they only read backend state.
- Case mapping (`ToLowerInvariant`, `char.IsUpper`) is modelled for ASCII letters only. Other scripts are not case-folded.
- `ChildProfileService`: the save service is an in-memory key-value map under the single profiles key. The new GUID and the current UTC time are parameters, and JSON serialisation is not modelled.
- ReactiveProperty.ReactiveProperty.Subscribe: on a disposed property it returns a new inert handle on each call. The code returns the single shared static `Disposable.Empty`. The handles behave the same, but the model does not capture that they are one object.
- Null strings are `None` where the code distinguishes null from empty. Null delegates, null game keys and null disposables are not modelled.
- `MailValidator`: the "already used" branch is not modelled, because `IsMailUsedBefore` always returns false.
- Validators: a missing error label (`_errorText == null`) is not modelled; the label is always present.
- DateTimeInputField.DateTimeInputField.UpdateValidationUI: both indicator objects are always assigned. The code skips an unassigned indicator; the model does not capture that case.
- `UICollection`: sibling order, `Sort`, `ReverseOrder`, `SetVisibleSiblingIndex`, the parent cache, `IsStateWrong`, the serialisation callbacks, `ContainsAsRes`, `GetResourceId`, `IsValid` and the indexer are left out. They concern layout or editor state, or are plain reads.
- UICollection.UICollection.SetCount: requires enough listed elements when there is no default resource. The code reads past the end of the list there and throws.
- UICollection.UICollection.SetCount: takes a count of at least 0. With a negative count the code deactivates every active element, leaves the count at -1 and then throws on `items[-1]`; the model does not capture that broken state.
- UICollection.UICollection.InsertElement: requires the insert position to lie within the active part, and requires a template to exist when nothing waits for reuse. Outside those cases the code throws or breaks the active/inactive layout.
- UICollection.UICollection.SetResourceId: requires an active position, where the code also indexes inactive positions.
- ReactiveCollection.ReactiveCollection.RemoveAt: requires an index inside the list; the code throws `ArgumentOutOfRangeException` otherwise.
- ReactiveCollection.ReactiveCollection.Set: requires an index inside the list; the code throws `ArgumentOutOfRangeException` otherwise.
- ReactiveCollection.ReactiveCollection.Insert: requires an index no larger than the length; the code throws `ArgumentOutOfRangeException` otherwise.
- CommandHistory.CommandHistory.Execute: requires a bound of at least 0. With a negative bound the trim loop pops an empty stack and throws.
- `ObjectPool`: instantiation and destruction of pooled objects are fresh objects and a destroyed flag. The prefab itself is not modelled.

## Findings

| source | as written | input that shows it | evidently intended | confidence | as-written member | corrected member |
|---|---|---|---|---|---|---|
| Assets/App/Core/Commands/CommandHistory.cs:38-50 | the trim moves every command above the bottom `maxHistory` out and back, so it keeps the newest Count - maxHistory commands | a history of 20 commands with the default bound of 20, then one more `Execute`: one command is left | keep the newest `maxHistory` commands | high, not executed | `CommandHistory.TrimCollapsesFullHistory` | `CommandHistory.KeepNewest` |
| Assets/App/UI/Framework/InputField/AdvancedInputField.cs:29-32 | `IsValid` returns whether the error indicator is active | a required (not optional) field with auto-validation and validation shown and no validator, after any input: the field is valid and `IsValid` is false | `IsValid` is the field's validity | high, not executed | `AdvancedInputField.IsValidInverted` | `AdvancedInputField.AdvancedInputField.Validity` |
