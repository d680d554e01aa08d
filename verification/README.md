# Kinesis in Dafny

Kinesis is a component runtime: a component moves through a fixed set of stages under a state machine, handles
messages one at a time in its own loop, may be held by a container that activates and stops it, can have tagged fields
persisted, and is reachable over HTTP under a URI derived from its containers. This project models that core, the
package `component`, and proves what holds of it over every run. `dafny verify dfyconfig.toml` checks everything.

| file | what it models |
|---|---|
| `Stages.dfy` | stages, states and control values |
| `Lifecycle.dfy` | one component and its state machine; a class with the fields of the source, proved against a function on values |
| `Interleaving.dfy` | every goroutine that calls the state machine of one component, as a step relation |
| `Messages.dfy`, `MessageLaws.dfy` | the message loop with its entity tags, and what holds of every run of it |
| `Delivery.dfy` | what one listener hears over a run |
| `Runs.dfy` | runs of a step relation |
| `Activation.dfy` | the queue and the answer channel between the callers of Add and its worker |
| `Registry.dfy` | the list and the map of a container |
| `StopLoop.dfy` | the loop that stops the components of a container: when it ends, over whole trees |
| `Shutdown.dfy`, `Growing.dfy`, `StopOrder.dfy` | shutting down a tree of containers on the heap, building it by Adds, and the order this gives |
| `Text.dfy`, `Persistence.dfy` | flattening a nested struct into named strings and restoring another from them |
| `StoreCache.dfy` | writing the entries to the database only when they changed |
| `Routing.dfy` | URIs, the route table and the longest-prefix lookup |
| `Refusal.dfy` | what a refused Add does to the routes |
| `Callbacks.dfy` | callback list, subscribers, notification, tear-down |
| `Wrappers.dfy` | Option and the reversal of a sequence |

A call of the state machine holds the component's mutating lock from start to end, so it is one atomic step. What the
component's own code does (Init, PostInit, Stop, a handler), whether a database update works, fresh identifiers and
nonces are parameters, so every theorem ranges over all of their outcomes. Where the source changes something step by
step, the model is a class or a method that does the same, proved equal to a function; the theorems are about that
function.

The main results:

* **Shape of every run.** Under any interleaving and any control values, the stages of a component follow one of two
  shapes (`Interleaving.RunShape`), every stage and number of launches these allow occurs (`EveryShapeHappens`), nothing
  comes back from closing (`NoReturn`), hooks, launches, the removal of the routes and the tear-down are exactly those of a journal, in its order
  (`WholeJournal`), a component that nobody asks to restart is started at most once (`NoRestartUnasked`), and messages are
  handled by at most one loop, in order (`SingleReader`).
* **Every message is answered** (`MessageLaws.EveryMessageAnswered`): one reply, nil exactly when a change was published
  or the component stopped, whatever happens meanwhile; what is published is the content the message leaves
  (`PublishedIsCurrent`).
* **No lost update, and acknowledged means stored and published** (`MessageLaws`), where stored means that a later load
  gives the content back. The failing families are named: failed handlers, failed updates, contents that cannot be hashed. Each listener hears every change once, in a chain
  (`Delivery.HearsEveryChangeOnce`, `MessageLaws.ChangesChain`).
* **Tree shutdown.** One Shutdown takes down a tree of any depth and width in post-order, the latest first
  (`Shutdown.SendShutdown`, `OrderVisitsOnce`). Any sequence of Adds builds such a tree, of exactly those that succeeded
  (`Growing.AddAll`); siblings stop in the reverse order of their Adds, each after all that it holds
  (`StopOrder.SiblingsStopInReverse`, `HeldStopFirst`), and the whole tree in the reverse order of the Adds exactly under
  the condition of `StopOrder.ReverseOfAddsExactlyWhen`. With other outcomes of Stop, the shutdown ends exactly when
  `StopLoop.TreeStopsExactlyWhen` says.
* **Persistence round trip** on nested structs, with its exact condition (`Persistence.RoundTripExactlyWhen`), and the
  rule for repeated names (`TakesLastEntry`).

## Where the code does less than its documentation

The model follows the code. Each of these is a lemma, with the exact condition where there is one.

* The comment at `component/container.go:641-643` says that a container whose own entry comes after others is skipped
  until it is the only one left. The loop does not end then, nor when a component stays: `StopLoop.StopEndsExactlyWhen`.
* A Shutdown found at Initialized or Restarting starts the component and is acknowledged:
  `Lifecycle.AcknowledgedShutdownStopsExactlyWhen`; two Starts of one component can be live:
  `Interleaving.TwoLiveStarts`, exactly when `StartOverlapExactlyWhen` and `SecondStartExactlyWhen` say.
* A message loop that dies before the component is started is not brought back:
  `Interleaving.ReaderLostExactlyWhen`, `StartedWithoutReader`.
* Add can answer one caller with the result of another as soon as two wait: `Activation.OwnAnswer`, `AnswersCanCross`.
  Adding again a component whose Init failed is answered nil and registers a torn-down component:
  `Registry.AnsweredNilRunsExactlyWhen`.
* The persistence cache is set before the update, so a retry after a failed update is acknowledged without being stored:
  `StoreCache.DoneMeansStoredExactlyWhen`, `RetriesNeverStore`, `MessageLaws.RetryPublishesUnstored`.
* What another goroutine writes between persisting and publishing is published without being stored:
  `MessageLaws.LateWritePublishesUnstored`.
* A handler or an update that fails leaves the entity tag alone even if the content changed:
  `MessageLaws.PublishesExactlyWhen`; so does a content that cannot be hashed: `MessageLaws.StaleExactlyWhenHashChanged`.
* Entries are looked up by bare field name: `Persistence.TakesLastEntry`, `EarlierNamesakeLoses`; an encrypted empty
  string comes back as its ciphertext, and a value whose type has a String method is persisted as what that writes, so
  that a duration comes back as zero: `Persistence.LeafRoundTripExactlyWhen`, `MethodKeeps`.
* Tear-down removes callbacks by a moving index and leaves every second one: `Callbacks.CallbackList.TearDown`;
  callbacks that remove themselves by the index they are told fare the same: `Callbacks.SelfRemovalLeavesOddOnes`.
* Routes are added to the root container but removed from the container that stops the component:
  `Routing.StopServing`. Routes of different components collide when a handler method is named like a child:
  `Routing.RoutesCollideExactlyWhen`. A component refused for its name has taken over the routes of the one that holds it:
  `Refusal.RefusedNamesakeTakesOver`.

## Model

| member | source | states |
|---|---|---|
| Lifecycle.Component.SetState | component/component.go:303-314 | the state is set and a notification goes out exactly when it changed |
| Lifecycle.Component.SetStage | component/component.go:281-297 | one stage notification from the old to the new stage, and the state the stage calls for |
| Lifecycle.Component.ComponentLifecycleFsm | component/container.go:236-342 | one call with its fallthroughs has the notifications, hooks and launches of Call, whose order and number the journal below fixes over every run, ends at NextStage and returns the error of the hook that failed |
| Lifecycle.Component.HandleShutdown | component/container.go:384-396 | a Shutdown message makes one call and, if that leaves Stopping, a second whose error is the answer |
| Lifecycle.CallKeeps | component/container.go:236-342 | every call, from any stage seen between calls, keeps path, state agreement and the ledger of hooks |
| Lifecycle.ShutdownKeeps | component/container.go:384-396 | so does the handling of a Shutdown |
| Lifecycle.AcknowledgedShutdownStopsExactlyWhen | component/container.go:384-396 | an acknowledged Shutdown tore the component down exactly when it was not at Initialized or Restarting, where it started it |
| Lifecycle.ControlMattersExactlyWhen | component/container.go:303-322 | a control value changes what a call does exactly at Started, and exactly the three values handled there |
| Lifecycle.ShutdownTells | component/container.go:384-396 | a Shutdown at Started or Stopping answers as the Stop that ran last ended, tears down exactly if that succeeded, and runs nothing after one that panicked |
| Lifecycle.ResultTells | component/container.go:278-329 | a call returns each error exactly when the hook it stands for failed in that call |
| Lifecycle.CallHonest | component/container.go:249-341 | the counters are those of the sequence of hooks and launches |
| Lifecycle.NothingEarly | component/container.go:249-341 | each hook and launch comes after what it depends on |
| Interleaving.CallLaunches | component/container.go:249-322 | which calls launch a message loop and which a Start |
| Interleaving.StepKeeps | component/container.go:236-583 | every step of every goroutine keeps the invariant |
| Interleaving.RunKeeps | component/container.go:236-583 | the invariant holds after every run |
| Interleaving.RunShape | component/container.go:236-342 | after any run the notifications link up from Submitted along one of the shapes, determined by the stage and the number of launches, only seven stages are seen between calls, and at most two state notifications were sent, up then down |
| Interleaving.NoReturn | component/component.go:42-56 | once closing always closing, and nothing follows Teareddown |
| Interleaving.OnceOnly | component/container.go:249-341 | Init and PostInit at most once and in order, Start only after both and once more than Restarting was entered, tear-down exactly once at Teareddown and never before |
| Interleaving.WholeJournal | component/container.go:249-341 | the effects of every run in full: channel, callback, message loop, Init, PostInit, a PreStart and a launch as often as there are launches, Stop, removal of the routes, tear-down and removal of the name, or the shape of a failed Init or PostInit, with nothing between them but further message loops and Stops that failed |
| Interleaving.TimesOfEach | component/container.go:249-341 | over every run the channel is made and the callback added once past Submitted, PreStarts are as many as launches, and at Teareddown the routes have been removed once if Start was ever launched and never otherwise, the tear-down run and the name removed once |
| Interleaving.SingleReader | component/container.go:346-357 | at most one message loop, none at Submitted; messages one at a time in channel order |
| Interleaving.HandlingHappens | component/container.go:357-464 | any number of messages is sent, taken and answered |
| Interleaving.ReaderLostExactlyWhen | component/container.go:303-308 | there is no loop any more exactly when a restart of it ran at a stage other than Started |
| Interleaving.StartOverlapExactlyWhen | component/container.go:551-583 | live Starts are exactly the first launch and those of strays, less those on their way, bounced or over; so at most one is live exactly when these make up for the strays |
| Interleaving.RetriedExactlyWhen | component/container.go:551-563 | a Start that returns is retried exactly when the component is restartable and has not begun to close |
| Interleaving.RelaunchedExactlyWhen | component/container.go:569-575 | a retry goes on to its second call unless it found Stopping and the Stop failed |
| Interleaving.NoRestartUnasked | component/container.go:551-576 | over every run without a restartable Start and without a RestartAfter, no goroutine waits to start the component again, Start is launched at most once and Restarting never entered |
| Interleaving.SecondStartExactlyWhen | component/container.go:291-302 | after any run with at most one Start live, a step makes a second one live exactly when it is a call that finds Restarting while one is |
| Interleaving.ServingHappens | component/container.go:551-583 | any number of launches is reached |
| Interleaving.EveryShapeHappens | component/container.go:236-342 | every stage with every number of launches that this allows is reached by some run |
| Interleaving.ClosedShape | component/container.go:324-338 | a torn-down component went through one of the two whole shapes, told apart by its launches |
| Interleaving.TwoLiveStarts | component/container.go:567-575 | a run with two live Starts |
| Interleaving.StartedWithoutReader | component/container.go:352-354 | a run to Started without any message loop |
| Activation.StepKeeps | component/container.go:151-205 | every step keeps as many callers waiting as components are queued or in hand |
| Activation.ProtocolHolds | component/container.go:151-205 | the worker always has a receiver, activation is in queue order, results are conserved |
| Activation.Progress | component/container.go:151-205 | while a caller has not returned, a step other than an arrival is enabled |
| Activation.StepPays | component/container.go:151-205 | each such step brings the end one closer |
| Activation.OwnAnswer | component/container.go:201-205 | if no two callers waited at once, each got the result of its own component |
| Activation.AnswersCanCross | component/container.go:201-205 | with two waiting, the run can go on so that one is given the result of the other |
| Registry.Container.RemoveComponent | component/container.go:716-734 | the name leaves the map and its last occurrence the list |
| Registry.Container.ActivateNext | component/container.go:157-197 | answer, registry, stage and container after one turn of the worker, failed activations and duplicate names included |
| Registry.RemovedSet | component/container.go:716-734 | removal takes out exactly that name |
| Registry.SubsequenceRemoved | component/container.go:719-733 | removal keeps the order of the others |
| Registry.RegistryInvariant | component/container.go:167-183 | over any activations and removals the list has no duplicates, the names of the map, each under its own name, in the order of activation |
| Registry.AnsweredNilRunsExactlyWhen | component/container.go:160-197 | a nil answer means that the component runs exactly when it had not begun to close |
| StopLoop.ShutIs | component/container.go:346-396 | a Shutdown and the deferred call of the message loop are the calls of the state machine that Lifecycle describes |
| StopLoop.ShutLeaves | component/container.go:346-396 | what one Shutdown does to a component on its way out: the last takes it down, after a panicking Stop by the deferred call, the first of two starts it |
| StopLoop.StopsBackwards | component/container.go:623-652 | a list that can be stopped is: one Shutdown to each component, two to one found at Initialized or Restarting, latest first, none to the container itself, whose own entry is all that may be left |
| StopLoop.StopEndsExactlyWhen | component/container.go:616-652 | the loop ends exactly when no name is listed twice and every entry is the container's own in the first place, or a component that has not begun to close, whose message loop is this container's and whose Stop succeeds, at once or when called again after a panic |
| StopLoop.TreeStopsExactlyWhen | component/container.go:623-652 | over a tree of any depth, the loop ends exactly when that holds of every component below |
| Shutdown.ReverseOfPreOrder | component/container.go:623-652 | the order of shutdown is the reverse of pre-order, over the whole tree |
| Shutdown.OrderVisitsOnce | component/container.go:623-652 | and visits every component once |
| Shutdown.Stop | component/container.go:623-652 | the loop ends, takes down every component held, at any depth, and leaves at most the container's own entry |
| Shutdown.SendShutdown | component/container.go:384-396 | one Shutdown takes down a whole tree: all torn down with empty lists and maps, Stopped in that order, and the root gone from the container above |
| Growing.Bootstrap | component/container.go:132-205 | a container added to itself is started with its own entry first |
| Growing.Add | component/container.go:157-197 | a new component becomes the last one of the container it is added to, anywhere in the tree, exactly when its hooks succeed and the container holds none of its name; otherwise the tree stays, and the answer says why |
| Growing.AddAll | component/container.go:132-205 | any sequence of Adds, to whichever containers there are by then, with any names and outcomes, is answered Add by Add, and leaves the tree of exactly those that succeeded, each where it was added |
| Growing.AddAllThenShutdown | component/container.go:623-652 | and one Shutdown takes all of it down, each component once, in post-order |
| StopOrder.MembersAreAccepted | component/container.go:180-197 | the containers there are in the end are the topmost one and those whose Add succeeded, in order |
| StopOrder.KidsAreAdded | component/container.go:180-183 | every container holds, in order, the components whose Add to it succeeded |
| StopOrder.SiblingsStopInReverse | component/container.go:623-652 | of two components added to one container, the later, with all below it, stops before the earlier and all below that |
| StopOrder.HeldStopFirst | component/container.go:623-652 | all that a container holds, at any depth, stops before it |
| StopOrder.ReverseOfAddsExactlyWhen | component/container.go:623-652 | the whole tree stops in the reverse order of the Adds exactly when each Add that succeeded went to the component added last or to a container above it |
| StopOrder.NotTheReverse | component/container.go:623-652 | three Adds after which it does not |
| Messages.Component.UpdateComponentEtag | component/component.go:583-598 | a new tag and hash exactly when the hash of the content changed |
| Messages.Component.CreateCopy | component/component.go:602-606 | the copy carries the refreshed tag |
| Messages.Component.Persist | component/container.go:435-442 | persists if persistence is enabled |
| Messages.Component.Publish | component/container.go:444-461 | a copy paired with the cached one, or with itself, to every callback and then every subscriber, and into the cache |
| Messages.Component.StartMmux | component/container.go:346-465 | the loop handles the messages in order until it returns or breaks, each from the gate to the reply as the laws below describe it |
| MessageLaws.EveryMessageAnswered | component/container.go:357-464 | whatever the message and whatever happens meanwhile, the loop breaks exactly when something panics or the sender gave up and returns exactly after a Shutdown whose Stop succeeded; otherwise the sender gets one reply, nil exactly when a change was published or the component stopped, and changes grow by one exactly when one is published |
| MessageLaws.NotifyPeersPublishes | component/container.go:399-463 | a NotifyPeers publishes exactly one change: the content found then under a refreshed tag, told to every callback and then every subscriber right before a nil reply, and cached, with nothing stored |
| MessageLaws.PublishedIsCurrent | component/container.go:444-463 | whatever the message and whoever interferes, what is published is the content that the message leaves, under its current tag |
| MessageLaws.ContentAndEntries | component/container.go:420-443 | with nobody else at work, the content is replaced exactly by a handler that runs, and its entries go to the database exactly when persistence is enabled and nothing failed before |
| MessageLaws.LetIn | component/container.go:402-418 | a copy of another name or type, or with the current tag, is handled like any other message |
| MessageLaws.TellingInOrder | component/component.go:397-431 | every listener is told, once, in order |
| MessageLaws.OthersAct | component/component.go:602-606 | a copy taken by another goroutine has the content under the tag current then; listeners that come while a message is handled are told; a lifecycle call hands the entries to the database |
| MessageLaws.StateChangeRefreshes | component/container.go:759-765 | a state change issues a new tag exactly when the hash of the content is not the stored one |
| MessageLaws.NoLostUpdate | component/container.go:402-413 | once a message is acknowledged with a new hash published, a copy with a tag issued before it is refused for good |
| MessageLaws.StaleExactlyWhenHashChanged | component/component.go:583-598 | an acknowledged message outdates its sender's copy exactly when it changed the stored hash |
| MessageLaws.PublishesExactlyWhen | component/container.go:402-443 | a message publishes exactly when its tag is current, its handler succeeds and the update does; otherwise tag, hash and cache stay, even if the content changed |
| MessageLaws.EqualTagsEqualHashes | component/component.go:583-606 | in every run, copies with one tag were made of contents with one hash |
| MessageLaws.StoredDecodes | component/container.go:504-537 | loading from entries of a content gives every carried leaf of it back, and leaves all others alone, exactly when the values survive being persisted, which safe ones do |
| MessageLaws.AcknowledgedMeansStoredAndPublished | component/container.go:420-463 | a nil reply means that a later load gives the leaves of the content the handler made back, that tag, hash and cache match that content, and that every listener had its copy before the reply |
| MessageLaws.AcknowledgedInEveryRun | component/container.go:357-464 | the same after every run in which no update failed |
| MessageLaws.AcknowledgedStoredExactlyWhen | component/container.go:484-493 | an acknowledged message is stored exactly when its entries are not the cached ones, or are in the database already |
| MessageLaws.RetryPublishesUnstored | component/container.go:484-493 | a message whose update failed is acknowledged and published when sent again, and not stored |
| MessageLaws.LateWritePublishesUnstored | component/container.go:435-455 | what another goroutine writes between persisting and publishing is published, while the database holds what the handler made |
| MessageLaws.RunHonest | component/container.go:468-501 | as long as updates work, the database holds what the cache holds |
| MessageLaws.ChangesChain | component/container.go:444-462 | in every run each change starts where the one before it ended, the first from its own copy |
| Delivery.HeardOnce | component/component.go:397-431 | told to every callback and then every subscriber, a change is heard once by a listener registered once |
| Delivery.HearsEveryChangeOnce | component/container.go:444-462 | over any run without registrations such a listener hears every published change, once, in order, and nothing else |
| StoreCache.Persister.Persist | component/container.go:468-501 | nothing without entries or with the cached ones; otherwise the cache is set and the update tried; no other collection changes |
| StoreCache.HonestExactlyWhen | component/container.go:484-493 | a call keeps cache and database equal exactly when it answers nil or fails to write what is there |
| StoreCache.SkippingRefinesWriting | component/container.go:484-493 | when updates work, the database is as if every call had written |
| StoreCache.CacheIsLastTried | component/container.go:489 | the cache is the last entries handed over, written or not |
| StoreCache.DoneMeansStoredExactlyWhen | component/container.go:484-493 | after any run a nil answer means stored, except for the last entries handed over when the database does not hold them |
| StoreCache.RetriesNeverStore | component/container.go:484-493 | after a failed update no number of retries stores the entries |
| Text.AtoiPrint | component/persistence.go:222-224 | reading back a printed integer gives it, or the nearest one of 64 bits |
| Text.ZeroUnlessDecimal | component/persistence.go:222-224 | a text that is not an optional sign and digits is read as zero |
| Text.HexRoundTrip | component/persistence.go:268-270 | decoding undoes hexadecimal encoding |
| Text.HexEncodeAt | component/persistence.go:268-270 | two lower-case digits for each byte, in order |
| Text.DecodesExactlyWhen | component/persistence.go:245-248 | a string decodes exactly when it is made of pairs of digits of either case |
| Persistence.WrapIs | component/persistence.go:222-224 | an integer field keeps the low bits of what it is set to, for each width |
| Persistence.ParseShowExactlyWhen | component/persistence.go:151 | a boolean, integer of any width or string is set to the value it was shown from exactly when its type has no method to show it, or one whose text is read as the value |
| Persistence.MethodKeeps | component/persistence.go:218-228 | which values survive such a method: zero for integers not written as decimals, false for booleans not written as a word for true, strings left as they are |
| Persistence.DecryptEncrypt | component/persistence.go:240-310 | splitting after 24 characters and opening undoes sealing and framing |
| Persistence.SealedWithKey | component/persistence.go:161-172 | with a key of 16, 24 or 32 bytes and a nonce, the entry of a leaf tagged encrypt is encrypted, its value the hexadecimal form of the nonce and of the sealed text |
| Persistence.EntryIs | component/persistence.go:151-174 | every entry has the name and hierarchy of its leaf, and is encrypted exactly when the tag is encrypt, the key one of AES and a nonce was drawn; otherwise it holds the text in clear |
| Persistence.OpenedText | component/persistence.go:205-216 | an encrypted entry that opens is restored from what it opens to if that is not empty, and one that does not from its ciphertext |
| Persistence.UnopenedText | component/persistence.go:205-216 | so is one whose key or value has not the right form, and an entry in clear from its value |
| Persistence.RestoredIs | component/persistence.go:193-228 | a leaf tagged native or encrypt, of boolean, integer or string kind, holds what the text of the entry of its name and hierarchy is read as; every other leaf keeps what it had |
| Persistence.PlacesAre | component/persistence.go:139-157 | the leaves persisted are exactly the tagged ones, at any depth, with the types on the way as hierarchy, and none inside an embedded SimpleComponent |
| Persistence.LeafRoundTripExactlyWhen | component/persistence.go:205-228 | one leaf comes back exactly when it is no encrypted empty string and, if its type has a method to show it, what comes back of that text is read as the value |
| Persistence.MarshalType | component/persistence.go:139-178 | one entry appended per tagged leaf, in field order, through nested structs, with the text its type shows, encrypted exactly where EntryIs says |
| Persistence.UnmarshalType | component/persistence.go:180-237 | every leaf tagged native or encrypt is set from the entry of its name and hierarchy, as RestoredIs says, and nothing else changes |
| Persistence.Persistable | component/container.go:540-549 | the entries of a component |
| Persistence.ByName | component/container.go:526-529 | each name with the last entry that bears it |
| Persistence.Load | component/container.go:504-537 | the component restored from the entries read, unchanged when there are none |
| Persistence.SameTypeSamePlaces | component/persistence.go:139-178 | two values of one type have the same tagged leaves |
| Persistence.TakesLastEntry | component/container.go:526-529 | a leaf takes the last entry of its name exactly when the hierarchies match |
| Persistence.EarlierNamesakeLoses | component/container.go:526-529 | of two leaves of one name the earlier takes the value of the later, exactly when that survives, or none |
| Persistence.RoundTripExactlyWhen | component/persistence.go:139-237 | with unique names every carried leaf is restored and every other kept, exactly when the entry of each carried one lets its value survive |
| Persistence.Restart | component/container.go:504-549 | the same on the heap: persist one component, load into another of its type; and all is restored when every carried leaf is safe, whichever encryptions succeed |
| Routing.HandlerTable.GetHttpHandler | component/container.go:688-700 | the handler of the longest registered prefix that is the URI or ends before a separator, nothing when there is none, out of range exactly when none and no leading separator |
| Routing.AnswerUnique | component/container.go:688-700 | that answer is the only one |
| Routing.HandlerTable.Install | component/container.go:607-610 | the routes of a component over whatever was there |
| Routing.HandlerTable.RemoveHttpHandlers | component/container.go:702-713 | exactly those routes are removed |
| Routing.StopServing | component/container.go:329-330 | the routes are gone from the root exactly when the container that stops the component is the root, or they were not there |
| Routing.DeriveUri | component/container.go:783-797 | the concatenation is the base URI of the path from the topmost container |
| Routing.DeriveHttpHandlers | component/container.go:778-823 | the routes of a component, as the laws below describe them, and its URI |
| Routing.MethodAt | component/container.go:804-818 | a handler method that shares its URI with no other is found there |
| Routing.RoutesAre | component/container.go:804-818 | every route is that of one of the methods, under its own URI, and every method's URI is routed |
| Routing.AloneExactlyWhen | component/container.go:811-818 | a method has its URI for itself exactly when it is ServeHTTP or no other has its name up to case |
| Routing.SplitJoin | component/container.go:783-797 | splitting a base URI gives the lower-case names back |
| Routing.ToLowerSame | component/container.go:786-816 | two names are spelled alike in a URI exactly when they differ at most in the case of their letters |
| Routing.BaseUriInjective | component/container.go:736-797 | two base URIs are equal exactly when the lower-case paths are |
| Routing.DispatchesTo | component/container.go:688-700 | a request at or below the URI that a method has for itself, with no longer prefix registered, reaches that method |
| Routing.DispatchesBack | component/container.go:805-818 | a request at or below a component with no longer prefix registered reaches its ServeHTTP |
| Routing.RoutesCollideExactlyWhen | component/container.go:791-818 | two routes, of any components and methods, have one URI exactly when the paths they stand for agree up to case |
| Routing.MethodHidesChildExactlyWhen | component/container.go:815-818 | a handler method shares the URI of a child, or of another method, exactly when the names agree up to case |
| Refusal.ActivateNext | component/container.go:157-197 | one turn of the worker on registry and routes: they are installed before the name is looked up |
| Refusal.RefusedAddChangesRoutesExactlyWhen | component/container.go:167-179 | an Add answered with an error changes the routes exactly when the name is taken and the component brings a route that was not there as it is |
| Refusal.RefusedNamesakeTakesOver | component/container.go:167-179 | the refused component answers the requests of the one that holds its name exactly when it serves HTTP |
| Callbacks.RegistrationOrder | component/component.go:346-357 | heads latest first, then tails in order |
| Callbacks.CallbackList.CallbackAll | component/component.go:346-357 | the same of the list after any sequence of registrations |
| Callbacks.CallbackList.Callback | component/component.go:346-357 | refused after Started; otherwise at the head or the tail |
| Callbacks.CallbackList.RemoveCallback | component/component.go:359-367 | the entry at that index leaves, or an error |
| Callbacks.CallbackList.Unsubscribe | component/component.go:383-395 | that subscriber leaves, or an error |
| Callbacks.CallbackList.InvokeCallbacks | component/component.go:397-425 | each callback of the list as it was, once, in order, whatever is removed meanwhile |
| Callbacks.CallbackList.TearDown | component/component.go:263-274 | the callbacks at odd positions stay; no subscriber does |
| Callbacks.SelfRemovalLeavesOddOnes | component/container.go:766-772 | callbacks removing themselves by their index leave every second one, none exactly when there was at most one |

## Left out

- The front of Add (`component/container.go:132-150`), so that `Growing` starts from Adds that get past it: the name check, the name equal to the container's, loggers, and creating the queue; the protocol starts from a queue that exists. Deferred add-ons (207-222) are further Adds.
- Stop of a container runs inside the state machine call of that container. `Lifecycle` has its outcome as a parameter, `Shutdown` has the recursion itself on the heap, with user Stops that succeed, and `StopLoop` has the other outcomes, on values.
- Loading and persisting around a state machine call (`component/container.go:238-247`, 271-276) appear in `Messages` as something other goroutines do, not as effects in `Lifecycle`.
- The components that a container is stopping are taken to be called by nobody else meanwhile: `StopLoop` moves their stages by its own Shutdowns, each with the deferred call of the message loop where that ends. A component without a message loop makes the loop block or run for ever alike, and a panic in the deferred call ends the process; neither is told apart from not ending.
- Routing.RoutesCollideExactlyWhen: method names are ASCII, as lower-casing is modelled for ASCII letters only; component names are so by validation, but Go admits other letters in method names.
- Routing.MethodHidesChildExactlyWhen: likewise.
- Routing.AloneExactlyWhen: likewise.
- Real time: sleeps, callback deadlines, the 75-second cap, and the retry wait of SendSyncMessage. A sender that gave up is a reply that panics.
- Unsynchronised memory: lazy lock creation, the `err` shared by Add and its worker, sends on a channel being closed, and refreshing a tag from several goroutines at once. Steps are atomic.
- The cipher, key derivation, JSON, hashing, deep copies and identifiers: an ideal cipher, equal bytes for equal entries, an arbitrary partial hash, values, and a source that never repeats. Strings are sequences of characters, without an encoding.
- Persistence.Load: requires that an encrypted entry a leaf is restored from has the 24 characters of its nonce, when the key decodes so that the code slices them off; shorter ones panic there. Tagged fields that cannot be set panic likewise and are not modelled.
- Persistence.UnmarshalType: requires the same, and that no two leaves share a cell, which holds of the fields of a Go struct.
- Routing.HandlerTable.Install: a map is walked in any order there; the routes of one component have distinct URIs unless method names differ only in case, where the order decides.
- Subscribe and notifySubscribers are not modelled by themselves; in `Messages` a subscriber is a listener told after the callbacks, and the order in which the map is walked is given.
- The HTTP server and responses, the file database, the relational branch, application start-up, signals, loggers and enum printing.
