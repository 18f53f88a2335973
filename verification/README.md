# star-engine event and dispatch core, in Dafny

A model of the event and scheduling core of the star-engine ECS (`src/ecs/`):

- **Event values** (`shred_event.rs`): an event is its type identity
  (`EventID`, the `TypeId` of its concrete type), a `u64` priority (0 unless
  the type overrides `priority`) and its field values. `downcast_event`
  returns the concrete value when the identity matches and hands the value
  back as `Box<dyn Any>` otherwise, which keeps its identity and fields but
  no longer has a priority; `force_downcast_event` panics on a mismatch and
  is modelled with the match as a precondition.
- **Ordering and the `Events` container** (`event.rs`): events order by
  priority only and compare equal by identity only. `Events` is a vector plus
  a flag. `new` sets the flag, `push`/`push_box` clear it, `into_iter` sorts
  only when the flag is set, and `+`/`+=` always append and re-sort with
  `sort_unstable`, which fixes the priority sequence but not the order among
  equal priorities.
- **The filtered view** (`events.rs`): `Events<'a, E>` borrows the
  `NotifierQueue` resource; its iterator's `next` returns `None` at the first
  event the filter rejects, so a `for` loop yields the longest accepted prefix.
- **`EventManager`** (`notifier.rs`): notifiers are registered in order;
  batches of events are merged into one pending queue with `+=`.
- **The scheduler** (`scheduler.rs`, `system.rs`): `dispatch` increments
  `tick_nonce`, then visits the systems in list order and runs each one whose
  `ExecutionPolicy` passes at the new tick; running a system fetches its
  declared data from the world and calls `run` with it.

Files: `wrappers.dfy` (Option, Result), `shred_event.dfy` (module
`ShredEvent`), `event_order.dfy` (`EventOrder`), `priority_sort.dfy`
(`PrioritySort`), `event_core.dfy` (`EventCore`), `resources.dfy`
(`Resources`, the world as the core sees it), `events_view.dfy`
(`EventsView`), `notifier.dfy` (`Notifier`), `cadence.dfy` (`Cadence`, the
policies and the gate), `system.dfy` (`SystemModel`), `scheduler.dfy`
(`Scheduler`).

Representation choices:

- A type identity is `TypeOf(name)` for a named concrete type, or
  `BoxOfDynEvent` for the type `Box<dyn Event>` itself, which `is` ends up
  testing.
- The world is a map from resource identity to resource. The
  `NotifierQueue` resource is a sequence of events; every other resource is an
  opaque value. specs' `fetch` panics on a missing resource, so fetching
  requires the declared resources to be present.
- A system's `execution_policy`, `execution_time` and `run` are user code,
  and `run` takes `&mut self`. The model records the data each run was given,
  so "ran once" and "never ran" are observable, and takes the system's state
  to be what those runs made it: both queries are functions of the run
  history, and `dispatch` asks for the policy again at every tick. A system
  can therefore switch itself off by running.
- A system whose gate fails is never fetched for, so only the resources of
  the systems that do run must be present (`Scheduler.Fetchable`).
- A dispatch returns the new scheduler state, the systems afterwards, and the
  trace of the indices it ran, in order.

Where the source's own comments and its code disagree, the model follows
the code:

- The comment at src/ecs/event.rs:46-47 says the flag records whether the
  list must be re-arranged. `push` and `push_box` (src/ecs/event.rs:54-61)
  clear it, so a push never marks the list for sorting (see Findings).
- The doc comment at src/ecs/shred_event.rs:40-41 says a higher priority is
  handled sooner. `Ord` compares priorities ascending (src/ecs/event.rs:20-24)
  and the list is sorted with it, so iteration yields the lowest priority
  first.
- The doc comment at src/ecs/shred_event.rs:63-68 describes a dispatch phase
  that pops events by priority and sends each to every `NotifierCallback`
  system. No such phase exists in the modelled files: `EventManager`
  (src/ecs/notifier.rs) only registers notifiers and merges queues.

## Model

| member | source | states |
|---|---|---|
| ShredEvent.IdDependsOnlyOnType | src/ecs/shred_event.rs:7-9 | two values of one event type have the same identity, whatever their fields |
| ShredEvent.DefaultPriorityIsZero | src/ecs/shred_event.rs:42 | an event type that does not override `priority` gives every value priority 0 |
| ShredEvent.DowncastEvent | src/ecs/shred_event.rs:13-27 | `Ok` exactly when the identity is the target's, carrying the same value; otherwise `Err` carrying the value's identity and fields as `Box<dyn Any>`, with no priority |
| ShredEvent.DowncastAny | src/ecs/shred_event.rs:23-26 | downcasting a `Box<dyn Any>` succeeds exactly when its identity is the target's, and gives the value of that type with its type's priority; otherwise the box unchanged |
| ShredEvent.ForceDowncastEvent | src/ecs/shred_event.rs:29-36 | needs a matching identity (it panics otherwise), and then equals the `Ok` value of `downcast_event` |
| ShredEvent.DowncastRoundTrip | src/ecs/shred_event.rs:23-24 | boxing a value of type E and downcasting to E succeeds with the same fields, and the forced downcast gives the same value |
| ShredEvent.DowncastMismatchKeepsValue | src/ecs/shred_event.rs:23-26 | after a failed downcast the returned `Box<dyn Any>` holds the original's identity and fields: it downcasts to exactly the types the original would, and to its own type gives back the original event |
| EventOrder.Cmp | src/ecs/event.rs:20-24 | `Less`, `Equal` or `Greater` exactly as the priorities compare |
| EventOrder.PartialCmp | src/ecs/event.rs:5-9 | always defined and equal to `cmp` |
| EventOrder.Eq | src/ecs/event.rs:11-15 | true exactly when the two type identities are equal |
| EventOrder.CmpIgnoresTagAndPayload | src/ecs/event.rs:20-24 | events with the same priorities compare the same, whatever their types and fields |
| EventOrder.EqIgnoresPriority | src/ecs/event.rs:11-15 | events with the same identities are equal or not alike, whatever their priorities |
| EventOrder.CmpIsTotalPreorder | src/ecs/event.rs:20-24 | `cmp` is antisymmetric in its answer, total and transitive |
| EventOrder.OrdDisagreesWithEq | src/ecs/event.rs:11-24 | two events of different types can compare `Equal`, and two of one type can compare `Less` |
| PrioritySort.SortUnstable | src/ecs/event.rs:68-70 | the result is ascending by priority and a permutation of the input |
| PrioritySort.SortedPermutationsAgree | src/ecs/event.rs:68-70 | any two ascending permutations of the same events have the same priority at every position |
| PrioritySort.TieOrderIsOpen | src/ecs/event.rs:69 | two events of equal priority admit two different ascending orders, so the tie order is not fixed |
| EventCore.IsNeverHolds | src/ecs/event.rs:26-29 | `is::<E>` is false for every event, including a boxed value of type E |
| EventCore.IsIntended | src/ecs/event.rs:26-29 | the corrected test holds exactly when `downcast_event` to the target succeeds |
| EventCore.IsIntendedMatchesDowncast | src/ecs/event.rs:31-40 | the corrected test accepts every value of the target type and agrees with `downcast` on every event |
| EventCore.Downcast | src/ecs/event.rs:31-40 | `Ok` with the same value exactly when the identity matches, otherwise `Err` with the value's identity and fields as `Box<dyn Any>` |
| EventCore.ForceDowncast | src/ecs/event.rs:42-44 | needs a matching identity (it panics otherwise); the result is `downcast`'s `Ok` value, with the fields and priority unchanged |
| EventCore.New | src/ecs/event.rs:51-53 | no events, flag set |
| EventCore.PushBox | src/ecs/event.rs:58-61 | exactly one event appended at the end, earlier events unchanged, flag cleared |
| EventCore.Push | src/ecs/event.rs:54-57 | appends exactly the boxed value: the pushed type's identity, that type's priority for the fields, and the fields; earlier events unchanged, flag cleared |
| EventCore.Sort | src/ecs/event.rs:68-70 | items become an ascending permutation of themselves; the flag is untouched |
| EventCore.Add | src/ecs/event.rs:76-80 | items are an ascending permutation of the left items followed by the right items, lengths add, and the left flag is kept |
| EventCore.AddAssign | src/ecs/event.rs:84-87 | as `+`: an ascending permutation of both containers' events, lengths add, and the flag of `self` is unchanged |
| EventCore.AddDeterminedUpToTies | src/ecs/event.rs:76-87 | any ascending arrangement of the merged events has the merge result's priority sequence |
| EventCore.IntoIter | src/ecs/event.rs:93-100 | a permutation of the items; ascending when the flag is set, the stored order when it is clear |
| EventCore.IntoIterAfterPushIsInsertionOrder | src/ecs/event.rs:93-99 | after any push, iteration yields the events in insertion order |
| EventCore.PushedEventsIterateUnsorted | src/ecs/event.rs:54-61 | pushing priority 5 then priority 1 into a new container iterates as 5, 1, which is not ascending |
| EventCore.PushBoxIntended | src/ecs/event.rs:58-61 | the corrected push appends the event, keeps the flag discipline, and iteration then yields an ascending permutation |
| EventCore.IntendedDisciplineIteratesSorted | src/ecs/event.rs:46-47 | under the corrected push, `new`, pushes and merges keep "flag clear implies sorted", so iteration is always ascending |
| EventsView.Iter | src/ecs/events.rs:22-31 | the iterator starts at the first event of the borrowed queue |
| EventsView.Next | src/ecs/events.rs:73-84 | returns the current event when the filter accepts its identity, `None` when it rejects it or the queue is exhausted; advances by one unless at the end; never changes the queue |
| EventsView.ForLoop | src/ecs/events.rs:69-85 | the events a `for` loop yields are the longest accepted prefix of what remains |
| EventsView.LongestAcceptedPrefixIsUnique | src/ecs/events.rs:76-80 | the longest accepted prefix is unique, so it fully determines the loop's output |
| EventsView.ForLoopIsTakeWhile | src/ecs/events.rs:73-84 | a `for` loop over the view yields the longest accepted prefix of the whole queue |
| EventsView.ForLoopStopsAtFirstRejection | src/ecs/events.rs:76-81 | with accepted, rejected, accepted events the loop yields only the first, while a further `next` would return the third |
| EventsView.IterateAdvances | src/ecs/events.rs:74 | after k calls of `next` the position is k further on, capped at the end, and the queue and filter are unchanged |
| EventsView.IterationLeavesQueueUnchanged | src/ecs/events.rs:12 | iterating any number of steps never changes the borrowed queue |
| EventsView.Setup | src/ecs/events.rs:39-41 | installs an empty `NotifierQueue`, replacing any existing one, and leaves every other resource as it was |
| EventsView.Reads | src/ecs/events.rs:51-53 | the view declares exactly one read, the `NotifierQueue` resource |
| EventsView.Writes | src/ecs/events.rs:54-56 | the view declares no write |
| EventsView.FetchView | src/ecs/events.rs:43-49 | the fetched view borrows the stored queue unchanged, with the requested filter |
| EventsView.ViewOnlyReadsTheQueue | src/ecs/events.rs:43-56 | the declaration resolves to the queue alone, and the view borrows exactly that resource |
| EventsView.SetupThenIterateYieldsNothing | src/ecs/events.rs:39-41 | a view fetched right after `setup` iterates over nothing |
| Notifier.New | src/ecs/notifier.rs:15-20 | no notifiers and an empty queue with its flag set |
| Notifier.AddNotifier | src/ecs/notifier.rs:22-24 | appends exactly one notifier after the earlier ones and leaves the queue unchanged |
| Notifier.AppendEventQueue | src/ecs/notifier.rs:26-28 | the queue becomes an ascending permutation of the old events followed by the new ones, lengths add, and the notifiers are unchanged |
| Notifier.RegisterAllKeepsOrder | src/ecs/notifier.rs:22-24 | registering a list of notifiers one by one yields the earlier notifiers followed by that list in order, with the queue unchanged |
| Notifier.AppendAllMergesEverything | src/ecs/notifier.rs:26-28 | after merging any batches, the queue holds exactly the earlier events and all batches' events, and the notifiers are unchanged |
| Notifier.AppendAllKeepsQueueSorted | src/ecs/notifier.rs:26-28 | after merging at least one batch the queue is ascending, and the queue invariant survives any number of merges |
| Notifier.QueueInvariantIsKept | src/ecs/notifier.rs:15-28 | `new` gives a sorted queue with its flag set, and registering or merging keeps it so |
| Cadence.PoliciesWithoutCadence | src/ecs/scheduler.rs:41-49 | `EveryTick` passes at every tick; `OnInitOnly`, `EventOnly` and `DontExecute` never pass |
| Cadence.LiteralCadenceIsTickDividesN | src/ecs/scheduler.rs:42-46 | as written, `EveryNTicks(n)` passes exactly at the ticks that divide n |
| Cadence.LiteralCadenceStopsAfterN | src/ecs/scheduler.rs:43 | as written, `EveryNTicks(n)` with n > 0 never passes at a tick above n |
| Cadence.LiteralCadenceZeroAlwaysRuns | src/ecs/scheduler.rs:43 | as written, `EveryNTicks(0)` passes at every tick |
| Cadence.LiteralCadenceDisagreesWithIntent | src/ecs/scheduler.rs:43 | for n = 2 the written test passes at tick 1 and fails at tick 4, and the corrected one does the opposite |
| Cadence.IntendedCadenceIsEveryNthTick | src/ecs/scheduler.rs:42-46 | the corrected test passes exactly at the multiples of n > 0, repeats with period n, and agrees with the written test on every other policy |
| SystemModel.ExecutionPolicyOf | src/ecs/system.rs:23-25 | the interface asks the wrapped system for its policy in the state its runs so far have left it in |
| SystemModel.ExecutionTimeOf | src/ecs/system.rs:26-28 | the interface asks the wrapped system for its time class in the state its runs so far have left it in |
| SystemModel.RunOnWorld | src/ecs/system.rs:29-32 | fetches exactly the declared resources from the world once and runs once with them, after the earlier runs; the declaration is unchanged, and the queries then answer for the state the new run left |
| SystemModel.RunCanChangePolicy | src/ecs/system.rs:10-12 | a system can change its answers by running: the one-shot system reports `EveryTick` before its first run and `DontExecute` after it |
| Scheduler.Visit | src/ecs/scheduler.rs:40-51 | a visited system stays the same system and gains one run, with the fetched data, exactly when the policy it reports now passes at the tick |
| Scheduler.Trace | src/ecs/scheduler.rs:38-52 | the positions the loop runs, from a position on, are strictly ascending and are exactly those whose policy passes at the tick |
| Scheduler.Dispatch | src/ecs/scheduler.rs:36-53 | the counter rises by one before any gate is tested; each system runs at most once, in list order, exactly when its policy passes at the new tick; none is added, removed or reordered |
| Scheduler.AllResolvableSuffices | src/ecs/scheduler.rs:42-51 | when every declaration resolves against the world, no number of dispatches panics |
| Scheduler.IdleSystemsNeedNoData | src/ecs/scheduler.rs:47-51 | systems that are always skipped are never fetched for, so they dispatch against any world, even one lacking every resource they declare |
| Scheduler.VisitTimes | src/ecs/scheduler.rs:38-52 | one system across k dispatches stays the same system, keeps its earlier runs, and gains at most one run per dispatch, each with the data fetched from the world |
| Scheduler.DispatchTimesIsPointwise | src/ecs/scheduler.rs:38-52 | over any number of dispatches, what happens to one system, and which of its resources must be present, depends only on that system |
| Scheduler.DispatchTimesEffect | src/ecs/scheduler.rs:36-53 | over k dispatches each system stays the same system, keeps its earlier runs, and gains at most k runs, each with the data fetched from the world |
| Scheduler.DispatchTimesUnderFixedPolicy | src/ecs/scheduler.rs:40-51 | over k dispatches a system that always reports policy p gains exactly one run per tick at which p passes |
| Scheduler.NoPassNoRun | src/ecs/scheduler.rs:40-50 | a system whose fixed policy passes at none of the next k ticks keeps its runs exactly as they were |
| Scheduler.EveryTickAcrossDispatches | src/ecs/scheduler.rs:41 | a system that always reports `EveryTick` gains exactly one run per dispatch |
| Scheduler.IdleAcrossDispatches | src/ecs/scheduler.rs:47-49 | a system that always reports `OnInitOnly`, `EventOnly` or `DontExecute` never runs through any number of dispatches |
| Scheduler.EveryNTicksIdleAfterN | src/ecs/scheduler.rs:42-46 | as written, once the counter has reached n > 0, a system that always reports `EveryNTicks(n)` never runs again |
| Scheduler.OneShotRunsOnce | src/ecs/scheduler.rs:40-51 | a system that switches itself off by running runs exactly once through any positive number of dispatches |

## Left out

- ShredEvent.DowncastEvent: models the evident intent, a transfer of ownership. As written, `event` is neither forgotten nor leaked after `Box::from_raw` (src/ecs/shred_event.rs:20-22), so the allocation is freed again when `event` goes out of scope: a double free on `Ok` and a dangling box on `Err`. Memory safety is not modelled.
- EventCore.Downcast: the same as `ShredEvent.DowncastEvent` (src/ecs/event.rs:31-40); the double free and the dangling box are not modelled.
- The raw-pointer handling in `Events::iter` is a memory-model concern; only the logical outcome is modelled.
- PrioritySort.SortUnstable: its body is an insertion sort, which happens to be stable. Every contract and lemma about it uses only ascending order and permutation, which is all `sort_unstable` promises, and `PrioritySort.TieOrderIsOpen` shows those leave the tie order open.
- SystemModel.System: a system's state is taken to be determined by the data its runs were given. State changed through interior mutability, or by anything other than `run`, is not modelled.
- Scheduler.EveryTickAcrossDispatches: stated for a system whose policy does not change with its runs; `Scheduler.DispatchTimesEffect` covers every system, with bounds only.
- Scheduler.IdleAcrossDispatches: stated for a system whose policy does not change with its runs, as above.
- Scheduler.EveryNTicksIdleAfterN: stated for a system whose policy does not change with its runs, as above.
- `Events::inner` and `Events::inner_mut` are plain accessors to the vector; `inner_mut` lets callers change the items without touching the flag, and that path is not modelled.
- `EventsIterator::new` is the record constructor of the iterator.
- `downcast_ref`, `force_downcast_event_ref` and `NotifierQueue::push_event`/`pop` are not in the modelled files. `NotifierQueue` is modelled only as the sequence of events it stores.
- The filter trait `EventFilter` and its tuple implementations are not in the modelled files. A filter is modelled as the set of identities it accepts.
- The `Notifier` trait only declares `filter` and `notify`. No routing, delivery or `run_cycle` exists in the source, so none is modelled.
- Parallel dispatch is mentioned in a comment but not implemented.
- `ExecutionTime` is a datatype only: `dispatch` never reads it.
- Scheduler.Dispatch: `tick_nonce` is a `u128` in the source and an unbounded counter here. Overflow after 2^128 dispatches is not modelled.
- SystemModel.RunOnWorld: what `run` does is user code. The model records the data each run was given, and does not model writes through resources held for writing. So within one dispatch every system sees the same world.
- `Game`, `GameBuilder`, the network server, the logger, the scripting bridge and `accessor.rs` are outside the event and dispatch core.

## Findings

| source | as written | input that shows it | evidently intended | confidence | as-written member | corrected member |
|---|---|---|---|---|---|---|
| src/ecs/event.rs:26-29 | the `&Box<dyn Event>` itself is coerced to `&dyn Any`, so `is::<E>` compares E with `Box<dyn Event>` | a boxed value of type E: `is::<E>` answers false | true exactly when the boxed value's type is E | high; not executed | EventCore.IsNeverHolds | EventCore.IsIntendedMatchesDowncast |
| src/ecs/event.rs:54-61 | `push`/`push_box` clear the flag that `into_iter` tests before sorting | `new`, push priority 5, push priority 1, `into_iter` yields 5 then 1 | a push marks the list for re-sorting, so iteration is ascending | medium; not executed | EventCore.PushedEventsIterateUnsorted | EventCore.IntendedDisciplineIteratesSorted |
| src/ecs/scheduler.rs:43 | `n % tick_nonce != 0` skips the system, so it runs when the tick divides n | `EveryNTicks(2)` runs at tick 1 and not at tick 4 | run when n divides the tick (`tick_nonce % n == 0`) | high; not executed | Cadence.LiteralCadenceDisagreesWithIntent | Cadence.IntendedCadenceIsEveryNthTick |

The scheduler and container models follow the code as written. The corrected
definitions (`EventCore.IsIntended`, `EventCore.PushBoxIntended`,
`Cadence.ShouldRunIntended`) sit beside them, and their properties are proved
about them.
