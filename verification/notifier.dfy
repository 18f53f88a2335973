/**
  The `EventManager` of src/ecs/notifier.rs: a list of registered notifiers,
  kept in registration order, and one pending `Events` queue into which
  batches are merged with `+=`.

  The manager stores each notifier as a `Box<dyn Any>`; the only part of a
  notifier the model keeps is its declared filter. Routing and delivery are
  not written in the source and are not modelled.
*/
module Notifier {
  import opened ShredEvent
  import opened PrioritySort
  import EventCore

  /** A registered notifier, of which only `filter()` is visible. */
  datatype RegisteredNotifier = RegisteredNotifier(filter: seq<EventID>)

  /** `EventManager { notifiers, event_queue }`. */
  datatype EventManager = EventManager(notifiers: seq<RegisteredNotifier>, eventQueue: EventCore.Events)

  /** `EventManager::new`: no notifiers and a new, empty queue. */
  function New(): (m: EventManager)
    ensures m.notifiers == []
    ensures m.eventQueue.items == [] && m.eventQueue.resort
  {
    EventManager([], EventCore.New())
  }

  /** `add_notifier`: registers one notifier after all earlier ones; the queue is untouched. */
  function AddNotifier(m: EventManager, n: RegisteredNotifier): (r: EventManager)
    ensures |r.notifiers| == |m.notifiers| + 1
    ensures r.notifiers[..|m.notifiers|] == m.notifiers && r.notifiers[|m.notifiers|] == n
    ensures r.eventQueue == m.eventQueue
  {
    m.(notifiers := m.notifiers + [n])
  }

  /** `append_event_queue`: `event_queue += events`; the notifiers are untouched. */
  function AppendEventQueue(m: EventManager, events: EventCore.Events): (r: EventManager)
    ensures Sorted(r.eventQueue.items)
    ensures multiset(r.eventQueue.items) == multiset(m.eventQueue.items + events.items)
    ensures |r.eventQueue.items| == |m.eventQueue.items| + |events.items|
    ensures r.eventQueue.resort == m.eventQueue.resort
    ensures r.notifiers == m.notifiers
  {
    m.(eventQueue := EventCore.AddAssign(m.eventQueue, events))
  }

  /** Registers `ns` one after another. */
  function RegisterAll(m: EventManager, ns: seq<RegisteredNotifier>): EventManager
    decreases |ns|
  {
    if |ns| == 0 then m else RegisterAll(AddNotifier(m, ns[0]), ns[1..])
  }

  /** Registration order is kept: the notifiers are the earlier ones followed by `ns`, in order. */
  lemma {:induction false} RegisterAllKeepsOrder(m: EventManager, ns: seq<RegisteredNotifier>)
    ensures RegisterAll(m, ns).notifiers == m.notifiers + ns
    ensures RegisterAll(m, ns).eventQueue == m.eventQueue
    decreases |ns|
  {
    if |ns| > 0 {
      RegisterAllKeepsOrder(AddNotifier(m, ns[0]), ns[1..]);
      assert m.notifiers + [ns[0]] + ns[1..] == m.notifiers + ns;
    }
  }

  /** Merges the batches one after another. */
  function AppendAll(m: EventManager, batches: seq<EventCore.Events>): EventManager
    decreases |batches|
  {
    if |batches| == 0 then m else AppendAll(AppendEventQueue(m, batches[0]), batches[1..])
  }

  /** All the events of a sequence of batches. */
  function Flatten(batches: seq<EventCore.Events>): seq<Event>
    decreases |batches|
  {
    if |batches| == 0 then [] else batches[0].items + Flatten(batches[1..])
  }

  /**
    The queue invariant of a manager: the pending events are ascending, and
    the flag stays set (the manager never pushes, so it is never cleared).
  */
  predicate QueueInvariant(m: EventManager)
  {
    Sorted(m.eventQueue.items) && m.eventQueue.resort
  }

  /**
    After merging any batches, the queue holds exactly the earlier events and
    every batch's events, and the notifiers are untouched.
  */
  lemma {:induction false} AppendAllMergesEverything(m: EventManager, batches: seq<EventCore.Events>)
    ensures multiset(AppendAll(m, batches).eventQueue.items) == multiset(m.eventQueue.items + Flatten(batches))
    ensures AppendAll(m, batches).notifiers == m.notifiers
    decreases |batches|
  {
    if |batches| > 0 {
      var m1 := AppendEventQueue(m, batches[0]);
      AppendAllMergesEverything(m1, batches[1..]);
      calc {
        multiset(m.eventQueue.items + Flatten(batches));
        multiset(m.eventQueue.items) + multiset(batches[0].items) + multiset(Flatten(batches[1..]));
        multiset(m1.eventQueue.items) + multiset(Flatten(batches[1..]));
        multiset(m1.eventQueue.items + Flatten(batches[1..]));
      }
    }
  }

  /**
    After merging at least one batch the queue is ascending, and a manager
    that satisfied the queue invariant still does.
  */
  lemma {:induction false} AppendAllKeepsQueueSorted(m: EventManager, batches: seq<EventCore.Events>)
    ensures |batches| > 0 ==> Sorted(AppendAll(m, batches).eventQueue.items)
    ensures QueueInvariant(m) ==> QueueInvariant(AppendAll(m, batches))
    decreases |batches|
  {
    if |batches| > 0 {
      AppendAllKeepsQueueSorted(AppendEventQueue(m, batches[0]), batches[1..]);
    }
  }

  /** `new` establishes the queue invariant, and registering or merging keeps it. */
  lemma QueueInvariantIsKept(m: EventManager, n: RegisteredNotifier, events: EventCore.Events)
    ensures QueueInvariant(New())
    ensures QueueInvariant(m) ==> QueueInvariant(AddNotifier(m, n))
    ensures QueueInvariant(m) ==> QueueInvariant(AppendEventQueue(m, events))
  {
  }
}
