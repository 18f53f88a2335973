/**
  The type test, the downcasts and the `Events` container of
  src/ecs/event.rs.

  `Events` is a vector of boxed events plus a flag which, by the source's own
  comment, records whether the list still has to be re-arranged before it is
  consumed. The model follows the code as written: `new` sets the flag,
  `push` clears it, and `into_iter` sorts only when it is set.
*/
module EventCore {
  import opened Wrappers
  import opened ShredEvent
  import opened EventOrder
  import opened PrioritySort

  /**
    The type identity `is` actually inspects: the reference to the box is
    coerced to `&dyn Any`, so its concrete type is `Box<dyn Event>` whatever
    the box holds.
  */
  function CoercedTypeId(boxed: Event): (id: TypeTag)
    ensures id == BoxOfDynEvent
  {
    BoxOfDynEvent
  }

  /** `is::<E>(&event)` as written. */
  function Is(target: EventType, boxed: Event): bool
  {
    CoercedTypeId(boxed) == Id(target)
  }

  /**
    `is` as written never holds for an event type, not even for the type the
    box really holds.
  */
  lemma IsNeverHolds(target: EventType, payload: Payload)
    ensures !Is(target, NewEvent(target, payload))
    ensures forall e: Event :: !Is(target, e)
  {
  }

  /** `is` as evidently intended: the boxed value's own identity is the target's. */
  function IsIntended(target: EventType, boxed: Event): (r: bool)
    ensures r <==> DowncastEvent(boxed, target).Ok?
  {
    boxed.tag == Id(target)
  }

  /** The intended test succeeds exactly on values of the target type, and agrees with `downcast`. */
  lemma IsIntendedMatchesDowncast(target: EventType, payload: Payload, e: Event)
    ensures IsIntended(target, NewEvent(target, payload))
    ensures IsIntended(target, e) <==> Downcast(e, target).Ok?
  {
  }

  /**
    `downcast::<E>`: the same identity check as `downcast_event`; on a match
    the concrete value, otherwise the value back as `Box<dyn Any>`.
  */
  function Downcast(e: Event, target: EventType): (r: Result<Event, AnyBox>)
    ensures r.Ok? <==> e.tag == Id(target)
    ensures r.Ok? ==> r.value == e
    ensures r.Err? ==> r.error.tag == e.tag && r.error.payload == e.payload
  {
    DowncastEvent(e, target)
  }

  /** `force_downcast::<E>`: panics on a mismatch, so a matching identity is a precondition. */
  function ForceDowncast(e: Event, target: EventType): (v: Event)
    requires e.tag == Id(target)
    ensures Downcast(e, target) == Ok(v)
    ensures v.tag == Id(target) && v.payload == e.payload && v.priority == e.priority
  {
    Downcast(e, target).value
  }

  /** `Events(Vec<Box<dyn Event>>, bool)`. */
  datatype Events = Events(items: seq<Event>, resort: bool)

  /** `Events::new`. */
  function New(): (c: Events)
    ensures c.items == []
    ensures c.resort
  {
    Events([], true)
  }

  /** `Events::push_box`: appends the box and clears the flag. */
  function PushBox(c: Events, e: Event): (r: Events)
    ensures |r.items| == |c.items| + 1
    ensures r.items[..|c.items|] == c.items && r.items[|c.items|] == e
    ensures !r.resort
  {
    Events(c.items + [e], false)
  }

  /** `Events::push::<E>`: boxes a value of type `t`, then as `push_box`. */
  function Push(c: Events, t: EventType, payload: Payload): (r: Events)
    ensures |r.items| == |c.items| + 1
    ensures r.items[..|c.items|] == c.items
    ensures r.items[|c.items|].tag == Id(t) && r.items[|c.items|].payload == payload
    ensures r.items[|c.items|].priority == PriorityOf(t, payload)
    ensures r.items == c.items + [NewEvent(t, payload)]
    ensures !r.resort
  {
    PushBox(c, NewEvent(t, payload))
  }

  /** `Events::sort`: `sort_unstable` on the items; the flag is untouched. */
  function Sort(c: Events): (r: Events)
    ensures Sorted(r.items)
    ensures multiset(r.items) == multiset(c.items)
    ensures r.resort == c.resort
  {
    Events(SortUnstable(c.items), c.resort)
  }

  /** `a + b`: append `b`'s items to `a`'s and sort; `a`'s flag is kept. */
  function Add(a: Events, b: Events): (r: Events)
    ensures Sorted(r.items)
    ensures multiset(r.items) == multiset(a.items) + multiset(b.items)
    ensures |r.items| == |a.items| + |b.items|
    ensures r.resort == a.resort
  {
    Sort(Events(a.items + b.items, a.resort))
  }

  /** `a += b`: the same as `a + b`, written back into `a`. */
  function AddAssign(a: Events, b: Events): (r: Events)
    ensures Sorted(r.items)
    ensures multiset(r.items) == multiset(a.items) + multiset(b.items)
    ensures |r.items| == |a.items| + |b.items|
    ensures r.resort == a.resort
  {
    Add(a, b)
  }

  /** `into_iter`: the events in the order a `for` loop yields them. */
  function IntoIter(c: Events): (r: seq<Event>)
    ensures multiset(r) == multiset(c.items)
    ensures c.resort ==> Sorted(r)
    ensures !c.resort ==> r == c.items
  {
    if c.resort then SortUnstable(c.items) else c.items
  }

  /**
    The merge result is fixed up to the order of equal priorities: any other
    ascending arrangement of the same events has the same priority sequence.
  */
  lemma AddDeterminedUpToTies(a: Events, b: Events, other: seq<Event>)
    requires Sorted(other)
    requires multiset(other) == multiset(a.items + b.items)
    ensures Priorities(other) == Priorities(Add(a, b).items)
    ensures Priorities(other) == Priorities(AddAssign(a, b).items)
  {
    SortedPermutationsAgree(other, Add(a, b).items);
  }

  /** After a push, iteration yields the stored items in insertion order, sorted or not. */
  lemma IntoIterAfterPushIsInsertionOrder(c: Events, e: Event)
    ensures IntoIter(PushBox(c, e)) == c.items + [e]
  {
  }

  /**
    As written, pushing priority 5 and then priority 1 into a new container
    iterates as 5, 1: the pushes leave the items unsorted.
  */
  lemma PushedEventsIterateUnsorted()
    ensures var hi := Event(TypeOf("A"), 5, []);
            var lo := Event(TypeOf("A"), 1, []);
            IntoIter(PushBox(PushBox(New(), hi), lo)) == [hi, lo]
            && !Sorted(IntoIter(PushBox(PushBox(New(), hi), lo)))
  {
    var hi := Event(TypeOf("A"), 5, []);
    var lo := Event(TypeOf("A"), 1, []);
    assert !NotAfter([hi, lo][0], [hi, lo][1]);
  }

  /**
    The flag discipline the comment describes: a container whose flag is
    clear is already sorted.
  */
  predicate Consistent(c: Events)
  {
    !c.resort ==> Sorted(c.items)
  }

  /** `push_box` as evidently intended: a push marks the items for re-sorting. */
  function PushBoxIntended(c: Events, e: Event): (r: Events)
    ensures r.items == c.items + [e]
    ensures Consistent(r)
    ensures Sorted(IntoIter(r))
    ensures multiset(IntoIter(r)) == multiset(c.items) + multiset{e}
  {
    Events(c.items + [e], true)
  }

  /**
    Under the intended push, every container built from `new`, pushes and
    merges keeps the discipline, and then iteration is always ascending.
  */
  lemma IntendedDisciplineIteratesSorted(c: Events, d: Events, e: Event)
    requires Consistent(c)
    ensures Consistent(New())
    ensures Consistent(PushBoxIntended(c, e))
    ensures Consistent(Add(c, d)) && Consistent(AddAssign(c, d))
    ensures Sorted(IntoIter(c))
  {
  }
}
