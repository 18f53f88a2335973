/**
  Event values, their runtime type identity and the checked downcast of
  src/ecs/shred_event.rs.

  A Rust event is a value of some concrete type `E: Event`. The model keeps
  what the dispatch core can observe of it: the `TypeId` of `E`, the value of
  `priority()` and the field values (the payload).
*/
module ShredEvent {
  import opened Wrappers

  /** One more than the largest `u64`. */
  const U64_LIMIT: int := 0x1_0000_0000_0000_0000

  /** `priority()` returns a `u64`. */
  type Priority = p: nat | p < U64_LIMIT

  /**
    A runtime type identity (`std::any::TypeId`). Concrete Rust types are
    named; `BoxOfDynEvent` is the identity of the type `Box<dyn Event>`
    itself, which does not implement `Event` and so is no event's identity.
  */
  datatype TypeTag = TypeOf(name: string) | BoxOfDynEvent

  /** `EventID` is an alias of `TypeId`. */
  type EventID = TypeTag

  /** The field values of a concrete event struct. */
  type Payload = seq<int>

  /** A boxed event (`Box<dyn Event>`): its type identity, priority and fields. */
  datatype Event = Event(tag: EventID, priority: Priority, payload: Payload)

  /** Whether a concrete event type overrides the trait's default `priority`. */
  datatype PriorityImpl = Inherited | Overridden(priorityOf: Payload -> Priority)

  /** A concrete event type `E: Event`. */
  datatype EventType = EventType(name: string, priorityImpl: PriorityImpl)

  /** The value the trait method `priority()` returns for a value of type `t`. */
  function PriorityOf(t: EventType, payload: Payload): Priority
  {
    match t.priorityImpl
    case Inherited => 0
    case Overridden(f) => f(payload)
  }

  /** `id::<E>()`: the identity of the type; it takes no value of the type. */
  function Id(t: EventType): (id: EventID)
    ensures id != BoxOfDynEvent
  {
    TypeOf(t.name)
  }

  /** Boxing a value of concrete type `t` as a `Box<dyn Event>`. */
  function NewEvent(t: EventType, payload: Payload): (e: Event)
    ensures e.tag == Id(t)
    ensures e.priority == PriorityOf(t, payload)
    ensures e.payload == payload
  {
    Event(Id(t), PriorityOf(t, payload), payload)
  }

  /**
    A `Box<dyn Any>`: the value keeps its identity and fields, but the
    `Event` interface is gone, so it has no priority and cannot be pushed
    back into an event list.
  */
  datatype AnyBox = AnyBox(tag: TypeTag, payload: Payload)

  /** The same value seen as `dyn Any`. */
  function AsAny(e: Event): AnyBox
  {
    AnyBox(e.tag, e.payload)
  }

  /**
    `downcast_event::<E>`: the concrete value when the identities agree,
    otherwise the value handed back as `Box<dyn Any>`.
  */
  function DowncastEvent(e: Event, target: EventType): (r: Result<Event, AnyBox>)
    ensures r.Ok? <==> e.tag == Id(target)
    ensures r.Ok? ==> r.value == e && r.value.tag == Id(target)
    ensures r.Err? ==> r.error.tag == e.tag && r.error.payload == e.payload
  {
    if e.tag == Id(target) then Ok(e) else Err(AsAny(e))
  }

  /**
    `Box<dyn Any>::downcast::<E>` of the standard library, the only way back
    from a failed downcast: on a match the value of type `t` with those
    fields, whose priority is then `t`'s again.
  */
  function DowncastAny(b: AnyBox, t: EventType): (r: Result<Event, AnyBox>)
    ensures r.Ok? <==> b.tag == Id(t)
    ensures r.Ok? ==> r.value == NewEvent(t, b.payload)
    ensures r.Err? ==> r.error == b
  {
    if b.tag == Id(t) then Ok(NewEvent(t, b.payload)) else Err(b)
  }

  /**
    `force_downcast_event::<E>`: panics with "Downcast of event failed" on a
    mismatch, so a matching identity is a precondition.
  */
  function ForceDowncastEvent(e: Event, target: EventType): (v: Event)
    requires e.tag == Id(target)
    ensures DowncastEvent(e, target) == Ok(v)
    ensures v.payload == e.payload && v.priority == e.priority
  {
    e
  }

  /** Two values of one type share their identity, whatever their fields. */
  lemma IdDependsOnlyOnType(t: EventType, p1: Payload, p2: Payload)
    ensures NewEvent(t, p1).tag == NewEvent(t, p2).tag == Id(t)
  {
  }

  /** A type that does not override `priority` yields priority 0. */
  lemma DefaultPriorityIsZero(t: EventType, payload: Payload)
    requires t.priorityImpl.Inherited?
    ensures NewEvent(t, payload).priority == 0
  {
  }

  /** Round trip: boxing a value of type `t` and downcasting to `t` gives back the same fields. */
  lemma DowncastRoundTrip(t: EventType, payload: Payload)
    ensures DowncastEvent(NewEvent(t, payload), t).Ok?
    ensures DowncastEvent(NewEvent(t, payload), t).value.payload == payload
    ensures ForceDowncastEvent(NewEvent(t, payload), t) == NewEvent(t, payload)
  {
  }

  /**
    On a mismatch the value's identity and fields survive as `Box<dyn Any>`:
    it is still recognised as exactly the types the original was, and
    downcasting it to its own type rebuilds the original event.
  */
  lemma DowncastMismatchKeepsValue(t: EventType, payload: Payload, first: EventType, second: EventType)
    requires Id(t) != Id(first)
    ensures DowncastEvent(NewEvent(t, payload), first) == Err(AnyBox(Id(t), payload))
    ensures DowncastAny(DowncastEvent(NewEvent(t, payload), first).error, second).Ok?
        <==> DowncastEvent(NewEvent(t, payload), second).Ok?
    ensures DowncastAny(DowncastEvent(NewEvent(t, payload), first).error, t) == Ok(NewEvent(t, payload))
  {
  }
}
