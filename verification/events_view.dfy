/**
  The filtered read view `Events<'a, E>` of src/ecs/events.rs and its
  iterator. The view holds a shared fetch of the `NotifierQueue` resource; the
  filter `E` accepts a set of event identities.

  The iterator's `next` answers `None` at the first event the filter rejects,
  so a `for` loop over the view yields the longest accepted prefix of the
  queue (a take-while), not the accepted events (a filter).
*/
module EventsView {
  import opened Wrappers
  import opened ShredEvent
  import opened Resources

  /** An `EventFilter`: the identities `has_type` accepts. */
  type EventFilter = set<EventID>

  /** `E::has_type(id)`. */
  predicate HasType(f: EventFilter, id: EventID)
  {
    id in f
  }

  /** `Events<'a, E>`: the filter and the queue it borrows. */
  datatype View = View(filter: EventFilter, queue: seq<Event>)

  /** `EventsIterator<'a, E>`: the filter, the borrowed queue and the slice iterator's position. */
  datatype EventsIterator = EventsIterator(filter: EventFilter, queue: seq<Event>, pos: nat)

  /** One call of `next`: what it returns and the iterator afterwards. */
  datatype Step = Step(item: Option<Event>, after: EventsIterator)

  /** The events the slice iterator has not yet handed out. */
  function Remaining(it: EventsIterator): seq<Event>
  {
    if it.pos <= |it.queue| then it.queue[it.pos..] else []
  }

  /** `Events::iter`: an iterator at the first element of the queue. */
  function Iter(v: View): (it: EventsIterator)
    ensures it.queue == v.queue && it.filter == v.filter
    ensures Remaining(it) == v.queue
  {
    EventsIterator(v.filter, v.queue, 0)
  }

  /** `EventsIterator::next`. */
  function Next(it: EventsIterator): (s: Step)
    ensures s.after.queue == it.queue && s.after.filter == it.filter
    ensures it.pos < |it.queue| ==> s.after.pos == it.pos + 1
    ensures it.pos >= |it.queue| ==> s.after == it && s.item.None?
    ensures s.item.Some? <==> it.pos < |it.queue| && HasType(it.filter, it.queue[it.pos].tag)
    ensures s.item.Some? ==> s.item.value == it.queue[it.pos]
  {
    if it.pos < |it.queue| then
      var boxed := it.queue[it.pos];
      var after := it.(pos := it.pos + 1);
      if HasType(it.filter, boxed.tag) then Step(Some(boxed), after) else Step(None, after)
    else
      Step(None, it)
  }

  /** What a `for` loop yields: `next` until the first `None`. */
  function ForLoop(it: EventsIterator): (r: seq<Event>)
    ensures LongestAcceptedPrefix(r, Remaining(it), it.filter)
    decreases |it.queue| - it.pos
  {
    var s := Next(it);
    if s.item.None? then []
    else
      assert Remaining(it) == [it.queue[it.pos]] + Remaining(s.after);
      [s.item.value] + ForLoop(s.after)
  }

  /**
    `r` is the longest prefix of `s` whose events the filter accepts: a prefix,
    all accepted, and either all of `s` or followed by a rejected event.
  */
  predicate LongestAcceptedPrefix(r: seq<Event>, s: seq<Event>, f: EventFilter)
  {
    && r <= s
    && (forall i :: 0 <= i < |r| ==> HasType(f, r[i].tag))
    && (|r| < |s| ==> !HasType(f, s[|r|].tag))
  }

  /** There is only one longest accepted prefix, so the loop's output is fully determined by it. */
  lemma LongestAcceptedPrefixIsUnique(r1: seq<Event>, r2: seq<Event>, s: seq<Event>, f: EventFilter)
    requires LongestAcceptedPrefix(r1, s, f)
    requires LongestAcceptedPrefix(r2, s, f)
    ensures r1 == r2
  {
  }

  /** A `for` loop over the view yields the longest accepted prefix of the whole queue. */
  lemma ForLoopIsTakeWhile(v: View)
    ensures LongestAcceptedPrefix(ForLoop(Iter(v)), v.queue, v.filter)
  {
  }

  /**
    The loop is not a filter: with an accepted, a rejected and an accepted
    event it yields only the first; yet the iterator is not fused, and a
    further `next` after the rejection returns the third event.
  */
  lemma ForLoopStopsAtFirstRejection()
    ensures var a := Event(TypeOf("A"), 0, []);
            var b := Event(TypeOf("B"), 0, []);
            var it := Iter(View({TypeOf("A")}, [a, b, a]));
            ForLoop(it) == [a]
            && Next(Next(it).after).item.None?
            && Next(Next(Next(it).after).after).item == Some(a)
  {
    var a := Event(TypeOf("A"), 0, []);
    var b := Event(TypeOf("B"), 0, []);
    var it := Iter(View({TypeOf("A")}, [a, b, a]));
    var it1 := Next(it).after;
    assert Next(it1).item.None?;
    assert ForLoop(it1) == [];
  }

  /** `setup`: inserts a fresh, empty `NotifierQueue`, replacing any queue already there. */
  function Setup(w: World): (w': World)
    ensures NotifierQueueId in w' && w'[NotifierQueueId] == NotifierQueue([])
    ensures w'.Keys == w.Keys + {NotifierQueueId}
    ensures forall id :: id in w && id != NotifierQueueId ==> w'[id] == w[id]
  {
    w[NotifierQueueId := NotifierQueue([])]
  }

  /** `reads()`: exactly the `NotifierQueue` resource. */
  function Reads(): (ids: seq<ResourceId>)
    ensures ids == [NotifierQueueId]
  {
    [NotifierQueueId]
  }

  /** `writes()`: nothing. */
  function Writes(): (ids: seq<ResourceId>)
    ensures ids == []
  {
    []
  }

  /** The view's `SystemData` declaration. */
  function Decl(): SystemDataDecl
  {
    SystemDataDecl(Reads(), Writes())
  }

  /**
    `fetch`: a shared borrow of the stored queue. specs panics if the
    resource is missing; a resource stored under the queue's identity is a
    queue.
  */
  function FetchView(w: World, f: EventFilter): (v: View)
    requires NotifierQueueId in w && w[NotifierQueueId].NotifierQueue?
    ensures v.filter == f && v.queue == w[NotifierQueueId].events
  {
    View(f, w[NotifierQueueId].events)
  }

  /**
    The view declares one read and no write, and what it borrows is exactly
    the resource its declaration resolves to.
  */
  lemma ViewOnlyReadsTheQueue(w: World, f: EventFilter)
    requires NotifierQueueId in w && w[NotifierQueueId].NotifierQueue?
    ensures Declared(Decl()) == {NotifierQueueId}
    ensures Resolvable(w, Decl())
    ensures Fetch(w, Decl())[NotifierQueueId].events == FetchView(w, f).queue
  {
    assert Decl().readIds + Decl().writeIds == [NotifierQueueId];
  }

  /** Iteration reads the queue and never changes it. */
  lemma IterationLeavesQueueUnchanged(v: View, k: nat)
    ensures Iterate(Iter(v), k).queue == v.queue
    ensures Iterate(Iter(v), k).pos == if k <= |v.queue| then k else |v.queue|
  {
    IterateAdvances(Iter(v), k);
  }

  /** The iterator after `k` calls of `next`, whatever they returned. */
  function Iterate(it: EventsIterator, k: nat): EventsIterator
    decreases k
  {
    if k == 0 then it else Iterate(Next(it).after, k - 1)
  }

  /** Every `next` advances by one position, accepted or rejected, until the end. */
  lemma {:induction false} IterateAdvances(it: EventsIterator, k: nat)
    requires it.pos <= |it.queue|
    ensures Iterate(it, k).queue == it.queue && Iterate(it, k).filter == it.filter
    ensures Iterate(it, k).pos == if it.pos + k <= |it.queue| then it.pos + k else |it.queue|
    decreases k
  {
    if k > 0 {
      IterateAdvances(Next(it).after, k - 1);
    }
  }

  /** Right after `setup`, a view over the fresh queue yields nothing. */
  lemma SetupThenIterateYieldsNothing(w: World, f: EventFilter)
    ensures FetchView(Setup(w), f).queue == []
    ensures ForLoop(Iter(FetchView(Setup(w), f))) == []
  {
  }
}
