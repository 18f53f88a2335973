/**
  The comparison and equality of `dyn Event` (src/ecs/event.rs lines 5-24):
  ordering looks only at priorities, equality only at type identities.
*/
module EventOrder {
  import opened Wrappers
  import opened ShredEvent

  /** `std::cmp::Ordering`. */
  datatype Ordering = Less | Equal | Greater

  /** `Ord::cmp`: the order of the two priorities. */
  function Cmp(a: Event, b: Event): (o: Ordering)
    ensures o == Less <==> a.priority < b.priority
    ensures o == Equal <==> a.priority == b.priority
    ensures o == Greater <==> a.priority > b.priority
  {
    if a.priority < b.priority then Less
    else if a.priority == b.priority then Equal
    else Greater
  }

  /** `PartialOrd::partial_cmp`: always defined, and agrees with `cmp`. */
  function PartialCmp(a: Event, b: Event): (o: Option<Ordering>)
    ensures o.Some?
    ensures o.value == Cmp(a, b)
  {
    Some(Cmp(a, b))
  }

  /** `PartialEq::eq`: same type identity. */
  function Eq(a: Event, b: Event): (r: bool)
    ensures r <==> a.tag == b.tag
  {
    a.tag == b.tag
  }

  /** `a <= b` under `Ord`. */
  predicate NotAfter(a: Event, b: Event)
  {
    Cmp(a, b) != Greater
  }

  /** Comparison never looks at type identity or fields. */
  lemma CmpIgnoresTagAndPayload(a: Event, b: Event, a': Event, b': Event)
    requires a.priority == a'.priority && b.priority == b'.priority
    ensures Cmp(a, b) == Cmp(a', b')
    ensures PartialCmp(a, b) == PartialCmp(a', b')
  {
  }

  /** Equality never looks at priority or fields. */
  lemma EqIgnoresPriority(a: Event, b: Event, a': Event, b': Event)
    requires a.tag == a'.tag && b.tag == b'.tag
    ensures Eq(a, b) == Eq(a', b')
  {
  }

  /** `cmp` is a total preorder: antisymmetric in its answer and transitive. */
  lemma CmpIsTotalPreorder(a: Event, b: Event, c: Event)
    ensures Cmp(a, b) == Less <==> Cmp(b, a) == Greater
    ensures Cmp(a, b) == Equal <==> Cmp(b, a) == Equal
    ensures NotAfter(a, b) || NotAfter(b, a)
    ensures NotAfter(a, b) && NotAfter(b, c) ==> NotAfter(a, c)
  {
  }

  /**
    `Ord` and `Eq` disagree: two events of different types can compare
    `Equal`, and two events of one type can compare `Less`.
  */
  lemma OrdDisagreesWithEq()
    ensures var a := Event(TypeOf("A"), 0, []);
            var b := Event(TypeOf("B"), 0, []);
            var c := Event(TypeOf("A"), 1, []);
            Cmp(a, b) == Equal && !Eq(a, b) && Eq(a, c) && Cmp(a, c) == Less
  {
  }
}
