/**
  `Vec::sort_unstable` under the priority order of `dyn Event`.

  The standard library only promises an ascending permutation: it gives no
  order among events of equal priority. The model sorts with a concrete
  insertion sort, but every property the rest of the model uses is stated
  through `Sorted` and multiset equality, and `SortedPermutationsAgree` shows
  that the priority sequence is all those two determine.
*/
module PrioritySort {
  import opened ShredEvent
  import opened EventOrder

  /** Ascending by priority. */
  predicate Sorted(s: seq<Event>)
  {
    forall i, j :: 0 <= i < j < |s| ==> NotAfter(s[i], s[j])
  }

  /** The priorities of `s`, in order. */
  function Priorities(s: seq<Event>): (ps: seq<nat>)
    ensures |ps| == |s|
    ensures forall i :: 0 <= i < |s| ==> ps[i] == s[i].priority
  {
    seq(|s|, i requires 0 <= i < |s| => s[i].priority)
  }

  /** Inserts `e` before the first element it does not come after. */
  function Insert(e: Event, s: seq<Event>): (r: seq<Event>)
    requires Sorted(s)
    ensures Sorted(r)
    ensures multiset(r) == multiset(s) + multiset{e}
    ensures |r| == |s| + 1
  {
    if |s| == 0 then [e]
    else if NotAfter(e, s[0]) then [e] + s
    else
      var rest := Insert(e, s[1..]);
      assert s == [s[0]] + s[1..];
      ConsKeepsSorted(e, s, rest);
      [s[0]] + rest
  }

  /** The head of `s`, which `e` comes after, still leads once `e` is merged into the tail. */
  lemma ConsKeepsSorted(e: Event, s: seq<Event>, rest: seq<Event>)
    requires Sorted(s) && |s| > 0 && !NotAfter(e, s[0])
    requires Sorted(rest) && multiset(rest) == multiset(s[1..]) + multiset{e}
    ensures Sorted([s[0]] + rest)
  {
    forall k | 0 <= k < |rest|
      ensures NotAfter(s[0], rest[k])
    {
      assert rest[k] in multiset(rest);
      if rest[k] != e {
        assert rest[k] in multiset(s[1..]);
        var j :| 0 <= j < |s[1..]| && s[1..][j] == rest[k];
        assert s[j + 1] == rest[k];
      }
    }
  }

  /** `sort_unstable`: an ascending permutation of its input. */
  function SortUnstable(s: seq<Event>): (r: seq<Event>)
    ensures Sorted(r)
    ensures multiset(r) == multiset(s)
    ensures |r| == |s|
  {
    if |s| == 0 then []
    else
      assert s == [s[0]] + s[1..];
      Insert(s[0], SortUnstable(s[1..]))
  }

  /** Removing the element at `k` removes one copy of it from the multiset. */
  lemma RemoveAt<T>(t: seq<T>, k: int)
    requires 0 <= k < |t|
    ensures multiset(t[..k] + t[k + 1..]) == multiset(t) - multiset{t[k]}
  {
    assert t == t[..k] + [t[k]] + t[k + 1..];
  }

  /** The priorities of the events without the one at `k` are the priorities without the one at `k`. */
  lemma PrioritiesWithout(t: seq<Event>, k: int)
    requires 0 <= k < |t|
    ensures Priorities(t[..k] + t[k + 1..]) == Priorities(t)[..k] + Priorities(t)[k + 1..]
  {
  }

  /** Multisets that agree once one copy of a shared element is removed from each were equal. */
  lemma RemoveOneCancels<T>(a: multiset<T>, b: multiset<T>, v: T)
    requires v in a && v in b
    requires a - multiset{v} == b - multiset{v}
    ensures a == b
  {
    assert a == (a - multiset{v}) + multiset{v};
    assert b == (b - multiset{v}) + multiset{v};
  }

  /** Permuting events permutes their priorities. */
  lemma {:induction false} PermutationPermutesPriorities(s: seq<Event>, t: seq<Event>)
    requires multiset(s) == multiset(t)
    ensures multiset(Priorities(s)) == multiset(Priorities(t))
    decreases |s|
  {
    if |s| == 0 {
      assert |t| == |multiset(t)| == 0;
    } else {
      var n := |s| - 1;
      var x := s[n];
      assert x in multiset(t);
      var k :| 0 <= k < |t| && t[k] == x;
      var s' := s[..n] + s[n + 1..];
      var t' := t[..k] + t[k + 1..];
      RemoveAt(s, n);
      RemoveAt(t, k);
      PrioritiesWithout(s, n);
      PrioritiesWithout(t, k);
      RemoveAt(Priorities(s), n);
      RemoveAt(Priorities(t), k);
      assert |s'| < |s|;
      PermutationPermutesPriorities(s', t');
      assert Priorities(s)[n] == x.priority;
      assert Priorities(t)[k] == x.priority;
      RemoveOneCancels(multiset(Priorities(s)), multiset(Priorities(t)), x.priority);
    }
  }

  /** Ascending sequence of numbers. */
  predicate Ascending(a: seq<nat>)
  {
    forall i, j :: 0 <= i < j < |a| ==> a[i] <= a[j]
  }

  /** The first element of an ascending sequence is its least. */
  lemma AscendingHeadIsLeast(a: seq<nat>, j: int)
    requires Ascending(a) && 0 <= j < |a|
    ensures a[0] <= a[j]
  {
    if j > 0 {
      assert a[0] <= a[j];
    }
  }

  /** Ascending sequences with one multiset start with the same number. */
  lemma AscendingHeadsAgree(a: seq<nat>, b: seq<nat>)
    requires Ascending(a) && Ascending(b)
    requires multiset(a) == multiset(b)
    requires |a| > 0 && |b| > 0
    ensures a[0] == b[0]
  {
    assert a[0] in multiset(b);
    assert b[0] in multiset(a);
    var i :| 0 <= i < |b| && b[i] == a[0];
    var j :| 0 <= j < |a| && a[j] == b[0];
    AscendingHeadIsLeast(a, j);
    AscendingHeadIsLeast(b, i);
  }

  /** Dropping the head keeps a sequence ascending. */
  lemma AscendingTail(a: seq<nat>)
    requires Ascending(a) && |a| > 0
    ensures Ascending(a[1..])
  {
    forall p, q | 0 <= p < q < |a[1..]|
      ensures a[1..][p] <= a[1..][q]
    {
      assert a[1..][p] == a[p + 1] && a[1..][q] == a[q + 1];
    }
  }

  /** Two ascending sequences of numbers with one multiset are equal. */
  lemma {:induction false} SortedNumbersAreDetermined(a: seq<nat>, b: seq<nat>)
    requires Ascending(a) && Ascending(b)
    requires multiset(a) == multiset(b)
    ensures a == b
    decreases |a|
  {
    assert |a| == |multiset(a)| == |multiset(b)| == |b|;
    if |a| > 0 {
      AscendingHeadsAgree(a, b);
      assert a == [a[0]] + a[1..];
      assert b == [b[0]] + b[1..];
      assert multiset(a[1..]) == multiset(a) - multiset{a[0]};
      assert multiset(b[1..]) == multiset(b) - multiset{b[0]};
      AscendingTail(a);
      AscendingTail(b);
      SortedNumbersAreDetermined(a[1..], b[1..]);
    }
  }

  /**
    Any two ascending permutations of the same events agree on their
    priorities, position by position: ties may be broken either way, but
    nothing else is left open.
  */
  lemma SortedPermutationsAgree(s: seq<Event>, t: seq<Event>)
    requires Sorted(s) && Sorted(t)
    requires multiset(s) == multiset(t)
    ensures Priorities(s) == Priorities(t)
  {
    PermutationPermutesPriorities(s, t);
    assert Ascending(Priorities(s)) by {
      forall i, j | 0 <= i < j < |s|
        ensures Priorities(s)[i] <= Priorities(s)[j]
      {
        assert NotAfter(s[i], s[j]);
      }
    }
    assert Ascending(Priorities(t)) by {
      forall i, j | 0 <= i < j < |t|
        ensures Priorities(t)[i] <= Priorities(t)[j]
      {
        assert NotAfter(t[i], t[j]);
      }
    }
    SortedNumbersAreDetermined(Priorities(s), Priorities(t));
  }

  /** Equal priorities do leave a choice: two different ascending orders of the same two events. */
  lemma TieOrderIsOpen()
    ensures var a := Event(TypeOf("A"), 3, []);
            var b := Event(TypeOf("B"), 3, []);
            Sorted([a, b]) && Sorted([b, a]) && multiset([a, b]) == multiset([b, a]) && [a, b] != [b, a]
  {
    var a := Event(TypeOf("A"), 3, []);
    var b := Event(TypeOf("B"), 3, []);
    assert [a, b][0] != [b, a][0];
  }
}
