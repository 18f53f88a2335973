/**
  `DefaultScheduler::dispatch` of src/ecs/scheduler.rs: increment the tick
  counter, then visit the systems in list order and run those whose policy
  passes the gate at the new tick.

  A dispatch is modelled as the new scheduler state, the systems afterwards
  and the trace of the indices it ran, in the order it ran them.
*/
module Scheduler {
  import opened Cadence
  import opened Resources
  import opened SystemModel

  /** `DefaultScheduler { tick_nonce }`. */
  datatype DefaultScheduler = DefaultScheduler(tickNonce: nat)

  /** The outcome of `dispatch`. */
  datatype Dispatched = Dispatched(scheduler: DefaultScheduler, systems: seq<System>, trace: seq<nat>)

  /** Every system the gate lets through at `tick` can fetch its data from `w`. */
  predicate RunnableAt(systems: seq<System>, w: World, tick: nat)
    requires tick >= 1
  {
    forall i :: 0 <= i < |systems| && ShouldRun(ExecutionPolicyOf(systems[i]), tick) ==> Resolvable(w, systems[i].data)
  }

  /** Strictly ascending, so every index appears at most once and in list order. */
  predicate Increasing(trace: seq<nat>)
  {
    forall i, j :: 0 <= i < j < |trace| ==> trace[i] < trace[j]
  }

  /** The same system, possibly in another state: its queries answer as `s`'s would for a history, and its declaration is `s`'s. */
  ghost predicate SameInterface(r: System, s: System)
  {
    r.policyOf == s.policyOf && r.timeOf == s.timeOf && r.data == s.data
  }

  /** The data a system that runs at `tick` is given, and nothing for one that does not. */
  function RunsAt(s: System, w: World, tick: nat): seq<map<ResourceId, Resource>>
    requires tick >= 1
    requires ShouldRun(ExecutionPolicyOf(s), tick) ==> Resolvable(w, s.data)
  {
    if ShouldRun(ExecutionPolicyOf(s), tick) then [Fetch(w, s.data)] else []
  }

  /** One iteration of the loop: run the system if its gate passes at `tick`. */
  function Visit(s: System, w: World, tick: nat): (r: System)
    requires tick >= 1
    requires ShouldRun(ExecutionPolicyOf(s), tick) ==> Resolvable(w, s.data)
    ensures SameInterface(r, s)
    ensures r.runs == s.runs + RunsAt(s, w, tick)
  {
    if ShouldRun(ExecutionPolicyOf(s), tick) then RunOnWorld(s, w) else s
  }

  /** Every system visited once at `tick`, each in its place. */
  function VisitAll(systems: seq<System>, w: World, tick: nat): (r: seq<System>)
    requires tick >= 1
    requires RunnableAt(systems, w, tick)
    ensures |r| == |systems|
    ensures forall k :: 0 <= k < |systems| ==> r[k] == Visit(systems[k], w, tick)
  {
    seq(|systems|, k requires 0 <= k < |systems| => Visit(systems[k], w, tick))
  }

  /**
    The positions the loop of `dispatch` runs, from position `from` on, in
    the order it runs them, at the already incremented `tick`.
  */
  function Trace(systems: seq<System>, tick: nat, from: nat): (t: seq<nat>)
    requires tick >= 1 && from <= |systems|
    ensures Increasing(t)
    ensures forall i :: 0 <= i < |t| ==> from <= t[i] < |systems|
    ensures forall k :: from <= k < |systems| ==> (k in t <==> ShouldRun(ExecutionPolicyOf(systems[k]), tick))
    decreases |systems| - from
  {
    if from == |systems| then []
    else
      var rest := Trace(systems, tick, from + 1);
      if ShouldRun(ExecutionPolicyOf(systems[from]), tick) then [from] + rest else rest
  }

  /**
    `dispatch`: the counter goes up by exactly one before any gate is tested
    (so `%` never divides by zero); then each system, in list order, runs
    at most once, exactly when its policy passes at the new tick. No system
    is added, removed or reordered.
  */
  function Dispatch(sched: DefaultScheduler, w: World, systems: seq<System>): (d: Dispatched)
    requires RunnableAt(systems, w, sched.tickNonce + 1)
    ensures d.scheduler.tickNonce == sched.tickNonce + 1
    ensures |d.systems| == |systems|
    ensures forall k :: 0 <= k < |systems| ==>
      SameInterface(d.systems[k], systems[k])
      && d.systems[k].runs == systems[k].runs + RunsAt(systems[k], w, sched.tickNonce + 1)
    ensures forall k :: 0 <= k < |systems| ==> d.systems[k] == Visit(systems[k], w, d.scheduler.tickNonce)
    ensures Increasing(d.trace)
    ensures forall k :: k in d.trace <==> 0 <= k < |systems| && ShouldRun(ExecutionPolicyOf(systems[k]), d.scheduler.tickNonce)
  {
    var next := DefaultScheduler(sched.tickNonce + 1);
    var trace := Trace(systems, next.tickNonce, 0);
    assert forall k :: k in trace ==> 0 <= k < |systems| by {
      forall k | k in trace
        ensures 0 <= k < |systems|
      {
        var i :| 0 <= i < |trace| && trace[i] == k;
      }
    }
    Dispatched(next, VisitAll(systems, w, next.tickNonce), trace)
  }

  /** Every declaration resolves against `w`. */
  predicate AllResolvable(systems: seq<System>, w: World)
  {
    forall i :: 0 <= i < |systems| ==> Resolvable(w, systems[i].data)
  }

  /** A dispatch keeps every declaration, so what resolved before still resolves. */
  lemma DispatchKeepsResolvable(sched: DefaultScheduler, w: World, systems: seq<System>)
    requires AllResolvable(systems, w)
    ensures AllResolvable(Dispatch(sched, w, systems).systems, w)
  {
    var d := Dispatch(sched, w, systems);
    forall i | 0 <= i < |d.systems|
      ensures Resolvable(w, d.systems[i].data)
    {
      assert SameInterface(d.systems[i], systems[i]);
    }
  }

  /**
    None of the next `count` dispatches panics: at each of them every system
    whose gate passes finds its declared resources in `w`. Systems whose gate
    fails are never fetched for, so their resources may be missing.
  */
  predicate Fetchable(sched: DefaultScheduler, w: World, systems: seq<System>, count: nat)
    decreases count
  {
    count == 0 ||
    (RunnableAt(systems, w, sched.tickNonce + 1) &&
      (var d := Dispatch(sched, w, systems);
       Fetchable(d.scheduler, w, d.systems, count - 1)))
  }

  /** If the next `count` dispatches can run, so can the first, and the rest after it. */
  lemma FetchableStep(sched: DefaultScheduler, w: World, systems: seq<System>, count: nat)
    requires Fetchable(sched, w, systems, count) && count > 0
    ensures RunnableAt(systems, w, sched.tickNonce + 1)
    ensures Fetchable(Dispatch(sched, w, systems).scheduler, w, Dispatch(sched, w, systems).systems, count - 1)
  {
  }

  /** `count` dispatches in a row against one world; the traces are concatenated. */
  function DispatchTimes(sched: DefaultScheduler, w: World, systems: seq<System>, count: nat): (d: Dispatched)
    requires Fetchable(sched, w, systems, count)
    ensures d.scheduler.tickNonce == sched.tickNonce + count
    ensures |d.systems| == |systems|
    decreases count
  {
    if count == 0 then Dispatched(sched, systems, [])
    else
      FetchableStep(sched, w, systems, count);
      var d := Dispatch(sched, w, systems);
      var rest := DispatchTimes(d.scheduler, w, d.systems, count - 1);
      Dispatched(rest.scheduler, rest.systems, d.trace + rest.trace)
  }

  /** When every declaration resolves, no number of dispatches panics. */
  lemma {:induction false} AllResolvableSuffices(sched: DefaultScheduler, w: World, systems: seq<System>, count: nat)
    requires AllResolvable(systems, w)
    ensures Fetchable(sched, w, systems, count)
    decreases count
  {
    if count > 0 {
      var d := Dispatch(sched, w, systems);
      DispatchKeepsResolvable(sched, w, systems);
      AllResolvableSuffices(d.scheduler, w, d.systems, count - 1);
    }
  }

  /** `OnInitOnly`, `EventOnly` and `DontExecute`: the policies `dispatch` always skips. */
  predicate IdlePolicy(p: ExecutionPolicy)
  {
    p == OnInitOnly || p == EventOnly || p == DontExecute
  }

  /** The system reports a skipped policy whatever its runs have been. */
  ghost predicate AlwaysIdle(s: System)
  {
    forall h :: IdlePolicy(s.policyOf(h))
  }

  /**
    Systems that are always skipped are never fetched for: they dispatch
    against any world, even one lacking every resource they declare.
  */
  lemma {:induction false} IdleSystemsNeedNoData(sched: DefaultScheduler, w: World, systems: seq<System>, count: nat)
    requires forall i :: 0 <= i < |systems| ==> AlwaysIdle(systems[i])
    ensures Fetchable(sched, w, systems, count)
    decreases count
  {
    if count > 0 {
      forall i | 0 <= i < |systems|
        ensures !ShouldRun(ExecutionPolicyOf(systems[i]), sched.tickNonce + 1)
      {
        assert IdlePolicy(systems[i].policyOf(systems[i].runs));
      }
      var d := Dispatch(sched, w, systems);
      forall i | 0 <= i < |d.systems|
        ensures AlwaysIdle(d.systems[i])
      {
        assert SameInterface(d.systems[i], systems[i]);
      }
      IdleSystemsNeedNoData(d.scheduler, w, d.systems, count - 1);
    }
  }

  /** The one system visited by the next `count` dispatches, starting after `tick`, finds its data whenever it runs. */
  predicate VisitFetchable(s: System, w: World, tick: nat, count: nat)
    decreases count
  {
    count == 0 ||
    ((ShouldRun(ExecutionPolicyOf(s), tick + 1) ==> Resolvable(w, s.data)) &&
      VisitFetchable(Visit(s, w, tick + 1), w, tick + 1, count - 1))
  }

  /** Every run from position `from` on was given the declared data fetched from `w`. */
  predicate FetchedFrom(runs: History, from: nat, w: World, d: SystemDataDecl)
  {
    (from < |runs| ==> Resolvable(w, d)) &&
    forall i :: from <= i < |runs| ==> runs[i] == Fetch(w, d)
  }

  /** Runs fetched after `from` in a prefix, followed by runs fetched after that prefix, were all fetched after `from`. */
  lemma FetchedFromPrefix(runs: History, prefix: History, from: nat, w: World, d: SystemDataDecl)
    requires from <= |prefix| <= |runs| && runs[..|prefix|] == prefix
    requires FetchedFrom(prefix, from, w, d) && FetchedFrom(runs, |prefix|, w, d)
    ensures runs[..from] == prefix[..from]
    ensures FetchedFrom(runs, from, w, d)
  {
    forall i | from <= i < |prefix|
      ensures runs[i] == prefix[i]
    {
      assert runs[..|prefix|][i] == runs[i];
    }
    assert runs[..from] == runs[..|prefix|][..from];
  }

  /**
    One system visited by `count` dispatches in a row, starting after `tick`:
    it stays the same system, keeps its earlier runs, and gains at most one
    run per dispatch, each with the data fetched from the world.
  */
  function VisitTimes(s: System, w: World, tick: nat, count: nat): (r: System)
    requires VisitFetchable(s, w, tick, count)
    ensures SameInterface(r, s)
    ensures |s.runs| <= |r.runs| <= |s.runs| + count
    ensures r.runs[..|s.runs|] == s.runs
    ensures FetchedFrom(r.runs, |s.runs|, w, s.data)
    decreases count
  {
    if count == 0 then s
    else
      var s1 := Visit(s, w, tick + 1);
      var r := VisitTimes(s1, w, tick + 1, count - 1);
      assert FetchedFrom(s1.runs, |s.runs|, w, s.data);
      FetchedFromPrefix(r.runs, s1.runs, |s.runs|, w, s.data);
      r
  }

  /** The first of `count` dispatches: it can run, and the rest start from its outcome. */
  lemma DispatchStep(sched: DefaultScheduler, w: World, systems: seq<System>, count: nat, k: nat)
      returns (next: DefaultScheduler, after: seq<System>)
    requires Fetchable(sched, w, systems, count)
    requires count > 0 && k < |systems|
    ensures RunnableAt(systems, w, sched.tickNonce + 1)
    ensures next.tickNonce == sched.tickNonce + 1
    ensures |after| == |systems| && after[k] == Visit(systems[k], w, sched.tickNonce + 1)
    ensures Fetchable(next, w, after, count - 1)
    ensures DispatchTimes(sched, w, systems, count).systems == DispatchTimes(next, w, after, count - 1).systems
  {
    var d := Dispatch(sched, w, systems);
    next, after := d.scheduler, d.systems;
  }

  /** The first of `count` visits: if it finds its data, the rest start from its outcome. */
  lemma VisitStep(s: System, w: World, tick: nat, count: nat)
    requires count > 0
    requires ShouldRun(ExecutionPolicyOf(s), tick + 1) ==> Resolvable(w, s.data)
    requires VisitFetchable(Visit(s, w, tick + 1), w, tick + 1, count - 1)
    ensures VisitFetchable(s, w, tick, count)
    ensures VisitTimes(s, w, tick, count) == VisitTimes(Visit(s, w, tick + 1), w, tick + 1, count - 1)
  {
  }

  /** Dispatches act on each system separately: system `k` after `count` dispatches is its own visits. */
  lemma {:induction false} DispatchTimesIsPointwise(sched: DefaultScheduler, w: World, systems: seq<System>, count: nat, k: nat)
    requires Fetchable(sched, w, systems, count)
    requires k < |systems|
    ensures VisitFetchable(systems[k], w, sched.tickNonce, count)
    ensures DispatchTimes(sched, w, systems, count).systems[k] == VisitTimes(systems[k], w, sched.tickNonce, count)
    decreases count
  {
    if count > 0 {
      var next, after := DispatchStep(sched, w, systems, count, k);
      DispatchTimesIsPointwise(next, w, after, count - 1, k);
      VisitStep(systems[k], w, sched.tickNonce, count);
    }
  }

  /**
    Over `count` dispatches system `k` stays the same system, keeps its
    earlier runs, and gains at most one run per dispatch, each with the data
    fetched from the world.
  */
  lemma DispatchTimesEffect(sched: DefaultScheduler, w: World, systems: seq<System>, count: nat, k: nat)
    requires Fetchable(sched, w, systems, count)
    requires k < |systems|
    ensures var s, r := systems[k], DispatchTimes(sched, w, systems, count).systems[k];
      && SameInterface(r, s)
      && |s.runs| <= |r.runs| <= |s.runs| + count
      && r.runs[..|s.runs|] == s.runs
      && FetchedFrom(r.runs, |s.runs|, w, s.data)
  {
    DispatchTimesIsPointwise(sched, w, systems, count, k);
  }

  /** The number of ticks among `first`, ..., `first + count - 1` at which the gate passes. */
  function CountRuns(p: ExecutionPolicy, first: nat, count: nat): nat
    requires first >= 1
    decreases count
  {
    if count == 0 then 0
    else (if ShouldRun(p, first) then 1 else 0) + CountRuns(p, first + 1, count - 1)
  }

  /** The system reports `p` whatever its runs have been. */
  ghost predicate AlwaysReports(s: System, p: ExecutionPolicy)
  {
    forall h :: s.policyOf(h) == p
  }

  /** A system that always reports `p` gains one run per tick at which `p` passes the gate. */
  lemma {:induction false} VisitTimesUnderFixedPolicy(s: System, w: World, tick: nat, count: nat, p: ExecutionPolicy)
    requires AlwaysReports(s, p)
    requires VisitFetchable(s, w, tick, count)
    ensures |VisitTimes(s, w, tick, count).runs| == |s.runs| + CountRuns(p, tick + 1, count)
    decreases count
  {
    if count > 0 {
      var s1 := Visit(s, w, tick + 1);
      assert ExecutionPolicyOf(s) == p;
      assert AlwaysReports(s1, p);
      VisitTimesUnderFixedPolicy(s1, w, tick + 1, count - 1, p);
    }
  }

  /** Over `count` dispatches a system that always reports `p` gains one run per tick at which `p` passes. */
  lemma DispatchTimesUnderFixedPolicy(sched: DefaultScheduler, w: World, systems: seq<System>, count: nat, k: nat, p: ExecutionPolicy)
    requires Fetchable(sched, w, systems, count)
    requires k < |systems| && AlwaysReports(systems[k], p)
    ensures |DispatchTimes(sched, w, systems, count).systems[k].runs| == |systems[k].runs| + CountRuns(p, sched.tickNonce + 1, count)
  {
    DispatchTimesIsPointwise(sched, w, systems, count, k);
    VisitTimesUnderFixedPolicy(systems[k], w, sched.tickNonce, count, p);
    assert DispatchTimes(sched, w, systems, count).systems[k].runs == VisitTimes(systems[k], w, sched.tickNonce, count).runs;
  }

  /** A system that always reports `p`, where `p` passes at none of the next `count` ticks, keeps its runs as they were. */
  lemma NoPassNoRun(sched: DefaultScheduler, w: World, systems: seq<System>, count: nat, k: nat, p: ExecutionPolicy)
    requires Fetchable(sched, w, systems, count)
    requires k < |systems| && AlwaysReports(systems[k], p)
    requires CountRuns(p, sched.tickNonce + 1, count) == 0
    ensures DispatchTimes(sched, w, systems, count).systems[k].runs == systems[k].runs
  {
    DispatchTimesUnderFixedPolicy(sched, w, systems, count, k, p);
    DispatchTimesEffect(sched, w, systems, count, k);
  }

  /** An `EveryTick` system runs once per dispatch: `count` dispatches, `count` runs. */
  lemma {:induction false} EveryTickRunsEachDispatch(p: ExecutionPolicy, first: nat, count: nat)
    requires first >= 1 && p == EveryTick
    ensures CountRuns(p, first, count) == count
    decreases count
  {
    if count > 0 {
      EveryTickRunsEachDispatch(p, first + 1, count - 1);
    }
  }

  /** `OnInitOnly`, `EventOnly` and `DontExecute` systems never run through `dispatch`. */
  lemma {:induction false} IdlePoliciesNeverRun(p: ExecutionPolicy, first: nat, count: nat)
    requires first >= 1 && IdlePolicy(p)
    ensures CountRuns(p, first, count) == 0
    decreases count
  {
    if count > 0 {
      IdlePoliciesNeverRun(p, first + 1, count - 1);
    }
  }

  /** As written, an `EveryNTicks(n)` system with `n > 0` never runs again once the counter has reached `n`. */
  lemma {:induction false} EveryNTicksStopsAfterN(n: U32, first: nat, count: nat)
    requires 0 < n < first
    ensures CountRuns(EveryNTicks(n), first, count) == 0
    decreases count
  {
    if count > 0 {
      LiteralCadenceStopsAfterN(n, first);
      EveryNTicksStopsAfterN(n, first + 1, count - 1);
    }
  }

  /** A system that always reports `EveryTick` gains exactly one run per dispatch. */
  lemma EveryTickAcrossDispatches(sched: DefaultScheduler, w: World, systems: seq<System>, count: nat, k: nat)
    requires Fetchable(sched, w, systems, count)
    requires k < |systems| && AlwaysReports(systems[k], EveryTick)
    ensures |DispatchTimes(sched, w, systems, count).systems[k].runs| == |systems[k].runs| + count
  {
    EveryTickRunsEachDispatch(EveryTick, sched.tickNonce + 1, count);
    var gained := CountRuns(EveryTick, sched.tickNonce + 1, count);
    assert gained == count;
    DispatchTimesUnderFixedPolicy(sched, w, systems, count, k, EveryTick);
  }

  /** A system that always reports `OnInitOnly`, `EventOnly` or `DontExecute` never gains a run, however many dispatches. */
  lemma IdleAcrossDispatches(sched: DefaultScheduler, w: World, systems: seq<System>, count: nat, k: nat, p: ExecutionPolicy)
    requires Fetchable(sched, w, systems, count)
    requires k < |systems| && IdlePolicy(p) && AlwaysReports(systems[k], p)
    ensures DispatchTimes(sched, w, systems, count).systems[k].runs == systems[k].runs
  {
    IdlePoliciesNeverRun(p, sched.tickNonce + 1, count);
    NoPassNoRun(sched, w, systems, count, k, p);
  }

  /** As written, a system that always reports `EveryNTicks(n)` with `0 < n <= tick_nonce` never gains a run again. */
  lemma EveryNTicksIdleAfterN(sched: DefaultScheduler, w: World, systems: seq<System>, count: nat, k: nat, n: U32)
    requires Fetchable(sched, w, systems, count)
    requires k < |systems| && AlwaysReports(systems[k], EveryNTicks(n))
    requires 0 < n <= sched.tickNonce
    ensures DispatchTimes(sched, w, systems, count).systems[k].runs == systems[k].runs
  {
    assert CountRuns(EveryNTicks(n), sched.tickNonce + 1, count) == 0 by {
      EveryNTicksStopsAfterN(n, sched.tickNonce + 1, count);
    }
    NoPassNoRun(sched, w, systems, count, k, EveryNTicks(n));
  }

  /** The one-shot system, visited `count` times, runs once if it had not run and there was a visit, and never otherwise. */
  lemma {:induction false} OneShotVisits(s: System, w: World, tick: nat, count: nat)
    requires s.policyOf == OneShotPolicy
    requires VisitFetchable(s, w, tick, count)
    ensures |VisitTimes(s, w, tick, count).runs| == if |s.runs| == 0 && count > 0 then 1 else |s.runs|
    decreases count
  {
    if count > 0 {
      var s1 := Visit(s, w, tick + 1);
      assert |s1.runs| == if |s.runs| == 0 then 1 else |s.runs|;
      OneShotVisits(s1, w, tick + 1, count - 1);
    }
  }

  /**
    A system that switches itself off by running runs exactly once through
    any number of dispatches, which `OnInitOnly` never does through `dispatch`.
  */
  lemma OneShotRunsOnce(sched: DefaultScheduler, w: World, systems: seq<System>, count: nat, k: nat)
    requires Fetchable(sched, w, systems, count)
    requires k < |systems| && systems[k].policyOf == OneShotPolicy && systems[k].runs == []
    requires count >= 1
    ensures |DispatchTimes(sched, w, systems, count).systems[k].runs| == 1
  {
    DispatchTimesIsPointwise(sched, w, systems, count, k);
    OneShotVisits(systems[k], w, sched.tickNonce, count);
  }
}
