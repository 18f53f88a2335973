/**
  The `SystemInterface` of src/ecs/system.rs, implemented for every `System`:
  the policy and time queries delegate to the system, and `run_on_world`
  fetches the system's declared data from the world and runs it.

  `execution_policy`, `execution_time` and `run` are user code, and `run`
  takes `&mut self`, so a system may answer the queries differently after it
  has run. The model records, per system, the data each of its runs was
  given; the system's state is what its runs have made it, so both queries
  are functions of that history.
*/
module SystemModel {
  import opened Cadence
  import opened Resources

  /** The data a system's runs were given, oldest first. */
  type History = seq<map<ResourceId, Resource>>

  /**
    A system behind the interface: what `System::execution_policy` and
    `System::execution_time` report in the state a given history of runs
    leaves it in, its `SystemData` declaration, and its history so far.
  */
  datatype System = System(
    policyOf: History -> ExecutionPolicy,
    timeOf: History -> ExecutionTime,
    data: SystemDataDecl,
    runs: History)

  /** `SystemInterface::execution_policy`: asks the wrapped system, in its current state. */
  function ExecutionPolicyOf(s: System): (p: ExecutionPolicy)
    ensures p == s.policyOf(s.runs)
  {
    s.policyOf(s.runs)
  }

  /** `SystemInterface::execution_time`: asks the wrapped system, in its current state. */
  function ExecutionTimeOf(s: System): (t: ExecutionTime)
    ensures t == s.timeOf(s.runs)
  {
    s.timeOf(s.runs)
  }

  /**
    `run_on_world`: fetch the declared data once, then `run` once with it.
    specs' fetch panics on a missing resource, so the declaration must resolve.
    Afterwards the queries answer for the state the new run left behind.
  */
  function RunOnWorld(s: System, w: World): (r: System)
    requires Resolvable(w, s.data)
    ensures |r.runs| == |s.runs| + 1
    ensures r.runs[..|s.runs|] == s.runs
    ensures r.runs[|s.runs|].Keys == Declared(s.data)
    ensures forall id :: id in r.runs[|s.runs|] ==> r.runs[|s.runs|][id] == w[id]
    ensures r.data == s.data
    ensures ExecutionPolicyOf(r) == s.policyOf(s.runs + [Fetch(w, s.data)])
    ensures ExecutionTimeOf(r) == s.timeOf(s.runs + [Fetch(w, s.data)])
  {
    s.(runs := s.runs + [Fetch(w, s.data)])
  }

  /** Runs on every tick until it has run once, and is switched off from then on. */
  function OneShotPolicy(h: History): ExecutionPolicy
  {
    if |h| == 0 then EveryTick else DontExecute
  }

  /** A system that has not yet run and switches itself off by running. */
  function OneShot(data: SystemDataDecl, time: ExecutionTime): System
  {
    System(OneShotPolicy, _ => time, data, [])
  }

  /**
    A system can change its own policy by running: the one-shot system asks
    to run on every tick before its first run and never after it.
  */
  lemma RunCanChangePolicy(data: SystemDataDecl, time: ExecutionTime, w: World)
    requires Resolvable(w, data)
    ensures ExecutionPolicyOf(OneShot(data, time)) == EveryTick
    ensures ExecutionPolicyOf(RunOnWorld(OneShot(data, time), w)) == DontExecute
    ensures ExecutionTimeOf(RunOnWorld(OneShot(data, time), w)) == ExecutionTimeOf(OneShot(data, time))
  {
  }
}
