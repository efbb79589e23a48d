/** Both optimizer passes over a process, and what they leave unchanged in every network that contains the process. */
module OptimizedNetworks {
  import opened UppaalGraphs
  import opened UppaalProcess
  import opened ReducerPass
  import opened ReducerConditions
  import opened ProcessReducers

  /** The network with another graph for the processes ps. */
  function Replaced(n: Network, ps: seq<nat>, g: Graph): Network {
    Network(n.meaning, seq(|n.graphs|, q requires 0 <= q < |n.graphs| => if q in ps then g else n.graphs[q]))
  }

  lemma {:induction false} RunOnSameLabels(n: Network, n1: Network, run: seq<Config>)
    requires SameLabels(n, n1) && IsRun(n, run)
    ensures IsRun(n1, run)
  {
    forall k | 0 <= k < |run| - 1 ensures Next(n1, run[k], run[k + 1]) {
      assert Next(n, run[k], run[k + 1]);
      NextOnSameLabels(n, n1, run[k], run[k + 1]);
    }
  }

  lemma ReachableOnSameLabels(n: Network, n1: Network, c0: Config, c: Config)
    requires SameLabels(n, n1)
    ensures Reachable(n, c0, c) <==> Reachable(n1, c0, c)
  {
    assert SameLabels(n1, n);
    if Reachable(n, c0, c) {
      var run :| IsRun(n, run) && run[0] == c0 && run[|run| - 1] == c;
      RunOnSameLabels(n, n1, run);
    }
    if Reachable(n1, c0, c) {
      var run :| IsRun(n1, run) && run[0] == c0 && run[|run| - 1] == c;
      RunOnSameLabels(n1, n, run);
    }
  }

  /** The processes ps are patient instances of g, and neither configuration has one of them at a location in ms;
      in the second one nothing is committed. */
  ghost predicate InUse(n: Network, ps: seq<nat>, g: Graph, ms: seq<string>, c0: Config, c: Config) {
    && Instantiates(n, ps, g) && AllPatient(n, ps) && Fits(n, c0) && Fits(n, c) && !SomeCommitted(n, c)
    && forall k :: 0 <= k < |ps| ==> c0.locs[ps[k]] !in ms && c.locs[ps[k]] !in ms
  }

  ghost predicate SameReach(n: Network, n1: Network, c0: Config, c: Config) {
    Reachable(n, c0, c) <==> Reachable(n1, c0, c)
  }

  lemma PassesKeepReachability(n: Network, ps: seq<nat>, g: Graph, ms: seq<string>, g1: Graph, c0: Config, c: Config)
    requires InUse(n, ps, g, ms, c0, c) && Removable(g, ms)
    requires g1.types == EliminateAll(g, ms).types && BareEdges(g1) == BareEdges(EliminateAll(g, ms))
    ensures SameReach(n, Replaced(n, ps, g1), c0, c)
  {
    hide Reachable, SomeCommitted, Removable, AllPatient, AllAccurate, WellFormed, BareEdges;
    PatientPass(n, ps, g, ms);
    PassPreservesReachability(n, c0, c, ps, g, ms);
    PassMeaning(n, ps, g, ms);
    var n1, n2 := PassReduced(n, ps, ms), Replaced(n, ps, g1);
    assert SameLabels(n1, n2);
    ReachableOnSameLabels(n1, n2, c0, c);
  }

  /** Removes states and then duplicate transitions. In every network in which patient processes have the graph
      that the process had, the same configurations at rest are reachable with the graph it has now. */
  method OptimizeProcess(p: Process) returns (ghost removed: seq<string>)
    requires p.Valid() && p.initialState != null
    modifies p, p.states`transitions
    ensures p.Valid() && NoTwins(p.transitions)
    ensures forall n, ps, c0, c :: InUse(n, ps, old(p.View()), removed, c0, c) ==> SameReach(n, Replaced(n, ps, p.View()), c0, c)
  {
    hide Process.NamesOk, Process.LookupOk, Process.IncidenceOk, Process.InitialOk, Process.View, BareEdges, NoTwins, InUse,
      SameReach, Removable, EliminateAll;
    ghost var g := p.View();
    ghost var tried;
    removed, tried := ReduceStatesInProcess(p);
    ghost var g1 := p.View();
    ReduceTransitionsInProcess(p);
    forall n, ps, c0, c | InUse(n, ps, g, removed, c0, c) ensures SameReach(n, Replaced(n, ps, p.View()), c0, c) {
      PassesKeepReachability(n, ps, g, removed, p.View(), c0, c);
    }
  }
}
