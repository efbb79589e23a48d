/** The whole pass: several locations are removed from a template that several processes instantiate. */
module ReducerPass {
  import opened UppaalGraphs
  import opened ReducerForward
  import opened ReducerBackward

  // ---------- Invariants of the graph ----------

  /** The flags of composed edges tell the truth again, so that further locations may be removed. */
  lemma FlagsStayAccurate(meaning: Meaning, g: Graph, m: string)
    requires AllAccurate(meaning, g)
    ensures AllAccurate(meaning, Eliminate(g, m))
  {
    forall e | e in Eliminate(g, m).edges ensures Accurate(meaning, e) {
      if e in Bypasses(g, m) {
        var i, o :| i in Incoming(g, m) && o in Outgoing(g, m) && e == Compose(i, o);
        assert Accurate(meaning, i) && Accurate(meaning, o);
        hide LocalAtom, LocalStatement;
        if e.act.sync.None? && !e.guardUsesGlobals {
          forall k | 0 <= k < |e.act.guard| ensures LocalAtom(meaning, e.act.guard[k]) {
            if k < |i.act.guard| {
              assert e.act.guard[k] == i.act.guard[k];
            } else {
              assert e.act.guard[k] == o.act.guard[k - |i.act.guard|];
            }
          }
        }
        if e.act.sync.None? && !e.updateUsesGlobals {
          forall k | 0 <= k < |e.act.update| ensures LocalStatement(meaning, e.act.update[k]) {
            if k < |i.act.update| {
              assert e.act.update[k] == i.act.update[k];
            } else {
              assert e.act.update[k] == o.act.update[k - |i.act.update|];
            }
          }
        }
      }
    }
  }

  lemma StaysWellFormed(g: Graph, m: string)
    requires WellFormed(g) && CanRemove(g, m)
    ensures WellFormed(Eliminate(g, m))
  {
  }

  // ---------- All instances of a template ----------

  ghost predicate InRange(n: Network, ps: seq<nat>) {
    forall k :: 0 <= k < |ps| ==> ps[k] < |n.graphs|
  }

  /** The network after m was removed from every process in ps. */
  function TemplateReduced(n: Network, ps: seq<nat>, m: string): (n1: Network)
    requires InRange(n, ps)
    ensures |n1.graphs| == |n.graphs|
    decreases |ps|
  {
    if ps == [] then n else TemplateReduced(Reduced(n, ps[0], m), ps[1..], m)
  }

  ghost predicate Distinct(ps: seq<nat>) {
    forall i, j :: 0 <= i < j < |ps| ==> ps[i] != ps[j]
  }

  ghost predicate RemovesAll(n: Network, ps: seq<nat>, m: string) {
    InRange(n, ps) && forall k :: 0 <= k < |ps| ==> Removes(n, ps[k], m) && Unhurried(n, ps[k], m)
  }

  lemma {:induction false} TemplateGraphs(n: Network, ps: seq<nat>, m: string)
    requires Distinct(ps) && InRange(n, ps)
    ensures TemplateReduced(n, ps, m).meaning == n.meaning
    ensures forall q :: 0 <= q < |n.graphs| ==>
              TemplateReduced(n, ps, m).graphs[q] == (if q in ps then Eliminate(n.graphs[q], m) else n.graphs[q])
    decreases |ps|
  {
    if ps != [] {
      TemplateGraphs(Reduced(n, ps[0], m), ps[1..], m);
    }
  }

  /** Removing m from one instance changes nothing about committed partners of another. */
  lemma OthersStayUnhurried(n: Network, p: nat, q: nat, m: string)
    requires Removes(n, p, m) && p != q && q < |n.graphs| && Unhurried(n, q, m)
    ensures Unhurried(Reduced(n, p, m), q, m)
  {
    var n1 := Reduced(n, p, m);
    forall e | NoHurry(n, q, e) ensures NoHurry(n1, q, e) {
      forall r, f | 0 <= r < |n.graphs| && r != q && f in n1.graphs[r].edges && CanMeet(e, f)
        ensures !(f.src in n1.graphs[r].types && n1.graphs[r].types[f.src].Committed?)
      {
        if r == p && f !in n.graphs[p].edges {
          var i, o := OldOrComposed(n, p, m, f);
          InAndOut(n, p, m, i, o);
        } else {
          assert f in n.graphs[r].edges;
        }
      }
    }
  }

  lemma {:induction false} TemplateRemoval(n: Network, c0: Config, c: Config, ps: seq<nat>, m: string)
    requires Distinct(ps) && RemovesAll(n, ps, m) && Fits(n, c0) && Fits(n, c) && !SomeCommitted(n, c)
    requires forall k :: 0 <= k < |ps| ==> c0.locs[ps[k]] != m && c.locs[ps[k]] != m
    ensures Reachable(n, c0, c) <==> Reachable(TemplateReduced(n, ps, m), c0, c)
    ensures !SomeCommitted(TemplateReduced(n, ps, m), c)
    decreases |ps|
  {
    if ps != [] {
      var p, n1 := ps[0], Reduced(n, ps[0], m);
      RemovalPreservesReachability(n, c0, c, p, m);
      SameCommitment(n, c, p, m);
      hide Reachable, SomeCommitted, CanRemove, WellFormed, AllAccurate, Unhurried;
      forall k | 0 <= k < |ps[1..]| ensures Removes(n1, ps[1..][k], m) && Unhurried(n1, ps[1..][k], m) {
        assert ps[1..][k] == ps[k + 1] && ps[k + 1] != p;
        OthersStayUnhurried(n, p, ps[k + 1], m);
      }
      TemplateRemoval(n1, c0, c, ps[1..], m);
    }
  }

  // ---------- Several locations ----------

  /** The locations ms are removed from g one after the other, each under the reducer's conditions. */
  ghost predicate Removable(g: Graph, ms: seq<string>)
    decreases |ms|
  {
    ms == [] || (CanRemove(g, ms[0]) && Removable(Eliminate(g, ms[0]), ms[1..]))
  }

  function EliminateAll(g: Graph, ms: seq<string>): Graph
    decreases |ms|
  {
    if ms == [] then g else EliminateAll(Eliminate(g, ms[0]), ms[1..])
  }

  lemma {:induction false} EliminateOneMore(g: Graph, ms: seq<string>, m: string)
    requires Removable(g, ms) && CanRemove(EliminateAll(g, ms), m)
    ensures Removable(g, ms + [m]) && EliminateAll(g, ms + [m]) == Eliminate(EliminateAll(g, ms), m)
    decreases |ms|
  {
    if ms == [] {
      assert (ms + [m])[1..] == [];
    } else {
      assert (ms + [m])[1..] == ms[1..] + [m];
      EliminateOneMore(Eliminate(g, ms[0]), ms[1..], m);
    }
  }

  function PassReduced(n: Network, ps: seq<nat>, ms: seq<string>): (n1: Network)
    requires InRange(n, ps)
    ensures |n1.graphs| == |n.graphs|
    decreases |ms|
  {
    if ms == [] then n else PassReduced(TemplateReduced(n, ps, ms[0]), ps, ms[1..])
  }

  /** At each removal, handshakes right behind the removed location have no committed partner. */
  ghost predicate PassUnhurried(n: Network, ps: seq<nat>, ms: seq<string>)
    requires InRange(n, ps)
    decreases |ms|
  {
    ms == [] || ((forall k :: 0 <= k < |ps| ==> Unhurried(n, ps[k], ms[0]))
                 && PassUnhurried(TemplateReduced(n, ps, ms[0]), ps, ms[1..]))
  }

  /** The processes ps instantiate the template g, whose flags tell the truth. */
  ghost predicate Instantiates(n: Network, ps: seq<nat>, g: Graph) {
    Distinct(ps) && WellFormed(g) && AllAccurate(n.meaning, g)
    && InRange(n, ps) && forall k :: 0 <= k < |ps| ==> n.graphs[ps[k]] == g
  }

  lemma InstantiatesReduced(n: Network, ps: seq<nat>, g: Graph, m: string)
    requires Instantiates(n, ps, g) && CanRemove(g, m)
    ensures Instantiates(TemplateReduced(n, ps, m), ps, Eliminate(g, m))
  {
    TemplateGraphs(n, ps, m);
    FlagsStayAccurate(n.meaning, g, m);
    StaysWellFormed(g, m);
  }

  /** After the pass every instance has the reduced graph, other processes have the graph they had, and
      the same configurations at rest are reachable. */
  lemma {:induction false} PassPreservesReachability(n: Network, c0: Config, c: Config,
                                                     ps: seq<nat>, g: Graph, ms: seq<string>)
    requires Instantiates(n, ps, g) && Removable(g, ms) && PassUnhurried(n, ps, ms)
    requires Fits(n, c0) && Fits(n, c) && !SomeCommitted(n, c)
    requires forall k :: 0 <= k < |ps| ==> c0.locs[ps[k]] !in ms && c.locs[ps[k]] !in ms
    ensures forall q :: 0 <= q < |n.graphs| ==>
              PassReduced(n, ps, ms).graphs[q] == (if q in ps then EliminateAll(g, ms) else n.graphs[q])
    ensures Instantiates(PassReduced(n, ps, ms), ps, EliminateAll(g, ms))
    ensures Reachable(n, c0, c) <==> Reachable(PassReduced(n, ps, ms), c0, c)
    decreases |ms|
  {
    if ms != [] {
      var n1 := TemplateReduced(n, ps, ms[0]);
      hide CanRemove, Reachable, SomeCommitted, Unhurried;
      TemplateGraphs(n, ps, ms[0]);
      InstantiatesReduced(n, ps, g, ms[0]);
      TemplateRemoval(n, c0, c, ps, ms[0]);
      PassPreservesReachability(n1, c0, c, ps, Eliminate(g, ms[0]), ms[1..]);
    }
  }

  // ---------- Duplicate edges ----------

  function Bare(e: Edge): (string, string, Label) { (e.src, e.dst, e.act) }

  function BareEdges(g: Graph): set<(string, string, Label)> { set e | e in g.edges :: Bare(e) }

  ghost predicate SameLabels(n: Network, n1: Network) {
    && n1.meaning == n.meaning && |n1.graphs| == |n.graphs|
    && forall p :: 0 <= p < |n.graphs| ==>
         n1.graphs[p].types == n.graphs[p].types && BareEdges(n1.graphs[p]) == BareEdges(n.graphs[p])
  }

  lemma SameEdge(n: Network, n1: Network, p: nat, e: Edge) returns (e1: Edge)
    requires SameLabels(n, n1) && p < |n.graphs| && e in n.graphs[p].edges
    ensures e1 in n1.graphs[p].edges && Bare(e1) == Bare(e)
  {
    assert Bare(e) in BareEdges(n.graphs[p]);
    e1 :| e1 in n1.graphs[p].edges && Bare(e1) == Bare(e);
  }

  lemma NextOnSameLabels(n: Network, n1: Network, c: Config, c': Config)
    requires SameLabels(n, n1) && Next(n, c, c')
    ensures Next(n1, c, c')
  {
    var st :| Enabled(n, c, st) && c' == After(n, c, st);
    assert SomeCommitted(n1, c) <==> SomeCommitted(n, c) by {
      forall p | 0 <= p < |n.graphs| ensures IsCommittedAt(n, c, p) <==> IsCommittedAt(n1, c, p) {
      }
    }
    hide SomeCommitted, Execute, GuardHolds, Picks;
    match st
    case Alone(p, e, v) =>
      var e1 := SameEdge(n, n1, p, e);
      var st1 := Alone(p, e1, v);
      assert Enabled(n1, c, st1) && After(n1, c, st1) == c';
    case Together(p, e, v, q, f, w) =>
      var e1 := SameEdge(n, n1, p, e);
      var f1 := SameEdge(n, n1, q, f);
      var st1 := Together(p, e1, v, q, f1, w);
      assert Enabled(n1, c, st1) && After(n1, c, st1) == c';
  }

  /** Edges that differ in their flags only may be dropped: the step relation stays the same. */
  lemma DuplicatesDoNotMatter(n: Network, n1: Network, c: Config, c': Config)
    requires SameLabels(n, n1)
    ensures Next(n, c, c') <==> Next(n1, c, c')
  {
    assert SameLabels(n1, n);
    if Next(n, c, c') { NextOnSameLabels(n, n1, c, c'); }
    if Next(n1, c, c') { NextOnSameLabels(n1, n, c, c'); }
  }
}
