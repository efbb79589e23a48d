/** A condition on the network as it is built under which the reduction of all its processes keeps what is reachable. */
module ReducerConditions {
  import opened UppaalGraphs
  import opened ReducerForward
  import opened ReducerBackward
  import opened ReducerPass

  /** The edge has a sync, or a guard or an update that may use globals. */
  predicate Global(e: Edge) {
    || e.act.sync.Some? || (e.act.guard != [] && e.guardUsesGlobals) || (e.act.update != [] && e.updateUsesGlobals)
  }

  /** A process comes to a handshake that a committed location may offer by edges with a sync or globals only. */
  ghost predicate Patient(n: Network, p: nat)
    requires p < |n.graphs|
  {
    forall e, i :: e in n.graphs[p].edges && i in Incoming(n.graphs[p], e.src) && !NoHurry(n, p, e) ==> Global(i)
  }

  lemma PatientAt(n: Network, p: nat, e: Edge, i: Edge)
    requires p < |n.graphs| && Patient(n, p) && e in n.graphs[p].edges && i in n.graphs[p].edges && i.dst == e.src
    ensures NoHurry(n, p, e) || Global(i)
  {
    assert i in Incoming(n.graphs[p], e.src);
  }

  /** The condition answers the question that each single removal raises. */
  lemma PatientUnhurried(n: Network, p: nat, m: string)
    requires Removes(n, p, m) && Patient(n, p)
    ensures Unhurried(n, p, m)
  {
    hide NoHurry;
    var g := n.graphs[p];
    if LocalIn(g, m) {
      forall i, o | i in Incoming(g, m) && o in Outgoing(g, m) ensures NoHurry(n, p, o) {
        assert !i.UsesGlobals();
        PatientAt(n, p, o, i);
      }
    } else {
      forall o, f | o in Outgoing(g, m) && f in Outgoing(g, o.dst) ensures NoHurry(n, p, f) {
        assert o in Incoming(g, f.src);
        LocalOut(n, p, m, o);
      }
    }
  }

  lemma LocalOut(n: Network, p: nat, m: string, o: Edge)
    requires Removes(n, p, m) && !LocalIn(n.graphs[p], m) && o in Outgoing(n.graphs[p], m)
    ensures !Global(o)
  {
    assert PropsOf(Incoming(n.graphs[p], m)).usesGlobals;
    assert !PropsOf(Outgoing(n.graphs[p], m)).usesGlobals;
  }

  /** No removal makes committed locations offer more. */
  lemma SameOffers(n: Network, r: nat, m: string, p: nat, e: Edge, e1: Edge)
    requires Removes(n, r, m) && p < |n.graphs| && NoHurry(n, p, e) && e1.act.sync == e.act.sync
    ensures NoHurry(Reduced(n, r, m), p, e1)
  {
    var n1 := Reduced(n, r, m);
    forall q, f | 0 <= q < |n1.graphs| && q != p && f in n1.graphs[q].edges && CanMeet(e1, f)
      ensures !(f.src in n1.graphs[q].types && n1.graphs[q].types[f.src].Committed?)
    {
      if q == r && f !in n.graphs[r].edges {
        var i, o := OldOrComposed(n, r, m, f);
        InAndOut(n, r, m, i, o);
      } else {
        assert f in n.graphs[q].edges && CanMeet(e, f);
      }
    }
  }

  lemma OthersStayPatient(n: Network, r: nat, m: string, p: nat)
    requires Removes(n, r, m) && p < |n.graphs| && p != r && Patient(n, p)
    ensures Patient(Reduced(n, r, m), p)
  {
    var n1 := Reduced(n, r, m);
    hide NoHurry, Removes;
    forall e, i | e in n1.graphs[p].edges && i in Incoming(n1.graphs[p], e.src) && !NoHurry(n1, p, e) ensures Global(i) {
      if NoHurry(n, p, e) {
        SameOffers(n, r, m, p, e, e);
      }
    }
  }

  /** Where an edge of the reduced process may be hurried, the original has such an edge from the same location. */
  lemma HurriedBefore(n: Network, p: nat, m: string, e: Edge) returns (e0: Edge)
    requires Removes(n, p, m) && Patient(n, p)
    requires e in Reduced(n, p, m).graphs[p].edges && !NoHurry(Reduced(n, p, m), p, e)
    ensures e0 in n.graphs[p].edges && e0.src == e.src && !NoHurry(n, p, e0)
  {
    var i, o := OldOrComposed(n, p, m, e);
    if e in n.graphs[p].edges {
      e0 := e;
    } else {
      e0 := i;
      InAndOut(n, p, m, i, o);
      hide NoHurry;
      if i.act.sync.None? {
        BehindLocal(n, p, m, i, o);
        SameOffers(n, p, m, p, o, e);
      }
    }
    if NoHurry(n, p, e0) {
      SameOffers(n, p, m, p, e0, e);
    }
  }

  /** Behind an edge without a sync there is no handshake that a committed location may offer. */
  lemma BehindLocal(n: Network, p: nat, m: string, i: Edge, o: Edge)
    requires Removes(n, p, m) && i in Incoming(n.graphs[p], m) && o in Outgoing(n.graphs[p], m)
    requires Patient(n, p) && i.act.sync.None?
    ensures NoHurry(n, p, o)
  {
    if o.act.sync.Some? {
      assert o.UsesGlobals();
      PatientAt(n, p, o, i);
      if !LocalIn(n.graphs[p], m) {
        LocalOut(n, p, m, o);
      }
      assert !i.UsesGlobals();
    }
  }

  lemma StaysPatient(n: Network, p: nat, m: string)
    requires Removes(n, p, m) && Patient(n, p)
    ensures Patient(Reduced(n, p, m), p)
  {
    var n1 := Reduced(n, p, m);
    forall e, j | e in n1.graphs[p].edges && j in Incoming(n1.graphs[p], e.src) && !NoHurry(n1, p, e) ensures Global(j) {
      var e0 := HurriedBefore(n, p, m, e);
      var i, o := OldOrComposed(n, p, m, j);
      hide NoHurry;
      if j in n.graphs[p].edges {
        assert j in Incoming(n.graphs[p], e0.src);
      } else {
        assert o in Incoming(n.graphs[p], e0.src);
        assert Global(o);
      }
    }
  }

  // ---------- One process template ----------

  ghost predicate AllPatient(n: Network, ps: seq<nat>)
    requires InRange(n, ps)
  {
    forall k :: 0 <= k < |ps| ==> Patient(n, ps[k])
  }

  ghost predicate AllRemove(n: Network, ps: seq<nat>, m: string) {
    InRange(n, ps) && forall k :: 0 <= k < |ps| ==> Removes(n, ps[k], m)
  }

  /** Removing a location from the instances of a template leaves any other process and them patient. */
  lemma {:induction false} TemplateStaysPatient(n: Network, ps: seq<nat>, m: string, q: nat)
    requires Distinct(ps) && AllRemove(n, ps, m) && q < |n.graphs| && Patient(n, q)
    ensures Patient(TemplateReduced(n, ps, m), q)
    decreases |ps|
  {
    if ps != [] {
      var n1 := Reduced(n, ps[0], m);
      if q == ps[0] {
        StaysPatient(n, q, m);
      } else {
        OthersStayPatient(n, ps[0], m, q);
      }
      hide Removes, Patient;
      forall k | 0 <= k < |ps[1..]| ensures Removes(n1, ps[1..][k], m) {
        assert ps[1..][k] == ps[k + 1] && ps[k + 1] != ps[0] && Removes(n, ps[k + 1], m);
        SameRemoves(n, n1, ps[k + 1], m);
      }
      TemplateStaysPatient(n1, ps[1..], m, q);
    }
  }

  lemma SameRemoves(n: Network, n1: Network, p: nat, m: string)
    requires Removes(n, p, m) && n1.meaning == n.meaning && |n1.graphs| == |n.graphs| && n1.graphs[p] == n.graphs[p]
    ensures Removes(n1, p, m)
  {
  }

  lemma InstancesRemove(n: Network, ps: seq<nat>, g: Graph, m: string)
    requires Instantiates(n, ps, g) && CanRemove(g, m)
    ensures AllRemove(n, ps, m)
  {
  }

  /** The pass over a template keeps the condition for every process. */
  lemma {:induction false} PassStaysPatient(n: Network, ps: seq<nat>, g: Graph, ms: seq<string>, q: nat)
    requires Instantiates(n, ps, g) && Removable(g, ms) && q < |n.graphs| && Patient(n, q)
    ensures Patient(PassReduced(n, ps, ms), q)
    decreases |ms|
  {
    if ms != [] {
      hide Patient, Removes, CanRemove;
      InstancesRemove(n, ps, g, ms[0]);
      TemplateStaysPatient(n, ps, ms[0], q);
      InstantiatesReduced(n, ps, g, ms[0]);
      PassStaysPatient(TemplateReduced(n, ps, ms[0]), ps, Eliminate(g, ms[0]), ms[1..], q);
    }
  }

  /** Whatever the reducer removes from a template with patient instances, it removes without harm. */
  lemma {:induction false} PatientPass(n: Network, ps: seq<nat>, g: Graph, ms: seq<string>)
    requires Instantiates(n, ps, g) && Removable(g, ms) && AllPatient(n, ps)
    ensures PassUnhurried(n, ps, ms)
    decreases |ms|
  {
    if ms != [] {
      var n1 := TemplateReduced(n, ps, ms[0]);
      InstancesRemove(n, ps, g, ms[0]);
      hide Patient, Removes, CanRemove, Unhurried, Instantiates;
      forall k | 0 <= k < |ps| ensures Unhurried(n, ps[k], ms[0]) && Patient(n1, ps[k]) {
        assert Removes(n, ps[k], ms[0]) && Patient(n, ps[k]);
        PatientUnhurried(n, ps[k], ms[0]);
        Repeatless(n, ps, g);
        TemplateStaysPatient(n, ps, ms[0], ps[k]);
      }
      InstantiatesReduced(n, ps, g, ms[0]);
      PatientPass(n1, ps, Eliminate(g, ms[0]), ms[1..]);
    }
  }

  lemma Repeatless(n: Network, ps: seq<nat>, g: Graph)
    requires Instantiates(n, ps, g)
    ensures Distinct(ps) && InRange(n, ps)
  {
  }

  // ---------- All templates of the system ----------

  /** A template, its instances, and the locations that the reducer removes from it. */
  datatype Pass = Pass(ps: seq<nat>, g: Graph, ms: seq<string>)

  ghost predicate PassOk(n: Network, pass: Pass) {
    Instantiates(n, pass.ps, pass.g) && Removable(pass.g, pass.ms) && AllPatient(n, pass.ps)
  }

  ghost predicate Apart(passes: seq<Pass>) {
    forall i, j, q :: 0 <= i < j < |passes| && q in passes[i].ps ==> q !in passes[j].ps
  }

  /** The reducer's passes over the templates of a system, one after the other. */
  function SystemReduced(n: Network, passes: seq<Pass>): (n1: Network)
    requires forall k :: 0 <= k < |passes| ==> InRange(n, passes[k].ps)
    ensures |n1.graphs| == |n.graphs|
    decreases |passes|
  {
    if passes == [] then n
    else
      var n1 := PassReduced(n, passes[0].ps, passes[0].ms);
      assert forall k :: 0 <= k < |passes| ==> InRange(n1, passes[k].ps) by {
        assert forall k :: 0 <= k < |passes| ==> InRange(n, passes[k].ps);
      }
      assert forall k :: 0 <= k < |passes[1..]| ==> passes[1..][k] == passes[k + 1];
      SystemReduced(n1, passes[1..])
  }

  ghost predicate SystemOk(n: Network, passes: seq<Pass>) {
    Apart(passes) && forall k :: 0 <= k < |passes| ==> PassOk(n, passes[k])
  }

  /** No process stands at a location that is removed from it. */
  ghost predicate Clear(c: Config, passes: seq<Pass>) {
    forall k, i :: 0 <= k < |passes| && 0 <= i < |passes[k].ps| && passes[k].ps[i] < |c.locs| ==>
      c.locs[passes[k].ps[i]] !in passes[k].ms
  }

  lemma SystemRanges(n: Network, passes: seq<Pass>)
    requires SystemOk(n, passes)
    ensures forall k :: 0 <= k < |passes| ==> InRange(n, passes[k].ps)
  {
    forall k | 0 <= k < |passes| ensures InRange(n, passes[k].ps) {
      assert PassOk(n, passes[k]);
    }
  }

  /** A pass over one template leaves the others ready for theirs. */
  lemma OthersStayOk(n: Network, passes: seq<Pass>, n1: Network)
    requires SystemOk(n, passes) && passes != [] && |n1.graphs| == |n.graphs| && n1.meaning == n.meaning
    requires forall q :: 0 <= q < |n.graphs| && q !in passes[0].ps ==> n1.graphs[q] == n.graphs[q]
    requires forall q :: 0 <= q < |n.graphs| && Patient(n, q) ==> Patient(n1, q)
    ensures SystemOk(n1, passes[1..])
  {
    hide Patient, Removable, AllAccurate, WellFormed;
    forall k | 0 <= k < |passes[1..]| ensures PassOk(n1, passes[1..][k]) {
      var pass := passes[k + 1];
      assert passes[1..][k] == pass && PassOk(n, pass);
      forall i | 0 <= i < |pass.ps| ensures n1.graphs[pass.ps[i]] == n.graphs[pass.ps[i]] && Patient(n1, pass.ps[i]) {
        assert pass.ps[i] in pass.ps && pass.ps[i] !in passes[0].ps;
      }
    }
    forall i, j, q | 0 <= i < j < |passes[1..]| && q in passes[1..][i].ps ensures q !in passes[1..][j].ps {
      assert q in passes[i + 1].ps && q !in passes[j + 1].ps;
    }
  }

  lemma PassCommitment(n: Network, n1: Network, c: Config, ps: seq<nat>, g: Graph, ms: seq<string>)
    requires Instantiates(n, ps, g) && Removable(g, ms) && Fits(n, c) && !SomeCommitted(n, c) && |n1.graphs| == |n.graphs|
    requires forall q :: 0 <= q < |n.graphs| ==> n1.graphs[q] == (if q in ps then EliminateAll(g, ms) else n.graphs[q])
    ensures !SomeCommitted(n1, c)
  {
    TypesShrink(g, ms);
    forall q | 0 <= q < |n1.graphs| ensures !IsCommittedAt(n1, c, q) {
      assert !IsCommittedAt(n, c, q);
    }
  }

  lemma {:induction false} TypesShrink(g: Graph, ms: seq<string>)
    ensures EliminateAll(g, ms).types.Keys <= g.types.Keys
    ensures forall a :: a in EliminateAll(g, ms).types ==> EliminateAll(g, ms).types[a] == g.types[a]
    decreases |ms|
  {
    if ms != [] {
      TypesShrink(Eliminate(g, ms[0]), ms[1..]);
    }
  }

  /** After all templates of a patient network were reduced, the same configurations at rest are reachable. */
  lemma {:induction false} ReductionKeepsReachability(n: Network, c0: Config, c: Config, passes: seq<Pass>)
    requires SystemOk(n, passes) && Fits(n, c0) && Fits(n, c) && !SomeCommitted(n, c)
    requires Clear(c0, passes) && Clear(c, passes)
    requires forall k :: 0 <= k < |passes| ==> InRange(n, passes[k].ps)
    ensures Reachable(n, c0, c) <==> Reachable(SystemReduced(n, passes), c0, c)
    decreases |passes|
  {
    if passes != [] {
      var n1 := PassReduced(n, passes[0].ps, passes[0].ms);
      hide Reachable, SomeCommitted, SystemOk, Clear, InRange;
      FirstPass(n, c0, c, passes);
      assert forall k :: 0 <= k < |passes[1..]| ==> passes[1..][k] == passes[k + 1];
      SystemRanges(n1, passes[1..]);
      ReductionKeepsReachability(n1, c0, c, passes[1..]);
    }
  }

  lemma FirstPass(n: Network, c0: Config, c: Config, passes: seq<Pass>)
    requires SystemOk(n, passes) && Fits(n, c0) && Fits(n, c) && !SomeCommitted(n, c)
    requires Clear(c0, passes) && Clear(c, passes) && passes != [] && InRange(n, passes[0].ps)
    ensures var n1 := PassReduced(n, passes[0].ps, passes[0].ms);
            && SystemOk(n1, passes[1..]) && Fits(n1, c0) && Fits(n1, c) && !SomeCommitted(n1, c)
            && Clear(c0, passes[1..]) && Clear(c, passes[1..]) && (Reachable(n, c0, c) <==> Reachable(n1, c0, c))
  {
    var ps, g, ms := passes[0].ps, passes[0].g, passes[0].ms;
    var n1 := PassReduced(n, ps, ms);
    assert PassOk(n, passes[0]);
    hide Patient, Removable, Reachable, SomeCommitted, PassUnhurried, SystemOk, AllAccurate, WellFormed, Instantiates, Clear;
    PatientPass(n, ps, g, ms);
    ClearFirst(n, c0, passes);
    ClearFirst(n, c, passes);
    PassPreservesReachability(n, c0, c, ps, g, ms);
    PassMeaning(n, ps, g, ms);
    forall q | 0 <= q < |n.graphs| && Patient(n, q) ensures Patient(n1, q) {
      PassStaysPatient(n, ps, g, ms, q);
    }
    OthersStayOk(n, passes, n1);
    PassCommitment(n, n1, c, ps, g, ms);
  }

  lemma {:induction false} PassMeaning(n: Network, ps: seq<nat>, g: Graph, ms: seq<string>)
    requires Instantiates(n, ps, g) && Removable(g, ms)
    ensures PassReduced(n, ps, ms).meaning == n.meaning
    decreases |ms|
  {
    if ms != [] {
      TemplateGraphs(n, ps, ms[0]);
      InstantiatesReduced(n, ps, g, ms[0]);
      hide CanRemove, Instantiates;
      PassMeaning(TemplateReduced(n, ps, ms[0]), ps, Eliminate(g, ms[0]), ms[1..]);
    }
  }

  lemma ClearFirst(n: Network, c: Config, passes: seq<Pass>)
    requires Clear(c, passes) && passes != [] && Fits(n, c) && InRange(n, passes[0].ps)
    ensures forall k :: 0 <= k < |passes[0].ps| ==> c.locs[passes[0].ps[k]] !in passes[0].ms
    ensures Clear(c, passes[1..])
  {
    assert forall k :: 0 <= k < |passes[1..]| ==> passes[1..][k] == passes[k + 1];
  }
}
