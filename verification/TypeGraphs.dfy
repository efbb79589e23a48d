/** The graph of types that contain each other by value, and the order in which types are declared. */
module TypeGraphs {

  /** A type, by its identity. */
  datatype Type = Type(id: nat)

  /** For each type the types it depends on. */
  type Table = map<Type, set<Type>>

  /** Integers, functions, channels, mutexes, wait groups and onces. */
  const BASIC_TYPES: seq<Type> := [Type(0), Type(1), Type(2), Type(3), Type(4), Type(5)]

  ghost predicate Closed(g: Table) { forall t :: t in g ==> g[t] <= g.Keys }

  /** Each type of the path depends on the next one. */
  ghost predicate IsPath(g: Table, p: seq<Type>) {
    |p| > 0 && (forall i :: 0 <= i < |p| ==> p[i] in g) && forall i :: 0 <= i < |p| - 1 ==> p[i + 1] in g[p[i]]
  }

  /** A type depends on itself, perhaps through others. */
  ghost predicate HasCycle(g: Table) { exists p :: IsPath(g, p) && |p| > 1 && p[0] == p[|p| - 1] }

  /** One or more dependencies lead from t to u. */
  ghost predicate DependsOn(g: Table, t: Type, u: Type) {
    exists p :: IsPath(g, p) && |p| > 1 && p[0] == t && p[|p| - 1] == u
  }

  predicate NoRepeats(s: seq<Type>) { forall i, j :: 0 <= i < j < |s| ==> s[i] != s[j] }

  /** Each type comes after all types it depends on. */
  ghost predicate Sorted(g: Table, order: seq<Type>) {
    forall i, u :: 0 <= i < |order| && order[i] in g && u in g[order[i]] ==> exists j :: 0 <= j < i && order[j] == u
  }

  ghost predicate BasicsKnown(g: Table) { forall i :: 0 <= i < |BASIC_TYPES| ==> BASIC_TYPES[i] in g && g[BASIC_TYPES[i]] == {} }

  function ToSet(s: seq<Type>): set<Type> { set t | t in s }

  class TypeGraph {
    var dependantsToDependees: Table
    var dependeesToDependants: Table
    var topologicalOrderOk: bool
    var topologicalOrder: seq<Type>

    ghost predicate Valid()
      reads this
    {
      && Opposite(dependantsToDependees, dependeesToDependants) && Opposite(dependeesToDependants, dependantsToDependees)
      && (topologicalOrderOk ==> OrderOk(dependantsToDependees, topologicalOrder))
    }

    constructor ()
      ensures Valid() && dependantsToDependees == map[]
    {
      dependantsToDependees, dependeesToDependants, topologicalOrderOk, topologicalOrder := map[], map[], false, [];
    }

    method AddType(t: Type)
      requires Valid()
      modifies this
      ensures Valid()
      ensures dependantsToDependees
              == (if t in old(dependantsToDependees) then old(dependantsToDependees) else old(dependantsToDependees)[t := {}])
    {
      if t in dependantsToDependees {
        return;
      }
      dependantsToDependees := dependantsToDependees[t := {}];
      dependeesToDependants := dependeesToDependants[t := {}];
      topologicalOrderOk := false;
    }

    method AddDependency(dependant: Type, dependee: Type)
      requires Valid() && dependant in dependantsToDependees && dependee in dependantsToDependees
      modifies this
      ensures Valid()
      ensures dependantsToDependees
              == old(dependantsToDependees)[dependant := old(dependantsToDependees)[dependant] + {dependee}]
    {
      dependantsToDependees := dependantsToDependees[dependant := dependantsToDependees[dependant] + {dependee}];
      dependeesToDependants := dependeesToDependants[dependee := dependeesToDependants[dependee] + {dependant}];
      topologicalOrderOk := false;
    }

    /** All types a type depends on, directly or not, each once. */
    method AllTransitiveDependees(dependant: Type) returns (dependees: seq<Type>)
      requires Valid() && dependant in dependantsToDependees
      ensures NoRepeats(dependees)
      ensures forall t :: t in dependees <==> DependsOn(dependantsToDependees, dependant, t)
    {
      dependees := AllBehind(dependantsToDependees, dependant);
    }

    /** All types that depend on a type, directly or not, each once. */
    method AllTransitiveDependants(dependee: Type) returns (dependants: seq<Type>)
      requires Valid() && dependee in dependantsToDependees
      ensures NoRepeats(dependants)
      ensures forall t :: t in dependants <==> DependsOn(dependantsToDependees, t, dependee)
    {
      dependants := AllBehind(dependeesToDependants, dependee);
      forall t ensures t in dependants <==> DependsOn(dependantsToDependees, t, dependee) {
        if t in dependants {
          Backwards(dependantsToDependees, dependeesToDependants, t, dependee);
        }
        if DependsOn(dependantsToDependees, t, dependee) {
          Backwards(dependeesToDependants, dependantsToDependees, dependee, t);
        }
      }
    }

    /** Orders the types so that each comes after those it depends on; fails exactly if there is a cycle. */
    method UpdateTopologicalOrder() returns (ok: bool)
      requires Valid() && BasicsKnown(dependantsToDependees)
      modifies `topologicalOrderOk, `topologicalOrder
      ensures ok <==> !HasCycle(dependantsToDependees)
      ensures ok ==> Valid() && topologicalOrderOk && OrderOk(dependantsToDependees, topologicalOrder)
    {
      if topologicalOrderOk {
        SortedHasNoCycle(dependantsToDependees, topologicalOrder);
        return true;
      }
      topologicalOrder := BASIC_TYPES;
      BasicsSorted(dependantsToDependees);
      while |topologicalOrder| < |dependantsToDependees|
        modifies `topologicalOrder
        invariant PartOk(dependantsToDependees, topologicalOrder)
        decreases |dependantsToDependees| - |topologicalOrder|
      {
        var oldCount := |topologicalOrder|;
        AddRound();
        if |topologicalOrder| == oldCount {
          StuckHasCycle(dependantsToDependees, topologicalOrder);
          return false;
        }
      }
      AllThere(dependantsToDependees, topologicalOrder);
      SortedHasNoCycle(dependantsToDependees, topologicalOrder);
      topologicalOrderOk := true;
      return true;
    }

    /** One round over all types: those whose dependees are all there are appended. */
    method AddRound()
      requires PartOk(dependantsToDependees, topologicalOrder)
      modifies `topologicalOrder
      ensures PartOk(dependantsToDependees, topologicalOrder) && |old(topologicalOrder)| <= |topologicalOrder|
      ensures |topologicalOrder| == |old(topologicalOrder)| ==> Stuck(dependantsToDependees, topologicalOrder)
    {
      var candidates := dependantsToDependees.Keys;
      while candidates != {}
        modifies `topologicalOrder
        invariant candidates <= dependantsToDependees.Keys && PartOk(dependantsToDependees, topologicalOrder)
        invariant |old(topologicalOrder)| <= |topologicalOrder|
        invariant |topologicalOrder| == |old(topologicalOrder)| ==>
                    && topologicalOrder == old(topologicalOrder)
                    && forall t :: t in dependantsToDependees && t !in candidates && t !in topologicalOrder ==>
                         exists u :: u in dependantsToDependees[t] && u !in topologicalOrder
        decreases |candidates|
      {
        var dependant :| dependant in candidates;
        candidates := candidates - {dependant};
        if dependant !in topologicalOrder && forall u :: u in dependantsToDependees[dependant] ==> u in topologicalOrder {
          OneMore(dependantsToDependees, topologicalOrder, dependant);
          topologicalOrder := topologicalOrder + [dependant];
        }
      }
    }
  }

  /** All types, each once, and each after those it depends on. */
  ghost predicate OrderOk(g: Table, order: seq<Type>) {
    NoRepeats(order) && Sorted(g, order) && forall t :: t in order <==> t in g
  }

  ghost predicate PartOk(g: Table, order: seq<Type>) {
    Closed(g) && NoRepeats(order) && Sorted(g, order) && forall t :: t in order ==> t in g
  }

  lemma BasicsSorted(g: Table)
    requires Closed(g) && BasicsKnown(g)
    ensures PartOk(g, BASIC_TYPES)
  {
  }

  lemma OneMore(g: Table, order: seq<Type>, t: Type)
    requires PartOk(g, order) && t in g && t !in order && forall u :: u in g[t] ==> u in order
    ensures PartOk(g, order + [t])
  {
    var more := order + [t];
    forall i, u | 0 <= i < |more| && more[i] in g && u in g[more[i]] ensures exists j :: 0 <= j < i && more[j] == u {
      if i < |order| {
        var j :| 0 <= j < i && order[j] == u;
        assert more[j] == u;
      } else {
        var j :| 0 <= j < |order| && order[j] == u;
        assert more[j] == u;
      }
    }
  }

  lemma {:induction false} SizeOfSet(s: seq<Type>)
    requires NoRepeats(s)
    ensures |ToSet(s)| == |s|
  {
    if s != [] {
      var n := |s| - 1;
      SizeOfSet(s[..n]);
      assert s == s[..n] + [s[n]];
      assert ToSet(s) == ToSet(s[..n]) + {s[n]};
      assert s[n] !in ToSet(s[..n]);
    } else {
      assert ToSet(s) == {};
    }
  }

  lemma {:induction false} SubsetSize(a: set<Type>, b: set<Type>)
    requires a <= b
    ensures |a| <= |b| && (|a| == |b| ==> a == b)
  {
    if a == {} {
      if |b| == 0 { assert b == {}; }
    } else {
      var x :| x in a;
      SubsetSize(a - {x}, b - {x});
      assert a == (a - {x}) + {x} && b == (b - {x}) + {x};
    }
  }

  lemma AllThere(g: Table, order: seq<Type>)
    requires PartOk(g, order) && |order| >= |g|
    ensures OrderOk(g, order)
  {
    SizeOfSet(order);
    assert |g.Keys| == |g|;
    SubsetSize(ToSet(order), g.Keys);
    assert ToSet(order) == g.Keys;
    forall t | t in g ensures t in order {
      assert t in ToSet(order);
    }
  }

  // ---------- Cycles ----------

  lemma PartOfPath(g: Table, p: seq<Type>, i: nat, j: nat)
    requires IsPath(g, p) && i < j <= |p|
    ensures IsPath(g, p[i..j])
  {
    var q := p[i..j];
    forall l | 0 <= l < |q| - 1 ensures q[l + 1] in g[q[l]] {
      assert p[i + l + 1] in g[p[i + l]];
    }
  }

  /** Along a path in sorted order positions go down. */
  lemma {:induction false} PositionsFall(g: Table, order: seq<Type>, p: seq<Type>, i: nat, j: nat)
    requires OrderOk(g, order) && IsPath(g, p) && i < |order| && j < |order| && order[i] == p[0] && order[j] == p[|p| - 1] && |p| > 1
    ensures j < i
    decreases |p|
  {
    assert p[0 + 1] in g[p[0]];
    var k :| 0 <= k < i && order[k] == p[1];
    if |p| > 2 {
      var rest := p[1..];
      PartOfPath(g, p, 1, |p|);
      PositionsFall(g, order, rest, k, j);
    }
  }

  lemma SortedHasNoCycle(g: Table, order: seq<Type>)
    requires OrderOk(g, order)
    ensures !HasCycle(g)
  {
    if HasCycle(g) {
      var p :| IsPath(g, p) && |p| > 1 && p[0] == p[|p| - 1];
      var i :| 0 <= i < |order| && order[i] == p[0];
      PositionsFall(g, order, p, i, i);
    }
  }

  /** Each type that is not ordered depends directly on one that is not. */
  ghost predicate Stuck(g: Table, order: seq<Type>) {
    forall t :: t in g && t !in order ==> exists u :: u in g[t] && u !in order
  }

  /** A walk of any length through types that are not ordered. */
  lemma {:induction false} WalkOn(g: Table, order: seq<Type>, t: Type, n: nat) returns (p: seq<Type>)
    requires Closed(g) && t in g && t !in order && Stuck(g, order)
    ensures IsPath(g, p) && |p| == n + 1 && p[0] == t && forall i :: 0 <= i < |p| ==> p[i] !in order
  {
    hide Stuck;
    p := [t];
    while |p| < n + 1
      invariant IsPath(g, p) && |p| <= n + 1 && p[0] == t && forall i :: 0 <= i < |p| ==> p[i] !in order
      decreases n + 1 - |p|
    {
      var u := StuckAt(g, order, p[|p| - 1]);
      p := p + [u];
    }
  }

  lemma StuckAt(g: Table, order: seq<Type>, t: Type) returns (u: Type)
    requires Stuck(g, order) && t in g && t !in order
    ensures u in g[t] && u !in order
  {
    u :| u in g[t] && u !in order;
  }

  lemma StuckHasCycle(g: Table, order: seq<Type>)
    requires PartOk(g, order) && |order| < |g| && Stuck(g, order)
    ensures HasCycle(g)
  {
    hide IsPath, Sorted, NoRepeats, Stuck;
    var t := SomeLeft(g, order);
    var p := WalkOn(g, order, t, |g|);
    var i, j := Repeat(g, p);
    var q := p[i..j + 1];
    PartOfPath(g, p, i, j + 1);
    assert IsPath(g, q) && q[0] == q[|q| - 1];
  }

  lemma SomeLeft(g: Table, order: seq<Type>) returns (t: Type)
    requires PartOk(g, order) && |order| < |g|
    ensures t in g && t !in order
  {
    SizeOfSet(order);
    assert |g.Keys| == |g|;
    assert ToSet(order) <= g.Keys;
    if g.Keys <= ToSet(order) {
      SubsetSize(g.Keys, ToSet(order));
    }
    t :| t in g.Keys && t !in ToSet(order);
  }

  /** A path with more steps than there are types comes to one of them twice. */
  lemma Repeat(g: Table, p: seq<Type>) returns (i: nat, j: nat)
    requires IsPath(g, p) && |p| > |g|
    ensures i < j < |p| && p[i] == p[j]
  {
    if NoRepeats(p) {
      SizeOfSet(p);
      assert |g.Keys| == |g|;
      assert ToSet(p) <= g.Keys;
      SubsetSize(ToSet(p), g.Keys);
    }
    i, j :| 0 <= i < j < |p| && p[i] == p[j];
  }

  // ---------- Everything behind a type ----------

  lemma DependsDirectly(g: Table, t: Type, u: Type)
    requires Closed(g) && t in g && u in g[t]
    ensures DependsOn(g, t, u)
  {
    var p := [t, u];
    assert IsPath(g, p) && p[0] == t && p[|p| - 1] == u;
  }

  lemma DependsFurther(g: Table, t: Type, u: Type, v: Type)
    requires Closed(g) && DependsOn(g, t, u) && u in g && v in g[u]
    ensures DependsOn(g, t, v)
  {
    var p :| IsPath(g, p) && |p| > 1 && p[0] == t && p[|p| - 1] == u;
    var q := p + [v];
    assert IsPath(g, q) && q[0] == t && q[|q| - 1] == v;
  }

  /** A set that has the direct dependees of t and of all its members has everything t depends on. */
  lemma {:induction false} AllInside(g: Table, t: Type, s: set<Type>, p: seq<Type>)
    requires t in g && g[t] <= s && (forall u :: u in s && u in g ==> g[u] <= s)
    requires IsPath(g, p) && |p| > 1 && p[0] == t
    ensures p[|p| - 1] in s
    decreases |p|
  {
    var n := |p| - 1;
    assert p[n - 1 + 1] in g[p[n - 1]];
    if n > 1 {
      var front := p[..n];
      PartOfPath(g, p, 0, n);
      AllInside(g, t, s, front);
    }
  }

  /** The tables hold the same dependencies, one by dependant and the other by dependee. */
  ghost predicate Opposite(g: Table, h: Table) {
    Closed(g) && h.Keys == g.Keys && forall t, u :: t in g && u in g ==> (u in g[t] <==> t in h[u])
  }

  lemma Backwards(g: Table, h: Table, t: Type, u: Type)
    requires Opposite(g, h) && DependsOn(h, u, t)
    ensures DependsOn(g, t, u)
  {
    var p :| IsPath(h, p) && |p| > 1 && p[0] == u && p[|p| - 1] == t;
    var q := seq(|p|, i requires 0 <= i < |p| => p[|p| - 1 - i]);
    forall i | 0 <= i < |q| - 1 ensures q[i + 1] in g[q[i]] {
      var j := |p| - 2 - i;
      assert p[j + 1] in h[p[j]] && q[i] == p[j + 1] && q[i + 1] == p[j];
    }
    assert IsPath(g, q) && q[0] == t && q[|q| - 1] == u;
  }

  /** The types seen so far: those that were looked at, and the queue. */
  ghost predicate SearchOk(g: Table, t: Type, found: seq<Type>, queue: seq<Type>, seen: set<Type>) {
    && NoRepeats(found + queue) && seen == ToSet(found + queue) && seen <= g.Keys
    && (forall u :: u in seen ==> DependsOn(g, t, u))
  }

  /** Appends the dependees of a type that were not seen before. */
  method EnqueueUnseen(g: Table, ghost t: Type, from: Type, ghost found: seq<Type>, queue0: seq<Type>, seen0: set<Type>)
    returns (queue: seq<Type>, seen: set<Type>)
    requires Closed(g) && SearchOk(g, t, found, queue0, seen0) && from in g && (from == t || DependsOn(g, t, from))
    ensures SearchOk(g, t, found, queue, seen) && seen == seen0 + g[from]
  {
    hide DependsOn, NoRepeats, ToSet;
    queue, seen := queue0, seen0;
    var todo := g[from];
    while todo != {}
      invariant todo <= g[from] && SearchOk(g, t, found, queue, seen) && seen == seen0 + (g[from] - todo)
      decreases |todo|
    {
      var u :| u in todo;
      todo := todo - {u};
      if u !in seen {
        if from == t {
          DependsDirectly(g, t, u);
        } else {
          DependsFurther(g, t, from, u);
        }
        OneSeen(g, t, found, queue, seen, u);
        queue := queue + [u];
        seen := seen + {u};
      }
    }
  }

  lemma OneSeen(g: Table, t: Type, found: seq<Type>, queue: seq<Type>, seen: set<Type>, u: Type)
    requires SearchOk(g, t, found, queue, seen) && u !in seen && u in g && DependsOn(g, t, u)
    ensures SearchOk(g, t, found, queue + [u], seen + {u})
  {
    var before, after := found + queue, found + (queue + [u]);
    assert after == before + [u];
    assert u !in before;
  }

  /** The types that t depends on, in breadth-first order. */
  method AllBehind(g: Table, t: Type) returns (found: seq<Type>)
    requires Closed(g) && t in g
    ensures NoRepeats(found) && forall u :: u in found <==> DependsOn(g, t, u)
  {
    hide DependsOn;
    found := [];
    assert ToSet([]) == {};
    var queue, seen := EnqueueUnseen(g, t, t, [], [], {});
    while queue != []
      invariant SearchOk(g, t, found, queue, seen) && g[t] <= seen && forall u :: u in found ==> g[u] <= seen
      decreases |g| - |found|
    {
      NotAllFound(g, t, found, queue, seen);
      var dependee := queue[0];
      assert found + [dependee] + queue[1..] == found + queue;
      found := found + [dependee];
      queue := queue[1..];
      assert dependee in found;
      queue, seen := EnqueueUnseen(g, t, dependee, found, queue, seen);
    }
    assert found + [] == found;
    forall u ensures u in found <==> DependsOn(g, t, u) {
      FoundAll(g, t, found, seen, u);
    }
  }

  lemma NotAllFound(g: Table, t: Type, found: seq<Type>, queue: seq<Type>, seen: set<Type>)
    requires SearchOk(g, t, found, queue, seen) && queue != []
    ensures |found| < |g| && queue[0] in seen && queue[0] in g
  {
    hide DependsOn;
    SizeOfSet(found + queue);
    SubsetSize(seen, g.Keys);
    assert |g.Keys| == |g|;
    assert queue[0] in found + queue;
  }

  lemma FoundAll(g: Table, t: Type, found: seq<Type>, seen: set<Type>, u: Type)
    requires t in g && SearchOk(g, t, found, [], seen) && g[t] <= seen && forall v :: v in found ==> v in g && g[v] <= seen
    ensures u in found <==> DependsOn(g, t, u)
  {
    assert found + [] == found;
    if u in found {
      assert u in seen;
    }
    if DependsOn(g, t, u) {
      var p :| IsPath(g, p) && |p| > 1 && p[0] == t && p[|p| - 1] == u;
      AllInside(g, t, seen, p);
    }
  }
}
