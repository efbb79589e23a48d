/** The invariant of the depth-first search for strongly connected components, and why each step keeps it. */
module SccInvariant {
  import opened FuncGraphs

  /** The values of the search, as the proofs see them. The functions in gray are those whose calls the
      search is still going through. */
  datatype Snapshot = Snapshot(index: nat, indices: map<Func, nat>, stack: seq<Func>, gray: set<Func>,
                               count: nat, sccs: map<Func, nat>)

  ghost predicate Ordered(s: Snapshot) {
    && (forall x :: x in s.indices ==> s.indices[x] < s.index)
    && (forall i :: 0 <= i < |s.stack| ==> s.stack[i] in s.indices)
    && (forall i, j :: 0 <= i < j < |s.stack| ==> s.indices[s.stack[i]] < s.indices[s.stack[j]])
  }

  /** Visited functions are on the stack or have a component, never both. */
  ghost predicate Partition(g: Graph, s: Snapshot) {
    && s.indices.Keys <= g.Keys && s.gray <= s.indices.Keys
    && (forall x :: x in s.indices <==> x in s.stack || x in s.sccs)
    && (forall x :: x in s.stack ==> x !in s.sccs)
    && (forall x :: x in s.gray ==> x in s.stack)
  }

  /** All calls of a function that is done lead to visited functions. */
  ghost predicate NoneSkipped(g: Graph, s: Snapshot) {
    forall x, y :: x in s.indices && x !in s.gray && x in g && y in g[x] ==> y in s.indices
  }

  /** Later functions on the stack are reached from earlier ones. */
  ghost predicate StackReaches(g: Graph, s: Snapshot) {
    forall i, j :: 0 <= i <= j < |s.stack| ==> Reach(g, s.stack[i], s.stack[j])
  }

  ghost predicate Returns(g: Graph, s: Snapshot, y: Func, x: Func)
    requires y in s.indices
  {
    x in s.gray && x in s.indices && s.indices[x] <= s.indices[y] && Reach(g, y, x)
  }

  /** Every function on the stack reaches an earlier one that is still being worked on. */
  ghost predicate ReachGray(g: Graph, s: Snapshot) {
    forall y :: y in s.stack && y in s.indices ==> exists x :: Returns(g, s, y, x)
  }

  /** Finished components are closed under calls, numbered from 1 and complete; calls do not lead from a
      lower to a higher number. */
  ghost predicate Components(g: Graph, s: Snapshot) {
    && (forall x :: x in s.sccs ==> 1 <= s.sccs[x] < s.count)
    && NumbersDescend(g, s) && NumbersMeanMutual(g, s)
  }

  ghost predicate NumbersDescend(g: Graph, s: Snapshot) {
    forall x, y :: x in s.sccs && x in g && y in g[x] ==> y in s.sccs && s.sccs[y] <= s.sccs[x]
  }

  ghost predicate NumbersMeanMutual(g: Graph, s: Snapshot) {
    forall x, y :: x in s.sccs && y in s.sccs ==> (s.sccs[x] == s.sccs[y] <==> Reach(g, x, y) && Reach(g, y, x))
  }

  ghost predicate Inv(g: Graph, s: Snapshot) {
    && WellFormed(g) && s.count >= 1 && Ordered(s) && Partition(g, s) && NoneSkipped(g, s)
    && StackReaches(g, s) && ReachGray(g, s) && Components(g, s)
  }

  /** All functions being worked on reach v. */
  ghost predicate GrayReach(g: Graph, gray: set<Func>, v: Func) {
    forall x :: x in gray ==> Reach(g, x, v)
  }

  function Enter(s: Snapshot, v: Func): Snapshot {
    s.(index := s.index + 1, indices := s.indices[v := s.index], stack := s.stack + [v], gray := s.gray + {v})
  }

  lemma StackReachesTop(g: Graph, s: Snapshot, v: Func, y: Func)
    requires ReachGray(g, s) && GrayReach(g, s.gray, v) && y in s.stack && y in s.indices
    ensures Reach(g, y, v)
  {
    var x :| Returns(g, s, y, x);
    hide Reach;
    ReachTrans(g, y, x, v);
  }

  lemma EnterOrdered(s: Snapshot, v: Func)
    requires Ordered(s) && v !in s.indices
    ensures Ordered(Enter(s, v))
  {
    var t := Enter(s, v);
    assert forall i :: 0 <= i < |s.stack| ==> t.stack[i] == s.stack[i] && s.stack[i] != v;
  }

  lemma EnterPartition(g: Graph, s: Snapshot, v: Func)
    requires Partition(g, s) && v !in s.indices && v in g
    ensures Partition(g, Enter(s, v))
  {
  }

  lemma EnterNoneSkipped(g: Graph, s: Snapshot, v: Func)
    requires NoneSkipped(g, s)
    ensures NoneSkipped(g, Enter(s, v))
  {
  }

  lemma EnterReaches(g: Graph, s: Snapshot, v: Func)
    requires StackReaches(g, s) && ReachGray(g, s) && Ordered(s) && v in g && GrayReach(g, s.gray, v)
    ensures StackReaches(g, Enter(s, v))
  {
    hide ReachGray, GrayReach, Reach;
    var t := Enter(s, v);
    ReachSelf(g, v);
    forall i, j | 0 <= i <= j < |t.stack| ensures Reach(g, t.stack[i], t.stack[j]) {
      if i < |s.stack| && j == |s.stack| {
        StackReachesTop(g, s, v, s.stack[i]);
      }
    }
  }

  lemma EnterReachGray(g: Graph, s: Snapshot, v: Func)
    requires ReachGray(g, s) && Ordered(s) && v in g && v !in s.indices
    ensures ReachGray(g, Enter(s, v))
  {
    hide Reach;
    var t := Enter(s, v);
    ReachSelf(g, v);
    assert forall y :: y in t.stack ==> y in s.stack || y == v;
    forall y | y in t.stack && y in t.indices ensures exists x :: Returns(g, t, y, x) {
      if y == v {
        assert Returns(g, t, v, v);
      } else {
        var x :| Returns(g, s, y, x);
        assert Returns(g, t, y, x);
      }
    }
  }

  /** Pushing a new function keeps the invariant. */
  lemma EnterKeepsInv(g: Graph, s: Snapshot, v: Func)
    requires Inv(g, s) && v in g && v !in s.indices && GrayReach(g, s.gray, v)
    ensures Inv(g, Enter(s, v))
  {
    hide Reach, StackReaches, ReachGray, GrayReach, Ordered, Partition, NoneSkipped;
    EnterOrdered(s, v);
    EnterPartition(g, s, v);
    EnterNoneSkipped(g, s, v);
    EnterReaches(g, s, v);
    EnterReachGray(g, s, v);
  }

  // ---------- The calls of one function ----------

  /** Some function on the stack that v reaches has this number. */
  ghost predicate Witness(g: Graph, s: Snapshot, v: Func, low: nat) {
    exists y :: y in s.stack && y in s.indices && s.indices[y] == low && Reach(g, v, y)
  }

  /** Every call from x into the first a functions of the stack goes to one numbered low or higher. */
  ghost predicate Bounds(g: Graph, s: Snapshot, calls: set<Func>, a: nat, low: nat)
    requires a <= |s.stack|
  {
    forall y :: y in calls && y in s.stack[..a] && y in s.indices ==> low <= s.indices[y]
  }

  ghost predicate BoundsAbove(g: Graph, s: Snapshot, a: nat, b: nat, low: nat)
    requires a <= |s.stack| && b <= |s.stack|
  {
    forall x :: x in s.stack[b..] && x in g ==> Bounds(g, s, g[x], a, low)
  }

  /** The search has only moved on: what it has found stays. */
  ghost predicate Extends(s0: Snapshot, s: Snapshot) {
    && s0.index <= s.index && s0.count <= s.count
    && (forall x :: x in s0.indices ==> x in s.indices && s.indices[x] == s0.indices[x])
    && (forall x :: x in s0.sccs ==> x in s.sccs && s.sccs[x] == s0.sccs[x])
    && (forall x :: x in s.indices && x !in s0.indices ==> s0.index <= s.indices[x])
    && s0.stack <= s.stack
  }

  /** Between two calls of v: v is on the stack above what was there, and low is the smallest number seen
      from v and from the functions above it. */
  ghost predicate Working(g: Graph, s0: Snapshot, s: Snapshot, v: Func, done: set<Func>, low: nat) {
    && v in g && v in s.indices && s.indices[v] == s0.index && low <= s.indices[v]
    && |s.stack| > |s0.stack| && s.stack[|s0.stack|] == v
    && s.gray == s0.gray + {v} && v !in s0.gray && done <= s.indices.Keys
    && BoundsAbove(g, s, |s0.stack|, |s0.stack| + 1, low) && Bounds(g, s, done, |s0.stack|, low)
    && Witness(g, s, v, low) && GrayReach(g, s.gray, v) && GrayOnStack(s0) && Extends(s0, s) && Inv(g, s)
  }

  ghost predicate GrayOnStack(s: Snapshot) { forall x :: x in s.gray ==> x in s.stack }

  /** After the search of v: low is the smallest number seen from what it left on the stack. */
  ghost predicate Searched(g: Graph, s0: Snapshot, s: Snapshot, v: Func, low: nat) {
    && v in g && v in s.indices && s.indices[v] == s0.index && low <= s.indices[v]
    && s.gray == s0.gray && |s0.stack| <= |s.stack|
    && (v !in s.stack ==> low == s.indices[v]) && (v in s.stack ==> Witness(g, s, v, low))
    && BoundsAbove(g, s, |s0.stack|, |s0.stack|, low) && Extends(s0, s) && Inv(g, s)
  }

  lemma EnterWorks(g: Graph, s: Snapshot, v: Func)
    requires Inv(g, s) && v in g && v !in s.indices && GrayReach(g, s.gray, v)
    ensures Working(g, s, Enter(s, v), v, {}, s.index)
  {
    hide Inv, Reach, GrayReach, Witness, BoundsAbove, Bounds, Extends, GrayOnStack;
    EnterKeepsInv(g, s, v);
    InvFacts(g, s);
    EnterWorksGray(g, s, v);
    EnterWorksBounds(g, s, v);
  }

  lemma EnterWorksBounds(g: Graph, s: Snapshot, v: Func)
    requires v !in s.indices && forall x :: x in s.indices ==> s.indices[x] < s.index
    ensures Extends(s, Enter(s, v))
    ensures BoundsAbove(g, Enter(s, v), |s.stack|, |s.stack| + 1, s.index)
    ensures Bounds(g, Enter(s, v), {}, |s.stack|, s.index)
  {
    assert Enter(s, v).stack[|s.stack| + 1..] == [];
  }

  lemma EnterWorksGray(g: Graph, s: Snapshot, v: Func)
    requires v in g && GrayReach(g, s.gray, v)
    ensures GrayReach(g, s.gray + {v}, v) && Witness(g, Enter(s, v), v, s.index)
  {
    hide Reach;
    ReachSelf(g, v);
    assert v in Enter(s, v).stack;
  }

  /** A call of a function that was visited before. */
  lemma VisitedCall(g: Graph, s0: Snapshot, s: Snapshot, v: Func, done: set<Func>, low: nat, w: Func, low1: nat)
    requires Working(g, s0, s, v, done, low) && w in g[v] && w in s.indices
    requires low1 == if w in s.stack && s.indices[w] < low then s.indices[w] else low
    ensures Working(g, s0, s, v, done + {w}, low1)
  {
    hide Inv, Reach, GrayReach, Extends, BoundsAbove, Bounds;
    VisitedWitness(g, s, v, low, w, low1);
    VisitedBounds(g, s, |s0.stack|, done, low, w, low1);
  }

  lemma VisitedWitness(g: Graph, s: Snapshot, v: Func, low: nat, w: Func, low1: nat)
    requires Inv(g, s) && v in g && Witness(g, s, v, low) && w in g[v] && w in s.indices
    requires low1 == if w in s.stack && s.indices[w] < low then s.indices[w] else low
    ensures Witness(g, s, v, low1)
  {
    hide Reach, StackReaches, ReachGray, GrayReach, Ordered, NoneSkipped, Components, Partition;
    ReachEdge(g, v, w);
  }

  lemma VisitedBounds(g: Graph, s: Snapshot, a: nat, done: set<Func>, low: nat, w: Func, low1: nat)
    requires a < |s.stack| && BoundsAbove(g, s, a, a + 1, low) && Bounds(g, s, done, a, low) && w in s.indices
    requires low1 == if w in s.stack && s.indices[w] < low then s.indices[w] else low
    ensures BoundsAbove(g, s, a, a + 1, low1) && Bounds(g, s, done + {w}, a, low1)
  {
    forall x | x in s.stack[a + 1..] && x in g ensures Bounds(g, s, g[x], a, low1) {
      assert Bounds(g, s, g[x], a, low);
    }
    assert w in s.stack[..a] ==> w in s.stack;
  }

  lemma CallReach(g: Graph, s0: Snapshot, s: Snapshot, v: Func, done: set<Func>, low: nat, w: Func)
    requires Working(g, s0, s, v, done, low) && w in g[v]
    ensures GrayReach(g, s.gray, w)
  {
    hide Reach, StackReaches, ReachGray, Ordered, NoneSkipped, Components, Partition, Extends, BoundsAbove, Bounds;
    ReachEdge(g, v, w);
    forall x | x in s.gray ensures Reach(g, x, w) {
      ReachTrans(g, x, v, w);
    }
  }

  /** A call of a new function, after its own search. */
  lemma NewCall(g: Graph, s0: Snapshot, s: Snapshot, s1: Snapshot, v: Func, done: set<Func>, low: nat, w: Func, low1: nat)
    requires Working(g, s0, s, v, done, low) && w in g[v] && w !in s.indices
    requires Searched(g, s, s1, w, low1)
    ensures Working(g, s0, s1, v, done + {w}, if low1 < low then low1 else low)
  {
    hide Inv, Reach, GrayReach, Witness, BoundsAbove, Bounds, GrayOnStack;
    InvFacts(g, s);
    NewCallWitness(g, s, s1, v, low, w, low1);
    NewCallBounds(g, s0, s, s1, v, done, low, w, low1);
    assert s1.stack[|s0.stack|] == s.stack[|s0.stack|];
  }

  lemma InvFacts(g: Graph, s: Snapshot)
    requires Inv(g, s)
    ensures WellFormed(g)
    ensures forall k :: 0 <= k < |s.stack| ==> s.stack[k] in s.indices
    ensures forall x :: x in s.indices ==> s.indices[x] < s.index
    ensures s.gray <= s.indices.Keys && GrayOnStack(s)
  {
  }

  lemma NewCallWitness(g: Graph, s: Snapshot, s1: Snapshot, v: Func, low: nat, w: Func, low1: nat)
    requires WellFormed(g) && v in g && Witness(g, s, v, low) && w in g[v] && w !in s.indices
    requires Extends(s, s1) && w in s1.indices && (w in s1.stack ==> Witness(g, s1, w, low1))
    requires w !in s1.stack ==> low1 == s1.indices[w]
    requires v in s.indices && low <= s.indices[v] < s.index
    ensures Witness(g, s1, v, if low1 < low then low1 else low)
  {
    hide Reach;
    ReachEdge(g, v, w);
    if low1 < low {
      var y :| y in s1.stack && y in s1.indices && s1.indices[y] == low1 && Reach(g, w, y);
      ReachTrans(g, v, w, y);
    } else {
      var y :| y in s.stack && y in s.indices && s.indices[y] == low && Reach(g, v, y);
      assert y in s1.stack && s1.indices[y] == low;
    }
  }

  lemma NewCallBounds(g: Graph, s0: Snapshot, s: Snapshot, s1: Snapshot, v: Func, done: set<Func>, low: nat, w: Func, low1: nat)
    requires |s0.stack| < |s.stack| && Extends(s0, s) && Extends(s, s1)
    requires forall k :: 0 <= k < |s.stack| ==> s.stack[k] in s.indices
    requires w !in s.indices && BoundsAbove(g, s, |s0.stack|, |s0.stack| + 1, low) && Bounds(g, s, done, |s0.stack|, low)
    requires BoundsAbove(g, s1, |s.stack|, |s.stack|, low1)
    ensures |s0.stack| < |s1.stack|
    ensures BoundsAbove(g, s1, |s0.stack|, |s0.stack| + 1, if low1 < low then low1 else low)
    ensures Bounds(g, s1, done + {w}, |s0.stack|, if low1 < low then low1 else low)
  {
    var a, low2 := |s0.stack|, if low1 < low then low1 else low;
    assert s1.stack[..a] == s.stack[..a];
    assert s1.stack[..|s.stack|] == s.stack;
    assert forall y :: y in s.stack[..a] ==> y in s.stack && y in s.indices;
    assert s1.stack[a + 1..] == s.stack[a + 1..] + s1.stack[|s.stack|..];
    forall x | x in s1.stack[a + 1..] && x in g ensures Bounds(g, s1, g[x], a, low2) {
      if x in s.stack[a + 1..] {
        assert Bounds(g, s, g[x], a, low);
      } else {
        assert Bounds(g, s1, g[x], |s.stack|, low1);
      }
    }
  }

  // ---------- Leaving a function ----------

  /** The functions from position a on form the next component. */
  function Pop(s: Snapshot, gray0: set<Func>, a: nat): Snapshot
    requires a <= |s.stack|
  {
    Snapshot(s.index, s.indices, s.stack[..a], gray0, s.count + 1,
             map x | x in s.sccs.Keys + (set y | y in s.stack[a..]) :: if x in s.sccs then s.sccs[x] else s.count)
  }

  /** What is lower on the stack has a smaller number. */
  lemma StackSplit(s: Snapshot, a: nat, x: Func, y: Func)
    requires Ordered(s) && a <= |s.stack| && x in s.stack[..a] && y in s.stack[a..]
    ensures x in s.indices && y in s.indices && s.indices[x] < s.indices[y]
  {
    var i :| 0 <= i < a && s.stack[i] == x;
    var j :| a <= j < |s.stack| && s.stack[j] == y;
    assert s.stack[i] in s.indices && s.stack[j] in s.indices;
  }

  lemma TopIsDone(g: Graph, s0: Snapshot, s: Snapshot, v: Func, done: set<Func>, low: nat, x: Func)
    requires Working(g, s0, s, v, done, low) && x in s.stack[|s0.stack| + 1..]
    ensures x in s.indices && x !in s.gray
  {
    hide Reach, StackReaches, ReachGray, GrayReach, Components, Witness, BoundsAbove, Bounds, Partition, NoneSkipped, Ordered;
    var a := |s0.stack|;
    assert v in s.stack[..a + 1] by { assert s.stack[..a + 1][a] == v; }
    StackSplit(s, a + 1, v, x);
    if x in s0.gray {
      assert x in s.stack[..a] by { assert s.stack[..a] == s0.stack; }
      assert s.stack[..a + 1] == s.stack[..a] + [v];
      StackSplit(s, a + 1, x, x);
    }
  }

  /** Where low is v's own number, calls from the functions at and above v lead to them and to finished
      components only. */
  lemma TopClosed(g: Graph, s0: Snapshot, s: Snapshot, v: Func, low: nat, x: Func, y: Func)
    requires v in g && v in s.indices && low == s.indices[v] && |s0.stack| < |s.stack| && Working(g, s0, s, v, g[v], low)
    requires x in s.stack[|s0.stack|..] && x in g && y in g[x]
    ensures y in s.stack[|s0.stack|..] || y in s.sccs
  {
    var a := |s0.stack|;
    hide Reach, StackReaches, ReachGray, GrayReach, Components, Witness, Extends, Ordered;
    assert s.stack[a..] == [v] + s.stack[a + 1..];
    if x != v {
      TopIsDone(g, s0, s, v, g[v], low, x);
      assert Bounds(g, s, g[x], a, low);
    }
    assert y in s.indices;
    if y in s.stack[..a] {
      assert v in s.stack[a..];
      StackSplit(s, a, y, v);
    }
    assert s.stack == s.stack[..a] + s.stack[a..];
  }

  // Leaving with a component.

  lemma PopOrdered(s: Snapshot, gray0: set<Func>, a: nat)
    requires Ordered(s) && a <= |s.stack|
    ensures Ordered(Pop(s, gray0, a))
  {
  }

  lemma Apart(s: Snapshot, a: nat)
    requires Ordered(s) && a <= |s.stack|
    ensures forall x :: x in s.stack[..a] ==> x !in s.stack[a..]
    ensures forall x :: x in s.stack <==> x in s.stack[..a] || x in s.stack[a..]
  {
    assert s.stack == s.stack[..a] + s.stack[a..];
    forall x | x in s.stack[..a] ensures x !in s.stack[a..] {
      if x in s.stack[a..] {
        StackSplit(s, a, x, x);
      }
    }
  }

  lemma PopPartition(g: Graph, s: Snapshot, gray0: set<Func>, a: nat)
    requires Partition(g, s) && Ordered(s) && a <= |s.stack|
    requires gray0 <= s.gray && forall x :: x in gray0 ==> x in s.stack[..a]
    ensures Partition(g, Pop(s, gray0, a))
  {
    Apart(s, a);
    hide Ordered;
  }

  lemma LeaveNoneSkipped(g: Graph, s: Snapshot, t: Snapshot, v: Func)
    requires NoneSkipped(g, s) && t.indices == s.indices && s.gray == t.gray + {v}
    requires v in g && g[v] <= s.indices.Keys
    ensures NoneSkipped(g, t)
  {
  }

  lemma PopStackReaches(g: Graph, s: Snapshot, gray0: set<Func>, a: nat)
    requires StackReaches(g, s) && a <= |s.stack|
    ensures StackReaches(g, Pop(s, gray0, a))
  {
    hide Reach;
  }

  lemma PopReachGray(g: Graph, s: Snapshot, gray0: set<Func>, a: nat, v: Func)
    requires ReachGray(g, s) && Ordered(s) && a < |s.stack| && s.stack[a] == v && s.gray == gray0 + {v}
    ensures ReachGray(g, Pop(s, gray0, a))
  {
    hide Reach;
    var t := Pop(s, gray0, a);
    forall y | y in t.stack && y in t.indices ensures exists x :: Returns(g, t, y, x) {
      assert y in s.stack;
      var x :| Returns(g, s, y, x);
      assert v in s.stack[a..];
      StackSplit(s, a, y, v);
      assert Returns(g, t, y, x);
    }
  }

  lemma TopIsComponent(g: Graph, s: Snapshot, a: nat, v: Func, x: Func)
    requires StackReaches(g, s) && ReachGray(g, s) && Ordered(s) && GrayReach(g, s.gray, v)
    requires a < |s.stack| && s.stack[a] == v && x in s.stack[a..]
    ensures Reach(g, v, x) && Reach(g, x, v)
  {
    hide Reach, GrayReach, ReachGray;
    var k :| a <= k < |s.stack| && s.stack[k] == x;
    assert s.stack[k] in s.indices;
    StackReachesTop(g, s, v, x);
  }

  lemma PopMutual(g: Graph, s: Snapshot, gray0: set<Func>, a: nat, v: Func, x: Func, y: Func)
    requires StackReaches(g, s) && ReachGray(g, s) && Ordered(s) && Partition(g, s) && Components(g, s)
    requires GrayReach(g, s.gray, v) && a < |s.stack| && s.stack[a] == v
    requires x in s.stack[a..] && (y in s.stack[a..] || y in s.sccs)
    ensures y in s.stack[a..] ==> Reach(g, x, y) && Reach(g, y, x)
    ensures y !in s.stack[a..] ==> !Reach(g, y, x)
  {
    hide Reach, GrayReach, ReachGray, StackReaches, Ordered;
    if y in s.stack[a..] {
      TopIsComponent(g, s, a, v, x);
      TopIsComponent(g, s, a, v, y);
      ReachTrans(g, x, v, y);
      ReachTrans(g, y, v, x);
    } else {
      assert x in s.stack;
      if Reach(g, y, x) {
        ClosedReach(g, s.sccs.Keys, y, x);
      }
    }
  }

  lemma PopClosed(g: Graph, s0: Snapshot, s: Snapshot, v: Func, low: nat, x: Func, y: Func)
    requires v in g && v in s.indices && low == s.indices[v] && |s0.stack| < |s.stack| && Working(g, s0, s, v, g[v], low)
    requires var t := Pop(s, s0.gray, |s0.stack|); x in t.sccs && x in g && y in g[x]
    ensures var t := Pop(s, s0.gray, |s0.stack|); y in t.sccs && t.sccs[y] <= t.sccs[x]
  {
    hide Reach, GrayReach, ReachGray, StackReaches, Ordered, NoneSkipped, Witness, BoundsAbove, Bounds, GrayOnStack, Extends;
    if x !in s.sccs {
      TopClosed(g, s0, s, v, low, x, y);
    }
  }

  lemma PopNumbers(g: Graph, s: Snapshot, gray0: set<Func>, a: nat)
    requires Components(g, s) && a <= |s.stack| && s.count >= 1
    ensures var t := Pop(s, gray0, a); forall x :: x in t.sccs ==> 1 <= t.sccs[x] < t.count
  {
    hide Reach;
  }

  lemma PopComponents(g: Graph, s0: Snapshot, s: Snapshot, v: Func, low: nat)
    requires v in g && v in s.indices && low == s.indices[v] && |s0.stack| < |s.stack| && Working(g, s0, s, v, g[v], low)
    ensures Components(g, Pop(s, s0.gray, |s0.stack|))
  {
    hide Pop, Reach, GrayReach, ReachGray, StackReaches, Ordered, NoneSkipped, Witness, BoundsAbove, Bounds, GrayOnStack,
      Extends, Partition;
    var a := |s0.stack|;
    PopNumbers(g, s, s0.gray, a);
    PopAllClosed(g, s0, s, v, low);
    PopAllSame(g, s, s0.gray, a, v);
  }

  lemma PopAllClosed(g: Graph, s0: Snapshot, s: Snapshot, v: Func, low: nat)
    requires v in g && v in s.indices && low == s.indices[v] && |s0.stack| < |s.stack| && Working(g, s0, s, v, g[v], low)
    ensures NumbersDescend(g, Pop(s, s0.gray, |s0.stack|))
  {
    hide Pop, Inv, Reach, GrayReach, Witness, BoundsAbove, Bounds, GrayOnStack, Extends;
    var t := Pop(s, s0.gray, |s0.stack|);
    forall x, y | x in t.sccs && x in g && y in g[x] ensures y in t.sccs && t.sccs[y] <= t.sccs[x] {
      PopClosed(g, s0, s, v, low, x, y);
    }
  }

  lemma PopAllSame(g: Graph, s: Snapshot, gray0: set<Func>, a: nat, v: Func)
    requires StackReaches(g, s) && ReachGray(g, s) && Ordered(s) && Partition(g, s) && Components(g, s)
    requires GrayReach(g, s.gray, v) && a < |s.stack| && s.stack[a] == v
    ensures NumbersMeanMutual(g, Pop(s, gray0, a))
  {
    hide Pop, Reach, GrayReach, ReachGray, StackReaches, Ordered, Partition, Components;
    var t := Pop(s, gray0, a);
    forall x, y | x in t.sccs && y in t.sccs
      ensures t.sccs[x] == t.sccs[y] <==> Reach(g, x, y) && Reach(g, y, x)
    {
      PopSame(g, s, gray0, a, v, x, y);
    }
  }

  lemma PopSame(g: Graph, s: Snapshot, gray0: set<Func>, a: nat, v: Func, x: Func, y: Func)
    requires StackReaches(g, s) && ReachGray(g, s) && Ordered(s) && Partition(g, s) && Components(g, s)
    requires GrayReach(g, s.gray, v) && a < |s.stack| && s.stack[a] == v
    requires var t := Pop(s, gray0, a); x in t.sccs && y in t.sccs
    ensures var t := Pop(s, gray0, a); t.sccs[x] == t.sccs[y] <==> Reach(g, x, y) && Reach(g, y, x)
  {
    hide Reach, GrayReach, ReachGray, StackReaches, Ordered;
    assert forall x :: x in s.stack[a..] ==> x in s.stack && x !in s.sccs;
    if x !in s.sccs {
      PopMutual(g, s, gray0, a, v, x, y);
    } else if y !in s.sccs {
      PopMutual(g, s, gray0, a, v, y, x);
    }
  }

  lemma PopFields(s: Snapshot, gray0: set<Func>, a: nat)
    requires a <= |s.stack|
    ensures var t := Pop(s, gray0, a);
            && t.index == s.index && t.indices == s.indices && t.stack == s.stack[..a] && t.gray == gray0
            && t.count == s.count + 1 && (forall x :: x in s.sccs ==> x in t.sccs && t.sccs[x] == s.sccs[x])
  {
  }

  lemma WorkingFacts(g: Graph, s0: Snapshot, s: Snapshot, v: Func, done: set<Func>, low: nat)
    requires Working(g, s0, s, v, done, low)
    ensures |s0.stack| < |s.stack| && s.stack[..|s0.stack|] == s0.stack && s.stack[|s0.stack|] == v
    ensures s0.gray <= s.gray && forall x :: x in s0.gray ==> x in s.stack[..|s0.stack|]
  {
    hide Inv, Reach, GrayReach, Witness, BoundsAbove, Bounds;
  }

  lemma PopInv(g: Graph, s0: Snapshot, s: Snapshot, v: Func, low: nat)
    requires v in g && v in s.indices && low == s.indices[v] && |s0.stack| < |s.stack| && Working(g, s0, s, v, g[v], low)
    ensures Inv(g, Pop(s, s0.gray, |s0.stack|))
  {
    hide Pop, Reach, GrayReach, ReachGray, StackReaches, Ordered, NoneSkipped, Components, Partition, Witness, BoundsAbove,
      Bounds, GrayOnStack, Extends;
    var a := |s0.stack|;
    var t := Pop(s, s0.gray, a);
    WorkingFacts(g, s0, s, v, g[v], low);
    PopFields(s, s0.gray, a);
    PopOrdered(s, s0.gray, a);
    PopPartition(g, s, s0.gray, a);
    LeaveNoneSkipped(g, s, t, v);
    PopStackReaches(g, s, s0.gray, a);
    PopReachGray(g, s, s0.gray, a, v);
    PopComponents(g, s0, s, v, low);
  }

  /** v is the root of its component: it and what is above it are numbered. */
  lemma LeaveWithComponent(g: Graph, s0: Snapshot, s: Snapshot, v: Func, low: nat)
    requires v in g && v in s.indices && low == s.indices[v] && |s0.stack| < |s.stack| && Working(g, s0, s, v, g[v], low)
    ensures Searched(g, s0, Pop(s, s0.gray, |s0.stack|), v, low)
  {
    hide Pop, Inv, Reach, GrayReach, Witness, BoundsAbove, Bounds, Ordered, GrayOnStack;
    var a := |s0.stack|;
    var t := Pop(s, s0.gray, a);
    WorkingFacts(g, s0, s, v, g[v], low);
    PopInv(g, s0, s, v, low);
    InvOrdered(g, s);
    RootIsPopped(s, a, v);
    PopFields(s, s0.gray, a);
    EmptyTop(g, t, a, low);
  }

  lemma InvOrdered(g: Graph, s: Snapshot)
    requires Inv(g, s)
    ensures Ordered(s)
  {
  }

  lemma RootIsPopped(s: Snapshot, a: nat, v: Func)
    requires Ordered(s) && a < |s.stack| && s.stack[a] == v
    ensures v !in s.stack[..a]
  {
    Apart(s, a);
    assert v in s.stack[a..];
  }

  lemma EmptyTop(g: Graph, t: Snapshot, a: nat, low: nat)
    requires |t.stack| == a
    ensures BoundsAbove(g, t, a, a, low)
  {
  }

  // Leaving for an earlier function.

  lemma StayReachGray(g: Graph, s: Snapshot, gray0: set<Func>, v: Func, low: nat)
    requires ReachGray(g, s) && s.gray == gray0 + {v} && v in s.indices && low < s.indices[v] && Witness(g, s, v, low)
    ensures ReachGray(g, s.(gray := gray0))
  {
    hide Reach;
    var t := s.(gray := gray0);
    var z :| z in s.stack && z in s.indices && s.indices[z] == low && Reach(g, v, z);
    var x2 :| Returns(g, s, z, x2);
    forall y | y in t.stack && y in t.indices ensures exists x :: Returns(g, t, y, x) {
      var x :| Returns(g, s, y, x);
      if x == v {
        ReachTrans(g, y, v, z);
        ReachTrans(g, y, z, x2);
        assert Returns(g, t, y, x2);
      } else {
        assert Returns(g, t, y, x);
      }
    }
  }

  lemma StayBounds(g: Graph, s: Snapshot, gray0: set<Func>, a: nat, v: Func, low: nat)
    requires a < |s.stack| && s.stack[a] == v && v in g
    requires BoundsAbove(g, s, a, a + 1, low) && Bounds(g, s, g[v], a, low)
    ensures BoundsAbove(g, s.(gray := gray0), a, a, low)
  {
    assert s.stack[a..] == [v] + s.stack[a + 1..];
    forall x | x in s.stack[a..] && x in g ensures Bounds(g, s.(gray := gray0), g[x], a, low) {
      assert x != v ==> Bounds(g, s, g[x], a, low);
    }
  }

  /** v belongs to the component of an earlier function and stays on the stack. */
  lemma LeaveOnStack(g: Graph, s0: Snapshot, s: Snapshot, v: Func, low: nat)
    requires v in g && v in s.indices && low < s.indices[v] && Working(g, s0, s, v, g[v], low)
    ensures Searched(g, s0, s.(gray := s0.gray), v, low)
  {
    hide Reach, GrayReach, ReachGray, StackReaches, NoneSkipped, BoundsAbove, Bounds;
    var t := s.(gray := s0.gray);
    StayReachGray(g, s, s0.gray, v, low);
    StayBounds(g, s, s0.gray, |s0.stack|, v, low);
    LeaveNoneSkipped(g, s, t, v);
    StayReaches(g, s, s0.gray);
  }

  lemma StayReaches(g: Graph, s: Snapshot, gray0: set<Func>)
    requires StackReaches(g, s)
    ensures StackReaches(g, s.(gray := gray0))
  {
    hide Reach;
  }
}
