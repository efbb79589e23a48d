/** Directed graphs of functions and reachability in them. */
module FuncGraphs {

  /** A function of the program, named by its index. */
  datatype Func = Func(index: nat)

  /** For each function the set of functions it calls. */
  type Graph = map<Func, set<Func>>

  predicate WellFormed(g: Graph) {
    forall f :: f in g ==> g[f] <= g.Keys
  }

  predicate IsPath(g: Graph, p: seq<Func>) {
    |p| > 0 && (forall i :: 0 <= i < |p| ==> p[i] in g)
    && forall i :: 0 <= i < |p| - 1 ==> p[i + 1] in g[p[i]]
  }

  /** Zero or more calls lead from x to y. */
  ghost predicate Reach(g: Graph, x: Func, y: Func) {
    exists p :: IsPath(g, p) && p[0] == x && p[|p| - 1] == y
  }

  lemma ReachSelf(g: Graph, x: Func)
    requires x in g
    ensures Reach(g, x, x)
  {
    assert IsPath(g, [x]);
    assert [x][0] == x;
  }

  lemma ReachEdge(g: Graph, x: Func, y: Func)
    requires WellFormed(g) && x in g && y in g[x]
    ensures Reach(g, x, y)
  {
    assert IsPath(g, [x, y]);
    assert [x, y][0] == x && [x, y][1] == y;
  }

  lemma ReachTrans(g: Graph, x: Func, y: Func, z: Func)
    requires Reach(g, x, y) && Reach(g, y, z)
    ensures Reach(g, x, z)
  {
    var p :| IsPath(g, p) && p[0] == x && p[|p| - 1] == y;
    var q :| IsPath(g, q) && q[0] == y && q[|q| - 1] == z;
    var r := p + q[1..];
    forall i | 0 <= i < |r| - 1 ensures r[i + 1] in g[r[i]] {
      if i >= |p| - 1 {
        assert r[i] == q[i - |p| + 1] && r[i + 1] == q[i - |p| + 2];
      } else {
        assert p[i + 1] in g[p[i]];
      }
    }
    assert IsPath(g, r);
    assert r[|r| - 1] == z;
  }

  ghost predicate Closed(g: Graph, s: set<Func>) {
    forall x, y :: x in s && x in g && y in g[x] ==> y in s
  }

  /** A set without an edge out of it holds whatever is reached from it. */
  lemma ClosedReach(g: Graph, s: set<Func>, x: Func, y: Func)
    requires Closed(g, s) && x in s && Reach(g, x, y)
    ensures y in s
  {
    var p :| IsPath(g, p) && p[0] == x && p[|p| - 1] == y;
    ClosedPath(g, s, p);
  }

  lemma {:induction false} ClosedPath(g: Graph, s: set<Func>, p: seq<Func>)
    requires Closed(g, s) && IsPath(g, p) && p[0] in s
    ensures p[|p| - 1] in s
  {
    if |p| > 1 {
      var q := p[1..];
      assert p[1] in g[p[0]];
      forall i | 0 <= i < |q| - 1 ensures q[i + 1] in g[q[i]] {
        assert p[i + 2] in g[p[i + 1]];
      }
      ClosedPath(g, s, q);
    }
  }
}
