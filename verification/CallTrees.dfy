/** Runs of a program as trees of calls, and how often functions and operations occur in them. */
module CallTrees {
  import opened FuncGraphs
  import opened CallGraphs

  /** The largest count that is told apart; it stands for any number at or above it. */
  const MAX_CALL_COUNTS: nat := 500

  /** A missing entry of a table of counts is 0. */
  function Get<K>(m: map<K, nat>, k: K): nat { if k in m then m[k] else 0 }

  /** What one activation of a function does at most, as the analysis of its body finds it. */
  datatype Info = Info(callCount: nat, callees: map<Func, nat>, ops: map<Op, nat>)

  /** A count below the cap is a bound; the cap bounds nothing. */
  predicate Within(n: nat, count: nat) { count < MAX_CALL_COUNTS ==> n <= count }

  /** An activation of f, the operations it performs and the activations it starts. */
  datatype Tree = Call(f: Func, ops: seq<Op>, calls: seq<Tree>)

  function Occurs<T(==)>(s: seq<T>, x: T): nat {
    if s == [] then 0 else (if s[0] == x then 1 else 0) + Occurs(s[1..], x)
  }

  function FuncsOf(ts: seq<Tree>): seq<Func> {
    if ts == [] then [] else [ts[0].f] + FuncsOf(ts[1..])
  }

  /** Every activation stays within what the analysis found for its function. */
  ghost predicate Fits(infos: map<Func, Info>, t: Tree)
    decreases t, 1
  {
    && t.f in infos
    && (forall op :: Within(Occurs(t.ops, op), Get(infos[t.f].ops, op)))
    && (forall h :: Within(Occurs(FuncsOf(t.calls), h), Get(infos[t.f].callees, h)))
    && AllFit(infos, t.calls)
  }

  ghost predicate AllFit(infos: map<Func, Info>, ts: seq<Tree>)
    decreases ts, 0
  {
    ts == [] || (Fits(infos, ts[0]) && AllFit(infos, ts[1..]))
  }

  /** Every activation does exactly what the analysis found for its function. */
  ghost predicate Full(infos: map<Func, Info>, t: Tree)
    decreases t, 1
  {
    && t.f in infos
    && (forall op :: Occurs(t.ops, op) == Get(infos[t.f].ops, op))
    && (forall h :: Occurs(FuncsOf(t.calls), h) == Get(infos[t.f].callees, h))
    && AllFull(infos, t.calls)
  }

  ghost predicate AllFull(infos: map<Func, Info>, ts: seq<Tree>)
    decreases ts, 0
  {
    ts == [] || (Full(infos, ts[0]) && AllFull(infos, ts[1..]))
  }

  lemma {:induction false} FullFits(infos: map<Func, Info>, t: Tree)
    requires Full(infos, t)
    ensures Fits(infos, t)
    decreases t, 1
  {
    AllFullFit(infos, t.calls);
  }

  lemma {:induction false} AllFullFit(infos: map<Func, Info>, ts: seq<Tree>)
    requires AllFull(infos, ts)
    ensures AllFit(infos, ts)
    decreases ts, 0
  {
    if ts != [] {
      FullFits(infos, ts[0]);
      AllFullFit(infos, ts[1..]);
    }
  }

  /** How often f is activated. */
  function Acts(t: Tree, f: Func): nat
    decreases t, 1
  {
    (if t.f == f then 1 else 0) + ActsAll(t.calls, f)
  }

  function ActsAll(ts: seq<Tree>, f: Func): nat
    decreases ts, 0
  {
    if ts == [] then 0 else Acts(ts[0], f) + ActsAll(ts[1..], f)
  }

  /** How often f is activated by a function of ps. */
  function Under(t: Tree, ps: set<Func>, f: Func): nat
    decreases t, 1
  {
    (if t.f in ps then Occurs(FuncsOf(t.calls), f) else 0) + UnderAll(t.calls, ps, f)
  }

  function UnderAll(ts: seq<Tree>, ps: set<Func>, f: Func): nat
    decreases ts, 0
  {
    if ts == [] then 0 else Under(ts[0], ps, f) + UnderAll(ts[1..], ps, f)
  }

  /** How often an operation is performed by functions of ps. */
  function OpsBy(t: Tree, ps: set<Func>, op: Op): nat
    decreases t, 1
  {
    (if t.f in ps then Occurs(t.ops, op) else 0) + OpsByAll(t.calls, ps, op)
  }

  function OpsByAll(ts: seq<Tree>, ps: set<Func>, op: Op): nat
    decreases ts, 0
  {
    if ts == [] then 0 else OpsBy(ts[0], ps, op) + OpsByAll(ts[1..], ps, op)
  }

  lemma Distribute(a: nat, b: nat, k: nat)
    ensures (a + b) * k == a * k + b * k
  {
  }

  // ---------- Activations are counted at the activating function ----------

  lemma {:induction false} ActsByCaller(infos: map<Func, Info>, t: Tree, ps: set<Func>, f: Func)
    requires Fits(infos, t) && forall g :: g in infos && g !in ps ==> Get(infos[g].callees, f) == 0
    ensures Acts(t, f) == (if t.f == f then 1 else 0) + Under(t, ps, f)
    decreases t, 1
  {
    ActsByCallerAll(infos, t.calls, ps, f);
    assert t.f !in ps ==> Within(Occurs(FuncsOf(t.calls), f), Get(infos[t.f].callees, f));
  }

  lemma {:induction false} ActsByCallerAll(infos: map<Func, Info>, ts: seq<Tree>, ps: set<Func>, f: Func)
    requires AllFit(infos, ts) && forall g :: g in infos && g !in ps ==> Get(infos[g].callees, f) == 0
    ensures ActsAll(ts, f) == Occurs(FuncsOf(ts), f) + UnderAll(ts, ps, f)
    decreases ts, 0
  {
    if ts != [] {
      ActsByCaller(infos, ts[0], ps, f);
      ActsByCallerAll(infos, ts[1..], ps, f);
      assert FuncsOf(ts)[1..] == FuncsOf(ts[1..]);
    }
  }

  lemma {:induction false} UnderMore(t: Tree, ps: set<Func>, g: Func, f: Func)
    requires g !in ps
    ensures Under(t, ps + {g}, f) == Under(t, ps, f) + Under(t, {g}, f)
    decreases t, 1
  {
    UnderMoreAll(t.calls, ps, g, f);
  }

  lemma {:induction false} UnderMoreAll(ts: seq<Tree>, ps: set<Func>, g: Func, f: Func)
    requires g !in ps
    ensures UnderAll(ts, ps + {g}, f) == UnderAll(ts, ps, f) + UnderAll(ts, {g}, f)
    decreases ts, 0
  {
    if ts != [] {
      UnderMore(ts[0], ps, g, f);
      UnderMoreAll(ts[1..], ps, g, f);
    }
  }

  /** Each activation of g activates f at most as often as the analysis found. */
  lemma {:induction false} UnderOne(infos: map<Func, Info>, t: Tree, g: Func, f: Func)
    requires Fits(infos, t) && g in infos
    ensures Acts(t, g) == 0 ==> Under(t, {g}, f) == 0
    ensures var k := Get(infos[g].callees, f); k < MAX_CALL_COUNTS ==> Under(t, {g}, f) <= Acts(t, g) * k
    decreases t, 1
  {
    UnderOneAll(infos, t.calls, g, f);
    if t.f == g {
      var k := Get(infos[g].callees, f);
      assert Within(Occurs(FuncsOf(t.calls), f), k);
      Distribute(1, ActsAll(t.calls, g), k);
    }
  }

  lemma {:induction false} UnderOneAll(infos: map<Func, Info>, ts: seq<Tree>, g: Func, f: Func)
    requires AllFit(infos, ts) && g in infos
    ensures ActsAll(ts, g) == 0 ==> UnderAll(ts, {g}, f) == 0
    ensures var k := Get(infos[g].callees, f); k < MAX_CALL_COUNTS ==> UnderAll(ts, {g}, f) <= ActsAll(ts, g) * k
    decreases ts, 0
  {
    if ts != [] {
      UnderOne(infos, ts[0], g, f);
      UnderOneAll(infos, ts[1..], g, f);
      var k := Get(infos[g].callees, f);
      Distribute(Acts(ts[0], g), ActsAll(ts[1..], g), k);
    }
  }

  // ---------- Operations are counted at the performing function ----------

  lemma {:induction false} OpsMore(t: Tree, ps: set<Func>, g: Func, op: Op)
    requires g !in ps
    ensures OpsBy(t, ps + {g}, op) == OpsBy(t, ps, op) + OpsBy(t, {g}, op)
    decreases t, 1
  {
    OpsMoreAll(t.calls, ps, g, op);
  }

  lemma {:induction false} OpsMoreAll(ts: seq<Tree>, ps: set<Func>, g: Func, op: Op)
    requires g !in ps
    ensures OpsByAll(ts, ps + {g}, op) == OpsByAll(ts, ps, op) + OpsByAll(ts, {g}, op)
    decreases ts, 0
  {
    if ts != [] {
      OpsMore(ts[0], ps, g, op);
      OpsMoreAll(ts[1..], ps, g, op);
    }
  }

  lemma {:induction false} OpsOne(infos: map<Func, Info>, t: Tree, g: Func, op: Op)
    requires Fits(infos, t) && g in infos
    ensures Acts(t, g) == 0 ==> OpsBy(t, {g}, op) == 0
    ensures var k := Get(infos[g].ops, op); k < MAX_CALL_COUNTS ==> OpsBy(t, {g}, op) <= Acts(t, g) * k
    decreases t, 1
  {
    OpsOneAll(infos, t.calls, g, op);
    if t.f == g {
      var k := Get(infos[g].ops, op);
      assert Within(Occurs(t.ops, op), k);
      Distribute(1, ActsAll(t.calls, g), k);
    }
  }

  lemma {:induction false} OpsOneAll(infos: map<Func, Info>, ts: seq<Tree>, g: Func, op: Op)
    requires AllFit(infos, ts) && g in infos
    ensures ActsAll(ts, g) == 0 ==> OpsByAll(ts, {g}, op) == 0
    ensures var k := Get(infos[g].ops, op); k < MAX_CALL_COUNTS ==> OpsByAll(ts, {g}, op) <= ActsAll(ts, g) * k
    decreases ts, 0
  {
    if ts != [] {
      OpsOne(infos, ts[0], g, op);
      OpsOneAll(infos, ts[1..], g, op);
      var k := Get(infos[g].ops, op);
      Distribute(Acts(ts[0], g), ActsAll(ts[1..], g), k);
    }
  }

  // ---------- Runs that do everything the analysis allows ----------

  lemma {:induction false} FullUnder(infos: map<Func, Info>, t: Tree, g: Func, f: Func)
    requires Full(infos, t) && g in infos
    ensures Under(t, {g}, f) == Acts(t, g) * Get(infos[g].callees, f)
    decreases t, 1
  {
    FullUnderAll(infos, t.calls, g, f);
    if t.f == g {
      var k := Get(infos[g].callees, f);
      Distribute(1, ActsAll(t.calls, g), k);
    }
  }

  lemma {:induction false} FullUnderAll(infos: map<Func, Info>, ts: seq<Tree>, g: Func, f: Func)
    requires AllFull(infos, ts) && g in infos
    ensures UnderAll(ts, {g}, f) == ActsAll(ts, g) * Get(infos[g].callees, f)
    decreases ts, 0
  {
    if ts != [] {
      FullUnder(infos, ts[0], g, f);
      FullUnderAll(infos, ts[1..], g, f);
      var k := Get(infos[g].callees, f);
      Distribute(Acts(ts[0], g), ActsAll(ts[1..], g), k);
    }
  }

  lemma {:induction false} FullOps(infos: map<Func, Info>, t: Tree, g: Func, op: Op)
    requires Full(infos, t) && g in infos
    ensures OpsBy(t, {g}, op) == Acts(t, g) * Get(infos[g].ops, op)
    decreases t, 1
  {
    FullOpsAll(infos, t.calls, g, op);
    if t.f == g {
      var k := Get(infos[g].ops, op);
      Distribute(1, ActsAll(t.calls, g), k);
    }
  }

  lemma {:induction false} FullOpsAll(infos: map<Func, Info>, ts: seq<Tree>, g: Func, op: Op)
    requires AllFull(infos, ts) && g in infos
    ensures OpsByAll(ts, {g}, op) == ActsAll(ts, g) * Get(infos[g].ops, op)
    decreases ts, 0
  {
    if ts != [] {
      FullOps(infos, ts[0], g, op);
      FullOpsAll(infos, ts[1..], g, op);
      var k := Get(infos[g].ops, op);
      Distribute(Acts(ts[0], g), ActsAll(ts[1..], g), k);
    }
  }
}
