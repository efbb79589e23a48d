/** The costs of bodies are no more than they have to be: some run reaches them. */
module CostsReached {
  import opened FuncGraphs
  import opened CallGraphs
  import opened IrBodies
  import opened CallTrees
  import opened CallCounts
  import opened BodyCounts
  import opened CallsInfos
  import opened ProgramCounts

  // ---------- Bodies of which every part can be run ----------

  /** Nothing leaves the statement early, each case can be chosen, and each loop can make all its passes and end. */
  predicate StraightStmt(s: Stmt)
    decreases s
  {
    match s
    case Basic(_) => true
    case If(a, b) => StraightBody(a) && StraightBody(b)
    case Switch(_, cases) => StraightCases(cases)
    case Select(_, _, _, comms) => comms != [] && StraightComms(comms)
    case For(_, cond, body, infinite, min, max) =>
      && StraightBody(cond) && StraightBody(body) && !infinite
      && (min.Some? ==> min.value <= if max.Some? then max.value else 0)
    case Range(_, _, _, _, _, _, body) => StraightBody(body)
    case _ => false
  }

  predicate StraightBody(b: seq<Stmt>)
    decreases b
  {
    forall i :: 0 <= i < |b| ==> StraightStmt(b[i])
  }

  predicate StraightTests(tests: seq<Test>)
    decreases tests
  {
    forall i :: 0 <= i < |tests| ==> StraightBody(tests[i].body)
  }

  predicate StraightCases(cases: seq<Case>)
    decreases cases
  {
    && (forall i :: 0 <= i < |cases| ==> StraightTests(cases[i].conds) && StraightBody(cases[i].body))
    && (forall i :: 0 <= i < |cases| && !cases[i].isDefault ==> cases[i].conds != [])
    && (cases != [] ==> !cases[|cases| - 1].hasFallthrough)
  }

  predicate StraightComms(comms: seq<Comm>)
    decreases comms
  {
    forall i :: 0 <= i < |comms| ==> StraightBody(comms[i].body)
  }

  predicate StraightConds(conds: seq<Cond>) {
    forall k :: 0 <= k < |conds| ==> StraightBody(conds[k].body)
  }

  lemma {:induction false} FlatStraight(cases: seq<Case>, i: nat)
    requires forall j :: 0 <= j < |cases| ==> StraightTests(cases[j].conds)
    ensures StraightConds(FlatConds(cases, i))
  {
    hide StraightBody;
    if cases != [] {
      FlatStraight(cases[1..], i + 1);
      assert StraightTests(cases[0].conds);
    }
  }

  // ---------- Runs that reach the cost ----------

  /** Some run of a straight body costs as much as was counted, or more, where the count is at the cap. */
  lemma {:induction false} BodyReached(b: seq<Stmt>, w: Weights) returns (r: Run)
    requires StraightBody(b)
    ensures RunsBody(b, r) && OutBody(b, r) == Normal && CostBody(b, w) <= Weight(r, w)
    decreases SizeBody(b), 1
  {
    hide RunsStmt, OutStmt, CostStmt, StraightStmt;
    if b == [] {
      r := Nothing;
    } else {
      assert StraightStmt(b[0]);
      var r1 := StmtReached(b[0], w);
      var r2 := BodyReached(b[1..], w);
      r := Then(r1, r2);
      assert Weight(r, w) == Weight(r1, w) + Weight(r2, w);
    }
  }

  lemma {:induction false} StmtReached(s: Stmt, w: Weights) returns (r: Run)
    requires StraightStmt(s)
    ensures RunsStmt(s, r) && OutStmt(s, r) == Normal && CostStmt(s, w) <= Weight(r, w)
    decreases SizeStmt(s), 0
  {
    hide RunsBody, OutBody, CostBody, StraightBody;
    match s
    case Basic(l) => r := Did(l);
    case If(a, b) =>
      var which := if CostBody(a, w) < CostBody(b, w) then 1 else 0;
      var inner := BodyReached(if which == 0 then a else b, w);
      r := Pick(which, [], inner);
    case Switch(id, cases) => r := SwitchReached(s, w);
    case Select(id, enter, none, comms) =>
      var k := BestComm(comms, w);
      assert StraightBody(comms[k].body);
      var inner := BodyReached(comms[k].body, w);
      r := Pick(k, if comms[k].Comm? then [enter, comms[k].trigger, comms[k].confirm] else [enter, none], inner);
    case For(_, cond, body, _, _, max) =>
      var test := BodyReached(cond, w);
      var inner := BodyReached(body, w);
      var f := if max.Some? then max.value else MAX_CALL_COUNTS;
      r := LoopRun(s, 0, f, test, inner, w);
      LoopReached(CostBody(cond, w), CostBody(body, w), Weight(test, w), Weight(inner, w), f);
    case Range(_, enter, _, _, _, _, body) =>
      var inner := BodyReached(body, w);
      var passes := ReceivesRun(s, MAX_CALL_COUNTS, inner, w);
      r := Then(Did(enter), passes);
      Product(CostBody(body, w), Weight(inner, w), MAX_CALL_COUNTS);
    case _ =>
  }

  lemma {:induction false} BestComm(comms: seq<Comm>, w: Weights) returns (k: nat)
    requires comms != []
    ensures k < |comms| && CostComms(comms, w) == CostBody(comms[k].body, w) && SizeBody(comms[k].body) <= SizeComms(comms)
    decreases |comms|
  {
    hide CostBody, SizeBody;
    k := 0;
    if |comms| == 1 {
      assert CostComms(comms[1..], w) == 0;
    } else {
      var j := BestComm(comms[1..], w);
      if CostBody(comms[0].body, w) < CostComms(comms[1..], w) {
        k := j + 1;
      }
    }
  }

  // ---------- Loops ----------

  lemma Product(a: nat, b: nat, n: nat)
    requires a <= b
    ensures a * n <= b * n
  {
  }

  lemma LoopReached(c: nat, b: nat, test: nat, inner: nat, f: nat)
    requires c <= test && b <= inner
    ensures Cap(Cap(c * (f + 1)) + Cap(b * f)) <= test * (f + 1) + inner * f
  {
    Product(c, test, f + 1);
    Product(b, inner, f);
  }

  lemma OneMore(a: nat, b: nat, n: nat)
    ensures a + b + (a * (n + 1) + b * n) == a * (n + 2) + b * (n + 1)
  {
  }

  /** The loop makes n more passes, all alike, and ends. */
  lemma {:induction false} LoopRun(s: Stmt, k: nat, n: nat, test: Run, inner: Run, w: Weights) returns (r: Run)
    requires s.For? && RunsBody(s.cond, test) && OutBody(s.cond, test) == Normal && RunsBody(s.body, inner) && OutBody(s.body, inner) == Normal
    requires !s.infinite && (s.max.Some? ==> k + n <= s.max.value) && (s.min.Some? ==> s.min.value <= Count(s, k + n))
    ensures RunsLoop(s, k, r) && OutLoop(s, r) == Normal
    ensures Weight(r, w) == Weight(test, w) * (n + 1) + Weight(inner, w) * n
    decreases n
  {
    hide RunsBody, OutBody;
    if n == 0 {
      r := Stop(test);
    } else {
      var rest := LoopRun(s, k + 1, n - 1, test, inner, w);
      r := Iterate(test, inner, rest);
      OneMore(Weight(test, w), Weight(inner, w), n - 1);
    }
  }

  lemma {:induction false} ReceivesRun(s: Stmt, n: nat, inner: Run, w: Weights) returns (r: Run)
    requires s.Range? && RunsBody(s.body, inner) && OutBody(s.body, inner) == Normal
    ensures RunsRange(s, r) && OutLoop(s, r) == Normal && Weight(inner, w) * n <= Weight(r, w)
    decreases n
  {
    hide RunsBody, OutBody, Received;
    if n == 0 {
      r := Stop(Received(s, s.over));
    } else {
      var rest := ReceivesRun(s, n - 1, inner, w);
      r := Iterate(Received(s, s.more), inner, rest);
      assert Weight(inner, w) * n == Weight(inner, w) + Weight(inner, w) * (n - 1);
    }
  }

  // ---------- Switch statements ----------

  /** The first m conditions are tested, and none of them leaves the switch. */
  lemma {:induction false} CondsReached(conds: seq<Cond>, m: nat, w: Weights) returns (r: Run)
    requires StraightConds(conds) && m <= |conds|
    ensures RunsConds(conds, r) && Length(r) == m && OutConds(conds, r) == Normal && CostConds(conds[..m], w) <= Weight(r, w)
    decreases SizeBodies(CondBodies(conds)), 2, |conds|
  {
    hide RunsBody, OutBody, CostBody, StraightBody, SizeBody;
    if m == 0 {
      r := Nothing;
    } else {
      var first := BodyReached(conds[0].body, w);
      var rest := CondsReached(conds[1..], m - 1, w);
      assert conds[..m][1..] == conds[1..][..m - 1];
      r := Then(first, rest);
    }
  }

  lemma {:induction false} ChainReached(cases: seq<Case>, i: nat, w: Weights) returns (r: Run)
    requires StraightCases(cases) && i < |cases|
    ensures RunsChain(cases, i, r) && OutChain(cases, i, r) == Normal && CostChain(cases, i, w) <= Weight(r, w)
    decreases SizeCases(cases), 2, |cases| - i
  {
    hide RunsBody, OutBody, CostBody, StraightBody, SizeBody, SizeCases;
    CaseSmaller(cases, i);
    var first := BodyReached(cases[i].body, w);
    if cases[i].hasFallthrough {
      var rest := ChainReached(cases, i + 1, w);
      r := Then(first, rest);
    } else {
      r := Then(first, Nothing);
    }
  }

  /** The costliest case is entered after its last condition, which is condition m - 1. */
  ghost predicate Best(cases: seq<Case>, i: nat, before: nat, conds: seq<Cond>, m: nat, w: Weights) {
    && 0 < m <= |conds|
    && CostCases(cases, i, before, w) <= Cap(before + CostConds(conds[..m], w) + CostChain(cases, conds[m - 1].case_, w))
  }

  lemma {:induction false} BestCase(cases: seq<Case>, i: nat, before: nat, w: Weights) returns (m: nat)
    requires i <= |cases| && forall j :: i <= j < |cases| && !cases[j].isDefault ==> cases[j].conds != []
    ensures Best(cases, i, before, FlatConds(cases[i..], i), m, w) || CostCases(cases, i, before, w) == 0
    decreases |cases| - i
  {
    hide FlatConds, CostConds, CostChain, SizeCases, CondsOf, MyConds, Best;
    m := 0;
    if i < |cases| {
      FlatStep(cases, i);
      FlatStep(cases, i + 1);
      var mine, others := MyConds(cases, i), FlatConds(cases[i + 1..], i + 1);
      var k := BestCase(cases, i + 1, Cap(before + CostConds(mine, w)), w);
      m := BestOf(cases, i, before, mine, others, k, w);
    }
  }

  /** The first case is the costliest one, or one of the others. */
  lemma BestOf(cases: seq<Case>, i: nat, before: nat, mine: seq<Cond>, others: seq<Cond>, k: nat, w: Weights) returns (m: nat)
    requires i < |cases| && mine == MyConds(cases, i) && (!cases[i].isDefault ==> cases[i].conds != [])
    requires var after := Cap(before + CostConds(mine, w));
             Best(cases, i + 1, after, others, k, w) || CostCases(cases, i + 1, after, w) == 0
    ensures Best(cases, i, before, mine + others, m, w) || CostCases(cases, i, before, w) == 0
  {
    hide FlatConds, CostConds, CostChain, CostCases, SizeCases, CondsOf, Cap;
    CasesAre(cases, i, before, w);
    if CostCases(cases, i, before, w) == CostCases(cases, i + 1, Cap(before + CostConds(mine, w)), w) {
      m := |mine| + k;
      if CostCases(cases, i, before, w) != 0 {
        LaterBest(cases, i, before, mine, others, k, w);
      }
    } else {
      m := |mine|;
      FirstPart(mine, others, m);
      assert mine[..m] == mine;
      SumOnce(before, CostConds(mine, w), CostChain(cases, i, w));
    }
  }

  lemma LaterBest(cases: seq<Case>, i: nat, before: nat, mine: seq<Cond>, others: seq<Cond>, k: nat, w: Weights)
    requires Best(cases, i + 1, Cap(before + CostConds(mine, w)), others, k, w)
    requires CostCases(cases, i, before, w) == CostCases(cases, i + 1, Cap(before + CostConds(mine, w)), w)
    ensures Best(cases, i, before, mine + others, |mine| + k, w)
  {
    hide CostConds, CostChain, CostCases, Cap;
    SecondPart(mine, others, |mine| + k);
    CondsAppend(mine, others[..k], w);
    SumAgain(before, CostConds(mine, w), CostConds(others[..k], w), CostChain(cases, others[k - 1].case_, w));
  }

  lemma SumOnce(before: nat, x: nat, y: nat)
    ensures Cap(Cap(before + x) + y) == Cap(before + x + y)
  {
  }

  /** The costliest case is the first one or a later one. */
  lemma CasesAre(cases: seq<Case>, i: nat, before: nat, w: Weights)
    requires i < |cases|
    ensures var mine := MyConds(cases, i); var after := Cap(before + CostConds(mine, w));
            || CostCases(cases, i, before, w) == CostCases(cases, i + 1, after, w)
            || (!cases[i].isDefault && CostCases(cases, i, before, w) == Cap(after + CostChain(cases, i, w)))
  {
    hide CostConds, CostChain, CostBody, SizeCases, CondsOf, SizeBody, FlatConds;
    NoCost(w);
    if cases[i].isDefault {
      CappedBefore(cases, i + 1, before, w);
    }
  }

  lemma FlatSize(cases: seq<Case>)
    ensures SizeBodies(CondBodies(FlatConds(cases, 0))) <= SizeCases(cases)
    ensures forall k :: 0 <= k < |FlatConds(cases, 0)| ==> FlatConds(cases, 0)[k].case_ < |cases|
  {
  }

  lemma {:induction false} DefaultBound(cases: seq<Case>)
    ensures DefaultCase(cases).Some? ==> DefaultCase(cases).value < |cases|
  {
    if cases != [] {
      DefaultBound(cases[..|cases| - 1]);
    }
  }

  lemma BestIs(cases: seq<Case>, conds: seq<Cond>, m: nat, w: Weights)
    requires Best(cases, 0, 0, conds, m, w)
    ensures 0 < m <= |conds|
    ensures CostCases(cases, 0, 0, w) <= Cap(CostConds(conds[..m], w) + CostChain(cases, conds[m - 1].case_, w))
  {
    hide CostCases, CostConds, CostChain, Cap;
  }

  /** The switch tests m conditions and enters case j. */
  lemma EnterReached(s: Stmt, m: nat, j: nat, w: Weights) returns (r: Run)
    requires s.Switch? && StraightCases(s.cases) && j < |s.cases| && m <= |FlatConds(s.cases, 0)|
    requires (0 < m && FlatConds(s.cases, 0)[m - 1].case_ == j) || (m == |FlatConds(s.cases, 0)| && DefaultCase(s.cases) == Some(j))
    ensures RunsStmt(s, r) && OutStmt(s, r) == Normal
    ensures CostConds(FlatConds(s.cases, 0)[..m], w) + CostChain(s.cases, j, w) <= Weight(r, w)
    decreases SizeCases(s.cases), 3
  {
    hide FlatConds, CostConds, CostChain, RunsConds, OutConds, RunsChain, OutChain, StraightBody, StraightConds, DefaultCase, SizeCases;
    FlatStraight(s.cases, 0);
    FlatSize(s.cases);
    var tested := CondsReached(FlatConds(s.cases, 0), m, w);
    var bodies := ChainReached(s.cases, j, w);
    r := Matched(tested, Some(j), bodies);
  }

  lemma SwitchReached(s: Stmt, w: Weights) returns (r: Run)
    requires s.Switch? && StraightCases(s.cases)
    ensures RunsStmt(s, r) && OutStmt(s, r) == Normal && CostStmt(s, w) <= Weight(r, w)
    decreases SizeCases(s.cases), 4
  {
    hide FlatConds, CostConds, CostChain, CostCases, RunsConds, OutConds, RunsChain, OutChain, StraightBody, StraightConds, DefaultCase, Best;
    var cases := s.cases;
    var conds := FlatConds(cases, 0);
    assert cases[0..] == cases;
    FlatStraight(cases, 0);
    FlatSize(cases);
    DefaultBound(cases);
    var m := BestCase(cases, 0, 0, w);
    var d := DefaultCase(cases);
    assert CostStmt(s, w) == CostSwitch(cases, w);
    var byDefault := if d.Some? then Cap(CostConds(conds, w) + CostChain(cases, d.value, w)) else 0;
    if d.Some? && CostCases(cases, 0, 0, w) <= byDefault {
      r := EnterReached(s, |conds|, d.value, w);
      assert conds[..|conds|] == conds;
    } else if Best(cases, 0, 0, conds, m, w) {
      BestIs(cases, conds, m, w);
      r := EnterReached(s, m, conds[m - 1].case_, w);
    } else {
      var tested := CondsReached(conds, |conds|, w);
      r := Matched(tested, None, Nothing);
    }
  }

  // ---------- Functions ----------

  /** A straight body, of which the last statement may also be a return. */
  predicate StraightFunction(b: seq<Stmt>) {
    if b != [] && b[|b| - 1].Return? then StraightBody(b[..|b| - 1]) else StraightBody(b)
  }

  lemma {:induction false} FunctionReached(b: seq<Stmt>, w: Weights) returns (r: Run)
    requires StraightFunction(b)
    ensures RunsBody(b, r) && CostBody(b, w) <= Weight(r, w)
    decreases |b|
  {
    hide RunsStmt, OutStmt, CostStmt, StraightStmt;
    if b == [] || !b[|b| - 1].Return? {
      r := BodyReached(b, w);
    } else if |b| == 1 {
      r := ReturnRun(b, w);
    } else {
      var front := b[..|b| - 1];
      assert front[0] == b[0] && StraightStmt(front[0]);
      var r1 := StmtReached(b[0], w);
      assert b[1..][..|b[1..]| - 1] == front[1..];
      var r2 := FunctionReached(b[1..], w);
      r := Then(r1, r2);
    }
  }

  lemma ReturnRun(b: seq<Stmt>, w: Weights) returns (r: Run)
    requires |b| == 1 && b[0].Return?
    ensures RunsBody(b, r) && CostBody(b, w) <= Weight(r, w)
  {
    r := Then(Did(b[0].label_), Nothing);
    assert b[1..] == [];
  }

  /** The cost of a function that nothing leaves early is exact: it bounds all runs, and one of them reaches it. */
  lemma CostIsReached(b: seq<Stmt>, w: Weights)
    requires StraightFunction(b) && QuietBody(b, w)
    ensures exists r :: RunsBody(b, r) && Cap(TraceWeight(Trace(r), w)) == CostBody(b, w)
  {
    hide StraightFunction, QuietBody, CostBody, RunsBody, OutBody;
    var r := FunctionReached(b, w);
    OverBegun(b, r);
    CostIsBound(b, r, w);
    WeightOfTrace(r, w);
    assert CostBody(b, w) <= MAX_CALL_COUNTS;
    assert Cap(TraceWeight(Trace(r), w)) == CostBody(b, w);
  }

  // ---------- Activations ----------

  /** Each statement that may call h does so. */
  lemma {:induction false} AllCall(tr: seq<nat>, p: Actions, h: Func) returns (fs: seq<Func>)
    ensures Starts(tr, fs, p) && Occurs(fs, h) == TraceWeight(tr, WeightsOf(p, Callee(h)))
  {
    fs := [];
    if tr != [] {
      fs := AllCall(tr[1..], p, h);
      if tr[0] in p && h in p[tr[0]].callees {
        var later := fs;
        fs := [h] + later;
        assert fs[1..] == later;
      }
    }
  }

  ghost predicate Performs(p: Program, f: Func, op: Op, n: nat)
    requires f in p.bodies
  {
    exists ops, fs :: Activation(p.bodies[f], p.actions, ops, fs) && Cap(Occurs(ops, op)) == n
  }

  ghost predicate Activates(p: Program, f: Func, h: Func, n: nat)
    requires f in p.bodies
  {
    exists ops, fs :: Activation(p.bodies[f], p.actions, ops, fs) && Cap(Occurs(fs, h)) == n
  }

  lemma OperationReached(p: Program, f: Func, op: Op)
    requires Quiet(p) && f in p.bodies && StraightFunction(p.bodies[f])
    ensures Performs(p, f, op, CostBody(p.bodies[f], WeightsOf(p.actions, Does(op))))
  {
    hide StraightFunction, QuietBody, CostBody, RunsBody, BegunBody, Trace, TraceWeight, Starts;
    var b, w := p.bodies[f], WeightsOf(p.actions, Does(op));
    CostIsReached(b, w);
    var r :| RunsBody(b, r) && Cap(TraceWeight(Trace(r), w)) == CostBody(b, w);
    OverBegun(b, r);
    OpsWeigh(Trace(r), p.actions, op);
    var fs := AllCall(Trace(r), p.actions, f);
    assert Activation(b, p.actions, OpsOn(Trace(r), p.actions), fs);
  }

  lemma CallReached(p: Program, f: Func, h: Func)
    requires Quiet(p) && f in p.bodies && StraightFunction(p.bodies[f])
    ensures Activates(p, f, h, CostBody(p.bodies[f], WeightsOf(p.actions, Callee(h))))
  {
    hide StraightFunction, QuietBody, CostBody, RunsBody, BegunBody, Trace, TraceWeight, Starts;
    var b, w := p.bodies[f], WeightsOf(p.actions, Callee(h));
    CostIsReached(b, w);
    var r :| RunsBody(b, r) && Cap(TraceWeight(Trace(r), w)) == CostBody(b, w);
    OverBegun(b, r);
    var fs := AllCall(Trace(r), p.actions, h);
    assert Activation(b, p.actions, OpsOn(Trace(r), p.actions), fs);
  }

  /** What the analysis finds for a function that nothing leaves early is exact: some activation performs each operation, and some
      activation calls each function, as often as was found. */
  lemma ActivationReached(p: Program, f: Func, info: Info)
    requires Quiet(p) && f in p.bodies && InfoOk(p, f, info) && StraightFunction(p.bodies[f])
    ensures forall op :: Performs(p, f, op, Get(info.ops, op))
    ensures forall h :: Activates(p, f, h, Get(info.callees, h))
  {
    hide StraightFunction, CostBody, Performs, Activates, Quiet;
    forall op ensures Performs(p, f, op, Get(info.ops, op)) {
      OperationReached(p, f, op);
    }
    forall h ensures Activates(p, f, h, Get(info.callees, h)) {
      CallReached(p, f, h);
    }
  }
}
