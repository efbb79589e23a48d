/** The analysis of one body: tables of counts that are added, multiplied and merged statement by statement. */
module CallsInfos {
  import opened FuncGraphs
  import opened CallGraphs
  import opened IrBodies
  import opened CallTrees
  import opened CallCounts
  import opened BodyCounts

  /** What is counted: calls, calls of one function, and operations. */
  datatype Item = Calls | Callee(f: Func) | Does(op: Op)

  type Counts = map<Item, nat>

  /** What a basic statement does: some operations, and a call of one of several functions or no call. */
  datatype Action = Action(ops: seq<Op>, callees: set<Func>)

  /** The actions of basic statements by label; other labels do nothing. */
  type Actions = map<nat, Action>

  function Contribution(a: Action, it: Item): nat {
    match it
    case Calls => if a.callees != {} then 1 else 0
    case Callee(f) => if f in a.callees then 1 else 0
    case Does(op) => Occurs(a.ops, op)
  }

  function WeightsOf(p: Actions, it: Item): Weights { map l | l in p :: Contribution(p[l], it) }

  /** No count is above the cap. */
  predicate Capped(counts: Counts) { forall it :: it in counts ==> counts[it] <= MAX_CALL_COUNTS }

  class CallsInfo {
    var counts: Counts

    constructor ()
      ensures counts == map[]
    {
      counts := map[];
    }

    method AddCount(it: Item, count: nat)
      modifies this
      ensures counts == old(counts)[it := Cap(Get(old(counts), it) + count)]
    {
      counts := counts[it := Get(counts, it) + count];
      if counts[it] > MAX_CALL_COUNTS {
        counts := counts[it := MAX_CALL_COUNTS];
      }
    }

    method EnforceMaxCallCounts()
      modifies this
      ensures Capped(counts)
      ensures forall it :: Get(counts, it) == Cap(Get(old(counts), it))
    {
      var todo := counts.Keys;
      while todo != {}
        invariant todo <= counts.Keys == old(counts.Keys)
        invariant forall it :: it in counts && it !in todo ==> counts[it] == Cap(old(counts)[it])
        invariant forall it :: it in todo ==> counts[it] == old(counts)[it]
        decreases |todo|
      {
        var it :| it in todo;
        if counts[it] > MAX_CALL_COUNTS {
          counts := counts[it := MAX_CALL_COUNTS];
        }
        todo := todo - {it};
      }
    }

    method Multiply(factor: nat)
      modifies this
      ensures Capped(counts)
      ensures forall it :: Get(counts, it) == Cap(Get(old(counts), it) * factor)
    {
      var todo := counts.Keys;
      while todo != {}
        invariant todo <= counts.Keys == old(counts.Keys)
        invariant forall it :: it in counts && it !in todo ==> counts[it] == old(counts)[it] * factor
        invariant forall it :: it in todo ==> counts[it] == old(counts)[it]
        decreases |todo|
      {
        var it :| it in todo;
        counts := counts[it := counts[it] * factor];
        todo := todo - {it};
      }
      EnforceMaxCallCounts();
    }

    method Add(other: Counts)
      modifies this
      ensures Capped(counts)
      ensures forall it :: Get(counts, it) == Cap(Get(old(counts), it) + Get(other, it))
    {
      var todo := other.Keys;
      while todo != {}
        invariant todo <= other.Keys
        invariant forall it :: Get(counts, it) == Get(old(counts), it) + (if it in todo then 0 else Get(other, it))
        decreases |todo|
      {
        var it :| it in todo;
        counts := counts[it := Get(counts, it) + other[it]];
        todo := todo - {it};
      }
      EnforceMaxCallCounts();
    }

    method MergeFrom(other: Counts)
      requires Capped(counts) && Capped(other)
      modifies this
      ensures Capped(counts)
      ensures forall it :: Get(counts, it) == Larger(Get(old(counts), it), Get(other, it))
    {
      var todo := other.Keys;
      while todo != {}
        invariant todo <= other.Keys && Capped(counts)
        invariant forall it :: Get(counts, it)
                               == (if it in todo then Get(old(counts), it) else Larger(Get(old(counts), it), Get(other, it)))
        decreases |todo|
      {
        var it :| it in todo;
        if Get(counts, it) < other[it] {
          counts := counts[it := other[it]];
        }
        todo := todo - {it};
      }
    }
  }

  // ---------- Statements ----------

  /** The counts of a body. */
  ghost predicate OfBody(counts: Counts, b: seq<Stmt>, p: Actions) {
    Capped(counts) && forall it :: Get(counts, it) == CostBody(b, WeightsOf(p, it))
  }

  ghost predicate OfStmt(counts: Counts, s: Stmt, p: Actions) {
    Capped(counts) && forall it :: Get(counts, it) == CostStmt(s, WeightsOf(p, it))
  }

  /** The counts with those of the statements from i on added are the counts of the body. */
  ghost predicate ToBody(counts: Counts, b: seq<Stmt>, i: nat, p: Actions)
    requires i <= |b|
  {
    && Capped(counts)
    && forall it :: Cap(Get(counts, it) + CostBody(b[i..], WeightsOf(p, it))) == CostBody(b, WeightsOf(p, it))
  }

  lemma ToBodyStarts(b: seq<Stmt>, p: Actions)
    ensures ToBody(map[], b, 0, p)
  {
    assert b[0..] == b;
  }

  lemma ToBodyStep(counts0: Counts, counts: Counts, info: Counts, b: seq<Stmt>, i: nat, p: Actions)
    requires i < |b| && ToBody(counts0, b, i, p) && OfStmt(info, b[i], p) && Capped(counts)
    requires forall it :: Get(counts, it) == Cap(Get(counts0, it) + Get(info, it))
    ensures ToBody(counts, b, i + 1, p)
  {
    hide CostStmt;
    assert b[i..][1..] == b[i + 1..];
  }

  lemma ToBodyEnds(counts: Counts, b: seq<Stmt>, p: Actions)
    requires ToBody(counts, b, |b|, p)
    ensures OfBody(counts, b, p)
  {
    assert b[|b|..] == [];
    forall it ensures Get(counts, it) == CostBody(b, WeightsOf(p, it)) {
      assert Cap(Get(counts, it) + CostBody(b[|b|..], WeightsOf(p, it))) == CostBody(b, WeightsOf(p, it));
    }
  }

  lemma {:induction false} StmtSmaller(b: seq<Stmt>, i: nat)
    requires i < |b|
    ensures SizeStmt(b[i]) <= SizeBody(b)
  {
    if i > 0 {
      StmtSmaller(b[1..], i - 1);
    }
  }

  /** The counts of a body are the costs of the body. */
  method InfoForBody(b: seq<Stmt>, p: Actions) returns (counts: Counts)
    ensures OfBody(counts, b, p)
    decreases SizeBody(b), 1
  {
    hide OfBody, OfStmt, ToBody;
    var res := new CallsInfo();
    ToBodyStarts(b, p);
    for i := 0 to |b|
      invariant ToBody(res.counts, b, i, p)
    {
      StmtSmaller(b, i);
      var info := InfoForStmt(b[i], p);
      ghost var counts0 := res.counts;
      res.Add(info);
      ToBodyStep(counts0, res.counts, info, b, i, p);
    }
    ToBodyEnds(res.counts, b, p);
    counts := res.counts;
  }

  method InfoForStmt(s: Stmt, p: Actions) returns (counts: Counts)
    ensures OfStmt(counts, s, p)
    decreases SizeStmt(s), 0
  {
    match s
    case Basic(l) => counts := InfoForBasic(l, p);
    case If(a, b) =>
      var res := new CallsInfo();
      var info := InfoForBody(a, p);
      res.MergeFrom(info);
      info := InfoForBody(b, p);
      res.MergeFrom(info);
      counts := res.counts;
    case Switch(_, cases) => counts := InfoForSwitch(cases, p);
    case Select(_, _, _, comms) => counts := InfoForSelect(comms, p);
    case For(_, _, _, _, _, _) => counts := InfoForFor(s, p);
    case Range(_, _, _, _, _, _, body) =>
      var res := new CallsInfo();
      res.counts := InfoForBody(body, p);
      res.Multiply(MAX_CALL_COUNTS);
      counts := res.counts;
    case _ => counts := map[];
  }

  method InfoForBasic(l: nat, p: Actions) returns (counts: Counts)
    ensures OfStmt(counts, Basic(l), p)
  {
    if l !in p {
      return map[];
    }
    counts := CountOps(p[l].ops);
    counts := CountCallees(p[l].callees, counts);
  }

  method CountOps(ops: seq<Op>) returns (counts: Counts)
    ensures Capped(counts)
    ensures forall it :: Get(counts, it) == (if it.Does? then Cap(Occurs(ops, it.op)) else 0)
  {
    var res := new CallsInfo();
    for i := 0 to |ops|
      invariant Capped(res.counts)
      invariant forall it :: Get(res.counts, it) == (if it.Does? then Cap(Occurs(ops[..i], it.op)) else 0)
    {
      OccursAppend(ops[..i], ops[i]);
      assert ops[..i + 1] == ops[..i] + [ops[i]];
      res.AddCount(Does(ops[i]), 1);
    }
    assert ops[..|ops|] == ops;
    counts := res.counts;
  }

  method CountCallees(callees: set<Func>, before: Counts) returns (counts: Counts)
    requires Capped(before) && forall it: Item :: !it.Does? ==> Get(before, it) == 0
    ensures Capped(counts)
    ensures forall it :: Get(counts, it) == (if it.Does? then Get(before, it) else Contribution(Action([], callees), it))
  {
    var res := new CallsInfo();
    res.counts := before;
    if callees != {} {
      res.AddCount(Calls, 1);
      var todo := callees;
      while todo != {}
        invariant todo <= callees && Capped(res.counts)
        invariant forall it: Item :: it.Does? ==> Get(res.counts, it) == Get(before, it)
        invariant forall f :: Get(res.counts, Callee(f)) == (if f in callees && f !in todo then 1 else 0)
        invariant Get(res.counts, Calls) == 1
        decreases |todo|
      {
        var callee :| callee in todo;
        res.AddCount(Callee(callee), 1);
        todo := todo - {callee};
      }
    }
    counts := res.counts;
  }

  lemma {:induction false} OccursAppend<T>(s: seq<T>, y: T)
    ensures forall x :: Occurs(s + [y], x) == Occurs(s, x) + (if x == y then 1 else 0)
  {
    if s == [] {
      assert s + [y] == [y] && [y][1..] == [];
    } else {
      assert (s + [y])[1..] == s[1..] + [y] && (s + [y])[0] == s[0];
      OccursAppend(s[1..], y);
    }
  }

  method InfoForSelect(comms: seq<Comm>, p: Actions) returns (counts: Counts)
    ensures OfStmt(counts, Select(0, 0, 0, comms), p)
    decreases SizeComms(comms), 3
  {
    var res := new CallsInfo();
    assert comms[0..] == comms;
    for i := 0 to |comms|
      invariant Capped(res.counts)
      invariant forall it :: Larger(Get(res.counts, it), CostComms(comms[i..], WeightsOf(p, it))) == CostComms(comms, WeightsOf(p, it))
    {
      CommSmaller(comms, i);
      var info := InfoForBody(comms[i].body, p);
      assert comms[i..][1..] == comms[i + 1..];
      res.MergeFrom(info);
    }
    assert comms[|comms|..] == [];
    counts := res.counts;
    forall it ensures Get(counts, it) == CostComms(comms, WeightsOf(p, it)) {
      assert CostComms(comms[|comms|..], WeightsOf(p, it)) == 0;
    }
  }

  lemma {:induction false} CommSmaller(comms: seq<Comm>, i: nat)
    requires i < |comms|
    ensures SizeBody(comms[i].body) <= SizeComms(comms)
  {
    if i > 0 {
      CommSmaller(comms[1..], i - 1);
    }
  }

  method InfoForFor(s: Stmt, p: Actions) returns (counts: Counts)
    requires s.For?
    ensures OfStmt(counts, s, p)
    decreases SizeStmt(s), -1
  {
    var f := MAX_CALL_COUNTS;
    if s.max.Some? {
      f := s.max.value;
    }
    var condRes := new CallsInfo();
    condRes.counts := InfoForBody(s.cond, p);
    condRes.Multiply(f + 1);
    var bodyRes := new CallsInfo();
    bodyRes.counts := InfoForBody(s.body, p);
    bodyRes.Multiply(f);
    var res := new CallsInfo();
    res.Add(condRes.counts);
    res.Add(bodyRes.counts);
    counts := res.counts;
  }

  // ---------- Switch statements ----------

  ghost predicate OfConds(counts: Counts, conds: seq<Cond>, p: Actions) {
    Capped(counts) && forall it :: Get(counts, it) == CostConds(conds, WeightsOf(p, it))
  }

  /** With what is still to come after the body of case j, the counts are those of case i and before. */
  ghost predicate ToChain(counts: Counts, before: Counts, cases: seq<Case>, i: nat, j: nat, p: Actions) {
    Capped(counts)
    && forall it :: Cap(Get(counts, it) + FallsTo(cases, j, WeightsOf(p, it)))
                    == Cap(Get(before, it) + CostChain(cases, i, WeightsOf(p, it)))
  }

  /** What is still to come after the body of case j. */
  function FallsTo(cases: seq<Case>, j: nat, w: Weights): nat {
    if j < |cases| && cases[j].hasFallthrough then CostChain(cases, j + 1, w) else 0
  }

  lemma ChainCost(cases: seq<Case>, j: nat, w: Weights)
    requires j < |cases|
    ensures CostChain(cases, j, w) == Cap(CostBody(cases[j].body, w) + FallsTo(cases, j, w))
    ensures CostChain(cases, |cases|, w) == 0
  {
    hide CostBody, SizeBody, SizeCases;
  }

  lemma ChainStarts(counts0: Counts, counts: Counts, info: Counts, before: Counts, cases: seq<Case>, i: nat, p: Actions)
    requires i < |cases| && OfBody(info, cases[i].body, p) && Capped(counts)
    requires forall it :: Get(counts0, it) == Cap(Get(before, it))
    requires forall it :: Get(counts, it) == Cap(Get(counts0, it) + Get(info, it))
    ensures ToChain(counts, before, cases, i, i, p)
  {
    hide CostBody, CostChain, FallsTo;
    forall it
      ensures Cap(Get(counts, it) + FallsTo(cases, i, WeightsOf(p, it))) == Cap(Get(before, it) + CostChain(cases, i, WeightsOf(p, it)))
    {
      ChainCost(cases, i, WeightsOf(p, it));
    }
  }

  lemma ChainStep(counts0: Counts, counts: Counts, info: Counts, before: Counts, cases: seq<Case>, i: nat, j: nat, p: Actions)
    requires j + 1 < |cases| && cases[j].hasFallthrough && OfBody(info, cases[j + 1].body, p) && Capped(counts)
    requires ToChain(counts0, before, cases, i, j, p)
    requires forall it :: Get(counts, it) == Cap(Get(counts0, it) + Get(info, it))
    ensures ToChain(counts, before, cases, i, j + 1, p)
  {
    hide CostBody, CostChain;
    forall it
      ensures Cap(Get(counts, it) + FallsTo(cases, j + 1, WeightsOf(p, it))) == Cap(Get(before, it) + CostChain(cases, i, WeightsOf(p, it)))
    {
      var w := WeightsOf(p, it);
      ChainCost(cases, j + 1, w);
      assert FallsTo(cases, j, w) == CostChain(cases, j + 1, w);
      assert Cap(Get(counts0, it) + FallsTo(cases, j, w)) == Cap(Get(before, it) + CostChain(cases, i, w));
    }
  }

  lemma ChainEnds(counts: Counts, before: Counts, cases: seq<Case>, i: nat, j: nat, p: Actions)
    requires j < |cases| && (cases[j].hasFallthrough ==> j + 1 == |cases|) && ToChain(counts, before, cases, i, j, p)
    ensures forall it :: Get(counts, it) == Cap(Get(before, it) + CostChain(cases, i, WeightsOf(p, it)))
  {
    hide CostBody, CostChain;
    forall it ensures Get(counts, it) == Cap(Get(before, it) + CostChain(cases, i, WeightsOf(p, it))) {
      ChainCost(cases, j, WeightsOf(p, it));
      assert FallsTo(cases, j, WeightsOf(p, it)) == 0;
      assert Cap(Get(counts, it) + FallsTo(cases, j, WeightsOf(p, it))) == Cap(Get(before, it) + CostChain(cases, i, WeightsOf(p, it)));
    }
  }

  /** The execution of case i: the conditions counted so far, its body and those it falls through to. */
  method ExecuteCase(cases: seq<Case>, i: nat, conds: Counts, bodyInfos: seq<Counts>, p: Actions) returns (counts: Counts)
    requires i < |cases| == |bodyInfos|
    requires forall k :: 0 <= k < |cases| ==> OfBody(bodyInfos[k], cases[k].body, p)
    ensures Capped(counts)
    ensures forall it :: Get(counts, it) == Cap(Get(conds, it) + CostChain(cases, i, WeightsOf(p, it)))
  {
    hide CostBody, CostChain, ToChain, OfBody, Cap;
    var res := new CallsInfo();
    res.Add(conds);
    ghost var counts0 := res.counts;
    res.Add(bodyInfos[i]);
    NothingBefore(counts0, conds);
    ChainStarts(counts0, res.counts, bodyInfos[i], conds, cases, i, p);
    var j := i;
    while cases[j].hasFallthrough && j + 1 < |cases|
      invariant i <= j < |cases| && Capped(res.counts) && ToChain(res.counts, conds, cases, i, j, p)
      decreases |cases| - j
    {
      ghost var counts1 := res.counts;
      res.Add(bodyInfos[j + 1]);
      ChainStep(counts1, res.counts, bodyInfos[j + 1], conds, cases, i, j, p);
      j := j + 1;
    }
    ChainEnds(res.counts, conds, cases, i, j, p);
    counts := res.counts;
  }

  lemma NothingBefore(counts: Counts, other: Counts)
    requires forall it :: Get(counts, it) == Cap(Get(map[], it) + Get(other, it))
    ensures forall it :: Get(counts, it) == Cap(Get(other, it))
  {
    forall it ensures Get(counts, it) == Cap(Get(other, it)) {
      assert Get(counts, it) == Cap(Get(map[], it) + Get(other, it));
    }
  }

  method InfosForBodies(cases: seq<Case>, p: Actions) returns (infos: seq<Counts>)
    ensures |infos| == |cases| && forall k :: 0 <= k < |cases| ==> OfBody(infos[k], cases[k].body, p)
    decreases SizeCases(cases), 2
  {
    hide OfBody;
    infos := [];
    for i := 0 to |cases|
      invariant |infos| == i && forall k :: 0 <= k < i ==> OfBody(infos[k], cases[k].body, p)
    {
      CaseSizes(cases, i);
      var info := InfoForBody(cases[i].body, p);
      infos := infos + [info];
    }
  }

  /** With the conditions from k on, the counts are those of all conditions and before. */
  ghost predicate ToConds(counts: Counts, before: Counts, conds: seq<Cond>, k: nat, p: Actions)
    requires k <= |conds|
  {
    Capped(counts)
    && forall it :: Cap(Get(counts, it) + CostConds(conds[k..], WeightsOf(p, it)))
                    == Cap(Get(before, it) + CostConds(conds, WeightsOf(p, it)))
  }

  lemma CondsStart(before: Counts, conds: seq<Cond>, p: Actions)
    requires Capped(before)
    ensures ToConds(before, before, conds, 0, p)
  {
    assert conds[0..] == conds;
  }

  lemma CondsStep(counts0: Counts, counts: Counts, info: Counts, before: Counts, conds: seq<Cond>, k: nat, p: Actions)
    requires k < |conds| && ToConds(counts0, before, conds, k, p) && OfBody(info, conds[k].body, p) && Capped(counts)
    requires forall it :: Get(counts, it) == Cap(Get(counts0, it) + Get(info, it))
    ensures ToConds(counts, before, conds, k + 1, p)
  {
    hide CostBody, CostConds, WeightsOf, SizeBodies, CondBodies;
    forall it
      ensures Cap(Get(counts, it) + CostConds(conds[k + 1..], WeightsOf(p, it))) == Cap(Get(before, it) + CostConds(conds, WeightsOf(p, it)))
    {
      var w := WeightsOf(p, it);
      CondsCost(conds, k, w);
      SumAgain(Get(counts0, it), Get(info, it), CostConds(conds[k + 1..], w), 0);
      assert Cap(Get(counts0, it) + CostConds(conds[k..], w)) == Cap(Get(before, it) + CostConds(conds, w));
    }
  }

  lemma CondsCost(conds: seq<Cond>, k: nat, w: Weights)
    requires k < |conds|
    ensures CostConds(conds[k..], w) == Cap(CostBody(conds[k].body, w) + CostConds(conds[k + 1..], w))
  {
    hide CostBody, SizeBodies, CondBodies;
    assert conds[k..][0] == conds[k] && conds[k..][1..] == conds[k + 1..];
  }

  lemma CondsEnd(counts: Counts, before: Counts, conds: seq<Cond>, p: Actions)
    requires ToConds(counts, before, conds, |conds|, p)
    ensures forall it :: Get(counts, it) == Cap(Get(before, it) + CostConds(conds, WeightsOf(p, it)))
  {
    hide CostBody;
    assert conds[|conds|..] == [];
    forall it ensures Get(counts, it) == Cap(Get(before, it) + CostConds(conds, WeightsOf(p, it))) {
      assert Cap(Get(counts, it) + CostConds(conds[|conds|..], WeightsOf(p, it))) == Cap(Get(before, it) + CostConds(conds, WeightsOf(p, it)));
    }
  }

  /** The counts of the conditions of case i, added to those of earlier conditions. */
  method AddConds(tests: seq<Test>, i: nat, before: Counts, p: Actions) returns (counts: Counts)
    requires Capped(before)
    ensures Capped(counts)
    ensures forall it :: Get(counts, it) == Cap(Get(before, it) + CostConds(CondsOf(i, tests), WeightsOf(p, it)))
    decreases SizeTests(tests), 2
  {
    hide CostBody, CostConds, ToConds, OfBody, Cap, SizeBodies, CondBodies;
    var res := new CallsInfo();
    res.counts := before;
    ghost var conds := CondsOf(i, tests);
    CondsStart(before, conds, p);
    for k := 0 to |tests|
      invariant Capped(res.counts) && ToConds(res.counts, before, conds, k, p)
    {
      TestSmaller(tests, k);
      var info := InfoForBody(tests[k].body, p);
      ghost var counts0 := res.counts;
      res.Add(info);
      CondsStep(counts0, res.counts, info, before, conds, k, p);
    }
    CondsEnd(res.counts, before, conds, p);
    counts := res.counts;
  }

  lemma {:induction false} TestSmaller(tests: seq<Test>, k: nat)
    requires k < |tests|
    ensures SizeBody(tests[k].body) <= SizeTests(tests)
  {
    if k > 0 {
      TestSmaller(tests[1..], k - 1);
    }
  }

  lemma {:induction false} FlatAppend(cases: seq<Case>, c: Case, i: nat)
    ensures FlatConds(cases + [c], i) == FlatConds(cases, i) + (if c.isDefault then [] else CondsOf(i + |cases|, c.conds))
  {
    hide SizeCases, SizeBodies, SizeTests, CondBodies, CondsOf, SizeBody;
    if cases == [] {
      assert cases + [c] == [c] && [c][1..] == [];
    } else {
      assert (cases + [c])[1..] == cases[1..] + [c] && (cases + [c])[0] == cases[0];
      FlatAppend(cases[1..], c, i + 1);
    }
  }

  /** After the first i cases: the conditions so far, the costliest execution so far. */
  ghost predicate ToSwitch(counts: Counts, conds: Counts, cases: seq<Case>, i: nat, p: Actions)
    requires i <= |cases|
  {
    && Capped(counts) && OfConds(conds, FlatConds(cases[..i], 0), p)
    && forall it :: Larger(Get(counts, it), CostCases(cases, i, Get(conds, it), WeightsOf(p, it)))
                    == CostCases(cases, 0, 0, WeightsOf(p, it))
  }

  lemma ToSwitchStep(counts0: Counts, conds0: Counts, execute: Counts, counts: Counts, conds: Counts, cases: seq<Case>, i: nat, p: Actions)
    requires i < |cases| && !cases[i].isDefault && ToSwitch(counts0, conds0, cases, i, p) && Capped(counts) && Capped(conds)
    requires forall it :: Get(conds, it) == Cap(Get(conds0, it) + CostConds(CondsOf(i, cases[i].conds), WeightsOf(p, it)))
    requires forall it :: Get(execute, it) == Cap(Get(conds, it) + CostChain(cases, i, WeightsOf(p, it)))
    requires forall it :: Get(counts, it) == Larger(Get(counts0, it), Get(execute, it))
    ensures ToSwitch(counts, conds, cases, i + 1, p)
  {
    hide CostChain, CostConds, CostBody, CostCases, FlatConds, CondsOf, Cap, Larger, OfConds;
    CondsGrow(conds0, conds, cases, i, p);
    forall it
      ensures Larger(Get(counts, it), CostCases(cases, i + 1, Get(conds, it), WeightsOf(p, it))) == CostCases(cases, 0, 0, WeightsOf(p, it))
    {
      SwitchStepAt(counts0, conds0, execute, counts, conds, cases, i, p, it);
    }
  }

  lemma SwitchStepAt(counts0: Counts, conds0: Counts, execute: Counts, counts: Counts, conds: Counts, cases: seq<Case>, i: nat,
                     p: Actions, it: Item)
    requires i < |cases| && !cases[i].isDefault && ToSwitch(counts0, conds0, cases, i, p)
    requires Get(conds, it) == Cap(Get(conds0, it) + CostConds(CondsOf(i, cases[i].conds), WeightsOf(p, it)))
    requires Get(execute, it) == Cap(Get(conds, it) + CostChain(cases, i, WeightsOf(p, it)))
    requires Get(counts, it) == Larger(Get(counts0, it), Get(execute, it))
    ensures Larger(Get(counts, it), CostCases(cases, i + 1, Get(conds, it), WeightsOf(p, it))) == CostCases(cases, 0, 0, WeightsOf(p, it))
  {
    hide CostChain, CostConds, CostBody, CostCases, FlatConds, CondsOf, Cap, Larger, OfConds, WeightsOf;
    var w := WeightsOf(p, it);
    CasesCost(cases, i, Get(conds0, it), w);
    LargerAgain(Get(counts0, it), Get(execute, it), CostCases(cases, i + 1, Get(conds, it), w));
    assert Larger(Get(counts0, it), CostCases(cases, i, Get(conds0, it), w)) == CostCases(cases, 0, 0, w);
  }

  lemma CondsGrow(conds0: Counts, conds: Counts, cases: seq<Case>, i: nat, p: Actions)
    requires i < |cases| && !cases[i].isDefault && OfConds(conds0, FlatConds(cases[..i], 0), p) && Capped(conds)
    requires forall it :: Get(conds, it) == Cap(Get(conds0, it) + CostConds(CondsOf(i, cases[i].conds), WeightsOf(p, it)))
    ensures OfConds(conds, FlatConds(cases[..i + 1], 0), p)
  {
    hide CostConds, CostBody, FlatConds, CondsOf, Cap, WeightsOf;
    FlatAppend(cases[..i], cases[i], 0);
    assert cases[..i + 1] == cases[..i] + [cases[i]];
    forall it ensures Get(conds, it) == CostConds(FlatConds(cases[..i + 1], 0), WeightsOf(p, it)) {
      CondsAppend(FlatConds(cases[..i], 0), CondsOf(i, cases[i].conds), WeightsOf(p, it));
    }
  }

  lemma LargerAgain(a: nat, b: nat, c: nat)
    ensures Larger(Larger(a, b), c) == Larger(a, Larger(b, c))
  {
  }

  lemma CasesCost(cases: seq<Case>, i: nat, before: nat, w: Weights)
    requires i < |cases|
    ensures !cases[i].isDefault ==>
              var conds := Cap(before + CostConds(CondsOf(i, cases[i].conds), w));
              CostCases(cases, i, before, w) == Larger(Cap(conds + CostChain(cases, i, w)), CostCases(cases, i + 1, conds, w))
    ensures cases[i].isDefault ==> CostCases(cases, i, before, w) == CostCases(cases, i + 1, before, w)
  {
    hide CostChain, CostConds, CostBody, SizeCases, SizeBody, CondsOf;
  }

  lemma ToSwitchSkip(counts: Counts, conds: Counts, cases: seq<Case>, i: nat, p: Actions)
    requires i < |cases| && cases[i].isDefault && ToSwitch(counts, conds, cases, i, p)
    ensures ToSwitch(counts, conds, cases, i + 1, p)
  {
    hide CostChain, CostConds, CostBody, CostCases, FlatConds, CondsOf, Larger;
    FlatAppend(cases[..i], cases[i], 0);
    assert cases[..i + 1] == cases[..i] + [cases[i]];
    assert FlatConds(cases[..i + 1], 0) == FlatConds(cases[..i], 0);
    forall it
      ensures Larger(Get(counts, it), CostCases(cases, i + 1, Get(conds, it), WeightsOf(p, it))) == CostCases(cases, 0, 0, WeightsOf(p, it))
    {
      CasesCost(cases, i, Get(conds, it), WeightsOf(p, it));
    }
  }

  method InfoForSwitch(cases: seq<Case>, p: Actions) returns (counts: Counts)
    ensures OfStmt(counts, Switch(0, cases), p)
    decreases SizeCases(cases), 4
  {
    hide OfBody, OfStmt, ToSwitch, CostChain, CostConds, CostBody, CostCases, FlatConds, Cap, Larger;
    var bodyInfos := InfosForBodies(cases, p);
    var res := new CallsInfo();
    var conds: Counts := map[];
    var defaultCase: Option<nat> := None;
    ToSwitchStarts(cases, p);
    for i := 0 to |cases|
      invariant ToSwitch(res.counts, conds, cases, i, p) && Capped(res.counts) && Capped(conds)
      invariant defaultCase == DefaultCase(cases[..i])
    {
      assert cases[..i + 1][..i] == cases[..i];
      if cases[i].isDefault {
        defaultCase := Some(i);
        ToSwitchSkip(res.counts, conds, cases, i, p);
      } else {
        ghost var counts0, conds0 := res.counts, conds;
        CaseSizes(cases, i);
        conds := AddConds(cases[i].conds, i, conds, p);
        var execute := ExecuteCase(cases, i, conds, bodyInfos, p);
        res.MergeFrom(execute);
        ToSwitchStep(counts0, conds0, execute, res.counts, conds, cases, i, p);
      }
    }
    assert cases[..|cases|] == cases;
    ToSwitchEnds(res.counts, conds, cases, p);
    if defaultCase.Some? {
      ghost var counts0 := res.counts;
      var execute := ExecuteCase(cases, defaultCase.value, conds, bodyInfos, p);
      res.MergeFrom(execute);
      WithDefault(counts0, conds, execute, res.counts, cases, p);
    } else {
      WithoutDefault(res.counts, cases, p);
    }
    counts := res.counts;
  }

  lemma WithDefault(counts0: Counts, conds: Counts, execute: Counts, counts: Counts, cases: seq<Case>, p: Actions)
    requires DefaultCase(cases).Some? && Capped(counts)
    requires forall it :: Get(counts0, it) == CostCases(cases, 0, 0, WeightsOf(p, it))
    requires forall it :: Get(conds, it) == CostConds(FlatConds(cases, 0), WeightsOf(p, it))
    requires forall it :: Get(execute, it) == Cap(Get(conds, it) + CostChain(cases, DefaultCase(cases).value, WeightsOf(p, it)))
    requires forall it :: Get(counts, it) == Larger(Get(counts0, it), Get(execute, it))
    ensures OfStmt(counts, Switch(0, cases), p)
  {
    hide CostChain, CostConds, CostBody, CostCases, FlatConds, DefaultCase;
    forall it ensures Get(counts, it) == CostStmt(Switch(0, cases), WeightsOf(p, it)) {
      assert Get(counts, it) == CostSwitch(cases, WeightsOf(p, it));
    }
  }

  lemma WithoutDefault(counts: Counts, cases: seq<Case>, p: Actions)
    requires DefaultCase(cases).None? && Capped(counts)
    requires forall it :: Get(counts, it) == CostCases(cases, 0, 0, WeightsOf(p, it))
    ensures OfStmt(counts, Switch(0, cases), p)
  {
    hide CostChain, CostConds, CostBody, CostCases, FlatConds, DefaultCase;
    forall it ensures Get(counts, it) == CostStmt(Switch(0, cases), WeightsOf(p, it)) {
      assert Get(counts, it) == CostSwitch(cases, WeightsOf(p, it));
    }
  }

  lemma ToSwitchStarts(cases: seq<Case>, p: Actions)
    ensures ToSwitch(map[], map[], cases, 0, p) && DefaultCase(cases[..0]) == None
  {
    assert FlatConds(cases[..0], 0) == [];
  }

  lemma ToSwitchEnds(counts: Counts, conds: Counts, cases: seq<Case>, p: Actions)
    requires ToSwitch(counts, conds, cases, |cases|, p)
    ensures forall it :: Get(counts, it) == CostCases(cases, 0, 0, WeightsOf(p, it))
    ensures forall it :: Get(conds, it) == CostConds(FlatConds(cases, 0), WeightsOf(p, it))
    ensures DefaultCase(cases).Some? ==> DefaultCase(cases).value < |cases|
  {
    assert cases[..|cases|] == cases;
    forall it ensures Get(counts, it) == CostCases(cases, 0, 0, WeightsOf(p, it)) {
      assert Larger(Get(counts, it), CostCases(cases, |cases|, Get(conds, it), WeightsOf(p, it))) == CostCases(cases, 0, 0, WeightsOf(p, it));
    }
    DefaultInRange(cases);
  }

  lemma {:induction false} DefaultInRange(cases: seq<Case>)
    ensures DefaultCase(cases).Some? ==> DefaultCase(cases).value < |cases|
  {
    if cases != [] && !cases[|cases| - 1].isDefault {
      DefaultInRange(cases[..|cases| - 1]);
    }
  }
}
