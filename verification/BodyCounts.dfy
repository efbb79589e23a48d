/** How much a body does at most: counts that saturate, found from the structure of its statements. */
module BodyCounts {
  import opened IrBodies
  import opened CallTrees
  import opened CallCounts

  /** What statements with a label contribute to one count. */
  type Weights = map<nat, nat>

  function Larger(a: nat, b: nat): nat { if a < b then b else a }

  function CostStmt(s: Stmt, w: Weights): (c: nat)
    ensures c <= MAX_CALL_COUNTS
    decreases SizeStmt(s), 0
  {
    match s
    case Basic(l) => Cap(Get(w, l))
    case If(a, b) => Larger(CostBody(a, w), CostBody(b, w))
    case Switch(_, cases) => CostSwitch(cases, w)
    case Select(_, _, _, comms) => CostComms(comms, w)
    case For(_, cond, body, _, _, max) => CostLoop(CostBody(cond, w), CostBody(body, w), max)
    case Range(_, _, _, _, _, _, body) => Cap(CostBody(body, w) * MAX_CALL_COUNTS)
    case _ => 0
  }

  /** A loop makes as many passes as its maximum says; without one the cap stands for any number. */
  function CostLoop(cond: nat, body: nat, max: Option<nat>): (c: nat)
    ensures c <= MAX_CALL_COUNTS
  {
    var f := if max.Some? then max.value else MAX_CALL_COUNTS;
    Cap(Cap(cond * (f + 1)) + Cap(body * f))
  }

  function CostBody(b: seq<Stmt>, w: Weights): (c: nat)
    ensures c <= MAX_CALL_COUNTS
    decreases SizeBody(b), 1
  {
    if b == [] then 0 else Cap(CostStmt(b[0], w) + CostBody(b[1..], w))
  }

  /** The costliest case and default of a select statement. */
  function CostComms(comms: seq<Comm>, w: Weights): (c: nat)
    ensures c <= MAX_CALL_COUNTS
    decreases SizeComms(comms), 2, |comms|
  {
    if comms == [] then 0 else Larger(CostBody(comms[0].body, w), CostComms(comms[1..], w))
  }

  function CostConds(conds: seq<Cond>, w: Weights): (c: nat)
    ensures c <= MAX_CALL_COUNTS
    decreases SizeBodies(CondBodies(conds)), 2, |conds|
  {
    if conds == [] then 0 else Cap(CostBody(conds[0].body, w) + CostConds(conds[1..], w))
  }

  /** The body of case i and the bodies it falls through to. */
  function CostChain(cases: seq<Case>, i: nat, w: Weights): (c: nat)
    ensures c <= MAX_CALL_COUNTS
    decreases SizeCases(cases), 2, |cases| - i
  {
    if i >= |cases| then 0
    else
      CaseSmaller(cases, i);
      Cap(CostBody(cases[i].body, w) + (if cases[i].hasFallthrough then CostChain(cases, i + 1, w) else 0))
  }

  /** The costliest execution of a case from i on that is not the default: all conditions so far, its
      bodies; before is the cost of the conditions of earlier cases. */
  function CostCases(cases: seq<Case>, i: nat, before: nat, w: Weights): (c: nat)
    ensures c <= MAX_CALL_COUNTS
    decreases SizeCases(cases), 3, |cases| - i
  {
    if i >= |cases| then 0
    else if cases[i].isDefault then CostCases(cases, i + 1, before, w)
    else
      CaseSmaller(cases, i);
      var conds := Cap(before + CostConds(CondsOf(i, cases[i].conds), w));
      Larger(Cap(conds + CostChain(cases, i, w)), CostCases(cases, i + 1, conds, w))
  }

  function CostSwitch(cases: seq<Case>, w: Weights): (c: nat)
    ensures c <= MAX_CALL_COUNTS
    decreases SizeCases(cases), 4
  {
    var others := CostCases(cases, 0, 0, w);
    match DefaultCase(cases)
    case None => others
    case Some(d) => Larger(others, Cap(CostConds(FlatConds(cases, 0), w) + CostChain(cases, d, w)))
  }

  lemma {:induction false} CaseSmaller(cases: seq<Case>, i: nat)
    requires i < |cases|
    ensures SizeBody(cases[i].body) <= SizeCases(cases)
    ensures SizeBodies(CondBodies(CondsOf(i, cases[i].conds))) <= SizeCases(cases)
  {
    CaseSizes(cases, i);
  }

  lemma {:induction false} CaseSizes(cases: seq<Case>, i: nat)
    requires i < |cases|
    ensures SizeBody(cases[i].body) + SizeTests(cases[i].conds) <= SizeCases(cases)
  {
    if i > 0 {
      CaseSizes(cases[1..], i - 1);
    }
  }

  // ---------- Weights of runs ----------

  function TraceWeight(tr: seq<nat>, w: Weights): nat {
    if tr == [] then 0 else Get(w, tr[0]) + TraceWeight(tr[1..], w)
  }

  lemma {:induction false} WeightAppend(a: seq<nat>, b: seq<nat>, w: Weights)
    ensures TraceWeight(a + b, w) == TraceWeight(a, w) + TraceWeight(b, w)
  {
    if a == [] {
      assert a + b == b;
    } else {
      assert (a + b)[1..] == a[1..] + b;
      WeightAppend(a[1..], b, w);
    }
  }

  function Weight(r: Run, w: Weights): nat {
    match r
    case Nothing => 0
    case Did(l) => Get(w, l)
    case Jump => 0
    case Then(a, b) => Weight(a, w) + Weight(b, w)
    case Pick(_, ls, a) => TraceWeight(ls, w) + Weight(a, w)
    case Matched(a, _, b) => Weight(a, w) + Weight(b, w)
    case Iterate(a, b, c) => Weight(a, w) + Weight(b, w) + Weight(c, w)
    case Stop(a) => Weight(a, w)
  }

  lemma {:induction false} WeightOfTrace(r: Run, w: Weights)
    ensures TraceWeight(Trace(r), w) == Weight(r, w)
  {
    match r
    case Then(a, b) => WeightOfTrace(a, w); WeightOfTrace(b, w); WeightAppend(Trace(a), Trace(b), w);
    case Pick(_, ls, a) => WeightOfTrace(a, w); WeightAppend(ls, Trace(a), w);
    case Matched(a, _, b) => WeightOfTrace(a, w); WeightOfTrace(b, w); WeightAppend(Trace(a), Trace(b), w);
    case Iterate(a, b, c) =>
      WeightOfTrace(a, w);
      WeightOfTrace(b, w);
      WeightOfTrace(c, w);
      WeightAppend(Trace(a), Trace(b), w);
      WeightAppend(Trace(a) + Trace(b), Trace(c), w);
    case Stop(a) => WeightOfTrace(a, w);
    case Did(l) => assert [l][1..] == [];
    case _ =>
  }

  // ---------- Statements other than basic ones contribute nothing ----------

  predicate QuietStmt(s: Stmt, w: Weights)
    decreases s
  {
    match s
    case If(a, b) => QuietBody(a, w) && QuietBody(b, w)
    case Switch(_, cases) => QuietCases(cases, w)
    case Select(_, enter, none, comms) => Get(w, enter) == 0 && Get(w, none) == 0 && QuietComms(comms, w)
    case For(_, cond, body, _, _, _) => QuietBody(cond, w) && QuietBody(body, w)
    case Range(_, enter, trigger, confirm, more, over, body) =>
      && Get(w, enter) == 0 && Get(w, trigger) == 0 && Get(w, confirm) == 0 && Get(w, more) == 0 && Get(w, over) == 0
      && QuietBody(body, w)
    case Return(l) => Get(w, l) == 0
    case _ => true
  }

  predicate QuietBody(b: seq<Stmt>, w: Weights)
    decreases b
  {
    forall i :: 0 <= i < |b| ==> QuietStmt(b[i], w)
  }

  predicate QuietTests(tests: seq<Test>, w: Weights)
    decreases tests
  {
    forall i :: 0 <= i < |tests| ==> QuietBody(tests[i].body, w)
  }

  predicate QuietCases(cases: seq<Case>, w: Weights)
    decreases cases
  {
    forall i :: 0 <= i < |cases| ==> QuietTests(cases[i].conds, w) && QuietBody(cases[i].body, w)
  }

  predicate QuietComms(comms: seq<Comm>, w: Weights)
    decreases comms
  {
    && (forall i :: 0 <= i < |comms| && comms[i].Comm? ==> Get(w, comms[i].trigger) == 0 && Get(w, comms[i].confirm) == 0)
    && (forall i :: 0 <= i < |comms| ==> QuietBody(comms[i].body, w))
  }

  predicate QuietConds(conds: seq<Cond>, w: Weights) {
    forall k :: 0 <= k < |conds| ==> QuietBody(conds[k].body, w)
  }

  lemma {:induction false} FlatQuiet(cases: seq<Case>, i: nat, w: Weights)
    requires QuietCases(cases, w)
    ensures QuietConds(FlatConds(cases, i), w)
  {
    if cases != [] {
      FlatQuiet(cases[1..], i + 1, w);
      assert QuietTests(cases[0].conds, w);
    }
  }

  // ---------- Runs that have begun ----------

  /** A run of the statement as far as it has come: it may go on, be over, or never end. */
  predicate BegunStmt(s: Stmt, r: Run)
    decreases r, 2
  {
    r == Nothing ||
    match s
    case Basic(l) => r == Did(l)
    case If(a, b) => r.Pick? && r.labels == [] && r.which < 2 && BegunBody(if r.which == 0 then a else b, r.inner)
    case Switch(_, cases) => r.Matched? && BegunSwitch(cases, r)
    case Select(_, _, _, comms) =>
      && r.Pick? && r.which < |comms|
      && (|| (Takes(s, r.which, r.labels) && BegunBody(comms[r.which].body, r.inner))
          || (OnTheWay(s, r.which, r.labels) && r.inner == Nothing))
    case For(_, _, _, _, _, _) => BegunLoop(s, 0, r)
    case Range(_, enter, _, _, _, _, _) => r.Then? && r.first == Did(enter) && BegunRange(s, r.rest)
    case Break(_) => r == Jump
    case Continue(_) => r == Jump
    case Return(l) => r == Did(l)
  }

  predicate BegunBody(b: seq<Stmt>, r: Run)
    decreases r, 1
  {
    r == Nothing
    || (&& b != [] && r.Then?
        && (|| (BegunStmt(b[0], r.first) && r.rest == Nothing)
            || (RunsStmt(b[0], r.first) && OutStmt(b[0], r.first) == Normal && BegunBody(b[1..], r.rest))))
  }

  predicate BegunSwitch(cases: seq<Case>, r: Run)
    requires r.Matched?
    decreases r, 1
  {
    var conds := FlatConds(cases, 0);
    && BegunConds(conds, r.tested)
    && (r.chosen.None? ==> r.bodies == Nothing)
    && (r.chosen.Some? ==>
          && RunsConds(conds, r.tested) && OutConds(conds, r.tested) == Normal
          && (|| (0 < Length(r.tested) <= |conds| && conds[Length(r.tested) - 1].case_ == r.chosen.value)
              || (Length(r.tested) == |conds| && DefaultCase(cases) == r.chosen))
          && BegunChain(cases, r.chosen.value, r.bodies))
  }

  predicate BegunConds(conds: seq<Cond>, r: Run)
    decreases r, 0
  {
    r == Nothing
    || (&& r.Then? && conds != []
        && (|| (BegunBody(conds[0].body, r.first) && r.rest == Nothing)
            || (RunsBody(conds[0].body, r.first) && OutBody(conds[0].body, r.first) == Normal && BegunConds(conds[1..], r.rest))))
  }

  predicate BegunChain(cases: seq<Case>, i: nat, r: Run)
    decreases r, 0
  {
    r == Nothing
    || (&& i < |cases| && r.Then?
        && (|| (BegunBody(cases[i].body, r.first) && r.rest == Nothing)
            || (&& RunsBody(cases[i].body, r.first) && OutBody(cases[i].body, r.first) == Normal && cases[i].hasFallthrough
                && BegunChain(cases, i + 1, r.rest))))
  }

  /** A loop that has made k passes. */
  predicate BegunLoop(s: Stmt, k: nat, r: Run)
    requires s.For?
    decreases r, 0
  {
    r == Nothing ||
    match r
    case Stop(test) => BegunBody(s.cond, test)
    case Iterate(test, inner, rest) =>
      && RunsBody(s.cond, test) && OutBody(s.cond, test) == Normal && (s.max.Some? ==> Count(s, k) < s.max.value)
      && (|| (BegunBody(s.body, inner) && rest == Nothing)
          || (RunsBody(s.body, inner) && GoesOn(OutBody(s.body, inner), s.id) && BegunLoop(s, k + 1, rest)))
    case _ => false
  }

  /** A select that has not come to a body yet: it has entered, found nothing possible or triggered a case. */
  predicate OnTheWay(s: Stmt, k: nat, labels: seq<nat>)
    requires s.Select? && k < |s.comms|
  {
    labels == [s.enter] || labels == [s.enter, s.none] || (s.comms[k].Comm? && labels == [s.enter, s.comms[k].trigger])
  }

  predicate BegunRange(s: Stmt, r: Run)
    requires s.Range?
    decreases r, 0
  {
    r == Nothing ||
    match r
    case Stop(test) => test in [Received(s, s.over), Did(s.trigger), Then(Did(s.trigger), Did(s.confirm))]
    case Iterate(test, inner, rest) =>
      && test == Received(s, s.more)
      && (|| (BegunBody(s.body, inner) && rest == Nothing)
          || (RunsBody(s.body, inner) && GoesOn(OutBody(s.body, inner), s.id) && BegunRange(s, rest)))
    case _ => false
  }

  /** A run that is over has begun. */
  lemma {:induction false} OverBegunStmt(s: Stmt, r: Run)
    requires RunsStmt(s, r)
    ensures BegunStmt(s, r)
    decreases r, 2
  {
    match s
    case If(a, b) => OverBegun(if r.which == 0 then a else b, r.inner);
    case Switch(_, cases) =>
      OverBegunConds(FlatConds(cases, 0), r.tested);
      if r.chosen.Some? {
        OverBegunChain(cases, r.chosen.value, r.bodies);
      }
    case Select(_, _, _, comms) => OverBegun(comms[r.which].body, r.inner);
    case For(_, _, _, _, _, _) => OverBegunLoop(s, 0, r);
    case Range(_, _, _, _, _, _, _) => OverBegunRange(s, r.rest);
    case _ =>
  }

  lemma {:induction false} OverBegun(b: seq<Stmt>, r: Run)
    requires RunsBody(b, r)
    ensures BegunBody(b, r)
    decreases r, 1
  {
    if b != [] {
      if OutStmt(b[0], r.first) == Normal {
        OverBegun(b[1..], r.rest);
      } else {
        OverBegunStmt(b[0], r.first);
      }
    }
  }

  lemma {:induction false} OverBegunConds(conds: seq<Cond>, r: Run)
    requires RunsConds(conds, r)
    ensures BegunConds(conds, r)
    decreases r, 0
  {
    if r != Nothing {
      if OutBody(conds[0].body, r.first) == Normal {
        OverBegunConds(conds[1..], r.rest);
      } else {
        OverBegun(conds[0].body, r.first);
      }
    }
  }

  lemma {:induction false} OverBegunChain(cases: seq<Case>, i: nat, r: Run)
    requires RunsChain(cases, i, r)
    ensures BegunChain(cases, i, r)
    decreases r, 0
  {
    if OutBody(cases[i].body, r.first) == Normal && cases[i].hasFallthrough {
      OverBegunChain(cases, i + 1, r.rest);
    } else {
      OverBegun(cases[i].body, r.first);
    }
  }

  lemma {:induction false} OverBegunLoop(s: Stmt, k: nat, r: Run)
    requires s.For? && RunsLoop(s, k, r)
    ensures BegunLoop(s, k, r)
    decreases r, 0
  {
    match r
    case Stop(test) => OverBegun(s.cond, test);
    case Iterate(_, inner, rest) =>
      if GoesOn(OutBody(s.body, inner), s.id) {
        OverBegunLoop(s, k + 1, rest);
      } else {
        OverBegun(s.body, inner);
      }
    case _ =>
  }

  lemma {:induction false} OverBegunRange(s: Stmt, r: Run)
    requires s.Range? && RunsRange(s, r)
    ensures BegunRange(s, r)
    decreases r, 0
  {
    match r
    case Iterate(_, inner, rest) =>
      if GoesOn(OutBody(s.body, inner), s.id) {
        OverBegunRange(s, rest);
      } else {
        OverBegun(s.body, inner);
      }
    case _ =>
  }

  // ---------- Costs bound weights ----------

  lemma WithinSum(a: nat, b: nat, x: nat, y: nat)
    requires Within(a, x) && Within(b, y)
    ensures Within(a + b, Cap(x + y))
  {
  }

  /** Whatever a body does in a run that has begun is within its cost. */
  lemma {:induction false} BodyWithin(b: seq<Stmt>, r: Run, w: Weights)
    requires QuietBody(b, w) && BegunBody(b, r)
    ensures Within(Weight(r, w), CostBody(b, w))
    decreases r, 1
  {
    if r != Nothing {
      if BegunStmt(b[0], r.first) && r.rest == Nothing {
        StmtWithin(b[0], r.first, w);
        WithinSum(Weight(r.first, w), 0, CostStmt(b[0], w), CostBody(b[1..], w));
      } else {
        OverBegunStmt(b[0], r.first);
        StmtWithin(b[0], r.first, w);
        BodyWithin(b[1..], r.rest, w);
        WithinSum(Weight(r.first, w), Weight(r.rest, w), CostStmt(b[0], w), CostBody(b[1..], w));
      }
    }
  }

  lemma {:induction false} StmtWithin(s: Stmt, r: Run, w: Weights)
    requires QuietStmt(s, w) && BegunStmt(s, r)
    ensures Within(Weight(r, w), CostStmt(s, w))
    decreases r, 2
  {
    if r != Nothing {
      match s
      case If(a, b) => BodyWithin(if r.which == 0 then a else b, r.inner, w);
      case Switch(_, cases) => SwitchWithin(cases, r, w);
      case Select(_, _, _, comms) =>
        BodyWithin(comms[r.which].body, r.inner, w);
        CommWithin(comms, r.which, w);
        QuietTrace(r.labels, w);
      case For(_, _, _, _, _, _) => ForWithin(s, r, w);
      case Range(_, _, _, _, _, _, _) => RangeWithin(s, r.rest, w);
      case _ =>
    }
  }

  lemma {:induction false} QuietTrace(labels: seq<nat>, w: Weights)
    requires forall l :: l in labels ==> Get(w, l) == 0
    ensures TraceWeight(labels, w) == 0
  {
    if labels != [] {
      QuietTrace(labels[1..], w);
    }
  }

  lemma {:induction false} CommWithin(comms: seq<Comm>, k: nat, w: Weights)
    requires k < |comms|
    ensures CostBody(comms[k].body, w) <= CostComms(comms, w)
  {
    if k > 0 {
      CommWithin(comms[1..], k - 1, w);
    }
  }

  // ---------- Switch statements ----------

  lemma {:induction false} CondsWithin(conds: seq<Cond>, r: Run, w: Weights)
    requires QuietConds(conds, w) && BegunConds(conds, r)
    ensures Length(r) <= |conds| && Within(Weight(r, w), CostConds(conds[..Length(r)], w))
    decreases r, 0
  {
    hide CostStmt, CostBody, BegunBody, BegunStmt, RunsBody, RunsStmt, OutBody, OutStmt, QuietBody, SizeBodies, CondBodies;
    if r != Nothing {
      if BegunBody(conds[0].body, r.first) && r.rest == Nothing {
        BodyWithin(conds[0].body, r.first, w);
        assert conds[..1] == [conds[0]];
        OneCond(conds[0], w);
      } else {
        OverBegun(conds[0].body, r.first);
        BodyWithin(conds[0].body, r.first, w);
        CondsWithin(conds[1..], r.rest, w);
        assert conds[..Length(r)][1..] == conds[1..][..Length(r.rest)];
        WithinSum(Weight(r.first, w), Weight(r.rest, w), CostBody(conds[0].body, w), CostConds(conds[1..][..Length(r.rest)], w));
      }
    }
  }

  lemma OneCond(cond: Cond, w: Weights)
    ensures CostConds([cond], w) == CostBody(cond.body, w)
  {
    hide CostBody;
    assert [cond][1..] == [];
  }

  lemma {:induction false} ChainWithin(cases: seq<Case>, i: nat, r: Run, w: Weights)
    requires QuietCases(cases, w) && BegunChain(cases, i, r)
    ensures Within(Weight(r, w), CostChain(cases, i, w))
    decreases r, 0
  {
    if r != Nothing {
      var next := if cases[i].hasFallthrough then CostChain(cases, i + 1, w) else 0;
      if BegunBody(cases[i].body, r.first) && r.rest == Nothing {
        BodyWithin(cases[i].body, r.first, w);
        WithinSum(Weight(r.first, w), 0, CostBody(cases[i].body, w), next);
      } else {
        OverBegun(cases[i].body, r.first);
        BodyWithin(cases[i].body, r.first, w);
        ChainWithin(cases, i + 1, r.rest, w);
        WithinSum(Weight(r.first, w), Weight(r.rest, w), CostBody(cases[i].body, w), next);
      }
    }
  }

  lemma {:induction false} CondsAppend(a: seq<Cond>, b: seq<Cond>, w: Weights)
    ensures CostConds(a + b, w) == Cap(CostConds(a, w) + CostConds(b, w))
  {
    if a == [] {
      assert a + b == b;
    } else {
      assert (a + b)[1..] == a[1..] + b;
      CondsAppend(a[1..], b, w);
    }
  }

  lemma PrefixCost(conds: seq<Cond>, m: nat, w: Weights)
    requires m <= |conds|
    ensures CostConds(conds[..m], w) <= CostConds(conds, w)
  {
    assert conds == conds[..m] + conds[m..];
    CondsAppend(conds[..m], conds[m..], w);
  }

  /** The conditions that belong to case i. */
  function MyConds(cases: seq<Case>, i: nat): (mine: seq<Cond>)
    requires i < |cases|
    ensures mine != [] ==> !cases[i].isDefault
    ensures forall k :: 0 <= k < |mine| ==> mine[k].case_ == i
  {
    if cases[i].isDefault then [] else CondsOf(i, cases[i].conds)
  }

  lemma FirstPart<T>(a: seq<T>, b: seq<T>, m: nat)
    requires 0 < m <= |a|
    ensures (a + b)[..m] == a[..m] && (a + b)[m - 1] == a[m - 1]
  {
  }

  lemma SecondPart<T>(a: seq<T>, b: seq<T>, m: nat)
    requires |a| < m <= |a| + |b|
    ensures (a + b)[..m] == a + b[..m - |a|] && (a + b)[m - 1] == b[m - |a| - 1]
  {
  }

  lemma LargerSum(before: nat, x: nat, y: nat, z: nat)
    requires x <= y
    ensures Cap(before + x + z) <= Cap(Cap(before + y) + z)
  {
  }

  lemma SumAgain(before: nat, x: nat, y: nat, z: nat)
    ensures Cap(before + Cap(x + y) + z) == Cap(Cap(before + x) + y + z)
  {
  }

  /** The first m conditions and the bodies that the last of them chooses, after conditions of earlier cases. */
  predicate Covered(cases: seq<Case>, i: nat, before: nat, conds: seq<Cond>, m: nat, w: Weights)
    requires 0 < m <= |conds|
  {
    Cap(before + CostConds(conds[..m], w) + CostChain(cases, conds[m - 1].case_, w)) <= CostCases(cases, i, before, w)
  }

  /** Cost of the conditions tested up to one of case i itself, and of the bodies from i on. */
  lemma OwnCost(cases: seq<Case>, i: nat, before: nat, conds: seq<Cond>, others: seq<Cond>, m: nat, w: Weights)
    requires i < |cases| && 0 < m <= |MyConds(cases, i)| && conds == MyConds(cases, i) + others
    ensures Covered(cases, i, before, conds, m, w)
  {
    hide CostConds, CostCases, CostChain, CostBody, SizeCases, CondsOf, MyConds, Cap;
    var mine := MyConds(cases, i);
    CasesStep(cases, i, before, w);
    FirstPart(mine, others, m);
    PrefixCost(mine, m, w);
    LargerSum(before, CostConds(conds[..m], w), CostConds(mine, w), CostChain(cases, i, w));
  }

  /** Cost of all conditions of case i and of later ones up to one of case j, and of the bodies from j on. */
  lemma LaterCost(cases: seq<Case>, i: nat, before: nat, conds: seq<Cond>, others: seq<Cond>, k: nat, w: Weights)
    requires i < |cases| && 0 < k <= |others| && conds == MyConds(cases, i) + others
    requires Covered(cases, i + 1, Cap(before + CostConds(MyConds(cases, i), w)), others, k, w)
    ensures Covered(cases, i, before, conds, |MyConds(cases, i)| + k, w)
  {
    hide CostConds, CostCases, CostChain, CostBody, SizeCases, CondsOf, MyConds, Cap;
    var mine := MyConds(cases, i);
    CasesStep(cases, i, before, w);
    SecondPart(mine, others, |mine| + k);
    CondsAppend(mine, others[..k], w);
    SumAgain(before, CostConds(mine, w), CostConds(others[..k], w), CostChain(cases, others[k - 1].case_, w));
  }

  /** The conditions tested up to one of case j, and the bodies from j on, cost at most what is counted. */
  lemma {:induction false} CaseCost(cases: seq<Case>, i: nat, before: nat, m: nat, w: Weights)
    requires i < |cases| && 0 < m <= |FlatConds(cases[i..], i)|
    ensures Covered(cases, i, before, FlatConds(cases[i..], i), m, w)
    decreases |cases| - i
  {
    hide Covered, FlatConds, CostConds, CostCases, CostChain, CostBody, SizeCases, CondsOf, MyConds, Cap;
    FlatStep(cases, i);
    var conds, mine, others := FlatConds(cases[i..], i), MyConds(cases, i), FlatConds(cases[i + 1..], i + 1);
    if m <= |mine| {
      OwnCost(cases, i, before, conds, others, m, w);
    } else {
      FlatStep(cases, i + 1);
      CaseCost(cases, i + 1, Cap(before + CostConds(mine, w)), m - |mine|, w);
      LaterCost(cases, i, before, conds, others, m - |mine|, w);
    }
  }

  lemma CasesStep(cases: seq<Case>, i: nat, before: nat, w: Weights)
    requires i < |cases|
    ensures var mine := MyConds(cases, i);
            && CostCases(cases, i + 1, Cap(before + CostConds(mine, w)), w) <= CostCases(cases, i, before, w)
            && (!cases[i].isDefault ==>
                  Cap(Cap(before + CostConds(mine, w)) + CostChain(cases, i, w)) <= CostCases(cases, i, before, w))
  {
    hide CostConds, CostChain, CostBody, SizeCases, CondsOf, SizeBody, FlatConds;
    NoCost(w);
    if cases[i].isDefault && before > MAX_CALL_COUNTS {
      CappedBefore(cases, i + 1, before, w);
    }
  }

  lemma {:induction false} CappedBefore(cases: seq<Case>, i: nat, before: nat, w: Weights)
    ensures CostCases(cases, i, Cap(before), w) == CostCases(cases, i, before, w)
    decreases |cases| - i
  {
    if i < |cases| && cases[i].isDefault {
      CappedBefore(cases, i + 1, before, w);
    }
  }

  lemma NoCost(w: Weights)
    ensures CostConds([], w) == 0
  {
  }

  lemma {:induction false} FlatStep(cases: seq<Case>, i: nat)
    requires i <= |cases|
    ensures i == |cases| ==> FlatConds(cases[i..], i) == []
    ensures i < |cases| ==>
              FlatConds(cases[i..], i) == MyConds(cases, i) + FlatConds(cases[i + 1..], i + 1)
  {
    if i < |cases| {
      assert cases[i..][1..] == cases[i + 1..] && cases[i..][0] == cases[i];
    }
  }

  lemma WithinMore(n: nat, c: nat, d: nat)
    requires Within(n, c) && c <= d
    ensures Within(n, d)
  {
  }

  /** The cost of a switch covers the conditions tested so far, with the bodies of the case they choose, and
      all conditions with the bodies of the default. */
  lemma SwitchCost(cases: seq<Case>, m: nat, w: Weights)
    requires m <= |FlatConds(cases, 0)|
    ensures var conds := FlatConds(cases, 0);
            && CostConds(conds[..m], w) <= CostSwitch(cases, w)
            && (m > 0 ==> Cap(CostConds(conds[..m], w) + CostChain(cases, conds[m - 1].case_, w)) <= CostSwitch(cases, w))
            && (DefaultCase(cases).Some? ==>
                  Cap(CostConds(conds, w) + CostChain(cases, DefaultCase(cases).value, w)) <= CostSwitch(cases, w))
  {
    hide CostCases, CostChain, CostConds, FlatConds, DefaultCase;
    assert cases[0..] == cases;
    if 0 < m {
      NoConds(cases);
      CaseCost(cases, 0, 0, m, w);
    } else {
      assert FlatConds(cases, 0)[..m] == [];
      NoCost(w);
    }
  }

  lemma NoConds(cases: seq<Case>)
    ensures cases == [] ==> FlatConds(cases, 0) == []
  {
  }

  lemma SwitchWithin(cases: seq<Case>, r: Run, w: Weights)
    requires r.Matched? && QuietCases(cases, w) && BegunSwitch(cases, r)
    ensures Within(Weight(r, w), CostSwitch(cases, w))
    decreases r, 1
  {
    hide QuietCases, QuietConds, CostSwitch, CostCases, CostChain, CostConds, CostBody, BegunConds, BegunChain, RunsConds, OutConds,
      FlatConds, DefaultCase, BegunBody, BegunStmt, RunsStmt, RunsBody, CostStmt, SizeCases, OutBody, OutStmt, Within, Cap;
    var conds, m := FlatConds(cases, 0), Length(r.tested);
    FlatQuiet(cases, 0, w);
    CondsWithin(conds, r.tested, w);
    SwitchCost(cases, m, w);
    if r.chosen.Some? {
      var j := r.chosen.value;
      ChainWithin(cases, j, r.bodies, w);
      WithinSum(Weight(r.tested, w), Weight(r.bodies, w), CostConds(conds[..m], w), CostChain(cases, j, w));
      assert conds[..|conds|] == conds;
      assert m == 0 || conds[m - 1].case_ != j ==> DefaultCase(cases) == Some(j) && m == |conds|;
      assert Weight(r, w) == Weight(r.tested, w) + Weight(r.bodies, w);
      assert Cap(CostConds(conds[..m], w) + CostChain(cases, j, w)) <= CostSwitch(cases, w);
      WithinMore(Weight(r, w), Cap(CostConds(conds[..m], w) + CostChain(cases, j, w)), CostSwitch(cases, w));
    } else {
      assert Weight(r, w) == Weight(r.tested, w);
      WithinMore(Weight(r, w), CostConds(conds[..m], w), CostSwitch(cases, w));
    }
  }

  // ---------- Loops ----------

  lemma {:induction false} BegunPasses(s: Stmt, k: nat, r: Run)
    requires s.For? && s.max.Some? && BegunLoop(s, k, r) && k <= s.max.value
    ensures k + Passes(r) <= s.max.value
    decreases r
  {
    if r.Iterate? && r.rest != Nothing {
      BegunPasses(s, k + 1, r.rest);
    }
  }

  /** A loop tests its condition once more than it makes passes, at most. */
  lemma {:induction false} LoopWithin(s: Stmt, k: nat, r: Run, w: Weights)
    requires s.For? && QuietBody(s.cond, w) && QuietBody(s.body, w) && BegunLoop(s, k, r)
    requires CostBody(s.cond, w) < MAX_CALL_COUNTS && (CostBody(s.body, w) < MAX_CALL_COUNTS || Passes(r) == 0)
    ensures Weight(r, w) <= CostBody(s.cond, w) * (Passes(r) + 1) + CostBody(s.body, w) * Passes(r)
    decreases r, 0
  {
    hide CostBody, QuietBody, BegunBody, RunsBody, OutBody;
    var c, b := CostBody(s.cond, w), CostBody(s.body, w);
    match r
    case Stop(test) => BodyWithin(s.cond, test, w);
    case Iterate(test, inner, rest) =>
      OverBegun(s.cond, test);
      BodyWithin(s.cond, test, w);
      if BegunBody(s.body, inner) && rest == Nothing {
        BodyWithin(s.body, inner, w);
      } else {
        OverBegun(s.body, inner);
        BodyWithin(s.body, inner, w);
        LoopWithin(s, k + 1, rest, w);
      }
      MorePasses(c, b, Passes(rest));
    case _ =>
  }

  lemma MorePasses(c: nat, b: nat, n: nat)
    ensures c + b + (c * (n + 1) + b * n) == c * (n + 2) + b * (n + 1)
    ensures c + b <= c * (n + 2) + b * (n + 1)
  {
    assert c * (n + 2) == c * n + 2 * c && b * (n + 1) == b * n + b && c * (n + 1) == c * n + c;
    assert c * n >= 0 && b * n >= 0;
  }

  lemma ProductGrows(c: nat, m: nat, n: nat)
    requires m <= n
    ensures c * m <= c * n
  {
  }

  lemma AtCap(c: nat, f: nat)
    requires c >= MAX_CALL_COUNTS && f >= 1
    ensures Cap(c * f) == MAX_CALL_COUNTS
  {
    assert c * f >= c;
  }

  lemma LoopCost(n: nat, c: nat, b: nat, passes: nat, f: nat)
    requires passes <= f && n <= c * (passes + 1) + b * passes
    ensures Within(n, Cap(Cap(c * (f + 1)) + Cap(b * f)))
  {
    ProductGrows(c, passes + 1, f + 1);
    ProductGrows(b, passes, f);
  }

  /** A loop without a maximum costs nothing, if neither its condition nor its body does anything, or the cap. */
  lemma UnboundedCost(c: nat, b: nat)
    requires c > 0 || b > 0
    ensures Cap(Cap(c * (MAX_CALL_COUNTS + 1)) + Cap(b * MAX_CALL_COUNTS)) == MAX_CALL_COUNTS
  {
  }

  lemma AtCapLoop(c: nat, b: nat, f: nat)
    requires c >= MAX_CALL_COUNTS || (b >= MAX_CALL_COUNTS && f >= 1)
    ensures Cap(Cap(c * (f + 1)) + Cap(b * f)) == MAX_CALL_COUNTS
  {
    if c >= MAX_CALL_COUNTS { AtCap(c, f + 1); } else { AtCap(b, f); }
  }

  lemma ForWithin(s: Stmt, r: Run, w: Weights)
    requires s.For? && QuietStmt(s, w) && BegunLoop(s, 0, r)
    ensures Within(Weight(r, w), CostStmt(s, w))
    decreases r, 1
  {
    hide CostBody, QuietBody, BegunBody, BegunLoop, BegunStmt, RunsBody, OutBody, Passes, Weight, Within, Cap;
    var c, b, f := CostBody(s.cond, w), CostBody(s.body, w), if s.max.Some? then s.max.value else MAX_CALL_COUNTS;
    assert CostStmt(s, w) == Cap(Cap(c * (f + 1)) + Cap(b * f));
    if c >= MAX_CALL_COUNTS || (b >= MAX_CALL_COUNTS && f >= 1) {
      AtCapLoop(c, b, f);
      WithinCap(Weight(r, w));
    } else if s.max.Some? {
      BegunPasses(s, 0, r);
      LoopWithin(s, 0, r, w);
      LoopCost(Weight(r, w), c, b, Passes(r), f);
    } else if c > 0 || b > 0 {
      UnboundedCost(c, b);
      WithinCap(Weight(r, w));
    } else {
      LoopWithin(s, 0, r, w);
      LoopCost(Weight(r, w), c, b, 0, f);
    }
  }

  lemma WithinCap(n: nat)
    ensures Within(n, MAX_CALL_COUNTS)
  {
  }

  lemma ReceivingIsQuiet(s: Stmt, test: Run, w: Weights)
    requires s.Range? && QuietStmt(s, w)
    requires test in [Received(s, s.over), Received(s, s.more), Did(s.trigger), Then(Did(s.trigger), Did(s.confirm))]
    ensures Weight(test, w) == 0
  {
    assert Weight(Did(s.trigger), w) == 0 && Weight(Did(s.confirm), w) == 0;
    assert Weight(Did(s.over), w) == 0 && Weight(Did(s.more), w) == 0;
    assert Weight(Then(Did(s.confirm), Did(s.over)), w) == 0;
    assert Weight(Then(Did(s.confirm), Did(s.more)), w) == 0;
  }

  /** Where the body of a range loop does nothing, the loop does nothing. */
  lemma {:induction false} RangeNothing(s: Stmt, r: Run, w: Weights)
    requires s.Range? && QuietStmt(s, w) && BegunRange(s, r) && CostBody(s.body, w) == 0
    ensures Weight(r, w) == 0
    decreases r, 0
  {
    match r
    case Stop(test) => ReceivingIsQuiet(s, test, w);
    case Iterate(test, inner, rest) =>
      ReceivingIsQuiet(s, test, w);
      if BegunBody(s.body, inner) && rest == Nothing {
        BodyWithin(s.body, inner, w);
      } else {
        OverBegun(s.body, inner);
        BodyWithin(s.body, inner, w);
        RangeNothing(s, rest, w);
      }
    case _ =>
  }

  lemma RangeWithin(s: Stmt, r: Run, w: Weights)
    requires s.Range? && QuietStmt(s, w) && BegunRange(s, r)
    ensures Within(Weight(r, w), CostStmt(s, w))
    decreases r, 1
  {
    if CostBody(s.body, w) > 0 {
      AtCap(MAX_CALL_COUNTS, CostBody(s.body, w));
    } else {
      RangeNothing(s, r, w);
    }
  }

  /** The labels a body passes in a run, whether over or not, weigh no more than its cost below the cap. */
  lemma CostIsBound(b: seq<Stmt>, r: Run, w: Weights)
    requires QuietBody(b, w) && BegunBody(b, r)
    ensures Within(TraceWeight(Trace(r), w), CostBody(b, w))
  {
    WeightOfTrace(r, w);
    BodyWithin(b, r, w);
  }
}
