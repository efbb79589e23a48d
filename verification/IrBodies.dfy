/** Structured statements, the runs they have, and the traces of these runs. */
module IrBodies {

  /** A statement list. Basic statements and returns are opaque and known by a label; branch statements
      name the statement they leave or continue. */
  datatype Stmt =
    | Basic(label_: nat)
    | If(ifBranch: seq<Stmt>, elseBranch: seq<Stmt>)
    | Switch(id: nat, cases: seq<Case>)
    | Select(id: nat, enter: nat, none: nat, comms: seq<Comm>)
    | For(id: nat, cond: seq<Stmt>, body: seq<Stmt>, infinite: bool, min: Option<nat>, max: Option<nat>)
    | Range(id: nat, enter: nat, trigger: nat, confirm: nat, more: nat, over: nat, body: seq<Stmt>)
    | Break(id: nat)
    | Continue(id: nat)
    | Return(label_: nat)

  datatype Option<T> = None | Some(value: T)

  datatype Case = Case(conds: seq<Test>, body: seq<Stmt>, isDefault: bool, hasFallthrough: bool)

  /** A condition of a case, as statements. */
  datatype Test = Test(body: seq<Stmt>)

  /** A communication of a select statement, which is triggered and confirmed, or its default, and the body that follows. */
  datatype Comm = Comm(trigger: nat, confirm: nat, body: seq<Stmt>) | Default(body: seq<Stmt>)

  datatype Outcome = Normal | BreakTo(id: nat) | ContinueTo(id: nat) | Returned

  /** One way through a statement: the choices it makes and the labels it passes. */
  datatype Run =
    | Nothing
    | Did(label_: nat)
    | Jump
    | Then(first: Run, rest: Run)
    | Pick(which: nat, labels: seq<nat>, inner: Run)
    | Matched(tested: Run, chosen: Option<nat>, bodies: Run)
    | Iterate(test: Run, inner: Run, rest: Run)
    | Stop(test: Run)

  /** The labels a run passes, in order. */
  function Trace(r: Run): seq<nat> {
    match r
    case Nothing => []
    case Did(l) => [l]
    case Jump => []
    case Then(a, b) => Trace(a) + Trace(b)
    case Pick(_, ls, a) => ls + Trace(a)
    case Matched(a, _, b) => Trace(a) + Trace(b)
    case Iterate(a, b, c) => Trace(a) + Trace(b) + Trace(c)
    case Stop(a) => Trace(a)
  }

  // ---------- Sizes ----------

  function SizeStmt(s: Stmt): (n: nat)
    ensures n >= 1
  {
    match s
    case If(a, b) => 1 + SizeBody(a) + SizeBody(b)
    case Switch(_, cases) => 1 + SizeCases(cases)
    case Select(_, _, _, comms) => 1 + SizeComms(comms)
    case For(_, cond, body, _, _, _) => 1 + SizeBody(cond) + SizeBody(body)
    case Range(_, _, _, _, _, _, body) => 1 + SizeBody(body)
    case _ => 1
  }

  function SizeBody(b: seq<Stmt>): nat {
    if b == [] then 0 else SizeStmt(b[0]) + SizeBody(b[1..])
  }

  function SizeBodies(bs: seq<seq<Stmt>>): nat {
    if bs == [] then 0 else SizeBody(bs[0]) + SizeBodies(bs[1..])
  }

  function SizeTests(tests: seq<Test>): nat {
    if tests == [] then 0 else SizeBody(tests[0].body) + SizeTests(tests[1..])
  }

  function SizeCases(cases: seq<Case>): nat {
    if cases == [] then 0 else SizeTests(cases[0].conds) + SizeBody(cases[0].body) + SizeCases(cases[1..])
  }

  function SizeComms(comms: seq<Comm>): nat {
    if comms == [] then 0 else SizeBody(comms[0].body) + SizeComms(comms[1..])
  }

  function CommBodies(comms: seq<Comm>): (bs: seq<seq<Stmt>>)
    ensures |bs| == |comms| && forall k :: 0 <= k < |comms| ==> bs[k] == comms[k].body
    ensures SizeBodies(bs) == SizeComms(comms)
  {
    if comms == [] then [] else [comms[0].body] + CommBodies(comms[1..])
  }

  function CaseBodies(cases: seq<Case>): (bs: seq<seq<Stmt>>)
    ensures |bs| == |cases| && forall k :: 0 <= k < |cases| ==> bs[k] == cases[k].body
    ensures SizeBodies(bs) <= SizeCases(cases)
  {
    if cases == [] then [] else [cases[0].body] + CaseBodies(cases[1..])
  }

  // ---------- Conditions of a switch statement ----------

  datatype Cond = Cond(case_: nat, body: seq<Stmt>)

  function CondsOf(i: nat, tests: seq<Test>): (cs: seq<Cond>)
    ensures |cs| == |tests| && forall k :: 0 <= k < |cs| ==> cs[k] == Cond(i, tests[k].body)
    ensures SizeBodies(CondBodies(cs)) == SizeTests(tests)
  {
    if tests == [] then [] else [Cond(i, tests[0].body)] + CondsOf(i, tests[1..])
  }

  function CondBodies(conds: seq<Cond>): (bs: seq<seq<Stmt>>)
    ensures |bs| == |conds| && forall k :: 0 <= k < |conds| ==> bs[k] == conds[k].body
  {
    if conds == [] then [] else [conds[0].body] + CondBodies(conds[1..])
  }

  lemma {:induction false} SizeAppend(a: seq<Cond>, b: seq<Cond>)
    ensures SizeBodies(CondBodies(a + b)) == SizeBodies(CondBodies(a)) + SizeBodies(CondBodies(b))
  {
    if a == [] {
      assert a + b == b;
    } else {
      assert (a + b)[1..] == a[1..] + b;
      SizeAppend(a[1..], b);
    }
  }

  /** The conditions of all cases but the default, in the order they are tested; the first case is case i. */
  function FlatConds(cases: seq<Case>, i: nat): (cs: seq<Cond>)
    ensures SizeBodies(CondBodies(cs)) <= SizeCases(cases)
    ensures forall k :: 0 <= k < |cs| ==> i <= cs[k].case_ < i + |cases|
  {
    if cases == [] then []
    else
      var mine := if cases[0].isDefault then [] else CondsOf(i, cases[0].conds);
      var others := FlatConds(cases[1..], i + 1);
      SizeAppend(mine, others);
      mine + others
  }

  /** The last default case, if there is one. */
  function DefaultCase(cases: seq<Case>): Option<nat> {
    if cases == [] then None
    else if cases[|cases| - 1].isDefault then Some(|cases| - 1)
    else DefaultCase(cases[..|cases| - 1])
  }

  // ---------- Outcomes ----------

  /** The passes of a loop with a maximum are counted, those of other loops are not. */
  function Count(s: Stmt, k: nat): nat
    requires s.For?
  {
    if s.max.Some? then k else 0
  }

  function Leave(out: Outcome, id: nat): Outcome {
    if out == BreakTo(id) then Normal else out
  }

  predicate GoesOn(out: Outcome, id: nat) { out == Normal || out == ContinueTo(id) }

  /** The outcome of a run, for runs the statement has. */
  function OutStmt(s: Stmt, r: Run): Outcome
    decreases r, 2
  {
    match s
    case Basic(_) => Normal
    case If(a, b) => if r.Pick? then OutBody(if r.which == 0 then a else b, r.inner) else Normal
    case Switch(id, cases) =>
      if !r.Matched? then Normal
      else if OutConds(FlatConds(cases, 0), r.tested) != Normal then OutConds(FlatConds(cases, 0), r.tested)
      else if r.chosen.Some? then Leave(OutChain(cases, r.chosen.value, r.bodies), id) else Normal
    case Select(id, _, _, comms) =>
      if r.Pick? && r.which < |comms| then Leave(OutBody(comms[r.which].body, r.inner), id) else Normal
    case For(_, _, _, _, _, _) => OutLoop(s, r)
    case Range(_, _, _, _, _, _, _) => if r.Then? then OutLoop(s, r.rest) else Normal
    case Break(id) => BreakTo(id)
    case Continue(id) => ContinueTo(id)
    case Return(_) => Returned
  }

  function OutBody(b: seq<Stmt>, r: Run): Outcome
    decreases r, 1
  {
    if b == [] || !r.Then? then Normal
    else if OutStmt(b[0], r.first) != Normal then OutStmt(b[0], r.first)
    else OutBody(b[1..], r.rest)
  }

  /** The outcome of the last condition tested. */
  function OutConds(conds: seq<Cond>, r: Run): Outcome
    decreases r, 0
  {
    if conds == [] || !r.Then? then Normal
    else if OutBody(conds[0].body, r.first) != Normal then OutBody(conds[0].body, r.first)
    else OutConds(conds[1..], r.rest)
  }

  /** The outcome of the bodies from case i on. */
  function OutChain(cases: seq<Case>, i: nat, r: Run): Outcome
    decreases r, 0
  {
    if i >= |cases| || !r.Then? then Normal
    else if OutBody(cases[i].body, r.first) != Normal || !cases[i].hasFallthrough then OutBody(cases[i].body, r.first)
    else OutChain(cases, i + 1, r.rest)
  }

  function OutLoop(s: Stmt, r: Run): Outcome
    requires s.For? || s.Range?
    decreases r, 0
  {
    match r
    case Stop(test) => if s.For? then OutBody(s.cond, test) else Normal
    case Iterate(test, inner, rest) =>
      if GoesOn(OutBody(s.body, inner), s.id) then OutLoop(s, rest) else Leave(OutBody(s.body, inner), s.id)
    case _ => Normal
  }

  // ---------- Runs of a statement ----------

  predicate HasDefault(comms: seq<Comm>) { exists k :: 0 <= k < |comms| && comms[k].Default? }

  /** The labels on the way to body k of a select: it enters a first pass over all channels, in which one that is
      possible is triggered and confirmed; if none is possible, it takes the default or, if there is none, waits for a
      confirmation in a second pass. */
  predicate Takes(s: Stmt, k: nat, labels: seq<nat>)
    requires s.Select? && k < |s.comms|
  {
    match s.comms[k]
    case Default(_) => labels == [s.enter, s.none]
    case Comm(trigger, confirm, _) =>
      labels == [s.enter, trigger, confirm] || (!HasDefault(s.comms) && labels == [s.enter, s.none, confirm])
  }

  predicate RunsStmt(s: Stmt, r: Run)
    decreases r, 2
  {
    match s
    case Basic(l) => r == Did(l)
    case If(a, b) => r.Pick? && r.labels == [] && r.which < 2 && RunsBody(if r.which == 0 then a else b, r.inner)
    case Switch(_, cases) => r.Matched? && RunsSwitch(cases, r)
    case Select(_, _, _, comms) => r.Pick? && r.which < |comms| && Takes(s, r.which, r.labels) && RunsBody(comms[r.which].body, r.inner)
    case For(_, _, _, _, _, _) => RunsLoop(s, 0, r)
    case Range(_, enter, _, _, _, _, _) => r.Then? && r.first == Did(enter) && RunsRange(s, r.rest)
    case Break(_) => r == Jump
    case Continue(_) => r == Jump
    case Return(l) => r == Did(l)
  }

  predicate RunsBody(b: seq<Stmt>, r: Run)
    decreases r, 1
  {
    if b == [] then r == Nothing
    else
      && r.Then? && RunsStmt(b[0], r.first)
      && (if OutStmt(b[0], r.first) == Normal then RunsBody(b[1..], r.rest) else r.rest == Nothing)
  }

  /** Conditions are tested in order until one holds; the default is chosen if none does; from the chosen
      case on, bodies run as long as they fall through. */
  predicate RunsSwitch(cases: seq<Case>, r: Run)
    requires r.Matched?
    decreases r, 1
  {
    var conds := FlatConds(cases, 0);
    && RunsConds(conds, r.tested)
    && (if OutConds(conds, r.tested) != Normal then
          r.chosen.None? && r.bodies == Nothing
        else
          && (r.chosen.Some? ==>
                && r.chosen.value < |cases|
                && (|| (0 < Length(r.tested) <= |conds| && conds[Length(r.tested) - 1].case_ == r.chosen.value)
                    || (Length(r.tested) == |conds| && DefaultCase(cases) == r.chosen))
                && RunsChain(cases, r.chosen.value, r.bodies))
          && (r.chosen.None? ==> Length(r.tested) == |conds| && DefaultCase(cases).None? && r.bodies == Nothing))
  }

  function Length(r: Run): nat { if r.Then? then 1 + Length(r.rest) else 0 }

  predicate RunsConds(conds: seq<Cond>, r: Run)
    decreases r, 0
  {
    r == Nothing
    || (&& r.Then? && conds != [] && RunsBody(conds[0].body, r.first)
        && (if OutBody(conds[0].body, r.first) == Normal then RunsConds(conds[1..], r.rest) else r.rest == Nothing))
  }

  predicate RunsChain(cases: seq<Case>, i: nat, r: Run)
    decreases r, 0
  {
    && i < |cases| && r.Then? && RunsBody(cases[i].body, r.first)
    && (if OutBody(cases[i].body, r.first) == Normal && cases[i].hasFallthrough then RunsChain(cases, i + 1, r.rest)
        else r.rest == Nothing)
  }

  /** A loop that has made k passes. */
  predicate RunsLoop(s: Stmt, k: nat, r: Run)
    requires s.For?
    decreases r, 0
  {
    match r
    case Stop(test) =>
      RunsBody(s.cond, test)
      && (OutBody(s.cond, test) == Normal ==> !s.infinite && (s.min.Some? ==> Count(s, k) >= s.min.value))
    case Iterate(test, inner, rest) =>
      && RunsBody(s.cond, test) && OutBody(s.cond, test) == Normal
      && (s.max.Some? ==> Count(s, k) < s.max.value) && RunsBody(s.body, inner)
      && (if GoesOn(OutBody(s.body, inner), s.id) then RunsLoop(s, k + 1, rest) else rest == Nothing)
    case _ => false
  }

  /** Each test of a loop over a channel receives: it triggers the operation, awaits its confirmation and looks at the result. */
  function Received(s: Stmt, result: nat): Run
    requires s.Range?
  {
    Then(Did(s.trigger), Then(Did(s.confirm), Did(result)))
  }

  lemma ReceivedTrace(s: Stmt, result: nat)
    requires s.Range?
    ensures Trace(Received(s, result)) == [s.trigger, s.confirm, result]
  {
    assert Trace(Then(Did(s.confirm), Did(result))) == [s.confirm] + [result];
  }

  lemma PassTrace(s: Stmt, inner: Run, rest: Run)
    requires s.Range?
    ensures Trace(Stop(Received(s, s.over))) == [s.trigger, s.confirm] + [s.over]
    ensures Trace(Iterate(Received(s, s.more), inner, rest)) == [s.trigger, s.confirm] + ([s.more] + Trace(inner) + Trace(rest))
  {
    ReceivedTrace(s, s.over);
    ReceivedTrace(s, s.more);
    assert [s.trigger, s.confirm, s.more] + Trace(inner) + Trace(rest)
           == [s.trigger, s.confirm] + ([s.more] + Trace(inner) + Trace(rest));
  }

  predicate RunsRange(s: Stmt, r: Run)
    requires s.Range?
    decreases r, 0
  {
    match r
    case Stop(test) => test == Received(s, s.over)
    case Iterate(test, inner, rest) =>
      && test == Received(s, s.more) && RunsBody(s.body, inner)
      && (if GoesOn(OutBody(s.body, inner), s.id) then RunsRange(s, rest) else rest == Nothing)
    case _ => false
  }

  // ---------- Branch targets ----------

  /** Branch statements name enclosing statements that they may leave or continue, and the last case of a
      switch does not fall through. */
  predicate ResolvedStmt(s: Stmt, bs: set<nat>, cs: set<nat>)
    decreases s
  {
    match s
    case If(a, b) => ResolvedBody(a, bs, cs) && ResolvedBody(b, bs, cs)
    case Switch(id, cases) => ResolvedCases(cases, id, bs, cs)
    case Select(id, _, _, comms) => ResolvedComms(comms, bs + {id}, cs - {id})
    case For(id, cond, body, _, _, _) => ResolvedBody(cond, bs - {id}, cs - {id}) && ResolvedBody(body, bs + {id}, cs + {id})
    case Range(id, _, _, _, _, _, body) => ResolvedBody(body, bs + {id}, cs + {id})
    case Break(id) => id in bs
    case Continue(id) => id in cs
    case _ => true
  }

  predicate ResolvedBody(b: seq<Stmt>, bs: set<nat>, cs: set<nat>)
    decreases b
  {
    forall i :: 0 <= i < |b| ==> ResolvedStmt(b[i], bs, cs)
  }

  predicate ResolvedTests(tests: seq<Test>, bs: set<nat>, cs: set<nat>)
    decreases tests
  {
    forall i :: 0 <= i < |tests| ==> ResolvedBody(tests[i].body, bs, cs)
  }

  predicate ResolvedCases(cases: seq<Case>, id: nat, bs: set<nat>, cs: set<nat>)
    decreases cases
  {
    && (forall i :: 0 <= i < |cases| ==> ResolvedTests(cases[i].conds, bs - {id}, cs - {id}))
    && (forall i :: 0 <= i < |cases| ==> ResolvedBody(cases[i].body, bs + {id}, cs - {id}))
    && (cases != [] ==> !cases[|cases| - 1].hasFallthrough)
  }

  predicate ResolvedComms(comms: seq<Comm>, bs: set<nat>, cs: set<nat>)
    decreases comms
  {
    forall i :: 0 <= i < |comms| ==> ResolvedBody(comms[i].body, bs, cs)
  }

  predicate ResolvedBodies(bodies: seq<seq<Stmt>>, bs: set<nat>, cs: set<nat>) {
    forall i :: 0 <= i < |bodies| ==> ResolvedBody(bodies[i], bs, cs)
  }

  lemma {:induction false} CondsResolved(cases: seq<Case>, i: nat, bs: set<nat>, cs: set<nat>)
    requires forall j :: 0 <= j < |cases| ==> ResolvedTests(cases[j].conds, bs, cs)
    ensures ResolvedBodies(CondBodies(FlatConds(cases, i)), bs, cs)
    ensures forall k :: 0 <= k < |FlatConds(cases, i)| ==> ResolvedBody(FlatConds(cases, i)[k].body, bs, cs)
  {
    if cases != [] {
      CondsResolved(cases[1..], i + 1, bs, cs);
      assert ResolvedTests(cases[0].conds, bs, cs);
      assert forall j :: 0 <= j < |cases[0].conds| ==> ResolvedBody(cases[0].conds[j].body, bs, cs);
    }
  }

  predicate OutIn(out: Outcome, bs: set<nat>, cs: set<nat>) {
    (out.BreakTo? ==> out.id in bs) && (out.ContinueTo? ==> out.id in cs)
  }

  /** Outcomes name the enclosing statements that branch statements name. */
  lemma {:induction false} OutStmtIn(s: Stmt, r: Run, bs: set<nat>, cs: set<nat>)
    requires ResolvedStmt(s, bs, cs)
    ensures OutIn(OutStmt(s, r), bs, cs)
    decreases r, 2
  {
    match s
    case If(a, b) => if r.Pick? { OutBodyIn(if r.which == 0 then a else b, r.inner, bs, cs); }
    case Switch(id, cases) =>
      if r.Matched? {
        CondsResolved(cases, 0, bs - {id}, cs - {id});
        OutCondsIn(FlatConds(cases, 0), r.tested, bs - {id}, cs - {id});
        if r.chosen.Some? {
          OutChainIn(cases, r.chosen.value, r.bodies, id, bs, cs);
        }
      }
    case Select(id, _, _, comms) => if r.Pick? && r.which < |comms| { OutBodyIn(comms[r.which].body, r.inner, bs + {id}, cs - {id}); }
    case For(_, _, _, _, _, _) => OutLoopIn(s, r, bs, cs);
    case Range(_, _, _, _, _, _, _) => if r.Then? { OutLoopIn(s, r.rest, bs, cs); }
    case _ =>
  }

  lemma {:induction false} OutBodyIn(b: seq<Stmt>, r: Run, bs: set<nat>, cs: set<nat>)
    requires ResolvedBody(b, bs, cs)
    ensures OutIn(OutBody(b, r), bs, cs)
    decreases r, 1
  {
    if b != [] && r.Then? {
      OutStmtIn(b[0], r.first, bs, cs);
      OutBodyIn(b[1..], r.rest, bs, cs);
    }
  }

  lemma {:induction false} OutCondsIn(conds: seq<Cond>, r: Run, bs: set<nat>, cs: set<nat>)
    requires forall k :: 0 <= k < |conds| ==> ResolvedBody(conds[k].body, bs, cs)
    ensures OutIn(OutConds(conds, r), bs, cs)
    decreases r, 0
  {
    if conds != [] && r.Then? {
      OutBodyIn(conds[0].body, r.first, bs, cs);
      OutCondsIn(conds[1..], r.rest, bs, cs);
    }
  }

  lemma {:induction false} OutChainIn(cases: seq<Case>, i: nat, r: Run, id: nat, bs: set<nat>, cs: set<nat>)
    requires ResolvedCases(cases, id, bs, cs)
    ensures OutIn(OutChain(cases, i, r), bs + {id}, cs)
    decreases r, 0
  {
    if i < |cases| && r.Then? {
      OutBodyIn(cases[i].body, r.first, bs + {id}, cs - {id});
      OutChainIn(cases, i + 1, r.rest, id, bs, cs);
    }
  }

  lemma {:induction false} OutLoopIn(s: Stmt, r: Run, bs: set<nat>, cs: set<nat>)
    requires (s.For? || s.Range?) && ResolvedStmt(s, bs, cs)
    ensures OutIn(OutLoop(s, r), bs, cs)
    decreases r, 0
  {
    match r
    case Stop(test) => if s.For? { OutBodyIn(s.cond, test, bs - {s.id}, cs - {s.id}); }
    case Iterate(_, inner, rest) =>
      OutBodyIn(s.body, inner, bs + {s.id}, cs + {s.id});
      OutLoopIn(s, rest, bs, cs);
    case _ =>
  }

  // ---------- Passes of a loop ----------

  function Passes(r: Run): nat { if r.Iterate? then 1 + Passes(r.rest) else 0 }

  /** The run of a loop ends with the test of its condition. */
  predicate EndsAtTest(s: Stmt, r: Run)
    requires s.For?
  {
    match r
    case Stop(test) => OutBody(s.cond, test) == Normal
    case Iterate(_, _, rest) => EndsAtTest(s, rest)
    case _ => false
  }

  /** A loop with a maximum makes between min and max passes where it ends normally, and never more than max. */
  lemma {:induction false} PassesBounded(s: Stmt, k: nat, r: Run)
    requires s.For? && s.max.Some? && RunsLoop(s, k, r) && k <= s.max.value
    ensures k + Passes(r) <= s.max.value
    ensures EndsAtTest(s, r) && s.min.Some? ==> s.min.value <= k + Passes(r)
    decreases r
  {
    if r.Iterate? && GoesOn(OutBody(s.body, r.inner), s.id) {
      PassesBounded(s, k + 1, r.rest);
    } else if r.Iterate? {
      assert r.rest == Nothing && !EndsAtTest(s, Nothing);
    }
  }

  /** Without a maximum nothing is counted: with a positive minimum the loop never ends at its test. */
  lemma {:induction false} UncountedNeverEnds(s: Stmt, k: nat, r: Run)
    requires s.For? && s.max.None? && s.min.Some? && s.min.value > 0 && RunsLoop(s, k, r)
    ensures !EndsAtTest(s, r)
    decreases r
  {
    if r.Iterate? && GoesOn(OutBody(s.body, r.inner), s.id) {
      UncountedNeverEnds(s, k + 1, r.rest);
    }
  }
}
