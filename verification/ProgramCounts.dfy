/** Counts for whole programs: from the bodies of functions to what can happen in a run of the program. */
module ProgramCounts {
  import opened FuncGraphs
  import opened CallGraphs
  import opened IrBodies
  import opened CallTrees
  import opened CallCounts
  import opened BodyCounts
  import opened CallsInfos

  datatype Program = Program(bodies: map<Func, seq<Stmt>>, actions: Actions)

  // ---------- Runs of a program ----------

  /** The operations performed by the statements of a trace. */
  function OpsOn(tr: seq<nat>, p: Actions): seq<Op> {
    if tr == [] then [] else (if tr[0] in p then p[tr[0]].ops else []) + OpsOn(tr[1..], p)
  }

  /** The activations that the statements of a trace may start: one of its callees each, or none. */
  predicate Starts(tr: seq<nat>, fs: seq<Func>, p: Actions) {
    if tr == [] then fs == []
    else
      || Starts(tr[1..], fs, p)
      || (fs != [] && tr[0] in p && fs[0] in p[tr[0]].callees && Starts(tr[1..], fs[1..], p))
  }

  /** A run of the body, as far as it has come, performs these operations and starts these activations. */
  ghost predicate Activation(b: seq<Stmt>, p: Actions, ops: seq<Op>, fs: seq<Func>) {
    exists r :: BegunBody(b, r) && ops == OpsOn(Trace(r), p) && Starts(Trace(r), fs, p)
  }

  /** Every activation of the tree is a run of the body of its function. */
  ghost predicate Behaves(p: Program, t: Tree)
    decreases t, 1
  {
    t.f in p.bodies && Activation(p.bodies[t.f], p.actions, t.ops, FuncsOf(t.calls)) && AllBehave(p, t.calls)
  }

  ghost predicate AllBehave(p: Program, ts: seq<Tree>)
    decreases ts, 0
  {
    ts == [] || (Behaves(p, ts[0]) && AllBehave(p, ts[1..]))
  }

  /** A run of the program: it begins with one activation of its entry function. */
  ghost predicate IsProgramRun(p: Program, init: Func, t: Tree) { Behaves(p, t) && t.f == init }

  /** Only basic statements have actions. */
  ghost predicate Quiet(p: Program) {
    forall f, it :: f in p.bodies ==> QuietBody(p.bodies[f], WeightsOf(p.actions, it))
  }

  // ---------- What a trace does is what it weighs ----------

  lemma {:induction false} OccursSum<T>(a: seq<T>, b: seq<T>, x: T)
    ensures Occurs(a + b, x) == Occurs(a, x) + Occurs(b, x)
  {
    if a == [] {
      assert a + b == b;
    } else {
      assert (a + b)[1..] == a[1..] + b;
      OccursSum(a[1..], b, x);
    }
  }

  lemma {:induction false} OpsWeigh(tr: seq<nat>, p: Actions, op: Op)
    ensures Occurs(OpsOn(tr, p), op) == TraceWeight(tr, WeightsOf(p, Does(op)))
  {
    if tr != [] {
      OpsWeigh(tr[1..], p, op);
      OccursSum(if tr[0] in p then p[tr[0]].ops else [], OpsOn(tr[1..], p), op);
    }
  }

  lemma {:induction false} StartsWeigh(tr: seq<nat>, fs: seq<Func>, p: Actions, h: Func)
    requires Starts(tr, fs, p)
    ensures Occurs(fs, h) <= TraceWeight(tr, WeightsOf(p, Callee(h)))
  {
    if tr != [] {
      if Starts(tr[1..], fs, p) {
        StartsWeigh(tr[1..], fs, p, h);
      } else {
        StartsWeigh(tr[1..], fs[1..], p, h);
      }
    }
  }

  // ---------- The calls of a body ----------

  /** The functions that statements of the body call. */
  function CalledStmt(s: Stmt, p: Actions): set<Func>
    decreases SizeStmt(s), 0
  {
    match s
    case Basic(l) => if l in p then p[l].callees else {}
    case If(a, b) => CalledBody(a, p) + CalledBody(b, p)
    case Switch(_, cases) => CalledConds(FlatConds(cases, 0), p) + CalledBodies(CaseBodies(cases), p)
    case Select(_, _, _, comms) => CalledBodies(CommBodies(comms), p)
    case For(_, cond, body, _, _, _) => CalledBody(cond, p) + CalledBody(body, p)
    case Range(_, _, _, _, _, _, body) => CalledBody(body, p)
    case _ => {}
  }

  function CalledBody(b: seq<Stmt>, p: Actions): set<Func>
    decreases SizeBody(b), 1
  {
    if b == [] then {} else CalledStmt(b[0], p) + CalledBody(b[1..], p)
  }

  function CalledBodies(bs: seq<seq<Stmt>>, p: Actions): set<Func>
    decreases SizeBodies(bs), 2, |bs|
  {
    if bs == [] then {} else CalledBody(bs[0], p) + CalledBodies(bs[1..], p)
  }

  function CalledConds(conds: seq<Cond>, p: Actions): set<Func>
    decreases SizeBodies(CondBodies(conds)), 2, |conds|
  {
    if conds == [] then {} else CalledBody(conds[0].body, p) + CalledConds(conds[1..], p)
  }

  /** What a body does not call costs it nothing. */
  lemma {:induction false} NotCalled(b: seq<Stmt>, p: Actions, h: Func)
    requires h !in CalledBody(b, p)
    ensures CostBody(b, WeightsOf(p, Callee(h))) == 0
    decreases SizeBody(b), 1
  {
    if b != [] {
      NotCalledStmt(b[0], p, h);
      NotCalled(b[1..], p, h);
    }
  }

  lemma {:induction false} NotCalledStmt(s: Stmt, p: Actions, h: Func)
    requires h !in CalledStmt(s, p)
    ensures CostStmt(s, WeightsOf(p, Callee(h))) == 0
    decreases SizeStmt(s), 0
  {
    match s
    case If(a, b) => NotCalled(a, p, h); NotCalled(b, p, h);
    case Switch(_, cases) =>
      NotCalledConds(FlatConds(cases, 0), p, h);
      NotCalledCases(cases, 0, p, h);
      if DefaultCase(cases).Some? {
        NotCalledChain(cases, DefaultCase(cases).value, p, h);
      }
    case Select(_, _, _, comms) => NotCalledComms(comms, p, h);
    case For(_, cond, body, _, _, _) => NotCalled(cond, p, h); NotCalled(body, p, h);
    case Range(_, _, _, _, _, _, body) => NotCalled(body, p, h);
    case _ =>
  }

  lemma {:induction false} NotCalledComms(comms: seq<Comm>, p: Actions, h: Func)
    requires h !in CalledBodies(CommBodies(comms), p)
    ensures CostComms(comms, WeightsOf(p, Callee(h))) == 0
    decreases SizeComms(comms), 2, |comms|
  {
    if comms != [] {
      NotCalled(comms[0].body, p, h);
      assert CommBodies(comms)[1..] == CommBodies(comms[1..]);
      NotCalledComms(comms[1..], p, h);
    }
  }

  lemma {:induction false} NotCalledConds(conds: seq<Cond>, p: Actions, h: Func)
    requires h !in CalledConds(conds, p)
    ensures CostConds(conds, WeightsOf(p, Callee(h))) == 0
    decreases SizeBodies(CondBodies(conds)), 2, |conds|
  {
    if conds != [] {
      NotCalled(conds[0].body, p, h);
      NotCalledConds(conds[1..], p, h);
    }
  }

  lemma {:induction false} BodiesAt(bs: seq<seq<Stmt>>, p: Actions, k: nat)
    requires k < |bs|
    ensures CalledBody(bs[k], p) <= CalledBodies(bs, p)
  {
    if k > 0 {
      BodiesAt(bs[1..], p, k - 1);
    }
  }

  lemma {:induction false} NotCalledChain(cases: seq<Case>, i: nat, p: Actions, h: Func)
    requires h !in CalledBodies(CaseBodies(cases), p)
    ensures CostChain(cases, i, WeightsOf(p, Callee(h))) == 0
    decreases SizeCases(cases), 2, |cases| - i
  {
    if i < |cases| {
      CaseSmaller(cases, i);
      BodiesAt(CaseBodies(cases), p, i);
      NotCalled(cases[i].body, p, h);
      NotCalledChain(cases, i + 1, p, h);
    }
  }

  lemma {:induction false} CalledAppend(a: seq<Cond>, b: seq<Cond>, p: Actions)
    ensures CalledConds(a + b, p) == CalledConds(a, p) + CalledConds(b, p)
  {
    if a == [] {
      assert a + b == b;
    } else {
      assert (a + b)[1..] == a[1..] + b;
      CalledAppend(a[1..], b, p);
    }
  }

  lemma {:induction false} NotCalledCases(cases: seq<Case>, i: nat, p: Actions, h: Func)
    requires i <= |cases| && h !in CalledConds(FlatConds(cases[i..], i), p) && h !in CalledBodies(CaseBodies(cases), p)
    ensures CostCases(cases, i, 0, WeightsOf(p, Callee(h))) == 0
    decreases SizeCases(cases), 3, |cases| - i
  {
    if i < |cases| {
      assert cases[i..][1..] == cases[i + 1..] && cases[i..][0] == cases[i];
      var mine := if cases[i].isDefault then [] else CondsOf(i, cases[i].conds);
      CalledAppend(mine, FlatConds(cases[i + 1..], i + 1), p);
      NotCalledCases(cases, i + 1, p, h);
      if !cases[i].isDefault {
        CaseSmaller(cases, i);
        NotCalledConds(mine, p, h);
        NotCalledChain(cases, i, p, h);
      }
    }
  }

  // ---------- The information about one function ----------

  function InfoFrom(counts: Counts): Info {
    Info(Get(counts, Calls),
         map it | it in counts && it.Callee? && counts[it] > 0 :: it.f := counts[it],
         map it | it in counts && it.Does? :: it.op := counts[it])
  }

  lemma InfoFromGets(counts: Counts)
    ensures forall f :: Get(InfoFrom(counts).callees, f) == Get(counts, Callee(f))
    ensures forall op :: Get(InfoFrom(counts).ops, op) == Get(counts, Does(op))
    ensures forall f :: f in InfoFrom(counts).callees ==> Get(counts, Callee(f)) > 0
  {
    var info := InfoFrom(counts);
    forall f ensures Get(info.callees, f) == Get(counts, Callee(f)) {
      if Get(counts, Callee(f)) > 0 {
        assert Callee(f) in counts && Callee(f).f in info.callees;
      }
    }
    forall op ensures Get(info.ops, op) == Get(counts, Does(op)) {
      if Does(op) in counts {
        assert Does(op).op in info.ops;
      }
    }
  }

  ghost predicate InfoOk(p: Program, f: Func, info: Info)
    requires f in p.bodies
  {
    && (forall op :: Get(info.ops, op) == CostBody(p.bodies[f], WeightsOf(p.actions, Does(op))))
    && (forall h :: Get(info.callees, h) == CostBody(p.bodies[f], WeightsOf(p.actions, Callee(h))))
    && info.callees.Keys <= CalledBody(p.bodies[f], p.actions)
  }

  lemma InfoFromOk(p: Program, f: Func, counts: Counts)
    requires f in p.bodies && OfBody(counts, p.bodies[f], p.actions)
    ensures InfoOk(p, f, InfoFrom(counts))
  {
    hide CostBody, CalledBody, InfoFrom;
    InfoFromGets(counts);
    forall h | h in InfoFrom(counts).callees ensures h in CalledBody(p.bodies[f], p.actions) {
      if h !in CalledBody(p.bodies[f], p.actions) {
        NotCalled(p.bodies[f], p.actions, h);
      }
    }
  }

  ghost predicate InfosOk(p: Program, infos: map<Func, Info>) {
    infos.Keys == p.bodies.Keys && forall f :: f in infos ==> InfoOk(p, f, infos[f])
  }

  // ---------- Runs of the program stay within the analysis of its bodies ----------

  lemma ActivationWithin(p: Program, f: Func, ops: seq<Op>, fs: seq<Func>, info: Info)
    requires Quiet(p) && f in p.bodies && InfoOk(p, f, info) && Activation(p.bodies[f], p.actions, ops, fs)
    ensures forall op :: Within(Occurs(ops, op), Get(info.ops, op))
    ensures forall h :: Within(Occurs(fs, h), Get(info.callees, h))
  {
    hide CostBody, BegunBody, QuietBody, Trace, Starts, OpsOn, Occurs, TraceWeight;
    var b := p.bodies[f];
    var r :| BegunBody(b, r) && ops == OpsOn(Trace(r), p.actions) && Starts(Trace(r), fs, p.actions);
    forall op ensures Within(Occurs(ops, op), Get(info.ops, op)) {
      OpsWeigh(Trace(r), p.actions, op);
      CostIsBound(b, r, WeightsOf(p.actions, Does(op)));
    }
    forall h ensures Within(Occurs(fs, h), Get(info.callees, h)) {
      StartsWeigh(Trace(r), fs, p.actions, h);
      CostIsBound(b, r, WeightsOf(p.actions, Callee(h)));
    }
  }

  lemma {:induction false} RunWithin(p: Program, infos: map<Func, Info>, t: Tree)
    requires Quiet(p) && InfosOk(p, infos) && Behaves(p, t)
    ensures Fits(infos, t)
    decreases t, 1
  {
    hide Activation, Quiet, InfoOk, Within, Occurs;
    assert InfoOk(p, t.f, infos[t.f]);
    ActivationWithin(p, t.f, t.ops, FuncsOf(t.calls), infos[t.f]);
    AllRunWithin(p, infos, t.calls);
  }

  lemma {:induction false} AllRunWithin(p: Program, infos: map<Func, Info>, ts: seq<Tree>)
    requires Quiet(p) && InfosOk(p, infos) && AllBehave(p, ts)
    ensures AllFit(infos, ts)
    decreases ts, 0
  {
    hide Quiet, InfosOk;
    if ts != [] {
      RunWithin(p, infos, ts[0]);
      AllRunWithin(p, infos, ts[1..]);
    }
  }

  // ---------- The whole analysis ----------

  method FindInfos(p: Program) returns (infos: map<Func, Info>)
    ensures InfosOk(p, infos)
  {
    hide InfoOk, OfBody, InfoFrom;
    infos := map[];
    var todo := p.bodies.Keys;
    while todo != {}
      invariant todo <= p.bodies.Keys && infos.Keys == p.bodies.Keys - todo
      invariant forall f :: f in infos ==> InfoOk(p, f, infos[f])
      decreases |todo|
    {
      var caller :| caller in todo;
      var counts := InfoForBody(p.bodies[caller], p.actions);
      InfoFromOk(p, caller, counts);
      infos := infos[caller := InfoFrom(counts)];
      todo := todo - {caller};
    }
  }

  /** The graph has all calls that are in bodies. */
  ghost predicate HasCalls(g: Graph, p: Program) {
    g.Keys == p.bodies.Keys && forall f :: f in g ==> CalledBody(p.bodies[f], p.actions) <= g[f]
  }

  /** The counts are those that full runs of the analysed bodies have, at the cap where functions call each other. */
  ghost predicate Accounted(g: Graph, p: Program, init: Func, calleeCounts: map<Func, nat>, totals: map<Op, nat>) {
    exists infos, n, scc, lists :: InfosOk(p, infos) && SccsCorrect(g, n, scc, lists) && Accounts(infos, init, scc, lists, calleeCounts, totals)
  }

  ghost predicate Accounts(infos: map<Func, Info>, init: Func, scc: map<Func, nat>, lists: map<nat, seq<Func>>,
                           calleeCounts: map<Func, nat>, totals: map<Op, nat>) {
    && CyclesAtCap(infos, scc, lists, infos.Keys, calleeCounts)
    && (NoCycles(infos, lists) ==> ExactInFullRuns(infos, init, calleeCounts, totals))
  }

  /** In every run of the program, as far as it has come, every function is activated and every operation
      performed at most as often as counted, unless the count is at the cap. */
  method AddCallCountsToFuncCallGraph(fcg: FuncCallGraph, p: Program, init: Func)
    requires fcg.Valid() && fcg.isCalleeCounts == map[] && fcg.totalOpCounts == map[]
    requires HasCalls(fcg.callerToCallees, p) && init in p.bodies && Quiet(p)
    modifies fcg
    ensures fcg.Valid() && fcg.callerToCallees == old(fcg.callerToCallees) && fcg.dynamicCallInfos == old(fcg.dynamicCallInfos)
    ensures forall t, f :: IsProgramRun(p, init, t) && f in p.bodies ==> Within(Acts(t, f), Get(fcg.isCalleeCounts, f))
    ensures forall t, op :: IsProgramRun(p, init, t) ==> Within(OpsBy(t, p.bodies.Keys, op), Get(fcg.totalOpCounts, op))
    ensures Accounted(fcg.callerToCallees, p, init, fcg.isCalleeCounts, fcg.totalOpCounts)
  {
    hide Acts, OpsBy, Within, Quiet, InfoOk, Behaves, Fits, CalledBody, FuncCallGraph.Valid, ExactInFullRuns, CyclesAtCap, NoCycles, SccsCorrect;
    var infos := FindInfos(p);
    InfosCovered(fcg.callerToCallees, p, infos);
    AddCallCounts(fcg, infos, init);
    ValidSccs(fcg);
    assert Accounts(infos, init, fcg.funcToSCCs, fcg.sccToFuncs, fcg.isCalleeCounts, fcg.totalOpCounts);
    forall t | IsProgramRun(p, init, t) ensures IsRun(infos, init, t) {
      RunWithin(p, infos, t);
    }
    assert infos.Keys == p.bodies.Keys;
    forall t, op | IsProgramRun(p, init, t) ensures Within(OpsBy(t, p.bodies.Keys, op), Get(fcg.totalOpCounts, op)) {
      assert IsRun(infos, init, t);
      assert Within(Performed(infos, t, op), Get(fcg.totalOpCounts, op));
    }
  }

  lemma ValidSccs(fcg: FuncCallGraph)
    requires fcg.Valid() && fcg.sccsOk
    ensures SccsCorrect(fcg.callerToCallees, fcg.sccCount, fcg.funcToSCCs, fcg.sccToFuncs)
  {
  }

  lemma InfosCovered(g: Graph, p: Program, infos: map<Func, Info>)
    requires HasCalls(g, p) && InfosOk(p, infos)
    ensures Covers(g, infos)
  {
    hide CalledBody, CostBody;
    forall f | f in g ensures infos[f].callees.Keys <= g[f] {
      assert InfoOk(p, f, infos[f]);
    }
  }

  // ---------- Closures of functions that are never called ----------

  /** A closure is activated only where its enclosing function has been activated. */
  ghost predicate Scoped(t: Tree, enclosing: map<Func, Func>) {
    forall f :: f in enclosing && Acts(t, f) > 0 ==> Acts(t, enclosing[f]) > 0
  }

  ghost predicate IsScopedRun(p: Program, init: Func, enclosing: map<Func, Func>, t: Tree) {
    IsProgramRun(p, init, t) && Scoped(t, enclosing)
  }

  /** The counts bound the activations in all runs with scoping. */
  ghost predicate Bounds(p: Program, init: Func, enclosing: map<Func, Func>, counts: map<Func, nat>) {
    forall t, f :: IsScopedRun(p, init, enclosing, t) && f in p.bodies ==> Within(Acts(t, f), Get(counts, f))
  }

  lemma ZeroBounds(p: Program, init: Func, enclosing: map<Func, Func>, counts: map<Func, nat>, f: Func)
    requires Bounds(p, init, enclosing, counts) && f in enclosing && enclosing[f] in p.bodies && Get(counts, enclosing[f]) == 0
    ensures Bounds(p, init, enclosing, counts[f := 0])
  {
    hide Acts, IsProgramRun;
    forall t, h | IsScopedRun(p, init, enclosing, t) && h in p.bodies ensures Within(Acts(t, h), Get(counts[f := 0], h)) {
      assert Within(Acts(t, h), Get(counts, h)) && Within(Acts(t, enclosing[f]), Get(counts, enclosing[f]));
    }
  }

  /** Each function is a value of its own signature only. */
  ghost predicate SignaturesOk(infos: seq<DynamicCallInfo>, signatures: map<Func, Signature>) {
    forall f, s :: f in signatures && f in CalleesOf(infos, s) ==> s == signatures[f]
  }

  /** After the first n functions: a function may have lost its count only inside one that has none; it has lost it if the one
      around it had none from the start, or had none after it was looked at itself. */
  ghost predicate Cleared(funcs: seq<Func>, n: nat, enclosing: map<Func, Func>, was: map<Func, nat>, now: map<Func, nat>) {
    && n <= |funcs|
    && (forall f :: Get(now, f) == Get(was, f) || Get(now, f) == 0)
    && (forall f :: Get(now, f) != Get(was, f) ==> f in funcs && f in enclosing && Get(now, enclosing[f]) == 0)
    && (forall k :: 0 <= k < n && funcs[k] in enclosing && Get(was, enclosing[funcs[k]]) == 0 ==> Get(now, funcs[k]) == 0)
    && (forall k :: 0 <= k < n && funcs[k] in enclosing && enclosing[funcs[k]] !in funcs[k..] && Get(now, enclosing[funcs[k]]) == 0 ==>
          Get(now, funcs[k]) == 0)
  }

  lemma ClearedNext(funcs: seq<Func>, n: nat, enclosing: map<Func, Func>, was: map<Func, nat>, now: map<Func, nat>)
    requires Cleared(funcs, n, enclosing, was, now) && n < |funcs|
    ensures var f := funcs[n];
            Cleared(funcs, n + 1, enclosing, was, if f in enclosing && Get(now, enclosing[f]) == 0 then now[f := 0] else now)
  {
    var f := funcs[n];
    assert forall k :: 0 <= k < n ==> f in funcs[k..] by {
      assert forall k :: 0 <= k < n ==> funcs[k..][n - k] == f;
    }
  }

  /** Closures inside functions that are never called are never called either: their calls are removed. */
  method RemoveCallsToClosuresInsideUncalledFunctions(fcg: FuncCallGraph, ghost p: Program, ghost init: Func, funcs: seq<Func>,
                                                      enclosing: map<Func, Func>, signatures: map<Func, Signature>)
    requires fcg.Valid() && fcg.callerToCallees.Keys == p.bodies.Keys && SignaturesOk(fcg.dynamicCallInfos, signatures)
    requires forall f :: f in funcs ==> f in p.bodies && f in signatures
    requires forall f :: f in enclosing ==> enclosing[f] in p.bodies
    requires Bounds(p, init, enclosing, fcg.isCalleeCounts)
    modifies fcg
    ensures fcg.Valid() && fcg.totalOpCounts == old(fcg.totalOpCounts)
    ensures Bounds(p, init, enclosing, fcg.isCalleeCounts)
    ensures Cleared(funcs, |funcs|, enclosing, old(fcg.isCalleeCounts), fcg.isCalleeCounts)
  {
    hide FuncCallGraph.Valid, Bounds, CalleesOf, CallersOf, Cleared;
    NoneCleared(funcs, enclosing, fcg.isCalleeCounts);
    for i := 0 to |funcs|
      invariant fcg.Valid() && fcg.callerToCallees.Keys == p.bodies.Keys && SignaturesOk(fcg.dynamicCallInfos, signatures)
      invariant fcg.totalOpCounts == old(fcg.totalOpCounts) && Bounds(p, init, enclosing, fcg.isCalleeCounts)
      invariant Cleared(funcs, i, enclosing, old(fcg.isCalleeCounts), fcg.isCalleeCounts)
    {
      var f := funcs[i];
      ClearedNext(funcs, i, enclosing, old(fcg.isCalleeCounts), fcg.isCalleeCounts);
      if f in enclosing && Get(fcg.isCalleeCounts, enclosing[f]) == 0 {
        ZeroBounds(p, init, enclosing, fcg.isCalleeCounts, f);
        fcg.ZeroCalleeCounts(f, signatures[f]);
      }
    }
  }

  lemma NoneCleared(funcs: seq<Func>, enclosing: map<Func, Func>, counts: map<Func, nat>)
    ensures Cleared(funcs, 0, enclosing, counts, counts)
  {
  }

  /** The counts that the translator reads, for calls of all kinds: in every run of the program, as far as it has
      come, they bound the activations of every function and the operations performed. */
  method BuildCounts(fcg: FuncCallGraph, p: Program, init: Func, funcs: seq<Func>, enclosing: map<Func, Func>,
                     signatures: map<Func, Signature>)
    requires fcg.Valid() && fcg.isCalleeCounts == map[] && fcg.totalOpCounts == map[]
    requires HasCalls(fcg.callerToCallees, p) && init in p.bodies && Quiet(p) && SignaturesOk(fcg.dynamicCallInfos, signatures)
    requires forall f :: f in funcs ==> f in p.bodies && f in signatures
    requires forall f :: f in enclosing ==> enclosing[f] in p.bodies
    modifies fcg
    ensures fcg.Valid() && Bounds(p, init, enclosing, fcg.isCalleeCounts)
    ensures forall t, op :: IsProgramRun(p, init, t) ==> Within(OpsBy(t, p.bodies.Keys, op), Get(fcg.totalOpCounts, op))
    ensures exists was :: Accounted(old(fcg.callerToCallees), p, init, was, fcg.totalOpCounts)
                          && Cleared(funcs, |funcs|, enclosing, was, fcg.isCalleeCounts)
  {
    hide Acts, OpsBy, Within, Quiet, IsProgramRun, CalledBody, FuncCallGraph.Valid, SignaturesOk, Accounted, Cleared;
    AddCallCountsToFuncCallGraph(fcg, p, init);
    RemoveCallsToClosuresInsideUncalledFunctions(fcg, p, init, funcs, enclosing, signatures);
  }
}
