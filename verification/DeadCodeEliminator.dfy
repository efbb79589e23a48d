/** The dead code eliminator: it goes over the functions from callees to callers and rewrites their bodies in place. */
module DeadCodeEliminator {
  import opened FuncGraphs
  import opened CallGraphs
  import opened CallTrees
  import opened IrBodies
  import opened CallsInfos
  import opened ProgramCounts
  import opened DeadCode
  import opened EarlyReturns

  /** The functions of a program: their bodies, which labels are bare returns, and what call statements may call. */
  class IrProgram {
    var bodies: map<Func, seq<Stmt>>
    const bareReturns: set<nat>
    const calls: map<nat, set<Func>>

    constructor (bodies: map<Func, seq<Stmt>>, bareReturns: set<nat>, calls: map<nat, set<Func>>)
      ensures this.bodies == bodies && this.bareReturns == bareReturns && this.calls == calls
    {
      this.bodies, this.bareReturns, this.calls := bodies, bareReturns, calls;
    }

    method SetStmts(f: Func, stmts: seq<Stmt>)
      requires f in bodies
      modifies this
      ensures bodies == old(bodies)[f := stmts]
    {
      bodies := bodies[f := stmts];
    }
  }

  /** Call statements all of whose callees do nothing. */
  function Idle(calls: map<nat, set<Func>>, empty: set<Func>): set<nat> { set l | l in calls && calls[l] <= empty }

  /** What cannot be observed: bare returns and calls of functions that do nothing. */
  function Hidden(bare: set<nat>, calls: map<nat, set<Func>>, empty: set<Func>): set<nat> { bare + Idle(calls, empty) }

  // ---------- One body ----------

  lemma {:induction false} SimplifyAppend(a: seq<Stmt>, s: Stmt)
    ensures SimplifyBody(a + [s]) == SimplifyBody(a) + Simplify(s)
  {
    if a == [] {
      assert a + [s] == [s] && [s][1..] == [] && [s][0] == s;
    } else {
      assert (a + [s])[1..] == a[1..] + [s] && (a + [s])[0] == a[0];
      SimplifyAppend(a[1..], s);
    }
  }

  lemma {:induction false} StmtSmaller(b: seq<Stmt>, i: nat)
    requires i < |b|
    ensures SizeStmt(b[i]) <= SizeBody(b)
  {
    if i > 0 {
      StmtSmaller(b[1..], i - 1);
    }
  }

  /** Branches, loops and, in the body of a function, bare returns that are not needed. */
  method EliminateDeadCodeInBody(b: seq<Stmt>, isFuncBody: bool, bare: set<nat>) returns (stmts: seq<Stmt>)
    ensures stmts == Strip(SimplifyBody(b), if isFuncBody then bare else {}, {})
    decreases SizeBody(b), 1
  {
    hide SimplifyBody, Strip;
    ghost var dropped := if isFuncBody then bare else {};
    stmts := [];
    NothingLeft(dropped);
    for i := 0 to |b|
      invariant stmts == Strip(SimplifyBody(b[..i]), dropped, {})
    {
      StmtSmaller(b, i);
      assert b[..i + 1] == b[..i] + [b[i]];
      SimplifyAppend(b[..i], b[i]);
      StripAppend(SimplifyBody(b[..i]), Simplify(b[i]), dropped, {});
      var kept := KeepStmt(b[i], isFuncBody, bare);
      stmts := stmts + kept;
    }
    assert b[..|b|] == b;
  }

  lemma NothingLeft(bare: set<nat>)
    ensures Strip(SimplifyBody([]), bare, {}) == []
  {
  }

  lemma OneLeft(s: Stmt, bare: set<nat>)
    ensures Strip([s], bare, {}) == (if s.Return? && s.label_ in bare then [] else [s]) && Strip([], bare, {}) == []
    ensures SimplifyBody([]) == []
  {
    assert [s][1..] == [];
  }

  lemma {:induction false} NothingStripped(b: seq<Stmt>)
    ensures Strip(b, {}, {}) == b
  {
    if b != [] {
      NothingStripped(b[1..]);
    }
  }

  /** The statement as it is kept, or nothing. */
  method KeepStmt(s: Stmt, isFuncBody: bool, bare: set<nat>) returns (kept: seq<Stmt>)
    ensures kept == Strip(Simplify(s), if isFuncBody then bare else {}, {})
    decreases SizeStmt(s), 0
  {
    hide SimplifyBody, Strip, SizeBody;
    ghost var dropped := if isFuncBody then bare else {};
    OneLeft(s, dropped);
    match s
    case If(a, b) =>
      var a1 := EliminateDeadCodeInBody(a, false, bare);
      var b1 := EliminateDeadCodeInBody(b, false, bare);
      NothingStripped(SimplifyBody(a));
      NothingStripped(SimplifyBody(b));
      OneLeft(If(a1, b1), dropped);
      kept := if a1 == [] && b1 == [] then [] else [If(a1, b1)];
    case For(_, cond, body, infinite, _, _) =>
      var c1 := EliminateDeadCodeInBody(cond, false, bare);
      var b1 := EliminateDeadCodeInBody(body, false, bare);
      NothingStripped(SimplifyBody(cond));
      NothingStripped(SimplifyBody(body));
      OneLeft(s.(cond := c1, body := b1), dropped);
      kept := if !infinite && c1 == [] && b1 == [] then [] else [s.(cond := c1, body := b1)];
    case Return(l) => kept := if isFuncBody && l in bare then [] else [s];
    case _ => kept := [s];
  }

  /** Calls, at the top of a body, of functions that do nothing. */
  method EliminateFuncCallsInBody(b: seq<Stmt>, calls: map<nat, set<Func>>, emptyFuncs: set<Func>) returns (stmts: seq<Stmt>)
    ensures stmts == Strip(b, {}, Idle(calls, emptyFuncs))
  {
    stmts := [];
    for i := 0 to |b|
      invariant stmts == Strip(b[..i], {}, Idle(calls, emptyFuncs))
    {
      assert b[..i + 1] == b[..i] + [b[i]];
      StripAppend(b[..i], [b[i]], {}, Idle(calls, emptyFuncs));
      OneCallLeft(b[i], Idle(calls, emptyFuncs));
      var s := b[i];
      if !(s.Basic? && s.label_ in calls && calls[s.label_] <= emptyFuncs) {
        stmts := stmts + [s];
      }
    }
    assert b[..|b|] == b;
  }

  lemma OneCallLeft(s: Stmt, idle: set<nat>)
    ensures Strip([s], {}, idle) == (if s.Basic? && s.label_ in idle then [] else [s])
  {
    assert [s][1..] == [];
  }

  // ---------- The whole program ----------

  /** The functions of components below n. */
  ghost function Below(scc: map<Func, nat>, n: nat): set<Func> { set f | f in scc && scc[f] < n }

  /** The functions known to be empty when f is rewritten: those of components before its own. */
  ghost function Known(scc: map<Func, nat>, empty: set<Func>, f: Func): (e: set<Func>)
    ensures e <= empty
  {
    set h | h in empty && h in scc && f in scc && scc[h] < scc[f]
  }

  /** The functions of empty have empty bodies; done functions have been rewritten with what was known then; the others
      are as they were. */
  ghost predicate Eliminated(bodies0: map<Func, seq<Stmt>>, bodies: map<Func, seq<Stmt>>, bare: set<nat>, calls: map<nat, set<Func>>,
                             scc: map<Func, nat>, done: set<Func>, empty: set<Func>)
  {
    && bodies.Keys == bodies0.Keys && empty <= done
    && (forall f :: f in empty ==> f in bodies && bodies[f] == [])
    && (forall f :: f in bodies && f !in done ==> bodies[f] == bodies0[f])
    && (forall f :: f in bodies && f in done ==> bodies[f] == Cleaned(bodies0[f], bare, Idle(calls, Known(scc, empty, f))))
  }

  lemma OneCleaned(bodies0: map<Func, seq<Stmt>>, bodies: map<Func, seq<Stmt>>, bare: set<nat>, calls: map<nat, set<Func>>,
                   scc: map<Func, nat>, done: set<Func>, empty: set<Func>, f: Func)
    requires Eliminated(bodies0, bodies, bare, calls, scc, done, empty) && f in bodies && f !in done
    requires f in scc && empty <= Below(scc, scc[f])
    ensures Eliminated(bodies0, bodies[f := Cleaned(bodies[f], bare, Idle(calls, empty))], bare, calls, scc, done + {f}, empty)
  {
    hide Cleaned;
    assert Known(scc, empty, f) == empty;
  }

  lemma OneEmpty(bodies0: map<Func, seq<Stmt>>, bodies: map<Func, seq<Stmt>>, bare: set<nat>, calls: map<nat, set<Func>>,
                 scc: map<Func, nat>, done: set<Func>, empty: set<Func>, f: Func)
    requires Eliminated(bodies0, bodies, bare, calls, scc, done, empty) && f in bodies && f in done && bodies[f] == []
    requires f in scc && done <= Below(scc, scc[f] + 1)
    ensures Eliminated(bodies0, bodies, bare, calls, scc, done, empty + {f})
  {
    hide Cleaned, Idle;
    forall h | h in bodies && h in done
      ensures bodies[h] == Cleaned(bodies0[h], bare, Idle(calls, Known(scc, empty + {f}, h)))
    {
      assert h in Below(scc, scc[f] + 1);
      assert Known(scc, empty + {f}, h) == Known(scc, empty, h);
    }
  }

  /** Functions with empty bodies have been found. */
  ghost predicate AllFound(bodies: map<Func, seq<Stmt>>, done: set<Func>, empty: set<Func>) {
    forall f :: f in done && f in bodies && bodies[f] == [] ==> f in empty
  }

  /** The list has the functions of component n, each once. */
  ghost predicate Component(list: seq<Func>, bodies: map<Func, seq<Stmt>>, scc: map<Func, nat>, n: nat) {
    && (forall k :: 0 <= k < |list| ==> list[k] in bodies && list[k] in scc && scc[list[k]] == n)
    && (forall i, j :: 0 <= i < j < |list| ==> list[i] != list[j])
  }

  ghost function DoneUpTo(list: seq<Func>, scc: map<Func, nat>, n: nat, k: nat): set<Func>
    requires k <= |list|
  {
    Below(scc, n) + (set f | f in list[..k])
  }

  lemma OneMoreDone(list: seq<Func>, bodies: map<Func, seq<Stmt>>, scc: map<Func, nat>, n: nat, k: nat)
    requires Component(list, bodies, scc, n) && k < |list|
    ensures DoneUpTo(list, scc, n, k + 1) == DoneUpTo(list, scc, n, k) + {list[k]} && list[k] !in DoneUpTo(list, scc, n, k)
    ensures list[k] in bodies && list[k] in scc && scc[list[k]] == n
  {
    assert list[..k + 1] == list[..k] + [list[k]];
  }

  lemma AllDone(list: seq<Func>, bodies: map<Func, seq<Stmt>>, scc: map<Func, nat>, n: nat)
    requires Component(list, bodies, scc, n)
    ensures DoneUpTo(list, scc, n, 0) == Below(scc, n)
    ensures DoneUpTo(list, scc, n, |list|) == Below(scc, n) + (set f | f in list) <= Below(scc, n + 1)
  {
    assert list[..|list|] == list;
  }

  /** Rewrites the functions of one component. */
  method RewriteComponent(program: IrProgram, list: seq<Func>, ghost bodies0: map<Func, seq<Stmt>>, ghost scc: map<Func, nat>,
                          ghost n: nat, emptyFuncs: set<Func>)
    requires Eliminated(bodies0, program.bodies, program.bareReturns, program.calls, scc, DoneUpTo(list, scc, n, 0), emptyFuncs)
    requires Component(list, program.bodies, scc, n) && emptyFuncs <= Below(scc, n)
    modifies program
    ensures Eliminated(bodies0, program.bodies, program.bareReturns, program.calls, scc, DoneUpTo(list, scc, n, |list|), emptyFuncs)
    ensures program.bodies.Keys == old(program.bodies.Keys)
    ensures forall f :: f in program.bodies && f !in list ==> program.bodies[f] == old(program.bodies[f])
  {
    hide Eliminated, Strip, SimplifyBody, Idle, Known, Below, DoneUpTo, Component;
    for k := 0 to |list|
      invariant program.bodies.Keys == old(program.bodies.Keys)
      invariant forall f :: f in program.bodies && f !in list ==> program.bodies[f] == old(program.bodies[f])
      invariant Eliminated(bodies0, program.bodies, program.bareReturns, program.calls, scc, DoneUpTo(list, scc, n, k), emptyFuncs)
    {
      var f := list[k];
      OneMoreDone(list, old(program.bodies), scc, n, k);
      OneCleaned(bodies0, program.bodies, program.bareReturns, program.calls, scc, DoneUpTo(list, scc, n, k), emptyFuncs, f);
      var stmts := EliminateDeadCodeInBody(program.bodies[f], true, program.bareReturns);
      stmts := EliminateFuncCallsInBody(stmts, program.calls, emptyFuncs);
      program.SetStmts(f, stmts);
    }
  }

  /** Notes which functions of the component do nothing. */
  method NoteEmpty(program: IrProgram, list: seq<Func>, ghost bodies0: map<Func, seq<Stmt>>, ghost scc: map<Func, nat>,
                   ghost n: nat, ghost done: set<Func>, empty0: set<Func>)
    returns (emptyFuncs: set<Func>)
    requires Eliminated(bodies0, program.bodies, program.bareReturns, program.calls, scc, done, empty0)
    requires Component(list, program.bodies, scc, n) && done == DoneUpTo(list, scc, n, |list|)
    requires AllFound(program.bodies, Below(scc, n), empty0)
    ensures Eliminated(bodies0, program.bodies, program.bareReturns, program.calls, scc, done, emptyFuncs)
    ensures AllFound(program.bodies, done, emptyFuncs)
  {
    hide Eliminated, Below, DoneUpTo;
    AllDone(list, program.bodies, scc, n);
    emptyFuncs := empty0;
    for k := 0 to |list|
      invariant Eliminated(bodies0, program.bodies, program.bareReturns, program.calls, scc, done, emptyFuncs)
      invariant AllFound(program.bodies, DoneUpTo(list, scc, n, k), emptyFuncs)
    {
      OneMoreDone(list, program.bodies, scc, n, k);
      if program.bodies[list[k]] == [] {
        OneEmpty(bodies0, program.bodies, program.bareReturns, program.calls, scc, done, emptyFuncs, list[k]);
        emptyFuncs := emptyFuncs + {list[k]};
      }
    }
  }

  lemma EmptyIsDone(bodies0: map<Func, seq<Stmt>>, bodies: map<Func, seq<Stmt>>, bare: set<nat>, calls: map<nat, set<Func>>,
                    scc: map<Func, nat>, done: set<Func>, empty: set<Func>)
    requires Eliminated(bodies0, bodies, bare, calls, scc, done, empty)
    ensures empty <= done
  {
  }

  /** Rewrites the functions of one component, and then notes which of them do nothing. */
  method EliminateInComponent(program: IrProgram, list: seq<Func>, ghost bodies0: map<Func, seq<Stmt>>, ghost scc: map<Func, nat>,
                              ghost n: nat, empty0: set<Func>)
    returns (emptyFuncs: set<Func>)
    requires Eliminated(bodies0, program.bodies, program.bareReturns, program.calls, scc, Below(scc, n), empty0)
    requires Component(list, program.bodies, scc, n) && AllFound(program.bodies, Below(scc, n), empty0)
    requires Below(scc, n + 1) == Below(scc, n) + (set f | f in list)
    modifies program
    ensures program.bodies.Keys == old(program.bodies.Keys)
    ensures Eliminated(bodies0, program.bodies, program.bareReturns, program.calls, scc, Below(scc, n + 1), emptyFuncs)
    ensures AllFound(program.bodies, Below(scc, n + 1), emptyFuncs)
  {
    hide Eliminated, Below, DoneUpTo, Component;
    AllDone(list, program.bodies, scc, n);
    EmptyIsDone(bodies0, program.bodies, program.bareReturns, program.calls, scc, Below(scc, n), empty0);
    RewriteComponent(program, list, bodies0, scc, n, empty0);
    StillFound(list, old(program.bodies), program.bodies, scc, n, empty0);
    emptyFuncs := NoteEmpty(program, list, bodies0, scc, n, DoneUpTo(list, scc, n, |list|), empty0);
  }

  lemma StillFound(list: seq<Func>, bodies: map<Func, seq<Stmt>>, bodies1: map<Func, seq<Stmt>>, scc: map<Func, nat>, n: nat,
                   empty: set<Func>)
    requires Component(list, bodies, scc, n) && AllFound(bodies, Below(scc, n), empty) && bodies1.Keys == bodies.Keys
    requires forall f :: f in bodies1 && f !in list ==> bodies1[f] == bodies[f]
    ensures Component(list, bodies1, scc, n) && AllFound(bodies1, Below(scc, n), empty)
  {
  }

  lemma OneComponent(g: Graph, count: nat, scc: map<Func, nat>, lists: map<nat, seq<Func>>, n: nat)
    requires SccsCorrect(g, count, scc, lists) && 1 <= n < count
    ensures n in lists && forall bodies: map<Func, seq<Stmt>> :: bodies.Keys == g.Keys ==> Component(lists[n], bodies, scc, n)
    ensures Below(scc, n + 1) == Below(scc, n) + (set f | f in lists[n])
  {
    hide Reach;
    var list := lists[n];
    forall k | 0 <= k < |list| ensures list[k] in g && list[k] in scc && scc[list[k]] == n {
      assert list[k] in list;
    }
    forall f | f in scc ensures f in list <==> scc[f] == n {
      assert f in lists[scc[f]];
    }
    assert forall f :: f in list ==> f in scc;
  }

  lemma AllBelow(g: Graph, count: nat, scc: map<Func, nat>, lists: map<nat, seq<Func>>)
    requires SccsCorrect(g, count, scc, lists)
    ensures Below(scc, 1) == {} && Below(scc, count) == g.Keys
  {
    hide Reach;
    forall f | f in scc ensures 1 <= scc[f] < count {
      assert scc[f] in lists;
    }
  }

  /** What the eliminator has made of a function shows what the function showed, but for bare returns and calls of
      functions that do nothing, exactly if what now runs behind its first bare return may run. */
  lemma EliminatedExactly(bodies0: map<Func, seq<Stmt>>, bodies: map<Func, seq<Stmt>>, bare: set<nat>, calls: map<nat, set<Func>>,
                          scc: map<Func, nat>, done: set<Func>, empty: set<Func>, f: Func)
    requires Eliminated(bodies0, bodies, bare, calls, scc, done, empty) && f in bodies && f in done && AllLoopsEnd(bodies0[f])
    requires var b := SimplifyBody(bodies0[f]); Fresh(Before(b, bare), Behind(b, bare), Hidden(bare, calls, empty))
    ensures var b := SimplifyBody(bodies0[f]);
            SameObserved(bodies0[f], bodies[f], Hidden(bare, calls, empty))
            <==> MayDrop(Before(b, bare), Behind(b, bare), Hidden(bare, calls, empty))
  {
    hide SameObserved, Cleaned, SimplifyBody, AllLoopsEnd, MayDrop, Fresh, Before, Behind;
    var e := Known(scc, empty, f);
    CleanedExactly(bodies0[f], bare, Idle(calls, e), Hidden(bare, calls, empty));
  }

  /** In particular where the bare return is the last statement. */
  lemma EliminatedSame(bodies0: map<Func, seq<Stmt>>, bodies: map<Func, seq<Stmt>>, bare: set<nat>, calls: map<nat, set<Func>>,
                       scc: map<Func, nat>, done: set<Func>, empty: set<Func>, f: Func)
    requires Eliminated(bodies0, bodies, bare, calls, scc, done, empty) && f in bodies && f in done
    requires AllLoopsEnd(bodies0[f]) && BareLast(bodies0[f], bare)
    ensures SameObserved(bodies0[f], bodies[f], Hidden(bare, calls, empty))
  {
    hide SameObserved, Cleaned, AllLoopsEnd, BareLast;
    var e := Known(scc, empty, f);
    CleanedSame(bodies0[f], bare, Idle(calls, e));
    HideMore(bodies0[f], bodies[f], bare + Idle(calls, e), Hidden(bare, calls, empty));
  }

  /** Rewrites all functions, callees before callers, and finds those of which nothing is left. */
  method EliminateDeadCode(program: IrProgram, fcg: FuncCallGraph) returns (emptyFuncs: set<Func>)
    requires fcg.Valid() && fcg.callerToCallees.Keys == program.bodies.Keys
    modifies program, fcg
    ensures SccsCorrect(fcg.callerToCallees, fcg.sccCount, fcg.funcToSCCs, fcg.sccToFuncs)
    ensures Eliminated(old(program.bodies), program.bodies, program.bareReturns, program.calls, fcg.funcToSCCs, program.bodies.Keys,
                       emptyFuncs)
    ensures AllFound(program.bodies, program.bodies.Keys, emptyFuncs)
  {
    hide FuncCallGraph.Valid, SccsCorrect, Eliminated, Below, AllFound, Component;
    ghost var bodies0 := program.bodies;
    fcg.UpdateSCCs();
    ComponentsReady(fcg);
    AllBelow(fcg.callerToCallees, fcg.sccCount, fcg.funcToSCCs, fcg.sccToFuncs);
    emptyFuncs := {};
    NothingDone(bodies0, program.bareReturns, program.calls, fcg.funcToSCCs);
    for n := 1 to fcg.sccCount
      modifies program
      invariant program.bodies.Keys == bodies0.Keys
      invariant Eliminated(bodies0, program.bodies, program.bareReturns, program.calls, fcg.funcToSCCs, Below(fcg.funcToSCCs, n), emptyFuncs)
      invariant AllFound(program.bodies, Below(fcg.funcToSCCs, n), emptyFuncs)
    {
      OneComponent(fcg.callerToCallees, fcg.sccCount, fcg.funcToSCCs, fcg.sccToFuncs, n);
      emptyFuncs := EliminateInComponent(program, fcg.sccToFuncs[n], bodies0, fcg.funcToSCCs, n, emptyFuncs);
    }
  }

  /** What is left of a function calls only what was not known to be empty. */
  lemma CallsLeft(bodies0: map<Func, seq<Stmt>>, bodies: map<Func, seq<Stmt>>, bare: set<nat>, calls: map<nat, set<Func>>,
                  scc: map<Func, nat>, done: set<Func>, empty: set<Func>, f: Func, i: nat)
    requires Eliminated(bodies0, bodies, bare, calls, scc, done, empty) && f in bodies && f in done && i < |bodies[f]|
    ensures bodies[f][i].Basic? && bodies[f][i].label_ in calls ==>
              exists g :: g in calls[bodies[f][i].label_] && !(g in empty && g in scc && f in scc && scc[g] < scc[f])
  {
    hide SimplifyBody, Strip;
    var e := Known(scc, empty, f);
    StripLeaves(Strip(SimplifyBody(bodies0[f]), bare, {}), Idle(calls, e), i);
    if bodies[f][i].Basic? && bodies[f][i].label_ in calls {
      assert !(calls[bodies[f][i].label_] <= e);
    }
  }

  lemma {:induction false} StripLeaves(b: seq<Stmt>, idle: set<nat>, i: nat)
    requires i < |Strip(b, {}, idle)|
    ensures !(Strip(b, {}, idle)[i].Basic? && Strip(b, {}, idle)[i].label_ in idle)
  {
    if b != [] {
      OneCallLeft(b[0], idle);
      var rest := Strip(b[1..], {}, idle);
      assert Strip(b, {}, idle) == (if b[0].Basic? && b[0].label_ in idle then [] else [b[0]]) + rest;
      if i >= |Strip(b, {}, idle)| - |rest| {
        StripLeaves(b[1..], idle, i - (|Strip(b, {}, idle)| - |rest|));
      }
    }
  }

  /** What is left of a function is tidy. */
  lemma EliminatedTidy(bodies0: map<Func, seq<Stmt>>, bodies: map<Func, seq<Stmt>>, bare: set<nat>, calls: map<nat, set<Func>>,
                       scc: map<Func, nat>, done: set<Func>, empty: set<Func>, f: Func)
    requires Eliminated(bodies0, bodies, bare, calls, scc, done, empty) && f in bodies && f in done
    ensures AllTidy(bodies[f]) && forall i :: 0 <= i < |bodies[f]| ==> !Dropped(bodies[f][i], bare, {})
  {
    hide Cleaned, AllTidy;
    CleanedTidy(bodies0[f], bare, Idle(calls, Known(scc, empty, f)));
    hide Known, Idle;
  }

  /** A function is found empty exactly if all its statements are hollow, bare returns or calls of functions found empty in
      components before its own. */
  lemma FoundExactly(bodies0: map<Func, seq<Stmt>>, bodies: map<Func, seq<Stmt>>, bare: set<nat>, calls: map<nat, set<Func>>,
                     scc: map<Func, nat>, empty: set<Func>, f: Func)
    requires Eliminated(bodies0, bodies, bare, calls, scc, bodies.Keys, empty) && AllFound(bodies, bodies.Keys, empty)
    requires f in bodies
    ensures f in empty <==> forall i :: 0 <= i < |bodies0[f]| ==> GoesAway(bodies0[f][i], bare, calls, scc, empty, f)
  {
    hide Cleaned, Hollow;
    CleanedAwayExactly(bodies0[f], bare, Idle(calls, Known(scc, empty, f)));
  }

  predicate GoesAway(s: Stmt, bare: set<nat>, calls: map<nat, set<Func>>, scc: map<Func, nat>, empty: set<Func>, f: Func) {
    || Hollow(s) || (s.Return? && s.label_ in bare)
    || (s.Basic? && s.label_ in calls && forall g :: g in calls[s.label_] ==> g in empty && g in scc && f in scc && scc[g] < scc[f])
  }

  lemma ComponentsReady(fcg: FuncCallGraph)
    requires fcg.Valid() && fcg.sccsOk
    ensures SccsCorrect(fcg.callerToCallees, fcg.sccCount, fcg.funcToSCCs, fcg.sccToFuncs) && fcg.sccCount >= 1
  {
  }

  lemma NothingDone(bodies: map<Func, seq<Stmt>>, bare: set<nat>, calls: map<nat, set<Func>>, scc: map<Func, nat>)
    ensures Eliminated(bodies, bodies, bare, calls, scc, {}, {}) && AllFound(bodies, {}, {})
  {
  }

  // ---------- Functions that do nothing ----------

  /** Every activation of the tree is a whole run of the body of its function. */
  ghost predicate Completes(bodies: map<Func, seq<Stmt>>, p: Actions, t: Tree)
    decreases t, 1
  {
    && t.f in bodies
    && (exists r :: RunsBody(bodies[t.f], r) && t.ops == OpsOn(Trace(r), p) && Starts(Trace(r), FuncsOf(t.calls), p))
    && AllComplete(bodies, p, t.calls)
  }

  ghost predicate AllComplete(bodies: map<Func, seq<Stmt>>, p: Actions, ts: seq<Tree>)
    decreases ts, 0
  {
    ts == [] || (Completes(bodies, p, ts[0]) && AllComplete(bodies, p, ts[1..]))
  }

  /** Bare returns do nothing, and call statements do nothing but call. */
  predicate CallsOk(p: Actions, bare: set<nat>, calls: map<nat, set<Func>>) {
    && (forall l :: l in bare ==> l !in p)
    && forall l :: l in calls && l in p ==> p[l].ops == [] && p[l].callees <= calls[l]
  }

  lemma {:induction false} HiddenDoesNothing(tr: seq<nat>, fs: seq<Func>, p: Actions, bare: set<nat>, calls: map<nat, set<Func>>,
                                             empty: set<Func>)
    requires CallsOk(p, bare, calls) && forall i :: 0 <= i < |tr| ==> tr[i] in Hidden(bare, calls, empty)
    requires Starts(tr, fs, p)
    ensures OpsOn(tr, p) == [] && forall i :: 0 <= i < |fs| ==> fs[i] in empty
  {
    if tr != [] {
      assert tr[0] in Hidden(bare, calls, empty);
      assert forall i :: 0 <= i < |tr[1..]| ==> tr[1..][i] == tr[i + 1];
      if Starts(tr[1..], fs, p) {
        HiddenDoesNothing(tr[1..], fs, p, bare, calls, empty);
      } else {
        HiddenDoesNothing(tr[1..], fs[1..], p, bare, calls, empty);
        assert forall i :: 0 < i < |fs| ==> fs[i] == fs[1..][i - 1];
      }
    }
  }

  /** A statement of which nothing is left passes hidden labels only. */
  lemma {:induction false} CleanedAway(b: seq<Stmt>, bare: set<nat>, idle: set<nat>, r: Run)
    requires Cleaned(b, bare, idle) == [] && RunsBody(b, r)
    ensures forall i :: 0 <= i < |Trace(r)| ==> Trace(r)[i] in bare + idle
    decreases |b|
  {
    if b != [] {
      CleanedParts(b, bare, idle);
      StmtCleanedAway(b[0], bare, idle, r.first);
      if r.rest != Nothing {
        CleanedAway(b[1..], bare, idle, r.rest);
      }
    }
  }

  lemma CleanedParts(b: seq<Stmt>, bare: set<nat>, idle: set<nat>)
    requires b != [] && Cleaned(b, bare, idle) == []
    ensures Strip(Strip(Simplify(b[0]), bare, {}), {}, idle) == [] && Cleaned(b[1..], bare, idle) == []
  {
    CleanedFirst(b, bare, idle);
  }

  lemma StmtCleanedAway(s: Stmt, bare: set<nat>, idle: set<nat>, r: Run)
    requires Strip(Strip(Simplify(s), bare, {}), {}, idle) == [] && RunsStmt(s, r)
    ensures forall i :: 0 <= i < |Trace(r)| ==> Trace(r)[i] in bare + idle
  {
    if Simplify(s) == [] {
      IdleStmtRun(s, r);
    } else {
      OneLeft(Simplify(s)[0], bare);
      OneCallLeft(Simplify(s)[0], idle);
      assert Simplify(s) == [Simplify(s)[0]];
    }
  }

  /** In the program as it was, whole runs of a function that was found empty pass hidden labels only. */
  lemma EmptyShowsNothing(bodies0: map<Func, seq<Stmt>>, bodies: map<Func, seq<Stmt>>, bare: set<nat>, calls: map<nat, set<Func>>,
                          scc: map<Func, nat>, empty: set<Func>, f: Func, r: Run)
    requires Eliminated(bodies0, bodies, bare, calls, scc, bodies.Keys, empty) && f in empty && RunsBody(bodies0[f], r)
    ensures forall i :: 0 <= i < |Trace(r)| ==> Trace(r)[i] in Hidden(bare, calls, empty)
  {
    hide Cleaned, RunsBody, Trace;
    var e := Known(scc, empty, f);
    CleanedAway(bodies0[f], bare, Idle(calls, e), r);
  }

  /** Calls of such a function perform no operation, and activate such functions only. */
  lemma {:induction false} EmptyDoesNothing(bodies0: map<Func, seq<Stmt>>, bodies: map<Func, seq<Stmt>>, bare: set<nat>,
                                            calls: map<nat, set<Func>>, scc: map<Func, nat>, empty: set<Func>, p: Actions, t: Tree)
    requires Eliminated(bodies0, bodies, bare, calls, scc, bodies.Keys, empty) && CallsOk(p, bare, calls)
    requires t.f in empty && Completes(bodies0, p, t)
    ensures forall op :: OpsBy(t, bodies.Keys, op) == 0
    ensures forall g :: g !in empty ==> Acts(t, g) == 0
    decreases t, 1
  {
    var r :| RunsBody(bodies0[t.f], r) && t.ops == OpsOn(Trace(r), p) && Starts(Trace(r), FuncsOf(t.calls), p);
    hide Eliminated, CallsOk, Starts;
    EmptyShowsNothing(bodies0, bodies, bare, calls, scc, empty, t.f, r);
    HiddenDoesNothing(Trace(r), FuncsOf(t.calls), p, bare, calls, empty);
    AllDoNothing(bodies0, bodies, bare, calls, scc, empty, p, t.calls);
  }

  lemma {:induction false} AllDoNothing(bodies0: map<Func, seq<Stmt>>, bodies: map<Func, seq<Stmt>>, bare: set<nat>,
                                        calls: map<nat, set<Func>>, scc: map<Func, nat>, empty: set<Func>, p: Actions, ts: seq<Tree>)
    requires Eliminated(bodies0, bodies, bare, calls, scc, bodies.Keys, empty) && CallsOk(p, bare, calls)
    requires AllComplete(bodies0, p, ts) && forall i :: 0 <= i < |FuncsOf(ts)| ==> FuncsOf(ts)[i] in empty
    ensures forall op :: OpsByAll(ts, bodies.Keys, op) == 0
    ensures forall g :: g !in empty ==> ActsAll(ts, g) == 0
    decreases ts, 0
  {
    hide Eliminated, CallsOk;
    if ts != [] {
      assert FuncsOf(ts)[0] == ts[0].f;
      assert forall i :: 0 <= i < |FuncsOf(ts[1..])| ==> FuncsOf(ts[1..])[i] == FuncsOf(ts)[i + 1];
      EmptyDoesNothing(bodies0, bodies, bare, calls, scc, empty, p, ts[0]);
      AllDoNothing(bodies0, bodies, bare, calls, scc, empty, p, ts[1..]);
    }
  }
}
