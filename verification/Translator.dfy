/** The translation of structured statements as it proceeds: it adds states and transitions to a process. */
module Translator {
  import opened IrBodies
  import opened ControlFlow

  /** The process under construction; states are numbered in the order in which they are added. */
  class Automaton {
    var edges: set<Edge>
    var next: nat

    constructor (next: nat)
      ensures this.edges == {} && this.next == next
    {
      this.edges, this.next := {}, next;
    }

    method AddState() returns (state: nat)
      modifies `next
      ensures state == old(next) && next == old(next) + 1
    {
      state := next;
      next := next + 1;
    }

    method AddTransition(e: Edge)
      modifies `edges
      ensures edges == old(edges) + {e}
    {
      edges := edges + {e};
    }
  }

  /** Where the translation of a body stands, and where statements of the body may lead. */
  class StmtContext {
    var currentState: nat
    const exitBodyState: nat
    const ctx: Context

    constructor (ctx: Context, currentState: nat, exitBodyState: nat)
      ensures this.ctx == ctx && this.currentState == currentState && this.exitBodyState == exitBodyState
    {
      this.ctx, this.currentState, this.exitBodyState := ctx, currentState, exitBodyState;
    }
  }

  /** The process has grown by the fragment. */
  ghost predicate Grown(edges0: set<Edge>, edges: set<Edge>, next: nat, f: Fragment) {
    edges == edges0 + f.edges && next == f.next
  }

  /** What remains of a body: nothing after a branch or return statement. */
  ghost function Rest(b: seq<Stmt>, i: nat, done: bool, ctx: Context, cur: nat, exitBody: nat, n: nat): Fragment
    requires i <= |b|
  {
    if done then Fragment({}, n, exitBody) else CompileBody(b[i..], ctx, cur, exitBody, n)
  }

  /** The edges so far and what remains make up the whole. */
  ghost predicate SoFar(whole: Fragment, edges0: set<Edge>, edges: set<Edge>, rest: Fragment) {
    edges0 + whole.edges == edges + rest.edges && whole.next == rest.next
  }

  lemma RestStep(b: seq<Stmt>, i: nat, ctx: Context, cur: nat, exitBody: nat, n: nat,
                 whole: Fragment, edges0: set<Edge>, edges: set<Edge>)
    requires i < |b| && SoFar(whole, edges0, edges, Rest(b, i, false, ctx, cur, exitBody, n))
    ensures var f := CompileStmt(b[i], ctx, cur, n);
            SoFar(whole, edges0, edges + f.edges, Rest(b, i + 1, IsSpecial(ctx, f.exit), ctx, f.exit, exitBody, f.next))
  {
    hide CompileStmt, IsSpecial;
    assert b[i..][0] == b[i] && b[i..][1..] == b[i + 1..];
    var f := CompileStmt(b[i], ctx, cur, n);
    var rest := CompileBody(b[i + 1..], ctx, f.exit, exitBody, f.next);
    assert edges + (f.edges + rest.edges) == (edges + f.edges) + rest.edges;
  }

  lemma {:induction false} StmtSmaller(b: seq<Stmt>, i: nat)
    requires i < |b|
    ensures SizeStmt(b[i]) <= SizeBody(b)
  {
    if i > 0 {
      StmtSmaller(b[1..], i - 1);
    }
  }

  /** The statements of a body one after the other, up to one that leaves it. */
  method TranslateBody(b: seq<Stmt>, proc: Automaton, c: StmtContext)
    requires ResolvedBody(b, c.ctx.breaks.Keys, c.ctx.continues.Keys)
    modifies proc, c
    ensures Grown(old(proc.edges), proc.edges, proc.next, CompileBody(b, c.ctx, old(c.currentState), c.exitBodyState, old(proc.next)))
    decreases SizeBody(b), 1
  {
    hide CompileBody, CompileStmt, IsSpecial, ResolvedStmt;
    ghost var whole := CompileBody(b, c.ctx, c.currentState, c.exitBodyState, proc.next);
    ghost var edges0 := proc.edges;
    var i, done := 0, false;
    assert b[0..] == b;
    while i < |b| && !done
      invariant i <= |b| && (done ==> IsSpecial(c.ctx, c.currentState))
      invariant SoFar(whole, edges0, proc.edges, Rest(b, i, done, c.ctx, c.currentState, c.exitBodyState, proc.next))
      decreases |b| - i
    {
      StmtSmaller(b, i);
      RestStep(b, i, c.ctx, c.currentState, c.exitBodyState, proc.next, whole, edges0, proc.edges);
      TranslateStmt(b[i], proc, c);
      done := IsSpecial(c.ctx, c.currentState);
      i := i + 1;
    }
    RestEnds(b, i, done, c.ctx, c.currentState, c.exitBodyState, proc.next);
    if !IsSpecial(c.ctx, c.currentState) {
      proc.AddTransition(Silent(c.currentState, c.exitBodyState));
    }
  }

  lemma RestEnds(b: seq<Stmt>, i: nat, done: bool, ctx: Context, cur: nat, exitBody: nat, n: nat)
    requires i <= |b| && (done || i == |b|) && (done ==> IsSpecial(ctx, cur))
    ensures Rest(b, i, done, ctx, cur, exitBody, n)
            == Fragment(if IsSpecial(ctx, cur) then {} else {Silent(cur, exitBody)}, n, exitBody)
  {
    hide IsSpecial;
  }

  method TranslateStmt(s: Stmt, proc: Automaton, c: StmtContext)
    requires ResolvedStmt(s, c.ctx.breaks.Keys, c.ctx.continues.Keys)
    modifies proc, c
    ensures Grown(old(proc.edges), proc.edges, proc.next, CompileStmt(s, c.ctx, old(c.currentState), old(proc.next)))
    ensures c.currentState == CompileStmt(s, c.ctx, old(c.currentState), old(proc.next)).exit
    decreases SizeStmt(s), 0
  {
    match s
    case Basic(l) =>
      var done := proc.AddState();
      proc.AddTransition(Edge(c.currentState, done, [l], Always, Keep));
      c.currentState := done;
    case If(_, _) => TranslateIfStmt(s, proc, c);
    case Switch(_, _) => TranslateSwitchStmt(s, proc, c);
    case Select(_, _, _, _) => TranslateSelectStmt(s, proc, c);
    case For(_, _, _, _, _, _) => TranslateForStmt(s, proc, c);
    case Range(_, _, _, _, _, _, _) => TranslateRangeStmt(s, proc, c);
    case Break(id) =>
      proc.AddTransition(Silent(c.currentState, c.ctx.breaks[id]));
      c.currentState := c.ctx.breaks[id];
    case Continue(id) =>
      proc.AddTransition(Silent(c.currentState, c.ctx.continues[id]));
      c.currentState := c.ctx.continues[id];
    case Return(l) =>
      proc.AddTransition(Edge(c.currentState, c.ctx.exitFunc, [l], Always, Keep));
      c.currentState := c.ctx.exitFunc;
  }

  method TranslateIfStmt(s: Stmt, proc: Automaton, c: StmtContext)
    requires s.If? && ResolvedStmt(s, c.ctx.breaks.Keys, c.ctx.continues.Keys)
    modifies proc, c
    ensures Grown(old(proc.edges), proc.edges, proc.next, CompileStmt(s, c.ctx, old(c.currentState), old(proc.next)))
    ensures c.currentState == CompileStmt(s, c.ctx, old(c.currentState), old(proc.next)).exit
    decreases SizeStmt(s), -1
  {
    hide CompileBody, ResolvedBody;
    var ifEnter := proc.AddState();
    var ifExit := proc.AddState();
    var ifCtx := new StmtContext(InsideIf(c.ctx), ifEnter, ifExit);
    TranslateBody(s.ifBranch, proc, ifCtx);
    var elseEnter := proc.AddState();
    var elseCtx := new StmtContext(InsideIf(c.ctx), elseEnter, ifExit);
    TranslateBody(s.elseBranch, proc, elseCtx);
    proc.AddTransition(Silent(c.currentState, ifEnter));
    proc.AddTransition(Silent(c.currentState, elseEnter));
    c.currentState := ifExit;
  }

  method TranslateForStmt(s: Stmt, proc: Automaton, c: StmtContext)
    requires s.For? && ResolvedStmt(s, c.ctx.breaks.Keys, c.ctx.continues.Keys)
    modifies proc, c
    ensures Grown(old(proc.edges), proc.edges, proc.next, CompileStmt(s, c.ctx, old(c.currentState), old(proc.next)))
    ensures c.currentState == CompileStmt(s, c.ctx, old(c.currentState), old(proc.next)).exit
    decreases SizeStmt(s), -1
  {
    hide CompileBody, ResolvedBody, ForEdges;
    var condEnter := proc.AddState();
    var condExit := proc.AddState();
    var condCtx := new StmtContext(Inside(c.ctx, s.id, None, None), condEnter, condExit);
    TranslateBody(s.cond, proc, condCtx);
    var bodyEnter, bodyExit, loopExit := TranslateLoopBody(s.id, s.body, proc, c);
    AddForEdges(s, c.ctx.depth, c.currentState, condEnter, condExit, bodyEnter, bodyExit, loopExit, proc);
    c.currentState := loopExit;
  }

  /** The transitions of a loop, which count its iterations where they are bounded. */
  method AddForEdges(s: Stmt, depth: nat, cur: nat, condEnter: nat, condExit: nat, bodyEnter: nat, bodyExit: nat, loopExit: nat,
                     proc: Automaton)
    requires s.For?
    modifies proc`edges
    ensures proc.edges == old(proc.edges) + ForEdges(s, depth, cur, condEnter, condExit, bodyEnter, bodyExit, loopExit)
  {
    var reset := if s.min.Some? || s.max.Some? then Reset(depth) else Keep;
    proc.AddTransition(Edge(cur, condEnter, [], Always, reset));
    proc.AddTransition(Edge(condExit, bodyEnter, [], if s.max.Some? then Below(depth, s.max.value) else Always, Keep));
    if !s.infinite {
      proc.AddTransition(Edge(condExit, loopExit, [], if s.min.Some? then NotBelow(depth, s.min.value) else Always, Keep));
    }
    proc.AddTransition(Edge(bodyExit, condEnter, [], Always, if s.max.Some? then Advance(depth) else Keep));
  }

  /** The body of a loop between two new states, and a state behind the loop. */
  method TranslateLoopBody(id: nat, body: seq<Stmt>, proc: Automaton, c: StmtContext)
    returns (bodyEnter: nat, bodyExit: nat, loopExit: nat)
    requires ResolvedBody(body, c.ctx.breaks.Keys + {id}, c.ctx.continues.Keys + {id})
    modifies proc
    ensures bodyEnter == old(proc.next) && bodyExit == bodyEnter + 1 && loopExit == bodyEnter + 2
    ensures Grown(old(proc.edges), proc.edges, proc.next,
                  CompileBody(body, Inside(c.ctx, id, Some(loopExit), Some(bodyExit)), bodyEnter, bodyExit, bodyEnter + 3))
    decreases SizeBody(body), 2
  {
    hide CompileBody, ResolvedBody;
    bodyEnter := proc.AddState();
    bodyExit := proc.AddState();
    loopExit := proc.AddState();
    var bodyCtx := new StmtContext(Inside(c.ctx, id, Some(loopExit), Some(bodyExit)), bodyEnter, bodyExit);
    assert bodyCtx.ctx.breaks.Keys == c.ctx.breaks.Keys + {id} && bodyCtx.ctx.continues.Keys == c.ctx.continues.Keys + {id};
    TranslateBody(body, proc, bodyCtx);
  }

  method TranslateRangeStmt(s: Stmt, proc: Automaton, c: StmtContext)
    requires s.Range? && ResolvedStmt(s, c.ctx.breaks.Keys, c.ctx.continues.Keys)
    modifies proc, c
    ensures Grown(old(proc.edges), proc.edges, proc.next, CompileStmt(s, c.ctx, old(c.currentState), old(proc.next)))
    ensures c.currentState == CompileStmt(s, c.ctx, old(c.currentState), old(proc.next)).exit
    decreases SizeStmt(s), -1
  {
    hide CompileBody, ResolvedBody, RangeEdges, ReceiveEdges;
    var rangeEnter, received := AddReceive(s, proc);
    var bodyEnter, bodyExit, loopExit := TranslateLoopBody(s.id, s.body, proc, c);
    RangePieces(s, c.currentState, rangeEnter, bodyEnter, bodyExit, loopExit);
    AddRangeEdges(s, c.currentState, rangeEnter, received, bodyEnter, bodyExit, loopExit, proc);
    c.currentState := loopExit;
  }

  function ReceiveEdges(s: Stmt, n: nat): set<Edge>
    requires s.Range?
  {
    {Edge(n, n + 1, [s.trigger], Always, Keep), Edge(n + 1, n + 2, [s.confirm], Always, Keep)}
  }

  lemma RangePieces(s: Stmt, cur: nat, n: nat, enter: nat, leave: nat, exit: nat)
    requires s.Range?
    ensures RangeEdges(s, cur, n, enter, leave, exit)
            == ReceiveEdges(s, n) + {Edge(cur, n, [s.enter], Always, Keep), Edge(n + 2, enter, [s.more], Always, Keep),
                                     Edge(n + 2, exit, [s.over], Always, Keep), Silent(leave, n)}
  {
  }

  /** The states in which a range loop receives. */
  method AddReceive(s: Stmt, proc: Automaton) returns (rangeEnter: nat, received: nat)
    requires s.Range?
    modifies proc
    ensures rangeEnter == old(proc.next) && received == rangeEnter + 2 && proc.next == rangeEnter + 3
    ensures proc.edges == old(proc.edges) + ReceiveEdges(s, rangeEnter)
  {
    rangeEnter := proc.AddState();
    var receiving := proc.AddState();
    proc.AddTransition(Edge(rangeEnter, receiving, [s.trigger], Always, Keep));
    received := proc.AddState();
    proc.AddTransition(Edge(receiving, received, [s.confirm], Always, Keep));
  }

  method AddRangeEdges(s: Stmt, cur: nat, rangeEnter: nat, received: nat, bodyEnter: nat, bodyExit: nat, loopExit: nat,
                       proc: Automaton)
    requires s.Range?
    modifies proc`edges
    ensures proc.edges == old(proc.edges)
                          + {Edge(cur, rangeEnter, [s.enter], Always, Keep), Edge(received, bodyEnter, [s.more], Always, Keep),
                             Edge(received, loopExit, [s.over], Always, Keep), Silent(bodyExit, rangeEnter)}
  {
    proc.AddTransition(Edge(cur, rangeEnter, [s.enter], Always, Keep));
    proc.AddTransition(Edge(received, bodyEnter, [s.more], Always, Keep));
    proc.AddTransition(Edge(received, loopExit, [s.over], Always, Keep));
    proc.AddTransition(Silent(bodyExit, rangeEnter));
  }

  // ---------- Statements with several bodies ----------

  /** The blocks so far and what remains make up the whole. */
  ghost predicate BlocksSoFar(whole: Blocks, edges0: set<Edge>, enters: seq<nat>, leaves: seq<nat>, edges: set<Edge>, rest: Blocks) {
    && whole.enters == enters + rest.enters && whole.leaves == leaves + rest.leaves
    && edges0 + whole.edges == edges + rest.edges && whole.next == rest.next
  }

  lemma BlocksStep(bodies: seq<seq<Stmt>>, i: nat, ctx: Context, shared: Option<nat>, n: nat, whole: Blocks, edges0: set<Edge>,
                   enters: seq<nat>, leaves: seq<nat>, edges: set<Edge>)
    requires i < |bodies| && BlocksSoFar(whole, edges0, enters, leaves, edges, CompileBlocks(bodies[i..], ctx, shared, n))
    ensures var leave := if shared.Some? then shared.value else n + 1;
            var f := CompileBody(bodies[i], ctx, n, leave, FirstInside(n, shared));
            BlocksSoFar(whole, edges0, enters + [n], leaves + [leave], edges + f.edges, CompileBlocks(bodies[i + 1..], ctx, shared, f.next))
  {
    hide CompileBody, SizeBodies, SizeBody;
    assert bodies[i..][0] == bodies[i] && bodies[i..][1..] == bodies[i + 1..];
  }

  lemma {:induction false} BodySmaller(bodies: seq<seq<Stmt>>, i: nat)
    requires i < |bodies|
    ensures SizeBody(bodies[i]) <= SizeBodies(bodies)
  {
    if i > 0 {
      BodySmaller(bodies[1..], i - 1);
    }
  }

  /** Each body between two states, of which the second may be given. */
  method TranslateBlocks(bodies: seq<seq<Stmt>>, ctx: Context, shared: Option<nat>, proc: Automaton)
    returns (enters: seq<nat>, leaves: seq<nat>)
    requires ResolvedBodies(bodies, ctx.breaks.Keys, ctx.continues.Keys)
    modifies proc
    ensures var bs := CompileBlocks(bodies, ctx, shared, old(proc.next));
            && enters == bs.enters && leaves == bs.leaves && proc.edges == old(proc.edges) + bs.edges && proc.next == bs.next
    decreases SizeBodies(bodies), 2
  {
    hide CompileBody, CompileBlocks, ResolvedBody, SizeBodies;
    ghost var whole := CompileBlocks(bodies, ctx, shared, proc.next);
    ghost var edges0 := proc.edges;
    enters, leaves := [], [];
    assert bodies[0..] == bodies && [] + whole.enters == whole.enters && [] + whole.leaves == whole.leaves;
    for i := 0 to |bodies|
      invariant BlocksSoFar(whole, edges0, enters, leaves, proc.edges, CompileBlocks(bodies[i..], ctx, shared, proc.next))
    {
      BodySmaller(bodies, i);
      BlocksStep(bodies, i, ctx, shared, proc.next, whole, edges0, enters, leaves, proc.edges);
      var enter := proc.AddState();
      var leave;
      if shared.Some? {
        leave := shared.value;
      } else {
        leave := proc.AddState();
      }
      var c := new StmtContext(ctx, enter, leave);
      TranslateBody(bodies[i], proc, c);
      enters, leaves := enters + [enter], leaves + [leave];
    }
    NoBlocks(ctx, shared, proc.next);
    assert bodies[|bodies|..] == [] && enters + [] == enters && leaves + [] == leaves;
  }

  lemma NoBlocks(ctx: Context, shared: Option<nat>, n: nat)
    ensures CompileBlocks([], ctx, shared, n) == Blocks([], [], {}, n)
  {
  }

  lemma SelectResolved(s: Stmt, ctx: Context, exit: nat)
    requires s.Select? && ResolvedStmt(s, ctx.breaks.Keys, ctx.continues.Keys)
    ensures var in_ := Inside(ctx, s.id, Some(exit), None);
            ResolvedBodies(CommBodies(s.comms), in_.breaks.Keys, in_.continues.Keys)
  {
    var in_ := Inside(ctx, s.id, Some(exit), None);
    assert in_.breaks.Keys == ctx.breaks.Keys + {s.id} && in_.continues.Keys == ctx.continues.Keys - {s.id};
  }

  method TranslateSelectStmt(s: Stmt, proc: Automaton, c: StmtContext)
    requires s.Select? && ResolvedStmt(s, c.ctx.breaks.Keys, c.ctx.continues.Keys)
    modifies proc, c
    ensures Grown(old(proc.edges), proc.edges, proc.next, CompileStmt(s, c.ctx, old(c.currentState), old(proc.next)))
    ensures c.currentState == CompileStmt(s, c.ctx, old(c.currentState), old(proc.next)).exit
    decreases SizeStmt(s), -1
  {
    hide CompileBlocks, ResolvedBodies, SelectEdges, HasDefault, TriggeredAt;
    var exitSelect := proc.AddState();
    var hasDefault := IsThereDefault(s.comms);
    var pass2 := exitSelect;
    if !hasDefault {
      pass2 := proc.AddState();
    }
    SelectResolved(s, c.ctx, exitSelect);
    var enters, leaves := TranslateBlocks(CommBodies(s.comms), Inside(c.ctx, s.id, Some(exitSelect), None), Some(exitSelect), proc);
    SelectEdgesOf(s, c.ctx, c.currentState, exitSelect);
    AddSelectEdges(s, enters, pass2, hasDefault, c.currentState, exitSelect, proc);
    c.currentState := exitSelect;
  }

  lemma SelectEdgesOf(s: Stmt, ctx: Context, cur: nat, n: nat)
    requires s.Select?
    ensures var bs := CompileBlocks(CommBodies(s.comms), Inside(ctx, s.id, Some(n), None), Some(n), SecondPass(s.comms, n) + 1);
            CompileStmt(s, ctx, cur, n)
            == Fragment(bs.edges + SelectEdges(s, Blocks(bs.enters, bs.enters, {}, bs.next), cur, n),
                        TriggeredAt(s.comms, bs.next, |s.comms|), n)
  {
    hide CompileBlocks, TriggeredAt, HasDefault;
  }

  method IsThereDefault(comms: seq<Comm>) returns (hasDefault: bool)
    ensures hasDefault == HasDefault(comms)
  {
    for k := 0 to |comms|
      invariant forall j :: 0 <= j < k ==> !comms[j].Default?
    {
      if comms[k].Default? {
        return true;
      }
    }
    return false;
  }

  /** The edges of the first pass and of the confirmations, for the communications before k. */
  ghost function PolledBefore(s: Stmt, bodies: Blocks, k: nat): set<Edge>
    requires s.Select? && |bodies.enters| == |s.comms| && k <= |s.comms|
  {
    (set j | 0 <= j < k && s.comms[j].Comm? ::
      Edge(bodies.next, TriggeredAt(s.comms, bodies.next, j), [s.comms[j].trigger], Always, Keep))
    + (set j | 0 <= j < k && s.comms[j].Comm? ::
      Edge(TriggeredAt(s.comms, bodies.next, j), bodies.enters[j], [s.comms[j].confirm], Always, Keep))
  }

  /** The edges to the first k bodies from where the first pass was in vain. */
  ghost function UnpolledBefore(s: Stmt, bodies: Blocks, n: nat, k: nat): set<Edge>
    requires s.Select? && |bodies.enters| == |s.comms| && k <= |s.comms|
  {
    (set j | 0 <= j < k && s.comms[j].Default? :: Edge(bodies.next, bodies.enters[j], [s.none], Always, Keep))
    + (set j | 0 <= j < k && s.comms[j].Comm? && !HasDefault(s.comms) ::
      Edge(SecondPass(s.comms, n), bodies.enters[j], [s.comms[j].confirm], Always, Keep))
  }

  lemma PolledStep(s: Stmt, bodies: Blocks, k: nat)
    requires s.Select? && |bodies.enters| == |s.comms| && k < |s.comms|
    ensures var t, comm := TriggeredAt(s.comms, bodies.next, k), s.comms[k];
            PolledBefore(s, bodies, k + 1)
            == PolledBefore(s, bodies, k)
               + (if comm.Comm? then {Edge(bodies.next, t, [comm.trigger], Always, Keep), Edge(t, bodies.enters[k], [comm.confirm], Always, Keep)}
                  else {})
  {
    hide TriggeredAt;
  }

  lemma UnpolledStep(s: Stmt, bodies: Blocks, n: nat, k: nat)
    requires s.Select? && |bodies.enters| == |s.comms| && k < |s.comms|
    ensures UnpolledBefore(s, bodies, n, k + 1)
            == UnpolledBefore(s, bodies, n, k)
               + (if s.comms[k].Default? then {Edge(bodies.next, bodies.enters[k], [s.none], Always, Keep)}
                  else if HasDefault(s.comms) then {}
                  else {Edge(SecondPass(s.comms, n), bodies.enters[k], [s.comms[k].confirm], Always, Keep)})
  {
    hide HasDefault;
  }

  lemma SelectPieces(s: Stmt, bodies: Blocks, cur: nat, n: nat)
    requires s.Select? && |bodies.enters| == |s.comms|
    ensures SelectEdges(s, bodies, cur, n)
            == {Edge(cur, bodies.next, [s.enter], Always, Keep)} + PolledBefore(s, bodies, |s.comms|)
               + (if HasDefault(s.comms) then {} else {Edge(bodies.next, SecondPass(s.comms, n), [s.none], Always, Keep)})
               + UnpolledBefore(s, bodies, n, |s.comms|)
  {
    hide TriggeredAt, HasDefault;
  }

  /** The states and transitions of the passes over the channels. */
  method AddSelectEdges(s: Stmt, enters: seq<nat>, pass2: nat, hasDefault: bool, cur: nat, ghost n: nat, proc: Automaton)
    requires s.Select? && |enters| == |s.comms| && hasDefault == HasDefault(s.comms) && pass2 == SecondPass(s.comms, n)
    modifies proc
    ensures var bodies := Blocks(enters, enters, {}, old(proc.next));
            && proc.edges == old(proc.edges) + SelectEdges(s, bodies, cur, n)
            && proc.next == TriggeredAt(s.comms, old(proc.next), |s.comms|)
  {
    hide SelectEdges, PolledBefore, UnpolledBefore, HasDefault;
    ghost var bodies := Blocks(enters, enters, {}, proc.next);
    SelectPieces(s, bodies, cur, n);
    var pass1 := proc.AddState();
    proc.AddTransition(Edge(cur, pass1, [s.enter], Always, Keep));
    ghost var edges0 := proc.edges;
    NoneYet(s, bodies, n);
    for k := 0 to |s.comms|
      invariant proc.edges == edges0 + PolledBefore(s, bodies, k) && proc.next == TriggeredAt(s.comms, pass1, k)
    {
      PolledStep(s, bodies, k);
      if s.comms[k].Comm? {
        var triggeredCase := proc.AddState();
        proc.AddTransition(Edge(pass1, triggeredCase, [s.comms[k].trigger], Always, Keep));
        proc.AddTransition(Edge(triggeredCase, enters[k], [s.comms[k].confirm], Always, Keep));
      }
    }
    if !hasDefault {
      proc.AddTransition(Edge(pass1, pass2, [s.none], Always, Keep));
    }
    ghost var edges1 := proc.edges;
    for k := 0 to |s.comms|
      invariant proc.edges == edges1 + UnpolledBefore(s, bodies, n, k) && proc.next == TriggeredAt(s.comms, pass1, |s.comms|)
    {
      UnpolledStep(s, bodies, n, k);
      if s.comms[k].Default? {
        proc.AddTransition(Edge(pass1, enters[k], [s.none], Always, Keep));
      } else if !hasDefault {
        proc.AddTransition(Edge(pass2, enters[k], [s.comms[k].confirm], Always, Keep));
      }
    }
  }

  lemma NoneYet(s: Stmt, bodies: Blocks, n: nat)
    requires s.Select? && |bodies.enters| == |s.comms|
    ensures PolledBefore(s, bodies, 0) == {} && UnpolledBefore(s, bodies, n, 0) == {}
  {
  }

  lemma SwitchResolved(s: Stmt, ctx: Context, exit: nat)
    requires s.Switch? && ResolvedStmt(s, ctx.breaks.Keys, ctx.continues.Keys)
    ensures var in_ := Inside(ctx, s.id, None, None);
            ResolvedBodies(CondBodies(FlatConds(s.cases, 0)), in_.breaks.Keys, in_.continues.Keys)
    ensures var in_ := Inside(ctx, s.id, Some(exit), None);
            ResolvedBodies(CaseBodies(s.cases), in_.breaks.Keys, in_.continues.Keys)
  {
    var in_ := Inside(ctx, s.id, None, None);
    assert in_.breaks.Keys == ctx.breaks.Keys - {s.id} && in_.continues.Keys == ctx.continues.Keys - {s.id};
    CondsResolved(s.cases, 0, in_.breaks.Keys, in_.continues.Keys);
    var in2 := Inside(ctx, s.id, Some(exit), None);
    assert in2.breaks.Keys == ctx.breaks.Keys + {s.id} && in2.continues.Keys == ctx.continues.Keys - {s.id};
  }

  method TranslateSwitchStmt(s: Stmt, proc: Automaton, c: StmtContext)
    requires s.Switch? && ResolvedStmt(s, c.ctx.breaks.Keys, c.ctx.continues.Keys)
    modifies proc, c
    ensures Grown(old(proc.edges), proc.edges, proc.next, CompileStmt(s, c.ctx, old(c.currentState), old(proc.next)))
    ensures c.currentState == CompileStmt(s, c.ctx, old(c.currentState), old(proc.next)).exit
    decreases SizeStmt(s), -1
  {
    hide CompileBlocks, ResolvedBodies, FlatConds, DefaultCase, SwitchEdges;
    var exitSwitch := proc.AddState();
    SwitchResolved(s, c.ctx, exitSwitch);
    var conds := FlatConds(s.cases, 0);
    var condStarts, condEnds := TranslateBlocks(CondBodies(conds), Inside(c.ctx, s.id, None, None), None, proc);
    var bodyStarts, bodyEnds := TranslateBlocks(CaseBodies(s.cases), Inside(c.ctx, s.id, Some(exitSwitch), None), None, proc);
    ghost var tests := Blocks(condStarts, condEnds, {}, 0);
    ghost var bodies := Blocks(bodyStarts, bodyEnds, {}, 0);
    AddSwitchEdges(s.cases, conds, condStarts, condEnds, bodyStarts, bodyEnds, c.currentState, exitSwitch, proc);
    SwitchEdgesOf(s, c.ctx, old(c.currentState), old(proc.next), tests, bodies);
    c.currentState := exitSwitch;
  }

  lemma SwitchEdgesOf(s: Stmt, ctx: Context, cur: nat, n: nat, tests: Blocks, bodies: Blocks)
    requires s.Switch?
    requires var conds := FlatConds(s.cases, 0);
             var t := CompileBlocks(CondBodies(conds), Inside(ctx, s.id, None, None), None, n + 1);
             var b := CompileBlocks(CaseBodies(s.cases), Inside(ctx, s.id, Some(n), None), None, t.next);
             tests == Blocks(t.enters, t.leaves, {}, 0) && bodies == Blocks(b.enters, b.leaves, {}, 0)
    ensures var conds := FlatConds(s.cases, 0);
            var t := CompileBlocks(CondBodies(conds), Inside(ctx, s.id, None, None), None, n + 1);
            var b := CompileBlocks(CaseBodies(s.cases), Inside(ctx, s.id, Some(n), None), None, t.next);
            CompileStmt(s, ctx, cur, n) == Fragment(t.edges + b.edges + SwitchEdges(s.cases, conds, tests, bodies, cur, n), b.next, n)
  {
    hide CompileBlocks, FlatConds, DefaultCase;
    var conds := FlatConds(s.cases, 0);
    var t := CompileBlocks(CondBodies(conds), Inside(ctx, s.id, None, None), None, n + 1);
    var b := CompileBlocks(CaseBodies(s.cases), Inside(ctx, s.id, Some(n), None), None, t.next);
    SameSwitchEdges(s.cases, conds, t, b, tests, bodies, cur, n);
  }

  lemma SameSwitchEdges(cases: seq<Case>, conds: seq<Cond>, t: Blocks, b: Blocks, tests: Blocks, bodies: Blocks, cur: nat, exit: nat)
    requires |t.enters| == |t.leaves| == |conds| && |b.enters| == |b.leaves| == |cases|
    requires forall k :: 0 <= k < |conds| ==> conds[k].case_ < |cases|
    requires tests == Blocks(t.enters, t.leaves, {}, 0) && bodies == Blocks(b.enters, b.leaves, {}, 0)
    ensures SwitchEdges(cases, conds, t, b, cur, exit) == SwitchEdges(cases, conds, tests, bodies, cur, exit)
  {
    assert forall k :: 0 <= k <= |conds| ==> TestedFrom(t, cur, k) == TestedFrom(tests, cur, k);
    assert forall i :: 0 <= i < |cases| ==> AfterCase(cases, b, exit, i) == AfterCase(cases, bodies, exit, i);
    assert NoneHolds(cases, b, exit) == NoneHolds(cases, bodies, exit);
  }

  /** The transitions out of the first k cases. */
  ghost function CaseExits(cases: seq<Case>, bodies: Blocks, exit: nat, k: nat): set<Edge>
    requires |bodies.enters| == |bodies.leaves| == |cases| && k <= |cases|
  {
    set i | 0 <= i < k :: Silent(bodies.leaves[i], AfterCase(cases, bodies, exit, i))
  }

  /** The transitions into the first k conditions. */
  ghost function TestEntries(tests: Blocks, cur: nat, k: nat): set<Edge>
    requires |tests.enters| == |tests.leaves| && k <= |tests.enters|
  {
    set i | 0 <= i < k :: Silent(TestedFrom(tests, cur, i), tests.enters[i])
  }

  /** The transitions from the first k conditions to the cases that they select. */
  ghost function TestExits(conds: seq<Cond>, tests: Blocks, bodies: Blocks, k: nat): set<Edge>
    requires |tests.leaves| == |conds| && k <= |conds|
    requires forall i :: 0 <= i < |conds| ==> conds[i].case_ < |bodies.enters|
  {
    set i | 0 <= i < k :: Silent(tests.leaves[i], bodies.enters[conds[i].case_])
  }

  lemma SwitchParts(cases: seq<Case>, conds: seq<Cond>, tests: Blocks, bodies: Blocks, cur: nat, exit: nat)
    requires |tests.enters| == |tests.leaves| == |conds| && |bodies.enters| == |bodies.leaves| == |cases|
    requires forall k :: 0 <= k < |conds| ==> conds[k].case_ < |cases|
    ensures SwitchEdges(cases, conds, tests, bodies, cur, exit)
            == CaseExits(cases, bodies, exit, |cases|) + TestEntries(tests, cur, |conds|) + TestExits(conds, tests, bodies, |conds|)
               + {Silent(TestedFrom(tests, cur, |conds|), NoneHolds(cases, bodies, exit))}
  {
    hide AfterCase, TestedFrom, NoneHolds;
  }

  method AddCaseExits(cases: seq<Case>, bodyStarts: seq<nat>, bodyEnds: seq<nat>, exitSwitch: nat, proc: Automaton)
    requires |bodyStarts| == |bodyEnds| == |cases|
    modifies proc`edges
    ensures proc.edges == old(proc.edges) + CaseExits(cases, Blocks(bodyStarts, bodyEnds, {}, 0), exitSwitch, |cases|)
  {
    ghost var bodies := Blocks(bodyStarts, bodyEnds, {}, 0);
    for i := 0 to |cases|
      invariant proc.edges == old(proc.edges) + CaseExits(cases, bodies, exitSwitch, i)
    {
      proc.AddTransition(Silent(bodyEnds[i], if cases[i].hasFallthrough && i + 1 < |cases| then bodyStarts[i + 1] else exitSwitch));
      assert CaseExits(cases, bodies, exitSwitch, i + 1)
             == CaseExits(cases, bodies, exitSwitch, i) + {Silent(bodyEnds[i], AfterCase(cases, bodies, exitSwitch, i))};
    }
  }

  method AddTests(conds: seq<Cond>, condStarts: seq<nat>, condEnds: seq<nat>, bodyStarts: seq<nat>, cur: nat, proc: Automaton)
    returns (lastCondState: nat)
    requires |condStarts| == |condEnds| == |conds|
    requires forall k :: 0 <= k < |conds| ==> conds[k].case_ < |bodyStarts|
    modifies proc`edges
    ensures var tests, bodies := Blocks(condStarts, condEnds, {}, 0), Blocks(bodyStarts, [], {}, 0);
            && lastCondState == TestedFrom(tests, cur, |conds|)
            && proc.edges == old(proc.edges) + TestEntries(tests, cur, |conds|) + TestExits(conds, tests, bodies, |conds|)
  {
    hide TestEntries, TestExits;
    ghost var tests, bodies := Blocks(condStarts, condEnds, {}, 0), Blocks(bodyStarts, [], {}, 0);
    lastCondState := cur;
    TestsStart(conds, tests, bodies, cur);
    for k := 0 to |conds|
      invariant lastCondState == TestedFrom(tests, cur, k)
      invariant proc.edges == old(proc.edges) + TestEntries(tests, cur, k) + TestExits(conds, tests, bodies, k)
    {
      TestsStep(conds, tests, bodies, cur, k);
      proc.AddTransition(Silent(lastCondState, condStarts[k]));
      proc.AddTransition(Silent(condEnds[k], bodyStarts[conds[k].case_]));
      lastCondState := condEnds[k];
    }
  }

  lemma TestsStart(conds: seq<Cond>, tests: Blocks, bodies: Blocks, cur: nat)
    requires |tests.enters| == |tests.leaves| == |conds|
    requires forall i :: 0 <= i < |conds| ==> conds[i].case_ < |bodies.enters|
    ensures TestEntries(tests, cur, 0) == {} && TestExits(conds, tests, bodies, 0) == {}
  {
  }

  lemma TestsStep(conds: seq<Cond>, tests: Blocks, bodies: Blocks, cur: nat, k: nat)
    requires |tests.enters| == |tests.leaves| == |conds| && k < |conds|
    requires forall i :: 0 <= i < |conds| ==> conds[i].case_ < |bodies.enters|
    ensures TestEntries(tests, cur, k + 1) == TestEntries(tests, cur, k) + {Silent(TestedFrom(tests, cur, k), tests.enters[k])}
    ensures TestExits(conds, tests, bodies, k + 1)
            == TestExits(conds, tests, bodies, k) + {Silent(tests.leaves[k], bodies.enters[conds[k].case_])}
  {
    hide TestedFrom;
  }

  lemma OnlyStartsMatter(conds: seq<Cond>, tests: Blocks, bodies: Blocks, other: Blocks)
    requires |tests.leaves| == |conds| && bodies.enters == other.enters
    requires forall i :: 0 <= i < |conds| ==> conds[i].case_ < |bodies.enters|
    ensures TestExits(conds, tests, bodies, |conds|) == TestExits(conds, tests, other, |conds|)
  {
  }

  /** The transitions between the conditions and bodies of a switch. */
  method AddSwitchEdges(cases: seq<Case>, conds: seq<Cond>, condStarts: seq<nat>, condEnds: seq<nat>, bodyStarts: seq<nat>,
                        bodyEnds: seq<nat>, cur: nat, exitSwitch: nat, proc: Automaton)
    requires |condStarts| == |condEnds| == |conds| && |bodyStarts| == |bodyEnds| == |cases|
    requires forall k :: 0 <= k < |conds| ==> conds[k].case_ < |cases|
    modifies proc`edges
    ensures proc.edges == old(proc.edges) + SwitchEdges(cases, conds, Blocks(condStarts, condEnds, {}, 0),
                                                        Blocks(bodyStarts, bodyEnds, {}, 0), cur, exitSwitch)
  {
    hide DefaultCase, SwitchEdges, CaseExits, TestEntries, TestExits, TestedFrom;
    ghost var tests, bodies := Blocks(condStarts, condEnds, {}, 0), Blocks(bodyStarts, bodyEnds, {}, 0);
    AddCaseExits(cases, bodyStarts, bodyEnds, exitSwitch, proc);
    var lastCondState := AddTests(conds, condStarts, condEnds, bodyStarts, cur, proc);
    OnlyStartsMatter(conds, tests, Blocks(bodyStarts, [], {}, 0), bodies);
    var defaultCase := DefaultCase(cases);
    var target := exitSwitch;
    if defaultCase.Some? && defaultCase.value < |cases| {
      target := bodyStarts[defaultCase.value];
    }
    proc.AddTransition(Silent(lastCondState, target));
    SwitchParts(cases, conds, tests, bodies, cur, exitSwitch);
  }
}
