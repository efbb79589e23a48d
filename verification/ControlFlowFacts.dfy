/** Where the states of a translated statement lie, and which edges leave them. */
module ControlFlowFacts {
  import opened IrBodies
  import opened ControlFlow

  ghost predicate Resolved(b: seq<Stmt>, ctx: Context) { ResolvedBody(b, ctx.breaks.Keys, ctx.continues.Keys) }

  /** The states of the context were made before state n. */
  ghost predicate Before(ctx: Context, n: nat) {
    && ctx.exitFunc < n
    && (forall i :: i in ctx.breaks ==> ctx.breaks[i] < n) && (forall i :: i in ctx.continues ==> ctx.continues[i] < n)
  }

  lemma BeforeNotSpecial(ctx: Context, n: nat, state: nat)
    requires Before(ctx, n) && n <= state
    ensures !IsSpecial(ctx, state)
  {
  }

  lemma BeforeLater(ctx: Context, n: nat, m: nat)
    requires Before(ctx, n) && n <= m
    ensures Before(ctx, m)
  {
  }

  lemma InsideBefore(ctx: Context, id: nat, break_: Option<nat>, continue_: Option<nat>, n: nat)
    requires Before(ctx, n) && (break_.Some? ==> break_.value < n) && (continue_.Some? ==> continue_.value < n)
    ensures Before(Inside(ctx, id, break_, continue_), n)
  {
  }

  lemma InsideKeys(ctx: Context, id: nat, break_: Option<nat>, continue_: Option<nat>)
    ensures var inner := Inside(ctx, id, break_, continue_);
            && inner.breaks.Keys == (if break_.Some? then ctx.breaks.Keys + {id} else ctx.breaks.Keys - {id})
            && inner.continues.Keys == (if continue_.Some? then ctx.continues.Keys + {id} else ctx.continues.Keys - {id})
  {
  }

  /** The edges leave the current state or new states. */
  ghost predicate LeavesNew(es: set<Edge>, cur: nat, n: nat, next: nat) {
    n <= next && forall e :: e in es ==> e.src == cur || n <= e.src < next
  }

  predicate Jumps(s: Stmt) { s.Break? || s.Continue? || s.Return? }

  ghost predicate StmtPlaced(s: Stmt, ctx: Context, cur: nat, n: nat) {
    var f := CompileStmt(s, ctx, cur, n);
    && LeavesNew(f.edges, cur, n, f.next)
    && (if Jumps(s) then IsSpecial(ctx, f.exit) else n <= f.exit < f.next && forall e :: e in f.edges ==> e.src != f.exit)
  }

  lemma {:induction false} BodyPlaced(b: seq<Stmt>, ctx: Context, cur: nat, exitBody: nat, n: nat)
    requires Resolved(b, ctx) && Before(ctx, n) && cur < n
    ensures var f := CompileBody(b, ctx, cur, exitBody, n); LeavesNew(f.edges, cur, n, f.next)
    decreases SizeBody(b), 1
  {
    if b != [] {
      StmtIsPlaced(b[0], ctx, cur, n);
      var f := CompileStmt(b[0], ctx, cur, n);
      if !IsSpecial(ctx, f.exit) {
        BeforeLater(ctx, n, f.next);
        BodyPlaced(b[1..], ctx, f.exit, exitBody, f.next);
      }
    }
  }

  lemma {:induction false} BlocksPlaced(bodies: seq<seq<Stmt>>, ctx: Context, shared: Option<nat>, n: nat)
    requires ResolvedBodies(bodies, ctx.breaks.Keys, ctx.continues.Keys) && Before(ctx, n) && (shared.Some? ==> shared.value < n)
    ensures var bs := CompileBlocks(bodies, ctx, shared, n);
            && n <= bs.next && (forall e :: e in bs.edges ==> n <= e.src < bs.next)
            && (forall k :: 0 <= k < |bodies| ==> n <= bs.enters[k] < bs.next)
            && (forall k :: 0 <= k < |bodies| ==> if shared.Some? then bs.leaves[k] == shared.value else n <= bs.leaves[k] < bs.next)
    decreases SizeBodies(bodies), 2, |bodies|
  {
    if bodies != [] {
      var leave, m := if shared.Some? then shared.value else n + 1, FirstInside(n, shared);
      BeforeLater(ctx, n, m);
      BodyPlaced(bodies[0], ctx, n, leave, m);
      var f := CompileBody(bodies[0], ctx, n, leave, m);
      BeforeLater(ctx, n, f.next);
      BlocksPlaced(bodies[1..], ctx, shared, f.next);
    }
  }

  lemma {:induction false} StmtIsPlaced(s: Stmt, ctx: Context, cur: nat, n: nat)
    requires ResolvedStmt(s, ctx.breaks.Keys, ctx.continues.Keys) && Before(ctx, n) && cur < n
    ensures StmtPlaced(s, ctx, cur, n)
    decreases SizeStmt(s), 0, 1
  {
    match s
    case If(a, b) => IfPlaced(s, ctx, cur, n);
    case Switch(id, cases) => SwitchPlaced(s, ctx, cur, n);
    case Select(_, _, _, _) => SelectPlaced(s, ctx, cur, n);
    case For(id, cond, body, infinite, min, max) => ForPlaced(s, ctx, cur, n);
    case Range(_, _, _, _, _, _, _) => RangePlaced(s, ctx, cur, n);
    case _ => SimplePlaced(s, ctx, cur, n);
  }

  lemma SimplePlaced(s: Stmt, ctx: Context, cur: nat, n: nat)
    requires s.Basic? || Jumps(s)
    requires ResolvedStmt(s, ctx.breaks.Keys, ctx.continues.Keys) && Before(ctx, n) && cur < n
    ensures StmtPlaced(s, ctx, cur, n)
  {
    match s
    case Break(id) => assert ctx.breaks[id] in ctx.breaks.Values;
    case Continue(id) => assert ctx.continues[id] in ctx.continues.Values;
    case _ =>
  }

  lemma RangePlaced(s: Stmt, ctx: Context, cur: nat, n: nat)
    requires s.Range?
    requires ResolvedStmt(s, ctx.breaks.Keys, ctx.continues.Keys) && Before(ctx, n) && cur < n
    ensures StmtPlaced(s, ctx, cur, n)
    decreases SizeStmt(s), 0, 0
  {
    hide Before, Inside, CompileBody, ResolvedBody, SizeBody;
    BeforeLater(ctx, n, n + 6);
    InsideBefore(ctx, s.id, Some(n + 5), Some(n + 4), n + 6);
    InsideKeys(ctx, s.id, Some(n + 5), Some(n + 4));
    BodyPlaced(s.body, Inside(ctx, s.id, Some(n + 5), Some(n + 4)), n + 3, n + 4, n + 6);
  }

  lemma IfPlaced(s: Stmt, ctx: Context, cur: nat, n: nat)
    requires s.If?
    requires ResolvedStmt(s, ctx.breaks.Keys, ctx.continues.Keys) && Before(ctx, n) && cur < n
    ensures StmtPlaced(s, ctx, cur, n)
    decreases SizeStmt(s), 0, 0
  {
    hide CompileBody, ResolvedBody, LeavesNew, Before, IsSpecial;
    BeforeLater(ctx, n, n + 2);
    BodyPlaced(s.ifBranch, InsideIf(ctx), n, n + 1, n + 2);
    var f := CompileBody(s.ifBranch, InsideIf(ctx), n, n + 1, n + 2);
    assert f.next >= n + 2 by { LeavesLater(f.edges, n, n + 2, f.next); }
    BeforeLater(ctx, n, f.next + 1);
    BodyPlaced(s.elseBranch, InsideIf(ctx), f.next, n + 1, f.next + 1);
    var g := CompileBody(s.elseBranch, InsideIf(ctx), f.next, n + 1, f.next + 1);
    BranchesPlaced(f.edges, g.edges, cur, n, f.next, g.next);
  }

  lemma LeavesLater(es: set<Edge>, cur: nat, n: nat, next: nat)
    requires LeavesNew(es, cur, n, next)
    ensures n <= next
  {
  }

  /** Two branches, one after the other, between the states of an if statement. */
  lemma BranchesPlaced(es: set<Edge>, fs: set<Edge>, cur: nat, n: nat, elseEnter: nat, next: nat)
    requires cur < n && LeavesNew(es, n, n + 2, elseEnter) && LeavesNew(fs, elseEnter, elseEnter + 1, next)
    ensures var all := es + fs + {Silent(cur, n), Silent(cur, elseEnter)};
            LeavesNew(all, cur, n, next) && n + 1 < next && forall e :: e in all ==> e.src != n + 1
  {
  }

  lemma SelectPlaced(s: Stmt, ctx: Context, cur: nat, n: nat)
    requires s.Select?
    requires ResolvedStmt(s, ctx.breaks.Keys, ctx.continues.Keys) && Before(ctx, n) && cur < n
    ensures StmtPlaced(s, ctx, cur, n)
    decreases SizeStmt(s), 0, 0
  {
    hide Before, Inside, CompileBlocks, SelectEdges, ResolvedBody, SizeBody, SizeBodies, TriggeredAt;
    var m, in_ := SecondPass(s.comms, n) + 1, Inside(ctx, s.id, Some(n), None);
    BeforeLater(ctx, n, m);
    InsideBefore(ctx, s.id, Some(n), None, m);
    InsideKeys(ctx, s.id, Some(n), None);
    BlocksPlaced(CommBodies(s.comms), in_, Some(n), m);
    var bodies := CompileBlocks(CommBodies(s.comms), in_, Some(n), m);
    TriggeredFrom(s.comms, bodies.next, |s.comms|);
    SelectEdgesPlaced(s, bodies, cur, n);
  }

  lemma {:induction false} TriggeredFrom(comms: seq<Comm>, firstPass: nat, k: nat)
    requires k <= |comms|
    ensures TriggeredAt(comms, firstPass, k) > firstPass
  {
    if k > 0 {
      TriggeredFrom(comms, firstPass, k - 1);
    }
  }

  /** The states of triggered cases follow each other. */
  lemma {:induction false} TriggeredApart(comms: seq<Comm>, firstPass: nat, j: nat, k: nat)
    requires j < k <= |comms|
    ensures TriggeredAt(comms, firstPass, j) <= TriggeredAt(comms, firstPass, k)
    ensures comms[j].Comm? ==> TriggeredAt(comms, firstPass, j) < TriggeredAt(comms, firstPass, k)
  {
    if j < k - 1 {
      TriggeredApart(comms, firstPass, j, k - 1);
    }
  }

  /** The edges of a select leave its current state, the states of its passes or that of a triggered case. */
  lemma SelectEdgesPlaced(s: Stmt, bodies: Blocks, cur: nat, n: nat)
    requires s.Select? && |bodies.enters| == |s.comms|
    ensures forall e :: e in SelectEdges(s, bodies, cur, n) ==>
              || e.src == cur || bodies.next <= e.src < TriggeredAt(s.comms, bodies.next, |s.comms|)
              || (!HasDefault(s.comms) && e.src == n + 1)
  {
    hide HasDefault, TriggeredAt;
    TriggeredFrom(s.comms, bodies.next, |s.comms|);
    forall e | e in ConfirmEdges(s, bodies)
      ensures bodies.next < e.src < TriggeredAt(s.comms, bodies.next, |s.comms|)
    {
      var k :| 0 <= k < |s.comms| && s.comms[k].Comm?
               && e == Edge(TriggeredAt(s.comms, bodies.next, k), bodies.enters[k], [s.comms[k].confirm], Always, Keep);
      TriggeredFrom(s.comms, bodies.next, k);
      TriggeredApart(s.comms, bodies.next, k, |s.comms|);
    }
  }

  lemma ForPlaced(s: Stmt, ctx: Context, cur: nat, n: nat)
    requires s.For?
    requires ResolvedStmt(s, ctx.breaks.Keys, ctx.continues.Keys) && Before(ctx, n) && cur < n
    ensures StmtPlaced(s, ctx, cur, n)
    decreases SizeStmt(s), 0, 0
  {
    hide Before, Inside, CompileBody, ForEdges, ResolvedBody, SizeBody;
    BeforeLater(ctx, n, n + 2);
    InsideBefore(ctx, s.id, None, None, n + 2);
    InsideKeys(ctx, s.id, None, None);
    BodyPlaced(s.cond, Inside(ctx, s.id, None, None), n, n + 1, n + 2);
    var test := CompileBody(s.cond, Inside(ctx, s.id, None, None), n, n + 1, n + 2);
    BeforeLater(ctx, n, test.next + 3);
    InsideBefore(ctx, s.id, Some(test.next + 2), Some(test.next + 1), test.next + 3);
    InsideKeys(ctx, s.id, Some(test.next + 2), Some(test.next + 1));
    BodyPlaced(s.body, Inside(ctx, s.id, Some(test.next + 2), Some(test.next + 1)), test.next, test.next + 1, test.next + 3);
    ForEdgesPlaced(s, ctx.depth, cur, n, n + 1, test.next, test.next + 1, test.next + 2);
  }

  lemma ForEdgesPlaced(s: Stmt, depth: nat, cur: nat, condEnter: nat, condExit: nat, enter: nat, leave: nat, exit: nat)
    requires s.For?
    ensures forall e :: e in ForEdges(s, depth, cur, condEnter, condExit, enter, leave, exit) ==>
              e.src == cur || e.src == condExit || e.src == leave
  {
  }

  lemma SwitchPlaced(s: Stmt, ctx: Context, cur: nat, n: nat)
    requires s.Switch?
    requires ResolvedStmt(s, ctx.breaks.Keys, ctx.continues.Keys) && Before(ctx, n) && cur < n
    ensures StmtPlaced(s, ctx, cur, n)
    decreases SizeStmt(s), 0, 0
  {
    hide Before, Inside, CompileBlocks, SwitchEdges, ResolvedBody, ResolvedBodies, SizeBodies, CondBodies, CaseBodies, FlatConds;
    var conds := FlatConds(s.cases, 0);
    var inTest, inBody := Inside(ctx, s.id, None, None), Inside(ctx, s.id, Some(n), None);
    BeforeLater(ctx, n, n + 1);
    InsideBefore(ctx, s.id, None, None, n + 1);
    InsideKeys(ctx, s.id, None, None);
    CasesResolved(s.cases, s.id, ctx.breaks.Keys, ctx.continues.Keys);
    CondsResolved(s.cases, 0, inTest.breaks.Keys, inTest.continues.Keys);
    BlocksPlaced(CondBodies(conds), inTest, None, n + 1);
    var tests := CompileBlocks(CondBodies(conds), inTest, None, n + 1);
    BeforeLater(ctx, n, tests.next);
    InsideBefore(ctx, s.id, Some(n), None, tests.next);
    InsideKeys(ctx, s.id, Some(n), None);
    CasesResolved(s.cases, s.id, ctx.breaks.Keys, ctx.continues.Keys);
    BlocksPlaced(CaseBodies(s.cases), inBody, None, tests.next);
    SwitchEdgesPlaced(s.cases, conds, tests, CompileBlocks(CaseBodies(s.cases), inBody, None, tests.next), cur, n);
  }

  lemma CasesResolved(cases: seq<Case>, id: nat, bs: set<nat>, cs: set<nat>)
    requires ResolvedCases(cases, id, bs, cs)
    ensures ResolvedBodies(CaseBodies(cases), bs + {id}, cs - {id})
    ensures forall j :: 0 <= j < |cases| ==> ResolvedTests(cases[j].conds, bs - {id}, cs - {id})
  {
  }

  lemma SwitchEdgesPlaced(cases: seq<Case>, conds: seq<Cond>, tests: Blocks, bodies: Blocks, cur: nat, exit: nat)
    requires |tests.enters| == |tests.leaves| == |conds| && |bodies.enters| == |bodies.leaves| == |cases|
    requires forall k :: 0 <= k < |conds| ==> conds[k].case_ < |cases|
    ensures forall e :: e in SwitchEdges(cases, conds, tests, bodies, cur, exit) ==>
              e.src == cur || e.src in tests.leaves || e.src in bodies.leaves
  {
  }
}
