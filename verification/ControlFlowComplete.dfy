module ControlFlowComplete {
  // Every run of a statement is a path of the automaton through the translated statement; with the other
  // direction, the label sequences of the automaton's paths are the traces of the runs.

  import opened IrBodies
  import opened ControlFlow
  import opened ControlFlowFacts
  import opened ControlFlowSound

  /** The path p leads from a to y, passes the labels tr and keeps the counters of enclosing loops. */
  ghost predicate Leads(es: set<Edge>, a: nat, c: Counters, p: seq<Edge>, y: nat, d: Counters, tr: seq<nat>, depth: nat) {
    IsPath(es, a, c, p, y, d) && Labels(p) == tr && Agree(depth, c, d)
  }

  lemma {:induction false} PathAppend(es: set<Edge>, a: nat, c: Counters, p: seq<Edge>, b: nat, d: Counters,
                                      q: seq<Edge>, x: nat, f: Counters)
    requires IsPath(es, a, c, p, b, d) && IsPath(es, b, d, q, x, f)
    ensures IsPath(es, a, c, p + q, x, f)
    decreases |p|
  {
    if p == [] {
      assert p + q == q;
    } else {
      assert (p + q)[1..] == p[1..] + q;
      PathAppend(es, p[0].dst, Apply(p[0].update, c), p[1..], b, d, q, x, f);
    }
  }

  lemma LeadsOn(es: set<Edge>, a: nat, c: Counters, p: seq<Edge>, b: nat, d: Counters, tr1: seq<nat>,
                q: seq<Edge>, x: nat, f: Counters, tr2: seq<nat>, depth: nat)
    requires Leads(es, a, c, p, b, d, tr1, depth) && Leads(es, b, d, q, x, f, tr2, depth)
    ensures Leads(es, a, c, p + q, x, f, tr1 + tr2, depth)
  {
    PathAppend(es, a, c, p, b, d, q, x, f);
    LabelsAppend(p, q);
  }

  lemma LeadsOut(es: set<Edge>, a: nat, c: Counters, p: seq<Edge>, b: nat, d: Counters, tr: seq<nat>, depth: nat)
    requires Leads(es, a, c, p, b, d, tr, depth + 1)
    ensures Leads(es, a, c, p, b, d, tr, depth)
  {
  }

  lemma OneEdge(es: set<Edge>, e: Edge, c: Counters, depth: nat)
    requires e in es && Holds(e.guard, c) && Touches(e.update, depth)
    ensures Leads(es, e.src, c, [e], e.dst, Apply(e.update, c), e.labels, depth)
  {
    assert Labels([e]) == e.labels + Labels([]);
  }

  // ---------- Bodies and statements ----------

  lemma {:induction false} BodyComplete(b: seq<Stmt>, ctx: Context, cur: nat, exitBody: nat, n: nat, es: set<Edge>,
                                        r: Run, c: Counters)
    returns (p: seq<Edge>, d: Counters)
    requires Resolved(b, ctx) && Before(ctx, n) && cur < n && !IsSpecial(ctx, cur)
    requires CompileBody(b, ctx, cur, exitBody, n).edges <= es && RunsBody(b, r)
    ensures Leads(es, cur, c, p, Target(ctx, exitBody, OutBody(b, r)), d, Trace(r), ctx.depth)
    decreases r, 3
  {
    if b == [] {
      OneEdge(es, Silent(cur, exitBody), c, ctx.depth);
      p, d := [Silent(cur, exitBody)], c;
    } else {
      var f := CompileStmt(b[0], ctx, cur, n);
      StmtIsPlaced(b[0], ctx, cur, n);
      BodyEdges(b, ctx, cur, exitBody, n, es);
      p, d := StmtComplete(b[0], ctx, cur, n, es, r.first, c);
      hide Before, CompileStmt, IsSpecial, Agree, IsPath, Labels, ResolvedBody;
      var out := OutStmt(b[0], r.first);
      if out != Normal {
        TargetAbnormal(ctx, f.exit, exitBody, out);
        assert Trace(r.first) + [] == Trace(r.first);
      } else {
        var q, d2;
        q, d2 := BodyComplete(b[1..], ctx, f.exit, exitBody, f.next, es, r.rest, d);
        LeadsOn(es, cur, c, p, f.exit, d, Trace(r.first), q, Target(ctx, exitBody, OutBody(b[1..], r.rest)), d2, Trace(r.rest), ctx.depth);
        p, d := p + q, d2;
      }
    }
  }

  lemma BodyEdges(b: seq<Stmt>, ctx: Context, cur: nat, exitBody: nat, n: nat, es: set<Edge>)
    requires Resolved(b, ctx) && Before(ctx, n) && cur < n && b != []
    requires CompileBody(b, ctx, cur, exitBody, n).edges <= es
    ensures var f := CompileStmt(b[0], ctx, cur, n);
            && ResolvedStmt(b[0], ctx.breaks.Keys, ctx.continues.Keys) && Resolved(b[1..], ctx) && f.edges <= es
            && (!Jumps(b[0]) ==> !IsSpecial(ctx, f.exit) && f.exit < f.next && Before(ctx, f.next)
                                 && CompileBody(b[1..], ctx, f.exit, exitBody, f.next).edges <= es)
  {
    StmtIsPlaced(b[0], ctx, cur, n);
    var f := CompileStmt(b[0], ctx, cur, n);
    if !Jumps(b[0]) {
      BeforeNotSpecial(ctx, n, f.exit);
    }
  }

  lemma {:induction false} StmtComplete(s: Stmt, ctx: Context, cur: nat, n: nat, es: set<Edge>, r: Run, c: Counters)
    returns (p: seq<Edge>, d: Counters)
    requires ResolvedStmt(s, ctx.breaks.Keys, ctx.continues.Keys) && Before(ctx, n) && cur < n && !IsSpecial(ctx, cur)
    requires CompileStmt(s, ctx, cur, n).edges <= es && RunsStmt(s, r)
    ensures Leads(es, cur, c, p, Target(ctx, CompileStmt(s, ctx, cur, n).exit, OutStmt(s, r)), d, Trace(r), ctx.depth)
    decreases r, 2
  {
    match s
    case If(_, _) => p, d := IfComplete(s, ctx, cur, n, es, r, c);
    case For(_, _, _, _, _, _) => p, d := ForComplete(s, ctx, cur, n, es, r, c);
    case Range(_, _, _, _, _, _, _) => p, d := RangeComplete(s, ctx, cur, n, es, r, c);
    case Select(_, _, _, _) => p, d := SelectComplete(s, ctx, cur, n, es, r, c);
    case Switch(_, _) => p, d := SwitchComplete(s, ctx, cur, n, es, r, c);
    case _ => p, d := SimpleComplete(s, ctx, cur, n, es, r, c);
  }

  lemma SimpleComplete(s: Stmt, ctx: Context, cur: nat, n: nat, es: set<Edge>, r: Run, c: Counters)
    returns (p: seq<Edge>, d: Counters)
    requires (s.Basic? || Jumps(s)) && ResolvedStmt(s, ctx.breaks.Keys, ctx.continues.Keys)
    requires CompileStmt(s, ctx, cur, n).edges <= es && RunsStmt(s, r)
    ensures Leads(es, cur, c, p, Target(ctx, CompileStmt(s, ctx, cur, n).exit, OutStmt(s, r)), d, Trace(r), ctx.depth)
  {
    var f := CompileStmt(s, ctx, cur, n);
    var e := if s.Basic? then Edge(cur, n, [s.label_], Always, Keep)
             else if s.Return? then Edge(cur, ctx.exitFunc, [s.label_], Always, Keep) else Silent(cur, f.exit);
    assert e in f.edges;
    OneEdge(es, e, c, ctx.depth);
    p, d := [e], c;
  }

  /** An edge into the entry state of a body and then a run of the body. */
  lemma EnterComplete(b: seq<Stmt>, in_: Context, enter: nat, leave: nat, m: nat, depth: nat, es: set<Edge>,
                      e: Edge, r: Run, c: Counters)
    returns (p: seq<Edge>, d: Counters)
    requires Resolved(b, in_) && Before(in_, m) && enter < m && !IsSpecial(in_, enter) && in_.depth == depth + 1
    requires CompileBody(b, in_, enter, leave, m).edges <= es && RunsBody(b, r)
    requires e in es && e.dst == enter && e.guard == Always && e.update == Keep
    ensures Leads(es, e.src, c, p, Target(in_, leave, OutBody(b, r)), d, e.labels + Trace(r), depth)
    decreases r, 4
  {
    OneEdge(es, e, c, depth);
    var q;
    q, d := BodyComplete(b, in_, enter, leave, m, es, r, c);
    LeadsOut(es, enter, c, q, Target(in_, leave, OutBody(b, r)), d, Trace(r), depth);
    LeadsOn(es, e.src, c, [e], enter, c, e.labels, q, Target(in_, leave, OutBody(b, r)), d, Trace(r), depth);
    p := [e] + q;
  }

  lemma IfInside(s: Stmt, ctx: Context, cur: nat, n: nat, es: set<Edge>)
    requires s.If? && ResolvedStmt(s, ctx.breaks.Keys, ctx.continues.Keys) && Before(ctx, n) && cur < n
    requires CompileStmt(s, ctx, cur, n).edges <= es
    ensures var in_, f := InsideIf(ctx), CompileBody(s.ifBranch, InsideIf(ctx), n, n + 1, n + 2);
            var g := CompileBody(s.elseBranch, in_, f.next, n + 1, f.next + 1);
            && Resolved(s.ifBranch, in_) && Resolved(s.elseBranch, in_)
            && Before(in_, n + 2) && Before(in_, f.next + 1) && !IsSpecial(in_, n) && !IsSpecial(in_, f.next)
            && f.edges <= es && g.edges <= es && Silent(cur, n) in es && Silent(cur, f.next) in es
            && CompileStmt(s, ctx, cur, n).exit == n + 1
  {
    hide CompileBody, Before, IsSpecial, LeavesNew, ResolvedBody;
    var f := CompileBody(s.ifBranch, InsideIf(ctx), n, n + 1, n + 2);
    InsideIfBefore(ctx, n, n + 2);
    BodyPlaced(s.ifBranch, InsideIf(ctx), n, n + 1, n + 2);
    PlacedBounds(f.edges, n, n + 2, f.next);
    InsideIfBefore(ctx, n, f.next + 1);
  }

  lemma IfComplete(s: Stmt, ctx: Context, cur: nat, n: nat, es: set<Edge>, r: Run, c: Counters)
    returns (p: seq<Edge>, d: Counters)
    requires s.If? && ResolvedStmt(s, ctx.breaks.Keys, ctx.continues.Keys) && Before(ctx, n) && cur < n
    requires CompileStmt(s, ctx, cur, n).edges <= es && RunsStmt(s, r)
    ensures Leads(es, cur, c, p, Target(ctx, CompileStmt(s, ctx, cur, n).exit, OutStmt(s, r)), d, Trace(r), ctx.depth)
    decreases r, 1
  {
    hide Before, CompileBody, IsPath, Agree, ResolvedBody, IsSpecial, Labels, Leads, CompileStmt, ResolvedStmt, RunsStmt, OutStmt,
      Trace, RunsBody;
    var in_ := InsideIf(ctx);
    var f := CompileBody(s.ifBranch, in_, n, n + 1, n + 2);
    IfInside(s, ctx, cur, n, es);
    IfRun(s, r);
    if r.which == 0 {
      p, d := EnterComplete(s.ifBranch, in_, n, n + 1, n + 2, ctx.depth, es, Silent(cur, n), r.inner, c);
    } else {
      p, d := EnterComplete(s.elseBranch, in_, f.next, n + 1, f.next + 1, ctx.depth, es, Silent(cur, f.next), r.inner, c);
    }
    SameTarget(ctx, n + 1, OutStmt(s, r));
  }

  lemma IfRun(s: Stmt, r: Run)
    requires s.If? && RunsStmt(s, r)
    ensures r.Pick? && RunsBody(if r.which == 0 then s.ifBranch else s.elseBranch, r.inner)
    ensures OutStmt(s, r) == OutBody(if r.which == 0 then s.ifBranch else s.elseBranch, r.inner)
    ensures Trace(r) == [] + Trace(r.inner)
  {
  }

  lemma SameTarget(ctx: Context, exit: nat, out: Outcome)
    ensures Target(InsideIf(ctx), exit, out) == Target(ctx, exit, out)
  {
  }

  // ---------- Range loops ----------

  lemma RangeInside(s: Stmt, ctx: Context, cur: nat, n: nat, es: set<Edge>)
    requires s.Range? && ResolvedStmt(s, ctx.breaks.Keys, ctx.continues.Keys) && Before(ctx, n) && cur < n
    requires CompileStmt(s, ctx, cur, n).edges <= es
    ensures var in_ := Inside(ctx, s.id, Some(n + 5), Some(n + 4));
            && Resolved(s.body, in_) && Before(in_, n + 6) && !IsSpecial(in_, n + 3) && in_.depth == ctx.depth + 1
            && CompileBody(s.body, in_, n + 3, n + 4, n + 6).edges <= es && RangeEdges(s, cur, n, n + 3, n + 4, n + 5) <= es
  {
    hide CompileBody, Before, IsSpecial, ResolvedBody;
    InsideFresh(ctx, s.id, Some(n + 5), Some(n + 4), n, n + 6, n + 3);
  }

  lemma RangeComplete(s: Stmt, ctx: Context, cur: nat, n: nat, es: set<Edge>, r: Run, c: Counters)
    returns (p: seq<Edge>, d: Counters)
    requires s.Range? && ResolvedStmt(s, ctx.breaks.Keys, ctx.continues.Keys) && Before(ctx, n) && cur < n
    requires CompileStmt(s, ctx, cur, n).edges <= es && RunsStmt(s, r)
    ensures Leads(es, cur, c, p, Target(ctx, CompileStmt(s, ctx, cur, n).exit, OutStmt(s, r)), d, Trace(r), ctx.depth)
    decreases r, 1
  {
    hide Before, CompileBody, IsPath, Agree, ResolvedBody, IsSpecial, Labels, Inside, Leads;
    RangeInside(s, ctx, cur, n, es);
    var e := Edge(cur, n, [s.enter], Always, Keep);
    assert e in RangeEdges(s, cur, n, n + 3, n + 4, n + 5);
    OneEdge(es, e, c, ctx.depth);
    var q;
    q, d := PassesComplete(s, ctx, cur, n, es, r.rest, c);
    LeadsOn(es, cur, c, [e], n, c, [s.enter], q, Target(ctx, n + 5, OutLoop(s, r.rest)), d, Trace(r.rest), ctx.depth);
    p := [e] + q;
  }

  /** A receive of the range loop. */
  lemma ReceiveComplete(s: Stmt, ctx: Context, cur: nat, n: nat, es: set<Edge>, c: Counters) returns (p: seq<Edge>)
    requires s.Range? && ResolvedStmt(s, ctx.breaks.Keys, ctx.continues.Keys) && Before(ctx, n) && cur < n
    requires CompileStmt(s, ctx, cur, n).edges <= es
    ensures Leads(es, n, c, p, n + 2, c, [s.trigger, s.confirm], ctx.depth)
  {
    hide Before, CompileBody, IsPath, Agree, ResolvedBody, IsSpecial, Labels, Inside, Leads, CompileStmt;
    RangeInside(s, ctx, cur, n, es);
    var trigger, confirm := Edge(n, n + 1, [s.trigger], Always, Keep), Edge(n + 1, n + 2, [s.confirm], Always, Keep);
    assert trigger in RangeEdges(s, cur, n, n + 3, n + 4, n + 5) && confirm in RangeEdges(s, cur, n, n + 3, n + 4, n + 5);
    OneEdge(es, trigger, c, ctx.depth);
    OneEdge(es, confirm, c, ctx.depth);
    LeadsOn(es, n, c, [trigger], n + 1, c, [s.trigger], [confirm], n + 2, c, [s.confirm], ctx.depth);
    p := [trigger] + [confirm];
    assert [s.trigger] + [s.confirm] == [s.trigger, s.confirm];
  }

  lemma {:induction false} PassesComplete(s: Stmt, ctx: Context, cur: nat, n: nat, es: set<Edge>, r: Run, c: Counters)
    returns (p: seq<Edge>, d: Counters)
    requires s.Range? && ResolvedStmt(s, ctx.breaks.Keys, ctx.continues.Keys) && Before(ctx, n) && cur < n
    requires CompileStmt(s, ctx, cur, n).edges <= es && RunsRange(s, r)
    ensures Leads(es, n, c, p, Target(ctx, n + 5, OutLoop(s, r)), d, Trace(r), ctx.depth)
    decreases r, 0, 1
  {
    hide Before, CompileBody, IsPath, Agree, ResolvedBody, IsSpecial, Labels, Leads, CompileStmt, RunsBody, OutBody,
      RunsStmt, OutStmt, Received, ResolvedStmt, Inside, Trace;
    p := ReceiveComplete(s, ctx, cur, n, es, c);
    var q;
    if r.Stop? {
      RangeInside(s, ctx, cur, n, es);
      var over := Edge(n + 2, n + 5, [s.over], Always, Keep);
      assert over in RangeEdges(s, cur, n, n + 3, n + 4, n + 5);
      OneEdge(es, over, c, ctx.depth);
      q, d := [over], c;
      LeadsOn(es, n, c, p, n + 2, c, [s.trigger, s.confirm], q, n + 5, d, [s.over], ctx.depth);
      PassTrace(s, Nothing, Nothing);
    } else {
      q, d := RangePassComplete(s, ctx, cur, n, es, r, c);
      PassTrace(s, r.inner, r.rest);
      var tr := [s.more] + Trace(r.inner) + Trace(r.rest);
      LeadsOn(es, n, c, p, n + 2, c, [s.trigger, s.confirm], q, Target(ctx, n + 5, OutLoop(s, r)), d, tr, ctx.depth);
    }
    p := p + q;
  }

  /** What follows a receive that finds a value. */
  lemma RangePassComplete(s: Stmt, ctx: Context, cur: nat, n: nat, es: set<Edge>, r: Run, c: Counters)
    returns (p: seq<Edge>, d: Counters)
    requires s.Range? && ResolvedStmt(s, ctx.breaks.Keys, ctx.continues.Keys) && Before(ctx, n) && cur < n
    requires CompileStmt(s, ctx, cur, n).edges <= es && RunsRange(s, r) && r.Iterate?
    ensures Leads(es, n + 2, c, p, Target(ctx, n + 5, OutLoop(s, r)), d, [s.more] + Trace(r.inner) + Trace(r.rest), ctx.depth)
    decreases r, 0, 0
  {
    hide Before, CompileBody, IsPath, Agree, ResolvedBody, IsSpecial, Labels, Leads, CompileStmt, Inside, Target, RunsBody, OutBody,
      RunsStmt, OutStmt, Received;
    RangeInside(s, ctx, cur, n, es);
    var more, back := Edge(n + 2, n + 3, [s.more], Always, Keep), Silent(n + 4, n);
    assert more in RangeEdges(s, cur, n, n + 3, n + 4, n + 5) && back in RangeEdges(s, cur, n, n + 3, n + 4, n + 5);
    var in_ := Inside(ctx, s.id, Some(n + 5), Some(n + 4));
    var out := OutBody(s.body, r.inner);
    p, d := EnterComplete(s.body, in_, n + 3, n + 4, n + 6, ctx.depth, es, more, r.inner, c);
    LeavesLoop(ctx, s.id, n + 5, n + 4, out);
    if GoesOn(out, s.id) {
      OneEdge(es, back, d, ctx.depth);
      LeadsOn(es, n + 2, c, p, n + 4, d, [s.more] + Trace(r.inner), [back], n, d, [], ctx.depth);
      var q, d2;
      q, d2 := PassesComplete(s, ctx, cur, n, es, r.rest, d);
      LeadsOn(es, n + 2, c, p + [back], n, d, [s.more] + Trace(r.inner) + [], q, Target(ctx, n + 5, OutLoop(s, r.rest)), d2,
              Trace(r.rest), ctx.depth);
      p, d := p + [back] + q, d2;
      assert [s.more] + Trace(r.inner) + [] + Trace(r.rest) == [s.more] + Trace(r.inner) + Trace(r.rest);
    } else {
      assert [s.more] + Trace(r.inner) + Trace(r.rest) == [s.more] + Trace(r.inner);
    }
  }

  // ---------- Loops with a condition ----------

  lemma ForInside(s: Stmt, ctx: Context, cur: nat, n: nat, es: set<Edge>)
    requires s.For? && ResolvedStmt(s, ctx.breaks.Keys, ctx.continues.Keys) && Before(ctx, n) && cur < n
    requires CompileStmt(s, ctx, cur, n).edges <= es
    ensures var m := LoopTest(s, ctx, n).next;
            var inTest, inBody := Inside(ctx, s.id, None, None), Inside(ctx, s.id, Some(m + 2), Some(m + 1));
            && Resolved(s.cond, inTest) && Before(inTest, n + 2) && !IsSpecial(inTest, n) && inTest.depth == ctx.depth + 1
            && Resolved(s.body, inBody) && Before(inBody, m + 3) && !IsSpecial(inBody, m) && inBody.depth == ctx.depth + 1
            && LoopTest(s, ctx, n).edges <= es && CompileBody(s.body, inBody, m, m + 1, m + 3).edges <= es
            && ForEdges(s, ctx.depth, cur, n, n + 1, m, m + 1, m + 2) <= es
            && CompileStmt(s, ctx, cur, n).exit == m + 2
  {
    hide CompileBody, Before, IsSpecial, LeavesNew, ResolvedBody, Inside, ForEdges;
    InsideFresh(ctx, s.id, None, None, n, n + 2, n);
    BodyPlaced(s.cond, Inside(ctx, s.id, None, None), n, n + 1, n + 2);
    var m := LoopTest(s, ctx, n).next;
    PlacedBounds(LoopTest(s, ctx, n).edges, n, n + 2, m);
    InsideFresh(ctx, s.id, Some(m + 2), Some(m + 1), n, m + 3, m);
  }

  /** The edges of a loop, by name. */
  function EnterEdge(s: Stmt, depth: nat, cur: nat, n: nat): Edge
    requires s.For?
  {
    Edge(cur, n, [], Always, if s.min.Some? || s.max.Some? then Reset(depth) else Keep)
  }

  function PassEdge(s: Stmt, depth: nat, n: nat, m: nat): Edge
    requires s.For?
  {
    Edge(n + 1, m, [], if s.max.Some? then Below(depth, s.max.value) else Always, Keep)
  }

  function BackEdge(s: Stmt, depth: nat, n: nat, m: nat): Edge
    requires s.For?
  {
    Edge(m + 1, n, [], Always, if s.max.Some? then Advance(depth) else Keep)
  }

  function ExitEdge(s: Stmt, depth: nat, n: nat, m: nat): Edge
    requires s.For?
  {
    Edge(n + 1, m + 2, [], if s.min.Some? then NotBelow(depth, s.min.value) else Always, Keep)
  }

  lemma LoopHasEdges(s: Stmt, depth: nat, cur: nat, n: nat, m: nat)
    requires s.For?
    ensures var edges := ForEdges(s, depth, cur, n, n + 1, m, m + 1, m + 2);
            && EnterEdge(s, depth, cur, n) in edges && PassEdge(s, depth, n, m) in edges && BackEdge(s, depth, n, m) in edges
            && (!s.infinite ==> ExitEdge(s, depth, n, m) in edges)
  {
  }

  lemma ForComplete(s: Stmt, ctx: Context, cur: nat, n: nat, es: set<Edge>, r: Run, c: Counters)
    returns (p: seq<Edge>, d: Counters)
    requires s.For? && ResolvedStmt(s, ctx.breaks.Keys, ctx.continues.Keys) && Before(ctx, n) && cur < n
    requires CompileStmt(s, ctx, cur, n).edges <= es && RunsStmt(s, r)
    ensures Leads(es, cur, c, p, Target(ctx, CompileStmt(s, ctx, cur, n).exit, OutStmt(s, r)), d, Trace(r), ctx.depth)
    decreases r, 1
  {
    hide Before, CompileBody, IsPath, Agree, ResolvedBody, IsSpecial, Labels, Inside, Leads, ForEdges, CompileStmt;
    ForInside(s, ctx, cur, n, es);
    var m, e := LoopTest(s, ctx, n).next, EnterEdge(s, ctx.depth, cur, n);
    LoopHasEdges(s, ctx.depth, cur, n, m);
    OneEdge(es, e, c, ctx.depth);
    var c1 := Apply(e.update, c);
    var q;
    q, d := LoopComplete(s, ctx, cur, n, es, 0, r, c1);
    LeadsOn(es, cur, c, [e], n, c1, [], q, Target(ctx, m + 2, OutLoop(s, r)), d, Trace(r), ctx.depth);
    p := [e] + q;
    assert [] + Trace(r) == Trace(r);
  }

  /** The loop from its test on, after k passes. */
  lemma {:induction false} LoopComplete(s: Stmt, ctx: Context, cur: nat, n: nat, es: set<Edge>, k: nat, r: Run, c: Counters)
    returns (p: seq<Edge>, d: Counters)
    requires s.For? && ResolvedStmt(s, ctx.breaks.Keys, ctx.continues.Keys) && Before(ctx, n) && cur < n
    requires CompileStmt(s, ctx, cur, n).edges <= es && RunsLoop(s, k, r) && Counted(s, ctx.depth, k, c)
    ensures Leads(es, n, c, p, Target(ctx, LoopTest(s, ctx, n).next + 2, OutLoop(s, r)), d, Trace(r), ctx.depth)
    decreases r, 0, 1
  {
    hide Before, CompileBody, ResolvedBody, IsSpecial, Labels, Inside, IsPath, ForEdges, CompileStmt, RunsBody, RunsStmt, OutStmt;
    ForInside(s, ctx, cur, n, es);
    var m, inTest, out := LoopTest(s, ctx, n).next, Inside(ctx, s.id, None, None), OutBody(s.cond, r.test);
    LoopHasEdges(s, ctx.depth, cur, n, m);
    p, d := BodyComplete(s.cond, inTest, n, n + 1, n + 2, es, r.test, c);
    TestTarget(s, ctx, n, r.test);
    assert Counted(s, ctx.depth, k, d);
    LeadsOut(es, n, c, p, Target(inTest, n + 1, out), d, Trace(r.test), ctx.depth);
    hide Leads, Agree;
    if r.Stop? {
      if out == Normal {
        var e := ExitEdge(s, ctx.depth, n, m);
        OneEdge(es, e, d, ctx.depth);
        LeadsOn(es, n, c, p, n + 1, d, Trace(r.test), [e], m + 2, d, [], ctx.depth);
        assert Trace(r.test) + [] == Trace(r);
        p := p + [e];
      }
    } else {
      var e := PassEdge(s, ctx.depth, n, m);
      OneEdge(es, e, d, ctx.depth);
      LeadsOn(es, n, c, p, n + 1, d, Trace(r.test), [e], m, d, [], ctx.depth);
      assert Trace(r.test) + [] == Trace(r.test);
      var q, d2;
      q, d2 := PassComplete(s, ctx, cur, n, es, k, r, d);
      LeadsOn(es, n, c, p + [e], m, d, Trace(r.test), q, Target(ctx, m + 2, OutLoop(s, r)), d2, Trace(r.inner) + Trace(r.rest), ctx.depth);
      assert Trace(r.test) + (Trace(r.inner) + Trace(r.rest)) == Trace(r);
      p, d := p + [e] + q, d2;
    }
  }

  /** The body of the loop and what follows it. */
  lemma PassComplete(s: Stmt, ctx: Context, cur: nat, n: nat, es: set<Edge>, k: nat, r: Run, c: Counters)
    returns (p: seq<Edge>, d: Counters)
    requires s.For? && ResolvedStmt(s, ctx.breaks.Keys, ctx.continues.Keys) && Before(ctx, n) && cur < n
    requires CompileStmt(s, ctx, cur, n).edges <= es && RunsLoop(s, k, r) && r.Iterate? && Counted(s, ctx.depth, k, c)
    ensures Leads(es, LoopTest(s, ctx, n).next, c, p, Target(ctx, LoopTest(s, ctx, n).next + 2, OutLoop(s, r)), d,
                  Trace(r.inner) + Trace(r.rest), ctx.depth)
    decreases r, 0, 0
  {
    hide Before, CompileBody, ResolvedBody, IsSpecial, Labels, IsPath, ForEdges, CompileStmt;
    ForInside(s, ctx, cur, n, es);
    var m, out := LoopTest(s, ctx, n).next, OutBody(s.body, r.inner);
    var inBody := Inside(ctx, s.id, Some(m + 2), Some(m + 1));
    LoopHasEdges(s, ctx.depth, cur, n, m);
    p, d := BodyComplete(s.body, inBody, m, m + 1, m + 3, es, r.inner, c);
    LeavesLoop(ctx, s.id, m + 2, m + 1, out);
    assert Counted(s, ctx.depth, k, d);
    LeadsOut(es, m, c, p, Target(inBody, m + 1, out), d, Trace(r.inner), ctx.depth);
    hide Leads, Agree, Inside;
    if GoesOn(out, s.id) {
      var e := BackEdge(s, ctx.depth, n, m);
      OneEdge(es, e, d, ctx.depth);
      var d1 := Apply(e.update, d);
      LeadsOn(es, m, c, p, m + 1, d, Trace(r.inner), [e], n, d1, [], ctx.depth);
      assert Trace(r.inner) + [] == Trace(r.inner);
      var q, d2;
      q, d2 := LoopComplete(s, ctx, cur, n, es, k + 1, r.rest, d1);
      LeadsOn(es, m, c, p + [e], n, d1, Trace(r.inner), q, Target(ctx, m + 2, OutLoop(s, r.rest)), d2, Trace(r.rest), ctx.depth);
      p, d := p + [e] + q, d2;
    } else {
      assert Trace(r.inner) + Trace(r.rest) == Trace(r.inner);
    }
  }

  // ---------- Select statements ----------

  lemma {:induction false} BlockInside(bodies: seq<seq<Stmt>>, ctx: Context, shared: Option<nat>, n: nat, k: nat, es: set<Edge>)
    requires ResolvedBodies(bodies, ctx.breaks.Keys, ctx.continues.Keys) && Before(ctx, n) && (shared.Some? ==> shared.value < n)
    requires k < |bodies| && CompileBlocks(bodies, ctx, shared, n).edges <= es
    ensures var bs := CompileBlocks(bodies, ctx, shared, n);
            && CompileBody(bodies[k], ctx, bs.enters[k], bs.leaves[k], FirstInside(bs.enters[k], shared)).edges <= es
            && Resolved(bodies[k], ctx) && Before(ctx, FirstInside(bs.enters[k], shared)) && !IsSpecial(ctx, bs.enters[k])
            && (if shared.Some? then bs.leaves[k] == shared.value else bs.leaves[k] == bs.enters[k] + 1)
  {
    BlockParts(bodies, ctx, shared, n, k);
    hide CompileBody, CompileBlocks, Before, ResolvedBody, IsSpecial;
  }

  /** A way that a select takes from its current state to one of its bodies. */
  lemma SelectWay(s: Stmt, ctx: Context, cur: nat, n: nat, es: set<Edge>, i: nat, labels: seq<nat>, c: Counters)
    returns (p: seq<Edge>, last: Edge)
    requires s.Select? && ResolvedStmt(s, ctx.breaks.Keys, ctx.continues.Keys) && Before(ctx, n) && cur < n
    requires SelectEdges(s, SelectBodies(s, ctx, n), cur, n) <= es && i < |s.comms| && Takes(s, i, labels)
    ensures last in es && last.dst == SelectBodies(s, ctx, n).enters[i] && last.guard == Always && last.update == Keep
    ensures exists tr :: Leads(es, cur, c, p, last.src, c, tr, ctx.depth) && tr + last.labels == labels
  {
    hide Before, CompileBody, IsPath, Agree, ResolvedBody, ResolvedBodies, IsSpecial, Labels, CompileBlocks, Inside, CompileStmt,
      Leads, SelectBodies, TriggeredAt, HasDefault;
    var bodies := SelectBodies(s, ctx, n);
    var enter := Edge(cur, bodies.next, [s.enter], Always, Keep);
    var tr := [s.enter];
    OneEdge(es, enter, c, ctx.depth);
    p := [enter];
    if s.comms[i].Default? {
      last := Edge(bodies.next, bodies.enters[i], [s.none], Always, Keep);
      assert last in FirstPassEdges(s, bodies, n);
    } else {
      var next: Edge;
      if labels == [s.enter, s.comms[i].trigger, s.comms[i].confirm] {
        next := Edge(bodies.next, TriggeredAt(s.comms, bodies.next, i), [s.comms[i].trigger], Always, Keep);
        last := Edge(next.dst, bodies.enters[i], [s.comms[i].confirm], Always, Keep);
        assert next in FirstPassEdges(s, bodies, n) && last in ConfirmEdges(s, bodies);
      } else {
        next := Edge(bodies.next, SecondPass(s.comms, n), [s.none], Always, Keep);
        last := Edge(next.dst, bodies.enters[i], [s.comms[i].confirm], Always, Keep);
        assert next in FirstPassEdges(s, bodies, n) && last in SecondPassEdges(s, bodies, n);
      }
      OneEdge(es, next, c, ctx.depth);
      LeadsOn(es, cur, c, p, bodies.next, c, tr, [next], next.dst, c, next.labels, ctx.depth);
      p, tr := p + [next], tr + next.labels;
    }
    assert tr + last.labels == labels;
  }

  lemma SelectComplete(s: Stmt, ctx: Context, cur: nat, n: nat, es: set<Edge>, r: Run, c: Counters)
    returns (p: seq<Edge>, d: Counters)
    requires s.Select? && ResolvedStmt(s, ctx.breaks.Keys, ctx.continues.Keys) && Before(ctx, n) && cur < n
    requires CompileStmt(s, ctx, cur, n).edges <= es && RunsStmt(s, r)
    ensures Leads(es, cur, c, p, Target(ctx, CompileStmt(s, ctx, cur, n).exit, OutStmt(s, r)), d, Trace(r), ctx.depth)
    decreases r, 1
  {
    hide Before, CompileBody, IsPath, Agree, ResolvedBody, ResolvedBodies, IsSpecial, Labels, CompileBlocks, Inside, CompileStmt,
      Leads, SelectEdges, TriggeredAt, Takes, HasDefault;
    var in_, bodies, i := Inside(ctx, s.id, Some(n), None), SelectBodies(s, ctx, n), r.which;
    SelectParts(s, ctx, cur, n);
    BlockInside(CommBodies(s.comms), in_, Some(n), SecondPass(s.comms, n) + 1, i, es);
    var last;
    p, last := SelectWay(s, ctx, cur, n, es, i, r.labels, c);
    var tr :| Leads(es, cur, c, p, last.src, c, tr, ctx.depth) && tr + last.labels == r.labels;
    var b, enter := s.comms[i].body, bodies.enters[i];
    CommOut(s, i, r.inner, ctx);
    LeavesBlock(ctx, s.id, n, n, OutBody(b, r.inner));
    var q;
    q, d := EnterComplete(b, in_, enter, n, enter + 1, ctx.depth, es, last, r.inner, c);
    LeadsOn(es, cur, c, p, last.src, c, tr, q, Target(in_, n, OutBody(b, r.inner)), d, last.labels + Trace(r.inner), ctx.depth);
    p := p + q;
    assert tr + (last.labels + Trace(r.inner)) == r.labels + Trace(r.inner);
  }

  // ---------- Switch statements ----------

  lemma SwitchInside(s: Stmt, ctx: Context, cur: nat, n: nat, es: set<Edge>)
    requires s.Switch? && ResolvedStmt(s, ctx.breaks.Keys, ctx.continues.Keys) && Before(ctx, n) && cur < n
    requires CompileStmt(s, ctx, cur, n).edges <= es
    ensures SwitchTests(s, ctx, n).edges <= es && SwitchBodies(s, ctx, n).edges <= es && EdgesOfSwitch(s, ctx, cur, n) <= es
    ensures CompileStmt(s, ctx, cur, n).exit == n
  {
    hide CompileBlocks, SwitchEdges, FlatConds, CaseBodies, CondBodies, Before, ResolvedBody;
    SwitchParts(s, ctx, cur, n);
  }

  lemma TestInside(s: Stmt, ctx: Context, cur: nat, n: nat, es: set<Edge>, k: nat)
    requires s.Switch? && ResolvedStmt(s, ctx.breaks.Keys, ctx.continues.Keys) && Before(ctx, n) && cur < n
    requires CompileStmt(s, ctx, cur, n).edges <= es
    requires k < |FlatConds(s.cases, 0)|
    ensures var tests, inTest, b := SwitchTests(s, ctx, n), Inside(ctx, s.id, None, None), FlatConds(s.cases, 0)[k].body;
            && CompileBody(b, inTest, tests.enters[k], tests.leaves[k], tests.enters[k] + 2).edges <= es
            && Resolved(b, inTest) && Before(inTest, tests.enters[k] + 2) && !IsSpecial(inTest, tests.enters[k])
            && inTest.depth == ctx.depth + 1
  {
    hide Before, Inside, CompileBlocks, SwitchEdges, ResolvedBody, ResolvedBodies, CaseBodies, FlatConds, CompileStmt,
      CompileBody, IsSpecial;
    SwitchParts(s, ctx, cur, n);
    SwitchInside(s, ctx, cur, n, es);
    BlockInside(CondBodies(FlatConds(s.cases, 0)), Inside(ctx, s.id, None, None), None, n + 1, k, es);
  }

  lemma CaseInside(s: Stmt, ctx: Context, cur: nat, n: nat, es: set<Edge>, k: nat)
    requires s.Switch? && ResolvedStmt(s, ctx.breaks.Keys, ctx.continues.Keys) && Before(ctx, n) && cur < n
    requires CompileStmt(s, ctx, cur, n).edges <= es
    requires k < |s.cases|
    ensures var bodies, inBody, b := SwitchBodies(s, ctx, n), Inside(ctx, s.id, Some(n), None), s.cases[k].body;
            && CompileBody(b, inBody, bodies.enters[k], bodies.leaves[k], bodies.enters[k] + 2).edges <= es
            && Resolved(b, inBody) && Before(inBody, bodies.enters[k] + 2) && !IsSpecial(inBody, bodies.enters[k])
            && inBody.depth == ctx.depth + 1
  {
    hide Before, Inside, CompileBlocks, SwitchEdges, ResolvedBody, ResolvedBodies, CondBodies, FlatConds, CompileStmt,
      CompileBody, IsSpecial;
    SwitchParts(s, ctx, cur, n);
    SwitchInside(s, ctx, cur, n, es);
    BlockInside(CaseBodies(s.cases), Inside(ctx, s.id, Some(n), None), None, SwitchTests(s, ctx, n).next, k, es);
  }

  lemma SwitchHasEdges(s: Stmt, ctx: Context, cur: nat, n: nat, es: set<Edge>)
    requires s.Switch? && EdgesOfSwitch(s, ctx, cur, n) <= es
    ensures var conds, tests, bodies := FlatConds(s.cases, 0), SwitchTests(s, ctx, n), SwitchBodies(s, ctx, n);
            && (forall k :: 0 <= k < |conds| ==> Silent(TestedFrom(tests, cur, k), tests.enters[k]) in es)
            && (forall k :: 0 <= k < |conds| ==> Silent(tests.leaves[k], bodies.enters[conds[k].case_]) in es)
            && Silent(TestedFrom(tests, cur, |conds|), NoneHolds(s.cases, bodies, n)) in es
            && (forall i :: 0 <= i < |s.cases| ==> Silent(bodies.leaves[i], AfterCase(s.cases, bodies, n, i)) in es)
  {
    hide CompileBlocks, FlatConds, NoneHolds, AfterCase, TestedFrom;
  }

  lemma TestEdge(s: Stmt, ctx: Context, cur: nat, n: nat, es: set<Edge>, j: nat)
    requires s.Switch? && ResolvedStmt(s, ctx.breaks.Keys, ctx.continues.Keys) && Before(ctx, n) && cur < n
    requires CompileStmt(s, ctx, cur, n).edges <= es && j < |FlatConds(s.cases, 0)|
    ensures Silent(TestedFrom(SwitchTests(s, ctx, n), cur, j), SwitchTests(s, ctx, n).enters[j]) in es
  {
    hide CompileBlocks, FlatConds, CompileStmt, SwitchEdges, Before, ResolvedStmt;
    SwitchInside(s, ctx, cur, n, es);
    SwitchHasEdges(s, ctx, cur, n, es);
  }

  /** Where the tests of a switch end: behind an abnormal one, at a chosen body or at the end. */
  ghost function TestsTarget(s: Stmt, ctx: Context, n: nat, out: Outcome, chosen: Option<nat>): nat
    requires s.Switch?
  {
    if out != Normal then Target(ctx, n, out)
    else if chosen.Some? && chosen.value < |s.cases| then SwitchBodies(s, ctx, n).enters[chosen.value] else n
  }

  /** The tests of a switch from condition j on. */
  lemma {:induction false} TestsComplete(s: Stmt, ctx: Context, cur: nat, n: nat, es: set<Edge>, j: nat, r: Run,
                                         chosen: Option<nat>, c: Counters)
    returns (p: seq<Edge>, d: Counters)
    requires s.Switch? && ResolvedStmt(s, ctx.breaks.Keys, ctx.continues.Keys) && Before(ctx, n) && cur < n
    requires CompileStmt(s, ctx, cur, n).edges <= es
    requires j <= |FlatConds(s.cases, 0)| && RunsConds(FlatConds(s.cases, 0)[j..], r)
    requires OutConds(FlatConds(s.cases, 0)[j..], r) == Normal ==> Chose(s.cases, FlatConds(s.cases, 0), j + Length(r), chosen)
    ensures Leads(es, TestedFrom(SwitchTests(s, ctx, n), cur, j), c, p,
                  TestsTarget(s, ctx, n, OutConds(FlatConds(s.cases, 0)[j..], r), chosen), d, Trace(r), ctx.depth)
    decreases r, 0
  {
    hide Before, CompileBody, IsPath, Agree, ResolvedBody, ResolvedBodies, IsSpecial, Labels, CompileBlocks, Inside, CompileStmt,
      SwitchEdges, FlatConds, Leads;
    SwitchInside(s, ctx, cur, n, es);
    SwitchHasEdges(s, ctx, cur, n, es);
    var conds, tests, bodies := FlatConds(s.cases, 0), SwitchTests(s, ctx, n), SwitchBodies(s, ctx, n);
    if r == Nothing {
      assert OutConds(conds[j..], r) == Normal;
      var e := if chosen.Some? && j > 0 && conds[j - 1].case_ == chosen.value
               then Silent(tests.leaves[j - 1], bodies.enters[chosen.value])
               else Silent(TestedFrom(tests, cur, |conds|), NoneHolds(s.cases, bodies, n));
      OneEdge(es, e, c, ctx.depth);
      p, d := [e], c;
    } else {
      p, d := TestComplete(s, ctx, cur, n, es, j, r, chosen, c);
    }
  }

  lemma TestComplete(s: Stmt, ctx: Context, cur: nat, n: nat, es: set<Edge>, j: nat, r: Run, chosen: Option<nat>, c: Counters)
    returns (p: seq<Edge>, d: Counters)
    requires s.Switch? && ResolvedStmt(s, ctx.breaks.Keys, ctx.continues.Keys) && Before(ctx, n) && cur < n
    requires CompileStmt(s, ctx, cur, n).edges <= es
    requires j < |FlatConds(s.cases, 0)| && RunsConds(FlatConds(s.cases, 0)[j..], r) && r.Then?
    requires OutConds(FlatConds(s.cases, 0)[j..], r) == Normal ==> Chose(s.cases, FlatConds(s.cases, 0), j + Length(r), chosen)
    ensures Leads(es, TestedFrom(SwitchTests(s, ctx, n), cur, j), c, p,
                  TestsTarget(s, ctx, n, OutConds(FlatConds(s.cases, 0)[j..], r), chosen), d, Trace(r), ctx.depth)
    decreases r, 0, 0
  {
    hide Before, CompileBody, IsPath, Agree, ResolvedBody, ResolvedBodies, IsSpecial, Labels, CompileBlocks, Inside, CompileStmt,
      SwitchEdges, FlatConds, Leads;
    TestEdge(s, ctx, cur, n, es, j);
    TestInside(s, ctx, cur, n, es, j);
    var conds, tests, inTest := FlatConds(s.cases, 0), SwitchTests(s, ctx, n), Inside(ctx, s.id, None, None);
    var b, e := conds[j].body, Silent(TestedFrom(tests, cur, j), tests.enters[j]);
    assert conds[j..][0] == conds[j] && conds[j..][1..] == conds[j + 1..];
    p, d := EnterComplete(b, inTest, tests.enters[j], tests.leaves[j], tests.enters[j] + 2, ctx.depth, es, e, r.first, c);
    TestOut(s, ctx, n, j, r.first);
    assert [] + Trace(r.first) == Trace(r.first);
    if OutBody(b, r.first) == Normal {
      var q, d2;
      q, d2 := TestsComplete(s, ctx, cur, n, es, j + 1, r.rest, chosen, d);
      LeadsOn(es, e.src, c, p, tests.leaves[j], d, Trace(r.first), q,
              TestsTarget(s, ctx, n, OutConds(conds[j + 1..], r.rest), chosen), d2, Trace(r.rest), ctx.depth);
      p, d := p + q, d2;
    } else {
      assert Trace(r.first) + [] == Trace(r.first);
    }
  }

  /** The bodies of a switch from case i on. */
  lemma {:induction false} ChainComplete(s: Stmt, ctx: Context, cur: nat, n: nat, es: set<Edge>, i: nat, r: Run, c: Counters)
    returns (p: seq<Edge>, d: Counters)
    requires s.Switch? && ResolvedStmt(s, ctx.breaks.Keys, ctx.continues.Keys) && Before(ctx, n) && cur < n
    requires CompileStmt(s, ctx, cur, n).edges <= es
    requires i < |s.cases| && RunsChain(s.cases, i, r)
    ensures Leads(es, SwitchBodies(s, ctx, n).enters[i], c, p, Target(ctx, n, Leave(OutChain(s.cases, i, r), s.id)), d,
                  Trace(r), ctx.depth)
    decreases r, 0
  {
    hide Before, CompileBody, IsPath, Agree, ResolvedBody, ResolvedBodies, IsSpecial, Labels, CompileBlocks, CompileStmt,
      SwitchEdges, FlatConds, Leads;
    SwitchInside(s, ctx, cur, n, es);
    SwitchHasEdges(s, ctx, cur, n, es);
    CaseInside(s, ctx, cur, n, es, i);
    var bodies, inBody, b := SwitchBodies(s, ctx, n), Inside(ctx, s.id, Some(n), None), s.cases[i].body;
    var out, y := OutBody(b, r.first), Target(inBody, bodies.leaves[i], OutBody(b, r.first));
    p, d := BodyComplete(b, inBody, bodies.enters[i], bodies.leaves[i], bodies.enters[i] + 2, es, r.first, c);
    LeadsOut(es, bodies.enters[i], c, p, y, d, Trace(r.first), ctx.depth);
    CaseOut(s, ctx, i, r.first);
    LeavesBlock(ctx, s.id, n, bodies.leaves[i], out);
    hide Inside;
    assert Trace(r.first) + [] == Trace(r.first);
    if out == Normal {
      var e := Silent(bodies.leaves[i], AfterCase(s.cases, bodies, n, i));
      OneEdge(es, e, d, ctx.depth);
      LeadsOn(es, bodies.enters[i], c, p, bodies.leaves[i], d, Trace(r.first), [e], e.dst, d, [], ctx.depth);
      p := p + [e];
      if s.cases[i].hasFallthrough {
        var q, d2;
        q, d2 := ChainComplete(s, ctx, cur, n, es, i + 1, r.rest, d);
        LeadsOn(es, bodies.enters[i], c, p, e.dst, d, Trace(r.first), q,
                Target(ctx, n, Leave(OutChain(s.cases, i + 1, r.rest), s.id)), d2, Trace(r.rest), ctx.depth);
        p, d := p + q, d2;
      }
    }
  }

  lemma SwitchComplete(s: Stmt, ctx: Context, cur: nat, n: nat, es: set<Edge>, r: Run, c: Counters)
    returns (p: seq<Edge>, d: Counters)
    requires s.Switch? && ResolvedStmt(s, ctx.breaks.Keys, ctx.continues.Keys) && Before(ctx, n) && cur < n
    requires CompileStmt(s, ctx, cur, n).edges <= es && RunsStmt(s, r)
    ensures Leads(es, cur, c, p, Target(ctx, CompileStmt(s, ctx, cur, n).exit, OutStmt(s, r)), d, Trace(r), ctx.depth)
    decreases r, 1
  {
    hide Before, CompileBody, IsPath, Agree, ResolvedBody, ResolvedBodies, IsSpecial, Labels, CompileBlocks, Inside, CompileStmt,
      SwitchEdges, FlatConds, Leads;
    SwitchInside(s, ctx, cur, n, es);
    var conds := FlatConds(s.cases, 0);
    assert conds[0..] == conds;
    var out := OutConds(conds, r.tested);
    p, d := TestsComplete(s, ctx, cur, n, es, 0, r.tested, r.chosen, c);
    assert Trace(r.tested) + [] == Trace(r.tested);
    if out == Normal && r.chosen.Some? {
      var q, d2;
      var y := SwitchBodies(s, ctx, n).enters[r.chosen.value];
      q, d2 := ChainComplete(s, ctx, cur, n, es, r.chosen.value, r.bodies, d);
      LeadsOn(es, cur, c, p, y, d, Trace(r.tested), q, Target(ctx, n, Leave(OutChain(s.cases, r.chosen.value, r.bodies), s.id)),
              d2, Trace(r.bodies), ctx.depth);
      p, d := p + q, d2;
    }
  }

  // ---------- Functions ----------

  /** The context of a function body: nothing to break or continue, state 1 ends the function. */
  const FUNCTION := Context(0, map[], map[], 1)

  /** The edges of a function body from state 0 to state 1. */
  function FunctionEdges(b: seq<Stmt>): set<Edge> { CompileBody(b, FUNCTION, 0, 1, 2).edges }

  /** A path of the function's automaton from start to end passes these labels. */
  ghost predicate HasPath(b: seq<Stmt>, tr: seq<nat>) {
    exists p, d :: IsPath(FunctionEdges(b), 0, map[], p, 1, d) && Labels(p) == tr
  }

  /** A run of the function passes these labels. */
  ghost predicate HasRun(b: seq<Stmt>, tr: seq<nat>) { exists r :: RunsBody(b, r) && Trace(r) == tr }

  /** The runs of a function body are the paths of its automaton: the same label sequences lead from its
      start to its end. */
  lemma PathsAreTraces(b: seq<Stmt>, tr: seq<nat>)
    requires ResolvedBody(b, {}, {})
    ensures HasPath(b, tr) <==> HasRun(b, tr)
  {
    if HasPath(b, tr) {
      var p, d :| IsPath(FunctionEdges(b), 0, map[], p, 1, d) && Labels(p) == tr;
      PathIsTrace(b, p, d);
    }
    if HasRun(b, tr) {
      var r :| RunsBody(b, r) && Trace(r) == tr;
      TraceIsPath(b, r);
    }
  }

  lemma TraceIsPath(b: seq<Stmt>, r: Run)
    requires ResolvedBody(b, {}, {}) && RunsBody(b, r)
    ensures HasPath(b, Trace(r))
  {
    assert FUNCTION.breaks.Keys == {} && FUNCTION.continues.Keys == {};
    var p, d := BodyComplete(b, FUNCTION, 0, 1, 2, FunctionEdges(b), r, map[]);
    OutBodyIn(b, r, {}, {});
    assert Target(FUNCTION, 1, OutBody(b, r)) == 1;
    assert IsPath(FunctionEdges(b), 0, map[], p, 1, d) && Labels(p) == Trace(r);
  }

  lemma PathIsTrace(b: seq<Stmt>, p: seq<Edge>, d: Counters)
    requires ResolvedBody(b, {}, {}) && IsPath(FunctionEdges(b), 0, map[], p, 1, d)
    ensures HasRun(b, Labels(p))
  {
    var es := FunctionEdges(b);
    assert FUNCTION.breaks.Keys == {} && FUNCTION.continues.Keys == {};
    var r, k, cy;
    r, k, cy := BodySound(b, FUNCTION, 0, 1, 2, es, map[], p, 1, d);
    OutBodyIn(b, r, {}, {});
    BodyPlaced(b, FUNCTION, 0, 1, 2);
    assert IsPath(es, 1, cy, p[k..], 1, d);
    assert p[k..] == [];
    assert p[..k] == p;
  }
}
