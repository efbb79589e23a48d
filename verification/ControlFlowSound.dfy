/** Every path of the automaton through a translated statement is a run of the statement. */
module ControlFlowSound {
  import opened IrBodies
  import opened ControlFlow
  import opened ControlFlowFacts

  /** The edges of the fragment are in es, and es has no other edges from its states but the one it ends in. */
  ghost predicate Owns(es: set<Edge>, f: Fragment, cur: nat, n: nat) {
    f.edges <= es && forall e :: e in es && e.src != f.exit && (e.src == cur || n <= e.src < f.next) ==> e in f.edges
  }

  /** All edges of es from state a are among fs. */
  ghost predicate AllFrom(es: set<Edge>, fs: set<Edge>, a: nat) { forall e :: e in es && e.src == a ==> e in fs }

  /** No edge of fs leaves a state of the region. */
  ghost predicate Avoids(fs: set<Edge>, cur: nat, n: nat, next: nat) {
    forall f :: f in fs ==> f.src != cur && !(n <= f.src < next)
  }

  /** A part of a fragment owns its states if the rest of the fragment does not leave them. */
  lemma OwnsPart(es: set<Edge>, f: Fragment, cur: nat, n: nat, part: Fragment, cur2: nat, n2: nat, others: set<Edge>)
    requires Owns(es, f, cur, n) && f.edges == part.edges + others
    requires cur2 == cur || n <= cur2 < f.next
    requires n <= n2 && part.next <= f.next && f.exit != cur2 && !(n2 <= f.exit < part.next)
    requires forall g :: g in others && g.src != part.exit ==> g.src != cur2 && !(n2 <= g.src < part.next)
    ensures Owns(es, part, cur2, n2)
  {
    assert forall g :: g in part.edges ==> g in f.edges;
  }

  lemma AllFromPart(es: set<Edge>, f: Fragment, cur: nat, n: nat, part: set<Edge>, others: set<Edge>, a: nat)
    requires Owns(es, f, cur, n) && f.edges == part + others && a != f.exit && (a == cur || n <= a < f.next)
    requires forall g :: g in others ==> g.src != a
    ensures AllFrom(es, part, a)
  {
  }

  lemma ThreeUnions(a: set<Edge>, b: set<Edge>, c: set<Edge>)
    ensures a + b + c == a + (b + c) && a + b + c == b + (a + c) && a + b + c == c + (a + b)
  {
  }

  lemma PlacedAvoids(fs: set<Edge>, cur1: nat, n1: nat, next1: nat, cur: nat, n: nat, next: nat)
    requires LeavesNew(fs, cur1, n1, next1) && cur1 != cur && !(n <= cur1 < next) && !(n1 <= cur < next1)
    requires next1 <= n || next <= n1
    ensures Avoids(fs, cur, n, next)
  {
  }

  /** Of a path from state a to state x, the first k edges lead to y with counters cy and pass the labels tr. */
  ghost predicate Explains(es: set<Edge>, c: Counters, p: seq<Edge>, x: nat, d: Counters,
                           k: nat, y: nat, cy: Counters, tr: seq<nat>, depth: nat)
  {
    k <= |p| && Labels(p[..k]) == tr && IsPath(es, y, cy, p[k..], x, d) && Agree(depth, c, cy)
  }

  lemma {:induction false} LabelsAppend(p: seq<Edge>, q: seq<Edge>)
    ensures Labels(p + q) == Labels(p) + Labels(q)
  {
    if p == [] {
      assert p + q == q;
    } else {
      assert (p + q)[1..] == p[1..] + q;
      LabelsAppend(p[1..], q);
    }
  }

  lemma Chain(es: set<Edge>, c: Counters, p: seq<Edge>, x: nat, d: Counters, depth: nat,
              k1: nat, y1: nat, c1: Counters, tr1: seq<nat>, k2: nat, y2: nat, c2: Counters, tr2: seq<nat>)
    requires Explains(es, c, p, x, d, k1, y1, c1, tr1, depth)
    requires Explains(es, c1, p[k1..], x, d, k2, y2, c2, tr2, depth)
    ensures Explains(es, c, p, x, d, k1 + k2, y2, c2, tr1 + tr2, depth)
  {
    assert p[k1..][k2..] == p[k1 + k2..];
    assert p[..k1 + k2] == p[..k1] + p[k1..][..k2];
    LabelsAppend(p[..k1], p[k1..][..k2]);
  }

  lemma ExplainsPath(es: set<Edge>, c: Counters, p: seq<Edge>, x: nat, d: Counters,
                     k: nat, y: nat, cy: Counters, tr: seq<nat>, depth: nat)
    requires Explains(es, c, p, x, d, k, y, cy, tr, depth)
    ensures k <= |p| && IsPath(es, y, cy, p[k..], x, d)
    ensures k < |p| ==> p[k..][1..] == p[k + 1..]
  {
  }

  /** Explaining for an inner depth explains for an outer one. */
  lemma Shallower(es: set<Edge>, c: Counters, p: seq<Edge>, x: nat, d: Counters,
                  k: nat, y: nat, cy: Counters, tr: seq<nat>, depth: nat)
    requires Explains(es, c, p, x, d, k, y, cy, tr, depth + 1)
    ensures Explains(es, c, p, x, d, k, y, cy, tr, depth)
  {
  }

  predicate Touches(u: Update, depth: nat) { u == Keep || (u.Reset? && u.counter >= depth) || (u.Advance? && u.counter >= depth) }

  /** The next edge of a path that has not arrived is one of those that leave its state. */
  lemma FirstEdge(es: set<Edge>, fs: set<Edge>, a: nat, c: Counters, p: seq<Edge>, x: nat, d: Counters, depth: nat)
    requires AllFrom(es, fs, a) && IsPath(es, a, c, p, x, d) && x != a
    ensures p != [] && p[0] in fs && p[0].src == a && Holds(p[0].guard, c)
    ensures IsPath(es, p[0].dst, Apply(p[0].update, c), p[1..], x, d)
    ensures Touches(p[0].update, depth) ==>
              Explains(es, c, p, x, d, 1, p[0].dst, Apply(p[0].update, c), p[0].labels, depth)
  {
    assert p != [];
    assert p[..1] == [p[0]] && Labels([p[0]]) == p[0].labels + Labels([]);
  }

  lemma TargetAbnormal(ctx: Context, e1: nat, e2: nat, out: Outcome)
    requires out != Normal
    ensures Target(ctx, e1, out) == Target(ctx, e2, out)
  {
  }

  // ---------- Bodies ----------

  lemma {:induction false} BodySound(b: seq<Stmt>, ctx: Context, cur: nat, exitBody: nat, n: nat,
                                     es: set<Edge>, c: Counters, p: seq<Edge>, x: nat, d: Counters)
    returns (r: Run, k: nat, cy: Counters)
    requires Resolved(b, ctx) && Before(ctx, n) && cur < n && !IsSpecial(ctx, cur)
    requires exitBody < n && exitBody != cur
    requires Owns(es, CompileBody(b, ctx, cur, exitBody, n), cur, n) && IsPath(es, cur, c, p, x, d) && x < n && x != cur
    ensures RunsBody(b, r) && k > 0
    ensures Explains(es, c, p, x, d, k, Target(ctx, exitBody, OutBody(b, r)), cy, Trace(r), ctx.depth)
    decreases SizeBody(b), 3, 0
  {
    hide Owns, Before, IsPath, Agree, Labels, IsSpecial, CompileStmt, CompileBody, ResolvedBody, SizeStmt;
    if b == [] {
      EmptyBodySound(b, ctx, cur, exitBody, n, es, c, p, x, d);
      r, k, cy := Nothing, 1, c;
    } else {
      var f := CompileStmt(b[0], ctx, cur, n);
      BodyParts(b, ctx, cur, exitBody, n, es);
      var r1, k1, c1;
      r1, k1, c1 := StmtSound(b[0], ctx, cur, n, es, c, p, x, d);
      if OutStmt(b[0], r1) != Normal {
        TargetAbnormal(ctx, f.exit, exitBody, OutStmt(b[0], r1));
        r, k, cy := Then(r1, Nothing), k1, c1;
      } else {
        NormalGoesOn(b[0], r1);
        BeforeLater(ctx, n, f.next);
        ExplainsPath(es, c, p, x, d, k1, f.exit, c1, Trace(r1), ctx.depth);
        var r2, k2, c2;
        r2, k2, c2 := BodySound(b[1..], ctx, f.exit, exitBody, f.next, es, c1, p[k1..], x, d);
        Chain(es, c, p, x, d, ctx.depth, k1, f.exit, c1, Trace(r1), k2, Target(ctx, exitBody, OutBody(b[1..], r2)), c2, Trace(r2));
        r, k, cy := Then(r1, r2), k1 + k2, c2;
      }
    }
  }

  lemma NormalGoesOn(s: Stmt, r: Run)
    requires OutStmt(s, r) == Normal
    ensures !Jumps(s)
  {
  }

  lemma EmptyBodySound(b: seq<Stmt>, ctx: Context, cur: nat, exitBody: nat, n: nat,
                       es: set<Edge>, c: Counters, p: seq<Edge>, x: nat, d: Counters)
    requires b == [] && !IsSpecial(ctx, cur) && exitBody != cur && x != cur
    requires Owns(es, CompileBody(b, ctx, cur, exitBody, n), cur, n) && IsPath(es, cur, c, p, x, d)
    ensures Explains(es, c, p, x, d, 1, exitBody, c, [], ctx.depth)
  {
    FirstEdge(es, CompileBody(b, ctx, cur, exitBody, n).edges, cur, c, p, x, d, ctx.depth);
  }

  lemma BodyParts(b: seq<Stmt>, ctx: Context, cur: nat, exitBody: nat, n: nat, es: set<Edge>)
    requires Resolved(b, ctx) && Before(ctx, n) && cur < n && b != []
    requires Owns(es, CompileBody(b, ctx, cur, exitBody, n), cur, n) && exitBody < n && exitBody != cur
    ensures var f := CompileStmt(b[0], ctx, cur, n);
            && ResolvedStmt(b[0], ctx.breaks.Keys, ctx.continues.Keys) && Resolved(b[1..], ctx) && n <= f.next
            && cur < f.next && Owns(es, f, cur, n)
            && (if Jumps(b[0]) then IsSpecial(ctx, f.exit) else !IsSpecial(ctx, f.exit) && n <= f.exit < f.next)
            && (!Jumps(b[0]) ==> Owns(es, CompileBody(b[1..], ctx, f.exit, exitBody, f.next), f.exit, f.next))
  {
    StmtIsPlaced(b[0], ctx, cur, n);
    var f := CompileStmt(b[0], ctx, cur, n);
    assert Resolved(b[1..], ctx);
    if !Jumps(b[0]) {
      BeforeNotSpecial(ctx, n, f.exit);
      BeforeLater(ctx, n, f.next);
      BodyPlaced(b[1..], ctx, f.exit, exitBody, f.next);
      var whole, rest := CompileBody(b, ctx, cur, exitBody, n), CompileBody(b[1..], ctx, f.exit, exitBody, f.next);
      OwnsPart(es, whole, cur, n, f, cur, n, rest.edges);
      assert whole.edges == rest.edges + f.edges;
      OwnsPart(es, whole, cur, n, rest, f.exit, f.next, f.edges);
    }
  }

  // ---------- Statements ----------

  lemma {:induction false} StmtSound(s: Stmt, ctx: Context, cur: nat, n: nat,
                                     es: set<Edge>, c: Counters, p: seq<Edge>, x: nat, d: Counters)
    returns (r: Run, k: nat, cy: Counters)
    requires ResolvedStmt(s, ctx.breaks.Keys, ctx.continues.Keys) && Before(ctx, n) && cur < n && !IsSpecial(ctx, cur)
    requires Owns(es, CompileStmt(s, ctx, cur, n), cur, n) && IsPath(es, cur, c, p, x, d) && x < n && x != cur
    ensures RunsStmt(s, r) && k > 0
    ensures Explains(es, c, p, x, d, k, Target(ctx, CompileStmt(s, ctx, cur, n).exit, OutStmt(s, r)), cy, Trace(r), ctx.depth)
    decreases SizeStmt(s), 2, 0
  {
    match s
    case If(_, _) => r, k, cy := IfSound(s, ctx, cur, n, es, c, p, x, d);
    case For(_, _, _, _, _, _) => r, k, cy := ForSound(s, ctx, cur, n, es, c, p, x, d);
    case Range(_, _, _, _, _, _, _) => r, k, cy := RangeSound(s, ctx, cur, n, es, c, p, x, d);
    case Select(_, _, _, _) => r, k, cy := SelectSound(s, ctx, cur, n, es, c, p, x, d);
    case Switch(_, _) => r, k, cy := SwitchSound(s, ctx, cur, n, es, c, p, x, d);
    case _ => r, k, cy := SimpleSound(s, ctx, cur, n, es, c, p, x, d);
  }

  lemma SimpleSound(s: Stmt, ctx: Context, cur: nat, n: nat,
                    es: set<Edge>, c: Counters, p: seq<Edge>, x: nat, d: Counters)
    returns (r: Run, k: nat, cy: Counters)
    requires (s.Basic? || Jumps(s)) && cur < n && !IsSpecial(ctx, cur) && Before(ctx, n)
    requires ResolvedStmt(s, ctx.breaks.Keys, ctx.continues.Keys)
    requires Owns(es, CompileStmt(s, ctx, cur, n), cur, n) && IsPath(es, cur, c, p, x, d) && x < n && x != cur
    ensures RunsStmt(s, r) && k > 0
    ensures Explains(es, c, p, x, d, k, Target(ctx, CompileStmt(s, ctx, cur, n).exit, OutStmt(s, r)), cy, Trace(r), ctx.depth)
  {
    var f := CompileStmt(s, ctx, cur, n);
    SimplePlaced(s, ctx, cur, n);
    FirstEdge(es, f.edges, cur, c, p, x, d, ctx.depth);
    r, k, cy := if s.Basic? || s.Return? then Did(s.label_) else Jump, 1, c;
  }

  lemma IfParts(s: Stmt, ctx: Context, cur: nat, n: nat, es: set<Edge>)
    requires s.If? && ResolvedStmt(s, ctx.breaks.Keys, ctx.continues.Keys) && Before(ctx, n) && cur < n
    requires Owns(es, CompileStmt(s, ctx, cur, n), cur, n)
    ensures var in_, f := InsideIf(ctx), CompileBody(s.ifBranch, InsideIf(ctx), n, n + 1, n + 2);
            var g := CompileBody(s.elseBranch, in_, f.next, n + 1, f.next + 1);
            && Resolved(s.ifBranch, in_) && Resolved(s.elseBranch, in_)
            && Before(in_, n + 2) && Before(in_, f.next + 1) && n + 2 <= f.next
            && !IsSpecial(in_, n) && !IsSpecial(in_, f.next)
            && Owns(es, f, n, n + 2) && Owns(es, g, f.next, f.next + 1)
            && AllFrom(es, {Silent(cur, n), Silent(cur, f.next)}, cur)
  {
    hide CompileBody, Owns, Before, IsSpecial, LeavesNew, ResolvedBody, SizeBody;
    var in_ := InsideIf(ctx);
    var f := CompileBody(s.ifBranch, in_, n, n + 1, n + 2);
    var g := CompileBody(s.elseBranch, in_, f.next, n + 1, f.next + 1);
    var choice, whole := {Silent(cur, n), Silent(cur, f.next)}, CompileStmt(s, ctx, cur, n);
    InsideIfBefore(ctx, n, n + 2);
    BodyPlaced(s.ifBranch, in_, n, n + 1, n + 2);
    PlacedBounds(f.edges, n, n + 2, f.next);
    InsideIfBefore(ctx, n, f.next + 1);
    BodyPlaced(s.elseBranch, in_, f.next, n + 1, f.next + 1);
    PlacedBounds(g.edges, f.next, f.next + 1, g.next);
    PlacedAvoids(g.edges, f.next, f.next + 1, g.next, n, n + 2, f.next);
    PlacedAvoids(f.edges, n, n + 2, f.next, f.next, f.next + 1, g.next);
    PlacedAvoids(f.edges, n, n + 2, f.next, cur, n, n);
    PlacedAvoids(g.edges, f.next, f.next + 1, g.next, cur, n, n);
    ThreeUnions(f.edges, g.edges, choice);
    OwnsPart(es, whole, cur, n, f, n, n + 2, g.edges + choice);
    OwnsPart(es, whole, cur, n, g, f.next, f.next + 1, f.edges + choice);
    AllFromPart(es, whole, cur, n, choice, f.edges + g.edges, cur);
  }

  lemma InsideIfBefore(ctx: Context, n: nat, m: nat)
    requires Before(ctx, n) && n <= m
    ensures Before(InsideIf(ctx), m)
    ensures forall k :: n <= k ==> !IsSpecial(InsideIf(ctx), k)
  {
  }

  lemma PlacedBounds(es: set<Edge>, cur: nat, n: nat, next: nat)
    requires LeavesNew(es, cur, n, next)
    ensures n <= next
  {
  }

  /** After k0 edges that end in the entry state of a body comes a run of the body. */
  lemma EnterBody(b: seq<Stmt>, in_: Context, enter: nat, leave: nat, m: nat, depth: nat, k0: nat, tr0: seq<nat>,
                  es: set<Edge>, c: Counters, c1: Counters, p: seq<Edge>, x: nat, d: Counters)
    returns (r: Run, k: nat, cy: Counters)
    requires leave < m && leave != enter
    requires Resolved(b, in_) && Before(in_, m) && enter < m && !IsSpecial(in_, enter) && in_.depth == depth + 1
    requires Owns(es, CompileBody(b, in_, enter, leave, m), enter, m) && x < m && x != enter
    requires Explains(es, c, p, x, d, k0, enter, c1, tr0, depth)
    ensures RunsBody(b, r) && k > k0
    ensures Explains(es, c, p, x, d, k, Target(in_, leave, OutBody(b, r)), cy, tr0 + Trace(r), depth)
    decreases SizeBody(b), 4, 0
  {
    hide Owns, Before, CompileBody, IsPath, Agree, IsSpecial, Labels, Target, Explains, ResolvedBody, RunsBody, OutBody, SizeBody;
    ExplainsPath(es, c, p, x, d, k0, enter, c1, tr0, depth);
    var k2;
    r, k2, cy := BodySound(b, in_, enter, leave, m, es, c1, p[k0..], x, d);
    var y := Target(in_, leave, OutBody(b, r));
    Shallower(es, c1, p[k0..], x, d, k2, y, cy, Trace(r), depth);
    Chain(es, c, p, x, d, depth, k0, enter, c1, tr0, k2, y, cy, Trace(r));
    k := k0 + k2;
  }

  lemma IfSound(s: Stmt, ctx: Context, cur: nat, n: nat,
                es: set<Edge>, c: Counters, p: seq<Edge>, x: nat, d: Counters)
    returns (r: Run, k: nat, cy: Counters)
    requires s.If?
    requires ResolvedStmt(s, ctx.breaks.Keys, ctx.continues.Keys) && Before(ctx, n) && cur < n
    requires Owns(es, CompileStmt(s, ctx, cur, n), cur, n) && IsPath(es, cur, c, p, x, d) && x < n && x != cur
    ensures RunsStmt(s, r) && k > 0
    ensures Explains(es, c, p, x, d, k, Target(ctx, CompileStmt(s, ctx, cur, n).exit, OutStmt(s, r)), cy, Trace(r), ctx.depth)
    decreases SizeStmt(s), 1, 0
  {
    hide Owns, Before, CompileBody, IsPath, Agree, ResolvedBody, SizeBody, IsSpecial, Labels, Explains;
    var in_ := InsideIf(ctx);
    var f := CompileBody(s.ifBranch, in_, n, n + 1, n + 2);
    var choice := {Silent(cur, n), Silent(cur, f.next)};
    IfParts(s, ctx, cur, n, es);
    assert Silent(cur, n) in choice;
    FirstEdge(es, choice, cur, c, p, x, d, ctx.depth);
    var r2;
    if p[0] == Silent(cur, n) {
      r2, k, cy := EnterBody(s.ifBranch, in_, n, n + 1, n + 2, ctx.depth, 1, [], es, c, c, p, x, d);
      r := Pick(0, [], r2);
    } else {
      r2, k, cy := EnterBody(s.elseBranch, in_, f.next, n + 1, f.next + 1, ctx.depth, 1, [], es, c, c, p, x, d);
      r := Pick(1, [], r2);
    }
  }

  // ---------- Loops over a channel ----------

  lemma RangeParts(s: Stmt, ctx: Context, cur: nat, n: nat, es: set<Edge>)
    requires s.Range? && ResolvedStmt(s, ctx.breaks.Keys, ctx.continues.Keys) && Before(ctx, n) && cur < n
    requires Owns(es, CompileStmt(s, ctx, cur, n), cur, n)
    ensures var in_ := Inside(ctx, s.id, Some(n + 5), Some(n + 4));
            && Resolved(s.body, in_) && Before(in_, n + 6) && !IsSpecial(in_, n + 3) && in_.depth == ctx.depth + 1
            && Owns(es, CompileBody(s.body, in_, n + 3, n + 4, n + 6), n + 3, n + 6)
            && (var edges := RangeEdges(s, cur, n, n + 3, n + 4, n + 5);
                forall a :: a in [cur, n, n + 1, n + 2, n + 4] ==> AllFrom(es, edges, a))
  {
    hide CompileBody, Owns, Before, IsSpecial, LeavesNew, ResolvedBody, SizeBody, AllFrom;
    var in_ := Inside(ctx, s.id, Some(n + 5), Some(n + 4));
    InsideFresh(ctx, s.id, Some(n + 5), Some(n + 4), n, n + 6, n + 3);
    var f := CompileBody(s.body, in_, n + 3, n + 4, n + 6);
    BodyPlaced(s.body, in_, n + 3, n + 4, n + 6);
    PlacedBounds(f.edges, n + 3, n + 6, f.next);
    var edges, whole := RangeEdges(s, cur, n, n + 3, n + 4, n + 5), CompileStmt(s, ctx, cur, n);
    assert whole.edges == f.edges + edges && whole.edges == edges + f.edges;
    OwnsPart(es, whole, cur, n, f, n + 3, n + 6, edges);
    forall a | a in [cur, n, n + 1, n + 2, n + 4] ensures AllFrom(es, edges, a) {
      PlacedAvoids(f.edges, n + 3, n + 6, f.next, a, n, n);
      AllFromPart(es, whole, cur, n, edges, f.edges, a);
    }
  }

  /** A context inside a statement, with states made since. */
  lemma InsideFresh(ctx: Context, id: nat, break_: Option<nat>, continue_: Option<nat>, n: nat, m: nat, enter: nat)
    requires Before(ctx, n) && n <= m && n <= enter
    requires break_.Some? ==> break_.value < m && break_.value != enter
    requires continue_.Some? ==> continue_.value < m && continue_.value != enter
    ensures var in_ := Inside(ctx, id, break_, continue_);
            && Before(in_, m) && !IsSpecial(in_, enter) && in_.depth == ctx.depth + 1
            && in_.breaks.Keys == (if break_.Some? then ctx.breaks.Keys + {id} else ctx.breaks.Keys - {id})
            && in_.continues.Keys == (if continue_.Some? then ctx.continues.Keys + {id} else ctx.continues.Keys - {id})
  {
  }

  /** Where a loop body that does not go on leads. */
  lemma LeavesLoop(ctx: Context, id: nat, exit: nat, leave: nat, out: Outcome)
    ensures var in_ := Inside(ctx, id, Some(exit), Some(leave));
            && (GoesOn(out, id) ==> Target(in_, leave, out) == leave)
            && (!GoesOn(out, id) ==> Target(in_, leave, out) == Target(ctx, exit, Leave(out, id)))
  {
  }

  lemma RangeSound(s: Stmt, ctx: Context, cur: nat, n: nat,
                   es: set<Edge>, c: Counters, p: seq<Edge>, x: nat, d: Counters)
    returns (r: Run, k: nat, cy: Counters)
    requires s.Range?
    requires ResolvedStmt(s, ctx.breaks.Keys, ctx.continues.Keys) && Before(ctx, n) && cur < n
    requires Owns(es, CompileStmt(s, ctx, cur, n), cur, n) && IsPath(es, cur, c, p, x, d) && x < n && x != cur
    ensures RunsStmt(s, r) && k > 0
    ensures Explains(es, c, p, x, d, k, Target(ctx, CompileStmt(s, ctx, cur, n).exit, OutStmt(s, r)), cy, Trace(r), ctx.depth)
    decreases SizeStmt(s), 1, 1
  {
    hide Owns, Before, CompileBody, IsPath, Agree, ResolvedBody, SizeBody, IsSpecial, Labels, Explains;
    RangeParts(s, ctx, cur, n, es);
    assert cur in [cur, n, n + 1, n + 2, n + 4];
    var first := Edge(cur, n, [s.enter], Always, Keep);
    FirstEdge(es, RangeEdges(s, cur, n, n + 3, n + 4, n + 5), cur, c, p, x, d, ctx.depth);
    assert p[0] == first;
    var r2, k2;
    r2, k2, cy := PassesSound(s, ctx, cur, n, es, c, p[1..], x, d);
    Chain(es, c, p, x, d, ctx.depth, 1, n, c, [s.enter], k2, Target(ctx, n + 5, OutLoop(s, r2)), cy, Trace(r2));
    r, k := Then(Did(s.enter), r2), 1 + k2;
  }

  /** The test of a range loop begins with a trigger and its confirmation. */
  lemma ReceiveSound(s: Stmt, ctx: Context, cur: nat, n: nat, es: set<Edge>, c: Counters, p: seq<Edge>, x: nat, d: Counters)
    requires s.Range?
    requires ResolvedStmt(s, ctx.breaks.Keys, ctx.continues.Keys) && Before(ctx, n) && cur < n
    requires Owns(es, CompileStmt(s, ctx, cur, n), cur, n) && IsPath(es, n, c, p, x, d) && x < n && x != cur
    ensures Explains(es, c, p, x, d, 2, n + 2, c, [s.trigger, s.confirm], ctx.depth)
  {
    hide Owns, Before, CompileBody, Agree, ResolvedBody, SizeBody, IsSpecial, Labels, IsPath, AllFrom, CompileStmt, ResolvedStmt,
      Inside, Explains;
    RangeParts(s, ctx, cur, n, es);
    var edges, states := RangeEdges(s, cur, n, n + 3, n + 4, n + 5), [cur, n, n + 1, n + 2, n + 4];
    assert n in states && n + 1 in states;
    FirstEdge(es, edges, n, c, p, x, d, ctx.depth);
    assert p[0] == Edge(n, n + 1, [s.trigger], Always, Keep);
    FirstEdge(es, edges, n + 1, c, p[1..], x, d, ctx.depth);
    assert p[1..][0] == Edge(n + 1, n + 2, [s.confirm], Always, Keep);
    Chain(es, c, p, x, d, ctx.depth, 1, n + 1, c, [s.trigger], 1, n + 2, c, [s.confirm]);
    assert [s.trigger] + [s.confirm] == [s.trigger, s.confirm];
  }

  /** The passes of a range loop from its test on. */
  lemma {:induction false} PassesSound(s: Stmt, ctx: Context, cur: nat, n: nat,
                                       es: set<Edge>, c: Counters, p: seq<Edge>, x: nat, d: Counters)
    returns (r: Run, k: nat, cy: Counters)
    requires s.Range?
    requires ResolvedStmt(s, ctx.breaks.Keys, ctx.continues.Keys) && Before(ctx, n) && cur < n
    requires Owns(es, CompileStmt(s, ctx, cur, n), cur, n) && IsPath(es, n, c, p, x, d) && x < n && x != cur
    ensures RunsRange(s, r)
    ensures Explains(es, c, p, x, d, k, Target(ctx, n + 5, OutLoop(s, r)), cy, Trace(r), ctx.depth)
    decreases SizeStmt(s), 1, 0, |p|, 1
  {
    hide Owns, Before, CompileBody, Agree, ResolvedBody, SizeBody, IsSpecial, Labels, IsPath, Explains, AllFrom, CompileStmt,
      ResolvedStmt, Inside, RunsBody, OutBody, RunsStmt, OutStmt, Received, Trace;
    RangeParts(s, ctx, cur, n, es);
    ReceiveSound(s, ctx, cur, n, es, c, p, x, d);
    ExplainsPath(es, c, p, x, d, 2, n + 2, c, [s.trigger, s.confirm], ctx.depth);
    assert n + 2 in [cur, n, n + 1, n + 2, n + 4];
    var q := p[2..];
    FirstEdge(es, RangeEdges(s, cur, n, n + 3, n + 4, n + 5), n + 2, c, q, x, d, ctx.depth);
    if q[0] == Edge(n + 2, n + 5, [s.over], Always, Keep) {
      Chain(es, c, p, x, d, ctx.depth, 2, n + 2, c, [s.trigger, s.confirm], 1, n + 5, c, [s.over]);
      PassTrace(s, Nothing, Nothing);
      r, k, cy := Stop(Received(s, s.over)), 3, c;
    } else {
      assert q[0] == Edge(n + 2, n + 3, [s.more], Always, Keep);
      var k2;
      r, k2, cy := RangePassSound(s, ctx, cur, n, es, c, q, x, d);
      Chain(es, c, p, x, d, ctx.depth, 2, n + 2, c, [s.trigger, s.confirm], k2, Target(ctx, n + 5, OutLoop(s, r)), cy,
            [s.more] + Trace(r.inner) + Trace(r.rest));
      PassTrace(s, r.inner, r.rest);
      k := 2 + k2;
    }
  }

  lemma RangePassSound(s: Stmt, ctx: Context, cur: nat, n: nat,
                       es: set<Edge>, c: Counters, p: seq<Edge>, x: nat, d: Counters)
    returns (r: Run, k: nat, cy: Counters)
    requires s.Range?
    requires ResolvedStmt(s, ctx.breaks.Keys, ctx.continues.Keys) && Before(ctx, n) && cur < n
    requires Owns(es, CompileStmt(s, ctx, cur, n), cur, n) && x < n && x != cur
    requires p != [] && Explains(es, c, p, x, d, 1, n + 3, c, [s.more], ctx.depth)
    ensures RunsRange(s, r) && r.Iterate?
    ensures Explains(es, c, p, x, d, k, Target(ctx, n + 5, OutLoop(s, r)), cy, [s.more] + Trace(r.inner) + Trace(r.rest), ctx.depth)
    decreases SizeStmt(s), 1, 0, |p|, 0
  {
    hide Owns, Before, CompileBody, Agree, ResolvedBody, SizeBody, IsSpecial, Labels, IsPath, Explains, Inside, CompileStmt, Target,
      AllFrom, RunsStmt, RunsBody, OutStmt, OutBody, ResolvedStmt;
    RangeParts(s, ctx, cur, n, es);
    var in_ := Inside(ctx, s.id, Some(n + 5), Some(n + 4));
    var r2, k2, c2;
    r2, k2, c2 := EnterBody(s.body, in_, n + 3, n + 4, n + 6, ctx.depth, 1, [s.more], es, c, c, p, x, d);
    var out := OutBody(s.body, r2);
    LeavesLoop(ctx, s.id, n + 5, n + 4, out);
    if GoesOn(out, s.id) {
      ExplainsPath(es, c, p, x, d, k2, n + 4, c2, [s.more] + Trace(r2), ctx.depth);
      assert n + 4 in [cur, n, n + 1, n + 2, n + 4];
      FirstEdge(es, RangeEdges(s, cur, n, n + 3, n + 4, n + 5), n + 4, c2, p[k2..], x, d, ctx.depth);
      assert p[k2..][0] == Silent(n + 4, n);
      Chain(es, c, p, x, d, ctx.depth, k2, n + 4, c2, [s.more] + Trace(r2), 1, n, c2, []);
      var r3, k3;
      r3, k3, cy := PassesSound(s, ctx, cur, n, es, c2, p[k2 + 1..], x, d);
      Chain(es, c, p, x, d, ctx.depth, k2 + 1, n, c2, [s.more] + Trace(r2) + [], k3, Target(ctx, n + 5, OutLoop(s, r3)), cy, Trace(r3));
      r, k := Iterate(Received(s, s.more), r2, r3), k2 + 1 + k3;
      assert [s.more] + Trace(r2) + [] + Trace(r3) == [s.more] + Trace(r2) + Trace(r3);
    } else {
      r, k, cy := Iterate(Received(s, s.more), r2, Nothing), k2, c2;
      assert [s.more] + Trace(r2) + [] == [s.more] + Trace(r2);
    }
  }

  // ---------- Loops with a condition ----------

  function LoopTest(s: Stmt, ctx: Context, n: nat): Fragment
    requires s.For?
  {
    CompileBody(s.cond, Inside(ctx, s.id, None, None), n, n + 1, n + 2)
  }

  lemma ForParts(s: Stmt, ctx: Context, cur: nat, n: nat, es: set<Edge>)
    requires s.For? && ResolvedStmt(s, ctx.breaks.Keys, ctx.continues.Keys) && Before(ctx, n) && cur < n
    requires Owns(es, CompileStmt(s, ctx, cur, n), cur, n)
    ensures var m := LoopTest(s, ctx, n).next;
            var inTest, inBody := Inside(ctx, s.id, None, None), Inside(ctx, s.id, Some(m + 2), Some(m + 1));
            && n + 2 <= m
            && Resolved(s.cond, inTest) && Before(inTest, n + 2) && !IsSpecial(inTest, n)
            && Resolved(s.body, inBody) && Before(inBody, m + 3) && !IsSpecial(inBody, m)
            && Owns(es, LoopTest(s, ctx, n), n, n + 2)
            && Owns(es, CompileBody(s.body, inBody, m, m + 1, m + 3), m, m + 3)
            && (var edges := ForEdges(s, ctx.depth, cur, n, n + 1, m, m + 1, m + 2);
                AllFrom(es, edges, cur) && AllFrom(es, edges, n + 1) && AllFrom(es, edges, m + 1))
  {
    hide CompileBody, Owns, AllFrom, Before, IsSpecial, LeavesNew, ResolvedBody, SizeBody, Inside, ForEdges, Avoids;
    ForPlacedParts(s, ctx, cur, n);
    var m := LoopTest(s, ctx, n).next;
    var inBody := Inside(ctx, s.id, Some(m + 2), Some(m + 1));
    var t, f, whole := LoopTest(s, ctx, n), CompileBody(s.body, inBody, m, m + 1, m + 3), CompileStmt(s, ctx, cur, n);
    var edges := ForEdges(s, ctx.depth, cur, n, n + 1, m, m + 1, m + 2);
    assert whole == Fragment(t.edges + f.edges + edges, f.next, m + 2);
    ThreeUnions(t.edges, f.edges, edges);
    hide CompileStmt;
    AvoidsUnion(f.edges, edges, n, n + 2, m);
    AvoidsUnion(t.edges, edges, m, m + 3, f.next);
    AvoidsPart(es, whole, cur, n, t, n, n + 2, f.edges + edges);
    AvoidsPart(es, whole, cur, n, f, m, m + 3, t.edges + edges);
    forall a | a in [cur, n + 1, m + 1] ensures AllFrom(es, edges, a) {
      AvoidsUnion(t.edges, f.edges, a, n, n);
      AvoidsAllFrom(es, whole, cur, n, edges, t.edges + f.edges, a);
    }
    assert cur in [cur, n + 1, m + 1] && n + 1 in [cur, n + 1, m + 1] && m + 1 in [cur, n + 1, m + 1];
  }

  lemma AvoidsUnion(fs: set<Edge>, gs: set<Edge>, cur: nat, n: nat, next: nat)
    requires Avoids(fs, cur, n, next) && Avoids(gs, cur, n, next)
    ensures Avoids(fs + gs, cur, n, next)
  {
  }

  lemma AvoidsPart(es: set<Edge>, f: Fragment, cur: nat, n: nat, part: Fragment, cur2: nat, n2: nat, others: set<Edge>)
    requires Owns(es, f, cur, n) && f.edges == part.edges + others
    requires cur2 == cur || n <= cur2 < f.next
    requires n <= n2 && part.next <= f.next && f.exit != cur2 && !(n2 <= f.exit < part.next)
    requires Avoids(others, cur2, n2, part.next)
    ensures Owns(es, part, cur2, n2)
  {
    OwnsPart(es, f, cur, n, part, cur2, n2, others);
  }

  lemma AvoidsAllFrom(es: set<Edge>, f: Fragment, cur: nat, n: nat, part: set<Edge>, others: set<Edge>, a: nat)
    requires Owns(es, f, cur, n) && f.edges == part + others && a != f.exit && (a == cur || n <= a < f.next)
    requires Avoids(others, a, n, n)
    ensures AllFrom(es, part, a)
  {
    AllFromPart(es, f, cur, n, part, others, a);
  }

  lemma ForPlacedParts(s: Stmt, ctx: Context, cur: nat, n: nat)
    requires s.For? && ResolvedStmt(s, ctx.breaks.Keys, ctx.continues.Keys) && Before(ctx, n) && cur < n
    ensures var m := LoopTest(s, ctx, n).next;
            var inTest, inBody := Inside(ctx, s.id, None, None), Inside(ctx, s.id, Some(m + 2), Some(m + 1));
            var t, f := LoopTest(s, ctx, n).edges, CompileBody(s.body, inBody, m, m + 1, m + 3);
            var edges := ForEdges(s, ctx.depth, cur, n, n + 1, m, m + 1, m + 2);
            && n + 2 <= m && m + 3 <= f.next
            && Resolved(s.cond, inTest) && Before(inTest, n + 2) && !IsSpecial(inTest, n)
            && Resolved(s.body, inBody) && Before(inBody, m + 3) && !IsSpecial(inBody, m)
            && Avoids(f.edges, n, n + 2, m) && Avoids(t, m, m + 3, f.next)
            && Avoids(edges, n, n + 2, m) && Avoids(edges, m, m + 3, f.next)
            && (forall a :: a in [cur, n + 1, m + 1] ==> Avoids(f.edges, a, n, n) && Avoids(t, a, n, n))
  {
    hide CompileBody, Before, IsSpecial, ResolvedBody, SizeBody, Inside, ForEdges;
    InsideFresh(ctx, s.id, None, None, n, n + 2, n);
    BodyPlaced(s.cond, Inside(ctx, s.id, None, None), n, n + 1, n + 2);
    var m := LoopTest(s, ctx, n).next;
    var inBody := Inside(ctx, s.id, Some(m + 2), Some(m + 1));
    InsideFresh(ctx, s.id, Some(m + 2), Some(m + 1), n, m + 3, m);
    BodyPlaced(s.body, inBody, m, m + 1, m + 3);
    ForEdgesPlaced(s, ctx.depth, cur, n, n + 1, m, m + 1, m + 2);
  }

  /** The counter says how many passes were made, as far as it is kept. */
  ghost predicate Counted(s: Stmt, depth: nat, k: nat, c: Counters)
    requires s.For?
  {
    s.min.Some? || s.max.Some? ==> Value(c, depth) == Count(s, k)
  }

  /** The edges that begin where a condition ends, where a body ends and before the loop. */
  lemma LoopEdges(s: Stmt, depth: nat, cur: nat, n: nat, m: nat, e: Edge)
    requires s.For? && cur < n && n + 2 <= m && e in ForEdges(s, depth, cur, n, n + 1, m, m + 1, m + 2)
    ensures e.labels == []
    ensures e.src == cur ==> e.dst == n && e.guard == Always && e.update == (if s.min.Some? || s.max.Some? then Reset(depth) else Keep)
    ensures e.src == m + 1 ==> e.dst == n && e.guard == Always && e.update == (if s.max.Some? then Advance(depth) else Keep)
    ensures e.src == n + 1 ==> e.update == Keep && (e.dst == m || e.dst == m + 2)
    ensures e.src == n + 1 && e.dst == m ==> e.guard == (if s.max.Some? then Below(depth, s.max.value) else Always)
    ensures e.src == n + 1 && e.dst == m + 2 ==>
              !s.infinite && e.guard == (if s.min.Some? then NotBelow(depth, s.min.value) else Always)
  {
  }

  lemma ForSound(s: Stmt, ctx: Context, cur: nat, n: nat,
                 es: set<Edge>, c: Counters, p: seq<Edge>, x: nat, d: Counters)
    returns (r: Run, k: nat, cy: Counters)
    requires s.For?
    requires ResolvedStmt(s, ctx.breaks.Keys, ctx.continues.Keys) && Before(ctx, n) && cur < n
    requires Owns(es, CompileStmt(s, ctx, cur, n), cur, n) && IsPath(es, cur, c, p, x, d) && x < n && x != cur
    ensures RunsStmt(s, r) && k > 0
    ensures Explains(es, c, p, x, d, k, Target(ctx, CompileStmt(s, ctx, cur, n).exit, OutStmt(s, r)), cy, Trace(r), ctx.depth)
    decreases SizeStmt(s), 1, 1
  {
    hide Owns, Before, CompileBody, IsPath, Agree, ResolvedBody, SizeBody, IsSpecial, Labels, Explains, ForEdges, Inside;
    ForParts(s, ctx, cur, n, es);
    var m := LoopTest(s, ctx, n).next;
    var edges := ForEdges(s, ctx.depth, cur, n, n + 1, m, m + 1, m + 2);
    FirstEdge(es, edges, cur, c, p, x, d, ctx.depth);
    LoopEdges(s, ctx.depth, cur, n, m, p[0]);
    var c1 := Apply(p[0].update, c);
    var k2;
    r, k2, cy := LoopSound(s, ctx, cur, n, es, 0, c1, p[1..], x, d);
    Chain(es, c, p, x, d, ctx.depth, 1, n, c1, [], k2, Target(ctx, m + 2, OutLoop(s, r)), cy, Trace(r));
    k := 1 + k2;
    assert [] + Trace(r) == Trace(r);
  }

  /** A test and what follows it, after k passes. */
  lemma {:induction false} LoopSound(s: Stmt, ctx: Context, cur: nat, n: nat, es: set<Edge>, k: nat,
                                     c: Counters, p: seq<Edge>, x: nat, d: Counters)
    returns (r: Run, j: nat, cy: Counters)
    requires s.For? && Counted(s, ctx.depth, k, c)
    requires ResolvedStmt(s, ctx.breaks.Keys, ctx.continues.Keys) && Before(ctx, n) && cur < n
    requires Owns(es, CompileStmt(s, ctx, cur, n), cur, n) && IsPath(es, n, c, p, x, d) && x < n && x != cur
    ensures RunsLoop(s, k, r)
    ensures Explains(es, c, p, x, d, j, Target(ctx, LoopTest(s, ctx, n).next + 2, OutLoop(s, r)), cy, Trace(r), ctx.depth)
    decreases SizeStmt(s), 1, 0, |p|
  {
    hide Owns, Before, CompileBody, ResolvedBody, SizeBody, IsSpecial, Labels, IsPath, ForEdges, Inside, RunsStmt, RunsBody, OutStmt, OutBody, CompileStmt, ResolvedStmt;
    ForParts(s, ctx, cur, n, es);
    var m, inTest := LoopTest(s, ctx, n).next, Inside(ctx, s.id, None, None);
    var edges := ForEdges(s, ctx.depth, cur, n, n + 1, m, m + 1, m + 2);
    InsideDepth(ctx, s.id);
    var r1, k1, c1;
    r1, k1, c1 := BodySound(s.cond, inTest, n, n + 1, n + 2, es, c, p, x, d);
    var out1 := OutBody(s.cond, r1);
    TestTarget(s, ctx, n, r1);
    assert Counted(s, ctx.depth, k, c1);
    Shallower(es, c, p, x, d, k1, Target(inTest, n + 1, out1), c1, Trace(r1), ctx.depth);
    hide Agree;
    if out1 != Normal {
      r, j, cy := Stop(r1), k1, c1;
    } else {
      FirstEdge(es, edges, n + 1, c1, p[k1..], x, d, ctx.depth);
      var e := p[k1..][0];
      LoopEdges(s, ctx.depth, cur, n, m, e);
      Chain(es, c, p, x, d, ctx.depth, k1, n + 1, c1, Trace(r1), 1, e.dst, c1, []);
      assert Trace(r1) + [] == Trace(r1);
      if e.dst == m + 2 {
        r, j, cy := Stop(r1), k1 + 1, c1;
      } else {
        r, j, cy := PassSound(s, ctx, cur, n, es, k, c, c1, p, x, d, r1, k1 + 1);
      }
    }
  }

  lemma InsideDepth(ctx: Context, id: nat)
    ensures Inside(ctx, id, None, None).depth == ctx.depth + 1
  {
  }

  lemma TestTarget(s: Stmt, ctx: Context, n: nat, r1: Run)
    requires s.For? && ResolvedStmt(s, ctx.breaks.Keys, ctx.continues.Keys)
    ensures var out, e := OutBody(s.cond, r1), LoopTest(s, ctx, n).next + 2;
            Target(Inside(ctx, s.id, None, None), n + 1, out) == (if out == Normal then n + 1 else Target(ctx, e, out))
  {
    OutBodyIn(s.cond, r1, ctx.breaks.Keys - {s.id}, ctx.continues.Keys - {s.id});
  }

  /** A pass of the loop and what follows it; the test before it was passed on the first k1 edges. */
  lemma PassSound(s: Stmt, ctx: Context, cur: nat, n: nat, es: set<Edge>, k: nat,
                  c: Counters, c1: Counters, p: seq<Edge>, x: nat, d: Counters, r1: Run, k1: nat)
    returns (r: Run, j: nat, cy: Counters)
    requires s.For? && Counted(s, ctx.depth, k, c1) && (s.max.Some? ==> Count(s, k) < s.max.value)
    requires ResolvedStmt(s, ctx.breaks.Keys, ctx.continues.Keys) && Before(ctx, n) && cur < n
    requires Owns(es, CompileStmt(s, ctx, cur, n), cur, n) && x < n && x != cur
    requires RunsBody(s.cond, r1) && OutBody(s.cond, r1) == Normal && k1 > 0
    requires Explains(es, c, p, x, d, k1, LoopTest(s, ctx, n).next, c1, Trace(r1), ctx.depth)
    ensures RunsLoop(s, k, r)
    ensures Explains(es, c, p, x, d, j, Target(ctx, LoopTest(s, ctx, n).next + 2, OutLoop(s, r)), cy, Trace(r), ctx.depth)
    decreases SizeStmt(s), 1, 0, |p| - k1
  {
    hide Owns, Before, CompileBody, ResolvedBody, SizeBody, IsSpecial, Labels, IsPath, ForEdges, RunsStmt, RunsBody, OutStmt, OutBody;
    ForParts(s, ctx, cur, n, es);
    var m := LoopTest(s, ctx, n).next;
    var inBody := Inside(ctx, s.id, Some(m + 2), Some(m + 1));
    var edges := ForEdges(s, ctx.depth, cur, n, n + 1, m, m + 1, m + 2);
    var r2, k2, c2;
    r2, k2, c2 := BodySound(s.body, inBody, m, m + 1, m + 3, es, c1, p[k1..], x, d);
    var out := OutBody(s.body, r2);
    var y := Target(inBody, m + 1, out);
    assert Counted(s, ctx.depth, k, c2);
    Shallower(es, c1, p[k1..], x, d, k2, y, c2, Trace(r2), ctx.depth);
    Chain(es, c, p, x, d, ctx.depth, k1, m, c1, Trace(r1), k2, y, c2, Trace(r2));
    LeavesLoop(ctx, s.id, m + 2, m + 1, out);
    hide Inside, Explains, Agree;
    if GoesOn(out, s.id) {
      r, j, cy := NextPass(s, ctx, cur, n, es, k, c, c2, p, x, d, r1, r2, k1 + k2);
    } else {
      r, j, cy := Iterate(r1, r2, Nothing), k1 + k2, c2;
      assert Trace(r1) + Trace(r2) + Trace(Nothing) == Trace(r1) + Trace(r2);
    }
  }

  /** The edge back to the test and the passes from there. */
  lemma NextPass(s: Stmt, ctx: Context, cur: nat, n: nat, es: set<Edge>, k: nat,
                 c: Counters, c2: Counters, p: seq<Edge>, x: nat, d: Counters, r1: Run, r2: Run, k2: nat)
    returns (r: Run, j: nat, cy: Counters)
    requires s.For? && Counted(s, ctx.depth, k, c2) && (s.max.Some? ==> Count(s, k) < s.max.value)
    requires ResolvedStmt(s, ctx.breaks.Keys, ctx.continues.Keys) && Before(ctx, n) && cur < n
    requires Owns(es, CompileStmt(s, ctx, cur, n), cur, n) && x < n && x != cur
    requires RunsBody(s.cond, r1) && OutBody(s.cond, r1) == Normal
    requires RunsBody(s.body, r2) && GoesOn(OutBody(s.body, r2), s.id) && k2 > 0
    requires Explains(es, c, p, x, d, k2, LoopTest(s, ctx, n).next + 1, c2, Trace(r1) + Trace(r2), ctx.depth)
    ensures RunsLoop(s, k, r)
    ensures Explains(es, c, p, x, d, j, Target(ctx, LoopTest(s, ctx, n).next + 2, OutLoop(s, r)), cy, Trace(r), ctx.depth)
    decreases SizeStmt(s), 1, 0, |p| - k2
  {
    hide Owns, Before, CompileBody, ResolvedBody, SizeBody, IsSpecial, Labels, IsPath, ForEdges, Inside, Agree, RunsStmt, RunsBody, OutStmt, OutBody;
    ForParts(s, ctx, cur, n, es);
    var m := LoopTest(s, ctx, n).next;
    var edges := ForEdges(s, ctx.depth, cur, n, n + 1, m, m + 1, m + 2);
    FirstEdge(es, edges, m + 1, c2, p[k2..], x, d, ctx.depth);
    var e := p[k2..][0];
    LoopEdges(s, ctx.depth, cur, n, m, e);
    var c3 := Apply(e.update, c2);
    assert Counted(s, ctx.depth, k + 1, c3);
    Chain(es, c, p, x, d, ctx.depth, k2, m + 1, c2, Trace(r1) + Trace(r2), 1, n, c3, []);
    var r3, k3;
    r3, k3, cy := LoopSound(s, ctx, cur, n, es, k + 1, c3, p[k2 + 1..], x, d);
    Chain(es, c, p, x, d, ctx.depth, k2 + 1, n, c3, Trace(r1) + Trace(r2) + [], k3,
          Target(ctx, m + 2, OutLoop(s, r3)), cy, Trace(r3));
    r, j := Iterate(r1, r2, r3), k2 + 1 + k3;
    assert Trace(r1) + Trace(r2) + [] + Trace(r3) == Trace(r);
  }

  // ---------- Blocks ----------

  /** All edges from the states of block k are its own, and none leaves its end. */
  ghost predicate BlockOk(bs: Blocks, f: Fragment, k: nat, shared: Option<nat>)
    requires k < |bs.enters| == |bs.leaves|
  {
    var m := FirstInside(bs.enters[k], shared);
    && f.edges <= bs.edges && m <= f.next <= bs.next
    && (forall e :: e in bs.edges && (e.src == bs.enters[k] || m <= e.src < f.next) ==> e in f.edges)
    && (shared.None? ==> forall e :: e in bs.edges ==> e.src != bs.enters[k] + 1)
    && (forall j :: 0 <= j < |bs.leaves| ==> bs.leaves[j] != bs.enters[k] && !(m <= bs.leaves[j] < f.next))
    && (shared.None? ==> forall j :: 0 <= j < |bs.leaves| && j != k ==> bs.leaves[j] != bs.leaves[k])
    && (if shared.Some? then bs.leaves[k] == shared.value else bs.leaves[k] == bs.enters[k] + 1)
  }

  lemma BlockLater(rest: Blocks, fs: set<Edge>, f: Fragment, n: nat, leave: nat, next: nat, k: nat, shared: Option<nat>)
    requires 0 < k <= |rest.enters| == |rest.leaves| && BlockOk(rest, f, k - 1, shared)
    requires (forall e :: e in fs ==> e.src < next) && next <= rest.enters[k - 1] && FirstInside(n, shared) <= next
    requires if shared.Some? then leave == shared.value && leave < n else leave == n + 1
    ensures BlockOk(Blocks([n] + rest.enters, [leave] + rest.leaves, fs + rest.edges, rest.next), f, k, shared)
  {
    var bs := Blocks([n] + rest.enters, [leave] + rest.leaves, fs + rest.edges, rest.next);
    assert bs.enters[k] == rest.enters[k - 1] && bs.leaves[k] == rest.leaves[k - 1];
    assert forall j :: 0 < j < |bs.leaves| ==> bs.leaves[j] == rest.leaves[j - 1];
  }

  /** Block k of several: all edges from its states are its own. */
  lemma {:induction false} BlockParts(bodies: seq<seq<Stmt>>, ctx: Context, shared: Option<nat>, n: nat, k: nat)
    requires ResolvedBodies(bodies, ctx.breaks.Keys, ctx.continues.Keys) && Before(ctx, n) && (shared.Some? ==> shared.value < n)
    requires k < |bodies|
    ensures var bs := CompileBlocks(bodies, ctx, shared, n);
            && BlockOk(bs, CompileBody(bodies[k], ctx, bs.enters[k], bs.leaves[k], FirstInside(bs.enters[k], shared)), k, shared)
            && Resolved(bodies[k], ctx) && n <= bs.enters[k] && Before(ctx, FirstInside(bs.enters[k], shared))
            && !IsSpecial(ctx, bs.enters[k])
    decreases |bodies|
  {
    hide Before, CompileBody, IsSpecial, ResolvedBody, LeavesNew, BlockOk;
    var leave := if shared.Some? then shared.value else n + 1;
    BeforeLater(ctx, n, FirstInside(n, shared));
    BodyPlaced(bodies[0], ctx, n, leave, FirstInside(n, shared));
    var f := CompileBody(bodies[0], ctx, n, leave, FirstInside(n, shared));
    EarlierEdges(f.edges, n, FirstInside(n, shared), f.next);
    BeforeLater(ctx, n, f.next);
    if k == 0 {
      FirstBlock(bodies, ctx, shared, n);
    } else {
      BlockParts(bodies[1..], ctx, shared, f.next, k - 1);
      var rest := CompileBlocks(bodies[1..], ctx, shared, f.next);
      BlockLater(rest, f.edges, CompileBody(bodies[k], ctx, rest.enters[k - 1], rest.leaves[k - 1], FirstInside(rest.enters[k - 1], shared)),
                 n, leave, f.next, k, shared);
    }
  }

  lemma EarlierEdges(fs: set<Edge>, cur: nat, n: nat, next: nat)
    requires LeavesNew(fs, cur, n, next) && cur < n
    ensures forall e :: e in fs ==> e.src < next
    ensures n <= next && forall e :: e in fs ==> e.src == cur || n <= e.src
  {
  }

  lemma FirstBlock(bodies: seq<seq<Stmt>>, ctx: Context, shared: Option<nat>, n: nat)
    requires ResolvedBodies(bodies, ctx.breaks.Keys, ctx.continues.Keys) && Before(ctx, n) && (shared.Some? ==> shared.value < n)
    requires bodies != []
    ensures var bs := CompileBlocks(bodies, ctx, shared, n);
            && bs.enters[0] == n && BlockOk(bs, CompileBody(bodies[0], ctx, n, bs.leaves[0], FirstInside(n, shared)), 0, shared)
            && !IsSpecial(ctx, n) && Before(ctx, FirstInside(n, shared))
  {
    hide Before, CompileBody, IsSpecial, ResolvedBody, LeavesNew, BlockOk;
    var leave := if shared.Some? then shared.value else n + 1;
    BeforeLater(ctx, n, FirstInside(n, shared));
    BodyPlaced(bodies[0], ctx, n, leave, FirstInside(n, shared));
    var f := CompileBody(bodies[0], ctx, n, leave, FirstInside(n, shared));
    EarlierEdges(f.edges, n, FirstInside(n, shared), f.next);
    BeforeLater(ctx, n, f.next);
    BlocksPlaced(bodies[1..], ctx, shared, f.next);
    BeforeNotSpecial(ctx, n, n);
    BlockFirst(CompileBlocks(bodies[1..], ctx, shared, f.next), f, n, leave, shared);
  }

  lemma BlockFirst(rest: Blocks, f: Fragment, n: nat, leave: nat, shared: Option<nat>)
    requires |rest.enters| == |rest.leaves| && FirstInside(n, shared) <= f.next <= rest.next
    requires if shared.Some? then leave == shared.value && leave < n else leave == n + 1
    requires forall e :: e in f.edges ==> e.src == n || FirstInside(n, shared) <= e.src < f.next
    requires forall e :: e in rest.edges ==> f.next <= e.src
    requires forall k :: 0 <= k < |rest.leaves| ==> if shared.Some? then rest.leaves[k] == shared.value else f.next <= rest.leaves[k]
    ensures BlockOk(Blocks([n] + rest.enters, [leave] + rest.leaves, f.edges + rest.edges, rest.next), f, 0, shared)
  {
  }

  /** A block within a fragment. */
  lemma BlockOwned(bodies: seq<seq<Stmt>>, ctx: Context, shared: Option<nat>, m: nat, k: nat,
                   es: set<Edge>, whole: Fragment, cur: nat, n: nat, others: set<Edge>)
    requires ResolvedBodies(bodies, ctx.breaks.Keys, ctx.continues.Keys) && Before(ctx, m) && (shared.Some? ==> shared.value < m)
    requires k < |bodies| && n <= m && CompileBlocks(bodies, ctx, shared, m).next <= whole.next
    requires Owns(es, whole, cur, n) && whole.edges == CompileBlocks(bodies, ctx, shared, m).edges + others && whole.exit < m
    requires forall e :: e in others ==> FromOutside(CompileBlocks(bodies, ctx, shared, m), m, e.src)
    ensures var bs := CompileBlocks(bodies, ctx, shared, m);
            && Owns(es, CompileBody(bodies[k], ctx, bs.enters[k], bs.leaves[k], FirstInside(bs.enters[k], shared)), bs.enters[k], FirstInside(bs.enters[k], shared))
            && Resolved(bodies[k], ctx) && m <= bs.enters[k] && Before(ctx, FirstInside(bs.enters[k], shared))
            && !IsSpecial(ctx, bs.enters[k])
            && (if shared.Some? then bs.leaves[k] == shared.value else bs.leaves[k] == bs.enters[k] + 1)
  {
    hide CompileBlocks, CompileBody, FromOutside, Owns, SizeBody, SizeStmt, CompileStmt;
    BlockParts(bodies, ctx, shared, m, k);
    var bs := CompileBlocks(bodies, ctx, shared, m);
    var f := CompileBody(bodies[k], ctx, bs.enters[k], bs.leaves[k], FirstInside(bs.enters[k], shared));
    BlockOkOwned(bs, f, k, shared, m, es, whole, cur, n, others);
  }

  lemma BlockOkOwned(bs: Blocks, f: Fragment, k: nat, shared: Option<nat>, m: nat,
                     es: set<Edge>, whole: Fragment, cur: nat, n: nat, others: set<Edge>)
    requires k < |bs.enters| == |bs.leaves| && BlockOk(bs, f, k, shared)
    requires Owns(es, whole, cur, n) && whole.edges == bs.edges + others && whole.exit < m && n <= m <= bs.enters[k]
    requires bs.next <= whole.next && forall e :: e in others ==> FromOutside(bs, m, e.src)
    ensures Owns(es, f, bs.enters[k], FirstInside(bs.enters[k], shared))
  {
    forall e | e in es && (e.src == bs.enters[k] || FirstInside(bs.enters[k], shared) <= e.src < f.next) ensures e in f.edges {
      assert e in whole.edges;
    }
    assert forall g :: g in f.edges ==> g in whole.edges;
  }

  /** A state that is not inside a block: it lies elsewhere or ends a block. */
  ghost predicate FromOutside(bs: Blocks, m: nat, a: nat) {
    a < m || a >= bs.next || exists j :: 0 <= j < |bs.leaves| && a == bs.leaves[j]
  }

  lemma {:induction false} SizeAt(bodies: seq<seq<Stmt>>, k: nat)
    requires k < |bodies|
    ensures SizeBody(bodies[k]) <= SizeBodies(bodies)
  {
    if k > 0 {
      SizeAt(bodies[1..], k - 1);
    }
  }

  // ---------- Select statements ----------

  function SelectBodies(s: Stmt, ctx: Context, n: nat): (bs: Blocks)
    requires s.Select?
    ensures |bs.enters| == |bs.leaves| == |s.comms|
  {
    CompileBlocks(CommBodies(s.comms), Inside(ctx, s.id, Some(n), None), Some(n), SecondPass(s.comms, n) + 1)
  }

  /** The states between the current state of a select and its bodies. */
  predicate BetweenPasses(s: Stmt, bodies: Blocks, cur: nat, n: nat, a: nat)
    requires s.Select?
  {
    || a == cur || bodies.next <= a < TriggeredAt(s.comms, bodies.next, |s.comms|)
    || (!HasDefault(s.comms) && a == SecondPass(s.comms, n))
  }

  lemma SelectParts(s: Stmt, ctx: Context, cur: nat, n: nat)
    requires s.Select? && ResolvedStmt(s, ctx.breaks.Keys, ctx.continues.Keys) && Before(ctx, n) && cur < n
    ensures var in_, bodies, m := Inside(ctx, s.id, Some(n), None), SelectBodies(s, ctx, n), SecondPass(s.comms, n) + 1;
            && ResolvedBodies(CommBodies(s.comms), in_.breaks.Keys, in_.continues.Keys) && Before(in_, m)
            && in_.depth == ctx.depth + 1 && n < m <= bodies.next < TriggeredAt(s.comms, bodies.next, |s.comms|)
            && (forall e :: e in bodies.edges ==> m <= e.src < bodies.next)
            && CompileStmt(s, ctx, cur, n)
               == Fragment(bodies.edges + SelectEdges(s, bodies, cur, n), TriggeredAt(s.comms, bodies.next, |s.comms|), n)
            && forall e :: e in SelectEdges(s, bodies, cur, n) ==> BetweenPasses(s, bodies, cur, n, e.src)
  {
    hide CompileBody, CompileBlocks, Before, IsSpecial, ResolvedBody, SizeBody, SizeBodies, Inside, SelectEdges, HasDefault,
      TriggeredAt;
    var m := SecondPass(s.comms, n) + 1;
    InsideFresh(ctx, s.id, Some(n), None, n, m, n + 2);
    BlocksPlaced(CommBodies(s.comms), Inside(ctx, s.id, Some(n), None), Some(n), m);
    var bodies := SelectBodies(s, ctx, n);
    TriggeredFrom(s.comms, bodies.next, |s.comms|);
    SelectEdgesPlaced(s, bodies, cur, n);
  }

  /** All edges from the states between the passes are those of the select. */
  lemma SelectFrom(s: Stmt, ctx: Context, cur: nat, n: nat, es: set<Edge>, a: nat)
    requires s.Select? && ResolvedStmt(s, ctx.breaks.Keys, ctx.continues.Keys) && Before(ctx, n) && cur < n
    requires Owns(es, CompileStmt(s, ctx, cur, n), cur, n)
    requires BetweenPasses(s, SelectBodies(s, ctx, n), cur, n, a)
    ensures AllFrom(es, SelectEdges(s, SelectBodies(s, ctx, n), cur, n), a)
  {
    hide CompileBody, CompileBlocks, Owns, AllFrom, Before, IsSpecial, ResolvedBody, Inside, SelectEdges, SelectBodies, TriggeredAt,
      CompileStmt, ResolvedBodies, ResolvedStmt;
    SelectParts(s, ctx, cur, n);
    var bs, edges := SelectBodies(s, ctx, n), SelectEdges(s, SelectBodies(s, ctx, n), cur, n);
    assert bs.edges + edges == edges + bs.edges;
    AllFromPart(es, CompileStmt(s, ctx, cur, n), cur, n, edges, bs.edges, a);
  }

  /** What leaves the first pass: a trigger, the default or the way to the second pass. */
  lemma AfterFirstPass(s: Stmt, bodies: Blocks, cur: nat, n: nat, e: Edge) returns (i: nat)
    requires s.Select? && |bodies.enters| == |s.comms| && cur < n && SecondPass(s.comms, n) < bodies.next
    requires e in SelectEdges(s, bodies, cur, n) && e.src == bodies.next
    ensures || (i < |s.comms| && s.comms[i].Comm?
                && e == Edge(bodies.next, TriggeredAt(s.comms, bodies.next, i), [s.comms[i].trigger], Always, Keep))
            || (i < |s.comms| && s.comms[i].Default? && e == Edge(bodies.next, bodies.enters[i], [s.none], Always, Keep))
            || (!HasDefault(s.comms) && e == Edge(bodies.next, SecondPass(s.comms, n), [s.none], Always, Keep))
  {
    hide TriggeredAt, HasDefault;
    if e in ConfirmEdges(s, bodies) {
      var k :| 0 <= k < |s.comms| && s.comms[k].Comm?
               && e == Edge(TriggeredAt(s.comms, bodies.next, k), bodies.enters[k], [s.comms[k].confirm], Always, Keep);
      TriggeredFrom(s.comms, bodies.next, k);
      assert false;
    }
    assert e in FirstPassEdges(s, bodies, n);
    if !HasDefault(s.comms) && e == Edge(bodies.next, SecondPass(s.comms, n), [s.none], Always, Keep) {
      i := 0;
    } else {
      i :| 0 <= i < |s.comms|
           && (if s.comms[i].Comm? then
                 e == Edge(bodies.next, TriggeredAt(s.comms, bodies.next, i), [s.comms[i].trigger], Always, Keep)
               else e == Edge(bodies.next, bodies.enters[i], [s.none], Always, Keep));
    }
  }

  /** What leaves a triggered case is its confirmation. */
  lemma AfterTrigger(s: Stmt, bodies: Blocks, cur: nat, n: nat, i: nat, e: Edge)
    requires s.Select? && |bodies.enters| == |s.comms| && cur < n && SecondPass(s.comms, n) < bodies.next
    requires i < |s.comms| && s.comms[i].Comm?
    requires e in SelectEdges(s, bodies, cur, n) && e.src == TriggeredAt(s.comms, bodies.next, i)
    ensures e == Edge(TriggeredAt(s.comms, bodies.next, i), bodies.enters[i], [s.comms[i].confirm], Always, Keep)
  {
    hide TriggeredAt, HasDefault;
    TriggeredFrom(s.comms, bodies.next, i);
    assert e in ConfirmEdges(s, bodies);
    var k :| 0 <= k < |s.comms| && s.comms[k].Comm?
             && e == Edge(TriggeredAt(s.comms, bodies.next, k), bodies.enters[k], [s.comms[k].confirm], Always, Keep);
    if k < i {
      TriggeredApart(s.comms, bodies.next, k, i);
    } else if i < k {
      TriggeredApart(s.comms, bodies.next, i, k);
    }
  }

  /** What leaves the second pass is a confirmation. */
  lemma AfterSecondPass(s: Stmt, bodies: Blocks, cur: nat, n: nat, e: Edge) returns (i: nat)
    requires s.Select? && |bodies.enters| == |s.comms| && cur < n && SecondPass(s.comms, n) < bodies.next
    requires e in SelectEdges(s, bodies, cur, n) && e.src == SecondPass(s.comms, n) && !HasDefault(s.comms)
    ensures i < |s.comms| && s.comms[i].Comm?
            && e == Edge(SecondPass(s.comms, n), bodies.enters[i], [s.comms[i].confirm], Always, Keep)
  {
    hide TriggeredAt, HasDefault;
    if e in ConfirmEdges(s, bodies) {
      var k :| 0 <= k < |s.comms| && s.comms[k].Comm?
               && e == Edge(TriggeredAt(s.comms, bodies.next, k), bodies.enters[k], [s.comms[k].confirm], Always, Keep);
      TriggeredFrom(s.comms, bodies.next, k);
      assert false;
    }
    assert e in SecondPassEdges(s, bodies, n);
    i :| 0 <= i < |s.comms| && s.comms[i].Comm?
         && e == Edge(SecondPass(s.comms, n), bodies.enters[i], [s.comms[i].confirm], Always, Keep);
  }

  /** A path from a select comes to one of its bodies in one of the ways that the select takes. */
  lemma SelectEnters(s: Stmt, ctx: Context, cur: nat, n: nat, es: set<Edge>, c: Counters, p: seq<Edge>, x: nat, d: Counters)
    returns (i: nat, k: nat, labels: seq<nat>)
    requires s.Select? && ResolvedStmt(s, ctx.breaks.Keys, ctx.continues.Keys) && Before(ctx, n) && cur < n
    requires Owns(es, CompileStmt(s, ctx, cur, n), cur, n) && IsPath(es, cur, c, p, x, d) && x < n && x != cur
    ensures i < |s.comms| && Takes(s, i, labels)
    ensures Explains(es, c, p, x, d, k, SelectBodies(s, ctx, n).enters[i], c, labels, ctx.depth)
  {
    hide Owns, Before, CompileBody, IsPath, Agree, ResolvedBody, IsSpecial, Labels, Explains, CompileBlocks, Inside, AllFrom,
      SelectEdges, CompileStmt, TriggeredAt, ResolvedStmt, ResolvedBodies, HasDefault;
    var bodies := SelectBodies(s, ctx, n);
    var edges := SelectEdges(s, bodies, cur, n);
    SelectParts(s, ctx, cur, n);
    SelectFrom(s, ctx, cur, n, es, cur);
    FirstEdge(es, edges, cur, c, p, x, d, ctx.depth);
    AtEntry(s, bodies, cur, n, p[0]);
    SelectFrom(s, ctx, cur, n, es, bodies.next);
    var q := p[1..];
    FirstEdge(es, edges, bodies.next, c, q, x, d, ctx.depth);
    i := AfterFirstPass(s, bodies, cur, n, q[0]);
    Chain(es, c, p, x, d, ctx.depth, 1, bodies.next, c, [s.enter], 1, q[0].dst, c, q[0].labels);
    labels, k := [s.enter] + q[0].labels, 2;
    ExplainsPath(es, c, p, x, d, 2, q[0].dst, c, labels, ctx.depth);
    if q[0].dst == SecondPass(s.comms, n) && !HasDefault(s.comms) && q[0].labels == [s.none] {
      SelectFrom(s, ctx, cur, n, es, SecondPass(s.comms, n));
      FirstEdge(es, edges, SecondPass(s.comms, n), c, p[2..], x, d, ctx.depth);
      i := AfterSecondPass(s, bodies, cur, n, p[2..][0]);
      Chain(es, c, p, x, d, ctx.depth, 2, SecondPass(s.comms, n), c, labels, 1, bodies.enters[i], c, [s.comms[i].confirm]);
      labels, k := labels + [s.comms[i].confirm], 3;
      assert labels == [s.enter, s.none, s.comms[i].confirm];
    } else if s.comms[i].Comm? {
      var a := TriggeredAt(s.comms, bodies.next, i);
      TriggeredFrom(s.comms, bodies.next, i);
      TriggeredApart(s.comms, bodies.next, i, |s.comms|);
      SelectFrom(s, ctx, cur, n, es, a);
      FirstEdge(es, edges, a, c, p[2..], x, d, ctx.depth);
      AfterTrigger(s, bodies, cur, n, i, p[2..][0]);
      Chain(es, c, p, x, d, ctx.depth, 2, a, c, labels, 1, bodies.enters[i], c, [s.comms[i].confirm]);
      labels, k := labels + [s.comms[i].confirm], 3;
      assert labels == [s.enter, s.comms[i].trigger, s.comms[i].confirm];
    }
  }

  lemma AtEntry(s: Stmt, bodies: Blocks, cur: nat, n: nat, e: Edge)
    requires s.Select? && |bodies.enters| == |s.comms| && cur < n && n < bodies.next
    requires e in SelectEdges(s, bodies, cur, n) && e.src == cur
    ensures e == Edge(cur, bodies.next, [s.enter], Always, Keep)
  {
    hide TriggeredAt, HasDefault;
    if e in ConfirmEdges(s, bodies) {
      var k :| 0 <= k < |s.comms| && s.comms[k].Comm?
               && e == Edge(TriggeredAt(s.comms, bodies.next, k), bodies.enters[k], [s.comms[k].confirm], Always, Keep);
      TriggeredFrom(s.comms, bodies.next, k);
      assert false;
    }
  }

  lemma SelectSound(s: Stmt, ctx: Context, cur: nat, n: nat,
                    es: set<Edge>, c: Counters, p: seq<Edge>, x: nat, d: Counters)
    returns (r: Run, k: nat, cy: Counters)
    requires s.Select?
    requires ResolvedStmt(s, ctx.breaks.Keys, ctx.continues.Keys) && Before(ctx, n) && cur < n
    requires Owns(es, CompileStmt(s, ctx, cur, n), cur, n) && IsPath(es, cur, c, p, x, d) && x < n && x != cur
    ensures RunsStmt(s, r) && k > 0
    ensures Explains(es, c, p, x, d, k, Target(ctx, CompileStmt(s, ctx, cur, n).exit, OutStmt(s, r)), cy, Trace(r), ctx.depth)
    decreases SizeStmt(s), 1, 0
  {
    hide Owns, Before, CompileBody, IsPath, Agree, ResolvedBody, SizeBody, IsSpecial, Labels, Explains, CompileBlocks,
      SizeBodies, SizeComms, Inside, AllFrom, SelectEdges, TriggeredAt, Takes, HasDefault;
    var in_, bodies, m := Inside(ctx, s.id, Some(n), None), SelectBodies(s, ctx, n), SecondPass(s.comms, n) + 1;
    SelectParts(s, ctx, cur, n);
    var i, k0, labels := SelectEnters(s, ctx, cur, n, es, c, p, x, d);
    forall e | e in SelectEdges(s, bodies, cur, n) ensures FromOutside(bodies, m, e.src) {
      Outside(bodies, m, e.src);
    }
    BlockOwned(CommBodies(s.comms), in_, Some(n), m, i, es, CompileStmt(s, ctx, cur, n), cur, n, SelectEdges(s, bodies, cur, n));
    SizeAt(CommBodies(s.comms), i);
    var b, enter := s.comms[i].body, bodies.enters[i];
    var r2;
    r2, k, cy := EnterBody(b, in_, enter, n, enter + 1, ctx.depth, k0, labels, es, c, c, p, x, d);
    CommOut(s, i, r2, ctx);
    LeavesBlock(ctx, s.id, n, n, OutBody(b, r2));
    r := Pick(i, labels, r2);
  }

  lemma CommOut(s: Stmt, i: nat, r: Run, ctx: Context)
    requires s.Select? && ResolvedStmt(s, ctx.breaks.Keys, ctx.continues.Keys) && i < |s.comms|
    ensures OutBody(s.comms[i].body, r) != ContinueTo(s.id)
  {
    OutBodyIn(s.comms[i].body, r, ctx.breaks.Keys + {s.id}, ctx.continues.Keys - {s.id});
  }

  /** Where a body of a select or switch leads that may be left by a break. */
  lemma LeavesBlock(ctx: Context, id: nat, exit: nat, leave: nat, out: Outcome)
    requires out != ContinueTo(id)
    ensures var in_ := Inside(ctx, id, Some(exit), None);
            Target(in_, leave, out) == (if out == Normal then leave else Target(ctx, exit, Leave(out, id)))
  {
  }

  // ---------- Switch statements ----------

  function SwitchTests(s: Stmt, ctx: Context, n: nat): (bs: Blocks)
    requires s.Switch?
    ensures |bs.enters| == |bs.leaves| == |FlatConds(s.cases, 0)|
  {
    CompileBlocks(CondBodies(FlatConds(s.cases, 0)), Inside(ctx, s.id, None, None), None, n + 1)
  }

  function SwitchBodies(s: Stmt, ctx: Context, n: nat): (bs: Blocks)
    requires s.Switch?
    ensures |bs.enters| == |bs.leaves| == |s.cases|
  {
    CompileBlocks(CaseBodies(s.cases), Inside(ctx, s.id, Some(n), None), None, SwitchTests(s, ctx, n).next)
  }

  function EdgesOfSwitch(s: Stmt, ctx: Context, cur: nat, n: nat): set<Edge>
    requires s.Switch?
  {
    SwitchEdges(s.cases, FlatConds(s.cases, 0), SwitchTests(s, ctx, n), SwitchBodies(s, ctx, n), cur, n)
  }

  lemma SwitchParts(s: Stmt, ctx: Context, cur: nat, n: nat)
    requires s.Switch? && ResolvedStmt(s, ctx.breaks.Keys, ctx.continues.Keys) && Before(ctx, n) && cur < n
    ensures var inTest, inBody := Inside(ctx, s.id, None, None), Inside(ctx, s.id, Some(n), None);
            var tests, bodies := SwitchTests(s, ctx, n), SwitchBodies(s, ctx, n);
            && ResolvedBodies(CondBodies(FlatConds(s.cases, 0)), inTest.breaks.Keys, inTest.continues.Keys)
            && ResolvedBodies(CaseBodies(s.cases), inBody.breaks.Keys, inBody.continues.Keys)
            && Before(inTest, n + 1) && Before(inBody, tests.next) && n + 1 <= tests.next <= bodies.next
            && inTest.depth == ctx.depth + 1 && inBody.depth == ctx.depth + 1
            && (forall e :: e in tests.edges ==> n + 1 <= e.src < tests.next)
            && (forall e :: e in bodies.edges ==> tests.next <= e.src < bodies.next)
            && (forall k :: 0 <= k < |tests.leaves| ==> n + 1 <= tests.leaves[k] < tests.next)
            && (forall k :: 0 <= k < |bodies.leaves| ==> tests.next <= bodies.leaves[k] < bodies.next)
            && (forall k :: 0 <= k < |tests.enters| ==> n + 1 <= tests.enters[k])
            && (forall k :: 0 <= k < |bodies.enters| ==> tests.next <= bodies.enters[k])
            && CompileStmt(s, ctx, cur, n) == Fragment(tests.edges + bodies.edges + EdgesOfSwitch(s, ctx, cur, n), bodies.next, n)
            && (forall e :: e in EdgesOfSwitch(s, ctx, cur, n) ==>
                  e.src == cur || e.src in tests.leaves || e.src in bodies.leaves)
  {
    hide Before, Inside, CompileBlocks, SwitchEdges, ResolvedBody, ResolvedBodies, SizeBodies, CondBodies, CaseBodies, FlatConds;
    var inTest, inBody := Inside(ctx, s.id, None, None), Inside(ctx, s.id, Some(n), None);
    CasesResolved(s.cases, s.id, ctx.breaks.Keys, ctx.continues.Keys);
    InsideFresh(ctx, s.id, None, None, n, n + 1, n + 1);
    CondsResolved(s.cases, 0, inTest.breaks.Keys, inTest.continues.Keys);
    BlocksPlaced(CondBodies(FlatConds(s.cases, 0)), inTest, None, n + 1);
    var tests, bodies := SwitchTests(s, ctx, n), SwitchBodies(s, ctx, n);
    InsideFresh(ctx, s.id, Some(n), None, n, tests.next, tests.next);
    BlocksPlaced(CaseBodies(s.cases), inBody, None, tests.next);
    SwitchEdgesPlaced(s.cases, FlatConds(s.cases, 0), tests, bodies, cur, n);
  }

  /** The test of condition k owns its states, and the switch has all edges from its end. */
  lemma TestOwned(s: Stmt, ctx: Context, cur: nat, n: nat, es: set<Edge>, k: nat)
    requires s.Switch? && ResolvedStmt(s, ctx.breaks.Keys, ctx.continues.Keys) && Before(ctx, n) && cur < n
    requires Owns(es, CompileStmt(s, ctx, cur, n), cur, n) && k < |FlatConds(s.cases, 0)|
    ensures var tests, inTest, b := SwitchTests(s, ctx, n), Inside(ctx, s.id, None, None), FlatConds(s.cases, 0)[k].body;
            && Owns(es, CompileBody(b, inTest, tests.enters[k], tests.leaves[k], tests.enters[k] + 2), tests.enters[k], tests.enters[k] + 2)
            && Resolved(b, inTest) && n < tests.enters[k] && Before(inTest, tests.enters[k] + 2)
            && !IsSpecial(inTest, tests.enters[k]) && tests.leaves[k] == tests.enters[k] + 1
            && AllFrom(es, EdgesOfSwitch(s, ctx, cur, n), tests.leaves[k])
            && (forall j :: 0 <= j < |tests.leaves| && j != k ==> tests.leaves[j] != tests.leaves[k])
  {
    hide Before, Inside, CompileBlocks, SwitchEdges, ResolvedBody, ResolvedBodies, SizeBodies, CondBodies, CaseBodies, FlatConds,
      CompileStmt, CompileBody, Owns, IsSpecial, FromOutside;
    SwitchParts(s, ctx, cur, n);
    var whole, tests, bodies := CompileStmt(s, ctx, cur, n), SwitchTests(s, ctx, n), SwitchBodies(s, ctx, n);
    var sw, inTest, conds := EdgesOfSwitch(s, ctx, cur, n), Inside(ctx, s.id, None, None), FlatConds(s.cases, 0);
    ThreeUnions(tests.edges, bodies.edges, sw);
    forall e | e in bodies.edges + sw ensures FromOutside(tests, n + 1, e.src) {
      Outside(tests, n + 1, e.src);
    }
    BlockOwned(CondBodies(conds), inTest, None, n + 1, k, es, whole, cur, n, bodies.edges + sw);
    TestLeaves(s, ctx, cur, n, es, k);
  }

  lemma TestLeaves(s: Stmt, ctx: Context, cur: nat, n: nat, es: set<Edge>, k: nat)
    requires s.Switch? && ResolvedStmt(s, ctx.breaks.Keys, ctx.continues.Keys) && Before(ctx, n) && cur < n
    requires Owns(es, CompileStmt(s, ctx, cur, n), cur, n) && k < |FlatConds(s.cases, 0)|
    ensures var tests := SwitchTests(s, ctx, n);
            && AllFrom(es, EdgesOfSwitch(s, ctx, cur, n), tests.leaves[k])
            && (forall j :: 0 <= j < |tests.leaves| && j != k ==> tests.leaves[j] != tests.leaves[k])
  {
    hide Before, Inside, CompileBlocks, SwitchEdges, ResolvedBody, ResolvedBodies, SizeBodies, CondBodies, CaseBodies, FlatConds,
      CompileStmt, CompileBody, Owns, IsSpecial;
    SwitchParts(s, ctx, cur, n);
    var whole, tests, bodies := CompileStmt(s, ctx, cur, n), SwitchTests(s, ctx, n), SwitchBodies(s, ctx, n);
    ThreeUnions(tests.edges, bodies.edges, EdgesOfSwitch(s, ctx, cur, n));
    BlockParts(CondBodies(FlatConds(s.cases, 0)), Inside(ctx, s.id, None, None), None, n + 1, k);
    AllFromPart(es, whole, cur, n, EdgesOfSwitch(s, ctx, cur, n), tests.edges + bodies.edges, tests.leaves[k]);
  }

  lemma Outside(bs: Blocks, m: nat, a: nat)
    requires a < m || a >= bs.next || a in bs.leaves
    ensures FromOutside(bs, m, a)
  {
  }

  /** The body of case k owns its states, and the switch has all edges from its end. */
  lemma CaseOwned(s: Stmt, ctx: Context, cur: nat, n: nat, es: set<Edge>, k: nat)
    requires s.Switch? && ResolvedStmt(s, ctx.breaks.Keys, ctx.continues.Keys) && Before(ctx, n) && cur < n
    requires Owns(es, CompileStmt(s, ctx, cur, n), cur, n) && k < |s.cases|
    ensures var bodies, inBody, b := SwitchBodies(s, ctx, n), Inside(ctx, s.id, Some(n), None), s.cases[k].body;
            && Owns(es, CompileBody(b, inBody, bodies.enters[k], bodies.leaves[k], bodies.enters[k] + 2), bodies.enters[k], bodies.enters[k] + 2)
            && Resolved(b, inBody) && n < bodies.enters[k] && Before(inBody, bodies.enters[k] + 2)
            && !IsSpecial(inBody, bodies.enters[k]) && bodies.leaves[k] == bodies.enters[k] + 1
            && AllFrom(es, EdgesOfSwitch(s, ctx, cur, n), bodies.leaves[k])
            && (forall j :: 0 <= j < |bodies.leaves| && j != k ==> bodies.leaves[j] != bodies.leaves[k])
  {
    hide Before, Inside, CompileBlocks, SwitchEdges, ResolvedBody, ResolvedBodies, SizeBodies, CondBodies, CaseBodies, FlatConds,
      CompileStmt, CompileBody, Owns, IsSpecial, FromOutside;
    SwitchParts(s, ctx, cur, n);
    var whole, tests, bodies := CompileStmt(s, ctx, cur, n), SwitchTests(s, ctx, n), SwitchBodies(s, ctx, n);
    var sw, inBody := EdgesOfSwitch(s, ctx, cur, n), Inside(ctx, s.id, Some(n), None);
    ThreeUnions(tests.edges, bodies.edges, sw);
    forall e | e in tests.edges + sw ensures FromOutside(bodies, tests.next, e.src) {
      Outside(bodies, tests.next, e.src);
    }
    BlockOwned(CaseBodies(s.cases), inBody, None, tests.next, k, es, whole, cur, n, tests.edges + sw);
    CaseLeaves(s, ctx, cur, n, es, k);
  }

  lemma CaseLeaves(s: Stmt, ctx: Context, cur: nat, n: nat, es: set<Edge>, k: nat)
    requires s.Switch? && ResolvedStmt(s, ctx.breaks.Keys, ctx.continues.Keys) && Before(ctx, n) && cur < n
    requires Owns(es, CompileStmt(s, ctx, cur, n), cur, n) && k < |s.cases|
    ensures var bodies := SwitchBodies(s, ctx, n);
            && AllFrom(es, EdgesOfSwitch(s, ctx, cur, n), bodies.leaves[k])
            && (forall j :: 0 <= j < |bodies.leaves| && j != k ==> bodies.leaves[j] != bodies.leaves[k])
  {
    hide Before, Inside, CompileBlocks, SwitchEdges, ResolvedBody, ResolvedBodies, SizeBodies, CondBodies, CaseBodies, FlatConds,
      CompileStmt, CompileBody, Owns, IsSpecial;
    SwitchParts(s, ctx, cur, n);
    var whole, tests, bodies := CompileStmt(s, ctx, cur, n), SwitchTests(s, ctx, n), SwitchBodies(s, ctx, n);
    ThreeUnions(tests.edges, bodies.edges, EdgesOfSwitch(s, ctx, cur, n));
    BlockParts(CaseBodies(s.cases), Inside(ctx, s.id, Some(n), None), None, tests.next, k);
    AllFromPart(es, whole, cur, n, EdgesOfSwitch(s, ctx, cur, n), tests.edges + bodies.edges, bodies.leaves[k]);
  }

  /** The end states of tests and bodies are different from each other and from the current state. */
  ghost predicate EndsApart(tests: Blocks, bodies: Blocks, cur: nat) {
    && (forall j, k :: 0 <= j < |tests.leaves| && 0 <= k < |tests.leaves| && j != k ==> tests.leaves[j] != tests.leaves[k])
    && (forall j, k :: 0 <= j < |bodies.leaves| && 0 <= k < |bodies.leaves| && j != k ==> bodies.leaves[j] != bodies.leaves[k])
    && (forall j, k :: 0 <= j < |tests.leaves| && 0 <= k < |bodies.leaves| ==> tests.leaves[j] != bodies.leaves[k])
    && (forall j :: 0 <= j < |tests.leaves| ==> tests.leaves[j] != cur)
    && (forall j :: 0 <= j < |bodies.leaves| ==> bodies.leaves[j] != cur)
  }

  lemma TestEndDistinct(s: Stmt, ctx: Context, cur: nat, n: nat, k: nat)
    requires s.Switch? && ResolvedStmt(s, ctx.breaks.Keys, ctx.continues.Keys) && Before(ctx, n) && cur < n
    requires k < |FlatConds(s.cases, 0)|
    ensures var tests := SwitchTests(s, ctx, n);
            forall j :: 0 <= j < |tests.leaves| && j != k ==> tests.leaves[j] != tests.leaves[k]
  {
    hide Before, Inside, CompileBlocks, SwitchEdges, ResolvedBody, ResolvedBodies, SizeBodies, CondBodies, CaseBodies, FlatConds,
      CompileStmt, CompileBody, IsSpecial;
    SwitchParts(s, ctx, cur, n);
    BlockParts(CondBodies(FlatConds(s.cases, 0)), Inside(ctx, s.id, None, None), None, n + 1, k);
  }

  lemma CaseEndDistinct(s: Stmt, ctx: Context, cur: nat, n: nat, k: nat)
    requires s.Switch? && ResolvedStmt(s, ctx.breaks.Keys, ctx.continues.Keys) && Before(ctx, n) && cur < n
    requires k < |s.cases|
    ensures var bodies := SwitchBodies(s, ctx, n);
            forall j :: 0 <= j < |bodies.leaves| && j != k ==> bodies.leaves[j] != bodies.leaves[k]
  {
    hide Before, Inside, CompileBlocks, SwitchEdges, ResolvedBody, ResolvedBodies, SizeBodies, CondBodies, CaseBodies, FlatConds,
      CompileStmt, CompileBody, IsSpecial;
    SwitchParts(s, ctx, cur, n);
    BlockParts(CaseBodies(s.cases), Inside(ctx, s.id, Some(n), None), None, SwitchTests(s, ctx, n).next, k);
  }

  lemma SwitchEndsApart(s: Stmt, ctx: Context, cur: nat, n: nat)
    requires s.Switch? && ResolvedStmt(s, ctx.breaks.Keys, ctx.continues.Keys) && Before(ctx, n) && cur < n
    ensures EndsApart(SwitchTests(s, ctx, n), SwitchBodies(s, ctx, n), cur)
  {
    hide Before, Inside, CompileBlocks, SwitchEdges, ResolvedBody, ResolvedBodies, SizeBodies, CondBodies, CaseBodies, FlatConds,
      CompileStmt, CompileBody, IsSpecial;
    SwitchParts(s, ctx, cur, n);
    var tests, bodies := SwitchTests(s, ctx, n), SwitchBodies(s, ctx, n);
    forall j, k | 0 <= j < |tests.leaves| && 0 <= k < |tests.leaves| && j != k ensures tests.leaves[j] != tests.leaves[k] {
      TestEndDistinct(s, ctx, cur, n, k);
    }
    forall j, k | 0 <= j < |bodies.leaves| && 0 <= k < |bodies.leaves| && j != k ensures bodies.leaves[j] != bodies.leaves[k] {
      CaseEndDistinct(s, ctx, cur, n, k);
    }
  }

  /** The edges from where condition j is tested: to the test, to the body of the condition before it, or,
      behind the last condition, to where the switch goes on. */
  lemma EdgesFromTest(cases: seq<Case>, conds: seq<Cond>, tests: Blocks, bodies: Blocks, cur: nat, exit: nat, j: nat, e: Edge)
    requires |tests.enters| == |tests.leaves| == |conds| && |bodies.enters| == |bodies.leaves| == |cases|
    requires forall k :: 0 <= k < |conds| ==> conds[k].case_ < |cases|
    requires EndsApart(tests, bodies, cur) && j <= |conds|
    requires e in SwitchEdges(cases, conds, tests, bodies, cur, exit) && e.src == TestedFrom(tests, cur, j)
    ensures e == Silent(e.src, e.dst)
    ensures || (j < |conds| && e.dst == tests.enters[j])
            || (j > 0 && e.dst == bodies.enters[conds[j - 1].case_])
            || (j == |conds| && e.dst == NoneHolds(cases, bodies, exit))
  {
    forall k | 0 <= k <= |conds| && TestedFrom(tests, cur, k) == e.src ensures k == j {
    }
  }

  lemma EdgesFromCase(cases: seq<Case>, conds: seq<Cond>, tests: Blocks, bodies: Blocks, cur: nat, exit: nat, i: nat, e: Edge)
    requires |tests.enters| == |tests.leaves| == |conds| && |bodies.enters| == |bodies.leaves| == |cases|
    requires forall k :: 0 <= k < |conds| ==> conds[k].case_ < |cases|
    requires EndsApart(tests, bodies, cur) && i < |cases|
    requires e in SwitchEdges(cases, conds, tests, bodies, cur, exit) && e.src == bodies.leaves[i]
    ensures e == Silent(e.src, AfterCase(cases, bodies, exit, i))
  {
    forall k | 0 <= k <= |conds| ensures TestedFrom(tests, cur, k) != e.src {
    }
  }

  /** How the tests of a switch ended: with a chosen case, or with none where no condition holds. */
  ghost predicate Chose(cases: seq<Case>, conds: seq<Cond>, tested: nat, chosen: Option<nat>) {
    && (chosen.Some? ==>
          && chosen.value < |cases|
          && ((0 < tested <= |conds| && conds[tested - 1].case_ == chosen.value)
              || (tested == |conds| && DefaultCase(cases) == chosen)))
    && (chosen.None? ==> tested == |conds| && DefaultCase(cases).None?)
  }

  lemma {:induction false} DefaultInRange(cases: seq<Case>)
    ensures DefaultCase(cases).Some? ==> DefaultCase(cases).value < |cases|
  {
    if cases != [] && !cases[|cases| - 1].isDefault {
      DefaultInRange(cases[..|cases| - 1]);
    }
  }

  /** The tests of a switch from condition j on. */
  lemma {:induction false} TestsSound(s: Stmt, ctx: Context, cur: nat, n: nat, j: nat,
                                      es: set<Edge>, c: Counters, p: seq<Edge>, x: nat, d: Counters)
    returns (r: Run, chosen: Option<nat>, k: nat, cy: Counters)
    requires s.Switch? && j <= |FlatConds(s.cases, 0)|
    requires ResolvedStmt(s, ctx.breaks.Keys, ctx.continues.Keys) && Before(ctx, n) && cur < n
    requires Owns(es, CompileStmt(s, ctx, cur, n), cur, n) && x < n && x != cur
    requires IsPath(es, TestedFrom(SwitchTests(s, ctx, n), cur, j), c, p, x, d)
    ensures var conds := FlatConds(s.cases, 0);
            && RunsConds(conds[j..], r) && k > 0
            && (var out := OutConds(conds[j..], r);
                if out != Normal then Explains(es, c, p, x, d, k, Target(ctx, n, out), cy, Trace(r), ctx.depth)
                else
                  && Chose(s.cases, conds, j + Length(r), chosen)
                  && Explains(es, c, p, x, d, k, if chosen.Some? then SwitchBodies(s, ctx, n).enters[chosen.value] else n,
                              cy, Trace(r), ctx.depth))
    decreases SizeStmt(s), 1, 0, |FlatConds(s.cases, 0)| - j
  {
    hide Owns, Before, CompileBody, IsPath, Agree, ResolvedBody, SizeBody, IsSpecial, Labels, Explains, CompileBlocks,
      SizeBodies, Inside, AllFrom, SwitchEdges, EndsApart, FlatConds, CompileStmt;
    var conds, tests, bodies := FlatConds(s.cases, 0), SwitchTests(s, ctx, n), SwitchBodies(s, ctx, n);
    FirstFromTest(s, ctx, cur, n, j, es, c, p, x, d);
    DefaultInRange(s.cases);
    if j < |conds| && p[0].dst == tests.enters[j] {
      r, chosen, k, cy := TestSound(s, ctx, cur, n, j, es, c, p, x, d);
    } else {
      r, k, cy := Nothing, 1, c;
      assert OutConds(conds[j..], Nothing) == Normal && Length(Nothing) == 0;
      if j > 0 && p[0].dst == bodies.enters[conds[j - 1].case_] {
        chosen := Some(conds[j - 1].case_);
      } else {
        chosen := DefaultCase(s.cases);
      }
    }
  }

  lemma FirstFromTest(s: Stmt, ctx: Context, cur: nat, n: nat, j: nat,
                      es: set<Edge>, c: Counters, p: seq<Edge>, x: nat, d: Counters)
    requires s.Switch? && j <= |FlatConds(s.cases, 0)|
    requires ResolvedStmt(s, ctx.breaks.Keys, ctx.continues.Keys) && Before(ctx, n) && cur < n
    requires Owns(es, CompileStmt(s, ctx, cur, n), cur, n) && x < n && x != cur
    requires IsPath(es, TestedFrom(SwitchTests(s, ctx, n), cur, j), c, p, x, d)
    ensures var conds, tests, bodies := FlatConds(s.cases, 0), SwitchTests(s, ctx, n), SwitchBodies(s, ctx, n);
            && p != [] && Explains(es, c, p, x, d, 1, p[0].dst, c, [], ctx.depth)
            && IsPath(es, p[0].dst, c, p[1..], x, d)
            && (|| (j < |conds| && p[0].dst == tests.enters[j])
                || (j > 0 && p[0].dst == bodies.enters[conds[j - 1].case_])
                || (j == |conds| && p[0].dst == NoneHolds(s.cases, bodies, n)))
  {
    hide Owns, Before, CompileBody, IsPath, Agree, ResolvedBody, SizeBody, IsSpecial, Labels, Explains, CompileBlocks,
      SizeBodies, Inside, AllFrom, SwitchEdges, EndsApart, FlatConds;
    var conds, tests, bodies := FlatConds(s.cases, 0), SwitchTests(s, ctx, n), SwitchBodies(s, ctx, n);
    SwitchParts(s, ctx, cur, n);
    SwitchEndsApart(s, ctx, cur, n);
    var a := TestedFrom(tests, cur, j);
    if j > 0 {
      TestLeaves(s, ctx, cur, n, es, j - 1);
    } else {
      ThreeUnions(tests.edges, bodies.edges, EdgesOfSwitch(s, ctx, cur, n));
      AllFromPart(es, CompileStmt(s, ctx, cur, n), cur, n, EdgesOfSwitch(s, ctx, cur, n), tests.edges + bodies.edges, cur);
    }
    FirstEdge(es, EdgesOfSwitch(s, ctx, cur, n), a, c, p, x, d, ctx.depth);
    EdgesFromTest(s.cases, conds, tests, bodies, cur, n, j, p[0]);
  }

  /** Condition j is tested, and then what follows. */
  lemma TestSound(s: Stmt, ctx: Context, cur: nat, n: nat, j: nat,
                  es: set<Edge>, c: Counters, p: seq<Edge>, x: nat, d: Counters)
    returns (r: Run, chosen: Option<nat>, k: nat, cy: Counters)
    requires s.Switch? && j < |FlatConds(s.cases, 0)|
    requires ResolvedStmt(s, ctx.breaks.Keys, ctx.continues.Keys) && Before(ctx, n) && cur < n
    requires Owns(es, CompileStmt(s, ctx, cur, n), cur, n) && x < n && x != cur
    requires Explains(es, c, p, x, d, 1, SwitchTests(s, ctx, n).enters[j], c, [], ctx.depth)
    ensures var conds := FlatConds(s.cases, 0);
            && RunsConds(conds[j..], r) && k > 0
            && (var out := OutConds(conds[j..], r);
                if out != Normal then Explains(es, c, p, x, d, k, Target(ctx, n, out), cy, Trace(r), ctx.depth)
                else
                  && Chose(s.cases, conds, j + Length(r), chosen)
                  && Explains(es, c, p, x, d, k, if chosen.Some? then SwitchBodies(s, ctx, n).enters[chosen.value] else n,
                              cy, Trace(r), ctx.depth))
    decreases SizeStmt(s), 1, 0, |FlatConds(s.cases, 0)| - j, 0
  {
    hide Owns, Before, CompileBody, IsPath, Agree, ResolvedBody, SizeBody, IsSpecial, Labels, CompileBlocks, Explains, Target,
      SizeBodies, Inside, AllFrom, SwitchEdges, EndsApart, FlatConds, CompileStmt, ResolvedStmt, RunsStmt, RunsBody, OutStmt, OutBody;
    var conds, tests, inTest := FlatConds(s.cases, 0), SwitchTests(s, ctx, n), Inside(ctx, s.id, None, None);
    TestOwned(s, ctx, cur, n, es, j);
    TestSizes(s, j);
    InsideDepth(ctx, s.id);
    var b := conds[j].body;
    var r1, k1, c1;
    r1, k1, c1 := EnterBody(b, inTest, tests.enters[j], tests.leaves[j], tests.enters[j] + 2, ctx.depth, 1, [], es, c, c, p, x, d);
    TestOut(s, ctx, n, j, r1);
    assert [] + Trace(r1) == Trace(r1);
    assert conds[j..][0] == conds[j] && conds[j..][1..] == conds[j + 1..];
    if OutBody(b, r1) != Normal {
      r, chosen, k, cy := Then(r1, Nothing), None, k1, c1;
      assert Trace(r1) + [] == Trace(r1);
    } else {
      ExplainsPath(es, c, p, x, d, k1, tests.leaves[j], c1, Trace(r1), ctx.depth);
      var r2, k2;
      r2, chosen, k2, cy := TestsSound(s, ctx, cur, n, j + 1, es, c1, p[k1..], x, d);
      var y := if OutConds(conds[j + 1..], r2) != Normal then Target(ctx, n, OutConds(conds[j + 1..], r2))
               else if chosen.Some? then SwitchBodies(s, ctx, n).enters[chosen.value] else n;
      Chain(es, c, p, x, d, ctx.depth, k1, tests.leaves[j], c1, Trace(r1), k2, y, cy, Trace(r2));
      r, k := Then(r1, r2), k1 + k2;
    }
  }

  lemma TestSizes(s: Stmt, j: nat)
    requires s.Switch? && j < |FlatConds(s.cases, 0)|
    ensures SizeBody(FlatConds(s.cases, 0)[j].body) < SizeStmt(s)
  {
    SizeAt(CondBodies(FlatConds(s.cases, 0)), j);
  }

  lemma CaseSizes(s: Stmt, i: nat)
    requires s.Switch? && i < |s.cases|
    ensures SizeBody(s.cases[i].body) < SizeStmt(s)
  {
    SizeAt(CaseBodies(s.cases), i);
  }

  lemma TestOut(s: Stmt, ctx: Context, n: nat, j: nat, r: Run)
    requires s.Switch? && ResolvedStmt(s, ctx.breaks.Keys, ctx.continues.Keys) && j < |FlatConds(s.cases, 0)|
    ensures var out, tests := OutBody(FlatConds(s.cases, 0)[j].body, r), SwitchTests(s, ctx, n);
            Target(Inside(ctx, s.id, None, None), tests.leaves[j], out)
            == (if out == Normal then tests.leaves[j] else Target(ctx, n, out))
  {
    CasesResolved(s.cases, s.id, ctx.breaks.Keys, ctx.continues.Keys);
    CondsResolved(s.cases, 0, ctx.breaks.Keys - {s.id}, ctx.continues.Keys - {s.id});
    OutBodyIn(FlatConds(s.cases, 0)[j].body, r, ctx.breaks.Keys - {s.id}, ctx.continues.Keys - {s.id});
  }

  lemma CaseOut(s: Stmt, ctx: Context, i: nat, r: Run)
    requires s.Switch? && ResolvedStmt(s, ctx.breaks.Keys, ctx.continues.Keys) && i < |s.cases|
    ensures OutBody(s.cases[i].body, r) != ContinueTo(s.id)
  {
    OutBodyIn(s.cases[i].body, r, ctx.breaks.Keys + {s.id}, ctx.continues.Keys - {s.id});
  }

  /** The bodies of a switch from case i on. */
  lemma {:induction false} ChainSound(s: Stmt, ctx: Context, cur: nat, n: nat, i: nat,
                                      es: set<Edge>, c: Counters, p: seq<Edge>, x: nat, d: Counters)
    returns (r: Run, k: nat, cy: Counters)
    requires s.Switch? && i < |s.cases|
    requires ResolvedStmt(s, ctx.breaks.Keys, ctx.continues.Keys) && Before(ctx, n) && cur < n
    requires Owns(es, CompileStmt(s, ctx, cur, n), cur, n) && x < n && x != cur
    requires IsPath(es, SwitchBodies(s, ctx, n).enters[i], c, p, x, d)
    ensures RunsChain(s.cases, i, r)
    ensures Explains(es, c, p, x, d, k, Target(ctx, n, Leave(OutChain(s.cases, i, r), s.id)), cy, Trace(r), ctx.depth)
    decreases SizeStmt(s), 1, 0, |s.cases| - i
  {
    hide Owns, Before, CompileBody, IsPath, ResolvedBody, SizeBody, IsSpecial, Labels, CompileBlocks,
      SizeBodies, AllFrom, SwitchEdges, EndsApart, FlatConds, CompileStmt, RunsStmt, RunsBody, OutStmt, OutBody;
    var bodies, inBody, b := SwitchBodies(s, ctx, n), Inside(ctx, s.id, Some(n), None), s.cases[i].body;
    CaseOwned(s, ctx, cur, n, es, i);
    CaseSizes(s, i);
    var r1, k1, c1;
    r1, k1, c1 := BodySound(b, inBody, bodies.enters[i], bodies.leaves[i], bodies.enters[i] + 2, es, c, p, x, d);
    var out, y := OutBody(b, r1), Target(inBody, bodies.leaves[i], OutBody(b, r1));
    Shallower(es, c, p, x, d, k1, y, c1, Trace(r1), ctx.depth);
    CaseOut(s, ctx, i, r1);
    LeavesBlock(ctx, s.id, n, bodies.leaves[i], out);
    hide Inside, Agree;
    if out != Normal {
      r, k, cy := Then(r1, Nothing), k1, c1;
      assert Trace(r1) + [] == Trace(r1);
    } else {
      r, k, cy := CaseEnd(s, ctx, cur, n, i, es, c, c1, p, x, d, r1, k1);
    }
  }

  /** After the body of case i: the next body if it falls through, the end otherwise. */
  lemma CaseEnd(s: Stmt, ctx: Context, cur: nat, n: nat, i: nat,
                es: set<Edge>, c: Counters, c1: Counters, p: seq<Edge>, x: nat, d: Counters, r1: Run, k1: nat)
    returns (r: Run, k: nat, cy: Counters)
    requires s.Switch? && i < |s.cases|
    requires ResolvedStmt(s, ctx.breaks.Keys, ctx.continues.Keys) && Before(ctx, n) && cur < n
    requires Owns(es, CompileStmt(s, ctx, cur, n), cur, n) && x < n && x != cur
    requires RunsBody(s.cases[i].body, r1) && OutBody(s.cases[i].body, r1) == Normal
    requires Explains(es, c, p, x, d, k1, SwitchBodies(s, ctx, n).leaves[i], c1, Trace(r1), ctx.depth)
    ensures RunsChain(s.cases, i, r)
    ensures Explains(es, c, p, x, d, k, Target(ctx, n, Leave(OutChain(s.cases, i, r), s.id)), cy, Trace(r), ctx.depth)
    decreases SizeStmt(s), 1, 0, |s.cases| - i, 0
  {
    hide Owns, Before, CompileBody, IsPath, ResolvedBody, SizeBody, IsSpecial, Labels, CompileBlocks, Inside, Agree,
      SizeBodies, AllFrom, SwitchEdges, EndsApart, FlatConds, CompileStmt, RunsStmt, RunsBody, OutStmt, OutBody;
    hide Explains;
    var bodies := SwitchBodies(s, ctx, n);
    CaseOwned(s, ctx, cur, n, es, i);
    SwitchEndsApart(s, ctx, cur, n);
    ExplainsPath(es, c, p, x, d, k1, bodies.leaves[i], c1, Trace(r1), ctx.depth);
    FirstEdge(es, EdgesOfSwitch(s, ctx, cur, n), bodies.leaves[i], c1, p[k1..], x, d, ctx.depth);
    var e := p[k1..][0];
    EdgesFromCase(s.cases, FlatConds(s.cases, 0), SwitchTests(s, ctx, n), bodies, cur, n, i, e);
    Chain(es, c, p, x, d, ctx.depth, k1, bodies.leaves[i], c1, Trace(r1), 1, e.dst, c1, []);
    if s.cases[i].hasFallthrough {
      var r2, k2;
      r2, k2, cy := ChainSound(s, ctx, cur, n, i + 1, es, c1, p[k1 + 1..], x, d);
      var y := Target(ctx, n, Leave(OutChain(s.cases, i + 1, r2), s.id));
      Chain(es, c, p, x, d, ctx.depth, k1 + 1, e.dst, c1, Trace(r1) + [], k2, y, cy, Trace(r2));
      r, k := Then(r1, r2), k1 + 1 + k2;
      assert Trace(r1) + [] + Trace(r2) == Trace(r);
    } else {
      r, k, cy := Then(r1, Nothing), k1 + 1, c1;
    }
  }

  /** A run of a switch from runs of its tests and of the bodies from the chosen case on. */
  lemma SwitchRun(s: Stmt, tested: Run, chosen: Option<nat>, bodies: Run)
    requires s.Switch? && RunsConds(FlatConds(s.cases, 0), tested)
    requires var conds := FlatConds(s.cases, 0);
             if OutConds(conds, tested) != Normal then chosen.None? && bodies == Nothing
             else
               && Chose(s.cases, conds, Length(tested), chosen)
               && (if chosen.Some? then RunsChain(s.cases, chosen.value, bodies) else bodies == Nothing)
    ensures var r, out := Matched(tested, chosen, bodies), OutConds(FlatConds(s.cases, 0), tested);
            && RunsStmt(s, r) && Trace(r) == Trace(tested) + Trace(bodies) && Trace(Nothing) == []
            && OutStmt(s, r) == (if out != Normal then out
                                 else if chosen.Some? then Leave(OutChain(s.cases, chosen.value, bodies), s.id) else Normal)
  {
    hide FlatConds, DefaultCase, RunsBody, OutBody, RunsLoop, RunsRange, OutLoop, SizeStmt, SizeBody, CondBodies;
  }

  lemma SwitchSound(s: Stmt, ctx: Context, cur: nat, n: nat,
                    es: set<Edge>, c: Counters, p: seq<Edge>, x: nat, d: Counters)
    returns (r: Run, k: nat, cy: Counters)
    requires s.Switch?
    requires ResolvedStmt(s, ctx.breaks.Keys, ctx.continues.Keys) && Before(ctx, n) && cur < n
    requires Owns(es, CompileStmt(s, ctx, cur, n), cur, n) && IsPath(es, cur, c, p, x, d) && x < n && x != cur
    ensures RunsStmt(s, r) && k > 0
    ensures Explains(es, c, p, x, d, k, Target(ctx, CompileStmt(s, ctx, cur, n).exit, OutStmt(s, r)), cy, Trace(r), ctx.depth)
    decreases SizeStmt(s), 1, 1
  {
    hide Owns, Before, CompileBody, IsPath, ResolvedBody, ResolvedStmt, SizeBody, IsSpecial, Labels, CompileBlocks, Inside, Agree,
      SizeBodies, AllFrom, SwitchEdges, EndsApart, FlatConds, Explains, RunsStmt, RunsBody, OutStmt, OutBody, RunsConds, RunsChain;
    var conds := FlatConds(s.cases, 0);
    var r1, chosen, k1, c1;
    r1, chosen, k1, c1 := TestsSound(s, ctx, cur, n, 0, es, c, p, x, d);
    assert conds[0..] == conds;
    if OutConds(conds, r1) != Normal {
      SwitchRun(s, r1, None, Nothing);
      r, k, cy := Matched(r1, None, Nothing), k1, c1;
      assert Trace(r1) + [] == Trace(r1);
    } else if chosen.None? {
      SwitchRun(s, r1, None, Nothing);
      r, k, cy := Matched(r1, None, Nothing), k1, c1;
      assert Trace(r1) + [] == Trace(r1);
    } else {
      var enter := SwitchBodies(s, ctx, n).enters[chosen.value];
      ExplainsPath(es, c, p, x, d, k1, enter, c1, Trace(r1), ctx.depth);
      var r2, k2;
      r2, k2, cy := ChainSound(s, ctx, cur, n, chosen.value, es, c1, p[k1..], x, d);
      var y := Target(ctx, n, Leave(OutChain(s.cases, chosen.value, r2), s.id));
      Chain(es, c, p, x, d, ctx.depth, k1, enter, c1, Trace(r1), k2, y, cy, Trace(r2));
      SwitchRun(s, r1, chosen, r2);
      r, k := Matched(r1, chosen, r2), k1 + k2;
    }
  }
}
