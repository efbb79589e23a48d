/** The translation of structured statements into the edges of an automaton. */
module ControlFlow {
  import opened IrBodies

  /** Loop counters are numbered by the nesting depth of their loop. */
  datatype Guard = Always | Below(counter: nat, bound: nat) | NotBelow(counter: nat, bound: nat)
  datatype Update = Keep | Reset(counter: nat) | Advance(counter: nat)

  datatype Edge = Edge(src: nat, dst: nat, labels: seq<nat>, guard: Guard, update: Update)

  function Silent(src: nat, dst: nat): Edge { Edge(src, dst, [], Always, Keep) }

  /** The states that branch and return statements lead to. The depth counts the enclosing statements. */
  datatype Context = Context(depth: nat, breaks: map<nat, nat>, continues: map<nat, nat>, exitFunc: nat)

  predicate IsSpecial(ctx: Context, state: nat) {
    state == ctx.exitFunc || state in ctx.breaks.Values || state in ctx.continues.Values
  }

  /** The context for a body of statement id, which breaks may leave and continues may continue. */
  function Inside(ctx: Context, id: nat, break_: Option<nat>, continue_: Option<nat>): Context {
    Context(ctx.depth + 1,
            if break_.Some? then ctx.breaks[id := break_.value] else ctx.breaks - {id},
            if continue_.Some? then ctx.continues[id := continue_.value] else ctx.continues - {id},
            ctx.exitFunc)
  }

  function InsideIf(ctx: Context): Context { ctx.(depth := ctx.depth + 1) }

  /** New edges, the next unused state, and the state in which the statement ends. */
  datatype Fragment = Fragment(edges: set<Edge>, next: nat, exit: nat)

  /** Bodies with their entry and exit states. */
  datatype Blocks = Blocks(enters: seq<nat>, leaves: seq<nat>, edges: set<Edge>, next: nat)

  function CompileBody(b: seq<Stmt>, ctx: Context, cur: nat, exitBody: nat, n: nat): Fragment
    decreases SizeBody(b), 1
  {
    if b == [] then Fragment(if IsSpecial(ctx, cur) then {} else {Silent(cur, exitBody)}, n, exitBody)
    else
      var f := CompileStmt(b[0], ctx, cur, n);
      if IsSpecial(ctx, f.exit) then f.(exit := exitBody)
      else
        var rest := CompileBody(b[1..], ctx, f.exit, exitBody, f.next);
        Fragment(f.edges + rest.edges, rest.next, exitBody)
  }

  function CompileStmt(s: Stmt, ctx: Context, cur: nat, n: nat): Fragment
    decreases SizeStmt(s), 0
  {
    match s
    case Basic(l) => Fragment({Edge(cur, n, [l], Always, Keep)}, n + 1, n)
    case If(a, b) =>
      var f := CompileBody(a, InsideIf(ctx), n, n + 1, n + 2);
      var g := CompileBody(b, InsideIf(ctx), f.next, n + 1, f.next + 1);
      Fragment(f.edges + g.edges + {Silent(cur, n), Silent(cur, f.next)}, g.next, n + 1)
    case Switch(id, cases) =>
      var conds := FlatConds(cases, 0);
      var tests := CompileBlocks(CondBodies(conds), Inside(ctx, id, None, None), None, n + 1);
      var bodies := CompileBlocks(CaseBodies(cases), Inside(ctx, id, Some(n), None), None, tests.next);
      Fragment(tests.edges + bodies.edges + SwitchEdges(cases, conds, tests, bodies, cur, n), bodies.next, n)
    case Select(id, _, _, comms) =>
      var bodies := CompileBlocks(CommBodies(comms), Inside(ctx, id, Some(n), None), Some(n), SecondPass(comms, n) + 1);
      Fragment(bodies.edges + SelectEdges(s, bodies, cur, n), TriggeredAt(comms, bodies.next, |comms|), n)
    case For(id, cond, body, infinite, min, max) =>
      var test := CompileBody(cond, Inside(ctx, id, None, None), n, n + 1, n + 2);
      var enter, leave, exit := test.next, test.next + 1, test.next + 2;
      var inner := CompileBody(body, Inside(ctx, id, Some(exit), Some(leave)), enter, leave, test.next + 3);
      Fragment(test.edges + inner.edges + ForEdges(s, ctx.depth, cur, n, n + 1, enter, leave, exit), inner.next, exit)
    case Range(id, _, _, _, _, _, body) =>
      var enter, leave, exit := n + 3, n + 4, n + 5;
      var inner := CompileBody(body, Inside(ctx, id, Some(exit), Some(leave)), enter, leave, n + 6);
      Fragment(inner.edges + RangeEdges(s, cur, n, enter, leave, exit), inner.next, exit)
    case Break(id) =>
      var target := if id in ctx.breaks then ctx.breaks[id] else cur;
      Fragment({Silent(cur, target)}, n, target)
    case Continue(id) =>
      var target := if id in ctx.continues then ctx.continues[id] else cur;
      Fragment({Silent(cur, target)}, n, target)
    case Return(l) => Fragment({Edge(cur, ctx.exitFunc, [l], Always, Keep)}, n, ctx.exitFunc)
  }

  /** The first state inside a block with this entry state. */
  function FirstInside(enter: nat, shared: Option<nat>): nat { if shared.Some? then enter + 1 else enter + 2 }

  /** Each body gets an entry state, and an exit state unless all share one. */
  function CompileBlocks(bodies: seq<seq<Stmt>>, ctx: Context, shared: Option<nat>, n: nat): (bs: Blocks)
    ensures |bs.enters| == |bs.leaves| == |bodies|
    decreases SizeBodies(bodies), 2, |bodies|
  {
    if bodies == [] then Blocks([], [], {}, n)
    else
      var leave := if shared.Some? then shared.value else n + 1;
      var f := CompileBody(bodies[0], ctx, n, leave, FirstInside(n, shared));
      var rest := CompileBlocks(bodies[1..], ctx, shared, f.next);
      Blocks([n] + rest.enters, [leave] + rest.leaves, f.edges + rest.edges, rest.next)
  }

  /** The state from which condition k of a switch is tested: the end of the one before it. */
  function TestedFrom(tests: Blocks, cur: nat, k: nat): nat
    requires k <= |tests.leaves|
  {
    if k == 0 then cur else tests.leaves[k - 1]
  }

  function SwitchEdges(cases: seq<Case>, conds: seq<Cond>, tests: Blocks, bodies: Blocks, cur: nat, exit: nat): set<Edge>
    requires |tests.enters| == |tests.leaves| == |conds| && |bodies.enters| == |bodies.leaves| == |cases|
    requires forall k :: 0 <= k < |conds| ==> conds[k].case_ < |cases|
  {
    (set k | 0 <= k < |conds| :: Silent(TestedFrom(tests, cur, k), tests.enters[k]))
    + (set k | 0 <= k < |conds| :: Silent(tests.leaves[k], bodies.enters[conds[k].case_]))
    + {Silent(TestedFrom(tests, cur, |conds|), NoneHolds(cases, bodies, exit))}
    + (set i | 0 <= i < |cases| :: Silent(bodies.leaves[i], AfterCase(cases, bodies, exit, i)))
  }

  /** Where a switch goes on if no condition holds. */
  function NoneHolds(cases: seq<Case>, bodies: Blocks, exit: nat): nat
    requires |bodies.enters| == |cases|
  {
    match DefaultCase(cases)
    case None => exit
    case Some(i) => if i < |cases| then bodies.enters[i] else exit
  }

  function AfterCase(cases: seq<Case>, bodies: Blocks, exit: nat, i: nat): nat
    requires i < |cases| == |bodies.enters|
  {
    if cases[i].hasFallthrough && i + 1 < |cases| then bodies.enters[i + 1] else exit
  }

  /** The state in which a select without default waits: the first one behind its exit state n. */
  function SecondPass(comms: seq<Comm>, n: nat): nat { if HasDefault(comms) then n else n + 1 }

  /** The state in which case k of a select has been triggered; they follow the state of the first pass. */
  function TriggeredAt(comms: seq<Comm>, firstPass: nat, k: nat): nat
    requires k <= |comms|
  {
    if k == 0 then firstPass + 1
    else TriggeredAt(comms, firstPass, k - 1) + (if comms[k - 1].Comm? then 1 else 0)
  }

  /** In the first pass each case can be triggered and then confirmed; or the select goes on to its default or
      to the second pass, in which each case can be confirmed. */
  function SelectEdges(s: Stmt, bodies: Blocks, cur: nat, n: nat): set<Edge>
    requires s.Select? && |bodies.enters| == |s.comms|
  {
    {Edge(cur, bodies.next, [s.enter], Always, Keep)} + FirstPassEdges(s, bodies, n) + ConfirmEdges(s, bodies)
    + (if HasDefault(s.comms) then {} else SecondPassEdges(s, bodies, n))
  }

  function FirstPassEdges(s: Stmt, bodies: Blocks, n: nat): set<Edge>
    requires s.Select? && |bodies.enters| == |s.comms|
  {
    (set k | 0 <= k < |s.comms| && s.comms[k].Comm? ::
      Edge(bodies.next, TriggeredAt(s.comms, bodies.next, k), [s.comms[k].trigger], Always, Keep))
    + (set k | 0 <= k < |s.comms| && s.comms[k].Default? :: Edge(bodies.next, bodies.enters[k], [s.none], Always, Keep))
    + (if HasDefault(s.comms) then {} else {Edge(bodies.next, SecondPass(s.comms, n), [s.none], Always, Keep)})
  }

  function ConfirmEdges(s: Stmt, bodies: Blocks): set<Edge>
    requires s.Select? && |bodies.enters| == |s.comms|
  {
    set k | 0 <= k < |s.comms| && s.comms[k].Comm? ::
      Edge(TriggeredAt(s.comms, bodies.next, k), bodies.enters[k], [s.comms[k].confirm], Always, Keep)
  }

  function SecondPassEdges(s: Stmt, bodies: Blocks, n: nat): set<Edge>
    requires s.Select? && |bodies.enters| == |s.comms|
  {
    set k | 0 <= k < |s.comms| && s.comms[k].Comm? ::
      Edge(SecondPass(s.comms, n), bodies.enters[k], [s.comms[k].confirm], Always, Keep)
  }

  /** The counter is reset before the loop if there are bounds, and advanced only if there is a maximum. */
  function ForEdges(s: Stmt, depth: nat, cur: nat, condEnter: nat, condExit: nat, enter: nat, leave: nat, exit: nat): set<Edge>
    requires s.For?
  {
    {Edge(cur, condEnter, [], Always, if s.min.Some? || s.max.Some? then Reset(depth) else Keep),
     Edge(condExit, enter, [], if s.max.Some? then Below(depth, s.max.value) else Always, Keep),
     Edge(leave, condEnter, [], Always, if s.max.Some? then Advance(depth) else Keep)}
    + (if s.infinite then {}
       else {Edge(condExit, exit, [], if s.min.Some? then NotBelow(depth, s.min.value) else Always, Keep)})
  }

  /** State n is the test: it triggers a receive, which is confirmed, and then the loop goes on or is over. */
  function RangeEdges(s: Stmt, cur: nat, n: nat, enter: nat, leave: nat, exit: nat): set<Edge>
    requires s.Range?
  {
    {Edge(cur, n, [s.enter], Always, Keep),
     Edge(n, n + 1, [s.trigger], Always, Keep), Edge(n + 1, n + 2, [s.confirm], Always, Keep),
     Edge(n + 2, enter, [s.more], Always, Keep), Edge(n + 2, exit, [s.over], Always, Keep), Silent(leave, n)}
  }

  // ---------- Paths ----------

  type Counters = map<nat, nat>

  function Value(c: Counters, k: nat): nat { if k in c then c[k] else 0 }

  predicate Holds(g: Guard, c: Counters) {
    match g
    case Always => true
    case Below(k, m) => Value(c, k) < m
    case NotBelow(k, m) => Value(c, k) >= m
  }

  function Apply(u: Update, c: Counters): Counters {
    match u
    case Keep => c
    case Reset(k) => c[k := 0]
    case Advance(k) => c[k := Value(c, k) + 1]
  }

  /** The edges of p can be taken one after the other, from state a with counters c to state x with d. */
  predicate IsPath(es: set<Edge>, a: nat, c: Counters, p: seq<Edge>, x: nat, d: Counters)
    decreases |p|
  {
    if p == [] then x == a && d == c
    else p[0] in es && p[0].src == a && Holds(p[0].guard, c) && IsPath(es, p[0].dst, Apply(p[0].update, c), p[1..], x, d)
  }

  function Labels(p: seq<Edge>): seq<nat> {
    if p == [] then [] else p[0].labels + Labels(p[1..])
  }

  /** The counters of enclosing loops are the same. */
  predicate Agree(depth: nat, c: Counters, d: Counters) { forall k :: 0 <= k < depth ==> Value(c, k) == Value(d, k) }

  /** The state a statement's outcome leads to. */
  function Target(ctx: Context, exit: nat, out: Outcome): nat {
    match out
    case Normal => exit
    case BreakTo(id) => if id in ctx.breaks then ctx.breaks[id] else ctx.exitFunc
    case ContinueTo(id) => if id in ctx.continues then ctx.continues[id] else ctx.exitFunc
    case Returned => ctx.exitFunc
  }
}
