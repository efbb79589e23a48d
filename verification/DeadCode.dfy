/** Removing statements without effect, and what the runs of a body are before and after. */
module DeadCode {
  import opened IrBodies
  import opened TraceLaws

  // ---------- The rewriting ----------

  /** Branches and loops that become empty disappear. Loops over channels, switch and select statements stay as
      they are. */
  function Simplify(s: Stmt): (r: seq<Stmt>)
    ensures |r| <= 1
    decreases SizeStmt(s), 0
  {
    match s
    case If(a, b) =>
      var a1, b1 := SimplifyBody(a), SimplifyBody(b);
      if a1 == [] && b1 == [] then [] else [If(a1, b1)]
    case For(_, cond, body, infinite, _, _) =>
      var c1, b1 := SimplifyBody(cond), SimplifyBody(body);
      if !infinite && c1 == [] && b1 == [] then [] else [s.(cond := c1, body := b1)]
    case _ => [s]
  }

  function SimplifyBody(b: seq<Stmt>): seq<Stmt>
    decreases SizeBody(b), 1
  {
    if b == [] then [] else Simplify(b[0]) + SimplifyBody(b[1..])
  }

  /** In the body of a function, bare returns and calls of functions that do nothing disappear, too. */
  function Strip(b: seq<Stmt>, bare: set<nat>, idle: set<nat>): seq<Stmt> {
    if b == [] then []
    else if (b[0].Return? && b[0].label_ in bare) || (b[0].Basic? && b[0].label_ in idle) then Strip(b[1..], bare, idle)
    else [b[0]] + Strip(b[1..], bare, idle)
  }

  // ---------- The same runs ----------

  ghost predicate Same(b: seq<Stmt>, b1: seq<Stmt>) { forall tr, out :: Has(b, tr, out) <==> Has(b1, tr, out) }

  ghost predicate SameStmt(s: Stmt, b: seq<Stmt>) { forall tr, out :: HasStmt(s, tr, out) <==> Has(b, tr, out) }

  /** Replacing the first statement and the rest by what has the same runs changes nothing. */
  lemma SameCons(s: Stmt, s1: seq<Stmt>, rest: seq<Stmt>, rest1: seq<Stmt>)
    requires |s1| <= 1 && SameStmt(s, s1) && Same(rest, rest1)
    ensures Same([s] + rest, s1 + rest1)
  {
    hide Has, HasStmt;
    forall tr, out ensures Has([s] + rest, tr, out) <==> Has(s1 + rest1, tr, out) {
      ConsHas(s, rest, tr, out);
      if s1 == [] {
        assert s1 + rest1 == rest1;
        SkipCons(s, rest, tr, out);
        assert Has(rest, tr, out) <==> Has(rest1, tr, out);
      } else {
        assert s1 == [s1[0]];
        ConsHas(s1[0], rest1, tr, out);
        SingleHas(s1[0]);
        ConsAlike(s, s1[0], rest, rest1, tr, out);
      }
    }
  }

  lemma SkipCons(s: Stmt, rest: seq<Stmt>, tr: seq<nat>, out: Outcome)
    requires SameStmt(s, [])
    ensures HasCons(s, rest, tr, out) <==> Has(rest, tr, out)
  {
    hide Has, HasStmt;
    forall tr1, out1 ensures HasStmt(s, tr1, out1) <==> tr1 == [] && out1 == Normal {
      NothingHas(tr1, out1);
      assert HasStmt(s, tr1, out1) <==> Has([], tr1, out1);
    }
    assert tr[0..] == tr && tr[..0] == [];
    if Has(rest, tr, out) {
      assert HasStmt(s, tr[..0], Normal) && Has(rest, tr[0..], out);
    }
  }

  lemma ConsAlike(s: Stmt, s1: Stmt, rest: seq<Stmt>, rest1: seq<Stmt>, tr: seq<nat>, out: Outcome)
    requires Same(rest, rest1) && forall tr1, out1 :: HasStmt(s, tr1, out1) <==> HasStmt(s1, tr1, out1)
    ensures HasCons(s, rest, tr, out) <==> HasCons(s1, rest1, tr, out)
  {
    hide Has, HasStmt;
  }

  // ---------- Loops ----------

  /** With other conditions and bodies that have the same runs, a loop has the same runs. */
  lemma {:induction false} LoopAgain(s: Stmt, cond: seq<Stmt>, body: seq<Stmt>, k: nat, r: Run) returns (w: Run)
    requires s.For? && Same(s.cond, cond) && Same(s.body, body) && RunsLoop(s, k, r)
    ensures var s1 := s.(cond := cond, body := body);
            RunsLoop(s1, k, w) && Trace(w) == Trace(r) && OutLoop(s1, w) == OutLoop(s, r)
    decreases r
  {
    match r
    case Stop(test) =>
      var t := AgainIn(s.cond, cond, test);
      w := Stop(t);
    case Iterate(test, inner, rest) =>
      var t := AgainIn(s.cond, cond, test);
      var i := AgainIn(s.body, body, inner);
      if GoesOn(OutBody(s.body, inner), s.id) {
        var v := LoopAgain(s, cond, body, k + 1, rest);
        w := Iterate(t, i, v);
      } else {
        w := Iterate(t, i, Nothing);
      }
  }

  lemma AgainIn(b: seq<Stmt>, b1: seq<Stmt>, r: Run) returns (w: Run)
    requires Same(b, b1) && RunsBody(b, r)
    ensures RunsBody(b1, w) && Trace(w) == Trace(r) && OutBody(b1, w) == OutBody(b, r)
  {
    assert Has(b, Trace(r), OutBody(b, r));
    assert Has(b1, Trace(r), OutBody(b, r));
    w :| RunsBody(b1, w) && Trace(w) == Trace(r) && OutBody(b1, w) == OutBody(b, r);
  }

  lemma SameLoop(s: Stmt, cond: seq<Stmt>, body: seq<Stmt>)
    requires s.For? && Same(s.cond, cond) && Same(s.body, body)
    ensures SameStmt(s, [s.(cond := cond, body := body)])
  {
    var s1 := s.(cond := cond, body := body);
    SingleHas(s1);
    forall tr, out ensures HasStmt(s, tr, out) <==> HasStmt(s1, tr, out) {
      if HasStmt(s, tr, out) {
        var r :| RunsStmt(s, r) && Trace(r) == tr && OutStmt(s, r) == out;
        var w := LoopAgain(s, cond, body, 0, r);
        assert RunsStmt(s1, w) && OutStmt(s1, w) == out;
      }
      if HasStmt(s1, tr, out) {
        var r :| RunsStmt(s1, r) && Trace(r) == tr && OutStmt(s1, r) == out;
        assert Same(cond, s.cond) && Same(body, s.body);
        assert s1.(cond := s.cond, body := s.body) == s;
        var w := LoopAgain(s1, s.cond, s.body, 0, r);
        assert RunsStmt(s, w) && OutStmt(s, w) == out;
      }
    }
  }

  /** The loop can end at its test, as far as its bounds are concerned. */
  predicate CanEnd(s: Stmt)
    requires s.For?
  {
    s.min.Some? && s.min.value > 0 ==> s.max.Some? && s.min.value <= s.max.value
  }

  /** The remaining passes of a loop that does nothing. */
  function IdlePasses(n: nat): Run { if n == 0 then Stop(Nothing) else Iterate(Nothing, Nothing, IdlePasses(n - 1)) }

  lemma {:induction false} IdleLoop(s: Stmt, k: nat, n: nat)
    requires s.For? && s.cond == [] && s.body == [] && !s.infinite && CanEnd(s)
    requires s.min.Some? && s.min.value > 0 ==> k + n == s.min.value
    requires !(s.min.Some? && s.min.value > 0) ==> n == 0
    ensures RunsLoop(s, k, IdlePasses(n)) && Trace(IdlePasses(n)) == [] && OutLoop(s, IdlePasses(n)) == Normal
    decreases n
  {
    if n > 0 {
      IdleLoop(s, k + 1, n - 1);
    }
  }

  lemma {:induction false} IdleRuns(s: Stmt, k: nat, r: Run)
    requires s.For? && s.cond == [] && s.body == [] && RunsLoop(s, k, r)
    ensures Trace(r) == [] && OutLoop(s, r) == Normal
    decreases r
  {
    if r.Iterate? {
      IdleRuns(s, k + 1, r.rest);
    }
  }

  /** A loop without effect that can end is as good as nothing. */
  lemma SkipLoop(s: Stmt)
    requires s.For? && s.cond == [] && s.body == [] && !s.infinite && CanEnd(s)
    ensures SameStmt(s, [])
  {
    forall tr, out ensures HasStmt(s, tr, out) <==> Has([], tr, out) {
      NothingHas(tr, out);
      if HasStmt(s, tr, out) {
        var r :| RunsStmt(s, r) && Trace(r) == tr && OutStmt(s, r) == out;
        IdleRuns(s, 0, r);
      }
      var n := if s.min.Some? then s.min.value else 0;
      IdleLoop(s, 0, n);
      assert RunsStmt(s, IdlePasses(n));
    }
  }

  /** A loop that cannot end at its test never ends, however little it does. */
  lemma {:induction false} NoEnd(s: Stmt, k: nat, r: Run)
    requires s.For? && s.cond == [] && s.body == [] && !CanEnd(s) && (s.max.Some? ==> k <= s.max.value)
    ensures !RunsLoop(s, k, r)
    decreases r
  {
    if r.Iterate? {
      if s.max.None? || k < s.max.value {
        NoEnd(s, k + 1, r.rest);
      }
    }
  }

  /** An empty loop may be dropped exactly if it can end: otherwise what follows it would never run. */
  lemma EmptyLoopExactly(s: Stmt)
    requires s.For? && s.cond == [] && s.body == [] && !s.infinite
    ensures SameStmt(s, []) <==> CanEnd(s)
  {
    if CanEnd(s) {
      SkipLoop(s);
    } else {
      NothingHas([], Normal);
      if HasStmt(s, [], Normal) {
        var r :| RunsStmt(s, r) && Trace(r) == [] && OutStmt(s, r) == Normal;
        NoEnd(s, 0, r);
      }
    }
  }

  // ---------- Simplified bodies have the same runs ----------

  /** All loops in branches and loops that become empty can end. */
  predicate LoopsEnd(s: Stmt)
    decreases SizeStmt(s), 0
  {
    match s
    case If(a, b) => AllLoopsEnd(a) && AllLoopsEnd(b)
    case For(_, cond, body, infinite, _, _) =>
      && (!infinite && SimplifyBody(cond) == [] && SimplifyBody(body) == [] ==> CanEnd(s))
      && AllLoopsEnd(cond) && AllLoopsEnd(body)
    case _ => true
  }

  predicate AllLoopsEnd(b: seq<Stmt>)
    decreases SizeBody(b), 1
  {
    b == [] || (LoopsEnd(b[0]) && AllLoopsEnd(b[1..]))
  }

  lemma {:induction false} SimplifySame(s: Stmt)
    requires LoopsEnd(s)
    ensures SameStmt(s, Simplify(s))
    decreases SizeStmt(s), 0
  {
    hide Has, HasStmt;
    match s
    case If(a, b) =>
      var a1, b1 := SimplifyBody(a), SimplifyBody(b);
      SimplifyBodySame(a);
      SimplifyBodySame(b);
      SingleHas(If(a1, b1));
      forall tr, out ensures HasStmt(s, tr, out) <==> Has(Simplify(s), tr, out) {
        IfHas(a, b, tr, out);
        IfHas(a1, b1, tr, out);
        assert Has(a, tr, out) <==> Has(a1, tr, out);
        assert Has(b, tr, out) <==> Has(b1, tr, out);
      }
    case For(_, cond, body, infinite, _, _) =>
      var c1, b1 := SimplifyBody(cond), SimplifyBody(body);
      SimplifyBodySame(cond);
      SimplifyBodySame(body);
      SameLoop(s, c1, b1);
      if !infinite && c1 == [] && b1 == [] {
        var s1 := s.(cond := [], body := []);
        SkipLoop(s1);
        SingleHas(s1);
        forall tr, out ensures HasStmt(s, tr, out) <==> Has([], tr, out) {
          assert HasStmt(s1, tr, out) <==> Has([], tr, out);
          assert HasStmt(s, tr, out) <==> Has([s1], tr, out);
        }
      }
    case _ => SingleHas(s);
  }

  lemma {:induction false} SimplifyBodySame(b: seq<Stmt>)
    requires AllLoopsEnd(b)
    ensures Same(b, SimplifyBody(b))
    decreases SizeBody(b), 1
  {
    if b != [] {
      SimplifySame(b[0]);
      SimplifyBodySame(b[1..]);
      SameCons(b[0], Simplify(b[0]), b[1..], SimplifyBody(b[1..]));
      assert [b[0]] + b[1..] == b;
    }
  }

  // ---------- What can be observed of a function ----------

  /** The labels of a trace but for the hidden ones. */
  function Project(tr: seq<nat>, hidden: set<nat>): seq<nat> {
    if tr == [] then [] else (if tr[0] in hidden then [] else [tr[0]]) + Project(tr[1..], hidden)
  }

  lemma {:induction false} ProjectAppend(a: seq<nat>, b: seq<nat>, hidden: set<nat>)
    ensures Project(a + b, hidden) == Project(a, hidden) + Project(b, hidden)
  {
    if a == [] {
      assert a + b == b;
    } else {
      assert (a + b)[1..] == a[1..] + b;
      ProjectAppend(a[1..], b, hidden);
    }
  }

  lemma {:induction false} ProjectMore(tr: seq<nat>, hidden: set<nat>, more: set<nat>)
    requires hidden <= more
    ensures Project(Project(tr, hidden), more) == Project(tr, more)
  {
    if tr != [] {
      ProjectMore(tr[1..], hidden, more);
      ProjectAppend(if tr[0] in hidden then [] else [tr[0]], Project(tr[1..], hidden), more);
      assert Project([tr[0]], more) == (if tr[0] in more then [] else [tr[0]]) + Project([tr[0]][1..], more);
    }
  }

  /** Some run of the function body shows just these labels. */
  ghost predicate Observes(b: seq<Stmt>, hidden: set<nat>, shown: seq<nat>) {
    exists tr, out :: Has(b, tr, out) && Project(tr, hidden) == shown
  }

  ghost predicate SameObserved(b: seq<Stmt>, b1: seq<Stmt>, hidden: set<nat>) {
    forall shown :: Observes(b, hidden, shown) <==> Observes(b1, hidden, shown)
  }

  lemma SameIsObserved(b: seq<Stmt>, b1: seq<Stmt>, hidden: set<nat>)
    requires Same(b, b1)
    ensures SameObserved(b, b1, hidden)
  {
    hide Has;
    forall shown ensures Observes(b, hidden, shown) <==> Observes(b1, hidden, shown) {
      if Observes(b, hidden, shown) {
        var tr, out :| Has(b, tr, out) && Project(tr, hidden) == shown;
        assert Has(b1, tr, out);
      }
      if Observes(b1, hidden, shown) {
        var tr, out :| Has(b1, tr, out) && Project(tr, hidden) == shown;
        assert Has(b, tr, out);
      }
    }
  }

  lemma ObservesLess(b: seq<Stmt>, b1: seq<Stmt>, hidden: set<nat>, more: set<nat>, shown: seq<nat>)
    requires SameObserved(b, b1, hidden) && hidden <= more && Observes(b, more, shown)
    ensures Observes(b1, more, shown)
  {
    hide Has;
    var tr, out :| Has(b, tr, out) && Project(tr, more) == shown;
    assert Observes(b, hidden, Project(tr, hidden));
    assert Observes(b1, hidden, Project(tr, hidden));
    var tr1, out1 :| Has(b1, tr1, out1) && Project(tr1, hidden) == Project(tr, hidden);
    ProjectMore(tr, hidden, more);
    ProjectMore(tr1, hidden, more);
  }

  /** What cannot be told apart cannot be told apart where more is hidden. */
  lemma HideMore(b: seq<Stmt>, b1: seq<Stmt>, hidden: set<nat>, more: set<nat>)
    requires SameObserved(b, b1, hidden) && hidden <= more
    ensures SameObserved(b, b1, more)
  {
    hide Observes;
    forall shown ensures Observes(b, more, shown) <==> Observes(b1, more, shown) {
      assert SameObserved(b1, b, hidden);
      if Observes(b, more, shown) { ObservesLess(b, b1, hidden, more, shown); }
      if Observes(b1, more, shown) { ObservesLess(b1, b, hidden, more, shown); }
    }
  }

  /** A bare return is the last statement of its function. */
  predicate BareLast(b: seq<Stmt>, bare: set<nat>) {
    forall i :: 0 <= i < |b| && b[i].Return? && b[i].label_ in bare ==> i == |b| - 1
  }

  lemma ConsObserves(s: Stmt, rest: seq<Stmt>, rest1: seq<Stmt>, hidden: set<nat>, shown: seq<nat>)
    requires SameObserved(rest, rest1, hidden) && Observes([s] + rest, hidden, shown)
    ensures Observes([s] + rest1, hidden, shown)
  {
    hide Has, HasStmt;
    var tr, out :| Has([s] + rest, tr, out) && Project(tr, hidden) == shown;
    ConsHas(s, rest, tr, out);
    if out != Normal && HasStmt(s, tr, out) {
      ConsHas(s, rest1, tr, out);
    } else {
      var k :| 0 <= k <= |tr| && HasStmt(s, tr[..k], Normal) && Has(rest, tr[k..], out);
      assert Observes(rest, hidden, Project(tr[k..], hidden));
      assert Observes(rest1, hidden, Project(tr[k..], hidden));
      var tr2, out2 :| Has(rest1, tr2, out2) && Project(tr2, hidden) == Project(tr[k..], hidden);
      var tr1 := tr[..k] + tr2;
      assert tr1[..k] == tr[..k] && tr1[k..] == tr2 && tr == tr[..k] + tr[k..];
      ProjectAppend(tr[..k], tr2, hidden);
      ProjectAppend(tr[..k], tr[k..], hidden);
      ConsHas(s, rest1, tr1, out2);
      assert HasCons(s, rest1, tr1, out2);
    }
  }

  /** A basic statement with a hidden label does not show. */
  lemma HiddenHead(l: nat, rest: seq<Stmt>, hidden: set<nat>)
    requires l in hidden
    ensures SameObserved([Basic(l)] + rest, rest, hidden)
  {
    var s := Basic(l);
    BasicHas(l);
    hide Has, HasStmt;
    forall shown ensures Observes([s] + rest, hidden, shown) <==> Observes(rest, hidden, shown) {
      if Observes([s] + rest, hidden, shown) {
        var tr, out :| Has([s] + rest, tr, out) && Project(tr, hidden) == shown;
        ConsHas(s, rest, tr, out);
        var k :| 0 <= k <= |tr| && HasStmt(s, tr[..k], Normal) && Has(rest, tr[k..], out);
        assert tr == [l] + tr[k..];
      }
      if Observes(rest, hidden, shown) {
        var tr, out :| Has(rest, tr, out) && Project(tr, hidden) == shown;
        var tr1 := [l] + tr;
        assert tr1[..1] == [l] && tr1[1..] == tr;
        assert HasStmt(s, tr1[..1], Normal) && Has(rest, tr1[1..], out);
        ConsHas(s, rest, tr1, out);
      }
    }
  }

  lemma BasicHas(l: nat)
    ensures forall tr, out :: HasStmt(Basic(l), tr, out) <==> tr == [l] && out == Normal
  {
    assert RunsStmt(Basic(l), Did(l)) && Trace(Did(l)) == [l] && OutStmt(Basic(l), Did(l)) == Normal;
  }

  lemma LastReturn(l: nat, hidden: set<nat>)
    requires l in hidden
    ensures SameObserved([Return(l)], [], hidden)
  {
    SingleHas(Return(l));
    assert RunsStmt(Return(l), Did(l)) && Trace(Did(l)) == [l];
    assert HasStmt(Return(l), [l], Returned);
    assert forall tr, out :: HasStmt(Return(l), tr, out) ==> tr == [l];
    hide Has, HasStmt;
    assert Project([l], hidden) == [] by { assert [l][1..] == []; }
    NothingHas([], Normal);
    forall shown ensures Observes([Return(l)], hidden, shown) <==> Observes([], hidden, shown) {
      if Observes([], hidden, shown) {
        var tr, out :| Has([], tr, out) && Project(tr, hidden) == shown;
        NothingHas(tr, out);
        assert Has([Return(l)], [l], Returned);
      }
      if Observes([Return(l)], hidden, shown) {
        assert Has([], [], Normal);
      }
    }
  }

  /** Dropping bare returns at the end and calls of idle functions changes nothing that can be observed. */
  lemma {:induction false} StripSame(b: seq<Stmt>, bare: set<nat>, idle: set<nat>, hidden: set<nat>)
    requires BareLast(b, bare) && bare <= hidden && idle <= hidden
    ensures SameObserved(b, Strip(b, bare, idle), hidden)
  {
    hide Observes;
    if b != [] {
      var s, rest := b[0], b[1..];
      assert [s] + rest == b;
      StripSame(rest, bare, idle, hidden);
      if s.Return? && s.label_ in bare {
        assert rest == [] && b == [Return(s.label_)];
        LastReturn(s.label_, hidden);
      } else if s.Basic? && s.label_ in idle {
        HiddenHead(s.label_, rest, hidden);
      } else {
        var rest1 := Strip(rest, bare, idle);
        forall shown ensures Observes(b, hidden, shown) <==> Observes([s] + rest1, hidden, shown) {
          assert SameObserved(rest1, rest, hidden);
          if Observes(b, hidden, shown) { ConsObserves(s, rest, rest1, hidden, shown); }
          if Observes([s] + rest1, hidden, shown) { ConsObserves(s, rest1, rest, hidden, shown); }
        }
      }
    }
  }

  // ---------- Whole bodies ----------

  lemma {:induction false} SimplifyBareLast(b: seq<Stmt>, bare: set<nat>)
    requires BareLast(b, bare)
    ensures BareLast(SimplifyBody(b), bare)
  {
    if b != [] {
      var rest: seq<Stmt> := b[1..];
      SimplifyBareLast(rest, bare);
      var first: seq<Stmt>, more: seq<Stmt> := Simplify(b[0]), SimplifyBody(rest);
      var all: seq<Stmt> := first + more;
      assert b[0].Return? && b[0].label_ in bare ==> rest == [];
      forall i | 0 <= i < |all| && all[i].Return? && all[i].label_ in bare ensures i == |all| - 1 {
        if i >= |first| {
          assert all[i] == more[i - |first|];
        } else {
          assert first == [b[0]];
        }
      }
    }
  }

  /** The body of a function after both steps. */
  function Cleaned(b: seq<Stmt>, bare: set<nat>, idle: set<nat>): seq<Stmt> {
    Strip(Strip(SimplifyBody(b), bare, {}), {}, idle)
  }

  /** It shows what the body showed before. */
  lemma CleanedSame(b: seq<Stmt>, bare: set<nat>, idle: set<nat>)
    requires AllLoopsEnd(b) && BareLast(b, bare)
    ensures SameObserved(b, Cleaned(b, bare, idle), bare + idle)
  {
    hide Observes;
    var b1 := SimplifyBody(b);
    var b2 := Strip(b1, bare, {});
    SimplifyBodySame(b);
    SameIsObserved(b, b1, bare + idle);
    SimplifyBareLast(b, bare);
    StripSame(b1, bare, {}, bare + idle);
    StripSame(b2, {}, idle, bare + idle);
  }

  // ---------- Bodies of which nothing is left ----------

  lemma {:induction false} IdleStmtRun(s: Stmt, r: Run)
    requires Simplify(s) == [] && RunsStmt(s, r)
    ensures Trace(r) == [] && OutStmt(s, r) == Normal
    decreases r, 2
  {
    match s
    case If(a, b) => IdleBodyRun(if r.which == 0 then a else b, r.inner);
    case For(_, _, _, _, _, _) => IdleLoopRun(s, 0, r);
  }

  /** However often a body goes round in loops that are dropped, it passes no label. */
  lemma {:induction false} IdleBodyRun(b: seq<Stmt>, r: Run)
    requires SimplifyBody(b) == [] && RunsBody(b, r)
    ensures Trace(r) == [] && OutBody(b, r) == Normal
    decreases r, 3
  {
    if b != [] {
      IdleStmtRun(b[0], r.first);
      IdleBodyRun(b[1..], r.rest);
    }
  }

  lemma {:induction false} IdleLoopRun(s: Stmt, k: nat, r: Run)
    requires s.For? && SimplifyBody(s.cond) == [] && SimplifyBody(s.body) == [] && RunsLoop(s, k, r)
    ensures Trace(r) == [] && OutLoop(s, r) == Normal
    decreases r, 1
  {
    IdleBodyRun(s.cond, r.test);
    if r.Iterate? {
      IdleBodyRun(s.body, r.inner);
      IdleLoopRun(s, k + 1, r.rest);
    }
  }

  // ---------- What is left ----------

  /** At every depth that the pass enters, no branch statement without statements in it and no loop that does nothing. */
  predicate Tidy(s: Stmt)
    decreases SizeStmt(s), 0
  {
    match s
    case If(a, b) => (a != [] || b != []) && AllTidy(a) && AllTidy(b)
    case For(_, cond, body, infinite, _, _) => (infinite || cond != [] || body != []) && AllTidy(cond) && AllTidy(body)
    case _ => true
  }

  predicate AllTidy(b: seq<Stmt>)
    decreases SizeBody(b), 1
  {
    b == [] || (Tidy(b[0]) && AllTidy(b[1..]))
  }

  lemma {:induction false} SimplifyTidy(b: seq<Stmt>)
    ensures AllTidy(SimplifyBody(b))
    decreases SizeBody(b), 1
  {
    if b != [] {
      StmtTidy(b[0]);
      SimplifyTidy(b[1..]);
      assert (Simplify(b[0]) + SimplifyBody(b[1..]))[|Simplify(b[0])|..] == SimplifyBody(b[1..]);
    }
  }

  lemma {:induction false} StmtTidy(s: Stmt)
    ensures forall i :: 0 <= i < |Simplify(s)| ==> Tidy(Simplify(s)[i])
    decreases SizeStmt(s), 0
  {
    match s
    case If(a, b) =>
      SimplifyTidy(a);
      SimplifyTidy(b);
    case For(_, cond, body, _, _, _) =>
      SimplifyTidy(cond);
      SimplifyTidy(body);
    case _ =>
  }

  /** A statement of which nothing is left: branches and loops that can be left, with only such statements in them. */
  predicate Hollow(s: Stmt)
    decreases SizeStmt(s), 0
  {
    match s
    case If(a, b) => AllHollow(a) && AllHollow(b)
    case For(_, cond, body, infinite, _, _) => !infinite && AllHollow(cond) && AllHollow(body)
    case _ => false
  }

  predicate AllHollow(b: seq<Stmt>)
    decreases SizeBody(b), 1
  {
    b == [] || (Hollow(b[0]) && AllHollow(b[1..]))
  }

  /** Nothing is left of a body exactly if it is made of such statements only. */
  lemma {:induction false} NothingLeftExactly(b: seq<Stmt>)
    ensures SimplifyBody(b) == [] <==> AllHollow(b)
    decreases SizeBody(b), 1
  {
    if b != [] {
      HollowExactly(b[0]);
      NothingLeftExactly(b[1..]);
    }
  }

  lemma {:induction false} HollowExactly(s: Stmt)
    ensures Simplify(s) == [] <==> Hollow(s)
    decreases SizeStmt(s), 0
  {
    match s
    case If(a, b) =>
      NothingLeftExactly(a);
      NothingLeftExactly(b);
    case For(_, cond, body, _, _, _) =>
      NothingLeftExactly(cond);
      NothingLeftExactly(body);
    case _ =>
  }

  /** A bare return, or a call of functions that do nothing. */
  predicate Dropped(s: Stmt, bare: set<nat>, idle: set<nat>) {
    (s.Return? && s.label_ in bare) || (s.Basic? && s.label_ in idle)
  }

  /** After both steps a body is tidy, and has no bare return and no idle call at its top. */
  lemma CleanedTidy(b: seq<Stmt>, bare: set<nat>, idle: set<nat>)
    ensures AllTidy(Cleaned(b, bare, idle))
    ensures forall i :: 0 <= i < |Cleaned(b, bare, idle)| ==> !Dropped(Cleaned(b, bare, idle)[i], bare, idle)
  {
    SimplifyTidy(b);
    hide SimplifyBody, Strip;
    var b1 := SimplifyBody(b);
    StripTidy(b1, bare, {});
    StripTidy(Strip(b1, bare, {}), {}, idle);
    StripDrops(b1, bare, {});
    StripDrops(Strip(b1, bare, {}), {}, idle);
    StripPart(Strip(b1, bare, {}), {}, idle);
  }

  lemma {:induction false} StripTidy(b: seq<Stmt>, bare: set<nat>, idle: set<nat>)
    requires AllTidy(b)
    ensures AllTidy(Strip(b, bare, idle))
    decreases |b|
  {
    if b != [] {
      StripTidy(b[1..], bare, idle);
      var rest := Strip(b[1..], bare, idle);
      assert ([b[0]] + rest)[1..] == rest;
    }
  }

  lemma {:induction false} StripDrops(b: seq<Stmt>, bare: set<nat>, idle: set<nat>)
    ensures forall i :: 0 <= i < |Strip(b, bare, idle)| ==> !Dropped(Strip(b, bare, idle)[i], bare, idle)
    decreases |b|
  {
    if b != [] {
      StripDrops(b[1..], bare, idle);
    }
  }

  lemma {:induction false} StripPart(b: seq<Stmt>, bare: set<nat>, idle: set<nat>)
    ensures forall i :: 0 <= i < |Strip(b, bare, idle)| ==> Strip(b, bare, idle)[i] in b
    decreases |b|
  {
    if b != [] {
      StripPart(b[1..], bare, idle);
      assert forall x :: x in b[1..] ==> x in b;
    }
  }

  /** Nothing is left after both steps exactly if every statement is hollow, a bare return or an idle call. */
  lemma {:induction false} CleanedAwayExactly(b: seq<Stmt>, bare: set<nat>, idle: set<nat>)
    ensures Cleaned(b, bare, idle) == [] <==> forall i :: 0 <= i < |b| ==> Hollow(b[i]) || Dropped(b[i], bare, idle)
    decreases |b|
  {
    if b != [] {
      CleanedAwayExactly(b[1..], bare, idle);
      CleanedFirst(b, bare, idle);
      FirstGone(b[0], bare, idle);
      assert forall i :: 0 < i < |b| ==> b[i] == b[1..][i - 1];
      assert forall i :: 0 <= i < |b| - 1 ==> b[1..][i] == b[i + 1];
    }
  }

  lemma CleanedFirst(b: seq<Stmt>, bare: set<nat>, idle: set<nat>)
    requires b != []
    ensures Cleaned(b, bare, idle) == Strip(Strip(Simplify(b[0]), bare, {}), {}, idle) + Cleaned(b[1..], bare, idle)
  {
    StripAppend(Simplify(b[0]), SimplifyBody(b[1..]), bare, {});
    StripAppend(Strip(Simplify(b[0]), bare, {}), Strip(SimplifyBody(b[1..]), bare, {}), {}, idle);
  }

  lemma {:induction false} StripAppend(a: seq<Stmt>, b: seq<Stmt>, bare: set<nat>, idle: set<nat>)
    ensures Strip(a + b, bare, idle) == Strip(a, bare, idle) + Strip(b, bare, idle)
    decreases |a|
  {
    if a == [] {
      assert a + b == b;
    } else {
      assert (a + b)[1..] == a[1..] + b;
      StripAppend(a[1..], b, bare, idle);
    }
  }

  lemma FirstGone(s: Stmt, bare: set<nat>, idle: set<nat>)
    ensures Strip(Strip(Simplify(s), bare, {}), {}, idle) == [] <==> Hollow(s) || Dropped(s, bare, idle)
  {
    HollowExactly(s);
    if !Hollow(s) {
      var t := Simplify(s)[0];
      assert Simplify(s) == [t] && [t][1..] == [];
      assert t == s || (!t.Return? && !t.Basic? && !s.Return? && !s.Basic?);
    }
  }
}
