/** Bare returns before the end of a function: what dropping them does to what can be observed. */
module EarlyReturns {
  import opened IrBodies
  import opened TraceLaws
  import opened DeadCode

  // ---------- Two bodies one after the other ----------

  ghost predicate HasBoth(a: seq<Stmt>, b: seq<Stmt>, tr: seq<nat>, out: Outcome) {
    || (out != Normal && Has(a, tr, out))
    || exists k :: 0 <= k <= |tr| && Has(a, tr[..k], Normal) && Has(b, tr[k..], out)
  }

  lemma {:induction false} AppendHas(a: seq<Stmt>, b: seq<Stmt>, tr: seq<nat>, out: Outcome)
    ensures Has(a + b, tr, out) <==> HasBoth(a, b, tr, out)
    decreases |a|
  {
    hide Has, HasStmt;
    if a == [] {
      assert a + b == b;
      NothingBefore(b, tr, out);
    } else {
      var s, rest := a[0], a[1..];
      assert a + b == [s] + (rest + b) && [s] + rest == a;
      ConsHas(s, rest + b, tr, out);
      forall k | 0 <= k <= |tr| ensures Has(rest + b, tr[k..], out) <==> HasBoth(rest, b, tr[k..], out) {
        AppendHas(rest, b, tr[k..], out);
      }
      if HasCons(s, rest + b, tr, out) { ConsThenBoth(s, rest, b, tr, out); }
      if HasBoth(a, b, tr, out) { BothThenCons(s, rest, b, tr, out); }
    }
  }

  lemma NothingBefore(b: seq<Stmt>, tr: seq<nat>, out: Outcome)
    ensures Has(b, tr, out) <==> HasBoth([], b, tr, out)
  {
    hide Has;
    NothingHas(tr, out);
    forall k | 0 <= k <= |tr| ensures Has([], tr[..k], Normal) <==> k == 0 {
      NothingHas(tr[..k], Normal);
    }
    assert tr[0..] == tr;
  }

  lemma ConsThenBoth(s: Stmt, rest: seq<Stmt>, b: seq<Stmt>, tr: seq<nat>, out: Outcome)
    requires HasCons(s, rest + b, tr, out)
    requires forall k :: 0 <= k <= |tr| ==> (Has(rest + b, tr[k..], out) <==> HasBoth(rest, b, tr[k..], out))
    ensures HasBoth([s] + rest, b, tr, out)
  {
    hide Has, HasStmt;
    if out != Normal && HasStmt(s, tr, out) {
      ConsHas(s, rest, tr, out);
    } else {
      var k :| 0 <= k <= |tr| && HasStmt(s, tr[..k], Normal) && Has(rest + b, tr[k..], out);
      assert HasBoth(rest, b, tr[k..], out);
      if out != Normal && Has(rest, tr[k..], out) {
        ConsHas(s, rest, tr, out);
      } else {
        var j :| 0 <= j <= |tr[k..]| && Has(rest, tr[k..][..j], Normal) && Has(b, tr[k..][j..], out);
        assert tr[..k + j][..k] == tr[..k] && tr[..k + j][k..] == tr[k..][..j] && tr[k..][j..] == tr[k + j..];
        ConsHas(s, rest, tr[..k + j], Normal);
      }
    }
  }

  lemma BothThenCons(s: Stmt, rest: seq<Stmt>, b: seq<Stmt>, tr: seq<nat>, out: Outcome)
    requires HasBoth([s] + rest, b, tr, out)
    requires forall k :: 0 <= k <= |tr| ==> (Has(rest + b, tr[k..], out) <==> HasBoth(rest, b, tr[k..], out))
    ensures HasCons(s, rest + b, tr, out)
  {
    hide Has, HasStmt;
    if out != Normal && Has([s] + rest, tr, out) {
      ConsHas(s, rest, tr, out);
      if k :| 0 <= k <= |tr| && HasStmt(s, tr[..k], Normal) && Has(rest, tr[k..], out) {
        assert HasBoth(rest, b, tr[k..], out);
      }
    } else {
      var n :| 0 <= n <= |tr| && Has([s] + rest, tr[..n], Normal) && Has(b, tr[n..], out);
      ConsHas(s, rest, tr[..n], Normal);
      var k :| 0 <= k <= |tr[..n]| && HasStmt(s, tr[..n][..k], Normal) && Has(rest, tr[..n][k..], Normal);
      assert tr[..n][..k] == tr[..k] && tr[..n][k..] == tr[k..][..n - k] && tr[k..][n - k..] == tr[n..];
      assert HasBoth(rest, b, tr[k..], out);
    }
  }

  // ---------- What shows of two bodies ----------

  /** Some run shows these labels and ends normally, or leaves the body. */
  ghost predicate ShowsThrough(b: seq<Stmt>, hidden: set<nat>, shown: seq<nat>) {
    exists tr :: Has(b, tr, Normal) && Project(tr, hidden) == shown
  }

  ghost predicate ShowsLeaving(b: seq<Stmt>, hidden: set<nat>, shown: seq<nat>) {
    exists tr, out :: out != Normal && Has(b, tr, out) && Project(tr, hidden) == shown
  }

  ghost predicate ShowsBoth(a: seq<Stmt>, b: seq<Stmt>, hidden: set<nat>, shown: seq<nat>) {
    || ShowsLeaving(a, hidden, shown)
    || exists n, o :: ShowsThrough(a, hidden, n) && Observes(b, hidden, o) && n + o == shown
  }

  lemma ObservesBoth(a: seq<Stmt>, b: seq<Stmt>, hidden: set<nat>, shown: seq<nat>)
    ensures Observes(a + b, hidden, shown) <==> ShowsBoth(a, b, hidden, shown)
  {
    hide Has;
    if Observes(a + b, hidden, shown) {
      var tr, out :| Has(a + b, tr, out) && Project(tr, hidden) == shown;
      AppendHas(a, b, tr, out);
      if k :| 0 <= k <= |tr| && Has(a, tr[..k], Normal) && Has(b, tr[k..], out) {
        assert tr == tr[..k] + tr[k..];
        ProjectAppend(tr[..k], tr[k..], hidden);
        assert ShowsThrough(a, hidden, Project(tr[..k], hidden)) && Observes(b, hidden, Project(tr[k..], hidden));
      }
    }
    if ShowsBoth(a, b, hidden, shown) {
      if ShowsLeaving(a, hidden, shown) {
        var tr, out :| out != Normal && Has(a, tr, out) && Project(tr, hidden) == shown;
        AppendHas(a, b, tr, out);
      } else {
        var n, o :| ShowsThrough(a, hidden, n) && Observes(b, hidden, o) && n + o == shown;
        var tr :| Has(a, tr, Normal) && Project(tr, hidden) == n;
        var tr1, out :| Has(b, tr1, out) && Project(tr1, hidden) == o;
        assert (tr + tr1)[..|tr|] == tr && (tr + tr1)[|tr|..] == tr1;
        AppendHas(a, b, tr + tr1, out);
        ProjectAppend(tr, tr1, hidden);
        assert Has(a + b, tr + tr1, out);
      }
    }
  }

  lemma ObservesEither(b: seq<Stmt>, hidden: set<nat>, shown: seq<nat>)
    ensures Observes(b, hidden, shown) <==> ShowsThrough(b, hidden, shown) || ShowsLeaving(b, hidden, shown)
  {
    hide Has, Project;
  }

  // ---------- A bare return ends the function ----------

  lemma ReturnHas(l: nat, rest: seq<Stmt>, tr: seq<nat>, out: Outcome)
    ensures Has([Return(l)] + rest, tr, out) <==> tr == [l] && out == Returned
  {
    assert RunsStmt(Return(l), Did(l)) && Trace(Did(l)) == [l] && OutStmt(Return(l), Did(l)) == Returned;
    assert forall t, o :: HasStmt(Return(l), t, o) <==> t == [l] && o == Returned;
    hide Has, HasStmt;
    ConsHas(Return(l), rest, tr, out);
  }

  /** Nothing behind a bare return matters, and the return itself does not show. */
  lemma ReturnEnds(pre: seq<Stmt>, l: nat, rest: seq<Stmt>, hidden: set<nat>)
    requires l in hidden
    ensures SameObserved(pre + ([Return(l)] + rest), pre, hidden)
  {
    hide Has, Observes;
    forall shown ensures Observes(pre + ([Return(l)] + rest), hidden, shown) <==> Observes(pre, hidden, shown) {
      ObservesBoth(pre, [Return(l)] + rest, hidden, shown);
      ObservesEither(pre, hidden, shown);
      ReturnShowsNothing(l, rest, hidden);
      if ShowsThrough(pre, hidden, shown) {
        assert shown + [] == shown;
      }
    }
  }

  lemma ReturnShowsNothing(l: nat, rest: seq<Stmt>, hidden: set<nat>)
    requires l in hidden
    ensures forall o :: Observes([Return(l)] + rest, hidden, o) <==> o == []
  {
    hide Has;
    assert Project([l], hidden) == [] by { assert [l][1..] == []; }
    ReturnHas(l, rest, [l], Returned);
    forall o | Observes([Return(l)] + rest, hidden, o) ensures o == [] {
      var tr, out :| Has([Return(l)] + rest, tr, out) && Project(tr, hidden) == o;
      ReturnHas(l, rest, tr, out);
    }
  }

  // ---------- Dropping it ----------

  /** What shows of the second body never shows of the first. */
  ghost predicate Fresh(pre: seq<Stmt>, rest: seq<Stmt>, hidden: set<nat>) {
    forall o, n, x :: Observes(rest, hidden, o) && Observes(pre, hidden, n) && x in o ==> x !in n
  }

  ghost predicate EndsNormally(b: seq<Stmt>) { exists tr :: Has(b, tr, Normal) }

  /** Nothing shows of the body, and it comes to an end. */
  ghost predicate Invisible(b: seq<Stmt>, hidden: set<nat>) {
    forall o :: Observes(b, hidden, o) <==> o == []
  }

  /** The body never comes to an end. */
  ghost predicate NeverEnds(b: seq<Stmt>, hidden: set<nat>) { forall o :: !Observes(b, hidden, o) }

  /** Where a body goes on, it could as well have left with the same labels. */
  ghost predicate LeavesAlike(b: seq<Stmt>, hidden: set<nat>) {
    forall n :: ShowsThrough(b, hidden, n) ==> ShowsLeaving(b, hidden, n)
  }

  /** When a bare return may be dropped so that rest runs behind pre. */
  ghost predicate MayDrop(pre: seq<Stmt>, rest: seq<Stmt>, hidden: set<nat>) {
    || !EndsNormally(pre)
    || Invisible(rest, hidden)
    || (NeverEnds(rest, hidden) && LeavesAlike(pre, hidden))
  }

  /** A bare return may be dropped exactly if it is never reached, or what then runs behind it comes to an end without
      showing anything; or if that never ends, and the function could as well have been left before. */
  lemma DropExactly(pre: seq<Stmt>, l: nat, rest: seq<Stmt>, rest1: seq<Stmt>, hidden: set<nat>)
    requires l in hidden && Fresh(pre, rest1, hidden)
    ensures SameObserved(pre + ([Return(l)] + rest), pre + rest1, hidden) <==> MayDrop(pre, rest1, hidden)
  {
    hide Has, Observes, ShowsBoth, Fresh;
    ReturnEnds(pre, l, rest, hidden);
    if MayDrop(pre, rest1, hidden) {
      forall shown ensures Observes(pre, hidden, shown) <==> Observes(pre + rest1, hidden, shown) {
        DroppedAlike(pre, rest1, hidden, shown);
      }
    } else {
      var shown := DroppedShows(pre, rest1, hidden);
      assert Observes(pre, hidden, shown) <==> Observes(pre + ([Return(l)] + rest), hidden, shown);
    }
  }

  lemma DroppedAlike(pre: seq<Stmt>, rest1: seq<Stmt>, hidden: set<nat>, shown: seq<nat>)
    requires MayDrop(pre, rest1, hidden)
    ensures Observes(pre, hidden, shown) <==> Observes(pre + rest1, hidden, shown)
  {
    hide Has, Observes;
    ObservesBoth(pre, rest1, hidden, shown);
    ObservesEither(pre, hidden, shown);
    assert shown + [] == shown;
  }

  /** A sequence of labels that tells the two apart. */
  lemma DroppedShows(pre: seq<Stmt>, rest1: seq<Stmt>, hidden: set<nat>) returns (shown: seq<nat>)
    requires Fresh(pre, rest1, hidden) && !MayDrop(pre, rest1, hidden)
    ensures Observes(pre, hidden, shown) <==> !Observes(pre + rest1, hidden, shown)
  {
    hide Has, Observes;
    var tr :| Has(pre, tr, Normal);
    var n := Project(tr, hidden);
    assert ShowsThrough(pre, hidden, n);
    if o :| Observes(rest1, hidden, o) && o != [] {
      shown := n + o;
      ObservesBoth(pre, rest1, hidden, shown);
      assert o[0] in o && o[0] in shown;
    } else {
      assert NeverEnds(rest1, hidden);
      shown :| ShowsThrough(pre, hidden, shown) && !ShowsLeaving(pre, hidden, shown);
      ObservesBoth(pre, rest1, hidden, shown);
      ObservesEither(pre, hidden, shown);
    }
  }

  // ---------- Whole bodies ----------

  predicate IsBare(s: Stmt, bare: set<nat>) { s.Return? && s.label_ in bare }

  /** The position of the first bare return, or the length of the body. */
  function FirstBare(b: seq<Stmt>, bare: set<nat>): (k: nat)
    ensures k <= |b| && (k < |b| ==> IsBare(b[k], bare)) && forall j :: 0 <= j < k ==> !IsBare(b[j], bare)
  {
    if b == [] || IsBare(b[0], bare) then 0 else 1 + FirstBare(b[1..], bare)
  }

  function Before(b: seq<Stmt>, bare: set<nat>): seq<Stmt> { b[..FirstBare(b, bare)] }

  /** What is left of the statements behind the first bare return. */
  function Behind(b: seq<Stmt>, bare: set<nat>): seq<Stmt> {
    if FirstBare(b, bare) < |b| then Strip(b[FirstBare(b, bare) + 1..], bare, {}) else []
  }

  lemma {:induction false} StripParts(b: seq<Stmt>, bare: set<nat>)
    ensures Strip(b, bare, {}) == Before(b, bare) + Behind(b, bare)
  {
    if b != [] && !IsBare(b[0], bare) {
      StripParts(b[1..], bare);
      assert b[..FirstBare(b, bare)] == [b[0]] + b[1..][..FirstBare(b[1..], bare)];
      if FirstBare(b, bare) < |b| {
        assert b[FirstBare(b, bare) + 1..] == b[1..][FirstBare(b[1..], bare) + 1..];
      }
    }
  }

  lemma WithoutBare(b: seq<Stmt>, bare: set<nat>)
    requires FirstBare(b, bare) == |b|
    ensures Before(b, bare) == b && Behind(b, bare) == []
  {
  }

  lemma NothingIsInvisible(hidden: set<nat>)
    ensures Invisible([], hidden)
  {
    hide Has;
    NothingHas([], Normal);
    forall o | Observes([], hidden, o) ensures o == [] {
      var tr, out :| Has([], tr, out) && Project(tr, hidden) == o;
      NothingHas(tr, out);
    }
  }

  /** Dropping the bare returns of a body changes nothing that can be observed exactly if what then runs behind the first
      of them may. */
  lemma StripExactly(b: seq<Stmt>, bare: set<nat>, hidden: set<nat>)
    requires bare <= hidden && Fresh(Before(b, bare), Behind(b, bare), hidden)
    ensures SameObserved(b, Strip(b, bare, {}), hidden) <==> MayDrop(Before(b, bare), Behind(b, bare), hidden)
  {
    hide Observes, MayDrop, Fresh;
    var k := FirstBare(b, bare);
    StripParts(b, bare);
    if k < |b| {
      assert b == b[..k] + ([Return(b[k].label_)] + b[k + 1..]);
      DropExactly(b[..k], b[k].label_, b[k + 1..], Behind(b, bare), hidden);
    } else {
      WithoutBare(b, bare);
      NothingIsInvisible(hidden);
      assert b + [] == b;
      assert MayDrop(b, [], hidden) by { InvisibleMayDrop(b, [], hidden); }
    }
  }

  lemma InvisibleMayDrop(pre: seq<Stmt>, rest: seq<Stmt>, hidden: set<nat>)
    requires Invisible(rest, hidden)
    ensures MayDrop(pre, rest, hidden)
  {
  }

  /** A body after both steps shows what it showed exactly under this condition on the simplified body. */
  lemma CleanedExactly(b: seq<Stmt>, bare: set<nat>, idle: set<nat>, hidden: set<nat>)
    requires AllLoopsEnd(b) && bare + idle <= hidden
    requires var b1 := SimplifyBody(b); Fresh(Before(b1, bare), Behind(b1, bare), hidden)
    ensures var b1 := SimplifyBody(b);
            SameObserved(b, Cleaned(b, bare, idle), hidden) <==> MayDrop(Before(b1, bare), Behind(b1, bare), hidden)
  {
    hide Observes, MayDrop, Fresh;
    var b1 := SimplifyBody(b);
    SimplifyBodySame(b);
    SameIsObserved(b, b1, hidden);
    StripExactly(b1, bare, hidden);
    StripSame(Strip(b1, bare, {}), {}, idle, hidden);
  }

  // ---------- Basic statements behind a bare return ----------

  predicate AllBasic(b: seq<Stmt>) { forall i :: 0 <= i < |b| ==> b[i].Basic? }

  function LabelsOf(b: seq<Stmt>): (ls: seq<nat>)
    requires AllBasic(b)
    ensures |ls| == |b| && forall i :: 0 <= i < |b| ==> ls[i] == b[i].label_
  {
    if b == [] then [] else [b[0].label_] + LabelsOf(b[1..])
  }

  lemma {:induction false} BasicsHave(b: seq<Stmt>, tr: seq<nat>, out: Outcome)
    requires AllBasic(b)
    ensures Has(b, tr, out) <==> tr == LabelsOf(b) && out == Normal
    decreases |b|
  {
    hide Has, HasStmt;
    if b == [] {
      NothingHas(tr, out);
    } else {
      var l, rest := b[0].label_, b[1..];
      assert b == [Basic(l)] + rest;
      ConsHas(Basic(l), rest, tr, out);
      BasicHas(l);
      forall k | 0 <= k <= |tr| ensures Has(rest, tr[k..], out) <==> tr[k..] == LabelsOf(rest) && out == Normal {
        BasicsHave(rest, tr[k..], out);
      }
      if tr == LabelsOf(b) && out == Normal {
        assert tr[..1] == [l] && tr[1..] == LabelsOf(rest);
      }
      if k :| 0 <= k <= |tr| && HasStmt(Basic(l), tr[..k], Normal) && Has(rest, tr[k..], out) {
        assert tr == tr[..k] + tr[k..];
      }
    }
  }

  lemma {:induction false} ProjectNothing(tr: seq<nat>, hidden: set<nat>)
    ensures Project(tr, hidden) == [] <==> forall i :: 0 <= i < |tr| ==> tr[i] in hidden
  {
    if tr != [] {
      ProjectNothing(tr[1..], hidden);
    }
  }

  /** With basic statements behind it, a bare return that is reached may be dropped exactly if all their labels are hidden. */
  lemma DropBasicsExactly(pre: seq<Stmt>, l: nat, rest: seq<Stmt>, hidden: set<nat>)
    requires l in hidden && AllBasic(rest) && Fresh(pre, rest, hidden) && EndsNormally(pre)
    ensures SameObserved(pre + ([Return(l)] + rest), pre + rest, hidden)
            <==> forall i :: 0 <= i < |rest| ==> rest[i].label_ in hidden
  {
    hide Has, Observes, Fresh, EndsNormally, SameObserved;
    DropExactly(pre, l, rest, rest, hidden);
    BasicsShow(rest, hidden);
    ProjectNothing(LabelsOf(rest), hidden);
    assert Observes(rest, hidden, Project(LabelsOf(rest), hidden));
  }

  lemma BasicsShow(b: seq<Stmt>, hidden: set<nat>)
    requires AllBasic(b)
    ensures forall o :: Observes(b, hidden, o) <==> o == Project(LabelsOf(b), hidden)
  {
    hide Has, Project;
    forall tr, out ensures Has(b, tr, out) <==> tr == LabelsOf(b) && out == Normal {
      BasicsHave(b, tr, out);
    }
    assert Has(b, LabelsOf(b), Normal);
  }
}
