/** What the runs of a statement pass and how they end, kind by kind, in terms of its parts. */
module TraceLaws {
  import opened IrBodies

  // ---------- Runs by what they pass and how they end ----------

  ghost predicate Has(b: seq<Stmt>, tr: seq<nat>, out: Outcome) {
    exists r :: RunsBody(b, r) && Trace(r) == tr && OutBody(b, r) == out
  }

  ghost predicate HasStmt(s: Stmt, tr: seq<nat>, out: Outcome) {
    exists r :: RunsStmt(s, r) && Trace(r) == tr && OutStmt(s, r) == out
  }

  lemma NothingHas(tr: seq<nat>, out: Outcome)
    ensures Has([], tr, out) <==> tr == [] && out == Normal
  {
    if tr == [] && out == Normal {
      assert RunsBody([], Nothing) && Trace(Nothing) == [] && OutBody([], Nothing) == Normal;
    }
  }

  /** A statement and what follows it. */
  ghost predicate HasCons(s: Stmt, rest: seq<Stmt>, tr: seq<nat>, out: Outcome) {
    || (out != Normal && HasStmt(s, tr, out))
    || exists k :: 0 <= k <= |tr| && HasStmt(s, tr[..k], Normal) && Has(rest, tr[k..], out)
  }

  lemma ConsHas(s: Stmt, rest: seq<Stmt>, tr: seq<nat>, out: Outcome)
    ensures Has([s] + rest, tr, out) <==> HasCons(s, rest, tr, out)
  {
    var b := [s] + rest;
    assert b[0] == s && b[1..] == rest;
    if Has(b, tr, out) {
      var r :| RunsBody(b, r) && Trace(r) == tr && OutBody(b, r) == out;
      if OutStmt(s, r.first) == Normal {
        var k := |Trace(r.first)|;
        assert tr[..k] == Trace(r.first) && tr[k..] == Trace(r.rest);
        assert HasStmt(s, tr[..k], Normal) && Has(rest, tr[k..], out);
      } else {
        assert Trace(r) == Trace(r.first);
      }
    }
    if HasCons(s, rest, tr, out) {
      ConsRun(s, rest, tr, out);
    }
  }

  lemma ConsRun(s: Stmt, rest: seq<Stmt>, tr: seq<nat>, out: Outcome)
    requires HasCons(s, rest, tr, out)
    ensures Has([s] + rest, tr, out)
  {
    hide RunsStmt, OutStmt, RunsBody, OutBody, Trace;
    if out != Normal && HasStmt(s, tr, out) {
      var r :| RunsStmt(s, r) && Trace(r) == tr && OutStmt(s, r) == out;
      ThenRun(s, rest, r, Nothing);
      assert tr + [] == tr;
      assert Trace(Then(r, Nothing)) == tr;
    } else {
      var k :| 0 <= k <= |tr| && HasStmt(s, tr[..k], Normal) && Has(rest, tr[k..], out);
      var r1 :| RunsStmt(s, r1) && Trace(r1) == tr[..k] && OutStmt(s, r1) == Normal;
      var r2 :| RunsBody(rest, r2) && Trace(r2) == tr[k..] && OutBody(rest, r2) == out;
      ThenRun(s, rest, r1, r2);
      assert tr[..k] + tr[k..] == tr;
      assert Trace(Then(r1, r2)) == tr;
    }
  }

  lemma ThenRun(s: Stmt, rest: seq<Stmt>, r1: Run, r2: Run)
    requires RunsStmt(s, r1) && (if OutStmt(s, r1) == Normal then RunsBody(rest, r2) else r2 == Nothing)
    ensures RunsBody([s] + rest, Then(r1, r2)) && Trace(Then(r1, r2)) == Trace(r1) + Trace(r2) && Trace(Nothing) == []
    ensures OutBody([s] + rest, Then(r1, r2)) == (if OutStmt(s, r1) == Normal then OutBody(rest, r2) else OutStmt(s, r1))
  {
    hide RunsStmt, OutStmt;
    assert ([s] + rest)[0] == s && ([s] + rest)[1..] == rest;
  }

  lemma SingleHas(s: Stmt)
    ensures forall tr, out :: Has([s], tr, out) <==> HasStmt(s, tr, out)
  {
    hide Has, HasStmt;
    forall tr, out ensures Has([s], tr, out) <==> HasStmt(s, tr, out) {
      assert [s] + [] == [s];
      ConsHas(s, [], tr, out);
      forall k | 0 <= k <= |tr| ensures Has([], tr[k..], out) <==> k == |tr| && out == Normal {
        NothingHas(tr[k..], out);
      }
      assert tr[..|tr|] == tr;
      if HasStmt(s, tr, out) && out == Normal {
        assert HasStmt(s, tr[..|tr|], Normal) && Has([], tr[|tr|..], out);
      }
    }
  }

  // ---------- Simple statements and branches ----------

  lemma SimpleHas(s: Stmt, tr: seq<nat>, out: Outcome)
    requires s.Basic? || s.Return? || s.Break? || s.Continue?
    ensures HasStmt(s, tr, out) <==>
              match s
              case Basic(l) => tr == [l] && out == Normal
              case Return(l) => tr == [l] && out == Returned
              case Break(id) => tr == [] && out == BreakTo(id)
              case Continue(id) => tr == [] && out == ContinueTo(id)
  {
    var r := if s.Basic? || s.Return? then Did(s.label_) else Jump;
    assert RunsStmt(s, r) && forall r1 :: RunsStmt(s, r1) ==> r1 == r;
    if tr == Trace(r) && out == OutStmt(s, r) {
      assert HasStmt(s, tr, out);
    }
  }

  lemma IfHas(a: seq<Stmt>, b: seq<Stmt>, tr: seq<nat>, out: Outcome)
    ensures HasStmt(If(a, b), tr, out) <==> Has(a, tr, out) || Has(b, tr, out)
  {
    var s := If(a, b);
    if HasStmt(s, tr, out) {
      var r :| RunsStmt(s, r) && Trace(r) == tr && OutStmt(s, r) == out;
      assert Trace(r) == [] + Trace(r.inner);
      assert RunsBody(if r.which == 0 then a else b, r.inner);
    }
    if Has(a, tr, out) {
      var r :| RunsBody(a, r) && Trace(r) == tr && OutBody(a, r) == out;
      var w := Pick(0, [], r);
      assert RunsStmt(s, w) && Trace(w) == [] + tr && OutStmt(s, w) == out;
    }
    if Has(b, tr, out) {
      var r :| RunsBody(b, r) && Trace(r) == tr && OutBody(b, r) == out;
      var w := Pick(1, [], r);
      assert RunsStmt(s, w) && Trace(w) == [] + tr && OutStmt(s, w) == out;
    }
  }

  // ---------- Select statements ----------

  /** What a select passes on its way to body k: it polls all channels, and a case that is possible is triggered and confirmed;
      if none is, it goes on to the default, or, where there is none, waits for a confirmation. */
  predicate PassesTo(s: Stmt, k: nat, way: seq<nat>)
    requires s.Select? && k < |s.comms|
  {
    if s.comms[k].Default? then way == [s.enter, s.none]
    else
      || way == [s.enter, s.comms[k].trigger, s.comms[k].confirm]
      || (way == [s.enter, s.none, s.comms[k].confirm] && forall j :: 0 <= j < |s.comms| ==> s.comms[j].Comm?)
  }

  /** Exactly these ways are taken: with a default no run waits for a confirmation, and without one each case can be come to
      in both ways. */
  lemma SelectRuns(s: Stmt, r: Run)
    requires s.Select?
    ensures RunsStmt(s, r)
            <==> r.Pick? && r.which < |s.comms| && PassesTo(s, r.which, r.labels) && RunsBody(s.comms[r.which].body, r.inner)
  {
    hide RunsBody;
  }

  /** A select passes one of the ways to one of its bodies and then this body; a break of the select ends it. */
  ghost predicate SelectPasses(s: Stmt, tr: seq<nat>, out: Outcome)
    requires s.Select?
  {
    exists k, way, o :: 0 <= k < |s.comms| && PassesTo(s, k, way) && way <= tr
                        && Has(s.comms[k].body, tr[|way|..], o) && out == (if o == BreakTo(s.id) then Normal else o)
  }

  lemma SelectHas(s: Stmt, tr: seq<nat>, out: Outcome)
    requires s.Select?
    ensures HasStmt(s, tr, out) <==> SelectPasses(s, tr, out)
  {
    hide RunsBody, OutBody;
    if HasStmt(s, tr, out) {
      var r :| RunsStmt(s, r) && Trace(r) == tr && OutStmt(s, r) == out;
      var k, way, o := r.which, r.labels, OutBody(s.comms[r.which].body, r.inner);
      assert tr[|way|..] == Trace(r.inner) && way <= tr;
      assert PassesTo(s, k, way) && Has(s.comms[k].body, tr[|way|..], o);
    }
    if SelectPasses(s, tr, out) {
      var k, way, o :| 0 <= k < |s.comms| && PassesTo(s, k, way) && way <= tr
                       && Has(s.comms[k].body, tr[|way|..], o) && out == (if o == BreakTo(s.id) then Normal else o);
      var r1 :| RunsBody(s.comms[k].body, r1) && Trace(r1) == tr[|way|..] && OutBody(s.comms[k].body, r1) == o;
      var r := Pick(k, way, r1);
      assert way + tr[|way|..] == tr;
      assert RunsStmt(s, r) && Trace(r) == tr && OutStmt(s, r) == out;
    }
  }

  // ---------- Bodies that are run one after the other ----------

  datatype Piece = Piece(trace: seq<nat>, out: Outcome)

  function Flat(ps: seq<Piece>): seq<nat> { if ps == [] then [] else ps[0].trace + Flat(ps[1..]) }

  function LastOut(ps: seq<Piece>): Outcome { if ps == [] then Normal else ps[|ps| - 1].out }

  // ---------- Conditions of a switch ----------

  /** The conditions before case i; those of a default are never tested. */
  function CondsBefore(cases: seq<Case>, i: nat): nat
    requires i <= |cases|
  {
    if i == 0 then 0 else CondsBefore(cases, i - 1) + (if cases[i - 1].isDefault then 0 else |cases[i - 1].conds|)
  }

  /** Condition j of case i has its place behind those of the cases before. */
  lemma {:induction false} CondsInOrder(cases: seq<Case>, i: nat, j: nat)
    requires i < |cases| && !cases[i].isDefault && j < |cases[i].conds|
    ensures |FlatConds(cases, 0)| == CondsBefore(cases, |cases|) && CondsBefore(cases, i) + j < CondsBefore(cases, |cases|)
    ensures FlatConds(cases, 0)[CondsBefore(cases, i) + j] == IrBodies.Cond(i, cases[i].conds[j].body)
  {
    hide FlatConds, CondsOf, SizeCases, SizeBodies, SizeTests, CondBodies;
    FlatLength(cases, 0);
    FlatSplit(cases, i, 0);
    FlatLength(cases[..i], 0);
    BeforeFront(cases, i, i);
    FlatFirst(cases[i..], i);
    FlatLength(cases[i..], i);
    var mine := CondsOf(i, cases[i].conds);
    assert FlatConds(cases[i..], i)[j] == mine[j];
  }

  /** The conditions of the first case come first. */
  lemma FlatFirst(cases: seq<Case>, i: nat)
    requires cases != []
    ensures FlatConds(cases, i) == (if cases[0].isDefault then [] else CondsOf(i, cases[0].conds)) + FlatConds(cases[1..], i + 1)
  {
    hide CondsOf, SizeCases, SizeBodies, SizeTests, CondBodies;
  }

  lemma {:induction false} FlatLength(cases: seq<Case>, i: nat)
    ensures |FlatConds(cases, i)| == CondsBefore(cases, |cases|)
    decreases |cases|
  {
    hide CondsOf, SizeCases, SizeBodies, SizeTests, CondBodies;
    if cases != [] {
      FlatLength(cases[1..], i + 1);
      BeforeTail(cases, |cases|);
    }
  }

  lemma {:induction false} BeforeTail(cases: seq<Case>, i: nat)
    requires 0 < i <= |cases|
    ensures CondsBefore(cases, i) == (if cases[0].isDefault then 0 else |cases[0].conds|) + CondsBefore(cases[1..], i - 1)
  {
    if i > 1 {
      BeforeTail(cases, i - 1);
    }
  }

  lemma {:induction false} BeforeFront(cases: seq<Case>, n: nat, i: nat)
    requires i <= n <= |cases|
    ensures CondsBefore(cases[..n], i) == CondsBefore(cases, i)
  {
    if i > 0 {
      BeforeFront(cases, n, i - 1);
    }
  }

  lemma {:induction false} FlatSplit(cases: seq<Case>, i: nat, n: nat)
    requires i <= |cases|
    ensures FlatConds(cases, n) == FlatConds(cases[..i], n) + FlatConds(cases[i..], n + i)
    decreases |cases|
  {
    hide FlatConds, CondsOf, SizeCases, SizeBodies, SizeTests, CondBodies;
    if i == 0 {
      assert cases[..i] == [] && cases[i..] == cases;
      NoConds(n);
    } else {
      var tail := cases[1..];
      FlatSplit(tail, i - 1, n + 1);
      FlatFirst(cases, n);
      FlatFirst(cases[..i], n);
      assert cases[..i][0] == cases[0] && cases[..i][1..] == tail[..i - 1] && tail[i - 1..] == cases[i..];
    }
  }

  lemma NoConds(n: nat)
    ensures FlatConds([], n) == []
  {
  }

  /** The first conditions are tested, one after the other, as long as they end normally. */
  ghost predicate Tests(conds: seq<IrBodies.Cond>, ps: seq<Piece>) {
    && |ps| <= |conds|
    && (forall k :: 0 <= k < |ps| ==> Has(conds[k].body, ps[k].trace, ps[k].out))
    && (forall k :: 0 <= k < |ps| - 1 ==> ps[k].out == Normal)
  }

  lemma TestsOn(conds: seq<IrBodies.Cond>, first: Piece, later: seq<Piece>)
    requires conds != [] && Has(conds[0].body, first.trace, first.out) && Tests(conds[1..], later)
    requires first.out != Normal ==> later == []
    ensures Tests(conds, [first] + later) && Flat([first] + later) == first.trace + Flat(later)
    ensures LastOut([first] + later) == (if first.out == Normal then LastOut(later) else first.out)
  {
    hide Has;
    var ps := [first] + later;
    assert ps[1..] == later;
    forall k | 0 <= k < |ps| ensures Has(conds[k].body, ps[k].trace, ps[k].out) {
      if k > 0 {
        assert conds[1..][k - 1] == conds[k];
      }
    }
    assert forall k :: 0 < k < |ps| - 1 ==> ps[k] == later[k - 1];
  }

  lemma {:induction false} TestsOf(conds: seq<IrBodies.Cond>, r: Run) returns (ps: seq<Piece>)
    requires RunsConds(conds, r)
    ensures Tests(conds, ps) && |ps| == Length(r) && Flat(ps) == Trace(r) && LastOut(ps) == OutConds(conds, r)
    decreases r
  {
    hide RunsBody, OutBody, Tests;
    if r == Nothing {
      ps := [];
      NoTests(conds);
    } else {
      var out := OutBody(conds[0].body, r.first);
      var first := Piece(Trace(r.first), out);
      assert Has(conds[0].body, first.trace, out);
      var later := [];
      NoTests(conds[1..]);
      if out == Normal {
        later := TestsOf(conds[1..], r.rest);
      }
      TestsOn(conds, first, later);
      ps := [first] + later;
    }
  }

  lemma NoTests(conds: seq<IrBodies.Cond>)
    ensures Tests(conds, [])
  {
  }

  lemma {:induction false} TestsRun(conds: seq<IrBodies.Cond>, ps: seq<Piece>) returns (r: Run)
    requires Tests(conds, ps)
    ensures RunsConds(conds, r) && |ps| == Length(r) && Flat(ps) == Trace(r) && LastOut(ps) == OutConds(conds, r)
    decreases |ps|
  {
    hide RunsBody, OutBody;
    if ps == [] {
      r := Nothing;
    } else {
      var r1 :| RunsBody(conds[0].body, r1) && Trace(r1) == ps[0].trace && OutBody(conds[0].body, r1) == ps[0].out;
      if ps[0].out == Normal {
        var later := TestsRun(conds[1..], ps[1..]);
        r := Then(r1, later);
      } else {
        assert ps[1..] == [];
        r := Then(r1, Nothing);
      }
    }
  }

  // ---------- Bodies of a switch ----------

  /** The bodies from case i on are run, as long as they end normally and fall through. */
  ghost predicate Falls(cases: seq<Case>, i: nat, ps: seq<Piece>) {
    ps != [] && i + |ps| <= |cases| && forall k :: 0 <= k < |ps| ==> FallsAt(cases[i + k], ps[k], k < |ps| - 1)
  }

  /** The body of a case is run; it goes on to the next one exactly if it ends normally and falls through. */
  ghost predicate FallsAt(c: Case, p: Piece, on: bool) {
    Has(c.body, p.trace, p.out) && (on <==> p.out == Normal && c.hasFallthrough)
  }

  lemma FallsOn(cases: seq<Case>, i: nat, first: Piece, later: seq<Piece>)
    requires i < |cases| && Falls(cases, i + 1, later) && Has(cases[i].body, first.trace, first.out)
    requires first.out == Normal && cases[i].hasFallthrough
    ensures Falls(cases, i, [first] + later) && Flat([first] + later) == first.trace + Flat(later)
    ensures LastOut([first] + later) == LastOut(later)
  {
    hide Has;
    var ps := [first] + later;
    assert ps[1..] == later && cases[i + 0] == cases[i];
    forall k | 0 <= k < |ps| ensures FallsAt(cases[i + k], ps[k], k < |ps| - 1) {
      if k > 0 {
        assert ps[k] == later[k - 1] && cases[i + k] == cases[i + 1 + (k - 1)];
        assert FallsAt(cases[i + 1 + (k - 1)], later[k - 1], k - 1 < |later| - 1);
      }
    }
  }

  lemma {:induction false} FallsOf(cases: seq<Case>, i: nat, r: Run) returns (ps: seq<Piece>)
    requires RunsChain(cases, i, r)
    ensures Falls(cases, i, ps) && Flat(ps) == Trace(r) && LastOut(ps) == OutChain(cases, i, r)
    decreases r
  {
    hide RunsBody, OutBody;
    var out := OutBody(cases[i].body, r.first);
    var first := Piece(Trace(r.first), out);
    assert Has(cases[i].body, first.trace, out);
    if out == Normal && cases[i].hasFallthrough {
      var later := FallsOf(cases, i + 1, r.rest);
      ps := [first] + later;
      FallsOn(cases, i, first, later);
    } else {
      ps := [first];
      assert first.trace + [] == first.trace;
    }
  }

  lemma {:induction false} FallsRun(cases: seq<Case>, i: nat, ps: seq<Piece>) returns (r: Run)
    requires Falls(cases, i, ps)
    ensures RunsChain(cases, i, r) && Flat(ps) == Trace(r) && LastOut(ps) == OutChain(cases, i, r)
    decreases |ps|
  {
    hide RunsBody, OutBody;
    assert FallsAt(cases[i + 0], ps[0], 0 < |ps| - 1);
    var r1 :| RunsBody(cases[i].body, r1) && Trace(r1) == ps[0].trace && OutBody(cases[i].body, r1) == ps[0].out;
    if |ps| > 1 {
      var rest := ps[1..];
      forall k | 0 <= k < |rest| ensures FallsAt(cases[i + 1 + k], rest[k], k < |rest| - 1) {
        assert FallsAt(cases[i + (k + 1)], ps[k + 1], k + 1 < |ps| - 1);
      }
      var later := FallsRun(cases, i + 1, rest);
      r := Then(r1, later);
    } else {
      assert ps[1..] == [];
      r := Then(r1, Nothing);
    }
  }

  // ---------- Switch statements ----------

  /** Case i is the default of the switch: the last one that is marked so. */
  predicate IsDefault(cases: seq<Case>, i: nat) {
    i < |cases| && cases[i].isDefault && forall j :: i < j < |cases| ==> !cases[j].isDefault
  }

  predicate NoDefault(cases: seq<Case>) { forall i :: 0 <= i < |cases| ==> !cases[i].isDefault }

  lemma {:induction false} DefaultFound(cases: seq<Case>)
    ensures DefaultCase(cases).Some? ==> IsDefault(cases, DefaultCase(cases).value)
    ensures DefaultCase(cases).None? <==> NoDefault(cases)
  {
    if cases != [] && !cases[|cases| - 1].isDefault {
      var front := cases[..|cases| - 1];
      DefaultFound(front);
      assert forall i :: 0 <= i < |front| ==> front[i] == cases[i];
    }
  }

  lemma DefaultIs(cases: seq<Case>, i: nat)
    ensures IsDefault(cases, i) <==> DefaultCase(cases) == Some(i)
  {
    DefaultFound(cases);
  }

  /** After m conditions that end normally, case i is entered because condition m belongs to it, or because it is the default and
      all conditions were tested; no case is entered only after all conditions, and without a default. */
  predicate Chooses(cases: seq<Case>, m: nat, chosen: Option<nat>) {
    var conds := FlatConds(cases, 0);
    && m <= |conds|
    && match chosen
       case Some(i) => i < |cases| && ((m > 0 && conds[m - 1].case_ == i) || (m == |conds| && IsDefault(cases, i)))
       case None => m == |conds| && NoDefault(cases)
  }

  /** What a run of a switch has chosen. */
  lemma SwitchChooses(s: Stmt, r: Run)
    requires s.Switch? && RunsStmt(s, r)
    ensures r.Matched? && (OutConds(FlatConds(s.cases, 0), r.tested) == Normal ==> Chooses(s.cases, Length(r.tested), r.chosen))
  {
    hide FlatConds, RunsBody, OutBody, IsDefault;
    DefaultFound(s.cases);
    var ps := TestsOf(FlatConds(s.cases, 0), r.tested);
  }

  /** A condition leaves the switch. */
  ghost predicate Broken(s: Stmt, ps: seq<Piece>, tr: seq<nat>, out: Outcome)
    requires s.Switch?
  {
    Tests(FlatConds(s.cases, 0), ps) && LastOut(ps) != Normal && tr == Flat(ps) && out == LastOut(ps)
  }

  /** Case i is entered, and its body and those it falls through to are run; a break of the switch ends it. */
  ghost predicate Entered(s: Stmt, ps: seq<Piece>, i: nat, qs: seq<Piece>, tr: seq<nat>, out: Outcome)
    requires s.Switch?
  {
    && Tests(FlatConds(s.cases, 0), ps) && LastOut(ps) == Normal && Chooses(s.cases, |ps|, Some(i)) && Falls(s.cases, i, qs)
    && tr == Flat(ps) + Flat(qs) && out == (if LastOut(qs) == BreakTo(s.id) then Normal else LastOut(qs))
  }

  ghost predicate Missed(s: Stmt, ps: seq<Piece>, tr: seq<nat>, out: Outcome)
    requires s.Switch?
  {
    && Tests(FlatConds(s.cases, 0), ps) && LastOut(ps) == Normal && Chooses(s.cases, |ps|, None)
    && tr == Flat(ps) && out == Normal
  }

  /** A switch tests conditions in order, and then enters the case of the last one, or the default, or none. */
  ghost predicate SwitchPasses(s: Stmt, tr: seq<nat>, out: Outcome)
    requires s.Switch?
  {
    || (exists ps :: Broken(s, ps, tr, out))
    || (exists ps, i, qs :: Entered(s, ps, i, qs, tr, out))
    || exists ps :: Missed(s, ps, tr, out)
  }

  lemma SwitchHas(s: Stmt, tr: seq<nat>, out: Outcome)
    requires s.Switch?
    ensures HasStmt(s, tr, out) <==> SwitchPasses(s, tr, out)
  {
    hide FlatConds, RunsStmt, OutStmt, Broken, Entered, Missed;
    if HasStmt(s, tr, out) {
      var r :| RunsStmt(s, r) && Trace(r) == tr && OutStmt(s, r) == out;
      SwitchOf(s, r);
    }
    if ps :| Broken(s, ps, tr, out) {
      BrokenRun(s, ps, tr, out);
    }
    if ps, i, qs :| Entered(s, ps, i, qs, tr, out) {
      EnteredRun(s, ps, i, qs, tr, out);
    }
    if ps :| Missed(s, ps, tr, out) {
      MissedRun(s, ps, tr, out);
    }
  }

  lemma SwitchOf(s: Stmt, r: Run)
    requires s.Switch? && RunsStmt(s, r)
    ensures SwitchPasses(s, Trace(r), OutStmt(s, r))
  {
    hide FlatConds, RunsBody, OutBody, IsDefault, Chooses;
    SwitchChooses(s, r);
    var conds := FlatConds(s.cases, 0);
    var ps := TestsOf(conds, r.tested);
    if LastOut(ps) != Normal {
      assert Trace(r.tested) + [] == Trace(r.tested);
      assert Broken(s, ps, Trace(r), OutStmt(s, r));
    } else if r.chosen.Some? {
      var qs := FallsOf(s.cases, r.chosen.value, r.bodies);
      assert Entered(s, ps, r.chosen.value, qs, Trace(r), OutStmt(s, r));
    } else {
      assert Trace(r.tested) + [] == Trace(r.tested);
      assert Missed(s, ps, Trace(r), OutStmt(s, r));
    }
  }

  /** The parts of a run of a switch. */
  lemma SwitchRun(s: Stmt, tested: Run, chosen: Option<nat>, bodies: Run)
    requires s.Switch? && RunsConds(FlatConds(s.cases, 0), tested)
    requires if chosen.Some? then chosen.value < |s.cases| && RunsChain(s.cases, chosen.value, bodies) else bodies == Nothing
    requires var conds, m := FlatConds(s.cases, 0), Length(tested);
             if OutConds(conds, tested) != Normal then chosen.None? else Chooses(s.cases, m, chosen)
    ensures RunsStmt(s, Matched(tested, chosen, bodies))
    ensures Trace(Matched(tested, chosen, bodies)) == Trace(tested) + Trace(bodies)
    ensures OutStmt(s, Matched(tested, chosen, bodies))
            == (if chosen.None? then OutConds(FlatConds(s.cases, 0), tested) else Leave(OutChain(s.cases, chosen.value, bodies), s.id))
  {
    hide FlatConds, RunsConds, OutConds, RunsChain, OutChain, IsDefault, NoDefault, Length, DefaultCase;
    DefaultFound(s.cases);
    if chosen.Some? {
      DefaultIs(s.cases, chosen.value);
    }
  }

  lemma BrokenRun(s: Stmt, ps: seq<Piece>, tr: seq<nat>, out: Outcome)
    requires s.Switch? && Broken(s, ps, tr, out)
    ensures HasStmt(s, tr, out)
  {
    hide FlatConds, RunsConds, OutConds, RunsStmt, OutStmt, Tests;
    var tested := TestsRun(FlatConds(s.cases, 0), ps);
    SwitchRun(s, tested, None, Nothing);
    assert Trace(tested) + Trace(Nothing) == tr;
  }

  lemma EnteredRun(s: Stmt, ps: seq<Piece>, i: nat, qs: seq<Piece>, tr: seq<nat>, out: Outcome)
    requires s.Switch? && Entered(s, ps, i, qs, tr, out)
    ensures HasStmt(s, tr, out)
  {
    hide FlatConds, RunsConds, OutConds, RunsChain, OutChain, RunsStmt, OutStmt, Tests, Falls, Chooses, Trace;
    var tested := TestsRun(FlatConds(s.cases, 0), ps);
    var bodies := FallsRun(s.cases, i, qs);
    CaseBound(s.cases, |ps|, i);
    SwitchRun(s, tested, Some(i), bodies);
  }

  lemma CaseBound(cases: seq<Case>, m: nat, i: nat)
    requires Chooses(cases, m, Some(i))
    ensures i < |cases|
  {
  }

  lemma MissedRun(s: Stmt, ps: seq<Piece>, tr: seq<nat>, out: Outcome)
    requires s.Switch? && Missed(s, ps, tr, out)
    ensures HasStmt(s, tr, out)
  {
    hide FlatConds, RunsConds, OutConds, RunsStmt, OutStmt, Tests, Chooses;
    var tested := TestsRun(FlatConds(s.cases, 0), ps);
    SwitchRun(s, tested, None, Nothing);
    assert Trace(tested) + Trace(Nothing) == tr;
  }

  /** Once all conditions have ended normally, the default, and the bodies it falls through to, can be run. */
  lemma DefaultRuns(s: Stmt, i: nat, ps: seq<Piece>, qs: seq<Piece>)
    requires s.Switch? && IsDefault(s.cases, i) && Falls(s.cases, i, qs)
    requires Tests(FlatConds(s.cases, 0), ps) && |ps| == |FlatConds(s.cases, 0)| && LastOut(ps) == Normal
    ensures HasStmt(s, Flat(ps) + Flat(qs), if LastOut(qs) == BreakTo(s.id) then Normal else LastOut(qs))
  {
    hide FlatConds, Has, HasStmt;
    EnteredRun(s, ps, i, qs, Flat(ps) + Flat(qs), if LastOut(qs) == BreakTo(s.id) then Normal else LastOut(qs));
  }

  // ---------- Loops with a condition ----------

  /** A pass of a loop: what its condition passes, and what its body does. */
  datatype Pass = Pass(test: seq<nat>, inner: seq<nat>, out: Outcome)

  function AllPasses(ps: seq<Pass>): seq<nat> { if ps == [] then [] else ps[0].test + ps[0].inner + AllPasses(ps[1..]) }

  predicate Continues(out: Outcome, id: nat) { out == Normal || out == ContinueTo(id) }

  /** The loop makes these passes after k others: its condition ends normally before each, there are no more than its maximum,
      and each but the last goes on. */
  ghost predicate MakesPasses(s: Stmt, k: nat, ps: seq<Pass>)
    requires s.For?
  {
    && (forall j :: 0 <= j < |ps| ==> Has(s.cond, ps[j].test, Normal) && Has(s.body, ps[j].inner, ps[j].out))
    && (s.max.Some? && ps != [] ==> k + |ps| <= s.max.value)
    && (forall j :: 0 <= j < |ps| - 1 ==> Continues(ps[j].out, s.id))
  }

  /** After these passes the loop ends at its condition: the condition leaves it, or it ends normally and the minimum, of which
      only a loop with a maximum keeps account, is reached. */
  ghost predicate EndsLoop(s: Stmt, k: nat, ps: seq<Pass>, test: seq<nat>, o: Outcome, tr: seq<nat>)
    requires s.For?
  {
    && MakesPasses(s, k, ps) && (ps != [] ==> Continues(ps[|ps| - 1].out, s.id))
    && Has(s.cond, test, o) && tr == AllPasses(ps) + test
    && (o == Normal ==> !s.infinite && (s.min.Some? ==> s.min.value <= (if s.max.Some? then k + |ps| else 0)))
  }

  /** The last of these passes leaves the loop. */
  ghost predicate QuitsLoop(s: Stmt, k: nat, ps: seq<Pass>, tr: seq<nat>, out: Outcome)
    requires s.For?
  {
    && MakesPasses(s, k, ps) && ps != [] && !Continues(ps[|ps| - 1].out, s.id) && tr == AllPasses(ps)
    && out == (if ps[|ps| - 1].out == BreakTo(s.id) then Normal else ps[|ps| - 1].out)
  }

  /** A loop makes passes and ends at its condition, or a pass leaves it. */
  lemma ForHas(s: Stmt, tr: seq<nat>, out: Outcome)
    requires s.For?
    ensures HasStmt(s, tr, out) <==> (exists ps, test :: EndsLoop(s, 0, ps, test, out, tr)) || exists ps :: QuitsLoop(s, 0, ps, tr, out)
  {
    hide RunsLoop, OutLoop, EndsLoop, QuitsLoop;
    if HasStmt(s, tr, out) {
      var r :| RunsStmt(s, r) && Trace(r) == tr && OutStmt(s, r) == out;
      var ps, test := PassesOf(s, 0, r);
    }
    if ps, test :| EndsLoop(s, 0, ps, test, out, tr) {
      var r := EndsRun(s, 0, ps, test, out, tr);
      assert RunsStmt(s, r) && OutStmt(s, r) == out;
    }
    if ps :| QuitsLoop(s, 0, ps, tr, out) {
      var r := QuitsRun(s, 0, ps, tr, out);
      assert RunsStmt(s, r) && OutStmt(s, r) == out;
    }
  }

  lemma {:induction false} PassesOf(s: Stmt, k: nat, r: Run) returns (ps: seq<Pass>, test: seq<nat>)
    requires s.For? && RunsLoop(s, k, r)
    ensures EndsLoop(s, k, ps, test, OutLoop(s, r), Trace(r)) || QuitsLoop(s, k, ps, Trace(r), OutLoop(s, r))
    decreases r
  {
    hide RunsBody, OutBody;
    if r.Stop? {
      ps, test := [], Trace(r.test);
      assert Has(s.cond, test, OutBody(s.cond, r.test));
      assert [] + test == test;
    } else {
      var out := OutBody(s.body, r.inner);
      var pass := Pass(Trace(r.test), Trace(r.inner), out);
      assert Has(s.cond, pass.test, Normal) && Has(s.body, pass.inner, out);
      if GoesOn(out, s.id) {
        ps, test := PassesOf(s, k + 1, r.rest);
        MorePasses(s, k, pass, ps, test, OutLoop(s, r.rest), Trace(r.rest));
        ps := [pass] + ps;
      } else {
        ps, test := [pass], [];
        assert r.rest == Nothing && Trace(r.rest) == [];
        assert ps[1..] == [] && Trace(r) == AllPasses(ps);
        assert QuitsLoop(s, k, ps, Trace(r), OutLoop(s, r));
      }
    }
  }

  lemma MorePasses(s: Stmt, k: nat, pass: Pass, ps: seq<Pass>, test: seq<nat>, out: Outcome, tr: seq<nat>)
    requires s.For? && Has(s.cond, pass.test, Normal) && Has(s.body, pass.inner, pass.out) && Continues(pass.out, s.id)
    requires s.max.Some? ==> k < s.max.value
    ensures EndsLoop(s, k + 1, ps, test, out, tr) ==> EndsLoop(s, k, [pass] + ps, test, out, pass.test + pass.inner + tr)
    ensures QuitsLoop(s, k + 1, ps, tr, out) ==> QuitsLoop(s, k, [pass] + ps, pass.test + pass.inner + tr, out)
  {
    hide Has;
    var all := [pass] + ps;
    assert all[1..] == ps;
    assert forall j :: 0 < j < |all| ==> all[j] == ps[j - 1];
    assert ps != [] ==> all[|all| - 1] == ps[|ps| - 1];
    assert pass.test + pass.inner + (AllPasses(ps) + test) == AllPasses(all) + test;
  }

  lemma FewerPasses(s: Stmt, k: nat, ps: seq<Pass>)
    requires s.For? && MakesPasses(s, k, ps) && |ps| > 1
    ensures MakesPasses(s, k + 1, ps[1..])
  {
    hide Has;
    var rest := ps[1..];
    assert forall j :: 0 <= j < |rest| ==> rest[j] == ps[j + 1];
  }

  lemma {:induction false} EndsRun(s: Stmt, k: nat, ps: seq<Pass>, test: seq<nat>, o: Outcome, tr: seq<nat>) returns (r: Run)
    requires s.For? && EndsLoop(s, k, ps, test, o, tr)
    ensures RunsLoop(s, k, r) && Trace(r) == tr && OutLoop(s, r) == o
    decreases |ps|
  {
    hide RunsBody, OutBody;
    if ps == [] {
      var r1 :| RunsBody(s.cond, r1) && Trace(r1) == test && OutBody(s.cond, r1) == o;
      r := Stop(r1);
      assert [] + test == test;
    } else {
      var r1 :| RunsBody(s.cond, r1) && Trace(r1) == ps[0].test && OutBody(s.cond, r1) == Normal;
      var r2 :| RunsBody(s.body, r2) && Trace(r2) == ps[0].inner && OutBody(s.body, r2) == ps[0].out;
      assert Continues(ps[0].out, s.id);
      if |ps| > 1 {
        FewerPasses(s, k, ps);
      } else {
        assert ps[1..] == [];
      }
      assert tr == ps[0].test + ps[0].inner + (AllPasses(ps[1..]) + test);
      var r3 := EndsRun(s, k + 1, ps[1..], test, o, AllPasses(ps[1..]) + test);
      r := Iterate(r1, r2, r3);
    }
  }

  lemma {:induction false} QuitsRun(s: Stmt, k: nat, ps: seq<Pass>, tr: seq<nat>, out: Outcome) returns (r: Run)
    requires s.For? && QuitsLoop(s, k, ps, tr, out)
    ensures RunsLoop(s, k, r) && Trace(r) == tr && OutLoop(s, r) == out
    decreases |ps|
  {
    hide RunsBody, OutBody;
    var r1 :| RunsBody(s.cond, r1) && Trace(r1) == ps[0].test && OutBody(s.cond, r1) == Normal;
    var r2 :| RunsBody(s.body, r2) && Trace(r2) == ps[0].inner && OutBody(s.body, r2) == ps[0].out;
    if |ps| > 1 {
      FewerPasses(s, k, ps);
      var r3 := QuitsRun(s, k + 1, ps[1..], AllPasses(ps[1..]), out);
      r := Iterate(r1, r2, r3);
    } else {
      assert ps[1..] == [];
      r := Iterate(r1, r2, Nothing);
    }
  }

  // ---------- Loops over a channel ----------

  /** Each pass receives a value and runs the body, and each but the last goes on. */
  ghost predicate ReceivesFor(s: Stmt, ps: seq<Piece>)
    requires s.Range?
  {
    && (forall j :: 0 <= j < |ps| ==> Has(s.body, ps[j].trace, ps[j].out))
    && (forall j :: 0 <= j < |ps| - 1 ==> Continues(ps[j].out, s.id))
  }

  function AllReceived(s: Stmt, ps: seq<Piece>): seq<nat>
    requires s.Range?
  {
    if ps == [] then [] else [s.trigger, s.confirm, s.more] + ps[0].trace + AllReceived(s, ps[1..])
  }

  /** The loop ends with a receive that finds the channel closed and drained, or with a pass that leaves it. */
  ghost predicate ReceivesAll(s: Stmt, ps: seq<Piece>, tr: seq<nat>, out: Outcome)
    requires s.Range?
  {
    && ReceivesFor(s, ps)
    && (if ps == [] || Continues(ps[|ps| - 1].out, s.id) then
          tr == AllReceived(s, ps) + [s.trigger, s.confirm, s.over] && out == Normal
        else
          tr == AllReceived(s, ps) && out == (if ps[|ps| - 1].out == BreakTo(s.id) then Normal else ps[|ps| - 1].out))
  }

  lemma RangeHas(s: Stmt, tr: seq<nat>, out: Outcome)
    requires s.Range?
    ensures HasStmt(s, tr, out) <==> tr != [] && tr[0] == s.enter && exists ps :: ReceivesAll(s, ps, tr[1..], out)
  {
    hide RunsBody, OutBody, ReceivesAll;
    assert Trace(Did(s.enter)) == [s.enter];
    if HasStmt(s, tr, out) {
      var r :| RunsStmt(s, r) && Trace(r) == tr && OutStmt(s, r) == out;
      assert tr[1..] == Trace(r.rest);
      var ps := ReceivesOf(s, r.rest);
    }
    if tr != [] && tr[0] == s.enter && exists ps :: ReceivesAll(s, ps, tr[1..], out) {
      var ps :| ReceivesAll(s, ps, tr[1..], out);
      var r := ReceivesRun(s, ps, tr[1..], out);
      assert [s.enter] + tr[1..] == tr;
      assert RunsStmt(s, Then(Did(s.enter), r)) && OutStmt(s, Then(Did(s.enter), r)) == out;
    }
  }

  lemma {:induction false} ReceivesOf(s: Stmt, r: Run) returns (ps: seq<Piece>)
    requires s.Range? && RunsRange(s, r)
    ensures ReceivesAll(s, ps, Trace(r), OutLoop(s, r))
    decreases r
  {
    hide RunsBody, OutBody, Received;
    if r.Stop? {
      ps := [];
      ReceivedTrace(s, s.over);
      assert Trace(r) == [s.trigger, s.confirm, s.over];
      assert AllReceived(s, ps) + [s.trigger, s.confirm, s.over] == [s.trigger, s.confirm, s.over];
    } else {
      ReceivedTrace(s, s.more);
      assert Trace(r) == [s.trigger, s.confirm, s.more] + Trace(r.inner) + Trace(r.rest);
      var pass := Piece(Trace(r.inner), OutBody(s.body, r.inner));
      assert Has(s.body, pass.trace, pass.out);
      if GoesOn(pass.out, s.id) {
        var later := ReceivesOf(s, r.rest);
        MoreReceived(s, pass, later, Trace(r.rest), OutLoop(s, r.rest));
        ps := [pass] + later;
      } else {
        ps := [pass];
        assert ps[1..] == [] && Trace(r.rest) == [];
        assert Trace(r) == AllReceived(s, ps);
      }
    }
  }

  lemma MoreReceived(s: Stmt, pass: Piece, ps: seq<Piece>, tr: seq<nat>, out: Outcome)
    requires s.Range? && Has(s.body, pass.trace, pass.out) && Continues(pass.out, s.id) && ReceivesAll(s, ps, tr, out)
    ensures ReceivesAll(s, [pass] + ps, [s.trigger, s.confirm, s.more] + pass.trace + tr, out)
  {
    hide Has;
    var all := [pass] + ps;
    assert all[1..] == ps;
    assert forall j :: 0 < j < |all| ==> all[j] == ps[j - 1];
    assert ps != [] ==> all[|all| - 1] == ps[|ps| - 1];
    var test := [s.trigger, s.confirm, s.more];
    assert test + pass.trace + (AllReceived(s, ps) + [s.trigger, s.confirm, s.over]) == AllReceived(s, all) + [s.trigger, s.confirm, s.over];
  }

  lemma {:induction false} ReceivesRun(s: Stmt, ps: seq<Piece>, tr: seq<nat>, out: Outcome) returns (r: Run)
    requires s.Range? && ReceivesAll(s, ps, tr, out)
    ensures RunsRange(s, r) && Trace(r) == tr && OutLoop(s, r) == out
    decreases |ps|
  {
    hide RunsBody, OutBody, Received;
    ReceivedTrace(s, s.over);
    ReceivedTrace(s, s.more);
    if ps == [] {
      r := Stop(Received(s, s.over));
      assert AllReceived(s, ps) == [] && [] + [s.trigger, s.confirm, s.over] == tr;
      assert Trace(r) == Trace(Received(s, s.over));
    } else {
      var r1 :| RunsBody(s.body, r1) && Trace(r1) == ps[0].trace && OutBody(s.body, r1) == ps[0].out;
      var test := [s.trigger, s.confirm, s.more];
      if Continues(ps[0].out, s.id) {
        var rest := tr[|test + ps[0].trace|..];
        LaterReceived(s, ps, tr, out);
        var later := ReceivesRun(s, ps[1..], rest, out);
        r := Iterate(Received(s, s.more), r1, later);
        assert Trace(r) == test + Trace(r1) + Trace(later);
      } else {
        assert ps[1..] == [];
        r := Iterate(Received(s, s.more), r1, Nothing);
        assert Trace(Nothing) == [];
        assert AllReceived(s, ps) == test + ps[0].trace + AllReceived(s, ps[1..]);
        assert Trace(r) == test + Trace(r1) + Trace(Nothing);
        assert Trace(r) == tr;
      }
    }
  }

  lemma LaterReceived(s: Stmt, ps: seq<Piece>, tr: seq<nat>, out: Outcome)
    requires s.Range? && ReceivesAll(s, ps, tr, out) && ps != [] && Continues(ps[0].out, s.id)
    ensures var front := [s.trigger, s.confirm, s.more] + ps[0].trace;
            front <= tr && ReceivesAll(s, ps[1..], tr[|front|..], out) && tr == front + tr[|front|..]
  {
    hide Has;
    var rest := ps[1..];
    assert forall j :: 0 <= j < |rest| ==> rest[j] == ps[j + 1];
    assert rest != [] ==> rest[|rest| - 1] == ps[|ps| - 1];
    var front := [s.trigger, s.confirm, s.more] + ps[0].trace;
    var tail := AllReceived(s, rest) + (if rest == [] || Continues(rest[|rest| - 1].out, s.id) then [s.trigger, s.confirm, s.over] else []);
    assert tr == front + tail;
    assert tr[|front|..] == tail;
    assert AllReceived(s, rest) + [] == AllReceived(s, rest);
  }
}
