/** Saturating at every step gives what saturating once at the end would give. */
module Saturation {
  import opened IrBodies
  import opened CallTrees
  import opened CallCounts
  import opened BodyCounts

  /** A number, or more than any number. */
  datatype Extended = Finite(n: nat) | Infinite

  function Sum(a: Extended, b: Extended): Extended {
    if a.Finite? && b.Finite? then Finite(a.n + b.n) else Infinite
  }

  /** Nothing, any number of times, is nothing. */
  function Times(a: Extended, f: Extended): Extended {
    if a == Finite(0) || f == Finite(0) then Finite(0)
    else if a.Finite? && f.Finite? then Finite(a.n * f.n) else Infinite
  }

  function Most(a: Extended, b: Extended): Extended {
    if a.Finite? && b.Finite? then Finite(Larger(a.n, b.n)) else Infinite
  }

  function Next(f: Extended): Extended { if f.Finite? then Finite(f.n + 1) else Infinite }

  function Saturate(a: Extended): (n: nat)
    ensures n <= MAX_CALL_COUNTS
  {
    match a
    case Finite(n) => Cap(n)
    case Infinite => MAX_CALL_COUNTS
  }

  lemma SumSaturates(a: Extended, b: Extended)
    ensures Saturate(Sum(a, b)) == Cap(Saturate(a) + Saturate(b))
  {
  }

  lemma MostSaturates(a: Extended, b: Extended)
    ensures Saturate(Most(a, b)) == Larger(Saturate(a), Saturate(b))
  {
  }

  /** Any factor of at least the cap will do for an infinite one. */
  lemma TimesSaturates(a: Extended, f: Extended, k: nat)
    requires if f.Finite? then k == f.n else k >= MAX_CALL_COUNTS
    ensures Saturate(Times(a, f)) == Cap(Saturate(a) * k)
  {
    var c := Saturate(a);
    if a == Finite(0) {
      assert c * k == 0;
    } else if f == Finite(0) {
      assert c * k == 0;
    } else if f.Infinite? {
      AtCap(k, c);
      assert c * k == k * c;
    } else if a.Infinite? || a.n > MAX_CALL_COUNTS {
      AtCap(c, k);
      if a.Finite? {
        AtCap(a.n, k);
      }
    }
  }

  // ---------- What a body does at most ----------

  function MostOfStmt(s: Stmt, w: Weights): Extended
    decreases SizeStmt(s), 0
  {
    match s
    case Basic(l) => Finite(Get(w, l))
    case If(a, b) => Most(MostOfBody(a, w), MostOfBody(b, w))
    case Switch(_, cases) => MostOfSwitch(cases, w)
    case Select(_, _, _, comms) => MostOfComms(comms, w)
    case For(_, cond, body, _, _, max) =>
      var f := if max.Some? then Finite(max.value) else Infinite;
      Sum(Times(MostOfBody(cond, w), Next(f)), Times(MostOfBody(body, w), f))
    case Range(_, _, _, _, _, _, body) => Times(MostOfBody(body, w), Infinite)
    case _ => Finite(0)
  }

  function MostOfBody(b: seq<Stmt>, w: Weights): Extended
    decreases SizeBody(b), 1
  {
    if b == [] then Finite(0) else Sum(MostOfStmt(b[0], w), MostOfBody(b[1..], w))
  }

  function MostOfComms(comms: seq<Comm>, w: Weights): Extended
    decreases SizeComms(comms), 2, |comms|
  {
    if comms == [] then Finite(0) else Most(MostOfBody(comms[0].body, w), MostOfComms(comms[1..], w))
  }

  function MostOfConds(conds: seq<Cond>, w: Weights): Extended
    decreases SizeBodies(CondBodies(conds)), 2, |conds|
  {
    if conds == [] then Finite(0) else Sum(MostOfBody(conds[0].body, w), MostOfConds(conds[1..], w))
  }

  function MostOfChain(cases: seq<Case>, i: nat, w: Weights): Extended
    decreases SizeCases(cases), 2, |cases| - i
  {
    if i >= |cases| then Finite(0)
    else
      CaseSmaller(cases, i);
      Sum(MostOfBody(cases[i].body, w), if cases[i].hasFallthrough then MostOfChain(cases, i + 1, w) else Finite(0))
  }

  function MostOfCases(cases: seq<Case>, i: nat, before: Extended, w: Weights): Extended
    decreases SizeCases(cases), 3, |cases| - i
  {
    if i >= |cases| then Finite(0)
    else if cases[i].isDefault then MostOfCases(cases, i + 1, before, w)
    else
      CaseSmaller(cases, i);
      var conds := Sum(before, MostOfConds(CondsOf(i, cases[i].conds), w));
      Most(Sum(conds, MostOfChain(cases, i, w)), MostOfCases(cases, i + 1, conds, w))
  }

  function MostOfSwitch(cases: seq<Case>, w: Weights): Extended
    decreases SizeCases(cases), 4
  {
    var others := MostOfCases(cases, 0, Finite(0), w);
    match DefaultCase(cases)
    case None => others
    case Some(d) => Most(others, Sum(MostOfConds(FlatConds(cases, 0), w), MostOfChain(cases, d, w)))
  }

  /** The counts of the analysis are what the exact count would be, saturated once. */
  lemma {:induction false} BodySaturates(b: seq<Stmt>, w: Weights)
    ensures CostBody(b, w) == Saturate(MostOfBody(b, w))
    decreases SizeBody(b), 1
  {
    if b != [] {
      StmtSaturates(b[0], w);
      BodySaturates(b[1..], w);
      SumSaturates(MostOfStmt(b[0], w), MostOfBody(b[1..], w));
    }
  }

  lemma {:induction false} StmtSaturates(s: Stmt, w: Weights)
    ensures CostStmt(s, w) == Saturate(MostOfStmt(s, w))
    decreases SizeStmt(s), 0
  {
    hide Cap, Larger, Most, Sum, Times;
    match s
    case Basic(l) => assert Saturate(Finite(Get(w, l))) == Cap(Get(w, l));
    case If(a, b) =>
      BodySaturates(a, w);
      BodySaturates(b, w);
      MostSaturates(MostOfBody(a, w), MostOfBody(b, w));
    case Switch(_, cases) => SwitchSaturates(cases, w);
    case Select(_, _, _, comms) => CommsSaturate(comms, w);
    case For(_, cond, body, _, _, max) =>
      var f := if max.Some? then Finite(max.value) else Infinite;
      BodySaturates(cond, w);
      BodySaturates(body, w);
      LoopSaturates(MostOfBody(cond, w), MostOfBody(body, w), f, max);
    case Range(_, _, _, _, _, _, body) =>
      BodySaturates(body, w);
      TimesSaturates(MostOfBody(body, w), Infinite, MAX_CALL_COUNTS);
    case _ => assert Saturate(Finite(0)) == 0 by { Zero(); }
  }

  lemma Zero()
    ensures Saturate(Finite(0)) == 0
  {
  }

  lemma LoopSaturates(cond: Extended, body: Extended, f: Extended, max: Option<nat>)
    requires f == if max.Some? then Finite(max.value) else Infinite
    ensures CostLoop(Saturate(cond), Saturate(body), max) == Saturate(Sum(Times(cond, Next(f)), Times(body, f)))
  {
    hide Times, Sum, Cap;
    var k := if max.Some? then max.value else MAX_CALL_COUNTS;
    TimesSaturates(cond, Next(f), k + 1);
    TimesSaturates(body, f, k);
    SumSaturates(Times(cond, Next(f)), Times(body, f));
  }

  lemma {:induction false} CommsSaturate(comms: seq<Comm>, w: Weights)
    ensures CostComms(comms, w) == Saturate(MostOfComms(comms, w))
    decreases SizeComms(comms), 2, |comms|
  {
    if comms != [] {
      BodySaturates(comms[0].body, w);
      CommsSaturate(comms[1..], w);
      MostSaturates(MostOfBody(comms[0].body, w), MostOfComms(comms[1..], w));
    }
  }

  lemma {:induction false} CondsSaturate(conds: seq<Cond>, w: Weights)
    ensures CostConds(conds, w) == Saturate(MostOfConds(conds, w))
    decreases SizeBodies(CondBodies(conds)), 2, |conds|
  {
    if conds != [] {
      BodySaturates(conds[0].body, w);
      CondsSaturate(conds[1..], w);
      SumSaturates(MostOfBody(conds[0].body, w), MostOfConds(conds[1..], w));
    }
  }

  lemma {:induction false} ChainSaturates(cases: seq<Case>, i: nat, w: Weights)
    ensures CostChain(cases, i, w) == Saturate(MostOfChain(cases, i, w))
    decreases SizeCases(cases), 2, |cases| - i
  {
    hide CondsOf, FlatConds;
    if i < |cases| {
      CaseSmaller(cases, i);
      BodySaturates(cases[i].body, w);
      var rest := if cases[i].hasFallthrough then MostOfChain(cases, i + 1, w) else Finite(0);
      if cases[i].hasFallthrough {
        ChainSaturates(cases, i + 1, w);
      }
      SumSaturates(MostOfBody(cases[i].body, w), rest);
    }
  }

  lemma {:induction false} CasesSaturate(cases: seq<Case>, i: nat, before: Extended, w: Weights)
    ensures CostCases(cases, i, Saturate(before), w) == Saturate(MostOfCases(cases, i, before, w))
    decreases SizeCases(cases), 3, |cases| - i
  {
    hide Cap, Larger, Most, Sum, CondsOf, CostConds, CostChain, MostOfConds, MostOfChain;
    if i < |cases| {
      if cases[i].isDefault {
        CasesSaturate(cases, i + 1, before, w);
      } else {
        CaseSmaller(cases, i);
        var mine := MostOfConds(CondsOf(i, cases[i].conds), w);
        CondsSaturate(CondsOf(i, cases[i].conds), w);
        ChainSaturates(cases, i, w);
        SumSaturates(before, mine);
        SumSaturates(Sum(before, mine), MostOfChain(cases, i, w));
        CasesSaturate(cases, i + 1, Sum(before, mine), w);
        MostSaturates(Sum(Sum(before, mine), MostOfChain(cases, i, w)), MostOfCases(cases, i + 1, Sum(before, mine), w));
      }
    } else {
      Zero();
    }
  }

  lemma {:induction false} SwitchSaturates(cases: seq<Case>, w: Weights)
    ensures CostSwitch(cases, w) == Saturate(MostOfSwitch(cases, w))
    decreases SizeCases(cases), 4
  {
    hide Cap, Larger, Most, Sum, FlatConds, CostConds, CostChain, MostOfConds, MostOfChain, CostCases, MostOfCases, DefaultCase;
    Zero();
    CasesSaturate(cases, 0, Finite(0), w);
    if DefaultCase(cases).Some? {
      var d := DefaultCase(cases).value;
      CondsSaturate(FlatConds(cases, 0), w);
      ChainSaturates(cases, d, w);
      SumSaturates(MostOfConds(FlatConds(cases, 0), w), MostOfChain(cases, d, w));
      MostSaturates(MostOfCases(cases, 0, Finite(0), w), Sum(MostOfConds(FlatConds(cases, 0), w), MostOfChain(cases, d, w)));
    }
  }
}
