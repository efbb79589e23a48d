/** The network can perform every statement of Go's channel semantics. */
module ChannelCompleteness {
  import opened ChannelAutomaton
  import opened ChannelNetwork
  import opened ChannelInvariant
  import opened ChannelSafety
  import opened ChannelTheorems
  import opened ChannelRefinement
  import Spec = GoChannels

  // ---------- From within a statement to its end ----------

  ghost predicate IsPath(path: seq<Config>, steps: seq<Step>) {
    |path| == |steps| + 1 && forall k :: 0 <= k < |steps| ==> Next(path[k], steps[k], path[k + 1])
  }

  ghost predicate Ends(path: seq<Config>, steps: seq<Step>, s: Config, s1: Config) {
    && IsPath(path, steps) && path[0] == s && path[|steps|] == s1
    && (forall k :: 0 <= k < |steps| ==> SomeCommitted(path[k])) && !SomeCommitted(s1)
  }

  /** Steps lead from s to the first configuration in which nothing is committed. */
  ghost predicate Completes(s: Config, s1: Config) {
    exists path, steps :: Ends(path, steps, s, s1)
  }

  lemma CompletesNow(s: Config)
    requires !SomeCommitted(s)
    ensures Completes(s, s)
  {
    assert Ends([s], [], s, s);
  }

  lemma CompletesStep(s: Config, st: Step, s1: Config, s2: Config)
    requires SomeCommitted(s) && Next(s, st, s1) && Completes(s1, s2)
    ensures Completes(s, s2)
  {
    hide Next, SomeCommitted;
    var path, steps :| Ends(path, steps, s1, s2);
    var path1, steps1 := [s] + path, [st] + steps;
    forall k | 0 <= k < |steps1| ensures Next(path1[k], steps1[k], path1[k + 1]) && SomeCommitted(path1[k]) {
      if k > 0 {
        assert steps1[k] == steps[k - 1] && path1[k] == path[k - 1] && path1[k + 1] == path[k];
      }
    }
    assert Ends(path1, steps1, s, s2);
  }

  // ---------- Range loops go on ----------

  function InRange(gos: seq<Go>): set<nat> { set g: nat | g < |gos| && gos[g].RangeReceived? }

  lemma FinishRanges(a: Spec.State, s: Config, op: Spec.Op) returns (s1: Config)
    requires Inv(s) && InStage(a, s, Done(op))
    ensures Completes(s, s1) && Spec.Does(a, op, Abs(s1))
    decreases InRange(s.gos)
  {
    hide Accounted, RangeFlags, OneTransaction, Unmade, Abs;
    if g :| 0 <= g < |s.gos| && s.gos[g].RangeReceived? {
      assert ValidGo(s.gos[g], MadeCount(s)) && GoCommitted(s.gos[g]);
      var m := if s.chans[s.gos[g].chan].buffer >= 0 || s.gos[g].ok then EnterBody else ExitRange;
      var st := GoMove(g, m);
      assert Enabled(s, st);
      var s2 := After(s, st);
      RangeEndStage(a, s, g, m, Done(op));
      StepKeepsInv(s, st, s2);
      assert g in InRange(s.gos) && g !in InRange(s2.gos) && InRange(s2.gos) <= InRange(s.gos);
      hide Inv, InStage, Enabled, After;
      s1 := FinishRanges(a, s2, op);
      CompletesStep(s, st, s2, s1);
    } else {
      CompletesNow(s);
      s1 := s;
    }
  }

  // ---------- The second half of a served operation ----------

  /** The step that serves the partner, or the buffer where there is none. */
  lemma SecondHalf(a: Spec.State, s: Config, g: nat, k: Case, cases: seq<Case>, index: nat, hasDefault: bool, isRange: bool,
                   partner: int) returns (st: Step)
    requires Inv(s) && InStage(a, s, Halfway(g, k, cases, index, hasDefault, isRange)) && Spec.Partner(a, k, partner)
    ensures SomeCommitted(s) && Enabled(s, st) && !SendsToClosed(st)
    ensures InStage(a, After(s, st), Done(Spec.Communicate(g, cases, hasDefault, isRange, index, partner)))
  {
    hide Accounted, RangeFlags, OneTransaction, Unmade, Abs, After, Spec.Resume;
    var c := k.chan;
    assert IsCommitted(s.chans[c].loc);
    HalfwayAccounts(a, s, g, k, cases, index, hasDefault, isRange);
    var e, dir := CommittedEdge(s, c);
    if EdgeAt(e).sync.NoSync? {
      st := ChanMove(c, e);
      BufferedFacts(a, s, e, k);
      BufferedStage(a, s, e, g, k, cases, index, hasDefault, isRange);
    } else {
      assert (e == 5 || e == 10) && dir == Spec.Opposite(k).dir;
      PartnerWaits(a, s, g, k, cases, index, hasDefault, isRange, partner);
      var m := WaiterCanConfirm(s, c, dir, partner);
      st := Handshake(c, e, partner, m);
      HandOffStage(a, s, e, g, partner, m, k, cases, index, hasDefault, isRange);
    }
  }

  lemma PartnerWaits(a: Spec.State, s: Config, g: nat, k: Case, cases: seq<Case>, index: nat, hasDefault: bool, isRange: bool,
                     partner: int)
    requires Inv(s) && InStage(a, s, Halfway(g, k, cases, index, hasDefault, isRange)) && Spec.Partner(a, k, partner)
    requires Spec.SomeoneAt(a, Spec.Opposite(k))
    ensures 0 <= partner < |s.gos| && RoleAt(s.gos[partner], k.chan) == Waits(Spec.Opposite(k).dir)
  {
    hide Accounted, RangeFlags, OneTransaction, Unmade;
    assert partner != g && Abs(s).routines[partner] == a.routines[partner];
    WaitsMeansBlocked(s, partner, Spec.Opposite(k));
  }

  lemma FinishHalfway(a: Spec.State, s: Config, g: nat, k: Case, cases: seq<Case>, index: nat, hasDefault: bool, isRange: bool,
                      partner: int) returns (s1: Config)
    requires Inv(s) && InStage(a, s, Halfway(g, k, cases, index, hasDefault, isRange)) && Spec.Partner(a, k, partner)
    ensures Completes(s, s1) && Spec.Does(a, Spec.Communicate(g, cases, hasDefault, isRange, index, partner), Abs(s1))
  {
    var st := SecondHalf(a, s, g, k, cases, index, hasDefault, isRange, partner);
    hide Inv, InStage, Enabled, After, SendsToClosed, SomeCommitted;
    StepKeepsInv(s, st, After(s, st));
    s1 := FinishRanges(a, After(s, st), Spec.Communicate(g, cases, hasDefault, isRange, index, partner));
    CompletesStep(s, st, After(s, st), s1);
  }

  // ---------- An operation that has arrived ----------

  /** What is done when an operation has arrived: it is served, or it blocks. */
  function WhatIsDone(a: Spec.State, g: nat, k: Case, cases: seq<Case>, index: nat, hasDefault: bool, isRange: bool, partner: int): Spec.Op
    requires k.chan < |a.chans|
  {
    if Spec.Ready(a, k) then Spec.Communicate(g, cases, hasDefault, isRange, index, partner)
    else Spec.Communicate(g, cases, false, isRange, -1, -1)
  }

  /** The next step of an operation that has arrived, and where it leads. */
  lemma FirstHalf(a: Spec.State, s: Config, g: nat, k: Case, cases: seq<Case>, index: nat, hasDefault: bool, isRange: bool,
                  partner: int) returns (st: Step, stage: Stage)
    requires Inv(s) && InStage(a, s, Arrived(g, k, cases, index, hasDefault, isRange)) && k.chan < |a.chans|
    requires Spec.Ready(a, k) ==> Spec.Partner(a, k, partner)
    ensures SomeCommitted(s) && Enabled(s, st) && !SendsToClosed(st) && InStage(a, After(s, st), stage)
    ensures if stage.Halfway? then stage == Halfway(g, k, cases, index, hasDefault, isRange) && Spec.Ready(a, k)
            else stage == Done(WhatIsDone(a, g, k, cases, index, hasDefault, isRange, partner))
  {
    hide Accounted, RangeFlags, OneTransaction, Unmade, Abs, After, Spec.Resume;
    var c := k.chan;
    assert IsCommitted(s.chans[c].loc);
    ArrivedAccounts(a, s, g, k, cases, index, hasDefault, isRange);
    var e, dir := CommittedEdge(s, c);
    if EdgeAt(e).sync.NoSync? {
      st, stage := ChanMove(c, e), Done(Spec.Communicate(g, cases, false, isRange, -1, -1));
      NotReadyWhenBlocking(a, s, e, k);
      BlocksStage(a, s, e, g, k, cases, index, hasDefault, isRange);
    } else {
      assert (e == 3 || e == 8 || e == 16) && dir == k.dir;
      var m := WaiterCanConfirm(s, c, dir, g);
      st := Handshake(c, e, g, m);
      if e == 16 {
        ClosedFacts(a, s, k);
        ClosedReceiveStage(a, s, g, g, m, k, cases, index, hasDefault, isRange);
        stage := Done(Spec.Communicate(g, cases, hasDefault, isRange, index, -1));
      } else {
        ReadyWhenServed(a, s, e, k);
        HalfwayStage(a, s, e, g, g, m, k, cases, index, hasDefault, isRange);
        stage := Halfway(g, k, cases, index, hasDefault, isRange);
      }
    }
  }

  lemma FinishArrived(a: Spec.State, s: Config, g: nat, k: Case, cases: seq<Case>, index: nat, hasDefault: bool, isRange: bool,
                      partner: int) returns (s1: Config)
    requires Inv(s) && InStage(a, s, Arrived(g, k, cases, index, hasDefault, isRange)) && k.chan < |a.chans|
    requires Spec.Ready(a, k) ==> Spec.Partner(a, k, partner)
    ensures Completes(s, s1) && Spec.Does(a, WhatIsDone(a, g, k, cases, index, hasDefault, isRange, partner), Abs(s1))
  {
    var st, stage := FirstHalf(a, s, g, k, cases, index, hasDefault, isRange, partner);
    hide Inv, InStage, Enabled, After, SendsToClosed, SomeCommitted, Spec.Ready, Spec.Partner, Spec.Does;
    StepKeepsInv(s, st, After(s, st));
    if stage.Halfway? {
      s1 := FinishHalfway(a, After(s, st), g, k, cases, index, hasDefault, isRange, partner);
    } else {
      s1 := FinishRanges(a, After(s, st), stage.op);
    }
    CompletesStep(s, st, After(s, st), s1);
  }

  // ---------- Closing ----------

  lemma FinishClosing(a: Spec.State, s: Config, g: nat, c: nat) returns (s1: Config)
    requires Inv(s) && InStage(a, s, Releasing(g, c))
    ensures Completes(s, s1) && Spec.Does(a, Spec.CloseChan(g, c), Abs(s1))
    decreases Count(s.gos, c, Waits(Receiving))
  {
    hide Accounted, RangeFlags, OneTransaction, Unmade, Abs, After, Completes;
    assert IsCommitted(s.chans[c].loc);
    var e, dir := CommittedEdge(s, c);
    if EdgeAt(e).sync.NoSync? {
      var st := ChanMove(c, e);
      ClosedStage(a, s, e, g, c);
      StepKeepsInv(s, st, After(s, st));
      hide Inv, InStage;
      s1 := FinishRanges(a, After(s, st), Spec.CloseChan(g, c));
      CompletesStep(s, st, After(s, st), s1);
    } else {
      assert e == 12 && dir == Receiving;
      var h, m := PartnerCanConfirm(s, c, dir);
      var st := Handshake(c, e, h, m);
      assert Enabled(s, st);
      ReleaseStage(a, s, g, c, h, m);
      StepKeepsInv(s, st, After(s, st));
      OneReleased(s, c, h, m);
      hide Inv, InStage;
      s1 := FinishClosing(a, After(s, st), g, c);
      CompletesStep(s, st, After(s, st), s1);
    }
  }

  lemma OneReleased(s: Config, c: nat, h: nat, m: GoEdge)
    requires Valid(s) && Enabled(s, Handshake(c, 12, h, m))
    ensures Count(After(s, Handshake(c, 12, h, m)).gos, c, Waits(Receiving)) < Count(s.gos, c, Waits(Receiving))
  {
    var s' := After(s, Handshake(c, 12, h, m));
    ConfirmShape(s, c, 12, h, m, Receiving);
    hide Enabled, After, Valid, Count;
    CountsAfter(s.gos, h, s'.gos[h], c);
  }

  // ---------- The first step of a statement ----------

  /** A statement of a network: its channels have been made, and no channel occurs twice in it. A plain operation and a range
      loop have one channel. */
  predicate IsStatement(s: Config, op: Spec.Op, plain: bool) {
    match op
    case Communicate(_, cases, hasDefault, isRange, choice, _) =>
      && ValidCases(cases, MadeCount(s))
      && (plain || isRange ==> |cases| == 1 && !hasDefault) && (isRange ==> !plain && cases[0].dir.Receiving?)
      && (0 <= choice < |cases| && cases[choice].chan < |s.chans| ==> !s.chans[cases[choice].chan].loc.Bad?)
    case CloseChan(_, c) => c < MadeCount(s)
    case Make(_, _) => true
  }

  /** The step starts this statement, as a plain operation or as a select. */
  predicate StartsAs(st: Step, op: Spec.Op, plain: bool) {
    Starts(st, op) && (op.Communicate? && !op.isRange ==> (plain <==> st.Handshake?))
  }

  /** At rest a channel that is not bad is idle, or closed. */
  lemma RestingChannel(s: Config, c: nat)
    requires Inv(s) && !SomeCommitted(s) && c < |s.chans| && !s.chans[c].loc.Bad?
    ensures s.chans[c].loc == if s.chans[c].buffer >= 0 then Idle else Closed
  {
    hide Accounted, RangeFlags, OneTransaction, Unmade;
    ClosedBuffer(s, c);
    assert !IsCommitted(s.chans[c].loc);
  }

  /** The edge of a channel that an operation triggers. */
  function TriggerEdge(s: Config, k: Case): nat
    requires k.chan < |s.chans|
  {
    if k.dir.Sending? then 1 else if s.chans[k.chan].loc.Idle? then 6 else 15
  }

  /** A plain statement or a range loop arrives. */
  lemma PerformAlone(s: Config, g: nat, k: Case, isRange: bool, partner: int) returns (st: Step, s1: Config)
    requires Inv(s) && !SomeCommitted(s) && g < |s.gos| && s.gos[g].Running? && k.chan < MadeCount(s) && !s.chans[k.chan].loc.Bad?
    requires isRange ==> k.dir.Receiving?
    requires !(k.dir.Sending? && s.chans[k.chan].buffer < 0) && (Spec.Ready(Abs(s), k) ==> Spec.Partner(Abs(s), k, partner))
    ensures Enabled(s, st) && Completes(After(s, st), s1) && st.Handshake? && Begins(st, g, [k], false, isRange)
    ensures Spec.Does(Abs(s), WhatIsDone(Abs(s), g, k, [k], 0, false, isRange, partner), Abs(s1))
  {
    hide Accounted, RangeFlags, OneTransaction, Unmade, After, Completes, InStage, Spec.Does, Spec.Ready, Spec.Partner;
    RestingChannel(s, k.chan);
    var e, m := TriggerEdge(s, k), if isRange then StartRange(k.chan) else StartOp(k);
    st := Handshake(k.chan, e, g, m);
    assert Enabled(s, st);
    var stage := TriggerStage(Abs(s), s, k.chan, e, g, m, false);
    StepKeepsInv(s, st, After(s, st));
    hide Inv, Enabled;
    s1 := FinishArrived(Abs(s), After(s, st), g, k, [k], 0, false, isRange, partner);
  }

  /** A close statement. */
  lemma PerformClose(s: Config, g: nat, c: nat) returns (st: Step, s1: Config)
    requires Inv(s) && !SomeCommitted(s) && g < |s.gos| && s.gos[g].Running? && c < MadeCount(s)
    requires !Abs(s).chans[c].closed && !Spec.SomeoneAt(Abs(s), Case(Sending, c))
    ensures Enabled(s, st) && Completes(After(s, st), s1) && Spec.Does(Abs(s), Spec.CloseChan(g, c), Abs(s1))
    ensures Starts(st, Spec.CloseChan(g, c))
  {
    hide Accounted, RangeFlags, OneTransaction, Unmade, After, Completes, InStage, Spec.Does;
    OpenIsNotBad(s, c);
    RestingChannel(s, c);
    RestAccount(s, c);
    BlockedBy(s, c);
    st := Handshake(c, 11, g, StartClose(c));
    assert Enabled(s, st);
    CloseStage(s, c, g, StartClose(c));
    StepKeepsInv(s, st, After(s, st));
    hide Inv, Enabled;
    s1 := FinishClosing(Abs(s), After(s, st), g, c);
  }

  lemma OpenIsNotBad(s: Config, c: nat)
    requires Inv(s) && c < |s.chans| && s.chans[c].buffer >= 0
    ensures !s.chans[c].loc.Bad?
  {
    assert Accounted(s, c);
  }

  lemma PerformMake(s: Config, g: nat, size: nat) returns (st: Step, s1: Config)
    requires Inv(s) && !SomeCommitted(s) && g < |s.gos| && s.gos[g].Running?
    ensures Enabled(s, st) && Completes(After(s, st), s1) && Spec.Does(Abs(s), Spec.Make(g, size), Abs(s1))
    ensures Starts(st, Spec.Make(g, size))
  {
    hide Accounted, RangeFlags, OneTransaction, Unmade, After, Completes, InStage, Spec.Does;
    st := GoMove(g, MakeChan(size));
    assert Enabled(s, st);
    MakeStage(s, g, MakeChan(size));
    StepKeepsInv(s, st, After(s, st));
    hide Inv, Enabled;
    s1 := FinishRanges(Abs(s), After(s, st), Spec.Make(g, size));
  }

  // ---------- Select statements ----------

  /** A case that is possible for a polling select is ready. */
  lemma PossibleIsReady(s: Config, g: nat, i: nat)
    requires Inv(s) && g < |s.gos| && s.gos[g].Pass1? && i < |s.gos[g].cases| && s.gos[g].cases[i].chan < |s.chans|
    ensures Possible(s.gos[g].cases[i], s.chans) <==> Spec.Ready(Abs(s), s.gos[g].cases[i])
  {
    hide Accounted, RangeFlags, Unmade, Spec.Ready;
    var k := s.gos[g].cases[i];
    assert ValidGo(s.gos[g], MadeCount(s));
    assert SoleSelect(s.gos, g) && !IsCommitted(s.chans[k.chan].loc);
    assert Find(s.gos[g].cases, k.chan) == i;
    hide OneTransaction, Possible;
    if Possible(k, s.chans) {
      PossibleFits(s, g, k);
    } else {
      NotPossibleNotReady(s, g, k, i);
    }
  }

  lemma PossibleFits(s: Config, g: nat, k: Case)
    requires Valid(s) && g < |s.gos| && SoleSelect(s.gos, g) && k.chan < |s.chans|
    requires Accounted(s, k.chan) && !IsCommitted(s.chans[k.chan].loc) && Possible(k, s.chans)
    requires RoleAt(s.gos[g], k.chan) == Reserves(k.dir)
    ensures Spec.Ready(Abs(s), k)
  {
    SoleReserver(s.gos, g, k.chan);
    BlockedBy(s, k.chan);
  }

  /** A polling select enters the ready case that was chosen. */
  lemma PerformReady(a: Spec.State, s: Config, g: nat, choice: nat, partner: int) returns (s1: Config)
    requires Inv(s) && InStage(a, s, Polling(g)) && choice < |s.gos[g].cases|
    requires var k := s.gos[g].cases[choice];
      && k.chan < |s.chans| == |a.chans| && Spec.Ready(a, k) && Spec.Partner(a, k, partner)
      && !(k.dir.Sending? && s.chans[k.chan].buffer < 0) && !s.chans[k.chan].loc.Bad?
    ensures Completes(s, s1)
    ensures Spec.Does(a, Spec.Communicate(g, s.gos[g].cases, s.gos[g].hasDefault, false, choice, partner), Abs(s1))
  {
    hide Accounted, RangeFlags, OneTransaction, Unmade, After, Completes, Spec.Does, Spec.Ready, Spec.Partner;
    var k := s.gos[g].cases[choice];
    PollingCase(a, s, g, choice);
    var e := TriggerEdge(s, k);
    var st := Handshake(k.chan, e, g, TriggerCase(choice));
    assert Enabled(s, st);
    var stage := TriggerStage(a, s, k.chan, e, g, TriggerCase(choice), s.gos[g].hasDefault);
    StepKeepsInv(s, st, After(s, st));
    assert SomeCommitted(s) by { assert GoCommitted(s.gos[g]); }
    hide Inv, Enabled, InStage, SomeCommitted;
    s1 := FinishArrived(a, After(s, st), g, k, s.gos[g].cases, choice, s.gos[g].hasDefault, false, partner);
    CompletesStep(s, st, After(s, st), s1);
  }

  lemma PollingCase(a: Spec.State, s: Config, g: nat, i: nat)
    requires Inv(s) && InStage(a, s, Polling(g)) && i < |s.gos[g].cases| && s.gos[g].cases[i].chan < |s.chans| == |a.chans|
    ensures Possible(s.gos[g].cases[i], s.chans) <==> Spec.Ready(a, s.gos[g].cases[i])
    ensures var ch := s.chans[s.gos[g].cases[i].chan]; !ch.loc.Bad? ==> ch.loc == if ch.buffer >= 0 then Idle else Closed
  {
    hide Accounted, RangeFlags, OneTransaction, Unmade, Spec.Ready, Possible;
    var k := s.gos[g].cases[i];
    PossibleIsReady(s, g, i);
    ReadyElsewhere(a, Abs(s), g, k);
    ClosedBuffer(s, k.chan);
    assert !IsCommitted(s.chans[k.chan].loc);
  }

  /** A polling select that finds nothing ready takes its default, or parks. */
  lemma PerformNone(a: Spec.State, s: Config, g: nat) returns (s1: Config)
    requires Inv(s) && InStage(a, s, Polling(g)) && |a.chans| == |s.chans|
    requires forall i :: 0 <= i < |s.gos[g].cases| ==> s.gos[g].cases[i].chan < |a.chans| && !Spec.Ready(a, s.gos[g].cases[i])
    ensures Completes(s, s1)
    ensures Spec.Does(a, Spec.Communicate(g, s.gos[g].cases, s.gos[g].hasDefault, false, -1, -1), Abs(s1))
  {
    hide Accounted, RangeFlags, OneTransaction, Unmade, After, Completes, Spec.Does, Spec.Ready, Possible;
    forall i | 0 <= i < |s.gos[g].cases| ensures !Possible(s.gos[g].cases[i], s.chans) {
      PollingCase(a, s, g, i);
    }
    var m := if s.gos[g].hasDefault then TakeDefault else Park;
    var st := GoMove(g, m);
    assert SomeCommitted(s) by { assert GoCommitted(s.gos[g]); }
    assert Enabled(s, st);
    NothingReadyStage(a, s, g, m);
    StepKeepsInv(s, st, After(s, st));
    hide Inv, Enabled, InStage, SomeCommitted;
    s1 := FinishRanges(a, After(s, st), Spec.Communicate(g, s.gos[g].cases, s.gos[g].hasDefault, false, -1, -1));
    CompletesStep(s, st, After(s, st), s1);
  }

  /** A select statement: it is entered, and then polls. */
  lemma PerformSelect(s: Config, op: Spec.Op, a': Spec.State) returns (st: Step, s1: Config)
    requires Inv(s) && !SomeCommitted(s) && op.Communicate? && !op.isRange && op.g < |s.gos| && s.gos[op.g].Running?
    requires Spec.Does(Abs(s), op, a') && IsStatement(s, op, false)
    ensures Enabled(s, st) && Completes(After(s, st), s1) && Abs(s1) == a' && StartsAs(st, op, false)
  {
    hide Accounted, RangeFlags, OneTransaction, Unmade, Completes, Spec.Ready, Spec.Partner, Spec.Perform;
    var a, g := Abs(s), op.g;
    st := GoMove(g, EnterSelect(op.cases, op.hasDefault));
    assert Enabled(s, st);
    var s2 := After(s, st);
    EnterSelectStage(s, g, st.m);
    StepKeepsInv(s, st, s2);
    EnterKeepsEnds(s, g, op.cases, op.hasDefault);
    hide Inv, Enabled, InStage, After;
    if exists i :: 0 <= i < |op.cases| && Spec.Ready(a, op.cases[i]) {
      s1 := PerformReady(a, s2, g, op.choice, op.partner);
      hide Spec.Does;
      DoneOnce(a, op, op, a', Abs(s1));
    } else {
      s1 := PerformNone(a, s2, g);
      hide Spec.Does;
      DoneOnce(a, op, op.(choice := -1, partner := -1), a', Abs(s1));
    }
  }

  lemma EnterKeepsEnds(s: Config, g: nat, cases: seq<Case>, hasDefault: bool)
    requires Inv(s) && Enabled(s, GoMove(g, EnterSelect(cases, hasDefault)))
    ensures var s2 := After(s, GoMove(g, EnterSelect(cases, hasDefault)));
      && |s2.chans| == |s.chans| == |Abs(s).chans| && g < |s2.gos| && s2.gos[g] == Pass1(cases, hasDefault)
      && forall c :: 0 <= c < |s.chans| ==> s2.chans[c].loc == s.chans[c].loc && s2.chans[c].buffer == s.chans[c].buffer
  {
    hide Accounted, RangeFlags, OneTransaction, Unmade;
    var s2 := After(s, GoMove(g, EnterSelect(cases, hasDefault)));
    var cs := SelectMoveShape(s, g, EnterSelect(cases, hasDefault));
    hide Inv, Enabled, After;
    forall c | 0 <= c < |s.chans| ensures s2.chans[c].loc == s.chans[c].loc && s2.chans[c].buffer == s.chans[c].buffer {
      SelectDeltaAt(s, s2, g, EnterSelect(cases, hasDefault), cs, c);
    }
  }

  // ---------- Statements have one effect ----------

  predicate NoneReady(a: Spec.State, cases: seq<Case>) {
    forall i :: 0 <= i < |cases| && cases[i].chan < |a.chans| ==> !Spec.Ready(a, cases[i])
  }

  /** The same statement; where no case is ready there is nothing to choose. */
  predicate SameStatement(a: Spec.State, op: Spec.Op, op1: Spec.Op) {
    || op == op1
    || (op.Communicate? && op1.Communicate? && NoneReady(a, op.cases) && op.(choice := 0, partner := 0) == op1.(choice := 0, partner := 0))
  }

  lemma DoneOnce(a: Spec.State, op: Spec.Op, op1: Spec.Op, b: Spec.State, b1: Spec.State)
    requires Spec.Does(a, op, b) && Spec.Does(a, op1, b1) && SameStatement(a, op, op1)
    ensures b == b1
  {
    hide Spec.Ready, Spec.Partner, Spec.Perform, Spec.Yields, Spec.Resume, Spec.Woken;
    if op.CloseChan? {
      assert b.routines == b1.routines;
    }
  }

  // ---------- Whole statements ----------

  lemma FreeIsRunning(s: Config, g: nat)
    requires !SomeCommitted(s) && g < |s.gos| && Abs(s).routines[g].Free?
    ensures s.gos[g].Running?
  {
    assert !GoCommitted(s.gos[g]);
  }

  /** A plain statement or a range loop, as far as it is not a select. */
  lemma PerformOne(s: Config, op: Spec.Op, plain: bool, a': Spec.State) returns (st: Step, s1: Config)
    requires Inv(s) && !SomeCommitted(s) && op.Communicate? && (plain || op.isRange) && op.g < |s.gos| && s.gos[op.g].Running?
    requires Spec.Does(Abs(s), op, a') && IsStatement(s, op, plain)
    ensures Enabled(s, st) && Completes(After(s, st), s1) && Abs(s1) == a' && StartsAs(st, op, plain)
  {
    hide Accounted, RangeFlags, OneTransaction, Unmade, Completes, Enabled, After, Spec.Partner, Spec.Perform;
    var a, k := Abs(s), op.cases[0];
    assert op.cases == [k];
    ReadyOrOpen(s, k);
    hide Inv, Spec.Ready;
    if Spec.Ready(a, k) {
      assert Spec.Ready(a, op.cases[0]) && op.choice == 0;
      st, s1 := PerformAlone(s, op.g, k, op.isRange, op.partner);
      hide Spec.Does;
      DoneOnce(a, op, op, a', Abs(s1));
    } else {
      st, s1 := PerformAlone(s, op.g, k, op.isRange, -1);
      hide Spec.Does;
      DoneOnce(a, op, op.(choice := -1, partner := -1), a', Abs(s1));
    }
  }

  /** What is not ready is at an open channel. */
  lemma ReadyOrOpen(s: Config, k: Case)
    requires Inv(s) && k.chan < |s.chans|
    ensures Spec.Ready(Abs(s), k) || (s.chans[k.chan].buffer >= 0 && !s.chans[k.chan].loc.Bad?)
  {
    hide Accounted, RangeFlags, OneTransaction, Unmade;
    if s.chans[k.chan].buffer >= 0 {
      OpenIsNotBad(s, k.chan);
    }
  }

  lemma Perform(s: Config, op: Spec.Op, plain: bool, a': Spec.State) returns (st: Step, s1: Config)
    requires Inv(s) && !SomeCommitted(s) && Spec.Does(Abs(s), op, a') && IsStatement(s, op, plain)
    ensures Enabled(s, st) && Completes(After(s, st), s1) && Abs(s1) == a' && StartsAs(st, op, plain)
  {
    hide Inv, Completes, Enabled, After, SomeCommitted, Spec.Ready, Spec.Partner, Spec.Perform;
    FreeIsRunning(s, op.g);
    match op
    case Communicate(g, cases, hasDefault, isRange, choice, partner) =>
      if plain || isRange { st, s1 := PerformOne(s, op, plain, a'); } else { st, s1 := PerformSelect(s, op, a'); }
    case CloseChan(g, c) =>
      st, s1 := PerformClose(s, g, c);
      hide Spec.Does;
      DoneOnce(Abs(s), op, op, a', Abs(s1));
    case Make(g, size) =>
      st, s1 := PerformMake(s, g, size);
      hide Spec.Does;
      DoneOnce(Abs(s), op, op, a', Abs(s1));
  }

  /** Every statement that Go allows in a configuration without committed locations is one that the network can perform from
      there: a step starts this statement, and others follow with something committed in between, until nothing is and the
      effect is that of the statement. */
  lemma StatementsArePerformed(run: seq<Config>, steps: seq<Step>, op: Spec.Op, plain: bool, a': Spec.State)
    returns (run1: seq<Config>, steps1: seq<Step>)
    requires IsRun(run, steps) && Valid(run[|steps|]) && NoStuckSelect(run[|steps|]) && !SomeCommitted(run[|steps|])
    requires Spec.Does(Abs(run[|steps|]), op, a') && IsStatement(run[|steps|], op, plain)
    ensures IsRun(run1, steps1) && |steps| < |steps1| && run1[..|run|] == run && steps1[..|steps|] == steps
    ensures forall l :: |steps| < l < |steps1| ==> SomeCommitted(run1[l])
    ensures !SomeCommitted(run1[|steps1|]) && Abs(run1[|steps1|]) == a' && StartsAs(steps1[|steps|], op, plain)
  {
    hide Inv, Spec.Does, IsStatement, Abs, SomeCommitted, Enabled, After, StartsAs;
    var s := run[|steps|];
    RunKeepsInv(run, steps, |steps|);
    var st, s1 := Perform(s, op, plain, a');
    var path, more :| Ends(path, more, After(s, st), s1);
    run1, steps1 := Continued(run, steps, st, path, more);
  }

  lemma Continued(run: seq<Config>, steps: seq<Step>, st: Step, path: seq<Config>, more: seq<Step>)
    returns (run1: seq<Config>, steps1: seq<Step>)
    requires IsRun(run, steps) && IsPath(path, more) && Next(run[|steps|], st, path[0])
    ensures run1 == run + path && steps1 == steps + [st] + more && IsRun(run1, steps1)
  {
    hide Next, Init;
    run1, steps1 := run + path, steps + [st] + more;
    forall k | 0 <= k < |steps1| ensures Next(run1[k], steps1[k], run1[k + 1]) {
      if k < |steps| {
        assert Next(run[k], steps[k], run[k + 1]);
      } else if k > |steps| {
        var i := k - |run|;
        assert steps1[k] == more[i] && run1[k] == path[i] && run1[k + 1] == path[i + 1];
      }
    }
  }

  // ---------- Statements that panic ----------

  /** Closing a channel that is closed, or under blocked senders. */
  lemma ClosePanicStep(s: Config, g: nat, c: nat) returns (st: Step)
    requires Inv(s) && !SomeCommitted(s) && Spec.Panics(Abs(s), Spec.CloseChan(g, c)) && c < MadeCount(s) && !s.chans[c].loc.Bad?
    ensures Enabled(s, st) && Starts(st, Spec.CloseChan(g, c)) && Fails(st, Spec.CloseChan(g, c))
  {
    hide Accounted, RangeFlags, OneTransaction, Unmade, After, AtRest;
    FreeIsRunning(s, g);
    RestingChannel(s, c);
    if s.chans[c].buffer >= 0 {
      BlockedSender(s, c);
    }
    st := Handshake(c, if s.chans[c].buffer < 0 then 18 else 14, g, StartClose(c));
  }

  lemma BlockedSender(s: Config, c: nat)
    requires Inv(s) && !SomeCommitted(s) && c < |s.chans| && !s.chans[c].loc.Bad? && Spec.SomeoneAt(Abs(s), Case(Sending, c))
    ensures s.chans[c].buffer >= 0 ==> s.chans[c].counter > s.chans[c].buffer
  {
    hide Accounted, RangeFlags, OneTransaction, Unmade;
    RestAccount(s, c);
    BlockedBy(s, c);
  }

  /** A plain send to a closed channel. */
  lemma SendPanicStep(s: Config, op: Spec.Op) returns (st: Step)
    requires Inv(s) && !SomeCommitted(s) && Spec.Panics(Abs(s), op) && op.Communicate? && IsStatement(s, op, true)
    requires !op.isRange
    ensures Enabled(s, st) && StartsAs(st, op, true) && Fails(st, op)
  {
    hide Accounted, RangeFlags, OneTransaction, Unmade, After;
    FreeIsRunning(s, op.g);
    RestingChannel(s, op.cases[0].chan);
    st := Handshake(op.cases[0].chan, 17, op.g, StartOp(op.cases[0]));
  }

  /** A select that panics, after it was entered. */
  lemma SelectPanicStep(s: Config, op: Spec.Op) returns (st: Step, st1: Step)
    requires Inv(s) && !SomeCommitted(s) && Spec.Panics(Abs(s), op) && op.Communicate? && IsStatement(s, op, false) && !op.isRange
    ensures Enabled(s, st) && !TurnsBad(st) && Valid(After(s, st)) && Enabled(After(s, st), st1)
    ensures StartsAs(st, op, false) && Fails(st1, op)
  {
    hide Inv, After, Enabled, SomeCommitted;
    FreeIsRunning(s, op.g);
    var k := op.cases[op.choice];
    RestingChannel(s, k.chan);
    st := GoMove(op.g, EnterSelect(op.cases, op.hasDefault));
    SelectCanStart(s, op.g, op.cases, op.hasDefault);
    EnterKeepsEnds(s, op.g, op.cases, op.hasDefault);
    st1 := Handshake(k.chan, 17, op.g, TriggerCase(op.choice));
    PanickingCase(After(s, st), op.g, op.choice);
  }

  lemma SelectCanStart(s: Config, g: nat, cases: seq<Case>, hasDefault: bool)
    requires Inv(s) && !SomeCommitted(s) && g < |s.gos| && s.gos[g].Running? && ValidCases(cases, MadeCount(s))
    ensures var st := GoMove(g, EnterSelect(cases, hasDefault)); Valid(s) && Enabled(s, st) && Inv(After(s, st)) && Valid(After(s, st))
  {
    hide Accounted, RangeFlags, OneTransaction, Unmade, After;
    var st := GoMove(g, EnterSelect(cases, hasDefault));
    StepKeepsInv(s, st, After(s, st));
  }

  lemma PanickingCase(s: Config, g: nat, i: nat)
    requires Inv(s) && g < |s.gos| && s.gos[g].Pass1? && i < |s.gos[g].cases|
    requires var k := s.gos[g].cases[i]; k.dir.Sending? && k.chan < |s.chans| && s.chans[k.chan].loc.Closed? && s.chans[k.chan].buffer < 0
    ensures Enabled(s, Handshake(s.gos[g].cases[i].chan, 17, g, TriggerCase(i)))
  {
    hide Accounted, RangeFlags, OneTransaction, Unmade;
    assert ValidGo(s.gos[g], MadeCount(s)) && GoCommitted(s.gos[g]);
  }

  /** Every statement that panics in Go is one that the network can start, and with which it turns the channel bad that the
      statement closes or chooses to send to. */
  lemma PanicsArePerformed(run: seq<Config>, steps: seq<Step>, op: Spec.Op, plain: bool)
    returns (run1: seq<Config>, steps1: seq<Step>)
    requires IsRun(run, steps) && Valid(run[|steps|]) && NoStuckSelect(run[|steps|]) && !SomeCommitted(run[|steps|])
    requires Spec.Panics(Abs(run[|steps|]), op) && IsStatement(run[|steps|], op, plain)
    requires var s := run[|steps|]; op.CloseChan? && op.chan < |s.chans| ==> !s.chans[op.chan].loc.Bad?
    requires op.Communicate? ==> !op.isRange
    ensures IsRun(run1, steps1) && |steps| < |steps1| && run1[..|run|] == run && steps1[..|steps|] == steps
    ensures StartsAs(steps1[|steps|], op, plain)
    ensures Fails(steps1[|steps1| - 1], op) && NoneTurnsBad(steps1, |steps|, |steps1| - 1)
  {
    hide Inv, Spec.Panics, Abs, SomeCommitted, Enabled, After, TurnsBad;
    var s := run[|steps|];
    RunKeepsInv(run, steps, |steps|);
    PanicsOnly(s, op);
    if op.CloseChan? {
      var st := ClosePanicStep(s, op.g, op.chan);
      run1, steps1 := Continued(run, steps, st, [After(s, st)], []);
    } else if plain {
      var st := SendPanicStep(s, op);
      run1, steps1 := Continued(run, steps, st, [After(s, st)], []);
    } else {
      var st, st1 := SelectPanicStep(s, op);
      run1, steps1 := Continued(run, steps, st, [After(s, st), After(After(s, st), st1)], [st1]);
    }
  }

  lemma PanicsOnly(s: Config, op: Spec.Op)
    requires Spec.Panics(Abs(s), op)
    ensures !op.Make?
  {
  }
}
