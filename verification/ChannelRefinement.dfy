module ChannelRefinement {
  // Between two configurations in which nothing is committed, the network performs exactly one statement of Go's
  // channel semantics.

  import opened ChannelAutomaton
  import opened ChannelNetwork
  import opened ChannelInvariant
  import opened ChannelSafety
  import opened ChannelTheorems
  import Spec = GoChannels

  // ---------- The abstraction ----------

  function AbsChan(ch: Chan): Spec.Channel { Spec.Channel(ch.cap, ch.Items(), ch.buffer < 0) }

  /** A range statement that was confirmed is as good as back in its loop. */
  function AbsGo(chans: seq<Chan>, go: Go): Spec.Routine {
    match go
    case Running(last) => Spec.Free(last)
    case Pending(op) => Spec.Blocked([op], false)
    case RangeReceiving(c, _) => Spec.Blocked([Case(Receiving, c)], true)
    case RangeReceived(c, ok) => Spec.Resume(true, 0, ok || (c < |chans| && chans[c].buffer >= 0))
    case Pass1(_, _) => Spec.Free(Started)
    case Triggered(cases, i) => Spec.Blocked(if i < |cases| then [cases[i]] else [], false)
    case Pass2(cases) => Spec.Blocked(cases, false)
  }

  function Abs(s: Config): Spec.State {
    Spec.State(seq(|s.chans|, c requires 0 <= c < |s.chans| => AbsChan(s.chans[c])), s.count,
             seq(|s.gos|, g requires 0 <= g < |s.gos| => AbsGo(s.chans, s.gos[g])))
  }

  lemma WaitsMeansBlocked(s: Config, g: nat, k: Case)
    requires Valid(s) && g < |s.gos|
    ensures RoleAt(s.gos[g], k.chan) == Waits(k.dir) <==> Spec.BlockedAt(Abs(s).routines[g], k)
  {
    var go := s.gos[g];
    assert ValidGo(go, MadeCount(s));
    if go.Pass2? {
      var i := Find(go.cases, k.chan);
      if k in go.cases {
        var j :| 0 <= j < |go.cases| && go.cases[j] == k;
        assert i == j;
      }
    } else if go.Triggered? {
      assert Find(go.cases, go.cases[go.index].chan) == go.index;
    }
  }

  lemma CountMeansBlocked(s: Config, k: Case)
    requires Valid(s)
    ensures Count(s.gos, k.chan, Waits(k.dir)) > 0 <==> Spec.SomeoneAt(Abs(s), k)
  {
    if Count(s.gos, k.chan, Waits(k.dir)) > 0 {
      var g := SomeMember(s.gos, k.chan, Waits(k.dir));
      WaitsMeansBlocked(s, g, k);
      assert Spec.BlockedAt(Abs(s).routines[g], k);
    } else if h :| 0 <= h < |s.gos| && Spec.BlockedAt(Abs(s).routines[h], k) {
      WaitsMeansBlocked(s, h, k);
      MemberCounts(s.gos, k.chan, h);
    }
  }

  lemma IndexOfDistinct(cases: seq<Case>, i: nat)
    requires Distinct(cases) && i < |cases|
    ensures Spec.IndexOf(cases, cases[i]) == i
  {
    var j := Spec.IndexOf(cases, cases[i]);
    assert cases[i] == cases[j];
  }

  // ---------- The stages of one statement ----------

  datatype Stage =
    | Polling(g: nat)
    | Arrived(g: nat, k: Case, cases: seq<Case>, index: nat, hasDefault: bool, isRange: bool)
    | Halfway(g: nat, k: Case, cases: seq<Case>, index: nat, hasDefault: bool, isRange: bool)
    | Releasing(g: nat, chan: nat)
    | Done(op: Spec.Op)

  /** The statement goroutine `go` is in, waiting at k = cases[index]. */
  predicate OpOf(go: Go, k: Case, cases: seq<Case>, index: nat, isRange: bool) {
    && index < |cases| && cases[index] == k
    && (|| (go == Pending(k) && cases == [k] && !isRange)
        || (go.RangeReceiving? && k == Case(Receiving, go.chan) && cases == [k] && isRange)
        || (go == Triggered(cases, index) && !isRange))
  }

  predicate Serving(s: Config) {
    exists c :: 0 <= c < |s.chans| && IsCommitted(s.chans[c].loc)
  }

  predicate Polls(s: Config) { exists g :: 0 <= g < |s.gos| && s.gos[g].Pass1? }

  predicate ReadyCase(a: Spec.State, k: Case) {
    k.chan < |a.chans| && Spec.Ready(a, k) && !(k.dir.Sending? && a.chans[k.chan].closed)
  }

  function Itemized(a: Spec.State, c: nat, d: int): Spec.State
    requires c < |a.chans|
  {
    a.(chans := a.chans[c := a.chans[c].(items := a.chans[c].items + d)])
  }

  /** `s` is reached from a configuration with abstraction `a` while one statement is under way. */
  predicate InStage(a: Spec.State, s: Config, stage: Stage) {
    match stage
    case Polling(g) =>
      && g < |s.gos| && s.gos[g].Pass1? && !Serving(s)
      && |a.routines| == |s.gos| && a.routines[g].Free?
      && a == Abs(s).(routines := Abs(s).routines[g := a.routines[g]])
    case Arrived(g, k, cases, index, _, isRange) =>
      && g < |s.gos| == |a.routines| && a.routines[g].Free? && k.chan < |s.chans|
      && OpOf(s.gos[g], k, cases, index, isRange) && ValidCases(cases, |s.chans|)
      && (var loc := s.chans[k.chan].loc;
          if k.dir.Sending? then loc.NewSender? else loc.NewReceiver? || loc.ConfirmingClosed?)
      && Abs(s) == a.(routines := a.routines[g := Spec.Blocked([k], isRange)])
    case Halfway(g, k, cases, index, _, isRange) =>
      && g < |s.gos| == |a.routines| && a.routines[g].Free? && k.chan < |s.chans| == |a.chans|
      && index < |cases| && cases[index] == k && ValidCases(cases, |s.chans|)
      && ReadyCase(a, k) && !a.chans[k.chan].closed
      && (if k.dir.Sending? then s.chans[k.chan].loc.ConfirmingA? else s.chans[k.chan].loc.ConfirmingB?)
      && Abs(s) == Itemized(a, k.chan, Delta(k.dir)).(routines := a.routines[g := Spec.Resume(isRange, index, true)])
    case Releasing(g, c) =>
      && g < |s.gos| == |a.routines| && a.routines[g].Free? && c < |s.chans| == |a.chans| && s.chans[c].loc.Closing?
      && !a.chans[c].closed && !Spec.SomeoneAt(a, Case(Sending, c))
      && Abs(s).chans == a.chans[c := a.chans[c].(closed := true)] && s.count == a.count
      && forall h :: 0 <= h < |s.gos| ==> Released(a, Abs(s), g, c, h)
    case Done(op) => !Serving(s) && !Polls(s) && Spec.Does(a, op, Abs(s))
  }

  /** While c is being closed by g, a blocked receiver is either untouched or sent on without a value. */
  predicate Released(a: Spec.State, b: Spec.State, g: nat, c: nat, h: nat)
    requires g < |a.routines| == |b.routines| && h < |a.routines|
  {
    var k := Case(Receiving, c);
    if h == g then b.routines[h] == Spec.Free(ClosedChan)
    else if Spec.BlockedAt(a.routines[h], k) then
      b.routines[h] == a.routines[h] || b.routines[h] == Spec.Woken(a.routines[h], k, false)
    else b.routines[h] == a.routines[h]
  }

  // ---------- The statement that a step starts ----------

  /** The step starts a communication of g: a select, a plain operation, or a receive of a range loop. */
  predicate Begins(st: Step, g: nat, cases: seq<Case>, hasDefault: bool, isRange: bool) {
    if isRange then st.Handshake? && st.g == g && st.m.StartRange? && cases == [Case(Receiving, st.m.chan)] && !hasDefault
    else
      || st == GoMove(g, EnterSelect(cases, hasDefault))
      || (st.Handshake? && st.g == g && st.m.StartOp? && cases == [st.m.op] && !hasDefault)
  }

  /** The step starts this statement. */
  predicate Starts(st: Step, op: Spec.Op) {
    match op
    case Communicate(g, cases, hasDefault, isRange, _, _) => Begins(st, g, cases, hasDefault, isRange)
    case CloseChan(g, c) => st.Handshake? && st.g == g && st.m == StartClose(c)
    case Make(g, size) => st == GoMove(g, MakeChan(size))
  }

  /** The stage belongs to the statement that step st started. */
  predicate Of(st: Step, s: Config, stage: Stage) {
    match stage
    case Polling(g) =>
      g < |s.gos| && s.gos[g].Pass1? && st == GoMove(g, EnterSelect(s.gos[g].cases, s.gos[g].hasDefault))
    case Arrived(g, _, cases, _, hasDefault, isRange) =>
      g < |s.gos| && Begins(st, g, cases, hasDefault, isRange) && (hasDefault ==> s.gos[g].Triggered?)
    case Halfway(g, _, cases, _, hasDefault, isRange) => Begins(st, g, cases, hasDefault, isRange)
    case Releasing(g, c) => Starts(st, Spec.CloseChan(g, c))
    case Done(op) => Starts(st, op)
  }

  // ---------- Facts about the accounts ----------

  /** What the accounts of channel c say about the goroutines blocked at it. */
  lemma BlockedBy(s: Config, c: nat)
    requires Valid(s)
    ensures forall dir :: Count(s.gos, c, Waits(dir)) > 0 <==> Spec.SomeoneAt(Abs(s), Case(dir, c))
  {
    forall dir ensures Count(s.gos, c, Waits(dir)) > 0 <==> Spec.SomeoneAt(Abs(s), Case(dir, c)) {
      CountMeansBlocked(s, Case(dir, c));
    }
  }

  /** Blocking routine g at k adds nobody at any other operation. */
  lemma SomeoneElse(a: Spec.State, b: Spec.State, g: nat, k: Case)
    requires g < |a.routines| == |b.routines| && b.routines == a.routines[g := b.routines[g]]
    requires a.routines[g].Free? && !Spec.BlockedAt(b.routines[g], k)
    ensures Spec.SomeoneAt(a, k) <==> Spec.SomeoneAt(b, k)
  {
    if h :| 0 <= h < |a.routines| && Spec.BlockedAt(a.routines[h], k) {
      assert Spec.BlockedAt(b.routines[h], k);
    }
    if h :| 0 <= h < |b.routines| && Spec.BlockedAt(b.routines[h], k) {
      assert Spec.BlockedAt(a.routines[h], k);
    }
  }

  // ---------- Steps that the abstraction does not see ----------

  lemma RangeEndStage(a: Spec.State, s: Config, g: nat, m: GoEdge, stage: Stage)
    requires Valid(s) && Enabled(s, GoMove(g, m)) && (m.EnterBody? || m.ExitRange?) && InStage(a, s, stage)
    ensures InStage(a, After(s, GoMove(g, m)), stage)
  {
    var s' := After(s, GoMove(g, m));
    assert s' == s.(gos := s.gos[g := Running(if m.EnterBody? then BodyEntered else RangeExited)]);
    assert ValidGo(s.gos[g], MadeCount(s)) && s.gos[g].RangeReceived?;
    hide Enabled, After;
    assert Abs(s').routines == Abs(s).routines;
    assert Abs(s') == Abs(s);
    assert Serving(s') <==> Serving(s);
    assert Polls(s') <==> Polls(s) by {
      if h :| 0 <= h < |s.gos| && s.gos[h].Pass1? { assert s'.gos[h].Pass1?; }
    }
  }

  // ---------- How a step changes the abstraction ----------

  lemma AbsAfterMove(s: Config, s': Config, g: nat)
    requires |s'.chans| == |s.chans| && g < |s.gos| == |s'.gos| && s'.gos == s.gos[g := s'.gos[g]]
    requires forall d :: 0 <= d < |s.chans| ==> (s'.chans[d].buffer >= 0 <==> s.chans[d].buffer >= 0)
    ensures Abs(s').routines == Abs(s).routines[g := AbsGo(s'.chans, s'.gos[g])]
  {
    forall h | 0 <= h < |s.gos|
      ensures Abs(s').routines[h] == Abs(s).routines[g := AbsGo(s'.chans, s'.gos[g])][h]
    {}
  }

  lemma AbsChansKept(s: Config, s': Config)
    requires |s'.chans| == |s.chans|
    requires forall d :: 0 <= d < |s.chans| ==> AbsChan(s'.chans[d]) == AbsChan(s.chans[d])
    ensures Abs(s').chans == Abs(s).chans
  {}

  // ---------- The first step of a statement ----------

  lemma TriggerAbs(s: Config, s': Config, c: nat, g: nat, k: Case, isRange: bool)
    requires c < |s.chans| == |s'.chans| && g < |s.gos| == |s'.gos| && s'.gos == s.gos[g := s'.gos[g]]
    requires s'.count == s.count && AbsGo(s'.chans, s'.gos[g]) == Spec.Blocked([k], isRange)
    requires forall d :: 0 <= d < |s.chans| && d != c ==> s'.chans[d] == s.chans[d]
    requires AbsChan(s'.chans[c]) == AbsChan(s.chans[c])
    ensures Abs(s') == Abs(s).(routines := Abs(s).routines[g := Spec.Blocked([k], isRange)])
  {
    AbsAfterMove(s, s', g);
    AbsChansKept(s, s');
  }

  /** The stage that an operation comes to with its trigger. */
  function ArrivedBy(go: Go, c: nat, e: nat, g: nat, m: GoEdge, hasDefault: bool): Stage {
    var k := Case(if e == 1 then Sending else Receiving, c);
    if m.StartRange? then Arrived(g, k, [k], 0, false, true)
    else if m.TriggerCase? && go.Pass1? then Arrived(g, k, go.cases, m.index, hasDefault, false)
    else Arrived(g, k, [k], 0, false, false)
  }

  /** The statement that triggers a channel. */
  lemma TriggerStatement(s: Config, c: nat, e: nat, g: nat, m: GoEdge, hasDefault: bool) returns (stage: Stage)
    requires Valid(s) && Enabled(s, Handshake(c, e, g, m)) && (e == 1 || e == 6 || e == 15)
    ensures var s' := After(s, Handshake(c, e, g, m)); var k := Case(if e == 1 then Sending else Receiving, c);
      && stage.Arrived? && stage.g == g < |s'.gos| && stage.k == k && stage.isRange == m.StartRange?
      && OpOf(s'.gos[g], k, stage.cases, stage.index, stage.isRange) && ValidCases(stage.cases, |s.chans|)
      && AbsGo(s'.chans, s'.gos[g]) == Spec.Blocked([k], m.StartRange?) && s'.count == s.count
    ensures g < |s.gos| && stage == ArrivedBy(s.gos[g], c, e, g, m, hasDefault)
  {
    assert ValidGo(s.gos[g], MadeCount(s));
    stage := ArrivedBy(s.gos[g], c, e, g, m, hasDefault);
  }

  /** The state before an operation differs from the abstraction in the operating routine only. */
  lemma BeforeTrigger(a: Spec.State, s: Config, g: nat, polling: bool, r: Spec.Routine)
    requires g < |s.gos| && (if polling then InStage(a, s, Polling(g)) else a == Abs(s) && s.gos[g].Running?)
    ensures |a.routines| == |s.gos| && a.routines[g].Free?
    ensures Abs(s).(routines := Abs(s).routines[g := r]) == a.(routines := a.routines[g := r])
  {}

  /** An operation arrives at its channel: from a plain statement, or from a polling select. */
  lemma TriggerStage(a: Spec.State, s: Config, c: nat, e: nat, g: nat, m: GoEdge, hasDefault: bool) returns (stage: Stage)
    requires Inv(s) && Enabled(s, Handshake(c, e, g, m)) && (e == 1 || e == 6 || e == 15)
    requires if m.TriggerCase? then InStage(a, s, Polling(g)) else a == Abs(s)
    ensures InStage(a, After(s, Handshake(c, e, g, m)), stage)
    ensures g < |s.gos| && stage == ArrivedBy(s.gos[g], c, e, g, m, hasDefault)
  {
    hide ArrivedBy, Accounted, RangeFlags, OneTransaction, Take, BumpCases, Unmade, Possible;
    var s' := After(s, Handshake(c, e, g, m));
    var dir: Dir := if e == 1 then Sending else Receiving;
    OpenBuffer(s, c);
    assert m.StartOp? || m.StartRange? || m.TriggerCase?;
    TriggerRoles(s, c, e, g, m, dir);
    assert !m.TriggerCase? ==> s.gos[g].Running?;
    stage := TriggerStatement(s, c, e, g, m, hasDefault);
    hide Enabled, After, RoleAt, Unmade, Inv;
    BeforeTrigger(a, s, g, m.TriggerCase?, Spec.Blocked([Case(dir, c)], m.StartRange?));
    TriggerAbs(s, s', c, g, Case(dir, c), m.StartRange?);
    hide OpOf, Abs, AbsGo, ServesSelect, EdgeAt;
    assert s'.chans[c].loc == if e == 1 then NewSender else if e == 6 then NewReceiver else ConfirmingClosed by { TriggerDst(e); }
  }

  lemma TriggerDst(e: nat)
    requires e == 1 || e == 6 || e == 15
    ensures EdgeAt(e).dst == if e == 1 then NewSender else if e == 6 then NewReceiver else ConfirmingClosed
  {}

  lemma EnterSelectStage(s: Config, g: nat, m: GoEdge)
    requires Inv(s) && Enabled(s, GoMove(g, m)) && m.EnterSelect? && !SomeCommitted(s)
    ensures InStage(Abs(s), After(s, GoMove(g, m)), Polling(g))
  {
    hide Accounted, RangeFlags, OneTransaction;
    var s' := After(s, GoMove(g, m));
    var cases := SelectMoveShape(s, g, m);
    forall d | 0 <= d < |s.chans|
      ensures AbsChan(s'.chans[d]) == AbsChan(s.chans[d]) && s'.chans[d].loc == s.chans[d].loc
    {
      SelectDeltaAt(s, s', g, m, cases, d);
    }
    hide Enabled, After;
    AbsAfterMove(s, s', g);
    AbsChansKept(s, s');
    assert !Serving(s') by { assert !Serving(s); }
    assert Abs(s) == Abs(s').(routines := Abs(s').routines[g := Abs(s).routines[g]]);
  }

  lemma MakeRoutines(s: Config, s': Config, g: nat, size: nat)
    requires Valid(s) && g < |s.gos| && s' == AfterMakeChan(s, g, size)
    ensures Abs(s').routines == Abs(s).routines[g := AbsGo(s'.chans, s'.gos[g])]
  {
    forall h | 0 <= h < |s.gos| && h != g ensures AbsGo(s'.chans, s.gos[h]) == AbsGo(s.chans, s.gos[h]) {
      assert ValidGo(s.gos[h], MadeCount(s));
    }
  }

  lemma MakeChans(s: Config, s': Config, g: nat, size: nat)
    requires Unmade(s) && |s.chans| >= 1 && g < |s.gos| && s' == AfterMakeChan(s, g, size)
    ensures Abs(s').chans == if s.count < |s.chans| then Abs(s).chans[s.count := Spec.Channel(size, 0, false)] else Abs(s).chans
  {
    hide AbsGo;
    if s.count < |s.chans| { assert s.chans[s.count] == FRESH; }
  }

  lemma MakeAbs(s: Config, s': Config, g: nat, size: nat)
    requires Valid(s) && Unmade(s) && g < |s.gos| && s.gos[g].Running? && s' == AfterMakeChan(s, g, size)
    ensures Spec.Does(Abs(s), Spec.Make(g, size), Abs(s'))
  {
    MakeRoutines(s, s', g, size);
    MakeChans(s, s', g, size);
    hide Valid, Unmade, Spec.Ready, Spec.SomeoneAt, Spec.Partner, Spec.Perform, Spec.Yields;
  }

  lemma MakeStage(s: Config, g: nat, m: GoEdge)
    requires Inv(s) && Enabled(s, GoMove(g, m)) && m.MakeChan? && !SomeCommitted(s)
    ensures InStage(Abs(s), After(s, GoMove(g, m)), Done(Spec.Make(g, m.size)))
  {
    hide Accounted, RangeFlags, OneTransaction, Abs;
    var s' := After(s, GoMove(g, m));
    assert s' == AfterMakeChan(s, g, m.size);
    MakeAbs(s, s', g, m.size);
    hide Enabled, After;
    assert !Serving(s) && !Polls(s) by {
      forall h | 0 <= h < |s.gos| ensures !s.gos[h].Pass1? { assert !GoCommitted(s.gos[h]); }
    }
    forall d | 0 <= d < |s'.chans| ensures !IsCommitted(s'.chans[d].loc) { assert !IsCommitted(s.chans[d].loc); }
    forall h | 0 <= h < |s'.gos| ensures !s'.gos[h].Pass1? { assert !s.gos[h].Pass1?; }
  }

  /** A channel whose counter fits its buffer has no blocked sender at rest. */
  lemma NobodySends(s: Config, c: nat)
    requires Inv(s) && !SomeCommitted(s) && c < |s.chans| && s.chans[c].loc.Idle? && s.chans[c].counter <= s.chans[c].buffer
    ensures s.chans[c].buffer >= 0 && !Spec.SomeoneAt(Abs(s), Case(Sending, c))
  {
    hide Accounted, RangeFlags, OneTransaction;
    RestAccount(s, c);
    OpenBuffer(s, c);
    BlockedBy(s, c);
  }

  lemma CloseStage(s: Config, c: nat, g: nat, m: GoEdge)
    requires Inv(s) && Enabled(s, Handshake(c, 11, g, m))
    ensures InStage(Abs(s), After(s, Handshake(c, 11, g, m)), Releasing(g, c))
  {
    hide Accounted, RangeFlags, OneTransaction;
    var s' := After(s, Handshake(c, 11, g, m));
    CloseShape(s, c, g, m);
    NobodySends(s, c);
    hide Enabled, After;
    CloseRoutines(s, s', c, g);
  }

  lemma CloseRoutines(s: Config, s': Config, c: nat, g: nat)
    requires Valid(s) && c < |s.chans| && g < |s.gos| && s.gos[g].Running? && !SomeCommitted(s)
    requires s' == s.(chans := s.chans[c := s.chans[c].(loc := Closing, buffer := -1)], gos := s.gos[g := Running(ClosedChan)])
    ensures Abs(s').chans == Abs(s).chans[c := Abs(s).chans[c].(closed := true)]
    ensures forall h :: 0 <= h < |s.gos| ==>
      Abs(s').routines[h] == if h == g then Spec.Free(ClosedChan) else Abs(s).routines[h]
  {
    forall h | 0 <= h < |s.gos| && h != g ensures AbsGo(s'.chans, s.gos[h]) == AbsGo(s.chans, s.gos[h]) {
      assert !GoCommitted(s.gos[h]);
    }
  }

  // ---------- A select that finds nothing ready ----------

  lemma NotPossibleNotReady(s: Config, g: nat, k: Case, i: nat)
    requires Valid(s) && g < |s.gos| && s.gos[g].Pass1? && SoleSelect(s.gos, g) && Distinct(s.gos[g].cases)
    requires i < |s.gos[g].cases| && k == s.gos[g].cases[i] && k.chan < |s.chans|
    requires Accounted(s, k.chan) && !IsCommitted(s.chans[k.chan].loc) && !Possible(k, s.chans)
    ensures !Spec.Ready(Abs(s), k)
  {
    assert Find(s.gos[g].cases, k.chan) == i;
    SoleReserver(s.gos, g, k.chan);
    BlockedBy(s, k.chan);
  }

  lemma ReadyElsewhere(a: Spec.State, b: Spec.State, g: nat, k: Case)
    requires g < |a.routines| == |b.routines| && b.routines == a.routines[g := b.routines[g]] && b.chans == a.chans
    requires a.routines[g].Free? && b.routines[g].Free? && k.chan < |a.chans|
    ensures Spec.Ready(a, k) <==> Spec.Ready(b, k)
  {
    SomeoneElse(a, b, g, Spec.Opposite(k));
  }

  lemma NothingReadyStage(a: Spec.State, s: Config, g: nat, m: GoEdge)
    requires Inv(s) && Enabled(s, GoMove(g, m)) && (m.TakeDefault? || m.Park?) && InStage(a, s, Polling(g))
    ensures InStage(a, After(s, GoMove(g, m)), Done(Spec.Communicate(g, s.gos[g].cases, m.TakeDefault?, false, -1, -1)))
  {
    hide Accounted, RangeFlags, SelectDelta, QuietChange, BumpCases, Spec.Ready, Unmade, RoleAt;
    var s' := After(s, GoMove(g, m));
    var cases := SelectMoveShape(s, g, m);
    assert NonePossible(cases, s.chans) && SoleSelect(s.gos, g);
    forall d | 0 <= d < |s.chans|
      ensures AbsChan(s'.chans[d]) == AbsChan(s.chans[d]) && s'.chans[d].loc == s.chans[d].loc && !IsCommitted(s.chans[d].loc)
    {
      SelectDeltaAt(s, s', g, m, cases, d);
    }
    hide Enabled, After, OneTransaction;
    AbsAfterMove(s, s', g);
    AbsChansKept(s, s');
    forall i | 0 <= i < |cases| ensures !Spec.Ready(a, cases[i]) {
      NotPossibleNotReady(s, g, cases[i], i);
      ReadyElsewhere(a, Abs(s), g, cases[i]);
    }
    assert Spec.Does(a, Spec.Communicate(g, cases, m.TakeDefault?, false, -1, -1), Abs(s'));
  }

  // ---------- A plain operation that blocks ----------

  /** The accounts of the channel an operation has arrived at, in terms of the state before. */
  lemma ArrivedAccounts(a: Spec.State, s: Config, g: nat, k: Case, cases: seq<Case>, index: nat, hasDefault: bool, isRange: bool)
    requires Inv(s) && InStage(a, s, Arrived(g, k, cases, index, hasDefault, isRange))
    ensures var ch := s.chans[k.chan];
      && (Spec.SomeoneAt(a, Spec.Opposite(k)) <==> Count(s.gos, k.chan, Waits(Spec.Opposite(k).dir)) > 0)
      && |a.chans| == |s.chans| && a.chans[k.chan] == AbsChan(ch)
      && Accounted(s, k.chan)
      && RoleAt(s.gos[g], k.chan) == Waits(k.dir)
  {
    hide Accounted, RangeFlags, OneTransaction;
    SomeoneElse(a, Abs(s), g, Spec.Opposite(k));
    BlockedBy(s, k.chan);
    WaitsMeansBlocked(s, g, k);
  }

  lemma BlocksStage(a: Spec.State, s: Config, e: nat, g: nat, k: Case, cases: seq<Case>, index: nat, hasDefault: bool, isRange: bool)
    requires Inv(s) && Enabled(s, ChanMove(k.chan, e)) && InStage(a, s, Arrived(g, k, cases, index, hasDefault, isRange))
    ensures InStage(a, After(s, ChanMove(k.chan, e)), Done(Spec.Communicate(g, cases, false, isRange, -1, -1)))
    ensures !s.gos[g].Triggered?
  {
    hide RangeFlags, Accounted;
    var s' := After(s, ChanMove(k.chan, e));
    ArrivedAccounts(a, s, g, k, cases, index, hasDefault, isRange);
    assert !s.gos[g].Triggered?;
    assert cases == [k];
    NotReadyWhenBlocking(a, s, e, k);
    forall d | 0 <= d < |s.chans| ensures !IsCommitted(s'.chans[d].loc) {}
    forall h | 0 <= h < |s.gos| ensures !s.gos[h].Pass1? {}
    hide Enabled, After, OneTransaction;
    QuietChanMove(s, s', k.chan, e);
    assert Spec.Does(a, Spec.Communicate(g, cases, false, isRange, -1, -1), Abs(s'));
  }

  lemma NotReadyWhenBlocking(a: Spec.State, s: Config, e: nat, k: Case)
    requires k.chan < |s.chans| == |a.chans| && Accounted(s, k.chan) && ChanEdgeEnabled(s, k.chan, e) && EdgeAt(e).sync.NoSync?
    requires if k.dir.Sending? then s.chans[k.chan].loc.NewSender? else s.chans[k.chan].loc.NewReceiver? || s.chans[k.chan].loc.ConfirmingClosed?
    requires Spec.SomeoneAt(a, Spec.Opposite(k)) <==> Count(s.gos, k.chan, Waits(Spec.Opposite(k).dir)) > 0
    requires a.chans[k.chan] == AbsChan(s.chans[k.chan])
    ensures !Spec.Ready(a, k) && EdgeAt(e).dst.Idle?
  {}

  lemma QuietChanMove(s: Config, s': Config, c: nat, e: nat)
    requires ChanEdgeEnabled(s, c, e) && EdgeAt(e).sync.NoSync?
    requires s' == s.(chans := s.chans[c := Take(EdgeAt(e), s.chans[c])])
    ensures Abs(s') == Abs(s)
  {
    assert AbsChan(s'.chans[c]) == AbsChan(s.chans[c]);
    forall h | 0 <= h < |s.gos| ensures AbsGo(s'.chans, s.gos[h]) == AbsGo(s.chans, s.gos[h]) {}
    assert Abs(s').chans == Abs(s).chans && Abs(s').routines == Abs(s).routines;
  }

  // ---------- Confirmations ----------

  /** The value a confirmation on edge e hands over, seen from the confirmed range loop. */
  predicate HandsOver(s: Config, c: nat, ok: bool)
    requires c < |s.chans|
  {
    ok || s.chans[c].buffer >= 0
  }

  /** Where a confirmed goroutine ends up. */
  lemma ConfirmOutcome(s: Config, c: nat, e: nat, h: nat, m: GoEdge, dir: Dir)
    requires Valid(s) && Enabled(s, Handshake(c, e, h, m)) && ConfirmEdge(e, dir)
    ensures var s' := After(s, Handshake(c, e, h, m)); var go := s.gos[h]; var k := Case(dir, c);
      && Confirming(s, s', c, e, h, dir) && |s'.chans| == |s.chans| && h < |s'.gos| && s'.count == s.count
      && Spec.BlockedAt(Abs(s).routines[h], k)
      && AbsGo(s'.chans, s'.gos[h]) ==
           if go.Triggered? then Spec.Resume(false, go.index, true)
           else Spec.Woken(Abs(s).routines[h], k, go.RangeReceiving? ==> HandsOver(s, c, go.ok))
  {
    var go := s.gos[h];
    ConfirmShape(s, c, e, h, m, dir);
    WaitsMeansBlocked(s, h, Case(dir, c));
    assert ValidGo(go, MadeCount(s));
    if go.Pass2? { IndexOfDistinct(go.cases, m.index); }
  }

  /** The buffered values after a confirmation. */
  function ItemsDelta(e: nat, ch: Chan): int {
    if e == 3 || e == 10 then 1 else if e == 12 || (e == 16 && ch.counter < 0) then 0 else -1
  }

  lemma ConfirmAbs(s: Config, s': Config, c: nat, e: nat, h: nat, dir: Dir)
    requires Confirming(s, s', c, e, h, dir)
    ensures Abs(s').chans == Itemized(Abs(s), c, ItemsDelta(e, s.chans[c])).chans
    ensures Abs(s').routines == Abs(s).routines[h := AbsGo(s'.chans, s'.gos[h])]
  {
    ConfirmedChan(e, dir, s.chans[c]);
    hide EdgeAt, Take, RoleAt;
    AbsAfterMove(s, s', h);
    forall d | 0 <= d < |s.chans| && d != c ensures AbsChan(s'.chans[d]) == AbsChan(s.chans[d]) {}
  }

  lemma ConfirmedChan(e: nat, dir: Dir, ch: Chan)
    requires ConfirmEdge(e, dir) && ch.loc == EdgeAt(e).src
    ensures var ch' := Take(EdgeAt(e), ch);
      ch'.loc == EdgeAt(e).dst && ch'.buffer == ch.buffer && ch'.cap == ch.cap && ch'.Items() == ch.Items() + ItemsDelta(e, ch)
  {
    if e == 3 {} else if e == 5 {} else if e == 8 {} else if e == 10 {} else if e == 12 {} else { assert e == 16; }
  }

  // ---------- The arriving operation is served ----------

  lemma ServedFirst(a: Spec.State, s: Config, e: nat, g: nat, h: nat, m: GoEdge, k: Case,
                    cases: seq<Case>, index: nat, hasDefault: bool, isRange: bool)
    requires Inv(s) && Enabled(s, Handshake(k.chan, e, h, m)) && ConfirmEdge(e, k.dir)
    requires InStage(a, s, Arrived(g, k, cases, index, hasDefault, isRange))
    ensures h == g && (e == 3 || e == 8 || e == 16)
    ensures var s' := After(s, Handshake(k.chan, e, g, m));
      && AbsGo(s'.chans, s'.gos[g]) == Spec.Resume(isRange, index, isRange ==> HandsOver(s, k.chan, s.gos[g].RangeReceiving? && s.gos[g].ok))
      && (isRange ==> s.gos[g].RangeReceiving? && s.gos[g].chan == k.chan)
  {
    hide RangeFlags, OneTransaction;
    ArrivedAccounts(a, s, g, k, cases, index, hasDefault, isRange);
    hide Accounted;
    ConfirmOutcome(s, k.chan, e, h, m, k.dir);
    hide Enabled, After;
    assert e == 3 || e == 8 || e == 16;
    FirstConfirmation(s, k.chan, e, g, h, k.dir);
  }

  lemma ReadyWhenServed(a: Spec.State, s: Config, e: nat, k: Case)
    requires k.chan < |s.chans| == |a.chans| && Accounted(s, k.chan) && ChanEdgeEnabled(s, k.chan, e)
    requires (e == 3 && k.dir.Sending?) || (e == 8 && k.dir.Receiving?)
    requires Spec.SomeoneAt(a, Spec.Opposite(k)) <==> Count(s.gos, k.chan, Waits(Spec.Opposite(k).dir)) > 0
    requires a.chans[k.chan] == AbsChan(s.chans[k.chan])
    ensures Spec.Ready(a, k) && !a.chans[k.chan].closed
  {}

  /** What the confirmation of an arrived operation comes down to. */
  lemma HalfwayFacts(a: Spec.State, s: Config, e: nat, g: nat, h: nat, m: GoEdge, k: Case,
                     cases: seq<Case>, index: nat, hasDefault: bool, isRange: bool)
    requires Inv(s) && Enabled(s, Handshake(k.chan, e, h, m)) && ConfirmEdge(e, k.dir) && e != 16
    requires InStage(a, s, Arrived(g, k, cases, index, hasDefault, isRange))
    ensures h == g && (e == 3 || e == 8) && |a.chans| == |s.chans| && ReadyCase(a, k) && !a.chans[k.chan].closed
    ensures var s' := After(s, Handshake(k.chan, e, h, m));
      && Confirming(s, s', k.chan, e, g, k.dir) && s'.count == s.count
      && AbsGo(s'.chans, s'.gos[g]) == Spec.Resume(isRange, index, true)
      && (if k.dir.Sending? then s'.chans[k.chan].loc.ConfirmingA? else s'.chans[k.chan].loc.ConfirmingB?)
  {
    hide RangeFlags, OneTransaction, Accounted, BumpCases, Count, RoleAt, Unmade;
    ArrivedAccounts(a, s, g, k, cases, index, hasDefault, isRange);
    ServedFirst(a, s, e, g, h, m, k, cases, index, hasDefault, isRange);
    ConfirmOutcome(s, k.chan, e, h, m, k.dir);
    ReadyWhenServed(a, s, e, k);
    hide Enabled, After, Abs, Spec.Ready, Spec.Woken;
    ConfirmedChan(e, k.dir, s.chans[k.chan]);
  }

  lemma HalfwayStage(a: Spec.State, s: Config, e: nat, g: nat, h: nat, m: GoEdge, k: Case,
                     cases: seq<Case>, index: nat, hasDefault: bool, isRange: bool)
    requires Inv(s) && Enabled(s, Handshake(k.chan, e, h, m)) && ConfirmEdge(e, k.dir) && e != 16
    requires InStage(a, s, Arrived(g, k, cases, index, hasDefault, isRange))
    ensures InStage(a, After(s, Handshake(k.chan, e, h, m)), Halfway(g, k, cases, index, hasDefault, isRange))
  {
    hide Accounted, RangeFlags, OneTransaction, Unmade, Enabled, After, ReadyCase, Spec.Resume, Spec.Ready, AbsGo;
    var s' := After(s, Handshake(k.chan, e, h, m));
    HalfwayFacts(a, s, e, g, h, m, k, cases, index, hasDefault, isRange);
    ConfirmAbs(s, s', k.chan, e, g, k.dir);
    assert |s'.gos| == |s.gos| && |s'.chans| == |s.chans|;
    hide Confirming, EdgeAt, Take;
    assert Abs(s').chans == Itemized(a, k.chan, Delta(k.dir)).chans;
    assert Abs(s').routines == a.routines[g := Spec.Resume(isRange, index, true)];
  }

  lemma ClosedReceiveAbs(a: Spec.State, b: Spec.State, b': Spec.State, g: nat, k: Case, counter: int, before: Spec.Routine, after: Spec.Routine)
    requires g < |a.routines| && k.chan < |a.chans| && k.dir.Receiving? && Spec.Partner(a, k, -1)
    requires b == a.(routines := a.routines[g := before]) && a.chans[k.chan].items == counter + 1 >= 0
    requires b'.chans == Itemized(b, k.chan, if counter < 0 then 0 else -1).chans && b'.routines == b.routines[g := after]
    ensures b'.chans == Spec.Perform(a, k, -1).chans && b'.routines == a.routines[g := after]
    ensures Spec.Yields(a, k, -1) <==> counter >= 0
  {}

  /** What a receive from a closed channel comes down to. */
  lemma ClosedReceiveFacts(a: Spec.State, s: Config, g: nat, h: nat, m: GoEdge, k: Case,
                           cases: seq<Case>, index: nat, hasDefault: bool, isRange: bool)
    requires Inv(s) && Enabled(s, Handshake(k.chan, 16, h, m)) && k.dir.Receiving?
    requires InStage(a, s, Arrived(g, k, cases, index, hasDefault, isRange))
    ensures h == g && ReadyCase(a, k) && Spec.Partner(a, k, -1) && a.chans[k.chan].items == s.chans[k.chan].counter + 1 >= 0
    ensures var s' := After(s, Handshake(k.chan, 16, h, m));
      && Confirming(s, s', k.chan, 16, g, Receiving) && s'.count == s.count
      && AbsGo(s'.chans, s'.gos[g]) == Spec.Resume(isRange, index, s.chans[k.chan].counter >= 0)
  {
    hide RangeFlags, Accounted, OneTransaction, Take, BumpCases, Count, RoleAt, Unmade;
    ArrivedAccounts(a, s, g, k, cases, index, hasDefault, isRange);
    ServedFirst(a, s, 16, g, h, m, k, cases, index, hasDefault, isRange);
    ConfirmOutcome(s, k.chan, 16, h, m, k.dir);
    hide Enabled, After, Confirming;
    ClosedFacts(a, s, k);
    ClosedFlag(s, g, k.chan);
  }

  lemma ClosedReceiveStage(a: Spec.State, s: Config, g: nat, h: nat, m: GoEdge, k: Case,
                           cases: seq<Case>, index: nat, hasDefault: bool, isRange: bool)
    requires Inv(s) && Enabled(s, Handshake(k.chan, 16, h, m)) && k.dir.Receiving?
    requires InStage(a, s, Arrived(g, k, cases, index, hasDefault, isRange))
    ensures InStage(a, After(s, Handshake(k.chan, 16, h, m)), Done(Spec.Communicate(g, cases, hasDefault, isRange, index, -1)))
  {
    hide Accounted, RangeFlags, OneTransaction, Enabled, After, Spec.Ready, Spec.Resume, Spec.Yields, Spec.Partner;
    var s' := After(s, Handshake(k.chan, 16, h, m));
    var ch := s.chans[k.chan];
    ClosedReceiveFacts(a, s, g, h, m, k, cases, index, hasDefault, isRange);
    NothingServed(s, s', k.chan, 16, h, Receiving);
    hide Inv;
    ConfirmAbs(s, s', k.chan, 16, g, Receiving);
    hide Confirming;
    ClosedReceiveAbs(a, Abs(s), Abs(s'), g, k, ch.counter, Spec.Blocked([k], isRange), Spec.Resume(isRange, index, ch.counter >= 0));
    CommunicateDone(a, Abs(s'), Spec.Communicate(g, cases, hasDefault, isRange, index, -1));
  }

  /** A ready case was performed, and its routine goes on. */
  lemma CommunicateDone(a: Spec.State, b: Spec.State, op: Spec.Op)
    requires op.Communicate? && op.g < |a.routines| && a.routines[op.g].Free? && 0 <= op.choice < |op.cases|
    requires forall i :: 0 <= i < |op.cases| ==> op.cases[i].chan < |a.chans|
    requires var k := op.cases[op.choice];
      && ReadyCase(a, k) && Spec.Partner(a, k, op.partner)
      && b.chans == Spec.Perform(a, k, op.partner).chans && b.count == a.count
      && b.routines == Spec.Perform(a, k, op.partner).routines[op.g := Spec.Resume(op.isRange, op.choice, Spec.Yields(a, k, op.partner))]
    ensures Spec.Does(a, op, b)
  {
    assert Spec.Ready(a, op.cases[op.choice]);
  }

  lemma ClosedFacts(a: Spec.State, s: Config, k: Case)
    requires k.chan < |s.chans| == |a.chans| && k.dir.Receiving? && Accounted(s, k.chan) && s.chans[k.chan].loc.ConfirmingClosed?
    requires Spec.SomeoneAt(a, Spec.Opposite(k)) <==> Count(s.gos, k.chan, Waits(Spec.Opposite(k).dir)) > 0
    requires a.chans[k.chan] == AbsChan(s.chans[k.chan])
    ensures Spec.Ready(a, k) && Spec.Partner(a, k, -1) && s.chans[k.chan].buffer < 0
    ensures a.chans[k.chan].items == s.chans[k.chan].counter + 1 >= 0
  {}

  lemma ClosedFlag(s: Config, g: nat, c: nat)
    requires Inv(s) && g < |s.gos| && c < |s.chans| && s.chans[c].loc.ConfirmingClosed?
    ensures s.gos[g].RangeReceiving? && s.gos[g].chan == c ==> s.gos[g].ok == (s.chans[c].counter >= 0)
  {
    hide Accounted;
    if s.gos[g].RangeReceiving? && s.gos[g].chan == c {
      assert RangeFlag(s.chans[s.gos[g].chan], s.gos[g].ok);
    }
  }

  /** After the last confirmation of a statement no channel is being served. */
  lemma NothingServed(s: Config, s': Config, c: nat, e: nat, h: nat, dir: Dir)
    requires Valid(s) && OneTransaction(s) && Confirming(s, s', c, e, h, dir) && (e == 5 || e == 10 || e == 16)
    ensures !Serving(s') && !Polls(s')
  {
    assert IsCommitted(s.chans[c].loc);
    forall d | 0 <= d < |s'.chans| ensures !IsCommitted(s'.chans[d].loc) {
      assert d != c ==> !IsCommitted(s.chans[d].loc);
    }
    forall j | 0 <= j < |s'.gos| ensures !s'.gos[j].Pass1? {}
  }

  // ---------- The second half of a served operation ----------

  lemma HalfwayAccounts(a: Spec.State, s: Config, g: nat, k: Case, cases: seq<Case>, index: nat, hasDefault: bool, isRange: bool)
    requires Inv(s) && InStage(a, s, Halfway(g, k, cases, index, hasDefault, isRange))
    ensures Spec.SomeoneAt(a, Spec.Opposite(k)) <==> Count(s.gos, k.chan, Waits(Spec.Opposite(k).dir)) > 0
    ensures a.chans[k.chan].items == s.chans[k.chan].Items() - Delta(k.dir) && Accounted(s, k.chan)
  {
    hide Accounted, RangeFlags, OneTransaction;
    SomeoneElse(a, Abs(s), g, Spec.Opposite(k));
    BlockedBy(s, k.chan);
    assert Abs(s).chans[k.chan] == Itemized(a, k.chan, Delta(k.dir)).chans[k.chan];
  }

  /** With nobody blocked on the other side the buffer keeps, or gives up, one value. */
  lemma BufferedFacts(a: Spec.State, s: Config, e: nat, k: Case)
    requires k.chan < |s.chans| == |a.chans| && Accounted(s, k.chan) && ChanEdgeEnabled(s, k.chan, e) && EdgeAt(e).sync.NoSync?
    requires if k.dir.Sending? then s.chans[k.chan].loc.ConfirmingA? else s.chans[k.chan].loc.ConfirmingB?
    requires Spec.SomeoneAt(a, Spec.Opposite(k)) <==> Count(s.gos, k.chan, Waits(Spec.Opposite(k).dir)) > 0
    requires a.chans[k.chan].items == s.chans[k.chan].Items() - Delta(k.dir)
    ensures Spec.Partner(a, k, -1) && EdgeAt(e).dst.Idle?
    ensures k.dir.Receiving? ==> a.chans[k.chan].items > 0
  {}

  lemma BufferedStage(a: Spec.State, s: Config, e: nat, g: nat, k: Case, cases: seq<Case>, index: nat, hasDefault: bool, isRange: bool)
    requires Inv(s) && Enabled(s, ChanMove(k.chan, e)) && InStage(a, s, Halfway(g, k, cases, index, hasDefault, isRange))
    ensures InStage(a, After(s, ChanMove(k.chan, e)), Done(Spec.Communicate(g, cases, hasDefault, isRange, index, -1)))
  {
    hide RangeFlags, Accounted;
    var s' := After(s, ChanMove(k.chan, e));
    HalfwayAccounts(a, s, g, k, cases, index, hasDefault, isRange);
    BufferedFacts(a, s, e, k);
    forall d | 0 <= d < |s.chans| ensures !IsCommitted(s'.chans[d].loc) {}
    forall h | 0 <= h < |s.gos| ensures !s.gos[h].Pass1? {}
    hide Enabled, After, OneTransaction;
    QuietChanMove(s, s', k.chan, e);
    assert Spec.Yields(a, k, -1);
    hide Spec.Resume, Spec.Yields, Spec.Ready;
    CommunicateDone(a, Abs(s'), Spec.Communicate(g, cases, hasDefault, isRange, index, -1));
  }

  lemma HandOffFacts(a: Spec.State, s: Config, e: nat, h: nat, k: Case)
    requires k.chan < |s.chans| == |a.chans| && Accounted(s, k.chan) && ChanEdgeEnabled(s, k.chan, e)
    requires (e == 5 && k.dir.Sending?) || (e == 10 && k.dir.Receiving?)
    requires h < |a.routines| && Spec.BlockedAt(a.routines[h], Spec.Opposite(k))
    ensures Spec.Partner(a, k, h) && s.chans[k.chan].buffer >= 0 && EdgeAt(e).src == s.chans[k.chan].loc
  {
    assert Spec.SomeoneAt(a, Spec.Opposite(k));
  }

  lemma HandOffPartner(a: Spec.State, s: Config, e: nat, g: nat, h: nat, m: GoEdge, k: Case,
                       cases: seq<Case>, index: nat, hasDefault: bool, isRange: bool)
    requires Inv(s) && Enabled(s, Handshake(k.chan, e, h, m)) && (e == 5 || e == 10)
    requires InStage(a, s, Halfway(g, k, cases, index, hasDefault, isRange))
    ensures var s' := After(s, Handshake(k.chan, e, h, m)); var other := Spec.Opposite(k);
      && h != g && Confirming(s, s', k.chan, e, h, other.dir) && s'.count == s.count && Spec.Partner(a, k, h)
      && Spec.BlockedAt(a.routines[h], other)
      && AbsGo(s'.chans, s'.gos[h]) == Spec.Woken(a.routines[h], other, true)
      && ((e == 5 && k.dir.Sending?) || (e == 10 && k.dir.Receiving?))
  {
    hide RangeFlags, Accounted, OneTransaction;
    var other := Spec.Opposite(k);
    HalfwayAccounts(a, s, g, k, cases, index, hasDefault, isRange);
    ConfirmOutcome(s, k.chan, e, h, m, other.dir);
    hide After;
    assert h != g && a.routines[h] == Abs(s).routines[h];
    HandOffFacts(a, s, e, h, k);
    NotTriggeredHalfway(s, h, k);
  }

  lemma HandOffStage(a: Spec.State, s: Config, e: nat, g: nat, h: nat, m: GoEdge, k: Case,
                     cases: seq<Case>, index: nat, hasDefault: bool, isRange: bool)
    requires Inv(s) && Enabled(s, Handshake(k.chan, e, h, m)) && (e == 5 || e == 10)
    requires InStage(a, s, Halfway(g, k, cases, index, hasDefault, isRange))
    ensures InStage(a, After(s, Handshake(k.chan, e, h, m)), Done(Spec.Communicate(g, cases, hasDefault, isRange, index, h)))
  {
    hide RangeFlags, Accounted, OneTransaction, Enabled, After;
    var s' := After(s, Handshake(k.chan, e, h, m));
    var other := Spec.Opposite(k);
    HandOffPartner(a, s, e, g, h, m, k, cases, index, hasDefault, isRange);
    NothingServed(s, s', k.chan, e, h, other.dir);
    hide Inv;
    ConfirmAbs(s, s', k.chan, e, h, other.dir);
    hide Confirming;
    assert Spec.Yields(a, k, h);
    hide Spec.Resume, Spec.Yields, Spec.Ready, Spec.Woken, Spec.Partner;
    HandOffChans(a, s, s', e, k);
    CommunicateDone(a, Abs(s'), Spec.Communicate(g, cases, hasDefault, isRange, index, h));
  }

  lemma HandOffChans(a: Spec.State, s: Config, s': Config, e: nat, k: Case)
    requires k.chan < |s.chans| == |a.chans| && ((e == 5 && k.dir.Sending?) || (e == 10 && k.dir.Receiving?))
    requires Abs(s).chans == Itemized(a, k.chan, Delta(k.dir)).chans
    requires Abs(s').chans == Itemized(Abs(s), k.chan, ItemsDelta(e, s.chans[k.chan])).chans
    ensures Abs(s').chans == a.chans
  {}

  /** No select has its operation pending while the channel is halfway through another's. */
  lemma NotTriggeredHalfway(s: Config, h: nat, k: Case)
    requires Valid(s) && OneTransaction(s) && h < |s.gos| && k.chan < |s.chans|
    requires s.chans[k.chan].loc.ConfirmingA? || s.chans[k.chan].loc.ConfirmingB? || s.chans[k.chan].loc.Closing?
    ensures !s.gos[h].Triggered?
  {
    assert IsCommitted(s.chans[k.chan].loc);
  }

  // ---------- Closing ----------

  lemma ReleasedReceiver(a: Spec.State, s: Config, g: nat, c: nat, h: nat, m: GoEdge)
    requires Inv(s) && Enabled(s, Handshake(c, 12, h, m)) && InStage(a, s, Releasing(g, c))
    ensures var s' := After(s, Handshake(c, 12, h, m)); var k := Case(Receiving, c);
      && h != g && Confirming(s, s', c, 12, h, Receiving) && s'.count == s.count
      && Spec.BlockedAt(a.routines[h], k) && Abs(s).routines[h] == a.routines[h]
      && AbsGo(s'.chans, s'.gos[h]) == Spec.Woken(a.routines[h], k, false)
  {
    hide Accounted;
    var k := Case(Receiving, c);
    ConfirmOutcome(s, c, 12, h, m, Receiving);
    hide Enabled, After, Confirming;
    NotTriggeredHalfway(s, h, k);
    assert Released(a, Abs(s), g, c, h);
    ClosingBuffer(s, c);
    if s.gos[h].RangeReceiving? { assert RangeFlag(s.chans[s.gos[h].chan], s.gos[h].ok); }
    WokenWithoutValue(s, h, k);
  }

  lemma ReleaseStage(a: Spec.State, s: Config, g: nat, c: nat, h: nat, m: GoEdge)
    requires Inv(s) && Enabled(s, Handshake(c, 12, h, m)) && InStage(a, s, Releasing(g, c))
    ensures InStage(a, After(s, Handshake(c, 12, h, m)), Releasing(g, c))
  {
    hide Accounted, OneTransaction, RangeFlags, Enabled, After;
    var s' := After(s, Handshake(c, 12, h, m));
    ReleasedReceiver(a, s, g, c, h, m);
    hide Inv;
    ConfirmAbs(s, s', c, 12, h, Receiving);
    ConfirmedChan(12, Receiving, s.chans[c]);
    assert s'.chans[c].loc.Closing? && Abs(s').chans == Abs(s).chans;
    hide Confirming, Spec.Woken, Spec.BlockedAt, Abs, AbsGo, EdgeAt, Take, Released;
    OneMoreReleased(a, Abs(s), Abs(s'), g, c, h);
  }

  lemma OneMoreReleased(a: Spec.State, b: Spec.State, b': Spec.State, g: nat, c: nat, h: nat)
    requires g < |a.routines| == |b.routines| && h < |a.routines| && h != g
    requires |b'.routines| == |b.routines| && b'.routines == b.routines[h := b'.routines[h]]
    requires forall j :: 0 <= j < |a.routines| ==> Released(a, b, g, c, j)
    requires var k := Case(Receiving, c); Spec.BlockedAt(a.routines[h], k) && b'.routines[h] == Spec.Woken(a.routines[h], k, false)
    ensures forall j :: 0 <= j < |a.routines| ==> Released(a, b', g, c, j)
  {
    hide Spec.Woken, Spec.BlockedAt;
    forall j | 0 <= j < |a.routines| ensures Released(a, b', g, c, j) {
      assert Released(a, b, g, c, j);
    }
  }

  lemma ClosingBuffer(s: Config, c: nat)
    requires c < |s.chans| && Accounted(s, c) && s.chans[c].loc.Closing?
    ensures s.chans[c].buffer < 0
  {}

  /** Whether a value comes with it does not matter to a statement that is no range loop. */
  lemma WokenWithoutValue(s: Config, h: nat, k: Case)
    requires Valid(s) && h < |s.gos| && Spec.BlockedAt(Abs(s).routines[h], k)
    ensures !s.gos[h].RangeReceiving? ==> Spec.Woken(Abs(s).routines[h], k, true) == Spec.Woken(Abs(s).routines[h], k, false)
  {}

  lemma ClosedStage(a: Spec.State, s: Config, e: nat, g: nat, c: nat)
    requires Inv(s) && Enabled(s, ChanMove(c, e)) && InStage(a, s, Releasing(g, c))
    ensures InStage(a, After(s, ChanMove(c, e)), Done(Spec.CloseChan(g, c)))
  {
    hide RangeFlags, Accounted;
    var s' := After(s, ChanMove(c, e));
    assert e == 13;
    forall d | 0 <= d < |s.chans| ensures !IsCommitted(s'.chans[d].loc) {}
    forall h | 0 <= h < |s.gos| ensures !s.gos[h].Pass1? {}
    NobodyLeft(s, c, e);
    hide Enabled, After, OneTransaction;
    QuietChanMove(s, s', c, e);
    var k := Case(Receiving, c);
    forall h | 0 <= h < |s.gos| && h != g && Spec.BlockedAt(a.routines[h], k)
      ensures Abs(s).routines[h] == Spec.Woken(a.routines[h], k, false)
    {
      assert Released(a, Abs(s), g, c, h);
      assert !Spec.BlockedAt(Abs(s).routines[h], k);
    }
    forall h | 0 <= h < |s.gos|
      ensures Abs(s).routines[h] == if h == g then Spec.Free(ClosedChan)
                                    else if Spec.BlockedAt(a.routines[h], k) then Spec.Woken(a.routines[h], k, false)
                                    else a.routines[h]
    {
      assert Released(a, Abs(s), g, c, h);
    }
    assert Spec.Does(a, Spec.CloseChan(g, c), Abs(s'));
  }

  lemma NobodyLeft(s: Config, c: nat, e: nat)
    requires Valid(s) && c < |s.chans| && Accounted(s, c) && s.chans[c].loc.Closing? && ChanEdgeEnabled(s, c, e) && EdgeAt(e).sync.NoSync?
    ensures !Spec.SomeoneAt(Abs(s), Case(Receiving, c))
  {
    BlockedBy(s, c);
  }

  // ---------- Whole statements ----------

  /** The step turns a channel bad. */
  predicate TurnsBad(st: Step) { st.Handshake? && 1 <= st.e <= EDGE_COUNT && EdgeAt(st.e).dst.Bad? }

  lemma FirstStage(s: Config, st: Step, s': Config) returns (stage: Stage)
    requires Inv(s) && !SomeCommitted(s) && Next(s, st, s') && !TurnsBad(st)
    ensures InStage(Abs(s), s', stage) && Of(st, s', stage)
  {
    hide Accounted, RangeFlags, OneTransaction, InStage;
    match st {
      case ChanMove(c, e) => assert false;
      case GoMove(g, m) =>
        assert !GoCommitted(s.gos[g]);
        if m.EnterSelect? { EnterSelectStage(s, g, m); stage := Polling(g); }
        else { MakeStage(s, g, m); stage := Done(Spec.Make(g, m.size)); }
      case Handshake(c, e, g, m) =>
        assert !EdgeAt(e).dst.Bad? && !IsCommitted(s.chans[c].loc) && !GoCommitted(s.gos[g]);
        if e == 11 { CloseStage(s, c, g, m); stage := Releasing(g, c); }
        else { stage := TriggerStage(Abs(s), s, c, e, g, m, false); }
    }
  }

  /** While something is committed, a step stays within the statement that is under way, the one that st0 started. */
  lemma NextStage(a: Spec.State, s: Config, st: Step, s': Config, st0: Step, stage: Stage) returns (stage': Stage)
    requires Inv(s) && SomeCommitted(s) && Next(s, st, s') && !TurnsBad(st) && InStage(a, s, stage) && Of(st0, s, stage)
    ensures InStage(a, s', stage') && Of(st0, s', stage')
  {
    hide Inv, InStage, Of;
    match st {
      case ChanMove(c, e) =>
        assert IsCommitted(s.chans[c].loc);
        stage' := ChanMoveStage(a, s, c, e, st0, stage);
      case GoMove(g, m) =>
        assert GoCommitted(s.gos[g]);
        if m.EnterBody? || m.ExitRange? {
          RangeEndStage(a, s, g, m, stage);
          RangeEndOf(a, s, g, m, st0, stage);
          stage' := stage;
        }
        else { stage' := LeaveSelectStage(a, s, g, m, st0, stage); }
      case Handshake(c, e, h, m) =>
        assert !EdgeAt(e).dst.Bad?;
        if e == 1 || e == 6 || e == 15 { stage' := PollTriggerStage(a, s, c, e, h, m, st0, stage); }
        else { stage' := ConfirmStage(a, s, c, e, h, m, st0, stage); }
    }
  }

  lemma RangeEndOf(a: Spec.State, s: Config, g: nat, m: GoEdge, st0: Step, stage: Stage)
    requires Valid(s) && Enabled(s, GoMove(g, m)) && (m.EnterBody? || m.ExitRange?) && InStage(a, s, stage) && Of(st0, s, stage)
    ensures Of(st0, After(s, GoMove(g, m)), stage)
  {
    hide Starts, Begins, Abs, Spec.Does, Released;
    assert s.gos[g].RangeReceived?;
    assert After(s, GoMove(g, m)).gos == s.gos[g := After(s, GoMove(g, m)).gos[g]];
  }

  lemma LeaveSelectStage(a: Spec.State, s: Config, g: nat, m: GoEdge, st0: Step, stage: Stage) returns (stage': Stage)
    requires Inv(s) && Enabled(s, GoMove(g, m)) && s.gos[g].Pass1? && InStage(a, s, stage) && Of(st0, s, stage)
    ensures InStage(a, After(s, GoMove(g, m)), stage') && Of(st0, After(s, GoMove(g, m)), stage')
  {
    hide Accounted, RangeFlags;
    assert m.TakeDefault? || m.Park?;
    PollingStageOnly(a, s, g, stage);
    hide OneTransaction;
    NothingReadyStage(a, s, g, m);
    stage' := Done(Spec.Communicate(g, s.gos[g].cases, m.TakeDefault?, false, -1, -1));
  }

  /** While a select polls, its polling is all that is under way. */
  lemma PollingStageOnly(a: Spec.State, s: Config, g: nat, stage: Stage)
    requires Inv(s) && g < |s.gos| && s.gos[g].Pass1? && InStage(a, s, stage)
    ensures stage == Polling(g)
  {
    hide Accounted, RangeFlags;
    assert Polls(s);
    assert forall c :: 0 <= c < |s.chans| ==> !IsCommitted(s.chans[c].loc);
  }

  lemma PollTriggerStage(a: Spec.State, s: Config, c: nat, e: nat, g: nat, m: GoEdge, st0: Step, stage: Stage)
    returns (stage': Stage)
    requires Inv(s) && SomeCommitted(s) && Enabled(s, Handshake(c, e, g, m)) && (e == 1 || e == 6 || e == 15) && InStage(a, s, stage)
    requires Of(st0, s, stage)
    ensures InStage(a, After(s, Handshake(c, e, g, m)), stage') && Of(st0, After(s, Handshake(c, e, g, m)), stage')
  {
    hide Accounted, RangeFlags, OneTransaction;
    assert s.gos[g].Pass1? && m.TriggerCase?;
    PollingStageOnly(a, s, g, stage);
    stage' := TriggerStage(a, s, c, e, g, m, s.gos[g].hasDefault);
  }

  /** The channel being served is the one of the current stage. */
  lemma ServedChannel(a: Spec.State, s: Config, c: nat, stage: Stage)
    requires Inv(s) && c < |s.chans| && IsCommitted(s.chans[c].loc) && InStage(a, s, stage)
    ensures stage.Arrived? || stage.Halfway? ==> stage.k.chan == c
    ensures stage.Releasing? ==> stage.chan == c
    ensures stage.Arrived? || stage.Halfway? || stage.Releasing?
  {
    hide Accounted, RangeFlags;
  }

  lemma ChanMoveStage(a: Spec.State, s: Config, c: nat, e: nat, st0: Step, stage: Stage) returns (stage': Stage)
    requires Inv(s) && Enabled(s, ChanMove(c, e)) && IsCommitted(s.chans[c].loc) && InStage(a, s, stage) && Of(st0, s, stage)
    ensures InStage(a, After(s, ChanMove(c, e)), stage') && Of(st0, After(s, ChanMove(c, e)), stage')
  {
    hide Accounted, RangeFlags, OneTransaction, After;
    ServedChannel(a, s, c, stage);
    match stage {
      case Arrived(g, k, cases, index, hasDefault, isRange) =>
        BlocksStage(a, s, e, g, k, cases, index, hasDefault, isRange);
        stage' := Done(Spec.Communicate(g, cases, false, isRange, -1, -1));
      case Halfway(g, k, cases, index, hasDefault, isRange) =>
        BufferedStage(a, s, e, g, k, cases, index, hasDefault, isRange);
        stage' := Done(Spec.Communicate(g, cases, hasDefault, isRange, index, -1));
      case Releasing(g, _) =>
        ClosedStage(a, s, e, g, c);
        stage' := Done(Spec.CloseChan(g, c));
    }
  }

  /** A communication that has arrived stays the one that was begun. */
  lemma StillBegun(st0: Step, s: Config, s': Config, stage: Stage, partner: int)
    requires (stage.Arrived? || stage.Halfway?) && Of(st0, s, stage)
    ensures Of(st0, s', Halfway(stage.g, stage.k, stage.cases, stage.index, stage.hasDefault, stage.isRange))
    ensures Of(st0, s', Done(Spec.Communicate(stage.g, stage.cases, stage.hasDefault, stage.isRange, stage.index, partner)))
  {
  }

  lemma StillReleasing(st0: Step, s: Config, s': Config, stage: Stage)
    requires stage.Releasing? && Of(st0, s, stage)
    ensures Of(st0, s', stage) && Of(st0, s', Done(Spec.CloseChan(stage.g, stage.chan)))
  {
  }

  /** Which edge confirms at which stage. */
  lemma ServedEdge(a: Spec.State, s: Config, c: nat, e: nat, h: nat, m: GoEdge, stage: Stage)
    requires Inv(s) && SomeCommitted(s) && Enabled(s, Handshake(c, e, h, m)) && InStage(a, s, stage)
    requires e != 1 && e != 6 && e != 15 && !EdgeAt(e).dst.Bad?
    ensures stage.Arrived? ==> stage.k.chan == c && ConfirmEdge(e, stage.k.dir) && (e == 16 ==> stage.k.dir.Receiving?)
    ensures stage.Halfway? ==> stage.k.chan == c && (e == 5 || e == 10)
    ensures stage.Releasing? ==> stage.chan == c && e == 12
    ensures stage.Arrived? || stage.Halfway? || stage.Releasing?
  {
    hide Accounted, RangeFlags, OneTransaction, After;
    assert e != 11 && IsCommitted(s.chans[c].loc);
    ServedChannel(a, s, c, stage);
    hide Inv, Abs, OpOf, Released, Spec.SomeoneAt, ReadyCase, Itemized;
  }

  lemma ConfirmStage(a: Spec.State, s: Config, c: nat, e: nat, h: nat, m: GoEdge, st0: Step, stage: Stage) returns (stage': Stage)
    requires Inv(s) && SomeCommitted(s) && Enabled(s, Handshake(c, e, h, m)) && InStage(a, s, stage) && Of(st0, s, stage)
    requires e != 1 && e != 6 && e != 15 && !EdgeAt(e).dst.Bad?
    ensures InStage(a, After(s, Handshake(c, e, h, m)), stage') && Of(st0, After(s, Handshake(c, e, h, m)), stage')
  {
    ServedEdge(a, s, c, e, h, m, stage);
    hide Inv, After, Enabled, EdgeAt, InStage, Of, SomeCommitted, Holds;
    if !stage.Releasing? { StillBegun(st0, s, After(s, Handshake(c, e, h, m)), stage, if stage.Halfway? then h else -1); }
    match stage {
      case Arrived(g, k, cases, index, hasDefault, isRange) =>
        if e == 16 {
          ClosedReceiveStage(a, s, g, h, m, k, cases, index, hasDefault, isRange);
          stage' := Done(Spec.Communicate(g, cases, hasDefault, isRange, index, -1));
        } else {
          HalfwayStage(a, s, e, g, h, m, k, cases, index, hasDefault, isRange);
          stage' := Halfway(g, k, cases, index, hasDefault, isRange);
        }
      case Halfway(g, k, cases, index, hasDefault, isRange) =>
        HandOffStage(a, s, e, g, h, m, k, cases, index, hasDefault, isRange);
        stage' := Done(Spec.Communicate(g, cases, hasDefault, isRange, index, h));
      case Releasing(g, _) =>
        ReleaseStage(a, s, g, c, h, m);
        StillReleasing(st0, s, After(s, Handshake(c, e, h, m)), stage);
        stage' := stage;
    }
  }

  // ---------- Statements that panic ----------

  /** The step turns the channel bad that the statement closes or chooses to send to. */
  predicate Fails(st: Step, op: Spec.Op) {
    && TurnsBad(st) && st.g == op.g
    && match op
       case Communicate(_, cases, _, _, choice, _) =>
         0 <= choice < |cases| && cases[choice] == Case(Sending, st.c) && (st.m.TriggerCase? ==> st.m.index == choice)
       case CloseChan(_, c) => st.c == c && st.m == StartClose(c)
       case Make(_, _) => false
  }

  /** A statement that turns a channel bad at once. */
  lemma FirstPanics(s: Config, st: Step) returns (op: Spec.Op)
    requires Inv(s) && !SomeCommitted(s) && Enabled(s, st) && TurnsBad(st)
    ensures Spec.Panics(Abs(s), op) && Starts(st, op) && Fails(st, op)
  {
    hide Accounted, RangeFlags, OneTransaction, Unmade;
    var g, c, m := st.g, st.c, st.m;
    assert !GoCommitted(s.gos[g]) && s.gos[g].Running?;
    ClosedBuffer(s, c);
    if m.StartClose? {
      op := Spec.CloseChan(g, c);
      if s.chans[c].buffer >= 0 {
        RestAccount(s, c);
        BlockedBy(s, c);
      }
    } else {
      assert st.e == 17 && m.StartOp? && m.op == Case(Sending, c);
      op := Spec.Communicate(g, [m.op], false, false, 0, -1);
    }
  }

  /** A select that chooses to send to a closed channel. */
  lemma NextPanics(a: Spec.State, s: Config, st: Step, st0: Step, stage: Stage) returns (op: Spec.Op)
    requires Inv(s) && SomeCommitted(s) && Enabled(s, st) && TurnsBad(st) && InStage(a, s, stage) && Of(st0, s, stage)
    ensures Spec.Panics(a, op) && Starts(st0, op) && Fails(st, op)
  {
    hide Accounted, RangeFlags, OneTransaction, Unmade;
    var g, c, m := st.g, st.c, st.m;
    assert !IsCommitted(s.chans[c].loc) && s.gos[g].Pass1? && m.TriggerCase?;
    PollingStageOnly(a, s, g, stage);
    ClosedBuffer(s, c);
    assert ValidGo(s.gos[g], MadeCount(s));
    op := Spec.Communicate(g, s.gos[g].cases, s.gos[g].hasDefault, false, m.index, -1);
    assert Abs(s).chans[c].closed && a.chans == Abs(s).chans;
  }

  // ---------- Whole runs ----------

  /** From one configuration without committed locations to the next, the network performs exactly one statement of Go's
      channel semantics, the one that its first step starts, and every range loop in it gets on as Go says; or it turns a
      channel bad, and that statement panics in Go. Other channels may be bad, as long as no select is stuck at one. */
  lemma StatementsAreAtomic(run: seq<Config>, steps: seq<Step>, i: nat, j: nat) returns (op: Spec.Op)
    requires IsRun(run, steps) && i < j < |run| && Valid(run[i]) && NoStuckSelect(run[i])
    requires !SomeCommitted(run[i]) && !SomeCommitted(run[j])
    requires forall l :: i < l < j ==> SomeCommitted(run[l])
    ensures Starts(steps[i], op)
    ensures NoneTurnsBad(steps, i, j) ==> Spec.Does(Abs(run[i]), op, Abs(run[j]))
    ensures !NoneTurnsBad(steps, i, j) ==> Spec.Panics(Abs(run[i]), op) && exists l :: i <= l < j && Fails(steps[l], op)
  {
    hide Inv, InStage, SomeCommitted, Starts, Of, Fails;
    if NoneTurnsBad(steps, i, j) {
      var stage := StageAfter(run, steps, i, j);
      op := RestIsDone(Abs(run[i]), run[j], steps[i], stage);
    } else {
      op := PanicAfter(run, steps, i, j);
    }
  }

  lemma RestIsDone(a: Spec.State, s: Config, st0: Step, stage: Stage) returns (op: Spec.Op)
    requires InStage(a, s, stage) && Of(st0, s, stage) && !SomeCommitted(s)
    ensures Spec.Does(a, op, Abs(s)) && Starts(st0, op)
  {
    assert !Serving(s);
    assert forall g :: 0 <= g < |s.gos| ==> !GoCommitted(s.gos[g]);
    op := stage.op;
  }

  predicate NoneTurnsBad(steps: seq<Step>, i: nat, j: nat)
    requires j <= |steps|
  {
    forall l :: i <= l < j ==> !TurnsBad(steps[l])
  }

  lemma StageAfter(run: seq<Config>, steps: seq<Step>, i: nat, j: nat) returns (stage: Stage)
    requires IsRun(run, steps) && i < j < |run| && Valid(run[i]) && NoStuckSelect(run[i]) && !SomeCommitted(run[i])
    requires NoneTurnsBad(steps, i, j) && forall l :: i < l < j ==> SomeCommitted(run[l])
    ensures InStage(Abs(run[i]), run[j], stage) && Of(steps[i], run[j], stage) && Inv(run[j])
  {
    hide Inv, InStage, Of;
    assert Next(run[j - 1], steps[j - 1], run[j]);
    if i + 1 == j {
      RunKeepsInv(run, steps, i);
      stage := FirstStage(run[i], steps[i], run[j]);
    } else {
      var before := StageAfter(run, steps, i, j - 1);
      stage := NextStage(Abs(run[i]), run[j - 1], steps[j - 1], run[j], steps[i], before);
    }
    StepKeepsInv(run[j - 1], steps[j - 1], run[j]);
  }

  lemma PanicAfter(run: seq<Config>, steps: seq<Step>, i: nat, j: nat) returns (op: Spec.Op)
    requires IsRun(run, steps) && i < j < |run| && Valid(run[i]) && NoStuckSelect(run[i]) && !SomeCommitted(run[i])
    requires !NoneTurnsBad(steps, i, j) && forall l :: i < l < j ==> SomeCommitted(run[l])
    ensures Spec.Panics(Abs(run[i]), op) && Starts(steps[i], op) && exists l :: i <= l < j && Fails(steps[l], op)
  {
    hide Inv, InStage, SomeCommitted, Starts, Of, Fails, TurnsBad, Spec.Panics, Enabled, After, Init, NoStuckSelect, Abs;
    assert Next(run[j - 1], steps[j - 1], run[j]);
    if !NoneTurnsBad(steps, i, j - 1) {
      op := PanicAfter(run, steps, i, j - 1);
    } else if i + 1 == j {
      RunKeepsInv(run, steps, i);
      op := FirstPanics(run[i], steps[i]);
    } else {
      var stage := StageAfter(run, steps, i, j - 1);
      op := NextPanics(Abs(run[i]), run[j - 1], steps[j - 1], steps[i], stage);
    }
  }
}
