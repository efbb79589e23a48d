/** What the counter of an open channel adds up to in every run, even where a select is stuck. */
module ChannelLedger {
  import opened ChannelAutomaton
  import opened ChannelNetwork
  import opened ChannelInvariant
  import opened ChannelSafety
  import opened ChannelTheorems

  /** What a registration adds to the counter. */
  function Worth(role: Role): int { if role.Absent? then 0 else Delta(role.dir) }

  /** The counter is the stored values and everything that is registered, waiting or not. */
  predicate Balanced(s: Config, c: nat)
    requires c < |s.chans|
  {
    s.chans[c].counter == s.chans[c].Items()
                          + Count(s.gos, c, Waits(Sending)) - Count(s.gos, c, Waits(Receiving))
                          + Count(s.gos, c, Reserves(Sending)) - Count(s.gos, c, Reserves(Receiving))
  }

  predicate IsOpen(loc: Loc) { loc.Idle? || loc.NewSender? || loc.ConfirmingA? || loc.NewReceiver? || loc.ConfirmingB? }

  predicate Booked(s: Config, c: nat)
    requires c < |s.chans|
  {
    (IsOpen(s.chans[c].loc) <==> s.chans[c].buffer >= 0) && (s.chans[c].buffer >= 0 ==> Balanced(s, c))
  }

  predicate Ledger(s: Config) {
    && Valid(s) && Unmade(s)
    && forall c :: 0 <= c < |s.chans| ==> Booked(s, c)
  }

  /** The books of channel d after goroutine g moved. */
  lemma Rebooked(s: Config, s': Config, g: nat, d: nat)
    requires g < |s.gos| == |s'.gos| && s'.gos == s.gos[g := s'.gos[g]] && d < |s.chans| == |s'.chans|
    requires Booked(s, d) && s'.chans[d].buffer == s.chans[d].buffer
    requires IsOpen(s'.chans[d].loc) <==> IsOpen(s.chans[d].loc)
    requires s.chans[d].buffer >= 0 ==>
               s'.chans[d].counter - s'.chans[d].Items() - (s.chans[d].counter - s.chans[d].Items())
               == Worth(RoleAt(s'.gos[g], d)) - Worth(RoleAt(s.gos[g], d))
    ensures Booked(s', d)
  {
    hide RoleAt;
    CountsAfter(s.gos, g, s'.gos[g], d);
  }

  // ---------- Each kind of step ----------

  lemma ChanMoveBooked(s: Config, c: nat, e: nat)
    requires Ledger(s) && Enabled(s, ChanMove(c, e))
    ensures Ledger(After(s, ChanMove(c, e)))
  {
    var s' := After(s, ChanMove(c, e));
    var ch := s.chans[c];
    assert Booked(s, c);
    assert s'.chans[c] == ch.(loc := EdgeAt(e).dst) && !ch.loc.Idle? && (IsOpen(EdgeAt(e).dst) <==> IsOpen(ch.loc));
    FreshIsIdle(s, c);
    hide Enabled, After, EdgeAt, Take;
    forall d | 0 <= d < |s'.chans| ensures Booked(s', d) {
      assert Booked(s, d);
    }
  }

  lemma SelectMoveBooked(s: Config, g: nat, m: GoEdge)
    requires Ledger(s) && Enabled(s, GoMove(g, m)) && (m.EnterSelect? || m.TakeDefault? || m.Park?)
    ensures Ledger(After(s, GoMove(g, m)))
  {
    hide Booked, After, Enabled, SelectMove;
    var s' := After(s, GoMove(g, m));
    StepKeepsValid(s, GoMove(g, m), s');
    var cases := SelectMoveShape(s, g, m);
    hide Valid;
    forall d | 0 <= d < |s.chans| ensures |s'.chans| == |s.chans| && Booked(s', d) && (d >= MadeCount(s) ==> s'.chans[d] == s.chans[d]) {
      BookedAfterSelect(s, s', g, m, cases, d);
    }
    SelectKeepsSizes(s, s', g, m, cases);
  }

  lemma SelectKeepsSizes(s: Config, s': Config, g: nat, m: GoEdge, cases: seq<Case>)
    requires SelectMove(s, s', g, m, cases)
    ensures |s'.chans| == |s.chans| && MadeCount(s') == MadeCount(s)
  {
  }

  lemma BookedAfterSelect(s: Config, s': Config, g: nat, m: GoEdge, cases: seq<Case>, d: nat)
    requires SelectMove(s, s', g, m, cases) && d < |s.chans| && Booked(s, d)
    ensures |s'.chans| == |s.chans| && Booked(s', d) && (d >= MadeCount(s) ==> s'.chans[d] == s.chans[d])
  {
    hide Booked, RoleAt, SelectDelta, Valid;
    SelectDeltaAt(s, s', g, m, cases, d);
    Rebooked(s, s', g, d);
  }

  lemma RangeEndBooked(s: Config, g: nat, m: GoEdge)
    requires Ledger(s) && Enabled(s, GoMove(g, m)) && (m.EnterBody? || m.ExitRange?)
    ensures Ledger(After(s, GoMove(g, m)))
  {
    var s' := After(s, GoMove(g, m));
    StepKeepsValid(s, GoMove(g, m), s');
    assert s'.chans == s.chans && s'.gos == s.gos[g := s'.gos[g]];
    forall d | 0 <= d < |s'.chans| ensures Booked(s', d) {
      Rebooked(s, s', g, d);
    }
  }

  lemma MakeChanBooked(s: Config, g: nat, m: GoEdge)
    requires Ledger(s) && Enabled(s, GoMove(g, m)) && m.MakeChan?
    ensures Ledger(After(s, GoMove(g, m)))
  {
    var s' := After(s, GoMove(g, m));
    StepKeepsValid(s, GoMove(g, m), s');
    assert s' == AfterMakeChan(s, g, m.size) && s.gos[g].Running?;
    hide Enabled, After, Valid, Booked;
    forall d | 0 <= d < |s'.chans| ensures Booked(s', d) {
      if d == s.count {
        FreshBooked(s, s', g, m.size);
      } else {
        Rebooked(s, s', g, d);
      }
    }
  }

  lemma FreshBooked(s: Config, s': Config, g: nat, size: nat)
    requires Valid(s) && Unmade(s) && g < |s.gos| && s.gos[g].Running? && s.count < |s.chans|
    requires s' == AfterMakeChan(s, g, size)
    ensures Booked(s', s.count)
  {
    hide Valid;
    NobodyAt(s, s.count);
    CountsAfter(s.gos, g, s'.gos[g], s.count);
  }

  lemma ConfirmBooked(s: Config, c: nat, e: nat, g: nat, m: GoEdge, dir: Dir)
    requires Ledger(s) && Enabled(s, Handshake(c, e, g, m)) && ConfirmEdge(e, dir)
    ensures Ledger(After(s, Handshake(c, e, g, m)))
  {
    var s' := After(s, Handshake(c, e, g, m));
    StepKeepsValid(s, Handshake(c, e, g, m), s');
    ConfirmShape(s, c, e, g, m, dir);
    ConfirmUnmade(s, s', c, e, g, dir);
    hide Enabled, After, Valid, Unmade;
    forall d | 0 <= d < |s'.chans| ensures Booked(s', d) {
      assert RoleAt(s'.gos[g], d).Absent?;
      ConfirmBalance(s, s', c, e, g, dir, d);
    }
  }

  lemma ConfirmBalance(s: Config, s': Config, c: nat, e: nat, g: nat, dir: Dir, d: nat)
    requires Confirming(s, s', c, e, g, dir) && d < |s.chans| && Booked(s, d) && RoleAt(s'.gos[g], d).Absent?
    ensures Booked(s', d)
  {
    hide RoleAt, Count;
    Rebooked(s, s', g, d);
  }

  lemma TriggerBooked(s: Config, c: nat, e: nat, g: nat, m: GoEdge)
    requires Ledger(s) && Enabled(s, Handshake(c, e, g, m)) && (e == 1 || e == 6 || e == 15)
    ensures Ledger(After(s, Handshake(c, e, g, m)))
  {
    hide Booked, RoleAt, After, Take;
    var s' := After(s, Handshake(c, e, g, m));
    var dir: Dir := if e == 1 then Sending else Receiving;
    StepKeepsValid(s, Handshake(c, e, g, m), s');
    BookedOpen(s, c);
    TriggerRoles(s, c, e, g, m, dir);
    TriggerMade(s, c, e, g, m);
    hide Enabled, Valid;
    forall d | 0 <= d < |s.chans| ensures Booked(s', d) {
      BookedAfterTrigger(s, s', c, e, g, m, dir, d);
    }
  }

  lemma BookedOpen(s: Config, c: nat)
    requires c < |s.chans| && Booked(s, c)
    ensures s.chans[c].loc.Idle? ==> s.chans[c].buffer >= 0
  {
  }

  lemma BookedAfterTrigger(s: Config, s': Config, c: nat, e: nat, g: nat, m: GoEdge, dir: Dir, d: nat)
    requires (e == 1 && dir.Sending?) || ((e == 6 || e == 15) && dir.Receiving?)
    requires g < |s.gos| == |s'.gos| && s'.gos == s.gos[g := s'.gos[g]] && c < |s.chans| == |s'.chans| && d < |s.chans|
    requires s.chans[c].loc == EdgeAt(e).src && Booked(s, d)
    requires RoleAt(s'.gos[g], c) == Waits(dir) && RoleAt(s.gos[g], c) == (if m.TriggerCase? then Reserves(dir) else Absent)
    requires d != c ==> s'.chans[d] == s.chans[d] && RoleAt(s'.gos[g], d) == RoleAt(s.gos[g], d)
    requires s'.chans[c] == s.chans[c].(loc := EdgeAt(e).dst,
                                        counter := s.chans[c].counter + if m.TriggerCase? then 0 else Delta(dir))
    ensures Booked(s', d)
  {
    hide RoleAt, Booked;
    Rebooked(s, s', g, d);
  }

  lemma TriggerMade(s: Config, c: nat, e: nat, g: nat, m: GoEdge)
    requires Valid(s) && Enabled(s, Handshake(c, e, g, m))
    ensures c < MadeCount(s) == MadeCount(After(s, Handshake(c, e, g, m)))
  {
    assert ValidGo(s.gos[g], MadeCount(s));
  }

  /** Closing a channel, or sending to it when it is closed, leaves the other channels alone. */
  lemma EndBooked(s: Config, c: nat, e: nat, g: nat, m: GoEdge)
    requires Ledger(s) && Enabled(s, Handshake(c, e, g, m)) && (e == 11 || e == 14 || e == 17 || e == 18)
    ensures Ledger(After(s, Handshake(c, e, g, m)))
  {
    var s' := After(s, Handshake(c, e, g, m));
    StepKeepsValid(s, Handshake(c, e, g, m), s');
    TriggerMade(s, c, e, g, m);
    EndShape(s, c, e, g, m);
    hide Enabled, After, Valid, RoleAt;
    forall d | 0 <= d < |s'.chans| ensures Booked(s', d) {
      if d != c {
        Rebooked(s, s', g, d);
      }
    }
  }

  lemma EndShape(s: Config, c: nat, e: nat, g: nat, m: GoEdge)
    requires Ledger(s) && Enabled(s, Handshake(c, e, g, m)) && (e == 11 || e == 14 || e == 17 || e == 18)
    ensures var s' := After(s, Handshake(c, e, g, m));
      && g < |s.gos| == |s'.gos| && s'.gos == s.gos[g := s'.gos[g]] && |s'.chans| == |s.chans|
      && !IsOpen(s'.chans[c].loc) && s'.chans[c].buffer < 0
      && forall d :: 0 <= d < |s.chans| && d != c ==> s'.chans[d] == s.chans[d] && RoleAt(s'.gos[g], d) == RoleAt(s.gos[g], d)
  {
    assert ValidGo(s.gos[g], MadeCount(s));
    assert Booked(s, c);
    if m.TriggerCase? {
      assert s.gos[g].cases[m.index].chan == c;
    }
  }

  // ---------- Every step, every run ----------

  lemma StepKeepsLedger(s: Config, st: Step, s': Config)
    requires Ledger(s) && Next(s, st, s')
    ensures Ledger(s')
  {
    hide Ledger, After;
    match st {
      case ChanMove(c, e) => ChanMoveBooked(s, c, e);
      case GoMove(g, m) =>
        if m.EnterBody? || m.ExitRange? { RangeEndBooked(s, g, m); }
        else if m.MakeChan? { MakeChanBooked(s, g, m); }
        else { SelectMoveBooked(s, g, m); }
      case Handshake(c, e, g, m) =>
        if e == 1 || e == 6 || e == 15 { TriggerBooked(s, c, e, g, m); }
        else if e == 11 || e == 14 || e == 17 || e == 18 { EndBooked(s, c, e, g, m); }
        else { ConfirmBooked(s, c, e, g, m, if e == 3 || e == 10 then Sending else Receiving); }
    }
  }

  lemma InitLedger(s: Config)
    requires Init(s)
    ensures Ledger(s)
  {
    forall c | 0 <= c < |s.chans| ensures Booked(s, c) {
      NoMember(s.gos, c, Waits(Sending));
      NoMember(s.gos, c, Waits(Receiving));
      NoMember(s.gos, c, Reserves(Sending));
      NoMember(s.gos, c, Reserves(Receiving));
    }
  }

  lemma {:induction false} RunKeepsLedger(run: seq<Config>, steps: seq<Step>, k: nat)
    requires IsRun(run, steps) && k < |run|
    ensures Ledger(run[k])
  {
    hide Ledger, Next;
    if k == 0 {
      InitLedger(run[0]);
    } else {
      RunKeepsLedger(run, steps, k - 1);
      assert Next(run[k - 1], steps[k - 1], run[k]);
      StepKeepsLedger(run[k - 1], steps[k - 1], run[k]);
    }
  }

  /** In every run, whatever is stuck, bad or under way: the counter of an open channel accounts for its stored values and
      those who are blocked exactly if as many selects have registered a send without choosing it as have registered a
      receive. */
  lemma AccountExactly(run: seq<Config>, steps: seq<Step>, c: nat)
    requires IsRun(run, steps) && c < |run[|steps|].chans| && run[|steps|].chans[c].buffer >= 0
    ensures var s := run[|steps|];
      s.chans[c].counter == s.chans[c].Items() + BlockedCount(s, c, Sending) - BlockedCount(s, c, Receiving)
      <==> Count(s.gos, c, Reserves(Sending)) == Count(s.gos, c, Reserves(Receiving))
  {
    RunKeepsLedger(run, steps, |steps|);
    assert Booked(run[|steps|], c);
  }
}
