/** When the network can go on from a configuration with something committed, in every run. */
module ChannelProgress {
  import opened ChannelAutomaton
  import opened ChannelNetwork
  import opened ChannelInvariant
  import opened ChannelSafety
  import opened ChannelTheorems
  import opened ChannelLedger

  // ---------- One thing at a time ----------

  /** What holds in every run, whatever is stuck or bad: at most one channel serves, or one select polls; nobody polls while a
      channel serves or a range loop has received; and whom a channel has just accepted waits there. */
  predicate Serial(s: Config) {
    && (forall c, d :: 0 <= c < |s.chans| && 0 <= d < |s.chans| && IsCommitted(s.chans[c].loc) && IsCommitted(s.chans[d].loc) ==> c == d)
    && (forall g, h :: 0 <= g < |s.gos| && 0 <= h < |s.gos| && s.gos[g].Pass1? && s.gos[h].Pass1? ==> g == h)
    && (forall g, c :: 0 <= g < |s.gos| && 0 <= c < |s.chans| && s.gos[g].Pass1? ==> !IsCommitted(s.chans[c].loc))
    && (forall g, h :: 0 <= g < |s.gos| && 0 <= h < |s.gos| && s.gos[g].Pass1? ==> !s.gos[h].RangeReceived?)
    && (forall c :: 0 <= c < |s.chans| ==> Accepted(s, c))
  }

  predicate Accepted(s: Config, c: nat)
    requires c < |s.chans|
  {
    && (s.chans[c].loc.NewSender? ==> BlockedCount(s, c, Sending) > 0)
    && (s.chans[c].loc.NewReceiver? || s.chans[c].loc.ConfirmingClosed? ==> BlockedCount(s, c, Receiving) > 0)
  }

  lemma InitSerial(s: Config)
    requires Init(s)
    ensures Serial(s)
  {
  }

  /** How the locations and goroutines change: channel c may, and goroutine g. */
  predicate OneMoved(s: Config, s': Config, c: int, g: int) {
    && |s'.chans| == |s.chans| && |s'.gos| == |s.gos|
    && (forall d :: 0 <= d < |s.chans| && d != c ==> s'.chans[d].loc == s.chans[d].loc)
    && (forall h :: 0 <= h < |s.gos| && h != g ==> s'.gos[h] == s.gos[h])
  }

  /** A step that leaves no channel serving whom it has just accepted. */
  lemma NobodyAccepted(s: Config, s': Config, c: int, g: int)
    requires Serial(s) && OneMoved(s, s', c, g)
    requires forall d :: 0 <= d < |s.chans| && d != c ==> !IsCommitted(s.chans[d].loc)
    requires 0 <= c < |s.chans| ==> !s'.chans[c].loc.NewSender? && !s'.chans[c].loc.NewReceiver? && !s'.chans[c].loc.ConfirmingClosed?
    requires 0 <= g < |s.gos| && s'.gos[g].Pass1? ==>
               && (forall h :: 0 <= h < |s.gos| ==> !GoCommitted(s.gos[h]))
               && (forall d :: 0 <= d < |s.chans| ==> !IsCommitted(s'.chans[d].loc))
    requires 0 <= g < |s.gos| && s'.gos[g].RangeReceived? ==> forall h :: 0 <= h < |s.gos| ==> !s.gos[h].Pass1?
    requires 0 <= c < |s.chans| && IsCommitted(s'.chans[c].loc) ==> forall h :: 0 <= h < |s.gos| ==> !s'.gos[h].Pass1?
    ensures Serial(s')
  {
    hide BlockedCount;
  }

  lemma ChanMoveSerial(s: Config, c: nat, e: nat)
    requires Valid(s) && Serial(s) && Enabled(s, ChanMove(c, e))
    ensures Serial(After(s, ChanMove(c, e)))
  {
    hide Accepted;
    assert IsCommitted(s.chans[c].loc) && !IsCommitted(EdgeAt(e).dst);
    NobodyAccepted(s, After(s, ChanMove(c, e)), c, -1);
  }

  lemma GoMoveSerial(s: Config, g: nat, m: GoEdge, s': Config)
    requires Valid(s) && Serial(s) && Next(s, GoMove(g, m), s')
    ensures Serial(s')
  {
    forall c | 0 <= c < |s.chans| ensures |s'.chans| == |s.chans| && s'.chans[c].loc == s.chans[c].loc {
      LocAfter(s, GoMove(g, m), s', c);
    }
    if m.EnterBody? || m.ExitRange? {
      RangeEndSerial(s, g, m, s');
    } else {
      StartOrLeave(s, g, m, s');
      hide Next, Accepted, Enabled, After;
      NobodyAccepted(s, s', -1, g);
    }
  }

  lemma StartOrLeave(s: Config, g: nat, m: GoEdge, s': Config)
    requires Valid(s) && Serial(s) && Next(s, GoMove(g, m), s') && !m.EnterBody? && !m.ExitRange?
    ensures |s'.gos| == |s.gos| && g < |s.gos| && s'.gos == s.gos[g := s'.gos[g]] && !s'.gos[g].RangeReceived?
    ensures forall d :: 0 <= d < |s.chans| ==> !IsCommitted(s.chans[d].loc)
    ensures s'.gos[g].Pass1? ==> forall h :: 0 <= h < |s.gos| ==> !GoCommitted(s.gos[h])
  {
    hide Accepted, GoUpdate;
  }

  lemma RangeEndSerial(s: Config, g: nat, m: GoEdge, s': Config)
    requires Valid(s) && Serial(s) && Next(s, GoMove(g, m), s') && (m.EnterBody? || m.ExitRange?)
    ensures Serial(s')
  {
    assert s'.chans == s.chans && s'.gos == s.gos[g := s'.gos[g]] && s'.gos[g].Running?;
    hide Next, Enabled, After, RoleAt;
    forall c | 0 <= c < |s.chans| ensures Accepted(s', c) {
      assert Accepted(s, c);
      assert RoleAt(s.gos[g], c).Absent? && RoleAt(s'.gos[g], c).Absent? by { EndsAbsent(s.gos[g], s'.gos[g], c); }
      CountsAfter(s.gos, g, s'.gos[g], c);
    }
  }

  lemma EndsAbsent(go: Go, go': Go, c: nat)
    requires go.RangeReceived? && go'.Running?
    ensures RoleAt(go, c).Absent? && RoleAt(go', c).Absent?
  {
  }

  /** A handshake that triggers a channel, closes it or turns it bad. */
  lemma ArrivalSerial(s: Config, c: nat, e: nat, g: nat, m: GoEdge, s': Config)
    requires Ledger(s) && Serial(s) && Next(s, Handshake(c, e, g, m), s')
    requires e == 1 || e == 6 || e == 11 || e == 14 || e == 15 || e == 17 || e == 18
    ensures Serial(s')
  {
    hide Ledger, Accepted, Take, GoUpdate;
    assert Valid(s) by { LedgerValid(s); }
    assert s'.gos == s.gos[g := s'.gos[g]] && !s'.gos[g].Pass1? && !s'.gos[g].RangeReceived?;
    assert forall d :: 0 <= d < |s.chans| ==> !IsCommitted(s.chans[d].loc);
    assert forall h :: 0 <= h < |s.gos| ==> !s'.gos[h].Pass1?;
    forall d | 0 <= d < |s.chans|
      ensures |s'.chans| == |s.chans| && s'.chans[d].loc == if d == c then EdgeAt(e).dst else s.chans[d].loc
    {
      LocAfter(s, Handshake(c, e, g, m), s', d);
    }
    AcceptedAt(s, c, e, g, m, s');
    hide Next, Enabled, After, Valid;
    forall d | 0 <= d < |s.chans| ensures Accepted(s', d) {
      if d != c { NoneAccepted(s', d); }
    }
  }

  lemma LedgerValid(s: Config)
    requires Ledger(s)
    ensures Valid(s)
  {
  }

  lemma NoneAccepted(s: Config, c: nat)
    requires c < |s.chans| && !IsCommitted(s.chans[c].loc)
    ensures Accepted(s, c)
  {
  }

  /** The goroutine that triggers a channel waits there. */
  lemma AcceptedAt(s: Config, c: nat, e: nat, g: nat, m: GoEdge, s': Config)
    requires Ledger(s) && Next(s, Handshake(c, e, g, m), s')
    requires e == 1 || e == 6 || e == 11 || e == 14 || e == 15 || e == 17 || e == 18
    ensures c < |s'.chans| && Accepted(s', c)
  {
    hide RoleAt, Take, GoUpdate;
    LocAfter(s, Handshake(c, e, g, m), s', c);
    if e == 1 || e == 6 || e == 15 {
      var dir: Dir := if e == 1 then Sending else Receiving;
      BookedOpen(s, c);
      TriggerRoles(s, c, e, g, m, dir);
      MemberCounts(s'.gos, c, g);
    }
  }

  /** A confirmation: the channel that gives it is the one that serves. */
  lemma ConfirmSerial(s: Config, c: nat, e: nat, g: nat, m: GoEdge, s': Config)
    requires Valid(s) && Serial(s) && Next(s, Handshake(c, e, g, m), s')
    requires e == 3 || e == 5 || e == 8 || e == 10 || e == 12 || e == 16
    ensures Serial(s')
  {
    hide Accepted, Take, GoUpdate;
    assert IsCommitted(s.chans[c].loc);
    assert s'.gos == s.gos[g := s'.gos[g]] && !s'.gos[g].Pass1?;
    forall d | 0 <= d < |s.chans|
      ensures |s'.chans| == |s.chans| && s'.chans[d].loc == if d == c then EdgeAt(e).dst else s.chans[d].loc
    {
      LocAfter(s, Handshake(c, e, g, m), s', d);
    }
    hide Next, Enabled, After, Valid;
    NobodyAccepted(s, s', c, g);
  }

  lemma StepKeepsSerial(s: Config, st: Step, s': Config)
    requires Ledger(s) && Serial(s) && Next(s, st, s')
    ensures Serial(s')
  {
    hide Serial, Ledger, After, Enabled;
    LedgerValid(s);
    match st {
      case ChanMove(c, e) => ChanMoveSerial(s, c, e);
      case GoMove(g, m) => GoMoveSerial(s, g, m, s');
      case Handshake(c, e, g, m) =>
        HandshakeEdges(s, c, e, g, m);
        if e == 3 || e == 5 || e == 8 || e == 10 || e == 12 || e == 16 { ConfirmSerial(s, c, e, g, m, s'); }
        else { ArrivalSerial(s, c, e, g, m, s'); }
    }
  }

  lemma HandshakeEdges(s: Config, c: nat, e: nat, g: nat, m: GoEdge)
    requires Valid(s) && Enabled(s, Handshake(c, e, g, m))
    ensures e in [1, 3, 5, 6, 8, 10, 11, 12, 14, 15, 16, 17, 18]
  {
  }

  lemma {:induction false} RunKeepsSerial(run: seq<Config>, steps: seq<Step>, k: nat)
    requires IsRun(run, steps) && k < |run|
    ensures Serial(run[k])
  {
    hide Ledger, Serial, Next;
    if k == 0 {
      InitSerial(run[0]);
    } else {
      RunKeepsSerial(run, steps, k - 1);
      RunKeepsLedger(run, steps, k - 1);
      assert Next(run[k - 1], steps[k - 1], run[k]);
      StepKeepsSerial(run[k - 1], steps[k - 1], run[k]);
    }
  }

  // ---------- What stops the network ----------

  /** A channel that has to be confirmed by somebody on the other side, where nobody waits: its counter speaks of somebody who
      is not there. */
  predicate Forsaken(s: Config, c: nat) {
    c < |s.chans| && (forall g :: 0 <= g < |s.gos| ==> !s.gos[g].RangeReceived?)
    && var ch := s.chans[c];
       || (ch.loc.ConfirmingA? && ch.counter <= 0 && BlockedCount(s, c, Receiving) == 0)
       || (ch.loc.ConfirmingB? && ch.counter >= ch.buffer && BlockedCount(s, c, Sending) == 0)
       || (ch.loc.Closing? && ch.counter < 0 && BlockedCount(s, c, Receiving) == 0)
  }

  /** In every run: what is committed stops the whole network exactly if a select polls and only bad channels seem to serve
      it, or a channel awaits the confirmation of somebody who is not there. */
  lemma CommittedStuckExactly(run: seq<Config>, steps: seq<Step>)
    requires IsRun(run, steps) && SomeCommitted(run[|steps|])
    ensures var s := run[|steps|];
      && Valid(s)
      && ((forall st :: !Enabled(s, st)) <==> (exists g :: Cornered(s, g)) || exists c :: Forsaken(s, c))
  {
    hide Enabled, Cornered, Forsaken, SomeCommitted, Ledger, Serial, Valid;
    var s := run[|steps|];
    RunKeepsLedger(run, steps, |steps|);
    RunKeepsSerial(run, steps, |steps|);
    LedgerValid(s);
    if g :| Cornered(s, g) {
      forall st ensures !Enabled(s, st) { CorneredStuck(s, g, st); }
    } else if c :| Forsaken(s, c) {
      forall st ensures !Enabled(s, st) { ForsakenStuck(s, c, st); }
    } else {
      var st := MovesOn(s);
    }
  }

  lemma CorneredStuck(s: Config, g: nat, st: Step)
    requires Valid(s) && Serial(s) && Cornered(s, g)
    ensures !Enabled(s, st)
  {
    hide Accepted;
    assert GoCommitted(s.gos[g]) && SomeCommitted(s);
    assert forall c :: 0 <= c < |s.chans| ==> !IsCommitted(s.chans[c].loc);
    assert forall h :: 0 <= h < |s.gos| && GoCommitted(s.gos[h]) ==> h == g;
  }

  /** Who can confirm a channel waits there. */
  lemma ConfirmerWaits(s: Config, c: nat, e: nat, g: nat, m: GoEdge, dir: Dir)
    requires Valid(s) && c < |s.chans| && Enabled(s, Handshake(c, e, g, m)) && EdgeAt(e).sync == Emit(ConfirmPort(dir))
    ensures BlockedCount(s, c, dir) > 0
  {
    var go := s.gos[g];
    assert ValidGo(go, MadeCount(s));
    assert RoleAt(go, c) == Waits(dir) by {
      if go.Triggered? || go.Pass2? {
        assert go.cases[m.index].chan == c;
        assert Find(go.cases, c) == m.index;
      }
    }
    MemberCounts(s.gos, c, g);
  }

  lemma ForsakenStuck(s: Config, c: nat, st: Step)
    requires Valid(s) && Serial(s) && Forsaken(s, c)
    ensures !Enabled(s, st)
  {
    hide Accepted, BlockedCount, GoEnabled, GoSyncOf;
    assert IsCommitted(s.chans[c].loc) && SomeCommitted(s);
    assert forall h :: 0 <= h < |s.gos| ==> !GoCommitted(s.gos[h]);
    if Enabled(s, st) && st.Handshake? {
      assert st.c == c;
      ConfirmerWaits(s, c, st.e, st.g, st.m, if EdgeAt(st.e).sync == Emit(SenderConfirm) then Sending else Receiving);
    }
  }

  /** Otherwise something committed can move. */
  lemma MovesOn(s: Config) returns (st: Step)
    requires Ledger(s) && Serial(s) && SomeCommitted(s)
    requires Valid(s) && (forall g :: !Cornered(s, g)) && forall c :: !Forsaken(s, c)
    ensures Enabled(s, st)
  {
    hide Accepted, Cornered, Enabled, Forsaken;
    if g :| 0 <= g < |s.gos| && s.gos[g].RangeReceived? {
      assert !Cornered(s, g);
      NotCorneredRange(s, g);
      st := GoroutineMovesOn(s, g);
    } else if c :| 0 <= c < |s.chans| && IsCommitted(s.chans[c].loc) {
      assert !Forsaken(s, c);
      st := ServingMovesOn(s, c);
    } else {
      var g :| 0 <= g < |s.gos| && GoCommitted(s.gos[g]);
      assert !Cornered(s, g);
      forall c | 0 <= c < |s.chans| && !s.chans[c].loc.Bad? ensures Resting(s.chans[c]) {
        assert Booked(s, c) && !IsCommitted(s.chans[c].loc);
      }
      st := GoroutineMovesOn(s, g);
    }
  }

  lemma NotCorneredRange(s: Config, g: nat)
    requires g < |s.gos| && s.gos[g].RangeReceived?
    ensures GoCommitted(s.gos[g]) && !s.gos[g].Pass1?
  {
  }

  /** A channel that serves moves alone, or finds its partner. */
  lemma ServingMovesOn(s: Config, c: nat) returns (st: Step)
    requires Valid(s) && Serial(s) && c < |s.chans| && IsCommitted(s.chans[c].loc) && !Forsaken(s, c)
    requires forall g :: 0 <= g < |s.gos| ==> !s.gos[g].RangeReceived?
    ensures Enabled(s, st)
  {
    hide BlockedCount, GoEnabled, GoSyncOf;
    var ch := s.chans[c];
    assert Accepted(s, c) && SomeCommitted(s);
    var e, dir := ServingEdge(ch), ServedSide(ch);
    if EdgeAt(e).sync.NoSync? {
      st := ChanMove(c, e);
    } else {
      assert BlockedCount(s, c, dir) > 0;
      var g, m := PartnerCanConfirm(s, c, dir);
      st := Handshake(c, e, g, m);
    }
  }
}
