module ChannelTheorems {
  // What holds in every run of the channel network, for any number of channels, goroutines and parked selects.

  import opened ChannelAutomaton
  import opened ChannelNetwork
  import opened ChannelInvariant
  import opened ChannelSafety

  lemma InitAccount(s: Config, c: nat)
    requires Init(s) && c < |s.chans|
    ensures Accounted(s, c)
  {
    hide Accounted, ChanOk;
    NoMember(s.gos, c, Waits(Sending));
    NoMember(s.gos, c, Waits(Receiving));
    NoMember(s.gos, c, Reserves(Sending));
    NoMember(s.gos, c, Reserves(Receiving));
    EmptyAccount(s, c);
  }

  lemma InitInv(s: Config)
    requires Init(s)
    ensures Inv(s) && NoBad(s)
  {
    hide Accounted;
    forall c | 0 <= c < |s.chans| ensures Accounted(s, c) { InitAccount(s, c); }
  }

  /** No edge leaves the bad location. */
  lemma BadStays(s: Config, st: Step, s': Config)
    requires Next(s, st, s') && NoBad(s')
    ensures NoBad(s)
  {
    forall c | 0 <= c < |s.chans| ensures !s.chans[c].loc.Bad? {
      LocAfter(s, st, s', c);
    }
  }

  /** Only the channel of an edge changes its location. */
  lemma LocAfter(s: Config, st: Step, s': Config, c: nat)
    requires Next(s, st, s') && c < |s.chans|
    ensures |s'.chans| == |s.chans|
    ensures s'.chans[c].loc == if !st.GoMove? && st.c == c then EdgeAt(st.e).dst else s.chans[c].loc
    ensures !st.GoMove? && st.c == c ==> s.chans[c].loc == EdgeAt(st.e).src
  {
    if !st.ChanMove? {
      var go := s.gos[st.g];
      assert ValidGo(go, MadeCount(s));
      match st.m {
        case EnterSelect(cases, _) => BumpAt(s.chans, cases, |cases|, -1, 1, c);
        case TakeDefault => BumpAt(s.chans, go.cases, |go.cases|, -1, -1, c);
        case ConfirmCase(i) =>
          BumpAt(s.chans[st.c := Take(EdgeAt(st.e), s.chans[st.c])], go.cases, |go.cases|, i, -1, c);
        case _ =>
      }
    }
  }

  /** A select that is stuck at a bad channel stays stuck. */
  lemma StuckStays(s: Config, st: Step, s': Config)
    requires Next(s, st, s') && Valid(s') && NoStuckSelect(s')
    ensures NoStuckSelect(s)
  {
    forall g | 0 <= g < |s.gos| && s.gos[g].Triggered?
      ensures !s.chans[s.gos[g].cases[s.gos[g].index].chan].loc.Bad?
    {
      var c := s.gos[g].cases[s.gos[g].index].chan;
      assert ValidGo(s.gos[g], MadeCount(s));
      if s.chans[c].loc.Bad? {
        LocAfter(s, st, s', c);
        StaysTriggered(s, st, s', g, c);
      }
    }
  }

  lemma StaysTriggered(s: Config, st: Step, s': Config, g: nat, c: nat)
    requires Next(s, st, s') && g < |s.gos| && s.gos[g].Triggered? && c < |s.chans| && s.chans[c].loc.Bad?
    requires s.gos[g].cases[s.gos[g].index].chan == c
    ensures |s'.gos| == |s.gos| && s'.gos[g] == s.gos[g]
  {
    assert ValidGo(s.gos[g], MadeCount(s));
  }

  /** No run ends because of a channel id. */
  lemma RunIsValid(run: seq<Config>, steps: seq<Step>, k: nat)
    requires IsRun(run, steps) && k < |run|
    ensures Valid(run[k])
  {
    if k > 0 {
      assert Next(run[k - 1], steps[k - 1], run[k]);
      StepKeepsValid(run[k - 1], steps[k - 1], run[k]);
    }
  }

  /** A select is stuck at a bad channel exactly if some step before was a select that chose to send to a closed
      channel. */
  lemma {:induction false} StuckExactly(run: seq<Config>, steps: seq<Step>, n: nat)
    requires IsRun(run, steps) && n < |run|
    ensures Valid(run[n])
    ensures NoStuckSelect(run[n]) <==> forall k :: 0 <= k < n ==> !SendsToClosed(steps[k])
    ensures NoStuckSelect(run[n]) ==> Inv(run[n])
  {
    hide Inv, NoStuckSelect, Next, Valid, SendsToClosed;
    RunIsValid(run, steps, n);
    if n == 0 {
      InitInv(run[0]);
      InvMeansNoneStuck(run[0]);
    } else {
      StuckExactly(run, steps, n - 1);
      assert Next(run[n - 1], steps[n - 1], run[n]);
      if NoStuckSelect(run[n - 1]) {
        StepKeepsInv(run[n - 1], steps[n - 1], run[n]);
      } else if NoStuckSelect(run[n]) {
        StuckStays(run[n - 1], steps[n - 1], run[n]);
      }
    }
  }

  lemma NoBadNoStuck(s: Config)
    requires Valid(s) && NoBad(s)
    ensures NoStuckSelect(s)
  {
    forall g | 0 <= g < |s.gos| && s.gos[g].Triggered?
      ensures !s.chans[s.gos[g].cases[s.gos[g].index].chan].loc.Bad?
    {
      assert ValidGo(s.gos[g], MadeCount(s));
    }
  }

  lemma RunKeepsInv(run: seq<Config>, steps: seq<Step>, k: nat)
    requires IsRun(run, steps) && k < |run| && Valid(run[k]) && NoStuckSelect(run[k])
    ensures Inv(run[k])
  {
    StuckExactly(run, steps, k);
  }

  /** Goroutines that wait to complete an operation on channel c, in a statement or a parked select. */
  function BlockedCount(s: Config, c: nat, dir: Dir): nat { Count(s.gos, c, Waits(dir)) }

  /** The account of one channel between statements. */
  predicate AtRest(ch: Chan, senders: nat, receivers: nat) {
    if ch.buffer >= 0 then
      && ch.buffer == ch.cap
      && senders == (if ch.counter > ch.buffer then ch.counter - ch.buffer else 0)
      && receivers == (if ch.counter < 0 then -ch.counter else 0)
      && ch.sent - ch.received == (if ch.counter < 0 then 0 else if ch.counter > ch.buffer then ch.buffer else ch.counter)
    else
      && senders == 0 && receivers == 0
      && 0 <= ch.counter == ch.sent - ch.received <= ch.cap
  }

  /** Whenever nothing is committed, the counter of a channel accounts for its buffered values and for everybody
      who is blocked, and senders and receivers never wait together. Other channels may be bad, as long as no
      select has chosen a case of one: such a select never takes back what it added to other counters. */
  lemma CounterMeansWaiters(run: seq<Config>, steps: seq<Step>, c: nat)
    requires IsRun(run, steps) && Valid(run[|steps|]) && NoStuckSelect(run[|steps|])
    requires var s := run[|steps|]; !SomeCommitted(s) && c < |s.chans| && !s.chans[c].loc.Bad?
    ensures var s := run[|steps|];
      && AtRest(s.chans[c], BlockedCount(s, c, Sending), BlockedCount(s, c, Receiving))
      && s.chans[c].counter == s.chans[c].Items() + BlockedCount(s, c, Sending) - BlockedCount(s, c, Receiving)
      && (BlockedCount(s, c, Sending) == 0 || BlockedCount(s, c, Receiving) == 0)
  {
    var s := run[|steps|];
    RunKeepsInv(run, steps, |steps|);
    RestAccount(s, c);
  }

  lemma RestAccount(s: Config, c: nat)
    requires Inv(s) && !SomeCommitted(s) && c < |s.chans| && !s.chans[c].loc.Bad?
    ensures AtRest(s.chans[c], BlockedCount(s, c, Sending), BlockedCount(s, c, Receiving))
  {
    NobodySelecting(s);
    NoReserver(s.gos, c);
    assert Accounted(s, c) && !IsCommitted(s.chans[c].loc);
  }

  // ---------- Committed locations are never stuck ----------

  /** The confirmation edge of a goroutine that waits at channel c. */
  function ConfirmEdgeOf(go: Go): GoEdge {
    match go
    case Pending(_) => ConfirmOp
    case RangeReceiving(_, _) => ConfirmRange
    case Triggered(_, i) => ConfirmCase(i)
    case _ => ConfirmOp
  }

  lemma PartnerCanConfirm(s: Config, c: nat, dir: Dir) returns (g: nat, m: GoEdge)
    requires Valid(s) && c < |s.chans| && BlockedCount(s, c, dir) > 0
    ensures GoEdgeEnabled(s, g, m)
    ensures GoSyncOf(s.gos[g], m, s.chans, MadeCount(s)) == On(c, ConfirmPort(dir), false)
  {
    g := SomeMember(s.gos, c, Waits(dir));
    m := WaiterCanConfirm(s, c, dir, g);
  }

  /** Whoever waits at a channel can be confirmed there. */
  lemma WaiterCanConfirm(s: Config, c: nat, dir: Dir, g: nat) returns (m: GoEdge)
    requires Valid(s) && c < |s.chans| && g < |s.gos| && RoleAt(s.gos[g], c) == Waits(dir)
    ensures GoEdgeEnabled(s, g, m)
    ensures GoSyncOf(s.gos[g], m, s.chans, MadeCount(s)) == On(c, ConfirmPort(dir), false)
  {
    var go := s.gos[g];
    assert ValidGo(go, MadeCount(s));
    m := if go.Pass2? then ConfirmCase(Find(go.cases, c)) else ConfirmEdgeOf(go);
  }

  /** Whatever is committed can move on, without a channel being bad. */
  lemma CommittedNeverStuck(run: seq<Config>, steps: seq<Step>) returns (st: Step)
    requires IsRun(run, steps) && NoBad(run[|steps|]) && SomeCommitted(run[|steps|])
    ensures Valid(run[|steps|]) && Enabled(run[|steps|], st)
  {
    var s := run[|steps|];
    RunIsValid(run, steps, |steps|);
    NoBadNoStuck(s);
    RunKeepsInv(run, steps, |steps|);
    st := CommittedMovesOn(s);
  }

  lemma CommittedMovesOn(s: Config) returns (st: Step)
    requires Inv(s) && SomeCommitted(s) && forall g :: 0 <= g < |s.gos| ==> !Cornered(s, g)
    ensures Enabled(s, st)
  {
    hide Accounted, RangeFlags, OneTransaction, Unmade, Enabled, Cornered;
    if c :| 0 <= c < |s.chans| && IsCommitted(s.chans[c].loc) {
      st := ChannelMovesOn(s, c);
    } else {
      var g :| 0 <= g < |s.gos| && GoCommitted(s.gos[g]);
      forall c | 0 <= c < |s.chans| && !s.chans[c].loc.Bad? ensures Resting(s.chans[c]) {
        ClosedBuffer(s, c);
      }
      st := GoroutineMovesOn(s, g);
    }
  }

  /** The edge that the guards leave to a committed channel, and whom it confirms if it does not move alone. */
  function ServingEdge(ch: Chan): nat {
    if ch.loc.NewSender? then (if ch.counter > ch.buffer then 2 else 3)
    else if ch.loc.ConfirmingA? then (if ch.counter > 0 then 4 else 5)
    else if ch.loc.NewReceiver? then (if ch.counter < 0 then 7 else 8)
    else if ch.loc.ConfirmingB? then (if ch.counter < ch.buffer then 9 else 10)
    else if ch.loc.Closing? then (if ch.counter >= 0 then 13 else 12)
    else 16
  }

  function ServedSide(ch: Chan): Dir { if ch.loc.NewSender? || ch.loc.ConfirmingB? then Sending else Receiving }

  /** What a committed channel can do next: an edge alone, or a confirmation that finds a partner. */
  lemma CommittedEdge(s: Config, c: nat) returns (e: nat, dir: Dir)
    requires c < |s.chans| && Accounted(s, c) && IsCommitted(s.chans[c].loc)
    ensures ChanEdgeEnabled(s, c, e)
    ensures EdgeAt(e).sync.NoSync? || (EdgeAt(e).sync == Emit(ConfirmPort(dir)) && BlockedCount(s, c, dir) > 0)
  {
    e, dir := ServingEdge(s.chans[c]), ServedSide(s.chans[c]);
  }

  lemma ChannelMovesOn(s: Config, c: nat) returns (st: Step)
    requires Inv(s) && c < |s.chans| && IsCommitted(s.chans[c].loc)
    ensures Enabled(s, st)
  {
    hide Accounted, RangeFlags, OneTransaction, EdgeAt;
    var e, dir := CommittedEdge(s, c);
    if EdgeAt(e).sync.NoSync? {
      st := ChanMove(c, e);
    } else {
      var g, m := PartnerCanConfirm(s, c, dir);
      st := Handshake(c, e, g, m);
    }
  }

  /** A negative buffer marks the closed part of the automaton. */
  lemma ClosedBuffer(s: Config, c: nat)
    requires c < |s.chans| && Accounted(s, c)
    ensures var ch := s.chans[c];
      if ch.loc.Bad? then true
      else if ch.buffer < 0 then ch.loc.Closing? || ch.loc.Closed? || ch.loc.ConfirmingClosed?
      else ch.loc.Idle? || ch.loc.NewSender? || ch.loc.ConfirmingA? || ch.loc.NewReceiver? || ch.loc.ConfirmingB?
  {}

  /** A polling select that has possible cases, but all of them at bad channels, which serve nobody. */
  predicate Cornered(s: Config, g: nat)
    requires Valid(s)
  {
    g < |s.gos| && s.gos[g].Pass1? && ValidCases(s.gos[g].cases, MadeCount(s)) && !NonePossible(s.gos[g].cases, s.chans)
    && forall i :: 0 <= i < |s.gos[g].cases| && Possible(s.gos[g].cases[i], s.chans) ==> s.chans[s.gos[g].cases[i].chan].loc.Bad?
  }

  /** A channel that is not bad is idle or closed while it serves nobody. */
  predicate Resting(ch: Chan) { ch.loc == if ch.buffer >= 0 then Idle else Closed }

  /** Any other polling select finds a channel that serves one of its possible cases, or leaves. */
  lemma GoroutineMovesOn(s: Config, g: nat) returns (st: Step)
    requires Valid(s) && g < |s.gos| && GoCommitted(s.gos[g]) && !Cornered(s, g)
    requires s.gos[g].Pass1? ==> forall c :: 0 <= c < |s.chans| && !s.chans[c].loc.Bad? ==> Resting(s.chans[c])
    ensures Enabled(s, st)
  {
    var go := s.gos[g];
    assert ValidGo(go, MadeCount(s));
    if go.RangeReceived? {
      st := GoMove(g, if s.chans[go.chan].buffer >= 0 || go.ok then EnterBody else ExitRange);
    } else if i :| 0 <= i < |go.cases| && Possible(go.cases[i], s.chans) && !s.chans[go.cases[i].chan].loc.Bad? {
      var k := go.cases[i];
      var e := if s.chans[k.chan].loc.Idle? then (if k.dir.Sending? then 1 else 6)
               else if k.dir.Sending? then 17 else 15;
      st := Handshake(k.chan, e, g, TriggerCase(i));
    } else {
      st := GoMove(g, if go.hasDefault then TakeDefault else Park);
    }
  }

  // ---------- The bad location ----------

  /** A channel turns bad exactly when it is closed a second time, closed while senders are blocked,
      or sent to after it was closed. */
  lemma BadExactly(s: Config, st: Step, s': Config, c: nat)
    requires Inv(s) && Next(s, st, s') && c < |s.chans| && !s.chans[c].loc.Bad?
    ensures |s'.chans| == |s.chans|
    ensures s'.chans[c].loc.Bad? <==>
      st.Handshake? && st.c == c &&
      ((st.m.StartClose? && (s.chans[c].buffer < 0 || BlockedCount(s, c, Sending) > 0)) ||
       (EdgeAt(st.e).sync == Await(SenderTrigger) && s.chans[c].buffer < 0))
  {
    hide Accounted, ChanOk, RangeFlags, OneTransaction, Unmade, After;
    LocAfter(s, st, s', c);
    if st.Handshake? && st.c == c {
      ClosedBuffer(s, c);
      if st.m.StartClose? { RestAccount(s, c); }
    }
  }
}
