/** Runs in which a bad channel does harm elsewhere. */
module ChannelExample {
  import opened ChannelAutomaton
  import opened ChannelNetwork
  import opened ChannelInvariant
  import opened ChannelTheorems
  import opened ChannelProgress

  // Channel 0 is closed, and goroutine 2 is blocked sending on channel 1. Goroutine 1 polls both with a select that
  // sends on channel 0 and receives from channel 1, sends, and is stuck from then on. Its receive still counts at
  // channel 1, so goroutine 3 blocks there as well, although goroutine 2 is waiting for it. Goroutine 4 polls channels
  // 1 and 2 with a select that finds a receiver at channel 1, but the confirmation goes to goroutine 2. The select is
  // left waiting for one, and what it added to the counter of channel 2 stays.

  const SPOILED: seq<Case> := [Case(Sending, 0), Case(Receiving, 1)]
  const MISLED: seq<Case> := [Case(Sending, 1), Case(Sending, 2)]

  const IDLE := Running(Started)

  /** The channels 0, 1 and 2, and the goroutines 0 to 4. */
  function At(a: Chan, b: Chan, c: Chan, g: Go, h: Go, i: Go, j: Go, k: Go): Config {
    Config([a, b, c], 3, [g, h, i, j, k], false)
  }

  const MAKER := Running(Made(2))
  const CLOSER := Running(ClosedChan)
  const CLOSED := Chan(Closed, 0, -1, 0, 0, 0)
  const BAD := Chan(Bad, 1, -1, 0, 0, 0)
  const SENDER := Pending(Case(Sending, 1))
  const RECEIVER := Pending(Case(Receiving, 1))
  const STUCK := Triggered(SPOILED, 0)
  const DONE := Running(Entered(0))

  function Count1(loc: Loc, counter: int): Chan { Chan(loc, counter, 0, 0, 0, 0) }

  const START := Config([FRESH, FRESH, FRESH], 0, [IDLE, IDLE, IDLE, IDLE, IDLE], false)
  const MADE := At(FRESH, FRESH, FRESH, MAKER, IDLE, IDLE, IDLE, IDLE)
  const CLOSING := At(Chan(Closing, 0, -1, 0, 0, 0), FRESH, FRESH, CLOSER, IDLE, IDLE, IDLE, IDLE)
  const QUIET := At(CLOSED, FRESH, FRESH, CLOSER, IDLE, IDLE, IDLE, IDLE)
  const SENDS := At(CLOSED, Count1(NewSender, 1), FRESH, CLOSER, IDLE, SENDER, IDLE, IDLE)
  const WAITS := At(CLOSED, Count1(Idle, 1), FRESH, CLOSER, IDLE, SENDER, IDLE, IDLE)
  const POLLS := At(CLOSED.(counter := 1), FRESH, FRESH, CLOSER, Pass1(SPOILED, false), SENDER, IDLE, IDLE)
  const SPOILS := At(BAD, FRESH, FRESH, CLOSER, STUCK, SENDER, IDLE, IDLE)
  const RECEIVES := At(BAD, Count1(NewReceiver, -1), FRESH, CLOSER, STUCK, SENDER, RECEIVER, IDLE)
  const BOTH_WAIT := At(BAD, Count1(Idle, -1), FRESH, CLOSER, STUCK, SENDER, RECEIVER, IDLE)
  const POLLS_TOO := At(BAD, Count1(Idle, 0), Count1(Idle, 1), CLOSER, STUCK, SENDER, RECEIVER, Pass1(MISLED, false))
  const MISLEADS := At(BAD, Count1(NewSender, 0), Count1(Idle, 1), CLOSER, STUCK, SENDER, RECEIVER, Triggered(MISLED, 0))
  const CONFIRMS := At(BAD, Chan(ConfirmingA, 0, 0, 0, 1, 0), Count1(Idle, 1), CLOSER, STUCK, DONE, RECEIVER, Triggered(MISLED, 0))
  const END := At(BAD, Chan(Idle, 0, 0, 0, 1, 1), Count1(Idle, 1), CLOSER, STUCK, DONE, DONE, Triggered(MISLED, 0))

  lemma Extend(run0: seq<Config>, steps0: seq<Step>, st: Step, s: Config) returns (run: seq<Config>, steps: seq<Step>)
    requires IsRun(run0, steps0) && Next(run0[|steps0|], st, s)
    ensures IsRun(run, steps) && run[|steps|] == s
  {
    run, steps := run0 + [s], steps0 + [st];
  }

  lemma Makes() returns (run: seq<Config>, steps: seq<Step>)
    ensures IsRun(run, steps) && run[|steps|] == MADE
  {
    var one := START.(count := 1, gos := START.gos[0 := Running(Made(0))]);
    var two := START.(count := 2, gos := START.gos[0 := Running(Made(1))]);
    assert Next(START, GoMove(0, MakeChan(0)), one);
    assert Next(one, GoMove(0, MakeChan(0)), two);
    assert Next(two, GoMove(0, MakeChan(0)), MADE);
    run, steps := [START], [];
    assert IsRun(run, steps);
    hide Next, IsRun;
    run, steps := Extend(run, steps, GoMove(0, MakeChan(0)), one);
    run, steps := Extend(run, steps, GoMove(0, MakeChan(0)), two);
    run, steps := Extend(run, steps, GoMove(0, MakeChan(0)), MADE);
  }

  lemma Closes()
    ensures Next(MADE, Handshake(0, 11, 0, StartClose(0)), CLOSING)
    ensures Next(CLOSING, ChanMove(0, 13), QUIET)
  {
  }

  lemma Sends()
    ensures Next(QUIET, Handshake(1, 1, 2, StartOp(Case(Sending, 1))), SENDS)
    ensures Next(SENDS, ChanMove(1, 2), WAITS)
  {
  }

  lemma Polls()
    ensures Next(WAITS, GoMove(1, EnterSelect(SPOILED, false)), POLLS)
  {
    assert BumpCases(WAITS.chans, SPOILED, 1, -1, 1) == AddCounter(WAITS.chans, 0, 1);
  }

  lemma Spoils()
    ensures Next(POLLS, Handshake(0, 17, 1, TriggerCase(0)), SPOILS)
  {
  }

  lemma Receives()
    ensures Next(SPOILS, Handshake(1, 6, 3, StartOp(Case(Receiving, 1))), RECEIVES)
  {
  }

  lemma ReceiverBlocks()
    ensures Next(RECEIVES, ChanMove(1, 7), BOTH_WAIT)
  {
  }

  lemma PollsToo()
    ensures Next(BOTH_WAIT, GoMove(4, EnterSelect(MISLED, false)), POLLS_TOO)
  {
    assert BumpCases(BOTH_WAIT.chans, MISLED, 1, -1, 1) == AddCounter(BOTH_WAIT.chans, 1, 1);
  }

  lemma Misleads()
    ensures Next(POLLS_TOO, Handshake(1, 1, 4, TriggerCase(0)), MISLEADS)
  {
  }

  lemma Confirms()
    ensures Next(MISLEADS, Handshake(1, 3, 2, ConfirmOp), CONFIRMS)
  {
  }

  lemma ConfirmsBoth()
    ensures Next(CONFIRMS, Handshake(1, 5, 3, ConfirmOp), END)
  {
  }

  lemma ReachesSpoils() returns (run: seq<Config>, steps: seq<Step>)
    ensures IsRun(run, steps) && run[|steps|] == SPOILS
  {
    hide Next, IsRun;
    run, steps := Makes();
    Closes();
    run, steps := Extend(run, steps, Handshake(0, 11, 0, StartClose(0)), CLOSING);
    run, steps := Extend(run, steps, ChanMove(0, 13), QUIET);
    Sends();
    run, steps := Extend(run, steps, Handshake(1, 1, 2, StartOp(Case(Sending, 1))), SENDS);
    run, steps := Extend(run, steps, ChanMove(1, 2), WAITS);
    Polls();
    run, steps := Extend(run, steps, GoMove(1, EnterSelect(SPOILED, false)), POLLS);
    Spoils();
    run, steps := Extend(run, steps, Handshake(0, 17, 1, TriggerCase(0)), SPOILS);
  }

  lemma ReachesEnd() returns (run: seq<Config>, steps: seq<Step>)
    ensures IsRun(run, steps) && run[|steps|] == END
  {
    hide Next, IsRun;
    run, steps := ReachesSpoils();
    Receives();
    ReceiverBlocks();
    run, steps := Extend(run, steps, Handshake(1, 6, 3, StartOp(Case(Receiving, 1))), RECEIVES);
    run, steps := Extend(run, steps, ChanMove(1, 7), BOTH_WAIT);
    PollsToo();
    run, steps := Extend(run, steps, GoMove(4, EnterSelect(MISLED, false)), POLLS_TOO);
    Misleads();
    run, steps := Extend(run, steps, Handshake(1, 1, 4, TriggerCase(0)), MISLEADS);
    Confirms();
    ConfirmsBoth();
    run, steps := Extend(run, steps, Handshake(1, 3, 2, ConfirmOp), CONFIRMS);
    run, steps := Extend(run, steps, Handshake(1, 5, 3, ConfirmOp), END);
  }

  /** No select that is stuck at a bad channel has a case of channel 2. Still channel 2 counts a sender where nobody is
      blocked. */
  lemma DamageSpreads() returns (run: seq<Config>, steps: seq<Step>)
    ensures IsRun(run, steps)
    ensures var s := run[|steps|];
      && Valid(s) && !SomeCommitted(s) && |s.chans| == 3 && !s.chans[2].loc.Bad?
      && (forall g :: 0 <= g < |s.gos| && s.gos[g].Triggered? && s.chans[s.gos[g].cases[s.gos[g].index].chan].loc.Bad? ==>
            forall i :: 0 <= i < |s.gos[g].cases| ==> s.gos[g].cases[i].chan != 2)
      && s.chans[2].counter == 1 && s.chans[2].buffer == 0 && BlockedCount(s, 2, Sending) == 0
      && !AtRest(s.chans[2], BlockedCount(s, 2, Sending), BlockedCount(s, 2, Receiving))
  {
    run, steps := ReachesEnd();
    hide IsRun;
    NobodyBlocked();
  }

  // Channel 0 is closed twice. Goroutine 1 polls channels 0 and 1, and nothing goes on: the buffer of channel 0 is marked, so
  // that its case is possible, but the channel answers no more.

  const POLLED: seq<Case> := [Case(Receiving, 0), Case(Receiving, 1)]
  const CLOSED_TWICE := At(Chan(Bad, 0, -1, 0, 0, 0), FRESH, FRESH, CLOSER, IDLE, IDLE, IDLE, IDLE)
  const CORNERED := At(Chan(Bad, -1, -1, 0, 0, 0), Count1(Idle, -1), FRESH, CLOSER, Pass1(POLLED, true), IDLE, IDLE, IDLE)

  lemma ClosesTwice()
    ensures Next(QUIET, Handshake(0, 18, 0, StartClose(0)), CLOSED_TWICE)
  {
  }

  lemma PollsBad()
    ensures Next(CLOSED_TWICE, GoMove(1, EnterSelect(POLLED, true)), CORNERED)
  {
    assert BumpCases(CLOSED_TWICE.chans, POLLED, 1, -1, 1) == AddCounter(CLOSED_TWICE.chans, 0, -1);
  }

  lemma ReachesCorner() returns (run: seq<Config>, steps: seq<Step>)
    ensures IsRun(run, steps) && run[|steps|] == CORNERED
  {
    hide Next, IsRun;
    run, steps := Makes();
    Closes();
    run, steps := Extend(run, steps, Handshake(0, 11, 0, StartClose(0)), CLOSING);
    run, steps := Extend(run, steps, ChanMove(0, 13), QUIET);
    ClosesTwice();
    run, steps := Extend(run, steps, Handshake(0, 18, 0, StartClose(0)), CLOSED_TWICE);
    PollsBad();
    run, steps := Extend(run, steps, GoMove(1, EnterSelect(POLLED, true)), CORNERED);
  }

  /** A select with a default that polls a bad channel stops the whole network. */
  lemma PollingStopsAll() returns (run: seq<Config>, steps: seq<Step>)
    ensures IsRun(run, steps) && Valid(run[|steps|]) && SomeCommitted(run[|steps|])
    ensures forall st :: !Enabled(run[|steps|], st)
  {
    run, steps := ReachesCorner();
    hide IsRun, Enabled;
    assert CORNERED.gos[1].Pass1? && Possible(POLLED[0], CORNERED.chans) && !Possible(POLLED[1], CORNERED.chans);
    assert Cornered(CORNERED, 1);
    CommittedStuckExactly(run, steps);
  }

  // Goroutine 1 polls as in the first run, but nobody waits at channel 1 when it gets stuck. The receive that it has registered
  // there makes the channel confirm goroutine 2, which sends, and then await a receiver that does not exist.

  const TEMPTED := At(CLOSED.(counter := 1), Count1(Idle, -1), FRESH, CLOSER, Pass1(SPOILED, false), IDLE, IDLE, IDLE)
  const TEMPTS := At(BAD, Count1(Idle, -1), FRESH, CLOSER, STUCK, IDLE, IDLE, IDLE)
  const TRUSTS := At(BAD, Count1(NewSender, 0), FRESH, CLOSER, STUCK, SENDER, IDLE, IDLE)
  const FORSAKEN := At(BAD, Chan(ConfirmingA, 0, 0, 0, 1, 0), FRESH, CLOSER, STUCK, DONE, IDLE, IDLE)

  lemma IsTempted()
    ensures Next(QUIET, GoMove(1, EnterSelect(SPOILED, false)), TEMPTED)
  {
    assert BumpCases(QUIET.chans, SPOILED, 1, -1, 1) == AddCounter(QUIET.chans, 0, 1);
  }

  lemma Tempts()
    ensures Next(TEMPTED, Handshake(0, 17, 1, TriggerCase(0)), TEMPTS)
  {
  }

  lemma Trusts()
    ensures Next(TEMPTS, Handshake(1, 1, 2, StartOp(Case(Sending, 1))), TRUSTS)
  {
  }

  lemma Forsakes()
    ensures Next(TRUSTS, Handshake(1, 3, 2, ConfirmOp), FORSAKEN)
  {
  }

  lemma ReachesForsaken() returns (run: seq<Config>, steps: seq<Step>)
    ensures IsRun(run, steps) && run[|steps|] == FORSAKEN
  {
    hide Next, IsRun;
    run, steps := Makes();
    Closes();
    run, steps := Extend(run, steps, Handshake(0, 11, 0, StartClose(0)), CLOSING);
    run, steps := Extend(run, steps, ChanMove(0, 13), QUIET);
    IsTempted();
    run, steps := Extend(run, steps, GoMove(1, EnterSelect(SPOILED, false)), TEMPTED);
    Tempts();
    run, steps := Extend(run, steps, Handshake(0, 17, 1, TriggerCase(0)), TEMPTS);
    Trusts();
    run, steps := Extend(run, steps, Handshake(1, 1, 2, StartOp(Case(Sending, 1))), TRUSTS);
    Forsakes();
    run, steps := Extend(run, steps, Handshake(1, 3, 2, ConfirmOp), FORSAKEN);
  }

  /** A send on a healthy channel stops the whole network. */
  lemma ConfirmingStopsAll() returns (run: seq<Config>, steps: seq<Step>)
    ensures IsRun(run, steps) && Valid(run[|steps|]) && SomeCommitted(run[|steps|])
    ensures var s := run[|steps|]; |s.chans| == 3 && s.chans[1].loc.ConfirmingA? && s.chans[1].buffer == 0
    ensures forall st :: !Enabled(run[|steps|], st)
  {
    run, steps := ReachesForsaken();
    hide IsRun, Enabled;
    NobodyReceives();
    assert IsCommitted(FORSAKEN.chans[1].loc);
    CommittedStuckExactly(run, steps);
    assert Forsaken(FORSAKEN, 1);
  }

  lemma NobodyReceives()
    ensures BlockedCount(FORSAKEN, 1, Receiving) == 0
    ensures forall g :: 0 <= g < |FORSAKEN.gos| ==> !FORSAKEN.gos[g].RangeReceived?
  {
    assert Find(SPOILED, 1) == 1;
    forall g | 0 <= g < |FORSAKEN.gos| ensures RoleAt(FORSAKEN.gos[g], 1) != Waits(Receiving) && !FORSAKEN.gos[g].RangeReceived? {
      assert g == 0 || g == 1 || g == 2 || g == 3 || g == 4;
    }
    NoMember(FORSAKEN.gos, 1, Waits(Receiving));
  }

  lemma NobodyBlocked()
    ensures BlockedCount(END, 2, Sending) == 0
  {
    assert Find(MISLED, 2) == 1;
    assert Find(SPOILED, 2) == -1;
    forall g | 0 <= g < |END.gos| ensures RoleAt(END.gos[g], 2) != Waits(Sending) {
      assert g == 0 || g == 1 || g == 2 || g == 3 || g == 4;
    }
    NoMember(END.gos, 2, Waits(Sending));
  }
}
