module ReducerExample {
  // The condition on committed partners is needed: an accepted removal that makes a new configuration reachable. A
  // committed process offers two handshakes in a row; the original receiver has to take a step of its own in
  // between, which a committed partner does not allow, and the reduced one does not.

  import opened UppaalGraphs
  import opened ReducerForward
  import opened ReducerBackward
  import opened ReducerContexts

  function Handshake(family: string, emits: bool): Label {
    Label([], [], Some(Sync(family, "0", emits)), [])
  }

  const ARRIVE := Edge("a", "m", Handshake("x", false), false, false)
  const PASS := Edge("m", "b", Label([], [], None, []), false, false)
  const FINISH := Edge("b", "d", Handshake("y", false), false, false)
  const OFFER := Edge("s", "t", Handshake("x", true), false, false)
  const INSIST := Edge("t", "u", Handshake("y", true), false, false)

  const RECEIVER := Graph(Some("a"), map["a" := Normal, "m" := Normal, "b" := Normal, "d" := Normal],
                          {ARRIVE, PASS, FINISH})
  const SENDER := Graph(Some("s"), map["s" := Normal, "t" := Committed, "u" := Normal], {OFFER, INSIST})

  const NETWORK := Network(PLAIN, [RECEIVER, SENDER])

  lemma ExampleRemoves()
    ensures Removes(NETWORK, 0, "m")
  {
    var ins, outs := Incoming(RECEIVER, "m"), Outgoing(RECEIVER, "m");
    assert ins == {ARRIVE};
    assert outs == {PASS};
  }

  /** The original network deadlocks at (m, t) and never comes to (d, u). */
  lemma {:induction false} OriginalDeadlocks(run: seq<Config>)
    requires IsRun(NETWORK, run) && run[0] == At("a", "s")
    ensures run[|run| - 1] == At("a", "s") || run[|run| - 1] == At("m", "t")
  {
    if |run| > 1 {
      var shorter, st := LastStep(NETWORK, run);
      OriginalDeadlocks(shorter);
      ExampleStep(run[|run| - 2], run[|run| - 1]);
    }
  }

  /** The edges that can be taken at (a, s) and at (m, t). */
  lemma ExampleEdges(c: Config, p: nat, e: Edge, v: Store)
    requires Fits(NETWORK, c) && CanTake(NETWORK, c, p, e, v)
    ensures c == At("a", "s") ==> (p == 0 && e == ARRIVE) || (p == 1 && e == OFFER)
    ensures c == At("m", "t") ==> (p == 0 && e == PASS) || (p == 1 && e == INSIST)
  {
    assert "a"[0] != "m"[0] && "m"[0] != "b"[0] && "a"[0] != "b"[0] && "s"[0] != "t"[0];
    if p == 0 {
      assert e in {ARRIVE, PASS, FINISH};
    } else {
      assert e in {OFFER, INSIST};
    }
  }

  lemma ExampleStep(c: Config, c': Config)
    requires Next(NETWORK, c, c') && (c == At("a", "s") || c == At("m", "t"))
    ensures c == At("a", "s") && c' == At("m", "t")
  {
    var st :| Enabled(NETWORK, c, st) && c' == After(NETWORK, c, st);
    if c == At("m", "t") {
      assert IsCommittedAt(NETWORK, c, 1);
      assert !IsCommittedAt(NETWORK, c, 0);
    }
    hide CanTake, IsCommittedAt;
    match st
    case Alone(p, e, v) =>
      ExampleEdges(c, p, e, v);
    case Together(p, e, v, q, f, w) =>
      ExampleEdges(c, p, e, v);
      ExampleEdges(c, q, f, w);
      assert "x"[0] != "y"[0];
      assert e == OFFER && f == ARRIVE;
  }

  /** The reducer removes m, and what was unreachable with nothing committed becomes reachable. */
  lemma RemovalCanAddConfigurations()
    ensures Removes(NETWORK, 0, "m") && !Unhurried(NETWORK, 0, "m")
    ensures !SomeCommitted(NETWORK, At("d", "u"))
    ensures !Reachable(NETWORK, At("a", "s"), At("d", "u"))
    ensures Reachable(Reduced(NETWORK, 0, "m"), At("a", "s"), At("d", "u"))
  {
    ExampleRemoves();
    ReducedArrives();
    NotReachedBefore();
    ExampleHurries();
    assert At("d", "u").locs[1] == "u";
  }

  lemma NotReachedBefore()
    ensures !Reachable(NETWORK, At("a", "s"), At("d", "u"))
  {
    assert "d"[0] != "a"[0] && "d"[0] != "m"[0];
    assert At("d", "u").locs[0] != At("a", "s").locs[0] && At("d", "u").locs[0] != At("m", "t").locs[0];
    if Reachable(NETWORK, At("a", "s"), At("d", "u")) {
      var run :| IsRun(NETWORK, run) && run[0] == At("a", "s") && run[|run| - 1] == At("d", "u");
      OriginalDeadlocks(run);
    }
  }

  lemma ExampleHurries()
    ensures !Unhurried(NETWORK, 0, "m")
  {
    assert ARRIVE in Incoming(RECEIVER, "m") && ARRIVE.UsesGlobals();
    assert !LocalIn(RECEIVER, "m");
    assert PASS in Outgoing(RECEIVER, "m") && FINISH in Outgoing(RECEIVER, "b");
    assert CanMeet(FINISH, INSIST);
    assert INSIST in NETWORK.graphs[1].edges;
    assert !NoHurry(NETWORK, 0, FINISH);
  }

  const REDUCED := Reduced(NETWORK, 0, "m")
  const BOTH := Compose(ARRIVE, PASS)

  lemma ReducedEdges()
    ensures BOTH in REDUCED.graphs[0].edges && FINISH in REDUCED.graphs[0].edges
  {
    assert ARRIVE in Incoming(RECEIVER, "m") && PASS in Outgoing(RECEIVER, "m");
    assert BOTH in Bypasses(RECEIVER, "m");
  }

  lemma ReducedStarts()
    ensures Next(REDUCED, At("a", "s"), At("b", "t"))
  {
    var c, st := At("a", "s"), Together(1, OFFER, map[], 0, BOTH, map[]);
    ReducedEdges();
    assert !SomeCommitted(REDUCED, c);
    hide SomeCommitted;
    assert CanTake(REDUCED, c, 1, OFFER, map[]) && CanTake(REDUCED, c, 0, BOTH, map[]);
    hide CanTake;
    assert Enabled(REDUCED, c, st);
    assert After(REDUCED, c, st) == At("b", "t");
  }

  lemma ReducedFinishes()
    ensures Next(REDUCED, At("b", "t"), At("d", "u"))
  {
    var c, st := At("b", "t"), Together(1, INSIST, map[], 0, FINISH, map[]);
    ReducedEdges();
    assert IsCommittedAt(REDUCED, c, 1);
    hide IsCommittedAt;
    assert CanTake(REDUCED, c, 1, INSIST, map[]) && CanTake(REDUCED, c, 0, FINISH, map[]);
    hide CanTake;
    assert Enabled(REDUCED, c, st);
    assert After(REDUCED, c, st) == At("d", "u");
  }

  lemma ReducedArrives()
    ensures Reachable(REDUCED, At("a", "s"), At("d", "u"))
  {
    hide Reduced;
    ReducedStarts();
    ReducedFinishes();
    var c0 := At("a", "s");
    assert IsRun(REDUCED, [c0]) && [c0][0] == c0;
    ReachableNext(REDUCED, c0, c0, At("b", "t"));
    ReachableNext(REDUCED, c0, At("b", "t"), At("d", "u"));
  }

  // ---------- Handshakes that are not told apart ----------

  const APPROACH := Edge("a", "m", Label([], [], None, []), false, false)
  const MEET := Edge("m", "d", Handshake("x", false), false, false)
  const SHORTCUT := Edge("a", "d", Handshake("x", false), false, false)
  const DETOUR := Graph(Some("a"), map["a" := Normal, "m" := Normal, "d" := Normal], {APPROACH, MEET, SHORTCUT})

  /** Where a location has another edge for the handshake that comes early, removing m may be harmless all the same. */
  lemma SomeHurriesAreHarmless()
    ensures WellFormed(DETOUR) && CanRemove(DETOUR, "m") && Hurriable(DETOUR, "m") && !ToldApart(DETOUR, "m")
    ensures KeptEverywhere(DETOUR, "m")
  {
    var ins, outs := Incoming(DETOUR, "m"), Outgoing(DETOUR, "m");
    assert "a"[0] != "m"[0] && "m"[0] != "d"[0] && "a"[0] != "d"[0];
    assert ins == {APPROACH};
    assert outs == {MEET};
    assert SHORTCUT in Outgoing(DETOUR, "a") && SameOffer(SHORTCUT, MEET);
    assert Compose(APPROACH, MEET) == SHORTCUT;
    NothingNewIsKept(DETOUR, "m");
  }
}
