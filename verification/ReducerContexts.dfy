/** Removals that keep what is reachable whatever the rest of the network does, and removals that some network notices. */
module ReducerContexts {
  import opened UppaalGraphs
  import opened ReducerForward
  import opened ReducerBackward

  predicate SameOffer(e: Edge, f: Edge) {
    && e.act.sync.Some? && f.act.sync.Some?
    && e.act.sync.value.family == f.act.sync.value.family && e.act.sync.value.emits == f.act.sync.value.emits
  }

  /** The removed location lies between a handshake and one before it that are then taken in a row, or a
      handshake behind it is then offered one location earlier. */
  ghost predicate Hurriable(g: Graph, m: string) {
    if LocalIn(g, m) then
      exists i, o :: i in Incoming(g, m) && o in Outgoing(g, m) && o.act.sync.Some?
    else
      SyncedIn(g, m) && exists o, f :: o in Outgoing(g, m) && f in Outgoing(g, o.dst) && f.act.sync.Some?
  }

  /** No other edge of the same location takes part in the handshake that the composed edge takes part in. */
  ghost predicate ToldApart(g: Graph, m: string) {
    if LocalIn(g, m) then
      forall i, o, e :: i in Incoming(g, m) && o in Outgoing(g, m) && e in Outgoing(g, i.src) ==> !SameOffer(e, o)
    else
      forall i, e :: i in Incoming(g, m) && e in Outgoing(g, i.src) && SameOffer(e, i) ==> e.dst == m
  }

  /** Process p of the network is the graph, with flags that tell the truth, and does not stand at m; in the
      end nobody else is committed. */
  ghost predicate InContext(g: Graph, m: string, n: Network, p: nat, c0: Config, c: Config) {
    && p < |n.graphs| && n.graphs[p] == g && AllAccurate(n.meaning, g)
    && Fits(n, c0) && c0.locs[p] != m && Fits(n, c) && c.locs[p] != m && OthersRest(n, c, p)
  }

  ghost predicate Kept(n: Network, p: nat, m: string, c0: Config, c: Config)
    requires p < |n.graphs|
  {
    Reachable(n, c0, c) <==> Reachable(Reduced(n, p, m), c0, c)
  }

  ghost predicate KeptEverywhere(g: Graph, m: string) {
    forall n, p, c0, c :: InContext(g, m, n, p, c0, c) ==> Kept(n, p, m, c0, c)
  }

  /** The removal keeps what is reachable in all networks exactly if no handshake can be hurried. */
  lemma HarmlessExactly(g: Graph, m: string)
    requires WellFormed(g) && CanRemove(g, m) && ToldApart(g, m)
    ensures KeptEverywhere(g, m) <==> !Hurriable(g, m)
  {
    if Hurriable(g, m) {
      if LocalIn(g, m) {
        HandshakeComesEarly(g, m);
      } else {
        HandshakesInARow(g, m);
      }
    } else {
      forall n, p, c0, c | InContext(g, m, n, p, c0, c) ensures Kept(n, p, m, c0, c) {
        NeverHurried(n, p, m);
        RemovalPreservesReachability(n, c0, c, p, m);
      }
    }
  }

  lemma NeverHurried(n: Network, p: nat, m: string)
    requires p < |n.graphs| && !Hurriable(n.graphs[p], m)
    ensures Unhurried(n, p, m)
  {
    var g := n.graphs[p];
    if LocalIn(g, m) {
      forall i, o | i in Incoming(g, m) && o in Outgoing(g, m) ensures NoHurry(n, p, o) {
        assert o.act.sync.None?;
      }
    } else if SyncedIn(g, m) {
      forall o, f | o in Outgoing(g, m) && f in Outgoing(g, o.dst) ensures NoHurry(n, p, f) {
        assert f.act.sync.None?;
      }
    }
  }

  // ---------- A network that notices ----------

  /** All guards hold, updates change nothing, and there is one port of each family. */
  const PLAIN := Meaning((s, v) => true, (a, v, l, g) => true, (u, v, l, g) => (l, g), (x, v, l, g) => 0)

  function Other(x: Sync): Label { Label([], [], Some(Sync(x.family, "0", !x.emits)), []) }

  function First(x: Sync): Edge { Edge("s", "t", Other(x), false, false) }
  function Second(y: Sync): Edge { Edge("t", "u", Other(y), false, false) }

  /** A process that offers the other halves of two handshakes in a row without letting anyone else move. */
  function Observer(x: Sync, y: Sync): Graph {
    Graph(Some("s"), map["s" := Committed, "t" := Committed, "u" := Normal], {First(x), Second(y)})
  }

  function Watched(g: Graph, x: Sync, y: Sync): Network { Network(PLAIN, [g, Observer(x, y)]) }

  function At(a: string, b: string): Config { Config([a, b], [map[], map[]], map[]) }

  lemma {:induction false} PlainExecute(update: seq<string>, v: Store, l: Store, g: Store)
    ensures Execute(PLAIN, update, v, l, g) == (l, g)
  {
    if update != [] {
      PlainExecute(update[1..], v, l, g);
    }
  }

  lemma PlainAccurate(g: Graph)
    ensures AllAccurate(PLAIN, g)
  {
  }

  /** Two edges that can meet do meet while the second process is committed. */
  lemma Meets(n: Network, a: string, b: string, e: Edge, f: Edge)
    requires n.meaning == PLAIN && |n.graphs| == 2 && e in n.graphs[0].edges && f in n.graphs[1].edges
    requires e.src == a && f.src == b && CanMeet(e, f) && b in n.graphs[1].types && n.graphs[1].types[b].Committed?
    ensures Next(n, At(a, b), At(e.dst, f.dst))
  {
    var c := At(a, b);
    assert IsCommittedAt(n, c, 1);
    assert CanTake(n, c, 0, e, map[]) && CanTake(n, c, 1, f, map[]);
    PlainExecute(e.act.update, map[], map[], map[]);
    PlainExecute(f.act.update, map[], map[], map[]);
    hide CanTake, Execute;
    if e.act.sync.value.emits {
      var st := Together(0, e, map[], 1, f, map[]);
      assert Enabled(n, c, st) && After(n, c, st) == At(e.dst, f.dst);
    } else {
      var st := Together(1, f, map[], 0, e, map[]);
      assert Enabled(n, c, st) && After(n, c, st) == At(e.dst, f.dst);
    }
  }

  lemma ObserverEdges(x: Sync, y: Sync)
    ensures forall f :: f in Observer(x, y).edges && f.src == "s" ==> f == First(x)
    ensures forall f :: f in Observer(x, y).edges && f.src == "t" ==> f == Second(y)
    ensures forall f :: f in Observer(x, y).edges ==> f.act.sync.Some? && f.act.select == []
    ensures Observer(x, y).types["s"].Committed? && Observer(x, y).types["t"].Committed? && Observer(x, y).types["u"].Normal?
    ensures "u" != "s" && "u" != "t" && "s" != "t"
  {
    assert "s"[0] != "t"[0] && "u"[0] != "s"[0] && "u"[0] != "t"[0];
  }

  lemma ObserverInsists(n: Network, c: Config, x: Sync, y: Sync, p: nat, e: Edge, v: Store)
    requires |n.graphs| == 2 && n.graphs[1] == Observer(x, y) && Fits(n, c) && IsCommittedAt(n, c, 1) && !IsCommittedAt(n, c, 0)
    ensures !Enabled(n, c, Alone(p, e, v))
  {
    ObserverEdges(x, y);
    assert SomeCommitted(n, c);
  }

  /** While the observer insists, an uncommitted process can only meet it. */
  lemma OnlyMeets(g: Graph, x: Sync, y: Sync, a: string, b: string, c': Config) returns (e: Edge, f: Edge)
    requires IsNormal(g, a) && (b == "s" || b == "t") && Next(Watched(g, x, y), At(a, b), c')
    ensures e in Outgoing(g, a) && f in Observer(x, y).edges && f.src == b && CanMeet(e, f)
    ensures c' == At(e.dst, f.dst)
  {
    var n, c := Watched(g, x, y), At(a, b);
    ObserverEdges(x, y);
    var st :| Enabled(n, c, st) && c' == After(n, c, st);
    assert IsCommittedAt(n, c, 1) && !IsCommittedAt(n, c, 0);
    assert SomeCommitted(n, c);
    hide Execute, GuardHolds, Picks, SomeCommitted;
    match st
    case Alone(p, e0, v) =>
      ObserverInsists(n, c, x, y, p, e0, v);
      e, f := e0, e0;
    case Together(p, e0, v, q, f0, w) =>
      e, f := if p == 0 then e0 else f0, if p == 0 then f0 else e0;
      BothMove(n, c, st);
  }

  lemma BothMove(n: Network, c: Config, st: Step)
    requires n.meaning == PLAIN && |n.graphs| == 2 && st.Together? && Fits(n, c) && Enabled(n, c, st)
    requires c == At(c.locs[0], c.locs[1])
    ensures After(n, c, st) == (if st.p == 0 then At(st.e.dst, st.f.dst) else At(st.f.dst, st.e.dst))
  {
    hide GuardHolds, Picks, SomeCommitted;
    PlainExecute(st.e.act.update, st.v, map[], map[]);
    PlainExecute(st.f.act.update, st.w, map[], map[]);
  }

  lemma {:induction false} StuckAt(n: Network, run: seq<Config>, c0: Config, c1: Config)
    requires IsRun(n, run) && run[0] == c0
    requires forall c' :: (Next(n, c0, c') ==> c' == c1) && !Next(n, c1, c')
    ensures run[|run| - 1] == c0 || run[|run| - 1] == c1
  {
    if |run| > 1 {
      var shorter, st := LastStep(n, run);
      StuckAt(n, shorter, c0, c1);
      assert Next(n, run[|run| - 2], run[|run| - 2 + 1]);
    }
  }

  lemma NeverThere(n: Network, c0: Config, c1: Config, c: Config)
    requires forall c' :: (Next(n, c0, c') ==> c' == c1) && !Next(n, c1, c')
    requires c != c0 && c != c1
    ensures !Reachable(n, c0, c)
  {
    if Reachable(n, c0, c) {
      var run :| IsRun(n, run) && run[0] == c0 && run[|run| - 1] == c;
      StuckAt(n, run, c0, c1);
    }
  }

  lemma OneStep(n: Network, c0: Config, c: Config)
    requires Next(n, c0, c)
    ensures Reachable(n, c0, c)
  {
    assert IsRun(n, [c0]) && [c0][0] == c0;
    ReachableNext(n, c0, c0, c);
  }

  lemma Rests(g: Graph, x: Sync, y: Sync, a: string)
    ensures OthersRest(Watched(g, x, y), At(a, "u"), 0)
  {
    ObserverEdges(x, y);
  }

  /** A handshake behind m that becomes possible before m: the original process has to take a step of its own
      first, which the observer does not allow. */
  lemma HandshakeComesEarly(g: Graph, m: string)
    requires WellFormed(g) && CanRemove(g, m) && ToldApart(g, m) && LocalIn(g, m) && Hurriable(g, m)
    ensures !KeptEverywhere(g, m)
  {
    var i, o :| i in Incoming(g, m) && o in Outgoing(g, m) && o.act.sync.Some?;
    var y := o.act.sync.value;
    var n, c0, c := Watched(g, y, y), At(i.src, "t"), At(o.dst, "u");
    PlainAccurate(g);
    InAndOut(n, 0, m, i, o);
    ObserverEdges(y, y);
    Rests(g, y, y, o.dst);
    var n1, e := Reduced(n, 0, m), Compose(i, o);
    Meets(n1, i.src, "t", e, Second(y));
    OneStep(n1, c0, c);
    forall c' ensures !Next(n, c0, c') {
      if Next(n, c0, c') {
        var e1, f1 := OnlyMeets(g, y, y, i.src, "t", c');
        assert SameOffer(e1, o);
      }
    }
    assert c.locs[1] != c0.locs[1];
    NeverThere(n, c0, c0, c);
    assert InContext(g, m, n, 0, c0, c) && !Kept(n, 0, m, c0, c);
  }

  /** Two handshakes in a row around m: the original process stops at m between them. */
  lemma HandshakesInARow(g: Graph, m: string)
    requires WellFormed(g) && CanRemove(g, m) && ToldApart(g, m) && !LocalIn(g, m) && Hurriable(g, m)
    ensures !KeptEverywhere(g, m)
  {
    hide CanRemove, WellFormed, LocalIn, Reachable, AllAccurate, OthersRest;
    var i, o, f := RowOf(g, m);
    var x, y := i.act.sync.value, f.act.sync.value;
    var n, c0, c1 := Watched(g, x, y), At(i.src, "s"), At(m, "t");
    PlainAccurate(g);
    assert Removes(n, 0, m);
    var d := ReducedGoesOn(n, g, m, i, o, f);
    var c := At(d, "u");
    Rests(g, x, y, d);
    OriginalStops(g, m, i, x, y);
    ObserverEdges(x, y);
    assert c.locs[1] != c0.locs[1] && c.locs[1] != c1.locs[1];
    NeverThere(n, c0, c1, c);
    assert InContext(g, m, n, 0, c0, c) && !Kept(n, 0, m, c0, c);
  }

  lemma RowOf(g: Graph, m: string) returns (i: Edge, o: Edge, f: Edge)
    requires CanRemove(g, m) && !LocalIn(g, m) && Hurriable(g, m)
    ensures i in Incoming(g, m) && i.act.sync.Some? && i.src != m
    ensures o in Outgoing(g, m) && f in Outgoing(g, o.dst) && f.act.sync.Some?
  {
    i :| i in Incoming(g, m) && i.act.sync.Some?;
    o, f :| o in Outgoing(g, m) && f in Outgoing(g, o.dst) && f.act.sync.Some?;
  }

  lemma ReducedGoesOn(n: Network, g: Graph, m: string, i: Edge, o: Edge, f: Edge) returns (d: string)
    requires i in Incoming(g, m) && i.act.sync.Some?
    requires o in Outgoing(g, m) && f in Outgoing(g, o.dst) && f.act.sync.Some?
    requires n == Watched(g, i.act.sync.value, f.act.sync.value) && Removes(n, 0, m)
    ensures d != m && Reachable(Reduced(n, 0, m), At(i.src, "s"), At(d, "u"))
  {
    var x, y, n1 := i.act.sync.value, f.act.sync.value, Reduced(n, 0, m);
    InAndOut(n, 0, m, i, o);
    ObserverEdges(x, y);
    var f1 := StillThere(n, m, o, f);
    d := f1.dst;
    hide Removes, Reduced, Reachable, Next;
    Meets(n1, i.src, "s", Compose(i, o), First(x));
    Meets(n1, o.dst, "t", f1, Second(y));
    OneStep(n1, At(i.src, "s"), At(o.dst, "t"));
    ReachableNext(n1, At(i.src, "s"), At(o.dst, "t"), At(d, "u"));
  }

  /** A handshake that follows m is there after the removal, perhaps composed. */
  lemma StillThere(n: Network, m: string, o: Edge, f: Edge) returns (f1: Edge)
    requires |n.graphs| > 0 && Removes(n, 0, m) && o in Outgoing(n.graphs[0], m) && f in Outgoing(n.graphs[0], o.dst)
    requires f.act.sync.Some?
    ensures f1 in Reduced(n, 0, m).graphs[0].edges && f1.src == o.dst && f1.act.sync == f.act.sync
    ensures f1.dst != m
  {
    if f.dst == m {
      InAndOut(n, 0, m, f, o);
      f1 := Compose(f, o);
    } else {
      InOrOut(n.graphs[0], m, o);
      f1 := f;
    }
  }

  lemma InOrOut(g: Graph, m: string, o: Edge)
    requires CanRemove(g, m) && o in Outgoing(g, m)
    ensures o.dst != m
  {
  }

  lemma NoHandshakeOut(g: Graph, m: string, e: Edge)
    requires CanRemove(g, m) && !LocalIn(g, m) && e in Outgoing(g, m)
    ensures e.act.sync.None?
  {
  }

  lemma OriginalStops(g: Graph, m: string, i: Edge, x: Sync, y: Sync)
    requires CanRemove(g, m) && ToldApart(g, m) && !LocalIn(g, m) && i in Incoming(g, m) && i.act.sync == Some(x)
    ensures forall c' :: (Next(Watched(g, x, y), At(i.src, "s"), c') ==> c' == At(m, "t")) && !Next(Watched(g, x, y), At(m, "t"), c')
  {
    ObserverEdges(x, y);
    forall c'
      ensures (Next(Watched(g, x, y), At(i.src, "s"), c') ==> c' == At(m, "t")) && !Next(Watched(g, x, y), At(m, "t"), c')
    {
      if Next(Watched(g, x, y), At(i.src, "s"), c') {
        var e, f := OnlyMeets(g, x, y, i.src, "s", c');
        assert SameOffer(e, i);
      }
      if Next(Watched(g, x, y), At(m, "t"), c') {
        var e, f := OnlyMeets(g, x, y, m, "t", c');
        NoHandshakeOut(g, m, e);
      }
    }
  }

  // ---------- Handshakes that are not told apart ----------

  /** Whatever the removal adds was there before. */
  ghost predicate NothingNew(g: Graph, m: string) {
    forall i, o :: i in Incoming(g, m) && o in Outgoing(g, m) ==> Compose(i, o) in g.edges
  }

  lemma SameCommittedWithout(n: Network, c: Config, p: nat, m: string)
    requires p < |n.graphs| && Fits(n, c) && IsNormal(n.graphs[p], m)
    ensures Fits(Reduced(n, p, m), c)
    ensures forall q :: 0 <= q < |n.graphs| ==> (IsCommittedAt(Reduced(n, p, m), c, q) <==> IsCommittedAt(n, c, q))
  {
  }

  lemma EdgeThere(n: Network, c: Config, p: nat, m: string, q: nat, e: Edge, v: Store)
    requires p < |n.graphs| && NothingNew(n.graphs[p], m) && Fits(n, c)
    requires Fits(Reduced(n, p, m), c) && CanTake(Reduced(n, p, m), c, q, e, v)
    ensures CanTake(n, c, q, e, v)
  {
  }

  lemma StepThere(n: Network, c: Config, c': Config, p: nat, m: string)
    requires p < |n.graphs| && NothingNew(n.graphs[p], m) && IsNormal(n.graphs[p], m)
    requires Next(Reduced(n, p, m), c, c')
    ensures Next(n, c, c')
  {
    var n1 := Reduced(n, p, m);
    var st :| Enabled(n1, c, st) && c' == After(n1, c, st);
    SameCommittedWithout(n, c, p, m);
    match st
    case Alone(r, e, v) =>
      EdgeThere(n, c, p, m, r, e, v);
      hide CanTake, IsCommittedAt;
      assert Enabled(n, c, st);
    case Together(r, e, v, q, f, w) =>
      EdgeThere(n, c, p, m, r, e, v);
      EdgeThere(n, c, p, m, q, f, w);
      hide CanTake, IsCommittedAt;
      assert Enabled(n, c, st);
  }

  lemma {:induction false} RunThere(n: Network, run: seq<Config>, p: nat, m: string)
    requires p < |n.graphs| && NothingNew(n.graphs[p], m) && IsNormal(n.graphs[p], m) && IsRun(Reduced(n, p, m), run)
    ensures IsRun(n, run)
  {
    forall k | 0 <= k < |run| - 1 ensures Next(n, run[k], run[k + 1]) {
      StepThere(n, run[k], run[k + 1], p, m);
    }
  }

  /** A removal that adds nothing new keeps what is reachable in all networks, hurried or not. */
  lemma NothingNewIsKept(g: Graph, m: string)
    requires WellFormed(g) && CanRemove(g, m) && NothingNew(g, m)
    ensures KeptEverywhere(g, m)
  {
    forall n, p, c0, c | InContext(g, m, n, p, c0, c) ensures Kept(n, p, m, c0, c) {
      NothingNewIsKeptIn(n, p, m, c0, c);
    }
  }

  lemma NothingNewIsKeptIn(n: Network, p: nat, m: string, c0: Config, c: Config)
    requires p < |n.graphs| && WellFormed(n.graphs[p]) && CanRemove(n.graphs[p], m) && NothingNew(n.graphs[p], m)
    requires InContext(n.graphs[p], m, n, p, c0, c)
    ensures Kept(n, p, m, c0, c)
  {
    if Reachable(n, c0, c) {
      NothingLost(n, c0, c, p, m);
    }
    if Reachable(Reduced(n, p, m), c0, c) {
      var run :| IsRun(Reduced(n, p, m), run) && run[0] == c0 && run[|run| - 1] == c;
      RunThere(n, run, p, m);
    }
  }
}
