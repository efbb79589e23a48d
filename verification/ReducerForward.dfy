/** Every reachable configuration of a network has a counterpart after the reducer removed a location. */
module ReducerForward {
  import opened UppaalGraphs
  import opened ReducerSteps

  /** The network after the reducer removed location m of process p. */
  function Reduced(n: Network, p: nat, m: string): Network
    requires p < |n.graphs|
  {
    Network(n.meaning, n.graphs[p := Eliminate(n.graphs[p], m)])
  }

  /** The reducer removes m from process p, and the flags of p's edges tell the truth. */
  ghost predicate Removes(n: Network, p: nat, m: string) {
    && p < |n.graphs| && WellFormed(n.graphs[p]) && CanRemove(n.graphs[p], m)
    && AllAccurate(n.meaning, n.graphs[p])
  }

  ghost predicate LocalIn(g: Graph, m: string) { !PropsOf(Incoming(g, m)).usesGlobals }

  ghost predicate LocalEdge(m: Meaning, e: Edge) {
    e.act.sync.None? && LocalGuard(m, e) && LocalUpdate(m, e)
  }

  lemma UnflaggedIsLocal(m: Meaning, g: Graph, e: Edge)
    requires AllAccurate(m, g) && e in g.edges && !e.UsesGlobals()
    ensures LocalEdge(m, e)
  {
    assert Accurate(m, e);
  }

  /** What the reducer's conditions say about one incoming and one outgoing edge. */
  ghost predicate Composable(m: Meaning, i: Edge, o: Edge, localIn: bool) {
    && i.act.select == [] && o.act.select == []
    && (o.act.guard != [] ==> i.act.sync.None? && i.act.update == [])
    && (o.act.sync.Some? ==> i.act.update == [])
    && (if localIn then LocalEdge(m, i) else LocalEdge(m, o))
  }

  lemma InAndOut(n: Network, p: nat, m: string, i: Edge, o: Edge)
    requires Removes(n, p, m)
    requires i in Incoming(n.graphs[p], m) && o in Outgoing(n.graphs[p], m)
    ensures Composable(n.meaning, i, o, LocalIn(n.graphs[p], m))
    ensures Compose(i, o) in Reduced(n, p, m).graphs[p].edges
    ensures i.src != m && o.dst != m && IsNormal(n.graphs[p], i.src) && IsNormal(n.graphs[p], o.dst)
  {
    var g := n.graphs[p];
    assert i in g.edges && i.dst == m && o in g.edges && o.src == m;
    var props, outs := PropsOf(Incoming(g, m)), PropsOf(Outgoing(g, m));
    if LocalIn(g, m) {
      assert !i.UsesGlobals();
      UnflaggedIsLocal(n.meaning, g, i);
    } else {
      assert !outs.usesGlobals;
      assert !o.UsesGlobals();
      UnflaggedIsLocal(n.meaning, g, o);
    }
    assert Compose(i, o) in Bypasses(g, m);
  }

  lemma InFacts(n: Network, p: nat, m: string, i: Edge) returns (o: Edge)
    requires Removes(n, p, m) && i in Incoming(n.graphs[p], m)
    ensures o in Outgoing(n.graphs[p], m)
    ensures Composable(n.meaning, i, o, LocalIn(n.graphs[p], m))
    ensures i.src != m && IsNormal(n.graphs[p], i.src)
  {
    o :| o in Outgoing(n.graphs[p], m);
    InAndOut(n, p, m, i, o);
  }

  /** The composed edge does what its two parts do one after the other. */
  lemma ComposedExecute(n: Network, i: Edge, o: Edge, l: Store, g: Store)
    ensures var (l1, g1) := Execute(n.meaning, i.act.update, map[], l, g);
            Execute(n.meaning, Compose(i, o).act.update, map[], l, g) == Execute(n.meaning, o.act.update, map[], l1, g1)
  {
    ExecuteAppend(n.meaning, i.act.update, o.act.update, map[], l, g);
  }

  lemma ComposedGuard(n: Network, i: Edge, o: Edge, l: Store, g: Store)
    ensures GuardHolds(n.meaning, Compose(i, o).act.guard, map[], l, g)
            <==> GuardHolds(n.meaning, i.act.guard, map[], l, g) && GuardHolds(n.meaning, o.act.guard, map[], l, g)
  {
    GuardAppend(n.meaning, i.act.guard, o.act.guard, map[], l, g);
  }

  // ---------- The simulation ----------

  /** Process p stands before edge i, which leads to m, and nothing else is different. */
  ghost predicate StandsBefore(n: Network, c0: Config, c: Config, p: nat, m: string, i: Edge, l0: Store)
    requires p < |n.graphs| && Fits(n, c)
  {
    && i in Incoming(n.graphs[p], m)
    && GuardHolds(n.meaning, i.act.guard, map[], l0, c.globals)
    && Execute(n.meaning, i.act.update, map[], l0, c.globals).0 == c.locals[p]
    && Reachable(Reduced(n, p, m), c0, Put(c, p, i.src, l0))
  }

  /** Process p stands behind edge o, which leaves m, and nothing else is different. */
  ghost predicate StandsBehind(n: Network, c0: Config, c: Config, p: nat, m: string, o: Edge)
    requires p < |n.graphs| && Fits(n, c)
  {
    Reachable(Reduced(n, p, m), c0,
              Put(c, p, o.dst, Execute(n.meaning, o.act.update, map[], c.locals[p], c.globals).0))
  }

  ghost predicate StandsAside(n: Network, c0: Config, c: Config, p: nat, m: string, i: Edge)
    requires p < |n.graphs| && Fits(n, c)
  {
    i in Incoming(n.graphs[p], m) && Reachable(Reduced(n, p, m), c0, Put(c, p, i.src, c.locals[p]))
  }

  ghost predicate GuardedExit(g: Graph, m: string) { exists o :: o in Outgoing(g, m) && o.act.guard != [] }

  /** The counterparts in the reduced network of a reachable configuration. Where the edges into m are
      local, process p has yet to take one; otherwise it has already taken any edge out of m. */
  ghost predicate Simulated(n: Network, c0: Config, c: Config, p: nat, m: string)
    requires p < |n.graphs|
  {
    && Fits(n, c)
    && if c.locs[p] != m then
         Reachable(Reduced(n, p, m), c0, c)
       else if LocalIn(n.graphs[p], m) then
         exists i, l0 :: StandsBefore(n, c0, c, p, m, i, l0)
       else
         && (forall o :: o in Outgoing(n.graphs[p], m)
                         && GuardHolds(n.meaning, o.act.guard, map[], c.locals[p], c.globals)
                         ==> StandsBehind(n, c0, c, p, m, o))
         && (GuardedExit(n.graphs[p], m) ==> exists i :: StandsAside(n, c0, c, p, m, i))
  }

  lemma TwinOfReduced(n: Network, c: Config, p: nat, m: string, a: string, l: Store)
    requires Removes(n, p, m) && Fits(n, c) && a != m
    requires a == c.locs[p] || (c.locs[p] == m && IsNormal(n.graphs[p], a))
    ensures Twin(n, c, Reduced(n, p, m), Put(c, p, a, l), p)
  {
  }

  /** While others move, a process with a normal counterpart keeps it. */
  lemma OthersKeepCounterpart(n: Network, c0: Config, c: Config, st: Step, p: nat, m: string, a: string, l: Store)
    requires Removes(n, p, m) && Fits(n, c) && a != m
    requires a == c.locs[p] || (c.locs[p] == m && IsNormal(n.graphs[p], a))
    requires Enabled(n, c, st) && !Involves(st, p)
    requires Reachable(Reduced(n, p, m), c0, Put(c, p, a, l))
    ensures After(n, c, st).locs[p] == c.locs[p] && After(n, c, st).locals[p] == c.locals[p]
    ensures Reachable(Reduced(n, p, m), c0, Put(After(n, c, st), p, a, l))
  {
    var n1, c1 := Reduced(n, p, m), Put(c, p, a, l);
    TwinOfReduced(n, c, p, m, a, l);
    OthersStep(n, c, st, n1, c1, p);
    TakeStep(n1, c0, c1, st);
  }

  lemma OthersSimulated(n: Network, c0: Config, c: Config, st: Step, p: nat, m: string)
    requires Removes(n, p, m) && Simulated(n, c0, c, p, m)
    requires Enabled(n, c, st) && !Involves(st, p)
    ensures Simulated(n, c0, After(n, c, st), p, m)
  {
    var c' := After(n, c, st);
    hide Enabled, After, Reachable, CanRemove, Execute, GuardHolds;
    if c.locs[p] != m {
      assert c == Put(c, p, c.locs[p], c.locals[p]);
      OthersKeepCounterpart(n, c0, c, st, p, m, c.locs[p], c.locals[p]);
      assert c' == Put(c', p, c.locs[p], c.locals[p]);
    } else if LocalIn(n.graphs[p], m) {
      var i, l0 :| StandsBefore(n, c0, c, p, m, i, l0);
      var o := InFacts(n, p, m, i);
      OthersKeepCounterpart(n, c0, c, st, p, m, i.src, l0);
      LocalExecute(n.meaning, i.act.update, map[], l0, c.globals, c'.globals);
      LocalGuardHolds(n.meaning, i, map[], l0, c.globals, c'.globals);
      assert StandsBefore(n, c0, c', p, m, i, l0);
    } else {
      OthersKeepBehind(n, c0, c, st, p, m);
    }
  }

  lemma OthersKeepBehind(n: Network, c0: Config, c: Config, st: Step, p: nat, m: string)
    requires Removes(n, p, m) && Simulated(n, c0, c, p, m) && c.locs[p] == m && !LocalIn(n.graphs[p], m)
    requires Enabled(n, c, st) && !Involves(st, p)
    ensures Simulated(n, c0, After(n, c, st), p, m)
  {
    var c' := After(n, c, st);
    hide Enabled, After, Reachable, CanRemove, Execute, GuardHolds;
    var o0 := SomeExit(n, p, m);
    forall o | o in Outgoing(n.graphs[p], m)
      ensures c'.locs[p] == c.locs[p] && c'.locals[p] == c.locals[p]
      ensures GuardHolds(n.meaning, o.act.guard, map[], c'.locals[p], c'.globals) ==> StandsBehind(n, c0, c', p, m, o)
    {
      OthersLeave(n, c, st, p);
      OutFacts(n, p, m, o);
      LocalExecute(n.meaning, o.act.update, map[], c.locals[p], c.globals, c'.globals);
      LocalGuardHolds(n.meaning, o, map[], c.locals[p], c.globals, c'.globals);
      if GuardHolds(n.meaning, o.act.guard, map[], c.locals[p], c.globals) {
        OthersKeepCounterpart(n, c0, c, st, p, m, o.dst,
                              Execute(n.meaning, o.act.update, map[], c.locals[p], c.globals).0);
      }
    }
    assert c'.locs[p] == c.locs[p] && c'.locals[p] == c.locals[p];
    if GuardedExit(n.graphs[p], m) {
      var i :| StandsAside(n, c0, c, p, m, i);
      var o := InFacts(n, p, m, i);
      OthersKeepCounterpart(n, c0, c, st, p, m, i.src, c.locals[p]);
      assert StandsAside(n, c0, c', p, m, i);
    }
  }

  lemma SomeExit(n: Network, p: nat, m: string) returns (o: Edge)
    requires Removes(n, p, m)
    ensures o in Outgoing(n.graphs[p], m)
  {
    o :| o in Outgoing(n.graphs[p], m);
  }

  lemma OutFacts(n: Network, p: nat, m: string, o: Edge)
    requires Removes(n, p, m) && o in Outgoing(n.graphs[p], m)
    ensures o.dst != m && IsNormal(n.graphs[p], o.dst) && o.act.select == []
    ensures !LocalIn(n.graphs[p], m) ==> LocalEdge(n.meaning, o)
  {
    if !LocalIn(n.graphs[p], m) {
      assert !o.UsesGlobals();
      UnflaggedIsLocal(n.meaning, n.graphs[p], o);
    }
  }

  lemma OthersLeave(n: Network, c: Config, st: Step, p: nat)
    requires Fits(n, c) && p < |n.graphs| && Enabled(n, c, st) && !Involves(st, p)
    ensures After(n, c, st).locs[p] == c.locs[p] && After(n, c, st).locals[p] == c.locals[p]
  {
    OthersStep(n, c, st, n, c, p);
  }

  /** A step along an edge that does not touch m is a step of the reduced network. */
  lemma UntouchedSimulated(n: Network, c0: Config, c: Config, st: Step, p: nat, m: string)
    requires Removes(n, p, m) && Simulated(n, c0, c, p, m)
    requires Enabled(n, c, st) && Involves(st, p) && EdgeOf(st, p).src != m && EdgeOf(st, p).dst != m
    ensures Simulated(n, c0, After(n, c, st), p, m)
  {
    var n1, e, v := Reduced(n, p, m), EdgeOf(st, p), PicksOf(st, p);
    TakesItsEdge(n, c, st, p);
    assert e in n1.graphs[p].edges;
    TwinOfReduced(n, c, p, m, c.locs[p], c.locals[p]);
    assert c == Put(c, p, c.locs[p], c.locals[p]);
    hide CanRemove, AllAccurate, Execute, GuardHolds, Picks, Enabled, After, Reachable;
    ReplaceEdge(n, c, st, n1, c, p, e, v);
    var st1 := WithEdge(st, p, e, v);
    TakeStep(n1, c0, c, st1);
    assert After(n1, c, st1) == After(n, c, st);
  }

  lemma TakesItsEdge(n: Network, c: Config, st: Step, p: nat)
    requires Fits(n, c) && Enabled(n, c, st) && Involves(st, p)
    ensures CanTake(n, c, p, EdgeOf(st, p), PicksOf(st, p))
    ensures EdgeOf(st, p).act.sync.None? <==> st.Alone?
    ensures EdgeOf(st, p).act.select == [] ==> PicksOf(st, p) == map[]
  {
  }

  // ---------- Steps into m ----------

  lemma EntersLocally(n: Network, c0: Config, c: Config, st: Step, p: nat, m: string)
    requires Removes(n, p, m) && Simulated(n, c0, c, p, m) && LocalIn(n.graphs[p], m)
    requires Enabled(n, c, st) && Involves(st, p) && EdgeOf(st, p).dst == m
    ensures Simulated(n, c0, After(n, c, st), p, m)
  {
    var i := EdgeOf(st, p);
    TakesItsEdge(n, c, st, p);
    assert i in Incoming(n.graphs[p], m);
    var o := InFacts(n, p, m, i);
    var c' := After(n, c, st);
    LocalExecute(n.meaning, i.act.update, map[], c.locals[p], c.globals, c.globals);
    assert Put(c', p, i.src, c.locals[p]) == c;
    assert StandsBefore(n, c0, c', p, m, i, c.locals[p]);
  }

  /** Taking i and o at once is a step of the reduced network if o may be taken after i. */
  lemma ComposedStep(n: Network, c0: Config, c: Config, st: Step, p: nat, m: string, o: Edge)
    requires Removes(n, p, m) && Simulated(n, c0, c, p, m) && !LocalIn(n.graphs[p], m)
    requires Enabled(n, c, st) && Involves(st, p) && EdgeOf(st, p).dst == m
    requires o in Outgoing(n.graphs[p], m)
    requires var c' := After(n, c, st); GuardHolds(n.meaning, o.act.guard, map[], c'.locals[p], c'.globals)
    ensures StandsBehind(n, c0, After(n, c, st), p, m, o)
  {
    var i, n1, c', g := EdgeOf(st, p), Reduced(n, p, m), After(n, c, st), Arrival(n, c, st, p);
    var v, e1 := PicksOf(st, p), Compose(i, o);
    TakesItsEdge(n, c, st, p);
    assert i in Incoming(n.graphs[p], m);
    InAndOut(n, p, m, i, o);
    TwinOfReduced(n, c, p, m, c.locs[p], c.locals[p]);
    assert c == Put(c, p, c.locs[p], c.locals[p]);
    OwnEffect(n, c, st, p);
    hide CanRemove, AllAccurate, Enabled, After, Reachable, Incoming, Outgoing;
    var l1 := Execute(n.meaning, i.act.update, map[], c.locals[p], g).0;
    assert c'.locals[p] == l1;
    ComposedGuard(n, i, o, c.locals[p], c.globals);
    if o.act.guard != [] {
      assert l1 == c.locals[p];
      LocalGuardHolds(n.meaning, o, map[], l1, c'.globals, c.globals);
    }
    ComposedExecute(n, i, o, c.locals[p], g);
    LocalExecute(n.meaning, o.act.update, map[], l1, Execute(n.meaning, i.act.update, map[], c.locals[p], g).1, c'.globals);
    ReplaceEdge(n, c, st, n1, c, p, e1, map[]);
    TakeStep(n1, c0, c, WithEdge(st, p, e1, map[]));
  }

  /** What a step does to a process that takes part in it. */
  lemma OwnEffect(n: Network, c: Config, st: Step, p: nat)
    requires Fits(n, c) && Enabled(n, c, st) && Involves(st, p)
    ensures After(n, c, st).locs[p] == EdgeOf(st, p).dst
    ensures After(n, c, st).locals[p]
            == Execute(n.meaning, EdgeOf(st, p).act.update, PicksOf(st, p), c.locals[p], Arrival(n, c, st, p)).0
  {
    TakesItsEdge(n, c, st, p);
    assert c == Put(c, p, c.locs[p], c.locals[p]);
    ReplaceEdge(n, c, st, n, c, p, EdgeOf(st, p), PicksOf(st, p));
  }

  lemma EntersGlobally(n: Network, c0: Config, c: Config, st: Step, p: nat, m: string)
    requires Removes(n, p, m) && Simulated(n, c0, c, p, m) && !LocalIn(n.graphs[p], m)
    requires Enabled(n, c, st) && Involves(st, p) && EdgeOf(st, p).dst == m
    ensures Simulated(n, c0, After(n, c, st), p, m)
  {
    var i, c' := EdgeOf(st, p), After(n, c, st);
    TakesItsEdge(n, c, st, p);
    assert i in Incoming(n.graphs[p], m);
    var o0 := InFacts(n, p, m, i);
    OwnEffect(n, c, st, p);
    assert c.locs[p] != m;
    hide CanRemove, AllAccurate, Enabled, After, Reachable, Incoming, Outgoing, Execute, GuardHolds, LocalIn;
    forall o | o in Outgoing(n.graphs[p], m) && GuardHolds(n.meaning, o.act.guard, map[], c'.locals[p], c'.globals)
      ensures StandsBehind(n, c0, c', p, m, o)
    {
      ComposedStep(n, c0, c, st, p, m, o);
    }
    if GuardedExit(n.graphs[p], m) {
      EntersAside(n, c0, c, st, p, m);
    }
  }

  lemma EntersAside(n: Network, c0: Config, c: Config, st: Step, p: nat, m: string)
    requires Removes(n, p, m) && Fits(n, c) && c.locs[p] != m && Reachable(Reduced(n, p, m), c0, c)
    requires Enabled(n, c, st) && Involves(st, p) && EdgeOf(st, p).dst == m
    requires GuardedExit(n.graphs[p], m)
    ensures StandsAside(n, c0, After(n, c, st), p, m, EdgeOf(st, p))
  {
    var i := EdgeOf(st, p);
    hide CanRemove, AllAccurate, WellFormed, Reachable, SomeCommitted, GuardHolds, Execute;
    TakesItsEdge(n, c, st, p);
    assert i in Incoming(n.graphs[p], m);
    var o :| o in Outgoing(n.graphs[p], m) && o.act.guard != [];
    InAndOut(n, p, m, i, o);
    hide Incoming, Outgoing, GuardedExit;
    OnlyMoves(n, c, st, p, i);
  }

  /** A step that a process takes alone on an edge without an update changes its location only. */
  lemma OnlyMoves(n: Network, c: Config, st: Step, p: nat, i: Edge)
    requires Fits(n, c) && Enabled(n, c, st) && Involves(st, p) && EdgeOf(st, p) == i && i.src == c.locs[p]
    requires i.act.sync.None? && i.act.update == [] && i.act.select == []
    ensures var c' := After(n, c, st); Put(c', p, i.src, c'.locals[p]) == c
  {
    hide SomeCommitted, GuardHolds;
    assert st == Alone(p, i, map[]);
  }

  // ---------- Steps out of m ----------

  lemma LeavesLocally(n: Network, c0: Config, c: Config, st: Step, p: nat, m: string)
    requires Removes(n, p, m) && Simulated(n, c0, c, p, m) && LocalIn(n.graphs[p], m)
    requires Enabled(n, c, st) && Involves(st, p) && EdgeOf(st, p).src == m
    ensures Simulated(n, c0, After(n, c, st), p, m)
  {
    TakesItsEdge(n, c, st, p);
    var i, l0 :| StandsBefore(n, c0, c, p, m, i, l0);
    ComposedExit(n, c0, c, st, p, m, i, l0);
  }

  /** Before i, the composed edge does what o does at m. */
  lemma ComposedExitEdge(n: Network, c0: Config, c: Config, p: nat, m: string, i: Edge, l0: Store, o: Edge, g: Store)
    requires Removes(n, p, m) && Fits(n, c) && StandsBefore(n, c0, c, p, m, i, l0) && LocalIn(n.graphs[p], m)
    requires CanTake(n, c, p, o, map[]) && o in Outgoing(n.graphs[p], m)
    ensures i.src != m && IsNormal(n.graphs[p], i.src)
    ensures CanTake(Reduced(n, p, m), Put(c, p, i.src, l0), p, Compose(i, o), map[])
    ensures SamePort(n, o, map[], c.locals[p], Compose(i, o), map[], l0, c.globals)
    ensures Execute(n.meaning, Compose(i, o).act.update, map[], l0, g)
            == Execute(n.meaning, o.act.update, map[], c.locals[p], g)
  {
    InAndOut(n, p, m, i, o);
    hide CanRemove, AllAccurate, Reachable, Incoming, Outgoing, Execute, GuardHolds, LocalIn;
    ComposedGuard(n, i, o, l0, c.globals);
    LocalExecute(n.meaning, i.act.update, map[], l0, g, c.globals);
    ComposedExecute(n, i, o, l0, g);
    if o.act.guard != [] || o.act.sync.Some? {
      EmptyExecute(n, i, l0, c.globals);
      assert l0 == c.locals[p];
    }
  }

  lemma EmptyExecute(n: Network, i: Edge, l: Store, g: Store)
    requires i.act.update == []
    ensures Execute(n.meaning, i.act.update, map[], l, g) == (l, g)
  {
  }

  /** Taking i and o at once from before i is a step of the reduced network. */
  lemma ComposedExit(n: Network, c0: Config, c: Config, st: Step, p: nat, m: string, i: Edge, l0: Store)
    requires Removes(n, p, m) && Fits(n, c) && StandsBefore(n, c0, c, p, m, i, l0) && LocalIn(n.graphs[p], m)
    requires Enabled(n, c, st) && Involves(st, p) && EdgeOf(st, p).src == m
    ensures Reachable(Reduced(n, p, m), c0, After(n, c, st)) && After(n, c, st).locs[p] != m
  {
    var o := EdgeOf(st, p);
    TakesItsEdge(n, c, st, p);
    assert o in Outgoing(n.graphs[p], m);
    OutFacts(n, p, m, o);
    hide CanRemove, AllAccurate, Enabled, After, Reachable, Incoming, Outgoing, Twin, Execute, GuardHolds, SamePort;
    ComposedExitEdge(n, c0, c, p, m, i, l0, o, Arrival(n, c, st, p));
    TwinOfReduced(n, c, p, m, i.src, l0);
    TwinArrives(n, c, st, Reduced(n, p, m), c0, Put(c, p, i.src, l0), p, Compose(i, o), map[]);
  }

  lemma LeavesGlobally(n: Network, c0: Config, c: Config, st: Step, p: nat, m: string)
    requires Removes(n, p, m) && Simulated(n, c0, c, p, m) && !LocalIn(n.graphs[p], m)
    requires Enabled(n, c, st) && Involves(st, p) && EdgeOf(st, p).src == m
    ensures Simulated(n, c0, After(n, c, st), p, m)
  {
    var o, c' := EdgeOf(st, p), After(n, c, st);
    TakesItsEdge(n, c, st, p);
    assert o in Outgoing(n.graphs[p], m);
    OutFacts(n, p, m, o);
    LocalExecute(n.meaning, o.act.update, map[], c.locals[p], c.globals, c.globals);
    assert StandsBehind(n, c0, c, p, m, o);
    assert c' == Put(c, p, o.dst, Execute(n.meaning, o.act.update, map[], c.locals[p], c.globals).0);
  }

  // ---------- Runs ----------

  lemma StepSimulated(n: Network, c0: Config, c: Config, st: Step, p: nat, m: string)
    requires Removes(n, p, m) && Simulated(n, c0, c, p, m) && Enabled(n, c, st)
    ensures Simulated(n, c0, After(n, c, st), p, m)
  {
    hide Simulated, WellFormed, CanRemove, AllAccurate, Enabled, After, LocalIn;
    if !Involves(st, p) {
      OthersSimulated(n, c0, c, st, p, m);
    } else if EdgeOf(st, p).dst == m {
      if LocalIn(n.graphs[p], m) {
        EntersLocally(n, c0, c, st, p, m);
      } else {
        EntersGlobally(n, c0, c, st, p, m);
      }
    } else if EdgeOf(st, p).src == m {
      if LocalIn(n.graphs[p], m) {
        LeavesLocally(n, c0, c, st, p, m);
      } else {
        LeavesGlobally(n, c0, c, st, p, m);
      }
    } else {
      UntouchedSimulated(n, c0, c, st, p, m);
    }
  }

  lemma {:induction false} RunSimulated(n: Network, run: seq<Config>, p: nat, m: string)
    requires Removes(n, p, m) && IsRun(n, run) && run[0].locs[p] != m
    ensures Simulated(n, run[0], run[|run| - 1], p, m)
  {
    if |run| == 1 {
      var n1 := Reduced(n, p, m);
      assert IsRun(n1, run);
    } else {
      var shorter, st := LastStep(n, run);
      hide IsRun, Enabled, After, CanRemove, AllAccurate, WellFormed, Simulated;
      RunSimulated(n, shorter, p, m);
      StepSimulated(n, run[0], run[|run| - 2], st, p, m);
    }
  }

  /** The configurations agree on the globals and on every process but p. */
  predicate AgreeElsewhere(c: Config, c1: Config, p: nat) {
    && c1.globals == c.globals && |c1.locs| == |c.locs| && |c1.locals| == |c.locals|
    && (forall q :: 0 <= q < |c.locs| && q != p ==> c1.locs[q] == c.locs[q])
    && (forall q :: 0 <= q < |c.locals| && q != p ==> c1.locals[q] == c.locals[q])
  }

  /** Nothing reachable is lost by removing a location: a configuration with p elsewhere stays reachable,
      and one with p at m has a counterpart that differs in p alone. */
  lemma NothingLost(n: Network, c0: Config, c: Config, p: nat, m: string)
    requires Removes(n, p, m) && Fits(n, c0) && c0.locs[p] != m
    requires Reachable(n, c0, c)
    ensures Fits(n, c)
    ensures c.locs[p] != m ==> Reachable(Reduced(n, p, m), c0, c)
    ensures c.locs[p] == m ==> exists c1 :: Reachable(Reduced(n, p, m), c0, c1) && AgreeElsewhere(c, c1, p)
  {
    var run :| IsRun(n, run) && run[0] == c0 && run[|run| - 1] == c;
    RunSimulated(n, run, p, m);
    hide Reachable, CanRemove, AllAccurate;
    if c.locs[p] == m {
      var c1 := Counterpart(n, c0, c, p, m);
    }
  }

  lemma Counterpart(n: Network, c0: Config, c: Config, p: nat, m: string) returns (c1: Config)
    requires Removes(n, p, m) && Simulated(n, c0, c, p, m) && c.locs[p] == m
    ensures Reachable(Reduced(n, p, m), c0, c1) && AgreeElsewhere(c, c1, p)
  {
    if LocalIn(n.graphs[p], m) {
      var i, l0 :| StandsBefore(n, c0, c, p, m, i, l0);
      c1 := Put(c, p, i.src, l0);
    } else if GuardedExit(n.graphs[p], m) {
      var i :| StandsAside(n, c0, c, p, m, i);
      c1 := Put(c, p, i.src, c.locals[p]);
    } else {
      var o := SomeExit(n, p, m);
      assert StandsBehind(n, c0, c, p, m, o);
      c1 := Put(c, p, o.dst, Execute(n.meaning, o.act.update, map[], c.locals[p], c.globals).0);
    }
  }
}
