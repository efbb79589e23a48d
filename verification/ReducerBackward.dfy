module ReducerBackward {
  // What the reduced network reaches at rest, the original network reaches too, provided no committed partner
  // hurries the process past the removed location.

  import opened UppaalGraphs
  import opened ReducerSteps
  import opened ReducerForward

  ghost predicate CanMeet(e: Edge, f: Edge) {
    && e.act.sync.Some? && f.act.sync.Some?
    && e.act.sync.value.family == f.act.sync.value.family && e.act.sync.value.emits != f.act.sync.value.emits
  }

  /** No other process offers the other half of e's handshake from a committed location. */
  ghost predicate NoHurry(n: Network, p: nat, e: Edge) {
    forall q, f :: 0 <= q < |n.graphs| && q != p && f in n.graphs[q].edges && CanMeet(e, f) ==>
      !(f.src in n.graphs[q].types && n.graphs[q].types[f.src].Committed?)
  }

  ghost predicate SyncedIn(g: Graph, m: string) { exists i :: i in Incoming(g, m) && i.act.sync.Some? }

  /** The condition the reducer does not check: no committed partner for a handshake right behind the removed
      location. A process that comes to the location alone and at rest goes on at rest. */
  ghost predicate Unhurried(n: Network, p: nat, m: string)
    requires p < |n.graphs|
  {
    if LocalIn(n.graphs[p], m) then
      forall i, o :: i in Incoming(n.graphs[p], m) && o in Outgoing(n.graphs[p], m) ==> NoHurry(n, p, o)
    else
      SyncedIn(n.graphs[p], m) ==>
        forall o, f :: o in Outgoing(n.graphs[p], m) && f in Outgoing(n.graphs[p], o.dst) ==> NoHurry(n, p, f)
  }

  /** While something is committed, the original process may still be at m, about to take o. */
  ghost predicate Lags(n: Network, c0: Config, c1: Config, p: nat, m: string, o: Edge, l: Store)
    requires p < |n.graphs| && Fits(n, c1)
  {
    && o in Outgoing(n.graphs[p], m) && c1.locs[p] == o.dst
    && GuardHolds(n.meaning, o.act.guard, map[], l, c1.globals)
    && Execute(n.meaning, o.act.update, map[], l, c1.globals).0 == c1.locals[p]
    && Reachable(n, c0, Put(c1, p, m, l))
  }

  ghost predicate Matched(n: Network, c0: Config, c1: Config, p: nat, m: string)
    requires p < |n.graphs|
  {
    && Fits(n, c1) && c1.locs[p] != m
    && (|| Reachable(n, c0, c1)
        || (&& SomeCommitted(n, c1) && !LocalIn(n.graphs[p], m) && SyncedIn(n.graphs[p], m)
            && exists o, l :: Lags(n, c0, c1, p, m, o, l)))
  }

  lemma TwinOfOriginal(n: Network, c1: Config, p: nat, m: string, a: string, l: Store)
    requires Removes(n, p, m) && Fits(n, c1) && c1.locs[p] != m
    requires a == c1.locs[p] || (a == m && IsNormal(n.graphs[p], c1.locs[p]))
    ensures Twin(Reduced(n, p, m), c1, n, Put(c1, p, a, l), p)
  {
  }

  lemma SameCommitment(n: Network, c1: Config, p: nat, m: string)
    requires Removes(n, p, m) && Fits(n, c1) && c1.locs[p] != m
    ensures SomeCommitted(Reduced(n, p, m), c1) <==> SomeCommitted(n, c1)
  {
    TwinOfOriginal(n, c1, p, m, c1.locs[p], c1.locals[p]);
    assert c1 == Put(c1, p, c1.locs[p], c1.locals[p]);
    TwinCommitted(Reduced(n, p, m), c1, n, c1, p);
  }

  /** At rest the original process can take the edge it was about to take. */
  lemma CatchUp(n: Network, c0: Config, c1: Config, p: nat, m: string, o: Edge, l: Store)
    requires Removes(n, p, m) && Fits(n, c1) && !LocalIn(n.graphs[p], m) && Lags(n, c0, c1, p, m, o, l)
    requires SyncedIn(n.graphs[p], m) || !SomeCommitted(n, c1)
    ensures Matched(n, c0, c1, p, m)
  {
    OutFacts(n, p, m, o);
    if !SomeCommitted(n, c1) {
      var c := Put(c1, p, m, l);
      TwinOfOriginal(n, c1, p, m, m, l);
      TwinCommitted(Reduced(n, p, m), c1, n, c, p);
      SameCommitment(n, c1, p, m);
      hide CanRemove, AllAccurate, WellFormed, Twin, SomeCommitted, Reachable;
      LocalExecute(n.meaning, o.act.update, map[], l, c1.globals, c1.globals);
      assert CanTake(n, c, p, o, map[]);
      assert Enabled(n, c, Alone(p, o, map[]));
      TakeStep(n, c0, c, Alone(p, o, map[]));
      assert After(n, c, Alone(p, o, map[])) == c1;
    }
  }

  lemma OthersMatched(n: Network, c0: Config, c1: Config, st: Step, p: nat, m: string)
    requires Removes(n, p, m) && Matched(n, c0, c1, p, m)
    requires Enabled(Reduced(n, p, m), c1, st) && !Involves(st, p)
    ensures Matched(n, c0, After(Reduced(n, p, m), c1, st), p, m)
  {
    var n1 := Reduced(n, p, m);
    var c1' := After(n1, c1, st);
    hide Enabled, After, Reachable, CanRemove, Execute, GuardHolds, SomeCommitted, SyncedIn;
    if Reachable(n, c0, c1) {
      TwinOfOriginal(n, c1, p, m, c1.locs[p], c1.locals[p]);
      assert c1 == Put(c1, p, c1.locs[p], c1.locals[p]);
      OthersStep(n1, c1, st, n, c1, p);
      TakeStep(n, c0, c1, st);
      assert c1' == Put(c1', p, c1.locs[p], c1.locals[p]);
    } else {
      var o, l :| Lags(n, c0, c1, p, m, o, l);
      var c := Put(c1, p, m, l);
      OutFacts(n, p, m, o);
      TwinOfOriginal(n, c1, p, m, m, l);
      OthersStep(n1, c1, st, n, c, p);
      TakeStep(n, c0, c, st);
      LocalExecute(n.meaning, o.act.update, map[], l, c1.globals, c1'.globals);
      LocalGuardHolds(n.meaning, o, map[], l, c1.globals, c1'.globals);
      assert Lags(n, c0, c1', p, m, o, l);
      CatchUp(n, c0, c1', p, m, o, l);
    }
  }

  /** An edge of the reduced process is an edge of the original one or a composition. */
  lemma OldOrComposed(n: Network, p: nat, m: string, e: Edge) returns (i: Edge, o: Edge)
    requires Removes(n, p, m) && e in Reduced(n, p, m).graphs[p].edges
    ensures e !in n.graphs[p].edges ==>
              i in Incoming(n.graphs[p], m) && o in Outgoing(n.graphs[p], m) && e == Compose(i, o)
    ensures e in n.graphs[p].edges ==> e.src != m
    ensures e.dst != m
  {
    var g := n.graphs[p];
    if e in Bypasses(g, m) {
      i, o :| i in Incoming(g, m) && o in Outgoing(g, m) && e == Compose(i, o);
      InAndOut(n, p, m, i, o);
    } else {
      i, o := e, e;
    }
  }

  lemma OldEdgeMatched(n: Network, c0: Config, c1: Config, st: Step, p: nat, m: string)
    requires Removes(n, p, m) && Matched(n, c0, c1, p, m) && Reachable(n, c0, c1)
    requires Enabled(Reduced(n, p, m), c1, st) && Involves(st, p) && EdgeOf(st, p) in n.graphs[p].edges
    ensures Matched(n, c0, After(Reduced(n, p, m), c1, st), p, m)
  {
    var n1, e, v := Reduced(n, p, m), EdgeOf(st, p), PicksOf(st, p);
    TakesItsEdge(n1, c1, st, p);
    var i, o := OldOrComposed(n, p, m, e);
    TwinOfOriginal(n, c1, p, m, c1.locs[p], c1.locals[p]);
    assert c1 == Put(c1, p, c1.locs[p], c1.locals[p]);
    hide CanRemove, AllAccurate, Execute, GuardHolds, Picks, Enabled, After, Reachable;
    ReplaceEdge(n1, c1, st, n, c1, p, e, v);
    TakeStep(n, c0, c1, WithEdge(st, p, e, v));
    var c1' := After(n1, c1, st);
    assert c1' == Put(c1', p, e.dst, c1'.locals[p]);
  }

  // ---------- Composed edges ----------

  /** Where the edges into m are global, the original takes i in the very step and o once at rest. */
  lemma ComposedGlobally(n: Network, c0: Config, c1: Config, st: Step, p: nat, m: string, i: Edge, o: Edge)
    requires Removes(n, p, m) && Matched(n, c0, c1, p, m) && Reachable(n, c0, c1) && !LocalIn(n.graphs[p], m)
    requires i in Incoming(n.graphs[p], m) && o in Outgoing(n.graphs[p], m)
    requires Enabled(Reduced(n, p, m), c1, st) && Involves(st, p) && EdgeOf(st, p) == Compose(i, o)
    ensures Matched(n, c0, After(Reduced(n, p, m), c1, st), p, m)
  {
    var n1 := Reduced(n, p, m);
    var c1', g, l := After(n1, c1, st), Arrival(n1, c1, st, p), c1.locals[p];
    TakesItsEdge(n1, c1, st, p);
    InAndOut(n, p, m, i, o);
    TwinOfOriginal(n, c1, p, m, c1.locs[p], l);
    assert c1 == Put(c1, p, c1.locs[p], l);
    OwnEffect(n1, c1, st, p);
    if i.act.sync.None? {
      StaysAtRest(n, c1, st, p, m, o);
    }
    hide CanRemove, AllAccurate, Enabled, After, Reachable, Twin, Execute, GuardHolds, LocalIn, SomeCommitted, Lags;
    var l1 := Execute(n.meaning, i.act.update, map[], l, g).0;
    ComposedGuard(n, i, o, l, c1.globals);
    ComposedExecute(n, i, o, l, g);
    LocalExecute(n.meaning, o.act.update, map[], l1, Execute(n.meaning, i.act.update, map[], l, g).1, c1'.globals);
    assert CanTake(n, c1, p, i, map[]);
    ReplaceEdge(n1, c1, st, n, c1, p, i, map[]);
    TakeStep(n, c0, c1, WithEdge(st, p, i, map[]));
    GuardStillHolds(n, i, o, l, l1, c1.globals, c1'.globals, g);
    LagsAndCatchesUp(n, c0, c1', p, m, o, l1);
  }

  /** A step that a process takes alone to a normal location leaves the others at rest. */
  lemma StaysAtRest(n: Network, c1: Config, st: Step, p: nat, m: string, o: Edge)
    requires Removes(n, p, m) && Fits(n, c1) && c1.locs[p] != m && IsNormal(n.graphs[p], c1.locs[p])
    requires Enabled(Reduced(n, p, m), c1, st) && Involves(st, p)
    requires EdgeOf(st, p).act.sync.None? && EdgeOf(st, p).dst == o.dst && IsNormal(n.graphs[p], o.dst) && o.dst != m
    ensures !SomeCommitted(n, After(Reduced(n, p, m), c1, st))
  {
    var n1 := Reduced(n, p, m);
    var c1' := After(n1, c1, st);
    assert st.Alone? && st.p == p;
    assert !IsCommittedAt(n1, c1, p);
    hide Execute, GuardHolds, Picks;
    forall q | 0 <= q < |n.graphs| ensures !IsCommittedAt(n, c1', q) {
      if q != p {
        assert !IsCommittedAt(n1, c1, q);
      }
    }
  }

  lemma GuardStillHolds(n: Network, i: Edge, o: Edge, l: Store, l1: Store, g: Store, g': Store, at: Store)
    requires Composable(n.meaning, i, o, false) && GuardHolds(n.meaning, o.act.guard, map[], l, g)
    requires l1 == Execute(n.meaning, i.act.update, map[], l, at).0
    ensures GuardHolds(n.meaning, o.act.guard, map[], l1, g')
  {
    if o.act.guard != [] {
      EmptyExecute(n, i, l, at);
      LocalGuardHolds(n.meaning, o, map[], l, g, g');
    }
  }

  lemma LagsAndCatchesUp(n: Network, c0: Config, c1: Config, p: nat, m: string, o: Edge, l: Store)
    requires Removes(n, p, m) && Fits(n, c1) && !LocalIn(n.graphs[p], m)
    requires o in Outgoing(n.graphs[p], m) && c1.locs[p] == o.dst
    requires GuardHolds(n.meaning, o.act.guard, map[], l, c1.globals)
    requires Execute(n.meaning, o.act.update, map[], l, c1.globals).0 == c1.locals[p]
    requires Reachable(n, c0, Put(c1, p, m, l))
    requires SyncedIn(n.graphs[p], m) || !SomeCommitted(n, c1)
    ensures Matched(n, c0, c1, p, m)
  {
    assert Lags(n, c0, c1, p, m, o, l);
    CatchUp(n, c0, c1, p, m, o, l);
  }

  /** A handshake without a committed partner happens at rest if its own process is not committed. */
  lemma MeetsAtRest(n: Network, c: Config, st: Step, p: nat)
    requires Fits(n, c) && p < |n.graphs| && Enabled(n, c, st) && Involves(st, p) && !IsCommittedAt(n, c, p)
    requires NoHurry(n, p, EdgeOf(st, p))
    ensures !SomeCommitted(n, c)
  {
    match st
    case Alone(r, e, v) =>
    case Together(r, e, v, q, f, w) =>
      assert CanMeet(e, f) && CanMeet(f, e);
      if r == p {
        assert !IsCommittedAt(n, c, q);
      } else {
        assert !IsCommittedAt(n, c, r);
      }
  }

  /** The partners of p are the same in the reduced network. */
  lemma SameHurry(n: Network, p: nat, m: string, e: Edge, e1: Edge)
    requires p < |n.graphs| && NoHurry(n, p, e) && e1.act.sync == e.act.sync
    ensures NoHurry(Reduced(n, p, m), p, e1)
  {
    forall q, f | 0 <= q < |n.graphs| && q != p && f in Reduced(n, p, m).graphs[q].edges && CanMeet(e1, f)
      ensures !(f.src in n.graphs[q].types && n.graphs[q].types[f.src].Committed?)
    {
      assert f in n.graphs[q].edges && CanMeet(e, f);
    }
  }

  /** Where the edges into m are local, the original takes i at rest and o in the very step. */
  lemma ComposedLocally(n: Network, c0: Config, c1: Config, st: Step, p: nat, m: string, i: Edge, o: Edge)
    requires Removes(n, p, m) && Matched(n, c0, c1, p, m) && Reachable(n, c0, c1) && LocalIn(n.graphs[p], m)
    requires Unhurried(n, p, m)
    requires i in Incoming(n.graphs[p], m) && o in Outgoing(n.graphs[p], m)
    requires Enabled(Reduced(n, p, m), c1, st) && Involves(st, p) && EdgeOf(st, p) == Compose(i, o)
    ensures Matched(n, c0, After(Reduced(n, p, m), c1, st), p, m)
  {
    var n1 := Reduced(n, p, m);
    TakesItsEdge(n1, c1, st, p);
    InAndOut(n, p, m, i, o);
    SameHurry(n, p, m, o, Compose(i, o));
    assert !IsCommittedAt(n1, c1, p);
    MeetsAtRest(n1, c1, st, p);
    SameCommitment(n, c1, p, m);
    EntersAtRest(n, c0, c1, p, m, i, o);
    LeavesInStep(n, c0, c1, st, p, m, i, o);
  }

  lemma EntersAtRest(n: Network, c0: Config, c1: Config, p: nat, m: string, i: Edge, o: Edge)
    requires Removes(n, p, m) && Fits(n, c1) && Reachable(n, c0, c1) && !SomeCommitted(n, c1)
    requires i in Incoming(n.graphs[p], m) && i.src == c1.locs[p] && Composable(n.meaning, i, o, true)
    requires GuardHolds(n.meaning, Compose(i, o).act.guard, map[], c1.locals[p], c1.globals)
    ensures Reachable(n, c0, Put(c1, p, m, Execute(n.meaning, i.act.update, map[], c1.locals[p], c1.globals).0))
  {
    hide CanRemove, AllAccurate, Reachable, Execute, GuardHolds, SomeCommitted;
    ComposedGuard(n, i, o, c1.locals[p], c1.globals);
    LocalExecute(n.meaning, i.act.update, map[], c1.locals[p], c1.globals, c1.globals);
    assert CanTake(n, c1, p, i, map[]);
    assert Enabled(n, c1, Alone(p, i, map[]));
    TakeStep(n, c0, c1, Alone(p, i, map[]));
  }

  lemma LeavesInStep(n: Network, c0: Config, c1: Config, st: Step, p: nat, m: string, i: Edge, o: Edge)
    requires Removes(n, p, m) && Fits(n, c1) && c1.locs[p] != m
    requires Composable(n.meaning, i, o, true) && IsNormal(n.graphs[p], c1.locs[p]) && o.dst != m
    requires o in Outgoing(n.graphs[p], m)
    requires var l1 := Execute(n.meaning, i.act.update, map[], c1.locals[p], c1.globals).0;
             Reachable(n, c0, Put(c1, p, m, l1))
    requires Enabled(Reduced(n, p, m), c1, st) && Involves(st, p) && EdgeOf(st, p) == Compose(i, o)
    ensures Matched(n, c0, After(Reduced(n, p, m), c1, st), p, m)
  {
    var n1, l := Reduced(n, p, m), c1.locals[p];
    var l1 := Execute(n.meaning, i.act.update, map[], l, c1.globals).0;
    var g := Arrival(n1, c1, st, p);
    TakesItsEdge(n1, c1, st, p);
    TwinOfOriginal(n, c1, p, m, m, l1);
    assert o in n.graphs[p].edges && o.src == m;
    hide CanRemove, AllAccurate, Enabled, After, Reachable, Twin, Execute, GuardHolds, SomeCommitted;
    ComposedGuard(n, i, o, l, c1.globals);
    ComposedExecute(n, i, o, l, g);
    LocalExecute(n.meaning, i.act.update, map[], l, g, c1.globals);
    if o.act.guard != [] || o.act.sync.Some? {
      EmptyExecute(n, i, l, c1.globals);
      assert l1 == l;
    }
    TwinArrives(n1, c1, st, n, c0, Put(c1, p, m, l1), p, o, map[]);
  }

  // ---------- Runs ----------

  /** A process that lags takes no step before the others are at rest. */
  lemma LaggardRests(n: Network, c0: Config, c1: Config, st: Step, p: nat, m: string)
    requires Removes(n, p, m) && Unhurried(n, p, m) && Matched(n, c0, c1, p, m) && !Reachable(n, c0, c1)
    requires Enabled(Reduced(n, p, m), c1, st)
    ensures !Involves(st, p)
  {
    if Involves(st, p) {
      var n1, e := Reduced(n, p, m), EdgeOf(st, p);
      var o, l :| Lags(n, c0, c1, p, m, o, l);
      OutFacts(n, p, m, o);
      TakesItsEdge(n1, c1, st, p);
      var i, o' := OldOrComposed(n, p, m, e);
      var f := if e in n.graphs[p].edges then e else i;
      if e !in n.graphs[p].edges {
        InAndOut(n, p, m, i, o');
      }
      assert f in Outgoing(n.graphs[p], o.dst);
      SameHurry(n, p, m, f, e);
      MeetsAtRest(n1, c1, st, p);
      SameCommitment(n, c1, p, m);
      assert false;
    }
  }

  lemma StepMatched(n: Network, c0: Config, c1: Config, st: Step, p: nat, m: string)
    requires Removes(n, p, m) && Unhurried(n, p, m) && Matched(n, c0, c1, p, m)
    requires Enabled(Reduced(n, p, m), c1, st)
    ensures Matched(n, c0, After(Reduced(n, p, m), c1, st), p, m)
  {
    if !Involves(st, p) {
      OthersMatched(n, c0, c1, st, p, m);
    } else if !Reachable(n, c0, c1) {
      LaggardRests(n, c0, c1, st, p, m);
    } else {
      TakesItsEdge(Reduced(n, p, m), c1, st, p);
      var e := EdgeOf(st, p);
      var i, o := OldOrComposed(n, p, m, e);
      hide Matched, Enabled, After, LocalIn, Unhurried, Reachable, WellFormed, CanRemove, AllAccurate;
      if e in n.graphs[p].edges {
        OldEdgeMatched(n, c0, c1, st, p, m);
      } else if LocalIn(n.graphs[p], m) {
        ComposedLocally(n, c0, c1, st, p, m, i, o);
      } else {
        ComposedGlobally(n, c0, c1, st, p, m, i, o);
      }
    }
  }

  lemma {:induction false} RunMatched(n: Network, run: seq<Config>, p: nat, m: string)
    requires Removes(n, p, m) && Unhurried(n, p, m) && IsRun(Reduced(n, p, m), run) && run[0].locs[p] != m
    ensures Matched(n, run[0], run[|run| - 1], p, m)
  {
    var n1 := Reduced(n, p, m);
    if |run| == 1 {
      assert IsRun(n, run);
    } else {
      var shorter, st := LastStep(n1, run);
      hide IsRun, Enabled, After, CanRemove, AllAccurate, WellFormed, Matched, Unhurried;
      RunMatched(n, shorter, p, m);
      StepMatched(n, run[0], run[|run| - 2], st, p, m);
    }
  }

  /** Nobody but p is at a committed location. */
  ghost predicate OthersRest(n: Network, c: Config, p: nat)
    requires Fits(n, c)
  {
    forall q :: 0 <= q < |n.graphs| && q != p ==> !IsCommittedAt(n, c, q)
  }

  /** A configuration with p outside m and nobody else committed is reachable before the removal if and only
      if it is reachable after it. */
  lemma RemovalPreservesReachability(n: Network, c0: Config, c: Config, p: nat, m: string)
    requires Removes(n, p, m) && Unhurried(n, p, m)
    requires Fits(n, c0) && c0.locs[p] != m && Fits(n, c) && c.locs[p] != m && OthersRest(n, c, p)
    ensures Reachable(n, c0, c) <==> Reachable(Reduced(n, p, m), c0, c)
  {
    if Reachable(n, c0, c) {
      NothingLost(n, c0, c, p, m);
    }
    var n1 := Reduced(n, p, m);
    if Reachable(n1, c0, c) {
      var run :| IsRun(n1, run) && run[0] == c0 && run[|run| - 1] == c;
      RunMatched(n, run, p, m);
    }
  }

  /** While something is committed, what the reduced network reaches differs from what the original
      reaches in p alone, and not at all where the edges into m are local. */
  lemma NothingGained(n: Network, c0: Config, c1: Config, p: nat, m: string)
    requires Removes(n, p, m) && Unhurried(n, p, m) && Fits(n, c0) && c0.locs[p] != m
    requires Reachable(Reduced(n, p, m), c0, c1)
    ensures exists c :: Reachable(n, c0, c) && AgreeElsewhere(c1, c, p)
                        && (LocalIn(n.graphs[p], m) ==> c == c1)
  {
    var n1 := Reduced(n, p, m);
    var run :| IsRun(n1, run) && run[0] == c0 && run[|run| - 1] == c1;
    RunMatched(n, run, p, m);
    hide IsRun, Next, Matched, CanRemove, AllAccurate, LocalIn;
    var c := Original(n, c0, c1, p, m);
  }

  lemma Original(n: Network, c0: Config, c1: Config, p: nat, m: string) returns (c: Config)
    requires p < |n.graphs| && Matched(n, c0, c1, p, m)
    ensures Reachable(n, c0, c) && AgreeElsewhere(c1, c, p) && (LocalIn(n.graphs[p], m) ==> c == c1)
  {
    hide SomeCommitted, Reachable, LocalIn;
    c := c1;
    if !Reachable(n, c0, c1) {
      var o, l :| Lags(n, c0, c1, p, m, o, l);
      c := Put(c1, p, m, l);
    }
  }
}
