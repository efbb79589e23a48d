/** How one step of a network looks to a network in which a single process differs. */
module ReducerSteps {
  import opened UppaalGraphs

  ghost predicate SameElsewhere(n: Network, n1: Network, p: nat) {
    && n1.meaning == n.meaning && |n1.graphs| == |n.graphs| && p < |n.graphs|
    && forall q :: 0 <= q < |n.graphs| && q != p ==> n1.graphs[q] == n.graphs[q]
  }

  /** The two networks and configurations differ in process p only, which is committed in both or in
      neither. */
  ghost predicate Twin(n: Network, c: Config, n1: Network, c1: Config, p: nat) {
    && Fits(n, c) && SameElsewhere(n, n1, p) && Fits(n1, c1)
    && c1 == Put(c, p, c1.locs[p], c1.locals[p])
    && (IsCommittedAt(n, c, p) <==> IsCommittedAt(n1, c1, p))
  }

  predicate Involves(st: Step, p: nat) {
    match st
    case Alone(r, _, _) => r == p
    case Together(r, _, _, q, _, _) => r == p || q == p
  }

  /** The edge process p takes in the step, and its picks. */
  function EdgeOf(st: Step, p: nat): Edge
    requires Involves(st, p)
  {
    match st
    case Alone(_, e, _) => e
    case Together(r, e, _, _, f, _) => if r == p then e else f
  }

  function PicksOf(st: Step, p: nat): Store
    requires Involves(st, p)
  {
    match st
    case Alone(_, _, v) => v
    case Together(r, _, v, _, _, w) => if r == p then v else w
  }

  /** The same step with another edge for process p. */
  function WithEdge(st: Step, p: nat, e1: Edge, v1: Store): Step
    requires Involves(st, p)
  {
    match st
    case Alone(r, _, _) => Alone(r, e1, v1)
    case Together(r, e, v, q, f, w) => if r == p then Together(r, e1, v1, q, f, w) else Together(r, e, v, q, e1, v1)
  }

  /** The globals that process p's update starts from: those the emitting process leaves if p receives. */
  function Arrival(n: Network, c: Config, st: Step, p: nat): Store
    requires Fits(n, c) && Involves(st, p) && Enabled(n, c, st)
  {
    if st.Together? && st.p != p then Execute(n.meaning, st.e.act.update, st.v, c.locals[st.p], c.globals).1
    else c.globals
  }

  lemma TwinCommitted(n: Network, c: Config, n1: Network, c1: Config, p: nat)
    requires Twin(n, c, n1, c1, p)
    ensures SomeCommitted(n, c) <==> SomeCommitted(n1, c1)
    ensures forall q :: 0 <= q < |n.graphs| ==> (IsCommittedAt(n, c, q) <==> IsCommittedAt(n1, c1, q))
  {
    forall q | 0 <= q < |n.graphs| ensures IsCommittedAt(n, c, q) <==> IsCommittedAt(n1, c1, q) {
    }
  }

  /** A step that does not involve p is a step of the twin, with the same effect elsewhere. */
  lemma OthersStep(n: Network, c: Config, st: Step, n1: Network, c1: Config, p: nat)
    requires Twin(n, c, n1, c1, p) && Enabled(n, c, st) && !Involves(st, p)
    ensures Enabled(n1, c1, st)
    ensures After(n, c, st).locs[p] == c.locs[p] && After(n, c, st).locals[p] == c.locals[p]
    ensures After(n1, c1, st) == Put(After(n, c, st), p, c1.locs[p], c1.locals[p])
  {
    TwinCommitted(n, c, n1, c1, p);
    match st
    case Alone(r, e, v) =>
      assert CanTake(n1, c1, r, e, v);
    case Together(r, e, v, q, f, w) =>
      assert CanTake(n1, c1, r, e, v) && CanTake(n1, c1, q, f, w);
  }

  /** Both edges can meet the same partners on the same port. */
  ghost predicate SamePort(n: Network, e: Edge, v: Store, l: Store, e1: Edge, v1: Store, l1: Store, g: Store) {
    match e.act.sync
    case None => e1.act.sync.None?
    case Some(s) =>
      && e1.act.sync.Some?
      && (var s1 := e1.act.sync.value;
          && s1.family == s.family && s1.emits == s.emits
          && n.meaning.index(s.index, v, l, g) == n.meaning.index(s1.index, v1, l1, g))
  }

  lemma PartnerCanTake(n: Network, c: Config, n1: Network, c1: Config, p: nat, q: nat, f: Edge, w: Store)
    requires Twin(n, c, n1, c1, p) && p != q && CanTake(n, c, q, f, w)
    ensures CanTake(n1, c1, q, f, w)
  {
  }

  lemma ReplaceEnabled(n: Network, c: Config, st: Step, n1: Network, c1: Config, p: nat, e1: Edge, v1: Store)
    requires Twin(n, c, n1, c1, p) && Enabled(n, c, st) && Involves(st, p)
    requires CanTake(n1, c1, p, e1, v1)
    requires SamePort(n, EdgeOf(st, p), PicksOf(st, p), c.locals[p], e1, v1, c1.locals[p], c.globals)
    ensures Enabled(n1, c1, WithEdge(st, p, e1, v1))
  {
    TwinCommitted(n, c, n1, c1, p);
    match st
    case Alone(r, e, v) =>
    case Together(r, e, v, q, f, w) =>
      if r == p {
        PartnerCanTake(n, c, n1, c1, p, q, f, w);
      } else {
        PartnerCanTake(n, c, n1, c1, p, r, e, v);
      }
  }

  /** Where p takes another edge to the same port and with the same effect on the globals, the step
      differs in p's new location and locals only. */
  lemma ReplaceEdge(n: Network, c: Config, st: Step, n1: Network, c1: Config, p: nat, e1: Edge, v1: Store)
    requires Twin(n, c, n1, c1, p) && Enabled(n, c, st) && Involves(st, p)
    requires CanTake(n1, c1, p, e1, v1)
    requires SamePort(n, EdgeOf(st, p), PicksOf(st, p), c.locals[p], e1, v1, c1.locals[p], c.globals)
    requires var g := Arrival(n, c, st, p);
             Execute(n.meaning, e1.act.update, v1, c1.locals[p], g).1
             == Execute(n.meaning, EdgeOf(st, p).act.update, PicksOf(st, p), c.locals[p], g).1
    ensures Enabled(n1, c1, WithEdge(st, p, e1, v1))
    ensures var g := Arrival(n, c, st, p);
            && After(n, c, st).locs[p] == EdgeOf(st, p).dst
            && After(n, c, st).locals[p] == Execute(n.meaning, EdgeOf(st, p).act.update, PicksOf(st, p), c.locals[p], g).0
            && After(n1, c1, WithEdge(st, p, e1, v1))
               == Put(After(n, c, st), p, e1.dst, Execute(n.meaning, e1.act.update, v1, c1.locals[p], g).0)
  {
    ReplaceEnabled(n, c, st, n1, c1, p, e1, v1);
    hide CanTake, SomeCommitted, GuardHolds, Picks, Execute, SamePort;
    match st
    case Alone(r, e, v) =>
    case Together(r, e, v, q, f, w) =>
      if r == p {
        hide Moved;
        ReplaceEmitter(n, c, n1, c1, p, e, v, q, f, w, e1, v1);
      } else {
        hide Moved;
        ReplaceReceiver(n, c, n1, c1, r, e, v, p, f, w, e1, v1);
      }
  }

  lemma ReplaceEmitter(n: Network, c: Config, n1: Network, c1: Config,
                       p: nat, e: Edge, v: Store, q: nat, f: Edge, w: Store, e1: Edge, v1: Store)
    requires Fits(n, c) && SameElsewhere(n, n1, p) && Fits(n1, c1) && p != q && q < |n.graphs|
    requires c1 == Put(c, p, c1.locs[p], c1.locals[p])
    requires Execute(n.meaning, e1.act.update, v1, c1.locals[p], c.globals).1
             == Execute(n.meaning, e.act.update, v, c.locals[p], c.globals).1
    ensures var c' := Moved(n, Moved(n, c, p, e, v), q, f, w);
            c'.locs[p] == e.dst && c'.locals[p] == Execute(n.meaning, e.act.update, v, c.locals[p], c.globals).0
    ensures Moved(n1, Moved(n1, c1, p, e1, v1), q, f, w)
            == Put(Moved(n, Moved(n, c, p, e, v), q, f, w), p, e1.dst,
                   Execute(n.meaning, e1.act.update, v1, c1.locals[p], c.globals).0)
  {
    hide Execute;
    var a, b := Moved(n, c, p, e, v), Moved(n1, c1, p, e1, v1);
    assert b == Put(a, p, e1.dst, b.locals[p]);
    assert a.locals[q] == b.locals[q];
  }

  lemma ReplaceReceiver(n: Network, c: Config, n1: Network, c1: Config,
                        r: nat, e: Edge, v: Store, p: nat, f: Edge, w: Store, e1: Edge, v1: Store)
    requires Fits(n, c) && SameElsewhere(n, n1, p) && Fits(n1, c1) && p != r && r < |n.graphs|
    requires c1 == Put(c, p, c1.locs[p], c1.locals[p])
    requires var g := Execute(n.meaning, e.act.update, v, c.locals[r], c.globals).1;
             Execute(n.meaning, e1.act.update, v1, c1.locals[p], g).1
             == Execute(n.meaning, f.act.update, w, c.locals[p], g).1
    ensures var c', g := Moved(n, Moved(n, c, r, e, v), p, f, w),
                         Execute(n.meaning, e.act.update, v, c.locals[r], c.globals).1;
            c'.locs[p] == f.dst && c'.locals[p] == Execute(n.meaning, f.act.update, w, c.locals[p], g).0
    ensures Moved(n1, Moved(n1, c1, r, e, v), p, e1, v1)
            == Put(Moved(n, Moved(n, c, r, e, v), p, f, w), p, e1.dst,
                   Execute(n.meaning, e1.act.update, v1, c1.locals[p],
                           Execute(n.meaning, e.act.update, v, c.locals[r], c.globals).1).0)
  {
    hide Execute;
    var a, b := Moved(n, c, r, e, v), Moved(n1, c1, r, e, v);
    assert c1.locals[r] == c.locals[r];
    assert b == Put(a, p, c1.locs[p], c1.locals[p]);
  }

  lemma TakeStep(n: Network, c0: Config, c: Config, st: Step)
    requires Reachable(n, c0, c) && Fits(n, c) && Enabled(n, c, st)
    ensures Reachable(n, c0, After(n, c, st))
  {
    ReachableNext(n, c0, c, After(n, c, st));
  }

  /** Where p's other edge has the same effect and the same target, the twin arrives at the very
      configuration. */
  lemma TwinArrives(n: Network, c: Config, st: Step, n1: Network, c0: Config, c1: Config, p: nat, e1: Edge, v1: Store)
    requires Twin(n, c, n1, c1, p) && Enabled(n, c, st) && Involves(st, p)
    requires CanTake(n1, c1, p, e1, v1) && Reachable(n1, c0, c1)
    requires SamePort(n, EdgeOf(st, p), PicksOf(st, p), c.locals[p], e1, v1, c1.locals[p], c.globals)
    requires var g := Arrival(n, c, st, p);
             Execute(n.meaning, e1.act.update, v1, c1.locals[p], g)
             == Execute(n.meaning, EdgeOf(st, p).act.update, PicksOf(st, p), c.locals[p], g)
    requires e1.dst == EdgeOf(st, p).dst
    ensures After(n, c, st).locs[p] == e1.dst
    ensures Reachable(n1, c0, After(n, c, st))
  {
    hide Enabled, After, Reachable, Execute, GuardHolds, CanTake, SamePort, Picks, SomeCommitted;
    ReplaceEdge(n, c, st, n1, c1, p, e1, v1);
    TakeStep(n1, c0, c1, WithEdge(st, p, e1, v1));
    var c' := After(n, c, st);
    assert c' == Put(c', p, e1.dst, c'.locals[p]);
  }

  // ---------- Composition of updates ----------

  lemma {:induction false} ExecuteAppend(m: Meaning, a: seq<string>, b: seq<string>, v: Store, l: Store, g: Store)
    ensures var (l1, g1) := Execute(m, a, v, l, g); Execute(m, a + b, v, l, g) == Execute(m, b, v, l1, g1)
  {
    if a == [] {
      assert a + b == b;
    } else {
      var (l1, g1) := m.run(a[0], v, l, g);
      ExecuteAppend(m, a[1..], b, v, l1, g1);
      assert (a + b)[1..] == a[1..] + b;
    }
  }

  ghost predicate LocalUpdate(m: Meaning, e: Edge) {
    forall i :: 0 <= i < |e.act.update| ==> LocalStatement(m, e.act.update[i])
  }

  ghost predicate LocalGuard(m: Meaning, e: Edge) {
    forall i :: 0 <= i < |e.act.guard| ==> LocalAtom(m, e.act.guard[i])
  }

  /** An update of local statements leaves the globals alone and does not depend on them. */
  lemma {:induction false} LocalExecute(m: Meaning, u: seq<string>, v: Store, l: Store, g: Store, g': Store)
    requires forall i :: 0 <= i < |u| ==> LocalStatement(m, u[i])
    ensures Execute(m, u, v, l, g).1 == g
    ensures Execute(m, u, v, l, g).0 == Execute(m, u, v, l, g').0
  {
    if u != [] {
      assert LocalStatement(m, u[0]);
      var (l1, g1) := m.run(u[0], v, l, g);
      assert m.run(u[0], v, l, g').0 == l1 && m.run(u[0], v, l, g').1 == g';
      forall i | 0 <= i < |u[1..]| ensures LocalStatement(m, u[1..][i]) {
        assert u[1..][i] == u[i + 1];
      }
      LocalExecute(m, u[1..], v, l1, g, g');
    }
  }

  lemma LocalGuardHolds(m: Meaning, e: Edge, v: Store, l: Store, g: Store, g': Store)
    requires LocalGuard(m, e)
    ensures GuardHolds(m, e.act.guard, v, l, g) <==> GuardHolds(m, e.act.guard, v, l, g')
  {
    forall i | 0 <= i < |e.act.guard|
      ensures m.holds(e.act.guard[i], v, l, g) == m.holds(e.act.guard[i], v, l, g')
    {
      assert LocalAtom(m, e.act.guard[i]);
    }
  }

  lemma GuardAppend(m: Meaning, a: seq<string>, b: seq<string>, v: Store, l: Store, g: Store)
    ensures GuardHolds(m, a + b, v, l, g) <==> GuardHolds(m, a, v, l, g) && GuardHolds(m, b, v, l, g)
  {
    if GuardHolds(m, a + b, v, l, g) {
      forall i | 0 <= i < |a| ensures m.holds(a[i], v, l, g) { assert (a + b)[i] == a[i]; }
      forall i | 0 <= i < |b| ensures m.holds(b[i], v, l, g) { assert (a + b)[|a| + i] == b[i]; }
    }
  }
}
