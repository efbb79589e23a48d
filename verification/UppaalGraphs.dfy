/** Process graphs, their step semantics in a network, and the elimination of one location. */
module UppaalGraphs {

  datatype Option<T> = None | Some(value: T)

  datatype StateType = Normal | Committed | Urgent

  /** A handshake label: the name of the channel array, the index expression, and ! or ?. */
  datatype Sync = Sync(family: string, index: string, emits: bool)

  /** What an edge does. A guard is a conjunction and an update a list of statements; an empty one is
      no guard and no update. */
  datatype Label = Label(select: seq<string>, guard: seq<string>, sync: Option<Sync>, update: seq<string>)

  /** Locations are named. The flags say whether guard and update may use global variables. */
  datatype Edge = Edge(src: string, dst: string, act: Label, guardUsesGlobals: bool, updateUsesGlobals: bool) {
    predicate UsesGlobals() { guardUsesGlobals || act.sync.Some? || updateUsesGlobals }
  }

  datatype Graph = Graph(initial: Option<string>, types: map<string, StateType>, edges: set<Edge>)

  ghost predicate WellFormed(g: Graph) {
    && (g.initial.Some? ==> g.initial.value in g.types)
    && forall e :: e in g.edges ==> e.src in g.types && e.dst in g.types
  }

  // ---------- Step semantics ----------

  type Store = map<string, int>

  /** What atoms, statements and index expressions mean, given the values picked by the selections,
      the local and the global variables. */
  datatype Meaning = Meaning(
    pick: (seq<string>, Store) -> bool,
    holds: (string, Store, Store, Store) -> bool,
    run: (string, Store, Store, Store) -> (Store, Store),
    index: (string, Store, Store, Store) -> int)

  ghost predicate GuardHolds(m: Meaning, guard: seq<string>, v: Store, l: Store, g: Store) {
    forall i :: 0 <= i < |guard| ==> m.holds(guard[i], v, l, g)
  }

  function Execute(m: Meaning, update: seq<string>, v: Store, l: Store, g: Store): (Store, Store) {
    if update == [] then (l, g)
    else
      var (l1, g1) := m.run(update[0], v, l, g);
      Execute(m, update[1..], v, l1, g1)
  }

  /** Nothing is picked where nothing is selected. */
  ghost predicate Picks(m: Meaning, select: seq<string>, v: Store) {
    if select == [] then v == map[] else m.pick(select, v)
  }

  datatype Config = Config(locs: seq<string>, locals: seq<Store>, globals: Store)

  datatype Network = Network(meaning: Meaning, graphs: seq<Graph>)

  /** Process p takes edge e with picks v, alone or together with process q on edge f with picks w. */
  datatype Step =
    | Alone(p: nat, e: Edge, v: Store)
    | Together(p: nat, e: Edge, v: Store, q: nat, f: Edge, w: Store)

  ghost predicate Fits(n: Network, c: Config) {
    |c.locs| == |c.locals| == |n.graphs|
  }

  ghost predicate IsCommittedAt(n: Network, c: Config, p: nat)
    requires Fits(n, c) && p < |n.graphs|
  {
    c.locs[p] in n.graphs[p].types && n.graphs[p].types[c.locs[p]].Committed?
  }

  ghost predicate SomeCommitted(n: Network, c: Config)
    requires Fits(n, c)
  {
    exists p :: 0 <= p < |n.graphs| && IsCommittedAt(n, c, p)
  }

  /** Location, picks and guard allow process p to take edge e. */
  ghost predicate CanTake(n: Network, c: Config, p: nat, e: Edge, v: Store)
    requires Fits(n, c)
  {
    && p < |n.graphs| && e in n.graphs[p].edges && e.src == c.locs[p]
    && Picks(n.meaning, e.act.select, v) && GuardHolds(n.meaning, e.act.guard, v, c.locals[p], c.globals)
  }

  function PortIndex(n: Network, c: Config, p: nat, s: Sync, v: Store): int
    requires Fits(n, c) && p < |n.graphs|
  {
    n.meaning.index(s.index, v, c.locals[p], c.globals)
  }

  /** Enabled steps: an internal edge, or two edges that meet on the same port; while a location is
      committed, a committed process has to take part. */
  ghost predicate Enabled(n: Network, c: Config, st: Step)
    requires Fits(n, c)
  {
    match st
    case Alone(p, e, v) =>
      CanTake(n, c, p, e, v) && e.act.sync.None? && (SomeCommitted(n, c) ==> IsCommittedAt(n, c, p))
    case Together(p, e, v, q, f, w) =>
      && p != q && CanTake(n, c, p, e, v) && CanTake(n, c, q, f, w)
      && e.act.sync.Some? && f.act.sync.Some?
      && (var x, y := e.act.sync.value, f.act.sync.value;
          x.emits && !y.emits && x.family == y.family && PortIndex(n, c, p, x, v) == PortIndex(n, c, q, y, w))
      && (SomeCommitted(n, c) ==> IsCommittedAt(n, c, p) || IsCommittedAt(n, c, q))
  }

  /** Configuration c with process p at location a with locals l. */
  function Put(c: Config, p: nat, a: string, l: Store): Config
    requires p < |c.locs| && p < |c.locals|
  {
    Config(c.locs[p := a], c.locals[p := l], c.globals)
  }

  function Moved(n: Network, c: Config, p: nat, e: Edge, v: Store): Config
    requires Fits(n, c) && p < |n.graphs|
  {
    var (l, g) := Execute(n.meaning, e.act.update, v, c.locals[p], c.globals);
    Put(c, p, e.dst, l).(globals := g)
  }

  /** In a handshake the update of the emitting process runs first. */
  function After(n: Network, c: Config, st: Step): (c': Config)
    requires Fits(n, c) && Enabled(n, c, st)
    ensures Fits(n, c')
  {
    match st
    case Alone(p, e, v) => Moved(n, c, p, e, v)
    case Together(p, e, v, q, f, w) => Moved(n, Moved(n, c, p, e, v), q, f, w)
  }

  ghost predicate Next(n: Network, c: Config, c': Config) {
    Fits(n, c) && exists st :: Enabled(n, c, st) && c' == After(n, c, st)
  }

  ghost predicate IsRun(n: Network, run: seq<Config>) {
    |run| > 0 && Fits(n, run[0]) && forall k :: 0 <= k < |run| - 1 ==> Next(n, run[k], run[k + 1])
  }

  /** Configuration c is reached from c0 in finitely many steps. */
  ghost predicate Reachable(n: Network, c0: Config, c: Config) {
    exists run :: IsRun(n, run) && run[0] == c0 && run[|run| - 1] == c
  }

  /** A run of more than one configuration is a shorter run and one more step. */
  lemma LastStep(n: Network, run: seq<Config>) returns (shorter: seq<Config>, st: Step)
    requires IsRun(n, run) && |run| > 1
    ensures shorter == run[..|run| - 1] && IsRun(n, shorter)
    ensures Fits(n, run[|run| - 2]) && Enabled(n, run[|run| - 2], st) && run[|run| - 1] == After(n, run[|run| - 2], st)
  {
    shorter := run[..|run| - 1];
    forall k | 0 <= k < |shorter| - 1 ensures Next(n, shorter[k], shorter[k + 1]) {
      assert Next(n, run[k], run[k + 1]);
    }
    assert Next(n, run[|run| - 2], run[|run| - 2 + 1]);
    st :| Enabled(n, run[|run| - 2], st) && run[|run| - 1] == After(n, run[|run| - 2], st);
  }

  lemma ReachableNext(n: Network, c0: Config, c: Config, c': Config)
    requires Reachable(n, c0, c) && Next(n, c, c')
    ensures Reachable(n, c0, c')
  {
    var run :| IsRun(n, run) && run[0] == c0 && run[|run| - 1] == c;
    var longer := run + [c'];
    forall k | 0 <= k < |longer| - 1 ensures Next(n, longer[k], longer[k + 1]) {
      if k < |run| - 1 {
        assert Next(n, run[k], run[k + 1]);
      }
    }
    assert longer[0] == c0 && longer[|longer| - 1] == c';
    assert IsRun(n, longer);
  }

  // ---------- Flags ----------

  ghost predicate LocalAtom(m: Meaning, a: string) {
    forall v: Store, l: Store, g: Store, g': Store :: m.holds(a, v, l, g) == m.holds(a, v, l, g')
  }

  ghost predicate LocalStatement(m: Meaning, u: string) {
    forall v: Store, l: Store, g: Store, g': Store :: m.run(u, v, l, g).1 == g && m.run(u, v, l, g).0 == m.run(u, v, l, g').0
  }

  /** A flag that is not set means that only local variables are read and written. The flags of an edge with a sync do not
      matter: it counts as using globals anyway. */
  ghost predicate Accurate(m: Meaning, e: Edge) {
    e.act.sync.None? ==>
    && (!e.guardUsesGlobals ==> forall i :: 0 <= i < |e.act.guard| ==> LocalAtom(m, e.act.guard[i]))
    && (!e.updateUsesGlobals ==> forall i :: 0 <= i < |e.act.update| ==> LocalStatement(m, e.act.update[i]))
  }

  ghost predicate AllAccurate(m: Meaning, g: Graph) {
    forall e :: e in g.edges ==> Accurate(m, e)
  }

  // ---------- Elimination of a location ----------

  function Incoming(g: Graph, m: string): set<Edge> { set e | e in g.edges && e.dst == m }
  function Outgoing(g: Graph, m: string): set<Edge> { set e | e in g.edges && e.src == m }

  datatype Props = Props(hasGuard: bool, hasSync: bool, hasUpdate: bool, usesGlobals: bool)

  ghost function PropsOf(edges: set<Edge>): Props {
    Props(exists e :: e in edges && e.act.guard != [],
          exists e :: e in edges && e.act.sync.Some?,
          exists e :: e in edges && e.act.update != [],
          exists e :: e in edges && e.UsesGlobals())
  }

  ghost predicate IsNormal(g: Graph, m: string) { m in g.types && g.types[m].Normal? }

  /** The conditions under which the reducer removes location m. */
  ghost predicate CanRemove(g: Graph, m: string) {
    && IsNormal(g, m) && g.initial != Some(m)
    && (forall e :: e in g.edges && (e.src == m || e.dst == m) ==>
          e.src != e.dst && IsNormal(g, e.src) && IsNormal(g, e.dst) && e.act.select == [])
    && Outgoing(g, m) != {}
    && (var i, o := PropsOf(Incoming(g, m)), PropsOf(Outgoing(g, m));
        && !(i.usesGlobals && o.usesGlobals)
        && !((i.hasSync || i.hasUpdate) && o.hasGuard)
        && !(i.hasUpdate && o.hasSync))
  }

  /** The edge that takes i and then o at once. */
  function Compose(i: Edge, o: Edge): Edge {
    Edge(i.src, o.dst,
         Label([], i.act.guard + o.act.guard, if i.act.sync.Some? then i.act.sync else o.act.sync,
               i.act.update + o.act.update),
         (i.act.guard != [] && i.guardUsesGlobals) || (o.act.guard != [] && o.guardUsesGlobals),
         (i.act.update != [] && i.updateUsesGlobals) || (o.act.update != [] && o.updateUsesGlobals))
  }

  function Bypasses(g: Graph, m: string): set<Edge> {
    set i, o | i in Incoming(g, m) && o in Outgoing(g, m) :: Compose(i, o)
  }

  function Eliminate(g: Graph, m: string): Graph {
    Graph(g.initial, g.types - {m}, (set e | e in g.edges && e.src != m && e.dst != m) + Bypasses(g, m))
  }

  /** An edge into a location and one out of it may become one: at most one of them uses globals, nothing that i does comes before
      a guard of o, and no update of i before a sync of o. */
  predicate Mergeable(i: Edge, o: Edge) {
    && !(i.UsesGlobals() && o.UsesGlobals())
    && (o.act.guard != [] ==> i.act.sync.None? && i.act.update == [])
    && (o.act.sync.Some? ==> i.act.update == [])
  }

  /** The reducer removes a normal location between normal ones exactly if each edge into it may be merged with each edge out of it. */
  lemma RemovableExactly(g: Graph, m: string)
    ensures CanRemove(g, m)
            <==> && IsNormal(g, m) && g.initial != Some(m) && Outgoing(g, m) != {}
                 && (forall e :: e in Incoming(g, m) + Outgoing(g, m) ==>
                       e.src != e.dst && IsNormal(g, e.src) && IsNormal(g, e.dst) && e.act.select == [])
                 && (forall i, o :: i in Incoming(g, m) && o in Outgoing(g, m) ==> Mergeable(i, o))
  {
    var i, o := PropsOf(Incoming(g, m)), PropsOf(Outgoing(g, m));
    if i.usesGlobals && o.usesGlobals {
      var x, y :| x in Incoming(g, m) && y in Outgoing(g, m) && x.UsesGlobals() && y.UsesGlobals();
      assert !Mergeable(x, y);
    }
    if (i.hasSync || i.hasUpdate) && o.hasGuard {
      var x, y :| x in Incoming(g, m) && y in Outgoing(g, m) && (x.act.sync.Some? || x.act.update != []) && y.act.guard != [];
      assert !Mergeable(x, y);
    }
    if i.hasUpdate && o.hasSync {
      var x, y :| x in Incoming(g, m) && y in Outgoing(g, m) && x.act.update != [] && y.act.sync.Some?;
      assert !Mergeable(x, y);
    }
  }

  /** A flag counts only where there is a guard or an update. */
  predicate Touches(e: Edge) {
    || (e.act.guard != [] && e.guardUsesGlobals) || e.act.sync.Some? || (e.act.update != [] && e.updateUsesGlobals)
  }

  /** A composed edge uses globals exactly if one of its parts does. */
  lemma ComposedTouches(i: Edge, o: Edge)
    ensures Compose(i, o).UsesGlobals() <==> Touches(i) || Touches(o)
    ensures Touches(Compose(i, o)) <==> Compose(i, o).UsesGlobals()
  {
    assert i.act.guard + o.act.guard == [] <==> i.act.guard == [] && o.act.guard == [];
    assert i.act.update + o.act.update == [] <==> i.act.update == [] && o.act.update == [];
  }

  /** Of two locations in a row, it does not matter which one is removed first. */
  lemma ComposeAssociative(i: Edge, o: Edge, p: Edge)
    ensures Compose(Compose(i, o), p) == Compose(i, Compose(o, p))
  {
    ComposedTouches(i, o);
    assert (i.act.guard + o.act.guard) + p.act.guard == i.act.guard + (o.act.guard + p.act.guard);
    assert (i.act.update + o.act.update) + p.act.update == i.act.update + (o.act.update + p.act.update);
  }
}
