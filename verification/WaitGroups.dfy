module WaitGroups {
  // The wait group automaton and the goroutines that use it: a wait completes only at zero, and misuse is detected
  // exactly.

  datatype Loc = Idle | Adding | ActiveTasks | Bad

  datatype Port = NoPort | WaitPort | AddPort

  datatype Guard = Always | SomeWait | NoneWait | CounterZero | CounterPositive | CounterNegative

  datatype Edge = Edge(src: Loc, guard: Guard, port: Port, dst: Loc)

  const EDGE_COUNT := 7

  /** The edges, numbered in the order in which they are added to the process. */
  function EdgeAt(n: nat): Edge
    requires 1 <= n <= EDGE_COUNT
  {
    if n == 1 then Edge(Idle, SomeWait, WaitPort, Idle)
    else if n == 2 then Edge(Idle, NoneWait, AddPort, Adding)
    else if n == 3 then Edge(Adding, CounterZero, NoPort, Idle)
    else if n == 4 then Edge(Adding, CounterPositive, NoPort, ActiveTasks)
    else if n == 5 then Edge(ActiveTasks, Always, AddPort, Adding)
    else if n == 6 then Edge(Idle, SomeWait, AddPort, Bad)
    else Edge(Adding, CounterNegative, NoPort, Bad)
  }

  /** One wait group. The observer `total` sums the deltas added so far. */
  datatype Group = Group(loc: Loc, counter: int, waiters: int, total: int)

  predicate Holds(guard: Guard, group: Group) {
    match guard
    case Always => true
    case SomeWait => group.waiters > 0
    case NoneWait => group.waiters == 0
    case CounterZero => group.counter == 0
    case CounterPositive => group.counter > 0
    case CounterNegative => group.counter < 0
  }

  datatype Go = Running | Awaiting(group: nat)

  datatype Config = Config(groups: seq<Group>, gos: seq<Go>)

  /** In the last two, group w takes edge e together with goroutine g. */
  datatype Step =
    | Settle(w: nat, e: nat)
    | Register(g: nat, w: nat)
    | Complete(g: nat, w: nat, e: nat)
    | Add(g: nat, w: nat, e: nat, delta: int)

  predicate SomeCommitted(s: Config) {
    exists w :: 0 <= w < |s.groups| && s.groups[w].loc.Adding?
  }

  predicate EdgeEnabled(s: Config, w: nat, e: nat, port: Port) {
    && w < |s.groups| && 1 <= e <= EDGE_COUNT && EdgeAt(e).port == port
    && EdgeAt(e).src == s.groups[w].loc && Holds(EdgeAt(e).guard, s.groups[w])
    && (SomeCommitted(s) ==> s.groups[w].loc.Adding?)
  }

  predicate Enabled(s: Config, st: Step) {
    match st
    case Settle(w, e) => EdgeEnabled(s, w, e, NoPort)
    case Register(g, w) => g < |s.gos| && s.gos[g].Running? && w < |s.groups| && !SomeCommitted(s)
    case Complete(g, w, e) => EdgeEnabled(s, w, e, WaitPort) && g < |s.gos| && s.gos[g] == Awaiting(w)
    case Add(g, w, e, _) => EdgeEnabled(s, w, e, AddPort) && g < |s.gos| && s.gos[g].Running?
  }

  /** Guards read the variables of the configuration before the step. */
  function After(s: Config, st: Step): Config
    requires Enabled(s, st)
  {
    match st
    case Settle(w, e) => s.(groups := s.groups[w := s.groups[w].(loc := EdgeAt(e).dst)])
    case Register(g, w) =>
      Config(s.groups[w := s.groups[w].(waiters := s.groups[w].waiters + 1)], s.gos[g := Awaiting(w)])
    case Complete(g, w, e) =>
      Config(s.groups[w := s.groups[w].(waiters := s.groups[w].waiters - 1, loc := EdgeAt(e).dst)], s.gos[g := Running])
    case Add(_, w, e, delta) =>
      var group := s.groups[w];
      s.(groups := s.groups[w := Group(EdgeAt(e).dst, group.counter + delta, group.waiters, group.total + delta)])
  }

  predicate Next(s: Config, st: Step, s': Config) { Enabled(s, st) && s' == After(s, st) }

  predicate Init(s: Config) {
    && (forall w :: 0 <= w < |s.groups| ==> s.groups[w] == Group(Idle, 0, 0, 0))
    && (forall g :: 0 <= g < |s.gos| ==> s.gos[g] == Running)
  }

  predicate IsRun(run: seq<Config>, steps: seq<Step>) {
    && |run| == |steps| + 1 && Init(run[0])
    && forall k :: 0 <= k < |steps| ==> Next(run[k], steps[k], run[k + 1])
  }

  function Waiting(s: Config, w: nat): nat { multiset(s.gos)[Awaiting(w)] }

  predicate Ok(s: Config, w: nat)
    requires w < |s.groups|
  {
    var group := s.groups[w];
    && group.counter == group.total && group.waiters == Waiting(s, w)
    && (group.loc.Idle? ==> group.counter == 0)
    && (group.loc.ActiveTasks? ==> group.counter > 0)
  }

  predicate Inv(s: Config) { forall w :: 0 <= w < |s.groups| ==> Ok(s, w) }

  lemma WaitingAfter(s: Config, s': Config, g: nat, go: Go, w: nat)
    requires g < |s.gos| && s'.gos == s.gos[g := go]
    ensures Waiting(s', w) == Waiting(s, w) - (if s.gos[g] == Awaiting(w) then 1 else 0) + (if go == Awaiting(w) then 1 else 0)
  {
    assert multiset(s'.gos) == multiset(s.gos) - multiset{s.gos[g]} + multiset{go};
    assert s.gos[g] in multiset(s.gos);
  }

  lemma StepKeepsInv(s: Config, st: Step, s': Config)
    requires Inv(s) && Next(s, st, s')
    ensures Inv(s')
  {
    forall w | 0 <= w < |s'.groups| ensures Ok(s', w) {
      assert Ok(s, w);
      if st.Register? || st.Complete? { WaitingAfter(s, s', st.g, s'.gos[st.g], w); }
    }
  }

  lemma RunKeepsInv(run: seq<Config>, steps: seq<Step>, k: nat)
    requires IsRun(run, steps) && k < |run|
    ensures Inv(run[k])
  {
    if k == 0 {
      forall w | 0 <= w < |run[0].groups| ensures Ok(run[0], w) { assert Awaiting(w) !in run[0].gos; }
    } else {
      assert Next(run[k - 1], steps[k - 1], run[k]);
      RunKeepsInv(run, steps, k - 1);
      StepKeepsInv(run[k - 1], steps[k - 1], run[k]);
    }
  }

  /** Outside the committed location and bad, idle means that all tasks are done, active_tasks that
      some are not; the counter is the sum of all deltas. */
  lemma CounterMeansTasks(run: seq<Config>, steps: seq<Step>, w: nat)
    requires IsRun(run, steps) && w < |run[|steps|].groups|
    ensures var group := run[|steps|].groups[w];
      && group.counter == group.total && group.waiters == Waiting(run[|steps|], w)
      && (!group.loc.Adding? && !group.loc.Bad? ==>
            (group.loc.Idle? <==> group.counter == 0) && (group.loc.ActiveTasks? <==> group.counter > 0))
  {
    RunKeepsInv(run, steps, |steps|);
    assert Ok(run[|steps|], w);
  }

  /** The committed location can always be left, by exactly one of its edges. */
  lemma AddingLeftOneWay(s: Config, w: nat)
    requires w < |s.groups| && s.groups[w].loc.Adding?
    ensures exists e :: Enabled(s, Settle(w, e))
    ensures forall e, f :: Enabled(s, Settle(w, e)) && Enabled(s, Settle(w, f)) ==> e == f
  {
    var group := s.groups[w];
    var e := if group.counter == 0 then 3 else if group.counter > 0 then 4 else 7;
    assert Enabled(s, Settle(w, e));
  }

  /** A wait completes only when every added task is done, and then any registered wait can. */
  lemma WaitCompletesAtZero(run: seq<Config>, steps: seq<Step>, g: nat, w: nat)
    requires IsRun(run, steps)
    requires var s := run[|steps|]; g < |s.gos| && s.gos[g] == Awaiting(w) && w < |s.groups| && !s.groups[w].loc.Bad? && !SomeCommitted(s)
    ensures var s := run[|steps|]; (exists e :: Enabled(s, Complete(g, w, e))) <==> s.groups[w].total == 0
  {
    var s := run[|steps|];
    RunKeepsInv(run, steps, |steps|);
    assert Ok(s, w) && !s.groups[w].loc.Adding?;
    assert Awaiting(w) in multiset(s.gos);
    if s.groups[w].total == 0 {
      assert Enabled(s, Complete(g, w, 1));
    }
  }

  /** A wait statement can always begin, and it then completes at once exactly if every added task is done. */
  lemma WaitBegins(run: seq<Config>, steps: seq<Step>, g: nat, w: nat) returns (s': Config)
    requires IsRun(run, steps)
    requires var s := run[|steps|]; g < |s.gos| && s.gos[g].Running? && w < |s.groups| && !s.groups[w].loc.Bad? && !SomeCommitted(s)
    ensures Next(run[|steps|], Register(g, w), s')
    ensures (exists e :: Enabled(s', Complete(g, w, e))) <==> run[|steps|].groups[w].total == 0
  {
    var s, st := run[|steps|], Register(g, w);
    s' := After(s, st);
    var run1, steps1 := run + [s'], steps + [st];
    assert forall k :: 0 <= k < |steps| ==> Next(run[k], steps[k], run[k + 1]);
    assert forall k :: 0 <= k < |steps1| ==> Next(run1[k], steps1[k], run1[k + 1]);
    assert !SomeCommitted(s') by {
      assert forall n :: 0 <= n < |s.groups| ==> s'.groups[n].loc == s.groups[n].loc;
    }
    WaitCompletesAtZero(run1, steps1, g, w);
  }

  /** An add is refused only while another one is being settled. */
  lemma AddAlwaysPossible(run: seq<Config>, steps: seq<Step>, g: nat, w: nat, delta: int) returns (e: nat)
    requires IsRun(run, steps)
    requires var s := run[|steps|]; g < |s.gos| && s.gos[g].Running? && w < |s.groups| && !s.groups[w].loc.Bad? && !SomeCommitted(s)
    ensures Enabled(run[|steps|], Add(g, w, e, delta))
  {
    var s := run[|steps|];
    RunKeepsInv(run, steps, |steps|);
    assert Ok(s, w) && !s.groups[w].loc.Adding?;
    e := if s.groups[w].loc.ActiveTasks? then 5 else if s.groups[w].waiters > 0 then 6 else 2;
  }

  /** A group turns bad exactly when its counter turned negative, or when a task is added at zero
      while somebody still waits. */
  lemma BadExactly(s: Config, st: Step, s': Config, w: nat)
    requires Inv(s) && Next(s, st, s') && w < |s.groups| && !s.groups[w].loc.Bad?
    ensures s'.groups[w].loc.Bad? <==>
      (st.Settle? && st.w == w && s.groups[w].total < 0) ||
      (st.Add? && st.w == w && s.groups[w].total == 0 && Waiting(s, w) > 0)
  {
    assert Ok(s, w);
  }
}
