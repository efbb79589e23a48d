/** The passes over a whole process: removing states in breadth-first order, dropping duplicates. */
module ProcessReducers {
  import opened UppaalGraphs
  import opened UppaalProcess
  import opened StateReducer
  import opened ReducerPass

  // ---------- Breadth-first order ----------

  ghost predicate Closed(ts: set<Trans>, s: set<State>) {
    forall t :: t in ts && t.start in s ==> t.end in s
  }

  /** The successors that were not seen before, each once. */
  ghost predicate Fresh(added: seq<State>, outs: seq<Trans>, seen0: set<State>, seen: set<State>) {
    && NoDuplicates(added)
    && (forall s :: s in added ==> s in seen && s !in seen0)
    && (forall s :: s in seen ==> s in seen0 || s in added)
    && seen0 <= seen
    && (forall j :: 0 <= j < |outs| ==> outs[j].end in seen)
    && (forall s :: s in added ==> exists j :: 0 <= j < |outs| && outs[j].end == s)
  }

  lemma FreshOneMore(added: seq<State>, outs: seq<Trans>, seen0: set<State>, seen: set<State>, t: Trans)
    requires Fresh(added, outs, seen0, seen)
    ensures t.end in seen ==> Fresh(added, outs + [t], seen0, seen)
    ensures t.end !in seen ==> Fresh(added + [t.end], outs + [t], seen0, seen + {t.end})
  {
    assert (outs + [t])[|outs|] == t;
    assert forall j :: 0 <= j < |outs| ==> (outs + [t])[j] == outs[j];
  }

  /** The part of the breadth-first search that visits the successors of one state. */
  method Visit(current: State, seen0: set<State>, queue0: seq<State>)
    returns (seen: set<State>, queue: seq<State>, ghost added: seq<State>, ghost outs: seq<Trans>)
    ensures forall t :: t in outs <==> t in current.transitions && t.start == current
    ensures queue == queue0 + added && Fresh(added, outs, seen0, seen)
  {
    seen, queue, added := seen0, queue0, [];
    var trans := current.OutgoingTransitions();
    outs := trans;
    for k := 0 to |trans|
      invariant queue == queue0 + added && Fresh(added, trans[..k], seen0, seen)
    {
      var child := trans[k].end;
      FreshOneMore(added, trans[..k], seen0, seen, trans[k]);
      assert trans[..k + 1] == trans[..k] + [trans[k]];
      if child !in seen {
        seen := seen + {child};
        queue, added := queue + [child], added + [child];
      }
    }
    assert trans[..|trans|] == trans;
  }

  /** The search has visited the states in sorted, and those in queue are to come. */
  ghost predicate Searching(p: Process, sorted: seq<State>, queue: seq<State>, seen: set<State>)
    reads p
  {
    && NoDuplicates(sorted + queue) && seen <= p.states
    && (forall s :: s in seen ==> s in sorted || s in queue)
    && (forall k :: 0 <= k < |sorted| ==> sorted[k] in seen)
    && (forall k :: 0 <= k < |queue| ==> queue[k] in seen)
    && (forall t :: t in p.transitions && t.start in sorted ==> t.end in seen)
  }

  lemma OutgoingOf(p: Process, s: State, outs: seq<Trans>)
    requires p.Valid() && s in p.states && forall t :: t in outs <==> t in s.transitions && t.start == s
    ensures forall t :: t in outs <==> t in p.transitions && t.start == s
    ensures forall k :: 0 <= k < |outs| ==> outs[k].end in p.states
  {
    hide Process.LookupOk, Process.NamesOk, Process.InitialOk;
    assert forall k :: 0 <= k < |outs| ==> outs[k] in outs;
  }

  lemma SearchOn(p: Process, sorted: seq<State>, queue: seq<State>, seen0: set<State>,
                 added: seq<State>, outs: seq<Trans>, seen: set<State>)
    requires p.Valid() && |queue| > 0 && Searching(p, sorted, queue, seen0) && Fresh(added, outs, seen0, seen)
    requires forall t :: t in outs <==> t in queue[0].transitions && t.start == queue[0]
    ensures Searching(p, sorted + [queue[0]], queue[1..] + added, seen)
    ensures forall s :: s in seen && s !in seen0 ==> exists t :: t in p.transitions && t.start == queue[0] && t.end == s
  {
    var current := queue[0];
    OutgoingOf(p, current, outs);
    hide Process.Valid;
    forall s | s in seen ensures s in p.states && (s in sorted + [current] || s in queue[1..] + added) {
      if s in seen0 {
        assert queue == [current] + queue[1..];
      }
    }
    forall t | t in p.transitions && t.start in sorted + [current] ensures t.end in seen {
      if t.start == current {
        var j :| 0 <= j < |outs| && outs[j] == t;
      }
    }
    assert sorted + queue == (sorted + [current]) + queue[1..];
    NoDuplicatesAppend(sorted + queue, added);
    assert (sorted + queue) + added == (sorted + [current]) + (queue[1..] + added);
  }

  lemma NoDuplicatesAppend<T>(a: seq<T>, b: seq<T>)
    requires NoDuplicates(a) && NoDuplicates(b) && forall k :: 0 <= k < |a| ==> a[k] !in b
    ensures NoDuplicates(a + b)
  {
  }

  lemma SearchShrinks(states: set<State>, seen0: set<State>, added: seq<State>, seen: set<State>)
    requires NoDuplicates(added) && seen0 <= seen <= states
    requires forall s :: s in added ==> s in seen && s !in seen0
    ensures |added| + |states - seen| <= |states - seen0|
  {
    var fresh' := set s | s in added;
    SetOf(added);
    assert fresh' !! (states - seen) && fresh' + (states - seen) <= states - seen0;
    SubsetSize(fresh' + (states - seen), states - seen0);
  }

  lemma {:induction false} SetOf<T>(s: seq<T>)
    requires NoDuplicates(s)
    ensures |set x | x in s| == |s|
  {
    if s != [] {
      var rest := s[..|s| - 1];
      SetOf(rest);
      assert s == rest + [s[|s| - 1]];
      assert (set x | x in s) == (set x | x in rest) + {s[|s| - 1]};
    }
  }

  method Search(p: Process, first: State, ghost bound: set<State>) returns (sorted: seq<State>, ghost seen: set<State>)
    requires p.Valid() && first in p.states && first in bound && Closed(p.transitions, bound)
    ensures Searching(p, sorted, [], seen) && first in seen && seen <= bound
  {
    SearchStarts(p, first);
    hide Process.Valid, Searching, Closed, Fresh;
    var found: set<State>, queue: seq<State> := {first}, [first];
    sorted := [];
    while |queue| > 0
      invariant Searching(p, sorted, queue, found) && first in found && found <= bound
      decreases |queue| + |p.states - found|
    {
      found, queue, sorted := SearchStep(p, sorted, queue, found, bound);
    }
    seen := found;
  }

  lemma SearchStarts(p: Process, first: State)
    requires first in p.states
    ensures Searching(p, [], [first], {first})
  {
  }

  /** The states in breadth-first order, each once: they are closed under transitions, and whatever closed
      set the initial state is in contains them all. */
  method CollectStates(p: Process, ghost bound: set<State>) returns (sorted: seq<State>)
    requires p.Valid() && p.initialState != null
    requires p.initialState in bound && Closed(p.transitions, bound)
    ensures NoDuplicates(sorted) && p.initialState in sorted
    ensures forall k :: 0 <= k < |sorted| ==> sorted[k] in p.states && sorted[k] in bound
    ensures forall t :: t in p.transitions && t.start in sorted ==> t.end in sorted
  {
    ghost var seen;
    sorted, seen := Search(p, p.initialState, bound);
    SearchEnds(p, sorted, seen);
  }

  lemma StaysInside(ts: set<Trans>, seen0: set<State>, seen: set<State>, x: set<State>)
    requires Closed(ts, x) && seen0 <= x
    requires forall s :: s in seen ==> s in seen0 || exists t :: t in ts && t.start in seen0 && t.end == s
    ensures seen <= x
  {
  }

  lemma SearchEnds(p: Process, sorted: seq<State>, seen: set<State>)
    requires Searching(p, sorted, [], seen)
    ensures NoDuplicates(sorted) && (forall s :: s in seen <==> s in sorted)
    ensures forall k :: 0 <= k < |sorted| ==> sorted[k] in p.states && sorted[k] in seen
    ensures forall t :: t in p.transitions && t.start in sorted ==> t.end in sorted
  {
    assert sorted + [] == sorted;
  }

  method SearchStep(p: Process, sorted0: seq<State>, queue0: seq<State>, seen0: set<State>, ghost bound: set<State>)
    returns (seen: set<State>, queue: seq<State>, sorted: seq<State>)
    requires p.Valid() && |queue0| > 0 && Searching(p, sorted0, queue0, seen0)
    requires seen0 <= bound && Closed(p.transitions, bound)
    ensures Searching(p, sorted, queue, seen) && seen0 <= seen <= bound && sorted == sorted0 + [queue0[0]]
    ensures |queue| + |p.states - seen| < |queue0| + |p.states - seen0|
  {
    var current := queue0[0];
    ghost var added, outs;
    seen, queue, added, outs := Visit(current, seen0, queue0[1..]);
    SearchOn(p, sorted0, queue0, seen0, added, outs, seen);
    SearchShrinks(p.states, seen0, added, seen);
    StaysInside(p.transitions, seen0, seen, bound);
    sorted := sorted0 + [current];
  }

  // ---------- Removing states ----------

  ghost predicate Chain(g: Graph, removed: seq<string>, now: Graph) {
    Removable(g, removed) && now == EliminateAll(g, removed)
  }

  lemma ChainOn(g: Graph, removed: seq<string>, now: Graph, m: string)
    requires Chain(g, removed, now) && CanRemove(now, m)
    ensures Chain(g, removed + [m], Eliminate(now, m))
  {
    EliminateOneMore(g, removed, m);
  }

  /** The graph after each of the locations was tried, one after the other. */
  ghost function Tries(g: Graph, ms: seq<string>): Graph
    decreases |ms|
  {
    if ms == [] then g
    else
      var g1, m := Tries(g, ms[..|ms| - 1]), ms[|ms| - 1];
      if CanRemove(g1, m) then Eliminate(g1, m) else g1
  }

  ghost predicate HasEdge(g: Graph, a: string, b: string) { exists e :: e in g.edges && e.src == a && e.dst == b }

  ghost predicate IsWalk(g: Graph, w: seq<string>) {
    |w| > 0 && forall i :: 0 <= i < |w| - 1 ==> HasEdge(g, w[i], w[i + 1])
  }

  /** Zero or more edges lead from one location to another. */
  ghost predicate Leads(g: Graph, a: string, b: string) {
    exists w :: IsWalk(g, w) && w[0] == a && w[|w| - 1] == b
  }

  lemma LeadsSelf(g: Graph, a: string)
    ensures Leads(g, a, a)
  {
    assert IsWalk(g, [a]) && [a][0] == a;
  }

  lemma LeadsOn(g: Graph, a: string, b: string, c: string)
    requires Leads(g, a, b) && HasEdge(g, b, c)
    ensures Leads(g, a, c)
  {
    hide HasEdge;
    var w :| IsWalk(g, w) && w[0] == a && w[|w| - 1] == b;
    var w1 := w + [c];
    assert IsWalk(g, w1) && w1[0] == a && w1[|w1| - 1] == c;
  }

  ghost predicate ClosedNames(g: Graph, names: seq<string>) {
    forall a, b :: a in names && HasEdge(g, a, b) ==> b in names
  }

  lemma {:induction false} WalkInside(g: Graph, w: seq<string>, names: seq<string>)
    requires IsWalk(g, w) && w[0] in names && ClosedNames(g, names)
    ensures w[|w| - 1] in names
  {
    hide HasEdge;
    if |w| > 1 {
      assert HasEdge(g, w[0], w[1]);
      WalkInside(g, w[1..], names);
    }
  }

  /** Exactly the locations that the initial one leads to, each once. */
  ghost predicate Reached(g: Graph, names: seq<string>) {
    && NoDuplicates(names) && g.initial.Some?
    && forall m :: m in names <==> Leads(g, g.initial.value, m)
  }

  ghost function NamesOf(states: seq<State>): (names: seq<string>)
    ensures |names| == |states| && forall k :: 0 <= k < |states| ==> names[k] == states[k].name
  {
    seq(|states|, k requires 0 <= k < |states| => states[k].name)
  }

  ghost function ReachableStates(p: Process): set<State>
    requires p.Valid() && p.initialState != null
    reads p, p.states, p.transitions
  {
    set s | s in p.states && Leads(p.View(), p.initialState.name, s.name)
  }

  lemma ReachableClosed(p: Process)
    requires p.Valid() && p.initialState != null
    ensures p.initialState in ReachableStates(p) && Closed(p.transitions, ReachableStates(p))
  {
    LeadsSelf(p.View(), p.initialState.name);
    forall t | t in p.transitions && t.start in ReachableStates(p) ensures t.end in ReachableStates(p) {
      assert t.AsEdge() in p.View().edges;
      EndsInside(p, t);
      assert HasEdge(p.View(), t.start.name, t.end.name);
      LeadsOn(p.View(), p.initialState.name, t.start.name, t.end.name);
    }
  }

  lemma SortedReached(p: Process, sorted: seq<State>)
    requires p.Valid() && p.initialState != null && NoDuplicates(sorted) && p.initialState in sorted
    requires forall k :: 0 <= k < |sorted| ==> sorted[k] in p.states && sorted[k] in ReachableStates(p)
    requires forall t :: t in p.transitions && t.start in sorted ==> t.end in sorted
    ensures Reached(p.View(), NamesOf(sorted))
  {
    var g, names := p.View(), NamesOf(sorted);
    forall m | Leads(g, p.initialState.name, m) ensures m in names {
      var w :| IsWalk(g, w) && w[0] == p.initialState.name && w[|w| - 1] == m;
      var k :| 0 <= k < |sorted| && sorted[k] == p.initialState;
      assert names[k] == p.initialState.name;
      EdgesInside(p, sorted);
      WalkInside(g, w, names);
    }
    forall i, j | 0 <= i < j < |names| ensures names[i] != names[j] {
      assert sorted[i] != sorted[j];
    }
  }

  lemma EdgesInside(p: Process, sorted: seq<State>)
    requires p.Valid() && forall k :: 0 <= k < |sorted| ==> sorted[k] in p.states
    requires forall t :: t in p.transitions && t.start in sorted ==> t.end in sorted
    ensures ClosedNames(p.View(), NamesOf(sorted))
  {
    forall a, b | a in NamesOf(sorted) && HasEdge(p.View(), a, b) ensures b in NamesOf(sorted) {
      var e :| e in p.View().edges && e.src == a && e.dst == b;
      var t :| t in p.transitions && t.AsEdge() == e;
      var k :| 0 <= k < |sorted| && NamesOf(sorted)[k] == a;
      EndsInside(p, t);
      assert sorted[k] == t.start;
      var j :| 0 <= j < |sorted| && sorted[j] == t.end;
      assert NamesOf(sorted)[j] == b;
    }
  }

  /** Tries one state and extends the chain of eliminations if it is removed. */
  method TryState(p: Process, state: State, ghost g: Graph, ghost removed0: seq<string>, ghost tried: seq<string>)
    returns (ghost removed: seq<string>)
    requires p.Valid() && state in p.states && Chain(g, removed0, p.View()) && p.View() == Tries(g, tried)
    modifies p, p.states`transitions
    ensures p.Valid() && old(p.states) - {state} <= p.states <= old(p.states)
    ensures p.initialState == old(p.initialState) && Chain(g, removed, p.View())
    ensures p.View() == Tries(g, tried + [state.name])
  {
    hide Process.NamesOk, Process.LookupOk, Process.IncidenceOk, Process.InitialOk, Process.View, CanRemove, Chain, Eliminate;
    ghost var before := p.View();
    assert (tried + [state.name])[..|tried|] == tried;
    RemoveStateIfPossible(p, state);
    removed := removed0;
    if CanRemove(before, state.name) {
      ChainOn(g, removed0, before, state.name);
      removed := removed0 + [state.name];
    }
  }

  /** The states that the initial one leads to, in breadth-first order. */
  method SortStates(p: Process) returns (sorted: seq<State>)
    requires p.Valid() && p.initialState != null
    ensures Reached(p.View(), NamesOf(sorted)) && NoDuplicates(sorted)
    ensures forall k :: 0 <= k < |sorted| ==> sorted[k] in p.states
  {
    hide Process.NamesOk, Process.LookupOk, Process.IncidenceOk, Process.InitialOk, Process.View, Closed, Reached, ReachableStates,
      NoDuplicates;
    ReachableClosed(p);
    sorted := CollectStates(p, ReachableStates(p));
    SortedReached(p, sorted);
  }

  /** Tries all states that the initial one leads to, in breadth-first order, and removes those that may be. The
      removals are a chain of eliminations, each allowed in the graph it applies to. */
  method ReduceStatesInProcess(p: Process) returns (ghost removed: seq<string>, ghost tried: seq<string>)
    requires p.Valid() && p.initialState != null
    modifies p, p.states`transitions
    ensures p.Valid() && p.initialState == old(p.initialState) && p.states <= old(p.states)
    ensures Reached(old(p.View()), tried) && p.View() == Tries(old(p.View()), tried)
    ensures Chain(old(p.View()), removed, p.View())
  {
    hide Process.NamesOk, Process.LookupOk, Process.IncidenceOk, Process.InitialOk, Process.View, Chain, Tries, Reached;
    var sortedStates := SortStates(p);
    tried := NamesOf(sortedStates);
    removed := [];
    ghost var g := p.View();
    ChainStarts(g);
    assert tried[..0] == [];
    TriesNone(g);
    for k := 0 to |sortedStates|
      modifies p, p.states`transitions
      invariant p.Valid() && p.states <= old(p.states) && p.initialState == old(p.initialState)
      invariant forall j :: k <= j < |sortedStates| ==> sortedStates[j] in p.states
      invariant Chain(g, removed, p.View()) && p.View() == Tries(g, tried[..k])
    {
      removed := TryState(p, sortedStates[k], g, removed, tried[..k]);
      assert tried[..k + 1] == tried[..k] + [sortedStates[k].name];
    }
    assert tried[..|sortedStates|] == tried;
  }

  lemma TriesNone(g: Graph)
    ensures Tries(g, []) == g
  {
  }

  lemma ChainStarts(g: Graph)
    ensures Chain(g, [], g)
  {
  }

  // ---------- Dropping duplicates ----------

  ghost predicate SameLabel(t1: Trans, t2: Trans)
    reads t1, t2
  {
    t1.AsEdge().act == t2.AsEdge().act
  }

  /** Of the transitions in the slice with one label exactly one is kept. */
  ghost predicate OneOfEach(slice: seq<Trans>, removal: set<Trans>)
    reads slice
  {
    && (forall i, j :: 0 <= i < j < |slice| && slice[i] !in removal && slice[j] !in removal ==>
          !SameLabel(slice[i], slice[j]))
    && (forall j :: 0 <= j < |slice| && slice[j] in removal ==>
          exists i :: 0 <= i < |slice| && slice[i] !in removal && SameLabel(slice[i], slice[j]))
  }

  /** The marks after transition i of the slice was compared with those behind it. */
  ghost predicate TwinsMarked(slice: seq<Trans>, i: nat, end: nat, removal0: set<Trans>, removal: set<Trans>)
    requires i < end <= |slice|
    reads slice
  {
    && removal0 <= removal && (forall t :: t in removal && t !in removal0 ==> t in slice)
    && (forall b :: 0 <= b < |slice| ==>
          (slice[b] in removal <==> slice[b] in removal0 || (i < b < end && SameLabel(slice[i], slice[b]))))
  }

  method MarkTwins(slice: seq<Trans>, i: nat, removal0: set<Trans>) returns (removal: set<Trans>)
    requires NoDuplicates(slice) && i < |slice|
    ensures TwinsMarked(slice, i, |slice|, removal0, removal)
  {
    removal := removal0;
    for j := i + 1 to |slice|
      invariant TwinsMarked(slice, i, j, removal0, removal)
    {
      var t1, t2 := slice[i], slice[j];
      if t1.select == t2.select && t1.guard == t2.guard && t1.sync == t2.sync && t1.update == t2.update {
        removal := removal + {t2};
      }
    }
  }

  /** Up to transition i, one transition of each label is kept and those behind it are marked. */
  ghost predicate MarkedUpTo(slice: seq<Trans>, i: nat, removal: set<Trans>)
    reads slice
  {
    && (forall a, b :: 0 <= a < i && a < b < |slice| && slice[a] !in removal ==>
          slice[b] in removal || !SameLabel(slice[a], slice[b]))
    && (forall b :: 0 <= b < |slice| && slice[b] in removal ==>
          exists a :: 0 <= a < i && a < b && slice[a] !in removal && SameLabel(slice[a], slice[b]))
  }

  lemma MarkedOneMore(slice: seq<Trans>, i: nat, removal0: set<Trans>, removal: set<Trans>)
    requires i < |slice| && MarkedUpTo(slice, i, removal0)
    requires if slice[i] in removal0 then removal == removal0 else TwinsMarked(slice, i, |slice|, removal0, removal)
    ensures MarkedUpTo(slice, i + 1, removal)
  {
    if slice[i] !in removal0 {
      forall b | 0 <= b < |slice| && slice[b] in removal
        ensures exists a :: 0 <= a < i + 1 && a < b && slice[a] !in removal && SameLabel(slice[a], slice[b])
      {
        if slice[b] in removal0 {
          var a :| 0 <= a < i && a < b && slice[a] !in removal0 && SameLabel(slice[a], slice[b]);
          assert slice[a] !in removal by {
            if SameLabel(slice[i], slice[a]) && slice[i] !in removal0 {
              assert slice[i] in removal0 || !SameLabel(slice[a], slice[i]);
            }
          }
        } else {
          assert slice[i] !in removal && SameLabel(slice[i], slice[b]);
        }
      }
    }
  }

  /** Marks the later transitions of a slice that have the label of an earlier one. */
  method MarkDuplicates(slice: seq<Trans>, removal0: set<Trans>) returns (removal: set<Trans>)
    requires NoDuplicates(slice) && forall k :: 0 <= k < |slice| ==> slice[k] !in removal0
    ensures removal0 <= removal && forall t :: t in removal && t !in removal0 ==> t in slice
    ensures OneOfEach(slice, removal)
  {
    removal := removal0;
    for i := 0 to |slice|
      invariant removal0 <= removal && forall t :: t in removal && t !in removal0 ==> t in slice
      invariant MarkedUpTo(slice, i, removal)
    {
      ghost var before := removal;
      if slice[i] !in removal {
        removal := MarkTwins(slice, i, removal);
      }
      MarkedOneMore(slice, i, before, removal);
    }
    UpToAll(slice, removal);
  }

  lemma UpToAll(slice: seq<Trans>, removal: set<Trans>)
    requires MarkedUpTo(slice, |slice|, removal)
    ensures OneOfEach(slice, removal)
  {
  }

  /** Marks elsewhere do not matter to a slice. */
  lemma MarksElsewhere(slice: seq<Trans>, removal: set<Trans>, more: set<Trans>)
    requires OneOfEach(slice, removal) && removal <= more
    requires forall t :: t in more && t !in removal ==> t !in slice
    ensures OneOfEach(slice, more)
  {
    assert forall k :: 0 <= k < |slice| ==> (slice[k] in removal <==> slice[k] in more);
  }

  ghost predicate RowOk(row: map<State, seq<Trans>>, start: State) {
    forall e :: e in row ==> NoDuplicates(row[e]) && forall k :: 0 <= k < |row[e]| ==> row[e][k].start == start && row[e][k].end == e
  }

  ghost predicate Marked(row: map<State, seq<Trans>>, done: set<State>, removal0: set<Trans>, removal: set<Trans>) {
    removal0 <= removal && forall t :: t in removal && t !in removal0 ==> t.end in row && t.end in done && t in row[t.end]
  }

  method MarkRow(row: map<State, seq<Trans>>, start: State, removal0: set<Trans>) returns (removal: set<Trans>)
    requires RowOk(row, start) && forall t :: t in removal0 ==> t.start != start
    ensures Marked(row, row.Keys, removal0, removal)
    ensures forall e :: e in row ==> OneOfEach(row[e], removal)
  {
    removal := removal0;
    var todo := row.Keys;
    while todo != {}
      invariant todo <= row.Keys && Marked(row, row.Keys - todo, removal0, removal)
      invariant forall e :: e in row && e !in todo ==> OneOfEach(row[e], removal)
      decreases |todo|
    {
      var e :| e in todo;
      ghost var before, done := removal, row.Keys - todo;
      removal := MarkDuplicates(row[e], removal);
      MarkedOn(row, start, done, e, removal0, before, removal);
      hide OneOfEach;
      todo := todo - {e};
    }
    assert row.Keys - todo == row.Keys;
  }

  lemma MarkedOn(row: map<State, seq<Trans>>, start: State, done: set<State>, e: State,
                 removal0: set<Trans>, before: set<Trans>, removal: set<Trans>)
    requires RowOk(row, start) && e in row && e !in done && done <= row.Keys
    requires Marked(row, done, removal0, before) && before <= removal
    requires forall t :: t in removal && t !in before ==> t in row[e]
    requires forall d :: d in done ==> OneOfEach(row[d], before)
    ensures Marked(row, done + {e}, removal0, removal)
    ensures forall d :: d in done ==> OneOfEach(row[d], removal)
  {
    forall d | d in done ensures OneOfEach(row[d], removal) {
      MarksElsewhere(row[d], before, removal);
    }
  }

  ghost predicate AllMarked(p: Process, todo: set<State>, removal: set<Trans>)
    requires p.LookupOk()
    reads p, p.transitions
  {
    && removal <= p.transitions
    && (forall t :: t in removal ==> t.start !in todo)
    && (forall s, e :: s in p.transitionLookup && s !in todo && e in p.transitionLookup[s] ==>
          OneOfEach(p.transitionLookup[s][e], removal))
  }

  lemma RowIsOk(p: Process, s: State)
    requires p.LookupOk() && s in p.transitionLookup
    ensures RowOk(p.transitionLookup[s], s)
    ensures forall e, t :: e in p.transitionLookup[s] && t in p.transitionLookup[s][e] ==> t in p.transitions
  {
    forall e | e in p.transitionLookup[s]
      ensures forall k :: 0 <= k < |p.transitionLookup[s][e]| ==>
                p.transitionLookup[s][e][k].start == s && p.transitionLookup[s][e][k].end == e
    {
      assert forall k :: 0 <= k < |p.transitionLookup[s][e]| ==> p.transitionLookup[s][e][k] in p.transitionLookup[s][e];
    }
  }

  lemma AllMarkedOn(p: Process, todo: set<State>, s: State, removal0: set<Trans>, removal: set<Trans>)
    requires p.LookupOk() && s in todo && s in p.transitionLookup && AllMarked(p, todo, removal0)
    requires Marked(p.transitionLookup[s], p.transitionLookup[s].Keys, removal0, removal)
    requires forall e :: e in p.transitionLookup[s] ==> OneOfEach(p.transitionLookup[s][e], removal)
    ensures AllMarked(p, todo - {s}, removal)
  {
    RowIsOk(p, s);
    forall r, e | r in p.transitionLookup && r !in todo && e in p.transitionLookup[r]
      ensures OneOfEach(p.transitionLookup[r][e], removal)
    {
      forall t | t in removal && t !in removal0 ensures t !in p.transitionLookup[r][e] {
        assert t.start == s;
      }
      MarksElsewhere(p.transitionLookup[r][e], removal0, removal);
    }
  }

  /** The transitions that the pass over the lookup table marks. */
  method MarkProcess(p: Process) returns (removal: set<Trans>)
    requires p.Valid()
    ensures AllMarked(p, {}, removal)
  {
    removal := {};
    var todo := p.transitionLookup.Keys;
    hide Process.NamesOk, Process.LookupOk, Process.IncidenceOk, Process.InitialOk, OneOfEach;
    assert AllMarked(p, todo, removal);
    hide AllMarked, RowOk, Marked;
    while todo != {}
      invariant todo <= p.transitionLookup.Keys && AllMarked(p, todo, removal)
      decreases |todo|
    {
      var s :| s in todo;
      RowIsOk(p, s);
      MarkedOutside(p, todo, s, removal);
      ghost var before := removal;
      removal := MarkRow(p.transitionLookup[s], s, removal);
      AllMarkedOn(p, todo, s, before, removal);
      todo := todo - {s};
    }
  }

  lemma MarkedOutside(p: Process, todo: set<State>, s: State, removal: set<Trans>)
    requires p.LookupOk() && AllMarked(p, todo, removal) && s in todo
    ensures forall t :: t in removal ==> t.start != s
  {
  }

  method RemoveAll(p: Process, removal: set<Trans>)
    requires p.Valid() && removal <= p.transitions
    modifies p`transitions, p`transitionLookup, p.states`transitions
    ensures p.Valid() && p.transitions == old(p.transitions) - removal
  {
    hide Process.Valid;
    var todo := removal;
    while todo != {}
      modifies p`transitions, p`transitionLookup, p.states`transitions
      invariant p.Valid() && todo <= p.transitions && todo <= removal
      invariant p.transitions == old(p.transitions) - (removal - todo)
      decreases |todo|
    {
      var t :| t in todo;
      EndsInside(p, t);
      p.RemoveTransition(t);
      todo := todo - {t};
    }
  }

  lemma EndsInside(p: Process, t: Trans)
    requires p.Valid() && t in p.transitions
    ensures t.start in p.states && t.end in p.states
  {
  }

  /** Each label between two states occurs once. */
  ghost predicate NoTwins(ts: set<Trans>)
    reads ts
  {
    forall t1, t2 :: t1 in ts && t2 in ts && t1 != t2 ==> Bare(t1.AsEdge()) != Bare(t2.AsEdge())
  }

  ghost predicate Represented(removal: set<Trans>, kept: set<Trans>)
    reads removal, kept
  {
    forall t :: t in removal ==> exists k :: k in kept && Bare(k.AsEdge()) == Bare(t.AsEdge())
  }

  lemma KeptLabels(p: Process, removal: set<Trans>)
    requires p.Valid() && AllMarked(p, {}, removal)
    ensures removal <= p.transitions
    ensures NoTwins(p.transitions - removal) && Represented(removal, p.transitions - removal)
  {
    forall t1, t2 | t1 in p.transitions - removal && t2 in p.transitions - removal && t1 != t2
      ensures Bare(t1.AsEdge()) != Bare(t2.AsEdge())
    {
      DifferentLabels(p, removal, t1, t2);
    }
    forall t | t in removal
      ensures exists k :: k in p.transitions - removal && Bare(k.AsEdge()) == Bare(t.AsEdge())
    {
      KeptTwin(p, removal, t);
    }
  }

  lemma DifferentLabels(p: Process, removal: set<Trans>, t1: Trans, t2: Trans)
    requires p.Valid() && AllMarked(p, {}, removal)
    requires t1 in p.transitions - removal && t2 in p.transitions - removal && t1 != t2
    ensures Bare(t1.AsEdge()) != Bare(t2.AsEdge())
  {
    hide Process.InitialOk, NoDuplicates;
    if t1.start.name == t2.start.name && t1.end.name == t2.end.name {
      assert t1.start == t2.start && t1.end == t2.end;
      var slice := p.transitionLookup[t1.start][t1.end];
      assert OneOfEach(slice, removal);
      var i :| 0 <= i < |slice| && slice[i] == t1;
      var j :| 0 <= j < |slice| && slice[j] == t2;
      assert !SameLabel(t1, t2);
    }
  }

  lemma KeptTwin(p: Process, removal: set<Trans>, t: Trans)
    requires p.Valid() && AllMarked(p, {}, removal) && t in removal
    ensures exists k :: k in p.transitions - removal && Bare(k.AsEdge()) == Bare(t.AsEdge())
  {
    hide Process.InitialOk, NoDuplicates;
    var slice := p.transitionLookup[t.start][t.end];
    assert OneOfEach(slice, removal);
    var j :| 0 <= j < |slice| && slice[j] == t;
    var i :| 0 <= i < |slice| && slice[i] !in removal && SameLabel(slice[i], t);
    assert slice[i] in slice;
  }

  /** Drops duplicate transitions: each label between two states remains exactly once. */
  method ReduceTransitionsInProcess(p: Process)
    requires p.Valid()
    modifies p`transitions, p`transitionLookup, p.states`transitions
    ensures p.Valid() && p.View() == old(p.View()).(edges := p.Edges())
    ensures BareEdges(p.View()) == BareEdges(old(p.View()))
    ensures NoTwins(p.transitions)
  {
    hide Process.NamesOk, Process.LookupOk, Process.IncidenceOk, Process.InitialOk, Process.View, Process.Edges,
      BareEdges, AllMarked, NoTwins, Represented;
    var removal := MarkProcess(p);
    KeptLabels(p, removal);
    RemoveMarked(p, removal);
  }

  method RemoveMarked(p: Process, removal: set<Trans>)
    requires p.Valid() && removal <= p.transitions && Represented(removal, p.transitions - removal)
    modifies p`transitions, p`transitionLookup, p.states`transitions
    ensures p.Valid() && p.transitions == old(p.transitions) - removal
    ensures p.View() == old(p.View()).(edges := p.Edges()) && BareEdges(p.View()) == BareEdges(old(p.View()))
  {
    hide Process.NamesOk, Process.LookupOk, Process.IncidenceOk, Process.InitialOk, Process.View, Process.Edges,
      BareEdges, Represented;
    RemoveAll(p, removal);
    KeptEdges(p, removal);
  }

  twostate lemma KeptEdges(p: Process, new removal: set<Trans>)
    requires old(p.Valid()) && p.Valid() && p.transitions == old(p.transitions) - removal
    requires p.initialState == old(p.initialState) && p.states == old(p.states) && p.stateLookup == old(p.stateLookup)
    requires forall s :: s in p.states ==> s.stateType == old(s.stateType)
    requires forall t :: t in old(p.transitions) ==> unchanged(t)
    requires Represented(removal, p.transitions)
    ensures p.View() == old(p.View()).(edges := p.Edges())
    ensures BareEdges(p.View()) == BareEdges(old(p.View()))
  {
    hide Process.IncidenceOk, Process.LookupOk, Process.InitialOk;
    assert p.Types() == old(p.Types());
    hide Process.Types;
    assert forall t :: t in old(p.transitions) ==> t.AsEdge() == old(t.AsEdge());
    forall b | b in BareEdges(old(p.View())) ensures b in BareEdges(p.View()) {
      var t :| t in old(p.transitions) && Bare(old(t.AsEdge())) == b;
      if t in removal {
        var k :| k in p.transitions && Bare(k.AsEdge()) == Bare(t.AsEdge());
        assert k.AsEdge() in p.Edges();
      } else {
        assert t.AsEdge() in p.Edges();
      }
    }
  }
}
