/** The mutable process graph of the builder: states, transitions and the tables that index them. */
module UppaalProcess {
  import opened UppaalGraphs
  import opened Decimals

  ghost predicate NoDuplicates<T>(s: seq<T>) {
    forall i, j :: 0 <= i < j < |s| ==> s[i] != s[j]
  }

  /** The sequence s without the first occurrence of x. */
  function Without<T(==)>(s: seq<T>, x: T): (r: seq<T>) {
    if s == [] then [] else if s[0] == x then s[1..] else [s[0]] + Without(s[1..], x)
  }

  lemma {:induction false} WithoutElements<T>(s: seq<T>, x: T)
    requires NoDuplicates(s)
    ensures NoDuplicates(Without(s, x))
    ensures forall y :: y in Without(s, x) <==> y in s && y != x
  {
    if s != [] {
      WithoutElements(s[1..], x);
      assert s == [s[0]] + s[1..];
      assert s[0] !in s[1..];
      if s[0] != x {
        var r := Without(s[1..], x);
        assert s[0] !in r;
        assert Without(s, x) == [s[0]] + r;
      }
    }
  }

  lemma {:induction false} WithoutAt<T>(s: seq<T>, x: T, i: nat)
    requires i < |s| && s[i] == x && x !in s[..i]
    ensures Without(s, x) == s[..i] + s[i + 1..]
  {
    if i > 0 {
      var tail := s[1..];
      assert s[0] == s[..i][0];
      assert tail[..i - 1] == s[..i][1..] && tail[i..] == s[i + 1..];
      WithoutAt(tail, x, i - 1);
      assert Without(s, x) == [s[0]] + (tail[..i - 1] + tail[i..]);
    }
  }

  lemma WithoutAbsent<T>(s: seq<T>, x: T)
    requires x !in s
    ensures Without(s, x) == s
  {
    if s != [] { WithoutAbsent(s[1..], x); }
  }

  class State {
    const name: string
    var isInitial: bool
    var stateType: StateType
    /** All transitions that begin or end here, each once. */
    var transitions: seq<Trans>

    constructor (name: string)
      ensures this.name == name && !isInitial && stateType == Normal && transitions == []
    {
      this.name := name;
      isInitial, stateType, transitions := false, Normal, [];
    }

    method IncomingTransitions() returns (r: seq<Trans>)
      ensures forall t :: t in r <==> t in transitions && t.end == this
      ensures NoDuplicates(transitions) ==> NoDuplicates(r)
    {
      r := [];
      for k := 0 to |transitions|
        invariant forall t :: t in r <==> t in transitions[..k] && t.end == this
        invariant NoDuplicates(transitions) ==> NoDuplicates(r)
      {
        if transitions[k].end == this {
          r := r + [transitions[k]];
        }
      }
    }

    method OutgoingTransitions() returns (r: seq<Trans>)
      ensures forall t :: t in r <==> t in transitions && t.start == this
      ensures NoDuplicates(transitions) ==> NoDuplicates(r)
    {
      r := [];
      for k := 0 to |transitions|
        invariant forall t :: t in r <==> t in transitions[..k] && t.start == this
        invariant NoDuplicates(transitions) ==> NoDuplicates(r)
      {
        if transitions[k].start == this {
          r := r + [transitions[k]];
        }
      }
    }
  }

  class Trans {
    const start: State
    const end: State
    var select: seq<string>
    var guard: seq<string>
    var guardUsesGlobals: bool
    var sync: Option<Sync>
    var update: seq<string>
    var updateUsesGlobals: bool

    constructor (start: State, end: State)
      ensures this.start == start && this.end == end
      ensures AsEdge() == Edge(start.name, end.name, Label([], [], None, []), false, false)
    {
      this.start, this.end := start, end;
      select, guard, guardUsesGlobals := [], [], false;
      sync, update, updateUsesGlobals := None, [], false;
    }

    /** The edge this transition stands for. */
    function AsEdge(): Edge
      reads this
    {
      Edge(start.name, end.name, Label(select, guard, sync, update), guardUsesGlobals, updateUsesGlobals)
    }

    predicate UsesGlobals()
      reads this
      ensures UsesGlobals() == AsEdge().UsesGlobals()
    {
      guardUsesGlobals || sync != None || updateUsesGlobals
    }

    method SetGuard(g: seq<string>, usesGlobals: bool)
      modifies this
      ensures AsEdge() == old(AsEdge()).(act := old(AsEdge()).act.(guard := g), guardUsesGlobals := usesGlobals)
    {
      guard, guardUsesGlobals := g, usesGlobals;
    }

    method SetSync(s: Option<Sync>)
      modifies this
      ensures AsEdge() == old(AsEdge()).(act := old(AsEdge()).act.(sync := s))
    {
      sync := s;
    }

    method AddUpdate(u: seq<string>, usesGlobals: bool)
      modifies this
      ensures AsEdge() == old(AsEdge()).(act := old(AsEdge()).act.(update := old(update) + u),
                                         updateUsesGlobals := old(updateUsesGlobals) || usesGlobals)
    {
      if update == [] {
        update := u;
      } else {
        update := update + u;
      }
      updateUsesGlobals := updateUsesGlobals || usesGlobals;
    }
  }

  datatype Renaming = KeepName | Rename

  /** The i-th candidate for a state with this name. */
  function Candidate(name: string, i: nat): string {
    (if name == "" then "L" else name) + Decimal(i)
  }

  /** The first candidate, counting from i, that is not taken. */
  lemma CandidatesRunOut(name: string, taken: set<string>, i: nat)
    requires forall j :: 0 <= j < i ==> Candidate(name, j) in taken
    ensures i <= |taken|
  {
    var s := Candidates(name, i);
    CandidatesDiffer(name, i);
    SubsetSize(s, taken);
  }

  ghost predicate FirstFree(name: string, i: nat, taken: set<string>) {
    Candidate(name, i) !in taken && forall j :: 0 <= j < i ==> Candidate(name, j) in taken
  }

  function Candidates(name: string, i: nat): set<string> {
    set j | 0 <= j < i :: Candidate(name, j)
  }

  lemma {:induction false} CandidatesDiffer(name: string, i: nat)
    ensures |Candidates(name, i)| == i
  {
    if i > 0 {
      CandidatesDiffer(name, i - 1);
      assert Candidates(name, i) == Candidates(name, i - 1) + {Candidate(name, i - 1)};
      if Candidate(name, i - 1) in Candidates(name, i - 1) {
        var j :| 0 <= j < i - 1 && Candidate(name, j) == Candidate(name, i - 1);
        var prefix := if name == "" then "L" else name;
        assert Decimal(j) == Candidate(name, j)[|prefix|..];
        assert Decimal(i - 1) == Candidate(name, i - 1)[|prefix|..];
        DecimalInjective(j, i - 1);
      }
    }
  }

  lemma {:induction false} SubsetSize<T>(a: set<T>, b: set<T>)
    requires a <= b
    ensures |a| <= |b|
  {
    if a != {} {
      var x :| x in a;
      SubsetSize(a - {x}, b - {x});
    }
  }

  class Process {
    var initialState: State?
    var states: set<State>
    var stateLookup: map<string, State>
    var transitions: set<Trans>
    var transitionLookup: map<State, map<State, seq<Trans>>>

    /** States are found under their names, and no two share one. */
    ghost predicate NamesOk()
      reads `states, `stateLookup
    {
      && (forall s :: s in states ==> s.name in stateLookup && stateLookup[s.name] == s)
      && (forall x :: x in stateLookup ==> stateLookup[x] in states && stateLookup[x].name == x)
    }

    /** Each state lists exactly its own transitions, each once. */
    ghost predicate IncidenceOk()
      reads `states, `transitions, states`transitions
    {
      && (forall t :: t in transitions ==> t.start in states && t.end in states)
      && (forall t :: t in transitions ==> t in t.start.transitions && t in t.end.transitions)
      && (forall s, t :: s in states && t in s.transitions ==> t in transitions && (t.start == s || t.end == s))
      && (forall s :: s in states ==> NoDuplicates(s.transitions))
    }

    /** The slice for two states holds exactly the transitions between them, each once; the slice of a
        removed state may remain and is empty. */
    ghost predicate LookupOk()
      reads `states, `transitions, `transitionLookup
    {
      && transitionLookup.Keys == states
      && (forall t :: t in transitions ==> t.start in transitionLookup && t.end in transitionLookup[t.start]
                                           && t in transitionLookup[t.start][t.end])
      && (forall s, e, t :: s in transitionLookup && e in transitionLookup[s] && t in transitionLookup[s][e] ==>
            t in transitions && t.start == s && t.end == e)
      && (forall s, e :: s in transitionLookup && e in transitionLookup[s] ==> NoDuplicates(transitionLookup[s][e]))
    }

    ghost predicate InitialOk()
      reads `states, `initialState, states`isInitial
    {
      && (initialState != null ==> initialState in states)
      && (forall s :: s in states ==> (s.isInitial <==> s == initialState))
    }

    ghost predicate Valid()
      reads this, states`transitions, states`isInitial
    {
      NamesOk() && IncidenceOk() && LookupOk() && InitialOk()
    }

    ghost function Types(): map<string, StateType>
      reads `states, `stateLookup, states`stateType
      requires NamesOk()
    {
      map x | x in stateLookup :: stateLookup[x].stateType
    }

    ghost function Edges(): set<Edge>
      reads `transitions, transitions
    {
      set t | t in transitions :: t.AsEdge()
    }

    /** The process as a graph over location names. */
    ghost function View(): Graph
      reads `initialState, `states, `stateLookup, `transitions, states`stateType, transitions
      requires NamesOk()
    {
      Graph(if initialState == null then None else Some(initialState.name), Types(), Edges())
    }

    constructor ()
      ensures Valid() && View() == Graph(None, map[], {})
      ensures states == {} && transitions == {}
    {
      initialState, states, stateLookup := null, {}, map[];
      transitions, transitionLookup := {}, map[];
    }

    method SetInitialState(state: State?)
      requires Valid() && (state == null || state in states)
      modifies this`initialState, states`isInitial
      ensures Valid() && initialState == state
      ensures View() == old(View()).(initial := if state == null then None else Some(state.name))
    {
      hide NamesOk, IncidenceOk, LookupOk, Types, Edges;
      if initialState != null {
        initialState.isInitial := false;
      }
      initialState := state;
      if initialState != null {
        initialState.isInitial := true;
      }
      assert Types() == old(Types()) && Edges() == old(Edges());
    }

    method ChooseName(name: string, opt: Renaming) returns (chosen: string)
      requires opt.KeepName? ==> name !in stateLookup
      ensures chosen !in stateLookup
      ensures opt.KeepName? ==> chosen == name
      ensures opt.Rename? ==> exists i :: FirstFree(name, i, stateLookup.Keys) && chosen == Candidate(name, i)
    {
      chosen := name;
      if opt.Rename? {
        var i := 0;
        chosen := Candidate(name, i);
        while chosen in stateLookup
          invariant chosen == Candidate(name, i)
          invariant forall j :: 0 <= j < i ==> Candidate(name, j) in stateLookup.Keys
          invariant i <= |stateLookup.Keys|
          decreases |stateLookup.Keys| - i
        {
          i := i + 1;
          CandidatesRunOut(name, stateLookup.Keys, i);
          chosen := Candidate(name, i);
        }
        assert FirstFree(name, i, stateLookup.Keys);
      }
    }

    /** Adds a state. With Rename the name gets the first number that makes it new. */
    method AddState(name: string, opt: Renaming) returns (state: State)
      requires Valid() && (opt.KeepName? ==> name !in stateLookup)
      modifies this`states, this`stateLookup, this`transitionLookup
      ensures Valid() && fresh(state) && states == old(states) + {state} && state.transitions == []
      ensures opt.KeepName? ==> state.name == name
      ensures opt.Rename? ==> exists i :: FirstFree(name, i, old(stateLookup.Keys)) && state.name == Candidate(name, i)
      ensures state.name !in old(stateLookup)
      ensures View() == old(View()).(types := old(View()).types[state.name := Normal])
    {
      hide NamesOk, IncidenceOk, LookupOk, InitialOk, Types, Edges;
      var chosen := ChooseName(name, opt);
      state := new State(chosen);
      states := states + {state};
      stateLookup := stateLookup[chosen := state];
      transitionLookup := transitionLookup[state := map[]];
      AddedState(this, state);
    }

    /** Removes a state that has no transitions left. */
    method RemoveState(state: State)
      requires Valid() && state in states && state.transitions == []
      modifies `initialState, `states, `stateLookup, `transitionLookup
      ensures Valid() && states == old(states) - {state} && transitions == old(transitions)
      ensures old(initialState) != state ==> initialState == old(initialState)
      ensures View() == Graph(if old(initialState) == state then None else old(View()).initial,
                              old(View()).types - {state.name}, old(View()).edges)
    {
      hide NamesOk, IncidenceOk, LookupOk, InitialOk, Types, Edges;
      if initialState == state {
        initialState := null;
      }
      states := states - {state};
      stateLookup := stateLookup - {state.name};
      transitionLookup := transitionLookup - {state};
      RemovedState(this, state);
    }

    lemma HasSlices(s: State)
      requires LookupOk() && s in states
      ensures s in transitionLookup
    {
    }

    lemma HasSlice(t: Trans)
      requires LookupOk() && IncidenceOk() && t in transitions
      ensures t.start in states && t.end in states && NoDuplicates(t.start.transitions)
      ensures t.start in transitionLookup && t.end in transitionLookup[t.start]
    {
    }

    /** Adds a transition with an empty label. */
    method AddTransition(start: State, end: State) returns (t: Trans)
      requires Valid() && start in states && end in states
      modifies `transitions, `transitionLookup, start`transitions, end`transitions
      ensures Valid() && fresh(t) && t.start == start && t.end == end
      ensures transitions == old(transitions) + {t} && t !in old(transitions)
      ensures t.AsEdge() == Edge(start.name, end.name, Label([], [], None, []), false, false)
    {
      hide NamesOk, IncidenceOk, LookupOk, InitialOk;
      HasSlices(start);
      t := new Trans(start, end);
      transitions := transitions + {t};
      var ends := transitionLookup[start];
      var slice := if end in ends then ends[end] else [];
      transitionLookup := transitionLookup[start := ends[end := slice + [t]]];
      start.transitions := start.transitions + [t];
      if start != end {
        end.transitions := end.transitions + [t];
      }
      AddedTransition(this, t);
    }

    /** Removes a transition from the process, from the slice of its two states and from both states. */
    method RemoveTransition(t: Trans)
      requires Valid() && t in transitions
      modifies `transitions, `transitionLookup, t.start`transitions, t.end`transitions
      ensures Valid() && transitions == old(transitions) - {t}
    {
      hide NamesOk, IncidenceOk, LookupOk, InitialOk;
      HasSlice(t);
      transitions := transitions - {t};
      var ends := transitionLookup[t.start];
      var slice := RemoveFirst(ends[t.end], t);
      transitionLookup := transitionLookup[t.start := ends[t.end := slice]];
      var rest := RemoveFirst(t.start.transitions, t);
      t.start.transitions := rest;
      if t.start == t.end {
        WithoutElements(old(t.start.transitions), t);
        WithoutAbsent(rest, t);
      }
      rest := RemoveFirst(t.end.transitions, t);
      t.end.transitions := rest;
      RemovedTransition(this, t);
    }
  }

  /** Cuts the first occurrence of x out of s. */
  method RemoveFirst<T(==)>(s: seq<T>, x: T) returns (r: seq<T>)
    ensures r == Without(s, x)
  {
    for i := 0 to |s|
      invariant x !in s[..i]
    {
      if s[i] == x {
        WithoutAt(s, x, i);
        return s[..i] + s[i + 1..];
      }
    }
    WithoutAbsent(s, x);
    return s;
  }

  // ---------- Adding a state ----------

  twostate predicate Added(p: Process, new s: State)
    reads p, p.states, p.transitions, s
  {
    && !old(allocated(s)) && s.transitions == [] && !s.isInitial && s.stateType == Normal
    && p.states == old(p.states) + {s} && s !in old(p.states)
    && s.name !in old(p.stateLookup) && p.stateLookup == old(p.stateLookup)[s.name := s]
    && p.transitions == old(p.transitions) && p.transitionLookup == old(p.transitionLookup)[s := map[]]
    && p.initialState == old(p.initialState)
    && (forall x :: x in old(p.states) ==> unchanged(x)) && (forall t :: t in p.transitions ==> unchanged(t))
  }

  twostate lemma AddedIncidence(p: Process, new s: State)
    requires old(p.IncidenceOk()) && Added(p, s)
    ensures p.IncidenceOk()
  {
  }

  twostate lemma AddedLookup(p: Process, new s: State)
    requires old(p.LookupOk()) && Added(p, s)
    ensures p.LookupOk()
  {
  }

  twostate lemma AddedNames(p: Process, new s: State)
    requires old(p.NamesOk()) && old(p.InitialOk()) && Added(p, s)
    ensures p.NamesOk() && p.InitialOk() && p.Types() == old(p.Types())[s.name := Normal]
  {
  }

  twostate lemma AddedEdges(p: Process, new s: State)
    requires Added(p, s)
    ensures p.Edges() == old(p.Edges())
  {
  }

  twostate lemma AddedState(p: Process, new s: State)
    requires old(p.Valid()) && Added(p, s)
    ensures p.Valid() && p.View() == old(p.View()).(types := old(p.View()).types[s.name := Normal])
  {
    AddedIncidence(p, s);
    AddedLookup(p, s);
    AddedNames(p, s);
    AddedEdges(p, s);
  }

  // ---------- Removing a state ----------

  twostate predicate RemovedFrom(p: Process, new s: State)
    reads p, p.states, p.transitions, s
  {
    && s in old(p.states) && old(allocated(s)) && old(s.transitions) == []
    && p.states == old(p.states) - {s} && p.stateLookup == old(p.stateLookup) - {s.name}
    && p.transitions == old(p.transitions) && p.transitionLookup == old(p.transitionLookup) - {s}
    && p.initialState == (if old(p.initialState) == s then null else old(p.initialState))
    && (forall x :: x in p.states ==> unchanged(x)) && (forall t :: t in p.transitions ==> unchanged(t))
  }

  twostate lemma RemovedIncidence(p: Process, new s: State)
    requires old(p.IncidenceOk()) && RemovedFrom(p, s)
    ensures p.IncidenceOk()
    ensures forall t :: t in p.transitions ==> t.start != s && t.end != s
  {
  }

  twostate lemma RemovedLookup(p: Process, new s: State)
    requires old(p.LookupOk()) && RemovedFrom(p, s)
    requires forall t :: t in p.transitions ==> t.start != s && t.end != s
    ensures p.LookupOk()
  {
  }

  twostate lemma RemovedNames(p: Process, new s: State)
    requires old(p.NamesOk()) && old(p.InitialOk()) && RemovedFrom(p, s)
    ensures p.NamesOk() && p.InitialOk() && p.Types() == old(p.Types()) - {s.name}
  {
  }

  twostate lemma RemovedEdges(p: Process, new s: State)
    requires RemovedFrom(p, s)
    ensures p.Edges() == old(p.Edges())
  {
  }

  twostate lemma RemovedState(p: Process, new s: State)
    requires old(p.Valid()) && RemovedFrom(p, s)
    ensures p.Valid()
    ensures p.Types() == old(p.Types()) - {s.name} && p.Edges() == old(p.Edges())
  {
    RemovedIncidence(p, s);
    RemovedLookup(p, s);
    RemovedNames(p, s);
    RemovedEdges(p, s);
  }

  // ---------- Adding a transition ----------

  twostate predicate AddedTo(p: Process, new t: Trans)
    requires old(p.LookupOk())
    reads p, p.states
  {
    && !old(allocated(t)) && t.start in old(p.states) && t.end in old(p.states)
    && p.states == old(p.states) && p.stateLookup == old(p.stateLookup) && p.initialState == old(p.initialState)
    && p.transitions == old(p.transitions) + {t}
    && (var ends := old(p.transitionLookup)[t.start];
        var slice := if t.end in ends then ends[t.end] else [];
        p.transitionLookup == old(p.transitionLookup)[t.start := ends[t.end := slice + [t]]])
    && (forall x :: x in p.states ==>
          x.transitions == old(x.transitions) + (if x == t.start || x == t.end then [t] else []))
    && (forall x :: x in p.states ==> x.isInitial == old(x.isInitial))
  }

  twostate lemma AddedTransIncidence(p: Process, new t: Trans)
    requires old(p.IncidenceOk()) && old(p.LookupOk()) && AddedTo(p, t)
    ensures p.IncidenceOk()
  {
  }

  twostate lemma AddedTransSlices(p: Process, new t: Trans)
    requires old(p.LookupOk()) && AddedTo(p, t)
    ensures forall s, e :: s in p.transitionLookup && e in p.transitionLookup[s] ==>
              NoDuplicates(p.transitionLookup[s][e])
  {
  }

  twostate lemma AddedTransLookup(p: Process, new t: Trans)
    requires old(p.LookupOk()) && AddedTo(p, t)
    ensures p.LookupOk()
  {
    AddedTransSlices(p, t);
    hide NoDuplicates;
  }

  twostate lemma AddedTransition(p: Process, new t: Trans)
    requires old(p.Valid()) && AddedTo(p, t)
    ensures p.Valid()
  {
    AddedTransIncidence(p, t);
    AddedTransLookup(p, t);
  }

  // ---------- Removing a transition ----------

  twostate predicate CutFrom(p: Process, new t: Trans)
    requires old(allocated(t)) && old(p.LookupOk()) && t in old(p.transitions)
    reads p, p.states
  {
    && p.states == old(p.states) && p.stateLookup == old(p.stateLookup) && p.initialState == old(p.initialState)
    && p.transitions == old(p.transitions) - {t}
    && (var ends := old(p.transitionLookup)[t.start];
        p.transitionLookup == old(p.transitionLookup)[t.start := ends[t.end := Without(ends[t.end], t)]])
    && (forall x :: x in p.states ==>
          x.transitions == (if x == t.start || x == t.end then Without(old(x.transitions), t) else old(x.transitions)))
    && (forall x :: x in p.states ==> x.isInitial == old(x.isInitial))
  }

  twostate lemma CutElements(p: Process, new t: Trans, new x: State)
    requires old(p.IncidenceOk()) && old(p.LookupOk()) && t in old(p.transitions) && CutFrom(p, t)
    requires old(allocated(x)) && x in old(p.states)
    ensures NoDuplicates(x.transitions)
    ensures forall y :: y in x.transitions <==> y in old(x.transitions) && y != t
  {
    WithoutElements(old(x.transitions), t);
  }

  twostate lemma CutIncidence(p: Process, new t: Trans)
    requires old(p.IncidenceOk()) && old(p.LookupOk()) && t in old(p.transitions) && CutFrom(p, t)
    ensures p.IncidenceOk()
  {
    forall x | x in p.states
      ensures NoDuplicates(x.transitions)
      ensures forall y :: y in x.transitions <==> y in old(x.transitions) && y != t
    {
      CutElements(p, t, x);
    }
    hide Without, NoDuplicates, Process.LookupOk;
  }

  twostate lemma CutLookup(p: Process, new t: Trans)
    requires old(p.LookupOk()) && t in old(p.transitions) && CutFrom(p, t)
    ensures p.LookupOk()
  {
    WithoutElements(old(p.transitionLookup[t.start][t.end]), t);
  }

  twostate lemma RemovedTransition(p: Process, new t: Trans)
    requires old(p.Valid()) && t in old(p.transitions) && CutFrom(p, t)
    ensures p.Valid()
  {
    CutIncidence(p, t);
    CutLookup(p, t);
  }
}
