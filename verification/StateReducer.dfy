/** The state reducer and the transition reducer on the mutable process graph. */
module StateReducer {
  import opened UppaalGraphs
  import opened UppaalProcess

  /** The edges that a list of transitions stands for. */
  ghost function EdgesOf(ts: seq<Trans>): set<Edge>
    reads ts
  {
    set t | t in ts :: t.AsEdge()
  }

  /** Which labels occur on a list of transitions. */
  method Analyze(ts: seq<Trans>) returns (props: Props)
    ensures props == PropsOf(EdgesOf(ts))
  {
    props := Props(false, false, false, false);
    hide EdgesOf, PropsOf;
    PropsOfNone();
    for k := 0 to |ts|
      invariant props == PropsOf(EdgesOf(ts[..k]))
    {
      var t := ts[k];
      PropsOfOneMore(ts[..k], t);
      assert ts[..k + 1] == ts[..k] + [t];
      if t.guard != [] { props := props.(hasGuard := true); }
      if t.sync != None { props := props.(hasSync := true); }
      if t.update != [] { props := props.(hasUpdate := true); }
      if t.UsesGlobals() { props := props.(usesGlobals := true); }
    }
    assert ts[..|ts|] == ts;
  }

  lemma PropsOfNone()
    ensures PropsOf(EdgesOf([])) == Props(false, false, false, false)
  {
  }

  lemma PropsOfOneMore(ts: seq<Trans>, t: Trans)
    ensures var p, e := PropsOf(EdgesOf(ts)), t.AsEdge();
            PropsOf(EdgesOf(ts + [t]))
            == Props(p.hasGuard || e.act.guard != [], p.hasSync || e.act.sync.Some?,
                     p.hasUpdate || e.act.update != [], p.usesGlobals || e.UsesGlobals())
  {
    assert EdgesOf(ts + [t]) == EdgesOf(ts) + {t.AsEdge()};
  }

  // ---------- What the tables say about the graph ----------

  /** The lists hold exactly the incoming and the outgoing transitions of the state. */
  ghost predicate Surround(ins: seq<Trans>, outs: seq<Trans>, state: State)
    reads state
  {
    && (forall t :: t in ins ==> t in state.transitions && t.end == state)
    && (forall t :: t in outs ==> t in state.transitions && t.start == state)
    && (forall t :: t in state.transitions ==> (t.end == state ==> t in ins) && (t.start == state ==> t in outs))
  }

  ghost predicate StartIn(ts: seq<Trans>, states: set<State>) {
    forall k :: 0 <= k < |ts| ==> ts[k].start in states
  }

  ghost predicate EndIn(ts: seq<Trans>, states: set<State>) {
    forall k :: 0 <= k < |ts| ==> ts[k].end in states
  }

  lemma EdgesAt(p: Process, state: State, ins: seq<Trans>, outs: seq<Trans>)
    requires p.Valid() && state in p.states
    requires Surround(ins, outs, state)
    ensures Incoming(p.View(), state.name) == EdgesOf(ins)
    ensures Outgoing(p.View(), state.name) == EdgesOf(outs)
  {
    hide Process.LookupOk, Process.InitialOk, NoDuplicates;
    forall t | t in p.transitions
      ensures t in ins <==> t.AsEdge().dst == state.name
      ensures t in outs <==> t.AsEdge().src == state.name
    {
      assert t.end in p.states && t.start in p.states;
    }
  }

  /** The tests the reducer makes on the objects around a state. */
  ghost predicate TransitionsPlain(state: State)
    reads state, state.transitions, set t | t in state.transitions :: t.start, set t | t in state.transitions :: t.end
  {
    forall t :: t in state.transitions ==>
      t.start != t.end && t.start.stateType.Normal? && t.end.stateType.Normal? && t.select == []
  }

  lemma PlainMeans(p: Process, state: State)
    requires p.Valid() && state in p.states
    ensures TransitionsPlain(state) <==>
            (forall e :: e in p.View().edges && (e.src == state.name || e.dst == state.name) ==>
               e.src != e.dst && IsNormal(p.View(), e.src) && IsNormal(p.View(), e.dst) && e.act.select == [])
  {
    hide Process.LookupOk, Process.InitialOk, NoDuplicates;
    var g := p.View();
    forall t | t in p.transitions
      ensures t.AsEdge() in g.edges && t.start in p.states && t.end in p.states
      ensures t in state.transitions <==> t.AsEdge().src == state.name || t.AsEdge().dst == state.name
      ensures t.start == t.end <==> t.AsEdge().src == t.AsEdge().dst
      ensures IsNormal(g, t.AsEdge().src) <==> t.start.stateType.Normal?
      ensures IsNormal(g, t.AsEdge().dst) <==> t.end.stateType.Normal?
    {
    }
    if TransitionsPlain(state) {
      forall e | e in g.edges && (e.src == state.name || e.dst == state.name)
        ensures e.src != e.dst && IsNormal(g, e.src) && IsNormal(g, e.dst) && e.act.select == []
      {
        var t :| t in p.transitions && t.AsEdge() == e;
      }
    }
  }

  ghost predicate PropsAllow(i: Props, o: Props) {
    && !(i.usesGlobals && o.usesGlobals)
    && !((i.hasSync || i.hasUpdate) && o.hasGuard)
    && !(i.hasUpdate && o.hasSync)
  }

  /** The reducer's tests decide exactly whether the location may be eliminated. */
  lemma TestsDecide(p: Process, state: State, ins: seq<Trans>, outs: seq<Trans>)
    requires p.Valid() && state in p.states
    requires Surround(ins, outs, state)
    ensures CanRemove(p.View(), state.name) <==>
            (&& !state.isInitial && state.stateType.Normal? && TransitionsPlain(state) && |outs| > 0
             && PropsAllow(PropsOf(EdgesOf(ins)), PropsOf(EdgesOf(outs))))
  {
    EdgesAt(p, state, ins, outs);
    PlainMeans(p, state);
    var g := p.View();
    assert IsNormal(g, state.name) <==> state.stateType.Normal?;
    assert g.initial == Some(state.name) <==> state.isInitial;
    assert EdgesOf(outs) == {} <==> |outs| == 0 by {
      if |outs| > 0 {
        assert outs[0].AsEdge() in EdgesOf(outs);
      }
    }
    hide TransitionsPlain, IsNormal, PropsOf, Incoming, Outgoing, EdgesOf;
  }

  // ---------- Removing one state ----------

  method FillGuard(t: Trans, oldIn: Trans, oldOut: Trans)
    requires t != oldIn && t != oldOut && t.guard == [] && !t.guardUsesGlobals
    modifies t
    ensures t.AsEdge() == old(t.AsEdge()).(act := old(t.AsEdge()).act.(guard := oldIn.guard + oldOut.guard),
                            guardUsesGlobals := (oldIn.guard != [] && oldIn.guardUsesGlobals)
                                                || (oldOut.guard != [] && oldOut.guardUsesGlobals))
  {
    if oldIn.guard != [] && oldOut.guard != [] {
      t.SetGuard(oldIn.guard + oldOut.guard, oldIn.guardUsesGlobals || oldOut.guardUsesGlobals);
    } else if oldIn.guard != [] {
      t.SetGuard(oldIn.guard, oldIn.guardUsesGlobals);
    } else if oldOut.guard != [] {
      t.SetGuard(oldOut.guard, oldOut.guardUsesGlobals);
    }
  }

  method FillUpdate(t: Trans, oldIn: Trans, oldOut: Trans)
    requires t != oldIn && t != oldOut && t.update == [] && !t.updateUsesGlobals
    modifies t
    ensures t.AsEdge() == old(t.AsEdge()).(act := old(t.AsEdge()).act.(update := oldIn.update + oldOut.update),
                            updateUsesGlobals := (oldIn.update != [] && oldIn.updateUsesGlobals)
                                                 || (oldOut.update != [] && oldOut.updateUsesGlobals))
  {
    if oldIn.update != [] && oldOut.update != [] {
      t.AddUpdate(oldIn.update, oldIn.updateUsesGlobals);
      t.AddUpdate(oldOut.update, oldOut.updateUsesGlobals);
    } else if oldIn.update != [] {
      t.AddUpdate(oldIn.update, oldIn.updateUsesGlobals);
    } else if oldOut.update != [] {
      t.AddUpdate(oldOut.update, oldOut.updateUsesGlobals);
    }
  }

  /** Gives a transition with an empty label the label of oldIn and then oldOut. */
  method FillLabel(t: Trans, oldIn: Trans, oldOut: Trans)
    requires t != oldIn && t != oldOut && t.start == oldIn.start && t.end == oldOut.end
    requires t.AsEdge() == Edge(t.start.name, t.end.name, Label([], [], None, []), false, false)
    modifies t
    ensures t.AsEdge() == Compose(oldIn.AsEdge(), oldOut.AsEdge())
  {
    FillGuard(t, oldIn, oldOut);
    if oldIn.sync != None {
      t.SetSync(oldIn.sync);
    } else if oldOut.sync != None {
      t.SetSync(oldOut.sync);
    }
    FillUpdate(t, oldIn, oldOut);
  }

  /** Adds the transition that takes oldIn and then oldOut. */
  method AddComposed(p: Process, oldIn: Trans, oldOut: Trans) returns (t: Trans)
    requires p.Valid() && oldIn.start in p.states && oldOut.end in p.states
    modifies p`transitions, p`transitionLookup, p.states`transitions
    ensures p.Valid() && fresh(t) && p.transitions == old(p.transitions) + {t}
    ensures t.AsEdge() == Compose(oldIn.AsEdge(), oldOut.AsEdge())
    ensures p.Edges() == old(p.Edges()) + {Compose(oldIn.AsEdge(), oldOut.AsEdge())}
  {
    hide Process.Valid, Process.Edges;
    t := p.AddTransition(oldIn.start, oldOut.end);
    FillLabel(t, oldIn, oldOut);
    OneMoreEdge(p, t);
  }

  twostate lemma OneMoreEdge(p: Process, new t: Trans)
    requires p.transitions == old(p.transitions) + {t}
    requires forall x :: x in old(p.transitions) ==> unchanged(x)
    ensures p.Edges() == old(p.Edges()) + {t.AsEdge()}
  {
  }

  lemma IncidentTo(p: Process, state: State)
    requires p.Valid() && state in p.states
    ensures NoDuplicates(state.transitions) && ArePartOf(state.transitions, p)
    ensures forall t :: t in p.transitions ==> (t in state.transitions <==> t.start == state || t.end == state)
  {
    hide Process.NamesOk, Process.LookupOk, Process.InitialOk;
  }

  ghost predicate ArePartOf(ts: seq<Trans>, p: Process)
    reads p
  {
    forall k :: 0 <= k < |ts| ==> ts[k] in p.transitions && ts[k].start in p.states && ts[k].end in p.states
  }

  method RemoveTransitions(p: Process, ts: seq<Trans>)
    requires p.Valid() && NoDuplicates(ts) && ArePartOf(ts, p)
    modifies p`transitions, p`transitionLookup, p.states`transitions
    ensures p.Valid()
    ensures forall t :: t in p.transitions <==> t in old(p.transitions) && t !in ts
  {
    hide Process.Valid;
    for k := 0 to |ts|
      modifies p`transitions, p`transitionLookup, p.states`transitions
      invariant p.Valid()
      invariant forall t :: t in p.transitions <==> t in old(p.transitions) && t !in ts[..k]
    {
      assert ts[..k + 1] == ts[..k] + [ts[k]];
      assert ts[k] in p.transitions;
      p.RemoveTransition(ts[k]);
    }
    assert ts[..|ts|] == ts;
  }

  lemma NonEmptyHas<T>(s: seq<T>)
    ensures s != [] ==> exists k :: 0 <= k < |s| && s[k] in s
  {
    if s != [] {
      assert s[0] in s;
    }
  }

  lemma NothingLeft(p: Process, state: State)
    requires p.Valid() && state in p.states
    requires forall t :: t in p.transitions ==> t.start != state && t.end != state
    ensures state.transitions == []
  {
    IncidentTo(p, state);
    NonEmptyHas(state.transitions);
  }

  ghost function RestEdges(p: Process, state: State): set<Edge>
    reads p, p.transitions
  {
    set t | t in p.transitions && t.start != state && t.end != state :: t.AsEdge()
  }

  twostate lemma SameRest(p: Process, new state: State)
    requires p.transitions == set t | t in old(p.transitions) && t.start != state && t.end != state
    requires old(allocated(state)) && forall t :: t in old(p.transitions) ==> unchanged(t)
    ensures p.Edges() == old(RestEdges(p, state))
  {
    assert forall t :: t in p.transitions ==> t.AsEdge() == old(t.AsEdge());
    forall e | e in old(RestEdges(p, state)) ensures e in p.Edges() {
      var t :| t in old(p.transitions) && t.start != state && t.end != state && old(t.AsEdge()) == e;
      assert t in p.transitions;
    }
  }

  /** Cuts all transitions of a state out of the process. */
  method Isolate(p: Process, state: State)
    requires p.Valid() && state in p.states
    modifies p`transitions, p`transitionLookup, p.states`transitions
    ensures p.Valid() && state.transitions == []
    ensures p.transitions == set t | t in old(p.transitions) && t.start != state && t.end != state
    ensures p.Edges() == old(RestEdges(p, state))
  {
    IncidentTo(p, state);
    hide Process.Valid;
    RemoveTransitions(p, state.transitions);
    SameRest(p, state);
    NothingLeft(p, state);
  }

  ghost function AsEdges(ts: seq<Trans>): (es: seq<Edge>)
    reads ts
    ensures |es| == |ts| && forall k :: 0 <= k < |ts| ==> es[k] == ts[k].AsEdge()
  {
    if ts == [] then [] else [ts[0].AsEdge()] + AsEdges(ts[1..])
  }

  function Row(i: Edge, outs: seq<Edge>): set<Edge> { set o | o in outs :: Compose(i, o) }

  lemma RowOneMore(i: Edge, outs: seq<Edge>, b: nat)
    requires b < |outs|
    ensures Row(i, outs[..b + 1]) == Row(i, outs[..b]) + {Compose(i, outs[b])}
  {
    assert outs[..b + 1] == outs[..b] + [outs[b]];
  }

  function Rows(ins: seq<Edge>, outs: seq<Edge>): set<Edge> { set i, e | i in ins && e in Row(i, outs) :: e }

  lemma RowsOneMore(ins: seq<Edge>, outs: seq<Edge>, a: nat)
    requires a < |ins|
    ensures Rows(ins[..a + 1], outs) == Rows(ins[..a], outs) + Row(ins[a], outs)
  {
    hide Row;
    assert ins[..a + 1] == ins[..a] + [ins[a]];
  }

  /** Removes a state, which is not the initial one, with all its transitions. */
  method Detach(p: Process, state: State)
    requires p.Valid() && state in p.states && state != p.initialState
    modifies p, p.states`transitions
    ensures p.Valid() && p.states == old(p.states) - {state} && p.initialState == old(p.initialState)
    ensures p.Types() == old(p.Types()) - {state.name} && p.Edges() == old(RestEdges(p, state))
  {
    hide Process.Edges, Process.Types, Process.NamesOk, Process.LookupOk, Process.IncidenceOk, Process.InitialOk, RestEdges;
    Isolate(p, state);
    p.RemoveState(state);
  }

  /** Adds the compositions of one transition with all of outs. */
  method AddRow(p: Process, oldIn: Trans, outs: seq<Trans>)
    requires p.Valid() && oldIn.start in p.states && EndIn(outs, p.states)
    modifies p`transitions, p`transitionLookup, p.states`transitions
    ensures p.Valid()
    ensures p.Edges() == old(p.Edges()) + Row(oldIn.AsEdge(), AsEdges(outs))
  {
    hide Process.Valid, Process.Edges, Compose, Row;
    ghost var i, es, was := oldIn.AsEdge(), AsEdges(outs), p.Edges();
    assert Row(i, es[..0]) == {} by { EmptyRow(i); }
    for b := 0 to |outs|
      modifies p`transitions, p`transitionLookup, p.states`transitions
      invariant p.Valid()
      invariant p.Edges() == was + Row(i, es[..b])
    {
      var t := AddComposed(p, oldIn, outs[b]);
      RowOneMore(i, es, b);
    }
    assert es[..|outs|] == es;
  }

  lemma EmptyRow(i: Edge)
    ensures Row(i, []) == {}
  {
  }

  lemma StartOf(ts: seq<Trans>, states: set<State>, k: nat)
    requires StartIn(ts, states) && k < |ts|
    ensures ts[k].start in states
  {
  }

  method AddNextRow(p: Process, ins: seq<Trans>, outs: seq<Trans>, a: nat, ghost was: set<Edge>)
    requires p.Valid() && StartIn(ins, p.states) && EndIn(outs, p.states)
    requires a < |ins| && Grown(was, AsEdges(ins), AsEdges(outs), a, p.Edges())
    modifies p`transitions, p`transitionLookup, p.states`transitions
    ensures p.Valid() && Grown(was, AsEdges(ins), AsEdges(outs), a + 1, p.Edges())
  {
    hide Process.Valid, Process.Edges, Grown, StartIn, EndIn, AsEdges, Row;
    StartOf(ins, p.states, a);
    AddRow(p, ins[a], outs);
    GrownOn(was, AsEdges(ins), AsEdges(outs), a, old(p.Edges()), p.Edges());
  }

  method AddRows(p: Process, ins: seq<Trans>, outs: seq<Trans>)
    requires p.Valid() && StartIn(ins, p.states) && EndIn(outs, p.states)
    modifies p`transitions, p`transitionLookup, p.states`transitions
    ensures p.Valid()
    ensures Grown(old(p.Edges()), AsEdges(ins), AsEdges(outs), |ins|, p.Edges())
  {
    hide Process.Valid, Process.Edges, Grown, StartIn, EndIn, AsEdges, Row;
    ghost var xs, ys, was := AsEdges(ins), AsEdges(outs), p.Edges();
    GrownNone(was, xs, ys);
    for a := 0 to |ins|
      modifies p`transitions, p`transitionLookup, p.states`transitions
      invariant p.Valid() && AsEdges(ins) == xs && AsEdges(outs) == ys
      invariant Grown(was, xs, ys, a, p.Edges())
    {
      AddNextRow(p, ins, outs, a, was);
    }
  }

  ghost predicate Grown(was: set<Edge>, ins: seq<Edge>, outs: seq<Edge>, a: nat, edges: set<Edge>)
    requires a <= |ins|
  {
    edges == was + Rows(ins[..a], outs)
  }

  lemma GrownNone(was: set<Edge>, ins: seq<Edge>, outs: seq<Edge>)
    ensures Grown(was, ins, outs, 0, was)
  {
  }

  lemma GrownOn(was: set<Edge>, ins: seq<Edge>, outs: seq<Edge>, a: nat, before: set<Edge>, edges: set<Edge>)
    requires a < |ins| && Grown(was, ins, outs, a, before) && edges == before + Row(ins[a], outs)
    ensures Grown(was, ins, outs, a + 1, edges)
  {
    RowsOneMore(ins, outs, a);
  }

  lemma GrownAll(was: set<Edge>, ins: seq<Edge>, outs: seq<Edge>, edges: set<Edge>)
    requires Grown(was, ins, outs, |ins|, edges)
    ensures edges == was + Rows(ins, outs)
  {
    assert ins[..|ins|] == ins;
  }

  /** The neighbours of a removable state are other states of the process. */
  lemma EndsAround(p: Process, state: State, ins: seq<Trans>, outs: seq<Trans>)
    requires p.Valid() && state in p.states && CanRemove(p.View(), state.name)
    requires Surround(ins, outs, state)
    ensures StartIn(ins, p.states - {state}) && EndIn(outs, p.states - {state})
    ensures p.initialState != state
  {
    hide Process.LookupOk, Process.InitialOk, NoDuplicates, PropsOf;
    forall t | t in state.transitions
      ensures t.start in p.states && t.end in p.states && t.start != t.end
    {
      assert t.AsEdge() in p.View().edges;
    }
    assert forall k :: 0 <= k < |ins| ==> ins[k] in ins;
    assert forall k :: 0 <= k < |outs| ==> outs[k] in outs;
  }

  lemma AsEdgesElements(ts: seq<Trans>)
    ensures forall e :: e in AsEdges(ts) <==> e in EdgesOf(ts)
  {
    forall e | e in EdgesOf(ts) ensures e in AsEdges(ts) {
      var k :| 0 <= k < |ts| && ts[k].AsEdge() == e;
      assert AsEdges(ts)[k] == e;
    }
  }

  lemma RowsAreBypasses(g: Graph, m: string, ins: seq<Edge>, outs: seq<Edge>)
    requires forall e :: e in ins <==> e in Incoming(g, m)
    requires forall e :: e in outs <==> e in Outgoing(g, m)
    ensures Rows(ins, outs) == Bypasses(g, m)
  {
    forall e | e in Bypasses(g, m) ensures e in Rows(ins, outs) {
      var i, o :| i in Incoming(g, m) && o in Outgoing(g, m) && e == Compose(i, o);
      assert e in Row(i, outs);
    }
  }

  /** The edges that remain when the transitions of a state are cut. */
  lemma RestAfter(p: Process, state: State)
    requires p.Valid() && state in p.states
    ensures RestEdges(p, state) == (set e | e in p.View().edges && e.src != state.name && e.dst != state.name)
  {
    hide Process.LookupOk, Process.InitialOk, NoDuplicates;
    forall t | t in p.transitions
      ensures t.start != state && t.end != state <==> t.AsEdge().src != state.name && t.AsEdge().dst != state.name
    {
      assert t.start in p.states && t.end in p.states;
    }
    var rest := RestEdges(p, state);
    forall e | e in p.View().edges && e.src != state.name && e.dst != state.name ensures e in rest {
      var t :| t in p.transitions && t.AsEdge() == e;
      assert t.start != state && t.end != state;
    }
  }

  method Replace(p: Process, state: State, ins: seq<Trans>, outs: seq<Trans>)
    requires p.Valid() && state in p.states && state != p.initialState
    requires StartIn(ins, p.states - {state}) && EndIn(outs, p.states - {state})
    modifies p, p.states`transitions
    ensures p.Valid() && p.states == old(p.states) - {state} && p.initialState == old(p.initialState)
    ensures p.Types() == old(p.Types()) - {state.name}
    ensures p.Edges() == old(RestEdges(p, state)) + old(Rows(AsEdges(ins), AsEdges(outs)))
  {
    hide Process.NamesOk, Process.LookupOk, Process.IncidenceOk, Process.InitialOk, Process.Edges, Process.Types,
      RestEdges, Rows, AsEdges, StartIn, EndIn, Grown;
    Detach(p, state);
    AddRows(p, ins, outs);
    GrownAll(old(RestEdges(p, state)), AsEdges(ins), AsEdges(outs), p.Edges());
  }

  lemma BypassPlan(p: Process, state: State, ins: seq<Trans>, outs: seq<Trans>)
    requires p.Valid() && state in p.states && CanRemove(p.View(), state.name)
    requires Surround(ins, outs, state)
    ensures StartIn(ins, p.states - {state}) && EndIn(outs, p.states - {state})
    ensures p.initialState != state
    ensures Eliminate(p.View(), state.name)
            == Graph(p.View().initial, p.Types() - {state.name},
                     RestEdges(p, state) + Rows(AsEdges(ins), AsEdges(outs)))
  {
    var g := p.View();
    EdgesAt(p, state, ins, outs);
    EndsAround(p, state, ins, outs);
    AsEdgesElements(ins);
    AsEdgesElements(outs);
    RestAfter(p, state);
    hide Process.Edges, Process.Types, EdgesOf, RestEdges, Rows, AsEdges, Bypasses, CanRemove, Incoming, Outgoing;
    RowsAreBypasses(g, state.name, AsEdges(ins), AsEdges(outs));
  }

  /** Replaces a state by the compositions of its incoming with its outgoing transitions. */
  method Bypass(p: Process, state: State, ins: seq<Trans>, outs: seq<Trans>)
    requires p.Valid() && state in p.states && CanRemove(p.View(), state.name) && Surround(ins, outs, state)
    modifies p, p.states`transitions
    ensures p.Valid() && p.states == old(p.states) - {state} && p.initialState == old(p.initialState)
    ensures p.View() == Eliminate(old(p.View()), state.name)
  {
    BypassPlan(p, state, ins, outs);
    hide Process.NamesOk, Process.LookupOk, Process.IncidenceOk, Process.InitialOk, Process.Edges, Process.Types,
      RestEdges, Rows, AsEdges, StartIn, EndIn, Surround, CanRemove, Eliminate;
    Replace(p, state, ins, outs);
  }

  method ArePlain(state: State) returns (plain: bool)
    ensures plain <==> TransitionsPlain(state)
  {
    for k := 0 to |state.transitions|
      invariant forall t :: t in state.transitions[..k] ==>
        t.start != t.end && t.start.stateType.Normal? && t.end.stateType.Normal? && t.select == []
    {
      var t := state.transitions[k];
      if t.start == t.end || t.start.stateType != Normal || t.end.stateType != Normal || t.select != [] {
        return false;
      }
    }
    return true;
  }

  /** The tests on the objects around a state. */
  method Test(state: State, ins: seq<Trans>, outs: seq<Trans>) returns (ok: bool)
    ensures ok <==>
      (&& !state.isInitial && state.stateType.Normal? && TransitionsPlain(state) && |outs| > 0
       && PropsAllow(PropsOf(EdgesOf(ins)), PropsOf(EdgesOf(outs))))
  {
    hide PropsOf, EdgesOf, TransitionsPlain;
    if state.isInitial || state.stateType != Normal {
      return false;
    }
    var plain := ArePlain(state);
    if !plain || |outs| == 0 {
      return false;
    }
    var inProps := Analyze(ins);
    var outProps := Analyze(outs);
    if inProps.usesGlobals && outProps.usesGlobals {
      return false;
    }
    if (inProps.hasSync || inProps.hasUpdate) && outProps.hasGuard {
      return false;
    } else if inProps.hasUpdate && outProps.hasSync {
      return false;
    }
    return true;
  }

  /** The tests decide exactly whether the location may be eliminated. */
  method Decide(p: Process, state: State, ins: seq<Trans>, outs: seq<Trans>) returns (removable: bool)
    requires p.Valid() && state in p.states && Surround(ins, outs, state)
    ensures removable <==> CanRemove(p.View(), state.name)
  {
    TestsDecide(p, state, ins, outs);
    hide Process.NamesOk, Process.LookupOk, Process.IncidenceOk, Process.InitialOk, Process.View,
      Surround, CanRemove, PropsOf, PropsAllow, EdgesOf, TransitionsPlain;
    removable := Test(state, ins, outs);
  }

  /** Removes the state if its neighbourhood allows it and leaves the process alone otherwise. */
  method RemoveStateIfPossible(p: Process, state: State)
    requires p.Valid() && state in p.states
    modifies p, p.states`transitions
    ensures p.Valid() && p.initialState == old(p.initialState)
    ensures old(CanRemove(p.View(), state.name)) ==>
              p.View() == Eliminate(old(p.View()), state.name) && p.states == old(p.states) - {state}
    ensures !old(CanRemove(p.View(), state.name)) ==> p.View() == old(p.View()) && p.states == old(p.states)
  {
    var ins := state.IncomingTransitions();
    var outs := state.OutgoingTransitions();
    hide Process.NamesOk, Process.LookupOk, Process.IncidenceOk, Process.InitialOk, Process.View, CanRemove, Eliminate;
    var removable := Decide(p, state, ins, outs);
    if removable {
      Bypass(p, state, ins, outs);
    }
  }
}
