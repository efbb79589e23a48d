/** The depth-first search that numbers the strongly connected components of the call graph. */
module SccSearches {
  import opened FuncGraphs
  import opened SccInvariant

  function ElementsOf(s: seq<Func>): set<Func> { set x | x in s }

  /** The list of each component holds exactly the functions with its number. */
  ghost predicate ListsOk(count: nat, funcToSCCs: map<Func, nat>, sccToFuncs: map<nat, seq<Func>>) {
    && (forall c :: c in sccToFuncs <==> 1 <= c < count)
    && (forall f :: f in funcToSCCs ==> funcToSCCs[f] in sccToFuncs && f in sccToFuncs[funcToSCCs[f]])
    && (forall c, f :: c in sccToFuncs && f in sccToFuncs[c] ==> f in funcToSCCs && funcToSCCs[f] == c)
    && (forall c :: c in sccToFuncs ==> sccToFuncs[c] != [])
    && (forall c, i, j :: c in sccToFuncs && 0 <= i < j < |sccToFuncs[c]| ==> sccToFuncs[c][i] != sccToFuncs[c][j])
  }

  class SccSearch {
    const graph: Graph
    var index: nat
    var indices: map<Func, nat>
    var lowLinks: map<Func, nat>
    var stack: seq<Func>
    var stackSet: set<Func>
    var sccCount: nat
    var funcToSCCs: map<Func, nat>
    var sccToFuncs: map<nat, seq<Func>>
    ghost var gray: set<Func>

    ghost function Snap(): Snapshot
      reads this
    {
      Snapshot(index, indices, stack, gray, sccCount, funcToSCCs)
    }

    ghost predicate TablesOk()
      reads this
    {
      lowLinks.Keys == indices.Keys && stackSet == ElementsOf(stack) && ListsOk(sccCount, funcToSCCs, sccToFuncs)
    }

    constructor (g: Graph)
      requires WellFormed(g)
      ensures graph == g && Inv(g, Snap()) && TablesOk() && gray == {} && indices == map[] && stack == []
    {
      graph := g;
      index, indices, lowLinks, stack, stackSet := 0, map[], map[], [], {};
      sccCount, funcToSCCs, sccToFuncs, gray := 1, map[], map[], {};
    }

    /** Pops the stack down to v; what comes off is the next component. */
    method PopComponent(v: Func, ghost a: nat)
      requires a < |stack| && stack[a] == v && TablesOk() && sccCount >= 1 && Distinct(stack)
      requires forall x :: x in stack ==> x !in funcToSCCs
      modifies `stack, `stackSet, `sccCount, `funcToSCCs, `sccToFuncs
      ensures Snap() == Pop(old(Snap()), gray, a) && TablesOk()
    {
      hide ListsOk, Popped, Distinct;
      var scc := sccCount;
      sccCount := sccCount + 1;
      ghost var full, base, lists := stack, funcToSCCs, sccToFuncs;
      PopStarts(full, base, lists, scc);
      var w, done := v, false;
      while !done
        modifies `stack, `stackSet, `funcToSCCs, `sccToFuncs
        invariant a <= |stack| <= |full| && (done <==> |stack| == a)
        invariant stack == full[..|stack|] && stackSet == ElementsOf(stack)
        invariant Popped(full, |stack|, base, lists, scc, funcToSCCs, sccToFuncs)
        decreases |stack|
      {
        var i := |stack| - 1;
        w := stack[i];
        PopOne(full, i, v, a);
        PopLists(full, i, base, lists, scc, funcToSCCs, sccToFuncs);
        stack := stack[..i];
        stackSet := stackSet - {w};
        funcToSCCs := funcToSCCs[w := scc];
        sccToFuncs := sccToFuncs[scc := (if scc in sccToFuncs then sccToFuncs[scc] else []) + [w]];
        done := w == v;
      }
      PopEnds(full, a, base, lists, scc, funcToSCCs, sccToFuncs);
    }

    /** Deals with one call of v. */
    method Visit(v: Func, w: Func, ghost done: set<Func>, ghost s0: Snapshot)
      requires TablesOk() && v in lowLinks && v in graph && w in graph[v]
      requires Working(graph, s0, Snap(), v, done, lowLinks[v])
      modifies this
      ensures TablesOk() && v in lowLinks && Working(graph, s0, Snap(), v, done + {w}, lowLinks[v])
      ensures old(indices.Keys) <= indices.Keys
      ensures forall x :: x in old(lowLinks) && x != v ==> x in lowLinks && lowLinks[x] == old(lowLinks[x])
      decreases |graph.Keys - indices.Keys|, 2
    {
      hide Inv, GrayReach, ListsOk, Working, Searched;
      ghost var s, low := Snap(), lowLinks[v];
      WorkingBasics(graph, s0, s, v, done, low);
      if w !in indices {
        CallReach(graph, s0, s, v, done, low, w);
        StrongConnect(w);
        NewCall(graph, s0, s, Snap(), v, done, low, w, lowLinks[w]);
        if lowLinks[v] > lowLinks[w] {
          lowLinks := lowLinks[v := lowLinks[w]];
        }
      } else {
        ghost var low1 := if w in stack && indices[w] < low then indices[w] else low;
        VisitedCall(graph, s0, s, v, done, low, w, low1);
        if w in stackSet {
          if lowLinks[v] > indices[w] {
            lowLinks := lowLinks[v := indices[w]];
          }
        }
      }
    }

    /** Leaves v: if it is the root of its component, the component is complete. */
    method Leave(v: Func, ghost s0: Snapshot)
      requires TablesOk() && v in lowLinks && v in graph && Working(graph, s0, Snap(), v, graph[v], lowLinks[v])
      modifies this
      ensures TablesOk() && lowLinks == old(lowLinks) && Searched(graph, s0, Snap(), v, lowLinks[v])
      ensures indices == old(indices)
    {
      hide Inv, GrayReach, ListsOk, Working, Searched, Distinct, Pop;
      ghost var s := Snap();
      WorkingBasics(graph, s0, s, v, graph[v], lowLinks[v]);
      WorkingFacts(graph, s0, s, v, graph[v], lowLinks[v]);
      StackDistinct(graph, s);
      gray := s0.gray;
      if lowLinks[v] == indices[v] {
        LeaveWithComponent(graph, s0, s, v, lowLinks[v]);
        PopSetsGray(s, s0.gray, |s0.stack|);
        PopComponent(v, |s0.stack|);
      } else {
        LeaveOnStack(graph, s0, s, v, lowLinks[v]);
      }
    }

    /** Numbers v and pushes it. */
    method Push(v: Func)
      requires Inv(graph, Snap()) && TablesOk() && v in graph && v !in indices && GrayReach(graph, gray, v)
      modifies this
      ensures TablesOk() && lowLinks == old(lowLinks)[v := old(index)] && indices == old(indices)[v := old(index)]
      ensures Working(graph, old(Snap()), Snap(), v, {}, lowLinks[v])
    {
      hide Inv, GrayReach, ListsOk, Working;
      EnterWorks(graph, Snap(), v);
      indices := indices[v := index];
      lowLinks := lowLinks[v := index];
      index := index + 1;
      stack := stack + [v];
      stackSet := stackSet + {v};
      gray := gray + {v};
    }

    /** Goes through the calls of v in any order. */
    method VisitAll(v: Func, ghost s0: Snapshot)
      requires TablesOk() && v in lowLinks && v in graph && Working(graph, s0, Snap(), v, {}, lowLinks[v])
      modifies this
      ensures TablesOk() && v in lowLinks && Working(graph, s0, Snap(), v, graph[v], lowLinks[v])
      ensures forall x :: x in old(lowLinks) && x != v ==> x in lowLinks && lowLinks[x] == old(lowLinks[x])
      decreases |graph.Keys - indices.Keys|, 3
    {
      hide Inv, GrayReach, ListsOk, Working;
      var todo := graph[v];
      NoneDone(graph[v]);
      while todo != {}
        invariant todo <= graph[v] && TablesOk() && v in lowLinks && old(indices.Keys) <= indices.Keys
        invariant Working(graph, s0, Snap(), v, graph[v] - todo, lowLinks[v])
        invariant forall x :: x in old(lowLinks) && x != v ==> x in lowLinks && lowLinks[x] == old(lowLinks[x])
        decreases |todo|
      {
        var w :| w in todo;
        FewerLeft(graph.Keys, old(indices.Keys), indices.Keys);
        Visit(v, w, graph[v] - todo, s0);
        OneDone(graph[v], todo, w);
        todo := todo - {w};
      }
      NoneDone(graph[v]);
    }

    /** Visits v and everything not visited before that it leads to. */
    method StrongConnect(v: Func)
      requires Inv(graph, Snap()) && TablesOk() && v in graph && v !in indices && GrayReach(graph, gray, v)
      modifies this
      ensures TablesOk() && v in lowLinks && Searched(graph, old(Snap()), Snap(), v, lowLinks[v])
      ensures forall x :: x in old(lowLinks) ==> x in lowLinks && lowLinks[x] == old(lowLinks[x])
      decreases |graph.Keys - indices.Keys|, 1
    {
      hide Inv, GrayReach, ListsOk, Working, Searched;
      Push(v);
      Shrinks(graph.Keys, old(indices.Keys), indices.Keys, v);
      VisitAll(v, old(Snap()));
      Leave(v, old(Snap()));
    }
  }

  lemma NoneDone(all: set<Func>)
    ensures all - all == {} && all - {} == all
  {
  }

  lemma FewerLeft(all: set<Func>, was: set<Func>, now: set<Func>)
    requires was <= now
    ensures |all - now| <= |all - was|
  {
    if all - now != all - was {
      assert all - now <= all - was;
      SmallerSet(all - now, all - was);
    }
  }

  lemma PopSetsGray(s: Snapshot, gray0: set<Func>, a: nat)
    requires a <= |s.stack|
    ensures Pop(s.(gray := gray0), gray0, a) == Pop(s, gray0, a)
  {
  }

  lemma OneDone(all: set<Func>, todo: set<Func>, w: Func)
    requires w in todo && todo <= all
    ensures all - todo + {w} == all - (todo - {w})
  {
  }

  lemma Shrinks(all: set<Func>, was: set<Func>, now: set<Func>, v: Func)
    requires was <= now && v in all && v !in was && v in now
    ensures |all - now| < |all - was|
  {
    assert all - now < all - was;
    SmallerSet(all - now, all - was);
  }

  lemma {:induction false} SmallerSet(a: set<Func>, b: set<Func>)
    requires a < b
    ensures |a| < |b|
  {
    var x :| x in b && x !in a;
    if a != {} {
      var y :| y in a;
      assert x in b - {y} && x !in a - {y};
      SmallerSet(a - {y}, b - {y});
    }
  }

  lemma WorkingBasics(g: Graph, s0: Snapshot, s: Snapshot, v: Func, done: set<Func>, low: nat)
    requires Working(g, s0, s, v, done, low)
    ensures Inv(g, s) && WellFormed(g) && v in s.indices && low <= s.indices[v] && s.indices.Keys <= g.Keys
    ensures forall x :: x in s0.indices ==> x in s.indices
  {
    hide StackReaches, ReachGray, Components, NoneSkipped, Ordered, GrayReach, Witness, BoundsAbove, Bounds;
  }

  lemma StackDistinct(g: Graph, s: Snapshot)
    requires Inv(g, s)
    ensures Distinct(s.stack) && s.count >= 1 && forall x :: x in s.stack ==> x !in s.sccs
    ensures ElementsOf(s.stack) <= s.indices.Keys
  {
    hide StackReaches, ReachGray, Components, NoneSkipped;
  }

  ghost predicate Distinct(s: seq<Func>) { forall i, j :: 0 <= i < j < |s| ==> s[i] != s[j] }

  function Numbered(base: map<Func, nat>, popped: set<Func>, scc: nat): map<Func, nat> {
    map x | x in base.Keys + popped :: if x in base then base[x] else scc
  }

  /** The list of component scc holds what was popped, the top first. */
  ghost predicate Listed(full: seq<Func>, n: nat, lists: map<nat, seq<Func>>, scc: nat, sccToFuncs: map<nat, seq<Func>>)
    requires n <= |full|
  {
    if n == |full| then sccToFuncs == lists
    else
      && scc in sccToFuncs && sccToFuncs == lists[scc := sccToFuncs[scc]]
      && |sccToFuncs[scc]| == |full| - n
      && forall k :: 0 <= k < |full| - n ==> sccToFuncs[scc][k] == full[|full| - 1 - k]
  }

  /** The functions from position n on have been popped into component scc. */
  ghost predicate Popped(full: seq<Func>, n: nat, base: map<Func, nat>, lists: map<nat, seq<Func>>, scc: nat,
                         funcToSCCs: map<Func, nat>, sccToFuncs: map<nat, seq<Func>>)
    requires n <= |full|
  {
    funcToSCCs == Numbered(base, ElementsOf(full[n..]), scc) && Listed(full, n, lists, scc, sccToFuncs)
  }

  lemma PopStarts(full: seq<Func>, base: map<Func, nat>, lists: map<nat, seq<Func>>, scc: nat)
    requires ListsOk(scc, base, lists)
    ensures scc !in lists
    ensures Popped(full, |full|, base, lists, scc, base, lists)
  {
  }

  lemma PopOne(full: seq<Func>, i: nat, v: Func, a: nat)
    requires Distinct(full) && a < |full| && full[a] == v && a <= i < |full|
    ensures full[..i + 1][..i] == full[..i] && full[..i + 1][i] == full[i]
    ensures ElementsOf(full[..i + 1]) - {full[i]} == ElementsOf(full[..i])
    ensures full[i] == v <==> i == a
  {
    assert full[..i + 1] == full[..i] + [full[i]];
  }

  lemma PopLists(full: seq<Func>, i: nat, base: map<Func, nat>, lists: map<nat, seq<Func>>, scc: nat,
                 funcToSCCs: map<Func, nat>, sccToFuncs: map<nat, seq<Func>>)
    requires i < |full| && Popped(full, i + 1, base, lists, scc, funcToSCCs, sccToFuncs)
    requires scc !in lists && full[i] !in base
    ensures Popped(full, i, base, lists, scc, funcToSCCs[full[i] := scc],
                   sccToFuncs[scc := (if scc in sccToFuncs then sccToFuncs[scc] else []) + [full[i]]])
  {
    PopNumber(full, i, base, scc);
    PopList(full, i, lists, scc, sccToFuncs);
  }

  lemma PopNumber(full: seq<Func>, i: nat, base: map<Func, nat>, scc: nat)
    requires i < |full| && full[i] !in base
    ensures Numbered(base, ElementsOf(full[i..]), scc) == Numbered(base, ElementsOf(full[i + 1..]), scc)[full[i] := scc]
  {
    assert full[i..] == [full[i]] + full[i + 1..];
    assert ElementsOf(full[i..]) == ElementsOf(full[i + 1..]) + {full[i]};
    hide ElementsOf;
  }

  lemma PopList(full: seq<Func>, i: nat, lists: map<nat, seq<Func>>, scc: nat, sccToFuncs: map<nat, seq<Func>>)
    requires i < |full| && scc !in lists && Listed(full, i + 1, lists, scc, sccToFuncs)
    ensures Listed(full, i, lists, scc,
                   sccToFuncs[scc := (if scc in sccToFuncs then sccToFuncs[scc] else []) + [full[i]]])
  {
  }

  lemma PopEnds(full: seq<Func>, a: nat, base: map<Func, nat>, lists: map<nat, seq<Func>>, scc: nat,
                funcToSCCs: map<Func, nat>, sccToFuncs: map<nat, seq<Func>>)
    requires a < |full| && Distinct(full) && Popped(full, a, base, lists, scc, funcToSCCs, sccToFuncs)
    requires scc >= 1 && ListsOk(scc, base, lists) && forall x :: x in full ==> x !in base
    ensures ListsOk(scc + 1, funcToSCCs, sccToFuncs)
    ensures funcToSCCs == map x | x in base.Keys + (set y | y in full[a..]) :: if x in base then base[x] else scc
  {
    hide Distinct, Listed, ListsOk, Numbered;
    assert forall x :: x in full[a..] ==> x in full;
    TopList(full, a, lists, scc, sccToFuncs);
    ListsGrow(base, lists, scc, ElementsOf(full[a..]), sccToFuncs[scc]);
    NumberedIs(base, full[a..], scc);
  }

  lemma NumberedIs(base: map<Func, nat>, top: seq<Func>, scc: nat)
    ensures Numbered(base, ElementsOf(top), scc)
            == map x | x in base.Keys + (set y | y in top) :: if x in base then base[x] else scc
  {
    assert ElementsOf(top) == set y | y in top;
  }

  lemma ListsGrow(base: map<Func, nat>, lists: map<nat, seq<Func>>, scc: nat, top: set<Func>, members: seq<Func>)
    requires scc >= 1 && ListsOk(scc, base, lists) && members != []
    requires (forall x :: x in top ==> x !in base) && forall x :: x in members <==> x in top
    requires forall i, j :: 0 <= i < j < |members| ==> members[i] != members[j]
    ensures ListsOk(scc + 1, Numbered(base, top, scc), lists[scc := members])
  {
  }

  lemma TopList(full: seq<Func>, a: nat, lists: map<nat, seq<Func>>, scc: nat, sccToFuncs: map<nat, seq<Func>>)
    requires a < |full| && Distinct(full) && Listed(full, a, lists, scc, sccToFuncs)
    ensures scc in sccToFuncs && sccToFuncs == lists[scc := sccToFuncs[scc]] && sccToFuncs[scc] != []
    ensures forall x :: x in sccToFuncs[scc] <==> x in full[a..]
    ensures forall i, j :: 0 <= i < j < |sccToFuncs[scc]| ==> sccToFuncs[scc][i] != sccToFuncs[scc][j]
  {
    forall x | x in full[a..] ensures x in sccToFuncs[scc] {
      var k :| a <= k < |full| && full[k] == x;
      assert sccToFuncs[scc][|full| - 1 - k] == x;
    }
  }
}
