/** Which functions can panic: one pass over the components, callees first. */
module PanicAnalysis {
  import opened FuncGraphs
  import opened CallGraphs

  /** Some function that f leads to contains a panic. */
  ghost predicate MayPanic(g: Graph, internal: set<Func>, f: Func) {
    exists h :: h in internal && Reach(g, f, h)
  }

  lemma CallerMayPanic(g: Graph, internal: set<Func>, f: Func, y: Func)
    requires Reach(g, f, y) && MayPanic(g, internal, y)
    ensures MayPanic(g, internal, f)
  {
    var h :| h in internal && Reach(g, y, h);
    ReachTrans(g, f, y, h);
  }

  lemma InternalMayPanic(g: Graph, internal: set<Func>, f: Func)
    requires f in g && f in internal
    ensures MayPanic(g, internal, f)
  {
    ReachSelf(g, f);
  }

  /** A panic that f leads to is in f's component or behind a call that leaves it. */
  ghost predicate Exit(g: Graph, internal: set<Func>, scc: map<Func, nat>, n: nat, x: Func) {
    && x in g && x in scc && scc[x] == n
    && (x in internal || exists y :: y in g[x] && y in scc && scc[y] < n && MayPanic(g, internal, y))
  }

  lemma {:induction false} LeavesOnPath(g: Graph, internal: set<Func>, scc: map<Func, nat>, p: seq<Func>)
    requires WellFormed(g) && scc.Keys == g.Keys && IsPath(g, p) && p[|p| - 1] in internal
    requires forall x, y :: x in g && y in g[x] && y in g && scc[x] != scc[y] ==> scc[x] > scc[y]
    ensures exists x :: Exit(g, internal, scc, scc[p[0]], x)
  {
    var f := p[0];
    if |p| == 1 {
      assert Exit(g, internal, scc, scc[f], f);
    } else {
      var q := p[1..];
      assert p[0 + 1] in g[p[0]];
      assert IsPath(g, q) by {
        forall i | 0 <= i < |q| - 1 ensures q[i + 1] in g[q[i]] {
          assert p[i + 1 + 1] in g[p[i + 1]];
        }
      }
      if scc[q[0]] == scc[f] {
        LeavesOnPath(g, internal, scc, q);
      } else {
        assert q[0] in g && q[|q| - 1] == p[|p| - 1];
        assert Reach(g, q[0], p[|p| - 1]);
        assert MayPanic(g, internal, q[0]);
        assert Exit(g, internal, scc, scc[f], f);
      }
    }
  }

  lemma Leaves(g: Graph, internal: set<Func>, count: nat, scc: map<Func, nat>, lists: map<nat, seq<Func>>, f: Func)
    requires WellFormed(g) && SccsCorrect(g, count, scc, lists) && f in g && MayPanic(g, internal, f)
    ensures exists x :: Exit(g, internal, scc, scc[f], x)
  {
    var h :| h in internal && Reach(g, f, h);
    var p :| IsPath(g, p) && p[0] == f && p[|p| - 1] == h;
    LeavesOnPath(g, internal, scc, p);
  }

  // ---------- The flags while the pass runs ----------

  ghost predicate Says(internal: set<Func>, ext: map<Func, bool>, f: Func) { f in internal || Flag(ext, f) }

  /** Set flags are right, and those of components below n are complete. */
  ghost predicate FlagsOk(g: Graph, internal: set<Func>, scc: map<Func, nat>, n: nat, ext: map<Func, bool>) {
    && (forall f :: f in g && Says(internal, ext, f) ==> MayPanic(g, internal, f))
    && (forall f :: f in g && f in scc && scc[f] < n && MayPanic(g, internal, f) ==> Says(internal, ext, f))
  }

  /** The functions of component n up to position k have a flag if they call a lower function that may
      panic; any tells whether some of them can. */
  ghost predicate PartDone(g: Graph, internal: set<Func>, scc: map<Func, nat>, n: nat, list: seq<Func>, k: nat,
                           ext: map<Func, bool>, any: bool)
    requires k <= |list|
  {
    && (forall j :: 0 <= j < k ==> list[j] in g && (Exit(g, internal, scc, n, list[j]) ==> any))
    && (forall j :: 0 <= j < k && Exit(g, internal, scc, n, list[j]) ==> Says(internal, ext, list[j]))
    && (any ==> exists j :: 0 <= j < k && Says(internal, ext, list[j]))
  }

  method CallsPanic(g: Graph, internal: map<Func, bool>, ext: map<Func, bool>, caller: Func) returns (found: bool)
    requires caller in g
    ensures found <==> exists y :: y in g[caller] && (Flag(internal, y) || Flag(ext, y))
  {
    var todo := g[caller];
    while todo != {}
      invariant todo <= g[caller]
      invariant forall y :: y in g[caller] && y !in todo ==> !(Flag(internal, y) || Flag(ext, y))
      decreases |todo|
    {
      var y :| y in todo;
      if Flag(internal, y) || Flag(ext, y) {
        return true;
      }
      todo := todo - {y};
    }
    return false;
  }

  lemma FlagSetOk(g: Graph, internal: set<Func>, scc: map<Func, nat>, n: nat, f: Func, ext: map<Func, bool>, found: bool)
    requires WellFormed(g) && FlagsOk(g, internal, scc, n, ext) && f in g && f in scc && scc[f] == n
    requires found <==> exists y :: y in g[f] && Says(internal, ext, y)
    ensures FlagsOk(g, internal, scc, n, ext[f := found])
  {
    var ext1 := ext[f := found];
    if found {
      var y :| y in g[f] && Says(internal, ext, y);
      assert y in g;
      ReachEdge(g, f, y);
      CallerMayPanic(g, internal, f, y);
    }
    if f in internal {
      InternalMayPanic(g, internal, f);
    }
    hide MayPanic, Reach;
    forall x | x in g && Says(internal, ext1, x) ensures MayPanic(g, internal, x) {
      assert x != f ==> Says(internal, ext, x);
    }
    forall x | x in g && x in scc && scc[x] < n && MayPanic(g, internal, x) ensures Says(internal, ext1, x) {
      assert Says(internal, ext, x);
    }
  }

  lemma FlagSet(g: Graph, internal: set<Func>, scc: map<Func, nat>, n: nat, list: seq<Func>, k: nat,
                ext: map<Func, bool>, any: bool, found: bool)
    requires k < |list| && list[k] in g && list[k] in scc && scc[list[k]] == n
    requires WellFormed(g) && FlagsOk(g, internal, scc, n, ext) && PartDone(g, internal, scc, n, list, k, ext, any)
    requires forall j :: 0 <= j < k ==> list[j] != list[k]
    requires found <==> exists y :: y in g[list[k]] && Says(internal, ext, y)
    ensures var ext1 := ext[list[k] := found];
            PartDone(g, internal, scc, n, list, k + 1, ext1, any || Says(internal, ext1, list[k]))
  {
    hide MayPanic;
    var f, ext1 := list[k], ext[list[k] := found];
    assert Exit(g, internal, scc, n, f) ==> Says(internal, ext1, f) by {
      if Exit(g, internal, scc, n, f) && f !in internal {
        var y :| y in g[f] && y in scc && scc[y] < n && MayPanic(g, internal, y);
        assert y in g && Says(internal, ext, y);
      }
    }
    hide Exit, FlagsOk;
    assert forall x :: x != f ==> (Says(internal, ext1, x) <==> Says(internal, ext, x));
    if any {
      var j :| 0 <= j < k && Says(internal, ext, list[j]);
      assert Says(internal, ext1, list[j]);
    }
  }

  /** The whole component can panic once one of its functions can. */
  lemma ComponentDone(g: Graph, internal: set<Func>, count: nat, scc: map<Func, nat>, lists: map<nat, seq<Func>>,
                      n: nat, ext: map<Func, bool>, any: bool, ext1: map<Func, bool>)
    requires WellFormed(g) && SccsCorrect(g, count, scc, lists) && n in lists
    requires FlagsOk(g, internal, scc, n, ext) && PartDone(g, internal, scc, n, lists[n], |lists[n]|, ext, any)
    requires forall f :: f !in lists[n] ==> (Flag(ext1, f) <==> Flag(ext, f))
    requires forall f :: f in lists[n] ==> (Flag(ext1, f) <==> if |lists[n]| > 1 && any then true else Flag(ext, f))
    ensures FlagsOk(g, internal, scc, n + 1, ext1)
  {
    hide MayPanic, Reach;
    forall f | f in g && f in lists[n] ensures Says(internal, ext1, f) <==> MayPanic(g, internal, f) {
      OneDone(g, internal, count, scc, lists, n, ext, any, f);
    }
    forall f | f in g && Says(internal, ext1, f) ensures MayPanic(g, internal, f) {
      if f !in lists[n] {
        assert Says(internal, ext, f);
      }
    }
    forall f | f in g && f in scc && scc[f] < n + 1 && MayPanic(g, internal, f) ensures Says(internal, ext1, f) {
      if f !in lists[n] {
        assert scc[f] < n && Says(internal, ext, f);
      }
    }
  }

  lemma OneDone(g: Graph, internal: set<Func>, count: nat, scc: map<Func, nat>, lists: map<nat, seq<Func>>,
                n: nat, ext: map<Func, bool>, any: bool, f: Func)
    requires WellFormed(g) && SccsCorrect(g, count, scc, lists) && n in lists
    requires FlagsOk(g, internal, scc, n, ext) && PartDone(g, internal, scc, n, lists[n], |lists[n]|, ext, any)
    requires f in lists[n]
    ensures f in g && (MayPanic(g, internal, f) <==> f in internal || (if |lists[n]| > 1 && any then true else Flag(ext, f)))
  {
    var list := lists[n];
    assert f in g && scc[f] == n;
    if MayPanic(g, internal, f) {
      Leaves(g, internal, count, scc, lists, f);
      var x :| Exit(g, internal, scc, n, x);
      assert x in list;
      var j :| 0 <= j < |list| && list[j] == x;
      if |list| == 1 {
        assert list[0] == f;
      }
    }
    if any && |list| > 1 {
      var j :| 0 <= j < |list| && Says(internal, ext, list[j]);
      assert list[j] in list;
      CallerMayPanic(g, internal, f, list[j]);
    }
  }

  /** Sets the flags for panics in a function's own body. */
  method SetInternal(fcg: FuncCallGraph, internal: set<Func>)
    modifies fcg`canPanicInternally
    ensures fcg.canPanicInternally.Keys >= fcg.callerToCallees.Keys
    ensures forall f :: f in fcg.callerToCallees ==> (Flag(fcg.canPanicInternally, f) <==> f in internal)
  {
    var todo := fcg.callerToCallees.Keys;
    while todo != {}
      modifies fcg`canPanicInternally
      invariant todo <= fcg.callerToCallees.Keys
      invariant forall f :: f in fcg.callerToCallees && f !in todo ==>
                  f in fcg.canPanicInternally && (Flag(fcg.canPanicInternally, f) <==> f in internal)
      decreases |todo|
    {
      var f :| f in todo;
      fcg.canPanicInternally := fcg.canPanicInternally[f := f in internal];
      todo := todo - {f};
    }
  }

  /** The flag of one function for panics in functions that it calls. */
  method MarkCaller(fcg: FuncCallGraph, ghost internal: set<Func>, n: nat, k: nat, any0: bool) returns (any: bool)
    requires fcg.Valid() && fcg.sccsOk && n in fcg.sccToFuncs && k < |fcg.sccToFuncs[n]| && InternalSet(fcg, internal)
    requires FlagsOk(fcg.callerToCallees, internal, fcg.funcToSCCs, n, fcg.canPanicExternally)
    requires PartDone(fcg.callerToCallees, internal, fcg.funcToSCCs, n, fcg.sccToFuncs[n], k, fcg.canPanicExternally, any0)
    modifies fcg`canPanicExternally
    ensures FlagsOk(fcg.callerToCallees, internal, fcg.funcToSCCs, n, fcg.canPanicExternally)
    ensures PartDone(fcg.callerToCallees, internal, fcg.funcToSCCs, n, fcg.sccToFuncs[n], k + 1, fcg.canPanicExternally, any)
  {
    hide FuncCallGraph.Valid, FlagsOk, PartDone, InternalSet, SccsCorrect, WellFormed;
    var caller := fcg.sccToFuncs[n][k];
    ListOf(fcg, n);
    var canPanicExternally := CallsPanic(fcg.callerToCallees, fcg.canPanicInternally, fcg.canPanicExternally, caller);
    CallsSay(fcg, internal, caller);
    FlagSetOk(fcg.callerToCallees, internal, fcg.funcToSCCs, n, caller, fcg.canPanicExternally, canPanicExternally);
    FlagSet(fcg.callerToCallees, internal, fcg.funcToSCCs, n, fcg.sccToFuncs[n], k, fcg.canPanicExternally, any0,
            canPanicExternally);
    fcg.canPanicExternally := fcg.canPanicExternally[caller := canPanicExternally];
    SaysIsFlag(fcg, internal, caller);
    any := any0 || fcg.CanPanic(caller);
  }

  /** The flags of the functions of one component, in the order of its list. */
  method MarkCallers(fcg: FuncCallGraph, ghost internal: set<Func>, n: nat) returns (any: bool)
    requires fcg.Valid() && fcg.sccsOk && n in fcg.sccToFuncs && InternalSet(fcg, internal)
    requires FlagsOk(fcg.callerToCallees, internal, fcg.funcToSCCs, n, fcg.canPanicExternally)
    modifies fcg`canPanicExternally
    ensures FlagsOk(fcg.callerToCallees, internal, fcg.funcToSCCs, n, fcg.canPanicExternally)
    ensures PartDone(fcg.callerToCallees, internal, fcg.funcToSCCs, n, fcg.sccToFuncs[n], |fcg.sccToFuncs[n]|,
                     fcg.canPanicExternally, any)
  {
    hide FuncCallGraph.Valid, FlagsOk, PartDone, InternalSet, SccsCorrect, WellFormed;
    any := false;
    NothingDone(fcg.callerToCallees, internal, fcg.funcToSCCs, n, fcg.sccToFuncs[n], fcg.canPanicExternally);
    for k := 0 to |fcg.sccToFuncs[n]|
      modifies fcg`canPanicExternally
      invariant FlagsOk(fcg.callerToCallees, internal, fcg.funcToSCCs, n, fcg.canPanicExternally)
      invariant PartDone(fcg.callerToCallees, internal, fcg.funcToSCCs, n, fcg.sccToFuncs[n], k, fcg.canPanicExternally, any)
    {
      any := MarkCaller(fcg, internal, n, k, any);
    }
  }

  ghost predicate InternalSet(fcg: FuncCallGraph, internal: set<Func>)
    reads fcg`callerToCallees, fcg`canPanicInternally
  {
    forall f :: f in fcg.callerToCallees ==> (Flag(fcg.canPanicInternally, f) <==> f in internal)
  }

  lemma SaysIsFlag(fcg: FuncCallGraph, internal: set<Func>, f: Func)
    requires InternalSet(fcg, internal) && f in fcg.callerToCallees
    ensures fcg.CanPanic(f) <==> Says(internal, fcg.canPanicExternally, f)
  {
  }

  lemma CallsSay(fcg: FuncCallGraph, internal: set<Func>, f: Func)
    requires fcg.Valid() && InternalSet(fcg, internal) && f in fcg.callerToCallees
    ensures (exists y :: y in fcg.callerToCallees[f] && (Flag(fcg.canPanicInternally, y) || Flag(fcg.canPanicExternally, y)))
            <==> (exists y :: y in fcg.callerToCallees[f] && Says(internal, fcg.canPanicExternally, y))
  {
    assert fcg.callerToCallees[f] <= fcg.callerToCallees.Keys;
  }

  lemma ListOf(fcg: FuncCallGraph, n: nat)
    requires fcg.Valid() && fcg.sccsOk && n in fcg.sccToFuncs
    ensures WellFormed(fcg.callerToCallees)
    ensures SccsCorrect(fcg.callerToCallees, fcg.sccCount, fcg.funcToSCCs, fcg.sccToFuncs)
    ensures forall k :: 0 <= k < |fcg.sccToFuncs[n]| ==>
              fcg.sccToFuncs[n][k] in fcg.callerToCallees && fcg.sccToFuncs[n][k] in fcg.funcToSCCs
              && fcg.funcToSCCs[fcg.sccToFuncs[n][k]] == n
    ensures forall i, j :: 0 <= i < j < |fcg.sccToFuncs[n]| ==> fcg.sccToFuncs[n][i] != fcg.sccToFuncs[n][j]
  {
  }

  lemma NothingDone(g: Graph, internal: set<Func>, scc: map<Func, nat>, n: nat, list: seq<Func>, ext: map<Func, bool>)
    ensures PartDone(g, internal, scc, n, list, 0, ext, false)
  {
  }

  method MarkAll(fcg: FuncCallGraph, funcs: seq<Func>)
    modifies fcg`canPanicExternally
    ensures forall f :: Flag(fcg.canPanicExternally, f) <==> Flag(old(fcg.canPanicExternally), f) || f in funcs
  {
    for k := 0 to |funcs|
      modifies fcg`canPanicExternally
      invariant forall f :: Flag(fcg.canPanicExternally, f) <==> Flag(old(fcg.canPanicExternally), f) || f in funcs[..k]
    {
      assert funcs[..k + 1] == funcs[..k] + [funcs[k]];
      fcg.canPanicExternally := fcg.canPanicExternally[funcs[k] := true];
    }
    assert funcs[..|funcs|] == funcs;
  }

  /** Once one function of a component can panic, all of them can. */
  method MarkComponent(fcg: FuncCallGraph, ghost internal: set<Func>, n: nat)
    requires fcg.Valid() && fcg.sccsOk && n in fcg.sccToFuncs
    requires InternalSet(fcg, internal) && FlagsOk(fcg.callerToCallees, internal, fcg.funcToSCCs, n, fcg.canPanicExternally)
    modifies fcg`canPanicExternally
    ensures FlagsOk(fcg.callerToCallees, internal, fcg.funcToSCCs, n + 1, fcg.canPanicExternally)
  {
    hide FuncCallGraph.Valid, FlagsOk, PartDone, InternalSet, SccsCorrect, WellFormed;
    var sccFuncs := fcg.sccToFuncs[n];
    ListOf(fcg, n);
    var canPanicInSCC := MarkCallers(fcg, internal, n);
    ghost var ext := fcg.canPanicExternally;
    if |sccFuncs| > 1 && canPanicInSCC {
      MarkAll(fcg, sccFuncs);
    }
    ComponentDone(fcg.callerToCallees, internal, fcg.sccCount, fcg.funcToSCCs, fcg.sccToFuncs, n, ext, canPanicInSCC,
                  fcg.canPanicExternally);
  }

  /** A function can panic exactly if a function that it leads to, or itself, contains a panic. */
  method AnalyzePanics(fcg: FuncCallGraph, internal: set<Func>)
    requires fcg.Valid() && fcg.canPanicExternally == map[]
    modifies fcg
    ensures fcg.Valid() && fcg.callerToCallees == old(fcg.callerToCallees)
    ensures forall f :: f in fcg.callerToCallees ==> (fcg.CanPanic(f) <==> MayPanic(fcg.callerToCallees, internal, f))
  {
    hide FuncCallGraph.Valid, FlagsOk, MayPanic;
    SetInternal(fcg, internal);
    fcg.UpdateSCCs();
    AllInternal(fcg, internal);
    for n := 1 to fcg.sccCount
      modifies fcg`canPanicExternally
      invariant FlagsOk(fcg.callerToCallees, internal, fcg.funcToSCCs, n, fcg.canPanicExternally)
    {
      HasList(fcg, n);
      MarkComponent(fcg, internal, n);
    }
    AllDone(fcg, internal);
  }

  lemma AllInternal(fcg: FuncCallGraph, internal: set<Func>)
    requires fcg.Valid() && fcg.sccsOk && fcg.canPanicExternally == map[]
    ensures fcg.sccCount >= 1
    ensures FlagsOk(fcg.callerToCallees, internal, fcg.funcToSCCs, 1, fcg.canPanicExternally)
  {
    forall f | f in fcg.callerToCallees && f in internal ensures MayPanic(fcg.callerToCallees, internal, f) {
      InternalMayPanic(fcg.callerToCallees, internal, f);
    }
  }

  lemma HasList(fcg: FuncCallGraph, n: nat)
    requires fcg.Valid() && fcg.sccsOk && 1 <= n < fcg.sccCount
    ensures n in fcg.sccToFuncs
  {
  }

  lemma AllDone(fcg: FuncCallGraph, internal: set<Func>)
    requires fcg.Valid() && fcg.sccsOk && InternalSet(fcg, internal)
    requires FlagsOk(fcg.callerToCallees, internal, fcg.funcToSCCs, fcg.sccCount, fcg.canPanicExternally)
    ensures forall f :: f in fcg.callerToCallees ==> (fcg.CanPanic(f) <==> MayPanic(fcg.callerToCallees, internal, f))
  {
    hide MayPanic;
    forall f | f in fcg.callerToCallees ensures fcg.CanPanic(f) <==> MayPanic(fcg.callerToCallees, internal, f) {
      assert fcg.funcToSCCs[f] < fcg.sccCount;
      SaysIsFlag(fcg, internal, f);
    }
  }
}
