/** The call graph of a program: static and dynamic calls, strongly connected components. */
module CallGraphs {
  import opened FuncGraphs
  import opened SccInvariant
  import opened SccSearches

  /** The type of a function value, up to identity of types. */
  datatype Signature = Signature(id: nat)

  /** An operation that is counted: a special operation or the allocation of a type. */
  datatype Op = Op(id: nat)

  /** Entries that are missing from a table of flags are not set. */
  predicate Flag(m: map<Func, bool>, f: Func) { f in m && m[f] }

  /** The functions that call values of a signature, and those that are such values. */
  datatype DynamicCallInfo = DynamicCallInfo(signature: Signature, callers: set<Func>, callees: set<Func>)

  /** Components are numbered from 1; functions share a number exactly if each reaches the other; calls
      between components lead from a higher to a lower number. */
  ghost predicate SccsCorrect(g: Graph, count: nat, funcToSCCs: map<Func, nat>, sccToFuncs: map<nat, seq<Func>>) {
    && funcToSCCs.Keys == g.Keys && count >= 1 && ListsOk(count, funcToSCCs, sccToFuncs)
    && (forall x, y :: x in g && y in g ==> (funcToSCCs[x] == funcToSCCs[y] <==> Reach(g, x, y) && Reach(g, y, x)))
    && (forall x, y :: x in g && y in g[x] && y in g && funcToSCCs[x] != funcToSCCs[y] ==> funcToSCCs[x] > funcToSCCs[y])
  }

  /** The two tables hold the same calls, one by caller and the other by callee. */
  ghost predicate Opposite(g: Graph, h: Graph) {
    && h.Keys == g.Keys && WellFormed(g) && WellFormed(h)
    && forall a, b :: a in g && b in g ==> (b in g[a] <==> a in h[b])
  }

  lemma OppositeWithCall(g: Graph, h: Graph, infos: seq<DynamicCallInfo>, a: Func, b: Func)
    requires Opposite(g, h) && DynamicOk(infos, g) && a in g && b in g
    ensures Opposite(g[a := g[a] + {b}], h[b := h[b] + {a}]) && DynamicOk(infos, g[a := g[a] + {b}])
  {
    assert g[a := g[a] + {b}].Keys == g.Keys && h[b := h[b] + {a}].Keys == h.Keys;
  }

  class FuncCallGraph {
    var callerToCallees: Graph
    var calleeToCallers: Graph
    var dynamicCallInfos: seq<DynamicCallInfo>
    var sccsOk: bool
    var sccCount: nat
    var funcToSCCs: map<Func, nat>
    var sccToFuncs: map<nat, seq<Func>>
    var canPanicInternally: map<Func, bool>
    var canPanicExternally: map<Func, bool>
    var isCalleeCounts: map<Func, nat>
    var totalOpCounts: map<Op, nat>

    /** The two tables hold the same calls between known functions. */
    ghost predicate TablesAgree()
      reads `callerToCallees, `calleeToCallers
    {
      Opposite(callerToCallees, calleeToCallers)
    }

    ghost predicate Valid()
      reads `callerToCallees, `calleeToCallers, `dynamicCallInfos, `sccsOk, `sccCount, `funcToSCCs, `sccToFuncs
    {
      && TablesAgree() && DynamicOk(dynamicCallInfos, callerToCallees)
      && (sccsOk ==> SccsCorrect(callerToCallees, sccCount, funcToSCCs, sccToFuncs))
    }

    lemma KeysOfBoth()
      requires TablesAgree()
      ensures callerToCallees.Keys == calleeToCallers.Keys
    {
    }

    constructor ()
      ensures Valid() && callerToCallees == map[] && dynamicCallInfos == []
    {
      callerToCallees, calleeToCallers, dynamicCallInfos := map[], map[], [];
      sccsOk, sccCount, funcToSCCs, sccToFuncs := false, 0, map[], map[];
      canPanicInternally, canPanicExternally, isCalleeCounts, totalOpCounts := map[], map[], map[], map[];
    }

    predicate CanPanic(f: Func)
      reads this
    {
      Flag(canPanicInternally, f) || Flag(canPanicExternally, f)
    }

    method AddFunc(f: Func)
      requires Valid()
      modifies this
      ensures Valid() && dynamicCallInfos == old(dynamicCallInfos)
      ensures callerToCallees == (if f in old(callerToCallees) then old(callerToCallees) else old(callerToCallees)[f := {}])
    {
      if f in callerToCallees {
        return;
      }
      callerToCallees := callerToCallees[f := {}];
      calleeToCallers := calleeToCallers[f := {}];
      sccsOk := false;
    }

    method AddStaticCall(caller: Func, callee: Func)
      requires Valid() && caller in callerToCallees && callee in callerToCallees
      modifies this
      ensures Valid() && !sccsOk && dynamicCallInfos == old(dynamicCallInfos)
      ensures callerToCallees == old(callerToCallees)[caller := old(callerToCallees)[caller] + {callee}]
    {
      hide Opposite, DynamicOk, SccsCorrect;
      OppositeWithCall(callerToCallees, calleeToCallers, dynamicCallInfos, caller, callee);
      KeysOfBoth();
      callerToCallees := callerToCallees[caller := callerToCallees[caller] + {callee}];
      calleeToCallers := calleeToCallers[callee := calleeToCallers[callee] + {caller}];
      sccsOk := false;
    }

    /** The position of the information about a signature, or the length of the list. */
    method DynamicCallInfoForSignature(signature: Signature) returns (i: nat)
      requires UniqueSignatures(dynamicCallInfos)
      ensures i <= |dynamicCallInfos|
      ensures forall j :: 0 <= j < |dynamicCallInfos| ==> (dynamicCallInfos[j].signature == signature <==> j == i)
    {
      for k := 0 to |dynamicCallInfos|
        invariant forall j :: 0 <= j < k ==> dynamicCallInfos[j].signature != signature
      {
        if dynamicCallInfos[k].signature == signature {
          return k;
        }
      }
      return |dynamicCallInfos|;
    }

    /** Records that caller calls values of the signature; it gets a call to all their functions so far. */
    method AddDynamicCaller(caller: Func, signature: Signature)
      requires Valid() && caller in callerToCallees
      modifies this
      ensures Valid()
      ensures callerToCallees == AllCalls(old(callerToCallees), {caller}, CalleesOf(old(dynamicCallInfos), signature))
      ensures forall s :: CallersOf(dynamicCallInfos, s)
                          == CallersOf(old(dynamicCallInfos), s) + (if s == signature then {caller} else {})
      ensures forall s :: CalleesOf(dynamicCallInfos, s) == CalleesOf(old(dynamicCallInfos), s)
    {
      hide TablesAgree, SccsCorrect, CallersOf, CalleesOf, AllCalls;
      var i := DynamicCallInfoForSignature(signature);
      if i == |dynamicCallInfos| {
        NoInfo(dynamicCallInfos, signature);
        CallsPresent(callerToCallees, {caller}, {});
        AppendInfo(DynamicCallInfo(signature, {caller}, {}));
      } else {
        var info := dynamicCallInfos[i];
        InfoAt(dynamicCallInfos, i);
        if caller in info.callers {
          CallsPresent(callerToCallees, {caller}, info.callees);
          return;
        }
        AddCalls({caller}, info.callees);
        CallsThere(old(callerToCallees), {caller}, info.callees);
        ReplaceInfo(i, info.(callers := info.callers + {caller}));
      }
    }

    /** Records that callee is a value of its signature; all dynamic callers so far get a call to it. */
    method AddDynamicCallee(callee: Func, signature: Signature)
      requires Valid() && callee in callerToCallees
      modifies this
      ensures Valid()
      ensures callerToCallees == AllCalls(old(callerToCallees), CallersOf(old(dynamicCallInfos), signature), {callee})
      ensures forall s :: CalleesOf(dynamicCallInfos, s)
                          == CalleesOf(old(dynamicCallInfos), s) + (if s == signature then {callee} else {})
      ensures forall s :: CallersOf(dynamicCallInfos, s) == CallersOf(old(dynamicCallInfos), s)
    {
      hide TablesAgree, SccsCorrect, CallersOf, CalleesOf, AllCalls;
      var i := DynamicCallInfoForSignature(signature);
      if i == |dynamicCallInfos| {
        NoInfo(dynamicCallInfos, signature);
        CallsPresent(callerToCallees, {}, {callee});
        AppendInfo(DynamicCallInfo(signature, {}, {callee}));
      } else {
        var info := dynamicCallInfos[i];
        InfoAt(dynamicCallInfos, i);
        if callee in info.callees {
          CallsPresent(callerToCallees, info.callers, {callee});
          return;
        }
        AddCalls(info.callers, {callee});
        CallsThere(old(callerToCallees), info.callers, {callee});
        ReplaceInfo(i, info.(callees := info.callees + {callee}));
      }
    }

    /** Appends the information about a signature that has none. */
    method AppendInfo(info: DynamicCallInfo)
      requires Valid() && forall j :: 0 <= j < |dynamicCallInfos| ==> dynamicCallInfos[j].signature != info.signature
      requires info.callers <= callerToCallees.Keys && info.callees <= callerToCallees.Keys
      requires info.callers == {} || info.callees == {}
      modifies this
      ensures Valid() && callerToCallees == old(callerToCallees)
      ensures forall s :: CallersOf(dynamicCallInfos, s)
                          == CallersOf(old(dynamicCallInfos), s) + (if s == info.signature then info.callers else {})
      ensures forall s :: CalleesOf(dynamicCallInfos, s)
                          == CalleesOf(old(dynamicCallInfos), s) + (if s == info.signature then info.callees else {})
    {
      hide TablesAgree, SccsCorrect, CallersOf, CalleesOf;
      forall s
        ensures CallersOf(dynamicCallInfos + [info], s)
                == CallersOf(dynamicCallInfos, s) + (if s == info.signature then info.callers else {})
        ensures CalleesOf(dynamicCallInfos + [info], s)
                == CalleesOf(dynamicCallInfos, s) + (if s == info.signature then info.callees else {})
      {
        InfoAppended(dynamicCallInfos, info, s);
      }
      dynamicCallInfos := dynamicCallInfos + [info];
      sccsOk := false;
    }

    /** Replaces the information about a signature; the calls it asks for are there. */
    method ReplaceInfo(i: nat, info: DynamicCallInfo)
      requires Valid() && i < |dynamicCallInfos| && info.signature == dynamicCallInfos[i].signature
      requires info.callers <= callerToCallees.Keys && info.callees <= callerToCallees.Keys
      requires forall a :: a in info.callers && a in callerToCallees ==> info.callees <= callerToCallees[a]
      modifies this
      ensures Valid() && callerToCallees == old(callerToCallees)
      ensures forall s :: CallersOf(dynamicCallInfos, s)
                          == if s == info.signature then info.callers else CallersOf(old(dynamicCallInfos), s)
      ensures forall s :: CalleesOf(dynamicCallInfos, s)
                          == if s == info.signature then info.callees else CalleesOf(old(dynamicCallInfos), s)
    {
      hide TablesAgree, SccsCorrect, CallersOf, CalleesOf;
      forall s
        ensures CallersOf(dynamicCallInfos[i := info], s)
                == if s == info.signature then info.callers else CallersOf(dynamicCallInfos, s)
        ensures CalleesOf(dynamicCallInfos[i := info], s)
                == if s == info.signature then info.callees else CalleesOf(dynamicCallInfos, s)
      {
        InfoReplaced(dynamicCallInfos, i, info, s);
      }
      dynamicCallInfos := dynamicCallInfos[i := info];
      sccsOk := false;
    }

    /** Forgets all calls of a function, which is a value of one signature only, and its count. */
    method ZeroCalleeCounts(callee: Func, signature: Signature)
      requires Valid() && callee in callerToCallees
      requires forall s :: s != signature ==> callee !in CalleesOf(dynamicCallInfos, s)
      modifies this
      ensures Valid() && callerToCallees == WithoutCallee(old(callerToCallees), callee)
      ensures forall s :: CallersOf(dynamicCallInfos, s) == CallersOf(old(dynamicCallInfos), s)
      ensures forall s :: CalleesOf(dynamicCallInfos, s) == CalleesOf(old(dynamicCallInfos), s) - {callee}
      ensures isCalleeCounts == old(isCalleeCounts)[callee := 0] && totalOpCounts == old(totalOpCounts)
    {
      hide SccsCorrect, CallersOf, CalleesOf, DynamicOk, Opposite, WithoutCallee;
      var g := CallsWithout(callee);
      OppositeWithout(callerToCallees, calleeToCallers, callee);
      ForgetValue(dynamicCallInfos, callee, signature, g, callerToCallees);
      var i := DynamicCallInfoForSignature(signature);
      callerToCallees, calleeToCallers := g, calleeToCallers[callee := {}];
      if i < |dynamicCallInfos| {
        var info := dynamicCallInfos[i];
        dynamicCallInfos := dynamicCallInfos[i := info.(callees := info.callees - {callee})];
      }
      isCalleeCounts := isCalleeCounts[callee := 0];
      sccsOk := false;
    }

    /** The calls without those of one function. */
    method CallsWithout(callee: Func) returns (g: Graph)
      requires TablesAgree() && callee in callerToCallees
      ensures g == WithoutCallee(callerToCallees, callee)
    {
      var callers := calleeToCallers[callee];
      g := callerToCallees;
      while callers != {}
        invariant callers <= calleeToCallers[callee] && g.Keys == callerToCallees.Keys
        invariant forall f :: f in g ==>
                    g[f] == (if f in calleeToCallers[callee] - callers then callerToCallees[f] - {callee} else callerToCallees[f])
        decreases |callers|
      {
        var caller :| caller in callers;
        g := g[caller := g[caller] - {callee}];
        callers := callers - {caller};
      }
      forall f | f in g ensures g[f] == callerToCallees[f] - {callee} {
        assert f !in calleeToCallers[callee] ==> callee !in callerToCallees[f];
      }
    }

    /** Brings the components up to date with the calls. */
    method UpdateSCCs()
      requires Valid()
      modifies `sccsOk, `sccCount, `funcToSCCs, `sccToFuncs
      ensures Valid() && sccsOk
    {
      hide TablesAgree, DynamicOk, SccsCorrect, Inv, ListsOk, Searched, GrayReach;
      if sccsOk {
        return;
      }
      AgreeingTables();
      var search := new SccSearch(callerToCallees);
      var todo := callerToCallees.Keys;
      while todo != {}
        modifies search
        invariant Inv(callerToCallees, search.Snap()) && search.TablesOk() && search.gray == {} && todo <= callerToCallees.Keys
        invariant callerToCallees.Keys - todo <= search.indices.Keys
        decreases |todo|
      {
        var f :| f in todo;
        if f !in search.indices {
          NothingGray(callerToCallees, f);
          ghost var before := search.Snap();
          search.StrongConnect(f);
          SearchedFacts(callerToCallees, before, search.Snap(), f, search.lowLinks[f]);
        }
        todo := todo - {f};
      }
      AllNumbered(callerToCallees, search.Snap(), search.sccToFuncs);
      sccsOk, sccCount := true, search.sccCount;
      funcToSCCs, sccToFuncs := search.funcToSCCs, search.sccToFuncs;
    }

    lemma AgreeingTables()
      requires TablesAgree()
      ensures WellFormed(callerToCallees)
    {
    }

    /** Adds a call from a to each of callees, in any order. */
    method AddCallsFrom(a: Func, callees: set<Func>)
      requires Valid() && a in callerToCallees && callees <= callerToCallees.Keys
      modifies this
      ensures Valid() && dynamicCallInfos == old(dynamicCallInfos) && callerToCallees.Keys == old(callerToCallees).Keys
      ensures callerToCallees == AllCalls(old(callerToCallees), {a}, callees)
    {
      hide TablesAgree, DynamicOk, SccsCorrect, AllCalls;
      CallsPresent(callerToCallees, {a}, {});
      assert callees - callees == {};
      var bs := callees;
      while bs != {}
        invariant Valid() && bs <= callees && dynamicCallInfos == old(dynamicCallInfos)
        invariant callerToCallees.Keys == old(callerToCallees).Keys
        invariant callerToCallees == AllCalls(old(callerToCallees), {a}, callees - bs)
        decreases |bs|
      {
        var b :| b in bs;
        AddStaticCall(a, b);
        OneMoreCall(old(callerToCallees), a, callees - bs, b);
        assert callees - (bs - {b}) == (callees - bs) + {b};
        bs := bs - {b};
      }
      assert callees - bs == callees;
    }

    /** Adds a call from each of callers to each of callees, in any order. */
    method AddCalls(callers: set<Func>, callees: set<Func>)
      requires Valid() && callers <= callerToCallees.Keys && callees <= callerToCallees.Keys
      modifies this
      ensures Valid() && dynamicCallInfos == old(dynamicCallInfos) && callerToCallees.Keys == old(callerToCallees).Keys
      ensures callerToCallees == AllCalls(old(callerToCallees), callers, callees)
    {
      hide TablesAgree, DynamicOk, SccsCorrect, AllCalls;
      CallsPresent(callerToCallees, {}, callees);
      assert callers - callers == {};
      var froms := callers;
      while froms != {}
        invariant Valid() && froms <= callers && dynamicCallInfos == old(dynamicCallInfos)
        invariant callerToCallees.Keys == old(callerToCallees).Keys
        invariant callerToCallees == AllCalls(old(callerToCallees), callers - froms, callees)
        decreases |froms|
      {
        var a :| a in froms;
        AddCallsFrom(a, callees);
        MoreCallers(old(callerToCallees), callers, froms, a, callees);
        froms := froms - {a};
      }
      assert callers - froms == callers;
    }
  }

  lemma NothingGray(g: Graph, v: Func)
    ensures GrayReach(g, {}, v)
  {
  }

  lemma SearchedFacts(g: Graph, s0: Snapshot, s: Snapshot, v: Func, low: nat)
    requires Searched(g, s0, s, v, low)
    ensures Inv(g, s) && s.gray == s0.gray && s0.indices.Keys <= s.indices.Keys && v in s.indices
  {
    hide Inv, Witness, BoundsAbove;
  }

  /** When nothing is being worked on, nothing is left on the stack. */
  lemma StackEmpty(g: Graph, s: Snapshot)
    requires Inv(g, s) && s.gray == {}
    ensures s.stack == []
  {
    hide Reach, StackReaches, Components, NoneSkipped, Partition;
    assert forall y :: y in s.stack ==> y in s.indices;
    NonEmptyHas(s.stack);
  }

  lemma NonEmptyHas(s: seq<Func>)
    ensures s != [] ==> exists y :: y in s
  {
    if s != [] {
      assert s[0] in s;
    }
  }

  lemma AllNumbered(g: Graph, s: Snapshot, lists: map<nat, seq<Func>>)
    requires Inv(g, s) && s.gray == {} && g.Keys <= s.indices.Keys && ListsOk(s.count, s.sccs, lists)
    ensures SccsCorrect(g, s.count, s.sccs, lists)
  {
    StackEmpty(g, s);
    hide Reach, StackReaches, ReachGray, NoneSkipped, Ordered, ListsOk;
  }

  lemma OneMoreCall(g: Graph, a: Func, done: set<Func>, b: Func)
    requires a in g
    ensures var h := AllCalls(g, {a}, done); a in h && h[a := h[a] + {b}] == AllCalls(g, {a}, done + {b})
  {
    assert g[a] + done + {b} == g[a] + (done + {b});
  }

  lemma CallsThere(g: Graph, callers: set<Func>, callees: set<Func>)
    ensures AllCalls(g, callers, callees).Keys == g.Keys
    ensures forall a :: a in g ==> g[a] <= AllCalls(g, callers, callees)[a]
    ensures forall a :: a in callers && a in g ==> callees <= AllCalls(g, callers, callees)[a]
  {
  }

  lemma CallsPresent(g: Graph, callers: set<Func>, callees: set<Func>)
    requires forall a :: a in callers && a in g ==> callees <= g[a]
    ensures AllCalls(g, callers, callees) == g
  {
    assert forall a :: a in callers && a in g ==> g[a] + callees == g[a];
  }

  lemma MoreCallers(g: Graph, callers: set<Func>, left: set<Func>, a: Func, callees: set<Func>)
    requires a in left && left <= callers
    ensures AllCalls(AllCalls(g, callers - left, callees), {a}, callees) == AllCalls(g, callers - (left - {a}), callees)
  {
  }

  /** Every dynamic caller of a signature has a call to every dynamic callee of it. */
  ghost predicate DynamicOk(infos: seq<DynamicCallInfo>, g: Graph) {
    && UniqueSignatures(infos)
    && (forall i :: 0 <= i < |infos| ==> infos[i].callers <= g.Keys && infos[i].callees <= g.Keys)
    && (forall i, a :: 0 <= i < |infos| && a in infos[i].callers && a in g ==> infos[i].callees <= g[a])
  }

  ghost predicate UniqueSignatures(infos: seq<DynamicCallInfo>) {
    forall i, j :: 0 <= i < j < |infos| ==> infos[i].signature != infos[j].signature
  }

  /** The information without a function that is a value of one signature. */
  function Forget(infos: seq<DynamicCallInfo>, callee: Func, signature: Signature): (r: seq<DynamicCallInfo>)
    ensures |r| == |infos|
    ensures forall i :: 0 <= i < |infos| ==>
              r[i] == (if infos[i].signature == signature then infos[i].(callees := infos[i].callees - {callee}) else infos[i])
  {
    seq(|infos|, i requires 0 <= i < |infos| =>
      if infos[i].signature == signature then infos[i].(callees := infos[i].callees - {callee}) else infos[i])
  }

  lemma OppositeWithout(g: Graph, h: Graph, callee: Func)
    requires Opposite(g, h) && callee in g
    ensures Opposite(WithoutCallee(g, callee), h[callee := {}])
  {
  }

  lemma ForgetValue(infos: seq<DynamicCallInfo>, callee: Func, signature: Signature, g: Graph, g0: Graph)
    requires DynamicOk(infos, g0) && g == WithoutCallee(g0, callee)
    requires forall s :: s != signature ==> callee !in CalleesOf(infos, s)
    ensures UniqueSignatures(infos)
    ensures var infos1 := Forget(infos, callee, signature);
            && DynamicOk(infos1, g)
            && (forall s :: CallersOf(infos1, s) == CallersOf(infos, s))
            && (forall s :: CalleesOf(infos1, s) == CalleesOf(infos, s) - {callee})
            && (forall i :: 0 <= i < |infos| && infos[i].signature == signature ==>
                  infos1 == infos[i := infos[i].(callees := infos[i].callees - {callee})])
            && ((forall i :: 0 <= i < |infos| ==> infos[i].signature != signature) ==> infos1 == infos)
  {
    var infos1 := Forget(infos, callee, signature);
    forall i | 0 <= i < |infos| ensures callee !in infos1[i].callees {
      if callee in infos[i].callees {
        IsCallee(infos, i, callee);
      }
    }
    forall s ensures CallersOf(infos1, s) == CallersOf(infos, s) {
    }
    forall s ensures CalleesOf(infos1, s) == CalleesOf(infos, s) - {callee} {
      ForgetAt(infos, infos1, callee, s);
    }
  }

  lemma IsCallee(infos: seq<DynamicCallInfo>, i: nat, callee: Func)
    requires i < |infos| && callee in infos[i].callees
    ensures callee in CalleesOf(infos, infos[i].signature)
  {
  }

  lemma ForgetAt(infos: seq<DynamicCallInfo>, infos1: seq<DynamicCallInfo>, callee: Func, s: Signature)
    requires |infos1| == |infos| && forall i :: 0 <= i < |infos| ==>
               infos1[i].signature == infos[i].signature && infos1[i].callees == infos[i].callees - {callee}
    ensures CalleesOf(infos1, s) == CalleesOf(infos, s) - {callee}
  {
    forall f ensures f in CalleesOf(infos1, s) <==> f in CalleesOf(infos, s) - {callee} {
      if f in CalleesOf(infos, s) - {callee} {
        var i :| 0 <= i < |infos| && infos[i].signature == s && f in infos[i].callees;
        assert infos1[i].signature == s && f in infos1[i].callees;
      }
    }
  }

  lemma InfoAt(infos: seq<DynamicCallInfo>, i: nat)
    requires UniqueSignatures(infos) && i < |infos|
    ensures CallersOf(infos, infos[i].signature) == infos[i].callers
    ensures CalleesOf(infos, infos[i].signature) == infos[i].callees
  {
  }

  lemma NoInfo(infos: seq<DynamicCallInfo>, signature: Signature)
    requires forall j :: 0 <= j < |infos| ==> infos[j].signature != signature
    ensures CallersOf(infos, signature) == {} && CalleesOf(infos, signature) == {}
  {
  }

  lemma InfoAppended(infos: seq<DynamicCallInfo>, info: DynamicCallInfo, s: Signature)
    ensures CallersOf(infos + [info], s) == CallersOf(infos, s) + (if info.signature == s then info.callers else {})
    ensures CalleesOf(infos + [info], s) == CalleesOf(infos, s) + (if info.signature == s then info.callees else {})
  {
    var more := infos + [info];
    assert more[|infos|] == info;
    assert forall i :: 0 <= i < |infos| ==> more[i] == infos[i];
  }

  lemma InfoReplaced(infos: seq<DynamicCallInfo>, i: nat, info: DynamicCallInfo, s: Signature)
    requires UniqueSignatures(infos) && i < |infos| && info.signature == infos[i].signature
    ensures CallersOf(infos[i := info], s) == if s == info.signature then info.callers else CallersOf(infos, s)
    ensures CalleesOf(infos[i := info], s) == if s == info.signature then info.callees else CalleesOf(infos, s)
  {
    var other := infos[i := info];
    assert other[i] == info;
    assert forall j :: 0 <= j < |infos| && j != i ==> other[j] == infos[j];
  }

  function CallersOf(infos: seq<DynamicCallInfo>, signature: Signature): set<Func> {
    set i, f | 0 <= i < |infos| && infos[i].signature == signature && f in infos[i].callers :: f
  }

  function CalleesOf(infos: seq<DynamicCallInfo>, signature: Signature): set<Func> {
    set i, f | 0 <= i < |infos| && infos[i].signature == signature && f in infos[i].callees :: f
  }

  function WithoutCallee(g: Graph, callee: Func): Graph { map f | f in g :: g[f] - {callee} }

  function AllCalls(g: Graph, callers: set<Func>, callees: set<Func>): Graph {
    map f | f in g :: if f in callers then g[f] + callees else g[f]
  }
}
