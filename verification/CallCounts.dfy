module CallCounts {
  // How often functions are called and operations performed at most: counts that saturate at the cap, carried from
  // callers to callees over the strongly connected components.

  import opened FuncGraphs
  import opened SccSearches
  import opened CallGraphs
  import opened CallTrees

  function Cap(n: nat): nat { if n > MAX_CALL_COUNTS then MAX_CALL_COUNTS else n }

  /** The analysis of the bodies mentions only calls that are in the graph. */
  ghost predicate Covers(g: Graph, infos: map<Func, Info>) {
    infos.Keys == g.Keys && forall f :: f in g ==> infos[f].callees.Keys <= g[f]
  }

  /** A run of the program. */
  ghost predicate IsRun(infos: map<Func, Info>, init: Func, t: Tree) { Fits(infos, t) && t.f == init }

  /** The operations performed in a whole run. */
  function Performed(infos: map<Func, Info>, t: Tree, op: Op): nat { OpsBy(t, infos.Keys, op) }

  // ---------- Counts of one run ----------

  /** With the callers in done accounted for: what is known to activate f is within the count of f's
      component, and the counts of done functions and of operations are bounds. */
  ghost predicate Counted(infos: map<Func, Info>, scc: map<Func, nat>, t: Tree, done: set<Func>,
                          sccCounts: map<nat, nat>, calleeCounts: map<Func, nat>, totals: map<Op, nat>)
  {
    && (forall f :: f in infos && f in scc ==>
          Within((if t.f == f then 1 else 0) + Under(t, done, f), Get(sccCounts, scc[f])))
    && (forall f :: f in done ==> Within(Acts(t, f), Get(calleeCounts, f)))
    && (forall op :: Within(OpsBy(t, done, op), Get(totals, op)))
  }

  ghost predicate AllCounted(infos: map<Func, Info>, init: Func, scc: map<Func, nat>, done: set<Func>,
                             sccCounts: map<nat, nat>, calleeCounts: map<Func, nat>, totals: map<Op, nat>)
  {
    forall t :: IsRun(infos, init, t) ==> Counted(infos, scc, t, done, sccCounts, calleeCounts, totals)
  }

  /** The counts of components after those of caller's callees were raised. */
  ghost predicate Raised(callees: map<Func, nat>, scc: map<Func, nat>, c: nat, counts0: map<nat, nat>, counts: map<nat, nat>) {
    && (forall s :: Get(counts0, s) <= Get(counts, s))
    && (forall f :: f in callees && f in scc && Get(counts, scc[f]) < MAX_CALL_COUNTS ==>
          Get(counts0, scc[f]) + callees[f] * c <= Get(counts, scc[f]))
  }

  ghost predicate RaisedOps(ops: map<Op, nat>, c: nat, totals0: map<Op, nat>, totals: map<Op, nat>) {
    && (forall op :: Get(totals0, op) <= Get(totals, op))
    && (forall op :: op in ops && Get(totals, op) < MAX_CALL_COUNTS ==> Get(totals0, op) + ops[op] * c <= Get(totals, op))
  }

  lemma ProductWithin(y: nat, acts: nat, k: nat, c: nat)
    requires Within(acts, c) && (acts == 0 ==> y == 0) && (k < MAX_CALL_COUNTS ==> y <= acts * k)
    ensures Within(y, k * c)
  {
    if k * c < MAX_CALL_COUNTS {
      if c > 0 && k > 0 {
        assert k * c >= k && k * c >= c;
        assert acts * k <= c * k;
      }
    }
  }

  /** One more caller, whose own activations are within c. */
  lemma CallerDone(infos: map<Func, Info>, scc: map<Func, nat>, t: Tree, done: set<Func>, g: Func, c: nat,
                   counts0: map<nat, nat>, counts: map<nat, nat>, calleeCounts0: map<Func, nat>, calleeCounts: map<Func, nat>,
                   totals0: map<Op, nat>, totals: map<Op, nat>)
    requires Fits(infos, t) && g in infos && g !in done && Within(Acts(t, g), c)
    requires Counted(infos, scc, t, done, counts0, calleeCounts0, totals0)
    requires Raised(infos[g].callees, scc, c, counts0, counts) && RaisedOps(infos[g].ops, c, totals0, totals)
    requires calleeCounts == calleeCounts0[g := Cap(c)]
    ensures Counted(infos, scc, t, done + {g}, counts, calleeCounts, totals)
  {
    hide Acts, Under, OpsBy, Fits, Raised, RaisedOps, Within;
    forall f | f in infos && f in scc
      ensures Within((if t.f == f then 1 else 0) + Under(t, done + {g}, f), Get(counts, scc[f]))
    {
      CallerDoneAt(infos, scc, t, done, g, c, counts0, counts, f);
    }
    forall op ensures Within(OpsBy(t, done + {g}, op), Get(totals, op)) {
      CallerDoneOps(infos, t, done, g, c, totals0, totals, op);
    }
    CapWithin(Acts(t, g), c);
  }

  lemma CapWithin(n: nat, c: nat)
    requires Within(n, c)
    ensures Within(n, Cap(c))
  {
  }

  lemma CallerDoneAt(infos: map<Func, Info>, scc: map<Func, nat>, t: Tree, done: set<Func>, g: Func, c: nat,
                     counts0: map<nat, nat>, counts: map<nat, nat>, f: Func)
    requires Fits(infos, t) && g in infos && g !in done && Within(Acts(t, g), c)
    requires f in scc && Within((if t.f == f then 1 else 0) + Under(t, done, f), Get(counts0, scc[f]))
    requires Raised(infos[g].callees, scc, c, counts0, counts)
    ensures Within((if t.f == f then 1 else 0) + Under(t, done + {g}, f), Get(counts, scc[f]))
  {
    hide Acts, Under, Fits;
    UnderMore(t, done, g, f);
    UnderOne(infos, t, g, f);
    ProductWithin(Under(t, {g}, f), Acts(t, g), Get(infos[g].callees, f), c);
  }

  lemma CallerDoneOps(infos: map<Func, Info>, t: Tree, done: set<Func>, g: Func, c: nat,
                      totals0: map<Op, nat>, totals: map<Op, nat>, op: Op)
    requires Fits(infos, t) && g in infos && g !in done && Within(Acts(t, g), c)
    requires Within(OpsBy(t, done, op), Get(totals0, op)) && RaisedOps(infos[g].ops, c, totals0, totals)
    ensures Within(OpsBy(t, done + {g}, op), Get(totals, op))
  {
    hide Acts, OpsBy, Fits;
    OpsMore(t, done, g, op);
    OpsOne(infos, t, g, op);
    ProductWithin(OpsBy(t, {g}, op), Acts(t, g), Get(infos[g].ops, op), c);
  }

  lemma AllCallerDone(infos: map<Func, Info>, init: Func, scc: map<Func, nat>, done: set<Func>, g: Func, c: nat,
                      counts0: map<nat, nat>, counts: map<nat, nat>, calleeCounts0: map<Func, nat>, calleeCounts: map<Func, nat>,
                      totals0: map<Op, nat>, totals: map<Op, nat>)
    requires g in infos && g !in done && forall t :: IsRun(infos, init, t) ==> Within(Acts(t, g), c)
    requires AllCounted(infos, init, scc, done, counts0, calleeCounts0, totals0)
    requires Raised(infos[g].callees, scc, c, counts0, counts) && RaisedOps(infos[g].ops, c, totals0, totals)
    requires calleeCounts == calleeCounts0[g := Cap(c)]
    ensures AllCounted(infos, init, scc, done + {g}, counts, calleeCounts, totals)
  {
    forall t | IsRun(infos, init, t) ensures Counted(infos, scc, t, done + {g}, counts, calleeCounts, totals) {
      CallerDone(infos, scc, t, done, g, c, counts0, counts, calleeCounts0, calleeCounts, totals0, totals);
    }
  }

  // ---------- Counts are exact where nothing is recursive ----------

  /** No function is recursive. */
  ghost predicate NoCycles(infos: map<Func, Info>, lists: map<nat, seq<Func>>) {
    forall n :: n in lists && |lists[n]| > 0 ==> !HasCycle(infos, lists[n])
  }

  /** A run in which every activation does everything the analysis allows. */
  ghost predicate IsFullRun(infos: map<Func, Info>, init: Func, t: Tree) { Full(infos, t) && t.f == init }

  /** The counts are what such runs do. */
  ghost predicate ExactInFullRuns(infos: map<Func, Info>, init: Func, calleeCounts: map<Func, nat>, totals: map<Op, nat>) {
    && (forall t, f :: IsFullRun(infos, init, t) && f in infos ==> Get(calleeCounts, f) == Cap(Acts(t, f)))
    && (forall t, op :: IsFullRun(infos, init, t) ==> Get(totals, op) == Cap(Performed(infos, t, op)))
  }

  ghost predicate Exact(infos: map<Func, Info>, scc: map<Func, nat>, t: Tree, done: set<Func>,
                        sccCounts: map<nat, nat>, calleeCounts: map<Func, nat>, totals: map<Op, nat>)
  {
    && (forall f :: f in infos && f in scc ==>
          Get(sccCounts, scc[f]) == Cap((if t.f == f then 1 else 0) + Under(t, done, f)))
    && (forall f :: f in done ==> Get(calleeCounts, f) == Cap(Acts(t, f)))
    && (forall op :: Get(totals, op) == Cap(OpsBy(t, done, op)))
  }

  ghost predicate AllExact(infos: map<Func, Info>, init: Func, scc: map<Func, nat>, done: set<Func>,
                           sccCounts: map<nat, nat>, calleeCounts: map<Func, nat>, totals: map<Op, nat>)
  {
    forall t :: IsFullRun(infos, init, t) ==> Exact(infos, scc, t, done, sccCounts, calleeCounts, totals)
  }

  /** Different callees have different components. */
  ghost predicate Apart(scc: map<Func, nat>) {
    forall f, h :: f in scc && h in scc && f != h ==> scc[f] != scc[h]
  }

  ghost predicate RaisedExactly(callees: map<Func, nat>, scc: map<Func, nat>, c: nat, counts0: map<nat, nat>, counts: map<nat, nat>) {
    forall f :: f in scc ==> Get(counts, scc[f]) == Cap(Get(counts0, scc[f]) + Get(callees, f) * c)
  }

  ghost predicate RaisedOpsExactly(ops: map<Op, nat>, c: nat, totals0: map<Op, nat>, totals: map<Op, nat>) {
    forall op :: Get(totals, op) == Cap(Get(totals0, op) + Get(ops, op) * c)
  }

  /** Saturating on the way does not change the saturated result. */
  lemma CapSum(x: nat, k: nat, a: nat)
    ensures Cap(Cap(x) + k * Cap(a)) == Cap(x + a * k)
  {
    if k > 0 && a > MAX_CALL_COUNTS {
      assert k * MAX_CALL_COUNTS >= MAX_CALL_COUNTS && a * k >= a;
    } else {
      assert k * a == a * k;
    }
  }

  lemma ExactCallerDone(infos: map<Func, Info>, scc: map<Func, nat>, t: Tree, done: set<Func>, g: Func,
                        counts0: map<nat, nat>, counts: map<nat, nat>, calleeCounts0: map<Func, nat>, calleeCounts: map<Func, nat>,
                        totals0: map<Op, nat>, totals: map<Op, nat>)
    requires Full(infos, t) && g in infos && g !in done
    requires Exact(infos, scc, t, done, counts0, calleeCounts0, totals0)
    requires RaisedExactly(infos[g].callees, scc, Cap(Acts(t, g)), counts0, counts)
    requires RaisedOpsExactly(infos[g].ops, Cap(Acts(t, g)), totals0, totals)
    requires calleeCounts == calleeCounts0[g := Cap(Acts(t, g))]
    ensures Exact(infos, scc, t, done + {g}, counts, calleeCounts, totals)
  {
    hide Acts, Under, OpsBy;
    forall f | f in infos && f in scc
      ensures Get(counts, scc[f]) == Cap((if t.f == f then 1 else 0) + Under(t, done + {g}, f))
    {
      UnderMore(t, done, g, f);
      FullUnder(infos, t, g, f);
      CapSum((if t.f == f then 1 else 0) + Under(t, done, f), Get(infos[g].callees, f), Acts(t, g));
    }
    forall op ensures Get(totals, op) == Cap(OpsBy(t, done + {g}, op)) {
      OpsMore(t, done, g, op);
      FullOps(infos, t, g, op);
      CapSum(OpsBy(t, done, op), Get(infos[g].ops, op), Acts(t, g));
    }
  }

  // ---------- The counts of one component ----------

  /** A component with more than one function, or with a function that calls itself. */
  predicate HasCycle(infos: map<Func, Info>, list: seq<Func>)
    requires |list| > 0
  {
    |list| > 1 || (list[0] in infos && Get(infos[list[0]].callees, list[0]) > 0)
  }

  /** The component of f has the functions that f leads to and that lead back, each once. */
  lemma ListOf(g: Graph, count: nat, scc: map<Func, nat>, lists: map<nat, seq<Func>>, f: Func)
    requires SccsCorrect(g, count, scc, lists) && f in g
    ensures f in scc && scc[f] in lists && f in lists[scc[f]]
    ensures forall h :: h in lists[scc[f]] <==> h in g && Reach(g, f, h) && Reach(g, h, f)
    ensures forall i, j :: 0 <= i < j < |lists[scc[f]]| ==> lists[scc[f]][i] != lists[scc[f]][j]
  {
    hide Reach;
    forall h ensures h in lists[scc[f]] <==> h in g && Reach(g, f, h) && Reach(g, h, f) {
      assert h in lists[scc[f]] <==> h in g && scc[h] == scc[f];
    }
  }

  /** A component has a cycle exactly if a function of it calls itself, or another one leads to it and back. */
  lemma CycleExactly(g: Graph, infos: map<Func, Info>, count: nat, scc: map<Func, nat>, lists: map<nat, seq<Func>>, f: Func)
    requires SccsCorrect(g, count, scc, lists) && Covers(g, infos) && f in g
    ensures scc[f] in lists && |lists[scc[f]]| > 0
    ensures HasCycle(infos, lists[scc[f]])
            <==> Get(infos[f].callees, f) > 0 || exists h :: h in g && h != f && Reach(g, f, h) && Reach(g, h, f)
  {
    hide Reach, SccsCorrect;
    ListOf(g, count, scc, lists, f);
    var list := lists[scc[f]];
    if |list| > 1 {
      assert list[0] != list[1];
      var h := if list[0] == f then list[1] else list[0];
      assert h in list && h != f;
    } else {
      assert list == [f];
    }
  }

  /** Functions of components with a cycle are counted as called as often as can be told apart. */
  ghost predicate CyclesAtCap(infos: map<Func, Info>, scc: map<Func, nat>, lists: map<nat, seq<Func>>, done: set<Func>,
                              calleeCounts: map<Func, nat>)
  {
    forall f :: f in done && f in scc && scc[f] in lists && |lists[scc[f]]| > 0 && HasCycle(infos, lists[scc[f]]) ==>
      Get(calleeCounts, f) == MAX_CALL_COUNTS
  }

  lemma CallerAtCap(g: Graph, infos: map<Func, Info>, count: nat, scc: map<Func, nat>, lists: map<nat, seq<Func>>, n: nat, k: nat,
                    calleeCounts0: map<Func, nat>, calleeCounts: map<Func, nat>, c: nat)
    requires SccsCorrect(g, count, scc, lists) && n in lists && k < |lists[n]|
    requires CyclesAtCap(infos, scc, lists, DoneBefore(scc, n, lists[n], k), calleeCounts0)
    requires calleeCounts == calleeCounts0[lists[n][k] := Cap(Get(calleeCounts0, lists[n][k]) + c)]
    requires HasCycle(infos, lists[n]) ==> c >= MAX_CALL_COUNTS
    ensures CyclesAtCap(infos, scc, lists, DoneBefore(scc, n, lists[n], k + 1), calleeCounts)
  {
    hide Reach, HasCycle;
    ListedOnce(g, count, scc, lists, n, lists[n][k]);
    assert lists[n][..k + 1] == lists[n][..k] + [lists[n][k]];
  }

  /** When all higher components are done, the count of a component bounds its activations. */
  lemma ComponentCount(g: Graph, infos: map<Func, Info>, count: nat, scc: map<Func, nat>, lists: map<nat, seq<Func>>,
                       t: Tree, n: nat, done: set<Func>, counts: map<nat, nat>, calleeCounts: map<Func, nat>, totals: map<Op, nat>,
                       f: Func)
    requires WellFormed(g) && SccsCorrect(g, count, scc, lists) && Covers(g, infos) && Fits(infos, t) && n in lists
    requires forall h :: h in g && scc[h] > n ==> h in done
    requires Counted(infos, scc, t, done, counts, calleeCounts, totals) && f in lists[n]
    requires HasCycle(infos, lists[n]) ==> Get(counts, n) >= MAX_CALL_COUNTS
    ensures Within(Acts(t, f), Get(counts, n))
  {
    if Get(counts, n) < MAX_CALL_COUNTS {
      ListedOnce(g, count, scc, lists, n, f);
      forall h | h in infos && h !in done ensures Get(infos[h].callees, f) == 0 {
        CallersAbove(g, count, scc, lists, n, f, h);
      }
      hide SccsCorrect;
      ActsByCaller(infos, t, done, f);
    }
  }

  lemma ListedOnce(g: Graph, count: nat, scc: map<Func, nat>, lists: map<nat, seq<Func>>, n: nat, f: Func)
    requires SccsCorrect(g, count, scc, lists) && n in lists && f in lists[n]
    ensures f in g && f in scc && scc[f] == n && |lists[n]| >= 1 && (|lists[n]| == 1 ==> lists[n][0] == f)
  {
    hide Reach;
  }

  /** Calls of the only function of a component come from higher components or from itself. */
  lemma CallersAbove(g: Graph, count: nat, scc: map<Func, nat>, lists: map<nat, seq<Func>>, n: nat, f: Func, h: Func)
    requires SccsCorrect(g, count, scc, lists) && n in lists && lists[n] == [f] && h in g && h in scc && scc[h] <= n
    ensures h != f ==> f !in g[h]
  {
    hide Reach;
    assert f in lists[n] && f in g && scc[f] == n && h in lists[scc[h]];
    if f in g[h] && scc[h] == n {
      assert h in [f];
    }
  }

  // ---------- The loops ----------

  /** The counts when the callees in todo are still to come. */
  ghost predicate RaisedSoFar(callees: map<Func, nat>, scc: map<Func, nat>, c: nat, todo: set<Func>,
                              counts0: map<nat, nat>, counts: map<nat, nat>)
  {
    && (forall s :: Get(counts0, s) <= Get(counts, s) <= MAX_CALL_COUNTS)
    && (forall f :: f in callees && f !in todo && f in scc && Get(counts, scc[f]) < MAX_CALL_COUNTS ==>
          Get(counts0, scc[f]) + callees[f] * c <= Get(counts, scc[f]))
    && (Apart(scc) && callees.Keys <= scc.Keys ==> RaisedExactlySoFar(callees, scc, c, todo, counts0, counts))
  }

  ghost predicate RaisedExactlySoFar(callees: map<Func, nat>, scc: map<Func, nat>, c: nat, todo: set<Func>,
                                     counts0: map<nat, nat>, counts: map<nat, nat>)
  {
    forall f :: f in scc ==>
      Get(counts, scc[f]) == Cap(Get(counts0, scc[f]) + (if f in todo then 0 else Get(callees, f)) * c)
  }

  lemma RaiseOne(callees: map<Func, nat>, scc: map<Func, nat>, c: nat, todo: set<Func>,
                 counts0: map<nat, nat>, counts: map<nat, nat>, callee: Func)
    requires RaisedSoFar(callees, scc, c, todo, counts0, counts) && callee in todo && callee in callees
    ensures var s := Get(scc, callee);
            RaisedSoFar(callees, scc, c, todo - {callee}, counts0, counts[s := Cap(Get(counts, s) + callees[callee] * c)])
  {
    hide RaisedExactlySoFar, Apart;
    var s := Get(scc, callee);
    var counts1 := counts[s := Cap(Get(counts, s) + callees[callee] * c)];
    CapGrows(callees[callee], c, counts, s);
    if Apart(scc) && callees.Keys <= scc.Keys {
      RaiseOneExactly(callees, scc, c, todo, counts0, counts, callee);
    }
  }

  lemma CapGrows(k: nat, c: nat, counts: map<nat, nat>, s: nat)
    requires Get(counts, s) <= MAX_CALL_COUNTS
    ensures var counts1 := counts[s := Cap(Get(counts, s) + k * c)];
            && (forall r :: r != s ==> Get(counts1, r) == Get(counts, r))
            && Get(counts, s) <= Get(counts1, s) <= MAX_CALL_COUNTS
            && (Get(counts1, s) < MAX_CALL_COUNTS ==> Get(counts1, s) == Get(counts, s) + k * c)
  {
    assert k * c >= 0;
  }

  lemma RaiseOneExactly(callees: map<Func, nat>, scc: map<Func, nat>, c: nat, todo: set<Func>,
                        counts0: map<nat, nat>, counts: map<nat, nat>, callee: Func)
    requires RaisedExactlySoFar(callees, scc, c, todo, counts0, counts) && callee in todo && callee in callees
    requires Apart(scc) && callee in scc && Get(counts0, scc[callee]) <= MAX_CALL_COUNTS
    ensures var s := scc[callee];
            RaisedExactlySoFar(callees, scc, c, todo - {callee}, counts0, counts[s := Cap(Get(counts, s) + callees[callee] * c)])
  {
  }

  method RaiseCallees(callees: map<Func, nat>, scc: map<Func, nat>, c: nat, counts0: map<nat, nat>) returns (counts: map<nat, nat>)
    requires forall s :: Get(counts0, s) <= MAX_CALL_COUNTS
    ensures Raised(callees, scc, c, counts0, counts) && forall s :: Get(counts, s) <= MAX_CALL_COUNTS
    ensures Apart(scc) && callees.Keys <= scc.Keys ==> RaisedExactly(callees, scc, c, counts0, counts)
  {
    hide RaisedSoFar, Raised, Apart;
    RaiseStarts(callees, scc, c, counts0);
    counts := counts0;
    var todo := callees.Keys;
    while todo != {}
      invariant todo <= callees.Keys && RaisedSoFar(callees, scc, c, todo, counts0, counts)
      decreases |todo|
    {
      var callee :| callee in todo;
      RaiseOne(callees, scc, c, todo, counts0, counts, callee);
      var calleeSCC := Get(scc, callee);
      counts := counts[calleeSCC := Cap(Get(counts, calleeSCC) + callees[callee] * c)];
      todo := todo - {callee};
    }
    RaiseEnds(callees, scc, c, counts0, counts);
  }

  lemma RaiseStarts(callees: map<Func, nat>, scc: map<Func, nat>, c: nat, counts0: map<nat, nat>)
    requires forall s :: Get(counts0, s) <= MAX_CALL_COUNTS
    ensures RaisedSoFar(callees, scc, c, callees.Keys, counts0, counts0)
  {
    hide Apart;
    forall f | f in scc
      ensures Get(counts0, scc[f]) == Cap(Get(counts0, scc[f]) + (if f in callees.Keys then 0 else Get(callees, f)) * c)
    {
    }
  }

  lemma RaiseEnds(callees: map<Func, nat>, scc: map<Func, nat>, c: nat, counts0: map<nat, nat>, counts: map<nat, nat>)
    requires RaisedSoFar(callees, scc, c, {}, counts0, counts)
    ensures Raised(callees, scc, c, counts0, counts) && forall s :: Get(counts, s) <= MAX_CALL_COUNTS
    ensures Apart(scc) && callees.Keys <= scc.Keys ==> RaisedExactly(callees, scc, c, counts0, counts)
  {
    hide Apart;
  }

  ghost predicate RaisedOpsSoFar(ops: map<Op, nat>, c: nat, todo: set<Op>, totals0: map<Op, nat>, totals: map<Op, nat>) {
    forall op :: Get(totals0, op) <= MAX_CALL_COUNTS
                 && Get(totals, op) == Cap(Get(totals0, op) + (if op in todo then 0 else Get(ops, op)) * c)
  }

  lemma RaiseOneOp(ops: map<Op, nat>, c: nat, todo: set<Op>, totals0: map<Op, nat>, totals: map<Op, nat>, op: Op)
    requires RaisedOpsSoFar(ops, c, todo, totals0, totals) && op in todo && op in ops
    ensures RaisedOpsSoFar(ops, c, todo - {op}, totals0, totals[op := Cap(Get(totals, op) + ops[op] * c)])
  {
  }

  lemma RaiseOpsStarts(ops: map<Op, nat>, c: nat, totals0: map<Op, nat>)
    requires forall op :: Get(totals0, op) <= MAX_CALL_COUNTS
    ensures RaisedOpsSoFar(ops, c, ops.Keys, totals0, totals0)
  {
  }

  lemma RaiseOpsEnds(ops: map<Op, nat>, c: nat, totals0: map<Op, nat>, totals: map<Op, nat>)
    requires RaisedOpsSoFar(ops, c, {}, totals0, totals)
    ensures RaisedOps(ops, c, totals0, totals) && RaisedOpsExactly(ops, c, totals0, totals)
    ensures forall op :: Get(totals, op) <= MAX_CALL_COUNTS
  {
    forall op ensures Get(totals0, op) <= Get(totals, op) <= MAX_CALL_COUNTS {
      assert Get(ops, op) * c >= 0;
    }
  }

  method RaiseTotals(ops: map<Op, nat>, c: nat, totals0: map<Op, nat>) returns (totals: map<Op, nat>)
    requires forall op :: Get(totals0, op) <= MAX_CALL_COUNTS
    ensures RaisedOps(ops, c, totals0, totals) && forall op :: Get(totals, op) <= MAX_CALL_COUNTS
    ensures RaisedOpsExactly(ops, c, totals0, totals)
  {
    hide RaisedOpsSoFar, RaisedOps, RaisedOpsExactly;
    RaiseOpsStarts(ops, c, totals0);
    totals := totals0;
    var todo := ops.Keys;
    while todo != {}
      invariant todo <= ops.Keys && RaisedOpsSoFar(ops, c, todo, totals0, totals)
      decreases |todo|
    {
      var op :| op in todo;
      RaiseOneOp(ops, c, todo, totals0, totals, op);
      totals := totals[op := Cap(Get(totals, op) + ops[op] * c)];
      todo := todo - {op};
    }
    RaiseOpsEnds(ops, c, totals0, totals);
  }

  /** Counts, with everything in done accounted for. */
  ghost predicate Passed(g: Graph, infos: map<Func, Info>, init: Func, scc: map<Func, nat>, lists: map<nat, seq<Func>>,
                         done: set<Func>, counts: map<nat, nat>, calleeCounts: map<Func, nat>, totals: map<Op, nat>)
  {
    && Covers(g, infos) && (forall s :: Get(counts, s) <= MAX_CALL_COUNTS) && (forall op :: Get(totals, op) <= MAX_CALL_COUNTS)
    && (forall f :: f !in done ==> Get(calleeCounts, f) == 0)
    && AllCounted(infos, init, scc, done, counts, calleeCounts, totals)
    && (NoCycles(infos, lists) ==> AllExact(infos, init, scc, done, counts, calleeCounts, totals))
  }

  /** The functions of components above n and the first k functions of component n. */
  ghost function DoneBefore(scc: map<Func, nat>, n: nat, list: seq<Func>, k: nat): set<Func>
    requires k <= |list|
  {
    set f | f in scc && (scc[f] > n || f in list[..k])
  }

  lemma NoCyclesApart(g: Graph, infos: map<Func, Info>, count: nat, scc: map<Func, nat>, lists: map<nat, seq<Func>>)
    requires SccsCorrect(g, count, scc, lists) && NoCycles(infos, lists)
    ensures Apart(scc)
  {
    hide Reach;
    forall f, h | f in scc && h in scc && scc[f] == scc[h] ensures f == h {
      var list := lists[scc[f]];
      assert f in list && h in list && |list| > 0;
      assert !HasCycle(infos, list);
    }
  }

  /** At the start only the entry function is known to be activated, once. */
  lemma PassStarts(g: Graph, infos: map<Func, Info>, count: nat, scc: map<Func, nat>, lists: map<nat, seq<Func>>, init: Func)
    requires SccsCorrect(g, count, scc, lists) && Covers(g, infos) && init in g
    ensures Passed(g, infos, init, scc, lists, {}, map[scc[init] := 1], map[], map[])
  {
    hide ListsOk, Reach, Counted, Exact, NoCycles, Under, OpsBy, Full, Fits;
    assert init in scc;
    var counts := map[scc[init] := 1];
    forall t | IsRun(infos, init, t) ensures Counted(infos, scc, t, {}, counts, map[], map[]) {
      StartCounted(infos, scc, t, counts);
    }
    if NoCycles(infos, lists) {
      NoCyclesApart(g, infos, count, scc, lists);
      forall t | IsFullRun(infos, init, t) ensures Exact(infos, scc, t, {}, counts, map[], map[]) {
        StartExact(infos, scc, t, counts);
      }
    }
  }

  lemma StartExact(infos: map<Func, Info>, scc: map<Func, nat>, t: Tree, counts: map<nat, nat>)
    requires Apart(scc) && t.f in scc && counts == map[scc[t.f] := 1]
    ensures Exact(infos, scc, t, {}, counts, map[], map[])
  {
    hide Under, OpsBy, Acts;
    forall f ensures Under(t, {}, f) == 0 { NoCallers(t, f); }
    forall op ensures OpsBy(t, {}, op) == 0 { NoPerformers(t, op); }
  }

  lemma StartCounted(infos: map<Func, Info>, scc: map<Func, nat>, t: Tree, counts: map<nat, nat>)
    requires t.f in scc ==> Get(counts, scc[t.f]) >= 1
    ensures Counted(infos, scc, t, {}, counts, map[], map[])
  {
    hide Under, OpsBy, Acts;
    forall f ensures Under(t, {}, f) == 0 { NoCallers(t, f); }
    forall op ensures OpsBy(t, {}, op) == 0 { NoPerformers(t, op); }
  }

  lemma {:induction false} NoCallers(t: Tree, f: Func)
    ensures Under(t, {}, f) == 0
    decreases t, 1
  {
    NoCallersAll(t.calls, f);
  }

  lemma {:induction false} NoCallersAll(ts: seq<Tree>, f: Func)
    ensures UnderAll(ts, {}, f) == 0
    decreases ts, 0
  {
    if ts != [] {
      NoCallers(ts[0], f);
      NoCallersAll(ts[1..], f);
    }
  }

  lemma {:induction false} NoPerformers(t: Tree, op: Op)
    ensures OpsBy(t, {}, op) == 0
    decreases t, 1
  {
    NoPerformersAll(t.calls, op);
  }

  lemma {:induction false} NoPerformersAll(ts: seq<Tree>, op: Op)
    ensures OpsByAll(ts, {}, op) == 0
    decreases ts, 0
  {
    if ts != [] {
      NoPerformers(ts[0], op);
      NoPerformersAll(ts[1..], op);
    }
  }

  /** Raising a count keeps it a bound. */
  lemma RaiseComponent(g: Graph, infos: map<Func, Info>, init: Func, scc: map<Func, nat>, lists: map<nat, seq<Func>>,
                       done: set<Func>,
                       counts: map<nat, nat>, calleeCounts: map<Func, nat>, totals: map<Op, nat>, n: nat)
    requires n in lists && |lists[n]| > 0 && HasCycle(infos, lists[n])
    requires Passed(g, infos, init, scc, lists, done, counts, calleeCounts, totals)
    ensures Passed(g, infos, init, scc, lists, done, counts[n := MAX_CALL_COUNTS], calleeCounts, totals)
  {
    var counts1 := counts[n := MAX_CALL_COUNTS];
    assert forall s :: s != n ==> Get(counts1, s) == Get(counts, s);
    forall t | IsRun(infos, init, t) ensures Counted(infos, scc, t, done, counts1, calleeCounts, totals) {
      assert Counted(infos, scc, t, done, counts, calleeCounts, totals);
      hide Under, Acts, OpsBy, Fits;
    }
  }

  lemma DoneOneMore(g: Graph, count: nat, scc: map<Func, nat>, lists: map<nat, seq<Func>>, n: nat, k: nat)
    requires SccsCorrect(g, count, scc, lists) && n in lists && k < |lists[n]|
    ensures lists[n][k] in g && lists[n][k] in scc && lists[n][k] !in DoneBefore(scc, n, lists[n], k)
    ensures DoneBefore(scc, n, lists[n], k + 1) == DoneBefore(scc, n, lists[n], k) + {lists[n][k]}
    ensures forall h :: h in g && scc[h] > n ==> h in DoneBefore(scc, n, lists[n], k)
  {
    hide Reach;
    assert lists[n][k] in lists[n];
    assert lists[n][..k + 1] == lists[n][..k] + [lists[n][k]];
  }

  /** Counting one function of component n leaves all counts bounds. */
  lemma CallerBounds(g: Graph, infos: map<Func, Info>, init: Func, count: nat, scc: map<Func, nat>, lists: map<nat, seq<Func>>,
                     n: nat, k: nat, counts0: map<nat, nat>, counts: map<nat, nat>, calleeCounts0: map<Func, nat>,
                     calleeCounts: map<Func, nat>, totals0: map<Op, nat>, totals: map<Op, nat>)
    requires WellFormed(g) && SccsCorrect(g, count, scc, lists) && n in lists && k < |lists[n]| && Covers(g, infos)
    requires HasCycle(infos, lists[n]) ==> Get(counts0, n) >= MAX_CALL_COUNTS
    requires AllCounted(infos, init, scc, DoneBefore(scc, n, lists[n], k), counts0, calleeCounts0, totals0)
    requires var f, c := lists[n][k], Get(counts0, n);
             && f in infos && Raised(infos[f].callees, scc, c, counts0, counts) && RaisedOps(infos[f].ops, c, totals0, totals)
             && calleeCounts == calleeCounts0[f := Cap(c)]
    ensures AllCounted(infos, init, scc, DoneBefore(scc, n, lists[n], k + 1), counts, calleeCounts, totals)
  {
    var f, c, done := lists[n][k], Get(counts0, n), DoneBefore(scc, n, lists[n], k);
    DoneOneMore(g, count, scc, lists, n, k);
    assert f in lists[n];
    hide SccsCorrect, WellFormed, Covers, DoneBefore, Raised, RaisedOps, Counted, HasCycle, Within, IsRun;
    forall t | IsRun(infos, init, t) ensures Within(Acts(t, f), c) {
      RunFits(infos, init, t);
      ComponentCount(g, infos, count, scc, lists, t, n, done, counts0, calleeCounts0, totals0, f);
    }
    AllCallerDone(infos, init, scc, done, f, c, counts0, counts, calleeCounts0, calleeCounts, totals0, totals);
  }

  /** Where nothing is recursive, the count of a component is its activations once all higher ones are done. */
  lemma ComponentExact(g: Graph, infos: map<Func, Info>, count: nat, scc: map<Func, nat>, lists: map<nat, seq<Func>>,
                       t: Tree, n: nat, done: set<Func>, counts: map<nat, nat>, calleeCounts: map<Func, nat>, totals: map<Op, nat>,
                       f: Func)
    requires WellFormed(g) && SccsCorrect(g, count, scc, lists) && Covers(g, infos) && Full(infos, t) && n in lists
    requires forall h :: h in g && scc[h] > n ==> h in done
    requires Exact(infos, scc, t, done, counts, calleeCounts, totals) && f in lists[n]
    requires !HasCycle(infos, lists[n])
    ensures Get(counts, n) == Cap(Acts(t, f))
  {
    ListedOnce(g, count, scc, lists, n, f);
    forall h | h in infos && h !in done ensures Get(infos[h].callees, f) == 0 {
      CallersAbove(g, count, scc, lists, n, f, h);
    }
    hide SccsCorrect;
    FullFits(infos, t);
    ActsByCaller(infos, t, done, f);
  }

  lemma CallerExact(g: Graph, infos: map<Func, Info>, init: Func, count: nat, scc: map<Func, nat>, lists: map<nat, seq<Func>>,
                    n: nat, k: nat, counts0: map<nat, nat>, counts: map<nat, nat>, calleeCounts0: map<Func, nat>,
                    calleeCounts: map<Func, nat>, totals0: map<Op, nat>, totals: map<Op, nat>)
    requires WellFormed(g) && SccsCorrect(g, count, scc, lists) && n in lists && k < |lists[n]| && Covers(g, infos)
    requires !HasCycle(infos, lists[n])
    requires AllExact(infos, init, scc, DoneBefore(scc, n, lists[n], k), counts0, calleeCounts0, totals0)
    requires var f, c := lists[n][k], Get(counts0, n);
             && f in infos && c <= MAX_CALL_COUNTS
             && RaisedExactly(infos[f].callees, scc, c, counts0, counts) && RaisedOpsExactly(infos[f].ops, c, totals0, totals)
             && calleeCounts == calleeCounts0[f := Cap(c)]
    ensures AllExact(infos, init, scc, DoneBefore(scc, n, lists[n], k + 1), counts, calleeCounts, totals)
  {
    var f, c, done := lists[n][k], Get(counts0, n), DoneBefore(scc, n, lists[n], k);
    DoneOneMore(g, count, scc, lists, n, k);
    assert f in lists[n];
    hide SccsCorrect, WellFormed, Covers, DoneBefore, RaisedExactly, RaisedOpsExactly, Exact, HasCycle, Full;
    forall t | IsFullRun(infos, init, t) ensures Exact(infos, scc, t, done + {f}, counts, calleeCounts, totals) {
      ComponentExact(g, infos, count, scc, lists, t, n, done, counts0, calleeCounts0, totals0, f);
      ExactCallerDone(infos, scc, t, done, f, counts0, counts, calleeCounts0, calleeCounts, totals0, totals);
    }
  }

  lemma CallerStep(g: Graph, infos: map<Func, Info>, init: Func, count: nat, scc: map<Func, nat>, lists: map<nat, seq<Func>>,
                   n: nat, k: nat, counts0: map<nat, nat>, counts: map<nat, nat>, calleeCounts0: map<Func, nat>,
                   calleeCounts: map<Func, nat>, totals0: map<Op, nat>, totals: map<Op, nat>)
    requires WellFormed(g) && SccsCorrect(g, count, scc, lists) && n in lists && k < |lists[n]|
    requires HasCycle(infos, lists[n]) ==> Get(counts0, n) >= MAX_CALL_COUNTS
    requires Passed(g, infos, init, scc, lists, DoneBefore(scc, n, lists[n], k), counts0, calleeCounts0, totals0)
    requires var f, c := lists[n][k], Get(counts0, n);
             && f in infos && Raised(infos[f].callees, scc, c, counts0, counts) && RaisedOps(infos[f].ops, c, totals0, totals)
             && (Apart(scc) ==> RaisedExactly(infos[f].callees, scc, c, counts0, counts))
             && RaisedOpsExactly(infos[f].ops, c, totals0, totals)
             && calleeCounts == calleeCounts0[f := Cap(Get(calleeCounts0, f) + c)]
    requires (forall s :: Get(counts, s) <= MAX_CALL_COUNTS) && (forall op :: Get(totals, op) <= MAX_CALL_COUNTS)
    ensures Passed(g, infos, init, scc, lists, DoneBefore(scc, n, lists[n], k + 1), counts, calleeCounts, totals)
  {
    hide SccsCorrect, WellFormed, Covers, DoneBefore, Raised, RaisedOps, RaisedExactly, RaisedOpsExactly, AllCounted,
      AllExact, HasCycle, NoCycles, Apart;
    DoneOneMore(g, count, scc, lists, n, k);
    CallerBounds(g, infos, init, count, scc, lists, n, k, counts0, counts, calleeCounts0, calleeCounts, totals0, totals);
    if NoCycles(infos, lists) {
      NoCyclesApart(g, infos, count, scc, lists);
      NoCycleAt(infos, lists, n);
      CallerExact(g, infos, init, count, scc, lists, n, k, counts0, counts, calleeCounts0, calleeCounts, totals0, totals);
    }
  }

  lemma NoCycleAt(infos: map<Func, Info>, lists: map<nat, seq<Func>>, n: nat)
    requires NoCycles(infos, lists) && n in lists && |lists[n]| > 0
    ensures !HasCycle(infos, lists[n])
  {
  }

  lemma RunFits(infos: map<Func, Info>, init: Func, t: Tree)
    requires IsRun(infos, init, t)
    ensures Fits(infos, t)
  {
  }

  /** The work on one function of component n. */
  method CountCaller(fcg: FuncCallGraph, infos: map<Func, Info>, ghost init: Func, n: nat, k: nat, counts0: map<nat, nat>)
    returns (counts: map<nat, nat>)
    requires fcg.Valid() && fcg.sccsOk && n in fcg.sccToFuncs && k < |fcg.sccToFuncs[n]|
    requires HasCycle(infos, fcg.sccToFuncs[n]) ==> Get(counts0, n) >= MAX_CALL_COUNTS
    requires Passed(fcg.callerToCallees, infos, init, fcg.funcToSCCs, fcg.sccToFuncs, DoneBefore(fcg.funcToSCCs, n, fcg.sccToFuncs[n], k),
                    counts0, fcg.isCalleeCounts, fcg.totalOpCounts)
    requires CyclesAtCap(infos, fcg.funcToSCCs, fcg.sccToFuncs, DoneBefore(fcg.funcToSCCs, n, fcg.sccToFuncs[n], k), fcg.isCalleeCounts)
    modifies fcg`isCalleeCounts, fcg`totalOpCounts
    ensures CyclesAtCap(infos, fcg.funcToSCCs, fcg.sccToFuncs, DoneBefore(fcg.funcToSCCs, n, fcg.sccToFuncs[n], k + 1), fcg.isCalleeCounts)
    ensures forall s :: Get(counts0, s) <= Get(counts, s)
    ensures Passed(fcg.callerToCallees, infos, init, fcg.funcToSCCs, fcg.sccToFuncs, DoneBefore(fcg.funcToSCCs, n, fcg.sccToFuncs[n], k + 1),
                   counts, fcg.isCalleeCounts, fcg.totalOpCounts)
  {
    hide FuncCallGraph.Valid, SccsCorrect, DoneBefore, AllCounted, AllExact, WellFormed, Covers, HasCycle, NoCycles, Apart,
      RaisedOps, RaisedExactly, RaisedOpsExactly, CyclesAtCap;
    ValidParts(fcg);
    DoneOneMore(fcg.callerToCallees, fcg.sccCount, fcg.funcToSCCs, fcg.sccToFuncs, n, k);
    var caller := fcg.sccToFuncs[n][k];
    var c := Get(counts0, n);
    CalleesKnown(fcg.callerToCallees, infos, fcg.sccCount, fcg.funcToSCCs, fcg.sccToFuncs, caller);
    counts := RaiseCallees(infos[caller].callees, fcg.funcToSCCs, c, counts0);
    var totals := RaiseTotals(infos[caller].ops, c, fcg.totalOpCounts);
    var calleeCounts := fcg.isCalleeCounts[caller := Cap(Get(fcg.isCalleeCounts, caller) + c)];
    CallerStep(fcg.callerToCallees, infos, init, fcg.sccCount, fcg.funcToSCCs, fcg.sccToFuncs, n, k, counts0, counts,
               fcg.isCalleeCounts, calleeCounts, fcg.totalOpCounts, totals);
    CallerAtCap(fcg.callerToCallees, infos, fcg.sccCount, fcg.funcToSCCs, fcg.sccToFuncs, n, k, fcg.isCalleeCounts, calleeCounts, c);
    fcg.isCalleeCounts := calleeCounts;
    fcg.totalOpCounts := totals;
  }

  lemma CalleesKnown(g: Graph, infos: map<Func, Info>, count: nat, scc: map<Func, nat>, lists: map<nat, seq<Func>>, f: Func)
    requires WellFormed(g) && SccsCorrect(g, count, scc, lists) && Covers(g, infos) && f in g
    ensures f in infos && infos[f].callees.Keys <= scc.Keys
  {
    hide ListsOk, Reach;
  }

  lemma ValidParts(fcg: FuncCallGraph)
    requires fcg.Valid() && fcg.sccsOk
    ensures WellFormed(fcg.callerToCallees)
    ensures SccsCorrect(fcg.callerToCallees, fcg.sccCount, fcg.funcToSCCs, fcg.sccToFuncs)
  {
  }

  /** The functions of component n and those above it. */
  ghost function AtLeast(scc: map<Func, nat>, n: nat): set<Func> { set f | f in scc && scc[f] >= n }

  lemma DoneAtEnds(g: Graph, count: nat, scc: map<Func, nat>, lists: map<nat, seq<Func>>, n: nat)
    requires SccsCorrect(g, count, scc, lists) && n in lists
    ensures DoneBefore(scc, n, lists[n], 0) == AtLeast(scc, n + 1)
    ensures DoneBefore(scc, n, lists[n], |lists[n]|) == AtLeast(scc, n)
  {
    hide Reach;
    var list := lists[n];
    assert list[..|list|] == list;
    forall f | f in scc ensures f in list <==> scc[f] == n {
      assert f in lists[scc[f]];
    }
  }

  /** The work on one component. */
  method CountComponent(fcg: FuncCallGraph, infos: map<Func, Info>, ghost init: Func, n: nat, counts0: map<nat, nat>)
    returns (counts: map<nat, nat>)
    requires fcg.Valid() && fcg.sccsOk && n in fcg.sccToFuncs && |fcg.sccToFuncs[n]| > 0
    requires Passed(fcg.callerToCallees, infos, init, fcg.funcToSCCs, fcg.sccToFuncs, DoneBefore(fcg.funcToSCCs, n, fcg.sccToFuncs[n], 0),
                    counts0, fcg.isCalleeCounts, fcg.totalOpCounts)
    requires CyclesAtCap(infos, fcg.funcToSCCs, fcg.sccToFuncs, DoneBefore(fcg.funcToSCCs, n, fcg.sccToFuncs[n], 0), fcg.isCalleeCounts)
    modifies fcg`isCalleeCounts, fcg`totalOpCounts
    ensures CyclesAtCap(infos, fcg.funcToSCCs, fcg.sccToFuncs, DoneBefore(fcg.funcToSCCs, n, fcg.sccToFuncs[n], |fcg.sccToFuncs[n]|),
                        fcg.isCalleeCounts)
    ensures Passed(fcg.callerToCallees, infos, init, fcg.funcToSCCs, fcg.sccToFuncs,
                   DoneBefore(fcg.funcToSCCs, n, fcg.sccToFuncs[n], |fcg.sccToFuncs[n]|),
                   counts, fcg.isCalleeCounts, fcg.totalOpCounts)
  {
    hide FuncCallGraph.Valid, SccsCorrect, DoneBefore, WellFormed, Passed, HasCycle, CyclesAtCap;
    counts := counts0;
    if HasCycle(infos, fcg.sccToFuncs[n]) {
      RaiseComponent(fcg.callerToCallees, infos, init, fcg.funcToSCCs, fcg.sccToFuncs, DoneBefore(fcg.funcToSCCs, n, fcg.sccToFuncs[n], 0),
                     counts, fcg.isCalleeCounts, fcg.totalOpCounts, n);
      counts := counts[n := MAX_CALL_COUNTS];
    }
    for k := 0 to |fcg.sccToFuncs[n]|
      modifies fcg`isCalleeCounts, fcg`totalOpCounts
      invariant HasCycle(infos, fcg.sccToFuncs[n]) ==> Get(counts, n) >= MAX_CALL_COUNTS
      invariant CyclesAtCap(infos, fcg.funcToSCCs, fcg.sccToFuncs, DoneBefore(fcg.funcToSCCs, n, fcg.sccToFuncs[n], k), fcg.isCalleeCounts)
      invariant Passed(fcg.callerToCallees, infos, init, fcg.funcToSCCs, fcg.sccToFuncs, DoneBefore(fcg.funcToSCCs, n, fcg.sccToFuncs[n], k),
                       counts, fcg.isCalleeCounts, fcg.totalOpCounts)
    {
      counts := CountCaller(fcg, infos, init, n, k, counts);
    }
  }

  /** Carries the counts from the entry function over all components. In every run each function is
      activated and each operation performed at most as often as counted, unless the count is at the cap. */
  method AddCallCounts(fcg: FuncCallGraph, infos: map<Func, Info>, init: Func)
    requires fcg.Valid() && fcg.isCalleeCounts == map[] && fcg.totalOpCounts == map[]
    requires Covers(fcg.callerToCallees, infos) && init in fcg.callerToCallees
    modifies fcg
    ensures fcg.Valid() && fcg.callerToCallees == old(fcg.callerToCallees) && fcg.dynamicCallInfos == old(fcg.dynamicCallInfos)
    ensures fcg.sccsOk
    ensures forall t, f :: IsRun(infos, init, t) && f in infos ==> Within(Acts(t, f), Get(fcg.isCalleeCounts, f))
    ensures forall t, op :: IsRun(infos, init, t) ==> Within(Performed(infos, t, op), Get(fcg.totalOpCounts, op))
    ensures NoCycles(infos, fcg.sccToFuncs) ==> ExactInFullRuns(infos, init, fcg.isCalleeCounts, fcg.totalOpCounts)
    ensures CyclesAtCap(infos, fcg.funcToSCCs, fcg.sccToFuncs, infos.Keys, fcg.isCalleeCounts)
  {
    hide FuncCallGraph.Valid, SccsCorrect, DoneBefore, WellFormed, Passed, AtLeast, Acts, Performed, IsRun, IsFullRun, Within,
      Covers, NoCycles, CyclesAtCap;
    fcg.UpdateSCCs();
    ValidParts(fcg);
    EntryListed(fcg, infos, init);
    var counts := map[fcg.funcToSCCs[init] := 1];
    NoneAtCap(fcg, infos);
    for n := fcg.sccCount downto 1
      modifies fcg`isCalleeCounts, fcg`totalOpCounts
      invariant CyclesAtCap(infos, fcg.funcToSCCs, fcg.sccToFuncs, AtLeast(fcg.funcToSCCs, n), fcg.isCalleeCounts)
      invariant Passed(fcg.callerToCallees, infos, init, fcg.funcToSCCs, fcg.sccToFuncs, AtLeast(fcg.funcToSCCs, n), counts,
                       fcg.isCalleeCounts, fcg.totalOpCounts)
    {
      HasList(fcg, n);
      DoneAtEnds(fcg.callerToCallees, fcg.sccCount, fcg.funcToSCCs, fcg.sccToFuncs, n);
      counts := CountComponent(fcg, infos, init, n, counts);
    }
    PassEnds(fcg, infos, init, counts);
    AllDone(fcg, infos);
  }

  lemma NoneAtCap(fcg: FuncCallGraph, infos: map<Func, Info>)
    requires fcg.Valid() && fcg.sccsOk
    ensures CyclesAtCap(infos, fcg.funcToSCCs, fcg.sccToFuncs, AtLeast(fcg.funcToSCCs, fcg.sccCount), fcg.isCalleeCounts)
  {
    hide Reach;
    assert AtLeast(fcg.funcToSCCs, fcg.sccCount) == {};
  }

  lemma AllDone(fcg: FuncCallGraph, infos: map<Func, Info>)
    requires fcg.Valid() && fcg.sccsOk && Covers(fcg.callerToCallees, infos)
    ensures AtLeast(fcg.funcToSCCs, 1) == infos.Keys
  {
    hide Reach;
  }

  lemma HasList(fcg: FuncCallGraph, n: nat)
    requires fcg.Valid() && fcg.sccsOk && 1 <= n < fcg.sccCount
    ensures n in fcg.sccToFuncs && |fcg.sccToFuncs[n]| > 0
  {
  }

  lemma EntryListed(fcg: FuncCallGraph, infos: map<Func, Info>, init: Func)
    requires fcg.Valid() && fcg.sccsOk && Covers(fcg.callerToCallees, infos) && init in fcg.callerToCallees
    ensures fcg.sccCount >= 1 && init in fcg.funcToSCCs
    ensures Passed(fcg.callerToCallees, infos, init, fcg.funcToSCCs, fcg.sccToFuncs, AtLeast(fcg.funcToSCCs, fcg.sccCount),
                   map[fcg.funcToSCCs[init] := 1], map[], map[])
  {
    ValidParts(fcg);
    PassStarts(fcg.callerToCallees, infos, fcg.sccCount, fcg.funcToSCCs, fcg.sccToFuncs, init);
    hide Passed, Reach;
    assert AtLeast(fcg.funcToSCCs, fcg.sccCount) == {};
  }

  lemma PassEnds(fcg: FuncCallGraph, infos: map<Func, Info>, init: Func, counts: map<nat, nat>)
    requires fcg.Valid() && fcg.sccsOk && Covers(fcg.callerToCallees, infos)
    requires Passed(fcg.callerToCallees, infos, init, fcg.funcToSCCs, fcg.sccToFuncs, AtLeast(fcg.funcToSCCs, 1), counts,
                    fcg.isCalleeCounts, fcg.totalOpCounts)
    ensures forall t, f :: IsRun(infos, init, t) && f in infos ==> Within(Acts(t, f), Get(fcg.isCalleeCounts, f))
    ensures forall t, op :: IsRun(infos, init, t) ==> Within(Performed(infos, t, op), Get(fcg.totalOpCounts, op))
    ensures NoCycles(infos, fcg.sccToFuncs) ==>
              && (forall t, f :: IsFullRun(infos, init, t) && f in infos ==> Get(fcg.isCalleeCounts, f) == Cap(Acts(t, f)))
              && (forall t, op :: IsFullRun(infos, init, t) ==> Get(fcg.totalOpCounts, op) == Cap(Performed(infos, t, op)))
  {
    hide Acts, OpsBy, Under, IsRun, IsFullRun, Within, Reach;
    assert AtLeast(fcg.funcToSCCs, 1) == infos.Keys;
  }

  // ---------- Functions that the entry does not lead to ----------

  /** What a function does not lead to is not activated in its runs. */
  lemma {:induction false} NeverActivated(g: Graph, infos: map<Func, Info>, t: Tree, f: Func)
    requires WellFormed(g) && Covers(g, infos) && Fits(infos, t) && t.f in g && !Reach(g, t.f, f)
    ensures Acts(t, f) == 0
    decreases t, 1
  {
    hide Reach;
    ReachSelf(g, t.f);
    forall h | Occurs(FuncsOf(t.calls), h) > 0 ensures h in g[t.f] {
      assert Get(infos[t.f].callees, h) > 0;
    }
    NoneActivated(g, infos, t.f, t.calls, f);
  }

  lemma {:induction false} NoneActivated(g: Graph, infos: map<Func, Info>, caller: Func, ts: seq<Tree>, f: Func)
    requires WellFormed(g) && Covers(g, infos) && AllFit(infos, ts) && caller in g && !Reach(g, caller, f)
    requires forall h :: Occurs(FuncsOf(ts), h) > 0 ==> h in g[caller]
    ensures ActsAll(ts, f) == 0
    decreases ts, 0
  {
    hide Reach;
    if ts != [] {
      assert FuncsOf(ts)[0] == ts[0].f && FuncsOf(ts)[1..] == FuncsOf(ts[1..]);
      assert Occurs(FuncsOf(ts), ts[0].f) > 0;
      ReachEdge(g, caller, ts[0].f);
      if Reach(g, ts[0].f, f) {
        ReachTrans(g, caller, ts[0].f, f);
      }
      NeverActivated(g, infos, ts[0], f);
      NoneActivated(g, infos, caller, ts[1..], f);
    }
  }

  // Function 0 is the entry and calls nothing; function 1 calls itself.

  const ALONE: Graph := map[Func(0) := {}, Func(1) := {Func(1)}]
  const ALONE_INFOS: map<Func, Info> := map[Func(0) := Info(0, map[], map[]), Func(1) := Info(1, map[Func(1) := 1], map[])]

  lemma NotReached()
    ensures WellFormed(ALONE) && Covers(ALONE, ALONE_INFOS) && !Reach(ALONE, Func(0), Func(1))
  {
    if Reach(ALONE, Func(0), Func(1)) {
      ClosedReach(ALONE, {Func(0)}, Func(0), Func(1));
    }
  }

  lemma AloneHasCycle(list: seq<Func>)
    requires Func(1) in list
    ensures HasCycle(ALONE_INFOS, list)
  {
    assert |list| == 1 ==> list[0] == Func(1);
  }

  /** A function with a cycle that no run activates: its count is at the cap all the same. */
  lemma UnreachedCycle(count: nat, scc: map<Func, nat>, lists: map<nat, seq<Func>>, calleeCounts: map<Func, nat>, t: Tree)
    requires SccsCorrect(ALONE, count, scc, lists) && CyclesAtCap(ALONE_INFOS, scc, lists, ALONE_INFOS.Keys, calleeCounts)
    requires IsRun(ALONE_INFOS, Func(0), t)
    ensures Covers(ALONE, ALONE_INFOS) && Get(calleeCounts, Func(1)) == MAX_CALL_COUNTS && Acts(t, Func(1)) == 0
  {
    hide Reach, Acts, HasCycle, Covers;
    NotReached();
    NeverActivated(ALONE, ALONE_INFOS, t, Func(1));
    assert Func(1) in ALONE && Func(1) in lists[scc[Func(1)]];
    AloneHasCycle(lists[scc[Func(1)]]);
  }
}
