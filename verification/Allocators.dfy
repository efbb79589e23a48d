/** The tables that hand out channel and process ids, and why their sizes suffice. */
module Allocators {
  import opened FuncGraphs
  import opened CallGraphs
  import opened CallTrees
  import opened IrBodies
  import opened BodyCounts
  import opened CallsInfos
  import opened ProgramCounts
  import N = ChannelNetwork

  /** The size of a table: the count, but at least one entry and no more than configured. */
  function TableSize(count: nat, configured: nat): nat {
    if count < 1 then 1 else if count > configured then configured else count
  }

  /** The number of entries for deferred calls in one activation. */
  function DeferCount(count: nat, configured: nat): nat { if count > configured then configured else count }

  /** Channels are made by taking the next entry; a request beyond the last entry is flagged and gets entry 0. */
  class ChannelTable {
    var chanCount: nat
    var outOfResources: bool
    const chanCounter: array<int>
    const chanBuffer: array<int>

    ghost predicate Valid()
      reads this
    {
      chanCounter != chanBuffer && chanCounter.Length == chanBuffer.Length && (outOfResources <==> chanCount > chanCounter.Length)
    }

    constructor (size: nat)
      ensures Valid() && chanCounter.Length == size && chanCount == 0 && fresh(chanCounter) && fresh(chanBuffer)
    {
      chanCount, outOfResources := 0, false;
      chanCounter, chanBuffer := new int[size], new int[size];
    }

    method MakeChan(buffer: int) returns (cid: nat)
      requires Valid()
      modifies this, chanCounter, chanBuffer
      ensures Valid() && chanCount == old(chanCount) + 1
      ensures cid == Id(old(chanCount), chanCounter.Length)
      ensures old(chanCount) < chanCounter.Length ==>
                chanCounter[..] == old(chanCounter[..])[cid := 0] && chanBuffer[..] == old(chanBuffer[..])[cid := buffer]
      ensures old(chanCount) >= chanCounter.Length ==>
                outOfResources && chanCounter[..] == old(chanCounter[..]) && chanBuffer[..] == old(chanBuffer[..])
    {
      if chanCount >= chanCounter.Length {
        chanCount := chanCount + 1;
        outOfResources := true;
        return 0;
      }
      cid := chanCount;
      chanCount := chanCount + 1;
      chanCounter[cid] := 0;
      chanBuffer[cid] := buffer;
    }
  }

  /** The id handed out when made ids have been handed out before. */
  function Id(made: nat, size: nat): nat { if made < size then made else 0 }

  /** The ids handed out by the first n requests. */
  function Ids(n: nat, size: nat): (ids: seq<nat>)
    ensures |ids| == n && forall i :: 0 <= i < n ==> ids[i] == Id(i, size)
  {
    if n == 0 then [] else Ids(n - 1, size) + [Id(n - 1, size)]
  }

  ghost predicate Distinct<T(!new)>(s: seq<T>) { forall i, j :: 0 <= i < j < |s| ==> s[i] != s[j] }

  /** The ids are distinct entries of the table exactly if there are no more requests than entries. */
  lemma DistinctExactly(n: nat, size: nat)
    ensures (Distinct(Ids(n, size)) && forall i :: 0 <= i < n ==> Ids(n, size)[i] < size) <==> n <= size
  {
    var ids := Ids(n, size);
    if n > size {
      assert ids[size] == 0;
      if size > 0 {
        assert ids[0] == ids[size];
      }
    }
  }

  /** Makes n channels in a table of a given size. */
  method MakeChans(table: ChannelTable, buffers: seq<int>) returns (ids: seq<nat>)
    requires table.Valid() && table.chanCount == 0
    modifies table, table.chanCounter, table.chanBuffer
    ensures table.Valid() && table.chanCount == |buffers| && ids == Ids(|buffers|, table.chanCounter.Length)
    ensures table.outOfResources <==> |buffers| > table.chanCounter.Length
    ensures |buffers| <= table.chanCounter.Length ==>
              forall i :: 0 <= i < |buffers| ==> table.chanCounter[ids[i]] == 0 && table.chanBuffer[ids[i]] == buffers[i]
  {
    ids := [];
    for k := 0 to |buffers|
      invariant table.Valid() && table.chanCount == k && ids == Ids(k, table.chanCounter.Length)
      invariant |buffers| <= table.chanCounter.Length ==>
                  forall i :: 0 <= i < k ==> table.chanCounter[i] == 0 && table.chanBuffer[i] == buffers[i]
    {
      var cid := table.MakeChan(buffers[k]);
      ids := ids + [cid];
    }
  }

  /** A table has an entry for each request that was counted, as far as configured, and one entry if none was counted. */
  lemma TableExactly(k: nat, count: nat, configured: nat)
    ensures k < TableSize(count, configured) <==> (k < count && k < configured) || (count == 0 && k == 0)
    ensures k < DeferCount(count, configured) <==> k < count && k < configured
  {
  }

  /** A count that is told apart and not cut off leaves room for whatever it bounds. */
  lemma RoomEnough(n: nat, count: nat, configured: nat)
    requires Within(n, count) && count < MAX_CALL_COUNTS && count <= configured
    ensures n <= TableSize(count, configured)
  {
  }

  /** With only defer statements acting, a run of a body makes no more deferred calls than its process has
      entries for, unless their count reached the cap or was cut off. */
  lemma DefersFit(b: seq<Stmt>, r: Run, defers: Actions, configured: nat)
    requires QuietBody(b, WeightsOf(defers, Item.Calls)) && BegunBody(b, r)
    requires var count := CostBody(b, WeightsOf(defers, Item.Calls)); count < MAX_CALL_COUNTS && count <= configured
    ensures TraceWeight(Trace(r), WeightsOf(defers, Item.Calls)) <= DeferCount(CostBody(b, WeightsOf(defers, Item.Calls)), configured)
  {
    CostIsBound(b, r, WeightsOf(defers, Item.Calls));
  }

  // ---------- Channels made in a run of the channel network ----------

  predicate MakesOne(st: N.Step) { st.GoMove? && st.m.MakeChan? }

  function Makes(steps: seq<N.Step>): nat {
    if steps == [] then 0 else Makes(steps[..|steps| - 1]) + (if MakesOne(steps[|steps| - 1]) then 1 else 0)
  }

  /** The ids that make_chan returned in a run. */
  function MadeIds(run: seq<N.Config>, steps: seq<N.Step>): seq<nat>
    requires N.IsRun(run, steps)
  {
    if steps == [] then []
    else
      var k := |steps| - 1;
      assert N.Next(run[k], steps[k], run[k + 1]);
      assert forall j :: 0 <= j < k ==> N.Next(run[..k + 1][j], steps[..k][j], run[..k + 1][j + 1]) by {
        assert forall j :: 0 <= j < k ==> N.Next(run[j], steps[j], run[j + 1]);
      }
      MadeIds(run[..k + 1], steps[..k])
      + (if MakesOne(steps[k]) then [Id(run[k].count, |run[k].chans|)] else [])
  }

  lemma {:induction false} RunMakes(run: seq<N.Config>, steps: seq<N.Step>)
    requires N.IsRun(run, steps)
    ensures var s := run[|steps|]; var size := |run[0].chans|;
      |s.chans| == size && s.count == Makes(steps) && (s.outOfResources <==> Makes(steps) > size)
      && MadeIds(run, steps) == Ids(Makes(steps), size)
    decreases |steps|
  {
    if steps != [] {
      var k := |steps| - 1;
      assert forall j :: 0 <= j < k ==> N.Next(run[..k + 1][j], steps[..k][j], run[..k + 1][j + 1]) by {
        assert forall j :: 0 <= j < k ==> N.Next(run[j], steps[j], run[j + 1]);
      }
      RunMakes(run[..k + 1], steps[..k]);
      assert N.Next(run[k], steps[k], run[k + 1]);
      StepMakes(run[k], steps[k], run[k + 1]);
    }
  }

  lemma StepMakes(s: N.Config, st: N.Step, s': N.Config)
    requires N.Next(s, st, s')
    ensures |s'.chans| == |s.chans| && s'.count == s.count + (if MakesOne(st) then 1 else 0)
    ensures s'.outOfResources == (s.outOfResources || (MakesOne(st) && s.count >= |s.chans|))
    ensures MakesOne(st) ==> s'.gos[st.g] == N.Running(N.Made(Id(s.count, |s.chans|)))
  {
  }

  // ---------- Processes requested by activations ----------

  /** An activation of f requests a process; the process of the function around f is its parent. */
  datatype Request = Request(f: Func, parent: nat)

  /** How many processes of each function were requested, the parents by process, and the common flag. */
  datatype Pools = Pools(made: map<Func, nat>, parents: map<Func, map<nat, nat>>, outOfResources: bool)

  const EMPTY := Pools(map[], map[], false)

  /** The same allocation as for channels, with a counter for each function; beyond its table nothing is written. */
  function MakeProcess(s: Pools, r: Request, sizes: map<Func, nat>): (Pools, nat) {
    var n := Get(s.made, r.f);
    var made := s.made[r.f := n + 1];
    if n >= Get(sizes, r.f) then (s.(made := made, outOfResources := true), 0)
    else (s.(made := made, parents := s.parents[r.f := ParentsOf(s, r.f)[n := r.parent]]), n)
  }

  function ParentsOf(s: Pools, f: Func): map<nat, nat> { if f in s.parents then s.parents[f] else map[] }

  function AfterRequests(rs: seq<Request>, sizes: map<Func, nat>): Pools {
    if rs == [] then EMPTY else MakeProcess(AfterRequests(rs[..|rs| - 1], sizes), rs[|rs| - 1], sizes).0
  }

  /** The id that request k gets. */
  function PidAt(rs: seq<Request>, sizes: map<Func, nat>, k: nat): nat
    requires k < |rs|
  {
    MakeProcess(AfterRequests(rs[..k], sizes), rs[k], sizes).1
  }

  function Requests(rs: seq<Request>, f: Func): nat {
    if rs == [] then 0 else Requests(rs[..|rs| - 1], f) + (if rs[|rs| - 1].f == f then 1 else 0)
  }

  /** The flag is raised exactly if some function has more requests than entries. */
  lemma {:induction false} FlagExactly(rs: seq<Request>, sizes: map<Func, nat>)
    ensures forall f :: Get(AfterRequests(rs, sizes).made, f) == Requests(rs, f)
    ensures AfterRequests(rs, sizes).outOfResources <==> exists f :: Requests(rs, f) > Get(sizes, f)
    decreases |rs|
  {
    if rs != [] {
      var before, r := rs[..|rs| - 1], rs[|rs| - 1];
      FlagExactly(before, sizes);
      if f :| Requests(before, f) > Get(sizes, f) {
        assert Requests(rs, f) > Get(sizes, f);
      }
      if f :| Requests(rs, f) > Get(sizes, f) {
        assert f == r.f || Requests(before, f) > Get(sizes, f);
      }
      assert Requests(rs, r.f) == Requests(before, r.f) + 1;
    }
  }

  /** Request k has an entry of the table of its function, in which its parent stays. */
  ghost predicate HasEntry(rs: seq<Request>, sizes: map<Func, nat>, k: nat)
    requires k < |rs|
  {
    var pid, parents := PidAt(rs, sizes, k), ParentsOf(AfterRequests(rs, sizes), rs[k].f);
    pid < Get(sizes, rs[k].f) && pid in parents && parents[pid] == rs[k].parent
  }

  /** The requests of f get distinct entries. */
  ghost predicate OwnEntries(rs: seq<Request>, sizes: map<Func, nat>, f: Func) {
    && (forall k :: 0 <= k < |rs| && rs[k].f == f ==> HasEntry(rs, sizes, k))
    && forall i, j :: 0 <= i < j < |rs| && rs[i].f == rs[j].f == f ==> PidAt(rs, sizes, i) != PidAt(rs, sizes, j)
  }

  ghost predicate PidsBelow(rs: seq<Request>, sizes: map<Func, nat>, f: Func) {
    forall k :: 0 <= k < |rs| && rs[k].f == f ==> PidAt(rs, sizes, k) < Requests(rs, f)
  }

  lemma {:induction false} EntriesApart(rs: seq<Request>, sizes: map<Func, nat>, f: Func)
    requires Requests(rs, f) <= Get(sizes, f)
    ensures OwnEntries(rs, sizes, f) && PidsBelow(rs, sizes, f)
    decreases |rs|
  {
    if rs != [] {
      EntriesApart(rs[..|rs| - 1], sizes, f);
      LastRequest(rs, sizes, f);
    }
  }

  lemma LastRequest(rs: seq<Request>, sizes: map<Func, nat>, f: Func)
    requires rs != [] && Requests(rs, f) <= Get(sizes, f)
    requires OwnEntries(rs[..|rs| - 1], sizes, f) && PidsBelow(rs[..|rs| - 1], sizes, f)
    ensures OwnEntries(rs, sizes, f) && PidsBelow(rs, sizes, f)
  {
    hide PidAt, HasEntry, Requests, AfterRequests;
    var n := |rs| - 1;
    RequestsGrow(rs, f);
    forall k | 0 <= k < |rs| && rs[k].f == f
      ensures PidAt(rs, sizes, k) < Requests(rs, f) && HasEntry(rs, sizes, k)
      ensures PidAt(rs, sizes, k) == if k < n then PidAt(rs[..n], sizes, k) else Requests(rs[..n], f)
    {
      if k < n {
        EarlierRequest(rs, sizes, k);
      } else {
        LastEntry(rs, sizes);
      }
    }
  }

  lemma RequestsGrow(rs: seq<Request>, f: Func)
    requires rs != []
    ensures Requests(rs, f) == Requests(rs[..|rs| - 1], f) + (if rs[|rs| - 1].f == f then 1 else 0)
  {
  }

  lemma LastEntry(rs: seq<Request>, sizes: map<Func, nat>)
    requires rs != [] && Requests(rs, rs[|rs| - 1].f) <= Get(sizes, rs[|rs| - 1].f)
    ensures HasEntry(rs, sizes, |rs| - 1) && PidAt(rs, sizes, |rs| - 1) == Requests(rs[..|rs| - 1], rs[|rs| - 1].f)
  {
    FlagExactly(rs[..|rs| - 1], sizes);
    RequestsGrow(rs, rs[|rs| - 1].f);
    hide Requests;
  }

  /** A later request leaves the entry of an earlier one alone. */
  lemma EarlierRequest(rs: seq<Request>, sizes: map<Func, nat>, k: nat)
    requires k < |rs| - 1 && HasEntry(rs[..|rs| - 1], sizes, k)
    requires PidAt(rs[..|rs| - 1], sizes, k) < Requests(rs[..|rs| - 1], rs[k].f)
    ensures PidAt(rs, sizes, k) == PidAt(rs[..|rs| - 1], sizes, k) && HasEntry(rs, sizes, k)
  {
    var before := rs[..|rs| - 1];
    assert before[..k] == rs[..k] && before[k] == rs[k];
    FlagExactly(before, sizes);
    hide Requests;
  }

  // ---------- The whole program ----------

  /** In every run of the channel network that makes no more channels than some run of the program, make_chan
      never raises the flag and returns distinct ids, unless the count of channels reached the cap or was cut
      off. */
  ghost predicate ChannelsSuffice(p: Program, init: Func, makeChan: Op, count: nat, configured: nat) {
    count < MAX_CALL_COUNTS && count <= configured ==>
      forall t, run: seq<N.Config>, steps :: IsProgramRun(p, init, t) && MadeIn(p, t, makeChan, run, steps, TableSize(count, configured)) ==>
        !run[|steps|].outOfResources && Distinct(MadeIds(run, steps))
  }

  ghost predicate MadeIn(p: Program, t: Tree, makeChan: Op, run: seq<N.Config>, steps: seq<N.Step>, size: nat) {
    N.IsRun(run, steps) && |run[0].chans| == size && Makes(steps) <= OpsBy(t, p.bodies.Keys, makeChan)
  }

  /** In every run of the program, in whatever order its activations request their processes: those of a function get
      distinct entries and keep their parents, unless the count of the function reached the cap or was cut off; and if that
      happened to no function, the flag is never raised. */
  ghost predicate ProcessesSuffice(p: Program, init: Func, enclosing: map<Func, Func>, counts: map<Func, nat>, configured: nat) {
    forall t, rs :: IsScopedRun(p, init, enclosing, t) && RequestedIn(p, t, rs) ==>
      && (forall f :: f in p.bodies && Uncut(counts, configured, f) ==> OwnEntries(rs, Sizes(p, counts, configured), f))
      && ((forall f :: f in p.bodies ==> Uncut(counts, configured, f)) ==>
            !AfterRequests(rs, Sizes(p, counts, configured)).outOfResources)
  }

  predicate Uncut(counts: map<Func, nat>, configured: nat, f: Func) {
    Get(counts, f) < MAX_CALL_COUNTS && Get(counts, f) <= configured
  }

  function Sizes(p: Program, counts: map<Func, nat>, configured: nat): map<Func, nat> {
    map f | f in p.bodies :: TableSize(Get(counts, f), configured)
  }

  /** No more processes are requested than there are activations. */
  ghost predicate RequestedIn(p: Program, t: Tree, rs: seq<Request>) {
    && (forall k :: 0 <= k < |rs| ==> rs[k].f in p.bodies)
    && (forall f :: f in p.bodies ==> Requests(rs, f) <= Acts(t, f))
  }

  /** The sizes of the tables of a program. */
  datatype Resources = Resources(channels: nat, processes: map<Func, nat>)

  /** From the bodies of a program to the sizes of its tables. */
  method SizeTables(fcg: FuncCallGraph, p: Program, init: Func, funcs: seq<Func>, enclosing: map<Func, Func>,
                    signatures: map<Func, Signature>, makeChan: Op, maxChannels: nat, maxProcesses: nat)
    returns (resources: Resources)
    requires fcg.Valid() && fcg.isCalleeCounts == map[] && fcg.totalOpCounts == map[]
    requires HasCalls(fcg.callerToCallees, p) && init in p.bodies && Quiet(p) && SignaturesOk(fcg.dynamicCallInfos, signatures)
    requires forall f :: f in funcs ==> f in p.bodies && f in signatures
    requires forall f :: f in enclosing ==> enclosing[f] in p.bodies
    modifies fcg
    ensures resources.channels == TableSize(Get(fcg.totalOpCounts, makeChan), maxChannels)
    ensures resources.processes.Keys == p.bodies.Keys
    ensures forall f :: f in p.bodies ==> resources.processes[f] == TableSize(Get(fcg.isCalleeCounts, f), maxProcesses)
    ensures ChannelsSuffice(p, init, makeChan, Get(fcg.totalOpCounts, makeChan), maxChannels)
    ensures ProcessesSuffice(p, init, enclosing, fcg.isCalleeCounts, maxProcesses)
  {
    hide Acts, OpsBy, Quiet, HasCalls, IsProgramRun, FuncCallGraph.Valid, Within, SignaturesOk, Bounds, ChannelsSuffice, ProcessesSuffice;
    BuildCounts(fcg, p, init, funcs, enclosing, signatures);
    var chanCount := Get(fcg.totalOpCounts, makeChan);
    var processes := map f | f in p.bodies.Keys :: TableSize(Get(fcg.isCalleeCounts, f), maxProcesses);
    resources := Resources(TableSize(chanCount, maxChannels), processes);
    ChannelsFit(p, init, makeChan, chanCount, maxChannels);
    ProcessesFit(p, init, enclosing, fcg.isCalleeCounts, maxProcesses);
  }

  lemma ChannelsFit(p: Program, init: Func, makeChan: Op, count: nat, configured: nat)
    requires forall t :: IsProgramRun(p, init, t) ==> Within(OpsBy(t, p.bodies.Keys, makeChan), count)
    ensures ChannelsSuffice(p, init, makeChan, count, configured)
  {
    hide OpsBy, IsProgramRun, MadeIds, N.Next;
    if count < MAX_CALL_COUNTS && count <= configured {
      var size := TableSize(count, configured);
      forall t, run: seq<N.Config>, steps | IsProgramRun(p, init, t) && MadeIn(p, t, makeChan, run, steps, size)
        ensures !run[|steps|].outOfResources && Distinct(MadeIds(run, steps))
      {
        RunMakes(run, steps);
        RoomEnough(OpsBy(t, p.bodies.Keys, makeChan), count, configured);
        DistinctExactly(Makes(steps), size);
      }
    }
  }

  lemma ProcessesFit(p: Program, init: Func, enclosing: map<Func, Func>, counts: map<Func, nat>, configured: nat)
    requires Bounds(p, init, enclosing, counts)
    ensures ProcessesSuffice(p, init, enclosing, counts, configured)
  {
    hide Acts, IsScopedRun, OwnEntries, AfterRequests, TableSize;
    var sizes := Sizes(p, counts, configured);
    forall t, rs | IsScopedRun(p, init, enclosing, t) && RequestedIn(p, t, rs)
      ensures forall f :: f in p.bodies && Uncut(counts, configured, f) ==> OwnEntries(rs, sizes, f)
      ensures (forall f :: f in p.bodies ==> Uncut(counts, configured, f)) ==> !AfterRequests(rs, sizes).outOfResources
    {
      forall f | f in p.bodies && Uncut(counts, configured, f) ensures OwnEntries(rs, sizes, f) && Requests(rs, f) <= Get(sizes, f) {
        RoomEnough(Acts(t, f), Get(counts, f), configured);
        EntriesApart(rs, sizes, f);
      }
      FlagExactly(rs, sizes);
      forall f | f !in p.bodies ensures Requests(rs, f) == 0 {
        NotRequested(rs, f);
      }
    }
  }

  lemma {:induction false} NotRequested(rs: seq<Request>, f: Func)
    requires forall k :: 0 <= k < |rs| ==> rs[k].f != f
    ensures Requests(rs, f) == 0
    decreases |rs|
  {
    if rs != [] {
      NotRequested(rs[..|rs| - 1], f);
    }
  }
}
