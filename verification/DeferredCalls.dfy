/** Deferred calls, panics and recovers: what they mean in Go, and the processes that are generated for them. */
module DeferredCalls {

  /** What an activation does, one event after the other, with the activations it starts. */
  datatype Event = Does(label_: nat) | Calls(callee: Body) | Defers(callee: Body) | Recovers | Panics

  /** The events of an activation, and the number of entries its process has for deferred calls. */
  datatype Body = Body(events: seq<Event>, deferCount: nat)

  // ---------- The meaning in Go ----------

  /** An activation on the way: the labels passed, whether it panics, whether it called recover, and the calls
      it deferred. */
  datatype State = State(trace: seq<nat>, panicking: bool, recovers: bool, deferred: seq<Body>)

  /** An activation that is over: whether it ends with a panic of its own, and whether it called recover. */
  datatype Result = Result(trace: seq<nat>, panics: bool, recovers: bool)

  const START := State([], false, false, [])

  function SizeBody(b: Body): nat { SizeEvents(b.events) }

  function SizeEvents(es: seq<Event>): nat {
    if es == [] then 0 else SizeEvent(es[0]) + SizeEvents(es[1..])
  }

  function SizeAll(bs: seq<Body>): nat { if bs == [] then 0 else 1 + SizeBody(bs[|bs| - 1]) + SizeAll(bs[..|bs| - 1]) }

  /** A panic, or a call that panics, ends the events. */
  function RunEvents(es: seq<Event>, st: State): (st': State)
    ensures SizeAll(st'.deferred) <= SizeAll(st.deferred) + SizeEvents(es)
    decreases SizeEvents(es), 1, |es|
  {
    if es == [] || st.panicking then st
    else RunEvents(es[1..], Step(es[0], st))
  }

  function SizeEvent(e: Event): nat { match e case Calls(b) => 1 + SizeBody(b) case Defers(b) => 1 + SizeBody(b) case _ => 0 }

  function Step(e: Event, st: State): (st': State)
    ensures SizeAll(st'.deferred) <= SizeAll(st.deferred) + SizeEvent(e)
    decreases SizeEvent(e), 0
  {
    match e
    case Does(l) => st.(trace := st.trace + [l])
    case Calls(b) => var r := RunBody(b); st.(trace := st.trace + r.trace, panicking := r.panics)
    case Defers(b) =>
      assert (st.deferred + [b])[..|st.deferred|] == st.deferred;
      st.(deferred := st.deferred + [b])
    case Recovers => st.(recovers := true)
    case Panics => st.(panicking := true)
  }

  /** The deferred calls are made last first; a recover of one stops the panic so far, a panic of one starts one. */
  function RunDeferred(bs: seq<Body>, panicking: bool): (r: Result)
    decreases SizeAll(bs), 0
  {
    if bs == [] then Result([], panicking, false)
    else
      var last := RunBody(bs[|bs| - 1]);
      var rest := RunDeferred(bs[..|bs| - 1], last.panics || (panicking && !last.recovers));
      Result(last.trace + rest.trace, rest.panics, false)
  }

  function RunBody(b: Body): (r: Result)
    decreases SizeBody(b), 2
  {
    var st := RunEvents(b.events, START);
    var d := RunDeferred(st.deferred, st.panicking);
    Result(st.trace + d.trace, d.panics, st.recovers)
  }

  /** The traces of the deferred calls, the last one first. */
  function ReverseTraces(bs: seq<Body>): seq<nat> {
    if bs == [] then [] else ReverseTraces(bs[1..]) + RunBody(bs[0]).trace
  }

  /** Every deferred call is made once, in reverse order, whoever panics or recovers. */
  lemma {:induction false} DeferredInReverse(bs: seq<Body>, panicking: bool)
    ensures RunDeferred(bs, panicking).trace == ReverseTraces(bs)
    decreases |bs|
  {
    if bs != [] {
      var n := |bs| - 1;
      var last := RunBody(bs[n]);
      DeferredInReverse(bs[..n], last.panics || (panicking && !last.recovers));
      LastFirst(bs[..n], bs[n]);
      assert bs[..n] + [bs[n]] == bs;
    }
  }

  lemma {:induction false} LastFirst(bs: seq<Body>, b: Body)
    ensures ReverseTraces(bs + [b]) == RunBody(b).trace + ReverseTraces(bs)
  {
    if bs == [] {
      assert bs + [b] == [b] && [b][1..] == [];
    } else {
      assert (bs + [b])[1..] == bs[1..] + [b];
      LastFirst(bs[1..], b);
    }
  }

  /** The calls before call k recover nothing. */
  predicate NoRecover(bs: seq<Body>, k: nat) { forall j :: 0 <= j < k && j < |bs| ==> !RunBody(bs[j]).recovers }

  /** Call k panics, and no call made after it, which stands before it, recovers. */
  predicate Unrecovered(bs: seq<Body>, k: nat) { k < |bs| && RunBody(bs[k]).panics && NoRecover(bs, k) }

  /** The activation ends with a panic exactly if some panic, its own or of a deferred call, is followed by no
      deferred call that recovers. */
  lemma {:induction false} PanicsExactly(bs: seq<Body>, panicking: bool)
    ensures RunDeferred(bs, panicking).panics <==> (panicking && NoRecover(bs, |bs|)) || exists k :: Unrecovered(bs, k)
    decreases |bs|
  {
    hide RunBody, RunDeferred, NoRecover, Unrecovered;
    if bs == [] {
      NoneRun(bs, panicking);
    } else {
      var n := |bs| - 1;
      var last, front := RunBody(bs[n]), bs[..n];
      LastRun(bs, panicking);
      PanicsExactly(front, last.panics || (panicking && !last.recovers));
      LastNoRecover(bs);
      if k :| Unrecovered(front, k) {
        FrontUnrecovered(bs, k);
      }
      if k :| Unrecovered(bs, k) {
        FrontUnrecovered(bs, k);
      }
      LastUnrecovered(bs);
    }
  }

  lemma NoneRun(bs: seq<Body>, panicking: bool)
    requires bs == []
    ensures RunDeferred(bs, panicking).panics == panicking && NoRecover(bs, |bs|) && forall k :: !Unrecovered(bs, k)
  {
  }

  lemma LastRun(bs: seq<Body>, panicking: bool)
    requires bs != []
    ensures var n := |bs| - 1; var last := RunBody(bs[n]);
            RunDeferred(bs, panicking).panics == RunDeferred(bs[..n], last.panics || (panicking && !last.recovers)).panics
  {
    hide RunBody;
  }

  lemma LastNoRecover(bs: seq<Body>)
    requires bs != []
    ensures var n := |bs| - 1; NoRecover(bs, |bs|) <==> NoRecover(bs[..n], n) && !RunBody(bs[n]).recovers
  {
    hide RunBody;
    var n := |bs| - 1;
    assert forall j :: 0 <= j < n ==> bs[..n][j] == bs[j];
  }

  lemma FrontUnrecovered(bs: seq<Body>, k: nat)
    requires bs != []
    ensures k < |bs| - 1 ==> (Unrecovered(bs[..|bs| - 1], k) <==> Unrecovered(bs, k))
    ensures Unrecovered(bs, k) ==> k < |bs|
    ensures Unrecovered(bs[..|bs| - 1], k) ==> k < |bs| - 1
  {
    hide RunBody;
    assert forall j :: 0 <= j < |bs| - 1 ==> bs[..|bs| - 1][j] == bs[j];
  }

  lemma LastUnrecovered(bs: seq<Body>)
    requires bs != []
    ensures var n := |bs| - 1; Unrecovered(bs, n) <==> RunBody(bs[n]).panics && NoRecover(bs[..n], n)
  {
    hide RunBody;
    var n := |bs| - 1;
    assert forall j :: 0 <= j < n ==> bs[..n][j] == bs[j];
  }

  // ---------- What an activation comes to ----------

  /** The labels an event passes. */
  function Labels(e: Event): seq<nat> {
    match e
    case Does(l) => [l]
    case Calls(b) => RunBody(b).trace
    case _ => []
  }

  /** A panic, or a call that ends with one, stops the activation. */
  predicate Stops(e: Event) { e.Panics? || (e.Calls? && RunBody(e.callee).panics) }

  /** Event n is the first that stops the activation, or none does and n is the end. */
  predicate FirstStop(es: seq<Event>, n: nat) {
    n <= |es| && (forall i :: 0 <= i < n ==> !Stops(es[i])) && (n < |es| ==> Stops(es[n]))
  }

  function AllLabels(es: seq<Event>): seq<nat> { if es == [] then [] else Labels(es[0]) + AllLabels(es[1..]) }

  /** The callees that are deferred, in order. */
  function DeferredBy(es: seq<Event>): seq<Body> {
    if es == [] then [] else (if es[0].Defers? then [es[0].callee] else []) + DeferredBy(es[1..])
  }

  predicate Recovering(es: seq<Event>) { exists i :: 0 <= i < |es| && es[i].Recovers? }

  /** The events up to the first that stops the activation, with what that one passes before it does. */
  function UpTo(es: seq<Event>, n: nat): seq<Event>
    requires n <= |es|
  {
    if n < |es| then es[..n + 1] else es
  }

  /** Events are run up to the first that stops the activation: it panics exactly if there is one, and nothing behind it
      is passed, deferred or recovered. */
  lemma {:induction false} EventsRun(es: seq<Event>, st: State, n: nat)
    requires !st.panicking && FirstStop(es, n)
    ensures var st1 := RunEvents(es, st);
            && (st1.panicking <==> n < |es|)
            && st1.trace == st.trace + AllLabels(UpTo(es, n))
            && st1.deferred == st.deferred + DeferredBy(es[..n])
            && (st1.recovers <==> st.recovers || Recovering(es[..n]))
    decreases |es|
  {
    hide RunBody, Step, RunEvents, AllLabels, DeferredBy, Recovering, UpTo, Labels, FirstStop, Stops;
    if es == [] {
      NoEvents(es, n, st);
    } else if n == 0 {
      assert Stops(es[0]) by { StopsFirst(es); }
      StopsAtOnce(es, st);
    } else {
      FirstStopLater(es, n);
      EventPassed(es[0], st);
      RunsOn(es, st);
      FirstPart(es, n);
      EventsRun(es[1..], Step(es[0], st), n - 1);
    }
  }

  lemma NoEvents(es: seq<Event>, n: nat, st: State)
    requires es == [] && FirstStop(es, n)
    ensures n == 0 && AllLabels(UpTo(es, n)) == [] && DeferredBy(es[..n]) == [] && !Recovering(es[..n]) && RunEvents(es, st) == st
  {
    assert es[..n] == [] && UpTo(es, n) == [];
  }

  lemma StopsFirst(es: seq<Event>)
    requires es != [] && FirstStop(es, 0)
    ensures Stops(es[0])
  {
  }

  lemma RunsOn(es: seq<Event>, st: State)
    requires es != [] && !st.panicking
    ensures RunEvents(es, st) == RunEvents(es[1..], Step(es[0], st))
  {
    hide Step;
  }

  /** The first event and those behind it. */
  lemma FirstPart(es: seq<Event>, n: nat)
    requires 0 < n <= |es|
    ensures AllLabels(UpTo(es, n)) == Labels(es[0]) + AllLabels(UpTo(es[1..], n - 1))
    ensures DeferredBy(es[..n]) == (if es[0].Defers? then [es[0].callee] else []) + DeferredBy(es[1..][..n - 1])
    ensures Recovering(es[..n]) <==> es[0].Recovers? || Recovering(es[1..][..n - 1])
  {
    hide Labels;
    var later := es[1..][..n - 1];
    assert es[..n][0] == es[0] && es[..n][1..] == later;
    assert UpTo(es, n)[0] == es[0] && UpTo(es, n)[1..] == UpTo(es[1..], n - 1);
    if i :| 0 <= i < |later| && later[i].Recovers? {
      assert es[..n][i + 1].Recovers?;
    }
    if i :| 0 <= i < |es[..n]| && es[..n][i].Recovers? {
      assert i > 0 ==> later[i - 1].Recovers?;
    }
    if es[0].Recovers? {
      assert es[..n][0].Recovers?;
    }
  }

  lemma FirstStopLater(es: seq<Event>, n: nat)
    requires FirstStop(es, n) && n > 0
    ensures FirstStop(es[1..], n - 1) && !Stops(es[0])
  {
  }

  lemma StopsAtOnce(es: seq<Event>, st: State)
    requires !st.panicking && es != [] && Stops(es[0])
    ensures var st1 := RunEvents(es, st);
            && st1.panicking && st1.trace == st.trace + AllLabels(UpTo(es, 0)) && st1.deferred == st.deferred && st1.recovers == st.recovers
    ensures DeferredBy(es[..0]) == [] && !Recovering(es[..0])
  {
    assert UpTo(es, 0) == [es[0]] && [es[0]][1..] == [];
    StopPassed(es[0], st);
    RunsOn(es, st);
    hide RunBody, Step;
  }

  lemma StopPassed(e: Event, st: State)
    requires !st.panicking && Stops(e)
    ensures var st1 := Step(e, st);
            && st1.panicking && st1.trace == st.trace + Labels(e) && st1.recovers == st.recovers && st1.deferred == st.deferred
  {
    hide RunEvents, RunDeferred, SizeAll;
    if e.Panics? { assert st.trace + [] == st.trace; }
  }

  lemma EventPassed(e: Event, st: State)
    requires !st.panicking && !Stops(e)
    ensures var st1 := Step(e, st);
            && !st1.panicking && st1.trace == st.trace + Labels(e) && (st1.recovers <==> st.recovers || e.Recovers?)
            && st1.deferred == st.deferred + (if e.Defers? then [e.callee] else [])
  {
    hide RunEvents, RunDeferred, SizeAll;
    assert st.trace + [] == st.trace && st.deferred + [] == st.deferred;
  }

  /** An activation passes its events up to the first that stops it and then what it has deferred, last first; it ends with a
      panic exactly if some panic, its own or of a deferred call, is followed by no deferred call that recovers. */
  lemma ActivationRuns(b: Body, n: nat)
    requires FirstStop(b.events, n)
    ensures var r, ds := RunBody(b), DeferredBy(b.events[..n]);
            && r.trace == AllLabels(UpTo(b.events, n)) + ReverseTraces(ds)
            && (r.panics <==> (n < |b.events| && NoRecover(ds, |ds|)) || exists k :: Unrecovered(ds, k))
            && (r.recovers <==> Recovering(b.events[..n]))
  {
    hide RunEvents, RunDeferred, UpTo, AllLabels, DeferredBy, Recovering, ReverseTraces, NoRecover, Unrecovered;
    var st := RunEvents(b.events, START);
    EventsRun(b.events, START, n);
    ActivationEnds(b);
    assert st.deferred == DeferredBy(b.events[..n]) && [] + AllLabels(UpTo(b.events, n)) == AllLabels(UpTo(b.events, n));
    DeferredInReverse(st.deferred, st.panicking);
    PanicsExactly(st.deferred, st.panicking);
  }

  lemma ActivationEnds(b: Body)
    ensures var st := RunEvents(b.events, START); var d := RunDeferred(st.deferred, st.panicking);
            RunBody(b) == Result(st.trace + d.trace, d.panics, st.recovers)
  {
    hide RunEvents, RunDeferred;
  }

  /** There is such an event, or none stops. */
  lemma {:induction false} SomeFirstStop(es: seq<Event>) returns (n: nat)
    ensures FirstStop(es, n)
  {
    if es == [] || Stops(es[0]) {
      n := 0;
    } else {
      var m := SomeFirstStop(es[1..]);
      n := m + 1;
      assert forall i :: 0 < i < n ==> es[i] == es[1..][i - 1];
    }
  }

  // ---------- The generated processes ----------

  /** The calls deferred by the activation itself, as written. */
  function DefersIn(es: seq<Event>): nat {
    if es == [] then 0 else (if es[0].Defers? then 1 else 0) + DefersIn(es[1..])
  }

  /** Every process has an entry for each call it may defer. */
  predicate Enough(b: Body) { DefersIn(b.events) <= b.deferCount && EnoughIn(b.events) }

  predicate EnoughIn(es: seq<Event>) {
    es == [] || (EnoughAt(es[0]) && EnoughIn(es[1..]))
  }

  predicate EnoughAt(e: Event) { match e case Calls(b) => Enough(b) case Defers(b) => Enough(b) case _ => true }

  /** The variables of one process: its own panic flag and the calls it has deferred. */
  class Process {
    var internalPanic: bool
    var deferredCount: nat
    const deferredFid: array<Body>
    const deferredPid: array<nat>

    ghost predicate Valid()
      reads this
    {
      deferredCount <= deferredFid.Length == deferredPid.Length
    }

    ghost function Deferred(): seq<Body>
      requires Valid()
      reads this, deferredFid
    {
      deferredFid[..deferredCount]
    }

    ghost function Pids(): seq<nat>
      requires Valid()
      reads this, deferredPid
    {
      deferredPid[..deferredCount]
    }

    constructor (b: Body)
      ensures Valid() && fresh(deferredFid) && fresh(deferredPid)
      ensures !internalPanic && Deferred() == [] && Pids() == [] && deferredFid.Length == b.deferCount
    {
      internalPanic, deferredCount := false, 0;
      deferredFid, deferredPid := new Body[b.deferCount](_ => b), new nat[b.deferCount](_ => 0);
    }

    method Push(b: Body, pid: nat)
      requires Valid() && deferredCount < deferredFid.Length
      modifies this, deferredFid, deferredPid
      ensures Valid() && internalPanic == old(internalPanic)
      ensures Deferred() == old(Deferred()) + [b] && Pids() == old(Pids()) + [pid]
    {
      deferredFid[deferredCount] := b;
      deferredPid[deferredCount] := pid;
      deferredCount := deferredCount + 1;
    }
  }

  /** The processes of deferred calls are different ones, none of them the deferring one. */
  ghost predicate PidsOk(pids: seq<nat>, pid: nat, count: nat) {
    && (forall k :: 0 <= k < |pids| ==> pids[k] < count && pids[k] != pid)
    && (forall k, l :: 0 <= k < l < |pids| ==> pids[k] != pids[l])
  }

  /** The processes that deferred calls will need. */
  function Later(bs: seq<Body>): nat { if bs == [] then 0 else SizeBody(bs[|bs| - 1]) + Later(bs[..|bs| - 1]) }

  lemma LaterMore(bs: seq<Body>, b: Body)
    ensures Later(bs + [b]) == Later(bs) + SizeBody(b)
  {
    assert (bs + [b])[..|bs|] == bs;
  }

  ghost predicate AllEnough(bs: seq<Body>) { forall k :: 0 <= k < |bs| ==> Enough(bs[k]) }

  /** The processes that exist, the flags through which callers and callees pass panics on, and the labels
      passed so far. */
  class Processes {
    var count: nat
    const externalPanic: array<bool>
    var trace: seq<nat>

    ghost predicate Valid()
      reads this
    {
      count <= externalPanic.Length
    }

    constructor (size: nat)
      ensures Valid() && count == 0 && externalPanic.Length == size && trace == [] && fresh(externalPanic)
    {
      count, trace := 0, [];
      externalPanic := new bool[size];
    }

    method Make() returns (pid: nat)
      requires Valid() && count < externalPanic.Length
      modifies this, externalPanic
      ensures Valid() && pid == old(count) && count == old(count) + 1 && trace == old(trace)
      ensures forall q :: 0 <= q < externalPanic.Length ==> externalPanic[q] == (q != pid && old(externalPanic[q]))
    {
      pid := count;
      count := count + 1;
      externalPanic[pid] := false;
    }

    /** Runs process pid from its start to its end. Its flag then says whether the caller panics after the call:
        the callee ended with a panic of its own, or the caller panicked before and the callee called no recover. */
    method Run(pid: nat, b: Body)
      requires Valid() && pid < count && Enough(b) && count + SizeBody(b) <= externalPanic.Length
      modifies this, externalPanic
      ensures Valid() && old(count) <= count <= old(count) + SizeBody(b)
      ensures forall q :: 0 <= q < old(count) && q != pid ==> externalPanic[q] == old(externalPanic[q])
      ensures trace == old(trace) + RunBody(b).trace
      ensures externalPanic[pid] == (RunBody(b).panics || (old(externalPanic[pid]) && !RunBody(b).recovers))
      decreases SizeBody(b), 2
    {
      hide RunEvents, RunDeferred, SizeEvents, SizeAll, Enough, PidsOk, Later;
      var proc := new Process(b);
      ghost var st := RunEvents(b.events, START);
      RunAll(pid, b, proc);
      DeferredSmaller(b);
      RunDeferredCalls(pid, proc, st.deferred, st.panicking, b);
      externalPanic[pid] := externalPanic[pid] || proc.internalPanic;
    }

    /** The events of the body up to its end or the first panic. */
    method RunAll(pid: nat, b: Body, proc: Process)
      requires Valid() && pid < count && Enough(b) && count + SizeBody(b) <= externalPanic.Length
      requires proc.Valid() && !proc.internalPanic && proc.Deferred() == [] && proc.Pids() == [] && proc.deferredFid.Length == b.deferCount
      modifies this, externalPanic, proc, proc.deferredFid, proc.deferredPid
      ensures Valid() && proc.Valid() && old(count) <= count
      ensures var st := RunEvents(b.events, START);
              && count + Later(st.deferred) <= old(count) + SizeBody(b) && trace == old(trace) + st.trace
              && proc.internalPanic == st.panicking && proc.Deferred() == st.deferred && AllEnough(st.deferred)
              && externalPanic[pid] == (old(externalPanic[pid]) && !st.recovers)
      ensures PidsOk(proc.Pids(), pid, count) && forall k :: 0 <= k < |proc.Pids()| ==> proc.Pids()[k] >= old(count)
      ensures forall q :: 0 <= q < old(count) && q != pid ==> externalPanic[q] == old(externalPanic[q])
      decreases SizeBody(b), 1
    {
      hide RunEvents, Step, SizeEvent, SizeAll, Enough, EnoughAt, Later, PidsOk;
      ghost var st := START;
      var i := 0;
      BodyStarts(b, pid, count);
      assert old(trace) + [] == old(trace);
      while i < |b.events| && !proc.internalPanic
        invariant i <= |b.events| && Valid() && proc.Valid() && proc.deferredFid.Length == b.deferCount
        invariant RunEvents(b.events[i..], st) == RunEvents(b.events, START)
        invariant EnoughIn(b.events[i..]) && |st.deferred| + DefersIn(b.events[i..]) <= b.deferCount
        invariant old(count) <= count && count + Later(st.deferred) + SizeEvents(b.events[i..]) <= old(count) + SizeBody(b)
        invariant proc.internalPanic == st.panicking && proc.Deferred() == st.deferred && trace == old(trace) + st.trace
        invariant PidsOk(proc.Pids(), pid, count) && AllEnough(st.deferred)
        invariant forall k :: 0 <= k < |proc.Pids()| ==> proc.Pids()[k] >= old(count)
        invariant forall q :: 0 <= q < old(count) && q != pid ==> externalPanic[q] == old(externalPanic[q])
        invariant externalPanic[pid] == (old(externalPanic[pid]) && !st.recovers)
        decreases |b.events| - i
      {
        EventAt(b, i, st);
        Execute(pid, b.events[i], proc, st);
        st := Step(b.events[i], st);
        i := i + 1;
      }
      EventsOver(b, i, st);
    }

    method Execute(pid: nat, e: Event, proc: Process, ghost st: State)
      requires Valid() && pid < count && EnoughAt(e) && count + SizeEvent(e) <= externalPanic.Length
      requires proc.Valid() && !proc.internalPanic && !st.panicking && proc.Deferred() == st.deferred
      requires e.Defers? ==> proc.deferredCount < proc.deferredFid.Length
      requires PidsOk(proc.Pids(), pid, count) && AllEnough(st.deferred)
      modifies this, externalPanic, proc, proc.deferredFid, proc.deferredPid
      ensures Valid() && proc.Valid() && old(count) <= count
      ensures var st1 := Step(e, st);
              && proc.internalPanic == st1.panicking && proc.Deferred() == st1.deferred && AllEnough(st1.deferred)
              && count + Later(st1.deferred) <= old(count) + Later(st.deferred) + SizeEvent(e)
      ensures trace == old(trace) + Labels(e)
      ensures PidsOk(proc.Pids(), pid, count) && |old(proc.Pids())| <= |proc.Pids()|
      ensures forall k :: 0 <= k < |proc.Pids()| ==>
                if k < |old(proc.Pids())| then proc.Pids()[k] == old(proc.Pids())[k] else proc.Pids()[k] >= old(count)
      ensures forall q :: 0 <= q < old(count) && q != pid ==> externalPanic[q] == old(externalPanic[q])
      ensures externalPanic[pid] == (!e.Recovers? && old(externalPanic[pid]))
      decreases SizeEvent(e), 0
    {
      hide RunBody, RunEvents, RunDeferred, SizeBody, SizeAll, Enough, EnoughIn, Later;
      match e
      case Does(l) => trace := trace + [l];
      case Calls(b) =>
        var p := Make();
        Run(p, b);
        if externalPanic[p] {
          proc.internalPanic := true;
        }
      case Defers(b) =>
        LaterMore(st.deferred, b);
        var p := Make();
        proc.Push(b, p);
      case Recovers => externalPanic[pid] := false;
      case Panics => proc.internalPanic := true;
    }

    /** The deferred call on top of the stack. */
    method RunLastDeferred(pid: nat, proc: Process, ghost b: Body)
      requires Valid() && pid < count && proc.Valid() && proc.deferredCount > 0
      requires var n := proc.deferredCount - 1;
               && proc.Pids()[n] < count && proc.Pids()[n] != pid && Enough(proc.Deferred()[n])
               && count + SizeBody(proc.Deferred()[n]) <= externalPanic.Length && SizeBody(proc.Deferred()[n]) < SizeBody(b)
      modifies this, externalPanic, proc
      ensures Valid() && proc.Valid() && proc.deferredCount == old(proc.deferredCount) - 1
      ensures proc.Deferred() == old(proc.Deferred())[..proc.deferredCount] && proc.Pids() == old(proc.Pids())[..proc.deferredCount]
      ensures var callee := old(proc.Deferred())[proc.deferredCount];
              && trace == old(trace) + RunBody(callee).trace && old(count) <= count <= old(count) + SizeBody(callee)
              && proc.internalPanic == (RunBody(callee).panics || (old(proc.internalPanic) && !RunBody(callee).recovers))
      ensures forall q :: 0 <= q < old(count) && q != old(proc.Pids())[proc.deferredCount] ==> externalPanic[q] == old(externalPanic[q])
      decreases SizeBody(b), 0
    {
      hide RunBody, SizeBody, Enough;
      var fid, dpid := proc.deferredFid[proc.deferredCount - 1], proc.deferredPid[proc.deferredCount - 1];
      externalPanic[dpid] := proc.internalPanic;
      Run(dpid, fid);
      proc.internalPanic := externalPanic[dpid];
      proc.deferredCount := proc.deferredCount - 1;
    }

    /** The deferred calls from the last one on. */
    method RunDeferredCalls(pid: nat, proc: Process, ghost bs: seq<Body>, ghost panicking: bool, ghost b: Body)
      requires Valid() && pid < count && proc.Valid() && proc.Deferred() == bs && proc.internalPanic == panicking
      requires AllEnough(bs) && PidsOk(proc.Pids(), pid, count) && count + Later(bs) <= externalPanic.Length
      requires SizeAll(bs) <= SizeBody(b)
      modifies this, externalPanic, proc
      ensures Valid() && old(count) <= count <= old(count) + Later(bs)
      ensures trace == old(trace) + RunDeferred(bs, panicking).trace && proc.internalPanic == RunDeferred(bs, panicking).panics
      ensures forall q :: 0 <= q < old(count) && q !in old(proc.Pids()) ==> externalPanic[q] == old(externalPanic[q])
      decreases SizeBody(b), 1
    {
      hide RunBody, RunDeferred, SizeBody, SizeAll, Enough, Later, PidsOk, AllEnough, Remains;
      ghost var pids := proc.Pids();
      AllRemain(bs, pids, panicking, trace);
      while proc.deferredCount > 0
        invariant Valid() && proc.Valid() && proc.deferredCount <= |bs|
        invariant Remains(bs, pids, panicking, old(trace), proc.Deferred(), proc.Pids(), proc.internalPanic, trace)
        invariant old(count) <= count <= old(count) + Later(bs) - Later(proc.Deferred())
        invariant forall q :: 0 <= q < old(count) && q !in pids ==> externalPanic[q] == old(externalPanic[q])
        decreases proc.deferredCount
      {
        ghost var rest, restPids := proc.Deferred(), proc.Pids();
        CalleeAt(bs, pids, panicking, old(trace), rest, restPids, proc.internalPanic, trace, pid, old(count));
        RunLastDeferred(pid, proc, b);
      }
      NoneRemains(bs, pids, panicking, old(trace), proc.internalPanic, trace);
    }
  }

  /** The calls that remain, and what has been passed so far, make up the whole. */
  ghost predicate Remains(bs: seq<Body>, pids: seq<nat>, panicking: bool, trace0: seq<nat>,
                          rest: seq<Body>, restPids: seq<nat>, panics: bool, trace: seq<nat>)
  {
    && |rest| == |restPids| <= |bs| == |pids| && rest == bs[..|rest|] && restPids == pids[..|rest|]
    && trace + RunDeferred(rest, panics).trace == trace0 + RunDeferred(bs, panicking).trace
    && RunDeferred(rest, panics).panics == RunDeferred(bs, panicking).panics
  }

  lemma AllRemain(bs: seq<Body>, pids: seq<nat>, panicking: bool, trace: seq<nat>)
    requires |bs| == |pids|
    ensures Remains(bs, pids, panicking, trace, bs, pids, panicking, trace)
  {
    hide RunDeferred;
    assert bs[..|bs|] == bs && pids[..|bs|] == pids;
  }

  lemma NoneRemains(bs: seq<Body>, pids: seq<nat>, panicking: bool, trace0: seq<nat>, panics: bool, trace: seq<nat>)
    requires Remains(bs, pids, panicking, trace0, [], [], panics, trace)
    ensures trace == trace0 + RunDeferred(bs, panicking).trace && panics == RunDeferred(bs, panicking).panics && Later([]) == 0
  {
    NoneDeferred(bs, panics);
    hide RunDeferred;
    assert trace + [] == trace;
  }

  /** The last call that remains, and what remains behind it. */
  lemma CalleeAt(bs: seq<Body>, pids: seq<nat>, panicking: bool, trace0: seq<nat>, rest: seq<Body>, restPids: seq<nat>,
                 panics: bool, trace: seq<nat>, pid: nat, count: nat)
    requires rest != [] && Remains(bs, pids, panicking, trace0, rest, restPids, panics, trace)
    requires AllEnough(bs) && PidsOk(pids, pid, count)
    ensures var n := |rest| - 1; var callee := rest[n]; var last := RunBody(callee);
            && Enough(callee) && restPids[n] < count && restPids[n] != pid && restPids[n] in pids
            && Later(rest) == Later(rest[..n]) + SizeBody(callee) && Later(rest) <= Later(bs) && SizeBody(callee) < SizeAll(bs)
            && Remains(bs, pids, panicking, trace0, rest[..n], restPids[..n], last.panics || (panics && !last.recovers), trace + last.trace)
  {
    var n := |rest| - 1;
    assert rest == bs[..n + 1] && rest[n] == bs[n] && restPids[n] == pids[n] && rest[..n] == bs[..n] && restPids[..n] == pids[..n];
    DeferredAt(bs, n, panics);
    hide RunBody, RunDeferred, Later, SizeBody, SizeAll, Enough;
    var last := RunBody(bs[n]);
    var r := RunDeferred(bs[..n], last.panics || (panics && !last.recovers));
    assert trace + (last.trace + r.trace) == (trace + last.trace) + r.trace;
  }

  /** The last of the deferred calls and those before it. */
  lemma DeferredAt(bs: seq<Body>, n: nat, panicking: bool)
    requires n < |bs|
    ensures var last, front := RunBody(bs[n]), bs[..n];
            && RunDeferred(bs[..n + 1], panicking).trace == last.trace + RunDeferred(front, last.panics || (panicking && !last.recovers)).trace
            && RunDeferred(bs[..n + 1], panicking).panics == RunDeferred(front, last.panics || (panicking && !last.recovers)).panics
    ensures Later(bs[..n + 1]) == Later(bs[..n]) + SizeBody(bs[n]) && Later(bs[..n + 1]) <= Later(bs) && SizeBody(bs[n]) < SizeAll(bs)
  {
    assert bs[..n + 1][..n] == bs[..n] && bs[..n + 1][n] == bs[n];
    PartSmaller(bs, n);
  }

  lemma {:induction false} PartSmaller(bs: seq<Body>, n: nat)
    requires n < |bs|
    ensures Later(bs[..n + 1]) <= Later(bs) && SizeBody(bs[n]) < SizeAll(bs)
    decreases |bs|
  {
    if n + 1 == |bs| {
      assert bs[..n + 1] == bs;
    } else {
      var front := bs[..|bs| - 1];
      assert front[..n + 1] == bs[..n + 1] && front[n] == bs[n];
      PartSmaller(front, n);
    }
  }

  lemma NoneDeferred(bs: seq<Body>, panicking: bool)
    ensures bs[..0] == [] && Later([]) == 0 && RunDeferred([], panicking) == Result([], panicking, false)
  {
  }

  lemma DeferredSmaller(b: Body)
    ensures SizeAll(RunEvents(b.events, START).deferred) <= SizeBody(b)
  {
  }

  lemma BodyStarts(b: Body, pid: nat, count: nat)
    requires Enough(b)
    ensures PidsOk([], pid, count)
    ensures b.events[0..] == b.events && Later([]) == 0 && SizeBody(b) == SizeEvents(b.events)
    ensures EnoughIn(b.events) && DefersIn(b.events) <= b.deferCount
  {
  }

  lemma EventAt(b: Body, i: nat, st: State)
    requires i < |b.events| && !st.panicking && EnoughIn(b.events[i..])
    ensures var e := b.events[i];
            && RunEvents(b.events[i..], st) == RunEvents(b.events[i + 1..], Step(e, st))
            && EnoughAt(e) && EnoughIn(b.events[i + 1..])
            && DefersIn(b.events[i..]) == (if e.Defers? then 1 else 0) + DefersIn(b.events[i + 1..])
            && SizeEvents(b.events[i..]) == SizeEvent(e) + SizeEvents(b.events[i + 1..])
            && SizeEvent(e) <= SizeBody(b)
            && Step(e, st).trace == st.trace + Labels(e) && Step(e, st).recovers == (st.recovers || e.Recovers?)
            && Step(e, st).deferred == (if e.Defers? then st.deferred + [e.callee] else st.deferred)
  {
    assert b.events[i..][0] == b.events[i] && b.events[i..][1..] == b.events[i + 1..];
    EventSmaller(b.events, i);
  }

  lemma {:induction false} EventSmaller(es: seq<Event>, i: nat)
    requires i < |es|
    ensures SizeEvent(es[i]) <= SizeEvents(es)
  {
    if i > 0 {
      EventSmaller(es[1..], i - 1);
    }
  }

  lemma EventsOver(b: Body, i: nat, st: State)
    requires i <= |b.events| && (i == |b.events| || st.panicking)
    ensures RunEvents(b.events[i..], st) == st
  {
  }
}
