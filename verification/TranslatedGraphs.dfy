/** The graphs that the translator builds satisfy the condition of the reduction, so reducing them is harmless. */
module TranslatedGraphs {
  import opened UppaalGraphs
  import opened ReducerBackward
  import opened ReducerPass
  import opened ReducerConditions
  import C = ChannelAutomaton
  import M = Mutexes
  import W = WaitGroups

  // ---------- Handshakes of committed locations ----------

  /** The handshakes that some committed location takes part in: channels confirm, a polling select triggers,
      and a mutex that lets readers in or passes from readers to a writer awaits them. */
  const OFFERS: set<(string, bool)> :=
    {("sender_confirm", true), ("receiver_confirm", true), ("sender_trigger", true), ("receiver_trigger", true),
     ("read_lock", false), ("write_lock", false)}

  predicate IsOffered(e: Edge) { e.act.sync.Some? && (e.act.sync.value.family, e.act.sync.value.emits) in OFFERS }

  /** The other half of the handshake may be offered by a committed location. */
  predicate MayHurry(e: Edge) { e.act.sync.Some? && (e.act.sync.value.family, !e.act.sync.value.emits) in OFFERS }

  ghost predicate OffersOnly(g: Graph) {
    forall e :: e in g.edges && e.src in g.types && g.types[e.src].Committed? && e.act.sync.Some? ==> IsOffered(e)
  }

  ghost predicate WaitsGlobally(g: Graph) {
    forall e, i :: e in g.edges && i in Incoming(g, e.src) && MayHurry(e) ==> Global(i)
  }

  ghost predicate Translated(g: Graph) { OffersOnly(g) && WaitsGlobally(g) }

  lemma HurriedMayHurry(n: Network, p: nat, e: Edge)
    requires p < |n.graphs| && (forall q :: 0 <= q < |n.graphs| ==> OffersOnly(n.graphs[q])) && !NoHurry(n, p, e)
    ensures MayHurry(e)
  {
    var q, f :| 0 <= q < |n.graphs| && q != p && f in n.graphs[q].edges && CanMeet(e, f)
                && f.src in n.graphs[q].types && n.graphs[q].types[f.src].Committed?;
    assert OffersOnly(n.graphs[q]);
    assert IsOffered(f);
  }

  /** A network of translated graphs is patient. */
  lemma TranslatedPatient(n: Network, p: nat)
    requires p < |n.graphs| && forall q :: 0 <= q < |n.graphs| ==> Translated(n.graphs[q])
    ensures Patient(n, p)
  {
    assert Translated(n.graphs[p]);
    forall e, i | e in n.graphs[p].edges && i in Incoming(n.graphs[p], e.src) && !NoHurry(n, p, e) ensures Global(i) {
      HurriedMayHurry(n, p, e);
    }
  }

  /** What the reducer removes from any templates of a translated system changes nothing about which
      configurations at rest are reachable. */
  lemma ReductionOfTranslated(n: Network, c0: Config, c: Config, passes: seq<Pass>)
    requires forall q :: 0 <= q < |n.graphs| ==> Translated(n.graphs[q])
    requires Apart(passes) && forall k :: 0 <= k < |passes| ==>
               Instantiates(n, passes[k].ps, passes[k].g) && Removable(passes[k].g, passes[k].ms)
    requires Fits(n, c0) && Fits(n, c) && !SomeCommitted(n, c) && Clear(c0, passes) && Clear(c, passes)
    requires forall k :: 0 <= k < |passes| ==> InRange(n, passes[k].ps)
    ensures Reachable(n, c0, c) <==> Reachable(SystemReduced(n, passes), c0, c)
  {
    hide Translated, Instantiates, Removable, Patient, Reachable, SomeCommitted, Clear;
    forall k | 0 <= k < |passes| ensures PassOk(n, passes[k]) {
      forall i | 0 <= i < |passes[k].ps| ensures Patient(n, passes[k].ps[i]) {
        assert InRange(n, passes[k].ps);
        TranslatedPatient(n, passes[k].ps[i]);
      }
    }
    ReductionKeepsReachability(n, c0, c, passes);
  }

  // ---------- Channels, mutexes and wait groups ----------

  function Port(family: string, emits: bool): Option<Sync> { Some(Sync(family, "i", emits)) }

  function Atom(guard: string): seq<string> { if guard == "" then [] else [guard] }

  function FamilyOf(port: C.Port): string {
    match port
    case SenderTrigger => "sender_trigger"
    case SenderConfirm => "sender_confirm"
    case ReceiverTrigger => "receiver_trigger"
    case ReceiverConfirm => "receiver_confirm"
    case Close => "close"
  }

  function ChanLoc(loc: C.Loc): string {
    match loc
    case Idle => "idle"
    case NewSender => "new_sender"
    case ConfirmingA => "confirming_a"
    case NewReceiver => "new_receiver"
    case ConfirmingB => "confirming_b"
    case Closing => "closing"
    case Closed => "closed"
    case ConfirmingClosed => "confirming_closed"
    case Bad => "bad"
  }

  function ChanGuard(guard: C.Guard): string {
    match guard
    case Always => ""
    case AboveBuffer => "chan_counter[i] > chan_buffer[i]"
    case WithinBuffer => "chan_counter[i] <= chan_buffer[i]"
    case BelowBuffer => "chan_counter[i] < chan_buffer[i]"
    case AtLeastBuffer => "chan_counter[i] >= chan_buffer[i]"
    case Positive => "chan_counter[i] > 0"
    case NonPositive => "chan_counter[i] <= 0"
    case Negative => "chan_counter[i] < 0"
    case NonNegative => "chan_counter[i] >= 0"
  }

  function ChanUpdate(update: C.Update): string {
    match update
    case Skip => ""
    case MarkClosed => "chan_buffer[i] = -1"
    case Increment => "chan_counter[i]++"
    case FloorAtZero => "chan_counter[i] = (chan_counter[i] >= 0) ? chan_counter[i] : 0"
  }

  /** The edges of the channel automaton, with flags for all guards and updates. */
  function ChanEdge(e: C.Edge): Edge {
    var sync := match e.sync case NoSync => None case Emit(p) => Port(FamilyOf(p), true) case Await(p) => Port(FamilyOf(p), false);
    Edge(ChanLoc(e.src), ChanLoc(e.dst), Label([], Atom(ChanGuard(e.guard)), sync, Atom(ChanUpdate(e.update))),
         e.guard != C.Always, e.update != C.Skip)
  }

  function ChanEdges(n: nat): set<Edge>
    requires n <= C.EDGE_COUNT
  {
    if n == 0 then {} else ChanEdges(n - 1) + {ChanEdge(C.EdgeAt(n))}
  }

  function ChanTypes(): map<string, StateType> {
    map["idle" := Normal, "new_sender" := Committed, "confirming_a" := Committed, "new_receiver" := Committed,
        "confirming_b" := Committed, "closing" := Committed, "closed" := Normal, "confirming_closed" := Committed,
        "bad" := Normal]
  }

  const CHANNEL := Graph(Some("idle"), ChanTypes(), ChanEdges(C.EDGE_COUNT))

  /** Committed locations of a resource automaton make known offers, and all its edges have a sync or a flag. */
  ghost predicate EdgeOk(types: map<string, StateType>, e: Edge) {
    Global(e) && (e.src in types && types[e.src].Committed? && e.act.sync.Some? ==> IsOffered(e))
  }

  lemma AllOkTranslated(g: Graph)
    requires forall e :: e in g.edges ==> EdgeOk(g.types, e)
    ensures Translated(g)
  {
  }

  lemma ChanLocsApart()
    ensures "idle" != "new_sender" && "closed" != "closing" && "closed" != "idle" && "bad" != "idle"
    ensures forall loc: C.Loc :: C.IsCommitted(loc) <==> ChanTypes()[ChanLoc(loc)].Committed?
  {
    assert |"idle"| == 4 && |"new_sender"| == 10 && |"confirming_a"| == 12 && |"new_receiver"| == 12 && |"confirming_b"| == 12
           && |"closing"| == 7 && |"closed"| == 6 && |"confirming_closed"| == 17 && |"bad"| == 3;
    assert "confirming_a"[11] != "confirming_b"[11] && "new_receiver"[0] != "confirming_a"[0];
  }

  lemma ChanEdgeOk(n: nat)
    requires 1 <= n <= C.EDGE_COUNT
    ensures EdgeOk(ChanTypes(), ChanEdge(C.EdgeAt(n)))
  {
    ChanLocsApart();
    var e := C.EdgeAt(n);
    assert C.IsCommitted(e.src) ==> e.sync.NoSync? || e.sync == C.Emit(C.SenderConfirm) || e.sync == C.Emit(C.ReceiverConfirm);
    assert e.sync.NoSync? ==> e.guard != C.Always;
    hide C.EdgeAt;
    if e.guard != C.Always {
      GuardWritten(e.guard);
    }
  }

  lemma GuardWritten(guard: C.Guard)
    requires guard != C.Always
    ensures ChanGuard(guard) != ""
  {
    assert |ChanGuard(guard)| > 0;
  }

  lemma {:induction false} ChanEdgesOk(n: nat)
    requires n <= C.EDGE_COUNT
    ensures forall e :: e in ChanEdges(n) ==> EdgeOk(ChanTypes(), e)
  {
    if n > 0 {
      ChanEdgesOk(n - 1);
      ChanEdgeOk(n);
    }
  }

  lemma ChannelTranslated()
    ensures Translated(CHANNEL)
  {
    ChanEdgesOk(C.EDGE_COUNT);
    AllOkTranslated(CHANNEL);
  }

  function MutexFamily(port: M.Port): string {
    match port
    case Lock(kind) => if kind.Read? then "read_lock" else "write_lock"
    case Unlock(kind) => if kind.Read? then "read_unlock" else "write_unlock"
  }

  function MutexLoc(loc: M.Loc): string {
    match loc
    case Idle => "idle"
    case WriteLocked => "write_locked"
    case ReadLocking => "read_locking"
    case ReadLocked => "read_locked"
    case ReadToWriteLocked => "read_locked_to_write_locked"
    case Bad => "bad"
  }

  function MutexGuard(guard: M.Guard): string {
    match guard
    case Always => ""
    case NoPendingReaders => "mutex_pending_readers[i] == 0"
    case LastReaderNoWriter => "active_readers == 1 && mutex_pending_writers[i] == 0"
    case LastReaderWriter => "active_readers == 1 && mutex_pending_writers[i] > 0"
    case NoPendingWriters => "mutex_pending_writers[i] == 0"
    case ManyReaders => "active_readers > 1"
  }

  function MutexEdge(e: M.Edge): Edge {
    var change := if e.Alone? || e.change == 0 then "" else if e.change > 0 then "active_readers++" else "active_readers--";
    Edge(MutexLoc(e.src), MutexLoc(e.dst),
         Label([], Atom(MutexGuard(e.guard)), if e.Alone? then None else Port(MutexFamily(e.port), false), Atom(change)),
         e.guard != M.Always && e.guard != M.ManyReaders, false)
  }

  function MutexEdges(n: nat): set<Edge>
    requires n <= M.EDGE_COUNT
  {
    if n == 0 then {} else MutexEdges(n - 1) + {MutexEdge(M.EdgeAt(n))}
  }

  function MutexTypes(): map<string, StateType> {
    map["idle" := Normal, "write_locked" := Normal, "read_locking" := Committed, "read_locked" := Normal,
        "read_locked_to_write_locked" := Committed, "bad" := Normal]
  }

  const MUTEX := Graph(Some("idle"), MutexTypes(), MutexEdges(M.EDGE_COUNT))

  lemma MutexLocsApart()
    ensures forall loc: M.Loc :: M.IsCommitted(loc) <==> MutexTypes()[MutexLoc(loc)].Committed?
  {
    assert |"idle"| == 4 && |"write_locked"| == 12 && |"read_locking"| == 12 && |"read_locked"| == 11
           && |"read_locked_to_write_locked"| == 27 && |"bad"| == 3;
    assert "write_locked"[0] != "read_locking"[0];
  }

  lemma MutexEdgeOk(n: nat)
    requires 1 <= n <= M.EDGE_COUNT
    ensures EdgeOk(MutexTypes(), MutexEdge(M.EdgeAt(n)))
  {
    MutexLocsApart();
    var e := M.EdgeAt(n);
    assert M.IsCommitted(e.src) && e.On? ==> e.port.Lock?;
    assert e.Alone? ==> e.guard == M.NoPendingReaders;
    hide M.EdgeAt;
    assert |MutexGuard(M.NoPendingReaders)| > 0;
  }

  lemma {:induction false} MutexEdgesOk(n: nat)
    requires n <= M.EDGE_COUNT
    ensures forall e :: e in MutexEdges(n) ==> EdgeOk(MutexTypes(), e)
  {
    if n > 0 {
      MutexEdgesOk(n - 1);
      MutexEdgeOk(n);
    }
  }

  lemma MutexTranslated()
    ensures Translated(MUTEX)
  {
    MutexEdgesOk(M.EDGE_COUNT);
    AllOkTranslated(MUTEX);
  }

  function GroupLoc(loc: W.Loc): string {
    match loc
    case Idle => "idle"
    case Adding => "adding"
    case ActiveTasks => "active_tasks"
    case Bad => "bad"
  }

  function GroupGuard(guard: W.Guard): string {
    match guard
    case Always => ""
    case SomeWait => "wait_group_waiters[i] > 0"
    case NoneWait => "wait_group_waiters[i] == 0"
    case CounterZero => "wait_group_counter[i] == 0"
    case CounterPositive => "wait_group_counter[i] > 0"
    case CounterNegative => "wait_group_counter[i] < 0"
  }

  function GroupEdge(e: W.Edge): Edge {
    var sync := match e.port case NoPort => None case WaitPort => Port("wait", true) case AddPort => Port("add", false);
    Edge(GroupLoc(e.src), GroupLoc(e.dst), Label([], Atom(GroupGuard(e.guard)), sync, []), e.guard != W.Always, false)
  }

  function GroupEdges(n: nat): set<Edge>
    requires n <= W.EDGE_COUNT
  {
    if n == 0 then {} else GroupEdges(n - 1) + {GroupEdge(W.EdgeAt(n))}
  }

  function GroupTypes(): map<string, StateType> {
    map["idle" := Normal, "adding" := Committed, "active_tasks" := Normal, "bad" := Normal]
  }

  const WAIT_GROUP := Graph(Some("idle"), GroupTypes(), GroupEdges(W.EDGE_COUNT))

  lemma GroupEdgeOk(n: nat)
    requires 1 <= n <= W.EDGE_COUNT
    ensures EdgeOk(GroupTypes(), GroupEdge(W.EdgeAt(n)))
  {
    var e := W.EdgeAt(n);
    assert |"idle"| == 4 && |"adding"| == 6 && |"active_tasks"| == 12 && |"bad"| == 3;
    assert GroupTypes()[GroupLoc(e.src)].Committed? ==> e.src.Adding?;
    assert e.src.Adding? ==> e.port.NoPort?;
    assert e.port.NoPort? ==> e.guard == W.CounterZero || e.guard == W.CounterPositive || e.guard == W.CounterNegative;
    hide W.EdgeAt;
    assert e.port.NoPort? ==> |GroupGuard(e.guard)| > 0;
  }

  lemma {:induction false} GroupEdgesOk(n: nat)
    requires n <= W.EDGE_COUNT
    ensures forall e :: e in GroupEdges(n) ==> EdgeOk(GroupTypes(), e)
  {
    if n > 0 {
      GroupEdgesOk(n - 1);
      GroupEdgeOk(n);
    }
  }

  lemma WaitGroupTranslated()
    ensures Translated(WAIT_GROUP)
  {
    GroupEdgesOk(W.EDGE_COUNT);
    AllOkTranslated(WAIT_GROUP);
  }

  // ---------- Functions ----------

  /** The edges of one translated statement, its locations in which a handshake with a committed location is
      awaited, and its committed locations. */
  datatype Piece = Piece(edges: set<Edge>, waits: set<string>, committed: set<string>)

  /** A statement awaits such handshakes only in locations to which its own edges lead by a sync or globals, and
      makes known offers only. */
  ghost predicate PieceOk(pc: Piece) {
    && (forall e :: e in pc.edges && MayHurry(e) ==> e.src in pc.waits)
    && (forall e :: e in pc.edges && e.dst in pc.waits ==> Global(e))
    && (forall e :: e in pc.edges && e.src in pc.committed && e.act.sync.Some? ==> IsOffered(e))
  }

  /** Locations that a statement made for itself are left and entered by its own edges only. */
  ghost predicate Private(pcs: seq<Piece>) {
    forall j, k, e :: 0 <= j < |pcs| && 0 <= k < |pcs| && j != k && e in pcs[j].edges ==>
      e.dst !in pcs[k].waits && e.src !in pcs[k].committed
  }

  /** The graph of a function is put together from its statements. */
  ghost predicate BuiltFrom(g: Graph, pcs: seq<Piece>) {
    && Private(pcs) && (forall k :: 0 <= k < |pcs| ==> PieceOk(pcs[k]))
    && (forall e :: e in g.edges ==> exists k :: 0 <= k < |pcs| && e in pcs[k].edges)
    && (forall a :: a in g.types && g.types[a].Committed? ==> exists k :: 0 <= k < |pcs| && a in pcs[k].committed)
  }

  lemma FunctionTranslated(g: Graph, pcs: seq<Piece>)
    requires BuiltFrom(g, pcs)
    ensures Translated(g)
  {
    forall e | e in g.edges && e.src in g.types && g.types[e.src].Committed? && e.act.sync.Some? ensures IsOffered(e) {
      var j :| 0 <= j < |pcs| && e in pcs[j].edges;
      var k :| 0 <= k < |pcs| && e.src in pcs[k].committed;
      assert PieceOk(pcs[k]);
      assert j == k;
    }
    forall e, i | e in g.edges && i in Incoming(g, e.src) && MayHurry(e) ensures Global(i) {
      var j :| 0 <= j < |pcs| && e in pcs[j].edges;
      var k :| 0 <= k < |pcs| && i in pcs[k].edges;
      assert PieceOk(pcs[j]);
      assert j == k;
    }
  }

  /** Statements without handshakes of these kinds, such as assignments, calls and conditions. */
  lemma PlainOk(edges: set<Edge>)
    requires forall e :: e in edges ==> !MayHurry(e)
    ensures PieceOk(Piece(edges, {}, {}))
  {
  }

  function TriggerFamily(sends: bool): string { if sends then "sender_trigger" else "receiver_trigger" }
  function ConfirmFamily(sends: bool): string { if sends then "sender_confirm" else "receiver_confirm" }
  function Step(sends: bool): string { if sends then "++" else "--" }

  /** A send or receive statement. */
  function ChanOp(sends: bool, handle: string, select: seq<string>, cur: string, pending: string, confirmed: string): Piece {
    Piece({Edge(cur, pending, Label(select, [], Some(Sync(TriggerFamily(sends), handle, true)),
                                    ["op_chan = " + handle, "chan_counter[op_chan]" + Step(sends)]), false, true),
           Edge(pending, confirmed, Label([], [], Some(Sync(ConfirmFamily(sends), "op_chan", false)), []), false, false)},
          {pending}, {})
  }

  lemma FamiliesApart()
    ensures ("sender_confirm", false) !in OFFERS && ("receiver_confirm", false) !in OFFERS
    ensures ("sender_trigger", false) !in OFFERS && ("receiver_trigger", false) !in OFFERS
    ensures ("read_lock", true) !in OFFERS && ("write_lock", true) !in OFFERS
    ensures forall emits :: ("close", emits) !in OFFERS && ("add", emits) !in OFFERS && ("wait", emits) !in OFFERS
                            && ("read_unlock", emits) !in OFFERS && ("write_unlock", emits) !in OFFERS
  {
    assert |"sender_confirm"| == 14 && |"receiver_confirm"| == 16 && |"sender_trigger"| == 14 && |"receiver_trigger"| == 16
           && |"read_lock"| == 9 && |"write_lock"| == 10 && |"close"| == 5 && |"add"| == 3 && |"wait"| == 4
           && |"read_unlock"| == 11 && |"write_unlock"| == 12;
  }

  lemma ChanOpOk(sends: bool, handle: string, select: seq<string>, cur: string, pending: string, confirmed: string)
    requires pending != cur && pending != confirmed
    ensures PieceOk(ChanOp(sends, handle, select, cur, pending, confirmed))
  {
    FamiliesApart();
  }

  function CloseChan(handle: string, select: seq<string>, cur: string, closed: string): Piece {
    Piece({Edge(cur, closed, Label(select, [], Some(Sync("close", handle, true)), []), false, false)}, {}, {})
  }

  lemma CloseChanOk(handle: string, select: seq<string>, cur: string, closed: string)
    ensures PieceOk(CloseChan(handle, select, cur, closed))
  {
    FamiliesApart();
  }

  /** Lock and unlock statements. */
  function LockMutex(writes: bool, handle: string, select: seq<string>, cur: string, registered: string, completed: string): Piece {
    var pending := if writes then "mutex_pending_writers[op_mutex]" else "mutex_pending_readers[op_mutex]";
    Piece({Edge(cur, registered, Label(select, [], None, ["op_mutex = " + handle, pending + "++"]), false, true),
           Edge(registered, completed,
                Label([], [], Some(Sync(if writes then "write_lock" else "read_lock", "op_mutex", true)), [pending + "--"]), false, true)},
          {registered}, {})
  }

  lemma LockMutexOk(writes: bool, handle: string, select: seq<string>, cur: string, registered: string, completed: string)
    requires registered != cur && registered != completed
    ensures PieceOk(LockMutex(writes, handle, select, cur, registered, completed))
  {
  }

  function UnlockMutex(writes: bool, handle: string, select: seq<string>, cur: string, completed: string): Piece {
    Piece({Edge(cur, completed,
                Label(select, [], Some(Sync(if writes then "write_unlock" else "read_unlock", handle, true)), []), false, false)},
          {}, {})
  }

  lemma UnlockMutexOk(writes: bool, handle: string, select: seq<string>, cur: string, completed: string)
    ensures PieceOk(UnlockMutex(writes, handle, select, cur, completed))
  {
    FamiliesApart();
  }

  /** Wait group statements: adding, and registering and waiting. */
  function AddToGroup(handle: string, delta: string, select: seq<string>, cur: string, completed: string): Piece {
    Piece({Edge(cur, completed, Label(select, [], Some(Sync("add", handle, true)),
                                      ["wait_group_counter[" + handle + "] += " + delta]), false, true)}, {}, {})
  }

  function AwaitGroup(handle: string, select: seq<string>, cur: string, registered: string, completed: string): Piece {
    Piece({Edge(cur, registered, Label(select, [], None, ["op_wait_group = " + handle, "wait_group_waiters[op_wait_group]++"]),
                false, true),
           Edge(registered, completed, Label([], [], Some(Sync("wait", "op_wait_group", false)),
                                             ["wait_group_waiters[op_wait_group]--"]), false, true)}, {}, {})
  }

  lemma GroupStatementsOk(handle: string, delta: string, select: seq<string>, cur: string, registered: string, completed: string)
    ensures PieceOk(AddToGroup(handle, delta, select, cur, completed))
    ensures PieceOk(AwaitGroup(handle, select, cur, registered, completed))
  {
    FamiliesApart();
  }

  /** A range loop over a channel, but for its body. */
  function RangeChan(handle: string, select: seq<string>, usesGlobals: bool, cur: string, enter: string, receiving: string,
                     received: string, bodyEnter: string, bodyExit: string, loopExit: string): Piece
  {
    Piece({Edge(cur, enter, Label(select, [], None, ["range_chan = " + handle]), false, usesGlobals),
           Edge(enter, receiving, Label([], [], Some(Sync("receiver_trigger", "range_chan", true)),
                                        ["chan_counter[range_chan]--", "ok = chan_counter[range_chan] >= 0"]), false, usesGlobals),
           Edge(receiving, received, Label([], [], Some(Sync("receiver_confirm", "range_chan", false)), []), false, false),
           Edge(received, bodyEnter, Label([], ["chan_buffer[range_chan] >= 0 || ok"], None, []), true, false),
           Edge(received, loopExit, Label([], ["chan_buffer[range_chan] < 0 && !ok"], None, []), true, false),
           Edge(bodyExit, enter, Label([], [], None, []), false, false)},
          {receiving}, {received})
  }

  lemma RangeChanOk(handle: string, select: seq<string>, usesGlobals: bool, cur: string, enter: string, receiving: string,
                    received: string, bodyEnter: string, bodyExit: string, loopExit: string)
    requires receiving !in {cur, enter, received, bodyEnter, bodyExit, loopExit} && received !in {cur, enter, bodyExit}
    ensures PieceOk(RangeChan(handle, select, usesGlobals, cur, enter, receiving, received, bodyEnter, bodyExit, loopExit))
  {
    FamiliesApart();
  }

  // ---------- Select statements ----------

  /** A case: its direction, the local variable for its channel, and the channel. */
  datatype SelectCase = SelectCase(sends: bool, variable: string, handle: string, triggered: string, enter: string)

  function PossibleGuard(k: SelectCase): string {
    "chan_buffer[" + k.variable + "] < 0 || chan_counter[" + k.variable + "]"
    + (if k.sends then " <= chan_buffer[" + k.variable + "]" else " >= 0")
  }

  function Forward(cases: seq<SelectCase>): seq<string> {
    if cases == [] then []
    else Forward(cases[..|cases| - 1]) + ["chan_counter[" + cases[|cases| - 1].variable + "]" + Step(cases[|cases| - 1].sends)]
  }

  function Assignments(cases: seq<SelectCase>): seq<string> {
    if cases == [] then []
    else Assignments(cases[..|cases| - 1]) + [cases[|cases| - 1].variable + " = " + cases[|cases| - 1].handle]
  }

  /** The counters of all cases but case i are taken back. */
  function Reverse(cases: seq<SelectCase>, i: int): seq<string> {
    if cases == [] then []
    else
      var n := |cases| - 1;
      Reverse(cases[..n], i) + (if n == i then [] else ["chan_counter[" + cases[n].variable + "]" + Step(!cases[n].sends)])
  }

  function NonePossible(cases: seq<SelectCase>): (guards: seq<string>)
    ensures |guards| == |cases|
  {
    if cases == [] then [] else NonePossible(cases[..|cases| - 1]) + ["!(" + PossibleGuard(cases[|cases| - 1]) + ")"]
  }

  function Trigger(k: SelectCase, pass1: string): Edge {
    Edge(pass1, k.triggered, Label([], [PossibleGuard(k)], Some(Sync(TriggerFamily(k.sends), k.variable, true)), []), true, false)
  }

  function Confirm(cases: seq<SelectCase>, i: nat, src: string): Edge
    requires i < |cases|
  {
    Edge(src, cases[i].enter, Label([], [], Some(Sync(ConfirmFamily(cases[i].sends), cases[i].variable, false)), Reverse(cases, i)),
         false, true)
  }

  /** A select statement, but for the bodies of its cases; exit is the entry of the default, or where the select
      waits without one. */
  function SelectStatement(cases: seq<SelectCase>, hasDefault: bool, select: seq<string>, cur: string, pass1: string, exit: string): Piece {
    Piece({Edge(cur, pass1, Label(select, [], None, Assignments(cases) + Forward(cases)), false, cases != []),
           Edge(pass1, exit, Label([], NonePossible(cases), None, if hasDefault then Reverse(cases, -1) else []), true,
                hasDefault && cases != [])}
          + (set i | 0 <= i < |cases| :: Trigger(cases[i], pass1))
          + (set i | 0 <= i < |cases| :: Confirm(cases, i, cases[i].triggered))
          + (if hasDefault then {} else set i | 0 <= i < |cases| :: Confirm(cases, i, exit)),
          (set i | 0 <= i < |cases| :: cases[i].triggered) + (if hasDefault || cases == [] then {} else {exit}), {pass1})
  }

  lemma SelectStatementOk(cases: seq<SelectCase>, hasDefault: bool, select: seq<string>, cur: string, pass1: string, exit: string)
    requires pass1 != cur && pass1 != exit && cur != exit
    requires forall i :: 0 <= i < |cases| ==> cases[i].triggered !in {cur, pass1, exit} && cases[i].enter !in {pass1, exit}
    requires forall i, j :: 0 <= i < |cases| && 0 <= j < |cases| ==> cases[i].enter != cases[j].triggered
    ensures PieceOk(SelectStatement(cases, hasDefault, select, cur, pass1, exit))
  {
    var pc := SelectStatement(cases, hasDefault, select, cur, pass1, exit);
    hide SelectStatement, PossibleGuard, Reverse, Assignments, Forward;
    forall e | e in pc.edges
      ensures MayHurry(e) ==> e.src in pc.waits
      ensures e.dst in pc.waits ==> Global(e)
      ensures e.src in pc.committed && e.act.sync.Some? ==> IsOffered(e)
    {
      SelectEdgeOk(cases, hasDefault, select, cur, pass1, exit, e);
    }
  }

  lemma SelectEdgeOk(cases: seq<SelectCase>, hasDefault: bool, select: seq<string>, cur: string, pass1: string, exit: string, e: Edge)
    requires pass1 != cur && pass1 != exit && cur != exit
    requires forall i :: 0 <= i < |cases| ==> cases[i].triggered !in {cur, pass1, exit} && cases[i].enter !in {pass1, exit}
    requires forall i, j :: 0 <= i < |cases| && 0 <= j < |cases| ==> cases[i].enter != cases[j].triggered
    requires e in SelectStatement(cases, hasDefault, select, cur, pass1, exit).edges
    ensures var pc := SelectStatement(cases, hasDefault, select, cur, pass1, exit);
            && (MayHurry(e) ==> e.src in pc.waits) && (e.dst in pc.waits ==> Global(e))
            && (e.src in pc.committed && e.act.sync.Some? ==> IsOffered(e))
  {
    FamiliesApart();
    hide PossibleGuard, Reverse, Assignments, Forward;
    if i :| 0 <= i < |cases| && e == Trigger(cases[i], pass1) {
    } else if i :| 0 <= i < |cases| && (e == Confirm(cases, i, cases[i].triggered) || e == Confirm(cases, i, exit)) {
      assert cases[i].triggered in SelectStatement(cases, hasDefault, select, cur, pass1, exit).waits;
    }
  }
}
