module ChannelNetwork {
  // The network of channel automata and goroutines. A goroutine may start any channel operation whenever it is not
  // inside one, so the runs of this network include the runs of every translated program.

  import opened ChannelAutomaton

  datatype Dir = Sending | Receiving

  /** A communication clause: one channel and a direction. */
  datatype Case = Case(dir: Dir, chan: nat)

  /** What the last channel statement of a goroutine ended with. */
  datatype Outcome = Started | Entered(index: nat) | DefaultEntered | ClosedChan | BodyEntered | RangeExited | Made(id: nat)

  /** Where a goroutine is. */
  datatype Go =
    | Running(last: Outcome)
    | Pending(op: Case)                             // sending_ / receiving_
    | RangeReceiving(chan: nat, ok: bool)
    | RangeReceived(chan: nat, ok: bool)            // committed
    | Pass1(cases: seq<Case>, hasDefault: bool)     // committed
    | Triggered(cases: seq<Case>, index: nat)
    | Pass2(cases: seq<Case>)

  predicate GoCommitted(go: Go) { go.RangeReceived? || go.Pass1? }

  datatype Config = Config(chans: seq<Chan>, count: nat, gos: seq<Go>, outOfResources: bool)

  /** Edges of a goroutine. */
  datatype GoEdge =
    | StartOp(op: Case) | ConfirmOp
    | StartClose(chan: nat)
    | StartRange(chan: nat) | ConfirmRange | EnterBody | ExitRange
    | EnterSelect(cases: seq<Case>, hasDefault: bool)
    | TriggerCase(index: nat) | ConfirmCase(index: nat) | TakeDefault | Park
    | MakeChan(size: nat)

  datatype GoSync = Silent | On(chan: nat, port: Port, emits: bool)

  function TriggerPort(dir: Dir): Port { if dir.Sending? then SenderTrigger else ReceiverTrigger }
  function ConfirmPort(dir: Dir): Port { if dir.Sending? then SenderConfirm else ReceiverConfirm }

  function Delta(dir: Dir): int { if dir.Sending? then 1 else -1 }

  /** Channel ids handed out so far. */
  function MadeCount(s: Config): nat { if s.count <= |s.chans| then s.count else |s.chans| }

  predicate Distinct(cases: seq<Case>) {
    forall i, j :: 0 <= i < j < |cases| ==> cases[i].chan != cases[j].chan
  }

  predicate ValidCases(cases: seq<Case>, made: nat) {
    Distinct(cases) && forall i :: 0 <= i < |cases| ==> cases[i].chan < made
  }

  predicate ValidGo(go: Go, made: nat) {
    match go
    case Running(_) => true
    case Pending(op) => op.chan < made
    case RangeReceiving(c, _) => c < made
    case RangeReceived(c, _) => c < made
    case Pass1(cases, _) => ValidCases(cases, made)
    case Triggered(cases, i) => ValidCases(cases, made) && i < |cases|
    case Pass2(cases) => ValidCases(cases, made)
  }

  /** The guard of a select case: the channel is closed, or the operation fits. */
  predicate Possible(k: Case, chans: seq<Chan>)
    requires k.chan < |chans|
  {
    var ch := chans[k.chan];
    ch.buffer < 0 || (if k.dir.Sending? then ch.counter <= ch.buffer else ch.counter >= 0)
  }

  predicate NonePossible(cases: seq<Case>, chans: seq<Chan>)
    requires forall i :: 0 <= i < |cases| ==> cases[i].chan < |chans|
  {
    forall i :: 0 <= i < |cases| ==> !Possible(cases[i], chans)
  }

  /** Source location and guard of a goroutine edge. */
  predicate GoEnabled(go: Go, m: GoEdge, chans: seq<Chan>, made: nat)
    requires made <= |chans| && ValidGo(go, made)
  {
    match m
    case StartOp(op) => go.Running? && op.chan < made
    case ConfirmOp => go.Pending?
    case StartClose(c) => go.Running? && c < made
    case StartRange(c) => go.Running? && c < made
    case ConfirmRange => go.RangeReceiving?
    case EnterBody => go.RangeReceived? && (chans[go.chan].buffer >= 0 || go.ok)
    case ExitRange => go.RangeReceived? && chans[go.chan].buffer < 0 && !go.ok
    case EnterSelect(cases, _) => go.Running? && ValidCases(cases, made)
    case TriggerCase(i) => go.Pass1? && i < |go.cases| && Possible(go.cases[i], chans)
    case ConfirmCase(i) => (go.Triggered? && i == go.index) || (go.Pass2? && i < |go.cases|)
    case TakeDefault => go.Pass1? && go.hasDefault && NonePossible(go.cases, chans)
    case Park => go.Pass1? && !go.hasDefault && NonePossible(go.cases, chans)
    case MakeChan(_) => go.Running?
  }

  function GoSyncOf(go: Go, m: GoEdge, chans: seq<Chan>, made: nat): GoSync
    requires made <= |chans| && ValidGo(go, made) && GoEnabled(go, m, chans, made)
  {
    match m
    case StartOp(op) => On(op.chan, TriggerPort(op.dir), true)
    case ConfirmOp => On(go.op.chan, ConfirmPort(go.op.dir), false)
    case StartClose(c) => On(c, Close, true)
    case StartRange(c) => On(c, ReceiverTrigger, true)
    case ConfirmRange => On(go.chan, ReceiverConfirm, false)
    case TriggerCase(i) => On(go.cases[i].chan, TriggerPort(go.cases[i].dir), true)
    case ConfirmCase(i) => On(go.cases[i].chan, ConfirmPort(go.cases[i].dir), false)
    case _ => Silent
  }

  function AddCounter(chans: seq<Chan>, c: nat, d: int): (r: seq<Chan>)
    requires c < |chans|
    ensures |r| == |chans|
  {
    chans[c := chans[c].(counter := chans[c].counter + d)]
  }

  /** The counter updates of the first n cases, one after the other, leaving out case `skip`. */
  function BumpCases(chans: seq<Chan>, cases: seq<Case>, n: nat, skip: int, sign: int): (r: seq<Chan>)
    requires n <= |cases|
    requires forall i :: 0 <= i < |cases| ==> cases[i].chan < |chans|
    ensures |r| == |chans|
  {
    if n == 0 then chans
    else
      var before := BumpCases(chans, cases, n - 1, skip, sign);
      if n - 1 == skip then before
      else AddCounter(before, cases[n - 1].chan, sign * Delta(cases[n - 1].dir))
  }

  /** The counters after the update of goroutine edge `m` from location `go`. */
  function GoUpdate(go: Go, m: GoEdge, chans: seq<Chan>): (r: seq<Chan>)
    requires ValidGo(go, |chans|)
    ensures |r| == |chans|
  {
    match m
    case StartOp(op) => if op.chan < |chans| then AddCounter(chans, op.chan, Delta(op.dir)) else chans
    case StartRange(c) => if c < |chans| then AddCounter(chans, c, -1) else chans
    case EnterSelect(cases, _) =>
      if ValidCases(cases, |chans|) then BumpCases(chans, cases, |cases|, -1, 1) else chans
    case ConfirmCase(i) =>
      if go.Triggered? || go.Pass2? then BumpCases(chans, go.cases, |go.cases|, i, -1) else chans
    case TakeDefault => if go.Pass1? then BumpCases(chans, go.cases, |go.cases|, -1, -1) else chans
    case _ => chans
  }

  /** The location a goroutine edge leads to. */
  function GoTarget(go: Go, m: GoEdge, chans: seq<Chan>, made: nat): Go
    requires made <= |chans| && ValidGo(go, made) && GoEnabled(go, m, chans, made)
  {
    match m
    case StartOp(op) => Pending(op)
    case ConfirmOp => Running(Entered(0))
    case StartClose(_) => Running(ClosedChan)
    case StartRange(c) => RangeReceiving(c, chans[c].counter - 1 >= 0)
    case ConfirmRange => RangeReceived(go.chan, go.ok)
    case EnterBody => Running(BodyEntered)
    case ExitRange => Running(RangeExited)
    case EnterSelect(cases, d) => Pass1(cases, d)
    case TriggerCase(i) => Triggered(go.cases, i)
    case ConfirmCase(i) => Running(Entered(i))
    case TakeDefault => Running(DefaultEntered)
    case Park => Pass2(go.cases)
    case MakeChan(_) => Running(Started)
  }

  /** A step of the network: one automaton alone, or a handshake of a channel and a goroutine. */
  datatype Step =
    | ChanMove(c: nat, e: nat)
    | GoMove(g: nat, m: GoEdge)
    | Handshake(c: nat, e: nat, g: nat, m: GoEdge)

  predicate Valid(s: Config) {
    |s.chans| >= 1 && forall g :: 0 <= g < |s.gos| ==> ValidGo(s.gos[g], MadeCount(s))
  }

  predicate SomeCommitted(s: Config) {
    (exists c :: 0 <= c < |s.chans| && IsCommitted(s.chans[c].loc)) ||
    (exists g :: 0 <= g < |s.gos| && GoCommitted(s.gos[g]))
  }

  predicate ChanEdgeEnabled(s: Config, c: nat, e: nat) {
    && c < |s.chans| && 1 <= e <= EDGE_COUNT
    && EdgeAt(e).src == s.chans[c].loc && Holds(EdgeAt(e).guard, s.chans[c])
  }

  predicate GoEdgeEnabled(s: Config, g: nat, m: GoEdge)
    requires Valid(s)
  {
    g < |s.gos| && GoEnabled(s.gos[g], m, s.chans, MadeCount(s))
  }

  /** Guards, handshake partners and the priority of committed locations. */
  predicate Enabled(s: Config, st: Step)
    requires Valid(s)
  {
    match st
    case ChanMove(c, e) =>
      ChanEdgeEnabled(s, c, e) && EdgeAt(e).sync.NoSync? && (SomeCommitted(s) ==> IsCommitted(s.chans[c].loc))
    case GoMove(g, m) =>
      GoEdgeEnabled(s, g, m) && GoSyncOf(s.gos[g], m, s.chans, MadeCount(s)).Silent? &&
      (SomeCommitted(s) ==> GoCommitted(s.gos[g]))
    case Handshake(c, e, g, m) =>
      ChanEdgeEnabled(s, c, e) && GoEdgeEnabled(s, g, m) &&
      (var sync := GoSyncOf(s.gos[g], m, s.chans, MadeCount(s));
       sync.On? && sync.chan == c && EdgeAt(e).sync == (if sync.emits then Await(sync.port) else Emit(sync.port))) &&
      (SomeCommitted(s) ==> IsCommitted(s.chans[c].loc) || GoCommitted(s.gos[g]))
  }

  /** make_chan: the next id, or id 0 and a raised flag when all ids are taken. */
  function AfterMakeChan(s: Config, g: nat, size: nat): Config
    requires |s.chans| >= 1 && g < |s.gos|
  {
    if s.count >= |s.chans| then
      s.(count := s.count + 1, outOfResources := true, gos := s.gos[g := Running(Made(0))])
    else
      s.(count := s.count + 1,
         chans := s.chans[s.count := s.chans[s.count].(counter := 0, buffer := size, cap := size)],
         gos := s.gos[g := Running(Made(s.count))])
  }

  /** The configuration after an enabled step. In a handshake the update of the emitting side runs
      before the update of the awaiting side. */
  function After(s: Config, st: Step): Config
    requires Valid(s) && Enabled(s, st)
  {
    match st
    case ChanMove(c, e) => s.(chans := s.chans[c := Take(EdgeAt(e), s.chans[c])])
    case GoMove(g, m) =>
      if m.MakeChan? then AfterMakeChan(s, g, m.size)
      else
        s.(chans := GoUpdate(s.gos[g], m, s.chans),
           gos := s.gos[g := GoTarget(s.gos[g], m, s.chans, MadeCount(s))])
    case Handshake(c, e, g, m) =>
      var go := s.gos[g];
      var made := MadeCount(s);
      var gos' := s.gos[g := GoTarget(go, m, s.chans, made)];
      if GoSyncOf(go, m, s.chans, made).emits then
        var chans1 := GoUpdate(go, m, s.chans);
        s.(chans := chans1[c := Take(EdgeAt(e), chans1[c])], gos := gos')
      else
        var chans1 := s.chans[c := Take(EdgeAt(e), s.chans[c])];
        s.(chans := GoUpdate(go, m, chans1), gos := gos')
  }

  predicate Next(s: Config, st: Step, s': Config) {
    Valid(s) && Enabled(s, st) && s' == After(s, st)
  }

  /** Before the first statement: no channel made, every goroutine outside channel operations. */
  predicate Init(s: Config) {
    && |s.chans| >= 1 && s.count == 0 && !s.outOfResources
    && (forall c :: 0 <= c < |s.chans| ==> s.chans[c] == FRESH)
    && (forall g :: 0 <= g < |s.gos| ==> s.gos[g] == Running(Started))
  }

  /** The configurations of a run, in order. */
  predicate IsRun(run: seq<Config>, steps: seq<Step>) {
    && |run| == |steps| + 1 && Init(run[0])
    && forall k :: 0 <= k < |steps| ==> Next(run[k], steps[k], run[k + 1])
  }

  predicate NoBad(s: Config) { forall c :: 0 <= c < |s.chans| ==> !s.chans[c].loc.Bad? }
}
