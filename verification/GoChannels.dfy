module GoChannels {
  // Channels as the Go Programming Language Specification describes them (sections "Send statements", "Receive
  // operator", "Close", "Select statements" and "For statements" with a range clause): every statement is one
  // atomic step over buffered values and blocked goroutines.

  import opened ChannelNetwork

  datatype Channel = Channel(cap: int, items: int, closed: bool)

  /** A goroutine is free to go on, or blocked until one of its cases is completed by another. */
  datatype Routine = Free(last: Outcome) | Blocked(cases: seq<Case>, isRange: bool)

  datatype State = State(chans: seq<Channel>, count: nat, routines: seq<Routine>)

  function Opposite(k: Case): Case { k.(dir := if k.dir.Sending? then Receiving else Sending) }

  predicate BlockedAt(r: Routine, k: Case) { r.Blocked? && k in r.cases }

  predicate SomeoneAt(a: State, k: Case) {
    exists h :: 0 <= h < |a.routines| && BlockedAt(a.routines[h], k)
  }

  /** An operation that can go ahead at once. */
  predicate Ready(a: State, k: Case)
    requires k.chan < |a.chans|
  {
    var ch := a.chans[k.chan];
    ch.closed || SomeoneAt(a, Opposite(k)) || (if k.dir.Sending? then ch.items < ch.cap else ch.items > 0)
  }

  function IndexOf(cases: seq<Case>, k: Case): (i: nat)
    requires k in cases
    ensures i < |cases| && cases[i] == k
  {
    if cases[0] == k then 0 else 1 + IndexOf(cases[1..], k)
  }

  /** How a routine goes on after its case with the given index completed. A range loop enters its
      body with a value, and ends without one. */
  function Resume(isRange: bool, index: nat, value: bool): Routine {
    Free(if !isRange then Entered(index) else if value then BodyEntered else RangeExited)
  }

  function Woken(r: Routine, k: Case, value: bool): Routine
    requires BlockedAt(r, k)
  {
    Resume(r.isRange, IndexOf(r.cases, k), value)
  }

  /** The blocked routine that takes part in operation k: any one if there is one, else none. */
  predicate Partner(a: State, k: Case, partner: int) {
    if SomeoneAt(a, Opposite(k)) then
      0 <= partner < |a.routines| && BlockedAt(a.routines[partner], Opposite(k))
    else partner == -1
  }

  /** Operation k together with its partner: a value changes hands, or enters or leaves the buffer. */
  function Perform(a: State, k: Case, partner: int): State
    requires k.chan < |a.chans| && Partner(a, k, partner)
  {
    var ch := a.chans[k.chan];
    if partner >= 0 then a.(routines := a.routines[partner := Woken(a.routines[partner], Opposite(k), true)])
    else if k.dir.Sending? then a.(chans := a.chans[k.chan := ch.(items := ch.items + 1)])
    else if ch.items > 0 then a.(chans := a.chans[k.chan := ch.(items := ch.items - 1)])
    else a
  }

  /** A receive yields a value unless the channel is closed and drained. */
  predicate Yields(a: State, k: Case, partner: int)
    requires k.chan < |a.chans|
  {
    k.dir.Sending? || partner >= 0 || a.chans[k.chan].items > 0
  }

  datatype Op =
    | Communicate(g: nat, cases: seq<Case>, hasDefault: bool, isRange: bool, choice: int, partner: int)
    | CloseChan(g: nat, chan: nat)
    | Make(g: nat, size: nat)

  /** One statement of one routine. A plain send or receive is a select with one case. */
  predicate Does(a: State, op: Op, a': State) {
    && op.g < |a.routines| && a.routines[op.g].Free?
    && match op
       case Communicate(g, cases, hasDefault, isRange, choice, partner) =>
         && (forall i :: 0 <= i < |cases| ==> cases[i].chan < |a.chans|)
         && (if exists i :: 0 <= i < |cases| && Ready(a, cases[i]) then
               // Exactly one ready case is taken; sending on a closed channel is no step.
               && 0 <= choice < |cases| && Ready(a, cases[choice])
               && !(cases[choice].dir.Sending? && a.chans[cases[choice].chan].closed)
               && Partner(a, cases[choice], partner)
               && (var b := Perform(a, cases[choice], partner);
                   a' == b.(routines := b.routines[g := Resume(isRange, choice, Yields(a, cases[choice], partner))]))
             else
               a' == a.(routines := a.routines[g := if hasDefault then Free(DefaultEntered) else Blocked(cases, isRange)]))
       case CloseChan(g, c) =>
         // Nobody may be blocked sending, and every blocked receiver goes on without a value.
         && c < |a.chans| && !a.chans[c].closed && !SomeoneAt(a, Case(Sending, c))
         && a'.chans == a.chans[c := a.chans[c].(closed := true)] && a'.count == a.count
         && |a'.routines| == |a.routines|
         && forall h :: 0 <= h < |a.routines| ==>
              a'.routines[h] == if h == g then Free(ClosedChan)
                                else if BlockedAt(a.routines[h], Case(Receiving, c)) then Woken(a.routines[h], Case(Receiving, c), false)
                                else a.routines[h]
       case Make(g, size) =>
         if a.count < |a.chans| then
           a' == a.(count := a.count + 1, chans := a.chans[a.count := Channel(size, 0, false)],
                    routines := a.routines[g := Free(Made(a.count))])
         else
           a' == a.(count := a.count + 1, routines := a.routines[g := Free(Made(0))])
  }

  /** A statement that panics: closing a channel twice or under blocked senders, and choosing to send to a closed one. */
  predicate Panics(a: State, op: Op) {
    && op.g < |a.routines| && a.routines[op.g].Free?
    && match op
       case Communicate(_, cases, _, _, choice, _) =>
         && 0 <= choice < |cases| && cases[choice].chan < |a.chans|
         && cases[choice].dir.Sending? && a.chans[cases[choice].chan].closed
       case CloseChan(_, c) => c < |a.chans| && (a.chans[c].closed || SomeoneAt(a, Case(Sending, c)))
       case Make(_, _) => false
  }
}
