module ChannelAutomaton {
  // The channel automaton that every Go channel is translated to: nine locations and eighteen edges over the two
  // integers chan_counter[i] and chan_buffer[i].

  datatype Loc =
    | Idle | NewSender | ConfirmingA | NewReceiver | ConfirmingB
    | Closing | Closed | ConfirmingClosed | Bad

  /** Committed locations have to be left before anything else happens. */
  predicate IsCommitted(loc: Loc) {
    loc.NewSender? || loc.ConfirmingA? || loc.NewReceiver? || loc.ConfirmingB? || loc.Closing? || loc.ConfirmingClosed?
  }

  /** The five arrays of handshake channels. */
  datatype Port = SenderTrigger | SenderConfirm | ReceiverTrigger | ReceiverConfirm | Close

  datatype Sync = NoSync | Emit(port: Port) | Await(port: Port)

  datatype Guard =
    | Always
    | AboveBuffer   // counter > buffer
    | WithinBuffer  // counter <= buffer
    | BelowBuffer   // counter < buffer
    | AtLeastBuffer // counter >= buffer
    | Positive | NonPositive | Negative | NonNegative

  datatype Update =
    | Skip
    | MarkClosed    // buffer = -1
    | Increment     // counter++
    | FloorAtZero   // counter = counter >= 0 ? counter : 0

  datatype Edge = Edge(src: Loc, guard: Guard, sync: Sync, update: Update, dst: Loc)

  const EDGE_COUNT := 18

  /** The edges, numbered in the order in which they are added to the process. */
  function EdgeAt(n: nat): Edge
    requires 1 <= n <= EDGE_COUNT
  {
    // Open channel, arriving sender
    if n == 1 then Edge(Idle, Always, Await(SenderTrigger), Skip, NewSender)
    else if n == 2 then Edge(NewSender, AboveBuffer, NoSync, Skip, Idle)
    else if n == 3 then Edge(NewSender, WithinBuffer, Emit(SenderConfirm), Skip, ConfirmingA)
    else if n == 4 then Edge(ConfirmingA, Positive, NoSync, Skip, Idle)
    else if n == 5 then Edge(ConfirmingA, NonPositive, Emit(ReceiverConfirm), Skip, Idle)
    // Open channel, arriving receiver
    else if n == 6 then Edge(Idle, Always, Await(ReceiverTrigger), Skip, NewReceiver)
    else if n == 7 then Edge(NewReceiver, Negative, NoSync, Skip, Idle)
    else if n == 8 then Edge(NewReceiver, NonNegative, Emit(ReceiverConfirm), Skip, ConfirmingB)
    else if n == 9 then Edge(ConfirmingB, BelowBuffer, NoSync, Skip, Idle)
    else if n == 10 then Edge(ConfirmingB, AtLeastBuffer, Emit(SenderConfirm), Skip, Idle)
    // Closing
    else if n == 11 then Edge(Idle, WithinBuffer, Await(Close), MarkClosed, Closing)
    else if n == 12 then Edge(Closing, Negative, Emit(ReceiverConfirm), Increment, Closing)
    else if n == 13 then Edge(Closing, NonNegative, NoSync, Skip, Closed)
    else if n == 14 then Edge(Idle, AboveBuffer, Await(Close), MarkClosed, Bad)
    // Closed channel
    else if n == 15 then Edge(Closed, Always, Await(ReceiverTrigger), Skip, ConfirmingClosed)
    else if n == 16 then Edge(ConfirmingClosed, Always, Emit(ReceiverConfirm), FloorAtZero, Closed)
    else if n == 17 then Edge(Closed, Always, Await(SenderTrigger), Skip, Bad)
    else Edge(Closed, Always, Await(Close), Skip, Bad)
  }

  /** One channel at run time. The fields cap, sent and received are observers: no guard reads
      them. They record the capacity given to make_chan, the confirmed sends and the values handed
      to receivers. */
  datatype Chan = Chan(loc: Loc, counter: int, buffer: int, cap: int, sent: int, received: int) {
    function Items(): int { sent - received }
  }

  const FRESH := Chan(Idle, 0, 0, 0, 0, 0)

  predicate Holds(guard: Guard, ch: Chan) {
    match guard
    case Always => true
    case AboveBuffer => ch.counter > ch.buffer
    case WithinBuffer => ch.counter <= ch.buffer
    case BelowBuffer => ch.counter < ch.buffer
    case AtLeastBuffer => ch.counter >= ch.buffer
    case Positive => ch.counter > 0
    case NonPositive => ch.counter <= 0
    case Negative => ch.counter < 0
    case NonNegative => ch.counter >= 0
  }

  function Execute(update: Update, ch: Chan): Chan {
    match update
    case Skip => ch
    case MarkClosed => ch.(buffer := -1)
    case Increment => ch.(counter := ch.counter + 1)
    case FloorAtZero => ch.(counter := if ch.counter >= 0 then ch.counter else 0)
  }

  /** A receiver confirmed in `ch` gets a value, except when it is released by a close or reads a
      closed channel in which nothing is left. */
  predicate Delivers(ch: Chan) {
    !ch.loc.Closing? && !(ch.loc.ConfirmingClosed? && ch.counter < 0)
  }

  /** The observers after a handshake on `sync` that started in `ch`. */
  function Observe(sync: Sync, ch: Chan): Chan {
    if sync == Emit(SenderConfirm) then ch.(sent := ch.sent + 1)
    else if sync == Emit(ReceiverConfirm) && Delivers(ch) then ch.(received := ch.received + 1)
    else ch
  }

  /** Channel `ch` after edge `e`. */
  function Take(e: Edge, ch: Chan): Chan {
    Execute(e.update, Observe(e.sync, ch)).(loc := e.dst)
  }
}
