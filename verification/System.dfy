/** Two ends of a virtual circuit joined by two FIFO channels, and every step that
    either can take: the user's calls, arriving packets, timers and link failures. */
module CircuitSystem {
  import opened Wrappers
  import opened Seq
  import opened Packets
  import opened Negotiation
  import opened Circuits
  import opened Flow

  /** One end: its circuit, and the history the properties are about. No step
      depends on the history, but for the rule on `owed` explained at `Enabled`.

      `sentIn` and `gotIn` are the packets sent and accepted in each epoch,
      `owed` the resets started here whose confirm has not arrived,
      `resets` all resets started here, `submitted` and `delivered` the messages
      given to `send` and returned by `recv`, `consumed` the packets of the
      latter, `pending` the calls of `send` that have queued their packets and
      still have to pump them, and `restarted` says that a reset has been completed since
      the queue was last pumped. */
  datatype Party = Party(
    c: Circuit, sentIn: Log, gotIn: Log, owed: nat, resets: nat,
    submitted: seq<Message>, delivered: seq<Message>, consumed: seq<SendData>,
    pending: nat, restarted: bool)

  datatype Sys = Sys(a: Party, b: Party, ab: seq<Packet>, ba: seq<Packet>)

  function Swap(s: Sys): Sys {
    Sys(s.b, s.a, s.ba, s.ab)
  }

  datatype Event =
    | SubmitMessage(message: Message)
    | Pump(link: Link)
    | Deliver(link: Link)
    | TimerExpires(link: Link)
    | Receive
    | StartReset(cause: Byte, diagnostic: Byte, link: Link)
    | StartClear(cause: Byte, diagnostic: Byte, link: Link)
    | LinkFails

  function ModeOf(state: VcState): Mode {
    match state
    case WaitCallAccept => Calling
    case DataTransfer(_) => Transferring
    case WaitResetConfirm => Resetting
    case _ => Gone
  }

  function DataIn(packets: seq<Packet>): seq<SendData> {
    if packets == [] then []
    else (if packets[0].DataPacket? then [Fragment(packets[0].data)] else []) + DataIn(packets[1..])
  }

  /** Adds to the current epoch. */
  function Extend(log: Log, more: seq<SendData>): Log {
    if log == [] then [] else log[..|log| - 1] + [log[|log| - 1] + more]
  }

  /** The history after a circuit has sent `e.out` on its own account. */
  function AfterSending(p: Party, e: Effect): Party {
    p.(c := e.c,
       sentIn := Extend(p.sentIn, DataIn(e.out)),
       owed := p.owed + Requests(e.out),
       resets := p.resets + Requests(e.out))
  }

  /** The history after `packet` arrived and had effect `e`. */
  function AfterArrival(p: Party, packet: Packet, e: Effect): Party {
    var mode := ModeOf(p.c.state);
    if Opens(mode, packet) && e.c.state.DataTransfer? then
      p.(c := e.c, sentIn := p.sentIn + [[]], gotIn := p.gotIn + [[]],
         owed := if packet.ResetConfirm? && p.owed > 0 then p.owed - 1 else p.owed,
         restarted := p.sentIn != [])
    else if mode == Transferring && packet.ResetConfirm? && p.owed > 0 then p.(c := e.c, owed := p.owed - 1)
    else
      var accepted := ToFragments(e.c.recvQueue[Min(|p.c.recvQueue|, |e.c.recvQueue|)..]);
      var p' := AfterSending(p, e);
      p'.(gotIn := Extend(p.gotIn, accepted),
          restarted := p.restarted && !(mode == Transferring && (packet.DataPacket? || packet.ReceiveReady?)))
  }

  /** When the source lets end `a` take a step: pumping while a reset is under way,
      and a clear collision, are not implemented. */
  predicate Possible(s: Sys, event: Event) {
    match event
    case SubmitMessage(_) => s.a.c.state.IsConnected() && s.a.c.params.sendPacketSize > 0
    case Pump(_) => s.a.pending > 0 && s.a.c.state.DataTransfer?
    case Deliver(_) => s.ba != [] && Handles(s.a.c, Some(s.ba[0]))
    case TimerExpires(_) => Handles(s.a.c, None)
    case Receive => PopComplete(s.a.c.recvQueue).Some?
    case StartReset(_, _, _) => s.a.c.state.DataTransfer?
    case StartClear(_, _, _) => s.a.c.state.IsConnected()
    case LinkFails => true
  }

  /** A possible step that starts no reset while the confirm of an earlier one is
      outstanding. `PrematureReset` shows what happens otherwise. */
  predicate Enabled(s: Sys, event: Event) {
    Possible(s, event) && (event.StartReset? ==> s.a.owed == 0)
  }

  /** A step of end `a`; steps of `b` are steps of the swapped system. */
  function Step(s: Sys, event: Event): Sys
    requires Possible(s, event)
  {
    match event
    case SubmitMessage(m) =>
      s.(a := s.a.(c := Submit(s.a.c, m), submitted := s.a.submitted + [m], pending := s.a.pending + 1))
    case Pump(link) =>
      var e := SendQueued(s.a.c, link);
      s.(a := AfterSending(s.a, e).(pending := s.a.pending - 1, restarted := false), ab := s.ab + e.out)
    case Deliver(link) =>
      var e := HandlePacket(s.a.c, Some(s.ba[0]), false, link);
      s.(a := AfterArrival(s.a, s.ba[0], e), ab := s.ab + e.out, ba := s.ba[1..])
    case TimerExpires(link) =>
      var e := HandlePacket(s.a.c, None, true, link);
      s.(a := AfterSending(s.a, e), ab := s.ab + e.out)
    case Receive =>
      var (message, queue) := PopComplete(s.a.c.recvQueue).value;
      var taken := ToFragments(s.a.c.recvQueue)[..|s.a.c.recvQueue| - |queue|];
      s.(a := s.a.(c := s.a.c.(recvQueue := queue),
                   delivered := s.a.delivered + [message], consumed := s.a.consumed + taken))
    case StartReset(cause, diagnostic, link) =>
      var e := SendResetRequest(s.a.c, cause, diagnostic, link);
      s.(a := AfterSending(s.a, e), ab := s.ab + e.out)
    case StartClear(cause, diagnostic, link) =>
      var e := SendClearRequest(s.a.c, cause, diagnostic, Local, link);
      s.(a := AfterSending(s.a, e), ab := s.ab + e.out)
    case LinkFails =>
      s.(a := s.a.(c := s.a.c.(state := OutOfOrder)))
  }

  function NewParty(c: Circuit, epochs: nat): Party {
    Party(c, seq(epochs, _ => []), seq(epochs, _ => []), 0, 0, [], [], [], 0, false)
  }

  /** The called side has just accepted the call; its call accept is on the way to
      the caller. */
  predicate Init(s: Sys, modulo: Modulo) {
    && s.a == NewParty(s.a.c, 0) && s.b == NewParty(s.b.c, 1)
    && s.a.c.state.WaitCallAccept? && s.b.c == EnterDataTransfer(s.b.c)
    && s.a.c.sendQueue == [] && s.b.c.sendQueue == [] && s.a.c.recvQueue == [] && s.b.c.recvQueue == []
    && s.ab == [] && |s.ba| == 1 && s.ba[0].CallAcceptPacket?
    && s.ba[0].callAccept.modulo == modulo && s.b.c.params.modulo == modulo
    && s.b.c.params.WindowValid() && s.b.c.params.sendPacketSize > 0
    && NegotiateCalling(s.ba[0].callAccept, s.a.c.params).WindowValid()
    && NegotiateCalling(s.ba[0].callAccept, s.a.c.params).sendPacketSize > 0
  }

  datatype Move = Move(byA: bool, event: Event)

  predicate Allowed(s: Sys, m: Move) {
    Enabled(if m.byA then s else Swap(s), m.event)
  }

  function Apply(s: Sys, m: Move): Sys
    requires Allowed(s, m)
  {
    if m.byA then Step(s, m.event) else Swap(Step(Swap(s), m.event))
  }

  /** A run from `s`: each move is allowed where it is made. */
  predicate Run(s: Sys, moves: seq<Move>)
    decreases |moves|
  {
    moves == [] || (Allowed(s, moves[0]) && Run(Apply(s, moves[0]), moves[1..]))
  }

  function Final(s: Sys, moves: seq<Move>): Sys
    requires Run(s, moves)
    decreases |moves|
  {
    if moves == [] then s else Final(Apply(s, moves[0]), moves[1..])
  }
}
