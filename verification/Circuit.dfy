/** What a virtual circuit does (`vc.rs`), as functions from one state to the next.
    The sequence numbers of a circuit in data transfer appear here as unbounded
    totals; the class `VcInner` refines them to wrapped bytes.

    The transmission link is an oracle: it carries `room` more packets before it
    fails, and refuses every packet that does not satisfy `fits`. */
module Circuits {
  import opened Wrappers
  import opened Seq
  import opened X121
  import opened Packets
  import opened Negotiation

  datatype SendData = SendData(userData: seq<Byte>, qualifier: bool, more: bool)

  datatype Message = Message(userData: seq<Byte>, qualifier: bool)

  datatype ClearInitiator = Local | Remote(request: ClearRequest) | TimeOut(timer: Byte)

  /** Data transfer since the last call set-up or reset: how many packets have
      been sent, how many of them are acknowledged, and how many were received. */
  datatype Transfer = Transfer(modulo: Modulo, size: Byte, acked: nat, sent: nat, received: nat) {
    predicate Valid() {
      0 < size < modulo.Size() && acked <= sent <= acked + size
    }

    predicate IsOpen() {
      sent - acked < size
    }
  }

  datatype VcState =
    | Ready
    | WaitCallAccept
    | DataTransfer(transfer: Transfer)
    | WaitResetConfirm
    | WaitClearConfirm(initiator: ClearInitiator)
    | Called(callRequest: CallRequest)
    | Cleared(initiator: ClearInitiator, confirm: Option<ClearConfirm>)
    | OutOfOrder
  {
    predicate IsConnected() {
      DataTransfer? || WaitResetConfirm?
    }
  }

  datatype Circuit = Circuit(
    channel: Channel, state: VcState, params: Params,
    sendQueue: seq<SendData>, recvQueue: seq<Data>)
  {
    predicate Valid() {
      state.DataTransfer? ==> state.transfer.Valid()
    }
  }

  datatype Link = Link(room: nat, fits: Packet -> bool) {
    predicate Carries(p: Packet) {
      room > 0 && fits(p)
    }
  }

  /** A state reached, the packets sent on the way, and what is left of the link. */
  datatype Effect = Effect(c: Circuit, out: seq<Packet>, link: Link)

  /** Sends `p` and goes on as `c`; a refusal puts the circuit out of order. */
  function SendThen(p: Packet, c: Circuit, link: Link): Effect {
    if link.Carries(p) then Effect(c, [p], link.(room := link.room - 1))
    else Effect(c.(state := OutOfOrder), [], link)
  }

  function FreshTransfer(params: Params): Transfer {
    Transfer(params.modulo, params.sendWindowSize, 0, 0, 0)
  }

  function EnterDataTransfer(c: Circuit): Circuit {
    c.(state := DataTransfer(FreshTransfer(c.params)))
  }

  function ClearRequestOf(c: Circuit, cause: Byte, diagnostic: Byte): Packet {
    ClearRequestPacket(ClearRequest(c.params.modulo, c.channel, cause, diagnostic, X121.NULL, X121.NULL, [], []))
  }

  function SendClearRequest(c: Circuit, cause: Byte, diagnostic: Byte, initiator: ClearInitiator, link: Link): Effect {
    SendThen(ClearRequestOf(c, cause, diagnostic), c.(state := WaitClearConfirm(initiator)), link)
  }

  function SendClearConfirm(c: Circuit, request: ClearRequest, link: Link): Effect {
    SendThen(ClearConfirmPacket(ClearConfirm(c.params.modulo, c.channel, X121.NULL, X121.NULL, [])),
             c.(state := Cleared(Remote(request), None)), link)
  }

  function SendResetRequest(c: Circuit, cause: Byte, diagnostic: Byte, link: Link): Effect {
    SendThen(ResetRequest(c.params.modulo, c.channel, cause, diagnostic), c.(state := WaitResetConfirm), link)
  }

  function SendResetConfirm(c: Circuit, link: Link): Effect {
    SendThen(ResetConfirm(c.params.modulo, c.channel), EnterDataTransfer(c), link)
  }

  function Wrap(total: nat, modulo: Modulo): Byte {
    total % modulo.Size()
  }

  function DataOf(c: Circuit, d: SendData): Packet
    requires c.state.DataTransfer?
  {
    var t := c.state.transfer;
    DataPacket(Data(c.params.modulo, c.channel, Wrap(t.sent, t.modulo), Wrap(t.received, t.modulo),
                    d.qualifier, false, d.more, d.userData))
  }

  function SendReceiveReady(c: Circuit, link: Link): Effect
    requires c.state.DataTransfer?
  {
    var t := c.state.transfer;
    SendThen(ReceiveReady(c.params.modulo, c.channel, Wrap(t.received, t.modulo)), c, link)
  }

  /** One packet from the head of the queue. */
  function SendOne(c: Circuit, link: Link): Effect
    requires c.state.DataTransfer? && c.sendQueue != []
  {
    var p := DataOf(c, c.sendQueue[0]);
    var t := c.state.transfer;
    if link.Carries(p) then
      Effect(c.(sendQueue := c.sendQueue[1..], state := DataTransfer(t.(sent := t.sent + 1))),
             [p], link.(room := link.room - 1))
    else Effect(c.(state := OutOfOrder), [], link)
  }

  /** As much of the queue as the window lets through. */
  function SendQueued(c: Circuit, link: Link): Effect
    requires c.state.DataTransfer?
    decreases |c.sendQueue|
  {
    if c.sendQueue == [] || !c.state.transfer.IsOpen() then Effect(c, [], link)
    else
      var first := SendOne(c, link);
      if !first.c.state.DataTransfer? then first
      else
        var rest := SendQueued(first.c, first.link);
        Effect(rest.c, first.out + rest.out, rest.link)
  }

  function AckedTo(t: Transfer, num: Byte): Transfer {
    t.(acked := Total(t.acked, num, t.modulo))
  }

  function Accept(c: Circuit, d: Data): Circuit
    requires c.state.DataTransfer?
  {
    var t := AckedTo(c.state.transfer, d.recvSeq);
    c.(state := DataTransfer(t.(received := t.received + 1)), recvQueue := c.recvQueue + [d])
  }

  /** Queued data carries the acknowledgement; without any, receive ready does. */
  function Respond(c: Circuit, link: Link): Effect
    requires c.state.DataTransfer?
  {
    var e := SendQueued(c, link);
    if e.c.state.DataTransfer? && e.out == [] then SendReceiveReady(e.c, e.link) else e
  }

  function HandleData(c: Circuit, d: Data, link: Link): Effect
    requires c.state.DataTransfer?
  {
    var t := c.state.transfer;
    if d.sendSeq != Wrap(t.received, t.modulo) then SendResetRequest(c, 5, 1, link)
    else if !CanAcknowledge(t.acked, t.sent, d.recvSeq, t.modulo) then SendResetRequest(c, 5, 2, link)
    else Respond(Accept(c, d), link)
  }

  function HandleReceiveReady(c: Circuit, recvSeq: Byte, link: Link): Effect
    requires c.state.DataTransfer?
  {
    var t := c.state.transfer;
    if !CanAcknowledge(t.acked, t.sent, recvSeq, t.modulo) then SendResetRequest(c, 5, 2, link)
    else SendQueued(c.(state := DataTransfer(AckedTo(t, recvSeq))), link)
  }

  /** The source has no code for a clear collision, and asserts that a window
      negotiated by a call accept is smaller than the modulus. */
  predicate Handles(c: Circuit, packet: Option<Packet>) {
    && (c.state.WaitClearConfirm? ==> !(packet.Some? && packet.value.ClearRequestPacket?))
    && (c.state.WaitCallAccept? && packet.Some? && packet.value.CallAcceptPacket?
        ==> NegotiateCalling(packet.value.callAccept, c.params).WindowValid())
    && (c.state.IsConnected() ==> c.params.WindowValid())
  }

  /** One arriving packet, or the absence of one when the timer of the current
      state may have `expired`. */
  function HandlePacket(c: Circuit, packet: Option<Packet>, expired: bool, link: Link): Effect
    requires Handles(c, packet)
  {
    var idle := Effect(c, [], link);
    match c.state
    case Ready =>
      (match packet
       case Some(CallRequestPacket(request)) =>
         idle.(c := c.(params := NegotiateCalled(request, c.params), state := Called(request)))
       case _ => idle)
    case Called(_) =>
      (match packet
       case Some(ClearRequestPacket(request)) => idle.(c := c.(state := Cleared(Remote(request), None)))
       case _ => idle)
    case WaitCallAccept =>
      (match packet
       case Some(CallAcceptPacket(accept)) =>
         idle.(c := EnterDataTransfer(c.(params := NegotiateCalling(accept, c.params))))
       case Some(ClearRequestPacket(request)) => idle.(c := c.(state := Cleared(Remote(request), None)))
       case Some(_) => idle
       case None => if expired then SendClearRequest(c, 19, 49, TimeOut(21), link) else idle)
    case DataTransfer(_) =>
      (match packet
       case Some(DataPacket(d)) => HandleData(c, d, link)
       case Some(ReceiveReady(_, _, recvSeq)) => HandleReceiveReady(c, recvSeq, link)
       case Some(ResetRequest(_, _, _, _)) => SendResetConfirm(c, link)
       case Some(ClearRequestPacket(request)) => SendClearConfirm(c, request, link)
       case _ => idle)
    case WaitResetConfirm =>
      (match packet
       case Some(ResetConfirm(_, _)) => idle.(c := EnterDataTransfer(c))
       case Some(ResetRequest(_, _, _, _)) => SendResetConfirm(c, link)
       case Some(ClearRequestPacket(request)) => SendClearConfirm(c, request, link)
       case None => if expired then SendClearRequest(c, 19, 51, TimeOut(22), link) else idle
       case Some(_) => idle)
    case WaitClearConfirm(initiator) =>
      (match packet
       case Some(ClearConfirmPacket(confirm)) => idle.(c := c.(state := Cleared(initiator, Some(confirm))))
       case None => if expired then idle.(c := c.(state := OutOfOrder)) else idle
       case Some(_) => idle)
    case Cleared(_, _) => idle
    case OutOfOrder => idle
  }

  /** The packets a circuit does something about, state by state. */
  predicate Matters(state: VcState, p: Packet) {
    match state
    case Ready => p.CallRequestPacket?
    case Called(_) => p.ClearRequestPacket?
    case WaitCallAccept => p.CallAcceptPacket? || p.ClearRequestPacket?
    case DataTransfer(_) => p.DataPacket? || p.ReceiveReady? || p.ResetRequest? || p.ClearRequestPacket?
    case WaitResetConfirm => p.ResetConfirm? || p.ResetRequest? || p.ClearRequestPacket?
    case WaitClearConfirm(_) => p.ClearConfirmPacket?
    case Cleared(_, _) => false
    case OutOfOrder => false
  }

  /** All other packets are passed over; a packet that arrives is handled whether or not
      a timer has run out; and without a packet nothing happens before one has. */
  lemma OthersArePassedOver(c: Circuit, packet: Option<Packet>, expired: bool, link: Link)
    requires Handles(c, packet)
    ensures packet.Some? && !Matters(c.state, packet.value) ==>
              HandlePacket(c, packet, expired, link) == Effect(c, [], link)
    ensures packet.Some? ==> HandlePacket(c, packet, expired, link) == HandlePacket(c, packet, !expired, link)
    ensures packet.None? && !expired ==> HandlePacket(c, packet, expired, link) == Effect(c, [], link)
    ensures packet.None? && !c.state.WaitCallAccept? && !c.state.WaitResetConfirm? && !c.state.WaitClearConfirm? ==>
              HandlePacket(c, packet, expired, link) == Effect(c, [], link)
    ensures packet.None? && expired && c.state.WaitClearConfirm? ==>
              HandlePacket(c, packet, expired, link) == Effect(c.(state := OutOfOrder), [], link)
  {
  }

  // Call set-up

  function PlaceCall(c: Circuit, addr: X121Addr, userData: seq<Byte>, link: Link): Effect {
    SendThen(CallRequestPacket(CreateCallRequest(c.channel, addr, userData, c.params)),
             c.(state := WaitCallAccept), link)
  }

  function AcceptCall(c: Circuit, link: Link): Effect {
    SendThen(CallAcceptPacket(CreateCallAccept(c.channel, c.params)), EnterDataTransfer(c), link)
  }

  function RejectCall(c: Circuit, cause: Byte, diagnostic: Byte, link: Link): Effect {
    SendThen(ClearRequestOf(c, cause, diagnostic), c.(state := Cleared(Local, None)), link)
  }

  // The user's side

  /** The packets a message is cut into: all full but the last, none for an empty
      message, the more bit on all but the last. */
  function Fragments(userData: seq<Byte>, qualifier: bool, size: nat): seq<SendData>
    requires size > 0
  {
    if userData == [] then []
    else if |userData| <= size then [SendData(userData, qualifier, false)]
    else [SendData(userData[..size], qualifier, true)] + Fragments(userData[size..], qualifier, size)
  }

  /** All packets carry the qualifier; all but the last are full and have the more bit,
      and the last is neither empty nor has the bit. */
  lemma {:induction false} FragmentSizes(userData: seq<Byte>, qualifier: bool, size: nat)
    requires size > 0
    ensures var fragments := Fragments(userData, qualifier, size);
            && (forall f | f in fragments :: 0 < |f.userData| <= size && f.qualifier == qualifier)
            && (forall i | 0 <= i < |fragments| - 1 :: |fragments[i].userData| == size && fragments[i].more)
            && (fragments != [] ==> !fragments[|fragments| - 1].more)
    decreases |userData|
  {
    if |userData| > size {
      FragmentSizes(userData[size..], qualifier, size);
    }
  }

  /** The first half of `send`; the second is `SendQueued`. */
  function Submit(c: Circuit, m: Message): Circuit
    requires c.params.sendPacketSize > 0
  {
    c.(sendQueue := c.sendQueue + Fragments(m.userData, m.qualifier, c.params.sendPacketSize))
  }

  function Fragment(d: Data): SendData {
    SendData(d.userData, d.qualifier, d.more)
  }

  function ToFragments(queue: seq<Data>): (fragments: seq<SendData>)
    ensures |fragments| == |queue|
    ensures forall i | 0 <= i < |queue| :: fragments[i] == Fragment(queue[i])
  {
    seq(|queue|, i requires 0 <= i < |queue| => Fragment(queue[i]))
  }

  /** The number of packets up to and including the first without the more bit. */
  function CompleteLength(fragments: seq<SendData>): (n: Option<nat>)
    ensures n.Some? ==> 0 < n.value <= |fragments| && !fragments[n.value - 1].more
    ensures n.None? ==> fragments == [] || fragments[|fragments| - 1].more
  {
    if fragments == [] then None
    else if !fragments[0].more then Some(1)
    else
      match CompleteLength(fragments[1..])
      case Some(n) => Some(n + 1)
      case None => None
  }

  function Join(fragments: seq<SendData>): seq<Byte> {
    if fragments == [] then [] else fragments[0].userData + Join(fragments[1..])
  }

  /** The message the packets of one complete sequence stand for: their data, and
      the qualifier of the last. */
  function Reassemble(fragments: seq<SendData>): Message
    requires fragments != []
  {
    Message(Join(fragments), fragments[|fragments| - 1].qualifier)
  }

  /** The first complete message in the receive queue, and the queue without it. */
  function PopComplete(queue: seq<Data>): Option<(Message, seq<Data>)> {
    match CompleteLength(ToFragments(queue))
    case None => None
    case Some(n) => Some((Reassemble(ToFragments(queue)[..n]), queue[n..]))
  }
}
