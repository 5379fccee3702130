/** What every packet of a circuit carries: the circuit's own logical channel and
    modulus, and never the D bit. */
module Labels {
  import opened Wrappers
  import opened Seq
  import opened Packets
  import opened Negotiation
  import opened Circuits
  import opened Peer

  function ChannelOf(p: Packet): Channel {
    match p
    case CallRequestPacket(p) => p.channel
    case CallAcceptPacket(p) => p.channel
    case ClearRequestPacket(p) => p.channel
    case ClearConfirmPacket(p) => p.channel
    case DataPacket(p) => p.channel
    case ReceiveReady(_, channel, _) => channel
    case ReceiveNotReady(_, channel, _) => channel
    case ResetRequest(_, channel, _, _) => channel
    case ResetConfirm(_, channel) => channel
  }

  function ModuloOf(p: Packet): Modulo {
    match p
    case CallRequestPacket(p) => p.modulo
    case CallAcceptPacket(p) => p.modulo
    case ClearRequestPacket(p) => p.modulo
    case ClearConfirmPacket(p) => p.modulo
    case DataPacket(p) => p.modulo
    case ReceiveReady(modulo, _, _) => modulo
    case ReceiveNotReady(modulo, _, _) => modulo
    case ResetRequest(modulo, _, _, _) => modulo
    case ResetConfirm(modulo, _) => modulo
  }

  predicate Labelled(p: Packet, channel: Channel, modulo: Modulo) {
    && ChannelOf(p) == channel && ModuloOf(p) == modulo
    && (p.DataPacket? ==> !p.data.delivery)
    && !p.ReceiveNotReady?
  }

  predicate AllLabelled(out: seq<Packet>, c: Circuit) {
    forall p | p in out :: Labelled(p, c.channel, c.params.modulo)
  }

  lemma {:induction false} QueuedLabelled(c: Circuit, link: Link)
    requires c.state.DataTransfer?
    ensures var e := SendQueued(c, link);
            AllLabelled(e.out, c) && e.c.channel == c.channel && e.c.params == c.params
    decreases |c.sendQueue|
  {
    if c.sendQueue != [] && c.state.transfer.IsOpen() {
      var first := SendOne(c, link);
      if first.c.state.DataTransfer? {
        QueuedLabelled(first.c, first.link);
      }
    }
  }

  lemma TransferLabelled(c: Circuit, p: Packet, link: Link)
    requires c.state.DataTransfer?
    ensures p.DataPacket? ==>
              var e := HandleData(c, p.data, link); AllLabelled(e.out, c) && e.c.channel == c.channel
    ensures p.ReceiveReady? ==>
              var e := HandleReceiveReady(c, p.recvSeq, link); AllLabelled(e.out, c) && e.c.channel == c.channel
  {
    if p.DataPacket? {
      QueuedLabelled(Accept(c, p.data), link);
    } else if p.ReceiveReady? {
      QueuedLabelled(c.(state := DataTransfer(AckedTo(c.state.transfer, p.recvSeq))), link);
    }
  }

  lemma HandledLabelled(c: Circuit, packet: Option<Packet>, expired: bool, link: Link)
    requires Handles(c, packet)
    ensures var e := HandlePacket(c, packet, expired, link); AllLabelled(e.out, c) && e.c.channel == c.channel
  {
    if c.state.DataTransfer? && packet.Some? && (packet.value.DataPacket? || packet.value.ReceiveReady?) {
      TransferLabelled(c, packet.value, link);
    }
  }

  /** For every circuit and every input: what it sends goes out on its own channel, with
      its own modulus and without the D bit, and its channel never changes. */
  lemma EverythingSentIsLabelled(c: Circuit, input: Input, link: Link)
    requires Handled(c, input)
    ensures var e := React(c, input, link);
            && e.c.channel == c.channel
            && (forall p | p in e.out :: ChannelOf(p) == c.channel && ModuloOf(p) == c.params.modulo)
            && (forall p | p in e.out && p.DataPacket? :: !p.data.delivery)
  {
    match input
    case Arrive(packet) => HandledLabelled(c, Some(packet), false, link);
    case Expire => HandledLabelled(c, None, true, link);
    case Pump => QueuedLabelled(c, link);
    case _ =>
  }

  // A link that fails

  lemma QueuedFails(c: Circuit, fits: Packet -> bool)
    requires c.state.DataTransfer?
    ensures var (e0, e1) := (SendQueued(c, Link(0, fits)), SendQueued(c, Link(1, fits)));
            && e0.out == []
            && (e1.out != [] ==> e0.c.state.OutOfOrder?)
            && (e0.c.state.OutOfOrder? ==> e0.c == c.(state := OutOfOrder))
            && (!e0.c.state.OutOfOrder? ==> e0 == Effect(c, [], Link(0, fits)) && e1 == Effect(c, [], Link(1, fits)))
  {
  }

  lemma ResponseFails(c: Circuit, p: Packet, fits: Packet -> bool)
    requires c.state.DataTransfer? && Handles(c, Some(p)) && (p.DataPacket? || p.ReceiveReady?)
    ensures var (e0, e1) := (HandlePacket(c, Some(p), false, Link(0, fits)), HandlePacket(c, Some(p), false, Link(1, fits)));
            e0.out == [] && (e1.out != [] ==> e0.c.state.OutOfOrder?)
  {
    if p.DataPacket? {
      QueuedFails(Accept(c, p.data), fits);
    } else {
      QueuedFails(c.(state := DataTransfer(AckedTo(c.state.transfer, p.recvSeq))), fits);
    }
  }

  /** Whenever an input makes a circuit send, and its link fails to, nothing is sent and
      the circuit is out of order: it never goes on as if it had sent. */
  lemma FailingLinkEnds(c: Circuit, input: Input, fits: Packet -> bool)
    requires Handled(c, input)
    ensures var (e0, e1) := (React(c, input, Link(0, fits)), React(c, input, Link(1, fits)));
            e0.out == [] && (e1.out != [] ==> e0.c.state.OutOfOrder?)
  {
    match input
    case Arrive(packet) =>
      if c.state.DataTransfer? && (packet.DataPacket? || packet.ReceiveReady?) {
        ResponseFails(c, packet, fits);
      }
    case Pump => QueuedFails(c, fits);
    case _ =>
  }
}
