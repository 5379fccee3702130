/** One end on its own, facing a peer that may send any packets at all. */
module Peer {
  import opened Wrappers
  import opened Seq
  import opened X121
  import opened Packets
  import opened PacketRoundTrip
  import opened Negotiation
  import opened Circuits
  import opened Wire
  import opened Agreement

  datatype Input =
    | Place(addr: X121Addr, userData: seq<Byte>)
    | AcceptIncoming
    | RejectIncoming(cause: Byte, diagnostic: Byte)
    | Arrive(packet: Packet)
    | Expire
    | SubmitMessage(message: Message)
    | Pump
    | Take
    | Reset(cause: Byte, diagnostic: Byte)
    | Clear(cause: Byte, diagnostic: Byte)
    | LinkFails

  /** The packets that come out of the decoder. */
  lemma DecodableIsSound(p: Packet)
    ensures Sound(p) <==> exists buf :: DecodePacket(buf) == Ok(p)
  {
    if Sound(p) {
      RoundTrip(p);
    }
    if buf :| DecodePacket(buf) == Ok(p) {
      DecodedIsSound(buf);
    }
  }

  /** The inputs the source has code for. */
  predicate Handled(c: Circuit, input: Input) {
    match input
    case Place(addr, userData) => c.state.Ready?
    case AcceptIncoming => c.state.Called? && c.params.WindowValid()
    case RejectIncoming(_, _) => c.state.Called?
    case Arrive(packet) => Sound(packet) && Handles(c, Some(packet))
    case Expire => Handles(c, None)
    case SubmitMessage(_) => c.state.IsConnected() && c.params.sendPacketSize > 0
    case Pump => c.state.DataTransfer?
    case Take => PopComplete(c.recvQueue).Some?
    case Reset(_, _) => c.state.DataTransfer?
    case Clear(_, _) => c.state.IsConnected()
    case LinkFails => true
  }

  function React(c: Circuit, input: Input, link: Link): Effect
    requires Handled(c, input)
  {
    match input
    case Place(addr, userData) => PlaceCall(c, addr, userData, link)
    case AcceptIncoming => AcceptCall(c, link)
    case RejectIncoming(cause, diagnostic) => RejectCall(c, cause, diagnostic, link)
    case Arrive(packet) => HandlePacket(c, Some(packet), false, link)
    case Expire => HandlePacket(c, None, true, link)
    case SubmitMessage(m) => Effect(Submit(c, m), [], link)
    case Pump => SendQueued(c, link)
    case Take => Effect(c.(recvQueue := PopComplete(c.recvQueue).value.1), [], link)
    case Reset(cause, diagnostic) => SendResetRequest(c, cause, diagnostic, link)
    case Clear(cause, diagnostic) => SendClearRequest(c, cause, diagnostic, Local, link)
    case LinkFails => Effect(c.(state := OutOfOrder), [], link)
  }

  /** A circuit, and since it last entered data transfer: the data packets it accepted
      and sent, and the acknowledgements it accepted. */
  datatype Observed = Observed(c: Circuit, accepted: seq<Data>, sent: seq<Data>, acks: seq<Byte>)

  function DataSent(out: seq<Packet>): seq<Data> {
    if out == [] then []
    else (if out[0].DataPacket? then [out[0].data] else []) + DataSent(out[1..])
  }

  predicate Restarts(c: Circuit, input: Input, c': Circuit)
    requires Handled(c, input)
  {
    && c'.state.DataTransfer?
    && (c.state.DataTransfer? ==> input.Arrive? && input.packet.ResetRequest?)
  }

  function AckOf(p: Packet): seq<Byte> {
    match p
    case DataPacket(d) => [d.recvSeq]
    case ReceiveReady(_, _, recvSeq) => [recvSeq]
    case _ => []
  }

  /** What is observed after the effect `e` of an input. */
  function After(o: Observed, input: Input, e: Effect): Observed
    requires Handled(o.c, input)
  {
    if Restarts(o.c, input, e.c) then Observed(e.c, [], [], [])
    else
      Observed(e.c, o.accepted + e.c.recvQueue[Min(|o.c.recvQueue|, |e.c.recvQueue|)..], o.sent + DataSent(e.out),
               o.acks + if input.Arrive? then AckOf(input.packet) else [])
  }

  function Observe(o: Observed, input: Input, link: Link): Observed
    requires Handled(o.c, input)
  {
    After(o, input, React(o.c, input, link))
  }

  /** Numbered 0, 1, 2 and so on, modulo 8 or 128. */
  predicate Numbered(data: seq<Data>, modulo: Modulo) {
    forall i | 0 <= i < |data| :: data[i].sendSeq == Wrap(i, modulo)
  }

  function LastAck(acks: seq<Byte>): Byte {
    if acks == [] then 0 else acks[|acks| - 1]
  }

  predicate Transferring(o: Observed, t: Transfer) {
    && t.Valid() && t.modulo == o.c.params.modulo && t.size == o.c.params.sendWindowSize
    && |o.accepted| == t.received && Numbered(o.accepted, t.modulo)
    && |o.sent| == t.sent && Numbered(o.sent, t.modulo)
    && Wrap(t.acked, t.modulo) == LastAck(o.acks)
  }

  predicate Configured(c: Circuit) {
    && c.channel <= MAX_CHANNEL && ValidSizes(c.params) && ValidWindows(c.params)
    && (c.state.IsConnected() ==> c.params.WindowValid())
    && (c.state.Ready? || c.state.Called? || c.state.WaitCallAccept? ==> c.sendQueue == [])
    && (forall d | d in c.sendQueue :: |d.userData| <= c.params.sendPacketSize)
  }

  predicate Safe(o: Observed) {
    && Configured(o.c)
    && (o.c.state.DataTransfer? ==> Transferring(o, o.c.state.transfer))
  }

  // Sending

  lemma DataFits(c: Circuit, d: SendData)
    requires Configured(c) && c.state.DataTransfer? && c.state.transfer.modulo == c.params.modulo
    requires |d.userData| <= c.params.sendPacketSize
    ensures Fits(DataOf(c, d))
  {
    SizesPositive(c.params);
  }

  lemma ControlFits(c: Circuit, cause: Byte, diagnostic: Byte, num: Byte)
    requires c.channel <= MAX_CHANNEL
    ensures Fits(ClearRequestOf(c, cause, diagnostic))
    ensures Fits(ClearConfirmPacket(ClearConfirm(c.params.modulo, c.channel, X121.NULL, X121.NULL, [])))
    ensures Fits(ResetRequest(c.params.modulo, c.channel, cause, diagnostic))
    ensures Fits(ResetConfirm(c.params.modulo, c.channel))
    ensures num < c.params.modulo.Size() ==> Fits(ReceiveReady(c.params.modulo, c.channel, num))
  {
  }

  /** Only a link without room refuses a packet of a safe circuit. */
  predicate RefusedForRoom(c: Circuit, e: Effect) {
    e.c.state.OutOfOrder? ==> c.state.OutOfOrder? || e.link.room == 0
  }

  /** `o` after sending on its own account. */
  function Sending(o: Observed, e: Effect): Observed {
    o.(c := e.c, sent := o.sent + DataSent(e.out))
  }

  lemma OneSafe(o: Observed, link: Link)
    requires Safe(o) && o.c.state.DataTransfer? && o.c.sendQueue != [] && o.c.state.transfer.IsOpen()
    requires link.fits == Fits
    ensures var e := SendOne(o.c, link);
            && Safe(Sending(o, e)) && RefusedForRoom(o.c, e)
            && e.link.fits == Fits && e.c.recvQueue == o.c.recvQueue
            && (forall p | p in e.out :: Fits(p))
  {
    DataFits(o.c, o.c.sendQueue[0]);
    var e := SendOne(o.c, link);
    if e.out != [] {
      assert e.out[1..] == [];
      assert DataSent(e.out) == [e.out[0].data];
    }
  }

  lemma SendingTwice(o: Observed, first: Effect, rest: Effect)
    requires |first.out| == 1
    ensures Sending(Sending(o, first), rest) == Sending(o, Effect(rest.c, first.out + rest.out, rest.link))
  {
    assert (first.out + rest.out)[1..] == rest.out;
    assert first.out[1..] == [];
    assert DataSent(first.out + rest.out) == DataSent(first.out) + DataSent(rest.out);
    assert o.sent + DataSent(first.out) + DataSent(rest.out) == o.sent + (DataSent(first.out) + DataSent(rest.out));
  }

  /** What holds after sending: the circuit is safe, and the link carried everything. */
  predicate SentSafely(o: Observed, e: Effect) {
    && Safe(Sending(o, e)) && RefusedForRoom(o.c, e)
    && e.c.recvQueue == o.c.recvQueue
    && (e.c.state.DataTransfer? || e.c.state.OutOfOrder?)
    && (forall p | p in e.out :: Fits(p))
  }

  lemma {:induction false} QueuedSafe(o: Observed, link: Link)
    requires Safe(o) && o.c.state.DataTransfer? && link.fits == Fits
    ensures SentSafely(o, SendQueued(o.c, link)) && SendQueued(o.c, link).link.fits == Fits
    decreases |o.c.sendQueue|
  {
    if o.c.sendQueue == [] || !o.c.state.transfer.IsOpen() {
      assert o.sent + [] == o.sent;
    } else {
      OneSafe(o, link);
      var first := SendOne(o.c, link);
      if first.c.state.DataTransfer? {
        QueuedSafe(Sending(o, first), first.link);
        SendingTwice(o, first, SendQueued(first.c, first.link));
        MoreSafe(o, first, SendQueued(first.c, first.link));
      }
    }
  }

  lemma MoreSafe(o: Observed, first: Effect, rest: Effect)
    requires o.c.state.DataTransfer? && first.c.recvQueue == o.c.recvQueue && first.c.state.DataTransfer?
    requires forall p | p in first.out :: Fits(p)
    requires SentSafely(Sending(o, first), rest)
    requires Sending(Sending(o, first), rest) == Sending(o, Effect(rest.c, first.out + rest.out, rest.link))
    ensures SentSafely(o, Effect(rest.c, first.out + rest.out, rest.link))
  {
  }

  // Receiving

  lemma AckSafe(o: Observed, num: Byte)
    requires Safe(o) && o.c.state.DataTransfer?
    requires var t := o.c.state.transfer; CanAcknowledge(t.acked, t.sent, num, t.modulo)
    ensures Safe(o.(c := o.c.(state := DataTransfer(AckedTo(o.c.state.transfer, num))), acks := o.acks + [num]))
  {
    assert (o.acks + [num])[|o.acks|] == num;
  }

  lemma AcceptSafe(o: Observed, d: Data)
    requires Safe(o) && o.c.state.DataTransfer?
    requires var t := o.c.state.transfer;
             d.sendSeq == Wrap(t.received, t.modulo) && CanAcknowledge(t.acked, t.sent, d.recvSeq, t.modulo)
    ensures Safe(Observed(Accept(o.c, d), o.accepted + [d], o.sent, o.acks + [d.recvSeq]))
  {
    AckSafe(o, d.recvSeq);
  }

  lemma ReadySafe(o: Observed, link: Link)
    requires Safe(o) && o.c.state.DataTransfer? && link.fits == Fits
    ensures SentSafely(o, SendReceiveReady(o.c, link))
  {
    var t := o.c.state.transfer;
    ControlFits(o.c, 0, 0, Wrap(t.received, t.modulo));
    var e := SendReceiveReady(o.c, link);
    assert DataSent(e.out) == [];
    assert o.sent + [] == o.sent;
  }

  lemma RespondSafe(o: Observed, link: Link)
    requires Safe(o) && o.c.state.DataTransfer? && link.fits == Fits
    ensures SentSafely(o, Respond(o.c, link))
  {
    QueuedSafe(o, link);
    var e := SendQueued(o.c, link);
    if e.c.state.DataTransfer? && e.out == [] {
      assert o.sent + [] == o.sent;
      ReadySafe(Sending(o, e), e.link);
    }
  }

  /** Everything proved of one input. A place of a call is held to the length that
      a call request may have. */
  predicate Kept(o: Observed, input: Input, e: Effect)
    requires Handled(o.c, input)
  {
    && Safe(After(o, input, e))
    && (forall p | p in e.out :: Fits(p))
    && (e.c.state.OutOfOrder? && !o.c.state.OutOfOrder? ==>
          input.LinkFails? || e.link.room == 0 || (input.Expire? && o.c.state.WaitClearConfirm?))
  }

  predicate CallDataFits(c: Circuit, input: Input) {
    input.Place? ==> 10 + AddrBytes(input.addr, c.params.addr) + |input.userData| <= MAX_CALL_LEN
  }

  lemma DataReaction(c: Circuit, packet: Packet, link: Link)
    requires c.state.DataTransfer? && Handled(c, Arrive(packet)) && packet.DataPacket?
    ensures React(c, Arrive(packet), link) == HandleData(c, packet.data, link)
  {
  }

  lemma AcceptedKept(o: Observed, packet: Packet, link: Link)
    requires Safe(o) && o.c.state.DataTransfer? && link.fits == Fits && Handled(o.c, Arrive(packet))
    requires packet.DataPacket?
    requires var (d, t) := (packet.data, o.c.state.transfer);
             d.sendSeq == Wrap(t.received, t.modulo) && CanAcknowledge(t.acked, t.sent, d.recvSeq, t.modulo)
    ensures Kept(o, Arrive(packet), React(o.c, Arrive(packet), link))
  {
    DataReaction(o.c, packet, link);
    var d := packet.data;
    AcceptSafe(o, d);
    var o1 := Observed(Accept(o.c, d), o.accepted + [d], o.sent, o.acks + [d.recvSeq]);
    RespondSafe(o1, link);
    var e := Respond(o1.c, link);
    assert e.c.recvQueue[|o.c.recvQueue|..] == [d];
    assert After(o, Arrive(packet), e) == Sending(o1, e);
  }

  lemma DataKept(o: Observed, packet: Packet, link: Link)
    requires Safe(o) && o.c.state.DataTransfer? && link.fits == Fits && Handled(o.c, Arrive(packet))
    requires packet.DataPacket?
    ensures Kept(o, Arrive(packet), React(o.c, Arrive(packet), link))
  {
    var (d, t) := (packet.data, o.c.state.transfer);
    if d.sendSeq == Wrap(t.received, t.modulo) && CanAcknowledge(t.acked, t.sent, d.recvSeq, t.modulo) {
      AcceptedKept(o, packet, link);
    } else {
      DataReaction(o.c, packet, link);
      ControlFits(o.c, 5, 1, 0);
      ControlFits(o.c, 5, 2, 0);
    }
  }

  lemma ReceiveReadyReaction(c: Circuit, packet: Packet, link: Link)
    requires c.state.DataTransfer? && Handled(c, Arrive(packet)) && packet.ReceiveReady?
    ensures React(c, Arrive(packet), link) == HandleReceiveReady(c, packet.recvSeq, link)
  {
  }

  lemma ReceiveReadyKept(o: Observed, packet: Packet, link: Link)
    requires Safe(o) && o.c.state.DataTransfer? && link.fits == Fits && Handled(o.c, Arrive(packet))
    requires packet.ReceiveReady?
    ensures Kept(o, Arrive(packet), React(o.c, Arrive(packet), link))
  {
    ReceiveReadyReaction(o.c, packet, link);
    var num := packet.recvSeq;
    var t := o.c.state.transfer;
    if CanAcknowledge(t.acked, t.sent, num, t.modulo) {
      AckSafe(o, num);
      var o1 := o.(c := o.c.(state := DataTransfer(AckedTo(t, num))), acks := o.acks + [num]);
      QueuedSafe(o1, link);
      var e := SendQueued(o1.c, link);
      assert o.accepted + [] == o.accepted;
      assert After(o, Arrive(packet), e) == Sending(o1, e);
    } else {
      ControlFits(o.c, 5, 2, 0);
    }
  }

  lemma NegotiationConfigured(p: Packet, params: Params)
    requires EncodePacket(p).Ok? && ValidSizes(params) && ValidWindows(params)
    ensures p.CallAcceptPacket? ==>
              var q := NegotiateCalling(p.callAccept, params); ValidSizes(q) && ValidWindows(q)
    ensures p.CallRequestPacket? ==>
              var q := NegotiateCalled(p.callRequest, params); ValidSizes(q) && ValidWindows(q)
  {
    ReceivedInRange(p);
    SizesInRange(SetUpFacilities(p));
  }

  /** Effects that send at most one control packet and change neither queue. */
  predicate Plain(o: Observed, input: Input, e: Effect)
    requires Handled(o.c, input)
  {
    && Configured(e.c)
    && (e.out == [] || (|e.out| == 1 && !e.out[0].DataPacket? && Fits(e.out[0])))
    && e.c.recvQueue == o.c.recvQueue
    && (e.c.state.DataTransfer? ==>
          if Restarts(o.c, input, e.c) then e.c.state.transfer == FreshTransfer(e.c.params)
          else e.c == o.c && (input.Arrive? ==> AckOf(input.packet) == []))
    && (e.c.state.OutOfOrder? && !o.c.state.OutOfOrder? ==>
          input.LinkFails? || e.link.room == 0 || (input.Expire? && o.c.state.WaitClearConfirm?))
  }

  lemma PlainKept(o: Observed, input: Input, e: Effect)
    requires Safe(o) && Handled(o.c, input) && Plain(o, input, e)
    ensures Kept(o, input, e)
  {
    assert e.out != [] ==> e.out[1..] == [];
    assert DataSent(e.out) == [];
    assert o.sent + [] == o.sent && o.accepted + [] == o.accepted && o.acks + [] == o.acks;
  }

  lemma TransferReaction(c: Circuit, packet: Packet, link: Link)
    requires c.state.DataTransfer? && Handled(c, Arrive(packet)) && !packet.DataPacket? && !packet.ReceiveReady?
    ensures React(c, Arrive(packet), link)
         == (match packet
             case ResetRequest(_, _, _, _) => SendResetConfirm(c, link)
             case ClearRequestPacket(request) => SendClearConfirm(c, request, link)
             case _ => Effect(c, [], link))
  {
  }

  lemma TransferPlain(o: Observed, packet: Packet, link: Link)
    requires Safe(o) && link.fits == Fits && Handled(o.c, Arrive(packet)) && o.c.state.DataTransfer?
    requires !packet.DataPacket? && !packet.ReceiveReady?
    ensures Plain(o, Arrive(packet), React(o.c, Arrive(packet), link))
  {
    TransferReaction(o.c, packet, link);
    ControlFits(o.c, 0, 0, 0);
  }

  lemma ResettingReaction(c: Circuit, packet: Packet, link: Link)
    requires c.state.WaitResetConfirm? && Handled(c, Arrive(packet))
    ensures React(c, Arrive(packet), link)
         == (match packet
             case ResetConfirm(_, _) => Effect(EnterDataTransfer(c), [], link)
             case ResetRequest(_, _, _, _) => SendResetConfirm(c, link)
             case ClearRequestPacket(request) => SendClearConfirm(c, request, link)
             case _ => Effect(c, [], link))
  {
  }

  lemma ResettingPlain(o: Observed, packet: Packet, link: Link)
    requires Safe(o) && link.fits == Fits && Handled(o.c, Arrive(packet)) && o.c.state.WaitResetConfirm?
    ensures Plain(o, Arrive(packet), React(o.c, Arrive(packet), link))
  {
    ResettingReaction(o.c, packet, link);
    ControlFits(o.c, 0, 0, 0);
  }

  lemma SetUpPlain(o: Observed, packet: Packet, link: Link)
    requires Safe(o) && link.fits == Fits && Handled(o.c, Arrive(packet)) && !o.c.state.IsConnected()
    ensures Plain(o, Arrive(packet), React(o.c, Arrive(packet), link))
  {
    NegotiationConfigured(packet, o.c.params);
  }

  lemma PlacePlain(o: Observed, addr: X121Addr, userData: seq<Byte>, link: Link)
    requires Safe(o) && link.fits == Fits && o.c.state.Ready? && CallDataFits(o.c, Place(addr, userData))
    ensures Plain(o, Place(addr, userData), PlaceCall(o.c, addr, userData, link))
  {
    CallRequestFits(o.c.channel, addr, userData, o.c.params);
  }

  lemma AcceptPlain(o: Observed, link: Link)
    requires Safe(o) && link.fits == Fits && o.c.state.Called? && o.c.params.WindowValid()
    ensures Plain(o, AcceptIncoming, AcceptCall(o.c, link))
  {
    CallAcceptFits(o.c.channel, o.c.params);
  }

  lemma OwnPlain(o: Observed, input: Input, link: Link)
    requires Safe(o) && link.fits == Fits && Handled(o.c, input) && CallDataFits(o.c, input)
    requires !input.Arrive? && !input.SubmitMessage? && !input.Pump? && !input.Take?
    ensures Plain(o, input, React(o.c, input, link))
  {
    match input
    case Place(addr, userData) => PlacePlain(o, addr, userData, link);
    case AcceptIncoming => AcceptPlain(o, link);
    case RejectIncoming(cause, diagnostic) => ControlFits(o.c, cause, diagnostic, 0);
    case Expire =>
      ControlFits(o.c, 19, 49, 0);
      ControlFits(o.c, 19, 51, 0);
    case Reset(cause, diagnostic) => ControlFits(o.c, cause, diagnostic, 0);
    case Clear(cause, diagnostic) => ControlFits(o.c, cause, diagnostic, 0);
    case LinkFails =>
  }

  // The user's side

  lemma PumpKept(o: Observed, link: Link)
    requires Safe(o) && link.fits == Fits && Handled(o.c, Pump)
    ensures Kept(o, Pump, React(o.c, Pump, link))
  {
    QueuedSafe(o, link);
    assert o.accepted + [] == o.accepted && o.acks + [] == o.acks;
    assert Observe(o, Pump, link) == Sending(o, SendQueued(o.c, link));
  }

  lemma QueueKept(o: Observed, input: Input, link: Link)
    requires Safe(o) && Handled(o.c, input) && (input.SubmitMessage? || input.Take?)
    ensures Kept(o, input, React(o.c, input, link))
  {
    assert o.accepted + [] == o.accepted && o.sent + [] == o.sent && o.acks + [] == o.acks;
    if input.SubmitMessage? {
      FragmentSizes(input.message.userData, input.message.qualifier, o.c.params.sendPacketSize);
    }
  }

  lemma InputKept(o: Observed, input: Input, link: Link)
    requires Safe(o) && link.fits == Fits && Handled(o.c, input) && CallDataFits(o.c, input)
    ensures Kept(o, input, React(o.c, input, link))
  {
    if input.Pump? {
      PumpKept(o, link);
    } else if input.SubmitMessage? || input.Take? {
      QueueKept(o, input, link);
    } else if input.Arrive? && o.c.state.DataTransfer? && input.packet.DataPacket? {
      DataKept(o, input.packet, link);
    } else if input.Arrive? && o.c.state.DataTransfer? && input.packet.ReceiveReady? {
      ReceiveReadyKept(o, input.packet, link);
    } else {
      if !input.Arrive? {
        OwnPlain(o, input, link);
      } else if o.c.state.DataTransfer? {
        TransferPlain(o, input.packet, link);
      } else if o.c.state.WaitResetConfirm? {
        ResettingPlain(o, input.packet, link);
      } else {
        SetUpPlain(o, input.packet, link);
      }
      PlainKept(o, input, React(o.c, input, link));
    }
  }

  // Runs

  /** An input, and how many more packets the link carries. */
  datatype Occasion = Occasion(input: Input, room: nat)

  predicate PeerRun(o: Observed, inputs: seq<Occasion>)
    decreases |inputs|
  {
    inputs == [] ||
    (&& Handled(o.c, inputs[0].input) && CallDataFits(o.c, inputs[0].input)
     && PeerRun(Observe(o, inputs[0].input, Link(inputs[0].room, Fits)), inputs[1..]))
  }

  function PeerFinal(o: Observed, inputs: seq<Occasion>): Observed
    requires PeerRun(o, inputs)
    decreases |inputs|
  {
    if inputs == [] then o
    else PeerFinal(Observe(o, inputs[0].input, Link(inputs[0].room, Fits)), inputs[1..])
  }

  lemma {:induction false} PeerRunSafe(o: Observed, inputs: seq<Occasion>)
    requires Safe(o) && PeerRun(o, inputs)
    ensures Safe(PeerFinal(o, inputs))
    decreases |inputs|
  {
    if inputs != [] {
      var link := Link(inputs[0].room, Fits);
      InputKept(o, inputs[0].input, link);
      PeerRunSafe(Observe(o, inputs[0].input, link), inputs[1..]);
    }
  }

  /** Whatever packets arrive: the data accepted since data transfer (re)started is
      numbered without a gap, so is the data sent, and no more of it is waiting for
      an acknowledgement than the negotiated window, counting from the last
      acknowledgement accepted. */
  lemma SafeAgainstAnyPeer(c: Circuit, inputs: seq<Occasion>)
    requires New(c) && Configured(c) && PeerRun(Observed(c, [], [], []), inputs)
    ensures var o := PeerFinal(Observed(c, [], [], []), inputs);
            o.c.state.DataTransfer? ==>
              && Numbered(o.accepted, o.c.params.modulo) && Numbered(o.sent, o.c.params.modulo)
              && o.c.params.WindowValid()
              && exists acked: nat :: && acked <= |o.sent| <= acked + o.c.params.sendWindowSize
                                      && Wrap(acked, o.c.params.modulo) == LastAck(o.acks)
  {
    PeerRunSafe(Observed(c, [], [], []), inputs);
  }

  /** And in every such state, on every input: all packets sent fit the wire, and the
      circuit goes out of order only for a link without room, or at its end. */
  lemma EverythingSentFits(c: Circuit, inputs: seq<Occasion>, next: Occasion)
    requires New(c) && Configured(c) && PeerRun(Observed(c, [], [], []), inputs)
    requires var o := PeerFinal(Observed(c, [], [], []), inputs);
             Handled(o.c, next.input) && CallDataFits(o.c, next.input)
    ensures var o := PeerFinal(Observed(c, [], [], []), inputs);
            var e := React(o.c, next.input, Link(next.room, Fits));
            && (forall p | p in e.out :: EncodePacket(p).Ok? && MIN_PACKET_LEN <= |EncodePacket(p).value| <= MAX_PACKET_LEN)
            && (e.c.state.OutOfOrder? && !o.c.state.OutOfOrder? ==>
                  next.input.LinkFails? || e.link.room == 0 || (next.input.Expire? && o.c.state.WaitClearConfirm?))
  {
    PeerRunSafe(Observed(c, [], [], []), inputs);
    var o := PeerFinal(Observed(c, [], [], []), inputs);
    InputKept(o, next.input, Link(next.room, Fits));
  }

  /** The only packets the source cannot handle in a reachable state: a clear request
      while clearing, and a call accept that leaves the window invalid. */
  lemma UnhandledPackets(c: Circuit, inputs: seq<Occasion>, p: Packet)
    requires New(c) && Configured(c) && PeerRun(Observed(c, [], [], []), inputs) && Sound(p)
    ensures var o := PeerFinal(Observed(c, [], [], []), inputs);
            !Handled(o.c, Arrive(p)) <==>
              || (o.c.state.WaitClearConfirm? && p.ClearRequestPacket?)
              || (&& o.c.state.WaitCallAccept? && p.CallAcceptPacket?
                  && GetWindowSize(p.callAccept.facilities).None?
                  && o.c.params.sendWindowSize >= p.callAccept.modulo.Size())
  {
    PeerRunSafe(Observed(c, [], [], []), inputs);
    UnhandledBySafe(PeerFinal(Observed(c, [], [], []), inputs), p);
  }

  lemma UnhandledBySafe(o: Observed, p: Packet)
    requires Safe(o) && Sound(p)
    ensures !Handled(o.c, Arrive(p)) <==>
              || (o.c.state.WaitClearConfirm? && p.ClearRequestPacket?)
              || (&& o.c.state.WaitCallAccept? && p.CallAcceptPacket?
                  && GetWindowSize(p.callAccept.facilities).None?
                  && o.c.params.sendWindowSize >= p.callAccept.modulo.Size())
  {
    if p.CallAcceptPacket? {
      ReceivedInRange(p);
      SizesInRange(p.callAccept.facilities);
    }
  }

  /** The numbers that acknowledge: those of totals between the last acknowledged and the
      last sent. */
  ghost predicate Acknowledges(num: Byte, acked: nat, sent: nat, modulo: Modulo) {
    exists k :: acked <= k <= sent && k % modulo.Size() == num
  }

  /** What becomes of data and receive ready, decided by counting what has been accepted
      and sent before. Data out of order, or with an impossible acknowledgement, resets the
      circuit with cause 5 and a diagnostic that says which, and is not passed on; so does
      a receive ready with an impossible acknowledgement. Other data is passed on. */
  ghost predicate Judged(o: Observed, p: Packet, e: Effect)
    requires o.c.state.DataTransfer?
  {
    var (m, acked) := (o.c.params.modulo, o.c.state.transfer.acked);
    && (p.DataPacket? ==>
          if p.data.sendSeq != |o.accepted| % m.Size() then Resets(o, e, 1)
          else if !Acknowledges(p.data.recvSeq, acked, |o.sent|, m) then Resets(o, e, 2)
          else e.c.recvQueue == o.c.recvQueue + [p.data])
    && (p.ReceiveReady? && !Acknowledges(p.recvSeq, acked, |o.sent|, m) ==> Resets(o, e, 2))
  }

  predicate Resets(o: Observed, e: Effect, diagnostic: Byte) {
    && e.out == [ResetRequest(o.c.params.modulo, o.c.channel, 5, diagnostic)]
    && e.c.recvQueue == o.c.recvQueue && e.c.state.WaitResetConfirm?
  }

  lemma RefusalsSayWhy(c: Circuit, inputs: seq<Occasion>, p: Packet, room: nat)
    requires New(c) && Configured(c) && PeerRun(Observed(c, [], [], []), inputs)
    requires var o := PeerFinal(Observed(c, [], [], []), inputs);
             o.c.state.DataTransfer? && Handled(o.c, Arrive(p)) && room > 0
    ensures var o := PeerFinal(Observed(c, [], [], []), inputs);
            Judged(o, p, React(o.c, Arrive(p), Link(room, Fits)))
  {
    PeerRunSafe(Observed(c, [], [], []), inputs);
    SafeJudges(PeerFinal(Observed(c, [], [], []), inputs), p, room);
  }

  lemma SafeJudges(o: Observed, p: Packet, room: nat)
    requires Safe(o) && o.c.state.DataTransfer? && Handled(o.c, Arrive(p)) && room > 0
    ensures Judged(o, p, React(o.c, Arrive(p), Link(room, Fits)))
  {
    var t := o.c.state.transfer;
    var link := Link(room, Fits);
    ControlFits(o.c, 5, 1, 0);
    ControlFits(o.c, 5, 2, 0);
    if p.DataPacket? {
      DataReaction(o.c, p, link);
      RangeTestIsExact(t.acked, t.sent, p.data.recvSeq, t.modulo);
      if p.data.sendSeq == Wrap(t.received, t.modulo) && CanAcknowledge(t.acked, t.sent, p.data.recvSeq, t.modulo) {
        AcceptSafe(o, p.data);
        RespondSafe(Observed(Accept(o.c, p.data), o.accepted + [p.data], o.sent, o.acks + [p.data.recvSeq]), link);
      }
    } else if p.ReceiveReady? {
      ReceiveReadyReaction(o.c, p, link);
      RangeTestIsExact(t.acked, t.sent, p.recvSeq, t.modulo);
    }
  }
}
