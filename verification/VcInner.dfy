/** The virtual circuit as the source keeps it, with its fields updated in place
    (`vc.rs`): sequence numbers are wrapped bytes, packets go to the link as bytes.
    Each method is proved against the function of `Circuits` with its name. */
module Vc {
  import opened Wrappers
  import opened Seq
  import opened X121
  import opened Packets
  import opened Buffers
  import opened PacketCodec
  import opened Xot
  import opened Wire
  import opened Negotiation
  import opened Circuits

  class DataTransferState {
    const modulo: Modulo
    const sendWindow: Window
    var recvSeq: Byte

    ghost var received: nat

    ghost predicate Valid()
      reads this, sendWindow
    {
      sendWindow.Valid() && sendWindow.modulo == modulo && recvSeq == received % modulo.Size()
    }

    /** The totals behind the wrapped numbers. */
    ghost function Totals(): Transfer
      reads this, sendWindow
    {
      Transfer(modulo, sendWindow.size, sendWindow.acked, sendWindow.sent, received)
    }

    constructor (modulo: Modulo, sendWindowSize: Byte)
      requires 0 < sendWindowSize < modulo.Size()
      ensures Valid() && fresh(sendWindow)
      ensures Totals() == Transfer(modulo, sendWindowSize, 0, 0, 0)
    {
      this.modulo := modulo;
      this.sendWindow := new Window(sendWindowSize, modulo);
      this.recvSeq := 0;
      this.received := 0;
    }

    method UpdateRecvSeq(num: Byte) returns (ok: bool)
      requires Valid()
      modifies this
      ensures Valid()
      ensures ok <==> num == Wrap(old(received), modulo)
      ensures Totals() == if ok then old(Totals()).(received := old(received) + 1) else old(Totals())
    {
      if num != recvSeq {
        return false;
      }
      NextSeqCounts(received, modulo);
      recvSeq := NextSeq(num, modulo);
      received := received + 1;
      return true;
    }

    method UpdateSendWindow(num: Byte) returns (ok: bool)
      requires Valid()
      modifies sendWindow
      ensures Valid()
      ensures ok <==> old(CanAcknowledge(sendWindow.acked, sendWindow.sent, num, modulo))
      ensures Totals() == if ok then AckedTo(old(Totals()), num) else old(Totals())
    {
      ok := sendWindow.UpdateStart(num);
    }
  }

  datatype Phase =
    | Ready
    | WaitCallAccept
    | DataTransfer(transfer: DataTransferState)
    | WaitResetConfirm
    | WaitClearConfirm(initiator: ClearInitiator)
    | Called(callRequest: CallRequest)
    | Cleared(initiator: ClearInitiator, confirm: Option<ClearConfirm>)
    | OutOfOrder
  {
    predicate IsConnected() {
      DataTransfer? || WaitResetConfirm?
    }
  }

  class VcInner {
    const sendLink: XotLink
    const channel: Channel
    var state: Phase
    var params: Params
    var sendDataQueue: seq<SendData>
    var recvDataQueue: seq<Data>

    /** The objects behind the state. */
    ghost function Repr(): set<object>
      reads this
    {
      if state.DataTransfer? then {state.transfer, state.transfer.sendWindow} else {}
    }

    ghost predicate Valid()
      reads this, Repr()
    {
      state.DataTransfer? ==> state.transfer.Valid()
    }

    ghost function State(): VcState
      reads this, Repr()
    {
      match state
      case Ready => VcState.Ready
      case WaitCallAccept => VcState.WaitCallAccept
      case DataTransfer(transfer) => VcState.DataTransfer(transfer.Totals())
      case WaitResetConfirm => VcState.WaitResetConfirm
      case WaitClearConfirm(initiator) => VcState.WaitClearConfirm(initiator)
      case Called(callRequest) => VcState.Called(callRequest)
      case Cleared(initiator, confirm) => VcState.Cleared(initiator, confirm)
      case OutOfOrder => VcState.OutOfOrder
    }

    ghost function Snapshot(): Circuit
      reads this, Repr()
    {
      Circuit(channel, State(), params, sendDataQueue, recvDataQueue)
    }

    ghost function TheLink(): Link
      reads sendLink.stream
    {
      Link(sendLink.stream.room, Fits)
    }

    /** This circuit has done what `e` says, and no more. */
    twostate predicate Did(e: Effect)
      reads this, Repr(), sendLink.stream
    {
      && Valid()
      && Snapshot() == e.c
      && sendLink.stream.written == old(sendLink.stream.written) + FramesOf(e.out)
      && sendLink.stream.room == e.link.room
      && fresh(Repr() - old(Repr()))
    }

    constructor (sendLink: XotLink, channel: Channel, params: Params)
      ensures Valid() && this.sendLink == sendLink
      ensures Snapshot() == Circuit(channel, VcState.Ready, params, [], [])
    {
      this.sendLink := sendLink;
      this.channel := channel;
      this.state := Phase.Ready;
      this.params := params;
      this.sendDataQueue := [];
      this.recvDataQueue := [];
    }

    method SendPacket(packet: Packet) returns (ok: bool)
      modifies sendLink.stream`written, sendLink.stream`room
      ensures ok <==> old(TheLink()).Carries(packet)
      ensures sendLink.stream.written == old(sendLink.stream.written) + if ok then FrameOf(packet) else []
      ensures sendLink.stream.room == old(sendLink.stream.room) - if ok then 1 else 0
    {
      var buf := new BytesMut();
      var encoded := WritePacket(packet, buf);
      if encoded.Err? {
        return false;
      }
      assert buf.data == EncodePacket(packet).value;
      var sent := sendLink.Send(buf.data);
      return sent.Ok?;
    }

    method EnterDataTransfer()
      requires params.WindowValid()
      modifies this`state
      ensures Valid() && fresh(Repr())
      ensures Snapshot() == Circuits.EnterDataTransfer(old(Snapshot()))
    {
      var transfer := new DataTransferState(params.modulo, params.sendWindowSize);
      state := Phase.DataTransfer(transfer);
    }

    method ClearRequest(cause: Byte, diagnostic: Byte, initiator: ClearInitiator)
      requires Valid()
      modifies this`state, sendLink.stream`written, sendLink.stream`room
      ensures Did(SendClearRequest(old(Snapshot()), cause, diagnostic, initiator, old(TheLink())))
    {
      var request := ClearRequestPacket(
        Packets.ClearRequest(params.modulo, channel, cause, diagnostic, X121.NULL, X121.NULL, [], []));
      var ok := SendPacket(request);
      if !ok {
        state := Phase.OutOfOrder;
      } else {
        state := Phase.WaitClearConfirm(initiator);
      }
    }

    method ClearConfirm(request: ClearRequest)
      requires Valid()
      modifies this`state, sendLink.stream`written, sendLink.stream`room
      ensures Did(SendClearConfirm(old(Snapshot()), request, old(TheLink())))
    {
      var confirm := ClearConfirmPacket(
        Packets.ClearConfirm(params.modulo, channel, X121.NULL, X121.NULL, []));
      var ok := SendPacket(confirm);
      if !ok {
        state := Phase.OutOfOrder;
      } else {
        state := Phase.Cleared(Remote(request), None);
      }
    }

    method ResetRequest(cause: Byte, diagnostic: Byte)
      requires Valid()
      modifies this`state, sendLink.stream`written, sendLink.stream`room
      ensures Did(SendResetRequest(old(Snapshot()), cause, diagnostic, old(TheLink())))
    {
      var ok := SendPacket(Packet.ResetRequest(params.modulo, channel, cause, diagnostic));
      if !ok {
        state := Phase.OutOfOrder;
      } else {
        state := Phase.WaitResetConfirm;
      }
    }

    method ResetConfirm()
      requires Valid() && params.WindowValid()
      modifies this`state, sendLink.stream`written, sendLink.stream`room
      ensures Did(SendResetConfirm(old(Snapshot()), old(TheLink())))
    {
      var ok := SendPacket(Packet.ResetConfirm(params.modulo, channel));
      if !ok {
        state := Phase.OutOfOrder;
      } else {
        EnterDataTransfer();
      }
    }

    /** One round of the loop in `SendQueuedData`. */
    method SendFront() returns (ok: bool)
      requires Valid() && state.DataTransfer? && sendDataQueue != [] && state.transfer.sendWindow.IsOpen()
      modifies this`state, this`sendDataQueue, Repr(), sendLink.stream`written, sendLink.stream`room
      ensures Did(SendOne(old(Snapshot()), old(TheLink())))
      ensures ok == (SendOne(old(Snapshot()), old(TheLink())).out != [])
      ensures state == if ok then old(state) else Phase.OutOfOrder
    {
      var transfer := state.transfer;
      var front := sendDataQueue[0];
      var data := DataPacket(Data(params.modulo, channel, transfer.sendWindow.Next(), transfer.recvSeq,
                                  front.qualifier, false, front.more, front.userData));
      assert data == DataOf(Snapshot(), front);
      ok := SendPacket(data);
      if !ok {
        state := Phase.OutOfOrder;
        return;
      }
      sendDataQueue := sendDataQueue[1..];
      var incremented := transfer.sendWindow.Incr();
    }

    /** Sends from the queue while the window is open; returns how many packets were
        sent and how many are left. */
    method SendQueuedData() returns (count: nat, left: nat)
      requires Valid() && state.DataTransfer?
      modifies this`state, this`sendDataQueue, Repr(), sendLink.stream`written, sendLink.stream`room
      ensures Did(SendQueued(old(Snapshot()), old(TheLink())))
      ensures count == |SendQueued(old(Snapshot()), old(TheLink())).out| && left == |sendDataQueue|
    {
      count := 0;
      ghost var written := sendLink.stream.written;
      ghost var whole := SendQueued(Snapshot(), TheLink());
      ghost var done := Effect(Snapshot(), [], TheLink());
      var transfer := state.transfer;
      while sendDataQueue != [] && transfer.sendWindow.IsOpen()
        invariant Valid() && state == Phase.DataTransfer(transfer) == old(state)
        invariant done.c == Snapshot() && done.link == TheLink() && count == |done.out|
        invariant sendLink.stream.written == written + FramesOf(done.out)
        invariant SendingSoFar(whole, done)
        decreases |sendDataQueue|
      {
        SendingNext(whole, done, written);
        done := Then(done, SendOne(done.c, done.link));
        var ok := SendFront();
        if !ok {
          break;
        }
        count := count + 1;
      }
      if state.DataTransfer? {
        SendingEnds(whole, done);
      }
      left := |sendDataQueue|;
    }

    method ReceiveReady()
      requires Valid() && state.DataTransfer?
      modifies this`state, sendLink.stream`written, sendLink.stream`room
      ensures Did(SendReceiveReady(old(Snapshot()), old(TheLink())))
    {
      var recvSeq := state.transfer.recvSeq;
      var ok := SendPacket(Packet.ReceiveReady(params.modulo, channel, recvSeq));
      if !ok {
        state := Phase.OutOfOrder;
      }
    }

    method QueueRecvData(data: Data)
      modifies this`recvDataQueue
      ensures recvDataQueue == old(recvDataQueue) + [data]
    {
      recvDataQueue := recvDataQueue + [data];
    }

    /** Data in data transfer: the checks, each of which resets the circuit when it
        fails. */
    method CheckData(data: Data) returns (ok: bool)
      requires Valid() && state.DataTransfer?
      modifies this`state, this`recvDataQueue, Repr(), sendLink.stream`written, sendLink.stream`room
      ensures ok ==> Valid() && state == old(state) && Snapshot() == Accept(old(Snapshot()), data)
      ensures ok ==> HandleData(old(Snapshot()), data, old(TheLink())) == Respond(Snapshot(), TheLink())
      ensures ok ==> sendLink.stream.written == old(sendLink.stream.written) && TheLink() == old(TheLink())
      ensures !ok ==> Did(HandleData(old(Snapshot()), data, old(TheLink())))
    {
      ok := state.transfer.UpdateRecvSeq(data.sendSeq);
      if !ok {
        ResetRequest(5, 1);
        return;
      }
      ok := state.transfer.UpdateSendWindow(data.recvSeq);
      if !ok {
        ResetRequest(5, 2);
        return;
      }
      QueueRecvData(data);
    }

    /** Data in data transfer: the answer to it. */
    method SendAnswer()
      requires Valid() && state.DataTransfer?
      modifies this`state, this`sendDataQueue, Repr(), sendLink.stream`written, sendLink.stream`room
      ensures Did(Respond(old(Snapshot()), old(TheLink())))
    {
      var sentCount, _ := SendQueuedData();
      if !state.DataTransfer? {
        return;
      }
      if sentCount == 0 {
        ReceiveReady();
      }
    }

    method TakeData(data: Data)
      requires Valid() && state.DataTransfer?
      modifies this`state, this`sendDataQueue, this`recvDataQueue, Repr(),
               sendLink.stream`written, sendLink.stream`room
      ensures Did(HandleData(old(Snapshot()), data, old(TheLink())))
    {
      var ok := CheckData(data);
      if ok {
        SendAnswer();
      }
    }

    /** Receive ready in data transfer. */
    method TakeReceiveReady(recvSeq: Byte)
      requires Valid() && state.DataTransfer?
      modifies this`state, this`sendDataQueue, Repr(), sendLink.stream`written, sendLink.stream`room
      ensures Did(HandleReceiveReady(old(Snapshot()), recvSeq, old(TheLink())))
    {
      var ok := state.transfer.UpdateSendWindow(recvSeq);
      if !ok {
        ResetRequest(5, 2);
        return;
      }
      var _, _ := SendQueuedData();
    }

    method InSetUp(packet: Option<Packet>, expired: bool)
      requires state.Ready? || state.Called? || state.WaitCallAccept?
      requires Valid() && Handles(Snapshot(), packet)
      modifies this`state, this`params, sendLink.stream`written, sendLink.stream`room
      ensures Did(HandlePacket(old(Snapshot()), packet, expired, old(TheLink())))
    {
      match state
      case Ready =>
        if packet.Some? && packet.value.CallRequestPacket? {
          params := NegotiateCalled(packet.value.callRequest, params);
          state := Phase.Called(packet.value.callRequest);
        }
      case Called(_) =>
        if packet.Some? && packet.value.ClearRequestPacket? {
          state := Phase.Cleared(Remote(packet.value.clearRequest), None);
        }
      case WaitCallAccept =>
        if packet.Some? && packet.value.CallAcceptPacket? {
          params := NegotiateCalling(packet.value.callAccept, params);
          EnterDataTransfer();
        } else if packet.Some? && packet.value.ClearRequestPacket? {
          state := Phase.Cleared(Remote(packet.value.clearRequest), None);
        } else if packet.None? && expired {
          ClearRequest(19, 49, TimeOut(21));
        }
    }

    method InDataTransfer(packet: Packet)
      requires state.DataTransfer?
      requires Valid() && Handles(Snapshot(), Some(packet))
      modifies this`state, this`sendDataQueue, this`recvDataQueue, Repr(),
               sendLink.stream`written, sendLink.stream`room
      ensures forall expired :: Did(HandlePacket(old(Snapshot()), Some(packet), expired, old(TheLink())))
    {
      match packet
      case DataPacket(data) => TakeData(data);
      case ReceiveReady(_, _, recvSeq) => TakeReceiveReady(recvSeq);
      case ResetRequest(_, _, _, _) => ResetConfirm();
      case ClearRequestPacket(request) => ClearConfirm(request);
      case _ =>
    }

    method InWaitResetConfirm(packet: Option<Packet>, expired: bool)
      requires state.WaitResetConfirm?
      requires Valid() && Handles(Snapshot(), packet)
      modifies this`state, sendLink.stream`written, sendLink.stream`room
      ensures Did(HandlePacket(old(Snapshot()), packet, expired, old(TheLink())))
    {
      match packet
      case Some(ResetConfirm(_, _)) => EnterDataTransfer();
      case Some(ResetRequest(_, _, _, _)) => ResetConfirm();
      case Some(ClearRequestPacket(request)) => ClearConfirm(request);
      case None => if expired { ClearRequest(19, 51, TimeOut(22)); }
      case Some(_) =>
    }

    method InWaitClearConfirm(packet: Option<Packet>, expired: bool)
      requires state.WaitClearConfirm?
      requires Valid() && Handles(Snapshot(), packet)
      modifies this`state
      ensures Did(HandlePacket(old(Snapshot()), packet, expired, old(TheLink())))
    {
      match packet
      case Some(ClearConfirmPacket(confirm)) => state := Phase.Cleared(state.initiator, Some(confirm));
      case None => if expired { state := Phase.OutOfOrder; }
      case Some(_) =>
    }

    method HandleInPacket(packet: Option<Packet>, expired: bool)
      requires Valid() && Handles(Snapshot(), packet)
      modifies this`state, this`params, this`sendDataQueue, this`recvDataQueue, Repr(),
               sendLink.stream`written, sendLink.stream`room
      ensures Did(HandlePacket(old(Snapshot()), packet, expired, old(TheLink())))
    {
      match state
      case DataTransfer(_) => if packet.Some? { InDataTransfer(packet.value); }
      case WaitResetConfirm => InWaitResetConfirm(packet, expired);
      case WaitClearConfirm(_) => InWaitClearConfirm(packet, expired);
      case Cleared(_, _) =>
      case OutOfOrder =>
      case _ => InSetUp(packet, expired);
    }

    /** One round of the engine: what the link has received, decoded and handled. */
    method HandleReceived(received: Received)
      requires Valid() && HandlesReceived(Snapshot(), received)
      modifies this`state, this`params, this`sendDataQueue, this`recvDataQueue, Repr(),
               sendLink.stream`written, sendLink.stream`room
      ensures Did(ReceivedEffect(old(Snapshot()), received, old(TheLink())))
    {
      match received
      case Failed(_) => state := Phase.OutOfOrder;
      case Packet(bytes) =>
        var decoded := ReadPacket(bytes);
        HandleInPacket(Some(decoded.value), false);
      case Blocked =>
    }

    /** Receiving and handling: the outcome is a function of the bytes received,
        however they were divided. */
    method HandleNext(recvLink: XotLink)
      requires Valid()
      requires HandlesReceived(Snapshot(), Outcome(recvLink.Pending(), Ends(recvLink.stream.unread)))
      modifies this`state, this`params, this`sendDataQueue, this`recvDataQueue, Repr(),
               sendLink.stream`written, sendLink.stream`room, recvLink, recvLink.stream`unread
      ensures var received := old(Outcome(recvLink.Pending(), Ends(recvLink.stream.unread)));
              Did(ReceivedEffect(old(Snapshot()), received, old(TheLink())))
      ensures recvLink.Pending() == match old(Deframe(recvLink.Pending()))
                                    case Whole(_, rest) => rest
                                    case _ => old(recvLink.Pending())
    {
      var received := recvLink.Recv();
      HandleReceived(received);
    }

    // The user's calls

    method Call(addr: X121Addr, callUserData: seq<Byte>)
      requires Valid() && state.Ready?
      modifies this`state, sendLink.stream`written, sendLink.stream`room
      ensures Did(PlaceCall(old(Snapshot()), addr, callUserData, old(TheLink())))
    {
      var ok := SendPacket(CallRequestPacket(CreateCallRequest(channel, addr, callUserData, params)));
      if !ok {
        state := Phase.OutOfOrder;
      } else {
        state := Phase.WaitCallAccept;
      }
    }

    method AcceptIncoming() returns (ok: bool)
      requires Valid() && (state.Called? ==> params.WindowValid())
      modifies this`state, sendLink.stream`written, sendLink.stream`room
      ensures Did(if old(state).Called? then AcceptCall(old(Snapshot()), old(TheLink()))
                  else Effect(old(Snapshot()), [], old(TheLink())))
      ensures ok <==> old(state).Called? && state.DataTransfer?
    {
      if !state.Called? {
        return false;
      }
      ok := SendPacket(CallAcceptPacket(CreateCallAccept(channel, params)));
      if !ok {
        state := Phase.OutOfOrder;
      } else {
        EnterDataTransfer();
      }
    }

    method RejectIncoming(cause: Byte, diagnostic: Byte) returns (ok: bool)
      requires Valid()
      modifies this`state, sendLink.stream`written, sendLink.stream`room
      ensures Did(if old(state).Called? then RejectCall(old(Snapshot()), cause, diagnostic, old(TheLink()))
                  else Effect(old(Snapshot()), [], old(TheLink())))
      ensures ok <==> old(state).Called? && state.Cleared?
    {
      if !state.Called? {
        return false;
      }
      ok := SendPacket(ClearRequestPacket(
        Packets.ClearRequest(params.modulo, channel, cause, diagnostic, X121.NULL, X121.NULL, [], [])));
      if !ok {
        state := Phase.OutOfOrder;
      } else {
        state := Phase.Cleared(Local, None);
      }
    }

    /** The first half of sending: the message is cut up into the queue. */
    method Enqueue(userData: seq<Byte>, qualifier: bool) returns (ok: bool)
      requires Valid() && params.sendPacketSize > 0
      modifies this`sendDataQueue
      ensures ok <==> state.IsConnected()
      ensures Snapshot() == if ok then Submit(old(Snapshot()), Message(userData, qualifier)) else old(Snapshot())
    {
      if !state.IsConnected() {
        return false;
      }
      var packetSize := params.sendPacketSize;
      var rest := userData;
      while rest != []
        invariant sendDataQueue + Fragments(rest, qualifier, packetSize)
               == old(sendDataQueue) + Fragments(userData, qualifier, packetSize)
        decreases |rest|
      {
        var size := Min(packetSize, |rest|);
        var packet := rest[..size];
        FragmentsStep(rest, qualifier, packetSize, sendDataQueue);
        rest := rest[size..];
        var isLast := rest == [];
        sendDataQueue := sendDataQueue + [SendData(packet, qualifier, !isLast)];
      }
      return true;
    }

    /** Takes the first complete message off the receive queue. */
    method PopCompleteData() returns (r: Option<Message>)
      modifies this`recvDataQueue
      ensures match PopComplete(old(recvDataQueue))
              case None => r == None && recvDataQueue == old(recvDataQueue)
              case Some((message, queue)) => r == Some(message) && recvDataQueue == queue
    {
      ghost var fragments := ToFragments(recvDataQueue);
      if recvDataQueue == [] {
        return None;
      }
      var index := 0;
      while index < |recvDataQueue| && recvDataQueue[index].more
        invariant index <= |recvDataQueue|
        invariant forall i | 0 <= i < index :: fragments[i].more
      {
        index := index + 1;
      }
      FirstComplete(fragments, index);
      if index == |recvDataQueue| {
        return None;
      }
      var packets := recvDataQueue[..index + 1];
      recvDataQueue := recvDataQueue[index + 1..];
      assert ToFragments(packets) == fragments[..index + 1];
      var userData, qualifier := JoinPackets(packets);
      return Some(Message(userData, qualifier));
    }

    method Reset(cause: Byte, diagnostic: Byte)
      requires Valid() && state.DataTransfer?
      modifies this`state, sendLink.stream`written, sendLink.stream`room
      ensures Did(SendResetRequest(old(Snapshot()), cause, diagnostic, old(TheLink())))
    {
      ResetRequest(cause, diagnostic);
    }

    method Clear(cause: Byte, diagnostic: Byte)
      requires Valid() && state.IsConnected()
      modifies this`state, sendLink.stream`written, sendLink.stream`room
      ensures Did(SendClearRequest(old(Snapshot()), cause, diagnostic, Local, old(TheLink())))
    {
      ClearRequest(cause, diagnostic, Local);
    }
  }

  /** The source has no code for packets that do not decode. */
  predicate HandlesReceived(c: Circuit, received: Received) {
    received.Packet? ==>
      && DecodePacket(received.packet).Ok?
      && Handles(c, Some(DecodePacket(received.packet).value))
  }

  /** What a circuit does about the outcome of receiving. */
  function ReceivedEffect(c: Circuit, received: Received, link: Link): Effect
    requires HandlesReceived(c, received)
  {
    match received
    case Packet(bytes) => HandlePacket(c, Some(DecodePacket(bytes).value), false, link)
    case Failed(_) => Effect(c.(state := VcState.OutOfOrder), [], link)
    case Blocked => Effect(c, [], link)
  }

  /** A stream that ends, or whose first frame is in error, puts the circuit out of order;
      one that brings nothing yet leaves it as it is. */
  lemma StreamErrorsEnd(c: Circuit, pending: seq<Byte>, ends: bool, link: Link)
    ensures Deframe(pending).Bad? || (Deframe(pending).Partial? && ends) ==>
              && HandlesReceived(c, Outcome(pending, ends))
              && ReceivedEffect(c, Outcome(pending, ends), link) == Effect(c.(state := VcState.OutOfOrder), [], link)
    ensures Deframe(pending).Partial? && !ends ==>
              && HandlesReceived(c, Outcome(pending, ends))
              && ReceivedEffect(c, Outcome(pending, ends), link) == Effect(c, [], link)
  {
  }

  function Then(done: Effect, next: Effect): Effect {
    Effect(next.c, done.out + next.out, next.link)
  }

  /** Of all that `SendQueued` does, `done` is done. */
  ghost predicate SendingSoFar(whole: Effect, done: Effect) {
    done.c.state.DataTransfer? && whole == Then(done, SendQueued(done.c, done.link))
  }

  lemma SendingNext(whole: Effect, done: Effect, written: seq<Byte>)
    requires SendingSoFar(whole, done) && done.c.sendQueue != [] && done.c.state.transfer.IsOpen()
    ensures var next := SendOne(done.c, done.link);
            && (next.out != [] ==> SendingSoFar(whole, Then(done, next)) && |next.out| == 1)
            && (next.out == [] ==> whole == Then(done, next))
            && written + FramesOf(done.out) + FramesOf(next.out) == written + FramesOf(Then(done, next).out)
  {
    var next := SendOne(done.c, done.link);
    WrittenNext(done, next, written);
    if next.c.state.DataTransfer? {
      Append(done.out, next.out, SendQueued(next.c, next.link).out);
    }
  }

  lemma WrittenNext(done: Effect, next: Effect, written: seq<Byte>)
    ensures written + FramesOf(done.out) + FramesOf(next.out) == written + FramesOf(Then(done, next).out)
  {
    FramesAppend(done.out, next.out);
    Assoc(written, FramesOf(done.out), FramesOf(next.out));
  }

  lemma FragmentsStep(rest: seq<Byte>, qualifier: bool, size: nat, queue: seq<SendData>)
    requires rest != [] && size > 0
    ensures var n := Min(size, |rest|);
            queue + Fragments(rest, qualifier, size)
            == queue + [SendData(rest[..n], qualifier, rest[n..] != [])] + Fragments(rest[n..], qualifier, size)
  {
    var n := Min(size, |rest|);
    if |rest| <= size {
      assert rest[..n] == rest && rest[n..] == [];
    }
    assert Fragments(rest, qualifier, size)
        == [SendData(rest[..n], qualifier, rest[n..] != [])] + Fragments(rest[n..], qualifier, size);
  }

  lemma Append(x: seq<Packet>, y: seq<Packet>, z: seq<Packet>)
    ensures x + (y + z) == x + y + z
  {
  }

  lemma SendingEnds(whole: Effect, done: Effect)
    requires SendingSoFar(whole, done) && !(done.c.sendQueue != [] && done.c.state.transfer.IsOpen())
    ensures whole == done
  {
    assert done.out + [] == done.out;
  }

  lemma {:induction false} FirstComplete(fragments: seq<SendData>, index: nat)
    requires index <= |fragments| && forall i | 0 <= i < index :: fragments[i].more
    requires index < |fragments| ==> !fragments[index].more
    ensures CompleteLength(fragments) == if index < |fragments| then Some(index + 1) else None
  {
    if index > 0 {
      FirstComplete(fragments[1..], index - 1);
    }
  }

  lemma {:induction false} JoinAppend(x: seq<SendData>, last: SendData)
    ensures Join(x + [last]) == Join(x) + last.userData
  {
    if x == [] {
      assert Join([last][1..]) == [];
    } else {
      assert (x + [last])[1..] == x[1..] + [last];
      JoinAppend(x[1..], last);
      Assoc(x[0].userData, Join(x[1..]), last.userData);
    }
  }

  /** The data of all packets, and the qualifier of the last. */
  method JoinPackets(packets: seq<Data>) returns (userData: seq<Byte>, qualifier: bool)
    requires packets != []
    ensures Message(userData, qualifier) == Reassemble(ToFragments(packets))
  {
    userData := [];
    qualifier := false;
    for i := 0 to |packets|
      invariant userData == Join(ToFragments(packets)[..i])
      invariant i > 0 ==> qualifier == packets[i - 1].qualifier
    {
      assert ToFragments(packets)[..i + 1] == ToFragments(packets)[..i] + [Fragment(packets[i])];
      JoinAppend(ToFragments(packets)[..i], Fragment(packets[i]));
      userData := userData + packets[i].userData;
      qualifier := packets[i].qualifier;
    }
    assert ToFragments(packets)[..|packets|] == ToFragments(packets);
  }
}
