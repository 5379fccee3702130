/** From single packets to whole steps and runs: the invariant holds in every
    reachable state, and no arriving packet ever provokes a reset. */
module Steps {
  import opened Wrappers
  import opened Seq
  import opened Packets
  import opened Negotiation
  import opened Circuits
  import opened Flow
  import opened CircuitSystem
  import opened Invariant
  import opened Preservation

  lemma {:induction false} OutConcat(x: seq<Packet>, y: seq<Packet>)
    ensures DataIn(x + y) == DataIn(x) + DataIn(y)
    ensures Requests(x + y) == Requests(x) + Requests(y)
  {
    if x == [] {
      assert x + y == y;
    } else {
      assert (x + y)[1..] == x[1..] + y;
      OutConcat(x[1..], y);
      var first := if x[0].DataPacket? then [Fragment(x[0].data)] else [];
      FragmentsAssoc(first, DataIn(x[1..]), DataIn(y));
    }
  }

  lemma FragmentsAssoc(x: seq<SendData>, y: seq<SendData>, z: seq<SendData>)
    ensures x + (y + z) == x + y + z
  {
  }

  lemma AfterSendingTwice(p: Party, e: Effect, e': Effect)
    ensures AfterSending(AfterSending(p, e), e') == AfterSending(p, Effect(e'.c, e.out + e'.out, e'.link))
  {
    OutConcat(e.out, e'.out);
    if p.sentIn != [] {
      var log := p.sentIn;
      var n := |log| - 1;
      var x, y := DataIn(e.out), DataIn(e'.out);
      assert Extend(Extend(log, x), y) == Extend(log, x + y) by {
        assert Extend(log, x)[n] == log[n] + x && Extend(log, x)[..n] == log[..n];
        assert log[n] + x + y == log[n] + (x + y);
      }
    }
  }

  lemma NothingSent(p: Party, c: Circuit, link: Link)
    ensures AfterSending(p, Effect(c, [], link)) == p.(c := c)
  {
    ExtendFacts(p.sentIn, []);
  }

  lemma CountOne(packet: Packet)
    ensures Requests([packet]) == if packet.ResetRequest? then 1 else 0
    ensures DataIn([packet]) == if packet.DataPacket? then [Fragment(packet.data)] else []
  {
    assert Requests([packet][1..]) == 0 && DataIn([packet][1..]) == [];
  }

  lemma OneSent(p: Party, c: Circuit, packet: Packet, link: Link)
    ensures AfterSending(p, Effect(c, [packet], link))
         == p.(c := c, sentIn := Extend(p.sentIn, DataIn([packet])),
               owed := p.owed + (if packet.ResetRequest? then 1 else 0),
               resets := p.resets + (if packet.ResetRequest? then 1 else 0))
    ensures !packet.DataPacket? ==> Extend(p.sentIn, DataIn([packet])) == p.sentIn
  {
    ExtendFacts(p.sentIn, []);
    CountOne(packet);
  }

  /** `s` after `a` has gone through `e`. */
  function Through(s: Sys, e: Effect): Sys {
    s.(a := AfterSending(s.a, e), ab := s.ab + e.out)
  }

  lemma ThroughTwice(s: Sys, e: Effect, e': Effect)
    ensures Through(Through(s, e), e') == Through(s, Effect(e'.c, e.out + e'.out, e'.link))
  {
    AfterSendingTwice(s.a, e, e');
    assert s.ab + e.out + e'.out == s.ab + (e.out + e'.out);
  }

  lemma SendOneKeeps(s: Sys, link: Link, modulo: Modulo)
    requires Core(s, modulo) && s.a.c.state.DataTransfer?
    requires s.a.c.sendQueue != [] && s.a.c.state.transfer.IsOpen()
    ensures var s' := Through(s, SendOne(s.a.c, link));
            && Core(s', modulo) && AckNow(s'.a, s.b, s'.ab, modulo)
            && (AckNow(s.b, s.a, s.ba, modulo) ==> AckNow(s.b, s'.a, s.ba, modulo))
  {
    var p := DataOf(s.a.c, s.a.c.sendQueue[0]);
    var e := SendOne(s.a.c, link);
    if link.Carries(p) {
      OneSent(s.a, e.c, p, e.link);
      assert Through(s, e) == Sent(s, e.c, p);
      SentForward(s, e.c, p, modulo);
      SentBackward(s, e.c, p, modulo);
    } else {
      NothingSent(s.a, e.c, link);
      LeavingKeeps(s, OutOfOrder, [], s.ba, modulo);
    }
  }

  lemma ReceiveReadyKeeps(s: Sys, link: Link, modulo: Modulo)
    requires Core(s, modulo) && s.a.c.state.DataTransfer?
    ensures var s' := Through(s, SendReceiveReady(s.a.c, link));
            && Core(s', modulo) && AckNow(s'.a, s.b, s'.ab, modulo)
            && (AckNow(s.b, s.a, s.ba, modulo) ==> AckNow(s.b, s'.a, s.ba, modulo))
  {
    var e := SendReceiveReady(s.a.c, link);
    if e.out != [] {
      OneSent(s.a, e.c, e.out[0], e.link);
      assert Through(s, e) == Sent(s, e.c, e.out[0]);
      SentForward(s, e.c, e.out[0], modulo);
      SentBackward(s, e.c, e.out[0], modulo);
    } else {
      NothingSent(s.a, e.c, e.link);
      LeavingKeeps(s, OutOfOrder, [], s.ba, modulo);
    }
  }

  /** Pumping the queue keeps the invariant, and sends the newest acknowledgement
      if it sends anything. */
  lemma {:induction false} PumpKeeps(s: Sys, link: Link, modulo: Modulo)
    requires Core(s, modulo) && s.a.c.state.DataTransfer?
    ensures var e := SendQueued(s.a.c, link);
            var s' := Through(s, e);
            && Core(s', modulo)
            && (e.out != [] || AckNow(s.a, s.b, s.ab, modulo) ==> AckNow(s'.a, s.b, s'.ab, modulo))
            && (AckNow(s.b, s.a, s.ba, modulo) ==> AckNow(s.b, s'.a, s.ba, modulo))
    decreases |s.a.c.sendQueue|
  {
    if s.a.c.sendQueue == [] || !s.a.c.state.transfer.IsOpen() {
      NothingSent(s.a, s.a.c, link);
      assert Through(s, SendQueued(s.a.c, link)) == s;
    } else {
      var first := SendOne(s.a.c, link);
      SendOneKeeps(s, link, modulo);
      if first.c.state.DataTransfer? {
        PumpKeeps(Through(s, first), first.link, modulo);
        ThroughTwice(s, first, SendQueued(first.c, first.link));
      }
    }
  }

  /** What is sent in response to data always carries its acknowledgement. */
  lemma RespondKeeps(s: Sys, link: Link, modulo: Modulo)
    requires Core(s, modulo) && s.a.c.state.DataTransfer?
    ensures var s' := Through(s, Respond(s.a.c, link));
            && Core(s', modulo) && AckNow(s'.a, s.b, s'.ab, modulo)
            && (AckNow(s.b, s.a, s.ba, modulo) ==> AckNow(s.b, s'.a, s.ba, modulo))
  {
    PumpKeeps(s, link, modulo);
    var e := SendQueued(s.a.c, link);
    var s1 := Through(s, e);
    if e.c.state.DataTransfer? && e.out == [] {
      var ready := SendReceiveReady(e.c, e.link);
      assert s1.a.c == e.c && s1.b == s.b && s1.ba == s.ba;
      ReceiveReadyKeeps(s1, e.link, modulo);
      ThroughTwice(s, e, ready);
      assert Effect(ready.c, e.out + ready.out, ready.link) == ready == Respond(s.a.c, link);
    } else {
      assert Respond(s.a.c, link) == e;
    }
  }

  lemma {:induction false} SendQueuedFrame(c: Circuit, link: Link)
    requires c.state.DataTransfer?
    ensures var e := SendQueued(c, link);
            && e.c.recvQueue == c.recvQueue && e.c.params == c.params && e.c.channel == c.channel
            && (e.c.state.DataTransfer? || e.c.state == OutOfOrder)
            && Requests(e.out) == 0
    decreases |c.sendQueue|
  {
    if c.sendQueue != [] && c.state.transfer.IsOpen() {
      var first := SendOne(c, link);
      if first.c.state.DataTransfer? {
        SendQueuedFrame(first.c, first.link);
        OutConcat(first.out, SendQueued(first.c, first.link).out);
        assert Requests(first.out[1..]) == 0;
      }
    }
  }

  /** The invariant says nothing about pending pumps, restarts or the messages. */
  lemma HistoryFree(s: Sys, pending: nat, restarted: bool, submitted: seq<Message>, delivered: seq<Message>,
                    consumed: seq<SendData>, sendQueue: seq<SendData>, recvQueue: seq<Data>, modulo: Modulo)
    requires Inv(s, modulo)
    ensures var c := s.a.c.(sendQueue := sendQueue, recvQueue := recvQueue);
            Inv(s.(a := s.a.(c := c, pending := pending, restarted := restarted, submitted := submitted,
                             delivered := delivered, consumed := consumed)), modulo)
  {
    var c := s.a.c.(sendQueue := sendQueue, recvQueue := recvQueue);
    assert Summary(s.a.(c := c, pending := pending, restarted := restarted, submitted := submitted,
                        delivered := delivered, consumed := consumed)) == Summary(s.a);
  }

  // Arrivals

  /** An arrival that provokes no reset, and keeps the invariant. */
  predicate Harmless(s: Sys, link: Link, modulo: Modulo)
    requires s.ba != [] && Handles(s.a.c, Some(s.ba[0]))
  {
    && Requests(HandlePacket(s.a.c, Some(s.ba[0]), false, link).out) == 0
    && Inv(Step(s, Deliver(link)), modulo)
  }

  lemma DataHandled(c: Circuit, packet: Packet, link: Link)
    requires c.state.DataTransfer? && packet.DataPacket? && Handles(c, Some(packet))
    requires var t := c.state.transfer;
             && packet.data.sendSeq == Wrap(t.received, t.modulo)
             && CanAcknowledge(t.acked, t.sent, packet.data.recvSeq, t.modulo)
    ensures HandlePacket(c, Some(packet), false, link) == Respond(Accept(c, packet.data), link)
  {
  }

  /** Taking acceptable data is accepting it and then responding. */
  lemma DataStep(s: Sys, link: Link)
    requires s.ba != [] && s.a.c.state.DataTransfer? && s.ba[0].DataPacket? && Handles(s.a.c, Some(s.ba[0]))
    requires var t := s.a.c.state.transfer;
             && s.ba[0].data.sendSeq == Wrap(t.received, t.modulo)
             && CanAcknowledge(t.acked, t.sent, s.ba[0].data.recvSeq, t.modulo)
    ensures var c := Accept(s.a.c, s.ba[0].data);
            var s' := Through(Taken(s, c.recvQueue), Respond(c, link));
            && Taken(s, c.recvQueue).a.c == c
            && HandlePacket(s.a.c, Some(s.ba[0]), false, link) == Respond(c, link)
            && Step(s, Deliver(link)) == s'.(a := s'.a.(restarted := false))
  {
    var d := s.ba[0].data;
    var c := Accept(s.a.c, d);
    var e := Respond(c, link);
    DataHandled(s.a.c, s.ba[0], link);
    RespondFrame(c, link);
    assert ToFragments(e.c.recvQueue[Min(|s.a.c.recvQueue|, |e.c.recvQueue|)..]) == [Fragment(d)];
  }

  lemma Settled(s: Sys, pending: nat, modulo: Modulo)
    requires Inv(s, modulo)
    ensures Inv(s.(a := s.a.(pending := pending, restarted := false)), modulo)
  {
    assert Summary(s.a.(pending := pending, restarted := false)) == Summary(s.a);
  }

  lemma DataKeeps(s: Sys, link: Link, modulo: Modulo)
    requires Inv(s, modulo) && s.ba != [] && s.a.c.state.DataTransfer?
    requires s.ba[0].DataPacket? && Handles(s.a.c, Some(s.ba[0]))
    ensures Harmless(s, link, modulo)
  {
    ChecksPass(s, modulo);
    DataStep(s, link);
    var c := Accept(s.a.c, s.ba[0].data);
    RespondFrame(c, link);
    TakenForward(s, c.recvQueue, modulo);
    TakenBackward(s, c.recvQueue, modulo);
    var s1 := Taken(s, c.recvQueue);
    RespondKeeps(s1, link, modulo);
    Settled(Through(s1, Respond(c, link)), s.a.pending, modulo);
  }

  lemma RespondFrame(c: Circuit, link: Link)
    requires c.state.DataTransfer?
    ensures Respond(c, link).c.recvQueue == c.recvQueue
    ensures Requests(Respond(c, link).out) == 0
  {
    SendQueuedFrame(c, link);
    var e := SendQueued(c, link);
    if e.c.state.DataTransfer? && e.out == [] {
      var p := SendReceiveReady(e.c, e.link);
      assert p.out != [] ==> Requests(p.out[1..]) == 0;
    }
  }

  lemma ReceiveReadyHandled(c: Circuit, packet: Packet, link: Link)
    requires c.state.DataTransfer? && packet.ReceiveReady? && Handles(c, Some(packet))
    requires var t := c.state.transfer; CanAcknowledge(t.acked, t.sent, packet.recvSeq, t.modulo)
    ensures HandlePacket(c, Some(packet), false, link)
         == SendQueued(c.(state := DataTransfer(AckedTo(c.state.transfer, packet.recvSeq))), link)
  {
  }

  lemma ReceiveReadyStep(s: Sys, link: Link)
    requires s.ba != [] && s.a.c.state.DataTransfer? && s.ba[0].ReceiveReady? && Handles(s.a.c, Some(s.ba[0]))
    requires var t := s.a.c.state.transfer; CanAcknowledge(t.acked, t.sent, s.ba[0].recvSeq, t.modulo)
    ensures var c := s.a.c.(state := DataTransfer(AckedTo(s.a.c.state.transfer, s.ba[0].recvSeq)));
            var s' := Through(Taken(s, c.recvQueue), SendQueued(c, link));
            && Taken(s, c.recvQueue).a.c == c
            && HandlePacket(s.a.c, Some(s.ba[0]), false, link) == SendQueued(c, link)
            && Step(s, Deliver(link)) == s'.(a := s'.a.(restarted := false))
  {
    var c := s.a.c.(state := DataTransfer(AckedTo(s.a.c.state.transfer, s.ba[0].recvSeq)));
    ReceiveReadyHandled(s.a.c, s.ba[0], link);
    SendQueuedFrame(c, link);
    ExtendFacts(s.a.gotIn, []);
  }

  lemma ReceiveReadyArrives(s: Sys, link: Link, modulo: Modulo)
    requires Inv(s, modulo) && s.ba != [] && s.a.c.state.DataTransfer?
    requires s.ba[0].ReceiveReady? && Handles(s.a.c, Some(s.ba[0]))
    ensures Harmless(s, link, modulo)
  {
    ChecksPass(s, modulo);
    ReceiveReadyStep(s, link);
    var c := s.a.c.(state := DataTransfer(AckedTo(s.a.c.state.transfer, s.ba[0].recvSeq)));
    SendQueuedFrame(c, link);
    TakenForward(s, c.recvQueue, modulo);
    TakenBackward(s, c.recvQueue, modulo);
    var s1 := Taken(s, c.recvQueue);
    PumpKeeps(s1, link, modulo);
    Settled(Through(s1, SendQueued(c, link)), s.a.pending, modulo);
  }

  /** A packet sent alone, or a refusal by the link. */
  lemma SendThenCases(p: Packet, c: Circuit, link: Link)
    ensures var e := SendThen(p, c, link);
            (e.c == c && e.out == [p] && Requests(e.out) == (if p.ResetRequest? then 1 else 0))
            || (e.c == c.(state := OutOfOrder) && e.out == [] && Requests(e.out) == 0)
  {
    assert Requests([p][1..]) == 0;
  }

  lemma ResetRequestArrives(s: Sys, link: Link, modulo: Modulo)
    requires Inv(s, modulo) && s.ba != [] && s.a.c.state.IsConnected()
    requires s.ba[0].ResetRequest? && Handles(s.a.c, Some(s.ba[0]))
    ensures Harmless(s, link, modulo)
  {
    var p := ResetConfirm(s.a.c.params.modulo, s.a.c.channel);
    var e := SendResetConfirm(s.a.c, link);
    assert HandlePacket(s.a.c, Some(s.ba[0]), false, link) == e;
    SendThenCases(p, EnterDataTransfer(s.a.c), link);
    var s' := Step(s, Deliver(link));
    if e.out == [p] {
      RequestForward(s, p, modulo);
      RequestBackward(s, p, modulo);
      assert s' == Reopened(s, s.a.c.params, s.a.owed, [p]);
    } else {
      LeavingArrival(s, OutOfOrder, e, modulo);
    }
  }

  /** An arrival after which `a` has left the connection. */
  lemma LeavingArrival(s: Sys, state: VcState, e: Effect, modulo: Modulo)
    requires Inv(s, modulo) && s.ba != []
    requires e.c == s.a.c.(state := state) && ModeOf(state) == Gone && !state.Ready? && !state.Called?
    requires e.out == [] || (|e.out| == 1 && (e.out[0].ClearRequestPacket? || e.out[0].ClearConfirmPacket?))
    requires !(s.a.c.state.DataTransfer? && (s.ba[0].ResetConfirm? || s.ba[0].DataPacket? || s.ba[0].ReceiveReady?))
    ensures Inv(s.(a := AfterArrival(s.a, s.ba[0], e), ab := s.ab + e.out, ba := s.ba[1..]), modulo)
  {
    LeavingKeeps(s, state, e.out, s.ba[1..], modulo);
    ExtendFacts(s.a.gotIn, []);
    if e.out == [] {
      NothingSent(s.a, e.c, e.link);
    } else {
      assert e.out == [e.out[0]];
      OneSent(s.a, e.c, e.out[0], e.link);
    }
    assert AfterArrival(s.a, s.ba[0], e) == s.a.(c := e.c);
  }

  lemma ClearRequestArrives(s: Sys, link: Link, modulo: Modulo)
    requires Inv(s, modulo) && s.ba != [] && s.a.c.state.IsConnected()
    requires s.ba[0].ClearRequestPacket? && Handles(s.a.c, Some(s.ba[0]))
    ensures Harmless(s, link, modulo)
  {
    var request := s.ba[0].clearRequest;
    var p := ClearConfirmPacket(ClearConfirm(s.a.c.params.modulo, s.a.c.channel, X121.NULL, X121.NULL, []));
    var e := SendClearConfirm(s.a.c, request, link);
    assert HandlePacket(s.a.c, Some(s.ba[0]), false, link) == e;
    SendThenCases(p, s.a.c.(state := Cleared(Remote(request), None)), link);
    LeavingArrival(s, e.c.state, e, modulo);
  }

  lemma OpeningArrives(s: Sys, link: Link, modulo: Modulo)
    requires Inv(s, modulo) && s.ba != [] && Handles(s.a.c, Some(s.ba[0]))
    requires s.a.c.state.WaitCallAccept? || (s.a.c.state.WaitResetConfirm? && s.ba[0].ResetConfirm?)
    ensures Harmless(s, link, modulo)
  {
    var params := if s.a.c.state.WaitCallAccept? then NegotiateCalling(s.ba[0].callAccept, s.a.c.params)
                  else s.a.c.params;
    var owed := if s.a.c.state.WaitCallAccept? then s.a.owed else s.a.owed - 1;
    ConfirmKeeps(s, params, owed, modulo);
    assert Step(s, Deliver(link)) == Reopened(s, params, owed, []);
  }

  lemma IgnoredArrives(s: Sys, link: Link, modulo: Modulo)
    requires Inv(s, modulo) && s.ba != [] && Handles(s.a.c, Some(s.ba[0]))
    requires !s.a.c.state.WaitCallAccept?
    requires HandlePacket(s.a.c, Some(s.ba[0]), false, link) == Effect(s.a.c, [], link)
    requires Next(Summary(s.a), s.ba[0], modulo) == Summary(s.a) && (Alive(s.a) ==> !s.ba[0].ResetRequest?)
    requires !(s.a.c.state.DataTransfer? && (s.ba[0].DataPacket? || s.ba[0].ReceiveReady?))
    ensures Harmless(s, link, modulo)
  {
    var owed := if s.a.c.state.DataTransfer? && s.ba[0].ResetConfirm? && s.a.owed > 0 then s.a.owed - 1 else s.a.owed;
    IgnoredKeeps(s, owed, modulo);
    NothingSent(s.a, s.a.c, link);
    ExtendFacts(s.a.gotIn, []);
    assert s.ab + [] == s.ab;
    assert Step(s, Deliver(link)) == s.(a := s.a.(owed := owed), ba := s.ba[1..]);
  }

  lemma GoneArrives(s: Sys, link: Link, modulo: Modulo)
    requires Inv(s, modulo) && s.ba != [] && Handles(s.a.c, Some(s.ba[0])) && !Alive(s.a)
    ensures Harmless(s, link, modulo)
  {
    var e := HandlePacket(s.a.c, Some(s.ba[0]), false, link);
    if e.c == s.a.c {
      IgnoredArrives(s, link, modulo);
    } else {
      LeavingArrival(s, e.c.state, e, modulo);
    }
  }

  lemma DeliverKeeps(s: Sys, link: Link, modulo: Modulo)
    requires Inv(s, modulo) && s.ba != [] && Handles(s.a.c, Some(s.ba[0]))
    ensures Harmless(s, link, modulo)
  {
    var p := s.ba[0];
    match s.a.c.state
    case WaitCallAccept => OpeningArrives(s, link, modulo);
    case DataTransfer(_) =>
      if p.DataPacket? { DataKeeps(s, link, modulo); }
      else if p.ReceiveReady? { ReceiveReadyArrives(s, link, modulo); }
      else if p.ResetRequest? { ResetRequestArrives(s, link, modulo); }
      else if p.ClearRequestPacket? { ClearRequestArrives(s, link, modulo); }
      else { IgnoredArrives(s, link, modulo); }
    case WaitResetConfirm =>
      if p.ResetConfirm? { OpeningArrives(s, link, modulo); }
      else if p.ResetRequest? { ResetRequestArrives(s, link, modulo); }
      else if p.ClearRequestPacket? { ClearRequestArrives(s, link, modulo); }
      else { IgnoredArrives(s, link, modulo); }
    case _ => GoneArrives(s, link, modulo);
  }

  // All steps

  lemma LeavingSends(s: Sys, state: VcState, e: Effect, modulo: Modulo)
    requires Inv(s, modulo)
    requires e.c == s.a.c.(state := state) && ModeOf(state) == Gone && !state.Ready? && !state.Called?
    requires e.out == [] || (|e.out| == 1 && e.out[0].ClearRequestPacket?)
    ensures Inv(Through(s, e), modulo)
  {
    LeavingKeeps(s, state, e.out, s.ba, modulo);
    if e.out == [] {
      NothingSent(s.a, e.c, e.link);
    } else {
      assert e.out == [e.out[0]];
      OneSent(s.a, e.c, e.out[0], e.link);
    }
  }

  lemma ClearSends(s: Sys, cause: Byte, diagnostic: Byte, initiator: ClearInitiator, link: Link, modulo: Modulo)
    requires Inv(s, modulo)
    ensures Inv(Through(s, SendClearRequest(s.a.c, cause, diagnostic, initiator, link)), modulo)
  {
    var e := SendClearRequest(s.a.c, cause, diagnostic, initiator, link);
    SendThenCases(ClearRequestOf(s.a.c, cause, diagnostic), s.a.c.(state := WaitClearConfirm(initiator)), link);
    LeavingSends(s, e.c.state, e, modulo);
  }

  lemma ResetSends(s: Sys, cause: Byte, diagnostic: Byte, link: Link, modulo: Modulo)
    requires Inv(s, modulo) && s.a.c.state.DataTransfer? && s.a.owed == 0
    ensures Inv(Through(s, SendResetRequest(s.a.c, cause, diagnostic, link)), modulo)
  {
    var p := ResetRequest(s.a.c.params.modulo, s.a.c.channel, cause, diagnostic);
    var e := SendResetRequest(s.a.c, cause, diagnostic, link);
    if e.out == [p] {
      OneSent(s.a, e.c, p, e.link);
      ResetKeeps(s, p, modulo);
    } else {
      LeavingSends(s, OutOfOrder, e, modulo);
    }
  }

  lemma TimerKeeps(s: Sys, link: Link, modulo: Modulo)
    requires Inv(s, modulo) && Handles(s.a.c, None)
    ensures Inv(Step(s, TimerExpires(link)), modulo)
  {
    var e := HandlePacket(s.a.c, None, true, link);
    assert Step(s, TimerExpires(link)) == Through(s, e);
    match s.a.c.state
    case WaitCallAccept => ClearSends(s, 19, 49, TimeOut(21), link, modulo);
    case WaitResetConfirm => ClearSends(s, 19, 51, TimeOut(22), link, modulo);
    case WaitClearConfirm(_) => LeavingSends(s, OutOfOrder, e, modulo);
    case _ => ThroughNothing(s, link);
  }

  lemma ThroughNothing(s: Sys, link: Link)
    ensures Through(s, Effect(s.a.c, [], link)) == s
  {
    NothingSent(s.a, s.a.c, link);
    assert s.ab + [] == s.ab;
  }

  /** A party after `send` has queued the packets of a message. */
  function Queued(p: Party, m: Message): Party
    requires p.c.params.sendPacketSize > 0
  {
    p.(c := Submit(p.c, m), submitted := p.submitted + [m], pending := p.pending + 1)
  }

  lemma SubmitStep(s: Sys, m: Message)
    requires Enabled(s, SubmitMessage(m))
    ensures Step(s, SubmitMessage(m)) == s.(a := Queued(s.a, m))
  {
  }

  lemma SubmitKeeps(s: Sys, m: Message, modulo: Modulo)
    requires Inv(s, modulo) && Enabled(s, SubmitMessage(m))
    ensures Inv(Step(s, SubmitMessage(m)), modulo)
  {
    SubmitStep(s, m);
    assert Submit(s.a.c, m) == s.a.c.(sendQueue := Submit(s.a.c, m).sendQueue, recvQueue := s.a.c.recvQueue);
    HistoryFree(s, s.a.pending + 1, s.a.restarted, s.a.submitted + [m], s.a.delivered, s.a.consumed,
                Submit(s.a.c, m).sendQueue, s.a.c.recvQueue, modulo);
  }

  lemma PumpStep(s: Sys, link: Link)
    requires Enabled(s, Pump(link))
    ensures var s' := Through(s, SendQueued(s.a.c, link));
            Step(s, Pump(link)) == s'.(a := s'.a.(pending := s.a.pending - 1, restarted := false))
  {
  }

  lemma PumpStepKeeps(s: Sys, link: Link, modulo: Modulo)
    requires Inv(s, modulo) && Enabled(s, Pump(link))
    ensures Inv(Step(s, Pump(link)), modulo)
  {
    PumpKeeps(s, link, modulo);
    PumpStep(s, link);
    Settled(Through(s, SendQueued(s.a.c, link)), s.a.pending - 1, modulo);
  }

  lemma ReceiveKeeps(s: Sys, modulo: Modulo)
    requires Inv(s, modulo) && Enabled(s, Receive)
    ensures Inv(Step(s, Receive), modulo)
  {
    var s' := Step(s, Receive);
    HistoryFree(s, s.a.pending, s.a.restarted, s.a.submitted, s'.a.delivered, s'.a.consumed,
                s.a.c.sendQueue, s'.a.c.recvQueue, modulo);
  }

  lemma LinkFailureKeeps(s: Sys, modulo: Modulo)
    requires Inv(s, modulo)
    ensures Inv(Step(s, LinkFails), modulo)
  {
    LeavingKeeps(s, OutOfOrder, [], s.ba, modulo);
    assert s.ab + [] == s.ab;
  }

  lemma StepKeeps(s: Sys, event: Event, modulo: Modulo)
    requires Inv(s, modulo) && Enabled(s, event)
    ensures Inv(Step(s, event), modulo)
  {
    match event
    case SubmitMessage(m) => SubmitKeeps(s, m, modulo);
    case Pump(link) => PumpStepKeeps(s, link, modulo);
    case Deliver(link) => DeliverKeeps(s, link, modulo);
    case TimerExpires(link) => TimerKeeps(s, link, modulo);
    case Receive => ReceiveKeeps(s, modulo);
    case StartReset(cause, diagnostic, link) => ResetSends(s, cause, diagnostic, link, modulo);
    case StartClear(cause, diagnostic, link) => ClearSends(s, cause, diagnostic, Local, link, modulo);
    case LinkFails => LinkFailureKeeps(s, modulo);
  }

  lemma SwapInv(s: Sys, modulo: Modulo)
    requires Inv(s, modulo)
    ensures Inv(Swap(s), modulo)
  {
  }

  lemma MoveKeeps(s: Sys, m: Move, modulo: Modulo)
    requires Inv(s, modulo) && Allowed(s, m)
    ensures Inv(Apply(s, m), modulo)
  {
    if m.byA {
      StepKeeps(s, m.event, modulo);
    } else {
      SwapInv(s, modulo);
      StepKeeps(Swap(s), m.event, modulo);
      SwapInv(Step(Swap(s), m.event), modulo);
    }
  }

  /** The invariant holds after every run from an accepted call. */
  lemma {:induction false} RunKeeps(s: Sys, moves: seq<Move>, modulo: Modulo)
    requires Inv(s, modulo) && Run(s, moves)
    ensures Inv(Final(s, moves), modulo)
    decreases |moves|
  {
    if moves != [] {
      MoveKeeps(s, moves[0], modulo);
      RunKeeps(Apply(s, moves[0]), moves[1..], modulo);
    }
  }
}
