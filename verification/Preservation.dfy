/** Every step of either end keeps the invariant. */
module Preservation {
  import opened Seq
  import opened Packets
  import opened Negotiation
  import opened Circuits
  import opened Flow
  import opened CircuitSystem
  import opened Invariant

  lemma ExtendFacts(log: Log, more: seq<SendData>)
    ensures GrowsFrom(log, Extend(log, more), |log|)
    ensures |Extend(log, more)| == |log|
    ensures log != [] ==> Current(Extend(log, more)) == Current(log) + more
    ensures more == [] ==> Extend(log, more) == log
  {
    if log != [] {
      assert log == log[..|log| - 1] + [log[|log| - 1]];
      if more == [] {
        assert log[|log| - 1] + more == log[|log| - 1];
      }
    }
  }

  // Sending

  /** The state after `a` has put packet `p` of its own on the channel. */
  function Sent(s: Sys, c: Circuit, p: Packet): Sys {
    s.(a := s.a.(c := c, sentIn := Extend(s.a.sentIn, DataIn([p]))), ab := s.ab + [p])
  }

  /** A data or receive ready packet with the current counts suits the receiver. */
  lemma OwnPacketAdmissible(s: Sys, p: Packet, sent: Log, modulo: Modulo)
    requires Core(s, modulo) && s.a.c.state.DataTransfer? && Alive(s.b)
    requires |sent| == |s.a.sentIn|
    requires p.ReceiveReady? || p.DataPacket?
    requires p.ReceiveReady? ==> p.recvSeq == Wrap(s.a.c.state.transfer.received, modulo)
    requires p.DataPacket? ==>
               (&& p.data.recvSeq == Wrap(s.a.c.state.transfer.received, modulo)
                && p.data.sendSeq == Wrap(s.a.c.state.transfer.sent, modulo)
                && Current(sent) == Current(s.a.sentIn) + [Fragment(p.data)])
    ensures Admissible(After(Summary(s.b), s.ab, modulo), p, sent, s.a.gotIn, modulo)
    ensures var f := After(Summary(s.b), s.ab, modulo);
            f.mode == Transferring ==> Next(f, p, modulo).acked == |Current(s.a.gotIn)|
  {
    var f := After(Summary(s.b), s.ab, modulo);
    if f.mode == Transferring {
      ReceivedBound(s, modulo);
      var received := s.a.c.state.transfer.received;
      TotalIsUnique(f.acked, received, Wrap(received, modulo), modulo);
    }
  }

  /** What a circuit in data transfer sends unasked: the head of its queue, or a
      receive ready. */
  predicate OwnPacket(c: Circuit, c': Circuit, p: Packet)
    requires c.state.DataTransfer?
  {
    var t := c.state.transfer;
    if p.DataPacket? then
      (&& c.sendQueue != [] && t.IsOpen() && p == DataOf(c, c.sendQueue[0])
       && c' == c.(sendQueue := c.sendQueue[1..], state := DataTransfer(t.(sent := t.sent + 1))))
    else p == ReceiveReady(c.params.modulo, c.channel, Wrap(t.received, t.modulo)) && c' == c
  }

  /** The channel with one more packet of one's own on it. */
  lemma SentDirection(s: Sys, c: Circuit, p: Packet, modulo: Modulo)
    requires Core(s, modulo) && s.a.c.state.DataTransfer? && OwnPacket(s.a.c, c, p)
    ensures var s' := Sent(s, c, p);
            && LocalOk(s'.a, modulo)
            && Direction(s'.a, s.b, s'.ab, modulo) && AckNow(s'.a, s.b, s'.ab, modulo)
  {
    var s' := Sent(s, c, p);
    ExtendFacts(s.a.sentIn, DataIn([p]));
    assert DataIn([p][1..]) == [];
    AfterAppend(Summary(s.b), s.ab, p, modulo);
    if Alive(s.b) {
      SmoothGrows(Summary(s.b), s.ab, s.a.sentIn, s.a.gotIn, s'.a.sentIn, s.a.gotIn, modulo);
      OwnPacketAdmissible(s, p, s'.a.sentIn, modulo);
      SmoothAppend(Summary(s.b), s.ab, p, s'.a.sentIn, s.a.gotIn, modulo);
    }
  }

  lemma SentForward(s: Sys, c: Circuit, p: Packet, modulo: Modulo)
    requires Core(s, modulo) && s.a.c.state.DataTransfer? && OwnPacket(s.a.c, c, p)
    ensures var s' := Sent(s, c, p);
            Half(s'.a, s'.b, s'.ab, s'.ba, modulo) && AckNow(s'.a, s'.b, s'.ab, modulo)
  {
    var s' := Sent(s, c, p);
    SentDirection(s, c, p, modulo);
    ExtendFacts(s.a.sentIn, DataIn([p]));
    CountAppend(s.ab, p);
    SmoothSends(Summary(s.a), c.state.transfer.sent, s.ba, s.b.sentIn, s.b.gotIn, modulo);
    assert Summary(s'.a) == Summary(s.a).(sent := c.state.transfer.sent);
    AfterAppend(Summary(s.b), s.ab, p, modulo);
  }

  lemma SentBackward(s: Sys, c: Circuit, p: Packet, modulo: Modulo)
    requires Core(s, modulo) && s.a.c.state.DataTransfer? && OwnPacket(s.a.c, c, p)
    ensures var s' := Sent(s, c, p);
            && Half(s'.b, s'.a, s'.ba, s'.ab, modulo)
            && (AckNow(s.b, s.a, s.ba, modulo) ==> AckNow(s'.b, s'.a, s'.ba, modulo))
  {
    var s' := Sent(s, c, p);
    ExtendFacts(s.a.sentIn, DataIn([p]));
    CountAppend(s.ab, p);
    SmoothSends(Summary(s.a), c.state.transfer.sent, s.ba, s.b.sentIn, s.b.gotIn, modulo);
    assert Summary(s'.a) == Summary(s.a).(sent := c.state.transfer.sent);
    AfterAppend(Summary(s.b), s.ab, p, modulo);
  }

  // Accepting

  function SetTransfer(p: Party, t: Transfer): Party {
    p.(c := p.c.(state := DataTransfer(t)))
  }

  /** The state after `a` has taken an acceptable data or receive ready packet off
      its channel. */
  function Taken(s: Sys, recvQueue: seq<Data>): Sys
    requires s.ba != [] && s.a.c.state.DataTransfer?
  {
    var p := s.ba[0];
    var t := s.a.c.state.transfer;
    var a := s.a.(c := s.a.c.(recvQueue := recvQueue));
    if p.DataPacket? then
      s.(a := SetTransfer(a, AckedTo(t, p.data.recvSeq).(received := t.received + 1))
              .(gotIn := Extend(a.gotIn, [Fragment(p.data)])),
         ba := s.ba[1..])
    else if p.ReceiveReady? then
      s.(a := SetTransfer(a, AckedTo(t, p.recvSeq)), ba := s.ba[1..])
    else s.(a := a, ba := s.ba[1..])
  }

  /** Every packet that reaches an end in data transfer passes its checks. */
  lemma ChecksPass(s: Sys, modulo: Modulo)
    requires Core(s, modulo) && s.ba != [] && s.a.c.state.DataTransfer?
    ensures var t := s.a.c.state.transfer;
            && (s.ba[0].DataPacket? ==>
                  (&& s.ba[0].data.sendSeq == Wrap(t.received, t.modulo)
                   && CanAcknowledge(t.acked, t.sent, s.ba[0].data.recvSeq, t.modulo)))
            && (s.ba[0].ReceiveReady? ==> CanAcknowledge(t.acked, t.sent, s.ba[0].recvSeq, t.modulo))
  {
  }

  lemma TakenFacts(s: Sys, recvQueue: seq<Data>, modulo: Modulo)
    requires Core(s, modulo) && s.ba != [] && s.a.c.state.DataTransfer?
    requires s.ba[0].DataPacket? || s.ba[0].ReceiveReady?
    ensures var a := Taken(s, recvQueue).a;
            && a.c.state.DataTransfer? && a.sentIn == s.a.sentIn && |a.gotIn| == |s.a.gotIn|
            && a.owed == s.a.owed && a.resets == s.a.resets
            && GrowsFrom(s.a.gotIn, a.gotIn, |s.a.gotIn|)
            && Summary(a) == Next(Summary(s.a), s.ba[0], modulo)
            && LocalOk(a, modulo)
            && (s.ba[0].ReceiveReady? ==> a.gotIn == s.a.gotIn)
            && AcksSound(a, s.b)
  {
    ExtendFacts(s.a.gotIn, if s.ba[0].DataPacket? then [Fragment(s.ba[0].data)] else []);
  }

  lemma TakenForward(s: Sys, recvQueue: seq<Data>, modulo: Modulo)
    requires Core(s, modulo) && s.ba != [] && s.a.c.state.DataTransfer?
    requires s.ba[0].DataPacket? || s.ba[0].ReceiveReady?
    ensures var s' := Taken(s, recvQueue);
            && Half(s'.a, s'.b, s'.ab, s'.ba, modulo)
            && (s.ba[0].ReceiveReady? && AckNow(s.a, s.b, s.ab, modulo) ==> AckNow(s'.a, s.b, s.ab, modulo))
  {
    var a := Taken(s, recvQueue).a;
    TakenFacts(s, recvQueue, modulo);
    assert Direction(a, s.b, s.ab, modulo) by {
      if Alive(s.b) {
        SmoothGrows(Summary(s.b), s.ab, s.a.sentIn, s.a.gotIn, a.sentIn, a.gotIn, modulo);
      }
    }
    assert Handshake(a, s.b, s.ab, s.ba[1..], modulo);
  }

  lemma AcceptedInOrder(sent: Log, got: Log, d: SendData)
    requires InOrder(sent, got) && 0 < |got| <= |sent|
    requires |Current(got)| < |sent[|got| - 1]| && sent[|got| - 1][|Current(got)|] == d
    ensures InOrder(sent, Extend(got, [d]))
  {
    assert got[|got| - 1] <= sent[|got| - 1];
  }

  lemma TakenBackward(s: Sys, recvQueue: seq<Data>, modulo: Modulo)
    requires Core(s, modulo) && s.ba != [] && s.a.c.state.DataTransfer?
    requires s.ba[0].DataPacket? || s.ba[0].ReceiveReady?
    ensures var s' := Taken(s, recvQueue);
            && Half(s'.b, s'.a, s'.ba, s'.ab, modulo)
            && (AckNow(s.b, s.a, s.ba, modulo) ==> AckNow(s'.b, s'.a, s'.ba, modulo))
  {
    var a := Taken(s, recvQueue).a;
    TakenFacts(s, recvQueue, modulo);
    assert InOrder(s.b.sentIn, a.gotIn) by {
      if s.ba[0].DataPacket? {
        AcceptedInOrder(s.b.sentIn, s.a.gotIn, Fragment(s.ba[0].data));
      }
    }
    assert Lossless(s.b, a) && AcksSound(s.b, a);
  }

  // Resets

  /** The state after `a` has sent a reset request of its own. */
  function Requested(s: Sys, p: Packet): Sys {
    s.(a := s.a.(c := s.a.c.(state := WaitResetConfirm), owed := 1, resets := s.a.resets + 1), ab := s.ab + [p])
  }

  /** What the request does to both channels. */
  lemma RequestedFacts(s: Sys, p: Packet, modulo: Modulo)
    requires Core(s, modulo) && s.a.c.state.DataTransfer? && s.a.owed == 0 && p.ResetRequest?
    ensures Requests(s.ab) == Confirms(s.ba) == 0
    ensures Requests(s.ab + [p]) == 1 && Confirms(s.ab + [p]) == Confirms(s.ab)
    ensures After(Summary(s.b), s.ab + [p], modulo) == Next(After(Summary(s.b), s.ab, modulo), p, modulo)
    ensures Alive(s.b) ==> Smooth(Summary(s.b), s.ab + [p], s.a.sentIn, s.a.gotIn, modulo)
    ensures Summary(Requested(s, p).a) == Flow.Reset(Summary(s.a))
  {
    CountAppend(s.ab, p);
    AfterAppend(Summary(s.b), s.ab, p, modulo);
    SmoothAppend(Summary(s.b), s.ab, p, s.a.sentIn, s.a.gotIn, modulo);
  }

  lemma ResetForward(s: Sys, p: Packet, modulo: Modulo)
    requires Core(s, modulo) && s.a.c.state.DataTransfer? && s.a.owed == 0 && p.ResetRequest?
    ensures var s' := Requested(s, p);
            Half(s'.a, s'.b, s'.ab, s'.ba, modulo) && AckNow(s'.a, s'.b, s'.ab, modulo)
  {
    RequestedFacts(s, p, modulo);
    SmoothResets(Summary(s.a), s.ba, s.b.sentIn, s.b.gotIn, modulo);
    AfterAppend(Summary(s.b), s.ab, p, modulo);
    if Alive(s.b) {
      NoRequest(Summary(s.b), s.ab, modulo);
      AtRequestMode(Summary(s.a), s.ba, modulo);
    }
  }

  lemma ResetBackward(s: Sys, p: Packet, modulo: Modulo)
    requires Core(s, modulo) && s.a.c.state.DataTransfer? && s.a.owed == 0 && p.ResetRequest?
    ensures var s' := Requested(s, p);
            && Half(s'.b, s'.a, s'.ba, s'.ab, modulo)
            && (AckNow(s.b, s.a, s.ba, modulo) ==> AckNow(s'.b, s'.a, s'.ba, modulo))
  {
    RequestedFacts(s, p, modulo);
    SmoothResets(Summary(s.a), s.ba, s.b.sentIn, s.b.gotIn, modulo);
    AfterAppend(Summary(s.b), s.ab, p, modulo);
    if Alive(s.b) {
      NoRequest(Summary(s.b), s.ab, modulo);
      AtRequestMode(Summary(s.a), s.ba, modulo);
    }
  }

  lemma ResetKeeps(s: Sys, p: Packet, modulo: Modulo)
    requires Core(s, modulo) && s.a.c.state.DataTransfer? && s.a.owed == 0 && p.ResetRequest?
    ensures var s' := Requested(s, p);
            && Core(s', modulo)
            && AckNow(s'.a, s'.b, s'.ab, modulo)
            && (AckNow(s.b, s.a, s.ba, modulo) ==> AckNow(s'.b, s'.a, s'.ba, modulo))
  {
    ResetForward(s, p, modulo);
    ResetBackward(s, p, modulo);
  }

  /** The state after `a` has started a new epoch on the packet it took off its
      channel, sending `out`. */
  function Reopened(s: Sys, params: Params, owed: nat, out: seq<Packet>): Sys
    requires s.ba != []
  {
    s.(a := s.a.(c := EnterDataTransfer(s.a.c.(params := params)),
                 sentIn := s.a.sentIn + [[]], gotIn := s.a.gotIn + [[]],
                 owed := owed, restarted := s.a.sentIn != []),
       ab := s.ab + out, ba := s.ba[1..])
  }

  lemma ReopenedFacts(s: Sys, params: Params, owed: nat, out: seq<Packet>, modulo: Modulo)
    requires Core(s, modulo) && s.ba != [] && Opens(ModeOf(s.a.c.state), s.ba[0])
    ensures var s' := Reopened(s, params, owed, out);
            && Summary(s'.a) == Next(Summary(s.a), s.ba[0], modulo)
            && GrowsFrom(s.a.sentIn, s'.a.sentIn, |s.a.sentIn| + 2)
            && GrowsFrom(s.a.gotIn, s'.a.gotIn, |s.a.gotIn| + 2)
            && InOrder(s'.a.sentIn, s.b.gotIn) && InOrder(s.b.sentIn, s'.a.gotIn)
            && Lossless(s.b, s'.a)
  {
    AfterBounds(Next(Summary(s.a), s.ba[0], modulo), s.ba[1..], modulo);
  }

  lemma RequestForward(s: Sys, p: Packet, modulo: Modulo)
    requires Core(s, modulo) && s.ba != [] && s.ba[0].ResetRequest? && p.ResetConfirm?
    requires s.a.c.state.IsConnected()
    ensures var s' := Reopened(s, s.a.c.params, s.a.owed, [p]);
            Half(s'.a, s'.b, s'.ab, s'.ba, modulo) && AckNow(s'.a, s'.b, s'.ab, modulo)
  {
    var s' := Reopened(s, s.a.c.params, s.a.owed, [p]);
    ReopenedFacts(s, s.a.c.params, s.a.owed, [p], modulo);
    CountAppend(s.ab, p);
    AfterAppend(Summary(s.b), s.ab, p, modulo);
    assert Lossless(s'.a, s.b);
    if Alive(s.b) {
      SmoothGrows(Summary(s.b), s.ab, s.a.sentIn, s.a.gotIn, s'.a.sentIn, s'.a.gotIn, modulo);
      SmoothAppend(Summary(s.b), s.ab, p, s'.a.sentIn, s'.a.gotIn, modulo);
      NoRequest(Summary(s'.a), s'.ba, modulo);
    }
  }

  lemma RequestBackward(s: Sys, p: Packet, modulo: Modulo)
    requires Core(s, modulo) && s.ba != [] && s.ba[0].ResetRequest? && p.ResetConfirm?
    requires s.a.c.state.IsConnected()
    ensures var s' := Reopened(s, s.a.c.params, s.a.owed, [p]);
            && Half(s'.b, s'.a, s'.ba, s'.ab, modulo)
            && (AckNow(s.b, s.a, s.ba, modulo) ==> AckNow(s'.b, s'.a, s'.ba, modulo))
  {
    ReopenedFacts(s, s.a.c.params, s.a.owed, [p], modulo);
    CountAppend(s.ab, p);
    AfterAppend(Summary(s.b), s.ab, p, modulo);
  }

  /** A reset confirm awaited, or a call accept. */
  predicate Awaited(s: Sys, params: Params, owed: nat, modulo: Modulo) {
    && s.ba != []
    && (if s.a.c.state.WaitCallAccept? then s.ba[0].CallAcceptPacket? && owed == s.a.owed
        else s.a.c.state.WaitResetConfirm? && s.ba[0].ResetConfirm? && owed == s.a.owed - 1)
    && params.WindowValid() && params.modulo == modulo && params.sendPacketSize > 0
  }

  lemma ConfirmForward(s: Sys, params: Params, owed: nat, modulo: Modulo)
    requires Core(s, modulo) && Awaited(s, params, owed, modulo)
    ensures var s' := Reopened(s, params, owed, []);
            Half(s'.a, s'.b, s'.ab, s'.ba, modulo) && AckNow(s'.a, s'.b, s'.ab, modulo)
  {
    var s' := Reopened(s, params, owed, []);
    assert s'.ab == s.ab;
    ReopenedFacts(s, params, owed, [], modulo);
    assert Lossless(s'.a, s.b);
    if Alive(s.b) {
      SmoothGrows(Summary(s.b), s.ab, s.a.sentIn, s.a.gotIn, s'.a.sentIn, s'.a.gotIn, modulo);
    }
  }

  lemma ConfirmBackward(s: Sys, params: Params, owed: nat, modulo: Modulo)
    requires Core(s, modulo) && Awaited(s, params, owed, modulo)
    ensures var s' := Reopened(s, params, owed, []);
            && Half(s'.b, s'.a, s'.ba, s'.ab, modulo)
            && (AckNow(s.b, s.a, s.ba, modulo) ==> AckNow(s'.b, s'.a, s'.ba, modulo))
  {
    assert Reopened(s, params, owed, []).ab == s.ab;
    ReopenedFacts(s, params, owed, [], modulo);
  }

  lemma ConfirmKeeps(s: Sys, params: Params, owed: nat, modulo: Modulo)
    requires Core(s, modulo) && Awaited(s, params, owed, modulo)
    ensures var s' := Reopened(s, params, owed, []);
            && Core(s', modulo)
            && AckNow(s'.a, s'.b, s'.ab, modulo)
            && (AckNow(s.b, s.a, s.ba, modulo) ==> AckNow(s'.b, s'.a, s'.ba, modulo))
  {
    ConfirmForward(s, params, owed, modulo);
    ConfirmBackward(s, params, owed, modulo);
  }

  // Everything else

  /** A packet that changes nothing at `a` leaves its channel. */
  lemma IgnoredKeeps(s: Sys, owed: nat, modulo: Modulo)
    requires Core(s, modulo) && s.ba != []
    requires Next(Summary(s.a), s.ba[0], modulo) == Summary(s.a) && (Alive(s.a) ==> !s.ba[0].ResetRequest?)
    requires owed == if s.a.c.state.DataTransfer? && s.ba[0].ResetConfirm? && s.a.owed > 0 then s.a.owed - 1 else s.a.owed
    requires !s.a.c.state.WaitCallAccept?
    ensures var s' := s.(a := s.a.(owed := owed), ba := s.ba[1..]);
            && Core(s', modulo)
            && (AckNow(s.a, s.b, s.ab, modulo) ==> AckNow(s'.a, s'.b, s'.ab, modulo))
            && (AckNow(s.b, s.a, s.ba, modulo) ==> AckNow(s'.b, s'.a, s'.ba, modulo))
  {
    var s' := s.(a := s.a.(owed := owed), ba := s.ba[1..]);
    assert Summary(s'.a) == Summary(s.a);
  }

  /** End `a` leaves the connection, with at most a clear request or confirm as its
      last word, and perhaps on account of a packet taken off its channel. */
  lemma LeavingKeeps(s: Sys, state: VcState, out: seq<Packet>, ba: seq<Packet>, modulo: Modulo)
    requires Core(s, modulo)
    requires ModeOf(state) == Gone && !state.Ready? && !state.Called?
    requires out == [] || (|out| == 1 && (out[0].ClearRequestPacket? || out[0].ClearConfirmPacket?))
    requires ba == s.ba || (s.ba != [] && ba == s.ba[1..])
    ensures var s' := s.(a := s.a.(c := s.a.c.(state := state)), ab := s.ab + out, ba := ba);
            && Core(s', modulo)
            && AckNow(s'.a, s'.b, s'.ab, modulo) && AckNow(s'.b, s'.a, s'.ba, modulo)
  {
    LastWord(s, out, modulo);
  }

  /** A last word changes nothing that the other end relies on. */
  lemma LastWord(s: Sys, out: seq<Packet>, modulo: Modulo)
    requires Core(s, modulo)
    requires out == [] || (|out| == 1 && (out[0].ClearRequestPacket? || out[0].ClearConfirmPacket?))
    ensures Requests(s.ab + out) == Requests(s.ab) && Confirms(s.ab + out) == Confirms(s.ab)
    ensures Alive(s.b) ==> Smooth(Summary(s.b), s.ab + out, s.a.sentIn, s.a.gotIn, modulo)
    ensures s.b.c.state.WaitCallAccept? ==> s.ab != [] && (s.ab + out)[0] == s.ab[0]
  {
    if out == [] {
      assert s.ab + out == s.ab;
    } else {
      assert out == [out[0]];
      CountAppend(s.ab, out[0]);
      SmoothAppend(Summary(s.b), s.ab, out[0], s.a.sentIn, s.a.gotIn, modulo);
    }
  }
}
