/** The invariant that relates both ends and both channels, and the packet steps
    that keep it. */
module Invariant {
  import opened Wrappers
  import opened Seq
  import opened Packets
  import opened Negotiation
  import opened Circuits
  import opened Flow
  import opened CircuitSystem

  function Current(log: Log): seq<SendData> {
    if log == [] then [] else log[|log| - 1]
  }

  function Summary(p: Party): Expect {
    if p.c.state.DataTransfer? then
      var t := p.c.state.transfer;
      Expect(Transferring, |p.gotIn|, t.received, t.acked, t.sent)
    else Expect(ModeOf(p.c.state), |p.gotIn|, 0, 0, 0)
  }

  predicate Alive(p: Party) {
    ModeOf(p.c.state) != Gone
  }

  predicate LocalOk(p: Party, modulo: Modulo) {
    && !p.c.state.Ready? && !p.c.state.Called?
    && |p.sentIn| == |p.gotIn|
    && p.owed <= 1 && p.owed <= p.resets
    && (p.c.state.IsConnected() ==>
          (&& p.sentIn != []
           && p.c.params.WindowValid() && p.c.params.modulo == modulo && p.c.params.sendPacketSize > 0))
    && (p.c.state.DataTransfer? ==>
          (var t := p.c.state.transfer;
           && t.Valid() && t.modulo == modulo
           && t.sent == |Current(p.sentIn)| && t.received == |Current(p.gotIn)|))
  }

  /** What the sender of a channel knows of its receiver's state after it. */
  predicate Meets(p: Party, f: Expect) {
    && f.epoch == |p.sentIn| + (if p.c.state.DataTransfer? then 0 else 1)
    && (f.mode == Transferring ==>
          if p.c.state.DataTransfer?
          then f.received == |Current(p.sentIn)| && f.acked <= |Current(p.gotIn)|
          else f.received == 0 && f.acked == 0)
  }

  predicate Direction(p: Party, q: Party, pq: seq<Packet>, modulo: Modulo) {
    Alive(q) ==>
      (&& Smooth(Summary(q), pq, p.sentIn, p.gotIn, modulo)
       && (Alive(p) ==> Meets(p, After(Summary(q), pq, modulo))))
  }

  /** A reset request on the way from `q` finds `p` in the opposite mode to the one
      `q` will be in; without one, `q` ends in data transfer. */
  predicate Handshake(p: Party, q: Party, pq: seq<Packet>, qp: seq<Packet>, modulo: Modulo) {
    Alive(p) && Alive(q) ==>
      After(Summary(q), pq, modulo).mode
        == if AtRequest(Summary(p), qp, modulo) == Some(Transferring) then Resetting else Transferring
  }

  /** Only the oldest packet of a channel can complete a call. */
  predicate CallPending(p: Party, qp: seq<Packet>, modulo: Modulo) {
    p.c.state.WaitCallAccept? ==>
      (&& p.sentIn == [] && qp != [] && qp[0].CallAcceptPacket?
       && qp[0].callAccept.modulo == modulo
       && NegotiateCalling(qp[0].callAccept, p.c.params).WindowValid()
       && NegotiateCalling(qp[0].callAccept, p.c.params).sendPacketSize > 0)
  }

  /** What was accepted in each epoch is a prefix of what was sent in it. */
  predicate InOrder(sent: Log, got: Log) {
    forall e | 0 <= e < |got| :: if e < |sent| then got[e] <= sent[e] else got[e] == []
  }

  /** What `p` takes for acknowledged has been accepted by `q` in the same epoch. */
  predicate AcksSound(p: Party, q: Party) {
    p.c.state.DataTransfer? ==>
      p.c.state.transfer.acked <= if |p.gotIn| <= |q.gotIn| && p.gotIn != [] then |q.gotIn[|p.gotIn| - 1]| else 0
  }

  /** As long as `q` has never started a reset, it has accepted everything `p` sent
      in the epochs that are over. */
  predicate Lossless(p: Party, q: Party) {
    q.resets == 0 ==>
      && !q.c.state.WaitResetConfirm?
      && |q.gotIn| <= |p.sentIn| + (if p.c.state.DataTransfer? then 0 else 1)
      && forall e | 0 <= e < |q.gotIn| - 1 :: e < |p.sentIn| && q.gotIn[e] == p.sentIn[e]
  }

  predicate Half(p: Party, q: Party, pq: seq<Packet>, qp: seq<Packet>, modulo: Modulo) {
    && LocalOk(p, modulo)
    && Direction(p, q, pq, modulo)
    && Handshake(p, q, pq, qp, modulo)
    && CallPending(p, qp, modulo)
    && Requests(pq) + Confirms(qp) <= p.owed
    && InOrder(p.sentIn, q.gotIn)
    && AcksSound(p, q)
    && Lossless(p, q)
  }

  predicate Core(s: Sys, modulo: Modulo) {
    Half(s.a, s.b, s.ab, s.ba, modulo) && Half(s.b, s.a, s.ba, s.ab, modulo)
  }

  /** The newest acknowledgement on its way tells everything `p` has accepted. */
  predicate AckNow(p: Party, q: Party, pq: seq<Packet>, modulo: Modulo) {
    p.c.state.DataTransfer? && Alive(q) ==>
      var f := After(Summary(q), pq, modulo);
      f.mode == Transferring ==> f.acked == |Current(p.gotIn)|
  }

  predicate Inv(s: Sys, modulo: Modulo) {
    Core(s, modulo) && AckNow(s.a, s.b, s.ab, modulo) && AckNow(s.b, s.a, s.ba, modulo)
  }

  lemma InitInv(s: Sys, modulo: Modulo)
    requires Init(s, modulo)
    ensures Inv(s, modulo)
  {
    var p := s.ba[0];
    assert s.ba == [p];
    assert Confirms(s.ba[1..]) == Requests(s.ba[1..]) == 0;
    assert After(Next(Summary(s.a), p, modulo), [], modulo) == Fresh(1);
    assert AtRequest(Next(Summary(s.a), p, modulo), [], modulo) == None;
    assert Smooth(Next(Summary(s.a), p, modulo), [], s.b.sentIn, s.b.gotIn, modulo);
  }

  /** An acknowledgement never runs ahead of what the other end has sent. */
  lemma ReceivedBound(s: Sys, modulo: Modulo)
    requires Core(s, modulo) && s.a.c.state.DataTransfer? && Alive(s.b)
    requires After(Summary(s.b), s.ab, modulo).mode == Transferring
    ensures |Current(s.a.gotIn)| <= After(Summary(s.b), s.ab, modulo).sent
    ensures After(Summary(s.b), s.ab, modulo).sent < After(Summary(s.b), s.ab, modulo).acked + modulo.Size()
  {
    AfterBounds(Summary(s.b), s.ab, modulo);
    AfterBounds(Summary(s.a), s.ba, modulo);
  }
}
