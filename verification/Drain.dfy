/** No wakeup is lost, deliveries come to an end, and at the end everything has
    arrived. */
module Drain {
  import opened Wrappers
  import opened Seq
  import opened Packets
  import opened Circuits
  import opened Flow
  import opened CircuitSystem
  import opened Invariant
  import opened Preservation
  import opened Steps

  // No lost wakeup

  /** Data waits in an open window only while a call of `send` still has to pump it,
      or since a reset. */
  predicate Awake(p: Party) {
    p.c.state.DataTransfer? && p.c.sendQueue != [] && p.c.state.transfer.IsOpen()
    ==> p.pending > 0 || p.restarted
  }

  lemma {:induction false} SendQueuedEmpties(c: Circuit, link: Link)
    requires c.state.DataTransfer?
    ensures var c' := SendQueued(c, link).c;
            c'.state.DataTransfer? ==> c'.sendQueue == [] || !c'.state.transfer.IsOpen()
    decreases |c.sendQueue|
  {
    if c.sendQueue != [] && c.state.transfer.IsOpen() {
      var first := SendOne(c, link);
      if first.c.state.DataTransfer? {
        SendQueuedEmpties(first.c, first.link);
      }
    }
  }

  lemma DataAwake(s: Sys, link: Link, modulo: Modulo)
    requires Inv(s, modulo) && Enabled(s, Deliver(link)) && s.a.c.state.DataTransfer?
    requires s.ba[0].DataPacket? || s.ba[0].ReceiveReady?
    ensures Awake(Step(s, Deliver(link)).a)
  {
    var p := s.ba[0];
    ChecksPass(s, modulo);
    if p.DataPacket? {
      SendQueuedEmpties(Accept(s.a.c, p.data), link);
      DataStep(s, link);
    } else {
      ReceiveReadyStep(s, link);
      SendQueuedEmpties(s.a.c.(state := DataTransfer(AckedTo(s.a.c.state.transfer, p.recvSeq))), link);
    }
  }

  lemma OtherAwake(p: Party, packet: Packet, link: Link)
    requires Handles(p.c, Some(packet)) && Awake(p) && (p.c.state.WaitCallAccept? ==> p.c.sendQueue == [])
    requires p.c.state.IsConnected() ==> p.sentIn != []
    requires !(p.c.state.DataTransfer? && (packet.DataPacket? || packet.ReceiveReady?))
    ensures Awake(AfterArrival(p, packet, HandlePacket(p.c, Some(packet), false, link)))
  {
  }

  lemma ArrivalAwake(s: Sys, link: Link, modulo: Modulo)
    requires Inv(s, modulo) && Enabled(s, Deliver(link)) && Awake(s.a)
    requires s.a.c.state.WaitCallAccept? ==> s.a.c.sendQueue == []
    ensures Awake(Step(s, Deliver(link)).a)
  {
    if s.a.c.state.DataTransfer? && (s.ba[0].DataPacket? || s.ba[0].ReceiveReady?) {
      DataAwake(s, link, modulo);
    } else {
      OtherAwake(s.a, s.ba[0], link);
    }
  }

  lemma StepAwake(s: Sys, event: Event, modulo: Modulo)
    requires Inv(s, modulo) && Enabled(s, event) && Awake(s.a)
    requires s.a.c.state.WaitCallAccept? ==> s.a.c.sendQueue == []
    ensures Awake(Step(s, event).a)
  {
    match event
    case Deliver(link) => ArrivalAwake(s, link, modulo);
    case Pump(link) => SendQueuedEmpties(s.a.c, link);
    case _ =>
  }

  // Drained channels

  /** With nothing on either channel, both ends are in data transfer in the same
      epoch, every packet of it has been accepted and acknowledged, and a queue can
      only be kept by a pump still to come or a reset. */
  lemma Drained(s: Sys, modulo: Modulo)
    requires Inv(s, modulo) && Alive(s.a) && Alive(s.b) && s.ab == [] && s.ba == []
    ensures s.a.c.state.DataTransfer? && s.b.c.state.DataTransfer?
    ensures |s.a.sentIn| == |s.b.sentIn|
    ensures Current(s.b.gotIn) == Current(s.a.sentIn) && Current(s.a.gotIn) == Current(s.b.sentIn)
    ensures var t, u := s.a.c.state.transfer, s.b.c.state.transfer;
            t.acked == t.sent == u.received && u.acked == u.sent == t.received
    ensures Awake(s.a) && s.a.pending == 0 && !s.a.restarted ==> s.a.c.sendQueue == []
    ensures Awake(s.b) && s.b.pending == 0 && !s.b.restarted ==> s.b.c.sendQueue == []
  {
    assert After(Summary(s.b), s.ab, modulo) == Summary(s.b);
    assert After(Summary(s.a), s.ba, modulo) == Summary(s.a);
    assert AtRequest(Summary(s.a), s.ba, modulo) == AtRequest(Summary(s.b), s.ab, modulo) == None;
    var n := |s.a.sentIn| - 1;
    assert s.b.gotIn[n] <= s.a.sentIn[n] && s.a.gotIn[n] <= s.b.sentIn[n];
  }

  // Termination

  /** The work a packet in flight can still cause. */
  function Weight(p: Packet): nat {
    match p
    case DataPacket(_) => 5
    case ReceiveReady(_, _, _) => 3
    case ResetRequest(_, _, _, _) => 2
    case ClearRequestPacket(_) => 2
    case _ => 1
  }

  function TotalWeight(channel: seq<Packet>): nat {
    if channel == [] then 0 else Weight(channel[0]) + TotalWeight(channel[1..])
  }

  function PartyWeight(p: Party): nat {
    6 * |p.c.sendQueue| + |p.c.recvQueue| + p.pending
  }

  function Measure(s: Sys): nat {
    PartyWeight(s.a) + PartyWeight(s.b) + TotalWeight(s.ab) + TotalWeight(s.ba)
  }

  /** Steps nobody has to ask for. */
  predicate IsWork(event: Event) {
    event.Deliver? || event.Pump? || event.Receive?
  }

  lemma {:induction false} WeightConcat(x: seq<Packet>, y: seq<Packet>)
    ensures TotalWeight(x + y) == TotalWeight(x) + TotalWeight(y)
  {
    if x == [] {
      assert x + y == y;
    } else {
      assert (x + y)[1..] == x[1..] + y;
      WeightConcat(x[1..], y);
    }
  }

  lemma {:induction false} SendQueuedWeight(c: Circuit, link: Link)
    requires c.state.DataTransfer?
    ensures var e := SendQueued(c, link);
            && 6 * |e.c.sendQueue| + TotalWeight(e.out) <= 6 * |c.sendQueue|
            && e.c.recvQueue == c.recvQueue
            && (e.out == [] ==> e.c.sendQueue == c.sendQueue)
            && (e.out != [] ==> 6 * |e.c.sendQueue| + TotalWeight(e.out) < 6 * |c.sendQueue|)
    decreases |c.sendQueue|
  {
    if c.sendQueue != [] && c.state.transfer.IsOpen() {
      var first := SendOne(c, link);
      if first.c.state.DataTransfer? {
        SendQueuedWeight(first.c, first.link);
        WeightConcat(first.out, SendQueued(first.c, first.link).out);
        assert TotalWeight(first.out[1..]) == 0;
      }
    }
  }

  lemma SendThenWeight(p: Packet, c: Circuit, link: Link)
    ensures var e := SendThen(p, c, link);
            && TotalWeight(e.out) <= Weight(p)
            && e.c.sendQueue == c.sendQueue && e.c.recvQueue == c.recvQueue
  {
    assert [p][1..] == [];
  }

  lemma DataWeight(c: Circuit, d: Data, link: Link)
    requires c.state.DataTransfer?
    ensures var e := HandleData(c, d, link);
            6 * |e.c.sendQueue| + |e.c.recvQueue| + TotalWeight(e.out) < 6 * |c.sendQueue| + |c.recvQueue| + 5
  {
    var reset := i => ResetRequest(c.params.modulo, c.channel, 5, i);
    SendThenWeight(reset(1), c.(state := WaitResetConfirm), link);
    SendThenWeight(reset(2), c.(state := WaitResetConfirm), link);
    var e := SendQueued(Accept(c, d), link);
    SendQueuedWeight(Accept(c, d), link);
    if e.c.state.DataTransfer? && e.out == [] {
      var t := e.c.state.transfer;
      SendThenWeight(ReceiveReady(e.c.params.modulo, e.c.channel, Wrap(t.received, t.modulo)), e.c, e.link);
    }
  }

  /** Handling a packet leaves less to do than there was with the packet in flight. */
  lemma ArrivalWeight(c: Circuit, p: Packet, link: Link)
    requires Handles(c, Some(p))
    ensures var e := HandlePacket(c, Some(p), false, link);
            6 * |e.c.sendQueue| + |e.c.recvQueue| + TotalWeight(e.out)
            < 6 * |c.sendQueue| + |c.recvQueue| + Weight(p)
  {
    if c.state.DataTransfer? && p.DataPacket? {
      DataWeight(c, p.data, link);
    } else if c.state.DataTransfer? && p.ReceiveReady? {
      SendQueuedWeight(c.(state := DataTransfer(AckedTo(c.state.transfer, p.recvSeq))), link);
      SendThenWeight(ResetRequest(c.params.modulo, c.channel, 5, 2), c.(state := WaitResetConfirm), link);
    } else if p.ResetRequest? {
      SendThenWeight(ResetConfirm(c.params.modulo, c.channel), EnterDataTransfer(c), link);
    } else if p.ClearRequestPacket? {
      SendThenWeight(ClearConfirmPacket(ClearConfirm(c.params.modulo, c.channel, X121.NULL, X121.NULL, [])),
                     c.(state := Cleared(Remote(p.clearRequest), None)), link);
    }
  }

  /** Every step nobody asked for makes the measure smaller, in any state at all. */
  lemma WorkDecreases(s: Sys, event: Event)
    requires Possible(s, event) && IsWork(event)
    ensures Measure(Step(s, event)) < Measure(s)
  {
    match event
    case Deliver(link) =>
      var e := HandlePacket(s.a.c, Some(s.ba[0]), false, link);
      ArrivalWeight(s.a.c, s.ba[0], link);
      WeightConcat(s.ab, e.out);
      assert Step(s, event).a.c == e.c && Step(s, event).a.pending == s.a.pending;
    case Pump(link) =>
      SendQueuedWeight(s.a.c, link);
      WeightConcat(s.ab, SendQueued(s.a.c, link).out);
    case Receive =>
  }

  /** So deliveries stop: a run of such steps is no longer than the measure. */
  lemma {:induction false} WorkEnds(s: Sys, moves: seq<Move>)
    requires Run(s, moves) && forall m | m in moves :: IsWork(m.event)
    ensures |moves| <= Measure(s)
    decreases |moves|
  {
    if moves != [] {
      var m := moves[0];
      WorkDecreases(if m.byA then s else Swap(s), m.event);
      WorkEnds(Apply(s, m), moves[1..]);
    }
  }
}
