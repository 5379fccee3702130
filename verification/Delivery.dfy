/** End-to-end delivery: what `recv` returns at one end, against what was given to
    `send` at the other, over every run. */
module Delivery {
  import opened Wrappers
  import opened Seq
  import opened Packets
  import opened Circuits
  import opened Flow
  import opened CircuitSystem
  import opened Invariant
  import opened Preservation
  import opened Steps
  import opened Messages

  /** Nothing is lost between the user and the log of what was sent, or between the
      log of what was accepted and the user. */
  predicate Streams(p: Party) {
    && Concat(p.sentIn) + p.c.sendQueue == Cut(p.submitted, p.c.params.sendPacketSize)
    && p.consumed + ToFragments(p.c.recvQueue) == Concat(p.gotIn)
    && p.delivered == Complete(p.consumed)
    && Whole(p.consumed)
    && (p.submitted != [] ==> p.c.params.sendPacketSize > 0 && p.sentIn != [])
    && (p.c.state.WaitCallAccept? ==> p.submitted == [])
  }

  lemma {:induction false} SendQueuedConserves(c: Circuit, link: Link)
    requires c.state.DataTransfer?
    ensures var e := SendQueued(c, link); DataIn(e.out) + e.c.sendQueue == c.sendQueue
    decreases |c.sendQueue|
  {
    if c.sendQueue != [] && c.state.transfer.IsOpen() {
      var first := SendOne(c, link);
      if first.c.state.DataTransfer? {
        var rest := SendQueued(first.c, first.link);
        SendQueuedConserves(first.c, first.link);
        OutConcat(first.out, rest.out);
        assert DataIn(first.out[1..]) == [];
        assert DataIn(first.out) == [c.sendQueue[0]];
        assert [c.sendQueue[0]] + DataIn(rest.out) + rest.c.sendQueue == [c.sendQueue[0]] + c.sendQueue[1..];
      }
    }
  }

  /** Data sent is data that leaves the queue. */
  lemma SendingStreams(p: Party, e: Effect)
    requires Streams(p) && p.sentIn != []
    requires e.c.params == p.c.params && e.c.recvQueue == p.c.recvQueue
    requires DataIn(e.out) + e.c.sendQueue == p.c.sendQueue
    requires !e.c.state.WaitCallAccept?
    ensures Streams(AfterSending(p, e))
  {
    ConcatExtend(p.sentIn, DataIn(e.out));
    assert Concat(p.sentIn) + DataIn(e.out) + e.c.sendQueue == Concat(p.sentIn) + (DataIn(e.out) + e.c.sendQueue);
  }

  /** Circuit changes that move no data. */
  lemma StillStreams(p: Party, e: Effect)
    requires Streams(p)
    requires e.c.params.sendPacketSize == p.c.params.sendPacketSize || p.submitted == []
    requires e.c.recvQueue == p.c.recvQueue && e.c.sendQueue == p.c.sendQueue
    requires DataIn(e.out) == []
    requires !e.c.state.WaitCallAccept? || e.c.state == p.c.state
    ensures Streams(AfterSending(p, e))
    ensures Streams(AfterSending(p, e).(sentIn := p.sentIn + [[]], gotIn := p.gotIn + [[]]))
  {
    ExtendFacts(p.sentIn, []);
    ConcatSnoc(p.sentIn, []);
    ConcatSnoc(p.gotIn, []);
    assert Concat(p.sentIn) + [] == Concat(p.sentIn);
    assert Concat(p.gotIn) + [] == Concat(p.gotIn);
  }

  lemma AcceptConserves(consumed: seq<SendData>, queue: seq<Data>, got: Log, d: Data)
    requires got != [] && consumed + ToFragments(queue) == Concat(got)
    ensures consumed + ToFragments(queue + [d]) == Concat(Extend(got, [Fragment(d)]))
  {
    ConcatExtend(got, [Fragment(d)]);
    assert ToFragments(queue + [d]) == ToFragments(queue) + [Fragment(d)];
    assert consumed + (ToFragments(queue) + [Fragment(d)]) == consumed + ToFragments(queue) + [Fragment(d)];
  }

  lemma AcceptStreams(p: Party, d: Data)
    requires Streams(p) && p.gotIn != [] && p.c.state.DataTransfer?
    ensures Streams(p.(c := Accept(p.c, d), gotIn := Extend(p.gotIn, [Fragment(d)])))
  {
    AcceptConserves(p.consumed, p.c.recvQueue, p.gotIn, d);
  }

  lemma RespondConserves(c: Circuit, link: Link)
    requires c.state.DataTransfer?
    ensures var e := Respond(c, link);
            && DataIn(e.out) + e.c.sendQueue == c.sendQueue
            && e.c.params == c.params && e.c.recvQueue == c.recvQueue && !e.c.state.WaitCallAccept?
  {
    SendQueuedConserves(c, link);
    SendQueuedFrame(c, link);
    var e := SendQueued(c, link);
    if e.c.state.DataTransfer? && e.out == [] {
      var ready := SendReceiveReady(e.c, e.link);
      assert ready.out != [] ==> DataIn(ready.out[1..]) == [];
      assert DataIn(ready.out) == [];
    }
  }

  lemma DataStreams(s: Sys, link: Link, modulo: Modulo)
    requires Inv(s, modulo) && s.ba != [] && s.a.c.state.DataTransfer?
    requires s.ba[0].DataPacket? && Handles(s.a.c, Some(s.ba[0])) && Streams(s.a)
    ensures Streams(Step(s, Deliver(link)).a)
  {
    ChecksPass(s, modulo);
    DataStep(s, link);
    var c := Accept(s.a.c, s.ba[0].data);
    AcceptStreams(s.a, s.ba[0].data);
    var s1 := Taken(s, c.recvQueue);
    RespondConserves(c, link);
    assert s1.a == s.a.(c := c, gotIn := Extend(s.a.gotIn, [Fragment(s.ba[0].data)]));
    SendingStreams(s1.a, Respond(c, link));
  }

  lemma ReceiveReadyStreams(s: Sys, link: Link, modulo: Modulo)
    requires Inv(s, modulo) && s.ba != [] && s.a.c.state.DataTransfer?
    requires s.ba[0].ReceiveReady? && Handles(s.a.c, Some(s.ba[0])) && Streams(s.a)
    ensures Streams(Step(s, Deliver(link)).a)
  {
    ChecksPass(s, modulo);
    ReceiveReadyStep(s, link);
    var c := s.a.c.(state := DataTransfer(AckedTo(s.a.c.state.transfer, s.ba[0].recvSeq)));
    SendQueuedConserves(c, link);
    SendQueuedFrame(c, link);
    SendingStreams(Taken(s, c.recvQueue).a, SendQueued(c, link));
  }

  lemma NoData(e: Effect)
    requires e.out == [] || (|e.out| == 1 && !e.out[0].DataPacket?)
    ensures DataIn(e.out) == []
  {
    assert e.out != [] ==> DataIn(e.out[1..]) == [];
  }

  /** Outside data transfer no packet moves data. */
  lemma OtherArrivalEffect(c: Circuit, p: Packet, link: Link)
    requires Handles(c, Some(p)) && !c.state.Ready? && !(c.state.DataTransfer? && (p.DataPacket? || p.ReceiveReady?))
    ensures var e := HandlePacket(c, Some(p), false, link);
            && e.c.recvQueue == c.recvQueue && e.c.sendQueue == c.sendQueue
            && (e.c.params == c.params || c.state.WaitCallAccept?)
            && (!e.c.state.WaitCallAccept? || e.c.state == c.state)
            && DataIn(e.out) == []
  {
    NoData(HandlePacket(c, Some(p), false, link));
  }

  lemma OtherArrivalParty(p: Party, packet: Packet, link: Link)
    requires Handles(p.c, Some(packet)) && Streams(p) && !p.c.state.Ready?
    requires !(p.c.state.DataTransfer? && (packet.DataPacket? || packet.ReceiveReady?))
    ensures Streams(AfterArrival(p, packet, HandlePacket(p.c, Some(packet), false, link)))
  {
    var e := HandlePacket(p.c, Some(packet), false, link);
    OtherArrivalEffect(p.c, packet, link);
    StillStreams(p, e);
    ArrivalOf(p, packet, e);
    ExtendFacts(p.sentIn, []);
    var p1 := AfterSending(p, e);
    var p2 := AfterArrival(p, packet, e);
    SameStreams(if p2.sentIn == p.sentIn then p1 else p1.(sentIn := p.sentIn + [[]], gotIn := p.gotIn + [[]]), p2);
  }

  lemma OtherArrivalStreams(s: Sys, link: Link, modulo: Modulo)
    requires Inv(s, modulo) && s.ba != [] && Handles(s.a.c, Some(s.ba[0])) && Streams(s.a)
    requires !(s.a.c.state.DataTransfer? && (s.ba[0].DataPacket? || s.ba[0].ReceiveReady?))
    ensures Streams(Step(s, Deliver(link)).a)
  {
    OtherArrivalParty(s.a, s.ba[0], link);
  }

  lemma SameStreams(p: Party, p': Party)
    requires Streams(p)
    requires p'.c == p.c && p'.sentIn == p.sentIn && p'.gotIn == p.gotIn
    requires p'.consumed == p.consumed && p'.delivered == p.delivered && p'.submitted == p.submitted
    ensures Streams(p')
  {
  }

  /** What an arrival without data leaves of the parts that `Streams` speaks about. */
  lemma ArrivalOf(p: Party, packet: Packet, e: Effect)
    requires DataIn(e.out) == [] && e.c.recvQueue == p.c.recvQueue
    ensures var p' := AfterArrival(p, packet, e);
            && p'.c == e.c && p'.consumed == p.consumed && p'.delivered == p.delivered && p'.submitted == p.submitted
            && ((p'.sentIn == p.sentIn && p'.gotIn == p.gotIn)
                || (p'.sentIn == p.sentIn + [[]] && p'.gotIn == p.gotIn + [[]]))
  {
    ExtendByNothing(p.sentIn);
    ExtendByNothing(p.gotIn);
    assert ToFragments(e.c.recvQueue[Min(|p.c.recvQueue|, |e.c.recvQueue|)..]) == [];
  }

  lemma ExtendByNothing(log: Log)
    ensures Extend(log, []) == log
  {
    ExtendFacts(log, []);
  }

  lemma SubmitStreams(s: Sys, m: Message, modulo: Modulo)
    requires Inv(s, modulo) && Enabled(s, SubmitMessage(m)) && Streams(s.a)
    ensures Streams(Step(s, SubmitMessage(m)).a)
  {
    var size := s.a.c.params.sendPacketSize;
    var submitted := s.a.submitted + [m];
    assert submitted[..|s.a.submitted|] == s.a.submitted;
    var more := Fragments(m.userData, m.qualifier, size);
    assert Concat(s.a.sentIn) + (s.a.c.sendQueue + more) == Concat(s.a.sentIn) + s.a.c.sendQueue + more;
  }

  lemma TakenMessage(queue: seq<SendData>, consumed: seq<SendData>)
    requires CompleteLength(queue).Some? && Whole(consumed)
    ensures var taken := queue[..CompleteLength(queue).value];
            && Complete(consumed + taken) == Complete(consumed) + [Reassemble(taken)]
            && Whole(consumed + taken)
  {
    var n := CompleteLength(queue).value;
    var taken := queue[..n];
    CompleteAppend(consumed, taken, consumed + taken);
    CompleteLengthTaken(queue, n);
    assert taken[..n] == taken && taken[n..] == [];
    assert Complete(taken) == [Reassemble(taken)] + Complete([]);
    assert (consumed + taken)[|consumed + taken| - 1] == taken[n - 1];
  }

  lemma TakenConserves(consumed: seq<SendData>, queue: seq<Data>, n: nat)
    requires n <= |queue|
    ensures consumed + ToFragments(queue)[..n] + ToFragments(queue[n..]) == consumed + ToFragments(queue)
  {
    assert ToFragments(queue[n..]) == ToFragments(queue)[n..];
  }

  /** `p` after it has taken the first message, of `n` packets, off its queue. */
  function Received(p: Party, n: nat): Party
    requires 0 < n <= |p.c.recvQueue|
  {
    var taken := ToFragments(p.c.recvQueue)[..n];
    p.(c := p.c.(recvQueue := p.c.recvQueue[n..]),
       delivered := p.delivered + [Reassemble(taken)], consumed := p.consumed + taken)
  }

  lemma ReceivedStreams(p: Party, n: nat)
    requires Streams(p) && CompleteLength(ToFragments(p.c.recvQueue)) == Some(n)
    ensures Streams(Received(p, n))
  {
    TakenMessage(ToFragments(p.c.recvQueue), p.consumed);
    TakenConserves(p.consumed, p.c.recvQueue, n);
  }

  lemma ReceiveStreams(s: Sys)
    requires Enabled(s, Receive) && Streams(s.a)
    ensures Streams(Step(s, Receive).a)
  {
    var n := CompleteLength(ToFragments(s.a.c.recvQueue)).value;
    ReceivedStreams(s.a, n);
    var (message, queue) := PopComplete(s.a.c.recvQueue).value;
    assert queue == s.a.c.recvQueue[n..] && |s.a.c.recvQueue| - |queue| == n;
  }

  lemma {:induction false} CompleteLengthTaken(queue: seq<SendData>, n: nat)
    requires CompleteLength(queue) == Some(n)
    ensures CompleteLength(queue[..n]) == Some(n)
  {
    if queue[0].more {
      assert queue[..n][1..] == queue[1..][..n - 1];
      CompleteLengthTaken(queue[1..], n - 1);
    }
  }

  /** A control packet of one's own, or the failure to send it. */
  lemma ControlStreams(p: Party, packet: Packet, c: Circuit, link: Link)
    requires Streams(p) && !packet.DataPacket?
    requires c.params == p.c.params && c.recvQueue == p.c.recvQueue && c.sendQueue == p.c.sendQueue
    requires !c.state.WaitCallAccept?
    ensures Streams(AfterSending(p, SendThen(packet, c, link)))
  {
    NoData(SendThen(packet, c, link));
    StillStreams(p, SendThen(packet, c, link));
  }

  lemma TimerStreams(s: Sys, link: Link)
    requires Enabled(s, TimerExpires(link)) && Streams(s.a)
    ensures Streams(Step(s, TimerExpires(link)).a)
  {
    TimerEffect(s.a.c, link);
    StillStreams(s.a, HandlePacket(s.a.c, None, true, link));
  }

  lemma TimerEffect(c: Circuit, link: Link)
    requires Handles(c, None)
    ensures var e := HandlePacket(c, None, true, link);
            && e.c.params == c.params && e.c.recvQueue == c.recvQueue && e.c.sendQueue == c.sendQueue
            && (!e.c.state.WaitCallAccept? || e.c.state == c.state)
            && DataIn(e.out) == []
  {
    NoData(HandlePacket(c, None, true, link));
  }

  lemma PumpStreams(s: Sys, link: Link, modulo: Modulo)
    requires Inv(s, modulo) && Enabled(s, Pump(link)) && Streams(s.a)
    ensures Streams(Step(s, Pump(link)).a)
  {
    SendQueuedConserves(s.a.c, link);
    SendQueuedFrame(s.a.c, link);
    SendingStreams(s.a, SendQueued(s.a.c, link));
  }

  lemma StepStreams(s: Sys, event: Event, modulo: Modulo)
    requires Inv(s, modulo) && Enabled(s, event) && Streams(s.a)
    ensures Streams(Step(s, event).a)
  {
    match event
    case SubmitMessage(m) => SubmitStreams(s, m, modulo);
    case Pump(link) => PumpStreams(s, link, modulo);
    case Deliver(link) =>
      if s.a.c.state.DataTransfer? && s.ba[0].DataPacket? { DataStreams(s, link, modulo); }
      else if s.a.c.state.DataTransfer? && s.ba[0].ReceiveReady? { ReceiveReadyStreams(s, link, modulo); }
      else { OtherArrivalStreams(s, link, modulo); }
    case TimerExpires(link) => TimerStreams(s, link);
    case Receive => ReceiveStreams(s);
    case StartReset(cause, diagnostic, link) =>
      ControlStreams(s.a, ResetRequest(s.a.c.params.modulo, s.a.c.channel, cause, diagnostic),
                     s.a.c.(state := WaitResetConfirm), link);
    case StartClear(cause, diagnostic, link) =>
      ControlStreams(s.a, ClearRequestOf(s.a.c, cause, diagnostic), s.a.c.(state := WaitClearConfirm(Local)), link);
    case LinkFails =>
  }
}
