/** Resets that cross: whatever is under way when both ends have sent a reset request,
    each end comes back to data transfer once, in the same new epoch, and no further
    reset is sent. */
module Resync {
  import opened Wrappers
  import opened Seq
  import opened Packets
  import opened Circuits
  import opened Flow
  import opened CircuitSystem
  import opened Invariant
  import opened Preservation
  import opened Steps
  import opened Drain
  import opened Theorems

  /** Both ends wait for a confirm, and none has been sent yet. Data,
      acknowledgements and anything else may be queued or under way. */
  predicate Colliding(s: Sys) {
    && s.a.c.state.WaitResetConfirm? && s.b.c.state.WaitResetConfirm?
    && Confirms(s.ab) == 0 && Confirms(s.ba) == 0
  }

  predicate NoReset(moves: seq<Move>) {
    forall i | 0 <= i < |moves| :: !moves[i].event.StartReset?
  }

  /** The epochs of `p`, with the one it waits to enter. */
  function Epochs(p: Party): nat {
    |p.sentIn| + if p.c.state.DataTransfer? then 0 else 1
  }

  /** No request on its way takes `p` out of data transfer, so `n` is where it stays. */
  predicate Bound(p: Party, q: Party, qp: seq<Packet>, n: nat, modulo: Modulo) {
    Alive(p) && Alive(q) ==> Epochs(p) == n && AtRequest(Summary(p), qp, modulo) != Some(Transferring)
  }

  predicate BothBound(s: Sys, m: nat, n: nat, modulo: Modulo) {
    Bound(s.a, s.b, s.ba, m, modulo) && Bound(s.b, s.a, s.ab, n, modulo)
  }

  // Requests and modes

  lemma {:induction false} ModeDecides(x: Expect, y: Expect, channel: seq<Packet>, modulo: Modulo)
    requires x.mode == y.mode
    ensures AtRequest(x, channel, modulo) == AtRequest(y, channel, modulo)
    decreases |channel|
  {
    if channel != [] && !channel[0].ResetRequest? {
      ModeDecides(Next(x, channel[0], modulo), Next(y, channel[0], modulo), channel[1..], modulo);
    }
  }

  lemma {:induction false} AtRequestMore(x: Expect, channel: seq<Packet>, out: seq<Packet>, modulo: Modulo)
    requires Requests(out) == 0
    ensures AtRequest(x, channel + out, modulo) == AtRequest(x, channel, modulo)
    decreases |channel|
  {
    if channel == [] {
      assert channel + out == out;
      NoRequest(x, out, modulo);
    } else {
      assert (channel + out)[1..] == channel[1..] + out;
      if !channel[0].ResetRequest? {
        AtRequestMore(Next(x, channel[0], modulo), channel[1..], out, modulo);
      }
    }
  }

  /** Without a confirm, a waiting end meets a request still waiting. */
  lemma {:induction false} MetWaiting(x: Expect, channel: seq<Packet>, modulo: Modulo)
    requires Confirms(channel) == 0 && (x.mode == Resetting || x.mode == Gone)
    ensures AtRequest(x, channel, modulo) != Some(Transferring)
    decreases |channel|
  {
    if channel != [] && !channel[0].ResetRequest? {
      MetWaiting(Next(x, channel[0], modulo), channel[1..], modulo);
    }
  }

  // One step

  lemma RespondMode(c: Circuit, link: Link)
    requires c.state.DataTransfer?
    ensures var e := SendQueued(c, link); e.c.state.DataTransfer? || e.c.state.OutOfOrder?
    ensures var e := Respond(c, link); e.c.state.DataTransfer? || e.c.state.OutOfOrder?
  {
    SendQueuedFrame(c, link);
  }

  /** A circuit that sends no reset request and stays alive is in the mode that its
      summary foretells. */
  lemma ArrivalMode(c: Circuit, x: Expect, p: Packet, link: Link, modulo: Modulo)
    requires Handles(c, Some(p)) && !c.state.Ready? && !c.state.Called? && x.mode == ModeOf(c.state)
    ensures var e := HandlePacket(c, Some(p), false, link);
            Requests(e.out) == 0 && ModeOf(e.c.state) != Gone ==> ModeOf(e.c.state) == Next(x, p, modulo).mode
  {
    if c.state.DataTransfer? && p.DataPacket? {
      RespondMode(Accept(c, p.data), link);
    } else if c.state.DataTransfer? && p.ReceiveReady? {
      RespondMode(c.(state := DataTransfer(AckedTo(c.state.transfer, p.recvSeq))), link);
    }
  }

  lemma ArrivalLength(p: Party, packet: Packet, e: Effect)
    ensures var p' := AfterArrival(p, packet, e);
            && p'.c == e.c
            && |p'.sentIn| == |p.sentIn| + if Opens(ModeOf(p.c.state), packet) && e.c.state.DataTransfer? then 1 else 0
  {
    ExtendFacts(p.sentIn, DataIn(e.out));
  }

  /** What an arrival that provokes no reset does to the epochs. */
  lemma ArrivalEpochs(p: Party, packet: Packet, link: Link, modulo: Modulo)
    requires Handles(p.c, Some(packet)) && !p.c.state.Ready? && !p.c.state.Called?
    requires Requests(HandlePacket(p.c, Some(packet), false, link).out) == 0
    ensures var p' := AfterArrival(p, packet, HandlePacket(p.c, Some(packet), false, link));
            && (Alive(p') ==> Alive(p) && Summary(p').mode == Next(Summary(p), packet, modulo).mode)
            && (Alive(p') && !(p.c.state.DataTransfer? && packet.ResetRequest?) ==> Epochs(p') == Epochs(p))
  {
    ArrivalMode(p.c, Summary(p), packet, link, modulo);
    ArrivalLength(p, packet, HandlePacket(p.c, Some(packet), false, link));
  }

  lemma DeliverBound(s: Sys, link: Link, m: nat, n: nat, modulo: Modulo)
    requires Inv(s, modulo) && Enabled(s, Deliver(link)) && BothBound(s, m, n, modulo)
    ensures BothBound(Step(s, Deliver(link)), m, n, modulo)
  {
    var p := s.ba[0];
    var e := HandlePacket(s.a.c, Some(p), false, link);
    SentByDelivery(s, link, modulo);
    ArrivalEpochs(s.a, p, link, modulo);
    var s' := Step(s, Deliver(link));
    if Alive(s'.a) && Alive(s.b) {
      assert !(s.a.c.state.DataTransfer? && p.ResetRequest?);
      if p.ResetRequest? {
        NoRequest(Summary(s'.a), s'.ba, modulo);
      } else {
        ModeDecides(Summary(s'.a), Next(Summary(s.a), p, modulo), s'.ba, modulo);
      }
      AtRequestMore(Summary(s.b), s.ab, e.out, modulo);
    }
  }

  /** A delivery sends no reset request. */
  lemma SentByDelivery(s: Sys, link: Link, modulo: Modulo)
    requires Inv(s, modulo) && Enabled(s, Deliver(link))
    ensures Requests(HandlePacket(s.a.c, Some(s.ba[0]), false, link).out) == 0
  {
    DeliveryHarmless(s, link, modulo);
    var e := HandlePacket(s.a.c, Some(s.ba[0]), false, link);
    if s.ba[0].ResetRequest? || s.ba[0].ResetConfirm? || s.ba[0].CallAcceptPacket? {
      assert e.out != [] ==> Requests(e.out[1..]) == 0;
    }
  }

  lemma PumpBound(s: Sys, link: Link, m: nat, n: nat, modulo: Modulo)
    requires Enabled(s, Pump(link)) && BothBound(s, m, n, modulo)
    ensures BothBound(Step(s, Pump(link)), m, n, modulo)
  {
    var s' := Step(s, Pump(link));
    var e := SendQueued(s.a.c, link);
    SendQueuedFrame(s.a.c, link);
    ExtendFacts(s.a.sentIn, DataIn(e.out));
    AtRequestMore(Summary(s.b), s.ab, e.out, modulo);
    if Alive(s'.a) {
      ModeDecides(Summary(s'.a), Summary(s.a), s.ba, modulo);
    }
  }

  lemma TimerBound(s: Sys, link: Link, m: nat, n: nat, modulo: Modulo)
    requires Enabled(s, TimerExpires(link)) && BothBound(s, m, n, modulo)
    requires !s.a.c.state.Ready? && !s.a.c.state.Called?
    ensures BothBound(Step(s, TimerExpires(link)), m, n, modulo)
  {
    if Alive(Step(s, TimerExpires(link)).a) {
      NothingSent(s.a, s.a.c, link);
      assert s.ab + [] == s.ab;
    }
  }

  lemma StepBound(s: Sys, event: Event, m: nat, n: nat, modulo: Modulo)
    requires Inv(s, modulo) && Enabled(s, event) && !event.StartReset? && BothBound(s, m, n, modulo)
    ensures BothBound(Step(s, event), m, n, modulo)
  {
    match event
    case Deliver(link) => DeliverBound(s, link, m, n, modulo);
    case Pump(link) => PumpBound(s, link, m, n, modulo);
    case TimerExpires(link) => TimerBound(s, link, m, n, modulo);
    case SubmitMessage(_) => assert Summary(Step(s, event).a) == Summary(s.a);
    case Receive => assert Summary(Step(s, event).a) == Summary(s.a);
    case _ =>
  }

  /** A step other than starting a reset sends no reset request. */
  lemma StepSendsNoReset(s: Sys, event: Event, modulo: Modulo)
    requires Inv(s, modulo) && Enabled(s, event) && !event.StartReset?
    ensures Step(s, event).a.resets == s.a.resets && Step(s, event).b == s.b
  {
    match event
    case Deliver(link) => DeliveryHarmless(s, link, modulo);
    case Pump(link) => SendQueuedFrame(s.a.c, link);
    case TimerExpires(link) => TimerSendsNoReset(s.a.c, link);
    case StartClear(cause, diagnostic, link) =>
      NoRequestIn(SendClearRequest(s.a.c, cause, diagnostic, Local, link));
    case _ =>
  }

  lemma NoRequestIn(e: Effect)
    requires |e.out| <= 1 && forall p | p in e.out :: !p.ResetRequest?
    ensures Requests(e.out) == 0
  {
    assert e.out != [] ==> Requests(e.out[1..]) == 0;
  }

  lemma TimerSendsNoReset(c: Circuit, link: Link)
    requires Handles(c, None)
    ensures Requests(HandlePacket(c, None, true, link).out) == 0
  {
    NoRequestIn(HandlePacket(c, None, true, link));
  }

  // Runs

  lemma {:induction false} RunBound(s: Sys, moves: seq<Move>, m: nat, n: nat, modulo: Modulo)
    requires Inv(s, modulo) && Run(s, moves) && NoReset(moves) && BothBound(s, m, n, modulo)
    ensures var t := Final(s, moves);
            && Inv(t, modulo) && BothBound(t, m, n, modulo)
            && t.a.resets == s.a.resets && t.b.resets == s.b.resets
    decreases |moves|
  {
    if moves != [] {
      var move := moves[0];
      MoveKeeps(s, move, modulo);
      if move.byA {
        StepBound(s, move.event, m, n, modulo);
        StepSendsNoReset(s, move.event, modulo);
      } else {
        SwapInv(s, modulo);
        StepBound(Swap(s), move.event, n, m, modulo);
        StepSendsNoReset(Swap(s), move.event, modulo);
      }
      assert forall i | 0 <= i < |moves| - 1 :: moves[1..][i] == moves[i + 1];
      RunBound(Apply(s, move), moves[1..], m, n, modulo);
    }
  }

  lemma CollidingBound(s: Sys, modulo: Modulo)
    requires Colliding(s)
    ensures BothBound(s, |s.a.sentIn| + 1, |s.b.sentIn| + 1, modulo)
  {
    MetWaiting(Summary(s.a), s.ba, modulo);
    MetWaiting(Summary(s.b), s.ab, modulo);
  }

  lemma {:induction false} OpensAtMost(x: Expect, channel: seq<Packet>, modulo: Modulo)
    requires x.mode != Calling
    ensures After(x, channel, modulo).epoch <= x.epoch + Requests(channel) + Confirms(channel)
    decreases |channel|
  {
    if channel != [] {
      OpensAtMost(Next(x, channel[0], modulo), channel[1..], modulo);
    }
  }

  /** Ends that collide do so in the same epoch. */
  lemma SameEpochs(s: Sys, modulo: Modulo)
    requires Inv(s, modulo) && Colliding(s)
    ensures |s.a.sentIn| == |s.b.sentIn|
  {
    OpensAtMost(Summary(s.a), s.ba, modulo);
    OpensAtMost(Summary(s.b), s.ab, modulo);
  }

  /** A reset collision, in every interleaving and with anything queued or under way:
      as long as the users start no further reset, none is sent, later traffic
      included, and each end that is back in data transfer has entered exactly one
      new epoch, the same at both. The invariant goes on holding. */
  lemma CollisionOpensOneEpoch(s: Sys, moves: seq<Move>, modulo: Modulo)
    requires Inv(s, modulo) && Colliding(s) && Run(s, moves) && NoReset(moves)
    ensures var t := Final(s, moves);
            && Inv(t, modulo)
            && t.a.resets == s.a.resets && t.b.resets == s.b.resets
            && |s.a.sentIn| == |s.b.sentIn|
            && (Alive(t.a) && Alive(t.b) ==>
                  && |t.a.sentIn| == |s.a.sentIn| + (if t.a.c.state.DataTransfer? then 1 else 0)
                  && |t.b.sentIn| == |s.b.sentIn| + (if t.b.c.state.DataTransfer? then 1 else 0))
  {
    CollidingBound(s, modulo);
    RunBound(s, moves, |s.a.sentIn| + 1, |s.b.sentIn| + 1, modulo);
    SameEpochs(s, modulo);
  }

  /** Both ends do come back: from every collision, deliveries, pumps and receives lead
      to a state at rest with both in data transfer, one epoch on. */
  lemma CollisionComesToRest(s: Sys, modulo: Modulo) returns (moves: seq<Move>)
    requires Inv(s, modulo) && Colliding(s)
    ensures Run(s, moves) && NoReset(moves)
    ensures var t := Final(s, moves);
            && Quiescent(t) && t.a.c.state.DataTransfer? && t.b.c.state.DataTransfer?
            && |t.a.sentIn| == |t.b.sentIn| == |s.a.sentIn| + 1
            && t.a.resets == s.a.resets && t.b.resets == s.b.resets
  {
    moves := ComesToRest(s, modulo);
    assert forall i | 0 <= i < |moves| :: IsWork(moves[i].event);
    CollisionOpensOneEpoch(s, moves, modulo);
    Drained(Final(s, moves), modulo);
  }

  // What is owed

  /** Every confirm an end waits for is on its way, or its request is. */
  predicate Owes(p: Party, q: Party, pq: seq<Packet>, qp: seq<Packet>) {
    Alive(p) && Alive(q) ==> p.owed <= Requests(pq) + Confirms(qp)
  }

  predicate BothOwe(s: Sys) {
    Owes(s.a, s.b, s.ab, s.ba) && Owes(s.b, s.a, s.ba, s.ab)
  }

  lemma {:induction false} CountConcat(x: seq<Packet>, y: seq<Packet>)
    ensures Requests(x + y) == Requests(x) + Requests(y)
    ensures Confirms(x + y) == Confirms(x) + Confirms(y)
  {
    if x == [] {
      assert x + y == y;
    } else {
      assert (x + y)[1..] == x[1..] + y;
      CountConcat(x[1..], y);
    }
  }

  lemma ArrivalOwed(p: Party, packet: Packet, e: Effect)
    requires Requests(e.out) == 0
    ensures var mode := ModeOf(p.c.state);
            AfterArrival(p, packet, e).owed
            == if packet.ResetConfirm? && p.owed > 0
                  && (mode == Transferring || (mode == Resetting && e.c.state.DataTransfer?))
               then p.owed - 1 else p.owed
  {
  }

  lemma ConfirmEffect(c: Circuit, packet: Packet, link: Link)
    requires Handles(c, Some(packet)) && c.state.IsConnected()
    ensures var e := HandlePacket(c, Some(packet), false, link);
            && (packet.ResetConfirm? ==> e.c.state.DataTransfer?)
            && (packet.ResetRequest? && ModeOf(e.c.state) != Gone ==> Confirms(e.out) == 1)
  {
  }

  lemma DeliverOwes(s: Sys, link: Link, modulo: Modulo)
    requires Inv(s, modulo) && Enabled(s, Deliver(link)) && BothOwe(s)
    ensures BothOwe(Step(s, Deliver(link)))
  {
    var p := s.ba[0];
    var e := HandlePacket(s.a.c, Some(p), false, link);
    var s' := Step(s, Deliver(link));
    SentByDelivery(s, link, modulo);
    ArrivalOwed(s.a, p, e);
    ArrivalEpochs(s.a, p, link, modulo);
    CountConcat(s.ab, e.out);
    if Alive(s'.a) && s.a.c.state.IsConnected() {
      ConfirmEffect(s.a.c, p, link);
    }
  }

  lemma PumpOwes(s: Sys, link: Link)
    requires Enabled(s, Pump(link)) && BothOwe(s)
    ensures BothOwe(Step(s, Pump(link)))
  {
    SendQueuedFrame(s.a.c, link);
    CountConcat(s.ab, SendQueued(s.a.c, link).out);
  }

  lemma ResetOwes(s: Sys, cause: Byte, diagnostic: Byte, link: Link)
    requires Enabled(s, StartReset(cause, diagnostic, link)) && BothOwe(s)
    ensures BothOwe(Step(s, StartReset(cause, diagnostic, link)))
  {
    var e := SendResetRequest(s.a.c, cause, diagnostic, link);
    CountConcat(s.ab, e.out);
    if e.out != [] {
      assert e.out[1..] == [];
    }
  }

  lemma TimerOwes(s: Sys, link: Link)
    requires Enabled(s, TimerExpires(link)) && BothOwe(s) && !s.a.c.state.Ready? && !s.a.c.state.Called?
    ensures BothOwe(Step(s, TimerExpires(link)))
  {
    if Alive(Step(s, TimerExpires(link)).a) {
      NothingSent(s.a, s.a.c, link);
      assert s.ab + [] == s.ab;
    }
  }

  lemma StepOwes(s: Sys, event: Event, modulo: Modulo)
    requires Inv(s, modulo) && Enabled(s, event) && BothOwe(s)
    ensures BothOwe(Step(s, event))
  {
    match event
    case Deliver(link) => DeliverOwes(s, link, modulo);
    case Pump(link) => PumpOwes(s, link);
    case StartReset(cause, diagnostic, link) => ResetOwes(s, cause, diagnostic, link);
    case TimerExpires(link) => TimerOwes(s, link);
    case _ =>
  }

  lemma {:induction false} RunOwes(s: Sys, moves: seq<Move>, modulo: Modulo)
    requires Inv(s, modulo) && Run(s, moves) && BothOwe(s)
    ensures BothOwe(Final(s, moves))
    decreases |moves|
  {
    if moves != [] {
      var m := moves[0];
      MoveKeeps(s, m, modulo);
      if m.byA {
        StepOwes(s, m.event, modulo);
      } else {
        SwapInv(s, modulo);
        StepOwes(Swap(s), m.event, modulo);
      }
      RunOwes(Apply(s, m), moves[1..], modulo);
    }
  }

  // Emptying the queues

  predicate Uncrossed(channel: seq<Packet>) {
    Requests(channel) == 0 && Confirms(channel) == 0
  }

  /** As long as both ends live: no reset is under way, and a queue that a reset left
      behind has a pump to come. */
  predicate Calm(s: Sys) {
    Alive(s.a) && Alive(s.b) ==>
      && s.a.c.state.DataTransfer? && s.b.c.state.DataTransfer?
      && Uncrossed(s.ab) && Uncrossed(s.ba)
      && (s.a.restarted ==> s.a.pending > 0) && (s.b.restarted ==> s.b.pending > 0)
  }

  lemma {:induction false} SendQueuedUncrossed(c: Circuit, link: Link)
    requires c.state.DataTransfer?
    ensures Uncrossed(SendQueued(c, link).out)
    decreases |c.sendQueue|
  {
    if c.sendQueue != [] && c.state.transfer.IsOpen() {
      var first := SendOne(c, link);
      if first.c.state.DataTransfer? {
        SendQueuedUncrossed(first.c, first.link);
        assert first.out[1..] == [];
        CountConcat(first.out, SendQueued(first.c, first.link).out);
      }
    }
  }

  lemma ArrivalUncrossed(c: Circuit, p: Packet, link: Link)
    requires Handles(c, Some(p)) && c.state.DataTransfer? && !p.ResetRequest?
    requires Requests(HandlePacket(c, Some(p), false, link).out) == 0
    ensures Uncrossed(HandlePacket(c, Some(p), false, link).out)
  {
    if p.DataPacket? {
      SendQueuedUncrossed(Accept(c, p.data), link);
    } else if p.ReceiveReady? {
      SendQueuedUncrossed(c.(state := DataTransfer(AckedTo(c.state.transfer, p.recvSeq))), link);
    }
  }

  lemma DeliverCalm(s: Sys, link: Link, modulo: Modulo)
    requires Inv(s, modulo) && Enabled(s, Deliver(link)) && Calm(s)
    ensures Calm(Step(s, Deliver(link)))
  {
    var (p, s') := (s.ba[0], Step(s, Deliver(link)));
    var e := HandlePacket(s.a.c, Some(p), false, link);
    SentByDelivery(s, link, modulo);
    ArrivalEpochs(s.a, p, link, modulo);
    if Alive(s'.a) && Alive(s.b) {
      ArrivalUncrossed(s.a.c, p, link);
      CountConcat(s.ab, e.out);
    }
  }

  lemma WorkCalm(s: Sys, event: Event, modulo: Modulo)
    requires Inv(s, modulo) && Enabled(s, event) && IsWork(event) && Calm(s)
    ensures Calm(Step(s, event))
  {
    match event
    case Deliver(link) => DeliverCalm(s, link, modulo);
    case Pump(link) =>
      SendQueuedFrame(s.a.c, link);
      SendQueuedUncrossed(s.a.c, link);
      CountConcat(s.ab, SendQueued(s.a.c, link).out);
    case Receive =>
  }

  lemma MoveCalm(s: Sys, m: Move, modulo: Modulo)
    requires Inv(s, modulo) && Allowed(s, m) && IsWork(m.event) && Calm(s)
    ensures Calm(Apply(s, m)) && Inv(Apply(s, m), modulo)
  {
    MoveKeeps(s, m, modulo);
    if m.byA {
      WorkCalm(s, m.event, modulo);
    } else {
      SwapInv(s, modulo);
      WorkCalm(Swap(s), m.event, modulo);
    }
  }

  predicate AllWork(moves: seq<Move>) {
    forall i | 0 <= i < |moves| :: IsWork(moves[i].event)
  }

  lemma AllWorkTail(moves: seq<Move>)
    requires moves != [] && AllWork(moves)
    ensures IsWork(moves[0].event) && AllWork(moves[1..])
  {
    assert forall i | 0 <= i < |moves| - 1 :: moves[1..][i] == moves[i + 1];
  }

  lemma {:induction false} RunCalm(s: Sys, moves: seq<Move>, modulo: Modulo)
    requires Inv(s, modulo) && Run(s, moves) && Calm(s) && AllWork(moves)
    ensures Calm(Final(s, moves))
    decreases |moves|
  {
    if moves != [] {
      AllWorkTail(moves);
      MoveCalm(s, moves[0], modulo);
      RunCalm(Apply(s, moves[0]), moves[1..], modulo);
    }
  }
}
