/** Clearing a call: when one end clears it, by its user's wish or on a timer, both ends
    come to be cleared, each knowing by whom and why. */
module Clearing {
  import opened Wrappers
  import opened Seq
  import opened X121
  import opened Packets
  import opened Circuits
  import opened Flow
  import opened CircuitSystem
  import opened Invariant
  import opened Steps
  import opened Drain
  import opened Theorems

  predicate ClearFree(channel: seq<Packet>) {
    forall p | p in channel :: !p.ClearRequestPacket? && !p.ClearConfirmPacket?
  }

  /** An end that lives has sent nothing about clearing. */
  predicate Clean(s: Sys) {
    (Alive(s.a) ==> ClearFree(s.ab)) && (Alive(s.b) ==> ClearFree(s.ba))
  }

  lemma {:induction false} QueuedClearFree(c: Circuit, link: Link)
    requires c.state.DataTransfer?
    ensures ClearFree(SendQueued(c, link).out)
    decreases |c.sendQueue|
  {
    if c.sendQueue != [] && c.state.transfer.IsOpen() {
      var first := SendOne(c, link);
      if first.c.state.DataTransfer? {
        QueuedClearFree(first.c, first.link);
      }
    }
  }

  lemma ResponseClearFree(c: Circuit, p: Packet, link: Link)
    requires c.state.DataTransfer?
    ensures p.DataPacket? ==> ClearFree(HandleData(c, p.data, link).out)
    ensures p.ReceiveReady? ==> ClearFree(HandleReceiveReady(c, p.recvSeq, link).out)
  {
    if p.DataPacket? {
      QueuedClearFree(Accept(c, p.data), link);
    } else if p.ReceiveReady? {
      QueuedClearFree(c.(state := DataTransfer(AckedTo(c.state.transfer, p.recvSeq))), link);
    }
  }

  /** A circuit that lives on after a packet was alive before it. */
  lemma LivingSends(c: Circuit, packet: Option<Packet>, expired: bool, link: Link)
    requires Handles(c, packet) && !c.state.Ready? && !c.state.Called?
    ensures var e := HandlePacket(c, packet, expired, link);
            ModeOf(e.c.state) != Gone ==> ModeOf(c.state) != Gone && ClearFree(e.out)
  {
    if c.state.DataTransfer? && packet.Some? && (packet.value.DataPacket? || packet.value.ReceiveReady?) {
      ResponseClearFree(c, packet.value, link);
    }
  }

  lemma StepClean(s: Sys, event: Event, modulo: Modulo)
    requires Inv(s, modulo) && Enabled(s, event) && Clean(s)
    ensures Clean(Step(s, event))
  {
    match event
    case Deliver(link) => LivingSends(s.a.c, Some(s.ba[0]), false, link);
    case TimerExpires(link) => LivingSends(s.a.c, None, true, link);
    case Pump(link) => QueuedClearFree(s.a.c, link);
    case _ =>
  }

  lemma {:induction false} RunClean(s: Sys, moves: seq<Move>, modulo: Modulo)
    requires Inv(s, modulo) && Run(s, moves) && Clean(s)
    ensures Clean(Final(s, moves))
    decreases |moves|
  {
    if moves != [] {
      var m := moves[0];
      MoveKeeps(s, m, modulo);
      if m.byA {
        StepClean(s, m.event, modulo);
      } else {
        SwapInv(s, modulo);
        StepClean(Swap(s), m.event, modulo);
      }
      RunClean(Apply(s, m), moves[1..], modulo);
    }
  }

  // The stages of clearing, by end `a`

  /** The clear request is the last thing on its way to the other end. */
  predicate Asked(s: Sys, initiator: ClearInitiator, request: ClearRequest) {
    && s.a.c.state == WaitClearConfirm(initiator) && Alive(s.b)
    && s.ab != [] && s.ab[|s.ab| - 1] == ClearRequestPacket(request)
    && ClearFree(s.ab[..|s.ab| - 1]) && ClearFree(s.ba)
  }

  /** The other end is cleared, and its confirm is the last thing on its way back. */
  predicate Answered(s: Sys, initiator: ClearInitiator, request: ClearRequest) {
    && s.a.c.state == WaitClearConfirm(initiator)
    && s.b.c.state == Cleared(Remote(request), None)
    && s.ab == [] && s.ba != [] && s.ba[|s.ba| - 1].ClearConfirmPacket? && ClearFree(s.ba[..|s.ba| - 1])
  }

  predicate BothCleared(s: Sys, initiator: ClearInitiator, request: ClearRequest) {
    && s.a.c.state.Cleared? && s.a.c.state.initiator == initiator && s.a.c.state.confirm.Some?
    && s.b.c.state == Cleared(Remote(request), None)
    && s.ab == [] && s.ba == []
  }

  predicate UnderWay(s: Sys, initiator: ClearInitiator, request: ClearRequest) {
    Asked(s, initiator, request) || Answered(s, initiator, request) || BothCleared(s, initiator, request)
  }

  /** Nothing interferes: neither end's timer runs out, no link fails, and the other
      end does not clear the call as well. */
  ghost predicate Undisturbed(c: Circuit, event: Event) {
    && !event.TimerExpires? && !event.LinkFails? && !event.StartClear?
    && (event.Deliver? ==> Working(event.link, c))
    && (event.Pump? ==> Working(event.link, c))
    && (event.StartReset? ==> Working(event.link, c))
  }

  lemma TailClearFree(channel: seq<Packet>)
    requires |channel| > 1 && ClearFree(channel[..|channel| - 1])
    ensures channel[0] == channel[..|channel| - 1][0] && !channel[0].ClearRequestPacket? && !channel[0].ClearConfirmPacket?
    ensures ClearFree(channel[1..][..|channel| - 2])
    ensures channel[1..][|channel| - 2] == channel[|channel| - 1]
  {
    var front := channel[..|channel| - 1];
    assert front[0] in front;
    assert front[1..] == channel[1..][..|channel| - 2];
  }

  /** An end that waits for a clear confirm ends with it, and passes over all else. */
  lemma WaitingArrival(s: Sys, link: Link, initiator: ClearInitiator)
    requires Enabled(s, Deliver(link)) && s.a.c.state == WaitClearConfirm(initiator)
    ensures var (p, t) := (s.ba[0], Step(s, Deliver(link)));
            && t.a.c.state == (if p.ClearConfirmPacket? then Cleared(initiator, Some(p.clearConfirm)) else s.a.c.state)
            && t.b == s.b && t.ab == s.ab && t.ba == s.ba[1..]
  {
    var e := HandlePacket(s.a.c, Some(s.ba[0]), false, link);
    assert s.ab + [] == s.ab;
  }

  /** Its users can do no more than take what has been received. */
  lemma WaitingUser(s: Sys, event: Event)
    requires Enabled(s, event) && Undisturbed(s.a.c, event) && !event.Deliver? && !Alive(s.a)
    ensures var t := Step(s, event); t.a.c.state == s.a.c.state && t.b == s.b && t.ab == s.ab && t.ba == s.ba
  {
  }

  lemma AskedWaits(s: Sys, link: Link, initiator: ClearInitiator, request: ClearRequest)
    requires Enabled(s, Deliver(link)) && Asked(s, initiator, request)
    ensures Asked(Step(s, Deliver(link)), initiator, request)
  {
    WaitingArrival(s, link, initiator);
    assert s.ba[0] in s.ba;
  }

  lemma AnsweredWaits(s: Sys, link: Link, initiator: ClearInitiator, request: ClearRequest)
    requires Enabled(s, Deliver(link)) && Answered(s, initiator, request)
    ensures var t := Step(s, Deliver(link));
            if |s.ba| == 1 then BothCleared(t, initiator, request) else Answered(t, initiator, request)
  {
    WaitingArrival(s, link, initiator);
    if |s.ba| > 1 {
      TailClearFree(s.ba);
    }
  }

  lemma ClearingStep(s: Sys, event: Event, initiator: ClearInitiator, request: ClearRequest)
    requires Enabled(s, event) && Undisturbed(s.a.c, event) && UnderWay(s, initiator, request)
    ensures UnderWay(Step(s, event), initiator, request)
  {
    if !event.Deliver? {
      WaitingUser(s, event);
    } else if Asked(s, initiator, request) {
      AskedWaits(s, event.link, initiator, request);
    } else {
      AnsweredWaits(s, event.link, initiator, request);
    }
  }

  /** A living end that takes something else than a clear request lives on. */
  lemma OtherArrivalLives(s: Sys, link: Link, modulo: Modulo)
    requires Inv(s, modulo) && Enabled(s, Deliver(link)) && Alive(s.a) && Working(link, s.a.c)
    requires !s.ba[0].ClearRequestPacket?
    ensures Alive(Step(s, Deliver(link)).a)
  {
    if s.a.c.state.DataTransfer? && (s.ba[0].DataPacket? || s.ba[0].ReceiveReady?) {
      DataKeepsAlive(s, link, modulo);
    }
  }

  /** A living end answers the request it is asked with, and is cleared. */
  lemma RequestAnswered(s: Sys, link: Link, request: ClearRequest, modulo: Modulo)
    requires Inv(s, modulo) && Enabled(s, Deliver(link)) && Alive(s.a) && Working(link, s.a.c)
    requires s.ba[0] == ClearRequestPacket(request)
    ensures var t := Step(s, Deliver(link));
            && t.a.c.state == Cleared(Remote(request), None)
            && |t.ab| == |s.ab| + 1 && t.ab[..|s.ab|] == s.ab
            && t.ab[|s.ab|] == ClearConfirmPacket(ClearConfirm(s.a.c.params.modulo, s.a.c.channel,
                                                               X121Addr([]), X121Addr([]), []))
  {
    assert s.a.c.state.IsConnected();
    assert SendClearConfirm(s.a.c, request, link).out != [];
  }

  /** What the living end may do beside taking packets. */
  lemma LivingUser(s: Sys, event: Event, modulo: Modulo)
    requires Inv(s, modulo) && Enabled(s, event) && Undisturbed(s.a.c, event) && !event.Deliver? && Alive(s.a)
    ensures var t := Step(s, event);
            && Alive(t.a) && t.b == s.b && t.ba == s.ba
            && (ClearFree(s.ab) ==> ClearFree(t.ab))
  {
    match event
    case Pump(link) =>
      SendQueuedWorks(s.a.c, link);
      QueuedClearFree(s.a.c, link);
    case _ =>
  }

  /** The other end, `s.a` here, takes a packet. */
  lemma AskedTakes(s: Sys, link: Link, initiator: ClearInitiator, request: ClearRequest, modulo: Modulo)
    requires Inv(s, modulo) && Enabled(s, Deliver(link)) && Working(link, s.a.c)
    requires Asked(Swap(s), initiator, request)
    ensures var t := Swap(Step(s, Deliver(link)));
            if |s.ba| == 1 then Answered(t, initiator, request) else Asked(t, initiator, request)
  {
    if |s.ba| == 1 {
      RequestAnswered(s, link, request, modulo);
    } else {
      TailClearFree(s.ba);
      OtherArrivalLives(s, link, modulo);
      LivingSends(s.a.c, Some(s.ba[0]), false, link);
    }
  }

  /** A step of the other end. */
  lemma OtherStep(s: Sys, event: Event, initiator: ClearInitiator, request: ClearRequest, modulo: Modulo)
    requires Inv(s, modulo) && Enabled(s, event) && Undisturbed(s.a.c, event) && UnderWay(Swap(s), initiator, request)
    ensures UnderWay(Swap(Step(s, event)), initiator, request)
  {
    if !Alive(s.a) {
      assert s.ba == [];
      WaitingUser(s, event);
    } else if event.Deliver? {
      AskedTakes(s, event.link, initiator, request, modulo);
    } else {
      LivingUser(s, event, modulo);
    }
  }

  // Runs

  /** A run that nothing interferes with, by an end `a` that clears the call. */
  ghost predicate UndisturbedRun(s: Sys, moves: seq<Move>)
    decreases |moves|
  {
    moves == [] ||
    (&& Allowed(s, moves[0])
     && Undisturbed(if moves[0].byA then s.a.c else s.b.c, moves[0].event)
     && UndisturbedRun(Apply(s, moves[0]), moves[1..]))
  }

  lemma {:induction false} RunUnderWay(s: Sys, moves: seq<Move>, initiator: ClearInitiator, request: ClearRequest,
                                       modulo: Modulo)
    requires Inv(s, modulo) && UnderWay(s, initiator, request) && UndisturbedRun(s, moves)
    ensures Run(s, moves) && UnderWay(Final(s, moves), initiator, request) && Inv(Final(s, moves), modulo)
    decreases |moves|
  {
    if moves != [] {
      var m := moves[0];
      MoveKeeps(s, m, modulo);
      if m.byA {
        ClearingStep(s, m.event, initiator, request);
      } else {
        SwapInv(s, modulo);
        OtherStep(Swap(s), m.event, initiator, request, modulo);
      }
      RunUnderWay(Apply(s, m), moves[1..], initiator, request, modulo);
    }
  }

  /** What clears a call: the user, or a timer that has run out. */
  predicate Clears(c: Circuit, event: Event, initiator: ClearInitiator, cause: Byte, diagnostic: Byte) {
    match event
    case StartClear(userCause, userDiagnostic, _) =>
      initiator == Local && cause == userCause && diagnostic == userDiagnostic
    case TimerExpires(_) =>
      && cause == 19
      && ((c.state.WaitCallAccept? && initiator == TimeOut(21) && diagnostic == 49)
          || (c.state.WaitResetConfirm? && initiator == TimeOut(22) && diagnostic == 51))
    case _ => false
  }

  function LinkOf(event: Event): Link {
    match event
    case Pump(link) => link
    case Deliver(link) => link
    case TimerExpires(link) => link
    case StartReset(_, _, link) => link
    case StartClear(_, _, link) => link
    case _ => Link(0, p => false)
  }

  lemma ClearStarts(s: Sys, event: Event, initiator: ClearInitiator, cause: Byte, diagnostic: Byte, modulo: Modulo)
    returns (request: ClearRequest)
    requires Inv(s, modulo) && Clean(s) && Alive(s.a) && Alive(s.b) && Enabled(s, event)
    requires Clears(s.a.c, event, initiator, cause, diagnostic) && Working(LinkOf(event), s.a.c)
    ensures Asked(Step(s, event), initiator, request)
    ensures request == ClearRequest(s.a.c.params.modulo, s.a.c.channel, cause, diagnostic, X121.NULL, X121.NULL, [], [])
  {
    request := ClearRequestOf(s.a.c, cause, diagnostic).clearRequest;
    var t := Step(s, event);
    assert t.ab == s.ab + [ClearRequestPacket(request)];
    assert t.ab[..|t.ab| - 1] == s.ab;
  }

  /** Some packet can always be taken until both ends are cleared. */
  lemma ClearingProceeds(s: Sys, initiator: ClearInitiator, request: ClearRequest, modulo: Modulo) returns (m: Move)
    requires Inv(s, modulo) && UnderWay(s, initiator, request) && !BothCleared(s, initiator, request)
    ensures m.event.Deliver? && Allowed(s, m) && Undisturbed(if m.byA then s.a.c else s.b.c, m.event)
  {
    var link := Link(|s.a.c.sendQueue| + |s.b.c.sendQueue| + 2, p => true);
    if Asked(s, initiator, request) {
      m := Move(false, Deliver(link));
    } else {
      m := Move(true, Deliver(link));
      if |s.ba| > 1 {
        TailClearFree(s.ba);
      }
    }
  }

  lemma ClearingMoves(s: Sys, initiator: ClearInitiator, request: ClearRequest, modulo: Modulo) returns (m: Move)
    requires Inv(s, modulo) && UnderWay(s, initiator, request) && !BothCleared(s, initiator, request)
    ensures m.event.Deliver? && Allowed(s, m) && Undisturbed(if m.byA then s.a.c else s.b.c, m.event)
    ensures var t := Apply(s, m); Inv(t, modulo) && UnderWay(t, initiator, request) && Measure(t) < Measure(s)
  {
    m := ClearingProceeds(s, initiator, request, modulo);
    MoveKeeps(s, m, modulo);
    if m.byA {
      ClearingStep(s, m.event, initiator, request);
      WorkDecreases(s, m.event);
    } else {
      SwapInv(s, modulo);
      OtherStep(Swap(s), m.event, initiator, request, modulo);
      WorkDecreases(Swap(s), m.event);
    }
  }

  predicate AllDeliver(moves: seq<Move>) {
    forall i | 0 <= i < |moves| :: moves[i].event.Deliver?
  }

  lemma FirstMove(s: Sys, m: Move, rest: seq<Move>, moves: seq<Move>)
    requires moves == [m] + rest && m.event.Deliver? && AllDeliver(rest)
    requires Allowed(s, m) && Undisturbed(if m.byA then s.a.c else s.b.c, m.event)
    requires UndisturbedRun(Apply(s, m), rest) && Run(Apply(s, m), rest)
    ensures UndisturbedRun(s, moves) && AllDeliver(moves)
    ensures Run(s, moves) && Final(s, moves) == Final(Apply(s, m), rest)
  {
    assert moves[1..] == rest;
  }

  /** So taking packets, in finitely many steps, clears both ends. */
  lemma {:induction false} ClearingEnds(s: Sys, initiator: ClearInitiator, request: ClearRequest, modulo: Modulo)
    returns (moves: seq<Move>)
    requires Inv(s, modulo) && UnderWay(s, initiator, request)
    ensures UndisturbedRun(s, moves) && AllDeliver(moves)
    ensures Run(s, moves) && BothCleared(Final(s, moves), initiator, request)
    decreases Measure(s)
  {
    if BothCleared(s, initiator, request) {
      moves := [];
    } else {
      var m := ClearingMoves(s, initiator, request, modulo);
      var rest := ClearingEnds(Apply(s, m), initiator, request, modulo);
      moves := [m] + rest;
      FirstMove(s, m, rest, moves);
    }
  }

  // From every reachable state

  /** A reachable state, as `byA` end `a` or end `b` sees it. */
  function Seen(s: Sys, byA: bool): Sys {
    if byA then s else Swap(s)
  }

  lemma ReachableClean(s: Sys, moves: seq<Move>, byA: bool, modulo: Modulo)
    requires Init(s, modulo) && Run(s, moves)
    ensures Inv(Seen(Final(s, moves), byA), modulo) && Clean(Seen(Final(s, moves), byA))
  {
    InitInv(s, modulo);
    RunKeeps(s, moves, modulo);
    RunClean(s, moves, modulo);
    SwapInv(Final(s, moves), modulo);
  }

  /** One end of a live call, either one, clears it: at its user's wish, with the cause
      and diagnostic given, or because a timer has run out, with those of the timer. As
      long as nothing interferes, each end is on its way to be cleared, whatever else is
      under way. When nothing is left on the way, the clearing end is cleared as its
      initiator, with a confirm, and the other end by the request. */
  lemma ClearingCompletes(s: Sys, before: seq<Move>, byA: bool, event: Event, initiator: ClearInitiator,
                          cause: Byte, diagnostic: Byte, after: seq<Move>, modulo: Modulo)
    requires Init(s, modulo) && Run(s, before)
    requires var t := Seen(Final(s, before), byA);
             && Alive(t.a) && Alive(t.b) && Enabled(t, event)
             && Clears(t.a.c, event, initiator, cause, diagnostic) && Working(LinkOf(event), t.a.c)
             && UndisturbedRun(Step(t, event), after)
    ensures var t := Seen(Final(s, before), byA);
            && Run(Step(t, event), after)
            && (var u := Final(Step(t, event), after);
                exists request: ClearRequest ::
                  && request.cause == cause && request.diagnostic == diagnostic
                  && UnderWay(u, initiator, request)
                  && (u.ab == [] && u.ba == [] ==>
                        && u.a.c.state.Cleared? && u.a.c.state.initiator == initiator && u.a.c.state.confirm.Some?
                        && u.b.c.state == Cleared(Remote(request), None)))
  {
    ReachableClean(s, before, byA, modulo);
    var t := Seen(Final(s, before), byA);
    var request := ClearStarts(t, event, initiator, cause, diagnostic, modulo);
    StepKeeps(t, event, modulo);
    RunUnderWay(Step(t, event), after, initiator, request, modulo);
  }

  /** And taking what arrives gets there. */
  lemma ClearingReachesEnd(s: Sys, before: seq<Move>, byA: bool, event: Event, initiator: ClearInitiator,
                           cause: Byte, diagnostic: Byte, modulo: Modulo)
    returns (after: seq<Move>, request: ClearRequest)
    requires Init(s, modulo) && Run(s, before)
    requires var t := Seen(Final(s, before), byA);
             && Alive(t.a) && Alive(t.b) && Enabled(t, event)
             && Clears(t.a.c, event, initiator, cause, diagnostic) && Working(LinkOf(event), t.a.c)
    ensures var t := Step(Seen(Final(s, before), byA), event);
            && UndisturbedRun(t, after) && AllDeliver(after)
            && Run(t, after) && BothCleared(Final(t, after), initiator, request)
    ensures request.cause == cause && request.diagnostic == diagnostic
  {
    ReachableClean(s, before, byA, modulo);
    var t := Seen(Final(s, before), byA);
    request := ClearStarts(t, event, initiator, cause, diagnostic, modulo);
    StepKeeps(t, event, modulo);
    after := ClearingEnds(Step(t, event), initiator, request, modulo);
  }
}
