/** The guarantees of the protocol, for every run from an accepted call. */
module Theorems {
  import opened Wrappers
  import opened Seq
  import opened Packets
  import opened Circuits
  import opened Flow
  import opened CircuitSystem
  import opened Invariant
  import opened Preservation
  import opened Steps
  import opened Messages
  import opened Delivery
  import opened Drain

  /** Everything known of a reachable state. */
  predicate Sound(s: Sys, modulo: Modulo) {
    && Inv(s, modulo)
    && Streams(s.a) && Streams(s.b)
    && Awake(s.a) && Awake(s.b)
    && (s.a.restarted || s.b.restarted ==> s.a.resets + s.b.resets > 0)
  }

  lemma InitSound(s: Sys, modulo: Modulo)
    requires Init(s, modulo)
    ensures Sound(s, modulo)
  {
    InitInv(s, modulo);
    ConcatSnoc([], []);
    assert s.b.sentIn == [] + [[]];
    assert s.b.gotIn == [] + [[]];
  }

  /** Only an arrival can complete a reset. */
  lemma ResetsGrow(s: Sys, event: Event)
    requires Enabled(s, event)
    ensures var s' := Step(s, event);
            && s'.a.resets >= s.a.resets && s'.b == s.b
            && (s'.a.restarted ==> s.a.restarted || event.Deliver?)
  {
  }

  /** A packet that opens an epoch after the first comes of a reset at one end. */
  lemma OpeningHasReset(s: Sys, modulo: Modulo)
    requires Inv(s, modulo) && s.ba != [] && Opens(ModeOf(s.a.c.state), s.ba[0]) && s.a.sentIn != []
    ensures s.a.resets + s.b.resets > 0
  {
  }

  /** A reset completed at one end was started at one of them. */
  lemma RestartHasReset(s: Sys, event: Event, modulo: Modulo)
    requires Inv(s, modulo) && Enabled(s, event)
    requires s.a.restarted || s.b.restarted ==> s.a.resets + s.b.resets > 0
    ensures var s' := Step(s, event);
            && s'.a.resets >= s.a.resets && s'.b == s.b
            && (s'.a.restarted ==> s'.a.resets + s'.b.resets > 0)
  {
    ResetsGrow(s, event);
    if event.Deliver? && s.a.sentIn != [] && Opens(ModeOf(s.a.c.state), s.ba[0]) {
      OpeningHasReset(s, modulo);
    }
  }

  lemma NothingQueued(p: Party)
    requires Streams(p) && p.c.state.WaitCallAccept?
    ensures p.c.sendQueue == []
  {
    assert Concat(p.sentIn) + p.c.sendQueue == [];
  }

  lemma StepSound(s: Sys, event: Event, modulo: Modulo)
    requires Sound(s, modulo) && Enabled(s, event)
    ensures Sound(Step(s, event), modulo)
  {
    StepKeeps(s, event, modulo);
    StepStreams(s, event, modulo);
    if s.a.c.state.WaitCallAccept? {
      NothingQueued(s.a);
    }
    StepAwake(s, event, modulo);
    RestartHasReset(s, event, modulo);
  }

  lemma SwapSound(s: Sys, modulo: Modulo)
    requires Sound(s, modulo)
    ensures Sound(Swap(s), modulo)
  {
  }

  lemma {:induction false} RunSound(s: Sys, moves: seq<Move>, modulo: Modulo)
    requires Sound(s, modulo) && Run(s, moves)
    ensures Sound(Final(s, moves), modulo)
    decreases |moves|
  {
    if moves != [] {
      var m := moves[0];
      if m.byA {
        StepSound(s, m.event, modulo);
      } else {
        SwapSound(s, modulo);
        StepSound(Swap(s), m.event, modulo);
        SwapSound(Step(Swap(s), m.event), modulo);
      }
      RunSound(Apply(s, m), moves[1..], modulo);
    }
  }

  lemma ReachableSound(s: Sys, moves: seq<Move>, modulo: Modulo)
    requires Init(s, modulo) && Run(s, moves)
    ensures Sound(Final(s, moves), modulo)
  {
    InitSound(s, modulo);
    RunSound(s, moves, modulo);
  }

  /** No arriving packet makes either end send a reset request: data always has the
      expected number and every acknowledgement falls into the window, however
      often the numbers wrap, and across any number of resets by either side. */
  lemma NoSpuriousReset(s: Sys, moves: seq<Move>, link: Link, modulo: Modulo)
    requires Init(s, modulo) && Run(s, moves)
    ensures var t := Final(s, moves);
            && (Enabled(t, Deliver(link)) ==> Step(t, Deliver(link)).a.resets == t.a.resets)
            && (Enabled(Swap(t), Deliver(link)) ==> Step(Swap(t), Deliver(link)).a.resets == t.b.resets)
  {
    InitInv(s, modulo);
    RunKeeps(s, moves, modulo);
    var t := Final(s, moves);
    SwapInv(t, modulo);
    DeliveryHarmless(t, link, modulo);
    DeliveryHarmless(Swap(t), link, modulo);
  }

  lemma DeliveryHarmless(s: Sys, link: Link, modulo: Modulo)
    requires Inv(s, modulo)
    ensures Enabled(s, Deliver(link)) ==> Step(s, Deliver(link)).a.resets == s.a.resets
  {
    if Enabled(s, Deliver(link)) {
      DeliverKeeps(s, link, modulo);
    }
  }

  /** In each epoch, what was accepted is a prefix of what was sent in that very
      epoch, and nothing counts as acknowledged that was not accepted in it: no
      packet or acknowledgement of one epoch is taken for one of another. */
  lemma EpochsAgree(s: Sys, moves: seq<Move>, modulo: Modulo)
    requires Init(s, modulo) && Run(s, moves)
    ensures var t := Final(s, moves);
            && InOrder(t.a.sentIn, t.b.gotIn) && InOrder(t.b.sentIn, t.a.gotIn)
            && AcksSound(t.a, t.b) && AcksSound(t.b, t.a)
            && (Alive(t.a) && Alive(t.b) ==> |t.a.sentIn| - 1 <= |t.b.sentIn| <= |t.a.sentIn| + 1)
  {
    InitInv(s, modulo);
    RunKeeps(s, moves, modulo);
    var t := Final(s, moves);
    AfterBounds(Summary(t.a), t.ba, modulo);
    AfterBounds(Summary(t.b), t.ab, modulo);
  }

  lemma {:induction false} ConcatPrefix(sent: Log, got: Log)
    requires InOrder(sent, got) && |got| <= |sent| + 1
    requires forall e | 0 <= e < |got| - 1 :: e < |sent| && got[e] == sent[e]
    ensures Concat(got) <= Concat(sent)
    decreases |sent|
  {
    if got != [] && |sent| >= |got| {
      var last := |sent| - 1;
      if |sent| > |got| {
        ConcatPrefix(sent[..last], got);
        assert Concat(sent) == Concat(sent[..last]) + sent[last];
      } else {
        assert got[..last] == sent[..last];
        assert got[last] <= sent[last];
      }
    } else if got != [] {
      var last := |got| - 1;
      assert got[..last] == sent[..last] == sent;
      assert got[last] == [];
      assert Concat(got) == Concat(sent) + [];
    }
  }

  /** An end that starts no reset receives a prefix of the non-empty messages the
      other end was given, in order and with their qualifiers, whatever resets,
      clears, timeouts and link failures happen at the other end. */
  lemma DeliveredInOrder(s: Sys, moves: seq<Move>, modulo: Modulo)
    requires Init(s, modulo) && Run(s, moves)
    ensures var t := Final(s, moves);
            && (t.b.resets == 0 ==> t.b.delivered <= NonEmpty(t.a.submitted))
            && (t.a.resets == 0 ==> t.a.delivered <= NonEmpty(t.b.submitted))
  {
    ReachableSound(s, moves, modulo);
    BothWays(Final(s, moves), modulo);
  }

  lemma BothWays(s: Sys, modulo: Modulo)
    requires Sound(s, modulo)
    ensures s.b.resets == 0 ==> s.b.delivered <= NonEmpty(s.a.submitted)
    ensures s.a.resets == 0 ==> s.a.delivered <= NonEmpty(s.b.submitted)
  {
    if s.b.resets == 0 {
      OneWay(s, modulo);
    }
    if s.a.resets == 0 {
      SwapSound(s, modulo);
      OneWay(Swap(s), modulo);
    }
  }

  lemma OneWay(s: Sys, modulo: Modulo)
    requires Sound(s, modulo) && s.b.resets == 0
    ensures Concat(s.b.gotIn) <= Concat(s.a.sentIn)
    ensures s.b.delivered <= NonEmpty(s.a.submitted)
  {
    ConcatPrefix(s.a.sentIn, s.b.gotIn);
    var size := s.a.c.params.sendPacketSize;
    var all := Cut(s.a.submitted, size);
    assert s.b.consumed <= Concat(s.b.gotIn) <= Concat(s.a.sentIn) <= all;
    CompletePrefix(s.b.consumed, all);
    if size > 0 {
      CompleteCut(s.a.submitted, size);
    }
  }

  /** All that `p` sends arrives at `q` in order, none of it lost between one reset
      and the next or on the way into the queue. */
  predicate NothingLost(p: Party, q: Party) {
    && Concat(q.gotIn) <= Concat(p.sentIn)
    && Concat(p.sentIn) + p.c.sendQueue == Cut(p.submitted, p.c.params.sendPacketSize)
  }

  lemma SoundLosesNothing(s: Sys, modulo: Modulo)
    requires Sound(s, modulo) && s.b.resets == 0
    ensures NothingLost(s.a, s.b)
  {
    OneWay(s, modulo);
  }

  lemma BothLoseNothing(s: Sys, modulo: Modulo)
    requires Sound(s, modulo)
    ensures s.b.resets == 0 ==> NothingLost(s.a, s.b) && InOrder(s.b.sentIn, s.a.gotIn)
    ensures s.a.resets == 0 ==> NothingLost(s.b, s.a) && InOrder(s.a.sentIn, s.b.gotIn)
  {
    if s.b.resets == 0 {
      SoundLosesNothing(s, modulo);
    }
    if s.a.resets == 0 {
      SwapSound(s, modulo);
      SoundLosesNothing(Swap(s), modulo);
    }
  }

  /** Across any number of resets started by one end, whichever it is: all that this
      end sends arrives; of what the other end sends, each epoch's packets arrive in
      order up to the reset that ends it. */
  lemma ResetsLoseNothing(s: Sys, moves: seq<Move>, modulo: Modulo)
    requires Init(s, modulo) && Run(s, moves)
    ensures var t := Final(s, moves);
            && (t.b.resets == 0 ==> NothingLost(t.a, t.b) && InOrder(t.b.sentIn, t.a.gotIn))
            && (t.a.resets == 0 ==> NothingLost(t.b, t.a) && InOrder(t.a.sentIn, t.b.gotIn))
  {
    ReachableSound(s, moves, modulo);
    BothLoseNothing(Final(s, moves), modulo);
  }

  /** An end that is back in data transfer is owed no confirm, unless the other end
      starts resets too. */
  predicate Unowed(p: Party, q: Party) {
    q.resets == 0 && (p.c.state.DataTransfer? || p.c.state.WaitCallAccept?) ==> p.owed == 0
  }

  lemma ArrivalUnowed(s: Sys, link: Link, modulo: Modulo)
    requires Inv(s, modulo) && Enabled(s, Deliver(link)) && Unowed(s.a, s.b)
    ensures Unowed(Step(s, Deliver(link)).a, s.b)
  {
    DeliveryHarmless(s, link, modulo);
    if s.ba[0].ResetRequest? {
      assert Requests(s.ba) > 0;
    }
  }

  lemma StepUnowed(s: Sys, event: Event, modulo: Modulo)
    requires Inv(s, modulo) && Enabled(s, event) && Unowed(s.a, s.b) && Unowed(s.b, s.a)
    ensures var s' := Step(s, event); Unowed(s'.a, s'.b) && Unowed(s'.b, s'.a)
  {
    ResetsGrow(s, event);
    match event
    case Deliver(link) => ArrivalUnowed(s, link, modulo);
    case Pump(link) => SendQueuedFrame(s.a.c, link);
    case _ =>
  }

  lemma {:induction false} RunUnowed(s: Sys, moves: seq<Move>, modulo: Modulo)
    requires Inv(s, modulo) && Unowed(s.a, s.b) && Unowed(s.b, s.a) && Run(s, moves)
    ensures var t := Final(s, moves); Unowed(t.a, t.b) && Unowed(t.b, t.a)
    decreases |moves|
  {
    if moves != [] {
      var m := moves[0];
      MoveKeeps(s, m, modulo);
      if m.byA {
        StepUnowed(s, m.event, modulo);
      } else {
        SwapInv(s, modulo);
        StepUnowed(Swap(s), m.event, modulo);
      }
      RunUnowed(Apply(s, m), moves[1..], modulo);
    }
  }

  /** When only one end starts resets, it may start one whenever the source lets it:
      the rule on outstanding confirms takes nothing away. */
  lemma SoleInitiator(s: Sys, moves: seq<Move>, cause: Byte, diagnostic: Byte, link: Link, modulo: Modulo)
    requires Init(s, modulo) && Run(s, moves)
    ensures var (t, reset) := (Final(s, moves), StartReset(cause, diagnostic, link));
            && (t.b.resets == 0 && Possible(t, reset) ==> Enabled(t, reset))
            && (t.a.resets == 0 && Possible(Swap(t), reset) ==> Enabled(Swap(t), reset))
  {
    InitInv(s, modulo);
    RunUnowed(s, moves, modulo);
  }

  /** Data waits in the queue of `p` only while the window is closed or a call of
      `send` has still to pump it, and the newest acknowledgement on its way to `q`,
      or taken there, is for all that `p` has accepted. */
  predicate Prompt(p: Party, q: Party, pq: seq<Packet>, modulo: Modulo) {
    p.c.state.DataTransfer? ==>
      && (p.c.sendQueue != [] ==> !p.c.state.transfer.IsOpen() || p.pending > 0)
      && (var f := After(Summary(q), pq, modulo);
          q.c.state.DataTransfer? && f.mode == Transferring ==> f.acked == p.c.state.transfer.received)
  }

  lemma SoundIsPrompt(s: Sys, modulo: Modulo)
    requires Sound(s, modulo) && s.a.resets + s.b.resets == 0
    ensures Prompt(s.a, s.b, s.ab, modulo)
  {
  }

  lemma NoLostWakeup(s: Sys, moves: seq<Move>, modulo: Modulo)
    requires Init(s, modulo) && Run(s, moves)
    ensures var t := Final(s, moves);
            t.a.resets + t.b.resets == 0 ==> Prompt(t.a, t.b, t.ab, modulo) && Prompt(t.b, t.a, t.ba, modulo)
  {
    ReachableSound(s, moves, modulo);
    var t := Final(s, moves);
    SwapSound(t, modulo);
    if t.a.resets + t.b.resets == 0 {
      SoundIsPrompt(t, modulo);
      SoundIsPrompt(Swap(t), modulo);
    }
  }

  /** Nobody is waiting for anything: nothing is on its way, no pump is to come, and
      `recv` would find nothing. */
  predicate Quiescent(s: Sys) {
    && Alive(s.a) && Alive(s.b)
    && s.ab == [] && s.ba == [] && s.a.pending == 0 && s.b.pending == 0
    && PopComplete(s.a.c.recvQueue).None? && PopComplete(s.b.c.recvQueue).None?
  }

  /** When a run without resets comes to rest, every non-empty message has been
      received, both queues are empty and both windows are fully open. */
  lemma CompleteDelivery(s: Sys, moves: seq<Move>, modulo: Modulo)
    requires Init(s, modulo) && Run(s, moves)
    ensures var t := Final(s, moves);
            Quiescent(t) && t.a.resets == 0 && t.b.resets == 0 ==>
              && t.b.delivered == NonEmpty(t.a.submitted) && t.a.delivered == NonEmpty(t.b.submitted)
              && t.a.c.sendQueue == [] && t.b.c.sendQueue == []
              && t.a.c.state.DataTransfer? && t.b.c.state.DataTransfer?
              && t.a.c.state.transfer.acked == t.a.c.state.transfer.sent
              && t.b.c.state.transfer.acked == t.b.c.state.transfer.sent
  {
    ReachableSound(s, moves, modulo);
    var t := Final(s, moves);
    if Quiescent(t) && t.a.resets == 0 && t.b.resets == 0 {
      Rest(t, modulo);
      SwapSound(t, modulo);
      Rest(Swap(t), modulo);
    }
  }

  lemma ConcatEqual(sent: Log, got: Log)
    requires |sent| == |got| > 0 && Current(sent) == Current(got)
    requires forall e | 0 <= e < |got| - 1 :: got[e] == sent[e]
    ensures Concat(got) == Concat(sent)
  {
    assert got == sent;
  }

  lemma Rest(s: Sys, modulo: Modulo)
    requires Sound(s, modulo) && Quiescent(s) && s.a.resets == 0 && s.b.resets == 0
    ensures s.b.delivered == NonEmpty(s.a.submitted) && s.a.c.sendQueue == []
    ensures s.a.c.state.DataTransfer? && s.a.c.state.transfer.acked == s.a.c.state.transfer.sent
  {
    Drained(s, modulo);
    RestStreams(s, modulo);
  }

  lemma RestStreams(s: Sys, modulo: Modulo)
    requires Sound(s, modulo) && Quiescent(s) && s.b.resets == 0
    requires |s.a.sentIn| == |s.b.sentIn| && Current(s.b.gotIn) == Current(s.a.sentIn)
    requires s.a.c.state.DataTransfer? && s.a.c.sendQueue == []
    ensures s.b.delivered == NonEmpty(s.a.submitted)
  {
    ConcatEqual(s.a.sentIn, s.b.gotIn);
    var all := Cut(s.a.submitted, s.a.c.params.sendPacketSize);
    CompleteCut(s.a.submitted, s.a.c.params.sendPacketSize);
    var left := ToFragments(s.b.c.recvQueue);
    assert s.b.consumed + left == Concat(s.a.sentIn) == Concat(s.a.sentIn) + [] == all;
    NothingOpen(s.b.consumed, left);
    assert s.b.consumed + [] == s.b.consumed;
  }

  // Progress

  /** A link that carries all that one step can send. */
  ghost predicate Working(link: Link, c: Circuit) {
    link.room > |c.sendQueue| + 1 && forall p :: link.fits(p)
  }

  ghost predicate WorkingMove(s: Sys, m: Move) {
    var c := if m.byA then s.a.c else s.b.c;
    && IsWork(m.event)
    && (m.event.Deliver? ==> Working(m.event.link, c))
    && (m.event.Pump? ==> Working(m.event.link, c))
  }

  lemma {:induction false} SendQueuedWorks(c: Circuit, link: Link)
    requires c.state.DataTransfer? && Working(link, c)
    ensures SendQueued(c, link).c.state.DataTransfer?
    ensures var e := SendQueued(c, link); e.link.fits == link.fits && e.link.room >= link.room - |c.sendQueue|
    decreases |c.sendQueue|
  {
    if c.sendQueue != [] && c.state.transfer.IsOpen() {
      var first := SendOne(c, link);
      SendQueuedWorks(first.c, first.link);
    }
  }

  lemma DataKeepsAlive(s: Sys, link: Link, modulo: Modulo)
    requires Inv(s, modulo) && Enabled(s, Deliver(link)) && s.a.c.state.DataTransfer? && Working(link, s.a.c)
    requires s.ba[0].DataPacket? || s.ba[0].ReceiveReady?
    ensures Alive(Step(s, Deliver(link)).a)
  {
    var p := s.ba[0];
    ChecksPass(s, modulo);
    if p.DataPacket? {
      SendQueuedWorks(Accept(s.a.c, p.data), link);
    } else {
      SendQueuedWorks(s.a.c.(state := DataTransfer(AckedTo(s.a.c.state.transfer, p.recvSeq))), link);
    }
  }

  /** Between two live ends no clear request is under way, so a working link keeps
      them alive. */
  lemma WorkKeepsAlive(s: Sys, event: Event, modulo: Modulo)
    requires Inv(s, modulo) && Alive(s.a) && Alive(s.b) && Enabled(s, event)
    requires WorkingMove(s, Move(true, event))
    ensures Alive(Step(s, event).a) && Step(s, event).b == s.b
  {
    match event
    case Receive =>
    case Pump(link) => SendQueuedWorks(s.a.c, link);
    case Deliver(link) =>
      if s.ba[0].ClearRequestPacket? {
        GoneStays(Next(Summary(s.a), s.ba[0], modulo), s.ba[1..], modulo);
      } else if s.a.c.state.DataTransfer? && (s.ba[0].DataPacket? || s.ba[0].ReceiveReady?) {
        DataKeepsAlive(s, link, modulo);
      }
  }

  /** Two live ends that are not at rest have a step to take. */
  lemma NeverStuck(s: Sys, modulo: Modulo)
    requires Inv(s, modulo) && Alive(s.a) && Alive(s.b) && !Quiescent(s)
    ensures exists m :: WorkingMove(s, m) && Allowed(s, m)
  {
    var link := Link(|s.a.c.sendQueue| + |s.b.c.sendQueue| + 2, p => true);
    if s.ba != [] {
      assert WorkingMove(s, Move(true, Deliver(link))) && Allowed(s, Move(true, Deliver(link)));
    } else if s.ab != [] {
      assert WorkingMove(s, Move(false, Deliver(link))) && Allowed(s, Move(false, Deliver(link)));
    } else {
      Drained(s, modulo);
      if s.a.pending > 0 {
        assert WorkingMove(s, Move(true, Pump(link))) && Allowed(s, Move(true, Pump(link)));
      } else if s.b.pending > 0 {
        assert WorkingMove(s, Move(false, Pump(link))) && Allowed(s, Move(false, Pump(link)));
      } else {
        var byA := PopComplete(s.a.c.recvQueue).Some?;
        assert WorkingMove(s, Move(byA, Receive)) && Allowed(s, Move(byA, Receive));
      }
    }
  }

  lemma WorkOnce(s: Sys, modulo: Modulo) returns (m: Move)
    requires Inv(s, modulo) && Alive(s.a) && Alive(s.b) && !Quiescent(s)
    ensures IsWork(m.event) && Allowed(s, m)
    ensures var t := Apply(s, m); Inv(t, modulo) && Alive(t.a) && Alive(t.b) && Measure(t) < Measure(s)
  {
    NeverStuck(s, modulo);
    m :| WorkingMove(s, m) && Allowed(s, m);
    MoveKeeps(s, m, modulo);
    if m.byA {
      WorkKeepsAlive(s, m.event, modulo);
      WorkDecreases(s, m.event);
    } else {
      SwapInv(s, modulo);
      WorkKeepsAlive(Swap(s), m.event, modulo);
      WorkDecreases(Swap(s), m.event);
    }
  }

  /** From every state in which both ends are alive, working steps can be taken until
      the system is at rest; however they are chosen, there are at most `Measure`
      of them (`WorkEnds`). */
  lemma {:induction false} ComesToRest(s: Sys, modulo: Modulo) returns (moves: seq<Move>)
    requires Inv(s, modulo) && Alive(s.a) && Alive(s.b)
    ensures Run(s, moves) && forall m | m in moves :: IsWork(m.event)
    ensures Quiescent(Final(s, moves)) && |moves| <= Measure(s)
    decreases Measure(s)
  {
    if Quiescent(s) {
      moves := [];
    } else {
      var m := WorkOnce(s, modulo);
      var rest := ComesToRest(Apply(s, m), modulo);
      moves := [m] + rest;
      assert moves[1..] == rest;
    }
  }
}
