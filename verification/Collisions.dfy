/** Resets that cross: one from each end resolves, and why a further one must wait
    for the confirm of the one before it. */
module Collisions {
  import opened Wrappers
  import opened Seq
  import opened Packets
  import opened Circuits
  import opened Flow
  import opened CircuitSystem
  import opened Invariant
  import opened Preservation
  import opened Steps
  import opened Drain
  import opened Theorems
  import opened Resync

  predicate FreeRun(s: Sys, moves: seq<Move>)
    decreases |moves|
  {
    moves == [] ||
    (&& Possible(if moves[0].byA then s else Swap(s), moves[0].event)
     && FreeRun(ApplyFree(s, moves[0]), moves[1..]))
  }

  function ApplyFree(s: Sys, m: Move): Sys
    requires Possible(if m.byA then s else Swap(s), m.event)
  {
    if m.byA then Step(s, m.event) else Swap(Step(Swap(s), m.event))
  }

  function FreeFinal(s: Sys, moves: seq<Move>): Sys
    requires FreeRun(s, moves)
    decreases |moves|
  {
    if moves == [] then s else FreeFinal(ApplyFree(s, moves[0]), moves[1..])
  }

  function LINK(): Link {
    Link(10, p => true)
  }

  /** One move, with both states named. */
  predicate Leads(s: Sys, m: Move, t: Sys) {
    Possible(if m.byA then s else Swap(s), m.event) && t == ApplyFree(s, m)
  }

  lemma Prepend(s: Sys, m: Move, t: Sys, moves: seq<Move>)
    requires Leads(s, m, t) && FreeRun(t, moves)
    ensures FreeRun(s, [m] + moves) && FreeFinal(s, [m] + moves) == FreeFinal(t, moves)
  {
    assert ([m] + moves)[1..] == moves;
  }

  lemma PrependTwo(s: Sys, m: Move, s1: Sys, n: Move, t: Sys, moves: seq<Move>)
    requires Leads(s, m, s1) && Leads(s1, n, t) && FreeRun(t, moves)
    ensures FreeRun(s, [m, n] + moves) && FreeFinal(s, [m, n] + moves) == FreeFinal(t, moves)
  {
    Prepend(s1, n, t, moves);
    Prepend(s, m, s1, [n] + moves);
    assert [m] + ([n] + moves) == [m, n] + moves;
  }

  function Request(c: Circuit): Packet {
    ResetRequest(c.params.modulo, c.channel, 0, 0)
  }

  function Confirm(c: Circuit): Packet {
    ResetConfirm(c.params.modulo, c.channel)
  }

  lemma ResetStep(s: Sys)
    requires s.a.c.state.DataTransfer?
    ensures Step(s, StartReset(0, 0, LINK()))
         == s.(a := s.a.(c := s.a.c.(state := WaitResetConfirm), owed := s.a.owed + 1, resets := s.a.resets + 1),
               ab := s.ab + [Request(s.a.c)])
  {
    OneSent(s.a, s.a.c.(state := WaitResetConfirm), Request(s.a.c), LINK().(room := 9));
  }

  lemma RequestStep(s: Sys)
    requires s.a.c.state.IsConnected() && s.a.c.params.WindowValid() && s.ba != [] && s.ba[0].ResetRequest?
    ensures Possible(s, Deliver(LINK()))
    ensures Step(s, Deliver(LINK())) == Reopened(s, s.a.c.params, s.a.owed, [Confirm(s.a.c)])
  {
  }

  lemma ConfirmStep(s: Sys)
    requires s.a.c.state.WaitResetConfirm? && s.a.c.params.WindowValid() && s.a.owed > 0
    requires s.ba != [] && s.ba[0].ResetConfirm?
    ensures Possible(s, Deliver(LINK()))
    ensures Step(s, Deliver(LINK())) == Reopened(s, s.a.c.params, s.a.owed - 1, [])
  {
  }

  lemma StrayStep(s: Sys)
    requires s.a.c.state.DataTransfer? && s.a.c.params.WindowValid() && s.a.owed > 0
    requires s.ba != [] && s.ba[0].ResetConfirm?
    ensures Possible(s, Deliver(LINK()))
    ensures Step(s, Deliver(LINK())) == s.(a := s.a.(owed := s.a.owed - 1), ba := s.ba[1..])
  {
    assert s.ab + [] == s.ab;
  }

  const RESET_A := Move(true, StartReset(0, 0, LINK()))
  const RESET_B := Move(false, StartReset(0, 0, LINK()))
  const TO_A := Move(true, Deliver(LINK()))
  const TO_B := Move(false, Deliver(LINK()))
  const SUBMIT_B := Move(false, SubmitMessage(Message([65], false)))
  const PUMP_B := Move(false, Pump(LINK()))

  predicate EndAtRest(p: Party, modulo: Modulo) {
    && p.c.state.DataTransfer? && p.c.sendQueue == [] && p.owed == 0
    && p.c.params.WindowValid() && p.c.params.modulo == modulo && p.c.params.sendPacketSize > 0
    && |p.sentIn| == |p.gotIn|
  }

  /** Data transfer with nothing queued and nothing on its way. */
  predicate AtRest(s: Sys, modulo: Modulo) {
    && EndAtRest(s.a, modulo) && EndAtRest(s.b, modulo)
    && s.ab == [] && s.ba == [] && |s.a.sentIn| == |s.b.sentIn|
  }

  /** Both ends reset at once. */
  lemma BothReset(s: Sys, modulo: Modulo) returns (s1: Sys, s2: Sys)
    requires AtRest(s, modulo)
    ensures Leads(s, RESET_A, s1) && Leads(s1, RESET_B, s2)
    ensures s2 == Sys(s.a.(c := s.a.c.(state := WaitResetConfirm), owed := 1, resets := s.a.resets + 1),
                      s.b.(c := s.b.c.(state := WaitResetConfirm), owed := 1, resets := s.b.resets + 1),
                      [Request(s.a.c)], [Request(s.b.c)])
  {
    ResetStep(s);
    s1 := ApplyFree(s, RESET_A);
    ResetStep(Swap(s1));
    s2 := ApplyFree(s1, RESET_B);
  }

  /** Each end answers the other's request, and ignores the stray confirm. */
  lemma BothConfirm(s: Sys, modulo: Modulo) returns (s1: Sys, s2: Sys, s3: Sys, t: Sys)
    requires s.a.c.state.WaitResetConfirm? && s.a.c.params.WindowValid() && s.a.owed == 1
    requires s.b.c.state.WaitResetConfirm? && s.b.c.params.WindowValid() && s.b.owed == 1
    requires |s.ab| == |s.ba| == 1 && s.ab[0].ResetRequest? && s.ba[0].ResetRequest?
    ensures Leads(s, TO_A, s1) && Leads(s1, TO_B, s2) && Leads(s2, TO_A, s3) && Leads(s3, TO_B, t)
    ensures t.ab == t.ba == []
    ensures t.a == s.a.(c := EnterDataTransfer(s.a.c), sentIn := s.a.sentIn + [[]], gotIn := s.a.gotIn + [[]],
                        owed := 0, restarted := s.a.sentIn != [])
    ensures t.b == s.b.(c := EnterDataTransfer(s.b.c), sentIn := s.b.sentIn + [[]], gotIn := s.b.gotIn + [[]],
                        owed := 0, restarted := s.b.sentIn != [])
  {
    RequestStep(s);
    s1 := ApplyFree(s, TO_A);
    RequestStep(Swap(s1));
    s2 := ApplyFree(s1, TO_B);
    StrayStep(s2);
    s3 := ApplyFree(s2, TO_A);
    StrayStep(Swap(s3));
    t := ApplyFree(s3, TO_B);
  }

  /** A reset collision: both ends come back to data transfer with fresh windows, in
      one new epoch, with nothing under way and no reset more than the two. */
  lemma CollisionResolves(s: Sys, modulo: Modulo) returns (t: Sys)
    requires AtRest(s, modulo)
    ensures var moves := [RESET_A, RESET_B, TO_A, TO_B, TO_A, TO_B];
            FreeRun(s, moves) && t == FreeFinal(s, moves)
    ensures AtRest(t, modulo)
    ensures t.a.c == EnterDataTransfer(s.a.c) && t.b.c == EnterDataTransfer(s.b.c)
    ensures |t.a.sentIn| == |s.a.sentIn| + 1 && t.a.resets == s.a.resets + 1 && t.b.resets == s.b.resets + 1
  {
    var s1, s2 := BothReset(s, modulo);
    var s3, s4, s5;
    s3, s4, s5, t := BothConfirm(s2, modulo);
    Prepend(s5, TO_B, t, []);
    Prepend(s4, TO_A, s5, [TO_B]);
    Prepend(s3, TO_B, s4, [TO_A, TO_B]);
    Prepend(s2, TO_A, s3, [TO_B, TO_A, TO_B]);
    Prepend(s1, RESET_B, s2, [TO_A, TO_B, TO_A, TO_B]);
    Prepend(s, RESET_A, s1, [RESET_B, TO_A, TO_B, TO_A, TO_B]);
  }

  /** End `a` answers the other's request and, still owed the confirm of its own,
      resets again. */
  lemma ResetAgain(s: Sys) returns (s1: Sys, t: Sys)
    requires s.a.c.state.WaitResetConfirm? && s.a.c.params.WindowValid() && |s.ba| == 1 && s.ba[0].ResetRequest?
    ensures Leads(s, TO_A, s1) && Leads(s1, RESET_A, t)
    ensures t.a == s.a.(sentIn := s.a.sentIn + [[]], gotIn := s.a.gotIn + [[]],
                        owed := s.a.owed + 1, resets := s.a.resets + 1, restarted := s.a.sentIn != [])
    ensures t.b == s.b && t.ab == s.ab + [Confirm(s.a.c)] + [Request(s.a.c)] && t.ba == []
  {
    RequestStep(s);
    s1 := ApplyFree(s, TO_A);
    ResetStep(s1);
    t := ApplyFree(s1, RESET_A);
  }

  lemma Collide(s: Sys, modulo: Modulo) returns (s1: Sys, s2: Sys, s3: Sys, t: Sys)
    requires AtRest(s, modulo)
    ensures Leads(s, RESET_A, s1) && Leads(s1, RESET_B, s2) && Leads(s2, TO_A, s3) && Leads(s3, RESET_A, t)
    ensures t.a == s.a.(c := s.a.c.(state := WaitResetConfirm), sentIn := s.a.sentIn + [[]], gotIn := s.a.gotIn + [[]],
                        owed := 2, resets := s.a.resets + 2, restarted := s.a.sentIn != [])
    ensures t.b == s.b.(c := s.b.c.(state := WaitResetConfirm), owed := 1, resets := s.b.resets + 1)
    ensures t.ab == [Request(s.a.c), Confirm(s.a.c), Request(s.a.c)] && t.ba == []
  {
    s1, s2 := BothReset(s, modulo);
    s3, t := ResetAgain(s2);
  }

  /** The other end comes back, ignores the stray confirm, and sends one packet. */
  lemma SendStale(s: Sys, modulo: Modulo) returns (s1: Sys, s2: Sys, s3: Sys, t: Sys, d: Data)
    requires s.b.c.state.WaitResetConfirm? && s.b.c.sendQueue == [] && s.b.owed == 1
    requires s.b.c.params.WindowValid() && s.b.c.params.modulo == modulo && s.b.c.params.sendPacketSize > 0
    requires |s.ab| == 3 && s.ab[0].ResetRequest? && s.ab[1].ResetConfirm? && s.ba == []
    ensures Leads(s, TO_B, s1) && Leads(s1, TO_B, s2) && Leads(s2, SUBMIT_B, s3) && Leads(s3, PUMP_B, t)
    ensures t.a == s.a && t.ab == s.ab[2..] && t.ba == [Confirm(s.b.c), DataPacket(d)]
    ensures d.sendSeq == 0 && d.recvSeq == 0
    ensures t.b.c.state == DataTransfer(FreshTransfer(s.b.c.params).(sent := 1))
    ensures |t.b.sentIn| == |s.b.sentIn| + 1 && t.b.c.params == s.b.c.params
  {
    RequestStep(Swap(s));
    s1 := ApplyFree(s, TO_B);
    StrayStep(Swap(s1));
    s2 := ApplyFree(s1, TO_B);
    s3 := ApplyFree(s2, SUBMIT_B);
    assert Swap(s3).a.c.sendQueue == [SendData([65], false, false)];
    d := PumpOne(Swap(s3));
    t := ApplyFree(s3, PUMP_B);
  }

  /** Pumping the one packet queued. */
  lemma PumpOne(s: Sys) returns (d: Data)
    requires s.a.c.state.DataTransfer? && |s.a.c.sendQueue| == 1 && s.a.pending > 0
    requires s.a.c.state.transfer == FreshTransfer(s.a.c.params) && s.a.c.params.WindowValid()
    ensures d.sendSeq == 0 && d.recvSeq == 0
    ensures var t := Step(s, Pump(LINK()));
            && t.b == s.b && t.ab == s.ab + [DataPacket(d)] && t.ba == s.ba
            && t.a.c == s.a.c.(sendQueue := [], state := DataTransfer(s.a.c.state.transfer.(sent := 1)))
            && |t.a.sentIn| == |s.a.sentIn|
  {
    var e := SendOne(s.a.c, LINK());
    d := DataOf(s.a.c, s.a.c.sendQueue[0]).data;
    assert e.out == [DataPacket(d)] && e.c.sendQueue == [];
    assert SendQueued(e.c, e.link) == Effect(e.c, [], e.link);
    assert SendQueued(s.a.c, LINK()) == e;
    ExtendFacts(s.a.sentIn, DataIn(e.out));
  }

  /** The first packet of an epoch is accepted and acknowledged. */
  lemma FirstDataStep(s: Sys, d: Data)
    requires s.a.c.state == DataTransfer(FreshTransfer(s.a.c.params)) && s.a.c.sendQueue == []
    requires s.a.c.params.WindowValid()
    requires s.ba == [DataPacket(d)] && d.sendSeq == 0 && d.recvSeq == 0
    ensures Possible(s, Deliver(LINK()))
    ensures var t := Step(s, Deliver(LINK()));
            && t.b == s.b && t.ba == []
            && t.ab == s.ab + [ReceiveReady(s.a.c.params.modulo, s.a.c.channel, 1)]
            && t.a.gotIn == Extend(s.a.gotIn, [Fragment(d)])
  {
    var c := Accept(s.a.c, d);
    assert Respond(c, LINK()).out == [ReceiveReady(s.a.c.params.modulo, s.a.c.channel, 1)] by {
      assert SendQueued(c, LINK()) == Effect(c, [], LINK());
    }
    DataStep(s, LINK());
    OneSent(Taken(s, c.recvQueue).a, Respond(c, LINK()).c, Respond(c, LINK()).out[0], Respond(c, LINK()).link);
  }

  /** The stray confirm ends the second reset too early, and the packet of the epoch
      before is accepted in the epoch after. */
  lemma AcceptStale(s: Sys, d: Data, modulo: Modulo) returns (s1: Sys, t: Sys)
    requires s.a.c.state.WaitResetConfirm? && s.a.c.sendQueue == [] && s.a.owed == 2
    requires s.a.c.params.WindowValid() && s.a.c.params.modulo == modulo
    requires |s.ba| == 2 && s.ba[0].ResetConfirm? && s.ba[1] == DataPacket(d) && d.sendSeq == 0 && d.recvSeq == 0
    ensures Leads(s, TO_A, s1) && Leads(s1, TO_A, t)
    ensures t.b == s.b && t.ab == s.ab + [ReceiveReady(modulo, s.a.c.channel, 1)] && t.ba == []
    ensures t.a.gotIn == s.a.gotIn + [[Fragment(d)]]
  {
    ConfirmStep(s);
    s1 := ApplyFree(s, TO_A);
    assert s1.ab == s.ab;
    FirstDataStep(s1, d);
    t := ApplyFree(s1, TO_A);
    assert s1.a.gotIn == s.a.gotIn + [[]];
    assert [] + [Fragment(d)] == [Fragment(d)];
  }

  /** An acknowledgement of something never sent provokes a reset. */
  lemma BadAckStep(s: Sys)
    requires s.a.c.state == DataTransfer(FreshTransfer(s.a.c.params)) && s.a.c.params.WindowValid()
    requires s.ba != [] && s.ba[0].ReceiveReady? && s.ba[0].recvSeq == 1
    ensures Possible(s, Deliver(LINK()))
    ensures Step(s, Deliver(LINK())).a.resets == s.a.resets + 1
  {
    var reset := ResetRequest(s.a.c.params.modulo, s.a.c.channel, 5, 2);
    var e := HandlePacket(s.a.c, Some(s.ba[0]), false, LINK());
    assert e.out == [reset];
    OneSent(s.a, e.c, reset, e.link);
    assert Requests(e.out) == 1;
  }

  /** The acknowledgement of the stale packet provokes a reset nobody asked for. */
  lemma SpuriousReset(s: Sys, modulo: Modulo) returns (t: Sys)
    requires s.b.c.state.DataTransfer? && s.b.c.params.WindowValid() && s.b.c.params.modulo == modulo
    requires |s.ab| == 2 && s.ab[0].ResetRequest? && s.ab[1].ReceiveReady? && s.ab[1].recvSeq == 1
    ensures Leads(s, TO_B, t)
    ensures t.a == s.a && t.b.sentIn == s.b.sentIn + [[]]
    ensures Possible(Swap(t), Deliver(LINK())) && Step(Swap(t), Deliver(LINK())).a.resets == t.b.resets + 1
  {
    RequestStep(Swap(s));
    t := ApplyFree(s, TO_B);
    BadAckStep(Swap(t));
  }

  lemma Breaks(s: Sys, modulo: Modulo) returns (t: Sys, moves: seq<Move>)
    requires s.b.c.state.WaitResetConfirm? && s.b.c.sendQueue == [] && s.b.owed == 1
    requires s.b.c.params.WindowValid() && s.b.c.params.modulo == modulo && s.b.c.params.sendPacketSize > 0
    requires |s.ab| == 3 && s.ab[0].ResetRequest? && s.ab[1].ResetConfirm? && s.ab[2].ResetRequest? && s.ba == []
    requires s.a.c.state.WaitResetConfirm? && s.a.c.sendQueue == [] && s.a.owed == 2
    requires s.a.c.params.WindowValid() && s.a.c.params.modulo == modulo
    requires |s.a.gotIn| == |s.b.sentIn| + 1
    ensures FreeRun(s, moves) && t == FreeFinal(s, moves)
    ensures !InOrder(t.b.sentIn, t.a.gotIn)
    ensures Possible(Swap(t), Deliver(LINK())) && Step(Swap(t), Deliver(LINK())).a.resets == t.b.resets + 1
  {
    var s1, s2, s3, s4, d := SendStale(s, modulo);
    var s5, s6 := AcceptStale(s4, d, modulo);
    t := SpuriousReset(s6, modulo);
    var n := |t.a.gotIn| - 1;
    assert t.a.gotIn[n] == [Fragment(d)] && t.b.sentIn[n] == [];
    moves := BreakingRun(s, s1, s2, s3, s4, s5, s6, t);
  }

  lemma BreakingRun(s: Sys, s1: Sys, s2: Sys, s3: Sys, s4: Sys, s5: Sys, s6: Sys, t: Sys) returns (moves: seq<Move>)
    requires Leads(s, TO_B, s1) && Leads(s1, TO_B, s2) && Leads(s2, SUBMIT_B, s3) && Leads(s3, PUMP_B, s4)
    requires Leads(s4, TO_A, s5) && Leads(s5, TO_A, s6) && Leads(s6, TO_B, t)
    ensures FreeRun(s, moves) && FreeFinal(s, moves) == t
  {
    Prepend(s6, TO_B, t, []);
    PrependTwo(s4, TO_A, s5, TO_A, s6, [TO_B]);
    PrependTwo(s2, SUBMIT_B, s3, PUMP_B, s4, [TO_A, TO_A] + [TO_B]);
    moves := [TO_B, TO_B] + ([SUBMIT_B, PUMP_B] + ([TO_A, TO_A] + [TO_B]));
    PrependTwo(s, TO_B, s1, TO_B, s2, [SUBMIT_B, PUMP_B] + ([TO_A, TO_A] + [TO_B]));
  }

  /** From every state at rest, one reset started while the confirm of an earlier one
      is outstanding can make an end accept a packet in an epoch in which it was not
      sent, and then make the other end reset the circuit unasked. */
  lemma PrematureReset(s: Sys, modulo: Modulo) returns (t: Sys, moves: seq<Move>)
    requires AtRest(s, modulo)
    ensures FreeRun(s, moves) && t == FreeFinal(s, moves)
    ensures !InOrder(t.b.sentIn, t.a.gotIn)
    ensures Possible(Swap(t), Deliver(LINK())) && Step(Swap(t), Deliver(LINK())).a.resets == t.b.resets + 1
  {
    var s1, s2, s3, s4 := Collide(s, modulo);
    var rest;
    t, rest := Breaks(s4, modulo);
    PrependTwo(s2, TO_A, s3, RESET_A, s4, rest);
    PrependTwo(s, RESET_A, s1, RESET_B, s2, [TO_A, RESET_A] + rest);
    moves := [RESET_A, RESET_B] + ([TO_A, RESET_A] + rest);
  }

  // From every live state

  lemma {:induction false} RunConcat(s: Sys, x: seq<Move>, y: seq<Move>, z: seq<Move>)
    requires z == x + y && Run(s, x) && Run(Final(s, x), y)
    ensures Run(s, z) && Final(s, z) == Final(Final(s, x), y)
    decreases |x|
  {
    if x == [] {
      assert z == y;
    } else {
      assert z[0] == x[0] && z[1..] == x[1..] + y;
      RunConcat(Apply(s, x[0]), x[1..], y, z[1..]);
    }
  }

  /** A run from one state to another. */
  predicate Reaches(s: Sys, moves: seq<Move>, t: Sys) {
    Run(s, moves) && Final(s, moves) == t
  }

  lemma ReachesThrice(s: Sys, x: seq<Move>, s1: Sys, y: seq<Move>, s2: Sys, z: seq<Move>, t: Sys)
    requires Reaches(s, x, s1) && Reaches(s1, y, s2) && Reaches(s2, z, t)
    ensures Reaches(s, x + (y + z), t)
  {
    RunConcat(s1, y, z, y + z);
    RunConcat(s, x, y + z, x + (y + z));
  }

  const SUBMIT_A := Move(true, SubmitMessage(Message([65], false)))

  lemma ReachesOne(s: Sys, m: Move)
    requires Allowed(s, m)
    ensures Reaches(s, [m], Apply(s, m))
  {
    assert [m][1..] == [];
    assert Run(Apply(s, m), []) && Final(Apply(s, m), []) == Apply(s, m);
  }

  lemma ReachesTwo(s: Sys, m: Move, n: Move)
    requires Allowed(s, m) && Allowed(Apply(s, m), n)
    ensures Reaches(s, [m] + [n], Apply(Apply(s, m), n))
  {
    ReachesOne(s, m);
    ReachesOne(Apply(s, m), n);
    RunConcat(s, [m], [n], [m] + [n]);
  }

  lemma SubmitKeepsSound(s: Sys, m: Move, modulo: Modulo)
    requires Sound(s, modulo) && m.event.SubmitMessage? && Allowed(s, m)
    ensures Sound(Apply(s, m), modulo)
  {
    if m.byA {
      StepSound(s, m.event, modulo);
    } else {
      SwapSound(s, modulo);
      StepSound(Swap(s), m.event, modulo);
      SwapSound(Step(Swap(s), m.event), modulo);
    }
  }

  /** Both ends give one more message to `send`. */
  lemma BothSubmit(s: Sys, modulo: Modulo) returns (moves: seq<Move>, t: Sys)
    requires Sound(s, modulo) && s.a.c.state.DataTransfer? && s.b.c.state.DataTransfer?
    ensures Reaches(s, moves, t) && Sound(t, modulo)
    ensures t.a.c.state == s.a.c.state && t.b.c.state == s.b.c.state && t.ab == s.ab && t.ba == s.ba
    ensures t.a.pending > 0 && t.b.pending > 0 && t.a.owed == s.a.owed && t.b.owed == s.b.owed
  {
    SubmitKeepsSound(s, SUBMIT_A, modulo);
    SubmitKeepsSound(Apply(s, SUBMIT_A), SUBMIT_B, modulo);
    ReachesTwo(s, SUBMIT_A, SUBMIT_B);
    moves := [SUBMIT_A] + [SUBMIT_B];
    t := Apply(Apply(s, SUBMIT_A), SUBMIT_B);
  }

  /** At rest with calm queues: the queues are empty and no confirm is owed. */
  lemma CalmAtRest(s: Sys, modulo: Modulo)
    requires Sound(s, modulo) && Quiescent(s) && Calm(s) && BothOwe(s)
    ensures AtRest(s, modulo)
  {
    Drained(s, modulo);
  }

  lemma WorkIsWork(moves: seq<Move>)
    requires forall m | m in moves :: IsWork(m.event)
    ensures AllWork(moves)
  {
    forall i | 0 <= i < |moves|
      ensures IsWork(moves[i].event)
    {
      assert moves[i] in moves;
    }
  }

  lemma WorkToRest(s: Sys, modulo: Modulo) returns (moves: seq<Move>, t: Sys)
    requires Sound(s, modulo) && BothOwe(s) && Alive(s.a) && Alive(s.b)
    ensures Reaches(s, moves, t) && Quiescent(t) && Sound(t, modulo) && BothOwe(t)
    ensures Calm(s) ==> Calm(t)
  {
    moves := ComesToRest(s, modulo);
    t := Final(s, moves);
    RunSound(s, moves, modulo);
    RunOwes(s, moves, modulo);
    WorkIsWork(moves);
    if Calm(s) {
      RunCalm(s, moves, modulo);
    }
  }

  lemma SubmitCalms(s: Sys, modulo: Modulo) returns (moves: seq<Move>, t: Sys)
    requires Sound(s, modulo) && Quiescent(s) && BothOwe(s)
    ensures Reaches(s, moves, t) && Sound(t, modulo) && BothOwe(t) && Calm(t) && Alive(t.a) && Alive(t.b)
  {
    Drained(s, modulo);
    moves, t := BothSubmit(s, modulo);
  }

  lemma ReachesRest(s: Sys, modulo: Modulo) returns (moves: seq<Move>, t: Sys)
    requires Sound(s, modulo) && BothOwe(s) && Alive(s.a) && Alive(s.b)
    ensures Reaches(s, moves, t) && AtRest(t, modulo)
  {
    var x, s1 := WorkToRest(s, modulo);
    var y, s2 := SubmitCalms(s1, modulo);
    var z;
    z, t := WorkToRest(s2, modulo);
    CalmAtRest(t, modulo);
    ReachesThrice(s, x, s1, y, s2, z, t);
    moves := x + (y + z);
  }

  lemma InitOwes(s: Sys, modulo: Modulo)
    requires Init(s, modulo)
    ensures Sound(s, modulo) && BothOwe(s)
  {
    InitSound(s, modulo);
  }

  lemma ReachableOwes(s: Sys, moves: seq<Move>, modulo: Modulo)
    requires Init(s, modulo) && Run(s, moves)
    ensures Sound(Final(s, moves), modulo) && BothOwe(Final(s, moves))
  {
    InitOwes(s, modulo);
    RunSound(s, moves, modulo);
    RunOwes(s, moves, modulo);
  }

  /** A reset that breaks the rule once, and what comes of it: an end accepts a packet
      in an epoch in which it was not sent, and the other one resets unasked. */
  predicate Broken(s: Sys, moves: seq<Move>) {
    && FreeRun(s, moves)
    && (var t := FreeFinal(s, moves);
        && !InOrder(t.b.sentIn, t.a.gotIn)
        && Possible(Swap(t), Deliver(LINK()))
        && Step(Swap(t), Deliver(LINK())).a.resets == t.b.resets + 1)
  }

  /** So nowhere is the rule on outstanding confirms idle: from every reachable state in
      which both ends live, an allowed run goes to where either end breaks it by one
      reset, and that happens. */
  lemma PrematureResetAnywhere(s: Sys, moves: seq<Move>, modulo: Modulo)
    returns (allowed: seq<Move>, rest: Sys, byA: seq<Move>, byB: seq<Move>)
    requires Init(s, modulo) && Run(s, moves) && Alive(Final(s, moves).a) && Alive(Final(s, moves).b)
    ensures Reaches(Final(s, moves), allowed, rest) && Broken(rest, byA) && Broken(Swap(rest), byB)
  {
    ReachableOwes(s, moves, modulo);
    allowed, rest := ReachesRest(Final(s, moves), modulo);
    var t;
    t, byA := PrematureReset(rest, modulo);
    t, byB := PrematureReset(Swap(rest), modulo);
  }
}
