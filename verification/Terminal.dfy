/** A terminal at one end of a circuit, its PAD and the circuit together. */
module Terminal {
  import opened Wrappers
  import opened Seq
  import opened Circuits
  import opened CircuitSystem
  import opened Steps
  import opened Messages
  import opened Packets
  import opened Invariant
  import opened Theorems
  import opened Wire
  import opened WireSystem
  import opened PadStreams
  import opened Pads

  /** What the reader at the other end gets to read of the messages delivered. */
  function Shown(delivered: seq<Message>, lf: bool): seq<Byte> {
    if delivered == [] then []
    else
      var last := delivered[|delivered| - 1];
      Shown(delivered[..|delivered| - 1], lf) + if last.qualifier then [] else WithLf(last.userData, lf)
  }

  function TextOf(messages: seq<Message>): seq<Byte> {
    Joined(Texts(messages))
  }

  lemma TextNext(messages: seq<Message>, m: Message)
    ensures TextOf(messages + [m]) == TextOf(messages) + if m.qualifier then [] else m.userData
  {
    TextsNext(messages, m);
    assert Texts(messages) + [] == Texts(messages) && TextOf(messages) + [] == TextOf(messages);
    if !m.qualifier {
      var texts := Texts(messages) + [m.userData];
      assert texts[..|texts| - 1] == Texts(messages);
    }
  }

  lemma {:induction false} ShownText(delivered: seq<Message>, lf: bool)
    ensures Shown(delivered, lf) == WithLf(TextOf(delivered), lf)
  {
    if delivered != [] {
      var (init, last) := (delivered[..|delivered| - 1], delivered[|delivered| - 1]);
      assert delivered == init + [last];
      ShownText(init, lf);
      TextNext(init, last);
      WithLfAppend(TextOf(init), if last.qualifier then [] else last.userData, lf);
    }
  }

  lemma {:induction false} TextOfNonEmpty(messages: seq<Message>)
    ensures TextOf(NonEmpty(messages)) == TextOf(messages)
  {
    if messages != [] {
      var (init, last) := (messages[..|messages| - 1], messages[|messages| - 1]);
      assert messages == init + [last];
      TextOfNonEmpty(init);
      TextNext(init, last);
      if last.userData != [] {
        TextNext(NonEmpty(init), last);
      } else {
        assert NonEmpty(messages) == NonEmpty(init) + [] == NonEmpty(init);
        assert TextOf(init) + [] == TextOf(init);
      }
    }
  }

  lemma {:induction false} TextPrefix(x: seq<Message>, y: seq<Message>)
    requires x <= y
    ensures TextOf(x) <= TextOf(y)
    decreases |y|
  {
    if |x| < |y| {
      var (init, last) := (y[..|y| - 1], y[|y| - 1]);
      assert y == init + [last] && x <= init;
      TextPrefix(x, init);
      TextNext(init, last);
    } else {
      assert x == y;
    }
  }

  lemma WithLfPrefix(x: seq<Byte>, y: seq<Byte>, lf: bool)
    requires x <= y
    ensures WithLf(x, lf) <= WithLf(y, lf)
  {
    assert y == x + y[|x|..];
    WithLfAppend(x, y[|x|..], lf);
  }

  /** What was typed is what the PAD gave to its circuit, so the reader gets a prefix
      of it when the circuit delivers in order. */
  lemma ReaderGets(submitted: seq<Message>, delivered: seq<Message>, session: Session, typed: seq<Byte>, cfg: Config,
                   lf: bool)
    requires delivered <= NonEmpty(submitted)
    requires Texts(submitted) == session.a.messages && Kept(session, typed, cfg)
    ensures Shown(delivered, lf) <= WithLf(WithLf(session.input, cfg.lf), lf)
  {
    TextPrefix(delivered, NonEmpty(submitted));
    TextOfNonEmpty(submitted);
    assert TextOf(delivered) <= Joined(session.a.messages) <= Content(session.a);
    ShownText(delivered, lf);
    WithLfPrefix(TextOf(delivered), WithLf(session.input, cfg.lf), lf);
  }

  /** And all of it, when everything has been delivered and nothing waits or is lost. */
  lemma ReaderGetsAll(submitted: seq<Message>, session: Session, typed: seq<Byte>, cfg: Config, lf: bool)
    requires Texts(submitted) == session.a.messages && Kept(session, typed, cfg)
    requires session.a.queue == [] && session.a.lost == []
    ensures Shown(NonEmpty(submitted), lf) == WithLf(WithLf(session.input, cfg.lf), lf)
  {
    TextOfNonEmpty(submitted);
    assert Joined(session.a.messages) + [] + [] == Joined(session.a.messages);
    ShownText(NonEmpty(submitted), lf);
  }

  // Two terminals, their PADs, and the circuit between them over byte streams

  datatype Desk = Desk(w: WireSys, a: Session, b: Session, cfgA: Config, cfgB: Config)

  datatype DeskEvent = Key(key: PadEvent) | Wired(wire: WireEvent)

  function SwapDesk(d: Desk): Desk {
    Desk(SwapWire(d.w), d.b, d.a, d.cfgB, d.cfgA)
  }

  predicate Connected(p: Party) {
    p.c.state.IsConnected()
  }

  /** A PAD exists from the time its circuit is first connected. Commands reach the
      circuit beside it; text only through it. */
  predicate DeskEnabled(d: Desk, event: DeskEvent) {
    match event
    case Key(_) => !d.w.a.party.c.state.WaitCallAccept? && d.cfgA.size == d.w.a.party.c.params.sendPacketSize > 0
    case Wired(event) =>
      && WireEnabled(d.w, event)
      && (event.Act? && event.event.SubmitMessage? ==> event.event.message.qualifier)
  }

  /** How many calls the circuit of `p` takes during one event at its PAD: as many as
      the PAD makes while it is connected, else none. */
  function Calls(p: Party, event: PadEvent): nat {
    if !Connected(p) then 0
    else match event
         case WriteBytes(buf, _) => |buf| + 1
         case _ => 1
  }

  /** `p` after `send` has queued all of `texts`, unless it is not connected. */
  function SubmitAll(p: Party, texts: seq<seq<Byte>>): (p': Party)
    ensures p'.c.state == p.c.state && p'.c.params == p.c.params
    decreases |texts|
  {
    if texts == [] || !Connected(p) || p.c.params.sendPacketSize == 0 then p
    else SubmitAll(Queued(p, Message(texts[0], false)), texts[1..])
  }

  function DeskStep(d: Desk, event: DeskEvent): Desk
    requires DeskEnabled(d, event)
  {
    match event
    case Key(event) =>
      var next := PadStreams.Step(d.a.(a := d.a.a.(room := Calls(d.w.a.party, event))), event, d.cfgA);
      var sent := next.a.messages[Min(|d.a.a.messages|, |next.a.messages|)..];
      d.(w := d.w.(a := d.w.a.(party := SubmitAll(d.w.a.party, sent))), a := next)
    case Wired(event) => d.(w := WireStep(d.w, event))
  }

  /** A PAD and its circuit: the PAD's messages are the text given to the circuit, and
      text is lost only once the circuit is gone. */
  ghost predicate PadOk(p: Party, session: Session, cfg: Config) {
    && cfg.size > 0
    && Texts(p.submitted) == session.a.messages
    && (exists typed :: Kept(session, typed, cfg))
    && (session.a.lost != [] ==> !Connected(p) && !p.c.state.WaitCallAccept?)
  }

  ghost predicate DeskOk(d: Desk, s: Sys, modulo: Modulo) {
    && Represents(d.w, s) && Sound(s, modulo)
    && PadOk(s.a, d.a, d.cfgA) && PadOk(s.b, d.b, d.cfgB)
  }

  // One event at a PAD

  lemma {:induction false} TypingGrows(a: Assembly, buf: seq<Byte>, cfg: Config)
    ensures var t := TypeAll(a, buf, cfg);
            && a.messages <= t.a.messages
            && (a.room >= |buf| ==> t.a.lost == a.lost)
            && (a.room == 0 ==> t.a.messages == a.messages)
    decreases |buf|
  {
    if buf != [] && !Fails(a, buf[0], cfg) {
      TypingGrows(Type(a, buf[0], cfg), buf[1..], cfg);
    }
  }

  lemma EventGrows(session: Session, p: Party, event: PadEvent, cfg: Config)
    ensures var next := PadStreams.Step(session.(a := session.a.(room := Calls(p, event))), event, cfg);
            && session.a.messages <= next.a.messages
            && (Connected(p) ==> next.a.lost == session.a.lost)
            && (!Connected(p) ==> next.a.messages == session.a.messages)
  {
    if event.WriteBytes? {
      TypingGrows(session.a.(room := Calls(p, event)), event.buf, cfg);
    }
  }

  lemma EventKept(session: Session, p: Party, event: PadEvent, cfg: Config)
    requires PadOk(p, session, cfg)
    ensures var next := PadStreams.Step(session.(a := session.a.(room := Calls(p, event))), event, cfg);
            exists typed :: Kept(next, typed, cfg)
  {
    var typed :| Kept(session, typed, cfg);
    var start := session.(a := session.a.(room := Calls(p, event)));
    assert Kept(start, typed, cfg);
    var typed' := StepKept(start, typed, event, cfg);
  }

  // One step

  /** Queueing a message is a step of the circuit. */
  lemma QueuedSound(s: Sys, m: Message, modulo: Modulo)
    requires Sound(s, modulo) && Connected(s.a)
    ensures s.a.c.params.sendPacketSize > 0
    ensures Sound(s.(a := Queued(s.a, m)), modulo)
  {
    SubmitStep(s, m);
    StepSound(s, SubmitMessage(m), modulo);
  }

  lemma TextsAssoc(x: seq<seq<Byte>>, y: seq<seq<Byte>>, z: seq<seq<Byte>>)
    ensures x + (y + z) == x + y + z && x + [] == x
  {
  }

  lemma {:induction false} SubmitAllSound(s: Sys, texts: seq<seq<Byte>>, modulo: Modulo)
    requires Sound(s, modulo)
    ensures Sound(s.(a := SubmitAll(s.a, texts)), modulo)
    decreases |texts|
  {
    if texts == [] || !Connected(s.a) {
      assert s.(a := s.a) == s;
    } else {
      QueuedSound(s, Message(texts[0], false), modulo);
      SubmitAllSound(s.(a := Queued(s.a, Message(texts[0], false))), texts[1..], modulo);
    }
  }

  lemma {:induction false} SubmitAllTexts(p: Party, texts: seq<seq<Byte>>)
    requires Connected(p) && p.c.params.sendPacketSize > 0
    ensures Texts(SubmitAll(p, texts).submitted) == Texts(p.submitted) + texts
    decreases |texts|
  {
    TextsAssoc(Texts(p.submitted), [], []);
    if texts != [] {
      SubmitAllTexts(Queued(p, Message(texts[0], false)), texts[1..]);
      TextsNext(p.submitted, Message(texts[0], false));
      TextsAssoc(Texts(p.submitted), [texts[0]], texts[1..]);
      assert texts == [texts[0]] + texts[1..];
    }
  }

  /** The messages a PAD makes of an event arrive in its circuit. */
  lemma KeyPadOk(p: Party, session: Session, event: PadEvent, cfg: Config)
    requires PadOk(p, session, cfg) && p.c.params.sendPacketSize > 0 && !p.c.state.WaitCallAccept?
    ensures var next := PadStreams.Step(session.(a := session.a.(room := Calls(p, event))), event, cfg);
            && session.a.messages <= next.a.messages
            && PadOk(SubmitAll(p, next.a.messages[|session.a.messages|..]), next, cfg)
  {
    EventGrows(session, p, event, cfg);
    EventKept(session, p, event, cfg);
    var next := PadStreams.Step(session.(a := session.a.(room := Calls(p, event))), event, cfg);
    var sent := next.a.messages[|session.a.messages|..];
    assert session.a.messages + sent == next.a.messages;
    if Connected(p) {
      SubmitAllTexts(p, sent);
    }
  }

  lemma KeyOk(d: Desk, s: Sys, event: PadEvent, modulo: Modulo) returns (s': Sys)
    requires DeskOk(d, s, modulo) && DeskEnabled(d, Key(event))
    ensures DeskOk(DeskStep(d, Key(event)), s', modulo)
  {
    KeyPadOk(s.a, d.a, event, d.cfgA);
    var next := PadStreams.Step(d.a.(a := d.a.a.(room := Calls(s.a, event))), event, d.cfgA);
    var sent := next.a.messages[|d.a.a.messages|..];
    SubmitAllSound(s, sent, modulo);
    s' := s.(a := SubmitAll(s.a, sent));
  }

  /** A circuit that is gone stays gone. */
  lemma NeverReconnects(s: Sys, event: Event, modulo: Modulo)
    requires Inv(s, modulo) && Enabled(s, event) && !Connected(s.a) && !s.a.c.state.WaitCallAccept?
    ensures var c := CircuitSystem.Step(s, event).a.c; !c.state.IsConnected() && !c.state.WaitCallAccept?
  {
  }

  lemma OnlySubmitSubmits(s: Sys, event: Event)
    requires Enabled(s, event)
    ensures var s' := CircuitSystem.Step(s, event);
            && s'.b == s.b
            && s'.a.submitted == s.a.submitted + if event.SubmitMessage? then [event.message] else []
  {
    assert s.a.submitted + [] == s.a.submitted;
  }

  /** Steps of the circuit itself leave its PAD's text as it is. */
  lemma ActPadOk(s: Sys, session: Session, cfg: Config, event: Event, modulo: Modulo)
    requires Inv(s, modulo) && Enabled(s, event) && PadOk(s.a, session, cfg)
    requires event.SubmitMessage? ==> event.message.qualifier
    ensures PadOk(CircuitSystem.Step(s, event).a, session, cfg)
  {
    OnlySubmitSubmits(s, event);
    TextsAssoc(Texts(s.a.submitted), [], []);
    if event.SubmitMessage? {
      TextsNext(s.a.submitted, event.message);
    }
    if !Connected(s.a) && !s.a.c.state.WaitCallAccept? {
      NeverReconnects(s, event, modulo);
    }
  }

  lemma ActOk(w: WireSys, s: Sys, event: Event, modulo: Modulo)
    requires Represents(w, s) && Sound(s, modulo) && WireEnabled(w, Act(event))
    ensures Enabled(s, OnWire(event))
    ensures var s' := CircuitSystem.Step(s, OnWire(event));
            Represents(WireStep(w, Act(event)), s') && Sound(s', modulo) && s'.b == s.b
  {
    ActRefines(s, w, event);
    StepSound(s, OnWire(event), modulo);
    OnlySubmitSubmits(s, OnWire(event));
  }

  lemma DeskReadOk(d: Desk, s: Sys, n: nat, modulo: Modulo)
    requires DeskOk(d, s, modulo) && DeskEnabled(d, Wired(ReadBytes(n)))
    ensures DeskOk(DeskStep(d, Wired(ReadBytes(n))), s, modulo)
  {
    ReadRefines(s, d.w, n);
  }

  lemma DeskActOk(d: Desk, s: Sys, event: Event, modulo: Modulo)
    requires DeskOk(d, s, modulo) && DeskEnabled(d, Wired(Act(event)))
    ensures Enabled(s, OnWire(event))
    ensures DeskOk(DeskStep(d, Wired(Act(event))), CircuitSystem.Step(s, OnWire(event)), modulo)
  {
    ActOk(d.w, s, event, modulo);
    ActPadOk(s, d.a, d.cfgA, OnWire(event), modulo);
  }

  // Runs

  datatype DeskMove = DeskMove(byA: bool, event: DeskEvent)

  predicate DeskAllowed(d: Desk, m: DeskMove) {
    DeskEnabled(if m.byA then d else SwapDesk(d), m.event)
  }

  function DeskApply(d: Desk, m: DeskMove): Desk
    requires DeskAllowed(d, m)
  {
    if m.byA then DeskStep(d, m.event) else SwapDesk(DeskStep(SwapDesk(d), m.event))
  }

  predicate DeskRun(d: Desk, moves: seq<DeskMove>)
    decreases |moves|
  {
    moves == [] || (DeskAllowed(d, moves[0]) && DeskRun(DeskApply(d, moves[0]), moves[1..]))
  }

  function DeskFinal(d: Desk, moves: seq<DeskMove>): Desk
    requires DeskRun(d, moves)
    decreases |moves|
  {
    if moves == [] then d else DeskFinal(DeskApply(d, moves[0]), moves[1..])
  }

  lemma StepOk(d: Desk, s: Sys, event: DeskEvent, modulo: Modulo) returns (s': Sys)
    requires DeskOk(d, s, modulo) && DeskEnabled(d, event)
    ensures DeskOk(DeskStep(d, event), s', modulo)
  {
    match event
    case Key(event) => s' := KeyOk(d, s, event, modulo);
    case Wired(ReadBytes(n)) =>
      DeskReadOk(d, s, n, modulo);
      s' := s;
    case Wired(Act(event)) =>
      DeskActOk(d, s, event, modulo);
      s' := CircuitSystem.Step(s, OnWire(event));
  }

  lemma SwapOk(d: Desk, s: Sys, modulo: Modulo)
    requires DeskOk(d, s, modulo)
    ensures DeskOk(SwapDesk(d), Swap(s), modulo)
  {
    SwapSound(s, modulo);
  }

  lemma {:induction false} RunOk(d: Desk, s: Sys, moves: seq<DeskMove>, modulo: Modulo) returns (s': Sys)
    requires DeskOk(d, s, modulo) && DeskRun(d, moves)
    ensures DeskOk(DeskFinal(d, moves), s', modulo)
    decreases |moves|
  {
    s' := s;
    if moves != [] {
      var m := moves[0];
      if m.byA {
        s' := StepOk(d, s, m.event, modulo);
      } else {
        SwapOk(d, s, modulo);
        s' := StepOk(SwapDesk(d), Swap(s), m.event, modulo);
        SwapOk(DeskStep(SwapDesk(d), m.event), s', modulo);
        s' := Swap(s');
      }
      s' := RunOk(DeskApply(d, m), s', moves[1..], modulo);
    }
  }

  /** The call has just been accepted, and nothing has been typed. */
  predicate Started(d: Desk, s: Sys, modulo: Modulo) {
    && Init(s, modulo) && Represents(d.w, s)
    && d.a == d.b == Session(Assembly([], [], None, [], 0), [])
    && d.cfgA.size > 0 && d.cfgB.size > 0
  }

  lemma StartedOk(d: Desk, s: Sys, modulo: Modulo)
    requires Started(d, s, modulo)
    ensures DeskOk(d, s, modulo)
  {
    InitSound(s, modulo);
    assert Kept(d.a, [], d.cfgA) && Kept(d.b, [], d.cfgB);
  }

  /** From each keyboard to the reader at the other end, over every run: keys, idle
      timers and flushes at both PADs, commands between them, and all that circuits
      and byte streams can do. What is read is a prefix of what was typed, with the
      line feeds that either PAD adds, as long as the reader's end starts no reset. */
  lemma RemoteReads(d: Desk, s: Sys, moves: seq<DeskMove>, modulo: Modulo, lf: bool)
    requires Started(d, s, modulo) && DeskRun(d, moves)
    ensures var t := DeskFinal(d, moves);
            && (t.w.b.party.resets == 0 ==>
                  Shown(t.w.b.party.delivered, lf) <= WithLf(WithLf(t.a.input, t.cfgA.lf), lf))
            && (t.w.a.party.resets == 0 ==>
                  Shown(t.w.a.party.delivered, lf) <= WithLf(WithLf(t.b.input, t.cfgB.lf), lf))
  {
    StartedOk(d, s, modulo);
    var u := RunOk(d, s, moves, modulo);
    var t := DeskFinal(d, moves);
    SomeRead(u, t.a, t.cfgA, lf, modulo);
    SwapSound(u, modulo);
    SomeRead(Swap(u), t.b, t.cfgB, lf, modulo);
  }

  lemma SomeRead(s: Sys, session: Session, cfg: Config, lf: bool, modulo: Modulo)
    requires Sound(s, modulo) && PadOk(s.a, session, cfg)
    ensures s.b.resets == 0 ==> Shown(s.b.delivered, lf) <= WithLf(WithLf(session.input, cfg.lf), lf)
  {
    BothWays(s, modulo);
    var typed :| Kept(session, typed, cfg);
    if s.b.resets == 0 {
      ReaderGets(s.a.submitted, s.b.delivered, session, typed, cfg, lf);
    }
  }

  /** Nothing is under way on the byte streams or left to do at either end. */
  predicate DeskAtRest(d: Desk) {
    && Alive(d.w.a.party) && Alive(d.w.b.party)
    && d.w.a.buf == d.w.b.buf == d.w.a.incoming == d.w.b.incoming == []
    && d.w.a.party.pending == d.w.b.party.pending == 0
    && PopComplete(d.w.a.party.c.recvQueue).None? && PopComplete(d.w.b.party.c.recvQueue).None?
  }

  lemma NoBytesNoPackets(packets: seq<Packet>)
    requires Carriable(packets) && FramesOf(packets) == []
    ensures packets == []
  {
    HeadOfWire(packets);
  }

  lemma RestIsQuiescent(d: Desk, s: Sys)
    requires Represents(d.w, s) && DeskAtRest(d)
    ensures Quiescent(s)
  {
    NoBytesNoPackets(s.ab);
    NoBytesNoPackets(s.ba);
  }

  /** And it is all of it, in both directions, once the system has come to rest without
      resets and a PAD has nothing left to send. */
  lemma RemoteReadsAll(d: Desk, s: Sys, moves: seq<DeskMove>, modulo: Modulo, lf: bool)
    requires Started(d, s, modulo) && DeskRun(d, moves)
    ensures var t := DeskFinal(d, moves);
            DeskAtRest(t) && t.w.a.party.resets == 0 && t.w.b.party.resets == 0 ==>
              && (t.a.a.queue == [] ==>
                    Shown(t.w.b.party.delivered, lf) == WithLf(WithLf(t.a.input, t.cfgA.lf), lf))
              && (t.b.a.queue == [] ==>
                    Shown(t.w.a.party.delivered, lf) == WithLf(WithLf(t.b.input, t.cfgB.lf), lf))
  {
    StartedOk(d, s, modulo);
    var u := RunOk(d, s, moves, modulo);
    var t := DeskFinal(d, moves);
    if DeskAtRest(t) && u.a.resets == 0 && u.b.resets == 0 {
      RestIsQuiescent(t, u);
      AllRead(u, t.a, t.cfgA, lf, modulo);
      SwapSound(u, modulo);
      AllRead(Swap(u), t.b, t.cfgB, lf, modulo);
    }
  }

  lemma AllRead(s: Sys, session: Session, cfg: Config, lf: bool, modulo: Modulo)
    requires Sound(s, modulo) && Quiescent(s) && s.a.resets == 0 && s.b.resets == 0 && PadOk(s.a, session, cfg)
    ensures session.a.queue == [] ==> Shown(s.b.delivered, lf) == WithLf(WithLf(session.input, cfg.lf), lf)
  {
    Rest(s, modulo);
    var typed :| Kept(session, typed, cfg);
    if session.a.queue == [] {
      ReaderGetsAll(s.a.submitted, session, typed, cfg, lf);
    }
  }
}
