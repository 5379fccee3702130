/** The two ends joined by byte streams instead of packet channels: packets are
    encoded and framed onto a stream, which is received in pieces of any size, taken
    apart and decoded. Every run of this system is a run of `CircuitSystem`. */
module WireSystem {
  import opened Wrappers
  import opened Seq
  import opened Packets
  import opened Buffers
  import opened Xot
  import opened Wire
  import opened Circuits
  import opened CircuitSystem
  import opened Messages
  import opened Theorems

  /** `buf` is what the link has received and not yet taken apart, `incoming` what
      the other end has written and this end not yet read. */
  datatype End = End(party: Party, buf: seq<Byte>, incoming: seq<Byte>)

  datatype WireSys = WireSys(a: End, b: End)

  datatype WireEvent = ReadBytes(n: nat) | Act(event: Event)

  function SwapWire(w: WireSys): WireSys {
    WireSys(w.b, w.a)
  }

  /** The event with the byte stream as its link. */
  function OnWire(event: Event): Event {
    match event
    case Pump(link) => Pump(Link(link.room, Fits))
    case Deliver(link) => Deliver(Link(link.room, Fits))
    case TimerExpires(link) => TimerExpires(Link(link.room, Fits))
    case StartReset(cause, diagnostic, link) => StartReset(cause, diagnostic, Link(link.room, Fits))
    case StartClear(cause, diagnostic, link) => StartClear(cause, diagnostic, Link(link.room, Fits))
    case SubmitMessage(_) => event
    case Receive => event
    case LinkFails => event
  }

  /** The packet decoded from the received bytes, if a whole frame is there. */
  function Arrived(w: WireSys): seq<Packet> {
    match Deframe(w.a.buf)
    case Whole(packet, _) => (match DecodePacket(packet) case Ok(p) => [p] case Err(_) => [])
    case _ => []
  }

  /** What end `a` sees when it takes a step. */
  function View(w: WireSys): Sys {
    Sys(w.a.party, w.b.party, [], Arrived(w))
  }

  predicate WireEnabled(w: WireSys, event: WireEvent) {
    match event
    case ReadBytes(n) => n <= |w.a.incoming|
    case Act(event) => Enabled(View(w), OnWire(event))
  }

  function WireStep(w: WireSys, event: WireEvent): WireSys
    requires WireEnabled(w, event)
  {
    match event
    case ReadBytes(n) =>
      w.(a := w.a.(buf := w.a.buf + w.a.incoming[..n], incoming := w.a.incoming[n..]))
    case Act(event) =>
      var s := Step(View(w), OnWire(event));
      var buf := if event.Deliver? then Deframe(w.a.buf).rest else w.a.buf;
      WireSys(w.a.(party := s.a, buf := buf), w.b.(incoming := w.b.incoming + FramesOf(s.ab)))
  }

  /** The packets in flight in `s` are the bytes in flight in `w`. */
  predicate Represents(w: WireSys, s: Sys) {
    && w.a.party == s.a && w.b.party == s.b
    && Carriable(s.ab) && Carriable(s.ba)
    && w.a.buf + w.a.incoming == FramesOf(s.ba)
    && w.b.buf + w.b.incoming == FramesOf(s.ab)
  }

  // What circuits send

  lemma {:induction false} SendQueuedCarriable(c: Circuit, link: Link)
    requires c.state.DataTransfer? && link.fits == Fits
    ensures Carriable(SendQueued(c, link).out) && SendQueued(c, link).link.fits == Fits
    decreases |c.sendQueue|
  {
    if c.sendQueue != [] && c.state.transfer.IsOpen() {
      var first := SendOne(c, link);
      if first.c.state.DataTransfer? {
        SendQueuedCarriable(first.c, first.link);
      }
    }
  }

  lemma ResponseCarriable(c: Circuit, packet: Packet, link: Link)
    requires c.state.DataTransfer? && link.fits == Fits
    ensures packet.DataPacket? ==> Carriable(HandleData(c, packet.data, link).out)
    ensures packet.ReceiveReady? ==> Carriable(HandleReceiveReady(c, packet.recvSeq, link).out)
  {
    if packet.DataPacket? {
      SendQueuedCarriable(Accept(c, packet.data), link);
    } else if packet.ReceiveReady? {
      SendQueuedCarriable(c.(state := DataTransfer(AckedTo(c.state.transfer, packet.recvSeq))), link);
    }
  }

  /** A circuit sends nothing that the byte stream would not bring across intact. */
  lemma HandleCarriable(c: Circuit, packet: Option<Packet>, expired: bool, link: Link)
    requires Handles(c, packet) && link.fits == Fits
    ensures Carriable(HandlePacket(c, packet, expired, link).out)
  {
    if c.state.DataTransfer? && packet.Some? && (packet.value.DataPacket? || packet.value.ReceiveReady?) {
      ResponseCarriable(c, packet.value, link);
    } else {
      assert ClearRequestOf(c, 19, 49).ClearRequestPacket?;
    }
  }

  /** What of `t`, reached from the view `local` of `s`, is not local to end `a`. */
  predicate Rejoins(s: Sys, event: Event, t: Sys, t': Sys)
    requires event.Deliver? ==> s.ba != []
  {
    && t'.a == t.a && t'.b == s.b && t.b == s.b
    && t'.ab == s.ab + t.ab
    && t'.ba == if event.Deliver? then s.ba[1..] else s.ba
  }

  lemma DeliverIsLocal(s: Sys, seen: seq<Packet>, link: Link)
    requires Enabled(s, Deliver(link)) && seen != [] && seen[0] == s.ba[0]
    ensures Enabled(s.(ab := [], ba := seen), Deliver(link))
    ensures Rejoins(s, Deliver(link), Step(s.(ab := [], ba := seen), Deliver(link)), Step(s, Deliver(link)))
  {
    var e := HandlePacket(s.a.c, Some(s.ba[0]), false, link);
    assert [] + e.out == e.out;
  }

  /** A step looks only at the head of its channel, and adds to the other one. */
  lemma StepIsLocal(s: Sys, seen: seq<Packet>, event: Event)
    requires Enabled(s, event)
    requires event.Deliver? ==> seen != [] && seen[0] == s.ba[0]
    ensures Enabled(s.(ab := [], ba := seen), event)
    ensures Rejoins(s, event, Step(s.(ab := [], ba := seen), event), Step(s, event))
  {
    if event.Deliver? {
      DeliverIsLocal(s, seen, event.link);
    }
  }

  lemma StepCarriable(s: Sys, event: Event)
    requires Enabled(s, OnWire(event)) && s.ab == []
    ensures Carriable(Step(s, OnWire(event)).ab)
  {
    match event
    case Pump(link) => SendQueuedCarriable(s.a.c, Link(link.room, Fits));
    case Deliver(link) => HandleCarriable(s.a.c, Some(s.ba[0]), false, Link(link.room, Fits));
    case TimerExpires(link) => HandleCarriable(s.a.c, None, true, Link(link.room, Fits));
    case _ =>
  }

  // The refinement

  /** What end `a` sees of its byte stream is the head of its packet channel. */
  lemma ViewIsLocal(s: Sys, w: WireSys, event: Event)
    requires Represents(w, s) && Enabled(View(w), event)
    ensures Enabled(s, event)
    ensures event.Deliver? ==> Arrived(w) != [] && s.ba != [] && Arrived(w)[0] == s.ba[0]
    ensures View(w) == s.(ab := [], ba := Arrived(w))
    ensures event.Deliver? ==> Deframe(w.a.buf).Whole? && Deframe(w.a.buf).rest + w.a.incoming == FramesOf(s.ba[1..])
  {
    HeadOfBuffer(s.ba, w.a.buf, w.a.incoming);
  }

  /** The state after a local step, with what it sent put on its way. */
  lemma SentRepresents(s: Sys, w: WireSys, event: Event, t: Sys, buf: seq<Byte>)
    requires Represents(w, s) && Enabled(s, OnWire(event))
    requires Rejoins(s, OnWire(event), t, Step(s, OnWire(event))) && Carriable(t.ab)
    requires buf + w.a.incoming == FramesOf(if event.Deliver? then s.ba[1..] else s.ba)
    ensures Represents(WireSys(w.a.(party := t.a, buf := buf), w.b.(incoming := w.b.incoming + FramesOf(t.ab))),
                       Step(s, OnWire(event)))
  {
    OutArrives(w.b.buf, w.b.incoming, s.ab, t.ab);
    if event.Deliver? {
      TailCarriable(s.ba);
    }
  }

  lemma ActRefines(s: Sys, w: WireSys, event: Event)
    requires Represents(w, s) && WireEnabled(w, Act(event))
    ensures Enabled(s, OnWire(event))
    ensures Represents(WireStep(w, Act(event)), Step(s, OnWire(event)))
  {
    ViewIsLocal(s, w, OnWire(event));
    StepIsLocal(s, Arrived(w), OnWire(event));
    StepCarriable(View(w), event);
    var buf := if event.Deliver? then Deframe(w.a.buf).rest else w.a.buf;
    SentRepresents(s, w, event, Step(View(w), OnWire(event)), buf);
  }

  /** Packets put on the channel are frames put on the stream. */
  lemma OutArrives(buf: seq<Byte>, incoming: seq<Byte>, channel: seq<Packet>, out: seq<Packet>)
    requires buf + incoming == FramesOf(channel) && Carriable(channel) && Carriable(out)
    ensures buf + (incoming + FramesOf(out)) == FramesOf(channel + out) && Carriable(channel + out)
  {
    FramesAppend(channel, out);
    Assoc(buf, incoming, FramesOf(out));
  }

  lemma TailCarriable(channel: seq<Packet>)
    requires channel != [] && Carriable(channel)
    ensures Carriable(channel[1..])
  {
  }

  lemma ReadRefines(s: Sys, w: WireSys, n: nat)
    requires Represents(w, s) && WireEnabled(w, ReadBytes(n))
    ensures Represents(WireStep(w, ReadBytes(n)), s)
  {
    assert w.a.incoming == w.a.incoming[..n] + w.a.incoming[n..];
    Assoc(w.a.buf, w.a.incoming[..n], w.a.incoming[n..]);
  }

  /** Received bytes never fail to parse or to decode, and are never taken for
      another packet than the next one sent. */
  lemma NoDecodingError(s: Sys, w: WireSys)
    requires Represents(w, s)
    ensures !Deframe(w.a.buf).Bad?
    ensures Deframe(w.a.buf).Whole? ==> s.ba != [] && DecodePacket(Deframe(w.a.buf).packet) == Ok(s.ba[0])
  {
    HeadOfBuffer(s.ba, w.a.buf, w.a.incoming);
  }

  /** Conversely, what a packet channel allows, the byte stream allows once its
      bytes have been read, and the outcome is the same. */
  lemma WireFollows(s: Sys, w: WireSys, event: Event)
    requires Represents(w, s) && Enabled(s, OnWire(event))
    ensures var w' := WireStep(w, ReadBytes(|w.a.incoming|));
            && WireEnabled(w', Act(event))
            && Represents(WireStep(w', Act(event)), Step(s, OnWire(event)))
  {
    ReadRefines(s, w, |w.a.incoming|);
    var w' := WireStep(w, ReadBytes(|w.a.incoming|));
    HeadOfBuffer(s.ba, w'.a.buf, w'.a.incoming);
    ActRefines(s, w', event);
  }

  // Runs

  datatype WireMove = WireMove(byA: bool, event: WireEvent)

  predicate WireAllowed(w: WireSys, m: WireMove) {
    WireEnabled(if m.byA then w else SwapWire(w), m.event)
  }

  function WireApply(w: WireSys, m: WireMove): WireSys
    requires WireAllowed(w, m)
  {
    if m.byA then WireStep(w, m.event) else SwapWire(WireStep(SwapWire(w), m.event))
  }

  predicate WireRun(w: WireSys, moves: seq<WireMove>)
    decreases |moves|
  {
    moves == [] || (WireAllowed(w, moves[0]) && WireRun(WireApply(w, moves[0]), moves[1..]))
  }

  function WireFinal(w: WireSys, moves: seq<WireMove>): WireSys
    requires WireRun(w, moves)
    decreases |moves|
  {
    if moves == [] then w else WireFinal(WireApply(w, moves[0]), moves[1..])
  }

  /** The same moves on packets: reading bytes is no move. */
  function PacketMoves(moves: seq<WireMove>): seq<Move> {
    if moves == [] then []
    else
      (match moves[0].event
       case ReadBytes(_) => []
       case Act(event) => [Move(moves[0].byA, OnWire(event))]) + PacketMoves(moves[1..])
  }

  lemma MoveRefines(s: Sys, w: WireSys, m: WireMove)
    requires Represents(w, s) && WireAllowed(w, m)
    ensures match m.event
            case ReadBytes(_) => Represents(WireApply(w, m), s)
            case Act(event) =>
              && Allowed(s, Move(m.byA, OnWire(event)))
              && Represents(WireApply(w, m), Apply(s, Move(m.byA, OnWire(event))))
  {
    var (w1, s1) := if m.byA then (w, s) else (SwapWire(w), Swap(s));
    match m.event
    case ReadBytes(n) => ReadRefines(s1, w1, n);
    case Act(event) => ActRefines(s1, w1, event);
  }

  /** Every run on bytes is a run on packets. */
  lemma {:induction false} WireRefines(s: Sys, w: WireSys, moves: seq<WireMove>)
    requires Represents(w, s) && WireRun(w, moves)
    ensures Run(s, PacketMoves(moves)) && Represents(WireFinal(w, moves), Final(s, PacketMoves(moves)))
    decreases |moves|
  {
    if moves != [] {
      MoveRefines(s, w, moves[0]);
      match moves[0].event
      case ReadBytes(_) =>
        WireRefines(s, WireApply(w, moves[0]), moves[1..]);
        assert PacketMoves(moves) == PacketMoves(moves[1..]);
      case Act(event) =>
        var m := Move(moves[0].byA, OnWire(event));
        WireRefines(Apply(s, m), WireApply(w, moves[0]), moves[1..]);
        assert PacketMoves(moves)[1..] == PacketMoves(moves[1..]);
    }
  }

  /** So what is proved of packets holds of bytes: in-order delivery, and that no
      reset is due to a packet the protocol itself sent. */
  lemma WireDelivery(s: Sys, w: WireSys, moves: seq<WireMove>, modulo: Modulo)
    requires Init(s, modulo) && Represents(w, s) && WireRun(w, moves)
    ensures var t := WireFinal(w, moves);
            && (t.b.party.resets == 0 ==> t.b.party.delivered <= NonEmpty(t.a.party.submitted))
            && (t.a.party.resets == 0 ==> t.a.party.delivered <= NonEmpty(t.b.party.submitted))
            && !Deframe(t.a.buf).Bad? && !Deframe(t.b.buf).Bad?
  {
    WireRefines(s, w, moves);
    var (t, u) := (WireFinal(w, moves), Final(s, PacketMoves(moves)));
    DeliveredInOrder(s, PacketMoves(moves), modulo);
    NoDecodingError(u, t);
    NoDecodingError(Swap(u), SwapWire(t));
  }
}
