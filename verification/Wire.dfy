/** Packets on the byte stream: encoded, framed, and one after the other. */
module Wire {
  import opened Wrappers
  import opened Packets
  import opened PacketRoundTrip
  import opened Buffers
  import opened Xot

  /** Packets that the transmission link does not refuse. */
  predicate Fits(p: Packet) {
    EncodePacket(p).Ok? && Frame(EncodePacket(p).value).Ok?
  }

  /** What sending a packet puts on the stream; nothing if the link refuses it. */
  function FrameOf(p: Packet): seq<Byte> {
    if Fits(p) then Frame(EncodePacket(p).value).value else []
  }

  function FramesOf(packets: seq<Packet>): seq<Byte> {
    if packets == [] then [] else FrameOf(packets[0]) + FramesOf(packets[1..])
  }

  predicate Carriable(packets: seq<Packet>) {
    forall p | p in packets :: Fits(p) && CanonicalPacket(p)
  }

  lemma {:induction false} FramesAppend(x: seq<Packet>, y: seq<Packet>)
    ensures FramesOf(x + y) == FramesOf(x) + FramesOf(y)
  {
    if x == [] {
      assert x + y == y;
    } else {
      assert (x + y)[1..] == x[1..] + y;
      FramesAppend(x[1..], y);
      Assoc(FrameOf(x[0]), FramesOf(x[1..]), FramesOf(y));
    }
  }

  /** The first packet of a FIFO of packets is what the byte stream parses to, both
      the frame and the packet in it, and the bytes that remain are those of the
      other packets. An empty FIFO is an empty stream. */
  lemma HeadOfWire(packets: seq<Packet>)
    requires Carriable(packets)
    ensures packets == [] ==> Deframe(FramesOf(packets)) == Partial
    ensures packets != [] ==>
              && Deframe(FramesOf(packets)) == Whole(EncodePacket(packets[0]).value, FramesOf(packets[1..]))
              && DecodePacket(EncodePacket(packets[0]).value) == Ok(packets[0])
  {
    if packets != [] {
      assert packets[0] in packets;
      DeframeFrame(EncodePacket(packets[0]).value, FramesOf(packets[1..]));
      RoundTrip(packets[0]);
    }
  }

  /** The same for the part of the stream that has been received: it parses to the
      first packet, or to nothing yet, never to an error. */
  lemma HeadOfBuffer(packets: seq<Packet>, buf: seq<Byte>, incoming: seq<Byte>)
    requires Carriable(packets) && buf + incoming == FramesOf(packets)
    ensures match Deframe(buf)
            case Whole(packet, rest) =>
              && packets != []
              && DecodePacket(packet) == Ok(packets[0])
              && rest + incoming == FramesOf(packets[1..])
            case Partial => true
            case Bad(_) => false
    ensures packets != [] && incoming == [] ==> Deframe(buf).Whole?
  {
    HeadOfWire(packets);
    DeframeMore(buf, incoming);
    if incoming == [] {
      assert buf + incoming == buf;
    }
  }
}
