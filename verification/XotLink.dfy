/** X.25 over TCP (`xot/link.rs`): packets in frames with the header of RFC 1613,
    over a byte stream that arrives in pieces of any size. */
module Xot {
  import opened Wrappers
  import opened Buffers
  import opened Packets

  const XOT_HEADER_LEN := 4

  /** Version 0, the length of the packet, and the packet. */
  function Frame(packet: seq<Byte>): Result<seq<Byte>> {
    if |packet| < MIN_PACKET_LEN then Err(TooShort)
    else if |packet| > MAX_PACKET_LEN then Err(TooLong)
    else Ok([0, 0, |packet| / 256, |packet| % 256] + packet)
  }

  datatype Parse = Whole(packet: seq<Byte>, rest: seq<Byte>) | Partial | Bad(error: Error)

  /** The first frame of a stream. */
  function Deframe(stream: seq<Byte>): Parse {
    if |stream| < XOT_HEADER_LEN then Partial
    else if stream[0] != 0 || stream[1] != 0 then Bad(BadVersion)
    else
      var len := (stream[2] as int) * 256 + stream[3];
      if len < MIN_PACKET_LEN then Bad(TooShort)
      else if len > MAX_PACKET_LEN then Bad(TooLong)
      else if |stream| < XOT_HEADER_LEN + len then Partial
      else Whole(stream[4..4 + len], stream[4 + len..])
  }

  lemma DeframeFrame(packet: seq<Byte>, rest: seq<Byte>)
    requires Frame(packet).Ok?
    ensures Deframe(Frame(packet).value + rest) == Whole(packet, rest)
  {
    var stream := Frame(packet).value + rest;
    assert stream[4..4 + |packet|] == packet;
    assert stream[4 + |packet|..] == rest;
  }

  /** Bytes that arrive later never change a frame or an error already there. */
  lemma DeframeMore(stream: seq<Byte>, more: seq<Byte>)
    ensures match Deframe(stream)
            case Whole(packet, rest) => Deframe(stream + more) == Whole(packet, rest + more)
            case Bad(e) => Deframe(stream + more) == Bad(e)
            case Partial => true
  {
    if Deframe(stream).Whole? {
      var end := 4 + |Deframe(stream).packet|;
      assert (stream + more)[4..end] == stream[4..end];
      assert (stream + more)[end..] == stream[end..] + more;
    }
  }

  lemma DeframeExact(stream: seq<Byte>)
    requires Deframe(stream).Whole?
    ensures var w := Deframe(stream); Frame(w.packet).Ok? && Frame(w.packet).value + w.rest == stream
  {
    var w := Deframe(stream);
    assert stream == stream[..4] + stream[4..4 + |w.packet|] + stream[4 + |w.packet|..];
    assert stream[..4] == [0, 0, stream[2], stream[3]];
  }

  /** All packets of a stream, up to the first error. */
  function PacketsIn(stream: seq<Byte>): seq<seq<Byte>>
    decreases |stream|
  {
    match Deframe(stream)
    case Whole(packet, rest) => [packet] + PacketsIn(rest)
    case _ => []
  }

  /** The bytes after them. */
  function Leftover(stream: seq<Byte>): seq<Byte>
    decreases |stream|
  {
    match Deframe(stream)
    case Whole(_, rest) => Leftover(rest)
    case _ => stream
  }

  function FrameAll(packets: seq<seq<Byte>>): (stream: seq<Byte>)
    requires forall p | p in packets :: Frame(p).Ok?
  {
    if packets == [] then [] else Frame(packets[0]).value + FrameAll(packets[1..])
  }

  /** Deframing conserves the stream: its packets framed again, and what is left. */
  lemma {:induction false} DeframingConserves(stream: seq<Byte>)
    ensures forall p | p in PacketsIn(stream) :: Frame(p).Ok?
    ensures FrameAll(PacketsIn(stream)) + Leftover(stream) == stream
    ensures !Deframe(Leftover(stream)).Whole?
    decreases |stream|
  {
    if Deframe(stream).Whole? {
      var w := Deframe(stream);
      DeframeExact(stream);
      DeframingConserves(w.rest);
      assert PacketsIn(stream)[1..] == PacketsIn(w.rest);
      assert Frame(w.packet).value + (FrameAll(PacketsIn(w.rest)) + Leftover(w.rest)) == stream;
    }
  }

  lemma OneFrame(packet: seq<Byte>, rest: seq<Byte>)
    requires Frame(packet).Ok?
    ensures PacketsIn(Frame(packet).value + rest) == [packet] + PacketsIn(rest)
    ensures Leftover(Frame(packet).value + rest) == Leftover(rest)
  {
    DeframeFrame(packet, rest);
    FirstPacket(Frame(packet).value + rest, packet, rest);
  }

  lemma FirstPacket(stream: seq<Byte>, packet: seq<Byte>, rest: seq<Byte>)
    requires Deframe(stream) == Whole(packet, rest)
    ensures PacketsIn(stream) == [packet] + PacketsIn(rest)
    ensures Leftover(stream) == Leftover(rest)
  {
  }

  lemma FrameAllStep(packets: seq<seq<Byte>>, rest: seq<Byte>)
    requires packets != [] && forall p | p in packets :: Frame(p).Ok?
    ensures forall p | p in packets[1..] :: Frame(p).Ok?
    ensures FrameAll(packets) + rest == Frame(packets[0]).value + (FrameAll(packets[1..]) + rest)
  {
    Assoc(Frame(packets[0]).value, FrameAll(packets[1..]), rest);
  }

  /** Frames sent one after the other give back exactly their packets, before
      whatever the rest of the stream holds. */
  lemma {:induction false} DeframingInverts(packets: seq<seq<Byte>>, rest: seq<Byte>)
    requires forall p | p in packets :: Frame(p).Ok?
    ensures PacketsIn(FrameAll(packets) + rest) == packets + PacketsIn(rest)
    ensures Leftover(FrameAll(packets) + rest) == Leftover(rest)
  {
    if packets == [] {
      assert FrameAll(packets) + rest == rest;
    } else {
      FrameAllStep(packets, rest);
      DeframingInverts(packets[1..], rest);
      FrameBefore(FrameAll(packets) + rest, packets[0], FrameAll(packets[1..]) + rest, packets[1..], PacketsIn(rest));
      assert [packets[0]] + packets[1..] == packets;
    }
  }

  lemma FrameBefore(stream: seq<Byte>, packet: seq<Byte>, more: seq<Byte>, packets: seq<seq<Byte>>, others: seq<seq<Byte>>)
    requires Frame(packet).Ok? && stream == Frame(packet).value + more
    requires PacketsIn(more) == packets + others
    ensures PacketsIn(stream) == [packet] + packets + others
    ensures Leftover(stream) == Leftover(more)
  {
    OneFrame(packet, more);
  }

  /** The connection: bytes written to it, of which `room` more calls succeed, and
      what successive reads will return. An empty read stands for the end of the
      stream, or for a read that fails; after the last read listed here, reading
      blocks. */
  class TcpStream {
    var written: seq<Byte>
    var room: nat
    var unread: seq<seq<Byte>>

    method WriteAll(bytes: seq<Byte>) returns (ok: bool)
      modifies this`written, this`room
      ensures ok <==> old(room) > 0
      ensures if ok then written == old(written) + bytes && room == old(room) - 1
              else written == old(written) && room == old(room)
    {
      if room == 0 {
        return false;
      }
      written := written + bytes;
      room := room - 1;
      return true;
    }
  }

  /** The bytes of all reads up to the end of the stream. */
  function Arriving(unread: seq<seq<Byte>>): seq<Byte> {
    if unread == [] || unread[0] == [] then [] else unread[0] + Arriving(unread[1..])
  }

  predicate Ends(unread: seq<seq<Byte>>) {
    unread != [] && (unread[0] == [] || Ends(unread[1..]))
  }

  datatype Received = Packet(packet: seq<Byte>) | Failed(error: Error) | Blocked

  /** What receiving comes to, given all bytes received and still to be received. */
  function Outcome(pending: seq<Byte>, ends: bool): Received {
    match Deframe(pending)
    case Whole(packet, _) => Packet(packet)
    case Bad(e) => Failed(e)
    case Partial => if ends then Failed(NotConnected) else Blocked
  }

  class XotLink {
    const stream: TcpStream
    var recvBuf: seq<Byte>

    constructor (stream: TcpStream)
      ensures this.stream == stream && recvBuf == []
    {
      this.stream := stream;
      this.recvBuf := [];
    }

    /** Everything received and still to be received. */
    ghost function Pending(): seq<Byte>
      reads this, stream
    {
      recvBuf + Arriving(stream.unread)
    }

    /** Takes a frame off the buffer. */
    method Decode() returns (r: Result<Option<seq<Byte>>>)
      modifies this
      ensures match Deframe(old(recvBuf))
              case Whole(packet, rest) => r == Ok(Some(packet)) && recvBuf == rest
              case Partial => r == Ok(None) && recvBuf == old(recvBuf)
              case Bad(e) => r == Err(e) && recvBuf == old(recvBuf)
    {
      if |recvBuf| < XOT_HEADER_LEN {
        return Ok(None);
      }
      if recvBuf[0] != 0 || recvBuf[1] != 0 {
        return Err(BadVersion);
      }
      var len := (recvBuf[2] as int) * 256 + recvBuf[3];
      if len < MIN_PACKET_LEN {
        return Err(TooShort);
      }
      if len > MAX_PACKET_LEN {
        return Err(TooLong);
      }
      if |recvBuf| < XOT_HEADER_LEN + len {
        return Ok(None);
      }
      var packet := recvBuf[..XOT_HEADER_LEN + len];
      recvBuf := recvBuf[XOT_HEADER_LEN + len..];
      assert packet[XOT_HEADER_LEN..] == old(recvBuf)[4..4 + len];
      return Ok(Some(packet[XOT_HEADER_LEN..]));
    }

    /** Receives a packet. The outcome depends on the bytes of the stream alone, not
        on how they are divided into reads, and no byte is lost. */
    method Recv() returns (r: Received)
      modifies this, stream`unread
      ensures r == Outcome(old(Pending()), old(Ends(stream.unread)))
      ensures Pending() == match Deframe(old(Pending())) case Whole(_, rest) => rest case _ => old(Pending())
      ensures Ends(stream.unread) == old(Ends(stream.unread))
      ensures stream.written == old(stream.written) && stream.room == old(stream.room)
    {
      while true
        invariant Pending() == old(Pending())
        invariant Ends(stream.unread) == old(Ends(stream.unread))
        decreases |stream.unread|
      {
        DeframeMore(recvBuf, Arriving(stream.unread));
        var x25Packet := Decode();
        if x25Packet.Err? {
          return Failed(x25Packet.error);
        }
        if x25Packet.value.Some? {
          return Packet(x25Packet.value.value);
        }
        if stream.unread == [] {
          assert recvBuf + [] == recvBuf;
          return Blocked;
        }
        var buf := stream.unread[0];
        if |buf| == 0 {
          assert recvBuf + [] == recvBuf;
          return Failed(NotConnected);
        }
        Assoc(recvBuf, buf, Arriving(stream.unread[1..]));
        stream.unread := stream.unread[1..];
        recvBuf := recvBuf + buf;
      }
    }

    /** Sends a packet: all of its frame, or nothing. */
    method Send(packet: seq<Byte>) returns (r: Result<()>)
      modifies stream`written, stream`room
      ensures r.Ok? <==> Frame(packet).Ok? && old(stream.room) > 0
      ensures stream.written == if r.Ok? then old(stream.written) + Frame(packet).value else old(stream.written)
      ensures stream.room == if r.Ok? then old(stream.room) - 1 else old(stream.room)
    {
      var len := |packet|;
      if len < MIN_PACKET_LEN {
        return Err(TooShort);
      }
      if len > MAX_PACKET_LEN {
        return Err(TooLong);
      }
      var buf := new BytesMut();
      buf.PutU16(0);
      buf.PutU16(len);
      buf.PutSlice(packet);
      assert buf.data == Frame(packet).value;
      var ok := stream.WriteAll(buf.data);
      return if ok then Ok(()) else Err(NotConnected);
    }
  }

  /** Receiving until something else than a packet comes up. */
  method RecvAll(link: XotLink) returns (packets: seq<seq<Byte>>, last: Received)
    modifies link, link.stream`unread
    ensures packets == PacketsIn(old(link.Pending())) && link.Pending() == Leftover(old(link.Pending()))
    ensures last == Outcome(link.Pending(), old(Ends(link.stream.unread)))
  {
    packets := [];
    ghost var all := link.Pending();
    ghost var ends := Ends(link.stream.unread);
    while true
      invariant packets + PacketsIn(link.Pending()) == PacketsIn(all)
      invariant Leftover(link.Pending()) == Leftover(all)
      invariant Ends(link.stream.unread) == ends
      decreases |link.Pending()|
    {
      NextOf(packets, link.Pending());
      last := link.Recv();
      if !last.Packet? {
        break;
      }
      packets := packets + [last.packet];
    }
  }

  lemma NextOf(packets: seq<seq<Byte>>, stream: seq<Byte>)
    ensures match Deframe(stream)
            case Whole(packet, rest) =>
              && packets + PacketsIn(stream) == packets + [packet] + PacketsIn(rest)
              && Leftover(stream) == Leftover(rest) && |rest| < |stream|
            case _ => packets + PacketsIn(stream) == packets && Leftover(stream) == stream
  {
    match Deframe(stream)
    case Whole(packet, rest) =>
      FirstPacket(stream, packet, rest);
      PacketsAssoc(packets, [packet], PacketsIn(rest));
    case _ =>
      PacketsAssoc(packets, [], []);
  }

  lemma PacketsAssoc(a: seq<seq<Byte>>, b: seq<seq<Byte>>, c: seq<seq<Byte>>)
    ensures a + (b + c) == a + b + c && a + [] == a
  {
  }
}
