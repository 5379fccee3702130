/** The formats on the wire, bit by bit: packets after section 5 of ITU-T X.25, frames
    after RFC 1613, and the messages of ITU-T X.29. */
module Formats {
  import opened Wrappers
  import opened Seq
  import opened X121
  import opened Facilities
  import opened Packets
  import opened PacketBytes
  import opened Labels
  import opened Xot
  import X3
  import opened X29

  // Packets

  /** Modulus and channel are in the first two bytes of every packet: the modulus in bits
      4 and 5, the channel in the twelve bits after them. */
  predicate HasHeader(b: seq<Byte>, modulo: Modulo, channel: Channel) {
    && |b| >= 3
    && b[0] / 16 % 4 == (if modulo == Normal then 1 else 2)
    && (b[0] as int) % 16 * 256 + b[1] == channel
  }

  lemma HeaderFormat(modulo: Modulo, flags: Byte, channel: Channel, kind: Byte, rest: seq<Byte>)
    requires flags in {0, 4, 8, 12} && EncodeHeader(modulo, flags, channel, kind).Ok?
    ensures var b := EncodeHeader(modulo, flags, channel, kind).value + rest;
            HasHeader(b, modulo, channel) && b[0] / 64 == flags / 4 && b[2] == kind && b[3..] == rest
  {
  }

  /** The third byte tells the packets apart. */
  predicate HasType(b: seq<Byte>, p: Packet)
    requires |b| >= 3
  {
    match p
    case CallRequestPacket(_) => b[2] == 0x0b
    case CallAcceptPacket(_) => b[2] == 0x0f
    case ClearRequestPacket(_) => b[2] == 0x13
    case ClearConfirmPacket(_) => b[2] == 0x17
    case DataPacket(_) => b[2] % 2 == 0
    case ReceiveReady(_, _, _) => b[2] % 32 == 0x01
    case ReceiveNotReady(_, _, _) => b[2] % 32 == 0x05
    case ResetRequest(_, _, _, _) => b[2] == 0x1b
    case ResetConfirm(_, _) => b[2] == 0x1f
  }

  /** Data: the Q and D bits at the top of the first byte; P(R), M and P(S) in the third
      byte, or in the third and fourth; the user data after them. */
  predicate HasData(b: seq<Byte>, p: Data)
    requires |b| >= 3
  {
    && b[0] / 128 == Bit(p.qualifier) && b[0] / 64 % 2 == Bit(p.delivery)
    && match p.modulo
       case Normal =>
         && b[2] / 32 == p.recvSeq && b[2] / 16 % 2 == Bit(p.more) && b[2] / 2 % 8 == p.sendSeq
         && b[3..] == p.userData
       case Extended =>
         && |b| >= 4 && b[2] / 2 == p.sendSeq && b[3] / 2 == p.recvSeq && b[3] % 2 == Bit(p.more)
         && b[4..] == p.userData
  }

  predicate HasReceive(b: seq<Byte>, modulo: Modulo, recvSeq: Byte)
    requires |b| >= 3
  {
    match modulo
    case Normal => |b| == 3 && b[2] / 32 == recvSeq
    case Extended => |b| == 4 && b[2] < 32 && b[3] == 2 * recvSeq
  }

  lemma FlagsSplit(p: Data)
    ensures DataFlags(p) in {0, 4, 8, 12}
    ensures DataFlags(p) / 4 / 2 == Bit(p.qualifier) && DataFlags(p) / 4 % 2 == Bit(p.delivery)
  {
  }

  lemma NormalKindSplit(p: Data)
    requires p.sendSeq < 8 && p.recvSeq < 8
    ensures var kind := p.recvSeq * 32 + Bit(p.more) * 16 + p.sendSeq * 2;
            kind % 2 == 0 && kind / 32 == p.recvSeq && kind / 16 % 2 == Bit(p.more) && kind / 2 % 8 == p.sendSeq
  {
  }

  lemma DataFormat(p: Data)
    requires EncodeData(p).Ok?
    ensures var b := EncodeData(p).value;
            HasHeader(b, p.modulo, p.channel) && b[2] % 2 == 0 && HasData(b, p)
  {
    FlagsSplit(p);
    match p.modulo
    case Normal =>
      NormalKindSplit(p);
      HeaderFormat(Normal, DataFlags(p), p.channel, p.recvSeq * 32 + Bit(p.more) * 16 + p.sendSeq * 2, p.userData);
    case Extended =>
      var rest := [p.recvSeq * 2 + Bit(p.more)] + p.userData;
      HeaderFormat(Extended, DataFlags(p), p.channel, p.sendSeq * 2, rest);
      assert EncodeData(p).value == EncodeHeader(Extended, DataFlags(p), p.channel, p.sendSeq * 2).value + rest;
      assert EncodeData(p).value[4..] == rest[1..] == p.userData;
  }

  lemma ReceiveFormat(modulo: Modulo, channel: Channel, recvSeq: Byte, kind: Byte)
    requires kind == 1 || kind == 5
    requires EncodeReceive(modulo, channel, recvSeq, kind).Ok?
    ensures var b := EncodeReceive(modulo, channel, recvSeq, kind).value;
            HasHeader(b, modulo, channel) && b[0] / 64 == 0 && b[2] % 32 == kind && HasReceive(b, modulo, recvSeq)
  {
    match modulo
    case Normal =>
      HeaderFormat(modulo, 0, channel, recvSeq * 32 + kind, []);
      assert EncodeReceive(modulo, channel, recvSeq, kind).value
          == EncodeHeader(modulo, 0, channel, recvSeq * 32 + kind).value + [];
    case Extended => HeaderFormat(modulo, 0, channel, kind, [recvSeq * 2]);
  }

  /** Reset request: cause, and the diagnostic unless it is zero. Reset confirm: nothing. */
  lemma ResetFormat(modulo: Modulo, channel: Channel, cause: Byte, diagnostic: Byte)
    requires channel <= 4095
    ensures var b := EncodeResetRequest(modulo, channel, cause, diagnostic).value;
            && HasHeader(b, modulo, channel) && b[0] / 64 == 0 && b[2] == 0x1b
            && b[3..] == [cause] + if diagnostic == 0 then [] else [diagnostic]
    ensures var b := EncodePacket(ResetConfirm(modulo, channel)).value;
            HasHeader(b, modulo, channel) && b[0] / 64 == 0 && b[2] == 0x1f && |b| == 3
  {
    HeaderFormat(modulo, 0, channel, 0x1b, [cause] + if diagnostic > 0 then [diagnostic] else []);
    HeaderFormat(modulo, 0, channel, 0x1f, []);
    assert EncodeResetRequest(modulo, channel, cause, diagnostic).value
        == EncodeHeader(modulo, 0, channel, 0x1b).value + ([cause] + if diagnostic > 0 then [diagnostic] else []);
    assert EncodePacket(ResetConfirm(modulo, channel)).value == EncodeHeader(modulo, 0, channel, 0x1f).value + [];
  }

  // Addresses and facilities

  /** Half byte `i` of `b`, the upper one of each byte first. */
  function HalfByte(b: seq<Byte>, i: nat): Byte
    requires i < 2 * |b|
  {
    if i % 2 == 0 then b[i / 2] / 16 else b[i / 2] % 16
  }

  lemma HalfByteAfter(first: Byte, rest: seq<Byte>, i: nat)
    requires 2 <= i < 2 + 2 * |rest|
    ensures HalfByte([first] + rest, i) == HalfByte(rest, i - 2)
  {
    assert i / 2 == (i - 2) / 2 + 1;
    assert ([first] + rest)[i / 2] == rest[(i - 2) / 2];
  }

  lemma {:induction false} PackedHalf(digits: seq<Digit>, i: nat)
    requires i < |digits|
    ensures HalfByte(Pack(digits), i) == digits[i]
  {
    if i >= 2 {
      PackedHalf(digits[2..], i - 2);
      HalfByteAfter(PackPair(digits[0], digits[1]), Pack(digits[2..]), i);
    }
  }

  lemma {:induction false} PackedRest(digits: seq<Digit>)
    requires |digits| % 2 == 1
    ensures HalfByte(Pack(digits), |digits|) == 0
  {
    if |digits| > 1 {
      PackedRest(digits[2..]);
      HalfByteAfter(PackPair(digits[0], digits[1]), Pack(digits[2..]), |digits|);
    }
  }

  /** The address block: both lengths in one byte, the calling one in its upper half; then
      the digits of the called and of the calling address, a half byte each without a gap
      between them. */
  lemma AddrFormat(called: X121Addr, calling: X121Addr)
    ensures var b := EncodeAddrBlock(called, calling);
            var n := |called.digits| + |calling.digits|;
            && |b| == 1 + (n + 1) / 2
            && b[0] / 16 == |calling.digits| && b[0] % 16 == |called.digits|
            && (forall i: nat | i < |called.digits| :: HalfByte(b[1..], i) == called.digits[i])
            && (forall i: nat | i < |calling.digits| :: HalfByte(b[1..], |called.digits| + i) == calling.digits[i])
            && (n % 2 == 1 ==> HalfByte(b[1..], n) == 0)
  {
    var digits := called.digits + calling.digits;
    assert EncodeAddrBlock(called, calling)[1..] == Pack(digits);
    forall i: nat | i < |digits|
      ensures HalfByte(Pack(digits), i) == digits[i]
    {
      PackedHalf(digits, i);
    }
    if |digits| % 2 == 1 {
      PackedRest(digits);
    }
    assert forall i: nat | i < |calling.digits| :: digits[|called.digits| + i] == calling.digits[i];
  }

  /** Facilities: packet and window sizes under their codes, the size from the called
      side first, packet sizes by their logarithm; other facilities under their own code,
      those of class D with a length. */
  lemma FacilityFormat(f: Facility)
    requires EncodeParams(f).Ok?
    ensures var (code, params) := (f.Code(), EncodeParams(f).value);
            match f
            case PacketSize(called, calling) =>
              && code == 0x42 && |params| == 2
              && 4 <= params[0] <= 12 && Pow2(params[0]) == called && 4 <= params[1] <= 12 && Pow2(params[1]) == calling
            case WindowSize(called, calling) => code == 0x43 && params == [called, calling]
            case ClassA(c, a0) => code == c < 0x40 && params == [a0]
            case ClassB(c, b0, b1) => 0x40 <= code == c < 0x80 && params == [b0, b1]
            case ClassC(c, c0, c1, c2) => 0x80 <= code == c < 0xc0 && params == [c0, c1, c2]
            case ClassD(c, value) => 0xc0 <= code == c && |params| >= 1 && params[0] == |value| && params[1..] == value
  {
    if f.PacketSize? {
      assert DecodePacketSize(EncodeParams(f).value[0]) == Ok(f.fromCalled);
      assert DecodePacketSize(EncodeParams(f).value[1]) == Ok(f.fromCalling);
    }
  }

  /** A facilities block is its length and its facilities, one after the other. */
  lemma FacilitiesFormat(facilities: seq<Facility>)
    requires EncodeFacilitiesBlock(facilities).Ok?
    ensures var b := EncodeFacilitiesBlock(facilities).value;
            && |b| >= 1 && b[0] == |b| - 1
            && EncodeList(facilities, {}) == Ok(b[1..])
            && (facilities == [] ==> b == [0])
            && (facilities != [] ==>
                  && EncodeParams(facilities[0]).Ok?
                  && EncodeList(facilities[1..], {facilities[0].Code()}).Ok?
                  && b[1..] == [facilities[0].Code()] + EncodeParams(facilities[0]).value
                               + EncodeList(facilities[1..], {facilities[0].Code()}).value)
  {
    if facilities == [] {
      assert EncodeList([], {}) == Ok([]);
    } else {
      assert {} + {facilities[0].Code()} == {facilities[0].Code()};
    }
  }

  // Packets of call set-up and clearing

  lemma CallRequestFormat(p: CallRequest)
    requires EncodeCallRequest(p).Ok?
    ensures EncodeFacilitiesBlock(p.facilities).Ok?
    ensures var b := EncodeCallRequest(p).value;
            && HasHeader(b, p.modulo, p.channel) && b[0] / 64 == 0 && b[2] == 0x0b && |b| <= 259
            && b[3..] == EncodeAddrBlock(p.called, p.calling) + (EncodeFacilitiesBlock(p.facilities).value + p.userData)
  {
    var block := EncodeFacilitiesBlock(p.facilities).value;
    CallRequestLaidOut(p, EncodeHeader(p.modulo, 0, p.channel, 0x0b).value, block);
    HeaderFormat(p.modulo, 0, p.channel, 0x0b, EncodeAddrBlock(p.called, p.calling) + (block + p.userData));
  }

  /** Blocks are left out when there is nothing in them, and only both together. */
  lemma CallAcceptFormat(p: CallAccept)
    requires EncodeCallAccept(p).Ok?
    ensures var bare := p.called.digits == [] && p.calling.digits == [] && p.facilities == [] && p.userData == [];
            var b := EncodeCallAccept(p).value;
            && HasHeader(b, p.modulo, p.channel) && b[0] / 64 == 0 && b[2] == 0x0f && |b| <= 259
            && (bare ==> |b| == 3)
            && (!bare ==>
                  && EncodeFacilitiesBlock(p.facilities).Ok?
                  && b[3..] == EncodeAddrBlock(p.called, p.calling) + EncodeFacilitiesBlock(p.facilities).value + p.userData)
  {
    var blocks := EncodeOptionalBlocks(p.called, p.calling, p.facilities, p.userData).value;
    CallAcceptLaidOut(p, EncodeHeader(p.modulo, 0, p.channel, 0x0f).value, blocks);
    HeaderFormat(p.modulo, 0, p.channel, 0x0f, blocks + p.userData);
  }

  lemma ClearRequestFormat(p: ClearRequest)
    requires EncodeClearRequest(p).Ok?
    ensures var bare := p.called.digits == [] && p.calling.digits == [] && p.facilities == [] && p.userData == [];
            var b := EncodeClearRequest(p).value;
            && HasHeader(b, p.modulo, p.channel) && b[0] / 64 == 0 && b[2] == 0x13 && |b| <= 259
            && (bare ==> b[3..] == [p.cause] + if p.diagnostic == 0 then [] else [p.diagnostic])
            && (!bare ==>
                  && EncodeFacilitiesBlock(p.facilities).Ok?
                  && b[3..] == [p.cause] + ([p.diagnostic]
                               + (EncodeAddrBlock(p.called, p.calling) + EncodeFacilitiesBlock(p.facilities).value
                                  + p.userData)))
  {
    var header := EncodeHeader(p.modulo, 0, p.channel, 0x13).value;
    var blocks := EncodeOptionalBlocks(p.called, p.calling, p.facilities, p.userData).value;
    var code: seq<Byte> := if p.diagnostic > 0 || !ClearIsShort(p) then [p.diagnostic] else [];
    ClearRequestLaidOut(p, header, blocks);
    HeaderFormat(p.modulo, 0, p.channel, 0x13, [p.cause] + (code + (blocks + p.userData)));
    assert ClearIsShort(p) ==> code + ([] + []) == code;
  }

  lemma ClearConfirmFormat(p: ClearConfirm)
    requires EncodeClearConfirm(p).Ok?
    ensures var b := EncodeClearConfirm(p).value;
            && HasHeader(b, p.modulo, p.channel) && b[0] / 64 == 0 && b[2] == 0x17 && |b| <= 259
            && (p.facilities == [] ==>
                  b[3..] == if p.called.digits == [] && p.calling.digits == [] then []
                            else EncodeAddrBlock(p.called, p.calling))
            && (p.facilities != [] ==>
                  && EncodeFacilitiesBlock(p.facilities).Ok?
                  && b[3..] == EncodeAddrBlock(p.called, p.calling) + EncodeFacilitiesBlock(p.facilities).value)
  {
    assert EncodeList([], {}) == Ok([]);
    ClearConfirmLaidOut(p, EncodeHeader(p.modulo, 0, p.channel, 0x17).value);
    HeaderFormat(p.modulo, 0, p.channel, 0x17, ConfirmBlocks(p.called, p.calling, p.facilities));
  }

  /** So every packet says in its first three bytes what it is, on which channel. */
  lemma PacketFormat(p: Packet)
    requires EncodePacket(p).Ok?
    ensures var b := EncodePacket(p).value;
            && HasHeader(b, ModuloOf(p), ChannelOf(p)) && HasType(b, p)
            && (!p.DataPacket? ==> b[0] / 64 == 0)
  {
    match p
    case CallRequestPacket(p) => CallRequestFormat(p);
    case CallAcceptPacket(p) => CallAcceptFormat(p);
    case ClearRequestPacket(p) => ClearRequestFormat(p);
    case ClearConfirmPacket(p) => ClearConfirmFormat(p);
    case DataPacket(p) => DataFormat(p);
    case ReceiveReady(modulo, channel, recvSeq) => ReceiveFormat(modulo, channel, recvSeq, 1);
    case ReceiveNotReady(modulo, channel, recvSeq) => ReceiveFormat(modulo, channel, recvSeq, 5);
    case ResetRequest(modulo, channel, cause, diagnostic) => ResetFormat(modulo, channel, cause, diagnostic);
    case ResetConfirm(modulo, channel) => ResetFormat(modulo, channel, 0, 0);
  }

  // Frames

  /** A frame is version 0, the length in two bytes, the higher first, and the packet of
      3 to 4103 bytes. */
  lemma FrameFormat(packet: seq<Byte>)
    ensures Frame(packet).Ok? <==> 3 <= |packet| <= 4103
    ensures Frame(packet).Ok? ==>
              var f := Frame(packet).value;
              && |f| == 4 + |packet| && f[0] == 0 && f[1] == 0
              && (f[2] as int) * 256 + f[3] == |packet| && f[4..] == packet
  {
  }

  /** The stream is in error exactly when it has a whole header with another version or
      an illegal length, and incomplete exactly when header or packet is. */
  lemma StreamFormat(stream: seq<Byte>)
    ensures Deframe(stream).Partial?
       <==> |stream| < 4 || (stream[0] == 0 && stream[1] == 0
                             && 3 <= (stream[2] as int) * 256 + stream[3] <= 4103
                             && |stream| < 4 + (stream[2] as int) * 256 + stream[3])
    ensures Deframe(stream).Bad?
       <==> |stream| >= 4 && (stream[0] != 0 || stream[1] != 0
                              || (stream[2] as int) * 256 + stream[3] < 3 || (stream[2] as int) * 256 + stream[3] > 4103)
  {
  }

  // Messages between PADs

  lemma {:induction false} PairAt(pairs: seq<(Byte, Byte)>, i: nat)
    requires i < |pairs|
    ensures |PairBytes(pairs)| == 2 * |pairs|
    ensures PairBytes(pairs)[2 * i] == pairs[i].0 && PairBytes(pairs)[2 * i + 1] == pairs[i].1
  {
    PairsRoundTrip(pairs);
    if i > 0 {
      PairAt(pairs[1..], i - 1);
    }
  }

  /** The code of an entry that reports an error. */
  predicate IsErrorCode(code: Byte, error: X3.ParamError) {
    match error
    case Unsupported => code == 1
    case InvalidValue => code == 2
    case Other => code == 0
  }

  /** A message is a code and two bytes for each parameter: its number and its value; a
      value of 0 when it is only asked for; and an error code, with the top bit of the
      number set, when there is no value. */
  lemma MessageFormat(m: PadMessage, i: nat)
    requires InRange(m)
    ensures var e := Encode(m);
            match m
            case Set(request) =>
              && |e| == 1 + 2 * |request| && e[0] == 0x02
              && (i < |request| ==> e[1 + 2 * i] == request[i].0 && e[2 + 2 * i] == request[i].1)
            case Read(request) =>
              && |e| == 1 + 2 * |request| && e[0] == 0x04
              && (i < |request| ==> e[1 + 2 * i] == request[i] && e[2 + 2 * i] == 0)
            case SetRead(request) =>
              && |e| == 1 + 2 * |request| && e[0] == 0x06
              && (i < |request| ==> e[1 + 2 * i] == request[i].0 && e[2 + 2 * i] == request[i].1)
            case Indicate(response) =>
              && |e| == 1 + 2 * |response| && e[0] == 0x00
              && (i < |response| ==>
                    match response[i].1
                    case Value(value) => e[1 + 2 * i] == response[i].0 && e[2 + 2 * i] == value
                    case Refused(error) => e[1 + 2 * i] == response[i].0 + 0x80 && IsErrorCode(e[2 + 2 * i], error))
            case ClearInvitation => e == [0x01]
  {
    match m
    case Set(request) =>
      PairsRoundTrip(request);
      if i < |request| { PairAt(request, i); }
    case Read(request) =>
      PairsRoundTrip(Zeros(request));
      if i < |request| { PairAt(Zeros(request), i); }
    case SetRead(request) =>
      PairsRoundTrip(request);
      if i < |request| { PairAt(request, i); }
    case Indicate(response) =>
      PairsRoundTrip(EntryPairs(response));
      if i < |response| { PairAt(EntryPairs(response), i); }
    case ClearInvitation =>
  }
}
