/** X.25 packets (`packet.rs`) and the byte strings they stand for, following the
    packet formats of section 5 of ITU-T X.25. Nibbles and flag bits are taken
    apart with division and remainder by powers of two. */
module Packets {
  import opened Wrappers
  import opened Seq
  import opened X121
  import opened Facilities

  const MIN_PACKET_LEN := 3
  const MAX_PACKET_LEN := 7 + 4096
  const MAX_CHANNEL := 4095
  const MAX_CALL_LEN := 259

  type Channel = x: int | 0 <= x < 65536

  datatype CallRequest = CallRequest(
    modulo: Modulo, channel: Channel, called: X121Addr, calling: X121Addr,
    facilities: seq<Facility>, userData: seq<Byte>)

  datatype CallAccept = CallAccept(
    modulo: Modulo, channel: Channel, called: X121Addr, calling: X121Addr,
    facilities: seq<Facility>, userData: seq<Byte>)

  datatype ClearRequest = ClearRequest(
    modulo: Modulo, channel: Channel, cause: Byte, diagnostic: Byte,
    called: X121Addr, calling: X121Addr,
    facilities: seq<Facility>, userData: seq<Byte>)

  datatype ClearConfirm = ClearConfirm(
    modulo: Modulo, channel: Channel, called: X121Addr, calling: X121Addr,
    facilities: seq<Facility>)

  datatype Data = Data(
    modulo: Modulo, channel: Channel, sendSeq: Byte, recvSeq: Byte,
    qualifier: bool, delivery: bool, more: bool, userData: seq<Byte>)

  datatype Packet =
    | CallRequestPacket(callRequest: CallRequest)
    | CallAcceptPacket(callAccept: CallAccept)
    | ClearRequestPacket(clearRequest: ClearRequest)
    | ClearConfirmPacket(clearConfirm: ClearConfirm)
    | DataPacket(data: Data)
    | ReceiveReady(modulo: Modulo, channel: Channel, recvSeq: Byte)
    | ReceiveNotReady(modulo: Modulo, channel: Channel, recvSeq: Byte)
    | ResetRequest(modulo: Modulo, channel: Channel, cause: Byte, diagnostic: Byte)
    | ResetConfirm(modulo: Modulo, channel: Channel)

  function Bit(b: bool): Byte {
    if b then 1 else 0
  }

  // Header

  function Gfi(modulo: Modulo): Byte {
    match modulo
    case Normal => 1
    case Extended => 2
  }

  /** General format identifier, channel and type; `flags` holds the two upper
      bits of the identifier. */
  function EncodeHeader(modulo: Modulo, flags: Byte, channel: Channel, kind: Byte): (r: Result<seq<Byte>>)
    requires flags % 4 == 0 && flags < 16
    ensures r.Ok? ==> |r.value| == 3
  {
    if channel > MAX_CHANNEL then Err(BadChannel)
    else Ok([(Gfi(modulo) + flags) * 16 + channel / 256, channel % 256, kind])
  }

  datatype Header = Header(modulo: Modulo, gfi: Byte, channel: Channel, kind: Byte)

  function DecodeHeader(buf: seq<Byte>): Result<Header> {
    if |buf| < 3 then Err(TooShort)
    else
      var gfi := buf[0] / 16;
      var channel: Channel := (buf[0] as int) % 16 * 256 + buf[1];
      match gfi % 4
      case 1 => Ok(Header(Normal, gfi, channel, buf[2]))
      case 2 => Ok(Header(Extended, gfi, channel, buf[2]))
      case _ => Err(BadModulo)
  }

  lemma HeaderRoundTrip(modulo: Modulo, flags: Byte, channel: Channel, kind: Byte, rest: seq<Byte>)
    requires flags in {0, 4, 8, 12} && channel <= MAX_CHANNEL
    ensures DecodeHeader(EncodeHeader(modulo, flags, channel, kind).value + rest)
         == Ok(Header(modulo, Gfi(modulo) + flags, channel, kind))
  {
  }

  // Address block

  function PackPair(high: Byte, low: Byte): Byte
    requires high < 16 && low < 16
  {
    high * 16 + low
  }

  /** Digits two to a byte, the last half byte zero when their number is odd. */
  function Pack(digits: seq<Digit>): (packed: seq<Byte>)
    ensures |packed| == (|digits| + 1) / 2
  {
    if digits == [] then []
    else if |digits| == 1 then [PackPair(digits[0], 0)]
    else [PackPair(digits[0], digits[1])] + Pack(digits[2..])
  }

  function Unpack(packed: seq<Byte>): (nibbles: seq<Byte>)
    ensures |nibbles| == 2 * |packed|
  {
    if packed == [] then [] else [packed[0] / 16, packed[0] % 16] + Unpack(packed[1..])
  }

  function EncodeAddrBlock(called: X121Addr, calling: X121Addr): seq<Byte> {
    [PackPair(|calling.digits|, |called.digits|)] + Pack(called.digits + calling.digits)
  }

  /** The called and the calling address, and the bytes after the block. */
  function DecodeAddrBlock(buf: seq<Byte>): (r: Result<(X121Addr, X121Addr, seq<Byte>)>)
    ensures r.Ok? ==> |r.value.2| < |buf|
  {
    if |buf| < 1 then Err(TooShort)
    else
      var callingLen := buf[0] / 16;
      var calledLen := buf[0] % 16;
      var total := calledLen + callingLen;
      var len := total / 2 + total % 2;
      if |buf| - 1 < len then Err(Incomplete)
      else
        var nibbles := Unpack(buf[1..1 + len]);
        var called :- FromDigits(nibbles[..calledLen]);
        var calling :- FromDigits(nibbles[calledLen..total]);
        Ok((called, calling, buf[1 + len..]))
  }

  lemma {:induction false} UnpackOfPack(digits: seq<Digit>)
    ensures Unpack(Pack(digits))[..|digits|] == digits
  {
    if |digits| >= 2 {
      UnpackOfPack(digits[2..]);
      assert digits == digits[..2] + digits[2..];
    }
  }

  /** Two addresses share a byte when the first has an odd number of digits; both
      come back, and exactly the bytes after the block remain. */
  lemma AddrBlockRoundTrip(called: X121Addr, calling: X121Addr, rest: seq<Byte>)
    ensures DecodeAddrBlock(EncodeAddrBlock(called, calling) + rest) == Ok((called, calling, rest))
  {
    var digits := called.digits + calling.digits;
    var packed := Pack(digits);
    var buf := EncodeAddrBlock(called, calling) + rest;
    assert buf[0] / 16 == |calling.digits| && buf[0] % 16 == |called.digits|;
    assert buf[1..1 + |packed|] == packed && buf[1 + |packed|..] == rest;
    assert digits <= Unpack(packed) by {
      UnpackOfPack(digits);
    }
    SplitDigits(Unpack(packed), called, calling);
  }

  lemma SplitDigits(nibbles: seq<Byte>, called: X121Addr, calling: X121Addr)
    requires called.digits + calling.digits <= nibbles
    ensures FromDigits(nibbles[..|called.digits|]) == Ok(called)
    ensures FromDigits(nibbles[|called.digits|..|called.digits| + |calling.digits|]) == Ok(calling)
  {
    var digits := called.digits + calling.digits;
    assert digits == nibbles[..|digits|];
    assert called.digits == digits[..|called.digits|] == nibbles[..|called.digits|];
    assert calling.digits == digits[|called.digits|..] == nibbles[|called.digits|..|digits|];
    FromDigitsInverse(called);
    FromDigitsInverse(calling);
  }

  lemma FromDigitsInverse(a: X121Addr)
    ensures FromDigits(a.digits) == Ok(a)
  {
    assert forall d: Byte | d in a.digits :: d <= 9;
  }

  // Facilities block

  function EncodeFacilitiesBlock(facilities: seq<Facility>): (r: Result<seq<Byte>>)
    ensures r.Ok? ==> 1 <= |r.value| <= 256
  {
    var block :- EncodeList(facilities, {});
    if |block| > 255 then Err(TooLong) else Ok([|block|] + block)
  }

  function DecodeFacilitiesBlock(buf: seq<Byte>): Result<(seq<Facility>, seq<Byte>)> {
    if |buf| < 1 then Err(TooShort)
    else if |buf| - 1 < buf[0] then Err(Incomplete)
    else
      var facilities :- DecodeList(buf[1..1 + buf[0]], {});
      Ok((facilities, buf[1 + buf[0]..]))
  }

  lemma FacilitiesBlockRoundTrip(facilities: seq<Facility>, rest: seq<Byte>)
    requires AllCanonical(facilities) && EncodeFacilitiesBlock(facilities).Ok?
    ensures DecodeFacilitiesBlock(EncodeFacilitiesBlock(facilities).value + rest) == Ok((facilities, rest))
  {
    ListRoundTrip(facilities, {});
    var block := EncodeList(facilities, {}).value;
    var buf := [|block|] + block + rest;
    assert buf[1..1 + |block|] == block;
    assert buf[1 + |block|..] == rest;
  }

  lemma FacilitiesBlockInverse(buf: seq<Byte>)
    requires DecodeFacilitiesBlock(buf).Ok?
    ensures var (facilities, rest) := DecodeFacilitiesBlock(buf).value;
            && AllCanonical(facilities)
            && EncodeFacilitiesBlock(facilities).Ok?
            && EncodeFacilitiesBlock(facilities).value + rest == buf
  {
    var block := buf[1..1 + buf[0]];
    DecodeIsInjective(block, {});
    assert buf == [buf[0]] + block + buf[1 + buf[0]..];
  }

  // Packets to bytes

  function Limited(packet: seq<Byte>): (r: Result<seq<Byte>>)
    ensures r.Ok? ==> r.value == packet
  {
    if |packet| > MAX_CALL_LEN then Err(TooLong) else Ok(packet)
  }

  /** The blocks a call accept or clear request carries only when it needs them. */
  function EncodeOptionalBlocks(called: X121Addr, calling: X121Addr,
                                facilities: seq<Facility>, userData: seq<Byte>): Result<seq<Byte>>
  {
    if called.IsNull() && calling.IsNull() && facilities == [] && userData == [] then Ok([])
    else
      var block :- EncodeFacilitiesBlock(facilities);
      Ok(EncodeAddrBlock(called, calling) + block)
  }

  function EncodeCallRequest(p: CallRequest): Result<seq<Byte>> {
    var header :- EncodeHeader(p.modulo, 0, p.channel, 0x0b);
    var block :- EncodeFacilitiesBlock(p.facilities);
    Limited(header + EncodeAddrBlock(p.called, p.calling) + block + p.userData)
  }

  function EncodeCallAccept(p: CallAccept): Result<seq<Byte>> {
    var header :- EncodeHeader(p.modulo, 0, p.channel, 0x0f);
    var blocks :- EncodeOptionalBlocks(p.called, p.calling, p.facilities, p.userData);
    Limited(header + blocks + p.userData)
  }

  predicate ClearIsShort(p: ClearRequest) {
    p.called.IsNull() && p.calling.IsNull() && p.facilities == [] && p.userData == []
  }

  function EncodeClearRequest(p: ClearRequest): Result<seq<Byte>> {
    var header :- EncodeHeader(p.modulo, 0, p.channel, 0x13);
    var diagnostic: seq<Byte> := if p.diagnostic > 0 || !ClearIsShort(p) then [p.diagnostic] else [];
    var blocks :- EncodeOptionalBlocks(p.called, p.calling, p.facilities, p.userData);
    Limited(header + [p.cause] + diagnostic + blocks + p.userData)
  }

  function EncodeClearConfirm(p: ClearConfirm): Result<seq<Byte>> {
    var header :- EncodeHeader(p.modulo, 0, p.channel, 0x17);
    var addrs := if p.called.IsNull() && p.calling.IsNull() && p.facilities == [] then []
                 else EncodeAddrBlock(p.called, p.calling);
    var block :- if p.facilities == [] then Ok([]) else EncodeFacilitiesBlock(p.facilities);
    Limited(header + addrs + block)
  }

  function DataFlags(p: Data): Byte {
    Bit(p.qualifier) * 8 + Bit(p.delivery) * 4
  }

  function EncodeData(p: Data): Result<seq<Byte>> {
    if p.sendSeq >= p.modulo.Size() then Err(BadSequence)
    else if p.recvSeq >= p.modulo.Size() then Err(BadSequence)
    else
      match p.modulo
      case Normal =>
        var header :- EncodeHeader(p.modulo, DataFlags(p), p.channel,
                                   p.recvSeq * 32 + Bit(p.more) * 16 + p.sendSeq * 2);
        Ok(header + p.userData)
      case Extended =>
        var header :- EncodeHeader(p.modulo, DataFlags(p), p.channel, p.sendSeq * 2);
        Ok(header + [p.recvSeq * 2 + Bit(p.more)] + p.userData)
  }

  /** Receive ready and receive not ready differ only in `kind`, 1 or 5. */
  function EncodeReceive(modulo: Modulo, channel: Channel, recvSeq: Byte, kind: Byte): Result<seq<Byte>>
    requires kind < 32
  {
    if recvSeq >= modulo.Size() then Err(BadSequence)
    else
      match modulo
      case Normal => EncodeHeader(modulo, 0, channel, recvSeq * 32 + kind)
      case Extended =>
        var header :- EncodeHeader(modulo, 0, channel, kind);
        Ok(header + [recvSeq * 2])
  }

  function EncodeResetRequest(modulo: Modulo, channel: Channel, cause: Byte, diagnostic: Byte): Result<seq<Byte>> {
    var header :- EncodeHeader(modulo, 0, channel, 0x1b);
    Ok(header + [cause] + if diagnostic > 0 then [diagnostic] else [])
  }

  function EncodePacket(p: Packet): Result<seq<Byte>> {
    match p
    case CallRequestPacket(p) => EncodeCallRequest(p)
    case CallAcceptPacket(p) => EncodeCallAccept(p)
    case ClearRequestPacket(p) => EncodeClearRequest(p)
    case ClearConfirmPacket(p) => EncodeClearConfirm(p)
    case DataPacket(p) => EncodeData(p)
    case ReceiveReady(modulo, channel, recvSeq) => EncodeReceive(modulo, channel, recvSeq, 0x01)
    case ReceiveNotReady(modulo, channel, recvSeq) => EncodeReceive(modulo, channel, recvSeq, 0x05)
    case ResetRequest(modulo, channel, cause, diagnostic) => EncodeResetRequest(modulo, channel, cause, diagnostic)
    case ResetConfirm(modulo, channel) => EncodeHeader(modulo, 0, channel, 0x1f)
  }

  // Bytes to packets

  /** Addresses and facilities, each block optional when nothing follows. */
  function DecodeOptionalBlocks(buf: seq<Byte>): Result<(X121Addr, X121Addr, seq<Facility>, seq<Byte>)> {
    if buf == [] then Ok((X121.NULL, X121.NULL, [], []))
    else
      var (called, calling, buf) :- DecodeAddrBlock(buf);
      if buf == [] then Ok((called, calling, [], []))
      else
        var (facilities, buf) :- DecodeFacilitiesBlock(buf);
        Ok((called, calling, facilities, buf))
  }

  function DecodeCallRequest(buf: seq<Byte>, h: Header): Result<Packet> {
    if |buf| < 5 then Err(TooShort)
    else if |buf| > MAX_CALL_LEN then Err(TooLong)
    else
      var (called, calling, buf) :- DecodeAddrBlock(buf[3..]);
      var (facilities, buf) :- DecodeFacilitiesBlock(buf);
      Ok(CallRequestPacket(CallRequest(h.modulo, h.channel, called, calling, facilities, buf)))
  }

  function DecodeCallAccept(buf: seq<Byte>, h: Header): Result<Packet> {
    if |buf| < 3 then Err(TooShort)
    else if |buf| > MAX_CALL_LEN then Err(TooLong)
    else
      var (called, calling, facilities, buf) :- DecodeOptionalBlocks(buf[3..]);
      Ok(CallAcceptPacket(CallAccept(h.modulo, h.channel, called, calling, facilities, buf)))
  }

  function DecodeClearRequest(buf: seq<Byte>, h: Header): Result<Packet> {
    if |buf| < 4 then Err(TooShort)
    else if |buf| > MAX_CALL_LEN then Err(TooLong)
    else if h.gfi / 4 % 2 != 0 then Err(BadGfi)
    else
      var diagnostic := if |buf| > 4 then buf[4] else 0;
      var (called, calling, facilities, rest) :- DecodeOptionalBlocks(if |buf| > 4 then buf[5..] else []);
      Ok(ClearRequestPacket(
           ClearRequest(h.modulo, h.channel, buf[3], diagnostic, called, calling, facilities, rest)))
  }

  /** Bytes after the facilities are ignored. */
  function DecodeClearConfirm(buf: seq<Byte>, h: Header): Result<Packet> {
    if |buf| < 3 then Err(TooShort)
    else if |buf| > MAX_CALL_LEN then Err(TooLong)
    else if h.gfi / 4 % 2 != 0 then Err(BadGfi)
    else
      var (called, calling, facilities, _) :- DecodeOptionalBlocks(buf[3..]);
      Ok(ClearConfirmPacket(ClearConfirm(h.modulo, h.channel, called, calling, facilities)))
  }

  function DecodeData(buf: seq<Byte>, h: Header): Result<Packet> {
    match h.modulo
    case Normal =>
      if |buf| < 3 then Err(TooShort)
      else
        Ok(DataPacket(Data(Normal, h.channel, buf[2] / 2 % 8, buf[2] / 32,
                           h.gfi / 8 % 2 == 1, h.gfi / 4 % 2 == 1, buf[2] / 16 % 2 == 1, buf[3..])))
    case Extended =>
      if |buf| < 4 then Err(TooShort)
      else
        Ok(DataPacket(Data(Extended, h.channel, buf[2] / 2, buf[3] / 2,
                           h.gfi / 8 % 2 == 1, h.gfi / 4 % 2 == 1, buf[3] % 2 == 1, buf[4..])))
  }

  /** The receive sequence number of a receive ready (`kind` 1) or receive not
      ready (`kind` 5) packet. */
  function DecodeReceive(buf: seq<Byte>, h: Header, kind: Byte): Result<Byte> {
    var expected := match h.modulo case Normal => 3 case Extended => 4;
    if |buf| < expected then Err(TooShort)
    else if |buf| > expected then Err(TooLong)
    else if h.gfi / 4 % 4 != 0 then Err(BadGfi)
    else if h.modulo == Extended && (h.kind != kind || buf[3] % 2 != 0) then Err(BadType)
    else
      match h.modulo
      case Normal => Ok(buf[2] / 32)
      case Extended => Ok(buf[3] / 2)
  }

  function DecodeResetRequest(buf: seq<Byte>, h: Header): Result<Packet> {
    if |buf| < 4 then Err(TooShort)
    else if |buf| > 5 then Err(TooLong)
    else if h.gfi / 4 % 4 != 0 then Err(BadGfi)
    else Ok(ResetRequest(h.modulo, h.channel, buf[3], if |buf| > 4 then buf[4] else 0))
  }

  function DecodeResetConfirm(buf: seq<Byte>, h: Header): Result<Packet> {
    if |buf| < 3 then Err(TooShort)
    else if |buf| > 3 then Err(TooLong)
    else if h.gfi / 4 % 4 != 0 then Err(BadGfi)
    else Ok(ResetConfirm(h.modulo, h.channel))
  }

  function DecodePacket(buf: seq<Byte>): Result<Packet> {
    if |buf| < MIN_PACKET_LEN then Err(TooShort)
    else if |buf| > MAX_PACKET_LEN then Err(TooLong)
    else
      var h :- DecodeHeader(buf);
      if h.kind == 0x0b then DecodeCallRequest(buf, h)
      else if h.kind == 0x0f then DecodeCallAccept(buf, h)
      else if h.kind == 0x13 then DecodeClearRequest(buf, h)
      else if h.kind == 0x17 then DecodeClearConfirm(buf, h)
      else if h.kind % 2 == 0 then DecodeData(buf, h)
      else if h.kind % 32 == 0x01 then
        var recvSeq :- DecodeReceive(buf, h, 0x01);
        Ok(ReceiveReady(h.modulo, h.channel, recvSeq))
      else if h.kind % 32 == 0x05 then
        var recvSeq :- DecodeReceive(buf, h, 0x05);
        Ok(ReceiveNotReady(h.modulo, h.channel, recvSeq))
      else if h.kind == 0x1b then DecodeResetRequest(buf, h)
      else if h.kind == 0x1f then DecodeResetConfirm(buf, h)
      else Err(BadType)
  }
}
