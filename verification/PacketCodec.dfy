/** The packet encoders, which append to a buffer and count, and the decoders that
    consume a cursor (`packet.rs`), against the mapping of module `Packets`. The
    remaining decoders of the source consume nothing and are functions there. */
module PacketCodec {
  import opened Wrappers
  import opened Seq
  import opened X121
  import opened Facilities
  import opened Packets
  import opened Buffers
  import opened FacilityCodec

  method WriteHeader(modulo: Modulo, flags: Byte, channel: Channel, kind: Byte, buf: BytesMut) returns (r: Result<nat>)
    requires flags % 4 == 0 && flags < 16
    modifies buf
    ensures Appended(old(buf.data), buf.data, r, EncodeHeader(modulo, flags, channel, kind))
  {
    if channel > MAX_CHANNEL {
      return Err(BadChannel);
    }
    buf.PutU8((Gfi(modulo) + flags) * 16 + channel / 256);
    buf.PutU8(channel % 256);
    buf.PutU8(kind);
    return Ok(3);
  }

  method WriteAddrBlock(called: X121Addr, calling: X121Addr, buf: BytesMut) returns (len: nat)
    modifies buf
    ensures buf.data == old(buf.data) + EncodeAddrBlock(called, calling)
    ensures len == |EncodeAddrBlock(called, calling)|
  {
    buf.PutU8(PackPair(|calling.digits|, |called.digits|));
    len := 1;
    var digits := called.digits + calling.digits;
    ghost var start := buf.data;
    ghost var done: seq<Byte> := [];
    var i := 0;
    assert digits[0..] == digits;
    while i < |digits|
      invariant 0 <= i
      invariant buf.data == start + done && len == 1 + |done|
      invariant done + (if i <= |digits| then Pack(digits[i..]) else []) == Pack(digits)
      decreases |digits| - i
    {
      var high := digits[i];
      var low := if i + 1 < |digits| then digits[i + 1] else 0;
      buf.PutU8(PackPair(high, low));
      len := len + 1;
      Assoc(start, done, [PackPair(high, low)]);
      if i + 1 < |digits| {
        assert digits[i..][2..] == digits[i + 2..];
        Assoc(done, [PackPair(high, low)], Pack(digits[i + 2..]));
      } else {
        assert digits[i..] == [high];
      }
      done := done + [PackPair(high, low)];
      i := i + 2;
    }
    assert done + [] == done;
    Assoc(old(buf.data), [PackPair(|calling.digits|, |called.digits|)], done);
  }

  method WriteFacilitiesBlock(facilities: seq<Facility>, buf: BytesMut) returns (r: Result<nat>)
    modifies buf
    ensures Appended(old(buf.data), buf.data, r, EncodeFacilitiesBlock(facilities))
  {
    var block := new BytesMut();
    var len :- EncodeFacilities(facilities, block);
    assert block.data == EncodeList(facilities, {}).value;
    if len > 255 {
      return Err(TooLong);
    }
    buf.PutU8(len);
    buf.PutSlice(block.data);
    Assoc(old(buf.data), [len], block.data);
    return Ok(1 + len);
  }

  method WriteCallRequest(p: CallRequest, buf: BytesMut) returns (r: Result<nat>)
    modifies buf
    ensures Appended(old(buf.data), buf.data, r, EncodeCallRequest(p))
  {
    ghost var start := buf.data;
    var len := 0;
    var n :- WriteHeader(p.modulo, 0, p.channel, 0x0b, buf);
    len := len + n;
    ghost var out := EncodeHeader(p.modulo, 0, p.channel, 0x0b).value;
    n := WriteAddrBlock(p.called, p.calling, buf);
    len := len + n;
    Assoc(start, out, EncodeAddrBlock(p.called, p.calling));
    out := out + EncodeAddrBlock(p.called, p.calling);
    n :- WriteFacilitiesBlock(p.facilities, buf);
    len := len + n;
    Assoc(start, out, EncodeFacilitiesBlock(p.facilities).value);
    out := out + EncodeFacilitiesBlock(p.facilities).value;
    if p.userData != [] {
      buf.PutSlice(p.userData);
      len := len + |p.userData|;
    }
    Assoc(start, out, p.userData);
    if len > MAX_CALL_LEN {
      return Err(TooLong);
    }
    return Ok(len);
  }

  method WriteOptionalBlocks(called: X121Addr, calling: X121Addr, facilities: seq<Facility>, userData: seq<Byte>,
                             buf: BytesMut)
    returns (r: Result<nat>)
    modifies buf
    ensures Appended(old(buf.data), buf.data, r, EncodeOptionalBlocks(called, calling, facilities, userData))
  {
    var hasAddr := !called.IsNull() || !calling.IsNull();
    var hasFacilities := facilities != [];
    var hasUserData := userData != [];
    var len := 0;
    if hasAddr || hasFacilities || hasUserData {
      len := WriteAddrBlock(called, calling, buf);
      var n :- WriteFacilitiesBlock(facilities, buf);
      len := len + n;
    }
    return Ok(len);
  }

  method WriteCallAccept(p: CallAccept, buf: BytesMut) returns (r: Result<nat>)
    modifies buf
    ensures Appended(old(buf.data), buf.data, r, EncodeCallAccept(p))
  {
    ghost var start := buf.data;
    var len := 0;
    var n :- WriteHeader(p.modulo, 0, p.channel, 0x0f, buf);
    len := len + n;
    ghost var out := EncodeHeader(p.modulo, 0, p.channel, 0x0f).value;
    n :- WriteOptionalBlocks(p.called, p.calling, p.facilities, p.userData, buf);
    len := len + n;
    ghost var blocks := EncodeOptionalBlocks(p.called, p.calling, p.facilities, p.userData).value;
    Assoc(start, out, blocks);
    out := out + blocks;
    if p.userData != [] {
      buf.PutSlice(p.userData);
      len := len + |p.userData|;
    }
    Assoc(start, out, p.userData);
    if len > MAX_CALL_LEN {
      return Err(TooLong);
    }
    return Ok(len);
  }

  method WriteClearRequest(p: ClearRequest, buf: BytesMut) returns (r: Result<nat>)
    modifies buf
    ensures Appended(old(buf.data), buf.data, r, EncodeClearRequest(p))
  {
    ghost var start := buf.data;
    var len := 0;
    var n :- WriteHeader(p.modulo, 0, p.channel, 0x13, buf);
    len := len + n;
    ghost var out := EncodeHeader(p.modulo, 0, p.channel, 0x13).value;
    buf.PutU8(p.cause);
    len := len + 1;
    Assoc(start, out, [p.cause]);
    out := out + [p.cause];
    ghost var diagnostic: seq<Byte> := [];
    if p.diagnostic > 0 || !ClearIsShort(p) {
      buf.PutU8(p.diagnostic);
      len := len + 1;
      diagnostic := [p.diagnostic];
    }
    Assoc(start, out, diagnostic);
    out := out + diagnostic;
    n :- WriteOptionalBlocks(p.called, p.calling, p.facilities, p.userData, buf);
    len := len + n;
    ghost var blocks := EncodeOptionalBlocks(p.called, p.calling, p.facilities, p.userData).value;
    Assoc(start, out, blocks);
    out := out + blocks;
    if p.userData != [] {
      buf.PutSlice(p.userData);
      len := len + |p.userData|;
    }
    Assoc(start, out, p.userData);
    if len > MAX_CALL_LEN {
      return Err(TooLong);
    }
    return Ok(len);
  }

  method WriteClearConfirm(p: ClearConfirm, buf: BytesMut) returns (r: Result<nat>)
    modifies buf
    ensures Appended(old(buf.data), buf.data, r, EncodeClearConfirm(p))
  {
    var len := 0;
    var n :- WriteHeader(p.modulo, 0, p.channel, 0x17, buf);
    len := len + n;
    var hasAddr := !p.called.IsNull() || !p.calling.IsNull();
    ghost var addrs: seq<Byte> := [];
    ghost var block: seq<Byte> := [];
    if hasAddr || p.facilities != [] {
      n := WriteAddrBlock(p.called, p.calling, buf);
      len := len + n;
      addrs := EncodeAddrBlock(p.called, p.calling);
    }
    if p.facilities != [] {
      n :- WriteFacilitiesBlock(p.facilities, buf);
      len := len + n;
      block := EncodeFacilitiesBlock(p.facilities).value;
    }
    ghost var header := EncodeHeader(p.modulo, 0, p.channel, 0x17).value;
    Assoc(old(buf.data), header, addrs);
    Assoc(old(buf.data), header + addrs, block);
    if len > MAX_CALL_LEN {
      return Err(TooLong);
    }
    return Ok(len);
  }

  method WriteData(p: Data, buf: BytesMut) returns (r: Result<nat>)
    modifies buf
    ensures Appended(old(buf.data), buf.data, r, EncodeData(p))
  {
    if p.sendSeq >= p.modulo.Size() {
      return Err(BadSequence);
    }
    if p.recvSeq >= p.modulo.Size() {
      return Err(BadSequence);
    }
    var len := 0;
    match p.modulo {
      case Normal =>
        var n :- WriteHeader(p.modulo, DataFlags(p), p.channel, p.recvSeq * 32 + Bit(p.more) * 16 + p.sendSeq * 2, buf);
        len := len + n;
      case Extended =>
        var n :- WriteHeader(p.modulo, DataFlags(p), p.channel, p.sendSeq * 2, buf);
        len := len + n;
        buf.PutU8(p.recvSeq * 2 + Bit(p.more));
        len := len + 1;
    }
    buf.PutSlice(p.userData);
    len := len + |p.userData|;
    assert buf.data == old(buf.data) + EncodeData(p).value;
    return Ok(len);
  }

  method WriteReceive(modulo: Modulo, channel: Channel, recvSeq: Byte, kind: Byte, buf: BytesMut) returns (r: Result<nat>)
    requires kind < 32
    modifies buf
    ensures Appended(old(buf.data), buf.data, r, EncodeReceive(modulo, channel, recvSeq, kind))
  {
    if recvSeq >= modulo.Size() {
      return Err(BadSequence);
    }
    match modulo {
      case Normal =>
        var n :- WriteHeader(modulo, 0, channel, recvSeq * 32 + kind, buf);
        return Ok(n);
      case Extended =>
        var n :- WriteHeader(modulo, 0, channel, kind, buf);
        buf.PutU8(recvSeq * 2);
        return Ok(n + 1);
    }
  }

  method WriteResetRequest(modulo: Modulo, channel: Channel, cause: Byte, diagnostic: Byte, buf: BytesMut)
    returns (r: Result<nat>)
    modifies buf
    ensures Appended(old(buf.data), buf.data, r, EncodeResetRequest(modulo, channel, cause, diagnostic))
  {
    var len :- WriteHeader(modulo, 0, channel, 0x1b, buf);
    buf.PutU8(cause);
    len := len + 1;
    if diagnostic > 0 {
      buf.PutU8(diagnostic);
      len := len + 1;
    }
    assert buf.data == old(buf.data) + EncodeResetRequest(modulo, channel, cause, diagnostic).value;
    return Ok(len);
  }

  method WritePacket(p: Packet, buf: BytesMut) returns (r: Result<nat>)
    modifies buf
    ensures Appended(old(buf.data), buf.data, r, EncodePacket(p))
  {
    match p
    case CallRequestPacket(p) => r := WriteCallRequest(p, buf);
    case CallAcceptPacket(p) => r := WriteCallAccept(p, buf);
    case ClearRequestPacket(p) => r := WriteClearRequest(p, buf);
    case ClearConfirmPacket(p) => r := WriteClearConfirm(p, buf);
    case DataPacket(p) => r := WriteData(p, buf);
    case ReceiveReady(modulo, channel, recvSeq) => r := WriteReceive(modulo, channel, recvSeq, 0x01, buf);
    case ReceiveNotReady(modulo, channel, recvSeq) => r := WriteReceive(modulo, channel, recvSeq, 0x05, buf);
    case ResetRequest(modulo, channel, cause, diagnostic) => r := WriteResetRequest(modulo, channel, cause, diagnostic, buf);
    case ResetConfirm(modulo, channel) => r := WriteHeader(modulo, 0, channel, 0x1f, buf);
  }

  // Decoders

  lemma Rest(all: seq<Byte>, len: nat)
    requires 1 + len <= |all|
    ensures all[1..][..len] == all[1..1 + len] && all[1..][len..] == all[1 + len..]
  {
  }

  /** The half bytes of an address block, and how many of them belong to the called
      and the calling address. */
  method ReadNibbles(buf: Bytes) returns (r: Result<(seq<Byte>, nat, nat)>)
    modifies buf
    ensures r.Ok? ==>
              var (nibbles, calledLen, callingLen) := r.value;
              && old(buf.data) != [] && calledLen == old(buf.data)[0] % 16 && callingLen == old(buf.data)[0] / 16
              && (var len := (calledLen + callingLen) / 2 + (calledLen + callingLen) % 2;
                  && len < |old(buf.data)|
                  && nibbles == Unpack(old(buf.data)[1..1 + len])
                  && buf.data == old(buf.data)[1 + len..])
    ensures r.Err? ==> DecodeAddrBlock(old(buf.data)) == Err(r.error)
  {
    if |buf.data| < 1 {
      return Err(TooShort);
    }
    var lens := buf.GetU8();
    var callingLen := lens / 16;
    var calledLen := lens % 16;
    var len := calledLen + callingLen;
    len := len / 2 + len % 2;
    if |buf.data| < len {
      return Err(Incomplete);
    }
    Rest(old(buf.data), len);
    var addrs := buf.SplitTo(len);
    return Ok((Unpack(addrs), calledLen, callingLen));
  }

  method ReadAddrBlock(buf: Bytes) returns (r: Result<(X121Addr, X121Addr)>)
    modifies buf
    ensures match DecodeAddrBlock(old(buf.data))
            case Ok((called, calling, rest)) => r == Ok((called, calling)) && buf.data == rest
            case Err(e) => r == Err(e)
  {
    var read :- ReadNibbles(buf);
    var (nibbles, calledLen, callingLen) := read;
    var called: X121Addr :- FromDigits(nibbles[..calledLen]);
    var calling: X121Addr :- FromDigits(nibbles[calledLen..calledLen + callingLen]);
    return Ok((called, calling));
  }

  method ReadFacilitiesBlock(buf: Bytes) returns (r: Result<seq<Facility>>)
    modifies buf
    ensures match DecodeFacilitiesBlock(old(buf.data))
            case Ok((facilities, rest)) => r == Ok(facilities) && buf.data == rest
            case Err(e) => r == Err(e)
  {
    if |buf.data| < 1 {
      return Err(TooShort);
    }
    var len := buf.GetU8();
    if |buf.data| < len {
      return Err(Incomplete);
    }
    Rest(old(buf.data), len);
    var block := buf.SplitTo(len);
    var cursor := new Bytes(block);
    r := DecodeFacilities(cursor);
  }

  method ReadOptionalBlocks(buf: Bytes) returns (r: Result<(X121Addr, X121Addr, seq<Facility>)>)
    modifies buf
    ensures match DecodeOptionalBlocks(old(buf.data))
            case Ok((called, calling, facilities, rest)) => r == Ok((called, calling, facilities)) && buf.data == rest
            case Err(e) => r == Err(e)
  {
    var addrs := (X121.NULL, X121.NULL);
    if buf.data != [] {
      addrs :- ReadAddrBlock(buf);
    }
    var facilities: seq<Facility> := [];
    if buf.data != [] {
      facilities :- ReadFacilitiesBlock(buf);
    }
    return Ok((addrs.0, addrs.1, facilities));
  }

  method ReadCallRequest(bytes: seq<Byte>, h: Header) returns (r: Result<Packet>)
    ensures r == DecodeCallRequest(bytes, h)
  {
    if |bytes| < 5 {
      return Err(TooShort);
    }
    if |bytes| > MAX_CALL_LEN {
      return Err(TooLong);
    }
    var buf := new Bytes(bytes);
    buf.Advance(3);
    var addrs :- ReadAddrBlock(buf);
    var facilities :- ReadFacilitiesBlock(buf);
    return Ok(CallRequestPacket(CallRequest(h.modulo, h.channel, addrs.0, addrs.1, facilities, buf.data)));
  }

  method ReadCallAccept(bytes: seq<Byte>, h: Header) returns (r: Result<Packet>)
    ensures r == DecodeCallAccept(bytes, h)
  {
    if |bytes| < 3 {
      return Err(TooShort);
    }
    if |bytes| > MAX_CALL_LEN {
      return Err(TooLong);
    }
    var buf := new Bytes(bytes);
    buf.Advance(3);
    var blocks :- ReadOptionalBlocks(buf);
    return Ok(CallAcceptPacket(CallAccept(h.modulo, h.channel, blocks.0, blocks.1, blocks.2, buf.data)));
  }

  method ReadClearRequest(bytes: seq<Byte>, h: Header) returns (r: Result<Packet>)
    ensures r == DecodeClearRequest(bytes, h)
  {
    if |bytes| < 4 {
      return Err(TooShort);
    }
    if |bytes| > MAX_CALL_LEN {
      return Err(TooLong);
    }
    if h.gfi / 4 % 2 != 0 {
      return Err(BadGfi);
    }
    var buf := new Bytes(bytes);
    buf.Advance(3);
    var cause := buf.GetU8();
    var diagnostic: Byte := 0;
    if buf.data != [] {
      diagnostic := buf.GetU8();
    }
    assert buf.data == if |bytes| > 4 then bytes[5..] else [];
    var blocks :- ReadOptionalBlocks(buf);
    return Ok(ClearRequestPacket(
                ClearRequest(h.modulo, h.channel, cause, diagnostic, blocks.0, blocks.1, blocks.2, buf.data)));
  }

  method ReadClearConfirm(bytes: seq<Byte>, h: Header) returns (r: Result<Packet>)
    ensures r == DecodeClearConfirm(bytes, h)
  {
    if |bytes| < 3 {
      return Err(TooShort);
    }
    if |bytes| > MAX_CALL_LEN {
      return Err(TooLong);
    }
    if h.gfi / 4 % 2 != 0 {
      return Err(BadGfi);
    }
    var buf := new Bytes(bytes);
    buf.Advance(3);
    var blocks :- ReadOptionalBlocks(buf);
    return Ok(ClearConfirmPacket(ClearConfirm(h.modulo, h.channel, blocks.0, blocks.1, blocks.2)));
  }

  method ReadData(bytes: seq<Byte>, h: Header) returns (r: Result<Packet>)
    ensures r == DecodeData(bytes, h)
  {
    var headerLen := if h.modulo == Normal then 3 else 4;
    if |bytes| < headerLen {
      return Err(TooShort);
    }
    var qualifier := h.gfi / 8 % 2 == 1;
    var delivery := h.gfi / 4 % 2 == 1;
    var buf := new Bytes(bytes);
    buf.Advance(headerLen);
    match h.modulo {
      case Normal =>
        return Ok(DataPacket(Data(Normal, h.channel, bytes[2] / 2 % 8, bytes[2] / 32,
                                  qualifier, delivery, bytes[2] / 16 % 2 == 1, buf.data)));
      case Extended =>
        return Ok(DataPacket(Data(Extended, h.channel, bytes[2] / 2, bytes[3] / 2,
                                  qualifier, delivery, bytes[3] % 2 == 1, buf.data)));
    }
  }

  method ReadResetRequest(bytes: seq<Byte>, h: Header) returns (r: Result<Packet>)
    ensures r == DecodeResetRequest(bytes, h)
  {
    if |bytes| < 4 {
      return Err(TooShort);
    }
    if |bytes| > 5 {
      return Err(TooLong);
    }
    if h.gfi / 4 % 4 != 0 {
      return Err(BadGfi);
    }
    var buf := new Bytes(bytes);
    buf.Advance(3);
    var cause := buf.GetU8();
    var diagnostic: Byte := 0;
    if buf.data != [] {
      diagnostic := buf.GetU8();
    }
    return Ok(ResetRequest(h.modulo, h.channel, cause, diagnostic));
  }

  method ReadPacket(bytes: seq<Byte>) returns (r: Result<Packet>)
    ensures r == DecodePacket(bytes)
  {
    if |bytes| < MIN_PACKET_LEN {
      return Err(TooShort);
    }
    if |bytes| > MAX_PACKET_LEN {
      return Err(TooLong);
    }
    var h: Header :- DecodeHeader(bytes);
    if h.kind == 0x0b {
      r := ReadCallRequest(bytes, h);
    } else if h.kind == 0x0f {
      r := ReadCallAccept(bytes, h);
    } else if h.kind == 0x13 {
      r := ReadClearRequest(bytes, h);
    } else if h.kind == 0x17 {
      r := ReadClearConfirm(bytes, h);
    } else if h.kind % 2 == 0 {
      r := ReadData(bytes, h);
    } else if h.kind % 32 == 0x01 {
      var recvSeq: Byte :- DecodeReceive(bytes, h, 0x01);
      r := Ok(ReceiveReady(h.modulo, h.channel, recvSeq));
    } else if h.kind % 32 == 0x05 {
      var recvSeq: Byte :- DecodeReceive(bytes, h, 0x05);
      r := Ok(ReceiveNotReady(h.modulo, h.channel, recvSeq));
    } else if h.kind == 0x1b {
      r := ReadResetRequest(bytes, h);
    } else if h.kind == 0x1f {
      r := DecodeResetConfirm(bytes, h);
    } else {
      r := Err(BadType);
    }
  }
}
