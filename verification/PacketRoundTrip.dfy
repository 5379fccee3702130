/** Encoding and decoding of packets undo each other: exactly in one direction,
    up to normalisation in the other. */
module PacketRoundTrip {
  import opened Wrappers
  import opened Seq
  import opened X121
  import opened Facilities
  import opened Packets

  predicate CanonicalPacket(p: Packet) {
    match p
    case CallRequestPacket(p) => AllCanonical(p.facilities)
    case CallAcceptPacket(p) => AllCanonical(p.facilities)
    case ClearRequestPacket(p) => AllCanonical(p.facilities)
    case ClearConfirmPacket(p) => AllCanonical(p.facilities)
    case _ => true
  }

  lemma OptionalBlocksRoundTrip(called: X121Addr, calling: X121Addr, facilities: seq<Facility>, userData: seq<Byte>)
    requires AllCanonical(facilities)
    requires EncodeOptionalBlocks(called, calling, facilities, userData).Ok?
    ensures DecodeOptionalBlocks(EncodeOptionalBlocks(called, calling, facilities, userData).value + userData)
         == Ok((called, calling, facilities, userData))
  {
    var blocks := EncodeOptionalBlocks(called, calling, facilities, userData).value;
    if blocks == [] {
      assert blocks + userData == [];
    } else {
      var addrs := EncodeAddrBlock(called, calling);
      var block := EncodeFacilitiesBlock(facilities).value;
      assert blocks + userData == addrs + (block + userData);
      AddrBlockRoundTrip(called, calling, block + userData);
      FacilitiesBlockRoundTrip(facilities, userData);
    }
  }

  /** A header followed by anything decodes to what it was made of. */
  lemma HeaderKind(modulo: Modulo, flags: Byte, channel: Channel, kind: Byte, rest: seq<Byte>)
    requires flags in {0, 4, 8, 12}
    requires EncodeHeader(modulo, flags, channel, kind).Ok?
    ensures var buf := EncodeHeader(modulo, flags, channel, kind).value + rest;
            && DecodeHeader(buf) == Ok(Header(modulo, Gfi(modulo) + flags, channel, kind))
            && buf[2] == kind && buf[3..] == rest
  {
    HeaderRoundTrip(modulo, flags, channel, kind, rest);
  }

  lemma CallRequestRoundTrip(p: CallRequest)
    requires AllCanonical(p.facilities) && EncodeCallRequest(p).Ok?
    ensures DecodePacket(EncodeCallRequest(p).value) == Ok(CallRequestPacket(p))
  {
    var addrs := EncodeAddrBlock(p.called, p.calling);
    var block := EncodeFacilitiesBlock(p.facilities).value;
    var rest := addrs + (block + p.userData);
    assert EncodeCallRequest(p).value == EncodeHeader(p.modulo, 0, p.channel, 0x0b).value + rest;
    HeaderKind(p.modulo, 0, p.channel, 0x0b, rest);
    AddrBlockRoundTrip(p.called, p.calling, block + p.userData);
    FacilitiesBlockRoundTrip(p.facilities, p.userData);
  }

  lemma CallAcceptRoundTrip(p: CallAccept)
    requires AllCanonical(p.facilities) && EncodeCallAccept(p).Ok?
    ensures DecodePacket(EncodeCallAccept(p).value) == Ok(CallAcceptPacket(p))
  {
    var rest := EncodeOptionalBlocks(p.called, p.calling, p.facilities, p.userData).value + p.userData;
    assert EncodeCallAccept(p).value == EncodeHeader(p.modulo, 0, p.channel, 0x0f).value + rest;
    HeaderKind(p.modulo, 0, p.channel, 0x0f, rest);
    OptionalBlocksRoundTrip(p.called, p.calling, p.facilities, p.userData);
  }

  /** What the clear request decoder makes of a header, its two codes and the blocks. */
  lemma ClearRequestBody(buf: seq<Byte>, h: Header, p: ClearRequest)
    requires h.modulo == p.modulo && h.channel == p.channel && h.gfi / 4 % 2 == 0
    requires 4 <= |buf| <= MAX_CALL_LEN && buf[3] == p.cause
    requires |buf| > 4 ==> buf[4] == p.diagnostic
    requires |buf| == 4 ==> p.diagnostic == 0
    requires DecodeOptionalBlocks(if |buf| > 4 then buf[5..] else [])
          == Ok((p.called, p.calling, p.facilities, p.userData))
    ensures DecodeClearRequest(buf, h) == Ok(ClearRequestPacket(p))
  {
  }

  /** The bytes after the header of a clear request. */
  lemma ClearRequestLayout(p: ClearRequest) returns (header: seq<Byte>, diagnostic: seq<Byte>, tail: seq<Byte>)
    requires EncodeClearRequest(p).Ok?
    ensures EncodeHeader(p.modulo, 0, p.channel, 0x13) == Ok(header)
    ensures EncodeClearRequest(p).value == header + ([p.cause] + diagnostic + tail)
    ensures |EncodeClearRequest(p).value| <= MAX_CALL_LEN
    ensures EncodeOptionalBlocks(p.called, p.calling, p.facilities, p.userData).Ok?
    ensures tail == EncodeOptionalBlocks(p.called, p.calling, p.facilities, p.userData).value + p.userData
    ensures diagnostic == [p.diagnostic] || (diagnostic == [] && p.diagnostic == 0 && tail == [])
  {
    header := EncodeHeader(p.modulo, 0, p.channel, 0x13).value;
    diagnostic := if p.diagnostic > 0 || !ClearIsShort(p) then [p.diagnostic] else [];
    var blocks := EncodeOptionalBlocks(p.called, p.calling, p.facilities, p.userData).value;
    tail := blocks + p.userData;
    assert header + [p.cause] + diagnostic + blocks + p.userData == header + ([p.cause] + diagnostic + tail);
  }

  lemma ClearRequestBytes(header: seq<Byte>, cause: Byte, diagnostic: seq<Byte>, tail: seq<Byte>, buf: seq<Byte>)
    requires |header| == 3 && |diagnostic| <= 1 && (diagnostic == [] ==> tail == [])
    requires buf == header + ([cause] + diagnostic + tail)
    ensures buf[3] == cause
    ensures |buf| == 4 <==> diagnostic == []
    ensures diagnostic != [] ==> buf[4] == diagnostic[0] && buf[5..] == tail
  {
  }

  lemma ClearRequestDecodes(p: ClearRequest, h: Header, header: seq<Byte>, diagnostic: seq<Byte>, tail: seq<Byte>)
    requires h.modulo == p.modulo && h.channel == p.channel && h.gfi / 4 % 2 == 0
    requires |header| == 3 && |header + ([p.cause] + diagnostic + tail)| <= MAX_CALL_LEN
    requires diagnostic == [p.diagnostic] || (diagnostic == [] && p.diagnostic == 0 && tail == [])
    requires DecodeOptionalBlocks(tail) == Ok((p.called, p.calling, p.facilities, p.userData))
    ensures DecodeClearRequest(header + ([p.cause] + diagnostic + tail), h) == Ok(ClearRequestPacket(p))
  {
    var buf := header + ([p.cause] + diagnostic + tail);
    ClearRequestBytes(header, p.cause, diagnostic, tail, buf);
    ClearRequestBody(buf, h, p);
  }

  lemma PlainGfi(modulo: Modulo)
    ensures (Gfi(modulo) + 0) / 4 % 2 == 0
  {
  }

  lemma ClearRequestRoundTrip(p: ClearRequest)
    requires AllCanonical(p.facilities) && EncodeClearRequest(p).Ok?
    ensures DecodePacket(EncodeClearRequest(p).value) == Ok(ClearRequestPacket(p))
  {
    var h := Header(p.modulo, Gfi(p.modulo), p.channel, 0x13);
    var header, diagnostic, tail := ClearRequestLayout(p);
    OptionalBlocksRoundTrip(p.called, p.calling, p.facilities, p.userData);
    PlainGfi(p.modulo);
    ClearRequestDecodes(p, h, header, diagnostic, tail);
    HeaderKind(p.modulo, 0, p.channel, 0x13, [p.cause] + diagnostic + tail);
    ClearDispatch(header + ([p.cause] + diagnostic + tail), h);
  }

  lemma ClearDispatch(buf: seq<Byte>, h: Header)
    requires MIN_PACKET_LEN <= |buf| <= MAX_PACKET_LEN && DecodeHeader(buf) == Ok(h)
    ensures h.kind == 0x13 ==> DecodePacket(buf) == DecodeClearRequest(buf, h)
    ensures h.kind == 0x17 ==> DecodePacket(buf) == DecodeClearConfirm(buf, h)
  {
  }

  lemma ClearConfirmLayout(p: ClearConfirm) returns (header: seq<Byte>, rest: seq<Byte>)
    requires AllCanonical(p.facilities) && EncodeClearConfirm(p).Ok?
    ensures EncodeHeader(p.modulo, 0, p.channel, 0x17) == Ok(header)
    ensures EncodeClearConfirm(p).value == header + rest
    ensures |EncodeClearConfirm(p).value| <= MAX_CALL_LEN
    ensures DecodeOptionalBlocks(rest) == Ok((p.called, p.calling, p.facilities, []))
  {
    header := EncodeHeader(p.modulo, 0, p.channel, 0x17).value;
    var addrs := EncodeAddrBlock(p.called, p.calling);
    if p.facilities != [] {
      var block := EncodeFacilitiesBlock(p.facilities).value;
      rest := addrs + block;
      assert block + [] == block && header + addrs + block == header + rest;
      AddrBlockRoundTrip(p.called, p.calling, block);
      FacilitiesBlockRoundTrip(p.facilities, []);
    } else if p.called.IsNull() && p.calling.IsNull() {
      rest := [];
    } else {
      rest := addrs;
      assert rest == addrs + [];
      AddrBlockRoundTrip(p.called, p.calling, []);
    }
  }

  lemma ClearConfirmBody(buf: seq<Byte>, h: Header, p: ClearConfirm)
    requires h.modulo == p.modulo && h.channel == p.channel && h.gfi / 4 % 2 == 0
    requires 3 <= |buf| <= MAX_CALL_LEN
    requires DecodeOptionalBlocks(buf[3..]) == Ok((p.called, p.calling, p.facilities, []))
    ensures DecodeClearConfirm(buf, h) == Ok(ClearConfirmPacket(p))
  {
  }

  lemma AfterHeader(header: seq<Byte>, rest: seq<Byte>)
    requires |header| == 3
    ensures (header + rest)[3..] == rest
  {
  }

  lemma ClearConfirmRoundTrip(p: ClearConfirm)
    requires AllCanonical(p.facilities) && EncodeClearConfirm(p).Ok?
    ensures DecodePacket(EncodeClearConfirm(p).value) == Ok(ClearConfirmPacket(p))
  {
    var h := Header(p.modulo, Gfi(p.modulo), p.channel, 0x17);
    var header, rest := ClearConfirmLayout(p);
    AfterHeader(header, rest);
    PlainGfi(p.modulo);
    ClearConfirmBody(header + rest, h, p);
    HeaderKind(p.modulo, 0, p.channel, 0x17, rest);
    ClearDispatch(header + rest, h);
  }

  lemma DataFlagsSplit(p: Data, gfi: Byte)
    requires gfi == Gfi(p.modulo) + DataFlags(p)
    ensures DataFlags(p) in {0, 4, 8, 12}
    ensures (gfi / 8 % 2 == 1) == p.qualifier && (gfi / 4 % 2 == 1) == p.delivery
  {
  }

  lemma NormalKind(recvSeq: int, more: int, sendSeq: int, kind: int)
    requires 0 <= recvSeq < 8 && 0 <= more < 2 && 0 <= sendSeq < 8
    requires kind == recvSeq * 32 + more * 16 + sendSeq * 2
    ensures kind % 2 == 0 && kind / 2 % 8 == sendSeq && kind / 32 == recvSeq && kind / 16 % 2 == more
  {
  }

  /** An even packet type is dispatched to the data decoder. */
  lemma DataDispatch(buf: seq<Byte>, h: Header)
    requires MIN_PACKET_LEN <= |buf| <= MAX_PACKET_LEN
    requires DecodeHeader(buf) == Ok(h) && h.kind % 2 == 0
    ensures DecodePacket(buf) == DecodeData(buf, h)
  {
    assert h.kind != 0x0b && h.kind != 0x0f && h.kind != 0x13 && h.kind != 0x17;
  }

  lemma NormalDataBody(buf: seq<Byte>, h: Header, p: Data)
    requires p.modulo == Normal && p.sendSeq < 8 && p.recvSeq < 8
    requires h.modulo == Normal && h.channel == p.channel && h.gfi == 1 + DataFlags(p)
    requires |buf| >= 3 && buf[2] == p.recvSeq * 32 + Bit(p.more) * 16 + p.sendSeq * 2
    requires buf[3..] == p.userData
    ensures DecodeData(buf, h) == Ok(DataPacket(p))
  {
    DataFlagsSplit(p, h.gfi);
    NormalKind(p.recvSeq, Bit(p.more), p.sendSeq, buf[2]);
  }

  lemma NormalDataRoundTrip(p: Data)
    requires p.modulo == Normal
    requires EncodeData(p).Ok? && |EncodeData(p).value| <= MAX_PACKET_LEN
    ensures DecodePacket(EncodeData(p).value) == Ok(DataPacket(p))
  {
    var buf := EncodeData(p).value;
    var kind := p.recvSeq * 32 + Bit(p.more) * 16 + p.sendSeq * 2;
    DataFlagsSplit(p, 1 + DataFlags(p));
    NormalKind(p.recvSeq, Bit(p.more), p.sendSeq, kind);
    HeaderKind(Normal, DataFlags(p), p.channel, kind, p.userData);
    var h := DecodeHeader(buf).value;
    NormalDataBody(buf, h, p);
    DataDispatch(buf, h);
  }

  lemma ExtendedDataBody(buf: seq<Byte>, h: Header, p: Data)
    requires p.modulo == Extended && p.sendSeq < 128 && p.recvSeq < 128
    requires h.modulo == Extended && h.channel == p.channel && h.gfi == 2 + DataFlags(p)
    requires |buf| >= 4 && buf[2] == p.sendSeq * 2 && buf[3] == p.recvSeq * 2 + Bit(p.more)
    requires buf[4..] == p.userData
    ensures DecodeData(buf, h) == Ok(DataPacket(p))
  {
    DataFlagsSplit(p, h.gfi);
  }

  lemma ExtendedDataRoundTrip(p: Data)
    requires p.modulo == Extended
    requires EncodeData(p).Ok? && |EncodeData(p).value| <= MAX_PACKET_LEN
    ensures DecodePacket(EncodeData(p).value) == Ok(DataPacket(p))
  {
    var buf := EncodeData(p).value;
    DataFlagsSplit(p, 2 + DataFlags(p));
    var fourth := p.recvSeq * 2 + Bit(p.more);
    var rest := [fourth] + p.userData;
    assert buf == EncodeHeader(p.modulo, DataFlags(p), p.channel, p.sendSeq * 2).value + rest;
    HeaderKind(p.modulo, DataFlags(p), p.channel, p.sendSeq * 2, rest);
    assert buf[3] == buf[3..][0] && buf[4..] == buf[3..][1..] == p.userData;
    var h := DecodeHeader(buf).value;
    ExtendedDataBody(buf, h, p);
    DataDispatch(buf, h);
  }

  lemma ReceiveRoundTrip(modulo: Modulo, channel: Channel, recvSeq: Byte, kind: Byte)
    requires kind in {0x01, 0x05} && EncodeReceive(modulo, channel, recvSeq, kind).Ok?
    ensures DecodePacket(EncodeReceive(modulo, channel, recvSeq, kind).value)
         == Ok(if kind == 0x01 then ReceiveReady(modulo, channel, recvSeq)
               else ReceiveNotReady(modulo, channel, recvSeq))
  {
    match modulo
    case Normal =>
      HeaderKind(modulo, 0, channel, recvSeq * 32 + kind, []);
      assert EncodeReceive(modulo, channel, recvSeq, kind).value + [] == EncodeReceive(modulo, channel, recvSeq, kind).value;
    case Extended =>
      HeaderKind(modulo, 0, channel, kind, [recvSeq * 2]);
  }

  lemma ResetRoundTrip(modulo: Modulo, channel: Channel, cause: Byte, diagnostic: Byte)
    requires channel <= MAX_CHANNEL
    ensures DecodePacket(EncodeResetRequest(modulo, channel, cause, diagnostic).value)
         == Ok(ResetRequest(modulo, channel, cause, diagnostic))
    ensures DecodePacket(EncodeHeader(modulo, 0, channel, 0x1f).value) == Ok(ResetConfirm(modulo, channel))
  {
    var rest := [cause] + if diagnostic > 0 then [diagnostic] else [];
    assert EncodeResetRequest(modulo, channel, cause, diagnostic).value
        == EncodeHeader(modulo, 0, channel, 0x1b).value + rest;
    HeaderKind(modulo, 0, channel, 0x1b, rest);
    HeaderKind(modulo, 0, channel, 0x1f, []);
    assert EncodeHeader(modulo, 0, channel, 0x1f).value + [] == EncodeHeader(modulo, 0, channel, 0x1f).value;
  }

  /** Every packet that encodes to at most the maximum length decodes to itself. */
  lemma RoundTrip(p: Packet)
    requires CanonicalPacket(p)
    requires EncodePacket(p).Ok? && |EncodePacket(p).value| <= MAX_PACKET_LEN
    ensures DecodePacket(EncodePacket(p).value) == Ok(p)
  {
    match p
    case CallRequestPacket(p) => CallRequestRoundTrip(p);
    case CallAcceptPacket(p) => CallAcceptRoundTrip(p);
    case ClearRequestPacket(p) => ClearRequestRoundTrip(p);
    case ClearConfirmPacket(p) => ClearConfirmRoundTrip(p);
    case DataPacket(p) => if p.modulo == Normal { NormalDataRoundTrip(p); } else { ExtendedDataRoundTrip(p); }
    case ReceiveReady(modulo, channel, recvSeq) => ReceiveRoundTrip(modulo, channel, recvSeq, 0x01);
    case ReceiveNotReady(modulo, channel, recvSeq) => ReceiveRoundTrip(modulo, channel, recvSeq, 0x05);
    case ResetRequest(modulo, channel, cause, diagnostic) => ResetRoundTrip(modulo, channel, cause, diagnostic);
    case ResetConfirm(modulo, channel) => ResetRoundTrip(modulo, channel, 0, 0);
  }

  // Decoding first

  lemma AddrBlockLength(buf: seq<Byte>)
    requires DecodeAddrBlock(buf).Ok?
    ensures var (called, calling, rest) := DecodeAddrBlock(buf).value;
            |EncodeAddrBlock(called, calling)| + |rest| == |buf|
    ensures |buf| - |DecodeAddrBlock(buf).value.2| <= 16
  {
  }

  /** Re-encoding decoded blocks can add no more than an empty facilities block
      after addresses that stood alone. */
  lemma OptionalBlocksInverse(buf: seq<Byte>)
    requires DecodeOptionalBlocks(buf).Ok?
    ensures var (called, calling, facilities, rest) := DecodeOptionalBlocks(buf).value;
            && AllCanonical(facilities)
            && EncodeOptionalBlocks(called, calling, facilities, rest).Ok?
            && (var blocks := EncodeOptionalBlocks(called, calling, facilities, rest).value;
                |blocks| + |rest| <= |buf| || (rest == [] && |blocks| <= 17))
            && (facilities != [] ==>
                  (&& EncodeFacilitiesBlock(facilities).Ok?
                   && |EncodeFacilitiesBlock(facilities).value| + |EncodeAddrBlock(called, calling)| <= |buf|))
  {
    if buf != [] {
      AddrBlockLength(buf);
      var (called, calling, buf1) := DecodeAddrBlock(buf).value;
      if buf1 != [] {
        FacilitiesBlockInverse(buf1);
      } else {
        assert EncodeList([], {}) == Ok([]);
      }
    }
  }

  /** A decoded packet is canonical and within the limits of its own encoder. */
  predicate Sound(p: Packet) {
    && CanonicalPacket(p)
    && EncodePacket(p).Ok? && MIN_PACKET_LEN <= |EncodePacket(p).value| <= MAX_PACKET_LEN
  }

  lemma HeaderSound(buf: seq<Byte>)
    requires DecodeHeader(buf).Ok?
    ensures DecodeHeader(buf).value.channel <= MAX_CHANNEL && DecodeHeader(buf).value.gfi < 16
    ensures DecodeHeader(buf).value.kind == buf[2]
  {
  }

  lemma CallRequestSound(buf: seq<Byte>, h: Header)
    requires h.channel <= MAX_CHANNEL && DecodeCallRequest(buf, h).Ok?
    ensures Sound(DecodeCallRequest(buf, h).value)
  {
    AddrBlockLength(buf[3..]);
    FacilitiesBlockInverse(DecodeAddrBlock(buf[3..]).value.2);
  }

  lemma CallAcceptSound(buf: seq<Byte>, h: Header)
    requires h.channel <= MAX_CHANNEL && DecodeCallAccept(buf, h).Ok?
    ensures Sound(DecodeCallAccept(buf, h).value)
  {
    OptionalBlocksInverse(buf[3..]);
  }

  lemma ClearRequestSound(buf: seq<Byte>, h: Header)
    requires h.channel <= MAX_CHANNEL && DecodeClearRequest(buf, h).Ok?
    ensures Sound(DecodeClearRequest(buf, h).value)
  {
    OptionalBlocksInverse(if |buf| > 4 then buf[5..] else []);
  }

  lemma ClearConfirmSound(buf: seq<Byte>, h: Header)
    requires h.channel <= MAX_CHANNEL && DecodeClearConfirm(buf, h).Ok?
    ensures Sound(DecodeClearConfirm(buf, h).value)
  {
    OptionalBlocksInverse(buf[3..]);
    var (called, calling, facilities, rest) := DecodeOptionalBlocks(buf[3..]).value;
    assert |EncodeAddrBlock(called, calling)| <= 16;
  }

  lemma DataSound(buf: seq<Byte>, h: Header)
    requires h.channel <= MAX_CHANNEL && |buf| <= MAX_PACKET_LEN && DecodeData(buf, h).Ok?
    ensures Sound(DecodeData(buf, h).value)
  {
  }

  lemma DecodedIsSound(buf: seq<Byte>)
    requires DecodePacket(buf).Ok?
    ensures Sound(DecodePacket(buf).value)
  {
    HeaderSound(buf);
    var h := DecodeHeader(buf).value;
    if h.kind == 0x0b {
      CallRequestSound(buf, h);
    } else if h.kind == 0x0f {
      CallAcceptSound(buf, h);
    } else if h.kind == 0x13 {
      ClearRequestSound(buf, h);
    } else if h.kind == 0x17 {
      ClearConfirmSound(buf, h);
    } else if h.kind % 2 == 0 {
      DataSound(buf, h);
    }
  }

  /** Whatever decodes can be encoded again, and then decodes to the same packet. */
  lemma Normalisation(buf: seq<Byte>)
    requires DecodePacket(buf).Ok?
    ensures var p := DecodePacket(buf).value;
            && CanonicalPacket(p)
            && EncodePacket(p).Ok? && MIN_PACKET_LEN <= |EncodePacket(p).value| <= MAX_PACKET_LEN
            && DecodePacket(EncodePacket(p).value) == Ok(p)
  {
    DecodedIsSound(buf);
    RoundTrip(DecodePacket(buf).value);
  }

  /** Normalisation is real: a reset request may spell out a zero diagnostic. */
  lemma DecodingForgetsBytes()
    ensures exists buf :: DecodePacket(buf).Ok? && EncodePacket(DecodePacket(buf).value) != Ok(buf)
  {
    var buf: seq<Byte> := [0x10, 0x01, 0x1b, 0x05, 0x00];
    assert DecodeHeader(buf) == Ok(Header(Normal, 1, 1, 0x1b));
    assert DecodePacket(buf) == Ok(ResetRequest(Normal, 1, 5, 0));
    assert |EncodePacket(ResetRequest(Normal, 1, 5, 0)).value| == 4;
  }
}
