/** Which byte strings are encodings: a packet that was decoded encodes to the bytes it
    came from exactly when these hold nothing that the decoder passes over. */
module PacketBytes {
  import opened Wrappers
  import opened X121
  import opened Facilities
  import opened Packets
  import opened PacketRoundTrip

  /** The two upper bits of the format identifier are zero. */
  predicate PlainHeader(buf: seq<Byte>) {
    buf != [] && buf[0] / 64 == 0
  }

  /** The length of the address block that `buf` begins with. */
  function AddrLength(buf: seq<Byte>): nat
    requires buf != []
  {
    1 + (buf[0] / 16 + buf[0] % 16 + 1) / 2
  }

  /** After an odd number of digits the half byte left over is zero. */
  predicate AddrExact(buf: seq<Byte>) {
    && buf != [] && AddrLength(buf) <= |buf|
    && ((buf[0] / 16 + buf[0] % 16) % 2 == 1 ==> buf[AddrLength(buf) - 1] % 16 == 0)
  }

  /** The blocks are absent, or both present and not both empty without user data. */
  predicate BlocksExact(buf: seq<Byte>) {
    buf == [] || (AddrExact(buf) && AddrLength(buf) < |buf| && buf != [0, 0])
  }

  /** The blocks are absent; or there are addresses alone, not both empty; or also
      facilities, at least one of them, and nothing after them. */
  predicate ConfirmExact(buf: seq<Byte>) {
    || buf == []
    || (&& AddrExact(buf)
        && (if AddrLength(buf) == |buf| then buf != [0]
            else
              var len := buf[AddrLength(buf)];
              len > 0 && |buf| == AddrLength(buf) + 1 + len))
  }

  /** Nothing in the bytes of a packet is passed over. */
  predicate SpareFree(buf: seq<Byte>)
    requires MIN_PACKET_LEN <= |buf|
  {
    match buf[2]
    case 0x0b => PlainHeader(buf) && AddrExact(buf[3..])
    case 0x0f => PlainHeader(buf) && BlocksExact(buf[3..])
    case 0x13 => PlainHeader(buf) && (|buf| == 5 ==> buf[4] != 0) && (|buf| > 5 ==> BlocksExact(buf[5..]))
    case 0x17 => PlainHeader(buf) && ConfirmExact(buf[3..])
    case 0x1b => |buf| == 5 ==> buf[4] != 0
    case _ => true
  }

  lemma SplitEqual(a: seq<Byte>, x: seq<Byte>, b: seq<Byte>, y: seq<Byte>)
    requires |a| == |b|
    ensures a + x == b + y <==> a == b && x == y
  {
    if a + x == b + y {
      assert a == (a + x)[..|a|] == (b + y)[..|a|] == b;
      assert x == (a + x)[|a|..] == (b + y)[|a|..] == y;
    }
  }

  lemma FirstPart(part: seq<Byte>, rest: seq<Byte>, buf: seq<Byte>, n: nat)
    requires |part| == n <= |buf|
    ensures part + rest == buf <==> part == buf[..n] && rest == buf[n..]
  {
    assert buf == buf[..n] + buf[n..];
    SplitEqual(part, rest, buf[..n], buf[n..]);
  }

  lemma Assoc4(a: seq<Byte>, b: seq<Byte>, c: seq<Byte>, d: seq<Byte>)
    ensures a + b + c + d == a + (b + (c + d))
    ensures a + b + c == a + (b + c)
  {
    assert a + b + c == a + (b + c);
    assert a + (b + c) + d == a + ((b + c) + d);
  }

  // Header and blocks

  lemma HeaderExact(buf: seq<Byte>)
    requires DecodeHeader(buf).Ok?
    ensures var h := DecodeHeader(buf).value;
            && EncodeHeader(h.modulo, 0, h.channel, h.kind).Ok?
            && (EncodeHeader(h.modulo, 0, h.channel, h.kind).value == buf[..3] <==> PlainHeader(buf))
            && h.gfi / 4 == buf[0] / 64
  {
    var h := DecodeHeader(buf).value;
    assert h.channel / 256 == buf[0] % 16 && h.channel % 256 == buf[1];
    assert buf[..3] == [buf[0], buf[1], buf[2]];
  }

  lemma AfterPair(high: Byte, low: Byte, rest: seq<Byte>, n: nat)
    requires 2 <= n <= 2 + |rest|
    ensures var front := ([high, low] + rest)[..n];
            front[0] == high && front[1] == low && front[2..] == rest[..n - 2]
  {
  }

  lemma FirstPair(packed: seq<Byte>, digits: seq<Digit>)
    requires packed != [] && 2 <= |digits| <= 2 * |packed| && digits == Unpack(packed)[..|digits|]
    ensures PackPair(digits[0], digits[1]) == packed[0]
    ensures digits[2..] == Unpack(packed[1..])[..|digits| - 2]
  {
    AfterPair(packed[0] / 16, packed[0] % 16, Unpack(packed[1..]), |digits|);
  }

  lemma {:induction false} PackExact(packed: seq<Byte>, digits: seq<Digit>)
    requires |packed| == (|digits| + 1) / 2 && digits == Unpack(packed)[..|digits|]
    ensures Pack(digits) == packed <==> (|digits| % 2 == 1 ==> packed[|packed| - 1] % 16 == 0)
  {
    if |digits| == 1 {
      assert packed == [packed[0]];
    } else if |digits| >= 2 {
      FirstPair(packed, digits);
      PackExact(packed[1..], digits[2..]);
      FirstPart([packed[0]], Pack(digits[2..]), packed, 1);
    }
  }

  /** The digits of a decoded block, as the decoder takes them from the half bytes. */
  lemma AddrDigits(buf: seq<Byte>)
    requires DecodeAddrBlock(buf).Ok?
    ensures buf != [] && AddrLength(buf) <= |buf|
    ensures var (called, calling, rest) := DecodeAddrBlock(buf).value;
            && rest == buf[AddrLength(buf)..]
            && |called.digits| == buf[0] % 16 && |calling.digits| == buf[0] / 16
            && (var n := |called.digits| + |calling.digits|;
                var nibbles := Unpack(buf[1..AddrLength(buf)]);
                n <= |nibbles| && called.digits + calling.digits == nibbles[..n])
  {
    var (called, calling, rest) := DecodeAddrBlock(buf).value;
    var (m, n) := (buf[0] % 16, buf[0] / 16);
    var nibbles := Unpack(buf[1..AddrLength(buf)]);
    assert called.digits == nibbles[..m] && calling.digits == nibbles[m..m + n];
    assert nibbles[..m] + nibbles[m..m + n] == nibbles[..m + n];
  }

  lemma AddrBlockExact(buf: seq<Byte>)
    requires DecodeAddrBlock(buf).Ok?
    ensures buf != [] && AddrLength(buf) <= |buf|
    ensures var (called, calling, rest) := DecodeAddrBlock(buf).value;
            && rest == buf[AddrLength(buf)..]
            && |EncodeAddrBlock(called, calling)| == AddrLength(buf)
            && (EncodeAddrBlock(called, calling) == buf[..AddrLength(buf)] <==> AddrExact(buf))
            && (called.IsNull() && calling.IsNull() <==> buf[0] == 0)
  {
    AddrDigits(buf);
    var (called, calling, rest) := DecodeAddrBlock(buf).value;
    AddrBytesExact(buf, called.digits + calling.digits, EncodeAddrBlock(called, calling));
  }

  lemma AddrBytesExact(buf: seq<Byte>, digits: seq<Digit>, block: seq<Byte>)
    requires buf != [] && AddrLength(buf) <= |buf| && |digits| == buf[0] / 16 + buf[0] % 16
    requires var nibbles := Unpack(buf[1..AddrLength(buf)]);
             |digits| <= |nibbles| && digits == nibbles[..|digits|]
    requires block == [buf[0]] + Pack(digits)
    ensures |block| == AddrLength(buf)
    ensures block == buf[..AddrLength(buf)] <==> AddrExact(buf)
  {
    var packed := buf[1..AddrLength(buf)];
    PackExact(packed, digits);
    assert buf[..AddrLength(buf)] == [buf[0]] + packed;
    SplitEqual([buf[0]], Pack(digits), [buf[0]], packed);
    assert packed != [] ==> packed[|packed| - 1] == buf[AddrLength(buf) - 1];
  }

  lemma NoFacilities(buf: seq<Byte>)
    requires DecodeFacilitiesBlock(buf).Ok?
    ensures var (facilities, rest) := DecodeFacilitiesBlock(buf).value;
            && (facilities == [] <==> buf[0] == 0)
            && rest == buf[1 + buf[0]..]
            && EncodeFacilitiesBlock(facilities).Ok? && EncodeFacilitiesBlock(facilities).value == buf[..1 + buf[0]]
  {
    var (facilities, rest) := DecodeFacilitiesBlock(buf).value;
    FacilitiesBlockInverse(buf);
    var block := EncodeFacilitiesBlock(facilities).value;
    assert |block| - 1 == buf[0];
    assert buf == buf[..1 + buf[0]] + rest;
    SplitEqual(block, rest, buf[..1 + buf[0]], rest);
    assert EncodeList([], {}) == Ok([]);
  }

  /** What the decoder has read of `buf`, when the addresses do not end it. */
  lemma BothBlocks(buf: seq<Byte>, called: X121Addr, calling: X121Addr, facilities: seq<Facility>, rest: seq<Byte>)
    requires buf != [] && AddrLength(buf) < |buf|
    requires DecodeOptionalBlocks(buf) == Ok((called, calling, facilities, rest))
    ensures var addrs := EncodeAddrBlock(called, calling);
            && |addrs| == AddrLength(buf)
            && (addrs == buf[..AddrLength(buf)] <==> AddrExact(buf))
            && (called.IsNull() && calling.IsNull() <==> buf[0] == 0)
    ensures facilities == [] <==> buf[AddrLength(buf)] == 0
    ensures EncodeFacilitiesBlock(facilities).Ok?
    ensures var block := EncodeFacilitiesBlock(facilities).value;
            |block| - 1 == buf[AddrLength(buf)] && block + rest == buf[AddrLength(buf)..]
  {
    AddrBlockExact(buf);
    NoFacilities(buf[AddrLength(buf)..]);
    FacilitiesBlockInverse(buf[AddrLength(buf)..]);
  }

  lemma AddrAlone(buf: seq<Byte>)
    requires DecodeOptionalBlocks(buf).Ok? && buf != [] && AddrLength(buf) >= |buf|
    ensures var (called, calling, facilities, rest) := DecodeOptionalBlocks(buf).value;
            && facilities == [] && rest == [] && AddrLength(buf) == |buf|
            && |EncodeAddrBlock(called, calling)| == |buf|
            && (EncodeAddrBlock(called, calling) == buf <==> AddrExact(buf))
            && (called.IsNull() && calling.IsNull() <==> buf == [0])
  {
    AddrBlockExact(buf);
    assert buf[..|buf|] == buf && buf[|buf|..] == [];
    assert buf == [0] <==> |buf| == 1 && buf[0] == 0;
  }

  lemma BothBlocksExact(buf: seq<Byte>, called: X121Addr, calling: X121Addr, facilities: seq<Facility>, rest: seq<Byte>)
    requires buf != [] && AddrLength(buf) < |buf|
    requires DecodeOptionalBlocks(buf) == Ok((called, calling, facilities, rest))
    ensures EncodeFacilitiesBlock(facilities).Ok?
    ensures EncodeAddrBlock(called, calling) + EncodeFacilitiesBlock(facilities).value + rest == buf <==> AddrExact(buf)
    ensures called.IsNull() && calling.IsNull() && facilities == [] && rest == [] <==> buf == [0, 0]
  {
    BothBlocks(buf, called, calling, facilities, rest);
    var addrs := EncodeAddrBlock(called, calling);
    var block := EncodeFacilitiesBlock(facilities).value;
    Assoc4(addrs, block, rest, []);
    FirstPart(addrs, block + rest, buf, AddrLength(buf));
    assert buf == [0, 0] <==> buf[0] == 0 && |buf| == 2 && buf[1] == 0;
  }

  lemma OptionalExact(buf: seq<Byte>)
    requires DecodeOptionalBlocks(buf).Ok?
    ensures var (called, calling, facilities, rest) := DecodeOptionalBlocks(buf).value;
            var blocks := EncodeOptionalBlocks(called, calling, facilities, rest);
            && blocks.Ok?
            && (blocks.value + rest == buf <==> BlocksExact(buf))
            && (called.IsNull() && calling.IsNull() && facilities == [] && rest == []
                <==> buf == [] || buf == [0] || buf == [0, 0])
  {
    if buf != [] {
      var (called, calling, facilities, rest) := DecodeOptionalBlocks(buf).value;
      if AddrLength(buf) >= |buf| {
        AddrAlone(buf);
        assert EncodeList([], {}) == Ok([]);
      } else {
        BothBlocksExact(buf, called, calling, facilities, rest);
      }
    }
  }

  // Packets

  lemma FirstThree(header: seq<Byte>, rest: seq<Byte>, buf: seq<Byte>)
    requires |header| == 3 <= |buf|
    ensures header + rest == buf <==> header == buf[..3] && rest == buf[3..]
  {
    assert buf == buf[..3] + buf[3..];
    SplitEqual(header, rest, buf[..3], buf[3..]);
  }

  lemma CallRequestLaidOut(p: CallRequest, header: seq<Byte>, block: seq<Byte>)
    requires EncodeCallRequest(p).Ok? && EncodeHeader(p.modulo, 0, p.channel, 0x0b) == Ok(header)
    requires EncodeFacilitiesBlock(p.facilities) == Ok(block)
    ensures EncodeCallRequest(p) == Ok(header + (EncodeAddrBlock(p.called, p.calling) + (block + p.userData)))
  {
    Assoc4(header, EncodeAddrBlock(p.called, p.calling), block, p.userData);
  }

  lemma CallRequestParts(buf: seq<Byte>, h: Header, p: CallRequest)
    requires DecodeCallRequest(buf, h) == Ok(CallRequestPacket(p))
    ensures |buf| >= 3 && p.modulo == h.modulo && p.channel == h.channel
    ensures DecodeAddrBlock(buf[3..]).Ok?
    ensures var (called, calling, rest) := DecodeAddrBlock(buf[3..]).value;
            called == p.called && calling == p.calling && DecodeFacilitiesBlock(rest) == Ok((p.facilities, p.userData))
  {
  }

  /** A header, an address block and bytes that come back as they are. */
  lemma AddrBytes(buf: seq<Byte>, header: seq<Byte>, addrs: seq<Byte>, rest: seq<Byte>, n: nat)
    requires |header| == 3 && 3 + n <= |buf| && |addrs| == n && rest == buf[3..][n..]
    ensures header + (addrs + rest) == buf <==> header == buf[..3] && addrs == buf[3..][..n]
  {
    FirstThree(header, addrs + rest, buf);
    FirstPart(addrs, rest, buf[3..], n);
  }

  lemma CallRequestExact(buf: seq<Byte>, h: Header, p: CallRequest)
    requires DecodeHeader(buf) == Ok(h) && h.kind == 0x0b
    requires DecodeCallRequest(buf, h) == Ok(CallRequestPacket(p)) && EncodeCallRequest(p).Ok?
    ensures EncodeCallRequest(p) == Ok(buf) <==> PlainHeader(buf) && AddrExact(buf[3..])
  {
    CallRequestParts(buf, h, p);
    HeaderExact(buf);
    AddrBlockExact(buf[3..]);
    var n := AddrLength(buf[3..]);
    FacilitiesBlockInverse(buf[3..][n..]);
    var header := EncodeHeader(p.modulo, 0, p.channel, 0x0b).value;
    var block := EncodeFacilitiesBlock(p.facilities).value;
    CallRequestLaidOut(p, header, block);
    AddrBytes(buf, header, EncodeAddrBlock(p.called, p.calling), block + p.userData, n);
  }

  lemma CallAcceptLaidOut(p: CallAccept, header: seq<Byte>, blocks: seq<Byte>)
    requires EncodeCallAccept(p).Ok? && EncodeHeader(p.modulo, 0, p.channel, 0x0f) == Ok(header)
    requires EncodeOptionalBlocks(p.called, p.calling, p.facilities, p.userData) == Ok(blocks)
    ensures EncodeCallAccept(p) == Ok(header + (blocks + p.userData))
  {
    Assoc4(header, blocks, p.userData, []);
  }

  lemma CallAcceptParts(buf: seq<Byte>, h: Header, p: CallAccept)
    requires DecodeCallAccept(buf, h) == Ok(CallAcceptPacket(p))
    ensures |buf| >= 3 && p.modulo == h.modulo && p.channel == h.channel
    ensures DecodeOptionalBlocks(buf[3..]) == Ok((p.called, p.calling, p.facilities, p.userData))
  {
  }

  lemma CallAcceptExact(buf: seq<Byte>, h: Header, p: CallAccept)
    requires DecodeHeader(buf) == Ok(h) && h.kind == 0x0f
    requires DecodeCallAccept(buf, h) == Ok(CallAcceptPacket(p)) && EncodeCallAccept(p).Ok?
    ensures EncodeCallAccept(p) == Ok(buf) <==> PlainHeader(buf) && BlocksExact(buf[3..])
  {
    CallAcceptParts(buf, h, p);
    HeaderExact(buf);
    OptionalExact(buf[3..]);
    var header := EncodeHeader(p.modulo, 0, p.channel, 0x0f).value;
    var blocks := EncodeOptionalBlocks(p.called, p.calling, p.facilities, p.userData).value;
    CallAcceptLaidOut(p, header, blocks);
    FirstThree(header, blocks + p.userData, buf);
  }

  /** A clear request as the encoder lays it out, from the header on. */
  lemma ClearRequestLaidOut(p: ClearRequest, header: seq<Byte>, blocks: seq<Byte>)
    requires EncodeClearRequest(p).Ok? && EncodeHeader(p.modulo, 0, p.channel, 0x13) == Ok(header)
    requires EncodeOptionalBlocks(p.called, p.calling, p.facilities, p.userData) == Ok(blocks)
    ensures EncodeClearRequest(p).value
         == header + ([p.cause] + ((if p.diagnostic > 0 || !ClearIsShort(p) then [p.diagnostic] else [])
                                   + (blocks + p.userData)))
  {
    var diagnostic: seq<Byte> := if p.diagnostic > 0 || !ClearIsShort(p) then [p.diagnostic] else [];
    assert header + [p.cause] + diagnostic + blocks + p.userData
        == header + ([p.cause] + (diagnostic + (blocks + p.userData)));
  }

  lemma ClearRequestParts(buf: seq<Byte>, h: Header, p: ClearRequest)
    requires DecodeClearRequest(buf, h) == Ok(ClearRequestPacket(p))
    ensures |buf| >= 4 && p.modulo == h.modulo && p.channel == h.channel && p.cause == buf[3]
    ensures p.diagnostic == if |buf| > 4 then buf[4] else 0
    ensures DecodeOptionalBlocks(if |buf| > 4 then buf[5..] else [])
         == Ok((p.called, p.calling, p.facilities, p.userData))
  {
  }

  /** The bytes after the header of a clear request: cause, diagnostic and the rest. */
  lemma ClearTailExact(tail: seq<Byte>, code: seq<Byte>, body: seq<Byte>)
    requires tail != [] && (code == [] ==> body == []) && |code| <= 1
    ensures [tail[0]] + (code + body) == tail
       <==> if |tail| == 1 then code == [] else code == [tail[1]] && body == tail[2..]
  {
    FirstPart([tail[0]], code + body, tail, 1);
    if |tail| == 1 {
      assert tail[1..] == [];
    } else {
      assert tail[1..][..1] == [tail[1]] && tail[1..][1..] == tail[2..];
      if code != [] {
        FirstPart(code, body, tail[1..], 1);
      }
    }
  }

  lemma ClearRequestExact(buf: seq<Byte>, h: Header, p: ClearRequest)
    requires DecodeHeader(buf) == Ok(h) && h.kind == 0x13
    requires DecodeClearRequest(buf, h) == Ok(ClearRequestPacket(p)) && EncodeClearRequest(p).Ok?
    ensures EncodeClearRequest(p) == Ok(buf)
       <==> PlainHeader(buf) && (|buf| == 5 ==> buf[4] != 0) && (|buf| > 5 ==> BlocksExact(buf[5..]))
  {
    ClearRequestParts(buf, h, p);
    HeaderExact(buf);
    var rest := if |buf| > 4 then buf[5..] else [];
    OptionalExact(rest);
    var header := EncodeHeader(p.modulo, 0, p.channel, 0x13).value;
    var blocks := EncodeOptionalBlocks(p.called, p.calling, p.facilities, p.userData).value;
    var code: seq<Byte> := if p.diagnostic > 0 || !ClearIsShort(p) then [p.diagnostic] else [];
    ClearRequestLaidOut(p, header, blocks);
    FirstThree(header, [p.cause] + (code + (blocks + p.userData)), buf);
    assert |buf| > 4 ==> buf[3..][2..] == buf[5..];
    ClearTailExact(buf[3..], code, blocks + p.userData);
  }

  lemma ClearConfirmParts(buf: seq<Byte>, h: Header, p: ClearConfirm)
    requires DecodeClearConfirm(buf, h) == Ok(ClearConfirmPacket(p))
    ensures |buf| >= 3 && p.modulo == h.modulo && p.channel == h.channel && DecodeOptionalBlocks(buf[3..]).Ok?
    ensures var (called, calling, facilities, _) := DecodeOptionalBlocks(buf[3..]).value;
            called == p.called && calling == p.calling && facilities == p.facilities
  {
  }

  /** The blocks a clear confirm encodes to. */
  function ConfirmBlocks(called: X121Addr, calling: X121Addr, facilities: seq<Facility>): seq<Byte>
    requires EncodeFacilitiesBlock(facilities).Ok?
  {
    if facilities != [] then EncodeAddrBlock(called, calling) + EncodeFacilitiesBlock(facilities).value
    else if called.IsNull() && calling.IsNull() then []
    else EncodeAddrBlock(called, calling)
  }

  lemma ClearConfirmLaidOut(p: ClearConfirm, header: seq<Byte>)
    requires EncodeClearConfirm(p).Ok? && EncodeHeader(p.modulo, 0, p.channel, 0x17) == Ok(header)
    requires EncodeFacilitiesBlock(p.facilities).Ok?
    ensures EncodeClearConfirm(p) == Ok(header + ConfirmBlocks(p.called, p.calling, p.facilities))
  {
    var addrs := EncodeAddrBlock(p.called, p.calling);
    assert header + [] == header && header + addrs + [] == header + addrs;
    Assoc4(header, addrs, EncodeFacilitiesBlock(p.facilities).value, []);
  }

  lemma ConfirmBlocksExact(buf: seq<Byte>)
    requires DecodeOptionalBlocks(buf).Ok?
    ensures var (called, calling, facilities, _) := DecodeOptionalBlocks(buf).value;
            && EncodeFacilitiesBlock(facilities).Ok?
            && (ConfirmBlocks(called, calling, facilities) == buf <==> ConfirmExact(buf))
  {
    assert EncodeList([], {}) == Ok([]);
    if buf != [] {
      var (called, calling, facilities, rest) := DecodeOptionalBlocks(buf).value;
      var n := AddrLength(buf);
      if n >= |buf| {
        AddrAlone(buf);
      } else {
        BothBlocks(buf, called, calling, facilities, rest);
        var block := EncodeFacilitiesBlock(facilities).value;
        FirstPart(EncodeAddrBlock(called, calling), block, buf, n);
        assert block == buf[n..] <==> rest == [];
      }
    }
  }

  lemma ClearConfirmExact(buf: seq<Byte>, h: Header, p: ClearConfirm)
    requires DecodeHeader(buf) == Ok(h) && h.kind == 0x17
    requires DecodeClearConfirm(buf, h) == Ok(ClearConfirmPacket(p)) && EncodeClearConfirm(p).Ok?
    ensures EncodeClearConfirm(p) == Ok(buf) <==> PlainHeader(buf) && ConfirmExact(buf[3..])
  {
    ClearConfirmParts(buf, h, p);
    HeaderExact(buf);
    ConfirmBlocksExact(buf[3..]);
    var header := EncodeHeader(p.modulo, 0, p.channel, 0x17).value;
    ClearConfirmLaidOut(p, header);
    FirstThree(header, ConfirmBlocks(p.called, p.calling, p.facilities), buf);
  }

  lemma NormalKindExact(kind: Byte)
    requires kind % 2 == 0
    ensures kind == kind / 32 * 32 + kind / 16 % 2 * 16 + kind / 2 % 8 * 2
  {
    var half := kind / 2;
    assert kind == half * 2 && kind / 16 == half / 8 && kind / 32 == half / 8 / 2;
    assert half == half / 8 * 8 + half % 8;
    assert half / 8 == half / 8 / 2 * 2 + half / 8 % 2;
  }

  lemma DataHeaderExact(buf: seq<Byte>, h: Header, p: Data, kind: Byte)
    requires DecodeHeader(buf) == Ok(h) && DecodeData(buf, h) == Ok(DataPacket(p)) && kind == h.kind
    ensures EncodeHeader(p.modulo, DataFlags(p), p.channel, kind) == Ok(buf[..3])
  {
    assert p.channel / 256 == buf[0] % 16 && p.channel % 256 == buf[1];
    assert h.gfi == Gfi(h.modulo) + DataFlags(p);
    assert buf[..3] == [buf[0], buf[1], buf[2]];
  }

  /** Data, receive ready and receive not ready leave nothing out. */
  lemma DataExact(buf: seq<Byte>, h: Header, p: Data)
    requires DecodeHeader(buf) == Ok(h) && h.kind % 2 == 0 && DecodeData(buf, h) == Ok(DataPacket(p))
    ensures EncodeData(p) == Ok(buf)
  {
    DataHeaderExact(buf, h, p, h.kind);
    match h.modulo
    case Normal =>
      NormalKindExact(h.kind);
      assert buf == buf[..3] + buf[3..];
    case Extended =>
      assert buf == buf[..3] + [buf[3]] + buf[4..];
  }

  lemma ReceiveExact(buf: seq<Byte>, h: Header, kind: Byte)
    requires DecodeHeader(buf) == Ok(h) && kind < 32 && h.kind % 32 == kind && DecodeReceive(buf, h, kind).Ok?
    ensures EncodeReceive(h.modulo, h.channel, DecodeReceive(buf, h, kind).value, kind) == Ok(buf)
  {
    HeaderExact(buf);
    assert PlainHeader(buf);
    match h.modulo
    case Normal =>
      assert buf == buf[..3];
      assert EncodeHeader(h.modulo, 0, h.channel, h.kind).value[2] == h.kind == h.kind / 32 * 32 + kind;
    case Extended =>
      assert buf == buf[..3] + [buf[3]];
  }

  lemma ResetExact(buf: seq<Byte>, h: Header)
    requires DecodeHeader(buf) == Ok(h)
    ensures DecodeResetRequest(buf, h).Ok? && h.kind == 0x1b ==>
              var p := DecodeResetRequest(buf, h).value;
              EncodeResetRequest(p.modulo, p.channel, p.cause, p.diagnostic) == Ok(buf) <==> (|buf| == 5 ==> buf[4] != 0)
    ensures DecodeResetConfirm(buf, h).Ok? && h.kind == 0x1f ==>
              EncodeHeader(h.modulo, 0, h.channel, 0x1f) == Ok(buf)
  {
    HeaderExact(buf);
    if |buf| == 3 {
      assert buf[..3] == buf;
    } else if |buf| == 4 {
      assert buf[..3] + [buf[3]] + [] == buf;
    } else if |buf| == 5 {
      assert buf[..3] + [buf[3]] + [buf[4]] == buf;
    }
  }

  /** A packet that was decoded encodes to the very bytes it came from exactly when
      they hold nothing that the decoder passes over. */
  lemma ExactBytes(buf: seq<Byte>)
    requires DecodePacket(buf).Ok?
    ensures EncodePacket(DecodePacket(buf).value) == Ok(buf) <==> SpareFree(buf)
  {
    DecodedIsSound(buf);
    var (h, p) := (DecodeHeader(buf).value, DecodePacket(buf).value);
    if h.kind == 0x0b {
      CallRequestExact(buf, h, p.callRequest);
    } else if h.kind == 0x0f {
      CallAcceptExact(buf, h, p.callAccept);
    } else if h.kind == 0x13 {
      ClearRequestExact(buf, h, p.clearRequest);
    } else if h.kind == 0x17 {
      ClearConfirmExact(buf, h, p.clearConfirm);
    } else if h.kind % 2 == 0 {
      DataExact(buf, h, p.data);
    } else if h.kind % 32 == 0x01 || h.kind % 32 == 0x05 {
      ReceiveExact(buf, h, h.kind % 32);
    } else {
      ResetExact(buf, h);
    }
  }
}
