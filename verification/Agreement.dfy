/** What the two ends agree on by setting up a call, with every packet taken through
    its encoding. */
module Agreement {
  import opened Wrappers
  import opened Seq
  import opened X121
  import opened Facilities
  import opened Packets
  import opened PacketRoundTrip
  import opened Negotiation
  import opened Circuits
  import opened CircuitSystem
  import opened Wire

  predicate ValidSizes(params: Params) {
    EncodePacketSize(params.sendPacketSize).Ok? && EncodePacketSize(params.recvPacketSize).Ok?
  }

  predicate ValidWindows(params: Params) {
    1 <= params.sendWindowSize <= 127 && 1 <= params.recvWindowSize <= 127
  }

  /** The facilities of both call set-up packets. */
  lemma SizesBlock(p: nat, q: nat, v: Byte, w: Byte)
    ensures var block := EncodeFacilitiesBlock([PacketSize(p, q), WindowSize(v, w)]);
            && (block.Ok? <==> EncodePacketSize(p).Ok? && EncodePacketSize(q).Ok? && 1 <= v <= 127 && 1 <= w <= 127)
            && (block.Ok? ==> |block.value| == 7)
  {
    var facilities: seq<Facility> := [PacketSize(p, q), WindowSize(v, w)];
    assert facilities[1..] == [WindowSize(v, w)];
    assert facilities[1..][1..] == [];
    var window := EncodeList(facilities[1..], {0x42});
    assert EncodeList([], {0x42} + {0x43}) == Ok([]);
    assert window.Ok? <==> 1 <= v <= 127 && 1 <= w <= 127;
    assert window.Ok? ==> |window.value| == 3;
    assert {} + {0x42} == {0x42 as Byte};
  }

  function AddrBytes(called: X121Addr, calling: X121Addr): nat {
    1 + (|called.digits| + |calling.digits| + 1) / 2
  }

  /** The call request a circuit builds can be sent under exactly these conditions. */
  lemma CallRequestFits(channel: Channel, addr: X121Addr, userData: seq<Byte>, params: Params)
    ensures Fits(CallRequestPacket(CreateCallRequest(channel, addr, userData, params)))
       <==> && channel <= MAX_CHANNEL && ValidSizes(params) && ValidWindows(params)
            && 10 + AddrBytes(addr, params.addr) + |userData| <= MAX_CALL_LEN
  {
    SizesBlock(params.recvPacketSize, params.sendPacketSize, params.recvWindowSize, params.sendWindowSize);
    var p := CreateCallRequest(channel, addr, userData, params);
    assert |EncodeAddrBlock(p.called, p.calling)| == AddrBytes(addr, params.addr);
  }

  lemma CallAcceptFits(channel: Channel, params: Params)
    ensures Fits(CallAcceptPacket(CreateCallAccept(channel, params)))
       <==> channel <= MAX_CHANNEL && ValidSizes(params) && ValidWindows(params)
  {
    SizesBlock(params.sendPacketSize, params.recvPacketSize, params.sendWindowSize, params.recvWindowSize);
  }

  /** A set-up packet that fits arrives as it was built. */
  lemma SetUpArrives(p: Packet)
    requires Fits(p) && CanonicalPacket(p)
    ensures DecodePacket(EncodePacket(p).value) == Ok(p)
  {
    RoundTrip(p);
  }

  /** The two ends' parameters after the exchange of set-up packets. */
  function Exchange(caller: Params, called: Params, channel: Channel, addr: X121Addr, userData: seq<Byte>)
    : (Params, Params)
  {
    var called := NegotiateCalled(CreateCallRequest(channel, addr, userData, caller), called);
    (NegotiateCalling(CreateCallAccept(channel, called), caller), called)
  }

  /** Whatever the called side was configured for, both ends leave the exchange with
      the caller's modulus and mirrored sizes, and windows that are valid for it. */
  lemma EndsAgree(caller: Params, called: Params, channel: Channel, addr: X121Addr, userData: seq<Byte>)
    requires ValidWindows(caller)
    ensures var (p, q) := Exchange(caller, called, channel, addr, userData);
            && p.modulo == q.modulo == caller.modulo
            && p.sendPacketSize == q.recvPacketSize == caller.sendPacketSize
            && p.recvPacketSize == q.sendPacketSize == caller.recvPacketSize
            && p.sendWindowSize == q.recvWindowSize == Min(caller.sendWindowSize, p.modulo.Size() - 1)
            && p.recvWindowSize == q.sendWindowSize == Min(caller.recvWindowSize, p.modulo.Size() - 1)
            && p.WindowValid() && q.WindowValid() && ValidWindows(p) && ValidWindows(q)
            && p.addr == caller.addr && q.addr == called.addr
  {
    var request := CreateCallRequest(channel, addr, userData, caller);
    assert GetPacketSize(request.facilities) == Some((caller.recvPacketSize, caller.sendPacketSize));
    assert GetWindowSize(request.facilities) == Some((caller.recvWindowSize, caller.sendWindowSize)) by {
      assert request.facilities[1..][0].WindowSize?;
    }
    var q := NegotiateCalled(request, called);
    var accept := CreateCallAccept(channel, q);
    assert GetPacketSize(accept.facilities) == Some((q.sendPacketSize, q.recvPacketSize));
    assert GetWindowSize(accept.facilities) == Some((q.sendWindowSize, q.recvWindowSize)) by {
      assert accept.facilities[1..][0].WindowSize?;
    }
  }

  /** A circuit as `call` and `listen` make it. */
  predicate New(c: Circuit) {
    c.state.Ready? && c.sendQueue == [] && c.recvQueue == []
  }

  lemma CallArrives(a: Circuit, addr: X121Addr, userData: seq<Byte>)
    requires Fits(CallRequestPacket(CreateCallRequest(a.channel, addr, userData, a.params)))
    ensures var p := CallRequestPacket(CreateCallRequest(a.channel, addr, userData, a.params));
            && PlaceCall(a, addr, userData, Link(1, Fits)).out == [p]
            && DecodePacket(EncodePacket(p).value) == Ok(p)
    ensures ValidSizes(a.params) && ValidWindows(a.params)
  {
    CallRequestFits(a.channel, addr, userData, a.params);
    SetUpArrives(CallRequestPacket(CreateCallRequest(a.channel, addr, userData, a.params)));
  }

  lemma AcceptArrives(c: Circuit)
    requires c.channel <= MAX_CHANNEL && ValidSizes(c.params) && ValidWindows(c.params)
    ensures var p := CallAcceptPacket(CreateCallAccept(c.channel, c.params));
            && AcceptCall(c, Link(1, Fits)).out == [p]
            && AcceptCall(c, Link(1, Fits)).c == EnterDataTransfer(c)
            && DecodePacket(EncodePacket(p).value) == Ok(p)
  {
    CallAcceptFits(c.channel, c.params);
    SetUpArrives(CallAcceptPacket(CreateCallAccept(c.channel, c.params)));
  }

  /** The called side once `request` has arrived. */
  function Alerted(b: Circuit, request: CallRequest): Circuit {
    b.(params := NegotiateCalled(request, b.params), state := Called(request))
  }

  lemma AlertedIsHandled(b: Circuit, request: CallRequest, link: Link)
    requires b.state.Ready?
    ensures Handles(b, Some(CallRequestPacket(request)))
    ensures HandlePacket(b, Some(CallRequestPacket(request)), false, link) == Effect(Alerted(b, request), [], link)
  {
  }

  /** What a call request says: who is called, who calls, with what data, and the sizes
      the caller wants for packets in each direction. */
  predicate SaysCall(r: CallRequest, channel: Channel, addr: X121Addr, userData: seq<Byte>, params: Params) {
    && r.modulo == params.modulo && r.channel == channel
    && r.called == addr && r.calling == params.addr && r.userData == userData
    && |r.facilities| == 2
    && r.facilities[0] == PacketSize(params.recvPacketSize, params.sendPacketSize)
    && r.facilities[0].fromCalling == params.sendPacketSize
    && r.facilities[1] == WindowSize(params.recvWindowSize, params.sendWindowSize)
    && r.facilities[1].windowFromCalling == params.sendWindowSize
  }

  /** What a call accept says: the sizes of the called side, and nothing else. */
  predicate SaysAccept(r: CallAccept, channel: Channel, params: Params) {
    && r.modulo == params.modulo && r.channel == channel
    && r.called.digits == [] && r.calling.digits == [] && r.userData == []
    && |r.facilities| == 2
    && r.facilities[0] == PacketSize(params.sendPacketSize, params.recvPacketSize)
    && r.facilities[0].fromCalled == params.sendPacketSize
    && r.facilities[1] == WindowSize(params.sendWindowSize, params.recvWindowSize)
    && r.facilities[1].windowFromCalled == params.sendWindowSize
  }

  /** Setting up a call, over links that carry one packet each: the request arrives
      at the called side and is accepted there, which ends in a state of
      `CircuitSystem.Init`, with the caller's modulus. */
  lemma SetUpReachesInit(a: Circuit, b: Circuit, addr: X121Addr, userData: seq<Byte>)
    requires New(a) && New(b) && b.channel <= MAX_CHANNEL
    requires Fits(CallRequestPacket(CreateCallRequest(a.channel, addr, userData, a.params)))
    ensures var link := Link(1, Fits);
            var placed := PlaceCall(a, addr, userData, link);
            && |placed.out| == 1 && DecodePacket(EncodePacket(placed.out[0]).value) == Ok(placed.out[0])
            && Handles(b, Some(placed.out[0]))
            && (var called := HandlePacket(b, Some(placed.out[0]), false, link);
                && called.c.state.Called? && called.out == [] && called.link == link
                && SaysCall(called.c.state.callRequest, a.channel, addr, userData, a.params)
                && (var accepted := AcceptCall(called.c, link);
                    && |accepted.out| == 1
                    && DecodePacket(EncodePacket(accepted.out[0]).value) == Ok(accepted.out[0])
                    && accepted.out[0].CallAcceptPacket?
                    && SaysAccept(accepted.out[0].callAccept, b.channel, called.c.params)
                    && Init(Sys(NewParty(placed.c, 0), NewParty(accepted.c, 1), [], accepted.out), a.params.modulo)))
  {
    var request := CreateCallRequest(a.channel, addr, userData, a.params);
    CallArrives(a, addr, userData);
    AlertedIsHandled(b, request, Link(1, Fits));
    EndsAgree(a.params, b.params, a.channel, addr, userData);
    var c := Alerted(b, request);
    AcceptArrives(c);
    SizesPositive(a.params);
    InitAfter(a, c, a.params.modulo);
  }

  lemma InitAfter(a: Circuit, c: Circuit, modulo: Modulo)
    requires New(a) && c.sendQueue == [] && c.recvQueue == []
    requires c.params.modulo == modulo && c.params.WindowValid() && c.params.sendPacketSize > 0
    requires NegotiateCalling(CreateCallAccept(c.channel, c.params), a.params).WindowValid()
    requires NegotiateCalling(CreateCallAccept(c.channel, c.params), a.params).sendPacketSize > 0
    ensures var accept := CallAcceptPacket(CreateCallAccept(c.channel, c.params));
            Init(Sys(NewParty(a.(state := WaitCallAccept), 0), NewParty(EnterDataTransfer(c), 1), [], [accept]), modulo)
  {
  }

  // Calls that do not come about

  /** What a clear request without addresses, facilities or data says. */
  predicate SaysClear(r: ClearRequest, c: Circuit, cause: Byte, diagnostic: Byte) {
    && r.modulo == c.params.modulo && r.channel == c.channel
    && r.cause == cause && r.diagnostic == diagnostic
    && r.called.digits == [] && r.calling.digits == [] && r.facilities == [] && r.userData == []
  }

  lemma ClearArrives(c: Circuit, cause: Byte, diagnostic: Byte)
    requires c.channel <= MAX_CHANNEL
    ensures var p := ClearRequestOf(c, cause, diagnostic);
            && Fits(p) && p.ClearRequestPacket? && SaysClear(p.clearRequest, c, cause, diagnostic)
            && DecodePacket(EncodePacket(p).value) == Ok(p)
  {
    RoundTrip(ClearRequestOf(c, cause, diagnostic));
  }

  /** A call refused by the called user: the caller is told the cause and diagnostic
      given, both ends are cleared at once, and nothing more is sent. */
  lemma RefusedCall(caller: Circuit, called: Circuit, cause: Byte, diagnostic: Byte)
    requires caller.state.WaitCallAccept? && called.state.Called? && called.channel <= MAX_CHANNEL
    ensures var refused := RejectCall(called, cause, diagnostic, Link(1, Fits));
            && refused.c.state == Cleared(Local, None)
            && |refused.out| == 1 && refused.out[0].ClearRequestPacket?
            && (var r := refused.out[0].clearRequest;
                && SaysClear(r, called, cause, diagnostic)
                && DecodePacket(EncodePacket(refused.out[0]).value) == Ok(refused.out[0])
                && Handles(caller, Some(refused.out[0]))
                && (var told := HandlePacket(caller, Some(refused.out[0]), false, Link(1, Fits));
                    told.c.state == Cleared(Remote(r), None) && told.out == []))
  {
    ClearArrives(called, cause, diagnostic);
  }

  /** A call nobody answers in time: the caller asks to clear it with cause 19 and
      diagnostic 49, the called side is cleared by that and sends no confirm, and so the
      caller goes out of order when its next timer runs out. */
  lemma UnansweredCall(caller: Circuit, called: Circuit)
    requires caller.state.WaitCallAccept? && called.state.Called? && caller.channel <= MAX_CHANNEL
    ensures var cancelled := HandlePacket(caller, None, true, Link(1, Fits));
            && cancelled.c.state == WaitClearConfirm(TimeOut(21))
            && |cancelled.out| == 1 && cancelled.out[0].ClearRequestPacket?
            && (var r := cancelled.out[0].clearRequest;
                && SaysClear(r, caller, 19, 49)
                && DecodePacket(EncodePacket(cancelled.out[0]).value) == Ok(cancelled.out[0])
                && Handles(called, Some(cancelled.out[0]))
                && (var told := HandlePacket(called, Some(cancelled.out[0]), false, Link(1, Fits));
                    told.c.state == Cleared(Remote(r), None) && told.out == []))
            && HandlePacket(cancelled.c, None, true, Link(1, Fits)).c.state == OutOfOrder
  {
    ClearArrives(caller, 19, 49);
  }

  lemma SizesPositive(params: Params)
    requires ValidSizes(params)
    ensures 16 <= params.sendPacketSize <= 4096 && 16 <= params.recvPacketSize <= 4096
  {
  }

  // What a received set-up packet can do

  /** Facilities that encode are in range, one by one. */
  lemma {:induction false} EachEncodes(facilities: seq<Facility>, codes: set<Byte>)
    requires EncodeList(facilities, codes).Ok?
    ensures forall f | f in facilities :: EncodeParams(f).Ok?
  {
    if facilities != [] {
      EachEncodes(facilities[1..], codes + {facilities[0].Code()});
      assert facilities == [facilities[0]] + facilities[1..];
    }
  }

  lemma {:induction false} SizesInRange(facilities: seq<Facility>)
    requires forall f | f in facilities :: EncodeParams(f).Ok?
    ensures match GetPacketSize(facilities)
            case Some((p, q)) => EncodePacketSize(p).Ok? && EncodePacketSize(q).Ok?
            case None => true
    ensures match GetWindowSize(facilities)
            case Some((v, w)) => 1 <= v <= 127 && 1 <= w <= 127
            case None => true
  {
    if facilities != [] {
      assert EncodeParams(facilities[0]).Ok?;
      SizesInRange(facilities[1..]);
    }
  }

  function SetUpFacilities(p: Packet): seq<Facility> {
    match p
    case CallRequestPacket(request) => request.facilities
    case CallAcceptPacket(accept) => accept.facilities
    case _ => []
  }

  lemma ReceivedInRange(p: Packet)
    requires EncodePacket(p).Ok?
    ensures forall f | f in SetUpFacilities(p) :: EncodeParams(f).Ok?
  {
    if SetUpFacilities(p) != [] {
      assert EncodeFacilitiesBlock(SetUpFacilities(p)).Ok?;
      EachEncodes(SetUpFacilities(p), {});
    }
  }

  /** A received call accept leaves the caller with a valid window exactly when it
      states a window size or the caller's own is small enough for its modulus. */
  lemma CallAcceptWindow(buf: seq<Byte>, params: Params)
    requires DecodePacket(buf).Ok? && DecodePacket(buf).value.CallAcceptPacket?
    ensures var accept := DecodePacket(buf).value.callAccept;
            NegotiateCalling(accept, params).WindowValid()
            <==> || (exists f | f in accept.facilities :: f.WindowSize?)
                 || 0 < params.sendWindowSize < accept.modulo.Size()
  {
    DecodedIsSound(buf);
    ReceivedInRange(DecodePacket(buf).value);
    SizesInRange(DecodePacket(buf).value.callAccept.facilities);
    WindowSizeIsFirst(DecodePacket(buf).value.callAccept.facilities);
  }

  /** Likewise for the called side and a call request. */
  lemma CallRequestWindow(buf: seq<Byte>, params: Params)
    requires DecodePacket(buf).Ok? && DecodePacket(buf).value.CallRequestPacket?
    ensures var request := DecodePacket(buf).value.callRequest;
            NegotiateCalled(request, params).WindowValid()
            <==> || (exists f | f in request.facilities :: f.WindowSize?)
                 || 0 < params.sendWindowSize < request.modulo.Size()
  {
    DecodedIsSound(buf);
    ReceivedInRange(DecodePacket(buf).value);
    SizesInRange(DecodePacket(buf).value.callRequest.facilities);
    WindowSizeIsFirst(DecodePacket(buf).value.callRequest.facilities);
  }

  /** The other case does occur: an accept without facilities, in answer to a call
      with extended numbering and a window of 10, switches to a modulus of 8. */
  lemma CallAcceptWindowFails(params: Params)
    requires params.modulo == Extended && params.sendWindowSize == 10
    ensures var buf: seq<Byte> := [0x10, 0x01, 0x0f];
            && DecodePacket(buf).Ok? && DecodePacket(buf).value.CallAcceptPacket?
            && params.WindowValid() && !NegotiateCalling(DecodePacket(buf).value.callAccept, params).WindowValid()
  {
    var buf: seq<Byte> := [0x10, 0x01, 0x0f];
    assert buf[3..] == [];
    assert DecodeHeader(buf) == Ok(Header(Normal, 1, 1, 0x0f));
    assert DecodeOptionalBlocks(buf[3..]) == Ok((X121.NULL, X121.NULL, [], []));
    assert DecodePacket(buf) == Ok(CallAcceptPacket(CallAccept(Normal, 1, X121.NULL, X121.NULL, [], [])));
  }
}
