/** The coders of X.29 messages as loops over a buffer (`x29.rs`), against the
    mapping of module `X29`, and the user data of a PAD's call. */
module X29Codec {
  import opened Wrappers
  import opened Buffers
  import opened X121
  import opened Packets
  import opened Negotiation
  import opened Wire
  import opened Agreement
  import opened X29

  lemma {:induction false} PairBytesAppend(pairs: seq<(Byte, Byte)>, last: (Byte, Byte))
    ensures PairBytes(pairs + [last]) == PairBytes(pairs) + [last.0, last.1]
  {
    if pairs == [] {
      assert [last][1..] == [];
    } else {
      assert (pairs + [last])[1..] == pairs[1..] + [last];
      PairBytesAppend(pairs[1..], last);
      Assoc([pairs[0].0, pairs[0].1], PairBytes(pairs[1..]), [last.0, last.1]);
    }
  }

  method EncodeParamsRequest(request: seq<(Byte, Byte)>, buf: BytesMut) returns (len: nat)
    requires forall p | p in request :: p.0 <= 0x7f
    modifies buf
    ensures buf.data == old(buf.data) + PairBytes(request) && len == |PairBytes(request)|
  {
    ghost var start := buf.data;
    len := 0;
    for i := 0 to |request|
      invariant buf.data == start + PairBytes(request[..i]) && len == |PairBytes(request[..i])|
    {
      assert request[..i + 1] == request[..i] + [request[i]];
      PairBytesAppend(request[..i], request[i]);
      buf.PutU8(request[i].0);
      buf.PutU8(request[i].1);
      Assoc(start, PairBytes(request[..i]), [request[i].0, request[i].1]);
      len := len + 2;
    }
    assert request[..|request|] == request;
  }

  method EncodeParamsResponse(response: seq<(Byte, Outcome)>, buf: BytesMut) returns (len: nat)
    requires forall e | e in response :: e.0 <= 0x7f
    modifies buf
    ensures buf.data == old(buf.data) + PairBytes(EntryPairs(response))
    ensures len == |PairBytes(EntryPairs(response))|
  {
    ghost var start := buf.data;
    ghost var pairs := EntryPairs(response);
    len := 0;
    for i := 0 to |response|
      invariant buf.data == start + PairBytes(pairs[..i]) && len == |PairBytes(pairs[..i])|
    {
      assert pairs[..i + 1] == pairs[..i] + [pairs[i]];
      PairBytesAppend(pairs[..i], pairs[i]);
      var (param, value) := response[i];
      match value {
        case Value(value) =>
          buf.PutU8(param);
          buf.PutU8(value);
        case Refused(error) =>
          buf.PutU8(param + 0x80);
          buf.PutU8(CodeOf(error));
      }
      Assoc(start, PairBytes(pairs[..i]), [pairs[i].0, pairs[i].1]);
      len := len + 2;
    }
    assert pairs[..|pairs|] == pairs;
  }

  method EncodeMessage(m: PadMessage, buf: BytesMut) returns (len: nat)
    requires InRange(m)
    modifies buf
    ensures buf.data == old(buf.data) + Encode(m) && len == |Encode(m)|
  {
    ghost var start := buf.data;
    match m
    case Set(request) =>
      buf.PutU8(0x02);
      len := EncodeParamsRequest(request, buf);
      Assoc(start, [0x02], PairBytes(request));
      len := 1 + len;
    case Read(request) =>
      assert forall i | 0 <= i < |request| :: request[i] in request;
      buf.PutU8(0x04);
      len := EncodeParamsRequest(Zeros(request), buf);
      Assoc(start, [0x04], PairBytes(Zeros(request)));
      len := 1 + len;
    case SetRead(request) =>
      buf.PutU8(0x06);
      len := EncodeParamsRequest(request, buf);
      Assoc(start, [0x06], PairBytes(request));
      len := 1 + len;
    case Indicate(response) =>
      buf.PutU8(0x00);
      len := EncodeParamsResponse(response, buf);
      Assoc(start, [0x00], PairBytes(EntryPairs(response)));
      len := 1 + len;
    case ClearInvitation =>
      buf.PutU8(0x01);
      len := 1;
  }

  lemma PairsStep(param: Byte, value: Byte, rest: seq<Byte>)
    requires |rest| % 2 == 0
    ensures |[param] + ([value] + rest)| % 2 == 0
    ensures Pairs([param] + ([value] + rest)) == [(param, value)] + Pairs(rest)
  {
    var bytes := [param] + ([value] + rest);
    assert bytes[0] == param && bytes[1] == value && bytes[2..] == rest;
  }

  function Entries(bytes: seq<Byte>): seq<(Byte, Outcome)>
    requires |bytes| % 2 == 0
  {
    Map(PairEntry, Pairs(bytes))
  }

  lemma EntriesStep(response: seq<(Byte, Outcome)>, param: Byte, value: Byte, rest: seq<Byte>)
    requires |rest| % 2 == 0
    ensures |[param] + ([value] + rest)| % 2 == 0
    ensures response + Entries([param] + ([value] + rest)) == response + [PairEntry((param, value))] + Entries(rest)
  {
    PairsStep(param, value, rest);
    assert Entries([param] + ([value] + rest)) == [PairEntry((param, value))] + Entries(rest);
  }

  method DecodeParamsRequest(buf: Bytes) returns (r: Result<seq<(Byte, Byte)>>)
    modifies buf
    ensures r == if |old(buf.data)| % 2 != 0 then Err(BadMessage) else Ok(Pairs(old(buf.data)))
  {
    if |buf.data| % 2 != 0 {
      return Err(BadMessage);
    }
    var response: seq<(Byte, Byte)> := [];
    while buf.data != []
      invariant |buf.data| % 2 == 0
      invariant response + Pairs(buf.data) == Pairs(old(buf.data))
      decreases |buf.data|
    {
      var param := buf.GetU8();
      var value := buf.GetU8();
      PairsStep(param, value, buf.data);
      response := response + [(param, value)];
    }
    assert Pairs(buf.data) == [] && response + [] == response;
    return Ok(response);
  }

  method DecodeParamsResponse(buf: Bytes) returns (r: Result<seq<(Byte, Outcome)>>)
    modifies buf
    ensures r == if |old(buf.data)| % 2 != 0 then Err(BadMessage) else Ok(Map(PairEntry, Pairs(old(buf.data))))
  {
    if |buf.data| % 2 != 0 {
      return Err(BadMessage);
    }
    var response: seq<(Byte, Outcome)> := [];
    while buf.data != []
      invariant |buf.data| % 2 == 0
      invariant response + Entries(buf.data) == Entries(old(buf.data))
      decreases |buf.data|
    {
      var param := buf.GetU8();
      var value := buf.GetU8();
      EntriesStep(response, param, value, buf.data);
      if param < 0x80 {
        response := response + [(param, Value(value))];
      } else {
        response := response + [(param - 0x80, Refused(ErrorOf(value)))];
      }
    }
    assert Pairs(buf.data) == [] && response + [] == response;
    return Ok(response);
  }

  method DecodeMessage(bytes: seq<Byte>) returns (r: Result<PadMessage>)
    ensures r == Decode(bytes)
  {
    var buf := new Bytes(bytes);
    if |buf.data| < 1 {
      return Err(TooShort);
    }
    var code := buf.GetU8();
    assert buf.data == bytes[1..];
    match code {
      case 0x02 =>
        var request :- DecodeParamsRequest(buf);
        return Ok(Set(request));
      case 0x04 =>
        var request :- DecodeParamsRequest(buf);
        if exists p | p in request :: p.1 != 0 {
          return Err(BadMessage);
        }
        return Ok(Read(Numbers(request)));
      case 0x06 =>
        var request :- DecodeParamsRequest(buf);
        return Ok(SetRead(request));
      case 0x00 =>
        var response :- DecodeParamsResponse(buf);
        return Ok(Indicate(response));
      case 0x01 =>
        if |buf.data| > 0 {
          return Err(TooLong);
        }
        return Ok(ClearInvitation);
      case _ =>
        return Err(BadMessage);
    }
  }

  // Call user data

  datatype CallUserData = CallUserData(protocol: seq<Byte>, callData: seq<Byte>)

  const PAD_PROTOCOL: seq<Byte> := [0x01, 0x00, 0x00, 0x00]

  function WithCallData(callData: seq<Byte>): Result<CallUserData> {
    if |callData| > 12 then Err(TooLong) else Ok(CallUserData(PAD_PROTOCOL, callData))
  }

  function EncodeCallUserData(u: CallUserData): seq<Byte> {
    u.protocol + u.callData
  }

  function DecodeCallUserData(bytes: seq<Byte>): Result<CallUserData> {
    if |bytes| < 4 then Err(TooShort) else Ok(CallUserData(bytes[..4], bytes[4..]))
  }

  /** A PAD's call data reaches the called side, in a call request that always fits,
      with addresses of full length too, and says who calls whom. */
  lemma PadCallArrives(channel: Channel, addr: X121Addr, callData: seq<Byte>, params: Params)
    requires channel <= MAX_CHANNEL && ValidSizes(params) && ValidWindows(params) && |callData| <= 12
    ensures WithCallData(callData).Ok? && forall longer | |longer| > 12 :: WithCallData(longer).Err?
    ensures var userData := EncodeCallUserData(WithCallData(callData).value);
            var p := CallRequestPacket(CreateCallRequest(channel, addr, userData, params));
            && Fits(p) && DecodePacket(EncodePacket(p).value) == Ok(p)
            && SaysCall(p.callRequest, channel, addr, [0x01, 0x00, 0x00, 0x00] + callData, params)
            && DecodeCallUserData(p.callRequest.userData) == Ok(CallUserData([0x01, 0x00, 0x00, 0x00], callData))
  {
    var userData := EncodeCallUserData(WithCallData(callData).value);
    CallRequestFits(channel, addr, userData, params);
    SetUpArrives(CallRequestPacket(CreateCallRequest(channel, addr, userData, params)));
  }

}
