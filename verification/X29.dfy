/** Messages between PADs, after ITU-T X.29, and the user data of a PAD's call
    (`x29.rs`). */
module X29 {
  import opened Wrappers
  import opened X3

  datatype Outcome = Value(value: Byte) | Refused(error: ParamError)

  datatype PadMessage =
    | Set(setting: seq<(Byte, Byte)>)
    | Read(params: seq<Byte>)
    | SetRead(setting: seq<(Byte, Byte)>)
    | Indicate(response: seq<(Byte, Outcome)>)
    | ClearInvitation

  /** Parameter numbers the encoder accepts; it panics on others. */
  predicate InRange(m: PadMessage) {
    match m
    case Set(request) => forall p | p in request :: p.0 <= 0x7f
    case Read(request) => forall p | p in request :: p <= 0x7f
    case SetRead(request) => forall p | p in request :: p.0 <= 0x7f
    case Indicate(response) => forall p | p in response :: p.0 <= 0x7f
    case ClearInvitation => true
  }

  function PairBytes(pairs: seq<(Byte, Byte)>): seq<Byte> {
    if pairs == [] then [] else [pairs[0].0, pairs[0].1] + PairBytes(pairs[1..])
  }

  function Pairs(bytes: seq<Byte>): seq<(Byte, Byte)>
    requires |bytes| % 2 == 0
  {
    if bytes == [] then [] else [(bytes[0], bytes[1])] + Pairs(bytes[2..])
  }

  function CodeOf(error: ParamError): Byte {
    match error
    case Unsupported => 1
    case InvalidValue => 2
    case Other => 0
  }

  function ErrorOf(code: Byte): ParamError {
    match code
    case 1 => Unsupported
    case 2 => InvalidValue
    case _ => Other
  }

  /** One entry of a response: the top bit of the parameter marks an error. */
  function EntryPair(entry: (Byte, Outcome)): (Byte, Byte)
    requires entry.0 <= 0x7f
  {
    match entry.1
    case Value(value) => (entry.0, value)
    case Refused(error) => (entry.0 + 0x80, CodeOf(error))
  }

  function PairEntry(pair: (Byte, Byte)): (Byte, Outcome) {
    if pair.0 < 0x80 then (pair.0, Value(pair.1)) else (pair.0 - 0x80, Refused(ErrorOf(pair.1)))
  }

  function Map<A, B>(f: A -> B, s: seq<A>): (r: seq<B>)
    ensures |r| == |s| && forall i | 0 <= i < |s| :: r[i] == f(s[i])
  {
    seq(|s|, i requires 0 <= i < |s| => f(s[i]))
  }

  function EntryPairs(response: seq<(Byte, Outcome)>): (pairs: seq<(Byte, Byte)>)
    requires forall e | e in response :: e.0 <= 0x7f
    ensures |pairs| == |response| && forall i | 0 <= i < |response| :: pairs[i] == EntryPair(response[i])
  {
    seq(|response|, i requires 0 <= i < |response| => EntryPair(response[i]))
  }

  function Code(m: PadMessage): Byte {
    match m
    case Set(_) => 0x02
    case Read(_) => 0x04
    case SetRead(_) => 0x06
    case Indicate(_) => 0x00
    case ClearInvitation => 0x01
  }

  function Encode(m: PadMessage): seq<Byte>
    requires InRange(m)
  {
    [Code(m)] + Body(m)
  }

  function Decode(bytes: seq<Byte>): Result<PadMessage> {
    if |bytes| < 1 then Err(TooShort)
    else
      var rest := bytes[1..];
      if bytes[0] in {0x02, 0x04, 0x06, 0x00} && |rest| % 2 != 0 then Err(BadMessage)
      else
        match bytes[0]
        case 0x02 => Ok(Set(Pairs(rest)))
        case 0x04 =>
          if exists p | p in Pairs(rest) :: p.1 != 0 then Err(BadMessage)
          else Ok(Read(Numbers(Pairs(rest))))
        case 0x06 => Ok(SetRead(Pairs(rest)))
        case 0x00 => Ok(Indicate(Map(PairEntry, Pairs(rest))))
        case 0x01 => if |rest| > 0 then Err(TooLong) else Ok(ClearInvitation)
        case _ => Err(BadMessage)
  }

  lemma {:induction false} PairsRoundTrip(pairs: seq<(Byte, Byte)>)
    ensures |PairBytes(pairs)| == 2 * |pairs|
    ensures Pairs(PairBytes(pairs)) == pairs
  {
    if pairs != [] {
      PairsRoundTrip(pairs[1..]);
      assert PairBytes(pairs)[2..] == PairBytes(pairs[1..]);
    }
  }

  lemma {:induction false} PairsInverse(bytes: seq<Byte>)
    requires |bytes| % 2 == 0
    ensures PairBytes(Pairs(bytes)) == bytes
  {
    if bytes != [] {
      PairsInverse(bytes[2..]);
      assert Pairs(bytes)[1..] == Pairs(bytes[2..]);
      assert bytes == [bytes[0], bytes[1]] + bytes[2..];
    }
  }

  function Zeros(params: seq<Byte>): seq<(Byte, Byte)> {
    Map((p: Byte) => (p, 0), params)
  }

  function Numbers(pairs: seq<(Byte, Byte)>): seq<Byte> {
    Map((p: (Byte, Byte)) => p.0, pairs)
  }

  lemma ResponseRoundTrip(response: seq<(Byte, Outcome)>)
    requires forall e | e in response :: e.0 <= 0x7f
    ensures |PairBytes(EntryPairs(response))| % 2 == 0
    ensures Map(PairEntry, Pairs(PairBytes(EntryPairs(response)))) == response
  {
    PairsRoundTrip(EntryPairs(response));
    EntriesRoundTrip(response);
  }

  lemma EntriesRoundTrip(response: seq<(Byte, Outcome)>)
    requires forall e | e in response :: e.0 <= 0x7f
    ensures Map(PairEntry, EntryPairs(response)) == response
  {
    forall i | 0 <= i < |response|
      ensures PairEntry(EntryPair(response[i])) == response[i]
    {
      assert response[i] in response;
    }
  }

  lemma NumbersOfZeros(params: seq<Byte>)
    ensures Numbers(Zeros(params)) == params
    ensures forall p | p in Zeros(params) :: p.1 == 0
  {
  }

  lemma ReadRoundTrip(params: seq<Byte>)
    ensures |PairBytes(Zeros(params))| % 2 == 0
    ensures Numbers(Pairs(PairBytes(Zeros(params)))) == params
    ensures forall p | p in Pairs(PairBytes(Zeros(params))) :: p.1 == 0
  {
    PairsRoundTrip(Zeros(params));
    NumbersOfZeros(params);
  }

  /** The bytes of a message after the first. */
  function Body(m: PadMessage): seq<Byte>
    requires InRange(m)
  {
    match m
    case Set(request) => PairBytes(request)
    case Read(request) => PairBytes(Zeros(request))
    case SetRead(request) => PairBytes(request)
    case Indicate(response) => PairBytes(EntryPairs(response))
    case ClearInvitation => []
  }

  lemma BodyRoundTrip(m: PadMessage)
    requires InRange(m)
    ensures |Body(m)| % 2 == 0
    ensures m.Set? || m.SetRead? ==> Pairs(Body(m)) == m.setting
    ensures m.Read? ==> Numbers(Pairs(Body(m))) == m.params && forall p | p in Pairs(Body(m)) :: p.1 == 0
    ensures m.Indicate? ==> Map(PairEntry, Pairs(Body(m))) == m.response
  {
    match m
    case Set(request) => PairsRoundTrip(request);
    case SetRead(request) => PairsRoundTrip(request);
    case Read(request) => ReadRoundTrip(request);
    case Indicate(response) => ResponseRoundTrip(response);
    case ClearInvitation =>
  }

  /** Every message comes back from its encoding. */
  lemma MessageRoundTrip(m: PadMessage)
    requires InRange(m)
    ensures Decode(Encode(m)) == Ok(m)
  {
    BodyRoundTrip(m);
    assert Encode(m)[1..] == Body(m);
  }

  predicate Meaningful(pairs: seq<(Byte, Byte)>) {
    forall p | p in pairs :: p.0 >= 0x80 ==> p.1 <= 2
  }

  lemma EntryOfPair(pair: (Byte, Byte))
    ensures EntryPair(PairEntry(pair)) == pair <==> (pair.0 >= 0x80 ==> pair.1 <= 2)
  {
  }

  lemma ResponsePairs(pairs: seq<(Byte, Byte)>)
    ensures EntryPairs(Map(PairEntry, pairs)) == pairs <==> Meaningful(pairs)
  {
    var again := EntryPairs(Map(PairEntry, pairs));
    forall i | 0 <= i < |pairs|
      ensures again[i] == pairs[i] <==> (pairs[i].0 >= 0x80 ==> pairs[i].1 <= 2)
    {
      EntryOfPair(pairs[i]);
    }
    if again != pairs {
      assert exists i | 0 <= i < |pairs| :: again[i] != pairs[i];
    }
  }

  lemma ResponseBytes(bytes: seq<Byte>)
    requires |bytes| % 2 == 0
    ensures PairBytes(EntryPairs(Map(PairEntry, Pairs(bytes)))) == bytes <==> Meaningful(Pairs(bytes))
  {
    PairsInverse(bytes);
    PairsRoundTrip(EntryPairs(Map(PairEntry, Pairs(bytes))));
    ResponsePairs(Pairs(bytes));
  }

  /** A decoded message encodes to the bytes it came from, unless it is an indication
      with an error code of no meaning: those are all read as `Other`. */
  lemma DecodedBytes(bytes: seq<Byte>)
    requires Decode(bytes).Ok? && InRange(Decode(bytes).value)
    ensures Encode(Decode(bytes).value) == bytes <==> (bytes[0] == 0x00 ==> Meaningful(Pairs(bytes[1..])))
  {
    var rest := bytes[1..];
    assert bytes == [bytes[0]] + rest;
    if bytes[0] == 0x00 {
      ResponseBytes(rest);
      var again := PairBytes(EntryPairs(Map(PairEntry, Pairs(rest))));
      assert ([0 as Byte] + again)[1..] == again;
    } else if bytes[0] != 0x01 {
      PairsInverse(rest);
      if bytes[0] == 0x04 {
        assert forall i | 0 <= i < |Pairs(rest)| :: Pairs(rest)[i] in Pairs(rest);
        assert Zeros(Numbers(Pairs(rest))) == Pairs(rest);
      }
    }
  }
}
