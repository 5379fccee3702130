/** X.25 facilities (`facility.rs`): the list of uniquely coded parameters in
    call set-up and clearing packets, as a mapping to and from bytes. */
module Facilities {
  import opened Wrappers

  datatype RawFacility =
    | PacketSize(fromCalled: nat, fromCalling: nat)
    | WindowSize(windowFromCalled: Byte, windowFromCalling: Byte)
    | ClassA(codeA: Byte, a0: Byte)
    | ClassB(codeB: Byte, b0: Byte, b1: Byte)
    | ClassC(codeC: Byte, c0: Byte, c1: Byte, c2: Byte)
    | ClassD(codeD: Byte, params: seq<Byte>)
  {
    function Code(): Byte {
      match this
      case PacketSize(_, _) => 0x42
      case WindowSize(_, _) => 0x43
      case ClassA(code, _) => code
      case ClassB(code, _, _) => code
      case ClassC(code, _, _, _) => code
      case ClassD(code, _) => code
    }

    /** A generic facility carries a code of its own class; encoding one that
        does not is a programming error in the source. */
    predicate InClass() {
      match this
      case PacketSize(_, _) => true
      case WindowSize(_, _) => true
      case ClassA(code, _) => ClassOf(code) == 0
      case ClassB(code, _, _) => ClassOf(code) == 1
      case ClassC(code, _, _, _) => ClassOf(code) == 2
      case ClassD(code, _) => ClassOf(code) == 3
    }

    /** Packet and window sizes appear under their own constructors. */
    predicate Canonical() {
      ClassB? ==> codeB != 0x42 && codeB != 0x43
    }
  }

  type Facility = f: RawFacility | f.InClass() witness ClassA(0, 0)

  /** The two top bits of a code. */
  function ClassOf(code: Byte): int {
    code / 64
  }

  predicate AllCanonical(facilities: seq<Facility>) {
    forall f | f in facilities :: f.Canonical()
  }

  function EncodePacketSize(size: nat): (r: Result<Byte>)
    ensures r.Ok? ==> DecodePacketSize(r.value) == Ok(size)
  {
    match size
    case 16 => Ok(4)
    case 32 => Ok(5)
    case 64 => Ok(6)
    case 128 => Ok(7)
    case 256 => Ok(8)
    case 512 => Ok(9)
    case 1024 => Ok(10)
    case 2048 => Ok(11)
    case 4096 => Ok(12)
    case _ => Err(BadFacility)
  }

  function Pow2(n: nat): nat {
    if n == 0 then 1 else 2 * Pow2(n - 1)
  }

  function DecodePacketSize(size: Byte): Result<nat> {
    if 4 <= size <= 12 then Ok(Pow2(size)) else Err(BadFacility)
  }

  lemma PacketSizeInverse(size: Byte)
    requires 4 <= size <= 12
    ensures EncodePacketSize(Pow2(size)) == Ok(size)
  {
    assert Pow2(4) == 16;
    assert Pow2(6) == 64;
    assert Pow2(8) == 256;
    assert Pow2(10) == 1024;
  }

  /** Everything after the code. */
  function EncodeParams(f: Facility): Result<seq<Byte>> {
    match f
    case PacketSize(called, calling) =>
      var called :- EncodePacketSize(called);
      var calling :- EncodePacketSize(calling);
      Ok([called, calling])
    case WindowSize(called, calling) =>
      if !(1 <= called <= 127) || !(1 <= calling <= 127) then Err(BadFacility) else Ok([called, calling])
    case ClassA(_, a0) => Ok([a0])
    case ClassB(_, b0, b1) => Ok([b0, b1])
    case ClassC(_, c0, c1, c2) => Ok([c0, c1, c2])
    case ClassD(_, params) => if |params| > 255 then Err(TooLong) else Ok([|params|] + params)
  }

  /** Encodes `facilities`, given the codes used before them. */
  function EncodeList(facilities: seq<Facility>, codes: set<Byte>): Result<seq<Byte>> {
    if facilities == [] then Ok([])
    else
      var code := facilities[0].Code();
      if code in codes then Err(BadFacility)
      else
        var params :- EncodeParams(facilities[0]);
        var rest :- EncodeList(facilities[1..], codes + {code});
        Ok([code] + params + rest)
  }

  /** The parameters of the facility coded `code`, and the bytes after them. */
  function DecodeParams(code: Byte, buf: seq<Byte>): (r: Result<(Facility, seq<Byte>)>)
    ensures r.Ok? ==> |r.value.1| <= |buf|
  {
    if ClassOf(code) == 0 then
      if |buf| < 1 then Err(TooShort) else Ok((ClassA(code, buf[0]), buf[1..]))
    else if ClassOf(code) == 1 then
      if |buf| < 2 then Err(TooShort)
      else if code == 0x42 then
        var called :- DecodePacketSize(buf[0]);
        var calling :- DecodePacketSize(buf[1]);
        Ok((PacketSize(called, calling), buf[2..]))
      else if code == 0x43 then
        if !(1 <= buf[0] <= 127) || !(1 <= buf[1] <= 127) then Err(BadFacility)
        else Ok((WindowSize(buf[0], buf[1]), buf[2..]))
      else Ok((ClassB(code, buf[0], buf[1]), buf[2..]))
    else if ClassOf(code) == 2 then
      if |buf| < 3 then Err(TooShort) else Ok((ClassC(code, buf[0], buf[1], buf[2]), buf[3..]))
    else
      if |buf| < 1 then Err(TooShort)
      else if |buf| - 1 < buf[0] then Err(Incomplete)
      else Ok((ClassD(code, buf[1..1 + buf[0]]), buf[1 + buf[0]..]))
  }

  function DecodeList(buf: seq<Byte>, codes: set<Byte>): Result<seq<Facility>>
    decreases |buf|
  {
    if buf == [] then Ok([])
    else if buf[0] in codes then Err(BadFacility)
    else
      var (facility, rest) :- DecodeParams(buf[0], buf[1..]);
      var facilities :- DecodeList(rest, codes + {buf[0]});
      Ok([facility] + facilities)
  }

  lemma ParamsRoundTrip(f: Facility, rest: seq<Byte>)
    requires f.Canonical() && EncodeParams(f).Ok?
    ensures DecodeParams(f.Code(), EncodeParams(f).value + rest) == Ok((f, rest))
  {
    var params := EncodeParams(f).value;
    assert (params + rest)[|params|..] == rest;
    if f.ClassD? {
      assert (params + rest)[1..1 + |f.params|] == f.params;
    }
  }

  /** Canonical facilities survive encoding and decoding. */
  lemma {:induction false} ListRoundTrip(facilities: seq<Facility>, codes: set<Byte>)
    requires AllCanonical(facilities) && EncodeList(facilities, codes).Ok?
    ensures DecodeList(EncodeList(facilities, codes).value, codes) == Ok(facilities)
  {
    if facilities != [] {
      var f := facilities[0];
      var params := EncodeParams(f).value;
      var rest := EncodeList(facilities[1..], codes + {f.Code()}).value;
      var whole := [f.Code()] + params + rest;
      assert whole[1..] == params + rest;
      ParamsRoundTrip(f, rest);
      ListRoundTrip(facilities[1..], codes + {f.Code()});
      assert facilities == [f] + facilities[1..];
    }
  }

  lemma ParamsInverse(code: Byte, buf: seq<Byte>)
    requires DecodeParams(code, buf).Ok?
    ensures var (f, rest) := DecodeParams(code, buf).value;
            && f.Code() == code && f.Canonical()
            && EncodeParams(f).Ok? && EncodeParams(f).value + rest == buf
  {
    if code == 0x42 {
      PacketSizeInverse(buf[0]);
      PacketSizeInverse(buf[1]);
    }
    var (f, rest) := DecodeParams(code, buf).value;
    if f.ClassD? {
      assert buf == [buf[0]] + buf[1..1 + buf[0]] + buf[1 + buf[0]..];
    }
  }

  lemma OneInverse(buf: seq<Byte>)
    requires buf != [] && DecodeParams(buf[0], buf[1..]).Ok?
    ensures var (f, rest) := DecodeParams(buf[0], buf[1..]).value;
            && f.Code() == buf[0] && f.Canonical() && EncodeParams(f).Ok?
            && [f.Code()] + EncodeParams(f).value + rest == buf
  {
    ParamsInverse(buf[0], buf[1..]);
    var (f, rest) := DecodeParams(buf[0], buf[1..]).value;
    calc {
      [f.Code()] + EncodeParams(f).value + rest;
      [buf[0]] + (EncodeParams(f).value + rest);
      [buf[0]] + buf[1..];
      buf;
    }
  }

  /** Bytes that decode at all are the only encoding of what they decode to. */
  lemma {:induction false} DecodeIsInjective(buf: seq<Byte>, codes: set<Byte>)
    requires DecodeList(buf, codes).Ok?
    ensures AllCanonical(DecodeList(buf, codes).value)
    ensures EncodeList(DecodeList(buf, codes).value, codes) == Ok(buf)
    decreases |buf|
  {
    if buf != [] {
      OneInverse(buf);
      var (f, rest) := DecodeParams(buf[0], buf[1..]).value;
      DecodeIsInjective(rest, codes + {buf[0]});
      EncodeCons(f, DecodeList(rest, codes + {buf[0]}).value, codes);
    }
  }

  lemma EncodeCons(f: Facility, facilities: seq<Facility>, codes: set<Byte>)
    requires f.Code() !in codes && EncodeParams(f).Ok? && EncodeList(facilities, codes + {f.Code()}).Ok?
    ensures EncodeList([f] + facilities, codes)
         == Ok([f.Code()] + EncodeParams(f).value + EncodeList(facilities, codes + {f.Code()}).value)
  {
    assert ([f] + facilities)[1..] == facilities;
  }

  predicate DistinctCodes(facilities: seq<Facility>) {
    forall i, j | 0 <= i < j < |facilities| :: facilities[i].Code() != facilities[j].Code()
  }

  /** A list can be encoded exactly when each of its facilities can, and no code occurs
      twice; so the same holds of every list decoded. */
  lemma {:induction false} ListEncodes(facilities: seq<Facility>, codes: set<Byte>)
    ensures EncodeList(facilities, codes).Ok?
       <==> && (forall f | f in facilities :: EncodeParams(f).Ok? && f.Code() !in codes)
            && DistinctCodes(facilities)
  {
    if facilities != [] {
      var (first, rest) := (facilities[0], facilities[1..]);
      ListEncodes(rest, codes + {first.Code()});
      assert facilities == [first] + rest;
      assert DistinctCodes(facilities) <==> DistinctCodes(rest) && forall f | f in rest :: f.Code() != first.Code();
    }
  }

  lemma DecodedCodesAreDistinct(buf: seq<Byte>)
    requires DecodeList(buf, {}).Ok?
    ensures DistinctCodes(DecodeList(buf, {}).value)
    ensures forall f | f in DecodeList(buf, {}).value :: EncodeParams(f).Ok?
  {
    DecodeIsInjective(buf, {});
    ListEncodes(DecodeList(buf, {}).value, {});
  }
}
