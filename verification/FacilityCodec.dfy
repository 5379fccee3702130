/** The loops over facilities lists (`facility.rs`), against the mapping of module
    `Facilities`. */
module FacilityCodec {
  import opened Wrappers
  import opened Buffers
  import opened Facilities

  method EncodeOneFacility(f: Facility, buf: BytesMut) returns (r: Result<nat>)
    modifies buf
    ensures Appended(old(buf.data), buf.data, r, EncodeParams(f))
  {
    match f
    case PacketSize(called, calling) =>
      var called: Byte :- EncodePacketSize(called);
      var calling: Byte :- EncodePacketSize(calling);
      buf.PutU8(called);
      buf.PutU8(calling);
      return Ok(2);
    case WindowSize(called, calling) =>
      if !(1 <= called <= 127) || !(1 <= calling <= 127) {
        return Err(BadFacility);
      }
      buf.PutU8(called);
      buf.PutU8(calling);
      return Ok(2);
    case ClassA(_, a0) =>
      buf.PutU8(a0);
      return Ok(1);
    case ClassB(_, b0, b1) =>
      buf.PutU8(b0);
      buf.PutU8(b1);
      return Ok(2);
    case ClassC(_, c0, c1, c2) =>
      buf.PutU8(c0);
      buf.PutU8(c1);
      buf.PutU8(c2);
      return Ok(3);
    case ClassD(_, params) =>
      if |params| > 255 {
        return Err(TooLong);
      }
      buf.PutU8(|params|);
      buf.PutSlice(params);
      return Ok(1 + |params|);
  }

  /** `whole` is what comes of `done` followed by `rest`. */
  predicate Continues<T(==)>(whole: Result<seq<T>>, done: seq<T>, rest: Result<seq<T>>) {
    match rest
    case Ok(items) => whole == Ok(done + items)
    case Err(e) => whole == Err(e)
  }

  lemma ContinuesFromStart<T>(whole: Result<seq<T>>)
    ensures Continues(whole, [], whole)
  {
    assert whole.Ok? ==> [] + whole.value == whole.value;
  }

  lemma ContinuesOneMore<T>(whole: Result<seq<T>>, done: seq<T>, piece: seq<T>, rest: Result<seq<T>>)
    requires Continues(whole, done, if rest.Ok? then Ok(piece + rest.value) else rest)
    ensures Continues(whole, done + piece, rest)
  {
    assert rest.Ok? ==> done + (piece + rest.value) == done + piece + rest.value;
  }

  lemma ContinuesToEnd<T>(whole: Result<seq<T>>, done: seq<T>)
    requires Continues(whole, done, Ok([]))
    ensures whole == Ok(done)
  {
    assert done + [] == done;
  }

  method EncodeFacilities(facilities: seq<Facility>, buf: BytesMut) returns (r: Result<nat>)
    modifies buf
    ensures Appended(old(buf.data), buf.data, r, EncodeList(facilities, {}))
  {
    var codes: set<Byte> := {};
    var len := 0;
    ghost var done: seq<Byte> := [];
    var i := 0;
    ContinuesFromStart(EncodeList(facilities, {}));
    assert facilities[0..] == facilities;
    while i < |facilities|
      invariant 0 <= i <= |facilities|
      invariant buf.data == old(buf.data) + done && len == |done|
      invariant Continues(EncodeList(facilities, {}), done, EncodeList(facilities[i..], codes))
    {
      var f := facilities[i];
      var code := f.Code();
      assert facilities[i..][0] == f && facilities[i..][1..] == facilities[i + 1..];
      if code in codes {
        return Err(BadFacility);
      }
      codes := codes + {code};
      buf.PutU8(code);
      var paramsLen :- EncodeOneFacility(f, buf);
      len := len + 1 + paramsLen;
      ghost var piece := [code] + EncodeParams(f).value;
      ContinuesOneMore(EncodeList(facilities, {}), done, piece, EncodeList(facilities[i + 1..], codes));
      done := done + piece;
      assert buf.data == old(buf.data) + done;
      i := i + 1;
    }
    ContinuesToEnd(EncodeList(facilities, {}), done);
    return Ok(len);
  }

  method DecodeClassB(code: Byte, buf: Bytes) returns (r: Result<Facility>)
    requires ClassOf(code) == 1
    modifies buf
    ensures match DecodeParams(code, old(buf.data))
            case Ok((f, rest)) => r == Ok(f) && buf.data == rest
            case Err(e) => r == Err(e)
  {
    if |buf.data| < 2 {
      return Err(TooShort);
    }
    ghost var all := buf.data;
    var b0 := buf.GetU8();
    var b1 := buf.GetU8();
    assert all[0] == b0 && all[1] == b1 && all[2..] == buf.data;
    if code == 0x42 {
      var called: nat :- DecodePacketSize(b0);
      var calling: nat :- DecodePacketSize(b1);
      return Ok(PacketSize(called, calling));
    }
    if code == 0x43 {
      if !(1 <= b0 <= 127) || !(1 <= b1 <= 127) {
        return Err(BadFacility);
      }
      return Ok(WindowSize(b0, b1));
    }
    return Ok(ClassB(code, b0, b1));
  }

  method DecodeClassD(code: Byte, buf: Bytes) returns (r: Result<Facility>)
    requires ClassOf(code) == 3
    modifies buf
    ensures match DecodeParams(code, old(buf.data))
            case Ok((f, rest)) => r == Ok(f) && buf.data == rest
            case Err(e) => r == Err(e)
  {
    if |buf.data| < 1 {
      return Err(TooShort);
    }
    ghost var all := buf.data;
    var len := buf.GetU8();
    if |buf.data| < len {
      return Err(Incomplete);
    }
    var params := buf.SplitTo(len);
    assert all[1..1 + len] == params && all[1 + len..] == buf.data;
    return Ok(ClassD(code, params));
  }

  method DecodeOneFacility(code: Byte, buf: Bytes) returns (r: Result<Facility>)
    modifies buf
    ensures match DecodeParams(code, old(buf.data))
            case Ok((f, rest)) => r == Ok(f) && buf.data == rest
            case Err(e) => r == Err(e)
  {
    ghost var all := buf.data;
    if ClassOf(code) == 0 {
      if |buf.data| < 1 {
        return Err(TooShort);
      }
      var a0 := buf.GetU8();
      return Ok(ClassA(code, a0));
    } else if ClassOf(code) == 1 {
      r := DecodeClassB(code, buf);
    } else if ClassOf(code) == 2 {
      if |buf.data| < 3 {
        return Err(TooShort);
      }
      var c0 := buf.GetU8();
      var c1 := buf.GetU8();
      var c2 := buf.GetU8();
      assert all[0] == c0 && all[1] == c1 && all[2] == c2 && all[3..] == buf.data;
      return Ok(ClassC(code, c0, c1, c2));
    } else {
      r := DecodeClassD(code, buf);
    }
  }

  method DecodeFacilities(buf: Bytes) returns (r: Result<seq<Facility>>)
    modifies buf
    ensures r == DecodeList(old(buf.data), {})
  {
    var facilities: seq<Facility> := [];
    var codes: set<Byte> := {};
    ContinuesFromStart(DecodeList(buf.data, {}));
    while buf.data != []
      invariant Continues(DecodeList(old(buf.data), {}), facilities, DecodeList(buf.data, codes))
      decreases |buf.data|
    {
      var code := buf.GetU8();
      if code in codes {
        return Err(BadFacility);
      }
      codes := codes + {code};
      var facility :- DecodeOneFacility(code, buf);
      ContinuesOneMore(DecodeList(old(buf.data), {}), facilities, [facility], DecodeList(buf.data, codes));
      facilities := facilities + [facility];
    }
    ContinuesToEnd(DecodeList(old(buf.data), {}), facilities);
    return Ok(facilities);
  }
}
