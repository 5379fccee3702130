/** Call parameters and their negotiation at call set-up (`params.rs` and the end
    of `vc.rs`), after section 6.12 of ITU-T X.25. */
module Negotiation {
  import opened Wrappers
  import opened Seq
  import opened X121
  import opened Facilities
  import opened Packets

  datatype Params = Params(
    addr: X121Addr, modulo: Modulo,
    sendPacketSize: nat, sendWindowSize: Byte,
    recvPacketSize: nat, recvWindowSize: Byte)
  {
    /** What a window made from these parameters is asserted to satisfy. */
    predicate WindowValid() {
      0 < sendWindowSize < modulo.Size()
    }
  }

  function CreateCallRequest(channel: Channel, addr: X121Addr, userData: seq<Byte>, params: Params): CallRequest {
    CallRequest(params.modulo, channel, addr, params.addr,
                [PacketSize(params.recvPacketSize, params.sendPacketSize),
                 WindowSize(params.recvWindowSize, params.sendWindowSize)],
                userData)
  }

  function CreateCallAccept(channel: Channel, params: Params): CallAccept {
    CallAccept(params.modulo, channel, X121.NULL, X121.NULL,
               [PacketSize(params.sendPacketSize, params.recvPacketSize),
                WindowSize(params.sendWindowSize, params.recvWindowSize)],
               [])
  }

  /** The packet sizes from the called and the calling side, if any are given. */
  function GetPacketSize(facilities: seq<Facility>): Option<(nat, nat)> {
    if facilities == [] then None
    else if facilities[0].PacketSize? then Some((facilities[0].fromCalled, facilities[0].fromCalling))
    else GetPacketSize(facilities[1..])
  }

  function GetWindowSize(facilities: seq<Facility>): Option<(Byte, Byte)> {
    if facilities == [] then None
    else if facilities[0].WindowSize? then Some((facilities[0].windowFromCalled, facilities[0].windowFromCalling))
    else GetWindowSize(facilities[1..])
  }

  predicate StatesSize(f: Facility, window: bool) {
    if window then f.WindowSize? else f.PacketSize?
  }

  /** Facility `i` is the first to state a size. */
  predicate IsFirst(facilities: seq<Facility>, i: nat, window: bool) {
    i < |facilities| && StatesSize(facilities[i], window) && forall j | 0 <= j < i :: !StatesSize(facilities[j], window)
  }

  lemma FirstOfRest(facilities: seq<Facility>, i: nat, window: bool)
    requires facilities != [] && !StatesSize(facilities[0], window) && IsFirst(facilities[1..], i, window)
    ensures IsFirst(facilities, i + 1, window) && facilities[i + 1] == facilities[1..][i]
  {
    assert forall j | 0 < j < |facilities| :: facilities[j] == facilities[1..][j - 1];
  }

  /** Packet sizes are those of the first facility that states any. */
  lemma {:induction false} PacketSizeIsFirst(facilities: seq<Facility>)
    ensures match GetPacketSize(facilities)
            case None => forall f | f in facilities :: !f.PacketSize?
            case Some((called, calling)) =>
              exists i: nat :: IsFirst(facilities, i, false) && facilities[i] == PacketSize(called, calling)
  {
    if facilities != [] && facilities[0].PacketSize? {
      assert IsFirst(facilities, 0, false);
    } else if facilities != [] {
      PacketSizeIsFirst(facilities[1..]);
      assert facilities == [facilities[0]] + facilities[1..];
      if GetPacketSize(facilities).Some? {
        var (called, calling) := GetPacketSize(facilities).value;
        var i: nat :| IsFirst(facilities[1..], i, false) && facilities[1..][i] == PacketSize(called, calling);
        FirstOfRest(facilities, i, false);
      }
    }
  }

  /** So are window sizes. */
  lemma {:induction false} WindowSizeIsFirst(facilities: seq<Facility>)
    ensures match GetWindowSize(facilities)
            case None => forall f | f in facilities :: !f.WindowSize?
            case Some((called, calling)) =>
              exists i: nat :: IsFirst(facilities, i, true) && facilities[i] == WindowSize(called, calling)
  {
    if facilities != [] && facilities[0].WindowSize? {
      assert IsFirst(facilities, 0, true);
    } else if facilities != [] {
      WindowSizeIsFirst(facilities[1..]);
      assert facilities == [facilities[0]] + facilities[1..];
      if GetWindowSize(facilities).Some? {
        var (called, calling) := GetWindowSize(facilities).value;
        var i: nat :| IsFirst(facilities[1..], i, true) && facilities[1..][i] == WindowSize(called, calling);
        FirstOfRest(facilities, i, true);
      }
    }
  }

  function ClampWindowSize(size: Byte, modulo: Modulo): Byte {
    Min(size, modulo.Size() - 1)
  }

  /** The caller's parameters after the call is accepted. */
  function NegotiateCalling(accept: CallAccept, params: Params): Params {
    var params := params.(modulo := accept.modulo);
    var params :=
      match GetPacketSize(accept.facilities)
      case Some((called, calling)) => params.(sendPacketSize := calling, recvPacketSize := called)
      case None => params;
    match GetWindowSize(accept.facilities)
    case Some((called, calling)) =>
      params.(sendWindowSize := ClampWindowSize(calling, params.modulo),
              recvWindowSize := ClampWindowSize(called, params.modulo))
    case None => params
  }

  /** The called side's parameters after a call request arrives. */
  function NegotiateCalled(request: CallRequest, params: Params): Params {
    var params := params.(modulo := request.modulo);
    var params :=
      match GetPacketSize(request.facilities)
      case Some((called, calling)) => params.(sendPacketSize := called, recvPacketSize := calling)
      case None => params;
    match GetWindowSize(request.facilities)
    case Some((called, calling)) =>
      params.(sendWindowSize := ClampWindowSize(called, params.modulo),
              recvWindowSize := ClampWindowSize(calling, params.modulo))
    case None => params
  }

  /** What a received set-up packet makes of an end's parameters: the modulus is the
      packet's; sizes it states are taken over, those of windows cut to the modulus;
      sizes it does not state stay as they were. */
  ghost predicate Settles(facilities: seq<Facility>, modulo: Modulo, calling: bool, before: Params, after: Params) {
    && after.modulo == modulo && after.addr == before.addr
    && ((forall f | f in facilities :: !f.PacketSize?) ==>
          after.sendPacketSize == before.sendPacketSize && after.recvPacketSize == before.recvPacketSize)
    && ((forall f | f in facilities :: !f.WindowSize?) ==>
          after.sendWindowSize == before.sendWindowSize && after.recvWindowSize == before.recvWindowSize)
    && (forall i: nat | IsFirst(facilities, i, false) ::
          && after.sendPacketSize == (if calling then facilities[i].fromCalling else facilities[i].fromCalled)
          && after.recvPacketSize == (if calling then facilities[i].fromCalled else facilities[i].fromCalling))
    && (forall i: nat | IsFirst(facilities, i, true) ::
          && after.sendWindowSize
             == Min(if calling then facilities[i].windowFromCalling else facilities[i].windowFromCalled, modulo.Size() - 1)
          && after.recvWindowSize
             == Min(if calling then facilities[i].windowFromCalled else facilities[i].windowFromCalling, modulo.Size() - 1))
  }

  /** There is only one first. */
  lemma FirstIsUnique(facilities: seq<Facility>, i: nat, j: nat, window: bool)
    requires IsFirst(facilities, i, window) && IsFirst(facilities, j, window)
    ensures i == j
  {
  }

  lemma SizesFound(facilities: seq<Facility>)
    ensures (exists f | f in facilities :: f.PacketSize?) <==> GetPacketSize(facilities).Some?
    ensures forall i: nat | IsFirst(facilities, i, false) ::
              GetPacketSize(facilities) == Some((facilities[i].fromCalled, facilities[i].fromCalling))
    ensures (exists f | f in facilities :: f.WindowSize?) <==> GetWindowSize(facilities).Some?
    ensures forall i: nat | IsFirst(facilities, i, true) ::
              GetWindowSize(facilities) == Some((facilities[i].windowFromCalled, facilities[i].windowFromCalling))
  {
    PacketSizeIsFirst(facilities);
    WindowSizeIsFirst(facilities);
    forall i: nat | IsFirst(facilities, i, false)
      ensures GetPacketSize(facilities) == Some((facilities[i].fromCalled, facilities[i].fromCalling))
    {
      assert facilities[i] in facilities;
      var (called, calling) := GetPacketSize(facilities).value;
      var j: nat :| IsFirst(facilities, j, false) && facilities[j] == PacketSize(called, calling);
      FirstIsUnique(facilities, i, j, false);
    }
    forall i: nat | IsFirst(facilities, i, true)
      ensures GetWindowSize(facilities) == Some((facilities[i].windowFromCalled, facilities[i].windowFromCalling))
    {
      assert facilities[i] in facilities;
      var (called, calling) := GetWindowSize(facilities).value;
      var j: nat :| IsFirst(facilities, j, true) && facilities[j] == WindowSize(called, calling);
      FirstIsUnique(facilities, i, j, true);
    }
  }

  lemma CallingSettles(accept: CallAccept, params: Params)
    ensures Settles(accept.facilities, accept.modulo, true, params, NegotiateCalling(accept, params))
  {
    SizesFound(accept.facilities);
  }

  lemma CalledSettles(request: CallRequest, params: Params)
    ensures Settles(request.facilities, request.modulo, false, params, NegotiateCalled(request, params))
  {
    SizesFound(request.facilities);
  }
}
