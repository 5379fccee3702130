/** How a PAD makes messages of the bytes typed at it (`pad.rs`), as functions, and
    what becomes of the bytes. */
module PadStreams {
  import opened Wrappers
  import opened X3

  /** What stays fixed: the forwarding parameter, whether a line feed follows a
      carriage return sent, the packet size and the idle delay. */
  datatype Config = Config(forward: Forward, lf: bool, size: nat, delay: Option<nat>)

  /** The messages given to the circuit, what waits to be sent and until when, what
      was lost to calls that failed, and how many more calls will succeed. */
  datatype Assembly = Assembly(
    messages: seq<seq<Byte>>, queue: seq<Byte>, deadline: Option<nat>, lost: seq<Byte>, room: nat)

  /** How far a write came, and whether it succeeded. */
  datatype Typed = Typed(a: Assembly, count: nat, ok: bool)

  function OneWithLf(byte: Byte, lf: bool): seq<Byte> {
    if byte == CR && lf then [byte, LF] else [byte]
  }

  /** The bytes with a line feed after each carriage return, if `lf`. */
  function WithLf(bytes: seq<Byte>, lf: bool): seq<Byte> {
    if bytes == [] then [] else OneWithLf(bytes[0], lf) + WithLf(bytes[1..], lf)
  }

  function SendOff(a: Assembly): Assembly {
    if a.room > 0 then Assembly(a.messages + [a.queue], [], None, a.lost, a.room - 1)
    else Assembly(a.messages, [], None, a.lost + a.queue, 0)
  }

  function Type(a: Assembly, byte: Byte, cfg: Config): Assembly {
    var typed := a.(queue := a.queue + OneWithLf(byte, cfg.lf));
    if IsMatch(cfg.forward, byte) || |typed.queue| >= cfg.size then SendOff(typed) else typed
  }

  /** Does typing `byte` make a call that fails? */
  predicate Fails(a: Assembly, byte: Byte, cfg: Config) {
    a.room == 0 && (IsMatch(cfg.forward, byte) || |a.queue + OneWithLf(byte, cfg.lf)| >= cfg.size)
  }

  function TypeAll(a: Assembly, buf: seq<Byte>, cfg: Config): (t: Typed)
    ensures t.count <= |buf| && (t.ok ==> t.count == |buf|)
    decreases |buf|
  {
    if buf == [] then Typed(a, 0, true)
    else if Fails(a, buf[0], cfg) then Typed(Type(a, buf[0], cfg), 1, false)
    else
      var rest := TypeAll(Type(a, buf[0], cfg), buf[1..], cfg);
      rest.(count := rest.count + 1)
  }

  /** A write at time `now`. */
  function Written(a: Assembly, buf: seq<Byte>, cfg: Config, now: nat): Typed {
    var t := TypeAll(a, buf, cfg);
    if buf != [] && t.ok && t.a.queue != [] && cfg.delay.Some? then t.(a := t.a.(deadline := Some(now + cfg.delay.value)))
    else t
  }

  predicate Overdue(a: Assembly, now: nat) {
    a.deadline.Some? && a.queue != [] && now >= a.deadline.value
  }

  datatype PadEvent = WriteBytes(buf: seq<Byte>, now: nat) | IdleCheck(now: nat) | FlushQueue

  /** A PAD and all that was typed at it. */
  datatype Session = Session(a: Assembly, input: seq<Byte>)

  function Step(s: Session, event: PadEvent, cfg: Config): Session {
    match event
    case WriteBytes(buf, now) =>
      var t := Written(s.a, buf, cfg, now);
      Session(t.a, s.input + buf[..t.count])
    case IdleCheck(now) => if Overdue(s.a, now) then s.(a := SendOff(s.a)) else s
    case FlushQueue => s.(a := SendOff(s.a))
  }

  function PadRun(s: Session, events: seq<PadEvent>, cfg: Config): Session
    decreases |events|
  {
    if events == [] then s else PadRun(Step(s, events[0], cfg), events[1..], cfg)
  }

  /** All that happens at a new PAD whose circuit takes `room` calls. */
  function SessionOf(room: nat, events: seq<PadEvent>, cfg: Config): Session {
    PadRun(Session(Assembly([], [], None, [], room), []), events, cfg)
  }

  // Bytes

  lemma {:induction false} WithLfAppend(x: seq<Byte>, y: seq<Byte>, lf: bool)
    ensures WithLf(x + y, lf) == WithLf(x, lf) + WithLf(y, lf)
  {
    if x == [] {
      assert x + y == y;
    } else {
      assert (x + y)[1..] == x[1..] + y;
      WithLfAppend(x[1..], y, lf);
      var (first, rest) := (OneWithLf(x[0], lf), WithLf(x[1..], lf));
      assert first + rest + WithLf(y, lf) == first + (rest + WithLf(y, lf));
    }
  }

  lemma WithLfOne(x: seq<Byte>, byte: Byte, lf: bool)
    ensures WithLf(x + [byte], lf) == WithLf(x, lf) + OneWithLf(byte, lf)
  {
    WithLfAppend(x, [byte], lf);
    assert [byte][1..] == [];
  }

  /** Each byte is there, in order, and a line feed follows each carriage return if
      `lf`; nothing else is. */
  lemma WithLfAt(bytes: seq<Byte>, lf: bool, i: nat)
    requires i < |bytes|
    ensures var (r, k) := (WithLf(bytes, lf), |WithLf(bytes[..i], lf)|);
            && k < |r| && r[k] == bytes[i]
            && (lf && bytes[i] == 0x0d ==> k + 1 < |r| && r[k + 1] == 0x0a)
            && |WithLf(bytes[..i + 1], lf)| == k + if lf && bytes[i] == 0x0d then 2 else 1
  {
    assert bytes[..i + 1] == bytes[..i] + [bytes[i]];
    assert bytes == bytes[..i + 1] + bytes[i + 1..];
    WithLfOne(bytes[..i], bytes[i], lf);
    WithLfAppend(bytes[..i + 1], bytes[i + 1..], lf);
  }

  lemma {:induction false} WithLfLength(bytes: seq<Byte>, lf: bool)
    ensures |WithLf(bytes, lf)| == |bytes| + if lf then multiset(bytes)[0x0d] else 0
  {
    if bytes != [] {
      WithLfLength(bytes[1..], lf);
      assert bytes == [bytes[0]] + bytes[1..];
    }
  }

  function Joined(messages: seq<seq<Byte>>): seq<Byte> {
    if messages == [] then [] else Joined(messages[..|messages| - 1]) + messages[|messages| - 1]
  }

  // What every session keeps

  predicate NoneForward(typed: seq<Byte>, cfg: Config) {
    forall b | b in typed :: !IsMatch(cfg.forward, b)
  }

  /** Typed bytes that would still be waiting. */
  predicate Waits(typed: seq<Byte>, cfg: Config) {
    NoneForward(typed, cfg) && |WithLf(typed, cfg.lf)| < cfg.size
  }

  /** A message holds what was waiting, and at most one typed byte more. */
  ghost predicate Piece(m: seq<Byte>, cfg: Config) {
    exists typed: seq<Byte> ::
      m == WithLf(typed, cfg.lf) && (Waits(typed, cfg) || (typed != [] && Waits(typed[..|typed| - 1], cfg)))
  }

  /** Everything a PAD was given and what became of it, in order. */
  function Content(a: Assembly): seq<Byte> {
    Joined(a.messages) + a.lost + a.queue
  }

  lemma SendOffContent(a: Assembly)
    requires a.lost != [] ==> a.room == 0
    ensures Content(SendOff(a)) == Content(a)
  {
    var messages := a.messages + [a.queue];
    assert messages[..|a.messages|] == a.messages;
    assert a.lost == [] ==> Joined(messages) + [] + [] == Joined(a.messages) + [] + a.queue;
    assert Joined(a.messages) + (a.lost + a.queue) + [] == Joined(a.messages) + a.lost + a.queue;
  }

  lemma TypedContent(a: Assembly, more: seq<Byte>)
    ensures Content(a.(queue := a.queue + more)) == Content(a) + more
  {
  }

  /** Nothing typed is missing, in order: it is in a message, or lost to a failed
      call, or it is the residue `typed`, which still has to wait. */
  ghost predicate Kept(s: Session, typed: seq<Byte>, cfg: Config) {
    && Content(s.a) == WithLf(s.input, cfg.lf)
    && s.a.queue == WithLf(typed, cfg.lf) && Waits(typed, cfg)
    && (forall m | m in s.a.messages :: Piece(m, cfg))
    && (s.a.lost != [] ==> s.a.room == 0)
  }

  lemma SendOffKept(a: Assembly, typed: seq<Byte>, input: seq<Byte>, cfg: Config)
    requires Content(a) == WithLf(input, cfg.lf)
    requires a.queue == WithLf(typed, cfg.lf) && cfg.size > 0
    requires Waits(typed, cfg) || (typed != [] && Waits(typed[..|typed| - 1], cfg))
    requires forall m | m in a.messages :: Piece(m, cfg)
    requires a.lost != [] ==> a.room == 0
    ensures Kept(Session(SendOff(a), input), [], cfg)
  {
    SendOffContent(a);
    assert Piece(a.queue, cfg);
    assert WithLf([], cfg.lf) == [];
    PiecesWith(a.messages, a.queue, cfg);
  }

  lemma PiecesWith(messages: seq<seq<Byte>>, m: seq<Byte>, cfg: Config)
    requires (forall m | m in messages :: Piece(m, cfg)) && Piece(m, cfg)
    ensures forall p | p in messages + [m] :: Piece(p, cfg)
  {
  }

  /** The residue after one more byte. */
  function Residue(a: Assembly, typed: seq<Byte>, byte: Byte, cfg: Config): seq<Byte> {
    if IsMatch(cfg.forward, byte) || |a.queue + OneWithLf(byte, cfg.lf)| >= cfg.size then [] else typed + [byte]
  }

  lemma ResidueWaits(typed: seq<Byte>, byte: Byte, cfg: Config)
    requires Waits(typed, cfg) && !IsMatch(cfg.forward, byte) && |WithLf(typed + [byte], cfg.lf)| < cfg.size
    ensures Waits(typed + [byte], cfg)
  {
  }

  lemma TypeKept(s: Session, typed: seq<Byte>, byte: Byte, cfg: Config)
    requires Kept(s, typed, cfg) && cfg.size > 0
    ensures Kept(Session(Type(s.a, byte, cfg), s.input + [byte]), Residue(s.a, typed, byte, cfg), cfg)
  {
    var a := s.a.(queue := s.a.queue + OneWithLf(byte, cfg.lf));
    WithLfOne(s.input, byte, cfg.lf);
    WithLfOne(typed, byte, cfg.lf);
    TypedContent(s.a, OneWithLf(byte, cfg.lf));
    if Residue(s.a, typed, byte, cfg) != [] {
      ResidueWaits(typed, byte, cfg);
    } else {
      assert (typed + [byte])[..|typed|] == typed;
      SendOffKept(a, typed + [byte], s.input + [byte], cfg);
    }
  }

  lemma FirstTyped(s: Session, buf: seq<Byte>, cfg: Config)
    requires buf != []
    ensures var t := TypeAll(s.a, buf, cfg);
            var s' := Session(Type(s.a, buf[0], cfg), s.input + [buf[0]]);
            if Fails(s.a, buf[0], cfg) then Session(t.a, s.input + buf[..t.count]) == s'
            else var rest := TypeAll(s'.a, buf[1..], cfg);
                 Session(t.a, s.input + buf[..t.count]) == Session(rest.a, s'.input + buf[1..][..rest.count])
  {
    FirstByte(s.input, buf, if Fails(s.a, buf[0], cfg) then 0 else TypeAll(Type(s.a, buf[0], cfg), buf[1..], cfg).count);
  }

  lemma FirstByte(input: seq<Byte>, buf: seq<Byte>, n: nat)
    requires n < |buf|
    ensures input + buf[..n + 1] == input + [buf[0]] + buf[1..][..n]
  {
  }

  lemma {:induction false} TypeAllKept(s: Session, typed: seq<Byte>, buf: seq<Byte>, cfg: Config) returns (typed': seq<Byte>)
    requires Kept(s, typed, cfg) && cfg.size > 0
    ensures var t := TypeAll(s.a, buf, cfg); Kept(Session(t.a, s.input + buf[..t.count]), typed', cfg)
    decreases |buf|
  {
    if buf == [] {
      assert s.input + [] == s.input;
      typed' := typed;
    } else {
      TypeKept(s, typed, buf[0], cfg);
      typed' := Residue(s.a, typed, buf[0], cfg);
      FirstTyped(s, buf, cfg);
      if !Fails(s.a, buf[0], cfg) {
        typed' := TypeAllKept(Session(Type(s.a, buf[0], cfg), s.input + [buf[0]]), typed', buf[1..], cfg);
      }
    }
  }

  lemma StepKept(s: Session, typed: seq<Byte>, event: PadEvent, cfg: Config) returns (typed': seq<Byte>)
    requires Kept(s, typed, cfg) && cfg.size > 0
    ensures Kept(Step(s, event, cfg), typed', cfg)
  {
    typed' := typed;
    match event
    case WriteBytes(buf, now) =>
      typed' := TypeAllKept(s, typed, buf, cfg);
    case IdleCheck(now) =>
      if Overdue(s.a, now) {
        SendOffKept(s.a, typed, s.input, cfg);
        typed' := [];
      }
    case FlushQueue =>
      SendOffKept(s.a, typed, s.input, cfg);
      typed' := [];
  }

  lemma {:induction false} StepsKept(s: Session, typed: seq<Byte>, events: seq<PadEvent>, cfg: Config)
    returns (typed': seq<Byte>)
    requires Kept(s, typed, cfg) && cfg.size > 0
    ensures Kept(PadRun(s, events, cfg), typed', cfg)
    decreases |events|
  {
    typed' := typed;
    if events != [] {
      typed' := StepKept(s, typed, events[0], cfg);
      typed' := StepsKept(Step(s, events[0], cfg), typed', events[1..], cfg);
    }
  }

  lemma PieceLength(m: seq<Byte>, cfg: Config)
    requires Piece(m, cfg) && cfg.size > 0
    ensures |m| <= cfg.size + 1
  {
    var typed: seq<Byte> :| m == WithLf(typed, cfg.lf)
                            && (Waits(typed, cfg) || (typed != [] && Waits(typed[..|typed| - 1], cfg)));
    if typed != [] {
      LastWithLf(typed, cfg.lf);
    }
  }

  lemma LastWithLf(typed: seq<Byte>, lf: bool)
    requires typed != []
    ensures |WithLf(typed, lf)| <= |WithLf(typed[..|typed| - 1], lf)| + 2
  {
    var last := typed[|typed| - 1];
    assert typed == typed[..|typed| - 1] + [last];
    WithLfOne(typed[..|typed| - 1], last, lf);
  }

  /** Whatever is written, whenever the idle timer runs out, and however often the
      PAD is flushed: the messages, then what was lost once the circuit failed, then
      the queue are what was typed, with its line feeds; the queue is shorter than a
      packet and holds no typed byte that forwards; and no message is longer than a
      packet and one line feed. */
  lemma SessionConserves(room: nat, events: seq<PadEvent>, cfg: Config)
    requires cfg.size > 0
    ensures var s := SessionOf(room, events, cfg);
            && Joined(s.a.messages) + s.a.lost + s.a.queue == WithLf(s.input, cfg.lf)
            && |s.a.queue| < cfg.size
            && (exists typed :: s.a.queue == WithLf(typed, cfg.lf) && NoneForward(typed, cfg))
            && (forall m | m in s.a.messages :: |m| <= cfg.size + 1)
  {
    var s0 := Session(Assembly([], [], None, [], room), []);
    var typed := StepsKept(s0, [], events, cfg);
    var s := PadRun(s0, events, cfg);
    forall m | m in s.a.messages
      ensures |m| <= cfg.size + 1
    {
      PieceLength(m, cfg);
    }
  }

  /** With an idle delay, whatever waits has a time at which it will be sent. */
  ghost predicate Timed(a: Assembly, cfg: Config) {
    cfg.delay.Some? && a.queue != [] ==> a.deadline.Some?
  }

  lemma {:induction false} FailureEmpties(a: Assembly, buf: seq<Byte>, cfg: Config)
    ensures var t := TypeAll(a, buf, cfg); !t.ok ==> t.a.queue == []
    decreases |buf|
  {
    if buf != [] && !Fails(a, buf[0], cfg) {
      FailureEmpties(Type(a, buf[0], cfg), buf[1..], cfg);
    }
  }

  lemma {:induction false} NothingWaitsForever(s: Session, events: seq<PadEvent>, cfg: Config)
    requires Timed(s.a, cfg)
    ensures Timed(PadRun(s, events, cfg).a, cfg)
    ensures cfg.delay.Some? ==>
              exists now :: Step(PadRun(s, events, cfg), IdleCheck(now), cfg).a.queue == []
    decreases |events|
  {
    if events == [] {
      var now := if s.a.deadline.Some? then s.a.deadline.value else 0;
      assert cfg.delay.Some? ==> Step(s, IdleCheck(now), cfg).a.queue == [];
    } else {
      if events[0].WriteBytes? {
        FailureEmpties(s.a, events[0].buf, cfg);
      }
      NothingWaitsForever(Step(s, events[0], cfg), events[1..], cfg);
    }
  }

  // When text is sent

  /** A message that the last byte typed has sent off, because it forwards or because
      the packet is full, and that no byte before it could. */
  ghost predicate Closed(m: seq<Byte>, cfg: Config) {
    exists typed: seq<Byte> :: ClosedBy(m, typed, cfg)
  }

  predicate ClosedBy(m: seq<Byte>, typed: seq<Byte>, cfg: Config) {
    && typed != [] && m == WithLf(typed, cfg.lf)
    && Waits(typed[..|typed| - 1], cfg)
    && (IsMatch(cfg.forward, typed[|typed| - 1]) || |m| >= cfg.size)
  }

  lemma SentIsClosed(queue: seq<Byte>, typed: seq<Byte>, byte: Byte, cfg: Config)
    requires queue == WithLf(typed, cfg.lf) && Waits(typed, cfg)
    requires IsMatch(cfg.forward, byte) || |queue + OneWithLf(byte, cfg.lf)| >= cfg.size
    ensures Closed(queue + OneWithLf(byte, cfg.lf), cfg)
  {
    WithLfOne(typed, byte, cfg.lf);
    var all := typed + [byte];
    assert all[..|all| - 1] == typed && all[|all| - 1] == byte;
    assert ClosedBy(queue + OneWithLf(byte, cfg.lf), all, cfg);
  }

  lemma QueueAfter(a: Assembly, typed: seq<Byte>, byte: Byte, cfg: Config)
    requires a.queue == WithLf(typed, cfg.lf) && Waits(typed, cfg) && cfg.size > 0
    ensures Waits(Residue(a, typed, byte, cfg), cfg)
    ensures Type(a, byte, cfg).queue == WithLf(Residue(a, typed, byte, cfg), cfg.lf)
  {
    WithLfOne(typed, byte, cfg.lf);
    if Residue(a, typed, byte, cfg) != [] {
      ResidueWaits(typed, byte, cfg);
    }
  }

  /** What one more byte adds to the messages. */
  function NewMessages(a: Assembly, byte: Byte, cfg: Config): seq<seq<Byte>> {
    var queue := a.queue + OneWithLf(byte, cfg.lf);
    if (IsMatch(cfg.forward, byte) || |queue| >= cfg.size) && a.room > 0 then [queue] else []
  }

  lemma TypeCloses(a: Assembly, typed: seq<Byte>, byte: Byte, cfg: Config)
    requires a.queue == WithLf(typed, cfg.lf) && Waits(typed, cfg)
    ensures Type(a, byte, cfg).messages == a.messages + NewMessages(a, byte, cfg)
    ensures forall m | m in NewMessages(a, byte, cfg) :: Closed(m, cfg)
  {
    assert a.messages + [] == a.messages;
    if NewMessages(a, byte, cfg) != [] {
      SentIsClosed(a.queue, typed, byte, cfg);
    }
  }

  lemma ClosedOnward(before: seq<seq<Byte>>, more: seq<seq<Byte>>, all: seq<seq<Byte>>, cfg: Config)
    requires before + more <= all && forall m | m in more :: Closed(m, cfg)
    requires forall i | |before + more| <= i < |all| :: Closed(all[i], cfg)
    ensures before <= all && forall i | |before| <= i < |all| :: Closed(all[i], cfg)
  {
    forall i | |before| <= i < |all|
      ensures Closed(all[i], cfg)
    {
      if i < |before + more| {
        assert all[i] == (before + more)[i] == more[i - |before|];
      }
    }
  }

  /** Typing sends nothing early: every message that a write makes is closed, so a byte
      that neither forwards nor fills the packet waits. */
  lemma {:induction false} TypingCloses(a: Assembly, typed: seq<Byte>, buf: seq<Byte>, cfg: Config)
    requires a.queue == WithLf(typed, cfg.lf) && Waits(typed, cfg) && cfg.size > 0
    ensures var t := TypeAll(a, buf, cfg).a;
            && a.messages <= t.messages
            && forall i | |a.messages| <= i < |t.messages| :: Closed(t.messages[i], cfg)
    decreases |buf|
  {
    if buf != [] {
      TypeCloses(a, typed, buf[0], cfg);
      QueueAfter(a, typed, buf[0], cfg);
      var next := Type(a, buf[0], cfg);
      if !Fails(a, buf[0], cfg) {
        TypingCloses(next, Residue(a, typed, buf[0], cfg), buf[1..], cfg);
      }
      ClosedOnward(a.messages, NewMessages(a, buf[0], cfg), TypeAll(a, buf, cfg).a.messages, cfg);
    }
  }

  /** In every session, the messages made by a write are closed. */
  lemma WritesClose(room: nat, events: seq<PadEvent>, buf: seq<Byte>, now: nat, cfg: Config)
    requires cfg.size > 0
    ensures var a := SessionOf(room, events, cfg).a;
            var t := Written(a, buf, cfg, now).a;
            && a.messages <= t.messages
            && forall i | |a.messages| <= i < |t.messages| :: Closed(t.messages[i], cfg)
  {
    var typed := StepsKept(Session(Assembly([], [], None, [], room), []), [], events, cfg);
    TypingCloses(SessionOf(room, events, cfg).a, typed, buf, cfg);
  }

  lemma {:induction false} NoDeadline(a: Assembly, buf: seq<Byte>, cfg: Config)
    requires a.deadline == None
    ensures TypeAll(a, buf, cfg).a.deadline == None
    decreases |buf|
  {
    if buf != [] && !Fails(a, buf[0], cfg) {
      NoDeadline(Type(a, buf[0], cfg), buf[1..], cfg);
    }
  }

  lemma {:induction false} NeverTimed(s: Session, events: seq<PadEvent>, cfg: Config)
    requires s.a.deadline == None && cfg.delay == None
    ensures PadRun(s, events, cfg).a.deadline == None
    decreases |events|
  {
    if events != [] {
      if events[0].WriteBytes? {
        NoDeadline(s.a, events[0].buf, cfg);
      }
      NeverTimed(Step(s, events[0], cfg), events[1..], cfg);
    }
  }

  /** How long text waits: after a write at time `now` that leaves some, a look of the
      idle thread at time `t` sends it exactly when the idle parameter is not 0 and 50
      milliseconds for each unit of it have gone by. */
  lemma IdleSends(room: nat, events: seq<PadEvent>, buf: seq<Byte>, now: nat, t: nat, idle: Idle, cfg: Config)
    requires cfg.delay == IdleDelay(idle) && buf != []
    ensures var s := SessionOf(room, events, cfg);
            var w := Written(s.a, buf, cfg, now);
            w.ok && w.a.queue != [] ==>
              var looked := Step(Session(w.a, s.input + buf), IdleCheck(t), cfg).a;
              && (idle != 0 && t >= now + 50 * idle && w.a.room > 0 ==>
                    looked.messages == w.a.messages + [w.a.queue] && looked.queue == [])
              && (idle == 0 || t < now + 50 * idle ==> looked == w.a)
  {
    if idle == 0 {
      NeverTimed(Session(Assembly([], [], None, [], room), []), events, cfg);
      NoDeadline(SessionOf(room, events, cfg).a, buf, cfg);
    }
  }

  lemma {:induction false} TypingUntimes(a: Assembly, buf: seq<Byte>, cfg: Config)
    requires a.queue == [] ==> a.deadline == None
    ensures var t := TypeAll(a, buf, cfg).a; t.queue == [] ==> t.deadline == None
    decreases |buf|
  {
    if buf != [] && !Fails(a, buf[0], cfg) {
      TypingUntimes(Type(a, buf[0], cfg), buf[1..], cfg);
    }
  }

  /** In every session, a time is set only for text that waits. */
  lemma {:induction false} NothingToTime(s: Session, events: seq<PadEvent>, cfg: Config)
    requires s.a.queue == [] ==> s.a.deadline == None
    ensures var a := PadRun(s, events, cfg).a; a.queue == [] ==> a.deadline == None
    decreases |events|
  {
    if events != [] {
      if events[0].WriteBytes? {
        TypingUntimes(s.a, events[0].buf, cfg);
      }
      NothingToTime(Step(s, events[0], cfg), events[1..], cfg);
    }
  }

  /** A write stops at the first call that fails: all bytes before the one that made it
      were typed without failing, and none after it is typed. */
  lemma {:induction false} FailureStops(a: Assembly, buf: seq<Byte>, cfg: Config)
    ensures var t := TypeAll(a, buf, cfg);
            !t.ok ==>
              && t.count > 0
              && (var before := TypeAll(a, buf[..t.count - 1], cfg);
                  && before.ok && before.a.room == 0
                  && t.a.messages == before.a.messages && t.a.queue == []
                  && t.a.lost == before.a.lost + (before.a.queue + OneWithLf(buf[t.count - 1], cfg.lf)))
    decreases |buf|
  {
    if buf != [] && !Fails(a, buf[0], cfg) {
      FailureStops(Type(a, buf[0], cfg), buf[1..], cfg);
      var t := TypeAll(a, buf, cfg);
      if !t.ok {
        assert buf[..t.count - 1][1..] == buf[1..][..t.count - 2];
      }
    }
  }
}
