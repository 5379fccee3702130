/** The PAD as the source keeps it, with its queues updated in place (`pad.rs`). */
module Pads {
  import opened Wrappers
  import opened Circuits
  import opened X3
  import opened X29
  import opened X29Codec
  import opened PadParameters
  import opened PadStreams

  /** The circuit as a PAD sees it: messages given to it, and how many more calls
      will succeed before it is no longer connected. */
  class Svc {
    const sendPacketSize: nat
    var submitted: seq<Message>
    var room: nat

    method Send(userData: seq<Byte>, qualifier: bool) returns (ok: bool)
      modifies this
      ensures ok <==> old(room) > 0
      ensures submitted == old(submitted) + if ok then [Message(userData, qualifier)] else []
      ensures room == old(room) - if ok then 1 else 0
    {
      if room == 0 {
        return false;
      }
      submitted := submitted + [Message(userData, qualifier)];
      room := room - 1;
      return true;
    }
  }

  /** The unqualified messages: text, not commands. */
  function Texts(messages: seq<Message>): seq<seq<Byte>> {
    if messages == [] then []
    else
      var last := messages[|messages| - 1];
      Texts(messages[..|messages| - 1]) + if last.qualifier then [] else [last.userData]
  }

  lemma TextsNext(messages: seq<Message>, m: Message)
    ensures Texts(messages + [m]) == Texts(messages) + if m.qualifier then [] else [m.userData]
  {
    assert (messages + [m])[..|messages|] == messages;
  }

  lemma CommandIsNoText(messages: seq<Message>, bytes: seq<Byte>)
    ensures Texts(messages + [Message(bytes, true)]) == Texts(messages)
  {
    TextsNext(messages, Message(bytes, true));
  }

  class Pad {
    const svc: Svc
    const params: PadParams
    const suppressEchoWhenEditing: bool
    var sendQueue: seq<Byte>
    var deadline: Option<nat>
    var recvQueue: seq<Byte>
    var recvEnd: bool

    ghost var lost: seq<Byte>

    constructor (svc: Svc, params: PadParams, suppressEchoWhenEditing: bool)
      ensures this.svc == svc && this.params == params
      ensures Assembled() == Assembly(Texts(svc.submitted), [], None, [], svc.room)
      ensures recvQueue == [] && !recvEnd
    {
      this.svc := svc;
      this.params := params;
      this.suppressEchoWhenEditing := suppressEchoWhenEditing;
      this.sendQueue := [];
      this.deadline := None;
      this.recvQueue := [];
      this.recvEnd := false;
      this.lost := [];
    }

    ghost function Assembled(): Assembly
      reads this, svc
    {
      Assembly(Texts(svc.submitted), sendQueue, deadline, lost, svc.room)
    }

    ghost function Cfg(): Config
      reads params
    {
      Config(params.forward, AfterSend(params.lfInsert, CR), svc.sendPacketSize, IdleDelay(params.idle))
    }

    predicate ShouldEchoWrite()
      reads params
    {
      params.echo == 1 && !(params.editing == 1 && suppressEchoWhenEditing)
    }

    method SendQueuedData() returns (ok: bool)
      modifies this`sendQueue, this`deadline, this`lost, svc
      ensures Assembled() == SendOff(old(Assembled()))
      ensures ok <==> old(svc.room) > 0
    {
      var buf := sendQueue;
      sendQueue := [];
      deadline := None;
      TextsNext(svc.submitted, Message(buf, false));
      ok := svc.Send(buf, false);
      assert old(svc.submitted) + [] == old(svc.submitted);
      if !ok {
        lost := lost + buf;
      }
    }

    method Write(buf: seq<Byte>, now: nat) returns (r: Result<nat>)
      modifies this`sendQueue, this`deadline, this`lost, this`recvQueue, svc
      ensures var t := Written(old(Assembled()), buf, Cfg(), now);
              && Assembled() == t.a
              && r == (if t.ok then Ok(|buf|) else Err(NotConnected))
              && recvQueue == old(recvQueue)
                              + Echoed(params.echo == 1 && (params.editing == 0 || !suppressEchoWhenEditing),
                                       buf[..t.count], AfterEcho(params.lfInsert, CR))
    {
      if buf == [] {
        assert recvQueue + [] == recvQueue;
        return Ok(0);
      }
      var count, ok := WriteAll(ShouldEchoWrite(), buf);
      if !ok {
        return Err(NotConnected);
      }
      if sendQueue != [] && IdleDelay(params.idle).Some? {
        deadline := Some(now + IdleDelay(params.idle).value);
      }
      return Ok(count);
    }

    /** The loop of `Write`. */
    method WriteAll(echo: bool, buf: seq<Byte>) returns (count: nat, ok: bool)
      modifies this`sendQueue, this`deadline, this`lost, this`recvQueue, svc
      ensures Typed(Assembled(), count, ok) == TypeAll(old(Assembled()), buf, Cfg())
      ensures recvQueue == old(recvQueue) + Echoed(echo, buf[..count], AfterEcho(params.lfInsert, CR))
    {
      count, ok := 0, true;
      ghost var cfg := Cfg();
      ghost var all := TypeAll(Assembled(), buf, cfg);
      TypingBegins(Assembled(), buf, cfg);
      assert recvQueue + [] == recvQueue;
      while ok && count < |buf|
        invariant count <= |buf|
        invariant if ok then TypingSoFar(all, Assembled(), buf, count, cfg) else all == Typed(Assembled(), count, false)
        invariant recvQueue == old(recvQueue) + Echoed(echo, buf[..count], AfterEcho(params.lfInsert, CR))
        decreases |buf| - count
      {
        TypingNext(all, Assembled(), buf, count, cfg);
        EchoedNext(echo, old(recvQueue), buf, count, AfterEcho(params.lfInsert, CR));
        ok := WriteByte(echo, buf[count]);
        count := count + 1;
      }
      if ok {
        TypingDone(all, Assembled(), buf, cfg);
      }
    }

    /** One round of the loop in `Write`. */
    method WriteByte(echo: bool, byte: Byte) returns (ok: bool)
      modifies this`sendQueue, this`deadline, this`lost, this`recvQueue, svc
      ensures Assembled() == Type(old(Assembled()), byte, Cfg())
      ensures ok <==> !Fails(old(Assembled()), byte, Cfg())
      ensures recvQueue == old(recvQueue) + Echoed(echo, [byte], AfterEcho(params.lfInsert, CR))
    {
      Echo(echo, byte);
      ok := TypeByte(byte);
    }

    method TypeByte(byte: Byte) returns (ok: bool)
      modifies this`sendQueue, this`deadline, this`lost, svc
      ensures Assembled() == Type(old(Assembled()), byte, Cfg())
      ensures ok <==> !Fails(old(Assembled()), byte, Cfg())
    {
      sendQueue := sendQueue + [byte];
      if AfterSend(params.lfInsert, byte) {
        sendQueue := sendQueue + [LF];
      }
      assert sendQueue == old(sendQueue) + OneWithLf(byte, Cfg().lf);
      if IsMatch(params.forward, byte) || |sendQueue| >= svc.sendPacketSize {
        ok := SendQueuedData();
      } else {
        ok := true;
      }
    }

    method Echo(echo: bool, byte: Byte)
      modifies this`recvQueue
      ensures recvQueue == old(recvQueue) + Echoed(echo, [byte], AfterEcho(params.lfInsert, CR))
    {
      WithLfOne([], byte, AfterEcho(params.lfInsert, CR));
      assert [] + [byte] == [byte] && recvQueue + [] == recvQueue;
      if echo {
        recvQueue := recvQueue + [byte];
        if AfterEcho(params.lfInsert, byte) {
          recvQueue := recvQueue + [LF];
        }
      }
    }

    method Flush() returns (ok: bool)
      modifies this`sendQueue, this`deadline, this`lost, svc
      ensures Assembled() == SendOff(old(Assembled()))
      ensures ok <==> old(svc.room) > 0
    {
      ok := SendQueuedData();
    }

    /** What the idle thread does each time it wakes up. */
    method CheckIdle(now: nat)
      modifies this`sendQueue, this`deadline, this`lost, svc
      ensures Assembled() == if Overdue(old(Assembled()), now) then SendOff(old(Assembled())) else old(Assembled())
    {
      if deadline.Some? && sendQueue != [] && now >= deadline.value {
        var _ := SendQueuedData();
      }
    }

    method QueueRecvData(data: seq<Byte>)
      modifies this`recvQueue
      ensures recvQueue == old(recvQueue) + WithLf(data, AfterRecv(params.lfInsert, CR))
    {
      assert recvQueue + [] == recvQueue;
      for i := 0 to |data|
        invariant recvQueue == old(recvQueue) + WithLf(data[..i], AfterRecv(params.lfInsert, CR))
      {
        EchoNext(old(recvQueue), data, i, AfterRecv(params.lfInsert, CR));
        recvQueue := recvQueue + [data[i]];
        if AfterRecv(params.lfInsert, data[i]) {
          recvQueue := recvQueue + [LF];
        }
      }
      assert data[..|data|] == data;
    }

    /** What the PAD does with a message from the circuit. Text goes to the reader;
        commands are answered without touching the text on its way out, but for the
        invitation to clear, which sends it off first. The source has no code for an
        answer that cannot be sent. */
    method Receive(message: Message) returns (clear: bool)
      requires params.Valid()
      requires message.qualifier ==> Decode(message.userData).Ok? && Answerable(Decode(message.userData).value)
      requires svc.room > 0
      modifies this`sendQueue, this`deadline, this`lost, this`recvQueue, svc, params.Repr()
      ensures params.Valid()
      ensures clear <==> message.qualifier && Decode(message.userData) == Ok(ClearInvitation)
      ensures recvQueue == old(recvQueue)
                           + if message.qualifier then [] else WithLf(message.userData, AfterRecv(old(params.lfInsert), CR))
      ensures Assembled() == if clear then SendOff(old(Assembled())) else old(Assembled()).(room := svc.room)
    {
      if !message.qualifier {
        QueueRecvData(message.userData);
        return false;
      }
      clear := Obey(message.userData);
      assert recvQueue + [] == recvQueue;
    }

    /** A command from the other PAD. */
    method Obey(bytes: seq<Byte>) returns (clear: bool)
      requires params.Valid() && svc.room > 0
      requires Decode(bytes).Ok? && Answerable(Decode(bytes).value)
      modifies this`sendQueue, this`deadline, this`lost, svc, params.Repr()
      ensures params.Valid()
      ensures clear <==> Decode(bytes) == Ok(ClearInvitation)
      ensures Assembled() == if clear then SendOff(old(Assembled())) else old(Assembled()).(room := svc.room)
    {
      var decoded := DecodeMessage(bytes);
      if decoded.value == ClearInvitation {
        var _ := SendQueuedData();
        return true;
      }
      var reply := HandleMessage(params, bytes);
      if reply.Some? {
        CommandIsNoText(svc.submitted, reply.value);
        var sent := svc.Send(reply.value, true);
      }
      return false;
    }

    /** Fills `buf` from the receive queue; `None` stands for waiting. */
    method Read(buf: array<Byte>) returns (n: Option<nat>)
      modifies this`recvQueue, buf
      ensures match n
              case None => buf.Length > 0 && old(recvQueue) == [] && !recvEnd && recvQueue == []
              case Some(n) =>
                && n == Min(buf.Length, |old(recvQueue)|)
                && buf[..n] == old(recvQueue)[..n] && buf[n..] == old(buf[n..])
                && recvQueue == old(recvQueue)[n..]
    {
      if buf.Length == 0 {
        return Some(0);
      }
      var index := 0;
      while index < buf.Length && recvQueue != []
        invariant index <= buf.Length && index <= |old(recvQueue)|
        invariant recvQueue == old(recvQueue)[index..]
        invariant buf[..index] == old(recvQueue)[..index] && buf[index..] == old(buf[index..])
        decreases |recvQueue|
      {
        buf[index] := recvQueue[0];
        recvQueue := recvQueue[1..];
        index := index + 1;
      }
      if index > 0 {
        return Some(index);
      }
      if recvEnd {
        return Some(0);
      }
      return None;
    }
  }

  /** Of all that comes of typing `buf`, that of its first `i` bytes has led to `a`. */
  predicate TypingSoFar(all: Typed, a: Assembly, buf: seq<Byte>, i: nat, cfg: Config) {
    i <= |buf| && all == (var rest := TypeAll(a, buf[i..], cfg); rest.(count := rest.count + i))
  }

  lemma TypingBegins(a: Assembly, buf: seq<Byte>, cfg: Config)
    ensures TypingSoFar(TypeAll(a, buf, cfg), a, buf, 0, cfg)
  {
    assert buf[0..] == buf;
  }

  lemma TypingNext(all: Typed, a: Assembly, buf: seq<Byte>, i: nat, cfg: Config)
    requires i < |buf| && TypingSoFar(all, a, buf, i, cfg)
    ensures if Fails(a, buf[i], cfg) then all == Typed(Type(a, buf[i], cfg), i + 1, false)
            else TypingSoFar(all, Type(a, buf[i], cfg), buf, i + 1, cfg)
  {
    assert buf[i..][1..] == buf[i + 1..];
  }

  lemma TypingDone(all: Typed, a: Assembly, buf: seq<Byte>, cfg: Config)
    requires TypingSoFar(all, a, buf, |buf|, cfg)
    ensures all == Typed(a, |buf|, true) && buf[..|buf|] == buf
  {
    assert buf[|buf|..] == [];
  }

  /** What the typist sees of typed bytes. */
  function Echoed(echo: bool, bytes: seq<Byte>, lf: bool): seq<Byte> {
    if echo then WithLf(bytes, lf) else []
  }

  lemma EchoedNext(echo: bool, queue: seq<Byte>, buf: seq<Byte>, i: nat, lf: bool)
    requires i < |buf|
    ensures queue + Echoed(echo, buf[..i + 1], lf) == queue + Echoed(echo, buf[..i], lf) + Echoed(echo, [buf[i]], lf)
  {
    assert buf[..i + 1] == buf[..i] + [buf[i]];
    if echo {
      WithLfAppend(buf[..i], [buf[i]], lf);
    }
  }

  lemma EchoNext(queue: seq<Byte>, buf: seq<Byte>, i: nat, lf: bool)
    requires i < |buf|
    ensures queue + WithLf(buf[..i + 1], lf) == queue + WithLf(buf[..i], lf) + OneWithLf(buf[i], lf)
  {
    assert buf[..i + 1] == buf[..i] + [buf[i]];
    WithLfOne(buf[..i], buf[i], lf);
  }
}
