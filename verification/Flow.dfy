/** What a FIFO channel does to the end that will receive it: a summary of that
    end, and the effect on it of each packet in flight. */
module Flow {
  import opened Wrappers
  import opened Seq
  import opened Packets
  import opened Circuits

  datatype Mode = Calling | Transferring | Resetting | Gone

  /** An epoch is one period of data transfer: they are numbered from 1, and a
      reset starts the next. The totals belong to the current epoch. */
  datatype Expect = Expect(mode: Mode, epoch: nat, received: nat, acked: nat, sent: nat)

  /** The packets sent, or accepted, in each epoch. */
  type Log = seq<seq<SendData>>

  function Fresh(epoch: nat): Expect {
    Expect(Transferring, epoch, 0, 0, 0)
  }

  /** Packets that start a new epoch at their receiver. */
  predicate Opens(mode: Mode, p: Packet) {
    match mode
    case Calling => p.CallAcceptPacket?
    case Transferring => p.ResetRequest?
    case Resetting => p.ResetRequest? || p.ResetConfirm?
    case Gone => false
  }

  function Next(x: Expect, p: Packet, modulo: Modulo): Expect {
    if Opens(x.mode, p) then Fresh(x.epoch + 1)
    else if p.ClearRequestPacket? then x.(mode := Gone)
    else if x.mode == Transferring && p.DataPacket? then
      x.(received := x.received + 1, acked := Total(x.acked, p.data.recvSeq, modulo))
    else if x.mode == Transferring && p.ReceiveReady? then
      x.(acked := Total(x.acked, p.recvSeq, modulo))
    else x
  }

  function After(x: Expect, channel: seq<Packet>, modulo: Modulo): Expect
    decreases |channel|
  {
    if channel == [] then x else After(Next(x, channel[0], modulo), channel[1..], modulo)
  }

  /** An acknowledgement the window accepts, for no more than its sender accepted
      in the epoch. */
  predicate AckAdmissible(x: Expect, num: Byte, accepted: Log, modulo: Modulo) {
    && CanAcknowledge(x.acked, x.sent, num, modulo)
    && 1 <= x.epoch <= |accepted|
    && Total(x.acked, num, modulo) <= |accepted[x.epoch - 1]|
  }

  /** A packet does what its sender meant: data continues the sender's log of the
      receiver's epoch, with the number the receiver waits for; a reset request
      ends an epoch that was received to the last packet. */
  predicate Admissible(x: Expect, p: Packet, sent: Log, accepted: Log, modulo: Modulo) {
    x.mode == Transferring ==>
      && (p.ReceiveReady? ==> AckAdmissible(x, p.recvSeq, accepted, modulo))
      && (p.ResetRequest? ==> 1 <= x.epoch <= |sent| && x.received == |sent[x.epoch - 1]|)
      && (p.DataPacket? ==>
            && AckAdmissible(x, p.data.recvSeq, accepted, modulo)
            && p.data.sendSeq == Wrap(x.received, modulo)
            && x.epoch <= |sent|
            && x.received < |sent[x.epoch - 1]|
            && sent[x.epoch - 1][x.received] == Fragment(p.data))
  }

  predicate Smooth(x: Expect, channel: seq<Packet>, sent: Log, accepted: Log, modulo: Modulo)
    decreases |channel|
  {
    channel == [] ||
    (&& Admissible(x, channel[0], sent, accepted, modulo)
     && Smooth(Next(x, channel[0], modulo), channel[1..], sent, accepted, modulo))
  }

  /** The receiver's mode when it comes to the first reset request, if there is one. */
  function AtRequest(x: Expect, channel: seq<Packet>, modulo: Modulo): Option<Mode>
    decreases |channel|
  {
    if channel == [] then None
    else if channel[0].ResetRequest? then Some(x.mode)
    else AtRequest(Next(x, channel[0], modulo), channel[1..], modulo)
  }

  function Requests(channel: seq<Packet>): nat {
    if channel == [] then 0
    else (if channel[0].ResetRequest? then 1 else 0) + Requests(channel[1..])
  }

  function Confirms(channel: seq<Packet>): nat {
    if channel == [] then 0
    else (if channel[0].ResetConfirm? then 1 else 0) + Confirms(channel[1..])
  }

  // Sending one more packet

  lemma {:induction false} CountAppend(channel: seq<Packet>, p: Packet)
    ensures Requests(channel + [p]) == Requests(channel) + if p.ResetRequest? then 1 else 0
    ensures Confirms(channel + [p]) == Confirms(channel) + if p.ResetConfirm? then 1 else 0
  {
    if channel == [] {
      assert channel + [p] == [p];
    } else {
      assert (channel + [p])[1..] == channel[1..] + [p];
      CountAppend(channel[1..], p);
    }
  }

  lemma {:induction false} AfterAppend(x: Expect, channel: seq<Packet>, p: Packet, modulo: Modulo)
    ensures After(x, channel + [p], modulo) == Next(After(x, channel, modulo), p, modulo)
    ensures AtRequest(x, channel + [p], modulo)
         == if AtRequest(x, channel, modulo).Some? then AtRequest(x, channel, modulo)
            else if p.ResetRequest? then Some(After(x, channel, modulo).mode) else None
    decreases |channel|
  {
    if channel == [] {
      assert channel + [p] == [p];
      assert AtRequest(Next(x, p, modulo), [], modulo) == None;
    } else {
      assert (channel + [p])[1..] == channel[1..] + [p];
      AfterAppend(Next(x, channel[0], modulo), channel[1..], p, modulo);
    }
  }

  lemma {:induction false} SmoothAppend(x: Expect, channel: seq<Packet>, p: Packet, sent: Log, accepted: Log, modulo: Modulo)
    ensures Smooth(x, channel + [p], sent, accepted, modulo)
       <==> (&& Smooth(x, channel, sent, accepted, modulo)
             && Admissible(After(x, channel, modulo), p, sent, accepted, modulo))
    decreases |channel|
  {
    if channel == [] {
      assert channel + [p] == [p];
      assert Smooth(Next(x, p, modulo), [], sent, accepted, modulo);
    } else {
      assert (channel + [p])[1..] == channel[1..] + [p];
      SmoothAppend(Next(x, channel[0], modulo), channel[1..], p, sent, accepted, modulo);
    }
  }

  // The summary after a channel

  lemma {:induction false} AfterBounds(x: Expect, channel: seq<Packet>, modulo: Modulo)
    ensures var f := After(x, channel, modulo);
            && f.epoch >= x.epoch
            && (f.epoch == x.epoch ==> f.sent == x.sent && f.acked >= x.acked && f.received >= x.received)
            && (f.epoch == x.epoch && f.mode != Gone ==> f.mode == x.mode)
            && (f.epoch > x.epoch ==> f.sent == 0)
    decreases |channel|
  {
    if channel != [] {
      AfterBounds(Next(x, channel[0], modulo), channel[1..], modulo);
    }
  }

  lemma {:induction false} GoneStays(x: Expect, channel: seq<Packet>, modulo: Modulo)
    requires x.mode == Gone
    ensures After(x, channel, modulo).mode == Gone
    decreases |channel|
  {
    if channel != [] {
      GoneStays(Next(x, channel[0], modulo), channel[1..], modulo);
    }
  }

  lemma {:induction false} NoRequest(x: Expect, channel: seq<Packet>, modulo: Modulo)
    requires Requests(channel) == 0
    ensures AtRequest(x, channel, modulo) == None
    decreases |channel|
  {
    if channel != [] {
      NoRequest(Next(x, channel[0], modulo), channel[1..], modulo);
    }
  }

  /** Reset requests are met in a known mode by a receiver that goes through the
      channel without a confirm. */
  lemma {:induction false} AtRequestMode(x: Expect, channel: seq<Packet>, modulo: Modulo)
    requires Confirms(channel) == 0 && After(x, channel, modulo).mode != Gone
    requires x.mode == Transferring
    ensures AtRequest(x, channel, modulo) == if Requests(channel) == 0 then None else Some(Transferring)
    decreases |channel|
  {
    if channel != [] {
      if Next(x, channel[0], modulo).mode == Gone {
        GoneStays(Next(x, channel[0], modulo), channel[1..], modulo);
      } else if !channel[0].ResetRequest? {
        AtRequestMode(Next(x, channel[0], modulo), channel[1..], modulo);
      }
    }
  }

  // Changes at the two ends

  /** Epochs already begun may get longer, and new ones may begin. */
  predicate Grows(log: Log, log': Log) {
    |log| <= |log'| && forall e | 0 <= e < |log| :: log[e] <= log'[e]
  }

  /** Growth that leaves the epochs before `epoch` as they are. */
  predicate GrowsFrom(log: Log, log': Log, epoch: nat) {
    && Grows(log, log')
    && forall e | 0 <= e < |log| && e + 1 < epoch :: log[e] == log'[e]
  }

  lemma {:induction false} SmoothGrows(x: Expect, channel: seq<Packet>, sent: Log, accepted: Log,
                                       sent': Log, accepted': Log, modulo: Modulo)
    requires Smooth(x, channel, sent, accepted, modulo)
    requires GrowsFrom(sent, sent', After(x, channel, modulo).epoch) && Grows(accepted, accepted')
    ensures Smooth(x, channel, sent', accepted', modulo)
    decreases |channel|
  {
    if channel != [] {
      var next := Next(x, channel[0], modulo);
      AfterBounds(next, channel[1..], modulo);
      SmoothGrows(next, channel[1..], sent, accepted, sent', accepted', modulo);
    }
  }

  /** The receiver sends more while the channel is under way. */
  lemma {:induction false} SmoothSends(x: Expect, sentTotal: nat, channel: seq<Packet>, sent: Log, accepted: Log, modulo: Modulo)
    requires Smooth(x, channel, sent, accepted, modulo) && x.sent <= sentTotal
    ensures Smooth(x.(sent := sentTotal), channel, sent, accepted, modulo)
    ensures After(x.(sent := sentTotal), channel, modulo).(sent := 0) == After(x, channel, modulo).(sent := 0)
    ensures AtRequest(x.(sent := sentTotal), channel, modulo) == AtRequest(x, channel, modulo)
    decreases |channel|
  {
    if channel != [] && !Opens(x.mode, channel[0]) {
      assert Next(x.(sent := sentTotal), channel[0], modulo) == Next(x, channel[0], modulo).(sent := sentTotal);
      SmoothSends(Next(x, channel[0], modulo), sentTotal, channel[1..], sent, accepted, modulo);
    }
  }

  function Reset(x: Expect): Expect {
    Expect(Resetting, x.epoch, 0, 0, 0)
  }

  /** The receiver starts a reset while the channel, which holds no confirm that it
      could mistake for its own, is under way: everything before a reset request
      is ignored, everything after it is as before. */
  lemma {:induction false} SmoothResets(x: Expect, channel: seq<Packet>, sent: Log, accepted: Log, modulo: Modulo)
    requires Smooth(x, channel, sent, accepted, modulo)
    requires x.mode == Transferring && Confirms(channel) == 0
    ensures Smooth(Reset(x), channel, sent, accepted, modulo)
    ensures var f := After(x, channel, modulo);
            var g := After(Reset(x), channel, modulo);
            && (f.mode == Gone <==> g.mode == Gone)
            && (f.mode != Gone ==> if Requests(channel) == 0 then g == Reset(x) && f.epoch == x.epoch else g == f)
    ensures AtRequest(Reset(x), channel, modulo) != Some(Transferring)
    decreases |channel|
  {
    if channel != [] && channel[0].ClearRequestPacket? {
      GoneSmooth(x.(mode := Gone), channel[1..], sent, accepted, modulo);
      GoneSmooth(Reset(x).(mode := Gone), channel[1..], sent, accepted, modulo);
    } else if channel != [] && !channel[0].ResetRequest? {
      assert Reset(Next(x, channel[0], modulo)) == Reset(x) == Next(Reset(x), channel[0], modulo);
      SmoothResets(Next(x, channel[0], modulo), channel[1..], sent, accepted, modulo);
    }
  }

  lemma {:induction false} GoneSmooth(x: Expect, channel: seq<Packet>, sent: Log, accepted: Log, modulo: Modulo)
    requires x.mode == Gone
    ensures Smooth(x, channel, sent, accepted, modulo)
    ensures After(x, channel, modulo) == x
    ensures AtRequest(x, channel, modulo) != Some(Transferring)
    decreases |channel|
  {
    if channel != [] {
      GoneSmooth(x, channel[1..], sent, accepted, modulo);
    }
  }
}
