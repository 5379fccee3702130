/** Cutting messages into packets and putting them together again. */
module Messages {
  import opened Wrappers
  import opened Circuits
  import opened Flow
  import opened CircuitSystem

  /** All packets of a log, epoch after epoch. */
  function Concat(log: Log): seq<SendData> {
    if log == [] then [] else Concat(log[..|log| - 1]) + log[|log| - 1]
  }

  /** The packets of a list of messages. */
  function Cut(messages: seq<Message>, size: nat): seq<SendData> {
    if messages == [] || size == 0 then []
    else
      var last := messages[|messages| - 1];
      Cut(messages[..|messages| - 1], size) + Fragments(last.userData, last.qualifier, size)
  }

  function NonEmpty(messages: seq<Message>): seq<Message> {
    if messages == [] then []
    else
      var last := messages[|messages| - 1];
      NonEmpty(messages[..|messages| - 1]) + if last.userData == [] then [] else [last]
  }

  /** The messages complete in a list of packets. */
  function Complete(fragments: seq<SendData>): seq<Message>
    decreases |fragments|
  {
    match CompleteLength(fragments)
    case None => []
    case Some(n) => [Reassemble(fragments[..n])] + Complete(fragments[n..])
  }

  /** No message is left unfinished. */
  predicate Whole(fragments: seq<SendData>) {
    fragments == [] || !fragments[|fragments| - 1].more
  }

  lemma ConcatSnoc(log: Log, epoch: seq<SendData>)
    ensures Concat(log + [epoch]) == Concat(log) + epoch
  {
    assert (log + [epoch])[..|log|] == log;
  }

  lemma ConcatExtend(log: Log, more: seq<SendData>)
    requires log != []
    ensures Concat(Extend(log, more)) == Concat(log) + more
  {
    ConcatSnoc(log[..|log| - 1], log[|log| - 1] + more);
    assert Concat(log[..|log| - 1]) + (log[|log| - 1] + more) == Concat(log) + more;
  }

  lemma {:induction false} CompleteLengthAppend(x: seq<SendData>, y: seq<SendData>)
    ensures CompleteLength(x).Some? ==> CompleteLength(x + y) == CompleteLength(x)
  {
    if x != [] && x[0].more {
      assert (x + y)[1..] == x[1..] + y;
      CompleteLengthAppend(x[1..], y);
    }
  }

  lemma {:induction false} CompletePrefix(x: seq<SendData>, y: seq<SendData>)
    requires x <= y
    ensures Complete(x) <= Complete(y)
    decreases |x|
  {
    assert y == x + y[|x|..];
    CompleteLengthAppend(x, y[|x|..]);
    match CompleteLength(x)
    case None =>
    case Some(n) =>
      assert y[..n] == x[..n];
      CompletePrefix(x[n..], y[n..]);
  }

  lemma WholeTail(x: seq<SendData>, n: nat)
    requires Whole(x) && n <= |x|
    ensures Whole(x[n..])
  {
    if n < |x| {
      assert x[n..][|x| - n - 1] == x[|x| - 1];
    }
  }

  lemma {:induction false} CompleteAppend(x: seq<SendData>, y: seq<SendData>, z: seq<SendData>)
    requires Whole(x) && z == x + y
    ensures Complete(z) == Complete(x) + Complete(y)
    decreases |x|
  {
    if x == [] {
      assert z == y;
      assert Complete(x) == [];
    } else {
      var n := CompleteLength(x).value;
      CompleteLengthAppend(x, y);
      WholeTail(x, n);
      assert z[n..] == x[n..] + y;
      CompleteAppend(x[n..], y, z[n..]);
      AppendOnce(x, y, z, n);
    }
  }

  lemma AppendOnce(x: seq<SendData>, y: seq<SendData>, z: seq<SendData>, n: nat)
    requires z == x + y && CompleteLength(x) == CompleteLength(z) == Some(n)
    requires Complete(z[n..]) == Complete(x[n..]) + Complete(y)
    ensures Complete(z) == Complete(x) + Complete(y)
  {
    assert z[..n] == x[..n];
    MessagesAssoc([Reassemble(x[..n])], Complete(x[n..]), Complete(y));
  }

  lemma MessagesAssoc(a: seq<Message>, b: seq<Message>, c: seq<Message>)
    ensures a + (b + c) == a + b + c
  {
  }

  /** `fragments` are one complete sequence that makes up the message; an empty
      message has none. */
  predicate MakesUp(fragments: seq<SendData>, userData: seq<Byte>, qualifier: bool) {
    && Join(fragments) == userData
    && (userData == [] <==> fragments == [])
    && (fragments != [] ==>
          CompleteLength(fragments) == Some(|fragments|) && fragments[|fragments| - 1].qualifier == qualifier)
  }

  /** A message is made up by the packets it is cut into. */
  lemma {:induction false} FragmentsOfOne(userData: seq<Byte>, qualifier: bool, size: nat)
    requires size > 0
    ensures MakesUp(Fragments(userData, qualifier, size), userData, qualifier)
    decreases |userData|
  {
    if |userData| > size {
      FragmentsOfOne(userData[size..], qualifier, size);
      FirstFragment(userData, qualifier, size, Fragments(userData[size..], qualifier, size));
    } else if userData != [] {
      OneFragment(SendData(userData, qualifier, false));
    }
  }

  lemma FirstFragment(userData: seq<Byte>, qualifier: bool, size: nat, rest: seq<SendData>)
    requires |userData| > size && MakesUp(rest, userData[size..], qualifier)
    ensures MakesUp([SendData(userData[..size], qualifier, true)] + rest, userData, qualifier)
  {
    assert userData == userData[..size] + userData[size..];
    FragmentsStep(SendData(userData[..size], qualifier, true), rest);
  }

  lemma OneFragment(d: SendData)
    requires !d.more
    ensures CompleteLength([d]) == Some(1) && Join([d]) == d.userData
  {
    assert Join([d]) == d.userData + Join([d][1..]) == d.userData + [];
  }

  lemma FragmentsStep(first: SendData, rest: seq<SendData>)
    requires first.more && rest != [] && CompleteLength(rest) == Some(|rest|)
    ensures CompleteLength([first] + rest) == Some(1 + |rest|)
    ensures Join([first] + rest) == first.userData + Join(rest)
    ensures ([first] + rest)[|rest|] == rest[|rest| - 1]
  {
    assert ([first] + rest)[1..] == rest;
  }

  lemma CompleteMessage(m: Message, fragments: seq<SendData>)
    requires MakesUp(fragments, m.userData, m.qualifier)
    ensures Complete(fragments) == (if m.userData == [] then [] else [m])
    ensures Whole(fragments)
  {
    if fragments == [] {
      assert Complete([]) == [];
    } else {
      CompleteOnce(fragments);
    }
  }

  lemma CompleteOnce(fragments: seq<SendData>)
    requires fragments != [] && CompleteLength(fragments) == Some(|fragments|)
    ensures Complete(fragments) == [Reassemble(fragments)]
  {
    assert fragments[..|fragments|] == fragments && fragments[|fragments|..] == [];
    assert Complete([]) == [];
  }

  lemma WholeAppend(x: seq<SendData>, y: seq<SendData>)
    requires Whole(x) && Whole(y)
    ensures Whole(x + y)
  {
    if y == [] {
      assert x + y == x;
    }
  }

  lemma {:induction false} CompleteCut(messages: seq<Message>, size: nat)
    requires size > 0
    ensures Complete(Cut(messages, size)) == NonEmpty(messages)
    ensures Whole(Cut(messages, size))
  {
    if messages == [] {
      assert Complete([]) == [];
    } else {
      var init := messages[..|messages| - 1];
      var last := messages[|messages| - 1];
      CompleteCut(init, size);
      CompleteSnoc(Cut(init, size), last, size);
    }
  }

  lemma CompleteSnoc(x: seq<SendData>, last: Message, size: nat)
    requires size > 0 && Whole(x)
    ensures var y := Fragments(last.userData, last.qualifier, size);
            Whole(x + y) && Complete(x + y) == Complete(x) + if last.userData == [] then [] else [last]
  {
    var y := Fragments(last.userData, last.qualifier, size);
    FragmentsOfOne(last.userData, last.qualifier, size);
    CompleteMessage(last, y);
    CompleteAppend(x, y, x + y);
    WholeAppend(x, y);
  }

  /** Packets that complete no message leave one open, if there are any. */
  lemma NothingOpen(x: seq<SendData>, y: seq<SendData>)
    requires CompleteLength(y).None?
    ensures y == [] || !Whole(x + y)
  {
    if y != [] {
      assert (x + y)[|x + y| - 1] == y[|y| - 1];
    }
  }
}
