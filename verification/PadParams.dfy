/** The parameters of a PAD, and how another PAD reads and sets them (`pad.rs`). */
module PadParameters {
  import opened Wrappers
  import opened Buffers
  import opened X3
  import opened X29
  import opened X29Codec

  /** The parameters a PAD leaves to its user. Each value is stored or refused, and
      storing one touches no other. */
  class Delegate {
    var values: map<Byte, Byte>
    const verdict: (Byte, Byte) -> Option<ParamError>
    const listed: seq<Byte>

    ghost predicate Valid()
      reads this
    {
      && (forall p, v: Byte | verdict(p, v).None? :: p in values)
      && (forall p | p in listed :: p in values && p <= 0x7f)
    }

    constructor (values: map<Byte, Byte>, verdict: (Byte, Byte) -> Option<ParamError>, listed: seq<Byte>)
      requires forall p, v: Byte | verdict(p, v).None? :: p in values
      requires forall p | p in listed :: p in values && p <= 0x7f
      ensures Valid() && this.values == values && this.verdict == verdict
    {
      this.values := values;
      this.verdict := verdict;
      this.listed := listed;
    }

    function Get(param: Byte): Option<Byte>
      reads this
    {
      if param in values then Some(values[param]) else None
    }

    /** The parameters listed, each with its value. */
    function All(): (all: seq<(Byte, Byte)>)
      requires Valid()
      reads this
      ensures |all| == |listed|
      ensures forall i | 0 <= i < |listed| :: all[i].0 == listed[i] <= 0x7f && Get(listed[i]) == Some(all[i].1)
    {
      assert forall i | 0 <= i < |listed| :: listed[i] in listed;
      seq(|listed|, i reads this requires 0 <= i < |listed| && listed[i] in values => (listed[i], values[listed[i]]))
    }

    method Set(param: Byte, value: Byte) returns (refusal: Option<ParamError>)
      requires Valid()
      modifies this
      ensures Valid() && refusal == verdict(param, value)
      ensures forall q :: Get(q) == if refusal.None? && q == param then Some(value) else old(Get(q))
    {
      refusal := verdict(param, value);
      if refusal.None? {
        values := values[param := value];
      }
    }
  }

  const PARAMS: seq<Byte> := [2, 3, 4, 13, 15]

  class PadParams {
    var echo: Echo
    var forward: Forward
    var idle: Idle
    var lfInsert: LfInsert
    var editing: Editing
    const delegate: Option<Delegate>

    ghost function Repr(): set<object>
    {
      match delegate
      case Some(d) => {this, d}
      case None => {this}
    }

    ghost predicate Valid()
      reads Repr()
    {
      delegate.Some? ==> delegate.value.Valid()
    }

    constructor (delegate: Option<Delegate>)
      requires delegate.Some? ==> delegate.value.Valid()
      ensures Valid() && this.delegate == delegate
    {
      echo, forward, idle, lfInsert, editing := 0, 0, 0, 0, 0;
      this.delegate := delegate;
    }

    function Get(param: Byte): (value: Option<Byte>)
      reads Repr()
      ensures param in PARAMS ==> value.Some?
    {
      match param
      case 2 => Some(echo)
      case 3 => Some(forward)
      case 4 => Some(idle)
      case 13 => Some(lfInsert)
      case 15 => Some(editing)
      case _ =>
        match delegate
        case Some(d) => d.Get(param)
        case None => None
    }

    /** Why a value would be refused; this does not depend on the values held. */
    function Verdict(param: Byte, value: Byte): Option<ParamError> {
      match param
      case 2 => if value <= 1 then None else Some(InvalidValue)
      case 3 => if value <= 127 then None else Some(InvalidValue)
      case 4 => None
      case 13 => if value <= 7 then None else Some(InvalidValue)
      case 15 => if value <= 1 then None else Some(InvalidValue)
      case _ =>
        match delegate
        case Some(d) => d.verdict(param, value)
        case None => Some(Unsupported)
    }

    method Set(param: Byte, value: Byte) returns (refusal: Option<ParamError>)
      requires Valid()
      modifies Repr()
      ensures Valid() && refusal == Verdict(param, value)
      ensures TrueOutcome((param, value), match refusal case None => Value(value) case Some(e) => Refused(e), delegate)
      ensures forall q :: Get(q) == if refusal.None? && q == param then Some(value) else old(Get(q))
    {
      if param == 2 {
        if value > 1 {
          return Some(InvalidValue);
        }
        echo := value;
      } else if param == 3 {
        if value > 127 {
          return Some(InvalidValue);
        }
        forward := value;
      } else if param == 4 {
        idle := value;
      } else if param == 13 {
        if value > 7 {
          return Some(InvalidValue);
        }
        lfInsert := value;
      } else if param == 15 {
        if value > 1 {
          return Some(InvalidValue);
        }
        editing := value;
      } else if delegate.Some? {
        refusal := delegate.value.Set(param, value);
        return;
      } else {
        return Some(Unsupported);
      }
      return None;
    }

    /** All parameters with their values: first those of the PAD, then those its
        delegate lists, even where the PAD has one of the same number. */
    function Everything(): (all: seq<(Byte, Byte)>)
      requires Valid()
      reads Repr()
      ensures |all| >= |PARAMS|
      ensures forall i | 0 <= i < |PARAMS| :: all[i].0 == PARAMS[i] && Get(PARAMS[i]) == Some(all[i].1)
      ensures all[|PARAMS|..] == match delegate case Some(d) => d.All() case None => []
    {
      var own: seq<(Byte, Byte)> := [(2, echo), (3, forward), (4, idle), (13, lfInsert), (15, editing)];
      own + match delegate case Some(d) => d.All() case None => []
    }

    method All() returns (all: seq<(Byte, Byte)>)
      requires Valid()
      ensures all == old(Everything())
    {
      all := [];
      for i := 0 to |PARAMS|
        invariant |all| == i
        invariant forall j | 0 <= j < i :: all[j] == Everything()[j]
      {
        all := all + [(PARAMS[i], Get(PARAMS[i]).value)];
      }
      assert all == Everything()[..|PARAMS|];
      assert Everything() == Everything()[..|PARAMS|] + Everything()[|PARAMS|..];
      if delegate.Some? {
        all := all + delegate.value.All();
      }
    }
  }

  /** The answer to one setting. */
  function Answer(params: PadParams, pair: (Byte, Byte)): (Byte, Outcome) {
    match params.Verdict(pair.0, pair.1)
    case None => (pair.0, Value(pair.1))
    case Some(error) => (pair.0, Refused(error))
  }

  /** What becomes of setting parameter `pair.0` to `pair.1`: echo and editing are 0 or
      1, forwarding is at most 127, line feed insertion at most 7, and the idle delay is
      any byte. Other parameters are the delegate's, if there is one. */
  predicate TrueOutcome(pair: (Byte, Byte), outcome: Outcome, delegate: Option<Delegate>) {
    var (param, value) := pair;
    && (param == 2 || param == 15 ==> outcome == if value in {0, 1} then Value(value) else Refused(InvalidValue))
    && (param == 3 ==> outcome == if 0 <= value <= 127 then Value(value) else Refused(InvalidValue))
    && (param == 4 ==> outcome == Value(value))
    && (param == 13 ==> outcome == if 0 <= value <= 7 then Value(value) else Refused(InvalidValue))
    && (param !in {2, 3, 4, 13, 15} && delegate == None ==> outcome == Refused(Unsupported))
    && (param !in {2, 3, 4, 13, 15} && delegate.Some? ==>
          outcome == match delegate.value.verdict(param, value)
                     case None => Value(value)
                     case Some(error) => Refused(error))
  }

  lemma AnswersAreTrue(params: PadParams, request: seq<(Byte, Byte)>)
    ensures forall i | 0 <= i < |request| ::
              && Answers(params, request)[i].0 == request[i].0
              && TrueOutcome(request[i], Answers(params, request)[i].1, params.delegate)
  {
  }

  /** Each number stands for its parameter. */
  lemma NumbersNameParameters(params: PadParams)
    requires params.Valid()
    ensures |params.Everything()| >= 5
    ensures params.Everything()[..5] == [(2, params.echo), (3, params.forward), (4, params.idle), (13, params.lfInsert),
                                         (15, params.editing)]
    ensures params.Get(2) == Some(params.echo) && params.Get(3) == Some(params.forward)
    ensures params.Get(4) == Some(params.idle) && params.Get(13) == Some(params.lfInsert)
    ensures params.Get(15) == Some(params.editing)
    ensures forall p: Byte | p !in {2, 3, 4, 13, 15} ::
              params.Get(p) == if params.delegate.Some? then params.delegate.value.Get(p) else None
  {
  }

  function Answers(params: PadParams, request: seq<(Byte, Byte)>): (response: seq<(Byte, Outcome)>)
    ensures |response| == |request| && forall i | 0 <= i < |request| :: response[i] == Answer(params, request[i])
  {
    seq(|request|, i requires 0 <= i < |request| => Answer(params, request[i]))
  }

  /** The last value reported for a parameter. */
  function LastValue(response: seq<(Byte, Outcome)>, param: Byte): Option<Byte> {
    if response == [] then None
    else
      var last := response[|response| - 1];
      if last.0 == param && last.1.Value? then Some(last.1.value) else LastValue(response[..|response| - 1], param)
  }

  /** It stands at the last place that reports one. */
  lemma {:induction false} LastValueIsLast(response: seq<(Byte, Outcome)>, param: Byte)
    ensures match LastValue(response, param)
            case None => forall v :: (param, Value(v)) !in response
            case Some(v) =>
              exists i | 0 <= i < |response| ::
                && response[i] == (param, Value(v))
                && forall j, w | i < j < |response| :: response[j] != (param, Value(w))
  {
    if response != [] {
      var (init, last) := (response[..|response| - 1], response[|response| - 1]);
      LastValueIsLast(init, param);
      assert response == init + [last];
      if last.0 == param && last.1.Value? {
        assert response[|response| - 1] == (param, Value(last.1.value));
      }
    }
  }

  /** A parameter once `response` has been reported, from the value it had before. */
  function Settled(response: seq<(Byte, Outcome)>, param: Byte, before: Option<Byte>): Option<Byte> {
    match LastValue(response, param)
    case Some(v) => Some(v)
    case None => before
  }

  lemma LastValueNext(response: seq<(Byte, Outcome)>, entry: (Byte, Outcome))
    ensures forall q :: LastValue(response + [entry], q)
                     == if entry.0 == q && entry.1.Value? then Some(entry.1.value) else LastValue(response, q)
  {
    assert (response + [entry])[..|response|] == response;
  }

  /** Sets what can be set, and reports every outcome. */
  method SetReadParams(params: PadParams, request: seq<(Byte, Byte)>) returns (message: PadMessage)
    requires params.Valid() && request != []
    modifies params.Repr()
    ensures params.Valid() && message == Indicate(Answers(params, request))
    ensures forall i | 0 <= i < |request| ::
              && message.response[i].0 == request[i].0
              && TrueOutcome(request[i], message.response[i].1, params.delegate)
    ensures forall q :: params.Get(q) == Settled(Answers(params, request), q, old(params.Get(q)))
  {
    var response: seq<(Byte, Outcome)> := [];
    ghost var answers := Answers(params, request);
    for i := 0 to |request|
      invariant params.Valid() && response == answers[..i]
      invariant forall q :: params.Get(q) == Settled(response, q, old(params.Get(q)))
    {
      var (param, value) := request[i];
      LastValueNext(response, answers[i]);
      var refusal := params.Set(param, value);
      if refusal.Some? {
        response := response + [(param, Refused(refusal.value))];
      } else {
        response := response + [(param, OutcomeOf(params.Get(param)))];
      }
      assert answers[..i + 1] == answers[..i] + [answers[i]];
    }
    assert answers[..|request|] == answers;
    AnswersAreTrue(params, request);
    message := Indicate(response);
  }

  function Errors(response: seq<(Byte, Outcome)>): seq<(Byte, Outcome)> {
    if response == [] then []
    else
      var last := response[|response| - 1];
      Errors(response[..|response| - 1]) + if last.1.Refused? then [last] else []
  }

  lemma ErrorsNext(response: seq<(Byte, Outcome)>, entry: (Byte, Outcome))
    ensures Errors(response + [entry]) == Errors(response) + if entry.1.Refused? then [entry] else []
  {
    assert (response + [entry])[..|response|] == response;
  }

  /** They are exactly the entries that report one. */
  lemma {:induction false} ErrorsAreRefusals(response: seq<(Byte, Outcome)>)
    ensures forall e :: e in Errors(response) <==> e in response && e.1.Refused?
  {
    if response != [] {
      ErrorsAreRefusals(response[..|response| - 1]);
      assert response == response[..|response| - 1] + [response[|response| - 1]];
    }
  }

  lemma AnswersNext(answers: seq<(Byte, Outcome)>, i: nat)
    requires i < |answers|
    ensures Errors(answers[..i + 1]) == if answers[i].1.Refused? then Errors(answers[..i]) + [answers[i]]
                                        else Errors(answers[..i])
    ensures forall q :: LastValue(answers[..i + 1], q)
                     == if answers[i].0 == q && answers[i].1.Value? then Some(answers[i].1.value)
                        else LastValue(answers[..i], q)
  {
    assert answers[..i + 1] == answers[..i] + [answers[i]];
    ErrorsNext(answers[..i], answers[i]);
    LastValueNext(answers[..i], answers[i]);
    assert Errors(answers[..i]) + [] == Errors(answers[..i]);
  }

  /** Sets what can be set, and reports the errors if there are any. */
  method SetParams(params: PadParams, request: seq<(Byte, Byte)>) returns (message: Option<PadMessage>)
    requires params.Valid() && request != []
    modifies params.Repr()
    ensures params.Valid()
    ensures var errors := Errors(Answers(params, request));
            message == if errors == [] then None else Some(Indicate(errors))
    ensures forall q :: params.Get(q) == Settled(Answers(params, request), q, old(params.Get(q)))
  {
    var response: seq<(Byte, Outcome)> := [];
    ghost var answers := Answers(params, request);
    for i := 0 to |request|
      invariant params.Valid() && response == Errors(answers[..i])
      invariant forall q :: params.Get(q) == Settled(answers[..i], q, old(params.Get(q)))
    {
      AnswersNext(answers, i);
      var (param, value) := request[i];
      var refusal := params.Set(param, value);
      if refusal.Some? {
        response := response + [(param, Refused(refusal.value))];
      }
    }
    assert answers[..|request|] == answers;
    message := if response == [] then None else Some(Indicate(response));
  }

  function OutcomeOf(value: Option<Byte>): Outcome {
    match value
    case Some(v) => Value(v)
    case None => Refused(Unsupported)
  }

  /** What is reported of each parameter asked for. */
  function Reports(params: PadParams, request: seq<Byte>): (response: seq<(Byte, Outcome)>)
    reads params.Repr()
    ensures |response| == |request|
    ensures forall i | 0 <= i < |request| :: response[i] == (request[i], OutcomeOf(params.Get(request[i])))
  {
    seq(|request|, i reads params.Repr() requires 0 <= i < |request| =>
      (request[i], OutcomeOf(params.Get(request[i]))))
  }

  function Reported(entry: (Byte, Byte)): (Byte, Outcome) {
    (entry.0, Value(entry.1))
  }

  /** What is reported when no parameter is named: all of them. */
  function AllReports(params: PadParams): (response: seq<(Byte, Outcome)>)
    requires params.Valid()
    reads params.Repr()
  {
    Map(Reported, params.Everything())
  }

  function ReadResponse(params: PadParams, request: seq<Byte>): seq<(Byte, Outcome)>
    requires params.Valid()
    reads params.Repr()
  {
    if request == [] then AllReports(params) else Reports(params, request)
  }

  method ReadParams(params: PadParams, request: seq<Byte>) returns (message: PadMessage)
    requires params.Valid()
    ensures message == Indicate(old(ReadResponse(params, request)))
  {
    if request == [] {
      var all := params.All();
      message := Indicate(Map(Reported, all));
    } else {
      var response: seq<(Byte, Outcome)> := [];
      for i := 0 to |request|
        invariant response == Reports(params, request)[..i]
      {
        response := response + [(request[i], OutcomeOf(params.Get(request[i])))];
      }
      message := Indicate(response);
    }
  }

  // The exchange between two PADs

  /** The source has no code for a setting without parameters, nor for answering
      about parameter numbers that cannot be encoded. */
  predicate Answerable(m: PadMessage) {
    InRange(m) && (m.Set? || m.SetRead? ==> m.setting != [])
  }

  lemma AnswersInRange(params: PadParams, request: seq<(Byte, Byte)>)
    requires forall p | p in request :: p.0 <= 0x7f
    ensures InRange(Indicate(Answers(params, request)))
    ensures InRange(Indicate(Errors(Answers(params, request))))
  {
    assert forall i | 0 <= i < |request| :: request[i] in request;
    ErrorsAreRefusals(Answers(params, request));
  }

  /** A message as bytes, which the other end decodes to the same message. */
  method Post(m: PadMessage) returns (bytes: seq<Byte>)
    requires InRange(m)
    ensures Decode(bytes) == Ok(m)
  {
    var buf := new BytesMut();
    var len := EncodeMessage(m, buf);
    assert buf.data == Encode(m);
    MessageRoundTrip(m);
    return buf.data;
  }

  method AnswerSetRead(params: PadParams, request: seq<(Byte, Byte)>) returns (reply: seq<Byte>)
    requires params.Valid() && Answerable(SetRead(request))
    modifies params.Repr()
    ensures params.Valid()
    ensures Decode(reply) == Ok(Indicate(Answers(params, request)))
    ensures forall q :: params.Get(q) == Settled(Answers(params, request), q, old(params.Get(q)))
  {
    AnswersInRange(params, request);
    var message := SetReadParams(params, request);
    reply := Post(message);
  }

  method AnswerSet(params: PadParams, request: seq<(Byte, Byte)>) returns (reply: Option<seq<Byte>>)
    requires params.Valid() && Answerable(Set(request))
    modifies params.Repr()
    ensures params.Valid()
    ensures var errors := Errors(Answers(params, request));
            if errors == [] then reply == None else reply.Some? && Decode(reply.value) == Ok(Indicate(errors))
    ensures forall q :: params.Get(q) == Settled(Answers(params, request), q, old(params.Get(q)))
  {
    AnswersInRange(params, request);
    var message := SetParams(params, request);
    if message.None? {
      return None;
    }
    var bytes := Post(message.value);
    return Some(bytes);
  }

  lemma ReportsInRange(params: PadParams, request: seq<Byte>)
    requires params.Valid() && forall p | p in request :: p <= 0x7f
    ensures InRange(Indicate(ReadResponse(params, request)))
  {
    assert forall i | 0 <= i < |request| :: request[i] in request;
  }

  method AnswerRead(params: PadParams, request: seq<Byte>) returns (reply: seq<Byte>)
    requires params.Valid() && Answerable(Read(request))
    ensures Decode(reply) == Ok(Indicate(old(ReadResponse(params, request))))
  {
    ReportsInRange(params, request);
    var message := ReadParams(params, request);
    reply := Post(message);
  }

  /** What a PAD does with a message from the other one, and its answer. */
  method HandleMessage(params: PadParams, bytes: seq<Byte>) returns (reply: Option<seq<Byte>>)
    requires params.Valid() && Decode(bytes).Ok? && Answerable(Decode(bytes).value)
    modifies params.Repr()
    ensures params.Valid()
    ensures match Decode(bytes).value
            case SetRead(request) =>
              reply.Some? && Decode(reply.value) == Ok(Indicate(Answers(params, request)))
            case Set(request) =>
              var errors := Errors(Answers(params, request));
              if errors == [] then reply == None
              else reply.Some? && Decode(reply.value) == Ok(Indicate(errors))
            case Read(request) =>
              reply.Some? && Decode(reply.value) == Ok(Indicate(old(ReadResponse(params, request))))
            case _ => reply == None
    ensures var m := Decode(bytes).value;
            forall q :: params.Get(q) == if m.Set? || m.SetRead? then
                                           Settled(Answers(params, m.setting), q, old(params.Get(q)))
                                         else old(params.Get(q))
  {
    var decoded := DecodeMessage(bytes);
    match decoded.value
    case Set(request) =>
      reply := AnswerSet(params, request);
    case Read(request) =>
      var bytes := AnswerRead(params, request);
      return Some(bytes);
    case SetRead(request) =>
      var bytes := AnswerSetRead(params, request);
      return Some(bytes);
    case _ => return None;
  }

  /** Setting parameters of the remote PAD: the requester gets one entry for each
      pair it sent, in order, saying truly what became of it, and afterwards every
      parameter of the remote PAD is the last value reported for it, or what it was
      before. */
  method SetRemoteParams(request: seq<(Byte, Byte)>, remote: PadParams) returns (response: seq<(Byte, Outcome)>)
    requires remote.Valid() && request != [] && forall p | p in request :: p.0 <= 0x7f
    modifies remote.Repr()
    ensures remote.Valid() && |response| == |request|
    ensures forall i | 0 <= i < |request| ::
              response[i].0 == request[i].0 && TrueOutcome(request[i], response[i].1, remote.delegate)
    ensures forall q :: remote.Get(q) == Settled(response, q, old(remote.Get(q)))
  {
    AnswersAreTrue(remote, request);
    var message := Post(SetRead(request));
    var reply := HandleMessage(remote, message);
    var decoded := DecodeMessage(reply.value);
    return decoded.value.response;
  }

  function ValueOf(entry: (Byte, Outcome)): (Byte, Option<Byte>) {
    (entry.0, match entry.1 case Value(v) => Some(v) case Refused(_) => None)
  }

  /** Reading parameters of the remote PAD: an entry for each, with its value if it
      has one; or all of them, when none is named. */
  method GetRemoteParams(request: seq<Byte>, remote: PadParams) returns (response: seq<(Byte, Option<Byte>)>)
    requires remote.Valid() && forall p | p in request :: p <= 0x7f
    modifies remote.Repr()
    ensures remote.Valid()
    ensures response == Map(ValueOf, old(ReadResponse(remote, request)))
    ensures request != [] ==>
              && |response| == |request|
              && forall i | 0 <= i < |request| :: response[i] == (request[i], old(remote.Get(request[i])))
    ensures forall q :: remote.Get(q) == old(remote.Get(q))
  {
    var message := Post(Read(request));
    var reply := HandleMessage(remote, message);
    var decoded := DecodeMessage(reply.value);
    response := Map(ValueOf, decoded.value.response);
  }
}
