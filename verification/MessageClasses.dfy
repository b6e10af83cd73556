/**
 * The other message classes, statement by statement: type code, length, positions, payload
 * and optional fields, against the schema-driven function.
 */
module MessageClasses {
  import opened Values
  import opened Messages
  import opened MessageChecks
  import opened MessageFields
  import opened MessageMethods
  import opened MessageReparse
  import opened W = Wrappers
  import U = Uri

  // ---------------------------------------------------------------- positions

  /** What checking the positions leaves to do. */
  ghost predicate Checked(k: Kind, w: seq<Value>, error: Option<Failure>, head: seq<Value>, body: seq<Value>, options: Value) {
    match error
    case Some(e) => Parse(k, w) == Err(e)
    case None => IsStrDict(options) && |body| <= 2 && Parse(k, w) == ParseBody(k, head, body, options.entries)
  }

  lemma {:induction false} HeadOfThree(w: seq<Value>, k: Kind)
    requires |w| >= 4 && |Layout(k)| == 3 && !TrailingOptions(k)
    ensures OptionsAt(k) == 1 ==> HeadOf(k, w[1..4]) == [w[1], w[3]]
    ensures OptionsAt(k) == 2 ==> HeadOf(k, w[1..4]) == [w[1], w[2]]
  {
    var slots := w[1..4];
    assert slots == [w[1], w[2], w[3]];
    assert slots[..1] + slots[2..] == [w[1], w[3]] && slots[..2] + slots[3..] == [w[1], w[2]];
  }

  lemma {:induction false} HeadOfTwo(w: seq<Value>, k: Kind)
    requires |w| >= 3 && |Layout(k)| == 2
    ensures TrailingOptions(k) ==> HeadOf(k, w[1..3]) == [w[1], w[2]]
    ensures !TrailingOptions(k) && OptionsAt(k) == 1 ==> HeadOf(k, w[1..3]) == [w[1]]
  {
    var slots := w[1..3];
    assert slots == [w[1], w[2]];
    assert slots[..1] + slots[2..] == [w[1]];
  }

  /** A request, options and a URI. */
  method CheckIdOptionsUri(k: Kind, wmsg: seq<Value>, allowEmpty: bool) returns (error: Option<Failure>)
    requires (k == PUBLISH && !allowEmpty) || (k == CALL && !allowEmpty) || (k == SUBSCRIBE && allowEmpty)
    requires LengthOk(k, |wmsg|) && wmsg[0] == Int(Code(k)) && |wmsg| >= 4
    ensures Checked(k, wmsg, error, [wmsg[1], wmsg[3]], if HasPayload(k) then wmsg[4..] else [], wmsg[2])
  {
    var request := CheckOrRaiseId(wmsg[1]);
    if request.Err? {
      SlotFails(k, wmsg, 0);
      return Some(ProtocolError);
    }
    var options := CheckOrRaiseExtra(wmsg[2]);
    if options.Err? {
      SlotFails(k, wmsg, 1);
      return Some(ProtocolError);
    }
    var uri := CheckOrRaiseUri(wmsg[3], false, allowEmpty, false, false);
    if uri.Err? {
      SlotFails(k, wmsg, 2);
      return Some(InvalidUriError);
    }
    SlotsPass(k, wmsg);
    HeadOfThree(wmsg, k);
    return None;
  }

  lemma {:induction false} IdIdOptionsPass(k: Kind, w: seq<Value>)
    requires (k == EVENT || k == INVOCATION) && LengthOk(k, |w|) && w[0] == Int(Code(k)) && |w| >= 4
    requires IsId(w[1]) && IsId(w[2]) && IsStrDict(w[3])
    ensures Checked(k, w, None, [w[1], w[2]], w[4..], w[3])
  {
    SlotsPass(k, w);
    HeadOfThree(w, k);
  }

  /** Two ids and a dictionary. */
  method CheckIdIdOptions(k: Kind, wmsg: seq<Value>) returns (error: Option<Failure>)
    requires k == EVENT || k == INVOCATION
    requires LengthOk(k, |wmsg|) && wmsg[0] == Int(Code(k)) && |wmsg| >= 4
    ensures Checked(k, wmsg, error, [wmsg[1], wmsg[2]], wmsg[4..], wmsg[3])
  {
    var first := CheckOrRaiseId(wmsg[1]);
    if first.Err? {
      SlotFails(k, wmsg, 0);
      return Some(ProtocolError);
    }
    var second := CheckOrRaiseId(wmsg[2]);
    if second.Err? {
      SlotFails(k, wmsg, 1);
      return Some(ProtocolError);
    }
    var details := CheckOrRaiseExtra(wmsg[3]);
    if details.Err? {
      SlotFails(k, wmsg, 2);
      return Some(ProtocolError);
    }
    IdIdOptionsPass(k, wmsg);
    return None;
  }

  /** An id and a dictionary. */
  method CheckIdOptions(k: Kind, wmsg: seq<Value>) returns (error: Option<Failure>)
    requires k == RESULT || k == YIELD || k == CANCEL || k == INTERRUPT
    requires LengthOk(k, |wmsg|) && wmsg[0] == Int(Code(k)) && |wmsg| >= 3
    ensures Checked(k, wmsg, error, [wmsg[1]], if HasPayload(k) then wmsg[3..] else [], wmsg[2])
  {
    var request := CheckOrRaiseId(wmsg[1]);
    if request.Err? {
      SlotFails(k, wmsg, 0);
      return Some(ProtocolError);
    }
    var options := CheckOrRaiseExtra(wmsg[2]);
    if options.Err? {
      SlotFails(k, wmsg, 1);
      return Some(ProtocolError);
    }
    SlotsPass(k, wmsg);
    HeadOfTwo(wmsg, k);
    return None;
  }

  /** Two ids, and a dictionary that may be left out. */
  method CheckIdIdTrailing(k: Kind, wmsg: seq<Value>) returns (error: Option<Failure>, options: Value)
    requires k == UNSUBSCRIBE || k == UNREGISTER
    requires LengthOk(k, |wmsg|) && wmsg[0] == Int(Code(k)) && |wmsg| >= 3
    ensures Checked(k, wmsg, error, [wmsg[1], wmsg[2]], [], options)
  {
    options := Dict(map[]);
    var request := CheckOrRaiseId(wmsg[1]);
    if request.Err? {
      SlotFails(k, wmsg, 0);
      return Some(ProtocolError), options;
    }
    var id := CheckOrRaiseId(wmsg[2]);
    if id.Err? {
      SlotFails(k, wmsg, 1);
      return Some(ProtocolError), options;
    }
    if |wmsg| > 3 {
      options := wmsg[3];
    }
    var dict := CheckOrRaiseExtra(options);
    if dict.Err? {
      TrailingFails(k, wmsg);
      return Some(ProtocolError), options;
    }
    SlotsPass(k, wmsg);
    HeadOfTwo(wmsg, k);
    return None, options;
  }

  /** An id, and a dictionary that may be left out. */
  method CheckIdTrailing(k: Kind, wmsg: seq<Value>) returns (error: Option<Failure>, details: Value)
    requires k == UNSUBSCRIBED || k == UNREGISTERED
    requires LengthOk(k, |wmsg|) && wmsg[0] == Int(Code(k)) && |wmsg| >= 2
    ensures Checked(k, wmsg, error, [wmsg[1]], [], details)
  {
    details := Dict(map[]);
    var request := CheckOrRaiseId(wmsg[1]);
    if request.Err? {
      SlotFails(k, wmsg, 0);
      return Some(ProtocolError), details;
    }
    if |wmsg| > 2 {
      details := wmsg[2];
    }
    var dict := CheckOrRaiseExtra(details);
    if dict.Err? {
      TrailingFails(k, wmsg);
      return Some(ProtocolError), details;
    }
    SlotsPass(k, wmsg);
    assert wmsg[1..2] == [wmsg[1]];
    return None, details;
  }

  lemma {:induction false} TrailingFails(k: Kind, w: seq<Value>)
    requires TrailingOptions(k) && LengthOk(k, |w|) && w[0] == Int(Code(k)) && |w| >= 1 + |Layout(k)|
    requires (forall j: nat :: j < |Layout(k)| ==> SlotPasses(k, w, j)) && !IsStrDict(OptionsOf(k, w))
    ensures Parse(k, w) == Err(ProtocolError)
  {
    AllSlotsPass(k, w);
  }

  // ---------------------------------------------------------------- payloads

  /** The encryption fields of a payload. */
  method TakeEnc(options: map<Key, Value>) returns (r: Result<(Value, Value, Value), Failure>)
    ensures r == if EncError(options) then Err(ProtocolError)
                 else Ok((Get(options, EncAlgo), Get(options, EncKey), Get(options, EncSerializer)))
  {
    var encAlgo := Get(options, EncAlgo);
    var validAlgo := IsValidEncAlgo(encAlgo);
    if Truthy(encAlgo) && !validAlgo {
      return Err(ProtocolError);
    }
    var encKey := Get(options, EncKey);
    if Truthy(encKey) && !encKey.Str? {
      return Err(ProtocolError);
    }
    var encSerializer := Get(options, EncSerializer);
    var validSerializer := IsValidEncSerializer(encSerializer);
    if Truthy(encSerializer) && !validSerializer {
      return Err(ProtocolError);
    }
    r := Ok((encAlgo, encKey, encSerializer));
  }

  /** Arguments of all classes but PUBLISH: a list or nothing, and a dictionary. */
  method TakeArguments(k: Kind, body: seq<Value>) returns (r: Result<(Value, Value), Failure>)
    requires k != PUBLISH && |body| <= 2
    ensures r == if (|body| > 0 && ArgsError(k, body[0])) || (|body| > 1 && KwargsError(k, body[1])) then Err(ProtocolError)
                 else Ok((if |body| > 0 then body[0] else Null, if |body| > 1 then body[1] else Null))
  {
    var args, kwargs := Null, Null;
    if |body| > 0 {
      args := body[0];
      if args != Null && !args.List? {
        return Err(ProtocolError);
      }
    }
    if |body| > 1 {
      kwargs := body[1];
      if !kwargs.Dict? {
        return Err(ProtocolError);
      }
    }
    r := Ok((args, kwargs));
  }

  ghost predicate BodyRead(k: Kind, body: seq<Value>, options: map<Key, Value>, r: Result<Body, Failure>) {
    r == if BodyRejected(k, body, options) then Err(ProtocolError) else Ok(BodyTaken(k, body, options))
  }

  /** EVENT, INVOCATION and YIELD: only octets are a payload. */
  method TakeBinaryBody(k: Kind, body: seq<Value>, options: map<Key, Value>) returns (r: Result<Body, Failure>)
    requires (k == EVENT || k == INVOCATION || k == YIELD) && |body| <= 2
    ensures BodyRead(k, body, options, r)
  {
    if |body| == 1 && body[0].Bytes? {
      var enc :- TakeEnc(options);
      return Ok(Body(Null, Null, body[0], enc.0, enc.1, enc.2));
    }
    var arguments :- TakeArguments(k, body);
    r := Ok(Body(arguments.0, arguments.1, Null, Null, Null, Null));
  }

  /** CALL and RESULT: text is a payload as well. */
  method TakeTextBody(k: Kind, body: seq<Value>, options: map<Key, Value>) returns (r: Result<Body, Failure>)
    requires (k == CALL || k == RESULT) && |body| <= 2
    ensures BodyRead(k, body, options, r)
  {
    if |body| == 1 && (body[0].Str? || body[0].Bytes?) {
      var enc :- TakeEnc(options);
      return Ok(Body(Null, Null, body[0], enc.0, enc.1, enc.2));
    }
    var arguments :- TakeArguments(k, body);
    r := Ok(Body(arguments.0, arguments.1, Null, Null, Null, Null));
  }

  /** PUBLISH: the arguments may be text or octets, but not nothing. */
  method TakePublishBody(body: seq<Value>, options: map<Key, Value>) returns (r: Result<Body, Failure>)
    requires |body| <= 2
    ensures BodyRead(PUBLISH, body, options, r)
  {
    if |body| == 1 && (body[0].Str? || body[0].Bytes?) {
      var enc :- TakeEnc(options);
      return Ok(Body(Null, Null, body[0], enc.0, enc.1, enc.2));
    }
    var args, kwargs := Null, Null;
    if |body| > 0 {
      args := body[0];
      if !args.List? && !args.Str? && !args.Bytes? {
        return Err(ProtocolError);
      }
    }
    if |body| > 1 {
      kwargs := body[1];
      if !kwargs.Dict? && !kwargs.Str? && !kwargs.Bytes? {
        return Err(ProtocolError);
      }
    }
    r := Ok(Body(args, kwargs, Null, Null, Null, Null));
  }

  // ---------------------------------------------------------------- putting it together

  function Object(k: Kind, head: seq<Value>, taken: map<FieldName, Value>, b: Body): Message {
    var enc := map[EncAlgo := b.encAlgo, EncKey := b.encKey, EncSerializer := b.encSerializer];
    Message(k, head, taken + Given(enc), b.args, b.kwargs, b.payload)
  }

  const NO_BODY: Body := Body(Null, Null, Null, Null, Null, Null)

  lemma {:induction false} PartsDecide(k: Kind, head: seq<Value>, body: seq<Value>, options: map<Key, Value>)
    requires |body| <= 2
    ensures BodyRejected(k, body, options) ==> ParseBody(k, head, body, options) == Err(ProtocolError)
    ensures !BodyRejected(k, body, options) ==>
              match TakeAll(k, Fields(k), options)
              case Err(e) => ParseBody(k, head, body, options) == Err(e)
              case Ok(taken) =>
                ParseBody(k, head, body, options) == Construct(Object(k, head, taken, BodyTaken(k, body, options)))
  {
    ParseBodySteps(k, head, body, options);
    TakeAllByTable(k, Fields(k), options);
  }

  lemma {:induction false} NothingToReject(k: Kind, options: map<Key, Value>)
    ensures !BodyRejected(k, [], options) && BodyTaken(k, [], options) == NO_BODY
  {
  }

  // ---------------------------------------------------------------- PUBLISH

  method ParsePublishFlags(ghost fs: seq<FieldName>, options: map<Key, Value>, before: map<FieldName, Value>)
    returns (r: Taken)
    requires |fs| == 11 && fs[0] == Acknowledge && fs[1] == ExcludeMe
    requires TakeAll(PUBLISH, fs[..0], options) == Ok(before)
    ensures TakenUpTo(PUBLISH, fs, options, 2, r)
  {
    var taken := before;
    taken :- TakeBool(PUBLISH, fs, Acknowledge, options, taken, 0);
    r := TakeBool(PUBLISH, fs, ExcludeMe, options, taken, 1);
  }

  method ParsePublishExclusions(ghost fs: seq<FieldName>, options: map<Key, Value>, before: map<FieldName, Value>)
    returns (r: Taken)
    requires |fs| == 11 && fs[2] == Exclude && fs[3] == ExcludeAuthid && fs[4] == ExcludeAuthrole
    requires TakeAll(PUBLISH, fs[..2], options) == Ok(before)
    ensures TakenUpTo(PUBLISH, fs, options, 5, r)
  {
    var taken := before;
    taken :- TakeInts(PUBLISH, fs, Exclude, options, taken, 2);
    taken :- TakeStrs(PUBLISH, fs, ExcludeAuthid, options, taken, 3);
    r := TakeStrs(PUBLISH, fs, ExcludeAuthrole, options, taken, 4);
  }

  method ParsePublishEligibles(ghost fs: seq<FieldName>, options: map<Key, Value>, before: map<FieldName, Value>)
    returns (r: Taken)
    requires |fs| == 11 && fs[5] == Eligible && fs[6] == EligibleAuthid && fs[7] == EligibleAuthrole
    requires TakeAll(PUBLISH, fs[..5], options) == Ok(before)
    ensures TakenUpTo(PUBLISH, fs, options, 8, r)
  {
    var taken := before;
    taken :- TakeInts(PUBLISH, fs, Eligible, options, taken, 5);
    taken :- TakeStrs(PUBLISH, fs, EligibleAuthid, options, taken, 6);
    r := TakeStrs(PUBLISH, fs, EligibleAuthrole, options, taken, 7);
  }

  method ParsePublishOthers(ghost fs: seq<FieldName>, options: map<Key, Value>, before: map<FieldName, Value>)
    returns (r: Taken)
    requires |fs| == 11 && fs[8] == Retain && fs[9] == TransactionHash && fs[10] == ForwardFor
    requires TakeAll(PUBLISH, fs[..8], options) == Ok(before)
    ensures TakenUpTo(PUBLISH, fs, options, 11, r)
  {
    var taken := before;
    taken :- TakeBool(PUBLISH, fs, Retain, options, taken, 8);
    taken :- TakeStr(PUBLISH, fs, TransactionHash, options, taken, 9);
    r := TakeForwarders(PUBLISH, fs, options, taken, 10);
  }

  method ParsePublishAll(ghost fs: seq<FieldName>, options: map<Key, Value>) returns (r: Taken)
    requires |fs| == 11 && fs[0] == Acknowledge && fs[1] == ExcludeMe && fs[2] == Exclude && fs[3] == ExcludeAuthid
    requires fs[4] == ExcludeAuthrole && fs[5] == Eligible && fs[6] == EligibleAuthid && fs[7] == EligibleAuthrole
    requires fs[8] == Retain && fs[9] == TransactionHash && fs[10] == ForwardFor
    ensures r == TakeAll(PUBLISH, fs, options)
  {
    var taken := map[];
    taken :- ParsePublishFlags(fs, options, taken);
    taken :- ParsePublishExclusions(fs, options, taken);
    taken :- ParsePublishEligibles(fs, options, taken);
    taken :- ParsePublishOthers(fs, options, taken);
    assert fs[..11] == fs;
    r := Ok(taken);
  }

  method ParsePublishFields(options: map<Key, Value>) returns (r: Taken)
    ensures r == TakeAll(PUBLISH, Fields(PUBLISH), options)
  {
    r := ParsePublishAll(Fields(PUBLISH), options);
  }

  method ParsePublish(wmsg: seq<Value>) returns (r: Result<Message, Failure>)
    ensures r == Parse(PUBLISH, wmsg)
  {
    if wmsg == [] || wmsg[0] != Int(16) {
      return Err(AssertionError);
    }
    if |wmsg| != 4 && |wmsg| != 5 && |wmsg| != 6 {
      return Err(ProtocolError);
    }
    var error := CheckIdOptionsUri(PUBLISH, wmsg, false);
    if error.Some? {
      return Err(error.value);
    }
    var options := wmsg[2].entries;
    PartsDecide(PUBLISH, [wmsg[1], wmsg[3]], wmsg[4..], options);
    var body :- TakePublishBody(wmsg[4..], options);
    var taken :- ParsePublishFields(options);
    r := Construct(Object(PUBLISH, [wmsg[1], wmsg[3]], taken, body));
  }

  // ---------------------------------------------------------------- EVENT

  method ParseEventPublisher(ghost fs: seq<FieldName>, options: map<Key, Value>, before: map<FieldName, Value>)
    returns (r: Taken)
    requires |fs| == 8 && fs[0] == Publisher && fs[1] == PublisherAuthid && fs[2] == PublisherAuthrole
    requires TakeAll(EVENT, fs[..0], options) == Ok(before)
    ensures TakenUpTo(EVENT, fs, options, 3, r)
  {
    var taken := before;
    taken :- TakeInt(EVENT, fs, Publisher, options, taken, 0);
    taken :- TakeStr(EVENT, fs, PublisherAuthid, options, taken, 1);
    r := TakeStr(EVENT, fs, PublisherAuthrole, options, taken, 2);
  }

  method ParseEventTopic(ghost fs: seq<FieldName>, options: map<Key, Value>, before: map<FieldName, Value>)
    returns (r: Taken)
    requires |fs| == 8 && fs[3] == Topic && fs[4] == Retained && fs[5] == TransactionHash
    requires TakeAll(EVENT, fs[..3], options) == Ok(before)
    ensures TakenUpTo(EVENT, fs, options, 6, r)
  {
    var taken := before;
    taken :- TakeStr(EVENT, fs, Topic, options, taken, 3);
    taken :- TakeBool(EVENT, fs, Retained, options, taken, 4);
    r := TakeStr(EVENT, fs, TransactionHash, options, taken, 5);
  }

  method ParseEventOthers(ghost fs: seq<FieldName>, options: map<Key, Value>, before: map<FieldName, Value>)
    returns (r: Taken)
    requires |fs| == 8 && fs[6] == XAcknowledgedDelivery && fs[7] == ForwardFor
    requires TakeAll(EVENT, fs[..6], options) == Ok(before)
    ensures TakenUpTo(EVENT, fs, options, 8, r)
  {
    var taken := before;
    taken :- TakeBool(EVENT, fs, XAcknowledgedDelivery, options, taken, 6);
    r := TakeForwarders(EVENT, fs, options, taken, 7);
  }

  method ParseEventAll(ghost fs: seq<FieldName>, options: map<Key, Value>) returns (r: Taken)
    requires |fs| == 8 && fs[0] == Publisher && fs[1] == PublisherAuthid && fs[2] == PublisherAuthrole && fs[3] == Topic
    requires fs[4] == Retained && fs[5] == TransactionHash && fs[6] == XAcknowledgedDelivery && fs[7] == ForwardFor
    ensures r == TakeAll(EVENT, fs, options)
  {
    var taken := map[];
    taken :- ParseEventPublisher(fs, options, taken);
    taken :- ParseEventTopic(fs, options, taken);
    taken :- ParseEventOthers(fs, options, taken);
    assert fs[..8] == fs;
    r := Ok(taken);
  }

  method ParseEventFields(options: map<Key, Value>) returns (r: Taken)
    ensures r == TakeAll(EVENT, Fields(EVENT), options)
  {
    r := ParseEventAll(Fields(EVENT), options);
  }

  method ParseEvent(wmsg: seq<Value>) returns (r: Result<Message, Failure>)
    ensures r == Parse(EVENT, wmsg)
  {
    if wmsg == [] || wmsg[0] != Int(36) {
      return Err(AssertionError);
    }
    if |wmsg| != 4 && |wmsg| != 5 && |wmsg| != 6 {
      return Err(ProtocolError);
    }
    var error := CheckIdIdOptions(EVENT, wmsg);
    if error.Some? {
      return Err(error.value);
    }
    var options := wmsg[3].entries;
    PartsDecide(EVENT, [wmsg[1], wmsg[2]], wmsg[4..], options);
    var body :- TakeBinaryBody(EVENT, wmsg[4..], options);
    var taken :- ParseEventFields(options);
    r := Construct(Object(EVENT, [wmsg[1], wmsg[2]], taken, body));
  }

  // ---------------------------------------------------------------- CALL

  method ParseCallSettings(ghost fs: seq<FieldName>, options: map<Key, Value>, before: map<FieldName, Value>)
    returns (r: Taken)
    requires |fs| == 7 && fs[0] == Timeout && fs[1] == ReceiveProgress && fs[2] == TransactionHash
    requires TakeAll(CALL, fs[..0], options) == Ok(before)
    ensures TakenUpTo(CALL, fs, options, 3, r)
  {
    var taken := before;
    taken :- TakeTimeout(CALL, fs, options, taken, 0);
    taken :- TakeBool(CALL, fs, ReceiveProgress, options, taken, 1);
    r := TakeStr(CALL, fs, TransactionHash, options, taken, 2);
  }

  method ParseCallCaller(ghost fs: seq<FieldName>, options: map<Key, Value>, before: map<FieldName, Value>)
    returns (r: Taken)
    requires |fs| == 7 && fs[3] == Caller && fs[4] == CallerAuthid && fs[5] == CallerAuthrole && fs[6] == ForwardFor
    requires TakeAll(CALL, fs[..3], options) == Ok(before)
    ensures TakenUpTo(CALL, fs, options, 7, r)
  {
    var taken := before;
    taken :- TakeInt(CALL, fs, Caller, options, taken, 3);
    taken :- TakeStr(CALL, fs, CallerAuthid, options, taken, 4);
    taken :- TakeStr(CALL, fs, CallerAuthrole, options, taken, 5);
    r := TakeForwarders(CALL, fs, options, taken, 6);
  }

  method ParseCallAll(ghost fs: seq<FieldName>, options: map<Key, Value>) returns (r: Taken)
    requires |fs| == 7 && fs[0] == Timeout && fs[1] == ReceiveProgress && fs[2] == TransactionHash && fs[3] == Caller
    requires fs[4] == CallerAuthid && fs[5] == CallerAuthrole && fs[6] == ForwardFor
    ensures r == TakeAll(CALL, fs, options)
  {
    var taken := map[];
    taken :- ParseCallSettings(fs, options, taken);
    taken :- ParseCallCaller(fs, options, taken);
    assert fs[..7] == fs;
    r := Ok(taken);
  }

  method ParseCallFields(options: map<Key, Value>) returns (r: Taken)
    ensures r == TakeAll(CALL, Fields(CALL), options)
  {
    r := ParseCallAll(Fields(CALL), options);
  }

  method ParseCall(wmsg: seq<Value>) returns (r: Result<Message, Failure>)
    ensures r == Parse(CALL, wmsg)
  {
    if wmsg == [] || wmsg[0] != Int(48) {
      return Err(AssertionError);
    }
    if |wmsg| != 4 && |wmsg| != 5 && |wmsg| != 6 {
      return Err(ProtocolError);
    }
    var error := CheckIdOptionsUri(CALL, wmsg, false);
    if error.Some? {
      return Err(error.value);
    }
    var options := wmsg[2].entries;
    PartsDecide(CALL, [wmsg[1], wmsg[3]], wmsg[4..], options);
    var body :- TakeTextBody(CALL, wmsg[4..], options);
    var taken :- ParseCallFields(options);
    r := Construct(Object(CALL, [wmsg[1], wmsg[3]], taken, body));
  }

  // ---------------------------------------------------------------- RESULT

  method ParseResultAll(ghost fs: seq<FieldName>, options: map<Key, Value>) returns (r: Taken)
    requires |fs| == 5 && fs[0] == Progress && fs[1] == Callee && fs[2] == CalleeAuthid
    requires fs[3] == CalleeAuthrole && fs[4] == ForwardFor
    ensures r == TakeAll(RESULT, fs, options)
  {
    var taken := map[];
    taken :- TakeBool(RESULT, fs, Progress, options, taken, 0);
    taken :- TakeInt(RESULT, fs, Callee, options, taken, 1);
    taken :- TakeStr(RESULT, fs, CalleeAuthid, options, taken, 2);
    taken :- TakeStr(RESULT, fs, CalleeAuthrole, options, taken, 3);
    taken :- TakeForwarders(RESULT, fs, options, taken, 4);
    assert fs[..5] == fs;
    r := Ok(taken);
  }

  method ParseResultFields(options: map<Key, Value>) returns (r: Taken)
    ensures r == TakeAll(RESULT, Fields(RESULT), options)
  {
    r := ParseResultAll(Fields(RESULT), options);
  }

  method ParseResult(wmsg: seq<Value>) returns (r: Result<Message, Failure>)
    ensures r == Parse(RESULT, wmsg)
  {
    if wmsg == [] || wmsg[0] != Int(50) {
      return Err(AssertionError);
    }
    if |wmsg| != 3 && |wmsg| != 4 && |wmsg| != 5 {
      return Err(ProtocolError);
    }
    var error := CheckIdOptions(RESULT, wmsg);
    if error.Some? {
      return Err(error.value);
    }
    var options := wmsg[2].entries;
    PartsDecide(RESULT, [wmsg[1]], wmsg[3..], options);
    var body :- TakeTextBody(RESULT, wmsg[3..], options);
    var taken :- ParseResultFields(options);
    r := Construct(Object(RESULT, [wmsg[1]], taken, body));
  }

  // ---------------------------------------------------------------- INVOCATION

  method ParseInvocationSettings(ghost fs: seq<FieldName>, options: map<Key, Value>, before: map<FieldName, Value>)
    returns (r: Taken)
    requires |fs| == 8 && fs[0] == Timeout && fs[1] == ReceiveProgress
    requires TakeAll(INVOCATION, fs[..0], options) == Ok(before)
    ensures TakenUpTo(INVOCATION, fs, options, 2, r)
  {
    var taken := before;
    taken :- TakeTimeout(INVOCATION, fs, options, taken, 0);
    r := TakeBool(INVOCATION, fs, ReceiveProgress, options, taken, 1);
  }

  method ParseInvocationCaller(ghost fs: seq<FieldName>, options: map<Key, Value>, before: map<FieldName, Value>)
    returns (r: Taken)
    requires |fs| == 8 && fs[2] == Caller && fs[3] == CallerAuthid && fs[4] == CallerAuthrole
    requires TakeAll(INVOCATION, fs[..2], options) == Ok(before)
    ensures TakenUpTo(INVOCATION, fs, options, 5, r)
  {
    var taken := before;
    taken :- TakeInt(INVOCATION, fs, Caller, options, taken, 2);
    taken :- TakeStr(INVOCATION, fs, CallerAuthid, options, taken, 3);
    r := TakeStr(INVOCATION, fs, CallerAuthrole, options, taken, 4);
  }

  method ParseInvocationOthers(ghost fs: seq<FieldName>, options: map<Key, Value>, before: map<FieldName, Value>)
    returns (r: Taken)
    requires |fs| == 8 && fs[5] == Procedure && fs[6] == TransactionHash && fs[7] == ForwardFor
    requires TakeAll(INVOCATION, fs[..5], options) == Ok(before)
    ensures TakenUpTo(INVOCATION, fs, options, 8, r)
  {
    var taken := before;
    taken :- TakeStr(INVOCATION, fs, Procedure, options, taken, 5);
    taken :- TakeStr(INVOCATION, fs, TransactionHash, options, taken, 6);
    r := TakeForwarders(INVOCATION, fs, options, taken, 7);
  }

  method ParseInvocationAll(ghost fs: seq<FieldName>, options: map<Key, Value>) returns (r: Taken)
    requires |fs| == 8 && fs[0] == Timeout && fs[1] == ReceiveProgress && fs[2] == Caller && fs[3] == CallerAuthid
    requires fs[4] == CallerAuthrole && fs[5] == Procedure && fs[6] == TransactionHash && fs[7] == ForwardFor
    ensures r == TakeAll(INVOCATION, fs, options)
  {
    var taken := map[];
    taken :- ParseInvocationSettings(fs, options, taken);
    taken :- ParseInvocationCaller(fs, options, taken);
    taken :- ParseInvocationOthers(fs, options, taken);
    assert fs[..8] == fs;
    r := Ok(taken);
  }

  method ParseInvocationFields(options: map<Key, Value>) returns (r: Taken)
    ensures r == TakeAll(INVOCATION, Fields(INVOCATION), options)
  {
    r := ParseInvocationAll(Fields(INVOCATION), options);
  }

  method ParseInvocation(wmsg: seq<Value>) returns (r: Result<Message, Failure>)
    ensures r == Parse(INVOCATION, wmsg)
  {
    if wmsg == [] || wmsg[0] != Int(68) {
      return Err(AssertionError);
    }
    if |wmsg| != 4 && |wmsg| != 5 && |wmsg| != 6 {
      return Err(ProtocolError);
    }
    var error := CheckIdIdOptions(INVOCATION, wmsg);
    if error.Some? {
      return Err(error.value);
    }
    var options := wmsg[3].entries;
    PartsDecide(INVOCATION, [wmsg[1], wmsg[2]], wmsg[4..], options);
    var body :- TakeBinaryBody(INVOCATION, wmsg[4..], options);
    var taken :- ParseInvocationFields(options);
    r := Construct(Object(INVOCATION, [wmsg[1], wmsg[2]], taken, body));
  }

  // ---------------------------------------------------------------- YIELD

  method ParseYieldAll(ghost fs: seq<FieldName>, options: map<Key, Value>) returns (r: Taken)
    requires |fs| == 5 && fs[0] == Progress && fs[1] == Callee && fs[2] == CalleeAuthid
    requires fs[3] == CalleeAuthrole && fs[4] == ForwardFor
    ensures r == TakeAll(YIELD, fs, options)
  {
    var taken := map[];
    taken :- TakeBool(YIELD, fs, Progress, options, taken, 0);
    taken :- TakeInt(YIELD, fs, Callee, options, taken, 1);
    taken :- TakeStr(YIELD, fs, CalleeAuthid, options, taken, 2);
    taken :- TakeStr(YIELD, fs, CalleeAuthrole, options, taken, 3);
    taken :- TakeForwarders(YIELD, fs, options, taken, 4);
    assert fs[..5] == fs;
    r := Ok(taken);
  }

  method ParseYieldFields(options: map<Key, Value>) returns (r: Taken)
    ensures r == TakeAll(YIELD, Fields(YIELD), options)
  {
    r := ParseYieldAll(Fields(YIELD), options);
  }

  method ParseYield(wmsg: seq<Value>) returns (r: Result<Message, Failure>)
    ensures r == Parse(YIELD, wmsg)
  {
    if wmsg == [] || wmsg[0] != Int(70) {
      return Err(AssertionError);
    }
    if |wmsg| != 3 && |wmsg| != 4 && |wmsg| != 5 {
      return Err(ProtocolError);
    }
    var error := CheckIdOptions(YIELD, wmsg);
    if error.Some? {
      return Err(error.value);
    }
    var options := wmsg[2].entries;
    PartsDecide(YIELD, [wmsg[1]], wmsg[3..], options);
    var body :- TakeBinaryBody(YIELD, wmsg[3..], options);
    var taken :- ParseYieldFields(options);
    r := Construct(Object(YIELD, [wmsg[1]], taken, body));
  }

  // ---------------------------------------------------------------- SUBSCRIBE

  method ParseSubscribeFields(options: map<Key, Value>) returns (r: Taken)
    ensures r == TakeAll(SUBSCRIBE, Fields(SUBSCRIBE), options)
  {
    ghost var fs := Fields(SUBSCRIBE);
    var taken := map[];
    taken :- TakeMatch(SUBSCRIBE, fs, options, taken, 0);
    taken :- TakeBool(SUBSCRIBE, fs, GetRetained, options, taken, 1);
    taken :- TakeForwarders(SUBSCRIBE, fs, options, taken, 2);
    assert fs[..3] == fs;
    r := Ok(taken);
  }

  method ParseSubscribe(wmsg: seq<Value>) returns (r: Result<Message, Failure>)
    ensures r == Parse(SUBSCRIBE, wmsg)
  {
    if wmsg == [] || wmsg[0] != Int(32) {
      return Err(AssertionError);
    }
    if |wmsg| != 4 {
      return Err(ProtocolError);
    }
    var error := CheckIdOptionsUri(SUBSCRIBE, wmsg, true);
    if error.Some? {
      return Err(error.value);
    }
    var options := wmsg[2].entries;
    PartsDecide(SUBSCRIBE, [wmsg[1], wmsg[3]], [], options);
    NothingToReject(SUBSCRIBE, options);
    var taken :- ParseSubscribeFields(options);
    r := Construct(Object(SUBSCRIBE, [wmsg[1], wmsg[3]], taken, NO_BODY));
  }

  // ---------------------------------------------------------------- UNSUBSCRIBE

  method ParseUnsubscribeFields(options: map<Key, Value>) returns (r: Taken)
    ensures r == TakeAll(UNSUBSCRIBE, Fields(UNSUBSCRIBE), options)
  {
    ghost var fs := Fields(UNSUBSCRIBE);
    var taken := map[];
    taken :- TakeForwarders(UNSUBSCRIBE, fs, options, taken, 0);
    assert fs[..1] == fs;
    r := Ok(taken);
  }

  method ParseUnsubscribe(wmsg: seq<Value>) returns (r: Result<Message, Failure>)
    ensures r == Parse(UNSUBSCRIBE, wmsg)
  {
    if wmsg == [] || wmsg[0] != Int(34) {
      return Err(AssertionError);
    }
    if |wmsg| != 3 && |wmsg| != 4 {
      return Err(ProtocolError);
    }
    var error, dict := CheckIdIdTrailing(UNSUBSCRIBE, wmsg);
    if error.Some? {
      return Err(error.value);
    }
    var options := dict.entries;
    PartsDecide(UNSUBSCRIBE, [wmsg[1], wmsg[2]], [], options);
    NothingToReject(UNSUBSCRIBE, options);
    var taken :- ParseUnsubscribeFields(options);
    r := Construct(Object(UNSUBSCRIBE, [wmsg[1], wmsg[2]], taken, NO_BODY));
  }

  // ---------------------------------------------------------------- UNSUBSCRIBED

  method ParseUnsubscribedFields(options: map<Key, Value>) returns (r: Taken)
    ensures r == TakeAll(UNSUBSCRIBED, Fields(UNSUBSCRIBED), options)
  {
    ghost var fs := Fields(UNSUBSCRIBED);
    var taken := map[];
    taken :- TakeInt(UNSUBSCRIBED, fs, Subscription, options, taken, 0);
    taken :- TakeReason(UNSUBSCRIBED, fs, options, taken, 1);
    assert fs[..2] == fs;
    r := Ok(taken);
  }

  method ParseUnsubscribed(wmsg: seq<Value>) returns (r: Result<Message, Failure>)
    ensures r == Parse(UNSUBSCRIBED, wmsg)
  {
    if wmsg == [] || wmsg[0] != Int(35) {
      return Err(AssertionError);
    }
    if |wmsg| != 2 && |wmsg| != 3 {
      return Err(ProtocolError);
    }
    var error, dict := CheckIdTrailing(UNSUBSCRIBED, wmsg);
    if error.Some? {
      return Err(error.value);
    }
    var options := dict.entries;
    PartsDecide(UNSUBSCRIBED, [wmsg[1]], [], options);
    NothingToReject(UNSUBSCRIBED, options);
    var taken :- ParseUnsubscribedFields(options);
    r := Construct(Object(UNSUBSCRIBED, [wmsg[1]], taken, NO_BODY));
  }

  // ---------------------------------------------------------------- CANCEL

  method ParseCancelFields(options: map<Key, Value>) returns (r: Taken)
    ensures r == TakeAll(CANCEL, Fields(CANCEL), options)
  {
    ghost var fs := Fields(CANCEL);
    var taken := map[];
    taken :- TakeMode(CANCEL, fs, options, taken, 0);
    taken :- TakeForwarders(CANCEL, fs, options, taken, 1);
    assert fs[..2] == fs;
    r := Ok(taken);
  }

  method ParseCancel(wmsg: seq<Value>) returns (r: Result<Message, Failure>)
    ensures r == Parse(CANCEL, wmsg)
  {
    if wmsg == [] || wmsg[0] != Int(49) {
      return Err(AssertionError);
    }
    if |wmsg| != 3 {
      return Err(ProtocolError);
    }
    var error := CheckIdOptions(CANCEL, wmsg);
    if error.Some? {
      return Err(error.value);
    }
    var options := wmsg[2].entries;
    PartsDecide(CANCEL, [wmsg[1]], [], options);
    NothingToReject(CANCEL, options);
    var taken :- ParseCancelFields(options);
    r := Construct(Object(CANCEL, [wmsg[1]], taken, NO_BODY));
  }

  // ---------------------------------------------------------------- UNREGISTER

  method ParseUnregisterFields(options: map<Key, Value>) returns (r: Taken)
    ensures r == TakeAll(UNREGISTER, Fields(UNREGISTER), options)
  {
    ghost var fs := Fields(UNREGISTER);
    var taken := map[];
    taken :- TakeForwarders(UNREGISTER, fs, options, taken, 0);
    assert fs[..1] == fs;
    r := Ok(taken);
  }

  method ParseUnregister(wmsg: seq<Value>) returns (r: Result<Message, Failure>)
    ensures r == Parse(UNREGISTER, wmsg)
  {
    if wmsg == [] || wmsg[0] != Int(66) {
      return Err(AssertionError);
    }
    if |wmsg| != 3 && |wmsg| != 4 {
      return Err(ProtocolError);
    }
    var error, dict := CheckIdIdTrailing(UNREGISTER, wmsg);
    if error.Some? {
      return Err(error.value);
    }
    var options := dict.entries;
    PartsDecide(UNREGISTER, [wmsg[1], wmsg[2]], [], options);
    NothingToReject(UNREGISTER, options);
    var taken :- ParseUnregisterFields(options);
    r := Construct(Object(UNREGISTER, [wmsg[1], wmsg[2]], taken, NO_BODY));
  }

  // ---------------------------------------------------------------- UNREGISTERED

  method ParseUnregisteredFields(options: map<Key, Value>) returns (r: Taken)
    ensures r == TakeAll(UNREGISTERED, Fields(UNREGISTERED), options)
  {
    ghost var fs := Fields(UNREGISTERED);
    var taken := map[];
    taken :- TakeInt(UNREGISTERED, fs, Registration, options, taken, 0);
    taken :- TakeReason(UNREGISTERED, fs, options, taken, 1);
    assert fs[..2] == fs;
    r := Ok(taken);
  }

  method ParseUnregistered(wmsg: seq<Value>) returns (r: Result<Message, Failure>)
    ensures r == Parse(UNREGISTERED, wmsg)
  {
    if wmsg == [] || wmsg[0] != Int(67) {
      return Err(AssertionError);
    }
    if |wmsg| != 2 && |wmsg| != 3 {
      return Err(ProtocolError);
    }
    var error, dict := CheckIdTrailing(UNREGISTERED, wmsg);
    if error.Some? {
      return Err(error.value);
    }
    var options := dict.entries;
    PartsDecide(UNREGISTERED, [wmsg[1]], [], options);
    NothingToReject(UNREGISTERED, options);
    var taken :- ParseUnregisteredFields(options);
    r := Construct(Object(UNREGISTERED, [wmsg[1]], taken, NO_BODY));
  }

  // ---------------------------------------------------------------- INTERRUPT

  method ParseInterruptAll(ghost fs: seq<FieldName>, options: map<Key, Value>) returns (r: Taken)
    requires |fs| == 3 && fs[0] == Mode && fs[1] == Reason && fs[2] == ForwardFor
    ensures r == TakeAll(INTERRUPT, fs, options)
  {
    var taken := map[];
    taken :- TakeMode(INTERRUPT, fs, options, taken, 0);
    taken :- TakeReason(INTERRUPT, fs, options, taken, 1);
    taken :- TakeForwarders(INTERRUPT, fs, options, taken, 2);
    assert fs[..3] == fs;
    r := Ok(taken);
  }

  method ParseInterruptFields(options: map<Key, Value>) returns (r: Taken)
    ensures r == TakeAll(INTERRUPT, Fields(INTERRUPT), options)
  {
    r := ParseInterruptAll(Fields(INTERRUPT), options);
  }

  method ParseInterrupt(wmsg: seq<Value>) returns (r: Result<Message, Failure>)
    ensures r == Parse(INTERRUPT, wmsg)
  {
    if wmsg == [] || wmsg[0] != Int(69) {
      return Err(AssertionError);
    }
    if |wmsg| != 3 {
      return Err(ProtocolError);
    }
    var error := CheckIdOptions(INTERRUPT, wmsg);
    if error.Some? {
      return Err(error.value);
    }
    var options := wmsg[2].entries;
    PartsDecide(INTERRUPT, [wmsg[1]], [], options);
    NothingToReject(INTERRUPT, options);
    var taken :- ParseInterruptFields(options);
    r := Construct(Object(INTERRUPT, [wmsg[1]], taken, NO_BODY));
  }
}
