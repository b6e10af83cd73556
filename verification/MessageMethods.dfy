/**
 * Some of the message classes as the code spells them out, statement by statement, against
 * the schema-driven functions.
 */
module MessageMethods {
  import opened Values
  import opened Messages
  import opened MessageTheorems
  import opened MessageReparse
  import opened W = Wrappers
  import U = Uri

  // ---------------------------------------------------------------- the steps of parse

  /** The first position that does not pass decides. */
  lemma {:induction false} FirstSlotDecides(slots: seq<Slot>, vs: seq<Value>, options: Value, i: nat)
    requires i < |slots| == |vs|
    requires forall j :: 0 <= j < i ==> SlotError(slots[j], vs[j], options).None?
    requires SlotError(slots[i], vs[i], options).Some?
    ensures SlotsError(slots, vs, options) == SlotError(slots[i], vs[i], options)
  {
    if i > 0 {
      assert SlotError(slots[0], vs[0], options).None?;
      FirstSlotDecides(slots[1..], vs[1..], options, i - 1);
    }
  }

  /** Whichever field does not pass, a class without a reason URI reports a protocol error. */
  lemma {:induction false} FieldFails(k: Kind, fs: seq<FieldName>, f: FieldName, options: map<Key, Value>)
    requires f in fs && Reason !in fs && !FieldPasses(k, f, options)
    ensures FieldsError(k, fs, options) == Some(ProtocolError)
  {
    assert fs == [fs[0]] + fs[1..];
    if FieldPasses(k, fs[0], options) {
      FieldFails(k, fs[1..], f, options);
    }
  }

  ghost predicate SlotPasses(k: Kind, w: seq<Value>, i: nat)
    requires |w| >= 1 + |Layout(k)| && LengthOk(k, |w|) && i < |Layout(k)|
  {
    SlotError(Layout(k)[i], w[1 + i], OptionsOf(k, w)).None?
  }

  lemma {:induction false} SlotFails(k: Kind, w: seq<Value>, i: nat)
    requires |w| >= 1 + |Layout(k)| && w[0] == Int(Code(k)) && LengthOk(k, |w|) && i < |Layout(k)|
    requires (forall j: nat :: j < i ==> SlotPasses(k, w, j)) && !SlotPasses(k, w, i)
    ensures Parse(k, w) == Err(SlotError(Layout(k)[i], w[1 + i], OptionsOf(k, w)).value)
  {
    var vs := w[1..1 + |Layout(k)|];
    forall j: nat | j < i ensures SlotError(Layout(k)[j], vs[j], OptionsOf(k, w)).None? {
      assert SlotPasses(k, w, j) && vs[j] == w[1 + j];
    }
    FirstSlotDecides(Layout(k), vs, OptionsOf(k, w), i);
  }

  lemma {:induction false} AllSlotsPass(k: Kind, w: seq<Value>)
    requires |w| >= 1 + |Layout(k)| && LengthOk(k, |w|)
    requires forall j: nat :: j < |Layout(k)| ==> SlotPasses(k, w, j)
    ensures SlotsError(Layout(k), w[1..1 + |Layout(k)|], OptionsOf(k, w)).None?
  {
    var vs := w[1..1 + |Layout(k)|];
    forall j: nat | j < |Layout(k)| ensures SlotError(Layout(k)[j], vs[j], OptionsOf(k, w)).None? {
      assert SlotPasses(k, w, j) && vs[j] == w[1 + j];
    }
    SlotsErrorNone(Layout(k), vs, OptionsOf(k, w));
  }

  lemma {:induction false} HeadOfWord(k: Kind, w: seq<Value>)
    requires |w| >= 1 + |Layout(k)|
    ensures HeadOf(k, w[1..1 + |Layout(k)|])
            == if TrailingOptions(k) then w[1..1 + |Layout(k)|]
               else w[1..1 + OptionsAt(k)] + w[2 + OptionsAt(k)..1 + |Layout(k)|]
  {
    if !TrailingOptions(k) {
      SlicesOfWord(w, OptionsAt(k), 1 + |Layout(k)|);
    }
  }

  lemma {:induction false} SlotsPass(k: Kind, w: seq<Value>)
    requires |w| >= 1 + |Layout(k)| && w[0] == Int(Code(k)) && LengthOk(k, |w|)
    requires (forall j: nat :: j < |Layout(k)| ==> SlotPasses(k, w, j)) && IsStrDict(OptionsOf(k, w))
    ensures Parse(k, w) == ParseBody(k, HeadOf(k, w[1..1 + |Layout(k)|]), if HasPayload(k) then w[1 + |Layout(k)|..] else [],
                                     OptionsOf(k, w).entries)
  {
    AllSlotsPass(k, w);
    HeadOfWord(k, w);
  }

  /** What parse takes for the payload, the arguments and their encryption. */
  datatype Body = Body(args: Value, kwargs: Value, payload: Value, encAlgo: Value, encKey: Value, encSerializer: Value)

  ghost predicate BodyRejected(k: Kind, body: seq<Value>, options: map<Key, Value>) {
    var isPayload := IsPayload(k, body);
    || (isPayload && EncError(options))
    || (!isPayload && |body| > 0 && ArgsError(k, body[0]))
    || (!isPayload && |body| > 1 && KwargsError(k, body[1]))
  }

  ghost function BodyTaken(k: Kind, body: seq<Value>, options: map<Key, Value>): Body {
    if IsPayload(k, body) then
      Body(Null, Null, body[0], Get(options, EncAlgo), Get(options, EncKey), Get(options, EncSerializer))
    else
      Body(if |body| > 0 then body[0] else Null, if |body| > 1 then body[1] else Null, Null, Null, Null, Null)
  }

  /** The attributes that are not None. */
  function Given(values: map<FieldName, Value>): map<FieldName, Value> {
    map f | f in values && !values[f].Null? :: values[f]
  }

  lemma {:induction false} GivenIsPick(values: map<FieldName, Value>, names: set<FieldName>, options: map<Key, Value>)
    requires values.Keys == names && forall f :: f in values ==> values[f] == Get(options, f)
    ensures Given(values) == Pick(names, options)
  {
    assert forall f :: f in values <==> f in names;
  }

  ghost function EncValues(b: Body): map<FieldName, Value> {
    map[EncAlgo := b.encAlgo, EncKey := b.encKey, EncSerializer := b.encSerializer]
  }

  lemma {:induction false} PickBoth(fs: set<FieldName>, gs: set<FieldName>, options: map<Key, Value>)
    ensures Pick(fs + gs, options) == Pick(fs, options) + Pick(gs, options)
  {
  }

  lemma {:induction false} PickEnc(k: Kind, body: seq<Value>, options: map<Key, Value>)
    ensures Pick(if IsPayload(k, body) then ENC_FIELDS else {}, options) == Given(EncValues(BodyTaken(k, body, options)))
  {
    var values := EncValues(BodyTaken(k, body, options));
    if IsPayload(k, body) {
      GivenIsPick(values, ENC_FIELDS, options);
    } else {
      assert forall f :: f in values ==> values[f] == Null;
      assert Given(values) == map[];
    }
  }

  lemma {:induction false} PickWithEnc(k: Kind, body: seq<Value>, options: map<Key, Value>)
    ensures Pick((set f | f in Fields(k)) + (if IsPayload(k, body) then ENC_FIELDS else {}), options)
            == Pick((set f | f in Fields(k)), options) + Given(EncValues(BodyTaken(k, body, options)))
  {
    PickBoth((set f | f in Fields(k)), if IsPayload(k, body) then ENC_FIELDS else {}, options);
    PickEnc(k, body, options);
  }

  lemma {:induction false} ParseBodySteps(k: Kind, head: seq<Value>, body: seq<Value>, options: map<Key, Value>)
    requires |body| <= 2
    ensures BodyRejected(k, body, options) ==> ParseBody(k, head, body, options) == Err(ProtocolError)
    ensures !BodyRejected(k, body, options) ==>
              match FieldsError(k, Fields(k), options)
              case Some(e) => ParseBody(k, head, body, options) == Err(e)
              case None =>
                var b := BodyTaken(k, body, options);
                ParseBody(k, head, body, options) == Construct(
                  Message(k, head, Pick((set f | f in Fields(k)), options) + Given(EncValues(b)), b.args, b.kwargs, b.payload))
  {
    PickWithEnc(k, body, options);
  }

  // ---------------------------------------------------------------- the steps of marshal

  /** A dictionary after one more attribute, if it is not None. */
  function Put(options: map<Key, Value>, m: Message, f: FieldName): map<Key, Value> {
    if f in m.attrs then options[Name(f) := m.attrs[f]] else options
  }

  ghost function Filling(m: Message, done: set<FieldName>): map<Key, Value> {
    map f | f in m.attrs && f in done :: Name(f) := m.attrs[f]
  }

  lemma {:induction false} PutFills(m: Message, done: set<FieldName>, f: FieldName)
    ensures Put(Filling(m, done), m, f) == Filling(m, done + {f})
  {
  }

  lemma {:induction false} FilledUp(m: Message, done: set<FieldName>)
    requires forall f :: f in m.attrs ==> (f in done <==> Written(m, f))
    ensures Filling(m, done) == Options(m)
  {
  }

  // ---------------------------------------------------------------- ERROR

  method ParseErrorBody(wmsg: seq<Value>, details: map<Key, Value>) returns (r: Result<Body, Failure>)
    requires 5 <= |wmsg| <= 7
    ensures r == if BodyRejected(ERROR, wmsg[5..], details) then Err(ProtocolError)
                 else Ok(BodyTaken(ERROR, wmsg[5..], details))
  {
    var args, kwargs, payload: Value := Null, Null, Null;
    var encAlgo, encKey, encSerializer: Value := Null, Null, Null;
    if |wmsg| == 6 && wmsg[5].Bytes? {
      payload := wmsg[5];
      encAlgo := Get(details, EncAlgo);
      if Truthy(encAlgo) && !IsEncAlgo(encAlgo) {
        return Err(ProtocolError);
      }
      encKey := Get(details, EncKey);
      if Truthy(encKey) && !encKey.Str? {
        return Err(ProtocolError);
      }
      encSerializer := Get(details, EncSerializer);
      if Truthy(encSerializer) && !IsEncSerializer(encSerializer) {
        return Err(ProtocolError);
      }
    } else {
      if |wmsg| > 5 {
        args := wmsg[5];
        if !args.Null? && !args.List? {
          return Err(ProtocolError);
        }
      }
      if |wmsg| > 6 {
        kwargs := wmsg[6];
        if !kwargs.Dict? {
          return Err(ProtocolError);
        }
      }
    }
    return Ok(Body(args, kwargs, payload, encAlgo, encKey, encSerializer));
  }

  /** The loop over the entries leaves early at a bad one, and forward_for is valid all the same. */
  method ForwardForValid(forwardFor: Value) returns (valid: bool)
    ensures forall k :: valid <==> FieldError(k, ForwardFor, forwardFor).None?
  {
    valid := false;
    if forwardFor.List? {
      for i := 0 to |forwardFor.items| {
        var ff := forwardFor.items[i];
        if !ff.Dict? { break; }
        if Name(Session) !in ff.entries || !ff.entries[Name(Session)].Int? { break; }
        if Name(Authid) !in ff.entries || !ff.entries[Name(Authid)].Str? { break; }
        if Name(Authrole) !in ff.entries || !ff.entries[Name(Authrole)].Str? { break; }
      }
      valid := true;
    }
  }

  /** A field that passes, or the default. */
  ghost function Taken(k: Kind, f: FieldName, options: map<Key, Value>, default: Value): Result<Value, Failure> {
    if !FieldPasses(k, f, options) then Err(ProtocolError)
    else Ok(if Name(f) in options then options[Name(f)] else default)
  }

  method TakeForwardFor(k: Kind, options: map<Key, Value>) returns (r: Result<Value, Failure>)
    ensures r == Taken(k, ForwardFor, options, Null)
  {
    var forwardFor := Null;
    if Name(ForwardFor) in options {
      forwardFor := options[Name(ForwardFor)];
      var valid := ForwardForValid(forwardFor);
      if !valid {
        return Err(ProtocolError);
      }
    }
    r := Ok(forwardFor);
  }

  const ERROR_FIELDS: seq<FieldName> := [Callee, CalleeAuthid, CalleeAuthrole, ForwardFor]

  ghost predicate ErrorFieldsPass(details: map<Key, Value>) {
    && FieldPasses(ERROR, Callee, details) && FieldPasses(ERROR, CalleeAuthid, details)
    && FieldPasses(ERROR, CalleeAuthrole, details) && FieldPasses(ERROR, ForwardFor, details)
  }

  lemma {:induction false} ErrorFieldNames(f: FieldName)
    ensures f in ERROR_FIELDS <==> f == Callee || f == CalleeAuthid || f == CalleeAuthrole || f == ForwardFor
  {
  }

  /** All errors of the optional fields are the same, so their order does not matter. */
  lemma {:induction false} ErrorFieldsDecide(details: map<Key, Value>)
    ensures FieldsError(ERROR, ERROR_FIELDS, details) == if ErrorFieldsPass(details) then None else Some(ProtocolError)
  {
    FieldsErrorNone(ERROR, ERROR_FIELDS, details);
    forall f | f in ERROR_FIELDS ensures ErrorFieldsPass(details) ==> FieldPasses(ERROR, f, details) {
      ErrorFieldNames(f);
    }
    if !ErrorFieldsPass(details) {
      var f :| f in ERROR_FIELDS && !FieldPasses(ERROR, f, details);
      ErrorFieldNames(Reason);
      FieldFails(ERROR, ERROR_FIELDS, f, details);
    }
  }

  lemma {:induction false} ErrorFieldsTaken(details: map<Key, Value>, values: map<FieldName, Value>)
    requires values == map[Callee := Get(details, Callee), CalleeAuthid := Get(details, CalleeAuthid),
                           CalleeAuthrole := Get(details, CalleeAuthrole), ForwardFor := Get(details, ForwardFor)]
    ensures Given(values) == Pick((set f | f in ERROR_FIELDS), details)
  {
    forall f ensures f in values <==> f in ERROR_FIELDS {
      ErrorFieldNames(f);
    }
    GivenIsPick(values, (set f | f in ERROR_FIELDS), details);
  }

  method TakeCallee(details: map<Key, Value>) returns (r: Result<Value, Failure>)
    ensures r == Taken(ERROR, Callee, details, Null)
  {
    var callee := Null;
    if Name(Callee) in details {
      var detailCallee := details[Name(Callee)];
      if !detailCallee.Int? {
        return Err(ProtocolError);
      }
      callee := detailCallee;
    }
    r := Ok(callee);
  }

  /** callee_authid and callee_authrole. */
  method TakeCalleeDetail(f: FieldName, details: map<Key, Value>) returns (r: Result<Value, Failure>)
    requires f == CalleeAuthid || f == CalleeAuthrole
    ensures r == Taken(ERROR, f, details, Null)
  {
    var callee := Null;
    if Name(f) in details {
      var detailCallee := details[Name(f)];
      if !detailCallee.Str? {
        return Err(ProtocolError);
      }
      callee := detailCallee;
    }
    r := Ok(callee);
  }

  method ParseErrorFields(details: map<Key, Value>) returns (r: Result<map<FieldName, Value>, Failure>)
    ensures r == match FieldsError(ERROR, ERROR_FIELDS, details)
                 case Some(e) => Err(e)
                 case None => Ok(Pick((set f | f in ERROR_FIELDS), details))
  {
    ErrorFieldsDecide(details);
    var callee :- TakeCallee(details);
    var calleeAuthid :- TakeCalleeDetail(CalleeAuthid, details);
    var calleeAuthrole :- TakeCalleeDetail(CalleeAuthrole, details);
    var forwardFor :- TakeForwardFor(ERROR, details);
    var values := map[Callee := callee, CalleeAuthid := calleeAuthid, CalleeAuthrole := calleeAuthrole, ForwardFor := forwardFor];
    ErrorFieldsTaken(details, values);
    r := Ok(Given(values));
  }

  lemma {:induction false} ErrorHead(wmsg: seq<Value>)
    requires |wmsg| >= 5
    ensures |Layout(ERROR)| == 4 && HeadOf(ERROR, wmsg[1..5]) == [wmsg[1], wmsg[2], wmsg[4]]
  {
    var slots := wmsg[1..5];
    assert slots == [wmsg[1], wmsg[2], wmsg[3], wmsg[4]];
    assert slots[..2] + slots[3..] == [wmsg[1], wmsg[2], wmsg[4]];
  }

  /** The positions of an error, checked one after the other. */
  method CheckErrorSlots(wmsg: seq<Value>) returns (error: Option<Failure>)
    requires 5 <= |wmsg| <= 7 && wmsg[0] == Int(8)
    ensures error.Some? ==> Parse(ERROR, wmsg) == Err(error.value)
    ensures error.None? ==>
      && IsStrDict(wmsg[3])
      && Parse(ERROR, wmsg) == ParseBody(ERROR, [wmsg[1], wmsg[2], wmsg[4]], wmsg[5..], wmsg[3].entries)
  {
    if !IsRequestType(wmsg[1]) {
      SlotFails(ERROR, wmsg, 0);
      return Some(ProtocolError);
    }
    if !IsId(wmsg[2]) {
      SlotFails(ERROR, wmsg, 1);
      return Some(ProtocolError);
    }
    if !IsStrDict(wmsg[3]) {
      SlotFails(ERROR, wmsg, 2);
      return Some(ProtocolError);
    }
    if !IsUri(wmsg[4], U.NonEmpty) {
      SlotFails(ERROR, wmsg, 3);
      return Some(InvalidUriError);
    }
    SlotsPass(ERROR, wmsg);
    ErrorHead(wmsg);
    return None;
  }

  method ParseError(wmsg: seq<Value>) returns (r: Result<Message, Failure>)
    ensures r == Parse(ERROR, wmsg)
  {
    if wmsg == [] || wmsg[0] != Int(8) {
      return Err(AssertionError);
    }
    if |wmsg| != 5 && |wmsg| != 6 && |wmsg| != 7 {
      return Err(ProtocolError);
    }
    var error := CheckErrorSlots(wmsg);
    if error.Some? {
      return Err(error.value);
    }
    var details := wmsg[3].entries;
    ParseBodySteps(ERROR, [wmsg[1], wmsg[2], wmsg[4]], wmsg[5..], details);
    assert Fields(ERROR) == ERROR_FIELDS;
    var body :- ParseErrorBody(wmsg, details);
    var attributes :- ParseErrorFields(details);
    var enc := Given(map[EncAlgo := body.encAlgo, EncKey := body.encKey, EncSerializer := body.encSerializer]);
    r := Construct(Message(ERROR, [wmsg[1], wmsg[2], wmsg[4]], attributes + enc, body.args, body.kwargs, body.payload));
  }

  const ERROR_ATTRIBUTES: set<FieldName> := {Callee, CalleeAuthid, CalleeAuthrole, ForwardFor}

  lemma {:induction false} ErrorAttributes()
    ensures AttributeNames(ERROR) == ERROR_ATTRIBUTES + ENC_FIELDS
  {
    assert Fields(ERROR) == [Callee, CalleeAuthid, CalleeAuthrole, ForwardFor];
  }

  lemma {:induction false} ErrorWrites(m: Message, f: FieldName)
    requires m.kind == ERROR && f in m.attrs && f in ERROR_ATTRIBUTES + ENC_FIELDS
    ensures Written(m, f) <==> f in ERROR_ATTRIBUTES || Truthy(m.payload)
  {
  }

  method MarshalErrorDetails(m: Message) returns (details: map<Key, Value>)
    requires m.kind == ERROR && m.attrs.Keys <= AttributeNames(ERROR)
    ensures details == Options(m)
  {
    details := map[];
    ghost var done: set<FieldName> := {};
    PutFills(m, done, Callee);
    details, done := Put(details, m, Callee), done + {Callee};
    PutFills(m, done, CalleeAuthid);
    details, done := Put(details, m, CalleeAuthid), done + {CalleeAuthid};
    PutFills(m, done, CalleeAuthrole);
    details, done := Put(details, m, CalleeAuthrole), done + {CalleeAuthrole};
    PutFills(m, done, ForwardFor);
    details, done := Put(details, m, ForwardFor), done + {ForwardFor};
    if Truthy(m.payload) {
      PutFills(m, done, EncAlgo);
      details, done := Put(details, m, EncAlgo), done + {EncAlgo};
      PutFills(m, done, EncKey);
      details, done := Put(details, m, EncKey), done + {EncKey};
      PutFills(m, done, EncSerializer);
      details, done := Put(details, m, EncSerializer), done + {EncSerializer};
    }
    ErrorAttributes();
    forall f | f in m.attrs ensures f in done <==> Written(m, f) {
      ErrorWrites(m, f);
    }
    FilledUp(m, done);
  }

  method MarshalError(m: Message) returns (wmsg: seq<Value>)
    requires Shaped(m) && m.kind == ERROR && m.attrs.Keys <= AttributeNames(ERROR)
    ensures wmsg == Marshal(m)
  {
    var details := MarshalErrorDetails(m);
    MarshalSplits(m);
    assert SlotValues(m) == [m.head[0], m.head[1], Dict(details), m.head[2]];
    if Truthy(m.payload) {
      return [Int(8), m.head[0], m.head[1], Dict(details), m.head[2], m.payload];
    } else if Truthy(m.kwargs) {
      return [Int(8), m.head[0], m.head[1], Dict(details), m.head[2], m.args, m.kwargs];
    } else if Truthy(m.args) {
      return [Int(8), m.head[0], m.head[1], Dict(details), m.head[2], m.args];
    } else {
      return [Int(8), m.head[0], m.head[1], Dict(details), m.head[2]];
    }
  }

  // ---------------------------------------------------------------- REGISTER

  lemma {:induction false} OnlyFilledAttributesAssert(m: Message)
    requires AttributesAssert(Filled(m))
    ensures AttributesAssert(m)
  {
    forall f | f in m.attrs
      ensures f in AttributeNames(m.kind) && !m.attrs[f].Null? && AttributeOk(m.kind, f, m.attrs[f])
    {
      FilledAt(m, f);
    }
  }

  lemma {:induction false} FilledBodyAsserts(m: Message)
    ensures BodyAsserts(Filled(m)) <==> BodyAsserts(m)
    ensures RevocationAsserts(Filled(m)) <==> RevocationAsserts(m)
  {
    assert Filled(m).attrs.Keys * ENC_FIELDS == m.attrs.Keys * ENC_FIELDS;
  }

  lemma {:induction false} FillingTwice(m: Message)
    ensures Filled(Filled(m)) == Filled(m)
  {
  }

  /** Passing a default to the constructor is the same as leaving it to the constructor. */
  lemma {:induction false} DefaultsMayBePassed(m: Message)
    ensures Construct(Filled(m)) == Construct(m)
  {
    FillingTwice(m);
    FilledBodyAsserts(m);
    if AttributesAssert(m) {
      FilledAttributesAssert(m);
    } else if AttributesAssert(Filled(m)) {
      OnlyFilledAttributesAssert(m);
    }
  }

  const REGISTER_FIELDS: seq<FieldName> := [Match, Invoke, Concurrency, ForceReregister, ForwardFor]

  function RegisterValues(policy: Value, invoke: Value, concurrency: Value, forceReregister: Value, forwardFor: Value):
    map<FieldName, Value>
  {
    map[Match := policy, Invoke := invoke, Concurrency := concurrency, ForceReregister := forceReregister,
        ForwardFor := forwardFor]
  }

  lemma {:induction false} RegisterFieldNames(f: FieldName)
    ensures f in REGISTER_FIELDS <==> f == Match || f == Invoke || f == Concurrency || f == ForceReregister || f == ForwardFor
  {
  }

  ghost predicate RegisterFieldsPass(options: map<Key, Value>) {
    && FieldPasses(REGISTER, Match, options) && FieldPasses(REGISTER, Invoke, options)
    && FieldPasses(REGISTER, Concurrency, options) && FieldPasses(REGISTER, ForceReregister, options)
    && FieldPasses(REGISTER, ForwardFor, options)
  }

  lemma {:induction false} RegisterFieldFails(f: FieldName, options: map<Key, Value>)
    requires f in REGISTER_FIELDS && !FieldPasses(REGISTER, f, options)
    ensures FieldsError(REGISTER, REGISTER_FIELDS, options) == Some(ProtocolError)
  {
    RegisterFieldNames(Reason);
    FieldFails(REGISTER, REGISTER_FIELDS, f, options);
  }

  /** All errors of the optional fields are the same, so their order does not matter. */
  lemma {:induction false} RegisterFieldsDecide(options: map<Key, Value>)
    ensures FieldsError(REGISTER, REGISTER_FIELDS, options)
            == if RegisterFieldsPass(options) then None else Some(ProtocolError)
  {
    FieldsErrorNone(REGISTER, REGISTER_FIELDS, options);
    forall f | f in REGISTER_FIELDS ensures RegisterFieldsPass(options) ==> FieldPasses(REGISTER, f, options) {
      RegisterFieldNames(f);
    }
    if !RegisterFieldsPass(options) {
      var f :| f in REGISTER_FIELDS && !FieldPasses(REGISTER, f, options);
      RegisterFieldFails(f, options);
    }
  }

  method TakeInvoke(options: map<Key, Value>) returns (r: Result<Value, Failure>)
    ensures r == Taken(REGISTER, Invoke, options, Str(SINGLE))
  {
    var invoke := Str(SINGLE);
    if Name(Invoke) in options {
      var optionInvoke := options[Name(Invoke)];
      if !optionInvoke.Str? || !IsInvoke(optionInvoke) {
        return Err(ProtocolError);
      }
      invoke := optionInvoke;
    }
    r := Ok(invoke);
  }

  method TakeConcurrency(options: map<Key, Value>) returns (r: Result<Value, Failure>)
    ensures r == Taken(REGISTER, Concurrency, options, Null)
  {
    var concurrency := Null;
    if Name(Concurrency) in options {
      var optionsConcurrency := options[Name(Concurrency)];
      if !optionsConcurrency.Int? || optionsConcurrency.i < 1 {
        return Err(ProtocolError);
      }
      concurrency := optionsConcurrency;
    }
    r := Ok(concurrency);
  }

  method TakeForceReregister(options: map<Key, Value>) returns (r: Result<Value, Failure>)
    ensures r == Taken(REGISTER, ForceReregister, options, Null)
  {
    var forceReregister := Null;
    var optionsReregister := Get(options, ForceReregister);
    if !EqualsBoolOrNone(optionsReregister) {
      return Err(ProtocolError);
    }
    if !optionsReregister.Null? {
      forceReregister := optionsReregister;
    }
    r := Ok(forceReregister);
  }

  /** What parse hands to the constructor: the fields, with the defaults it starts from. */
  ghost function RegisterTaken(options: map<Key, Value>): map<FieldName, Value> {
    Given(RegisterValues(if Name(Match) in options then options[Name(Match)] else Str(EXACT),
                         if Name(Invoke) in options then options[Name(Invoke)] else Str(SINGLE),
                         Get(options, Concurrency), Get(options, ForceReregister), Get(options, ForwardFor)))
  }

  method ParseRegisterFields(policy: Value, options: map<Key, Value>) returns (r: Result<map<FieldName, Value>, Failure>)
    requires Ok(policy) == Taken(REGISTER, Match, options, Str(EXACT))
    ensures r == match FieldsError(REGISTER, REGISTER_FIELDS, options)
                 case Some(e) => Err(e)
                 case None => Ok(RegisterTaken(options))
  {
    RegisterFieldsDecide(options);
    var invoke :- TakeInvoke(options);
    var concurrency :- TakeConcurrency(options);
    var forceReregister :- TakeForceReregister(options);
    var forwardFor :- TakeForwardFor(REGISTER, options);
    return Ok(Given(RegisterValues(policy, invoke, concurrency, forceReregister, forwardFor)));
  }

  lemma {:induction false} RegisterFieldsTaken(options: map<Key, Value>, values: map<FieldName, Value>)
    requires values == RegisterValues(Get(options, Match), Get(options, Invoke), Get(options, Concurrency),
                                      Get(options, ForceReregister), Get(options, ForwardFor))
    ensures Given(values) == Pick((set f | f in REGISTER_FIELDS), options)
  {
    forall f ensures f in values <==> f in REGISTER_FIELDS {
      RegisterFieldNames(f);
    }
    GivenIsPick(values, (set f | f in REGISTER_FIELDS), options);
  }

  /** A default in place of None is a default for an attribute that is not given. */
  lemma {:induction false} GivenDefault(values: map<FieldName, Value>, f: FieldName, default: Value)
    requires f in values && !default.Null?
    ensures Given(values[f := if values[f].Null? then default else values[f]])
            == if f in Given(values) then Given(values) else Given(values)[f := default]
  {
  }

  function OrDefault(v: Value, default: Value): Value {
    if v.Null? then default else v
  }

  lemma {:induction false} UpdatedRegisterValues(policy: Value, invoke: Value, concurrency: Value, forceReregister: Value,
                                                 forwardFor: Value, policy': Value, invoke': Value)
    ensures RegisterValues(policy, invoke, concurrency, forceReregister, forwardFor)[Match := policy'][Invoke := invoke']
            == RegisterValues(policy', invoke', concurrency, forceReregister, forwardFor)
  {
  }

  lemma {:induction false} PassedFieldsAreGiven(options: map<Key, Value>)
    requires FieldPasses(REGISTER, Match, options) && FieldPasses(REGISTER, Invoke, options)
    ensures (if Name(Match) in options then options[Name(Match)] else Str(EXACT)) == OrDefault(Get(options, Match), Str(EXACT))
    ensures (if Name(Invoke) in options then options[Name(Invoke)] else Str(SINGLE)) == OrDefault(Get(options, Invoke), Str(SINGLE))
  {
  }

  ghost function Defaulted(attrs: map<FieldName, Value>): map<FieldName, Value> {
    var a := if Match in attrs then attrs else attrs[Match := Str(EXACT)];
    if Invoke in a then a else a[Invoke := Str(SINGLE)]
  }

  lemma {:induction false} DefaultedValues(policy: Value, invoke: Value, concurrency: Value, forceReregister: Value,
                                           forwardFor: Value)
    ensures Defaulted(Given(RegisterValues(policy, invoke, concurrency, forceReregister, forwardFor)))
            == Given(RegisterValues(OrDefault(policy, Str(EXACT)), OrDefault(invoke, Str(SINGLE)), concurrency,
                                    forceReregister, forwardFor))
  {
    var values := RegisterValues(policy, invoke, concurrency, forceReregister, forwardFor);
    GivenDefault(values, Match, Str(EXACT));
    GivenDefault(values[Match := OrDefault(policy, Str(EXACT))], Invoke, Str(SINGLE));
    UpdatedRegisterValues(policy, invoke, concurrency, forceReregister, forwardFor,
                          OrDefault(policy, Str(EXACT)), OrDefault(invoke, Str(SINGLE)));
  }

  lemma {:induction false} RegisterTakenIsFilled(head: seq<Value>, options: map<Key, Value>)
    requires FieldPasses(REGISTER, Match, options) && FieldPasses(REGISTER, Invoke, options)
    ensures var made := Message(REGISTER, head, Pick((set f | f in REGISTER_FIELDS), options), Null, Null, Null);
            Filled(made).attrs == RegisterTaken(options)
  {
    var values := RegisterValues(Get(options, Match), Get(options, Invoke), Get(options, Concurrency),
                                 Get(options, ForceReregister), Get(options, ForwardFor));
    RegisterFieldsTaken(options, values);
    DefaultedValues(Get(options, Match), Get(options, Invoke), Get(options, Concurrency), Get(options, ForceReregister),
                    Get(options, ForwardFor));
    PassedFieldsAreGiven(options);
  }

  lemma {:induction false} RegisterBodySteps(head: seq<Value>, options: map<Key, Value>)
    ensures ParseBody(REGISTER, head, [], options)
            == match FieldsError(REGISTER, REGISTER_FIELDS, options)
               case Some(e) => Err(e)
               case None => Construct(Message(REGISTER, head, RegisterTaken(options), Null, Null, Null))
  {
    assert Fields(REGISTER) == REGISTER_FIELDS;
    assert !IsPayload(REGISTER, []);
    assert (set f | f in Fields(REGISTER)) + {} == set f | f in REGISTER_FIELDS;
    RegisterFieldsDecide(options);
    if RegisterFieldsPass(options) {
      RegisterTakenIsFilled(head, options);
      DefaultsMayBePassed(Message(REGISTER, head, Pick((set f | f in REGISTER_FIELDS), options), Null, Null, Null));
    }
  }

  /** The match policy, if the procedure is in the URI class that it selects. */
  method CheckProcedure(options: map<Key, Value>, procedure: Value) returns (r: Result<Value, Failure>)
    ensures match SlotError(UriByMatchSlot, procedure, Dict(options))
            case Some(e) => r == Err(e)
            case None => r == Taken(REGISTER, Match, options, Str(EXACT)) && r.Ok?
  {
    var policy := Str(EXACT);
    if Name(Match) in options {
      var optionMatch := options[Name(Match)];
      if !optionMatch.Str? || !IsMatch(optionMatch) {
        return Err(ProtocolError);
      }
      policy := optionMatch;
    }
    var mode := U.NonEmpty;
    if policy == Str(PREFIX) {
      mode := U.LastEmpty;
    } else if policy == Str(WILDCARD) {
      mode := U.AnyEmpty;
    }
    if !IsUri(procedure, mode) {
      return Err(InvalidUriError);
    }
    r := Ok(policy);
  }

  lemma {:induction false} RegisterHeadOf(wmsg: seq<Value>)
    requires |wmsg| == 4
    ensures |Layout(REGISTER)| == 3 && HeadOf(REGISTER, wmsg[1..4]) == [wmsg[1], wmsg[3]]
  {
    var slots := wmsg[1..4];
    assert slots == [wmsg[1], wmsg[2], wmsg[3]];
    assert slots[..1] + slots[2..] == [wmsg[1], wmsg[3]];
  }

  method ParseRegister(wmsg: seq<Value>) returns (r: Result<Message, Failure>)
    ensures r == Parse(REGISTER, wmsg)
  {
    if wmsg == [] || wmsg[0] != Int(64) {
      return Err(AssertionError);
    }
    if |wmsg| != 4 {
      return Err(ProtocolError);
    }
    if !IsId(wmsg[1]) {
      SlotFails(REGISTER, wmsg, 0);
      return Err(ProtocolError);
    }
    if !IsStrDict(wmsg[2]) {
      SlotFails(REGISTER, wmsg, 1);
      return Err(ProtocolError);
    }
    var options := wmsg[2].entries;
    var policy := CheckProcedure(options, wmsg[3]);
    if policy.Err? {
      SlotFails(REGISTER, wmsg, 2);
      return Err(policy.error);
    }
    SlotsPass(REGISTER, wmsg);
    RegisterHeadOf(wmsg);
    RegisterBodySteps([wmsg[1], wmsg[3]], options);
    var attributes :- ParseRegisterFields(policy.value, options);
    r := Construct(Message(REGISTER, [wmsg[1], wmsg[3]], attributes, Null, Null, Null));
  }

  const REGISTER_ATTRIBUTES: set<FieldName> := {Match, Invoke, Concurrency, ForceReregister, ForwardFor}

  lemma {:induction false} RegisterAttributes()
    ensures AttributeNames(REGISTER) == REGISTER_ATTRIBUTES
  {
    assert Fields(REGISTER) == REGISTER_FIELDS;
  }

  lemma {:induction false} RegisterWrites(m: Message, f: FieldName)
    requires m.kind == REGISTER && f in m.attrs && f in REGISTER_ATTRIBUTES
    ensures Written(m, f) <==> (f == Match ==> m.attrs[f] != Str(EXACT)) && (f == Invoke ==> m.attrs[f] != Str(SINGLE))
                               && (f == Concurrency ==> Truthy(m.attrs[f]))
  {
  }

  method MarshalRegisterOptions(m: Message) returns (options: map<Key, Value>)
    requires m.kind == REGISTER && m.attrs.Keys <= AttributeNames(REGISTER)
    ensures options == Options(m)
  {
    options := map[];
    ghost var done: set<FieldName> := {};
    if Match in m.attrs && m.attrs[Match] != Str(EXACT) {
      PutFills(m, done, Match);
      options, done := Put(options, m, Match), done + {Match};
    }
    if Invoke in m.attrs && m.attrs[Invoke] != Str(SINGLE) {
      PutFills(m, done, Invoke);
      options, done := Put(options, m, Invoke), done + {Invoke};
    }
    if Concurrency in m.attrs && Truthy(m.attrs[Concurrency]) {
      PutFills(m, done, Concurrency);
      options, done := Put(options, m, Concurrency), done + {Concurrency};
    }
    PutFills(m, done, ForceReregister);
    options, done := Put(options, m, ForceReregister), done + {ForceReregister};
    PutFills(m, done, ForwardFor);
    options, done := Put(options, m, ForwardFor), done + {ForwardFor};
    RegisterAttributes();
    forall f | f in m.attrs ensures f in done <==> Written(m, f) {
      RegisterWrites(m, f);
    }
    FilledUp(m, done);
  }

  lemma {:induction false} RegisterWord(m: Message)
    requires Shaped(m) && m.kind == REGISTER
    ensures |m.head| == 2 && Marshal(m) == [Int(64), m.head[0], Dict(Options(m)), m.head[1]]
  {
    assert |HeadSlots(REGISTER)| == 2;
    assert m.head[..1] + [Dict(Options(m))] + m.head[1..] == [m.head[0], Dict(Options(m)), m.head[1]];
  }

  method MarshalRegister(m: Message) returns (wmsg: seq<Value>)
    requires Shaped(m) && m.kind == REGISTER && m.attrs.Keys <= AttributeNames(REGISTER)
    ensures wmsg == Marshal(m)
  {
    var options := MarshalRegisterOptions(m);
    RegisterWord(m);
    return [Int(64), m.head[0], Dict(options), m.head[1]];
  }
}
