/** What follows from the round trip: raw lists determine messages, and parsed messages can be sent on. */
module MessageReparse {
  import opened Values
  import opened Messages
  import opened MessageTheorems
  import opened Wrappers
  import F = MessageFormats
  import U = Uri

  // ---------------------------------------------------------------- raw lists determine messages

  lemma CodesDiffer(k: Kind, k': Kind)
    requires Code(k) == Code(k')
    ensures k == k'
  {
  }

  /** Two messages that can be sent share a raw list only if they share their normal form. */
  lemma {:induction false} MarshalIsInjective(m: Message, n: Message)
    requires IsMessage(m) && IsMessage(n) && Sendable(m) && Sendable(n)
    requires Shaped(m) && Shaped(n)
    ensures Marshal(m) == Marshal(n) <==> Normal(m) == Normal(n)
  {
    RoundTrip(m);
    RoundTrip(n);
    NormalMarshalsTheSame(m);
    NormalMarshalsTheSame(n);
    if Marshal(m) == Marshal(n) {
      assert Marshal(m)[0] == Marshal(n)[0];
      CodesDiffer(m.kind, n.kind);
    }
  }

  /** The arguments of a publication as the payload they are taken for. */
  ghost function WithPayload(m: Message): Message {
    m.(args := Null, kwargs := Null, payload := m.args)
  }

  lemma {:induction false} BodyWithPayload(m: Message)
    requires BodyAsserts(m) && HasPayload(m.kind) && m.args.Bytes? && Truthy(m.args) && !Truthy(m.kwargs)
    ensures m.payload.Null? && m.attrs.Keys !! ENC_FIELDS
    ensures BodyAsserts(WithPayload(m)) && MarshalBody(WithPayload(m)) == MarshalBody(m)
    ensures BodySends(WithPayload(m))
  {
  }

  lemma {:induction false} FieldsWithPayload(m: Message)
    requires m.attrs.Keys !! ENC_FIELDS
    ensures Options(WithPayload(m)) == Options(m)
    ensures AttributesSend(m) ==> AttributesSend(WithPayload(m))
  {
    SameOptions(WithPayload(m), m);
  }

  lemma {:induction false} HeadWithPayload(m: Message)
    requires HeadSends(m)
    ensures HeadSends(WithPayload(m))
  {
    forall j: nat | j < |m.head| ensures Sends(WithPayload(m), j) {
      assert Sends(m, j);
    }
  }

  lemma {:induction false} WithPayloadIsMessage(m: Message)
    requires IsMessage(m) && BodyAsserts(WithPayload(m))
    ensures IsMessage(WithPayload(m))
  {
    assert Filled(WithPayload(m)) == WithPayload(m);
  }

  /**
   * A publication made with octets as its arguments has the raw list of a publication with
   * these octets as payload.
   */
  lemma {:induction false} BytesArgumentsBecomePayload(m: Message)
    requires IsMessage(m) && Shaped(m) && HeadSends(m) && AttributesSend(m)
    requires m.args.Bytes? && Truthy(m.args) && !Truthy(m.kwargs)
    ensures Parse(m.kind, Marshal(m)) == Ok(Normal(WithPayload(m))) && Normal(WithPayload(m)) != Normal(m)
  {
    BodyWithPayload(m);
    FieldsWithPayload(m);
    HeadWithPayload(m);
    WithPayloadIsMessage(m);
    RoundTrip(WithPayload(m));
    assert Marshal(WithPayload(m)) == Marshal(m);
  }

  /** Octets that are taken for a payload. */
  ghost predicate BytesShift(m: Message) {
    HasPayload(m.kind) && m.args.Bytes? && Truthy(m.args) && !Truthy(m.kwargs)
  }

  lemma {:induction false} ShiftsDoNotSend(m: Message)
    requires BodyAsserts(m) && BytesShift(m)
    ensures !BodySends(m)
  {
  }

  /** What cannot be sent for its arguments is refused, unless these are octets and all else is in order. */
  lemma {:induction false} OnlyBytesShift(m: Message)
    requires AttributesAssert(m) && BodyAsserts(m) && !BodySends(m)
    ensures ParseBody(m.kind, m.head, MarshalBody(m), Options(m)).Ok? ==> BytesShift(m) && AttributesSend(m)
  {
    FieldsOfMarshal(m);
  }

  /**
   * A message comes back as a different one if and only if it is such a publication and
   * everything else about it can be sent. Any other message comes back in its normal form or
   * is refused.
   */
  lemma {:induction false} ComesBackChanged(m: Message)
    requires IsMessage(m) && Shaped(m)
    ensures (exists n :: Parse(m.kind, Marshal(m)) == Ok(n) && n != Normal(m))
            <==> HeadSends(m) && AttributesSend(m) && BytesShift(m)
  {
    ParseOfMarshal(m);
    if BodySends(m) {
      ParseBodyOfMarshal(m);
      assert !BytesShift(m) by {
        if BytesShift(m) {
          ShiftsDoNotSend(m);
        }
      }
    } else {
      OnlyBytesShift(m);
      if HeadSends(m) && AttributesSend(m) && BytesShift(m) {
        BytesArgumentsBecomePayload(m);
      } else {
        assert Parse(m.kind, Marshal(m)).Err?;
      }
    }
  }

  // ---------------------------------------------------------------- registrations

  lemma {:induction false} RegisterHead(m: Message)
    requires HeadAsserts(m) && m.kind == REGISTER
    ensures |m.head| == 2 && m.head[1].Str?
    ensures HeadSends(m) <==> IsId(m.head[0]) && SlotSends(m, UriByMatchSlot, m.head[1])
  {
    assert HeadSlots(REGISTER) == [IdSlot, UriByMatchSlot];
    assert HeadValueOk(REGISTER, HeadSlots(m.kind)[1], m.head[1]);
    assert HeadSends(m) <==> Sends(m, 0) && Sends(m, 1);
  }

  lemma {:induction false} ParsesIfHeadSends(m: Message)
    requires IsMessage(m) && Shaped(m) && AttributesSend(m) && BodySends(m)
    ensures Parse(m.kind, Marshal(m)).Ok? <==> HeadSends(m)
  {
    ParseOfMarshal(m);
    ParseBodyOfMarshal(m);
  }

  lemma {:induction false} RegisterSlots(m: Message)
    requires HeadAsserts(m) && Match in m.attrs && m.kind == REGISTER
    ensures |m.head| == 2 && m.head[1].Str?
    ensures HeadSends(m) <==> IsId(m.head[0]) && U.UriOk(false, ModeOf(m.attrs[Match]), m.head[1].s)
  {
    RegisterHead(m);
    U.PatternAccepts(false, ModeOf(m.attrs[Match]), m.head[1].s);
  }

  /** parse admits the URI class that the match policy of the registration selects, be it written or omitted. */
  lemma {:induction false} RegisterUriClass(m: Message)
    requires IsMessage(m) && Shaped(m) && m.kind == REGISTER && AttributesSend(m)
    ensures |m.head| == 2 && m.head[1].Str?
    ensures Parse(REGISTER, Marshal(m)).Ok? <==>
              IsId(m.head[0]) && U.UriOk(false, ModeOf(m.attrs[Match]), m.head[1].s)
  {
    RegisterSlots(m);
    ParsesIfHeadSends(m);
  }

  // ---------------------------------------------------------------- parsed messages

  lemma {:induction false} FilledAttributesAssert(m: Message)
    requires AttributesAssert(m)
    ensures AttributesAssert(Filled(m)) && Filled(Filled(m)) == Filled(m)
  {
    WhoHasDefaults(m.kind);
    forall f | f in Filled(m).attrs
      ensures f in AttributeNames(m.kind) && !Filled(m).attrs[f].Null? && AttributeOk(m.kind, f, Filled(m).attrs[f])
    {
      FilledAt(m, f);
    }
  }

  lemma {:induction false} FilledKeepsAsserts(m: Message)
    requires BodyAsserts(m) && RevocationAsserts(m)
    ensures BodyAsserts(Filled(m)) && RevocationAsserts(Filled(m))
  {
    assert Filled(m).attrs.Keys * ENC_FIELDS == m.attrs.Keys * ENC_FIELDS;
  }

  lemma {:induction false} ConstructedIsMessage(m: Message)
    requires Construct(m).Ok?
    ensures IsMessage(Filled(m))
  {
    FilledAttributesAssert(m);
    FilledKeepsAsserts(m);
  }

  /** What parse hands to the constructor. */
  ghost function Made(k: Kind, head: seq<Value>, body: seq<Value>, options: map<Key, Value>): Message {
    var isPayload := IsPayload(k, body);
    Message(k, head, Pick((set f | f in Fields(k)) + (if isPayload then ENC_FIELDS else {}), options),
            if !isPayload && |body| > 0 then body[0] else Null,
            if !isPayload && |body| > 1 then body[1] else Null,
            if isPayload then body[0] else Null)
  }

  lemma {:induction false} MadeByParseBody(k: Kind, head: seq<Value>, body: seq<Value>, options: map<Key, Value>, m: Message)
    requires |body| <= 2 && ParseBody(k, head, body, options) == Ok(m)
    ensures FieldsError(k, Fields(k), options).None? && Construct(Made(k, head, body, options)) == Ok(m)
    ensures !IsPayload(k, body) && |body| > 0 ==> !ArgsError(k, body[0])
  {
  }

  /** The slots, the payload and the dictionary of a raw list. */
  datatype Seen = Seen(slots: seq<Value>, body: seq<Value>, options: map<Key, Value>)

  ghost function HeadOf(k: Kind, slots: seq<Value>): seq<Value>
    requires |slots| == |Layout(k)|
  {
    if TrailingOptions(k) then slots else slots[..OptionsAt(k)] + slots[OptionsAt(k) + 1..]
  }

  ghost predicate Accepted(k: Kind, m: Message, seen: Seen) {
    && |seen.slots| == |Layout(k)| && |seen.body| <= 2
    && (!HasPayload(k) ==> seen.body == [])
    && SlotsError(Layout(k), seen.slots, Dict(seen.options)).None?
    && ParseBody(k, HeadOf(k, seen.slots), seen.body, seen.options) == Ok(m)
  }

  lemma {:induction false} SlicesOfWord(w: seq<Value>, p: nat, base: nat)
    requires p + 2 <= base <= |w|
    ensures w[1..1 + p] + w[2 + p..base] == w[1..base][..p] + w[1..base][p + 1..]
  {
    assert w[1..base][..p] == w[1..1 + p];
    assert w[1..base][p + 1..] == w[2 + p..base];
  }

  lemma {:induction false} SeenByParse(k: Kind, w: seq<Value>, m: Message) returns (seen: Seen)
    requires Parse(k, w) == Ok(m)
    ensures Accepted(k, m, seen)
  {
    var base := 1 + |Layout(k)|;
    if !TrailingOptions(k) {
      SlicesOfWord(w, OptionsAt(k), base);
    }
    seen := Seen(w[1..base], if HasPayload(k) then w[base..] else [], OptionsOf(k, w).entries);
  }

  lemma {:induction false} HeadOfAt(k: Kind, slots: seq<Value>, i: nat)
    requires i < |slots| == |Layout(k)| && !HoldsOptions(k, i)
    ensures 0 <= HeadIndex(k, i) < |HeadOf(k, slots)| && HeadOf(k, slots)[HeadIndex(k, i)] == slots[i]
  {
  }

  /** The match policy of a parsed registration is the one its procedure was checked by. */
  lemma {:induction false} PolicyOfParse(m: Message, made: Message, options: map<Key, Value>, v: Value)
    requires made.kind == REGISTER && m == Filled(made) && made.attrs == Pick((set f | f in Fields(REGISTER)), options)
    requires SlotError(UriByMatchSlot, v, Dict(options)).None?
    ensures SlotSends(m, UriByMatchSlot, v)
  {
    FilledAt(made, Match);
    assert Match in Fields(REGISTER);
    var policy := if Name(Match) in options then options[Name(Match)] else Str(EXACT);
    assert m.attrs[Match] == policy;
  }

  lemma {:induction false} ParsedHeadSends(k: Kind, m: Message, seen: Seen)
    requires Accepted(k, m, seen)
    ensures HeadSends(m)
  {
    var made := Made(k, HeadOf(k, seen.slots), seen.body, seen.options);
    MadeByParseBody(k, HeadOf(k, seen.slots), seen.body, seen.options, m);
    SlotsErrorNone(Layout(k), seen.slots, Dict(seen.options));
    forall j: nat | j < |m.head| ensures Sends(m, j) {
      var i := LayoutIndex(k, j);
      HeadOfAt(k, seen.slots, i);
      HeadSlotAt(k, i);
      assert SlotError(Layout(k)[i], seen.slots[i], Dict(seen.options)).None?;
      if Layout(k)[i] == UriByMatchSlot {
        OnlyRegisterLooksAtMatch(k, i);
        PolicyOfParse(m, made, seen.options, seen.slots[i]);
      }
    }
  }

  lemma {:induction false} ParsedFieldPasses(made: Message, names: set<FieldName>, options: map<Key, Value>, f: FieldName)
    requires f in names ==> f in Fields(made.kind)
    requires FieldsError(made.kind, Fields(made.kind), options).None?
    requires f in made.attrs && made.attrs == Pick(names, options)
    ensures FieldError(made.kind, f, made.attrs[f]).None?
  {
    FieldsErrorNone(made.kind, Fields(made.kind), options);
    assert f in Fields(made.kind) && FieldPasses(made.kind, f, options);
  }

  lemma PassedFieldsSend(m: Message)
    requires forall f :: f in {Timeout, Reason, ForwardFor} && f in m.attrs ==> FieldError(m.kind, f, m.attrs[f]).None?
    ensures AttributesSend(m)
  {
    assert Timeout in m.attrs ==> FieldError(m.kind, Timeout, m.attrs[Timeout]).None?;
    assert Reason in m.attrs ==> FieldError(m.kind, Reason, m.attrs[Reason]).None?;
    assert ForwardFor in m.attrs ==> FieldError(m.kind, ForwardFor, m.attrs[ForwardFor]).None?;
  }

  lemma {:induction false} MadeAttributesSend(made: Message, names: set<FieldName>, options: map<Key, Value>)
    requires forall f :: f in names && f !in ENC_FIELDS ==> f in Fields(made.kind)
    requires FieldsError(made.kind, Fields(made.kind), options).None?
    requires made.attrs == Pick(names, options)
    ensures AttributesSend(made)
  {
    forall f | f in made.attrs && f !in ENC_FIELDS ensures FieldError(made.kind, f, made.attrs[f]).None? {
      ParsedFieldPasses(made, names, options, f);
    }
    PassedFieldsSend(made);
  }

  lemma {:induction false} FilledAttributesSend(m: Message)
    requires AttributesSend(m)
    ensures AttributesSend(Filled(m))
  {
    FilledAt(m, Timeout);
    FilledAt(m, Reason);
    FilledAt(m, ForwardFor);
  }

  lemma {:induction false} ParsedAttributesSend(k: Kind, m: Message, seen: Seen)
    requires Accepted(k, m, seen)
    ensures AttributesSend(m)
  {
    var made := Made(k, HeadOf(k, seen.slots), seen.body, seen.options);
    MadeByParseBody(k, HeadOf(k, seen.slots), seen.body, seen.options, m);
    MadeAttributesSend(made, (set f | f in Fields(k)) + (if IsPayload(k, seen.body) then ENC_FIELDS else {}), seen.options);
    FilledAttributesSend(made);
  }

  /** A publication whose arguments are no list and are not held in place by keyword arguments. */
  ghost predicate Shifts(m: Message) {
    m.kind == PUBLISH && (m.args.Str? || m.args.Bytes?) && Truthy(m.args) && !Truthy(m.kwargs)
  }

  lemma {:induction false} ParsedBodySends(k: Kind, m: Message, seen: Seen)
    requires Accepted(k, m, seen)
    ensures BodySends(m) <==> !Shifts(m)
  {
    MadeByParseBody(k, HeadOf(k, seen.slots), seen.body, seen.options, m);
  }

  /**
   * A parsed message is a message, and marshalling it and parsing again gives its normal
   * form, unless it is a publication with octets or text for arguments and no keyword arguments.
   */
  lemma {:induction false} ParsedCanBeSentOn(k: Kind, w: seq<Value>, m: Message)
    requires Parse(k, w) == Ok(m)
    ensures m.kind == k && IsMessage(m) && Shaped(m)
    ensures Parse(k, Marshal(m)) == Ok(Normal(m)) <==> !Shifts(m)
  {
    var seen := SeenByParse(k, w, m);
    MadeByParseBody(k, HeadOf(k, seen.slots), seen.body, seen.options, m);
    ConstructedIsMessage(Made(k, HeadOf(k, seen.slots), seen.body, seen.options));
    MessagesAreShaped(m);
    ParsedHeadSends(k, m, seen);
    ParsedAttributesSend(k, m, seen);
    ParsedBodySends(k, m, seen);
    RoundTrip(m);
  }

  // ---------------------------------------------------------------- forwarders

  /** forward_for, where a message has it, is a list of complete entries. */
  ghost predicate WellForwarded(m: Message) {
    ForwardFor in m.attrs ==> m.attrs[ForwardFor].List? && AllForwarders(m.attrs[ForwardFor].items)
  }

  lemma {:induction false} ParsedForwardersAreAList(k: Kind, w: seq<Value>, m: Message)
    requires Parse(k, w) == Ok(m) && ForwardFor in m.attrs
    ensures m.attrs[ForwardFor].List?
  {
    var seen := SeenByParse(k, w, m);
    var made := Made(k, HeadOf(k, seen.slots), seen.body, seen.options);
    MadeByParseBody(k, HeadOf(k, seen.slots), seen.body, seen.options, m);
    FilledAt(made, ForwardFor);
    ParsedFieldPasses(made, (set f | f in Fields(k)) + (if IsPayload(k, seen.body) then ENC_FIELDS else {}), seen.options,
                      ForwardFor);
  }

  lemma {:induction false} AssertedForwarders(m: Message)
    requires AttributesAssert(m) && m.kind != UNREGISTER && ForwardFor in m.attrs && m.attrs[ForwardFor].List?
    ensures WellForwarded(m)
  {
    assert AttributeOk(m.kind, ForwardFor, m.attrs[ForwardFor]);
  }

  ghost function Unregister(request: int, registration: int, forwarders: seq<Value>): Message {
    Message(UNREGISTER, [Int(request), Int(registration)], map[ForwardFor := List(forwarders)], Null, Null, Null)
  }

  lemma {:induction false} UnregisterIsMessage(request: int, registration: int, forwarders: seq<Value>)
    ensures IsMessage(Unregister(request, registration, forwarders))
  {
    var m := Unregister(request, registration, forwarders);
    assert Fields(UNREGISTER) == [ForwardFor];
    assert ForwardFor in AttributeNames(UNREGISTER);
    assert HeadSlots(UNREGISTER) == [IdSlot, IdSlot];
    assert AttributesAssert(m) && BodyAsserts(m);
  }

  lemma {:induction false} UnregisterSends(request: int, registration: int, forwarders: seq<Value>)
    requires 0 <= request <= MAX_ID && 0 <= registration <= MAX_ID
    ensures Sendable(Unregister(request, registration, forwarders))
  {
    var m := Unregister(request, registration, forwarders);
    assert HeadSlots(UNREGISTER) == [IdSlot, IdSlot];
    assert Sends(m, 0) && Sends(m, 1);
  }

  lemma {:induction false} UnregisterOptions(request: int, registration: int, forwarders: seq<Value>)
    requires forwarders != []
    ensures var m := Unregister(request, registration, forwarders);
            Normal(m) == m && Options(m) == map[Name(ForwardFor) := List(forwarders)]
  {
    var m := Unregister(request, registration, forwarders);
    OptionOf(m, ForwardFor);
    assert Normal(m).attrs == m.attrs;
  }

  lemma {:induction false} UnregisterWord(request: int, registration: int, forwarders: seq<Value>)
    requires Options(Unregister(request, registration, forwarders)) == map[Name(ForwardFor) := List(forwarders)]
    ensures var m := Unregister(request, registration, forwarders);
            && Shaped(m)
            && Marshal(m) == [Int(66), Int(request), Int(registration), Dict(map[Name(ForwardFor) := List(forwarders)])]
  {
    var m := Unregister(request, registration, forwarders);
    assert HeadSlots(UNREGISTER) == [IdSlot, IdSlot];
    assert Name(ForwardFor) in Options(m);
    assert F.Trailing(Options(m)) == [Dict(Options(m))] && MarshalBody(m) == [];
    F.MarshalsAsDocumented(m);
  }

  /** The constructor of UNREGISTER looks at no entry, so parse keeps every list, well-formed or not. */
  lemma {:induction false} UnregisterKeepsForwarders(request: int, registration: int, forwarders: seq<Value>)
    requires 0 <= request <= MAX_ID && 0 <= registration <= MAX_ID && forwarders != []
    ensures var w := [Int(66), Int(request), Int(registration), Dict(map[Name(ForwardFor) := List(forwarders)])];
            var m := Unregister(request, registration, forwarders);
            Parse(UNREGISTER, w) == Ok(m) && (WellForwarded(m) <==> AllForwarders(forwarders))
  {
    UnregisterIsMessage(request, registration, forwarders);
    UnregisterSends(request, registration, forwarders);
    UnregisterOptions(request, registration, forwarders);
    UnregisterWord(request, registration, forwarders);
    RoundTrip(Unregister(request, registration, forwarders));
  }

  /** A list with the number 7 for an entry. */
  lemma {:induction false} UnregisterKeepsBadForwarders()
    ensures var w := [Int(66), Int(1), Int(1), Dict(map[Name(ForwardFor) := List([Int(7)])])];
            Parse(UNREGISTER, w) == Ok(Unregister(1, 1, [Int(7)])) && !WellForwarded(Unregister(1, 1, [Int(7)]))
  {
    UnregisterKeepsForwarders(1, 1, [Int(7)]);
    assert !IsForwarder([Int(7)][0]);
  }

  /** Parsed messages of a class have well-formed forwarders if and only if it is not UNREGISTER. */
  lemma {:induction false} ForwardersAreChecked(k: Kind)
    ensures (forall w, m :: Parse(k, w) == Ok(m) ==> WellForwarded(m)) <==> k != UNREGISTER
  {
    if k == UNREGISTER {
      UnregisterKeepsBadForwarders();
    } else {
      forall w, m | Parse(k, w) == Ok(m) ensures WellForwarded(m) {
        if ForwardFor in m.attrs {
          ParsedCanBeSentOn(k, w, m);
          ParsedForwardersAreAList(k, w, m);
          AssertedForwarders(m);
        }
      }
    }
  }
}
