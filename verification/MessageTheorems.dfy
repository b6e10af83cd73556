/** Marshalling and parsing are inverse up to a normal form, exactly on what can be sent. */
module MessageTheorems {
  import opened Values
  import opened Messages
  import opened Wrappers
  import U = Uri

  // ---------------------------------------------------------------- what can be sent

  /** A value at a position of the layout that parse accepts. */
  predicate SlotSends(m: Message, slot: Slot, v: Value) {
    match slot
    case RequestTypeSlot => IsRequestType(v)
    case IdSlot => IsId(v)
    case OptionsSlot => false
    case UriSlot(mode) => IsUri(v, mode)
    case UriByMatchSlot => IsUri(v, ModeOf(if Match in m.attrs then m.attrs[Match] else Str(EXACT)))
  }

  predicate Sends(m: Message, j: nat) {
    j < |m.head| && j < |HeadSlots(m.kind)| && SlotSends(m, HeadSlots(m.kind)[j], m.head[j])
  }

  predicate HeadSends(m: Message) {
    forall j: nat :: j < |m.head| ==> Sends(m, j)
  }

  /** Of the optional attributes, only these are asserted less than they are parsed. */
  predicate AttributesSend(m: Message) {
    && (Timeout in m.attrs ==> m.attrs[Timeout].Int? && m.attrs[Timeout].i >= 0)
    && (Reason in m.attrs ==> IsUri(m.attrs[Reason], U.NonEmpty))
    && (ForwardFor in m.attrs && Written(m, ForwardFor) ==> m.attrs[ForwardFor].List?)
  }

  /** Positional arguments are a list; a publication has them whenever it has keyword arguments. */
  predicate BodySends(m: Message) {
    !HasPayload(m.kind) || Truthy(m.payload) ||
    (if Truthy(m.kwargs) then !ArgsError(m.kind, m.args) else Truthy(m.args) ==> m.args.List?)
  }

  predicate Sendable(m: Message) {
    HeadSends(m) && AttributesSend(m) && BodySends(m)
  }

  // ---------------------------------------------------------------- the normal form

  predicate NormalAttribute(m: Message, f: FieldName)
    requires f in m.attrs
  {
    && (f in ENC_FIELDS ==> Truthy(m.payload))
    && (f == ForwardFor && m.kind in {UNSUBSCRIBE, UNREGISTER} ==> Truthy(m.attrs[f]))
  }

  /**
   * Empty arguments without keyword arguments, empty keyword arguments and an empty payload
   * become None; without a payload there are no enc fields, and un-messages have no empty
   * forward_for.
   */
  function Normal(m: Message): Message {
    m.(attrs := map f | f in m.attrs && NormalAttribute(m, f) :: m.attrs[f],
       payload := if Truthy(m.payload) then m.payload else Null,
       kwargs := if Truthy(m.kwargs) then m.kwargs else Null,
       args := if Truthy(m.kwargs) || Truthy(m.args) then m.args else Null)
  }

  // ---------------------------------------------------------------- the head

  lemma {:induction false} SlotsErrorNone(slots: seq<Slot>, vs: seq<Value>, options: Value)
    requires |slots| == |vs|
    ensures SlotsError(slots, vs, options).None? <==> forall i :: 0 <= i < |slots| ==> SlotError(slots[i], vs[i], options).None?
    decreases |slots|
  {
    if slots != [] {
      SlotsErrorNone(slots[1..], vs[1..], options);
      forall i | 0 < i < |slots| ensures slots[i] == slots[1..][i - 1] && vs[i] == vs[1..][i - 1] {
      }
    }
  }

  lemma OptionsAreStrDict(m: Message)
    ensures IsStrDict(Dict(Options(m)))
  {
  }

  /** Every position other than the dictionary has its value, and a registration its match policy. */
  ghost predicate Shaped(m: Message) {
    && |m.head| == |HeadSlots(m.kind)|
    && OptionsAt(m.kind) <= |m.head|
    && (m.kind == REGISTER ==> Match in m.attrs && IsMatch(m.attrs[Match]))
  }

  lemma FilledHasMatch(m: Message)
    requires Filled(m) == m && m.kind in {SUBSCRIBE, REGISTER}
    ensures Match in m.attrs
  {
    assert Match in Filled(m).attrs;
  }

  lemma MatchIsAsserted(m: Message)
    requires AttributesAssert(m) && Match in m.attrs
    ensures IsMatch(m.attrs[Match])
  {
    assert AttributeOk(m.kind, Match, m.attrs[Match]);
  }

  lemma HeadIsComplete(m: Message)
    requires |m.head| == |HeadSlots(m.kind)|
    ensures OptionsAt(m.kind) <= |m.head|
  {
  }

  lemma MessagesAreShaped(m: Message)
    requires IsMessage(m)
    ensures Shaped(m)
  {
    HeadIsComplete(m);
    if m.kind == REGISTER {
      FilledHasMatch(m);
      MatchIsAsserted(m);
    }
  }

  /** The positions of the layout as marshal fills them. */
  ghost function SlotValues(m: Message): seq<Value>
    requires Shaped(m)
  {
    if TrailingOptions(m.kind) then m.head
    else m.head[..OptionsAt(m.kind)] + [Dict(Options(m))] + m.head[OptionsAt(m.kind)..]
  }

  /** What marshal writes between the layout and the end. */
  ghost function Rest(m: Message): seq<Value> {
    (if TrailingOptions(m.kind) && Options(m) != map[] then [Dict(Options(m))] else []) + MarshalBody(m)
  }

  lemma {:induction false} SlotCount(m: Message)
    requires Shaped(m)
    ensures |SlotValues(m)| == |Layout(m.kind)|
  {
  }

  lemma {:induction false} MarshalSplits(m: Message)
    requires Shaped(m)
    ensures Marshal(m) == [Int(Code(m.kind))] + SlotValues(m) + Rest(m)
  {
  }

  lemma {:induction false} SplitWord(c: Value, slots: seq<Value>, rest: seq<Value>)
    ensures var w := [c] + slots + rest; w[0] == c && w[1..1 + |slots|] == slots && w[1 + |slots|..] == rest
  {
  }

  lemma {:induction false} HeadAround(c: Value, head: seq<Value>, p: nat, d: Value, rest: seq<Value>)
    requires p <= |head|
    ensures var w := [c] + (head[..p] + [d] + head[p..]) + rest;
            && |w| >= 2 + |head| && w[1 + p] == d
            && w[1..1 + p] + w[2 + p..2 + |head|] == head
  {
    var w := [c] + (head[..p] + [d] + head[p..]) + rest;
    assert w[1..1 + p] == head[..p] && w[2 + p..2 + |head|] == head[p..];
  }

  lemma {:induction false} RestIsShort(m: Message)
    ensures LengthOk(m.kind, 1 + |Layout(m.kind)| + |Rest(m)|)
    ensures HasPayload(m.kind) ==> Rest(m) == MarshalBody(m)
    ensures TrailingOptions(m.kind) && Rest(m) != [] ==> Rest(m) == [Dict(Options(m))]
    ensures TrailingOptions(m.kind) && Rest(m) == [] ==> Options(m) == map[]
  {
  }

  /** The raw list of a message, taken apart as parse does. */
  ghost predicate TakenApart(m: Message, w: seq<Value>)
    requires Shaped(m)
  {
    var k, base := m.kind, 1 + |Layout(m.kind)|;
    && |w| >= base && w[0] == Int(Code(k)) && LengthOk(k, |w|)
    && w[1..base] == SlotValues(m) && w[base..] == Rest(m)
    && OptionsOf(k, w) == Dict(Options(m))
    && (!TrailingOptions(k) ==> w[1..1 + OptionsAt(k)] + w[2 + OptionsAt(k)..base] == m.head)
  }

  lemma {:induction false} MarshalParts(m: Message)
    requires Shaped(m)
    ensures TakenApart(m, Marshal(m))
  {
    SlotCount(m);
    RestIsShort(m);
    MarshalSplits(m);
    SplitWord(Int(Code(m.kind)), SlotValues(m), Rest(m));
    if !TrailingOptions(m.kind) {
      HeadAround(Int(Code(m.kind)), m.head, OptionsAt(m.kind), Dict(Options(m)), Rest(m));
    }
  }

  /** Where the value of position i of the layout stands in the head. */
  ghost function HeadIndex(k: Kind, i: nat): int {
    if TrailingOptions(k) || i < OptionsAt(k) then i else i - 1
  }

  ghost predicate HoldsOptions(k: Kind, i: nat) {
    !TrailingOptions(k) && i == OptionsAt(k)
  }

  lemma {:induction false} HeadSlotAt(k: Kind, i: nat)
    requires i < |Layout(k)| && !HoldsOptions(k, i)
    ensures 0 <= HeadIndex(k, i) < |HeadSlots(k)|
    ensures HeadSlots(k)[HeadIndex(k, i)] == Layout(k)[i] && Layout(k)[i] != OptionsSlot
  {
  }

  lemma {:induction false} LayoutIndex(k: Kind, j: nat) returns (i: nat)
    requires j < |HeadSlots(k)|
    ensures i < |Layout(k)| && !HoldsOptions(k, i) && HeadIndex(k, i) == j
  {
    i := if TrailingOptions(k) || j < OptionsAt(k) then j else j + 1;
  }

  lemma {:induction false} SlotValueAt(m: Message, i: nat)
    requires Shaped(m) && i < |Layout(m.kind)|
    ensures i < |SlotValues(m)|
    ensures HoldsOptions(m.kind, i) ==> SlotValues(m)[i] == Dict(Options(m))
    ensures !HoldsOptions(m.kind, i) ==> 0 <= HeadIndex(m.kind, i) < |m.head| && SlotValues(m)[i] == m.head[HeadIndex(m.kind, i)]
  {
    SlotCount(m);
  }

  lemma OnlyRegisterLooksAtMatch(k: Kind, i: nat)
    requires i < |Layout(k)| && Layout(k)[i] == UriByMatchSlot
    ensures k == REGISTER
  {
  }

  /** A registered procedure is checked by the policy the message has, be it written or omitted. */
  lemma PolicyOfMarshal(m: Message, v: Value)
    requires Match in m.attrs && IsMatch(m.attrs[Match])
    ensures SlotError(UriByMatchSlot, v, Dict(Options(m))).None? <==> IsUri(v, ModeOf(m.attrs[Match]))
  {
    assert Name(Match) in Options(m) <==> m.attrs[Match] != Str(EXACT);
    var policy := if Name(Match) in Options(m) then Options(m)[Name(Match)] else Str(EXACT);
    assert policy == m.attrs[Match];
  }

  ghost predicate Passes(m: Message, i: nat)
    requires Shaped(m) && i < |Layout(m.kind)| && i < |SlotValues(m)|
  {
    SlotError(Layout(m.kind)[i], SlotValues(m)[i], Dict(Options(m))).None?
  }

  lemma {:induction false} PassesIfSends(m: Message, i: nat)
    requires Shaped(m) && i < |Layout(m.kind)| && i < |SlotValues(m)|
    ensures HoldsOptions(m.kind, i) ==> Passes(m, i)
    ensures !HoldsOptions(m.kind, i) ==> HeadIndex(m.kind, i) >= 0 && (Passes(m, i) <==> Sends(m, HeadIndex(m.kind, i)))
  {
    SlotValueAt(m, i);
    if HoldsOptions(m.kind, i) {
      OptionsAreStrDict(m);
    } else {
      HeadSlotAt(m.kind, i);
      if Layout(m.kind)[i] == UriByMatchSlot {
        OnlyRegisterLooksAtMatch(m.kind, i);
        PolicyOfMarshal(m, SlotValues(m)[i]);
      }
    }
  }

  lemma {:induction false} AllPassIfAllSend(m: Message)
    requires Shaped(m) && |SlotValues(m)| == |Layout(m.kind)|
    ensures (forall i: nat :: i < |Layout(m.kind)| ==> Passes(m, i)) <==> HeadSends(m)
  {
    forall i: nat | i < |Layout(m.kind)|
      ensures HoldsOptions(m.kind, i) ==> Passes(m, i)
      ensures !HoldsOptions(m.kind, i) ==> HeadIndex(m.kind, i) >= 0 && (Passes(m, i) <==> Sends(m, HeadIndex(m.kind, i)))
    {
      PassesIfSends(m, i);
    }
    forall j: nat | j < |m.head|
      ensures exists i: nat :: i < |Layout(m.kind)| && (Passes(m, i) <==> Sends(m, j))
    {
      var i := LayoutIndex(m.kind, j);
      assert Passes(m, i) <==> Sends(m, j);
    }
  }

  lemma {:induction false} SlotsOfMarshal(m: Message)
    requires Shaped(m) && |SlotValues(m)| == |Layout(m.kind)|
    ensures SlotsError(Layout(m.kind), SlotValues(m), Dict(Options(m))).None? <==> HeadSends(m)
  {
    SlotsErrorNone(Layout(m.kind), SlotValues(m), Dict(Options(m)));
    AllPassIfAllSend(m);
    forall i: nat | i < |Layout(m.kind)|
      ensures Passes(m, i) <==> SlotError(Layout(m.kind)[i], SlotValues(m)[i], Dict(Options(m))).None?
    {
    }
  }

  lemma {:induction false} ParseOfShaped(m: Message)
    requires Shaped(m)
    ensures if HeadSends(m) then Parse(m.kind, Marshal(m)) == ParseBody(m.kind, m.head, MarshalBody(m), Options(m))
            else Parse(m.kind, Marshal(m)).Err?
  {
    SlotCount(m);
    MarshalParts(m);
    SlotsOfMarshal(m);
    OptionsAreStrDict(m);
    RestIsShort(m);
    if !HasPayload(m.kind) {
      assert MarshalBody(m) == [];
    }
  }

  lemma {:induction false} ParseOfMarshal(m: Message)
    requires IsMessage(m)
    ensures if HeadSends(m) then Parse(m.kind, Marshal(m)) == ParseBody(m.kind, m.head, MarshalBody(m), Options(m))
            else Parse(m.kind, Marshal(m)).Err?
  {
    MessagesAreShaped(m);
    ParseOfShaped(m);
  }

  // ---------------------------------------------------------------- the optional fields

  ghost predicate FieldPasses(k: Kind, f: FieldName, options: map<Key, Value>) {
    Name(f) in options ==> FieldError(k, f, options[Name(f)]).None?
  }

  lemma {:induction false} FieldsErrorNone(k: Kind, fs: seq<FieldName>, options: map<Key, Value>)
    ensures FieldsError(k, fs, options).None? <==> forall f :: f in fs ==> FieldPasses(k, f, options)
  {
    if fs != [] {
      FieldsErrorNone(k, fs[1..], options);
      assert fs == [fs[0]] + fs[1..];
      assert forall f :: f in fs <==> f == fs[0] || f in fs[1..];
      assert FieldsError(k, fs, options).None? <==> FieldPasses(k, fs[0], options) && FieldsError(k, fs[1..], options).None?;
      assert fs[0] in fs;
    }
  }

  lemma OptionOf(m: Message, f: FieldName)
    ensures Name(f) in Options(m) <==> f in m.attrs && Written(m, f)
    ensures Name(f) in Options(m) ==> Options(m)[Name(f)] == m.attrs[f]
  {
  }

  /** What parse asks of a field beyond what the constructor asserts. */
  ghost predicate FieldSends(m: Message, f: FieldName) {
    f in m.attrs && Written(m, f) ==>
      && (f == Timeout ==> m.attrs[f].Int? && m.attrs[f].i >= 0)
      && (f == Reason ==> IsUri(m.attrs[f], U.NonEmpty))
      && (f == ForwardFor ==> m.attrs[f].List?)
  }

  lemma {:induction false} FieldPassesIfSends(m: Message, f: FieldName)
    requires f in m.attrs ==> AttributeOk(m.kind, f, m.attrs[f])
    ensures FieldPasses(m.kind, f, Options(m)) <==> FieldSends(m, f)
  {
    OptionOf(m, f);
  }

  lemma ThreeFieldsSend(m: Message)
    ensures AttributesSend(m) <==> FieldSends(m, Timeout) && FieldSends(m, Reason) && FieldSends(m, ForwardFor)
  {
  }

  lemma AttributesAreFields(m: Message, f: FieldName)
    requires AttributesAssert(m) && f in m.attrs && f !in ENC_FIELDS
    ensures f in Fields(m.kind)
  {
    assert f in AttributeNames(m.kind);
  }

  lemma {:induction false} AllFieldsSend(m: Message, fs: seq<FieldName>)
    requires Timeout in m.attrs ==> Timeout in fs
    requires Reason in m.attrs ==> Reason in fs
    requires ForwardFor in m.attrs ==> ForwardFor in fs
    ensures AttributesSend(m) <==> forall f :: f in fs ==> FieldSends(m, f)
  {
    ThreeFieldsSend(m);
  }

  lemma {:induction false} FieldsSendIn(m: Message, fs: seq<FieldName>)
    requires forall f :: f in m.attrs ==> AttributeOk(m.kind, f, m.attrs[f])
    ensures FieldsError(m.kind, fs, Options(m)).None? <==> forall f :: f in fs ==> FieldSends(m, f)
  {
    FieldsErrorNone(m.kind, fs, Options(m));
    forall f ensures FieldPasses(m.kind, f, Options(m)) <==> FieldSends(m, f) {
      FieldPassesIfSends(m, f);
    }
  }

  lemma {:induction false} FieldsOfMarshal(m: Message)
    requires AttributesAssert(m)
    ensures FieldsError(m.kind, Fields(m.kind), Options(m)).None? <==> AttributesSend(m)
  {
    if Timeout in m.attrs {
      AttributesAreFields(m, Timeout);
    }
    if Reason in m.attrs {
      AttributesAreFields(m, Reason);
    }
    if ForwardFor in m.attrs {
      AttributesAreFields(m, ForwardFor);
    }
    AllFieldsSend(m, Fields(m.kind));
    FieldsSendIn(m, Fields(m.kind));
  }

  // ---------------------------------------------------------------- the object that parse constructs

  /** The message as parse hands it to the constructor. */
  ghost function Unfilled(m: Message): Message {
    Normal(m).(attrs := map f | f in m.attrs && Written(m, f) :: m.attrs[f])
  }

  lemma {:induction false} PickOfMarshal(m: Message, names: set<FieldName>)
    requires AttributesAssert(m)
    requires names == (set f | f in Fields(m.kind)) + (if HasPayload(m.kind) && Truthy(m.payload) then ENC_FIELDS else {})
    ensures Pick(names, Options(m)) == Unfilled(m).attrs
  {
    forall f ensures f in Pick(names, Options(m)) <==> f in Unfilled(m).attrs {
      OptionOf(m, f);
    }
    forall f | f in Pick(names, Options(m)) ensures Pick(names, Options(m))[f] == Unfilled(m).attrs[f] {
      OptionOf(m, f);
    }
  }

  /** An attribute that marshal leaves out because the constructor fills it in. */
  ghost predicate IsDefault(f: FieldName, v: Value) {
    (f == Match && v == Str(EXACT)) || (f == Invoke && v == Str(SINGLE))
  }

  lemma {:induction false} WrittenOrDefault(m: Message, f: FieldName)
    requires f in m.attrs && AttributeOk(m.kind, f, m.attrs[f])
    ensures Written(m, f) || IsDefault(f, m.attrs[f]) <==> NormalAttribute(m, f)
  {
  }

  lemma {:induction false} WhoHasDefaults(k: Kind)
    ensures Match in AttributeNames(k) <==> k in {SUBSCRIBE, REGISTER}
    ensures Invoke in AttributeNames(k) <==> k == REGISTER
  {
  }

  lemma {:induction false} FilledAt(m: Message, f: FieldName)
    ensures f in Filled(m).attrs <==> f in m.attrs || (f == Match && m.kind in {SUBSCRIBE, REGISTER}) || (f == Invoke && m.kind == REGISTER)
    ensures f in m.attrs ==> Filled(m).attrs[f] == m.attrs[f]
    ensures f in Filled(m).attrs && f !in m.attrs ==> IsDefault(f, Filled(m).attrs[f])
  {
  }

  lemma {:induction false} FillingRestoresAt(m: Message, f: FieldName)
    requires Filled(m) == m && m.attrs.Keys <= AttributeNames(m.kind)
    requires f in m.attrs ==> (Written(m, f) || IsDefault(f, m.attrs[f]) <==> NormalAttribute(m, f))
    ensures f in Filled(Unfilled(m)).attrs <==> f in Normal(m).attrs
    ensures f in Normal(m).attrs ==> Filled(Unfilled(m)).attrs[f] == m.attrs[f]
  {
    WhoHasDefaults(m.kind);
    FilledAt(m, f);
    FilledAt(Unfilled(m), f);
  }

  lemma {:induction false} FillingRestores(m: Message)
    requires AttributesAssert(m) && Filled(m) == m
    ensures Filled(Unfilled(m)) == Normal(m)
  {
    forall f
      ensures f in Filled(Unfilled(m)).attrs <==> f in Normal(m).attrs
      ensures f in Normal(m).attrs ==> Filled(Unfilled(m)).attrs[f] == m.attrs[f]
    {
      if f in m.attrs {
        WrittenOrDefault(m, f);
      }
      FillingRestoresAt(m, f);
    }
    assert Filled(Unfilled(m)).attrs == Normal(m).attrs;
  }

  lemma {:induction false} UnfilledBody(m: Message)
    requires BodyAsserts(m)
    ensures BodyAsserts(Unfilled(m))
  {
  }

  lemma {:induction false} UnfilledAsserts(m: Message)
    requires Asserts(m)
    ensures Asserts(Unfilled(m))
  {
    UnfilledBody(m);
  }

  // ---------------------------------------------------------------- the payload

  ghost predicate BodyRead(m: Message, body: seq<Value>) {
    var isPayload := IsPayload(m.kind, body);
    && |body| <= 2
    && (isPayload <==> HasPayload(m.kind) && Truthy(m.payload))
    && (!isPayload && |body| > 0 ==> !ArgsError(m.kind, body[0]))
    && (!isPayload && |body| > 1 ==> !KwargsError(m.kind, body[1]))
    && Unfilled(m).args == (if !isPayload && |body| > 0 then body[0] else Null)
    && Unfilled(m).kwargs == (if !isPayload && |body| > 1 then body[1] else Null)
    && Unfilled(m).payload == (if isPayload then body[0] else Null)
  }

  lemma {:induction false} BodyOfMarshal(m: Message)
    requires BodyAsserts(m) && BodySends(m) && (m.kwargs.Null? || m.kwargs.Dict?)
    ensures BodyRead(m, MarshalBody(m))
  {
  }

  lemma {:induction false} NoEncError(m: Message)
    requires AttributesAssert(m)
    ensures !EncError(Options(m))
  {
    OptionOf(m, EncAlgo);
    OptionOf(m, EncKey);
    OptionOf(m, EncSerializer);
  }

  lemma {:induction false} ParseBodyOfMarshal(m: Message)
    requires IsMessage(m) && BodySends(m)
    ensures var r := ParseBody(m.kind, m.head, MarshalBody(m), Options(m));
            if AttributesSend(m) then r == Ok(Normal(m)) else r.Err?
  {
    BodyOfMarshal(m);
    NoEncError(m);
    FieldsOfMarshal(m);
    UnfilledAsserts(m);
    FillingRestores(m);
    PickOfMarshal(m, (set f | f in Fields(m.kind)) + (if HasPayload(m.kind) && Truthy(m.payload) then ENC_FIELDS else {}));
  }

  /** Arguments that are no list are refused, or come back as a payload. */
  lemma {:induction false} OtherArgumentsAreLost(m: Message, options: map<Key, Value>)
    requires BodyAsserts(m) && !BodySends(m)
    ensures var r := ParseBody(m.kind, m.head, MarshalBody(m), options); r.Err? || r.value.payload != Null
  {
  }

  // ---------------------------------------------------------------- the main results

  /** Parsing what marshal wrote gives the normal form of the message back, exactly if it can be sent. */
  lemma {:induction false} RoundTrip(m: Message)
    requires IsMessage(m)
    ensures Parse(m.kind, Marshal(m)) == Ok(Normal(m)) <==> Sendable(m)
  {
    ParseOfMarshal(m);
    if BodySends(m) {
      ParseBodyOfMarshal(m);
    } else {
      OtherArgumentsAreLost(m, Options(m));
    }
  }

  lemma {:induction false} NormalAttributesAssert(m: Message)
    requires AttributesAssert(m)
    ensures AttributesAssert(Normal(m)) && Normal(Normal(m)) == Normal(m)
  {
    assert Normal(Normal(m)).attrs == Normal(m).attrs;
  }

  lemma {:induction false} NormalBodyAsserts(m: Message)
    requires BodyAsserts(m)
    ensures BodyAsserts(Normal(m)) && MarshalBody(Normal(m)) == MarshalBody(m)
  {
  }

  lemma {:induction false} NormalIsFilled(m: Message)
    requires Filled(m) == m
    ensures Filled(Normal(m)) == Normal(m)
  {
    forall f ensures f in Filled(Normal(m)).attrs <==> f in Normal(m).attrs {
      FilledAt(m, f);
      FilledAt(Normal(m), f);
    }
    assert Filled(Normal(m)).attrs == Normal(m).attrs;
  }

  lemma {:induction false} NormalIsMessage(m: Message)
    requires IsMessage(m)
    ensures IsMessage(Normal(m))
  {
    NormalAttributesAssert(m);
    NormalBodyAsserts(m);
    NormalIsFilled(m);
  }

  lemma {:induction false} NormalWrites(m: Message, f: FieldName)
    ensures f in Normal(m).attrs && Written(Normal(m), f) <==> f in m.attrs && Written(m, f)
    ensures f in Normal(m).attrs ==> Normal(m).attrs[f] == m.attrs[f]
  {
  }

  lemma {:induction false} SameOptions(m: Message, n: Message)
    requires forall f :: f in m.attrs && Written(m, f) <==> f in n.attrs && Written(n, f)
    requires forall f :: f in m.attrs && f in n.attrs ==> m.attrs[f] == n.attrs[f]
    ensures Options(m) == Options(n)
  {
    assert forall f :: Name(f) in Options(m) <==> Name(f) in Options(n);
  }

  lemma {:induction false} NormalWritesTheSame(m: Message)
    ensures Options(Normal(m)) == Options(m)
  {
    forall f
      ensures f in Normal(m).attrs && Written(Normal(m), f) <==> f in m.attrs && Written(m, f)
      ensures f in Normal(m).attrs ==> Normal(m).attrs[f] == m.attrs[f]
    {
      NormalWrites(m, f);
    }
    SameOptions(Normal(m), m);
  }

  /** The normal form is a message that is marshalled to the same raw list. */
  lemma {:induction false} NormalMarshalsTheSame(m: Message)
    requires IsMessage(m)
    ensures IsMessage(Normal(m)) && OptionsAt(m.kind) <= |m.head| && Marshal(Normal(m)) == Marshal(m)
  {
    MessagesAreShaped(m);
    NormalIsMessage(m);
    NormalBodyAsserts(m);
    NormalWritesTheSame(m);
  }
}
