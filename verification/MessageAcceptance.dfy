/** Parse accepts exactly the raw lists that are messages, and makes of them what they say. */
module MessageAcceptance {
  import opened Values
  import opened Messages
  import opened MessageChecks
  import opened MessageGrammar
  import opened MessageTheorems
  import opened MessageReparse
  import opened MessageMethods
  import opened MessageClasses
  import opened MessageFields
  import opened W = Wrappers
  import F = MessageFormats
  import U = Uri

  // ---------------------------------------------------------------- positions

  lemma {:induction false} LengthsAgree(k: Kind, n: nat)
    ensures Length(k, n) <==> LengthOk(k, n)
    ensures TypeCode(k) == Code(k)
  {
  }

  lemma {:induction false} DictionariesAgree(k: Kind, w: seq<Value>)
    requires Length(k, |w|) && LengthOk(k, |w|)
    ensures Dictionary(k, w) == OptionsOf(k, w)
  {
  }

  lemma {:induction false} TailsAgree(k: Kind, w: seq<Value>)
    requires Length(k, |w|) && LengthOk(k, |w|)
    ensures Tail(k, w) == if HasPayload(k) then w[1 + |Layout(k)|..] else []
  {
  }

  lemma {:induction false} UriAgrees(v: Value, anyEmpty: bool, lastEmpty: bool)
    ensures UriIn(v, anyEmpty, lastEmpty) <==> IsUri(v, ModeFor(anyEmpty, lastEmpty))
  {
    if v.Str? {
      UriByRule(false, anyEmpty, lastEmpty, v.s);
    }
  }

  lemma {:induction false} HeadsAgree(k: Kind, w: seq<Value>)
    requires Length(k, |w|) && LengthOk(k, |w|)
    ensures Head(k, w) == HeadOf(k, w[1..1 + |Layout(k)|])
  {
    var slots := w[1..1 + |Layout(k)|];
    if k == ERROR {
      ErrorHead(w);
    } else if |Layout(k)| == 3 {
      HeadOfThree(w, k);
    } else if |Layout(k)| == 2 {
      HeadOfTwo(w, k);
    } else {
      assert slots == [w[1]];
    }
  }

  ghost predicate AllPass(k: Kind, w: seq<Value>)
    requires LengthOk(k, |w|)
  {
    forall j: nat :: j < |Layout(k)| ==> SlotPasses(k, w, j)
  }

  lemma {:induction false} AllPassOneByOne(k: Kind, w: seq<Value>)
    requires LengthOk(k, |w|)
    ensures 1 <= |Layout(k)| <= 4
    ensures AllPass(k, w) <==> && SlotPasses(k, w, 0)
                               && (1 < |Layout(k)| ==> SlotPasses(k, w, 1))
                               && (2 < |Layout(k)| ==> SlotPasses(k, w, 2))
                               && (3 < |Layout(k)| ==> SlotPasses(k, w, 3))
  {
  }

  lemma {:induction false} PassingIds(k: Kind, w: seq<Value>, j: nat)
    requires LengthOk(k, |w|) && j < |Layout(k)|
    ensures Layout(k)[j] == IdSlot ==> (SlotPasses(k, w, j) <==> Id(w[1 + j]))
    ensures Layout(k)[j] == OptionsSlot && IsStrDict(OptionsOf(k, w)) && w[1 + j] == OptionsOf(k, w) ==> SlotPasses(k, w, j)
  {
  }

  lemma {:induction false} PassingUris(k: Kind, w: seq<Value>, j: nat, anyEmpty: bool)
    requires LengthOk(k, |w|) && j < |Layout(k)| && Layout(k)[j] == UriSlot(ModeFor(anyEmpty, false))
    ensures SlotPasses(k, w, j) <==> UriIn(w[1 + j], anyEmpty, false)
  {
    UriAgrees(w[1 + j], anyEmpty, false);
  }

  lemma {:induction false} IdPositions(k: Kind, w: seq<Value>)
    requires Length(k, |w|) && LengthOk(k, |w|) && IsStrDict(OptionsOf(k, w))
    requires k !in {ERROR, PUBLISH, CALL, SUBSCRIBE, REGISTER}
    ensures Positions(k, w, OptionsOf(k, w).entries) <==> AllPass(k, w)
  {
    AllPassOneByOne(k, w);
    forall j: nat | j < |Layout(k)|
      ensures Layout(k)[j] == IdSlot ==> (SlotPasses(k, w, j) <==> Id(w[1 + j]))
      ensures Layout(k)[j] == OptionsSlot && IsStrDict(OptionsOf(k, w)) && w[1 + j] == OptionsOf(k, w) ==> SlotPasses(k, w, j)
    {
      PassingIds(k, w, j);
    }
  }

  lemma {:induction false} UriPositions(k: Kind, w: seq<Value>)
    requires Length(k, |w|) && LengthOk(k, |w|) && IsStrDict(OptionsOf(k, w))
    requires k == PUBLISH || k == CALL || k == SUBSCRIBE
    ensures Positions(k, w, OptionsOf(k, w).entries) <==> AllPass(k, w)
  {
    AllPassOneByOne(k, w);
    PassingIds(k, w, 0);
    PassingIds(k, w, 1);
    PassingUris(k, w, 2, k == SUBSCRIBE);
  }

  lemma {:induction false} ErrorPositions(w: seq<Value>)
    requires Length(ERROR, |w|) && LengthOk(ERROR, |w|) && IsStrDict(OptionsOf(ERROR, w))
    ensures Positions(ERROR, w, OptionsOf(ERROR, w).entries) <==> AllPass(ERROR, w)
  {
    AllPassOneByOne(ERROR, w);
    if w[1].Int? {
      RequestTypesByCode(w[1]);
    }
    PassingIds(ERROR, w, 1);
    PassingIds(ERROR, w, 2);
    PassingUris(ERROR, w, 3, false);
  }

  lemma {:induction false} RegisterPositions(w: seq<Value>)
    requires Length(REGISTER, |w|) && LengthOk(REGISTER, |w|) && IsStrDict(OptionsOf(REGISTER, w))
    ensures Positions(REGISTER, w, OptionsOf(REGISTER, w).entries) <==> AllPass(REGISTER, w)
  {
    AllPassOneByOne(REGISTER, w);
    PassingIds(REGISTER, w, 0);
    PassingIds(REGISTER, w, 1);
    var o := OptionsOf(REGISTER, w).entries;
    var policy := if Name(Match) in o then o[Name(Match)] else Str("exact");
    UriAgrees(w[3], policy == Str("wildcard"), policy == Str("prefix"));
  }

  lemma {:induction false} PositionsAgree(k: Kind, w: seq<Value>)
    requires Length(k, |w|) && LengthOk(k, |w|) && IsStrDict(OptionsOf(k, w))
    ensures Positions(k, w, OptionsOf(k, w).entries) <==>
            SlotsError(Layout(k), w[1..1 + |Layout(k)|], OptionsOf(k, w)).None?
  {
    if k == ERROR {
      ErrorPositions(w);
    } else if k == REGISTER {
      RegisterPositions(w);
    } else if k == PUBLISH || k == CALL || k == SUBSCRIBE {
      UriPositions(k, w);
    } else {
      IdPositions(k, w);
    }
    PassingIsNoError(k, w);
  }

  lemma {:induction false} PassingIsNoError(k: Kind, w: seq<Value>)
    requires LengthOk(k, |w|)
    ensures AllPass(k, w) <==> SlotsError(Layout(k), w[1..1 + |Layout(k)|], OptionsOf(k, w)).None?
  {
    var vs := w[1..1 + |Layout(k)|];
    SlotsErrorNone(Layout(k), vs, OptionsOf(k, w));
    if SlotsError(Layout(k), vs, OptionsOf(k, w)).None? {
      forall j: nat | j < |Layout(k)| ensures SlotPasses(k, w, j) {
        assert vs[j] == w[1 + j];
        assert SlotError(Layout(k)[j], vs[j], OptionsOf(k, w)).None?;
      }
    } else if AllPass(k, w) {
      AllSlotsPass(k, w);
    }
  }

  /** What passes at the positions is asserted of them. */
  lemma {:induction false} PositionsAreAsserted(k: Kind, w: seq<Value>, o: map<Key, Value>, m: Message)
    requires Length(k, |w|) && Positions(k, w, o) && m.kind == k && m.head == Head(k, w)
    ensures HeadAsserts(m)
  {
  }

  // ---------------------------------------------------------------- the optional fields

  lemma {:induction false} ErrorFields(f: FieldName)
    ensures f in Fields(ERROR) <==> FieldType(ERROR, f).Some?
  {
  }

  lemma {:induction false} CalleeFields(k: Kind, f: FieldName)
    requires k == RESULT || k == YIELD
    ensures f in Fields(k) <==> FieldType(k, f).Some?
  {
  }

  lemma {:induction false} CallFields(f: FieldName)
    ensures f in Fields(CALL) <==> FieldType(CALL, f).Some?
  {
  }

  lemma {:induction false} InvocationFields(f: FieldName)
    ensures f in Fields(INVOCATION) <==> FieldType(INVOCATION, f).Some?
  {
  }

  lemma {:induction false} PublishHasTypes(f: FieldName)
    requires f in Fields(PUBLISH)
    ensures FieldType(PUBLISH, f).Some?
  {
  }

  lemma {:induction false} PublishHasFields(f: FieldName)
    requires FieldType(PUBLISH, f).Some?
    ensures f in Fields(PUBLISH)
  {
  }

  lemma {:induction false} PublishFields(f: FieldName)
    ensures f in Fields(PUBLISH) <==> FieldType(PUBLISH, f).Some?
  {
    if f in Fields(PUBLISH) {
      PublishHasTypes(f);
    } else if FieldType(PUBLISH, f).Some? {
      PublishHasFields(f);
    }
  }

  lemma {:induction false} EventFields(f: FieldName)
    ensures f in Fields(EVENT) <==> FieldType(EVENT, f).Some?
  {
  }

  lemma {:induction false} RegisterFields(f: FieldName)
    ensures f in Fields(REGISTER) <==> FieldType(REGISTER, f).Some?
  {
  }

  lemma {:induction false} ModeFields(k: Kind, f: FieldName)
    requires k == CANCEL || k == INTERRUPT || k == SUBSCRIBE
    ensures f in Fields(k) <==> FieldType(k, f).Some?
  {
  }

  lemma {:induction false} UnFields(k: Kind, f: FieldName)
    requires TrailingOptions(k)
    ensures f in Fields(k) <==> FieldType(k, f).Some?
  {
  }

  lemma {:induction false} FieldsAgree(k: Kind, f: FieldName)
    ensures f in Fields(k) <==> FieldType(k, f).Some?
  {
    match k
    case ERROR => ErrorFields(f);
    case RESULT => CalleeFields(k, f);
    case YIELD => CalleeFields(k, f);
    case CALL => CallFields(f);
    case INVOCATION => InvocationFields(f);
    case PUBLISH => PublishFields(f);
    case EVENT => EventFields(f);
    case REGISTER => RegisterFields(f);
    case CANCEL => ModeFields(k, f);
    case INTERRUPT => ModeFields(k, f);
    case SUBSCRIBE => ModeFields(k, f);
    case _ => UnFields(k, f);
  }

  /** Which fields have a type. */
  ghost predicate IsNamed(t: Type, k: Kind, f: FieldName) {
    match t
    case ABool => f in BOOLS
    case AnInt => f in INTS
    case AStr => f in STRS
    case Ints => f == Exclude || f == Eligible
    case Strs => f == ExcludeAuthid || f == ExcludeAuthrole || f == EligibleAuthid || f == EligibleAuthrole
    case NotNegative => f == Timeout
    case Positive => f == Concurrency
    case LikeABool => f == ForceReregister
    case AUri => f == Reason
    case OneOf(names) => (f == Match && names == {"exact", "prefix", "wildcard"})
                      || (f == Invoke && names == {"single", "first", "last", "roundrobin", "random"})
                      || (f == Mode && k == CANCEL && names == {"skip", "kill", "killnowait"})
                      || (f == Mode && k != CANCEL && names == {"kill", "killnowait"})
    case Forwarders => f == ForwardFor && k != UNREGISTER
    case AList => f == ForwardFor && k == UNREGISTER
  }

  lemma {:induction false} CallTypesAreNamed(k: Kind, f: FieldName)
    requires (k == CALL || k == INVOCATION) && FieldType(k, f).Some?
    ensures IsNamed(FieldType(k, f).value, k, f)
  {
  }

  lemma {:induction false} CalleeTypesAreNamed(k: Kind, f: FieldName)
    requires (k == ERROR || k == RESULT || k == YIELD) && FieldType(k, f).Some?
    ensures IsNamed(FieldType(k, f).value, k, f)
  {
  }

  lemma {:induction false} RegisterTypesAreNamed(k: Kind, f: FieldName)
    requires (k == REGISTER || k == SUBSCRIBE) && FieldType(k, f).Some?
    ensures IsNamed(FieldType(k, f).value, k, f)
  {
  }

  lemma {:induction false} TopicTypesAreNamed(k: Kind, f: FieldName)
    requires (k == PUBLISH || k == EVENT) && FieldType(k, f).Some?
    ensures IsNamed(FieldType(k, f).value, k, f)
  {
  }

  lemma {:induction false} ModeTypesAreNamed(k: Kind, f: FieldName)
    requires (k == CANCEL || k == INTERRUPT) && FieldType(k, f).Some?
    ensures IsNamed(FieldType(k, f).value, k, f)
  {
  }

  lemma {:induction false} UnTypesAreNamed(k: Kind, f: FieldName)
    requires TrailingOptions(k) && FieldType(k, f).Some?
    ensures IsNamed(FieldType(k, f).value, k, f)
  {
  }

  lemma {:induction false} TypesAreNamed(k: Kind, f: FieldName)
    requires FieldType(k, f).Some?
    ensures IsNamed(FieldType(k, f).value, k, f)
  {
    if k == PUBLISH || k == EVENT {
      TopicTypesAreNamed(k, f);
    } else if k == CALL || k == INVOCATION {
      CallTypesAreNamed(k, f);
    } else if k == ERROR || k == RESULT || k == YIELD {
      CalleeTypesAreNamed(k, f);
    } else if k == REGISTER || k == SUBSCRIBE {
      RegisterTypesAreNamed(k, f);
    } else if k == CANCEL || k == INTERRUPT {
      ModeTypesAreNamed(k, f);
    } else {
      UnTypesAreNamed(k, f);
    }
  }

  /** Parse lets a value pass and the constructor asserts it. */
  ghost predicate Acceptable(k: Kind, f: FieldName, v: Value) {
    FieldError(k, f, v).None? && (v.Null? || AttributeOk(k, f, v))
  }

  /** Apart from three fields the two look for the same. */
  lemma {:induction false} AcceptableIfAsserted(k: Kind, f: FieldName, v: Value)
    requires f != ForwardFor && f != Reason && f != Timeout
    ensures Acceptable(k, f, v) <==> AttributeOk(k, f, v)
  {
  }

  lemma {:induction false} BoolTypes(k: Kind, f: FieldName, v: Value)
    requires f in BOOLS
    ensures Acceptable(k, f, v) <==> v.Bool?
  {
    AcceptableIfAsserted(k, f, v);
  }

  lemma {:induction false} IntTypes(k: Kind, f: FieldName, v: Value)
    requires f in INTS
    ensures Acceptable(k, f, v) <==> v.Int?
  {
    AcceptableIfAsserted(k, f, v);
  }

  lemma {:induction false} StrTypes(k: Kind, f: FieldName, v: Value)
    requires f in STRS
    ensures Acceptable(k, f, v) <==> v.Str?
  {
    AcceptableIfAsserted(k, f, v);
  }

  lemma {:induction false} IntsTypes(k: Kind, f: FieldName, v: Value)
    requires f == Exclude || f == Eligible
    ensures Acceptable(k, f, v) <==> Fits(Ints, v)
  {
    AcceptableIfAsserted(k, f, v);
  }

  lemma {:induction false} StrsTypes(k: Kind, f: FieldName, v: Value)
    requires f == ExcludeAuthid || f == ExcludeAuthrole || f == EligibleAuthid || f == EligibleAuthrole
    ensures Acceptable(k, f, v) <==> Fits(Strs, v)
  {
    AcceptableIfAsserted(k, f, v);
  }

  lemma {:induction false} TimeoutType(k: Kind, v: Value)
    ensures Acceptable(k, Timeout, v) <==> Fits(NotNegative, v)
  {
  }

  lemma {:induction false} ConcurrencyType(k: Kind, v: Value)
    ensures Acceptable(k, Concurrency, v) <==> Fits(Positive, v)
  {
    AcceptableIfAsserted(k, Concurrency, v);
  }

  lemma {:induction false} ForceReregisterType(k: Kind, v: Value)
    ensures Acceptable(k, ForceReregister, v) <==> Fits(LikeABool, v)
  {
    AcceptableIfAsserted(k, ForceReregister, v);
  }

  lemma {:induction false} UriWithoutEmpty(v: Value)
    ensures UriIn(v, false, false) <==> IsUri(v, U.NonEmpty)
  {
    UriAgrees(v, false, false);
  }

  lemma {:induction false} ReasonType(k: Kind, f: FieldName, t: Type, v: Value)
    requires f == Reason && t == AUri
    ensures Acceptable(k, f, v) <==> Fits(t, v)
  {
    UriWithoutEmpty(v);
    if IsUri(v, U.NonEmpty) {
      assert Fits(t, v);
      assert Acceptable(k, f, v);
    } else {
      assert !Fits(t, v);
      assert !Acceptable(k, f, v);
    }
  }

  lemma {:induction false} MatchType(k: Kind, v: Value)
    ensures Acceptable(k, Match, v) <==> Fits(OneOf({"exact", "prefix", "wildcard"}), v)
  {
    AcceptableIfAsserted(k, Match, v);
  }

  lemma {:induction false} InvokeType(k: Kind, v: Value)
    ensures Acceptable(k, Invoke, v) <==> Fits(OneOf({"single", "first", "last", "roundrobin", "random"}), v)
  {
    AcceptableIfAsserted(k, Invoke, v);
  }

  lemma {:induction false} ModeType(k: Kind, v: Value)
    ensures Acceptable(k, Mode, v) <==>
            Fits(OneOf(if k == CANCEL then {"skip", "kill", "killnowait"} else {"kill", "killnowait"}), v)
  {
    AcceptableIfAsserted(k, Mode, v);
  }

  lemma {:induction false} ForwarderTypes(k: Kind, v: Value)
    ensures k != UNREGISTER ==> (Acceptable(k, ForwardFor, v) <==> Fits(Forwarders, v))
    ensures k == UNREGISTER ==> (Acceptable(k, ForwardFor, v) <==> Fits(AList, v))
  {
    assert forall e :: Forwarder(e) <==> IsForwarder(e);
  }

  /** A value is of the documented type exactly if it is acceptable. */
  lemma {:induction false} TypesAgree(k: Kind, f: FieldName, v: Value)
    requires FieldType(k, f).Some?
    ensures Acceptable(k, f, v) <==> Fits(FieldType(k, f).value, v)
  {
    TypesAreNamed(k, f);
    NamedTypesAgree(FieldType(k, f).value, k, f, v);
  }

  lemma {:induction false} OtherTypesAgree(t: Type, k: Kind, f: FieldName, v: Value)
    requires IsNamed(t, k, f) && !t.ABool? && !t.AnInt? && !t.AStr? && !t.OneOf?
    ensures Acceptable(k, f, v) <==> Fits(t, v)
  {
    match t
    case Ints => IntsTypes(k, f, v);
    case Strs => StrsTypes(k, f, v);
    case NotNegative => TimeoutType(k, v);
    case Positive => ConcurrencyType(k, v);
    case LikeABool => ForceReregisterType(k, v);
    case AUri => ReasonType(k, f, t, v);
    case Forwarders => ForwarderTypes(k, v);
    case AList => ForwarderTypes(k, v);
  }

  lemma {:induction false} ChoicesAgree(names: set<string>, k: Kind, f: FieldName, v: Value)
    requires IsNamed(OneOf(names), k, f)
    ensures Acceptable(k, f, v) <==> Fits(OneOf(names), v)
  {
    MatchType(k, v);
    InvokeType(k, v);
    ModeType(k, v);
  }

  lemma {:induction false} NamedTypesAgree(t: Type, k: Kind, f: FieldName, v: Value)
    requires IsNamed(t, k, f)
    ensures Acceptable(k, f, v) <==> Fits(t, v)
  {
    match t
    case ABool => BoolTypes(k, f, v);
    case AnInt => IntTypes(k, f, v);
    case AStr => StrTypes(k, f, v);
    case OneOf(names) => ChoicesAgree(names, k, f, v);
    case _ => OtherTypesAgree(t, k, f, v);
  }

  ghost predicate AllAcceptable(k: Kind, fs: seq<FieldName>, o: map<Key, Value>) {
    forall f :: f in fs && Name(f) in o ==> Acceptable(k, f, o[Name(f)])
  }

  lemma {:induction false} FieldsFitIfAcceptable(k: Kind, fs: seq<FieldName>, o: map<Key, Value>)
    requires fs == Fields(k)
    ensures FieldsFit(k, o) <==> AllAcceptable(k, fs, o)
  {
    forall f | Name(f) in o
      ensures f in fs <==> FieldType(k, f).Some?
      ensures f in fs ==> (Acceptable(k, f, o[Name(f)]) <==> Fits(FieldType(k, f).value, o[Name(f)]))
    {
      FieldsAgree(k, f);
      if f in fs {
        TypesAgree(k, f, o[Name(f)]);
      }
    }
  }

  /** The encryption fields that a message has are asserted. */
  ghost predicate EncAsserted(m: Message) {
    forall f :: f in ENC_FIELDS && f in m.attrs ==> AttributeOk(m.kind, f, m.attrs[f])
  }

  lemma {:induction false} EncIsNoField(k: Kind, f: FieldName)
    requires f in ENC_FIELDS
    ensures FieldType(k, f).None?
  {
  }

  lemma {:induction false} PassedAndAsserted(m: Message, fs: seq<FieldName>, names: set<FieldName>, o: map<Key, Value>)
    requires m.attrs == Pick((set f | f in fs) + names, o)
    requires (forall f :: f in fs ==> FieldPasses(m.kind, f, o)) && AttributesAssert(m)
    ensures AllAcceptable(m.kind, fs, o) && EncAsserted(m)
  {
    forall f | f in fs && Name(f) in o ensures Acceptable(m.kind, f, o[Name(f)]) {
      assert FieldPasses(m.kind, f, o);
      assert !o[Name(f)].Null? ==> f in m.attrs && m.attrs[f] == o[Name(f)];
    }
  }

  lemma {:induction false} AcceptableIsPassed(k: Kind, fs: seq<FieldName>, o: map<Key, Value>)
    requires AllAcceptable(k, fs, o)
    ensures forall f :: f in fs ==> FieldPasses(k, f, o)
  {
    forall f | f in fs ensures FieldPasses(k, f, o) {
      assert Name(f) in o ==> Acceptable(k, f, o[Name(f)]);
    }
  }

  lemma {:induction false} AcceptableIsAsserted(m: Message, fs: seq<FieldName>, names: set<FieldName>, o: map<Key, Value>)
    requires fs == Fields(m.kind) && m.attrs == Pick((set f | f in fs) + names, o)
    requires names <= if HasPayload(m.kind) then ENC_FIELDS else {}
    requires AllAcceptable(m.kind, fs, o) && EncAsserted(m)
    ensures AttributesAssert(m)
  {
    forall f | f in m.attrs
      ensures f in AttributeNames(m.kind) && !m.attrs[f].Null? && AttributeOk(m.kind, f, m.attrs[f])
    {
      assert m.attrs[f] == Get(o, f);
      assert f in fs ==> Acceptable(m.kind, f, o[Name(f)]);
    }
  }

  /** What parse lets pass and the constructor asserts of the attributes. */
  lemma {:induction false} AttributesAgree(m: Message, fs: seq<FieldName>, names: set<FieldName>, o: map<Key, Value>)
    requires fs == Fields(m.kind) && m.attrs == Pick((set f | f in fs) + names, o)
    requires names <= if HasPayload(m.kind) then ENC_FIELDS else {}
    ensures FieldsError(m.kind, fs, o).None? && AttributesAssert(m) <==> FieldsFit(m.kind, o) && EncAsserted(m)
  {
    FieldsErrorNone(m.kind, fs, o);
    FieldsFitIfAcceptable(m.kind, fs, o);
    if FieldsError(m.kind, fs, o).None? && AttributesAssert(m) {
      PassedAndAsserted(m, fs, names, o);
    } else if AllAcceptable(m.kind, fs, o) && EncAsserted(m) {
      AcceptableIsPassed(m.kind, fs, o);
      AcceptableIsAsserted(m, fs, names, o);
    }
  }

  // ---------------------------------------------------------------- payloads

  lemma {:induction false} EncTypes(k: Kind, v: Value)
    ensures IsEncAlgo(v) <==> Algorithm(v)
    ensures IsEncSerializer(v) <==> Serializer(v)
    ensures AttributeOk(k, EncAlgo, v) <==> Algorithm(v)
    ensures AttributeOk(k, EncSerializer, v) <==> Serializer(v)
    ensures AttributeOk(k, EncKey, v) <==> v.Str?
  {
    if v.Str? {
      CustomLineByRule(v.s);
    }
  }

  lemma {:induction false} EncryptionAgrees(k: Kind, tail: seq<Value>, o: map<Key, Value>, m: Message)
    requires Opaque(k, tail) && m.kind == k
    requires forall f :: f in ENC_FIELDS ==> HoldsAttribute(m.attrs, f, Entry(o, f))
    ensures !EncError(o) && EncAsserted(m) && (m.attrs.Keys !! ENC_FIELDS || EncAlgo in m.attrs) <==> Encryption(o)
  {
    EncTypes(k, Entry(o, EncAlgo));
    EncTypes(k, Entry(o, EncSerializer));
    EncTypes(k, Entry(o, EncKey));
    assert HoldsAttribute(m.attrs, EncAlgo, Entry(o, EncAlgo));
    assert HoldsAttribute(m.attrs, EncKey, Entry(o, EncKey));
    assert HoldsAttribute(m.attrs, EncSerializer, Entry(o, EncSerializer));
  }

  lemma {:induction false} TailAgrees(k: Kind, tail: seq<Value>, o: map<Key, Value>, m: Message)
    requires |tail| <= 2 && (HasPayload(k) || tail == []) && m.kind == k && HoldsTail(k, tail, m)
    requires forall f :: f in ENC_FIELDS ==> HoldsAttribute(m.attrs, f, if Opaque(k, tail) then Entry(o, f) else Null)
    ensures !BodyRejected(k, tail, o) && BodyAsserts(m) && EncAsserted(m) && (m.kwargs.Null? || IsStrDict(m.kwargs))
            <==> Carries(k, tail, o)
  {
    if Opaque(k, tail) {
      EncryptionAgrees(k, tail, o, m);
    } else {
      assert forall f :: f in ENC_FIELDS ==> HoldsAttribute(m.attrs, f, Null) && f !in m.attrs;
    }
  }

  // ---------------------------------------------------------------- the object

  /** What parse picks from the dictionary for an attribute. */
  ghost function Picked(k: Kind, tail: seq<Value>, o: map<Key, Value>, f: FieldName): Value {
    if FieldType(k, f).Some? || (Opaque(k, tail) && f in ENC_FIELDS) then Entry(o, f) else Null
  }

  lemma {:induction false} MadeHolds(k: Kind, head: seq<Value>, tail: seq<Value>, o: map<Key, Value>, f: FieldName)
    ensures HoldsAttribute(Made(k, head, tail, o).attrs, f, Picked(k, tail, o, f))
  {
    FieldsAgree(k, f);
    assert Get(o, f) == Entry(o, f);
  }

  lemma {:induction false} MadeHoldsEnc(k: Kind, head: seq<Value>, tail: seq<Value>, o: map<Key, Value>, f: FieldName)
    requires f in ENC_FIELDS
    ensures HoldsAttribute(Made(k, head, tail, o).attrs, f, if Opaque(k, tail) then Entry(o, f) else Null)
  {
    EncIsNoField(k, f);
    MadeHolds(k, head, tail, o, f);
  }

  lemma {:induction false} RevocationAgrees(k: Kind, w: seq<Value>, o: map<Key, Value>, m: Message)
    requires Length(k, |w|) && m.kind == k && m.head == Head(k, w)
    requires k == UNSUBSCRIBED ==> HoldsAttribute(m.attrs, Subscription, Entry(o, Subscription))
    requires k == UNREGISTERED ==> HoldsAttribute(m.attrs, Registration, Entry(o, Registration))
    ensures RevocationAsserts(m) <==> Revokes(k, w, o)
  {
  }

  lemma {:induction false} ConstructsIf(k: Kind, w: seq<Value>, o: map<Key, Value>, m: Message)
    requires Length(k, |w|) && Positions(k, w, o) && (HasPayload(k) || Tail(k, w) == [])
    requires m == Made(k, Head(k, w), Tail(k, w), o)
    ensures !BodyRejected(k, Tail(k, w), o) && FieldsError(k, Fields(k), o).None? && Construct(m).Ok?
            <==> Carries(k, Tail(k, w), o) && FieldsFit(k, o) && Revokes(k, w, o)
  {
    PositionsAreAsserted(k, w, o, m);
    AttributesAgree(m, Fields(k), if IsPayload(k, Tail(k, w)) then ENC_FIELDS else {}, o);
    forall f | f in ENC_FIELDS
      ensures HoldsAttribute(m.attrs, f, if Opaque(k, Tail(k, w)) then Entry(o, f) else Null)
    {
      MadeHoldsEnc(k, Head(k, w), Tail(k, w), o, f);
    }
    TailAgrees(k, Tail(k, w), o, m);
    MadeHolds(k, Head(k, w), Tail(k, w), o, Subscription);
    MadeHolds(k, Head(k, w), Tail(k, w), o, Registration);
    RevocationAgrees(k, w, o, m);
  }

  lemma {:induction false} ParsesIf(k: Kind, head: seq<Value>, tail: seq<Value>, o: map<Key, Value>)
    requires |tail| <= 2
    ensures ParseBody(k, head, tail, o).Ok? <==>
            !BodyRejected(k, tail, o) && FieldsError(k, Fields(k), o).None? && Construct(Made(k, head, tail, o)).Ok?
    ensures ParseBody(k, head, tail, o).Ok? ==> ParseBody(k, head, tail, o) == Ok(Filled(Made(k, head, tail, o)))
  {
  }

  lemma {:induction false} DefaultedFields(k: Kind)
    ensures FieldType(k, Match).Some? <==> k == SUBSCRIBE || k == REGISTER
    ensures FieldType(k, Invoke).Some? <==> k == REGISTER
  {
  }

  lemma {:induction false} FilledHolds(made: Message, tail: seq<Value>, o: map<Key, Value>, f: FieldName)
    requires FieldsFit(made.kind, o) && HoldsAttribute(made.attrs, f, Picked(made.kind, tail, o, f))
    ensures HoldsAttribute(Filled(made).attrs, f, Attribute(made.kind, tail, o, f))
  {
    if f == Match || f == Invoke {
      DefaultHolds(made, tail, o, f);
    } else {
      FilledAt(made, f);
      AttributeIsPicked(made.kind, tail, o, f);
    }
  }

  lemma {:induction false} AttributeIsPicked(k: Kind, tail: seq<Value>, o: map<Key, Value>, f: FieldName)
    requires f != Match && f != Invoke
    ensures Attribute(k, tail, o, f) == Picked(k, tail, o, f)
  {
    if f in ENC_FIELDS {
      EncIsNoField(k, f);
    }
  }

  lemma {:induction false} DefaultHolds(made: Message, tail: seq<Value>, o: map<Key, Value>, f: FieldName)
    requires FieldsFit(made.kind, o) && HoldsAttribute(made.attrs, f, Picked(made.kind, tail, o, f))
    requires f == Match || f == Invoke
    ensures HoldsAttribute(Filled(made).attrs, f, Attribute(made.kind, tail, o, f))
  {
    FilledAt(made, f);
    DefaultedFields(made.kind);
    if FieldType(made.kind, f).Some? && Name(f) in o {
      assert Fits(FieldType(made.kind, f).value, o[Name(f)]);
      TypesAreNamed(made.kind, f);
    }
  }

  /** There is only one object that holds what a raw list says. */
  lemma {:induction false} HoldsOnce(k: Kind, w: seq<Value>, m: Message, n: Message)
    requires IsRaw(k, w) && HoldsRaw(k, w, m) && HoldsRaw(k, w, n)
    ensures m == n
  {
    var tail, o := Tail(k, w), Dictionary(k, w).entries;
    forall f ensures f in m.attrs <==> f in n.attrs
             ensures f in m.attrs ==> m.attrs[f] == n.attrs[f]
    {
      assert HoldsAttribute(m.attrs, f, Attribute(k, tail, o, f)) && HoldsAttribute(n.attrs, f, Attribute(k, tail, o, f));
    }
    assert m.attrs == n.attrs;
  }

  lemma {:induction false} MadeHoldsRaw(k: Kind, w: seq<Value>, o: map<Key, Value>)
    requires IsRaw(k, w) && o == Dictionary(k, w).entries
    ensures HoldsRaw(k, w, Filled(Made(k, Head(k, w), Tail(k, w), o)))
  {
    forall f ensures HoldsAttribute(Filled(Made(k, Head(k, w), Tail(k, w), o)).attrs, f, Attribute(k, Tail(k, w), o, f)) {
      MadeHolds(k, Head(k, w), Tail(k, w), o, f);
      FilledHolds(Made(k, Head(k, w), Tail(k, w), o), Tail(k, w), o, f);
    }
  }

  lemma {:induction false} ParseTakesApart(k: Kind, w: seq<Value>)
    requires LengthOk(k, |w|) && w[0] == Int(Code(k))
    ensures var slots, options := w[1..1 + |Layout(k)|], OptionsOf(k, w);
            && |if HasPayload(k) then w[1 + |Layout(k)|..] else []| <= 2
            && if SlotsError(Layout(k), slots, options).None? && IsStrDict(options)
               then Parse(k, w) == ParseBody(k, HeadOf(k, slots), if HasPayload(k) then w[1 + |Layout(k)|..] else [], options.entries)
               else Parse(k, w).Err?
  {
    HeadOfWord(k, w);
  }

  lemma {:induction false} ParsesTail(k: Kind, w: seq<Value>)
    requires Length(k, |w|) && w[0] == Int(TypeCode(k))
    ensures HasPayload(k) || Tail(k, w) == []
    ensures if IsStrDict(Dictionary(k, w)) && Positions(k, w, Dictionary(k, w).entries)
            then Parse(k, w) == ParseBody(k, Head(k, w), Tail(k, w), Dictionary(k, w).entries)
            else Parse(k, w).Err?
  {
    LengthsAgree(k, |w|);
    DictionariesAgree(k, w);
    TailsAgree(k, w);
    HeadsAgree(k, w);
    ParseTakesApart(k, w);
    if IsStrDict(OptionsOf(k, w)) {
      PositionsAgree(k, w);
    }
  }

  lemma {:induction false} ParsesRaw(k: Kind, w: seq<Value>, o: map<Key, Value>)
    requires Length(k, |w|) && w[0] == Int(TypeCode(k)) && Dictionary(k, w) == Dict(o)
    ensures Parse(k, w).Ok? <==> IsRaw(k, w)
    ensures Parse(k, w).Ok? ==> Parse(k, w) == Ok(Filled(Made(k, Head(k, w), Tail(k, w), o)))
  {
    ParsesTail(k, w);
    if IsStrDict(Dictionary(k, w)) && Positions(k, w, o) {
      ParsesIf(k, Head(k, w), Tail(k, w), o);
      ConstructsIf(k, w, o, Made(k, Head(k, w), Tail(k, w), o));
    }
  }

  lemma {:induction false} OtherwiseFails(k: Kind, w: seq<Value>)
    requires !Length(k, |w|) || w[0] != Int(TypeCode(k)) || !Dictionary(k, w).Dict?
    ensures Parse(k, w).Err?
  {
    LengthsAgree(k, |w|);
    if Length(k, |w|) && w[0] == Int(TypeCode(k)) {
      ParsesTail(k, w);
    }
  }

  /**
   * Parse succeeds exactly for the raw lists that are messages of the class, and gives the
   * one object that holds what they say.
   */
  lemma {:induction false} ParsesAsDocumented(k: Kind, w: seq<Value>, m: Message)
    ensures Parse(k, w) == Ok(m) <==> IsRaw(k, w) && HoldsRaw(k, w, m)
  {
    if !Length(k, |w|) || w[0] != Int(TypeCode(k)) || !Dictionary(k, w).Dict? {
      OtherwiseFails(k, w);
    } else {
      var o := Dictionary(k, w).entries;
      ParsesRaw(k, w, o);
      if IsRaw(k, w) {
        MadeHoldsRaw(k, w, o);
        if HoldsRaw(k, w, m) {
          HoldsOnce(k, w, m, Filled(Made(k, Head(k, w), Tail(k, w), o)));
        }
      }
    }
  }

  // ---------------------------------------------------------------- marshal

  lemma {:induction false} ConcurrencyIsPositive(m: Message)
    requires AttributesAssert(m) && Concurrency in m.attrs
    ensures Truthy(m.attrs[Concurrency])
  {
    assert AttributeOk(m.kind, Concurrency, m.attrs[Concurrency]);
    ConcurrencyType(m.kind, m.attrs[Concurrency]);
    AcceptableIfAsserted(m.kind, Concurrency, m.attrs[Concurrency]);
  }

  lemma {:induction false} WrittenIf(m: Message, f: FieldName)
    requires f in m.attrs && (f == Concurrency ==> Truthy(m.attrs[f]))
    ensures Written(m, f) <==> IsWritten(m, f)
  {
  }

  lemma {:induction false} WrittenAsDocumented(m: Message, f: FieldName)
    requires AttributesAssert(m)
    ensures f in m.attrs && Written(m, f) <==> IsWritten(m, f)
  {
    if f in m.attrs {
      if f == Concurrency {
        ConcurrencyIsPositive(m);
      }
      WrittenIf(m, f);
    }
  }

  lemma {:induction false} OptionsHoldEntries(m: Message)
    requires AttributesAssert(m)
    ensures HoldsEntries(Options(m), m)
  {
    forall f ensures HoldsEntry(Options(m), m, f) {
      WrittenAsDocumented(m, f);
      OptionOf(m, f);
    }
  }

  lemma {:induction false} BodyAsDocumented(m: Message)
    requires BodyAsserts(m)
    ensures MarshalBody(m) == Behind(m) && (|MarshalBody(m)| == 0 || HasPayload(m.kind)) && |MarshalBody(m)| <= 2
  {
  }

  lemma {:induction false} TakenApartAgain(m: Message, w: seq<Value>)
    requires Shaped(m) && w == F.Documented(m) + MarshalBody(m)
    requires (|MarshalBody(m)| == 0 || HasPayload(m.kind)) && |MarshalBody(m)| <= 2
    ensures Length(m.kind, |w|) && w[0] == Int(TypeCode(m.kind))
    ensures Head(m.kind, w) == m.head && Tail(m.kind, w) == MarshalBody(m) && Dictionary(m.kind, w) == Dict(Options(m))
  {
    F.HeadCount(m);
  }

  /** Marshal writes a list that holds all that the object says, and nothing else. */
  lemma {:induction false} MarshalHoldsMessage(m: Message)
    requires IsMessage(m)
    ensures Shaped(m) && HoldsMessage(Marshal(m), m)
  {
    MessagesAreShaped(m);
    F.MarshalsAsDocumented(m);
    BodyAsDocumented(m);
    OptionsHoldEntries(m);
    TakenApartAgain(m, Marshal(m));
  }

  // ---------------------------------------------------------------- setting an attribute

  /** The constructor asserts less than parse only of three fields. */
  lemma {:induction false} AssertedAsDocumented(k: Kind, f: FieldName, v: Value)
    requires FieldType(k, f).Some?
    ensures f == Timeout ==> (AttributeOk(k, f, v) <==> v.Int?)
    ensures f == Reason ==> (AttributeOk(k, f, v) <==> v.Str?)
    ensures f == ForwardFor && k != UNREGISTER && k != UNSUBSCRIBE ==> (AttributeOk(k, f, v) <==> Fits(Forwarders, v))
    ensures f != Timeout && f != Reason && f != ForwardFor ==> (AttributeOk(k, f, v) <==> Fits(FieldType(k, f).value, v))
  {
    if f == ForwardFor {
      ForwarderTypes(k, v);
    } else if f != Timeout && f != Reason {
      AcceptableIfAsserted(k, f, v);
      TypesAgree(k, f, v);
    }
  }

  ghost function Set(m: Message, f: FieldName, v: Value): Message {
    m.(attrs := m.attrs[f := v])
  }

  /** Any optional field of the class may be set to any value of its type, unless it names what is revoked. */
  lemma {:induction false} FieldsMayBeSet(m: Message, f: FieldName, v: Value)
    requires IsMessage(m) && FieldType(m.kind, f).Some? && Fits(FieldType(m.kind, f).value, v) && !v.Null?
    requires f != Subscription && f != Registration
    ensures IsMessage(Set(m, f, v))
    ensures Shaped(Set(m, f, v)) && HoldsMessage(Marshal(Set(m, f, v)), Set(m, f, v))
  {
    var n := Set(m, f, v);
    FieldsAgree(m.kind, f);
    TypesAgree(m.kind, f, v);
    SetAttributesAssert(m, f, v);
    SetBodyAsserts(m, f, v);
    SetIsFilled(m, f, v);
    MarshalHoldsMessage(n);
  }

  lemma {:induction false} SetBodyAsserts(m: Message, f: FieldName, v: Value)
    requires BodyAsserts(m) && RevocationAsserts(m) && FieldType(m.kind, f).Some? && f != Subscription && f != Registration
    ensures BodyAsserts(Set(m, f, v)) && RevocationAsserts(Set(m, f, v))
  {
    if f in ENC_FIELDS {
      EncIsNoField(m.kind, f);
    }
    assert Set(m, f, v).attrs.Keys * ENC_FIELDS == m.attrs.Keys * ENC_FIELDS;
  }

  lemma {:induction false} SetAttributesAssert(m: Message, f: FieldName, v: Value)
    requires AttributesAssert(m) && f in Fields(m.kind) && Acceptable(m.kind, f, v) && !v.Null?
    ensures AttributesAssert(Set(m, f, v))
  {
  }

  lemma {:induction false} FilledHasDefaults(m: Message)
    requires Filled(m) == m
    ensures m.kind == SUBSCRIBE || m.kind == REGISTER ==> Match in m.attrs
    ensures m.kind == REGISTER ==> Invoke in m.attrs
  {
    FilledAt(m, Match);
    FilledAt(m, Invoke);
  }

  lemma {:induction false} SetIsFilled(m: Message, f: FieldName, v: Value)
    requires Filled(m) == m
    ensures Filled(Set(m, f, v)) == Set(m, f, v)
  {
    FilledHasDefaults(m);
  }

  // ---------------------------------------------------------------- acknowledged publications

  /** Parse keeps the option acknowledge as it is, and refuses any that is not a boolean. */
  lemma {:induction false} AcknowledgeIsParsed(w: seq<Value>, m: Message)
    requires Parse(PUBLISH, w) == Ok(m)
    ensures |w| >= 4 && w[2].Dict?
    ensures Acknowledge in m.attrs <==> Name(Acknowledge) in w[2].entries
    ensures Acknowledge in m.attrs ==> m.attrs[Acknowledge] == w[2].entries[Name(Acknowledge)] && m.attrs[Acknowledge].Bool?
  {
    ParsesAsDocumented(PUBLISH, w, m);
    var o := w[2].entries;
    assert FieldType(PUBLISH, Acknowledge) == Some(ABool);
    assert HoldsAttribute(m.attrs, Acknowledge, Attribute(PUBLISH, Tail(PUBLISH, w), o, Acknowledge));
    assert Name(Acknowledge) in o ==> Fits(ABool, o[Name(Acknowledge)]);
  }

  /** A publication may ask for an acknowledgement, says so in its dictionary, and is received as one that asks. */
  lemma {:induction false} AcknowledgeArrives(m: Message)
    requires IsMessage(m) && m.kind == PUBLISH
    ensures var n := Set(m, Acknowledge, Bool(true));
            && IsMessage(n) && Shaped(n)
            && |Marshal(n)| >= 4 && Marshal(n)[2].Dict?
            && Name(Acknowledge) in Marshal(n)[2].entries && Marshal(n)[2].entries[Name(Acknowledge)] == Bool(true)
            && (Sendable(m) ==>
                  && Parse(PUBLISH, Marshal(n)) == Ok(Normal(n))
                  && Acknowledge in Normal(n).attrs && Normal(n).attrs[Acknowledge] == Bool(true))
  {
    var n := Set(m, Acknowledge, Bool(true));
    assert FieldType(PUBLISH, Acknowledge) == Some(ABool);
    FieldsMayBeSet(m, Acknowledge, Bool(true));
    assert IsWritten(n, Acknowledge) && HoldsEntry(Marshal(n)[2].entries, n, Acknowledge);
    if Sendable(m) {
      SetSends(m);
      RoundTrip(n);
      AcknowledgeIsParsed(Marshal(n), Normal(n));
    }
  }

  lemma {:induction false} SetSends(m: Message)
    requires m.kind == PUBLISH && Sendable(m)
    ensures Sendable(Set(m, Acknowledge, Bool(true)))
  {
    var n := Set(m, Acknowledge, Bool(true));
    forall j: nat | j < |n.head| ensures Sends(n, j) {
      assert Sends(m, j);
    }
  }

  // ---------------------------------------------------------------- refusals

  predicate HasUri(k: Kind) {
    k == ERROR || k == PUBLISH || k == CALL || k == SUBSCRIBE || k == REGISTER
  }

  lemma {:induction false} UriStandsLast(k: Kind, i: nat)
    requires i < |Layout(k)|
    ensures Layout(k)[i].UriSlot? || Layout(k)[i].UriByMatchSlot? <==> HasUri(k) && i == |Layout(k)| - 1
    ensures Layout(k)[i].UriByMatchSlot? <==> k == REGISTER && i == 2
  {
  }

  lemma {:induction false} FirstFailing(k: Kind, w: seq<Value>) returns (i: nat)
    requires LengthOk(k, |w|) && !AllPass(k, w)
    ensures i < |Layout(k)| && !SlotPasses(k, w, i) && forall j: nat :: j < i ==> SlotPasses(k, w, j)
  {
    i := 0;
    while i < |Layout(k)| && SlotPasses(k, w, i)
      invariant i <= |Layout(k)| && forall j: nat :: j < i ==> SlotPasses(k, w, j)
    {
      i := i + 1;
    }
  }

  /** What stands before a URI passes exactly if the dictionary and the numbers do. */
  lemma {:induction false} NumbersStandBefore(k: Kind, w: seq<Value>)
    requires Length(k, |w|) && LengthOk(k, |w|) && HasUri(k) && k != REGISTER
    ensures (forall j: nat :: j < |Layout(k)| - 1 ==> SlotPasses(k, w, j)) <==>
            IsStrDict(OptionsOf(k, w)) && Numbers(k, w, OptionsOf(k, w).entries)
  {
    if k == ERROR && w[1].Int? {
      RequestTypesByCode(w[1]);
    }
    var n := |Layout(k)| - 1;
    assert n == if k == ERROR then 3 else 2;
    if IsStrDict(OptionsOf(k, w)) && Numbers(k, w, OptionsOf(k, w).entries) {
      forall j: nat | j < n ensures SlotPasses(k, w, j) {
        PassingIds(k, w, j);
      }
    } else if forall j: nat :: j < n ==> SlotPasses(k, w, j) {
      assert SlotPasses(k, w, 0) && SlotPasses(k, w, 1);
      if k == ERROR {
        assert SlotPasses(k, w, 2);
      }
    }
  }

  lemma {:induction false} PolicyStandsBefore(w: seq<Value>)
    requires Length(REGISTER, |w|) && LengthOk(REGISTER, |w|)
    ensures (forall j: nat :: j < 2 ==> SlotPasses(REGISTER, w, j)) <==> IsStrDict(w[2]) && Id(w[1])
    ensures IsStrDict(w[2]) ==>
              var o := w[2].entries;
              SlotError(UriByMatchSlot, w[3], w[2]) ==
                if Name(Match) in o && !Fits(OneOf({"exact", "prefix", "wildcard"}), o[Name(Match)]) then Some(ProtocolError)
                else if Uris(REGISTER, w, o) then None else Some(InvalidUriError)
  {
    PassingIds(REGISTER, w, 0);
    PassingIds(REGISTER, w, 1);
    assert SlotPasses(REGISTER, w, 0) <==> Id(w[1]);
    assert SlotPasses(REGISTER, w, 1) <==> IsStrDict(w[2]);
    if IsStrDict(w[2]) {
      UriAgrees(w[3], Entry(w[2].entries, Match) == Str("wildcard"), Entry(w[2].entries, Match) == Str("prefix"));
    }
  }

  /** What a failing position is refused with. */
  lemma {:induction false} FailingSlot(k: Kind, w: seq<Value>, i: nat)
    requires LengthOk(k, |w|) && i < |Layout(k)| && !SlotPasses(k, w, i)
    ensures SlotError(Layout(k)[i], w[1 + i], OptionsOf(k, w)).value
            == if Layout(k)[i].UriSlot? then InvalidUriError
               else if Layout(k)[i].UriByMatchSlot? then SlotError(UriByMatchSlot, w[1 + i], OptionsOf(k, w)).value
               else ProtocolError
  {
  }

  ghost predicate Good(k: Kind, w: seq<Value>)
    requires Length(k, |w|)
  {
    IsStrDict(Dictionary(k, w)) && Numbers(k, w, Dictionary(k, w).entries)
  }

  lemma {:induction false} RegisterPositionsRefused(w: seq<Value>, i: nat)
    requires Length(REGISTER, |w|) && LengthOk(REGISTER, |w|) && w[0] == Int(Code(REGISTER))
    requires i < 3 && !SlotPasses(REGISTER, w, i) && forall j: nat :: j < i ==> SlotPasses(REGISTER, w, j)
    ensures Parse(REGISTER, w) == Err(if Good(REGISTER, w) then InvalidUriError else ProtocolError)
  {
    SlotFails(REGISTER, w, i);
    UriStandsLast(REGISTER, i);
    FailingSlot(REGISTER, w, i);
    PolicyStandsBefore(w);
  }

  lemma {:induction false} UriPositionsRefused(k: Kind, w: seq<Value>, i: nat)
    requires HasUri(k) && k != REGISTER
    requires Length(k, |w|) && LengthOk(k, |w|) && w[0] == Int(Code(k))
    requires i < |Layout(k)| && !SlotPasses(k, w, i) && forall j: nat :: j < i ==> SlotPasses(k, w, j)
    ensures Parse(k, w) == Err(if Good(k, w) then InvalidUriError else ProtocolError)
  {
    SlotFails(k, w, i);
    UriStandsLast(k, i);
    FailingSlot(k, w, i);
    NumbersStandBefore(k, w);
    DictionariesAgree(k, w);
  }

  lemma {:induction false} IdPositionsRefused(k: Kind, w: seq<Value>, i: nat)
    requires !HasUri(k) && Length(k, |w|) && LengthOk(k, |w|) && w[0] == Int(Code(k))
    requires i < |Layout(k)| && !SlotPasses(k, w, i) && forall j: nat :: j < i ==> SlotPasses(k, w, j)
    ensures Parse(k, w) == Err(ProtocolError) && !Good(k, w)
  {
    SlotFails(k, w, i);
    UriStandsLast(k, i);
    FailingSlot(k, w, i);
    DictionariesAgree(k, w);
    if Good(k, w) {
      IdPositions(k, w);
    }
  }

  /** A list that has a number, the dictionary or a URI wrong. */
  lemma {:induction false} PositionsRefused(k: Kind, w: seq<Value>)
    requires Length(k, |w|) && w[0] == Int(TypeCode(k))
    requires !Good(k, w) || !Positions(k, w, Dictionary(k, w).entries)
    ensures Parse(k, w) == Err(if Good(k, w) then InvalidUriError else ProtocolError)
  {
    LengthsAgree(k, |w|);
    DictionariesAgree(k, w);
    if AllPass(k, w) {
      PassingIsNoError(k, w);
      if IsStrDict(OptionsOf(k, w)) {
        PositionsAgree(k, w);
      }
    } else {
      var i := FirstFailing(k, w);
      if k == REGISTER {
        RegisterPositionsRefused(w, i);
      } else if HasUri(k) {
        UriPositionsRefused(k, w, i);
      } else {
        IdPositionsRefused(k, w, i);
      }
    }
  }

  lemma {:induction false} TailReadIf(k: Kind, tail: seq<Value>, o: map<Key, Value>)
    requires |tail| <= 2
    ensures TailIsRead(k, tail, o) <==> !BodyRejected(k, tail, o)
  {
    EncTypes(k, Entry(o, EncAlgo));
    EncTypes(k, Entry(o, EncSerializer));
    assert Get(o, EncAlgo) == Entry(o, EncAlgo) && Get(o, EncKey) == Entry(o, EncKey)
        && Get(o, EncSerializer) == Entry(o, EncSerializer);
  }

  lemma {:induction false} AcceptableIfPassed(k: Kind, f: FieldName, v: Value)
    requires f != ForwardFor
    ensures FieldError(k, f, v).None? <==> Acceptable(k, f, v)
  {
  }

  lemma {:induction false} FieldReadIf(k: Kind, f: FieldName, o: map<Key, Value>)
    requires FieldType(k, f).Some?
    ensures FieldIsRead(k, o, f) <==> FieldPasses(k, f, o)
  {
    if Name(f) in o && f != ForwardFor {
      AcceptableIfPassed(k, f, o[Name(f)]);
      TypesAgree(k, f, o[Name(f)]);
    }
  }

  lemma {:induction false} PlainFieldsRefused(k: Kind, fs: seq<FieldName>, o: map<Key, Value>)
    requires fs == Fields(k) && FieldType(k, Reason).None? && FieldsError(k, fs, o).Some?
    ensures FieldsError(k, fs, o) == Some(ProtocolError) && FieldIsRead(k, o, Reason)
    ensures !OtherFieldsAreRead(k, o) || !FieldIsRead(k, o, ForwardFor)
  {
    FieldsErrorNone(k, fs, o);
    FieldsAgree(k, Reason);
    var f :| f in fs && !FieldPasses(k, f, o);
    FieldsAgree(k, f);
    FieldReadIf(k, f, o);
    FieldFails(k, fs, f, o);
  }

  lemma {:induction false} FieldsErrorFirst(k: Kind, f: FieldName, fs: seq<FieldName>, o: map<Key, Value>)
    ensures FieldsError(k, [f] + fs, o) == if FieldPasses(k, f, o) then FieldsError(k, fs, o) else FieldError(k, f, o[Name(f)])
  {
    assert ([f] + fs)[1..] == fs;
  }

  /** The classes with a reason look at it after one other field, and at the forwarders last. */
  lemma {:induction false} ReasonFieldsRefused(k: Kind, fs: seq<FieldName>, first: FieldName, o: map<Key, Value>)
    requires fs == [first, Reason] || fs == [first, Reason, ForwardFor]
    requires first != Reason && first != ForwardFor
    ensures FieldsError(k, fs, o) == if !FieldPasses(k, first, o) then FieldError(k, first, o[Name(first)])
                                     else if !FieldPasses(k, Reason, o) then Some(InvalidUriError)
                                     else if |fs| == 3 && !FieldPasses(k, ForwardFor, o) then Some(ProtocolError)
                                     else None
  {
    var behind := if |fs| == 3 then [ForwardFor] else [];
    assert fs == [first] + ([Reason] + behind);
    FieldsErrorFirst(k, first, [Reason] + behind, o);
    FieldsErrorFirst(k, Reason, behind, o);
    if |fs| == 3 {
      FieldsErrorFirst(k, ForwardFor, [], o);
    }
  }

  lemma {:induction false} FirstBeforeReason(k: Kind) returns (first: FieldName)
    requires FieldType(k, Reason).Some?
    ensures first != Reason && first != ForwardFor && FieldType(k, first).Some?
    ensures Fields(k) == if FieldType(k, ForwardFor).None? then [first, Reason] else [first, Reason, ForwardFor]
    ensures forall f :: FieldType(k, f).Some? ==> f == first || f == Reason || f == ForwardFor
  {
    first := if k == UNSUBSCRIBED then Subscription else if k == UNREGISTERED then Registration else Mode;
  }

  lemma {:induction false} OnlyFirstIsOther(k: Kind, first: FieldName, o: map<Key, Value>)
    requires first != Reason && first != ForwardFor
    requires forall f :: FieldType(k, f).Some? ==> f == first || f == Reason || f == ForwardFor
    ensures OtherFieldsAreRead(k, o) <==> FieldIsRead(k, o, first)
  {
  }

  lemma {:induction false} FirstIsProtocolError(k: Kind, first: FieldName, v: Value)
    requires first != Reason && FieldError(k, first, v).Some?
    ensures FieldError(k, first, v) == Some(ProtocolError)
  {
  }

  lemma {:induction false} FieldsRefused(k: Kind, o: map<Key, Value>)
    requires FieldsError(k, Fields(k), o).Some?
    ensures FieldsError(k, Fields(k), o).value == if !OtherFieldsAreRead(k, o) then ProtocolError
                                                  else if !FieldIsRead(k, o, Reason) then InvalidUriError
                                                  else ProtocolError
    ensures !OtherFieldsAreRead(k, o) || !FieldIsRead(k, o, Reason) || !FieldIsRead(k, o, ForwardFor)
  {
    if FieldType(k, Reason).None? {
      PlainFieldsRefused(k, Fields(k), o);
    } else {
      var first := FirstBeforeReason(k);
      ReasonFieldsRefused(k, Fields(k), first, o);
      OnlyFirstIsOther(k, first, o);
      FieldReadIf(k, first, o);
      FieldReadIf(k, Reason, o);
      if FieldType(k, ForwardFor).Some? {
        FieldReadIf(k, ForwardFor, o);
      }
      if !FieldPasses(k, first, o) {
        FirstIsProtocolError(k, first, o[Name(first)]);
      }
    }
  }

  lemma {:induction false} FieldsRead(k: Kind, o: map<Key, Value>)
    requires FieldsError(k, Fields(k), o).None?
    ensures OtherFieldsAreRead(k, o) && FieldIsRead(k, o, Reason) && FieldIsRead(k, o, ForwardFor)
  {
    FieldsErrorNone(k, Fields(k), o);
    forall f ensures FieldIsRead(k, o, f) {
      if FieldType(k, f).Some? {
        FieldsAgree(k, f);
        FieldReadIf(k, f, o);
      }
    }
  }

  /** The constructor asserts what is documented of types, revocations and encryption. */
  lemma {:induction false} AssertsIf(k: Kind, w: seq<Value>, o: map<Key, Value>, m: Message)
    requires Length(k, |w|) && Positions(k, w, o) && (HasPayload(k) || Tail(k, w) == [])
    requires m == Made(k, Head(k, w), Tail(k, w), o)
    requires !BodyRejected(k, Tail(k, w), o) && FieldsError(k, Fields(k), o).None?
    ensures Asserts(m) <==>
            FieldsFit(k, o) && Revokes(k, w, o) && (Opaque(k, Tail(k, w)) ==> Carries(k, Tail(k, w), o))
  {
    PositionsAreAsserted(k, w, o, m);
    AttributesAgree(m, Fields(k), if IsPayload(k, Tail(k, w)) then ENC_FIELDS else {}, o);
    forall f | f in ENC_FIELDS
      ensures HoldsAttribute(m.attrs, f, if Opaque(k, Tail(k, w)) then Entry(o, f) else Null)
    {
      MadeHoldsEnc(k, Head(k, w), Tail(k, w), o, f);
    }
    TailAsserts(k, Tail(k, w), o, m);
    MadeHolds(k, Head(k, w), Tail(k, w), o, Subscription);
    MadeHolds(k, Head(k, w), Tail(k, w), o, Registration);
    RevocationAgrees(k, w, o, m);
  }

  lemma {:induction false} TailAsserts(k: Kind, tail: seq<Value>, o: map<Key, Value>, m: Message)
    requires |tail| <= 2 && (HasPayload(k) || tail == []) && m.kind == k && HoldsTail(k, tail, m)
    requires forall f :: f in ENC_FIELDS ==> HoldsAttribute(m.attrs, f, if Opaque(k, tail) then Entry(o, f) else Null)
    requires !BodyRejected(k, tail, o)
    ensures BodyAsserts(m) && EncAsserted(m) <==> (Opaque(k, tail) ==> Carries(k, tail, o))
  {
    if Opaque(k, tail) {
      TailAgrees(k, tail, o, m);
    } else {
      assert forall f :: f in ENC_FIELDS ==> HoldsAttribute(m.attrs, f, Null) && f !in m.attrs;
    }
  }

  lemma {:induction false} BodyRefused(k: Kind, w: seq<Value>, o: map<Key, Value>)
    requires Length(k, |w|) && w[0] == Int(TypeCode(k)) && Dictionary(k, w) == Dict(o) && Good(k, w) && Positions(k, w, o)
    requires !IsRaw(k, w)
    ensures Parse(k, w) == Err(Refusal(k, w))
  {
    var tail, made := Tail(k, w), Made(k, Head(k, w), Tail(k, w), o);
    ParsesTail(k, w);
    TailReadIf(k, tail, o);
    ParseFails(k, Head(k, w), tail, o);
    if FieldsError(k, Fields(k), o).Some? {
      FieldsRefused(k, o);
    } else {
      FieldsRead(k, o);
      if !BodyRejected(k, tail, o) {
        AssertsIf(k, w, o, made);
        ConstructsIf(k, w, o, made);
      }
    }
  }

  lemma {:induction false} ParseFails(k: Kind, head: seq<Value>, tail: seq<Value>, o: map<Key, Value>)
    requires |tail| <= 2
    ensures BodyRejected(k, tail, o) ==> ParseBody(k, head, tail, o) == Err(ProtocolError)
    ensures !BodyRejected(k, tail, o) && FieldsError(k, Fields(k), o).Some? ==>
              ParseBody(k, head, tail, o) == Err(FieldsError(k, Fields(k), o).value)
    ensures !BodyRejected(k, tail, o) && FieldsError(k, Fields(k), o).None? ==>
              ParseBody(k, head, tail, o) == Construct(Made(k, head, tail, o))
  {
  }

  /** Parse refuses every other list, with the error that is documented for it. */
  lemma {:induction false} RefusesAsDocumented(k: Kind, w: seq<Value>)
    requires !IsRaw(k, w)
    ensures Parse(k, w) == Err(Refusal(k, w))
  {
    LengthsAgree(k, |w|);
    if Length(k, |w|) && w[0] == Int(TypeCode(k)) {
      if !Good(k, w) || !Positions(k, w, Dictionary(k, w).entries) {
        PositionsRefused(k, w);
      } else {
        BodyRefused(k, w, Dictionary(k, w).entries);
      }
    }
  }
}
