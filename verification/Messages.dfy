/**
 * The WAMP message codec: marshalling message objects to raw lists and parsing raw lists
 * back. The classes share one shape, which is described here by data: the positions of a
 * message, its optional fields in the order they are looked at, and the payload that ends it.
 */
module Messages {
  import opened Octets
  import opened Regex
  import opened Values
  import opened W = Wrappers
  import U = Uri

  datatype Kind =
    | ERROR | PUBLISH | EVENT | CALL | RESULT | INVOCATION | YIELD
    | SUBSCRIBE | UNSUBSCRIBE | UNSUBSCRIBED | CANCEL | REGISTER | UNREGISTER | UNREGISTERED | INTERRUPT

  datatype Failure = ProtocolError | InvalidUriError | AssertionError

  // ---------------------------------------------------------------- the classes

  function Code(k: Kind): int {
    match k
    case ERROR => 8
    case PUBLISH => 16
    case SUBSCRIBE => 32
    case UNSUBSCRIBE => 34
    case UNSUBSCRIBED => 35
    case EVENT => 36
    case CALL => 48
    case CANCEL => 49
    case RESULT => 50
    case REGISTER => 64
    case UNREGISTER => 66
    case UNREGISTERED => 67
    case INVOCATION => 68
    case INTERRUPT => 69
    case YIELD => 70
  }

  /** What stands at a position of a raw message. */
  datatype Slot =
    | RequestTypeSlot
    | IdSlot
    | OptionsSlot
    | UriSlot(mode: U.Mode)
    | UriByMatchSlot

  /** The positions after the type code, up to the payload or the trailing dictionary. */
  function Layout(k: Kind): seq<Slot> {
    match k
    case ERROR => [RequestTypeSlot, IdSlot, OptionsSlot, UriSlot(U.NonEmpty)]
    case PUBLISH => [IdSlot, OptionsSlot, UriSlot(U.NonEmpty)]
    case CALL => [IdSlot, OptionsSlot, UriSlot(U.NonEmpty)]
    case SUBSCRIBE => [IdSlot, OptionsSlot, UriSlot(U.AnyEmpty)]
    case REGISTER => [IdSlot, OptionsSlot, UriByMatchSlot]
    case EVENT => [IdSlot, IdSlot, OptionsSlot]
    case INVOCATION => [IdSlot, IdSlot, OptionsSlot]
    case RESULT => [IdSlot, OptionsSlot]
    case YIELD => [IdSlot, OptionsSlot]
    case CANCEL => [IdSlot, OptionsSlot]
    case INTERRUPT => [IdSlot, OptionsSlot]
    case UNSUBSCRIBE => [IdSlot, IdSlot]
    case UNREGISTER => [IdSlot, IdSlot]
    case UNSUBSCRIBED => [IdSlot]
    case UNREGISTERED => [IdSlot]
  }

  /** The dictionary of these comes last and is left out when it is empty. */
  predicate TrailingOptions(k: Kind) {
    k in {UNSUBSCRIBE, UNSUBSCRIBED, UNREGISTER, UNREGISTERED}
  }

  predicate HasPayload(k: Kind) {
    k in {ERROR, PUBLISH, EVENT, CALL, RESULT, INVOCATION, YIELD}
  }

  /** Where the dictionary stands in the layout. */
  function OptionsAt(k: Kind): (p: nat)
    ensures p <= |Layout(k)|
    ensures !TrailingOptions(k) ==> p < |Layout(k)| && Layout(k)[p] == OptionsSlot
    ensures forall i :: 0 <= i < |Layout(k)| && i != p ==> Layout(k)[i] != OptionsSlot
  {
    match k
    case ERROR => 2
    case EVENT => 2
    case INVOCATION => 2
    case UNSUBSCRIBE => 2
    case UNREGISTER => 2
    case _ => 1
  }

  /** The optional fields of a class, in the order parse looks at them. */
  function Fields(k: Kind): seq<FieldName> {
    match k
    case ERROR => [Callee, CalleeAuthid, CalleeAuthrole, ForwardFor]
    case PUBLISH => [Acknowledge, ExcludeMe, Exclude, ExcludeAuthid, ExcludeAuthrole, Eligible, EligibleAuthid,
                     EligibleAuthrole, Retain, TransactionHash, ForwardFor]
    case EVENT => [Publisher, PublisherAuthid, PublisherAuthrole, Topic, Retained, TransactionHash,
                   XAcknowledgedDelivery, ForwardFor]
    case CALL => [Timeout, ReceiveProgress, TransactionHash, Caller, CallerAuthid, CallerAuthrole, ForwardFor]
    case RESULT => [Progress, Callee, CalleeAuthid, CalleeAuthrole, ForwardFor]
    case INVOCATION => [Timeout, ReceiveProgress, Caller, CallerAuthid, CallerAuthrole, Procedure, TransactionHash, ForwardFor]
    case YIELD => [Progress, Callee, CalleeAuthid, CalleeAuthrole, ForwardFor]
    case SUBSCRIBE => [Match, GetRetained, ForwardFor]
    case UNSUBSCRIBE => [ForwardFor]
    case UNSUBSCRIBED => [Subscription, Reason]
    case CANCEL => [Mode, ForwardFor]
    case REGISTER => [Match, Invoke, Concurrency, ForceReregister, ForwardFor]
    case UNREGISTER => [ForwardFor]
    case UNREGISTERED => [Registration, Reason]
    case INTERRUPT => [Mode, Reason, ForwardFor]
  }

  const ENC_FIELDS: set<FieldName> := {EncAlgo, EncKey, EncSerializer}

  // ---------------------------------------------------------------- checks of single values

  const MAX_ID: int := 9007199254740992

  predicate IsId(v: Value) {
    v.Int? && 0 <= v.i <= MAX_ID
  }

  const REQUEST_TYPES: set<Kind> := {SUBSCRIBE, UNSUBSCRIBE, PUBLISH, REGISTER, UNREGISTER, CALL, INVOCATION}

  predicate IsRequestType(v: Value) {
    v.Int? && exists k :: k in REQUEST_TYPES && v.i == Code(k)
  }

  /** check_or_raise_uri with the default strictness. */
  predicate IsUri(v: Value, mode: U.Mode) {
    v.Str? && MatchesLine(U.UriPattern(false, mode), v.s)
  }

  const EXACT := "exact"
  const PREFIX := "prefix"
  const WILDCARD := "wildcard"
  const SINGLE := "single"

  predicate IsMatch(v: Value) {
    v == Str(EXACT) || v == Str(PREFIX) || v == Str(WILDCARD)
  }

  predicate IsInvoke(v: Value) {
    v == Str(SINGLE) || v == Str("first") || v == Str("last") || v == Str("roundrobin") || v == Str("random")
  }

  /** Which components of a registered procedure may be empty. */
  function ModeOf(policy: Value): U.Mode {
    if policy == Str(PREFIX) then U.LastEmpty else if policy == Str(WILDCARD) then U.AnyEmpty else U.NonEmpty
  }

  /** ^x_([a-z][\da-z_]+)?$ */
  const CUSTOM_ATTRIBUTE: Re :=
    Cat(One(Literal('x')), Cat(One(Literal('_')), Opt(Cat(One(Lower), Plus(One(Strict))))))

  predicate IsEncAlgo(v: Value) {
    v.Str? && (v.s == "cryptobox" || v.s == "mqtt" || v.s == "xbr" || MatchesLine(CUSTOM_ATTRIBUTE, v.s))
  }

  predicate IsEncSerializer(v: Value) {
    v.Str? && (v.s == "json" || v.s == "msgpack" || v.s == "cbor" || v.s == "ubjson" || v.s == "flatbuffers"
               || MatchesLine(CUSTOM_ATTRIBUTE, v.s))
  }

  /** One entry of forward_for, as every constructor that looks at it wants it. */
  predicate IsForwarder(v: Value) {
    && v.Dict?
    && Name(Session) in v.entries && v.entries[Name(Session)].Int?
    && Name(Authid) in v.entries && (v.entries[Name(Authid)].Null? || v.entries[Name(Authid)].Str?)
    && Name(Authrole) in v.entries && v.entries[Name(Authrole)].Str?
  }

  predicate AllForwarders(vs: seq<Value>) {
    forall i :: 0 <= i < |vs| ==> IsForwarder(vs[i])
  }

  predicate AllInts(v: Value) {
    v.List? && forall i :: 0 <= i < |v.items| ==> v.items[i].Int?
  }

  predicate AllStrs(v: Value) {
    v.List? && forall i :: 0 <= i < |v.items| ==> v.items[i].Str?
  }

  /** What the constructor asserts of an attribute that is not None. */
  predicate AttributeOk(k: Kind, f: FieldName, v: Value) {
    match f
    case Callee => v.Int?
    case Publisher => v.Int?
    case Caller => v.Int?
    case Timeout => v.Int?
    case Subscription => v.Int?
    case Registration => v.Int?
    case Acknowledge => v.Bool?
    case ExcludeMe => v.Bool?
    case Retain => v.Bool?
    case Retained => v.Bool?
    case XAcknowledgedDelivery => v.Bool?
    case ReceiveProgress => v.Bool?
    case Progress => v.Bool?
    case GetRetained => v.Bool?
    case Exclude => AllInts(v)
    case Eligible => AllInts(v)
    case ExcludeAuthid => AllStrs(v)
    case ExcludeAuthrole => AllStrs(v)
    case EligibleAuthid => AllStrs(v)
    case EligibleAuthrole => AllStrs(v)
    case Match => IsMatch(v)
    case Invoke => IsInvoke(v)
    case Concurrency => v.Int? && v.i > 0
    case ForceReregister => EqualsBoolOrNone(v)
    case Mode => v == Str("kill") || v == Str("killnowait") || (k == CANCEL && v == Str("skip"))
    case EncAlgo => IsEncAlgo(v)
    case EncSerializer => IsEncSerializer(v)
    case ForwardFor =>
      if k == UNREGISTER then true
      else if k == UNSUBSCRIBE then !Truthy(v) || (v.List? && AllForwarders(v.items)) || (v.Tuple? && AllForwarders(v.elems))
      else v.List? && AllForwarders(v.items)
    case _ => v.Str?
  }

  /**
   * What parse makes of a field that is present. For forward_for only the type counts: the
   * loop over the entries sets valid in any case.
   */
  function FieldError(k: Kind, f: FieldName, v: Value): Option<Failure> {
    if f == ForwardFor then (if v.List? then None else Some(ProtocolError))
    else if f == Reason then (if IsUri(v, U.NonEmpty) then None else Some(InvalidUriError))
    else if f == Timeout then (if v.Int? && v.i >= 0 then None else Some(ProtocolError))
    else if AttributeOk(k, f, v) then None
    else Some(ProtocolError)
  }

  // ---------------------------------------------------------------- message objects

  /**
   * A message object. head holds the attributes of the layout other than the dictionary,
   * attrs the optional attributes that are not None. Null stands for None elsewhere.
   */
  datatype Message = Message(kind: Kind, head: seq<Value>, attrs: map<FieldName, Value>,
                             args: Value, kwargs: Value, payload: Value)

  function AttributeNames(k: Kind): set<FieldName> {
    (set f | f in Fields(k)) + (if HasPayload(k) then ENC_FIELDS else {})
  }

  /** The slots of the layout other than the dictionary. */
  function HeadSlots(k: Kind): seq<Slot> {
    if TrailingOptions(k) then Layout(k) else Layout(k)[..OptionsAt(k)] + Layout(k)[OptionsAt(k) + 1..]
  }

  predicate HeadValueOk(k: Kind, slot: Slot, v: Value) {
    || (v.Null? && k in {PUBLISH, EVENT})
    || (if slot.IdSlot? || slot.RequestTypeSlot? then v.Int? else v.Str?)
  }

  predicate BodyAsserts(m: Message) {
    if HasPayload(m.kind) then
      && (m.args.Null? || m.args.List? || m.args.Tuple? || (m.kind == PUBLISH && (m.args.Str? || m.args.Bytes?)))
      && (m.kwargs.Null? || m.kwargs.Dict? || (m.kind == PUBLISH && (m.kwargs.Str? || m.kwargs.Bytes?)))
      && (m.payload.Null? || (m.payload.Bytes? && m.args.Null? && m.kwargs.Null?))
      && (m.attrs.Keys !! ENC_FIELDS || (!m.payload.Null? && EncAlgo in m.attrs))
    else m.args.Null? && m.kwargs.Null? && m.payload.Null?
  }

  /** A revocation has request 0 and names what is revoked, a reply has neither. */
  predicate RevocationAsserts(m: Message) {
    var f := if m.kind == UNSUBSCRIBED then Subscription else Registration;
    m.kind in {UNSUBSCRIBED, UNREGISTERED} && |m.head| == 1 ==>
      if m.head[0] != Int(0) then f !in m.attrs else !(f in m.attrs && m.attrs[f] == Int(0))
  }

  predicate HeadAsserts(m: Message) {
    && |m.head| == |HeadSlots(m.kind)|
    && forall i :: 0 <= i < |m.head| ==> HeadValueOk(m.kind, HeadSlots(m.kind)[i], m.head[i])
  }

  predicate AttributesAssert(m: Message) {
    && m.attrs.Keys <= AttributeNames(m.kind)
    && forall f :: f in m.attrs ==> !m.attrs[f].Null? && AttributeOk(m.kind, f, m.attrs[f])
  }

  /** The assertions of the constructor. */
  predicate Asserts(m: Message) {
    HeadAsserts(m) && AttributesAssert(m) && BodyAsserts(m) && RevocationAsserts(m)
  }

  /** The attributes that the constructor fills in. */
  function Filled(m: Message): Message {
    var a := if m.kind in {SUBSCRIBE, REGISTER} && Match !in m.attrs then m.attrs[Match := Str(EXACT)] else m.attrs;
    m.(attrs := if m.kind == REGISTER && Invoke !in a then a[Invoke := Str(SINGLE)] else a)
  }

  function Construct(m: Message): Result<Message, Failure> {
    if !Asserts(m) then Err(AssertionError)
    else if !(m.kwargs.Null? || IsStrDict(m.kwargs)) then Err(ProtocolError)
    else Ok(Filled(m))
  }

  /** A message object that exists. */
  predicate IsMessage(m: Message) {
    Construct(m) == Ok(m)
  }

  // ---------------------------------------------------------------- marshal

  /** Whether marshal writes an attribute that is not None. */
  predicate Written(m: Message, f: FieldName)
    requires f in m.attrs
  {
    if f in ENC_FIELDS then Truthy(m.payload)
    else if f == Match then m.attrs[f] != Str(EXACT)
    else if f == Invoke then m.attrs[f] != Str(SINGLE)
    else if f == Concurrency then Truthy(m.attrs[f])
    else if f == ForwardFor && m.kind in {UNSUBSCRIBE, UNREGISTER} then Truthy(m.attrs[f])
    else true
  }

  function Options(m: Message): map<Key, Value> {
    map f | f in m.attrs && Written(m, f) :: Name(f) := m.attrs[f]
  }

  function MarshalBody(m: Message): seq<Value> {
    if !HasPayload(m.kind) then []
    else if Truthy(m.payload) then [m.payload]
    else if Truthy(m.kwargs) then [m.args, m.kwargs]
    else if Truthy(m.args) then [m.args]
    else []
  }

  function MarshalHead(m: Message): seq<Value>
    requires OptionsAt(m.kind) <= |m.head|
  {
    var options := Options(m);
    if TrailingOptions(m.kind) then (if options == map[] then m.head else m.head + [Dict(options)])
    else m.head[..OptionsAt(m.kind)] + [Dict(options)] + m.head[OptionsAt(m.kind)..]
  }

  function Marshal(m: Message): seq<Value>
    requires OptionsAt(m.kind) <= |m.head|
  {
    [Int(Code(m.kind))] + MarshalHead(m) + MarshalBody(m)
  }

  // ---------------------------------------------------------------- parse

  predicate LengthOk(k: Kind, n: nat) {
    var base := 1 + |Layout(k)|;
    n == base || (TrailingOptions(k) && n == base + 1) || (HasPayload(k) && base < n <= base + 2)
  }

  /** The dictionary of a raw message, or an empty one. */
  function OptionsOf(k: Kind, w: seq<Value>): Value
    requires LengthOk(k, |w|)
  {
    if TrailingOptions(k) then (if |w| == 1 + |Layout(k)| then Dict(map[]) else w[|w| - 1]) else w[1 + OptionsAt(k)]
  }

  function SlotError(slot: Slot, v: Value, options: Value): Option<Failure> {
    match slot
    case RequestTypeSlot => if IsRequestType(v) then None else Some(ProtocolError)
    case IdSlot => if IsId(v) then None else Some(ProtocolError)
    case OptionsSlot => if IsStrDict(v) then None else Some(ProtocolError)
    case UriSlot(mode) => if IsUri(v, mode) then None else Some(InvalidUriError)
    case UriByMatchSlot =>
      var policy := if options.Dict? && Name(Match) in options.entries then options.entries[Name(Match)] else Str(EXACT);
      if !IsMatch(policy) then Some(ProtocolError)
      else if IsUri(v, ModeOf(policy)) then None else Some(InvalidUriError)
  }

  /** The first position, from i on, that does not pass. */
  function SlotsError(slots: seq<Slot>, vs: seq<Value>, options: Value): Option<Failure>
    requires |slots| == |vs|
  {
    if slots == [] then None
    else if SlotError(slots[0], vs[0], options).Some? then SlotError(slots[0], vs[0], options)
    else SlotsError(slots[1..], vs[1..], options)
  }

  function FieldsError(k: Kind, fs: seq<FieldName>, options: map<Key, Value>): Option<Failure> {
    if fs == [] then None
    else if Name(fs[0]) in options && FieldError(k, fs[0], options[Name(fs[0])]).Some? then
      FieldError(k, fs[0], options[Name(fs[0])])
    else FieldsError(k, fs[1..], options)
  }

  function Get(options: map<Key, Value>, f: FieldName): Value {
    if Name(f) in options then options[Name(f)] else Null
  }

  /** The attributes that parse takes from the dictionary; None is no attribute. */
  function Pick(fs: set<FieldName>, options: map<Key, Value>): map<FieldName, Value> {
    map f | f in fs && !Get(options, f).Null? :: Get(options, f)
  }

  /** A single value after the layout that is taken for a payload. */
  predicate IsPayload(k: Kind, body: seq<Value>) {
    |body| == 1 && (body[0].Bytes? || (body[0].Str? && k in {PUBLISH, CALL, RESULT}))
  }

  predicate EncError(options: map<Key, Value>) {
    || (Truthy(Get(options, EncAlgo)) && !IsEncAlgo(Get(options, EncAlgo)))
    || (Truthy(Get(options, EncKey)) && !Get(options, EncKey).Str?)
    || (Truthy(Get(options, EncSerializer)) && !IsEncSerializer(Get(options, EncSerializer)))
  }

  predicate ArgsError(k: Kind, v: Value) {
    if k == PUBLISH then !v.List? && !v.Str? && !v.Bytes? else !v.Null? && !v.List?
  }

  predicate KwargsError(k: Kind, v: Value) {
    !v.Dict? && !(k == PUBLISH && (v.Str? || v.Bytes?))
  }

  function Parse(k: Kind, w: seq<Value>): Result<Message, Failure> {
    if w == [] || w[0] != Int(Code(k)) then Err(AssertionError)
    else if !LengthOk(k, |w|) then Err(ProtocolError)
    else
      var base := 1 + |Layout(k)|;
      var options := OptionsOf(k, w);
      var slotsError := SlotsError(Layout(k), w[1..base], options);
      if slotsError.Some? then Err(slotsError.value)
      else if !IsStrDict(options) then Err(ProtocolError)
      else
        var head := if TrailingOptions(k) then w[1..base] else w[1..1 + OptionsAt(k)] + w[2 + OptionsAt(k)..base];
        var body := if HasPayload(k) then w[base..] else [];
        ParseBody(k, head, body, options.entries)
  }

  function ParseBody(k: Kind, head: seq<Value>, body: seq<Value>, options: map<Key, Value>): Result<Message, Failure>
    requires |body| <= 2
  {
    var isPayload := IsPayload(k, body);
    if isPayload && EncError(options) then Err(ProtocolError)
    else if !isPayload && |body| > 0 && ArgsError(k, body[0]) then Err(ProtocolError)
    else if !isPayload && |body| > 1 && KwargsError(k, body[1]) then Err(ProtocolError)
    else
      var fieldsError := FieldsError(k, Fields(k), options);
      if fieldsError.Some? then Err(fieldsError.value)
      else
        var names := (set f | f in Fields(k)) + (if isPayload then ENC_FIELDS else {});
        Construct(Message(k, head, Pick(names, options),
                          if !isPayload && |body| > 0 then body[0] else Null,
                          if !isPayload && |body| > 1 then body[1] else Null,
                          if isPayload then body[0] else Null))
  }
}
