/**
 * Which raw lists are messages, and what the objects made of them hold: the fifteen classes
 * written out with their codes, positions, field names and types. Nothing here is shared
 * with the schema that drives parse and marshal.
 */
module MessageGrammar {
  import opened Values
  import opened Messages
  import opened MessageChecks
  import opened W = Wrappers

  // ---------------------------------------------------------------- types of values

  datatype Type =
    | ABool | AnInt | AStr | Ints | Strs | NotNegative | Positive | LikeABool | AUri
    | OneOf(names: set<string>)
    | Forwarders
    | AList

  predicate Forwarder(v: Value) {
    && v.Dict?
    && Entry(v.entries, Session).Int?
    && Name(Authid) in v.entries && (Entry(v.entries, Authid).Null? || Entry(v.entries, Authid).Str?)
    && Entry(v.entries, Authrole).Str?
  }

  predicate Fits(t: Type, v: Value) {
    match t
    case ABool => v.Bool?
    case AnInt => v.Int?
    case AStr => v.Str?
    case Ints => v.List? && forall i :: 0 <= i < |v.items| ==> v.items[i].Int?
    case Strs => v.List? && forall i :: 0 <= i < |v.items| ==> v.items[i].Str?
    case NotNegative => v.Int? && v.i >= 0
    case Positive => v.Int? && v.i > 0
    case LikeABool => v.Null? || v.Bool? || v in {Int(0), Int(1), Float(0.0), Float(1.0)}
    case AUri => UriIn(v, false, false)
    case OneOf(names) => v.Str? && v.s in names
    case Forwarders => v.List? && forall i :: 0 <= i < |v.items| ==> Forwarder(v.items[i])
    case AList => v.List?
  }

  /** The optional fields of each class with their types. */
  function FieldType(k: Kind, f: FieldName): Option<Type> {
    match k
    case ERROR => Callees(f)
    case RESULT => if f == Progress then Some(ABool) else Callees(f)
    case YIELD => if f == Progress then Some(ABool) else Callees(f)
    case PUBLISH =>
      if f == Acknowledge || f == ExcludeMe || f == Retain then Some(ABool)
      else if f == Exclude || f == Eligible then Some(Ints)
      else if f == ExcludeAuthid || f == ExcludeAuthrole || f == EligibleAuthid || f == EligibleAuthrole then Some(Strs)
      else if f == TransactionHash then Some(AStr)
      else if f == ForwardFor then Some(Forwarders) else None
    case EVENT =>
      if f == Publisher then Some(AnInt)
      else if f == PublisherAuthid || f == PublisherAuthrole || f == Topic || f == TransactionHash then Some(AStr)
      else if f == Retained || f == XAcknowledgedDelivery then Some(ABool)
      else if f == ForwardFor then Some(Forwarders) else None
    case CALL =>
      if f == Timeout then Some(NotNegative)
      else if f == ReceiveProgress then Some(ABool)
      else if f == Caller then Some(AnInt)
      else if f == TransactionHash || f == CallerAuthid || f == CallerAuthrole then Some(AStr)
      else if f == ForwardFor then Some(Forwarders) else None
    case INVOCATION =>
      if f == Timeout then Some(NotNegative)
      else if f == ReceiveProgress then Some(ABool)
      else if f == Caller then Some(AnInt)
      else if f == TransactionHash || f == CallerAuthid || f == CallerAuthrole || f == Procedure then Some(AStr)
      else if f == ForwardFor then Some(Forwarders) else None
    case SUBSCRIBE =>
      if f == Match then Some(OneOf({"exact", "prefix", "wildcard"}))
      else if f == GetRetained then Some(ABool)
      else if f == ForwardFor then Some(Forwarders) else None
    case REGISTER =>
      if f == Match then Some(OneOf({"exact", "prefix", "wildcard"}))
      else if f == Invoke then Some(OneOf({"single", "first", "last", "roundrobin", "random"}))
      else if f == Concurrency then Some(Positive)
      else if f == ForceReregister then Some(LikeABool)
      else if f == ForwardFor then Some(Forwarders) else None
    case UNSUBSCRIBE => if f == ForwardFor then Some(Forwarders) else None
    case UNREGISTER => if f == ForwardFor then Some(AList) else None
    case UNSUBSCRIBED => if f == Subscription then Some(AnInt) else if f == Reason then Some(AUri) else None
    case UNREGISTERED => if f == Registration then Some(AnInt) else if f == Reason then Some(AUri) else None
    case CANCEL =>
      if f == Mode then Some(OneOf({"skip", "kill", "killnowait"})) else if f == ForwardFor then Some(Forwarders) else None
    case INTERRUPT =>
      if f == Mode then Some(OneOf({"kill", "killnowait"}))
      else if f == Reason then Some(AUri)
      else if f == ForwardFor then Some(Forwarders) else None
  }

  function Callees(f: FieldName): Option<Type> {
    if f == Callee then Some(AnInt)
    else if f == CalleeAuthid || f == CalleeAuthrole then Some(AStr)
    else if f == ForwardFor then Some(Forwarders) else None
  }

  // ---------------------------------------------------------------- positions

  predicate Id(v: Value) {
    v.Int? && 0 <= v.i <= 9007199254740992
  }

  predicate UriIn(v: Value, anyEmpty: bool, lastEmpty: bool) {
    v.Str? && UriAllowed(false, anyEmpty, lastEmpty, v.s)
  }

  function TypeCode(k: Kind): int {
    match k
    case ERROR => 8
    case PUBLISH => 16
    case SUBSCRIBE => 32
    case UNSUBSCRIBE => 34
    case UNSUBSCRIBED => 35
    case EVENT => 36
    case CALL => 48
    case CANCEL => 49
    case RESULT => 50
    case REGISTER => 64
    case UNREGISTER => 66
    case UNREGISTERED => 67
    case INVOCATION => 68
    case INTERRUPT => 69
    case YIELD => 70
  }

  predicate Length(k: Kind, n: nat) {
    match k
    case ERROR => 5 <= n <= 7
    case PUBLISH => 4 <= n <= 6
    case EVENT => 4 <= n <= 6
    case CALL => 4 <= n <= 6
    case INVOCATION => 4 <= n <= 6
    case RESULT => 3 <= n <= 5
    case YIELD => 3 <= n <= 5
    case SUBSCRIBE => n == 4
    case REGISTER => n == 4
    case CANCEL => n == 3
    case INTERRUPT => n == 3
    case UNSUBSCRIBE => 3 <= n <= 4
    case UNREGISTER => 3 <= n <= 4
    case UNSUBSCRIBED => 2 <= n <= 3
    case UNREGISTERED => 2 <= n <= 3
  }

  /** The dictionary, which an un-message may leave out. */
  function Dictionary(k: Kind, w: seq<Value>): Value
    requires Length(k, |w|)
  {
    match k
    case ERROR => w[3]
    case EVENT => w[3]
    case INVOCATION => w[3]
    case UNSUBSCRIBE => if |w| == 4 then w[3] else Dict(map[])
    case UNREGISTER => if |w| == 4 then w[3] else Dict(map[])
    case UNSUBSCRIBED => if |w| == 3 then w[2] else Dict(map[])
    case UNREGISTERED => if |w| == 3 then w[2] else Dict(map[])
    case _ => w[2]
  }

  /** The other positions, which become attributes of their own. */
  function Head(k: Kind, w: seq<Value>): seq<Value>
    requires Length(k, |w|)
  {
    match k
    case ERROR => [w[1], w[2], w[4]]
    case PUBLISH => [w[1], w[3]]
    case CALL => [w[1], w[3]]
    case SUBSCRIBE => [w[1], w[3]]
    case REGISTER => [w[1], w[3]]
    case EVENT => [w[1], w[2]]
    case INVOCATION => [w[1], w[2]]
    case UNSUBSCRIBE => [w[1], w[2]]
    case UNREGISTER => [w[1], w[2]]
    case _ => [w[1]]
  }

  /** What follows them. */
  function Tail(k: Kind, w: seq<Value>): (t: seq<Value>)
    requires Length(k, |w|)
    ensures |t| <= 2
  {
    match k
    case ERROR => w[5..]
    case PUBLISH => w[4..]
    case EVENT => w[4..]
    case CALL => w[4..]
    case INVOCATION => w[4..]
    case RESULT => w[3..]
    case YIELD => w[3..]
    case _ => []
  }

  function Entry(o: map<Key, Value>, f: FieldName): Value {
    if Name(f) in o then o[Name(f)] else Null
  }

  /** The ids, the request type and the match policy, which are looked at before a URI is. */
  predicate Numbers(k: Kind, w: seq<Value>, o: map<Key, Value>)
    requires Length(k, |w|)
  {
    match k
    case ERROR => w[1].Int? && w[1].i in {32, 34, 16, 64, 66, 48, 68} && Id(w[2])
    case REGISTER => Id(w[1]) && (Name(Match) in o ==> Fits(OneOf({"exact", "prefix", "wildcard"}), o[Name(Match)]))
    case EVENT => Id(w[1]) && Id(w[2])
    case INVOCATION => Id(w[1]) && Id(w[2])
    case UNSUBSCRIBE => Id(w[1]) && Id(w[2])
    case UNREGISTER => Id(w[1]) && Id(w[2])
    case _ => Id(w[1])
  }

  predicate Uris(k: Kind, w: seq<Value>, o: map<Key, Value>)
    requires Length(k, |w|)
  {
    match k
    case ERROR => UriIn(w[4], false, false)
    case PUBLISH => UriIn(w[3], false, false)
    case CALL => UriIn(w[3], false, false)
    case SUBSCRIBE => UriIn(w[3], true, false)
    case REGISTER => UriIn(w[3], Entry(o, Match) == Str("wildcard"), Entry(o, Match) == Str("prefix"))
    case _ => true
  }

  predicate Positions(k: Kind, w: seq<Value>, o: map<Key, Value>)
    requires Length(k, |w|)
  {
    Numbers(k, w, o) && Uris(k, w, o)
  }

  // ---------------------------------------------------------------- payloads

  /** One value alone may be an opaque payload; only some classes look at text that way. */
  predicate Opaque(k: Kind, tail: seq<Value>) {
    |tail| == 1 && (tail[0].Bytes? || (tail[0].Str? && (k == PUBLISH || k == CALL || k == RESULT)))
  }

  predicate Algorithm(v: Value) {
    v.Str? && (v.s in {"cryptobox", "mqtt", "xbr"} || CustomAllowed(v.s))
  }

  predicate Serializer(v: Value) {
    v.Str? && (v.s in {"json", "msgpack", "cbor", "ubjson", "flatbuffers"} || CustomAllowed(v.s))
  }

  predicate Encryption(o: map<Key, Value>) {
    var algo, key, serializer := Entry(o, EncAlgo), Entry(o, EncKey), Entry(o, EncSerializer);
    || (algo.Null? && key.Null? && serializer.Null?)
    || (Algorithm(algo) && (key.Null? || key.Str?) && (serializer.Null? || Serializer(serializer)))
  }

  /** A payload is of octets; arguments are a list, and more in a publication, with a dictionary of strings. */
  predicate Carries(k: Kind, tail: seq<Value>, o: map<Key, Value>) {
    if Opaque(k, tail) then tail[0].Bytes? && Encryption(o)
    else
      && (|tail| > 0 ==> tail[0].List? || (if k == PUBLISH then tail[0].Str? || tail[0].Bytes? else tail[0].Null?))
      && (|tail| > 1 ==> IsStrDict(tail[1]))
  }

  // ---------------------------------------------------------------- messages

  predicate FieldsFit(k: Kind, o: map<Key, Value>) {
    forall f :: Name(f) in o && FieldType(k, f).Some? ==> Fits(FieldType(k, f).value, o[Name(f)])
  }

  /** Only a revocation, which answers no request, names what is revoked. */
  predicate Revokes(k: Kind, w: seq<Value>, o: map<Key, Value>)
    requires Length(k, |w|)
  {
    && (k == UNSUBSCRIBED ==> if w[1] == Int(0) then Entry(o, Subscription) != Int(0) else Entry(o, Subscription).Null?)
    && (k == UNREGISTERED ==> if w[1] == Int(0) then Entry(o, Registration) != Int(0) else Entry(o, Registration).Null?)
  }

  /** The raw lists that are messages of a class. */
  predicate IsRaw(k: Kind, w: seq<Value>) {
    && Length(k, |w|) && w[0] == Int(TypeCode(k))
    && IsStrDict(Dictionary(k, w))
    && var o := Dictionary(k, w).entries;
       Positions(k, w, o) && Carries(k, Tail(k, w), o) && FieldsFit(k, o) && Revokes(k, w, o)
  }

  /** The value of an attribute, Null for none. */
  function Attribute(k: Kind, tail: seq<Value>, o: map<Key, Value>, f: FieldName): Value {
    if FieldType(k, f).Some? then
      if Name(f) in o then o[Name(f)]
      else if f == Match then Str("exact")
      else if f == Invoke then Str("single")
      else Null
    else if Opaque(k, tail) && (f == EncAlgo || f == EncKey || f == EncSerializer) then Entry(o, f)
    else Null
  }

  predicate HoldsAttribute(attrs: map<FieldName, Value>, f: FieldName, v: Value) {
    if v.Null? then f !in attrs else f in attrs && attrs[f] == v
  }

  predicate HoldsAttributes(k: Kind, tail: seq<Value>, o: map<Key, Value>, attrs: map<FieldName, Value>) {
    forall f :: HoldsAttribute(attrs, f, Attribute(k, tail, o, f))
  }

  predicate HoldsTail(k: Kind, tail: seq<Value>, m: Message) {
    && m.payload == (if Opaque(k, tail) then tail[0] else Null)
    && m.args == (if !Opaque(k, tail) && |tail| > 0 then tail[0] else Null)
    && m.kwargs == (if !Opaque(k, tail) && |tail| > 1 then tail[1] else Null)
  }

  /** A message object holds what its raw list says. */
  predicate HoldsRaw(k: Kind, w: seq<Value>, m: Message)
    requires IsRaw(k, w)
  {
    var o, tail := Dictionary(k, w).entries, Tail(k, w);
    && m.kind == k
    && m.head == Head(k, w)
    && HoldsAttributes(k, tail, o, m.attrs)
    && HoldsTail(k, tail, m)
  }

  // ---------------------------------------------------------------- refusals

  /** Of a payload, what is said of its encryption; otherwise the types of the arguments. */
  predicate TailIsRead(k: Kind, tail: seq<Value>, o: map<Key, Value>) {
    if Opaque(k, tail) then
      && (Truthy(Entry(o, EncAlgo)) ==> Algorithm(Entry(o, EncAlgo)))
      && (Truthy(Entry(o, EncKey)) ==> Entry(o, EncKey).Str?)
      && (Truthy(Entry(o, EncSerializer)) ==> Serializer(Entry(o, EncSerializer)))
    else if k == PUBLISH then
      && (|tail| > 0 ==> tail[0].List? || tail[0].Str? || tail[0].Bytes?)
      && (|tail| > 1 ==> tail[1].Dict? || tail[1].Str? || tail[1].Bytes?)
    else
      && (|tail| > 0 ==> tail[0].List? || tail[0].Null?)
      && (|tail| > 1 ==> tail[1].Dict?)
  }

  /** Of forwarders, only that they are a list is looked at before the object is made. */
  predicate FieldIsRead(k: Kind, o: map<Key, Value>, f: FieldName) {
    Name(f) in o && FieldType(k, f).Some? ==>
      if f == ForwardFor then o[Name(f)].List? else Fits(FieldType(k, f).value, o[Name(f)])
  }

  predicate OtherFieldsAreRead(k: Kind, o: map<Key, Value>) {
    forall f :: f != Reason && f != ForwardFor ==> FieldIsRead(k, o, f)
  }

  /** Why a list that is no message of the class is refused. */
  function Refusal(k: Kind, w: seq<Value>): Failure {
    if w == [] || w[0] != Int(TypeCode(k)) then AssertionError
    else if !Length(k, |w|) || !IsStrDict(Dictionary(k, w)) then ProtocolError
    else
      var o, tail := Dictionary(k, w).entries, Tail(k, w);
      if !Numbers(k, w, o) then ProtocolError
      else if !Positions(k, w, o) then InvalidUriError
      else if !TailIsRead(k, tail, o) || !OtherFieldsAreRead(k, o) then ProtocolError
      else if !FieldIsRead(k, o, Reason) then InvalidUriError
      else if !FieldIsRead(k, o, ForwardFor) then ProtocolError
      else if !FieldsFit(k, o) || !Revokes(k, w, o) || (Opaque(k, tail) && !Carries(k, tail, o)) then AssertionError
      else ProtocolError
  }

  // ---------------------------------------------------------------- what is written

  /** Defaults are left out, and what is encrypted is only told with a payload. */
  predicate IsWritten(m: Message, f: FieldName) {
    && f in m.attrs
    && if f == EncAlgo || f == EncKey || f == EncSerializer then Truthy(m.payload)
       else if f == Match then m.attrs[f] != Str("exact")
       else if f == Invoke then m.attrs[f] != Str("single")
       else if f == ForwardFor && (m.kind == UNSUBSCRIBE || m.kind == UNREGISTER) then Truthy(m.attrs[f])
       else true
  }

  predicate HoldsEntry(o: map<Key, Value>, m: Message, f: FieldName) {
    if IsWritten(m, f) then Name(f) in o && o[Name(f)] == m.attrs[f] else Name(f) !in o
  }

  predicate HoldsEntries(o: map<Key, Value>, m: Message) {
    (forall key :: key in o ==> key.Name?) && forall f :: HoldsEntry(o, m, f)
  }

  /** A payload that is not empty goes alone; keyword arguments need a place for the others before them. */
  function Behind(m: Message): seq<Value> {
    if Truthy(m.payload) then [m.payload]
    else if Truthy(m.kwargs) then [m.args, m.kwargs]
    else if Truthy(m.args) then [m.args]
    else []
  }

  /** A raw list holds what a message object says. */
  predicate HoldsMessage(w: seq<Value>, m: Message) {
    && Length(m.kind, |w|) && w[0] == Int(TypeCode(m.kind))
    && Head(m.kind, w) == m.head
    && Tail(m.kind, w) == Behind(m)
    && Dictionary(m.kind, w).Dict? && HoldsEntries(Dictionary(m.kind, w).entries, m)
  }
}
