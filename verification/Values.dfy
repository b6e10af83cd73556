/** The values of unserialized WAMP messages. */
module Values {
  import opened Octets

  /** The dictionary keys that the message classes know. */
  datatype FieldName =
    | Callee | CalleeAuthid | CalleeAuthrole | ForwardFor | EncAlgo | EncKey | EncSerializer
    | Acknowledge | ExcludeMe | Exclude | ExcludeAuthid | ExcludeAuthrole
    | Eligible | EligibleAuthid | EligibleAuthrole | Retain | TransactionHash
    | Publisher | PublisherAuthid | PublisherAuthrole | Topic | Retained | XAcknowledgedDelivery
    | Timeout | ReceiveProgress | Caller | CallerAuthid | CallerAuthrole | Progress | Procedure
    | Match | GetRetained | Invoke | Concurrency | ForceReregister
    | Subscription | Registration | Reason | Mode
    | Session | Authid | Authrole

  /** A dictionary key: a known string, another string, or something else. */
  datatype Key =
    | Name(field: FieldName)
    | OtherStr(s: string)
    | NotStr(n: int)

  datatype Value =
    | Null
    | Bool(b: bool)
    | Int(i: int)
    | Float(r: real)
    | Str(s: string)
    | Bytes(octets: Octets)
    | List(items: seq<Value>)
    | Tuple(elems: seq<Value>)
    | Dict(entries: map<Key, Value>)

  /** What Python takes for true. */
  predicate Truthy(v: Value) {
    match v
    case Null => false
    case Bool(b) => b
    case Int(i) => i != 0
    case Float(r) => r != 0.0
    case Str(s) => s != ""
    case Bytes(o) => o != []
    case List(items) => items != []
    case Tuple(elems) => elems != []
    case Dict(entries) => entries != map[]
  }

  /** A dictionary all of whose keys are strings. */
  predicate IsStrDict(v: Value) {
    v.Dict? && forall k :: k in v.entries ==> !k.NotStr?
  }

  /** v in [True, False, None] of Python, where 1 == True and 0.0 == False. */
  predicate EqualsBoolOrNone(v: Value) {
    match v
    case Null => true
    case Bool(_) => true
    case Int(i) => i == 0 || i == 1
    case Float(r) => r == 0.0 || r == 1.0
    case _ => false
  }
}
