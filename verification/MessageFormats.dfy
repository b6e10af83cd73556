/** The raw lists of the fifteen classes, written out as their documentation gives them. */
module MessageFormats {
  import opened Values
  import opened Messages
  import opened MessageTheorems

  /** The dictionary of an un-message, which is left out when it is empty. */
  function Trailing(options: map<Key, Value>): seq<Value> {
    if options == map[] then [] else [Dict(options)]
  }

  /** What stands before the payload. */
  ghost function Documented(m: Message): seq<Value>
    requires Shaped(m)
  {
    HeadCount(m);
    var h, o := m.head, Dict(Options(m));
    match m.kind
    case ERROR => [Int(8), h[0], h[1], o, h[2]]
    case PUBLISH => [Int(16), h[0], o, h[1]]
    case SUBSCRIBE => [Int(32), h[0], o, h[1]]
    case UNSUBSCRIBE => [Int(34), h[0], h[1]] + Trailing(Options(m))
    case UNSUBSCRIBED => [Int(35), h[0]] + Trailing(Options(m))
    case EVENT => [Int(36), h[0], h[1], o]
    case CALL => [Int(48), h[0], o, h[1]]
    case CANCEL => [Int(49), h[0], o]
    case RESULT => [Int(50), h[0], o]
    case REGISTER => [Int(64), h[0], o, h[1]]
    case UNREGISTER => [Int(66), h[0], h[1]] + Trailing(Options(m))
    case UNREGISTERED => [Int(67), h[0]] + Trailing(Options(m))
    case INVOCATION => [Int(68), h[0], h[1], o]
    case INTERRUPT => [Int(69), h[0], o]
    case YIELD => [Int(70), h[0], o]
  }

  lemma HeadCount(m: Message)
    requires Shaped(m)
    ensures |m.head| == match m.kind
                        case ERROR => 3
                        case PUBLISH => 2
                        case SUBSCRIBE => 2
                        case UNSUBSCRIBE => 2
                        case EVENT => 2
                        case CALL => 2
                        case REGISTER => 2
                        case UNREGISTER => 2
                        case INVOCATION => 2
                        case _ => 1
  {
  }

  lemma Around(h: seq<Value>, p: nat, d: Value)
    requires p <= |h|
    ensures |h| == 1 && p == 1 ==> h[..p] + [d] + h[p..] == [h[0], d]
    ensures |h| == 2 && p == 1 ==> h[..p] + [d] + h[p..] == [h[0], d, h[1]]
    ensures |h| == 2 && p == 2 ==> h[..p] + [d] + h[p..] == [h[0], h[1], d]
    ensures |h| == 3 && p == 2 ==> h[..p] + [d] + h[p..] == [h[0], h[1], d, h[2]]
  {
  }

  lemma {:induction false} DocumentedTrailing(m: Message)
    requires Shaped(m) && TrailingOptions(m.kind)
    ensures Documented(m) == [Int(Code(m.kind))] + SlotValues(m) + Trailing(Options(m))
  {
    HeadCount(m);
    assert m.head == if |m.head| == 1 then [m.head[0]] else [m.head[0], m.head[1]];
    assert [Int(Code(m.kind))] + m.head
           == if |m.head| == 1 then [Int(Code(m.kind)), m.head[0]] else [Int(Code(m.kind)), m.head[0], m.head[1]];
  }

  lemma {:induction false} DocumentedAround(m: Message)
    requires Shaped(m) && !TrailingOptions(m.kind)
    ensures Documented(m) == [Int(Code(m.kind))] + SlotValues(m)
  {
    HeadCount(m);
    Around(m.head, OptionsAt(m.kind), Dict(Options(m)));
  }

  /** Every class marshals to its documented list, followed by what it carries. */
  lemma {:induction false} MarshalsAsDocumented(m: Message)
    requires Shaped(m)
    ensures Marshal(m) == Documented(m) + MarshalBody(m)
  {
    MarshalSplits(m);
    var before := [Int(Code(m.kind))] + SlotValues(m);
    if TrailingOptions(m.kind) {
      DocumentedTrailing(m);
      assert Rest(m) == Trailing(Options(m)) + MarshalBody(m);
      assert before + (Trailing(Options(m)) + MarshalBody(m)) == before + Trailing(Options(m)) + MarshalBody(m);
    } else {
      DocumentedAround(m);
    }
  }
}
