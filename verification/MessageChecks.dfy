/**
 * The checks that the message classes share, as the code spells them out, against the
 * predicates that the schema uses.
 */
module MessageChecks {
  import opened Regex
  import opened Values
  import opened Messages
  import opened W = Wrappers
  import U = Uri

  // ---------------------------------------------------------------- ids, dictionaries and URIs

  method CheckOrRaiseId(value: Value) returns (r: Result<Value, Failure>)
    ensures r == if IsId(value) then Ok(value) else Err(ProtocolError)
  {
    if !value.Int? {
      return Err(ProtocolError);
    }
    if value.i < 0 || value.i > 9007199254740992 {
      return Err(ProtocolError);
    }
    r := Ok(value);
  }

  method CheckOrRaiseExtra(value: Value) returns (r: Result<Value, Failure>)
    ensures r == if IsStrDict(value) then Ok(value) else Err(ProtocolError)
  {
    if !value.Dict? {
      return Err(ProtocolError);
    }
    var keys := value.entries.Keys;
    while keys != {}
      invariant keys <= value.entries.Keys
      invariant forall k :: k in value.entries && k !in keys ==> !k.NotStr?
      decreases |keys|
    {
      var k :| k in keys;
      if k.NotStr? {
        return Err(ProtocolError);
      }
      keys := keys - {k};
    }
    r := Ok(value);
  }

  /** The rule for one component, character by character. */
  predicate ComponentRule(strict: bool, c: string) {
    forall i :: 0 <= i < |c| ==>
      if strict then IsDecimalDigit(c[i]) || 'a' <= c[i] <= 'z' || c[i] == '_'
      else !IsSpace(c[i]) && c[i] != '#' && c[i] != '.'
  }

  /** The rule for a whole URI without a trailing newline. */
  predicate UriRule(strict: bool, anyEmpty: bool, lastEmpty: bool, s: string) {
    var cs := Split(s);
    && (forall i :: 0 <= i < |cs| ==> ComponentRule(strict, cs[i]))
    && forall i :: 0 <= i < |cs| && cs[i] == "" ==> (anyEmpty && !lastEmpty) || (lastEmpty && i == |cs| - 1)
  }

  /** A URI by the rule, with at most one newline behind it. */
  predicate UriAllowed(strict: bool, anyEmpty: bool, lastEmpty: bool, s: string) {
    || UriRule(strict, anyEmpty, lastEmpty, s)
    || (s != "" && s[|s| - 1] == '\n' && UriRule(strict, anyEmpty, lastEmpty, s[..|s| - 1]))
  }

  function ModeFor(anyEmpty: bool, lastEmpty: bool): U.Mode {
    if lastEmpty then U.LastEmpty else if anyEmpty then U.AnyEmpty else U.NonEmpty
  }

  lemma {:induction false} ComponentsByRule(strict: bool, anyEmpty: bool, lastEmpty: bool, s: string)
    ensures U.ComponentsOk(strict, ModeFor(anyEmpty, lastEmpty), Split(s)) <==> UriRule(strict, anyEmpty, lastEmpty, s)
  {
    var cs := Split(s);
    forall i | 0 <= i < |cs|
      ensures U.ComponentOk(strict, ModeFor(anyEmpty, lastEmpty), cs[i], i == |cs| - 1) <==>
              && ComponentRule(strict, cs[i])
              && (cs[i] == "" ==> (anyEmpty && !lastEmpty) || (lastEmpty && i == |cs| - 1))
    {
      RuleInAlphabet(strict, cs[i]);
    }
  }

  lemma RuleInAlphabet(strict: bool, c: string)
    ensures AllIn(c, U.Alphabet(strict)) <==> ComponentRule(strict, c)
  {
  }

  /** check_or_raise_uri, with its choice among the six expressions. */
  method CheckOrRaiseUri(value: Value, strict: bool, allowEmptyComponents: bool, allowLastEmpty: bool, allowNone: bool)
    returns (r: Result<Value, Failure>)
    ensures r == if value.Null? && allowNone then Ok(Null)
                 else if value.Str? && UriAllowed(strict, allowEmptyComponents, allowLastEmpty, value.s) then Ok(value)
                 else Err(InvalidUriError)
    ensures !strict && !allowNone ==> (r.Ok? <==> IsUri(value, ModeFor(allowEmptyComponents, allowLastEmpty)))
  {
    if value.Null? {
      return if allowNone then Ok(Null) else Err(InvalidUriError);
    }
    if !value.Str? {
      return Err(InvalidUriError);
    }
    var pat;
    if strict {
      if allowLastEmpty {
        pat := U.UriPattern(true, U.LastEmpty);
      } else if allowEmptyComponents {
        pat := U.UriPattern(true, U.AnyEmpty);
      } else {
        pat := U.UriPattern(true, U.NonEmpty);
      }
    } else {
      if allowLastEmpty {
        pat := U.UriPattern(false, U.LastEmpty);
      } else if allowEmptyComponents {
        pat := U.UriPattern(false, U.AnyEmpty);
      } else {
        pat := U.UriPattern(false, U.NonEmpty);
      }
    }
    UriByRule(strict, allowEmptyComponents, allowLastEmpty, value.s);
    if !MatchesLine(pat, value.s) {
      return Err(InvalidUriError);
    }
    r := Ok(value);
  }

  lemma {:induction false} UriByRule(strict: bool, anyEmpty: bool, lastEmpty: bool, s: string)
    ensures MatchesLine(U.UriPattern(strict, ModeFor(anyEmpty, lastEmpty)), s) <==> UriAllowed(strict, anyEmpty, lastEmpty, s)
  {
    U.PatternAccepts(strict, ModeFor(anyEmpty, lastEmpty), s);
    ComponentsByRule(strict, anyEmpty, lastEmpty, s);
    if s != "" {
      ComponentsByRule(strict, anyEmpty, lastEmpty, s[..|s| - 1]);
    }
  }

  /** The request types that an error may refer to. */
  method CheckRequestType(value: Value) returns (ok: bool)
    ensures ok <==> IsRequestType(value)
  {
    if !value.Int? {
      return false;
    }
    ok := value.i in {32, 34, 16, 64, 66, 48, 68};
    RequestTypesByCode(value);
  }

  lemma RequestTypesByCode(value: Value)
    requires value.Int?
    ensures IsRequestType(value) <==> value.i in {32, 34, 16, 64, 66, 48, 68}
  {
    assert Code(SUBSCRIBE) == 32 && Code(UNSUBSCRIBE) == 34 && Code(PUBLISH) == 16 && Code(REGISTER) == 64;
    assert Code(UNREGISTER) == 66 && Code(CALL) == 48 && Code(INVOCATION) == 68;
  }

  // ---------------------------------------------------------------- encryption

  /** x_, or x_ and a lower-case letter with at least one more character of the strict alphabet. */
  predicate CustomRule(s: string) {
    || s == "x_"
    || (|s| >= 4 && s[0] == 'x' && s[1] == '_' && 'a' <= s[2] <= 'z' && ComponentRule(true, s[3..]))
  }

  lemma {:induction false} CustomByRule(s: string)
    ensures Matches(CUSTOM_ATTRIBUTE, s) <==> CustomRule(s)
  {
    LiteralFirst('x', Cat(One(Literal('_')), CUSTOM_TAIL), s);
    if s != "" {
      LiteralFirst('_', CUSTOM_TAIL, s[1..]);
      if |s| >= 2 {
        assert s[1..][1..] == s[2..] && s[1..][0] == s[1];
        CustomTail(s[2..]);
        assert |s| == 2 ==> s == [s[0], s[1]];
        assert |s| >= 3 ==> s[2..][1..] == s[3..];
      }
    }
  }

  const CUSTOM_TAIL: Re := Opt(Cat(One(Lower), Plus(One(Strict))))

  lemma {:induction false} CustomTail(t: string)
    ensures Matches(CUSTOM_TAIL, t) <==> t == "" || (|t| >= 2 && 'a' <= t[0] <= 'z' && ComponentRule(true, t[1..]))
  {
    if t != "" {
      OneFirst(Lower, Plus(One(Strict)), t);
      PlusOfClass(Strict, t[1..]);
      RuleInAlphabet(true, t[1..]);
    }
    assert Matches(Empty, t) <==> t == "";
  }

  lemma {:induction false} OneFirst(cls: CharClass, r: Re, s: string)
    ensures Matches(Cat(One(cls), r), s) <==> s != "" && In(s[0], cls) && Matches(r, s[1..])
  {
    if s != "" && In(s[0], cls) && Matches(r, s[1..]) {
      CatStep(One(cls), r, s, 1);
    }
  }

  lemma LiteralFirst(c: char, r: Re, s: string)
    ensures Matches(Cat(One(Literal(c)), r), s) <==> s != "" && s[0] == c && Matches(r, s[1..])
  {
    OneFirst(Literal(c), r, s);
  }

  /** With the newline that the end anchor lets pass. */
  predicate CustomAllowed(s: string) {
    CustomRule(s) || (s != "" && s[|s| - 1] == '\n' && CustomRule(s[..|s| - 1]))
  }

  lemma CustomLineByRule(s: string)
    ensures MatchesLine(CUSTOM_ATTRIBUTE, s) <==> CustomAllowed(s)
  {
    CustomByRule(s);
    if s != "" {
      CustomByRule(s[..|s| - 1]);
    }
  }

  method IsValidEncAlgo(encAlgo: Value) returns (ok: bool)
    ensures ok <==> IsEncAlgo(encAlgo)
    ensures ok <==> encAlgo.Str? && (encAlgo.s in {"cryptobox", "mqtt", "xbr"} || CustomAllowed(encAlgo.s))
  {
    if !encAlgo.Str? {
      return false;
    }
    CustomLineByRule(encAlgo.s);
    ok := encAlgo.s == "cryptobox" || encAlgo.s == "mqtt" || encAlgo.s == "xbr" || MatchesLine(CUSTOM_ATTRIBUTE, encAlgo.s);
  }

  method IsValidEncSerializer(encSerializer: Value) returns (ok: bool)
    ensures ok <==> IsEncSerializer(encSerializer)
    ensures ok <==> encSerializer.Str? && (encSerializer.s in {"json", "msgpack", "cbor", "ubjson", "flatbuffers"}
                                           || CustomAllowed(encSerializer.s))
  {
    if !encSerializer.Str? {
      return false;
    }
    CustomLineByRule(encSerializer.s);
    var s := encSerializer.s;
    ok := s == "json" || s == "msgpack" || s == "cbor" || s == "ubjson" || s == "flatbuffers" || MatchesLine(CUSTOM_ATTRIBUTE, s);
  }

  // ---------------------------------------------------------------- the assertions of the constructors

  /** The entries of forward_for, as the constructors assert them one by one. */
  method AssertForwarders(forwardFor: seq<Value>) returns (ok: bool)
    ensures ok <==> AllForwarders(forwardFor)
  {
    for i := 0 to |forwardFor|
      invariant AllForwarders(forwardFor[..i])
    {
      var ff := forwardFor[i];
      assert forwardFor[..i + 1][i] == ff;
      if !ff.Dict? {
        return false;
      }
      if Name(Session) !in ff.entries || !ff.entries[Name(Session)].Int? {
        return false;
      }
      if Name(Authid) !in ff.entries || !(ff.entries[Name(Authid)] == Null || ff.entries[Name(Authid)].Str?) {
        return false;
      }
      if Name(Authrole) !in ff.entries || !ff.entries[Name(Authrole)].Str? {
        return false;
      }
    }
    assert forwardFor[..|forwardFor|] == forwardFor;
    ok := true;
  }

  /** What the constructors assert of arguments, payload and encryption. */
  method AssertBody(m: Message) returns (ok: bool)
    requires HasPayload(m.kind)
    ensures ok <==> BodyAsserts(m)
  {
    if m.kind == PUBLISH {
      if !(m.args.Null? || m.args.List? || m.args.Tuple? || m.args.Str? || m.args.Bytes?) {
        return false;
      }
      if !(m.kwargs.Null? || m.kwargs.Dict? || m.kwargs.Str? || m.kwargs.Bytes?) {
        return false;
      }
    } else {
      if !(m.args.Null? || m.args.List? || m.args.Tuple?) {
        return false;
      }
      if !(m.kwargs.Null? || m.kwargs.Dict?) {
        return false;
      }
    }
    if !(m.payload.Null? || m.payload.Bytes?) {
      return false;
    }
    if !(m.payload.Null? || (m.args.Null? && m.kwargs.Null?)) {
      return false;
    }
    ok := (EncAlgo !in m.attrs && EncKey !in m.attrs && EncSerializer !in m.attrs)
       || (!m.payload.Null? && EncAlgo in m.attrs);
  }

  /** What the constructors of the two replies assert of a revocation. */
  method AssertRevocation(m: Message) returns (ok: bool)
    requires (m.kind == UNSUBSCRIBED || m.kind == UNREGISTERED) && |m.head| == 1 && m.head[0].Int?
    ensures ok <==> RevocationAsserts(m)
  {
    var request := m.head[0].i;
    var revoked := Null;
    if m.kind == UNSUBSCRIBED {
      if Subscription in m.attrs {
        revoked := m.attrs[Subscription];
      }
      ok := (request != 0 && Subscription !in m.attrs) || (request == 0 && revoked != Int(0));
    } else {
      if Registration in m.attrs {
        revoked := m.attrs[Registration];
      }
      ok := (request != 0 && Registration !in m.attrs) || (request == 0 && revoked != Int(0));
    }
  }
}
