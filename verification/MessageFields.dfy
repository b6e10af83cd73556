/**
 * The optional fields of a message, taken from its dictionary one by one as parse does, each
 * with the type that the code asks for.
 */
module MessageFields {
  import opened Values
  import opened Messages
  import opened MessageTheorems
  import opened MessageChecks
  import opened MessageMethods
  import opened W = Wrappers
  import U = Uri

  type Taken = Result<map<FieldName, Value>, Failure>

  // ---------------------------------------------------------------- one field after the other

  /** An attribute is set unless it is None. */
  function With(taken: map<FieldName, Value>, f: FieldName, v: Value): map<FieldName, Value> {
    if v.Null? then taken else taken[f := v]
  }

  /** The fields in their order; the first that does not pass ends it. */
  ghost function TakeAll(k: Kind, fs: seq<FieldName>, options: map<Key, Value>): Taken {
    if fs == [] then Ok(map[])
    else
      var last := |fs| - 1;
      var before :- TakeAll(k, fs[..last], options);
      if FieldPasses(k, fs[last], options) then Ok(With(before, fs[last], Get(options, fs[last])))
      else Err(FieldError(k, fs[last], options[Name(fs[last])]).value)
  }

  lemma {:induction false} TakeAllStops(k: Kind, fs: seq<FieldName>, n: nat, options: map<Key, Value>)
    requires n <= |fs| && TakeAll(k, fs[..n], options).Err?
    ensures TakeAll(k, fs, options) == TakeAll(k, fs[..n], options)
  {
    if n < |fs| {
      assert fs[..|fs| - 1][..n] == fs[..n];
      TakeAllStops(k, fs[..|fs| - 1], n, options);
    } else {
      assert fs[..n] == fs;
    }
  }

  lemma {:induction false} FieldsErrorSnoc(k: Kind, fs: seq<FieldName>, f: FieldName, options: map<Key, Value>)
    ensures FieldsError(k, fs + [f], options)
            == if FieldsError(k, fs, options).Some? then FieldsError(k, fs, options)
               else if FieldPasses(k, f, options) then None else FieldError(k, f, options[Name(f)])
  {
    if fs == [] {
      assert [f][1..] == [];
    } else {
      FieldsErrorSnoc(k, fs[1..], f, options);
      assert (fs + [f])[1..] == fs[1..] + [f];
    }
  }

  lemma {:induction false} PickSnoc(fs: seq<FieldName>, f: FieldName, options: map<Key, Value>)
    ensures Pick((set g | g in fs + [f]), options) == With(Pick((set g | g in fs), options), f, Get(options, f))
  {
  }

  /** Taking the fields one after the other is what the schema says. */
  lemma {:induction false} TakeAllByTable(k: Kind, fs: seq<FieldName>, options: map<Key, Value>)
    ensures TakeAll(k, fs, options) == match FieldsError(k, fs, options)
                                       case Some(e) => Err(e)
                                       case None => Ok(Pick((set f | f in fs), options))
  {
    if fs != [] {
      var last := |fs| - 1;
      TakeAllByTable(k, fs[..last], options);
      assert fs[..last] + [fs[last]] == fs;
      FieldsErrorSnoc(k, fs[..last], fs[last], options);
      PickSnoc(fs[..last], fs[last], options);
    }
  }

  /** Of the fields fs, f is the next one, after those taken. */
  ghost predicate Next(k: Kind, fs: seq<FieldName>, f: FieldName, options: map<Key, Value>, taken: map<FieldName, Value>, i: nat) {
    i < |fs| && fs[i] == f && TakeAll(k, fs[..i], options) == Ok(taken)
  }

  /** The first n fields have been taken, or the error of the whole has been found. */
  ghost predicate TakenUpTo(k: Kind, fs: seq<FieldName>, options: map<Key, Value>, n: nat, r: Taken)
    requires n <= |fs|
  {
    r == if r.Ok? then TakeAll(k, fs[..n], options) else TakeAll(k, fs, options)
  }

  lemma {:induction false} TakeOne(k: Kind, fs: seq<FieldName>, f: FieldName, options: map<Key, Value>,
                                   taken: map<FieldName, Value>, i: nat, r: Taken)
    requires Next(k, fs, f, options, taken, i)
    requires r == if FieldPasses(k, f, options) then Ok(With(taken, f, Get(options, f)))
                  else Err(FieldError(k, f, options[Name(f)]).value)
    ensures TakenUpTo(k, fs, options, i + 1, r)
  {
    assert fs[..i + 1][..i] == fs[..i];
    if r.Err? {
      TakeAllStops(k, fs, i + 1, options);
    }
  }

  // ---------------------------------------------------------------- fields by type

  const BOOLS: set<FieldName> := {
    Acknowledge, ExcludeMe, Retain, Retained, XAcknowledgedDelivery, ReceiveProgress, Progress, GetRetained
  }
  const INTS: set<FieldName> := {Callee, Publisher, Caller, Subscription, Registration}
  const STRS: set<FieldName> := {
    CalleeAuthid, CalleeAuthrole, PublisherAuthid, PublisherAuthrole, CallerAuthid, CallerAuthrole, TransactionHash, Topic,
    Procedure
  }

  lemma BoolPasses(k: Kind, f: FieldName, options: map<Key, Value>)
    requires f in BOOLS && Name(f) in options
    ensures FieldError(k, f, options[Name(f)]) == if options[Name(f)].Bool? then None else Some(ProtocolError)
  {
  }

  lemma IntPasses(k: Kind, f: FieldName, options: map<Key, Value>)
    requires f in INTS && Name(f) in options
    ensures FieldError(k, f, options[Name(f)]) == if options[Name(f)].Int? then None else Some(ProtocolError)
  {
  }

  lemma StrPasses(k: Kind, f: FieldName, options: map<Key, Value>)
    requires f in STRS && Name(f) in options
    ensures FieldError(k, f, options[Name(f)]) == if options[Name(f)].Str? then None else Some(ProtocolError)
  {
  }

  /** A field with one test, whose failure is a protocol error. */
  lemma {:induction false} TakeTested(k: Kind, fs: seq<FieldName>, f: FieldName, options: map<Key, Value>, taken: map<FieldName, Value>, i: nat,
                                      passes: bool)
    requires Next(k, fs, f, options, taken, i) && Name(f) in options && (passes ==> !options[Name(f)].Null?)
    requires FieldError(k, f, options[Name(f)]) == if passes then None else Some(ProtocolError)
    ensures TakenUpTo(k, fs, options, i + 1, if passes then Ok(taken[f := options[Name(f)]]) else Err(ProtocolError))
  {
    TakeOne(k, fs, f, options, taken, i, if passes then Ok(taken[f := options[Name(f)]]) else Err(ProtocolError));
  }

  lemma {:induction false} TakeAbsent(k: Kind, fs: seq<FieldName>, f: FieldName, options: map<Key, Value>, taken: map<FieldName, Value>, i: nat)
    requires Next(k, fs, f, options, taken, i) && Name(f) !in options
    ensures TakenUpTo(k, fs, options, i + 1, Ok(taken))
  {
    TakeOne(k, fs, f, options, taken, i, Ok(taken));
  }

  method TakeBool(k: Kind, ghost fs: seq<FieldName>, f: FieldName, options: map<Key, Value>, taken: map<FieldName, Value>, i: nat)
    returns (r: Taken)
    requires f in BOOLS && Next(k, fs, f, options, taken, i)
    ensures TakenUpTo(k, fs, options, i + 1, r)
  {
    if Name(f) !in options {
      TakeAbsent(k, fs, f, options, taken, i);
      return Ok(taken);
    }
    var option := options[Name(f)];
    BoolPasses(k, f, options);
    TakeTested(k, fs, f, options, taken, i, option.Bool?);
    if !option.Bool? {
      return Err(ProtocolError);
    }
    r := Ok(taken[f := option]);
  }

  method TakeInt(k: Kind, ghost fs: seq<FieldName>, f: FieldName, options: map<Key, Value>, taken: map<FieldName, Value>, i: nat)
    returns (r: Taken)
    requires f in INTS && Next(k, fs, f, options, taken, i)
    ensures TakenUpTo(k, fs, options, i + 1, r)
  {
    if Name(f) !in options {
      TakeAbsent(k, fs, f, options, taken, i);
      return Ok(taken);
    }
    var option := options[Name(f)];
    IntPasses(k, f, options);
    TakeTested(k, fs, f, options, taken, i, option.Int?);
    if !option.Int? {
      return Err(ProtocolError);
    }
    r := Ok(taken[f := option]);
  }

  method TakeStr(k: Kind, ghost fs: seq<FieldName>, f: FieldName, options: map<Key, Value>, taken: map<FieldName, Value>, i: nat)
    returns (r: Taken)
    requires f in STRS && Next(k, fs, f, options, taken, i)
    ensures TakenUpTo(k, fs, options, i + 1, r)
  {
    if Name(f) !in options {
      TakeAbsent(k, fs, f, options, taken, i);
      return Ok(taken);
    }
    var option := options[Name(f)];
    StrPasses(k, f, options);
    TakeTested(k, fs, f, options, taken, i, option.Str?);
    if !option.Str? {
      return Err(ProtocolError);
    }
    r := Ok(taken[f := option]);
  }

  method OnlyInts(v: Value) returns (ok: bool)
    ensures ok <==> AllInts(v)
  {
    if !v.List? {
      return false;
    }
    for j := 0 to |v.items|
      invariant forall n :: 0 <= n < j ==> v.items[n].Int?
    {
      if !v.items[j].Int? {
        return false;
      }
    }
    ok := true;
  }

  /** exclude and eligible: a list of session ids. */
  method TakeInts(k: Kind, ghost fs: seq<FieldName>, f: FieldName, options: map<Key, Value>, taken: map<FieldName, Value>, i: nat)
    returns (r: Taken)
    requires (f == Exclude || f == Eligible) && Next(k, fs, f, options, taken, i)
    ensures TakenUpTo(k, fs, options, i + 1, r)
  {
    if Name(f) !in options {
      TakeAbsent(k, fs, f, options, taken, i);
      return Ok(taken);
    }
    var option := options[Name(f)];
    var ok := OnlyInts(option);
    TakeTested(k, fs, f, options, taken, i, ok);
    if !ok {
      return Err(ProtocolError);
    }
    r := Ok(taken[f := option]);
  }

  method OnlyStrs(v: Value) returns (ok: bool)
    ensures ok <==> AllStrs(v)
  {
    if !v.List? {
      return false;
    }
    for j := 0 to |v.items|
      invariant forall n :: 0 <= n < j ==> v.items[n].Str?
    {
      if !v.items[j].Str? {
        return false;
      }
    }
    ok := true;
  }

  /** exclude_authid, exclude_authrole, eligible_authid and eligible_authrole: a list of strings. */
  method TakeStrs(k: Kind, ghost fs: seq<FieldName>, f: FieldName, options: map<Key, Value>, taken: map<FieldName, Value>, i: nat)
    returns (r: Taken)
    requires (f == ExcludeAuthid || f == ExcludeAuthrole || f == EligibleAuthid || f == EligibleAuthrole)
    requires Next(k, fs, f, options, taken, i)
    ensures TakenUpTo(k, fs, options, i + 1, r)
  {
    if Name(f) !in options {
      TakeAbsent(k, fs, f, options, taken, i);
      return Ok(taken);
    }
    var option := options[Name(f)];
    var ok := OnlyStrs(option);
    TakeTested(k, fs, f, options, taken, i, ok);
    if !ok {
      return Err(ProtocolError);
    }
    r := Ok(taken[f := option]);
  }

  /** timeout: not negative. */
  method TakeTimeout(k: Kind, ghost fs: seq<FieldName>, options: map<Key, Value>, taken: map<FieldName, Value>, i: nat)
    returns (r: Taken)
    requires Next(k, fs, Timeout, options, taken, i)
    ensures TakenUpTo(k, fs, options, i + 1, r)
  {
    r := Ok(taken);
    if Name(Timeout) in options {
      var option := options[Name(Timeout)];
      r := if !option.Int? || option.i < 0 then Err(ProtocolError) else Ok(taken[Timeout := option]);
    }
    TakeOne(k, fs, Timeout, options, taken, i, r);
  }

  /** reason: a URI without empty components. */
  method TakeReason(k: Kind, ghost fs: seq<FieldName>, options: map<Key, Value>, taken: map<FieldName, Value>, i: nat)
    returns (r: Taken)
    requires Next(k, fs, Reason, options, taken, i)
    ensures TakenUpTo(k, fs, options, i + 1, r)
  {
    r := Ok(taken);
    if Name(Reason) in options {
      var reason := CheckOrRaiseUri(options[Name(Reason)], false, false, false, false);
      r := if reason.Err? then Err(InvalidUriError) else Ok(taken[Reason := options[Name(Reason)]]);
    }
    TakeOne(k, fs, Reason, options, taken, i, r);
  }

  method TakeMatch(k: Kind, ghost fs: seq<FieldName>, options: map<Key, Value>, taken: map<FieldName, Value>, i: nat)
    returns (r: Taken)
    requires Next(k, fs, Match, options, taken, i)
    ensures TakenUpTo(k, fs, options, i + 1, r)
  {
    r := Ok(taken);
    if Name(Match) in options {
      var option := options[Name(Match)];
      r := if option != Str("exact") && option != Str("prefix") && option != Str("wildcard") then Err(ProtocolError)
           else Ok(taken[Match := option]);
    }
    TakeOne(k, fs, Match, options, taken, i, r);
  }

  /** mode: a call may also be skipped, an invocation may not. */
  method TakeMode(k: Kind, ghost fs: seq<FieldName>, options: map<Key, Value>, taken: map<FieldName, Value>, i: nat)
    returns (r: Taken)
    requires (k == CANCEL || k == INTERRUPT) && Next(k, fs, Mode, options, taken, i)
    ensures TakenUpTo(k, fs, options, i + 1, r)
  {
    r := Ok(taken);
    if Name(Mode) in options {
      var option := options[Name(Mode)];
      var known := if k == CANCEL then option == Str("skip") || option == Str("killnowait") || option == Str("kill")
                   else option == Str("kill") || option == Str("killnowait");
      r := if !known then Err(ProtocolError) else Ok(taken[Mode := option]);
    }
    TakeOne(k, fs, Mode, options, taken, i, r);
  }

  method TakeForwarders(k: Kind, ghost fs: seq<FieldName>, options: map<Key, Value>, taken: map<FieldName, Value>, i: nat)
    returns (r: Taken)
    requires Next(k, fs, ForwardFor, options, taken, i)
    ensures TakenUpTo(k, fs, options, i + 1, r)
  {
    r := Ok(taken);
    if Name(ForwardFor) in options {
      var valid := ForwardForValid(options[Name(ForwardFor)]);
      r := if !valid then Err(ProtocolError) else Ok(taken[ForwardFor := options[Name(ForwardFor)]]);
    }
    TakeOne(k, fs, ForwardFor, options, taken, i, r);
  }
}
