/**
 * URI patterns: compiled to a regular expression with one group for every wildcard, and
 * matched against URIs to bind the wildcards.
 */
module Patterns {
  import opened Wrappers
  import opened Regex

  // ---------------------------------------------------------------- components of a pattern

  function Lit(c: char): Re {
    One(Literal(c))
  }

  const IDENTIFIER: Re := Cat(One(Lower), Star(One(NameChar)))

  /** _URI_COMPONENT, _URI_NAMED_COMPONENT and _URI_NAMED_CONVERTED_COMPONENT. */
  const URI_COMPONENT: Re := Cat(One(LowerDigit), Star(One(ComponentChar)))
  const URI_NAMED_COMPONENT: Re := Cat(Lit('<'), Cat(Group(None, IDENTIFIER), Lit('>')))
  const URI_NAMED_CONVERTED_COMPONENT: Re :=
    Cat(Lit('<'), Cat(Group(None, IDENTIFIER), Cat(Lit(':'), Cat(Group(None, Star(One(Lower))), Lit('>')))))

  /** The part of a component that these expressions look at: without one trailing newline. */
  function Line(c: string): string {
    if c != [] && c[|c| - 1] == '\n' then c[..|c| - 1] else c
  }

  predicate IsIdentifier(s: string) {
    s != [] && In(s[0], Lower) && AllIn(s[1..], NameChar)
  }

  predicate IsText(c: string) {
    var s := Line(c); s != [] && In(s[0], LowerDigit) && AllIn(s[1..], ComponentChar)
  }

  /** The name in a component <name>. */
  function NameIn(c: string): Option<string> {
    var s := Line(c);
    if |s| >= 3 && s[0] == '<' && s[|s| - 1] == '>' && IsIdentifier(s[1..|s| - 1]) then Some(s[1..|s| - 1]) else None
  }

  function FirstColon(s: string): (k: nat)
    ensures k <= |s| && (k < |s| ==> s[k] == ':') && ':' !in s[..k]
  {
    if s == [] || s[0] == ':' then 0
    else
      var k := 1 + FirstColon(s[1..]);
      assert s[..k] == [s[0]] + s[1..][..k - 1];
      k
  }

  /** The name and the type in name:type>. */
  function NameColonTypeEnd(t: string): Option<(string, string)> {
    if t == [] || t[|t| - 1] != '>' then None
    else
      var inner := t[..|t| - 1];
      var k := FirstColon(inner);
      if k < |inner| && IsIdentifier(inner[..k]) && AllIn(inner[k + 1..], Lower) then Some((inner[..k], inner[k + 1..])) else None
  }

  /** The name and the type in a component <name:type>. */
  function NameAndTypeIn(c: string): Option<(string, string)> {
    var s := Line(c);
    if s != [] && s[0] == '<' then NameColonTypeEnd(s[1..]) else None
  }

  lemma IdentifierMatches(s: string)
    ensures Matches(IDENTIFIER, s) <==> IsIdentifier(s)
  {
    HeadAndTail(Lower, NameChar, s);
  }

  lemma {:induction false} HeadAndTail(head: CharClass, tail: CharClass, s: string)
    ensures Matches(Cat(One(head), Star(One(tail))), s) <==> s != [] && In(s[0], head) && AllIn(s[1..], tail)
  {
    if s != [] {
      StarOfClass(tail, s[1..]);
      if In(s[0], head) && AllIn(s[1..], tail) {
        CatStep(One(head), Star(One(tail)), s, 1);
      }
    }
  }

  lemma {:induction false} LitThen(c: char, r: Re, s: string, caps: seq<Capture>)
    ensures Parses(Cat(Lit(c), r), s, caps) <==> s != [] && s[0] == c && Parses(r, s[1..], caps)
  {
    if s != [] && s[0] == c && Parses(r, s[1..], caps) {
      assert caps[..0] == [] && caps[0..] == caps;
      assert Parses(Lit(c), s[..1], caps[..0]);
    }
    forall k, j | 0 <= k <= |s| && 0 <= j <= |caps| && Parses(Lit(c), s[..k], caps[..j]) && Parses(r, s[k..], caps[j..])
      ensures s != [] && s[0] == c && Parses(r, s[1..], caps)
    {
      assert k == 1 && j == 0 && caps[0..] == caps;
    }
  }

  lemma {:induction false} ThenLit(r: Re, c: char, s: string, caps: seq<Capture>)
    ensures Parses(Cat(r, Lit(c)), s, caps) <==> s != [] && s[|s| - 1] == c && Parses(r, s[..|s| - 1], caps)
  {
    var n := |caps|;
    if s != [] && s[|s| - 1] == c && Parses(r, s[..|s| - 1], caps) {
      assert caps[..n] == caps && caps[n..] == [];
      assert Parses(Lit(c), s[|s| - 1..], caps[n..]);
    }
    forall k, j | 0 <= k <= |s| && 0 <= j <= |caps| && Parses(r, s[..k], caps[..j]) && Parses(Lit(c), s[k..], caps[j..])
      ensures s != [] && s[|s| - 1] == c && Parses(r, s[..|s| - 1], caps)
    {
      assert k == |s| - 1 && s[k..][0] == s[k] && j == n && caps[..n] == caps;
    }
  }

  /** The three tests of a component are the three expressions. */
  lemma {:induction false} TextTest(c: string)
    ensures MatchesLine(URI_COMPONENT, c) <==> IsText(c)
  {
    HeadAndTail(LowerDigit, ComponentChar, c);
    if c != [] && c[|c| - 1] == '\n' {
      HeadAndTail(LowerDigit, ComponentChar, c[..|c| - 1]);
      assert |c| > 1 ==> c[1..][|c| - 2] == '\n';
    }
  }

  /** A component is a name exactly if its expression matches, and the group captures this name. */
  lemma {:induction false} NameTest(c: string)
    ensures forall caps :: ParsesLine(URI_NAMED_COMPONENT, c, caps)
                           <==> NameIn(c).Some? && caps == [Capture(None, NameIn(c).value)]
    ensures MatchesLine(URI_NAMED_COMPONENT, c) <==> NameIn(c).Some?
  {
    forall caps
      ensures ParsesLine(URI_NAMED_COMPONENT, c, caps) <==> NameIn(c).Some? && caps == [Capture(None, NameIn(c).value)]
    {
      NameParses(c, caps);
      if c != [] {
        NameParses(c[..|c| - 1], caps);
      }
    }
    MatchesLineIfParses(URI_NAMED_COMPONENT, c);
    if NameIn(c).Some? {
      assert ParsesLine(URI_NAMED_COMPONENT, c, [Capture(None, NameIn(c).value)]);
    }
  }

  lemma {:induction false} NameParses(s: string, caps: seq<Capture>)
    ensures Parses(URI_NAMED_COMPONENT, s, caps) <==>
            && |s| >= 3 && s[0] == '<' && s[|s| - 1] == '>' && IsIdentifier(s[1..|s| - 1])
            && caps == [Capture(None, s[1..|s| - 1])]
  {
    LitThen('<', Cat(Group(None, IDENTIFIER), Lit('>')), s, caps);
    if s != [] {
      ThenLit(Group(None, IDENTIFIER), '>', s[1..], caps);
      if |s| >= 2 {
        assert s[1..][..|s| - 2] == s[1..|s| - 1] && s[1..][|s| - 2] == s[|s| - 1];
        IdentifierMatches(s[1..|s| - 1]);
      }
    }
  }

  function NameAndTypeCaptured(nameAndType: (string, string)): seq<Capture> {
    [Capture(None, nameAndType.0), Capture(None, nameAndType.1)]
  }

  /** The same for a name with a type, each captured by its group. */
  lemma {:induction false} NameAndTypeTest(c: string)
    ensures forall caps :: ParsesLine(URI_NAMED_CONVERTED_COMPONENT, c, caps)
                           <==> NameAndTypeIn(c).Some? && caps == NameAndTypeCaptured(NameAndTypeIn(c).value)
    ensures MatchesLine(URI_NAMED_CONVERTED_COMPONENT, c) <==> NameAndTypeIn(c).Some?
  {
    forall caps
      ensures ParsesLine(URI_NAMED_CONVERTED_COMPONENT, c, caps)
              <==> NameAndTypeIn(c).Some? && caps == NameAndTypeCaptured(NameAndTypeIn(c).value)
    {
      NameAndTypeParses(c, caps);
      if c != [] {
        NameAndTypeParses(c[..|c| - 1], caps);
      }
    }
    MatchesLineIfParses(URI_NAMED_CONVERTED_COMPONENT, c);
    if NameAndTypeIn(c).Some? {
      assert ParsesLine(URI_NAMED_CONVERTED_COMPONENT, c, NameAndTypeCaptured(NameAndTypeIn(c).value));
    }
  }

  lemma {:induction false} NameAndTypeParses(s: string, caps: seq<Capture>)
    ensures Parses(URI_NAMED_CONVERTED_COMPONENT, s, caps) <==>
            && s != [] && s[0] == '<' && NameColonTypeEnd(s[1..]).Some?
            && caps == NameAndTypeCaptured(NameColonTypeEnd(s[1..]).value)
  {
    LitThen('<', Cat(Group(None, IDENTIFIER), COLON_TYPE_END), s, caps);
    if s != [] {
      NameColonTypeParses(s[1..], caps);
    }
  }

  const COLON_TYPE_END: Re := Cat(Lit(':'), Cat(Group(None, Star(One(Lower))), Lit('>')))

  lemma {:induction false} ColonTypeEndParses(t: string, caps: seq<Capture>)
    ensures Parses(COLON_TYPE_END, t, caps) <==>
            && |t| >= 2 && t[0] == ':' && t[|t| - 1] == '>' && AllIn(t[1..|t| - 1], Lower)
            && caps == [Capture(None, t[1..|t| - 1])]
  {
    LitThen(':', Cat(Group(None, Star(One(Lower))), Lit('>')), t, caps);
    if t != [] {
      ThenLit(Group(None, Star(One(Lower))), '>', t[1..], caps);
      if |t| >= 2 {
        assert t[1..][..|t| - 2] == t[1..|t| - 1] && t[1..][|t| - 2] == t[|t| - 1];
        StarOfClass(Lower, t[1..|t| - 1]);
      }
    }
  }

  /** The name ends at the first colon, for no identifier holds one. */
  lemma {:induction false} NameEndsAtColon(t: string, j: nat)
    requires j + 1 < |t| && IsIdentifier(t[..j]) && t[j] == ':'
    ensures j == FirstColon(t[..|t| - 1]) < |t| - 1
  {
    var inner := t[..|t| - 1];
    var k := FirstColon(inner);
    assert inner[j] == ':';
    assert forall i :: 0 <= i < j ==> t[..j][i] == inner[i] != ':';
    assert forall i :: 0 <= i < k ==> inner[..k][i] == inner[i] != ':';
  }

  lemma {:induction false} NameColonTypeSplits(t: string) returns (k: nat)
    requires NameColonTypeEnd(t).Some?
    ensures k + 1 < |t| && t[..k] == NameColonTypeEnd(t).value.0 && IsIdentifier(t[..k])
    ensures var u := t[k..]; |u| >= 2 && u[0] == ':' && u[|u| - 1] == '>'
                             && AllIn(u[1..|u| - 1], Lower) && u[1..|u| - 1] == NameColonTypeEnd(t).value.1
  {
    k := FirstColon(t[..|t| - 1]);
    Tails(t, k);
  }

  lemma BothCaptured(r: Re, t: string, k: nat, compType: string)
    requires k <= |t| && Matches(IDENTIFIER, t[..k]) && Parses(r, t[k..], [Capture(None, compType)])
    ensures Parses(Cat(Group(None, IDENTIFIER), r), t, NameAndTypeCaptured((t[..k], compType)))
  {
    ParsesCat(Group(None, IDENTIFIER), r, t, k, [Capture(None, t[..k])], [Capture(None, compType)]);
    assert [Capture(None, t[..k])] + [Capture(None, compType)] == NameAndTypeCaptured((t[..k], compType));
  }

  lemma {:induction false} NameColonTypeThere(t: string)
    requires NameColonTypeEnd(t).Some?
    ensures Parses(Cat(Group(None, IDENTIFIER), COLON_TYPE_END), t, NameAndTypeCaptured(NameColonTypeEnd(t).value))
  {
    var k := NameColonTypeSplits(t);
    var (name, compType) := NameColonTypeEnd(t).value;
    IdentifierMatches(name);
    ColonTypeEndParses(t[k..], [Capture(None, compType)]);
    BothCaptured(COLON_TYPE_END, t, k, compType);
  }

  lemma {:induction false} NameColonTypeParses(t: string, caps: seq<Capture>)
    ensures Parses(Cat(Group(None, IDENTIFIER), COLON_TYPE_END), t, caps)
            <==> NameColonTypeEnd(t).Some? && caps == NameAndTypeCaptured(NameColonTypeEnd(t).value)
  {
    forall k, j | 0 <= k <= |t| && 0 <= j <= |caps|
                  && Parses(Group(None, IDENTIFIER), t[..k], caps[..j]) && Parses(COLON_TYPE_END, t[k..], caps[j..])
      ensures NameColonTypeEnd(t).Some? && caps == NameAndTypeCaptured(NameColonTypeEnd(t).value)
    {
      NameColonTypeOnly(t, caps, k, j);
    }
    if NameColonTypeEnd(t).Some? {
      NameColonTypeThere(t);
    }
  }

  lemma {:induction false} NameColonTypeAt(t: string, k: nat)
    requires k + 1 < |t| && IsIdentifier(t[..k])
    requires t[k] == ':' && t[|t| - 1] == '>' && AllIn(t[k..][1..|t| - k - 1], Lower)
    ensures NameColonTypeEnd(t) == Some((t[..k], t[k..][1..|t| - k - 1]))
  {
    NameEndsAtColon(t, k);
    Tails(t, k);
  }

  lemma {:induction false} TwoCaptures(caps: seq<Capture>, j: nat, name: string, compType: string)
    requires j <= |caps| && caps[..j] == [Capture(None, name)] && caps[j..] == [Capture(None, compType)]
    ensures caps == NameAndTypeCaptured((name, compType))
  {
    assert caps == caps[..j] + caps[j..];
  }

  lemma {:induction false} NameColonTypeOnly(t: string, caps: seq<Capture>, k: nat, j: nat)
    requires k <= |t| && j <= |caps|
    requires Parses(Group(None, IDENTIFIER), t[..k], caps[..j]) && Parses(COLON_TYPE_END, t[k..], caps[j..])
    ensures NameColonTypeEnd(t).Some? && caps == NameAndTypeCaptured(NameColonTypeEnd(t).value)
  {
    IdentifierMatches(t[..k]);
    ColonTypeEndParses(t[k..], caps[j..]);
    TwoCaptures(caps, j, t[..k], t[k..][1..|t| - k - 1]);
    NameColonTypeAt(t, k);
  }

  lemma Tails(t: string, k: nat)
    requires k + 1 < |t|
    ensures t[k..][1..|t| - k - 1] == t[..|t| - 1][k + 1..] && t[k..][|t| - k - 1] == t[|t| - 1]
    ensures t[..|t| - 1][..k] == t[..k] && t[..|t| - 1][k] == t[k..][0]
  {
  }

  // ---------------------------------------------------------------- compiling a pattern

  datatype Conversion = ToStr | ToInt

  /** A key of the bindings: the name of a group, or its number if it has none. */
  datatype Key = Named(name: string) | Numbered(number: nat)

  /** A component, once compiled. */
  datatype Item =
    | Text(text: string)
    | Wildcard(name: Option<string>, conversion: Conversion)

  function ConversionOf(compType: string): Conversion {
    if compType == "int" then ToInt else ToStr
  }

  predicate KnownType(compType: string) {
    compType == "str" || compType == "string" || compType == "int" || compType == "suffix"
  }

  /** What a component stands for, tested in the order of the compiler. */
  function ItemOf(c: string): Option<Item> {
    if NameAndTypeIn(c).Some? then
      var (name, compType) := NameAndTypeIn(c).value;
      if KnownType(compType) then Some(Wildcard(Some(name), ConversionOf(compType))) else None
    else if NameIn(c).Some? then Some(Wildcard(NameIn(c), ToStr))
    else if IsText(c) then Some(Text(c))
    else if c == "" then Some(Wildcard(None, ToStr))
    else None
  }

  predicate SuffixOnlyLast(c: string, isLast: bool) {
    NameAndTypeIn(c).Some? && NameAndTypeIn(c).value.1 == "suffix" ==> isLast
  }

  predicate HasName(items: seq<Item>, name: string) {
    exists i :: 0 <= i < |items| && items[i].Wildcard? && items[i].name == Some(name)
  }

  predicate NamesDistinct(items: seq<Item>) {
    forall i, j :: 0 <= i < j < |items| && items[i].Wildcard? && items[j].Wildcard? && items[i].name.Some? ==>
      items[i].name != items[j].name
  }

  /** The components of a valid pattern and what they stand for. */
  ghost predicate Stands(cs: seq<string>, n: nat, items: seq<Item>)
    requires n <= |cs|
  {
    && |items| == n && NamesDistinct(items)
    && forall i :: 0 <= i < n ==> ItemOf(cs[i]) == Some(items[i]) && SuffixOnlyLast(cs[i], i == |cs| - 1)
  }

  function Wildcards(items: seq<Item>): nat {
    if items == [] then 0 else Wildcards(items[..|items| - 1]) + (if items[|items| - 1].Wildcard? then 1 else 0)
  }

  /** The key of wildcard i: its name, or else its number among all groups. */
  function KeyOf(items: seq<Item>, i: nat): Key
    requires i < |items| && items[i].Wildcard?
  {
    if items[i].name.Some? then Named(items[i].name.value) else Numbered(Wildcards(items[..i + 1]))
  }

  function Names(items: seq<Item>): map<Key, Conversion> {
    if items == [] then map[]
    else
      var last := |items| - 1;
      if items[last].Wildcard? then Names(items[..last])[KeyOf(items, last) := items[last].conversion]
      else Names(items[..last])
  }

  /** A literal component of a regular expression. */
  function Literally(s: string): Re {
    if s == [] then Empty else Cat(Lit(s[0]), Literally(s[1..]))
  }

  function Fragment(item: Item): Re {
    match item
    case Text(text) => Literally(text)
    case Wildcard(name, _) => Group(name, Plus(One(Loose)))
  }

  function Fragments(items: seq<Item>): seq<Re> {
    seq(|items|, i requires 0 <= i < |items| => Fragment(items[i]))
  }

  /** The fragments joined by escaped dots. */
  function JoinDots(pl: seq<Re>): Re {
    if pl == [] then Empty else if |pl| == 1 then pl[0] else Cat(pl[0], Cat(DOT, JoinDots(pl[1..])))
  }

  datatype Pattern =
    | Exact
    | Wild(re: Re, names: map<Key, Conversion>)

  datatype Error = TypeError | NoMatch | InvalidInt

  /** The pattern of a list of items: without a wildcard there is no expression. */
  function Compiled(items: seq<Item>): Pattern {
    if Names(items) == map[] then Exact else Wild(JoinDots(Fragments(items)), Names(items))
  }

  /** Pattern.__init__, for a non-empty pattern. */
  method Compile(uri: string) returns (r: Result<Pattern, Error>, ghost items: seq<Item>)
    requires uri != ""
    ensures r.Ok? ==> Stands(Split(uri), |Split(uri)|, items)
    ensures r.Err? ==> r == Err(TypeError) && forall its :: !Stands(Split(uri), |Split(uri)|, its)
    ensures r.Ok? ==> r.value == Compiled(items)
  {
    var components := Split(uri);
    var pl: seq<Re> := [];
    var nc: map<Key, Conversion> := map[];
    var groupCount := 0;
    items := [];
    for i := 0 to |components|
      invariant Stands(components, i, items)
      invariant pl == Fragments(items) && nc == Names(items) && groupCount == Wildcards(items)
    {
      var ok;
      ok, pl, nc, groupCount := CompileComponent(components[i], i == |components| - 1, pl, nc, groupCount, items);
      if !ok {
        NotCompilable(components, i, items);
        return Err(TypeError), [];
      }
      Snoc(items, ItemOf(components[i]).value);
      items := AddItem(components, i, items);
    }
    r := Ok(if nc != map[] then Wild(JoinDots(pl), nc) else Exact);
  }

  /** The body of the compiler's loop. */
  method CompileComponent(component: string, isLast: bool, pl: seq<Re>, nc: map<Key, Conversion>, groupCount: nat,
                          ghost items: seq<Item>)
    returns (ok: bool, pl': seq<Re>, nc': map<Key, Conversion>, groupCount': nat)
    requires nc == Names(items) && groupCount == Wildcards(items)
    ensures ok <==> Addable(component, isLast, items)
    ensures ok ==> var item := ItemOf(component).value;
      && pl' == pl + [Fragment(item)]
      && groupCount' == groupCount + (if item.Wildcard? then 1 else 0)
      && nc' == if item.Text? then nc
                else nc[NextKey(items, item.name) := item.conversion]
  {
    ok, pl', nc', groupCount' := false, pl, nc, groupCount;
    if NameAndTypeIn(component).Some? {
      var (name, compType) := NameAndTypeIn(component).value;
      if !KnownType(compType) {
        return;
      }
      if compType == "suffix" && !isLast {
        return;
      }
      NamesHaveName(items, name);
      if Named(name) in nc {
        return;
      }
      nc' := nc[Named(name) := ConversionOf(compType)];
      pl' := pl + [Group(Some(name), Plus(One(Loose)))];
      groupCount' := groupCount + 1;
    } else if NameIn(component).Some? {
      var name := NameIn(component).value;
      NamesHaveName(items, name);
      if Named(name) in nc {
        return;
      }
      nc' := nc[Named(name) := ToStr];
      pl' := pl + [Group(Some(name), Plus(One(Loose)))];
      groupCount' := groupCount + 1;
    } else if IsText(component) {
      pl' := pl + [Literally(component)];
    } else if component == "" {
      groupCount' := groupCount + 1;
      pl' := pl + [Group(None, Plus(One(Loose)))];
      nc' := nc[Numbered(groupCount') := ToStr];
    } else {
      return;
    }
    ok := true;
  }

  lemma {:induction false} NamesHaveName(items: seq<Item>, name: string)
    ensures Named(name) in Names(items) <==> HasName(items, name)
  {
    if items != [] {
      var last := |items| - 1;
      NamesHaveName(items[..last], name);
      if HasName(items, name) {
        var i :| 0 <= i < |items| && items[i].Wildcard? && items[i].name == Some(name);
        assert i < last ==> items[..last][i] == items[i];
      }
      if HasName(items[..last], name) {
        var i :| 0 <= i < last && items[..last][i].Wildcard? && items[..last][i].name == Some(name);
        assert items[i] == items[..last][i];
      }
    }
  }

  lemma {:induction false} StandsPrefix(cs: seq<string>, i: nat, items: seq<Item>, its: seq<Item>)
    requires i <= |cs| && Stands(cs, i, items) && Stands(cs, |cs|, its)
    ensures items == its[..i]
  {
    forall k | 0 <= k < i ensures items[k] == its[k] {
      assert Some(items[k]) == ItemOf(cs[k]) == Some(its[k]);
    }
  }

  /** A component that may follow items. */
  ghost predicate Addable(c: string, isLast: bool, items: seq<Item>) {
    && ItemOf(c).Some? && SuffixOnlyLast(c, isLast)
    && var item := ItemOf(c).value;
       (item.Wildcard? && item.name.Some? ==> !HasName(items, item.name.value))
  }

  lemma {:induction false} StandsAddable(cs: seq<string>, i: nat, its: seq<Item>)
    requires i < |cs| && Stands(cs, |cs|, its)
    ensures Addable(cs[i], i == |cs| - 1, its[..i])
  {
    assert ItemOf(cs[i]) == Some(its[i]);
  }

  /** What makes the compiler stop at component i leaves no way to compile the whole. */
  lemma {:induction false} NotCompilable(cs: seq<string>, i: nat, items: seq<Item>)
    requires i < |cs| && Stands(cs, i, items) && !Addable(cs[i], i == |cs| - 1, items)
    ensures forall its :: !Stands(cs, |cs|, its)
  {
    forall its: seq<Item> ensures !Stands(cs, |cs|, its) {
      if Stands(cs, |cs|, its) {
        StandsPrefix(cs, i, items, its);
        StandsAddable(cs, i, its);
      }
    }
  }

  /** The key under which the next item is bound. */
  function NextKey(items: seq<Item>, name: Option<string>): Key {
    if name.Some? then Named(name.value) else Numbered(Wildcards(items) + 1)
  }

  lemma {:induction false} Snoc(items: seq<Item>, item: Item)
    ensures var more := items + [item];
            && Fragments(more) == Fragments(items) + [Fragment(item)]
            && Wildcards(more) == Wildcards(items) + (if item.Wildcard? then 1 else 0)
            && Names(more) == if item.Text? then Names(items) else Names(items)[NextKey(items, item.name) := item.conversion]
  {
    var more := items + [item];
    assert more[..|items|] == items && more[..|items| + 1] == more;
  }

  lemma {:induction false} NamesStayDistinct(items: seq<Item>, item: Item)
    requires NamesDistinct(items)
    requires item.Wildcard? && item.name.Some? ==> !HasName(items, item.name.value)
    ensures NamesDistinct(items + [item])
  {
    var more := items + [item];
    forall j | 0 <= j < |items| ensures more[j] == items[j] {
    }
  }

  lemma {:induction false} AddItem(cs: seq<string>, i: nat, items: seq<Item>) returns (more: seq<Item>)
    requires i < |cs| && Stands(cs, i, items) && Addable(cs[i], i == |cs| - 1, items)
    ensures more == items + [ItemOf(cs[i]).value] && Stands(cs, i + 1, more)
  {
    more := items + [ItemOf(cs[i]).value];
    NamesStayDistinct(items, ItemOf(cs[i]).value);
    forall k | 0 <= k < i + 1 ensures ItemOf(cs[k]) == Some(more[k]) && SuffixOnlyLast(cs[k], k == |cs| - 1) {
      assert k < i ==> more[k] == items[k] && ItemOf(cs[k]) == Some(items[k]);
    }
  }
}
