/**
 * Matching a URI against a compiled pattern is splitting both on dots and comparing them
 * component by component.
 */
module PatternMatching {
  import opened Wrappers
  import opened Regex
  import opened Patterns

  // ---------------------------------------------------------------- componentwise comparison

  predicate ItemMatches(item: Item, c: string) {
    match item
    case Text(text) => c == text
    case Wildcard(_, _) => c != [] && AllIn(c, Loose)
  }

  predicate SplitMatches(items: seq<Item>, cs: seq<string>) {
    |items| == |cs| && forall i :: 0 <= i < |items| ==> ItemMatches(items[i], cs[i])
  }

  function CaptureOf(item: Item, c: string): seq<Capture> {
    if item.Wildcard? then [Capture(item.name, c)] else []
  }

  /** The components at the wildcards, in order. */
  function Captured(items: seq<Item>, cs: seq<string>): (r: seq<Capture>)
    requires |items| == |cs|
    ensures |r| == Wildcards(items)
  {
    if items == [] then []
    else
      var last := |items| - 1;
      Captured(items[..last], cs[..last]) + CaptureOf(items[last], cs[last])
  }

  lemma {:induction false} CapturedCons(item: Item, items: seq<Item>, c: string, cs: seq<string>)
    requires |items| == |cs|
    ensures Captured([item] + items, [c] + cs) == CaptureOf(item, c) + Captured(items, cs)
    decreases |items|
  {
    var its, ds := [item] + items, [c] + cs;
    var last := |items|;
    if items == [] {
      assert its[..last] == [] && ds[..last] == [];
    } else {
      assert its[..last] == [item] + items[..last - 1] && ds[..last] == [c] + cs[..last - 1];
      CapturedCons(item, items[..last - 1], c, cs[..last - 1]);
    }
  }

  // ---------------------------------------------------------------- the compiled expression

  lemma {:induction false} LiterallyParses(t: string, s: string, caps: seq<Capture>)
    ensures Parses(Literally(t), s, caps) <==> s == t && caps == []
    decreases |t|
  {
    if t != [] {
      if s != [] {
        LiterallyParses(t[1..], s[1..], caps);
        if s == t && caps == [] {
          assert Parses(Lit(t[0]), s[..1], caps[..0]) && Parses(Literally(t[1..]), s[1..], caps[0..]);
        }
      }
      forall k, j | 0 <= k <= |s| && 0 <= j <= |caps| && Parses(Lit(t[0]), s[..k], caps[..j]) && Parses(Literally(t[1..]), s[k..], caps[j..])
        ensures s == t && caps == []
      {
        LiterallyParses(t[1..], s[k..], caps[j..]);
        assert s == s[..k] + s[k..] && t == [t[0]] + t[1..];
      }
    }
  }

  lemma {:induction false} FragmentParses(item: Item, s: string, caps: seq<Capture>)
    ensures Parses(Fragment(item), s, caps) <==> ItemMatches(item, s) && caps == CaptureOf(item, s)
  {
    match item
    case Text(text) => LiterallyParses(text, s, caps);
    case Wildcard(_, _) => PlusOfClass(Loose, s);
  }

  predicate NoDots(items: seq<Item>) {
    forall i :: 0 <= i < |items| && items[i].Text? ==> '.' !in items[i].text
  }

  lemma MatchedHasNoDot(item: Item, c: string)
    requires ItemMatches(item, c) && (item.Text? ==> '.' !in item.text)
    ensures '.' !in c
  {
  }

  lemma {:induction false} SingleComponent(s: string)
    requires |Split(s)| == 1
    ensures Split(s) == [s] && '.' !in s
  {
    var d := FirstDot(s);
    assert s[..d] == s || d < |s|;
    if d < |s| {
      SplitAtDot(s, d);
    }
    SplitNoDot(s[..d]);
  }

  lemma {:induction false} OneItemParses(item: Item, s: string, caps: seq<Capture>)
    requires NoDots([item])
    ensures Parses(JoinDots(Fragments([item])), s, caps)
            <==> SplitMatches([item], Split(s)) && caps == Captured([item], Split(s))
  {
    FragmentParses(item, s, caps);
    assert Fragments([item]) == [Fragment(item)];
    assert [item][0] == item;
    if ItemMatches(item, s) {
      MatchedHasNoDot(item, s);
      SplitNoDot(s);
    }
    if |Split(s)| == 1 {
      SingleComponent(s);
      CapturedCons(item, [], s, []);
      assert [item] + [] == [item] && [s] + [] == [s];
    }
  }

  lemma {:induction false} ManyComponents(s: string)
    requires |Split(s)| > 1
    ensures var d := FirstDot(s); d < |s| && Split(s) == [s[..d]] + Split(s[d + 1..])
  {
    var d := FirstDot(s);
    if d == |s| {
      assert s[..d] == s;
      SplitNoDot(s);
    } else {
      SplitAtDot(s, d);
    }
  }

  lemma SplitMatchesCons(item: Item, items: seq<Item>, c: string, cs: seq<string>)
    ensures SplitMatches([item] + items, [c] + cs) <==> ItemMatches(item, c) && SplitMatches(items, cs)
  {
    var its, ds := [item] + items, [c] + cs;
    if SplitMatches(its, ds) {
      assert ItemMatches(its[0], ds[0]);
      forall i | 0 <= i < |items| ensures ItemMatches(items[i], cs[i]) {
        assert ItemMatches(its[i + 1], ds[i + 1]);
      }
    }
  }

  /** The expression of a list with more than one item, at a given dot. */
  lemma {:induction false} ParseAt(item: Item, r: Re, s: string, caps: seq<Capture>, k: nat, j: nat)
    requires k <= |s| && j <= |caps|
    ensures Parses(Fragment(item), s[..k], caps[..j]) && Parses(Cat(DOT, r), s[k..], caps[j..]) <==>
            && ItemMatches(item, s[..k]) && caps[..j] == CaptureOf(item, s[..k])
            && k < |s| && s[k] == '.' && Parses(r, s[k + 1..], caps[j..])
  {
    FragmentParses(item, s[..k], caps[..j]);
    LitThen('.', r, s[k..], caps[j..]);
    if k < |s| {
      assert s[k..][0] == s[k] && s[k..][1..] == s[k + 1..];
    }
  }

  /** The expression of several items parses what splits into components that match them. */
  lemma {:induction false} JoinParses(items: seq<Item>, s: string, caps: seq<Capture>)
    requires items != [] && NoDots(items)
    ensures Parses(JoinDots(Fragments(items)), s, caps)
            <==> SplitMatches(items, Split(s)) && caps == Captured(items, Split(s))
    decreases |items|
  {
    if |items| == 1 {
      assert items == [items[0]];
      OneItemParses(items[0], s, caps);
    } else {
      var rest := items[1..];
      assert items == [items[0]] + rest && Fragments(items)[1..] == Fragments(rest) && Fragments(items)[0] == Fragment(items[0]);
      assert NoDots(rest) by {
        assert forall i :: 0 <= i < |rest| ==> rest[i] == items[i + 1];
      }
      if Parses(JoinDots(Fragments(items)), s, caps) {
        JoinParsesOnly(items, s, caps);
      }
      if SplitMatches(items, Split(s)) && caps == Captured(items, Split(s)) {
        JoinParsesAll(items, s, caps);
      }
    }
  }

  /** Both descriptions, for a string cut at position k and captures cut at j. */
  lemma ConsMatches(items: seq<Item>, s: string, caps: seq<Capture>, k: nat, j: nat)
    requires |items| > 1 && k < |s| && s[k] == '.' && '.' !in s[..k] && j <= |caps|
    requires ItemMatches(items[0], s[..k]) && caps[..j] == CaptureOf(items[0], s[..k])
    ensures SplitMatches(items, Split(s)) && caps == Captured(items, Split(s))
            <==> SplitMatches(items[1..], Split(s[k + 1..])) && caps[j..] == Captured(items[1..], Split(s[k + 1..]))
  {
    var cs := Split(s[k + 1..]);
    SplitAtDot(s, k);
    assert items == [items[0]] + items[1..] && caps == caps[..j] + caps[j..];
    SplitMatchesCons(items[0], items[1..], s[..k], cs);
    if SplitMatches(items[1..], cs) {
      CapturedCons(items[0], items[1..], s[..k], cs);
      var e := CaptureOf(items[0], s[..k]);
      assert (e + Captured(items[1..], cs))[|e|..] == Captured(items[1..], cs);
    }
  }

  lemma {:induction false} JoinParsesOnly(items: seq<Item>, s: string, caps: seq<Capture>)
    requires |items| > 1 && NoDots(items) && NoDots(items[1..])
    requires Parses(Cat(Fragment(items[0]), Cat(DOT, JoinDots(Fragments(items[1..])))), s, caps)
    ensures SplitMatches(items, Split(s)) && caps == Captured(items, Split(s))
    decreases |items|, 0
  {
    var r := JoinDots(Fragments(items[1..]));
    var k, j :| 0 <= k <= |s| && 0 <= j <= |caps| && Parses(Fragment(items[0]), s[..k], caps[..j]) && Parses(Cat(DOT, r), s[k..], caps[j..]);
    ParseAt(items[0], r, s, caps, k, j);
    MatchedHasNoDot(items[0], s[..k]);
    JoinParses(items[1..], s[k + 1..], caps[j..]);
    ConsMatches(items, s, caps, k, j);
  }

  lemma {:induction false} JoinParsesAll(items: seq<Item>, s: string, caps: seq<Capture>)
    requires |items| > 1 && NoDots(items) && NoDots(items[1..])
    requires SplitMatches(items, Split(s)) && caps == Captured(items, Split(s))
    ensures Parses(Cat(Fragment(items[0]), Cat(DOT, JoinDots(Fragments(items[1..])))), s, caps)
    decreases |items|, 0
  {
    var r := JoinDots(Fragments(items[1..]));
    ManyComponents(s);
    var k := FirstDot(s);
    var cs := Split(s[k + 1..]);
    assert items == [items[0]] + items[1..];
    SplitMatchesCons(items[0], items[1..], s[..k], cs);
    CapturedCons(items[0], items[1..], s[..k], cs);
    var j := |CaptureOf(items[0], s[..k])|;
    ConsMatches(items, s, caps, k, j);
    JoinParses(items[1..], s[k + 1..], caps[j..]);
    ParseAt(items[0], r, s, caps, k, j);
  }

  // ---------------------------------------------------------------- the end anchor

  lemma {:induction false} SplitSnoc(t: string, c: char)
    requires c != '.'
    ensures var r := Split(t);
            Split(t + [c]) == r[..|r| - 1] + [r[|r| - 1] + [c]]
  {
    if t != [] {
      assert (t + [c])[1..] == t[1..] + [c];
      SplitSnoc(t[1..], c);
      var q := Split(t[1..]);
      if t[0] != '.' && |q| == 1 {
        assert [t[0]] + (q[0] + [c]) == [t[0]] + q[0] + [c];
      }
    } else {
      SplitNoDot([c]);
      assert t + [c] == [c];
    }
  }

  /** What the components are taken from: the URI, or the URI without a trailing newline. */
  function Subject(items: seq<Item>, uri: string): Option<string> {
    if SplitMatches(items, Split(uri)) then Some(uri)
    else if uri != [] && uri[|uri| - 1] == '\n' && SplitMatches(items, Split(uri[..|uri| - 1])) then Some(uri[..|uri| - 1])
    else None
  }

  lemma {:induction false} OnlyOneSubject(items: seq<Item>, t: string)
    requires SplitMatches(items, Split(t))
    ensures !SplitMatches(items, Split(t + ['\n']))
  {
    SplitSnoc(t, '\n');
    var r := Split(t);
    var last := |r| - 1;
    var c := r[last] + ['\n'];
    assert Split(t + ['\n'])[last] == c && c[|r[last]|] == '\n';
    assert ItemMatches(items[last], r[last]);
  }

  /** A line is parsed in one way at most, and then the groups hold the components at the wildcards. */
  lemma {:induction false} LineParses(items: seq<Item>, uri: string, caps: seq<Capture>)
    requires items != [] && NoDots(items)
    ensures ParsesLine(JoinDots(Fragments(items)), uri, caps) <==>
            var s := Subject(items, uri); s.Some? && caps == Captured(items, Split(s.value))
  {
    JoinParses(items, uri, caps);
    if uri != [] && uri[|uri| - 1] == '\n' {
      var t := uri[..|uri| - 1];
      JoinParses(items, t, caps);
      assert t + ['\n'] == uri;
      if SplitMatches(items, Split(t)) {
        OnlyOneSubject(items, t);
      }
    }
  }

  // ---------------------------------------------------------------- match()

  /** pattern.match(s): the captures of a parse, if there is one. */
  ghost function Search(re: Re, s: string): Option<seq<Capture>> {
    if caps :| ParsesLine(re, s, caps) then Some(caps) else None
  }

  /** match.group(key). */
  function GroupText(caps: seq<Capture>, key: Key): Option<string> {
    match key
    case Named(name) => NamedText(caps, name)
    case Numbered(n) => if 1 <= n <= |caps| then Some(caps[n - 1].text) else None
  }

  function NamedText(caps: seq<Capture>, name: string): Option<string> {
    if caps == [] then None
    else if caps[0].name == Some(name) then Some(caps[0].text)
    else NamedText(caps[1..], name)
  }

  datatype Bound = StrValue(s: string) | IntValue(n: int)

  /** The conversion of a binding; toInt is Python's int() on a string. */
  function Convert(conversion: Conversion, text: string, toInt: string -> Option<int>): Option<Bound> {
    if conversion == ToStr then Some(StrValue(text))
    else match toInt(text)
      case Some(n) => Some(IntValue(n))
      case None => None
  }

  function Binding(p: Pattern, key: Key, caps: seq<Capture>, toInt: string -> Option<int>): Option<Bound>
    requires p.Wild? && key in p.names
  {
    match GroupText(caps, key)
    case Some(text) => Convert(p.names[key], text, toInt)
    case None => None
  }

  /** Pattern.match: an exact pattern binds nothing and compares nothing. */
  ghost function Match(p: Pattern, uri: string, toInt: string -> Option<int>): Result<map<Key, Bound>, Error> {
    match p
    case Exact => Ok(map[])
    case Wild(re, names) =>
      match Search(re, uri)
      case None => Err(NoMatch)
      case Some(caps) =>
        if exists key :: key in names && Binding(p, key, caps, toInt).None? then Err(InvalidInt)
        else Ok(map key | key in names :: Binding(p, key, caps, toInt).value)
  }

  lemma {:induction false} NamedTextSnoc(caps: seq<Capture>, c: Capture, name: string)
    ensures NamedText(caps + [c], name) ==
            if NamedText(caps, name).Some? then NamedText(caps, name) else if c.name == Some(name) then Some(c.text) else None
  {
    if caps != [] {
      assert (caps + [c])[1..] == caps[1..] + [c];
      NamedTextSnoc(caps[1..], c, name);
    } else {
      assert caps + [c] == [c] && [c][1..] == [];
    }
  }

  lemma {:induction false} NotCaptured(items: seq<Item>, cs: seq<string>, name: string)
    requires |items| == |cs| && !HasName(items, name)
    ensures NamedText(Captured(items, cs), name).None?
  {
    if items != [] {
      var last := |items| - 1;
      assert forall i :: 0 <= i < last ==> items[..last][i] == items[i];
      NotCaptured(items[..last], cs[..last], name);
      if items[last].Wildcard? {
        NamedTextSnoc(Captured(items[..last], cs[..last]), Capture(items[last].name, cs[last]), name);
      } else {
        assert Captured(items, cs) == Captured(items[..last], cs[..last]);
      }
    }
  }

  lemma WildcardsMonotone(items: seq<Item>, m: nat)
    requires m <= |items|
    ensures Wildcards(items[..m]) <= Wildcards(items)
    decreases |items|
  {
    if m < |items| {
      var init := items[..|items| - 1];
      assert init[..m] == items[..m];
      WildcardsMonotone(init, m);
    } else {
      assert items[..m] == items;
    }
  }

  /** The group with the key of wildcard i holds component i, also when named and numbered groups mix. */
  lemma {:induction false} GroupOfWildcard(items: seq<Item>, cs: seq<string>, i: nat)
    requires |items| == |cs| && i < |items| && items[i].Wildcard? && NamesDistinct(items)
    ensures GroupText(Captured(items, cs), KeyOf(items, i)) == Some(cs[i])
    decreases |items|
  {
    var last := |items| - 1;
    var init, ds := items[..last], cs[..last];
    var caps := Captured(init, ds);
    assert items[..|items|] == items;
    if i == last {
      assert Captured(items, cs) == caps + [Capture(items[last].name, cs[last])];
      if items[last].name.Some? {
        var name := items[last].name.value;
        assert forall k :: 0 <= k < last ==> init[k] == items[k];
        assert forall k :: 0 <= k < last && items[k].Wildcard? ==> items[k].name != items[last].name;
        NotCaptured(init, ds, name);
        NamedTextSnoc(caps, Capture(items[last].name, cs[last]), name);
      }
    } else {
      assert init[i] == items[i] && init[..i + 1] == items[..i + 1] && ds[i] == cs[i];
      GroupOfWildcard(init, ds, i);
      WildcardsMonotone(init, i + 1);
      if items[last].Wildcard? {
        var c := Capture(items[last].name, cs[last]);
        assert Captured(items, cs) == caps + [c];
        if items[i].name.Some? {
          NamedTextSnoc(caps, c, items[i].name.value);
        }
      } else {
        assert Captured(items, cs) == caps;
      }
    }
  }

  lemma {:induction false} KeysDiffer(items: seq<Item>, i: nat, j: nat)
    requires i < j < |items| && items[i].Wildcard? && items[j].Wildcard? && NamesDistinct(items)
    ensures KeyOf(items, i) != KeyOf(items, j)
  {
    var upTo := items[..j + 1];
    assert upTo[..j] == items[..j] && upTo[j] == items[j];
    WildcardsMonotone(items[..j], i + 1);
    assert items[..j][..i + 1] == items[..i + 1];
  }

  /** The names of a pattern are the keys of its wildcards, each with its own conversion. */
  lemma {:induction false} NamesOfWildcards(items: seq<Item>)
    requires NamesDistinct(items)
    ensures forall i :: 0 <= i < |items| && items[i].Wildcard? ==>
              KeyOf(items, i) in Names(items) && Names(items)[KeyOf(items, i)] == items[i].conversion
    ensures forall key :: key in Names(items) ==> exists i :: 0 <= i < |items| && items[i].Wildcard? && KeyOf(items, i) == key
  {
    if items != [] {
      var last := |items| - 1;
      var init := items[..last];
      assert NamesDistinct(init) by {
        assert forall i :: 0 <= i < last ==> init[i] == items[i];
      }
      NamesOfWildcards(init);
      forall i | 0 <= i < last && items[i].Wildcard? ensures init[i] == items[i] && KeyOf(init, i) == KeyOf(items, i) {
        assert init[..i + 1] == items[..i + 1];
      }
      forall i | 0 <= i < |items| && items[i].Wildcard?
        ensures KeyOf(items, i) in Names(items) && Names(items)[KeyOf(items, i)] == items[i].conversion
      {
        if i < last {
          assert KeyOf(init, i) in Names(init) && Names(init)[KeyOf(init, i)] == init[i].conversion;
          if items[last].Wildcard? {
            KeysDiffer(items, i, last);
          }
        }
      }
      forall key | key in Names(items)
        ensures exists i :: 0 <= i < |items| && items[i].Wildcard? && KeyOf(items, i) == key
      {
        if key in Names(init) {
          var i :| 0 <= i < last && init[i].Wildcard? && KeyOf(init, i) == key;
          assert items[i].Wildcard? && KeyOf(items, i) == key;
        } else {
          assert items[last].Wildcard? && KeyOf(items, last) == key;
        }
      }
    }
  }

  lemma TextHasNoDot(c: string)
    requires IsText(c)
    ensures '.' !in c
  {
    forall i | 0 <= i < |c| ensures c[i] != '.' {
      if i > 0 && i < |Line(c)| {
        assert Line(c)[1..][i - 1] == c[i];
      }
    }
  }

  lemma {:induction false} StandsNoDots(cs: seq<string>, items: seq<Item>)
    requires Stands(cs, |cs|, items)
    ensures NoDots(items)
  {
    forall i | 0 <= i < |items| && items[i].Text? ensures '.' !in items[i].text {
      assert ItemOf(cs[i]) == Some(items[i]);
      TextHasNoDot(cs[i]);
    }
  }

  lemma {:induction false} SearchFinds(items: seq<Item>, uri: string)
    requires items != [] && NoDots(items)
    ensures var s := Subject(items, uri);
            Search(JoinDots(Fragments(items)), uri) == if s.Some? then Some(Captured(items, Split(s.value))) else None
  {
    var re := JoinDots(Fragments(items));
    var s := Subject(items, uri);
    if s.Some? {
      LineParses(items, uri, Captured(items, Split(s.value)));
    }
    forall caps | ParsesLine(re, uri, caps) ensures s.Some? && caps == Captured(items, Split(s.value)) {
      LineParses(items, uri, caps);
    }
  }

  lemma {:induction false} BindingsOfWildcards(items: seq<Item>, cs: seq<string>, toInt: string -> Option<int>)
    requires |items| == |cs| && NamesDistinct(items)
    ensures forall i :: 0 <= i < |items| && items[i].Wildcard? ==>
              && KeyOf(items, i) in Names(items)
              && Binding(Wild(JoinDots(Fragments(items)), Names(items)), KeyOf(items, i), Captured(items, cs), toInt)
                 == Convert(items[i].conversion, cs[i], toInt)
  {
    NamesOfWildcards(items);
    forall i | 0 <= i < |items| && items[i].Wildcard?
      ensures GroupText(Captured(items, cs), KeyOf(items, i)) == Some(cs[i])
    {
      GroupOfWildcard(items, cs, i);
    }
  }

  predicate HasWildcard(items: seq<Item>) {
    exists i :: 0 <= i < |items| && items[i].Wildcard?
  }

  lemma {:induction false} ExactWithoutWildcards(items: seq<Item>)
    requires NamesDistinct(items)
    ensures Compiled(items).Exact? <==> !HasWildcard(items)
  {
    NamesOfWildcards(items);
    if HasWildcard(items) {
      var i :| 0 <= i < |items| && items[i].Wildcard?;
      assert KeyOf(items, i) in Names(items);
    }
  }

  /** What a successful match binds: the component at the place of every wildcard, or its number. */
  ghost predicate BindsComponents(m: map<Key, Bound>, items: seq<Item>, cs: seq<string>, toInt: string -> Option<int>)
    requires |items| == |cs|
  {
    && m.Keys == Names(items).Keys
    && forall i :: 0 <= i < |items| && items[i].Wildcard? ==>
         && KeyOf(items, i) in m
         && (items[i].conversion == ToStr ==> m[KeyOf(items, i)] == StrValue(cs[i]))
         && (items[i].conversion == ToInt ==> toInt(cs[i]).Some? && m[KeyOf(items, i)] == IntValue(toInt(cs[i]).value))
  }

  ghost predicate SomeIntIsBad(items: seq<Item>, cs: seq<string>, toInt: string -> Option<int>)
    requires |items| == |cs|
  {
    exists i :: 0 <= i < |items| && items[i].Wildcard? && items[i].conversion == ToInt && toInt(cs[i]).None?
  }

  /**
   * Matching a compiled pattern with a wildcard is comparing components: it fails exactly
   * when they do not match, and otherwise binds, for every wildcard, the converted component
   * at its place. A pattern without a wildcard matches everything and binds nothing.
   */
  lemma {:induction false} MatchIsComponentwise(pattern: string, items: seq<Item>, uri: string, toInt: string -> Option<int>)
    requires Stands(Split(pattern), |Split(pattern)|, items)
    ensures var m, s := Match(Compiled(items), uri, toInt), Subject(items, uri);
            if !HasWildcard(items) then m == Ok(map[])
            else if s.None? then m == Err(NoMatch)
            else if SomeIntIsBad(items, Split(s.value), toInt) then m == Err(InvalidInt)
            else m.Ok? && BindsComponents(m.value, items, Split(s.value), toInt)
  {
    ExactWithoutWildcards(items);
    if HasWildcard(items) {
      StandsNoDots(Split(pattern), items);
      SearchFinds(items, uri);
      var s := Subject(items, uri);
      if s.Some? {
        BindingsOfWildcards(items, Split(s.value), toInt);
        NamesOfWildcards(items);
      }
    }
  }

  /** The empty URI has one empty component, which matches no item. */
  lemma EmptyUriMatchesNothing(cs: seq<string>, items: seq<Item>)
    requires Stands(cs, |cs|, items)
    ensures Subject(items, "").None?
  {
    assert Split("") == [""];
    if |items| == 1 {
      assert ItemOf(cs[0]) == Some(items[0]);
    }
  }

  /** Matching compares components, for every URI, if and only if the pattern has a wildcard. */
  lemma {:induction false} ComparesIfWildcard(pattern: string, items: seq<Item>, toInt: string -> Option<int>)
    requires Stands(Split(pattern), |Split(pattern)|, items)
    ensures (forall uri :: Match(Compiled(items), uri, toInt) == Err(NoMatch) <==> Subject(items, uri).None?)
            <==> HasWildcard(items)
  {
    forall uri
      ensures HasWildcard(items) ==> (Match(Compiled(items), uri, toInt) == Err(NoMatch) <==> Subject(items, uri).None?)
    {
      MatchIsComponentwise(pattern, items, uri, toInt);
    }
    MatchIsComponentwise(pattern, items, "", toInt);
    EmptyUriMatchesNothing(Split(pattern), items);
  }

  lemma SplitTwo(a: string, b: string)
    requires '.' !in a && '.' !in b
    ensures Split(a + "." + b) == [a, b]
  {
    var s := a + "." + b;
    SplitAtDot(s, |a|);
    assert s[..|a|] == a && s[|a| + 1..] == b;
    SplitNoDot(b);
  }

  lemma LiteralComponent(c: string)
    requires c != "" && AllIn(c, Lower)
    ensures ItemOf(c) == Some(Text(c)) && SuffixOnlyLast(c, false) && '.' !in c
  {
    assert In(c[0], Lower) && In(c[|c| - 1], Lower);
  }

  /** A pattern of two literal components also matches URIs whose second component is another one. */
  lemma {:induction false} LiteralsMatchOtherUris(a: string, b: string, c: string, toInt: string -> Option<int>)
    requires a != "" && AllIn(a, Lower) && b != "" && AllIn(b, Lower) && c != "" && AllIn(c, Lower) && b != c
    ensures var items := [Text(a), Text(b)];
            && Stands(Split(a + "." + b), |Split(a + "." + b)|, items)
            && Match(Compiled(items), a + "." + c, toInt) == Ok(map[])
            && Subject(items, a + "." + c).None?
  {
    var items := [Text(a), Text(b)];
    LiteralComponent(a);
    LiteralComponent(b);
    LiteralComponent(c);
    SplitTwo(a, b);
    SplitTwo(a, c);
    assert !ItemMatches(items[1], c);
    assert (a + "." + c)[|a| + 1 + |c| - 1] == c[|c| - 1];
    ExactWithoutWildcards(items);
  }

  /** The pattern com.example matches the URI com.other. */
  lemma ExactMatchesOtherUris(toInt: string -> Option<int>)
    ensures var items := [Text("com"), Text("example")];
            && Stands(Split("com.example"), |Split("com.example")|, items)
            && Match(Compiled(items), "com.other", toInt) == Ok(map[])
            && Subject(items, "com.other").None?
  {
    assert "com" + "." + "example" == "com.example" && "com" + "." + "other" == "com.other";
    LiteralsMatchOtherUris("com", "example", "other", toInt);
  }

  // ---------------------------------------------------------------- components by their text

  function Typed(name: string, compType: string): string {
    "<" + name + ":" + compType + ">"
  }

  lemma {:induction false} TypedThere(c: string, name: string, compType: string)
    requires IsIdentifier(name) && AllIn(compType, Lower) && Line(c) == Typed(name, compType)
    ensures NameAndTypeIn(c) == Some((name, compType))
  {
    var t := Line(c)[1..];
    assert t == name + ":" + compType + ">";
    assert t[..|name|] == name && t[|name|] == ':' && t[|name|..][1..|t| - |name| - 1] == compType;
    NameColonTypeAt(t, |name|);
  }

  lemma SplitAtColon(inner: string, k: nat)
    requires k < |inner| && inner[k] == ':'
    ensures "<" + (inner + ">") == Typed(inner[..k], inner[k + 1..])
  {
    assert inner == inner[..k] + ":" + inner[k + 1..];
  }

  lemma {:induction false} TypedOnly(c: string)
    requires NameAndTypeIn(c).Some?
    ensures var (name, compType) := NameAndTypeIn(c).value;
            IsIdentifier(name) && AllIn(compType, Lower) && Line(c) == Typed(name, compType)
  {
    var s := Line(c);
    var t := s[1..];
    var inner := t[..|t| - 1];
    assert t == inner + ">" && s == "<" + t;
    SplitAtColon(inner, FirstColon(inner));
  }

  lemma {:induction false} TypedIs(c: string, name: string, compType: string)
    ensures NameAndTypeIn(c) == Some((name, compType))
            <==> IsIdentifier(name) && AllIn(compType, Lower) && Line(c) == Typed(name, compType)
  {
    if NameAndTypeIn(c) == Some((name, compType)) {
      TypedOnly(c);
    }
    if IsIdentifier(name) && AllIn(compType, Lower) && Line(c) == Typed(name, compType) {
      TypedThere(c, name, compType);
    }
  }

  lemma {:induction false} NoColonInName(name: string)
    requires IsIdentifier(name)
    ensures FirstColon(name) == |name|
  {
    assert name[0] != ':' && forall i :: 0 < i < |name| ==> name[1..][i - 1] == name[i] && name[i] != ':';
  }

  lemma {:induction false} NamedIs(c: string, name: string)
    ensures NameAndTypeIn(c).None? && NameIn(c) == Some(name) <==> IsIdentifier(name) && Line(c) == "<" + name + ">"
  {
    var s := Line(c);
    if |s| >= 3 && s[0] == '<' && s[|s| - 1] == '>' {
      assert s == "<" + s[1..|s| - 1] + ">" && s[1..][..|s| - 2] == s[1..|s| - 1];
      if IsIdentifier(s[1..|s| - 1]) {
        NoColonInName(s[1..|s| - 1]);
      }
    }
    if s == "<" + name + ">" {
      assert s[1..|s| - 1] == name;
    }
  }

  lemma TypesAreLower()
    ensures AllIn("int", Lower) && AllIn("str", Lower) && AllIn("string", Lower) && AllIn("suffix", Lower)
  {
  }

  lemma {:induction false} KnownTypedIs(c: string, name: string, compType: string)
    requires compType == "int" || compType == "str" || compType == "string" || compType == "suffix"
    ensures NameAndTypeIn(c) == Some((name, compType)) <==> IsIdentifier(name) && Line(c) == Typed(name, compType)
  {
    TypesAreLower();
    TypedIs(c, name, compType);
  }

  /** The components that stand for a number: <name:int>, and no other. */
  lemma {:induction false} NumbersByText(c: string, name: string)
    ensures ItemOf(c) == Some(Wildcard(Some(name), ToInt)) <==> IsIdentifier(name) && Line(c) == Typed(name, "int")
  {
    KnownTypedIs(c, name, "int");
  }

  lemma StringItems(c: string, name: string)
    ensures ItemOf(c) == Some(Wildcard(Some(name), ToStr)) <==>
            || (NameAndTypeIn(c).None? && NameIn(c) == Some(name))
            || NameAndTypeIn(c) == Some((name, "str")) || NameAndTypeIn(c) == Some((name, "string"))
            || NameAndTypeIn(c) == Some((name, "suffix"))
  {
    assert "int" != "str" && "int" != "string" && "int" != "suffix";
  }

  /** The components that stand for a named string: <name>, and those with one of three types. */
  lemma {:induction false} StringsByText(c: string, name: string)
    ensures ItemOf(c) == Some(Wildcard(Some(name), ToStr)) <==>
            && IsIdentifier(name)
            && (Line(c) == "<" + name + ">" || Line(c) == Typed(name, "str") || Line(c) == Typed(name, "string")
                || Line(c) == Typed(name, "suffix"))
  {
    StringItems(c, name);
    NamedIs(c, name);
    KnownTypedIs(c, name, "str");
    KnownTypedIs(c, name, "string");
    KnownTypedIs(c, name, "suffix");
  }

  /** The empty component stands for a string without a name, and text for itself. */
  lemma {:induction false} OthersByText(c: string, text: string, conversion: Conversion)
    ensures ItemOf(c) == Some(Wildcard(None, conversion)) <==> c == "" && conversion == ToStr
    ensures ItemOf(c) == Some(Text(text)) <==> c == text && IsText(c)
  {
    if IsText(c) {
      assert Line(c)[0] != '<';
    }
  }

  /** Only a last component may be a suffix. */
  lemma {:induction false} SuffixesByText(c: string, isLast: bool)
    ensures !SuffixOnlyLast(c, isLast)
            <==> !isLast && exists name :: IsIdentifier(name) && Line(c) == Typed(name, "suffix")
  {
    if NameAndTypeIn(c).Some? {
      TypedOnly(c);
    }
    forall name ensures NameAndTypeIn(c) == Some((name, "suffix")) <==> IsIdentifier(name) && Line(c) == Typed(name, "suffix") {
      KnownTypedIs(c, name, "suffix");
    }
  }
}
