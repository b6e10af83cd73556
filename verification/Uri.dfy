/** The six regular expressions that WAMP URIs are checked against. */
module Uri {
  import opened Wrappers
  import opened Regex

  /** Which components of a URI may be empty. */
  datatype Mode = NonEmpty | LastEmpty | AnyEmpty

  function Alphabet(strict: bool): CharClass {
    if strict then Strict else Loose
  }

  /** The part that is repeated, with the dot that ends it. */
  function Repeated(strict: bool, mode: Mode): Re {
    var component := Cat(Plus(One(Alphabet(strict))), DOT);
    if mode == AnyEmpty then Alt(component, DOT) else component
  }

  function Last(strict: bool, mode: Mode): Re {
    var a := One(Alphabet(strict));
    match mode
    case NonEmpty => Plus(a)
    case LastEmpty => Star(a)
    case AnyEmpty => Opt(Plus(a))
  }

  /** _URI_PAT_{STRICT,LOOSE}_{NON_EMPTY,LAST_EMPTY,EMPTY}. */
  function UriPattern(strict: bool, mode: Mode): Re {
    Cat(Star(Repeated(strict, mode)), Last(strict, mode))
  }

  // ---------------------------------------------------------------- what they accept

  predicate ComponentOk(strict: bool, mode: Mode, c: string, isLast: bool) {
    AllIn(c, Alphabet(strict)) && (c == [] ==> mode == AnyEmpty || (mode == LastEmpty && isLast))
  }

  /** The rule, on the components between the dots. */
  predicate ComponentsOk(strict: bool, mode: Mode, cs: seq<string>) {
    forall i :: 0 <= i < |cs| ==> ComponentOk(strict, mode, cs[i], i == |cs| - 1)
  }

  lemma NoDotInAlphabet(strict: bool, s: string)
    requires AllIn(s, Alphabet(strict))
    ensures '.' !in s
  {
  }

  lemma {:induction false} ComponentWithDot(strict: bool, w: string)
    ensures Matches(Cat(Plus(One(Alphabet(strict))), DOT), w) <==>
            |w| >= 2 && w[|w| - 1] == '.' && AllIn(w[..|w| - 1], Alphabet(strict))
  {
    var a := One(Alphabet(strict));
    if Matches(Cat(Plus(a), DOT), w) {
      var k :| 0 <= k <= |w| && Matches(Plus(a), w[..k]) && Matches(DOT, w[k..]);
      assert k == |w| - 1 && w[k..][0] == w[k];
      PlusOfClass(Alphabet(strict), w[..k]);
    }
    if |w| >= 2 && w[|w| - 1] == '.' && AllIn(w[..|w| - 1], Alphabet(strict)) {
      var k := |w| - 1;
      PlusOfClass(Alphabet(strict), w[..k]);
      assert Matches(DOT, w[k..]);
    }
  }

  lemma {:induction false} RepeatedMatches(strict: bool, mode: Mode, w: string)
    ensures Matches(Repeated(strict, mode), w) <==>
            && w != [] && w[|w| - 1] == '.' && AllIn(w[..|w| - 1], Alphabet(strict))
            && (mode == AnyEmpty || |w| >= 2)
  {
    ComponentWithDot(strict, w);
  }

  lemma {:induction false} LastMatches(strict: bool, mode: Mode, w: string)
    ensures Matches(Last(strict, mode), w) <==> AllIn(w, Alphabet(strict)) && (mode == NonEmpty ==> w != [])
  {
    PlusOfClass(Alphabet(strict), w);
    StarOfClass(Alphabet(strict), w);
  }

  lemma {:induction false} PatternWithoutDot(strict: bool, mode: Mode, s: string)
    requires '.' !in s
    ensures Matches(UriPattern(strict, mode), s) <==> ComponentsOk(strict, mode, Split(s))
  {
    SplitNoDot(s);
    LastMatches(strict, mode, s);
    StarThen(Repeated(strict, mode), Last(strict, mode), s);
    forall k | 1 <= k <= |s| ensures !Matches(Repeated(strict, mode), s[..k]) {
      RepeatedMatches(strict, mode, s[..k]);
      assert s[..k][k - 1] == s[k - 1];
    }
    assert ComponentsOk(strict, mode, [s]) <==> ComponentOk(strict, mode, s, true) by {
      assert [s][0] == s;
    }
  }

  lemma {:induction false} OnlyUpToFirstDot(strict: bool, mode: Mode, s: string, d: nat, k: nat)
    requires d < |s| && s[d] == '.' && '.' !in s[..d]
    requires 1 <= k <= |s| && k != d + 1
    ensures !Matches(Repeated(strict, mode), s[..k])
  {
    RepeatedMatches(strict, mode, s[..k]);
    if k > d + 1 {
      assert s[..k][..k - 1][d] == '.';
    } else {
      assert s[k - 1] == s[..d][k - 1];
    }
  }

  lemma {:induction false} PatternAtDot(strict: bool, mode: Mode, s: string, d: nat)
    requires d < |s| && s[d] == '.' && '.' !in s[..d]
    ensures Matches(UriPattern(strict, mode), s) <==>
            ComponentOk(strict, mode, s[..d], false) && Matches(UriPattern(strict, mode), s[d + 1..])
  {
    LastMatches(strict, mode, s);
    StarThen(Repeated(strict, mode), Last(strict, mode), s);
    if AllIn(s, Alphabet(strict)) {
      NoDotInAlphabet(strict, s);
    }
    forall k | 1 <= k <= |s| && k != d + 1 ensures !Matches(Repeated(strict, mode), s[..k]) {
      OnlyUpToFirstDot(strict, mode, s, d, k);
    }
    RepeatedMatches(strict, mode, s[..d + 1]);
    assert s[..d + 1][..d] == s[..d];
  }

  lemma FirstComponent(strict: bool, mode: Mode, c: string, rest: seq<string>)
    requires rest != []
    ensures ComponentsOk(strict, mode, [c] + rest) <==> ComponentOk(strict, mode, c, false) && ComponentsOk(strict, mode, rest)
  {
    var cs := [c] + rest;
    if ComponentsOk(strict, mode, cs) {
      assert cs[0] == c;
      forall i | 0 <= i < |rest| ensures ComponentOk(strict, mode, rest[i], i == |rest| - 1) {
        assert rest[i] == cs[i + 1];
      }
    }
  }

  /** Each expression accepts exactly the strings whose components meet its rule. */
  lemma {:induction false} PatternMatchesComponents(strict: bool, mode: Mode, s: string)
    ensures Matches(UriPattern(strict, mode), s) <==> ComponentsOk(strict, mode, Split(s))
    decreases |s|
  {
    var d := FirstDot(s);
    if d == |s| {
      assert s[..d] == s;
      PatternWithoutDot(strict, mode, s);
    } else {
      PatternAtDot(strict, mode, s, d);
      PatternMatchesComponents(strict, mode, s[d + 1..]);
      SplitAtDot(s, d);
      FirstComponent(strict, mode, s[..d], Split(s[d + 1..]));
    }
  }

  /** The same for the whole check, with the trailing newline that the end anchor lets pass. */
  predicate UriOk(strict: bool, mode: Mode, s: string) {
    || ComponentsOk(strict, mode, Split(s))
    || (s != [] && s[|s| - 1] == '\n' && ComponentsOk(strict, mode, Split(s[..|s| - 1])))
  }

  lemma {:induction false} PatternAccepts(strict: bool, mode: Mode, s: string)
    ensures MatchesLine(UriPattern(strict, mode), s) <==> UriOk(strict, mode, s)
  {
    PatternMatchesComponents(strict, mode, s);
    if s != [] {
      PatternMatchesComponents(strict, mode, s[..|s| - 1]);
    }
  }

  predicate AtMost(a: Mode, b: Mode) {
    a == b || a == NonEmpty || b == AnyEmpty
  }

  lemma ComponentsInclusion(mode: Mode, mode': Mode, strict: bool, strict': bool, cs: seq<string>)
    requires AtMost(mode, mode') && (strict' ==> strict)
    requires ComponentsOk(strict, mode, cs)
    ensures ComponentsOk(strict', mode', cs)
  {
    forall i | 0 <= i < |cs| ensures ComponentOk(strict', mode', cs[i], i == |cs| - 1) {
      assert ComponentOk(strict, mode, cs[i], i == |cs| - 1);
      forall j | 0 <= j < |cs[i]| ensures In(cs[i][j], Alphabet(strict')) {
        if strict && !strict' {
          StrictIsLoose(cs[i][j]);
        }
      }
    }
  }

  /** Strict URIs are loose ones, and what may be empty only grows from non-empty to last-empty to any. */
  lemma {:induction false} PatternInclusion(strict: bool, strict': bool, mode: Mode, mode': Mode, s: string)
    requires AtMost(mode, mode') && (strict' ==> strict)
    requires MatchesLine(UriPattern(strict, mode), s)
    ensures MatchesLine(UriPattern(strict', mode'), s)
  {
    PatternAccepts(strict, mode, s);
    PatternAccepts(strict', mode', s);
    if ComponentsOk(strict, mode, Split(s)) {
      ComponentsInclusion(mode, mode', strict, strict', Split(s));
    } else {
      ComponentsInclusion(mode, mode', strict, strict', Split(s[..|s| - 1]));
    }
  }
}
