/**
 * Regular expressions as Python's re reads them: the language of an expression, what its
 * groups capture, and the end anchor that also matches before one trailing newline.
 */
module Regex {
  import opened Wrappers

  // ---------------------------------------------------------------- characters

  /** The class \s of a str pattern. */
  predicate IsSpace(c: char) {
    var n := c as int;
    || 0x09 <= n <= 0x0D || 0x1C <= n <= 0x20 || n == 0x85 || n == 0xA0 || n == 0x1680
    || 0x2000 <= n <= 0x200A || n == 0x2028 || n == 0x2029 || n == 0x202F || n == 0x205F || n == 0x3000
  }

  predicate Ten(n: int, zero: int) {
    zero <= n < zero + 10
  }

  /** The class \d of a str pattern: the decimal digits of Unicode 14. */
  predicate IsDecimalDigit(c: char) {
    var n := c as int;
    || 0x1D7CE <= n <= 0x1D7FF
    || Ten(n, 0x30) || Ten(n, 0x660) || Ten(n, 0x6F0) || Ten(n, 0x7C0) || Ten(n, 0x966) || Ten(n, 0x9E6)
    || Ten(n, 0xA66) || Ten(n, 0xAE6) || Ten(n, 0xB66) || Ten(n, 0xBE6) || Ten(n, 0xC66) || Ten(n, 0xCE6)
    || Ten(n, 0xD66) || Ten(n, 0xDE6) || Ten(n, 0xE50) || Ten(n, 0xED0) || Ten(n, 0xF20) || Ten(n, 0x1040)
    || Ten(n, 0x1090) || Ten(n, 0x17E0) || Ten(n, 0x1810) || Ten(n, 0x1946) || Ten(n, 0x19D0) || Ten(n, 0x1A80)
    || Ten(n, 0x1A90) || Ten(n, 0x1B50) || Ten(n, 0x1BB0) || Ten(n, 0x1C40) || Ten(n, 0x1C50) || Ten(n, 0xA620)
    || Ten(n, 0xA8D0) || Ten(n, 0xA900) || Ten(n, 0xA9D0) || Ten(n, 0xA9F0) || Ten(n, 0xAA50) || Ten(n, 0xABF0)
    || Ten(n, 0xFF10) || Ten(n, 0x104A0) || Ten(n, 0x10D30) || Ten(n, 0x11066) || Ten(n, 0x110F0) || Ten(n, 0x11136)
    || Ten(n, 0x111D0) || Ten(n, 0x112F0) || Ten(n, 0x11450) || Ten(n, 0x114D0) || Ten(n, 0x11650) || Ten(n, 0x116C0)
    || Ten(n, 0x11730) || Ten(n, 0x118E0) || Ten(n, 0x11950) || Ten(n, 0x11C50) || Ten(n, 0x11D50) || Ten(n, 0x11DA0)
    || Ten(n, 0x16A60) || Ten(n, 0x16AC0) || Ten(n, 0x16B50) || Ten(n, 0x1E140) || Ten(n, 0x1E2F0) || Ten(n, 0x1E950)
    || Ten(n, 0x1FBF0)
  }

  datatype CharClass =
    | Strict            // [\da-z_]
    | Loose             // [^\s\.#]
    | Literal(c: char)
    | Lower             // [a-z]
    | LowerDigit        // [a-z0-9]
    | NameChar          // [a-z0-9_]
    | ComponentChar     // [a-z0-9_\-]

  predicate In(c: char, cls: CharClass) {
    match cls
    case Strict => IsDecimalDigit(c) || 'a' <= c <= 'z' || c == '_'
    case Loose => !IsSpace(c) && c != '.' && c != '#'
    case Literal(x) => c == x
    case Lower => 'a' <= c <= 'z'
    case LowerDigit => 'a' <= c <= 'z' || '0' <= c <= '9'
    case NameChar => 'a' <= c <= 'z' || '0' <= c <= '9' || c == '_'
    case ComponentChar => 'a' <= c <= 'z' || '0' <= c <= '9' || c == '_' || c == '-'
  }

  predicate AllIn(s: string, cls: CharClass) {
    forall i :: 0 <= i < |s| ==> In(s[i], cls)
  }

  lemma StrictIsLoose(c: char)
    requires In(c, Strict)
    ensures In(c, Loose)
  {
  }

  /** Within ASCII, the classes are the familiar ones, and outside digits and spaces exclude each other. */
  lemma ClassesByCharacter(c: char)
    ensures c < 0x80 as char ==> (IsDecimalDigit(c) <==> '0' <= c <= '9')
    ensures c < 0x80 as char ==> (IsSpace(c) <==> c == ' ' || '\t' <= c <= '\r' || 0x1C as char <= c <= 0x1F as char)
    ensures IsDecimalDigit(c) ==> !IsSpace(c)
    ensures In(c, Lower) <==> 'a' <= c <= 'z'
    ensures In(c, LowerDigit) <==> In(c, Lower) || '0' <= c <= '9'
    ensures In(c, NameChar) <==> In(c, LowerDigit) || c == '_'
    ensures In(c, ComponentChar) <==> In(c, NameChar) || c == '-'
  {
  }

  // ---------------------------------------------------------------- expressions

  datatype Re =
    | Empty
    | One(cls: CharClass)
    | Cat(first: Re, second: Re)
    | Alt(left: Re, right: Re)
    | Star(body: Re)
    | Group(name: Option<string>, inner: Re)

  function Plus(r: Re): Re {
    Cat(r, Star(r))
  }

  function Opt(r: Re): Re {
    Alt(r, Empty)
  }

  const DOT: Re := One(Literal('.'))

  /** The language of an expression. */
  predicate Matches(r: Re, s: string)
    decreases r, |s|
  {
    match r
    case Empty => s == []
    case One(cls) => |s| == 1 && In(s[0], cls)
    case Cat(a, b) => exists k :: 0 <= k <= |s| && Matches(a, s[..k]) && Matches(b, s[k..])
    case Alt(a, b) => Matches(a, s) || Matches(b, s)
    case Star(a) => s == [] || exists k :: 1 <= k <= |s| && Matches(a, s[..k]) && Matches(r, s[k..])
    case Group(_, a) => Matches(a, s)
  }

  /** pattern.match(s) for a pattern ^r$. */
  predicate MatchesLine(r: Re, s: string) {
    Matches(r, s) || (s != [] && s[|s| - 1] == '\n' && Matches(r, s[..|s| - 1]))
  }

  /** The text of a group, in the order of the groups. */
  datatype Capture = Capture(name: Option<string>, text: string)

  /** s is in the language and its groups capture caps; a repetition here has no groups inside. */
  predicate Parses(r: Re, s: string, caps: seq<Capture>)
    decreases r
  {
    match r
    case Empty => s == [] && caps == []
    case One(_) => Matches(r, s) && caps == []
    case Cat(a, b) =>
      exists k, j :: 0 <= k <= |s| && 0 <= j <= |caps| && Parses(a, s[..k], caps[..j]) && Parses(b, s[k..], caps[j..])
    case Alt(a, b) => Parses(a, s, caps) || Parses(b, s, caps)
    case Star(_) => Matches(r, s) && caps == []
    case Group(name, a) => Matches(a, s) && caps == [Capture(name, s)]
  }

  predicate ParsesLine(r: Re, s: string, caps: seq<Capture>) {
    Parses(r, s, caps) || (s != [] && s[|s| - 1] == '\n' && Parses(r, s[..|s| - 1], caps))
  }

  /** The captures do not change the language. */
  lemma {:induction false} ParsesOnlyMatches(r: Re, s: string, caps: seq<Capture>)
    requires Parses(r, s, caps)
    ensures Matches(r, s)
    decreases r
  {
    match r
    case Cat(a, b) =>
      var k, j :| 0 <= k <= |s| && 0 <= j <= |caps| && Parses(a, s[..k], caps[..j]) && Parses(b, s[k..], caps[j..]);
      ParsesOnlyMatches(a, s[..k], caps[..j]);
      ParsesOnlyMatches(b, s[k..], caps[j..]);
    case Alt(a, b) =>
      if Parses(a, s, caps) {
        ParsesOnlyMatches(a, s, caps);
      } else {
        ParsesOnlyMatches(b, s, caps);
      }
    case _ =>
  }

  lemma ParsesCat(a: Re, b: Re, s: string, k: nat, before: seq<Capture>, after: seq<Capture>)
    requires k <= |s| && Parses(a, s[..k], before) && Parses(b, s[k..], after)
    ensures Parses(Cat(a, b), s, before + after)
  {
    var caps := before + after;
    assert caps[..|before|] == before && caps[|before|..] == after;
  }

  lemma {:induction false} MatchesParse(r: Re, s: string) returns (caps: seq<Capture>)
    requires Matches(r, s)
    ensures Parses(r, s, caps)
    decreases r
  {
    caps := [];
    match r
    case Cat(a, b) =>
      var k :| 0 <= k <= |s| && Matches(a, s[..k]) && Matches(b, s[k..]);
      var before := MatchesParse(a, s[..k]);
      var after := MatchesParse(b, s[k..]);
      ParsesCat(a, b, s, k, before, after);
      caps := before + after;
    case Alt(a, b) =>
      if Matches(a, s) {
        caps := MatchesParse(a, s);
      } else {
        caps := MatchesParse(b, s);
      }
    case Group(name, _) =>
      caps := [Capture(name, s)];
    case _ =>
  }

  lemma {:induction false} MatchesLineIfParses(r: Re, s: string)
    ensures MatchesLine(r, s) <==> exists caps :: ParsesLine(r, s, caps)
  {
    if Matches(r, s) {
      var caps := MatchesParse(r, s);
      assert ParsesLine(r, s, caps);
    } else if MatchesLine(r, s) {
      var caps := MatchesParse(r, s[..|s| - 1]);
      assert ParsesLine(r, s, caps);
    }
    forall caps | ParsesLine(r, s, caps) ensures MatchesLine(r, s) {
      if Parses(r, s, caps) {
        ParsesOnlyMatches(r, s, caps);
      } else {
        ParsesOnlyMatches(r, s[..|s| - 1], caps);
      }
    }
  }

  lemma {:induction false} StarOfClass(cls: CharClass, s: string)
    ensures Matches(Star(One(cls)), s) <==> AllIn(s, cls)
    decreases |s|
  {
    var r := Star(One(cls));
    if s != [] {
      StarOfClass(cls, s[1..]);
      if AllIn(s, cls) {
        assert Matches(One(cls), s[..1]) && Matches(r, s[1..]);
      }
      if Matches(r, s) {
        var k :| 1 <= k <= |s| && Matches(One(cls), s[..k]) && Matches(r, s[k..]);
        assert s == [s[0]] + s[1..];
      }
    }
  }

  lemma {:induction false} PlusOfClass(cls: CharClass, s: string)
    ensures Matches(Plus(One(cls)), s) <==> s != [] && AllIn(s, cls)
  {
    if s != [] && AllIn(s, cls) {
      StarOfClass(cls, s[1..]);
      assert Matches(One(cls), s[..1]) && Matches(Star(One(cls)), s[1..]);
    }
    if Matches(Plus(One(cls)), s) {
      var k :| 0 <= k <= |s| && Matches(One(cls), s[..k]) && Matches(Star(One(cls)), s[k..]);
      StarOfClass(cls, s[k..]);
      assert s == [s[0]] + s[1..];
    }
  }

  lemma Slices(s: string, k: nat, j: nat)
    requires k + j <= |s|
    ensures s[..k + j][..k] == s[..k] && s[..k + j][k..] == s[k..][..j] && s[k..][j..] == s[k + j..]
  {
  }

  lemma {:induction false} StarThenOnce(a: Re, b: Re, s: string, k: nat)
    requires 1 <= k <= |s| && Matches(a, s[..k]) && Matches(Cat(Star(a), b), s[k..])
    ensures Matches(Cat(Star(a), b), s)
  {
    var j :| 0 <= j <= |s[k..]| && Matches(Star(a), s[k..][..j]) && Matches(b, s[k..][j..]);
    Slices(s, k, j);
    StarStep(a, s[..k + j], k);
  }

  lemma StarStep(a: Re, s: string, k: nat)
    requires 1 <= k <= |s| && Matches(a, s[..k]) && Matches(Star(a), s[k..])
    ensures Matches(Star(a), s)
  {
  }

  lemma {:induction false} StarThenFirst(a: Re, b: Re, s: string) returns (k: nat)
    requires Matches(Cat(Star(a), b), s) && !Matches(b, s)
    ensures 1 <= k <= |s| && Matches(a, s[..k]) && Matches(Cat(Star(a), b), s[k..])
  {
    var j :| 0 <= j <= |s| && Matches(Star(a), s[..j]) && Matches(b, s[j..]);
    assert s[0..] == s;
    k :| 1 <= k <= j && Matches(a, s[..j][..k]) && Matches(Star(a), s[..j][k..]);
    Slices(s, k, j - k);
    CatStep(Star(a), b, s[k..], j - k);
  }

  lemma CatStep(a: Re, b: Re, s: string, k: nat)
    requires k <= |s| && Matches(a, s[..k]) && Matches(b, s[k..])
    ensures Matches(Cat(a, b), s)
  {
  }

  /** Unrolling a repetition in front of something else. */
  lemma {:induction false} StarThen(a: Re, b: Re, s: string)
    ensures Matches(Cat(Star(a), b), s) <==>
            Matches(b, s) || exists k :: 1 <= k <= |s| && Matches(a, s[..k]) && Matches(Cat(Star(a), b), s[k..])
  {
    if Matches(b, s) {
      assert s[..0] == [] && s[0..] == s;
      assert Matches(Star(a), s[..0]);
    } else if Matches(Cat(Star(a), b), s) {
      var k := StarThenFirst(a, b, s);
    }
    forall k | 1 <= k <= |s| && Matches(a, s[..k]) && Matches(Cat(Star(a), b), s[k..]) ensures Matches(Cat(Star(a), b), s) {
      StarThenOnce(a, b, s, k);
    }
  }

  // ---------------------------------------------------------------- splitting on dots

  /** str.split('.'). */
  function Split(s: string): (r: seq<string>)
    ensures |r| >= 1
  {
    if s == [] then [[]]
    else if s[0] == '.' then [[]] + Split(s[1..])
    else var r := Split(s[1..]); [[s[0]] + r[0]] + r[1..]
  }

  lemma {:induction false} SplitNoDot(s: string)
    requires '.' !in s
    ensures Split(s) == [s]
  {
    if s != [] {
      SplitNoDot(s[1..]);
      assert s == [s[0]] + s[1..];
    }
  }

  lemma {:induction false} SplitAtDot(s: string, k: nat)
    requires k < |s| && s[k] == '.' && '.' !in s[..k]
    ensures Split(s) == [s[..k]] + Split(s[k + 1..])
  {
    if k > 0 {
      assert s[0] == s[..k][0];
      assert s[1..][..k - 1] == s[..k][1..];
      SplitAtDot(s[1..], k - 1);
      assert s[..k] == [s[0]] + s[1..][..k - 1];
    }
  }

  /** The position of the first dot, or the length. */
  function FirstDot(s: string): (k: nat)
    ensures k <= |s| && '.' !in s[..k] && (k < |s| ==> s[k] == '.')
  {
    if s == [] || s[0] == '.' then 0
    else
      var k := 1 + FirstDot(s[1..]);
      assert s[..k] == [s[0]] + s[1..][..k - 1];
      k
  }
}
