/** encode_truncate: cutting a text so that its UTF-8 encoding fits a limit. */
module EncodeTruncate {
  import opened Octets
  import opened Wrappers
  import opened Utf8
  import opened Utf8Validator

  type CodePoint = x: int | 0 <= x <= 0x10_FFFF

  type Text = seq<CodePoint>

  predicate Surrogate(c: CodePoint) {
    0xD800 <= c <= 0xDFFF
  }

  /** The texts that str.encode accepts for UTF-8. */
  predicate Encodable(text: Text) {
    forall i :: 0 <= i < |text| ==> !Surrogate(text[i])
  }

  function EncodeChar(c: CodePoint): (r: Octets)
    requires !Surrogate(c)
    ensures IsChar(r)
  {
    var n: int := c;
    if n < 0x80 then [n]
    else if n < 0x800 then [0xC0 + n / 0x40, 0x80 + n % 0x40]
    else if n < 0x1_0000 then [0xE0 + n / 0x40 / 0x40, 0x80 + n / 0x40 % 0x40, 0x80 + n % 0x40]
    else [0xF0 + n / 0x40 / 0x40 / 0x40, 0x80 + n / 0x40 / 0x40 % 0x40, 0x80 + n / 0x40 % 0x40, 0x80 + n % 0x40]
  }

  function DecodeChar(b: Octets): (c: CodePoint)
    requires IsChar(b)
    ensures !Surrogate(c)
  {
    if |b| == 1 then b[0] as int
    else if |b| == 2 then (b[0] as int - 0xC0) * 0x40 + (b[1] as int - 0x80)
    else if |b| == 3 then ((b[0] as int - 0xE0) * 0x40 + (b[1] as int - 0x80)) * 0x40 + (b[2] as int - 0x80)
    else (((b[0] as int - 0xF0) * 0x40 + (b[1] as int - 0x80)) * 0x40 + (b[2] as int - 0x80)) * 0x40 + (b[3] as int - 0x80)
  }

  lemma DecodeEncodeChar(c: CodePoint)
    requires !Surrogate(c)
    ensures DecodeChar(EncodeChar(c)) == c
  {
  }

  lemma SixBits(q: int, y: int)
    requires 0 <= y < 0x40
    ensures (q * 0x40 + y) / 0x40 == q && (q * 0x40 + y) % 0x40 == y
  {
  }

  lemma EncodeDecodeChar(b: Octets)
    requires IsChar(b)
    ensures EncodeChar(DecodeChar(b)) == b
  {
    var n := DecodeChar(b) as int;
    if |b| == 2 {
      SixBits(b[0] as int - 0xC0, b[1] as int - 0x80);
    } else if |b| == 3 {
      SixBits(b[0] as int - 0xE0, b[1] as int - 0x80);
      SixBits((b[0] as int - 0xE0) * 0x40 + (b[1] as int - 0x80), b[2] as int - 0x80);
      assert 0x800 <= n < 0x1_0000;
    } else if |b| == 4 {
      EncodeDecodeFour(b);
    }
  }

  lemma EncodeDecodeFour(b: Octets)
    requires IsChar(b) && |b| == 4
    ensures EncodeChar(DecodeChar(b)) == b
  {
    var q := b[0] as int - 0xF0;
    var r := q * 0x40 + (b[1] as int - 0x80);
    var t := r * 0x40 + (b[2] as int - 0x80);
    var n := t * 0x40 + (b[3] as int - 0x80);
    SixBits(t, b[3] as int - 0x80);
    SixBits(r, b[2] as int - 0x80);
    SixBits(q, b[1] as int - 0x80);
    assert n == DecodeChar(b) as int && 0x1_0000 <= n;
    assert n / 0x40 == t && t / 0x40 == r && r / 0x40 == q;
  }

  /** The order of octet strings. */
  predicate Less(a: Octets, b: Octets) {
    b != [] && (a == [] || a[0] < b[0] || (a[0] == b[0] && Less(a[1..], b[1..])))
  }

  lemma SixBitsOrder(c: int, d: int)
    requires 0 <= c < d
    ensures c / 0x40 < d / 0x40 || (c / 0x40 == d / 0x40 && c % 0x40 < d % 0x40)
  {
  }

  lemma LessThere(a: Octets, b: Octets, i: nat)
    requires i < |a| && i < |b| && a[..i] == b[..i] && a[i] < b[i]
    ensures Less(a, b)
  {
    if i > 0 {
      assert a[0] == a[..i][0] == b[0];
      assert a[1..][..i - 1] == a[..i][1..] == b[..i][1..] == b[1..][..i - 1];
      LessThere(a[1..], b[1..], i - 1);
    }
  }

  lemma LongOrder(c: CodePoint, d: CodePoint)
    requires 0x1_0000 <= c < d
    ensures Less(EncodeChar(c), EncodeChar(d))
  {
    var a, b := EncodeChar(c), EncodeChar(d);
    SixBitsOrder(c, d);
    if c / 0x40 == d / 0x40 {
      LessThere(a, b, 3);
    } else {
      SixBitsOrder(c / 0x40, d / 0x40);
      if c / 0x40 / 0x40 == d / 0x40 / 0x40 {
        LessThere(a, b, 2);
      } else {
        SixBitsOrder(c / 0x40 / 0x40, d / 0x40 / 0x40);
        LessThere(a, b, if c / 0x40 / 0x40 / 0x40 == d / 0x40 / 0x40 / 0x40 then 1 else 0);
      }
    }
  }

  lemma ShortOrder(c: CodePoint, d: CodePoint)
    requires !Surrogate(c) && !Surrogate(d) && c < d < 0x1_0000
    requires |EncodeChar(c)| == |EncodeChar(d)|
    ensures Less(EncodeChar(c), EncodeChar(d))
  {
    var a, b := EncodeChar(c), EncodeChar(d);
    SixBitsOrder(c, d);
    if |a| == 1 {
      LessThere(a, b, 0);
    } else if c / 0x40 == d / 0x40 {
      LessThere(a, b, |a| - 1);
    } else if |a| == 2 {
      LessThere(a, b, 0);
    } else {
      SixBitsOrder(c / 0x40, d / 0x40);
      LessThere(a, b, if c / 0x40 / 0x40 == d / 0x40 / 0x40 then 1 else 0);
    }
  }

  /**
   * The encoding keeps the order of the code points. As every character is an encoding, no
   * other assignment of characters to code points does.
   */
  lemma EncodingKeepsOrder(c: CodePoint, d: CodePoint)
    requires !Surrogate(c) && !Surrogate(d) && c < d
    ensures Less(EncodeChar(c), EncodeChar(d))
  {
    if |EncodeChar(c)| != |EncodeChar(d)| {
      LessThere(EncodeChar(c), EncodeChar(d), 0);
    } else if c < 0x1_0000 {
      ShortOrder(c, d);
    } else {
      LongOrder(c, d);
    }
  }

  function Chars(text: Text): (cs: seq<Octets>)
    requires Encodable(text)
  {
    seq(|text|, i requires 0 <= i < |text| => EncodeChar(text[i]))
  }

  /** str.encode. */
  function Encode(text: Text): Octets
    requires Encodable(text)
  {
    Flatten(Chars(text))
  }

  /** How many octets of s the automaton takes before it rejects. */
  function Taken(q: State, s: Octets): (n: nat)
    ensures n <= |s|
    decreases |s|
  {
    if s == [] || Transition(q, s[0]) == REJECT then 0 else 1 + Taken(Transition(q, s[0]), s[1..])
  }

  /** The length of the character that s starts with, or 0 if it starts with none. */
  function LeadingChar(s: Octets): (k: nat)
    ensures k <= |s| && (k > 0 ==> IsChar(s[..k]))
  {
    if |s| >= 1 && IsChar(s[..1]) then 1
    else if |s| >= 2 && IsChar(s[..2]) then 2
    else if |s| >= 3 && IsChar(s[..3]) then 3
    else if |s| >= 4 && IsChar(s[..4]) then 4
    else 0
  }

  /** bytes.decode with the handler that ignores errors: a maximal ill-formed part is skipped whole. */
  function DecodeIgnore(s: Octets): (text: Text)
    ensures Encodable(text)
    decreases |s|
  {
    if s == [] then []
    else
      var k := LeadingChar(s);
      if k > 0 then [DecodeChar(s[..k])] + DecodeIgnore(s[k..])
      else
        var n := Taken(ACCEPT, s);
        DecodeIgnore(s[if n == 0 then 1 else n..])
  }

  datatype Truncated =
    | NoText
    | AsOctets(octets: Octets)
    | AsText(text: Text)
    | EncodeError

  function EncodeTruncate(text: Option<Text>, limit: nat, returnEncoded: bool): (r: Truncated)
    ensures r == NoText <==> text.None?
    ensures r == EncodeError <==> text.Some? && exists i :: 0 <= i < |text.value| && 0xD800 <= text.value[i] <= 0xDFFF
  {
    if text.None? then NoText
    else if !Encodable(text.value) then EncodeError
    else
      var s := Encode(text.value);
      if |s| > limit then
        var cut := DecodeIgnore(s[..limit]);
        if returnEncoded then AsOctets(Encode(cut)) else AsText(cut)
      else if returnEncoded then AsOctets(s)
      else AsText(text.value)
  }

  // ---------------------------------------------------------------- what it computes

  ghost predicate AllChars(cs: seq<Octets>) {
    forall i :: 0 <= i < |cs| ==> IsChar(cs[i])
  }

  /** The number of leading characters that fit the limit together. */
  function Fitting(cs: seq<Octets>, limit: nat): (n: nat)
    ensures n <= |cs|
  {
    if cs == [] || |cs[0]| > limit then 0 else 1 + Fitting(cs[1..], limit - |cs[0]|)
  }

  lemma {:induction false} CharsAccepted(cs: seq<Octets>)
    requires AllChars(cs)
    ensures Run(ACCEPT, Flatten(cs)) == ACCEPT
  {
    if cs != [] {
      var c := cs[0];
      CharsAccepted(cs[1..]);
      RunConcat(ACCEPT, c, Flatten(cs[1..]));
      assert c[..|c|] == c && WellFormed(c[|c|..]);
      RunAccepts(ACCEPT, c);
    }
  }

  lemma {:induction false} LeadingCharOf(c: Octets, rest: Octets)
    requires IsChar(c)
    ensures LeadingChar(c + rest) == |c|
  {
    var s := c + rest;
    assert s[..|c|] == c;
    forall k | 1 <= k <= |s| && IsChar(s[..k]) ensures k == |c| {
      CharByFirstOctet(s[..k]);
      CharByFirstOctet(c);
    }
  }

  lemma {:induction false} TakenWithoutRejection(q: State, s: Octets)
    requires Run(q, s) != REJECT
    ensures Taken(q, s) == |s|
    decreases |s|
  {
    if s != [] {
      RejectAbsorbs(s[1..]);
      TakenWithoutRejection(Transition(q, s[0]), s[1..]);
    }
  }

  /** A character cut short decodes to nothing. */
  lemma {:induction false} CutCharVanishes(c: Octets, p: nat)
    requires IsChar(c) && p < |c|
    ensures DecodeIgnore(c[..p]) == []
  {
    var s := c[..p];
    if p > 0 {
      forall k | 1 <= k <= p ensures !IsChar(s[..k]) {
        CharByFirstOctet(s[..k]);
        CharByFirstOctet(c);
      }
      CharsAccepted([c]);
      assert Flatten([c]) == c == s + c[p..];
      RunConcat(ACCEPT, s, c[p..]);
      RejectAbsorbs(c[p..]);
      TakenWithoutRejection(ACCEPT, s);
      assert s[p..] == [];
    }
  }

  function DecodeChars(cs: seq<Octets>): Text
    requires AllChars(cs)
  {
    if cs == [] then [] else [DecodeChar(cs[0])] + DecodeChars(cs[1..])
  }

  lemma {:induction false} DecodeIgnoreLeadingChar(c: Octets, rest: Octets)
    requires IsChar(c)
    ensures DecodeIgnore(c + rest) == [DecodeChar(c)] + DecodeIgnore(rest)
  {
    LeadingCharOf(c, rest);
    assert (c + rest)[..|c|] == c && (c + rest)[|c|..] == rest;
  }

  lemma FlattenFirst(cs: seq<Octets>, tail: Octets)
    requires cs != []
    ensures Flatten(cs) + tail == cs[0] + (Flatten(cs[1..]) + tail)
  {
  }

  lemma {:induction false} DecodeIgnoreAfterChars(cs: seq<Octets>, tail: Octets)
    requires AllChars(cs)
    ensures DecodeIgnore(Flatten(cs) + tail) == DecodeChars(cs) + DecodeIgnore(tail)
  {
    if cs == [] {
      assert Flatten(cs) + tail == tail;
    } else {
      calc {
        DecodeIgnore(Flatten(cs) + tail);
        { FlattenFirst(cs, tail); }
        DecodeIgnore(cs[0] + (Flatten(cs[1..]) + tail));
        { DecodeIgnoreLeadingChar(cs[0], Flatten(cs[1..]) + tail); }
        [DecodeChar(cs[0])] + DecodeIgnore(Flatten(cs[1..]) + tail);
        { DecodeIgnoreAfterChars(cs[1..], tail); }
        [DecodeChar(cs[0])] + (DecodeChars(cs[1..]) + DecodeIgnore(tail));
        DecodeChars(cs) + DecodeIgnore(tail);
      }
    }
  }

  /** Where the cut falls: after the fitting characters, inside the next one. */
  lemma {:induction false} CutPoint(cs: seq<Octets>, limit: nat)
    requires |Flatten(cs)| > limit
    ensures var n := Fitting(cs, limit);
            && n < |cs|
            && |Flatten(cs[..n])| <= limit < |Flatten(cs[..n])| + |cs[n]|
            && Flatten(cs)[..limit] == Flatten(cs[..n]) + cs[n][..limit - |Flatten(cs[..n])|]
  {
    if |cs[0]| <= limit {
      CutPoint(cs[1..], limit - |cs[0]|);
      var n := Fitting(cs, limit);
      assert cs[..n][1..] == cs[1..][..n - 1];
      assert Flatten(cs)[..limit] == cs[0] + Flatten(cs[1..])[..limit - |cs[0]|];
    }
  }

  lemma {:induction false} FittingAll(cs: seq<Octets>, limit: nat)
    requires |Flatten(cs)| <= limit
    ensures Fitting(cs, limit) == |cs|
  {
    if cs != [] {
      FittingAll(cs[1..], limit - |cs[0]|);
    }
  }

  lemma {:induction false} FlattenPrefix(cs: seq<Octets>, n: nat, m: nat)
    requires n < m <= |cs|
    ensures |Flatten(cs[..m])| >= |Flatten(cs[..n])| + |cs[n]|
  {
    assert cs[..m][1..] == cs[1..][..m - 1];
    if n > 0 {
      assert cs[..n][1..] == cs[1..][..n - 1];
      FlattenPrefix(cs[1..], n - 1, m - 1);
    }
  }

  lemma {:induction false} DecodeCharsOf(text: Text)
    requires Encodable(text)
    ensures AllChars(Chars(text)) && DecodeChars(Chars(text)) == text
  {
    if text != [] {
      DecodeEncodeChar(text[0]);
      DecodeCharsOf(text[1..]);
      assert Chars(text)[1..] == Chars(text[1..]);
    }
  }

  lemma CharsPrefix(text: Text, n: nat)
    requires Encodable(text) && n <= |text|
    ensures Chars(text[..n]) == Chars(text)[..n]
  {
  }

  lemma {:induction false} DecodeCut(text: Text, limit: nat)
    requires Encodable(text) && |Encode(text)| > limit
    ensures DecodeIgnore(Encode(text)[..limit]) == text[..Fitting(Chars(text), limit)]
  {
    var cs := Chars(text);
    var n := Fitting(cs, limit);
    var p := limit - |Flatten(cs[..n])|;
    CutPoint(cs, limit);
    DecodeIgnoreAfterChars(cs[..n], cs[n][..p]);
    CutCharVanishes(cs[n], p);
    CharsPrefix(text, n);
    DecodeCharsOf(text[..n]);
  }

  /** Among the prefixes of the text, the fitting one is the longest within the limit. */
  lemma {:induction false} FittingIsMaximal(text: Text, limit: nat)
    requires Encodable(text)
    ensures var n := Fitting(Chars(text), limit);
            && |Encode(text[..n])| <= limit
            && (forall m :: n < m <= |text| ==> |Encode(text[..m])| > limit)
            && (n < |text| ==> limit - |Encode(text[..n])| < 4)
            && (n == |text| <==> |Encode(text)| <= limit)
  {
    var cs := Chars(text);
    var n := Fitting(cs, limit);
    CharsPrefix(text, n);
    if |Flatten(cs)| <= limit {
      FittingAll(cs, limit);
      assert text[..n] == text;
    } else {
      CutPoint(cs, limit);
      assert |cs[n]| <= 4;
      forall m | n < m <= |text| ensures |Encode(text[..m])| > limit {
        CharsPrefix(text, m);
        FlattenPrefix(cs, n, m);
      }
    }
  }

  /** The result is the longest prefix whose encoding fits, and the cut wastes fewer than four octets. */
  lemma {:induction false} TruncatesToLongestPrefix(text: Text, limit: nat)
    requires Encodable(text)
    ensures var n := Fitting(Chars(text), limit);
            && EncodeTruncate(Some(text), limit, true) == AsOctets(Encode(text[..n]))
            && EncodeTruncate(Some(text), limit, false) == AsText(text[..n])
            && Run(ACCEPT, Encode(text[..n])) == ACCEPT
            && |Encode(text[..n])| <= limit
            && (forall m :: n < m <= |text| ==> |Encode(text[..m])| > limit)
            && (n < |text| ==> limit - |Encode(text[..n])| < 4)
  {
    var n := Fitting(Chars(text), limit);
    FittingIsMaximal(text, limit);
    DecodeCharsOf(text[..n]);
    CharsAccepted(Chars(text[..n]));
    if |Encode(text)| > limit {
      DecodeCut(text, limit);
    } else {
      assert text[..n] == text;
    }
  }
}
