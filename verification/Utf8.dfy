/** UTF-8 as section 4 of RFC 3629 defines it, independent of any automaton. */
module Utf8 {
  import opened Octets

  predicate Tail(o: Octet) {
    0x80 <= o <= 0xBF
  }

  /** UTF8-char: one encoded code point. */
  predicate IsChar(c: Octets) {
    if |c| == 1 then
      c[0] <= 0x7F
    else if |c| == 2 then
      0xC2 <= c[0] <= 0xDF && Tail(c[1])
    else if |c| == 3 then
      && Tail(c[2])
      && (|| (c[0] == 0xE0 && 0xA0 <= c[1] <= 0xBF)
          || (0xE1 <= c[0] <= 0xEC && Tail(c[1]))
          || (c[0] == 0xED && 0x80 <= c[1] <= 0x9F)
          || (0xEE <= c[0] <= 0xEF && Tail(c[1])))
    else if |c| == 4 then
      && Tail(c[2]) && Tail(c[3])
      && (|| (c[0] == 0xF0 && 0x90 <= c[1] <= 0xBF)
          || (0xF1 <= c[0] <= 0xF3 && Tail(c[1]))
          || (c[0] == 0xF4 && 0x80 <= c[1] <= 0x8F))
    else
      false
  }

  /** UTF8-octets: any number of encoded code points. */
  ghost predicate WellFormed(s: Octets)
    decreases |s|
  {
    s == [] || exists k :: 1 <= k <= |s| && IsChar(s[..k]) && WellFormed(s[k..])
  }

  /** What has arrived can still become well-formed. */
  ghost predicate Extendable(s: Octets) {
    exists t: Octets :: WellFormed(s + t)
  }
}
