/**
 * The streaming UTF-8 validator: one automaton held as a two-level table, as an
 * unrolled cascade of tests, and as a 16-octet form with a shortcut for ASCII.
 */
module Utf8Validator {
  import opened Octets
  import opened Utf8

  const ACCEPT: State := 0
  const REJECT: State := 1

  type State = q: int | 0 <= q <= 8

  // ---------------------------------------------------------------- the unrolled automaton

  /** DFA_TRANSITION: one octet of the unrolled automaton. */
  function Transition(state: State, octet: Octet): State {
    if state == 0 then
      if octet <= 0x7F then 0
      else if 0xC2 <= octet <= 0xDF then 2
      else if 0xE1 <= octet <= 0xEC || octet == 0xEE || octet == 0xEF then 3
      else if octet == 0xE0 then 4
      else if octet == 0xED then 5
      else if octet == 0xF4 then 8
      else if octet == 0xF1 || octet == 0xF2 || octet == 0xF3 then 7
      else if octet == 0xF0 then 6
      else 1
    else if state == 2 then (if 0x80 <= octet <= 0xBF then 0 else 1)
    else if state == 3 then (if 0x80 <= octet <= 0xBF then 2 else 1)
    else if state == 4 then (if 0xA0 <= octet <= 0xBF then 2 else 1)
    else if state == 5 then (if 0x80 <= octet <= 0x9F then 2 else 1)
    else if state == 6 then (if 0x90 <= octet <= 0xBF then 3 else 1)
    else if state == 7 then (if 0x80 <= octet <= 0xBF then 3 else 1)
    else if state == 8 then (if 0x80 <= octet <= 0x8F then 3 else 1)
    else state
  }

  function Run(state: State, s: Octets): State
    decreases |s|
  {
    if s == [] then state else Run(Transition(state, s[0]), s[1..])
  }

  lemma RunConcat(q: State, a: Octets, b: Octets)
    ensures Run(q, a + b) == Run(Run(q, a), b)
    decreases |a|
  {
    if a == [] {
      assert a + b == b;
    } else {
      assert (a + b)[1..] == a[1..] + b;
      RunConcat(Transition(q, a[0]), a[1..], b);
    }
  }

  lemma RunSnoc(q: State, s: Octets, o: Octet)
    ensures Run(q, s + [o]) == Transition(Run(q, s), o)
  {
    RunConcat(q, s, [o]);
    assert Run(Run(q, s), [o]) == Run(Transition(Run(q, s), o), [o][1..]);
  }

  lemma RejectAbsorbs(s: Octets)
    ensures Run(REJECT, s) == REJECT
  {
    if s != [] {
      RejectAbsorbs(s[1..]);
    }
  }

  lemma AsciiStaysAccepting(s: Octets)
    requires forall i :: 0 <= i < |s| ==> s[i] < 0x80
    ensures Run(ACCEPT, s) == ACCEPT
  {
    if s != [] {
      AsciiStaysAccepting(s[1..]);
    }
  }

  // ---------------------------------------------------------------- the language

  /** Octets a pending character still needs. */
  function Need(q: State): nat {
    if q <= 1 then 0 else if q == 2 then 1 else if q <= 5 then 2 else 3
  }

  predicate Completes(q: State, c: Octets)
    requires 2 <= q && |c| == Need(q)
  {
    if q == 2 then Tail(c[0])
    else if q == 3 then Tail(c[0]) && Tail(c[1])
    else if q == 4 then 0xA0 <= c[0] <= 0xBF && Tail(c[1])
    else if q == 5 then 0x80 <= c[0] <= 0x9F && Tail(c[1])
    else if q == 6 then 0x90 <= c[0] <= 0xBF && Tail(c[1]) && Tail(c[2])
    else if q == 7 then Tail(c[0]) && Tail(c[1]) && Tail(c[2])
    else 0x80 <= c[0] <= 0x8F && Tail(c[1]) && Tail(c[2])
  }

  /** What each state still accepts, in terms of the grammar. */
  ghost predicate Accepts(q: State, s: Octets) {
    if q == ACCEPT then WellFormed(s)
    else if q == REJECT then false
    else |s| >= Need(q) && Completes(q, s[..Need(q)]) && WellFormed(s[Need(q)..])
  }

  /** The first octet of a character decides its length. */
  lemma CharByFirstOctet(c: Octets)
    requires c != []
    ensures var q := Transition(ACCEPT, c[0]);
            IsChar(c) <==> q != REJECT && |c| == 1 + Need(q) && (q != ACCEPT ==> Completes(q, c[1..]))
  {
  }

  lemma {:induction false} DeriveFromAccept(s: Octets)
    requires s != []
    ensures WellFormed(s) <==> Accepts(Transition(ACCEPT, s[0]), s[1..])
  {
    var q := Transition(ACCEPT, s[0]);
    var k := 1 + Need(q);
    if WellFormed(s) {
      var j :| 1 <= j <= |s| && IsChar(s[..j]) && WellFormed(s[j..]);
      CharByFirstOctet(s[..j]);
      assert j == k;
      assert s[..k][1..] == s[1..][..Need(q)];
      assert s[k..] == s[1..][Need(q)..];
    }
    if Accepts(q, s[1..]) {
      CharByFirstOctet(s[..k]);
      assert s[..k][1..] == s[1..][..Need(q)];
      assert s[k..] == s[1..][Need(q)..];
      assert IsChar(s[..k]);
    }
  }

  lemma {:induction false} Derive(q: State, s: Octets)
    requires s != []
    ensures Accepts(q, s) <==> Accepts(Transition(q, s[0]), s[1..])
  {
    if q == ACCEPT {
      DeriveFromAccept(s);
    } else if q != REJECT {
      var n := Need(q);
      if |s| >= n {
        assert s[1..][n - 1..] == s[n..];
        assert s[1..][..n - 1] == s[..n][1..];
      }
    }
  }

  /** The automaton accepts from a state exactly what the grammar lets follow it. */
  lemma {:induction false} RunAccepts(q: State, s: Octets)
    ensures Run(q, s) == ACCEPT <==> Accepts(q, s)
    decreases |s|
  {
    if s != [] {
      Derive(q, s);
      RunAccepts(Transition(q, s[0]), s[1..]);
    }
  }

  /** A completion for every state that has not rejected. */
  function Completion(q: State): (c: Octets)
    requires q != REJECT
    ensures Run(q, c) == ACCEPT
  {
    if q == 0 then []
    else if q == 2 then [0x80]
    else if q == 4 then [0xA0] + Completion(2)
    else if q <= 5 then [0x80] + Completion(2)
    else if q == 6 then [0x90] + Completion(3)
    else [0x80] + Completion(3)
  }

  // ---------------------------------------------------------------- verdicts

  /** The return code of every validate function. */
  function Code(q: State): (r: int) {
    if q == ACCEPT then 0 else if q == REJECT then -1 else 1
  }

  lemma {:induction false} ExtendableUnlessRejected(s: Octets)
    ensures Extendable(s) <==> Run(ACCEPT, s) != REJECT
  {
    var q := Run(ACCEPT, s);
    if q != REJECT {
      RunConcat(ACCEPT, s, Completion(q));
      RunAccepts(ACCEPT, s + Completion(q));
      assert WellFormed(s + Completion(q));
    } else {
      forall t: Octets ensures !WellFormed(s + t) {
        RunConcat(ACCEPT, s, t);
        RejectAbsorbs(t);
        RunAccepts(ACCEPT, s + t);
      }
    }
  }

  /** The return code, in terms of everything fed since the last reset. */
  lemma {:induction false} Verdict(s: Octets)
    ensures Code(Run(ACCEPT, s)) == 0 <==> WellFormed(s)
    ensures Code(Run(ACCEPT, s)) == 1 <==> !WellFormed(s) && Extendable(s)
    ensures Code(Run(ACCEPT, s)) == -1 <==> !Extendable(s)
  {
    RunAccepts(ACCEPT, s);
    ExtendableUnlessRejected(s);
  }

  // ---------------------------------------------------------------- the table

  const OCTETS_00_1F: seq<nat> := [0, 0, 0, 0, 0, 0, 0, 0, 0, 0, 0, 0, 0, 0, 0, 0, 0, 0, 0, 0, 0, 0, 0, 0, 0, 0, 0, 0, 0, 0, 0, 0]
  const OCTETS_20_3F: seq<nat> := [0, 0, 0, 0, 0, 0, 0, 0, 0, 0, 0, 0, 0, 0, 0, 0, 0, 0, 0, 0, 0, 0, 0, 0, 0, 0, 0, 0, 0, 0, 0, 0]
  const OCTETS_40_5F: seq<nat> := [0, 0, 0, 0, 0, 0, 0, 0, 0, 0, 0, 0, 0, 0, 0, 0, 0, 0, 0, 0, 0, 0, 0, 0, 0, 0, 0, 0, 0, 0, 0, 0]
  const OCTETS_60_7F: seq<nat> := [0, 0, 0, 0, 0, 0, 0, 0, 0, 0, 0, 0, 0, 0, 0, 0, 0, 0, 0, 0, 0, 0, 0, 0, 0, 0, 0, 0, 0, 0, 0, 0]
  const OCTETS_80_9F: seq<nat> := [1, 1, 1, 1, 1, 1, 1, 1, 1, 1, 1, 1, 1, 1, 1, 1, 9, 9, 9, 9, 9, 9, 9, 9, 9, 9, 9, 9, 9, 9, 9, 9]
  const OCTETS_A0_BF: seq<nat> := [7, 7, 7, 7, 7, 7, 7, 7, 7, 7, 7, 7, 7, 7, 7, 7, 7, 7, 7, 7, 7, 7, 7, 7, 7, 7, 7, 7, 7, 7, 7, 7]
  const OCTETS_C0_DF: seq<nat> := [8, 8, 2, 2, 2, 2, 2, 2, 2, 2, 2, 2, 2, 2, 2, 2, 2, 2, 2, 2, 2, 2, 2, 2, 2, 2, 2, 2, 2, 2, 2, 2]
  const OCTETS_E0_EF: seq<nat> := [10, 3, 3, 3, 3, 3, 3, 3, 3, 3, 3, 3, 3, 4, 3, 3]
  const OCTETS_F0_FF: seq<nat> := [11, 6, 6, 6, 5, 8, 8, 8, 8, 8, 8, 8, 8, 8, 8, 8]
  const STATE_0: seq<nat> := [0, 1, 2, 3, 5, 8, 7, 1, 1, 1, 4, 6, 1, 1, 1, 1]
  const STATES_1_2: seq<nat> := [1, 1, 1, 1, 1, 1, 1, 1, 1, 1, 1, 1, 1, 1, 1, 1, 1, 0, 1, 1, 1, 1, 1, 0, 1, 0, 1, 1, 1, 1, 1, 1]
  const STATES_3_4: seq<nat> := [1, 2, 1, 1, 1, 1, 1, 2, 1, 2, 1, 1, 1, 1, 1, 1, 1, 1, 1, 1, 1, 1, 1, 2, 1, 1, 1, 1, 1, 1, 1, 1]
  const STATES_5_6: seq<nat> := [1, 2, 1, 1, 1, 1, 1, 1, 1, 2, 1, 1, 1, 1, 1, 1, 1, 1, 1, 1, 1, 1, 1, 3, 1, 3, 1, 1, 1, 1, 1, 1]
  const STATES_7_8: seq<nat> := [1, 3, 1, 1, 1, 1, 1, 3, 1, 3, 1, 1, 1, 1, 1, 1, 1, 3, 1, 1, 1, 1, 1, 1, 1, 1, 1, 1, 1, 1, 1, 1]

  /** UTF8VALIDATOR_DFA: a class for each octet, then a row of successors for each state. */
  const UTF8VALIDATOR_DFA: seq<nat> :=
    OCTETS_00_1F + OCTETS_20_3F + OCTETS_40_5F + OCTETS_60_7F
    + OCTETS_80_9F + OCTETS_A0_BF + OCTETS_C0_DF + OCTETS_E0_EF + OCTETS_F0_FF
    + STATE_0 + STATES_1_2 + STATES_3_4 + STATES_5_6 + STATES_7_8

  /** The octet classes of the table, as ranges. */
  function Class(o: Octet): (c: nat)
    ensures c < 12
  {
    if o <= 0x7F then 0
    else if o <= 0x8F then 1
    else if o <= 0x9F then 9
    else if o <= 0xBF then 7
    else if o <= 0xC1 then 8
    else if o <= 0xDF then 2
    else if o == 0xE0 then 10
    else if o == 0xED then 4
    else if o <= 0xEF then 3
    else if o == 0xF0 then 11
    else if o <= 0xF3 then 6
    else if o == 0xF4 then 5
    else 8
  }

  /** A row of the first part of the table: the classes of the octets from base on. */
  ghost predicate ClassRow(row: seq<nat>, base: nat, size: nat)
    requires base + size <= 256
  {
    |row| == size && forall i :: 0 <= i < size ==> row[i] == Class(base + i)
  }

  /** A row of the second part: the successors of state q by octet class. */
  ghost predicate StateRow(row: seq<nat>, at: nat, q: State) {
    |row| >= at + 16 && forall o: Octet :: row[at + Class(o)] == Transition(q, o)
  }

  lemma AsciiRows()
    ensures ClassRow(OCTETS_00_1F, 0x00, 32) && ClassRow(OCTETS_20_3F, 0x20, 32)
    ensures ClassRow(OCTETS_40_5F, 0x40, 32) && ClassRow(OCTETS_60_7F, 0x60, 32)
  {
  }

  lemma ContinuationRows()
    ensures ClassRow(OCTETS_80_9F, 0x80, 32) && ClassRow(OCTETS_A0_BF, 0xA0, 32)
  {
  }

  lemma LeadRows()
    ensures ClassRow(OCTETS_C0_DF, 0xC0, 32)
    ensures ClassRow(OCTETS_E0_EF, 0xE0, 16) && ClassRow(OCTETS_F0_FF, 0xF0, 16)
  {
  }

  lemma StateRows0To2()
    ensures |STATE_0| == 16 && StateRow(STATE_0, 0, 0)
    ensures |STATES_1_2| == 32 && StateRow(STATES_1_2, 0, 1) && StateRow(STATES_1_2, 16, 2)
  {
  }

  lemma StateRows3To4()
    ensures |STATES_3_4| == 32 && StateRow(STATES_3_4, 0, 3) && StateRow(STATES_3_4, 16, 4)
  {
  }

  lemma StateRows5To6()
    ensures |STATES_5_6| == 32 && StateRow(STATES_5_6, 0, 5) && StateRow(STATES_5_6, 16, 6)
  {
  }

  lemma StateRows7To8()
    ensures |STATES_7_8| == 32 && StateRow(STATES_7_8, 0, 7) && StateRow(STATES_7_8, 16, 8)
  {
  }

  /** The first lookup, for any rows with these meanings laid end to end. */
  lemma LookupClass(a: seq<nat>, b: seq<nat>, c: seq<nat>, d: seq<nat>, e: seq<nat>, f: seq<nat>, g: seq<nat>,
                    h: seq<nat>, j: seq<nat>, o: Octet)
    requires ClassRow(a, 0x00, 32) && ClassRow(b, 0x20, 32) && ClassRow(c, 0x40, 32) && ClassRow(d, 0x60, 32)
    requires ClassRow(e, 0x80, 32) && ClassRow(f, 0xA0, 32) && ClassRow(g, 0xC0, 32)
    requires ClassRow(h, 0xE0, 16) && ClassRow(j, 0xF0, 16)
    ensures var t := a + b + c + d + e + f + g + h + j; |t| == 256 && t[o] == Class(o)
  {
  }

  /** The second lookup, for any rows with these meanings behind the classes. */
  lemma LookupState(t: seq<nat>, s0: seq<nat>, s1: seq<nat>, s3: seq<nat>, s5: seq<nat>, s7: seq<nat>, q: State, o: Octet)
    requires |t| == 256 && t[o] == Class(o)
    requires |s0| == 16 && |s1| == |s3| == |s5| == |s7| == 32
    requires StateRow(s0, 0, 0) && StateRow(s1, 0, 1) && StateRow(s1, 16, 2)
    requires StateRow(s3, 0, 3) && StateRow(s3, 16, 4)
    requires StateRow(s5, 0, 5) && StateRow(s5, 16, 6) && StateRow(s7, 0, 7) && StateRow(s7, 16, 8)
    ensures var u := t + s0 + s1 + s3 + s5 + s7; |u| == 400 && u[o] == Class(o) && u[256 + q * 16 + u[o]] == Transition(q, o)
  {
    var rows := if q == 0 then s0 else if q <= 2 then s1 else if q <= 4 then s3 else if q <= 6 then s5 else s7;
    var at := if q == 0 then 0 else (q - 1) % 2 * 16;
    assert StateRow(rows, at, q);
    assert (t + s0 + s1 + s3 + s5 + s7)[256 + q * 16 + Class(o)] == rows[at + Class(o)];
  }

  /** The two table lookups make the same step as the unrolled cascade. */
  lemma TableRefinesCascade(q: State, o: Octet)
    ensures |UTF8VALIDATOR_DFA| == 400
    ensures 256 + q * 16 + UTF8VALIDATOR_DFA[o] < 400
    ensures UTF8VALIDATOR_DFA[256 + q * 16 + UTF8VALIDATOR_DFA[o]] == Transition(q, o)
  {
    AsciiRows();
    ContinuationRows();
    LeadRows();
    StateRows0To2();
    StateRows3To4();
    StateRows5To6();
    StateRows7To8();
    LookupClass(OCTETS_00_1F, OCTETS_20_3F, OCTETS_40_5F, OCTETS_60_7F, OCTETS_80_9F, OCTETS_A0_BF, OCTETS_C0_DF,
                OCTETS_E0_EF, OCTETS_F0_FF, o);
    LookupState(OCTETS_00_1F + OCTETS_20_3F + OCTETS_40_5F + OCTETS_60_7F + OCTETS_80_9F + OCTETS_A0_BF + OCTETS_C0_DF
                + OCTETS_E0_EF + OCTETS_F0_FF, STATE_0, STATES_1_2, STATES_3_4, STATES_5_6, STATES_7_8, q, o);
  }

  method LookUp(q: State, o: Octet) returns (r: State)
    ensures r == Transition(q, o)
  {
    TableRefinesCascade(q, o);
    r := UTF8VALIDATOR_DFA[256 + q * 16 + UTF8VALIDATOR_DFA[o]];
  }

  // ---------------------------------------------------------------- sixteen octets at a time

  /** The instruction set the library was compiled for. */
  datatype Simd = NoSimd | Sse2 | Sse41

  const BLOCK: nat := 16

  /** _mm_srli_si128 by k octets. */
  function ShiftRight(xmm: Octets, k: nat): (r: Octets)
    requires k <= |xmm|
    ensures |r| == |xmm|
  {
    if k == 0 then xmm else var y := ShiftRight(xmm, k - 1); y[1..] + [0]
  }

  lemma {:induction false} ShiftRightAt(xmm: Octets, k: nat, i: nat)
    requires k + i < |xmm|
    ensures ShiftRight(xmm, k)[i] == xmm[k + i]
  {
    if k > 0 {
      ShiftRightAt(xmm, k - 1, i + 1);
    }
  }

  /** Octet k of a register: SSE2 shifts it down to the lowest position, SSE4.1 picks it. */
  function Extract(simd: Simd, xmm: Octets, k: nat): Octet
    requires k < |xmm|
  {
    if simd == Sse2 then ShiftRight(xmm, k)[0] else xmm[k]
  }

  /** _mm_movemask_epi8 is non-zero. */
  predicate AnyHighBit(xmm: Octets) {
    exists i :: 0 <= i < |xmm| && xmm[i] >= 0x80
  }

  /** The first n transitions of a block, none of which looks for a rejection. */
  function Transitions(q: State, simd: Simd, xmm: Octets, n: nat): State
    requires n <= |xmm|
  {
    if n == 0 then q else Transition(Transitions(q, simd, xmm, n - 1), Extract(simd, xmm, n - 1))
  }

  /** A block makes the run of its octets, also when it rejects in the middle. */
  lemma {:induction false} TransitionsRun(q: State, simd: Simd, xmm: Octets, n: nat)
    requires n <= |xmm|
    ensures Transitions(q, simd, xmm, n) == Run(q, xmm[..n])
  {
    if n > 0 {
      TransitionsRun(q, simd, xmm, n - 1);
      ShiftRightAt(xmm, n - 1, 0);
      assert xmm[..n] == xmm[..n - 1] + [xmm[n - 1]];
      RunSnoc(q, xmm[..n - 1], xmm[n - 1]);
    }
  }

  method Block(q: State, simd: Simd, xmm: Octets) returns (r: State)
    requires |xmm| == BLOCK
    ensures r == Run(q, xmm)
  {
    TransitionsRun(q, simd, xmm, BLOCK);
    assert xmm[..BLOCK] == xmm;
    r := Transitions(q, simd, xmm, BLOCK);
  }

  /** The octet-wise loop of the unrolled form, which the 16-octet form also uses for head and tail. */
  method ScanOctets(data: array<Octet>, lo: nat, hi: nat, start: State) returns (q: State, i: nat)
    requires lo <= hi <= data.Length
    ensures lo <= i <= hi && q == Run(start, data[lo..i])
    ensures i < hi ==> q == REJECT
  {
    q, i := start, lo;
    while i < hi && q != REJECT
      invariant lo <= i <= hi
      invariant q == Run(start, data[lo..i])
    {
      RunSnoc(start, data[lo..i], data[i]);
      assert data[lo..i + 1] == data[lo..i] + [data[i]];
      q := Transition(q, data[i]);
      i := i + 1;
    }
  }

  /**
   * The loop over blocks. A block is skipped when no character is pending and no octet
   * in it has its high bit set.
   */
  method ScanBlocks(data: array<Octet>, simd: Simd, lo: nat, hi: nat, start: State) returns (q: State, i: nat)
    requires lo <= hi <= data.Length && (hi - lo) % BLOCK == 0
    ensures lo <= i <= hi && q == Run(start, data[lo..i])
    ensures i < hi ==> q == REJECT
  {
    q, i := start, lo;
    while i < hi && q != REJECT
      invariant lo <= i <= hi && (hi - i) % BLOCK == 0
      invariant q == Run(start, data[lo..i])
    {
      var xmm := data[i..i + BLOCK];
      RunConcat(start, data[lo..i], xmm);
      assert data[lo..i + BLOCK] == data[lo..i] + xmm;
      if q != 0 || AnyHighBit(xmm) {
        q := Block(q, simd, xmm);
      } else {
        AsciiStaysAccepting(xmm);
      }
      i := i + BLOCK;
    }
  }

  // ---------------------------------------------------------------- the validator object

  const OPTIMAL: int := 0
  const TABLE_DFA: int := 1
  const UNROLLED_DFA: int := 2
  const SSE2_DFA: int := 3
  const SSE41_DFA: int := 4

  function BestImpl(simd: Simd): int {
    match simd
    case NoSimd => UNROLLED_DFA
    case Sse2 => SSE2_DFA
    case Sse41 => SSE41_DFA
  }

  class Validator {
    const simd: Simd
    var state: State
    var impl: int

    /** Every octet validated since the last reset. */
    ghost var fed: Octets

    ghost predicate Valid()
      reads this
    {
      state == Run(ACCEPT, fed)
    }

    constructor (simd: Simd)
      ensures Valid() && fed == [] && this.simd == simd
      ensures impl == BestImpl(simd) == if simd == NoSimd then 2 else if simd == Sse2 then 3 else 4
    {
      this.simd := simd;
      state := 0;
      fed := [];
      impl := BestImpl(simd);
    }

    method Reset()
      modifies this`state, this`fed
      ensures Valid() && fed == []
    {
      state := 0;
      fed := [];
    }

    method SetImpl(requested: int) returns (chosen: int)
      modifies this`impl
      ensures chosen == impl
      ensures impl == if requested == OPTIMAL then BestImpl(simd)
                      else if requested <= BestImpl(simd) then requested
                      else old(impl)
      ensures requested == 0 ==> impl == if simd == NoSimd then 2 else if simd == Sse2 then 3 else 4
      ensures 1 <= requested <= 2 ==> impl == requested
    {
      if requested != 0 {
        if requested <= BestImpl(simd) {
          impl := requested;
        }
      } else {
        impl := BestImpl(simd);
      }
      chosen := impl;
    }

    method ValidateTable(data: array<Octet>) returns (r: int)
      requires Valid()
      modifies this`state, this`fed
      ensures Valid() && fed == old(fed) + data[..]
      ensures state == Run(old(state), data[..]) && r == Code(state)
    {
      var q := state;
      var i := 0;
      while i < data.Length && q != 1
        invariant 0 <= i <= data.Length
        invariant q == Run(state, data[..i])
        modifies {}
      {
        RunSnoc(state, data[..i], data[i]);
        assert data[..i + 1] == data[..i] + [data[i]];
        q := LookUp(q, data[i]);
        i := i + 1;
      }
      Finish(data[..], i, q);
      state := q;
      r := if q == 0 then 0 else if q == 1 then -1 else 1;
    }

    method ValidateUnrolled(data: array<Octet>) returns (r: int)
      requires Valid()
      modifies this`state, this`fed
      ensures Valid() && fed == old(fed) + data[..]
      ensures state == Run(old(state), data[..]) && r == Code(state)
    {
      var q, i := ScanOctets(data, 0, data.Length, state);
      assert data[0..i] == data[..i];
      Finish(data[..], i, q);
      state := q;
      r := if q == 0 then 0 else if q == 1 then -1 else 1;
    }

    /** The SSE2 and SSE4.1 forms: a head of headLen octets, blocks of sixteen, and a tail. */
    method ValidateSimd(data: array<Octet>, headLen: nat) returns (r: int)
      requires Valid() && headLen <= data.Length
      modifies this`state, this`fed
      ensures Valid() && fed == old(fed) + data[..]
      ensures state == Run(old(state), data[..]) && r == Code(state)
    {
      var q, i := ScanOctets(data, 0, headLen, state);
      var end := i + (data.Length - headLen) / BLOCK * BLOCK;
      var p, j := ScanBlocks(data, simd, i, end, q);
      var t, k := ScanOctets(data, j, data.Length, p);
      RunConcat(state, data[..i], data[i..j]);
      RunConcat(state, data[..j], data[j..k]);
      assert data[0..i] == data[..i];
      assert data[..j] == data[..i] + data[i..j];
      assert data[..k] == data[..j] + data[j..k];
      Finish(data[..], k, t);
      state := t;
      r := if t == ACCEPT then 0 else if t == REJECT then -1 else 1;
    }

    /** Records the octets of a call that stopped after i of them, at the end or on rejection. */
    ghost method Finish(s: Octets, i: nat, q: State)
      requires Valid() && i <= |s| && q == Run(state, s[..i])
      requires i == |s| || q == REJECT
      modifies this`fed
      ensures q == Run(state, s) && fed == old(fed) + s && q == Run(ACCEPT, fed)
    {
      RunConcat(state, s[..i], s[i..]);
      RejectAbsorbs(s[i..]);
      assert s[..i] + s[i..] == s;
      RunConcat(ACCEPT, fed, s);
      fed := fed + s;
    }

    /**
     * nvx_utf8vld_validate. Whatever implementation is selected, the return code says
     * whether everything fed since the last reset is well-formed, can still become so, or cannot.
     */
    method Validate(data: array<Octet>) returns (r: int)
      requires Valid()
      modifies this`state, this`fed
      ensures Valid() && fed == old(fed) + data[..]
      ensures r == 0 <==> WellFormed(fed)
      ensures r == 1 <==> !WellFormed(fed) && Extendable(fed)
      ensures r == -1 <==> !Extendable(fed)
    {
      if impl == TABLE_DFA {
        r := ValidateTable(data);
      } else if impl == UNROLLED_DFA {
        r := ValidateUnrolled(data);
      } else if impl == SSE2_DFA && simd != NoSimd {
        r := ValidateTable(data);
      } else if impl == SSE41_DFA && simd == Sse41 {
        r := ValidateTable(data);
      } else {
        r := ValidateTable(data);
      }
      Verdict(fed);
    }
  }
}
