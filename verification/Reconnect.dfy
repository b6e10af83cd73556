/**
 * The reconnect scheduler of a component: cyclic search for a transport, budgets of
 * attempts, permanent failures, and exponential backoff.
 */
module Reconnect {
  import opened Wrappers

  // ---------------------------------------------------------------- budgets

  /** What decides whether a transport may be tried again. */
  datatype Budget = Budget(maxRetries: int, attempts: nat, failed: bool)

  predicate Eligible(b: Budget) {
    !b.failed && (b.maxRetries == -1 || b.attempts < b.maxRetries + 1)
  }

  /** Attempts left, for a transport with a finite budget. */
  function Remaining(b: Budget): nat {
    if b.failed || b.attempts >= b.maxRetries + 1 then 0 else b.maxRetries + 1 - b.attempts
  }

  function TotalRemaining(bs: seq<Budget>): nat {
    if bs == [] then 0 else Remaining(bs[0]) + TotalRemaining(bs[1..])
  }

  ghost predicate Finite(bs: seq<Budget>) {
    forall i :: 0 <= i < |bs| ==> bs[i].maxRetries >= 0
  }

  ghost predicate AnyEligible(bs: seq<Budget>) {
    exists i :: 0 <= i < |bs| && Eligible(bs[i])
  }

  /** One failed attempt. */
  function AfterFailure(b: Budget, fatal: bool): Budget {
    b.(attempts := b.attempts + 1, failed := b.failed || fatal)
  }

  lemma {:induction false} TotalAfter(bs: seq<Budget>, i: nat, b: Budget)
    requires i < |bs|
    ensures TotalRemaining(bs[i := b]) == TotalRemaining(bs) - Remaining(bs[i]) + Remaining(b)
  {
    if i > 0 {
      TotalAfter(bs[1..], i - 1, b);
      assert bs[i := b][1..] == bs[1..][i - 1 := b];
    } else {
      assert bs[0 := b][1..] == bs[1..];
    }
  }

  lemma {:induction false} NothingRemains(bs: seq<Budget>)
    requires Finite(bs)
    ensures TotalRemaining(bs) == 0 <==> !AnyEligible(bs)
  {
    if bs != [] {
      NothingRemains(bs[1..]);
      if AnyEligible(bs[1..]) {
        var i :| 0 <= i < |bs[1..]| && Eligible(bs[1..][i]);
        assert Eligible(bs[i + 1]);
      }
      if AnyEligible(bs) {
        var i :| 0 <= i < |bs| && Eligible(bs[i]);
        assert i == 0 || Eligible(bs[1..][i - 1]);
      }
    }
  }

  // ---------------------------------------------------------------- the cyclic search

  function Succ(n: nat, c: nat): nat
    requires c < n
  {
    if c + 1 == n then 0 else c + 1
  }

  /** Steps of the cycle from position c to position i. */
  function Dist(n: nat, c: nat, i: nat): nat
    requires c < n && i < n
  {
    if c <= i then i - c else i + n - c
  }

  /** p is the first eligible position, in cyclic order from c. */
  ghost predicate FirstEligible(bs: seq<Budget>, c: nat, p: nat) {
    && c < |bs| && p < |bs| && Eligible(bs[p])
    && forall i :: 0 <= i < |bs| && Eligible(bs[i]) ==> Dist(|bs|, c, p) <= Dist(|bs|, c, i)
  }

  lemma FirstEligibleIsUnique(bs: seq<Budget>, c: nat, p: nat, q: nat)
    requires FirstEligible(bs, c, p) && FirstEligible(bs, c, q)
    ensures p == q
  {
    assert Dist(|bs|, c, p) == Dist(|bs|, c, q);
  }

  /** Where the cycle stands before pick k of a run. */
  function Position(history: seq<seq<Budget>>, start: nat, picks: seq<nat>, k: nat): nat
    requires k <= |history| == |picks|
  {
    if k == 0 || picks[k - 1] >= |history[k - 1]| then start else Succ(|history[k - 1]|, picks[k - 1])
  }

  ghost predicate PicksFirst(history: seq<seq<Budget>>, start: nat, picks: seq<nat>, k: nat)
    requires k < |history| == |picks|
  {
    FirstEligible(history[k], Position(history, start, picks, k), picks[k])
  }

  /** A run of picks: the budgets may change in any way between them. */
  ghost predicate PickRun(history: seq<seq<Budget>>, start: nat, picks: seq<nat>) {
    |history| == |picks| && forall k: nat :: k < |picks| ==> PicksFirst(history, start, picks, k)
  }

  function Count(picks: seq<nat>, i: nat): nat {
    if picks == [] then 0 else Count(picks[..|picks| - 1], i) + (if picks[|picks| - 1] == i then 1 else 0)
  }

  /** 1 if position c is after i and not after j, where i < j. */
  function Between(i: nat, c: nat, j: nat): int {
    if i < c <= j then 1 else 0
  }

  ghost predicate EligibleThroughout(history: seq<seq<Budget>>, n: nat, i: nat) {
    forall k :: 0 <= k < |history| ==> |history[k]| == n && i < n && Eligible(history[k][i])
  }

  lemma PickBalance(bs: seq<Budget>, c: nat, p: nat, i: nat, j: nat)
    requires FirstEligible(bs, c, p) && i < j < |bs| && Eligible(bs[i]) && Eligible(bs[j])
    ensures (if p == i then 1 else 0) - (if p == j then 1 else 0) == Between(i, Succ(|bs|, p), j) - Between(i, c, j)
  {
    assert Dist(|bs|, c, p) <= Dist(|bs|, c, i) && Dist(|bs|, c, p) <= Dist(|bs|, c, j);
  }

  lemma CountSnoc(picks: seq<nat>, k: nat, i: nat)
    requires k < |picks|
    ensures Count(picks[..k + 1], i) == Count(picks[..k], i) + (if picks[k] == i then 1 else 0)
  {
    assert picks[..k + 1][..k] == picks[..k];
  }

  lemma {:induction false} PickOfRunBalance(history: seq<seq<Budget>>, n: nat, start: nat, picks: seq<nat>, i: nat, j: nat, k: nat)
    requires PickRun(history, start, picks) && k < |picks| && i < j < n
    requires EligibleThroughout(history, n, i) && EligibleThroughout(history, n, j)
    ensures (if picks[k] == i then 1 else 0) - (if picks[k] == j then 1 else 0)
            == Between(i, Position(history, start, picks, k + 1), j) - Between(i, Position(history, start, picks, k), j)
  {
    assert PicksFirst(history, start, picks, k);
    assert Eligible(history[k][i]) && Eligible(history[k][j]) && |history[k]| == n;
    PickBalance(history[k], Position(history, start, picks, k), picks[k], i, j);
  }

  lemma {:induction false} RunBalance(history: seq<seq<Budget>>, n: nat, start: nat, picks: seq<nat>, i: nat, j: nat, k: nat)
    requires PickRun(history, start, picks) && k <= |picks| && i < j < n
    requires EligibleThroughout(history, n, i) && EligibleThroughout(history, n, j)
    ensures Count(picks[..k], i) - Count(picks[..k], j) == Between(i, Position(history, start, picks, k), j) - Between(i, start, j)
  {
    if k > 0 {
      RunBalance(history, n, start, picks, i, j, k - 1);
      PickOfRunBalance(history, n, start, picks, i, j, k - 1);
      CountSnoc(picks, k - 1, i);
      CountSnoc(picks, k - 1, j);
    }
  }

  /**
   * Fairness: over any run of picks, two transports that stay eligible throughout are
   * picked equally often, up to one.
   */
  lemma {:induction false} Fairness(history: seq<seq<Budget>>, n: nat, start: nat, picks: seq<nat>, i: nat, j: nat)
    requires PickRun(history, start, picks) && i < n && j < n
    requires EligibleThroughout(history, n, i) && EligibleThroughout(history, n, j)
    ensures -1 <= Count(picks, i) - Count(picks, j) <= 1
  {
    assert picks[..|picks|] == picks;
    if i < j {
      RunBalance(history, n, start, picks, i, j, |picks|);
    } else if j < i {
      RunBalance(history, n, start, picks, j, i, |picks|);
    }
  }

  lemma {:induction false} PickInTurn(history: seq<seq<Budget>>, n: nat, picks: seq<nat>, k: nat)
    requires PickRun(history, 0, picks) && k < |picks| && n > 0
    requires forall i :: 0 <= i < n ==> EligibleThroughout(history, n, i)
    ensures k > 0 ==> picks[k - 1] < n
    ensures picks[k] == if k == 0 then 0 else Succ(n, picks[k - 1])
  {
    assert EligibleThroughout(history, n, 0) && PicksFirst(history, 0, picks, k);
    var at := Position(history, 0, picks, k);
    if k > 0 {
      assert PicksFirst(history, 0, picks, k - 1);
    }
    assert EligibleThroughout(history, n, at) && Dist(n, at, at) == 0;
  }

  /** While every transport can be tried, they are taken in the order in which they are configured. */
  lemma {:induction false} RoundRobin(history: seq<seq<Budget>>, n: nat, picks: seq<nat>, k: nat)
    requires PickRun(history, 0, picks) && k < |picks| && n > 0
    requires forall i :: 0 <= i < n ==> EligibleThroughout(history, n, i)
    ensures picks[k] == k % n
  {
    PickInTurn(history, n, picks, k);
    if k > 0 {
      RoundRobin(history, n, picks, k - 1);
      NextInTurn(k - 1, n);
    }
  }

  lemma MultipleBound(d: int, n: nat)
    ensures d >= 1 ==> d * n >= n
    ensures d <= -1 ==> d * n + n <= 0
  {
  }

  lemma RemainderIs(a: int, n: nat, q: int, r: nat)
    requires r < n && a == q * n + r
    ensures a % n == r
  {
    var d := a / n - q;
    assert d * n == a / n * n - q * n;
    MultipleBound(d, n);
  }

  lemma NextInTurn(k: nat, n: nat)
    requires n > 0
    ensures (k + 1) % n == if k % n + 1 == n then 0 else k % n + 1
  {
    var q := k / n;
    if k % n + 1 == n {
      assert (q + 1) * n == q * n + n;
      RemainderIs(k + 1, n, q + 1, 0);
    } else {
      RemainderIs(k + 1, n, q, k % n + 1);
    }
  }

  // ---------------------------------------------------------------- exhaustion

  /** A failed attempt: which transport was tried, and whether the error was fatal. */
  datatype Failure = Failure(transport: nat, fatal: bool)

  /** The budgets after failures alone. */
  function AfterFailures(bs: seq<Budget>, fs: seq<Failure>): (r: seq<Budget>)
    ensures |r| == |bs|
    decreases |fs|
  {
    if fs == [] then bs
    else
      var r := AfterFailures(bs, fs[..|fs| - 1]);
      var f := fs[|fs| - 1];
      if f.transport < |bs| then r[f.transport := AfterFailure(r[f.transport], f.fatal)] else r
  }

  function PositionAfter(n: nat, start: nat, fs: seq<Failure>): nat {
    if fs == [] || fs[|fs| - 1].transport >= n then start else Succ(n, fs[|fs| - 1].transport)
  }

  /** A run in which every attempt fails: each is of the transport that the search picks. */
  ghost predicate FailingRun(bs: seq<Budget>, start: nat, fs: seq<Failure>)
    decreases |fs|
  {
    fs == [] ||
    var before := fs[..|fs| - 1];
    && FailingRun(bs, start, before)
    && FirstEligible(AfterFailures(bs, before), PositionAfter(|bs|, start, before), fs[|fs| - 1].transport)
  }

  ghost predicate NoneFatal(fs: seq<Failure>) {
    forall k :: 0 <= k < |fs| ==> !fs[k].fatal
  }

  lemma {:induction false} RunUsesBudget(bs: seq<Budget>, start: nat, fs: seq<Failure>)
    requires Finite(bs) && FailingRun(bs, start, fs)
    ensures Finite(AfterFailures(bs, fs))
    ensures |fs| + TotalRemaining(AfterFailures(bs, fs)) <= TotalRemaining(bs)
    ensures NoneFatal(fs) ==> |fs| + TotalRemaining(AfterFailures(bs, fs)) == TotalRemaining(bs)
    decreases |fs|
  {
    if fs != [] {
      var before := fs[..|fs| - 1];
      var f := fs[|fs| - 1];
      RunUsesBudget(bs, start, before);
      var r := AfterFailures(bs, before);
      TotalAfter(r, f.transport, AfterFailure(r[f.transport], f.fatal));
    }
  }

  /** The attempts that the configured budgets allow. */
  function TotalBudget(maxRetries: seq<int>): int {
    if maxRetries == [] then 0 else maxRetries[0] + 1 + TotalBudget(maxRetries[1..])
  }

  function Fresh(maxRetries: seq<int>): seq<Budget> {
    seq(|maxRetries|, i requires 0 <= i < |maxRetries| => Budget(maxRetries[i], 0, false))
  }

  lemma {:induction false} FreshTotal(maxRetries: seq<int>)
    requires forall i :: 0 <= i < |maxRetries| ==> maxRetries[i] >= 0
    ensures Finite(Fresh(maxRetries)) && TotalRemaining(Fresh(maxRetries)) == TotalBudget(maxRetries)
  {
    if maxRetries != [] {
      FreshTotal(maxRetries[1..]);
      assert Fresh(maxRetries)[1..] == Fresh(maxRetries[1..]);
    }
  }

  /**
   * Exhaustion: with finite budgets and every attempt failing, at most as many attempts are
   * made as remain; without fatal errors the transports are exhausted exactly when that many
   * have been made.
   */
  lemma {:induction false} Exhaustion(bs: seq<Budget>, start: nat, fs: seq<Failure>)
    requires Finite(bs) && FailingRun(bs, start, fs)
    ensures |fs| <= TotalRemaining(bs)
    ensures |fs| == TotalRemaining(bs) ==> !AnyEligible(AfterFailures(bs, fs))
    ensures NoneFatal(fs) ==> (!AnyEligible(AfterFailures(bs, fs)) <==> |fs| == TotalRemaining(bs))
  {
    RunUsesBudget(bs, start, fs);
    NothingRemains(AfterFailures(bs, fs));
  }

  /** From transports that have not been tried, that is the sum of max_retries + 1. */
  lemma {:induction false} FreshExhaustion(maxRetries: seq<int>, start: nat, fs: seq<Failure>)
    requires forall i :: 0 <= i < |maxRetries| ==> maxRetries[i] >= 0
    requires FailingRun(Fresh(maxRetries), start, fs)
    ensures |fs| <= TotalBudget(maxRetries)
    ensures |fs| == TotalBudget(maxRetries) ==> !AnyEligible(AfterFailures(Fresh(maxRetries), fs))
    ensures NoneFatal(fs) ==> (!AnyEligible(AfterFailures(Fresh(maxRetries), fs)) <==> |fs| == TotalBudget(maxRetries))
  {
    FreshTotal(maxRetries);
    Exhaustion(Fresh(maxRetries), start, fs);
  }

  // ---------------------------------------------------------------- backoff

  function Power(x: real, k: nat): real {
    if k == 0 then 1.0 else Power(x, k - 1) * x
  }

  function Min(x: real, y: real): real {
    if x <= y then x else y
  }

  /** The retry delay after k retries without jitter, as next_delay computes it step by step. */
  function Backoff(initial: real, growth: real, limit: real, k: nat): real {
    if k == 0 then initial else Min(Backoff(initial, growth, limit, k - 1) * growth, limit)
  }

  lemma ProductMonotone(x: real, y: real, g: real)
    requires x <= y && g >= 0.0
    ensures x * g <= y * g
  {
  }

  lemma SignOfProduct(x: real, y: real)
    ensures x > 0.0 ==> (x * y >= 0.0 <==> y >= 0.0) && (x * y > 0.0 <==> y > 0.0)
    ensures x < 0.0 ==> (x * y >= 0.0 <==> y <= 0.0)
    ensures x == 0.0 || y == 0.0 ==> x * y == 0.0
  {
  }

  lemma CapThenGrow(x: real, growth: real, limit: real)
    requires growth >= 1.0 && limit >= 0.0
    ensures Min(Min(limit, x) * growth, limit) == Min(limit, x * growth)
  {
    if x > limit {
      ProductMonotone(limit, x, growth);
      ProductMonotone(1.0, growth, limit);
    }
  }

  /** The initial delay grown k times, without a cap. */
  function Compound(initial: real, growth: real, k: nat): real {
    if k == 0 then initial else Compound(initial, growth, k - 1) * growth
  }

  lemma {:induction false} CompoundIsPower(initial: real, growth: real, k: nat)
    ensures Compound(initial, growth, k) == initial * Power(growth, k)
  {
    if k > 0 {
      CompoundIsPower(initial, growth, k - 1);
      Regroup(initial, Power(growth, k - 1), growth);
    }
  }

  lemma Regroup(x: real, y: real, z: real)
    ensures x * (y * z) == x * y * z
  {
  }

  lemma {:induction false} BackoffCapsCompound(initial: real, growth: real, limit: real, k: nat)
    requires growth >= 1.0 && limit >= 0.0 && k >= 1
    ensures Backoff(initial, growth, limit, k) == Min(limit, Compound(initial, growth, k))
  {
    if k > 1 {
      BackoffCapsCompound(initial, growth, limit, k - 1);
      CapThenGrow(Compound(initial, growth, k - 1), growth, limit);
    } else {
      assert Backoff(initial, growth, limit, 0) == Compound(initial, growth, 0);
    }
  }

  /** Growth by at least one in every step commutes with the cap. */
  lemma {:induction false} BackoffClosedForm(initial: real, growth: real, limit: real, k: nat)
    requires growth >= 1.0 && limit >= 0.0 && k >= 1
    ensures Backoff(initial, growth, limit, k) == Min(limit, initial * Power(growth, k))
  {
    BackoffCapsCompound(initial, growth, limit, k);
    CompoundIsPower(initial, growth, k);
  }

  /**
   * The first retry waits for the initial delay, as the documentation says, exactly if
   * nothing grows or the limit cuts the growth off.
   */
  lemma FirstDelayIsInitial(initial: real, growth: real, limit: real)
    ensures Backoff(initial, growth, limit, 1) == initial
            <==> initial <= limit && (initial == 0.0 || growth == 1.0 || (initial == limit && initial * growth >= initial))
  {
    assert Backoff(initial, growth, limit, 0) == initial;
    assert Backoff(initial, growth, limit, 1) == Min(initial * growth, limit);
    if initial != 0.0 {
      Cancel(initial, growth);
    }
  }

  lemma Cancel(x: real, g: real)
    requires x != 0.0
    ensures x * g == x <==> g == 1.0
  {
    assert x * (g - 1.0) == x * g - x;
  }

  /** The delay of retry k according to the documentation: the second retry is the first to grow. */
  function Documented(initial: real, growth: real, limit: real, k: nat): real
    requires k >= 1
  {
    Min(limit, Compound(initial, growth, k - 1))
  }

  /** All retry delays are the documented ones exactly if there is no growth or no room for it. */
  lemma {:induction false} DelaysAreDocumented(initial: real, growth: real, limit: real)
    requires initial > 0.0 && growth >= 1.0 && limit >= 0.0
    ensures (forall k: nat :: k >= 1 ==> Backoff(initial, growth, limit, k) == Documented(initial, growth, limit, k))
            <==> growth == 1.0 || initial >= limit
  {
    assert Compound(initial, growth, 0) == initial;
    FirstGrowth(initial, growth, limit);
    if growth == 1.0 || initial >= limit {
      forall k: nat | k >= 1 ensures Backoff(initial, growth, limit, k) == Documented(initial, growth, limit, k) {
        BackoffCapsCompound(initial, growth, limit, k);
        CompoundGrows(initial, growth, k - 1);
        assert Compound(initial, growth, k) == Compound(initial, growth, k - 1) * growth;
        ProductMonotone(1.0, growth, Compound(initial, growth, k - 1));
      }
    } else {
      assert Backoff(initial, growth, limit, 1) != Documented(initial, growth, limit, 1);
    }
  }

  lemma {:induction false} CompoundGrows(initial: real, growth: real, k: nat)
    requires initial > 0.0 && growth >= 1.0
    ensures Compound(initial, growth, k) >= initial
  {
    if k > 0 {
      CompoundGrows(initial, growth, k - 1);
      ProductMonotone(1.0, growth, Compound(initial, growth, k - 1));
    }
  }

  lemma FirstGrowth(initial: real, growth: real, limit: real)
    requires initial > 0.0 && growth >= 1.0
    ensures initial < limit && growth != 1.0 ==> Backoff(initial, growth, limit, 1) > Min(limit, initial)
  {
    assert Backoff(initial, growth, limit, 0) == initial;
    if growth > 1.0 {
      assert initial * (growth - 1.0) == initial * growth - initial;
      SignOfProduct(initial, growth - 1.0);
    }
  }

  /** With the defaults of the code the first retry waits 2.25 seconds, not 1.5. */
  lemma DefaultFirstDelay()
    ensures Backoff(1.5, 1.5, 300.0, 1) == 2.25 && Documented(1.5, 1.5, 300.0, 1) == 1.5
  {
    assert Backoff(1.5, 1.5, 300.0, 0) == 1.5 && Compound(1.5, 1.5, 0) == 1.5;
  }

  // ---------------------------------------------------------------- transports

  datatype Settings = Settings(maxRetries: int, maxRetryDelay: real, initialRetryDelay: real,
                               retryDelayGrowth: real, retryDelayJitter: real)

  datatype Error = MaxReconnectsReached

  /** random.normalvariate, with the standard normal sample made explicit. */
  function NormalVariate(mu: real, sigma: real, noise: real): (r: real)
    ensures sigma == 0.0 ==> r == mu
  {
    mu + noise * sigma
  }

  /** The retry delay after the given one. */
  function Jittered(delay: real, s: Settings, noise: real): real {
    var grown := delay * s.retryDelayGrowth;
    Min(s.maxRetryDelay, NormalVariate(grown, grown * s.retryDelayJitter, noise))
  }

  lemma JitterIsAFactor(x: real, jitter: real, noise: real)
    ensures NormalVariate(x, x * jitter, noise) == x * (1.0 + jitter * noise)
  {
    Regroup(x, jitter, noise);
  }

  /** By how much the noise scales the grown delay. */
  function Factor(s: Settings, noise: real): real {
    1.0 + s.retryDelayJitter * noise
  }

  /** When a delay is negative: if the noise turns the sign of the grown delay, or the limit is. */
  lemma DelayIsNonNegative(delay: real, s: Settings, noise: real)
    ensures var grown := delay * s.retryDelayGrowth;
            Jittered(delay, s, noise) >= 0.0 <==>
            && s.maxRetryDelay >= 0.0
            && (grown > 0.0 ==> Factor(s, noise) >= 0.0)
            && (grown < 0.0 ==> Factor(s, noise) <= 0.0)
  {
    var grown := delay * s.retryDelayGrowth;
    JitterIsAFactor(grown, s.retryDelayJitter, noise);
    SignOfProduct(grown, Factor(s, noise));
  }

  ghost predicate Usual(s: Settings) {
    s.initialRetryDelay > 0.0 && s.retryDelayGrowth > 0.0 && s.maxRetryDelay > 0.0
  }

  lemma SignOfDelay(delay: real, s: Settings, noise: real)
    requires Usual(s)
    ensures delay == 0.0 ==> Jittered(delay, s, noise) == 0.0
    ensures delay > 0.0 && Factor(s, noise) > 0.0 ==> Jittered(delay, s, noise) > 0.0
    ensures delay > 0.0 && Factor(s, noise) == 0.0 ==> Jittered(delay, s, noise) == 0.0
    ensures delay > 0.0 && Factor(s, noise) < 0.0 ==> Jittered(delay, s, noise) < 0.0
  {
    var grown := delay * s.retryDelayGrowth;
    SignOfProduct(delay, s.retryDelayGrowth);
    JitterIsAFactor(grown, s.retryDelayJitter, noise);
    SignOfProduct(grown, Factor(s, noise));
  }

  /** The retry delay after some retries since the last reset, with the noise of each. */
  function DelayAfter(s: Settings, noise: seq<real>): real {
    if noise == [] then s.initialRetryDelay
    else Jittered(DelayAfter(s, noise[..|noise| - 1]), s, noise[|noise| - 1])
  }

  ghost predicate Positive(s: Settings, x: real) {
    Factor(s, x) > 0.0
  }

  ghost predicate NonNegative(s: Settings, x: real) {
    Factor(s, x) >= 0.0
  }

  ghost predicate AllPositive(s: Settings, noise: seq<real>, k: nat)
    requires k <= |noise|
  {
    forall j :: 0 <= j < k ==> Positive(s, noise[j])
  }

  /** The first factor that is not positive, if there is one, is zero. */
  ghost predicate NeverTurns(s: Settings, noise: seq<real>, n: nat)
    requires n <= |noise|
  {
    forall k :: 0 <= k < n && AllPositive(s, noise, k) ==> NonNegative(s, noise[k])
  }

  lemma DelayStep(s: Settings, noise: seq<real>, k: nat)
    requires k < |noise|
    ensures DelayAfter(s, noise[..k + 1]) == Jittered(DelayAfter(s, noise[..k]), s, noise[k])
  {
    assert noise[..k + 1][..k] == noise[..k];
  }

  lemma {:induction false} PositiveDelay(s: Settings, noise: seq<real>, k: nat)
    requires Usual(s) && k <= |noise| && AllPositive(s, noise, k)
    ensures DelayAfter(s, noise[..k]) > 0.0
  {
    if k > 0 {
      PositiveDelay(s, noise, k - 1);
      DelayStep(s, noise, k - 1);
      assert Positive(s, noise[k - 1]);
      SignOfDelay(DelayAfter(s, noise[..k - 1]), s, noise[k - 1]);
    }
  }

  lemma {:induction false} DelayStaysNonNegative(s: Settings, noise: seq<real>, k: nat)
    requires Usual(s) && k <= |noise| && NeverTurns(s, noise, k)
    ensures AllPositive(s, noise, k) || DelayAfter(s, noise[..k]) == 0.0
  {
    if k > 0 {
      DelayStaysNonNegative(s, noise, k - 1);
      DelayStep(s, noise, k - 1);
      SignOfDelay(DelayAfter(s, noise[..k - 1]), s, noise[k - 1]);
      if AllPositive(s, noise, k - 1) {
        PositiveDelay(s, noise, k - 1);
        assert NonNegative(s, noise[k - 1]);
      }
    }
  }

  /** No delay since the last reset is negative, exactly if no sample turns the sign of a positive one. */
  lemma {:induction false} DelaysAreNonNegative(s: Settings, noise: seq<real>)
    requires Usual(s)
    ensures (forall k :: 0 <= k <= |noise| ==> DelayAfter(s, noise[..k]) >= 0.0) <==> NeverTurns(s, noise, |noise|)
  {
    if NeverTurns(s, noise, |noise|) {
      forall k | 0 <= k <= |noise| ensures DelayAfter(s, noise[..k]) >= 0.0 {
        DelayStaysNonNegative(s, noise, k);
        if AllPositive(s, noise, k) {
          PositiveDelay(s, noise, k);
        }
      }
    }
    if forall k :: 0 <= k <= |noise| ==> DelayAfter(s, noise[..k]) >= 0.0 {
      forall k | 0 <= k < |noise| && AllPositive(s, noise, k) ensures NonNegative(s, noise[k]) {
        PositiveDelay(s, noise, k);
        DelayStep(s, noise, k);
        SignOfDelay(DelayAfter(s, noise[..k]), s, noise[k]);
        assert DelayAfter(s, noise[..k + 1]) >= 0.0;
      }
    }
  }

  /** With the defaults of the code, a sample eleven deviations below the mean gives a negative delay. */
  lemma NegativeDelay()
    ensures DelayAfter(Settings(-1, 300.0, 1.5, 1.5, 0.1), [-11.0]) < 0.0
  {
    var s := Settings(-1, 300.0, 1.5, 1.5, 0.1);
    assert [-11.0][..0] == [];
    assert DelayAfter(s, []) == 1.5;
    assert DelayAfter(s, [-11.0]) == Jittered(1.5, s, -11.0);
  }

  /**
   * How one attempt ends. A session that joins resets its transport, if the component has
   * a main function; the attempt may still fail afterwards.
   */
  datatype Attempt =
    | Success(joined: bool)
    | Failing(joined: bool, connectFailed: bool, fatal: bool)

  class Transport {
    const settings: Settings
    var permanentFailure: bool
    var connectAttempts: nat
    var connectSuccesses: nat
    var connectFailures: nat
    var retryDelay: real

    /** Retry delays handed out since the last reset. */
    ghost var retries: nat

    ghost predicate Valid()
      reads this
    {
      && (retries > 0 ==> retryDelay <= settings.maxRetryDelay)
      && (settings.retryDelayJitter == 0.0 ==>
            retryDelay == Backoff(settings.initialRetryDelay, settings.retryDelayGrowth, settings.maxRetryDelay, retries))
    }

    constructor (settings: Settings)
      ensures Valid() && this.settings == settings
      ensures connectAttempts == connectSuccesses == connectFailures == retries == 0 && !permanentFailure
      ensures retryDelay == settings.initialRetryDelay
    {
      this.settings := settings;
      permanentFailure := false;
      connectAttempts, connectSuccesses, connectFailures := 0, 0, 0;
      retryDelay := settings.initialRetryDelay;
      retries := 0;
    }

    method Reset()
      modifies this`connectAttempts, this`connectSuccesses, this`connectFailures, this`retryDelay, this`retries
      ensures Valid() && connectAttempts == connectSuccesses == connectFailures == retries == 0
      ensures retryDelay == settings.initialRetryDelay
    {
      connectAttempts, connectSuccesses, connectFailures := 0, 0, 0;
      retryDelay := settings.initialRetryDelay;
      retries := 0;
    }

    method Failed()
      modifies this`permanentFailure
      ensures permanentFailure
    {
      permanentFailure := true;
    }

    function Left(): Budget
      reads this
    {
      Budget(settings.maxRetries, connectAttempts, permanentFailure)
    }

    predicate CanReconnect()
      reads this
      ensures CanReconnect() <==> Eligible(Left())
      ensures CanReconnect() <==> !permanentFailure && (settings.maxRetries == -1 || connectAttempts <= settings.maxRetries)
    {
      if permanentFailure then false
      else if settings.maxRetries == -1 then true
      else connectAttempts < settings.maxRetries + 1
    }

    /**
     * next_delay, where noise is a sample of the standard normal distribution. It raises for
     * no transport that can reconnect, and no delay between retries is above the limit.
     */
    method NextDelay(noise: real) returns (r: Result<real, Error>)
      requires Valid()
      modifies this`retryDelay, this`retries
      ensures Valid()
      ensures CanReconnect() ==> r.Ok?
      ensures connectAttempts == 0 ==> r == Ok(0.0) && retries == old(retries) && retryDelay == old(retryDelay)
      ensures r.Ok? && connectAttempts > 0 ==>
        && retries == old(retries) + 1
        && r.value == retryDelay == Jittered(old(retryDelay), settings, noise)
      ensures r.Err? ==> retries == old(retries) && retryDelay == old(retryDelay)
    {
      if connectAttempts == 0 {
        r := Ok(0.0);
      } else if settings.maxRetries != -1 && connectAttempts >= settings.maxRetries + 1 {
        r := Err(MaxReconnectsReached);
      } else {
        retryDelay := retryDelay * settings.retryDelayGrowth;
        var sigma := retryDelay * settings.retryDelayJitter;
        assert settings.retryDelayJitter == 0.0 ==> sigma == 0.0;
        retryDelay := NormalVariate(retryDelay, sigma, noise);
        if retryDelay > settings.maxRetryDelay {
          retryDelay := settings.maxRetryDelay;
        }
        retries := retries + 1;
        r := Ok(retryDelay);
      }
    }

    /** The counters that _connect_once and handle_connect_error keep for one attempt. */
    method CountAttempt(a: Attempt, hasMain: bool)
      requires Valid()
      modifies this
      ensures Valid()
      ensures var before := if a.joined && hasMain then 0 else old(connectAttempts) + 1;
              Left() == Budget(settings.maxRetries, before, old(permanentFailure) || (a.Failing? && a.fatal))
      ensures if a.joined && hasMain then retries == 0 && retryDelay == settings.initialRetryDelay && connectSuccesses == 1
              else retries == old(retries) && retryDelay == old(retryDelay) && connectSuccesses == old(connectSuccesses)
      ensures connectFailures == (if a.joined && hasMain then 0 else old(connectFailures))
                                 + (if a.Failing? && a.connectFailed then 1 else 0)
    {
      connectAttempts := connectAttempts + 1;
      if a.joined && hasMain {
        Reset();
        connectSuccesses := connectSuccesses + 1;
      }
      if a.Failing? {
        if a.connectFailed {
          connectFailures := connectFailures + 1;
        }
        if a.fatal {
          Failed();
        }
      }
    }
  }

  /** Without jitter, the delay after retry k is the initial one grown k times, up to the limit. */
  lemma DelayWithoutJitter(t: Transport)
    requires t.Valid() && t.settings.retryDelayJitter == 0.0 && t.retries > 0
    requires t.settings.retryDelayGrowth >= 1.0 && t.settings.maxRetryDelay >= 0.0
    ensures t.retryDelay ==
      Min(t.settings.maxRetryDelay, Compound(t.settings.initialRetryDelay, t.settings.retryDelayGrowth, t.retries))
  {
    BackoffCapsCompound(t.settings.initialRetryDelay, t.settings.retryDelayGrowth, t.settings.maxRetryDelay, t.retries);
  }

  // ---------------------------------------------------------------- the component

  datatype Outcome =
    | Idle
    | Running
    | Finished
    | Exhausted

  /**
   * The history of a component: the budgets now, every pick with the budgets it was made
   * from, the failed attempts, and whether any attempt joined or succeeded.
   */
  datatype Log = Log(budgets: seq<Budget>, history: seq<seq<Budget>>, picks: seq<nat>, failures: seq<Failure>, joined: bool)

  datatype Control = Control(cycle: nat, candidate: nat, waiting: bool, outcome: Outcome)

  /** What every step keeps, for a component that started with the given budgets. */
  ghost predicate Follows(initial: seq<Budget>, log: Log, c: Control) {
    var n := |initial|;
    && |log.budgets| == n && |log.history| == |log.picks|
    && (forall k :: 0 <= k < |log.history| ==> |log.history[k]| == n)
    && PickRun(log.history, 0, log.picks)
    && (n > 0 ==> c.cycle == Position(log.history, 0, log.picks, |log.picks|) < n)
    && (c.waiting ==> c.outcome == Running && c.candidate < n && Eligible(log.budgets[c.candidate])
                      && c.cycle == Succ(n, c.candidate))
    && (c.outcome == Exhausted ==> !AnyEligible(log.budgets))
    && (!log.joined ==> FollowsFailures(initial, log, c))
    && KeepsLimits(initial, log)
  }

  /** Limits never change, and only a fatal error fails a transport for good. */
  ghost predicate KeepsLimits(initial: seq<Budget>, log: Log) {
    && |log.budgets| == |initial|
    && (forall i :: 0 <= i < |initial| ==> log.budgets[i].maxRetries == initial[i].maxRetries)
    && (NoneFatal(log.failures) ==> forall i :: 0 <= i < |initial| ==> log.budgets[i].failed == initial[i].failed)
  }

  /** While nothing has joined, the budgets are those of a run of failures. */
  ghost predicate FollowsFailures(initial: seq<Budget>, log: Log, c: Control) {
    var n := |initial|;
    && |log.budgets| == n
    && FailingRun(initial, 0, log.failures) && log.budgets == AfterFailures(initial, log.failures)
    && (n > 0 ==>
          var at := PositionAfter(n, 0, log.failures);
          if c.waiting then FirstEligible(log.budgets, at, c.candidate) else c.cycle == at)
  }

  /** The log of a component that has just been started. */
  function Started(budgets: seq<Budget>): Log {
    Log(budgets, [], [], [], false)
  }

  function AfterPick(log: Log, p: nat): Log {
    log.(history := log.history + [log.budgets], picks := log.picks + [p])
  }

  lemma {:induction false} PickRunExtends(history: seq<seq<Budget>>, picks: seq<nat>, bs: seq<Budget>, p: nat)
    requires PickRun(history, 0, picks)
    requires FirstEligible(bs, Position(history, 0, picks, |picks|), p)
    ensures PickRun(history + [bs], 0, picks + [p])
    ensures Position(history + [bs], 0, picks + [p], |picks| + 1) == Succ(|bs|, p)
  {
    var h, q := history + [bs], picks + [p];
    var m := |picks|;
    forall k: nat | k < |q| ensures PicksFirst(h, 0, q, k) {
      assert Position(h, 0, q, k) == Position(history, 0, picks, k);
      assert k < m ==> PicksFirst(history, 0, picks, k);
    }
  }

  lemma {:induction false} PickFollows(initial: seq<Budget>, log: Log, c: Control, p: nat)
    requires Follows(initial, log, c) && !c.waiting && c.outcome == Running
    requires FirstEligible(log.budgets, c.cycle, p)
    ensures Follows(initial, AfterPick(log, p), Control(Succ(|initial|, p), p, true, Running))
  {
    PickRunExtends(log.history, log.picks, log.budgets, p);
  }

  function AfterAttempt(log: Log, candidate: nat, b: Budget, a: Attempt, hasMain: bool): Log
    requires candidate < |log.budgets|
  {
    Log(log.budgets[candidate := b], log.history, log.picks,
        if a.Success? then log.failures else log.failures + [Failure(candidate, a.fatal)],
        log.joined || a.Success? || (a.joined && hasMain))
  }

  lemma {:induction false} AttemptKeepsLimits(initial: seq<Budget>, log: Log, candidate: nat, b: Budget, a: Attempt, hasMain: bool)
    requires KeepsLimits(initial, log) && candidate < |log.budgets|
    requires b.maxRetries == log.budgets[candidate].maxRetries
    requires b.failed <==> log.budgets[candidate].failed || (a.Failing? && a.fatal)
    ensures KeepsLimits(initial, AfterAttempt(log, candidate, b, a, hasMain))
  {
    var l := AfterAttempt(log, candidate, b, a, hasMain);
    if a.Failing? {
      assert l.failures[|log.failures|].fatal == a.fatal;
      assert forall k :: 0 <= k < |log.failures| ==> l.failures[k] == log.failures[k];
    }
  }

  lemma {:induction false} AttemptFollows(initial: seq<Budget>, log: Log, c: Control, b: Budget, a: Attempt, hasMain: bool)
    requires Follows(initial, log, c) && c.waiting
    requires a.Failing? && !(a.joined && hasMain) ==> b == AfterFailure(log.budgets[c.candidate], a.fatal)
    requires b.maxRetries == log.budgets[c.candidate].maxRetries
    requires b.failed <==> log.budgets[c.candidate].failed || (a.Failing? && a.fatal)
    ensures Follows(initial, AfterAttempt(log, c.candidate, b, a, hasMain),
                    Control(c.cycle, c.candidate, false, if a.Success? then Finished else Running))
  {
    var l := AfterAttempt(log, c.candidate, b, a, hasMain);
    if !l.joined {
      assert l.failures[..|l.failures| - 1] == log.failures;
    }
    AttemptKeepsLimits(initial, log, c.candidate, b, a, hasMain);
  }

  ghost predicate NoneJoins(attempts: seq<Attempt>, hasMain: bool) {
    forall k :: 0 <= k < |attempts| ==> attempts[k].Failing? && !(attempts[k].joined && hasMain)
  }

  /** The log of a component whose attempts went as given. */
  ghost predicate Recorded(log: Log, attempts: seq<Attempt>, hasMain: bool) {
    && (NoneJoins(attempts, hasMain) ==> !log.joined)
    && |log.failures| <= |attempts|
    && forall k :: 0 <= k < |log.failures| ==> log.failures[k].fatal == (attempts[k].Failing? && attempts[k].fatal)
  }

  lemma AttemptIsRecorded(log: Log, candidate: nat, b: Budget, attempts: seq<Attempt>, hasMain: bool)
    requires Recorded(log, attempts, hasMain) && |log.failures| < |attempts| && candidate < |log.budgets|
    ensures Recorded(AfterAttempt(log, candidate, b, attempts[|log.failures|], hasMain), attempts, hasMain)
  {
  }

  class Component {
    const transports: seq<Transport>
    const hasMain: bool

    /** The position of itertools.cycle. */
    var cycle: nat
    var candidate: nat

    /** Between transport_check and attempt_connect. */
    var waiting: bool
    var outcome: Outcome

    /** The budgets at the last start, and what has happened since. */
    ghost var initial: seq<Budget>
    ghost var log: Log

    ghost predicate Valid()
      reads this, transports
    {
      TransportsMatch() && Follows(initial, log, Control(cycle, candidate, waiting, outcome))
    }

    ghost predicate TransportsMatch()
      reads this, transports
    {
      && (forall i, j :: 0 <= i < j < |transports| ==> transports[i] != transports[j])
      && |log.budgets| == |transports|
      && (forall i :: 0 <= i < |transports| ==> transports[i].Valid() && transports[i].Left() == log.budgets[i])
    }

    ghost function Budgets(): (r: seq<Budget>)
      reads transports
      ensures |r| == |transports|
    {
      seq(|transports|, i requires 0 <= i < |transports| reads transports => transports[i].Left())
    }

    /** A component on its transports, whatever they have been through. */
    constructor (transports: seq<Transport>, hasMain: bool)
      requires forall i, j :: 0 <= i < j < |transports| ==> transports[i] != transports[j]
      requires forall i :: 0 <= i < |transports| ==> transports[i].Valid()
      ensures Valid() && this.transports == transports && this.hasMain == hasMain
      ensures outcome == Idle && !waiting && initial == Budgets() && log == Started(Budgets())
    {
      this.transports := transports;
      this.hasMain := hasMain;
      cycle, candidate, waiting, outcome := 0, 0, false, Idle;
      new;
      initial := Budgets();
      log := Started(initial);
    }

    /** What _start sets up: a new cycle over the transports as they are. */
    method Begin()
      requires Valid()
      modifies this
      ensures Valid() && outcome == Running && !waiting
      ensures initial == old(log.budgets) && log == Started(initial)
    {
      cycle, candidate, waiting, outcome := 0, 0, false, Running;
      initial := log.budgets;
      log := Started(initial);
    }

    /** _can_reconnect. */
    method CanReconnect() returns (r: bool)
      requires TransportsMatch()
      ensures r <==> AnyEligible(log.budgets)
    {
      for i := 0 to |transports|
        invariant forall j :: 0 <= j < i ==> !Eligible(log.budgets[j])
      {
        if transports[i].CanReconnect() {
          return true;
        }
      }
      r := false;
    }

    /** The search loop: within one lap it stops at the first transport that can reconnect. */
    method NextTransport() returns (p: nat)
      requires TransportsMatch() && cycle < |transports| && AnyEligible(log.budgets)
      modifies this`cycle
      ensures FirstEligible(log.budgets, old(cycle), p) && cycle == Succ(|transports|, p)
    {
      ghost var i :| 0 <= i < |transports| && Eligible(log.budgets[i]);
      ghost var n, start, steps := |transports|, cycle, 0;
      while true
        invariant cycle < n && Dist(n, start, cycle) == steps <= Dist(n, start, i)
        invariant forall j :: 0 <= j < n && Dist(n, start, j) < steps ==> !Eligible(log.budgets[j])
        decreases Dist(n, start, i) - steps
      {
        p := cycle;
        cycle := if cycle + 1 == |transports| then 0 else cycle + 1;
        if transports[p].CanReconnect() {
          return;
        }
        steps := steps + 1;
      }
    }

    /** The first half of transport_check: ends the component, or picks a transport. */
    method Pick()
      requires Valid() && outcome == Running && !waiting
      modifies this
      ensures Valid() && initial == old(initial)
      ensures outcome == if AnyEligible(old(log.budgets)) then Running else Exhausted
      ensures waiting <==> outcome == Running
      ensures waiting ==> FirstEligible(old(log.budgets), old(cycle), candidate) && log == AfterPick(old(log), candidate)
      ensures !waiting ==> log == old(log)
    {
      var any := CanReconnect();
      if !any {
        outcome := Exhausted;
        return;
      }
      ghost var before := Control(cycle, candidate, waiting, outcome);
      var p := NextTransport();
      PickFollows(initial, log, before, p);
      candidate, waiting, log := p, true, AfterPick(log, p);
    }

    /**
     * transport_check: ends the component when no transport may be tried any more, and
     * otherwise picks one and the delay before its attempt. The delay is always defined.
     */
    method TransportCheck(noise: real) returns (delay: real)
      requires Valid() && outcome == Running && !waiting
      modifies this, transports
      ensures Valid() && initial == old(initial)
      ensures outcome == if AnyEligible(old(log.budgets)) then Running else Exhausted
      ensures waiting <==> outcome == Running
      ensures waiting ==> FirstEligible(old(log.budgets), old(cycle), candidate) && log == AfterPick(old(log), candidate)
      ensures !waiting ==> log == old(log)
      ensures waiting && transports[candidate].connectAttempts > 0 ==>
        var t := transports[candidate];
        delay == t.retryDelay == Jittered(old(t.retryDelay), t.settings, noise)
      ensures waiting && transports[candidate].connectAttempts == 0 ==> delay == 0.0
    {
      delay := 0.0;
      Pick();
      if waiting {
        var d := transports[candidate].NextDelay(noise);
        delay := d.value;
      }
    }

    /** The counters of the transport, after its attempt. */
    method Settle(a: Attempt) returns (ghost b: Budget)
      requires TransportsMatch() && candidate < |transports|
      modifies this`log, transports
      ensures TransportsMatch()
      ensures b == transports[candidate].Left() && log == AfterAttempt(old(log), candidate, b, a, hasMain)
      ensures b.maxRetries == old(log.budgets)[candidate].maxRetries
      ensures b.failed <==> old(log.budgets)[candidate].failed || (a.Failing? && a.fatal)
      ensures a.Failing? && !(a.joined && hasMain) ==> b == AfterFailure(old(log.budgets)[candidate], a.fatal)
    {
      transports[candidate].CountAttempt(a, hasMain);
      b := transports[candidate].Left();
      log := AfterAttempt(log, candidate, b, a, hasMain);
    }

    /** attempt_connect with _connect_once, and handle_connect_error when the attempt fails. */
    method AttemptConnect(a: Attempt)
      requires Valid() && waiting
      modifies this, transports
      ensures Valid() && !waiting && candidate == old(candidate) && initial == old(initial)
      ensures outcome == if a.Success? then Finished else Running
      ensures log == AfterAttempt(old(log), candidate, transports[candidate].Left(), a, hasMain)
    {
      ghost var before := Control(cycle, candidate, waiting, outcome);
      ghost var was := log;
      ghost var b := Settle(a);
      AttemptFollows(initial, was, before, b, a, hasMain);
      waiting := false;
      if a.Success? {
        outcome := Finished;
      }
    }

    /**
     * _start, against an environment that settles each attempt. The loop ends when an attempt
     * succeeds, when the transports are exhausted, or, still waiting to connect, when the
     * environment stops. A component that is running is left alone; one that has ended starts
     * over with what its transports have left.
     */
    method Start(attempts: seq<Attempt>, noise: nat -> real)
      requires Valid()
      modifies this, transports
      ensures Valid()
      ensures old(outcome) == Running ==> unchanged(this) && forall i :: 0 <= i < |transports| ==> unchanged(transports[i])
      ensures old(outcome) != Running ==> initial == old(log.budgets) && StoppedAfter(attempts)
    {
      if outcome == Running {
        return;
      }
      Begin();
      Reconnect(attempts, noise);
    }

    /** The reconnect loop. */
    method Reconnect(attempts: seq<Attempt>, noise: nat -> real)
      requires Valid() && outcome == Running && !waiting && log == Started(initial)
      modifies this, transports
      ensures Valid() && initial == old(initial)
      ensures StoppedAfter(attempts)
    {
      var k := 0;
      while true
        invariant Valid() && outcome == Running && !waiting && 0 <= k <= |attempts| && initial == old(initial)
        invariant |log.failures| == k && Recorded(log, attempts, hasMain)
        decreases |attempts| - k
      {
        var delay := TransportCheck(noise(k));
        assert Recorded(log, attempts, hasMain);
        if outcome == Exhausted || k == |attempts| {
          return;
        }
        ghost var before := log;
        AttemptConnect(attempts[k]);
        AttemptIsRecorded(before, candidate, transports[candidate].Left(), attempts, hasMain);
        if outcome == Finished {
          return;
        }
        k := k + 1;
      }
    }

    /** How the reconnect loop may have stopped. */
    ghost predicate StoppedAfter(attempts: seq<Attempt>)
      reads this
    {
      && outcome != Idle
      && (outcome == Running ==> waiting && |log.failures| == |attempts|)
      && (outcome == Finished ==> exists k :: 0 <= k < |attempts| && attempts[k].Success?)
      && Recorded(log, attempts, hasMain)
    }

    ghost predicate FiniteBudgets() {
      forall i :: 0 <= i < |transports| ==> transports[i].settings.maxRetries >= 0
    }

    ghost function MaxRetries(): seq<int> {
      seq(|transports|, i requires 0 <= i < |transports| => transports[i].settings.maxRetries)
    }
  }

  lemma {:induction false} InitialIsFinite(c: Component)
    requires c.Valid() && c.FiniteBudgets()
    ensures Finite(c.initial)
  {
    forall i | 0 <= i < |c.initial| ensures c.initial[i].maxRetries >= 0 {
      assert c.log.budgets[i] == c.transports[i].Left();
    }
  }

  /** A component with a transport that may be tried for ever never gives up. */
  lemma {:induction false} UnlimitedNeverExhausts(c: Component, i: nat)
    requires c.Valid() && i < |c.transports|
    requires c.transports[i].settings.maxRetries == -1 && !c.transports[i].permanentFailure
    ensures c.outcome != Exhausted
  {
    assert c.log.budgets[i] == c.transports[i].Left();
    assert Eligible(c.log.budgets[i]);
  }

  /**
   * Nor does it, more generally, while a transport has attempts left; and it gives up at the
   * next check when none has.
   */
  lemma {:induction false} ExhaustedMeansUsedUp(c: Component, i: nat)
    requires c.Valid() && c.outcome == Exhausted && i < |c.transports|
    ensures var t := c.transports[i];
            t.permanentFailure || (t.settings.maxRetries != -1 && t.connectAttempts > t.settings.maxRetries)
  {
    assert c.log.budgets[i] == c.transports[i].Left();
    assert !Eligible(c.log.budgets[i]);
  }

  /**
   * With such a transport, and without fatal errors, a start makes every attempt that the
   * environment settles, whether or not sessions join in between, and waits for the next.
   */
  lemma {:induction false} UnlimitedKeepsTrying(c: Component, attempts: seq<Attempt>, i: nat)
    requires c.Valid() && c.StoppedAfter(attempts) && i < |c.transports|
    requires c.transports[i].settings.maxRetries == -1 && !c.initial[i].failed
    requires forall k :: 0 <= k < |attempts| ==> attempts[k].Failing? && !attempts[k].fatal
    ensures c.outcome == Running && c.waiting && |c.log.failures| == |attempts|
  {
    assert c.log.budgets[i] == c.transports[i].Left();
    assert NoneFatal(c.log.failures);
    UnlimitedNeverExhausts(c, i);
  }

  /**
   * A component with finite budgets whose every attempt fails without joining ends exhausted,
   * after at most as many attempts as its transports had left when it was started, and after
   * exactly that many when no error is fatal.
   */
  lemma {:induction false} ComponentExhaustion(c: Component, attempts: seq<Attempt>)
    requires c.Valid() && c.StoppedAfter(attempts) && c.FiniteBudgets()
    requires NoneJoins(attempts, c.hasMain) && |attempts| >= TotalRemaining(c.initial)
    ensures c.outcome == Exhausted && |c.log.failures| <= TotalRemaining(c.initial)
    ensures (forall k :: 0 <= k < |attempts| ==> !attempts[k].fatal) ==> |c.log.failures| == TotalRemaining(c.initial)
  {
    InitialIsFinite(c);
    Exhaustion(c.initial, 0, c.log.failures);
  }

  /** On a first start, or after a reset of all its transports, that is the sum of max_retries + 1. */
  lemma {:induction false} FreshComponentExhaustion(c: Component)
    requires c.Valid() && c.FiniteBudgets() && c.initial == Fresh(c.MaxRetries())
    ensures TotalRemaining(c.initial) == TotalBudget(c.MaxRetries())
  {
    FreshTotal(c.MaxRetries());
  }
}
