/** The token bucket called by one caller at a time, with the clock readings as inputs. */
module TokenBuckets {
  import opened Arithmetic
  import opened Words

  const SECOND := 1_000_000_000
  const MAX := HALF - 1

  /** The most one refill can ever credit: (2^63 - 1) / 10^9. */
  const MAX_CREDIT := 9_223_372_036

  /** Integer division as Go does it, toward zero. */
  function Quotient(a: int, b: int): int
    requires b > 0
  {
    if a >= 0 then a / b else -((-a) / b)
  }

  /** The `add` of refill: elapsed * rate / second, in int64 throughout. */
  function Credit(rate: Int64, last: Int64, now: Int64): int {
    Quotient(ToInt64(ToInt64(now as int - last as int) as int * rate as int), SECOND)
  }

  /** The token count refill stores for a credit. */
  function Topped(cur: Int64, add: int, burst: Int64): Int64 {
    var next := ToInt64(cur as int + add);
    if next > burst then burst else next
  }

  /** What the time from a to b earns at a rate, in tokens times 10^9. */
  function Earned(rate: int, a: int, b: int): int {
    (b - a) * rate
  }

  lemma EarnedAdds(rate: int, a: int, b: int, c: int)
    ensures Earned(rate, a, b) + Earned(rate, b, c) == Earned(rate, a, c)
    ensures Earned(rate, a, a) == 0
  {
    MulDistributes(b - a, c - b, rate);
  }

  lemma EarnedGrows(rate: int, a: int, b: int)
    requires rate >= 0 && a <= b
    ensures Earned(rate, a, b) >= 0
    ensures rate >= 1 ==> Earned(rate, a, b) >= b - a
  {
    MulNonNeg(b - a, rate);
    if rate >= 1 { MulMono(1, rate, b - a); }
  }

  lemma EarnedMono(r: int, R: int, a: int, b: int)
    requires r <= R && a <= b
    ensures Earned(r, a, b) <= Earned(R, a, b)
  {
    MulMono(r, R, b - a);
  }

  lemma ToInt64AtMost(x: int)
    requires x >= 0
    ensures ToInt64(x) <= x
  {
  }

  lemma QuotientBounds(a: int)
    ensures a >= 0 ==> Quotient(a, SECOND) * SECOND <= a < (Quotient(a, SECOND) + 1) * SECOND
    ensures a < 0 ==> Quotient(a, SECOND) <= 0
  {
  }

  /** Wrap-around in the elapsed time does not matter: only the product mod 2^64 does. */
  lemma WrappedProduct(d: int, r: int)
    ensures ToInt64(ToInt64(d) as int * r) == ToInt64(d * r)
  {
    var e := ToInt64(d) as int;
    var k := (d - e) / WORDS;
    assert d == e + k * WORDS;
    assert d * r == e * r + (k * r) * WORDS by {
      MulDistributes(e, k * WORDS, r);
      assert k * WORDS * r == (k * r) * WORDS;
    }
    ShiftByTurns(e * r, k * r);
  }

  lemma ShiftByTurns(x: int, turns: int)
    ensures ToInt64(x + turns * WORDS) == ToInt64(x)
  {
    DivModUnique(x + turns * WORDS, x / WORDS + turns, x % WORDS, WORDS);
  }

  /** However the arithmetic wraps, a credit never exceeds what the elapsed time earned. */
  lemma CreditIsEarned(rate: Int64, last: Int64, now: Int64)
    requires rate >= 1 && now > last
    ensures Credit(rate, last, now) * SECOND <= Earned(rate, last, now)
    ensures Credit(rate, last, now) <= MAX_CREDIT
  {
    var d := now as int - last as int;
    WrappedProduct(d, rate);
    MulNonNeg(d, rate);
    ToInt64AtMost(d * rate);
    QuotientBounds(ToInt64(d * rate));
  }

  /** Rounding: a credit is the exact amount rounded down, so more than the exact amount minus one. */
  lemma CreditIsRounded(rate: Int64, last: Int64, now: Int64)
    requires rate >= 1 && now >= last && Earned(rate, last, now) <= MAX
    ensures var add := Credit(rate, last, now);
      add >= 0 && add * SECOND <= Earned(rate, last, now) < (add + 1) * SECOND
  {
    var d := now as int - last as int;
    MulNonNeg(d, rate);
    assert d <= MAX by { MulMono(1, rate, d); }
    ToInt64Exact(d);
    ToInt64Exact(d * rate);
    QuotientBounds(d * rate);
  }

  /** A positive credit is at least half the exact amount. */
  lemma PositiveCreditIsHalf(rate: Int64, last: Int64, now: Int64)
    requires rate >= 1 && now >= last && Earned(rate, last, now) <= MAX && Credit(rate, last, now) >= 1
    ensures Earned(rate, last, now) < 2 * Credit(rate, last, now) * SECOND
  {
    CreditIsRounded(rate, last, now);
  }

  // ---------------------------------------------------------------- the bucket as a value

  datatype Bucket = Bucket(rate: Int64, burst: Int64, tokens: Int64, last: Int64)

  /** What one refill does. */
  function Refilled(b: Bucket, now: Int64): Bucket {
    if b.rate <= 0 then b.(last := now, tokens := b.burst)
    else if now <= b.last then b
    else
      var add := Credit(b.rate, b.last, now);
      if add <= 0 then b else b.(last := now, tokens := Topped(b.tokens, add, b.burst))
  }

  /** What one Allow does, and its answer. */
  function Asked(b: Bucket, n: Int64, now: Int64): (Bucket, bool) {
    if n <= 0 then (b, true)
    else
      var r := Refilled(b, now);
      if r.tokens < n then (r, false) else (r.(tokens := r.tokens - n), true)
  }

  /** No refill of this bucket can overflow an int64. */
  predicate Sane(b: Bucket) {
    0 <= b.tokens <= b.burst && b.burst >= 1 && b.burst as int + MAX_CREDIT <= MAX
  }

  lemma AskedStaysSane(b: Bucket, n: Int64, now: Int64)
    requires Sane(b)
    ensures Sane(Asked(b, n, now).0)
  {
    if b.rate >= 1 && now > b.last {
      CreditIsEarned(b.rate, b.last, now);
      ToInt64Exact(b.tokens as int + if Credit(b.rate, b.last, now) > 0 then Credit(b.rate, b.last, now) else 0);
    }
  }

  lemma ToppedBounds(cur: Int64, add: int, burst: Int64)
    requires cur <= burst && 0 <= add <= MAX_CREDIT
    ensures Topped(cur, add, burst) <= burst && Topped(cur, add, burst) <= cur as int + add
    ensures burst as int + MAX_CREDIT <= MAX && cur >= 0 ==> Topped(cur, add, burst) >= cur
  {
  }

  /** A credit is earned at any rate at least its own. */
  lemma CreditWithinR(rate: Int64, last: Int64, now: Int64, R: int)
    requires 1 <= rate <= R && now > last
    ensures Credit(rate, last, now) <= MAX_CREDIT
    ensures Credit(rate, last, now) * SECOND <= Earned(R, last, now)
  {
    CreditIsEarned(rate, last, now);
    EarnedMono(rate, R, last, now);
  }

  // ---------------------------------------------------------------- a series of calls

  /** What one SetQPS does. */
  function Rated(b: Bucket, qps: Int64, now: Int64): Bucket {
    var r := Refilled(b, now);
    r.(rate := qps, tokens := if qps <= 0 then b.burst else r.tokens)
  }

  datatype Call = Ask(n: Int64, now: Int64) | Rate(qps: Int64, now: Int64)

  function AfterCall(b: Bucket, c: Call): Bucket {
    match c
    case Ask(n, now) => Asked(b, n, now).0
    case Rate(qps, now) => Rated(b, qps, now)
  }

  /** What a call has been granted. */
  function Granted(b: Bucket, c: Call): int {
    if c.Ask? && c.n >= 1 && Asked(b, c.n, c.now).1 then c.n else 0
  }

  /** What its refill put in. */
  function Credited(b: Bucket, c: Call): int {
    if c.Ask? && c.n <= 0 then 0 else Refilled(b, c.now).tokens - b.tokens
  }

  function AfterCalls(b: Bucket, cs: seq<Call>): Bucket
    decreases |cs|
  {
    if cs == [] then b else AfterCall(AfterCalls(b, cs[..|cs| - 1]), cs[|cs| - 1])
  }

  function GrantedIn(b: Bucket, cs: seq<Call>): int
    decreases |cs|
  {
    if cs == [] then 0 else GrantedIn(b, cs[..|cs| - 1]) + Granted(AfterCalls(b, cs[..|cs| - 1]), cs[|cs| - 1])
  }

  function CreditedIn(b: Bucket, cs: seq<Call>): int
    decreases |cs|
  {
    if cs == [] then 0 else CreditedIn(b, cs[..|cs| - 1]) + Credited(AfterCalls(b, cs[..|cs| - 1]), cs[|cs| - 1])
  }

  predicate RatesUpTo(cs: seq<Call>, R: int) {
    forall i :: 0 <= i < |cs| && cs[i].Rate? ==> 1 <= cs[i].qps <= R
  }

  lemma CallBalances(b: Bucket, c: Call, R: int)
    requires 1 <= b.rate <= R && b.tokens <= b.burst && (c.Rate? ==> 1 <= c.qps <= R)
    ensures var b' := AfterCall(b, c);
      && b'.tokens as int == b.tokens + Credited(b, c) - Granted(b, c)
      && 1 <= b'.rate <= R && b'.burst == b.burst && b'.tokens <= b'.burst && b.last <= b'.last
      && Credited(b, c) * SECOND <= Earned(R, b.last, b'.last)
  {
    EarnedAdds(R, b.last, b.last, b.last);
    if c.now > b.last {
      CreditWithinR(b.rate, b.last, c.now, R);
      EarnedGrows(R, b.last, c.now);
      if Credit(b.rate, b.last, c.now) >= 0 { ToppedBounds(b.tokens, Credit(b.rate, b.last, c.now), b.burst); }
    }
    hide Credit, Topped, Earned, ToInt64;
  }

  /**
    Over any series of calls and clock readings, at rates between 1 and R, the tokens are
    exactly what there was, plus what the refills put in, less what was granted; and all that
    was put in has been earned since the first reading.
   */
  lemma {:induction false} CallsBalance(b: Bucket, cs: seq<Call>, R: int)
    requires 1 <= b.rate <= R && b.tokens <= b.burst && RatesUpTo(cs, R)
    ensures var b' := AfterCalls(b, cs);
      && b'.tokens as int == b.tokens + CreditedIn(b, cs) - GrantedIn(b, cs)
      && 1 <= b'.rate <= R && b'.burst == b.burst && b'.tokens <= b'.burst && b.last <= b'.last
      && CreditedIn(b, cs) * SECOND <= Earned(R, b.last, b'.last)
    decreases |cs|
  {
    hide AfterCall, Granted, Credited, Earned;
    if cs == [] {
      EarnedAdds(R, b.last, b.last, b.last);
    } else {
      var before, c := AfterCalls(b, cs[..|cs| - 1]), cs[|cs| - 1];
      CallsBalance(b, cs[..|cs| - 1], R);
      CallBalances(before, c, R);
      EarnedAdds(R, b.last, before.last, AfterCall(before, c).last);
    }
  }

  /** So over any series of calls: granted and left in the bucket is at most the first contents and R tokens a second since. */
  lemma CallsNeverGetMoreThanEarned(b: Bucket, cs: seq<Call>, R: int)
    requires 1 <= b.rate <= R && b.tokens <= b.burst && RatesUpTo(cs, R)
    ensures (GrantedIn(b, cs) + AfterCalls(b, cs).tokens) * SECOND
      <= b.tokens * SECOND + (AfterCalls(b, cs).last as int - b.last as int) * R
  {
    hide GrantedIn, CreditedIn, AfterCalls, RatesUpTo;
    CallsBalance(b, cs, R);
    var b' := AfterCalls(b, cs);
    assert (GrantedIn(b, cs) + b'.tokens) * SECOND == b.tokens * SECOND + CreditedIn(b, cs) * SECOND;
  }

  /** Nothing can be granted beyond the burst, whatever the rate and however long one waits. */
  lemma BeyondBurstIsNeverGranted(b: Bucket, n: Int64, now: Int64)
    requires b.tokens <= b.burst && n > b.burst && n >= 1
    ensures !Asked(b, n, now).1 && Asked(b, n, now).0.tokens <= b.burst
  {
  }

  /** With limiting disabled one call on its own is granted up to the burst; DisabledLimit has several at once. */
  lemma DisabledStillCapsAtBurst(b: Bucket, n: Int64, now: Int64)
    requires b.rate <= 0 && n >= 1
    ensures Asked(b, n, now).1 <==> n <= b.burst
  {
  }

  /** The clock moves forward, and not so far that elapsed * rate overflows. */
  predicate Timely(b: Bucket, now: Int64) {
    b.last <= now && Earned(b.rate, b.last, now) <= MAX
  }

  /** A failing Allow has credited at least half of the time it passed over, and left less than a token. */
  lemma FailedPoll(b: Bucket, n: Int64, now: Int64)
    requires Sane(b) && b.rate >= 1 && 1 <= n <= b.burst && Timely(b, now) && !Asked(b, n, now).1
    ensures var b' := Asked(b, n, now).0;
      && b' == b.(tokens := b'.tokens, last := b'.last) && Sane(b')
      && b.last <= b'.last <= now && b.tokens <= b'.tokens < n
      && Earned(b.rate, b.last, b'.last) <= 2 * (b'.tokens as int - b.tokens as int) * SECOND
      && Earned(b.rate, b'.last, now) < SECOND
  {
    hide Earned, Credit, ToInt64;
    AskedStaysSane(b, n, now);
    CreditIsRounded(b.rate, b.last, now);
    EarnedAdds(b.rate, b.last, now, now);
    EarnedAdds(b.rate, b.last, b.last, now);
    if now > b.last {
      CreditIsEarned(b.rate, b.last, now);
      var add := Credit(b.rate, b.last, now);
      ToInt64Exact(b.tokens as int + add);
    }
  }

  /** The bucket after a series of polls that all fail. */
  function AfterPolls(b: Bucket, n: Int64, times: seq<Int64>): Bucket {
    if times == [] then b
    else Asked(AfterPolls(b, n, times[..|times| - 1]), n, times[|times| - 1]).0
  }

  predicate AllFail(b: Bucket, n: Int64, times: seq<Int64>) {
    forall i :: 0 <= i < |times| ==>
      Timely(AfterPolls(b, n, times[..i]), times[i]) && !Asked(AfterPolls(b, n, times[..i]), n, times[i]).1
  }

  /**
    If Allow(n) keeps failing with n <= burst, less than (2n - 1) * 10^9 / rate nanoseconds
    have passed since the last refill before the first poll.
   */
  lemma {:induction false} FailingPollsAreShort(b: Bucket, n: Int64, times: seq<Int64>)
    requires Sane(b) && b.rate >= 1 && 1 <= n <= b.burst && AllFail(b, n, times)
    ensures var b' := AfterPolls(b, n, times);
      && Sane(b') && b'.rate == b.rate && b'.burst == b.burst
      && b.last <= b'.last && b.tokens <= b'.tokens && (times != [] ==> b'.tokens < n && b'.last <= times[|times| - 1])
      && Earned(b.rate, b.last, b'.last) <= 2 * (b'.tokens as int - b.tokens as int) * SECOND
      && (times != [] ==> Earned(b.rate, b'.last, times[|times| - 1]) < SECOND)
      && (times != [] ==> Earned(b.rate, b.last, times[|times| - 1]) < (2 * n - 1) * SECOND)
    decreases |times|
  {
    hide Earned, Asked, Timely;
    if times != [] {
      var i := |times| - 1;
      var before, now := AfterPolls(b, n, times[..i]), times[i];
      assert AllFail(b, n, times[..i]) by {
        assert forall j :: 0 <= j < i ==> times[..i][..j] == times[..j];
      }
      FailingPollsAreShort(b, n, times[..i]);
      FailedPoll(before, n, now);
      var b' := AfterPolls(b, n, times);
      EarnedAdds(b.rate, b.last, before.last, b'.last);
      EarnedAdds(b.rate, b.last, b'.last, now);
    } else {
      EarnedAdds(b.rate, b.last, b.last, b.last);
    }
  }

  // ---------------------------------------------------------------- the bucket object

  class TokenBucket {
    var rate: Int64
    const burst: Int64
    var tokens: Int64
    var lastNS: Int64

    ghost function View(): Bucket
      reads this
    {
      Bucket(rate, burst, tokens, lastNS)
    }

    /** A burst that is not positive takes the rate's value, or 1. */
    constructor (qps: Int64, burst: Int64, now: Int64)
      ensures this.burst == (if burst > 0 then burst else if qps > 0 then qps else 1) && this.burst >= 1
      ensures View() == Bucket(qps, this.burst, this.burst, now)
    {
      var b := burst;
      if b <= 0 {
        b := qps;
        if b <= 0 {
          b := 1;
        }
      }
      this.burst, rate, tokens, lastNS := b, qps, b, now;
    }

    method SetQPS(qps: Int64, now: Int64)
      modifies this
      ensures View() == Rated(old(View()), qps, now)
    {
      Refill(now);
      rate := qps;
      if qps <= 0 {
        tokens := burst;
      }
    }

    method Allow(n: Int64, now: Int64) returns (ok: bool)
      modifies this
      ensures (View(), ok) == Asked(old(View()), n, now)
    {
      if n <= 0 {
        return true;
      }
      Refill(now);
      // One call at a time: the CAS loop ends on its first pass.
      var cur := tokens;
      if cur < n {
        return false;
      }
      tokens := cur - n;
      return true;
    }

    method Refill(now: Int64)
      modifies this
      ensures View() == Refilled(old(View()), now)
    {
      hide ToInt64, Quotient;
      var r := rate;
      if r <= 0 {
        lastNS := now;
        tokens := burst;
        return;
      }
      var last := lastNS;
      if now <= last {
        return;
      }
      var elapsed: int := ToInt64(now as int - last as int);
      var add := Quotient(ToInt64(elapsed * r as int), SECOND);
      if add <= 0 {
        return;
      }
      lastNS := now;
      var next := ToInt64(tokens as int + add);
      if next > burst {
        next := burst;
      }
      tokens := next;
    }

    /**
      Polls at the given clock readings until a request is granted. Once the readings span
      (2n - 1) * 10^9 / rate nanoseconds since the last refill, one of them is granted.
     */
    method Wait(n: Int64, times: seq<Int64>) returns (polls: nat)
      requires Sane(View()) && rate >= 1 && n <= burst
      requires times != [] && lastNS <= times[0]
      requires forall i, j :: 0 <= i < j < |times| ==> times[i] <= times[j]
      requires (2 * n - 1) * SECOND <= Earned(rate, lastNS, times[|times| - 1]) <= MAX
      modifies this
      ensures polls <= |times|
      ensures n <= 0 ==> polls == 0 && View() == old(View())
      ensures n >= 1 ==>
        && polls >= 1
        && AllFail(old(View()), n, times[..polls - 1])
        && (View(), true) == Asked(AfterPolls(old(View()), n, times[..polls - 1]), n, times[polls - 1])
    {
      hide Asked;
      polls := 0;
      if n <= 0 {
        return;
      }
      var granted := false;
      ghost var b0 := View();
      while !granted
        invariant polls <= |times|
        invariant !granted ==> AllFail(b0, n, times[..polls]) && View() == AfterPolls(b0, n, times[..polls])
        invariant granted ==> polls >= 1 && AllFail(b0, n, times[..polls - 1]) && (View(), true) == Asked(AfterPolls(b0, n, times[..polls - 1]), n, times[polls - 1])
        decreases |times| - polls, !granted
      {
        FailingPollsAreShort(b0, n, times[..polls]);
        StillTimely(b0, n, times, polls);
        granted := Allow(n, times[polls]);
        MoreFail(b0, n, times, polls);
        polls := polls + 1;
      }
    }
  }

  /** While polls fail there is a next reading, and it is close enough not to overflow. */
  lemma StillTimely(b: Bucket, n: Int64, times: seq<Int64>, polls: nat)
    requires Sane(b) && b.rate >= 1 && 1 <= n <= b.burst
    requires times != [] && b.last <= times[0] && polls <= |times|
    requires forall i, j :: 0 <= i < j < |times| ==> times[i] <= times[j]
    requires (2 * n - 1) * SECOND <= Earned(b.rate, b.last, times[|times| - 1]) <= MAX
    requires AllFail(b, n, times[..polls])
    ensures polls < |times| && Timely(AfterPolls(b, n, times[..polls]), times[polls])
  {
    FailingPollsAreShort(b, n, times[..polls]);
    assert times[..|times|] == times;
    var b' := AfterPolls(b, n, times[..polls]);
    hide AfterPolls, AllFail, Earned;
    var now, end := times[polls], times[|times| - 1];
    EarnedAdds(b.rate, b.last, b'.last, now);
    EarnedAdds(b.rate, b.last, now, end);
    EarnedGrows(b.rate, b.last, b'.last);
    EarnedGrows(b.rate, now, end);
  }

  lemma MoreFail(b: Bucket, n: Int64, times: seq<Int64>, polls: nat)
    requires polls < |times| && AllFail(b, n, times[..polls])
    requires Timely(AfterPolls(b, n, times[..polls]), times[polls])
    ensures AfterPolls(b, n, times[..polls + 1]) == Asked(AfterPolls(b, n, times[..polls]), n, times[polls]).0
    ensures !Asked(AfterPolls(b, n, times[..polls]), n, times[polls]).1 ==> AllFail(b, n, times[..polls + 1])
  {
    hide Asked, Timely;
    assert times[..polls + 1][..polls] == times[..polls];
    var more := times[..polls + 1];
    if !Asked(AfterPolls(b, n, times[..polls]), n, times[polls]).1 {
      forall i | 0 <= i < |more| ensures Timely(AfterPolls(b, n, more[..i]), more[i]) && !Asked(AfterPolls(b, n, more[..i]), n, more[i]).1 {
        assert more[..i] == times[..i];
        if i < polls {
          assert times[..polls][..i] == times[..i] && times[..polls][i] == times[i];
        }
      }
    }
  }
}
