/** The circuit breaker, each call one step, with the clock readings as inputs. */
module Breakers {
  import opened Arithmetic
  import opened Words

  datatype Phase = Closed | Open | HalfOpen

  datatype Breaker = Breaker(
    failures: Word, phase: Phase, openedAt: Int64, probe: bool, threshold: Word, openFor: Int64)

  /** time.Time.Sub saturates instead of wrapping. */
  function Since(now: Int64, then_: Int64): Int64 {
    var d := now as int - then_ as int;
    if d >= HALF then HALF - 1 else if d < -HALF then -HALF else d
  }

  function Opened(b: Breaker, now: Int64): Breaker {
    b.(openedAt := now, phase := Open, probe := false)
  }

  function Asked(b: Breaker, now: Int64): (Breaker, bool) {
    match b.phase
    case Closed => (b, true)
    case Open =>
      if Since(now, b.openedAt) >= b.openFor then (b.(phase := HalfOpen, probe := true), true) else (b, false)
    case HalfOpen => (b.(probe := true), !b.probe)
  }

  function Succeeded(b: Breaker): Breaker {
    b.(failures := 0, phase := Closed, probe := false)
  }

  function Failed(b: Breaker, now: Int64): Breaker {
    if b.phase == HalfOpen then Opened(b, now)
    else
      var f := Plus(b.failures, 1);
      if f >= b.threshold then Opened(b.(failures := f), now) else b.(failures := f)
  }

  datatype Event = Ask(now: Int64) | Failure(now: Int64) | Success

  function After(b: Breaker, e: Event): Breaker {
    match e
    case Ask(now) => Asked(b, now).0
    case Failure(now) => Failed(b, now)
    case Success => Succeeded(b)
  }

  function AfterAll(b: Breaker, es: seq<Event>): Breaker
    decreases |es|
  {
    if es == [] then b else AfterAll(After(b, es[0]), es[1..])
  }

  /** The times of the requests that are let through, in order. */
  function Admissions(b: Breaker, es: seq<Event>): seq<Int64>
    decreases |es|
  {
    if es == [] then []
    else (if es[0].Ask? && Asked(b, es[0].now).1 then [es[0].now] else []) + Admissions(After(b, es[0]), es[1..])
  }

  // ---------------------------------------------------------------- what the flags mean

  /** Closed exactly below the threshold; half-open exactly while a probe is out. */
  predicate Consistent(b: Breaker) {
    && b.threshold >= 1
    && (b.phase == Closed <==> b.failures < b.threshold)
    && (b.phase == HalfOpen <==> b.probe)
  }

  /** A new breaker, defaults taken. */
  function Fresh(threshold: Word, openFor: Int64): (b: Breaker)
    ensures Consistent(b) && b.failures == 0
  {
    Breaker(0, Closed, 0, false, if threshold == 0 then 50 else threshold, if openFor == 0 then 30_000_000_000 else openFor)
  }

  /** Over any history of fewer than 2^64 calls the flags keep their meaning. */
  lemma {:induction false} HistoryIsConsistent(b: Breaker, es: seq<Event>)
    requires Consistent(b) && b.failures as int + |es| < WORDS
    ensures Consistent(AfterAll(b, es))
    ensures AfterAll(b, es).threshold == b.threshold && AfterAll(b, es).openFor == b.openFor
    decreases |es|
  {
    if es != [] {
      HistoryIsConsistent(After(b, es[0]), es[1..]);
    }
  }

  /** The bound on the history is needed: a single call breaks the meaning exactly when it wraps the counter of an open breaker. */
  lemma OnlyWrappingBreaksMeaning(b: Breaker, e: Event)
    requires Consistent(b)
    ensures Consistent(After(b, e)) <==> !(e.Failure? && b.phase == Open && b.failures as int == WORDS - 1)
  {
  }

  function Failures(k: nat): (es: seq<Event>)
    ensures |es| == k
  {
    seq(k, _ => Failure(0))
  }

  lemma {:induction false} AfterOneMore(b: Breaker, es: seq<Event>, e: Event)
    ensures AfterAll(b, es + [e]) == After(AfterAll(b, es), e)
    decreases |es|
  {
    if es == [] {
      assert [] + [e] == [e];
    } else {
      assert (es + [e])[0] == es[0] && (es + [e])[1..] == es[1..] + [e];
      AfterOneMore(After(b, es[0]), es[1..], e);
    }
  }

  /** Nothing but failures, from a new breaker. */
  lemma {:induction false} AfterFailures(threshold: Word, openFor: Int64, k: nat)
    requires k < WORDS
    ensures var b := AfterAll(Fresh(threshold, openFor), Failures(k));
      && b.failures == k && b.threshold == Fresh(threshold, openFor).threshold
      && b.phase == if k < b.threshold then Closed else Open
  {
    if k > 0 {
      AfterFailures(threshold, openFor, k - 1);
      assert Failures(k) == Failures(k - 1) + [Failure(0)];
      AfterOneMore(Fresh(threshold, openFor), Failures(k - 1), Failure(0));
    }
  }

  ghost predicate AlwaysConsistent(threshold: Word, openFor: Int64, calls: nat) {
    forall es: seq<Event> :: |es| <= calls ==> Consistent(AfterAll(Fresh(threshold, openFor), es))
  }

  /** From any new breaker the flags mean what they say through every history of so many calls exactly if that is fewer than 2^64. */
  lemma MeaningLastsIff(threshold: Word, openFor: Int64, calls: nat)
    ensures AlwaysConsistent(threshold, openFor, calls) <==> calls < WORDS
  {
    if calls < WORDS {
      forall es: seq<Event> | |es| <= calls ensures Consistent(AfterAll(Fresh(threshold, openFor), es)) {
        HistoryIsConsistent(Fresh(threshold, openFor), es);
      }
    } else {
      var es := Failures(WORDS - 1);
      AfterFailures(threshold, openFor, WORDS - 1);
      HistoryIsConsistent(Fresh(threshold, openFor), es);
      AfterOneMore(Fresh(threshold, openFor), es, Failure(0));
      OnlyWrappingBreaksMeaning(AfterAll(Fresh(threshold, openFor), es), Failure(0));
      assert |es + [Failure(0)]| == WORDS;
    }
  }

  // ---------------------------------------------------------------- what the history says

  /** An argument, or its default if it is 0. */
  function OrDefault(x: int, d: int): int {
    if x == 0 then d else x
  }

  /** The failures since the last success. */
  function FailuresSince(es: seq<Event>): nat {
    if es == [] || es[|es| - 1].Success? then 0
    else FailuresSince(es[..|es| - 1]) + if es[|es| - 1].Failure? then 1 else 0
  }

  /** When the last failure was reported. */
  function LastFailure(es: seq<Event>): Int64 {
    if es == [] then 0
    else if es[|es| - 1].Failure? then es[|es| - 1].now
    else LastFailure(es[..|es| - 1])
  }

  /** A request has been let through since the last report of a failure or a success. */
  function AdmittedSince(b: Breaker, es: seq<Event>): bool {
    if es == [] then false
    else
      match es[|es| - 1]
      case Ask(now) => AdmittedSince(b, es[..|es| - 1]) || Asked(AfterAll(b, es[..|es| - 1]), now).1
      case _ => false
  }

  /** The breaker's fields, read off the calls so far. */
  ghost predicate Reflects(b: Breaker, first: Breaker, es: seq<Event>) {
    && b.threshold == first.threshold && b.openFor == first.openFor
    && (FailuresSince(es) < first.threshold ==> b.phase == Closed && b.failures as int == FailuresSince(es))
    && (FailuresSince(es) >= first.threshold ==>
         && b.phase == (if AdmittedSince(first, es) then HalfOpen else Open)
         && (b.phase == Open ==> b.openedAt == LastFailure(es)))
  }

  lemma StepReflects(first: Breaker, es: seq<Event>, e: Event)
    requires var b := AfterAll(first, es); Consistent(b) && Reflects(b, first, es) && b.failures < WORDS - 1
    ensures Reflects(After(AfterAll(first, es), e), first, es + [e])
  {
    assert (es + [e])[..|es|] == es;
  }

  lemma {:induction false} FailuresAreCounted(first: Breaker, es: seq<Event>)
    ensures AfterAll(first, es).failures as int <= first.failures as int + |es|
    decreases |es|
  {
    if es != [] { FailuresAreCounted(After(first, es[0]), es[1..]); }
  }

  lemma {:induction false} HistoryReflects(threshold: Word, openFor: Int64, es: seq<Event>)
    requires |es| < WORDS
    ensures Reflects(AfterAll(Fresh(threshold, openFor), es), Fresh(threshold, openFor), es)
    decreases |es|
  {
    var first := Fresh(threshold, openFor);
    if es != [] {
      var front, e := es[..|es| - 1], es[|es| - 1];
      assert es == front + [e];
      HistoryReflects(threshold, openFor, front);
      HistoryIsConsistent(first, front);
      FailuresAreCounted(first, front);
      AfterOneMore(first, front, e);
      StepReflects(first, front, e);
    }
  }

  /**
    Over every history of fewer than 2^64 calls a request is let through if and only if fewer
    failures than the threshold have been reported since the last success, or nothing has been
    let through since the last failure and that is openFor or longer ago.
   */
  lemma AdmittedIff(threshold: Word, openFor: Int64, es: seq<Event>, now: Int64)
    requires |es| < WORDS
    ensures var first := Fresh(threshold, openFor);
      Asked(AfterAll(first, es), now).1 <==>
        || FailuresSince(es) < OrDefault(threshold, 50)
        || (!AdmittedSince(first, es) && Since(now, LastFailure(es)) >= OrDefault(openFor, 30_000_000_000))
  {
    HistoryReflects(threshold, openFor, es);
    HistoryIsConsistent(Fresh(threshold, openFor), es);
  }

  // ---------------------------------------------------------------- probes are spaced out

  function Time(e: Event): Int64 {
    match e case Ask(now) => now case Failure(now) => now case Success => 0
  }

  /** No success, and a clock that never goes back from `from` on. */
  predicate Failing(es: seq<Event>, from: Int64) {
    es == [] || (!es[0].Success? && Time(es[0]) >= from && Failing(es[1..], Time(es[0])))
  }

  /** Tripped no earlier than `since`: a probe is out, or the wait began at or after it. */
  predicate Tripped(b: Breaker, since: Int64) {
    (b.phase == HalfOpen && b.probe) || (b.phase == Open && b.openedAt >= since)
  }

  lemma TrippedStays(b: Breaker, since: Int64, e: Event)
    requires Tripped(b, since) && !e.Success? && Time(e) >= since
    ensures Tripped(After(b, e), since) && After(b, e).openFor == b.openFor
    ensures e.Ask? && Asked(b, e.now).1 ==> e.now as int - since as int >= b.openFor && Tripped(After(b, e), e.now)
  {
  }

  /** Once tripped, and until the next success, the first admission is openFor away and later ones openFor apart. */
  lemma {:induction false} ProbesAreSpaced(b: Breaker, since: Int64, from: Int64, es: seq<Event>)
    requires Tripped(b, since) && since <= from && Failing(es, from)
    ensures var a := Admissions(b, es);
      && (a != [] ==> a[0] as int - since as int >= b.openFor)
      && forall i :: 0 <= i < |a| - 1 ==> a[i + 1] as int - a[i] as int >= b.openFor
    decreases |es|
  {
    if es != [] {
      var e := es[0];
      TrippedStays(b, since, e);
      if e.Ask? && Asked(b, e.now).1 {
        ProbesAreSpaced(After(b, e), e.now, Time(e), es[1..]);
        var rest := Admissions(After(b, e), es[1..]);
        assert Admissions(b, es) == [e.now] + rest;
      } else {
        ProbesAreSpaced(After(b, e), since, Time(e), es[1..]);
        assert Admissions(b, es) == Admissions(After(b, e), es[1..]);
      }
    }
  }

  lemma {:induction false} SpacedTimes(a: seq<Int64>, gap: Int64)
    requires a != [] && forall i :: 0 <= i < |a| - 1 ==> a[i + 1] as int - a[i] as int >= gap
    ensures (|a| - 1) * gap <= a[|a| - 1] as int - a[0] as int
  {
    if |a| > 1 {
      var init := a[..|a| - 1];
      SpacedTimes(init, gap);
      MulDistributes(|a| - 2, 1, gap);
    }
  }

  /** Tripped and failing, a window of length T lets through at most T / openFor + 1 requests. */
  lemma WindowBound(b: Breaker, since: Int64, es: seq<Event>, t: Int64, T: nat)
    requires Tripped(b, since) && Failing(es, since) && b.openFor >= 1
    requires forall i :: 0 <= i < |Admissions(b, es)| ==> t as int <= Admissions(b, es)[i] as int <= t as int + T
    ensures |Admissions(b, es)| <= T / b.openFor as int + 1
  {
    var a := Admissions(b, es);
    ProbesAreSpaced(b, since, since, es);
    if a != [] {
      SpacedTimes(a, b.openFor);
      AtMostQuotient(|a| - 1, b.openFor, T);
    }
  }

  lemma AtMostQuotient(k: int, c: int, T: int)
    requires c >= 1 && k * c <= T
    ensures k <= T / c
  {
    assert T == (T / c) * c + T % c;
    MultiplesApart(T / c, k, c);
  }

  /** A failure at the threshold, or of a probe, trips the breaker at that moment. */
  lemma FailureTrips(b: Breaker, now: Int64)
    requires Consistent(b) && b.failures < WORDS - 1
    ensures Tripped(Failed(b, now), now) <==> b.phase != Closed || b.failures as int + 1 >= b.threshold
  {
  }

  /** The breaker is still tripped after any stretch without a success. */
  lemma {:induction false} TrippedThrough(b: Breaker, since: Int64, from: Int64, es: seq<Event>, more: seq<Event>)
    requires Tripped(b, since) && since <= from && Failing(es + more, from)
    ensures Tripped(AfterAll(b, es), since) && AfterAll(b, es).openFor == b.openFor
    ensures Failing(more, since)
    decreases |es|
  {
    if es == [] {
      assert es + more == more;
    } else {
      var e := es[0];
      assert (es + more)[0] == e && (es + more)[1..] == es[1..] + more;
      TrippedStays(b, since, e);
      TrippedThrough(After(b, e), since, Time(e), es[1..], more);
    }
  }

  /**
    Over every call history: from the moment a failure opens the breaker until the next
    success, any stretch of calls whose admissions fall within T of each other lets through
    at most T / openFor + 1 of them.
   */
  lemma OpenBreakerIsSparing(
      threshold: Word, openFor: Int64, history: seq<Event>, now: Int64, before: seq<Event>, window: seq<Event>, t: Int64, T: nat)
    requires |history| + 1 < WORDS && Fresh(threshold, openFor).openFor >= 1
    requires Failed(AfterAll(Fresh(threshold, openFor), history), now).phase == Open
    requires AfterAll(Fresh(threshold, openFor), history).phase != Open
    requires Failing(before + window, now)
    requires var b := AfterAll(Failed(AfterAll(Fresh(threshold, openFor), history), now), before);
      forall i :: 0 <= i < |Admissions(b, window)| ==> t as int <= Admissions(b, window)[i] as int <= t as int + T
    ensures var b := AfterAll(Failed(AfterAll(Fresh(threshold, openFor), history), now), before);
      |Admissions(b, window)| <= T / Fresh(threshold, openFor).openFor as int + 1
  {
    HistoryIsConsistent(Fresh(threshold, openFor), history);
    var tripped := Failed(AfterAll(Fresh(threshold, openFor), history), now);
    TrippedThrough(tripped, now, now, before, window);
    WindowBound(AfterAll(tripped, before), now, window, t, T);
  }

  // ---------------------------------------------------------------- the object

  class CircuitBreaker {
    var failures: Word
    var state: Phase
    var openedAtUnix: Int64
    var halfOpenProbe: bool
    const threshold: Word
    const openFor: Int64

    ghost function View(): Breaker
      reads this
    {
      Breaker(failures, state, openedAtUnix, halfOpenProbe, threshold, openFor)
    }

    constructor (threshold: Word, openFor: Int64)
      ensures View() == Fresh(threshold, openFor)
    {
      this.threshold := if threshold == 0 then 50 else threshold;
      this.openFor := if openFor == 0 then 30_000_000_000 else openFor;
      failures, state, openedAtUnix, halfOpenProbe := 0, Closed, 0, false;
    }

    method Allow(now: Int64) returns (ok: bool)
      modifies this
      ensures (View(), ok) == Asked(old(View()), now)
    {
      match state {
        case Closed =>
          return true;
        case Open =>
          if Since(now, openedAtUnix) < openFor {
            return false;
          }
          state := HalfOpen;
          halfOpenProbe := false;
          ok := TakeProbe();
        case HalfOpen =>
          ok := TakeProbe();
      }
    }

    /** CompareAndSwap(false, true) on the probe flag. */
    method TakeProbe() returns (ok: bool)
      modifies this`halfOpenProbe
      ensures ok == !old(halfOpenProbe) && halfOpenProbe
    {
      ok := !halfOpenProbe;
      halfOpenProbe := true;
    }

    method OnSuccess()
      modifies this
      ensures View() == Succeeded(old(View()))
    {
      failures := 0;
      state := Closed;
      halfOpenProbe := false;
    }

    method OnFailure(now: Int64)
      modifies this
      ensures View() == Failed(old(View()), now)
    {
      if state == HalfOpen {
        Trip(now);
        return;
      }
      failures := Plus(failures, 1);
      if failures >= threshold {
        Trip(now);
      }
    }

    method Trip(now: Int64)
      modifies this
      ensures View() == Opened(old(View()), now)
    {
      openedAtUnix := now;
      state := Open;
      halfOpenProbe := false;
    }
  }
}
