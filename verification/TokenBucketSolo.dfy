/**
  The two models of the bucket agree: a thread left to itself takes a call of Allow or SetQPS,
  access by access, to exactly the state and the answer of the call on the object. So what is
  proved about every interleaving holds of the object too.
 */
module TokenBucketSolo {
  import opened Words
  import opened TokenBuckets
  import opened TokenBucketSteps

  /** The bucket, whoever is at work on it. */
  function ViewOf(s: State): Bucket {
    Bucket(s.rate, s.burst, s.tokens, s.last)
  }

  function WithView(s: State, b: Bucket): State {
    s.(rate := b.rate, burst := b.burst, tokens := b.tokens, last := b.last)
  }

  /** Thread m.thread takes k steps in a row. */
  function Alone(s: State, m: Move, k: nat): State {
    if k == 0 then s else Step(Alone(s, m, k - 1), m)
  }

  lemma {:induction false} AloneIsRun(s: State, m: Move, k: nat)
    ensures Alone(s, m, k) == Run(s, seq(k, _ => m))
  {
    hide Step;
    if k > 0 {
      AloneIsRun(s, m, k - 1);
      assert seq(k, _ => m)[..k - 1] == seq(k - 1, _ => m);
    }
  }

  lemma {:induction false} AloneAdds(s: State, m: Move, j: nat, k: nat)
    ensures Alone(s, m, j + k) == Alone(Alone(s, m, j), m, k)
  {
    hide Step;
    if k > 0 {
      AloneAdds(s, m, j, k - 1);
      assert j + k - 1 == j + (k - 1);
    }
  }

  predicate Busy(s: State, t: nat) {
    t < |s.threads| && !s.threads[t].Idle?
  }

  /** k steps in a row from s reach t, the thread at work at every point between. */
  ghost predicate Leads(s: State, m: Move, k: nat, t: State) {
    Alone(s, m, k) == t && forall j: nat :: 0 < j < k ==> Busy(Alone(s, m, j), m.thread)
  }

  lemma OneStep(s: State, m: Move)
    ensures Leads(s, m, 1, Step(s, m))
  {
    assert Alone(s, m, 0) == s && Alone(s, m, 1) == Step(s, m);
  }

  lemma LeadsOn(s: State, m: Move, j: nat, t: State, k: nat, u: State)
    requires Leads(s, m, j, t) && Leads(t, m, k, u) && Busy(t, m.thread)
    ensures Leads(s, m, j + k, u)
  {
    hide Step, Busy, Alone;
    AloneAdds(s, m, j, k);
    forall i: nat | 0 < i < j + k ensures Busy(Alone(s, m, i), m.thread) {
      if i > j { AloneAdds(s, m, j, i - j); }
      if i < j { assert Busy(Alone(s, m, i), m.thread); }
    }
  }

  /** A refill alone, from having read the clock to what comes after it. */
  lemma RefillAlone(s: State, m: Move, now: Int64, after: After) returns (k: nat)
    requires m.thread < |s.threads| && s.threads[m.thread] == LoadRate(now, after)
    ensures k >= 1 && Leads(s, m, k, Goto(WithView(s, Refilled(ViewOf(s), now)), m.thread, Resume(after)))
  {
    hide Credit, Topped, Leads;
    var t := m.thread;
    OneStep(s, m);
    k := 1;
    if s.rate <= 0 {
      var s1, s2 := Goto(s, t, StoreLast(now, after)), Goto(s, t, StoreFull(after)).(last := now);
      k := MoreSteps(s, m, k, s1, s2);
      k := MoreSteps(s, m, k, s2, Goto(s, t, Resume(after)).(last := now, tokens := s.burst));
    } else {
      var s1 := Goto(s, t, LoadLast(now, s.rate, after));
      var add := if now > s.last then Credit(s.rate, s.last, now) else 0;
      if add <= 0 {
        k := MoreSteps(s, m, k, s1, Goto(s, t, Resume(after)));
      } else {
        k := CreditAlone(s, m, k, now, add, after);
      }
    }
  }

  /** One step more. */
  lemma MoreSteps(s: State, m: Move, k: nat, t: State, u: State) returns (k': nat)
    requires Leads(s, m, k, t) && Busy(t, m.thread) && Step(t, m) == u
    ensures k' == k + 1 && Leads(s, m, k', u)
  {
    OneStep(t, m);
    LeadsOn(s, m, k, t, 1, u);
    k' := k + 1;
  }

  lemma CreditAlone(s: State, m: Move, k: nat, now: Int64, add: int, after: After) returns (k': nat)
    requires m.thread < |s.threads| && s.rate >= 1 && now > s.last && add == Credit(s.rate, s.last, now) >= 1
    requires Leads(s, m, k, Goto(s, m.thread, LoadLast(now, s.rate, after)))
    ensures k' >= k && Leads(s, m, k', Goto(s, m.thread, Resume(after)).(last := now, tokens := Topped(s.tokens, add, s.burst)))
  {
    hide Credit, Topped, Leads;
    var t := m.thread;
    var s2 := Goto(s, t, CasLast(now, s.last, add, after));
    var s3 := Goto(s, t, LoadTokens(add, after)).(last := now);
    var s4 := Goto(s, t, CasTokens(add, s.tokens, after)).(last := now);
    k' := MoreSteps(s, m, k, Goto(s, t, LoadLast(now, s.rate, after)), s2);
    k' := MoreSteps(s, m, k', s2, s3);
    k' := MoreSteps(s, m, k', s3, s4);
    k' := MoreSteps(s, m, k', s4, Goto(s, t, Resume(after)).(last := now, tokens := Topped(s.tokens, add, s.burst)));
  }

  /**
    A call of Allow that nobody interferes with: from any state in which the thread is idle, its
    next steps, up to the one that returns, leave the bucket as TokenBuckets.Asked does and
    answer as it answers.
   */
  lemma AllowAlone(s: State, t: nat, n: Int64, now: Int64) returns (k: nat)
    requires t < |s.threads| && s.threads[t].Idle?
    ensures var (b, ok) := Asked(ViewOf(s), n, now);
      k >= 1 && Leads(s, Move(t, Take(n), now), k,
        WithView(s, b).(answers := s.answers + [Reply(t, n, ok)], granted := s.granted + if ok && n >= 1 then n else 0))
  {
    hide Refilled, Leads, ToInt64;
    var m := Move(t, Take(n), now);
    var (b, ok) := Asked(ViewOf(s), n, now);
    ghost var goal := WithView(s, b).(answers := s.answers + [Reply(t, n, ok)], granted := s.granted + if ok && n >= 1 then n else 0);
    OneStep(s, m);
    k := 1;
    assert s.threads[t := Idle] == s.threads;
    if n <= 0 {
      assert Step(s, m) == goal;
    } else {
      var s1 := Goto(s, t, LoadRate(now, Take(n)));
      k := RefillAlone(s1, m, now, Take(n));
      var r := Refilled(ViewOf(s), now);
      RefillKeepsRate(ViewOf(s), now);
      var s2 := Goto(WithView(s, r), t, LoadForTake(n));
      assert ViewOf(s1) == ViewOf(s) && Goto(WithView(s1, r), t, LoadForTake(n)) == s2;
      LeadsOn(s, m, 1, s1, k, s2);
      k := 1 + k;
      if r.tokens < n {
        assert goal == WithView(s, r).(answers := s.answers + [Reply(t, n, false)]);
        k := MoreSteps(s, m, k, s2, goal);
      } else {
        TakeIsExact(r.tokens, n);
        var s3 := Goto(WithView(s, r), t, CasForTake(n, r.tokens));
        k := MoreSteps(s, m, k, s2, s3);
        assert goal == WithView(s, r.(tokens := r.tokens - n)).(answers := s.answers + [Reply(t, n, true)], granted := s.granted + n);
        k := MoreSteps(s, m, k, s3, goal);
      }
    }
  }

  lemma RefillKeepsRate(b: Bucket, now: Int64)
    ensures Refilled(b, now).rate == b.rate && Refilled(b, now).burst == b.burst
  {
  }

  /** The same for SetQPS. */
  lemma SetQPSAlone(s: State, t: nat, qps: Int64, now: Int64) returns (k: nat)
    requires t < |s.threads| && s.threads[t].Idle?
    ensures k >= 1 && Leads(s, Move(t, SetRate(qps), now), k, WithView(s, Rated(ViewOf(s), qps, now)))
  {
    hide Refilled, Leads;
    var m := Move(t, SetRate(qps), now);
    OneStep(s, m);
    var s1 := Goto(s, t, LoadRate(now, SetRate(qps)));
    k := RefillAlone(s1, m, now, SetRate(qps));
    var r := Refilled(ViewOf(s), now);
    RefillKeepsRate(ViewOf(s), now);
    var s2 := Goto(WithView(s, r), t, StoreRate(qps));
    assert ViewOf(s1) == ViewOf(s) && Goto(WithView(s1, r), t, StoreRate(qps)) == s2;
    LeadsOn(s, m, 1, s1, k, s2);
    k := 1 + k;
    assert s.threads[t := Idle] == s.threads;
    if qps <= 0 {
      var s3 := Goto(WithView(s, r), t, StoreBurst).(rate := qps);
      k := MoreSteps(s, m, k, s2, s3);
      k := MoreSteps(s, m, k, s3, WithView(s, Rated(ViewOf(s), qps, now)));
    } else {
      k := MoreSteps(s, m, k, s2, WithView(s, Rated(ViewOf(s), qps, now)));
    }
  }
}
