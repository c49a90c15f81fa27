/**
  A token bucket with a rate of 0 or less, which is documented to let everything through.
  Any number of threads, each asking for its own number of tokens as often as it likes.
 */
module DisabledLimit {
  import opened Arithmetic
  import opened Words
  import opened TokenBuckets
  import opened TokenBucketSteps

  /** Thread t only ever calls Allow(requests[t]). */
  predicate Follows(schedule: seq<Move>, requests: seq<Int64>) {
    forall i :: 0 <= i < |schedule| && schedule[i].thread < |requests| ==> schedule[i].call == Take(requests[schedule[i].thread])
  }

  predicate Positive(requests: seq<Int64>) {
    forall t :: 0 <= t < |requests| ==> requests[t] >= 1
  }

  function Sum(requests: seq<Int64>): int {
    if requests == [] then 0 else Sum(requests[..|requests| - 1]) + requests[|requests| - 1]
  }

  /** Some call has been answered false. */
  predicate Refused(s: State) {
    exists i :: 0 <= i < |s.answers| && !s.answers[i].ok
  }

  // ---------------------------------------------------------------- what is sure to be there

  /** It has filled the bucket and may take once before it fills it again. */
  predicate Armed(pc: Pc) {
    pc.LoadForTake? || pc.CasForTake?
  }

  predicate Disabled(pc: Pc, n: Int64) {
    match pc
    case Idle => true
    case LoadRate(_, after) => after == Take(n)
    case StoreLast(_, after) => after == Take(n)
    case StoreFull(after) => after == Take(n)
    case LoadForTake(m) => m == n
    case CasForTake(m, cur) => m == n <= cur
    case _ => false
  }

  /** What the threads that are not armed may have taken since the bucket was last filled. */
  function Taken(threads: seq<Pc>, requests: seq<Int64>): int
    requires |threads| == |requests|
  {
    if threads == [] then 0
    else
      var last := |threads| - 1;
      Taken(threads[..last], requests[..last]) + if Armed(threads[last]) then 0 else requests[last] as int
  }

  ghost predicate Inv(s: State, requests: seq<Int64>) {
    && s.rate <= 0 && Positive(requests) && |s.threads| == |requests|
    && (forall t :: 0 <= t < |s.threads| ==> Disabled(s.threads[t], requests[t]))
    && s.burst - Taken(s.threads, requests) <= s.tokens <= s.burst
  }

  lemma {:induction false} TakenUpdate(threads: seq<Pc>, requests: seq<Int64>, t: nat, pc: Pc)
    requires |threads| == |requests| && t < |threads|
    ensures Taken(threads[t := pc], requests) ==
      Taken(threads, requests) - (if Armed(threads[t]) then 0 else requests[t] as int) + (if Armed(pc) then 0 else requests[t] as int)
  {
    var last := |threads| - 1;
    if t == last {
      assert threads[t := pc][..last] == threads[..last];
    } else {
      assert threads[t := pc][..last] == threads[..last][t := pc];
      TakenUpdate(threads[..last], requests[..last], t, pc);
    }
  }

  lemma {:induction false} TakenAtMost(threads: seq<Pc>, requests: seq<Int64>)
    requires |threads| == |requests| && Positive(requests)
    ensures 0 <= Taken(threads, requests) <= Sum(requests)
  {
    if threads != [] { TakenAtMost(threads[..|threads| - 1], requests[..|requests| - 1]); }
  }

  /** An armed thread leaves what it asks for out of the account. */
  lemma ArmedIsSpared(threads: seq<Pc>, requests: seq<Int64>, t: nat)
    requires |threads| == |requests| && Positive(requests) && t < |threads| && Armed(threads[t])
    ensures Taken(threads, requests) + requests[t] <= Sum(requests)
  {
    TakenUpdate(threads, requests, t, Idle);
    TakenAtMost(threads[t := Idle], requests);
  }

  lemma StepKeepsInv(s: State, m: Move, requests: seq<Int64>)
    requires Inv(s, requests) && (m.thread < |requests| ==> m.call == Take(requests[m.thread]))
    ensures Inv(Step(s, m), requests)
  {
    hide Credit, Topped, Taken, Sum;
    if m.thread < |s.threads| {
      var pc, t := s.threads[m.thread], Step(s, m);
      assert Disabled(pc, requests[m.thread]);
      TakenUpdate(s.threads, requests, m.thread, t.threads[m.thread]);
      TakenAtMost(t.threads, requests);
      if pc.CasForTake? { TakeIsExact(pc.cur, pc.n); }
      hide ToInt64;
    }
  }

  /** While all requests together fit the burst, no step answers false. */
  lemma StepGrants(s: State, m: Move, requests: seq<Int64>)
    requires Inv(s, requests) && (m.thread < |requests| ==> m.call == Take(requests[m.thread])) && !Refused(s)
    requires Sum(requests) <= s.burst
    ensures !Refused(Step(s, m)) && Step(s, m).burst == s.burst
  {
    if m.thread < |s.threads| {
      var pc := s.threads[m.thread];
      assert Disabled(pc, requests[m.thread]);
      if Armed(pc) { ArmedIsSpared(s.threads, requests, m.thread); }
      hide Taken, Sum, Credit, Topped, ToInt64;
      if pc.Idle? { OnlyAllowAnswers(s, m); } else { AllowEndsExactly(s, m, requests[m.thread]); }
    }
  }

  lemma {:induction false} RunGrants(s: State, schedule: seq<Move>, requests: seq<Int64>)
    requires Inv(s, requests) && Follows(schedule, requests) && !Refused(s) && Sum(requests) <= s.burst
    ensures !Refused(Run(s, schedule)) && Run(s, schedule).burst == s.burst
    decreases |schedule|
  {
    if schedule != [] {
      var last := |schedule| - 1;
      RunKeepsInv(s, schedule[..last], requests);
      RunGrants(s, schedule[..last], requests);
      StepGrants(Run(s, schedule[..last]), schedule[last], requests);
      hide Inv, Step, Sum, Refused;
    }
  }

  lemma {:induction false} RunKeepsInv(s: State, schedule: seq<Move>, requests: seq<Int64>)
    requires Inv(s, requests) && Follows(schedule, requests)
    ensures Inv(Run(s, schedule), requests)
    decreases |schedule|
  {
    if schedule != [] {
      var last := |schedule| - 1;
      RunKeepsInv(s, schedule[..last], requests);
      StepKeepsInv(Run(s, schedule[..last]), schedule[last], requests);
    }
  }

  lemma {:induction false} AllTakenAtStart(n: nat, requests: seq<Int64>)
    requires n == |requests| && Positive(requests)
    ensures Taken(seq(n, _ => Idle), requests) == Sum(requests) >= 0
  {
    if n > 0 {
      assert seq(n, _ => Idle)[..n - 1] == seq(n - 1, _ => Idle);
      AllTakenAtStart(n - 1, requests[..n - 1]);
    }
  }

  // ---------------------------------------------------------------- a run that refuses

  /** Some run in which every thread keeps to its request goes from the start to s. */
  ghost predicate Leads(qps: Int64, burst: Int64, t0: Int64, requests: seq<Int64>, s: State) {
    exists schedule: seq<Move> :: Follows(schedule, requests) && Run(Init(qps, burst, t0, |requests|), schedule) == s
  }

  lemma LeadsOn(qps: Int64, burst: Int64, t0: Int64, requests: seq<Int64>, s: State, t: nat) returns (s': State)
    requires Leads(qps, burst, t0, requests, s) && t < |requests|
    ensures s' == Step(s, Move(t, Take(requests[t]), t0)) && Leads(qps, burst, t0, requests, s')
  {
    var schedule: seq<Move> :| Follows(schedule, requests) && Run(Init(qps, burst, t0, |requests|), schedule) == s;
    var m := Move(t, Take(requests[t]), t0);
    s' := Step(s, m);
    var more := schedule + [m];
    assert more[..|schedule|] == schedule;
    assert Run(Init(qps, burst, t0, |requests|), more) == s';
  }

  /** Threads j.. each fill the bucket, up to loading it for their take. */
  lemma {:induction false} ArmFrom(qps: Int64, burst: Int64, t0: Int64, requests: seq<Int64>, s: State, j: nat) returns (s': State)
    requires qps <= 0 && Positive(requests) && Leads(qps, burst, t0, requests, s) && j <= |requests| == |s.threads|
    requires s.rate == qps && s.tokens == s.burst
    requires forall t :: j <= t < |requests| ==> s.threads[t].Idle?
    ensures Leads(qps, burst, t0, requests, s') && s'.tokens == s'.burst == s.burst && |s'.threads| == |requests|
    ensures forall t :: 0 <= t < j ==> s'.threads[t] == s.threads[t]
    ensures forall t :: j <= t < |requests| ==> s'.threads[t] == LoadForTake(requests[t])
    decreases |requests| - j
  {
    hide Leads, Credit, Topped;
    s' := s;
    if j < |requests| {
      s' := LeadsOn(qps, burst, t0, requests, s', j);
      s' := LeadsOn(qps, burst, t0, requests, s', j);
      s' := LeadsOn(qps, burst, t0, requests, s', j);
      s' := LeadsOn(qps, burst, t0, requests, s', j);
      assert s'.threads == s.threads[j := LoadForTake(requests[j])];
      s' := ArmFrom(qps, burst, t0, requests, s', j + 1);
    }
  }

  /** Then they take in turn until one finds too little. */
  lemma {:induction false} TakeFrom(qps: Int64, burst: Int64, t0: Int64, requests: seq<Int64>, s: State, j: nat) returns (s': State)
    requires Positive(requests) && Leads(qps, burst, t0, requests, s) && j <= |requests| == |s.threads|
    requires Sum(requests) > burst && s.tokens == burst - Sum(requests[..j]) >= 0
    requires forall t :: j <= t < |requests| ==> s.threads[t] == LoadForTake(requests[t])
    ensures Leads(qps, burst, t0, requests, s') && Refused(s')
    decreases |requests| - j
  {
    hide Leads, Credit, Topped;
    assert requests[..|requests|] == requests;
    if requests[j] > s.tokens {
      s' := LeadsOn(qps, burst, t0, requests, s, j);
      assert !s'.answers[|s.answers|].ok;
    } else {
      assert requests[..j + 1][..j] == requests[..j];
      TakeIsExact(s.tokens, requests[j]);
      s' := LeadsOn(qps, burst, t0, requests, s, j);
      s' := LeadsOn(qps, burst, t0, requests, s', j);
      s' := TakeFrom(qps, burst, t0, requests, s', j + 1);
    }
  }

  // ---------------------------------------------------------------- the exact condition

  ghost predicate NeverRefuses(qps: Int64, burst: Int64, t0: Int64, requests: seq<Int64>) {
    forall schedule: seq<Move> :: Follows(schedule, requests) ==> !Refused(Run(Init(qps, burst, t0, |requests|), schedule))
  }

  /** At a rate of 0 or less no call is ever answered false, in any interleaving, exactly when all the threads' requests fit the burst together. */
  lemma DisabledNeverRefusesIff(qps: Int64, burst: Int64, t0: Int64, requests: seq<Int64>)
    requires qps <= 0 && burst >= 1 && Positive(requests)
    ensures NeverRefuses(qps, burst, t0, requests) <==> Sum(requests) <= burst
  {
    var s0 := Init(qps, burst, t0, |requests|);
    if Sum(requests) <= burst {
      AllTakenAtStart(|requests|, requests);
      forall schedule: seq<Move> | Follows(schedule, requests) ensures !Refused(Run(s0, schedule)) {
        RunGrants(s0, schedule, requests);
      }
    } else {
      var none: seq<Move> := [];
      assert Follows(none, requests) && Run(s0, none) == s0;
      var s := ArmFrom(qps, burst, t0, requests, s0, 0);
      assert requests[..0] == [];
      var s' := TakeFrom(qps, burst, t0, requests, s, 0);
    }
  }

  /** For n threads that each ask for m tokens: exactly when n * m fit the burst. */
  lemma EqualRequestsIff(qps: Int64, burst: Int64, t0: Int64, n: nat, m: Int64)
    requires qps <= 0 && burst >= 1 && m >= 1
    ensures NeverRefuses(qps, burst, t0, seq(n, _ => m)) <==> n * m <= burst
  {
    SumOfEqual(n, m);
    DisabledNeverRefusesIff(qps, burst, t0, seq(n, _ => m));
  }

  lemma {:induction false} SumOfEqual(n: nat, m: Int64)
    ensures Sum(seq(n, _ => m)) == n * m
  {
    if n > 0 {
      assert seq(n, _ => m)[..n - 1] == seq(n - 1, _ => m);
      SumOfEqual(n - 1, m);
      MulDistributes(n - 1, 1, m);
    }
  }
}
