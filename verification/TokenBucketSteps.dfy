/**
  The token bucket under concurrency: any number of threads in Allow and SetQPS, one step per
  atomic access, each with its own clock readings. The clocks need not agree or move forward.
 */
module TokenBucketSteps {
  import opened Words
  import opened TokenBuckets

  /** What a thread does once its refill is over. */
  datatype After = Take(n: Int64) | SetRate(qps: Int64)

  datatype Pc =
    | Idle
    | LoadRate(now: Int64, after: After)
    | StoreLast(now: Int64, after: After)
    | StoreFull(after: After)
    | LoadLast(now: Int64, rate: Int64, after: After)
    | CasLast(now: Int64, last: Int64, add: int, after: After)
    | LoadTokens(add: int, after: After)
    | CasTokens(add: int, cur: Int64, after: After)
    | LoadForTake(n: Int64)
    | CasForTake(n: Int64, cur: Int64)
    | StoreRate(qps: Int64)
    | StoreBurst

  /** A call of Allow(n) by `thread` has returned. */
  datatype Reply = Reply(thread: nat, n: Int64, ok: bool)

  /**
    `granted` adds up what has been taken, `answers` is what the calls of Allow have returned;
    no step reads either.
   */
  datatype State = State(
    rate: Int64, burst: Int64, tokens: Int64, last: Int64, threads: seq<Pc>, granted: int, answers: seq<Reply>)

  /** `thread` takes one step; an idle one first reads the clock and starts `call`. */
  datatype Move = Move(thread: nat, call: After, now: Int64)

  /** NewTokenBucket at time t0, with its burst already defaulted. */
  function Init(qps: Int64, burst: Int64, t0: Int64, threads: nat): State {
    State(qps, burst, burst, t0, seq(threads, _ => Idle), 0, [])
  }

  function Goto(s: State, t: nat, pc: Pc): State
    requires t < |s.threads|
  {
    s.(threads := s.threads[t := pc])
  }

  /** Allow returns. */
  function Answer(s: State, t: nat, n: Int64, ok: bool): State
    requires t < |s.threads|
  {
    Goto(s, t, Idle).(answers := s.answers + [Reply(t, n, ok)])
  }

  function Resume(after: After): Pc {
    match after
    case Take(n) => LoadForTake(n)
    case SetRate(qps) => StoreRate(qps)
  }

  /** One access by thread t, following Allow, SetQPS and refill. */
  function Advance(s: State, t: nat, call: After, now: Int64): State
    requires t < |s.threads|
  {
    match s.threads[t]
    case Idle => if call.Take? && call.n <= 0 then Answer(s, t, call.n, true) else Goto(s, t, LoadRate(now, call))
    case LoadRate(at, after) =>
      if s.rate <= 0 then Goto(s, t, StoreLast(at, after)) else Goto(s, t, LoadLast(at, s.rate, after))
    case StoreLast(at, after) => Goto(s, t, StoreFull(after)).(last := at)
    case StoreFull(after) => Goto(s, t, Resume(after)).(tokens := s.burst)
    case LoadLast(at, rate, after) =>
      if at <= s.last then Goto(s, t, Resume(after))
      else
        var add := Credit(rate, s.last, at);
        if add <= 0 then Goto(s, t, Resume(after)) else Goto(s, t, CasLast(at, s.last, add, after))
    case CasLast(at, last, add, after) =>
      if s.last == last then Goto(s, t, LoadTokens(add, after)).(last := at) else Goto(s, t, Resume(after))
    case LoadTokens(add, after) => Goto(s, t, CasTokens(add, s.tokens, after))
    case CasTokens(add, cur, after) =>
      if s.tokens == cur then Goto(s, t, Resume(after)).(tokens := Topped(cur, add, s.burst))
      else Goto(s, t, LoadTokens(add, after))
    case LoadForTake(n) =>
      if s.tokens < n then Answer(s, t, n, false) else Goto(s, t, CasForTake(n, s.tokens))
    case CasForTake(n, cur) =>
      if s.tokens == cur then Answer(s, t, n, true).(tokens := ToInt64(cur as int - n), granted := s.granted + n)
      else Goto(s, t, LoadForTake(n))
    case StoreRate(qps) => Goto(s, t, if qps <= 0 then StoreBurst else Idle).(rate := qps)
    case StoreBurst => Goto(s, t, Idle).(tokens := s.burst)
  }

  function Step(s: State, m: Move): State {
    if m.thread < |s.threads| then Advance(s, m.thread, m.call, m.now) else s
  }

  function Run(s: State, schedule: seq<Move>): State
    decreases |schedule|
  {
    if schedule == [] then s else Step(Run(s, schedule[..|schedule| - 1]), schedule[|schedule| - 1])
  }

  predicate CallWithin(call: After, R: int) {
    call.SetRate? ==> 1 <= call.qps <= R
  }

  /** Every SetQPS of the schedule asks for a rate between 1 and R. */
  predicate RatesWithin(schedule: seq<Move>, R: int) {
    forall i :: 0 <= i < |schedule| ==> CallWithin(schedule[i].call, R)
  }

  // ---------------------------------------------------------------- the invariant

  /** Credit a thread has claimed with its lastNS CAS and not yet added to tokens. */
  function Claimed(pc: Pc): int {
    if pc.LoadTokens? || pc.CasTokens? then pc.add else 0
  }

  function InFlight(threads: seq<Pc>): int {
    if threads == [] then 0 else InFlight(threads[..|threads| - 1]) + Claimed(threads[|threads| - 1])
  }

  predicate AfterOk(a: After, R: int) {
    match a case Take(n) => n >= 1 case SetRate(qps) => 1 <= qps <= R
  }

  /** A thread's locals: rates in range, and a credit that the time it covers has earned. */
  predicate ThreadOk(pc: Pc, burst: Int64, R: int) {
    match pc
    case Idle => true
    case LoadRate(_, after) => AfterOk(after, R)
    case StoreLast(_, _) => false
    case StoreFull(_) => false
    case LoadLast(_, rate, after) => 1 <= rate <= R && AfterOk(after, R)
    case CasLast(now, last, add, after) =>
      1 <= add <= MAX_CREDIT && now > last && add * SECOND <= Earned(R, last, now) && AfterOk(after, R)
    case LoadTokens(add, after) => 1 <= add <= MAX_CREDIT && AfterOk(after, R)
    case CasTokens(add, cur, after) => 1 <= add <= MAX_CREDIT && cur <= burst && AfterOk(after, R)
    case LoadForTake(n) => n >= 1
    case CasForTake(n, cur) => n >= 1 && n <= cur <= burst
    case StoreRate(qps) => 1 <= qps <= R
    case StoreBurst => false
  }

  ghost predicate Inv(s: State, t0: Int64, R: int) {
    && 1 <= s.rate <= R && s.burst >= 1 && s.tokens <= s.burst && s.last >= t0
    && (forall t :: 0 <= t < |s.threads| ==> ThreadOk(s.threads[t], s.burst, R))
    && (s.granted + s.tokens + InFlight(s.threads)) * SECOND <= s.burst * SECOND + Earned(R, t0, s.last)
  }

  lemma {:induction false} InFlightUpdate(threads: seq<Pc>, t: nat, pc: Pc)
    requires t < |threads|
    ensures InFlight(threads[t := pc]) == InFlight(threads) - Claimed(threads[t]) + Claimed(pc)
  {
    var last := |threads| - 1;
    if t == last {
      assert threads[t := pc][..last] == threads[..last];
    } else {
      assert threads[t := pc][..last] == threads[..last][t := pc];
      InFlightUpdate(threads[..last], t, pc);
    }
  }

  lemma {:induction false} NothingInFlight(threads: seq<Pc>)
    requires forall t :: 0 <= t < |threads| ==> threads[t].Idle?
    ensures InFlight(threads) == 0
  {
    if threads != [] { NothingInFlight(threads[..|threads| - 1]); }
  }

  lemma {:induction false} InFlightNonNeg(threads: seq<Pc>, burst: Int64, R: int)
    requires forall t :: 0 <= t < |threads| ==> ThreadOk(threads[t], burst, R)
    ensures InFlight(threads) >= 0
  {
    if threads != [] { InFlightNonNeg(threads[..|threads| - 1], burst, R); }
  }

  lemma StepKeepsThreads(s: State, m: Move, t0: Int64, R: int)
    requires Inv(s, t0, R) && m.thread < |s.threads| && CallWithin(m.call, R)
    ensures ThreadOk(Step(s, m).threads[m.thread], s.burst, R)
  {
    hide Credit, Earned, Topped, InFlight, ToInt64;
    var pc := s.threads[m.thread];
    assert ThreadOk(pc, s.burst, R);
    if pc.LoadLast? && pc.now > s.last { CreditWithinR(pc.rate, s.last, pc.now, R); }
  }

  lemma StepKeepsFields(s: State, m: Move, t0: Int64, R: int)
    requires Inv(s, t0, R) && CallWithin(m.call, R)
    ensures var s' := Step(s, m);
      && 1 <= s'.rate <= R && s'.burst == s.burst && s'.tokens <= s'.burst && s'.last >= t0
      && |s'.threads| == |s.threads|
      && (forall t :: 0 <= t < |s.threads| && t != m.thread ==> s'.threads[t] == s.threads[t])
  {
    hide Credit, Earned, Topped, InFlight;
    if m.thread < |s.threads| {
      var pc := s.threads[m.thread];
      assert ThreadOk(pc, s.burst, R);
      if pc.CasTokens? { ToppedBounds(pc.cur, pc.add, s.burst); }
      if pc.CasForTake? { ToInt64AtMost(pc.cur as int - pc.n); }
    }
  }

  /** The books: granted + tokens + claimed credit never grows by more than lastNS has earned. */
  lemma StepKeepsBooks(s: State, m: Move, t0: Int64, R: int)
    requires Inv(s, t0, R)
    ensures var s' := Step(s, m);
      (s'.granted + s'.tokens + InFlight(s'.threads)) * SECOND <= s'.burst * SECOND + Earned(R, t0, s'.last)
  {
    if m.thread < |s.threads| {
      var pc := s.threads[m.thread];
      assert ThreadOk(pc, s.burst, R);
      var s' := Step(s, m);
      InFlightUpdate(s.threads, m.thread, s'.threads[m.thread]);
      if pc.CasTokens? { ToppedBounds(pc.cur, pc.add, s.burst); }
      if pc.CasForTake? { TakeIsExact(pc.cur, pc.n); }
      if pc.CasLast? { EarnedAdds(R, t0, pc.last, pc.now); }
      hide InFlight, Earned, Credit, Topped;
    }
  }

  lemma TakeIsExact(cur: Int64, n: Int64)
    requires 1 <= n <= cur
    ensures ToInt64(cur as int - n) == cur as int - n
  {
  }

  lemma StepKeepsInv(s: State, m: Move, t0: Int64, R: int)
    requires Inv(s, t0, R) && CallWithin(m.call, R)
    ensures Inv(Step(s, m), t0, R)
  {
    StepKeepsFields(s, m, t0, R);
    StepKeepsBooks(s, m, t0, R);
    if m.thread < |s.threads| { StepKeepsThreads(s, m, t0, R); }
    hide Step, ThreadOk, InFlight, Earned;
  }

  lemma InitInv(qps: Int64, burst: Int64, t0: Int64, threads: nat, R: int)
    requires 1 <= qps <= R && burst >= 1
    ensures Inv(Init(qps, burst, t0, threads), t0, R)
  {
    NothingInFlight(Init(qps, burst, t0, threads).threads);
  }

  lemma {:induction false} RunKeepsInv(s: State, schedule: seq<Move>, t0: Int64, R: int)
    requires Inv(s, t0, R) && RatesWithin(schedule, R)
    ensures Inv(Run(s, schedule), t0, R)
    decreases |schedule|
  {
    if schedule != [] {
      RunKeepsInv(s, schedule[..|schedule| - 1], t0, R);
      StepKeepsInv(Run(s, schedule[..|schedule| - 1]), schedule[|schedule| - 1], t0, R);
    }
  }

  /**
    In every interleaving, with every rate in force between 1 and R: what has been asked for
    and answered true, plus what is in the bucket, plus what has been claimed but not yet added, is at most the
    burst plus R tokens a second since t0. Nothing is assumed about overflow or the clocks.
   */
  lemma NeverMoreThanEarned(qps: Int64, burst: Int64, t0: Int64, threads: nat, R: int, schedule: seq<Move>)
    requires 1 <= qps <= R && burst >= 1 && RatesWithin(schedule, R)
    ensures var s := Run(Init(qps, burst, t0, threads), schedule);
      && s.tokens <= s.burst == burst && s.last >= t0
      && (GrantedOf(s.answers) + s.tokens + InFlight(s.threads)) * SECOND <= burst * SECOND + (s.last as int - t0 as int) * R
      && InFlight(s.threads) >= 0
  {
    InitInv(qps, burst, t0, threads, R);
    RunKeepsInv(Init(qps, burst, t0, threads), schedule, t0, R);
    RunKeepsBurst(Init(qps, burst, t0, threads), schedule);
    InFlightNonNeg(Run(Init(qps, burst, t0, threads), schedule).threads, burst, R);
    GrantedIsAnswered(qps, burst, t0, threads, schedule);
  }

  lemma {:induction false} RunKeepsBurst(s: State, schedule: seq<Move>)
    ensures Run(s, schedule).burst == s.burst
    decreases |schedule|
  {
    if schedule != [] { RunKeepsBurst(s, schedule[..|schedule| - 1]); }
  }

  // ---------------------------------------------------------------- never negative

  predicate Asks(a: After) {
    a.Take? ==> a.n >= 1
  }

  /** A thread's locals, whatever rates SetQPS has asked for. */
  predicate InRange(pc: Pc, burst: Int64) {
    match pc
    case Idle => true
    case LoadRate(_, after) => Asks(after)
    case StoreLast(_, after) => Asks(after)
    case StoreFull(after) => Asks(after)
    case LoadLast(_, rate, after) => rate >= 1 && Asks(after)
    case CasLast(_, _, add, after) => 1 <= add <= MAX_CREDIT && Asks(after)
    case LoadTokens(add, after) => 1 <= add <= MAX_CREDIT && Asks(after)
    case CasTokens(add, cur, after) => 1 <= add <= MAX_CREDIT && 0 <= cur <= burst && Asks(after)
    case LoadForTake(n) => n >= 1
    case CasForTake(n, cur) => 1 <= n <= cur <= burst
    case StoreRate(_) => true
    case StoreBurst => true
  }

  ghost predicate Bounded(s: State) {
    && s.burst >= 1 && s.burst as int + MAX_CREDIT <= MAX && 0 <= s.tokens <= s.burst
    && forall t :: 0 <= t < |s.threads| ==> InRange(s.threads[t], s.burst)
  }

  lemma StepKeepsBounded(s: State, m: Move)
    requires Bounded(s)
    ensures Bounded(Step(s, m)) && Step(s, m).burst == s.burst
  {
    hide Earned, Credit, InFlight;
    if m.thread < |s.threads| {
      var pc := s.threads[m.thread];
      assert InRange(pc, s.burst);
      if pc.LoadLast? && pc.now > s.last { CreditIsEarned(pc.rate, s.last, pc.now); }
      if pc.CasTokens? { ToppedBounds(pc.cur, pc.add, s.burst); }
      if pc.CasForTake? { TakeIsExact(pc.cur, pc.n); }
      hide Topped, ToInt64;
    }
  }

  lemma {:induction false} RunKeepsBounded(s: State, schedule: seq<Move>)
    requires Bounded(s)
    ensures Bounded(Run(s, schedule)) && Run(s, schedule).burst == s.burst
    decreases |schedule|
  {
    if schedule != [] {
      var last := |schedule| - 1;
      RunKeepsBounded(s, schedule[..last]);
      StepKeepsBounded(Run(s, schedule[..last]), schedule[last]);
    }
  }

  /** Six accesses of one Allow(1), one nanosecond after creation, at the highest rate. */
  ghost function Overflowing(): seq<Move> {
    seq(6, _ => Move(0, Take(1), 1))
  }

  lemma OverflowRun(burst: Int64)
    requires burst >= 1 && burst as int + MAX_CREDIT > MAX
    ensures Run(Init(MAX, burst, 0, 1), Overflowing()).tokens < 0
  {
    var s0 := Init(MAX, burst, 0, 1);
    var m, all := Move(0, Take(1), 1), Overflowing();
    assert Credit(MAX, 0, 1) == MAX_CREDIT;
    assert all == all[..5] + [m] && all[..5][..4] == all[..4] && all[..4][..3] == all[..3];
    assert all[..3][..2] == all[..2] && all[..2][..1] == all[..1] && all[..1][..0] == [];
    var s1 := Goto(s0, 0, LoadRate(1, Take(1)));
    var s2 := Goto(s0, 0, LoadLast(1, MAX, Take(1)));
    var s3 := Goto(s0, 0, CasLast(1, 0, MAX_CREDIT, Take(1)));
    var s4 := Goto(s0, 0, LoadTokens(MAX_CREDIT, Take(1))).(last := 1);
    var s5 := Goto(s0, 0, CasTokens(MAX_CREDIT, burst, Take(1))).(last := 1);
    hide Credit, Topped;
    assert Run(s0, all[..1]) == s1;
    assert Run(s0, all[..2]) == s2;
    assert Run(s0, all[..3]) == s3;
    assert Run(s0, all[..4]) == s4;
    assert Run(s0, all[..5]) == s5;
    assert Run(s0, all).tokens == Topped(burst, MAX_CREDIT, burst);
    ToppedOverflows(burst);
  }

  lemma ToppedOverflows(burst: Int64)
    requires burst >= 1 && burst as int + MAX_CREDIT > MAX
    ensures Topped(burst, MAX_CREDIT, burst) < 0
  {
  }

  /** Whether every run from this burst, at whatever rates SetQPS asks for, keeps the token count between 0 and the burst. */
  ghost predicate AlwaysInRange(burst: Int64) {
    forall qps: Int64, t0: Int64, threads: nat, schedule: seq<Move> ::
      0 <= Run(Init(qps, burst, t0, threads), schedule).tokens <= burst
  }

  /** 0 <= tokens <= burst in every run, exactly for the bursts to which the largest credit can be added in an int64. */
  lemma NonNegativeIffNoOverflow(burst: Int64)
    requires burst >= 1
    ensures AlwaysInRange(burst) <==> burst as int + MAX_CREDIT <= MAX
  {
    if burst as int + MAX_CREDIT <= MAX {
      forall qps: Int64, t0: Int64, threads: nat, schedule: seq<Move>
        ensures 0 <= Run(Init(qps, burst, t0, threads), schedule).tokens <= burst
      {
        RunKeepsBounded(Init(qps, burst, t0, threads), schedule);
      }
    } else {
      OverflowRun(burst);
    }
  }

  // ---------------------------------------------------------------- no credit is lost

  /** The thread has found limiting disabled and is about to refill to the burst. */
  predicate Resets(pc: Pc) {
    pc.StoreFull? || pc.StoreBurst?
  }

  /** What a step claims for the bucket with its CAS on lastNS. */
  function ClaimedBy(s: State, pc: Pc): int {
    if pc.CasLast? && s.last == pc.last then pc.add else 0
  }

  /** What is over the burst when a claimed credit is added. */
  function Spilled(s: State, pc: Pc): int {
    if pc.CasTokens? && s.tokens == pc.cur && pc.cur as int + pc.add > s.burst then pc.cur as int + pc.add - s.burst else 0
  }

  /**
    Granted, in the bucket and claimed change together by exactly what is newly claimed, less
    what is over the burst: nothing else is ever lost or made, whatever CASes fail.
   */
  lemma CreditIsKept(s: State, m: Move)
    requires Bounded(s) && m.thread < |s.threads| && !Resets(s.threads[m.thread])
    ensures var pc, t := s.threads[m.thread], Step(s, m);
      t.granted + t.tokens + InFlight(t.threads) == s.granted + s.tokens + InFlight(s.threads) + ClaimedBy(s, pc) - Spilled(s, pc)
  {
    hide Credit, InFlight;
    var pc, t := s.threads[m.thread], Step(s, m);
    assert InRange(pc, s.burst);
    InFlightUpdate(s.threads, m.thread, t.threads[m.thread]);
    if pc.CasTokens? { ToppedExactly(pc.cur, pc.add, s.burst); }
    if pc.CasForTake? { TakeIsExact(pc.cur, pc.n); }
    hide Topped, ToInt64;
  }

  lemma ToppedExactly(cur: Int64, add: int, burst: Int64)
    requires 0 <= cur <= burst && 1 <= add <= MAX_CREDIT && burst as int + MAX_CREDIT <= MAX
    ensures Topped(cur, add, burst) as int == if cur as int + add > burst then burst as int else cur as int + add
  {
  }

  // ---------------------------------------------------------------- call by call

  /** The argument of the Allow a thread is in. */
  predicate Asking(pc: Pc, n: Int64) {
    match pc
    case LoadRate(_, after) => after == Take(n)
    case StoreLast(_, after) => after == Take(n)
    case StoreFull(after) => after == Take(n)
    case LoadLast(_, _, after) => after == Take(n)
    case CasLast(_, _, _, after) => after == Take(n)
    case LoadTokens(_, after) => after == Take(n)
    case CasTokens(_, _, after) => after == Take(n)
    case LoadForTake(m) => m == n
    case CasForTake(m, _) => m == n
    case _ => false
  }

  /** Inside refill, with what comes after it. */
  predicate Refilling(pc: Pc, after: After) {
    match pc
    case LoadRate(_, a) => a == after
    case StoreLast(_, a) => a == after
    case StoreFull(a) => a == after
    case LoadLast(_, _, a) => a == after
    case CasLast(_, _, _, a) => a == after
    case LoadTokens(_, a) => a == after
    case CasTokens(_, _, a) => a == after
    case _ => false
  }

  /**
    A refill is over when it has refilled a disabled bucket to the burst, when the clock or the
    rate gives no credit, when another refill has moved lastNS first, or when it has added its
    credit; in every other step, a lost CAS on the tokens included, it goes on.
   */
  lemma RefillEndsExactly(s: State, m: Move, after: After)
    requires m.thread < |s.threads| && Refilling(s.threads[m.thread], after)
    ensures var pc, t := s.threads[m.thread], Step(s, m);
      var over :=
        || pc.StoreFull?
        || (pc.LoadLast? && (pc.now <= s.last || Credit(pc.rate, s.last, pc.now) <= 0))
        || (pc.CasLast? && s.last != pc.last)
        || (pc.CasTokens? && s.tokens == pc.cur);
      && m.thread < |t.threads|
      && (if over then t.threads[m.thread] == Resume(after) else Refilling(t.threads[m.thread], after))
  {
    hide Credit, Topped, ToInt64;
  }

  /**
    A call of Allow(n) returns false exactly when it finds fewer than n tokens, and true exactly
    when its CAS succeeds, which takes n of them; in every other step, a lost CAS included, it
    goes on with its n.
   */
  lemma AllowEndsExactly(s: State, m: Move, n: Int64)
    requires m.thread < |s.threads| && Asking(s.threads[m.thread], n)
    ensures var pc, t := s.threads[m.thread], Step(s, m);
      var no, yes := pc.LoadForTake? && s.tokens < n, pc.CasForTake? && s.tokens == pc.cur;
      && m.thread < |t.threads|
      && t.answers == s.answers + (if no || yes then [Reply(m.thread, n, yes)] else [])
      && (if no || yes then t.threads[m.thread].Idle? else Asking(t.threads[m.thread], n))
      && (yes ==> t == s.(threads := t.threads, answers := t.answers, tokens := ToInt64(s.tokens as int - n), granted := s.granted + n))
      && (!yes ==> t.granted == s.granted)
  {
    hide Credit, Topped, ToInt64;
  }

  /** Not in a call of Allow. */
  predicate Outside(pc: Pc) {
    match pc
    case Idle => true
    case LoadRate(_, after) => after.SetRate?
    case StoreLast(_, after) => after.SetRate?
    case StoreFull(after) => after.SetRate?
    case LoadLast(_, _, after) => after.SetRate?
    case CasLast(_, _, _, after) => after.SetRate?
    case LoadTokens(_, after) => after.SetRate?
    case CasTokens(_, _, after) => after.SetRate?
    case LoadForTake(_) => false
    case CasForTake(_, _) => false
    case StoreRate(_) => true
    case StoreBurst => true
  }

  /** A thread outside Allow answers only a request for nothing, with true and at once. */
  lemma OnlyAllowAnswers(s: State, m: Move)
    requires m.thread < |s.threads| && Outside(s.threads[m.thread])
    ensures var pc, t := s.threads[m.thread], Step(s, m);
      && t.granted == s.granted
      && t.answers == s.answers + (if pc.Idle? && m.call.Take? && m.call.n <= 0 then [Reply(m.thread, m.call.n, true)] else [])
      && (pc.Idle? && m.call.Take? && m.call.n >= 1 ==> m.thread < |t.threads| && Asking(t.threads[m.thread], m.call.n))
  {
    hide Credit, Topped;
  }

  /** What the calls answered true have asked for. */
  function GrantedOf(answers: seq<Reply>): int {
    if answers == [] then 0
    else
      var last := answers[|answers| - 1];
      GrantedOf(answers[..|answers| - 1]) + if last.ok && last.n >= 1 then last.n else 0
  }

  lemma GrantedMore(answers: seq<Reply>, r: Reply)
    ensures GrantedOf(answers + [r]) == GrantedOf(answers) + if r.ok && r.n >= 1 then r.n else 0
  {
    assert (answers + [r])[..|answers|] == answers;
  }

  /** Every call under way asks for a token at least. */
  ghost predicate AsksForSome(pc: Pc) {
    Outside(pc) || exists n: Int64 :: n >= 1 && Asking(pc, n)
  }

  ghost predicate Answered(s: State) {
    s.granted == GrantedOf(s.answers) && forall t :: 0 <= t < |s.threads| ==> AsksForSome(s.threads[t])
  }

  lemma StepKeepsAnswered(s: State, m: Move)
    requires Answered(s)
    ensures Answered(Step(s, m))
  {
    if m.thread < |s.threads| {
      var pc, t := s.threads[m.thread], Step(s, m);
      assert AsksForSome(pc);
      OthersStand(s, m);
      if Outside(pc) {
        OnlyAllowAnswers(s, m);
        if pc.Idle? && m.call.Take? { GrantedMore(s.answers, Reply(m.thread, m.call.n, true)); }
        SetRateStays(s, m);
      } else {
        var n: Int64 :| n >= 1 && Asking(pc, n);
        AllowEndsExactly(s, m, n);
        GrantedMore(s.answers, Reply(m.thread, n, true));
        GrantedMore(s.answers, Reply(m.thread, n, false));
      }
      hide Step, Asking, ToInt64, GrantedOf;
      assert s.answers + [] == s.answers;
    }
  }

  lemma OthersStand(s: State, m: Move)
    ensures |Step(s, m).threads| == |s.threads|
    ensures forall u :: 0 <= u < |s.threads| && u != m.thread ==> Step(s, m).threads[u] == s.threads[u]
  {
    hide Credit, Topped, ToInt64;
  }

  lemma SetRateStays(s: State, m: Move)
    requires m.thread < |s.threads| && Outside(s.threads[m.thread])
    ensures var pc, t := s.threads[m.thread], Step(s, m);
      m.thread < |t.threads| && (Outside(t.threads[m.thread]) || (pc.Idle? && m.call.Take? && m.call.n >= 1))
  {
    hide Credit, Topped, ToInt64;
  }

  /** In every run `granted` is the total of the requests answered true. */
  lemma {:induction false} GrantedIsAnswered(qps: Int64, burst: Int64, t0: Int64, threads: nat, schedule: seq<Move>)
    ensures Answered(Run(Init(qps, burst, t0, threads), schedule))
    decreases |schedule|
  {
    if schedule != [] {
      var last := |schedule| - 1;
      GrantedIsAnswered(qps, burst, t0, threads, schedule[..last]);
      StepKeepsAnswered(Run(Init(qps, burst, t0, threads), schedule[..last]), schedule[last]);
      hide Step, Answered;
    }
  }
}
