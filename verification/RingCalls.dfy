/**
  The ring seen call by call: every call gets one answer, and all calls together take a
  bounded number of steps. For every schedule of any number of threads.
 */
module RingCalls {
  import opened Options
  import opened Slots
  import opened Arithmetic
  import opened RingSteps
  import opened RingTheorems

  /** The call a thread is in. */
  function CallOf<V>(pc: Pc<V>): Call<V>
    requires !pc.Idle?
  {
    match pc
    case EnqLoadTail(v) => Enqueue(v)
    case EnqLoadSeq(v, _) => Enqueue(v)
    case EnqCas(v, _) => Enqueue(v)
    case EnqStoreVal(v, _) => Enqueue(v)
    case EnqStoreSeq(v, _) => Enqueue(v)
    case _ => Dequeue
  }

  predicate Fits<V(==)>(call: Call<V>, a: Answer<V>) {
    match call
    case Enqueue(v) => a == Accepted(v) || a == Full(v)
    case Dequeue => a.Got? || a.Nothing?
  }

  // ---------------------------------------------------------------- one answer for each call

  lemma CallBegins<V>(s: State<V>, m: Move<V>)
    requires |s.cells| >= 1 && m.thread < |s.threads| && s.threads[m.thread].Idle?
    ensures var t := Step(s, m);
      && m.thread < |t.threads| && t.answers == s.answers
      && (t.threads[m.thread].Idle? <==> m.call.None?)
      && (m.call.Some? ==> CallOf(t.threads[m.thread]) == m.call.value)
  {
    hide CellAt, Slot;
  }

  /** A call that does not return goes on with the same argument. */
  lemma CallGoesOn<V>(s: State<V>, m: Move<V>)
    requires |s.cells| >= 1 && m.thread < |s.threads| && !s.threads[m.thread].Idle?
    ensures var t := Step(s, m);
      m.thread < |t.threads| && (!t.threads[m.thread].Idle? ==> CallOf(t.threads[m.thread]) == CallOf(s.threads[m.thread]))
  {
    hide CellAt, Slot, SetCell;
    if WriterState(s.threads[m.thread]) || ReaderState(s.threads[m.thread]) { OwnerGoesOn(s, m); }
  }

  lemma OwnerGoesOn<V>(s: State<V>, m: Move<V>)
    requires |s.cells| >= 1 && m.thread < |s.threads| && (WriterState(s.threads[m.thread]) || ReaderState(s.threads[m.thread]))
    ensures var t := Step(s, m);
      m.thread < |t.threads| && (!t.threads[m.thread].Idle? ==> CallOf(t.threads[m.thread]) == CallOf(s.threads[m.thread]))
  {
    hide CellAt, Slot;
  }

  /** The calls thread t has begun, in order. */
  function Begun<V>(s: State<V>, schedule: seq<Move<V>>, t: nat): seq<Call<V>>
    requires |s.cells| >= 1 && t < |s.threads|
    decreases |schedule|
  {
    if schedule == [] then []
    else
      var last := |schedule| - 1;
      Begun(s, schedule[..last], t) + BegunBy(Run(s, schedule[..last]), schedule[last], t)
  }

  function BegunBy<V>(s: State<V>, m: Move<V>, t: nat): seq<Call<V>>
    requires t < |s.threads|
  {
    if m.thread == t && s.threads[t].Idle? && m.call.Some? then [m.call.value] else []
  }

  /** The answers given to thread t, in order. */
  function AnswersTo<V>(answers: seq<Reply<V>>, t: nat): seq<Answer<V>> {
    if answers == [] then []
    else
      var last := answers[|answers| - 1];
      AnswersTo(answers[..|answers| - 1], t) + if last.thread == t then [last.answer] else []
  }

  lemma AnswersToMore<V>(answers: seq<Reply<V>>, r: Reply<V>, t: nat)
    ensures AnswersTo(answers + [r], t) == AnswersTo(answers, t) + if r.thread == t then [r.answer] else []
  {
    assert (answers + [r])[..|answers|] == answers;
  }

  /** The k-th answer fits the k-th call, and only a call under way is still owed one. */
  ghost predicate Matched<V>(pc: Pc<V>, calls: seq<Call<V>>, answers: seq<Answer<V>>) {
    && |calls| == |answers| + (if pc.Idle? then 0 else 1)
    && (forall k :: 0 <= k < |answers| ==> Fits(calls[k], answers[k]))
    && (!pc.Idle? ==> calls[|calls| - 1] == CallOf(pc))
  }

  lemma DueFits<V>(s: State<V>, t: nat)
    requires Inv(s) && t < |s.threads| && !s.threads[t].Idle?
    ensures |Due(s, t)| <= 1
    ensures Due(s, t) != [] ==> Due(s, t)[0].thread == t && Fits(CallOf(s.threads[t]), Due(s, t)[0].answer)
  {
    hide Inv, Released, Published;
  }

  lemma OwnStepMatches<V>(s: State<V>, m: Move<V>, calls: seq<Call<V>>)
    requires Inv(s) && m.thread < |s.threads| && Matched(s.threads[m.thread], calls, AnswersTo(s.answers, m.thread))
    ensures var t := Step(s, m); var mine := m.thread;
      mine < |t.threads| && Matched(t.threads[mine], calls + BegunBy(s, m, mine), AnswersTo(t.answers, mine))
  {
    hide Inv, Step, MeetsBusyCell, MeetsNothing, Due, AnswersTo;
    CellsOf(s);
    var mine := m.thread;
    if s.threads[mine].Idle? {
      CallBegins(s, m);
    } else {
      CallReturnsExactly(s, m);
      CallGoesOn(s, m);
      ReturnsWithAnswer(s, mine);
      DueFits(s, mine);
      assert BegunBy(s, m, mine) == [] && calls + [] == calls;
      if Due(s, mine) == [] {
        assert s.answers + [] == s.answers;
      } else {
        AnswersToMore(s.answers, Due(s, mine)[0], mine);
        assert Due(s, mine) == [Due(s, mine)[0]];
      }
    }
  }

  lemma ReturnsWithAnswer<V>(s: State<V>, t: nat)
    requires Inv(s) && t < |s.threads|
    ensures var pc := s.threads[t];
      Due(s, t) != [] <==> MeetsBusyCell(s, pc) || pc.EnqStoreSeq? || MeetsNothing(s, pc) || pc.DeqStoreSeq?
  {
    hide Inv, Released, Published;
  }

  /** Another thread's step neither begins nor answers a call of t. */
  lemma OtherStepMatches<V>(s: State<V>, m: Move<V>, t: nat)
    requires Inv(s) && t < |s.threads| && m.thread != t
    ensures t < |Step(s, m).threads| && Step(s, m).threads[t] == s.threads[t]
    ensures AnswersTo(Step(s, m).answers, t) == AnswersTo(s.answers, t)
  {
    OthersStand(s, m);
    if m.thread < |s.threads| {
      if s.threads[m.thread].Idle? {
        CallBegins(s, m);
      } else {
        CallReturnsExactly(s, m);
        DueFits(s, m.thread);
        if Due(s, m.thread) != [] {
          AnswersToMore(s.answers, Due(s, m.thread)[0], t);
          assert Due(s, m.thread) == [Due(s, m.thread)[0]];
        }
      }
    }
    hide Inv, Step, CellAt, Released, Published;
  }

  /**
    In every run the answers a thread has got are, one for one and in order, answers to the
    calls it has begun: each call gets exactly one, with its own argument, and only the call
    under way is still owed it.
   */
  lemma {:induction false} OneAnswerPerCall<V>(cap: nat, n: nat, schedule: seq<Move<V>>, t: nat)
    requires cap >= 2 && t < n
    ensures var s := Run(Init<V>(cap, n), schedule);
      Matched(s.threads[t], Begun(Init<V>(cap, n), schedule, t), AnswersTo(s.answers, t))
    decreases |schedule|
  {
    hide Inv, Step, Matched, BegunBy, AnswersTo;
    if schedule == [] {
      NothingBegun<V>(cap, n, t);
    } else {
      var last := |schedule| - 1;
      var before := Run(Init<V>(cap, n), schedule[..last]);
      OneAnswerPerCall(cap, n, schedule[..last], t);
      InitInv<V>(cap, n);
      RunKeepsInv(Init<V>(cap, n), schedule[..last]);
      if schedule[last].thread == t {
        OwnStepMatches(before, schedule[last], Begun(Init<V>(cap, n), schedule[..last], t));
      } else {
        OtherStepMatches(before, schedule[last], t);
        NotBegun(before, schedule[last], t);
        var calls := Begun(Init<V>(cap, n), schedule[..last], t);
        assert calls + [] == calls;
      }
    }
  }

  lemma NothingBegun<V>(cap: nat, n: nat, t: nat)
    requires cap >= 2 && t < n
    ensures var s := Run(Init<V>(cap, n), []); Matched(s.threads[t], Begun(Init<V>(cap, n), [], t), AnswersTo(s.answers, t))
  {
  }

  lemma NotBegun<V>(s: State<V>, m: Move<V>, t: nat)
    requires t < |s.threads| && m.thread != t
    ensures BegunBy(s, m, t) == []
  {
  }

  // ---------------------------------------------------------------- and takes a bounded number of steps

  /** Steps left to the end of the call, if no pass over the loop fails. */
  function Left<V>(pc: Pc<V>): nat {
    match pc
    case Idle => 0
    case EnqLoadTail(_) => 5
    case EnqLoadSeq(_, _) => 4
    case EnqCas(_, _) => 3
    case EnqStoreVal(_, _) => 2
    case EnqStoreSeq(_, _) => 1
    case DeqLoadHead => 6
    case DeqLoadSeq(_) => 5
    case DeqCas(_) => 4
    case DeqLoadVal(_) => 3
    case DeqStoreNil(_, _) => 2
    case DeqStoreSeq(_, _) => 1
  }

  predicate RetriesEither<V>(s: State<V>, t: nat)
    requires |s.cells| >= 1
  {
    Retries(s, t, Tail) || Retries(s, t, Head)
  }

  predicate WinsEither<V>(s: State<V>, t: nat) {
    Wins(s, t, Tail) || Wins(s, t, Head)
  }

  /** Before its CAS: it has yet to win. */
  predicate Open<V>(pc: Pc<V>) {
    !pc.Idle? && !WriterState(pc) && !ReaderState(pc)
  }

  lemma RetriesAreSeparate<V>(s: State<V>, t: nat)
    requires |s.cells| >= 1
    ensures !(Retries(s, t, Tail) && Retries(s, t, Head)) && !(Wins(s, t, Tail) && Wins(s, t, Head))
  {
    hide CellAt, Slot, Step;
  }

  /** Every step of a call brings it nearer to its end, except that a retry sets it back. */
  lemma StepsTowardsEnd<V>(s: State<V>, m: Move<V>)
    requires |s.cells| >= 1 && m.thread < |s.threads| && !s.threads[m.thread].Idle?
    ensures var pc, t := s.threads[m.thread], Step(s, m);
      m.thread < |t.threads| && Left(t.threads[m.thread]) + 1 <= Left(pc) + if RetriesEither(s, m.thread) then 3 else 0
  {
    hide CellAt, Slot, SetCell;
    var pc := s.threads[m.thread];
    if WriterState(pc) || ReaderState(pc) { OwnerStep(s, m); }
  }

  lemma OwnerStep<V>(s: State<V>, m: Move<V>)
    requires |s.cells| >= 1 && m.thread < |s.threads| && (WriterState(s.threads[m.thread]) || ReaderState(s.threads[m.thread]))
    ensures var pc, t := s.threads[m.thread], Step(s, m);
      m.thread < |t.threads| && Left(t.threads[m.thread]) + 1 == Left(pc) && !Open(t.threads[m.thread])
  {
    hide CellAt, Slot;
  }

  /** A call wins at most once: after that it is past its CAS. */
  lemma WinsOnce<V>(s: State<V>, m: Move<V>)
    requires |s.cells| >= 1 && m.thread < |s.threads|
    ensures var pc, t := s.threads[m.thread], Step(s, m);
      && m.thread < |t.threads|
      && (WinsEither(s, m.thread) ==> Open(pc) && !Open(t.threads[m.thread]))
      && (Open(t.threads[m.thread]) ==> Open(pc) || (pc.Idle? && m.call.Some?))
  {
    hide CellAt, Slot, SetCell;
    var pc := s.threads[m.thread];
    if WriterState(pc) || ReaderState(pc) { OwnerStep(s, m); }
  }

  /** The steps thread t has taken inside its calls. */
  function StepsBy<V>(s: State<V>, schedule: seq<Move<V>>, t: nat): nat
    requires |s.cells| >= 1 && t < |s.threads|
    decreases |schedule|
  {
    if schedule == [] then 0
    else
      var last := |schedule| - 1;
      StepsBy(s, schedule[..last], t)
      + if schedule[last].thread == t && !Run(s, schedule[..last]).threads[t].Idle? then 1 else 0
  }

  ghost predicate Paid<V>(s0: State<V>, schedule: seq<Move<V>>, t: nat)
    requires |s0.cells| >= 1 && t < |s0.threads|
  {
    var pc := Run(s0, schedule).threads[t];
    && StepsBy(s0, schedule, t) + Left(pc)
         <= 6 * |Begun(s0, schedule, t)| + 3 * (RetriesBy(s0, schedule, t, Tail) + RetriesBy(s0, schedule, t, Head))
    && WinsBy(s0, schedule, t, Tail) + WinsBy(s0, schedule, t, Head) + (if Open(pc) then 1 else 0) <= |Begun(s0, schedule, t)|
  }

  /** A step of t is paid for by a call it begins, or by a retry. */
  lemma StepPays<V>(s: State<V>, m: Move<V>, t: nat)
    requires Inv(s) && t < |s.threads|
    ensures var s' := Step(s, m); var mine := m.thread == t;
      && t < |s'.threads|
      && (if mine && !s.threads[t].Idle? then 1 else 0) + Left(s'.threads[t])
           <= Left(s.threads[t]) + 6 * |BegunBy(s, m, t)|
              + 3 * ((if mine && Retries(s, t, Tail) then 1 else 0) + (if mine && Retries(s, t, Head) then 1 else 0))
      && (if mine && Wins(s, t, Tail) then 1 else 0) + (if mine && Wins(s, t, Head) then 1 else 0) + (if Open(s'.threads[t]) then 1 else 0)
           <= (if Open(s.threads[t]) then 1 else 0) + |BegunBy(s, m, t)|
  {
    hide Inv, Step, Wins, Retries, CellAt;
    assert |s.cells| >= 2 by { CellsOf(s); }
    if m.thread == t {
      RetriesAreSeparate(s, t);
      WinsOnce(s, m);
      if s.threads[t].Idle? { CallBegins(s, m); } else { StepsTowardsEnd(s, m); }
    } else {
      OthersStand(s, m);
    }
  }

  lemma CellsOf<V>(s: State<V>)
    requires Inv(s)
    ensures |s.cells| >= 2
  {
  }

  lemma {:induction false} ThreadIsPaid<V>(s0: State<V>, schedule: seq<Move<V>>, t: nat)
    requires Inv(s0) && t < |s0.threads| && s0.threads[t].Idle?
    ensures Paid(s0, schedule, t)
    decreases |schedule|
  {
    CellsOf(s0);
    hide Inv, Step, BegunBy, Wins, Retries, Open, Left;
    if schedule == [] {
      IdleIsPaid(s0.threads[t]);
    } else {
      var last := |schedule| - 1;
      ThreadIsPaid(s0, schedule[..last], t);
      RunKeepsInv(s0, schedule[..last]);
      StepPays(Run(s0, schedule[..last]), schedule[last], t);
    }
  }

  lemma IdleIsPaid<V>(pc: Pc<V>)
    requires pc.Idle?
    ensures Left(pc) == 0 && !Open(pc)
  {
  }

  /** Over threads 0..k. */
  function TotalSteps<V>(s: State<V>, schedule: seq<Move<V>>, k: nat): nat
    requires |s.cells| >= 1 && k <= |s.threads|
  {
    if k == 0 then 0 else TotalSteps(s, schedule, k - 1) + StepsBy(s, schedule, k - 1)
  }

  function TotalCalls<V>(s: State<V>, schedule: seq<Move<V>>, k: nat): nat
    requires |s.cells| >= 1 && k <= |s.threads|
  {
    if k == 0 then 0 else TotalCalls(s, schedule, k - 1) + |Begun(s, schedule, k - 1)|
  }

  lemma {:induction false} AllArePaid<V>(s0: State<V>, schedule: seq<Move<V>>, k: nat)
    requires Inv(s0) && |s0.cells| >= 1 && k <= |s0.threads| && forall t :: 0 <= t < |s0.threads| ==> s0.threads[t].Idle?
    ensures TotalSteps(s0, schedule, k)
      <= 6 * TotalCalls(s0, schedule, k) + 3 * (TotalRetries(s0, schedule, k, Tail) + TotalRetries(s0, schedule, k, Head))
    ensures TotalWins(s0, schedule, k, Tail) + TotalWins(s0, schedule, k, Head) <= TotalCalls(s0, schedule, k)
  {
    hide Inv, StepsBy, Begun, RetriesBy, WinsBy, Run;
    if k > 0 {
      AllArePaid(s0, schedule, k - 1);
      ThreadIsPaid(s0, schedule, k - 1);
    }
  }

  /** Lock freedom, counted: in any run of n threads, c calls take at most 3 * (n + 1) * c steps together. */
  lemma CallsTakeBoundedWork<V>(cap: nat, n: nat, schedule: seq<Move<V>>)
    requires cap >= 2 && n >= 1
    ensures TotalSteps(Init(cap, n), schedule, n) <= 3 * (n + 1) * TotalCalls(Init(cap, n), schedule, n)
  {
    var s0 := Init<V>(cap, n);
    InitInv<V>(cap, n);
    AllArePaid(s0, schedule, n);
    RetriesAreBounded<V>(cap, n, schedule, Tail);
    RetriesAreBounded<V>(cap, n, schedule, Head);
    hide Inv, TotalSteps, TotalCalls, TotalRetries, TotalWins, Init;
    var calls, tails, heads := TotalCalls(s0, schedule, n), TotalWins(s0, schedule, n, Tail), TotalWins(s0, schedule, n, Head);
    Amortized(n, calls, tails, heads);
  }

  lemma Amortized(n: nat, calls: nat, tails: nat, heads: nat)
    requires n >= 1 && tails + heads <= calls
    ensures 6 * calls + 3 * ((n - 1) * tails + (n - 1) * heads) <= 3 * (n + 1) * calls
  {
    MulMono(tails + heads, calls, n - 1);
    MulDistributes(tails, heads, n - 1);
    MulDistributes(3 * (n - 1), 6, calls);
    assert 3 * (n - 1) + 6 == 3 * (n + 1);
    assert (3 * (n - 1)) * calls == 3 * (calls * (n - 1));
  }
}
