/** What the ring promises its callers, for every interleaving of any number of threads. */
module RingTheorems {
  import opened Options
  import opened Slots
  import opened RingSteps
  import opened Arithmetic
  import Words

  /** The abstract queue: what has been claimed by enqueues and not yet by dequeues. */
  ghost function Queue<V>(s: State<V>): seq<V>
    requires Inv(s)
  {
    s.claimed[s.head..s.tail]
  }

  /** The winner of the k-th head CAS gets back exactly what the winner of the k-th tail CAS stored. */
  lemma EveryRunIsFifo<V>(cap: nat, n: nat, schedule: seq<Move<V>>)
    requires cap >= 2
    ensures var s := Run(Init(cap, n), schedule);
      && s.head <= s.tail <= s.head + cap
      && |s.claimed| == s.tail
      && forall k :: k in s.returned ==> k < s.head && s.returned[k] == Some(s.claimed[k])
  {
    InitInv<V>(cap, n);
    RunKeepsInv(Init(cap, n), schedule);
  }

  /** A dequeue that completes is the first to hand back its position. */
  lemma NeverReturnedTwice<V>(s: State<V>, m: Move<V>)
    requires Inv(s) && m.thread < |s.threads| && s.threads[m.thread].DeqStoreSeq?
    ensures var pos := s.threads[m.thread].pos;
      && pos !in s.returned
      && pos < |s.claimed|
      && Step(s, m).returned == s.returned[pos := Some(s.claimed[pos])]
  {
    assert ThreadOk(s, s.threads[m.thread]);
  }

  /** Once every call has returned, what went in is what came out followed by what is still held. */
  lemma QuietRunLosesNothing<V>(cap: nat, n: nat, schedule: seq<Move<V>>)
    requires cap >= 2
    requires forall t :: 0 <= t < n ==> Run(Init<V>(cap, n), schedule).threads[t].Idle?
    ensures var s := Run(Init<V>(cap, n), schedule);
      && s.returned == (map k: nat | k < s.head && k < |s.claimed| :: Some(s.claimed[k]))
      && (forall p :: s.head <= p < s.tail ==> p < |s.claimed| && CellAt(s, p) == Cell(p + 1, Some(s.claimed[p])))
      && (forall p :: s.tail <= p < s.head + cap ==> CellAt(s, p).sq == p)
  {
    InitInv<V>(cap, n);
    RunKeepsInv(Init<V>(cap, n), schedule);
    var s := Run(Init<V>(cap, n), schedule);
    forall k: nat | k < s.head ensures k in s.returned { assert !HasReader(s, k); }
    forall p | s.head <= p < s.tail ensures CellAt(s, p) == Cell(p + 1, Some(s.claimed[p])) {
      assert HeldOk(s, p) && !HasWriter(s, p);
    }
    forall p | s.tail <= p < s.head + cap ensures CellAt(s, p).sq == p {
      assert OpenOk(s, p) && (p >= cap ==> !HasReader(s, p - cap));
    }
  }

  // ---------------------------------------------------------------- one atomic queue

  datatype Effect<+V> = Silent | Put(v: V) | Take

  /** Each access acts on the abstract queue all at once, at its CAS, or not at all. */
  function EffectOf<V>(s: State<V>, t: nat): Effect<V>
    requires t < |s.threads|
  {
    match s.threads[t]
    case EnqCas(v, pos) => if s.tail == pos then Put(v) else Silent
    case DeqCas(pos) => if s.head == pos then Take else Silent
    case _ => Silent
  }

  lemma StepActsOnQueue<V>(s: State<V>, m: Move<V>)
    requires Inv(s) && m.thread < |s.threads|
    ensures Inv(Step(s, m))
    ensures match EffectOf(s, m.thread)
      case Silent => Queue(Step(s, m)) == Queue(s)
      case Put(v) => |Queue(s)| < |s.cells| && Queue(Step(s, m)) == Queue(s) + [v]
      case Take => Queue(s) != [] && Queue(Step(s, m)) == Queue(s)[1..]
  {
    StepKeepsInv(s, m);
    match EffectOf(s, m.thread) {
      case Silent =>
      case Put(v) => TailIsReady(s, m.thread);
      case Take => HeadIsPublished(s, m.thread);
    }
  }

  // ---------------------------------------------------------------- refusals

  /** Position `q` has been read and its cell handed to the next round. */
  ghost predicate Released<V>(s: State<V>, q: nat)
    requires |s.cells| >= 1
  {
    CellAt(s, q).sq >= q + |s.cells|
  }

  ghost predicate Published<V>(s: State<V>, q: nat)
    requires |s.cells| >= 1
  {
    CellAt(s, q).sq >= q + 1
  }

  /** A position older than `tail` always shows a sequence number at least its own. */
  lemma {:induction false} ClaimedPositionsShow<V>(s: State<V>, pos: nat)
    requires Inv(s) && pos < s.tail
    ensures CellAt(s, pos).sq >= pos
    ensures pos < s.head ==> CellAt(s, pos).sq >= pos + 1
    decreases s.tail - pos
  {
    var cap := |s.cells|;
    if pos >= s.head {
      assert HeldOk(s, pos);
    } else {
      assert CellAt(s, pos + cap) == CellAt(s, pos);
      if pos + cap < s.tail {
        ClaimedPositionsShow(s, pos + cap);
      } else {
        assert OpenOk(s, pos + cap);
      }
    }
  }

  lemma EnqueueSeesOneRoundBack<V>(s: State<V>, t: nat)
    requires Inv(s) && t < |s.threads| && s.threads[t].EnqLoadSeq?
    ensures var pos := s.threads[t].pos; var cap := |s.cells|;
      CellAt(s, pos).sq < pos <==> pos == s.tail && pos >= cap && !Released(s, pos - cap)
  {
    var pos, cap := s.threads[t].pos, |s.cells|;
    assert ThreadOk(s, s.threads[t]);
    if pos >= cap { assert CellAt(s, pos) == CellAt(s, pos - cap); }
    if pos < s.tail { ClaimedPositionsShow(s, pos); }
    if pos == s.tail < s.head + cap { assert OpenOk(s, pos); }
    if pos == s.tail == s.head + cap { assert HeldOk(s, s.head); }
  }

  lemma DequeueSeesUnpublished<V>(s: State<V>, t: nat)
    requires Inv(s) && t < |s.threads| && s.threads[t].DeqLoadSeq?
    ensures var pos := s.threads[t].pos;
      CellAt(s, pos).sq < pos + 1 <==> pos == s.head && !Published(s, pos)
  {
    assert ThreadOk(s, s.threads[t]);
    if s.threads[t].pos < s.head { ClaimedPositionsShow(s, s.threads[t].pos); }
  }

  /** About to load a number that shows its tail current and the cell one round back still in use. */
  ghost predicate MeetsBusyCell<V>(s: State<V>, pc: Pc<V>)
    requires |s.cells| >= 1
  {
    pc.EnqLoadSeq? && pc.pos == s.tail && pc.pos >= |s.cells| && !Released(s, pc.pos - |s.cells|)
  }

  /** About to load a number that shows its head current and that position unpublished. */
  ghost predicate MeetsNothing<V>(s: State<V>, pc: Pc<V>)
    requires |s.cells| >= 1
  {
    pc.DeqLoadSeq? && pc.pos == s.head && !Published(s, pc.pos)
  }

  /** What the next step of thread t returns, if it returns. */
  ghost function Due<V>(s: State<V>, t: nat): seq<Reply<V>>
    requires |s.cells| >= 1 && t < |s.threads|
  {
    var pc := s.threads[t];
    if MeetsBusyCell(s, pc) then [Reply(t, Full(pc.v))]
    else if pc.EnqStoreSeq? then [Reply(t, Accepted(pc.v))]
    else if MeetsNothing(s, pc) then [Reply(t, Nothing)]
    else if pc.DeqStoreSeq? then [Reply(t, Got(pc.got))]
    else []
  }

  lemma OneMore<A>(a: seq<A>, x: seq<A>, y: A)
    ensures a + x == a + [y] <==> x == [y]
  {
    assert (a + x)[|a|..] == x && (a + [y])[|a|..] == [y];
  }

  /** Of all steps in a call, these and no others make it return, with these answers. */
  lemma CallReturnsExactly<V>(s: State<V>, m: Move<V>)
    requires Inv(s) && m.thread < |s.threads| && !s.threads[m.thread].Idle?
    ensures var pc, t := s.threads[m.thread], Step(s, m);
      && m.thread < |t.threads|
      && (t.threads[m.thread].Idle? <==> MeetsBusyCell(s, pc) || pc.EnqStoreSeq? || MeetsNothing(s, pc) || pc.DeqStoreSeq?)
      && t.answers == s.answers + Due(s, m.thread)
  {
    var pc := s.threads[m.thread];
    if pc.EnqLoadSeq? { EnqueueSeesOneRoundBack(s, m.thread); }
    if pc.DeqLoadSeq? { DequeueSeesUnpublished(s, m.thread); }
    hide Inv, CellAt, Released, Published;
  }

  /** Enqueue answers false exactly in the step that finds its tail current and the cell one round back still in use. */
  lemma EnqueueRefusalIsExact<V>(s: State<V>, m: Move<V>, v: V)
    requires Inv(s) && m.thread < |s.threads|
    ensures Step(s, m).answers == s.answers + [Reply(m.thread, Full(v))] <==>
      MeetsBusyCell(s, s.threads[m.thread]) && s.threads[m.thread].v == v
  {
    if !s.threads[m.thread].Idle? { CallReturnsExactly(s, m); }
    OneMore(s.answers, Due(s, m.thread), Reply(m.thread, Full(v)));
    hide Inv, Released, Published;
  }

  /** Dequeue answers nil exactly in the step that finds its head current and that position unpublished. */
  lemma DequeueRefusalIsExact<V>(s: State<V>, m: Move<V>)
    requires Inv(s) && m.thread < |s.threads|
    ensures Step(s, m).answers == s.answers + [Reply(m.thread, Nothing)] <==> MeetsNothing(s, s.threads[m.thread])
  {
    if !s.threads[m.thread].Idle? { CallReturnsExactly(s, m); }
    OneMore(s.answers, Due(s, m.thread), Reply(m.thread, Nothing));
    hide Inv, Released, Published;
  }

  /** No thread but `t` is between its CAS and its final store. */
  ghost predicate Undisturbed<V>(s: State<V>, t: nat) {
    forall u :: 0 <= u < |s.threads| && u != t ==> !WriterState(s.threads[u]) && !ReaderState(s.threads[u])
  }

  /** With nothing else in flight, false means exactly full. */
  lemma UndisturbedEnqueueRefusalMeansFull<V>(s: State<V>, m: Move<V>)
    requires Inv(s) && m.thread < |s.threads| && s.threads[m.thread].EnqLoadSeq? && Undisturbed(s, m.thread)
    ensures Step(s, m).answers == s.answers + [Reply(m.thread, Full(s.threads[m.thread].v))]
      <==> s.threads[m.thread].pos == s.tail && |Queue(s)| == |s.cells|
  {
    var pos, cap := s.threads[m.thread].pos, |s.cells|;
    CallReturnsExactly(s, m);
    if pos == s.tail < s.head + cap {
      assert OpenOk(s, pos) && (pos >= cap ==> !HasReader(s, pos - cap));
    }
    if pos >= cap { assert CellAt(s, pos) == CellAt(s, pos - cap); }
    if pos == s.tail == s.head + cap {
      assert HeldOk(s, s.head);
    }
    hide Step;
  }

  /** With nothing else in flight, nil means exactly empty. */
  lemma UndisturbedDequeueRefusalMeansEmpty<V>(s: State<V>, m: Move<V>)
    requires Inv(s) && m.thread < |s.threads| && s.threads[m.thread].DeqLoadSeq? && Undisturbed(s, m.thread)
    ensures Step(s, m).answers == s.answers + [Reply(m.thread, Nothing)]
      <==> s.threads[m.thread].pos == s.head && Queue(s) == []
  {
    CallReturnsExactly(s, m);
    if s.head < s.tail {
      assert HeldOk(s, s.head) && !HasWriter(s, s.head);
    } else {
      assert OpenOk(s, s.head);
    }
    hide Step;
  }

  /** No cell is ever numbered beyond one round past head. */
  lemma {:induction false} NumbersAreBounded<V>(s: State<V>, pos: nat)
    requires Inv(s) && pos < s.head + |s.cells|
    ensures CellAt(s, pos).sq <= s.head + |s.cells|
    decreases s.head + |s.cells| - pos
  {
    if pos < s.head {
      assert CellAt(s, pos + |s.cells|) == CellAt(s, pos);
      NumbersAreBounded(s, pos + |s.cells|);
    } else if pos < s.tail {
      assert HeldOk(s, pos);
    } else {
      assert OpenOk(s, pos);
    }
  }

  lemma NumberInRange<V>(s: State<V>, pos: nat)
    requires Inv(s) && pos <= s.tail
    ensures CellAt(s, pos).sq <= s.head + |s.cells| && s.head <= s.tail
  {
    if pos < s.head + |s.cells| {
      NumbersAreBounded(s, pos);
    } else {
      assert CellAt(s, pos) == CellAt(s, s.head);
      NumbersAreBounded(s, s.head);
    }
  }

  // ---------------------------------------------------------------- lock freedom, counted

  datatype Index = Head | Tail

  function At<V>(s: State<V>, ix: Index): nat {
    if ix == Head then s.head else s.tail
  }

  lemma NumberAtLeast<V>(s: State<V>, pos: nat)
    requires Inv(s) && pos <= s.tail
    ensures CellAt(s, pos).sq + |s.cells| >= pos
    ensures pos < s.tail ==> CellAt(s, pos).sq >= pos
  {
    if pos < s.tail {
      ClaimedPositionsShow(s, pos);
    } else if s.tail < s.head + |s.cells| {
      assert OpenOk(s, pos);
    } else {
      assert CellAt(s, pos) == CellAt(s, s.head) && HeldOk(s, s.head);
    }
  }

  /**
    However long the ring has been running and however often its counters have wrapped: as
    long as a thread's copy of an index is less than 2^63 - capacity behind, the wrapping
    words of the source decide every branch as the unbounded counters do.
   */
  lemma WrappingCountersAgree<V>(s: State<V>, ix: Index, pos: nat)
    requires Inv(s) && pos <= At(s, ix) && At(s, ix) - pos + |s.cells| < Words.HALF
    ensures ix == Tail ==> Words.Diff(Words.Wrap(CellAt(s, pos).sq), Words.Wrap(pos)) == CellAt(s, pos).sq - pos
    ensures ix == Head ==> Words.Diff(Words.Wrap(CellAt(s, pos).sq), Words.Wrap(pos + 1)) == CellAt(s, pos).sq - (pos + 1)
    ensures Words.Wrap(At(s, ix)) == Words.Wrap(pos) <==> At(s, ix) == pos
  {
    assert s.head <= s.tail;
    NumberInRange(s, pos);
    NumberAtLeast(s, pos);
    hide Inv, Words.Wrap, Words.Diff, Words.ToInt64;
    Words.DiffIsDistance(CellAt(s, pos).sq, if ix == Tail then pos else pos + 1);
    Words.DiffIsDistance(At(s, ix), pos);
    Words.DiffIsDistance(pos, pos);
  }

  /** The copy of the index a thread is holding, if any. */
  function Holding<V>(pc: Pc<V>, ix: Index): Option<nat> {
    if ix == Tail && (pc.EnqLoadSeq? || pc.EnqCas?) then Some(pc.pos)
    else if ix == Head && (pc.DeqLoadSeq? || pc.DeqCas?) then Some(pc.pos)
    else None
  }

  /** At the top of the loop on that index. */
  predicate AtTop<V>(pc: Pc<V>, ix: Index) {
    if ix == Tail then pc.EnqLoadTail? else pc.DeqLoadHead?
  }

  /** The next step of `t` sends it back to the top of its loop. */
  predicate Retries<V>(s: State<V>, t: nat, ix: Index)
    requires |s.cells| >= 1
  {
    t < |s.threads| && Holding(s.threads[t], ix).Some? && AtTop(Step(s, Move(t, None)).threads[t], ix)
  }

  /** The next step of `t` is a successful CAS. */
  predicate Wins<V>(s: State<V>, t: nat, ix: Index) {
    t < |s.threads| && !EffectOf(s, t).Silent? && (if ix == Tail then EffectOf(s, t).Put? else EffectOf(s, t).Take?)
  }

  lemma IndexCellsNotAhead<V>(s: State<V>)
    requires Inv(s)
    ensures CellAt(s, s.tail).sq <= s.tail && CellAt(s, s.head).sq <= s.head + 1
  {
    if s.head < s.tail { assert HeldOk(s, s.head); } else { assert OpenOk(s, s.head); }
    if s.tail < s.head + |s.cells| { assert OpenOk(s, s.tail); } else { assert CellAt(s, s.tail) == CellAt(s, s.head); }
  }

  /** A position already taken is still being read, or its cell has gone on by a round. */
  lemma {:induction false} TakenPositionsShow<V>(s: State<V>, pos: nat)
    requires Inv(s) && pos < s.head
    ensures CellAt(s, pos).sq == pos + 1 || CellAt(s, pos).sq >= pos + |s.cells|
    decreases s.head - pos
  {
    var cap := |s.cells|;
    assert CellAt(s, pos + cap) == CellAt(s, pos);
    if pos + cap < s.head {
      TakenPositionsShow(s, pos + cap);
    } else if pos + cap < s.tail {
      assert HeldOk(s, pos + cap);
    } else {
      assert OpenOk(s, pos + cap);
    }
  }

  /**
    The next step goes back to the top of the loop exactly if the index has moved past the
    thread's copy and the thread can see it: at its CAS at once, while loading the cell's
    number only once that position is published, or released.
   */
  lemma RetryIsExact<V>(s: State<V>, t: nat, ix: Index)
    requires Inv(s) && t < |s.threads| && Holding(s.threads[t], ix).Some?
    ensures var pc := s.threads[t];
      Retries(s, t, ix) <==>
        pc.pos < At(s, ix) && (pc.EnqLoadSeq? ==> Published(s, pc.pos)) && (pc.DeqLoadSeq? ==> Released(s, pc.pos))
  {
    var pc := s.threads[t];
    assert ThreadOk(s, pc);
    IndexCellsNotAhead(s);
    if pc.EnqLoadSeq? && pc.pos < s.tail { ClaimedPositionsShow(s, pc.pos); }
    if pc.DeqLoadSeq? && pc.pos < s.head { TakenPositionsShow(s, pc.pos); }
    hide Inv, CellAt, Slot;
  }

  /** Every retry means someone else has moved the index since this thread read it. */
  lemma RetryMeansProgress<V>(s: State<V>, t: nat, ix: Index)
    requires Inv(s) && Retries(s, t, ix)
    ensures Holding(s.threads[t], ix).Some? && Holding(s.threads[t], ix).value < At(s, ix)
  {
    RetryIsExact(s, t, ix);
  }

  /** How often thread `t` retried on, or won, an index during a run. */
  function RetriesBy<V>(s: State<V>, schedule: seq<Move<V>>, t: nat, ix: Index): nat
    requires |s.cells| >= 1
    decreases |schedule|
  {
    if schedule == [] then 0
    else
      var last := |schedule| - 1;
      RetriesBy(s, schedule[..last], t, ix)
      + if schedule[last].thread == t && Retries(Run(s, schedule[..last]), t, ix) then 1 else 0
  }

  function WinsBy<V>(s: State<V>, schedule: seq<Move<V>>, t: nat, ix: Index): nat
    requires |s.cells| >= 1
    decreases |schedule|
  {
    if schedule == [] then 0
    else
      var last := |schedule| - 1;
      WinsBy(s, schedule[..last], t, ix)
      + if schedule[last].thread == t && Wins(Run(s, schedule[..last]), t, ix) then 1 else 0
  }

  /** The index as thread `t` knows it: its own copy while it holds one. */
  function Known<V>(s: State<V>, t: nat, ix: Index): nat
    requires t < |s.threads|
  {
    match Holding(s.threads[t], ix)
    case Some(pos) => pos
    case None => At(s, ix)
  }

  lemma KnownIsBehind<V>(s: State<V>, t: nat, ix: Index)
    requires Inv(s) && t < |s.threads|
    ensures Known(s, t, ix) <= At(s, ix)
  {
    assert ThreadOk(s, s.threads[t]);
  }

  lemma IndexMovesOnWins<V>(s: State<V>, m: Move<V>, ix: Index)
    requires |s.cells| >= 1
    ensures At(Step(s, m), ix) == At(s, ix) + if Wins(s, m.thread, ix) then 1 else 0
  {
  }

  lemma OtherStepsKeepKnown<V>(s: State<V>, m: Move<V>, t: nat, ix: Index)
    requires Inv(s) && t < |s.threads| && m.thread != t
    ensures Known(s, t, ix) <= Known(Step(s, m), t, ix)
  {
    assert |s.cells| >= 2;
    hide Inv, Step, Wins;
    IndexMovesOnWins(s, m, ix);
    OthersStand(s, m);
  }

  lemma SizesStand<V>(s: State<V>, m: Move<V>)
    requires |s.cells| >= 1
    ensures |Step(s, m).cells| == |s.cells| && |Step(s, m).threads| == |s.threads|
  {
    hide CellAt, Slot;
  }

  lemma OtherStands<V>(s: State<V>, m: Move<V>, u: nat)
    requires |s.cells| >= 1 && u < |s.threads| && u != m.thread
    ensures u < |Step(s, m).threads| && Step(s, m).threads[u] == s.threads[u]
  {
    hide CellAt, Slot;
  }

  /** A step is a step of its own thread. */
  lemma OthersStand<V>(s: State<V>, m: Move<V>)
    requires |s.cells| >= 1
    ensures |Step(s, m).cells| == |s.cells| && |Step(s, m).threads| == |s.threads|
    ensures forall u :: 0 <= u < |s.threads| && u != m.thread ==> Step(s, m).threads[u] == s.threads[u]
  {
    hide Step;
    SizesStand(s, m);
    forall u | 0 <= u < |s.threads| && u != m.thread ensures Step(s, m).threads[u] == s.threads[u] { OtherStands(s, m, u); }
  }

  /** A copy once taken is kept until the call is back at the top, or past its CAS. */
  lemma CopyIsKept<V>(s: State<V>, t: nat, call: Option<Call<V>>, ix: Index)
    requires |s.cells| >= 1 && t < |s.threads|
    ensures |Advance(s, t, call).threads| == |s.threads|
    ensures var pc := Advance(s, t, call).threads[t];
      Holding(pc, ix).Some? ==> Holding(pc, ix) == Holding(s.threads[t], ix) || (Holding(s.threads[t], ix).None? && Holding(pc, ix) == Some(At(s, ix)))
  {
    hide CellAt, Slot, SetCell;
    var pc := s.threads[t];
    if pc.EnqLoadTail? || pc.EnqLoadSeq? || pc.EnqCas? {
    } else if pc.DeqLoadHead? || pc.DeqLoadSeq? || pc.DeqCas? {
    } else {
      NoCopyElsewhere(s, t, call, ix);
    }
  }

  lemma NoCopyElsewhere<V>(s: State<V>, t: nat, call: Option<Call<V>>, ix: Index)
    requires |s.cells| >= 1 && t < |s.threads|
    requires var pc := s.threads[t]; pc.Idle? || WriterState(pc) || ReaderState(pc)
    ensures |Advance(s, t, call).threads| == |s.threads| && Holding(Advance(s, t, call).threads[t], ix).None?
  {
    hide CellAt, Slot;
  }

  /** A call that holds a copy keeps it, retries, wins or returns. */
  lemma RetryLetsGo<V>(s: State<V>, t: nat, call: Option<Call<V>>, ix: Index)
    requires |s.cells| >= 1 && t < |s.threads| && (Retries(s, t, ix) || Wins(s, t, ix))
    ensures |Advance(s, t, call).threads| == |s.threads| && Holding(Advance(s, t, call).threads[t], ix).None?
  {
    hide CellAt, Slot, SetCell;
    assert s.threads[t].EnqLoadSeq? || s.threads[t].EnqCas? || s.threads[t].DeqLoadSeq? || s.threads[t].DeqCas?;
  }

  lemma OwnStepSpends<V>(s: State<V>, t: nat, call: Option<Call<V>>, ix: Index)
    requires Inv(s) && t < |s.threads|
    ensures |Advance(s, t, call).threads| == |s.threads|
    ensures Known(s, t, ix) + (if Retries(s, t, ix) || Wins(s, t, ix) then 1 else 0) <= Known(Advance(s, t, call), t, ix)
  {
    IndexMovesOnWins(s, Move(t, call), ix);
    KnownIsBehind(s, t, ix);
    CopyIsKept(s, t, call, ix);
    if Retries(s, t, ix) { RetryMeansProgress(s, t, ix); }
    if Retries(s, t, ix) || Wins(s, t, ix) { RetryLetsGo(s, t, call, ix); }
    if Wins(s, t, ix) { assert Known(s, t, ix) == At(s, ix); }
    hide Inv, Advance, Retries, Wins, CellAt, Slot;
  }

  lemma StepBudget<V>(s: State<V>, m: Move<V>, t: nat, ix: Index)
    requires Inv(s) && t < |s.threads|
    ensures var spent := if m.thread == t && (Retries(s, t, ix) || Wins(s, t, ix)) then 1 else 0;
      Known(s, t, ix) + spent <= Known(Step(s, m), t, ix)
  {
    if m.thread == t { OwnStepSpends(s, t, m.call, ix); } else { OtherStepsKeepKnown(s, m, t, ix); }
  }

  /** A thread's retries and wins together never exceed the index it knows. */
  lemma {:induction false} ThreadBudget<V>(s0: State<V>, schedule: seq<Move<V>>, t: nat, ix: Index)
    requires Inv(s0) && s0.head == s0.tail == 0 && t < |s0.threads| && s0.threads[t].Idle?
    ensures RetriesBy(s0, schedule, t, ix) + WinsBy(s0, schedule, t, ix) <= Known(Run(s0, schedule), t, ix)
    decreases |schedule|
  {
    if schedule != [] {
      var last := |schedule| - 1;
      ThreadBudget(s0, schedule[..last], t, ix);
      RunKeepsInv(s0, schedule[..last]);
      StepBudget(Run(s0, schedule[..last]), schedule[last], t, ix);
    }
  }

  /** Summed over threads 0..n. */
  function TotalRetries<V>(s: State<V>, schedule: seq<Move<V>>, n: nat, ix: Index): nat
    requires |s.cells| >= 1
  {
    if n == 0 then 0 else TotalRetries(s, schedule, n - 1, ix) + RetriesBy(s, schedule, n - 1, ix)
  }

  function TotalWins<V>(s: State<V>, schedule: seq<Move<V>>, n: nat, ix: Index): nat
    requires |s.cells| >= 1
  {
    if n == 0 then 0 else TotalWins(s, schedule, n - 1, ix) + WinsBy(s, schedule, n - 1, ix)
  }

  /** The last step of a schedule adds at most one win, to the thread that took it. */
  lemma {:induction false} TotalWinsStep<V>(s: State<V>, schedule: seq<Move<V>>, n: nat, ix: Index)
    requires |s.cells| >= 1 && schedule != []
    ensures var last := |schedule| - 1;
      TotalWins(s, schedule, n, ix) == TotalWins(s, schedule[..last], n, ix)
        + if schedule[last].thread < n && Wins(Run(s, schedule[..last]), schedule[last].thread, ix) then 1 else 0
  {
    if n > 0 { TotalWinsStep(s, schedule, n - 1, ix); }
  }

  lemma {:induction false} NoWinsAtStart<V>(s: State<V>, n: nat, ix: Index)
    requires |s.cells| >= 1
    ensures TotalWins(s, [], n, ix) == 0
  {
    if n > 0 { NoWinsAtStart(s, n - 1, ix); }
  }

  /** An index counts the successful CASes on it. */
  lemma {:induction false} IndexCountsWins<V>(s0: State<V>, schedule: seq<Move<V>>, ix: Index)
    requires Inv(s0) && s0.head == s0.tail == 0
    ensures TotalWins(s0, schedule, |s0.threads|, ix) == At(Run(s0, schedule), ix)
    decreases |schedule|
  {
    if schedule == [] {
      NoWinsAtStart(s0, |s0.threads|, ix);
    } else {
      var last := |schedule| - 1;
      var before, m := Run(s0, schedule[..last]), schedule[last];
      IndexCountsWins(s0, schedule[..last], ix);
      TotalWinsStep(s0, schedule, |s0.threads|, ix);
      IndexMovesOnWins(before, m, ix);
    }
  }

  lemma {:induction false} TotalBudget<V>(s0: State<V>, schedule: seq<Move<V>>, n: nat, ix: Index)
    requires Inv(s0) && s0.head == s0.tail == 0 && n <= |s0.threads|
    requires forall t :: 0 <= t < |s0.threads| ==> s0.threads[t].Idle?
    ensures TotalRetries(s0, schedule, n, ix) + TotalWins(s0, schedule, n, ix) <= n * At(Run(s0, schedule), ix)
  {
    hide Inv, Run, RetriesBy, WinsBy, Known, At;
    if n > 0 {
      assert s0.threads[n - 1].Idle?;
      TotalBudget(s0, schedule, n - 1, ix);
      ThreadBudget(s0, schedule, n - 1, ix);
      RunKeepsInv(s0, schedule);
      KnownIsBehind(Run(s0, schedule), n - 1, ix);
      MulDistributes(n - 1, 1, At(Run(s0, schedule), ix));
    }
  }

  /** With n threads, retries on an index are at most n - 1 times the successful CASes on it. */
  lemma RetriesAreBounded<V>(cap: nat, n: nat, schedule: seq<Move<V>>, ix: Index)
    requires cap >= 2 && n >= 1
    ensures TotalRetries(Init(cap, n), schedule, n, ix) <= (n - 1) * TotalWins(Init(cap, n), schedule, n, ix)
  {
    var s0 := Init<V>(cap, n);
    InitInv<V>(cap, n);
    TotalBudget(s0, schedule, n, ix);
    IndexCountsWins(s0, schedule, ix);
    hide Inv, Run, TotalRetries, TotalWins;
    MulDistributes(n - 1, 1, TotalWins(s0, schedule, n, ix));
  }

  // ---------------------------------------------------------------- why NewRing never builds capacity 1

  lemma RunOneMore<V>(s: State<V>, schedule: seq<Move<V>>, m: Move<V>)
    requires |s.cells| >= 1
    ensures Run(s, schedule + [m]) == Step(Run(s, schedule), m)
  {
    assert (schedule + [m])[..|schedule|] == schedule;
  }

  lemma {:induction false} RunAppend<V>(s: State<V>, a: seq<Move<V>>, b: seq<Move<V>>)
    requires |s.cells| >= 1
    ensures Run(s, a + b) == Run(Run(s, a), b)
    decreases |b|
  {
    if b == [] {
      assert a + b == a;
    } else {
      var last := |b| - 1;
      RunAppend(s, a, b[..last]);
      assert a + b == (a + b[..last]) + [b[last]];
      RunOneMore(s, a + b[..last], b[last]);
    }
  }

  /** `m` taken k times in a row. */
  function Repeat<V>(s: State<V>, m: Move<V>, k: nat): (s': State<V>)
    requires |s.cells| >= 1
    ensures |s'.cells| == |s.cells|
    decreases k
  {
    if k == 0 then s else Repeat(Step(s, m), m, k - 1)
  }

  lemma {:induction false} RepeatIsRun<V>(s: State<V>, m: Move<V>, k: nat)
    requires |s.cells| >= 1
    ensures Repeat(s, m, k) == Run(s, seq(k, _ => m))
    decreases k
  {
    if k > 0 {
      RepeatIsRun(Step(s, m), m, k - 1);
      assert seq(k, _ => m) == [m] + seq(k - 1, _ => m);
      RunAppend(s, [m], seq(k - 1, _ => m));
      RunOneMore(s, [], m);
      assert [] + [m] == [m];
    }
  }

  /** The six accesses of an undisturbed Enqueue on a one-cell ring. */
  lemma OneCellEnqueue<V>(s: State<V>, v: V)
    requires |s.cells| == 1 && s.threads == [Idle] && s.cells[0].sq == s.tail && s.tail <= 1
    ensures Repeat(s, Move(0, Some(Enqueue(v))), 6)
         == s.(cells := [Cell(s.tail + 1, Some(v))], tail := s.tail + 1, claimed := s.claimed + [v], answers := s.answers + [Reply(0, Accepted(v))])
  {
    var m := Move(0, Some(Enqueue(v)));
    OneCellLoads(s, v);
    var s4 := s.(threads := [EnqStoreVal(v, s.tail)], tail := s.tail + 1, claimed := s.claimed + [v]);
    RepeatSplits(s, m, 4, 2);
    OneCellStores(s4, v);
  }

  lemma {:induction false} RepeatSplits<V>(s: State<V>, m: Move<V>, j: nat, k: nat)
    requires |s.cells| >= 1
    ensures Repeat(s, m, j + k) == Repeat(Repeat(s, m, j), m, k)
    decreases j
  {
    if j > 0 { RepeatSplits(Step(s, m), m, j - 1, k); }
  }

  lemma OneCellLoads<V>(s: State<V>, v: V)
    requires |s.cells| == 1 && s.threads == [Idle] && s.cells[0].sq == s.tail && s.tail <= 1
    ensures Repeat(s, Move(0, Some(Enqueue(v))), 4)
         == s.(threads := [EnqStoreVal(v, s.tail)], tail := s.tail + 1, claimed := s.claimed + [v])
  {
    var m := Move(0, Some(Enqueue(v)));
    var s2 := s.(threads := [EnqLoadSeq(v, s.tail)]);
    var s3 := s.(threads := [EnqCas(v, s.tail)]);
    assert Slot(s.tail, 1) == 0;
    assert Step(Step(s, m), m) == s2;
    assert Step(s2, m) == s3;
    RepeatSplits(s, m, 2, 2);
    assert Repeat(s2, m, 2) == Step(s3, m);
  }

  lemma OneCellStores<V>(s: State<V>, v: V)
    requires |s.cells| == 1 && 1 <= s.tail <= 2 && s.threads == [EnqStoreVal(v, s.tail - 1)] && s.cells[0].sq == s.tail - 1
    ensures Repeat(s, Move(0, Some(Enqueue(v))), 2) == s.(threads := [Idle], cells := [Cell(s.tail, Some(v))], answers := s.answers + [Reply(0, Accepted(v))])
  {
    var m := Move(0, Some(Enqueue(v)));
    var s1 := s.(threads := [EnqStoreSeq(v, s.tail - 1)], cells := [Cell(s.tail - 1, Some(v))]);
    assert Slot(s.tail - 1, 1) == 0;
    assert Step(s, m) == s1;
    assert Step(s1, m) == s.(threads := [Idle], cells := [Cell(s.tail, Some(v))], answers := s.answers + [Reply(0, Accepted(v))]);
    assert Repeat(s, m, 2) == Repeat(s1, m, 1);
    assert Repeat(s1, m, 1) == Step(s1, m);
  }

  /**
    In a one-cell ring a published value looks like a free cell, so a second Enqueue also
    answers true and overwrites the first value. NewRing's minimum of 2 is what prevents this.
   */
  lemma CapacityOneOverwrites<V>(v: V, w: V)
    ensures exists schedule ::
      Run(Init<V>(1, 1), schedule) == State([Cell(2, Some(w))], 0, 2, [Idle], [v, w], map[], [Reply(0, Accepted(v)), Reply(0, Accepted(w))])
  {
    var a, b := Move(0, Some(Enqueue(v))), Move(0, Some(Enqueue(w)));
    OneCellEnqueue(Init<V>(1, 1), v);
    OneCellEnqueue(Repeat(Init<V>(1, 1), a, 6), w);
    RepeatIsRun(Init<V>(1, 1), a, 6);
    RepeatIsRun(Repeat(Init<V>(1, 1), a, 6), b, 6);
    RunAppend(Init<V>(1, 1), seq(6, _ => a), seq(6, _ => b));
  }
}
