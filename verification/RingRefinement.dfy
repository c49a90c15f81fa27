/**
  The ring's many small accesses as one atomic bounded queue: a call of Enqueue or Dequeue is
  decided in a single step, after which its place remains to be published or released. Every
  run of RingSteps is a run of this machine in which each thread gets the same answers; and
  whatever this machine does in one step, a ring inside SegmentedSteps can do in one step.
 */
module RingRefinement {
  import opened Options
  import opened Slots
  import opened RingSteps
  import opened RingCalls
  import R = RingTheorems
  import Segs = SegmentedSteps
  import Words

  /** What has been claimed, how much taken, and which of those places are still being worked on. */
  datatype Atomic<+V> = Atomic(cap: nat, claimed: seq<V>, taken: nat, unpublished: set<nat>, unreleased: set<nat>)

  datatype Event<+V> =
    | Silent
    | Put(v: V)
    | RefusePut(v: V)
    | Publish(pos: nat)
    | Take(v: V)
    | RefuseTake
    | Release(pos: nat)

  ghost predicate CanPut<V>(r: Atomic<V>) {
    |r.claimed| < r.taken + r.cap && (|r.claimed| >= r.cap ==> |r.claimed| - r.cap !in r.unreleased)
  }

  ghost predicate CanTake<V>(r: Atomic<V>) {
    r.taken < |r.claimed| && r.taken !in r.unpublished
  }

  /** Puts and takes are answered by what the queue holds, and a refusal means that it could not be done. */
  ghost predicate Allowed<V>(r: Atomic<V>, e: Event<V>) {
    && (e.Put? ==> CanPut(r))
    && (e.RefusePut? ==> !CanPut(r))
    && (e.Publish? ==> e.pos in r.unpublished)
    && (e.Take? ==> CanTake(r) && e.v == r.claimed[r.taken])
    && (e.RefuseTake? ==> !CanTake(r))
    && (e.Release? ==> e.pos in r.unreleased)
  }

  function After<V>(r: Atomic<V>, e: Event<V>): Atomic<V> {
    match e
    case Silent => r
    case Put(v) => r.(claimed := r.claimed + [v], unpublished := r.unpublished + {|r.claimed|})
    case RefusePut(_) => r
    case Publish(pos) => r.(unpublished := r.unpublished - {pos})
    case Take(_) => r.(taken := r.taken + 1, unreleased := r.unreleased + {r.taken})
    case RefuseTake => r
    case Release(pos) => r.(unreleased := r.unreleased - {pos})
  }

  function AfterAll<V>(r: Atomic<V>, trace: seq<Event<V>>): Atomic<V>
    decreases |trace|
  {
    if trace == [] then r else After(AfterAll(r, trace[..|trace| - 1]), trace[|trace| - 1])
  }

  ghost predicate AllAllowed<V>(r: Atomic<V>, trace: seq<Event<V>>)
    decreases |trace|
  {
    trace == [] ||
    (AllAllowed(r, trace[..|trace| - 1]) && Allowed(AfterAll(r, trace[..|trace| - 1]), trace[|trace| - 1]))
  }

  // ---------------------------------------------------------------- the projection

  function PositionOf<V>(pc: Pc<V>): nat {
    if WriterState(pc) || ReaderState(pc) then pc.pos else 0
  }

  /** What a step of RingSteps has been to the atomic queue, told by what it changed and what it answered. */
  function EventOf<V>(s: State<V>, m: Move<V>): Event<V>
    requires |s.cells| >= 1
  {
    var t := Step(s, m);
    if m.thread >= |s.threads| then Event.Silent
    else if |t.claimed| > |s.claimed| then Event.Put(t.claimed[|s.claimed|])
    else if t.head > s.head && s.head < |s.claimed| then Event.Take(s.claimed[s.head])
    else if |t.answers| > |s.answers| then
      match t.answers[|s.answers|].answer
      case Full(v) => RefusePut(v)
      case Nothing => RefuseTake
      case Accepted(_) => Publish(PositionOf(s.threads[m.thread]))
      case Got(_) => Release(PositionOf(s.threads[m.thread]))
    else Event.Silent
  }

  /** The same, foretold from what the thread is about to do. */
  function Foretold<V>(s: State<V>, m: Move<V>): Event<V>
    requires |s.cells| >= 1
  {
    if m.thread >= |s.threads| then Event.Silent
    else
      match s.threads[m.thread]
      case EnqLoadSeq(v, pos) => if CellAt(s, pos).sq < pos then RefusePut(v) else Event.Silent
      case EnqCas(v, pos) => if s.tail == pos then Event.Put(v) else Event.Silent
      case EnqStoreSeq(_, pos) => Publish(pos)
      case DeqLoadSeq(pos) => if CellAt(s, pos).sq < pos + 1 then RefuseTake else Event.Silent
      case DeqCas(pos) => if s.head == pos && pos < |s.claimed| then Event.Take(s.claimed[pos]) else Event.Silent
      case DeqStoreSeq(pos, _) => Release(pos)
      case _ => Event.Silent
  }

  lemma EventIsForetold<V>(s: State<V>, m: Move<V>)
    requires Inv(s)
    ensures EventOf(s, m) == Foretold(s, m)
  {
    if m.thread < |s.threads| {
      var pc, t := s.threads[m.thread], Step(s, m);
      ClaimedAfter(s, m);
      HeadAfter(s, m);
      CellsOf(s);
      if pc.DeqCas? && s.head == pc.pos { HeadIsPublished(s, m.thread); }
      if pc.Idle? {
        CallBegins(s, m);
      } else {
        R.CallReturnsExactly(s, m);
        if pc.EnqLoadSeq? { R.EnqueueSeesOneRoundBack(s, m.thread); }
        if pc.DeqLoadSeq? { R.DequeueSeesUnpublished(s, m.thread); }
      }
      hide Inv, Step, CellAt, R.Released, R.Published;
    }
  }

  lemma ClaimedAfter<V>(s: State<V>, m: Move<V>)
    requires |s.cells| >= 1 && m.thread < |s.threads|
    ensures var pc := s.threads[m.thread];
      Step(s, m).claimed == if pc.EnqCas? && s.tail == pc.pos then s.claimed + [pc.v] else s.claimed
  {
    hide CellAt, Slot;
  }

  lemma HeadAfter<V>(s: State<V>, m: Move<V>)
    requires |s.cells| >= 1 && m.thread < |s.threads|
    ensures var pc := s.threads[m.thread];
      Step(s, m).head == if pc.DeqCas? && s.head == pc.pos then s.head + 1 else s.head
  {
    hide CellAt, Slot;
  }

  /** The events of a whole run, one for each step. */
  function Trace<V>(s: State<V>, schedule: seq<Move<V>>): (trace: seq<Event<V>>)
    requires |s.cells| >= 1
    ensures |trace| == |schedule|
    decreases |schedule|
  {
    if schedule == [] then []
    else
      var last := |schedule| - 1;
      Trace(s, schedule[..last]) + [EventOf(Run(s, schedule[..last]), schedule[last])]
  }

  ghost predicate Related<V>(s: State<V>, r: Atomic<V>) {
    && |s.cells| == r.cap && s.claimed == r.claimed && s.head == r.taken
    && (forall p: nat :: p in r.unpublished <==> HasWriter(s, p))
    && (forall p: nat :: p in r.unreleased <==> HasReader(s, p))
  }

  function Start<V>(cap: nat): Atomic<V> {
    Atomic(cap, [], 0, {}, {})
  }

  /** A thread steps: writers and readers change only with it. */
  lemma OwnersAfter<V>(s: State<V>, t: State<V>, u: nat)
    requires Exclusive(s) && u < |s.threads| == |t.threads|
    requires forall w :: 0 <= w < |s.threads| && w != u ==> t.threads[w] == s.threads[w]
    ensures forall p: nat :: HasWriter(t, p) <==> ((HasWriter(s, p) && !Writes(s.threads[u], p)) || Writes(t.threads[u], p))
    ensures forall p: nat :: HasReader(t, p) <==> ((HasReader(s, p) && !Reads(s.threads[u], p)) || Reads(t.threads[u], p))
  {
    forall p: nat
      ensures HasWriter(t, p) <==> ((HasWriter(s, p) && !Writes(s.threads[u], p)) || Writes(t.threads[u], p))
      ensures HasReader(t, p) <==> ((HasReader(s, p) && !Reads(s.threads[u], p)) || Reads(t.threads[u], p))
    {
      if w :| 0 <= w < |s.threads| && w != u && (Writes(s.threads[w], p) || Reads(s.threads[w], p)) {
        assert Apart(s.threads[w], s.threads[u]);
        assert Writes(t.threads[w], p) || Reads(t.threads[w], p);
      }
    }
  }

  lemma PutIsAllowed<V>(s: State<V>, t: nat, r: Atomic<V>)
    requires Inv(s) && Related(s, r) && t < |s.threads| && s.threads[t].EnqCas? && s.tail == s.threads[t].pos
    ensures CanPut(r)
  {
    TailIsReady(s, t);
    forall u | 0 <= u < |s.threads| && s.tail >= r.cap ensures !Reads(s.threads[u], s.tail - r.cap) {}
  }

  lemma TakeIsAllowed<V>(s: State<V>, t: nat, r: Atomic<V>)
    requires Inv(s) && Related(s, r) && t < |s.threads| && s.threads[t].DeqCas? && s.head == s.threads[t].pos
    ensures CanTake(r)
  {
    HeadIsPublished(s, t);
    forall u | 0 <= u < |s.threads| ensures !Writes(s.threads[u], s.head) { assert ThreadOk(s, s.threads[u]); }
  }

  lemma PutRefusalIsAllowed<V>(s: State<V>, t: nat, r: Atomic<V>)
    requires Inv(s) && Related(s, r) && t < |s.threads| && s.threads[t].EnqLoadSeq?
    requires CellAt(s, s.threads[t].pos).sq < s.threads[t].pos
    ensures !CanPut(r)
  {
    R.EnqueueSeesOneRoundBack(s, t);
    if s.tail < s.head + r.cap { assert OpenOk(s, s.tail); }
  }

  lemma TakeRefusalIsAllowed<V>(s: State<V>, t: nat, r: Atomic<V>)
    requires Inv(s) && Related(s, r) && t < |s.threads| && s.threads[t].DeqLoadSeq?
    requires CellAt(s, s.threads[t].pos).sq < s.threads[t].pos + 1
    ensures !CanTake(r)
  {
    R.DequeueSeesUnpublished(s, t);
    if s.head < s.tail { assert HeldOk(s, s.head); }
  }

  lemma EventIsAllowed<V>(s: State<V>, m: Move<V>, r: Atomic<V>)
    requires Inv(s) && Related(s, r)
    ensures Allowed(r, Foretold(s, m))
  {
    if m.thread < |s.threads| {
      var t := m.thread;
      var pc := s.threads[t];
      if pc.EnqCas? && s.tail == pc.pos {
        PutIsAllowed(s, t, r);
      } else if pc.DeqCas? && s.head == pc.pos {
        TakeIsAllowed(s, t, r);
      } else if pc.EnqLoadSeq? && CellAt(s, pc.pos).sq < pc.pos {
        PutRefusalIsAllowed(s, t, r);
      } else if pc.DeqLoadSeq? && CellAt(s, pc.pos).sq < pc.pos + 1 {
        TakeRefusalIsAllowed(s, t, r);
      } else if pc.EnqStoreSeq? {
        assert Writes(pc, pc.pos);
      } else if pc.DeqStoreSeq? {
        assert Reads(pc, pc.pos);
      }
    }
  }

  lemma EventKinds<V>(s: State<V>, m: Move<V>)
    requires |s.cells| >= 1 && m.thread < |s.threads|
    ensures var e := Foretold(s, m); var pc := s.threads[m.thread];
      && (e.Put? <==> pc.EnqCas? && s.tail == pc.pos)
      && (e.Put? ==> e.v == pc.v)
      && (e.Take? <==> pc.DeqCas? && s.head == pc.pos && pc.pos < |s.claimed|)
      && (e.Publish? <==> pc.EnqStoreSeq?)
      && (e.Publish? ==> e.pos == pc.pos)
      && (e.Release? <==> pc.DeqStoreSeq?)
      && (e.Release? ==> e.pos == pc.pos)
  {
    hide CellAt, Slot;
  }

  /** The history and the indices after a step, read off its event. */
  lemma ContentsAfter<V>(s: State<V>, m: Move<V>)
    requires |s.cells| >= 1
    requires m.thread < |s.threads| && s.threads[m.thread].DeqCas? && s.head == s.threads[m.thread].pos ==> s.head < |s.claimed|
    ensures var e := Foretold(s, m); var s' := Step(s, m);
      && |s'.cells| == |s.cells| && |s'.threads| == |s.threads|
      && s'.claimed == (if e.Put? then s.claimed + [e.v] else s.claimed)
      && s'.head == (if e.Take? then s.head + 1 else s.head)
  {
    if m.thread < |s.threads| {
      hide Step, Foretold;
      EventKinds(s, m);
      ClaimedAfter(s, m);
      HeadAfter(s, m);
      R.OthersStand(s, m);
    }
  }

  lemma WriterAfter<V>(s: State<V>, m: Move<V>)
    requires |s.cells| >= 1 && m.thread < |s.threads|
    ensures |Step(s, m).threads| == |s.threads|
    ensures var pc, pc' := s.threads[m.thread], Step(s, m).threads[m.thread];
      && (WriterState(pc') <==> (pc.EnqCas? && s.tail == pc.pos) || pc.EnqStoreVal?)
      && (WriterState(pc') ==> pc'.pos == pc.pos && pc'.v == pc.v)
  {
    hide CellAt, Slot;
  }

  lemma ReaderAfter<V>(s: State<V>, m: Move<V>)
    requires |s.cells| >= 1 && m.thread < |s.threads|
    ensures |Step(s, m).threads| == |s.threads|
    ensures var pc, pc' := s.threads[m.thread], Step(s, m).threads[m.thread];
      && (ReaderState(pc') <==> (pc.DeqCas? && s.head == pc.pos) || pc.DeqLoadVal? || pc.DeqStoreNil?)
      && (ReaderState(pc') ==> pc'.pos == pc.pos)
  {
    hide CellAt, Slot, SetCell;
    if WriterState(s.threads[m.thread]) || ReaderState(s.threads[m.thread]) { OwnerReadsOn(s, m); }
  }

  lemma OwnerReadsOn<V>(s: State<V>, m: Move<V>)
    requires |s.cells| >= 1 && m.thread < |s.threads| && (WriterState(s.threads[m.thread]) || ReaderState(s.threads[m.thread]))
    ensures |Step(s, m).threads| == |s.threads|
    ensures var pc, pc' := s.threads[m.thread], Step(s, m).threads[m.thread];
      && (ReaderState(pc') <==> pc.DeqLoadVal? || pc.DeqStoreNil?)
      && (ReaderState(pc') ==> pc'.pos == pc.pos)
  {
    hide CellAt, Slot;
  }

  /** The role of the stepping thread before and after, read off the event. */
  lemma RoleAfter<V>(s: State<V>, m: Move<V>, p: nat)
    requires |s.cells| >= 1 && m.thread < |s.threads| && |s.claimed| == s.tail
    requires s.threads[m.thread].DeqCas? && s.head == s.threads[m.thread].pos ==> s.head < |s.claimed|
    ensures |Step(s, m).threads| == |s.threads|
    ensures var e := Foretold(s, m); var pc, pc' := s.threads[m.thread], Step(s, m).threads[m.thread];
      && (Writes(pc', p) <==> (Writes(pc, p) && e != Publish(p)) || (e.Put? && p == |s.claimed|))
      && (Reads(pc', p) <==> (Reads(pc, p) && e != Release(p)) || (e.Take? && p == s.head))
      && (e == Publish(p) ==> Writes(pc, p))
      && (e == Release(p) ==> Reads(pc, p))
  {
    hide Step, Foretold;
    EventKinds(s, m);
    WriterAfter(s, m);
    ReaderAfter(s, m);
  }

  lemma WriterMeans<V>(s: State<V>, t: nat, p: nat)
    requires t < |s.threads|
    ensures Writes(s.threads[t], p) ==> HasWriter(s, p)
    ensures Reads(s.threads[t], p) ==> HasReader(s, p)
  {
  }

  lemma OwnersFollowEvents<V>(s: State<V>, m: Move<V>, p: nat)
    requires Inv(s)
    requires m.thread < |s.threads| && s.threads[m.thread].DeqCas? && s.head == s.threads[m.thread].pos ==> s.head < |s.claimed|
    ensures var e := Foretold(s, m); var s' := Step(s, m);
      && (HasWriter(s', p) <==> (HasWriter(s, p) && e != Publish(p)) || (e.Put? && p == |s.claimed|))
      && (HasReader(s', p) <==> (HasReader(s, p) && e != Release(p)) || (e.Take? && p == s.head))
  {
    assert Exclusive(s) && |s.claimed| == s.tail && |s.cells| >= 2;
    hide Inv, HasWriter, HasReader, Exclusive, CellAt, Writes, Reads;
    if m.thread < |s.threads| {
      ContentsAfter(s, m);
      RoleAfter(s, m, p);
      R.OthersStand(s, m);
      OwnersAfter(s, Step(s, m), m.thread);
      WriterMeans(s, m.thread, p);
    }
  }

  lemma StepKeepsRelated<V>(s: State<V>, m: Move<V>, r: Atomic<V>)
    requires Inv(s) && Related(s, r)
    ensures Related(Step(s, m), After(r, Foretold(s, m)))
  {
    assert |s.cells| >= 2;
    hide HasWriter, HasReader, Foretold, Step, Inv;
    if m.thread < |s.threads| && s.threads[m.thread].DeqCas? && s.head == s.threads[m.thread].pos {
      HeadIsPublished(s, m.thread);
    }
    ContentsAfter(s, m);
    forall p: nat { OwnersFollowEvents(s, m, p); }
  }

  /**
    Every run of the ring, by any number of threads, is a run of the atomic queue: each step
    is something the atomic queue may do, and the two end in the same contents.
   */
  lemma {:induction false} EveryRunIsAtomic<V>(cap: nat, n: nat, schedule: seq<Move<V>>)
    requires cap >= 2
    ensures AllAllowed(Start(cap), Trace(Init(cap, n), schedule))
    ensures Related(Run(Init(cap, n), schedule), AfterAll(Start(cap), Trace(Init(cap, n), schedule)))
    decreases |schedule|
  {
    InitInv<V>(cap, n);
    if schedule != [] {
      var last := |schedule| - 1;
      var before, trace := Run(Init<V>(cap, n), schedule[..last]), Trace(Init<V>(cap, n), schedule);
      EveryRunIsAtomic(cap, n, schedule[..last]);
      RunKeepsInv(Init<V>(cap, n), schedule[..last]);
      assert trace[..last] == Trace(Init<V>(cap, n), schedule[..last]);
      EventIsForetold(before, schedule[last]);
      EventIsAllowed(before, schedule[last], AfterAll(Start(cap), trace[..last]));
      StepKeepsRelated(before, schedule[last], AfterAll(Start(cap), trace[..last]));
    }
  }

  // ---------------------------------------------------------------- the same answers

  /** The answer an event decides. */
  function DecidedBy<V>(e: Event<V>): seq<Answer<V>> {
    match e
    case Put(v) => [Accepted(v)]
    case RefusePut(v) => [Full(v)]
    case Take(v) => [Got(Some(v))]
    case RefuseTake => [Nothing]
    case _ => []
  }

  /** The answers the atomic queue has decided for thread t, in order. */
  function Decided<V>(s: State<V>, schedule: seq<Move<V>>, t: nat): seq<Answer<V>>
    requires |s.cells| >= 1
    decreases |schedule|
  {
    if schedule == [] then []
    else
      var last := |schedule| - 1;
      Decided(s, schedule[..last], t)
      + if schedule[last].thread == t then DecidedBy(Trace(s, schedule)[last]) else []
  }

  /** What is decided for t's present call and not yet returned. */
  function Pending<V>(s: State<V>, t: nat): seq<Answer<V>>
    requires t < |s.threads|
  {
    var pc := s.threads[t];
    if WriterState(pc) then [Accepted(pc.v)]
    else if ReaderState(pc) && pc.pos < |s.claimed| then [Got(Some(s.claimed[pc.pos]))]
    else []
  }

  /** The place a thread has won is in the history, and a reader carries the value claimed there. */
  lemma WonPlaces<V>(s: State<V>, t: nat)
    requires Inv(s) && t < |s.threads|
    ensures var pc := s.threads[t];
      && (ReaderState(pc) ==> pc.pos < |s.claimed|)
      && (pc.DeqStoreSeq? ==> pc.got == Some(s.claimed[pc.pos]))
      && (pc.DeqCas? && s.head == pc.pos ==> pc.pos < |s.claimed|)
  {
    assert ThreadOk(s, s.threads[t]);
    if s.threads[t].DeqCas? && s.head == s.threads[t].pos { HeadIsPublished(s, t); }
  }

  /** The thread's own step: what was decided before or is decided now is returned now or still due. */
  lemma OwnStepAnswers<V>(s: State<V>, t: nat, m: Move<V>)
    requires Inv(s) && t < |s.threads| && m.thread == t
    ensures AnswersTo(s.answers, t) + Pending(s, t) + DecidedBy(EventOf(s, m)) == AnswersTo(Step(s, m).answers, t) + Pending(Step(s, m), t)
  {
    CellsOf(s);
    EventIsForetold(s, m);
    var now := R.Due(s, t);
    OwnStepReturns(s, t, m);
    if s.threads[t].Idle? { CallBegins(s, m); } else { R.CallReturnsExactly(s, m); }
    hide Inv, CellAt, Step, Foretold, EventOf, Pending, DecidedBy, AnswersTo, R.Due;
    if now == [] {
      assert s.answers + now == s.answers;
    } else {
      assert now == [now[0]];
      AnswersToMore(s.answers, now[0], t);
    }
    Regroup(AnswersTo(s.answers, t), Pending(s, t), DecidedBy(Foretold(s, m)), if now == [] then [] else [now[0].answer], Pending(Step(s, m), t));
  }

  lemma OwnStepReturns<V>(s: State<V>, t: nat, m: Move<V>)
    requires Inv(s) && t < |s.threads| && m.thread == t
    ensures t < |Step(s, m).threads| && |R.Due(s, t)| <= 1
    ensures R.Due(s, t) != [] ==> R.Due(s, t)[0].thread == t
    ensures s.threads[t].Idle? ==> R.Due(s, t) == []
    ensures Pending(s, t) + DecidedBy(Foretold(s, m)) == (if R.Due(s, t) == [] then [] else [R.Due(s, t)[0].answer]) + Pending(Step(s, m), t)
  {
    CellsOf(s);
    var pc := s.threads[t];
    if pc.EnqLoadSeq? { R.EnqueueSeesOneRoundBack(s, t); }
    if pc.DeqLoadSeq? { R.DequeueSeesUnpublished(s, t); }
    WonPlaces(s, t);
    ClaimedAfter(s, m);
    WriterAfter(s, m);
    ReaderAfter(s, m);
    hide Inv, CellAt, Step, R.Released, R.Published;
  }

  lemma OtherStepKeepsPending<V>(s: State<V>, t: nat, m: Move<V>)
    requires Inv(s) && t < |s.threads| && m.thread != t
    ensures t < |Step(s, m).threads| && Pending(Step(s, m), t) == Pending(s, t)
  {
    CellsOf(s);
    hide Inv, Step;
    WonPlaces(s, t);
    R.OthersStand(s, m);
    ClaimedGrows(s, m);
  }

  lemma ClaimedGrows<V>(s: State<V>, m: Move<V>)
    requires |s.cells| >= 1
    ensures s.claimed <= Step(s, m).claimed
  {
    hide CellAt, Slot;
  }

  lemma DecidedGrows<V>(s: State<V>, schedule: seq<Move<V>>, t: nat)
    requires |s.cells| >= 1 && schedule != [] && t < |s.threads|
    ensures var last := |schedule| - 1; var before := Run(s, schedule[..last]);
      && Decided(s, schedule, t) == Decided(s, schedule[..last], t)
           + (if schedule[last].thread == t then DecidedBy(EventOf(before, schedule[last])) else [])
      && Run(s, schedule) == Step(before, schedule[last])
  {
    hide EventOf, Step, DecidedBy;
  }

  lemma Regroup<A>(a: seq<A>, b: seq<A>, c: seq<A>, d: seq<A>, e: seq<A>)
    requires b + c == d + e
    ensures a + b + c == a + d + e
  {
    assert a + b + c == a + (b + c);
  }

  lemma NothingAtFirst<V>(cap: nat, n: nat, t: nat)
    requires cap >= 2 && t < n
    ensures var s := Init<V>(cap, n);
      Decided(s, [], t) == AnswersTo(s.answers, t) == Pending(s, t) == [] && Run(s, []) == s
  {
  }

  /**
    In every run each thread gets back, call by call and in order, the answers the atomic
    queue decided for it; the only one it may still be owed is that of its present call.
   */
  lemma {:induction false} AnswersAgree<V>(cap: nat, n: nat, schedule: seq<Move<V>>, t: nat)
    requires cap >= 2 && t < n
    ensures var s := Run(Init<V>(cap, n), schedule);
      Decided(Init(cap, n), schedule, t) == AnswersTo(s.answers, t) + Pending(s, t)
    decreases |schedule|
  {
    hide Inv, Step, Run, Decided, AnswersTo, EventOf, Pending, DecidedBy;
    if schedule == [] {
      NothingAtFirst<V>(cap, n, t);
    } else {
      var last := |schedule| - 1;
      var before, m := Run(Init<V>(cap, n), schedule[..last]), schedule[last];
      AnswersAgree(cap, n, schedule[..last], t);
      InitInv<V>(cap, n);
      RunKeepsInv(Init<V>(cap, n), schedule[..last]);
      DecidedGrows(Init<V>(cap, n), schedule, t);
      if m.thread == t {
        OwnStepAnswers(before, t, m);
      } else {
        OtherStepKeepsPending(before, t, m);
        OtherStepMatches(before, m, t);
      }
    }
  }

  // ---------------------------------------------------------------- a ring inside the segment chain

  ghost predicate IsRing<V>(seg: Segs.Segment<V>, r: Atomic<Segs.Message<V>>) {
    seg.claimed == r.claimed && seg.taken == r.taken
  }

  /** Whatever the atomic queue answers a producer, its one step on the chain answers the same. */
  lemma ChainPutsLikeTheRing<V>(s: Segs.State<V>, cap: nat, maxSeg: Words.Word, p: nat, v: V,
                                r: Atomic<Segs.Message<V>>, e: Event<Segs.Message<V>>)
    requires Segs.Wellformed(s) && p < |s.producers| && s.producers[p].RingPut?
    requires IsRing(s.chain[s.producers[p].t], r) && r.cap == cap && Allowed(r, e)
    requires var m := Segs.Message(p, |s.sent[p]| - 1, s.producers[p].v); e == Event.Put(m) || e == RefusePut(m)
    ensures var t := s.producers[p].t; var s' := Segs.ProducerStep(s, cap, maxSeg, p, v, e.Put?);
      && IsRing(s'.chain[t], After(r, e))
      && (forall i :: 0 <= i < |s.chain| && i != t ==> s'.chain[i] == s.chain[i])
      && s'.producers[p] == (if e.Put? then Segs.Producer.Idle else Segs.LoadSegs(s.producers[p].v, t))
  {
  }

  lemma ChainTakesLikeTheRing<V>(s: Segs.State<V>, r: Atomic<Segs.Message<V>>, e: Event<Segs.Message<V>>)
    requires Segs.Wellformed(s) && s.consumer.RingTake?
    requires IsRing(s.chain[s.head], r) && Allowed(r, e) && (e.Take? || e.RefuseTake?)
    ensures var s' := Segs.ConsumerStep(s, e.Take?);
      && IsRing(s'.chain[s.head], After(r, e))
      && (forall i :: 0 <= i < |s.chain| && i != s.head ==> s'.chain[i] == s.chain[i])
      && s'.received == (if e.Take? then s.received + [Segs.Receipt(e.v, s.head, r.taken)] else s.received)
      && s'.consumer == (if e.Take? then Segs.Waiting else Segs.LoadHeadNext(s.head))
  {
  }
}
