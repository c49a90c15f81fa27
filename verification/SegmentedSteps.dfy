/**
  The segment chain under concurrency: any number of producers and the one consumer of an
  actor's run loop, one step per access to head, tail, next and segs. A ring call is one
  step, as RingRefinement.EveryRunIsAtomic and AnswersAgree justify; it may also be refused at
  any time, since a ring refuses while a neighbour's access is unfinished.
 */
module SegmentedSteps {
  import opened Words

  /** The k-th Enqueue of producer `from`. */
  datatype Message<+V> = Message(from: nat, k: nat, v: V)

  /** A ring as RingTheorems sees it: everything claimed so far, and how much has been taken. */
  datatype Segment<+V> = Segment(claimed: seq<Message<V>>, taken: nat)

  datatype Producer<+V> =
    | Idle
    | LoadTail(v: V)
    | RingPut(v: V, t: nat)
    | LoadSegs(v: V, t: nat)
    | LoadNext(v: V, t: nat)
    | CasNext(v: V, t: nat)
    | CasTailThenCount(v: V, t: nat)
    | AddSegs(v: V)
    | CasTail(v: V, t: nat)

  datatype Consumer = Waiting | LoadHead | RingTake(h: nat) | LoadHeadNext(h: nat) | StoreHead(n: nat) | SubSegs

  /**
    `chain` lists the segments in link order: next of segment i is i + 1 once that exists.
    `sent[p]` is what producer p has passed to Enqueue; `refused[p]` which of those calls
    answered false; `received` what Dequeue has returned and where it came from. These
    three are history.
   */
  datatype State<+V> = State(
    chain: seq<Segment<V>>,
    head: nat,
    tail: nat,
    segs: Word,
    producers: seq<Producer<V>>,
    consumer: Consumer,
    sent: seq<seq<V>>,
    refused: seq<set<nat>>,
    received: seq<Receipt<V>>)

  datatype Receipt<+V> = Receipt(m: Message<V>, seg: nat, idx: nat)

  /** `ok` is the ring's answer when both are possible. */
  datatype Move<+V> = Produce(p: nat, v: V, ok: bool) | Consume(ok: bool)

  function Init<V>(producers: nat): (s: State<V>)
    ensures Inv(s)
  {
    State([Segment([], 0)], 0, 0, 1, seq(producers, _ => Idle), Waiting, seq(producers, _ => []), seq(producers, _ => {}), [])
  }

  function Goto<V>(s: State<V>, p: nat, pc: Producer<V>): State<V>
    requires p < |s.producers|
  {
    s.(producers := s.producers[p := pc])
  }

  function Refuse<V>(s: State<V>, p: nat): State<V>
    requires p < |s.producers| && p < |s.sent| && p < |s.refused| && s.sent[p] != []
  {
    Goto(s, p, Idle).(refused := s.refused[p := s.refused[p] + {|s.sent[p]| - 1}])
  }

  ghost predicate Wellformed<V>(s: State<V>) {
    && s.head < |s.chain| && s.tail < |s.chain|
    && |s.sent| == |s.refused| == |s.producers|
    && (forall p :: 0 <= p < |s.producers| ==> ProducerFits(s, s.producers[p]) && Sends(s.producers[p], s.sent[p]))
    && ConsumerFits(s)
    && (forall i :: 0 <= i < |s.chain| ==> s.chain[i].taken <= |s.chain[i].claimed|)
  }

  /** During a call the newest value sent is the one the producer is carrying. */
  ghost predicate Sends<V>(pc: Producer<V>, sent: seq<V>) {
    !pc.Idle? ==> sent != [] && pc.v == sent[|sent| - 1]
  }

  predicate ProducerFits<V>(s: State<V>, pc: Producer<V>) {
    && (pc.RingPut? || pc.LoadSegs? || pc.LoadNext? || pc.CasNext? ==> pc.t <= s.tail)
    && (pc.CasTailThenCount? || pc.CasTail? ==> pc.t <= s.tail && pc.t + 1 < |s.chain|)
  }

  predicate ConsumerFits<V>(s: State<V>) {
    && (s.consumer.RingTake? ==> s.consumer.h == s.head)
    && (s.consumer.LoadHeadNext? ==> s.consumer.h == s.head)
    && (s.consumer.StoreHead? ==> s.consumer.n == s.head + 1 && s.consumer.n < |s.chain|)
  }

  /** One access by producer p, following SegmentedQueue.Enqueue. */
  function ProducerStep<V>(s: State<V>, cap: nat, maxSeg: Word, p: nat, v: V, ok: bool): State<V>
    requires Wellformed(s) && p < |s.producers|
  {
    match s.producers[p]
    case Idle => Goto(s, p, LoadTail(v)).(sent := s.sent[p := s.sent[p] + [v]])
    case LoadTail(v) => Goto(s, p, RingPut(v, s.tail))
    case RingPut(v, t) =>
      var seg := s.chain[t];
      if ok && |seg.claimed| - seg.taken < cap then
        var m := Message(p, |s.sent[p]| - 1, v);
        Goto(s, p, Idle).(chain := s.chain[t := seg.(claimed := seg.claimed + [m])])    // returns true
      else Goto(s, p, LoadSegs(v, t))
    case LoadSegs(v, t) =>
      if s.segs >= maxSeg then Refuse(s, p) else Goto(s, p, LoadNext(v, t))             // returns false
    case LoadNext(v, t) =>
      if t + 1 < |s.chain| then Goto(s, p, CasTail(v, t)) else Goto(s, p, CasNext(v, t))
    case CasNext(v, t) =>
      if t + 1 == |s.chain| then Goto(s, p, CasTailThenCount(v, t)).(chain := s.chain + [Segment([], 0)])
      else Goto(s, p, LoadTail(v))
    case CasTailThenCount(v, t) => Goto(s, p, AddSegs(v)).(tail := if s.tail == t then t + 1 else s.tail)
    case AddSegs(v) => Goto(s, p, LoadTail(v)).(segs := Plus(s.segs, 1))
    case CasTail(v, t) => Goto(s, p, LoadTail(v)).(tail := if s.tail == t then t + 1 else s.tail)
  }

  /** One access by the consumer, following SegmentedQueue.Dequeue. */
  function ConsumerStep<V>(s: State<V>, ok: bool): State<V>
    requires Wellformed(s)
  {
    match s.consumer
    case Waiting => s.(consumer := LoadHead)
    case LoadHead => s.(consumer := RingTake(s.head))
    case RingTake(h) =>
      var seg := s.chain[h];
      if ok && seg.taken < |seg.claimed| then
        s.(consumer := Waiting,
           chain := s.chain[h := seg.(taken := seg.taken + 1)],
           received := s.received + [Receipt(seg.claimed[seg.taken], h, seg.taken)])
      else s.(consumer := LoadHeadNext(h))
    case LoadHeadNext(h) =>
      if h + 1 < |s.chain| then s.(consumer := StoreHead(h + 1)) else s.(consumer := Waiting)    // returns nil
    case StoreHead(n) => s.(consumer := SubSegs, head := n)
    case SubSegs => s.(consumer := LoadHead, segs := Plus(s.segs, WORDS - 1))
  }

  function Step<V>(s: State<V>, cap: nat, maxSeg: Word, m: Move<V>): State<V>
    requires Wellformed(s)
  {
    match m
    case Produce(p, v, ok) => if p < |s.producers| then ProducerStep(s, cap, maxSeg, p, v, ok) else s
    case Consume(ok) => ConsumerStep(s, ok)
  }

  // ---------------------------------------------------------------- the invariant

  predicate Before(a: nat, i: nat, b: nat, j: nat) {
    a < b || (a == b && i < j)
  }

  /** The number of the call a producer is in, or will make next. */
  function Current<V>(s: State<V>, p: nat): int
    requires p < |s.producers| && p < |s.sent|
  {
    if s.producers[p].Idle? then |s.sent[p]| else |s.sent[p]| - 1
  }

  /** A claimed message is what its sender sent, in a call already over and not refused, at or before tail. */
  ghost predicate EntryOk<V>(s: State<V>, m: Message<V>, a: nat)
    requires |s.sent| == |s.refused| == |s.producers|
  {
    && m.from < |s.producers|
    && m.k < |s.sent[m.from]| && m.k < Current(s, m.from)
    && m.v == s.sent[m.from][m.k]
    && m.k !in s.refused[m.from]
    && a <= s.tail
    && (Holds(s.producers[m.from]) ==> a <= s.producers[m.from].t)
  }

  /** The producer holds a tail it loaded during the current call. */
  predicate Holds<V>(pc: Producer<V>) {
    pc.RingPut? || pc.LoadSegs? || pc.LoadNext? || pc.CasNext? || pc.CasTailThenCount? || pc.CasTail?
  }

  ghost predicate Entries<V>(s: State<V>)
    requires |s.sent| == |s.refused| == |s.producers|
  {
    forall a, i :: 0 <= a < |s.chain| && 0 <= i < |s.chain[a].claimed| ==> EntryOk(s, s.chain[a].claimed[i], a)
  }

  /** Along the chain, each sender's messages are in send order. */
  ghost predicate InSendOrder<V>(s: State<V>) {
    forall a, i, b, j {:trigger s.chain[a].claimed[i], s.chain[b].claimed[j]} ::
      0 <= a < |s.chain| && 0 <= i < |s.chain[a].claimed| && 0 <= b < |s.chain| && 0 <= j < |s.chain[b].claimed|
      && Before(a, i, b, j) && s.chain[a].claimed[i].from == s.chain[b].claimed[j].from
      ==> s.chain[a].claimed[i].k < s.chain[b].claimed[j].k
  }

  ghost predicate ReceiptOk<V>(s: State<V>, r: Receipt<V>) {
    && r.seg <= s.head && r.seg < |s.chain| && r.idx < s.chain[r.seg].taken <= |s.chain[r.seg].claimed|
    && r.m == s.chain[r.seg].claimed[r.idx]
  }

  /** The consumer walks the chain forward and never takes a place twice. */
  ghost predicate Receipts<V>(s: State<V>) {
    && (forall x :: 0 <= x < |s.received| ==> ReceiptOk(s, s.received[x]))
    && (forall x, y :: 0 <= x < y < |s.received| ==>
         Before(s.received[x].seg, s.received[x].idx, s.received[y].seg, s.received[y].idx))
  }

  ghost predicate RefusedPast<V>(s: State<V>)
    requires |s.sent| == |s.refused| == |s.producers|
  {
    forall p, k :: 0 <= p < |s.producers| && k in s.refused[p] ==> k < Current(s, p)
  }

  ghost predicate Inv<V>(s: State<V>) {
    Wellformed(s) && Entries(s) && InSendOrder(s) && Receipts(s) && RefusedPast(s)
  }

  /** The one producer step that writes to a ring: the message of the call under way, at the end of segment t. */
  ghost function AfterPut<V>(s: State<V>, p: nat): State<V>
    requires Wellformed(s) && p < |s.producers| && s.producers[p].RingPut?
  {
    var t := s.producers[p].t;
    var m := Message(p, |s.sent[p]| - 1, s.producers[p].v);
    Goto(s, p, Idle).(chain := s.chain[t := s.chain[t].(claimed := s.chain[t].claimed + [m])])
  }

  lemma PutKeepsEntries<V>(s: State<V>, p: nat)
    requires Inv(s) && p < |s.producers| && s.producers[p].RingPut?
    ensures Wellformed(AfterPut(s, p)) && Entries(AfterPut(s, p))
  {
    hide InSendOrder, Receipts;
    var s', t := AfterPut(s, p), s.producers[p].t;
    forall a, i | 0 <= a < |s'.chain| && 0 <= i < |s'.chain[a].claimed| ensures EntryOk(s', s'.chain[a].claimed[i], a) {
      if a != t || i < |s.chain[t].claimed| { assert EntryOk(s, s.chain[a].claimed[i], a); }
    }
  }

  lemma PutKeepsOrder<V>(s: State<V>, p: nat)
    requires Inv(s) && p < |s.producers| && s.producers[p].RingPut?
    ensures InSendOrder(AfterPut(s, p))
  {
    hide Receipts, RefusedPast;
    var s', t := AfterPut(s, p), s.producers[p].t;
    var last := |s.chain[t].claimed|;
    forall a, i, b, j |
      0 <= a < |s'.chain| && 0 <= i < |s'.chain[a].claimed| && 0 <= b < |s'.chain| && 0 <= j < |s'.chain[b].claimed|
      && Before(a, i, b, j) && s'.chain[a].claimed[i].from == s'.chain[b].claimed[j].from
      ensures s'.chain[a].claimed[i].k < s'.chain[b].claimed[j].k
    {
      if a != t || i < last { assert EntryOk(s, s.chain[a].claimed[i], a); }
      if b != t || j < last { assert EntryOk(s, s.chain[b].claimed[j], b); }
    }
  }

  lemma PutKeepsReceipts<V>(s: State<V>, p: nat)
    requires Inv(s) && p < |s.producers| && s.producers[p].RingPut?
    ensures Receipts(AfterPut(s, p)) && RefusedPast(AfterPut(s, p))
  {
    hide InSendOrder, Entries;
    var s' := AfterPut(s, p);
    forall x | 0 <= x < |s'.received| ensures ReceiptOk(s', s'.received[x]) { assert ReceiptOk(s, s.received[x]); }
  }

  /** Steps that add no message and take none keep every claim about the messages there are. */
  lemma SameEntries<V>(s: State<V>, s': State<V>)
    requires Inv(s) && Wellformed(s')
    requires |s.chain| <= |s'.chain| && s'.chain[..|s.chain|] == s.chain
    requires forall a :: |s.chain| <= a < |s'.chain| ==> s'.chain[a] == Segment([], 0)
    requires forall m: Message<V>, a: nat {:trigger EntryOk(s', m, a)} :: EntryOk(s, m, a) ==> EntryOk(s', m, a)
    requires s'.received == s.received && s'.head >= s.head && RefusedPast(s')
    ensures Inv(s')
  {
    assert forall a :: 0 <= a < |s.chain| ==> s'.chain[a] == s'.chain[..|s.chain|][a];
    forall a, i | 0 <= a < |s'.chain| && 0 <= i < |s'.chain[a].claimed| ensures EntryOk(s', s'.chain[a].claimed[i], a) {
      assert EntryOk(s, s.chain[a].claimed[i], a);
    }
    forall x | 0 <= x < |s'.received| ensures ReceiptOk(s', s'.received[x]) {
      assert ReceiptOk(s, s.received[x]);
    }
  }

  predicate Quiet<V>(s: State<V>, cap: nat, p: nat, ok: bool)
    requires p < |s.producers|
  {
    s.producers[p].RingPut? && s.producers[p].t < |s.chain| ==>
      !ok || |s.chain[s.producers[p].t].claimed| - s.chain[s.producers[p].t].taken >= cap
  }

  lemma QuietStepExtends<V>(s: State<V>, cap: nat, maxSeg: Word, p: nat, v: V, ok: bool)
    requires Inv(s) && p < |s.producers| && Quiet(s, cap, p, ok)
    ensures var s' := ProducerStep(s, cap, maxSeg, p, v, ok);
      && |s.chain| <= |s'.chain| && s'.chain[..|s.chain|] == s.chain
      && (forall a :: |s.chain| <= a < |s'.chain| ==> s'.chain[a] == Segment([], 0))
      && s'.received == s.received && s'.head == s.head && s'.consumer == s.consumer
      && s.tail <= s'.tail < |s'.chain|
      && |s'.sent| == |s'.refused| == |s'.producers| == |s.producers|
  {
    hide InSendOrder, Entries, Receipts, RefusedPast;
    assert s.chain[..|s.chain|] == s.chain;
  }

  lemma QuietStepFits<V>(s: State<V>, cap: nat, maxSeg: Word, p: nat, v: V, ok: bool)
    requires Inv(s) && p < |s.producers| && Quiet(s, cap, p, ok)
    ensures var s' := ProducerStep(s, cap, maxSeg, p, v, ok);
      && p < |s'.producers| == |s'.sent|
      && ProducerFits(s', s'.producers[p]) && Sends(s'.producers[p], s'.sent[p])
  {
    hide InSendOrder, Entries, Receipts, RefusedPast, Current;
    assert ProducerFits(s, s.producers[p]) && Sends(s.producers[p], s.sent[p]);
  }

  /** What a quiet step does to its own producer's history and to the tail it holds; the others' stand. */
  lemma QuietStepOfOne<V>(s: State<V>, cap: nat, maxSeg: Word, p: nat, v: V, ok: bool)
    requires Inv(s) && p < |s.producers| && Quiet(s, cap, p, ok)
    ensures var s' := ProducerStep(s, cap, maxSeg, p, v, ok);
      && |s'.sent| == |s'.refused| == |s'.producers| == |s.producers|
      && (forall q :: 0 <= q < |s.producers| && q != p ==>
            s'.producers[q] == s.producers[q] && s'.sent[q] == s.sent[q] && s'.refused[q] == s.refused[q])
      && s.sent[p] <= s'.sent[p] && Current(s, p) <= Current(s', p)
      && (forall k :: k in s'.refused[p] ==> k in s.refused[p] || k == Current(s, p) < Current(s', p))
      && (Holds(s'.producers[p]) ==>
            s'.producers[p].t == s.tail || (Holds(s.producers[p]) && s'.producers[p].t == s.producers[p].t))
  {
    hide InSendOrder, Entries, Receipts, RefusedPast, ProducerFits, ConsumerFits;
    assert Sends(s.producers[p], s.sent[p]);
  }

  lemma QuietProducerStep<V>(s: State<V>, cap: nat, maxSeg: Word, p: nat, v: V, ok: bool)
    requires Inv(s) && p < |s.producers| && Quiet(s, cap, p, ok)
    ensures Wellformed(ProducerStep(s, cap, maxSeg, p, v, ok)) && RefusedPast(ProducerStep(s, cap, maxSeg, p, v, ok))
  {
    QuietStepExtends(s, cap, maxSeg, p, v, ok);
    QuietStepFits(s, cap, maxSeg, p, v, ok);
    QuietStepOfOne(s, cap, maxSeg, p, v, ok);
    var s' := ProducerStep(s, cap, maxSeg, p, v, ok);
    hide InSendOrder, Entries, Receipts, ProducerStep;
    assert forall a :: 0 <= a < |s.chain| ==> s'.chain[a] == s'.chain[..|s.chain|][a];
    forall q | 0 <= q < |s.producers| ensures ProducerFits(s', s'.producers[q]) && Sends(s'.producers[q], s'.sent[q]) {
      assert ProducerFits(s, s.producers[q]) && Sends(s.producers[q], s.sent[q]);
    }
  }

  lemma QuietStepKeepsEntry<V>(s: State<V>, cap: nat, maxSeg: Word, p: nat, v: V, ok: bool, m: Message<V>, a: nat)
    requires Inv(s) && p < |s.producers| && EntryOk(s, m, a) && Quiet(s, cap, p, ok)
    requires Wellformed(ProducerStep(s, cap, maxSeg, p, v, ok))
    ensures EntryOk(ProducerStep(s, cap, maxSeg, p, v, ok), m, a)
  {
    assert |s.sent| == |s.refused| == |s.producers|;
    hide Inv, Wellformed, ProducerStep, Quiet, Holds, Current;
    QuietStepExtends(s, cap, maxSeg, p, v, ok);
    QuietStepOfOne(s, cap, maxSeg, p, v, ok);
    if m.from != p { OthersCall(s, ProducerStep(s, cap, maxSeg, p, v, ok), m.from); }
  }

  lemma OthersCall<V>(s: State<V>, s': State<V>, q: nat)
    requires q < |s.producers| && q < |s.sent| && q < |s'.producers| && q < |s'.sent|
    requires s'.producers[q] == s.producers[q] && s'.sent[q] == s.sent[q]
    ensures Current(s', q) == Current(s, q)
  {
  }

  lemma ProducerStepKeepsInv<V>(s: State<V>, cap: nat, maxSeg: Word, p: nat, v: V, ok: bool)
    requires Inv(s) && p < |s.producers|
    ensures Inv(ProducerStep(s, cap, maxSeg, p, v, ok))
  {
    var s' := ProducerStep(s, cap, maxSeg, p, v, ok);
    var pc := s.producers[p];
    if pc.RingPut? && ok && |s.chain[pc.t].claimed| - s.chain[pc.t].taken < cap {
      PutKeepsEntries(s, p);
      PutKeepsOrder(s, p);
      PutKeepsReceipts(s, p);
      assert s' == AfterPut(s, p);
    } else {
      QuietProducerStep(s, cap, maxSeg, p, v, ok);
      QuietStepExtends(s, cap, maxSeg, p, v, ok);
      hide Inv, ProducerStep, EntryOk;
      forall m: Message<V>, a: nat | EntryOk(s, m, a) ensures EntryOk(s', m, a) {
        QuietStepKeepsEntry(s, cap, maxSeg, p, v, ok, m, a);
      }
      SameEntries(s, s');
    }
  }

  ghost function AfterTake<V>(s: State<V>): State<V>
    requires s.head < |s.chain| && s.chain[s.head].taken < |s.chain[s.head].claimed|
  {
    var seg := s.chain[s.head];
    s.(consumer := Waiting,
       chain := s.chain[s.head := seg.(taken := seg.taken + 1)],
       received := s.received + [Receipt(seg.claimed[seg.taken], s.head, seg.taken)])
  }

  lemma TakeKeepsEntries<V>(s: State<V>)
    requires Inv(s) && s.chain[s.head].taken < |s.chain[s.head].claimed|
    ensures Wellformed(AfterTake(s)) && Entries(AfterTake(s)) && InSendOrder(AfterTake(s)) && RefusedPast(AfterTake(s))
  {
    hide Receipts;
    var s' := AfterTake(s);
    assert forall a :: 0 <= a < |s.chain| ==> s'.chain[a].claimed == s.chain[a].claimed;
    forall a, i | 0 <= a < |s'.chain| && 0 <= i < |s'.chain[a].claimed| ensures EntryOk(s', s'.chain[a].claimed[i], a) {
      assert EntryOk(s, s.chain[a].claimed[i], a);
    }
  }

  lemma TakeKeepsReceipts<V>(s: State<V>)
    requires Inv(s) && s.chain[s.head].taken < |s.chain[s.head].claimed|
    ensures Receipts(AfterTake(s))
  {
    hide Entries, InSendOrder, RefusedPast;
    var s' := AfterTake(s);
    forall x | 0 <= x < |s'.received| ensures ReceiptOk(s', s'.received[x]) {
      if x < |s.received| { assert ReceiptOk(s, s.received[x]); }
    }
    forall x, y | 0 <= x < y < |s'.received|
      ensures Before(s'.received[x].seg, s'.received[x].idx, s'.received[y].seg, s'.received[y].idx)
    {
      assert ReceiptOk(s, s.received[x]);
    }
  }

  lemma ConsumerStepKeepsInv<V>(s: State<V>, ok: bool)
    requires Inv(s)
    ensures Inv(ConsumerStep(s, ok))
  {
    if s.consumer.RingTake? && ok && s.chain[s.head].taken < |s.chain[s.head].claimed| {
      TakeKeepsEntries(s);
      TakeKeepsReceipts(s);
      assert ConsumerStep(s, ok) == AfterTake(s);
    } else {
      assert s.chain[..|s.chain|] == s.chain;
      SameEntries(s, ConsumerStep(s, ok));
    }
  }

  // ---------------------------------------------------------------- every run

  function Run<V>(s: State<V>, cap: nat, maxSeg: Word, schedule: seq<Move<V>>): (s': State<V>)
    requires Inv(s)
    ensures Inv(s') && |s'.producers| == |s.producers|
    decreases |schedule|
  {
    if schedule == [] then s
    else
      var before := Run(s, cap, maxSeg, schedule[..|schedule| - 1]);
      StepKeepsProducers(before, cap, maxSeg, schedule[|schedule| - 1]);
      StepKeepsInv(before, cap, maxSeg, schedule[|schedule| - 1]);
      Step(before, cap, maxSeg, schedule[|schedule| - 1])
  }

  lemma StepKeepsProducers<V>(s: State<V>, cap: nat, maxSeg: Word, m: Move<V>)
    requires Wellformed(s)
    ensures |Step(s, cap, maxSeg, m).producers| == |s.producers|
  {
  }

  lemma StepKeepsInv<V>(s: State<V>, cap: nat, maxSeg: Word, m: Move<V>)
    requires Inv(s)
    ensures Inv(Step(s, cap, maxSeg, m))
  {
    hide Inv;
    match m {
      case Produce(p, v, ok) => if p < |s.producers| { ProducerStepKeepsInv(s, cap, maxSeg, p, v, ok); }
      case Consume(ok) => ConsumerStepKeepsInv(s, ok);
    }
  }

  /**
    Whatever the interleaving: two messages received from the same producer arrive in the
    order of its calls, and never the same call twice; and everything received is a value
    its sender really sent, in a call that was not refused.
   */
  lemma ReceivedInSendOrder<V>(producers: nat, cap: nat, maxSeg: Word, schedule: seq<Move<V>>, x: nat, y: nat)
    requires x < y < |Run(Init<V>(producers), cap, maxSeg, schedule).received|
    ensures var s := Run(Init<V>(producers), cap, maxSeg, schedule); var m, n := s.received[x].m, s.received[y].m;
      m.from == n.from ==> m.k < n.k
  {
    var s := Run(Init<V>(producers), cap, maxSeg, schedule);
    assert ReceiptOk(s, s.received[x]) && ReceiptOk(s, s.received[y]);
  }

  lemma ReceivedWasSent<V>(producers: nat, cap: nat, maxSeg: Word, schedule: seq<Move<V>>, x: nat)
    requires x < |Run(Init<V>(producers), cap, maxSeg, schedule).received|
    ensures var s := Run(Init<V>(producers), cap, maxSeg, schedule); var m := s.received[x].m;
      && m.from < |s.sent| == |s.refused| && m.k < |s.sent[m.from]|
      && m.v == s.sent[m.from][m.k] && m.k !in s.refused[m.from]
  {
    var s := Run(Init<V>(producers), cap, maxSeg, schedule);
    var r := s.received[x];
    assert ReceiptOk(s, r);
    assert EntryOk(s, s.chain[r.seg].claimed[r.idx], r.seg);
  }

  /** The values received from producer p. */
  function FromProducer<V>(received: seq<Receipt<V>>, p: nat): seq<V> {
    if received == [] then []
    else
      var last := |received| - 1;
      FromProducer(received[..last], p) + if received[last].m.from == p then [received[last].m.v] else []
  }

  /** `sub` picks out some of `s`, in order, from before position `end`. */
  ghost predicate Picks<V>(sub: seq<V>, s: seq<V>, end: nat)
    requires end <= |s|
    decreases |sub|
  {
    sub == [] || exists k :: 0 <= k < end && s[k] == sub[|sub| - 1] && Picks(sub[..|sub| - 1], s, k)
  }

  /** What arrives from each producer is a subsequence of what it sent. */
  lemma ReceivedIsSubsequenceOfSent<V>(producers: nat, cap: nat, maxSeg: Word, schedule: seq<Move<V>>, p: nat)
    requires p < producers
    ensures var s := Run(Init<V>(producers), cap, maxSeg, schedule);
      p < |s.sent| && Picks(FromProducer(s.received, p), s.sent[p], |s.sent[p]|)
  {
    var s := Run(Init<V>(producers), cap, maxSeg, schedule);
    SubsequenceUpTo(s, p, |s.received|, |s.sent[p]|);
    assert s.received[..|s.received|] == s.received;
  }

  /** The first n receipts, if all of p's among them were numbered below `end`. */
  lemma {:induction false} SubsequenceUpTo<V>(s: State<V>, p: nat, n: nat, end: nat)
    requires Inv(s) && p < |s.producers| && n <= |s.received| && end <= |s.sent[p]|
    requires forall x :: 0 <= x < n && s.received[x].m.from == p ==> s.received[x].m.k < end
    ensures Picks(FromProducer(s.received[..n], p), s.sent[p], end)
  {
    if n > 0 {
      var r := s.received[n - 1];
      assert s.received[..n][..n - 1] == s.received[..n - 1];
      if r.m.from == p {
        assert ReceiptOk(s, r) && EntryOk(s, s.chain[r.seg].claimed[r.idx], r.seg);
        forall x | 0 <= x < n - 1 && s.received[x].m.from == p ensures s.received[x].m.k < r.m.k {
          assert ReceiptOk(s, s.received[x]);
        }
        SubsequenceUpTo(s, p, n - 1, r.m.k);
        var sub := FromProducer(s.received[..n], p);
        assert sub[..|sub| - 1] == FromProducer(s.received[..n - 1], p);
      } else {
        SubsequenceUpTo(s, p, n - 1, end);
        assert FromProducer(s.received[..n], p) == FromProducer(s.received[..n - 1], p);
      }
    }
  }
}
