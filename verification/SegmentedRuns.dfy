/**
  Building blocks for concrete runs of the segment chain, in which every ring answers exactly:
  a put is refused only by a full ring, a take only by an empty one.
 */
module SegmentedRuns {
  import opened Words
  import opened SegmentedSteps

  /** Rings answer exactly throughout. */
  predicate Exact<V>(moves: seq<Move<V>>) {
    forall i :: 0 <= i < |moves| ==> moves[i].ok
  }

  /** Some run of exact answers goes from s to t. */
  ghost predicate Leads<V(!new)>(s: State<V>, cap: nat, maxSeg: Word, t: State<V>)
    requires Inv(s)
  {
    exists moves: seq<Move<V>> :: Exact(moves) && Run(s, cap, maxSeg, moves) == t
  }

  lemma LeadsNowhere<V(!new)>(s: State<V>, cap: nat, maxSeg: Word)
    requires Inv(s)
    ensures Leads(s, cap, maxSeg, s)
  {
    hide Inv;
    var none: seq<Move<V>> := [];
    assert Run(s, cap, maxSeg, none) == s;
  }

  lemma LeadsOn<V(!new)>(s: State<V>, cap: nat, maxSeg: Word, t: State<V>, m: Move<V>)
    requires Inv(s) && Leads(s, cap, maxSeg, t) && m.ok
    ensures Inv(t) && Leads(s, cap, maxSeg, Step(t, cap, maxSeg, m))
  {
    hide Entries, InSendOrder, Receipts, RefusedPast, Sends;
    hide Step;
    var moves: seq<Move<V>> :| Exact(moves) && Run(s, cap, maxSeg, moves) == t;
    var more := moves + [m];
    assert more[..|more| - 1] == moves;
    assert Run(s, cap, maxSeg, more) == Step(t, cap, maxSeg, m);
  }

  /** The next access of producer p, with v for a call it starts. */
  lemma Produced<V(!new)>(s: State<V>, cap: nat, maxSeg: Word, t: State<V>, p: nat, v: V) returns (u: State<V>)
    requires Inv(s) && Leads(s, cap, maxSeg, t) && p < |t.producers|
    ensures Inv(t) && u == ProducerStep(t, cap, maxSeg, p, v, true) && Leads(s, cap, maxSeg, u) && Inv(u)
  {
    hide Entries, InSendOrder, Receipts, RefusedPast, Sends;
    LeadsOn(s, cap, maxSeg, t, Produce(p, v, true));
    u := ProducerStep(t, cap, maxSeg, p, v, true);
    StepKeepsInv(t, cap, maxSeg, Produce(p, v, true));
  }

  /** The next access of the consumer. */
  lemma Consumed<V(!new)>(s: State<V>, cap: nat, maxSeg: Word, t: State<V>) returns (u: State<V>)
    requires Inv(s) && Leads(s, cap, maxSeg, t)
    ensures Inv(t) && u == ConsumerStep(t, true) && Leads(s, cap, maxSeg, u) && Inv(u)
  {
    hide Entries, InSendOrder, Receipts, RefusedPast, Sends;
    LeadsOn(s, cap, maxSeg, t, Consume(true));
    u := ConsumerStep(t, true);
    StepKeepsInv(t, cap, maxSeg, Consume(true));
  }

  // ---------------------------------------------------------------- filling and linking

  /** Nothing taken yet, `live` segments from head 0 to tail, all but the last full. */
  ghost predicate Lined<V>(s: State<V>, cap: nat, live: nat) {
    && s.head == 0 && |s.chain| == live >= 1 && s.tail == live - 1
    && (forall i :: 0 <= i < live - 1 ==> |s.chain[i].claimed| == cap)
    && |s.chain[live - 1].claimed| <= cap
    && (forall i :: 0 <= i < live ==> s.chain[i].taken == 0)
  }

  /** What a producer's run of calls leaves alone. */
  ghost predicate SameRest<V>(s: State<V>, t: State<V>) {
    t.consumer == s.consumer && t.received == s.received && t.head == s.head && t.refused == s.refused && |t.producers| == |s.producers|
  }

  /** An idle producer puts one more value in the last segment. */
  lemma PutOne<V(!new)>(s0: State<V>, cap: nat, maxSeg: Word, s: State<V>, live: nat, p: nat, v: V) returns (t: State<V>)
    requires Inv(s0) && Leads(s0, cap, maxSeg, s) && Lined(s, cap, live) && p < |s.producers| && s.producers[p].Idle?
    requires |s.chain[live - 1].claimed| < cap
    ensures Inv(t) && Leads(s0, cap, maxSeg, t) && Lined(t, cap, live) && SameRest(s, t)
    ensures t.producers == s.producers && t.segs == s.segs
    ensures |t.chain[live - 1].claimed| == |s.chain[live - 1].claimed| + 1
    ensures |t.sent| == |s.sent| > p && |t.sent[p]| == |s.sent[p]| + 1
  {
    hide Entries, InSendOrder, Receipts, RefusedPast, Leads;
    var s1 := Produced(s0, cap, maxSeg, s, p, v);
    var s2 := Produced(s0, cap, maxSeg, s1, p, v);
    t := Produced(s0, cap, maxSeg, s2, p, v);
    assert s1.producers[p] == LoadTail(v) && s2.producers[p] == RingPut(v, live - 1);
    assert t.producers == s.producers;
  }

  /** An idle producer fills the last segment. */
  lemma {:induction false} FillTail<V(!new)>(s0: State<V>, cap: nat, maxSeg: Word, s: State<V>, live: nat, p: nat, v: V) returns (t: State<V>)
    requires Inv(s0) && Leads(s0, cap, maxSeg, s) && Inv(s) && Lined(s, cap, live) && p < |s.producers| && s.producers[p].Idle?
    ensures Inv(t) && Leads(s0, cap, maxSeg, t) && Lined(t, cap, live) && SameRest(s, t)
    ensures t.producers == s.producers && t.segs == s.segs
    ensures |t.chain[live - 1].claimed| == cap
    ensures |t.sent| == |s.sent| > p && |t.sent[p]| == |s.sent[p]| + cap - |s.chain[live - 1].claimed|
    decreases cap - |s.chain[live - 1].claimed|
  {
    hide Entries, InSendOrder, Receipts, RefusedPast, Leads;
    t := s;
    if |s.chain[live - 1].claimed| < cap {
      t := PutOne(s0, cap, maxSeg, s, live, p, v);
      t := FillTail(s0, cap, maxSeg, t, live, p, v);
    }
  }

  /** An idle producer calls Enqueue on a full tail and gets as far as loading `segs`. */
  lemma StallAtSegs<V(!new)>(s0: State<V>, cap: nat, maxSeg: Word, s: State<V>, live: nat, p: nat, v: V) returns (t: State<V>)
    requires Inv(s0) && Leads(s0, cap, maxSeg, s) && Lined(s, cap, live) && p < |s.producers| && s.producers[p].Idle?
    requires |s.chain[live - 1].claimed| == cap
    ensures Inv(t) && Leads(s0, cap, maxSeg, t) && Lined(t, cap, live) && SameRest(s, t)
    ensures t.producers == s.producers[p := LoadSegs(v, live - 1)] && t.segs == s.segs && t.chain == s.chain
    ensures |t.sent| == |s.sent| > p && |t.sent[p]| == |s.sent[p]| + 1
  {
    hide Entries, InSendOrder, Receipts, RefusedPast, Leads;
    var s1 := Produced(s0, cap, maxSeg, s, p, v);
    var s2 := Produced(s0, cap, maxSeg, s1, p, v);
    t := Produced(s0, cap, maxSeg, s2, p, v);
    assert s1.producers[p] == LoadTail(v) && s2.producers[p] == RingPut(v, live - 1);
    assert t.producers == s.producers[p := LoadSegs(v, live - 1)];
  }

  /** It finds room in the budget and links a segment, but has yet to count it. */
  lemma Link<V(!new)>(s0: State<V>, cap: nat, maxSeg: Word, s: State<V>, live: nat, p: nat, v: V) returns (t: State<V>)
    requires Inv(s0) && Leads(s0, cap, maxSeg, s) && Lined(s, cap, live) && p < |s.producers|
    requires s.producers[p] == LoadSegs(v, live - 1) && s.segs < maxSeg && |s.chain[live - 1].claimed| == cap
    ensures Inv(t) && Leads(s0, cap, maxSeg, t) && Lined(t, cap, live + 1) && SameRest(s, t)
    ensures t.producers == s.producers[p := AddSegs(v)] && t.segs == s.segs && t.sent == s.sent
    ensures t.chain == s.chain + [Segment([], 0)]
  {
    hide Entries, InSendOrder, Receipts, RefusedPast, Leads;
    var s1 := Produced(s0, cap, maxSeg, s, p, v);
    var s2 := Produced(s0, cap, maxSeg, s1, p, v);
    var s3 := Produced(s0, cap, maxSeg, s2, p, v);
    t := Produced(s0, cap, maxSeg, s3, p, v);
    assert s1.producers[p] == LoadNext(v, live - 1) && s2.producers[p] == CasNext(v, live - 1);
    assert s3.producers[p] == CasTailThenCount(v, live - 1);
    assert t.producers == s.producers[p := AddSegs(v)];
  }

  /** It counts the segment and puts its value there. */
  lemma Settle<V(!new)>(s0: State<V>, cap: nat, maxSeg: Word, s: State<V>, live: nat, p: nat, v: V) returns (t: State<V>)
    requires Inv(s0) && Leads(s0, cap, maxSeg, s) && Lined(s, cap, live) && p < |s.producers|
    requires s.producers[p] == AddSegs(v) && |s.chain[live - 1].claimed| < cap
    ensures Inv(t) && Leads(s0, cap, maxSeg, t) && Lined(t, cap, live) && SameRest(s, t)
    ensures t.producers == s.producers[p := Idle] && t.segs == Plus(s.segs, 1) && t.sent == s.sent
    ensures |t.chain[live - 1].claimed| == |s.chain[live - 1].claimed| + 1
  {
    hide Entries, InSendOrder, Receipts, RefusedPast, Leads, Plus;
    var s1 := Produced(s0, cap, maxSeg, s, p, v);
    var s2 := Produced(s0, cap, maxSeg, s1, p, v);
    t := Produced(s0, cap, maxSeg, s2, p, v);
    assert s1.producers[p] == LoadTail(v) && s2.producers[p] == RingPut(v, live - 1);
    assert t.producers == s.producers[p := Idle];
  }

  /** An idle producer fills the last segment and links another, up to counting it. */
  lemma FillAndLink<V(!new)>(s0: State<V>, cap: nat, maxSeg: Word, s: State<V>, live: nat, p: nat, v: V) returns (t: State<V>)
    requires Inv(s0) && Leads(s0, cap, maxSeg, s) && Inv(s) && Lined(s, cap, live) && p < |s.producers|
    requires s.producers[p].Idle? && s.segs < maxSeg
    ensures Inv(t) && Leads(s0, cap, maxSeg, t) && Lined(t, cap, live + 1) && SameRest(s, t)
    ensures t.producers == s.producers[p := AddSegs(v)] && t.segs == s.segs
    ensures t.chain[live] == Segment([], 0) && |t.chain[live - 1].claimed| == cap
    ensures |t.sent| == |s.sent| > p && |t.sent[p]| == |s.sent[p]| + cap + 1 - |s.chain[live - 1].claimed|
  {
    hide Entries, InSendOrder, Receipts, RefusedPast, Leads;
    var s1 := FillTail(s0, cap, maxSeg, s, live, p, v);
    var s2 := StallAtSegs(s0, cap, maxSeg, s1, live, p, v);
    t := Link(s0, cap, maxSeg, s2, live, p, v);
  }

  // ---------------------------------------------------------------- taking and dropping

  /** The consumer, about to load head, takes one value and comes back to load head. */
  lemma TakeOne<V(!new)>(s0: State<V>, cap: nat, maxSeg: Word, s: State<V>) returns (t: State<V>)
    requires Inv(s0) && Leads(s0, cap, maxSeg, s) && Inv(s) && s.consumer.LoadHead?
    requires s.chain[s.head].taken < |s.chain[s.head].claimed|
    ensures Inv(t) && Leads(s0, cap, maxSeg, t) && t.consumer.LoadHead?
    ensures t == s.(chain := t.chain, received := t.received)
    ensures t.chain == s.chain[s.head := s.chain[s.head].(taken := s.chain[s.head].taken + 1)]
  {
    hide Entries, InSendOrder, Receipts, RefusedPast, Leads;
    var s1 := Consumed(s0, cap, maxSeg, s);
    var s2 := Consumed(s0, cap, maxSeg, s1);
    t := Consumed(s0, cap, maxSeg, s2);
  }

  /** It takes all the head segment holds. */
  lemma {:induction false} TakeAll<V(!new)>(s0: State<V>, cap: nat, maxSeg: Word, s: State<V>) returns (t: State<V>)
    requires Inv(s0) && Leads(s0, cap, maxSeg, s) && Inv(s) && s.consumer.LoadHead?
    ensures Inv(t) && Leads(s0, cap, maxSeg, t) && t.consumer.LoadHead?
    ensures t == s.(chain := t.chain, received := t.received)
    ensures t.chain == s.chain[s.head := s.chain[s.head].(taken := |s.chain[s.head].claimed|)]
    decreases |s.chain[s.head].claimed| - s.chain[s.head].taken
  {
    hide Entries, InSendOrder, Receipts, RefusedPast, Leads;
    t := s;
    if s.chain[s.head].taken < |s.chain[s.head].claimed| {
      t := TakeOne(s0, cap, maxSeg, s);
      t := TakeAll(s0, cap, maxSeg, t);
    }
  }

  /** Finding the head segment empty and a next one there, it moves on. */
  lemma MoveOn<V(!new)>(s0: State<V>, cap: nat, maxSeg: Word, s: State<V>) returns (t: State<V>)
    requires Inv(s0) && Leads(s0, cap, maxSeg, s) && Inv(s) && s.consumer.LoadHead?
    requires s.chain[s.head].taken == |s.chain[s.head].claimed| && s.head + 1 < |s.chain|
    ensures Inv(t) && Leads(s0, cap, maxSeg, t)
    ensures t == s.(head := s.head + 1, segs := Plus(s.segs, WORDS - 1))
  {
    hide Entries, InSendOrder, Receipts, RefusedPast, Leads, Plus;
    var s1 := Consumed(s0, cap, maxSeg, s);
    var s2 := Consumed(s0, cap, maxSeg, s1);
    t := PassHead(s0, cap, maxSeg, s2);
  }

  /** Having found the head segment empty some time ago, it moves past whatever is there now. */
  lemma PassHead<V(!new)>(s0: State<V>, cap: nat, maxSeg: Word, s: State<V>) returns (t: State<V>)
    requires Inv(s0) && Leads(s0, cap, maxSeg, s) && Inv(s) && s.consumer.LoadHeadNext? && s.head + 1 < |s.chain|
    ensures Inv(t) && Leads(s0, cap, maxSeg, t)
    ensures t == s.(consumer := LoadHead, head := s.head + 1, segs := Plus(s.segs, WORDS - 1))
  {
    hide Entries, InSendOrder, Receipts, RefusedPast, Leads, Plus;
    var s1 := Consumed(s0, cap, maxSeg, s);
    var s2 := Consumed(s0, cap, maxSeg, s1);
    t := Consumed(s0, cap, maxSeg, s2);
  }
}
