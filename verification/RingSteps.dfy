/**
  The lock-free ring as a machine whose steps are the individual atomic accesses of
  Enqueue and Dequeue. Any number of threads run at once; a thread's program counter holds
  the locals it has loaded so far, which may be stale by the time they are used.

  A run is a schedule: the list of threads that take the next step. All statements are
  for every schedule.
 */
module RingSteps {
  import opened Options
  import opened Slots

  datatype Cell<+V> = Cell(sq: nat, val: Option<V>)

  /** What a thread is about to do, with its locals. */
  datatype Pc<+V> =
    | Idle
    | EnqLoadTail(v: V)
    | EnqLoadSeq(v: V, pos: nat)
    | EnqCas(v: V, pos: nat)
    | EnqStoreVal(v: V, pos: nat)
    | EnqStoreSeq(v: V, pos: nat)
    | DeqLoadHead
    | DeqLoadSeq(pos: nat)
    | DeqCas(pos: nat)
    | DeqLoadVal(pos: nat)
    | DeqStoreNil(pos: nat, got: Option<V>)
    | DeqStoreSeq(pos: nat, got: Option<V>)

  datatype Call<+V> = Enqueue(v: V) | Dequeue

  /** What a call gives back, with the argument of an Enqueue. */
  datatype Answer<+V> = Accepted(v: V) | Full(v: V) | Got(item: Option<V>) | Nothing

  datatype Reply<+V> = Reply(thread: nat, answer: Answer<V>)

  /** `thread` takes one step; an idle thread begins `call`. */
  datatype Move<+V> = Move(thread: nat, call: Option<Call<V>>)

  /**
    `claimed[k]` is the value of the thread that won the k-th tail CAS. `returned` maps k
    to what the winner of the k-th head CAS handed back. `answers` is what the calls have
    returned so far. All three are history: no step reads them.
   */
  datatype State<+V> = State(
    cells: seq<Cell<V>>,
    head: nat,
    tail: nat,
    threads: seq<Pc<V>>,
    claimed: seq<V>,
    returned: map<nat, Option<V>>,
    answers: seq<Reply<V>>)

  function CellAt<V>(s: State<V>, p: nat): Cell<V>
    requires |s.cells| >= 1
  {
    s.cells[Slot(p, |s.cells|)]
  }

  function SetCell<V>(s: State<V>, p: nat, c: Cell<V>): (s': State<V>)
    requires |s.cells| >= 1
  {
    s.(cells := s.cells[Slot(p, |s.cells|) := c])
  }

  function Goto<V>(s: State<V>, t: nat, pc: Pc<V>): State<V>
    requires t < |s.threads|
  {
    s.(threads := s.threads[t := pc])
  }

  /** The call of thread t returns. */
  function Return<V>(s: State<V>, t: nat, a: Answer<V>): State<V>
    requires t < |s.threads|
  {
    Goto(s, t, Idle).(answers := s.answers + [Reply(t, a)])
  }

  /** The ring NewRing builds for capacity `cap`, with `n` idle threads. */
  function Init<V>(cap: nat, n: nat): State<V> {
    State(seq(cap, i requires 0 <= i < cap => Cell(i, None)), 0, 0, seq(n, _ => Idle), [], map[], [])
  }

  /** One atomic access by thread `t`, following the loops of Enqueue and Dequeue. */
  function Advance<V>(s: State<V>, t: nat, call: Option<Call<V>>): State<V>
    requires |s.cells| >= 1 && t < |s.threads|
  {
    match s.threads[t]
    case Idle =>
      (match call
       case None => s
       case Some(Enqueue(v)) => Goto(s, t, EnqLoadTail(v))
       case Some(Dequeue) => Goto(s, t, DeqLoadHead))
    case EnqLoadTail(v) => Goto(s, t, EnqLoadSeq(v, s.tail))
    case EnqLoadSeq(v, pos) =>
      var dif := CellAt(s, pos).sq - pos;
      if dif == 0 then Goto(s, t, EnqCas(v, pos))
      else if dif < 0 then Return(s, t, Full(v))        // false
      else Goto(s, t, EnqLoadTail(v))                   // retry
    case EnqCas(v, pos) =>
      if s.tail == pos then
        Goto(s, t, EnqStoreVal(v, pos)).(tail := pos + 1, claimed := s.claimed + [v])
      else Goto(s, t, EnqLoadTail(v))                   // retry
    case EnqStoreVal(v, pos) =>
      SetCell(Goto(s, t, EnqStoreSeq(v, pos)), pos, CellAt(s, pos).(val := Some(v)))
    case EnqStoreSeq(v, pos) =>
      SetCell(Return(s, t, Accepted(v)), pos, CellAt(s, pos).(sq := pos + 1))    // true
    case DeqLoadHead => Goto(s, t, DeqLoadSeq(s.head))
    case DeqLoadSeq(pos) =>
      var dif := CellAt(s, pos).sq - (pos + 1);
      if dif == 0 then Goto(s, t, DeqCas(pos))
      else if dif < 0 then Return(s, t, Nothing)        // nil, false
      else Goto(s, t, DeqLoadHead)                      // retry
    case DeqCas(pos) =>
      if s.head == pos then Goto(s, t, DeqLoadVal(pos)).(head := pos + 1)
      else Goto(s, t, DeqLoadHead)                      // retry
    case DeqLoadVal(pos) => Goto(s, t, DeqStoreNil(pos, CellAt(s, pos).val))
    case DeqStoreNil(pos, got) =>
      SetCell(Goto(s, t, DeqStoreSeq(pos, got)), pos, CellAt(s, pos).(val := None))
    case DeqStoreSeq(pos, got) =>
      // head + mask + 1 is head + capacity; then got, true
      SetCell(Return(s, t, Got(got)), pos, CellAt(s, pos).(sq := pos + |s.cells|))
      .(returned := s.returned[pos := got])
  }

  function Step<V>(s: State<V>, m: Move<V>): State<V>
    requires |s.cells| >= 1
  {
    if m.thread < |s.threads| then Advance(s, m.thread, m.call) else s
  }

  /** The state after a whole schedule. */
  function Run<V>(s: State<V>, schedule: seq<Move<V>>): (s': State<V>)
    requires |s.cells| >= 1
    ensures |s'.cells| == |s.cells| && |s'.threads| == |s.threads|
    decreases |schedule|
  {
    if schedule == [] then s
    else
      var before := Run(s, schedule[..|schedule| - 1]);
      Step(before, schedule[|schedule| - 1])
  }

  // ---------------------------------------------------------------- the invariant

  /** Between winning the tail CAS and publishing the position. */
  predicate WriterState<V>(pc: Pc<V>) {
    pc.EnqStoreVal? || pc.EnqStoreSeq?
  }

  /** Between winning the head CAS and releasing the position. */
  predicate ReaderState<V>(pc: Pc<V>) {
    pc.DeqLoadVal? || pc.DeqStoreNil? || pc.DeqStoreSeq?
  }

  predicate Writes<V>(pc: Pc<V>, p: nat) {
    WriterState(pc) && pc.pos == p
  }

  predicate Reads<V>(pc: Pc<V>, p: nat) {
    ReaderState(pc) && pc.pos == p
  }

  ghost predicate HasWriter<V>(s: State<V>, p: nat) {
    exists t :: 0 <= t < |s.threads| && Writes(s.threads[t], p)
  }

  ghost predicate HasReader<V>(s: State<V>, p: nat) {
    exists t :: 0 <= t < |s.threads| && Reads(s.threads[t], p)
  }

  /** A position claimed by an enqueue and not yet by a dequeue: being written, or published. */
  ghost predicate HeldOk<V>(s: State<V>, p: nat)
    requires |s.cells| >= 1
  {
    var c := CellAt(s, p);
    || (c.sq == p && HasWriter(s, p))
    || (c.sq == p + 1 && p < |s.claimed| && c.val == Some(s.claimed[p]))
  }

  /** A position no enqueue has claimed: ready, or its previous round is still being read. */
  ghost predicate OpenOk<V>(s: State<V>, p: nat)
    requires |s.cells| >= 1
  {
    var c := CellAt(s, p);
    || c.sq == p
    || (p >= |s.cells| && c.sq == p - |s.cells| + 1 && HasReader(s, p - |s.cells|))
  }

  /** What a thread may rely on about its own, possibly stale, locals. */
  ghost predicate ThreadOk<V>(s: State<V>, pc: Pc<V>)
    requires |s.cells| >= 1
  {
    && (pc.EnqLoadSeq? || pc.EnqCas? ==> pc.pos <= s.tail)
    && (pc.EnqCas? && pc.pos == s.tail ==> CellAt(s, pc.pos).sq == pc.pos)
    && (WriterState(pc) ==> WriterOk(s, pc.v, pc.pos))
    && (pc.EnqStoreSeq? ==> CellAt(s, pc.pos).val == Some(pc.v))
    && (pc.DeqLoadSeq? || pc.DeqCas? ==> pc.pos <= s.head)
    && (pc.DeqCas? && pc.pos == s.head ==> CellAt(s, pc.pos).sq == pc.pos + 1)
    && (ReaderState(pc) ==> ReaderOk(s, pc.pos))
    && (pc.DeqLoadVal? ==> CellAt(s, pc.pos).val == Some(s.claimed[pc.pos]))
    && (pc.DeqStoreNil? || pc.DeqStoreSeq? ==> pc.got == Some(s.claimed[pc.pos]))
  }

  ghost predicate WriterOk<V>(s: State<V>, v: V, pos: nat)
    requires |s.cells| >= 1
  {
    s.head <= pos < s.tail && pos < |s.claimed| && s.claimed[pos] == v && CellAt(s, pos).sq == pos
  }

  ghost predicate ReaderOk<V>(s: State<V>, pos: nat)
    requires |s.cells| >= 1
  {
    pos < s.head && s.tail <= pos + |s.cells| && pos < |s.claimed| && CellAt(s, pos).sq == pos + 1
    && pos !in s.returned
  }

  /** Two threads never own the same position in the same role. */
  predicate Apart<V>(a: Pc<V>, b: Pc<V>) {
    && (WriterState(a) && WriterState(b) ==> a.pos != b.pos)
    && (ReaderState(a) && ReaderState(b) ==> a.pos != b.pos)
  }

  predicate SameRole<V>(a: Pc<V>, b: Pc<V>) {
    && WriterState(a) == WriterState(b)
    && ReaderState(a) == ReaderState(b)
    && (WriterState(a) || ReaderState(a) ==> a.pos == b.pos)
  }

  ghost predicate Exclusive<V>(s: State<V>) {
    forall t, u {:trigger s.threads[t], s.threads[u]} :: 0 <= t < |s.threads| && 0 <= u < |s.threads| && t != u ==>
      Apart(s.threads[t], s.threads[u])
  }

  ghost predicate Delivered<V>(s: State<V>) {
    forall k :: k in s.returned ==>
      k < s.head && k < |s.claimed| && s.returned[k] == Some(s.claimed[k])
  }

  /** Every position a dequeue has claimed has been handed back, or its reader is still at work. */
  ghost predicate Accounted<V>(s: State<V>) {
    forall k: nat {:trigger k in s.returned} :: k < s.head && k !in s.returned ==> HasReader(s, k)
  }

  ghost predicate Inv<V>(s: State<V>) {
    && |s.cells| >= 2
    && s.head <= s.tail <= s.head + |s.cells|
    && |s.claimed| == s.tail
    && (forall p {:trigger HeldOk(s, p)} :: s.head <= p < s.tail ==> HeldOk(s, p))
    && (forall p {:trigger OpenOk(s, p)} :: s.tail <= p < s.head + |s.cells| ==> OpenOk(s, p))
    && (forall t :: 0 <= t < |s.threads| ==> ThreadOk(s, s.threads[t]))
    && Exclusive(s)
    && Delivered(s)
    && Accounted(s)
  }

  // ---------------------------------------------------------------- every step keeps the invariant

  lemma InitInv<V>(cap: nat, n: nat)
    requires cap >= 2
    ensures Inv(Init<V>(cap, n))
  {
    var s := Init<V>(cap, n);
    assert forall p: nat :: p < cap ==> CellAt(s, p).sq == p;
  }

  /** Witnesses survive a step of thread `t` at positions `t` does not give up. */
  lemma KeepOwners<V>(s: State<V>, s': State<V>, t: nat)
    requires t < |s.threads| && |s'.threads| == |s.threads|
    requires forall u :: 0 <= u < |s.threads| && u != t ==> s'.threads[u] == s.threads[u]
    ensures forall p: nat :: HasWriter(s, p) && (Writes(s.threads[t], p) ==> Writes(s'.threads[t], p)) ==> HasWriter(s', p)
    ensures forall p: nat :: HasReader(s, p) && (Reads(s.threads[t], p) ==> Reads(s'.threads[t], p)) ==> HasReader(s', p)
  {
    forall p: nat | HasWriter(s, p) && (Writes(s.threads[t], p) ==> Writes(s'.threads[t], p)) ensures HasWriter(s', p) {
      var u :| 0 <= u < |s.threads| && Writes(s.threads[u], p);
      assert Writes(s'.threads[u], p);
    }
    forall p: nat | HasReader(s, p) && (Reads(s.threads[t], p) ==> Reads(s'.threads[t], p)) ensures HasReader(s', p) {
      var u :| 0 <= u < |s.threads| && Reads(s.threads[u], p);
      assert Reads(s'.threads[u], p);
    }
  }

  /** A step that moves no index and writes no cell, and neither starts nor ends an access. */
  lemma QuietStep<V>(s: State<V>, t: nat, pc: Pc<V>)
    requires Inv(s) && t < |s.threads| && ThreadOk(s, pc)
    requires SameRole(s.threads[t], pc)
    ensures Inv(Goto(s, t, pc))
  {
    var s' := Goto(s, t, pc);
    KeepOwners(s, s', t);
    forall p | s.head <= p < s.tail ensures HeldOk(s', p) { assert HeldOk(s, p); }
    forall p | s.tail <= p < s.head + |s.cells| ensures OpenOk(s', p) { assert OpenOk(s, p); }
    forall u | 0 <= u < |s.threads| ensures ThreadOk(s', s'.threads[u]) { assert ThreadOk(s, s.threads[u]); }
  }

  /** The cell of a won tail CAS is ready: one round behind, everything has been released. */
  lemma TailIsReady<V>(s: State<V>, t: nat)
    requires Inv(s) && t < |s.threads| && s.threads[t].EnqCas? && s.tail == s.threads[t].pos
    ensures s.tail < s.head + |s.cells| && CellAt(s, s.tail).sq == s.tail
    ensures forall u :: 0 <= u < |s.threads| && ReaderState(s.threads[u]) ==> s.tail < s.threads[u].pos + |s.cells|
  {
    assert ThreadOk(s, s.threads[t]);
    SlotsNear(s.tail, |s.cells|);
    assert s.tail < s.head + |s.cells| by { assert s.tail > s.head ==> HeldOk(s, s.head); }
    forall u | 0 <= u < |s.threads| && ReaderState(s.threads[u])
      ensures s.tail < s.threads[u].pos + |s.cells|
    {
      assert ThreadOk(s, s.threads[u]);
      assert Slot(s.threads[u].pos + |s.cells|, |s.cells|) == Slot(s.threads[u].pos, |s.cells|);
    }
  }

  lemma ClaimTail<V>(s: State<V>, t: nat)
    requires Inv(s) && t < |s.threads| && s.threads[t].EnqCas? && s.tail == s.threads[t].pos
    ensures Inv(Advance(s, t, None))
  {
    TailIsReady(s, t);
    var pos := s.tail;
    var v := s.threads[t].v;
    var s' := Goto(s, t, EnqStoreVal(v, pos)).(tail := pos + 1, claimed := s.claimed + [v]);
    assert s' == Advance(s, t, None);
    KeepOwners(s, s', t);
    assert HeldOk(s', pos) by { assert Writes(s'.threads[t], pos); }
    forall p | s'.head <= p < s'.tail ensures HeldOk(s', p) { if p != pos { assert HeldOk(s, p); } }
    forall p | s'.tail <= p < s'.head + |s.cells| ensures OpenOk(s', p) { assert OpenOk(s, p); }
    forall u | 0 <= u < |s.threads| ensures ThreadOk(s', s'.threads[u]) { assert ThreadOk(s, s.threads[u]); }
  }

  /** The cell of a won head CAS is published and holds the claimed value. */
  lemma HeadIsPublished<V>(s: State<V>, t: nat)
    requires Inv(s) && t < |s.threads| && s.threads[t].DeqCas? && s.head == s.threads[t].pos
    ensures s.head < s.tail && CellAt(s, s.head).sq == s.head + 1 && CellAt(s, s.head).val == Some(s.claimed[s.head])
  {
    assert ThreadOk(s, s.threads[t]);
    assert s.head < s.tail by { assert s.head == s.tail ==> OpenOk(s, s.head); }
    assert HeldOk(s, s.head);
  }

  lemma ClaimHead<V>(s: State<V>, t: nat)
    requires Inv(s) && t < |s.threads| && s.threads[t].DeqCas? && s.head == s.threads[t].pos
    ensures Inv(Advance(s, t, None))
  {
    HeadIsPublished(s, t);
    var pos := s.head;
    var s' := Goto(s, t, DeqLoadVal(pos)).(head := pos + 1);
    assert s' == Advance(s, t, None);
    KeepOwners(s, s', t);
    assert HasReader(s', pos) by { assert Reads(s'.threads[t], pos); }
    assert CellAt(s, pos + |s.cells|) == CellAt(s, pos);
    assert OpenOk(s', pos + |s.cells|) by { assert Reads(s'.threads[t], pos); }
    forall p | s'.head <= p < s'.tail ensures HeldOk(s', p) { assert HeldOk(s, p); }
    forall p | s'.tail <= p < s'.head + |s.cells| ensures OpenOk(s', p) {
      if p != pos + |s.cells| { assert OpenOk(s, p); }
    }
    forall u | 0 <= u < |s.threads| ensures ThreadOk(s', s'.threads[u]) { assert ThreadOk(s, s.threads[u]); }
  }

  /** The thread's next access trusts what it saw in the cell of its position. */
  predicate Relies<V>(s: State<V>, pc: Pc<V>) {
    || (pc.EnqCas? && pc.pos == s.tail)
    || (pc.DeqCas? && pc.pos == s.head)
    || WriterState(pc)
    || ReaderState(pc)
  }

  /** A thread that won a CAS owns its cell: no other thread relies on that cell. */
  lemma OwnedByOne<V>(s: State<V>, t: nat, u: nat)
    requires Inv(s) && t < |s.threads| && u < |s.threads| && t != u
    requires WriterState(s.threads[t]) || ReaderState(s.threads[t])
    requires Relies(s, s.threads[u])
    ensures Slot(s.threads[u].pos, |s.cells|) != Slot(s.threads[t].pos, |s.cells|)
  {
    var pc, pos := s.threads[u], s.threads[t].pos;
    assert ThreadOk(s, s.threads[t]) && ThreadOk(s, pc);
    SlotsNear(pos, |s.cells|);
    assert Apart(pc, s.threads[t]);
  }

  /** The only position of the current window that uses an owned cell. */
  function OwnPosition<V>(s: State<V>, pc: Pc<V>): nat
    requires WriterState(pc) || ReaderState(pc)
  {
    if WriterState(pc) then pc.pos else pc.pos + |s.cells|
  }

  lemma OwnedInWindow<V>(s: State<V>, t: nat, p: nat)
    requires Inv(s) && t < |s.threads| && s.head <= p < s.head + |s.cells|
    requires WriterState(s.threads[t]) || ReaderState(s.threads[t])
    ensures s.head <= OwnPosition(s, s.threads[t]) < s.head + |s.cells|
    ensures Slot(OwnPosition(s, s.threads[t]), |s.cells|) == Slot(s.threads[t].pos, |s.cells|)
    ensures p != OwnPosition(s, s.threads[t]) ==> Slot(p, |s.cells|) != Slot(s.threads[t].pos, |s.cells|)
  {
    var pos := s.threads[t].pos;
    assert ThreadOk(s, s.threads[t]);
    SlotsNear(pos, |s.cells|);
    if p < s.tail { assert HeldOk(s, p); } else { assert OpenOk(s, p); }
  }

  /** A write by thread `t` to the cell it owns, after which it goes to `pc`. */
  function OwnerWrite<V>(s: State<V>, t: nat, c: Cell<V>, pc: Pc<V>, returned: map<nat, Option<V>>): (s': State<V>)
    requires |s.cells| >= 1 && t < |s.threads| && (WriterState(s.threads[t]) || ReaderState(s.threads[t]))
  {
    SetCell(Goto(s, t, pc), s.threads[t].pos, c).(returned := returned)
  }

  lemma OwnerWriteThreads<V>(s: State<V>, t: nat, c: Cell<V>, pc: Pc<V>, returned: map<nat, Option<V>>)
    requires Inv(s) && t < |s.threads|
    requires WriterState(s.threads[t]) || ReaderState(s.threads[t])
    requires forall k :: k in returned.Keys ==> k in s.returned.Keys || (k == s.threads[t].pos && ReaderState(s.threads[t]))
    ensures forall u :: 0 <= u < |s.threads| && u != t ==> ThreadOk(OwnerWrite(s, t, c, pc, returned), s.threads[u])
  {
    var pos := s.threads[t].pos;
    forall u | 0 <= u < |s.threads| && u != t ensures ThreadOk(OwnerWrite(s, t, c, pc, returned), s.threads[u]) {
      assert ThreadOk(s, s.threads[u]);
      if Relies(s, s.threads[u]) {
        OwnedByOne(s, t, u);
        assert Apart(s.threads[u], s.threads[t]);
      }
    }
  }

  lemma OwnerWriteCells<V>(s: State<V>, t: nat, c: Cell<V>, pc: Pc<V>, returned: map<nat, Option<V>>)
    requires Inv(s) && t < |s.threads|
    requires WriterState(s.threads[t]) || ReaderState(s.threads[t])
    ensures var s' := OwnerWrite(s, t, c, pc, returned); var own := OwnPosition(s, s.threads[t]);
      && (forall p {:trigger HeldOk(s', p)} :: s.head <= p < s.tail && p != own ==> HeldOk(s', p))
      && (forall p {:trigger OpenOk(s', p)} :: s.tail <= p < s.head + |s.cells| && p != own ==> OpenOk(s', p))
  {
    var pos, own := s.threads[t].pos, OwnPosition(s, s.threads[t]);
    var s' := OwnerWrite(s, t, c, pc, returned);
    KeepOwners(s, s', t);
    assert forall q: nat :: Slot(q, |s.cells|) != Slot(pos, |s.cells|) ==> CellAt(s', q) == CellAt(s, q);
    forall p | s.head <= p < s.tail && p != own ensures HeldOk(s', p) {
      OwnedInWindow(s, t, p);
      assert HeldOk(s, p);
      assert HasWriter(s, p) && Writes(s.threads[t], p) ==> p == own;
    }
    forall p | s.tail <= p < s.head + |s.cells| && p != own ensures OpenOk(s', p) {
      OwnedInWindow(s, t, p);
      assert OpenOk(s, p);
      assert p >= |s.cells| && Reads(s.threads[t], p - |s.cells|) ==> p == own;
    }
  }

  /** The owner may write anything that leaves its own position and its own locals in order. */
  lemma OwnerWrites<V>(s: State<V>, t: nat, c: Cell<V>, pc: Pc<V>, returned: map<nat, Option<V>>)
    requires Inv(s) && t < |s.threads|
    requires WriterState(s.threads[t]) || ReaderState(s.threads[t])
    requires SameRole(s.threads[t], pc) || pc.Idle?
    requires returned.Keys == s.returned.Keys + if ReaderState(s.threads[t]) && pc.Idle? then {s.threads[t].pos} else {}
    requires Delivered(OwnerWrite(s, t, c, pc, returned))
    requires ThreadOk(OwnerWrite(s, t, c, pc, returned), pc)
    requires var p := OwnPosition(s, s.threads[t]);
      if p < s.tail then HeldOk(OwnerWrite(s, t, c, pc, returned), p) else OpenOk(OwnerWrite(s, t, c, pc, returned), p)
    ensures Inv(OwnerWrite(s, t, c, pc, returned))
  {
    var s' := OwnerWrite(s, t, c, pc, returned);
    OwnerWriteThreads(s, t, c, pc, returned);
    OwnerWriteCells(s, t, c, pc, returned);
    assert Accounted(s') by { KeepOwners(s, s', t); }
  }

  /** The answers are only recorded. */
  lemma RecordingKeepsInv<V>(s: State<V>, answers: seq<Reply<V>>)
    requires Inv(s)
    ensures Inv(s.(answers := answers))
  {
    var s' := s.(answers := answers);
    assert forall p: nat :: HasWriter(s, p) ==> HasWriter(s', p);
    assert forall p: nat :: HasReader(s, p) ==> HasReader(s', p);
    forall p | s'.head <= p < s'.tail ensures HeldOk(s', p) { assert HeldOk(s, p); }
    forall p | s'.tail <= p < s'.head + |s'.cells| ensures OpenOk(s', p) { assert OpenOk(s, p); }
    forall u | 0 <= u < |s'.threads| ensures ThreadOk(s', s'.threads[u]) { assert ThreadOk(s, s.threads[u]); }
  }

  lemma StoreVal<V>(s: State<V>, t: nat)
    requires Inv(s) && t < |s.threads| && s.threads[t].EnqStoreVal?
    ensures Inv(Advance(s, t, None))
  {
    var EnqStoreVal(v, pos) := s.threads[t];
    assert ThreadOk(s, s.threads[t]);
    var c := CellAt(s, pos).(val := Some(v));
    assert Writes(SetCell(Goto(s, t, EnqStoreSeq(v, pos)), pos, c).threads[t], pos);
    OwnerWrites(s, t, c, EnqStoreSeq(v, pos), s.returned);
  }

  lemma PublishSeq<V>(s: State<V>, t: nat)
    requires Inv(s) && t < |s.threads| && s.threads[t].EnqStoreSeq?
    ensures Inv(Advance(s, t, None))
  {
    var pos := s.threads[t].pos;
    assert ThreadOk(s, s.threads[t]);
    OwnerWrites(s, t, CellAt(s, pos).(sq := pos + 1), Idle, s.returned);
    var s' := OwnerWrite(s, t, CellAt(s, pos).(sq := pos + 1), Idle, s.returned);
    RecordingKeepsInv(s', Advance(s, t, None).answers);
  }

  lemma StoreNil<V>(s: State<V>, t: nat)
    requires Inv(s) && t < |s.threads| && s.threads[t].DeqStoreNil?
    ensures Inv(Advance(s, t, None))
  {
    var DeqStoreNil(pos, got) := s.threads[t];
    assert ThreadOk(s, s.threads[t]);
    OwnedInWindow(s, t, s.head);
    var c := CellAt(s, pos).(val := None);
    assert Reads(SetCell(Goto(s, t, DeqStoreSeq(pos, got)), pos, c).threads[t], pos);
    OwnerWrites(s, t, c, DeqStoreSeq(pos, got), s.returned);
  }

  lemma ReleaseSeq<V>(s: State<V>, t: nat)
    requires Inv(s) && t < |s.threads| && s.threads[t].DeqStoreSeq?
    ensures Inv(Advance(s, t, None))
  {
    var DeqStoreSeq(pos, got) := s.threads[t];
    assert ThreadOk(s, s.threads[t]);
    OwnedInWindow(s, t, s.head);
    var c := CellAt(s, pos).(sq := pos + |s.cells|);
    var s' := OwnerWrite(s, t, c, Idle, s.returned[pos := got]);
    assert OpenOk(s', pos + |s.cells|) by { assert CellAt(s', pos + |s.cells|) == c; }
    assert s.returned[pos := got].Keys == s.returned.Keys + {pos};
    OwnerWrites(s, t, c, Idle, s.returned[pos := got]);
    RecordingKeepsInv(s', Advance(s, t, None).answers);
    assert s'.(answers := Advance(s, t, None).answers) == Advance(s, t, None);
  }

  lemma CallKeepsInv<V>(s: State<V>, t: nat, call: Option<Call<V>>)
    requires Inv(s) && t < |s.threads| && s.threads[t].Idle?
    ensures Inv(Advance(s, t, call))
  {
    match call {
      case None =>
      case Some(Enqueue(v)) => QuietStep(s, t, EnqLoadTail(v));
      case Some(Dequeue) => QuietStep(s, t, DeqLoadHead);
    }
  }

  lemma EnqueueStepKeepsInv<V>(s: State<V>, t: nat)
    requires Inv(s) && t < |s.threads|
    requires s.threads[t].EnqLoadTail? || s.threads[t].EnqLoadSeq? || s.threads[t].EnqCas?
    ensures Inv(Advance(s, t, None))
  {
    match s.threads[t] {
      case EnqLoadTail(v) => QuietStep(s, t, EnqLoadSeq(v, s.tail));
      case EnqLoadSeq(v, pos) =>
        assert ThreadOk(s, s.threads[t]);
        var dif := CellAt(s, pos).sq - pos;
        var pc := if dif == 0 then EnqCas(v, pos) else if dif < 0 then Idle else EnqLoadTail(v);
        QuietStep(s, t, pc);
        RecordingKeepsInv(Goto(s, t, pc), Advance(s, t, None).answers);
      case EnqCas(v, pos) =>
        if s.tail == pos { ClaimTail(s, t); } else { QuietStep(s, t, EnqLoadTail(v)); }
    }
  }

  lemma DequeueStepKeepsInv<V>(s: State<V>, t: nat)
    requires Inv(s) && t < |s.threads|
    requires s.threads[t].DeqLoadHead? || s.threads[t].DeqLoadSeq? || s.threads[t].DeqCas? || s.threads[t].DeqLoadVal?
    ensures Inv(Advance(s, t, None))
  {
    match s.threads[t] {
      case DeqLoadHead => QuietStep(s, t, DeqLoadSeq(s.head));
      case DeqLoadSeq(pos) =>
        assert ThreadOk(s, s.threads[t]);
        var dif := CellAt(s, pos).sq - (pos + 1);
        var pc := if dif == 0 then DeqCas(pos) else if dif < 0 then Idle else DeqLoadHead;
        QuietStep(s, t, pc);
        RecordingKeepsInv(Goto(s, t, pc), Advance(s, t, None).answers);
      case DeqCas(pos) =>
        if s.head == pos { ClaimHead(s, t); } else { QuietStep(s, t, DeqLoadHead); }
      case DeqLoadVal(pos) =>
        assert ThreadOk(s, s.threads[t]);
        QuietStep(s, t, DeqStoreNil(pos, CellAt(s, pos).val));
    }
  }

  lemma StepKeepsInv<V>(s: State<V>, m: Move<V>)
    requires Inv(s)
    ensures Inv(Step(s, m))
  {
    if m.thread < |s.threads| {
      var t := m.thread;
      match s.threads[t] {
        case Idle => CallKeepsInv(s, t, m.call);
        case EnqStoreVal(v, pos) => StoreVal(s, t);
        case EnqStoreSeq(v, pos) => PublishSeq(s, t);
        case DeqStoreNil(pos, got) => StoreNil(s, t);
        case DeqStoreSeq(pos, got) => ReleaseSeq(s, t);
        case EnqLoadTail(_) => EnqueueStepKeepsInv(s, t);
        case EnqLoadSeq(_, _) => EnqueueStepKeepsInv(s, t);
        case EnqCas(_, _) => EnqueueStepKeepsInv(s, t);
        case DeqLoadHead => DequeueStepKeepsInv(s, t);
        case DeqLoadSeq(_) => DequeueStepKeepsInv(s, t);
        case DeqCas(_) => DequeueStepKeepsInv(s, t);
        case DeqLoadVal(_) => DequeueStepKeepsInv(s, t);
      }
    }
  }

  lemma {:induction false} RunKeepsInv<V>(s: State<V>, schedule: seq<Move<V>>)
    requires Inv(s)
    ensures Inv(Run(s, schedule))
    decreases |schedule|
  {
    if schedule != [] {
      var last := |schedule| - 1;
      RunKeepsInv(s, schedule[..last]);
      StepKeepsInv(Run(s, schedule[..last]), schedule[last]);
    }
  }
}
