/**
  The ring as an object called by one caller at a time, on 64-bit wrapping counters,
  `& mask` indexing and the signed sequence difference. Its contents are a bounded FIFO.
 */
module Rings {
  import opened Options
  import opened Words
  import opened Slots

  datatype Cell<+T> = Cell(sq: Word, val: Option<T>)

  /** The i-th value of NewRing's doubling loop variable. */
  function Doubled(i: nat): Word {
    if i == 0 then 1 else Wrap(2 * Doubled(i - 1))
  }

  /** Doubling fits in a word below 2^63 and wraps to 0 at 2^63. */
  lemma DoublingWraps(x: Word)
    ensures x < HALF ==> Wrap(2 * x) == 2 * x
    ensures x == HALF ==> Wrap(2 * x) == 0
  {
  }

  lemma {:induction false} DoubledIsPow2(i: nat)
    ensures Doubled(i) == if i < 64 then Pow2(i) else 0
  {
    if i > 0 {
      DoubledIsPow2(i - 1);
      Pow2Word();
      DoublingWraps(Doubled(i - 1));
      if i < 64 {
        if i < 63 { Pow2Grows(i, 63); }
        assert Pow2(i) == 2 * Pow2(i - 1);
      }
      hide Wrap, Pow2;
    }
  }

  /** The doubling loop reaches the request exactly when the request is at most 2^63. */
  lemma DoublingReaches(capacity: Word)
    ensures (exists i :: Doubled(i) >= capacity) <==> capacity <= HALF
  {
    Pow2Word();
    if capacity <= HALF {
      DoubledIsPow2(63);
      assert Doubled(63) >= capacity;
    } else {
      forall i ensures Doubled(i) < capacity {
        DoubledIsPow2(i);
        if i < 63 { Pow2Grows(i, 63); }
      }
    }
  }

  /** `c` is the least power of two that is at least 2 and at least the request. */
  ghost predicate RoundsUp(c: int, capacity: Word) {
    && (exists k :: c == Pow2(k))
    && c >= 2 && c >= capacity
    && forall j :: Pow2(j) >= 2 && Pow2(j) >= capacity ==> c <= Pow2(j)
  }

  lemma RoundsUpOnce(c: int, d: int, capacity: Word)
    requires RoundsUp(c, capacity) && RoundsUp(d, capacity)
    ensures c == d
  {
    var k :| c == Pow2(k);
    var j :| d == Pow2(j);
    assert c <= Pow2(j) && d <= Pow2(k);
  }

  /** The rounding loop of NewRing. */
  method RoundUp(capacity: Word) returns (c: Word, ghost k: nat)
    requires capacity <= HALF
    ensures 1 <= k <= 63 && c == Pow2(k)
    ensures RoundsUp(c, capacity) && c <= HALF
  {
    var want := if capacity < 2 then 2 else capacity;
    c, k := 1, 0;
    Pow2Word();
    while c < want
      invariant k <= 63 && c == Pow2(k)
      invariant k > 0 ==> Pow2(k - 1) < want
      decreases 63 - k
    {
      if k < 63 { Pow2Grows(k, 63); }
      c, k := Wrap(2 * c), k + 1;
    }
    if k < 63 { Pow2Grows(k, 63); }
    forall j: nat | Pow2(j) >= 2 && Pow2(j) >= capacity ensures c <= Pow2(j) {
      if j < k - 1 { Pow2Grows(j, k - 1); }
      if k < j { Pow2Grows(k, j); }
    }
  }

  /** The cell of position p in a ring holding `contents` at positions hpos.. */
  ghost function Expected<T>(hpos: nat, contents: seq<T>, p: nat): Cell<T> {
    if hpos <= p < hpos + |contents| then Cell(Wrap(p + 1), Some(contents[p - hpos])) else Cell(Wrap(p), None)
  }

  /** The cells of one whole round, from hpos on, are as a quiet ring leaves them. */
  ghost predicate Holds<T>(cells: seq<Cell<T>>, hpos: nat, contents: seq<T>)
    requires |cells| >= 2
  {
    && |contents| <= |cells|
    && forall p {:trigger Slot(p, |cells|)} :: hpos <= p < hpos + |cells| ==> cells[Slot(p, |cells|)] == Expected(hpos, contents, p)
  }

  lemma PutHolds<T>(cells: seq<Cell<T>>, hpos: nat, contents: seq<T>, v: T)
    requires |cells| >= 2 && Holds(cells, hpos, contents) && |contents| < |cells|
    ensures var pos := hpos + |contents|;
      Holds(cells[Slot(pos, |cells|) := Cell(Wrap(pos + 1), Some(v))], hpos, contents + [v])
  {
    var cap, pos := |cells|, hpos + |contents|;
    forall p | hpos <= p < hpos + cap && p != pos ensures Slot(p, cap) != Slot(pos, cap) {
      if p < pos { SlotsApart(p, pos, cap); } else { SlotsApart(pos, p, cap); }
    }
  }

  lemma TakeHolds<T>(cells: seq<Cell<T>>, hpos: nat, contents: seq<T>)
    requires |cells| >= 2 && Holds(cells, hpos, contents) && contents != []
    ensures Holds(cells[Slot(hpos, |cells|) := Cell(Wrap(hpos + |cells|), None)], hpos + 1, contents[1..])
  {
    hide Wrap;
    var cap := |cells|;
    var released := cells[Slot(hpos, cap) := Cell(Wrap(hpos + cap), None)];
    assert Slot(hpos + cap, cap) == Slot(hpos, cap);
    forall p {:trigger Slot(p, cap)} | hpos + 1 <= p < hpos + 1 + cap
      ensures released[Slot(p, cap)] == Expected(hpos + 1, contents[1..], p)
    {
      if p < hpos + cap {
        SlotsApart(hpos, p, cap);
        assert released[Slot(p, cap)] == cells[Slot(p, cap)] == Expected(hpos, contents, p);
      }
    }
  }

  lemma FreshHolds<T>(cells: seq<Cell<T>>)
    requires 2 <= |cells| <= HALF && forall i :: 0 <= i < |cells| ==> cells[i] == Cell(i, None)
    ensures Holds(cells, 0, [])
  {
  }

  /** What Enqueue reads: the signed difference is 0 with room to spare and negative when full. */
  lemma EnqueueReads<T>(cells: seq<Cell<T>>, hpos: nat, contents: seq<T>)
    requires 2 <= |cells| <= HALF && Holds(cells, hpos, contents)
    ensures var pos := hpos + |contents|;
      Diff(cells[Slot(pos, |cells|)].sq, Wrap(pos)) == if |contents| < |cells| then 0 else 1 - |cells|
  {
    var pos := hpos + |contents|;
    if |contents| < |cells| {
      DiffIsDistance(pos, pos);
    } else {
      assert Slot(pos, |cells|) == Slot(hpos, |cells|);
      DiffIsDistance(hpos + 1, pos);
    }
  }

  /** What Dequeue reads: 0 when something is held, and then the front is in that cell; -1 when empty. */
  lemma DequeueReads<T>(cells: seq<Cell<T>>, hpos: nat, contents: seq<T>)
    requires 2 <= |cells| <= HALF && Holds(cells, hpos, contents)
    ensures Diff(cells[Slot(hpos, |cells|)].sq, Wrap(hpos + 1)) == if contents == [] then -1 else 0
    ensures contents != [] ==> cells[Slot(hpos, |cells|)].val == Some(contents[0])
  {
    DiffIsDistance(if contents == [] then hpos else hpos + 1, hpos + 1);
  }

  class Ring<T> {
    const mask: Word
    const buf: array<Cell<T>>
    var head: Word
    var tail: Word

    /** The position of the front, as a counter that never wraps; and what is held from there. */
    ghost var hpos: nat
    ghost var contents: seq<T>
    ghost const order: nat

    function Capacity(): nat { buf.Length }

    ghost predicate Shape() {
      1 <= order <= 63 && buf.Length == Pow2(order) == mask + 1 && 2 <= buf.Length <= HALF
    }

    ghost predicate Valid()
      reads this, buf
    {
      && Shape()
      && head == Wrap(hpos) && tail == Wrap(hpos + |contents|)
      && Holds(buf[..], hpos, contents)
    }

    constructor (capacity: Word)
      requires capacity <= HALF
      ensures Valid() && fresh(buf)
      ensures contents == [] && hpos == 0
      ensures RoundsUp(Capacity(), capacity)
    {
      var c, k := RoundUp(capacity);
      mask := c - 1;
      buf := new Cell<T>[c](_ => Cell(0, None));
      order := k;
      head, tail := 0, 0;
      hpos, contents := 0, [];
      new;
      for i := 0 to buf.Length
        modifies buf
        invariant forall j :: 0 <= j < i ==> buf[j] == Cell(j, None)
        invariant forall j :: i <= j < buf.Length ==> buf[j].val == None
      {
        buf[i] := buf[i].(sq := i);
      }
      FreshHolds(buf[..]);
    }

    /** `x & mask` on a wrapped counter picks the slot of the unwrapped position. */
    lemma Index(pos: nat)
      requires Shape()
      ensures And(Wrap(pos), mask) == Slot(pos, buf.Length)
    {
      hide And, Slot, Wrap;
      AndMask(Wrap(pos), order);
      WrapMod(pos, order);
      SlotIsMod(pos, buf.Length);
    }

    /**
      One call at a time, so the CAS succeeds and the source's retry loop ends on its first
      pass; RingSteps steps through the loop itself.
     */
    method Enqueue(v: T) returns (ok: bool)
      requires Valid()
      modifies this, buf
      ensures Valid()
      ensures ok <==> |old(contents)| < Capacity()
      ensures contents == if ok then old(contents) + [v] else old(contents)
      ensures hpos == old(hpos)
    {
      hide Wrap, Diff, And, Plus, Slot, Holds;
      ghost var cells, pos := buf[..], hpos + |contents|;
      Index(pos);
      EnqueueReads(cells, hpos, contents);
      PlusWraps(pos, 1);
      var t := tail;
      var i := And(t, mask);
      var dif := Diff(buf[i].sq, t);
      if dif == 0 {
        PutHolds(cells, hpos, contents, v);
        tail := Plus(t, 1);
        buf[i] := buf[i].(val := Some(v));
        buf[i] := buf[i].(sq := Plus(t, 1));
        assert buf[..] == cells[i := Cell(Wrap(pos + 1), Some(v))];
        contents := contents + [v];
        return true;
      }
      assert dif < 0;
      return false;
    }

    method Dequeue() returns (r: Option<T>)
      requires Valid()
      modifies this, buf
      ensures Valid()
      ensures r == if old(contents) == [] then None else Some(old(contents)[0])
      ensures contents == if old(contents) == [] then [] else old(contents)[1..]
      ensures hpos == old(hpos) + if old(contents) == [] then 0 else 1
    {
      hide Wrap, Diff, And, Plus, Slot, Holds;
      ghost var cells := buf[..];
      Index(hpos);
      DequeueReads(cells, hpos, contents);
      PlusWraps(hpos, 1);
      PlusWraps(hpos, mask + 1);
      var h := head;
      var i := And(h, mask);
      var dif := Diff(buf[i].sq, Plus(h, 1));
      if dif == 0 {
        TakeHolds(cells, hpos, contents);
        head := Plus(h, 1);
        r := buf[i].val;
        buf[i] := buf[i].(val := None);
        buf[i] := buf[i].(sq := Plus(h, mask + 1));
        assert buf[..] == cells[i := Cell(Wrap(hpos + buf.Length), None)];
        hpos, contents := hpos + 1, contents[1..];
        return r;
      }
      assert dif < 0;
      return None;
    }
  }
}
