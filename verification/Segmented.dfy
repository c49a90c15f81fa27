/** The segmented queue as linked ring segments, refining the chain of SegmentChain. */
module Segmented {
  import opened Options
  import opened Words
  import opened SegmentChain
  import opened Rings

  class Segment<T> {
    const q: Ring<T>
    var next: Segment?<T>

    constructor (capacity: Word)
      requires capacity <= HALF
      ensures next == null && fresh(q) && fresh(q.buf)
      ensures q.Valid() && q.contents == [] && RoundsUp(q.Capacity(), capacity)
    {
      q := new Ring<T>(capacity);
      next := null;
    }
  }

  class SegmentedQueue<T> {
    var head: Segment<T>
    var tail: Segment<T>
    const segCap: Word
    var segs: Word
    const maxSeg: Word

    /** The segments from head to tail, what each holds, and everything they are made of. */
    ghost var links: seq<Segment<T>>
    ghost var chain: Chain<T>
    ghost var Repr: set<object>
    ghost const cap: nat

    /** The pointers, the segment counter and the rings agree with `links` and `chain`. */
    ghost predicate Linked()
      reads this, Repr
    {
      && this in Repr
      && |links| == |chain| >= 1
      && head == links[0] && tail == links[|links| - 1]
      && segs == |links|
      && segCap <= HALF && RoundsUp(cap, segCap)
      && (forall i :: 0 <= i < |links| ==> links[i] in Repr && links[i].q in Repr && links[i].q.buf in Repr)
      && (forall i :: 0 <= i < |links| ==> RingHolds(links[i].q, chain[i]))
      && (forall i :: 0 <= i < |links| - 1 ==> links[i].next == links[i + 1])
      && links[|links| - 1].next == null
      && (forall i, j :: 0 <= i < j < |links| ==> links[i] != links[j] && links[i].q != links[j].q && links[i].q.buf != links[j].q.buf)
    }

    ghost predicate RingHolds(q: Ring<T>, contents: seq<T>)
      reads q, q.buf
    {
      q.Valid() && q.Capacity() == cap && q.contents == contents
    }

    ghost predicate Valid()
      reads this, Repr
      ensures Valid() ==> this in Repr
    {
      Linked() && ChainOk(chain, cap, maxSeg)
    }

    ghost function Contents(): seq<T>
      reads this
    {
      Flatten(chain)
    }

    constructor (segmentCapacity: Word, maxSegments: Word)
      requires segmentCapacity <= HALF
      ensures Valid() && fresh(Repr)
      ensures chain == [[]] && segCap == segmentCapacity
      ensures maxSeg == if maxSegments == 0 then 1 else maxSegments
    {
      var s := new Segment<T>(segmentCapacity);
      segCap := segmentCapacity;
      maxSeg := if maxSegments == 0 then 1 else maxSegments;
      head, tail, segs := s, s, 1;
      links, chain, cap := [s], [[]], s.q.Capacity();
      Repr := {this, s, s.q, s.q.buf};
    }

    /** One attempt on the tail segment's ring. */
    method PutInTail(v: T) returns (ok: bool)
      requires Linked()
      modifies this`chain, tail.q, tail.q.buf
      ensures Linked()
      ensures ok <==> |old(chain)[|old(chain)| - 1]| < cap
      ensures var last := |old(chain)| - 1;
        chain == if ok then old(chain)[last := old(chain)[last] + [v]] else old(chain)
    {
      hide Ring.Valid;
      ghost var last := |chain| - 1;
      assert tail == links[last];
      ok := tail.q.Enqueue(v);
      chain := chain[last := tail.q.contents];
    }

    /** Links the empty segment `ns` behind the tail. */
    method Link(ns: Segment<T>)
      requires Linked() && segs < maxSeg
      requires ns !in Repr && ns.q !in Repr && ns.q.buf !in Repr
      requires ns.next == null && ns.q.Valid() && ns.q.contents == [] && ns.q.Capacity() == cap
      modifies this, tail
      ensures Linked() && Repr == old(Repr) + {ns, ns.q, ns.q.buf}
      ensures chain == old(chain) + [[]]
    {
      hide Ring.Valid;
      tail.next := ns;
      tail := ns;
      segs := Plus(segs, 1);
      links, chain := links + [ns], chain + [[]];
      Repr := Repr + {ns, ns.q, ns.q.buf};
    }

    method Grow()
      requires Linked() && segs < maxSeg
      modifies this, tail
      ensures Linked() && fresh(Repr - old(Repr))
      ensures chain == old(chain) + [[]]
    {
      hide Ring.Valid;
      var ns := new Segment<T>(segCap);
      RoundsUpOnce(cap, ns.q.Capacity(), segCap);
      Link(ns);
    }

    /** One attempt on the head segment's ring. */
    method TakeFromFront() returns (r: Option<T>)
      requires Linked()
      modifies this`chain, head.q, head.q.buf
      ensures Linked()
      ensures r == if old(chain)[0] == [] then None else Some(old(chain)[0][0])
      ensures chain == if old(chain)[0] == [] then old(chain) else old(chain)[0 := old(chain)[0][1..]]
    {
      hide Ring.Valid;
      r := head.q.Dequeue();
      chain := chain[0 := head.q.contents];
    }

    /** Moves head to its successor. */
    method DropFront(n: Segment<T>)
      requires Linked() && head.next == n
      modifies this`head, this`segs, this`links, this`chain
      ensures Linked() && |old(chain)| > 1 && chain == old(chain)[1..]
    {
      hide Ring.Valid;
      assert |links| > 1;
      head := n;
      segs := Plus(segs, WORDS - 1);
      links, chain := links[1..], chain[1..];
    }

    /** One pass of Enqueue's loop: accepted, refused, or (neither) grown by a segment. */
    method TryEnqueue(v: T) returns (accepted: bool, refused: bool)
      requires Linked()
      modifies Repr
      ensures Linked() && fresh(Repr - old(Repr))
      ensures chain != [] && (|old(chain)[|old(chain)| - 1]| < cap ==> accepted)
      ensures accepted || refused ==> (chain, accepted) == Put(old(chain), cap, maxSeg, v)
      ensures !accepted && !refused ==>
        && chain == old(chain) + [[]]
        && Put(chain, cap, maxSeg, v) == Put(old(chain), cap, maxSeg, v)
    {
      hide Ring.Valid;
      PutAgain(chain, cap, maxSeg, v);
      accepted := PutInTail(v);
      refused := !accepted && segs >= maxSeg;
      if !accepted && !refused {
        // One call at a time, tail is always the last segment, so its next is still nil
        // and linking the new segment cannot fail.
        Grow();
      }
    }

    /** Into the tail segment; a full tail is followed by a new segment while the budget lasts. */
    method Enqueue(v: T) returns (ok: bool)
      requires Valid()
      modifies Repr
      ensures Valid() && fresh(Repr - old(Repr))
      ensures (chain, ok) == Put(old(chain), cap, maxSeg, v)
      ensures Contents() == old(Contents()) + if ok then [v] else []
      ensures !ok ==> chain == old(chain)
    {
      hide Ring.Valid, Linked;
      ghost var goal := Put(chain, cap, maxSeg, v);
      PutIsFifo(chain, cap, maxSeg, v);
      ghost var passes := 2;
      var refused := false;
      ok := false;
      while !ok && !refused
        invariant Linked() && fresh(Repr - old(Repr)) && chain != []
        invariant if ok || refused then (chain, ok) == goal else Put(chain, cap, maxSeg, v) == goal
        invariant passes == 1 && !ok && !refused ==> chain[|chain| - 1] == []
        invariant 1 <= passes <= 2 || ok
        decreases passes
      {
        ok, refused := TryEnqueue(v);
        passes := passes - 1;
      }
    }

    /** The front segment's value, if it has one; otherwise moves on when there is a next segment. */
    method TryDequeue() returns (r: Option<T>, moved: bool)
      requires Linked()
      modifies Repr
      ensures Linked() && Repr == old(Repr)
      ensures r == if old(chain)[0] == [] then None else Some(old(chain)[0][0])
      ensures moved <==> r == None && |old(chain)| > 1
      ensures chain == if r.Some? then old(chain)[0 := old(chain)[0][1..]] else if moved then old(chain)[1..] else old(chain)
    {
      hide Ring.Valid;
      r := TakeFromFront();
      assert |links| > 1 ==> links[0].next == links[1];
      moved := false;
      if r == None && head.next != null {
        DropFront(head.next);
        moved := true;
      }
    }

    /** From the head segment; an empty head that has a successor is dropped first. */
    method Dequeue() returns (r: Option<T>, ghost dropped: nat)
      requires Valid()
      modifies Repr
      ensures Valid() && Repr == old(Repr)
      ensures (chain, r) == Take(old(chain))
      ensures r == if old(Contents()) == [] then None else Some(old(Contents())[0])
      ensures old(Contents()) == (if r == None then [] else [r.value]) + Contents()
      ensures dropped == Drops(old(chain)) <= 1
      decreases |chain|
    {
      hide Ring.Valid, Linked;
      TakeIsFifo(chain, cap, maxSeg);
      DropsAtMostOne(chain, cap, maxSeg);
      var moved;
      r, moved := TryDequeue();
      dropped := 0;
      if moved {
        r, dropped := Dequeue();
        dropped := dropped + 1;
      }
    }
  }
}
