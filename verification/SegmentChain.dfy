/**
  The segmented queue on values: the contents of each segment, front segment first.
  `cap` is the rounded capacity of one ring, `maxSeg` the segment budget.
 */
module SegmentChain {
  import opened Options
  import opened Arithmetic

  type Chain<T> = seq<seq<T>>

  function Flatten<T>(ch: Chain<T>): seq<T> {
    if ch == [] then [] else ch[0] + Flatten(ch[1..])
  }

  /**
    What every call keeps: the budget, full segments strictly between head and tail, and
    nothing but the head segment ever empty.
   */
  ghost predicate ChainOk<T>(ch: Chain<T>, cap: nat, maxSeg: nat) {
    && cap >= 2
    && 1 <= |ch| <= maxSeg
    && (forall i :: 0 <= i < |ch| ==> |ch[i]| <= cap)
    && (forall i :: 0 < i < |ch| - 1 ==> |ch[i]| == cap)
    && (forall i :: 0 < i < |ch| ==> ch[i] != [])
  }

  /** Into the tail segment, else into a new one, else refused. */
  function Put<T>(ch: Chain<T>, cap: nat, maxSeg: nat, v: T): (r: (Chain<T>, bool))
    requires ch != []
  {
    var last := |ch| - 1;
    if |ch[last]| < cap then (ch[last := ch[last] + [v]], true)
    else if |ch| >= maxSeg then (ch, false)
    else (ch + [[v]], true)
  }

  /** From the head segment, dropping it first if it is empty and not the only one. */
  function Take<T>(ch: Chain<T>): (r: (Chain<T>, Option<T>))
    requires ch != []
  {
    if ch[0] != [] then (ch[0 := ch[0][1..]], Some(ch[0][0]))
    else if |ch| == 1 then (ch, None)
    else Take(ch[1..])
  }

  lemma {:induction false} FlattenSnoc<T>(ch: Chain<T>, s: seq<T>)
    ensures Flatten(ch + [s]) == Flatten(ch) + s
  {
    if ch == [] {
      assert Flatten([s]) == s + Flatten([]);
    } else {
      assert (ch + [s])[1..] == ch[1..] + [s];
      FlattenSnoc(ch[1..], s);
    }
  }

  lemma FlattenLast<T>(ch: Chain<T>)
    requires ch != []
    ensures Flatten(ch) == Flatten(ch[..|ch| - 1]) + ch[|ch| - 1]
  {
    assert ch == ch[..|ch| - 1] + [ch[|ch| - 1]];
    FlattenSnoc(ch[..|ch| - 1], ch[|ch| - 1]);
  }

  /** A value that needed a new segment goes into it on the second attempt. */
  lemma PutAgain<T>(ch: Chain<T>, cap: nat, maxSeg: nat, v: T)
    requires ch != [] && cap >= 1
    ensures |ch[|ch| - 1]| >= cap && |ch| < maxSeg ==>
      Put(ch, cap, maxSeg, v) == Put(ch + [[]], cap, maxSeg, v) == ((ch + [[]])[|ch| := [] + [v]], true)
  {
    var empty: seq<T> := [];
    assert empty + [v] == [v];
    assert (ch + [[]])[|ch| := empty + [v]] == ch + [[v]];
  }

  lemma PutKeepsOk<T>(ch: Chain<T>, cap: nat, maxSeg: nat, v: T)
    requires ChainOk(ch, cap, maxSeg)
    ensures ChainOk(Put(ch, cap, maxSeg, v).0, cap, maxSeg)
    ensures |ch| <= |Put(ch, cap, maxSeg, v).0| <= |ch| + 1
  {
    var ch' := Put(ch, cap, maxSeg, v).0;
    if |ch'| == |ch| + 1 {
      assert forall i :: 0 <= i < |ch| ==> ch'[i] == ch[i];
    }
  }

  /** Enqueue appends to one FIFO or changes nothing, and keeps the chain in order. */
  lemma PutIsFifo<T>(ch: Chain<T>, cap: nat, maxSeg: nat, v: T)
    requires ChainOk(ch, cap, maxSeg)
    ensures var (ch', ok) := Put(ch, cap, maxSeg, v);
      && ChainOk(ch', cap, maxSeg)
      && Flatten(ch') == (if ok then Flatten(ch) + [v] else Flatten(ch))
  {
    PutKeepsOk(ch, cap, maxSeg, v);
    if |ch[|ch| - 1]| < cap {
      FlattenGrowsLast(ch, v);
    } else if |ch| < maxSeg {
      FlattenSnoc(ch, [v]);
    }
  }

  lemma FlattenGrowsLast<T>(ch: Chain<T>, v: T)
    requires ch != []
    ensures var last := |ch| - 1; Flatten(ch[last := ch[last] + [v]]) == Flatten(ch) + [v]
  {
    var last := |ch| - 1;
    var ch' := ch[last := ch[last] + [v]];
    FlattenLast(ch);
    FlattenLast(ch');
    assert ch'[..last] == ch[..last];
    assert Flatten(ch[..last]) + (ch[last] + [v]) == Flatten(ch[..last]) + ch[last] + [v];
  }

  lemma TakeKeepsOk<T>(ch: Chain<T>, cap: nat, maxSeg: nat)
    requires ChainOk(ch, cap, maxSeg)
    ensures ChainOk(Take(ch).0, cap, maxSeg)
    ensures |ch| - 1 <= |Take(ch).0| <= |ch|
  {
    if ch[0] == [] && |ch| > 1 {
      assert ch[1] != [];
      assert Take(ch) == Take(ch[1..]);
    }
  }

  /** Dequeue takes the front of one FIFO, fails exactly when it is empty, and drops at most one segment. */
  lemma TakeIsFifo<T>(ch: Chain<T>, cap: nat, maxSeg: nat)
    requires ChainOk(ch, cap, maxSeg)
    ensures ChainOk(Take(ch).0, cap, maxSeg)
    ensures var (ch', r) := Take(ch);
      if Flatten(ch) == [] then r == None && ch' == ch else r == Some(Flatten(ch)[0]) && Flatten(ch') == Flatten(ch)[1..]
  {
    TakeKeepsOk(ch, cap, maxSeg);
    if ch[0] != [] {
      TakeFromHead(ch);
    } else if |ch| > 1 {
      assert ch[1] != [];
      TakeFromHead(ch[1..]);
    }
  }

  lemma TakeFromHead<T>(ch: Chain<T>)
    requires ch != [] && ch[0] != []
    ensures var (ch', r) := Take(ch);
      && ch' == ch[0 := ch[0][1..]]
      && Flatten(ch) != []
      && r == Some(Flatten(ch)[0]) && Flatten(ch') == Flatten(ch)[1..]
  {
    var ch' := ch[0 := ch[0][1..]];
    assert ch'[1..] == ch[1..];
    assert ch[0] == [ch[0][0]] + ch[0][1..];
  }

  /** How many segments a single Dequeue may have to drop: never more than one. */
  function Drops<T>(ch: Chain<T>): nat
    requires ch != []
  {
    if ch[0] != [] || |ch| == 1 then 0 else 1 + Drops(ch[1..])
  }

  lemma DropsAtMostOne<T>(ch: Chain<T>, cap: nat, maxSeg: nat)
    requires ChainOk(ch, cap, maxSeg)
    ensures Drops(ch) <= 1
  {
    if |ch| > 1 { assert ch[1] != []; }
  }

  /** k full segments hold k * cap values. */
  lemma {:induction false} FullSegmentsHold<T>(ch: Chain<T>, cap: nat)
    requires forall i :: 0 <= i < |ch| ==> |ch[i]| == cap
    ensures |Flatten(ch)| == |ch| * cap
  {
    if ch != [] {
      FullSegmentsHold(ch[1..], cap);
      MulDistributes(1, |ch| - 1, cap);
    }
  }

  /** What a chain in order can hold, given the fill of its two ends. */
  lemma HeldBetween<T>(ch: Chain<T>, cap: nat, maxSeg: nat)
    requires ChainOk(ch, cap, maxSeg)
    ensures |ch| == 1 ==> |Flatten(ch)| == |ch[0]|
    ensures |ch| > 1 ==> |Flatten(ch)| == |ch[0]| + (|ch| - 2) * cap + |ch[|ch| - 1]|
  {
    FlattenLast(ch);
    if |ch| == 1 {
      assert ch[..0] == [];
    } else {
      var front := ch[..|ch| - 1];
      FullSegmentsHold(front[1..], cap);
      assert Flatten(front) == front[0] + Flatten(front[1..]);
    }
  }

  lemma CountBounds<T>(ch: Chain<T>, cap: nat, maxSeg: nat)
    requires ChainOk(ch, cap, maxSeg)
    ensures |Flatten(ch)| <= maxSeg * cap
  {
    HeldBetween(ch, cap, maxSeg);
    MulMono(|ch|, maxSeg, cap);
    if |ch| > 1 {
      MulDistributes(|ch| - 2, 1, cap);
      MulDistributes(|ch| - 1, 1, cap);
    }
  }

  /** A refusal happens with between max(1, maxSeg - 1) * cap and maxSeg * cap values held. */
  lemma RefusalIsNearFull<T>(ch: Chain<T>, cap: nat, maxSeg: nat, v: T)
    requires ChainOk(ch, cap, maxSeg) && !Put(ch, cap, maxSeg, v).1
    ensures var least := if maxSeg == 1 then 1 else maxSeg - 1;
      least * cap <= |Flatten(ch)| <= maxSeg * cap
  {
    HeldBetween(ch, cap, maxSeg);
    if maxSeg > 1 {
      MulDistributes(maxSeg - 2, 1, cap);
      MulDistributes(maxSeg - 1, 1, cap);
    }
  }

  /** With at most (maxSeg - 1) * cap - 1 values held nothing is refused. */
  lemma RoomMeansAccepted<T>(ch: Chain<T>, cap: nat, maxSeg: nat, v: T)
    requires ChainOk(ch, cap, maxSeg)
    requires |Flatten(ch)| < (if maxSeg == 1 then 1 else maxSeg - 1) * cap
    ensures Put(ch, cap, maxSeg, v).1
  {
    if !Put(ch, cap, maxSeg, v).1 { RefusalIsNearFull(ch, cap, maxSeg, v); }
  }

  /** Enqueueing a whole list; the count says how many were accepted. */
  function PutAll<T>(ch: Chain<T>, cap: nat, maxSeg: nat, vs: seq<T>): (r: (Chain<T>, nat))
    requires ch != []
    ensures r.0 != []
    decreases |vs|
  {
    if vs == [] then (ch, 0)
    else
      var last := |vs| - 1;
      var (before, n) := PutAll(ch, cap, maxSeg, vs[..last]);
      var (after, ok) := Put(before, cap, maxSeg, vs[last]);
      (after, if ok then n + 1 else n)
  }

  /** No segment more, and no place in the last one. */
  predicate Full<T>(ch: Chain<T>, cap: nat, maxSeg: nat)
    requires ch != []
  {
    |ch[|ch| - 1]| >= cap && |ch| >= maxSeg
  }

  /** Of a list of values a queue accepts a prefix: the first refusal leaves it full, and it stays full. */
  lemma {:induction false} PutAllTakesAPrefix<T>(ch: Chain<T>, cap: nat, maxSeg: nat, vs: seq<T>)
    requires ChainOk(ch, cap, maxSeg)
    ensures var (ch', n) := PutAll(ch, cap, maxSeg, vs);
      && ChainOk(ch', cap, maxSeg) && n <= |vs|
      && Flatten(ch') == Flatten(ch) + vs[..n]
      && (n < |vs| ==> Full(ch', cap, maxSeg))
    decreases |vs|
  {
    assert ch != [];
    hide Flatten, ChainOk;
    if vs == [] {
      assert Flatten(ch) + [] == Flatten(ch);
    } else {
      var last := |vs| - 1;
      PutAllTakesAPrefix(ch, cap, maxSeg, vs[..last]);
      var (before, n) := PutAll(ch, cap, maxSeg, vs[..last]);
      PutIsFifo(before, cap, maxSeg, vs[last]);
      FullRefuses(before, cap, maxSeg, vs[last]);
      hide Put, Full;
      if n == last {
        OneMore(Flatten(ch), vs);
      } else {
        assert vs[..last][..n] == vs[..n];
      }
    }
  }

  lemma FullRefuses<T>(ch: Chain<T>, cap: nat, maxSeg: nat, v: T)
    requires ch != []
    ensures !Put(ch, cap, maxSeg, v).1 <==> Full(ch, cap, maxSeg)
    ensures Full(ch, cap, maxSeg) ==> Put(ch, cap, maxSeg, v).0 == ch
    ensures Put(ch, cap, maxSeg, v).0 != []
  {
  }

  lemma OneMore<T>(front: seq<T>, vs: seq<T>)
    requires vs != []
    ensures var last := |vs| - 1;
      vs[..last][..last] == vs[..last] && vs[..last + 1] == vs && (front + vs[..last]) + [vs[last]] == front + vs
  {
    assert vs == vs[..|vs| - 1] + [vs[|vs| - 1]];
  }

  /** Past the first refusal nothing changes any more. */
  lemma {:induction false} PutAllStops<T>(ch: Chain<T>, cap: nat, maxSeg: nat, vs: seq<T>, more: seq<T>)
    requires ch != [] && Full(PutAll(ch, cap, maxSeg, vs).0, cap, maxSeg)
    ensures PutAll(ch, cap, maxSeg, vs + more) == PutAll(ch, cap, maxSeg, vs)
    decreases |more|
  {
    if more == [] {
      assert vs + more == vs;
    } else {
      var last := |more| - 1;
      PutAllStops(ch, cap, maxSeg, vs, more[..last]);
      assert (vs + more)[..|vs + more| - 1] == vs + more[..last];
    }
  }

  /** A queue that has only been written to is full up to its last segment. */
  ghost predicate Packed<T>(ch: Chain<T>, cap: nat) {
    forall i :: 0 <= i < |ch| - 1 ==> |ch[i]| == cap
  }

  /** A fresh queue accepts exactly the first maxSeg * cap values, in order. */
  lemma {:induction false} FreshQueueFills<T>(cap: nat, maxSeg: nat, vs: seq<T>)
    requires cap >= 2 && maxSeg >= 1
    ensures var (ch, n) := PutAll<T>([[]], cap, maxSeg, vs);
      && ChainOk(ch, cap, maxSeg) && Packed(ch, cap)
      && n == (if |vs| <= maxSeg * cap then |vs| else maxSeg * cap)
      && Flatten(ch) == vs[..n]
    decreases |vs|
  {
    MulMono(1, maxSeg, cap);
    if vs == [] {
      assert Flatten<T>([[]]) == [];
    } else {
      var last := |vs| - 1;
      FreshQueueFills(cap, maxSeg, vs[..last]);
      var (before, n) := PutAll<T>([[]], cap, maxSeg, vs[..last]);
      FillStep(before, cap, maxSeg, maxSeg * cap, vs, n);
    }
  }

  lemma FillStep<T>(ch: Chain<T>, cap: nat, maxSeg: nat, total: nat, vs: seq<T>, n: nat)
    requires ChainOk(ch, cap, maxSeg) && Packed(ch, cap) && total == maxSeg * cap
    requires vs != [] && n == (if |vs| - 1 <= total then |vs| - 1 else total) && Flatten(ch) == vs[..|vs| - 1][..n]
    ensures var (ch', ok) := Put(ch, cap, maxSeg, vs[|vs| - 1]); var n' := if ok then n + 1 else n;
      && ChainOk(ch', cap, maxSeg) && Packed(ch', cap)
      && n' == (if |vs| <= total then |vs| else total)
      && Flatten(ch') == vs[..n']
  {
    PutIsFifo(ch, cap, maxSeg, vs[|vs| - 1]);
    PackedRefusesWhenFull(ch, cap, maxSeg, vs[|vs| - 1]);
  }

  lemma PackedRefusesWhenFull<T>(ch: Chain<T>, cap: nat, maxSeg: nat, v: T)
    requires ChainOk(ch, cap, maxSeg) && Packed(ch, cap)
    ensures Put(ch, cap, maxSeg, v).1 <==> |Flatten(ch)| < maxSeg * cap
    ensures |Flatten(ch)| <= maxSeg * cap
  {
    HeldBetween(ch, cap, maxSeg);
    var last := |ch[|ch| - 1]|;
    assert |Flatten(ch)| == (|ch| - 1) * cap + last by {
      if |ch| > 1 { MulDistributes(|ch| - 2, 1, cap); }
    }
    MulDistributes(|ch| - 1, 1, cap);
    MulMono(|ch|, maxSeg, cap);
    MultiplesApart(|ch|, maxSeg, cap);
  }
}
