/** Which cell of a ring a position falls in. Positions count up forever; cells are reused every round. */
module Slots {
  import opened Arithmetic

  /** The cell of position `p`: `p & mask`, which is p mod the capacity (SlotIsMod). */
  function Slot(p: nat, cap: nat): (i: nat)
    requires cap > 0
    ensures i < cap
  {
    if p < cap then p else Slot(p - cap, cap)
  }

  lemma {:induction false} SlotIsMod(p: nat, cap: nat)
    requires cap > 0
    ensures Slot(p, cap) == p % cap
  {
    if p < cap {
      DivModUnique(p, 0, p, cap);
    } else {
      SlotIsMod(p - cap, cap);
      ModPlus(p - cap, cap);
    }
  }

  lemma {:induction false} SlotNext(p: nat, cap: nat)
    requires cap >= 2
    ensures Slot(p + 1, cap) != Slot(p, cap)
  {
    if p >= cap { SlotNext(p - cap, cap); }
  }

  /** Which positions share the cell of `pos`: not its neighbours (capacity >= 2), nor those of the next round. */
  lemma SlotsNear(pos: nat, cap: nat)
    requires cap >= 2
    ensures forall q: nat {:trigger Slot(q, cap)} :: q == pos + 1 || q + 1 == pos || q + 1 == pos + cap ==> Slot(q, cap) != Slot(pos, cap)
    ensures forall q: nat {:trigger Slot(q, cap)} :: q == pos + cap ==> Slot(q, cap) == Slot(pos, cap)
  {
    SlotNext(pos, cap);
    if pos > 0 { SlotNext(pos - 1, cap); }
    SlotNext(pos + cap - 1, cap);
  }

  /** Two positions less than one round apart never share a cell. */
  lemma {:induction false} SlotsApart(p: nat, q: nat, cap: nat)
    requires cap > 0 && p < q < p + cap
    ensures Slot(p, cap) != Slot(q, cap)
  {
    SlotIsMod(p, cap);
    SlotIsMod(q, cap);
    ModDiffer(p, q, cap);
  }
}
