/**
  The futures of a program as mutable state: each method updates the fields in place, and
  callbacks run as nested calls, depth first, in the order they were registered.
 */
module FutureStores {
  import opened Options
  import opened Futures

  class FutureStore<T> {
    /** What the closures captured; `firsts` is history. */
    var kinds: seq<Kind<T>>
    var watched: seq<nat>
    ghost var firsts: map<nat, Value<T>>
    var results: seq<Option<Value<T>>>
    var callbacks: seq<seq<Callback>>
    var joins: map<nat, Join<T>>
    var runs: seq<seq<Value<T>>>

    ghost function View(): Store<T>
      reads this
    {
      Store(kinds, firsts, watched, results, callbacks, joins, runs)
    }

    /** Between calls no callback is due or unregistered. */
    ghost predicate Valid()
      reads this
    {
      Inv(View(), map[], {})
    }

    constructor ()
      ensures Valid() && View() == Empty()
    {
      kinds, firsts, watched, results, callbacks, joins, runs := [], map[], [], [], [], map[], [];
    }

    /** The callbacks in `todo` and `waiting` belong to the calls this one is nested in. */
    method Finish(f: nat, v: Value<T>, ghost todo: Tasks<T>, ghost waiting: set<Callback>)
      requires Sized(View()) && f < |kinds| && Listed(View(), f, todo)
      requires Inv(Futures.Finish(View(), f, v).0, todo + Futures.Finish(View(), f, v).1, waiting)
      modifies this`results, this`callbacks, this`joins, this`runs
      ensures Inv(View(), todo, waiting)
      decreases |kinds| - f, 1
    {
      hide Inv, WellMade, Listed, Legit;
      if results[f].Some? {
        assert todo + map[] == todo;
        return;
      }
      var cbs := callbacks[f];
      ghost var s0 := View();
      TasksFrom(s0, f, cbs, v, todo);
      results := results[f := Some(v)];
      callbacks := callbacks[f := []];
      var i := 0;
      while i < |cbs|
        invariant i <= |cbs|
        invariant Inv(View(), todo + TasksOf(cbs[i..], v), waiting)
      {
        TasksStep(s0, f, cbs, v, todo, i);
        InvSizes(View(), todo + TasksOf(cbs[i..], v), waiting);
        SameCallbacks(s0, View());
        Run(cbs[i], v, todo + TasksOf(cbs[i + 1..], v), waiting);
        i := i + 1;
      }
      assert todo + TasksOf(cbs[i..], v) == todo;
    }

    /** One callback is called. */
    method Run(cb: Callback, v: Value<T>, ghost todo: Tasks<T>, ghost waiting: set<Callback>)
      requires cb !in todo && Inv(View(), todo[cb := v], waiting)
      requires Sized(View()) && Legit(View(), cb)
      modifies this`results, this`callbacks, this`joins, this`runs
      ensures Inv(View(), todo, waiting)
      decreases |kinds| - Source(View(), cb), 0
    {
      hide Inv, Listed, WellMade;
      ghost var s := View();
      CallKeepsInv(s, todo[cb := v], waiting, cb);
      InvSizes(Called(s, cb, v).0, (todo[cb := v] - {cb}) + Called(s, cb, v).1, waiting);
      assert todo[cb := v] - {cb} == todo;
      SourceIsOlder(s, cb);
      match cb
      case User(k) =>
        runs := runs[k := runs[k] + [v]];
        assert todo + map[] == todo;
      case Apply(target) =>
        ListedIsFree(s, target, todo[cb := v], waiting);
        ListedLess(s, target, todo, cb, v);
        Finish(target, kinds[target].fn(v), todo, waiting);
      case Slot(out, i) =>
        ListedIsFree(s, out, todo[cb := v], waiting);
        ListedLess(s, out, todo, cb, v);
        FillSlot(out, i, v, todo, waiting);
    }

    /** All's closure: the last input to arrive completes the result. */
    method FillSlot(out: nat, i: nat, v: Value<T>, ghost todo: Tasks<T>, ghost waiting: set<Callback>)
      requires Sized(View()) && Legit(View(), Slot(out, i)) && Listed(View(), out, todo)
      requires var (t, more) := Called(View(), Slot(out, i), v); Sized(t) && Inv(t, todo + more, waiting)
      modifies this`results, this`callbacks, this`joins, this`runs
      ensures Inv(View(), todo, waiting)
      decreases |kinds| - out, 2
    {
      hide Inv, Listed, WellMade;
      ghost var s := View();
      var left := joins[out].left - 1;
      var vals := joins[out].vals[i := Some(v)];
      joins := joins[out := Join(left, vals)];
      ListedStays(s, View(), out, todo);
      if left == 0 {
        Finish(out, Many(Filled(vals)), todo, waiting);
      } else {
        assert todo + map[] == todo;
      }
    }

    /** Registers a callback, or calls it at once when f is done. */
    method OnComplete(f: nat, cb: Callback, ghost waiting: set<Callback>)
      requires Inv(View(), map[], waiting) && cb in waiting
      requires Sized(View()) && Legit(View(), cb) && f == Source(View(), cb)
      modifies this`results, this`callbacks, this`joins, this`runs
      ensures Inv(View(), map[], waiting - {cb})
    {
      hide Inv, WellMade;
      RegisterKeepsInv(View(), map[], waiting, cb);
      if results[f].Some? {
        assert map[] + map[cb := results[f].value] == map[][cb := results[f].value];
        Run(cb, results[f].value, map[], waiting - {cb});
        return;
      }
      callbacks := callbacks[f := callbacks[f] + [cb]];
      ghost var none: Tasks<T> := map[];
      assert none + map[] == none;
    }

    method NewFuture() returns (p: nat)
      requires Valid()
      modifies this
      ensures Valid() && AllDone(View())
      ensures p == |old(kinds)| && kinds == old(kinds) + [Promise]
      ensures watched == old(watched) && firsts == old(firsts)
    {
      hide Inv, WellMade, AllDone;
      MakeKeepsInv(View(), map[], {}, Promise);
      p := |kinds|;
      kinds, results, callbacks := kinds + [Promise], results + [None], callbacks + [[]];
      ghost var none: set<Callback> := {};
      assert none + {} == none;
      QuietIsDone(View());
    }

    /** The first value counts; everything that depends on it is done on return. */
    method Complete(p: nat, v: Value<T>)
      requires Valid() && p < |kinds| && kinds[p].Promise?
      modifies this
      ensures Valid() && AllDone(View())
      ensures kinds == old(kinds) && watched == old(watched)
      ensures firsts == if p in old(firsts) then old(firsts) else old(firsts)[p := v]
    {
      hide WellMade, AllDone;
      ListedIsFree(View(), p, map[], {});
      CompleteKeepsInv(View(), map[], {}, p, v);
      hide Inv;
      ghost var s := View();
      if p !in firsts {
        firsts := firsts[p := v];
      }
      ListedStays(s, View(), p, map[]);
      Finish(p, v, map[], {});
      QuietIsDone(View());
    }

    /** A user's callback on f. */
    method Watch(f: nat) returns (k: nat)
      requires Valid() && f < |kinds|
      modifies this
      ensures Valid() && AllDone(View())
      ensures k == |old(watched)| && watched == old(watched) + [f]
      ensures kinds == old(kinds) && firsts == old(firsts)
    {
      hide WellMade, AllDone;
      WatchKeepsInv(View(), map[], {}, f);
      k := |watched|;
      watched, runs := watched + [f], runs + [[]];
      InvSizes(View(), map[], {} + {User(k)});
      hide Inv;
      assert {} + {User(k)} == {User(k)} && {User(k)} - {User(k)} == {};
      OnComplete(f, User(k), {User(k)});
      QuietIsDone(View());
    }

    method Then(f: nat, fn: Value<T> -> Value<T>) returns (g: nat)
      requires Valid() && f < |kinds|
      modifies this
      ensures Valid() && AllDone(View())
      ensures g == |old(kinds)| && kinds == old(kinds) + [Mapped(f, fn)]
      ensures watched == old(watched) && firsts == old(firsts)
    {
      hide WellMade, AllDone;
      MakeKeepsInv(View(), map[], {}, Mapped(f, fn));
      g := |kinds|;
      kinds, results, callbacks := kinds + [Mapped(f, fn)], results + [None], callbacks + [[]];
      InvSizes(View(), map[], {} + {Apply(g)});
      hide Inv;
      assert {} + {Apply(g)} == {Apply(g)} && {Apply(g)} - {Apply(g)} == {};
      OnComplete(f, Apply(g), {Apply(g)});
      QuietIsDone(View());
    }

    /** All's loop over its inputs. */
    method RegisterSlots(out: nat, inputs: seq<nat>)
      requires out < |kinds| && kinds[out] == Joined(inputs)
      requires Inv(View(), map[], Slots(out, 0, |inputs|))
      modifies this`results, this`callbacks, this`joins, this`runs
      ensures Valid()
    {
      hide Inv, WellMade;
      var i := 0;
      while i < |inputs|
        invariant i <= |inputs|
        invariant Inv(View(), map[], Slots(out, i, |inputs|))
      {
        InvSizes(View(), map[], Slots(out, i, |inputs|));
        assert Slots(out, i, |inputs|) - {Slot(out, i)} == Slots(out, i + 1, |inputs|);
        OnComplete(inputs[i], Slot(out, i), Slots(out, i, |inputs|));
        i := i + 1;
      }
      assert Slots(out, i, |inputs|) == {};
    }

    method All(inputs: seq<nat>) returns (out: nat)
      requires Valid() && forall i :: 0 <= i < |inputs| ==> inputs[i] < |kinds|
      modifies this
      ensures Valid() && AllDone(View())
      ensures out == |old(kinds)| && kinds == old(kinds) + [Joined(inputs)]
      ensures watched == old(watched) && firsts == old(firsts)
    {
      hide WellMade, AllDone, Sized, Listed;
      ghost var s := View();
      JoinStarts(s, inputs);
      hide Inv;
      out := |kinds|;
      kinds, results, callbacks := kinds + [Joined(inputs)], results + [None], callbacks + [[]];
      joins := joins[out := Join(|inputs|, seq(|inputs|, _ => None))];
      assert View() == JoinStarted(s, inputs);
      if inputs == [] {
        Finish(out, Many([]), map[], {});
      } else {
        RegisterSlots(out, inputs);
      }
      QuietIsDone(View());
    }
  }

  /** All before it looks at its inputs. */
  ghost function JoinStarted<T>(s: Store<T>, inputs: seq<nat>): Store<T> {
    s.(kinds := s.kinds + [Joined(inputs)], results := s.results + [None], callbacks := s.callbacks + [[]],
       joins := s.joins[|s.kinds| := Join(|inputs|, seq(|inputs|, _ => None))])
  }

  lemma JoinStarts<T>(s: Store<T>, inputs: seq<nat>)
    requires Inv(s, map[], {}) && forall i :: 0 <= i < |inputs| ==> inputs[i] < |s.kinds|
    ensures |s.kinds| == |s.results| == |s.callbacks|
    ensures var t, out := JoinStarted(s, inputs), |s.kinds|;
      && (inputs != [] ==> Inv(t, map[], Slots(out, 0, |inputs|)))
      && (inputs == [] ==> Sized(t) && Listed(t, out, map[]) && Inv(Futures.Finish(t, out, Many([])).0, map[] + Futures.Finish(t, out, Many([])).1, {}))
  {
    hide WellMade;
    MakeKeepsInv(s, map[], {}, Joined(inputs));
    var (made, waiting) := Made(s, Joined(inputs));
    assert {} + waiting == Slots(|s.kinds|, 0, |inputs|);
    InvSizes(made, map[], {} + waiting);
    var t := JoinStarted(s, inputs);
    hide Inv;
    if inputs == [] {
      assert waiting == {};
      assert map[] + Futures.Finish(t, |s.kinds|, Many([])).1 == map[];
      assert Futures.Finish(t, |s.kinds|, Many([])).0 == made;
    } else {
      assert t == made;
    }
  }

  /** All's closures from slot i on. */
  ghost function Slots(out: nat, i: nat, n: nat): set<Callback> {
    set j: nat | i <= j < n :: Slot(out, j)
  }

  /** The callbacks listed at f are its own, once each, and none of them is due. */
  ghost predicate Listed<T>(s: Store<T>, f: nat, todo: Tasks<T>)
    requires Sized(s) && f < |s.callbacks|
  {
    && Distinct(s.callbacks[f])
    && forall cb :: cb in s.callbacks[f] ==> cb !in todo && Legit(s, cb) && Source(s, cb) == f
  }

  lemma InvSizes<T>(s: Store<T>, todo: Tasks<T>, waiting: set<Callback>)
    requires Inv(s, todo, waiting)
    ensures Sized(s)
  {
  }

  lemma ListedIsFree<T>(s: Store<T>, f: nat, todo: Tasks<T>, waiting: set<Callback>)
    requires Inv(s, todo, waiting) && f < |s.kinds|
    ensures Sized(s) && Listed(s, f, todo)
  {
    forall cb | cb in s.callbacks[f] ensures cb !in todo {
      assert Legit(s, cb) && Placed(s, todo, waiting, cb);
    }
  }

  lemma ListedLess<T>(s: Store<T>, f: nat, todo: Tasks<T>, cb: Callback, v: Value<T>)
    requires Sized(s) && f < |s.callbacks| && Listed(s, f, todo[cb := v])
    ensures Listed(s, f, todo)
  {
  }

  lemma TasksFrom<T>(s: Store<T>, f: nat, cbs: seq<Callback>, v: Value<T>, todo: Tasks<T>)
    requires Sized(s) && f < |s.callbacks|
    ensures cbs[0..] == cbs && todo + TasksOf(cbs[0..], v) == todo + TasksOf(cbs, v)
  {
  }

  lemma TasksCons<T>(first: Callback, rest: seq<Callback>, v: Value<T>, todo: Tasks<T>)
    requires first !in rest && first !in todo
    ensures first !in todo + TasksOf(rest, v)
    ensures todo + TasksOf([first] + rest, v) == (todo + TasksOf(rest, v))[first := v]
  {
    assert TasksOf([first] + rest, v) == TasksOf(rest, v)[first := v];
  }

  /** The first callback not yet run is due, and no other task is for it. */
  lemma TasksSplit<T>(cbs: seq<Callback>, v: Value<T>, todo: Tasks<T>, i: nat)
    requires Distinct(cbs) && i < |cbs| && cbs[i] !in todo
    ensures cbs[i] !in todo + TasksOf(cbs[i + 1..], v)
    ensures todo + TasksOf(cbs[i..], v) == (todo + TasksOf(cbs[i + 1..], v))[cbs[i] := v]
  {
    assert cbs[i..] == [cbs[i]] + cbs[i + 1..];
    assert cbs[i] !in cbs[i + 1..];
    hide TasksOf, Distinct;
    TasksCons(cbs[i], cbs[i + 1..], v, todo);
  }

  /** A closure completes a newer future than the one it waits for, so a cascade ends. */
  lemma SourceIsOlder<T>(s: Store<T>, cb: Callback)
    requires Sized(s) && Legit(s, cb)
    ensures cb.Apply? ==> Source(s, cb) < cb.target
    ensures cb.Slot? ==> Source(s, cb) < cb.out
  {
  }

  lemma TasksStep<T>(s: Store<T>, f: nat, cbs: seq<Callback>, v: Value<T>, todo: Tasks<T>, i: nat)
    requires Sized(s) && f < |s.callbacks| && Listed(s, f, todo) && cbs == s.callbacks[f] && i < |cbs|
    ensures cbs[i] !in todo + TasksOf(cbs[i + 1..], v)
    ensures todo + TasksOf(cbs[i..], v) == (todo + TasksOf(cbs[i + 1..], v))[cbs[i] := v]
    ensures Legit(s, cbs[i]) && Source(s, cbs[i]) == f
  {
    hide Sized, Legit, Source;
    assert cbs[i] in cbs;
    TasksSplit(cbs, v, todo, i);
  }

  lemma ListedStays<T>(s: Store<T>, t: Store<T>, f: nat, todo: Tasks<T>)
    requires Sized(s) && Sized(t) && t.kinds == s.kinds && t.watched == s.watched && t.callbacks == s.callbacks
    requires f < |s.callbacks| && Listed(s, f, todo)
    ensures Listed(t, f, todo)
  {
    SameCallbacks(s, t);
  }
}
