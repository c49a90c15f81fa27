/**
  Futures and their combinators. A future is named by its number; a callback is what its
  closure captures. Registering a callback, completing a future and running one callback are
  the steps, in any order: callbacks taken by a completed future run whenever their turn comes.
 */
module Futures {
  import opened Options

  /** Any future's value: Go's zero value, one the program made, or All's slice. */
  datatype Value<T> = Zero | One(value: T) | Many(values: seq<Value<T>>)

  /** History: how each future was made. `from` and `inputs` are older futures. */
  datatype Kind<!T> = Promise | Mapped(from: nat, fn: Value<T> -> Value<T>) | Joined(inputs: seq<nat>)

  /** A user's k-th callback, Then's closure for its target, or All's closure for one input. */
  datatype Callback = User(k: nat) | Apply(target: nat) | Slot(out: nat, index: nat)

  /** All's captured variables. A slot is None until its callback has written it. */
  datatype Join<T> = Join(left: int, vals: seq<Option<Value<T>>>)

  datatype Store<!T> = Store(
    kinds: seq<Kind<T>>,
    firsts: map<nat, Value<T>>,
    watched: seq<nat>,
    results: seq<Option<Value<T>>>,
    callbacks: seq<seq<Callback>>,
    joins: map<nat, Join<T>>,
    runs: seq<seq<Value<T>>>)

  // ---------------------------------------------------------------- what the combinators mean

  ghost predicate WellMade<T>(kinds: seq<Kind<T>>) {
    forall id :: 0 <= id < |kinds| ==>
      match kinds[id]
      case Promise => true
      case Mapped(from, _) => from < id
      case Joined(inputs) => forall i :: 0 <= i < |inputs| ==> inputs[i] < id
  }

  /** The value a future must have, from the first value each promise was given. */
  ghost function Meaning<T>(kinds: seq<Kind<T>>, firsts: map<nat, Value<T>>, id: nat): Option<Value<T>>
    requires WellMade(kinds) && id < |kinds|
    decreases id
  {
    match kinds[id]
    case Promise => if id in firsts then Some(firsts[id]) else None
    case Mapped(from, fn) =>
      (match Meaning(kinds, firsts, from) case None => None case Some(v) => Some(fn(v)))
    case Joined(inputs) =>
      var all := Meanings(kinds, firsts, inputs, id);
      if None in all then None else Some(Many(Filled(all)))
  }

  ghost function Meanings<T>(kinds: seq<Kind<T>>, firsts: map<nat, Value<T>>, inputs: seq<nat>, id: nat): (r: seq<Option<Value<T>>>)
    requires WellMade(kinds) && id <= |kinds| && forall i :: 0 <= i < |inputs| ==> inputs[i] < id
    ensures |r| == |inputs| && forall i :: 0 <= i < |inputs| ==> r[i] == Meaning(kinds, firsts, inputs[i])
    decreases id, 0, |inputs|
  {
    if inputs == [] then []
    else [Meaning(kinds, firsts, inputs[0])] + Meanings(kinds, firsts, inputs[1..], id)
  }

  function Filled<T>(vals: seq<Option<Value<T>>>): (r: seq<Value<T>>)
    ensures |r| == |vals| && forall i :: 0 <= i < |vals| ==> r[i] == match vals[i] case None => Zero case Some(v) => v
  {
    if vals == [] then []
    else [match vals[0] case None => Zero case Some(v) => v] + Filled(vals[1..])
  }

  function Missing<T>(vals: seq<Option<Value<T>>>): nat {
    if vals == [] then 0 else (if vals[0].None? then 1 else 0) + Missing(vals[1..])
  }

  // ---------------------------------------------------------------- the steps

  /** The callbacks a future took when it completed, each with the value it must run with. */
  type Tasks<T> = map<Callback, Value<T>>

  function TasksOf<T>(cbs: seq<Callback>, v: Value<T>): Tasks<T> {
    map cb | cb in cbs :: v
  }

  /** complete up to running the callbacks: the first call sets the result and takes them all. */
  function Finish<T>(s: Store<T>, f: nat, v: Value<T>): (Store<T>, Tasks<T>)
    requires f < |s.results| == |s.callbacks|
  {
    if s.results[f].Some? then (s, map[])
    else (s.(results := s.results[f := Some(v)], callbacks := s.callbacks[f := []]), TasksOf(s.callbacks[f], v))
  }

  ghost predicate Legit<T>(s: Store<T>, cb: Callback) {
    match cb
    case User(k) => k < |s.watched|
    case Apply(t) => t < |s.kinds| && s.kinds[t].Mapped?
    case Slot(out, i) => out < |s.kinds| && s.kinds[out].Joined? && i < |s.kinds[out].inputs|
  }

  ghost predicate Sized<T>(s: Store<T>) {
    && |s.kinds| == |s.results| == |s.callbacks|
    && |s.watched| == |s.runs|
    && WellMade(s.kinds)
    && (forall k :: 0 <= k < |s.watched| ==> s.watched[k] < |s.kinds|)
    && (forall p :: p in s.firsts ==> p < |s.kinds|)
    && (forall id: nat :: id in s.joins <==> id < |s.kinds| && s.kinds[id].Joined?)
    && (forall id :: id in s.joins ==> |s.joins[id].vals| == |s.kinds[id].inputs|)
  }

  /** The future a callback waits for. */
  ghost function Source<T>(s: Store<T>, cb: Callback): (f: nat)
    requires Sized(s) && Legit(s, cb)
    ensures f < |s.kinds|
  {
    match cb
    case User(k) => s.watched[k]
    case Apply(t) => s.kinds[t].from
    case Slot(out, i) => s.kinds[out].inputs[i]
  }

  /** One callback runs. */
  ghost function Called<T>(s: Store<T>, cb: Callback, v: Value<T>): (Store<T>, Tasks<T>)
    requires Sized(s) && Legit(s, cb)
  {
    match cb
    case User(k) => (s.(runs := s.runs[k := s.runs[k] + [v]]), map[])
    case Apply(t) => Finish(s, t, s.kinds[t].fn(v))
    case Slot(out, i) =>
      var j := Join(s.joins[out].left - 1, s.joins[out].vals[i := Some(v)]);
      var s1 := s.(joins := s.joins[out := j]);
      if j.left == 0 then Finish(s1, out, Many(Filled(j.vals))) else (s1, map[])
  }

  // ---------------------------------------------------------------- the invariant

  /** A callback that has run: what it leaves behind. */
  ghost predicate Used<T>(s: Store<T>, cb: Callback)
    requires Sized(s) && Legit(s, cb)
  {
    match cb
    case User(k) => s.runs[k] != []
    case Apply(t) => s.results[t].Some?
    case Slot(out, i) => s.joins[out].vals[i].Some?
  }

  /** It has run exactly once, with v. */
  ghost predicate UsedWith<T>(s: Store<T>, cb: Callback, v: Value<T>)
    requires Sized(s) && Legit(s, cb)
  {
    match cb
    case User(k) => s.runs[k] == [v]
    case Apply(t) => s.results[t] == Some(s.kinds[t].fn(v))
    case Slot(out, i) => s.joins[out].vals[i] == Some(v)
  }

  /**
    Each callback is in exactly one place: about to be registered, in its source's list, taken
    by its completed source, or run. The last two always with the source's value.
   */
  ghost predicate Placed<T>(s: Store<T>, todo: Tasks<T>, waiting: set<Callback>, cb: Callback)
    requires Sized(s) && Legit(s, cb)
  {
    var result := s.results[Source(s, cb)];
    var listed := cb in s.callbacks[Source(s, cb)];
    if cb in waiting then !listed && cb !in todo && !Used(s, cb)
    else if result.None? then listed && cb !in todo && !Used(s, cb)
    else !listed && (if cb in todo then todo[cb] == result.value && !Used(s, cb) else UsedWith(s, cb, result.value))
  }

  ghost predicate Distinct(cbs: seq<Callback>) {
    forall i, j :: 0 <= i < j < |cbs| ==> cbs[i] != cbs[j]
  }

  /** Only registered callbacks are anywhere, and a list holds its own future's callbacks once. */
  ghost predicate Known<T>(s: Store<T>, todo: Tasks<T>, waiting: set<Callback>)
    requires Sized(s)
  {
    && (forall cb :: cb in todo ==> Legit(s, cb))
    && (forall cb :: cb in waiting ==> Legit(s, cb))
    && (forall f :: 0 <= f < |s.callbacks| ==> Distinct(s.callbacks[f]))
    && (forall f, cb :: 0 <= f < |s.callbacks| && cb in s.callbacks[f] ==> Legit(s, cb) && Source(s, cb) == f)
  }

  ghost predicate PromiseOk<T>(s: Store<T>, id: nat)
    requires id < |s.results|
  {
    s.results[id] == if id in s.firsts then Some(s.firsts[id]) else None
  }

  /** All: `left` counts the empty slots, and the result is there exactly when none is. */
  ghost predicate JoinOk<T>(s: Store<T>, id: nat)
    requires id < |s.results| && id in s.joins
  {
    && s.joins[id].left == Missing(s.joins[id].vals)
    && s.results[id] == if s.joins[id].left == 0 then Some(Many(Filled(s.joins[id].vals))) else None
  }

  ghost predicate AllPlaced<T>(s: Store<T>, todo: Tasks<T>, waiting: set<Callback>)
    requires Sized(s)
  {
    forall cb :: Legit(s, cb) ==> Placed(s, todo, waiting, cb)
  }

  ghost predicate PromisesOk<T>(s: Store<T>)
    requires Sized(s)
  {
    forall id :: 0 <= id < |s.kinds| && s.kinds[id].Promise? ==> PromiseOk(s, id)
  }

  ghost predicate JoinsOk<T>(s: Store<T>)
    requires Sized(s)
  {
    forall id :: 0 <= id < |s.kinds| && s.kinds[id].Joined? ==> JoinOk(s, id)
  }

  ghost predicate Inv<T>(s: Store<T>, todo: Tasks<T>, waiting: set<Callback>) {
    Sized(s) && Known(s, todo, waiting) && AllPlaced(s, todo, waiting) && PromisesOk(s) && JoinsOk(s)
  }

  // ---------------------------------------------------------------- completing keeps it

  /** A future without a result completes: every callback but its own Then closure keeps its place. */
  lemma FinishPlaces<T>(s: Store<T>, f: nat, v: Value<T>, todo: Tasks<T>, waiting: set<Callback>, cb: Callback)
    requires Sized(s) && Known(s, todo, waiting) && f < |s.results| && s.results[f].None?
    requires Legit(s, cb) && cb != Apply(f) && Placed(s, todo, waiting, cb)
    ensures var (t, more) := Finish(s, f, v);
      Sized(t) && Placed(t, todo + more, waiting, cb)
  {
    var (t, more) := Finish(s, f, v);
    assert cb in more ==> Source(s, cb) == f;
  }

  /** What a callback is depends only on how the futures were made. */
  lemma SameCallbacks<T>(s: Store<T>, t: Store<T>)
    requires Sized(s) && Sized(t) && t.kinds == s.kinds && t.watched == s.watched
    ensures forall cb :: Legit(t, cb) <==> Legit(s, cb)
    ensures forall cb :: Legit(s, cb) ==> Source(t, cb) == Source(s, cb)
  {
    hide Sized;
  }

  lemma FinishSizes<T>(s: Store<T>, f: nat, v: Value<T>)
    requires Sized(s) && f < |s.results|
    ensures Sized(Finish(s, f, v).0)
  {
    hide WellMade;
  }

  lemma FinishKnows<T>(s: Store<T>, f: nat, v: Value<T>, todo: Tasks<T>, waiting: set<Callback>)
    requires Sized(s) && Known(s, todo, waiting) && f < |s.results|
    ensures var (t, more) := Finish(s, f, v);
      Sized(t) && Known(t, todo + more, waiting)
  {
    FinishSizes(s, f, v);
    var (t, more) := Finish(s, f, v);
    SameCallbacks(s, t);
    hide Sized, Legit, Source;
    forall g, cb | 0 <= g < |t.callbacks| && cb in t.callbacks[g] ensures Legit(t, cb) && Source(t, cb) == g {
      assert cb in s.callbacks[g];
    }
  }

  lemma TaskDone<T>(s: Store<T>, todo: Tasks<T>, waiting: set<Callback>, cb: Callback)
    requires Sized(s) && Known(s, todo, waiting)
    ensures Known(s, todo - {cb}, waiting)
  {
  }

  lemma DueIsPlaced<T>(s: Store<T>, todo: Tasks<T>, waiting: set<Callback>, cb: Callback)
    requires Sized(s) && Known(s, todo, waiting) && AllPlaced(s, todo, waiting) && cb in todo
    ensures Legit(s, cb) && cb !in waiting && !Used(s, cb)
    ensures s.results[Source(s, cb)] == Some(todo[cb]) && cb !in s.callbacks[Source(s, cb)]
  {
    assert Placed(s, todo, waiting, cb);
  }

  /** Then's closure runs: its target completes with fn of the source's value. */
  lemma ApplyPlaces<T>(s: Store<T>, todo: Tasks<T>, waiting: set<Callback>, target: nat, c: Callback)
    requires Sized(s) && Known(s, todo, waiting) && AllPlaced(s, todo, waiting) && Apply(target) in todo
    requires Legit(s, c)
    ensures Legit(s, Apply(target))
    ensures var (t, more) := Called(s, Apply(target), todo[Apply(target)]);
      Sized(t) && Legit(t, c) && Placed(t, (todo - {Apply(target)}) + more, waiting, c)
  {
    var cb := Apply(target);
    var rest := todo - {cb};
    DueIsPlaced(s, todo, waiting, cb);
    var v := s.kinds[target].fn(todo[cb]);
    assert Placed(s, todo, waiting, c);
    if c == cb {
      assert c !in Finish(s, target, v).1;
    } else {
      TaskDone(s, todo, waiting, cb);
      assert Placed(s, rest, waiting, c);
      FinishPlaces(s, target, v, rest, waiting, c);
    }
  }

  lemma ApplyKeepsInv<T>(s: Store<T>, todo: Tasks<T>, waiting: set<Callback>, target: nat)
    requires Inv(s, todo, waiting) && Apply(target) in todo
    ensures var (t, more) := Called(s, Apply(target), todo[Apply(target)]);
      Inv(t, (todo - {Apply(target)}) + more, waiting)
  {
    hide Known, Placed, PromiseOk, JoinOk, Used, WellMade;
    var cb := Apply(target);
    DueIsPlaced(s, todo, waiting, cb);
    var (t, more) := Called(s, cb, todo[cb]);
    TaskDone(s, todo, waiting, cb);
    FinishKnows(s, target, s.kinds[target].fn(todo[cb]), todo - {cb}, waiting);
    assert PromisesOk(t) && JoinsOk(t) by { hide Known, AllPlaced; FinishSpares(s, target, s.kinds[target].fn(todo[cb])); }
    assert AllPlaced(t, (todo - {cb}) + more, waiting) by {
      forall c | Legit(t, c) ensures Placed(t, (todo - {cb}) + more, waiting, c) {
        assert Legit(s, c);
        ApplyPlaces(s, todo, waiting, target, c);
      }
    }
  }

  /** Completing a Then target touches no promise and no All. */
  lemma FinishSpares<T>(s: Store<T>, f: nat, v: Value<T>)
    requires Sized(s) && PromisesOk(s) && JoinsOk(s) && f < |s.kinds| && s.kinds[f].Mapped?
    ensures var t := Finish(s, f, v).0; Sized(t) && PromisesOk(t) && JoinsOk(t)
  {
    var t := Finish(s, f, v).0;
    forall id | 0 <= id < |t.kinds| && t.kinds[id].Joined? ensures JoinOk(t, id) { assert JoinOk(s, id); }
    forall id | 0 <= id < |t.kinds| && t.kinds[id].Promise? ensures PromiseOk(t, id) { assert PromiseOk(s, id); }
  }

  lemma {:induction false} MissingAfter<T>(vals: seq<Option<Value<T>>>, i: nat, v: Value<T>)
    requires i < |vals| && vals[i].None?
    ensures Missing(vals[i := Some(v)]) == Missing(vals) - 1
  {
    if i == 0 {
      assert vals[0 := Some(v)][1..] == vals[1..];
    } else {
      assert vals[i := Some(v)][1..] == vals[1..][i - 1 := Some(v)];
      MissingAfter(vals[1..], i - 1, v);
    }
  }

  lemma {:induction false} NoneMissing<T>(vals: seq<Option<Value<T>>>)
    ensures Missing(vals) == 0 <==> None !in vals
  {
    if vals != [] {
      NoneMissing(vals[1..]);
      assert vals == [vals[0]] + vals[1..];
    }
  }

  /** All's closure for slot i, up to its decision to complete. */
  ghost function SlotFilled<T>(s: Store<T>, out: nat, i: nat, v: Value<T>): Store<T>
    requires Sized(s) && Legit(s, Slot(out, i))
  {
    s.(joins := s.joins[out := Join(s.joins[out].left - 1, s.joins[out].vals[i := Some(v)])])
  }

  lemma SlotKnows<T>(s: Store<T>, todo: Tasks<T>, waiting: set<Callback>, out: nat, i: nat, v: Value<T>)
    requires Sized(s) && Known(s, todo, waiting) && Legit(s, Slot(out, i))
    ensures var t := SlotFilled(s, out, i, v);
      Sized(t) && Known(t, todo, waiting)
  {
    var t := SlotFilled(s, out, i, v);
    SameCallbacks(s, t);
  }

  lemma SlotPlaces<T>(s: Store<T>, todo: Tasks<T>, waiting: set<Callback>, out: nat, i: nat, c: Callback)
    requires Sized(s) && Known(s, todo, waiting) && AllPlaced(s, todo, waiting) && Slot(out, i) in todo
    requires Legit(s, c)
    ensures Legit(s, Slot(out, i))
    ensures var t := SlotFilled(s, out, i, todo[Slot(out, i)]);
      Sized(t) && Legit(t, c) && Placed(t, todo - {Slot(out, i)}, waiting, c)
  {
    DueIsPlaced(s, todo, waiting, Slot(out, i));
    assert Placed(s, todo, waiting, c);
    hide WellMade, Known, AllPlaced, Distinct;
  }

  lemma SlotKeepsJoin<T>(s: Store<T>, out: nat, i: nat, v: Value<T>)
    requires Sized(s) && JoinsOk(s) && Legit(s, Slot(out, i)) && s.joins[out].vals[i].None?
    ensures var t := Called(s, Slot(out, i), v).0; Sized(t) && JoinOk(t, out)
    ensures s.results[out].None?
  {
    assert JoinOk(s, out);
    MissingAfter(s.joins[out].vals, i, v);
    hide Missing, Filled, WellMade;
  }

  lemma SlotKeepsJoins<T>(s: Store<T>, out: nat, i: nat, v: Value<T>)
    requires Sized(s) && PromisesOk(s) && JoinsOk(s) && Legit(s, Slot(out, i)) && s.joins[out].vals[i].None?
    ensures var t := Called(s, Slot(out, i), v).0; Sized(t) && PromisesOk(t) && JoinsOk(t)
    ensures s.results[out].None?
  {
    SlotKeepsJoin(s, out, i, v);
    hide Missing, Filled, WellMade;
    var t := Called(s, Slot(out, i), v).0;
    forall id | 0 <= id < |t.kinds| && t.kinds[id].Joined? ensures JoinOk(t, id) { if id != out { assert JoinOk(s, id); } }
    forall id | 0 <= id < |t.kinds| && t.kinds[id].Promise? ensures PromiseOk(t, id) { assert PromiseOk(s, id); }
  }

  /** All's closure runs: its slot is filled, and the last one to run completes the result. */
  lemma SlotKeepsInv<T>(s: Store<T>, todo: Tasks<T>, waiting: set<Callback>, out: nat, i: nat)
    requires Inv(s, todo, waiting) && Slot(out, i) in todo
    ensures var (t, more) := Called(s, Slot(out, i), todo[Slot(out, i)]);
      Inv(t, (todo - {Slot(out, i)}) + more, waiting)
  {
    hide Known, Placed, PromisesOk, JoinsOk, PromiseOk, JoinOk, Missing, WellMade;
    var cb := Slot(out, i);
    var v := todo[cb];
    var rest := todo - {cb};
    DueIsPlaced(s, todo, waiting, cb);
    TaskDone(s, todo, waiting, cb);
    SlotKnows(s, rest, waiting, out, i, v);
    SlotKeepsJoins(s, out, i, v);
    var t := SlotFilled(s, out, i, v);
    assert AllPlaced(t, rest, waiting) by {
      forall c | Legit(t, c) ensures Placed(t, rest, waiting, c) {
        assert Legit(s, c);
        SlotPlaces(s, todo, waiting, out, i, c);
      }
    }
    if t.joins[out].left == 0 {
      FinishAllPlaces(t, out, Many(Filled(t.joins[out].vals)), rest, waiting);
    } else {
      assert rest + map[] == rest;
    }
  }

  /** Completing a future that is no Then target keeps every callback placed. */
  lemma FinishAllPlaces<T>(s: Store<T>, f: nat, v: Value<T>, todo: Tasks<T>, waiting: set<Callback>)
    requires Sized(s) && Known(s, todo, waiting) && AllPlaced(s, todo, waiting)
    requires f < |s.results| && s.results[f].None? && !s.kinds[f].Mapped?
    ensures var (t, more) := Finish(s, f, v);
      Sized(t) && Known(t, todo + more, waiting) && AllPlaced(t, todo + more, waiting)
  {
    FinishKnows(s, f, v, todo, waiting);
    var (t, more) := Finish(s, f, v);
    forall c | Legit(t, c) ensures Placed(t, todo + more, waiting, c) {
      assert Legit(s, c) && c != Apply(f);
      FinishPlaces(s, f, v, todo, waiting, c);
    }
  }

  /** Steps that leave results and slots alone leave the books alone. */
  lemma BooksStay<T>(s: Store<T>, t: Store<T>)
    requires Sized(s) && PromisesOk(s) && JoinsOk(s) && Sized(t)
    requires t.kinds == s.kinds && t.firsts == s.firsts && t.results == s.results && t.joins == s.joins
    ensures PromisesOk(t) && JoinsOk(t)
  {
    forall id | 0 <= id < |t.kinds| && t.kinds[id].Joined? ensures JoinOk(t, id) { assert JoinOk(s, id); }
    forall id | 0 <= id < |t.kinds| && t.kinds[id].Promise? ensures PromiseOk(t, id) { assert PromiseOk(s, id); }
  }

  lemma UserPlaces<T>(s: Store<T>, todo: Tasks<T>, waiting: set<Callback>, k: nat, c: Callback)
    requires Sized(s) && Known(s, todo, waiting) && AllPlaced(s, todo, waiting) && User(k) in todo
    requires Legit(s, c)
    ensures Legit(s, User(k))
    ensures var t := Called(s, User(k), todo[User(k)]).0;
      Sized(t) && Legit(t, c) && Placed(t, todo - {User(k)}, waiting, c)
  {
    DueIsPlaced(s, todo, waiting, User(k));
    assert Placed(s, todo, waiting, c);
  }

  lemma UserKnows<T>(s: Store<T>, todo: Tasks<T>, waiting: set<Callback>, k: nat, v: Value<T>)
    requires Sized(s) && Known(s, todo, waiting) && Legit(s, User(k))
    ensures var t := Called(s, User(k), v).0;
      Sized(t) && Known(t, todo, waiting)
  {
    var t := Called(s, User(k), v).0;
    SameCallbacks(s, t);
  }

  lemma UserKeepsInv<T>(s: Store<T>, todo: Tasks<T>, waiting: set<Callback>, k: nat)
    requires Inv(s, todo, waiting) && User(k) in todo
    ensures var (t, more) := Called(s, User(k), todo[User(k)]);
      Inv(t, (todo - {User(k)}) + more, waiting)
  {
    hide Known, Placed, PromisesOk, JoinsOk, PromiseOk, JoinOk, Used, WellMade;
    var cb := User(k);
    DueIsPlaced(s, todo, waiting, cb);
    TaskDone(s, todo, waiting, cb);
    UserKnows(s, todo - {cb}, waiting, k, todo[cb]);
    var (t, more) := Called(s, cb, todo[cb]);
    assert (todo - {cb}) + more == todo - {cb};
    BooksStay(s, t);
    forall c | Legit(t, c) ensures Placed(t, todo - {cb}, waiting, c) {
      assert Legit(s, c);
      UserPlaces(s, todo, waiting, k, c);
    }
  }

  /** Any callback that is due may run next. */
  lemma CallKeepsInv<T>(s: Store<T>, todo: Tasks<T>, waiting: set<Callback>, cb: Callback)
    requires Inv(s, todo, waiting) && cb in todo
    ensures var (t, more) := Called(s, cb, todo[cb]);
      Inv(t, (todo - {cb}) + more, waiting)
  {
    match cb
    case User(k) => UserKeepsInv(s, todo, waiting, k);
    case Apply(target) => ApplyKeepsInv(s, todo, waiting, target);
    case Slot(out, i) => SlotKeepsInv(s, todo, waiting, out, i);
  }

  /** A promise is completed; the history records the first value only. */
  function Completed<T>(s: Store<T>, p: nat, v: Value<T>): (Store<T>, Tasks<T>)
    requires p < |s.results| == |s.callbacks|
  {
    var (t, more) := Finish(s, p, v);
    (if p in s.firsts then t else t.(firsts := t.firsts[p := v]), more)
  }

  lemma CompleteKeepsInv<T>(s: Store<T>, todo: Tasks<T>, waiting: set<Callback>, p: nat, v: Value<T>)
    requires Inv(s, todo, waiting) && p < |s.kinds| && s.kinds[p].Promise?
    ensures var (t, more) := Completed(s, p, v);
      Inv(t, todo + more, waiting)
  {
    var (t, more) := Completed(s, p, v);
    assert PromiseOk(s, p);
    if s.results[p].Some? {
      assert todo + more == todo;
    } else {
      var u := Finish(s, p, v).0;
      FinishAllPlaces(s, p, v, todo, waiting);
      HistoryIsFree(u, todo + more, waiting, s.firsts[p := v]);
      forall id | 0 <= id < |t.kinds| && t.kinds[id].Joined? ensures JoinOk(t, id) { assert JoinOk(s, id); }
      forall id | 0 <= id < |t.kinds| && t.kinds[id].Promise? ensures PromiseOk(t, id) { assert PromiseOk(s, id); }
    }
  }

  lemma HistoryIsFree<T>(s: Store<T>, todo: Tasks<T>, waiting: set<Callback>, firsts: map<nat, Value<T>>)
    requires Sized(s) && Known(s, todo, waiting) && AllPlaced(s, todo, waiting)
    requires forall p :: p in firsts ==> p < |s.kinds|
    ensures var t := s.(firsts := firsts); Sized(t) && Known(t, todo, waiting) && AllPlaced(t, todo, waiting)
  {
    hide WellMade;
    var t := s.(firsts := firsts);
    SameCallbacks(s, t);
    forall cb | Legit(t, cb) ensures Placed(t, todo, waiting, cb) { assert Placed(s, todo, waiting, cb); }
  }

  // ---------------------------------------------------------------- registering and making

  /** OnComplete: a done future has the caller run it, otherwise it joins the list. */
  ghost function Registered<T>(s: Store<T>, cb: Callback): (Store<T>, Tasks<T>)
    requires Sized(s) && Legit(s, cb)
  {
    var f := Source(s, cb);
    match s.results[f]
    case Some(v) => (s, map[cb := v])
    case None => (s.(callbacks := s.callbacks[f := s.callbacks[f] + [cb]]), map[])
  }

  lemma RegisterPlaces<T>(s: Store<T>, todo: Tasks<T>, waiting: set<Callback>, cb: Callback, c: Callback)
    requires Sized(s) && Known(s, todo, waiting) && AllPlaced(s, todo, waiting) && cb in waiting
    requires Legit(s, c)
    ensures Legit(s, cb)
    ensures var (t, more) := Registered(s, cb);
      Sized(t) && Legit(t, c) && Placed(t, todo + more, waiting - {cb}, c)
  {
    assert Placed(s, todo, waiting, cb);
    assert Placed(s, todo, waiting, c);
  }

  lemma RegisterKnows<T>(s: Store<T>, todo: Tasks<T>, waiting: set<Callback>, cb: Callback)
    requires Sized(s) && Known(s, todo, waiting) && Legit(s, cb)
    requires cb !in s.callbacks[Source(s, cb)]
    ensures var (t, more) := Registered(s, cb);
      Sized(t) && Known(t, todo + more, waiting - {cb})
  {
    var (t, more) := Registered(s, cb);
    SameCallbacks(s, t);
  }

  lemma RegisterKeepsInv<T>(s: Store<T>, todo: Tasks<T>, waiting: set<Callback>, cb: Callback)
    requires Inv(s, todo, waiting) && cb in waiting
    ensures Legit(s, cb)
    ensures var (t, more) := Registered(s, cb);
      Inv(t, todo + more, waiting - {cb})
  {
    assert Placed(s, todo, waiting, cb);
    RegisterKnows(s, todo, waiting, cb);
    var (t, more) := Registered(s, cb);
    BooksStay(s, t);
    forall c | Legit(t, c) ensures Placed(t, todo + more, waiting - {cb}, c) {
      assert Legit(s, c);
      RegisterPlaces(s, todo, waiting, cb, c);
    }
  }

  /** A user's next callback, on future f. */
  function Watched<T>(s: Store<T>, f: nat): (Store<T>, set<Callback>) {
    (s.(watched := s.watched + [f], runs := s.runs + [[]]), {User(|s.watched|)})
  }

  /** newFuture, and what its maker is about to register. */
  function Made<T>(s: Store<T>, kind: Kind<T>): (Store<T>, set<Callback>) {
    var id := |s.kinds|;
    var t := s.(kinds := s.kinds + [kind], callbacks := s.callbacks + [[]]);
    match kind
    case Promise => (t.(results := t.results + [None]), {})
    case Mapped(_, _) => (t.(results := t.results + [None]), {Apply(id)})
    case Joined(inputs) =>
      (t.(results := t.results + [if inputs == [] then Some(Many([])) else None],
          joins := t.joins[id := Join(|inputs|, seq(|inputs|, _ => None))]),
       set i | 0 <= i < |inputs| :: Slot(id, i))
  }

  /** t has every callback of s, in the same place, and knows of the new ones only as waiting. */
  ghost predicate Extends<T>(s: Store<T>, t: Store<T>, more: set<Callback>) {
    && Sized(s) && Sized(t)
    && s.kinds <= t.kinds && s.watched <= t.watched && s.results <= t.results && s.runs <= t.runs
    && (forall out :: out in s.joins ==> out in t.joins && t.joins[out] == s.joins[out])
    && (t.callbacks == s.callbacks || t.callbacks == s.callbacks + [[]])
    && (forall c :: Legit(t, c) <==> Legit(s, c) || c in more)
    && (forall c :: c in more ==> !Legit(s, c) && !Used(t, c))
  }

  lemma ExtendPlaces<T>(s: Store<T>, t: Store<T>, todo: Tasks<T>, waiting: set<Callback>, more: set<Callback>, c: Callback)
    requires Extends(s, t, more) && Known(s, todo, waiting) && AllPlaced(s, todo, waiting) && Legit(t, c)
    ensures Placed(t, todo, waiting + more, c)
  {
    assert Source(t, c) < |s.callbacks| ==> t.callbacks[Source(t, c)] == s.callbacks[Source(t, c)];
    if Legit(s, c) {
      assert Source(t, c) == Source(s, c);
      assert Placed(s, todo, waiting, c);
    }
  }

  lemma ExtendKnows<T>(s: Store<T>, t: Store<T>, todo: Tasks<T>, waiting: set<Callback>, more: set<Callback>)
    requires Extends(s, t, more) && Known(s, todo, waiting)
    ensures Known(t, todo, waiting + more)
  {
    assert forall c :: Legit(s, c) ==> Source(t, c) == Source(s, c);
    forall f, cb | 0 <= f < |t.callbacks| && cb in t.callbacks[f] ensures Legit(t, cb) && Source(t, cb) == f {
      assert f < |s.callbacks| && cb in s.callbacks[f];
    }
  }

  lemma ExtendKeepsPlaces<T>(s: Store<T>, t: Store<T>, todo: Tasks<T>, waiting: set<Callback>, more: set<Callback>)
    requires Extends(s, t, more) && Known(s, todo, waiting) && AllPlaced(s, todo, waiting)
    ensures Known(t, todo, waiting + more) && AllPlaced(t, todo, waiting + more)
  {
    ExtendKnows(s, t, todo, waiting, more);
    forall c | Legit(t, c) ensures Placed(t, todo, waiting + more, c) {
      ExtendPlaces(s, t, todo, waiting, more, c);
    }
  }

  lemma WatchKeepsInv<T>(s: Store<T>, todo: Tasks<T>, waiting: set<Callback>, f: nat)
    requires Inv(s, todo, waiting) && f < |s.kinds|
    ensures var (t, more) := Watched(s, f);
      Inv(t, todo, waiting + more)
  {
    var (t, more) := Watched(s, f);
    BooksStay(s, t);
    assert Extends(s, t, more);
    ExtendKeepsPlaces(s, t, todo, waiting, more);
  }

  predicate Older<T>(kind: Kind<T>, id: nat) {
    match kind
    case Promise => true
    case Mapped(from, _) => from < id
    case Joined(inputs) => forall i :: 0 <= i < |inputs| ==> inputs[i] < id
  }

  lemma MakeExtends<T>(s: Store<T>, kind: Kind<T>)
    requires Sized(s) && Older(kind, |s.kinds|)
    ensures var (t, more) := Made(s, kind); Extends(s, t, more)
  {
    MakeSizes(s, kind);
    var (t, more) := Made(s, kind);
    assert forall c :: Legit(t, c) <==> Legit(s, c) || c in more;
  }

  lemma MakeSizes<T>(s: Store<T>, kind: Kind<T>)
    requires Sized(s) && Older(kind, |s.kinds|)
    ensures Sized(Made(s, kind).0)
  {
    var t := Made(s, kind).0;
    assert WellMade(t.kinds);
    forall id: nat ensures id in t.joins <==> id < |t.kinds| && t.kinds[id].Joined? {
      assert id in s.joins <==> id < |s.kinds| && s.kinds[id].Joined?;
    }
  }

  lemma {:induction false} AllMissing<T>(n: nat)
    ensures Missing(seq(n, _ => Option<Value<T>>.None)) == n
  {
    if n > 0 {
      AllMissing<T>(n - 1);
      assert seq(n, _ => Option<Value<T>>.None)[1..] == seq(n - 1, _ => Option<Value<T>>.None);
    }
  }

  lemma MakeKeepsInv<T>(s: Store<T>, todo: Tasks<T>, waiting: set<Callback>, kind: Kind<T>)
    requires Inv(s, todo, waiting) && Older(kind, |s.kinds|)
    ensures var (t, more) := Made(s, kind);
      Inv(t, todo, waiting + more)
  {
    var (t, more) := Made(s, kind);
    MakeExtends(s, kind);
    ExtendKeepsPlaces(s, t, todo, waiting, more);
    if kind.Joined? { AllMissing<T>(|kind.inputs|); }
    forall id | 0 <= id < |t.kinds| && t.kinds[id].Joined? ensures JoinOk(t, id) {
      if id < |s.kinds| { assert JoinOk(s, id); }
    }
    forall id | 0 <= id < |t.kinds| && t.kinds[id].Promise? ensures PromiseOk(t, id) {
      if id < |s.kinds| { assert PromiseOk(s, id); }
    }
  }

  // ---------------------------------------------------------------- what the invariant says

  /** A slot or a Then target that is filled has its source's value. */
  lemma UsedIsRight<T>(s: Store<T>, todo: Tasks<T>, waiting: set<Callback>, cb: Callback)
    requires Inv(s, todo, waiting) && Legit(s, cb)
    ensures Used(s, cb) ==> s.results[Source(s, cb)].Some? && UsedWith(s, cb, s.results[Source(s, cb)].value)
    ensures todo == map[] && waiting == {} && s.results[Source(s, cb)].Some? ==> Used(s, cb)
  {
    assert Placed(s, todo, waiting, cb);
  }

  /** Filled slots hold their inputs' values; once nothing is left to run, the slots are the inputs' results. */
  lemma SlotsAreInputs<T>(s: Store<T>, todo: Tasks<T>, waiting: set<Callback>, id: nat, i: nat)
    requires Inv(s, todo, waiting) && id < |s.kinds| && s.kinds[id].Joined? && i < |s.kinds[id].inputs|
    ensures s.joins[id].vals[i].Some? ==> s.joins[id].vals[i] == s.results[s.kinds[id].inputs[i]]
    ensures todo == map[] && waiting == {} ==> s.joins[id].vals[i] == s.results[s.kinds[id].inputs[i]]
  {
    UsedIsRight(s, todo, waiting, Slot(id, i));
  }

  /**
    A completed future has the value the combinators mean, even halfway through a cascade of
    callbacks; and once nothing is left to run, it is completed exactly when it has a meaning.
   */
  lemma {:induction false} ResultsAreMeant<T>(s: Store<T>, todo: Tasks<T>, waiting: set<Callback>, id: nat)
    requires Inv(s, todo, waiting) && id < |s.kinds|
    ensures s.results[id].Some? ==> s.results[id] == Meaning(s.kinds, s.firsts, id)
    ensures todo == map[] && waiting == {} ==> s.results[id] == Meaning(s.kinds, s.firsts, id)
    decreases id
  {
    match s.kinds[id]
    case Promise =>
      assert PromiseOk(s, id);
    case Mapped(from, fn) =>
      UsedIsRight(s, todo, waiting, Apply(id));
      ResultsAreMeant(s, todo, waiting, from);
    case Joined(inputs) =>
      var vals := s.joins[id].vals;
      var all := Meanings(s.kinds, s.firsts, inputs, id);
      assert JoinOk(s, id);
      NoneMissing(vals);
      forall i: nat | i < |inputs|
        ensures vals[i].Some? ==> vals[i] == all[i]
        ensures todo == map[] && waiting == {} ==> vals[i] == all[i]
      {
        SlotsAreInputs(s, todo, waiting, id, i);
        ResultsAreMeant(s, todo, waiting, inputs[i]);
      }
      if None !in vals || (todo == map[] && waiting == {}) {
        assert vals == all;
      }
  }

  /** A user's callback has run at most once, with its future's value; exactly once when nothing is left to run. */
  lemma RunsOnce<T>(s: Store<T>, todo: Tasks<T>, waiting: set<Callback>, k: nat)
    requires Inv(s, todo, waiting) && k < |s.watched|
    ensures s.runs[k] != [] ==> s.results[s.watched[k]].Some? && s.runs[k] == [s.results[s.watched[k]].value]
    ensures todo == map[] && waiting == {} ==>
      s.runs[k] == match s.results[s.watched[k]] case None => [] case Some(v) => [v]
  {
    UsedIsRight(s, todo, waiting, User(k));
  }

  /** The results of All's inputs, in order. */
  function InputResults<T>(s: Store<T>, inputs: seq<nat>): (r: seq<Option<Value<T>>>)
    requires forall i :: 0 <= i < |inputs| ==> inputs[i] < |s.results|
    ensures |r| == |inputs| && forall i :: 0 <= i < |inputs| ==> r[i] == s.results[inputs[i]]
  {
    if inputs == [] then [] else [s.results[inputs[0]]] + InputResults(s, inputs[1..])
  }

  /** Once nothing is left to run, `left` is the number of incomplete inputs, repeated inputs counted each time. */
  lemma LeftCountsInputs<T>(s: Store<T>, id: nat)
    requires Inv(s, map[], {}) && id < |s.kinds| && s.kinds[id].Joined?
    ensures s.joins[id].left == Missing(InputResults(s, s.kinds[id].inputs))
    ensures s.results[id].Some? <==> None !in InputResults(s, s.kinds[id].inputs)
  {
    var inputs := s.kinds[id].inputs;
    forall i: nat | i < |inputs| ensures s.joins[id].vals[i] == s.results[inputs[i]] {
      SlotsAreInputs(s, map[], {}, id, i);
    }
    assert s.joins[id].vals == InputResults(s, inputs);
    assert JoinOk(s, id);
    NoneMissing(s.joins[id].vals);
  }

  // ---------------------------------------------------------------- over every run

  datatype State<!T> = State(store: Store<T>, todo: Tasks<T>, waiting: set<Callback>)

  datatype Move<!T> =
    | Make(kind: Kind<T>)
    | Watch(f: nat)
    | Register(cb: Callback)
    | Complete(p: nat, v: Value<T>)
    | Call(cb: Callback)

  function Empty<T>(): Store<T> {
    Store([], map[], [], [], [], map[], [])
  }

  /** One step; a move that is not possible does nothing. */
  ghost function Step<T>(st: State<T>, m: Move<T>): State<T>
    requires Inv(st.store, st.todo, st.waiting)
  {
    var s := st.store;
    match m
    case Make(kind) =>
      if Older(kind, |s.kinds|) then var (t, more) := Made(s, kind); st.(store := t, waiting := st.waiting + more) else st
    case Watch(f) =>
      if f < |s.kinds| then var (t, more) := Watched(s, f); st.(store := t, waiting := st.waiting + more) else st
    case Register(cb) =>
      if cb in st.waiting then var (t, more) := Registered(s, cb); State(t, st.todo + more, st.waiting - {cb}) else st
    case Complete(p, v) =>
      if p < |s.kinds| && s.kinds[p].Promise? then var (t, more) := Completed(s, p, v); st.(store := t, todo := st.todo + more) else st
    case Call(cb) =>
      if cb in st.todo then var (t, more) := Called(s, cb, st.todo[cb]); st.(store := t, todo := (st.todo - {cb}) + more) else st
  }

  lemma StepKeepsInv<T>(st: State<T>, m: Move<T>)
    requires Inv(st.store, st.todo, st.waiting)
    ensures var t := Step(st, m); Inv(t.store, t.todo, t.waiting)
  {
    var s := st.store;
    match m
    case Make(kind) => if Older(kind, |s.kinds|) { MakeKeepsInv(s, st.todo, st.waiting, kind); }
    case Watch(f) => if f < |s.kinds| { WatchKeepsInv(s, st.todo, st.waiting, f); }
    case Register(cb) => if cb in st.waiting { RegisterKeepsInv(s, st.todo, st.waiting, cb); }
    case Complete(p, v) => if p < |s.kinds| && s.kinds[p].Promise? { CompleteKeepsInv(s, st.todo, st.waiting, p, v); }
    case Call(cb) => if cb in st.todo { CallKeepsInv(s, st.todo, st.waiting, cb); }
  }

  /** Any steps in any order, from any consistent state to a consistent state. */
  ghost function Run<T>(st: State<T>, moves: seq<Move<T>>): (r: State<T>)
    requires Inv(st.store, st.todo, st.waiting)
    ensures Inv(r.store, r.todo, r.waiting)
    decreases |moves|
  {
    if moves == [] then st
    else
      StepKeepsInv(st, moves[0]);
      Run(Step(st, moves[0]), moves[1..])
  }

  function Start<T>(): (st: State<T>)
    ensures Inv(st.store, st.todo, st.waiting)
  {
    State(Empty(), map[], {})
  }

  /**
    For every set of futures, combinators and callbacks, every order of completions and every
    interleaving of the callbacks: a completed future has the value its combinators mean, All's
    `left` counts its unfilled slots, and a user's callback has run at most once, with that
    value. When nothing is left to run, every future with a meaning is completed, `left` is
    the number of incomplete inputs, and every callback of a completed future has run.
   */
  lemma CombinatorsMeanWhatTheySay<T>(moves: seq<Move<T>>)
    ensures var st := Run(Start(), moves);
      var s := st.store;
      && Sized(s)
      && (forall id :: 0 <= id < |s.results| && s.results[id].Some? ==> s.results[id] == Meaning(s.kinds, s.firsts, id))
      && (forall k :: 0 <= k < |s.runs| && s.runs[k] != [] ==>
          s.results[s.watched[k]].Some? && s.runs[k] == [s.results[s.watched[k]].value])
      && (forall id :: id in s.joins ==> s.joins[id].left == Missing(s.joins[id].vals))
      && (st.todo == map[] && st.waiting == {} ==> AllDone(s))
  {
    var st := Run(Start(), moves);
    var s := st.store;
    forall id: nat | id < |s.results| && s.results[id].Some? ensures s.results[id] == Meaning(s.kinds, s.firsts, id) {
      ResultsAreMeant(s, st.todo, st.waiting, id);
    }
    forall k: nat | k < |s.runs| && s.runs[k] != []
      ensures s.results[s.watched[k]].Some? && s.runs[k] == [s.results[s.watched[k]].value]
    {
      RunsOnce(s, st.todo, st.waiting, k);
    }
    forall id | id in s.joins ensures s.joins[id].left == Missing(s.joins[id].vals) {
      assert JoinOk(s, id);
    }
    if st.todo == map[] && st.waiting == {} {
      QuietIsDone(s);
    }
  }

  /** Everything that should have happened has. */
  ghost predicate AllDone<T>(s: Store<T>)
    requires Sized(s)
  {
    && (forall id :: 0 <= id < |s.results| ==> s.results[id] == Meaning(s.kinds, s.firsts, id))
    && (forall k :: 0 <= k < |s.runs| ==> s.runs[k] == match s.results[s.watched[k]] case None => [] case Some(v) => [v])
    && (forall id :: id in s.joins ==> s.joins[id].left == Missing(InputResults(s, s.kinds[id].inputs)))
  }

  lemma QuietIsDone<T>(s: Store<T>)
    requires Inv(s, map[], {})
    ensures AllDone(s)
  {
    forall id: nat | id < |s.results| ensures s.results[id] == Meaning(s.kinds, s.firsts, id) {
      ResultsAreMeant(s, map[], {}, id);
    }
    forall k: nat | k < |s.runs| ensures s.runs[k] == match s.results[s.watched[k]] case None => [] case Some(v) => [v] {
      RunsOnce(s, map[], {}, k);
    }
    forall id | id in s.joins ensures s.joins[id].left == Missing(InputResults(s, s.kinds[id].inputs)) {
      LeftCountsInputs(s, id);
    }
  }
}
