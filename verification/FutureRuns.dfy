/**
  The futures of a run are those its calls have made, completed with the first values its calls
  have given; and whatever has happened, the callbacks still to run come to an end in any order.
 */
module FutureRuns {
  import opened Options
  import opened Futures

  // ---------------------------------------------------------------- the history is the calls

  /** The futures the calls have made, in order. */
  function KindsOf<T>(moves: seq<Move<T>>): seq<Kind<T>>
    decreases |moves|
  {
    if moves == [] then []
    else
      var before, m := KindsOf(moves[..|moves| - 1]), moves[|moves| - 1];
      if m.Make? && Older(m.kind, |before|) then before + [m.kind] else before
  }

  /** The futures users' callbacks have been put on, in order. */
  function WatchedOf<T>(moves: seq<Move<T>>): seq<nat>
    decreases |moves|
  {
    if moves == [] then []
    else
      var front, m := moves[..|moves| - 1], moves[|moves| - 1];
      WatchedOf(front) + if m.Watch? && m.f < |KindsOf(front)| then [m.f] else []
  }

  /** The first value each promise has been completed with. */
  function FirstsOf<T>(moves: seq<Move<T>>): map<nat, Value<T>>
    decreases |moves|
  {
    if moves == [] then map[]
    else
      var front, m := moves[..|moves| - 1], moves[|moves| - 1];
      var before := FirstsOf(front);
      if m.Complete? && m.p < |KindsOf(front)| && KindsOf(front)[m.p].Promise? && m.p !in before then before[m.p := m.v] else before
  }

  lemma {:induction false} RunSnoc<T>(st: State<T>, moves: seq<Move<T>>, m: Move<T>)
    requires Inv(st.store, st.todo, st.waiting)
    ensures Run(st, moves + [m]) == Step(Run(st, moves), m)
    decreases |moves|
  {
    hide Inv, Step;
    StepKeepsInv(st, if moves == [] then m else moves[0]);
    if moves == [] {
      assert [] + [m] == [m] && [m][1..] == [];
    } else {
      assert (moves + [m])[0] == moves[0] && (moves + [m])[1..] == moves[1..] + [m];
      RunSnoc(Step(st, moves[0]), moves[1..], m);
    }
  }

  /** Running callbacks makes nothing, watches nothing and gives no promise its first value. */
  lemma StepRecords<T>(st: State<T>, m: Move<T>)
    requires Inv(st.store, st.todo, st.waiting)
    ensures var s, t := st.store, Step(st, m).store;
      && t.kinds == (if m.Make? && Older(m.kind, |s.kinds|) then s.kinds + [m.kind] else s.kinds)
      && t.watched == s.watched + (if m.Watch? && m.f < |s.kinds| then [m.f] else [])
      && t.firsts == (if m.Complete? && m.p < |s.kinds| && s.kinds[m.p].Promise? && m.p !in s.firsts then s.firsts[m.p := m.v] else s.firsts)
  {
    if m.Call? && m.cb in st.todo { CallRecords(st.store, m.cb, st.todo); }
    hide Known, AllPlaced, PromisesOk, JoinsOk, WellMade;
  }

  lemma CallRecords<T>(s: Store<T>, cb: Callback, todo: Tasks<T>)
    requires Sized(s) && cb in todo && Legit(s, cb)
    ensures var t := Called(s, cb, todo[cb]).0; t.kinds == s.kinds && t.watched == s.watched && t.firsts == s.firsts
  {
  }

  /** In every run the futures, the callbacks on them and the promises' values are those of the calls made. */
  lemma {:induction false} HistoryIsTheCalls<T>(moves: seq<Move<T>>)
    ensures var s := Run(Start(), moves).store;
      s.kinds == KindsOf(moves) && s.watched == WatchedOf(moves) && s.firsts == FirstsOf(moves)
    decreases |moves|
  {
    hide Inv, Step;
    if moves != [] {
      var front, m := moves[..|moves| - 1], moves[|moves| - 1];
      HistoryIsTheCalls(front);
      assert moves == front + [m];
      RunSnoc(Start<T>(), front, m);
      StepRecords(Run(Start(), front), m);
    }
  }

  // ---------------------------------------------------------------- every order comes to an end

  /** Something is left to register or to run, and this is it. */
  predicate Effective<T>(st: State<T>, m: Move<T>) {
    (m.Register? && m.cb in st.waiting) || (m.Call? && m.cb in st.todo)
  }

  function Unfinished<T>(results: seq<Option<Value<T>>>): nat {
    if results == [] then 0 else Unfinished(results[..|results| - 1]) + if results[|results| - 1].None? then 1 else 0
  }

  lemma {:induction false} UnfinishedAfter<T>(results: seq<Option<Value<T>>>, f: nat, v: Value<T>)
    requires f < |results| && results[f].None?
    ensures Unfinished(results[f := Some(v)]) == Unfinished(results) - 1
  {
    var last := |results| - 1;
    if f == last {
      assert results[f := Some(v)][..last] == results[..last];
    } else {
      assert results[f := Some(v)][..last] == results[..last][f := Some(v)];
      UnfinishedAfter(results[..last], f, v);
    }
  }

  /** Completing a future either finishes one more, or does nothing. */
  lemma FinishSettles<T>(s: Store<T>, f: nat, v: Value<T>)
    requires f < |s.results| == |s.callbacks|
    ensures var (t, more) := Finish(s, f, v);
      Unfinished(t.results) < Unfinished(s.results) || (t == s && more == map[])
  {
    if s.results[f].None? { UnfinishedAfter(s.results, f, v); }
  }

  /**
    Every callback registered or run brings the end nearer: fewer are waiting, or fewer futures
    are unfinished, or fewer callbacks are due. So no order of them goes on for ever.
   */
  lemma StepSettles<T>(st: State<T>, m: Move<T>)
    requires Inv(st.store, st.todo, st.waiting) && Effective(st, m)
    ensures var t := Step(st, m);
      && Inv(t.store, t.todo, t.waiting)
      && (|| |t.waiting| < |st.waiting|
          || (t.waiting == st.waiting && Unfinished(t.store.results) < Unfinished(st.store.results))
          || (t.waiting == st.waiting && Unfinished(t.store.results) == Unfinished(st.store.results) && |t.todo| < |st.todo|))
  {
    hide Inv, Called, Registered, Unfinished, Step, Sized, Legit;
    StepKeepsInv(st, m);
    if m.Call? {
      CallSettles(st.store, st.todo, st.waiting, m.cb);
      CallIs(st, m.cb);
    } else {
      RegisterIs(st, m.cb);
      assert st.waiting == (st.waiting - {m.cb}) + {m.cb};
    }
  }

  lemma CallIs<T>(st: State<T>, cb: Callback)
    requires Inv(st.store, st.todo, st.waiting) && cb in st.todo
    ensures Sized(st.store) && Legit(st.store, cb)
    ensures var (t, more) := Called(st.store, cb, st.todo[cb]); Step(st, Call(cb)) == State(t, (st.todo - {cb}) + more, st.waiting)
  {
    hide AllPlaced, PromisesOk, JoinsOk, Called;
  }

  lemma RegisterIs<T>(st: State<T>, cb: Callback)
    requires Inv(st.store, st.todo, st.waiting) && cb in st.waiting
    ensures Step(st, Register(cb)).waiting == st.waiting - {cb}
  {
    hide AllPlaced, PromisesOk, JoinsOk, Registered;
  }

  lemma CallSettles<T>(s: Store<T>, todo: Tasks<T>, waiting: set<Callback>, cb: Callback)
    requires Inv(s, todo, waiting) && cb in todo
    ensures Sized(s) && Legit(s, cb)
    ensures var (t, more) := Called(s, cb, todo[cb]);
      || Unfinished(t.results) < Unfinished(s.results)
      || (t.results == s.results && |(todo - {cb}) + more| < |todo|)
  {
    DueIsPlaced(s, todo, waiting, cb);
    var rest := todo - {cb};
    assert rest.Keys == todo.Keys - {cb} && |rest.Keys| < |todo.Keys|;
    var none: Tasks<T> := map[];
    assert rest + none == rest;
    hide Inv, WellMade, Unfinished, Finish;
    CalledSettles(s, cb, todo[cb]);
  }

  lemma CalledSettles<T>(s: Store<T>, cb: Callback, v: Value<T>)
    requires Sized(s) && Legit(s, cb)
    ensures var (t, more) := Called(s, cb, v);
      Unfinished(t.results) < Unfinished(s.results) || (t.results == s.results && more == map[])
  {
    hide WellMade, Unfinished, Finish;
    match cb
    case User(k) =>
    case Apply(t) => FinishSettles(s, t, s.kinds[t].fn(v));
    case Slot(out, i) =>
      var j := Join(s.joins[out].left - 1, s.joins[out].vals[i := Some(v)]);
      FinishSettles(s.(joins := s.joins[out := j]), out, Many(Filled(j.vals)));
  }

  /** Only registering and running. */
  predicate OnlyRuns<T>(moves: seq<Move<T>>) {
    forall i :: 0 <= i < |moves| ==> moves[i].Register? || moves[i].Call?
  }

  /** From every state the callbacks there are can be run until none is left; then everything that should have happened has. */
  lemma {:induction false} CallbacksSettle<T>(st: State<T>) returns (moves: seq<Move<T>>)
    requires Inv(st.store, st.todo, st.waiting)
    ensures OnlyRuns(moves)
    ensures var t := Run(st, moves); t.todo == map[] && t.waiting == {} && Sized(t.store) && AllDone(t.store)
    decreases |st.waiting|, Unfinished(st.store.results), |st.todo|
  {
    hide Inv, Step, AllDone, Unfinished, Sized;
    if st.todo == map[] && st.waiting == {} {
      moves := [];
      QuietIsSized(st);
    } else {
      var m := SomethingLeft(st);
      StepSettles(st, m);
      var rest := CallbacksSettle(Step(st, m));
      moves := [m] + rest;
      assert moves[0] == m && moves[1..] == rest;
    }
  }

  lemma QuietIsSized<T>(st: State<T>)
    requires Inv(st.store, st.todo, st.waiting) && st.todo == map[] && st.waiting == {}
    ensures Sized(st.store) && AllDone(st.store)
  {
    QuietIsDone(st.store);
  }

  lemma SomethingLeft<T>(st: State<T>) returns (m: Move<T>)
    requires st.todo != map[] || st.waiting != {}
    ensures Effective(st, m) && (m.Register? || m.Call?)
  {
    if st.waiting != {} {
      var cb :| cb in st.waiting;
      m := Register(cb);
    } else {
      var cb :| cb in st.todo;
      m := Call(cb);
    }
  }
}
