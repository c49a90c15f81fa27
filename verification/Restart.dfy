/** Starting an actor: its log is replayed into its mailbox before the loop runs. */
module Restart {
  import opened Options
  import opened Arithmetic
  import opened Words
  import opened SegmentChain
  import opened Segmented
  import opened Wals
  import opened Mailboxes

  /** A serializer; decoding gives back what was encoded. */
  datatype Serializer<!P> = Serializer(marshal: P -> Option<Record>, unmarshal: Record -> Option<P>)

  ghost predicate RoundTrips<P(!new)>(s: Serializer<P>) {
    forall p :: s.marshal(p).Some? ==> s.unmarshal(s.marshal(p).value) == Some(p)
  }

  /** A replayed record as Start pushes it: normal priority, not persisted again. */
  function Replayed<P>(p: P): Envelope<P> {
    Envelope(0, p, false)
  }

  /** The records that decode, in log order. */
  function DecodeAll<P>(s: Serializer<P>, recs: seq<Record>): seq<Envelope<P>> {
    if recs == [] then []
    else
      var last := |recs| - 1;
      DecodeAll(s, recs[..last]) + match s.unmarshal(recs[last]) case Some(p) => [Replayed(p)] case None => []
  }

  function ReplayedAll<P>(ps: seq<P>): seq<Envelope<P>> {
    if ps == [] then [] else ReplayedAll(ps[..|ps| - 1]) + [Replayed(ps[|ps| - 1])]
  }

  function EncodeAll<P>(s: Serializer<P>, ps: seq<P>): (recs: seq<Record>)
    requires forall i :: 0 <= i < |ps| ==> s.marshal(ps[i]).Some?
    ensures |recs| == |ps|
    ensures forall i :: 0 <= i < |ps| ==> recs[i] == s.marshal(ps[i]).value
  {
    if ps == [] then [] else EncodeAll(s, ps[..|ps| - 1]) + [s.marshal(ps[|ps| - 1]).value]
  }

  lemma {:induction false} DecodeInvertsEncode<P(!new)>(s: Serializer<P>, ps: seq<P>)
    requires RoundTrips(s)
    requires forall i :: 0 <= i < |ps| ==> s.marshal(ps[i]).Some?
    ensures DecodeAll(s, EncodeAll(s, ps)) == ReplayedAll(ps)
    decreases |ps|
  {
    if ps != [] {
      var last := |ps| - 1;
      DecodeInvertsEncode(s, ps[..last]);
      assert EncodeAll(s, ps)[..last] == EncodeAll(s, ps[..last]);
    }
  }

  lemma {:induction false} DecodeAdds<P>(s: Serializer<P>, a: seq<Record>, b: seq<Record>)
    ensures DecodeAll(s, a + b) == DecodeAll(s, a) + DecodeAll(s, b)
    decreases |b|
  {
    if b == [] {
      assert a + b == a;
    } else {
      DecodeAdds(s, a, b[..|b| - 1]);
      assert (a + b)[..|a + b| - 1] == a + b[..|b| - 1];
    }
  }

  /** A record that does not decode is passed over: it costs no message before or after it. */
  lemma BadRecordsAreSkipped<P>(s: Serializer<P>, a: seq<Record>, bad: Record, b: seq<Record>)
    requires s.unmarshal(bad) == None
    ensures DecodeAll(s, a + [bad] + b) == DecodeAll(s, a + b)
  {
    DecodeAdds(s, a + [bad], b);
    DecodeAdds(s, a, [bad]);
    DecodeAdds(s, a, b);
    assert [bad][..0] == [];
    assert DecodeAll(s, a) + [] == DecodeAll(s, a);
  }

  /** A log written by persisted pushes and cut at any byte still holds the messages before the cut, or is refused. */
  lemma CutLogRestores<P(!new)>(s: Serializer<P>, ps: seq<P>, k: nat)
    requires RoundTrips(s)
    requires forall i :: 0 <= i < |ps| ==> s.marshal(ps[i]).Some? && Loggable(s.marshal(ps[i]).value)
    requires k <= |Log(EncodeAll(s, ps))|
    ensures var recs := EncodeAll(s, ps); var kept := Parse(Log(recs)[..k]);
      if Torn(recs, k) < 4
      then kept.Some? && DecodeAll(s, kept.value) == ReplayedAll(ps[..Whole(recs, k)])
      else kept == None
  {
    var recs := EncodeAll(s, ps);
    var m := Whole(recs, k);
    ReplayAfterCrash(recs, k);
    assert recs[..m] == EncodeAll(s, ps[..m]);
    DecodeInvertsEncode(s, ps[..m]);
  }

  /** A log that survives whole replays to exactly its messages, in order. */
  lemma LogRestoresMessages<P(!new)>(s: Serializer<P>, ps: seq<P>)
    requires RoundTrips(s)
    requires forall i :: 0 <= i < |ps| ==> s.marshal(ps[i]).Some? && Loggable(s.marshal(ps[i]).value)
    ensures var recs := Parse(Log(EncodeAll(s, ps)));
      recs.Some? && DecodeAll(s, recs.value) == ReplayedAll(ps)
  {
    ReplayInvertsAppend(EncodeAll(s, ps));
    DecodeInvertsEncode(s, ps);
  }

  lemma EmptyChain<T>(ch: Chain<T>, cap: nat, maxSeg: nat)
    requires ChainOk(ch, cap, maxSeg) && Flatten(ch) == []
    ensures ch == [[]]
  {
    HeldBetween(ch, cap, maxSeg);
    if |ch| > 1 { assert ch[1] != []; FlattenHas(ch); }
  }

  lemma FlattenHas<T>(ch: Chain<T>)
    requires |ch| > 1 && ch[1] != []
    ensures Flatten(ch) != []
  {
    assert Flatten(ch) == ch[0] + (ch[1] + Flatten(ch[1..][1..]));
  }

  /** What pushing `all` one by one leaves in an open lane that takes anything. */
  function Fed<T>(ch: Chain<T>, cap: nat, maxSeg: nat, takes: bool, all: seq<T>): (r: Chain<T>)
    ensures ch != [] ==> r != []
  {
    if takes && ch != [] then PutAll(ch, cap, maxSeg, all).0 else ch
  }

  /** How many of them were accepted. */
  function Fits<T>(ch: Chain<T>, cap: nat, maxSeg: nat, takes: bool, all: seq<T>): nat {
    if takes && ch != [] then PutAll(ch, cap, maxSeg, all).1 else 0
  }

  lemma DecodeStart<P>(s: Serializer<P>, recs: seq<Record>)
    ensures DecodeAll(s, recs[..0]) == []
  {
  }

  lemma DecodeNext<P>(s: Serializer<P>, recs: seq<Record>, i: nat)
    requires i < |recs|
    ensures DecodeAll(s, recs[..i + 1]) == DecodeAll(s, recs[..i]) + match s.unmarshal(recs[i]) case Some(p) => [Replayed(p)] case None => []
  {
    assert recs[..i + 1][..i] == recs[..i];
  }

  lemma FedMeans<T>(before: Chain<T>, cap: nat, maxSeg: nat, takes: bool, all: seq<T>)
    requires ChainOk(before, cap, maxSeg)
    ensures var n := Fits(before, cap, maxSeg, takes, all);
      && n <= |all|
      && Flatten(Fed(before, cap, maxSeg, takes, all)) == Flatten(before) + all[..n]
    ensures takes && Flatten(before) == [] ==> Flatten(Fed(before, cap, maxSeg, takes, all)) == FirstN(all, maxSeg * cap)
  {
    PutAllTakesAPrefix(before, cap, maxSeg, all);
    if Flatten(before) == [] {
      EmptyChain(before, cap, maxSeg);
      FreshQueueFills(cap, maxSeg, all);
    }
    MulNonNeg(maxSeg, cap);
    assert all[..0] == [] && Flatten(before) + [] == Flatten(before);
  }

  lemma FedStops<T>(before: Chain<T>, cap: nat, maxSeg: nat, done: seq<T>, more: seq<T>)
    requires before != [] && Full(Fed(before, cap, maxSeg, true, done), cap, maxSeg)
    ensures Fed(before, cap, maxSeg, true, done + more) == Fed(before, cap, maxSeg, true, done)
    ensures Fits(before, cap, maxSeg, true, done + more) == Fits(before, cap, maxSeg, true, done)
  {
    PutAllStops(before, cap, maxSeg, done, more);
  }

  class Actor<P> {
    const wal: Wal?
    const mb: Mailbox<P>
    const serializer: Serializer<P>
    var running: bool

    constructor (wal: Wal?, mb: Mailbox<P>, serializer: Serializer<P>)
      ensures this.wal == wal && this.mb == mb && this.serializer == serializer && !running
    {
      this.wal, this.mb, this.serializer, running := wal, mb, serializer, false;
    }

    ghost predicate Valid()
      reads mb, mb.Repr, mb.urgent, mb.normal, mb.urgent.Repr, mb.normal.Repr
    {
      mb.Valid() && wal == mb.hook && this !in mb.Repr
    }

    /** Whether a Push can reach a lane at all: open, and a policy that Push knows. */
    ghost predicate Takes()
      reads mb
    {
      !mb.closed && mb.policy in {EXPAND, BLOCK, DROP_NEWEST}
    }

    /** The normal lane is `before` fed with `all`. */
    ghost predicate Holds(before: Chain<Envelope<P>>, takes: bool, all: seq<Envelope<P>>)
      reads mb, mb.normal
    {
      && before != [] && takes == Takes()
      && mb.normal.chain == Fed(before, mb.normal.cap, mb.normal.maxSeg, takes, all)
    }

    /** How many of `all` the lane accepted. */
    ghost function Accepted(before: Chain<Envelope<P>>, takes: bool, all: seq<Envelope<P>>): nat {
      Fits(before, mb.normal.cap, mb.normal.maxSeg, takes, all)
    }

    ghost predicate LaneFull()
      reads mb.normal
    {
      mb.normal.chain != [] && Full(mb.normal.chain, mb.normal.cap, mb.normal.maxSeg)
    }

    /** Replay touches neither the urgent lane nor the log nor the closed flag. */
    twostate predicate RestUnchanged()
      reads mb, mb.urgent, wal
    {
      && mb.urgent.chain == old(mb.urgent.chain) && mb.closed == old(mb.closed)
      && (wal != null ==> wal.file == old(wal.file) && wal.open == old(wal.open))
    }

    /** One replayed message: appended if it still fits, refused if not. */
    method PushReplayed(p: P, ghost before: Chain<Envelope<P>>, ghost takes: bool, ghost all: seq<Envelope<P>>) returns (blocked: bool)
      requires Valid() && Holds(before, takes, all)
      modifies mb.Repr
      ensures Valid() && fresh(mb.Repr - old(mb.Repr)) && RestUnchanged()
      ensures Holds(before, takes, all + [Replayed(p)])
      ensures takes ==> Accepted(before, takes, all + [Replayed(p)]) == Accepted(before, takes, all) + if old(LaneFull()) then 0 else 1
      ensures old(LaneFull()) ==> LaneFull()
      ensures blocked <==> mb.policy == BLOCK && takes && old(LaneFull())
    {
      ghost var more := all + [Replayed(p)];
      assert more[..|more| - 1] == all;
      assert mb.normal.chain != [];
      hide SegmentedQueue.Valid, Mailbox.Owns, Flatten, ToInt64;
      ghost var accepted;
      var err;
      err, accepted := mb.Push(Replayed(p), 0, 0);
      return err == Blocked;
    }

    /** The replay loop of Start; a send that blocks never returns to it. */
    method Refill(recs: seq<Record>) returns (stuck: bool)
      requires Valid()
      modifies mb.Repr
      ensures Valid() && fresh(mb.Repr - old(mb.Repr)) && RestUnchanged()
      ensures Holds(old(mb.normal.chain), old(Takes()), DecodeAll(serializer, recs))
      ensures stuck <==> mb.policy == BLOCK && old(Takes()) && Accepted(old(mb.normal.chain), old(Takes()), DecodeAll(serializer, recs)) < |DecodeAll(serializer, recs)|
    {
      hide Valid, Holds, Accepted, Takes, LaneFull, SegmentedQueue.Valid, DecodeAll;
      ghost var before, takes := mb.normal.chain, Takes();
      ghost var done: seq<Envelope<P>> := [];
      LaneIsThere();
      DecodeStart(serializer, recs);
      var i := 0;
      stuck := false;
      while i < |recs| && !stuck
        invariant 0 <= i <= |recs|
        invariant Valid() && fresh(mb.Repr - old(mb.Repr)) && RestUnchanged()
        invariant done == DecodeAll(serializer, recs[..i]) && Holds(before, takes, done)
        invariant !stuck && mb.policy == BLOCK && takes ==> Accepted(before, takes, done) == |done|
        invariant stuck ==> mb.policy == BLOCK && takes && Accepted(before, takes, done) < |done| && LaneFull()
      {
        DecodeNext(serializer, recs, i);
        var v := serializer.unmarshal(recs[i]);
        if v.Some? {
          stuck := PushReplayed(v.value, before, takes, done);
          done := done + [Replayed(v.value)];
        }
        i := i + 1;
      }
      HeldBeyond(before, takes, recs, i);
    }

    lemma LaneIsThere()
      requires Valid()
      ensures mb.normal.chain != [] && Holds(mb.normal.chain, Takes(), []) && Accepted(mb.normal.chain, Takes(), []) == 0
      ensures ChainOk(mb.normal.chain, mb.normal.cap, mb.normal.maxSeg)
      ensures this !in mb.Repr && (wal != null ==> wal in mb.Repr)
    {
    }

    /** Once a lane has refused, records further on change nothing. */
    lemma HeldBeyond(before: Chain<Envelope<P>>, takes: bool, recs: seq<Record>, i: nat)
      requires i <= |recs| && Holds(before, takes, DecodeAll(serializer, recs[..i]))
      requires i == |recs| || (takes && LaneFull())
      ensures Holds(before, takes, DecodeAll(serializer, recs))
      ensures Accepted(before, takes, DecodeAll(serializer, recs)) == Accepted(before, takes, DecodeAll(serializer, recs[..i]))
      ensures |DecodeAll(serializer, recs)| >= |DecodeAll(serializer, recs[..i])|
      ensures i == |recs| ==> recs[..i] == recs
    {
      hide DecodeAll, Full, Fed, Fits;
      DecodePrefix(serializer, recs, i);
      var done, all := DecodeAll(serializer, recs[..i]), DecodeAll(serializer, recs);
      if i == |recs| {
        assert recs[..i] == recs;
      } else {
        assert all == done + all[|done|..];
        FedStops(before, mb.normal.cap, mb.normal.maxSeg, done, all[|done|..]);
      }
    }

    /** The envelopes Start will try to push. */
    ghost function Pending(): seq<Envelope<P>>
      reads wal
    {
      if wal == null || !wal.open || Parse(wal.file) == None then []
      else DecodeAll(serializer, Parse(wal.file).value)
    }

    /** Reading the log moves only its file offset. */
    method ReadLog(w: Wal) returns (recs: Option<seq<Record>>)
      requires Valid() && w == wal
      modifies w`offset
      ensures Valid() && RestUnchanged() && mb.normal.chain == old(mb.normal.chain) && mb.Repr == old(mb.Repr)
      ensures recs == if w.open then Parse(w.file) else None
    {
      hide SegmentedQueue.Valid, Parse;
      recs := w.Replay();
    }

    /** What feeding a lane means: the accepted are the first so many, and stand behind what was there. */
    lemma HoldsMeans(before: Chain<Envelope<P>>, takes: bool, all: seq<Envelope<P>>)
      requires Holds(before, takes, all) && ChainOk(before, mb.normal.cap, mb.normal.maxSeg)
      ensures Accepted(before, takes, all) <= |all|
      ensures mb.Normal() == Flatten(before) + all[..Accepted(before, takes, all)]
      ensures takes && Flatten(before) == [] ==> mb.Normal() == FirstN(all, mb.normal.maxSeg as int * mb.normal.cap)
    {
      FedMeans(before, mb.normal.cap, mb.normal.maxSeg, takes, all);
    }

    lemma NothingTaken(before: Chain<Envelope<P>>, takes: bool, all: seq<Envelope<P>>)
      requires Holds(before, takes, all)
      ensures !takes ==> mb.Normal() == Flatten(before)
    {
    }

    /** How many of the pending envelopes the normal lane has room for: none if it takes nothing. */
    ghost function RoomFor(): nat
      reads this, wal, mb, mb.normal
    {
      Accepted(mb.normal.chain, Takes(), Pending())
    }

    /** ReadLog and Refill: what is pending enters the normal lane. */
    method Recover() returns (stuck: bool)
      requires Valid()
      modifies mb.Repr
      ensures Valid() && RestUnchanged() && fresh(mb.Repr - old(mb.Repr))
      ensures Holds(old(mb.normal.chain), old(Takes()), old(Pending()))
      ensures stuck <==> mb.policy == BLOCK && old(Takes()) && old(RoomFor()) < |old(Pending())|
    {
      hide Valid, Parse, Holds, Accepted, Takes, DecodeAll, SegmentedQueue.Valid;
      LaneIsThere();
      stuck := false;
      if wal != null {
        var recs := ReadLog(wal);
        if recs.Some? {
          stuck := Refill(recs.value);
        }
      }
    }

    /**
      Replay, refill, run. `stuck`: under the Block policy a full lane is never drained,
      because the loop that would drain it has not been started.
     */
    method Start() returns (stuck: bool)
      requires Valid()
      modifies this, mb.Repr
      ensures Valid() && RestUnchanged() && fresh(mb.Repr - old(mb.Repr))
      ensures old(RoomFor()) <= |old(Pending())|
      ensures mb.Normal() == old(mb.Normal()) + old(Pending())[..old(RoomFor())]
      ensures Takes() && old(mb.Normal()) == [] ==> mb.Normal() == FirstN(old(Pending()), mb.normal.maxSeg as int * mb.normal.cap)
      ensures !Takes() ==> mb.Normal() == old(mb.Normal())
      ensures stuck <==> mb.policy == BLOCK && Takes() && old(RoomFor()) < |old(Pending())|
      ensures running == (old(running) || !stuck)
    {
      hide Valid, Pending, Holds, Accepted, Flatten, ChainOk, SegmentedQueue.Valid;
      ghost var before, takes, pending := mb.normal.chain, Takes(), Pending();
      LaneIsThere();
      stuck := Recover();
      HoldsMeans(before, takes, pending);
      NothingTaken(before, takes, pending);
      if !stuck {
        SetRunning();
      }
    }

    /** The state store that follows the replay. */
    method SetRunning()
      requires Valid()
      modifies this`running
      ensures Valid() && running
    {
      hide SegmentedQueue.Valid;
      running := true;
    }
  }

  lemma {:induction false} DecodePrefix<P>(s: Serializer<P>, recs: seq<Record>, i: nat)
    requires i <= |recs|
    ensures DecodeAll(s, recs[..i]) <= DecodeAll(s, recs)
    decreases |recs|
  {
    if i == |recs| {
      assert recs[..i] == recs;
    } else {
      DecodePrefix(s, recs[..|recs| - 1], i);
      assert recs[..|recs| - 1][..i] == recs[..i];
    }
  }

  function FirstN<T>(s: seq<T>, n: int): seq<T> {
    if n >= |s| then s else if n <= 0 then [] else s[..n]
  }

  // ---------------------------------------------------------------- crash and restart

  /** Persisted pushes add their framed encodings, in order, whatever the mailbox does with them. */
  method PushPersisted<P>(mb: Mailbox<P>, w: Wal, s: Serializer<P>, ps: seq<P>, priorities: seq<Byte>)
    requires |priorities| == |ps|
    requires mb.Valid() && !mb.closed && mb.hook == w && w.open && mb.encode == Some(s.marshal)
    requires forall i :: 0 <= i < |ps| ==> s.marshal(ps[i]).Some?
    modifies mb.Repr
    ensures w.file == old(w.file) + Log(EncodeAll(s, ps))
  {
    hide Mailbox.Valid, Mailbox.HasRoom, Mailbox.Appended, Mailbox.LanesUnchanged, Frame, Log, EncodeAll;
    assert w.file + Log(EncodeAll(s, ps[..0])) == w.file by { EmptyLog(s, ps); }
    for i := 0 to |ps|
      invariant mb.Valid() && !mb.closed && fresh(mb.Repr - old(mb.Repr)) && w.open
      invariant w.file == old(w.file) + Log(EncodeAll(s, ps[..i]))
    {
      ghost var before, was := w.file, old(w.file);
      ghost var frame := Frame(s.marshal(ps[i]).value);
      ghost var accepted;
      var err;
      err, accepted := mb.Push(Envelope(priorities[i], ps[i], true), 0, |Frame(s.marshal(ps[i]).value)|);
      assert w.file == before + frame;
      LogGrows(s, ps, i);
      Reassociate(was, Log(EncodeAll(s, ps[..i])), frame);
    }
    assert ps[..|ps|] == ps;
  }

  lemma EmptyLog<P>(s: Serializer<P>, ps: seq<P>)
    ensures Log(EncodeAll(s, ps[..0])) == []
  {
  }

  lemma LogGrows<P>(s: Serializer<P>, ps: seq<P>, i: nat)
    requires i < |ps| && forall j :: 0 <= j < |ps| ==> s.marshal(ps[j]).Some?
    ensures Log(EncodeAll(s, ps[..i + 1])) == Log(EncodeAll(s, ps[..i])) + Frame(s.marshal(ps[i]).value)
  {
    var last := s.marshal(ps[i]).value;
    assert ps[..i + 1][..i] == ps[..i];
    LogAppends(EncodeAll(s, ps[..i]), [last]);
    assert Log([last]) == Frame(last) + Log([]) == Frame(last);
  }

  lemma LogOfBoth<P>(s: Serializer<P>, older: seq<P>, ps: seq<P>)
    requires forall i :: 0 <= i < |older| ==> s.marshal(older[i]).Some?
    requires forall i :: 0 <= i < |ps| ==> s.marshal(ps[i]).Some?
    ensures Log(EncodeAll(s, older + ps)) == Log(EncodeAll(s, older)) + Log(EncodeAll(s, ps))
  {
    hide Log, EncodeAll;
    EncodeBoth(s, older, ps);
    LogAppends(EncodeAll(s, older), EncodeAll(s, ps));
  }

  lemma EncodeBoth<P>(s: Serializer<P>, older: seq<P>, ps: seq<P>)
    requires forall i :: 0 <= i < |older| ==> s.marshal(older[i]).Some?
    requires forall i :: 0 <= i < |ps| ==> s.marshal(ps[i]).Some?
    ensures EncodeAll(s, older + ps) == EncodeAll(s, older) + EncodeAll(s, ps)
  {
    hide EncodeAll;
    var all, both := EncodeAll(s, older + ps), EncodeAll(s, older) + EncodeAll(s, ps);
    forall i | 0 <= i < |all| ensures all[i] == both[i] {
      if i >= |older| { assert (older + ps)[i] == ps[i - |older|]; }
    }
  }

  /** What a replay of the log's bytes gives a mailbox of this policy: nothing for one that Push does not know. */
  function Replayable<P>(s: Serializer<P>, file: seq<Byte>, policy: Byte): seq<Envelope<P>> {
    if policy !in {EXPAND, BLOCK, DROP_NEWEST} then []
    else match Parse(file) case None => [] case Some(recs) => DecodeAll(s, recs)
  }

  /** An actor on an open, empty mailbox, started; `stuck` if that never returns. */
  method Restarted<P>(w: Wal, mb: Mailbox<P>, s: Serializer<P>) returns (a: Actor<P>, stuck: bool)
    requires mb.Valid() && mb.hook == w && !mb.closed && mb.Normal() == []
    requires w.open
    modifies mb.Repr
    ensures fresh(a) && a.Valid() && a.mb == mb && !mb.closed
    ensures w.file == old(w.file) && w.open && fresh(mb.Repr - old(mb.Repr))
    ensures mb.Normal() == FirstN(Replayable(s, w.file, mb.policy), mb.normal.maxSeg as int * mb.normal.cap)
    ensures stuck <==> mb.policy == BLOCK && |Replayable(s, w.file, mb.policy)| > |mb.Normal()|
    ensures a.running == !stuck
  {
    hide SegmentedQueue.Valid, Parse, Mailbox.Valid, Flatten;
    a := new Actor<P>(w, mb, s);
    ghost var pending := a.Pending();
    assert a.Takes() ==> pending == Replayable(s, w.file, mb.policy);
    stuck := a.Start();
  }

  /**
    One life after another of the same log: an actor starts on the messages `older`, more are
    pushed with Persist, the process dies leaving the log's first k bytes, and the log is
    opened again. The restarted actor's normal lane holds, in the order they were pushed and
    whatever their priorities were, the messages whose frames lie wholly before the cut, as
    far as the lane can hold them and including any the first mailbox refused; but nothing at
    all if the cut falls inside a payload, or Push does not know the policy. The actor runs,
    unless the policy is Block and the lane cannot hold them all.
   */
  method PersistCrashRestart<P(!new)>(
      s: Serializer<P>, older: seq<P>, ps: seq<P>, priorities: seq<Byte>, k: nat, capacity: Word, maxSegments: Word, policy: Byte)
    returns (a: Actor<P>, stuck: bool)
    requires |priorities| == |ps| && RoundTrips(s) && capacity <= HALF
    requires forall i :: 0 <= i < |older + ps| ==> s.marshal((older + ps)[i]).Some? && Loggable(s.marshal((older + ps)[i]).value)
    requires k <= |Log(EncodeAll(s, older + ps))|
    ensures a.Valid() && a.running == !stuck
    ensures var recs, room := EncodeAll(s, older + ps), a.mb.normal.maxSeg as int * a.mb.normal.cap;
      var kept := if Torn(recs, k) < 4 && policy in {EXPAND, BLOCK, DROP_NEWEST} then ReplayedAll((older + ps)[..Whole(recs, k)]) else [];
      a.mb.Normal() == FirstN(kept, room) && (stuck <==> policy == BLOCK && |kept| > |FirstN(kept, room)|)
  {
    CutLogRestores(s, older + ps, k);
    ghost var recs := EncodeAll(s, older + ps);
    ghost var kept := if Torn(recs, k) < 4 && policy in {EXPAND, BLOCK, DROP_NEWEST} then ReplayedAll((older + ps)[..Whole(recs, k)]) else [];
    assert Replayable(s, Log(recs)[..k], policy) == kept;
    hide *;
    var file := FirstLife(s, older, ps, priorities, capacity, maxSegments, policy);
    a, stuck := SecondLife(s, file[..k], capacity, maxSegments, policy);
  }

  method FirstLife<P>(
      s: Serializer<P>, older: seq<P>, ps: seq<P>, priorities: seq<Byte>, capacity: Word, maxSegments: Word, policy: Byte)
    returns (file: seq<Byte>)
    requires |priorities| == |ps| && capacity <= HALF
    requires forall i :: 0 <= i < |older + ps| ==> s.marshal((older + ps)[i]).Some?
    ensures file == Log(EncodeAll(s, older + ps))
  {
    hide Mailbox.Valid, Parse, Actor.Pending, Flatten, Replayable;
    assert forall i :: 0 <= i < |older| ==> (older + ps)[i] == older[i];
    assert forall i :: 0 <= i < |ps| ==> (older + ps)[|older| + i] == ps[i];
    var w := new Wal(Log(EncodeAll(s, older)));
    var mb := new Mailbox<P>(capacity, 0, maxSegments, policy, w, Some(s.marshal));
    var a, stuck := Restarted(w, mb, s);
    LiveMailbox(a);
    PushPersisted(mb, w, s, ps, priorities);
    LogOfBoth(s, older, ps);
    return w.file;
  }

  lemma LiveMailbox<P>(a: Actor<P>)
    requires a.Valid()
    ensures a.mb.Valid()
  {
  }

  method SecondLife<P>(s: Serializer<P>, file: seq<Byte>, capacity: Word, maxSegments: Word, policy: Byte)
    returns (a: Actor<P>, stuck: bool)
    requires capacity <= HALF
    ensures a.Valid() && a.running == !stuck
    ensures a.mb.Normal() == FirstN(Replayable(s, file, policy), a.mb.normal.maxSeg as int * a.mb.normal.cap)
    ensures stuck <==> policy == BLOCK && |Replayable(s, file, policy)| > |a.mb.Normal()|
  {
    hide Mailbox.Valid, Actor.Valid, Parse, Flatten, Replayable;
    var w := new Wal(file);
    var mb := new Mailbox<P>(capacity, 0, maxSegments, policy, w, Some(s.marshal));
    a, stuck := Restarted(w, mb, s);
  }
}
