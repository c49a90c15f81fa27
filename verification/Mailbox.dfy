/**
  The mailbox called by one caller at a time: two segmented queues, an element counter, a
  one-slot notify channel and an optional write-ahead hook. It behaves as two FIFO lanes.
 */
module Mailboxes {
  import opened Options
  import opened Words
  import opened SegmentChain
  import opened Segmented
  import opened Wals

  /** Priority 0 is normal, anything else urgent. */
  datatype Envelope<+P> = Envelope(priority: Byte, payload: P, persist: bool)

  const EXPAND: Byte := 0
  const BLOCK: Byte := 1
  const DROP_NEWEST: Byte := 2

  /** Blocked: under the Block policy the caller is still waiting for room. */
  datatype PushError = Nil | MailboxClosed | MailboxFull | UnknownPolicy | Blocked

  /** The sleep after k failed attempts under Block, in microseconds. */
  function Backoff(k: nat): nat {
    if k == 0 then 1 else if Backoff(k - 1) < 2000 then 2 * Backoff(k - 1) else Backoff(k - 1)
  }

  lemma {:induction false} BackoffIsCapped(k: nat)
    ensures Backoff(k) == if k < 11 then Pow2(k) else 2048
  {
    if k > 0 {
      BackoffIsCapped(k - 1);
      if k <= 11 { BackoffPow(k - 1); }
    }
  }

  lemma BackoffPow(k: nat)
    requires k <= 10
    ensures Pow2(k) < 2000 && (k == 10 ==> Pow2(k) == 1024)
  {
    assert Pow2(10) == 1024 by { assert Pow2(5) == 32; Pow2Adds(5, 5); }
    if k < 10 { Pow2Grows(k, 10); }
  }

  /** The segment budget New gives both lanes for Options.MaxSegments. */
  function Budget(maxSegments: Word): (ms: Word)
    ensures ms >= 1
  {
    if maxSegments == 0 then 8 else maxSegments
  }

  class Mailbox<P> {
    const urgent: SegmentedQueue<Envelope<P>>
    const normal: SegmentedQueue<Envelope<P>>
    const policy: Byte
    var closed: bool
    var notify: bool
    var size: Int64
    const hook: Wal?
    const encode: Option<P -> Option<Record>>

    ghost var Repr: set<object>
    /** Everything each lane has ever accepted, and everything Pop has taken from it. */
    ghost var urgentIn: seq<Envelope<P>>
    ghost var urgentOut: seq<Envelope<P>>
    ghost var normalIn: seq<Envelope<P>>
    ghost var normalOut: seq<Envelope<P>>

    ghost function Urgent(): seq<Envelope<P>>
      reads urgent
    {
      urgent.Contents()
    }

    ghost function Normal(): seq<Envelope<P>>
      reads normal
    {
      normal.Contents()
    }

    ghost predicate Owns()
      reads this, urgent, normal
    {
      && this in Repr && urgent in Repr && normal in Repr
      && urgent.Repr <= Repr && normal.Repr <= Repr
      && urgent.Repr !! normal.Repr
      && this !in urgent.Repr && this !in normal.Repr
      && (hook != null ==> hook in Repr && hook !in urgent.Repr && hook !in normal.Repr)
    }

    ghost predicate Valid()
      reads this, Repr, urgent, normal, urgent.Repr, normal.Repr
    {
      && Owns()
      && urgent.Valid() && normal.Valid()
      && urgentIn == urgentOut + Urgent()
      && normalIn == normalOut + Normal()
      && size == ToInt64(|Urgent()| + |Normal()|)
    }

    /** Zero capacities and budgets take the defaults. */
    constructor (capacity: Word, urgentCapacity: Word, maxSegments: Word, policy: Byte, hook: Wal?, encode: Option<P -> Option<Record>>)
      requires capacity <= HALF && urgentCapacity <= HALF
      ensures Valid() && fresh(Repr - if hook == null then {} else {hook})
      ensures this.policy == policy && this.hook == hook && this.encode == encode
      ensures Urgent() == [] && Normal() == [] && urgentIn == [] && normalIn == []
      ensures !closed && !notify
      ensures normal.segCap == (if capacity == 0 then 65536 else capacity) && normal.chain == [[]]
      ensures urgent.segCap == (if urgentCapacity == 0 then 1024 else urgentCapacity) && urgent.chain == [[]]
      ensures urgent.maxSeg == normal.maxSeg == Budget(maxSegments)
    {
      hide SegmentedQueue.Valid;
      var c := if capacity == 0 then 65536 else capacity;
      var uc := if urgentCapacity == 0 then 1024 else urgentCapacity;
      var ms := Budget(maxSegments);
      var u := new SegmentedQueue<Envelope<P>>(uc, ms);
      var n := new SegmentedQueue<Envelope<P>>(c, ms);
      urgent, normal := u, n;
      this.policy, this.hook, this.encode := policy, hook, encode;
      closed, notify, size := false, false, 0;
      urgentIn, urgentOut, normalIn, normalOut := [], [], [], [];
      Repr := {this} + u.Repr + n.Repr;
      if hook != null {
        var w: Wal := hook;
        Repr := Repr + {w};
      }
      new;
      assert Flatten<Envelope<P>>([[]]) == [];
    }

    method Close()
      requires Valid()
      modifies this`closed
      ensures Valid() && closed
    {
      hide SegmentedQueue.Valid;
      closed := true;
    }

    /** What the write-ahead hook adds to the log for this envelope, when the disk takes `disk` more bytes. */
    function Logged(env: Envelope<P>, disk: nat): seq<Byte>
      reads hook
    {
      if env.persist && hook != null && hook.open && encode.Some? && encode.value(env.payload).Some?
      then Written(Frame(encode.value(env.payload).value), disk)
      else []
    }

    /** Before the envelope goes anywhere near a lane. The hook's error is ignored. */
    method WriteAhead(env: Envelope<P>, disk: nat)
      requires Valid()
      modifies if hook == null then {} else {hook}
      ensures Valid()
      ensures hook != null ==> hook.file == old(hook.file) + old(Logged(env, disk)) && hook.open == old(hook.open)
    {
      hide SegmentedQueue.Valid;
      if env.persist && hook != null && encode.Some? {
        var b := encode.value(env.payload);
        if b.Some? {
          var _ := hook.Append(b.value, disk);
        }
      }
    }

    /** One attempt on the urgent lane; on success the counter and the notify slot follow. */
    method PutUrgent(env: Envelope<P>) returns (ok: bool)
      requires Valid()
      modifies Repr
      ensures Valid() && fresh(Repr - old(Repr)) && closed == old(closed)
      ensures hook != null ==> hook.file == old(hook.file) && hook.open == old(hook.open)
      ensures (urgent.chain, ok) == Put(old(urgent.chain), urgent.cap, urgent.maxSeg, env) && normal.chain == old(normal.chain)
      ensures notify == (ok || old(notify))
      ensures urgentIn == old(urgentIn) + if ok then [env] else []
      ensures Urgent() == old(Urgent()) + if ok then [env] else []
      ensures !ok ==> urgent.chain == old(urgent.chain)
      ensures normalIn == old(normalIn) && urgentOut == old(urgentOut) && normalOut == old(normalOut)
    {
      hide SegmentedQueue.Valid, Put, Flatten, ToInt64;
      ToInt64Adds(|Urgent()| + |Normal()|, 1);
      ok := urgent.Enqueue(env);
      Repr := Repr + urgent.Repr;
      if ok {
        urgentIn := urgentIn + [env];
        size := ToInt64(size + 1);
        notify := true;
      }
    }

    /** One attempt on the normal lane; on success the counter and the notify slot follow. */
    method PutNormal(env: Envelope<P>) returns (ok: bool)
      requires Valid()
      modifies Repr
      ensures Valid() && fresh(Repr - old(Repr)) && closed == old(closed)
      ensures hook != null ==> hook.file == old(hook.file) && hook.open == old(hook.open)
      ensures (normal.chain, ok) == Put(old(normal.chain), normal.cap, normal.maxSeg, env) && urgent.chain == old(urgent.chain)
      ensures notify == (ok || old(notify))
      ensures normalIn == old(normalIn) + if ok then [env] else []
      ensures Normal() == old(Normal()) + if ok then [env] else []
      ensures !ok ==> normal.chain == old(normal.chain)
      ensures urgentIn == old(urgentIn) && urgentOut == old(urgentOut) && normalOut == old(normalOut)
    {
      hide SegmentedQueue.Valid, Put, Flatten, ToInt64;
      ToInt64Adds(|Urgent()| + |Normal()|, 1);
      ok := normal.Enqueue(env);
      Repr := Repr + normal.Repr;
      if ok {
        normalIn := normalIn + [env];
        size := ToInt64(size + 1);
        notify := true;
      }
    }

    /** One attempt to take from the urgent lane. */
    method TakeUrgent() returns (r: Option<Envelope<P>>)
      requires Valid()
      modifies Repr
      ensures Valid() && Repr == old(Repr) && closed == old(closed) && notify == old(notify)
      ensures hook != null ==> hook.file == old(hook.file) && hook.open == old(hook.open)
      ensures r == if old(Urgent()) == [] then None else Some(old(Urgent())[0])
      ensures Urgent() == (if r == None then old(Urgent()) else old(Urgent())[1..]) && normal.chain == old(normal.chain)
      ensures urgentOut == old(urgentOut) + if r == None then [] else [r.value]
      ensures normalOut == old(normalOut) && urgentIn == old(urgentIn) && normalIn == old(normalIn)
    {
      hide SegmentedQueue.Valid, Take, Flatten, ToInt64;
      ToInt64Adds(|Urgent()| + |Normal()|, -1);
      ghost var dropped: nat;
      r, dropped := urgent.Dequeue();
      if r.Some? {
        urgentOut := urgentOut + [r.value];
        size := ToInt64(size - 1);
      }
    }

    /** One attempt to take from the normal lane. */
    method TakeNormal() returns (r: Option<Envelope<P>>)
      requires Valid()
      modifies Repr
      ensures Valid() && Repr == old(Repr) && closed == old(closed) && notify == old(notify)
      ensures hook != null ==> hook.file == old(hook.file) && hook.open == old(hook.open)
      ensures r == if old(Normal()) == [] then None else Some(old(Normal())[0])
      ensures Normal() == (if r == None then old(Normal()) else old(Normal())[1..]) && urgent.chain == old(urgent.chain)
      ensures normalOut == old(normalOut) + if r == None then [] else [r.value]
      ensures urgentOut == old(urgentOut) && urgentIn == old(urgentIn) && normalIn == old(normalIn)
    {
      hide SegmentedQueue.Valid, Take, Flatten, ToInt64;
      ToInt64Adds(|Urgent()| + |Normal()|, -1);
      ghost var dropped: nat;
      r, dropped := normal.Dequeue();
      if r.Some? {
        normalOut := normalOut + [r.value];
        size := ToInt64(size - 1);
      }
    }

    /** Whether the envelope's lane would take it now. */
    ghost predicate HasRoom(env: Envelope<P>)
      reads urgent, normal
    {
      if env.priority != 0 then urgent.chain != [] && Put(urgent.chain, urgent.cap, urgent.maxSeg, env).1
      else normal.chain != [] && Put(normal.chain, normal.cap, normal.maxSeg, env).1
    }

    /** Room is certain short of the last segment, and gone once every segment is full. */
    lemma RoomByCount(env: Envelope<P>)
      requires Valid()
      ensures var q := if env.priority != 0 then urgent else normal;
        var sure := (if q.maxSeg == 1 then 1 else q.maxSeg - 1) * q.cap;
        && (|q.Contents()| < sure ==> HasRoom(env))
        && |q.Contents()| <= q.maxSeg * q.cap
        && (|q.Contents()| == q.maxSeg * q.cap ==> !HasRoom(env))
    {
      hide Flatten;
      var q := if env.priority != 0 then urgent else normal;
      CountBounds(q.chain, q.cap, q.maxSeg);
      if |q.Contents()| < (if q.maxSeg == 1 then 1 else q.maxSeg - 1) * q.cap {
        RoomMeansAccepted(q.chain, q.cap, q.maxSeg, env);
      }
      PutIsFifo(q.chain, q.cap, q.maxSeg, env);
      CountBounds(Put(q.chain, q.cap, q.maxSeg, env).0, q.cap, q.maxSeg);
    }

    /** Neither lane, nor the counter, nor what has come and gone, has changed. */
    twostate predicate LanesUnchanged()
      reads this, urgent, normal
    {
      && urgent.chain == old(urgent.chain) && normal.chain == old(normal.chain)
      && urgentIn == old(urgentIn) && urgentOut == old(urgentOut)
      && normalIn == old(normalIn) && normalOut == old(normalOut)
    }

    /** The envelope is the newest of its lane; the other lane is as it was. */
    twostate predicate Appended(env: Envelope<P>)
      reads this, urgent, normal
    {
      && Urgent() == old(Urgent()) + (if env.priority != 0 then [env] else [])
      && Normal() == old(Normal()) + (if env.priority != 0 then [] else [env])
      && urgentIn == old(urgentIn) + (if env.priority != 0 then [env] else [])
      && normalIn == old(normalIn) + (if env.priority != 0 then [] else [env])
      && urgentOut == old(urgentOut) && normalOut == old(normalOut)
      && old(urgent.chain) != [] && old(normal.chain) != []
      && urgent.chain == (if env.priority != 0 then Put(old(urgent.chain), urgent.cap, urgent.maxSeg, env).0 else old(urgent.chain))
      && normal.chain == (if env.priority != 0 then old(normal.chain) else Put(old(normal.chain), normal.cap, normal.maxSeg, env).0)
    }

    method DeliverUrgent(env: Envelope<P>) returns (ok: bool)
      requires Valid() && env.priority != 0
      modifies Repr
      ensures Valid() && fresh(Repr - old(Repr)) && closed == old(closed)
      ensures hook != null ==> hook.file == old(hook.file) && hook.open == old(hook.open)
      ensures ok == old(HasRoom(env))
      ensures if ok then Appended(env) else LanesUnchanged()
      ensures notify == (ok || old(notify))
    {
      assert urgent.chain != [] && normal.chain != [];
      hide SegmentedQueue.Valid, Flatten, Put, ToInt64;
      ok := PutUrgent(env);
    }

    method DeliverNormal(env: Envelope<P>) returns (ok: bool)
      requires Valid() && env.priority == 0
      modifies Repr
      ensures Valid() && fresh(Repr - old(Repr)) && closed == old(closed)
      ensures hook != null ==> hook.file == old(hook.file) && hook.open == old(hook.open)
      ensures ok == old(HasRoom(env))
      ensures if ok then Appended(env) else LanesUnchanged()
      ensures notify == (ok || old(notify))
    {
      assert urgent.chain != [] && normal.chain != [];
      hide SegmentedQueue.Valid, Flatten, Put, ToInt64;
      ok := PutNormal(env);
    }

    /** One attempt on the envelope's lane. */
    method Deliver(env: Envelope<P>) returns (ok: bool)
      requires Valid()
      modifies Repr
      ensures Valid() && fresh(Repr - old(Repr)) && closed == old(closed)
      ensures hook != null ==> hook.file == old(hook.file) && hook.open == old(hook.open)
      ensures ok == old(HasRoom(env))
      ensures if ok then Appended(env) else LanesUnchanged()
      ensures notify == (ok || old(notify))
    {
      hide Valid, HasRoom, Appended, LanesUnchanged;
      if env.priority != 0 {
        ok := DeliverUrgent(env);
      } else {
        ok := DeliverNormal(env);
      }
    }

    /**
      Closed, then logged, then delivered. `patience` bounds how many sleeps of the Block
      policy are watched: nobody else is running, so each further attempt fails like the first.
     */
    method Push(env: Envelope<P>, patience: nat, disk: nat) returns (err: PushError, ghost accepted: bool)
      requires Valid()
      modifies Repr
      ensures Valid() && fresh(Repr - old(Repr)) && closed == old(closed)
      ensures accepted <==> !old(closed) && policy in {EXPAND, BLOCK, DROP_NEWEST} && old(HasRoom(env))
      ensures if accepted then Appended(env) else LanesUnchanged()
      ensures notify == (accepted || old(notify))
      ensures err ==
        if old(closed) then MailboxClosed
        else if accepted then Nil
        else if policy == EXPAND then MailboxFull
        else if policy == DROP_NEWEST then Nil
        else if policy == BLOCK then Blocked
        else UnknownPolicy
      ensures hook != null ==> hook.file == old(hook.file) + (if old(closed) then [] else old(Logged(env, disk)))
      ensures hook != null ==> hook.open == old(hook.open)
    {
      hide SegmentedQueue.Valid, Flatten, Put, ToInt64, HasRoom;
      if closed {
        return MailboxClosed, false;
      }
      WriteAhead(env, disk);
      if policy == EXPAND {
        var ok := Deliver(env);
        return if ok then Nil else MailboxFull, ok;
      } else if policy == DROP_NEWEST {
        var ok := Deliver(env);
        return Nil, ok;
      } else if policy == BLOCK {
        var ok := PushBlocking(env, patience);
        return if ok then Nil else Blocked, ok;
      }
      return UnknownPolicy, false;
    }

    method PushBlocking(env: Envelope<P>, patience: nat) returns (ok: bool)
      requires Valid() && !closed
      modifies Repr
      ensures Valid() && fresh(Repr - old(Repr)) && closed == old(closed)
      ensures hook != null ==> hook.file == old(hook.file) && hook.open == old(hook.open)
      ensures ok == old(HasRoom(env))
      ensures if ok then Appended(env) else LanesUnchanged()
      ensures notify == (ok || old(notify))
    {
      hide SegmentedQueue.Valid, Flatten, Put, ToInt64;
      ok := Deliver(env);
      if !ok {
        SleepAndRetry(env, patience);
      }
    }

    /** The rounds of the Block loop after a first refusal. */
    method SleepAndRetry(env: Envelope<P>, patience: nat)
      requires Valid() && !closed && !HasRoom(env)
      modifies Repr
      ensures Valid() && fresh(Repr - old(Repr)) && closed == old(closed)
      ensures hook != null ==> hook.file == old(hook.file) && hook.open == old(hook.open)
      ensures LanesUnchanged() && notify == old(notify)
    {
      hide SegmentedQueue.Valid, Flatten, Put, ToInt64;
      var sleeps, backoff := 0, 1;
      while sleeps < patience
        invariant Valid() && fresh(Repr - old(Repr)) && closed == old(closed)
        invariant hook != null ==> hook.file == old(hook.file) && hook.open == old(hook.open)
        invariant LanesUnchanged() && notify == old(notify)
        invariant backoff == Backoff(sleeps)
      {
        if backoff < 2000 {
          backoff := 2 * backoff;
        }
        sleeps := sleeps + 1;
        var ok := Deliver(env);
        assert !ok;
      }
    }

    /** The urgent front if there is one, else the normal front, else nothing. */
    method Pop() returns (r: Option<Envelope<P>>)
      requires Valid()
      modifies Repr
      ensures Valid() && Repr == old(Repr) && closed == old(closed) && notify == old(notify)
      ensures urgentIn == old(urgentIn) && normalIn == old(normalIn)
      ensures if old(Urgent()) != [] then
          r == Some(old(Urgent())[0]) && Urgent() == old(Urgent())[1..] && Normal() == old(Normal())
        else if old(Normal()) != [] then
          r == Some(old(Normal())[0]) && Urgent() == [] && Normal() == old(Normal())[1..]
        else
          r == None && Urgent() == [] && Normal() == []
      ensures hook != null ==> hook.file == old(hook.file)
    {
      hide SegmentedQueue.Valid, Flatten, ToInt64;
      r := TakeUrgent();
      if r.Some? {
        return;
      }
      r := TakeNormal();
    }

    method Len() returns (n: Int64)
      requires Valid()
      ensures n == ToInt64(|Urgent()| + |Normal()|)
    {
      n := size;
    }

    /** Returns only when a token or the close signal is there; `pickClosed` is select's free choice. */
    method Wait(pickClosed: bool) returns (more: bool)
      requires Valid() && (notify || closed)
      modifies this`notify
      ensures Valid()
      ensures more <==> old(notify) && !(closed && pickClosed)
      ensures notify == (old(notify) && !more)
    {
      if closed && (pickClosed || !notify) {
        return false;
      }
      notify := false;
      return true;
    }

    /** What Pop has handed out of a lane is a prefix of what the lane accepted; the rest is still held. */
    lemma LanesAreFifo()
      requires Valid()
      ensures urgentOut <= urgentIn && Urgent() == urgentIn[|urgentOut|..]
      ensures normalOut <= normalIn && Normal() == normalIn[|normalOut|..]
    {
    }
  }
}
