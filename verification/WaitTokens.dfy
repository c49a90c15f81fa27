/**
  The pool of wait tokens: a channel of `capacity` slots that every blocking Ask fills before
  it waits and empties when it returns. Any number of callers, one step per channel operation.
 */
module WaitTokens {
  /** Choosing: past the breaker, no token yet. Waiting: between acquire and release. */
  datatype Caller = Outside | Choosing(allowDegrade: bool) | Waiting | Degraded

  /** `degraded` and `missed` are history: asks turned async, and releases that found the channel empty. */
  datatype State = State(capacity: nat, tokens: nat, callers: seq<Caller>, degraded: nat, missed: nat)

  /** `admitted` is the breaker's answer. */
  datatype Move = Ask(c: nat, admitted: bool, allowDegrade: bool) | Acquire(c: nat) | Return(c: nat)

  function Init(capacity: nat, n: nat): State {
    State(capacity, 0, seq(n, _ => Outside), 0, 0)
  }

  function Goto(s: State, c: nat, at: Caller): State
    requires c < |s.callers|
  {
    s.(callers := s.callers[c := at])
  }

  /** tryAcquireWaitToken or acquireWaitToken: on a full channel the one degrades, the other stays blocked. */
  function Acquired(s: State, c: nat): State
    requires c < |s.callers| && s.callers[c].Choosing?
  {
    if s.tokens < s.capacity then Goto(s, c, Waiting).(tokens := s.tokens + 1)
    else if s.callers[c].allowDegrade then Goto(s, c, Degraded).(degraded := s.degraded + 1)
    else s
  }

  /** The deferred releaseWaitToken, whose empty-channel branch does nothing. */
  function Released(s: State, c: nat): State
    requires c < |s.callers|
  {
    if s.tokens > 0 then Goto(s, c, Outside).(tokens := s.tokens - 1)
    else Goto(s, c, Outside).(missed := s.missed + 1)
  }

  function Step(s: State, m: Move): State {
    if m.c >= |s.callers| then s
    else
      match m
      case Ask(c, admitted, allowDegrade) =>
        if s.callers[c] == Outside && admitted then Goto(s, c, Choosing(allowDegrade)) else s
      case Acquire(c) => if s.callers[c].Choosing? then Acquired(s, c) else s
      case Return(c) =>
        if s.callers[c] == Waiting then Released(s, c)
        else if s.callers[c] == Degraded then Goto(s, c, Outside)      // returned before the defer
        else s
  }

  function Run(s: State, moves: seq<Move>): State
    decreases |moves|
  {
    if moves == [] then s else Run(Step(s, moves[0]), moves[1..])
  }

  /** How many Asks are between acquire and release. */
  function Holding(callers: seq<Caller>): nat {
    if callers == [] then 0 else (if callers[0] == Waiting then 1 else 0) + Holding(callers[1..])
  }

  lemma {:induction false} HoldingAfter(callers: seq<Caller>, c: nat, at: Caller)
    requires c < |callers|
    ensures Holding(callers[c := at]) ==
      Holding(callers) - (if callers[c] == Waiting then 1 else 0) + (if at == Waiting then 1 else 0)
  {
    if c > 0 {
      HoldingAfter(callers[1..], c - 1, at);
      assert callers[c := at][1..] == callers[1..][c - 1 := at];
    } else {
      assert callers[0 := at][1..] == callers[1..];
    }
  }

  lemma {:induction false} NobodyHolds(n: nat)
    ensures Holding(seq(n, _ => Outside)) == 0
  {
    if n > 0 {
      NobodyHolds(n - 1);
      assert seq(n, _ => Outside)[1..] == seq(n - 1, _ => Outside);
    }
  }

  lemma {:induction false} SomebodyHolds(callers: seq<Caller>, c: nat)
    requires c < |callers| && callers[c] == Waiting
    ensures Holding(callers) >= 1
  {
    if c > 0 { SomebodyHolds(callers[1..], c - 1); }
  }

  predicate Inv(s: State) {
    s.tokens == Holding(s.callers) && s.tokens <= s.capacity && s.missed == 0
  }

  /** An ask that may degrade asks for a token while all of them are held. */
  predicate Degrades(s: State, m: Move) {
    m.Acquire? && m.c < |s.callers| && s.callers[m.c] == Choosing(true) && Holding(s.callers) == s.capacity
  }

  /** How a call goes on: it gets a token exactly while one is left, else it degrades if it may and waits if not; and it always returns. */
  lemma CallsGoOn(s: State, m: Move)
    requires Inv(s) && m.c < |s.callers|
    ensures var pc, t := s.callers[m.c], Step(s, m);
      && m.c < |t.callers|
      && (m.Acquire? && pc.Choosing? ==>
           t.callers[m.c] == (if Holding(s.callers) < s.capacity then Waiting else if pc.allowDegrade then Degraded else pc))
      && (m.Return? && (pc == Waiting || pc == Degraded) ==> t.callers[m.c] == Outside)
      && (m.Ask? && pc == Outside ==> t.callers[m.c] == if m.admitted then Choosing(m.allowDegrade) else Outside)
  {
    if s.callers[m.c] == Waiting { SomebodyHolds(s.callers, m.c); }
  }

  lemma StepKeepsInv(s: State, m: Move)
    requires Inv(s)
    ensures Inv(Step(s, m)) && Step(s, m).capacity == s.capacity
    ensures Step(s, m).degraded == s.degraded + if Degrades(s, m) then 1 else 0
  {
    if m.c < |s.callers| {
      var t := Step(s, m);
      assert t.callers == s.callers[m.c := t.callers[m.c]];
      HoldingAfter(s.callers, m.c, t.callers[m.c]);
      if s.callers[m.c] == Waiting { SomebodyHolds(s.callers, m.c); }
    }
  }

  lemma {:induction false} RunKeepsInv(s: State, moves: seq<Move>)
    requires Inv(s)
    ensures Inv(Run(s, moves)) && Run(s, moves).capacity == s.capacity
    decreases |moves|
  {
    if moves != [] {
      StepKeepsInv(s, moves[0]);
      RunKeepsInv(Step(s, moves[0]), moves[1..]);
    }
  }

  /**
    In every interleaving the channel holds one token for each Ask between its acquire and its
    release, never more than its capacity; no release ever finds it empty; and an Ask degrades
    exactly if it may and asks at a moment when `capacity` others hold tokens.
   */
  lemma TokensAreConserved(capacity: nat, n: nat, moves: seq<Move>, next: Move)
    ensures var s := Run(Init(capacity, n), moves);
      && s.tokens == Holding(s.callers) <= capacity
      && s.missed == 0
      && (Step(s, next).degraded > s.degraded <==> Degrades(s, next))
  {
    NobodyHolds(n);
    RunKeepsInv(Init(capacity, n), moves);
    StepKeepsInv(Run(Init(capacity, n), moves), next);
  }
}
