/**
  That asks do get answered: what a delivered request or response leads to, and how the race
  between a response and the timer ends, from every state the system can be in.
 */
module AskAnswers {
  import opened AskSteps

  // ---------------------------------------------------------------- the mail

  /** The move delivers this very message. */
  predicate Posts<P(==), V(==)>(s: State<P, V>, m: Move<P, V>, x: Message<P, V>) {
    match m
    case Send(id, to, delivered) => delivered && id in s.unsent && id < |s.asked| && x == ToHandle(to, s.asked[id])
    case Respond(ctx, value, delivered) =>
      delivered && ctx in s.contexts && x == ToComplete(ctx.replyTo, Response(ctx.cid, Answer(value)))
    case _ => false
  }

  /** It is popped by its free addressee, or lost. */
  predicate Collects<P(==), V(==)>(s: State<P, V>, m: Move<P, V>, x: Message<P, V>) {
    x in s.mail && ((m == Pop(x) && At(s, x.to) == Free) || m == Lose(x))
  }

  /** A delivered message is addressed to its actor and stays, one for one, until that actor pops it or it is lost. */
  lemma MailIsKept<P, V>(s: State<P, V>, m: Move<P, V>, x: Message<P, V>)
    ensures Step(s, m).mail[x] == s.mail[x] + (if Posts(s, m, x) then 1 else 0) - (if Collects(s, m, x) then 1 else 0)
  {
    hide Step, Posts, Collects;
    if m.Send? || m.Respond? {
      PostedMail(s, m, x);
    } else if m.Pop? || m.Lose? {
      CollectedMail(s, m, x);
    } else {
      OtherMail(s, m, x);
    }
  }

  lemma PostedMail<P, V>(s: State<P, V>, m: Move<P, V>, x: Message<P, V>)
    requires m.Send? || m.Respond?
    ensures Step(s, m).mail[x] == s.mail[x] + (if Posts(s, m, x) then 1 else 0) && !Collects(s, m, x)
  {
  }

  lemma CollectedMail<P, V>(s: State<P, V>, m: Move<P, V>, x: Message<P, V>)
    requires m.Pop? || m.Lose?
    ensures Step(s, m).mail[x] == s.mail[x] - (if Collects(s, m, x) then 1 else 0) && !Posts(s, m, x)
  {
  }

  lemma OtherMail<P, V>(s: State<P, V>, m: Move<P, V>, x: Message<P, V>)
    requires !m.Send? && !m.Respond? && !m.Pop? && !m.Lose?
    ensures Step(s, m).mail == s.mail && !Posts(s, m, x) && !Collects(s, m, x)
  {
  }

  /** How often the request of ask `id` is delivered. */
  function Deliveries<P(==), V(==)>(s: State<P, V>, moves: seq<Move<P, V>>, id: nat): nat
    decreases |moves|
  {
    if moves == [] then 0
    else
      var m := moves[0];
      (if m.Send? && id < |s.asked| && m.id == id && Posts(s, m, ToHandle(m.to, s.asked[id])) then 1 else 0)
      + Deliveries(Step(s, m), moves[1..], id)
  }

  lemma SentOnce<P, V>(s: State<P, V>, m: Move<P, V>, id: nat)
    ensures var t := Step(s, m); |s.asked| <= |t.asked|
    ensures m.Send? && m.id == id && id in s.unsent && id < |s.asked| ==> id !in Step(s, m).unsent
    ensures id < |s.asked| && id in Step(s, m).unsent ==> id in s.unsent
  {
  }

  /** In every run the request of an ask is delivered at most once. */
  lemma {:induction false} RequestsAreDeliveredOnce<P, V>(s: State<P, V>, moves: seq<Move<P, V>>, id: nat)
    ensures Deliveries(s, moves, id) <= if id in s.unsent || id >= |s.asked| then 1 else 0
    decreases |moves|
  {
    if moves != [] {
      SentOnce(s, moves[0], id);
      RequestsAreDeliveredOnce(Step(s, moves[0]), moves[1..], id);
      hide Step;
    }
  }

  /** A handler is given exactly the requests that a free run loop pops. */
  lemma HandlersAreGiven<P, V>(s: State<P, V>, m: Move<P, V>, req: Request<P>)
    ensures req in Step(s, m).contexts <==>
      req in s.contexts || (m.Pop? && m.m.ToHandle? && m.m.req == req && m.m in s.mail && At(s, m.m.to) == Free)
  {
  }

  /** A free run loop that pops a response goes to completeFuture with it. */
  lemma LoopsAreGiven<P, V>(s: State<P, V>, to: nat, resp: Response<V>)
    requires ToComplete(to, resp) in s.mail && At(s, to) == Free
    ensures At(Step(s, Pop(ToComplete(to, resp))), to) == Popped(resp)
  {
  }

  // ---------------------------------------------------------------- an answer arrives

  /** Popped, looked up and completed, with the id still in the table: the future has that response. */
  lemma PoppedResponseCompletes<P, V>(s: State<P, V>, actor: nat, resp: Response<V>)
    requires Inv(s) && At(s, actor) == Popped(resp) && resp.cid in s.pending
    ensures var t := Run(s, [Take(actor), Complete(actor)]);
      resp.cid in t.results && t.results[resp.cid] == resp && At(t, actor) == Free
  {
    var s1 := Step(s, Take(actor));
    TwoMoves(s, Take(actor), Complete(actor));
    assert At(s1, actor) == Took(resp, true);
    assert resp.cid !in s.results && resp.cid < |s.completions|;
  }

  lemma TwoMoves<P, V>(s: State<P, V>, a: Move<P, V>, b: Move<P, V>)
    ensures Run(s, [a, b]) == Step(Step(s, a), b)
  {
    hide Step;
    assert [a, b][1..] == [b] && [b][1..] == [];
    assert Run(Step(s, a), [b]) == Run(Step(Step(s, a), b), []);
  }

  /** The answer to a pending request, delivered and dealt with by the asker's free run loop. */
  function Answering<P, V>(req: Request<P>, value: V): seq<Move<P, V>> {
    [Respond(req, value, true), Pop(ToComplete(req.replyTo, Response(req.cid, Answer(value)))), Take(req.replyTo), Complete(req.replyTo)]
  }

  /**
    From every state: if the request of a pending ask is with a handler and the asker's run
    loop is free, a response delivered to it completes the ask's future with the value that
    Respond was given.
   */
  lemma RespondCompletes<P, V>(s: State<P, V>, id: nat, value: V)
    requires Inv(s) && id in s.pending && id < |s.asked| && s.asked[id] in s.contexts && At(s, s.asked[id].replyTo) == Free
    ensures var t := Run(s, Answering(s.asked[id], value)); id in t.results && t.results[id] == Response(id, Answer(value))
  {
    var req := s.asked[id];
    var resp := Response(req.cid, Answer(value));
    var respond, pop := Respond(req, value, true), Pop(ToComplete(req.replyTo, resp));
    var s1 := Step(s, respond);
    var s2 := Step(s1, pop);
    StepKeepsInv(s, respond);
    StepKeepsInv(s1, pop);
    LoopsAreGiven(s1, req.replyTo, resp);
    PoppedResponseCompletes(s2, req.replyTo, resp);
    hide Inv;
    RunAdds(s, [respond, pop], [Take(req.replyTo), Complete(req.replyTo)]);
    TwoMoves(s, respond, pop);
    assert Answering(req, value) == [respond, pop] + [Take(req.replyTo), Complete(req.replyTo)];
  }

  lemma {:induction false} RunAdds<P, V>(s: State<P, V>, a: seq<Move<P, V>>, b: seq<Move<P, V>>)
    ensures Run(s, a + b) == Run(Run(s, a), b)
    decreases |a|
  {
    hide Step;
    if a == [] {
      assert a + b == b;
    } else {
      RunAdds(Step(s, a[0]), a[1..], b);
      assert (a + b)[1..] == a[1..] + b;
    }
  }

  /** An ask, delivered and handed to the target's handler. */
  function Asking<P(==), V(==)>(s: State<P, V>, asker: nat, payload: P, timed: bool, to: nat): seq<Move<P, V>> {
    var id := |s.asked|;
    [Track(asker, payload, timed), Send(id, to, true), Pop(ToHandle(to, Request(id, asker, payload)))]
  }

  lemma ThreeMoves<P, V>(s: State<P, V>, a: Move<P, V>, b: Move<P, V>, c: Move<P, V>)
    ensures Run(s, [a, b, c]) == Step(Step(Step(s, a), b), c)
  {
    RunAdds(s, [a, b], [c]);
    TwoMoves(s, a, b);
    assert [a, b] + [c] == [a, b, c] && [c][1..] == [];
    hide Step;
    assert Run(Step(Step(s, a), b), [c]) == Run(Step(Step(Step(s, a), b), c), []);
  }

  /** From every state: an ask that is delivered to a free target is with its handler, its id pending, its timer armed if it has one. */
  lemma AskReachesHandler<P, V>(s: State<P, V>, asker: nat, payload: P, timed: bool, to: nat)
    requires Inv(s) && At(s, to) == Free
    ensures var t := Run(s, Asking(s, asker, payload, timed, to)); var id := |s.asked|;
      && Inv(t) && id < |t.asked| && id < |t.timers| && id in t.pending
      && t.asked[id] == Request(id, asker, payload) && t.asked[id] in t.contexts
      && t.timers[id] == (if timed then Armed else Unarmed) && t.loops == s.loops
  {
    var id := |s.asked|;
    var req := Request(id, asker, payload);
    var s1 := Step(s, Track(asker, payload, timed));
    var s2 := Step(s1, Send(id, to, true));
    ThreeMoves(s, Track(asker, payload, timed), Send(id, to, true), Pop(ToHandle(to, req)));
    RunKeepsInv(s, Asking(s, asker, payload, timed, to));
    assert ToHandle(to, req) in s2.mail && At(s2, to) == Free;
  }

  /**
    From every state an ask whose request and response are delivered to free run loops, before
    its timer fires, ends with exactly the value its handler gave Respond.
   */
  lemma AskIsAnswered<P, V>(s: State<P, V>, asker: nat, payload: P, timed: bool, to: nat, value: V)
    requires Inv(s) && At(s, to) == Free && At(s, asker) == Free
    ensures var id := |s.asked|; var t := Run(s, Asking(s, asker, payload, timed, to) + Answering(Request(id, asker, payload), value));
      id in t.results && t.results[id] == Response(id, Answer(value))
  {
    AskReachesHandler(s, asker, payload, timed, to);
    var t := Run(s, Asking(s, asker, payload, timed, to));
    hide Run, Inv;
    RespondCompletes(t, |s.asked|, value);
    RunAdds(s, Asking(s, asker, payload, timed, to), Answering(Request(|s.asked|, asker, payload), value));
  }

  // ---------------------------------------------------------------- the race

  /** A look-up that finds the id in the table makes its finder the one to complete the future. */
  lemma TakeGains<P, V>(s: State<P, V>, actor: nat)
    requires Inv(s) && At(s, actor).Popped? && At(s, actor).resp.cid in s.pending
    ensures var t := Step(s, Take(actor)); var resp := At(s, actor).resp;
      Inv(t) && Holds(t, LoopOf(actor), resp.cid) && Due(t, LoopOf(actor), resp.cid) == resp
  {
    StepKeepsInv(s, Take(actor));
  }

  lemma TimerGains<P, V>(s: State<P, V>, id: nat)
    requires Inv(s) && id in s.pending && id < |s.timers| && s.timers[id] == Armed
    ensures var t := Step(s, TimerTake(id));
      Inv(t) && Holds(t, TheTimer, id) && Due(t, TheTimer, id) == Response(id, AskTimeout)
  {
    StepKeepsInv(s, TimerTake(id));
  }

  /** A holder completes the future by its next step, however much runs before. */
  lemma {:induction false} HolderCompletes<P, V>(s: State<P, V>, moves: seq<Move<P, V>>, h: Resolver, id: nat)
    requires Inv(s) && Holds(s, h, id)
    requires (if h.TheTimer? then TimerComplete(id) else Complete(h.actor)) in moves
    ensures id in Run(s, moves).results && Run(s, moves).results[id] == Due(s, h, id)
    decreases |moves|
  {
    var t := Step(s, moves[0]);
    StepKeepsInv(s, moves[0]);
    HolderIsKnown(s, h, id);
    if Completes(s, moves[0], h, id) {
      CompletesWithDue(s, moves[0], h, id);
      ResultsAreFinal(t, moves[1..], id);
    } else {
      StepTowardsDue(s, moves[0], h, id);
      HoldersChange(s, moves[0], h, id);
      hide Inv, Step, Due;
      HolderIsStillThere(t, h, id);
      HolderCompletes(t, moves[1..], h, id);
    }
  }

  lemma HolderIsStillThere<P, V>(s: State<P, V>, h: Resolver, id: nat)
    requires Inv(s) && Holds(s, h, id)
    ensures id !in s.results
  {
  }

  /**
    The race between a response and the timer is won by whoever looks the id up first: if the
    run loop does, then once it has gone on, whatever else ran, the future has its response.
   */
  lemma FirstTakeWins<P, V>(s: State<P, V>, actor: nat, moves: seq<Move<P, V>>)
    requires Inv(s) && At(s, actor).Popped? && At(s, actor).resp.cid in s.pending && Complete(actor) in moves
    ensures var resp := At(s, actor).resp; var t := Run(Step(s, Take(actor)), moves);
      resp.cid in t.results && t.results[resp.cid] == resp
  {
    TakeGains(s, actor);
    HolderCompletes(Step(s, Take(actor)), moves, LoopOf(actor), At(s, actor).resp.cid);
  }

  /** And if the timer does, the future times out. */
  lemma FirstTimerWins<P, V>(s: State<P, V>, id: nat, moves: seq<Move<P, V>>)
    requires Inv(s) && id in s.pending && id < |s.timers| && s.timers[id] == Armed && TimerComplete(id) in moves
    ensures var t := Run(Step(s, TimerTake(id)), moves);
      id in t.results && t.results[id] == Response(id, AskTimeout)
  {
    TimerGains(s, id);
    HolderCompletes(Step(s, TimerTake(id)), moves, TheTimer, id);
  }
}
