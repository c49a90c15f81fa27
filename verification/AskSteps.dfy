/**
  Ask and reply under concurrency: askers tracking futures, run loops handling requests and
  responses, handlers responding whenever they like, and timeout timers, one step per
  critical section. Taking a future out of the pending table and completing it are separate
  steps, so a response and a timeout can race. Correlation ids are the asks' numbers.
 */
module AskSteps {
  datatype Request<P> = Request(cid: nat, replyTo: nat, payload: P)

  /** What Respond was given, or the timer's error. */
  datatype Outcome<V> = Answer(value: V) | AskTimeout

  datatype Response<V> = Response(cid: nat, outcome: Outcome<V>)

  datatype Message<P, V> = ToHandle(to: nat, req: Request<P>) | ToComplete(to: nat, resp: Response<V>)

  /** A run loop inside completeFuture: it has popped a response, then looked its id up. */
  datatype Loop<V> = Free | Popped(resp: Response<V>) | Took(resp: Response<V>, found: bool)

  /** Over: the callback has returned. Unarmed: the timeout was not positive. */
  datatype Timer = Unarmed | Armed | Fired(found: bool) | Over

  /**
    `asked`, `contexts` and `built` are history: the requests by id, those a handler has been
    given, and the responses Respond created. `completions` counts the calls of complete.
   */
  datatype State<P(==), V(==)> = State(
    asked: seq<Request<P>>,
    unsent: set<nat>,
    timers: seq<Timer>,
    pending: set<nat>,
    mail: multiset<Message<P, V>>,
    contexts: set<Request<P>>,
    built: set<Response<V>>,
    loops: map<nat, Loop<V>>,
    results: map<nat, Response<V>>,
    completions: seq<nat>)

  datatype Move<P(==), V> =
    | Track(asker: nat, payload: P, timed: bool)
    | Send(id: nat, to: nat, delivered: bool)
    | Pop(m: Message<P, V>)
    | Lose(m: Message<P, V>)
    | Respond(ctx: Request<P>, value: V, delivered: bool)
    | Take(actor: nat)
    | Complete(actor: nat)
    | TimerTake(id: nat)
    | TimerComplete(id: nat)

  function Init<P(==), V(==)>(): State<P, V> {
    State([], {}, [], {}, multiset{}, {}, {}, map[], map[], [])
  }

  function At<P, V>(s: State<P, V>, actor: nat): Loop<V> {
    if actor in s.loops then s.loops[actor] else Free
  }

  /** SendAsync up to TrackPending: a new id, entered in the table, with its timer if any. */
  function Tracked<P, V>(s: State<P, V>, asker: nat, payload: P, timed: bool): State<P, V> {
    var id := |s.asked|;
    s.(asked := s.asked + [Request(id, asker, payload)],
       unsent := s.unsent + {id},
       timers := s.timers + [if timed then Armed else Unarmed],
       pending := s.pending + {id},
       completions := s.completions + [0])
  }

  function Sent<P, V>(s: State<P, V>, id: nat, to: nat, delivered: bool): State<P, V> {
    if id !in s.unsent || id >= |s.asked| then s
    else s.(unsent := s.unsent - {id},
            mail := if delivered then s.mail + multiset{ToHandle(to, s.asked[id])} else s.mail)
  }

  /** A free run loop takes a message: a request goes to the handler, a response to completeFuture. */
  function Received<P, V>(s: State<P, V>, m: Message<P, V>): State<P, V> {
    if m !in s.mail || At(s, m.to) != Free then s
    else
      var s1 := s.(mail := s.mail - multiset{m});
      match m
      case ToHandle(_, req) => s1.(contexts := s1.contexts + {req})
      case ToComplete(to, resp) => s1.(loops := s1.loops[to := Popped(resp)])
  }

  /** Any context handed out may respond, any number of times, at any later moment. */
  function Responded<P, V>(s: State<P, V>, ctx: Request<P>, value: V, delivered: bool): State<P, V> {
    if ctx !in s.contexts then s
    else
      var resp := Response(ctx.cid, Answer(value));
      s.(built := s.built + {resp},
         mail := if delivered then s.mail + multiset{ToComplete(ctx.replyTo, resp)} else s.mail)
  }

  /** completeFuture's critical section. */
  function Taken<P, V>(s: State<P, V>, actor: nat): State<P, V> {
    match At(s, actor)
    case Popped(resp) => s.(pending := s.pending - {resp.cid}, loops := s.loops[actor := Took(resp, resp.cid in s.pending)])
    case _ => s
  }

  /** Future.complete: the first call wins. */
  function Resolve<P, V>(s: State<P, V>, id: nat, r: Response<V>): State<P, V> {
    if id >= |s.completions| then s
    else s.(completions := s.completions[id := s.completions[id] + 1],
            results := if id in s.results then s.results else s.results[id := r])
  }

  function Completed<P, V>(s: State<P, V>, actor: nat): State<P, V> {
    match At(s, actor)
    case Took(resp, found) =>
      var s1 := if found then Resolve(s, resp.cid, resp) else s;
      s1.(loops := s1.loops[actor := Free])
    case _ => s
  }

  /** The timer callback's critical section. */
  function TimerTook<P, V>(s: State<P, V>, id: nat): State<P, V> {
    if id >= |s.timers| || s.timers[id] != Armed then s
    else s.(pending := s.pending - {id}, timers := s.timers[id := Fired(id in s.pending)])
  }

  function TimerCompleted<P, V>(s: State<P, V>, id: nat): State<P, V> {
    if id >= |s.timers| || !s.timers[id].Fired? then s
    else
      var s1 := if s.timers[id].found then Resolve(s, id, Response(id, AskTimeout)) else s;
      s1.(timers := s1.timers[id := Over])
  }

  function Step<P, V>(s: State<P, V>, m: Move<P, V>): State<P, V> {
    match m
    case Track(asker, payload, timed) => Tracked(s, asker, payload, timed)
    case Send(id, to, delivered) => Sent(s, id, to, delivered)
    case Pop(msg) => Received(s, msg)
    case Lose(msg) => s.(mail := s.mail - multiset{msg})
    case Respond(ctx, value, delivered) => Responded(s, ctx, value, delivered)
    case Take(actor) => Taken(s, actor)
    case Complete(actor) => Completed(s, actor)
    case TimerTake(id) => TimerTook(s, id)
    case TimerComplete(id) => TimerCompleted(s, id)
  }

  function Run<P, V>(s: State<P, V>, moves: seq<Move<P, V>>): State<P, V>
    decreases |moves|
  {
    if moves == [] then s else Run(Step(s, moves[0]), moves[1..])
  }

  // ---------------------------------------------------------------- who holds a future

  datatype Resolver = TheTimer | LoopOf(actor: nat)

  predicate LoopHolds<P, V>(s: State<P, V>, actor: nat, id: nat) {
    At(s, actor).Took? && At(s, actor).found && At(s, actor).resp.cid == id
  }

  predicate TimerHolds<P, V>(s: State<P, V>, id: nat) {
    id < |s.timers| && s.timers[id] == Fired(true)
  }

  predicate Holds<P, V>(s: State<P, V>, h: Resolver, id: nat) {
    match h
    case TheTimer => TimerHolds(s, id)
    case LoopOf(actor) => LoopHolds(s, actor, id)
  }

  /** Those that took the future and have yet to complete it. */
  function Holders<P, V>(s: State<P, V>, id: nat): (r: set<Resolver>)
    ensures forall h :: h in r <==> Holds(s, h, id)
  {
    (if TimerHolds(s, id) then {TheTimer} else {}) +
    (set actor | actor in s.loops && LoopHolds(s, actor, id) :: LoopOf(actor))
  }

  // ---------------------------------------------------------------- the invariant

  predicate Shaped<P, V>(s: State<P, V>) {
    && |s.timers| == |s.asked| == |s.completions|
    && (forall id :: 0 <= id < |s.asked| ==> s.asked[id].cid == id)
    && (forall id :: id in s.pending ==> id < |s.asked|)
    && (forall id :: id in s.results ==> id < |s.asked|)
  }

  predicate Genuine<P, V>(s: State<P, V>, req: Request<P>) {
    req.cid < |s.asked| && s.asked[req.cid] == req
  }

  /** Built by Respond for a request that a handler was given. */
  predicate Founded<P, V>(s: State<P, V>, resp: Response<V>) {
    resp in s.built && resp.cid < |s.asked| && s.asked[resp.cid] in s.contexts && resp.outcome.Answer?
  }

  predicate MessageOk<P, V>(s: State<P, V>, m: Message<P, V>) {
    match m
    case ToHandle(_, req) => Genuine(s, req)
    case ToComplete(_, resp) => Founded(s, resp)
  }

  predicate LoopOk<P, V>(s: State<P, V>, l: Loop<V>) {
    !l.Free? ==> Founded(s, l.resp)
  }

  predicate ResultOk<P, V>(s: State<P, V>, id: nat, r: Response<V>) {
    r.cid == id && (Founded(s, r) || (r.outcome == AskTimeout && id < |s.timers| && s.timers[id] == Over))
  }

  predicate Sourced<P, V>(s: State<P, V>) {
    && (forall m :: m in s.mail ==> MessageOk(s, m))
    && (forall c :: c in s.contexts ==> Genuine(s, c))
    && (forall actor :: actor in s.loops ==> LoopOk(s, s.loops[actor]))
    && (forall id :: id in s.results ==> ResultOk(s, id, s.results[id]))
  }

  ghost predicate OneHolder<P, V>(s: State<P, V>) {
    && (forall id :: id in s.results ==> id !in s.pending)
    && (forall h, id :: Holds(s, h, id) ==> id !in s.pending && id !in s.results)
    && (forall h, k, id :: Holds(s, h, id) && Holds(s, k, id) ==> h == k)
  }

  ghost predicate Held<P, V>(s: State<P, V>, id: nat) {
    exists h :: Holds(s, h, id)
  }

  /** The future is not lost, complete was called once for a result, and a fired timer has emptied the entry. */
  ghost predicate Settled<P, V>(s: State<P, V>, id: nat)
    requires id < |s.completions| && id < |s.timers|
  {
    && (id in s.pending || id in s.results || Held(s, id))
    && s.completions[id] == (if id in s.results then 1 else 0)
    && (s.timers[id] in {Fired(true), Fired(false), Over} ==> id !in s.pending)
  }

  ghost predicate Accounted<P, V>(s: State<P, V>)
    requires Shaped(s)
  {
    forall id :: 0 <= id < |s.asked| ==> Settled(s, id)
  }

  ghost predicate Inv<P, V>(s: State<P, V>) {
    Shaped(s) && Sourced(s) && OneHolder(s) && Accounted(s)
  }

  // ---------------------------------------------------------------- every step keeps it

  /** A result is an old one, a run loop's response, or the timer's error. */
  lemma ResultSource<P, V>(s: State<P, V>, m: Move<P, V>, id: nat)
    requires id in Step(s, m).results
    ensures var t := Step(s, m);
      || (id in s.results && t.results[id] == s.results[id])
      || (m.Complete? && At(s, m.actor).Took? && t.results[id] == At(s, m.actor).resp && id == At(s, m.actor).resp.cid)
      || (m == TimerComplete(id) && t.results[id] == Response(id, AskTimeout) && id < |s.timers| && |t.timers| == |s.timers| && t.timers[id] == Over)
  {
  }

  lemma LengthsAgree<P, V>(s: State<P, V>, m: Move<P, V>)
    requires Shaped(s)
    ensures var t := Step(s, m); |t.timers| == |t.asked| == |t.completions| && |s.asked| <= |t.asked|
    ensures forall id :: 0 <= id < |Step(s, m).asked| ==> Step(s, m).asked[id].cid == id
  {
  }

  lemma PendingIsKnown<P, V>(s: State<P, V>, m: Move<P, V>, id: nat)
    requires Shaped(s) && id in Step(s, m).pending
    ensures id < |Step(s, m).asked|
  {
  }

  lemma ResultIsKnown<P, V>(s: State<P, V>, m: Move<P, V>, id: nat)
    requires Shaped(s) && Sourced(s) && id in Step(s, m).results
    ensures id < |s.asked|
  {
    ResultSource(s, m, id);
    hide Step;
    if m.Complete? && At(s, m.actor).Took? { assert LoopOk(s, s.loops[m.actor]); }
  }

  lemma StepKeepsShape<P, V>(s: State<P, V>, m: Move<P, V>)
    requires Shaped(s) && Sourced(s)
    ensures Shaped(Step(s, m))
  {
    var t := Step(s, m);
    LengthsAgree(s, m);
    forall id | id in t.pending ensures id < |t.asked| { PendingIsKnown(s, m, id); }
    forall id | id in t.results ensures id < |t.asked| { ResultIsKnown(s, m, id); }
    hide Step, Sourced;
  }

  /** History only grows, and a timer that is over stays so. */
  predicate Grows<P, V>(s: State<P, V>, t: State<P, V>) {
    && s.asked <= t.asked && s.contexts <= t.contexts && s.built <= t.built
    && |s.timers| <= |t.timers| && (forall id :: 0 <= id < |s.timers| && s.timers[id] == Over ==> t.timers[id] == Over)
  }

  lemma StepGrows<P, V>(s: State<P, V>, m: Move<P, V>)
    ensures Grows(s, Step(s, m))
  {
  }

  lemma FoundedGrows<P, V>(s: State<P, V>, t: State<P, V>, resp: Response<V>)
    requires Grows(s, t) && Founded(s, resp)
    ensures Founded(t, resp)
  {
  }

  lemma StepKeepsMail<P, V>(s: State<P, V>, m: Move<P, V>, msg: Message<P, V>)
    requires Shaped(s) && Sourced(s) && msg in Step(s, m).mail
    ensures MessageOk(Step(s, m), msg)
  {
    StepGrows(s, m);
    hide Grows;
    if msg in s.mail {
      assert MessageOk(s, msg);
      GrownMessage(s, Step(s, m), msg);
    }
  }

  lemma GrownMessage<P, V>(s: State<P, V>, t: State<P, V>, msg: Message<P, V>)
    requires Grows(s, t) && MessageOk(s, msg)
    ensures MessageOk(t, msg)
  {
  }

  /** What each move does to one run loop. */
  lemma LoopProgress<P, V>(s: State<P, V>, m: Move<P, V>, actor: nat)
    ensures At(Step(s, m), actor) ==
      match m
      case Pop(ToComplete(to, resp)) => if to == actor && m.m in s.mail && At(s, actor) == Free then Popped(resp) else At(s, actor)
      case Take(a) => if a == actor && At(s, actor).Popped? then Took(At(s, actor).resp, At(s, actor).resp.cid in s.pending) else At(s, actor)
      case Complete(a) => if a == actor then (if At(s, actor).Popped? then At(s, actor) else Free) else At(s, actor)
      case _ => At(s, actor)
  {
  }

  lemma StepKeepsLoop<P, V>(s: State<P, V>, m: Move<P, V>, actor: nat)
    requires Shaped(s) && Sourced(s) && actor in Step(s, m).loops
    ensures LoopOk(Step(s, m), Step(s, m).loops[actor])
  {
    var t := Step(s, m);
    if !t.loops[actor].Free? {
      StepGrows(s, m);
      LoopProgress(s, m, actor);
      hide Step, Grows, Shaped;
      assert Founded(s, t.loops[actor].resp) by {
        hide Founded;
        if actor in s.loops { assert LoopOk(s, s.loops[actor]); }
        if m.Pop? && m.m in s.mail { assert MessageOk(s, m.m); }
      }
      FoundedGrows(s, t, t.loops[actor].resp);
    }
  }

  lemma StepKeepsContext<P, V>(s: State<P, V>, m: Move<P, V>, c: Request<P>)
    requires Shaped(s) && Sourced(s) && c in Step(s, m).contexts
    ensures Genuine(Step(s, m), c)
  {
    StepGrows(s, m);
    if c !in s.contexts {
      assert m.Pop? && m.m in s.mail && MessageOk(s, m.m);
    }
  }

  lemma StepKeepsResult<P, V>(s: State<P, V>, m: Move<P, V>, id: nat)
    requires Shaped(s) && Sourced(s) && id in Step(s, m).results
    ensures ResultOk(Step(s, m), id, Step(s, m).results[id])
  {
    StepGrows(s, m);
    ResultSource(s, m, id);
    var t := Step(s, m);
    hide Step;
    if id in s.results && t.results[id] == s.results[id] {
      assert ResultOk(s, id, s.results[id]);
      if Founded(s, s.results[id]) { FoundedGrows(s, t, s.results[id]); }
    } else if m.Complete? {
      assert LoopOk(s, s.loops[m.actor]);
      FoundedGrows(s, t, At(s, m.actor).resp);
    }
  }

  lemma StepKeepsSources<P, V>(s: State<P, V>, m: Move<P, V>)
    requires Shaped(s) && Sourced(s)
    ensures Sourced(Step(s, m))
  {
    hide Step, MessageOk, LoopOk, ResultOk, Genuine, Shaped;
    var t := Step(s, m);
    forall msg | msg in t.mail ensures MessageOk(t, msg) { StepKeepsMail(s, m, msg); }
    forall actor | actor in t.loops ensures LoopOk(t, t.loops[actor]) { StepKeepsLoop(s, m, actor); }
    forall id | id in t.results ensures ResultOk(t, id, t.results[id]) { StepKeepsResult(s, m, id); }
    forall c | c in t.contexts ensures Genuine(t, c) { StepKeepsContext(s, m, c); }
  }

  // ---------------------------------------------------------------- one resolver at a time

  /** The move lets h take the future of `id`. */
  predicate Gains<P, V>(s: State<P, V>, m: Move<P, V>, h: Resolver, id: nat) {
    match m
    case Take(actor) => h == LoopOf(actor) && At(s, actor).Popped? && At(s, actor).resp.cid == id && id in s.pending
    case TimerTake(i) => h == TheTimer && i == id && id < |s.timers| && s.timers[id] == Armed && id in s.pending
    case _ => false
  }

  /** The move has h complete the future of `id`. */
  predicate Completes<P, V>(s: State<P, V>, m: Move<P, V>, h: Resolver, id: nat) {
    match m
    case Complete(actor) => h == LoopOf(actor) && Holds(s, h, id)
    case TimerComplete(i) => h == TheTimer && i == id && Holds(s, h, id)
    case _ => false
  }

  lemma HoldersChange<P, V>(s: State<P, V>, m: Move<P, V>, h: Resolver, id: nat)
    requires Shaped(s)
    ensures Holds(Step(s, m), h, id) <==> Gains(s, m, h, id) || (Holds(s, h, id) && !Completes(s, m, h, id))
  {
    match h
    case TheTimer => TimerChange(s, m, id);
    case LoopOf(actor) => LoopChange(s, m, actor, id);
  }

  lemma TimerChange<P, V>(s: State<P, V>, m: Move<P, V>, id: nat)
    requires Shaped(s)
    ensures TimerHolds(Step(s, m), id) <==> Gains(s, m, TheTimer, id) || (TimerHolds(s, id) && !Completes(s, m, TheTimer, id))
  {
  }

  lemma LoopChange<P, V>(s: State<P, V>, m: Move<P, V>, actor: nat, id: nat)
    ensures LoopHolds(Step(s, m), actor, id) <==> Gains(s, m, LoopOf(actor), id) || (LoopHolds(s, actor, id) && !Completes(s, m, LoopOf(actor), id))
  {
    LoopProgress(s, m, actor);
    hide Step;
  }

  /** The pending table loses exactly the ids looked up in it, and gains the new one. */
  lemma PendingChange<P, V>(s: State<P, V>, m: Move<P, V>, id: nat)
    requires Shaped(s) && id < |s.asked|
    ensures id in Step(s, m).pending ==> id in s.pending && forall h :: !Gains(s, m, h, id)
    ensures id in s.pending && id !in Step(s, m).pending ==> exists h :: Gains(s, m, h, id)
  {
    assert m.Take? ==> Gains(s, m, LoopOf(m.actor), id) == (At(s, m.actor).Popped? && At(s, m.actor).resp.cid == id && id in s.pending);
    assert m.TimerTake? ==> Gains(s, m, TheTimer, id) == (m.id == id && s.timers[id] == Armed && id in s.pending);
  }

  /** A result appears exactly when a holder completes the future. */
  lemma ResultChange<P, V>(s: State<P, V>, m: Move<P, V>, id: nat)
    requires Shaped(s) && id < |s.asked|
    ensures id in Step(s, m).results <==> id in s.results || exists h :: Completes(s, m, h, id)
    ensures id in s.results ==> Step(s, m).results[id] == s.results[id]
  {
    assert m.Complete? ==> Completes(s, m, LoopOf(m.actor), id) == LoopHolds(s, m.actor, id);
    assert m.TimerComplete? ==> Completes(s, m, TheTimer, id) == (m.id == id && TimerHolds(s, id));
  }

  lemma CountChange<P, V>(s: State<P, V>, m: Move<P, V>, id: nat)
    requires Shaped(s) && id < |s.asked|
    ensures Step(s, m).completions[id] == s.completions[id] + if exists h :: Completes(s, m, h, id) then 1 else 0
  {
    assert m.Complete? ==> Completes(s, m, LoopOf(m.actor), id) == LoopHolds(s, m.actor, id);
    assert m.TimerComplete? ==> Completes(s, m, TheTimer, id) == (m.id == id && TimerHolds(s, id));
  }

  lemma TimerProgress<P, V>(s: State<P, V>, m: Move<P, V>, id: nat)
    requires Shaped(s) && id < |s.asked|
    ensures Step(s, m).timers[id] != s.timers[id] && Step(s, m).timers[id].Fired? ==>
      s.timers[id] == Armed && (id in s.pending ==> Gains(s, m, TheTimer, id))
    ensures Step(s, m).timers[id] != s.timers[id] && Step(s, m).timers[id] == Over ==> s.timers[id].Fired?
  {
  }

  /** An id first appears pending, with no holder, no result, no completion and an unfired timer. */
  lemma NewId<P, V>(s: State<P, V>, m: Move<P, V>, id: nat)
    requires Shaped(s) && |s.asked| <= id < |Step(s, m).asked|
    ensures var t := Step(s, m);
      id in t.pending && id !in t.results && t.completions[id] == 0 && t.timers[id] in {Armed, Unarmed}
  {
  }

  lemma HolderIsKnown<P, V>(s: State<P, V>, h: Resolver, id: nat)
    requires Shaped(s) && Sourced(s) && Holds(s, h, id)
    ensures id < |s.asked|
  {
    if h.LoopOf? { assert LoopOk(s, s.loops[h.actor]); }
  }

  lemma NewHolderIsAlone<P, V>(s: State<P, V>, m: Move<P, V>, h: Resolver, id: nat)
    requires Inv(s) && Holds(Step(s, m), h, id)
    ensures id < |s.asked| && id !in Step(s, m).pending && id !in Step(s, m).results
  {
    HoldersChange(s, m, h, id);
    if Holds(s, h, id) { HolderIsKnown(s, h, id); }
    PendingChange(s, m, id);
    ResultChange(s, m, id);
    hide Step, Holds, Sourced, Accounted;
    assert forall k :: Completes(s, m, k, id) ==> Holds(s, k, id) && !Gains(s, m, h, id);
  }

  lemma HolderStaysAlone<P, V>(s: State<P, V>, m: Move<P, V>, h: Resolver, k: Resolver, id: nat)
    requires Inv(s) && Holds(Step(s, m), h, id) && Holds(Step(s, m), k, id)
    ensures h == k
  {
    HoldersChange(s, m, h, id);
    HoldersChange(s, m, k, id);
    hide Step, Holds, Sourced, Shaped, Accounted;
  }

  /** The future of `id` is with at most one of: the table, a holder, its result. */
  lemma StepKeepsOneHolder<P, V>(s: State<P, V>, m: Move<P, V>)
    requires Inv(s)
    ensures OneHolder(Step(s, m))
  {
    var t := Step(s, m);
    forall id | id in t.results ensures id !in t.pending {
      StepKeepsShape(s, m);
      if id < |s.asked| { ResultStays(s, m, id); } else { NewId(s, m, id); }
    }
    forall h, id | Holds(t, h, id) ensures id !in t.pending && id !in t.results {
      NewHolderIsAlone(s, m, h, id);
    }
    forall h, k, id | Holds(t, h, id) && Holds(t, k, id) ensures h == k {
      HolderStaysAlone(s, m, h, k, id);
    }
  }

  lemma ResultStays<P, V>(s: State<P, V>, m: Move<P, V>, id: nat)
    requires Inv(s) && id < |s.asked| && id in Step(s, m).results
    ensures id !in Step(s, m).pending
  {
    PendingChange(s, m, id);
    ResultChange(s, m, id);
    hide Step, Holds, Sourced, Accounted;
    if k :| Completes(s, m, k, id) { assert Holds(s, k, id); }
  }

  /** Nothing is lost, and every completion is counted. */
  lemma StepKeepsAccounts<P, V>(s: State<P, V>, m: Move<P, V>)
    requires Inv(s) && Shaped(Step(s, m))
    ensures Accounted(Step(s, m))
  {
    var t := Step(s, m);
    forall id | 0 <= id < |t.asked| ensures Settled(t, id) {
      if id < |s.asked| { StepAccounts(s, m, id); } else { NewId(s, m, id); }
    }
  }

  lemma StepAccounts<P, V>(s: State<P, V>, m: Move<P, V>, id: nat)
    requires Inv(s) && id < |s.asked| && Shaped(Step(s, m)) && |s.asked| <= |Step(s, m).asked|
    ensures Settled(Step(s, m), id)
  {
    var t := Step(s, m);
    PendingChange(s, m, id);
    ResultChange(s, m, id);
    CountChange(s, m, id);
    TimerProgress(s, m, id);
    assert Settled(s, id);
    hide Step, Holds, Sourced, Shaped;
    if h :| Holds(s, h, id) {
      HoldersChange(s, m, h, id);
    }
    if h :| Gains(s, m, h, id) {
      HoldersChange(s, m, h, id);
    }
    if k :| Completes(s, m, k, id) {
      assert Holds(s, k, id);
    }
  }

  // ---------------------------------------------------------------- over every run

  lemma StepKeepsInv<P, V>(s: State<P, V>, m: Move<P, V>)
    requires Inv(s)
    ensures Inv(Step(s, m))
  {
    StepKeepsShape(s, m);
    StepKeepsSources(s, m);
    StepKeepsOneHolder(s, m);
    StepKeepsAccounts(s, m);
  }

  lemma {:induction false} RunKeepsInv<P, V>(s: State<P, V>, moves: seq<Move<P, V>>)
    requires Inv(s)
    ensures Inv(Run(s, moves))
    decreases |moves|
  {
    hide Inv, Step;
    if moves != [] {
      StepKeepsInv(s, moves[0]);
      RunKeepsInv(Step(s, moves[0]), moves[1..]);
    }
  }

  lemma HoldersAreOne<P, V>(s: State<P, V>, id: nat)
    requires Inv(s) && id < |s.asked|
    ensures |Holders(s, id)| == if id in s.pending || id in s.results then 0 else 1
  {
    assert Settled(s, id);
    hide Sourced, Shaped, Settled, Holds;
    if h :| Holds(s, h, id) {
      assert Holders(s, id) == {h};
    } else {
      assert Holders(s, id) == {};
    }
  }

  /**
    In every interleaving each tracked future is in exactly one of three places: the table,
    the hands of exactly one resolver, or completed, by the one call of complete it ever gets.
   */
  lemma EachFutureIsResolvedOnce<P, V>(moves: seq<Move<P, V>>, id: nat)
    requires id < |Run(Init<P, V>(), moves).asked|
    ensures var s := Run(Init<P, V>(), moves);
      && (if id in s.pending then 1 else 0) + |Holders(s, id)| + (if id in s.results then 1 else 0) == 1
      && id < |s.completions| && s.completions[id] == if id in s.results then 1 else 0
  {
    var s := Run(Init<P, V>(), moves);
    RunKeepsInv(Init<P, V>(), moves);
    hide Run;
    HoldersAreOne(s, id);
    assert Settled(s, id);
  }

  /**
    In every interleaving a future's value is its own timeout, its timer's callback over, or a
    response with its id that a handler given exactly this request created.
   */
  lemma AnswersFitTheirRequests<P, V>(moves: seq<Move<P, V>>, id: nat)
    requires id in Run(Init<P, V>(), moves).results
    ensures var s := Run(Init<P, V>(), moves);
      && id < |s.asked| == |s.timers|
      && s.results[id].cid == id
      && (match s.results[id].outcome
          case AskTimeout => s.timers[id] == Over
          case Answer(_) => s.results[id] in s.built && s.asked[id] in s.contexts)
  {
    var s := Run(Init<P, V>(), moves);
    RunKeepsInv(Init<P, V>(), moves);
    hide Run;
    assert ResultOk(s, id, s.results[id]);
  }

  /** Once the timer's callback is over, the future is completed, or one run loop is about to complete it. */
  lemma NoTimedAskPendsForever<P, V>(moves: seq<Move<P, V>>, id: nat)
    requires var s := Run(Init<P, V>(), moves); id < |s.timers| && s.timers[id] == Over
    ensures var s := Run(Init<P, V>(), moves); id in s.results <==> forall actor :: !LoopHolds(s, actor, id)
  {
    var s := Run(Init<P, V>(), moves);
    RunKeepsInv(Init<P, V>(), moves);
    hide Run;
    assert Settled(s, id);
    if actor :| LoopHolds(s, actor, id) {
      assert Holds(s, LoopOf(actor), id);
    } else {
      assert forall h :: !Holds(s, h, id);
    }
  }

  /** Looking up an id no longer in the table changes nothing but the run loop. */
  lemma LateTakeChangesNothing<P, V>(s: State<P, V>, actor: nat)
    requires At(s, actor).Popped? && At(s, actor).resp.cid !in s.pending
    ensures Taken(s, actor) == s.(loops := s.loops[actor := Took(At(s, actor).resp, false)])
  {
    assert s.pending - {At(s, actor).resp.cid} == s.pending;
  }

  /**
    Once a run loop has found its id gone, whatever runs before it goes on, its own next step
    changes nothing but frees it.
   */
  lemma {:induction false} LateResponseChangesNothing<P, V>(s: State<P, V>, actor: nat, moves: seq<Move<P, V>>)
    requires At(s, actor).Took? && !At(s, actor).found
    requires Complete(actor) !in moves
    ensures var t := Run(s, moves);
      At(t, actor) == At(s, actor) && Completed(t, actor) == t.(loops := t.loops[actor := Free])
    decreases |moves|
  {
    if moves != [] {
      LoopProgress(s, moves[0], actor);
      assert moves[0] in moves;
      hide Step;
      LateResponseChangesNothing(Step(s, moves[0]), actor, moves[1..]);
    }
  }

  /** What a holder is about to complete the future with. */
  function Due<P, V>(s: State<P, V>, h: Resolver, id: nat): Response<V>
    requires Holds(s, h, id)
  {
    match h
    case TheTimer => Response(id, AskTimeout)
    case LoopOf(actor) => At(s, actor).resp
  }

  lemma StepTowardsDue<P, V>(s: State<P, V>, m: Move<P, V>, h: Resolver, id: nat)
    requires Inv(s) && Holds(s, h, id)
    ensures var t := Step(s, m);
      || (Holds(t, h, id) && Due(t, h, id) == Due(s, h, id))
      || (id in t.results && t.results[id] == Due(s, h, id))
  {
    HolderIsKnown(s, h, id);
    HoldersChange(s, m, h, id);
    if Completes(s, m, h, id) {
      CompletesWithDue(s, m, h, id);
    } else if h.LoopOf? {
      LoopProgress(s, m, h.actor);
      hide Step, Inv;
    }
  }

  lemma CompletesWithDue<P, V>(s: State<P, V>, m: Move<P, V>, h: Resolver, id: nat)
    requires Shaped(s) && id < |s.asked| && id !in s.results && Completes(s, m, h, id)
    ensures id in Step(s, m).results && Step(s, m).results[id] == Due(s, h, id)
  {
  }

  /** Whoever takes the future decides its value, whatever happens until and after it completes. */
  lemma {:induction false} TakerDecides<P, V>(s: State<P, V>, moves: seq<Move<P, V>>, h: Resolver, id: nat)
    requires Inv(s) && Holds(s, h, id)
    ensures var t := Run(s, moves);
      || (Holds(t, h, id) && Due(t, h, id) == Due(s, h, id))
      || (id in t.results && t.results[id] == Due(s, h, id))
    decreases |moves|
  {
    if moves != [] {
      var t := Step(s, moves[0]);
      StepKeepsInv(s, moves[0]);
      StepTowardsDue(s, moves[0], h, id);
      hide Inv, Step, Holds, Due;
      if Holds(t, h, id) {
        TakerDecides(t, moves[1..], h, id);
      }
      if id in t.results {
        ResultsAreFinal(t, moves[1..], id);
      }
    }
  }

  /** A completed future keeps its value through every further step. */
  lemma {:induction false} ResultsAreFinal<P, V>(s: State<P, V>, moves: seq<Move<P, V>>, id: nat)
    requires Inv(s) && id in s.results
    ensures id in Run(s, moves).results && Run(s, moves).results[id] == s.results[id]
    decreases |moves|
  {
    if moves != [] {
      StepKeepsInv(s, moves[0]);
      ResultChange(s, moves[0], id);
      ResultsAreFinal(Step(s, moves[0]), moves[1..], id);
    }
  }
}
