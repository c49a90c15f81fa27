/** When a Push returns under each policy, what closing the mailbox stops, and when Wait returns. */
module MailboxCalls {
  import opened Words
  import Q = SegmentedSteps
  import C = SegmentCalls
  import opened MailboxSteps
  import opened MailboxOrder
  import opened MailboxPushes

  /** What p's access of its lane's Enqueue is to that lane. */
  function InLane<P>(s: State<P>, m: Move<P>, p: nat): Q.Move<Item<P>>
    requires p < |s.producers| && s.producers[p].Enqueue? && m.Produce?
  {
    Q.Produce(p, s.producers[p].item, m.ok)
  }

  /** Enqueue answers true and Push goes on to announce the place; or false, and Block tries again while any other policy returns; or it is not over. */
  lemma EnqueueEndsExactly<P>(s: State<P>, cfg: Config, m: Move<P>, p: nat)
    requires Lanes(s) && p < |s.producers| && s.producers[p].Enqueue? && m.Produce? && m.p == p
    ensures var item := s.producers[p].item; var u := item.env.urgent; var lane := LaneOf(s, u);
      && p < |lane.producers| && p < |Step(s, cfg, m).producers|
      && Step(s, cfg, m).producers[p] ==
           if C.Accepts(lane, if u then cfg.urgentCap else cfg.normalCap, InLane(s, m, p), p)
             then Publish(item, lane.producers[p].t, |lane.chain[lane.producers[p].t].claimed|)
           else if C.Refuses(lane, cfg.maxSeg, InLane(s, m, p), p)
             then (if cfg.policy == Block then RecheckClosed(item) else Idle)
           else s.producers[p]
  {
    var item := s.producers[p].item;
    var u := item.env.urgent;
    var lane := LaneOf(s, u);
    LanesAre(s, u);
    LaneLengths(s, u);
    EnqueueIsTheStep(s, cfg, p, m.env, m.ok);
    if lane.producers[p].Idle? {
      C.CallBegins(lane, Cap(cfg, u), cfg.maxSeg, InLane(s, m, p), p);
    } else {
      C.CallEndsExactly(lane, Cap(cfg, u), cfg.maxSeg, InLane(s, m, p), p);
    }
    hide Lanes, Q.Inv, Q.Wellformed, Q.ProducerStep;
  }

  /**
    A Push returns exactly when it finds the mailbox closed, when it has announced its message,
    or when its lane's Enqueue has answered false and the policy is not Block: under Block a
    full lane alone never makes it return.
   */
  lemma PushEndsExactly<P>(s: State<P>, cfg: Config, m: Move<P>, p: nat)
    requires Lanes(s) && p < |s.producers| && !s.producers[p].Idle?
    ensures var pc, t := s.producers[p], Step(s, cfg, m);
      && p < |t.producers|
      && (t.producers[p].Idle? <==>
           m.Produce? && m.p == p &&
           (|| ((pc.CheckClosed? || pc.RecheckClosed?) && s.closed)
            || pc.Notify?
            || (pc.Enqueue? && cfg.policy != Block && C.Refuses(LaneOf(s, pc.item.env.urgent), cfg.maxSeg, InLane(s, m, p), p))))
  {
    var pc := s.producers[p];
    if m.Produce? && m.p == p {
      if pc.Enqueue? {
        EnqueueEndsExactly(s, cfg, m, p);
        LanesAre(s, pc.item.env.urgent);
        OneAnswer(LaneOf(s, pc.item.env.urgent), Cap(cfg, pc.item.env.urgent), cfg.maxSeg, InLane(s, m, p), p);
        hide Step, Lanes, Q.Inv;
      }
    } else {
      OthersMove(s, cfg, m, p);
      hide Step, Lanes;
    }
  }

  lemma OneAnswer<P>(lane: Lane<P>, cap: nat, maxSeg: Word, m: Q.Move<Item<P>>, p: nat)
    ensures !(C.Accepts(lane, cap, m, p) && C.Refuses(lane, maxSeg, m, p))
  {
  }

  lemma OthersMove<P>(s: State<P>, cfg: Config, m: Move<P>, p: nat)
    requires Lanes(s) && p < |s.producers| && !(m.Produce? && m.p == p)
    ensures p < |Step(s, cfg, m).producers| && Step(s, cfg, m).producers[p] == s.producers[p]
  {
    hide Q.Inv, Q.Wellformed, Q.ProducerStep, Q.ConsumerStep, FrontReady, Agrees;
    if m.Produce? && m.p < |s.producers| && s.producers[m.p].Enqueue? { OthersStay(s, cfg, m.p, m.ok, p); }
  }

  /** A Push that has not got past its first look at a closed mailbox never passes anything to a lane. */
  lemma {:induction false} ClosedStaysOut<P>(s: State<P>, cfg: Config, schedule: seq<Move<P>>, p: nat)
    requires Lanes(s) && s.closed && p < |s.producers| && (s.producers[p].Idle? || s.producers[p].CheckClosed?)
    ensures var t := Run(s, cfg, schedule);
      && t.closed && p < |t.producers| && (t.producers[p].Idle? || t.producers[p].CheckClosed?)
      && forall u :: p < |LaneOf(s, u).sent| && p < |LaneOf(t, u).sent| && LaneOf(t, u).sent[p] == LaneOf(s, u).sent[p]
    decreases |schedule|
  {
    hide Lanes, Step;
    if schedule == [] {
      LaneLengths(s, true);
      LaneLengths(s, false);
    } else {
      var last := |schedule| - 1;
      ClosedStaysOut(s, cfg, schedule[..last], p);
      OutStep(Run(s, cfg, schedule[..last]), cfg, schedule[last], p);
    }
  }

  lemma OutStep<P>(s: State<P>, cfg: Config, m: Move<P>, p: nat)
    requires Lanes(s) && s.closed && p < |s.producers| && (s.producers[p].Idle? || s.producers[p].CheckClosed?)
    ensures var t := Step(s, cfg, m);
      && t.closed && p < |t.producers| && (t.producers[p].Idle? || t.producers[p].CheckClosed?)
      && forall u :: p < |LaneOf(s, u).sent| && p < |LaneOf(t, u).sent| && LaneOf(t, u).sent[p] == LaneOf(s, u).sent[p]
  {
    OthersLeaveCalls(s, cfg, m, p, true);
    OthersLeaveCalls(s, cfg, m, p, false);
    ClosedOnlyCloses(s, cfg, m);
    if m.Produce? && m.p == p {
      PushStep(s, cfg, p, m.env, m.ok);
    } else {
      OthersMove(s, cfg, m, p);
    }
    hide Lanes, LanesFit, Q.ProducerStep, Q.ConsumerStep;
  }

  /** Only Close closes, and nothing opens. */
  lemma ClosedOnlyCloses<P>(s: State<P>, cfg: Config, m: Move<P>)
    requires LanesFit(s)
    ensures Step(s, cfg, m).closed == (s.closed || m.Close?)
  {
    hide Q.Wellformed, Q.ProducerStep, Q.ConsumerStep, FrontReady;
  }

  /** Wait returns in any step that finds a token or the mailbox closed, true only by taking the token, false only if it is closed; else it stays. */
  lemma WaitEndsExactly<P>(s: State<P>, cfg: Config, pickClosed: bool)
    requires LanesFit(s) && s.consumer.Wait?
    ensures var t := Step(s, cfg, Consume(pickClosed));
      && (t.consumer.Wait? <==> !s.notify && !s.closed)
      && (t.consumer.PopUrgent? ==> s.notify && !t.notify)
      && (t.consumer.Stopped? ==> s.closed)
      && (t.consumer.Wait? || t.consumer.PopUrgent? || t.consumer.Stopped?)
      && (s.notify && !s.closed ==> t.consumer.PopUrgent?) && (s.closed && !s.notify ==> t.consumer.Stopped?)
      && (s.closed && s.notify ==> t.consumer.Stopped? == pickClosed)
  {
  }

  /** In every run the run loop ends only if the mailbox has been closed. */
  lemma {:induction false} StopsOnlyIfClosed<P>(n: nat, cfg: Config, schedule: seq<Move<P>>)
    ensures var s := Run(Started<P>(n), cfg, schedule);
      && (s.consumer.Stopped? ==> s.closed)
      && (s.closed <==> exists i :: 0 <= i < |schedule| && schedule[i].Close?)
    decreases |schedule|
  {
    hide Lanes, Step;
    if schedule == [] {
    } else {
      var last := |schedule| - 1;
      var before := Run(Started<P>(n), cfg, schedule[..last]);
      StopsOnlyIfClosed(n, cfg, schedule[..last]);
      ClosedOnlyCloses(before, cfg, schedule[last]);
      StoppedIn(before, cfg, schedule[last]);
      if i :| 0 <= i < last && schedule[..last][i].Close? { assert schedule[i].Close?; }
    }
  }

  lemma StoppedIn<P>(s: State<P>, cfg: Config, m: Move<P>)
    requires LanesFit(s)
    ensures Step(s, cfg, m).consumer.Stopped? ==> s.consumer.Stopped? || s.closed
  {
    hide Q.Wellformed, Q.ProducerStep, Q.ConsumerStep, FrontReady;
  }

  // ---------------------------------------------------------------- the write-ahead log

  /** What the step appends: a persisted envelope, at its Push's one visit to the log, if encoding and appending succeed. */
  function AppendedBy<P>(s: State<P>, m: Move<P>): seq<Envelope<P>> {
    if m.Produce? && m.p < |s.producers| && s.producers[m.p].WriteAhead? && s.producers[m.p].env.persist && m.ok
    then [s.producers[m.p].env] else []
  }

  /** The log grows by exactly that, and the item that goes to a lane is marked as logged exactly then. */
  lemma LogsExactly<P>(s: State<P>, cfg: Config, m: Move<P>)
    requires LanesFit(s)
    ensures var t := Step(s, cfg, m);
      && t.log == s.log + AppendedBy(s, m)
      && (m.Produce? && m.p < |s.producers| && s.producers[m.p].WriteAhead? ==>
           m.p < |t.producers| && t.producers[m.p] == Enqueue(Item(s.producers[m.p].env, AppendedBy(s, m) != [])))
  {
    hide Q.Wellformed, Q.ProducerStep, Q.ConsumerStep, FrontReady;
  }

  ghost function Appended<P>(s: State<P>, cfg: Config, schedule: seq<Move<P>>): seq<Envelope<P>>
    requires Lanes(s)
    decreases |schedule|
  {
    if schedule == [] then []
    else
      var last := |schedule| - 1;
      Appended(s, cfg, schedule[..last]) + AppendedBy(Run(s, cfg, schedule[..last]), schedule[last])
  }

  /** In every run the log is exactly what the pushes have appended, in that order. */
  lemma {:induction false} LogIsWhatWasAppended<P>(n: nat, cfg: Config, schedule: seq<Move<P>>)
    ensures Run(Started<P>(n), cfg, schedule).log == Appended(Started<P>(n), cfg, schedule)
    decreases |schedule|
  {
    hide Lanes, Step, AppendedBy;
    if schedule != [] {
      var last := |schedule| - 1;
      LogIsWhatWasAppended<P>(n, cfg, schedule[..last]);
      LogsExactly(Run(Started<P>(n), cfg, schedule[..last]), cfg, schedule[last]);
    }
  }
}
