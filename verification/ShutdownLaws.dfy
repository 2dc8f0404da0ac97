/** What the accept / in-flight / close protocol does for its callers: every reply is earned by what was done for
    the request, requests are admitted until Shutdown is called, and whatever has happened the service can still
    be brought to a clean stop. */
module ShutdownLaws {
  import opened Counting
  import opened Shutdowns

  // ----- Every reply is earned -----

  /** A write, or an attempt at one, made on behalf of request `i`. */
  predicate IsOwn(e: Effect, i: nat) {
    IsWork(e) && e.request == i
  }

  /** What was done for request `i`, in order. */
  function Own(log: seq<Effect>, i: nat): seq<Effect> {
    if log == [] then [] else
    var last := log[|log| - 1];
    Own(log[..|log| - 1], i) + if IsOwn(last, i) then [last] else []
  }

  predicate Replied(r: Request, reply: Reply) {
    (r.Decided? || r.Left?) && r.reply == reply
  }

  /** The one record of what must have been done for a request, given where it stands. On the Kafka path a reply
      other than a refusal comes after one Produce call that has ended, and says how it ended; on the queue path only
      an acknowledged danmaku was sent, once; on the direct path a reply says how its one write went. */
  function Due(path: Path, i: nat, r: Request): seq<Effect> {
    match path
    case Kafka =>
      if r.Producing? then [ProduceStart(i)]
      else if Replied(r, Persisted) then [ProduceStart(i), ProduceEnd(i, true)]
      else if Replied(r, Failed) then [ProduceStart(i), ProduceEnd(i, false)]
      else []
    case Queue(_) => if Replied(r, Buffered) then [Sent(i)] else []
    case Direct =>
      if Replied(r, Persisted) then [Wrote(i, true)] else if Replied(r, Failed) then [Wrote(i, false)] else []
  }

  /** No path gives another's replies. */
  predicate OfPath(path: Path, r: Request) {
    if path.Queue? then !r.Producing? && !Replied(r, Persisted) && !Replied(r, Failed)
    else !Replied(r, Buffered) && !Replied(r, QueueFull) && (r.Producing? ==> path.Kafka?)
  }

  predicate Earned(path: Path, i: nat, r: Request, own: seq<Effect>) {
    OfPath(path, r) && own == Due(path, i, r)
  }

  ghost predicate EachEarned(s: State) {
    forall i :: 0 <= i < |s.requests| ==> Earned(s.path, i, s.requests[i], Own(s.log, i))
  }

  predicate IsWork(e: Effect) {
    e.ProduceStart? || e.ProduceEnd? || e.Sent? || e.Wrote?
  }

  /** Nothing is done for a request that has not arrived. */
  ghost predicate ForArrived(log: seq<Effect>, arrived: nat) {
    forall e :: e in log && IsWork(e) ==> e.request < arrived
  }

  ghost predicate AllEarned(s: State) {
    EachEarned(s) && ForArrived(s.log, |s.requests|)
  }

  lemma OneMoreOwn(log: seq<Effect>, e: Effect, i: nat)
    ensures Own(log + [e], i) == Own(log, i) + if IsOwn(e, i) then [e] else []
  {
    assert (log + [e])[..|log|] == log;
  }

  lemma {:induction false} NothingOwn(log: seq<Effect>, i: nat)
    requires forall e :: e in log && IsWork(e) ==> e.request != i
    ensures Own(log, i) == []
  {
    if log != [] {
      NothingOwn(log[..|log| - 1], i);
      assert log[|log| - 1] in log;
    }
  }

  /** What a step has logged for a request, if anything, is what has become due. */
  predicate DueIsLogged(path: Path, i: nat, r: Request, r': Request, logged: seq<Effect>) {
    && OfPath(path, r')
    && Due(path, i, r') == Due(path, i, r) + if logged != [] && IsOwn(logged[0], i) then [logged[0]] else []
  }

  /** What a step of request `i` adds to the log. */
  function Added(s: State, s': State): seq<Effect>
    requires |s.log| <= |s'.log|
  {
    s'.log[|s.log|..]
  }

  predicate LogGrows(s: State, s': State) {
    |s.log| <= |s'.log| && s'.log == s.log + Added(s, s') && |Added(s, s')| <= 1
  }

  lemma OneAdded(s: State, s': State, e: Effect)
    requires s'.log == s.log + [e]
    ensures LogGrows(s, s') && Added(s, s') == [e]
  {
  }

  lemma NoneAdded(s: State, s': State)
    requires s'.log == s.log
    ensures LogGrows(s, s') && Added(s, s') == []
  {
  }

  lemma SendLogsDue(s: State, i: nat, capacity: nat)
    requires i < |s.requests| && s.requests[i].Admitted? && s.path == Queue(capacity)
    ensures var s' := PersistStep(s, i, true);
      && |s'.requests| == |s.requests| && LogGrows(s, s')
      && DueIsLogged(s.path, i, Admitted, s'.requests[i], Added(s, s'))
  {
    var s' := PersistStep(s, i, true);
    if s.channelClosed {
      OneAdded(s, s', Panic);
    } else if |s.queue| < capacity {
      OneAdded(s, s', Sent(i));
    } else {
      NoneAdded(s, s');
    }
  }

  lemma PersistLogsDue(s: State, i: nat, ok: bool)
    requires i < |s.requests| && s.requests[i].Admitted?
    ensures var s' := PersistStep(s, i, ok);
      && |s'.requests| == |s.requests| && LogGrows(s, s')
      && DueIsLogged(s.path, i, Admitted, s'.requests[i], Added(s, s'))
  {
    match s.path
    case Kafka => OneAdded(s, PersistStep(s, i, ok), ProduceStart(i));
    case Queue(capacity) => SendLogsDue(s, i, capacity);
    case Direct => OneAdded(s, PersistStep(s, i, ok), Wrote(i, ok));
  }

  lemma ProduceLogsDue(s: State, i: nat, ok: bool)
    requires i < |s.requests| && s.requests[i].Producing? && s.path.Kafka?
    ensures var s' := RequestStep(s, i, FinishProduce(ok));
      && |s'.requests| == |s.requests| && LogGrows(s, s')
      && DueIsLogged(s.path, i, Producing, s'.requests[i], Added(s, s'))
  {
    OneAdded(s, RequestStep(s, i, FinishProduce(ok)), ProduceEnd(i, ok));
  }

  lemma WaitingLogsNothing(s: State, i: nat, a: RequestAction)
    requires i < |s.requests| && OfPath(s.path, s.requests[i])
    requires !(s.requests[i].Admitted? && a.Persist?) && !(s.requests[i].Producing? && a.FinishProduce?)
    ensures var s' := RequestStep(s, i, a);
      && |s'.requests| == |s.requests| && LogGrows(s, s')
      && DueIsLogged(s.path, i, s.requests[i], s'.requests[i], Added(s, s'))
  {
    var s' := RequestStep(s, i, a);
    NoneAdded(s, s');
    MovesWithoutDue(s.path, i, s.requests[i], s'.requests[i]);
  }

  lemma MovesWithoutDue(path: Path, i: nat, r: Request, r': Request)
    requires r == r' || (r.Arrived? && r'.Counted?) || (r.Counted? && (r'.Admitted? || r' == Decided(Refused)))
      || (r.Admitted? && r' == Decided(Refused)) || (r.Decided? && r' == Left(r.reply))
    requires OfPath(path, r)
    ensures DueIsLogged(path, i, r, r', [])
  {
  }

  lemma StepLogsDue(s: State, i: nat, a: RequestAction)
    requires i < |s.requests| && OfPath(s.path, s.requests[i])
    ensures var s' := RequestStep(s, i, a);
      && |s'.requests| == |s.requests| && LogGrows(s, s')
      && DueIsLogged(s.path, i, s.requests[i], s'.requests[i], Added(s, s'))
  {
    if s.requests[i].Admitted? && a.Persist? {
      PersistLogsDue(s, i, a.ok);
    } else if s.requests[i].Producing? && a.FinishProduce? {
      ProduceLogsDue(s, i, a.ok);
    } else {
      WaitingLogsNothing(s, i, a);
    }
  }

  lemma OwnAfter(log: seq<Effect>, added: seq<Effect>, i: nat)
    requires |added| <= 1
    ensures Own(log + added, i) == Own(log, i) + if added != [] && IsOwn(added[0], i) then [added[0]] else []
  {
    if added == [] {
      assert log + added == log;
    } else {
      OneMoreOwn(log, added[0], i);
      assert added == [added[0]];
    }
  }

  /** A request's own step: what it logs goes with where it now stands. */
  lemma RequestEarns(s: State, i: nat, a: RequestAction)
    requires i < |s.requests| && Earned(s.path, i, s.requests[i], Own(s.log, i))
    ensures var s' := RequestStep(s, i, a);
      |s'.requests| == |s.requests| && Earned(s.path, i, s'.requests[i], Own(s'.log, i))
  {
    var s' := RequestStep(s, i, a);
    StepLogsDue(s, i, a);
    OwnAfter(s.log, Added(s, s'), i);
  }

  /** It logs nothing for another request. */
  lemma OthersKeepTheirOwn(s: State, i: nat, a: RequestAction, j: nat)
    requires i < |s.requests| && i != j
    ensures Own(RequestStep(s, i, a).log, j) == Own(s.log, j)
  {
    var s' := RequestStep(s, i, a);
    RequestLogs(s, i, a);
    if s'.log != s.log {
      OneMoreOwn(s.log, s'.log[|s.log|], j);
    }
  }

  lemma RequestKeepsEarned(s: State, i: nat, a: RequestAction)
    requires EachEarned(s) && i < |s.requests|
    ensures EachEarned(RequestStep(s, i, a))
  {
    var s' := RequestStep(s, i, a);
    RequestMoves(s, i, a);
    RequestEarns(s, i, a);
    forall j | 0 <= j < |s.requests| ensures Earned(s.path, j, s'.requests[j], Own(s'.log, j)) {
      if j != i {
        OthersKeepTheirOwn(s, i, a, j);
        assert Earned(s.path, j, s.requests[j], Own(s.log, j));
      }
    }
  }

  lemma RequestWorksForItself(s: State, i: nat, a: RequestAction)
    requires ForArrived(s.log, |s.requests|) && i < |s.requests|
    ensures ForArrived(RequestStep(s, i, a).log, |s.requests|)
  {
    RequestLogs(s, i, a);
  }

  lemma StepKeepsEarned(s: State, e: Event)
    requires AllEarned(s) && |s.hand| <= 1
    ensures AllEarned(Step(s, e))
  {
    var s' := Step(s, e);
    match e
    case Arrive => NothingOwn(s.log, |s.requests|);
    case CallShutdown =>
    case OfRequest(i, a) =>
      if i < |s.requests| {
        RequestMoves(s, i, a);
        RequestKeepsEarned(s, i, a);
        RequestWorksForItself(s, i, a);
      }
    case OfCloser(k, a) =>
      if k < |s.closers| {
        CloserLeavesRequests(s, k, a);
        CloserLogs(s, k, a);
        OthersLogNothing(s, s');
      }
    case OfConsumer(a) =>
      ConsumerMoves(s, a);
      OthersLogNothing(s, s');
  }

  lemma OthersLogNothing(s: State, s': State)
    requires AllEarned(s) && s'.path == s.path && s'.requests == s.requests
    requires s'.log == s.log
      || (|s'.log| == |s.log| + 1 && s'.log[..|s.log|] == s.log
          && var e := s'.log[|s.log|]; e.ProducerClose? || e.ChannelClose? || e.Panic? || e.Attempt?)
    ensures AllEarned(s')
  {
    if s'.log != s.log {
      assert s'.log == s.log + [s'.log[|s.log|]];
      forall i | 0 <= i < |s.requests| ensures Own(s'.log, i) == Own(s.log, i) {
        OneMoreOwn(s.log, s'.log[|s.log|], i);
      }
    }
  }

  /** In every run, whatever a request was told is what was done for it: no more, no less, and in order. */
  lemma {:induction false} EveryReplyIsEarned(path: Path, events: seq<Event>)
    ensures var s := Run(Started(path), events);
      forall i :: 0 <= i < |s.requests| ==> Earned(path, i, s.requests[i], Own(s.log, i))
    ensures AllEarned(Run(Started(path), events))
  {
    EveryRunIsSound(path, events);
    if events != [] {
      var before := events[..|events| - 1];
      EveryReplyIsEarned(path, before);
      EveryRunIsSound(path, before);
      StepKeepsEarned(Run(Started(path), before), events[|events| - 1]);
    }
  }

  // ----- Who is admitted -----

  ghost predicate NobodyStopped(s: State) {
    forall k :: 0 <= k < |s.closers| ==> s.closers[k].Called?
  }

  lemma CloserStops(s: State, k: nat, a: CloserAction)
    requires k < |s.closers|
    ensures var s' := CloserStep(s, k, a);
      && |s'.closers| == |s.closers| && s'.closers == s.closers[k := s'.closers[k]]
      && (s'.closers[k].Called? <==> s.closers[k].Called? && !a.StopAccepting?)
      && (s'.accepting <==> s.accepting && !(s.closers[k].Called? && a.StopAccepting?))
  {
    assert s.closers == s.closers[k := s.closers[k]];
  }

  lemma StepStops(s: State, e: Event)
    requires s.accepting <==> NobodyStopped(s)
    ensures Step(s, e).accepting <==> NobodyStopped(Step(s, e))
  {
    var s' := Step(s, e);
    if e.OfRequest? && e.i < |s.requests| {
      RequestMoves(s, e.i, e.act);
    } else if e.OfCloser? && e.k < |s.closers| {
      CloserStops(s, e.k, e.move);
      if !s.accepting {
        var j :| 0 <= j < |s.closers| && !s.closers[j].Called?;
        assert !s'.closers[j].Called?;
      }
    } else if e.CallShutdown? {
      if !s.accepting {
        var j :| 0 <= j < |s.closers| && !s.closers[j].Called?;
        assert !s'.closers[j].Called?;
      }
    }
  }

  lemma {:induction false} AcceptsUntilStopped(path: Path, events: seq<Event>)
    ensures var s := Run(Started(path), events); s.accepting <==> NobodyStopped(s)
  {
    if events != [] {
      AcceptsUntilStopped(path, events[..|events| - 1]);
      StepStops(Run(Started(path), events[..|events| - 1]), events[|events| - 1]);
    }
  }

  /** A request that has counted itself is admitted exactly when no Shutdown call has taken its first step, and
      refused otherwise. */
  lemma AdmittedExactly(path: Path, events: seq<Event>, i: nat)
    requires i < |Run(Started(path), events).requests| && Run(Started(path), events).requests[i] == Counted
    ensures var s := Run(Started(path), events);
      var r := Step(s, OfRequest(i, ReadAccepting)).requests[i];
      && (r == Admitted <==> forall k :: 0 <= k < |s.closers| ==> s.closers[k].Called?)
      && (r == Admitted || r == Decided(Refused))
  {
    AcceptsUntilStopped(path, events);
  }

  /** A request that fails its checks is refused, and nothing is done for it. */
  lemma FailedCheckIsRefused(s: State, i: nat)
    requires i < |s.requests| && s.requests[i] == Admitted
    ensures Step(s, OfRequest(i, FailCheck)) == s.(requests := s.requests[i := Decided(Refused)])
  {
  }

  /** An admitted request's danmaku is queued, behind all others, exactly when there is space; the channel is
      never found closed. */
  lemma QueuedExactly(capacity: nat, events: seq<Event>, i: nat, ok: bool)
    requires var s := Run(Started(Queue(capacity)), events); i < |s.requests| && s.requests[i] == Admitted
    ensures var s := Run(Started(Queue(capacity)), events);
      var s' := Step(s, OfRequest(i, Persist(ok)));
      && i < |s'.requests|
      && (s'.requests[i] == Decided(Buffered) <==> |s.queue| < capacity)
      && (s'.requests[i] == Decided(QueueFull) <==> |s.queue| >= capacity)
      && s'.queue == s.queue + (if |s.queue| < capacity then [i] else [])
  {
    EveryRunIsSound(Queue(capacity), events);
    assert Working(Run(Started(Queue(capacity)), events).requests[i]);
  }

  /** The outcome of a Produce call, or of a direct write, is what the log records and the reply says. */
  lemma OutcomeIsTold(s: State, i: nat, ok: bool)
    requires i < |s.requests| && (s.requests[i] == Producing || (s.requests[i] == Admitted && s.path == Direct))
    ensures var produced := s.requests[i] == Producing;
      var s' := Step(s, OfRequest(i, if produced then FinishProduce(ok) else Persist(ok)));
      && s'.log == s.log + [if produced then ProduceEnd(i, ok) else Wrote(i, ok)]
      && |s'.requests| == |s.requests|
      && (s'.requests[i] == Decided(Persisted) <==> ok) && (s'.requests[i] == Decided(Failed) <==> !ok)
  {
  }

  // ----- Whatever has happened, a clean stop is still possible -----

  lemma {:induction false} RunOn(s: State, a: seq<Event>, b: seq<Event>)
    ensures Run(s, a + b) == Run(Run(s, a), b)
  {
    if b == [] {
      assert a + b == a;
    } else {
      assert (a + b)[..|a + b| - 1] == a + b[..|b| - 1];
      RunOn(s, a, b[..|b| - 1]);
    }
  }

  lemma RunOne(s: State, e: Event)
    ensures Run(s, [e]) == Step(s, e)
  {
    assert [e][..0] == [];
    assert Run(s, []) == s;
  }

  /** One event, then a run. */
  lemma ThenRun(s: State, e: Event, more: seq<Event>)
    ensures Run(s, [e] + more) == Run(Step(s, e), more)
  {
    RunOne(s, e);
    RunOn(s, [e], more);
  }

  function StepsLeft(r: Request): nat {
    match r
    case Arrived => 5
    case Counted => 4
    case Admitted => 3
    case Producing => 2
    case Decided(_) => 1
    case Left(_) => 0
  }

  /** What a request that has not left does next. */
  function NextOf(r: Request): RequestAction {
    match r
    case Arrived => Count
    case Counted => ReadAccepting
    case Admitted => Persist(true)
    case Producing => FinishProduce(true)
    case _ => Leave
  }

  lemma RequestGoesOn(s: State, i: nat)
    requires Sound(s) && i < |s.requests| && !s.requests[i].Left?
    ensures var s' := Step(s, OfRequest(i, NextOf(s.requests[i])));
      && |s'.requests| == |s.requests| && StepsLeft(s'.requests[i]) < StepsLeft(s.requests[i])
      && s'.requests == s.requests[i := s'.requests[i]]
      && s'.closers == s.closers && s'.closed == s.closed && s'.path == s.path
  {
    RequestMoves(s, i, NextOf(s.requests[i]));
    assert s.requests[i].Admitted? ==> Working(s.requests[i]);
  }

  lemma {:induction false} RequestCanLeave(s: State, i: nat) returns (more: seq<Event>)
    requires Sound(s) && i < |s.requests|
    ensures var s' := Run(s, more);
      && Sound(s') && |s'.requests| == |s.requests| && s'.requests[i].Left?
      && s'.requests == s.requests[i := s'.requests[i]]
      && s'.closers == s.closers && s'.closed == s.closed && s'.path == s.path
    decreases StepsLeft(s.requests[i])
  {
    if s.requests[i].Left? {
      more := [];
      assert s.requests == s.requests[i := s.requests[i]];
    } else {
      var e := OfRequest(i, NextOf(s.requests[i]));
      RequestGoesOn(s, i);
      StepIsSound(s, e);
      more := RequestCanLeave(Step(s, e), i);
      ThenRun(s, e, more);
      more := [e] + more;
    }
  }

  lemma {:induction false} RequestsCanLeave(s: State, n: nat) returns (more: seq<Event>)
    requires Sound(s) && n <= |s.requests|
    ensures var s' := Run(s, more);
      && Sound(s') && |s'.requests| == |s.requests|
      && (forall i :: 0 <= i < n ==> s'.requests[i].Left?)
      && s'.closers == s.closers && s'.closed == s.closed && s'.path == s.path
  {
    more := [];
    if n > 0 {
      more := RequestsCanLeave(s, n - 1);
      var last := RequestCanLeave(Run(s, more), n - 1);
      RunOn(s, more, last);
      more := more + last;
    }
  }

  /** The consumer can always work off what is queued. */
  lemma {:induction false} QueueCanDrain(s: State) returns (more: seq<Event>)
    requires Sound(s) && s.path.Queue?
    ensures var s' := Run(s, more);
      && Sound(s') && s'.queue == [] && s'.hand == []
      && s'.requests == s.requests && s'.closers == s.closers && s'.closed == s.closed && s'.path == s.path
      && s'.inflight == s.inflight && s'.accepting == s.accepting && s'.channelClosed == s.channelClosed
    decreases 2 * |s.queue| + |s.hand|
  {
    more := [];
    if s.queue != [] || s.hand != [] {
      var e := OfConsumer(if s.hand != [] then Add else Receive);
      StepIsSound(s, e);
      more := QueueCanDrain(Step(s, e));
      ThenRun(s, e, more);
      more := [e] + more;
    }
  }

  function MovesLeft(c: Closer): nat {
    match c
    case Called => 6
    case Polling => 5
    case Waiting => 4
    case Quiet => 4
    case ProducerDone => 3
    case Won => 2
    case Draining => 1
    case Returned(_, _) => 0
  }

  /** What a Shutdown call that has not returned does next when its time is up. */
  function MoveOf(c: Closer): CloserAction {
    match c
    case Called => StopAccepting
    case Polling => Poll
    case Waiting => PollTimeout
    case Quiet => CloseProducer
    case ProducerDone => Swap
    case Won => CloseChannel
    case _ => DrainTimeout
  }

  lemma WaiterGoesOn(s: State, k: nat)
    requires k < |s.closers| && (s.closers[k].Called? || s.closers[k].Polling? || s.closers[k].Waiting?)
    ensures var s' := CloserStep(s, k, MoveOf(s.closers[k]));
      |s'.closers| == |s.closers| && MovesLeft(s'.closers[k]) < MovesLeft(s.closers[k])
  {
  }

  lemma CloserGoesOn(s: State, k: nat)
    requires OneWinner(s) && k < |s.closers|
    requires !s.closers[k].Called? && !s.closers[k].Polling? && !s.closers[k].Waiting? && !s.closers[k].Returned?
    ensures var s' := CloserStep(s, k, MoveOf(s.closers[k]));
      |s'.closers| == |s.closers| && MovesLeft(s'.closers[k]) < MovesLeft(s.closers[k])
  {
  }

  lemma CallGoesOn(s: State, k: nat)
    requires OneWinner(s) && k < |s.closers| && !s.closers[k].Returned?
    ensures var s' := Step(s, OfCloser(k, MoveOf(s.closers[k])));
      |s'.closers| == |s.closers| && MovesLeft(s'.closers[k]) < MovesLeft(s.closers[k])
  {
    if s.closers[k].Called? || s.closers[k].Polling? || s.closers[k].Waiting? {
      WaiterGoesOn(s, k);
    } else {
      CloserGoesOn(s, k);
    }
  }

  lemma {:induction false} CallCanReturn(s: State, k: nat) returns (more: seq<Event>)
    requires Sound(s) && k < |s.closers|
    ensures |Run(s, more).closers| == |s.closers| && Run(s, more).closers[k].Returned?
    decreases MovesLeft(s.closers[k])
  {
    more := [];
    if !s.closers[k].Returned? {
      var e := OfCloser(k, MoveOf(s.closers[k]));
      CallGoesOn(s, k);
      StepIsSound(s, e);
      more := CallCanReturn(Step(s, e), k);
      ThenRun(s, e, more);
      more := [e] + more;
    }
  }

  /** Nor is any Shutdown call ever stuck: each can return, at the latest when its time is up. */
  lemma EveryCallCanReturn(path: Path, events: seq<Event>, k: nat)
    requires k < |Run(Started(path), events).closers|
    ensures exists more :: var s' := Run(Started(path), events + more); k < |s'.closers| && s'.closers[k].Returned?
  {
    EveryRunIsSound(path, events);
    var more := CallCanReturn(Run(Started(path), events), k);
    RunOn(Started(path), events, more);
  }

  /** With nobody in flight and nothing queued, a Shutdown call returns nil. */
  lemma QuietShutdown(s: State) returns (more: seq<Event>)
    requires Sound(s) && s.inflight == 0 && s.queue == [] && s.hand == []
    ensures var s' := Run(s, more);
      && s'.closers == s.closers + [Returned(true, !s.closed)]
      && s'.requests == s.requests && s'.queue == [] && s'.hand == [] && !s'.accepting
  {
    var k := |s.closers|;
    var s1 := Step(s, CallShutdown);
    assert s1 == s.(closers := s.closers + [Called]);
    var s2 := Step(s1, OfCloser(k, StopAccepting));
    assert s2 == s.(closers := s.closers + [Polling], accepting := false);
    var s3 := Step(s2, OfCloser(k, Poll));
    assert s3 == s.(closers := s.closers + [Quiet], accepting := false);
    more := QuietClose(s3, k);
    ThenRun(s2, OfCloser(k, Poll), more);
    ThenRun(s1, OfCloser(k, StopAccepting), [OfCloser(k, Poll)] + more);
    ThenRun(s, CallShutdown, [OfCloser(k, StopAccepting)] + ([OfCloser(k, Poll)] + more));
    more := [CallShutdown] + ([OfCloser(k, StopAccepting)] + ([OfCloser(k, Poll)] + more));
    assert s3.closers[k := Returned(true, !s.closed)] == s.closers + [Returned(true, !s.closed)];
  }

  lemma QuietClose(s: State, k: nat) returns (more: seq<Event>)
    requires k < |s.closers| && s.closers[k] == Quiet && s.queue == [] && s.hand == []
    requires s.channelClosed || s.consumerDone ==> s.closed
    ensures var s' := Run(s, more);
      && s'.closers == s.closers[k := Returned(true, !s.closed)]
      && s'.requests == s.requests && s'.queue == [] && s'.hand == [] && s'.accepting == s.accepting
  {
    var s1 := CloseProducerStep(s, k);
    var s2 := SwapStep(s1, k);
    assert Step(s, OfCloser(k, CloseProducer)) == s1 && Step(s1, OfCloser(k, Swap)) == s2;
    more := [];
    if !s.closed && s.path.Queue? {
      more := DrainedClose(s2, k);
    }
    ThenRun(s1, OfCloser(k, Swap), more);
    ThenRun(s, OfCloser(k, CloseProducer), [OfCloser(k, Swap)] + more);
    more := [OfCloser(k, CloseProducer)] + ([OfCloser(k, Swap)] + more);
  }

  lemma DrainedClose(s: State, k: nat) returns (more: seq<Event>)
    requires k < |s.closers| && s.closers[k] == Won && s.queue == [] && s.hand == []
    requires !s.channelClosed && !s.consumerDone && s.path.Queue?
    ensures var s' := Run(s, more);
      && s'.closers == s.closers[k := Returned(true, true)]
      && s'.requests == s.requests && s'.queue == [] && s'.hand == [] && s'.accepting == s.accepting
  {
    var s1 := Step(s, OfCloser(k, CloseChannel));
    var s2 := Step(s1, OfConsumer(Exit));
    RunOne(s2, OfCloser(k, SeeDrained));
    ThenRun(s1, OfConsumer(Exit), [OfCloser(k, SeeDrained)]);
    ThenRun(s, OfCloser(k, CloseChannel), [OfConsumer(Exit)] + [OfCloser(k, SeeDrained)]);
    more := [OfCloser(k, CloseChannel)] + ([OfConsumer(Exit)] + [OfCloser(k, SeeDrained)]);
  }

  /** Nothing is ever queued off the queue path, and on it what is queued can be worked off. */
  lemma CanEmpty(s: State) returns (more: seq<Event>)
    requires Sound(s) && AllEarned(s)
    ensures var s' := Run(s, more);
      && Sound(s') && s'.queue == [] && s'.hand == []
      && s'.requests == s.requests && s'.closers == s.closers && s'.closed == s.closed && s'.path == s.path
      && s'.inflight == s.inflight
  {
    more := [];
    if s.path.Queue? {
      more := QueueCanDrain(s);
    } else {
      forall i: nat ensures i !in Sends(s.log) {
        assert i < |s.requests| ==> Earned(s.path, i, s.requests[i], Own(s.log, i));
      }
      assert Attempts(s.log) + s.hand + s.queue == Attempts(s.log) + (s.hand + s.queue);
      FirstIsPart(Sends(s.log), Attempts(s.log), s.hand + s.queue);
    }
  }

  lemma FirstIsPart(all: seq<nat>, a: seq<nat>, b: seq<nat>)
    requires all == a + b
    ensures b != [] ==> b[0] in all
  {
    if b != [] {
      assert all[|a|] == b[0];
    }
  }

  /** From a state of some run, a run in which everyone leaves and the queue is worked off. */
  lemma CanCalmDown(s: State) returns (more: seq<Event>)
    requires Sound(s) && AllEarned(s)
    ensures var s' := Run(s, more);
      && Sound(s') && s'.inflight == 0 && s'.queue == [] && s'.hand == []
      && |s'.requests| == |s.requests| && (forall i :: 0 <= i < |s'.requests| ==> s'.requests[i].Left?)
      && s'.closers == s.closers && s'.closed == s.closed && s'.path == s.path
  {
    var finish := RequestsCanLeave(s, |s.requests|);
    var finished := Run(s, finish);
    RunKeepsEarned(s, finish);
    NoneCounted(finished.requests, InFlight);
    var drain := CanEmpty(finished);
    RunOn(s, finish, drain);
    more := finish + drain;
  }

  predicate StillWaits(c: Closer) {
    c.Called? || c.Polling? || c.Waiting?
  }

  /** With nobody in flight a call that waits gets past its wait. */
  lemma {:induction false} WaitCanEnd(s: State, k: nat) returns (more: seq<Event>)
    requires k < |s.closers| && s.inflight == 0 && StillWaits(s.closers[k])
    ensures var s' := Run(s, more);
      && s'.closers == s.closers[k := Quiet]
      && s' == s.(closers := s'.closers, accepting := s'.accepting)
    decreases if s.closers[k].Polling? then 0 else 1
  {
    var c := s.closers[k];
    var e := OfCloser(k, if c.Called? then StopAccepting else if c.Waiting? then SleepOn else Poll);
    RunOne(s, e);
    more := [e];
    if !c.Polling? {
      var rest := WaitCanEnd(Step(s, e), k);
      ThenRun(s, e, rest);
      more := [e] + rest;
    }
  }

  lemma {:induction false} RunKeepsEarned(s: State, events: seq<Event>)
    requires Sound(s) && AllEarned(s)
    ensures Sound(Run(s, events)) && AllEarned(Run(s, events))
  {
    if events != [] {
      RunKeepsEarned(s, events[..|events| - 1]);
      StepKeepsEarned(Run(s, events[..|events| - 1]), events[|events| - 1]);
      StepIsSound(Run(s, events[..|events| - 1]), events[|events| - 1]);
    }
  }

  /** No run is ever stuck: it can be continued so that every request has left, the queue is worked off, and one
      more Shutdown call has returned nil. */
  lemma EveryRunCanBeShutDown(path: Path, events: seq<Event>)
    ensures exists more ::
      var s, s' := Run(Started(path), events), Run(Started(path), events + more);
      && |s'.requests| == |s.requests| && (forall i :: 0 <= i < |s'.requests| ==> s'.requests[i].Left?)
      && s'.queue == [] && s'.hand == [] && s'.closers == s.closers + [Returned(true, !s.closed)]
  {
    var s := Run(Started(path), events);
    EveryRunIsSound(path, events);
    EveryReplyIsEarned(path, events);
    var calm := CanCalmDown(s);
    var close := QuietShutdown(Run(s, calm));
    RunOn(s, calm, close);
    RunOn(Started(path), events, calm + close);
  }

  lemma CallCanSucceed(s: State, k: nat) returns (more: seq<Event>)
    requires Sound(s) && AllEarned(s) && k < |s.closers| && StillWaits(s.closers[k])
    ensures var s' := Run(s, more);
      s'.queue == [] && s'.hand == [] && s'.closers == s.closers[k := Returned(true, !s.closed)]
  {
    var calm := CanCalmDown(s);
    var calmed := Run(s, calm);
    var wait := WaitCanEnd(calmed, k);
    var close := QuietClose(Run(calmed, wait), k);
    RunOn(calmed, wait, close);
    RunOn(s, calm, wait + close);
    more := calm + (wait + close);
  }

  /** A Shutdown call that waits is not given up either: each run can be continued so that this call returns nil. */
  lemma WaitingCallCanSucceed(path: Path, events: seq<Event>, k: nat)
    requires var s := Run(Started(path), events); k < |s.closers| && StillWaits(s.closers[k])
    ensures exists more ::
      var s, s' := Run(Started(path), events), Run(Started(path), events + more);
      s'.queue == [] && s'.hand == [] && s'.closers == s.closers[k := Returned(true, !s.closed)]
  {
    EveryRunIsSound(path, events);
    EveryReplyIsEarned(path, events);
    var more := CallCanSucceed(Run(Started(path), events), k);
    RunOn(Started(path), events, more);
  }
}
