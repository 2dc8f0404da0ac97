/** The danmaku service's accept / in-flight / close protocol and its asynchronous write queue, as a
    machine whose steps are the atomic actions of concurrent requests, concurrent Shutdown calls and the
    queue's one consumer. A list of events is one interleaving; an event that is not enabled changes nothing. */
module Shutdowns {
  import opened Counting

  /** How the service persists, fixed when it is built. */
  datatype Path = Kafka | Queue(capacity: nat) | Direct

  datatype Reply = Refused | Buffered | Persisted | QueueFull | Failed

  /** Where a request stands between its two changes of the in-flight counter. */
  datatype Request =
    | Arrived
    | Counted
    | Admitted
    | Producing
    | Decided(reply: Reply)
    | Left(reply: Reply)

  /** Where a Shutdown call stands. */
  datatype Closer =
    | Called
    | Polling
    | Waiting
    | Quiet
    | ProducerDone
    | Won
    | Draining
    | Returned(ok: bool, won: bool)

  /** What the outside world sees happen, in order; a request is named by its position. */
  datatype Effect =
    | ProduceStart(request: nat)
    | ProduceEnd(request: nat, ok: bool)
    | Wrote(request: nat, ok: bool)
    | ProducerClose
    | Sent(request: nat)
    | ChannelClose
    | Attempt(request: nat)
    | Panic

  datatype State = State(
    path: Path,
    accepting: bool,
    inflight: int,
    closed: bool,
    channelClosed: bool,
    queue: seq<nat>,
    hand: seq<nat>,
    consumerDone: bool,
    requests: seq<Request>,
    closers: seq<Closer>,
    log: seq<Effect>)

  datatype RequestAction = Count | ReadAccepting | FailCheck | Persist(ok: bool) | FinishProduce(ok: bool) | Leave

  datatype CloserAction =
    | StopAccepting
    | Poll
    | SleepOn
    | PollTimeout
    | CloseProducer
    | Swap
    | CloseChannel
    | SeeDrained
    | DrainTimeout

  datatype ConsumerAction = Receive | Add | Exit

  datatype Event =
    | Arrive
    | OfRequest(i: nat, act: RequestAction)
    | CallShutdown
    | OfCloser(k: nat, move: CloserAction)
    | OfConsumer(does: ConsumerAction)

  function Started(path: Path): State {
    State(path, true, 0, false, false, [], [], false, [], [], [])
  }

  function At(s: State, i: nat, r: Request): State
    requires i < |s.requests|
  {
    s.(requests := s.requests[i := r])
  }

  function CloserAt(s: State, k: nat, c: Closer): State
    requires k < |s.closers|
  {
    s.(closers := s.closers[k := c])
  }

  function Logged(s: State, e: Effect): State {
    s.(log := s.log + [e])
  }

  /** An admitted request hands its danmaku to the persistence path. Sending on a closed channel panics,
      also in a select that has a default. */
  function PersistStep(s: State, i: nat, ok: bool): State
    requires i < |s.requests|
  {
    match s.path
    case Kafka => Logged(At(s, i, Producing), ProduceStart(i))
    case Queue(capacity) =>
      if s.channelClosed then Logged(s, Panic)
      else if |s.queue| < capacity then Logged(At(s, i, Decided(Buffered)).(queue := s.queue + [i]), Sent(i))
      else At(s, i, Decided(QueueFull))
    case Direct => Logged(At(s, i, Decided(if ok then Persisted else Failed)), Wrote(i, ok))
  }

  function RequestStep(s: State, i: nat, a: RequestAction): State
    requires i < |s.requests|
  {
    match s.requests[i]
    case Arrived => if a.Count? then At(s, i, Counted).(inflight := s.inflight + 1) else s
    case Counted => if a.ReadAccepting? then At(s, i, if s.accepting then Admitted else Decided(Refused)) else s
    case Admitted =>
      if a.FailCheck? then At(s, i, Decided(Refused))
      else if a.Persist? then PersistStep(s, i, a.ok)
      else s
    case Producing =>
      if a.FinishProduce? then Logged(At(s, i, Decided(if a.ok then Persisted else Failed)), ProduceEnd(i, a.ok)) else s
    case Decided(reply) => if a.Leave? then At(s, i, Left(reply)).(inflight := s.inflight - 1) else s
    case Left(_) => s
  }

  /** One step of a Shutdown call. Only the call whose compare-and-swap succeeds closes the channel and
      waits for the consumer; a later one returns nil at once. */
  function CloserStep(s: State, k: nat, a: CloserAction): State
    requires k < |s.closers|
  {
    match s.closers[k]
    case Called => if a.StopAccepting? then CloserAt(s, k, Polling).(accepting := false) else s
    case Polling => if a.Poll? then CloserAt(s, k, if s.inflight > 0 then Waiting else Quiet) else s
    case Waiting =>
      if a.SleepOn? then CloserAt(s, k, Polling)
      else if a.PollTimeout? then CloserAt(s, k, Returned(false, false))
      else s
    case Quiet => if a.CloseProducer? then CloseProducerStep(s, k) else s
    case ProducerDone => if a.Swap? then SwapStep(s, k) else s
    case Won => if a.CloseChannel? then CloseChannelStep(s, k) else s
    case Draining =>
      if a.SeeDrained? && s.consumerDone then CloserAt(s, k, Returned(true, true))
      else if a.DrainTimeout? then CloserAt(s, k, Returned(false, true))
      else s
    case Returned(_, _) => s
  }

  function CloseProducerStep(s: State, k: nat): State
    requires k < |s.closers|
  {
    var s' := CloserAt(s, k, ProducerDone);
    if s.path.Kafka? then Logged(s', ProducerClose) else s'
  }

  function SwapStep(s: State, k: nat): State
    requires k < |s.closers|
  {
    if s.closed then CloserAt(s, k, Returned(true, false))
    else CloserAt(s, k, if s.path.Queue? then Won else Returned(true, true)).(closed := true)
  }

  function CloseChannelStep(s: State, k: nat): State
    requires k < |s.closers|
  {
    if s.channelClosed then Logged(s, Panic)
    else Logged(CloserAt(s, k, Draining).(channelClosed := true), ChannelClose)
  }

  /** The consumer takes one danmaku, attempts one store write whatever its outcome, and stops when the
      closed channel is empty. */
  function ConsumerStep(s: State, a: ConsumerAction): State {
    if !s.path.Queue? || s.consumerDone then s
    else if s.hand != [] then if a.Add? then Logged(s.(hand := []), Attempt(s.hand[0])) else s
    else if s.queue != [] then if a.Receive? then s.(hand := [s.queue[0]], queue := s.queue[1..]) else s
    else if a.Exit? && s.channelClosed then s.(consumerDone := true)
    else s
  }

  function Step(s: State, e: Event): State {
    match e
    case Arrive => s.(requests := s.requests + [Arrived])
    case OfRequest(i, a) => if i < |s.requests| then RequestStep(s, i, a) else s
    case CallShutdown => s.(closers := s.closers + [Called])
    case OfCloser(k, a) => if k < |s.closers| then CloserStep(s, k, a) else s
    case OfConsumer(a) => ConsumerStep(s, a)
  }

  function Run(s: State, events: seq<Event>): State {
    if events == [] then s else Step(Run(s, events[..|events| - 1]), events[|events| - 1])
  }

  // ----- What the log says -----

  /** The requests whose danmaku went into the channel, in sending order. */
  function Sends(log: seq<Effect>): seq<nat> {
    if log == [] then [] else
    var last := log[|log| - 1];
    Sends(log[..|log| - 1]) + if last.Sent? then [last.request] else []
  }

  /** The requests whose danmaku the consumer has tried to store, in order. */
  function Attempts(log: seq<Effect>): seq<nat> {
    if log == [] then [] else
    var last := log[|log| - 1];
    Attempts(log[..|log| - 1]) + if last.Attempt? then [last.request] else []
  }

  predicate Distinct(s: seq<nat>) {
    forall i, j :: 0 <= i < j < |s| ==> s[i] != s[j]
  }

  /** Nothing panics; after the channel is closed nothing is sent on it and it is not closed again; once
      the producer has been closed no Produce call starts, and none is still under way. */
  predicate OrderlyLog(log: seq<Effect>) {
    && Panic !in log
    && (forall i, j :: 0 <= i < j < |log| && log[i].ChannelClose? ==> !log[j].Sent? && !log[j].ChannelClose?)
    && (forall i, j :: 0 <= i < j < |log| && log[i].ProducerClose? ==> !log[j].ProduceStart? && !log[j].ProduceEnd?)
  }

  lemma LoggedSends(log: seq<Effect>, e: Effect)
    ensures Sends(log + [e]) == if e.Sent? then Sends(log) + [e.request] else Sends(log)
    ensures Attempts(log + [e]) == if e.Attempt? then Attempts(log) + [e.request] else Attempts(log)
  {
    assert (log + [e])[..|log|] == log;
  }

  // ----- The in-flight counter -----

  predicate InFlight(r: Request) {
    !r.Arrived? && !r.Left?
  }

  /** Has read the accepting flag as set, and may be about to write. */
  predicate Working(r: Request) {
    r.Admitted? || r.Producing?
  }

  /** A zero counter means nobody is between its two changes. */
  lemma {:induction false} NobodyInFlight(requests: seq<Request>, i: nat)
    requires CountIf(requests, InFlight) == 0 && i < |requests|
    ensures !InFlight(requests[i])
  {
    if i > 0 {
      NobodyInFlight(requests[1..], i - 1);
    }
  }

  ghost predicate Balanced(s: State) {
    s.inflight == CountIf(s.requests, InFlight)
  }

  /** A request's step touches its own position, and logs at most one thing. */
  lemma RequestMoves(s: State, i: nat, a: RequestAction)
    requires i < |s.requests|
    ensures var s' := RequestStep(s, i, a);
      && |s'.requests| == |s.requests| && s'.requests == s.requests[i := s'.requests[i]]
      && s'.closers == s.closers && s'.accepting == s.accepting && s'.channelClosed == s.channelClosed
      && s'.closed == s.closed && s'.path == s.path && s'.hand == s.hand && s'.consumerDone == s.consumerDone
  {
    assert s.requests == s.requests[i := s.requests[i]];
    if s.requests[i].Admitted? && a.Persist? {
      PersistMoves(s, i, a.ok);
    }
  }

  lemma PersistMoves(s: State, i: nat, ok: bool)
    requires i < |s.requests| && s.requests[i].Admitted?
    ensures var s' := PersistStep(s, i, ok);
      && |s'.requests| == |s.requests| && s'.requests == s.requests[i := s'.requests[i]]
      && s'.closers == s.closers && s'.accepting == s.accepting && s'.channelClosed == s.channelClosed
      && s'.closed == s.closed && s'.path == s.path && s'.hand == s.hand && s'.consumerDone == s.consumerDone
  {
    assert s.requests == s.requests[i := s.requests[i]];
  }

  lemma PersistLeavesCounter(s: State, i: nat, ok: bool)
    requires i < |s.requests| && s.requests[i].Admitted?
    ensures var s' := PersistStep(s, i, ok);
      |s'.requests| == |s.requests| && s'.inflight == s.inflight && InFlight(s'.requests[i])
  {
  }

  lemma RequestMovesCounter(s: State, i: nat, a: RequestAction)
    requires i < |s.requests|
    ensures var s' := RequestStep(s, i, a);
      && |s'.requests| == |s.requests|
      && s'.inflight == s.inflight
         + (if InFlight(s'.requests[i]) then 1 else 0) - (if InFlight(s.requests[i]) then 1 else 0)
  {
    if s.requests[i].Admitted? && a.Persist? {
      PersistLeavesCounter(s, i, a.ok);
    }
  }

  lemma CloserLeavesRequests(s: State, k: nat, a: CloserAction)
    requires k < |s.closers|
    ensures var s' := CloserStep(s, k, a);
      && s'.requests == s.requests && s'.inflight == s.inflight && s'.path == s.path
      && s'.hand == s.hand && s'.queue == s.queue && s'.consumerDone == s.consumerDone
  {
  }

  lemma StepKeepsBalance(s: State, e: Event)
    requires Balanced(s)
    ensures Balanced(Step(s, e))
  {
    if e.Arrive? {
      CountAfterAppend(s.requests, Arrived, InFlight);
    } else if e.OfRequest? {
      if e.i < |s.requests| {
        RequestMoves(s, e.i, e.act);
        RequestMovesCounter(s, e.i, e.act);
        CountAfterUpdate(s.requests, e.i, Step(s, e).requests[e.i], InFlight);
      }
    } else if e.OfCloser? && e.k < |s.closers| {
      CloserLeavesRequests(s, e.k, e.move);
    }
  }

  predicate SaidBuffered(r: Request) {
    (r.Decided? || r.Left?) && r.reply == Buffered
  }

  // ----- Calm: no request can write any more -----

  predicate PastPoll(c: Closer) {
    c.Quiet? || c.ProducerDone? || c.Won? || c.Draining? || (c.Returned? && (c.ok || c.won))
  }

  ghost predicate Calm(s: State) {
    !s.accepting && forall i :: 0 <= i < |s.requests| ==> !Working(s.requests[i])
  }

  /** A Shutdown call touches its own position; it gets past the poll only by reading a zero counter. */
  lemma CloserMoves(s: State, k: nat, a: CloserAction)
    requires k < |s.closers|
    ensures var s' := CloserStep(s, k, a);
      && |s'.closers| == |s.closers| && s'.closers == s.closers[k := s'.closers[k]]
      && (s'.accepting == s.accepting || !s'.accepting)
      && (!s'.closers[k].Called? ==> s.closers[k] != Called || !s'.accepting)
      && (PastPoll(s'.closers[k]) ==> PastPoll(s.closers[k]) || (s.closers[k].Polling? && s.inflight <= 0))
      && (s'.channelClosed ==> s.channelClosed || s.closers[k].Won?)
  {
    assert s.closers == s.closers[k := s.closers[k]];
  }

  lemma RequestsStayCalm(s: State, i: nat, a: RequestAction)
    requires i < |s.requests| && !s.accepting && !Working(s.requests[i])
    ensures !Working(RequestStep(s, i, a).requests[i]) && RequestStep(s, i, a).log == s.log
  {
  }

  /** Once calm, always calm: a request that counts itself later reads a false flag. */
  lemma CalmStays(s: State, e: Event)
    requires Calm(s)
    ensures Calm(Step(s, e))
  {
    match e
    case Arrive =>
    case CallShutdown =>
    case OfConsumer(_) =>
    case OfRequest(i, a) =>
      if i < |s.requests| {
        RequestMoves(s, i, a);
        RequestsStayCalm(s, i, a);
      }
    case OfCloser(k, a) =>
      if k < |s.closers| {
        CloserLeavesRequests(s, k, a);
        CloserMoves(s, k, a);
      }
  }

  ghost predicate ClosersAreCareful(s: State) {
    && (forall k :: 0 <= k < |s.closers| && !s.closers[k].Called? ==> !s.accepting)
    && (forall k :: 0 <= k < |s.closers| && PastPoll(s.closers[k]) ==> Calm(s))
    && (s.channelClosed ==> Calm(s))
    && (ProducerClose in s.log ==> Calm(s))
  }

  /** A call that reads a zero counter after clearing the flag finds no request that can write. */
  lemma ZeroMeansCalm(s: State)
    requires Balanced(s) && s.inflight <= 0 && !s.accepting
    ensures Calm(s)
  {
    forall i: nat | i < |s.requests| ensures !InFlight(s.requests[i]) {
      NobodyInFlight(s.requests, i);
    }
  }

  lemma CloserLogs(s: State, k: nat, a: CloserAction)
    requires k < |s.closers|
    ensures var s' := CloserStep(s, k, a);
      s'.log == s.log
      || (s'.log == s.log + [ProducerClose] && s.closers[k].Quiet?)
      || (s'.log == s.log + [ChannelClose] && s.closers[k].Won? && !s.channelClosed && s'.channelClosed)
      || (s'.log == s.log + [Panic] && s.closers[k].Won? && s.channelClosed)
  {
  }

  /** What a request's step adds to the log and the queue: only a working request adds anything, and a
      danmaku goes into the queue exactly when it is acknowledged as buffered. */
  lemma RequestLogs(s: State, i: nat, a: RequestAction)
    requires i < |s.requests|
    ensures var s' := RequestStep(s, i, a);
      if |s'.log| > |s.log| && s'.log[|s.log|].Sent? then
        && Working(s.requests[i]) && s'.log == s.log + [Sent(i)] && !s.channelClosed
        && s'.queue == s.queue + [i] && s.path.Queue? && |s.queue| < s.path.capacity
        && s'.requests[i] == Decided(Buffered)
      else
        && s'.queue == s.queue && SaidBuffered(s'.requests[i]) == SaidBuffered(s.requests[i])
        && (s'.log == s.log
            || (Working(s.requests[i]) && s'.log == s.log + [ProduceStart(i)])
            || (Working(s.requests[i]) && exists ok :: s'.log == s.log + [ProduceEnd(i, ok)])
            || (Working(s.requests[i]) && exists ok :: s'.log == s.log + [Wrote(i, ok)])
            || (Working(s.requests[i]) && s'.log == s.log + [Panic] && s.channelClosed))
  {
    RequestMoves(s, i, a);
  }

  lemma StepKeepsCare(s: State, e: Event)
    requires Balanced(s) && ClosersAreCareful(s)
    ensures ClosersAreCareful(Step(s, e))
  {
    if Calm(s) {
      CalmStays(s, e);
      CalmAllowsAnything(Step(s, e));
    } else {
      match e
      case Arrive =>
      case CallShutdown =>
      case OfConsumer(_) =>
      case OfRequest(i, a) =>
        if i < |s.requests| {
          RequestMoves(s, i, a);
          RequestLogs(s, i, a);
        }
      case OfCloser(k, a) =>
        if k < |s.closers| {
          CloserStepKeepsCare(s, k, a);
        }
    }
  }

  lemma CalmAllowsAnything(s: State)
    requires Calm(s)
    ensures ClosersAreCareful(s)
  {
  }

  lemma CloserStepKeepsCare(s: State, k: nat, a: CloserAction)
    requires Balanced(s) && ClosersAreCareful(s) && !Calm(s) && k < |s.closers|
    ensures ClosersAreCareful(CloserStep(s, k, a))
  {
    CloserMoves(s, k, a);
    CloserLogs(s, k, a);
    CloserLeavesRequests(s, k, a);
    if s.closers[k].Polling? && s.inflight <= 0 {
      ZeroMeansCalm(s);
    }
  }

  // ----- One Shutdown call wins, and only it closes the channel -----

  predicate IsWinner(c: Closer) {
    c.Won? || c.Draining? || (c.Returned? && c.won)
  }

  ghost predicate OneWinner(s: State) {
    && (forall j, k :: 0 <= j < k < |s.closers| ==> !IsWinner(s.closers[j]) || !IsWinner(s.closers[k]))
    && (forall k :: 0 <= k < |s.closers| && IsWinner(s.closers[k]) ==> s.closed)
    && (s.channelClosed ==> s.closed)
    && (forall k :: 0 <= k < |s.closers| && s.closers[k].Won? ==> !s.channelClosed)
    && (s.channelClosed <==> ChannelClose in s.log)
  }

  lemma CloserWins(s: State, k: nat, a: CloserAction)
    requires k < |s.closers|
    ensures var s' := CloserStep(s, k, a);
      && (IsWinner(s'.closers[k]) && !IsWinner(s.closers[k]) ==> s'.closed && !s.closed)
      && (s.closed ==> s'.closed)
      && (s'.closers[k].Won? && !s.closers[k].Won? ==> !s.closed && s'.channelClosed == s.channelClosed)
      && (s'.closers[k].Won? && s.closers[k].Won? ==> s'.channelClosed == s.channelClosed)
  {
  }

  lemma CloserKeepsOneWinner(s: State, k: nat, a: CloserAction)
    requires OneWinner(s) && k < |s.closers|
    ensures OneWinner(CloserStep(s, k, a))
  {
    CloserMoves(s, k, a);
    CloserLogs(s, k, a);
    CloserWins(s, k, a);
  }

  lemma RequestKeepsOneWinner(s: State, i: nat, a: RequestAction)
    requires OneWinner(s) && i < |s.requests|
    ensures OneWinner(RequestStep(s, i, a))
  {
    RequestMoves(s, i, a);
    RequestLogs(s, i, a);
  }

  lemma StepKeepsOneWinner(s: State, e: Event)
    requires OneWinner(s)
    ensures OneWinner(Step(s, e))
  {
    match e
    case Arrive =>
    case CallShutdown =>
    case OfConsumer(_) =>
    case OfRequest(i, a) =>
      if i < |s.requests| {
        RequestKeepsOneWinner(s, i, a);
      }
    case OfCloser(k, a) =>
      if k < |s.closers| {
        CloserKeepsOneWinner(s, k, a);
      }
  }

  /** What may be appended to an orderly log. */
  lemma OrderlyAfter(log: seq<Effect>, e: Effect)
    requires OrderlyLog(log) && e != Panic
    requires ChannelClose in log ==> !e.Sent? && !e.ChannelClose?
    requires ProducerClose in log ==> !e.ProduceStart? && !e.ProduceEnd?
    ensures OrderlyLog(log + [e])
  {
  }

  lemma StepKeepsOrder(s: State, e: Event)
    requires OrderlyLog(s.log) && ClosersAreCareful(s) && OneWinner(s)
    ensures OrderlyLog(Step(s, e).log)
  {
    var log' := Step(s, e).log;
    match e
    case Arrive =>
    case CallShutdown =>
    case OfConsumer(a) =>
      if log' != s.log {
        OrderlyAfter(s.log, Attempt(s.hand[0]));
      }
    case OfRequest(i, a) =>
      if i < |s.requests| && log' != s.log {
        RequestLogs(s, i, a);
        OrderlyAfter(s.log, log'[|s.log|]);
      }
    case OfCloser(k, a) =>
      if k < |s.closers| && log' != s.log {
        CloserLogs(s, k, a);
        OrderlyAfter(s.log, log'[|s.log|]);
      }
  }

  // ----- The queue -----

  /** The danmakus tried, in the consumer's hand and queued, read in this order, are the sending order. */
  ghost predicate Conserved(s: State) {
    && Sends(s.log) == Attempts(s.log) + s.hand + s.queue
    && |s.hand| <= 1
    && (s.path.Queue? ==> |s.queue| <= s.path.capacity)
  }

  /** What has been sent is exactly what has been acknowledged as buffered, each once. */
  ghost predicate Acknowledged(sends: seq<nat>, requests: seq<Request>) {
    && Distinct(sends)
    && (forall i :: i in sends <==> 0 <= i < |requests| && SaidBuffered(requests[i]))
  }

  lemma OneMoreAcknowledged(sends: seq<nat>, requests: seq<Request>, i: nat, r: Request)
    requires Acknowledged(sends, requests) && i < |requests|
    ensures SaidBuffered(r) == SaidBuffered(requests[i]) ==> Acknowledged(sends, requests[i := r])
    ensures SaidBuffered(r) && !SaidBuffered(requests[i]) ==> Acknowledged(sends + [i], requests[i := r])
  {
  }

  lemma OneMoreArrived(sends: seq<nat>, requests: seq<Request>)
    requires Acknowledged(sends, requests)
    ensures Acknowledged(sends, requests + [Arrived])
  {
    assert !SaidBuffered(Arrived);
  }

  /** The consumer moves danmakus along without reordering them. */
  lemma ConsumerMoves(s: State, a: ConsumerAction)
    requires |s.hand| <= 1
    ensures var s' := ConsumerStep(s, a);
      && s'.path == s.path && s'.requests == s.requests && |s'.hand| <= 1 && |s'.queue| <= |s.queue|
      && (if s'.log == s.log then s'.hand + s'.queue == s.hand + s.queue
          else
            && s.hand != [] && s'.log == s.log + [Attempt(s.hand[0])]
            && [s.hand[0]] + s'.hand + s'.queue == s.hand + s.queue)
  {
    if s.hand != [] {
      assert s.hand == [s.hand[0]];
    } else if s.queue != [] {
      assert s.queue == [s.queue[0]] + s.queue[1..];
    }
  }

  lemma ConsumerKeepsConservation(s: State, a: ConsumerAction)
    requires Conserved(s)
    ensures Conserved(ConsumerStep(s, a)) && Sends(ConsumerStep(s, a).log) == Sends(s.log)
  {
    ConsumerMoves(s, a);
    var s' := ConsumerStep(s, a);
    Together(Attempts(s.log), s.hand, s.queue, [], s'.hand, s'.queue);
    if s'.log != s.log {
      LoggedSends(s.log, Attempt(s.hand[0]));
      Together(Attempts(s.log), s.hand, s.queue, [s.hand[0]], s'.hand, s'.queue);
    }
  }

  lemma Together(done: seq<nat>, hand: seq<nat>, queue: seq<nat>, next: seq<nat>, hand': seq<nat>, queue': seq<nat>)
    ensures next + hand' + queue' == hand + queue ==> done + next + hand' + queue' == done + hand + queue
  {
    assert done + next + hand' + queue' == done + (next + hand' + queue');
    assert done + hand + queue == done + (hand + queue);
  }

  lemma RequestKeepsConservation(s: State, i: nat, a: RequestAction)
    requires Conserved(s) && i < |s.requests|
    ensures var s' := RequestStep(s, i, a);
      && Conserved(s')
      && Sends(s'.log) == if |s'.log| > |s.log| && s'.log[|s.log|].Sent? then Sends(s.log) + [i] else Sends(s.log)
  {
    var s' := RequestStep(s, i, a);
    RequestMoves(s, i, a);
    RequestLogs(s, i, a);
    if s'.log != s.log {
      LoggedSends(s.log, s'.log[|s.log|]);
    }
  }

  lemma CloserKeepsConservation(s: State, k: nat, a: CloserAction)
    requires Conserved(s) && k < |s.closers|
    ensures Conserved(CloserStep(s, k, a)) && Sends(CloserStep(s, k, a).log) == Sends(s.log)
  {
    var s' := CloserStep(s, k, a);
    CloserLeavesRequests(s, k, a);
    CloserLogs(s, k, a);
    if s'.log != s.log {
      LoggedSends(s.log, s'.log[|s.log|]);
    }
  }

  lemma StepKeepsConservation(s: State, e: Event)
    requires Conserved(s)
    ensures Conserved(Step(s, e))
  {
    match e
    case Arrive =>
    case CallShutdown =>
    case OfRequest(i, a) => if i < |s.requests| { RequestKeepsConservation(s, i, a); }
    case OfCloser(k, a) => if k < |s.closers| { CloserKeepsConservation(s, k, a); }
    case OfConsumer(a) => ConsumerKeepsConservation(s, a);
  }

  lemma RequestKeepsAcknowledged(s: State, i: nat, a: RequestAction)
    requires Acknowledged(Sends(s.log), s.requests) && Conserved(s) && i < |s.requests|
    ensures Acknowledged(Sends(RequestStep(s, i, a).log), RequestStep(s, i, a).requests)
  {
    RequestMoves(s, i, a);
    RequestLogs(s, i, a);
    RequestKeepsConservation(s, i, a);
    OneMoreAcknowledged(Sends(s.log), s.requests, i, RequestStep(s, i, a).requests[i]);
  }

  lemma StepKeepsAcknowledged(s: State, e: Event)
    requires Acknowledged(Sends(s.log), s.requests) && Conserved(s)
    ensures Acknowledged(Sends(Step(s, e).log), Step(s, e).requests)
  {
    match e
    case Arrive => OneMoreArrived(Sends(s.log), s.requests);
    case CallShutdown =>
    case OfRequest(i, a) =>
      if i < |s.requests| {
        RequestKeepsAcknowledged(s, i, a);
      }
    case OfCloser(k, a) =>
      if k < |s.closers| {
        CloserLeavesRequests(s, k, a);
        CloserKeepsConservation(s, k, a);
      }
    case OfConsumer(a) =>
      ConsumerMoves(s, a);
      ConsumerKeepsConservation(s, a);
  }

  /** The consumer has stopped only at the end of a closed, empty queue; the winning call's nil says so. */
  ghost predicate DrainedMeansDone(s: State) {
    && (s.consumerDone ==> s.channelClosed && s.queue == [] && s.hand == [])
    && (forall k :: 0 <= k < |s.closers| && s.closers[k] == Returned(true, true) && s.path.Queue? ==> s.consumerDone)
  }

  lemma CloserDrains(s: State, k: nat, a: CloserAction)
    requires k < |s.closers|
    ensures var s' := CloserStep(s, k, a);
      && (s.channelClosed ==> s'.channelClosed)
      && (s'.closers[k] == Returned(true, true) && s.path.Queue? ==>
          s.consumerDone || s.closers[k] == Returned(true, true))
  {
  }

  lemma StepKeepsDrain(s: State, e: Event)
    requires DrainedMeansDone(s) && ClosersAreCareful(s)
    ensures DrainedMeansDone(Step(s, e))
  {
    match e
    case Arrive =>
    case CallShutdown =>
    case OfConsumer(_) =>
    case OfRequest(i, a) =>
      if i < |s.requests| {
        RequestMoves(s, i, a);
        RequestLogs(s, i, a);
      }
    case OfCloser(k, a) =>
      if k < |s.closers| {
        CloserMoves(s, k, a);
        CloserLeavesRequests(s, k, a);
        CloserDrains(s, k, a);
      }
  }

  // ----- Over every run -----

  ghost predicate Sound(s: State) {
    && Balanced(s) && ClosersAreCareful(s) && OneWinner(s) && OrderlyLog(s.log)
    && Conserved(s) && Acknowledged(Sends(s.log), s.requests) && DrainedMeansDone(s)
  }

  lemma StepIsSound(s: State, e: Event)
    requires Sound(s)
    ensures Sound(Step(s, e)) && Step(s, e).path == s.path
  {
    StepKeepsBalance(s, e);
    StepKeepsCare(s, e);
    StepKeepsOneWinner(s, e);
    StepKeepsOrder(s, e);
    StepKeepsConservation(s, e);
    StepKeepsAcknowledged(s, e);
    StepKeepsDrain(s, e);
    StepKeepsPath(s, e);
  }

  lemma StepKeepsPath(s: State, e: Event)
    ensures Step(s, e).path == s.path
  {
    if e.OfRequest? && e.i < |s.requests| {
      RequestMoves(s, e.i, e.act);
    }
  }

  lemma {:induction false} EveryRunIsSound(path: Path, events: seq<Event>)
    ensures Sound(Run(Started(path), events)) && Run(Started(path), events).path == path
  {
    if events != [] {
      EveryRunIsSound(path, events[..|events| - 1]);
      StepIsSound(Run(Started(path), events[..|events| - 1]), events[|events| - 1]);
    }
  }

  /** Whatever the interleaving and however many Shutdown calls: no panic, no send on the closed channel,
      one close of it, no Produce call at or after the producer's close. */
  lemma NoWriteAfterClose(path: Path, events: seq<Event>)
    ensures OrderlyLog(Run(Started(path), events).log)
  {
    EveryRunIsSound(path, events);
  }

  /** Acknowledged danmakus are conserved: the store has been tried with the first few of them, in the
      order they were sent; the rest are in the consumer's hand or the queue, and nothing is in two places. */
  lemma BufferedIsConserved(path: Path, events: seq<Event>)
    ensures var s := Run(Started(path), events);
      && Sends(s.log) == Attempts(s.log) + s.hand + s.queue
      && Distinct(Attempts(s.log) + s.hand + s.queue)
      && (forall i :: i in Attempts(s.log) + s.hand + s.queue <==> 0 <= i < |s.requests| && SaidBuffered(s.requests[i]))
  {
    EveryRunIsSound(path, events);
  }

  /** When the Shutdown call that closed the channel has returned nil, each acknowledged danmaku has had
      exactly one write attempt, in sending order, and nothing else has. */
  lemma NilMeansDrained(capacity: nat, events: seq<Event>, k: nat)
    requires var s := Run(Started(Queue(capacity)), events);
      k < |s.closers| && s.closers[k] == Returned(true, true)
    ensures var s := Run(Started(Queue(capacity)), events);
      && Attempts(s.log) == Sends(s.log) && Distinct(Attempts(s.log))
      && (forall i :: i in Attempts(s.log) <==> 0 <= i < |s.requests| && SaidBuffered(s.requests[i]))
  {
    EveryRunIsSound(Queue(capacity), events);
  }

  // ----- What several Shutdown calls do not give -----

  predicate IsProducerClose(e: Effect) {
    e.ProducerClose?
  }

  /** The call has been past the producer's close. */
  predicate BeyondProducer(c: Closer) {
    c.ProducerDone? || c.Won? || c.Draining? || (c.Returned? && (c.ok || c.won))
  }

  /** A call moves past the producer's close by no step but the one that closes it. */
  lemma CloserTouchesProducer(s: State, k: nat, a: CloserAction)
    requires k < |s.closers| && !(s.closers[k].Quiet? && a.CloseProducer?)
    ensures |CloserStep(s, k, a).closers| == |s.closers|
    ensures BeyondProducer(CloserStep(s, k, a).closers[k]) == BeyondProducer(s.closers[k])
  {
  }

  lemma ClosingTheProducer(s: State, k: nat)
    requires k < |s.closers| && s.path.Kafka?
    ensures var s' := CloseProducerStep(s, k);
      s'.closers == s.closers[k := ProducerDone] && s'.log == s.log + [ProducerClose]
  {
  }

  lemma OthersLogNoClose(s: State, k: nat, a: CloserAction)
    requires k < |s.closers| && !(s.closers[k].Quiet? && a.CloseProducer?)
    ensures var s' := CloserStep(s, k, a);
      || s'.log == s.log
      || (|s'.log| == |s.log| + 1 && s'.log == s.log + [s'.log[|s.log|]] && !s'.log[|s.log|].ProducerClose?)
  {
  }

  lemma CloserCountsCloses(s: State, k: nat, a: CloserAction)
    requires k < |s.closers| && s.path.Kafka?
    requires CountIf(s.log, IsProducerClose) == CountIf(s.closers, BeyondProducer)
    ensures CountIf(CloserStep(s, k, a).log, IsProducerClose) == CountIf(CloserStep(s, k, a).closers, BeyondProducer)
  {
    var s' := CloserStep(s, k, a);
    CloserMoves(s, k, a);
    CountAfterUpdate(s.closers, k, s'.closers[k], BeyondProducer);
    if s.closers[k].Quiet? && a.CloseProducer? {
      ClosingTheProducer(s, k);
      CountAfterAppend(s.log, ProducerClose, IsProducerClose);
    } else {
      CloserTouchesProducer(s, k, a);
      OthersLogNoClose(s, k, a);
      if s'.log != s.log {
        CountAfterAppend(s.log, s'.log[|s.log|], IsProducerClose);
      }
    }
  }

  lemma StepCountsCloses(s: State, e: Event)
    requires s.path.Kafka? && CountIf(s.log, IsProducerClose) == CountIf(s.closers, BeyondProducer)
    ensures CountIf(Step(s, e).log, IsProducerClose) == CountIf(Step(s, e).closers, BeyondProducer)
  {
    var s' := Step(s, e);
    match e
    case Arrive =>
    case CallShutdown => CountAfterAppend(s.closers, Called, BeyondProducer);
    case OfConsumer(_) =>
    case OfRequest(i, a) =>
      if i < |s.requests| {
        RequestMoves(s, i, a);
        RequestLogs(s, i, a);
        if s'.log != s.log {
          CountAfterAppend(s.log, s'.log[|s.log|], IsProducerClose);
        }
      }
    case OfCloser(k, a) =>
      if k < |s.closers| {
        CloserCountsCloses(s, k, a);
      }
  }

  /** The Kafka producer is closed once for every Shutdown call that saw the in-flight counter at zero:
      so at most once exactly when at most one call did. */
  lemma {:induction false} ProducerClosedByEveryCall(events: seq<Event>)
    ensures var s := Run(Started(Kafka), events); CountIf(s.log, IsProducerClose) == CountIf(s.closers, BeyondProducer)
  {
    if events != [] {
      var before := Run(Started(Kafka), events[..|events| - 1]);
      ProducerClosedByEveryCall(events[..|events| - 1]);
      EveryRunIsSound(Kafka, events[..|events| - 1]);
      StepCountsCloses(before, events[|events| - 1]);
    }
  }

  /** One more event of a run whose state so far is known. */
  lemma Then(path: Path, events: seq<Event>, s: State, e: Event) returns (more: seq<Event>)
    requires Run(Started(path), events) == s
    ensures Run(Started(path), more) == Step(s, e)
  {
    more := events + [e];
    assert more[..|events|] == events;
  }

  /** Two Shutdown calls close the producer twice. */
  lemma ProducerCanBeClosedTwice()
    ensures exists events :: Run(Started(Kafka), events).log == [ProducerClose, ProducerClose]
  {
    var s := Started(Kafka).(accepting := false, closers := [Quiet, Quiet]);
    var events := TwoPastPoll(Kafka, [], Started(Kafka));
    events := Then(Kafka, events, s, OfCloser(0, CloseProducer));
    events := Then(Kafka, events, s.(closers := [ProducerDone, Quiet], log := [ProducerClose]),
      OfCloser(1, CloseProducer));
  }

  /** A Shutdown call that loses the compare-and-swap can return nil with a danmaku still queued. */
  lemma NilWithoutDrain(capacity: nat)
    requires capacity > 0
    ensures exists events ::
      var s := Run(Started(Queue(capacity)), events); s.closers == [Won, Returned(true, false)] && s.queue == [0]
  {
    var path := Queue(capacity);
    var events, queued := OneBuffered(capacity);
    events := TwoPastPoll(path, events, queued);
    var s := queued.(accepting := false, closers := [Quiet, Quiet]);
    events := Then(path, events, s, OfCloser(0, CloseProducer));
    s := s.(closers := [ProducerDone, Quiet]);
    events := Then(path, events, s, OfCloser(1, CloseProducer));
    s := s.(closers := [ProducerDone, ProducerDone]);
    events := Then(path, events, s, OfCloser(0, Swap));
    s := s.(closers := [Won, ProducerDone], closed := true);
    events := Then(path, events, s, OfCloser(1, Swap));
    assert Run(Started(path), events) == s.(closers := [Won, Returned(true, false)]);
  }

  ghost predicate NilMeansEmpty(capacity: nat, events: seq<Event>, won: bool) {
    var s := Run(Started(Queue(capacity)), events);
    Returned(true, won) in s.closers ==> s.queue == [] && s.hand == []
  }

  /** So a nil from Shutdown promises an empty queue exactly to the call that won the compare-and-swap. */
  lemma NilPromisesDrainIffWon(capacity: nat, won: bool)
    requires capacity > 0
    ensures (forall events :: NilMeansEmpty(capacity, events, won)) <==> won
  {
    if won {
      forall events ensures NilMeansEmpty(capacity, events, true) {
        EveryRunIsSound(Queue(capacity), events);
      }
    } else {
      NilWithoutDrain(capacity);
      var events :| var s := Run(Started(Queue(capacity)), events);
        s.closers == [Won, Returned(true, false)] && s.queue == [0];
      assert Run(Started(Queue(capacity)), events).closers[1] == Returned(true, false);
      assert !NilMeansEmpty(capacity, events, false);
    }
  }

  /** A run in which one request has been acknowledged as buffered. */
  lemma OneBuffered(capacity: nat) returns (events: seq<Event>, s: State)
    requires capacity > 0
    ensures s == Started(Queue(capacity)).(requests := [Left(Buffered)], queue := [0], log := [Sent(0)])
    ensures Run(Started(Queue(capacity)), events) == s
  {
    var path := Queue(capacity);
    s := Started(path);
    events := Then(path, [], s, Arrive);
    s := s.(requests := [Arrived]);
    events := Then(path, events, s, OfRequest(0, Count));
    s := s.(requests := [Counted], inflight := 1);
    events := Then(path, events, s, OfRequest(0, ReadAccepting));
    s := s.(requests := [Admitted]);
    events := Then(path, events, s, OfRequest(0, Persist(true)));
    s := s.(requests := [Decided(Buffered)], queue := [0], log := [Sent(0)]);
    events := Then(path, events, s, OfRequest(0, Leave));
    s := s.(requests := [Left(Buffered)], inflight := 0);
  }

  /** From a state with nobody in flight, events that bring two Shutdown calls past the wait for requests. */
  lemma TwoPastPoll(path: Path, before: seq<Event>, start: State) returns (events: seq<Event>)
    requires Run(Started(path), before) == start && start.closers == [] && start.inflight == 0
    ensures Run(Started(path), events) == start.(accepting := false, closers := [Quiet, Quiet])
  {
    events := TwoCalls(path, before, start);
    var s := start.(closers := [Called, Called]);
    events := Then(path, events, s, OfCloser(0, StopAccepting));
    s := s.(closers := [Polling, Called], accepting := false);
    events := Then(path, events, s, OfCloser(1, StopAccepting));
    s := s.(closers := [Polling, Polling]);
    events := Then(path, events, s, OfCloser(0, Poll));
    s := s.(closers := [Quiet, Polling]);
    events := Then(path, events, s, OfCloser(1, Poll));
  }

  lemma TwoCalls(path: Path, before: seq<Event>, start: State) returns (events: seq<Event>)
    requires Run(Started(path), before) == start && start.closers == []
    ensures Run(Started(path), events) == start.(closers := [Called, Called])
  {
    events := Then(path, before, start, CallShutdown);
    events := Then(path, events, start.(closers := [Called]), CallShutdown);
  }
}
