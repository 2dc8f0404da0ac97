/** Fan-out across instances: each instance broadcasts locally and publishes to Redis; each receives what the
    others publish, drops what carries its own source ID, and broadcasts the rest locally only. Redis may lose
    a message for any subscriber, but delivers each publish at most once to each. */
module Fanouts {
  import opened Counting

  /** One BroadcastToRoom call, as it travels; `call` tells apart calls with the same payload. */
  datatype Job = Job(room: string, call: nat)

  datatype Message = Message(source: string, job: Job)

  const PUBLISH_BUFFER := 256

  /** `jobs` is the publish channel, `inbox` what Redis has yet to hand over, `channel` what passed the
      source filter, and `entered` everything ever put on this instance's room queues. */
  datatype Instance = Instance(
    shuttingDown: bool,
    rooms: set<string>,
    jobs: seq<Job>,
    inbox: seq<Message>,
    channel: seq<Message>,
    entered: seq<Job>)

  datatype Call = Call(instance: nat, room: string)

  /** `ids` are the instance IDs, `published` the publishes made so far. */
  datatype State = State(ids: seq<string>, instances: seq<Instance>, calls: seq<Call>, published: seq<Job>)

  datatype Event =
    | Broadcast(k: nat, room: string, roomFull: bool)
    | Publish(k: nat, reaches: set<nat>)
    | Receive(k: nat)
    | BroadcastLocal(k: nat, roomFull: bool)
    | Reconnect(k: nat)
    | OpenRoom(k: nat, room: string)
    | CloseRoom(k: nat, room: string)
    | ShutDown(k: nat)

  function Started(ids: seq<string>): State {
    State(ids, seq(|ids|, _ => Instance(false, {}, [], [], [], [])), [], [])
  }

  function Put(s: State, k: nat, to: Instance): State
    requires k < |s.instances|
  {
    s.(instances := s.instances[k := to])
  }

  /** The local half: a non-blocking send to the room's queue, if the instance has the room. */
  function Enter(i: Instance, job: Job, full: bool): Instance {
    if job.room in i.rooms && !full then i.(entered := i.entered + [job]) else i
  }

  function Queue(i: Instance, job: Job): Instance {
    if |i.jobs| < PUBLISH_BUFFER then i.(jobs := i.jobs + [job]) else i
  }

  function BroadcastStep(s: State, k: nat, room: string, full: bool): State
    requires k < |s.instances|
  {
    var i := s.instances[k];
    var job := Job(room, |s.calls|);
    Put(s, k, if i.shuttingDown then i else Queue(Enter(i, job, full), job)).(calls := s.calls + [Call(k, room)])
  }

  function Deliver(instances: seq<Instance>, m: Message, reaches: set<nat>): seq<Instance> {
    seq(|instances|, i requires 0 <= i < |instances| =>
      if i in reaches then instances[i].(inbox := instances[i].inbox + [m]) else instances[i])
  }

  /** The publish loop takes one job and publishes it, tagged with this instance's ID. */
  function PublishStep(s: State, k: nat, reaches: set<nat>): State
    requires k < |s.instances| == |s.ids|
  {
    var i := s.instances[k];
    if i.jobs == [] then s else
    s.(instances := Deliver(s.instances[k := i.(jobs := i.jobs[1..])], Message(s.ids[k], i.jobs[0]), reaches),
       published := s.published + [i.jobs[0]])
  }

  /** The subscription loop skips a message that carries its own instance ID. */
  function ReceiveStep(i: Instance, id: string): Instance {
    if i.inbox == [] then i
    else if i.inbox[0].source == id then i.(inbox := i.inbox[1..])
    else i.(inbox := i.inbox[1..], channel := i.channel + [i.inbox[0]])
  }

  /** The subscriber side of the hub broadcasts locally, and never publishes again. */
  function BroadcastLocalStep(i: Instance, full: bool): Instance {
    if i.channel == [] then i
    else if i.shuttingDown then i.(channel := i.channel[1..])
    else Enter(i.(channel := i.channel[1..]), i.channel[0].job, full)
  }

  function Step(s: State, e: Event): State {
    if e.k >= |s.instances| || |s.ids| != |s.instances| then s else
    var i := s.instances[e.k];
    match e
    case Broadcast(k, room, full) => BroadcastStep(s, k, room, full)
    case Publish(k, reaches) => PublishStep(s, k, reaches)
    case Receive(k) => Put(s, k, ReceiveStep(i, s.ids[k]))
    case BroadcastLocal(k, full) => Put(s, k, BroadcastLocalStep(i, full))
    case Reconnect(k) => Put(s, k, i.(inbox := []))
    case OpenRoom(k, room) => Put(s, k, if i.shuttingDown then i else i.(rooms := i.rooms + {room}))
    case CloseRoom(k, room) => Put(s, k, i.(rooms := i.rooms - {room}))
    case ShutDown(k) => Put(s, k, i.(shuttingDown := true))
  }

  function Run(s: State, events: seq<Event>): State {
    if events == [] then s else Step(Run(s, events[..|events| - 1]), events[|events| - 1])
  }

  // ----- Counting the copies of one call -----

  function OfCall(c: nat): Job -> bool {
    (job: Job) => job.call == c
  }

  function Carries(c: nat): Message -> bool {
    (m: Message) => m.job.call == c
  }

  /** The copies of a call that have passed an instance's source filter or entered its room queues. */
  function Copies(i: Instance, c: nat): nat {
    CountIf(i.channel, Carries(c)) + CountIf(i.entered, OfCall(c))
  }

  /** One call, seen at one instance, with `pending` copies still to be published. At its own instance only
      the local send can have entered it; at another
      one, at most one copy is pending, on its way, or entered. */
  predicate OnceAt(own: bool, pending: nat, i: Instance, c: nat) {
    if own then Copies(i, c) <= 1 && CountIf(i.channel, Carries(c)) == 0
    else pending + CountIf(i.inbox, Carries(c)) + Copies(i, c) <= 1
  }

  predicate JobRight(calls: seq<Call>, job: Job) {
    job.call < |calls| && calls[job.call].room == job.room
  }

  predicate MessageRight(ids: seq<string>, calls: seq<Call>, m: Message) {
    JobRight(calls, m.job) && calls[m.job.call].instance < |ids| && m.source == ids[calls[m.job.call].instance]
  }

  /** Every copy belongs to a call that was made, and to its room; a message names its call's instance. */
  ghost predicate RightAt(ids: seq<string>, calls: seq<Call>, k: nat, i: Instance) {
    && (forall job :: job in i.jobs ==> JobRight(calls, job) && calls[job.call].instance == k)
    && (forall job :: job in i.entered ==> JobRight(calls, job) && MayEnter(ids, calls, k, job))
    && (forall m :: m in i.inbox ==> MessageRight(ids, calls, m))
    && (forall m :: m in i.channel ==> MessageRight(ids, calls, m) && k < |ids| && m.source != ids[k])
  }

  /** Nothing enters an instance's rooms but its own calls and those of instances with another ID. */
  predicate MayEnter(ids: seq<string>, calls: seq<Call>, k: nat, job: Job)
    requires job.call < |calls|
  {
    var o := calls[job.call].instance;
    o == k || (k < |ids| && o < |ids| && ids[o] != ids[k])
  }

  ghost predicate Right(s: State) {
    && |s.ids| == |s.instances|
    && (forall c :: 0 <= c < |s.calls| ==> s.calls[c].instance < |s.instances|)
    && (forall k :: 0 <= k < |s.instances| ==> RightAt(s.ids, s.calls, k, s.instances[k]))
    && (forall job :: job in s.published ==> JobRight(s.calls, job))
  }

  /** How many copies of a call wait in its own instance's publish channel. */
  function Pending(s: State, c: nat): nat
    requires c < |s.calls| && s.calls[c].instance < |s.instances|
  {
    CountIf(s.instances[s.calls[c].instance].jobs, OfCall(c))
  }

  ghost predicate OnceFor(s: State, k: nat, c: nat)
    requires k < |s.instances| && c < |s.calls| && s.calls[c].instance < |s.instances|
  {
    && OnceAt(k == s.calls[c].instance, Pending(s, c), s.instances[k], c)
    && CountIf(s.published, OfCall(c)) + Pending(s, c) <= 1
  }

  ghost predicate Once(s: State)
    requires Right(s)
  {
    forall k, c :: 0 <= k < |s.instances| && 0 <= c < |s.calls| ==> OnceFor(s, k, c)
  }

  // ----- One instance's own steps -----

  lemma ReceiveIsRight(ids: seq<string>, calls: seq<Call>, k: nat, i: Instance)
    requires k < |ids| && RightAt(ids, calls, k, i)
    ensures RightAt(ids, calls, k, ReceiveStep(i, ids[k]))
  {
  }

  lemma LocalIsRight(ids: seq<string>, calls: seq<Call>, k: nat, i: Instance, full: bool)
    requires RightAt(ids, calls, k, i)
    ensures RightAt(ids, calls, k, BroadcastLocalStep(i, full))
  {
    if i.channel != [] {
      assert MessageRight(ids, calls, i.channel[0]);
    }
  }

  /** Receiving moves a copy from the inbox to the channel or drops it; an instance's own is always dropped. */
  lemma ReceiveKeepsOnce(ids: seq<string>, calls: seq<Call>, k: nat, i: Instance, pending: nat, c: nat)
    requires k < |ids| && c < |calls| && RightAt(ids, calls, k, i)
    requires OnceAt(k == calls[c].instance, pending, i, c)
    ensures OnceAt(k == calls[c].instance, pending, ReceiveStep(i, ids[k]), c)
  {
    if i.inbox != [] {
      assert MessageRight(ids, calls, i.inbox[0]);
      CountAfterAppend(i.channel, i.inbox[0], Carries(c));
    }
  }

  lemma LocalKeepsOnce(own: bool, i: Instance, pending: nat, c: nat, full: bool)
    requires OnceAt(own, pending, i, c)
    ensures OnceAt(own, pending, BroadcastLocalStep(i, full), c)
  {
    if i.channel != [] {
      CountAfterAppend(i.entered, i.channel[0].job, OfCall(c));
    }
  }

  /** A step inside one instance that leaves its publish channel alone. */
  lemma PutKeeps(s: State, k: nat, i: Instance)
    requires Right(s) && Once(s) && k < |s.instances| && i.jobs == s.instances[k].jobs
    requires RightAt(s.ids, s.calls, k, i)
    requires forall c :: 0 <= c < |s.calls| ==> OnceAt(k == s.calls[c].instance, Pending(s, c), i, c)
    ensures Right(Put(s, k, i)) && Once(Put(s, k, i))
  {
    var s' := Put(s, k, i);
    forall j, c | 0 <= j < |s.instances| && 0 <= c < |s.calls| ensures OnceFor(s', j, c) {
      assert OnceFor(s, j, c);
    }
  }

  // ----- A call and a publish -----

  /** No copy of a call that has not been made. */
  lemma NewCallIsUnseen(s: State, k: nat)
    requires Right(s) && k < |s.instances|
    ensures var i, c := s.instances[k], |s.calls|;
      CountIf(i.jobs, OfCall(c)) == 0 && CountIf(i.inbox, Carries(c)) == 0 && Copies(i, c) == 0
    ensures CountIf(s.published, OfCall(|s.calls|)) == 0
  {
    var i, c := s.instances[k], |s.calls|;
    assert RightAt(s.ids, s.calls, k, i);
    NoneCounted(i.jobs, OfCall(c));
    NoneCounted(i.inbox, Carries(c));
    NoneCounted(i.channel, Carries(c));
    NoneCounted(i.entered, OfCall(c));
    NoneCounted(s.published, OfCall(c));
  }

  lemma CallAdds(i: Instance, job: Job, full: bool, c: nat)
    ensures var i' := Queue(Enter(i, job, full), job);
      && i'.inbox == i.inbox && i'.channel == i.channel
      && CountIf(i'.jobs, OfCall(c)) <= CountIf(i.jobs, OfCall(c)) + (if c == job.call then 1 else 0)
      && CountIf(i'.entered, OfCall(c)) <= CountIf(i.entered, OfCall(c)) + (if c == job.call then 1 else 0)
  {
    CountAfterAppend(i.jobs, job, OfCall(c));
    CountAfterAppend(i.entered, job, OfCall(c));
  }

  lemma BroadcastIsRight(s: State, k: nat, room: string, full: bool)
    requires Right(s) && k < |s.instances|
    ensures Right(BroadcastStep(s, k, room, full))
  {
    var s' := BroadcastStep(s, k, room, full);
    forall j | 0 <= j < |s.instances| ensures RightAt(s'.ids, s'.calls, j, s'.instances[j]) {
      assert RightAt(s.ids, s.calls, j, s.instances[j]);
    }
  }

  lemma BroadcastKeepsOnce(s: State, k: nat, room: string, full: bool)
    requires Right(s) && Once(s) && k < |s.instances| && Right(BroadcastStep(s, k, room, full))
    ensures Once(BroadcastStep(s, k, room, full))
  {
    var s' := BroadcastStep(s, k, room, full);
    forall j, c | 0 <= j < |s'.instances| && 0 <= c < |s'.calls| ensures OnceFor(s', j, c) {
      CallAdds(s.instances[k], Job(room, |s.calls|), full, c);
      if c < |s.calls| {
        assert OnceFor(s, j, c);
      } else {
        NewCallIsUnseen(s, j);
        NewCallIsUnseen(s, k);
      }
    }
  }

  lemma PublishIsRight(s: State, k: nat, reaches: set<nat>)
    requires Right(s) && k < |s.instances|
    ensures Right(PublishStep(s, k, reaches))
  {
    var i := s.instances[k];
    var s' := PublishStep(s, k, reaches);
    assert RightAt(s.ids, s.calls, k, i);
    if i.jobs != [] {
      assert JobRight(s.calls, i.jobs[0]);
      forall j | 0 <= j < |s.instances| ensures RightAt(s'.ids, s'.calls, j, s'.instances[j]) {
        assert RightAt(s.ids, s.calls, j, s.instances[j]);
      }
    }
  }

  lemma PublishMovesOne(s: State, k: nat, reaches: set<nat>, j: nat, c: nat)
    requires Right(s) && k < |s.instances| && s.instances[k].jobs != []
    requires j < |s.instances| && c < |s.calls| && OnceFor(s, j, c)
    ensures OnceFor(PublishStep(s, k, reaches), j, c)
  {
    var job := s.instances[k].jobs[0];
    assert RightAt(s.ids, s.calls, k, s.instances[k]);
    assert job in s.instances[k].jobs;
    CountAfterAppend(s.instances[j].inbox, Message(s.ids[k], job), Carries(c));
    CountAfterAppend(s.published, job, OfCall(c));
  }

  lemma PublishKeepsOnce(s: State, k: nat, reaches: set<nat>)
    requires Right(s) && Once(s) && k < |s.instances| && Right(PublishStep(s, k, reaches))
    ensures Once(PublishStep(s, k, reaches))
  {
    if s.instances[k].jobs != [] {
      forall j, c | 0 <= j < |s.instances| && 0 <= c < |s.calls| ensures OnceFor(PublishStep(s, k, reaches), j, c) {
        assert OnceFor(s, j, c);
        PublishMovesOne(s, k, reaches, j, c);
      }
    }
  }

  // ----- Over every run -----

  lemma StepIsRight(s: State, e: Event)
    requires Right(s) && Once(s)
    ensures Right(Step(s, e)) && Once(Step(s, e)) && Step(s, e).ids == s.ids
  {
    if e.k < |s.instances| {
      var i := s.instances[e.k];
      assert RightAt(s.ids, s.calls, e.k, i);
      forall c | 0 <= c < |s.calls| ensures OnceAt(e.k == s.calls[c].instance, Pending(s, c), i, c) {
        assert OnceFor(s, e.k, c);
      }
      match e
      case Broadcast(k, room, full) =>
        BroadcastIsRight(s, k, room, full);
        BroadcastKeepsOnce(s, k, room, full);
      case Publish(k, reaches) =>
        PublishIsRight(s, k, reaches);
        PublishKeepsOnce(s, k, reaches);
      case Receive(k) =>
        ReceiveIsRight(s.ids, s.calls, k, i);
        forall c | 0 <= c < |s.calls|
          ensures OnceAt(k == s.calls[c].instance, Pending(s, c), ReceiveStep(i, s.ids[k]), c)
        {
          ReceiveKeepsOnce(s.ids, s.calls, k, i, Pending(s, c), c);
        }
        PutKeeps(s, k, ReceiveStep(i, s.ids[k]));
      case BroadcastLocal(k, full) =>
        LocalIsRight(s.ids, s.calls, k, i, full);
        forall c | 0 <= c < |s.calls|
          ensures OnceAt(k == s.calls[c].instance, Pending(s, c), BroadcastLocalStep(i, full), c)
        {
          LocalKeepsOnce(k == s.calls[c].instance, i, Pending(s, c), c, full);
        }
        PutKeeps(s, k, BroadcastLocalStep(i, full));
      case Reconnect(k) => PutKeeps(s, k, i.(inbox := []));
      case OpenRoom(k, room) => PutKeeps(s, k, Step(s, e).instances[k]);
      case CloseRoom(k, room) => PutKeeps(s, k, Step(s, e).instances[k]);
      case ShutDown(k) => PutKeeps(s, k, Step(s, e).instances[k]);
    }
  }

  lemma {:induction false} EveryRunIsRight(ids: seq<string>, events: seq<Event>)
    ensures var s := Run(Started(ids), events); Right(s) && Once(s) && s.ids == ids
  {
    if events != [] {
      EveryRunIsRight(ids, events[..|events| - 1]);
      StepIsRight(Run(Started(ids), events[..|events| - 1]), events[|events| - 1]);
    }
  }

  /** Whatever Redis loses or reorders between subscribers: each BroadcastToRoom call is published at most
      once, enters each instance's room queues at most once, and only those of its own room. */
  lemma NoBroadcastLoop(ids: seq<string>, events: seq<Event>)
    ensures var s := Run(Started(ids), events);
      && (forall c :: 0 <= c < |s.calls| ==> CountIf(s.published, OfCall(c)) <= 1)
      && (forall k, c :: 0 <= k < |s.instances| && 0 <= c < |s.calls| ==>
          CountIf(s.instances[k].entered, OfCall(c)) <= 1)
      && (forall k, job :: 0 <= k < |s.instances| && job in s.instances[k].entered ==> JobRight(s.calls, job))
  {
    EveryRunIsRight(ids, events);
    var s := Run(Started(ids), events);
    forall k, c | 0 <= k < |s.instances| && 0 <= c < |s.calls| ensures CountIf(s.instances[k].entered, OfCall(c)) <= 1 {
      assert OnceFor(s, k, c);
    }
    forall c | 0 <= c < |s.calls| ensures CountIf(s.published, OfCall(c)) <= 1 {
      assert OnceFor(s, s.calls[c].instance, c);
    }
    forall k, job | 0 <= k < |s.instances| && job in s.instances[k].entered ensures JobRight(s.calls, job) {
      assert RightAt(s.ids, s.calls, k, s.instances[k]);
    }
  }

  // ----- What each step brings about -----

  /** The call made by this step is the last one; it is in the room queues of its own instance exactly when
      that is up, has the room, and the queue has space, and it waits to be published exactly when the instance
      is up and the publish buffer has space. No other instance is touched. */
  lemma CallEntersItsOwn(s: State, k: nat, room: string, full: bool)
    requires Right(s) && k < |s.instances|
    ensures var s' := Step(s, Broadcast(k, room, full));
      var i, i', c := s.instances[k], s'.instances[k], |s.calls|;
      && s'.calls == s.calls + [Call(k, room)]
      && (Job(room, c) in i'.entered <==> !i.shuttingDown && room in i.rooms && !full)
      && (Job(room, c) in i'.jobs <==> !i.shuttingDown && |i.jobs| < 256)
      && i'.entered == i.entered + (if Job(room, c) in i'.entered then [Job(room, c)] else [])
      && i'.jobs == i.jobs + (if Job(room, c) in i'.jobs then [Job(room, c)] else [])
      && i' == i.(entered := i'.entered, jobs := i'.jobs)
      && (forall o :: 0 <= o < |s.instances| && o != k ==> s'.instances[o] == s.instances[o])
      && s'.published == s.published && s'.ids == s.ids
  {
    assert RightAt(s.ids, s.calls, k, s.instances[k]);
  }

  /** A publish takes the oldest waiting call and puts it, under this instance's ID, in exactly the inboxes that
      it reaches. */
  lemma PublishDelivers(s: State, k: nat, reaches: set<nat>)
    requires k < |s.instances| == |s.ids| && s.instances[k].jobs != []
    ensures var s' := Step(s, Publish(k, reaches));
      var job := s.instances[k].jobs[0];
      && s.instances[k].jobs == [job] + s'.instances[k].jobs
      && s'.published == s.published + [job] && s'.calls == s.calls && s'.ids == s.ids
      && |s'.instances| == |s.instances|
      && (forall o :: 0 <= o < |s.instances| ==>
            && s'.instances[o].inbox
               == s.instances[o].inbox + (if o in reaches then [Message(s.ids[k], job)] else [])
            && s'.instances[o].channel == s.instances[o].channel && s'.instances[o].entered == s.instances[o].entered
            && s'.instances[o].rooms == s.instances[o].rooms
            && s'.instances[o].shuttingDown == s.instances[o].shuttingDown
            && (o != k ==> s'.instances[o].jobs == s.instances[o].jobs))
  {
  }

  /** A message taken off the channel is put on the room's queue exactly when the instance is up, has the room,
      and the queue has space; nothing is published for it. */
  lemma LocalBroadcastEnters(s: State, k: nat, full: bool)
    requires k < |s.instances| == |s.ids| && s.instances[k].channel != []
    ensures var s' := Step(s, BroadcastLocal(k, full));
      var i, i', job := s.instances[k], s'.instances[k], s.instances[k].channel[0].job;
      var enters := !i.shuttingDown && job.room in i.rooms && !full;
      && i'.entered == i.entered + (if enters then [job] else [])
      && i.channel == [i.channel[0]] + i'.channel
      && i' == i.(entered := i'.entered, channel := i'.channel)
      && s' == s.(instances := s.instances[k := i'])
  {
    var i := s.instances[k];
    assert i.entered + [] == i.entered;
  }

  /** The rooms of an instance are those opened and not closed since; none is opened once it is shutting down. */
  lemma RoomsComeAndGo(s: State, k: nat, room: string)
    requires k < |s.instances| == |s.ids|
    ensures var i, more, fewer := s.instances[k], Step(s, OpenRoom(k, room)), Step(s, CloseRoom(k, room));
      && more == s.(instances := more.instances) && fewer == s.(instances := fewer.instances)
      && |more.instances| == |fewer.instances| == |s.instances|
      && more.instances[k] == i.(rooms := if i.shuttingDown then i.rooms else i.rooms + {room})
      && fewer.instances[k] == i.(rooms := i.rooms - {room})
      && (forall o :: 0 <= o < |s.instances| && o != k ==>
            more.instances[o] == fewer.instances[o] == s.instances[o])
  {
  }

  /** A reconnect to Redis loses what had not been handed over, and nothing else. */
  lemma ReconnectLosesInbox(s: State, k: nat)
    requires k < |s.instances| == |s.ids|
    ensures var s' := Step(s, Reconnect(k));
      && |s'.instances| == |s.instances| && s'.instances[k] == s.instances[k].(inbox := [])
      && s' == s.(instances := s.instances[k := s'.instances[k]])
  {
  }

  /** From its shutdown on, nothing enters an instance's rooms or its publish channel. */
  lemma {:induction false} NothingEntersAfterShutDown(s: State, k: nat, events: seq<Event>)
    requires k < |s.instances| == |s.ids|
    ensures var s' := Run(Step(s, ShutDown(k)), events);
      && |s'.instances| == |s'.ids| == |s.instances| && s'.instances[k].shuttingDown
      && s'.instances[k].entered == s.instances[k].entered && |s'.instances[k].jobs| <= |s.instances[k].jobs|
  {
    if events != [] {
      NothingEntersAfterShutDown(s, k, events[..|events| - 1]);
      StepWhenDown(Run(Step(s, ShutDown(k)), events[..|events| - 1]), k, events[|events| - 1]);
    }
  }

  lemma StepWhenDown(s: State, k: nat, e: Event)
    requires k < |s.instances| == |s.ids| && s.instances[k].shuttingDown
    ensures var s' := Step(s, e);
      && |s'.instances| == |s.instances| && s'.ids == s.ids && s'.instances[k].shuttingDown
      && s'.instances[k].entered == s.instances[k].entered && |s'.instances[k].jobs| <= |s.instances[k].jobs|
  {
  }

  // ----- What instance IDs are for -----

  /** In some run, a call made at instance `o` enters a room queue of instance `k`. */
  ghost predicate Reaches(ids: seq<string>, o: nat, k: nat) {
    exists events :: Entered(Run(Started(ids), events), o, k)
  }

  ghost predicate Entered(s: State, o: nat, k: nat) {
    && k < |s.instances|
    && exists job | job in s.instances[k].entered :: job.call < |s.calls| && s.calls[job.call].instance == o
  }

  lemma OneMoreEvent(s: State, events: seq<Event>, e: Event)
    ensures Run(s, events + [e]) == Step(Run(s, events), e)
  {
    assert (events + [e])[..|events|] == events;
  }

  /** What the short run below has come to: one message is where `inbox` or `channel` says. */
  ghost predicate OnItsWay(ids: seq<string>, s: State, o: nat, k: nat, room: string, inbox: seq<Message>,
                           channel: seq<Message>)
  {
    && s.ids == ids && |s.instances| == |ids| && s.calls == [Call(o, room)]
    && k < |ids| && room in s.instances[k].rooms && !s.instances[k].shuttingDown
    && s.instances[k].inbox == inbox && s.instances[k].channel == channel
  }

  /** Five events: a room opens at `k`, `o` broadcasts and publishes, `k` receives and broadcasts locally. */
  lemma MessageTravels(ids: seq<string>, o: nat, k: nat)
    requires o < |ids| && k < |ids| && o != k && ids[o] != ids[k]
    ensures Reaches(ids, o, k)
  {
    var start, room, m := Started(ids), "room", Message(ids[o], Job("room", 0));
    var sent := Published(ids, o, k);
    var s := Run(start, sent);
    OneMoreEvent(start, sent, Receive(k));
    var received := sent + [Receive(k)];
    assert OnItsWay(ids, Run(start, received), o, k, room, [], [m]);
    OneMoreEvent(start, received, BroadcastLocal(k, false));
    var last := Run(start, received + [BroadcastLocal(k, false)]);
    assert m.job in last.instances[k].entered;
    assert Entered(last, o, k);
  }

  lemma Published(ids: seq<string>, o: nat, k: nat) returns (events: seq<Event>)
    requires o < |ids| && k < |ids| && o != k
    ensures OnItsWay(ids, Run(Started(ids), events), o, k, "room", [Message(ids[o], Job("room", 0))], [])
  {
    var start := Started(ids);
    OneMoreEvent(start, [], OpenRoom(k, "room"));
    events := [] + [OpenRoom(k, "room")];
    var s := Run(start, events);
    assert s == start.(instances := start.instances[k := Instance(false, {} + {"room"}, [], [], [], [])]);
    EveryRunIsRight(ids, events);
    CallEntersItsOwn(s, o, "room", false);
    OneMoreEvent(start, events, Broadcast(o, "room", false));
    events := events + [Broadcast(o, "room", false)];
    var called := Run(start, events);
    assert called.calls == [Call(o, "room")] && called.instances[o].jobs == [Job("room", 0)];
    PublishDelivers(called, o, {k});
    OneMoreEvent(start, events, Publish(o, {k}));
    events := events + [Publish(o, {k})];
  }

  /** A received message is passed on to the hub exactly when its call's instance has another ID, and dropped
      otherwise. */
  lemma PassedOnIffIdsDiffer(ids: seq<string>, events: seq<Event>, k: nat)
    requires var s := Run(Started(ids), events);
      k < |s.instances| && |s.ids| == |s.instances| && s.instances[k].inbox != []
    ensures var s := Run(Started(ids), events);
      var m := s.instances[k].inbox[0];
      var after := Step(s, Receive(k)).instances[k];
      && m.job.call < |s.calls| && s.calls[m.job.call].instance < |ids| && k < |ids|
      && after == s.instances[k].(
        inbox := s.instances[k].inbox[1..],
        channel := s.instances[k].channel + if ids[s.calls[m.job.call].instance] != ids[k] then [m] else [])
  {
    var s := Run(Started(ids), events);
    EveryRunIsRight(ids, events);
    assert RightAt(s.ids, s.calls, k, s.instances[k]);
    assert MessageRight(s.ids, s.calls, s.instances[k].inbox[0]);
    ReceiveDoes(s.instances[k], ids[k]);
  }

  lemma ReceiveDoes(i: Instance, id: string)
    requires i.inbox != []
    ensures ReceiveStep(i, id)
         == i.(inbox := i.inbox[1..], channel := i.channel + if i.inbox[0].source != id then [i.inbox[0]] else [])
  {
    assert i.channel + [] == i.channel;
  }

  /** Two events: a room opens at `k`, and `k` broadcasts to it. */
  lemma OwnCallEnters(ids: seq<string>, k: nat)
    requires k < |ids|
    ensures Reaches(ids, k, k)
  {
    var start, room := Started(ids), "room";
    var setUp := [] + [OpenRoom(k, room)];
    OneMoreEvent(start, [], OpenRoom(k, room));
    OneMoreEvent(start, setUp, Broadcast(k, room, false));
    var s := Run(start, setUp);
    EveryRunIsRight(ids, setUp);
    assert room in s.instances[k].rooms && !s.instances[k].shuttingDown && s.calls == [];
    CallEntersItsOwn(s, k, room, false);
    var last := Run(start, setUp + [Broadcast(k, room, false)]);
    assert last.calls[0] == Call(k, room);
    assert Job(room, 0) in last.instances[k].entered;
    assert Entered(last, k, k);
  }

  /** A call can reach the viewers at an instance exactly when it was made there or at one with another ID: with
      equal IDs each takes the other's messages for its own and drops them, in every run. */
  lemma ReachesIffIdsDiffer(ids: seq<string>, o: nat, k: nat)
    requires o < |ids| && k < |ids|
    ensures Reaches(ids, o, k) <==> o == k || ids[o] != ids[k]
  {
    if o == k {
      OwnCallEnters(ids, k);
    } else if ids[o] != ids[k] {
      MessageTravels(ids, o, k);
    } else {
      forall events ensures !Entered(Run(Started(ids), events), o, k) {
        EveryRunIsRight(ids, events);
        var s := Run(Started(ids), events);
        assert RightAt(s.ids, s.calls, k, s.instances[k]);
      }
    }
  }
}
