/** Connection quotas: each handshake that passes TryAcquireConn holds one lease on its address and one on
    its room, and gives it back exactly once, whichever of the many exits its connection takes. */
module Leases {
  import opened Counting

  /** The hub's two counter maps. */
  datatype Counters = Counters(perIp: map<string, int>, perRoom: map<string, int>)

  /** A limit that is not positive means no limit. */
  datatype Limits = Limits(perIp: int, perRoom: int)

  function Get(m: map<string, int>, k: string): int {
    if k in m then m[k] else 0
  }

  predicate HasQuota(c: Counters, limits: Limits, ip: string, room: string) {
    && (limits.perIp > 0 ==> Get(c.perIp, ip) < limits.perIp)
    && (limits.perRoom > 0 ==> Get(c.perRoom, room) < limits.perRoom)
  }

  function Acquired(c: Counters, ip: string, room: string): Counters {
    Counters(c.perIp[ip := Get(c.perIp, ip) + 1], c.perRoom[room := Get(c.perRoom, room) + 1])
  }

  /** One less under a key; a key whose count is no longer positive is removed. */
  function OneLess(m: map<string, int>, k: string): map<string, int> {
    if Get(m, k) - 1 <= 0 then m - {k} else m[k := Get(m, k) - 1]
  }

  function Released(c: Counters, ip: string, room: string): Counters {
    Counters(OneLess(c.perIp, ip), OneLess(c.perRoom, room))
  }

  class ConnQuota {
    const maxConnPerIp: int
    const maxConnPerRoom: int
    var connCounter: map<string, int>
    var roomConnCount: map<string, int>

    constructor (maxConnPerIp: int, maxConnPerRoom: int)
      ensures Limit() == Limits(maxConnPerIp, maxConnPerRoom) && Value() == Counters(map[], map[])
    {
      this.maxConnPerIp, this.maxConnPerRoom := maxConnPerIp, maxConnPerRoom;
      connCounter, roomConnCount := map[], map[];
    }

    function Limit(): Limits {
      Limits(maxConnPerIp, maxConnPerRoom)
    }

    function Value(): Counters
      reads this
    {
      Counters(connCounter, roomConnCount)
    }

    method TryAcquireConn(ip: string, roomId: string) returns (ok: bool)
      modifies this
      ensures ok <==> HasQuota(old(Value()), Limit(), ip, roomId)
      ensures Value() == if ok then Acquired(old(Value()), ip, roomId) else old(Value())
    {
      if maxConnPerIp > 0 {
        var held := if ip in connCounter then connCounter[ip] else 0;
        if held >= maxConnPerIp {
          return false;
        }
      }
      if maxConnPerRoom > 0 {
        var held := if roomId in roomConnCount then roomConnCount[roomId] else 0;
        if held >= maxConnPerRoom {
          return false;
        }
      }
      connCounter := connCounter[ip := (if ip in connCounter then connCounter[ip] else 0) + 1];
      roomConnCount := roomConnCount[roomId := (if roomId in roomConnCount then roomConnCount[roomId] else 0) + 1];
      return true;
    }

    /** The closure that TryAcquireConn returns. */
    method Release(ip: string, roomId: string)
      modifies this
      ensures Value() == Released(old(Value()), ip, roomId)
    {
      connCounter := connCounter[ip := (if ip in connCounter then connCounter[ip] else 0) - 1];
      if connCounter[ip] <= 0 {
        connCounter := connCounter - {ip};
      }
      roomConnCount := roomConnCount[roomId := (if roomId in roomConnCount then roomConnCount[roomId] else 0) - 1];
      if roomConnCount[roomId] <= 0 {
        roomConnCount := roomConnCount - {roomId};
      }
      assert connCounter == OneLess(old(connCounter), ip);
      assert roomConnCount == OneLess(old(roomConnCount), roomId);
    }
  }

  // ----- Handshakes and connections, interleaved -----

  /** A connection's stop function runs its body once: it closes `done`, then releases the lease. */
  datatype Stage =
    | Asking
    | Rejected
    | Leased
    | Upgraded
    | HasClient
    | Abandoned
    | Live
    | Stopping
    | Stopped

  datatype Handshake = Handshake(ip: string, room: string, stage: Stage, releases: nat)

  datatype State = State(limits: Limits, counters: Counters, shuttingDown: bool, handshakes: seq<Handshake>)

  /** Who calls a client's stop function. */
  datatype Stopper = ReadPump | WritePump | RoomUnregister | RoomEviction | RoomExit

  datatype Event =
    | Connect(ip: string, room: string)
    | TryAcquire(i: nat)
    | Upgrade(i: nat, ok: bool)
    | FindRoom(i: nat)
    | JoinRoom(i: nat, roomStopped: bool)
    | Stop(i: nat, who: Stopper)
    | FinishStop(i: nat)
    | ShutDownHub

  function Started(limits: Limits): State {
    State(limits, Counters(map[], map[]), false, [])
  }

  function Moved(s: State, i: nat, to: Stage): State
    requires i < |s.handshakes|
  {
    s.(handshakes := s.handshakes[i := s.handshakes[i].(stage := to)])
  }

  /** Moves on and calls the release closure. */
  function GivingBack(s: State, i: nat, to: Stage): State
    requires i < |s.handshakes|
  {
    var h := s.handshakes[i];
    s.(handshakes := s.handshakes[i := h.(stage := to, releases := h.releases + 1)],
       counters := Released(s.counters, h.ip, h.room))
  }

  function StepOf(s: State, i: nat, e: Event): State
    requires i < |s.handshakes|
  {
    var h := s.handshakes[i];
    match h.stage
    case Asking =>
      if !e.TryAcquire? then s
      else if HasQuota(s.counters, s.limits, h.ip, h.room) then
        Moved(s, i, Leased).(counters := Acquired(s.counters, h.ip, h.room))
      else Moved(s, i, Rejected)
    case Leased => if !e.Upgrade? then s else if e.ok then Moved(s, i, Upgraded) else GivingBack(s, i, Abandoned)
    case Upgraded =>
      if !e.FindRoom? then s else if s.shuttingDown then GivingBack(s, i, Abandoned) else Moved(s, i, HasClient)
    case HasClient =>
      if !e.JoinRoom? then s else if e.roomStopped then GivingBack(s, i, Abandoned) else Moved(s, i, Live)
    case Live => if e.Stop? then Moved(s, i, Stopping) else s
    case Stopping => if e.FinishStop? then GivingBack(s, i, Stopped) else s
    case Stopped => s
    case Rejected => s
    case Abandoned => s
  }

  function Step(s: State, e: Event): State {
    match e
    case Connect(ip, room) => s.(handshakes := s.handshakes + [Handshake(ip, room, Asking, 0)])
    case ShutDownHub => s.(shuttingDown := true)
    case TryAcquire(i) => if i < |s.handshakes| then StepOf(s, i, e) else s
    case Upgrade(i, _) => if i < |s.handshakes| then StepOf(s, i, e) else s
    case FindRoom(i) => if i < |s.handshakes| then StepOf(s, i, e) else s
    case JoinRoom(i, _) => if i < |s.handshakes| then StepOf(s, i, e) else s
    case Stop(i, _) => if i < |s.handshakes| then StepOf(s, i, e) else s
    case FinishStop(i) => if i < |s.handshakes| then StepOf(s, i, e) else s
  }

  function Run(s: State, events: seq<Event>): State {
    if events == [] then s else Step(Run(s, events[..|events| - 1]), events[|events| - 1])
  }

  // ----- What the counters count -----

  predicate Holds(h: Handshake) {
    h.stage.Leased? || h.stage.Upgraded? || h.stage.HasClient? || h.stage.Live? || h.stage.Stopping?
  }

  function HoldsIp(ip: string): Handshake -> bool {
    (h: Handshake) => Holds(h) && h.ip == ip
  }

  function HoldsRoom(room: string): Handshake -> bool {
    (h: Handshake) => Holds(h) && h.room == room
  }

  /** The counter under a key is the number of leases held, present exactly when positive, within its limit. */
  predicate Counts(m: map<string, int>, k: string, held: nat, limit: int) {
    Get(m, k) == held && (k in m <==> held > 0) && (limit > 0 ==> held <= limit)
  }

  ghost predicate Tracked(s: State) {
    && (forall ip :: Counts(s.counters.perIp, ip, CountIf(s.handshakes, HoldsIp(ip)), s.limits.perIp))
    && (forall room :: Counts(s.counters.perRoom, room, CountIf(s.handshakes, HoldsRoom(room)), s.limits.perRoom))
  }

  /** A lease is released at most once: not while it is held, and by the time its exit is over, exactly once. */
  predicate ReleasedOnce(h: Handshake) {
    h.releases == if h.stage.Stopped? || h.stage.Abandoned? then 1 else 0
  }

  /** One counter map, seen at one key, through a step of a handshake whose own key is `own`. */
  lemma KeyCounts(m: map<string, int>, m': map<string, int>, own: string, k: string, held: nat, limit: int, was: bool,
                  now: bool)
    requires Counts(m, k, held, limit)
    requires if was == now then m' == m else if was then m' == OneLess(m, own)
             else m' == m[own := Get(m, own) + 1] && (limit > 0 ==> Get(m, own) < limit)
    requires was && k == own ==> held > 0
    ensures Counts(m', k, if k != own || was == now then held else if was then held - 1 else held + 1, limit)
  {
  }

  /** How one handshake's step moves the counters. */
  lemma StepMoves(s: State, i: nat, e: Event)
    requires i < |s.handshakes|
    ensures var s', h := StepOf(s, i, e), s.handshakes[i];
      && |s'.handshakes| == |s.handshakes| && s'.handshakes == s.handshakes[i := s'.handshakes[i]]
      && s'.limits == s.limits
      && s'.handshakes[i].ip == h.ip && s'.handshakes[i].room == h.room
      && (ReleasedOnce(h) ==> ReleasedOnce(s'.handshakes[i]))
      && (if Holds(h) == Holds(s'.handshakes[i]) then s'.counters == s.counters
          else if Holds(h) then s'.counters == Released(s.counters, h.ip, h.room)
          else s'.counters == Acquired(s.counters, h.ip, h.room) && HasQuota(s.counters, s.limits, h.ip, h.room))
  {
    assert s.handshakes == s.handshakes[i := s.handshakes[i]];
  }

  lemma StepTracks(s: State, i: nat, e: Event)
    requires Tracked(s) && i < |s.handshakes|
    ensures Tracked(StepOf(s, i, e))
  {
    var s', h := StepOf(s, i, e), s.handshakes[i];
    StepMoves(s, i, e);
    var h' := s'.handshakes[i];
    forall ip ensures Counts(s'.counters.perIp, ip, CountIf(s'.handshakes, HoldsIp(ip)), s.limits.perIp) {
      CountAfterUpdate(s.handshakes, i, h', HoldsIp(ip));
      if HoldsIp(ip)(h) {
        OneIsCounted(s.handshakes, i, HoldsIp(ip));
      }
      KeyCounts(s.counters.perIp, s'.counters.perIp, h.ip, ip, CountIf(s.handshakes, HoldsIp(ip)),
                s.limits.perIp, Holds(h), Holds(h'));
    }
    forall room ensures Counts(s'.counters.perRoom, room, CountIf(s'.handshakes, HoldsRoom(room)), s.limits.perRoom) {
      CountAfterUpdate(s.handshakes, i, h', HoldsRoom(room));
      if HoldsRoom(room)(h) {
        OneIsCounted(s.handshakes, i, HoldsRoom(room));
      }
      KeyCounts(s.counters.perRoom, s'.counters.perRoom, h.room, room, CountIf(s.handshakes, HoldsRoom(room)),
                s.limits.perRoom, Holds(h), Holds(h'));
    }
  }

  lemma ConnectTracks(s: State, ip: string, room: string)
    requires Tracked(s)
    ensures Tracked(Step(s, Connect(ip, room)))
  {
    var h := Handshake(ip, room, Asking, 0);
    forall k ensures CountIf(s.handshakes + [h], HoldsIp(k)) == CountIf(s.handshakes, HoldsIp(k)) {
      CountAfterAppend(s.handshakes, h, HoldsIp(k));
    }
    forall k ensures CountIf(s.handshakes + [h], HoldsRoom(k)) == CountIf(s.handshakes, HoldsRoom(k)) {
      CountAfterAppend(s.handshakes, h, HoldsRoom(k));
    }
  }

  ghost predicate Sound(s: State) {
    Tracked(s) && forall i :: 0 <= i < |s.handshakes| ==> ReleasedOnce(s.handshakes[i])
  }

  lemma StepIsSound(s: State, e: Event)
    requires Sound(s)
    ensures Sound(Step(s, e)) && Step(s, e).limits == s.limits
  {
    match e
    case Connect(ip, room) => ConnectTracks(s, ip, room);
    case ShutDownHub =>
    case TryAcquire(i) => if i < |s.handshakes| { StepTracks(s, i, e); StepMoves(s, i, e); }
    case Upgrade(i, _) => if i < |s.handshakes| { StepTracks(s, i, e); StepMoves(s, i, e); }
    case FindRoom(i) => if i < |s.handshakes| { StepTracks(s, i, e); StepMoves(s, i, e); }
    case JoinRoom(i, _) => if i < |s.handshakes| { StepTracks(s, i, e); StepMoves(s, i, e); }
    case Stop(i, _) => if i < |s.handshakes| { StepTracks(s, i, e); StepMoves(s, i, e); }
    case FinishStop(i) => if i < |s.handshakes| { StepTracks(s, i, e); StepMoves(s, i, e); }
  }

  /** Over every interleaving: the counters are the leases held, key by key, within the limits; every lease
      is released at most once, and exactly once by the time its connection has stopped or been given up. */
  lemma {:induction false} EveryRunTracksLeases(limits: Limits, events: seq<Event>)
    ensures var s := Run(Started(limits), events);
      && s.limits == limits
      && Tracked(s)
      && (forall i :: 0 <= i < |s.handshakes| ==> ReleasedOnce(s.handshakes[i]))
  {
    if events != [] {
      EveryRunTracksLeases(limits, events[..|events| - 1]);
      StepIsSound(Run(Started(limits), events[..|events| - 1]), events[|events| - 1]);
    }
  }

  /** When every connection is over, both maps are empty again. */
  lemma NothingLeaks(limits: Limits, events: seq<Event>)
    requires var s := Run(Started(limits), events);
      forall i :: 0 <= i < |s.handshakes| ==> !Holds(s.handshakes[i])
    ensures Run(Started(limits), events).counters == Counters(map[], map[])
  {
    var s := Run(Started(limits), events);
    EveryRunTracksLeases(limits, events);
    forall ip ensures ip !in s.counters.perIp {
      NoneCounted(s.handshakes, HoldsIp(ip));
      assert Counts(s.counters.perIp, ip, CountIf(s.handshakes, HoldsIp(ip)), s.limits.perIp);
    }
    forall room ensures room !in s.counters.perRoom {
      NoneCounted(s.handshakes, HoldsRoom(room));
      assert Counts(s.counters.perRoom, room, CountIf(s.handshakes, HoldsRoom(room)), s.limits.perRoom);
    }
    assert s.counters.perIp == map[] && s.counters.perRoom == map[];
  }

  // ----- Who is let in, and who can leave -----

  /** A handshake is let in exactly when its address and its room hold fewer leases than their limits, if they
      have any; otherwise it is rejected. */
  lemma LetInExactly(limits: Limits, events: seq<Event>, i: nat)
    requires var s := Run(Started(limits), events); i < |s.handshakes| && s.handshakes[i].stage == Asking
    ensures var s := Run(Started(limits), events);
      var h, h' := s.handshakes[i], Step(s, TryAcquire(i)).handshakes[i];
      && (h'.stage == Leased <==>
            && (limits.perIp <= 0 || CountIf(s.handshakes, HoldsIp(h.ip)) < limits.perIp)
            && (limits.perRoom <= 0 || CountIf(s.handshakes, HoldsRoom(h.room)) < limits.perRoom))
      && (h'.stage == Leased || h'.stage == Rejected)
  {
    var s := Run(Started(limits), events);
    var h := s.handshakes[i];
    EveryRunTracksLeases(limits, events);
    assert Counts(s.counters.perIp, h.ip, CountIf(s.handshakes, HoldsIp(h.ip)), limits.perIp);
    assert Counts(s.counters.perRoom, h.room, CountIf(s.handshakes, HoldsRoom(h.room)), limits.perRoom);
  }

  /** One that is let in while the hub is up goes live when it is upgraded and its room takes it. */
  lemma LetInGoesLive(s: State, i: nat)
    requires i < |s.handshakes| && s.handshakes[i].stage == Asking && !s.shuttingDown
    ensures var h, leased := s.handshakes[i], Step(s, TryAcquire(i));
      var live := Step(Step(Step(leased, Upgrade(i, true)), FindRoom(i)), JoinRoom(i, false));
      && |live.handshakes| == |leased.handshakes| == |s.handshakes|
      && (leased.handshakes[i].stage == Leased ==>
            live == s.(handshakes := s.handshakes[i := h.(stage := Live)], counters := leased.counters))
  {
  }

  /** A lease is given back at once, and its handshake given up, when the upgrade fails, when the hub is shutting
      down, or when the room has stopped. */
  lemma GivenUpExactly(s: State, i: nat, e: Event)
    requires i < |s.handshakes|
    ensures var h := s.handshakes[i];
      && |StepOf(s, i, e).handshakes| == |s.handshakes|
      && var h' := StepOf(s, i, e).handshakes[i];
        && (h'.stage == Abandoned && h.stage != Abandoned <==>
              || (h.stage == Leased && e.Upgrade? && !e.ok)
              || (h.stage == Upgraded && e.FindRoom? && s.shuttingDown)
              || (h.stage == HasClient && e.JoinRoom? && e.roomStopped))
        && (h'.stage == Abandoned && h.stage != Abandoned ==>
              h'.releases == h.releases + 1 && StepOf(s, i, e).counters == Released(s.counters, h.ip, h.room))
        && (h'.stage == Live && h.stage != Live <==> h.stage == HasClient && e.JoinRoom? && !e.roomStopped)
  {
  }

  predicate HasRoom(stage: Stage) {
    stage.HasClient? || stage.Live? || stage.Stopping? || stage.Stopped?
  }

  /** From the hub's shutdown on, no further handshake gets a room. */
  lemma {:induction false} NoneJoinsAfterShutDown(s: State, events: seq<Event>, i: nat)
    ensures var s' := Run(Step(s, ShutDownHub), events);
      && s'.shuttingDown && |s'.handshakes| >= |s.handshakes|
      && (i < |s'.handshakes| && HasRoom(s'.handshakes[i].stage) ==>
            i < |s.handshakes| && HasRoom(s.handshakes[i].stage))
  {
    if events != [] {
      NoneJoinsAfterShutDown(s, events[..|events| - 1], i);
      StepJoinsNone(Run(Step(s, ShutDownHub), events[..|events| - 1]), events[|events| - 1], i);
    }
  }

  lemma StepJoinsNone(s: State, e: Event, i: nat)
    requires s.shuttingDown
    ensures var s' := Step(s, e);
      && s'.shuttingDown && |s'.handshakes| >= |s.handshakes|
      && (i < |s'.handshakes| && HasRoom(s'.handshakes[i].stage) ==>
            i < |s.handshakes| && HasRoom(s.handshakes[i].stage))
  {
  }

  lemma OneMoreEvent(s: State, events: seq<Event>, e: Event)
    ensures Run(s, events + [e]) == Step(Run(s, events), e)
  {
    assert (events + [e])[..|events|] == events;
  }

  lemma {:induction false} RunOn(s: State, a: seq<Event>, b: seq<Event>)
    ensures Run(s, a + b) == Run(Run(s, a), b)
  {
    if b == [] {
      assert a + b == a;
    } else {
      assert (a + b)[..|a + b| - 1] == a + b[..|b| - 1];
      RunOn(s, a, b[..|b| - 1]);
    }
  }

  function StepsLeft(stage: Stage): nat {
    match stage
    case Leased => 5
    case Upgraded => 4
    case HasClient => 3
    case Live => 2
    case Stopping => 1
    case _ => 0
  }

  function NextOf(i: nat, stage: Stage): Event {
    match stage
    case Leased => Upgrade(i, true)
    case Upgraded => FindRoom(i)
    case HasClient => JoinRoom(i, false)
    case Live => Stop(i, ReadPump)
    case _ => FinishStop(i)
  }

  lemma HolderGoesOn(s: State, i: nat)
    requires i < |s.handshakes| && Holds(s.handshakes[i])
    ensures var s' := Step(s, NextOf(i, s.handshakes[i].stage));
      && |s'.handshakes| == |s.handshakes| && StepsLeft(s'.handshakes[i].stage) < StepsLeft(s.handshakes[i].stage)
      && (forall j :: 0 <= j < |s.handshakes| && j != i ==> s'.handshakes[j] == s.handshakes[j])
  {
  }

  lemma {:induction false} HolderCanEnd(s: State, i: nat) returns (more: seq<Event>)
    requires i < |s.handshakes|
    ensures var s' := Run(s, more);
      && |s'.handshakes| == |s.handshakes| && !Holds(s'.handshakes[i])
      && (forall j :: 0 <= j < |s.handshakes| && j != i ==> s'.handshakes[j] == s.handshakes[j])
    decreases StepsLeft(s.handshakes[i].stage)
  {
    more := [];
    if Holds(s.handshakes[i]) {
      var e := NextOf(i, s.handshakes[i].stage);
      HolderGoesOn(s, i);
      more := HolderCanEnd(Step(s, e), i);
      OneMoreEvent(s, [], e);
      RunOn(s, [] + [e], more);
      more := [] + [e] + more;
    }
  }

  lemma {:induction false} HoldersCanEnd(s: State, n: nat) returns (more: seq<Event>)
    requires n <= |s.handshakes|
    ensures var s' := Run(s, more);
      |s'.handshakes| == |s.handshakes| && forall i :: 0 <= i < n ==> !Holds(s'.handshakes[i])
  {
    more := [];
    if n > 0 {
      more := HoldersCanEnd(s, n - 1);
      var last := HolderCanEnd(Run(s, more), n - 1);
      RunOn(s, more, last);
      more := more + last;
    }
  }

  /** No lease is held for ever by necessity: every run can be continued until both maps are empty. */
  lemma EveryRunCanEmpty(limits: Limits, events: seq<Event>)
    ensures exists more :: Run(Started(limits), events + more).counters == Counters(map[], map[])
  {
    var s := Run(Started(limits), events);
    var more := HoldersCanEnd(s, |s.handshakes|);
    RunOn(Started(limits), events, more);
    NothingLeaks(limits, events + more);
  }

  /** The release closure itself is not idempotent: calling it twice is the same as calling it once exactly
      when the lease was the last of its address and the last of its room. */
  lemma DoubleReleaseHarmless(c: Counters, ip: string, room: string)
    requires forall k :: k in c.perIp ==> c.perIp[k] > 0
    requires forall k :: k in c.perRoom ==> c.perRoom[k] > 0
    ensures Released(Released(c, ip, room), ip, room) == Released(c, ip, room)
       <==> Get(c.perIp, ip) <= 1 && Get(c.perRoom, room) <= 1
  {
    var once := Released(c, ip, room);
    var twice := Released(once, ip, room);
    assert Get(twice.perIp, ip) == Get(once.perIp, ip) <==> Get(c.perIp, ip) <= 1;
    assert Get(twice.perRoom, room) == Get(once.perRoom, room) <==> Get(c.perRoom, room) <= 1;
  }

  /** Two connections from one address hold leases; releasing one of them twice leaves the other uncounted,
      so that even under a limit of one a further connection would be let in. */
  lemma DoubleReleaseForgetsALease(ip: string, room: string)
    ensures var held := Acquired(Acquired(Counters(map[], map[]), ip, room), ip, room);
      && Get(Released(held, ip, room).perIp, ip) == 1
      && Get(Released(Released(held, ip, room), ip, room).perIp, ip) == 0
      && HasQuota(Released(Released(held, ip, room), ip, room), Limits(1, 1), ip, room)
  {
  }
}
