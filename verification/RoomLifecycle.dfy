/** A room's life: its owner starts and ends it. Each call reads the room, decides, takes the time, and then
    updates conditionally, and calls interleave between these steps. */
module RoomLifecycle {
  import opened Counting
  import opened Model

  datatype RoomStatus = PendingRoom | LiveRoom | EndedRoom | BannedRoom

  datatype Room = Room(
    id: string,
    title: string,
    ownerId: string,
    status: RoomStatus,
    startedAt: Option<int>,
    endedAt: Option<int>,
    createdAt: int,
    updatedAt: int)

  datatype Answer = Done | NotFound | Forbidden | Banned | InvalidTransition | TitleTooLong

  datatype Kind = Start | End

  const MILLISECOND := 1000000
  const MAX_TITLE := 100
  const DEFAULT_TITLE := "默认直播间"

  /** Times are in nanoseconds; what is stored is cut down to milliseconds. */
  function Truncated(t: int): int {
    t / MILLISECOND * MILLISECOND
  }

  function From(kind: Kind): RoomStatus {
    if kind.Start? then PendingRoom else LiveRoom
  }

  function To(kind: Kind): RoomStatus {
    if kind.Start? then LiveRoom else EndedRoom
  }

  type Rooms = map<string, Room>

  function NewRoom(id: string, ownerId: string, title: string, now: int): Room {
    var named := if title == "" then DEFAULT_TITLE else title;
    Room(id, named, ownerId, PendingRoom, None, None, Truncated(now), Truncated(now))
  }

  /** What a call decides from the room it has read. */
  function Check(rooms: Rooms, kind: Kind, id: string, userId: string): Answer {
    if id !in rooms then NotFound
    else if rooms[id].ownerId != userId then Forbidden
    else if rooms[id].status.BannedRoom? then Banned
    else if rooms[id].status != From(kind) then InvalidTransition
    else Done
  }

  /** A start is stamped with the store's own clock, an end with the time the caller took. */
  function Changed(r: Room, kind: Kind, at: int, now: int): Room {
    var r' := r.(status := To(kind), updatedAt := Truncated(now));
    if kind.Start? then r'.(startedAt := Some(Truncated(now))) else r'.(endedAt := Some(Truncated(at)))
  }

  function Updated(rooms: Rooms, kind: Kind, id: string, at: int, now: int): (Rooms, Answer) {
    if id !in rooms then (rooms, NotFound)
    else if rooms[id].status != From(kind) then (rooms, InvalidTransition)
    else (rooms[id := Changed(rooms[id], kind, at, now)], Done)
  }

  class MemoryRoomStore {
    var rooms: Rooms

    constructor ()
      ensures rooms == map[]
    {
      rooms := map[];
    }

    method Create(room: Room)
      modifies this
      ensures rooms == old(rooms)[room.id := room]
    {
      rooms := rooms[room.id := room];
    }

    method FindByID(id: string) returns (r: Option<Room>)
      ensures r == if id in rooms then Some(rooms[id]) else None
    {
      r := if id in rooms then Some(rooms[id]) else None;
    }

    /** Updates only from the expected status: `from` and `to` are those of one kind of call. */
    method UpdateStatus(id: string, kind: Kind, changedAt: int, now: int) returns (r: Answer)
      modifies this
      ensures (rooms, r) == Updated(old(rooms), kind, id, changedAt, now)
    {
      if id !in rooms {
        return NotFound;
      }
      var room := rooms[id];
      if room.status != From(kind) {
        return InvalidTransition;
      }
      room := room.(status := To(kind));
      room := room.(updatedAt := Truncated(now));
      if To(kind) == LiveRoom {
        room := room.(startedAt := Some(Truncated(now)));
      }
      if To(kind) == EndedRoom {
        room := room.(endedAt := Some(Truncated(changedAt)));
      }
      rooms := rooms[id := room];
      return Done;
    }
  }

  class RoomService {
    const store: MemoryRoomStore

    constructor (store: MemoryRoomStore)
      ensures this.store == store
    {
      this.store := store;
    }

    method Create(id: string, ownerId: string, title: string, now: int) returns (r: Answer)
      modifies store
      ensures r == (if |title| > MAX_TITLE then TitleTooLong else Done)
      ensures store.rooms ==
        if r.Done? then old(store.rooms)[id := NewRoom(id, ownerId, title, now)] else old(store.rooms)
    {
      var named := if title == "" then DEFAULT_TITLE else title;
      if |named| > MAX_TITLE {
        return TitleTooLong;
      }
      store.Create(Room(id, named, ownerId, PendingRoom, None, None, Truncated(now), Truncated(now)));
      return Done;
    }

    /** StartRoom or EndRoom with nobody in between: the decision and the update see the same rooms. */
    method Change(kind: Kind, id: string, userId: string, changedAt: int, now: int) returns (r: Answer)
      modifies store
      ensures r == Check(old(store.rooms), kind, id, userId)
      ensures store.rooms == if r.Done? then Updated(old(store.rooms), kind, id, changedAt, now).0 else old(store.rooms)
    {
      var found := store.FindByID(id);
      if found.None? {
        return NotFound;
      }
      var room := found.value;
      if room.ownerId != userId {
        return Forbidden;
      }
      if room.status.BannedRoom? {
        return Banned;
      }
      if room.status != From(kind) {
        return InvalidTransition;
      }
      r := store.UpdateStatus(id, kind, changedAt, now);
    }
  }

  // ----- What a call answers and does -----

  /** A call's check passes exactly for the owner of a room that has the status it starts from; otherwise the first
      thing that stands against it is the answer. */
  lemma CheckedExactly(rooms: Rooms, kind: Kind, id: string, userId: string)
    ensures var r := Check(rooms, kind, id, userId);
      var owned := id in rooms && rooms[id].ownerId == userId;
      && (r == Done <==> owned && rooms[id].status == (if kind.Start? then PendingRoom else LiveRoom))
      && (r == NotFound <==> id !in rooms)
      && (r == Forbidden <==> id in rooms && rooms[id].ownerId != userId)
      && (r == Banned <==> owned && rooms[id].status == BannedRoom)
      && (r == InvalidTransition <==>
            owned && rooms[id].status !in {BannedRoom, if kind.Start? then PendingRoom else LiveRoom})
  {
  }

  /** An accepted update moves one room on and stamps it, whole milliseconds at most one below the clock's
      reading; a refused one changes nothing. */
  lemma UpdatedExactly(rooms: Rooms, kind: Kind, id: string, at: int, now: int)
    ensures var (rooms', r) := Updated(rooms, kind, id, at, now);
      && (r == Done <==> id in rooms && rooms[id].status == (if kind.Start? then PendingRoom else LiveRoom))
      && (r == NotFound <==> id !in rooms) && (r == Done || r == NotFound || r == InvalidTransition)
      && (r != Done ==> rooms' == rooms)
      && (r == Done ==>
            && id in rooms'
            && var room, room' := rooms[id], rooms'[id];
              && rooms' == rooms[id := room']
              && room' == room.(status := if kind.Start? then LiveRoom else EndedRoom, updatedAt := room'.updatedAt,
                                startedAt := room'.startedAt, endedAt := room'.endedAt)
              && IsStampOf(room'.updatedAt, now)
              && (kind.Start? ==>
                    room'.endedAt == room.endedAt && room'.startedAt.Some? && IsStampOf(room'.startedAt.value, now))
              && (kind.End? ==>
                    room'.startedAt == room.startedAt && room'.endedAt.Some? && IsStampOf(room'.endedAt.value, at)))
  {
    TruncatedIsStamp(now);
    TruncatedIsStamp(at);
  }

  /** The last whole millisecond that is not after this time. */
  predicate IsStampOf(stamp: int, t: int) {
    stamp % 1000000 == 0 && stamp <= t < stamp + 1000000
  }

  lemma TruncatedIsStamp(t: int)
    ensures IsStampOf(Truncated(t), t)
  {
  }

  /** A new room is its creator's, pending, and stamped. */
  lemma CreatedRoom(s: State, id: string, owner: string, title: string, now: int)
    requires |title| <= 100
    ensures var rooms := Step(s, CreateRoom(id, owner, title, now)).rooms;
      && id in rooms && rooms == s.rooms[id := rooms[id]]
      && var room := rooms[id];
        && room.id == id && room.ownerId == owner && room.status == PendingRoom
        && (title != "" ==> room.title == title) && (title == "" ==> room.title != "")
        && room.startedAt == None && room.endedAt == None
        && IsStampOf(room.createdAt, now) && room.updatedAt == room.createdAt
  {
    TruncatedIsStamp(now);
  }

  /** From the owner, a pending room is started and then ended, and neither a second time. */
  lemma OwnerStartsAndEnds(rooms: Rooms, id: string, at: int, start: int, end: int, again: int)
    requires id in rooms && rooms[id].status == PendingRoom
    ensures var owner := rooms[id].ownerId;
      var live := Updated(rooms, Start, id, at, start).0;
      var over := Updated(live, End, id, at, end).0;
      && Check(rooms, Start, id, owner) == Done && Check(rooms, End, id, owner) == InvalidTransition
      && Check(live, End, id, owner) == Done && Check(live, Start, id, owner) == InvalidTransition
      && Check(over, Start, id, owner) == InvalidTransition && Check(over, End, id, owner) == InvalidTransition
      && id in over && over[id].status == EndedRoom
      && Updated(over, Start, id, at, again).1 == InvalidTransition
      && Updated(over, End, id, at, again).1 == InvalidTransition
  {
  }

  // ----- Interleaved calls -----

  datatype Stage = Called | Checked | Timed(at: int) | Answered(answer: Answer)

  datatype Call = Call(kind: Kind, room: string, user: string, stage: Stage)

  /** A change that the store accepted. */
  datatype Change = Change(kind: Kind, room: string, user: string)

  datatype State = State(rooms: Rooms, calls: seq<Call>, changes: seq<Change>, clock: int)

  datatype Event =
    | CreateRoom(id: string, owner: string, title: string, now: int)
    | NewCall(kind: Kind, room: string, user: string)
    | Read(i: nat)
    | TakeTime(i: nat, now: int)
    | Update(i: nat, now: int)

  const NOTHING := State(map[], [], [], 0)

  function ReadStep(s: State, i: nat): State
    requires i < |s.calls|
  {
    var c := s.calls[i];
    if !c.stage.Called? then s else
    var answer := Check(s.rooms, c.kind, c.room, c.user);
    s.(calls := s.calls[i := c.(stage := if answer.Done? then Checked else Answered(answer))])
  }

  function TimeStep(s: State, i: nat, now: int): State
    requires i < |s.calls|
  {
    var c := s.calls[i];
    if !c.stage.Checked? then s else s.(calls := s.calls[i := c.(stage := Timed(now))], clock := now)
  }

  function UpdateStep(s: State, i: nat, now: int): State
    requires i < |s.calls|
  {
    var c := s.calls[i];
    if !c.stage.Timed? then s else
    var (rooms, answer) := Updated(s.rooms, c.kind, c.room, c.stage.at, now);
    State(rooms, s.calls[i := c.(stage := Answered(answer))],
          if answer.Done? then s.changes + [Change(c.kind, c.room, c.user)] else s.changes, now)
  }

  function Step(s: State, e: Event): State {
    match e
    case CreateRoom(id, owner, title, now) =>
      if |title| > MAX_TITLE then s.(clock := now)
      else s.(rooms := s.rooms[id := NewRoom(id, owner, title, now)], clock := now)
    case NewCall(kind, room, user) => s.(calls := s.calls + [Call(kind, room, user, Called)])
    case Read(i) => if i < |s.calls| then ReadStep(s, i) else s
    case TakeTime(i, now) => if i < |s.calls| then TimeStep(s, i, now) else s
    case Update(i, now) => if i < |s.calls| then UpdateStep(s, i, now) else s
  }

  function Run(events: seq<Event>): State {
    if events == [] then NOTHING else Step(Run(events[..|events| - 1]), events[|events| - 1])
  }

  /** Room IDs are fresh when their room is made. */
  predicate FreshIds(events: seq<Event>) {
    events != [] ==>
      && FreshIds(events[..|events| - 1])
      && (var last := events[|events| - 1]; last.CreateRoom? ==> last.id !in Run(events[..|events| - 1]).rooms)
  }

  predicate ClockRuns(events: seq<Event>) {
    events != [] ==>
      && ClockRuns(events[..|events| - 1])
      && (var s, last := Run(events[..|events| - 1]), events[|events| - 1];
          (last.CreateRoom? || last.TakeTime? || last.Update?) ==> s.clock <= last.now)
  }

  // ----- The order of a room's life -----

  predicate Follows(before: RoomStatus, after: RoomStatus) {
    after == before || (before == PendingRoom && after == LiveRoom) || (before == LiveRoom && after == EndedRoom)
  }

  /** One step moves a room's status along pending, live, ended or not at all; its owner never changes. */
  lemma StepFollows(s: State, e: Event, id: string)
    requires id in s.rooms && (e.CreateRoom? ==> e.id != id)
    ensures id in Step(s, e).rooms
    ensures Follows(s.rooms[id].status, Step(s, e).rooms[id].status)
    ensures Step(s, e).rooms[id].ownerId == s.rooms[id].ownerId
  {
  }

  function ChangeOf(kind: Kind, room: string): Change -> bool {
    (c: Change) => c.kind == kind && c.room == room
  }

  /** The status tells how many starts and ends have been accepted, and the time stamps are there to match. */
  ghost predicate RoomTells(s: State, id: string)
    requires id in s.rooms
  {
    var r := s.rooms[id];
    && !r.status.BannedRoom?
    && CountIf(s.changes, ChangeOf(Start, id)) == (if r.status.PendingRoom? then 0 else 1)
    && CountIf(s.changes, ChangeOf(End, id)) == (if r.status.EndedRoom? then 1 else 0)
    && (r.startedAt.Some? <==> r.status.LiveRoom? || r.status.EndedRoom?)
    && (r.endedAt.Some? <==> r.status.EndedRoom?)
  }

  predicate OwnerChanged(rooms: Rooms, c: Change) {
    c.room in rooms && rooms[c.room].ownerId == c.user
  }

  /** A call past its check is its room's owner. */
  predicate OwnerCalls(rooms: Rooms, c: Call) {
    c.stage.Checked? || c.stage.Timed? ==> c.room in rooms && rooms[c.room].ownerId == c.user
  }

  ghost predicate Orderly(s: State) {
    && (forall id :: id in s.rooms ==> RoomTells(s, id))
    && (forall c :: c in s.changes ==> OwnerChanged(s.rooms, c))
    && (forall i :: 0 <= i < |s.calls| ==> OwnerCalls(s.rooms, s.calls[i]))
  }

  lemma CreateKeepsOrder(s: State, id: string, owner: string, title: string, now: int)
    requires Orderly(s) && id !in s.rooms
    ensures Orderly(Step(s, CreateRoom(id, owner, title, now)))
  {
    var s' := Step(s, CreateRoom(id, owner, title, now));
    forall k | k in s'.rooms ensures RoomTells(s', k) {
      if k == id {
        NoneCounted(s.changes, ChangeOf(Start, id));
        NoneCounted(s.changes, ChangeOf(End, id));
      } else {
        assert RoomTells(s, k);
      }
    }
  }

  lemma UpdateKeepsOrder(s: State, i: nat, now: int)
    requires Orderly(s) && i < |s.calls|
    ensures Orderly(UpdateStep(s, i, now))
  {
    var s' := UpdateStep(s, i, now);
    var c := s.calls[i];
    assert OwnerCalls(s.rooms, c);
    forall k | k in s'.rooms ensures RoomTells(s', k) {
      assert RoomTells(s, k);
      CountAfterAppend(s.changes, Change(c.kind, c.room, c.user), ChangeOf(Start, k));
      CountAfterAppend(s.changes, Change(c.kind, c.room, c.user), ChangeOf(End, k));
    }
  }

  lemma ReadKeepsOrder(s: State, i: nat, now: int)
    requires Orderly(s) && i < |s.calls|
    ensures Orderly(ReadStep(s, i)) && Orderly(TimeStep(s, i, now))
  {
    forall k | k in s.rooms ensures RoomTells(ReadStep(s, i), k) && RoomTells(TimeStep(s, i, now), k) {
      assert RoomTells(s, k);
    }
  }

  lemma StepKeepsOrder(s: State, e: Event)
    requires Orderly(s) && (e.CreateRoom? ==> e.id !in s.rooms)
    ensures Orderly(Step(s, e))
  {
    match e
    case CreateRoom(id, owner, title, now) => CreateKeepsOrder(s, id, owner, title, now);
    case NewCall(_, _, _) =>
      forall k | k in s.rooms ensures RoomTells(Step(s, e), k) {
        assert RoomTells(s, k);
      }
    case Read(i) => if i < |s.calls| { ReadKeepsOrder(s, i, 0); }
    case TakeTime(i, now) => if i < |s.calls| { ReadKeepsOrder(s, i, now); }
    case Update(i, now) => if i < |s.calls| { UpdateKeepsOrder(s, i, now); }
  }

  /** However the calls interleave: at most one start and one end of a room are ever accepted, only its
      owner's, in that order, and the two time stamps are present exactly when they should be. */
  lemma {:induction false} EveryRunIsOrderly(events: seq<Event>)
    requires FreshIds(events)
    ensures Orderly(Run(events))
  {
    if events != [] {
      EveryRunIsOrderly(events[..|events| - 1]);
      StepKeepsOrder(Run(events[..|events| - 1]), events[|events| - 1]);
    }
  }

  // ----- A call by itself -----

  lemma OneMoreEvent(events: seq<Event>, e: Event)
    ensures Run(events + [e]) == Step(Run(events), e)
  {
    assert (events + [e])[..|events|] == events;
  }

  /** After any run, a call that meets nobody in between goes through exactly when its check passes, and then
      the room has changed and the change is on record. */
  lemma UndisturbedCall(events: seq<Event>, kind: Kind, id: string, user: string, at: int, now: int)
    ensures var s := Run(events);
      var i := |s.calls|;
      var s' := Run(events + [NewCall(kind, id, user)] + [Read(i)] + [TakeTime(i, at)] + [Update(i, now)]);
      var answer := Check(s.rooms, kind, id, user);
      && s'.calls == s.calls + [Call(kind, id, user, Answered(answer))]
      && s'.changes == s.changes + (if answer.Done? then [Change(kind, id, user)] else [])
      && s'.rooms == (if answer.Done? then Updated(s.rooms, kind, id, at, now).0 else s.rooms)
  {
    var s := Run(events);
    var i := |s.calls|;
    var called := events + [NewCall(kind, id, user)];
    OneMoreEvent(events, NewCall(kind, id, user));
    OneMoreEvent(called, Read(i));
    OneMoreEvent(called + [Read(i)], TakeTime(i, at));
    OneMoreEvent(called + [Read(i)] + [TakeTime(i, at)], Update(i, now));
    assert s.changes + [] == s.changes;
    AloneSteps(Run(called), i, at, now);
  }

  lemma AloneSteps(s: State, i: nat, at: int, now: int)
    requires i < |s.calls| && s.calls[i].stage == Called
    ensures var c := s.calls[i];
      var answer := Check(s.rooms, c.kind, c.room, c.user);
      var s' := Step(Step(Step(s, Read(i)), TakeTime(i, at)), Update(i, now));
      && s'.calls == s.calls[i := c.(stage := Answered(answer))]
      && s'.changes == s.changes + (if answer.Done? then [Change(c.kind, c.room, c.user)] else [])
      && s'.rooms == (if answer.Done? then Updated(s.rooms, c.kind, c.room, at, now).0 else s.rooms)
  {
    assert s.changes + [] == s.changes;
  }

  // ----- The order of the two time stamps -----

  /** An end call that has seen its room live has a start stamp no later than the time it goes on to take. */
  predicate EndAfterStart(rooms: Rooms, c: Call, clock: int) {
    c.kind.End? && (c.stage.Checked? || c.stage.Timed?) ==>
      && c.room in rooms && rooms[c.room].startedAt.Some?
      && rooms[c.room].startedAt.value <= Truncated(if c.stage.Timed? then c.stage.at else clock)
  }

  predicate Stamped(r: Room, clock: int) {
    && (r.startedAt.Some? ==> r.startedAt.value <= Truncated(clock))
    && (r.startedAt.Some? && r.endedAt.Some? ==> r.startedAt.value <= r.endedAt.value)
    && (r.status.LiveRoom? ==> r.startedAt.Some?)
    && (r.status.PendingRoom? ==> r.startedAt.None?)
    && (r.endedAt.Some? ==> r.startedAt.Some?)
  }

  ghost predicate Timely(s: State) {
    && (forall id :: id in s.rooms ==> Stamped(s.rooms[id], s.clock))
    && (forall i :: 0 <= i < |s.calls| ==> EndAfterStart(s.rooms, s.calls[i], s.clock))
  }

  lemma TruncatedKeepsOrder(a: int, b: int)
    requires a <= b
    ensures Truncated(a) <= Truncated(b)
  {
  }

  lemma StepKeepsTime(s: State, e: Event)
    requires Timely(s) && (e.CreateRoom? ==> e.id !in s.rooms)
    requires e.CreateRoom? || e.TakeTime? || e.Update? ==> s.clock <= e.now
    ensures Timely(Step(s, e))
  {
    var s' := Step(s, e);
    if s.clock <= s'.clock {
      TruncatedKeepsOrder(s.clock, s'.clock);
    }
    match e
    case CreateRoom(_, _, _, _) =>
    case NewCall(_, _, _) =>
    case Read(i) =>
    case TakeTime(i, now) =>
    case Update(i, now) => if i < |s.calls| { UpdateKeepsTime(s, i, now); }
  }

  lemma UpdateKeepsTime(s: State, i: nat, now: int)
    requires Timely(s) && i < |s.calls| && s.clock <= now
    ensures Timely(UpdateStep(s, i, now))
  {
    var s' := UpdateStep(s, i, now);
    TruncatedKeepsOrder(s.clock, now);
    var c := s.calls[i];
    assert EndAfterStart(s.rooms, c, s.clock);
    forall id | id in s'.rooms ensures Stamped(s'.rooms[id], s'.clock) {
      assert Stamped(s.rooms[id], s.clock);
    }
  }

  /** Although the two stamps come from different clock readings, a room never ends before it started. */
  lemma {:induction false} StartedBeforeEnded(events: seq<Event>)
    requires FreshIds(events) && ClockRuns(events)
    ensures Timely(Run(events))
  {
    if events != [] {
      StartedBeforeEnded(events[..|events| - 1]);
      StepKeepsTime(Run(events[..|events| - 1]), events[|events| - 1]);
    }
  }
}
