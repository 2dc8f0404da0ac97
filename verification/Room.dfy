/** One room's event loop: it alone changes its client set, fans every broadcast out to all clients, and
    evicts a client whose send buffer is full. A schedule lists what the loop's select receives, mixed with
    what the clients' own pumps do in between; the loop ends when the stop signal is received. */
module Rooms {

  /** What sits in a client's send buffer: a room broadcast, or a reply or history page of its own. */
  datatype Frame = Fanout(data: string) | Own(data: string)

  function Fanouts(frames: seq<Frame>): seq<string> {
    if frames == [] then [] else
    var last := frames[|frames| - 1];
    Fanouts(frames[..|frames| - 1]) + if last.Fanout? then [last.data] else []
  }

  lemma FanoutsAfter(frames: seq<Frame>, f: Frame)
    ensures Fanouts(frames + [f]) == if f.Fanout? then Fanouts(frames) + [f.data] else Fanouts(frames)
  {
    assert (frames + [f])[..|frames|] == frames;
  }

  lemma FanoutAppended(taken: seq<Frame>, send: seq<Frame>, data: string)
    ensures Fanouts(taken + (send + [Fanout(data)])) == Fanouts(taken + send) + [data]
  {
    FanoutsAfter(taken + send, Fanout(data));
    assert taken + (send + [Fanout(data)]) == taken + send + [Fanout(data)];
  }

  class Client {
    const capacity: nat
    var send: seq<Frame>
    var stopped: bool
    ghost var taken: seq<Frame>
    var failed: bool

    constructor (capacity: nat)
      ensures this.capacity == capacity && send == [] && !stopped && taken == [] && !failed
    {
      this.capacity := capacity;
      send, stopped, taken, failed := [], false, [], false;
    }

    ghost function Now(): ClientState
      reads this
    {
      ClientState(send, taken, failed, stopped)
    }

    /** The broadcasts that have ever been put on this client's send buffer, in order. */
    ghost function Heard(): seq<string>
      reads this`send, this`taken
    {
      Fanouts(taken + send)
    }

    /** What the write pump has put on the wire: all it has taken, but for the frame on which a write failed. */
    ghost function Written(): seq<Frame>
      reads this`taken, this`failed
    {
      if failed && taken != [] then taken[..|taken| - 1] else taken
    }

    /** The room's non-blocking send. */
    method Offer(data: string) returns (ok: bool)
      modifies this`send
      ensures ok <==> |old(send)| < capacity
      ensures Heard() == if ok then old(Heard()) + [data] else old(Heard())
      ensures send == if ok then old(send) + [Fanout(data)] else old(send)
    {
      ok := |send| < capacity;
      if ok {
        FanoutAppended(taken, send, data);
        send := send + [Fanout(data)];
      }
    }

    /** A reply or a history page: refused once the client is stopped, dropped when the buffer is full. */
    method Enqueue(data: string) returns (ok: bool)
      modifies this`send
      ensures ok <==> !stopped && |old(send)| < capacity
      ensures Heard() == old(Heard())
      ensures send == if ok then old(send) + [Own(data)] else old(send)
    {
      ok := !stopped && |send| < capacity;
      if ok {
        FanoutsAfter(taken + send, Own(data));
        assert taken + (send + [Own(data)]) == taken + send + [Own(data)];
        send := send + [Own(data)];
      }
    }

    /** The write pump takes the oldest frame off the buffer and writes it. When the write fails the frame is
        lost, the pump ends, taking nothing more, and the client is stopped. */
    method WriteOne(writes: bool)
      modifies this`send, this`taken, this`failed, this`stopped
      ensures Heard() == old(Heard()) && taken + send == old(taken + send)
      ensures var idle := old(failed) || old(send) == [];
        && (if idle then send == old(send) && taken == old(taken)
            else send == old(send)[1..] && taken == old(taken) + [old(send)[0]])
        && failed == (old(failed) || (!idle && !writes))
        && stopped == (old(stopped) || (!idle && !writes))
        && Written() == if idle || !writes then old(Written()) else old(Written()) + [old(send)[0]]
    {
      if !failed && send != [] {
        assert taken + send == taken + [send[0]] + send[1..];
        taken, send := taken + [send[0]], send[1..];
        if !writes {
          failed := true;
          Stop();
        }
      }
    }

    method Stop()
      modifies this`stopped
      ensures stopped
    {
      stopped := true;
    }
  }

  /** A client's buffer, what its write pump has taken, and whether a write has failed or the client is stopped. */
  datatype ClientState = ClientState(send: seq<Frame>, taken: seq<Frame>, failed: bool, stopped: bool)

  /** Why and when a client left: `at` is how many broadcasts the room had fanned out by then. */
  datatype Leaving =
    | Unregistered(at: nat)
    | Evicted(at: nat, backlog: seq<Frame>)
    | RoomStopped(at: nat)

  datatype Event =
    | Register(client: Client)
    | Unregister(client: Client)
    | Broadcast(data: string)
    | PumpWrites(client: Client, writes: bool)
    | PumpEnqueues(client: Client, data: string)
    | PumpStops(client: Client)

  predicate OfPump(e: Event) {
    e.PumpWrites? || e.PumpEnqueues? || e.PumpStops?
  }

  /** What an action of a client's own pumps makes of the client. */
  ghost function AfterPump(e: Event, c: ClientState): ClientState
    requires OfPump(e)
  {
    match e
    case PumpWrites(_, writes) =>
      if c.failed || c.send == [] then c
      else c.(send := c.send[1..], taken := c.taken + [c.send[0]], failed := !writes, stopped := c.stopped || !writes)
    case PumpEnqueues(client, data) =>
      if !c.stopped && |c.send| < client.capacity then c.(send := c.send + [Own(data)]) else c
    case PumpStops(_) => c.(stopped := true)
  }

  /** Only a client with a full buffer is evicted. */
  predicate Fair(c: Client, why: Leaving) {
    why.Evicted? ==> |why.backlog| >= c.capacity
  }

  predicate Segment(heard: seq<string>, history: seq<string>, from: nat, to: nat) {
    from <= to <= |history| && heard == history[from..to]
  }

  lemma SegmentAfter(heard: seq<string>, history: seq<string>, from: nat, to: nat, data: string)
    requires Segment(heard, history, from, to)
    ensures Segment(heard, history + [data], from, to)
    ensures to == |history| ==> Segment(heard + [data], history + [data], from, to + 1)
  {
  }

  /** What the first `n` events make the room fan out. */
  function Broadcasts(events: seq<Event>, n: nat): seq<string>
    requires n <= |events|
  {
    if n == 0 then [] else
    var last := events[n - 1];
    Broadcasts(events, n - 1) + if last.Broadcast? then [last.data] else []
  }

  function Touches(e: Event): set<Client> {
    if e.Broadcast? then {} else {e.client}
  }

  /** All clients that the events are about are among these. */
  ghost predicate AreAmong(events: seq<Event>, cast: set<Client>) {
    forall i {:trigger Touches(events[i])} :: 0 <= i < |events| ==> Touches(events[i]) <= cast
  }

  function Registered(events: seq<Event>, n: nat): set<Client>
    requires n <= |events|
  {
    set i | 0 <= i < n && events[i].Register? :: events[i].client
  }

  ghost predicate Silent(clients: set<Client>)
    reads clients
  {
    forall c :: c in clients ==> c.Heard() == []
  }

  lemma RegisteredAreAmong(events: seq<Event>, n: nat, cast: set<Client>)
    requires n <= |events| && AreAmong(events, cast)
    ensures Registered(events, n) <= Registered(events, |events|) && Registered(events, n) <= cast
  {
    forall i | 0 <= i < n && events[i].Register? ensures events[i].client in cast {
      assert Touches(events[i]) <= cast;
    }
  }

  lemma LateComers(all: set<Client>, before: set<Client>, after: set<Client>)
    requires before <= after
    ensures all - before - after == all - after
  {
  }

  lemma RegisteredAfter(events: seq<Event>, n: nat)
    requires n < |events|
    ensures Registered(events, n + 1)
         == Registered(events, n) + if events[n].Register? then {events[n].client} else {}
  {
  }

  lemma NextIsNew(events: seq<Event>, n: nat)
    requires n < |events| && RegistersOnce(events) && events[n].Register?
    ensures events[n].client in Registered(events, |events|) - Registered(events, n)
  {
  }

  /** From here on the room only takes broadcasts; the clients' pumps go on. */
  predicate DrainsFrom(events: seq<Event>, n: nat) {
    forall i :: n <= i < |events| ==> !events[i].Register? && !events[i].Unregister?
  }

  lemma NobodyRegistersInTheDrain(events: seq<Event>, n: nat)
    requires n <= |events| && DrainsFrom(events, n)
    ensures Registered(events, |events|) == Registered(events, n)
  {
  }

  /** Every client is registered once, as its handshake does right after making it. */
  predicate RegistersOnce(events: seq<Event>) {
    forall i, j :: 0 <= i < j < |events| && events[i].Register? && events[j].Register? ==>
      events[i].client != events[j].client
  }

  class Room {
    var clients: set<Client>
    var count: int
    var listed: bool
    ghost var history: seq<string>
    ghost var joined: map<Client, nat>
    ghost var gone: map<Client, Leaving>

    constructor ()
      ensures Valid() && clients == {} && listed && history == [] && joined == map[] && gone == map[]
    {
      clients, count, listed := {}, 0, true;
      history, joined, gone := [], map[], map[];
    }

    /** A client in the room has heard every broadcast since it joined; one that left, every broadcast up to
        when it left, and it is stopped. No client hears anything twice, out of order, or with a gap. */
    ghost predicate Follows(c: Client)
      reads this`clients, this`history, this`joined, this`gone, c
      requires c in joined
    {
      if c in clients then c !in gone && Segment(c.Heard(), history, joined[c], |history|)
      else c in gone && c.stopped && Segment(c.Heard(), history, joined[c], gone[c].at) && Fair(c, gone[c])
    }

    ghost predicate Standing()
      reads this`clients, this`history, this`joined, this`gone, joined.Keys
    {
      clients <= joined.Keys && gone.Keys <= joined.Keys && (forall c :: c in joined ==> Follows(c))
    }

    ghost predicate Valid()
      reads this, joined.Keys
    {
      Standing() && count == |clients|
    }

    method AddClient(c: Client)
      requires Valid() && c !in joined && c.Heard() == []
      modifies this
      ensures Valid()
      ensures clients == old(clients) + {c}
      ensures joined == old(joined)[c := |history|] && gone == old(gone)
      ensures history == old(history) && listed == old(listed)
    {
      clients := clients + {c};
      count := count + 1;
      joined := joined[c := |history|];
      forall d | d in joined ensures Follows(d) {
        assert d != c ==> old(Follows(d));
      }
    }

    /** Takes a member out of the client map and stops it; the count is the caller's business. */
    method Depart(c: Client, ghost why: Leaving)
      requires Standing() && c in clients && why.at == |history| && !why.Evicted?
      modifies this`clients, this`gone, c`stopped
      ensures Standing() && clients == old(clients) - {c} && gone == old(gone)[c := why] && c.stopped
    {
      assert Follows(c);
      clients := clients - {c};
      c.Stop();
      gone := gone[c := why];
    }

    /** A client that is not a member (already evicted, or unregistered before) is ignored. */
    method RemoveClient(c: Client)
      requires Valid()
      modifies this, c`stopped
      ensures Valid()
      ensures clients == old(clients) - {c} && history == old(history) && joined == old(joined)
      ensures gone == if c in old(clients) then old(gone)[c := Unregistered(|history|)] else old(gone)
      ensures listed == (old(listed) && (c !in old(clients) || clients != {}))
      ensures c.stopped == (old(c.stopped) || c in old(clients))
    {
      if c in clients {
        Depart(c, Unregistered(|history|));
        OneFewer();
      }
    }

    /** Counts a departure; the room leaves the hub's list when the last client does. */
    method OneFewer()
      requires Standing() && count == |clients| + 1
      modifies this`count, this`listed
      ensures Valid() && listed == (old(listed) && clients != {})
    {
      count := count - 1;
      if count == 0 {
        listed := false;
      }
    }

    /** One turn of the fan-out loop: a client that cannot take the broadcast is stopped and dropped. */
    method OfferTo(c: Client, data: string)
      requires c in clients && count == |clients|
      modifies this`clients, this`count, this`gone, c`send, c`stopped
      ensures count == |clients|
      ensures old(|c.send|) < c.capacity ==> Got(c, data) && clients == old(clients) && gone == old(gone)
      ensures old(|c.send|) >= c.capacity ==>
        Missed(c) && clients == old(clients) - {c} && gone == old(gone)[c := Evicted(|history|, old(c.send))]
    {
      var ok := c.Offer(data);
      if !ok {
        c.Stop();
        clients := clients - {c};
        count := count - 1;
        gone := gone[c := Evicted(|history|, c.send)];
      }
    }

    /** Offers one broadcast to every client, in any order, and evicts those whose buffer is full. */
    method OfferToAll(data: string)
      requires count == |clients| && clients !! gone.Keys
      modifies this`clients, this`count, this`gone, clients
      ensures count == |clients|
      ensures clients == set c | c in old(clients) && old(|c.send|) < c.capacity
      ensures forall c :: c in clients ==> Got(c, data)
      ensures forall c :: c in old(clients) - clients ==>
        Missed(c) && c in gone && gone[c] == Evicted(|history|, old(c.send))
      ensures gone.Keys == old(gone.Keys) + (old(clients) - clients)
      ensures forall c :: c in old(gone) ==> gone[c] == old(gone[c])
    {
      var todo := clients;
      ghost var members := clients;
      while todo != {}
        invariant todo <= clients <= members && count == |clients|
        invariant gone.Keys == old(gone.Keys) + (members - clients)
        invariant forall c :: c in todo ==> Untouched(c)
        invariant forall c :: c in members && c !in todo ==>
          (c in clients <==> |old(c.send)| < c.capacity) && Served(c, data)
        invariant forall c :: c in members - clients ==> gone[c] == Evicted(|history|, old(c.send))
        invariant forall c :: c in old(gone) ==> gone[c] == old(gone[c])
        decreases |todo|
      {
        var c :| c in todo;
        todo := todo - {c};
        OfferTo(c, data);
      }
    }

    /** The clients that can take one more frame. */
    ghost function WithSpace(): set<Client>
      reads this`clients, clients
    {
      set c | c in clients && |c.send| < c.capacity
    }

    method BroadcastToClients(data: string)
      requires Valid()
      modifies this, clients
      ensures Valid()
      ensures history == old(history) + [data] && joined == old(joined) && listed == old(listed)
      ensures clients == old(WithSpace())
      ensures gone.Keys == old(gone.Keys) + (old(clients) - clients)
      ensures forall c :: c in old(clients) - clients ==> gone[c] == Evicted(|old(history)|, old(c.send))
      ensures forall c :: c in old(gone) ==> gone[c] == old(gone[c])
    {
      assert clients !! gone.Keys by {
        forall c | c in clients ensures c !in gone {
          assert Follows(c);
        }
      }
      OfferToAll(data);
      history := history + [data];
      forall c | c in joined ensures Follows(c) {
        assert old(Follows(c));
        if c in clients {
          FanoutAppended(old(c.taken), old(c.send), data);
        }
        SegmentAfter(old(c.Heard()), old(history), joined[c],
                     if c in old(clients) then |old(history)| else gone[c].at, data);
      }
    }

    /** One event: one round of the loop's select, or one action of a client's own pumps. */
    method Handle(e: Event)
      requires Valid()
      requires e.Register? ==> e.client !in joined && e.client.Heard() == []
      modifies this, clients, Touches(e)
      ensures Valid()
      ensures Stepped(e, old(Books()), Books())
      ensures !e.Broadcast? ==> e.client.Heard() == old(e.client.Heard())
      ensures e.Register? ==> clients == old(clients) + {e.client}
      ensures e.Unregister? ==> clients == old(clients) - {e.client}
      ensures e.Broadcast? ==> clients == old(WithSpace())
      ensures OfPump(e) ==> unchanged(this) && e.client.Now() == AfterPump(e, old(e.client.Now()))
      ensures listed == (old(listed) && !(e.Unregister? && e.client in old(clients) && clients == {}))
    {
      match e
      case Register(c) => AddClient(c);
      case Unregister(_) => HandleUnregister(e);
      case Broadcast(_) => HandleBroadcast(e);
      case _ => PumpActs(e);
    }

    method HandleUnregister(e: Event)
      requires Valid() && e.Unregister?
      modifies this, e.client`stopped
      ensures Valid() && Stepped(e, old(Books()), Books())
      ensures clients == old(clients) - {e.client}
      ensures listed == (old(listed) && !(e.client in old(clients) && clients == {}))
    {
      assert e.client in joined ==> Follows(e.client);
      RemoveClient(e.client);
    }

    method HandleBroadcast(e: Event)
      requires Valid() && e.Broadcast?
      modifies this, clients
      ensures Valid() && Stepped(e, old(Books()), Books()) && listed == old(listed)
      ensures clients == old(WithSpace())
    {
      BroadcastToClients(e.data);
    }

    /** What a client's own pumps do is nothing to the room. */
    method PumpActs(e: Event)
      requires Valid() && OfPump(e)
      modifies Touches(e)
      ensures Valid() && e.client.Heard() == old(e.client.Heard())
      ensures unchanged(this) && e.client.Now() == AfterPump(e, old(e.client.Now()))
    {
      match e {
        case PumpWrites(c, writes) => c.WriteOne(writes);
        case PumpEnqueues(c, data) => var _ := c.Enqueue(data);
        case PumpStops(c) => c.Stop();
      }
      forall d | d in joined ensures Follows(d) {
        assert old(Follows(d));
      }
    }

    method StopAll()
      requires Valid()
      modifies this, clients
      ensures Valid() && clients == {}
      ensures history == old(history) && joined == old(joined)
      ensures forall c :: c in old(gone) ==> c in gone && gone[c] == old(gone[c])
      ensures forall c :: c in gone ==> c in old(gone) || gone[c] == RoomStopped(|history|)
    {
      ghost var members := clients;
      while clients != {}
        invariant clients <= members && Standing()
        invariant history == old(history) && joined == old(joined)
        invariant forall c :: c in old(gone) ==> c in gone && gone[c] == old(gone[c])
        invariant forall c :: c in gone ==> c in old(gone) || gone[c] == RoomStopped(|history|)
        decreases clients
      {
        StopOne();
      }
      count := 0;
    }

    method StopOne()
      requires Standing() && clients != {}
      modifies this`clients, this`gone, clients
      ensures Standing() && clients < old(clients)
      ensures forall c :: c in old(gone) ==> c in gone && gone[c] == old(gone[c])
      ensures forall c :: c in gone ==> c in old(gone) || gone[c] == RoomStopped(|history|)
    {
      var c :| c in clients;
      assert Follows(c);
      Depart(c, RoomStopped(|history|));
    }

    /** One event, with the clients still `waiting` to register staying silent. */
    method HandleApart(e: Event, ghost waiting: set<Client>)
      requires Valid()
      requires Silent(waiting) && waiting !! joined.Keys && (e.Register? ==> e.client in waiting)
      modifies this, clients, Touches(e)
      ensures Valid()
      ensures Stepped(e, old(Books()), Books())
      ensures joined.Keys == old(joined.Keys) + if e.Register? then {e.client} else {}
      ensures Silent(waiting - joined.Keys)
    {
      Handle(e);
      JoinsAfter(e, old(Books()), Books());
      forall c | c in waiting - joined.Keys ensures c.Heard() == [] {
        assert old(c.Heard()) == [];
      }
    }

    ghost function Books(): Account
      reads this`history, this`joined, this`gone
    {
      Account(history, joined, gone)
    }

    /** The clients whose registration is still to come have heard nothing. */
    ghost predicate Awaiting(events: seq<Event>)
      reads this`joined, Registered(events, |events|)
    {
      Silent(Registered(events, |events|) - joined.Keys)
    }

    method HandleNext(events: seq<Event>, i: nat)
      requires i < |events| && RegistersOnce(events)
      requires Valid() && joined.Keys == Registered(events, i) && Awaiting(events)
      modifies this, clients, Touches(events[i])
      ensures Valid() && joined.Keys == Registered(events, i + 1) && Awaiting(events)
      ensures Stepped(events[i], old(Books()), Books())
    {
      ghost var waiting := Registered(events, |events|) - joined.Keys;
      RegisteredAfter(events, i);
      if events[i].Register? {
        NextIsNew(events, i);
      }
      HandleApart(events[i], waiting);
      LateComers(Registered(events, |events|), old(joined.Keys), joined.Keys);
    }

    /** The next event, after which the books tell of it too. */
    method HandleTold(events: seq<Event>, i: nat, ghost cast: set<Client>)
      requires AreAmong(events, cast)
      requires i < |events| && RegistersOnce(events)
      requires Valid() && Tells(Books(), events, i) && Awaiting(events)
      modifies this, cast
      ensures Valid() && Tells(Books(), events, i + 1) && Awaiting(events)
    {
      ghost var before := Books();
      RegisteredAreAmong(events, i, cast);
      assert Touches(events[i]) <= cast;
      HandleNext(events, i);
      TellsMore(before, Books(), events, i);
    }

    /** The room is in order, its books tell of the first `i` events, and the clients to come are silent. */
    ghost predicate UpTo(events: seq<Event>, i: nat)
      requires i <= |events|
      reads this, joined.Keys, Registered(events, |events|)
    {
      Valid() && Tells(Books(), events, i) && Awaiting(events)
    }

    /** Handles events whose predecessors the books tell of; then they tell of these too. */
    method HandleTelling(events: seq<Event>, from: nat, to: nat, ghost cast: set<Client>)
      requires AreAmong(events, cast) && from <= to <= |events| && RegistersOnce(events) && UpTo(events, from)
      modifies this, cast
      ensures UpTo(events, to)
    {
      var i := from;
      ghost var told := true;
      while i < to
        invariant from <= i <= to
        invariant told == UpTo(events, i) && told
      {
        HandleTold(events, i, cast);
        i := i + 1;
        told := UpTo(events, i);
      }
    }

    /** The deferred end of the loop: what is still in the broadcast buffer is fanned out, the pumps going on
        meanwhile, and then every client is stopped. */
    method Exit(events: seq<Event>, stop: nat, ghost cast: set<Client>)
      requires AreAmong(events, cast)
      requires stop <= |events| && DrainsFrom(events, stop)
      requires Valid() && Tells(Books(), events, stop)
      requires RegistersOnce(events) && Awaiting(events)
      modifies this, cast
      ensures Valid() && clients == {}
      ensures history == Broadcasts(events, |events|) && joined.Keys == Registered(events, stop)
      ensures forall j {:trigger JoinedThen(joined, events, j)} ::
        0 <= j < |events| && events[j].Register? ==> JoinedThen(joined, events, j)
      ensures forall c :: c in gone ==> Explained(events, |events|, c, gone[c]) || gone[c] == RoomStopped(|history|)
      ensures forall j {:trigger LeftBy(gone, events, j)} ::
        0 <= j < |events| && events[j].Unregister? ==> LeftBy(gone, events, j)
    {
      HandleTelling(events, stop, |events|, cast);
      RegisteredAreAmong(events, |events|, cast);
      NobodyRegistersInTheDrain(events, stop);
      ghost var before := Books();
      StopAll();
      EndTells(before, Books(), events);
    }

    /** The whole life of a room: the first `stop` events are what its loop sees before it receives the stop
        signal, the others what its final drain sees. */
    method Run(events: seq<Event>, stop: nat, ghost cast: set<Client>)
      requires AreAmong(events, cast)
      requires stop <= |events| && DrainsFrom(events, stop)
      requires Valid() && clients == {} && joined == map[] && gone == map[] && history == []
      requires RegistersOnce(events) && Awaiting(events)
      modifies this, cast
      ensures clients == {} && count == 0
      ensures history == Broadcasts(events, |events|)
      ensures joined.Keys == Registered(events, stop)
      ensures forall j {:trigger JoinedThen(joined, events, j)} ::
        0 <= j < |events| && events[j].Register? ==> JoinedThen(joined, events, j)
      ensures forall c :: c in joined ==> c.stopped && c in gone && Segment(c.Heard(), history, joined[c], gone[c].at)
      ensures forall c :: c in joined ==> Fair(c, gone[c])
      ensures forall c :: c in joined ==> Explained(events, |events|, c, gone[c]) || gone[c] == RoomStopped(|history|)
      ensures forall j {:trigger LeftBy(gone, events, j)} ::
        0 <= j < |events| && events[j].Unregister? ==> LeftBy(gone, events, j)
    {
      HandleTelling(events, 0, stop, cast);
      Exit(events, stop, cast);
      forall c | c in joined
        ensures c in gone && c.stopped && Segment(c.Heard(), history, joined[c], gone[c].at) && Fair(c, gone[c])
      {
        assert Follows(c);
      }
    }
  }

  /** The event that made a client leave the loop, at the time it says. */
  predicate Causes(e: Event, c: Client, why: Leaving, at: nat) {
    why.at == at && ((why.Unregistered? && e == Unregister(c)) || (why.Evicted? && e.Broadcast?))
  }

  predicate JoinedThen(joined: map<Client, nat>, events: seq<Event>, j: nat)
    requires j < |events| && events[j].Register?
  {
    events[j].client in joined && joined[events[j].client] == |Broadcasts(events, j)|
  }

  predicate ExplainedBy(events: seq<Event>, j: nat, c: Client, why: Leaving)
    requires j < |events|
  {
    Causes(events[j], c, why, |Broadcasts(events, j)|)
  }

  /** One of the first `n` events explains why this client left when it did. */
  ghost predicate Explained(events: seq<Event>, n: nat, c: Client, why: Leaving)
    requires n <= |events|
  {
    exists j {:trigger ExplainedBy(events, j, c, why)} :: 0 <= j < n && ExplainedBy(events, j, c, why)
  }

  /** Stopping the clients that are left changes nothing about those that had left. */
  lemma EndTells(before: Account, after: Account, events: seq<Event>)
    requires Tells(before, events, |events|)
    requires after.history == before.history && after.joined == before.joined
    requires forall c :: c in before.gone ==> c in after.gone && after.gone[c] == before.gone[c]
    requires forall c :: c in after.gone ==> c in before.gone || after.gone[c] == RoomStopped(|after.history|)
    ensures after.history == Broadcasts(events, |events|)
    ensures forall j {:trigger JoinedThen(after.joined, events, j)} ::
      0 <= j < |events| && events[j].Register? ==> JoinedThen(after.joined, events, j)
    ensures forall c :: c in after.gone ==>
      Explained(events, |events|, c, after.gone[c]) || after.gone[c] == RoomStopped(|after.history|)
    ensures forall j {:trigger LeftBy(after.gone, events, j)} ::
      0 <= j < |events| && events[j].Unregister? ==> LeftBy(after.gone, events, j)
  {
    forall c | c in after.gone && after.gone[c] != RoomStopped(|after.history|)
      ensures Explained(events, |events|, c, after.gone[c])
    {
      assert Explained(events, |events|, c, before.gone[c]);
    }
    forall j | 0 <= j < |events| && events[j].Unregister? ensures LeftBy(after.gone, events, j) {
      assert LeftBy(before.gone, events, j);
    }
  }

  /** A client that had joined by the time it was unregistered has left by then, and hears nothing after. */
  ghost predicate LeftBy(gone: map<Client, Leaving>, events: seq<Event>, j: nat)
    requires j < |events| && events[j].Unregister?
  {
    var c := events[j].client;
    c in Registered(events, j) ==> c in gone && gone[c].at <= |Broadcasts(events, j)|
  }

  /** Nobody who has left comes back, or leaves again. */
  ghost predicate Keeps(before: map<Client, Leaving>, after: map<Client, Leaving>) {
    forall c {:trigger StillGone(before, after, c)} :: c in before ==> StillGone(before, after, c)
  }

  predicate StillGone(before: map<Client, Leaving>, after: map<Client, Leaving>, c: Client) {
    c in before && c in after && after[c] == before[c]
  }

  lemma {:induction false} MoreBroadcasts(events: seq<Event>, j: nat, n: nat)
    requires j <= n <= |events|
    ensures |Broadcasts(events, j)| <= |Broadcasts(events, n)|
  {
    if j < n {
      MoreBroadcasts(events, j, n - 1);
    }
  }

  /** What a room has fanned out, who joined when, and who left when and why. */
  datatype Account = Account(history: seq<string>, joined: map<Client, nat>, gone: map<Client, Leaving>)

  /** What one event does to the account. */
  ghost predicate Stepped(e: Event, a: Account, b: Account) {
    && b.history == (if e.Broadcast? then a.history + [e.data] else a.history)
    && b.joined == (if e.Register? then a.joined[e.client := |a.history|] else a.joined)
    && (forall c :: c in b.gone ==> (c in a.gone && b.gone[c] == a.gone[c]) || Causes(e, c, b.gone[c], |a.history|))
    && Keeps(a.gone, b.gone)
    && (e.Unregister? && e.client in a.joined ==> e.client in b.gone)
  }

  lemma JoinsAfter(e: Event, a: Account, b: Account)
    requires Stepped(e, a, b)
    ensures b.joined.Keys == a.joined.Keys + if e.Register? then {e.client} else {}
  {
  }

  /** What `n` events come to: each registered client joined when its event came, and each client that left
      did so for a reason among the events. */
  ghost predicate Tells(a: Account, events: seq<Event>, n: nat)
    requires n <= |events|
  {
    && a.history == Broadcasts(events, n) && a.joined.Keys == Registered(events, n)
    && (forall j {:trigger JoinedThen(a.joined, events, j)} ::
          0 <= j < n && events[j].Register? ==> JoinedThen(a.joined, events, j))
    && (forall c :: c in a.gone ==> Explained(events, n, c, a.gone[c]))
    && (forall j {:trigger LeftBy(a.gone, events, j)} ::
          0 <= j < n && events[j].Unregister? ==> LeftBy(a.gone, events, j))
  }

  /** One more event, and the account tells of it too. */
  lemma TellsMore(a: Account, b: Account, events: seq<Event>, i: nat)
    requires i < |events| && RegistersOnce(events) && Tells(a, events, i) && Stepped(events[i], a, b)
    ensures Tells(b, events, i + 1)
  {
    var e := events[i];
    forall c | c in b.gone ensures Explained(events, i + 1, c, b.gone[c]) {
      if Causes(e, c, b.gone[c], |a.history|) {
        assert ExplainedBy(events, i, c, b.gone[c]);
      } else {
        assert Explained(events, i, c, a.gone[c]);
      }
    }
    forall j | 0 <= j < i + 1 && events[j].Register? ensures JoinedThen(b.joined, events, j) {
      assert j < i ==> JoinedThen(a.joined, events, j);
    }
    forall j | 0 <= j < i + 1 && events[j].Unregister? ensures LeftBy(b.gone, events, j) {
      if j < i {
        assert LeftBy(a.gone, events, j);
        assert events[j].client in a.gone ==> StillGone(a.gone, b.gone, events[j].client);
      } else {
        LeavesNow(a, b, events, i);
      }
    }
  }

  lemma LeavesNow(a: Account, b: Account, events: seq<Event>, i: nat)
    requires i < |events| && Tells(a, events, i) && Stepped(events[i], a, b) && events[i].Unregister?
    ensures LeftBy(b.gone, events, i)
  {
    var c := events[i].client;
    if c in a.gone {
      assert StillGone(a.gone, b.gone, c);
      assert Explained(events, i, c, a.gone[c]);
      var j :| 0 <= j < i && ExplainedBy(events, j, c, a.gone[c]);
      MoreBroadcasts(events, j, i);
    }
  }

  twostate predicate Untouched(c: Client)
    reads c
  {
    c.send == old(c.send) && c.taken == old(c.taken)
  }

  /** What one client's turn in the fan-out comes to. */
  twostate predicate Served(c: Client, data: string)
    reads c
  {
    if |old(c.send)| < c.capacity then Got(c, data) else Missed(c)
  }

  twostate predicate Got(c: Client, data: string)
    reads c
  {
    c.send == old(c.send) + [Fanout(data)] && c.taken == old(c.taken)
  }

  twostate predicate Missed(c: Client)
    reads c
  {
    c.stopped && c.send == old(c.send) && c.taken == old(c.taken)
  }
}
