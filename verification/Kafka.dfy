/** Danmakus through Kafka: the event they travel as, and the consumer that writes them to a table keyed by
    danmaku ID although messages are redelivered and a write may fail after having taken effect. */
module Kafka {
  import opened Model
  import opened MemoryStores

  const SCHEMA_VERSION := 2

  datatype DanmakuEvent = DanmakuEvent(
    eventId: string,
    danmakuId: string,
    roomId: string,
    userId: string,
    content: string,
    color: string,
    kind: string,
    fontSize: int,
    timestamp: int,
    instanceId: string,
    schemaVersion: int,
    status: Status,
    reviewedBy: string,
    reviewedAt: Option<int>,
    reviewReason: string)

  function EventFromDanmaku(dm: Danmaku, instanceId: string): DanmakuEvent {
    DanmakuEvent(dm.id, dm.id, dm.roomId, dm.userId, dm.content, dm.color, dm.kind, dm.fontSize, dm.timestamp,
                 instanceId, SCHEMA_VERSION, dm.status, dm.reviewedBy, dm.reviewedAt, dm.reviewReason)
  }

  /** What the consumer stores; an event of the old schema has no status. */
  function DanmakuFromEvent(e: DanmakuEvent): Danmaku {
    Danmaku(id := e.danmakuId, content := e.content, color := e.color, kind := e.kind, fontSize := e.fontSize,
            roomId := e.roomId, timestamp := e.timestamp, userId := e.userId,
            status := if e.status.Unset? then Approved else e.status,
            reviewedBy := e.reviewedBy, reviewedAt := e.reviewedAt, reviewReason := e.reviewReason)
  }

  /** Every field survives the trip, except that an empty status becomes approved; the event is named after its
      danmaku and its sender, and is of the second schema. */
  lemma EventRoundTrip(dm: Danmaku, instanceId: string)
    ensures DanmakuFromEvent(EventFromDanmaku(dm, instanceId))
         == dm.(status := if dm.status.Unset? then Approved else dm.status)
    ensures var e := EventFromDanmaku(dm, instanceId);
      e.eventId == e.danmakuId == dm.id && e.instanceId == instanceId && e.schemaVersion == 2
  {
  }

  /** Events that agree on what describes the danmaku are stored alike, whatever else tells them apart. */
  lemma OnlyDanmakuFieldsMatter(e: DanmakuEvent, f: DanmakuEvent)
    ensures DanmakuFromEvent(e) == DanmakuFromEvent(f) <==>
      && e.(eventId := f.eventId, instanceId := f.instanceId, schemaVersion := f.schemaVersion, status := f.status) == f
      && (e.status == f.status || (e.status in {Unset, Approved} && f.status in {Unset, Approved}))
    ensures DanmakuFromEvent(e).id == e.danmakuId
  {
  }

  // ----- One write -----

  /** What may happen to one insert besides a key conflict: its error may come before or after it took effect. */
  datatype Fault = NoFault | LostBefore | LostAfter

  datatype Outcome = Inserted | DuplicateKey | OtherError

  type Table = map<string, Danmaku>

  function AddRow(rows: Table, dm: Danmaku, fault: Fault): (Table, Outcome) {
    if fault.LostBefore? then (rows, OtherError)
    else if dm.id in rows then (rows, if fault.NoFault? then DuplicateKey else OtherError)
    else (rows[dm.id := dm], if fault.NoFault? then Inserted else OtherError)
  }

  function UpdateRow(rows: Table, id: string, status: Status, reviewer: string, reason: string, at: int): Table {
    if id in rows then rows[id := Reviewed(rows[id], status, reviewer, reason, at)] else rows
  }

  class DanmakuTable {
    var rows: Table

    constructor ()
      ensures rows == map[]
    {
      rows := map[];
    }

    method Add(dm: Danmaku, fault: Fault) returns (outcome: Outcome)
      modifies this
      ensures (rows, outcome) == AddRow(old(rows), dm, fault)
    {
      if fault.LostBefore? {
        return OtherError;
      }
      if dm.id in rows {
        return if fault.NoFault? then DuplicateKey else OtherError;
      }
      rows := rows[dm.id := dm];
      return if fault.NoFault? then Inserted else OtherError;
    }

    method UpdateStatus(id: string, status: Status, reviewer: string, reason: string, at: int)
      modifies this
      ensures rows == UpdateRow(old(rows), id, status, reviewer, reason, at)
    {
      if id in rows {
        rows := rows[id := Reviewed(rows[id], status, reviewer, reason, at)];
      }
    }
  }

  // ----- One message -----

  datatype Payload = Undecodable | Decoded(event: DanmakuEvent)

  /** The first write and three retries. */
  const ATTEMPTS := 4

  /** Tries writes in turn until one is confirmed or the key turns out to be there. */
  function Attempt(rows: Table, dm: Danmaku, faults: seq<Fault>): (r: (Table, bool))
    decreases |faults|
  {
    if faults == [] then (rows, false) else
    var (rows', outcome) := AddRow(rows, dm, faults[0]);
    if outcome.OtherError? then Attempt(rows', dm, faults[1..]) else (rows', true)
  }

  /** The table after one message, and whether the consumer reports success. */
  function Processed(rows: Table, payload: Payload, faults: seq<Fault>): (Table, bool) {
    match payload
    case Undecodable => (rows, true)
    case Decoded(e) => Attempt(rows, DanmakuFromEvent(e), faults)
  }

  class ConsumerGroupHandler {
    const store: DanmakuTable
    var marked: seq<int>

    constructor (store: DanmakuTable)
      ensures this.store == store && marked == []
    {
      this.store, marked := store, [];
    }

    method MarkMessage(offset: int)
      modifies this
      ensures marked == old(marked) + [offset]
    {
      marked := marked + [offset];
    }

    /** Whatever happens to its writes, the message is marked, and once. */
    method ProcessMessage(offset: int, payload: Payload, faults: seq<Fault>) returns (ok: bool)
      requires |faults| == ATTEMPTS
      modifies this, store
      ensures (store.rows, ok) == Processed(old(store.rows), payload, faults)
      ensures marked == old(marked) + [offset]
    {
      if payload.Undecodable? {
        MarkMessage(offset);
        return true;
      }
      var e := payload.event;
      var status := e.status;
      if status.Unset? {
        status := Approved;
      }
      var dm := Danmaku(id := e.danmakuId, content := e.content, color := e.color, kind := e.kind,
                        fontSize := e.fontSize, roomId := e.roomId, timestamp := e.timestamp,
                        userId := e.userId, status := status,
                        reviewedBy := e.reviewedBy, reviewedAt := e.reviewedAt, reviewReason := e.reviewReason);
      var outcome := store.Add(dm, faults[0]);
      if !outcome.OtherError? {
        MarkMessage(offset);
        return true;
      }
      var retry := 1;
      while retry <= 3
        invariant 1 <= retry <= 4
        invariant Attempt(old(store.rows), dm, faults) == Attempt(store.rows, dm, faults[retry..])
        invariant marked == old(marked)
      {
        outcome := store.Add(dm, faults[retry]);
        assert faults[retry..][1..] == faults[retry + 1..];
        if !outcome.OtherError? {
          MarkMessage(offset);
          return true;
        }
        retry := retry + 1;
      }
      assert faults[4..] == [];
      MarkMessage(offset);
      return false;
    }
  }

  // ----- What a message does to the table -----

  /** At least one of the writes took effect, or found its key. */
  predicate Reaches(faults: seq<Fault>) {
    exists i :: 0 <= i < |faults| && faults[i] != LostBefore
  }

  /** A row that is there is never touched; a missing one appears exactly when some write got through. */
  lemma {:induction false} AttemptMeaning(rows: Table, dm: Danmaku, faults: seq<Fault>)
    ensures Attempt(rows, dm, faults).0 == if dm.id in rows || !Reaches(faults) then rows else rows[dm.id := dm]
    ensures Attempt(rows, dm, faults).1 <==> NoFault in faults
    decreases |faults|
  {
    if faults != [] {
      var (rows', outcome) := AddRow(rows, dm, faults[0]);
      AttemptMeaning(rows', dm, faults[1..]);
      assert faults == [faults[0]] + faults[1..];
      if Reaches(faults[1..]) {
        var i :| 0 <= i < |faults[1..]| && faults[1..][i] != LostBefore;
        assert faults[i + 1] != LostBefore;
      }
      if Reaches(faults) && faults[0] == LostBefore {
        var i :| 0 <= i < |faults| && faults[i] != LostBefore;
        assert faults[1..][i - 1] != LostBefore;
      }
    }
  }

  // ----- Runs: deliveries and redeliveries in any order, with reviews in between -----

  datatype Operation =
    | Deliver(offset: int, payload: Payload, faults: seq<Fault>)
    | Review(id: string, status: Status, reviewer: string, reason: string, at: int)

  datatype State = State(rows: Table, marked: seq<int>)

  function Apply(s: State, op: Operation): State {
    match op
    case Deliver(offset, payload, faults) => State(Processed(s.rows, payload, faults).0, s.marked + [offset])
    case Review(id, status, reviewer, reason, at) => s.(rows := UpdateRow(s.rows, id, status, reviewer, reason, at))
  }

  function Run(s: State, ops: seq<Operation>): State {
    if ops == [] then s else Apply(Run(s, ops[..|ops| - 1]), ops[|ops| - 1])
  }

  const EMPTY := State(map[], [])

  /** The offsets delivered, in order. */
  function Delivered(ops: seq<Operation>): seq<int> {
    if ops == [] then [] else
    var last := ops[|ops| - 1];
    Delivered(ops[..|ops| - 1]) + if last.Deliver? then [last.offset] else []
  }

  /** The delivery puts this danmaku in the table if it is not there. */
  predicate Brings(op: Operation, id: string) {
    op.Deliver? && op.payload.Decoded? && op.payload.event.danmakuId == id && Reaches(op.faults)
  }

  /** The reviews of one danmaku among these operations, applied in order; deliveries do nothing. */
  function ReviewedBy(d: Danmaku, ops: seq<Operation>): Danmaku {
    if ops == [] then d else
    var before, last := ReviewedBy(d, ops[..|ops| - 1]), ops[|ops| - 1];
    if last.Review? && last.id == d.id then Reviewed(before, last.status, last.reviewer, last.reason, last.at)
    else before
  }

  /** What one operation does to one row. */
  lemma RowAfter(s: State, op: Operation, id: string)
    ensures id in Apply(s, op).rows <==> id in s.rows || Brings(op, id)
    ensures id in s.rows ==>
      var row := s.rows[id];
      Apply(s, op).rows[id]
      == if op.Review? && op.id == id then Reviewed(row, op.status, op.reviewer, op.reason, op.at) else row
    ensures id !in s.rows && Brings(op, id) ==> Apply(s, op).rows[id] == DanmakuFromEvent(op.payload.event)
  {
    if op.Deliver? && op.payload.Decoded? {
      AttemptMeaning(s.rows, DanmakuFromEvent(op.payload.event), op.faults);
    }
  }

  /** Every delivered message is marked exactly once, whatever became of its writes. */
  lemma {:induction false} EachMessageIsMarkedOnce(ops: seq<Operation>)
    ensures Run(EMPTY, ops).marked == Delivered(ops)
  {
    if ops != [] {
      EachMessageIsMarkedOnce(ops[..|ops| - 1]);
    }
  }

  /** A danmaku is in the table exactly when some delivery of it was decodable and had a write that got
      through: a marked message is missing only if it was undecodable or all four writes failed. */
  lemma {:induction false} StoredIffBrought(ops: seq<Operation>, id: string)
    ensures id in Run(EMPTY, ops).rows <==> exists i :: 0 <= i < |ops| && Brings(ops[i], id)
  {
    if ops != [] {
      var before, last := ops[..|ops| - 1], ops[|ops| - 1];
      StoredIffBrought(before, id);
      RowAfter(Run(EMPTY, before), last, id);
      if exists i :: 0 <= i < |before| && Brings(before[i], id) {
        var i :| 0 <= i < |before| && Brings(before[i], id);
        assert Brings(ops[i], id);
      }
    }
  }

  /** The first version wins: from the delivery that brought it on, a row changes by reviews only, so no
      redelivery, of the same or another version, reverts a later review. */
  lemma {:induction false} FirstVersionStays(ops: seq<Operation>, i: nat, id: string)
    requires i < |ops| && Brings(ops[i], id)
    requires forall j :: 0 <= j < i ==> !Brings(ops[j], id)
    ensures id in Run(EMPTY, ops).rows
    ensures Run(EMPTY, ops).rows[id] == ReviewedBy(DanmakuFromEvent(ops[i].payload.event), ops[i + 1..])
    decreases |ops|
  {
    var n := |ops| - 1;
    var before, last := ops[..n], ops[n];
    RowAfter(Run(EMPTY, before), last, id);
    StoredIffBrought(ops, id);
    if i == n {
      StoredIffBrought(before, id);
      assert ops[i + 1..] == [];
    } else {
      FirstVersionStays(before, i, id);
      assert ops[i + 1..][..|ops[i + 1..]| - 1] == before[i + 1..];
      ReviewsKeepId(DanmakuFromEvent(ops[i].payload.event), before[i + 1..]);
    }
  }

  lemma {:induction false} ReviewsKeepId(d: Danmaku, ops: seq<Operation>)
    ensures ReviewedBy(d, ops).id == d.id
  {
    if ops != [] {
      ReviewsKeepId(d, ops[..|ops| - 1]);
    }
  }
}
