/** What viewers see agrees with what is stored: folding the frames handed to the hub gives, room by
    room, exactly the approved records. */
module Viewers {
  import opened Model
  import opened MemoryStores
  import opened Governance
  import opened MessageOrder

  /** The messages a room shows after these frames: a broadcast puts one up, a retract takes it down. */
  function Shown(sent: seq<Sent>, room: string): map<string, Danmaku> {
    if sent == [] then map[] else
    var before, last := Shown(sent[..|sent| - 1], room), sent[|sent| - 1];
    if last.roomId != room then before else
    match last.frame
    case Broadcast(dm) => before[dm.id := dm]
    case Retract(id, _) => before - {id}
  }

  function Ids(ds: seq<Danmaku>): set<string> {
    set d | d in ds :: d.id
  }

  predicate IsApprovedIn(ds: seq<Danmaku>, room: string, id: string) {
    var found := Find(ds, id);
    found.Some? && found.value.roomId == room && found.value.status == Approved
  }

  /** The approved records of a room, by ID. */
  function ApprovedRecords(ds: seq<Danmaku>, room: string): map<string, Danmaku> {
    map id | id in Ids(ds) && IsApprovedIn(ds, room, id) :: Find(ds, id).value
  }

  ghost predicate InStep(s: State) {
    && (forall room :: Shown(s.sent, room) == ApprovedRecords(s.danmakus, room))
    && (forall d :: d in s.danmakus ==> d.roomId != "")
    && UniqueIds(s.danmakus)
  }

  // ----- How one change of the store shows -----

  lemma FoundIsMember(ds: seq<Danmaku>, id: string)
    ensures Find(ds, id).Some? <==> id in Ids(ds)
    ensures Find(ds, id).Some? ==> Find(ds, id).value in ds && Find(ds, id).value.id == id
  {
    if id in Ids(ds) {
      var d :| d in ds && d.id == id;
      var i :| 0 <= i < |ds| && ds[i] == d;
      assert IndexOf(ds, id) <= i;
    }
  }

  /** A map of approved records is settled by what can be found. */
  lemma RecordsAt(ds: seq<Danmaku>, room: string, id: string)
    ensures id in ApprovedRecords(ds, room) <==> IsApprovedIn(ds, room, id)
    ensures id in ApprovedRecords(ds, room) ==> ApprovedRecords(ds, room)[id] == Find(ds, id).value
  {
    FoundIsMember(ds, id);
  }

  predicate SameAt(a: map<string, Danmaku>, b: map<string, Danmaku>, id: string) {
    (id in a <==> id in b) && (id in a ==> a[id] == b[id])
  }

  lemma SameEverywhere(a: map<string, Danmaku>, b: map<string, Danmaku>)
    requires forall id :: SameAt(a, b, id)
    ensures a == b
  {
    assert forall id :: (id in a <==> id in b) && (id in a ==> a[id] == b[id]) by {
      forall id ensures (id in a <==> id in b) && (id in a ==> a[id] == b[id]) {
        assert SameAt(a, b, id);
      }
    }
  }

  /** Appending a record with a new ID. */
  lemma RecordsAfterAppend(ds: seq<Danmaku>, d: Danmaku, room: string)
    requires Find(ds, d.id).None?
    ensures ApprovedRecords(ds + [d], room)
         == if d.roomId == room && d.status == Approved then ApprovedRecords(ds, room)[d.id := d]
            else ApprovedRecords(ds, room)
  {
    forall id
      ensures IsApprovedIn(ds + [d], room, id)
         <==> IsApprovedIn(ds, room, id) || (id == d.id && d.roomId == room && d.status == Approved)
      ensures IsApprovedIn(ds + [d], room, id) ==>
        Find(ds + [d], id).value == if id == d.id then d else Find(ds, id).value
    {
      FindAfterAppend(ds, d, id);
    }
    var before := ApprovedRecords(ds, room);
    var after := if d.roomId == room && d.status == Approved then before[d.id := d] else before;
    forall id ensures SameAt(ApprovedRecords(ds + [d], room), after, id) {
      RecordsAt(ds, room, id);
      RecordsAt(ds + [d], room, id);
    }
    SameEverywhere(ApprovedRecords(ds + [d], room), after);
  }

  /** Reviewing a record. */
  lemma RecordsAfterReview(ds: seq<Danmaku>, id: string, to: Status, reviewer: string, reason: string, now: int,
                           room: string)
    requires Find(ds, id).Some?
    ensures var d := Reviewed(Find(ds, id).value, to, reviewer, reason, now);
      ApprovedRecords(WithStatus(ds, id, to, reviewer, reason, now), room)
      == if d.roomId != room then ApprovedRecords(ds, room)
         else if to == Approved then ApprovedRecords(ds, room)[id := d] else ApprovedRecords(ds, room) - {id}
  {
    var ds' := WithStatus(ds, id, to, reviewer, reason, now);
    var d := Reviewed(Find(ds, id).value, to, reviewer, reason, now);
    var after :=
      if d.roomId != room then ApprovedRecords(ds, room)
      else if to == Approved then ApprovedRecords(ds, room)[id := d] else ApprovedRecords(ds, room) - {id};
    forall x ensures SameAt(ApprovedRecords(ds', room), after, x) {
      FindAfterReview(ds, id, to, reviewer, reason, now, x);
      RecordsAt(ds, room, x);
      RecordsAt(ds', room, x);
    }
    SameEverywhere(ApprovedRecords(ds', room), after);
  }

  lemma ShownAfter(sent: seq<Sent>, last: Sent, room: string)
    ensures Shown(sent + [last], room)
         == if last.roomId != room then Shown(sent, room)
            else if last.frame.Broadcast? then Shown(sent, room)[last.frame.dm.id := last.frame.dm]
            else Shown(sent, room) - {last.frame.messageId}
  {
    assert (sent + [last])[..|sent|] == sent;
  }

  lemma UniqueAfterAppend(ds: seq<Danmaku>, d: Danmaku)
    requires UniqueIds(ds) && Find(ds, d.id).None?
    ensures UniqueIds(ds + [d])
  {
    forall i | 0 <= i < |ds| ensures ds[i].id != d.id {
      FoundIsMember(ds, d.id);
      assert ds[i] in ds;
    }
  }

  // ----- Each operation -----

  lemma CreateKeepsStep(s: State, req: Request, ctx: CreateContext)
    requires InStep(s) && Find(s.danmakus, ctx.id).None?
    ensures InStep(Create(s, req, ctx).0)
  {
    var (s', r) := Create(s, req, ctx);
    if r.Ok? {
      var dm := r.value;
      assert s'.danmakus == s.danmakus + [dm];
      UniqueAfterAppend(s.danmakus, dm);
      forall room ensures Shown(s'.sent, room) == ApprovedRecords(s'.danmakus, room) {
        RecordsAfterAppend(s.danmakus, dm, room);
        if dm.status == Approved {
          ShownAfter(s.sent, Sent(req.roomId, Broadcast(dm)), room);
        }
      }
    }
  }

  /** What the frame of an allowed transition, if there is one, does to what a room shows. */
  lemma ShownAfterReview(sent: seq<Sent>, d: Danmaku, to: Status, reviewer: string, reason: string, now: int,
                         room: string)
    requires d.roomId != "" && ValidTransition(d.status, to)
    ensures var after := Shown(sent + ReviewFrames(d, to, reviewer, reason, now), room);
      after == if room != d.roomId then Shown(sent, room)
               else if to == Approved then Shown(sent, room)[d.id := Reviewed(d, to, reviewer, reason, now)]
               else if d.status == Approved then Shown(sent, room) - {d.id}
               else Shown(sent, room)
  {
    var frames := ReviewFrames(d, to, reviewer, reason, now);
    if frames == [] {
      assert sent + frames == sent;
    } else {
      ShownAfter(sent, frames[0], room);
      assert frames == [frames[0]];
    }
  }

  lemma TransitionShows(ds: seq<Danmaku>, sent: seq<Sent>, d: Danmaku, to: Status, reviewer: string, reason: string,
                        now: int, room: string)
    requires Find(ds, d.id) == Some(d) && d.roomId != "" && ValidTransition(d.status, to)
    requires Shown(sent, room) == ApprovedRecords(ds, room)
    ensures Shown(sent + ReviewFrames(d, to, reviewer, reason, now), room)
         == ApprovedRecords(WithStatus(ds, d.id, to, reviewer, reason, now), room)
  {
    ShownAfterReview(sent, d, to, reviewer, reason, now, room);
    RecordsAfterReview(ds, d.id, to, reviewer, reason, now, room);
    RecordsAt(ds, room, d.id);
  }

  /** A review keeps every ID and room. */
  lemma StatusKeepsPlaces(ds: seq<Danmaku>, id: string, to: Status, reviewer: string, reason: string, now: int)
    requires UniqueIds(ds) && forall d :: d in ds ==> d.roomId != ""
    ensures var ds' := WithStatus(ds, id, to, reviewer, reason, now);
      UniqueIds(ds') && forall d :: d in ds' ==> d.roomId != ""
  {
  }

  lemma ReviewKeepsStep(s: State, id: string, reviewer: string, to: Status, reason: string, now: int)
    requires InStep(s)
    ensures InStep(Review(s, id, reviewer, to, reason, now).0)
  {
    var s' := Review(s, id, reviewer, to, reason, now).0;
    if s' != s {
      var d := Find(s.danmakus, id).value;
      FoundIsMember(s.danmakus, id);
      StatusKeepsPlaces(s.danmakus, id, to, reviewer, reason, now);
      forall room ensures Shown(s'.sent, room) == ApprovedRecords(s'.danmakus, room) {
        TransitionShows(s.danmakus, s.sent, d, to, reviewer, reason, now, room);
      }
    }
  }

  /** Only creates and reviews, and resolutions that review, touch records and frames. */
  lemma OthersLeaveTheBoard(s: State, op: Operation)
    requires !op.DoCreate? && !op.DoReview? && !op.DoResolve?
    ensures Apply(s, op).danmakus == s.danmakus && Apply(s, op).sent == s.sent
  {
  }

  /** Whether an action leaves records and frames alone or does to them what one rejection does. */
  predicate ReviewsAtMost(s: State, danmakuId: string, d: Decision, s': State) {
    var s1 := Review(s, danmakuId, d.resolverId, Rejected, d.reason, d.now).0;
    (s'.danmakus == s.danmakus && s'.sent == s.sent) || (s'.danmakus == s1.danmakus && s'.sent == s1.sent)
  }

  lemma BanLeavesTheBoard(s: State, r: Report, d: Decision)
    ensures ActBan(s, r, d).0.danmakus == s.danmakus && ActBan(s, r, d).0.sent == s.sent
  {
  }

  lemma RejectReviewsAtMost(s: State, r: Report, d: Decision)
    ensures ReviewsAtMost(s, r.danmakuId, d, ActReject(s, r, d).0)
    ensures ReviewsAtMost(s, r.danmakuId, d, ActMute(s, r, d).0)
  {
  }

  lemma ActReviewsAtMost(s: State, r: Report, d: Decision)
    ensures ReviewsAtMost(s, r.danmakuId, d, Act(s, r, d).0)
  {
    BanLeavesTheBoard(s, r, d);
    RejectReviewsAtMost(s, r, d);
  }

  lemma ResolutionReviewsAtMost(s: State, id: string, d: Decision)
    requires id in s.reports
    ensures ReviewsAtMost(s, s.reports[id].danmakuId, d, Resolve(s, id, d).0)
  {
    ActReviewsAtMost(s, s.reports[id], d);
  }

  lemma StepKept(s: State, op: Operation)
    requires InStep(s) && FreshId(s, op)
    ensures InStep(Apply(s, op))
  {
    match op
    case DoCreate(req, ctx) => CreateKeepsStep(s, req, ctx);
    case DoReview(id, reviewer, to, reason, now) => ReviewKeepsStep(s, id, reviewer, to, reason, now);
    case DoResolve(id, d) =>
      if id in s.reports {
        ReviewKeepsStep(s, s.reports[id].danmakuId, d.resolverId, Rejected, d.reason, d.now);
        ResolutionReviewsAtMost(s, id, d);
      }
    case _ => OthersLeaveTheBoard(s, op);
  }

  /** After every run of creates, reviews, reports, resolutions, mutes and administration, each room
      shows exactly its approved records, each as it is stored. */
  lemma {:induction false} ViewersAgreeWithStore(s: State, ops: seq<Operation>)
    requires InStep(s) && FreshIds(s, ops)
    ensures InStep(Run(s, ops))
  {
    if ops != [] {
      var n := |ops| - 1;
      forall i | 0 <= i < n ensures FreshId(Run(s, ops[..n][..i]), ops[..n][i]) {
        assert ops[..n][..i] == ops[..i];
      }
      ViewersAgreeWithStore(s, ops[..n]);
      StepKept(Run(s, ops[..n]), ops[n]);
    }
  }

  // ----- The list a new viewer loads -----

  lemma UniqueIsFound(ds: seq<Danmaku>, i: nat)
    requires UniqueIds(ds) && i < |ds|
    ensures Find(ds, ds[i].id) == Some(ds[i])
  {
    assert IndexOf(ds, ds[i].id) <= i;
  }

  /** ListByRoom with a large enough limit lists, in insertion order, exactly what the frames show. */
  lemma ListShowsWhatFramesShow(s: State, room: string, limit: nat)
    requires InStep(s) && |ApprovedIn(s.danmakus, room)| <= limit
    ensures var listed := LastOf(ApprovedIn(s.danmakus, room), limit);
      listed == ApprovedIn(s.danmakus, room)
      && forall d :: d in listed <==> d.id in Shown(s.sent, room) && Shown(s.sent, room)[d.id] == d
  {
    var ds := s.danmakus;
    forall d ensures d in ApprovedIn(ds, room) <==> d.id in Shown(s.sent, room) && Shown(s.sent, room)[d.id] == d {
      ApprovedMembers(ds, room, d);
      RecordsAt(ds, room, d.id);
      FoundIsMember(ds, d.id);
      if d in ds {
        var i :| 0 <= i < |ds| && ds[i] == d;
        UniqueIsFound(ds, i);
      }
    }
  }
}
