/** What bans and mutes keep out over runs: from an accepted ban to an accepted unban no record of that user is
    added, and while a mute lasts none of that user in that room. */
module AdmissionLaws {
  import opened Model
  import opened MemoryStores
  import opened Governance
  import opened OperationLaws
  import Viewers

  /** The same message, whatever reviews have done to it. */
  predicate SameMessage(a: Danmaku, b: Danmaku) {
    b == a.(status := b.status, reviewedBy := b.reviewedBy, reviewedAt := b.reviewedAt, reviewReason := b.reviewReason)
  }

  /** Every record is kept in its place, and none of the added ones meets `bad`. */
  ghost predicate KeepsAndAddsNo(before: seq<Danmaku>, after: seq<Danmaku>, bad: Danmaku -> bool) {
    && |before| <= |after|
    && (forall i :: 0 <= i < |before| ==> SameMessage(before[i], after[i]))
    && (forall i :: |before| <= i < |after| ==> !bad(after[i]))
  }

  function ByUser(userId: string): Danmaku -> bool {
    (d: Danmaku) => d.userId == userId
  }

  function ByUserIn(userId: string, roomId: string): Danmaku -> bool {
    (d: Danmaku) => d.userId == userId && d.roomId == roomId
  }

  /** Neither the author nor the room of a record ever changes. */
  ghost predicate IgnoresReviews(bad: Danmaku -> bool) {
    forall a, b :: SameMessage(a, b) ==> bad(a) == bad(b)
  }

  lemma KeptAndAddedOnce(a: seq<Danmaku>, b: seq<Danmaku>, c: seq<Danmaku>, bad: Danmaku -> bool)
    requires KeepsAndAddsNo(a, b, bad) && KeepsAndAddsNo(b, c, bad) && IgnoresReviews(bad)
    ensures KeepsAndAddsNo(a, c, bad)
  {
    forall i | 0 <= i < |b| ensures SameMessage(b[i], c[i]) {
    }
    forall i | |a| <= i < |b| ensures !bad(c[i]) {
      assert bad(b[i]) == bad(c[i]);
    }
  }

  lemma StatusKeepsMessages(ds: seq<Danmaku>, id: string, to: Status, reviewer: string, reason: string, now: int,
                            bad: Danmaku -> bool)
    ensures KeepsAndAddsNo(ds, WithStatus(ds, id, to, reviewer, reason, now), bad)
  {
  }

  lemma ReviewKeepsMessages(s: State, id: string, reviewer: string, to: Status, reason: string, now: int,
                            bad: Danmaku -> bool)
    ensures KeepsAndAddsNo(s.danmakus, Review(s, id, reviewer, to, reason, now).0.danmakus, bad)
  {
    StatusKeepsMessages(s.danmakus, id, to, reviewer, reason, now, bad);
  }

  /** Only an accepted create adds a record; no operation drops or alters a message. */
  lemma OnlyCreatesAdd(s: State, op: Operation, bad: Danmaku -> bool)
    requires op.DoCreate? && Create(s, op.req, op.ctx).1.Ok? ==> !bad(Create(s, op.req, op.ctx).1.value)
    ensures KeepsAndAddsNo(s.danmakus, Apply(s, op).danmakus, bad)
  {
    match op
    case DoCreate(req, ctx) =>
      if Create(s, req, ctx).1.Ok? {
        CreateStoresTheRequest(s, req, ctx);
      } else {
        CreateAcceptedExactly(s, req, ctx);
      }
    case DoReview(id, reviewer, to, reason, now) => ReviewKeepsMessages(s, id, reviewer, to, reason, now, bad);
    case DoResolve(id, d) =>
      if id in s.reports {
        Viewers.ResolutionReviewsAtMost(s, id, d);
        ReviewKeepsMessages(s, s.reports[id].danmakuId, d.resolverId, Rejected, d.reason, d.now, bad);
      }
    case _ => Viewers.OthersLeaveTheBoard(s, op);
  }

  // ----- Bans -----

  /** An unban of this user that is accepted here. */
  predicate LiftsBan(s: State, op: Operation, userId: string) {
    op.DoUnban? && op.targetId == userId && Unban(s, op.actorId, op.targetId).1.Ok?
  }

  ghost predicate NeverUnbanned(s: State, ops: seq<Operation>, userId: string) {
    forall i :: 0 <= i < |ops| ==> !LiftsBan(Run(s, ops[..i]), ops[i], userId)
  }

  lemma ActKeepsBan(s: State, r: Report, d: Decision, userId: string)
    requires BanStands(s, userId)
    ensures BanStands(Act(s, r, d).0, userId)
  {
  }

  /** Nothing but an accepted unban of the user ends a ban. */
  lemma OnlyUnbanLifts(s: State, op: Operation, userId: string)
    requires BanStands(s, userId)
    ensures BanStands(Apply(s, op), userId) <==> !LiftsBan(s, op, userId)
  {
    match op
    case DoUnban(actorId, targetId) =>
      UnbanAcceptedExactly(s, actorId, targetId);
      if Unban(s, actorId, targetId).1.Ok? {
        UnbanDoes(s, actorId, targetId);
      }
    case DoResolve(id, d) =>
      if id in s.reports {
        ActKeepsBan(s, s.reports[id], d, userId);
      }
    case _ =>
  }

  /** While a ban stands, whatever else happens, the user's messages are refused. */
  lemma {:induction false} BannedUsersAddNothing(s: State, ops: seq<Operation>, userId: string)
    requires BanStands(s, userId) && NeverUnbanned(s, ops, userId)
    ensures BanStands(Run(s, ops), userId)
    ensures KeepsAndAddsNo(s.danmakus, Run(s, ops).danmakus, ByUser(userId))
  {
    if ops != [] {
      var before, op := ops[..|ops| - 1], ops[|ops| - 1];
      forall i | 0 <= i < |before| ensures !LiftsBan(Run(s, before[..i]), before[i], userId) {
        assert before[..i] == ops[..i];
      }
      BannedUsersAddNothing(s, before, userId);
      var now := Run(s, before);
      OnlyUnbanLifts(now, op, userId);
      if op.DoCreate? && Create(now, op.req, op.ctx).1.Ok? {
        CreateAcceptedExactly(now, op.req, op.ctx);
        CreateStoresTheRequest(now, op.req, op.ctx);
      }
      OnlyCreatesAdd(now, op, ByUser(userId));
      KeptAndAddedOnce(s.danmakus, now.danmakus, Run(s, ops).danmakus, ByUser(userId));
    }
  }

  /** From an accepted ban on, until an unban is accepted, no record of the banned user is added. */
  lemma NothingFromTheBannedUntilUnbanned(s: State, actorId: string, targetId: string, reason: string, now: int,
                                          ops: seq<Operation>)
    requires var (banned, r) := Ban(s, actorId, targetId, reason, now);
      r.Ok? && NeverUnbanned(banned, ops, targetId)
    ensures var banned := Ban(s, actorId, targetId, reason, now).0;
      && BanStands(Run(banned, ops), targetId)
      && KeepsAndAddsNo(s.danmakus, Run(banned, ops).danmakus, ByUser(targetId))
  {
    BanDoes(s, actorId, targetId, reason, now);
    BannedUsersAddNothing(Ban(s, actorId, targetId, reason, now).0, ops, targetId);
  }

  /** A ban that comes with a confirmed report does the same. */
  lemma NothingFromTheReportedUntilUnbanned(s: State, id: string, d: Decision, ops: seq<Operation>)
    requires d.decision != "dismissed" && d.action == "ban" && Resolve(s, id, d).1.Ok?
    requires id in s.reports && Find(s.danmakus, s.reports[id].danmakuId).Some?
    requires NeverUnbanned(Resolve(s, id, d).0, ops, Find(s.danmakus, s.reports[id].danmakuId).value.userId)
    ensures var author := Find(s.danmakus, s.reports[id].danmakuId).value.userId;
      && BanStands(Run(Resolve(s, id, d).0, ops), author)
      && KeepsAndAddsNo(s.danmakus, Run(Resolve(s, id, d).0, ops).danmakus, ByUser(author))
  {
    ConfirmedBanDoes(s, id, d);
    BannedUsersAddNothing(Resolve(s, id, d).0, ops, Find(s.danmakus, s.reports[id].danmakuId).value.userId);
  }

  // ----- Mutes -----

  /** The user is muted in the room at least until this time. */
  predicate MutedUntil(s: State, userId: string, roomId: string, until: int) {
    var key := userId + ":" + roomId;
    key in s.mutes && until <= s.mutes[key].expiresAt
  }

  function ConfirmedMuteEnds(d: Decision): int {
    d.now + if d.muteMinutes > 0 then d.muteMinutes * 60000 else 1800000
  }

  /** An unmute under this key, or a new mute under it that ends earlier, its own or a confirmed report's. */
  predicate CutsMute(s: State, op: Operation, key: string, until: int) {
    match op
    case DoUnmute(userId, roomId, _) => userId + ":" + roomId == key
    case DoMute(m) => m.userId + ":" + m.roomId == key && m.expiresAt < until
    case DoResolve(id, d) =>
      && Resolve(s, id, d).1.Ok? && d.decision != "dismissed" && d.action == "mute"
      && ConfirmedMuteEnds(d) < until && id in s.reports
      && var found := Find(s.danmakus, s.reports[id].danmakuId);
        found.Some? && found.value.userId + ":" + s.reports[id].roomId == key
    case _ => false
  }

  ghost predicate NeverCut(s: State, ops: seq<Operation>, userId: string, roomId: string, until: int) {
    forall i :: 0 <= i < |ops| ==> !CutsMute(Run(s, ops[..i]), ops[i], userId + ":" + roomId, until)
  }

  /** The clock has not reached the end of the mute when the user writes to the room. */
  predicate BeforeItEnds(ops: seq<Operation>, userId: string, roomId: string, until: int) {
    forall op :: op in ops && op.DoCreate? && op.req.userId == userId && op.req.roomId == roomId ==> op.ctx.now < until
  }

  /** A decision changes mutes only when it mutes, and then one. */
  lemma DecisionKeepsMute(s: State, id: string, d: Decision, userId: string, roomId: string, until: int)
    requires MutedUntil(s, userId, roomId, until) && !CutsMute(s, DoResolve(id, d), userId + ":" + roomId, until)
    ensures MutedUntil(Resolve(s, id, d).0, userId, roomId, until)
  {
    if Resolve(s, id, d).1.Ok? && d.decision != "dismissed" && d.action == "mute" {
      var r := s.reports[id];
      var found := Find(s.danmakus, r.danmakuId);
      if found.Some? {
        ConfirmedMuteDoes(s, id, d);
      }
    }
  }

  lemma StepKeepsMute(s: State, op: Operation, userId: string, roomId: string, until: int)
    requires MutedUntil(s, userId, roomId, until) && !CutsMute(s, op, userId + ":" + roomId, until)
    ensures MutedUntil(Apply(s, op), userId, roomId, until)
  {
    match op
    case DoMute(m) => MuteDoes(s, m, m.expiresAt);
    case DoUnmute(u, r, a) => UnmuteDoes(s, u, r, a, 0);
    case DoResolve(id, d) => DecisionKeepsMute(s, id, d, userId, roomId, until);
    case _ =>
  }

  /** While a mute lasts, whatever else happens, the user's messages to the room are refused. */
  lemma {:induction false} MutedUsersAddNothing(s: State, ops: seq<Operation>, userId: string, roomId: string,
                                                until: int)
    requires MutedUntil(s, userId, roomId, until) && NeverCut(s, ops, userId, roomId, until)
    requires BeforeItEnds(ops, userId, roomId, until)
    ensures MutedUntil(Run(s, ops), userId, roomId, until)
    ensures KeepsAndAddsNo(s.danmakus, Run(s, ops).danmakus, ByUserIn(userId, roomId))
  {
    if ops != [] {
      var before, op := ops[..|ops| - 1], ops[|ops| - 1];
      forall i | 0 <= i < |before| ensures !CutsMute(Run(s, before[..i]), before[i], userId + ":" + roomId, until) {
        assert before[..i] == ops[..i];
      }
      MutedUsersAddNothing(s, before, userId, roomId, until);
      var now := Run(s, before);
      StepKeepsMute(now, op, userId, roomId, until);
      if op.DoCreate? && Create(now, op.req, op.ctx).1.Ok? {
        CreateAcceptedExactly(now, op.req, op.ctx);
        CreateStoresTheRequest(now, op.req, op.ctx);
      }
      OnlyCreatesAdd(now, op, ByUserIn(userId, roomId));
      KeptAndAddedOnce(s.danmakus, now.danmakus, Run(s, ops).danmakus, ByUserIn(userId, roomId));
    }
  }

  /** From a mute on, until it expires or is cut short, no record of that user in that room is added. */
  lemma NothingFromTheMutedUntilItEnds(s: State, m: Mute, ops: seq<Operation>)
    requires NeverCut(MuteUser(s, m), ops, m.userId, m.roomId, m.expiresAt)
    requires BeforeItEnds(ops, m.userId, m.roomId, m.expiresAt)
    ensures KeepsAndAddsNo(s.danmakus, Run(MuteUser(s, m), ops).danmakus, ByUserIn(m.userId, m.roomId))
  {
    MuteDoes(s, m, m.expiresAt);
    MutedUsersAddNothing(MuteUser(s, m), ops, m.userId, m.roomId, m.expiresAt);
  }
}
