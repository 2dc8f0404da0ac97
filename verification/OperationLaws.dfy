/** What each service operation answers and does, in terms of the users, mutes, reports and records it finds:
    exactly when it is accepted, exactly what an accepted one changes, and that a refused one changes nothing. */
module OperationLaws {
  import opened Model
  import opened MemoryStores
  import opened Governance

  // ----- Creating -----

  predicate BanStands(s: State, userId: string) {
    userId in s.users && s.users[userId].banned
  }

  predicate MuteStands(s: State, userId: string, roomId: string, now: int) {
    var key := userId + ":" + roomId;
    key in s.mutes && now < s.mutes[key].expiresAt
  }

  predicate IsRejectedWord(ctx: CreateContext) {
    ctx.word != "" && ctx.autoReject
  }

  /** A create is accepted exactly when nothing stands against it, and one that is refused changes nothing. */
  lemma CreateAcceptedExactly(s: State, req: Request, ctx: CreateContext)
    ensures var (s', r) := Create(s, req, ctx);
      && (r.Ok? <==>
            && ValidRequest(req) && ctx.allowed
            && !BanStands(s, req.userId) && !MuteStands(s, req.userId, req.roomId, ctx.now)
            && !IsRejectedWord(ctx) && !ctx.storeFails)
      && (r.Err? ==> s' == s)
  {
  }

  /** Which error a refused create gets: the first of the things that stand against it, in this order. */
  lemma CreateErrorsExactly(s: State, req: Request, ctx: CreateContext)
    ensures var r := Create(s, req, ctx).1;
      && (r == Err(Invalid) <==> !ValidRequest(req))
      && (r == Err(TooFast) <==> ValidRequest(req) && !ctx.allowed)
      && (r == Err(UserBanned) <==> ValidRequest(req) && ctx.allowed && BanStands(s, req.userId))
      && (r == Err(UserMuted) <==>
            && ValidRequest(req) && ctx.allowed
            && !BanStands(s, req.userId) && MuteStands(s, req.userId, req.roomId, ctx.now))
      && (r == Err(ContentBlocked(ctx.word)) <==>
            && ValidRequest(req) && ctx.allowed
            && !BanStands(s, req.userId) && !MuteStands(s, req.userId, req.roomId, ctx.now) && IsRejectedWord(ctx))
      && (r == Err(PersistenceFailed) <==>
            && ValidRequest(req) && ctx.allowed
            && !BanStands(s, req.userId) && !MuteStands(s, req.userId, req.roomId, ctx.now)
            && !IsRejectedWord(ctx) && ctx.storeFails)
  {
  }

  /** An accepted create appends one record of the request, flagged if a listed word was found, and sends it to
      its room if not. */
  lemma CreateStoresTheRequest(s: State, req: Request, ctx: CreateContext)
    requires Create(s, req, ctx).1.Ok?
    ensures var (s', r) := Create(s, req, ctx);
      var d := r.value;
      && s'.danmakus == s.danmakus + [d]
      && s'.sent == s.sent + (if ctx.word == "" then [Sent(req.roomId, Broadcast(d))] else [])
      && s'.reports == s.reports && s'.mutes == s.mutes && s'.users == s.users && s'.audit == s.audit
      && d.id == ctx.id && d.timestamp == ctx.now
      && d.userId == req.userId && d.roomId == req.roomId && d.content == req.content
      && d.status == (if ctx.word == "" then Approved else Flagged)
      && (req.color != "" ==> d.color == req.color) && (req.color == "" ==> d.color == "#ffffff")
      && (req.kind != "" ==> d.kind == req.kind) && (req.kind == "" ==> d.kind == "scroll")
      && d.fontSize == (if req.fontSize == 0 then 25 else req.fontSize)
      && d.reviewedBy == "" && d.reviewedAt == None && d.reviewReason == ""
  {
  }

  // ----- Blank fields -----

  lemma {:induction false} TrimLeftAt(text: string) returns (l: nat)
    ensures l <= |text| && TrimLeft(text) == text[l..]
    ensures (forall i :: 0 <= i < l ==> IsSpace(text[i])) && (l < |text| ==> !IsSpace(text[l]))
  {
    l := 0;
    if text != "" && IsSpace(text[0]) {
      l := TrimLeftAt(text[1..]);
      l := l + 1;
      assert text[1..][l - 1..] == text[l..];
      assert forall i :: 1 <= i < |text| ==> text[i] == text[1..][i - 1];
    }
  }

  lemma {:induction false} TrimRightAt(text: string) returns (r: nat)
    ensures r <= |text| && TrimRight(text) == text[..r]
    ensures (forall i :: r <= i < |text| ==> IsSpace(text[i])) && (r > 0 ==> !IsSpace(text[r - 1]))
  {
    r := |text|;
    if text != "" && IsSpace(text[|text| - 1]) {
      r := TrimRightAt(text[..|text| - 1]);
      assert text[..|text| - 1][..r] == text[..r];
    }
  }

  /** Trimming takes the white space off both ends, and nothing else. */
  lemma TrimMeaning(text: string) returns (l: nat, r: nat)
    ensures l <= r <= |text| && Trim(text) == text[l..r]
    ensures forall i :: 0 <= i < l || r <= i < |text| ==> IsSpace(text[i])
    ensures l < r ==> !IsSpace(text[l]) && !IsSpace(text[r - 1])
  {
    l := TrimLeftAt(text);
    var inner := TrimRightAt(text[l..]);
    r := l + inner;
    assert text[l..][..inner] == text[l..r];
    assert forall i :: l <= i < |text| ==> text[i] == text[l..][i - l];
  }

  /** A field is blank exactly when trimming leaves nothing of it. */
  lemma BlankIsTrimmedAway(text: string)
    ensures Blank(text) <==> Trim(text) == ""
  {
    var l, r := TrimMeaning(text);
  }

  /** What a well-formed request is: text in content, user and room, at most five hundred bytes of content, and a
      kind, a size and a colour of the known form, or none. */
  lemma RequestIsValidExactly(req: Request)
    ensures ValidRequest(req) <==>
      && Trim(req.content) != "" && ByteLength(req.content) <= 500 && Trim(req.userId) != "" && Trim(req.roomId) != ""
      && req.kind in {"", "scroll", "top", "bottom", "reverse"} && req.fontSize in {0, 18, 25, 36}
      && (req.color == "" || "#" <= req.color)
  {
    BlankIsTrimmedAway(req.content);
    BlankIsTrimmedAway(req.userId);
    BlankIsTrimmedAway(req.roomId);
  }

  /** The length of the content is counted in bytes: one for each ASCII character, at most four for any. */
  lemma {:induction false} ByteLengthMeaning(text: string)
    ensures |text| <= ByteLength(text) <= 4 * |text|
    ensures ByteLength(text) == |text| <==> forall i :: 0 <= i < |text| ==> text[i] < '\U{80}'
  {
    if text != "" {
      ByteLengthMeaning(text[1..]);
      assert forall i :: 1 <= i < |text| ==> text[i] == text[1..][i - 1];
    }
  }

  // ----- Reviewing -----

  /** The frame that an accepted review sends: an approval shows the message as it now is, the rejection of one that
      was shown takes it down, and the rejection of a hidden one needs none. */
  function FramesFor(d: Danmaku, after: Danmaku, reason: string): seq<Sent> {
    if d.roomId == "" then []
    else if after.status == Approved then [Sent(d.roomId, Broadcast(after))]
    else if d.status == Approved then [Sent(d.roomId, Retract(d.id, reason))]
    else []
  }

  /** An accepted review that changes the status rewrites one record and tells its room. */
  lemma ReviewDoes(s: State, id: string, reviewer: string, to: Status, reason: string, now: int, d: Danmaku)
    requires Find(s.danmakus, id) == Some(d) && d.status != to && Review(s, id, reviewer, to, reason, now).1.Ok?
    ensures var (s', r) := Review(s, id, reviewer, to, reason, now);
      var after := d.(status := to, reviewedBy := reviewer, reviewedAt := Some(now), reviewReason := reason);
      && Find(s'.danmakus, id) == Some(after)
      && s'.sent == s.sent + FramesFor(d, after, reason)
      && r.value.action == to && (r.value.notified <==> FramesFor(d, after, reason) != [])
      && s'.users == s.users && s'.reports == s.reports && s'.mutes == s.mutes
  {
    FindAfterReview(s.danmakus, id, to, reviewer, reason, now, id);
  }

  /** And it is logged once, with its reason or with what it changed. */
  lemma ReviewIsLogged(s: State, id: string, reviewer: string, to: Status, reason: string, now: int, d: Danmaku)
    requires Find(s.danmakus, id) == Some(d) && d.status != to && Review(s, id, reviewer, to, reason, now).1.Ok?
    ensures var s' := Review(s, id, reviewer, to, reason, now).0;
      && |s'.audit| == |s.audit| + 1 && s'.audit[..|s.audit|] == s.audit
      && var e := s'.audit[|s.audit|];
        && e.action == ReviewedDanmaku && e.actorId == reviewer
        && e.targetDanmakuId == id && e.targetRoomId == d.roomId
        && e.reason == if reason != "" then reason else "review: " + StatusName(d.status) + " -> " + StatusName(to)
  {
  }

  /** A review of a record that already has the status, or a refused one, changes nothing. */
  lemma ReviewOtherwiseChangesNothing(s: State, id: string, reviewer: string, to: Status, reason: string, now: int)
    requires var found := Find(s.danmakus, id);
      found.None? || found.value.status == to || Review(s, id, reviewer, to, reason, now).1.Err?
    ensures Review(s, id, reviewer, to, reason, now).0 == s
    ensures Review(s, id, reviewer, to, reason, now).1 == Err(DanmakuNotFound) <==> Find(s.danmakus, id).None?
  {
  }

  // ----- Muting -----

  /** A mute stands, for this user in this room, exactly until it expires. */
  lemma MuteDoes(s: State, m: Mute, now: int)
    ensures var s' := MuteUser(s, m);
      && (MuteStands(s', m.userId, m.roomId, now) <==> now < m.expiresAt)
      && s'.mutes == s.mutes[m.userId + ":" + m.roomId := m]
      && s'.audit == s.audit + [AuditEntry(MutedUser, m.createdBy, m.userId, "", m.roomId, m.reason)]
      && s'.users == s.users && s'.reports == s.reports && s'.danmakus == s.danmakus && s'.sent == s.sent
  {
  }

  lemma UnmuteDoes(s: State, userId: string, roomId: string, actorId: string, now: int)
    ensures var s' := UnmuteUser(s, userId, roomId, actorId);
      && !MuteStands(s', userId, roomId, now)
      && s'.mutes == s.mutes - {userId + ":" + roomId}
      && s'.audit == s.audit + [AuditEntry(UnmutedUser, actorId, userId, "", roomId, "")]
      && s'.users == s.users && s'.reports == s.reports && s'.danmakus == s.danmakus && s'.sent == s.sent
  {
  }

  // ----- Reporting -----

  predicate HasReport(s: State, danmakuId: string, reporterId: string) {
    exists id | id in s.reports :: s.reports[id].danmakuId == danmakuId && s.reports[id].reporterId == reporterId
  }

  /** A report is accepted exactly when it has a reason of one to five hundred characters, its reporter is not
      banned and has none on this danmaku, and the danmaku is in the room. Then it is stored, open. */
  lemma ReportAcceptedExactly(s: State, id: string, danmakuId: string, roomId: string, reporterId: string,
                              reason: string)
    ensures var (s', r) := FileReport(s, id, danmakuId, roomId, reporterId, reason);
      var found := Find(s.danmakus, danmakuId);
      && (r.Ok? <==>
            && 1 <= |Trim(reason)| <= 500 && !BanStands(s, reporterId)
            && found.Some? && found.value.roomId == roomId && !HasReport(s, danmakuId, reporterId))
      && s' == (if r.Err? then s else
                s.(reports := s.reports[id := Report(danmakuId, roomId, reporterId, Trim(reason), Open, "", None)]))
  {
  }

  lemma ReportErrorsExactly(s: State, id: string, danmakuId: string, roomId: string, reporterId: string, reason: string)
    ensures var r := FileReport(s, id, danmakuId, roomId, reporterId, reason).1;
      var found := Find(s.danmakus, danmakuId);
      var badReason := !(1 <= |Trim(reason)| <= 500);
      && (r == Err(BadReason) <==> badReason)
      && (r == Err(BannedReporter) <==> !badReason && BanStands(s, reporterId))
      && (r == Err(DanmakuNotFound) <==> !badReason && !BanStands(s, reporterId) && found.None?)
      && (r == Err(RoomMismatch) <==>
            !badReason && !BanStands(s, reporterId) && found.Some? && found.value.roomId != roomId)
      && (r == Err(DuplicateReport) <==>
            && !badReason && !BanStands(s, reporterId) && found.Some? && found.value.roomId == roomId
            && HasReport(s, danmakuId, reporterId))
  {
  }

  // ----- Deciding a report -----

  /** Only an open report can be decided; a dismissal closes it and does nothing else. */
  lemma DismissalDoes(s: State, id: string, d: Decision)
    requires d.decision == "dismissed"
    ensures var (s', r) := Resolve(s, id, d);
      && (r.Ok? <==> id in s.reports && s.reports[id].status == Open)
      && (r.Err? ==> s' == s && r == Err(if id in s.reports then ReportClosed else ReportNotFound))
      && (r.Ok? ==>
            && s'.reports == s.reports[id := s.reports[id].(
                 status := Dismissed, resolvedBy := d.resolverId, resolvedAt := Some(d.now))]
            && s'.danmakus == s.danmakus && s'.sent == s.sent && s'.users == s.users && s'.mutes == s.mutes
            && s'.audit == s.audit + [AuditEntry(ResolvedReport, d.resolverId, "", "", s.reports[id].roomId, d.reason)])
  {
  }

  /** A confirmed rejection, alone or with a mute, does to records and frames what a review by the resolver does. */
  lemma ConfirmedRejectionDoes(s: State, id: string, d: Decision)
    requires d.decision != "dismissed" && d.action in {"reject", "mute"} && Resolve(s, id, d).1.Ok?
    ensures id in s.reports
    ensures var s' := Resolve(s, id, d).0;
      var reviewed := Review(s, s.reports[id].danmakuId, d.resolverId, Rejected, d.reason, d.now).0;
      s'.danmakus == reviewed.danmakus && s'.sent == reviewed.sent
  {
  }

  /** What a confirmed decision answers. */
  lemma ConfirmedAnswers(s: State, id: string, d: Decision)
    requires d.decision != "dismissed" && Resolve(s, id, d).1.Ok?
    ensures id in s.reports
    ensures var found := Find(s.danmakus, s.reports[id].danmakuId);
      Resolve(s, id, d).1.value
      == (match d.action
          case "reject" => ["rejected_danmaku"]
          case "mute" => ["rejected_danmaku"] + if found.Some? then ["muted_user"] else []
          case _ => if found.Some? then ["banned_user"] else []) + ["report_resolved"]
  {
    if d.action == "mute" {
      ReviewFinds(s, s.reports[id], d);
    }
  }

  /** Its closing is logged after all else. */
  lemma ConfirmedIsLogged(s: State, id: string, d: Decision)
    requires d.decision != "dismissed" && Resolve(s, id, d).1.Ok?
    ensures id in s.reports
    ensures var s' := Resolve(s, id, d).0;
      && |s'.audit| > |s.audit|
      && s'.audit[|s'.audit| - 1]
         == AuditEntry(ResolvedReport, d.resolverId, "", "", s.reports[id].roomId,
                       "decision=" + d.decision + " action=" + d.action + " reason=" + d.reason)
  {
    ActOnlyLogs(s, s.reports[id], d);
  }

  lemma ActOnlyLogs(s: State, r: Report, d: Decision)
    ensures |Act(s, r, d).0.audit| >= |s.audit|
  {
  }

  lemma ReviewFinds(s: State, r: Report, d: Decision)
    ensures Find(Review(s, r.danmakuId, d.resolverId, Rejected, d.reason, d.now).0.danmakus, r.danmakuId).Some?
       <==> Find(s.danmakus, r.danmakuId).Some?
  {
    if Find(s.danmakus, r.danmakuId).Some? {
      FindAfterReview(s.danmakus, r.danmakuId, Rejected, d.resolverId, d.reason, d.now, r.danmakuId);
    }
  }

  /** A mute that comes with a confirmed report runs for the given minutes, or half an hour when none are given. */
  lemma ConfirmedMuteDoes(s: State, id: string, d: Decision)
    requires d.decision != "dismissed" && d.action == "mute" && Resolve(s, id, d).1.Ok?
    requires id in s.reports && Find(s.danmakus, s.reports[id].danmakuId).Some?
    ensures var s' := Resolve(s, id, d).0;
      var key := Find(s.danmakus, s.reports[id].danmakuId).value.userId + ":" + s.reports[id].roomId;
      && key in s'.mutes && s'.mutes == s.mutes[key := s'.mutes[key]]
      && s'.mutes[key].expiresAt == d.now + (if d.muteMinutes > 0 then d.muteMinutes * 60000 else 1800000)
      && s'.mutes[key].createdBy == d.resolverId && s'.mutes[key].reason == d.reason
      && s'.users == s.users
  {
    var r := s.reports[id];
    if Find(s.danmakus, r.danmakuId).value.status != Rejected {
      FindAfterReview(s.danmakus, r.danmakuId, Rejected, d.resolverId, d.reason, d.now, r.danmakuId);
    }
  }

  /** A ban that comes with a confirmed report bans the author, on record and in the log. */
  lemma ConfirmedBanDoes(s: State, id: string, d: Decision)
    requires d.decision != "dismissed" && d.action == "ban" && Resolve(s, id, d).1.Ok?
    requires id in s.reports && Find(s.danmakus, s.reports[id].danmakuId).Some?
    ensures var s' := Resolve(s, id, d).0;
      var author := Find(s.danmakus, s.reports[id].danmakuId).value.userId;
      && author in s.users && author in s'.users
      && s'.users == s.users[author := s.users[author].(
           banned := true, bannedBy := d.resolverId, bannedReason := d.reason, bannedAt := Some(d.now))]
      && AuditEntry(BannedUser, d.resolverId, author, "", "", d.reason) in s'.audit
      && s'.danmakus == s.danmakus && s'.sent == s.sent && s'.mutes == s.mutes
  {
    var author := Find(s.danmakus, s.reports[id].danmakuId).value.userId;
    var banned := Act(s, s.reports[id], d).0;
    assert banned.audit[|s.audit|] == AuditEntry(BannedUser, d.resolverId, author, "", "", d.reason);
    assert Resolve(s, id, d).0.audit[|s.audit|] == banned.audit[|s.audit|];
  }

  // ----- Administration -----

  predicate IsAdministrator(s: State, id: string) {
    id in s.users && s.users[id].role == "admin"
  }

  /** A ban is accepted exactly from an administrator on another user who is there and is none. */
  lemma BanAcceptedExactly(s: State, actorId: string, targetId: string, reason: string, now: int)
    ensures var (s', r) := Ban(s, actorId, targetId, reason, now);
      && (r.Ok? <==>
            actorId != targetId && IsAdministrator(s, actorId) && targetId in s.users && !IsAdministrator(s, targetId))
      && (r.Err? ==> s' == s)
  {
  }

  lemma BanErrorsExactly(s: State, actorId: string, targetId: string, reason: string, now: int)
    ensures var r := Ban(s, actorId, targetId, reason, now).1;
      && (r == Err(CannotBanSelf) <==> actorId == targetId)
      && (r == Err(ActorNotFound) <==> actorId != targetId && actorId !in s.users)
      && (r == Err(InsufficientRole) <==> actorId != targetId && actorId in s.users && !IsAdministrator(s, actorId))
      && (r == Err(TargetNotFound) <==> actorId != targetId && IsAdministrator(s, actorId) && targetId !in s.users)
      && (r == Err(CannotBanAdmin) <==>
            actorId != targetId && IsAdministrator(s, actorId) && IsAdministrator(s, targetId))
  {
  }

  /** An accepted ban bans this user, for this reason and by this actor, nobody else, and is logged once. */
  lemma BanDoes(s: State, actorId: string, targetId: string, reason: string, now: int)
    requires Ban(s, actorId, targetId, reason, now).1.Ok?
    ensures var s' := Ban(s, actorId, targetId, reason, now).0;
      && targetId in s.users && s'.users.Keys == s.users.Keys
      && (var was, u := s.users[targetId], s'.users[targetId];
          && u.banned && u.bannedBy == actorId && u.bannedReason == reason && u.bannedAt == Some(now)
          && u.username == was.username && u.role == was.role)
      && (forall id :: id in s.users && id != targetId ==> s'.users[id] == s.users[id])
      && s'.audit == s.audit + [AuditEntry(BannedUser, actorId, targetId, "", "", reason)]
      && s'.danmakus == s.danmakus && s'.sent == s.sent && s'.reports == s.reports && s'.mutes == s.mutes
  {
  }

  /** An unban is accepted exactly from an administrator, on oneself, on someone unknown, or on a user who is
      no administrator. */
  lemma UnbanAcceptedExactly(s: State, actorId: string, targetId: string)
    ensures var (s', r) := Unban(s, actorId, targetId);
      && (r.Ok? <==> IsAdministrator(s, actorId) && (actorId == targetId || !IsAdministrator(s, targetId)))
      && (r.Err? ==> s' == s)
  {
  }

  lemma UnbanErrorsExactly(s: State, actorId: string, targetId: string)
    ensures var r := Unban(s, actorId, targetId).1;
      && (r == Err(ActorNotFound) <==> actorId != targetId && actorId !in s.users)
      && (r == Err(InsufficientRole) <==>
            (actorId == targetId || actorId in s.users) && !IsAdministrator(s, actorId))
      && (r == Err(CannotBanAdmin) <==>
            actorId != targetId && IsAdministrator(s, actorId) && IsAdministrator(s, targetId))
  {
  }

  lemma UnbanDoes(s: State, actorId: string, targetId: string)
    requires Unban(s, actorId, targetId).1.Ok?
    ensures var s' := Unban(s, actorId, targetId).0;
      && !BanStands(s', targetId) && s'.users.Keys == s.users.Keys
      && (targetId in s.users ==>
            var was, u := s.users[targetId], s'.users[targetId];
            && u.bannedBy == "" && u.bannedReason == "" && u.bannedAt == None
            && u.username == was.username && u.role == was.role)
      && (forall id :: id in s.users && id != targetId ==> s'.users[id] == s.users[id])
      && s'.audit == s.audit + [AuditEntry(UnbannedUser, actorId, targetId, "", "", "")]
      && s'.danmakus == s.danmakus && s'.sent == s.sent && s'.reports == s.reports && s'.mutes == s.mutes
  {
  }

  /** A role is set exactly by an administrator, on another user who is there, to one of the three roles. */
  lemma SetRoleAcceptedExactly(s: State, actorId: string, targetId: string, role: string)
    ensures var (s', r) := SetRole(s, actorId, targetId, role);
      && (r.Ok? <==>
            && role in {"user", "moderator", "admin"} && IsAdministrator(s, actorId)
            && actorId != targetId && targetId in s.users)
      && (r.Err? ==> s' == s)
  {
    if IsAdministrator(s, actorId) && actorId != targetId {
      assert HasOtherAdmin(s.users, targetId);
    }
  }

  lemma SetRoleErrorsExactly(s: State, actorId: string, targetId: string, role: string)
    ensures var r := SetRole(s, actorId, targetId, role).1;
      var known := role in {"user", "moderator", "admin"};
      && (r == Err(InvalidRole) <==> !known)
      && (r == Err(ActorNotFound) <==> known && actorId !in s.users)
      && (r == Err(InsufficientRole) <==> known && actorId in s.users && !IsAdministrator(s, actorId))
      && (r == Err(CannotChangeOwnRole) <==> known && IsAdministrator(s, actorId) && actorId == targetId)
      && (r == Err(TargetNotFound) <==>
            known && IsAdministrator(s, actorId) && actorId != targetId && targetId !in s.users)
  {
    if IsAdministrator(s, actorId) && actorId != targetId {
      assert HasOtherAdmin(s.users, targetId);
    }
  }

  lemma SetRoleDoes(s: State, actorId: string, targetId: string, role: string)
    requires SetRole(s, actorId, targetId, role).1.Ok?
    ensures var s' := SetRole(s, actorId, targetId, role).0;
      && targetId in s.users && s'.users == s.users[targetId := s.users[targetId].(role := role)]
      && s'.audit == s.audit + [AuditEntry(ChangedRole, actorId, targetId, "", "", "role changed to " + role)]
      && s'.danmakus == s.danmakus && s'.sent == s.sent && s'.reports == s.reports && s'.mutes == s.mutes
  {
  }
}
