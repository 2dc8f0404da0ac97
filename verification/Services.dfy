/** The memory stores and the services that work on them, as the source writes them: objects updated in
    place. Every service method is proved to make the corresponding transition of Governance. */
module Services {
  import opened Model
  import opened MemoryStores
  import opened Governance
  import opened SubstringSearch
  import AhoCorasick
  import Blocklists
  import RateLimiters
  import ReportLaws

  // ----- Stores -----

  class Account {
    const id: string
    const username: string
    var role: string
    var banned: bool
    var bannedReason: string
    var bannedBy: string
    var bannedAt: Option<int>

    constructor (id: string, username: string, role: string)
      ensures this.id == id && Record() == User(username, role, false, "", "", None)
    {
      this.id, this.username, this.role := id, username, role;
      banned, bannedReason, bannedBy, bannedAt := false, "", "", None;
    }

    ghost function Record(): User
      reads this
    {
      User(username, role, banned, bannedReason, bannedBy, bannedAt)
    }
  }

  /** Two indexes over the same account objects. */
  class MemoryUserStore {
    var users: map<string, Account> // by username
    var byID: map<string, Account>

    /** Every account is reachable under its ID and under its username, and is the same object there. */
    ghost predicate Valid()
      reads this
    {
      && (forall id :: id in byID ==> byID[id].id == id)
      && (forall name :: name in users ==> users[name].username == name)
      && (forall id :: id in byID ==> byID[id].username in users && users[byID[id].username] == byID[id])
      && (forall name :: name in users ==> users[name].id in byID && byID[users[name].id] == users[name])
    }

    ghost function Records(): map<string, User>
      reads this, byID.Values
    {
      map id | id in byID :: byID[id].Record()
    }

    constructor ()
      ensures Valid() && Records() == map[]
    {
      users, byID := map[], map[];
    }

    /** Registration. The indexes stay in step exactly when a refused name or a new ID is given. */
    method Create(user: Account) returns (ok: bool)
      requires Valid()
      modifies this
      ensures ok <==> user.username !in old(users)
      ensures ok ==> Records() == old(Records())[user.id := user.Record()]
      ensures !ok ==> users == old(users) && byID == old(byID)
      ensures Valid() <==> user.username in old(users) || user.id !in old(byID)
    {
      if user.username in users {
        return false;
      }
      ghost var hidden := if user.id in byID then byID[user.id].username else "";
      users := users[user.username := user];
      byID := byID[user.id := user];
      if user.id in old(byID) {
        assert users[hidden].id == user.id && users[hidden] != user;
        assert !Valid();
      }
      return true;
    }

    method FindByID(id: string) returns (r: Account?)
      ensures r == if id in byID then byID[id] else null
    {
      return if id in byID then byID[id] else null;
    }

    method UpdateRole(id: string, role: string)
      requires Valid()
      modifies byID.Values`role
      ensures Records() ==
        if id in byID then old(Records())[id := old(Records())[id].(role := role)] else old(Records())
    {
      if id in byID {
        byID[id].role := role;
      }
    }

    method BanUser(id: string, reason: string, bannedBy: string, now: int)
      requires Valid()
      modifies byID.Values
      ensures Records() ==
        if id in byID
        then old(Records())[id := old(Records())[id].(
          banned := true, bannedAt := Some(now), bannedReason := reason, bannedBy := bannedBy)]
        else old(Records())
    {
      if id in byID {
        var user := byID[id];
        user.banned, user.bannedAt, user.bannedReason, user.bannedBy := true, Some(now), reason, bannedBy;
      }
    }

    method UnbanUser(id: string)
      requires Valid()
      modifies byID.Values
      ensures Records() == UnbanRecord(old(Records()), id)
    {
      if id in byID {
        var user := byID[id];
        user.banned, user.bannedAt, user.bannedReason, user.bannedBy := false, None, "", "";
      }
    }

    method HasAdminOtherThan(excluded: string) returns (found: bool)
      requires Valid()
      ensures found == HasOtherAdmin(Records(), excluded)
    {
      var todo := byID.Keys;
      while todo != {}
        invariant todo <= byID.Keys
        invariant forall id :: id in byID && id !in todo ==> id == excluded || byID[id].role != ROLE_ADMIN
      {
        var id :| id in todo;
        if byID[id].id != excluded && byID[id].role == ROLE_ADMIN {
          assert Records()[id].role == ROLE_ADMIN;
          return true;
        }
        todo := todo - {id};
      }
      return false;
    }
  }

  class MemoryReportStore {
    var reports: map<string, Report>

    constructor ()
      ensures reports == map[]
    {
      reports := map[];
    }

    method Create(id: string, report: Report)
      modifies this
      ensures reports == old(reports)[id := report]
    {
      reports := reports[id := report];
    }

    method FindByID(id: string) returns (r: Option<Report>)
      ensures r == if id in reports then Some(reports[id]) else None
    {
      return if id in reports then Some(reports[id]) else None;
    }

    method HasReported(danmakuId: string, reporterId: string) returns (found: bool)
      ensures found == AlreadyReported(reports, danmakuId, reporterId)
    {
      var todo := reports.Keys;
      while todo != {}
        invariant todo <= reports.Keys
        invariant forall id :: id in reports && id !in todo ==>
          reports[id].danmakuId != danmakuId || reports[id].reporterId != reporterId
      {
        var id :| id in todo;
        if reports[id].danmakuId == danmakuId && reports[id].reporterId == reporterId {
          return true;
        }
        todo := todo - {id};
      }
      return false;
    }

    method UpdateStatus(id: string, status: ReportStatus, resolvedBy: string, at: int)
      modifies this
      ensures reports ==
        if id in old(reports)
        then old(reports)[id := old(reports)[id].(status := status, resolvedBy := resolvedBy, resolvedAt := Some(at))]
        else old(reports)
    {
      if id in reports {
        reports := reports[id := reports[id].(status := status, resolvedBy := resolvedBy, resolvedAt := Some(at))];
      }
    }
  }

  class MemoryMuteStore {
    var mutes: map<string, Mute>

    constructor ()
      ensures mutes == map[]
    {
      mutes := map[];
    }

    method Create(m: Mute)
      modifies this
      ensures mutes == old(mutes)[MuteKey(m.userId, m.roomId) := m]
    {
      mutes := mutes[m.userId + ":" + m.roomId := m];
    }

    method DeleteByUserAndRoom(userId: string, roomId: string)
      modifies this
      ensures mutes == old(mutes) - {MuteKey(userId, roomId)}
    {
      var key := userId + ":" + roomId;
      if key in mutes {
        mutes := mutes - {key};
      }
    }

    method IsActive(userId: string, roomId: string, now: int) returns (active: bool)
      ensures active <==> MuteKey(userId, roomId) in mutes && now < mutes[MuteKey(userId, roomId)].expiresAt
    {
      var key := userId + ":" + roomId;
      active := key in mutes && now < mutes[key].expiresAt;
    }
  }

  class MemoryAuditLogStore {
    var entries: seq<AuditEntry>

    constructor ()
      ensures entries == []
    {
      entries := [];
    }

    method Add(e: AuditEntry)
      modifies this
      ensures entries == old(entries) + [e]
    {
      entries := entries + [e];
    }
  }

  /** The hub as the services see it: a place to hand frames to. */
  class BroadcastHub {
    var sent: seq<Sent>

    constructor ()
      ensures sent == []
    {
      sent := [];
    }

    method BroadcastToRoom(roomId: string, frame: Frame)
      modifies this
      ensures sent == old(sent) + [Sent(roomId, frame)]
    {
      sent := sent + [Sent(roomId, frame)];
    }
  }

  /** The stores and the hub that the services share. */
  class Backend {
    const danmakus: MemoryStore
    const reports: MemoryReportStore
    const mutes: MemoryMuteStore
    const users: MemoryUserStore
    const audit: MemoryAuditLogStore
    const hub: BroadcastHub

    constructor ()
      ensures users.Valid() && State() == Governance.State([], map[], map[], map[], [], [])
    {
      danmakus := new MemoryStore();
      reports := new MemoryReportStore();
      mutes := new MemoryMuteStore();
      users := new MemoryUserStore();
      audit := new MemoryAuditLogStore();
      hub := new BroadcastHub();
    }

    /** Ban an existing account and log it. */
    method BanAndLog(targetId: string, actorId: string, reason: string, now: int)
      requires users.Valid() && targetId in users.byID
      modifies users.byID.Values, audit
      ensures State() == BanRecord(old(State()), targetId, actorId, reason, now)
    {
      users.BanUser(targetId, reason, actorId, now);
      audit.Add(AuditEntry(BannedUser, actorId, targetId, "", "", reason));
    }

    method UnbanAndLog(targetId: string, actorId: string)
      requires users.Valid()
      modifies users.byID.Values, audit
      ensures State() == Unbanned(old(State()), actorId, targetId)
    {
      users.UnbanUser(targetId);
      audit.Add(AuditEntry(UnbannedUser, actorId, targetId, "", "", ""));
    }

    method ChangeRoleAndLog(targetId: string, actorId: string, role: string)
      requires users.Valid() && targetId in users.byID
      modifies users.byID.Values`role, audit
      ensures State() == WithRole(old(State()), actorId, targetId, role)
    {
      users.UpdateRole(targetId, role);
      audit.Add(AuditEntry(ChangedRole, actorId, targetId, "", "", "role changed to " + role));
    }

    method CloseAndLog(id: string, status: ReportStatus, d: Decision, why: string)
      requires id in reports.reports
      modifies reports, audit
      ensures State() == CloseReport(old(State()), id, status, d, why)
    {
      var roomId := reports.reports[id].roomId;
      reports.UpdateStatus(id, status, d.resolverId, d.now);
      audit.Add(AuditEntry(ResolvedReport, d.resolverId, "", "", roomId, why));
    }

    ghost function State(): Governance.State
      reads danmakus, reports, mutes, users, users.byID.Values, audit, hub
    {
      Governance.State(danmakus.danmakus, reports.reports, mutes.mutes, users.Records(), audit.entries, hub.sent)
    }
  }

  // ----- Services -----

  class ModerationService {
    const b: Backend
    const automaton: AhoCorasick.Automaton
    const autoReject: bool
    const normalize: string -> string
    ghost const words: set<string>

    /** Loads the block list and builds its automaton. */
    constructor (b: Backend, configured: seq<string>, lines: seq<string>, autoReject: bool, normalize: string -> string)
      ensures this.b == b && this.autoReject == autoReject && this.normalize == normalize
      ensures words == Blocklists.BlockedWords(configured, lines, normalize) && Ready()
    {
      var list := Blocklists.LoadBlocklist(configured, lines, normalize);
      ghost var visits, hops;
      var a;
      a, visits, hops := AhoCorasick.BuildACA(list);
      this.b, this.autoReject, this.normalize, automaton, words := b, autoReject, normalize, a, WordSet(list);
    }

    /** The automaton is that of the words. */
    ghost predicate Ready()
      reads automaton.at.Values
    {
      automaton.Valid(words)
    }

    /** Blocks or flags content, naming the longest of the words that end first in it, exactly when one occurs. */
    method CheckContent(content: string) returns (blocked: bool, flagged: bool, word: string)
      requires Ready()
      ensures word == Blocklists.WordIn(words, normalize, content)
      ensures content != "" ==> IsEarliestLongest(words, normalize(content), word)
      ensures blocked <==> autoReject && word != ""
      ensures flagged <==> !autoReject && word != ""
    {
      blocked, flagged, word := false, false, "";
      if content != "" {
        NaiveMatchMeaning(words, normalize(content));
        ghost var hops;
        word, hops := automaton.Match(words, normalize(content));
        blocked, flagged := word != "" && autoReject, word != "" && !autoReject;
      }
    }

    method CheckUserBan(userId: string) returns (banned: bool)
      ensures banned == IsBanned(b.State(), userId)
    {
      var user := b.users.FindByID(userId);
      return user != null && user.banned;
    }

    method CheckMute(userId: string, roomId: string, now: int) returns (muted: bool)
      ensures muted == IsMuted(b.State(), userId, roomId, now)
    {
      muted := b.mutes.IsActive(userId, roomId, now);
    }

    /** Tell the room about a review: broadcast what became approved, retract what was rejected. */
    method Notify(d: Danmaku, to: Status, reviewer: string, reason: string, now: int) returns (notified: bool)
      modifies b.hub
      ensures b.hub.sent == old(b.hub.sent) + ReviewFrames(d, to, reviewer, reason, now)
      ensures notified <==> ReviewFrames(d, to, reviewer, reason, now) != []
    {
      notified := false;
      if to == Approved && d.status != Approved && d.roomId != "" {
        var approved := d.(status := Approved, reviewedBy := reviewer, reviewedAt := Some(now), reviewReason := reason);
        b.hub.BroadcastToRoom(d.roomId, Broadcast(approved));
        notified := true;
      }
      if to == Rejected && d.status == Approved && d.roomId != "" {
        b.hub.BroadcastToRoom(d.roomId, Retract(d.id, reason));
        notified := true;
      }
    }

    method MayChange(current: Status, to: Status) returns (valid: bool)
      ensures valid == ValidTransition(current, to)
    {
      valid := false;
      match current {
        case Flagged => valid := to == Approved || to == Rejected;
        case Approved => valid := to == Rejected;
        case Rejected => valid := to == Approved;
        case Pending => valid := to == Approved || to == Rejected;
        case _ =>
      }
    }

    method ReviewDanmaku(id: string, reviewer: string, to: Status, reason: string, now: int)
      returns (r: Result<ReviewResult>)
      modifies b.danmakus, b.hub, b.audit
      ensures (b.State(), r) == Review(old(b.State()), id, reviewer, to, reason, now)
    {
      var current := b.danmakus.FindByID(id);
      if current.None? {
        return Err(DanmakuNotFound);
      }
      var d := current.value;
      if d.status == to {
        return Ok(ReviewResult(to, false));
      }
      var valid := MayChange(d.status, to);
      if !valid {
        return Err(ForbiddenTransition);
      }
      r := ChangeStatus(d, id, reviewer, to, reason, now);
    }

    method ChangeStatus(d: Danmaku, id: string, reviewer: string, to: Status, reason: string, now: int)
      returns (r: Result<ReviewResult>)
      requires Find(b.danmakus.danmakus, id) == Some(d)
      modifies b.danmakus, b.hub, b.audit
      ensures b.State() == Transition(old(b.State()), d, id, reviewer, to, reason, now)
      ensures r == Ok(ReviewResult(to, ReviewFrames(d, to, reviewer, reason, now) != []))
    {
      var rows := b.danmakus.UpdateStatus(id, to, reviewer, reason, now);
      if rows == 0 {
        return Err(DanmakuNotFound);
      }
      var notified := Notify(d, to, reviewer, reason, now);
      b.audit.Add(ReviewEntry(d, id, reviewer, to, reason));
      assert b.users.Records() == old(b.users.Records());
      return Ok(ReviewResult(to, notified));
    }

    method MuteUser(userId: string, roomId: string, createdBy: string, expiresAt: int, reason: string)
      modifies b.mutes, b.audit
      ensures b.State() == Governance.MuteUser(old(b.State()), Mute(userId, roomId, createdBy, expiresAt, reason))
    {
      b.mutes.Create(Mute(userId, roomId, createdBy, expiresAt, reason));
      b.audit.Add(AuditEntry(MutedUser, createdBy, userId, "", roomId, reason));
    }

    method UnmuteUser(userId: string, roomId: string, actorId: string)
      modifies b.mutes, b.audit
      ensures b.State() == Governance.UnmuteUser(old(b.State()), userId, roomId, actorId)
    {
      b.mutes.DeleteByUserAndRoom(userId, roomId);
      b.audit.Add(AuditEntry(UnmutedUser, actorId, userId, "", roomId, ""));
    }

    method ReportDanmaku(id: string, danmakuId: string, roomId: string, reporterId: string, reason: string)
      returns (r: Result<()>)
      modifies b.reports
      ensures (b.State(), r) == FileReport(old(b.State()), id, danmakuId, roomId, reporterId, reason)
    {
      var trimmed := Trim(reason);
      if trimmed == "" || |trimmed| > 500 {
        return Err(BadReason);
      }
      var banned := CheckUserBan(reporterId);
      if banned {
        return Err(BannedReporter);
      }
      r := File(id, Report(danmakuId, roomId, reporterId, trimmed, Open, "", None));
    }

    method File(id: string, report: Report) returns (r: Result<()>)
      modifies b.reports
      ensures (b.State(), r) == Filed(old(b.State()), id, report)
    {
      var dm := b.danmakus.FindByID(report.danmakuId);
      if dm.None? {
        return Err(DanmakuNotFound);
      }
      if dm.value.roomId != report.roomId {
        return Err(RoomMismatch);
      }
      var existing := b.reports.HasReported(report.danmakuId, report.reporterId);
      if existing {
        return Err(DuplicateReport);
      }
      b.reports.Create(id, report);
      return Ok(());
    }

    method RejectReported(report: Report, d: Decision) returns (r: Result<seq<string>>)
      modifies b.danmakus, b.hub, b.audit
      ensures (b.State(), r) == ActReject(old(b.State()), report, d)
    {
      var res := ReviewDanmaku(report.danmakuId, d.resolverId, Rejected, d.reason, d.now);
      if res.Err? && res.error != DanmakuNotFound {
        return Err(res.error);
      }
      return Ok(["rejected_danmaku"]);
    }

    method MuteReported(report: Report, d: Decision) returns (r: Result<seq<string>>)
      modifies b.danmakus, b.hub, b.audit, b.mutes
      ensures (b.State(), r) == ActMute(old(b.State()), report, d)
    {
      r := RejectReported(report, d);
      if r.Err? {
        return;
      }
      var duration := d.muteMinutes * MINUTE;
      if duration <= 0 {
        duration := 30 * MINUTE;
      }
      var dm := b.danmakus.FindByID(report.danmakuId);
      if dm.Some? {
        MuteUser(dm.value.userId, report.roomId, d.resolverId, d.now + duration, d.reason);
        r := Ok(r.value + ["muted_user"]);
      }
    }

    method BanReported(report: Report, d: Decision) returns (r: Result<seq<string>>)
      requires b.users.Valid()
      modifies b.audit, b.users.byID.Values
      ensures (b.State(), r) == ActBan(old(b.State()), report, d)
    {
      if d.resolverRole != ROLE_ADMIN {
        return Err(InsufficientRole);
      }
      var dm := b.danmakus.FindByID(report.danmakuId);
      if dm.None? {
        return Ok([]);
      }
      var author := dm.value.userId;
      if d.resolverId == author {
        return Err(CannotBanSelf);
      }
      var target := b.users.FindByID(author);
      if target == null {
        return Err(TargetNotFound);
      }
      if target.role == ROLE_ADMIN {
        return Err(CannotBanAdmin);
      }
      b.BanAndLog(author, d.resolverId, d.reason, d.now);
      return Ok(["banned_user"]);
    }

    /** The switch over the requested action. */
    method PerformAction(report: Report, d: Decision) returns (r: Result<seq<string>>)
      requires b.users.Valid()
      modifies b.danmakus, b.hub, b.audit, b.mutes, b.users.byID.Values
      ensures (b.State(), r) == Act(old(b.State()), report, d)
    {
      if d.action == "reject" {
        r := RejectReported(report, d);
      } else if d.action == "mute" {
        r := MuteReported(report, d);
      } else if d.action == "ban" {
        r := BanReported(report, d);
      } else {
        r := Err(UnknownAction);
      }
    }

    method ResolveReportWithAction(id: string, d: Decision) returns (r: Result<seq<string>>)
      requires b.users.Valid()
      modifies b.danmakus, b.hub, b.audit, b.mutes, b.reports, b.users.byID.Values
      ensures (b.State(), r) == Resolve(old(b.State()), id, d)
    {
      var report := b.reports.FindByID(id);
      if report.None? {
        return Err(ReportNotFound);
      }
      if report.value.status != Open {
        return Err(ReportClosed);
      }
      if d.decision == "dismissed" {
        b.CloseAndLog(id, Dismissed, d, d.reason);
        return Ok(["dismissed"]);
      }
      var done := PerformAction(report.value, d);
      ReportLaws.ActLeavesReports(old(b.State()), report.value, d);
      if done.Err? {
        return done;
      }
      b.CloseAndLog(id, Resolved, d, ResolutionNote(d));
      return Ok(done.value + ["report_resolved"]);
    }
  }

  class AdminService {
    const b: Backend

    constructor (b: Backend)
      ensures this.b == b
    {
      this.b := b;
    }

    method CanTargetUser(actorId: string, targetId: string) returns (r: Result<()>)
      ensures r == CanTarget(b.users.Records(), actorId, targetId)
    {
      if actorId == targetId {
        return Err(CannotBanSelf);
      }
      var actor := b.users.FindByID(actorId);
      if actor == null {
        return Err(ActorNotFound);
      }
      if actor.role != ROLE_ADMIN {
        return Err(InsufficientRole);
      }
      var target := b.users.FindByID(targetId);
      if target == null {
        return Err(TargetNotFound);
      }
      if target.role == ROLE_ADMIN {
        return Err(CannotBanAdmin);
      }
      return Ok(());
    }

    method BanUser(actorId: string, targetId: string, reason: string, now: int) returns (r: Result<()>)
      requires b.users.Valid()
      modifies b.users.byID.Values, b.audit
      ensures (b.State(), r) == Ban(old(b.State()), actorId, targetId, reason, now)
    {
      r := CanTargetUser(actorId, targetId);
      if r.Err? {
        return;
      }
      b.BanAndLog(targetId, actorId, reason, now);
    }

    /** An administrator may also unban himself, and unbanning an unknown user is allowed. */
    method CanUnban(actorId: string, targetId: string) returns (r: Result<()>)
      ensures r == MayUnban(b.users.Records(), actorId, targetId)
    {
      if actorId != targetId {
        r := CanTargetUser(actorId, targetId);
        if r.Ok? || r.error != TargetNotFound {
          return;
        }
      }
      var actor := b.users.FindByID(actorId);
      if actor == null || actor.role != ROLE_ADMIN {
        return Err(InsufficientRole);
      }
      return Ok(());
    }

    method UnbanUser(actorId: string, targetId: string) returns (r: Result<()>)
      requires b.users.Valid()
      modifies b.users.byID.Values, b.audit
      ensures (b.State(), r) == Unban(old(b.State()), actorId, targetId)
    {
      r := CanUnban(actorId, targetId);
      if r.Err? {
        return;
      }
      b.UnbanAndLog(targetId, actorId);
    }

    /** The checks before a role is changed. */
    method CanSetRole(actorId: string, targetId: string, newRole: string) returns (r: Result<()>)
      requires b.users.Valid()
      ensures r == MaySetRole(b.users.Records(), actorId, targetId, newRole)
    {
      if newRole != ROLE_USER && newRole != ROLE_MODERATOR && newRole != ROLE_ADMIN {
        return Err(InvalidRole);
      }
      var actor := b.users.FindByID(actorId);
      if actor == null {
        return Err(ActorNotFound);
      }
      if actor.role != ROLE_ADMIN {
        return Err(InsufficientRole);
      }
      if actorId == targetId {
        return Err(CannotChangeOwnRole);
      }
      var target := b.users.FindByID(targetId);
      if target == null {
        return Err(TargetNotFound);
      }
      if target.role == ROLE_ADMIN && newRole != ROLE_ADMIN {
        var another := b.users.HasAdminOtherThan(targetId);
        if !another {
          return Err(LastAdmin);
        }
      }
      return Ok(());
    }

    method SetUserRole(actorId: string, targetId: string, newRole: string) returns (r: Result<()>)
      requires b.users.Valid()
      modifies b.users.byID.Values`role, b.audit
      ensures (b.State(), r) == SetRole(old(b.State()), actorId, targetId, newRole)
    {
      r := CanSetRole(actorId, targetId, newRole);
      if r.Err? {
        return;
      }
      b.ChangeRoleAndLog(targetId, actorId, newRole);
    }
  }

  /** The synchronous path of the danmaku service: check, store, broadcast. */
  class DanmakuService {
    const b: Backend
    const moderation: ModerationService
    const rateLimiter: RateLimiters.RateLimiter

    constructor (b: Backend, moderation: ModerationService, rateLimiter: RateLimiters.RateLimiter)
      requires moderation.b == b
      ensures this.b == b && this.moderation == moderation && this.rateLimiter == rateLimiter
    {
      this.b, this.moderation, this.rateLimiter := b, moderation, rateLimiter;
    }

    /** What the limiter and the block list say about a request. */
    ghost function Context(req: Request, id: string, limiterNow: int, now: int, storeFails: bool): CreateContext
      reads rateLimiter
    {
      CreateContext(
        id, now, RateLimiters.Decides(rateLimiter.lastTime, rateLimiter.interval, req.userId, limiterNow),
        Blocklists.WordIn(moderation.words, moderation.normalize, req.content), moderation.autoReject, storeFails)
    }

    method CreateAndBroadcast(req: Request, id: string, limiterNow: int, now: int, storeFails: bool)
      returns (r: Result<Danmaku>)
      requires moderation.b == b && moderation.Ready() && rateLimiter.lastCleanCount >= 0
      modifies b.danmakus, b.hub, rateLimiter
      ensures (b.State(), r) == Create(old(b.State()), req, old(Context(req, id, limiterNow, now, storeFails)))
      ensures moderation.Ready() && rateLimiter.lastCleanCount >= 0
      ensures var last, cleaned := old(rateLimiter.lastTime), old(rateLimiter.lastCleanCount);
        (rateLimiter.lastTime, rateLimiter.lastCleanCount)
        == if ValidRequest(req) then RateLimiters.Kept(last, cleaned, rateLimiter.interval, req.userId, limiterNow)
           else (last, cleaned)
    {
      if !ValidRequest(req) {
        return Err(Invalid);
      }
      var allowed := rateLimiter.Allow(req.userId, limiterNow);
      assert b.State() == old(b.State());
      if !allowed {
        return Err(TooFast);
      }
      r := Admit(req, id, now, storeFails);
    }

    /** What follows once the request is well formed and not too fast. */
    method Admit(req: Request, id: string, now: int, storeFails: bool) returns (r: Result<Danmaku>)
      requires moderation.b == b && moderation.Ready()
      modifies b.danmakus, b.hub
      ensures (b.State(), r) == Admitted(old(b.State()), req, CreateContext(
        id, now, true, Blocklists.WordIn(moderation.words, moderation.normalize, req.content),
        moderation.autoReject, storeFails))
    {
      var banned := moderation.CheckUserBan(req.userId);
      if banned {
        return Err(UserBanned);
      }
      var muted := moderation.CheckMute(req.userId, req.roomId, now);
      if muted {
        return Err(UserMuted);
      }
      r := Screen(req, id, now, storeFails);
    }

    method Screen(req: Request, id: string, now: int, storeFails: bool) returns (r: Result<Danmaku>)
      requires moderation.b == b && moderation.Ready()
      modifies b.danmakus, b.hub
      ensures (b.State(), r) == Screened(old(b.State()), req, CreateContext(
        id, now, true, Blocklists.WordIn(moderation.words, moderation.normalize, req.content),
        moderation.autoReject, storeFails))
    {
      var blocked, flagged, word := moderation.CheckContent(req.content);
      if blocked {
        return Err(ContentBlocked(word));
      }
      r := Persist(Built(req, id, now, if flagged then Flagged else Approved), storeFails);
    }

    /** Stores the danmaku, and broadcasts it unless it is flagged. */
    method Persist(dm: Danmaku, storeFails: bool) returns (r: Result<Danmaku>)
      requires !dm.status.Unset?
      modifies b.danmakus, b.hub
      ensures (b.State(), r) == Persisted(old(b.State()), dm, storeFails)
    {
      if storeFails {
        return Err(PersistenceFailed);
      }
      b.danmakus.Add(dm);
      if dm.status != Flagged {
        b.hub.BroadcastToRoom(dm.roomId, Broadcast(dm));
      }
      return Ok(dm);
    }
  }
}
