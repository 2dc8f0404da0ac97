/** What the audit log tells, and why the last administrator cannot be lost. */
module AuditLaws {
  import opened Model
  import opened MemoryStores
  import opened Governance
  import opened ReportLaws

  /** The part of a user that the log accounts for. */
  datatype Standing = Standing(role: string, banned: bool)

  function Standings(users: map<string, User>): map<string, Standing> {
    map id | id in users :: Standing(users[id].role, users[id].banned)
  }

  /** What one log entry says about a standing. */
  function Replay1(st: map<string, Standing>, e: AuditEntry): map<string, Standing> {
    var id := e.targetUserId;
    if id !in st then st else
    match e.action
    case BannedUser => st[id := st[id].(banned := true)]
    case UnbannedUser => st[id := st[id].(banned := false)]
    case ChangedRole =>
      if ROLE_CHANGED_TO <= e.reason then st[id := st[id].(role := e.reason[|ROLE_CHANGED_TO|..])] else st
    case _ => st
  }

  function Replay(st: map<string, Standing>, log: seq<AuditEntry>): map<string, Standing> {
    if log == [] then st else Replay1(Replay(st, log[..|log| - 1]), log[|log| - 1])
  }

  lemma ReplayAppended(st: map<string, Standing>, log: seq<AuditEntry>, e: AuditEntry)
    ensures Replay(st, log + [e]) == Replay1(Replay(st, log), e)
  {
    assert (log + [e])[..|log|] == log;
  }

  /** The standings follow the log from the standings `st`. */
  ghost predicate LogTells(st: map<string, Standing>, s: State) {
    Standings(s.users) == Replay(st, s.audit)
  }

  lemma RoleIsRead(role: string)
    ensures ROLE_CHANGED_TO <= ROLE_CHANGED_TO + role && (ROLE_CHANGED_TO + role)[|ROLE_CHANGED_TO|..] == role
  {
  }

  lemma StandingsAfter(users: map<string, User>, id: string, u: User)
    ensures Standings(users[id := u]) == Standings(users)[id := Standing(u.role, u.banned)]
  {
  }

  /** An operation changes the standings as the entries it appends say. */
  lemma BanIsTold(st: map<string, Standing>, s: State, targetId: string, actorId: string, reason: string, now: int)
    requires LogTells(st, s) && targetId in s.users
    ensures LogTells(st, BanRecord(s, targetId, actorId, reason, now))
  {
    ReplayAppended(st, s.audit, AuditEntry(BannedUser, actorId, targetId, "", "", reason));
    StandingsAfter(s.users, targetId, BanRecord(s, targetId, actorId, reason, now).users[targetId]);
  }

  lemma UnbanIsTold(st: map<string, Standing>, s: State, actorId: string, targetId: string)
    requires LogTells(st, s)
    ensures LogTells(st, Unban(s, actorId, targetId).0)
  {
    ReplayAppended(st, s.audit, AuditEntry(UnbannedUser, actorId, targetId, "", "", ""));
    if targetId in s.users {
      StandingsAfter(s.users, targetId, UnbanRecord(s.users, targetId)[targetId]);
    }
  }

  lemma SetRoleIsTold(st: map<string, Standing>, s: State, actorId: string, targetId: string, role: string)
    requires LogTells(st, s)
    ensures LogTells(st, SetRole(s, actorId, targetId, role).0)
  {
    ReplayAppended(st, s.audit, AuditEntry(ChangedRole, actorId, targetId, "", "", ROLE_CHANGED_TO + role));
    RoleIsRead(role);
    if targetId in s.users {
      StandingsAfter(s.users, targetId, s.users[targetId].(role := role));
    }
  }

  /** An entry about anything but standings is skipped by the replay. */
  lemma OtherEntryIsSkipped(st: map<string, Standing>, s: State, s': State, e: AuditEntry)
    requires LogTells(st, s) && s'.users == s.users && s'.audit == s.audit + [e]
    requires e.action !in {BannedUser, UnbannedUser, ChangedRole}
    ensures LogTells(st, s')
  {
    ReplayAppended(st, s.audit, e);
  }

  lemma ReviewIsTold(st: map<string, Standing>, s: State, id: string, reviewer: string, to: Status, reason: string,
                     now: int)
    requires LogTells(st, s)
    ensures LogTells(st, Review(s, id, reviewer, to, reason, now).0)
    ensures Review(s, id, reviewer, to, reason, now).0.users == s.users
  {
    var s' := Review(s, id, reviewer, to, reason, now).0;
    if s' != s {
      OtherEntryIsSkipped(st, s, s', s'.audit[|s.audit|]);
    }
  }

  lemma MuteIsTold(st: map<string, Standing>, s: State, m: Mute)
    requires LogTells(st, s)
    ensures LogTells(st, MuteUser(s, m))
  {
    OtherEntryIsSkipped(st, s, MuteUser(s, m), MuteUser(s, m).audit[|s.audit|]);
  }

  lemma CloseIsTold(st: map<string, Standing>, s: State, id: string, status: ReportStatus, d: Decision, why: string)
    requires LogTells(st, s) && id in s.reports
    ensures LogTells(st, CloseReport(s, id, status, d, why))
  {
    var s' := CloseReport(s, id, status, d, why);
    OtherEntryIsSkipped(st, s, s', s'.audit[|s.audit|]);
  }

  lemma RejectIsTold(st: map<string, Standing>, s: State, r: Report, d: Decision)
    requires LogTells(st, s) && (d.action == "reject" || d.action == "mute")
    ensures LogTells(st, Act(s, r, d).0)
  {
    ReviewIsTold(st, s, r.danmakuId, d.resolverId, Rejected, d.reason, d.now);
    var s1 := Review(s, r.danmakuId, d.resolverId, Rejected, d.reason, d.now).0;
    var found := Find(s1.danmakus, r.danmakuId);
    if found.Some? {
      MuteIsTold(st, s1,
        Mute(found.value.userId, r.roomId, d.resolverId, d.now + MuteDuration(d.muteMinutes), d.reason));
    }
  }

  lemma ActIsTold(st: map<string, Standing>, s: State, r: Report, d: Decision)
    requires LogTells(st, s)
    ensures LogTells(st, Act(s, r, d).0)
  {
    if d.action == "reject" || d.action == "mute" {
      RejectIsTold(st, s, r, d);
    } else {
      var found := Find(s.danmakus, r.danmakuId);
      if found.Some? && found.value.userId in s.users {
        BanIsTold(st, s, found.value.userId, d.resolverId, d.reason, d.now);
      }
    }
  }

  lemma ResolveIsTold(st: map<string, Standing>, s: State, id: string, d: Decision)
    requires LogTells(st, s)
    ensures LogTells(st, Resolve(s, id, d).0)
  {
    if id in s.reports {
      CloseIsTold(st, s, id, Dismissed, d, d.reason);
      ActIsTold(st, s, s.reports[id], d);
      ActLeavesReports(s, s.reports[id], d);
      CloseIsTold(st, Act(s, s.reports[id], d).0, id, Resolved, d, ResolutionNote(d));
    }
  }

  lemma UnmuteIsTold(st: map<string, Standing>, s: State, userId: string, roomId: string, actorId: string)
    requires LogTells(st, s)
    ensures LogTells(st, UnmuteUser(s, userId, roomId, actorId))
  {
    OtherEntryIsSkipped(st, s, UnmuteUser(s, userId, roomId, actorId),
      AuditEntry(UnmutedUser, actorId, userId, "", roomId, ""));
  }

  /** Creating a danmaku and filing a report touch neither the users nor the log. */
  lemma UnloggedOperations(s: State, op: Operation)
    requires op.DoCreate? || op.DoReport?
    ensures Apply(s, op).users == s.users && Apply(s, op).audit == s.audit
  {
  }

  lemma AdminStepIsTold(st: map<string, Standing>, s: State, op: Operation)
    requires LogTells(st, s) && (op.DoBan? || op.DoUnban? || op.DoSetRole?)
    ensures LogTells(st, Apply(s, op))
  {
    match op
    case DoBan(actorId, targetId, reason, now) =>
      if targetId in s.users {
        BanIsTold(st, s, targetId, actorId, reason, now);
      }
    case DoUnban(actorId, targetId) => UnbanIsTold(st, s, actorId, targetId);
    case DoSetRole(actorId, targetId, role) => SetRoleIsTold(st, s, actorId, targetId, role);
  }

  lemma StepIsTold(st: map<string, Standing>, s: State, op: Operation)
    requires LogTells(st, s)
    ensures LogTells(st, Apply(s, op))
  {
    match op
    case DoReview(id, reviewer, to, reason, now) => ReviewIsTold(st, s, id, reviewer, to, reason, now);
    case DoMute(m) => MuteIsTold(st, s, m);
    case DoUnmute(userId, roomId, actorId) => UnmuteIsTold(st, s, userId, roomId, actorId);
    case DoResolve(id, d) => ResolveIsTold(st, s, id, d);
    case _ =>
      if op.DoCreate? || op.DoReport? {
        UnloggedOperations(s, op);
      } else {
        AdminStepIsTold(st, s, op);
      }
  }

  /** Replaying the audit log from the initial standings reproduces every role and the banned set,
      after every run of the service operations. */
  lemma {:induction false} AuditLogIsComplete(s: State, ops: seq<Operation>)
    requires s.audit == []
    ensures Replay(Standings(s.users), Run(s, ops).audit) == Standings(Run(s, ops).users)
  {
    LogTellsOverRuns(Standings(s.users), s, ops);
  }

  lemma {:induction false} LogTellsOverRuns(st: map<string, Standing>, s: State, ops: seq<Operation>)
    requires LogTells(st, s)
    ensures LogTells(st, Run(s, ops))
  {
    if ops != [] {
      LogTellsOverRuns(st, s, ops[..|ops| - 1]);
      StepIsTold(st, Run(s, ops[..|ops| - 1]), ops[|ops| - 1]);
    }
  }

  // ----- Administrators -----

  ghost predicate HasAdmin(s: State) {
    exists id :: IsAdmin(s.users, id)
  }

  /** Only SetRole changes roles. */
  lemma ResolveKeepsRoles(s: State, id: string, d: Decision)
    ensures SameRoles(s.users, Resolve(s, id, d).0.users)
  {
    if id in s.reports {
      var r := s.reports[id];
      ReviewLeavesReports(s, r.danmakuId, d.resolverId, Rejected, d.reason, d.now);
    }
  }

  ghost predicate SameRoles(before: map<string, User>, after: map<string, User>) {
    after.Keys == before.Keys && forall id :: id in before ==> after[id].role == before[id].role
  }

  lemma RolesAfter(s: State, op: Operation)
    requires !op.DoSetRole?
    ensures SameRoles(s.users, Apply(s, op).users)
  {
    match op
    case DoResolve(id, d) => ResolveKeepsRoles(s, id, d);
    case DoReview(id, reviewer, to, reason, now) => ReviewLeavesReports(s, id, reviewer, to, reason, now);
    case _ =>
  }

  /** The error for demoting the last administrator is never returned: whoever may demote is another one. */
  lemma LastAdminIsUnreachable(s: State, actorId: string, targetId: string, role: string)
    ensures SetRole(s, actorId, targetId, role).1 != Err(LastAdmin)
  {
    if actorId != targetId && IsAdmin(s.users, actorId) {
      assert HasOtherAdmin(s.users, targetId);
    }
  }

  lemma StepKeepsAnAdmin(s: State, op: Operation)
    requires HasAdmin(s)
    ensures HasAdmin(Apply(s, op))
  {
    var id :| IsAdmin(s.users, id);
    match op
    case DoSetRole(actorId, targetId, role) =>
      var s' := SetRole(s, actorId, targetId, role).0;
      assert IsAdmin(s'.users, if id == targetId && s' != s then actorId else id);
    case _ =>
      RolesAfter(s, op);
      assert IsAdmin(Apply(s, op).users, id);
  }

  /** A system that starts with an administrator has one after every run. */
  lemma {:induction false} AnAdminRemains(s: State, ops: seq<Operation>)
    requires HasAdmin(s)
    ensures HasAdmin(Run(s, ops))
  {
    if ops != [] {
      AnAdminRemains(s, ops[..|ops| - 1]);
      StepKeepsAnAdmin(Run(s, ops[..|ops| - 1]), ops[|ops| - 1]);
    }
  }

  /** A ban by report spares administrators. */
  lemma ResolveBansNoAdmin(s: State, reportId: string, d: Decision, id: string)
    requires IsAdmin(s.users, id) && !s.users[id].banned
    ensures var users := Resolve(s, reportId, d).0.users; id in users && !users[id].banned
  {
    if reportId in s.reports {
      ReviewLeavesReports(s, s.reports[reportId].danmakuId, d.resolverId, Rejected, d.reason, d.now);
    }
  }

  /** Nobody who is an administrator is banned by any operation; a banned administrator was banned before the
      promotion. */
  lemma AdminsAreNotBanned(s: State, op: Operation, id: string)
    requires IsAdmin(s.users, id) && !s.users[id].banned
    ensures id in Apply(s, op).users && !Apply(s, op).users[id].banned
  {
    match op
    case DoResolve(reportId, d) => ResolveBansNoAdmin(s, reportId, d, id);
    case DoReview(danmakuId, reviewer, to, reason, now) => ReviewLeavesReports(s, danmakuId, reviewer, to, reason, now);
    case _ =>
  }
}
