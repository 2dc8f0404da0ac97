/** Moderation and administration as transitions of one state: what service/danmaku.go (synchronous
    path), service/moderation.go and service/admin.go do to the memory stores and to the hub. Each
    operation is one atomic step. The service classes are proved to perform these transitions. */
module Governance {
  import opened Model
  import opened MemoryStores

  const ROLE_USER := "user"
  const ROLE_MODERATOR := "moderator"
  const ROLE_ADMIN := "admin"

  datatype User = User(
    username: string, role: string, banned: bool, bannedReason: string, bannedBy: string, bannedAt: Option<int>)

  datatype ReportStatus = Open | Resolved | Dismissed

  datatype Report = Report(danmakuId: string, roomId: string, reporterId: string, reason: string,
                           status: ReportStatus, resolvedBy: string, resolvedAt: Option<int>)

  datatype Mute = Mute(userId: string, roomId: string, createdBy: string, expiresAt: int, reason: string)

  datatype AuditAction =
    | ReviewedDanmaku | BannedUser | UnbannedUser | MutedUser | UnmutedUser | ChangedRole | ResolvedReport

  datatype AuditEntry = AuditEntry(action: AuditAction, actorId: string, targetUserId: string,
                                   targetDanmakuId: string, targetRoomId: string, reason: string)

  datatype Error =
    | ShuttingDown | Invalid | TooFast | UserBanned | UserMuted | ContentBlocked(word: string) | PersistenceFailed
    | DanmakuNotFound | ForbiddenTransition | ReportNotFound | ReportClosed | DuplicateReport | RoomMismatch
    | BannedReporter | BadReason | UnknownAction | InsufficientRole | CannotBanSelf | CannotBanAdmin
    | TargetNotFound | ActorNotFound | InvalidRole | CannotChangeOwnRole | LastAdmin

  datatype Result<+T> = Ok(value: T) | Err(error: Error)

  /** Everything the services share: the stores, and every frame handed to the hub so far. */
  datatype State = State(
    danmakus: seq<Danmaku>,
    reports: map<string, Report>,
    mutes: map<string, Mute>,
    users: map<string, User>,
    audit: seq<AuditEntry>,
    sent: seq<Sent>)

  // ----- Creating -----

  datatype Request = Request(
    content: string, userId: string, roomId: string, color: string, kind: string, fontSize: int)

  /** What the outside decides about a create call: the fresh ID, the clock, whether the limiter lets it
      pass, the block-list word found in it, and whether the store refuses the write. */
  datatype CreateContext = CreateContext(
    id: string, now: int, allowed: bool, word: string, autoReject: bool, storeFails: bool)

  predicate IsSpace(c: char) {
    c in {'\t', '\n', '\U{B}', '\U{C}', '\r', ' ', '\U{85}', '\U{A0}', '\U{1680}', '\U{2028}', '\U{2029}', '\U{202F}',
          '\U{205F}', '\U{3000}'}
    || '\U{2000}' <= c <= '\U{200A}'
  }

  predicate Blank(s: string) {
    forall i :: 0 <= i < |s| ==> IsSpace(s[i])
  }

  function ByteLength(s: string): nat {
    if s == "" then 0 else
    var c := s[0] as int;
    (if c < 0x80 then 1 else if c < 0x800 then 2 else if c < 0x10000 then 3 else 4) + ByteLength(s[1..])
  }

  predicate ValidRequest(req: Request) {
    && !Blank(req.content) && ByteLength(req.content) <= 500
    && !Blank(req.userId) && !Blank(req.roomId)
    && req.kind in {"", "scroll", "top", "bottom", "reverse"}
    && req.fontSize in {0, 18, 25, 36}
    && (req.color == "" || req.color[0] == '#')
  }

  function Built(req: Request, id: string, now: int, status: Status): Danmaku {
    Danmaku(
      id, req.content,
      if req.color == "" then "#ffffff" else req.color,
      if req.kind == "" then "scroll" else req.kind,
      if req.fontSize <= 0 then 25 else req.fontSize,
      req.roomId, now, req.userId, status, "", None, "")
  }

  function MuteKey(userId: string, roomId: string): string {
    userId + ":" + roomId
  }

  predicate IsBanned(s: State, userId: string) {
    userId in s.users && s.users[userId].banned
  }

  predicate IsMuted(s: State, userId: string, roomId: string, now: int) {
    MuteKey(userId, roomId) in s.mutes && now < s.mutes[MuteKey(userId, roomId)].expiresAt
  }

  /** Stores a new danmaku, and broadcasts it unless it is flagged. */
  function Persisted(s: State, dm: Danmaku, storeFails: bool): (State, Result<Danmaku>) {
    if storeFails then (s, Err(PersistenceFailed))
    else if dm.status == Flagged then (s.(danmakus := s.danmakus + [dm]), Ok(dm))
    else (s.(danmakus := s.danmakus + [dm], sent := s.sent + [Sent(dm.roomId, Broadcast(dm))]), Ok(dm))
  }

  /** What happens to a request that is well formed and not too fast. */
  function Admitted(s: State, req: Request, ctx: CreateContext): (State, Result<Danmaku>) {
    if IsBanned(s, req.userId) then (s, Err(UserBanned))
    else if IsMuted(s, req.userId, req.roomId, ctx.now) then (s, Err(UserMuted))
    else Screened(s, req, ctx)
  }

  /** A listed word has the message refused or kept back for review. */
  function Screened(s: State, req: Request, ctx: CreateContext): (State, Result<Danmaku>) {
    if ctx.word != "" && ctx.autoReject then (s, Err(ContentBlocked(ctx.word)))
    else Persisted(s, Built(req, ctx.id, ctx.now, if ctx.word != "" then Flagged else Approved), ctx.storeFails)
  }

  function Create(s: State, req: Request, ctx: CreateContext): (State, Result<Danmaku>) {
    if !ValidRequest(req) then (s, Err(Invalid))
    else if !ctx.allowed then (s, Err(TooFast))
    else Admitted(s, req, ctx)
  }

  // ----- Reviewing -----

  function StatusName(st: Status): string {
    match st
    case Pending => "pending"
    case Approved => "approved"
    case Rejected => "rejected"
    case Flagged => "flagged"
    case Unset => ""
    case Other(text) => text
  }

  predicate ValidTransition(from: Status, to: Status) {
    match from
    case Flagged => to == Approved || to == Rejected
    case Approved => to == Rejected
    case Rejected => to == Approved
    case Pending => to == Approved || to == Rejected
    case _ => false
  }

  datatype ReviewResult = ReviewResult(action: Status, notified: bool)

  function ReviewFrames(d: Danmaku, to: Status, reviewer: string, reason: string, now: int): seq<Sent> {
    if d.roomId == "" then []
    else if to == Approved && d.status != Approved then
      [Sent(d.roomId, Broadcast(Reviewed(d, Approved, reviewer, reason, now)))]
    else if to == Rejected && d.status == Approved then [Sent(d.roomId, Retract(d.id, reason))]
    else []
  }

  function Audited(s: State, e: AuditEntry): State {
    s.(audit := s.audit + [e])
  }

  function ReviewEntry(d: Danmaku, id: string, reviewer: string, to: Status, reason: string): AuditEntry {
    var why := if reason == "" then "review: " + StatusName(d.status) + " -> " + StatusName(to) else reason;
    AuditEntry(ReviewedDanmaku, reviewer, "", id, d.roomId, why)
  }

  /** An allowed transition: the record, the frame that tells the room, and the log entry. */
  function Transition(s: State, d: Danmaku, id: string, reviewer: string, to: Status, reason: string, now: int): State {
    Audited(s.(danmakus := WithStatus(s.danmakus, id, to, reviewer, reason, now),
               sent := s.sent + ReviewFrames(d, to, reviewer, reason, now)),
            ReviewEntry(d, id, reviewer, to, reason))
  }

  function Review(s: State, id: string, reviewer: string, to: Status, reason: string, now: int)
    : (State, Result<ReviewResult>)
  {
    var found := Find(s.danmakus, id);
    if found.None? then (s, Err(DanmakuNotFound)) else
    var d := found.value;
    if d.status == to then (s, Ok(ReviewResult(to, false)))
    else if !ValidTransition(d.status, to) then (s, Err(ForbiddenTransition))
    else (Transition(s, d, id, reviewer, to, reason, now),
          Ok(ReviewResult(to, ReviewFrames(d, to, reviewer, reason, now) != [])))
  }

  // ----- Muting -----

  function MuteUser(s: State, m: Mute): State {
    Audited(s.(mutes := s.mutes[MuteKey(m.userId, m.roomId) := m]),
            AuditEntry(MutedUser, m.createdBy, m.userId, "", m.roomId, m.reason))
  }

  function UnmuteUser(s: State, userId: string, roomId: string, actorId: string): State {
    Audited(s.(mutes := s.mutes - {MuteKey(userId, roomId)}), AuditEntry(UnmutedUser, actorId, userId, "", roomId, ""))
  }

  // ----- Reporting -----

  function TrimLeft(s: string): string {
    if s != "" && IsSpace(s[0]) then TrimLeft(s[1..]) else s
  }

  function Trim(s: string): string {
    TrimRight(TrimLeft(s))
  }

  function TrimRight(s: string): string {
    if s != "" && IsSpace(s[|s| - 1]) then TrimRight(s[..|s| - 1]) else s
  }

  predicate AlreadyReported(reports: map<string, Report>, danmakuId: string, reporterId: string) {
    exists id | id in reports :: reports[id].danmakuId == danmakuId && reports[id].reporterId == reporterId
  }

  function FileReport(s: State, id: string, danmakuId: string, roomId: string, reporterId: string, reason: string)
    : (State, Result<()>)
  {
    var trimmed := Trim(reason);
    if trimmed == "" || |trimmed| > 500 then (s, Err(BadReason))
    else if IsBanned(s, reporterId) then (s, Err(BannedReporter))
    else Filed(s, id, Report(danmakuId, roomId, reporterId, trimmed, Open, "", None))
  }

  /** Files a report on a stored danmaku of the room, unless the reporter already has one. */
  function Filed(s: State, id: string, r: Report): (State, Result<()>) {
    var found := Find(s.danmakus, r.danmakuId);
    if found.None? then (s, Err(DanmakuNotFound))
    else if found.value.roomId != r.roomId then (s, Err(RoomMismatch))
    else if AlreadyReported(s.reports, r.danmakuId, r.reporterId) then (s, Err(DuplicateReport))
    else (s.(reports := s.reports[id := r]), Ok(()))
  }

  const MINUTE: int := 60_000

  function MuteDuration(minutes: int): int {
    if minutes * MINUTE <= 0 then 30 * MINUTE else minutes * MINUTE
  }

  /** A decision on a report: who decides what, why, and when. */
  datatype Decision = Decision(resolverId: string, resolverRole: string, decision: string, action: string,
                               reason: string, muteMinutes: int, now: int)

  function CloseReport(s: State, id: string, status: ReportStatus, d: Decision, why: string): State
    requires id in s.reports
  {
    var r := s.reports[id];
    Audited(s.(reports := s.reports[id := r.(status := status, resolvedBy := d.resolverId, resolvedAt := Some(d.now))]),
            AuditEntry(ResolvedReport, d.resolverId, "", "", r.roomId, why))
  }

  function BanRecord(s: State, targetId: string, actorId: string, reason: string, now: int): State
    requires targetId in s.users
  {
    var u := s.users[targetId].(banned := true, bannedAt := Some(now), bannedReason := reason, bannedBy := actorId);
    Audited(s.(users := s.users[targetId := u]), AuditEntry(BannedUser, actorId, targetId, "", "", reason))
  }

  function ActReject(s: State, r: Report, d: Decision): (State, Result<seq<string>>) {
    var (s1, res) := Review(s, r.danmakuId, d.resolverId, Rejected, d.reason, d.now);
    if res.Err? && res.error != DanmakuNotFound then (s, Err(res.error)) else (s1, Ok(["rejected_danmaku"]))
  }

  function ActMute(s: State, r: Report, d: Decision): (State, Result<seq<string>>) {
    var (s1, res) := ActReject(s, r, d);
    if res.Err? then (s, res) else
    var found := Find(s1.danmakus, r.danmakuId);
    if found.None? then (s1, res)
    else (MuteUser(s1, Mute(found.value.userId, r.roomId, d.resolverId, d.now + MuteDuration(d.muteMinutes), d.reason)),
          Ok(res.value + ["muted_user"]))
  }

  function ActBan(s: State, r: Report, d: Decision): (State, Result<seq<string>>) {
    if d.resolverRole != ROLE_ADMIN then (s, Err(InsufficientRole)) else
    var found := Find(s.danmakus, r.danmakuId);
    if found.None? then (s, Ok([])) else
    var author := found.value.userId;
    if d.resolverId == author then (s, Err(CannotBanSelf))
    else if author !in s.users then (s, Err(TargetNotFound))
    else if s.users[author].role == ROLE_ADMIN then (s, Err(CannotBanAdmin))
    else (BanRecord(s, author, d.resolverId, d.reason, d.now), Ok(["banned_user"]))
  }

  /** What the chosen action does before the report is closed. */
  function Act(s: State, r: Report, d: Decision): (State, Result<seq<string>>) {
    if d.action == "reject" then ActReject(s, r, d)
    else if d.action == "mute" then ActMute(s, r, d)
    else if d.action == "ban" then ActBan(s, r, d)
    else (s, Err(UnknownAction))
  }

  function ResolutionNote(d: Decision): string {
    "decision=" + d.decision + " action=" + d.action + " reason=" + d.reason
  }

  function Resolve(s: State, id: string, d: Decision): (State, Result<seq<string>>) {
    if id !in s.reports then (s, Err(ReportNotFound))
    else if s.reports[id].status != Open then (s, Err(ReportClosed))
    else if d.decision == "dismissed" then (CloseReport(s, id, Dismissed, d, d.reason), Ok(["dismissed"]))
    else
      var (s1, res) := Act(s, s.reports[id], d);
      if res.Err? then (s, res) else
      assert s1.reports == s.reports;
      (CloseReport(s1, id, Resolved, d, ResolutionNote(d)), Ok(res.value + ["report_resolved"]))
  }

  // ----- Administration -----

  predicate IsAdmin(users: map<string, User>, id: string) {
    id in users && users[id].role == ROLE_ADMIN
  }

  function CanTarget(users: map<string, User>, actorId: string, targetId: string): Result<()> {
    if actorId == targetId then Err(CannotBanSelf)
    else if actorId !in users then Err(ActorNotFound)
    else if users[actorId].role != ROLE_ADMIN then Err(InsufficientRole)
    else if targetId !in users then Err(TargetNotFound)
    else if users[targetId].role == ROLE_ADMIN then Err(CannotBanAdmin)
    else Ok(())
  }

  function Ban(s: State, actorId: string, targetId: string, reason: string, now: int): (State, Result<()>) {
    var can := CanTarget(s.users, actorId, targetId);
    if can.Err? then (s, can) else (BanRecord(s, targetId, actorId, reason, now), Ok(()))
  }

  function UnbanRecord(users: map<string, User>, id: string): map<string, User> {
    if id !in users then users
    else users[id := users[id].(banned := false, bannedAt := None, bannedReason := "", bannedBy := "")]
  }

  function MayUnban(users: map<string, User>, actorId: string, targetId: string): Result<()> {
    var can := if actorId == targetId then Err(TargetNotFound) else CanTarget(users, actorId, targetId);
    if can == Err(TargetNotFound) then
      if IsAdmin(users, actorId) then Ok(()) else Err(InsufficientRole)
    else can
  }

  function Unbanned(s: State, actorId: string, targetId: string): State {
    Audited(s.(users := UnbanRecord(s.users, targetId)), AuditEntry(UnbannedUser, actorId, targetId, "", "", ""))
  }

  function Unban(s: State, actorId: string, targetId: string): (State, Result<()>) {
    var can := MayUnban(s.users, actorId, targetId);
    if can.Err? then (s, can)
    else (Unbanned(s, actorId, targetId), Ok(()))
  }

  predicate HasOtherAdmin(users: map<string, User>, excluded: string) {
    exists id | id in users :: id != excluded && users[id].role == ROLE_ADMIN
  }

  const ROLE_CHANGED_TO := "role changed to "

  function MaySetRole(users: map<string, User>, actorId: string, targetId: string, role: string): Result<()> {
    if role != ROLE_USER && role != ROLE_MODERATOR && role != ROLE_ADMIN then Err(InvalidRole)
    else if actorId !in users then Err(ActorNotFound)
    else if users[actorId].role != ROLE_ADMIN then Err(InsufficientRole)
    else if actorId == targetId then Err(CannotChangeOwnRole)
    else if targetId !in users then Err(TargetNotFound)
    else if users[targetId].role == ROLE_ADMIN && role != ROLE_ADMIN && !HasOtherAdmin(users, targetId) then
      Err(LastAdmin)
    else Ok(())
  }

  function WithRole(s: State, actorId: string, targetId: string, role: string): State
    requires targetId in s.users
  {
    Audited(s.(users := s.users[targetId := s.users[targetId].(role := role)]),
            AuditEntry(ChangedRole, actorId, targetId, "", "", ROLE_CHANGED_TO + role))
  }

  function SetRole(s: State, actorId: string, targetId: string, role: string): (State, Result<()>) {
    var may := MaySetRole(s.users, actorId, targetId, role);
    if may.Err? then (s, may)
    else (WithRole(s, actorId, targetId, role), Ok(()))
  }

  // ----- Runs -----

  datatype Operation =
    | DoCreate(req: Request, ctx: CreateContext)
    | DoReview(danmakuId: string, reviewer: string, to: Status, reason: string, now: int)
    | DoMute(mute: Mute)
    | DoUnmute(userId: string, roomId: string, actorId: string)
    | DoReport(id: string, danmakuId: string, roomId: string, reporterId: string, reason: string)
    | DoResolve(id: string, decision: Decision)
    | DoBan(actorId: string, targetId: string, reason: string, now: int)
    | DoUnban(actorId: string, targetId: string)
    | DoSetRole(actorId: string, targetId: string, role: string)

  function Apply(s: State, op: Operation): State {
    match op
    case DoCreate(req, ctx) => Create(s, req, ctx).0
    case DoReview(id, reviewer, to, reason, now) => Review(s, id, reviewer, to, reason, now).0
    case DoMute(m) => MuteUser(s, m)
    case DoUnmute(userId, roomId, actorId) => UnmuteUser(s, userId, roomId, actorId)
    case DoReport(id, danmakuId, roomId, reporterId, reason) =>
      FileReport(s, id, danmakuId, roomId, reporterId, reason).0
    case DoResolve(id, d) => Resolve(s, id, d).0
    case DoBan(actorId, targetId, reason, now) => Ban(s, actorId, targetId, reason, now).0
    case DoUnban(actorId, targetId) => Unban(s, actorId, targetId).0
    case DoSetRole(actorId, targetId, role) => SetRole(s, actorId, targetId, role).0
  }

  function Run(s: State, ops: seq<Operation>): State {
    if ops == [] then s else Apply(Run(s, ops[..|ops| - 1]), ops[|ops| - 1])
  }

  /** Generated IDs are new: no create or report reuses the ID of a stored record. */
  ghost predicate FreshId(s: State, op: Operation) {
    && (op.DoCreate? ==> Find(s.danmakus, op.ctx.id).None?)
    && (op.DoReport? ==> op.id !in s.reports)
  }

  ghost predicate FreshIds(s: State, ops: seq<Operation>) {
    forall i :: 0 <= i < |ops| ==> FreshId(Run(s, ops[..i]), ops[i])
  }
}
