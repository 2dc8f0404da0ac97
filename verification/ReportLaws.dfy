/** What holds of user reports over every run, and what a resolved report has brought about. */
module ReportLaws {
  import opened Model
  import opened MemoryStores
  import opened Governance

  /** A reporter has at most one report on a danmaku. */
  ghost predicate OnePerReporter(reports: map<string, Report>) {
    forall a, b :: a in reports && b in reports && a != b ==>
      reports[a].danmakuId != reports[b].danmakuId || reports[a].reporterId != reports[b].reporterId
  }

  /** How the reports may evolve: none is lost or changes its subject, and a closed one never changes again. */
  ghost predicate OnlyCloses(before: map<string, Report>, after: map<string, Report>) {
    forall id :: id in before ==>
      && id in after
      && after[id].danmakuId == before[id].danmakuId && after[id].reporterId == before[id].reporterId
      && (before[id].status != Open ==> after[id] == before[id])
  }

  lemma ReviewLeavesReports(s: State, id: string, reviewer: string, to: Status, reason: string, now: int)
    ensures var s' := Review(s, id, reviewer, to, reason, now).0;
      s'.reports == s.reports && s'.users == s.users && s'.mutes == s.mutes
  {
    var found := Find(s.danmakus, id);
    if found.Some? {
      TransitionLeavesReports(s, found.value, id, reviewer, to, reason, now);
    }
  }

  lemma TransitionLeavesReports(s: State, d: Danmaku, id: string, reviewer: string, to: Status, reason: string,
                                now: int)
    ensures var s' := Transition(s, d, id, reviewer, to, reason, now);
      s'.reports == s.reports && s'.users == s.users && s'.mutes == s.mutes
  {
  }

  lemma ActLeavesReports(s: State, r: Report, d: Decision)
    ensures Act(s, r, d).0.reports == s.reports
    ensures Act(s, r, d).1.Err? ==> Act(s, r, d).0 == s
  {
    ReviewLeavesReports(s, r.danmakuId, d.resolverId, Rejected, d.reason, d.now);
  }

  /** How one resolution changes the reports: an accepted decision closes this report and no other. */
  lemma ResolveClosesOne(s: State, id: string, d: Decision)
    ensures var (s', r) := Resolve(s, id, d);
      if r.Err? then s' == s
      else
        && id in s.reports && s.reports[id].status == Open
        && s'.reports == s.reports[id := s.reports[id].(
             status := if d.decision == "dismissed" then Dismissed else Resolved,
             resolvedBy := d.resolverId, resolvedAt := Some(d.now))]
  {
    if id in s.reports {
      ActLeavesReports(s, s.reports[id], d);
    }
  }

  lemma ReportsAfter(s: State, op: Operation)
    requires !op.DoReport? && !op.DoResolve?
    ensures Apply(s, op).reports == s.reports
  {
  }

  lemma OneMoreReport(reports: map<string, Report>, id: string, r: Report)
    requires OnePerReporter(reports) && id !in reports && !AlreadyReported(reports, r.danmakuId, r.reporterId)
    ensures OnePerReporter(reports[id := r]) && OnlyCloses(reports, reports[id := r])
  {
  }

  /** A report is filed only if its reporter has none on the danmaku, and under a new ID. */
  lemma FilingKeepsLaws(s: State, id: string, danmakuId: string, roomId: string, reporterId: string, reason: string)
    requires OnePerReporter(s.reports) && id !in s.reports
    ensures var s' := FileReport(s, id, danmakuId, roomId, reporterId, reason).0;
      OnePerReporter(s'.reports) && OnlyCloses(s.reports, s'.reports)
  {
    var s' := FileReport(s, id, danmakuId, roomId, reporterId, reason).0;
    if s' != s {
      OneMoreReport(s.reports, id, s'.reports[id]);
    }
  }

  lemma ClosingKeepsLaws(s: State, id: string, d: Decision)
    requires OnePerReporter(s.reports)
    ensures var s' := Resolve(s, id, d).0; OnePerReporter(s'.reports) && OnlyCloses(s.reports, s'.reports)
  {
    ResolveClosesOne(s, id, d);
  }

  lemma ReportLawsKept(s: State, op: Operation)
    requires OnePerReporter(s.reports) && FreshId(s, op)
    ensures OnePerReporter(Apply(s, op).reports) && OnlyCloses(s.reports, Apply(s, op).reports)
  {
    match op
    case DoReport(id, danmakuId, roomId, reporterId, reason) =>
      FilingKeepsLaws(s, id, danmakuId, roomId, reporterId, reason);
    case DoResolve(id, d) => ClosingKeepsLaws(s, id, d);
    case _ => ReportsAfter(s, op);
  }

  /** Over every run there is one report per reporter and danmaku, and a report is closed at most once. */
  lemma {:induction false} ReportsOverRuns(s: State, ops: seq<Operation>)
    requires OnePerReporter(s.reports) && FreshIds(s, ops)
    ensures OnePerReporter(Run(s, ops).reports)
    ensures OnlyCloses(s.reports, Run(s, ops).reports)
  {
    if ops != [] {
      var n := |ops| - 1;
      forall i | 0 <= i < n ensures FreshId(Run(s, ops[..n][..i]), ops[..n][i]) {
        assert ops[..n][..i] == ops[..i];
      }
      ReportsOverRuns(s, ops[..n]);
      ReportLawsKept(Run(s, ops[..n]), ops[n]);
    }
  }

  // ----- What confirming a report brings about -----

  /** The state that an accepted decision must have left behind. */
  ghost predicate Enforced(s: State, r: Report, d: Decision) {
    var found := Find(s.danmakus, r.danmakuId);
    found.None? ||
    match d.action
    case "reject" => found.value.status == Rejected
    case "mute" => found.value.status == Rejected
                   && IsMuted(s, found.value.userId, r.roomId, d.now)
    case "ban" => IsBanned(s, found.value.userId) && found.value.userId != d.resolverId
                  && s.users[found.value.userId].role != ROLE_ADMIN && d.resolverRole == ROLE_ADMIN
    case _ => false
  }

  /** A review that is not refused leaves the danmaku absent or with the requested status. */
  lemma ReviewReaches(s: State, id: string, reviewer: string, to: Status, reason: string, now: int)
    ensures var (s', r) := Review(s, id, reviewer, to, reason, now);
      (r.Ok? || r.error == DanmakuNotFound) ==>
        var found := Find(s'.danmakus, id);
        if Find(s.danmakus, id).None? then found.None?
        else found.Some? && found.value.status == to && found.value.userId == Find(s.danmakus, id).value.userId
  {
    if Find(s.danmakus, id).Some? {
      FindAfterReview(s.danmakus, id, to, reviewer, reason, now, id);
    }
  }

  lemma MuteLasts(minutes: int)
    ensures MuteDuration(minutes) > 0
  {
  }

  lemma RejectEnforces(s: State, r: Report, d: Decision)
    requires d.action == "reject" || d.action == "mute"
    ensures Act(s, r, d).1.Ok? ==> Enforced(Act(s, r, d).0, r, d)
  {
    ReviewReaches(s, r.danmakuId, d.resolverId, Rejected, d.reason, d.now);
    MuteLasts(d.muteMinutes);
  }

  lemma BanEnforces(s: State, r: Report, d: Decision)
    requires d.action == "ban"
    ensures Act(s, r, d).1.Ok? ==> Enforced(Act(s, r, d).0, r, d)
  {
  }

  /** A confirmed decision has been enforced when its report closes; a refused one changes nothing at all. */
  lemma ConfirmedIsEnforced(s: State, id: string, d: Decision)
    requires d.decision != "dismissed"
    ensures var (s', r) := Resolve(s, id, d);
      if r.Err? then s' == s
      else Enforced(s', s.reports[id], d) && s'.reports[id].status == Resolved
  {
    ResolveClosesOne(s, id, d);
    if Resolve(s, id, d).1.Ok? {
      if d.action == "ban" {
        BanEnforces(s, s.reports[id], d);
      } else {
        RejectEnforces(s, s.reports[id], d);
      }
    }
  }

  /** When a decision is refused: exactly in these cases does a pending report stay pending. */
  lemma WhenDecisionIsRefused(s: State, id: string, d: Decision)
    requires id in s.reports && s.reports[id].status == Open && d.decision != "dismissed"
    ensures var found := Find(s.danmakus, s.reports[id].danmakuId);
      Resolve(s, id, d).1.Err? <==>
        || d.action !in {"reject", "mute", "ban"}
        || (d.action == "ban" && d.resolverRole != ROLE_ADMIN)
        || (d.action == "ban" && found.Some? &&
            (|| found.value.userId == d.resolverId
             || found.value.userId !in s.users
             || IsAdmin(s.users, found.value.userId)))
        || (d.action != "ban" && found.Some? && (found.value.status.Unset? || found.value.status.Other?))
  {
  }

  // ----- Records of unknown status -----

  predicate Known(st: Status) {
    !st.Unset? && !st.Other?
  }

  /** A review is forbidden exactly when it asks for something else than a verdict, or finds a record whose
      status is none of the four known ones. */
  lemma ReviewForbiddenExactly(s: State, id: string, reviewer: string, to: Status, reason: string, now: int)
    ensures var found := Find(s.danmakus, id);
      Review(s, id, reviewer, to, reason, now).1 == Err(ForbiddenTransition)
      <==> found.Some? && found.value.status != to && ((to != Approved && to != Rejected) || !Known(found.value.status))
  {
  }

  ghost predicate AllKnown(ds: seq<Danmaku>) {
    forall d :: d in ds ==> Known(d.status)
  }

  lemma ReviewKeepsKnown(s: State, id: string, reviewer: string, to: Status, reason: string, now: int)
    requires AllKnown(s.danmakus)
    ensures AllKnown(Review(s, id, reviewer, to, reason, now).0.danmakus)
  {
  }

  lemma CreateKeepsKnown(s: State, req: Request, ctx: CreateContext)
    requires AllKnown(s.danmakus)
    ensures AllKnown(Create(s, req, ctx).0.danmakus)
  {
  }

  lemma ResolveKeepsKnown(s: State, id: string, d: Decision)
    requires AllKnown(s.danmakus)
    ensures AllKnown(Resolve(s, id, d).0.danmakus)
  {
    if id in s.reports {
      ReviewKeepsKnown(s, s.reports[id].danmakuId, d.resolverId, Rejected, d.reason, d.now);
    }
  }

  /** No operation makes a record of unknown status: over every run from known ones, none is ever met, so
      such a record can only have been stored by something else than the services. */
  lemma {:induction false} StatusesStayKnown(s: State, ops: seq<Operation>)
    requires AllKnown(s.danmakus)
    ensures AllKnown(Run(s, ops).danmakus)
  {
    if ops != [] {
      var before, op := Run(s, ops[..|ops| - 1]), ops[|ops| - 1];
      StatusesStayKnown(s, ops[..|ops| - 1]);
      match op
      case DoCreate(req, ctx) => CreateKeepsKnown(before, req, ctx);
      case DoReview(id, reviewer, to, reason, now) => ReviewKeepsKnown(before, id, reviewer, to, reason, now);
      case DoResolve(id, d) => ResolveKeepsKnown(before, id, d);
      case _ => RecordsAfter(before, op);
    }
  }

  lemma RecordsAfter(s: State, op: Operation)
    requires !op.DoCreate? && !op.DoReview? && !op.DoResolve?
    ensures Apply(s, op).danmakus == s.danmakus
  {
  }

  /** With such a record in the store, a confirmed rejection is refused and the report stays pending. */
  lemma UnknownStatusIsRefused(s: State, id: string, d: Decision)
    requires id in s.reports && s.reports[id].status == Open && d.decision == "confirmed" && d.action == "reject"
    requires var found := Find(s.danmakus, s.reports[id].danmakuId); found.Some? && !Known(found.value.status)
    ensures Resolve(s, id, d) == (s, Err(ForbiddenTransition))
  {
    ReviewForbiddenExactly(s, s.reports[id].danmakuId, d.resolverId, Rejected, d.reason, d.now);
  }

  /** Such a store. */
  lemma SomeStatusIsUnknown()
    ensures exists s: State, id ::
      && id in s.reports && s.reports[id].status == Open
      && var found := Find(s.danmakus, s.reports[id].danmakuId); found.Some? && !Known(found.value.status)
  {
    var hidden := Danmaku("m", "text", "#ffffff", "scroll", 25, "room", 1, "user", Other("hidden"), "", None, "");
    var reports := map["r" := Report("m", "room", "reporter", "reason", Open, "", None)];
    var s := State([hidden], reports, map[], map[], [], []);
    assert "r" in s.reports && Find(s.danmakus, "m") == Some(hidden);
  }

  // ----- The key under which mutes are kept -----

  /** Two users' mutes can collide, in suitable rooms, exactly when one user's ID followed by the
      separator begins the other's ID. IDs without the separator never collide. */
  lemma MutesCollideExactly(u: string, v: string)
    requires u != v
    ensures (exists r, q :: MuteKey(u, r) == MuteKey(v, q)) <==> u + ":" <= v || v + ":" <= u
  {
    forall r, q | MuteKey(u, r) == MuteKey(v, q) ensures u + ":" <= v || v + ":" <= u {
      KeysShareAPrefix(u, r, v, q);
    }
    if u + ":" <= v {
      assert MuteKey(u, v[|u| + 1..] + ":") == MuteKey(v, "");
    }
    if v + ":" <= u {
      assert MuteKey(v, u[|v| + 1..] + ":") == MuteKey(u, "");
    }
  }

  lemma KeysShareAPrefix(u: string, r: string, v: string, q: string)
    requires u != v && MuteKey(u, r) == MuteKey(v, q)
    ensures u + ":" <= v || v + ":" <= u
  {
    var key := MuteKey(u, r);
    assert key[..|u|] == u && key[|u|] == ':';
    assert key[..|v|] == v && key[|v|] == ':';
    if |u| < |v| {
      assert u + ":" == key[..|u| + 1] == v[..|u| + 1];
    } else if |v| < |u| {
      assert v + ":" == key[..|v| + 1] == u[..|v| + 1];
    }
  }

  /** Such IDs exist, so keeping mutes apart does depend on the form of the IDs. */
  lemma MutesCanCollide()
    ensures MuteKey("a", "b:c") == MuteKey("a:b", "c")
  {
  }
}
