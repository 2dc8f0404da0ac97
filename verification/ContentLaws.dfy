/** What the block list guarantees over runs: a message that mentions a listed word is seen only after a
    review let it through, and under automatic rejection is not even stored. */
module ContentLaws {
  import opened Model
  import opened MemoryStores
  import opened Governance
  import opened SubstringSearch
  import opened Blocklists
  import Viewers

  /** Some listed word occurs in the text. */
  ghost predicate Mentions(words: set<string>, text: string) {
    exists w, e: nat :: w in words && w != "" && EndsAt(w, text, e)
  }

  /** Naive search finds a word exactly when one occurs. */
  lemma FoundIffMentioned(words: set<string>, text: string)
    ensures NaiveMatch(words, text) != "" <==> Mentions(words, text)
  {
    var m := NaiveMatch(words, text);
    NaiveMatchMeaning(words, text);
    if m != "" {
      var e: nat :| EndsAt(m, text, e);
      assert m in words && EndsAt(m, text, e);
    }
  }

  /** Every create was screened with these words, as CreateAndBroadcast does. */
  ghost predicate IsScreened(words: set<string>, normalize: string -> string, op: Operation) {
    op.DoCreate? ==> op.ctx.word == WordIn(words, normalize, op.req.content)
  }

  /** The audit log holds this record's last review. */
  predicate LetThrough(audit: seq<AuditEntry>, d: Danmaku) {
    d.reviewedAt.Some? && exists e | e in audit ::
      e.action == ReviewedDanmaku && e.targetDanmakuId == d.id && e.actorId == d.reviewedBy
  }

  predicate NeedsReview(words: set<string>, normalize: string -> string, d: Danmaku) {
    NaiveMatch(words, normalize(d.content)) != "" && d.status == Approved
  }

  ghost predicate ListedAreReviewed(words: set<string>, normalize: string -> string, s: State) {
    forall d :: d in s.danmakus && NeedsReview(words, normalize, d) ==> LetThrough(s.audit, d)
  }

  lemma LogGrows(audit: seq<AuditEntry>, more: seq<AuditEntry>, d: Danmaku)
    requires LetThrough(audit, d) && audit <= more
    ensures LetThrough(more, d)
  {
    var e :| e in audit && e.action == ReviewedDanmaku && e.targetDanmakuId == d.id && e.actorId == d.reviewedBy;
    assert e in more;
  }

  /** A review changes one record, and only an approval, which it logs, leaves it approved. */
  lemma ReviewedRecords(s: State, id: string, reviewer: string, to: Status, reason: string, now: int, d: Danmaku)
    requires d in Review(s, id, reviewer, to, reason, now).0.danmakus && d.status == Approved
    ensures var s' := Review(s, id, reviewer, to, reason, now).0;
      d in s.danmakus || (to == Approved && LetThrough(s'.audit, d))
  {
    var s' := Review(s, id, reviewer, to, reason, now).0;
    if d !in s.danmakus {
      var before := Find(s.danmakus, id).value;
      assert d == Reviewed(before, to, reviewer, reason, now);
      assert s'.audit[|s.audit|] in s'.audit;
    }
  }

  lemma ReviewLogs(s: State, id: string, reviewer: string, to: Status, reason: string, now: int)
    ensures s.audit <= Review(s, id, reviewer, to, reason, now).0.audit
  {
  }

  /** A resolution leaves approved only what was approved. */
  lemma ResolutionApprovesNothing(s: State, id: string, decision: Decision, d: Danmaku)
    requires d in Resolve(s, id, decision).0.danmakus && d.status == Approved
    ensures d in s.danmakus
  {
    if id in s.reports {
      var r := s.reports[id];
      Viewers.ResolutionReviewsAtMost(s, id, decision);
      if d !in s.danmakus {
        ReviewedRecords(s, r.danmakuId, decision.resolverId, Rejected, decision.reason, decision.now, d);
      }
    }
  }

  lemma ResolutionLogs(s: State, id: string, d: Decision)
    ensures s.audit <= Resolve(s, id, d).0.audit
  {
    if id in s.reports {
      ReviewLogs(s, s.reports[id].danmakuId, d.resolverId, Rejected, d.reason, d.now);
    }
  }

  lemma CreateKeepsReviewed(words: set<string>, normalize: string -> string, s: State, req: Request, ctx: CreateContext)
    requires ListedAreReviewed(words, normalize, s) && ctx.word == WordIn(words, normalize, req.content)
    ensures ListedAreReviewed(words, normalize, Create(s, req, ctx).0)
  {
    var (s', r) := Create(s, req, ctx);
    if r.Ok? {
      assert s'.danmakus == s.danmakus + [r.value] && s'.audit == s.audit;
    }
  }

  lemma StepKeepsReviewed(words: set<string>, normalize: string -> string, s: State, op: Operation)
    requires ListedAreReviewed(words, normalize, s) && IsScreened(words, normalize, op)
    ensures ListedAreReviewed(words, normalize, Apply(s, op))
  {
    match op
    case DoCreate(req, ctx) => CreateKeepsReviewed(words, normalize, s, req, ctx);
    case DoReview(id, reviewer, to, reason, now) =>
      ReviewLogs(s, id, reviewer, to, reason, now);
      forall d | d in Apply(s, op).danmakus && NeedsReview(words, normalize, d)
        ensures LetThrough(Apply(s, op).audit, d)
      {
        ReviewedRecords(s, id, reviewer, to, reason, now, d);
        if d in s.danmakus {
          LogGrows(s.audit, Apply(s, op).audit, d);
        }
      }
    case DoResolve(id, decision) =>
      ResolutionLogs(s, id, decision);
      forall d | d in Apply(s, op).danmakus && NeedsReview(words, normalize, d)
        ensures LetThrough(Apply(s, op).audit, d)
      {
        ResolutionApprovesNothing(s, id, decision, d);
        LogGrows(s.audit, Apply(s, op).audit, d);
      }
    case _ =>
      Viewers.OthersLeaveTheBoard(s, op);
      OthersLog(s, op);
      forall d | d in s.danmakus && NeedsReview(words, normalize, d) ensures LetThrough(Apply(s, op).audit, d) {
        LogGrows(s.audit, Apply(s, op).audit, d);
      }
  }

  lemma OthersLog(s: State, op: Operation)
    requires !op.DoCreate? && !op.DoReview? && !op.DoResolve?
    ensures s.audit <= Apply(s, op).audit
  {
  }

  /** After every run in which each create is screened, whatever a room shows that mentions a listed word
      has been reviewed, and the audit log names the one who let it through. */
  lemma ShownListedAreReviewed(words: set<string>, normalize: string -> string, s: State, ops: seq<Operation>,
                               room: string, id: string)
    requires Viewers.InStep(s) && FreshIds(s, ops) && ListedAreReviewed(words, normalize, s)
    requires forall op :: op in ops ==> IsScreened(words, normalize, op)
    requires id in Viewers.Shown(Run(s, ops).sent, room)
    ensures var d := Viewers.Shown(Run(s, ops).sent, room)[id];
      Mentions(words, normalize(d.content)) ==> LetThrough(Run(s, ops).audit, d)
  {
    var after := Run(s, ops);
    Viewers.ViewersAgreeWithStore(s, ops);
    RunKeepsReviewed(words, normalize, s, ops);
    Viewers.RecordsAt(after.danmakus, room, id);
    Viewers.FoundIsMember(after.danmakus, id);
    FoundIffMentioned(words, normalize(Viewers.Shown(after.sent, room)[id].content));
  }

  lemma {:induction false} RunKeepsReviewed(words: set<string>, normalize: string -> string, s: State,
                                            ops: seq<Operation>)
    requires ListedAreReviewed(words, normalize, s) && forall op :: op in ops ==> IsScreened(words, normalize, op)
    ensures ListedAreReviewed(words, normalize, Run(s, ops))
  {
    if ops != [] {
      RunKeepsReviewed(words, normalize, s, ops[..|ops| - 1]);
      StepKeepsReviewed(words, normalize, Run(s, ops[..|ops| - 1]), ops[|ops| - 1]);
    }
  }

  // ----- Automatic rejection -----

  ghost predicate NoneMentions(words: set<string>, normalize: string -> string, ds: seq<Danmaku>) {
    forall d :: d in ds ==> NaiveMatch(words, normalize(d.content)) == ""
  }

  /** A record's content never changes, and only creates add records. */
  lemma ReviewKeepsContents(s: State, id: string, reviewer: string, to: Status, reason: string, now: int, d: Danmaku)
    requires d in Review(s, id, reviewer, to, reason, now).0.danmakus
    ensures exists before | before in s.danmakus :: before.content == d.content
  {
    if d !in s.danmakus {
      var before := Find(s.danmakus, id).value;
      assert before in s.danmakus && before.content == d.content;
    }
  }

  lemma ReviewKeepsUnmentioned(words: set<string>, normalize: string -> string, s: State, id: string, reviewer: string,
                               to: Status, reason: string, now: int)
    requires NoneMentions(words, normalize, s.danmakus)
    ensures NoneMentions(words, normalize, Review(s, id, reviewer, to, reason, now).0.danmakus)
  {
    forall d | d in Review(s, id, reviewer, to, reason, now).0.danmakus
      ensures NaiveMatch(words, normalize(d.content)) == ""
    {
      ReviewKeepsContents(s, id, reviewer, to, reason, now, d);
    }
  }

  lemma StepKeepsUnmentioned(words: set<string>, normalize: string -> string, s: State, op: Operation)
    requires NoneMentions(words, normalize, s.danmakus)
    requires IsScreened(words, normalize, op) && (op.DoCreate? ==> op.ctx.autoReject)
    ensures NoneMentions(words, normalize, Apply(s, op).danmakus)
  {
    match op
    case DoCreate(req, ctx) =>
      var (s', r) := Create(s, req, ctx);
      if r.Ok? {
        assert s'.danmakus == s.danmakus + [r.value];
      }
    case DoReview(id, reviewer, to, reason, now) =>
      ReviewKeepsUnmentioned(words, normalize, s, id, reviewer, to, reason, now);
    case DoResolve(id, d) =>
      if id in s.reports {
        ReviewKeepsUnmentioned(words, normalize, s, s.reports[id].danmakuId, d.resolverId, Rejected, d.reason, d.now);
        Viewers.ResolutionReviewsAtMost(s, id, d);
      }
    case _ => Viewers.OthersLeaveTheBoard(s, op);
  }

  /** With automatic rejection no stored message ever mentions a listed word. */
  lemma {:induction false} AutoRejectStoresNone(words: set<string>, normalize: string -> string, s: State,
                                                ops: seq<Operation>)
    requires NoneMentions(words, normalize, s.danmakus)
    requires forall op :: op in ops ==> IsScreened(words, normalize, op) && (op.DoCreate? ==> op.ctx.autoReject)
    ensures forall d :: d in Run(s, ops).danmakus ==> !Mentions(words, normalize(d.content))
    ensures NoneMentions(words, normalize, Run(s, ops).danmakus)
  {
    if ops != [] {
      AutoRejectStoresNone(words, normalize, s, ops[..|ops| - 1]);
      StepKeepsUnmentioned(words, normalize, Run(s, ops[..|ops| - 1]), ops[|ops| - 1]);
    }
    forall d | d in Run(s, ops).danmakus ensures !Mentions(words, normalize(d.content)) {
      FoundIffMentioned(words, normalize(d.content));
    }
  }
}
