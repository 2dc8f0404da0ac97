/** What a replay is, page by page: which query each page answers, that the client took it, why the replay stops
    where it does, and that it never exceeds a thousand messages. */
module ReplayLaws {
  import opened Model
  import opened MessageOrder
  import opened Replays

  /** The page shows the first hundred of a non-empty answer to the `k`-th query, and the client took it. */
  predicate AnswersQuery(s: Session, page: Page, since: Cursor, k: nat) {
    && s.accepts(k)
    && var found := s.query(k, since, 101);
      && found.Some? && |found.value| > 0
      && (if |found.value| > 100 then |page.messages| == 100 else |page.messages| == |found.value|)
      && page.messages == found.value[..|page.messages|]
      && (page.hasMore <==> |found.value| > 100)
      && page.next == Key(page.messages[|page.messages| - 1])
  }

  /** The cursor that the `i`-th page starts from. */
  function CursorAt(pages: seq<Page>, since: Cursor, i: nat): Cursor
    requires i <= |pages|
  {
    if i == 0 then since else pages[i - 1].next
  }

  /** The `i`-th page answers its query from where the one before ended, there being more, and fewer than a thousand
      messages sent. */
  predicate PageFits(s: Session, pages: seq<Page>, since: Cursor, k: nat, replayed: nat, i: nat)
    requires i < |pages|
  {
    && AnswersQuery(s, pages[i], CursorAt(pages, since, i), k + i)
    && (i > 0 ==> pages[i - 1].hasMore)
    && replayed + |Flat(pages[..i])| < 1000
  }

  /** Nothing comes after these pages: the last said so, a thousand messages have been sent, the client refuses the
      next page, or the next query fails or finds nothing. */
  predicate NothingMore(s: Session, pages: seq<Page>, since: Cursor, k: nat, replayed: nat) {
    || (pages != [] && !pages[|pages| - 1].hasMore)
    || replayed + |Flat(pages)| >= 1000
    || !s.accepts(k + |pages|)
    || (var found := s.query(k + |pages|, CursorAt(pages, since, |pages|), 101); found.None? || found.value == [])
  }

  ghost predicate IsReplay(s: Session, pages: seq<Page>, since: Cursor, k: nat, replayed: nat) {
    && (forall i :: 0 <= i < |pages| ==> PageFits(s, pages, since, k, replayed, i))
    && NothingMore(s, pages, since, k, replayed)
  }

  lemma PageFitsLater(s: Session, page: Page, rest: seq<Page>, since: Cursor, k: nat, replayed: nat, i: nat)
    requires page.hasMore && i < |rest| && PageFits(s, rest, page.next, k + 1, replayed + |page.messages|, i)
    ensures PageFits(s, [page] + rest, since, k, replayed, i + 1)
  {
    assert ([page] + rest)[..i + 1] == [page] + rest[..i];
    FlatFirst(page, rest[..i]);
    assert k + 1 + i == k + (i + 1);
  }

  lemma NothingMoreLater(s: Session, page: Page, rest: seq<Page>, since: Cursor, k: nat, replayed: nat)
    requires if page.hasMore then NothingMore(s, rest, page.next, k + 1, replayed + |page.messages|) else rest == []
    ensures NothingMore(s, [page] + rest, since, k, replayed)
  {
    var pages := [page] + rest;
    FlatFirst(page, rest);
    assert k + 1 + |rest| == k + |pages|;
    if rest != [] {
      assert pages[|pages| - 1] == rest[|rest| - 1];
    }
  }

  lemma LongerReplay(s: Session, page: Page, rest: seq<Page>, since: Cursor, k: nat, replayed: nat)
    requires AnswersQuery(s, page, since, k) && replayed < 1000
    requires if page.hasMore then IsReplay(s, rest, page.next, k + 1, replayed + |page.messages|) else rest == []
    ensures IsReplay(s, [page] + rest, since, k, replayed)
  {
    forall i | 0 <= i < |rest| + 1 ensures PageFits(s, [page] + rest, since, k, replayed, i) {
      if i > 0 {
        PageFitsLater(s, page, rest, since, k, replayed, i - 1);
      }
    }
    NothingMoreLater(s, page, rest, since, k, replayed);
  }

  /** Every replay is such a sequence of pages. */
  lemma {:induction false} PagesAreAReplay(s: Session, since: Cursor, k: nat, replayed: nat)
    ensures IsReplay(s, Pages(s, since, k, replayed), since, k, replayed)
    decreases MAX_REPLAY - replayed
  {
    var next := NextPage(s, since, k);
    if replayed < MAX_REPLAY && next.Some? {
      var page := next.value;
      if page.hasMore {
        PagesAreAReplay(s, page.next, k + 1, replayed + |page.messages|);
      }
      LongerReplay(s, page, Later(s, page, k, replayed), since, k, replayed);
    }
  }

  lemma OneAnswer(s: Session, a: Page, b: Page, since: Cursor, k: nat)
    requires AnswersQuery(s, a, since, k) && AnswersQuery(s, b, since, k)
    ensures a == b
  {
    assert a.messages == b.messages;
  }

  lemma {:induction false} SamePage(s: Session, a: seq<Page>, b: seq<Page>, since: Cursor, k: nat, replayed: nat,
                                    i: nat)
    requires i < |a| && i < |b|
    requires forall j :: 0 <= j <= i ==> PageFits(s, a, since, k, replayed, j) && PageFits(s, b, since, k, replayed, j)
    ensures a[i] == b[i]
  {
    if i > 0 {
      SamePage(s, a, b, since, k, replayed, i - 1);
    }
    assert PageFits(s, a, since, k, replayed, i) && PageFits(s, b, since, k, replayed, i);
    OneAnswer(s, a[i], b[i], CursorAt(a, since, i), k + i);
  }

  /** Where a page fits, the pages before it were not all. */
  lemma NotAllBefore(s: Session, pages: seq<Page>, since: Cursor, k: nat, replayed: nat, n: nat)
    requires n < |pages| && PageFits(s, pages, since, k, replayed, n)
    ensures !NothingMore(s, pages[..n], since, k, replayed)
  {
    assert CursorAt(pages[..n], since, n) == CursorAt(pages, since, n);
  }

  /** A replay is not the beginning of another. */
  lemma NotShorter(s: Session, a: seq<Page>, b: seq<Page>, since: Cursor, k: nat, replayed: nat)
    requires IsReplay(s, a, since, k, replayed) && IsReplay(s, b, since, k, replayed)
    requires forall i :: 0 <= i < |a| && i < |b| ==> a[i] == b[i]
    ensures |a| >= |b|
  {
    if |a| < |b| {
      assert b[..|a|] == a;
      NotAllBefore(s, b, since, k, replayed, |a|);
    }
  }

  /** And there is only one. */
  lemma ReplayIsUnique(s: Session, a: seq<Page>, b: seq<Page>, since: Cursor, k: nat, replayed: nat)
    requires IsReplay(s, a, since, k, replayed) && IsReplay(s, b, since, k, replayed)
    ensures a == b
  {
    forall i | 0 <= i < |a| && i < |b| ensures a[i] == b[i] {
      SamePage(s, a, b, since, k, replayed, i);
    }
    NotShorter(s, a, b, since, k, replayed);
    NotShorter(s, b, a, since, k, replayed);
  }

  /** A reconnecting client gets exactly the replay: as many pages as there are and it takes, up to the limit. */
  lemma SendHistoryExactly(s: Session, since: Cursor, pages: seq<Page>)
    ensures pages == Pages(s, since, 0, 0) <==> IsReplay(s, pages, since, 0, 0)
  {
    PagesAreAReplay(s, since, 0, 0);
    if IsReplay(s, pages, since, 0, 0) {
      ReplayIsUnique(s, pages, Pages(s, since, 0, 0), since, 0, 0);
    }
  }

  /** Pages that go on are full, so a replay is never longer than a thousand messages. */
  lemma {:induction false} ReplayIsBounded(s: Session, since: Cursor, k: nat, replayed: nat)
    requires replayed % 100 == 0 && replayed <= 1000
    ensures replayed + |Flat(Pages(s, since, k, replayed))| <= 1000
    decreases MAX_REPLAY - replayed
  {
    var next := NextPage(s, since, k);
    if replayed < MAX_REPLAY && next.Some? {
      var page := next.value;
      if page.hasMore {
        ReplayIsBounded(s, page.next, k + 1, replayed + |page.messages|);
      }
      FlatFirst(page, Later(s, page, k, replayed));
    }
  }
}
