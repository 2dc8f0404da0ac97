/** Replaying missed messages to a reconnecting client, page by page (websocket/handler.go). */
module Replays {
  import opened Counting
  import opened Model
  import opened MessageOrder
  import opened MemoryStores

  const PAGE_SIZE: nat := 100
  const MAX_REPLAY: nat := 1000

  datatype Page = Page(messages: seq<Danmaku>, hasMore: bool, next: Cursor)

  /** The page made of a non-empty query result. */
  function PageOf(found: seq<Danmaku>): (page: Page)
    requires found != []
    ensures page.messages != []
  {
    var messages := if |found| > PAGE_SIZE then found[..PAGE_SIZE] else found;
    Page(messages, |found| > PAGE_SIZE, Key(messages[|messages| - 1]))
  }

  /** A client's session: what its k-th history query answers for a cursor and a limit (nothing when it
      fails), and whether its send queue takes the k-th page. */
  datatype Session = Session(query: (nat, Cursor, int) -> Option<seq<Danmaku>>, accepts: nat -> bool)

  /** The next page, if the query succeeds, finds something, and the client takes it. */
  function NextPage(s: Session, since: Cursor, k: nat): Option<Page> {
    var found := s.query(k, since, PAGE_SIZE + 1);
    if found.None? || found.value == [] || !s.accepts(k) then None else Some(PageOf(found.value))
  }

  /** The pages a client receives from the k-th query on, `replayed` messages having been sent before. */
  function Pages(s: Session, since: Cursor, k: nat, replayed: nat): seq<Page>
    decreases MAX_REPLAY - replayed, 1
  {
    if replayed >= MAX_REPLAY then [] else
    match NextPage(s, since, k)
    case None => []
    case Some(page) => [page] + Later(s, page, k, replayed)
  }

  /** The pages after the one that answers the k-th query. */
  function Later(s: Session, page: Page, k: nat, replayed: nat): seq<Page>
    requires replayed < MAX_REPLAY && page.messages != []
    decreases MAX_REPLAY - replayed, 0
  {
    if page.hasMore then Pages(s, page.next, k + 1, replayed + |page.messages|) else []
  }

  lemma OneRound(s: Session, sent: seq<Page>, since: Cursor, k: nat, replayed: nat)
    requires replayed < MAX_REPLAY
    ensures var next := NextPage(s, since, k);
      if next.None? then Pages(s, since, k, replayed) == []
      else
        && |next.value.messages| > 0
        && sent + Pages(s, since, k, replayed) == sent + [next.value]
           + (if next.value.hasMore then Pages(s, next.value.next, k + 1, replayed + |next.value.messages|) else [])
  {
  }

  /** One round of the paging loop: query, cut to a page, hand it to the client. */
  method SendPage(s: Session, since: Cursor, k: nat) returns (sent: Option<Page>)
    ensures sent == NextPage(s, since, k)
  {
    var answer := s.query(k, since, PAGE_SIZE + 1);
    if answer.None? {
      return None;
    }
    var dms := answer.value;
    if |dms| == 0 {
      return None;
    }
    var hasMore := |dms| > PAGE_SIZE;
    if hasMore {
      dms := dms[..PAGE_SIZE];
    }
    var last := dms[|dms| - 1];
    if !s.accepts(k) {
      return None;
    }
    return Some(Page(dms, hasMore, Key(last)));
  }

  /** The paging loop. */
  method SendHistory(s: Session, since: Cursor) returns (sent: seq<Page>)
    ensures sent == Pages(s, since, 0, 0)
  {
    sent := [];
    var cursor, replayed, k := since, 0, 0;
    while replayed < MAX_REPLAY
      invariant Pages(s, since, 0, 0) == sent + Pages(s, cursor, k, replayed)
    {
      OneRound(s, sent, cursor, k, replayed);
      var page := SendPage(s, cursor, k);
      if page.None? {
        return;
      }
      sent := sent + [page.value];
      if !page.value.hasMore {
        return;
      }
      cursor, k, replayed := page.value.next, k + 1, replayed + |page.value.messages|;
    }
  }

  function Flat(pages: seq<Page>): (r: seq<Danmaku>)
    ensures forall d :: d in r <==> exists i :: 0 <= i < |pages| && d in pages[i].messages
  {
    if pages == [] then [] else
    assert pages == [pages[0]] + pages[1..];
    pages[0].messages + Flat(pages[1..])
  }

  // ----- Order -----

  /** An answer to a history query, whatever the store held: sorted and beyond the cursor. */
  ghost predicate QueryOk(answer: seq<Danmaku>, since: Cursor) {
    InOrder(answer) && forall d :: d in answer ==> Before(since, Key(d))
  }

  ghost predicate QueriesOk(s: Session) {
    forall k, c, limit :: s.query(k, c, limit).Some? ==> QueryOk(s.query(k, c, limit).value, c)
  }

  ghost predicate PageOk(page: Page, since: Cursor) {
    && 0 < |page.messages| <= PAGE_SIZE && (page.hasMore ==> |page.messages| == PAGE_SIZE)
    && InOrder(page.messages) && page.next == Key(page.messages[|page.messages| - 1]) && Before(since, page.next)
    && (forall d :: d in page.messages ==> Before(since, Key(d)) && !Before(page.next, Key(d)))
  }

  lemma PageInOrder(found: seq<Danmaku>, since: Cursor)
    requires QueryOk(found, since) && found != []
    ensures PageOk(PageOf(found), since)
  {
    var page := PageOf(found);
    var n := |page.messages|;
    assert page.messages == found[..n];
    forall i | 0 <= i < n ensures !Before(Key(found[n - 1]), Key(found[i])) {
      BeforeTotal(Key(found[i]), Key(found[i]));
    }
    assert found[n - 1] in found;
  }

  lemma FlatFirst(page: Page, rest: seq<Page>)
    ensures Flat([page] + rest) == page.messages + Flat(rest)
    ensures DistinctInside([page] + rest) <==> DistinctKeys(page.messages) && DistinctInside(rest)
  {
    var pages := [page] + rest;
    assert pages[1..] == rest;
    assert forall i :: 0 <= i < |rest| ==> rest[i] == pages[i + 1];
  }

  ghost predicate DistinctInside(pages: seq<Page>) {
    forall i :: 0 <= i < |pages| ==> DistinctKeys(pages[i].messages)
  }

  /** Sorted and beyond the cursor; and strictly sorted, hence free of repetitions, exactly when no
      single page holds two equal keys. */
  ghost predicate ReplayOk(pages: seq<Page>, since: Cursor) {
    && InOrder(Flat(pages))
    && (forall d :: d in Flat(pages) ==> Before(since, Key(d)))
    && (StrictlyInOrder(Flat(pages)) <==> DistinctInside(pages))
  }

  lemma OnePageMore(page: Page, rest: seq<Page>, since: Cursor)
    requires PageOk(page, since) && ReplayOk(rest, page.next)
    ensures ReplayOk([page] + rest, since)
  {
    JoinInOrder(page.messages, Flat(rest), since, page.next);
    FlatFirst(page, rest);
  }

  /** Every replay is in order, even if the store changes between its pages. */
  lemma {:induction false} ReplayInOrder(s: Session, since: Cursor, k: nat, replayed: nat)
    requires QueriesOk(s)
    ensures ReplayOk(Pages(s, since, k, replayed), since)
    decreases MAX_REPLAY - replayed
  {
    var next := NextPage(s, since, k);
    if replayed < MAX_REPLAY && next.Some? {
      var page := next.value;
      PageInOrder(s.query(k, since, PAGE_SIZE + 1).value, since);
      if page.hasMore {
        ReplayInOrder(s, page.next, k + 1, replayed + |page.messages|);
      }
      OnePageMore(page, Later(s, page, k, replayed), since);
    }
  }

  lemma JoinInOrder(s: seq<Danmaku>, t: seq<Danmaku>, since: Cursor, mid: Cursor)
    requires InOrder(s) && InOrder(t) && Before(since, mid)
    requires forall d :: d in s ==> Before(since, Key(d)) && !Before(mid, Key(d))
    requires forall d :: d in t ==> Before(mid, Key(d))
    ensures InOrder(s + t) && forall d :: d in s + t ==> Before(since, Key(d))
    ensures StrictlyInOrder(s + t) <==> DistinctKeys(s) && StrictlyInOrder(t)
  {
    forall a, b | a in s && b in t ensures Before(Key(a), Key(b)) && !Before(Key(b), Key(a)) {
      BeforeTotal(mid, Key(a));
      BeforeTotal(Key(a), Key(b));
      if Key(a) != mid {
        BeforeTransitive(Key(a), mid, Key(b));
      }
    }
    forall d | d in t ensures Before(since, Key(d)) {
      BeforeTransitive(since, mid, Key(d));
    }
    forall a, b: Danmaku ensures !Before(Key(b), Key(a)) ==> (Before(Key(a), Key(b)) <==> Key(a) != Key(b)) {
      BeforeTotal(Key(a), Key(b));
      BeforeTotal(Key(a), Key(a));
    }
    if StrictlyInOrder(s + t) {
      assert forall i :: 0 <= i < |s| ==> (s + t)[i] == s[i];
      assert forall i :: 0 <= i < |t| ==> (s + t)[|s| + i] == t[i];
    }
  }

  // ----- Queries answered by a store that may change between pages -----

  /** What the history query answers when the store holds `ds`. */
  function Listed(ds: seq<Danmaku>, room: string, since: Cursor, limit: int): seq<Danmaku> {
    Take(Sorted(Matching(ds, room, since)), limit)
  }

  /** The k-th query finds the store holding `history(k)`, or fails. */
  ghost predicate StoreBacked(s: Session, room: string, history: nat -> Option<seq<Danmaku>>) {
    forall k, c, limit {:trigger s.query(k, c, limit)} ::
      s.query(k, c, limit) == if history(k).None? then None else Some(Listed(history(k).value, room, c, limit))
  }

  lemma SortedMatchingMembers(ds: seq<Danmaku>, room: string, since: Cursor, d: Danmaku)
    ensures d in Sorted(Matching(ds, room, since)) <==> d in ds && Matches(d, room, since)
  {
    SortedKeeps(Matching(ds, room, since));
    MatchingMembers(ds, room, since, d);
    assert d in Sorted(Matching(ds, room, since)) <==> d in multiset(Sorted(Matching(ds, room, since)));
  }

  lemma ListedOk(ds: seq<Danmaku>, room: string, since: Cursor, limit: int)
    ensures QueryOk(Listed(ds, room, since, limit), since)
  {
    SortedKeeps(Matching(ds, room, since));
    forall d | d in Listed(ds, room, since, limit) ensures Before(since, Key(d)) {
      assert d in Sorted(Matching(ds, room, since));
      SortedMatchingMembers(ds, room, since, d);
    }
  }

  /** No two approved messages of the room have the same (timestamp, id). */
  predicate KeysApart(ds: seq<Danmaku>, room: string) {
    forall i, j :: 0 <= i < j < |ds| && InRoom(ds[i], room) && InRoom(ds[j], room) ==> Key(ds[i]) != Key(ds[j])
  }

  predicate InRoom(d: Danmaku, room: string) {
    d.roomId == room && d.status == Approved
  }

  /** Unique IDs are more than enough. */
  lemma UniqueIdsAreApart(ds: seq<Danmaku>, room: string)
    requires UniqueIds(ds)
    ensures KeysApart(ds, room)
  {
  }

  lemma {:induction false} MatchingKeepsKeysApart(ds: seq<Danmaku>, room: string, since: Cursor)
    requires KeysApart(ds, room)
    ensures DistinctKeys(Matching(ds, room, since))
  {
    if ds != [] {
      var n := |ds| - 1;
      var rest := Matching(ds[..n], room, since);
      MatchingKeepsKeysApart(ds[..n], room, since);
      if Matches(ds[n], room, since) {
        forall i | 0 <= i < |rest| ensures Key(rest[i]) != Key(ds[n]) {
          MatchingMembers(ds[..n], room, since, rest[i]);
          var j :| 0 <= j < n && ds[..n][j] == rest[i];
          assert ds[j] == rest[i];
        }
      }
    }
  }

  /** The whole answer, before it is cut, is strictly sorted. */
  lemma AnswerIsStrict(ds: seq<Danmaku>, room: string, since: Cursor)
    requires KeysApart(ds, room)
    ensures StrictlyInOrder(Sorted(Matching(ds, room, since)))
  {
    MatchingKeepsKeysApart(ds, room, since);
    SortedStrictly(Matching(ds, room, since));
  }

  /** Every answer a session gets holds distinct keys, so every page does. */
  ghost predicate QueriesDistinct(s: Session) {
    forall k, c, limit :: s.query(k, c, limit).Some? ==> DistinctKeys(s.query(k, c, limit).value)
  }

  lemma {:induction false} PagesAreDistinct(s: Session, since: Cursor, k: nat, replayed: nat)
    requires QueriesDistinct(s)
    ensures DistinctInside(Pages(s, since, k, replayed))
    decreases MAX_REPLAY - replayed
  {
    var next := NextPage(s, since, k);
    if replayed < MAX_REPLAY && next.Some? {
      var page := next.value;
      if page.hasMore {
        PagesAreDistinct(s, page.next, k + 1, replayed + |page.messages|);
      }
      FlatFirst(page, Later(s, page, k, replayed));
    }
  }

  /** Whatever the store does between the queries, a replay from it is in order and beyond the cursor; and
      it is strictly increasing, so free of repetitions, if no version of the store holds two approved
      messages of the room under one key. */
  lemma StoreReplayInOrder(s: Session, room: string, history: nat -> Option<seq<Danmaku>>, since: Cursor)
    requires StoreBacked(s, room, history)
    ensures var replay := Flat(Pages(s, since, 0, 0));
      && InOrder(replay) && (forall d :: d in replay ==> Before(since, Key(d)))
      && ((forall j :: history(j).Some? ==> KeysApart(history(j).value, room)) ==> StrictlyInOrder(replay))
  {
    forall k, c, limit | s.query(k, c, limit).Some?
      ensures QueryOk(s.query(k, c, limit).value, c)
    {
      ListedOk(history(k).value, room, c, limit);
    }
    ReplayInOrder(s, since, 0, 0);
    if forall j :: history(j).Some? ==> KeysApart(history(j).value, room) {
      forall k, c, limit | s.query(k, c, limit).Some?
        ensures DistinctKeys(s.query(k, c, limit).value)
      {
        AnswerIsStrict(history(k).value, room, c);
        StrictIsOrdered(Sorted(Matching(history(k).value, room, c)));
      }
      PagesAreDistinct(s, since, 0, 0);
    }
  }

  /** In particular when every version of the store has unique IDs. */
  lemma UniqueIdsReplayStrictly(s: Session, room: string, history: nat -> Option<seq<Danmaku>>, since: Cursor)
    requires StoreBacked(s, room, history) && forall j :: history(j).Some? ==> UniqueIds(history(j).value)
    ensures StrictlyInOrder(Flat(Pages(s, since, 0, 0)))
  {
    forall j | history(j).Some? ensures KeysApart(history(j).value, room) {
      UniqueIdsAreApart(history(j).value, room);
    }
    StoreReplayInOrder(s, room, history, since);
  }

  // ----- When a replay repeats itself -----

  /** A client that takes every page, reading from a store that holds `ds` throughout. */
  function Reading(ds: seq<Danmaku>, room: string): Session {
    Session((k, c, limit) => Some(Listed(ds, room, c, limit)), k => true)
  }

  /** A cursor just before a key: everything in the room beyond it has that key or a later one. */
  lemma {:induction false} JustBefore(ds: seq<Danmaku>, room: string, key: Cursor) returns (since: Cursor)
    ensures Before(since, key)
    ensures forall d :: d in ds && InRoom(d, room) && Before(since, Key(d)) ==> !Before(Key(d), key)
  {
    if ds == [] {
      since := Cursor(key.time - 1, "");
    } else {
      var n := |ds| - 1;
      since := JustBefore(ds[..n], room, key);
      if Before(since, Key(ds[n])) && Before(Key(ds[n]), key) {
        BeforeTotal(Key(ds[n]), Key(ds[n]));
        forall d | d in ds && InRoom(d, room) && Before(Key(ds[n]), Key(d)) ensures !Before(Key(d), key) {
          BeforeTransitive(since, Key(ds[n]), Key(d));
          assert d in ds[..n];
        }
        since := Key(ds[n]);
      } else {
        assert forall d :: d in ds ==> d in ds[..n] || d == ds[n];
      }
    }
  }

  function WithKey(key: Cursor): Danmaku -> bool {
    (d: Danmaku) => Key(d) == key
  }

  lemma {:induction false} BothAreMatched(ds: seq<Danmaku>, room: string, since: Cursor, i: nat, j: nat)
    requires i < j < |ds| && Key(ds[i]) == Key(ds[j]) && Matches(ds[i], room, since) && Matches(ds[j], room, since)
    ensures CountIf(Matching(ds, room, since), WithKey(Key(ds[i]))) >= 2
  {
    var n := |ds| - 1;
    var rest := Matching(ds[..n], room, since);
    CountAfterAppend(rest, ds[n], WithKey(Key(ds[i])));
    if j == n {
      MatchingMembers(ds[..n], room, since, ds[i]);
      assert ds[..n][i] == ds[i];
      var p :| 0 <= p < |rest| && rest[p] == ds[i];
      OneIsCounted(rest, p, WithKey(Key(ds[i])));
    } else {
      BothAreMatched(ds[..n], room, since, i, j);
    }
  }

  /** Two equal keys with nothing before them stand first in order. */
  lemma RepeatedKeyLeads(s: seq<Danmaku>, key: Cursor)
    requires InOrder(s) && CountIf(s, WithKey(key)) >= 2 && forall d :: d in s ==> !Before(Key(d), key)
    ensures |s| >= 2 && Key(s[0]) == Key(s[1]) == key
  {
    var p, q := TwoCounted(s, WithKey(key));
    BeforeTotal(Key(s[0]), key);
    BeforeTotal(Key(s[1]), key);
    assert s[0] in s && s[1] in s;
  }

  lemma AnswerBegins(ds: seq<Danmaku>, room: string, since: Cursor, i: nat, j: nat)
    requires i < j < |ds| && Key(ds[i]) == Key(ds[j]) && Matches(ds[i], room, since) && Matches(ds[j], room, since)
    requires forall d :: d in ds && InRoom(d, room) && Before(since, Key(d)) ==> !Before(Key(d), Key(ds[i]))
    ensures var all := Sorted(Matching(ds, room, since)); |all| >= 2 && Key(all[0]) == Key(all[1]) == Key(ds[i])
  {
    var all := Sorted(Matching(ds, room, since));
    BothAreMatched(ds, room, since, i, j);
    SortedKeeps(Matching(ds, room, since));
    SameCount(Matching(ds, room, since), all, WithKey(Key(ds[i])));
    forall d | d in all ensures !Before(Key(d), Key(ds[i])) {
      SortedMatchingMembers(ds, room, since, d);
    }
    RepeatedKeyLeads(all, Key(ds[i]));
  }

  /** Of two approved messages under one key, a client whose cursor is just before them gets both. */
  lemma RepeatedKeyIsReplayed(ds: seq<Danmaku>, room: string, i: nat, j: nat) returns (since: Cursor)
    requires i < j < |ds| && Key(ds[i]) == Key(ds[j]) && InRoom(ds[i], room) && InRoom(ds[j], room)
    ensures !StrictlyInOrder(Flat(Pages(Reading(ds, room), since, 0, 0)))
  {
    since := JustBefore(ds, room, Key(ds[i]));
    AnswerBegins(ds, room, since, i, j);
    var s := Reading(ds, room);
    var page := NextPage(s, since, 0).value;
    FlatFirst(page, Later(s, page, 0, 0));
    var replay := Flat(Pages(s, since, 0, 0));
    assert replay[0] == page.messages[0] && replay[1] == page.messages[1];
    BeforeTotal(Key(replay[0]), Key(replay[1]));
  }

  /** Exactly when replays of a room are strictly increasing from every cursor: when no two of its approved
      messages share their timestamp and ID. The store itself accepts such messages. */
  lemma ReplaysStrictIffKeysApart(ds: seq<Danmaku>, room: string)
    ensures (forall since :: StrictlyInOrder(Flat(Pages(Reading(ds, room), since, 0, 0)))) <==> KeysApart(ds, room)
  {
    if KeysApart(ds, room) {
      forall since ensures StrictlyInOrder(Flat(Pages(Reading(ds, room), since, 0, 0))) {
        StoreReplayInOrder(Reading(ds, room), room, k => Some(ds), since);
      }
    } else {
      var i: nat, j: nat :| i < j < |ds| && InRoom(ds[i], room) && InRoom(ds[j], room) && Key(ds[i]) == Key(ds[j]);
      var since := RepeatedKeyIsReplayed(ds, room, i, j);
    }
  }

  lemma TwoCopiesAreListed(d: Danmaku, since: Cursor)
    requires Matches(d, d.roomId, since)
    ensures Listed([d, d], d.roomId, since, PAGE_SIZE + 1) == [d, d]
  {
    assert [d, d][..1] == [d] && [d][..0] == [];
    assert Matching([d], d.roomId, since) == [d];
    assert Matching([d, d], d.roomId, since) == [d, d];
    assert Sorted([d]) == [d];
    BeforeTotal(Key(d), Key(d));
    assert InsertSorted(d, [d]) == [d] + InsertSorted(d, []) == [d, d];
  }

  /** A store that was given one record twice replays it twice. */
  lemma DuplicateIsReplayedTwice(d: Danmaku, since: Cursor)
    requires Matches(d, d.roomId, since)
    ensures Flat(Pages(Reading([d, d], d.roomId), since, 0, 0)) == [d, d]
  {
    var s := Reading([d, d], d.roomId);
    TwoCopiesAreListed(d, since);
    var page := NextPage(s, since, 0).value;
    FlatFirst(page, []);
    assert Pages(s, since, 0, 0) == [page] + [];
  }

  /** A matching message not beyond the page is on the page. */
  lemma OnThePage(ds: seq<Danmaku>, room: string, since: Cursor, d: Danmaku)
    requires KeysApart(ds, room) && d in ds && Matches(d, room, since)
    ensures var found := Listed(ds, room, since, PAGE_SIZE + 1);
      found != [] && (d in PageOf(found).messages || Before(PageOf(found).next, Key(d)))
  {
    var all := Sorted(Matching(ds, room, since));
    AnswerIsStrict(ds, room, since);
    SortedMatchingMembers(ds, room, since, d);
    var page := PageOf(Listed(ds, room, since, PAGE_SIZE + 1));
    var n := |page.messages|;
    assert page.messages == all[..n];
    var i :| 0 <= i < |all| && all[i] == d;
    if i < n {
      assert page.messages[i] == d;
    }
  }

  /** A message with this key is among these. */
  ghost predicate HasKey(ds: seq<Danmaku>, key: Cursor) {
    exists d :: d in ds && Key(d) == key
  }

  /** The store holds, under this key, a message approved in the room, whatever its other fields. */
  ghost predicate Shows(ds: seq<Danmaku>, room: string, key: Cursor) {
    exists d :: d in ds && Key(d) == key && d.roomId == room && d.status == Approved
  }

  /** Every query answer from before the key has it on the page or ends before it. */
  ghost predicate NeverPassedOver(s: Session, key: Cursor) {
    forall k, c {:trigger s.query(k, c, PAGE_SIZE + 1)} ::
      Before(c, key) && s.query(k, c, PAGE_SIZE + 1).Some? ==>
        var found := s.query(k, c, PAGE_SIZE + 1).value;
        found != [] && (HasKey(PageOf(found).messages, key) || Before(PageOf(found).next, key))
  }

  lemma {:induction false} OnSomePage(s: Session, since: Cursor, k: nat, replayed: nat, key: Cursor)
    requires NeverPassedOver(s, key) && Before(since, key)
    requires var pages := Pages(s, since, k, replayed);
      pages != [] && !Before(pages[|pages| - 1].next, key)
    ensures HasKey(Flat(Pages(s, since, k, replayed)), key)
    decreases MAX_REPLAY - replayed
  {
    var pages := Pages(s, since, k, replayed);
    var page := pages[0];
    var rest := Later(s, page, k, replayed);
    FlatFirst(page, rest);
    if HasKey(page.messages, key) {
      var d :| d in page.messages && Key(d) == key;
      assert d in Flat(pages);
    } else {
      assert rest[|rest| - 1] == pages[|pages| - 1];
      OnSomePage(s, page.next, k + 1, replayed + |page.messages|, key);
      var d :| d in Flat(rest) && Key(d) == key;
      assert d in Flat(pages);
    }
  }

  /** A message that the store shows as approved in the room at every query is not skipped: if its key
      is beyond the start and not beyond the last page, it is on some page. */
  lemma NothingSkipped(s: Session, room: string, history: nat -> Option<seq<Danmaku>>, since: Cursor, key: Cursor)
    requires StoreBacked(s, room, history) && Before(since, key)
    requires forall j :: history(j).Some? ==> KeysApart(history(j).value, room) && Shows(history(j).value, room, key)
    requires var pages := Pages(s, since, 0, 0); pages != [] && !Before(pages[|pages| - 1].next, key)
    ensures HasKey(Flat(Pages(s, since, 0, 0)), key)
  {
    forall k, c {:trigger s.query(k, c, PAGE_SIZE + 1)} | Before(c, key) && s.query(k, c, PAGE_SIZE + 1).Some?
      ensures var found := s.query(k, c, PAGE_SIZE + 1).value;
        found != [] && (HasKey(PageOf(found).messages, key) || Before(PageOf(found).next, key))
    {
      var ds := history(k).value;
      var d :| d in ds && Key(d) == key && d.roomId == room && d.status == Approved;
      OnThePage(ds, room, c, d);
    }
    OnSomePage(s, since, 0, 0, key);
  }

  // ----- A store that does not change -----

  /** Asking again from the n-th message's key gives what follows it. */
  lemma ContinuesAfter(ds: seq<Danmaku>, room: string, since: Cursor, n: nat)
    requires KeysApart(ds, room) && 0 < n <= |Sorted(Matching(ds, room, since))|
    ensures var all := Sorted(Matching(ds, room, since));
      Sorted(Matching(ds, room, Key(all[n - 1]))) == all[n..]
  {
    var all := Sorted(Matching(ds, room, since));
    var mid := Key(all[n - 1]);
    var next := Sorted(Matching(ds, room, mid));
    AnswerIsStrict(ds, room, since);
    AnswerIsStrict(ds, room, mid);
    StrictIsOrdered(all[n..]);
    StrictIsOrdered(next);
    forall d ensures d in all[n..] <==> d in next {
      SortedMatchingMembers(ds, room, since, d);
      SortedMatchingMembers(ds, room, mid, d);
      SortedMatchingMembers(ds, room, since, all[n - 1]);
      BeyondIndex(all, n, d);
      if Before(mid, Key(d)) {
        BeforeTransitive(since, mid, Key(d));
      }
    }
    SameMembers(all[n..], next);
    OneSortedArrangement(all[n..], next);
  }

  lemma StrictIsOrdered(s: seq<Danmaku>)
    requires StrictlyInOrder(s)
    ensures InOrder(s) && DistinctKeys(s)
  {
    forall i, j | 0 <= i < j < |s| ensures !Before(Key(s[j]), Key(s[i])) && Key(s[i]) != Key(s[j]) {
      BeforeTotal(Key(s[i]), Key(s[j]));
      BeforeTotal(Key(s[i]), Key(s[i]));
    }
  }

  lemma BeyondIndex(all: seq<Danmaku>, n: nat, d: Danmaku)
    requires StrictlyInOrder(all) && 0 < n <= |all|
    ensures d in all[n..] <==> d in all && Before(Key(all[n - 1]), Key(d))
  {
    StrictIsOrdered(all);
    if d in all && Before(Key(all[n - 1]), Key(d)) {
      var i :| 0 <= i < |all| && all[i] == d;
      BeforeTotal(Key(d), Key(d));
      assert i >= n;
      assert all[n..][i - n] == d;
    }
  }

  lemma SameMembers(s: seq<Danmaku>, t: seq<Danmaku>)
    requires DistinctKeys(s) && DistinctKeys(t) && forall d :: d in s <==> d in t
    ensures multiset(s) == multiset(t)
  {
    DistinctKeysCounted(s);
    DistinctKeysCounted(t);
    forall d ensures multiset(s)[d] == multiset(t)[d] {
      assert d in multiset(s) <==> d in s;
      assert d in multiset(t) <==> d in t;
    }
  }

  function First(s: seq<Danmaku>, n: nat): seq<Danmaku> {
    if |s| <= n then s else s[..n]
  }

  /** Every query answers from the same messages, `answer(c)` being those beyond `c`, and the client takes every
      page. */
  ghost predicate Steady(s: Session, answer: Cursor -> seq<Danmaku>) {
    && (forall k :: s.accepts(k))
    && (forall k, c, limit {:trigger s.query(k, c, limit)} :: s.query(k, c, limit) == Some(Take(answer(c), limit)))
  }

  lemma SteadyPage(s: Session, answer: Cursor -> seq<Danmaku>, since: Cursor, k: nat)
    requires Steady(s, answer)
    ensures var all := answer(since);
      NextPage(s, since, k) ==
      if all == [] then None
      else if |all| <= PAGE_SIZE then Some(Page(all, false, Key(all[|all| - 1])))
      else Some(Page(all[..PAGE_SIZE], true, Key(all[PAGE_SIZE - 1])))
  {
    var all := answer(since);
    var found := Take(all, PAGE_SIZE + 1);
    assert s.query(k, since, PAGE_SIZE + 1) == Some(found);
    if |all| > PAGE_SIZE {
      assert found[..PAGE_SIZE] == all[..PAGE_SIZE];
    } else {
      assert found == all;
    }
  }

  lemma FirstSplits(all: seq<Danmaku>, m: nat, n: nat)
    requires m <= n && m <= |all|
    ensures all[..m] + First(all[m..], n - m) == First(all, n)
  {
  }

  /** Asking again from the n-th answer's key gives what follows it. */
  ghost predicate Continues(answer: Cursor -> seq<Danmaku>, c: Cursor, n: nat) {
    0 < n <= |answer(c)| ==> answer(Key(answer(c)[n - 1])) == answer(c)[n..]
  }

  lemma WholePages(replayed: nat)
    requires replayed < MAX_REPLAY && replayed % PAGE_SIZE == 0
    ensures replayed + PAGE_SIZE <= MAX_REPLAY && (replayed + PAGE_SIZE) % PAGE_SIZE == 0
  {
  }

  /** One whole page, then the rest of what was beyond the cursor. */
  lemma SteadyRound(s: Session, answer: Cursor -> seq<Danmaku>, since: Cursor, k: nat, replayed: nat)
    requires Steady(s, answer) && replayed + PAGE_SIZE <= MAX_REPLAY && |answer(since)| > PAGE_SIZE
    ensures var all, next := answer(since), Key(answer(since)[PAGE_SIZE - 1]);
      Flat(Pages(s, since, k, replayed)) == all[..PAGE_SIZE] + Flat(Pages(s, next, k + 1, replayed + PAGE_SIZE))
  {
    SteadyPage(s, answer, since, k);
    var page := NextPage(s, since, k).value;
    FlatFirst(page, Later(s, page, k, replayed));
  }

  lemma LastRound(s: Session, answer: Cursor -> seq<Danmaku>, since: Cursor, k: nat, replayed: nat)
    requires Steady(s, answer) && replayed < MAX_REPLAY && |answer(since)| <= PAGE_SIZE
    ensures Flat(Pages(s, since, k, replayed)) == answer(since)
  {
    SteadyPage(s, answer, since, k);
    if answer(since) != [] {
      FlatFirst(NextPage(s, since, k).value, []);
    }
  }

  lemma {:induction false} SteadyPages(s: Session, answer: Cursor -> seq<Danmaku>, since: Cursor, k: nat, replayed: nat)
    requires Steady(s, answer) && replayed <= MAX_REPLAY && replayed % PAGE_SIZE == 0
    requires forall c, n: nat {:trigger Continues(answer, c, n)} :: Continues(answer, c, n)
    ensures Flat(Pages(s, since, k, replayed)) == First(answer(since), MAX_REPLAY - replayed)
    decreases MAX_REPLAY - replayed
  {
    var all := answer(since);
    if replayed < MAX_REPLAY {
      WholePages(replayed);
      if |all| > PAGE_SIZE {
        SteadyRound(s, answer, since, k, replayed);
        SteadyPages(s, answer, Key(all[PAGE_SIZE - 1]), k + 1, replayed + PAGE_SIZE);
        assert Continues(answer, since, PAGE_SIZE);
        FirstSplits(all, PAGE_SIZE, MAX_REPLAY - replayed);
      } else {
        LastRound(s, answer, since, k, replayed);
      }
    }
  }

  /** From a store that does not change, to a client that takes every page, the pages add up to exactly
      the first messages that match, up to the maximum of a replay. */
  lemma SteadyReplay(s: Session, room: string, history: nat -> Option<seq<Danmaku>>, ds: seq<Danmaku>, since: Cursor)
    requires StoreBacked(s, room, history) && KeysApart(ds, room)
    requires forall k :: history(k) == Some(ds) && s.accepts(k)
    ensures Flat(Pages(s, since, 0, 0)) == First(Sorted(Matching(ds, room, since)), MAX_REPLAY)
  {
    var answer := c => Sorted(Matching(ds, room, c));
    forall c, n: nat ensures Continues(answer, c, n) {
      if 0 < n <= |answer(c)| {
        ContinuesAfter(ds, room, c, n);
      }
    }
    SteadyPages(s, answer, since, 0, 0);
  }
}
