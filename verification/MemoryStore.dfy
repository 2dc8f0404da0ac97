/** The in-memory danmaku store (store/store.go). */
module MemoryStores {
  import opened Model
  import opened MessageOrder

  /** The position of the first record with this ID, or the length when there is none. */
  function IndexOf(ds: seq<Danmaku>, id: string): (i: nat)
    ensures i <= |ds| && (i < |ds| ==> ds[i].id == id)
    ensures forall k :: 0 <= k < i ==> ds[k].id != id
  {
    if ds == [] || ds[0].id == id then 0 else 1 + IndexOf(ds[1..], id)
  }

  function Find(ds: seq<Danmaku>, id: string): Option<Danmaku> {
    var i := IndexOf(ds, id);
    if i < |ds| then Some(ds[i]) else None
  }

  function Reviewed(d: Danmaku, status: Status, reviewer: string, reason: string, at: int): Danmaku {
    d.(status := status, reviewedBy := reviewer, reviewedAt := Some(at), reviewReason := reason)
  }

  function WithStatus(ds: seq<Danmaku>, id: string, status: Status, reviewer: string, reason: string, at: int)
    : seq<Danmaku>
  {
    var i := IndexOf(ds, id);
    if i < |ds| then ds[i := Reviewed(ds[i], status, reviewer, reason, at)] else ds
  }

  /** A record without a status is stored as approved. */
  function Stored(d: Danmaku): Danmaku {
    if d.status.Unset? then d.(status := Approved) else d
  }

  /** The approved messages of a room, in insertion order. */
  function ApprovedIn(ds: seq<Danmaku>, room: string): seq<Danmaku> {
    if ds == [] then [] else
    var d, rest := ds[|ds| - 1], ApprovedIn(ds[..|ds| - 1], room);
    if d.roomId == room && d.status == Approved then rest + [d] else rest
  }

  /** The approved messages of a room after a cursor, in insertion order. */
  function Matching(ds: seq<Danmaku>, room: string, since: Cursor): seq<Danmaku> {
    if ds == [] then [] else
    var d, rest := ds[|ds| - 1], Matching(ds[..|ds| - 1], room, since);
    if d.roomId == room && d.status == Approved && Before(since, Key(d)) then rest + [d] else rest
  }

  function Take<T>(s: seq<T>, limit: int): seq<T> {
    if 0 < limit < |s| then s[..limit] else s
  }

  function LastOf<T>(s: seq<T>, limit: nat): seq<T> {
    if |s| <= limit then s else s[|s| - limit..]
  }

  function Reverse<T>(s: seq<T>): seq<T> {
    seq(|s|, i requires 0 <= i < |s| => s[|s| - 1 - i])
  }

  predicate Matches(d: Danmaku, room: string, since: Cursor) {
    d.roomId == room && d.status == Approved && Before(since, Key(d))
  }

  lemma {:induction false} MatchingMembers(ds: seq<Danmaku>, room: string, since: Cursor, d: Danmaku)
    ensures d in Matching(ds, room, since) <==> d in ds && Matches(d, room, since)
  {
    if ds != [] {
      var n := |ds| - 1;
      MatchingMembers(ds[..n], room, since, d);
      assert ds == ds[..n] + [ds[n]];
    }
  }

  lemma {:induction false} ApprovedMembers(ds: seq<Danmaku>, room: string, d: Danmaku)
    ensures d in ApprovedIn(ds, room) <==> d in ds && d.roomId == room && d.status == Approved
  {
    if ds != [] {
      var n := |ds| - 1;
      ApprovedMembers(ds[..n], room, d);
      assert ds == ds[..n] + [ds[n]];
    }
  }

  lemma {:induction false} ApprovedInConcat(a: seq<Danmaku>, b: seq<Danmaku>, room: string)
    ensures ApprovedIn(a + b, room) == ApprovedIn(a, room) + ApprovedIn(b, room)
  {
    if b == [] {
      assert a + b == a;
    } else {
      assert (a + b)[..|a + b| - 1] == a + b[..|b| - 1];
      ApprovedInConcat(a, b[..|b| - 1], room);
    }
  }

  lemma {:induction false} MatchingConcat(a: seq<Danmaku>, b: seq<Danmaku>, room: string, since: Cursor)
    ensures Matching(a + b, room, since) == Matching(a, room, since) + Matching(b, room, since)
  {
    if b == [] {
      assert a + b == a;
    } else {
      assert (a + b)[..|a + b| - 1] == a + b[..|b| - 1];
      MatchingConcat(a, b[..|b| - 1], room, since);
    }
  }

  lemma SplitApproved(ds: seq<Danmaku>, i: nat, room: string)
    requires i <= |ds|
    ensures ApprovedIn(ds, room) == ApprovedIn(ds[..i], room) + ApprovedIn(ds[i..], room)
  {
    assert ds == ds[..i] + ds[i..];
    ApprovedInConcat(ds[..i], ds[i..], room);
  }

  /** A listing goes through the store in insertion order and takes each record or leaves it. */
  lemma ApprovedAlone(d: Danmaku, room: string)
    ensures ApprovedIn([d], room) == if d.roomId == room && d.status == Approved then [d] else []
  {
    assert [d][..0] == [];
    assert ApprovedIn([], room) == [];
  }

  lemma OneMoreApproved(ds: seq<Danmaku>, i: nat, room: string)
    requires i < |ds|
    ensures ApprovedIn(ds[i..], room) == ApprovedIn([ds[i]], room) + ApprovedIn(ds[i + 1..], room)
  {
    assert ds[i..] == [ds[i]] + ds[i + 1..];
    ApprovedInConcat([ds[i]], ds[i + 1..], room);
  }

  lemma ReverseOneMore<T>(s: seq<T>, x: T)
    ensures Reverse(s + [x]) == [x] + Reverse(s)
  {
  }

  // ----- What can be found after a write -----

  lemma {:induction false} IndexAfterAppend(ds: seq<Danmaku>, d: Danmaku, id: string)
    ensures IndexOf(ds + [d], id)
         == if IndexOf(ds, id) < |ds| then IndexOf(ds, id) else if d.id == id then |ds| else |ds| + 1
  {
    if ds != [] && ds[0].id != id {
      assert (ds + [d])[1..] == ds[1..] + [d];
      IndexAfterAppend(ds[1..], d, id);
    } else if ds == [] {
      assert ds + [d] == [d];
    }
  }

  lemma FindAfterAppend(ds: seq<Danmaku>, d: Danmaku, id: string)
    ensures Find(ds + [d], id) == if Find(ds, id).Some? then Find(ds, id) else if d.id == id then Some(d) else None
  {
    IndexAfterAppend(ds, d, id);
  }

  lemma {:induction false} IndexAfterUpdate(ds: seq<Danmaku>, i: nat, d: Danmaku, id: string)
    requires i < |ds| && d.id == ds[i].id
    ensures IndexOf(ds[i := d], id) == IndexOf(ds, id)
  {
    if i > 0 && ds[0].id != id {
      assert ds[i := d][1..] == ds[1..][i - 1 := d];
      IndexAfterUpdate(ds[1..], i - 1, d, id);
    } else if i == 0 {
      assert ds[i := d][1..] == ds[1..];
    }
  }

  lemma FindAfterReview(ds: seq<Danmaku>, id: string, to: Status, reviewer: string, reason: string, now: int, x: string)
    requires Find(ds, id).Some?
    ensures Find(WithStatus(ds, id, to, reviewer, reason, now), x)
         == if x == id then Some(Reviewed(Find(ds, id).value, to, reviewer, reason, now)) else Find(ds, x)
  {
    var i := IndexOf(ds, id);
    IndexAfterUpdate(ds, i, Reviewed(ds[i], to, reviewer, reason, now), x);
  }

  // ----- What a write does, and what a limit leaves -----

  /** A review rewrites the status and the three review fields of the first record with the ID, and nothing else. */
  lemma StatusMeaning(ds: seq<Danmaku>, id: string, to: Status, reviewer: string, reason: string, at: int)
    ensures var ds' := WithStatus(ds, id, to, reviewer, reason, at);
      && |ds'| == |ds|
      && forall i :: 0 <= i < |ds| ==>
        if IsFirst(ds, id, i) then
          ds'[i] == ds[i].(status := to, reviewedBy := reviewer, reviewedAt := Some(at), reviewReason := reason)
        else ds'[i] == ds[i]
  {
    assert forall i :: 0 <= i < |ds| ==> (IsFirst(ds, id, i) <==> i == IndexOf(ds, id));
  }

  predicate IsFirst(ds: seq<Danmaku>, id: string, i: nat)
    requires i < |ds|
  {
    ds[i].id == id && forall k :: 0 <= k < i ==> ds[k].id != id
  }

  /** What is stored is what was given; only an empty status becomes approved. */
  lemma StoredMeaning(d: Danmaku)
    ensures var kept := Stored(d);
      kept == d.(status := kept.status) && kept.status == (if d.status == Unset then Approved else d.status)
  {
  }

  /** A listing's limit leaves the most recent: a suffix, of that length or the whole. */
  lemma LastOfMeaning<T>(s: seq<T>, limit: nat)
    ensures var last := LastOf(s, limit);
      && |last| == (if |s| <= limit then |s| else limit)
      && forall k :: 0 <= k < |last| ==> last[k] == s[|s| - |last| + k]
  {
  }

  /** A query's limit, when it is positive, leaves the first; otherwise everything. */
  lemma TakeMeaning<T>(s: seq<T>, limit: int)
    ensures var taken := Take(s, limit);
      && |taken| == (if 0 < limit <= |s| then limit else |s|)
      && forall k :: 0 <= k < |taken| ==> taken[k] == s[k]
  {
  }

  class MemoryStore {
    var danmakus: seq<Danmaku>

    constructor ()
      ensures danmakus == []
    {
      danmakus := [];
    }

    method Add(d: Danmaku)
      modifies this
      ensures danmakus == old(danmakus) + [Stored(d)]
    {
      danmakus := danmakus + [if d.status.Unset? then d.(status := Approved) else d];
    }

    method FindByID(id: string) returns (r: Option<Danmaku>)
      ensures r == Find(danmakus, id)
    {
      for i := 0 to |danmakus|
        invariant forall k :: 0 <= k < i ==> danmakus[k].id != id
      {
        if danmakus[i].id == id {
          return Some(danmakus[i]);
        }
      }
      return None;
    }

    method UpdateStatus(id: string, status: Status, reviewer: string, reason: string, at: int) returns (rows: int)
      modifies this
      ensures danmakus == WithStatus(old(danmakus), id, status, reviewer, reason, at)
      ensures rows == if Find(old(danmakus), id).Some? then 1 else 0
    {
      for i := 0 to |danmakus|
        invariant danmakus == old(danmakus)
        invariant forall k :: 0 <= k < i ==> danmakus[k].id != id
      {
        if danmakus[i].id == id {
          danmakus := danmakus[i := danmakus[i].(
            status := status, reviewedBy := reviewer, reviewedAt := Some(at), reviewReason := reason)];
          return 1;
        }
      }
      return 0;
    }

    /** The room's last approved messages, oldest first. */
    method ListByRoom(room: string, limit: nat) returns (result: seq<Danmaku>)
      ensures result == LastOf(ApprovedIn(danmakus, room), limit)
    {
      result := [];
      var i := |danmakus|;
      while i > 0 && |result| < limit
        invariant 0 <= i <= |danmakus| && |result| <= limit
        invariant Reverse(result) == ApprovedIn(danmakus[i..], room)
      {
        i := i - 1;
        var d := danmakus[i];
        OneMoreApproved(danmakus, i, room);
        ApprovedAlone(d, room);
        if d.roomId == room && d.status == Approved {
          ReverseOneMore(result, d);
          result := result + [d];
        }
      }
      SplitApproved(danmakus, i, room);
      result := ReverseInPlace(result);
    }

    /** The room's approved messages after a cursor, sorted by (timestamp, id), at most `limit` if it is positive. */
    method ListSince(room: string, since: Cursor, limit: int) returns (result: seq<Danmaku>)
      ensures result == Take(Sorted(Matching(danmakus, room, since)), limit)
    {
      result := [];
      for i := 0 to |danmakus|
        invariant result == Matching(danmakus[..i], room, since)
      {
        var d := danmakus[i];
        assert danmakus[..i + 1][..i] == danmakus[..i];
        if d.roomId == room && d.status == Approved {
          if since.time < d.timestamp || (d.timestamp == since.time && StringLess(since.id, d.id)) {
            result := result + [d];
          }
        }
      }
      assert danmakus[..|danmakus|] == danmakus;
      result := Sorted(result);
      if limit > 0 && |result| > limit {
        result := result[..limit];
      }
    }
  }

  /** The swapping loop at the end of ListByRoom. */
  method ReverseInPlace<T>(s: seq<T>) returns (r: seq<T>)
    ensures r == Reverse(s)
  {
    r := s;
    var i, j := 0, |s| - 1;
    while i < j
      invariant |r| == |s| && 0 <= i <= |s| && i + j == |s| - 1
      invariant forall k :: 0 <= k < |s| && (k < i || j < k) ==> r[k] == s[|s| - 1 - k]
      invariant forall k :: i <= k <= j ==> r[k] == s[k]
    {
      r := r[i := r[j]][j := r[i]];
      i, j := i + 1, j - 1;
    }
  }
}
