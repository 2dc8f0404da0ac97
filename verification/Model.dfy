/** The records that the services and stores exchange (package model). */
module Model {
  datatype Option<+T> = None | Some(value: T)

  /** A danmaku's review status. `Unset` is the empty string, `Other` any text that is no known status. */
  datatype StatusText = Pending | Approved | Rejected | Flagged | Unset | Other(text: string)

  type Status = s: StatusText | s.Other? ==> s.text !in {"", "pending", "approved", "rejected", "flagged"}
    witness Pending

  datatype Danmaku = Danmaku(
    id: string,
    content: string,
    color: string,
    kind: string,
    fontSize: int,
    roomId: string,
    timestamp: int,
    userId: string,
    status: Status,
    reviewedBy: string,
    reviewedAt: Option<int>,
    reviewReason: string)

  /** What is handed to a room's viewers about its messages. */
  datatype Frame = Broadcast(dm: Danmaku) | Retract(messageId: string, reason: string)

  /** A frame and the room it is sent to. */
  datatype Sent = Sent(roomId: string, frame: Frame)
}

/** Go's order on strings, and the order of messages by (timestamp, id). */
module MessageOrder {
  import opened Model

  predicate StringLess(a: string, b: string) {
    b != "" && (a == "" || a[0] < b[0] || (a[0] == b[0] && StringLess(a[1..], b[1..])))
  }

  datatype Cursor = Cursor(time: int, id: string)

  function Key(d: Danmaku): Cursor {
    Cursor(d.timestamp, d.id)
  }

  /** The cursor condition of the history query. */
  predicate Before(a: Cursor, b: Cursor) {
    a.time < b.time || (a.time == b.time && StringLess(a.id, b.id))
  }

  lemma {:induction false} StringLessTotal(a: string, b: string)
    ensures StringLess(a, b) || StringLess(b, a) || a == b
    ensures !(StringLess(a, b) && StringLess(b, a)) && !StringLess(a, a)
  {
    if a != "" {
      StringLessTotal(a[1..], a[1..]);
      if b != "" {
        StringLessTotal(a[1..], b[1..]);
        if a[0] == b[0] && a[1..] == b[1..] {
          assert a == [a[0]] + a[1..] && b == [b[0]] + b[1..];
        }
      }
    }
  }

  lemma {:induction false} StringLessTransitive(a: string, b: string, c: string)
    requires StringLess(a, b) && StringLess(b, c)
    ensures StringLess(a, c)
  {
    if a != "" && a[0] == b[0] == c[0] {
      StringLessTransitive(a[1..], b[1..], c[1..]);
    }
  }

  lemma BeforeTotal(a: Cursor, b: Cursor)
    ensures Before(a, b) || Before(b, a) || a == b
    ensures !(Before(a, b) && Before(b, a)) && !Before(a, a)
  {
    StringLessTotal(a.id, b.id);
    StringLessTotal(a.id, a.id);
  }

  lemma BeforeTransitive(a: Cursor, b: Cursor, c: Cursor)
    requires Before(a, b) && Before(b, c)
    ensures Before(a, c)
  {
    if a.time == b.time == c.time {
      StringLessTransitive(a.id, b.id, c.id);
    }
  }

  // ----- Sorting -----

  /** No message is before an earlier one. */
  predicate InOrder(s: seq<Danmaku>) {
    forall i, j :: 0 <= i < j < |s| ==> !Before(Key(s[j]), Key(s[i]))
  }

  predicate StrictlyInOrder(s: seq<Danmaku>) {
    forall i, j :: 0 <= i < j < |s| ==> Before(Key(s[i]), Key(s[j]))
  }

  predicate DistinctKeys(s: seq<Danmaku>) {
    forall i, j :: 0 <= i < j < |s| ==> Key(s[i]) != Key(s[j])
  }

  function InsertSorted(d: Danmaku, s: seq<Danmaku>): seq<Danmaku> {
    if s == [] || Before(Key(d), Key(s[0])) then [d] + s else [s[0]] + InsertSorted(d, s[1..])
  }

  function Sorted(s: seq<Danmaku>): seq<Danmaku> {
    if s == [] then [] else InsertSorted(s[|s| - 1], Sorted(s[..|s| - 1]))
  }

  lemma NotBeforeTransitive(a: Cursor, b: Cursor, c: Cursor)
    requires !Before(b, a) && !Before(c, b)
    ensures !Before(c, a)
  {
    BeforeTotal(a, b);
    BeforeTotal(b, c);
    if Before(c, a) {
      if a != b { BeforeTransitive(c, a, b); }
    }
  }

  lemma {:induction false} InsertSortedKeeps(d: Danmaku, s: seq<Danmaku>)
    requires InOrder(s)
    ensures InOrder(InsertSorted(d, s)) && multiset(InsertSorted(d, s)) == multiset(s) + multiset{d}
  {
    if s == [] {
    } else if Before(Key(d), Key(s[0])) {
      forall j | 0 <= j < |s| ensures !Before(Key(s[j]), Key(d)) {
        BeforeTotal(Key(d), Key(s[0]));
        BeforeTotal(Key(s[0]), Key(s[0]));
        NotBeforeTransitive(Key(d), Key(s[0]), Key(s[j]));
      }
    } else {
      var r := InsertSorted(d, s[1..]);
      InsertSortedKeeps(d, s[1..]);
      assert s == [s[0]] + s[1..];
      forall j | 0 <= j < |r| ensures !Before(Key(r[j]), Key(s[0])) {
        assert r[j] in multiset(r);
        assert r[j] == d || r[j] in s[1..];
      }
    }
  }

  lemma {:induction false} SortedKeeps(s: seq<Danmaku>)
    ensures InOrder(Sorted(s)) && multiset(Sorted(s)) == multiset(s)
  {
    if s != [] {
      SortedKeeps(s[..|s| - 1]);
      InsertSortedKeeps(s[|s| - 1], Sorted(s[..|s| - 1]));
      assert s == s[..|s| - 1] + [s[|s| - 1]];
    }
  }

  lemma HeadOut(s: seq<Danmaku>)
    requires s != []
    ensures multiset(s[1..]) == multiset(s) - multiset{s[0]} && s[0] in multiset(s)
  {
    assert s == [s[0]] + s[1..];
  }

  lemma SameHead(s: seq<Danmaku>, t: seq<Danmaku>)
    requires InOrder(s) && InOrder(t) && multiset(s) == multiset(t) && DistinctKeys(s) && s != [] && t != []
    ensures s[0] == t[0]
  {
    HeadOut(s);
    HeadOut(t);
    var i :| 0 <= i < |t| && t[i] == s[0];
    var j :| 0 <= j < |s| && s[j] == t[0];
    BeforeTotal(Key(s[0]), Key(t[0]));
    assert Key(s[0]) == Key(s[j]);
  }

  /** Messages with distinct keys have one sorted arrangement, so it does not matter how it is found. */
  lemma {:induction false} OneSortedArrangement(s: seq<Danmaku>, t: seq<Danmaku>)
    requires InOrder(s) && InOrder(t) && multiset(s) == multiset(t) && DistinctKeys(s)
    ensures s == t
  {
    assert |s| == |multiset(s)| && |t| == |multiset(t)|;
    if s != [] {
      SameHead(s, t);
      HeadOut(s);
      HeadOut(t);
      OneSortedArrangement(s[1..], t[1..]);
    }
  }

  /** No two records of a store share an ID. */
  predicate UniqueIds(ds: seq<Danmaku>) {
    forall i, j :: 0 <= i < j < |ds| ==> ds[i].id != ds[j].id
  }

  ghost predicate KeysTellApart(m: multiset<Danmaku>) {
    (forall x :: m[x] <= 1) && (forall x, y :: x in m && y in m && Key(x) == Key(y) ==> x == y)
  }

  lemma {:induction false} DistinctKeysCounted(s: seq<Danmaku>)
    requires DistinctKeys(s)
    ensures KeysTellApart(multiset(s))
  {
    if s != [] {
      HeadOut(s);
      DistinctKeysCounted(s[1..]);
      forall y | y in multiset(s[1..]) ensures Key(y) != Key(s[0]) {
        var i :| 0 <= i < |s| - 1 && s[1..][i] == y;
        assert y == s[i + 1];
      }
      assert multiset(s) == multiset{s[0]} + multiset(s[1..]);
    }
  }

  lemma CountedDistinctKeys(s: seq<Danmaku>)
    requires KeysTellApart(multiset(s))
    ensures DistinctKeys(s)
  {
    forall i, j | 0 <= i < j < |s| ensures Key(s[i]) != Key(s[j]) {
      assert s == s[..j] + s[j..];
      assert s[..j][i] == s[i] && s[j..][0] == s[j];
      assert s[i] in multiset(s[..j]) && s[j] in multiset(s[j..]);
      assert s[i] in multiset(s) && s[j] in multiset(s);
    }
  }

  lemma SortedStrictly(s: seq<Danmaku>)
    requires DistinctKeys(s)
    ensures StrictlyInOrder(Sorted(s)) && DistinctKeys(Sorted(s))
  {
    SortedKeeps(s);
    DistinctKeysCounted(s);
    CountedDistinctKeys(Sorted(s));
    forall i, j | 0 <= i < j < |s| ensures Before(Key(Sorted(s)[i]), Key(Sorted(s)[j])) {
      BeforeTotal(Key(Sorted(s)[i]), Key(Sorted(s)[j]));
    }
  }
}
