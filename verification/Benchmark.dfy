/** The load generator's statistics: deliveries counted once per listener and message, latencies derived from
    the table of sends, and nearest-rank percentiles. */
module Benchmark {
  import opened Counting

  datatype MessageId = MessageId(talkerId: int, seqNo: int, sendIdx: int)

  datatype SendRecord = SendRecord(id: MessageId, sendTime: int, expectedClients: int)

  datatype DeliveryRecord = DeliveryRecord(listenerId: int, messageId: MessageId, receiveTime: int)

  /** What the run itself reports: connections made and wanted, messages left to drain, errors, its settings. */
  datatype Outcome = Outcome(connSuccess: int, connTotal: int, drainRemaining: int, errors: int, config: string)

  /** Durations are in nanoseconds. */
  datatype Stats = Stats(
    outcome: Outcome,
    steadyDuration: int,
    sentCount: int,
    deliveryCount: int,
    expectedDeliveries: int,
    lossPct: real,
    sendQps: real,
    deliveryThroughput: real,
    p50: int,
    p95: int,
    p99: int)

  // ----- Percentiles -----

  function CeilDiv(a: int, b: int): int
    requires b > 0
  {
    (a + b - 1) / b
  }

  function LatPercentile(records: seq<int>, p: int): int {
    if records == [] then 0 else
    var idx := CeilDiv(|records| * p, 100) - 1;
    var fromZero := if idx < 0 then 0 else idx;
    records[if fromZero >= |records| then |records| - 1 else fromZero]
  }

  predicate IsSorted(s: seq<int>) {
    forall i, j :: 0 <= i < j < |s| ==> s[i] <= s[j]
  }

  function AtMost(x: int): int -> bool {
    (y: int) => y <= x
  }

  /** The smallest sample such that at least p percent of the samples are no larger. */
  ghost predicate IsPercentile(samples: seq<int>, p: int, r: int) {
    && r in samples
    && CountIf(samples, AtMost(r)) * 100 >= p * |samples|
    && (forall x :: x in samples && x < r ==> CountIf(samples, AtMost(x)) * 100 < p * |samples|)
  }

  lemma RankBounds(n: int, p: int)
    requires n > 0 && 1 <= p <= 100
    ensures 0 <= CeilDiv(n * p, 100) - 1 < n
    ensures CeilDiv(n * p, 100) * 100 >= p * n
    ensures (CeilDiv(n * p, 100) - 1) * 100 < p * n
  {
    assert n <= n * p <= n * 100;
  }

  /** At least i + 1 samples are no larger than the one at index i. */
  lemma EnoughBelow(sorted: seq<int>, i: nat)
    requires i < |sorted| && IsSorted(sorted)
    ensures CountIf(sorted, AtMost(sorted[i])) >= i + 1
  {
    assert sorted == sorted[..i + 1] + sorted[i + 1..];
    CountAfterConcat(sorted[..i + 1], sorted[i + 1..], AtMost(sorted[i]));
    AllCounted(sorted[..i + 1], AtMost(sorted[i]));
  }

  /** At most i samples are no larger than a value below the one at index i. */
  lemma FewBelow(sorted: seq<int>, i: nat, x: int)
    requires i < |sorted| && IsSorted(sorted) && x < sorted[i]
    ensures CountIf(sorted, AtMost(x)) <= i
  {
    assert sorted == sorted[..i] + sorted[i..];
    CountAfterConcat(sorted[..i], sorted[i..], AtMost(x));
    CountAtMostAll(sorted[..i], AtMost(x));
    NoneCounted(sorted[i..], AtMost(x));
  }

  lemma NearestRank(sorted: seq<int>, p: int)
    requires sorted != [] && IsSorted(sorted) && 1 <= p <= 100
    ensures IsPercentile(sorted, p, LatPercentile(sorted, p))
  {
    RankBounds(|sorted|, p);
    var idx := CeilDiv(|sorted| * p, 100) - 1;
    EnoughBelow(sorted, idx);
    forall x | x in sorted && x < sorted[idx] ensures CountIf(sorted, AtMost(x)) * 100 < p * |sorted| {
      FewBelow(sorted, idx, x);
    }
  }

  /** A percentile is a property of the samples, not of their order. */
  lemma PercentileOfPermutation(a: seq<int>, b: seq<int>, p: int, r: int)
    requires multiset(a) == multiset(b) && IsPercentile(a, p, r)
    ensures IsPercentile(b, p, r)
  {
    assert r in multiset(a);
    SameLength(a, b);
    SameCount(a, b, AtMost(r));
    forall x | x in b && x < r ensures CountIf(b, AtMost(x)) * 100 < p * |b| {
      assert x in multiset(a);
      SameCount(a, b, AtMost(x));
    }
  }

  lemma SameLength(a: seq<int>, b: seq<int>)
    requires multiset(a) == multiset(b)
    ensures |a| == |b|
  {
    assert |multiset(a)| == |a| && |multiset(b)| == |b|;
  }

  /** A higher percentile is never below a lower one; in particular there is only one value for each. */
  lemma PercentilesInOrder(samples: seq<int>, p: int, q: int, low: int, high: int)
    requires p <= q && IsPercentile(samples, p, low) && IsPercentile(samples, q, high)
    ensures low <= high
  {
    AtLeastAsMany(p, q, |samples|);
  }

  lemma AtLeastAsMany(p: int, q: int, n: nat)
    requires p <= q
    ensures p * n <= q * n
  {
  }

  function Insert(s: seq<int>, i: nat, x: int): seq<int>
    requires i <= |s|
  {
    s[..i] + [x] + s[i..]
  }

  lemma InsertedAt(s: seq<int>, i: nat, x: int, k: nat)
    requires i <= |s| && k <= |s|
    ensures |Insert(s, i, x)| == |s| + 1
    ensures Insert(s, i, x)[k] == if k < i then s[k] else if k == i then x else s[k - 1]
  {
  }

  lemma InsertKeepsSorted(s: seq<int>, i: nat, x: int)
    requires i <= |s| && IsSorted(s) && (i > 0 ==> s[i - 1] <= x) && (i < |s| ==> x < s[i])
    ensures IsSorted(Insert(s, i, x))
  {
    var r := Insert(s, i, x);
    forall a, b | 0 <= a < b < |r| ensures r[a] <= r[b] {
      InsertedAt(s, i, x, a);
      InsertedAt(s, i, x, b);
    }
  }

  lemma InsertAdds(s: seq<int>, i: nat, x: int)
    requires i <= |s|
    ensures multiset(Insert(s, i, x)) == multiset(s) + multiset{x}
  {
    assert s == s[..i] + s[i..];
  }

  method InsertSorted(s: seq<int>, x: int) returns (r: seq<int>)
    requires IsSorted(s)
    ensures IsSorted(r) && multiset(r) == multiset(s) + multiset{x}
  {
    var i := |s|;
    while i > 0 && s[i - 1] > x
      invariant 0 <= i <= |s|
      invariant i < |s| ==> s[i] > x
    {
      i := i - 1;
    }
    InsertKeepsSorted(s, i, x);
    InsertAdds(s, i, x);
    r := Insert(s, i, x);
  }

  method SortLatencies(latencies: seq<int>) returns (sorted: seq<int>)
    ensures IsSorted(sorted) && multiset(sorted) == multiset(latencies)
  {
    sorted := [];
    var i := 0;
    while i < |latencies|
      invariant 0 <= i <= |latencies|
      invariant IsSorted(sorted) && multiset(sorted) == multiset(latencies[..i])
    {
      sorted := InsertSorted(sorted, latencies[i]);
      assert latencies[..i + 1] == latencies[..i] + [latencies[i]];
      i := i + 1;
    }
    assert latencies[..|latencies|] == latencies;
  }

  method Percentiles(latencies: seq<int>) returns (p50: int, p95: int, p99: int)
    ensures latencies == [] ==> p50 == p95 == p99 == 0
    ensures latencies != [] ==>
      IsPercentile(latencies, 50, p50) && IsPercentile(latencies, 95, p95) && IsPercentile(latencies, 99, p99)
    ensures p50 <= p95 <= p99
  {
    p50, p95, p99 := 0, 0, 0;
    if latencies != [] {
      var sorted := SortLatencies(latencies);
      SameLength(sorted, latencies);
      p50, p95, p99 := LatPercentile(sorted, 50), LatPercentile(sorted, 95), LatPercentile(sorted, 99);
      NearestRank(sorted, 50);
      NearestRank(sorted, 95);
      NearestRank(sorted, 99);
      PercentileOfPermutation(sorted, latencies, 50, p50);
      PercentileOfPermutation(sorted, latencies, 95, p95);
      PercentileOfPermutation(sorted, latencies, 99, p99);
      PercentilesInOrder(latencies, 50, 95, p50, p95);
      PercentilesInOrder(latencies, 95, 99, p95, p99);
    }
  }

  // ----- Deliveries and their latencies -----

  /** What makes two deliveries the same: the listener and the message's send index. */
  function PairOf(d: DeliveryRecord): (int, int) {
    (d.listenerId, d.messageId.sendIdx)
  }

  function Pairs(deliveries: seq<DeliveryRecord>): set<(int, int)> {
    set d | d in deliveries :: PairOf(d)
  }

  /** The first delivery of each pair, in order of arrival. */
  function Firsts(deliveries: seq<DeliveryRecord>): seq<DeliveryRecord> {
    if deliveries == [] then [] else
    var before, last := deliveries[..|deliveries| - 1], deliveries[|deliveries| - 1];
    if PairOf(last) in Pairs(before) then Firsts(before) else Firsts(before) + [last]
  }

  /** The send time of each message, by send index; a later record of the same index replaces an earlier. */
  function SendTimes(sends: seq<SendRecord>): map<int, int> {
    if sends == [] then map[] else
    var last := sends[|sends| - 1];
    SendTimes(sends[..|sends| - 1])[last.id.sendIdx := last.sendTime]
  }

  predicate OneSendPerIndex(sends: seq<SendRecord>) {
    forall i, j :: 0 <= i < j < |sends| ==> sends[i].id.sendIdx != sends[j].id.sendIdx
  }

  predicate IsNewIn(sends: seq<SendRecord>, id: MessageId) {
    forall s :: s in sends ==> s.id.sendIdx != id.sendIdx
  }

  /** With indices handed out once, each message is given its own send time. */
  lemma {:induction false} SendTimesAreTheirOwn(sends: seq<SendRecord>)
    requires OneSendPerIndex(sends)
    ensures forall s :: s in sends ==> s.id.sendIdx in SendTimes(sends) && SendTimes(sends)[s.id.sendIdx] == s.sendTime
  {
    if sends != [] {
      var before, last := sends[..|sends| - 1], sends[|sends| - 1];
      SendTimesAreTheirOwn(before);
      forall s | s in sends ensures s.id.sendIdx in SendTimes(sends) && SendTimes(sends)[s.id.sendIdx] == s.sendTime {
        assert s != last ==> s in before;
      }
    }
  }

  predicate Counts(times: map<int, int>, d: DeliveryRecord) {
    d.messageId.sendIdx in times && d.receiveTime >= times[d.messageId.sendIdx]
  }

  /** The latencies of those deliveries whose message is known to have been sent, and not after it arrived. */
  function LatenciesOf(times: map<int, int>, firsts: seq<DeliveryRecord>): (r: seq<int>) {
    if firsts == [] then [] else
    var last := firsts[|firsts| - 1];
    LatenciesOf(times, firsts[..|firsts| - 1])
    + if Counts(times, last) then [last.receiveTime - times[last.messageId.sendIdx]] else []
  }

  predicate DistinctPairs(firsts: seq<DeliveryRecord>) {
    forall i, j :: 0 <= i < j < |firsts| ==> PairOf(firsts[i]) != PairOf(firsts[j])
  }

  lemma PairsAfter(before: seq<DeliveryRecord>, d: DeliveryRecord)
    ensures Pairs(before + [d]) == Pairs(before) + {PairOf(d)}
    ensures DistinctPairs(before) && PairOf(d) !in Pairs(before) ==> DistinctPairs(before + [d])
  {
  }

  /** First deliveries are one for each distinct pair. */
  lemma {:induction false} OnePerPair(deliveries: seq<DeliveryRecord>)
    ensures Pairs(Firsts(deliveries)) == Pairs(deliveries)
    ensures |Firsts(deliveries)| == |Pairs(deliveries)|
    ensures DistinctPairs(Firsts(deliveries))
  {
    if deliveries != [] {
      var before, last := deliveries[..|deliveries| - 1], deliveries[|deliveries| - 1];
      OnePerPair(before);
      assert deliveries == before + [last];
      PairsAfter(before, last);
      PairsAfter(Firsts(before), last);
    }
  }

  /** Exactly the countable first deliveries give a latency, so at most one for each pair. */
  lemma {:induction false} LatenciesCounted(times: map<int, int>, firsts: seq<DeliveryRecord>)
    ensures |LatenciesOf(times, firsts)| == CountIf(firsts, (d: DeliveryRecord) => Counts(times, d))
    ensures |LatenciesOf(times, firsts)| <= |firsts|
    ensures forall x :: x in LatenciesOf(times, firsts) ==> x >= 0
  {
    var counts := (d: DeliveryRecord) => Counts(times, d);
    if firsts != [] {
      var before, last := firsts[..|firsts| - 1], firsts[|firsts| - 1];
      LatenciesCounted(times, before);
      assert firsts == before + [last];
      CountAfterAppend(before, last, counts);
    }
  }

  predicate IsFirst(deliveries: seq<DeliveryRecord>, i: nat)
    requires i < |deliveries|
  {
    forall j :: 0 <= j < i ==> PairOf(deliveries[j]) != PairOf(deliveries[i])
  }

  predicate IsFirstIn(deliveries: seq<DeliveryRecord>, d: DeliveryRecord) {
    exists i: nat :: i < |deliveries| && deliveries[i] == d && IsFirst(deliveries, i)
  }

  lemma FirstStays(before: seq<DeliveryRecord>, last: DeliveryRecord, i: nat)
    requires i < |before|
    ensures IsFirst(before + [last], i) <==> IsFirst(before, i)
  {
    assert forall j :: 0 <= j <= i ==> (before + [last])[j] == before[j];
  }

  lemma LastIsFirst(before: seq<DeliveryRecord>, last: DeliveryRecord)
    ensures IsFirst(before + [last], |before|) <==> PairOf(last) !in Pairs(before)
  {
    assert forall j :: 0 <= j < |before| ==> (before + [last])[j] == before[j];
    if PairOf(last) in Pairs(before) {
      var d :| d in before && PairOf(d) == PairOf(last);
      var j :| 0 <= j < |before| && before[j] == d;
      assert PairOf((before + [last])[j]) == PairOf(last);
    }
  }

  lemma FirstInAfter(before: seq<DeliveryRecord>, last: DeliveryRecord, d: DeliveryRecord)
    ensures IsFirstIn(before + [last], d) <==> IsFirstIn(before, d) || (d == last && PairOf(last) !in Pairs(before))
  {
    LastIsFirst(before, last);
    if IsFirstIn(before, d) {
      var i: nat :| i < |before| && before[i] == d && IsFirst(before, i);
      FirstStays(before, last, i);
      assert (before + [last])[i] == d;
    }
    if IsFirstIn(before + [last], d) {
      var i: nat :| i < |before| + 1 && (before + [last])[i] == d && IsFirst(before + [last], i);
      if i < |before| {
        FirstStays(before, last, i);
      }
    }
  }

  /** The first deliveries are exactly those that no earlier one of the same pair precedes. */
  lemma {:induction false} FirstsMeaning(deliveries: seq<DeliveryRecord>, d: DeliveryRecord)
    ensures d in Firsts(deliveries) <==> IsFirstIn(deliveries, d)
  {
    if deliveries != [] {
      var before, last := deliveries[..|deliveries| - 1], deliveries[|deliveries| - 1];
      FirstsMeaning(before, d);
      FirstInAfter(before, last, d);
      assert deliveries == before + [last];
    }
  }

  function IsTime(x: int): int -> bool {
    (y: int) => y == x
  }

  /** Some recorded send of this message was that long before its delivery. */
  predicate Took(sends: seq<SendRecord>, d: DeliveryRecord, x: int) {
    x >= 0 && exists s | s in sends :: s.id.sendIdx == d.messageId.sendIdx && d.receiveTime - s.sendTime == x
  }

  lemma {:induction false} TimesAreOfSends(sends: seq<SendRecord>, idx: int)
    ensures idx in SendTimes(sends) ==>
      exists s | s in sends :: s.id.sendIdx == idx && s.sendTime == SendTimes(sends)[idx]
  {
    if sends != [] {
      var before, last := sends[..|sends| - 1], sends[|sends| - 1];
      TimesAreOfSends(before, idx);
      assert last in sends;
      if idx in SendTimes(sends) && idx != last.id.sendIdx {
        var s :| s in before && s.id.sendIdx == idx && s.sendTime == SendTimes(before)[idx];
        assert s in sends;
      }
    }
  }

  lemma CountsMeaning(sends: seq<SendRecord>, d: DeliveryRecord, x: int)
    requires OneSendPerIndex(sends)
    ensures var times := SendTimes(sends);
      Took(sends, d, x) <==> Counts(times, d) && d.receiveTime - times[d.messageId.sendIdx] == x
  {
    SendTimesAreTheirOwn(sends);
    TimesAreOfSends(sends, d.messageId.sendIdx);
  }

  /** With indices handed out once, each latency is derived exactly as often as a first delivery took that long. */
  lemma {:induction false} DerivedExactly(sends: seq<SendRecord>, firsts: seq<DeliveryRecord>, x: int)
    requires OneSendPerIndex(sends)
    ensures CountIf(LatenciesOf(SendTimes(sends), firsts), IsTime(x))
         == CountIf(firsts, (d: DeliveryRecord) => Took(sends, d, x))
  {
    var took := (d: DeliveryRecord) => Took(sends, d, x);
    if firsts != [] {
      var before, last := firsts[..|firsts| - 1], firsts[|firsts| - 1];
      DerivedExactly(sends, before, x);
      assert firsts == before + [last];
      CountAfterAppend(before, last, took);
      CountsMeaning(sends, last, x);
      var latencies := LatenciesOf(SendTimes(sends), before);
      if Counts(SendTimes(sends), last) {
        CountAfterAppend(latencies, last.receiveTime - SendTimes(sends)[last.messageId.sendIdx], IsTime(x));
      } else {
        assert latencies + [] == latencies;
      }
    }
  }

  function TotalExpected(sends: seq<SendRecord>): int {
    if sends == [] then 0 else TotalExpected(sends[..|sends| - 1]) + sends[|sends| - 1].expectedClients
  }

  function InWindow(from: int, to: int): SendRecord -> bool {
    (s: SendRecord) => from <= s.sendTime <= to
  }

  method CountDeliveries(deliveries: seq<DeliveryRecord>) returns (n: int)
    ensures n == |Pairs(deliveries)|
  {
    var dedup: set<(int, int)> := {};
    var i := 0;
    while i < |deliveries|
      invariant 0 <= i <= |deliveries|
      invariant dedup == Pairs(deliveries[..i])
    {
      dedup := dedup + {PairOf(deliveries[i])};
      assert deliveries[..i + 1] == deliveries[..i] + [deliveries[i]];
      i := i + 1;
    }
    assert deliveries[..|deliveries|] == deliveries;
    n := |dedup|;
  }

  method SumSends(sends: seq<SendRecord>, from: int, to: int) returns (expected: int, steady: int)
    ensures expected == TotalExpected(sends) && steady == CountIf(sends, InWindow(from, to))
  {
    expected, steady := 0, 0;
    var i := 0;
    while i < |sends|
      invariant 0 <= i <= |sends|
      invariant expected == TotalExpected(sends[..i]) && steady == CountIf(sends[..i], InWindow(from, to))
    {
      var s := sends[i];
      assert sends[..i + 1] == sends[..i] + [s];
      CountAfterAppend(sends[..i], s, InWindow(from, to));
      expected := expected + s.expectedClients;
      if (s.sendTime == from || s.sendTime > from) && (s.sendTime < to || s.sendTime == to) {
        steady := steady + 1;
      }
      i := i + 1;
    }
    assert sends[..|sends|] == sends;
  }

  function Seconds(duration: int): real {
    duration as real / 1000000000.0
  }

  /** The loss rate is the share of expected deliveries that are missing, none when there are too many. */
  predicate IsLoss(lossPct: real, expected: int, delivered: int) {
    if expected <= 0 || delivered >= expected then lossPct == 0.0
    else lossPct * (expected as real) == (expected - delivered) as real * 100.0 && 0.0 < lossPct <= 100.0
  }

  /** What the statistics must be for these records and latencies. */
  ghost predicate Describes(st: Stats, sends: seq<SendRecord>, deliveries: seq<DeliveryRecord>, latencies: seq<int>,
                            from: int, to: int)
  {
    && st.steadyDuration == (if to - from <= 0 then 1000000 else to - from)
    && st.sentCount == |sends|
    && st.deliveryCount == |Pairs(deliveries)|
    && st.expectedDeliveries == TotalExpected(sends)
    && IsLoss(st.lossPct, st.expectedDeliveries, st.deliveryCount)
    && st.sendQps * Seconds(st.steadyDuration) == CountIf(sends, InWindow(from, to)) as real
    && st.deliveryThroughput * Seconds(st.steadyDuration) == st.deliveryCount as real
    && (latencies == [] ==> st.p50 == st.p95 == st.p99 == 0)
    && (latencies != [] ==>
          && IsPercentile(latencies, 50, st.p50) && IsPercentile(latencies, 95, st.p95)
          && IsPercentile(latencies, 99, st.p99))
    && st.p50 <= st.p95 <= st.p99
  }

  method LossPercent(expected: int, delivered: nat) returns (lossPct: real)
    ensures IsLoss(lossPct, expected, delivered)
  {
    lossPct := 0.0;
    if expected > 0 {
      lossPct := (expected - delivered) as real / expected as real * 100.0;
      ShareOf(expected - delivered, expected);
      if lossPct < 0.0 {
        lossPct := 0.0;
      }
    }
  }

  lemma ShareOf(part: int, whole: int)
    requires whole > 0 && part <= whole
    ensures var pct := part as real / whole as real * 100.0;
      && pct * (whole as real) == part as real * 100.0 && pct <= 100.0
      && (part > 0 ==> pct > 0.0) && (part == 0 ==> pct == 0.0) && (part < 0 ==> pct < 0.0)
  {
    var share := part as real / whole as real;
    assert share * (whole as real) == part as real;
    assert part > 0 ==> share > 0.0;
    assert part < 0 ==> share < 0.0;
    var rest := (whole - part) as real / whole as real;
    assert rest >= 0.0 && share + rest == 1.0;
  }

  method ComputeStats(sends: seq<SendRecord>, deliveries: seq<DeliveryRecord>, latencies: seq<int>, from: int, to: int,
                      outcome: Outcome)
    returns (st: Stats)
    ensures Describes(st, sends, deliveries, latencies, from, to) && st.outcome == outcome
  {
    var steadyDuration := to - from;
    if steadyDuration <= 0 {
      steadyDuration := 1000000;
    }
    var deliveryCount := CountDeliveries(deliveries);
    var expected, steady := SumSends(sends, from, to);
    var lossPct := LossPercent(expected, deliveryCount);
    var sendQps := steady as real / Seconds(steadyDuration);
    var throughput := deliveryCount as real / Seconds(steadyDuration);
    var p50, p95, p99 := Percentiles(latencies);
    st := Stats(outcome, steadyDuration, |sends|, deliveryCount, expected, lossPct, sendQps, throughput, p50, p95, p99);
  }

  class BenchmarkTracker {
    var sends: seq<SendRecord>
    var deliveries: seq<DeliveryRecord>
    var latencies: seq<int>
    var sendIdx: int

    constructor ()
      ensures sends == [] && deliveries == [] && latencies == [] && sendIdx == 0
    {
      sends, deliveries, latencies, sendIdx := [], [], [], 0;
    }

    /** Every recorded send has an index that was handed out, and no two the same. */
    ghost predicate Issued()
      reads this`sends, this`sendIdx
    {
      OneSendPerIndex(sends) && forall s :: s in sends ==> 0 < s.id.sendIdx <= sendIdx
    }

    /** Hands out an index that no recorded send has. */
    method NextMessageId(talkerId: int, seqNo: int) returns (id: MessageId)
      modifies this`sendIdx
      ensures sendIdx == old(sendIdx) + 1 && id == MessageId(talkerId, seqNo, sendIdx)
      ensures old(Issued()) && old(sendIdx) >= 0 ==> Issued() && IsNewIn(sends, id)
    {
      sendIdx := sendIdx + 1;
      id := MessageId(talkerId, seqNo, sendIdx);
    }

    method RecordSend(id: MessageId, sendTime: int, expectedClients: int)
      modifies this`sends
      ensures sends == old(sends) + [SendRecord(id, sendTime, expectedClients)]
      ensures old(Issued()) && 0 < id.sendIdx <= sendIdx && IsNewIn(old(sends), id) ==> Issued()
    {
      sends := sends + [SendRecord(id, sendTime, expectedClients)];
    }

    method RecordDelivery(listenerId: int, messageId: MessageId, receiveTime: int)
      modifies this`deliveries
      ensures deliveries == old(deliveries) + [DeliveryRecord(listenerId, messageId, receiveTime)]
    {
      deliveries := deliveries + [DeliveryRecord(listenerId, messageId, receiveTime)];
    }

    method RecordLatency(latency: int)
      modifies this`latencies
      ensures latencies == old(latencies) + [latency]
    {
      latencies := latencies + [latency];
    }

    /** Works on copies of what has been recorded. The recorded latencies and the derived ones together are
        what the percentiles are taken of; no pair contributes more than once. */
    method Compute(from: int, to: int, outcome: Outcome) returns (st: Stats)
      ensures Describes(st, sends, deliveries, latencies + LatenciesOf(SendTimes(sends), Firsts(deliveries)), from, to)
      ensures |LatenciesOf(SendTimes(sends), Firsts(deliveries))| <= st.deliveryCount == |Firsts(deliveries)|
    {
      var sendTimes := Table(sends);
      var lats := Derive(deliveries, sendTimes, latencies);
      OnePerPair(deliveries);
      LatenciesCounted(sendTimes, Firsts(deliveries));
      st := ComputeStats(sends, deliveries, lats, from, to, outcome);
    }
  }

  method Table(sends: seq<SendRecord>) returns (sendTimes: map<int, int>)
    ensures sendTimes == SendTimes(sends)
  {
    sendTimes := map[];
    var i := 0;
    while i < |sends|
      invariant 0 <= i <= |sends|
      invariant sendTimes == SendTimes(sends[..i])
    {
      sendTimes := sendTimes[sends[i].id.sendIdx := sends[i].sendTime];
      assert sends[..i + 1] == sends[..i] + [sends[i]];
      i := i + 1;
    }
    assert sends[..|sends|] == sends;
  }

  /** The latency of one delivery, if its message is known to have been sent and not after it arrived. */
  method LatencyOf(sendTimes: map<int, int>, d: DeliveryRecord) returns (latency: seq<int>)
    ensures latency == if Counts(sendTimes, d) then [d.receiveTime - sendTimes[d.messageId.sendIdx]] else []
  {
    latency := [];
    if d.messageId.sendIdx in sendTimes && d.receiveTime >= sendTimes[d.messageId.sendIdx] {
      latency := [d.receiveTime - sendTimes[d.messageId.sendIdx]];
    }
  }

  /** Adds one latency for each distinct (listener, message) whose send is known, from its first delivery. */
  method Derive(deliveries: seq<DeliveryRecord>, sendTimes: map<int, int>, recorded: seq<int>) returns (lats: seq<int>)
    ensures lats == recorded + LatenciesOf(sendTimes, Firsts(deliveries))
  {
    lats := recorded;
    var seen: set<(int, int)> := {};
    ghost var firsts: seq<DeliveryRecord> := [];
    ghost var derived: seq<int> := [];
    var i := 0;
    while i < |deliveries|
      invariant 0 <= i <= |deliveries|
      invariant seen == Pairs(deliveries[..i]) && firsts == Firsts(deliveries[..i])
      invariant lats == recorded + derived && derived == LatenciesOf(sendTimes, firsts)
    {
      var d := deliveries[i];
      FirstsAfter(deliveries, i);
      if PairOf(d) !in seen {
        seen := seen + {PairOf(d)};
        var latency := LatencyOf(sendTimes, d);
        LatenciesAfter(sendTimes, firsts, d);
        firsts := firsts + [d];
        AppendedLast(recorded, derived, latency);
        lats, derived := lats + latency, derived + latency;
      }
      i := i + 1;
    }
    assert deliveries[..|deliveries|] == deliveries;
  }

  lemma AppendedLast(a: seq<int>, b: seq<int>, c: seq<int>)
    ensures a + b + c == a + (b + c)
  {
  }

  lemma FirstsAfter(deliveries: seq<DeliveryRecord>, i: nat)
    requires i < |deliveries|
    ensures var before, d := deliveries[..i], deliveries[i];
      && Pairs(deliveries[..i + 1]) == Pairs(before) + {PairOf(d)}
      && Firsts(deliveries[..i + 1]) == if PairOf(d) in Pairs(before) then Firsts(before) else Firsts(before) + [d]
  {
    var before, d := deliveries[..i], deliveries[i];
    assert deliveries[..i + 1] == before + [d];
    assert (before + [d])[..i] == before;
    PairsAfter(before, d);
  }

  lemma LatenciesAfter(times: map<int, int>, firsts: seq<DeliveryRecord>, d: DeliveryRecord)
    ensures LatenciesOf(times, firsts + [d])
      == LatenciesOf(times, firsts) + if Counts(times, d) then [d.receiveTime - times[d.messageId.sendIdx]] else []
  {
    assert (firsts + [d])[..|firsts|] == firsts;
  }
}
