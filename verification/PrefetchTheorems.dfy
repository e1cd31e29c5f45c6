/** What the byte counters and the credited keys of a qualification mean. */
module PrefetchTheorems {
  import opened Text
  import opened Seqs
  import opened Prefetch

  ghost predicate AllAccepted(receipts: seq<Receipt>) {
    forall receipt :: receipt in receipts ==> Accepted(receipt)
  }

  ghost function FinalRows(t: Timeline, receipts: seq<Receipt>): (rows: seq<Row>) {
    Rows(t, SortByFinish(Offered(receipts)))
  }

  ghost function FinalGroup(t: Timeline, receipts: seq<Receipt>, plan: Plan): (group: Group) {
    GroupOf(CountAll(Groups(receipts), FinalRows(t, receipts)), plan)
  }

  // ---- Conservation ----

  /** Bytes of one plan's payloads in one bucket. */
  function RowBytes(plan: Plan, bucket: Bucket, rows: seq<Row>): (n: int) {
    if rows == [] then 0
    else
      var last := rows[|rows| - 1];
      RowBytes(plan, bucket, rows[..|rows| - 1])
      + if last.candidate.plan == plan && last.bucket == bucket then last.candidate.entry.bytes else 0
  }

  lemma {:induction false} CountsRows(groups: map<Plan, Group>, rows: seq<Row>, plan: Plan, bucket: Bucket)
    ensures var (before, after) := (GroupOf(groups, plan), GroupOf(CountAll(groups, rows), plan));
      && after.received == before.received
      && At(after.payload, bucket) == At(before.payload, bucket) + RowBytes(plan, bucket, rows)
      && after.useful == before.useful + RowBytes(plan, UsefulBeforeDemand, rows)
  {
    if rows != [] {
      CountsRows(groups, rows[..|rows| - 1], plan, bucket);
    }
  }

  /** The bytes of a payload counter over all buckets. */
  function BucketTotal(bytes: Bucket -> int): (n: int) {
    bytes(Failed) + bytes(UnknownImportTime) + bytes(UnknownDemand) + bytes(Unused) + bytes(DemandedUnconsumed)
    + bytes(Duplicate) + bytes(UsefulBeforeDemand) + bytes(EqualTimestamp) + bytes(Late)
  }

  /** Each payload counts in exactly one bucket. */
  lemma {:induction false} BucketsPartition(t: Timeline, candidates: seq<Candidate>, plan: Plan)
    ensures BucketTotal(bucket => RowBytes(plan, bucket, Rows(t, candidates))) == PlanBytes(plan, candidates)
  {
    if candidates != [] {
      BucketsPartition(t, candidates[..|candidates| - 1], plan);
    }
  }

  lemma {:induction false} RowBytesBound(t: Timeline, candidates: seq<Candidate>, plan: Plan, bucket: Bucket)
    requires NonNegative(candidates)
    ensures 0 <= RowBytes(plan, bucket, Rows(t, candidates)) <= PlanBytes(plan, candidates)
  {
    if candidates != [] {
      assert candidates[|candidates| - 1] in candidates;
      RowBytesBound(t, candidates[..|candidates| - 1], plan, bucket);
    }
  }

  lemma FinalCounts(t: Timeline, receipts: seq<Receipt>, plan: Plan, bucket: Bucket)
    ensures FinalGroup(t, receipts, plan).received == ReceivedBy(plan, receipts)
    ensures At(FinalGroup(t, receipts, plan).payload, bucket) == RowBytes(plan, bucket, FinalRows(t, receipts))
    ensures FinalGroup(t, receipts, plan).useful == RowBytes(plan, UsefulBeforeDemand, FinalRows(t, receipts))
  {
    GroupsReceive(receipts, plan);
    CountsRows(Groups(receipts), FinalRows(t, receipts), plan, bucket);
  }

  /** A plan's buckets together hold exactly its candidates' bytes, never more than its GETs received. */
  lemma BucketsWithinReceived(t: Timeline, receipts: seq<Receipt>, plan: Plan)
    requires AllAccepted(receipts)
    ensures BucketTotal(bucket => At(FinalGroup(t, receipts, plan).payload, bucket))
         == PlanBytes(plan, Offered(receipts)) <= FinalGroup(t, receipts, plan).received
  {
    forall bucket
      ensures At(FinalGroup(t, receipts, plan).payload, bucket) == RowBytes(plan, bucket, FinalRows(t, receipts))
      ensures FinalGroup(t, receipts, plan).received == ReceivedBy(plan, receipts)
    {
      FinalCounts(t, receipts, plan, bucket);
    }
    BucketsPartition(t, SortByFinish(Offered(receipts)), plan);
    SortKeepsBytes(Offered(receipts), plan);
    OfferedFits(receipts, plan);
  }

  /** Useful bytes are the useful bucket, and at most what was received. */
  lemma UsefulWithinReceived(t: Timeline, receipts: seq<Receipt>, plan: Plan)
    requires AllAccepted(receipts)
    ensures var group := FinalGroup(t, receipts, plan);
      group.useful == At(group.payload, UsefulBeforeDemand) && 0 <= group.useful <= group.received
  {
    var sorted := SortByFinish(Offered(receipts));
    FinalCounts(t, receipts, plan, UsefulBeforeDemand);
    SortKeeps(Offered(receipts));
    SortKeepsBytes(Offered(receipts), plan);
    OfferedFits(receipts, plan);
    assert NonNegative(sorted) by {
      forall c | c in sorted
        ensures c.entry.bytes >= 0
      {
        assert c in multiset(sorted);
      }
    }
    RowBytesBound(t, sorted, plan, UsefulBeforeDemand);
  }

  function BytesOf(receipts: seq<Receipt>): (n: int) {
    if receipts == [] then 0 else receipts[0].bytes + BytesOf(receipts[1..])
  }

  function GetsOf(plan: Plan): (counts: Receipt -> bool) {
    (receipt: Receipt) => receipt.origin == plan && (Unpacked(receipt) || Packed(receipt))
  }

  lemma {:induction false} BytesSnoc(receipts: seq<Receipt>, receipt: Receipt)
    ensures BytesOf(receipts + [receipt]) == BytesOf(receipts) + receipt.bytes
  {
    if receipts == [] {
      AppendEmpty([receipt]);
    } else {
      AppendTail(receipts, [receipt]);
      BytesSnoc(receipts[1..], receipt);
    }
  }

  lemma {:induction false} ReceivedIsGets(plan: Plan, receipts: seq<Receipt>)
    ensures ReceivedBy(plan, receipts) == BytesOf(Filter(receipts, GetsOf(plan)))
  {
    if receipts != [] {
      var (before, last) := (receipts[..|receipts| - 1], receipts[|receipts| - 1]);
      assert receipts == before + [last];
      ReceivedIsGets(plan, before);
      FilterSnoc(before, last, GetsOf(plan));
      BytesSnoc(Filter(before, GetsOf(plan)), last);
      assert Received(last) == if Unpacked(last) || Packed(last) then last.bytes else 0;
    }
  }

  /** A plan has received the bytes of its GETs, one without accounting that has a key among them, and no others. */
  lemma PlanReceives(t: Timeline, receipts: seq<Receipt>, plan: Plan)
    ensures FinalGroup(t, receipts, plan).received == BytesOf(Filter(receipts, GetsOf(plan)))
  {
    FinalCounts(t, receipts, plan, Failed);
    ReceivedIsGets(plan, receipts);
  }

  // ---- Precision ----

  /** `useful / received`, reported only when the accounting is complete and something was received. */
  function Precision(useful: int, received: int, complete: bool): (p: Option<real>) {
    if complete && received != 0 then Some(useful as real / received as real) else None
  }

  /** A reported precision, times what was received, is what was useful; it is reported in no other case. */
  lemma PrecisionIs(useful: int, received: int, complete: bool, p: real)
    ensures Precision(useful, received, complete) == Some(p)
       <==> complete && received != 0 && p * received as real == useful as real
  {
    if received != 0 {
      var r := received as real;
      assert useful as real / r * r == useful as real;
      assert p * r == useful as real ==> p == useful as real / r;
    }
  }

  lemma PlanPrecision(t: Timeline, receipts: seq<Receipt>, plan: Plan, complete: bool)
    requires AllAccepted(receipts)
    ensures var group := FinalGroup(t, receipts, plan);
      var p := Precision(group.useful, group.received, complete);
      p.Some? ==> 0.0 <= p.value <= 1.0
  {
    UsefulWithinReceived(t, receipts, plan);
  }

  ghost function Total(f: Plan -> int, plans: set<Plan>): (n: int) {
    if plans == {} then 0
    else
      var plan :| plan in plans;
      f(plan) + Total(f, plans - {plan})
  }

  lemma {:induction false} TotalWithin(t: Timeline, receipts: seq<Receipt>, plans: set<Plan>)
    requires AllAccepted(receipts)
    ensures 0 <= Total(plan => FinalGroup(t, receipts, plan).useful, plans)
              <= Total(plan => FinalGroup(t, receipts, plan).received, plans)
    decreases |plans|
  {
    var useful := plan => FinalGroup(t, receipts, plan).useful;
    var received := plan => FinalGroup(t, receipts, plan).received;
    TotalMonotone(useful, received, plans) by {
      forall plan | plan in plans
        ensures 0 <= useful(plan) <= received(plan)
      {
        UsefulWithinReceived(t, receipts, plan);
      }
    }
  }

  lemma {:induction false} TotalSplit(f: Plan -> int, plans: set<Plan>, plan: Plan)
    requires plan in plans
    ensures Total(f, plans) == f(plan) + Total(f, plans - {plan})
    decreases |plans|
  {
    var picked :| picked in plans && Total(f, plans) == f(picked) + Total(f, plans - {picked});
    if picked != plan {
      TotalSplit(f, plans - {picked}, plan);
      TotalSplit(f, plans - {plan}, picked);
      assert plans - {picked} - {plan} == plans - {plan} - {picked};
    }
  }

  lemma {:induction false} TotalMonotone(f: Plan -> int, g: Plan -> int, plans: set<Plan>)
    requires forall plan :: plan in plans ==> 0 <= f(plan) <= g(plan)
    ensures 0 <= Total(f, plans) <= Total(g, plans)
    decreases |plans|
  {
    if plans != {} {
      var plan :| plan in plans;
      TotalSplit(f, plans, plan);
      TotalSplit(g, plans, plan);
      TotalMonotone(f, g, plans - {plan});
    }
  }

  /** Over all plans too, precision is at most one. */
  lemma OverallPrecision(t: Timeline, receipts: seq<Receipt>, complete: bool)
    requires AllAccepted(receipts)
    ensures var (useful, received) := (Total(plan => FinalGroup(t, receipts, plan).useful, Origins(receipts)),
                                       Total(plan => FinalGroup(t, receipts, plan).received, Origins(receipts)));
      var p := Precision(useful, received, complete);
      p.Some? ==> 0.0 <= p.value <= 1.0
  {
    TotalWithin(t, receipts, Origins(receipts));
  }

  // ---- Credit ----

  /** The session a payload is joined to: its own, or the startup session for one from before any build. */
  function DemandSession(t: Timeline, entry: Entry): (session: string) {
    if entry.origin == Plan("", "", "unscoped") && t.startup.Some? && t.startup.value != ""
    then t.startup.value
    else entry.origin.session
  }

  lemma KeyIs(t: Timeline, entry: Entry)
    ensures KeyOf(t, entry) == (DemandSession(t, entry), entry.key)
  {
  }

  /** A payload that was imported, at a known time, before the first demand of a consumed key. */
  predicate Qualifies(t: Timeline, entry: Entry, key: (string, string)) {
    && key == (DemandSession(t, entry), entry.key)
    && entry.outcome == "completed" && entry.finished > 0
    && key.0 != "" && key.0 in t.sessions
    && key in t.demands && key in t.consumed && entry.finished < t.demands[key]
  }

  lemma RowsPrefix(t: Timeline, candidates: seq<Candidate>, k: nat)
    requires k <= |candidates|
    ensures Rows(t, candidates)[..k] == Rows(t, candidates[..k])
    decreases |candidates|
  {
    if k < |candidates| {
      RowsPrefix(t, candidates[..|candidates| - 1], k);
      assert candidates[..|candidates| - 1][..k] == candidates[..k];
    } else {
      assert candidates[..k] == candidates;
    }
  }

  /** Each row's bucket is decided by the keys the rows before it credited. */
  lemma RowAt(t: Timeline, candidates: seq<Candidate>, i: nat)
    requires i < |candidates|
    ensures var rows := Rows(t, candidates);
      rows[i].bucket == BucketOf(t, Credited(t, rows[..i]), candidates[i].entry)
  {
    RowsPrefix(t, candidates, i);
    RowsPrefix(t, candidates, i + 1);
    RowsStep(t, candidates, i);
    assert Rows(t, candidates)[..i + 1][i] == Rows(t, candidates)[i];
  }

  lemma EarlierCredit(t: Timeline, rows: seq<Row>, i: nat, j: nat)
    requires i < j <= |rows| && rows[i].bucket.UsefulBeforeDemand?
    ensures KeyOf(t, rows[i].candidate.entry) in Credited(t, rows[..j])
  {
    assert rows[..j][i] == rows[i];
  }

  /** A completed payload with a known time whose key was demanded in a known session and consumed. */
  predicate Awaited(t: Timeline, entry: Entry) {
    var key := (DemandSession(t, entry), entry.key);
    && entry.outcome == "completed" && entry.finished > 0 && key.0 != "" && key.0 in t.sessions
    && key in t.demands && key in t.consumed
  }

  /** An earlier candidate of the same key qualifies. */
  ghost predicate Preceded(t: Timeline, candidates: seq<Candidate>, i: nat)
    requires i < |candidates|
  {
    var entry := candidates[i].entry;
    exists c :: c in candidates[..i] && Qualifies(t, c.entry, (DemandSession(t, entry), entry.key))
  }

  /** What puts a payload into each bucket. */
  lemma BucketMeaning(t: Timeline, candidates: seq<Candidate>, i: nat)
    requires i < |candidates|
    ensures var (bucket, entry) := (Rows(t, candidates)[i].bucket, candidates[i].entry);
      var session := DemandSession(t, entry);
      var (done, timed) := (entry.outcome == "completed", entry.finished > 0);
      var known := session != "" && session in t.sessions;
      var first := Awaited(t, entry) && !Preceded(t, candidates, i);
      && (bucket == Failed <==> !done)
      && (bucket == UnknownImportTime <==> done && !timed)
      && (bucket == UnknownDemand <==> done && timed && !known)
      && (bucket == Unused <==> done && timed && known && (session, entry.key) !in t.demands)
      && (bucket == DemandedUnconsumed <==>
            done && timed && known && (session, entry.key) in t.demands && (session, entry.key) !in t.consumed)
      && (bucket == Duplicate <==> Awaited(t, entry) && Preceded(t, candidates, i))
      && (bucket == UsefulBeforeDemand <==> first && entry.finished < t.demands[(session, entry.key)])
      && (bucket == EqualTimestamp <==> first && entry.finished == t.demands[(session, entry.key)])
      && (bucket == Late <==> first && entry.finished > t.demands[(session, entry.key)])
  {
    var entry := candidates[i].entry;
    KeyIs(t, entry);
    RowAt(t, candidates, i);
    RowsPrefix(t, candidates, i);
    CreditedExactly(t, candidates[..i], (DemandSession(t, entry), entry.key));
  }

  /** No session and key are credited twice, across all plans. */
  lemma {:induction false} NoDoubleCredit(t: Timeline, candidates: seq<Candidate>, i: nat, j: nat)
    requires i < j < |candidates|
    requires Rows(t, candidates)[i].bucket.UsefulBeforeDemand? && Rows(t, candidates)[j].bucket.UsefulBeforeDemand?
    ensures KeyOf(t, candidates[i].entry) != KeyOf(t, candidates[j].entry)
  {
    RowAt(t, candidates, j);
    EarlierCredit(t, Rows(t, candidates), i, j);
  }

  /** A qualifying payload is credited, unless its key already was. */
  lemma QualifyingIsCredited(t: Timeline, candidates: seq<Candidate>, i: nat, j: nat, key: (string, string))
    requires i < j <= |candidates| && Qualifies(t, candidates[i].entry, key)
    ensures key in Credited(t, Rows(t, candidates)[..j])
  {
    var rows := Rows(t, candidates);
    RowAt(t, candidates, i);
    if rows[i].bucket.UsefulBeforeDemand? {
      EarlierCredit(t, rows, i, j);
    } else {
      assert key in Credited(t, rows[..i]);
      var row :| row in rows[..i] && row.bucket.UsefulBeforeDemand? && KeyOf(t, row.candidate.entry) == key;
      var k :| 0 <= k < i && rows[k] == row;
      EarlierCredit(t, rows, k, j);
    }
  }

  /** A key is credited exactly when some payload qualifies, whatever the order. */
  lemma {:induction false} CreditedExactly(t: Timeline, candidates: seq<Candidate>, key: (string, string))
    ensures key in Credited(t, Rows(t, candidates))
       <==> exists c :: c in candidates && Qualifies(t, c.entry, key)
  {
    var rows := Rows(t, candidates);
    if key in Credited(t, rows) {
      var row :| row in rows && row.bucket.UsefulBeforeDemand? && KeyOf(t, row.candidate.entry) == key;
      var i :| 0 <= i < |rows| && rows[i] == row;
      RowAt(t, candidates, i);
      assert candidates[i] in candidates && Qualifies(t, candidates[i].entry, key);
    }
    if c :| c in candidates && Qualifies(t, c.entry, key) {
      var i :| 0 <= i < |candidates| && candidates[i] == c;
      QualifyingIsCredited(t, candidates, i, |candidates|, key);
      assert rows[..|candidates|] == rows;
    }
  }

  lemma {:induction false} OfferedFrom(receipts: seq<Receipt>, c: Candidate)
    ensures c in Offered(receipts) <==> exists receipt :: receipt in receipts && c in OfferedBy(receipt)
  {
    if receipts != [] {
      var (before, last) := (receipts[..|receipts| - 1], receipts[|receipts| - 1]);
      OfferedFrom(before, c);
      assert forall receipt :: receipt in receipts <==> receipt in before || receipt == last;
    }
  }

  /** The credited keys do not depend on the order, or the repetition, of the receipts. */
  lemma CreditIsOrderFree(t: Timeline, a: seq<Receipt>, b: seq<Receipt>)
    requires forall receipt :: receipt in a <==> receipt in b
    ensures Credited(t, FinalRows(t, a)) == Credited(t, FinalRows(t, b))
  {
    forall key
      ensures key in Credited(t, FinalRows(t, a)) <==> key in Credited(t, FinalRows(t, b))
    {
      CreditedFromReceipts(t, a, key);
      CreditedFromReceipts(t, b, key);
    }
  }

  /** A payload of a receipt: the download itself when it has a key and no entries, or an entry of its plan. */
  predicate PayloadOf(receipt: Receipt, entry: Entry) {
    match receipt.accounting
    case None => receipt.key != "" && entry == Whole(receipt)
    case Some(a) =>
      && a.operation == Get
      && if a.entries == [] then receipt.key != "" && entry == Whole(receipt)
         else entry in a.entries && entry.origin == receipt.origin
  }

  lemma {:induction false} OwnMembers(origin: Plan, entries: seq<Entry>, c: Candidate)
    ensures c in OwnEntries(origin, entries) <==> c.plan == origin && c.entry in entries && c.entry.origin == origin
  {
    if entries != [] {
      var (before, last) := (entries[..|entries| - 1], entries[|entries| - 1]);
      OwnMembers(origin, before, c);
      TakeNext(entries, |entries| - 1);
      TakeAll(entries);
      assert c.entry in entries <==> c.entry in before || c.entry == last;
    }
  }

  lemma OfferedPayload(receipt: Receipt, c: Candidate)
    ensures c in OfferedBy(receipt) <==> c.plan == receipt.origin && PayloadOf(receipt, c.entry)
  {
    OwnMembers(receipt.origin, Entries(receipt), c);
    AppendEmpty(OwnEntries(receipt.origin, Entries(receipt)));
  }

  /** A key is credited exactly when a payload of one of the receipts qualifies. */
  lemma CreditedFromReceipts(t: Timeline, receipts: seq<Receipt>, key: (string, string))
    ensures key in Credited(t, FinalRows(t, receipts))
       <==> exists receipt, entry :: receipt in receipts && PayloadOf(receipt, entry) && Qualifies(t, entry, key)
  {
    CreditedFromOffers(t, receipts, key);
    forall receipt, c: Candidate | receipt in receipts
      ensures c in OfferedBy(receipt) <==> c.plan == receipt.origin && PayloadOf(receipt, c.entry)
    {
      OfferedPayload(receipt, c);
    }
    if receipt, entry :| receipt in receipts && PayloadOf(receipt, entry) && Qualifies(t, entry, key) {
      assert Candidate(entry, receipt.origin) in OfferedBy(receipt);
    }
  }

  lemma CreditedFromOffers(t: Timeline, receipts: seq<Receipt>, key: (string, string))
    ensures key in Credited(t, FinalRows(t, receipts))
       <==> exists receipt, c :: receipt in receipts && c in OfferedBy(receipt) && Qualifies(t, c.entry, key)
  {
    var offered := Offered(receipts);
    SortKeeps(offered);
    CreditedExactly(t, SortByFinish(offered), key);
    forall c: Candidate
      ensures c in SortByFinish(offered) <==> exists receipt :: receipt in receipts && c in OfferedBy(receipt)
    {
      assert c in SortByFinish(offered) <==> c in multiset(SortByFinish(offered));
      assert c in offered <==> c in multiset(offered);
      OfferedFrom(receipts, c);
    }
  }

  /** The credited payload is the earliest completed one of its key. */
  lemma CreditedIsEarliest(t: Timeline, receipts: seq<Receipt>, i: nat, j: nat)
    requires i < |FinalRows(t, receipts)| && j < |FinalRows(t, receipts)|
    requires FinalRows(t, receipts)[i].bucket.UsefulBeforeDemand?
    requires var rows := FinalRows(t, receipts);
      var (credited, other) := (rows[i].candidate.entry, rows[j].candidate.entry);
      KeyOf(t, other) == KeyOf(t, credited) && other.outcome == "completed" && other.finished > 0
    ensures FinalRows(t, receipts)[i].candidate.entry.finished <= FinalRows(t, receipts)[j].candidate.entry.finished
  {
    var sorted := SortByFinish(Offered(receipts));
    SortKeeps(Offered(receipts));
    RowAt(t, sorted, i);
    if sorted[j].entry.finished < sorted[i].entry.finished {
      assert j < i;
      QualifyingIsCredited(t, sorted, j, i, KeyOf(t, sorted[i].entry));
    }
  }

  /** The payloads of a key that qualify and finished at `time`. */
  function QualifyingAt(t: Timeline, key: (string, string), time: int): (r: Candidate -> bool) {
    (c: Candidate) => Qualifies(t, c.entry, key) && c.entry.finished == time
  }

  lemma FilterFirst(s: seq<Candidate>, i: nat, keep: Candidate -> bool)
    requires i < |s| && keep(s[i]) && forall j :: 0 <= j < i ==> !keep(s[j])
    ensures Filter(s, keep) != [] && Filter(s, keep)[0] == s[i]
  {
    assert s == s[..i] + s[i..];
    FilterAppend(s[..i], s[i..], keep);
    NoneKept(s[..i], keep);
    DropNext(s, i);
    FilterStep(s[i..], keep);
    AppendEmpty(Filter(s[i..], keep));
  }

  /** Of the qualifying payloads with the credited finish time, the credited one is the first its receipts offered. */
  lemma {:induction false} CreditedIsFirstOffered(t: Timeline, receipts: seq<Receipt>, i: nat)
    requires i < |FinalRows(t, receipts)| && FinalRows(t, receipts)[i].bucket.UsefulBeforeDemand?
    ensures var credited := FinalRows(t, receipts)[i].candidate;
      var ties := Filter(Offered(receipts), QualifyingAt(t, KeyOf(t, credited.entry), credited.entry.finished));
      ties != [] && ties[0] == credited
  {
    var sorted := SortByFinish(Offered(receipts));
    var (key, time) := (KeyOf(t, sorted[i].entry), sorted[i].entry.finished);
    RowAt(t, sorted, i);
    forall j | 0 <= j < i
      ensures !Qualifies(t, sorted[j].entry, key)
    {
      if Qualifies(t, sorted[j].entry, key) {
        QualifyingIsCredited(t, sorted, j, i, key);
      }
    }
    FilterFirst(sorted, i, QualifyingAt(t, key, time));
    SortIsStable(Offered(receipts), QualifyingAt(t, key, time), time);
  }
}
