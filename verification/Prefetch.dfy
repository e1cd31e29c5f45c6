/** Receipts of speculative downloads, the candidates they offer, and their credit. */
module Prefetch {
  import opened Text
  import opened Seqs

  datatype Plan = Plan(session: string, plan: string, source: string)

  datatype Entry = Entry(key: string, bytes: int, finished: int, outcome: string, origin: Plan)

  datatype Operation = Get | List | Unrecognised

  datatype Accounting = Accounting(operation: Operation, listCount: Option<int>, entries: seq<Entry>)

  datatype Receipt = Receipt(origin: Plan, key: string, bytes: int, finished: int, outcome: string, requests: int,
                             accounting: Option<Accounting>)

  datatype Bucket = Failed | UnknownImportTime | UnknownDemand | Unused | DemandedUnconsumed | Duplicate
                  | UsefulBeforeDemand | EqualTimestamp | Late

  /** A payload to classify, with the plan whose group it counts in. */
  datatype Candidate = Candidate(entry: Entry, plan: Plan)

  /** The byte counters of one plan. */
  datatype Group = Group(received: int, useful: int, payload: map<Bucket, int>)

  const NEW_GROUP := Group(0, 0, map[])

  // ---- Which receipts are accepted, and what they offer ----

  function EntryBytes(entries: seq<Entry>): (n: int) {
    if entries == [] then 0 else EntryBytes(entries[..|entries| - 1]) + entries[|entries| - 1].bytes
  }

  predicate Accepted(receipt: Receipt) {
    && receipt.bytes >= 0
    && match receipt.accounting {
      case None => receipt.key == "" || receipt.requests >= 0
      case Some(a) =>
        && receipt.requests >= 0
        && match a.operation {
          case Unrecognised => false
          case List => a.entries == [] && (a.listCount.Some? ==> a.listCount.value >= 0)
          case Get =>
            && (a.entries == [] || receipt.key == "")
            && EntryBytes(a.entries) <= receipt.bytes
            && forall entry :: entry in a.entries ==> entry.bytes >= 0
        }
    }
  }

  /** A keyed receipt without accounting counts as a GET. */
  predicate IsGet(receipt: Receipt) {
    match receipt.accounting
    case None => receipt.key != ""
    case Some(a) => a.operation.Get?
  }

  function Received(receipt: Receipt): (n: int) {
    if IsGet(receipt) then receipt.bytes else 0
  }

  function Entries(receipt: Receipt): (entries: seq<Entry>) {
    if receipt.accounting.Some? then receipt.accounting.value.entries else []
  }

  /** Entries of another plan than their receipt's are dropped. */
  function OwnEntries(origin: Plan, entries: seq<Entry>): (r: seq<Candidate>) {
    if entries == [] then []
    else
      var last := entries[|entries| - 1];
      OwnEntries(origin, entries[..|entries| - 1]) + if last.origin == origin then [Candidate(last, origin)] else []
  }

  function OfferedBy(receipt: Receipt): (r: seq<Candidate>) {
    if !IsGet(receipt) then []
    else
      OwnEntries(receipt.origin, Entries(receipt))
      + if Entries(receipt) == [] && receipt.key != ""
        then [Candidate(Entry(receipt.key, receipt.bytes, receipt.finished, receipt.outcome, receipt.origin),
                        receipt.origin)]
        else []
  }

  function Offered(receipts: seq<Receipt>): (r: seq<Candidate>) {
    if receipts == [] then [] else Offered(receipts[..|receipts| - 1]) + OfferedBy(receipts[|receipts| - 1])
  }

  function ReceivedBy(plan: Plan, receipts: seq<Receipt>): (n: int) {
    if receipts == [] then 0
    else
      var last := receipts[|receipts| - 1];
      ReceivedBy(plan, receipts[..|receipts| - 1]) + if last.origin == plan then Received(last) else 0
  }

  function Origins(receipts: seq<Receipt>): (plans: set<Plan>) {
    set receipt | receipt in receipts :: receipt.origin
  }

  function GroupOf(groups: map<Plan, Group>, plan: Plan): (group: Group) {
    if plan in groups then groups[plan] else NEW_GROUP
  }

  function Receive(groups: map<Plan, Group>, plan: Plan, bytes: int): (r: map<Plan, Group>) {
    var group := GroupOf(groups, plan);
    groups[plan := group.(received := group.received + bytes)]
  }

  /** The groups once the receipts are read, and before any payload is classified. */
  function Groups(receipts: seq<Receipt>): (groups: map<Plan, Group>) {
    if receipts == [] then map[]
    else
      var last := receipts[|receipts| - 1];
      Receive(Groups(receipts[..|receipts| - 1]), last.origin, Received(last))
  }

  method GatherReceipts(receipts: seq<Receipt>) returns (r: Option<(map<Plan, Group>, seq<Candidate>)>)
    ensures r.Some? <==> forall receipt :: receipt in receipts ==> Accepted(receipt)
    ensures r.Some? ==> r.value == (Groups(receipts), Offered(receipts))
  {
    var groups: map<Plan, Group>, candidates: seq<Candidate> := map[], [];
    for i := 0 to |receipts|
      invariant forall k :: 0 <= k < i ==> Accepted(receipts[k])
      invariant groups == Groups(receipts[..i]) && candidates == Offered(receipts[..i])
    {
      assert receipts[..i + 1][..i] == receipts[..i];
      var read := ReadReceipt(receipts[i]);
      if read.None? {
        return None;
      }
      groups := Receive(groups, receipts[i].origin, read.value.0);
      candidates := candidates + read.value.1;
    }
    assert receipts[..|receipts|] == receipts;
    return Some((groups, candidates));
  }

  /** One receipt: the GET bytes it adds to its plan, and the candidates it offers. */
  method ReadReceipt(receipt: Receipt) returns (r: Option<(int, seq<Candidate>)>)
    ensures r.Some? <==> Accepted(receipt)
    ensures r.Some? ==> r.value == (Received(receipt), OfferedBy(receipt))
    ensures r.Some? && Unpacked(receipt) ==> r.value == (receipt.bytes, [Candidate(Whole(receipt), receipt.origin)])
    ensures r.Some? && Packed(receipt) ==>
      r.value.0 == receipt.bytes && AreOwn(r.value.1, receipt.accounting.value.entries, receipt.origin)
    ensures r.Some? && !Unpacked(receipt) && !Packed(receipt) ==> r.value == (0, [])
  {
    ReceiptOffers(receipt);
    if receipt.bytes < 0 {
      return None;
    }
    if receipt.accounting.None? && receipt.key == "" {
      return Some((0, []));
    }
    var operation := if receipt.accounting.None? then Get else receipt.accounting.value.operation;
    if operation.Unrecognised? || receipt.requests < 0 {
      return None;
    }
    var entries := if receipt.accounting.None? then [] else receipt.accounting.value.entries;
    if operation.List? {
      var count := receipt.accounting.value.listCount;
      if entries != [] || (count.Some? && count.value < 0) {
        return None;
      }
      return Some((0, []));
    }
    if (entries != [] && receipt.key != "") || EntryBytes(entries) > receipt.bytes {
      return None;
    }
    var own := OwnOrNegative(receipt.origin, entries);
    if own.None? {
      return None;
    }
    var candidates := own.value;
    assert candidates + [] == candidates;
    if entries == [] && receipt.key != "" {
      var entry := Entry(receipt.key, receipt.bytes, receipt.finished, receipt.outcome, receipt.origin);
      candidates := candidates + [Candidate(entry, receipt.origin)];
    }
    return Some((receipt.bytes, candidates));
  }

  // ---- What a receipt offers, by its own fields ----

  /** A keyed download: an ordinary GET, or one from before there was accounting. */
  predicate Unpacked(receipt: Receipt) {
    receipt.key != "" && (receipt.accounting.None? || receipt.accounting.value.operation == Get)
  }

  /** A GET whose entries name the payloads. */
  predicate Packed(receipt: Receipt) {
    receipt.key == "" && receipt.accounting.Some? && receipt.accounting.value.operation == Get
  }

  function Whole(receipt: Receipt): (entry: Entry) {
    Entry(receipt.key, receipt.bytes, receipt.finished, receipt.outcome, receipt.origin)
  }

  function From(origin: Plan): (own: Entry -> bool) {
    (entry: Entry) => entry.origin == origin
  }

  function CandidatesOf(entries: seq<Entry>, plan: Plan): (r: seq<Candidate>)
    ensures |r| == |entries| && forall i :: 0 <= i < |entries| ==> r[i] == Candidate(entries[i], plan)
  {
    seq(|entries|, i requires 0 <= i < |entries| => Candidate(entries[i], plan))
  }

  /** The candidates are exactly the entries of one origin, in order. */
  ghost predicate AreOwn(candidates: seq<Candidate>, entries: seq<Entry>, origin: Plan) {
    candidates == CandidatesOf(Filter(entries, From(origin)), origin)
  }

  lemma CandidatesSnoc(entries: seq<Entry>, entry: Entry, plan: Plan)
    ensures CandidatesOf(entries + [entry], plan) == CandidatesOf(entries, plan) + [Candidate(entry, plan)]
  {
  }

  lemma {:induction false} OwnEntriesAre(origin: Plan, entries: seq<Entry>)
    ensures AreOwn(OwnEntries(origin, entries), entries, origin)
  {
    if entries != [] {
      var (before, last) := (entries[..|entries| - 1], entries[|entries| - 1]);
      OwnEntriesAre(origin, before);
      TakeNext(entries, |entries| - 1);
      TakeAll(entries);
      FilterSnoc(before, last, From(origin));
      CandidatesSnoc(Filter(before, From(origin)), last, origin);
      AppendEmpty(OwnEntries(origin, before));
    }
  }

  /**
   An accepted receipt with a key offers itself, a packed one exactly the entries of its own plan, in order, and any
   other nothing; and only the first two count as received.
   */
  lemma ReceiptOffers(receipt: Receipt)
    ensures Accepted(receipt) && Unpacked(receipt) ==>
      Received(receipt) == receipt.bytes && OfferedBy(receipt) == [Candidate(Whole(receipt), receipt.origin)]
    ensures Packed(receipt) ==>
      Received(receipt) == receipt.bytes
      && AreOwn(OfferedBy(receipt), receipt.accounting.value.entries, receipt.origin)
    ensures !Unpacked(receipt) && !Packed(receipt) ==> Received(receipt) == 0 && OfferedBy(receipt) == []
  {
    OwnEntriesAre(receipt.origin, Entries(receipt));
    AppendEmpty(OwnEntries(receipt.origin, Entries(receipt)));
  }

  method OwnOrNegative(origin: Plan, entries: seq<Entry>) returns (r: Option<seq<Candidate>>)
    ensures r.Some? <==> forall entry :: entry in entries ==> entry.bytes >= 0
    ensures r.Some? ==> r.value == OwnEntries(origin, entries)
  {
    var own: seq<Candidate> := [];
    for i := 0 to |entries|
      invariant forall k :: 0 <= k < i ==> entries[k].bytes >= 0
      invariant own == OwnEntries(origin, entries[..i])
    {
      assert entries[..i + 1][..i] == entries[..i];
      if entries[i].bytes < 0 {
        return None;
      }
      if entries[i].origin != origin {
        continue;
      }
      own := own + [Candidate(entries[i], origin)];
    }
    assert entries[..|entries|] == entries;
    return Some(own);
  }

  lemma {:induction false} GroupsReceive(receipts: seq<Receipt>, plan: Plan)
    ensures GroupOf(Groups(receipts), plan) == Group(ReceivedBy(plan, receipts), 0, map[])
    ensures plan in Groups(receipts) <==> plan in Origins(receipts)
  {
    if receipts != [] {
      GroupsReceive(receipts[..|receipts| - 1], plan);
      assert receipts == receipts[..|receipts| - 1] + [receipts[|receipts| - 1]];
    }
  }

  // ---- A plan's payloads fit in what it received ----

  /** Payload bytes of one plan. */
  function PlanBytes(plan: Plan, candidates: seq<Candidate>): (n: int) {
    if candidates == [] then 0
    else
      var last := candidates[|candidates| - 1];
      PlanBytes(plan, candidates[..|candidates| - 1]) + if last.plan == plan then last.entry.bytes else 0
  }

  lemma {:induction false} PlanBytesAppend(plan: Plan, a: seq<Candidate>, b: seq<Candidate>)
    ensures PlanBytes(plan, a + b) == PlanBytes(plan, a) + PlanBytes(plan, b)
    decreases |b|
  {
    if b == [] {
      assert a + b == a;
    } else {
      assert (a + b)[..|a + b| - 1] == a + b[..|b| - 1];
      PlanBytesAppend(plan, a, b[..|b| - 1]);
    }
  }

  ghost predicate NonNegative(candidates: seq<Candidate>) {
    forall c :: c in candidates ==> c.entry.bytes >= 0
  }

  lemma {:induction false} OwnEntriesFit(origin: Plan, entries: seq<Entry>, plan: Plan)
    requires forall entry :: entry in entries ==> entry.bytes >= 0
    ensures NonNegative(OwnEntries(origin, entries)) && EntryBytes(entries) >= 0
    ensures PlanBytes(plan, OwnEntries(origin, entries)) <= if plan == origin then EntryBytes(entries) else 0
  {
    if entries != [] {
      var (before, last) := (entries[..|entries| - 1], entries[|entries| - 1]);
      assert forall entry :: entry in before ==> entry in entries;
      OwnEntriesFit(origin, before, plan);
      assert last in entries;
      if last.origin == origin {
        PlanBytesAppend(plan, OwnEntries(origin, before), [Candidate(last, origin)]);
      } else {
        assert OwnEntries(origin, before) + [] == OwnEntries(origin, before);
      }
    }
  }

  lemma OfferedByFits(receipt: Receipt, plan: Plan)
    requires Accepted(receipt)
    ensures NonNegative(OfferedBy(receipt))
    ensures PlanBytes(plan, OfferedBy(receipt)) <= if plan == receipt.origin then Received(receipt) else 0
  {
    if IsGet(receipt) {
      OwnEntriesFit(receipt.origin, Entries(receipt), plan);
      if Entries(receipt) != [] || receipt.key == "" {
        var own := OwnEntries(receipt.origin, Entries(receipt));
        assert own + [] == own;
      }
    }
  }

  lemma {:induction false} OfferedFits(receipts: seq<Receipt>, plan: Plan)
    requires forall receipt :: receipt in receipts ==> Accepted(receipt)
    ensures NonNegative(Offered(receipts))
    ensures PlanBytes(plan, Offered(receipts)) <= ReceivedBy(plan, receipts)
  {
    if receipts != [] {
      var (before, last) := (receipts[..|receipts| - 1], receipts[|receipts| - 1]);
      assert forall receipt :: receipt in before ==> receipt in receipts;
      OfferedFits(before, plan);
      assert last in receipts;
      OfferedByFits(last, plan);
      PlanBytesAppend(plan, Offered(before), OfferedBy(last));
    }
  }

  // ---- Classification ----

  /** First demands, consumed keys, known sessions, and the startup session if one may be joined. */
  datatype Timeline = Timeline(demands: map<(string, string), int>, consumed: set<(string, string)>,
                               sessions: set<string>, startup: Option<string>)

  const STARTUP_ORIGIN := Plan("", "", "unscoped")

  function KeyOf(t: Timeline, entry: Entry): (key: (string, string)) {
    if t.startup.Some? && t.startup.value != "" && entry.origin == STARTUP_ORIGIN
    then (t.startup.value, entry.key)
    else (entry.origin.session, entry.key)
  }

  function BucketOf(t: Timeline, credited: set<(string, string)>, entry: Entry): (bucket: Bucket) {
    var key := KeyOf(t, entry);
    if entry.outcome != "completed" then Failed
    else if entry.finished <= 0 then UnknownImportTime
    else if key.0 == "" || key.0 !in t.sessions then UnknownDemand
    else if key !in t.demands then Unused
    else if key !in t.consumed then DemandedUnconsumed
    else if key in credited then Duplicate
    else if entry.finished < t.demands[key] then UsefulBeforeDemand
    else if entry.finished == t.demands[key] then EqualTimestamp
    else Late
  }

  datatype Row = Row(candidate: Candidate, bucket: Bucket)

  function Credited(t: Timeline, rows: seq<Row>): (keys: set<(string, string)>) {
    set row | row in rows && row.bucket.UsefulBeforeDemand? :: KeyOf(t, row.candidate.entry)
  }

  /** Each candidate's bucket, given the keys credited before it. */
  function Rows(t: Timeline, candidates: seq<Candidate>): (rows: seq<Row>)
    ensures |rows| == |candidates|
    ensures forall i :: 0 <= i < |rows| ==> rows[i].candidate == candidates[i]
  {
    if candidates == [] then []
    else
      var (before, last) := (candidates[..|candidates| - 1], candidates[|candidates| - 1]);
      var rows := Rows(t, before);
      rows + [Row(last, BucketOf(t, Credited(t, rows), last.entry))]
  }

  // ---- Sorting by finish time, keeping the order of equal times ----

  function Insert(sorted: seq<Candidate>, c: Candidate): (r: seq<Candidate>) {
    if sorted != [] && sorted[|sorted| - 1].entry.finished > c.entry.finished
    then Insert(sorted[..|sorted| - 1], c) + [sorted[|sorted| - 1]]
    else sorted + [c]
  }

  function SortByFinish(candidates: seq<Candidate>): (r: seq<Candidate>) {
    if candidates == [] then []
    else Insert(SortByFinish(candidates[..|candidates| - 1]), candidates[|candidates| - 1])
  }

  ghost predicate ByFinish(candidates: seq<Candidate>) {
    forall i, j :: 0 <= i < j < |candidates| ==> candidates[i].entry.finished <= candidates[j].entry.finished
  }

  /** The new candidate goes after all that finished no later. */
  lemma {:induction false} InsertAt(sorted: seq<Candidate>, c: Candidate) returns (k: nat)
    requires ByFinish(sorted)
    ensures k <= |sorted| && Insert(sorted, c) == sorted[..k] + [c] + sorted[k..]
    ensures forall i :: 0 <= i < |sorted| ==> (sorted[i].entry.finished <= c.entry.finished <==> i < k)
  {
    if sorted != [] && sorted[|sorted| - 1].entry.finished > c.entry.finished {
      var before := sorted[..|sorted| - 1];
      k := InsertAt(before, c);
      SplitBeforeLast(sorted, k);
      AppendAssoc(sorted[..k] + [c], before[k..], [sorted[|sorted| - 1]]);
    } else {
      k := |sorted|;
      TakeAll(sorted);
      AppendEmpty(sorted + [c]);
    }
  }

  lemma SplitBeforeLast(s: seq<Candidate>, k: nat)
    requires k < |s|
    ensures s[..|s| - 1][..k] == s[..k] && s[k..] == s[..|s| - 1][k..] + [s[|s| - 1]]
  {
  }

  lemma InsertKeeps(sorted: seq<Candidate>, c: Candidate)
    requires ByFinish(sorted)
    ensures ByFinish(Insert(sorted, c)) && multiset(Insert(sorted, c)) == multiset(sorted) + multiset{c}
  {
    var k := InsertAt(sorted, c);
    InsertedByFinish(sorted, c, k);
    InsertedMultiset(sorted, c, k);
  }

  lemma InsertedMultiset(s: seq<Candidate>, c: Candidate, k: nat)
    requires k <= |s|
    ensures multiset(s[..k] + [c] + s[k..]) == multiset(s) + multiset{c}
  {
    assert s == s[..k] + s[k..];
  }

  lemma InsertedByFinish(s: seq<Candidate>, c: Candidate, k: nat)
    requires ByFinish(s) && k <= |s|
    requires forall i :: 0 <= i < |s| ==> (s[i].entry.finished <= c.entry.finished <==> i < k)
    ensures ByFinish(s[..k] + [c] + s[k..])
  {
    var r := s[..k] + [c] + s[k..];
    assert forall i :: 0 <= i < |r| ==> r[i] == if i < k then s[i] else if i == k then c else s[i - 1];
  }

  lemma {:induction false} SortKeeps(candidates: seq<Candidate>)
    ensures ByFinish(SortByFinish(candidates)) && multiset(SortByFinish(candidates)) == multiset(candidates)
  {
    if candidates != [] {
      var (before, last) := (candidates[..|candidates| - 1], candidates[|candidates| - 1]);
      SortKeeps(before);
      InsertKeeps(SortByFinish(before), last);
      assert candidates == before + [last];
    }
  }

  /** The sort keeps the order of candidates that finished at the same time. */
  lemma {:induction false} SortIsStable(candidates: seq<Candidate>, keep: Candidate -> bool, time: int)
    requires forall c :: keep(c) ==> c.entry.finished == time
    ensures Filter(SortByFinish(candidates), keep) == Filter(candidates, keep)
  {
    if candidates != [] {
      var (before, last) := (candidates[..|candidates| - 1], candidates[|candidates| - 1]);
      var sorted := SortByFinish(before);
      assert candidates == before + [last];
      FilterSnoc(before, last, keep);
      SortKeeps(before);
      SortIsStable(before, keep, time);
      InsertFiltered(sorted, last, keep, time);
    }
  }

  lemma InsertFiltered(sorted: seq<Candidate>, c: Candidate, keep: Candidate -> bool, time: int)
    requires ByFinish(sorted) && forall c :: keep(c) ==> c.entry.finished == time
    ensures Filter(Insert(sorted, c), keep) == if keep(c) then Filter(sorted, keep) + [c] else Filter(sorted, keep)
  {
    var k := InsertAt(sorted, c);
    InsertedFilter(sorted, c, k, keep, time);
  }

  lemma InsertedFilter(s: seq<Candidate>, c: Candidate, k: nat, keep: Candidate -> bool, time: int)
    requires k <= |s| && forall c :: keep(c) ==> c.entry.finished == time
    requires forall i :: k <= i < |s| ==> s[i].entry.finished > c.entry.finished
    ensures Filter(s[..k] + [c] + s[k..], keep) == if keep(c) then Filter(s, keep) + [c] else Filter(s, keep)
  {
    assert s == s[..k] + s[k..];
    FilterAppend(s[..k], s[k..], keep);
    FilterAppend(s[..k] + [c], s[k..], keep);
    FilterSnoc(s[..k], c, keep);
    if keep(c) {
      NoneKept(s[k..], keep);
      AppendEmpty(Filter(s[..k], keep));
      AppendEmpty(Filter(s[..k], keep) + [c]);
    }
  }

  lemma {:induction false} NoneKept(s: seq<Candidate>, keep: Candidate -> bool)
    requires forall i :: 0 <= i < |s| ==> !keep(s[i])
    ensures Filter(s, keep) == []
  {
    if s != [] {
      NoneKept(s[1..], keep);
    }
  }

  lemma {:induction false} SortKeepsBytes(candidates: seq<Candidate>, plan: Plan)
    ensures PlanBytes(plan, SortByFinish(candidates)) == PlanBytes(plan, candidates)
  {
    if candidates != [] {
      var (before, last) := (candidates[..|candidates| - 1], candidates[|candidates| - 1]);
      var sorted := SortByFinish(before);
      SortKeeps(before);
      SortKeepsBytes(before, plan);
      var k := InsertAt(sorted, last);
      InsertedBytes(sorted, last, k, plan);
    }
  }

  lemma InsertedBytes(s: seq<Candidate>, c: Candidate, k: nat, plan: Plan)
    requires k <= |s|
    ensures PlanBytes(plan, s[..k] + [c] + s[k..]) == PlanBytes(plan, s) + if c.plan == plan then c.entry.bytes else 0
  {
    assert s == s[..k] + s[k..];
    PlanBytesAppend(plan, s[..k], s[k..]);
    PlanBytesAppend(plan, s[..k] + [c], s[k..]);
    SnocInit(s[..k], c);
  }

  // ---- The counters ----

  function At(payload: map<Bucket, int>, bucket: Bucket): (n: int) {
    if bucket in payload then payload[bucket] else 0
  }

  /** A classified payload counts in its bucket, and in the useful bytes if credited. */
  function Count(group: Group, row: Row): (r: Group) {
    var bytes := row.candidate.entry.bytes;
    Group(group.received, group.useful + (if row.bucket.UsefulBeforeDemand? then bytes else 0),
          group.payload[row.bucket := At(group.payload, row.bucket) + bytes])
  }

  function CountAll(groups: map<Plan, Group>, rows: seq<Row>): (r: map<Plan, Group>) {
    if rows == [] then groups
    else
      var (before, last) := (CountAll(groups, rows[..|rows| - 1]), rows[|rows| - 1]);
      before[last.candidate.plan := Count(GroupOf(before, last.candidate.plan), last)]
  }

  /** The crediting loop over the candidates by finish time. */
  method CreditPayloads(t: Timeline, groups: map<Plan, Group>, candidates: seq<Candidate>)
    returns (groups': map<Plan, Group>, credited: set<(string, string)>, rows: seq<Row>)
    ensures rows == Rows(t, SortByFinish(candidates))
    ensures credited == Credited(t, rows) && groups' == CountAll(groups, rows)
  {
    var sorted := SortByFinish(candidates);
    groups', credited, rows := groups, {}, [];
    for i := 0 to |sorted|
      invariant rows == Rows(t, sorted[..i]) && credited == Credited(t, rows)
      invariant groups' == CountAll(groups, rows)
    {
      var entry, plan := sorted[i].entry, sorted[i].plan;
      var bucket, credits := Classify(t, credited, entry);
      var row := Row(sorted[i], bucket);
      RowsStep(t, sorted, i);
      CreditedSnoc(t, rows, row);
      CountSnoc(groups, rows, row);
      rows := rows + [row];
      if credits {
        credited := credited + {KeyOf(t, entry)};
      }
      groups' := groups'[plan := Count(GroupOf(groups', plan), row)];
    }
    assert sorted[..|sorted|] == sorted;
  }

  lemma RowsStep(t: Timeline, candidates: seq<Candidate>, i: nat)
    requires i < |candidates|
    ensures var rows := Rows(t, candidates[..i]);
      Rows(t, candidates[..i + 1]) == rows + [Row(candidates[i], BucketOf(t, Credited(t, rows), candidates[i].entry))]
  {
    assert candidates[..i + 1][..i] == candidates[..i];
  }

  lemma CreditedSnoc(t: Timeline, rows: seq<Row>, row: Row)
    ensures Credited(t, rows + [row])
         == Credited(t, rows) + if row.bucket.UsefulBeforeDemand? then {KeyOf(t, row.candidate.entry)} else {}
  {
    assert forall r :: r in rows + [row] <==> r in rows || r == row;
  }

  lemma CountSnoc(groups: map<Plan, Group>, rows: seq<Row>, row: Row)
    ensures var (before, plan) := (CountAll(groups, rows), row.candidate.plan);
      CountAll(groups, rows + [row]) == before[plan := Count(GroupOf(before, plan), row)]
  {
    assert (rows + [row])[..|rows|] == rows;
  }

  /** The chain of tests on one payload. */
  method Classify(t: Timeline, credited: set<(string, string)>, entry: Entry) returns (bucket: Bucket, credits: bool)
    ensures bucket == BucketOf(t, credited, entry) && (credits <==> bucket.UsefulBeforeDemand?)
  {
    var key := (entry.origin.session, entry.key);
    if t.startup.Some? && t.startup.value != "" && entry.origin == STARTUP_ORIGIN {
      key := (t.startup.value, entry.key);
    }
    credits := false;
    if entry.outcome != "completed" {
      bucket := Failed;
    } else if entry.finished <= 0 {
      bucket := UnknownImportTime;
    } else if key.0 == "" || key.0 !in t.sessions {
      bucket := UnknownDemand;
    } else if key !in t.demands {
      bucket := Unused;
    } else if key !in t.consumed {
      bucket := DemandedUnconsumed;
    } else if key in credited {
      bucket := Duplicate;
    } else if entry.finished < t.demands[key] {
      bucket, credits := UsefulBeforeDemand, true;
    } else if entry.finished == t.demands[key] {
      bucket := EqualTimestamp;
    } else {
      bucket := Late;
    }
  }
}
