/** The demands, consumed keys and receipts a qualification is made from. */
module PrefetchTimeline {
  import opened Text
  import opened Seqs
  import opened Prefetch
  import opened PrefetchTheorems

  type Key = (string, string)

  datatype Observation = Observation(key: string, at: int)

  /** A compiled unit; `timing` is that of its prefetch marker, if it has one. */
  datatype Unit = Unit(crateName: string, key: string, result: string, eventSchema: int,
                       timing: Option<string>, observations: seq<Observation>)

  datatype Record = Record(schema: int, session: string, units: seq<Unit>)

  const LOCAL_ONLY_UNITS := {"build_script_run"}
  const PREFETCH_TIMINGS := {"before_demand", "in_flight", "after_demand"}
  const HITS := {"local_hit", "prefetch_hit", "remote_hit"}

  // ---- What the records say ----

  predicate UnitOk(schema: int, unit: Unit) {
    if unit.crateName == "build_script_run"
    then unit.observations == [] && unit.timing.None? && unit.result !in {"remote_hit", "prefetch_hit"}
    else
      && (unit.timing.Some? ==>
            schema >= 7 && unit.timing.value in {"before_demand", "in_flight", "after_demand"})
      && (unit.key != "" ==> unit.eventSchema >= 20 && exists o :: o in unit.observations && o.key == unit.key)
      && forall o :: o in unit.observations ==> o.at > 0
  }

  predicate RecordsOk(records: seq<Record>) {
    forall record, unit :: record in records && unit in record.units ==> UnitOk(record.schema, unit)
  }

  /** The demands of each session, with their times. */
  ghost function Observed(session: string, observations: seq<Observation>): set<(Key, int)> {
    set o | o in observations :: ((session, o.key), o.at)
  }

  ghost function Demanded(records: seq<Record>): set<(Key, int)> {
    set record, unit, o | record in records && unit in record.units && o in unit.observations ::
      ((record.session, o.key), o.at)
  }

  ghost function Consumed(records: seq<Record>): set<Key> {
    set record, unit | record in records && unit in record.units && Consumes(unit) :: (record.session, unit.key)
  }

  predicate Consumes(unit: Unit) {
    && unit.crateName != "build_script_run"
    && (unit.result == "local_hit" || unit.result == "prefetch_hit" || unit.result == "remote_hit")
  }

  /** `demands` holds the earliest time of each key demanded, and no other key. */
  ghost predicate Earliest(demands: map<Key, int>, demanded: set<(Key, int)>) {
    && (forall key :: key in demands ==> (key, demands[key]) in demanded)
    && (forall d :: d in demanded ==> d.0 in demands && demands[d.0] <= d.1)
  }

  lemma {:induction false} EarliestIsUnique(a: map<Key, int>, b: map<Key, int>, demanded: set<(Key, int)>)
    requires Earliest(a, demanded) && Earliest(b, demanded)
    ensures a == b
  {
    forall key
      ensures key in a <==> key in b
      ensures key in a ==> key in b && a[key] == b[key]
    {
      if key in a {
        assert (key, a[key]) in demanded;
      }
      if key in b {
        assert (key, b[key]) in demanded;
      }
    }
  }

  // ---- Collecting them ----

  method CollectDemands(records: seq<Record>) returns (r: Option<(map<Key, int>, set<Key>)>)
    ensures r.Some? <==> RecordsOk(records) && Demanded(records) != {} && Consumed(records) != {}
    ensures r.Some? ==> Earliest(r.value.0, Demanded(records)) && r.value.1 == Consumed(records)
  {
    var demands: map<Key, int>, consumed: set<Key> := map[], {};
    for i := 0 to |records|
      invariant RecordsOk(records[..i])
      invariant Earliest(demands, Demanded(records[..i])) && consumed == Consumed(records[..i])
    {
      assert records[..i + 1] == records[..i] + [records[i]];
      RecordsAppend(records[..i], records[i]);
      var ok;
      ok, demands, consumed := CollectRecord(records[i], demands, consumed, Demanded(records[..i]));
      if !ok {
        OneBadRecord(records, i);
        return None;
      }
    }
    assert records[..|records|] == records;
    if demands == map[] || consumed == {} {
      NoDemands(demands, Demanded(records));
      return None;
    }
    NoDemands(demands, Demanded(records));
    return Some((demands, consumed));
  }

  method CollectRecord(record: Record, demands: map<Key, int>, consumed: set<Key>, ghost demanded: set<(Key, int)>)
    returns (ok: bool, demands': map<Key, int>, consumed': set<Key>)
    requires Earliest(demands, demanded)
    ensures ok <==> RecordsOk([record])
    ensures ok ==> Earliest(demands', demanded + Demanded([record])) && consumed' == consumed + Consumed([record])
  {
    demands', consumed' := demands, consumed;
    NoUnits(record, demanded, consumed);
    for j := 0 to |record.units|
      invariant RecordsOk([First(record, j)])
      invariant Earliest(demands', demanded + Demanded([First(record, j)]))
      invariant consumed' == consumed + Consumed([First(record, j)])
    {
      var unit := record.units[j];
      UnitsStep(record, j);
      var fine;
      fine, demands' := CollectUnit(record.schema, record.session, unit, demands',
                                    demanded + Demanded([First(record, j)]));
      if !fine {
        OneBadUnit(record, j);
        return false, demands', consumed';
      }
      UnionAssoc(demanded, Demanded([First(record, j)]), Observed(record.session, unit.observations));
      UnionAssoc(consumed, Consumed([First(record, j)]), {(record.session, unit.key)});
      ConsumesIs(unit);
      if unit.crateName !in LOCAL_ONLY_UNITS && unit.result in HITS {
        consumed' := consumed' + {(record.session, unit.key)};
      }
    }
    AllUnits(record);
    return true, demands', consumed';
  }

  /** A record with only the first `j` of its units. */
  ghost function First(record: Record, j: nat): (r: Record)
    requires j <= |record.units|
  {
    record.(units := record.units[..j])
  }

  lemma NoUnits(record: Record, demanded: set<(Key, int)>, consumed: set<Key>)
    ensures RecordsOk([First(record, 0)])
    ensures demanded + Demanded([First(record, 0)]) == demanded && consumed + Consumed([First(record, 0)]) == consumed
  {
  }

  lemma AllUnits(record: Record)
    ensures First(record, |record.units|) == record
  {
    assert record.units[..|record.units|] == record.units;
  }

  lemma UnionAssoc<T>(a: set<T>, b: set<T>, c: set<T>)
    ensures a + b + c == a + (b + c)
    ensures b + {} == b
  {
  }

  lemma ConsumesIs(unit: Unit)
    ensures Consumes(unit) <==> unit.crateName !in LOCAL_ONLY_UNITS && unit.result in HITS
  {
  }

  lemma OneBadUnit(record: Record, j: nat)
    requires j < |record.units| && !UnitOk(record.schema, record.units[j])
    ensures !RecordsOk([record])
  {
    assert record in [record] && record.units[j] in record.units;
  }

  method CollectUnit(schema: int, session: string, unit: Unit, demands: map<Key, int>, ghost demanded: set<(Key, int)>)
    returns (ok: bool, demands': map<Key, int>)
    requires Earliest(demands, demanded)
    ensures ok <==> UnitOk(schema, unit)
    ensures ok ==> Earliest(demands', demanded + Observed(session, unit.observations))
  {
    demands' := demands;
    if unit.crateName in LOCAL_ONLY_UNITS {
      ok := unit.observations == [] && unit.timing.None? && unit.result !in {"remote_hit", "prefetch_hit"};
      assert ok ==> demanded + Observed(session, unit.observations) == demanded;
      return;
    }
    if unit.timing.Some? && (schema < 7 || unit.timing.value !in PREFETCH_TIMINGS) {
      return false, demands';
    }
    if unit.key != "" {
      if unit.eventSchema < 20 || unit.observations == [] {
        return false, demands';
      }
      if !exists o :: o in unit.observations && o.key == unit.key {
        return false, demands';
      }
    }
    ok, demands' := CollectObservations(session, unit.observations, demands, demanded);
  }

  function Observe(demands: map<Key, int>, key: Key, at: int): (r: map<Key, int>) {
    demands[key := if key in demands && demands[key] < at then demands[key] else at]
  }

  method CollectObservations(session: string, observations: seq<Observation>, demands: map<Key, int>,
                             ghost demanded: set<(Key, int)>)
    returns (ok: bool, demands': map<Key, int>)
    requires Earliest(demands, demanded)
    ensures ok <==> forall o :: o in observations ==> o.at > 0
    ensures ok ==> Earliest(demands', demanded + Observed(session, observations))
  {
    demands' := demands;
    assert demanded + Observed(session, observations[..0]) == demanded;
    for k := 0 to |observations|
      invariant Timed(observations[..k])
      invariant Earliest(demands', demanded + Observed(session, observations[..k]))
    {
      var o := observations[k];
      TakeNext(observations, k);
      if o.at <= 0 {
        assert o in observations;
        return false, demands';
      }
      ObserveStep(session, observations, k, demands', demanded);
      demands' := Observe(demands', (session, o.key), o.at);
    }
    TakeAll(observations);
    ok := true;
  }

  ghost predicate Timed(observations: seq<Observation>) {
    forall o :: o in observations ==> o.at > 0
  }

  lemma ObserveStep(session: string, observations: seq<Observation>, k: nat, demands: map<Key, int>,
                    demanded: set<(Key, int)>)
    requires k < |observations| && Earliest(demands, demanded + Observed(session, observations[..k]))
    ensures Earliest(Observe(demands, (session, observations[k].key), observations[k].at),
                     demanded + Observed(session, observations[..k + 1]))
  {
    var (key, at) := ((session, observations[k].key), observations[k].at);
    ObservedStep(session, observations, k);
    EarliestStep(demands, demanded + Observed(session, observations[..k]), key, at);
    assert demanded + Observed(session, observations[..k + 1])
        == demanded + Observed(session, observations[..k]) + {(key, at)};
  }

  lemma ObservedStep(session: string, observations: seq<Observation>, k: nat)
    requires k < |observations|
    ensures Observed(session, observations[..k + 1])
         == Observed(session, observations[..k]) + {((session, observations[k].key), observations[k].at)}
  {
    assert observations[..k + 1] == observations[..k] + [observations[k]];
  }

  lemma EarliestStep(demands: map<Key, int>, demanded: set<(Key, int)>, key: Key, at: int)
    requires Earliest(demands, demanded)
    ensures Earliest(Observe(demands, key, at), demanded + {(key, at)})
  {
  }

  lemma RecordsAppend(before: seq<Record>, record: Record)
    ensures RecordsOk(before + [record]) <==> RecordsOk(before) && RecordsOk([record])
    ensures Demanded(before + [record]) == Demanded(before) + Demanded([record])
    ensures Consumed(before + [record]) == Consumed(before) + Consumed([record])
  {
    assert forall r :: r in before + [record] <==> r in before || r in [record];
  }

  lemma OneBadRecord(records: seq<Record>, i: nat)
    requires i < |records| && !RecordsOk([records[i]])
    ensures !RecordsOk(records)
  {
    var unit :| unit in records[i].units && !UnitOk(records[i].schema, unit);
    assert records[i] in records;
  }

  lemma UnitsStep(record: Record, j: nat)
    requires j < |record.units|
    ensures var (before, after) := (First(record, j), First(record, j + 1));
      var unit := record.units[j];
      && (RecordsOk([after]) <==> RecordsOk([before]) && UnitOk(record.schema, unit))
      && Demanded([after]) == Demanded([before]) + Observed(record.session, unit.observations)
      && Consumed([after]) == Consumed([before]) + if Consumes(unit) then {(record.session, unit.key)} else {}
  {
    var (before, after) := (First(record, j), First(record, j + 1));
    assert after.units == before.units + [record.units[j]];
    assert before in [before] && after in [after];
  }

  lemma NoDemands(demands: map<Key, int>, demanded: set<(Key, int)>)
    requires Earliest(demands, demanded)
    ensures demands == map[] <==> demanded == {}
  {
    if demands != map[] {
      var key :| key in demands;
      assert (key, demands[key]) in demanded;
    }
  }

  // ---- The startup session ----

  function Sessions(demands: map<Key, int>): (sessions: set<string>) {
    set key | key in demands :: key.0
  }

  /** Startup downloads may join the sole demand session of an isolated run that shut down drained. */
  method StartupSession(demands: map<Key, int>, shutdown: set<Plan>, isolated: bool) returns (startup: Option<string>)
    ensures startup.Some? <==>
      && isolated && (exists session :: Sessions(demands) == {session})
      && Sessions(demands) <= set plan | plan in shutdown :: plan.session
    ensures startup.Some? ==> Sessions(demands) == {startup.value}
  {
    var observed := Sessions(demands);
    var drained := set plan | plan in shutdown :: plan.session;
    if !isolated || |observed| != 1 || !(observed <= drained) {
      if session :| observed == {session} {
        assert |observed| == 1;
      }
      return None;
    }
    var session :| session in observed;
    assert |observed - {session}| == 0;
    assert observed == {session};
    return Some(session);
  }

  // ---- Raw and projected receipts ----

  datatype Coverage = Coverage(complete: bool, getComplete: bool,
                               unprojected: multiset<Receipt>, missing: multiset<Receipt>)

  predicate IsList(receipt: Receipt) {
    receipt.accounting.Some? && receipt.accounting.value.operation.List?
  }

  /** The receipts to account for, and how the two logs differ. */
  function Reconcile(projected: seq<Receipt>, raw: Option<seq<Receipt>>): (r: (seq<Receipt>, Coverage)) {
    match raw
    case None => (projected, Coverage(false, false, multiset{}, multiset{}))
    case Some(receipts) =>
      var unprojected := multiset(receipts) - multiset(projected);
      var missing := multiset(projected) - multiset(receipts);
      var getComplete := forall receipt :: receipt in unprojected + missing ==> IsList(receipt);
      (receipts, Coverage(unprojected == multiset{} && missing == multiset{}, getComplete, unprojected, missing))
  }

  /** Coverage is complete when both logs hold each receipt equally often, and for GETs when all but LISTs are. */
  lemma {:induction false} CoverageMeaning(projected: seq<Receipt>, raw: seq<Receipt>)
    ensures var coverage := Reconcile(projected, Some(raw)).1;
      && (coverage.complete <==> multiset(projected) == multiset(raw))
      && (coverage.getComplete <==>
            forall receipt :: !IsList(receipt) ==> multiset(projected)[receipt] == multiset(raw)[receipt])
      && Reconcile(projected, Some(raw)).0 == raw
    ensures Reconcile(projected, None).0 == projected
    ensures !Reconcile(projected, None).1.complete && !Reconcile(projected, None).1.getComplete
  {
    var coverage := Reconcile(projected, Some(raw)).1;
    var differ := coverage.unprojected + coverage.missing;
    forall receipt
      ensures receipt in differ <==> multiset(projected)[receipt] != multiset(raw)[receipt]
    {
      assert differ[receipt] == coverage.unprojected[receipt] + coverage.missing[receipt];
    }
    if coverage.complete {
      assert forall receipt :: multiset(projected)[receipt] == multiset(raw)[receipt];
    }
  }

  // ---- The accounting ----

  /** Reads the receipts and credits their payloads; `None` if a receipt is refused. */
  method Account(t: Timeline, receipts: seq<Receipt>)
    returns (r: Option<(map<Plan, Group>, set<Key>, seq<Row>)>)
    ensures r.Some? <==> AllAccepted(receipts)
    ensures r.Some? ==> r.value.1 == Credited(t, FinalRows(t, receipts)) && r.value.2 == FinalRows(t, receipts)
    ensures r.Some? ==> forall plan :: plan in Origins(receipts) ==>
      plan in r.value.0 && r.value.0[plan] == FinalGroup(t, receipts, plan)
  {
    var read := GatherReceipts(receipts);
    if read.None? {
      return None;
    }
    var groups, credited, rows := CreditPayloads(t, read.value.0, read.value.1);
    forall plan | plan in Origins(receipts)
      ensures plan in groups
    {
      GroupsReceive(receipts, plan);
      CountKeepsPlans(read.value.0, rows, plan);
    }
    return Some((groups, credited, rows));
  }

  lemma {:induction false} CountKeepsPlans(groups: map<Plan, Group>, rows: seq<Row>, plan: Plan)
    requires plan in groups
    ensures plan in CountAll(groups, rows)
  {
    if rows != [] {
      CountKeepsPlans(groups, rows[..|rows| - 1], plan);
    }
  }
}
