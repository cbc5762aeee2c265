/** What reading a compact compliance baseline means, said without the loops that read it. */
module ComplianceCompact {
  import opened Prelude
  import opened ComplianceReport
  import opened ComplianceReading

  /** An identity a compact baseline may record. */
  predicate RecordOk(record: Option<Identity>) {
    && record.Some? && record.value.mode in {SHIPPING, LEGACY, MODERN} && record.value.transport in {"stdio", "official-http"}
    && record.value.source in {"official", "harness", "supplemental"} && record.value.checkId != ""
  }

  /** Every record is an identity, and none comes twice. */
  ghost predicate GoodRecords(records: seq<Option<Identity>>) {
    && (forall i :: 0 <= i < |records| ==> RecordOk(records[i]))
    && (forall i, k :: 0 <= i < k < |records| ==> records[i] != records[k])
  }

  lemma RecordOkIff(record: Option<Identity>)
    ensures RecordOk(record) <==> record.Some? && GoodIdentity(record.value)
  {
    assert MODES == [SHIPPING, LEGACY, MODERN] && TRANSPORTS == ["stdio", "official-http"];
  }

  lemma GoodRecordsLast(records: seq<Option<Identity>>, n: nat)
    requires |records| == n + 1
    ensures GoodRecords(records) <==> GoodRecords(records[..n]) && RecordOk(records[n]) && records[n] !in records[..n]
  {
    assert forall i :: 0 <= i < n ==> records[..n][i] == records[i];
  }

  /** The records are seen, and their status is added to what was there. */
  ghost predicate RecordsKept(s: BucketState, t: BucketState, records: seq<Option<Identity>>, st: Status) {
    && (forall id :: id in t.seen <==> Some(id) in records)
    && (forall id, x :: Has(t.ids, id, x) <==> Has(s.ids, id, x) || (x == st && Some(id) in records))
  }

  lemma {:induction false} RecordsExact(s: BucketState, records: seq<Option<Identity>>, st: Status, side: Side)
    requires s.errors == [] && s.seen == {}
    ensures var t := ReadRecords(s, records, st, side);
            && (t.errors == [] <==> GoodRecords(records))
            && (t.errors == [] ==> RecordsKept(s, t, records, st))
  {
    if records != [] {
      var n := |records| - 1;
      RecordsExact(s, records[..n], st, side);
      GoodRecordsLast(records, n);
      RecordOkIff(records[n]);
      assert records == records[..n] + [records[n]];
      if RecordOk(records[n]) { StatusAdded(ReadRecords(s, records[..n], st, side).ids, records[n].value, st); }
    }
  }

  lemma {:induction false} RecordErrorsStay(s: BucketState, records: seq<Option<Identity>>, st: Status, side: Side)
    requires s.errors != []
    ensures ReadRecords(s, records, st, side).errors != []
  {
    if records != [] { RecordErrorsStay(s, records[..|records| - 1], st, side); }
  }

  ghost predicate GoodBuckets(b: Buckets) {
    b.passing.Some? && b.failing.Some? && GoodRecords(b.passing.value) && GoodRecords(b.failing.value)
  }

  /** The baseline records the status for the identity. */
  ghost predicate Records(b: Buckets, id: Identity, st: Status) {
    || (st == PASS && b.passing.Some? && Some(id) in b.passing.value)
    || (st == FAIL && b.failing.Some? && Some(id) in b.failing.value)
  }

  lemma BucketsExact(b: Buckets, side: Side)
    ensures var r := ReadBuckets([], b, side);
            && (r.errors == [] <==> GoodBuckets(b))
            && (r.errors == [] ==> (forall id, st :: Has(r.ids, id, st) <==> Records(b, id, st)))
  {
    var s0 := BucketState([], map[], {});
    var passing := ReadBucket(Reading([], map[]), b.passing, PASS, side);
    if b.passing.Some? { RecordsExact(s0, b.passing.value, PASS, side); }
    if b.failing.Some? {
      var s1 := BucketState(passing.errors, passing.ids, {});
      if passing.errors == [] { RecordsExact(s1, b.failing.value, FAIL, side); }
      else { RecordErrorsStay(s1, b.failing.value, FAIL, side); }
    }
  }

  lemma BucketErrorsStay(errors: seq<Error>, b: Buckets, side: Side)
    requires errors != []
    ensures ReadBuckets(errors, b, side).errors != []
  {
    var passing := ReadBucket(Reading(errors, map[]), b.passing, PASS, side);
    if b.passing.Some? { RecordErrorsStay(BucketState(errors, map[], {}), b.passing.value, PASS, side); }
    if b.failing.Some? { RecordErrorsStay(BucketState(passing.errors, passing.ids, {}), b.failing.value, FAIL, side); }
  }

  // ---------- modes ----------

  ghost predicate RecordsAny(b: Buckets, id: Identity) { Records(b, id, PASS) || Records(b, id, FAIL) }

  ghost predicate RecordsCase(b: Buckets, mode: string, transport: string) {
    exists id :: RecordsAny(b, id) && id.mode == mode && id.transport == transport
  }

  ghost predicate RecordsScenario(b: Buckets, mode: string, scenario: string) {
    exists id :: RecordsAny(b, id) && id.mode == mode && id.transport == "official-http" && id.source in {"official", "harness"}
                 && id.scenario == scenario
  }

  /** The mode selects its pinned catalog, records both of its cases, and exactly the pinned scenarios. */
  ghost predicate ModeRecorded(cat: Catalog, r: Report, b: Buckets, mode: string) {
    && mode in Selected(r) && Selected(r)[mode] == cat(mode)
    && RecordsCase(b, mode, "stdio") && RecordsCase(b, mode, "official-http")
    && (forall s :: s in cat(mode) <==> RecordsScenario(b, mode, s))
  }

  lemma ModeExactly(cat: Catalog, r: Report, side: Side, ids: Statuses, b: Buckets, mode: string)
    requires forall id :: id in ids <==> RecordsAny(b, id)
    ensures CompactModeErrors(cat, r, side, ids, mode) == [] <==> ModeRecorded(cat, r, b, mode)
  {
    ScenariosExact(cat, side, mode, ObservedScenarios(ids, mode));
    forall s ensures s in ObservedScenarios(ids, mode) <==> RecordsScenario(b, mode, s) { }
    assert HasCase(ids, mode, "stdio") <==> RecordsCase(b, mode, "stdio");
    assert HasCase(ids, mode, "official-http") <==> RecordsCase(b, mode, "official-http");
  }

  lemma {:induction false} RecordsNonempty(s: BucketState, records: seq<Option<Identity>>, st: Status, side: Side)
    requires forall id :: id in s.ids ==> s.ids[id] != {}
    ensures forall id :: id in ReadRecords(s, records, st, side).ids ==> ReadRecords(s, records, st, side).ids[id] != {}
  {
    if records != [] { RecordsNonempty(s, records[..|records| - 1], st, side); }
  }

  lemma BucketsMembers(b: Buckets, side: Side)
    requires GoodBuckets(b)
    ensures forall id :: id in ReadBuckets([], b, side).ids <==> RecordsAny(b, id)
  {
    BucketsExact(b, side);
    var s0 := BucketState([], map[], {});
    RecordsNonempty(s0, b.passing.value, PASS, side);
    var passing := ReadBucket(Reading([], map[]), b.passing, PASS, side);
    RecordsNonempty(BucketState(passing.errors, passing.ids, {}), b.failing.value, FAIL, side);
    var ids := ReadBuckets([], b, side).ids;
    forall id ensures id in ids <==> RecordsAny(b, id) {
      assert Has(ids, id, PASS) <==> Records(b, id, PASS);
      assert Has(ids, id, FAIL) <==> Records(b, id, FAIL);
      assert Has(ids, id, SKIP) <==> Records(b, id, SKIP);
      if id in ids {
        var sts := ids[id];
        assert (forall st :: st !in sts) ==> sts == {};
        var st :| st in sts;
        assert Has(ids, id, st);
      }
    }
  }

  // ---------- the baseline ----------

  /** A pinned header, the compact kind, all modes and both transports. */
  ghost predicate DeclaresCompact(r: Report)
    requires r.body.Compact?
  {
    && Declares(r) && r.body.kind == COMPACT_KIND && r.body.requiredModes == Some([SHIPPING, LEGACY, MODERN])
    && r.body.transports in {Some(["stdio", "official-http"]), Some(["official-http", "stdio"])}
  }

  lemma TransportsIff(t: Option<seq<string>>)
    ensures t.Some? && |t.value| == 2 && (set x | x in t.value) == {"stdio", "official-http"} <==>
            t in {Some(["stdio", "official-http"]), Some(["official-http", "stdio"])}
  {
    if t.Some? && |t.value| == 2 {
      var x, y := t.value[0], t.value[1];
      assert t.value == [x, y];
      assert (set z | z in t.value) == {x, y};
      assert {x, y} == {"stdio", "official-http"} ==> x in {x, y} && y in {x, y} && "stdio" in {x, y} && "official-http" in {x, y};
    }
  }

  lemma CompactHeaderExact(r: Report, side: Side)
    requires r.body.Compact? && r.body.kind == COMPACT_KIND
    ensures CompactHeaderErrors(r, side) == [] <==> DeclaresCompact(r)
  {
    assert HeaderErrors(r, side) == [] <==> Declares(r);
    TransportsIff(r.body.transports);
    assert MODES == [SHIPPING, LEGACY, MODERN];
  }

  ghost predicate CompleteCompact(cat: Catalog, r: Report, b: Buckets) {
    && GoodBuckets(b)
    && ModeRecorded(cat, r, b, SHIPPING) && ModeRecorded(cat, r, b, LEGACY) && ModeRecorded(cat, r, b, MODERN)
  }

  /**
   * A compact baseline is read without error exactly when it declares the pinned header, its kind,
   * modes and transports, records well-formed identities without repetition, and covers both cases
   * and exactly the pinned scenarios of every mode; and then the statuses read are the recorded ones.
   */
  lemma CompactReadingExact(cat: Catalog, r: Report, side: Side)
    requires r.body.Compact?
    ensures Required(cat, r, side).errors == [] <==>
              DeclaresCompact(r) && r.body.checks.Some? && CompleteCompact(cat, r, r.body.checks.value)
    ensures Required(cat, r, side).errors == [] ==>
              forall id, st :: Has(Required(cat, r, side).ids, id, st) <==> Records(r.body.checks.value, id, st)
  {
    if r.body.kind == COMPACT_KIND {
      CompactHeaderExact(r, side);
      if r.body.checks.Some? {
        var b := r.body.checks.value;
        if CompactHeaderErrors(r, side) != [] { BucketErrorsStay(CompactHeaderErrors(r, side), b, side); }
        else {
          BucketsExact(b, side);
          if GoodBuckets(b) { ModesExactly(cat, r, side, b); }
        }
      }
    }
  }

  lemma ModesExactly(cat: Catalog, r: Report, side: Side, b: Buckets)
    requires GoodBuckets(b)
    ensures CompactModesErrors(cat, r, side, ReadBuckets([], b, side).ids) == [] <==> CompleteCompact(cat, r, b)
  {
    var ids := ReadBuckets([], b, side).ids;
    BucketsMembers(b, side);
    ModeExactly(cat, r, side, ids, b, SHIPPING);
    ModeExactly(cat, r, side, ids, b, LEGACY);
    ModeExactly(cat, r, side, ids, b, MODERN);
  }
}
