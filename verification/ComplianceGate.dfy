/** The gate decides the same on a compact baseline as on the full one, and is a preorder. */
module ComplianceGate {
  import opened Prelude
  import opened Ordering
  import opened ComplianceReport
  import Reads = ComplianceReading

  // ---------- what an error-free reading guarantees ----------

  /** Every identity is well formed, and a scenario it stands for is in the catalog of its mode. */
  ghost predicate GoodIds(cat: Catalog, ids: Statuses) {
    forall id :: id in ids ==>
      && GoodIdentity(id)
      && (id.transport == "official-http" && ScenarioSource(id.source) ==> id.scenario in cat(id.mode))
  }

  lemma {:induction false} LastHashRange(name: string)
    ensures -1 <= LastHash(name) < |name| || (name == "" && LastHash(name) == -1)
  {
    if name != "" { LastHashRange(name[..|name| - 1]); }
  }

  lemma IdentityOfGood(mode: string, transport: string, c: Check)
    requires IdentityOf(mode, transport, c).Some? && mode in MODES && transport in TRANSPORTS
    ensures GoodIdentity(IdentityOf(mode, transport, c).value)
  {
    LastHashRange(c.name);
  }

  lemma {:induction false} ChecksRead(s: CheckState, checks: seq<Option<Check>>, mode: string, transport: string, side: Side)
    requires mode in MODES && transport in TRANSPORTS
    ensures var t := ReadChecks(s, checks, mode, transport, side);
            && (t.errors == [] ==> s.errors == [])
            && (forall id :: id in t.ids && id !in s.ids ==>
                  && id.mode == mode && id.transport == transport && GoodIdentity(id)
                  && (transport == "official-http" && ScenarioSource(id.source) ==> id.scenario in t.observed))
  {
    if checks != [] {
      var n := |checks| - 1;
      ChecksRead(s, checks[..n], mode, transport, side);
      if GoodCheck(mode, transport, checks[n]) {
        IdentityOfGood(mode, transport, checks[n].value);
      }
    }
  }

  lemma CaseRead(cat: Catalog, r: Reading, t: map<(string, string), Case>, mode: string, transport: string, side: Side)
    requires mode in MODES && transport in TRANSPORTS && GoodIds(cat, r.ids)
    ensures var r' := ReadCase(cat, r, t, mode, transport, side);
            r'.errors == [] ==> r.errors == [] && GoodIds(cat, r'.ids)
  {
    if (mode, transport) in t && t[(mode, transport)].checks.Some? {
      var checks := t[(mode, transport)].checks.value;
      ChecksRead(CheckState(r.errors, r.ids, {}), checks, mode, transport, side);
      var s := ReadChecks(CheckState(r.errors, r.ids, {}), checks, mode, transport, side);
      if transport == "official-http" && ScenarioErrors(cat, side, mode, s.observed) == [] {
        assert s.observed - (set x | x in cat(mode)) == {};
        assert forall x :: x in s.observed ==> x in cat(mode);
      }
    }
  }

  lemma ModeRead(cat: Catalog, rep: Report, r: Reading, t: map<(string, string), Case>, mode: string, side: Side)
    requires mode in MODES && GoodIds(cat, r.ids)
    ensures var r' := ReadMode(cat, rep, r, t, mode, side);
            r'.errors == [] ==> r.errors == [] && GoodIds(cat, r'.ids) && CatalogErrors(cat, rep, side, mode) == []
  {
    var start := r.(errors := r.errors + CatalogErrors(cat, rep, side, mode));
    CaseRead(cat, start, t, mode, "stdio", side);
    var stdio := ReadCase(cat, start, t, mode, "stdio", side);
    if stdio.errors == [] { CaseRead(cat, stdio, t, mode, "official-http", side); }
    else { Reads.CaseErrorsStay(cat, stdio, t, mode, "official-http", side); }
  }

  lemma {:induction false} RecordsRead(s: BucketState, records: seq<Option<Identity>>, st: Status, side: Side)
    ensures var t := ReadRecords(s, records, st, side);
            && (t.errors == [] ==> s.errors == [])
            && (forall id :: id in t.ids && id !in s.ids ==> GoodIdentity(id))
  {
    if records != [] { RecordsRead(s, records[..|records| - 1], st, side); }
  }

  /** The catalogs a report selects are the pinned ones. */
  ghost predicate SelectsCatalog(cat: Catalog, r: Report) {
    forall m :: m in MODES ==> m in Selected(r) && Selected(r)[m] == cat(m)
  }

  lemma FullRead(cat: Catalog, r: Report, side: Side)
    requires r.body.Full? && ReadFull(cat, r, side).errors == []
    ensures GoodIds(cat, ReadFull(cat, r, side).ids) && SelectsCatalog(cat, r)
  {
    var header := HeaderErrors(r, side);
    var table := if r.body.cases.None? then CaseTable(header + [NoCases(side)], map[])
                 else ReadCases(header, r.body.cases.value, side);
    var start := Reading(table.errors, map[]);
    var shipping := ReadMode(cat, r, start, table.cases, SHIPPING, side);
    var legacy := ReadMode(cat, r, shipping, table.cases, LEGACY, side);
    if shipping.errors != [] { Reads.ModeErrorsStay(cat, r, shipping, table.cases, LEGACY, side); }
    if legacy.errors != [] { Reads.ModeErrorsStay(cat, r, legacy, table.cases, MODERN, side); }
    ModeRead(cat, r, start, table.cases, SHIPPING, side);
    ModeRead(cat, r, shipping, table.cases, LEGACY, side);
    ModeRead(cat, r, legacy, table.cases, MODERN, side);
  }

  lemma BucketsRead(errors: seq<Error>, b: Buckets, side: Side)
    ensures var r := ReadBuckets(errors, b, side);
            (r.errors == [] ==> errors == []) && (forall id :: id in r.ids ==> GoodIdentity(id))
  {
    var passing := ReadBucket(Reading(errors, map[]), b.passing, PASS, side);
    if b.passing.Some? { RecordsRead(BucketState(errors, map[], {}), b.passing.value, PASS, side); }
    if b.failing.Some? { RecordsRead(BucketState(passing.errors, passing.ids, {}), b.failing.value, FAIL, side); }
  }

  lemma CompactModeRead(cat: Catalog, r: Report, side: Side, ids: Statuses, mode: string)
    requires CompactModeErrors(cat, r, side, ids, mode) == []
    ensures mode in Selected(r) && Selected(r)[mode] == cat(mode)
    ensures forall id :: id in ids && id.mode == mode && id.transport == "official-http" && ScenarioSource(id.source) ==>
              id.scenario in cat(mode)
  {
    forall id | id in ids && id.mode == mode && id.transport == "official-http" && ScenarioSource(id.source)
      ensures id.scenario in cat(mode)
    {
      assert id.scenario in ObservedScenarios(ids, mode);
      assert ObservedScenarios(ids, mode) - (set x | x in cat(mode)) == {};
      assert id.scenario in (set x | x in cat(mode));
    }
  }

  lemma CompactRead(cat: Catalog, r: Report, side: Side)
    requires r.body.Compact? && ReadCompact(cat, r, side).errors == []
    ensures GoodIds(cat, ReadCompact(cat, r, side).ids) && SelectsCatalog(cat, r)
  {
    BucketsRead(CompactHeaderErrors(r, side), r.body.checks.value, side);
    CompactModesRead(cat, r, side, ReadCompact(cat, r, side).ids);
  }

  lemma CompactModesRead(cat: Catalog, r: Report, side: Side, ids: Statuses)
    requires CompactModesErrors(cat, r, side, ids) == [] && forall id :: id in ids ==> GoodIdentity(id)
    ensures GoodIds(cat, ids) && SelectsCatalog(cat, r)
  {
    CompactModeRead(cat, r, side, ids, SHIPPING);
    CompactModeRead(cat, r, side, ids, LEGACY);
    CompactModeRead(cat, r, side, ids, MODERN);
  }

  lemma RequiredRead(cat: Catalog, r: Report, side: Side)
    requires Required(cat, r, side).errors == []
    ensures GoodIds(cat, Required(cat, r, side).ids) && SelectsCatalog(cat, r)
  {
    if r.body.Full? { FullRead(cat, r, side); } else { CompactRead(cat, r, side); }
  }

  // ---------- reading a compact baseline back ----------

  ghost predicate Distinct(records: seq<Option<Identity>>) {
    forall i, j :: 0 <= i < j < |records| ==> records[i] != records[j]
  }

  /** Reading good, distinct records adds their status to them, and nothing else. */
  ghost predicate RecordsAdded(s: BucketState, t: BucketState, records: seq<Option<Identity>>, st: Status) {
    && t.errors == s.errors
    && (forall id :: id in t.seen <==> id in s.seen || Some(id) in records)
    && (forall id :: id in t.ids <==> id in s.ids || Some(id) in records)
    && (forall id :: StatusesOf(t.ids, id) == StatusesOf(s.ids, id) + if Some(id) in records then {st} else {})
  }

  lemma RecordAdded(s: BucketState, t: BucketState, records: seq<Option<Identity>>, st: Status, id: Identity)
    requires RecordsAdded(s, t, records, st)
    ensures RecordsAdded(s, BucketState(t.errors, With(t.ids, id, st), t.seen + {id}), records + [Some(id)], st)
  {
    var t' := BucketState(t.errors, With(t.ids, id, st), t.seen + {id});
    forall x ensures Some(x) in records + [Some(id)] <==> Some(x) in records || x == id { }
    forall x ensures StatusesOf(t'.ids, x) == StatusesOf(s.ids, x) + if Some(x) in records + [Some(id)] then {st} else {} {
      assert StatusesOf(t'.ids, x) == if x == id then StatusesOf(t.ids, x) + {st} else StatusesOf(t.ids, x);
    }
  }

  lemma {:induction false} GoodRecordsRead(s: BucketState, records: seq<Option<Identity>>, st: Status, side: Side)
    requires forall i :: 0 <= i < |records| ==> records[i].Some? && GoodIdentity(records[i].value) && records[i].value !in s.seen
    requires Distinct(records)
    ensures RecordsAdded(s, ReadRecords(s, records, st, side), records, st)
  {
    if records != [] {
      var n := |records| - 1;
      GoodRecordsRead(s, records[..n], st, side);
      assert records == records[..n] + [records[n]];
      assert records[n] !in records[..n];
      RecordAdded(s, ReadRecords(s, records[..n], st, side), records[..n], st, records[n].value);
    }
  }

  lemma RecordsOf(cat: Catalog, s: set<Identity>)
    requires forall id :: id in s ==> GoodIdentity(id)
    ensures Distinct(Records(s))
    ensures forall id :: Some(id) in Records(s) <==> id in s
    ensures forall i :: 0 <= i < |Records(s)| ==> Records(s)[i].Some? && GoodIdentity(Records(s)[i].value)
  {
    IdStrictTotal();
    var xs, rs := InOrder(s), Records(s);
    forall i, j | 0 <= i < j < |rs| ensures rs[i] != rs[j] {
      assert IdLt(xs[i], xs[j]);
    }
    forall id ensures Some(id) in rs <==> id in s {
      if id in s {
        var i :| 0 <= i < |xs| && xs[i] == id;
        assert rs[i] == Some(id);
      }
      if Some(id) in rs {
        var i :| 0 <= i < |rs| && rs[i] == Some(id);
        assert xs[i] in xs;
      }
    }
    forall i | 0 <= i < |rs| ensures rs[i].Some? && GoodIdentity(rs[i].value) {
      assert xs[i] in xs;
    }
  }

  /** The statuses a compact baseline keeps: all but SKIP. */
  ghost predicate Unskipped(ids: Statuses, ids': Statuses) {
    && (forall id :: id in ids' <==> id in ids && (PASS in ids[id] || FAIL in ids[id]))
    && (forall id :: StatusesOf(ids', id) == StatusesOf(ids, id) - {SKIP})
  }

  lemma BucketsReadBack(cat: Catalog, ids: Statuses, side: Side)
    requires GoodIds(cat, ids)
    ensures var r := ReadBuckets([], Buckets(Some(Records(Marked(ids, PASS))), Some(Records(Marked(ids, FAIL)))), side);
            r.errors == [] && Unskipped(ids, r.ids)
  {
    var ps, fs := Records(Marked(ids, PASS)), Records(Marked(ids, FAIL));
    RecordsOf(cat, Marked(ids, PASS));
    RecordsOf(cat, Marked(ids, FAIL));
    var s0 := BucketState([], map[], {});
    GoodRecordsRead(s0, ps, PASS, side);
    var s1 := ReadRecords(s0, ps, PASS, side);
    GoodRecordsRead(s1.(seen := {}), fs, FAIL, side);
    var s2 := ReadRecords(s1.(seen := {}), fs, FAIL, side);
    BothAdded(ids, s1, s2, ps, fs);
  }

  lemma BothAdded(ids: Statuses, s1: BucketState, s2: BucketState, ps: seq<Option<Identity>>, fs: seq<Option<Identity>>)
    requires RecordsAdded(BucketState([], map[], {}), s1, ps, PASS) && RecordsAdded(s1.(seen := {}), s2, fs, FAIL)
    requires forall id :: Some(id) in ps <==> id in Marked(ids, PASS)
    requires forall id :: Some(id) in fs <==> id in Marked(ids, FAIL)
    ensures Unskipped(ids, s2.ids)
  {
    forall id ensures StatusesOf(s2.ids, id) == StatusesOf(ids, id) - {SKIP} {
      assert StatusesOf(s1.ids, id) == {} + if Some(id) in ps then {PASS} else {};
      forall st: Status ensures st in StatusesOf(s2.ids, id) <==> st in StatusesOf(ids, id) - {SKIP} {
        match st { case PASS => case FAIL => case SKIP => }
      }
    }
  }

  /** A check of this identity that ran. */
  ghost predicate Ran(ids: Statuses, id: Identity) { id in ids && (PASS in ids[id] || FAIL in ids[id]) }

  ghost predicate RanCase(ids: Statuses, mode: string, transport: string) {
    exists id :: Ran(ids, id) && id.mode == mode && id.transport == transport
  }

  ghost predicate RanScenario(ids: Statuses, mode: string, scenario: string) {
    exists id :: Ran(ids, id) && id.mode == mode && id.transport == "official-http" && ScenarioSource(id.source)
                 && id.scenario == scenario
  }

  ghost predicate ModeCovered(cat: Catalog, ids: Statuses, m: string) {
    && RanCase(ids, m, "stdio") && RanCase(ids, m, "official-http")
    && (forall s :: s in cat(m) ==> RanScenario(ids, m, s))
  }

  /** Every required case and every required scenario has a check that was not skipped. */
  ghost predicate Coverage(cat: Catalog, ids: Statuses) {
    ModeCovered(cat, ids, SHIPPING) && ModeCovered(cat, ids, LEGACY) && ModeCovered(cat, ids, MODERN)
  }

  lemma ModeErrorsIff(cat: Catalog, r: Report, side: Side, ids: Statuses, ids': Statuses, mode: string)
    requires GoodIds(cat, ids) && Unskipped(ids, ids') && CatalogErrors(cat, r, side, mode) == []
    ensures CompactModeErrors(cat, r, side, ids', mode) == [] <==> ModeCovered(cat, ids, mode)
  {
    var observed, expected := ObservedScenarios(ids', mode), set x | x in cat(mode);
    assert forall id :: id in ids' <==> Ran(ids, id);
    assert observed - expected == {} by {
      forall s | s in observed ensures s in expected { }
    }
    assert forall s :: s in observed <==> RanScenario(ids, mode, s);
    assert expected - observed == {} <==> forall s :: s in expected ==> s in observed;
    assert HasCase(ids', mode, "stdio") <==> RanCase(ids, mode, "stdio");
    assert HasCase(ids', mode, "official-http") <==> RanCase(ids, mode, "official-http");
  }

  lemma ModesErrorsIff(cat: Catalog, r: Report, side: Side, ids: Statuses, ids': Statuses)
    requires GoodIds(cat, ids) && Unskipped(ids, ids')
    requires forall m :: m in MODES ==> CatalogErrors(cat, r, side, m) == []
    ensures CompactModesErrors(cat, r, side, ids') == [] <==> Coverage(cat, ids)
  {
    ModeErrorsIff(cat, r, side, ids, ids', SHIPPING);
    ModeErrorsIff(cat, r, side, ids, ids', LEGACY);
    ModeErrorsIff(cat, r, side, ids, ids', MODERN);
  }

  /** Reading the compact baseline back: the unskipped statuses, and no error exactly under coverage. */
  lemma CompactReadsBack(cat: Catalog, b: Report, side: Side)
    requires Compactable(cat, b)
    ensures var ids := Required(cat, b, Baseline).ids;
            var r := Required(cat, CompactOf(cat, b), side);
            Unskipped(ids, r.ids) && (r.errors == [] <==> Coverage(cat, ids))
            && Selected(CompactOf(cat, b)) == (map m | m in MODES :: cat(m))
  {
    var ids, cb := Required(cat, b, Baseline).ids, CompactOf(cat, b);
    RequiredRead(cat, b, Baseline);
    CompactHeaderFine(cat, b, side);
    BucketsReadBack(cat, ids, side);
    ModesErrorsIff(cat, cb, side, ids, ReadBuckets([], cb.body.checks.value, side).ids);
  }

  lemma CompactHeaderFine(cat: Catalog, b: Report, side: Side)
    requires Compactable(cat, b)
    ensures CompactHeaderErrors(CompactOf(cat, b), side) == []
    ensures Selected(CompactOf(cat, b)) == (map m | m in MODES :: cat(m))
    ensures forall m :: m in MODES ==> CatalogErrors(cat, CompactOf(cat, b), side, m) == []
  {
    RequiredRead(cat, b, Baseline);
    BothTransports();
    var scenarios := map m | m in MODES && m in Selected(b) :: Selected(b)[m];
    assert Selected(CompactOf(cat, b)) == scenarios == (map m | m in MODES :: cat(m));
  }

  lemma BothTransports()
    ensures |TRANSPORTS| == 2 && (set x | x in TRANSPORTS) == {"stdio", "official-http"}
  {
    assert TRANSPORTS[0] == "stdio" && TRANSPORTS[1] == "official-http";
  }

  // ---------- the gate on a compact baseline ----------

  lemma SameSets(c: Statuses, ids: Statuses, ids': Statuses)
    requires Unskipped(ids, ids')
    ensures NewFailures(c, ids') == NewFailures(c, ids) && Known(c, ids') == Known(c, ids)
    ensures Missing(c, ids') == Missing(c, ids) && Fixed(c, ids') == Fixed(c, ids)
    ensures FailedShipping(ids') == FailedShipping(ids)
  {
    forall id ensures (Passes(ids', id) <==> Passes(ids, id)) && (Fails(ids', id) <==> Fails(ids, id)) {
      assert StatusesOf(ids', id) == StatusesOf(ids, id) - {SKIP};
    }
    assert forall id :: id in Missing(c, ids') <==> id in Missing(c, ids);
    assert forall id :: id in Fixed(c, ids') <==> id in Fixed(c, ids);
    assert forall id :: id in FailedShipping(ids') <==> id in FailedShipping(ids);
  }

  lemma ErrorsSplit(a: seq<Error>, b: seq<Error>, c: seq<Error>, d: seq<Error>, e: seq<Error>)
    ensures a + b + c + d + e == [] + b + c + d + e <==> a == []
  {
    if a != [] { assert |a + b + c + d + e| > |[] + b + c + d + e|; }
  }

  /** Baselines that differ in skips only get the same verdict, exactly when reading the second finds no error. */
  lemma VerdictOnUnskipped(base: Reading, base': Reading, cand: Reading, policy: seq<Error>)
    requires base.errors == [] && Unskipped(base.ids, base'.ids)
    ensures Verdict(base', cand, policy) == Verdict(base, cand, policy) <==> base'.errors == []
  {
    SameSets(cand.ids, base.ids, base'.ids);
    var d, e := ShippingErrors(cand.ids), BaselineShippingErrors(base.ids);
    assert e == BaselineShippingErrors(base'.ids);
    ErrorsSplit(base'.errors, cand.errors, policy, d, e);
  }

  lemma DecidesTheSame(cat: Catalog, c: Report, b: Report, b': Report)
    requires Required(cat, b, Baseline).errors == [] && b'.automaticAuth == b.automaticAuth
    requires Unskipped(Required(cat, b, Baseline).ids, Required(cat, b', Baseline).ids)
    ensures Evaluate(cat, c, b') == Evaluate(cat, c, b) <==> Required(cat, b', Baseline).errors == []
  {
    var base, base', cand := Required(cat, b, Baseline), Required(cat, b', Baseline), Required(cat, c, Candidate);
    VerdictOnUnskipped(base, base', cand, PolicyErrors(c, b));
    assert PolicyErrors(c, b') == PolicyErrors(c, b);
  }

  /**
   * For every baseline that compacts and every candidate, the gate gives the same verdict, errors
   * and lists against the compact baseline as against the full one, exactly when every required
   * case and scenario of the baseline has a check that was not skipped.
   */
  lemma CompactBaselineDecidesTheSame(cat: Catalog, c: Report, b: Report)
    requires Compactable(cat, b)
    ensures Evaluate(cat, c, CompactOf(cat, b)) == Evaluate(cat, c, b) <==> Coverage(cat, Required(cat, b, Baseline).ids)
  {
    CompactReadsBack(cat, b, Baseline);
    DecidesTheSame(cat, c, b, CompactOf(cat, b));
  }

  /** Compacting a compact baseline gives it back, exactly when it can be compacted at all. */
  lemma CompactingTwice(cat: Catalog, b: Report)
    requires Compactable(cat, b)
    ensures Compactable(cat, CompactOf(cat, b)) <==> Coverage(cat, Required(cat, b, Baseline).ids)
    ensures Compactable(cat, CompactOf(cat, b)) ==> CompactOf(cat, CompactOf(cat, b)) == CompactOf(cat, b)
  {
    var ids, cb := Required(cat, b, Baseline).ids, CompactOf(cat, b);
    var ids' := Required(cat, cb, Baseline).ids;
    CompactReadsBack(cat, b, Baseline);
    forall id ensures (Passes(ids', id) <==> Passes(ids, id)) && (Fails(ids', id) <==> Fails(ids, id)) {
      assert StatusesOf(ids', id) == StatusesOf(ids, id) - {SKIP};
    }
    assert forall id :: id in ids' && id.mode == SHIPPING ==> FAIL !in ids'[id] by {
      forall id | id in ids' && id.mode == SHIPPING ensures !Fails(ids', id) { assert !Fails(ids, id); }
    }
    assert Marked(ids', PASS) == Marked(ids, PASS) by {
      forall id ensures id in Marked(ids', PASS) <==> id in Marked(ids, PASS) { assert Passes(ids', id) <==> Passes(ids, id); }
    }
    assert Marked(ids', FAIL) == Marked(ids, FAIL) by {
      forall id ensures id in Marked(ids', FAIL) <==> id in Marked(ids, FAIL) { assert Fails(ids', id) <==> Fails(ids, id); }
    }
    if Compactable(cat, cb) {
      assert (map m | m in MODES && m in Selected(cb) :: Selected(cb)[m]) == Selected(cb);
    }
  }
}
