/** Chains of accepted baselines, and a baseline that compaction cannot carry. */
module CompliancePreorder {
  import opened Prelude
  import opened Ordering
  import opened ComplianceReport
  import opened ComplianceGate
  import Reads = ComplianceReading

  // ---------- a report reads the same as baseline and as candidate ----------

  lemma {:induction false} RecordsSide(s: BucketState, s': BucketState, records: seq<Option<Identity>>, st: Status)
    requires |s.errors| == |s'.errors| && s.ids == s'.ids && s.seen == s'.seen
    ensures var t, t' := ReadRecords(s, records, st, Baseline), ReadRecords(s', records, st, Candidate);
            |t.errors| == |t'.errors| && t.ids == t'.ids && t.seen == t'.seen
  {
    if records != [] { RecordsSide(s, s', records[..|records| - 1], st); }
  }

  lemma {:induction false} CasesSide(errors: seq<Error>, errors': seq<Error>, cases: seq<Option<Case>>)
    requires |errors| == |errors'|
    ensures var t, t' := ReadCases(errors, cases, Baseline), ReadCases(errors', cases, Candidate);
            |t.errors| == |t'.errors| && t.cases == t'.cases
  {
    if cases != [] { CasesSide(errors, errors', cases[..|cases| - 1]); }
  }

  lemma {:induction false} ChecksSide(s: CheckState, s': CheckState, checks: seq<Option<Check>>, mode: string, transport: string)
    requires |s.errors| == |s'.errors| && s.ids == s'.ids && s.observed == s'.observed
    ensures var t, t' := ReadChecks(s, checks, mode, transport, Baseline), ReadChecks(s', checks, mode, transport, Candidate);
            |t.errors| == |t'.errors| && t.ids == t'.ids && t.observed == t'.observed
  {
    if checks != [] { ChecksSide(s, s', checks[..|checks| - 1], mode, transport); }
  }

  /** Two readings that differ in nothing but whose report the errors name. */
  ghost predicate Alike(r: Reading, r': Reading) { |r.errors| == |r'.errors| && r.ids == r'.ids }

  lemma CaseSide(cat: Catalog, r: Reading, r': Reading, t: map<(string, string), Case>, mode: string, transport: string)
    requires Alike(r, r')
    ensures Alike(ReadCase(cat, r, t, mode, transport, Baseline), ReadCase(cat, r', t, mode, transport, Candidate))
  {
    if (mode, transport) in t && t[(mode, transport)].checks.Some? {
      ChecksSide(CheckState(r.errors, r.ids, {}), CheckState(r'.errors, r'.ids, {}), t[(mode, transport)].checks.value, mode, transport);
    }
  }

  lemma ModeSide(cat: Catalog, rep: Report, r: Reading, r': Reading, t: map<(string, string), Case>, mode: string)
    requires Alike(r, r')
    ensures Alike(ReadMode(cat, rep, r, t, mode, Baseline), ReadMode(cat, rep, r', t, mode, Candidate))
  {
    var start, start' := r.(errors := r.errors + CatalogErrors(cat, rep, Baseline, mode)),
                         r'.(errors := r'.errors + CatalogErrors(cat, rep, Candidate, mode));
    CaseSide(cat, start, start', t, mode, "stdio");
    CaseSide(cat, ReadCase(cat, start, t, mode, "stdio", Baseline), ReadCase(cat, start', t, mode, "stdio", Candidate),
             t, mode, "official-http");
  }

  lemma FullSide(cat: Catalog, r: Report)
    requires r.body.Full?
    ensures Alike(ReadFull(cat, r, Baseline), ReadFull(cat, r, Candidate))
  {
    var header, header' := HeaderErrors(r, Baseline), HeaderErrors(r, Candidate);
    HeaderSide(r);
    if r.body.cases.Some? { CasesSide(header, header', r.body.cases.value); }
    var table := if r.body.cases.None? then CaseTable(header + [NoCases(Baseline)], map[])
                 else ReadCases(header, r.body.cases.value, Baseline);
    var table' := if r.body.cases.None? then CaseTable(header' + [NoCases(Candidate)], map[])
                  else ReadCases(header', r.body.cases.value, Candidate);
    var s0, s0' := Reading(table.errors, map[]), Reading(table'.errors, map[]);
    ModeSide(cat, r, s0, s0', table.cases, SHIPPING);
    var s1, s1' := ReadMode(cat, r, s0, table.cases, SHIPPING, Baseline), ReadMode(cat, r, s0', table.cases, SHIPPING, Candidate);
    ModeSide(cat, r, s1, s1', table.cases, LEGACY);
    var s2, s2' := ReadMode(cat, r, s1, table.cases, LEGACY, Baseline), ReadMode(cat, r, s1', table.cases, LEGACY, Candidate);
    ModeSide(cat, r, s2, s2', table.cases, MODERN);
  }

  lemma BucketSide(r: Reading, r': Reading, records: Option<seq<Option<Identity>>>, st: Status)
    requires Alike(r, r')
    ensures Alike(ReadBucket(r, records, st, Baseline), ReadBucket(r', records, st, Candidate))
  {
    if records.Some? {
      RecordsSide(BucketState(r.errors, r.ids, {}), BucketState(r'.errors, r'.ids, {}), records.value, st);
    }
  }

  lemma CompactModeSide(cat: Catalog, r: Report, ids: Statuses, mode: string)
    ensures |CompactModeErrors(cat, r, Baseline, ids, mode)| == |CompactModeErrors(cat, r, Candidate, ids, mode)|
  {
  }

  lemma CompactModesSide(cat: Catalog, r: Report, ids: Statuses)
    ensures |CompactModesErrors(cat, r, Baseline, ids)| == |CompactModesErrors(cat, r, Candidate, ids)|
  {
    CompactModeSide(cat, r, ids, SHIPPING);
    CompactModeSide(cat, r, ids, LEGACY);
    CompactModeSide(cat, r, ids, MODERN);
  }

  lemma BucketsSide(errors: seq<Error>, errors': seq<Error>, b: Buckets)
    requires |errors| == |errors'|
    ensures Alike(ReadBuckets(errors, b, Baseline), ReadBuckets(errors', b, Candidate))
  {
    BucketSide(Reading(errors, map[]), Reading(errors', map[]), b.passing, PASS);
    BucketSide(ReadBucket(Reading(errors, map[]), b.passing, PASS, Baseline),
               ReadBucket(Reading(errors', map[]), b.passing, PASS, Candidate), b.failing, FAIL);
  }

  lemma HeaderSide(r: Report)
    ensures |HeaderErrors(r, Baseline)| == |HeaderErrors(r, Candidate)|
  {
    assert |OfficialErrors(r, Baseline)| == |OfficialErrors(r, Candidate)|;
  }

  lemma CompactHeaderSide(r: Report)
    requires r.body.Compact?
    ensures |HeaderErrors(r, Baseline)| == |HeaderErrors(r, Candidate)|
    ensures |CompactHeaderErrors(r, Baseline)| == |CompactHeaderErrors(r, Candidate)|
  {
    HeaderSide(r);
  }

  lemma CompactSide(cat: Catalog, r: Report)
    requires r.body.Compact?
    ensures Alike(ReadCompact(cat, r, Baseline), ReadCompact(cat, r, Candidate))
  {
    CompactHeaderSide(r);
    var h, h' := CompactHeaderErrors(r, Baseline), CompactHeaderErrors(r, Candidate);
    if r.body.kind == COMPACT_KIND && r.body.checks.Some? {
      BucketsSide(h, h', r.body.checks.value);
      CompactModesSide(cat, r, ReadBuckets(h, r.body.checks.value, Baseline).ids);
    }
  }

  lemma RequiredSide(cat: Catalog, r: Report)
    ensures Alike(Required(cat, r, Baseline), Required(cat, r, Candidate))
  {
    if r.body.Full? { FullSide(cat, r); } else { CompactSide(cat, r); }
  }

  // ---------- the gate relation ----------

  function Ids(cat: Catalog, r: Report): Statuses { Required(cat, r, Baseline).ids }

  ghost predicate Accepts(cat: Catalog, c: Report, b: Report) { Evaluate(cat, c, b).success }

  /** Read without error, policy recorded, no shipping check failing: exactly the reports that compact. */
  ghost predicate Usable(r: Report, reading: Reading) {
    reading.errors == [] && r.automaticAuth.Some? && !ShippingFails(reading.ids)
  }

  ghost predicate Acceptable(cat: Catalog, r: Report) { Usable(r, Required(cat, r, Baseline)) }

  /** Two usable reports under one policy, with nothing newly failing and nothing lost. */
  ghost predicate NoRegression(c: Report, b: Report, cand: Reading, base: Reading) {
    && Usable(b, base) && Usable(c, cand) && b.automaticAuth == c.automaticAuth
    && (forall id :: Fails(cand.ids, id) ==> Fails(base.ids, id))
    && (forall id :: !Lost(cand.ids, base.ids, id))
  }

  lemma ShippingErrorsIff(ids: Statuses)
    ensures ShippingErrors(ids) == [] <==> !ShippingFails(ids)
    ensures BaselineShippingErrors(ids) == [] <==> !ShippingFails(ids)
  {
    var xs := InOrder(FailedShipping(ids));
    if xs != [] {
      assert xs[0] in xs;
    } else {
      forall id | id in ids && id.mode == SHIPPING ensures FAIL !in ids[id] { assert id !in xs; }
    }
  }

  lemma SuccessIff(base: Reading, cand: Reading, policy: seq<Error>)
    ensures Verdict(base, cand, policy).success <==>
              && base.errors == [] && cand.errors == [] && policy == []
              && !ShippingFails(base.ids) && !ShippingFails(cand.ids)
              && (forall id :: Fails(cand.ids, id) ==> Fails(base.ids, id))
              && (forall id :: !Lost(cand.ids, base.ids, id))
  {
    ShippingErrorsIff(base.ids);
    ShippingErrorsIff(cand.ids);
    var novel, missing := NewFailures(cand.ids, base.ids), Missing(cand.ids, base.ids);
    assert novel == {} <==> forall id :: Fails(cand.ids, id) ==> Fails(base.ids, id) by {
      forall id ensures id in novel <==> Fails(cand.ids, id) && !Fails(base.ids, id) { }
    }
    assert missing == {} <==> forall id :: !Lost(cand.ids, base.ids, id) by {
      forall id ensures id in missing <==> Lost(cand.ids, base.ids, id) { }
    }
  }

  lemma AcceptsOn(c: Report, b: Report, base: Reading, cand: Reading, cand': Reading)
    requires Alike(cand', cand)
    ensures Verdict(base, cand, PolicyErrors(c, b)).success <==> NoRegression(c, b, cand', base)
  {
    SuccessIff(base, cand, PolicyErrors(c, b));
  }

  /** The loops of the gate accept exactly the candidates without a regression. */
  lemma AcceptsIff(cat: Catalog, c: Report, b: Report)
    ensures Accepts(cat, c, b) <==> NoRegression(c, b, Required(cat, c, Baseline), Required(cat, b, Baseline))
  {
    RequiredSide(cat, c);
    AcceptsOn(c, b, Required(cat, b, Baseline), Required(cat, c, Candidate), Required(cat, c, Baseline));
  }

  /** A report passes against itself exactly when it is usable: read without error, policy recorded, shipping clean. */
  lemma GateIsReflexive(cat: Catalog, r: Report)
    ensures Accepts(cat, r, r) <==> Acceptable(cat, r)
  {
    AcceptsIff(cat, r, r);
  }

  lemma RegressionComposes(a: Report, b: Report, c: Report, ra: Reading, rb: Reading, rc: Reading)
    requires NoRegression(b, a, rb, ra) && NoRegression(c, b, rc, rb)
    ensures NoRegression(c, a, rc, ra)
  {
    forall id ensures !Lost(rc.ids, ra.ids, id) {
      assert !Lost(rb.ids, ra.ids, id) && !Lost(rc.ids, rb.ids, id);
    }
  }

  lemma GateIsTransitive(cat: Catalog, a: Report, b: Report, c: Report)
    ensures Accepts(cat, b, a) && Accepts(cat, c, b) ==> Accepts(cat, c, a)
  {
    AcceptsIff(cat, b, a);
    AcceptsIff(cat, c, b);
    AcceptsIff(cat, c, a);
    if Accepts(cat, b, a) && Accepts(cat, c, b) {
      RegressionComposes(a, b, c, Required(cat, a, Baseline), Required(cat, b, Baseline), Required(cat, c, Baseline));
    }
  }

  ghost function Acceptance(cat: Catalog): (Report, Report) -> bool { (c: Report, b: Report) => Accepts(cat, c, b) }

  /** A usable report followed by reports each accepted against the one before. */
  ghost predicate Chained(cat: Catalog, rs: seq<Report>) {
    |rs| >= 1 && Acceptable(cat, rs[0]) && Linked(Acceptance(cat), rs)
  }

  lemma ChainAccepted(cat: Catalog, rs: seq<Report>)
    requires Chained(cat, rs)
    ensures Accepts(cat, rs[|rs| - 1], rs[0])
  {
    GateIsReflexive(cat, rs[0]);
    AcceptanceTransitive(cat);
    LinkedEnds(Acceptance(cat), rs);
  }

  lemma AcceptanceTransitive(cat: Catalog)
    ensures var r := Acceptance(cat); forall a, b, c :: r(b, a) && r(c, b) ==> r(c, a)
  {
    var r := Acceptance(cat);
    forall a, b, c | r(b, a) && r(c, b) ensures r(c, a) { GateIsTransitive(cat, a, b, c); }
  }

  lemma NoRegressionKeeps(c: Report, b: Report, cand: Reading, base: Reading)
    requires NoRegression(c, b, cand, base)
    ensures forall id :: Passes(base.ids, id) ==> Passes(cand.ids, id)
    ensures forall id :: Fails(cand.ids, id) ==> Fails(base.ids, id)
  {
    forall id | Passes(base.ids, id) ensures Passes(cand.ids, id) { assert !Lost(cand.ids, base.ids, id); }
  }

  /**
   * Along any chain of reports, each accepted against the one before, the last is accepted against
   * the first: no check that passed at first stops passing, and no failure appears.
   */
  lemma ChainOfBaselines(cat: Catalog, rs: seq<Report>)
    requires Chained(cat, rs)
    ensures Accepts(cat, rs[|rs| - 1], rs[0])
    ensures forall id :: Passes(Ids(cat, rs[0]), id) ==> Passes(Ids(cat, rs[|rs| - 1]), id)
    ensures forall id :: Fails(Ids(cat, rs[|rs| - 1]), id) ==> Fails(Ids(cat, rs[0]), id)
  {
    ChainAccepted(cat, rs);
    AcceptsIff(cat, rs[|rs| - 1], rs[0]);
    NoRegressionKeeps(rs[|rs| - 1], rs[0], Required(cat, rs[|rs| - 1], Baseline), Required(cat, rs[0], Baseline));
  }

  // ---------- the gate on the reports themselves ----------

  /** A full report that the gate can use, said of the report and not of the reading. */
  ghost predicate Sound(cat: Catalog, r: Report)
    requires r.body.Full?
  {
    && Reads.Declares(r) && r.body.cases.Some? && Reads.Complete(cat, r, r.body.cases.value) && r.automaticAuth.Some?
    && forall id: Identity :: id.mode == SHIPPING ==> !Reads.Tells(r.body.cases.value, id, FAIL)
  }

  ghost predicate Mirrors(ids: Statuses, cases: seq<Option<Case>>) {
    forall id :: (Fails(ids, id) <==> Reads.Tells(cases, id, FAIL)) && (Passes(ids, id) <==> Reads.Tells(cases, id, PASS))
  }

  lemma SoundIffUsable(cat: Catalog, r: Report)
    requires r.body.Full?
    ensures Acceptable(cat, r) <==> Sound(cat, r)
    ensures Sound(cat, r) ==> Mirrors(Ids(cat, r), r.body.cases.value)
  {
    Reads.FullReadingExact(cat, r, Baseline);
    var ids := Ids(cat, r);
    if Required(cat, r, Baseline).errors == [] {
      forall id ensures (Fails(ids, id) <==> Reads.Tells(r.body.cases.value, id, FAIL))
                     && (Passes(ids, id) <==> Reads.Tells(r.body.cases.value, id, PASS))
      {
        assert Reads.Has(ids, id, FAIL) <==> Fails(ids, id);
        assert Reads.Has(ids, id, PASS) <==> Passes(ids, id);
      }
      assert ShippingFails(ids) <==> exists id: Identity :: id.mode == SHIPPING && Fails(ids, id);
    }
  }

  /** What the candidate's cases record of one check, against what the baseline's record. */
  ghost predicate Upheld(c: seq<Option<Case>>, b: seq<Option<Case>>, id: Identity) {
    && (Reads.Tells(c, id, FAIL) ==> Reads.Tells(b, id, FAIL))
    && (Reads.Tells(b, id, PASS) ==> Reads.Tells(c, id, PASS))
    && (Reads.Tells(b, id, FAIL) ==> Reads.Tells(c, id, FAIL) || Reads.Tells(c, id, PASS))
  }

  lemma UpheldIff(cand: Statuses, base: Statuses, c: seq<Option<Case>>, b: seq<Option<Case>>)
    requires Mirrors(cand, c) && Mirrors(base, b)
    ensures (forall id :: Upheld(c, b, id)) <==>
              (forall id :: Fails(cand, id) ==> Fails(base, id)) && (forall id :: !Lost(cand, base, id))
  {
    forall id ensures Upheld(c, b, id) <==> (Fails(cand, id) ==> Fails(base, id)) && !Lost(cand, base, id) {
      assert Fails(cand, id) <==> Reads.Tells(c, id, FAIL);
      assert Fails(base, id) <==> Reads.Tells(b, id, FAIL);
    }
  }

  /**
   * Between full reports the gate accepts exactly when both are sound under one recorded policy, every
   * failure recorded by the candidate is one the baseline records, every recorded pass is kept, and
   * every check that failed is still there.
   */
  lemma AcceptsFullIff(cat: Catalog, c: Report, b: Report)
    requires c.body.Full? && b.body.Full?
    ensures Accepts(cat, c, b) <==>
              && Sound(cat, c) && Sound(cat, b) && c.automaticAuth == b.automaticAuth
              && forall id :: Upheld(c.body.cases.value, b.body.cases.value, id)
  {
    AcceptsIff(cat, c, b);
    SoundIffUsable(cat, c);
    SoundIffUsable(cat, b);
    if Sound(cat, c) && Sound(cat, b) { UpheldIff(Ids(cat, c), Ids(cat, b), c.body.cases.value, b.body.cases.value); }
  }

  lemma MirroredTells(ids: Statuses, cases: seq<Option<Case>>, id: Identity)
    requires Mirrors(ids, cases)
    ensures (Fails(ids, id) <==> Reads.Tells(cases, id, FAIL)) && (Passes(ids, id) <==> Reads.Tells(cases, id, PASS))
    ensures Fails(ids, id) || Passes(ids, id) ==> id in ids
  {
  }

  /**
   * Between sound full reports the gate's four lists are, in order: the checks that fail now and did
   * not; those that passed and do not, or failed and are gone; those that fail in both; and those that
   * failed, fail no more, and pass.
   */
  lemma GateListsFull(cat: Catalog, c: Report, b: Report)
    requires c.body.Full? && b.body.Full? && Sound(cat, c) && Sound(cat, b)
    ensures var g, cs, bs := Evaluate(cat, c, b), c.body.cases.value, b.body.cases.value;
            && Increasing(IdLt, g.newFailures) && Increasing(IdLt, g.missing) && Increasing(IdLt, g.known) && Increasing(IdLt, g.fixed)
            && (forall id :: id in g.newFailures <==> Reads.Tells(cs, id, FAIL) && !Reads.Tells(bs, id, FAIL))
            && (forall id :: id in g.known <==> Reads.Tells(cs, id, FAIL) && Reads.Tells(bs, id, FAIL))
            && (forall id :: id in g.missing <==> Gone(cs, bs, id))
            && (forall id :: id in g.fixed <==> Reads.Tells(bs, id, FAIL) && !Reads.Tells(cs, id, FAIL) && Reads.Tells(cs, id, PASS))
  {
    var cs, bs, cand, base := c.body.cases.value, b.body.cases.value, Ids(cat, c), Ids(cat, b);
    RequiredSide(cat, c);
    SoundIffUsable(cat, c);
    SoundIffUsable(cat, b);
    forall id ensures (id in NewFailures(cand, base) <==> Reads.Tells(cs, id, FAIL) && !Reads.Tells(bs, id, FAIL))
                   && (id in Known(cand, base) <==> Reads.Tells(cs, id, FAIL) && Reads.Tells(bs, id, FAIL))
                   && (id in Missing(cand, base) <==> Gone(cs, bs, id))
                   && (id in Fixed(cand, base) <==> Reads.Tells(bs, id, FAIL) && !Reads.Tells(cs, id, FAIL) && Reads.Tells(cs, id, PASS))
    {
      MirroredTells(cand, cs, id);
      MirroredTells(base, bs, id);
    }
  }

  /** A recorded pass that is no longer one, or a recorded failure of which nothing is left. */
  ghost predicate Gone(c: seq<Option<Case>>, b: seq<Option<Case>>, id: Identity) {
    || (Reads.Tells(b, id, PASS) && !Reads.Tells(c, id, PASS))
    || (Reads.Tells(b, id, FAIL) && !Reads.Tells(c, id, FAIL) && !Reads.Tells(c, id, PASS))
  }

  // ---------- coverage of the report itself ----------

  /** A required case of the report records that a check of this identity ran. */
  ghost predicate Recorded(cases: seq<Option<Case>>, id: Identity) { Reads.Tells(cases, id, PASS) || Reads.Tells(cases, id, FAIL) }

  ghost predicate CaseRecorded(cases: seq<Option<Case>>, mode: string, transport: string) {
    exists id: Identity :: Recorded(cases, id) && id.mode == mode && id.transport == transport
  }

  ghost predicate ScenarioRecorded(cases: seq<Option<Case>>, mode: string, scenario: string) {
    exists id: Identity :: Recorded(cases, id) && id.mode == mode && id.transport == "official-http" && ScenarioSource(id.source)
                           && id.scenario == scenario
  }

  ghost predicate ModeRecorded(cat: Catalog, cases: seq<Option<Case>>, m: string) {
    && CaseRecorded(cases, m, "stdio") && CaseRecorded(cases, m, "official-http")
    && (forall s :: s in cat(m) ==> ScenarioRecorded(cases, m, s))
  }

  /** The report's cases record a check that ran for every required case and scenario. */
  ghost predicate CasesCover(cat: Catalog, cases: seq<Option<Case>>) {
    ModeRecorded(cat, cases, SHIPPING) && ModeRecorded(cat, cases, LEGACY) && ModeRecorded(cat, cases, MODERN)
  }

  lemma RecordedIffRan(ids: Statuses, cases: seq<Option<Case>>)
    requires Mirrors(ids, cases)
    ensures forall id :: Recorded(cases, id) <==> Ran(ids, id)
  {
    forall id ensures Recorded(cases, id) <==> Ran(ids, id) {
      assert Fails(ids, id) <==> Reads.Tells(cases, id, FAIL);
    }
  }

  lemma ModeRecordedIff(cat: Catalog, ids: Statuses, cases: seq<Option<Case>>, m: string)
    requires forall id :: Recorded(cases, id) <==> Ran(ids, id)
    ensures ModeRecorded(cat, cases, m) <==> ModeCovered(cat, ids, m)
  {
    assert CaseRecorded(cases, m, "stdio") <==> RanCase(ids, m, "stdio");
    assert CaseRecorded(cases, m, "official-http") <==> RanCase(ids, m, "official-http");
    forall s ensures ScenarioRecorded(cases, m, s) <==> RanScenario(ids, m, s) { }
  }

  lemma CasesCoverIff(cat: Catalog, ids: Statuses, cases: seq<Option<Case>>)
    requires Mirrors(ids, cases)
    ensures CasesCover(cat, cases) <==> Coverage(cat, ids)
  {
    RecordedIffRan(ids, cases);
    ModeRecordedIff(cat, ids, cases, SHIPPING);
    ModeRecordedIff(cat, ids, cases, LEGACY);
    ModeRecordedIff(cat, ids, cases, MODERN);
  }

  /**
   * A full baseline compacts exactly when it is sound, and its compact form decides every candidate
   * as it does exactly when its own cases record a check that ran for every required case and scenario.
   */
  lemma FullBaselineCompacts(cat: Catalog, c: Report, b: Report)
    requires b.body.Full?
    ensures Compactable(cat, b) <==> Sound(cat, b)
    ensures Sound(cat, b) ==>
              (Evaluate(cat, c, CompactOf(cat, b)) == Evaluate(cat, c, b) <==> CasesCover(cat, b.body.cases.value))
  {
    SoundIffUsable(cat, b);
    if Sound(cat, b) {
      CasesCoverIff(cat, Ids(cat, b), b.body.cases.value);
      CompactBaselineDecidesTheSame(cat, c, b);
    }
  }
}
