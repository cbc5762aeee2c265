/** The gate as it runs: loops that fill dictionaries and lists, proved against the readings. */
module ComplianceLoops {
  import opened Prelude
  import opened Ordering
  import opened ComplianceReport
  import opened ComplianceGate

  method BucketLoop(start: Reading, records: seq<Option<Identity>>, st: Status, side: Side) returns (r: Reading)
    ensures r == ReadBucket(start, Some(records), st, side)
  {
    var errors, ids, seen: set<Identity> := start.errors, start.ids, {};
    for i := 0 to |records|
      invariant BucketState(errors, ids, seen) == ReadRecords(BucketState(start.errors, start.ids, {}), records[..i], st, side)
    {
      assert records[..i + 1][..i] == records[..i];
      var record := records[i];
      if record.None? || !GoodIdentity(record.value) {
        errors := errors + [MalformedIdentity(side, st)];
      } else if record.value in seen {
        errors := errors + [DuplicateIdentity(side, st)];
      } else {
        seen := seen + {record.value};
        ids := With(ids, record.value, st);
      }
    }
    assert records[..|records|] == records;
    r := Reading(errors, ids);
  }

  method CasesLoop(start: seq<Error>, list: seq<Option<Case>>, side: Side) returns (t: CaseTable)
    ensures t == ReadCases(start, list, side)
  {
    var errors, cases: map<(string, string), Case> := start, map[];
    for i := 0 to |list|
      invariant CaseTable(errors, cases) == ReadCases(start, list[..i], side)
    {
      assert list[..i + 1][..i] == list[..i];
      var case_ := list[i];
      if case_.None? {
        errors := errors + [MalformedCase(side)];
      } else if case_.value.mode in MODES {
        if case_.value.transport.None? {
          errors := errors + [MalformedRequiredCase(side)];
        } else {
          var key := (case_.value.mode, case_.value.transport.value);
          if key in cases {
            errors := errors + [DuplicateCase(side, key.0, key.1)];
          } else {
            cases := cases[key := case_.value];
          }
        }
      }
    }
    assert list[..|list|] == list;
    t := CaseTable(errors, cases);
  }

  method ChecksLoop(start: Reading, checks: seq<Option<Check>>, mode: string, transport: string, side: Side) returns (s: CheckState)
    ensures s == ReadChecks(CheckState(start.errors, start.ids, {}), checks, mode, transport, side)
  {
    var errors, ids, observed: set<string> := start.errors, start.ids, {};
    for i := 0 to |checks|
      invariant CheckState(errors, ids, observed) ==
                ReadChecks(CheckState(start.errors, start.ids, {}), checks[..i], mode, transport, side)
    {
      assert checks[..i + 1][..i] == checks[..i];
      if !GoodCheck(mode, transport, checks[i]) {
        errors := errors + [MalformedCheck(side, mode, transport)];
      } else {
        var id := IdentityOf(mode, transport, checks[i].value).value;
        ids := With(ids, id, checks[i].value.status.value);
        if transport == "official-http" && ScenarioSource(id.source) { observed := observed + {id.scenario}; }
      }
    }
    assert checks[..|checks|] == checks;
    s := CheckState(errors, ids, observed);
  }

  /** The identities of a set in order, with a list filled as a loop over them goes. */
  method InOrderLoop(s: set<Identity>) returns (xs: seq<Identity>)
    ensures xs == InOrder(s)
  {
    IdStrictTotal();
    xs := Sort(IdLt, s);
  }

  lemma CheckIdsGrow(xs: seq<Identity>, x: Identity, make: string -> Error)
    ensures CheckIds(xs + [x], make) == CheckIds(xs, make) + [make(x.checkId)]
  {
  }

  /** The loop over the candidate's checks, whatever their order. */
  method CandidateLoop(order: seq<Identity>, cand: Statuses, base: Statuses)
    returns (ghost shipping: seq<Identity>, errors: seq<Error>, novel: seq<Identity>, known: seq<Identity>)
    requires forall id :: id in order ==> id in cand
    ensures shipping == Filter(order, FailedShipping(cand)) && errors == CheckIds(shipping, AsShipping)
    ensures novel == Filter(order, NewFailures(cand, base)) && known == Filter(order, Known(cand, base))
  {
    shipping, errors, novel, known := [], [], [], [];
    for i := 0 to |order|
      invariant shipping == Filter(order[..i], FailedShipping(cand)) && errors == CheckIds(shipping, AsShipping)
      invariant novel == Filter(order[..i], NewFailures(cand, base)) && known == Filter(order[..i], Known(cand, base))
    {
      var id := order[i];
      FilterStep(order, i, FailedShipping(cand));
      FilterStep(order, i, NewFailures(cand, base));
      FilterStep(order, i, Known(cand, base));
      if FAIL in cand[id] {
        if id.mode == SHIPPING {
          CheckIdsGrow(shipping, id, AsShipping);
          errors := errors + [ShippingFailed(id.checkId)];
          shipping := shipping + [id];
        }
        if FAIL in StatusesOf(base, id) { known := known + [id]; } else { novel := novel + [id]; }
      }
    }
    assert order[..|order|] == order;
  }

  /** The loop over the baseline's checks, whatever their order. */
  method BaselineLoop(order: seq<Identity>, cand: Statuses, base: Statuses)
    returns (ghost shipping: seq<Identity>, errors: seq<Error>, missing: seq<Identity>, repaired: seq<Identity>)
    requires forall id :: id in order ==> id in base
    ensures shipping == Filter(order, FailedShipping(base)) && errors == CheckIds(shipping, AsBaselineShipping)
    ensures missing == Filter(order, Missing(cand, base)) && repaired == Filter(order, Fixed(cand, base))
  {
    shipping, errors, missing, repaired := [], [], [], [];
    for i := 0 to |order|
      invariant shipping == Filter(order[..i], FailedShipping(base)) && errors == CheckIds(shipping, AsBaselineShipping)
      invariant missing == Filter(order[..i], Missing(cand, base)) && repaired == Filter(order[..i], Fixed(cand, base))
    {
      var id := order[i];
      FilterStep(order, i, FailedShipping(base));
      FilterStep(order, i, Missing(cand, base));
      FilterStep(order, i, Fixed(cand, base));
      var was, now := base[id], StatusesOf(cand, id);
      if id.mode == SHIPPING && FAIL in was {
        CheckIdsGrow(shipping, id, AsBaselineShipping);
        errors := errors + [BaselineShippingFailed(id.checkId)];
        shipping := shipping + [id];
      }
      if PASS in was && PASS !in now {
        missing := missing + [id];
      } else if FAIL in was && FAIL !in now && PASS !in now {
        missing := missing + [id];
      } else if FAIL in was && FAIL !in now {
        repaired := repaired + [id];
      }
    }
    assert order[..|order|] == order;
  }

  method CaseLoop(cat: Catalog, start: Reading, t: map<(string, string), Case>, mode: string, transport: string, side: Side)
    returns (r: Reading)
    ensures r == ReadCase(cat, start, t, mode, transport, side)
  {
    if (mode, transport) !in t { return start.(errors := start.errors + [MissingCase(side, mode, transport)]); }
    var checks := t[(mode, transport)].checks;
    if checks.None? || checks.value == [] { return start.(errors := start.errors + [NoChecks(side, mode, transport)]); }
    var s := ChecksLoop(start, checks.value, mode, transport, side);
    r := Reading(s.errors, s.ids);
    if transport == "official-http" {
      r := r.(errors := r.errors + ScenarioErrors(cat, side, mode, s.observed));
    }
  }

  method ModeLoop(cat: Catalog, rep: Report, start: Reading, t: map<(string, string), Case>, mode: string, side: Side)
    returns (r: Reading)
    ensures r == ReadMode(cat, rep, start, t, mode, side)
  {
    r := CaseLoop(cat, start.(errors := start.errors + CatalogErrors(cat, rep, side, mode)), t, mode, "stdio", side);
    r := CaseLoop(cat, r, t, mode, "official-http", side);
  }

  /** Reads a report as the gate does. */
  method RequiredChecks(cat: Catalog, rep: Report, side: Side) returns (r: Reading)
    ensures r == Required(cat, rep, side)
  {
    if rep.body.Compact? {
      if rep.body.kind != COMPACT_KIND { return Reading(HeaderErrors(rep, side) + [UnsupportedKind(side)], map[]); }
      r := Reading(CompactHeaderErrors(rep, side), map[]);
      if rep.body.checks.None? { return r.(errors := r.errors + [NoIdentities(side)]); }
      var b := rep.body.checks.value;
      if b.passing.None? { r := r.(errors := r.errors + [NoBucket(side, PASS)]); }
      else { r := BucketLoop(r, b.passing.value, PASS, side); }
      if b.failing.None? { r := r.(errors := r.errors + [NoBucket(side, FAIL)]); }
      else { r := BucketLoop(r, b.failing.value, FAIL, side); }
      r := r.(errors := r.errors + CompactModesErrors(cat, rep, side, r.ids));
    } else {
      var table := CaseTable(HeaderErrors(rep, side) + [NoCases(side)], map[]);
      if rep.body.cases.Some? { table := CasesLoop(HeaderErrors(rep, side), rep.body.cases.value, side); }
      r := ModeLoop(cat, rep, Reading(table.errors, map[]), table.cases, SHIPPING, side);
      r := ModeLoop(cat, rep, r, table.cases, LEGACY, side);
      r := ModeLoop(cat, rep, r, table.cases, MODERN, side);
    }
  }

  /** Evaluates the gate on a candidate and a baseline. */
  method EvaluateGate(cat: Catalog, c: Report, b: Report) returns (g: Gate)
    ensures g == Evaluate(cat, c, b)
  {
    var base := RequiredChecks(cat, b, Baseline);
    var cand := RequiredChecks(cat, c, Candidate);
    g := VerdictLoop(base, cand, PolicyErrors(c, b));
  }

  method VerdictLoop(base: Reading, cand: Reading, policy: seq<Error>) returns (g: Gate)
    ensures g == Verdict(base, cand, policy)
  {
    ghost var ghostShipping;
    var candOrder := InOrderLoop(cand.ids.Keys);
    var shipping, novel, known;
    ghostShipping, shipping, novel, known := CandidateLoop(candOrder, cand.ids, base.ids);
    CandidateSorted(cand.ids, base.ids);
    var baseOrder := InOrderLoop(base.ids.Keys);
    var baselineShipping, missing, repaired;
    ghostShipping, baselineShipping, missing, repaired := BaselineLoop(baseOrder, cand.ids, base.ids);
    BaselineSorted(cand.ids, base.ids);
    var errors := base.errors + cand.errors + policy + shipping + baselineShipping;
    g := Gate(errors == [] && novel == [] && missing == [], errors, novel, missing, known, repaired);
    IdStrictTotal();
    SortedEmpty(IdLt, NewFailures(cand.ids, base.ids));
    SortedEmpty(IdLt, Missing(cand.ids, base.ids));
  }

  lemma CandidateSorted(cand: Statuses, base: Statuses)
    ensures Filter(InOrder(cand.Keys), FailedShipping(cand)) == InOrder(FailedShipping(cand))
    ensures Filter(InOrder(cand.Keys), NewFailures(cand, base)) == InOrder(NewFailures(cand, base))
    ensures Filter(InOrder(cand.Keys), Known(cand, base)) == InOrder(Known(cand, base))
  {
    IdStrictTotal();
    FilterSorts(IdLt, cand.Keys, FailedShipping(cand));
    FilterSorts(IdLt, cand.Keys, NewFailures(cand, base));
    FilterSorts(IdLt, cand.Keys, Known(cand, base));
  }

  lemma BaselineSorted(cand: Statuses, base: Statuses)
    ensures Filter(InOrder(base.Keys), FailedShipping(base)) == InOrder(FailedShipping(base))
    ensures Filter(InOrder(base.Keys), Missing(cand, base)) == InOrder(Missing(cand, base))
    ensures Filter(InOrder(base.Keys), Fixed(cand, base)) == InOrder(Fixed(cand, base))
  {
    IdStrictTotal();
    FilterSorts(IdLt, base.Keys, FailedShipping(base));
    FilterSorts(IdLt, base.Keys, Missing(cand, base));
    FilterSorts(IdLt, base.Keys, Fixed(cand, base));
  }
}
