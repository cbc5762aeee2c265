/** The reviewer gate as it runs: loops proved against the readings. */
module ReviewLoops {
  import opened Prelude
  import opened Ordering
  import opened ReviewGate

  method CaseIdsLoop(start: Reading, cases: seq<Option<CaseId>>) returns (r: Reading)
    ensures r == ReadCaseIds(start, cases)
  {
    r := start;
    for i := 0 to |cases|
      invariant r == ReadCaseIds(start, cases[..i])
    {
      assert cases[..i + 1][..i] == cases[..i];
      if cases[i].None? { r := Complain(r, MalformedCase); }
      else if cases[i].value in r.observed { r := Complain(r, DuplicateCase); }
      else { r := r.(observed := r.observed + {cases[i].value}); }
    }
    assert cases[..|cases|] == cases;
  }

  method RecordsLoop(expected: set<CaseId>, start: Reading, records: seq<Option<CheckId>>, success: bool) returns (r: Reading)
    ensures r == ReadRecords(expected, start, records, success)
  {
    r := start;
    for i := 0 to |records|
      invariant r == ReadRecords(expected, start, records[..i], success)
    {
      assert records[..i + 1][..i] == records[..i];
      var c := records[i];
      if c.None? || !GoodName(c.value.name) || CaseOf(c.value) !in expected { r := Complain(r, MalformedCheck); }
      else if c.value in r.ids { r := Complain(r, DuplicateCheck); }
      else { r := r.(ids := r.ids[c.value := success]); }
    }
    assert records[..|records|] == records;
  }

  method ChecksLoop(start: Reading, id: CaseId, checks: seq<Option<Check>>) returns (s: CaseState)
    ensures s == ReadChecks(CaseState(start, true), id, checks)
  {
    var r, caseSuccess := start, true;
    for i := 0 to |checks|
      invariant CaseState(r, caseSuccess) == ReadChecks(CaseState(start, true), id, checks[..i])
    {
      assert checks[..i + 1][..i] == checks[..i];
      var c := checks[i];
      if c.None? || !GoodName(c.value.name) || c.value.success.None? {
        r := Complain(r, MalformedCheck);
      } else {
        var check := CheckId(id.mode, id.transport, c.value.name);
        if check in r.ids {
          r := Complain(r, DuplicateCheck);
        } else {
          r := r.(ids := r.ids[check := c.value.success.value]);
          caseSuccess := caseSuccess && c.value.success.value;
        }
      }
    }
    assert checks[..|checks|] == checks;
    s := CaseState(r, caseSuccess);
  }

  method CasesLoop(expected: set<CaseId>, start: Reading, cases: seq<Option<Case>>) returns (r: Reading)
    ensures r == ReadCases(expected, start, cases)
  {
    r := start;
    for i := 0 to |cases|
      invariant r == ReadCases(expected, start, cases[..i])
    {
      assert cases[..i + 1][..i] == cases[..i];
      if cases[i].None? { r := Complain(r, MalformedCase); continue; }
      var c := cases[i].value;
      if c.id !in expected { r := Complain(r, UnexpectedCase); continue; }
      if c.id in r.observed { r := Complain(r, DuplicateCase); continue; }
      r := r.(observed := r.observed + {c.id});
      if c.checks.None? || c.checks.value == [] { r := Complain(r, NoChecks(c.id)); continue; }
      var s := ChecksLoop(r, c.id, c.checks.value);
      r := s.reading;
      if c.success != Some(s.success) { r := Complain(r, InconsistentCase(c.id)); }
    }
    assert cases[..|cases|] == cases;
  }

  /** Reads a reviewer report as the gate does. */
  method RequiredChecks(expected: set<CaseId>, rep: Report) returns (r: Reading)
    ensures r == Required(expected, rep)
  {
    r := Reading(Opening(rep), map[], {});
    if rep.body.Compact? {
      if rep.body.kind != BASELINE_KIND { r := Complain(r, UnsupportedKind); }
      if rep.body.requiredCases.None? { r := Complain(r, NoCases); }
      else { r := CaseIdsLoop(r, rep.body.requiredCases.value); }
      var buckets := Buckets(None, None);
      if rep.body.checks.None? { r := Complain(r, NoIdentities); } else { buckets := rep.body.checks.value; }
      if buckets.passing.None? { r := Complain(r, NoBucket(true)); }
      else { r := RecordsLoop(expected, r, buckets.passing.value, true); }
      if buckets.failing.None? { r := Complain(r, NoBucket(false)); }
      else { r := RecordsLoop(expected, r, buckets.failing.value, false); }
    } else if rep.body.cases.None? {
      r := Complain(r, NoCases);
    } else {
      r := CasesLoop(expected, r, rep.body.cases.value);
    }
    r := r.(errors := r.errors + Closing(expected, rep, r));
  }

  // ---------- the gate ----------

  method SortChecks(s: set<CheckId>) returns (xs: seq<CheckId>)
    ensures xs == ChecksInOrder(s)
  {
    CheckStrictTotal();
    xs := Sort(CheckLt, s);
  }

  method CandidateLoop(cand: Outcomes, base: Outcomes) returns (known: seq<CheckId>, novel: seq<CheckId>)
    ensures known == ChecksInOrder(Known(cand, base)) && novel == ChecksInOrder(Novel(cand, base))
  {
    var order := SortChecks(cand.Keys);
    known, novel := [], [];
    for i := 0 to |order|
      invariant known == Filter(order[..i], Known(cand, base)) && novel == Filter(order[..i], Novel(cand, base))
    {
      FilterStep(order, i, Known(cand, base));
      FilterStep(order, i, Novel(cand, base));
      var id := order[i];
      assert id in order;
      if cand[id] { continue; }
      if id in base && !base[id] { known := known + [id]; } else { novel := novel + [id]; }
    }
    assert order[..|order|] == order;
    CheckStrictTotal();
    FilterSorts(CheckLt, cand.Keys, Known(cand, base));
    FilterSorts(CheckLt, cand.Keys, Novel(cand, base));
  }

  method BaselineLoop(cand: Outcomes, base: Outcomes) returns (missing: seq<CheckId>, repaired: seq<CheckId>)
    ensures missing == ChecksInOrder(Missing(cand, base)) && repaired == ChecksInOrder(Repaired(cand, base))
  {
    var order := SortChecks(base.Keys);
    missing, repaired := [], [];
    for i := 0 to |order|
      invariant missing == Filter(order[..i], Missing(cand, base)) && repaired == Filter(order[..i], Repaired(cand, base))
    {
      FilterStep(order, i, Missing(cand, base));
      FilterStep(order, i, Repaired(cand, base));
      var id := order[i];
      assert id in order;
      if id !in cand { missing := missing + [id]; }
      else if !base[id] && cand[id] { repaired := repaired + [id]; }
    }
    assert order[..|order|] == order;
    CheckStrictTotal();
    FilterSorts(CheckLt, base.Keys, Missing(cand, base));
    FilterSorts(CheckLt, base.Keys, Repaired(cand, base));
  }

  /** Evaluates the reviewer gate on a candidate and a baseline. */
  method EvaluateGate(expected: set<CaseId>, c: Report, b: Report) returns (g: Gate)
    ensures g == Evaluate(expected, c, b)
  {
    var base := RequiredChecks(expected, b);
    var cand := RequiredChecks(expected, c);
    g := VerdictLoop(base, cand);
  }

  method VerdictLoop(base: Reading, cand: Reading) returns (g: Gate)
    ensures g == Verdict(base, cand)
  {
    var known, novel := CandidateLoop(cand.ids, base.ids);
    var missing, repaired := BaselineLoop(cand.ids, base.ids);
    var errors := base.errors + cand.errors;
    g := Gate(errors == [] && novel == [] && missing == [], errors, known, novel, missing, repaired);
    CheckStrictTotal();
    SortedEmpty(CheckLt, Novel(cand.ids, base.ids));
    SortedEmpty(CheckLt, Missing(cand.ids, base.ids));
  }
}
