/** The reviewer regression report, its compact baseline, and its gate. */
module ReviewGate {
  import opened Prelude
  import opened Ordering

  const MODES := ["2025-06-18", "2025-11-25", "2026-07-28"]
  const SCHEMA_VERSION := 1
  const BASELINE_KIND := "mcp-review-regression-baseline-v1"
  const REVIEWER := "codex-mcp-regression-suite"
  const PREFIX := "review/"

  datatype CaseId = CaseId(mode: string, transport: string)

  datatype CheckId = CheckId(mode: string, transport: string, name: string)

  function CaseOf(id: CheckId): CaseId { CaseId(id.mode, id.transport) }

  /** A list element of the wrong type is `None`, as is a field of the wrong type. */
  datatype Check = Check(name: string, success: Option<bool>)

  datatype Case = Case(id: CaseId, checks: Option<seq<Option<Check>>>, success: Option<bool>)

  datatype Summary = Summary(passed: Option<int>, failed: Option<int>, total: Option<int>,
                             casesPassed: Option<int>, casesTotal: Option<int>)

  datatype Buckets = Buckets(passing: Option<seq<Option<CheckId>>>, failing: Option<seq<Option<CheckId>>>)

  datatype Body =
    | Full(cases: Option<seq<Option<Case>>>, success: Option<bool>)
    | Compact(kind: string, requiredCases: Option<seq<Option<CaseId>>>, checks: Option<Buckets>)

  datatype Report = Report(schemaVersion: int, reviewer: string, modes: Option<seq<string>>, summary: Option<Summary>, body: Body)

  datatype Error =
    | WrongSchema | WrongReviewer | WrongModes | UnsupportedKind
    | NoCases | MalformedCase | DuplicateCase | UnexpectedCase
    | NoIdentities | NoBucket(success: bool) | MalformedCheck | DuplicateCheck
    | NoChecks(id: CaseId) | InconsistentCase(id: CaseId)
    | MissingCases(cases: set<CaseId>) | UnexpectedCases(cases: set<CaseId>)
    | InconsistentTotals | InconsistentSuccess

  type Outcomes = map<CheckId, bool>

  /** What reading has found so far. */
  datatype Reading = Reading(errors: seq<Error>, ids: Outcomes, observed: set<CaseId>)

  predicate GoodName(name: string) { PREFIX <= name }

  function Complain(r: Reading, e: Error): Reading { r.(errors := r.errors + [e]) }

  // ---------- compact reports ----------

  function ReadCaseIds(r: Reading, cases: seq<Option<CaseId>>): Reading {
    if cases == [] then r
    else
      var r' := ReadCaseIds(r, cases[..|cases| - 1]);
      var c := cases[|cases| - 1];
      if c.None? then Complain(r', MalformedCase)
      else if c.value in r'.observed then Complain(r', DuplicateCase)
      else r'.(observed := r'.observed + {c.value})
  }

  function ReadRecords(expected: set<CaseId>, r: Reading, records: seq<Option<CheckId>>, success: bool): Reading {
    if records == [] then r
    else
      var r' := ReadRecords(expected, r, records[..|records| - 1], success);
      var c := records[|records| - 1];
      if c.None? || !GoodName(c.value.name) || CaseOf(c.value) !in expected then Complain(r', MalformedCheck)
      else if c.value in r'.ids then Complain(r', DuplicateCheck)
      else r'.(ids := r'.ids[c.value := success])
  }

  function ReadBucket(expected: set<CaseId>, r: Reading, records: Option<seq<Option<CheckId>>>, success: bool): Reading {
    if records.None? then Complain(r, NoBucket(success)) else ReadRecords(expected, r, records.value, success)
  }

  function ReadCompact(expected: set<CaseId>, r: Reading, body: Body): Reading
    requires body.Compact?
  {
    var kinded := if body.kind != BASELINE_KIND then Complain(r, UnsupportedKind) else r;
    var cased := if body.requiredCases.None? then Complain(kinded, NoCases) else ReadCaseIds(kinded, body.requiredCases.value);
    if body.checks.None? then Complain(Complain(Complain(cased, NoIdentities), NoBucket(true)), NoBucket(false))
    else ReadBucket(expected, ReadBucket(expected, cased, body.checks.value.passing, true), body.checks.value.failing, false)
  }

  // ---------- full reports ----------

  datatype CaseState = CaseState(reading: Reading, success: bool)

  function ReadChecks(s: CaseState, id: CaseId, checks: seq<Option<Check>>): CaseState {
    if checks == [] then s
    else
      var s' := ReadChecks(s, id, checks[..|checks| - 1]);
      var c := checks[|checks| - 1];
      if c.None? || !GoodName(c.value.name) || c.value.success.None? then s'.(reading := Complain(s'.reading, MalformedCheck))
      else
        var check := CheckId(id.mode, id.transport, c.value.name);
        if check in s'.reading.ids then s'.(reading := Complain(s'.reading, DuplicateCheck))
        else CaseState(s'.reading.(ids := s'.reading.ids[check := c.value.success.value]), s'.success && c.value.success.value)
  }

  function ReadCase(expected: set<CaseId>, r: Reading, c: Option<Case>): Reading {
    if c.None? then Complain(r, MalformedCase)
    else if c.value.id !in expected then Complain(r, UnexpectedCase)
    else if c.value.id in r.observed then Complain(r, DuplicateCase)
    else
      var seen := r.(observed := r.observed + {c.value.id});
      if c.value.checks.None? || c.value.checks.value == [] then Complain(seen, NoChecks(c.value.id))
      else
        var s := ReadChecks(CaseState(seen, true), c.value.id, c.value.checks.value);
        if c.value.success != Some(s.success) then Complain(s.reading, InconsistentCase(c.value.id)) else s.reading
  }

  function ReadCases(expected: set<CaseId>, r: Reading, cases: seq<Option<Case>>): Reading {
    if cases == [] then r
    else ReadCase(expected, ReadCases(expected, r, cases[..|cases| - 1]), cases[|cases| - 1])
  }

  // ---------- totals ----------

  function Passing(ids: Outcomes): set<CheckId> { set id | id in ids && ids[id] }

  function Failing(ids: Outcomes): set<CheckId> { set id | id in ids && !ids[id] }

  /** A case with a check, all of whose checks succeeded. */
  predicate CasePassed(ids: Outcomes, c: CaseId) {
    (forall id :: id in ids && CaseOf(id) == c ==> ids[id]) && exists id :: id in ids && CaseOf(id) == c
  }

  function Totals(ids: Outcomes, observed: set<CaseId>): Summary {
    Summary(Some(|Passing(ids)|), Some(|ids| - |Passing(ids)|), Some(|ids|),
            Some(|set c | c in observed && CasePassed(ids, c)|), Some(|observed|))
  }

  function Closing(expected: set<CaseId>, rep: Report, r: Reading): seq<Error> {
    (if expected - r.observed != {} then [MissingCases(expected - r.observed)] else [])
    + (if r.observed - expected != {} then [UnexpectedCases(r.observed - expected)] else [])
    + (if rep.summary != Some(Totals(r.ids, r.observed)) then [InconsistentTotals] else [])
    + (if rep.body.Full? && rep.body.success != Some(r.observed != {} && Failing(r.ids) == {}) then [InconsistentSuccess] else [])
  }

  function Opening(rep: Report): seq<Error> {
    (if rep.schemaVersion != SCHEMA_VERSION then [WrongSchema] else [])
    + (if rep.reviewer != REVIEWER then [WrongReviewer] else [])
    + (if rep.modes != Some(MODES) then [WrongModes] else [])
  }

  function ReadBody(expected: set<CaseId>, rep: Report): Reading {
    var start := Reading(Opening(rep), map[], {});
    if rep.body.Compact? then ReadCompact(expected, start, rep.body)
    else if rep.body.cases.None? then Complain(start, NoCases)
    else ReadCases(expected, start, rep.body.cases.value)
  }

  /** The checks a reviewer report carries, with the errors that reading it finds. */
  function Required(expected: set<CaseId>, rep: Report): Reading {
    var r := ReadBody(expected, rep);
    r.(errors := r.errors + Closing(expected, rep, r))
  }

  // ---------- order ----------

  predicate CaseLt(a: CaseId, b: CaseId) { FieldsLt([a.mode, a.transport], [b.mode, b.transport]) }

  predicate CheckLt(a: CheckId, b: CheckId) { FieldsLt([a.mode, a.transport, a.name], [b.mode, b.transport, b.name]) }

  lemma CaseStrictTotal()
    ensures StrictTotal(CaseLt)
  {
    FieldsStrictTotal();
    forall a, b ensures CaseLt(a, b) || CaseLt(b, a) || a == b {
      var x, y := [a.mode, a.transport], [b.mode, b.transport];
      if x == y { assert x[0] == y[0] && x[1] == y[1]; }
    }
    forall a ensures !CaseLt(a, a) { }
    forall a, b, c | CaseLt(a, b) && CaseLt(b, c) ensures CaseLt(a, c) { }
  }

  lemma CheckStrictTotal()
    ensures StrictTotal(CheckLt)
  {
    FieldsStrictTotal();
    forall a, b ensures CheckLt(a, b) || CheckLt(b, a) || a == b {
      var x, y := [a.mode, a.transport, a.name], [b.mode, b.transport, b.name];
      if x == y { assert x[0] == y[0] && x[1] == y[1] && x[2] == y[2]; }
    }
    forall a ensures !CheckLt(a, a) { }
    forall a, b, c | CheckLt(a, b) && CheckLt(b, c) ensures CheckLt(a, c) { }
  }

  ghost function ChecksInOrder(s: set<CheckId>): (xs: seq<CheckId>)
    ensures Increasing(CheckLt, xs) && forall x :: x in xs <==> x in s
  {
    CheckStrictTotal();
    Sorted(CheckLt, s)
  }

  ghost function CasesInOrder(s: set<CaseId>): (xs: seq<CaseId>)
    ensures Increasing(CaseLt, xs) && forall x :: x in xs <==> x in s
  {
    CaseStrictTotal();
    Sorted(CaseLt, s)
  }

  function Present<T>(xs: seq<T>): seq<Option<T>> { seq(|xs|, i requires 0 <= i < |xs| => Some(xs[i])) }

  // ---------- compaction and the gate ----------

  predicate Clean(expected: set<CaseId>, rep: Report) { Required(expected, rep).errors == [] }

  /** The compact baseline of a report read without error. */
  ghost function CompactOf(expected: set<CaseId>, rep: Report): Report
    requires Clean(expected, rep)
  {
    var ids := Required(expected, rep).ids;
    Report(SCHEMA_VERSION, REVIEWER, Some(MODES), rep.summary,
           Compact(BASELINE_KIND, Some(Present(CasesInOrder(expected))),
                   Some(Buckets(Some(Present(ChecksInOrder(Passing(ids)))), Some(Present(ChecksInOrder(Failing(ids))))))))
  }

  datatype Gate = Gate(success: bool, errors: seq<Error>, known: seq<CheckId>, novel: seq<CheckId>,
                       missing: seq<CheckId>, repaired: seq<CheckId>)

  predicate FailsIn(ids: Outcomes, id: CheckId) { id in ids && !ids[id] }

  function Known(c: Outcomes, b: Outcomes): set<CheckId> { set id | id in c && !c[id] && FailsIn(b, id) }

  function Novel(c: Outcomes, b: Outcomes): set<CheckId> { set id | id in c && !c[id] && !FailsIn(b, id) }

  function Missing(c: Outcomes, b: Outcomes): set<CheckId> { set id | id in b && id !in c }

  function Repaired(c: Outcomes, b: Outcomes): set<CheckId> { set id | id in b && id in c && !b[id] && c[id] }

  ghost function Verdict(base: Reading, cand: Reading): Gate {
    var errors := base.errors + cand.errors;
    var novel, missing := Novel(cand.ids, base.ids), Missing(cand.ids, base.ids);
    Gate(errors == [] && novel == {} && missing == {}, errors,
         ChecksInOrder(Known(cand.ids, base.ids)), ChecksInOrder(novel),
         ChecksInOrder(missing), ChecksInOrder(Repaired(cand.ids, base.ids)))
  }

  /** The gate: a candidate report against a baseline report. */
  ghost function Evaluate(expected: set<CaseId>, c: Report, b: Report): Gate {
    Verdict(Required(expected, b), Required(expected, c))
  }

  // ---------- reading a full report ----------

  /** Every check read belongs to an expected case and bears a reviewer name. */
  ghost predicate GoodIds(expected: set<CaseId>, ids: Outcomes) {
    forall id :: id in ids ==> GoodName(id.name) && CaseOf(id) in expected
  }

  lemma {:induction false} ChecksRead(expected: set<CaseId>, s: CaseState, id: CaseId, checks: seq<Option<Check>>)
    requires GoodIds(expected, s.reading.ids) && id in expected
    ensures var t := ReadChecks(s, id, checks);
            GoodIds(expected, t.reading.ids) && (t.reading.errors == [] ==> s.reading.errors == [])
  {
    if checks != [] { ChecksRead(expected, s, id, checks[..|checks| - 1]); }
  }

  lemma {:induction false} CasesRead(expected: set<CaseId>, r: Reading, cases: seq<Option<Case>>)
    requires GoodIds(expected, r.ids)
    ensures var t := ReadCases(expected, r, cases);
            GoodIds(expected, t.ids) && (t.errors == [] ==> r.errors == [])
  {
    if cases != [] {
      var n := |cases| - 1;
      CasesRead(expected, r, cases[..n]);
      var t := ReadCases(expected, r, cases[..n]);
      if cases[n].Some? && cases[n].value.id in expected && cases[n].value.checks.Some? {
        var c := cases[n].value;
        ChecksRead(expected, CaseState(t.(observed := t.observed + {c.id}), true), c.id, c.checks.value);
      }
    }
  }

  lemma {:induction false} RecordsRead(expected: set<CaseId>, r: Reading, records: seq<Option<CheckId>>, success: bool)
    requires GoodIds(expected, r.ids)
    ensures var t := ReadRecords(expected, r, records, success);
            GoodIds(expected, t.ids) && (t.errors == [] ==> r.errors == [])
  {
    if records != [] { RecordsRead(expected, r, records[..|records| - 1], success); }
  }

  lemma {:induction false} CaseIdsRead(r: Reading, cases: seq<Option<CaseId>>)
    ensures ReadCaseIds(r, cases).ids == r.ids && (ReadCaseIds(r, cases).errors == [] ==> r.errors == [])
  {
    if cases != [] { CaseIdsRead(r, cases[..|cases| - 1]); }
  }

  lemma CompactRead(expected: set<CaseId>, r: Reading, body: Body)
    requires body.Compact? && r.ids == map[]
    ensures GoodIds(expected, ReadCompact(expected, r, body).ids)
    ensures ReadCompact(expected, r, body).errors == [] ==> r.errors == []
  {
    var kinded := if body.kind != BASELINE_KIND then Complain(r, UnsupportedKind) else r;
    var cased := if body.requiredCases.None? then Complain(kinded, NoCases) else ReadCaseIds(kinded, body.requiredCases.value);
    if body.requiredCases.Some? { CaseIdsRead(kinded, body.requiredCases.value); }
    if body.checks.Some? {
      var b := body.checks.value;
      var passing := ReadBucket(expected, cased, b.passing, true);
      if b.passing.Some? { RecordsRead(expected, cased, b.passing.value, true); }
      if b.failing.Some? { RecordsRead(expected, passing, b.failing.value, false); }
    }
  }

  /** An error-free report observes exactly the expected cases and carries only good checks. */
  lemma CleanRead(expected: set<CaseId>, rep: Report)
    requires Clean(expected, rep)
    ensures var r := Required(expected, rep);
            && rep.schemaVersion == SCHEMA_VERSION && rep.reviewer == REVIEWER && rep.modes == Some(MODES)
            && GoodIds(expected, r.ids) && r.observed == expected && rep.summary == Some(Totals(r.ids, r.observed))
            && (rep.body.Full? ==> rep.body.success == Some(expected != {} && Failing(r.ids) == {}))
  {
    var start, r := Reading(Opening(rep), map[], {}), ReadBody(expected, rep);
    if rep.body.Compact? { CompactRead(expected, start, rep.body); }
    else if rep.body.cases.Some? { CasesRead(expected, start, rep.body.cases.value); }
    assert expected - r.observed == {} && r.observed - expected == {};
    assert forall c :: c in r.observed <==> c in expected by {
      assert forall c :: c !in expected - r.observed && c !in r.observed - expected;
    }
  }

  // ---------- reading a compact report back ----------

  lemma PresentInOrder(s: set<CheckId>)
    ensures var xs := Present(ChecksInOrder(s));
            && (forall id :: Some(id) in xs <==> id in s) && (forall i :: 0 <= i < |xs| ==> xs[i].Some? && xs[i].value in s)
            && (forall i, j :: 0 <= i < j < |xs| ==> xs[i] != xs[j])
  {
    CheckStrictTotal();
    var ys := ChecksInOrder(s);
    var xs := Present(ys);
    forall i | 0 <= i < |xs| ensures xs[i].Some? && xs[i].value in s { assert ys[i] in ys; }
    forall i, j | 0 <= i < j < |xs| ensures xs[i] != xs[j] { assert CheckLt(ys[i], ys[j]); }
    forall id ensures Some(id) in xs <==> id in s {
      if id in s {
        var i :| 0 <= i < |ys| && ys[i] == id;
        assert xs[i] == Some(id);
      }
    }
  }

  lemma PresentCasesInOrder(s: set<CaseId>)
    ensures var xs := Present(CasesInOrder(s));
            && (forall id :: Some(id) in xs <==> id in s) && (forall i :: 0 <= i < |xs| ==> xs[i].Some?)
            && (forall i, j :: 0 <= i < j < |xs| ==> xs[i] != xs[j])
  {
    CaseStrictTotal();
    var ys := CasesInOrder(s);
    var xs := Present(ys);
    forall i, j | 0 <= i < j < |xs| ensures xs[i] != xs[j] { assert CaseLt(ys[i], ys[j]); }
    forall id ensures Some(id) in xs <==> id in s {
      if id in s {
        var i :| 0 <= i < |ys| && ys[i] == id;
        assert xs[i] == Some(id);
      }
      if Some(id) in xs {
        var i :| 0 <= i < |xs| && xs[i] == Some(id);
        assert ys[i] in ys;
      }
    }
  }

  lemma {:induction false} CaseIdsReadBack(r: Reading, cases: seq<Option<CaseId>>)
    requires forall i :: 0 <= i < |cases| ==> cases[i].Some? && cases[i].value !in r.observed
    requires forall i, j :: 0 <= i < j < |cases| ==> cases[i] != cases[j]
    ensures var t := ReadCaseIds(r, cases);
            t.errors == r.errors && t.ids == r.ids && forall c :: c in t.observed <==> c in r.observed || Some(c) in cases
  {
    if cases != [] {
      var n := |cases| - 1;
      CaseIdsReadBack(r, cases[..n]);
      assert cases == cases[..n] + [cases[n]] && cases[n] !in cases[..n];
    }
  }

  lemma {:induction false} RecordsReadBack(expected: set<CaseId>, r: Reading, records: seq<Option<CheckId>>, success: bool)
    requires forall i :: 0 <= i < |records| ==>
               records[i].Some? && GoodName(records[i].value.name) && CaseOf(records[i].value) in expected && records[i].value !in r.ids
    requires forall i, j :: 0 <= i < j < |records| ==> records[i] != records[j]
    ensures var t := ReadRecords(expected, r, records, success);
            && t.errors == r.errors && t.observed == r.observed
            && (forall id :: id in t.ids <==> id in r.ids || Some(id) in records)
            && (forall id :: id in t.ids ==> t.ids[id] == if id in r.ids then r.ids[id] else success)
  {
    if records != [] {
      var n := |records| - 1;
      RecordsReadBack(expected, r, records[..n], success);
      assert records == records[..n] + [records[n]] && records[n] !in records[..n];
    }
  }

  lemma BucketsReadBack(expected: set<CaseId>, r: Reading, ids: Outcomes)
    requires GoodIds(expected, ids) && r.ids == map[]
    ensures var passing := ReadRecords(expected, r, Present(ChecksInOrder(Passing(ids))), true);
            ReadRecords(expected, passing, Present(ChecksInOrder(Failing(ids))), false) == r.(ids := ids)
  {
    var ps, fs := Present(ChecksInOrder(Passing(ids))), Present(ChecksInOrder(Failing(ids)));
    PresentInOrder(Passing(ids));
    PresentInOrder(Failing(ids));
    RecordsReadBack(expected, r, ps, true);
    var passing := ReadRecords(expected, r, ps, true);
    RecordsReadBack(expected, passing, fs, false);
    var both := ReadRecords(expected, passing, fs, false);
    forall id ensures (id in both.ids <==> id in ids) && (id in ids ==> both.ids[id] == ids[id]) { }
    assert both.ids == ids;
  }

  lemma BodyReadBack(expected: set<CaseId>, ids: Outcomes, body: Body)
    requires GoodIds(expected, ids)
    requires body == Compact(BASELINE_KIND, Some(Present(CasesInOrder(expected))),
                             Some(Buckets(Some(Present(ChecksInOrder(Passing(ids)))), Some(Present(ChecksInOrder(Failing(ids)))))))
    ensures ReadCompact(expected, Reading([], map[], {}), body) == Reading([], ids, expected)
  {
    var start := Reading([], map[], {});
    var cases := Present(CasesInOrder(expected));
    PresentCasesInOrder(expected);
    CaseIdsReadBack(start, cases);
    var cased := ReadCaseIds(start, cases);
    assert cased.observed == expected;
    BucketsReadBack(expected, cased, ids);
  }

  /**
   * For every report without validation errors, reading its compact baseline finds no errors, the
   * same outcome for the same checks, and totals that match the copied summary.
   */
  lemma CompactRoundTrip(expected: set<CaseId>, rep: Report)
    requires Clean(expected, rep)
    ensures var back := Required(expected, CompactOf(expected, rep));
            && back == Required(expected, rep)
            && CompactOf(expected, rep).summary == Some(Totals(back.ids, back.observed))
  {
    CleanRead(expected, rep);
    var r, cb := Required(expected, rep), CompactOf(expected, rep);
    assert Opening(cb) == [];
    BodyReadBack(expected, r.ids, cb.body);
    assert ReadBody(expected, cb) == Reading([], r.ids, expected);
  }

  lemma CompactDecidesTheSame(expected: set<CaseId>, c: Report, b: Report)
    requires Clean(expected, b)
    ensures Evaluate(expected, c, CompactOf(expected, b)) == Evaluate(expected, c, b)
    ensures Clean(expected, CompactOf(expected, b))
    ensures CompactOf(expected, CompactOf(expected, b)) == CompactOf(expected, b)
  {
    CompactRoundTrip(expected, b);
  }

  // ---------- the gate relation ----------

  ghost predicate Accepts(expected: set<CaseId>, c: Report, b: Report) { Evaluate(expected, c, b).success }

  ghost predicate NoRegression(cand: Reading, base: Reading) {
    && base.errors == [] && cand.errors == []
    && (forall id :: FailsIn(cand.ids, id) ==> FailsIn(base.ids, id))
    && (forall id :: id in base.ids ==> id in cand.ids)
  }

  lemma AcceptsOn(base: Reading, cand: Reading)
    ensures Verdict(base, cand).success <==> NoRegression(cand, base)
  {
    var novel, missing := Novel(cand.ids, base.ids), Missing(cand.ids, base.ids);
    assert novel == {} <==> forall id :: FailsIn(cand.ids, id) ==> FailsIn(base.ids, id) by {
      forall id ensures id in novel <==> FailsIn(cand.ids, id) && !FailsIn(base.ids, id) { }
    }
    assert missing == {} <==> forall id :: id in base.ids ==> id in cand.ids by {
      forall id ensures id in missing <==> id in base.ids && id !in cand.ids { }
    }
  }

  lemma AcceptsIff(expected: set<CaseId>, c: Report, b: Report)
    ensures Accepts(expected, c, b) <==> NoRegression(Required(expected, c), Required(expected, b))
  {
    AcceptsOn(Required(expected, b), Required(expected, c));
  }

  /** A report passes against itself exactly when it reads without error. */
  lemma GateIsReflexive(expected: set<CaseId>, r: Report)
    ensures Accepts(expected, r, r) <==> Clean(expected, r)
  {
    AcceptsIff(expected, r, r);
  }

  lemma GateIsTransitive(expected: set<CaseId>, a: Report, b: Report, c: Report)
    ensures Accepts(expected, b, a) && Accepts(expected, c, b) ==> Accepts(expected, c, a)
  {
    AcceptsIff(expected, b, a);
    AcceptsIff(expected, c, b);
    AcceptsIff(expected, c, a);
  }

  /** No check disappears, no passing check fails, no failure appears. */
  ghost predicate NothingLost(was: Outcomes, now: Outcomes) {
    && (forall id :: id in was ==> id in now && (was[id] ==> now[id]))
    && (forall id :: FailsIn(now, id) ==> FailsIn(was, id))
  }

  lemma NoRegressionLosesNothing(cand: Reading, base: Reading)
    requires NoRegression(cand, base)
    ensures NothingLost(base.ids, cand.ids)
  {
    forall id | id in base.ids ensures id in cand.ids && (base.ids[id] ==> cand.ids[id]) {
      assert FailsIn(cand.ids, id) ==> FailsIn(base.ids, id);
    }
  }

  ghost function Acceptance(expected: set<CaseId>): (Report, Report) -> bool { (c: Report, b: Report) => Accepts(expected, c, b) }

  /** A usable report followed by reports each accepted against the one before. */
  ghost predicate Chained(expected: set<CaseId>, rs: seq<Report>) {
    |rs| >= 1 && Clean(expected, rs[0]) && Linked(Acceptance(expected), rs)
  }

  lemma ChainAccepted(expected: set<CaseId>, rs: seq<Report>)
    requires Chained(expected, rs)
    ensures Accepts(expected, rs[|rs| - 1], rs[0])
  {
    GateIsReflexive(expected, rs[0]);
    AcceptanceTransitive(expected);
    LinkedEnds(Acceptance(expected), rs);
  }

  lemma AcceptanceTransitive(expected: set<CaseId>)
    ensures var r := Acceptance(expected); forall a, b, c :: r(b, a) && r(c, b) ==> r(c, a)
  {
    var r := Acceptance(expected);
    forall a, b, c | r(b, a) && r(c, b) ensures r(c, a) { GateIsTransitive(expected, a, b, c); }
  }

  /** Along any chain of accepted reports no check disappears, no passing check fails, no failure appears. */
  lemma ChainOfBaselines(expected: set<CaseId>, rs: seq<Report>)
    requires Chained(expected, rs)
    ensures Accepts(expected, rs[|rs| - 1], rs[0])
    ensures NothingLost(Required(expected, rs[0]).ids, Required(expected, rs[|rs| - 1]).ids)
  {
    ChainAccepted(expected, rs);
    AcceptsIff(expected, rs[|rs| - 1], rs[0]);
    NoRegressionLosesNothing(Required(expected, rs[|rs| - 1]), Required(expected, rs[0]));
  }
}
