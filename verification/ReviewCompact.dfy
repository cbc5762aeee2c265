/** What reading a compact reviewer baseline means, and what the reviewer gate lists, said without their loops. */
module ReviewCompact {
  import opened Prelude
  import opened Ordering
  import opened ReviewGate
  import opened ReviewReading

  // ---------- the required cases ----------

  ghost predicate GoodCaseIds(cases: seq<Option<CaseId>>) {
    && (forall i :: 0 <= i < |cases| ==> cases[i].Some?)
    && (forall i, k :: 0 <= i < k < |cases| ==> cases[i] != cases[k])
  }

  lemma {:induction false} CaseIdsExact(r: Reading, cases: seq<Option<CaseId>>)
    requires r.errors == [] && r.observed == {}
    ensures var t := ReadCaseIds(r, cases);
            && t.ids == r.ids && (t.errors == [] <==> GoodCaseIds(cases))
            && (t.errors == [] ==> forall c :: c in t.observed <==> Some(c) in cases)
  {
    if cases != [] {
      var n := |cases| - 1;
      CaseIdsExact(r, cases[..n]);
      assert cases == cases[..n] + [cases[n]];
      assert GoodCaseIds(cases) <==> GoodCaseIds(cases[..n]) && cases[n].Some? && cases[n] !in cases[..n] by {
        assert forall i :: 0 <= i < n ==> cases[..n][i] == cases[i];
      }
    }
  }

  lemma {:induction false} CaseIdErrorsStay(r: Reading, cases: seq<Option<CaseId>>)
    requires r.errors != []
    ensures ReadCaseIds(r, cases).errors != []
  {
    if cases != [] { CaseIdErrorsStay(r, cases[..|cases| - 1]); }
  }

  // ---------- the recorded checks ----------

  predicate RecordOk(expected: set<CaseId>, record: Option<CheckId>) {
    record.Some? && "review/" <= record.value.name && CaseId(record.value.mode, record.value.transport) in expected
  }

  /** Every record is a reviewer check of a required case, none comes twice, and none is in `ids`. */
  ghost predicate GoodRecords(expected: set<CaseId>, ids: Outcomes, records: seq<Option<CheckId>>) {
    && (forall i :: 0 <= i < |records| ==> RecordOk(expected, records[i]) && records[i].value !in ids)
    && (forall i, k :: 0 <= i < k < |records| ==> records[i] != records[k])
  }

  ghost predicate Recorded(ids: Outcomes, ids': Outcomes, records: seq<Option<CheckId>>, success: bool) {
    forall x, b :: Holds(ids', x, b) <==> Holds(ids, x, b) || (b == success && Some(x) in records)
  }

  lemma GoodRecordsLast(expected: set<CaseId>, ids: Outcomes, records: seq<Option<CheckId>>, n: nat)
    requires |records| == n + 1
    ensures GoodRecords(expected, ids, records) <==>
              && GoodRecords(expected, ids, records[..n])
              && RecordOk(expected, records[n]) && records[n].value !in ids && records[n] !in records[..n]
  {
    assert forall i :: 0 <= i < n ==> records[..n][i] == records[i];
  }

  lemma RecordAdded(ids: Outcomes, ids': Outcomes, records: seq<Option<CheckId>>, success: bool, x: CheckId)
    requires Recorded(ids, ids', records, success) && x !in ids && Some(x) !in records
    ensures x !in ids' && Recorded(ids, ids'[x := success], records + [Some(x)], success)
  {
    assert x in ids' ==> Holds(ids', x, ids'[x]);
    var more, ids'' := records + [Some(x)], ids'[x := success];
    forall y, b ensures Holds(ids'', y, b) <==> Holds(ids, y, b) || (b == success && Some(y) in more) {
      assert Holds(ids', y, b) <==> Holds(ids, y, b) || (b == success && Some(y) in records);
      assert Some(y) in more <==> Some(y) in records || y == x;
    }
    assert Recorded(ids, ids'', more, success);
  }

  lemma {:induction false} RecordsExact(expected: set<CaseId>, r: Reading, records: seq<Option<CheckId>>, success: bool)
    requires r.errors == []
    ensures var t := ReadRecords(expected, r, records, success);
            && t.observed == r.observed && (t.errors == [] <==> GoodRecords(expected, r.ids, records))
            && (t.errors == [] ==> Recorded(r.ids, t.ids, records, success))
  {
    if records != [] {
      var n := |records| - 1;
      RecordsExact(expected, r, records[..n], success);
      GoodRecordsLast(expected, r.ids, records, n);
      var t := ReadRecords(expected, r, records[..n], success);
      assert records == records[..n] + [records[n]];
      if t.errors == [] && RecordOk(expected, records[n]) { RecordStep(r, t, records, n, success); }
    }
  }

  lemma RecordStep(r: Reading, t: Reading, records: seq<Option<CheckId>>, n: nat, success: bool)
    requires |records| == n + 1 && records[n].Some? && Recorded(r.ids, t.ids, records[..n], success)
    ensures records[n].value in t.ids <==> records[n].value in r.ids || records[n] in records[..n]
    ensures records[n].value !in t.ids ==> Recorded(r.ids, t.ids[records[n].value := success], records, success)
  {
    var x := records[n].value;
    assert records == records[..n] + [Some(x)];
    if x in t.ids { assert Holds(t.ids, x, t.ids[x]); }
    if x in r.ids { assert Holds(r.ids, x, r.ids[x]); assert Holds(t.ids, x, r.ids[x]); }
    if Some(x) in records[..n] { assert Holds(t.ids, x, success); }
    if x !in t.ids { RecordAdded(r.ids, t.ids, records[..n], success, x); }
  }

  lemma {:induction false} RecordErrorsStay(expected: set<CaseId>, r: Reading, records: seq<Option<CheckId>>, success: bool)
    requires r.errors != []
    ensures ReadRecords(expected, r, records, success).errors != []
  {
    if records != [] { RecordErrorsStay(expected, r, records[..|records| - 1], success); }
  }

  // ---------- the baseline ----------

  /** The outcomes are the recorded ones: the passing list succeeded, the failing list failed. */
  ghost predicate RecordedBy(ids: Outcomes, passing: seq<Option<CheckId>>, failing: seq<Option<CheckId>>) {
    forall x, b :: Holds(ids, x, b) <==> (b && Some(x) in passing) || (!b && Some(x) in failing)
  }

  ghost predicate GoodLists(expected: set<CaseId>, passing: seq<Option<CheckId>>, failing: seq<Option<CheckId>>) {
    && GoodRecords(expected, map[], passing) && GoodRecords(expected, map[], failing)
    && (forall x :: !(Some(x) in passing && Some(x) in failing))
  }

  lemma ListsExact(expected: set<CaseId>, r: Reading, passing: seq<Option<CheckId>>, failing: seq<Option<CheckId>>)
    requires r.errors == [] && r.ids == map[]
    ensures var t := ReadRecords(expected, ReadRecords(expected, r, passing, true), failing, false);
            && t.observed == r.observed && (t.errors == [] <==> GoodLists(expected, passing, failing))
            && (t.errors == [] ==> RecordedBy(t.ids, passing, failing))
  {
    RecordsExact(expected, r, passing, true);
    var p := ReadRecords(expected, r, passing, true);
    if p.errors == [] {
      RecordsExact(expected, p, failing, false);
      forall x ensures x in p.ids <==> Some(x) in passing {
        if x in p.ids { assert Holds(p.ids, x, p.ids[x]); }
        if Some(x) in passing { assert Holds(p.ids, x, true); }
      }
      FailingApart(expected, p.ids, passing, failing);
    } else {
      RecordErrorsStay(expected, p, failing, false);
    }
  }

  lemma FailingApart(expected: set<CaseId>, ids: Outcomes, passing: seq<Option<CheckId>>, failing: seq<Option<CheckId>>)
    requires forall x :: x in ids <==> Some(x) in passing
    ensures GoodRecords(expected, ids, failing) <==>
              GoodRecords(expected, map[], failing) && forall x :: !(Some(x) in passing && Some(x) in failing)
  {
    if GoodRecords(expected, ids, failing) {
      forall x | Some(x) in failing ensures Some(x) !in passing {
        var i :| 0 <= i < |failing| && failing[i] == Some(x);
        assert failing[i].value !in ids;
      }
    }
  }

  lemma RecordedIsUnique(ids: Outcomes, ids': Outcomes, passing: seq<Option<CheckId>>, failing: seq<Option<CheckId>>)
    requires RecordedBy(ids, passing, failing) && RecordedBy(ids', passing, failing)
    ensures ids == ids'
  {
    forall x ensures x in ids <==> x in ids' {
      if x in ids { assert Holds(ids, x, ids[x]); assert Holds(ids', x, ids[x]); }
      if x in ids' { assert Holds(ids', x, ids'[x]); assert Holds(ids, x, ids'[x]); }
    }
    forall x | x in ids ensures ids[x] == ids'[x] { assert Holds(ids, x, ids[x]); assert Holds(ids', x, ids[x]); }
  }

  /** The baseline lists exactly the required cases, once each. */
  ghost predicate ListsCases(expected: set<CaseId>, cases: seq<Option<CaseId>>) {
    GoodCaseIds(cases) && forall c :: c in expected <==> Some(c) in cases
  }

  ghost predicate CompleteCompact(expected: set<CaseId>, rep: Report, passing: seq<Option<CheckId>>, failing: seq<Option<CheckId>>) {
    && GoodLists(expected, passing, failing)
    && exists ids :: RecordedBy(ids, passing, failing) && TotalsCount(expected, rep.summary, ids)
  }

  lemma CompactClosing(expected: set<CaseId>, rep: Report, r: Reading, cases: seq<Option<CaseId>>)
    requires rep.body.Compact? && forall c :: c in r.observed <==> Some(c) in cases
    ensures Closing(expected, rep, r) == [] <==>
              (forall c :: c in expected <==> Some(c) in cases) && TotalsCount(expected, rep.summary, r.ids)
  {
    assert expected == r.observed <==> forall c :: c in expected <==> Some(c) in cases;
    assert expected == r.observed <==> expected - r.observed == {} && r.observed - expected == {};
    TotalsExact(expected, rep.summary, r.ids);
  }

  ghost predicate HasLists(body: Body) {
    && body.Compact? && body.kind == BASELINE_KIND && body.requiredCases.Some? && body.checks.Some?
    && body.checks.value.passing.Some? && body.checks.value.failing.Some?
  }

  lemma WithoutListsErrs(expected: set<CaseId>, r: Reading, body: Body)
    requires body.Compact? && (r.errors != [] || !HasLists(body))
    ensures ReadCompact(expected, r, body).errors != []
  {
    var kinded := if body.kind != BASELINE_KIND then Complain(r, UnsupportedKind) else r;
    var cased := if body.requiredCases.None? then Complain(kinded, NoCases) else ReadCaseIds(kinded, body.requiredCases.value);
    if kinded.errors != [] && body.requiredCases.Some? { CaseIdErrorsStay(kinded, body.requiredCases.value); }
    if body.checks.Some? {
      var b := body.checks.value;
      var passing := ReadBucket(expected, cased, b.passing, true);
      if cased.errors != [] && b.passing.Some? { RecordErrorsStay(expected, cased, b.passing.value, true); }
      if passing.errors != [] && b.failing.Some? { RecordErrorsStay(expected, passing, b.failing.value, false); }
    }
  }

  lemma BodyExactly(expected: set<CaseId>, body: Body)
    requires HasLists(body)
    ensures var t := ReadCompact(expected, Reading([], map[], {}), body);
            && (t.errors == [] <==> GoodCaseIds(body.requiredCases.value)
                                    && GoodLists(expected, body.checks.value.passing.value, body.checks.value.failing.value))
            && (t.errors == [] ==> (forall c :: c in t.observed <==> Some(c) in body.requiredCases.value)
                                   && RecordedBy(t.ids, body.checks.value.passing.value, body.checks.value.failing.value))
  {
    var cases, passing, failing := body.requiredCases.value, body.checks.value.passing.value, body.checks.value.failing.value;
    var start := Reading([], map[], {});
    CaseIdsExact(start, cases);
    var cased := ReadCaseIds(start, cases);
    if cased.errors == [] { ListsExact(expected, cased, passing, failing); }
    else {
      RecordErrorsStay(expected, cased, passing, true);
      RecordErrorsStay(expected, ReadRecords(expected, cased, passing, true), failing, false);
    }
  }

  /**
   * A compact reviewer baseline is read without error exactly when it declares the pinned header and
   * kind, lists exactly the required cases, records well-formed checks without repetition or
   * contradiction, and carries their totals; and then the outcomes read are the recorded ones.
   */
  lemma CompactReadingExact(expected: set<CaseId>, rep: Report)
    requires rep.body.Compact?
    ensures Clean(expected, rep) <==>
              && Declares(rep) && HasLists(rep.body) && ListsCases(expected, rep.body.requiredCases.value)
              && CompleteCompact(expected, rep, rep.body.checks.value.passing.value, rep.body.checks.value.failing.value)
    ensures Clean(expected, rep) ==>
              RecordedBy(Required(expected, rep).ids, rep.body.checks.value.passing.value, rep.body.checks.value.failing.value)
  {
    var start, t := Reading(Opening(rep), map[], {}), ReadBody(expected, rep);
    assert Opening(rep) == [] <==> Declares(rep);
    if Opening(rep) != [] || !HasLists(rep.body) { WithoutListsErrs(expected, start, rep.body); }
    else {
      BodyExactly(expected, rep.body);
      if t.errors == [] { CompactCloses(expected, rep, t); }
    }
  }

  lemma CompactCloses(expected: set<CaseId>, rep: Report, r: Reading)
    requires HasLists(rep.body) && GoodCaseIds(rep.body.requiredCases.value)
    requires GoodLists(expected, rep.body.checks.value.passing.value, rep.body.checks.value.failing.value)
    requires forall c :: c in r.observed <==> Some(c) in rep.body.requiredCases.value
    requires RecordedBy(r.ids, rep.body.checks.value.passing.value, rep.body.checks.value.failing.value)
    ensures Closing(expected, rep, r) == [] <==>
              && ListsCases(expected, rep.body.requiredCases.value)
              && CompleteCompact(expected, rep, rep.body.checks.value.passing.value, rep.body.checks.value.failing.value)
  {
    var passing, failing := rep.body.checks.value.passing.value, rep.body.checks.value.failing.value;
    CompactClosing(expected, rep, r, rep.body.requiredCases.value);
    if CompleteCompact(expected, rep, passing, failing) {
      var ids :| RecordedBy(ids, passing, failing) && TotalsCount(expected, rep.summary, ids);
      RecordedIsUnique(ids, r.ids, passing, failing);
    }
  }

  // ---------- what the errors say ----------

  /** Each complaint about the header stands for its cause. */
  lemma OpeningByCause(rep: Report)
    ensures WrongSchema in Opening(rep) <==> rep.schemaVersion != 1
    ensures WrongReviewer in Opening(rep) <==> rep.reviewer != "codex-mcp-regression-suite"
    ensures WrongModes in Opening(rep) <==> rep.modes != Some(["2025-06-18", "2025-11-25", "2026-07-28"])
  {
  }

  /** Checks are ordered by mode, then transport and name. */
  lemma CheckLtByField(a: CheckId, b: CheckId)
    ensures CheckLt(a, b) <==>
              if a.mode != b.mode then TextLt(a.mode, b.mode)
              else if a.transport != b.transport then TextLt(a.transport, b.transport)
              else TextLt(a.name, b.name)
  {
    TextStrictTotal();
    var x, y := [a.mode, a.transport, a.name], [b.mode, b.transport, b.name];
    assert x[1..] == [a.transport, a.name] && y[1..] == [b.transport, b.name];
    assert x[1..][1..] == [a.name] && y[1..][1..] == [b.name] && x[1..][1..][1..] == [] && y[1..][1..][1..] == [];
    assert FieldsLt(x, y) <==> TextLt(x[0], y[0]) || (x[0] == y[0] && FieldsLt(x[1..], y[1..]));
    assert FieldsLt(x[1..], y[1..]) <==> TextLt(a.transport, b.transport) || (a.transport == b.transport && FieldsLt(x[1..][1..], y[1..][1..]));
    var none: seq<string> := [];
    assert !FieldsLt(none, none) && [a.name][1..] == none && [b.name][1..] == none;
    assert FieldsLt([a.name], [b.name]) <==> TextLt(a.name, b.name) || (a.name == b.name && FieldsLt(none, none));
  }

  // ---------- the gate's lists ----------

  /**
   * Between full reports read without error the gate's lists are, in order: the checks that fail and
   * did not fail, those that fail in both, those that are gone, and those that failed and now succeed.
   */
  lemma GateListsFull(expected: set<CaseId>, c: Report, b: Report)
    requires c.body.Full? && b.body.Full? && Clean(expected, c) && Clean(expected, b)
    ensures c.body.cases.Some? && b.body.cases.Some?
    ensures var g, cs, bs := Evaluate(expected, c, b), c.body.cases.value, b.body.cases.value;
            && Increasing(CheckLt, g.novel) && Increasing(CheckLt, g.known) && Increasing(CheckLt, g.missing) && Increasing(CheckLt, g.repaired)
            && (forall x :: x in g.novel <==> Tells(cs, x, false) && !Tells(bs, x, false))
            && (forall x :: x in g.known <==> Tells(cs, x, false) && Tells(bs, x, false))
            && (forall x :: x in g.missing <==> (Tells(bs, x, true) || Tells(bs, x, false)) && !(Tells(cs, x, true) || Tells(cs, x, false)))
            && (forall x :: x in g.repaired <==> Tells(bs, x, false) && Tells(cs, x, true))
  {
    FullReadingExact(expected, c);
    FullReadingExact(expected, b);
    var cs, bs, cand, base := c.body.cases.value, b.body.cases.value, Required(expected, c).ids, Required(expected, b).ids;
    forall x ensures (x in Novel(cand, base) <==> Tells(cs, x, false) && !Tells(bs, x, false))
                  && (x in Known(cand, base) <==> Tells(cs, x, false) && Tells(bs, x, false))
                  && (x in Missing(cand, base) <==> (Tells(bs, x, true) || Tells(bs, x, false)) && !(Tells(cs, x, true) || Tells(cs, x, false)))
                  && (x in Repaired(cand, base) <==> Tells(bs, x, false) && Tells(cs, x, true))
    {
      ToldAt(cand, cs, x);
      ToldAt(base, bs, x);
    }
  }

  lemma ToldAt(ids: Outcomes, cases: seq<Option<Case>>, x: CheckId)
    requires Told(ids, cases)
    ensures (x in ids && ids[x] <==> Tells(cases, x, true)) && (x in ids && !ids[x] <==> Tells(cases, x, false))
  {
    assert Holds(ids, x, true) <==> Tells(cases, x, true);
    assert Holds(ids, x, false) <==> Tells(cases, x, false);
  }
}
