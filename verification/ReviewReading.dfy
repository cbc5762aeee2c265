/** What reading a full reviewer report means, said without the loops that read it. */
module ReviewReading {
  import opened Prelude
  import opened ReviewGate

  // ---------- the checks of one case ----------

  ghost predicate Listed(checks: seq<Option<Check>>, name: string, b: bool) { Some(Check(name, Some(b))) in checks }

  /** Every check is an object with a reviewer name and a verdict, and no name comes twice. */
  ghost predicate GoodChecks(checks: seq<Option<Check>>) {
    && (forall k :: 0 <= k < |checks| ==> checks[k].Some? && GoodName(checks[k].value.name) && checks[k].value.success.Some?)
    && (forall i, k :: 0 <= i < k < |checks| ==> checks[i].value.name != checks[k].value.name)
  }

  ghost predicate AllSucceed(checks: seq<Option<Check>>) {
    forall name, b :: Listed(checks, name, b) ==> b
  }

  ghost predicate Holds(ids: Outcomes, x: CheckId, b: bool) { x in ids && ids[x] == b }

  /** `ids'` is `ids` with the checks of case `c` added under their verdicts. */
  ghost predicate Added(ids: Outcomes, ids': Outcomes, c: CaseId, checks: seq<Option<Check>>) {
    forall x, b :: Holds(ids', x, b) <==> Holds(ids, x, b) || (CaseOf(x) == c && Listed(checks, x.name, b))
  }

  lemma {:induction false} CheckErrorsStay(s: CaseState, id: CaseId, checks: seq<Option<Check>>)
    requires s.reading.errors != []
    ensures ReadChecks(s, id, checks).reading.errors != []
  {
    if checks != [] { CheckErrorsStay(s, id, checks[..|checks| - 1]); }
  }

  lemma GoodPrefix(checks: seq<Option<Check>>, n: nat)
    requires |checks| == n + 1
    ensures GoodChecks(checks) <==>
              && GoodChecks(checks[..n]) && checks[n].Some? && GoodName(checks[n].value.name) && checks[n].value.success.Some?
              && (forall b :: !Listed(checks[..n], checks[n].value.name, b))
  {
    if GoodChecks(checks) {
      forall b ensures !Listed(checks[..n], checks[n].value.name, b) { }
    } else if GoodChecks(checks[..n]) && checks[n].Some? && GoodName(checks[n].value.name) && checks[n].value.success.Some? {
      var i, k :| 0 <= i < k < |checks| && checks[i].value.name == checks[k].value.name;
      assert forall a :: 0 <= a < n ==> checks[..n][a] == checks[a];
      assert checks[..n][i] == Some(Check(checks[n].value.name, Some(checks[i].value.success.value)));
      assert Listed(checks[..n], checks[n].value.name, checks[i].value.success.value);
    }
  }

  lemma ListedLast(checks: seq<Option<Check>>, n: nat)
    requires |checks| == n + 1
    ensures forall name, b :: Listed(checks, name, b) <==> Listed(checks[..n], name, b) || checks[n] == Some(Check(name, Some(b)))
  {
    assert checks == checks[..n] + [checks[n]];
  }

  lemma {:induction false} ChecksExact(s: CaseState, id: CaseId, checks: seq<Option<Check>>)
    requires s.reading.errors == [] && forall x :: x in s.reading.ids ==> CaseOf(x) != id
    ensures var t := ReadChecks(s, id, checks);
            && (t.reading.errors == [] <==> GoodChecks(checks))
            && (GoodChecks(checks) ==>
                  && t.reading.observed == s.reading.observed && Added(s.reading.ids, t.reading.ids, id, checks)
                  && (t.success <==> s.success && AllSucceed(checks)))
  {
    if checks != [] {
      var n := |checks| - 1;
      ChecksExact(s, id, checks[..n]);
      GoodPrefix(checks, n);
      ListedLast(checks, n);
      var t := ReadChecks(s, id, checks[..n]);
      if GoodChecks(checks[..n]) && checks[n].Some? && GoodName(checks[n].value.name) && checks[n].value.success.Some? {
        CheckAdded(s, t, id, checks, n);
      }
    }
  }

  lemma CheckAdded(s: CaseState, t: CaseState, id: CaseId, checks: seq<Option<Check>>, n: nat)
    requires |checks| == n + 1 && checks[n].Some? && checks[n].value.success.Some?
    requires Added(s.reading.ids, t.reading.ids, id, checks[..n]) && forall x :: x in s.reading.ids ==> CaseOf(x) != id
    ensures var x := CheckId(id.mode, id.transport, checks[n].value.name);
            && (x in t.reading.ids <==> exists b :: Listed(checks[..n], x.name, b))
            && (x !in t.reading.ids ==> Added(s.reading.ids, t.reading.ids[x := checks[n].value.success.value], id, checks))
  {
    ListedLast(checks, n);
    var x := CheckId(id.mode, id.transport, checks[n].value.name);
    assert CaseOf(x) == id;
    if x in t.reading.ids { assert Holds(t.reading.ids, x, t.reading.ids[x]); assert Listed(checks[..n], x.name, t.reading.ids[x]); }
    if x !in t.reading.ids {
      var ids' := t.reading.ids[x := checks[n].value.success.value];
      forall y, b ensures Holds(ids', y, b) <==>
                          Holds(s.reading.ids, y, b) || (CaseOf(y) == id && Listed(checks, y.name, b))
      {
        assert Holds(t.reading.ids, y, b) <==>
               Holds(s.reading.ids, y, b) || (CaseOf(y) == id && Listed(checks[..n], y.name, b));
        assert CaseOf(y) == id && y.name == x.name ==> y == x;
      }
    }
  }

  // ---------- the cases ----------

  ghost predicate GoodCase(expected: set<CaseId>, c: Option<Case>) {
    && c.Some? && c.value.id in expected && c.value.checks.Some? && c.value.checks.value != []
    && GoodChecks(c.value.checks.value) && c.value.success == Some(AllSucceed(c.value.checks.value))
  }

  ghost predicate GoodCases(expected: set<CaseId>, cases: seq<Option<Case>>) {
    && (forall i :: 0 <= i < |cases| ==> GoodCase(expected, cases[i]))
    && (forall i, k :: 0 <= i < k < |cases| ==> cases[i].value.id != cases[k].value.id)
  }

  ghost predicate CaseTells(c: Option<Case>, x: CheckId, b: bool) {
    c.Some? && c.value.id == CaseOf(x) && c.value.checks.Some? && Listed(c.value.checks.value, x.name, b)
  }

  /** Some case of the report gives check `x` the verdict `b`. */
  ghost predicate Tells(cases: seq<Option<Case>>, x: CheckId, b: bool) {
    exists i :: 0 <= i < |cases| && CaseTells(cases[i], x, b)
  }

  ghost predicate Names(cases: seq<Option<Case>>, c: CaseId) {
    exists i :: 0 <= i < |cases| && cases[i].Some? && cases[i].value.id == c
  }

  /** The reading holds the cases named and exactly the verdicts told. */
  ghost predicate Faithful(r: Reading, cases: seq<Option<Case>>) {
    && (forall c :: c in r.observed <==> Names(cases, c))
    && (forall x, b :: Holds(r.ids, x, b) <==> Tells(cases, x, b))
  }

  lemma CaseErrorsStay(expected: set<CaseId>, r: Reading, c: Option<Case>)
    requires r.errors != []
    ensures ReadCase(expected, r, c).errors != []
  {
    if c.Some? && c.value.checks.Some? {
      CheckErrorsStay(CaseState(r.(observed := r.observed + {c.value.id}), true), c.value.id, c.value.checks.value);
    }
  }

  lemma LastCase(cases: seq<Option<Case>>, n: nat)
    requires |cases| == n + 1
    ensures forall c :: Names(cases, c) <==> Names(cases[..n], c) || (cases[n].Some? && cases[n].value.id == c)
    ensures forall x, b :: Tells(cases, x, b) <==> Tells(cases[..n], x, b) || CaseTells(cases[n], x, b)
  {
    forall c ensures Names(cases, c) <==> Names(cases[..n], c) || (cases[n].Some? && cases[n].value.id == c) {
      if Names(cases[..n], c) { var i :| 0 <= i < n && cases[..n][i].Some? && cases[..n][i].value.id == c; assert cases[i] == cases[..n][i]; }
      if Names(cases, c) {
        var i :| 0 <= i <= n && cases[i].Some? && cases[i].value.id == c;
        if i < n { assert cases[..n][i] == cases[i]; }
      }
    }
    forall x, b ensures Tells(cases, x, b) <==> Tells(cases[..n], x, b) || CaseTells(cases[n], x, b) {
      if Tells(cases[..n], x, b) { var i :| 0 <= i < n && CaseTells(cases[..n][i], x, b); assert cases[i] == cases[..n][i]; }
      if Tells(cases, x, b) {
        var i :| 0 <= i <= n && CaseTells(cases[i], x, b);
        if i < n { assert cases[..n][i] == cases[i]; }
      }
    }
  }

  lemma GoodCasesLast(expected: set<CaseId>, cases: seq<Option<Case>>, n: nat)
    requires |cases| == n + 1
    ensures GoodCases(expected, cases) <==>
              GoodCases(expected, cases[..n]) && GoodCase(expected, cases[n]) && !Names(cases[..n], cases[n].value.id)
  {
    if GoodCases(expected, cases) {
      assert forall i :: 0 <= i < n ==> cases[..n][i] == cases[i];
    } else if GoodCases(expected, cases[..n]) && GoodCase(expected, cases[n]) {
      assert forall i :: 0 <= i < n ==> cases[..n][i] == cases[i];
      var i, k :| 0 <= i < k < |cases| && cases[i].value.id == cases[k].value.id;
      assert cases[..n][i].Some? && cases[..n][i].value.id == cases[n].value.id;
    }
  }

  lemma CaseExact(expected: set<CaseId>, r: Reading, cases: seq<Option<Case>>, c: Option<Case>)
    requires r.errors == [] && Faithful(r, cases)
    ensures var r' := ReadCase(expected, r, c);
            && (r'.errors == [] <==> GoodCase(expected, c) && !Names(cases, c.value.id))
            && (r'.errors == [] ==> r'.observed == r.observed + {c.value.id} && Added(r.ids, r'.ids, c.value.id, c.value.checks.value))
  {
    if c.Some? && c.value.checks.Some? && c.value.id !in r.observed {
      var seen := r.(observed := r.observed + {c.value.id});
      forall x | x in r.ids ensures CaseOf(x) != c.value.id {
        assert Holds(r.ids, x, r.ids[x]);
        var i :| 0 <= i < |cases| && CaseTells(cases[i], x, r.ids[x]);
        assert Names(cases, CaseOf(x));
      }
      ChecksExact(CaseState(seen, true), c.value.id, c.value.checks.value);
    }
  }

  lemma CaseFaithful(t: Reading, t': Reading, cases: seq<Option<Case>>, n: nat)
    requires |cases| == n + 1 && Faithful(t, cases[..n]) && cases[n].Some? && cases[n].value.checks.Some?
    requires t'.observed == t.observed + {cases[n].value.id}
    requires Added(t.ids, t'.ids, cases[n].value.id, cases[n].value.checks.value)
    ensures Faithful(t', cases)
  {
    LastCase(cases, n);
    forall x, b ensures Holds(t'.ids, x, b) <==> Tells(cases, x, b) {
      assert Holds(t.ids, x, b) <==> Tells(cases[..n], x, b);
      assert CaseTells(cases[n], x, b) <==> CaseOf(x) == cases[n].value.id && Listed(cases[n].value.checks.value, x.name, b);
    }
  }

  lemma {:induction false} CasesExact(expected: set<CaseId>, r: Reading, cases: seq<Option<Case>>)
    requires r.errors == [] && r.ids == map[] && r.observed == {}
    ensures var t := ReadCases(expected, r, cases);
            (t.errors == [] <==> GoodCases(expected, cases)) && (GoodCases(expected, cases) ==> Faithful(t, cases))
  {
    if cases != [] {
      var n := |cases| - 1;
      CasesExact(expected, r, cases[..n]);
      GoodCasesLast(expected, cases, n);
      LastCase(cases, n);
      var t := ReadCases(expected, r, cases[..n]);
      if t.errors == [] {
        CaseExact(expected, t, cases[..n], cases[n]);
        if GoodCases(expected, cases) { CaseFaithful(t, ReadCase(expected, t, cases[n]), cases, n); }
      }
      else { CaseErrorsStay(expected, t, cases[n]); }
    }
  }

  lemma {:induction false} CasesErrorsStay(expected: set<CaseId>, r: Reading, cases: seq<Option<Case>>)
    requires r.errors != []
    ensures ReadCases(expected, r, cases).errors != []
  {
    if cases != [] {
      CasesErrorsStay(expected, r, cases[..|cases| - 1]);
      CaseErrorsStay(expected, ReadCases(expected, r, cases[..|cases| - 1]), cases[|cases| - 1]);
    }
  }

  // ---------- the report ----------

  ghost predicate Declares(rep: Report) {
    rep.schemaVersion == SCHEMA_VERSION && rep.reviewer == REVIEWER && rep.modes == Some(MODES)
  }

  /** The report names each required case once, and every case and check of it is well formed. */
  ghost predicate Complete(expected: set<CaseId>, cases: seq<Option<Case>>) {
    GoodCases(expected, cases) && forall c :: c in expected ==> Names(cases, c)
  }

  /** Every check of the case succeeded, and it has one. */
  ghost predicate CaseClean(ids: Outcomes, c: CaseId) {
    (exists id :: id in ids && id.mode == c.mode && id.transport == c.transport)
    && forall id :: id in ids && id.mode == c.mode && id.transport == c.transport ==> ids[id]
  }

  /** The stored totals count the outcomes and the cases, and the success flag says whether all succeeded. */
  ghost predicate Tallied(expected: set<CaseId>, rep: Report, ids: Outcomes)
    requires rep.body.Full?
  {
    && TotalsCount(expected, rep.summary, ids)
    && rep.body.success == Some(expected != {} && forall id :: id in ids ==> ids[id])
  }

  ghost predicate TotalsCount(expected: set<CaseId>, summary: Option<Summary>, ids: Outcomes) {
    && summary.Some?
    && summary.value.passed == Some(|set id | id in ids && ids[id]|)
    && summary.value.failed == Some(|set id | id in ids && !ids[id]|)
    && summary.value.total == Some(|ids.Keys|)
    && summary.value.casesPassed == Some(|set c | c in expected && CaseClean(ids, c)|)
    && summary.value.casesTotal == Some(|expected|)
  }

  lemma OutcomesCounted(ids: Outcomes)
    ensures |Passing(ids)| == |set id | id in ids && ids[id]| && |ids| == |ids.Keys|
    ensures |ids.Keys| == |Passing(ids)| + |set id | id in ids && !ids[id]|
  {
    var failing := set id | id in ids && !ids[id];
    assert Passing(ids) !! failing && Passing(ids) + failing == ids.Keys;
  }

  lemma CaseCleanIff(ids: Outcomes, c: CaseId)
    ensures CasePassed(ids, c) <==> CaseClean(ids, c)
  {
    forall id ensures CaseOf(id) == c <==> id.mode == c.mode && id.transport == c.transport { }
    if CasePassed(ids, c) { var id :| id in ids && CaseOf(id) == c; assert id.mode == c.mode && id.transport == c.transport; }
    if CaseClean(ids, c) { var id :| id in ids && id.mode == c.mode && id.transport == c.transport; assert CaseOf(id) == c; }
  }

  lemma CasesCounted(expected: set<CaseId>, ids: Outcomes)
    ensures (set c | c in expected && CasePassed(ids, c)) == (set c | c in expected && CaseClean(ids, c))
  {
    forall c ensures CasePassed(ids, c) <==> CaseClean(ids, c) { CaseCleanIff(ids, c); }
  }

  lemma TotalsExact(expected: set<CaseId>, summary: Option<Summary>, ids: Outcomes)
    ensures summary == Some(Totals(ids, expected)) <==> TotalsCount(expected, summary, ids)
  {
    OutcomesCounted(ids);
    CasesCounted(expected, ids);
  }

  lemma ClosingExact(expected: set<CaseId>, rep: Report, r: Reading, cases: seq<Option<Case>>)
    requires rep.body.Full? && GoodCases(expected, cases) && Faithful(r, cases)
    ensures Closing(expected, rep, r) == [] <==> (forall c :: c in expected ==> Names(cases, c)) && Tallied(expected, rep, r.ids)
  {
    assert r.observed - expected == {} by {
      forall c | c in r.observed ensures c in expected {
        var i :| 0 <= i < |cases| && cases[i].Some? && cases[i].value.id == c;
        assert GoodCase(expected, cases[i]);
      }
    }
    TotalsExact(expected, rep.summary, r.ids);
    assert expected - r.observed == {} <==> forall c :: c in expected ==> Names(cases, c);
    if expected - r.observed == {} { assert r.observed == expected; }
    assert Failing(r.ids) == {} <==> forall id :: id in r.ids ==> r.ids[id] by {
      forall id ensures id in Failing(r.ids) <==> id in r.ids && !r.ids[id] { }
    }
  }

  /** The outcomes are the ones the cases tell. */
  ghost predicate Told(ids: Outcomes, cases: seq<Option<Case>>) { forall x, b :: Holds(ids, x, b) <==> Tells(cases, x, b) }

  lemma ToldIsUnique(ids: Outcomes, ids': Outcomes, cases: seq<Option<Case>>)
    requires Told(ids, cases) && Told(ids', cases)
    ensures ids == ids'
  {
    forall x ensures x in ids <==> x in ids' {
      if x in ids { assert Holds(ids, x, ids[x]); assert Holds(ids', x, ids[x]); }
      if x in ids' { assert Holds(ids', x, ids'[x]); assert Holds(ids, x, ids'[x]); }
    }
    forall x | x in ids ensures ids[x] == ids'[x] { assert Holds(ids, x, ids[x]); assert Holds(ids', x, ids[x]); }
  }

  /** The stored totals and success flag are those of the outcomes the cases tell. */
  ghost predicate TotalsTold(expected: set<CaseId>, rep: Report)
    requires rep.body.Full? && rep.body.cases.Some?
  {
    exists ids :: Told(ids, rep.body.cases.value) && Tallied(expected, rep, ids)
  }

  lemma BodyExact(expected: set<CaseId>, rep: Report)
    requires rep.body.Full? && rep.body.cases.Some? && Declares(rep) && GoodCases(expected, rep.body.cases.value)
    ensures Told(Required(expected, rep).ids, rep.body.cases.value) && ReadBody(expected, rep).errors == []
    ensures Closing(expected, rep, ReadBody(expected, rep)) == [] <==>
              Complete(expected, rep.body.cases.value) && TotalsTold(expected, rep)
  {
    var cases, r := rep.body.cases.value, ReadBody(expected, rep);
    CasesExact(expected, Reading(Opening(rep), map[], {}), cases);
    ClosingExact(expected, rep, r, cases);
    assert Told(r.ids, cases);
    if TotalsTold(expected, rep) {
      var ids :| Told(ids, cases) && Tallied(expected, rep, ids);
      ToldIsUnique(ids, r.ids, cases);
    }
  }

  /**
   * A full reviewer report is read without error exactly when it declares the pinned header, names
   * each required case once with well-formed, distinct, consistent checks, and carries the totals of
   * the outcomes its cases tell; and then those are the outcomes read.
   */
  lemma FullReadingExact(expected: set<CaseId>, rep: Report)
    requires rep.body.Full?
    ensures Clean(expected, rep) <==>
              Declares(rep) && rep.body.cases.Some? && Complete(expected, rep.body.cases.value) && TotalsTold(expected, rep)
    ensures Clean(expected, rep) ==> Told(Required(expected, rep).ids, rep.body.cases.value)
  {
    var start := Reading(Opening(rep), map[], {});
    assert Opening(rep) == [] <==> Declares(rep);
    if rep.body.cases.Some? {
      var cases := rep.body.cases.value;
      if start.errors == [] {
        CasesExact(expected, start, cases);
        if GoodCases(expected, cases) { BodyExact(expected, rep); }
      } else {
        CasesErrorsStay(expected, start, cases);
      }
    }
  }
}
