/** What reading a full compliance report means, said without the loops that read it. */
module ComplianceReading {
  import opened Prelude
  import opened ComplianceReport

  // ---------- what the errors say ----------

  lemma InAnyOf(a: seq<Error>, b: seq<Error>, c: seq<Error>, d: seq<Error>, e: Error)
    ensures e in a + b + c + d <==> e in a || e in b || e in c || e in d
  {
  }

  /** The complaints about the header are those with a cause: about the report itself, or its official metadata. */
  lemma HeaderErrorsByCause(r: Report, side: Side, e: Error)
    ensures e in HeaderErrors(r, side) <==>
              || (e == WrongSchema(side) && r.schemaVersion != 4)
              || (e == NoVersionCheck(side) && !r.versionOk)
              || (e == ModernDisabled(side) && !r.modernEnabled)
              || e in OfficialErrors(r, side)
  {
    InAnyOf(if r.schemaVersion != SCHEMA_VERSION then [WrongSchema(side)] else [], if !r.versionOk then [NoVersionCheck(side)] else [],
            if !r.modernEnabled then [ModernDisabled(side)] else [], OfficialErrors(r, side), e);
  }

  lemma OfficialErrorsByCause(r: Report, side: Side, e: Error)
    ensures e in OfficialErrors(r, side) <==>
              if r.official.None? then e == NoOfficial(side)
              else
                || (e == WrongRepository(side) && r.official.value.repository != "modelcontextprotocol/conformance")
                || (e == WrongRevision(side) && r.official.value.gitRef != GIT_REF)
                || (e == NoOAuthScenarios(side) && !r.official.value.authenticationIncluded)
                || (e == NoCatalog(side) && r.official.value.scenarios.None?)
  {
    if r.official.Some? {
      var o := r.official.value;
      InAnyOf(if o.repository != REPOSITORY then [WrongRepository(side)] else [], if o.gitRef != GIT_REF then [WrongRevision(side)] else [],
              if !o.authenticationIncluded then [NoOAuthScenarios(side)] else [], if o.scenarios.None? then [NoCatalog(side)] else [], e);
    }
  }

  /** The scenarios complained about are exactly the pinned ones not observed, and the observed ones not pinned. */
  lemma ScenarioErrorsByCause(cat: Catalog, side: Side, mode: string, observed: set<string>, e: Error)
    ensures e in ScenarioErrors(cat, side, mode, observed) <==>
              || (e == NotObserved(side, mode, set s | s in cat(mode) && s !in observed) && exists s :: s in cat(mode) && s !in observed)
              || (e == Unexpected(side, mode, set s | s in observed && s !in cat(mode)) && exists s :: s in observed && s !in cat(mode))
  {
    var expected := set s | s in cat(mode);
    var missing, extra := set s | s in cat(mode) && s !in observed, set s | s in observed && s !in cat(mode);
    assert expected - observed == missing && observed - expected == extra;
    assert missing != {} <==> exists s :: s in cat(mode) && s !in observed by {
      assert (forall s :: s !in missing) ==> missing == {};
      if missing != {} { var s :| s in missing; }
      if s :| s in cat(mode) && s !in observed { assert s in missing; }
    }
    assert extra != {} <==> exists s :: s in observed && s !in cat(mode) by {
      assert (forall s :: s !in extra) ==> extra == {};
      if extra != {} { var s :| s in extra; }
      if s :| s in observed && s !in cat(mode) { assert s in extra; }
    }
  }

  /** What is said of the OAuth policies. */
  lemma PolicyErrorsByCause(c: Report, b: Report)
    ensures PolicyErrors(c, b) ==
              if b.automaticAuth == None || c.automaticAuth == None then [NoPolicy]
              else if b.automaticAuth.value != c.automaticAuth.value then [PolicyDiffers] else []
  {
  }

  /** A failing shipping check of the candidate, and of the baseline, is named by its check id. */
  lemma ShippingErrorsByCause(ids: Statuses, e: Error)
    ensures e in ShippingErrors(ids) <==> exists id :: id in ids && id.mode == SHIPPING && FAIL in ids[id] && e == ShippingFailed(id.checkId)
    ensures e in BaselineShippingErrors(ids) <==>
              exists id :: id in ids && id.mode == SHIPPING && FAIL in ids[id] && e == BaselineShippingFailed(id.checkId)
  {
    var xs := InOrder(FailedShipping(ids));
    CheckIdsAre(xs, AsShipping, e);
    CheckIdsAre(xs, AsBaselineShipping, e);
    forall id ensures id in xs <==> id in ids && id.mode == SHIPPING && FAIL in ids[id] { }
    forall x ensures AsShipping(x) == ShippingFailed(x) && AsBaselineShipping(x) == BaselineShippingFailed(x) { }
    if e in ShippingErrors(ids) { var id :| id in xs && e == AsShipping(id.checkId); }
    if e in BaselineShippingErrors(ids) { var id :| id in xs && e == AsBaselineShipping(id.checkId); }
    if id :| id in ids && id.mode == SHIPPING && FAIL in ids[id] && e == ShippingFailed(id.checkId) { assert id in xs && e == AsShipping(id.checkId); }
    if id :| id in ids && id.mode == SHIPPING && FAIL in ids[id] && e == BaselineShippingFailed(id.checkId) { assert id in xs && e == AsBaselineShipping(id.checkId); }
  }

  lemma CheckIdsAre(xs: seq<Identity>, make: string -> Error, e: Error)
    ensures e in CheckIds(xs, make) <==> exists id :: id in xs && e == make(id.checkId)
  {
    var es := CheckIds(xs, make);
    if e in es { var i :| 0 <= i < |es| && es[i] == e; assert xs[i] in xs; }
    if id :| id in xs && e == make(id.checkId) { var i :| 0 <= i < |xs| && xs[i] == id; assert es[i] == e; }
  }

  // ---------- the checks of one case ----------

  ghost predicate CheckTells(c: Option<Check>, mode: string, transport: string, id: Identity, st: Status) {
    c.Some? && IdentityOf(mode, transport, c.value) == Some(id) && c.value.status == Some(st)
  }

  /** Some check of the list records status `st` for identity `id`. */
  ghost predicate Listed(checks: seq<Option<Check>>, mode: string, transport: string, id: Identity, st: Status) {
    exists k :: 0 <= k < |checks| && CheckTells(checks[k], mode, transport, id, st)
  }

  predicate FieldOk(f: Field) { f == Absent || (f.Text? && f.text != "") }

  /** A named check of a known source, with a status and the success flag that goes with it. */
  predicate Usable(c: Option<Check>) {
    && c.Some? && c.value.source in {"official", "harness", "supplemental"} && c.value.name != ""
    && FieldOk(c.value.scenario) && FieldOk(c.value.checkId)
    && c.value.status.Some? && c.value.success == Some(c.value.status.value != FAIL)
  }

  lemma UsableIff(mode: string, transport: string, c: Option<Check>)
    ensures GoodCheck(mode, transport, c) <==> Usable(c)
  {
  }

  ghost predicate GoodChecks(checks: seq<Option<Check>>) { forall k :: 0 <= k < |checks| ==> Usable(checks[k]) }

  /** A check of the official or harness source for a scenario, or for none. */
  ghost predicate CheckShows(c: Option<Check>, scenario: string) {
    && c.Some? && c.value.source in {"official", "harness"}
    && (c.value.scenario == Text(scenario) || (c.value.scenario == Absent && scenario == ""))
  }

  /** Some official or harness check of the list ran the scenario. */
  ghost predicate Shown(checks: seq<Option<Check>>, scenario: string) {
    exists k :: 0 <= k < |checks| && CheckShows(checks[k], scenario)
  }

  ghost predicate Has(ids: Statuses, id: Identity, st: Status) { id in ids && st in ids[id] }

  ghost predicate Added(ids: Statuses, ids': Statuses, checks: seq<Option<Check>>, mode: string, transport: string) {
    forall id, st :: Has(ids', id, st) <==> Has(ids, id, st) || Listed(checks, mode, transport, id, st)
  }

  lemma {:induction false} CheckErrorsStay(s: CheckState, checks: seq<Option<Check>>, mode: string, transport: string, side: Side)
    requires s.errors != []
    ensures ReadChecks(s, checks, mode, transport, side).errors != []
  {
    if checks != [] { CheckErrorsStay(s, checks[..|checks| - 1], mode, transport, side); }
  }

  lemma LastCheck(checks: seq<Option<Check>>, n: nat, mode: string, transport: string)
    requires |checks| == n + 1
    ensures GoodChecks(checks) <==> GoodChecks(checks[..n]) && Usable(checks[n])
    ensures forall id, st :: Listed(checks, mode, transport, id, st) <==>
              Listed(checks[..n], mode, transport, id, st) || CheckTells(checks[n], mode, transport, id, st)
    ensures forall s :: Shown(checks, s) <==> Shown(checks[..n], s) || CheckShows(checks[n], s)
  {
    assert forall k :: 0 <= k < n ==> checks[..n][k] == checks[k];
  }

  lemma {:induction false} ChecksExact(s: CheckState, checks: seq<Option<Check>>, mode: string, transport: string, side: Side)
    requires s.errors == []
    ensures var t := ReadChecks(s, checks, mode, transport, side);
            && (t.errors == [] <==> GoodChecks(checks))
            && (t.errors == [] ==>
                  && Added(s.ids, t.ids, checks, mode, transport)
                  && (forall x :: x in t.observed <==> x in s.observed || (transport == "official-http" && Shown(checks, x))))
  {
    if checks != [] {
      var n := |checks| - 1;
      ChecksExact(s, checks[..n], mode, transport, side);
      LastCheck(checks, n, mode, transport);
      UsableIff(mode, transport, checks[n]);
      if GoodCheck(mode, transport, checks[n]) {
        var c := checks[n].value;
        StatusAdded(ReadChecks(s, checks[..n], mode, transport, side).ids, IdentityOf(mode, transport, c).value, c.status.value);
      }
    }
  }

  lemma StatusAdded(ids: Statuses, id: Identity, st: Status)
    ensures forall x, s :: Has(With(ids, id, st), x, s) <==> Has(ids, x, s) || (x == id && s == st)
  {
  }

  // ---------- the table of cases ----------

  ghost predicate HasKey(c: Option<Case>, mode: string, transport: string) {
    c.Some? && c.value.mode == mode && c.value.transport == Some(transport)
  }

  /** An object, and with a transport if its mode is a required one. */
  ghost predicate GoodEntry(c: Option<Case>) { c.Some? && (c.value.mode in MODES ==> c.value.transport.Some?) }

  ghost predicate Clash(c: Option<Case>, d: Option<Case>) {
    c.Some? && d.Some? && c.value.mode in MODES && c.value.mode == d.value.mode && c.value.transport == d.value.transport
  }

  /** Well-formed entries, with no required mode and transport twice. */
  ghost predicate GoodTable(cases: seq<Option<Case>>) {
    && (forall i :: 0 <= i < |cases| ==> GoodEntry(cases[i]))
    && (forall i, k :: 0 <= i < k < |cases| ==> !Clash(cases[i], cases[k]))
  }

  ghost predicate Found(cases: seq<Option<Case>>, mode: string, transport: string, c: Case) {
    exists i :: 0 <= i < |cases| && cases[i] == Some(c) && HasKey(cases[i], mode, transport)
  }

  ghost predicate Lookup(t: map<(string, string), Case>, mode: string, transport: string, c: Case) {
    (mode, transport) in t && t[(mode, transport)] == c
  }

  ghost predicate Tabled(t: map<(string, string), Case>, cases: seq<Option<Case>>) {
    forall mode, transport, c :: Lookup(t, mode, transport, c) <==> mode in MODES && Found(cases, mode, transport, c)
  }

  lemma LastEntry(cases: seq<Option<Case>>, n: nat)
    requires |cases| == n + 1
    ensures forall mode, transport, c :: Found(cases, mode, transport, c) <==>
              Found(cases[..n], mode, transport, c) || (cases[n] == Some(c) && HasKey(cases[n], mode, transport))
    ensures GoodTable(cases) <==>
              GoodTable(cases[..n]) && GoodEntry(cases[n]) && forall i :: 0 <= i < n ==> !Clash(cases[i], cases[n])
  {
    assert forall i :: 0 <= i < n ==> cases[..n][i] == cases[i];
  }

  lemma EntryAdded(t: map<(string, string), Case>, cases: seq<Option<Case>>, n: nat)
    requires |cases| == n + 1 && Tabled(t, cases[..n]) && GoodTable(cases[..n]) && GoodEntry(cases[n]) && cases[n].value.mode in MODES
    ensures var key := (cases[n].value.mode, cases[n].value.transport.value);
            && (key in t <==> exists i :: 0 <= i < n && Clash(cases[i], cases[n]))
            && (key !in t ==> Tabled(t[key := cases[n].value], cases))
  {
    var c := cases[n].value;
    var mode, transport := c.mode, c.transport.value;
    assert forall i :: 0 <= i < n ==> cases[..n][i] == cases[i];
    if (mode, transport) in t {
      assert Lookup(t, mode, transport, t[(mode, transport)]);
      var i :| 0 <= i < n && HasKey(cases[..n][i], mode, transport);
      assert HasKey(cases[..n][i], mode, transport);
      assert cases[..n][i] == cases[i];
      assert HasKey(cases[i], mode, transport);
      assert Clash(cases[i], cases[n]);
    }
    if i :| 0 <= i < n && Clash(cases[i], cases[n]) {
      assert HasKey(cases[..n][i], mode, transport);
      assert Found(cases[..n], mode, transport, cases[i].value);
      assert Lookup(t, mode, transport, cases[i].value);
    }
    if (mode, transport) !in t {
      LastEntry(cases, n);
      var t' := t[(mode, transport) := c];
      forall m, p, d ensures Lookup(t', m, p, d) <==> m in MODES && Found(cases, m, p, d) {
        assert Lookup(t, m, p, d) <==> m in MODES && Found(cases[..n], m, p, d);
      }
    }
  }

  lemma {:induction false} CasesExact(cases: seq<Option<Case>>, side: Side)
    ensures var t := ReadCases([], cases, side);
            (t.errors == [] <==> GoodTable(cases)) && (t.errors == [] ==> Tabled(t.cases, cases))
  {
    if cases != [] {
      var n := |cases| - 1;
      CasesExact(cases[..n], side);
      LastEntry(cases, n);
      var t := ReadCases([], cases[..n], side);
      if t.errors == [] && GoodEntry(cases[n]) && cases[n].value.mode in MODES { EntryAdded(t.cases, cases, n); }
    }
  }

  lemma {:induction false} TableErrorsStay(errors: seq<Error>, cases: seq<Option<Case>>, side: Side)
    requires errors != []
    ensures ReadCases(errors, cases, side).errors != []
  {
    if cases != [] { TableErrorsStay(errors, cases[..|cases| - 1], side); }
  }

  // ---------- one required case ----------

  /** The case has checks, all usable; over HTTP they run exactly the pinned scenarios of the mode. */
  ghost predicate GoodCase(cat: Catalog, c: Case, mode: string, transport: string) {
    && c.checks.Some? && c.checks.value != [] && GoodChecks(c.checks.value)
    && (transport == "official-http" ==> forall s :: s in cat(mode) <==> Shown(c.checks.value, s))
  }

  ghost predicate CaseTells(cases: seq<Option<Case>>, mode: string, transport: string, id: Identity, st: Status) {
    exists c :: Found(cases, mode, transport, c) && c.checks.Some? && Listed(c.checks.value, mode, transport, id, st)
  }

  ghost predicate CaseGood(cat: Catalog, cases: seq<Option<Case>>, mode: string, transport: string) {
    exists c :: Found(cases, mode, transport, c) && GoodCase(cat, c, mode, transport)
  }

  lemma ScenariosExact(cat: Catalog, side: Side, mode: string, observed: set<string>)
    ensures ScenarioErrors(cat, side, mode, observed) == [] <==> forall s :: s in cat(mode) <==> s in observed
  {
    var expected := set s | s in cat(mode);
    assert (forall s :: s in cat(mode) <==> s in observed) <==> expected == observed;
    assert expected == observed <==> expected - observed == {} && observed - expected == {};
  }

  lemma CaseErrorsStay(cat: Catalog, r: Reading, t: map<(string, string), Case>, mode: string, transport: string, side: Side)
    requires r.errors != []
    ensures ReadCase(cat, r, t, mode, transport, side).errors != []
  {
    if (mode, transport) in t && t[(mode, transport)].checks.Some? {
      CheckErrorsStay(CheckState(r.errors, r.ids, {}), t[(mode, transport)].checks.value, mode, transport, side);
    }
  }

  /** Each case adds what it tells, and leaves no error exactly when it is good. */
  lemma CaseExact(cat: Catalog, r: Reading, t: map<(string, string), Case>, cases: seq<Option<Case>>, mode: string, transport: string, side: Side)
    requires r.errors == [] && Tabled(t, cases) && mode in MODES
    ensures var r' := ReadCase(cat, r, t, mode, transport, side);
            && (r'.errors == [] <==> CaseGood(cat, cases, mode, transport))
            && (r'.errors == [] ==> forall id, st :: Has(r'.ids, id, st) <==> Has(r.ids, id, st) || CaseTells(cases, mode, transport, id, st))
  {
    forall c ensures Found(cases, mode, transport, c) <==> (mode, transport) in t && t[(mode, transport)] == c {
      assert Lookup(t, mode, transport, c) <==> mode in MODES && Found(cases, mode, transport, c);
    }
    if (mode, transport) in t {
      var c := t[(mode, transport)];
      assert Found(cases, mode, transport, c);
      if c.checks.Some? {
        var s0 := CheckState([], r.ids, {});
        ChecksExact(s0, c.checks.value, mode, transport, side);
        ScenariosExact(cat, side, mode, ReadChecks(s0, c.checks.value, mode, transport, side).observed);
      }
    }
  }

  // ---------- the report ----------

  ghost predicate Declares(r: Report) {
    && r.schemaVersion == SCHEMA_VERSION && r.versionOk && r.modernEnabled
    && r.official.Some? && r.official.value.repository == REPOSITORY && r.official.value.gitRef == GIT_REF
    && r.official.value.authenticationIncluded && r.official.value.scenarios.Some?
  }

  /** The mode selects its pinned catalog and has both of its cases. */
  ghost predicate ModeGood(cat: Catalog, r: Report, cases: seq<Option<Case>>, mode: string) {
    && mode in Selected(r) && Selected(r)[mode] == cat(mode)
    && CaseGood(cat, cases, mode, "stdio") && CaseGood(cat, cases, mode, "official-http")
  }

  ghost predicate ModeTells(cases: seq<Option<Case>>, mode: string, id: Identity, st: Status) {
    CaseTells(cases, mode, "stdio", id, st) || CaseTells(cases, mode, "official-http", id, st)
  }

  lemma ModeExact(cat: Catalog, rep: Report, r: Reading, t: map<(string, string), Case>, cases: seq<Option<Case>>, mode: string, side: Side)
    requires r.errors == [] && Tabled(t, cases) && mode in MODES
    ensures var r' := ReadMode(cat, rep, r, t, mode, side);
            && (r'.errors == [] <==> ModeGood(cat, rep, cases, mode))
            && (r'.errors == [] ==> forall id, st :: Has(r'.ids, id, st) <==> Has(r.ids, id, st) || ModeTells(cases, mode, id, st))
  {
    var start := r.(errors := r.errors + CatalogErrors(cat, rep, side, mode));
    var stdio := ReadCase(cat, start, t, mode, "stdio", side);
    if start.errors == [] { CaseExact(cat, start, t, cases, mode, "stdio", side); }
    else { CaseErrorsStay(cat, start, t, mode, "stdio", side); }
    if stdio.errors == [] { CaseExact(cat, stdio, t, cases, mode, "official-http", side); }
    else { CaseErrorsStay(cat, stdio, t, mode, "official-http", side); }
  }

  lemma ModeErrorsStay(cat: Catalog, rep: Report, r: Reading, t: map<(string, string), Case>, mode: string, side: Side)
    requires r.errors != []
    ensures ReadMode(cat, rep, r, t, mode, side).errors != []
  {
    var start := r.(errors := r.errors + CatalogErrors(cat, rep, side, mode));
    CaseErrorsStay(cat, start, t, mode, "stdio", side);
    CaseErrorsStay(cat, ReadCase(cat, start, t, mode, "stdio", side), t, mode, "official-http", side);
  }

  /** The three modes, one after the other. */
  lemma ModesExact(cat: Catalog, rep: Report, t: map<(string, string), Case>, cases: seq<Option<Case>>, side: Side)
    requires Tabled(t, cases)
    ensures var r := ReadMode(cat, rep, ReadMode(cat, rep, ReadMode(cat, rep, Reading([], map[]), t, SHIPPING, side), t, LEGACY, side), t, MODERN, side);
            && (r.errors == [] <==> ModeGood(cat, rep, cases, SHIPPING) && ModeGood(cat, rep, cases, LEGACY) && ModeGood(cat, rep, cases, MODERN))
            && (r.errors == [] ==> forall id, st :: Has(r.ids, id, st) <==> Tells(cases, id, st))
  {
    var shipping := ReadMode(cat, rep, Reading([], map[]), t, SHIPPING, side);
    var legacy := ReadMode(cat, rep, shipping, t, LEGACY, side);
    ModeExact(cat, rep, Reading([], map[]), t, cases, SHIPPING, side);
    if shipping.errors == [] { ModeExact(cat, rep, shipping, t, cases, LEGACY, side); }
    else { ModeErrorsStay(cat, rep, shipping, t, LEGACY, side); }
    if legacy.errors == [] { ModeExact(cat, rep, legacy, t, cases, MODERN, side); }
    else { ModeErrorsStay(cat, rep, legacy, t, MODERN, side); }
  }

  /** Some required case of the report records status `st` for identity `id`. */
  ghost predicate Tells(cases: seq<Option<Case>>, id: Identity, st: Status) {
    ModeTells(cases, SHIPPING, id, st) || ModeTells(cases, LEGACY, id, st) || ModeTells(cases, MODERN, id, st)
  }

  ghost predicate Complete(cat: Catalog, r: Report, cases: seq<Option<Case>>) {
    && GoodTable(cases)
    && ModeGood(cat, r, cases, SHIPPING) && ModeGood(cat, r, cases, LEGACY) && ModeGood(cat, r, cases, MODERN)
  }

  /**
   * A full compliance report is read without error exactly when it declares the pinned header, selects
   * the pinned catalogs, and has one well-formed case per required mode and transport whose checks run
   * exactly the pinned scenarios; and then the statuses read are the ones its required cases record.
   */
  lemma FullReadingExact(cat: Catalog, r: Report, side: Side)
    requires r.body.Full?
    ensures Required(cat, r, side).errors == [] <==> Declares(r) && r.body.cases.Some? && Complete(cat, r, r.body.cases.value)
    ensures Required(cat, r, side).errors == [] ==>
              forall id, st :: Has(Required(cat, r, side).ids, id, st) <==> Tells(r.body.cases.value, id, st)
  {
    var header := HeaderErrors(r, side);
    assert header == [] <==> Declares(r);
    var table := if r.body.cases.None? then CaseTable(header + [NoCases(side)], map[])
                 else ReadCases(header, r.body.cases.value, side);
    if r.body.cases.Some? {
      if header == [] { CasesExact(r.body.cases.value, side); }
      else { TableErrorsStay(header, r.body.cases.value, side); }
    }
    if table.errors == [] { ModesExact(cat, r, table.cases, r.body.cases.value, side); }
    else { LateErrorsStay(cat, r, table, side); }
  }

  lemma LateErrorsStay(cat: Catalog, rep: Report, t: CaseTable, side: Side)
    requires t.errors != []
    ensures ReadMode(cat, rep, ReadMode(cat, rep, ReadMode(cat, rep, Reading(t.errors, map[]), t.cases, SHIPPING, side),
                                        t.cases, LEGACY, side), t.cases, MODERN, side).errors != []
  {
    var shipping := ReadMode(cat, rep, Reading(t.errors, map[]), t.cases, SHIPPING, side);
    ModeErrorsStay(cat, rep, Reading(t.errors, map[]), t.cases, SHIPPING, side);
    ModeErrorsStay(cat, rep, shipping, t.cases, LEGACY, side);
    ModeErrorsStay(cat, rep, ReadMode(cat, rep, shipping, t.cases, LEGACY, side), t.cases, MODERN, side);
  }
}
