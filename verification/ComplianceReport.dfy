/** Compliance reports, full and compact, and what the regression gate reads from them. */
module ComplianceReport {
  import opened Prelude
  import opened Ordering

  const SHIPPING := "2025-06-18"
  const LEGACY := "2025-11-25"
  const MODERN := "2026-07-28"
  const MODES := [SHIPPING, LEGACY, MODERN]
  const TRANSPORTS := ["stdio", "official-http"]
  const SCHEMA_VERSION := 4
  const COMPACT_KIND := "mcp-conformance-regression-baseline-v1"
  const REPOSITORY := "modelcontextprotocol/conformance"
  const GIT_REF := "49103de6ed70804e940637bf3e9e29e4a3f54e64"

  datatype Status = PASS | FAIL | SKIP

  datatype Identity = Identity(mode: string, transport: string, source: string, scenario: string, checkId: string)

  /** An optional JSON text field: absent, of the wrong type, or a string. */
  datatype Field = Absent | Malformed | Text(text: string)

  datatype Check = Check(source: string, scenario: Field, name: string, checkId: Field,
                         status: Option<Status>, success: Option<bool>)

  /** A list element that is not an object is `None`, as is a field of the wrong type. */
  datatype Case = Case(mode: string, transport: Option<string>, checks: Option<seq<Option<Check>>>)

  datatype Buckets = Buckets(passing: Option<seq<Option<Identity>>>, failing: Option<seq<Option<Identity>>>)

  datatype Body =
    | Full(cases: Option<seq<Option<Case>>>)
    | Compact(kind: string, requiredModes: Option<seq<string>>, transports: Option<seq<string>>, checks: Option<Buckets>)

  datatype Official = Official(repository: string, gitRef: string, authenticationIncluded: bool,
                               scenarios: Option<map<string, seq<string>>>)

  datatype Report = Report(schemaVersion: int, versionOk: bool, modernEnabled: bool,
                           automaticAuth: Option<bool>, official: Option<Official>, body: Body)

  /** The pinned scenarios of each mode, authentication included. */
  type Catalog = string -> seq<string>

  datatype Side = Baseline | Candidate

  datatype Error =
    | WrongSchema(side: Side) | NoVersionCheck(side: Side) | ModernDisabled(side: Side)
    | NoOfficial(side: Side) | WrongRepository(side: Side) | WrongRevision(side: Side)
    | NoOAuthScenarios(side: Side) | NoCatalog(side: Side)
    | UnsupportedKind(side: Side) | WrongModes(side: Side) | WrongTransports(side: Side)
    | NoIdentities(side: Side) | NoBucket(side: Side, status: Status)
    | MalformedIdentity(side: Side, status: Status) | DuplicateIdentity(side: Side, status: Status)
    | IncompleteCatalog(side: Side, mode: string)
    | MissingCase(side: Side, mode: string, transport: string)
    | NotObserved(side: Side, mode: string, scenarios: set<string>)
    | Unexpected(side: Side, mode: string, scenarios: set<string>)
    | NoCases(side: Side) | MalformedCase(side: Side) | MalformedRequiredCase(side: Side)
    | DuplicateCase(side: Side, mode: string, transport: string)
    | NoChecks(side: Side, mode: string, transport: string)
    | MalformedCheck(side: Side, mode: string, transport: string)
    | NoPolicy | PolicyDiffers
    | ShippingFailed(checkId: string) | BaselineShippingFailed(checkId: string)

  type Statuses = map<Identity, set<Status>>

  /** What reading a report yields: the errors found and the statuses of each identity. */
  datatype Reading = Reading(errors: seq<Error>, ids: Statuses)

  // ---------- identities ----------

  predicate KnownSource(source: string) { source in {"official", "harness", "supplemental"} }

  predicate ScenarioSource(source: string) { source in {"official", "harness"} }

  predicate Decimal(s: string) { s != "" && forall i :: 0 <= i < |s| ==> '0' <= s[i] <= '9' }

  /** The position of the last '#' of a name, or -1. */
  function LastHash(name: string): int {
    if name == "" then -1
    else if name[|name| - 1] == '#' then |name| - 1
    else LastHash(name[..|name| - 1])
  }

  /** A name without the arrival number the upstream runner appends. */
  function StableName(name: string): string {
    var at := LastHash(name);
    if 0 < at < |name| && Decimal(name[at + 1..]) then name[..at] else name
  }

  predicate GoodField(f: Field) { f.Absent? || (f.Text? && f.text != "") }

  function IdentityOf(mode: string, transport: string, c: Check): Option<Identity> {
    if !KnownSource(c.source) || c.name == "" || !GoodField(c.scenario) || !GoodField(c.checkId) then None
    else Some(Identity(mode, transport, c.source,
                       if c.scenario.Text? then c.scenario.text else "",
                       if c.checkId.Text? then c.checkId.text else StableName(c.name)))
  }

  function With(ids: Statuses, id: Identity, st: Status): Statuses {
    ids[id := (if id in ids then ids[id] else {}) + {st}]
  }

  function StatusesOf(ids: Statuses, id: Identity): set<Status> { if id in ids then ids[id] else {} }

  // ---------- the header ----------

  function OfficialErrors(r: Report, side: Side): seq<Error> {
    if r.official.None? then [NoOfficial(side)]
    else
      var o := r.official.value;
      (if o.repository != REPOSITORY then [WrongRepository(side)] else [])
      + (if o.gitRef != GIT_REF then [WrongRevision(side)] else [])
      + (if !o.authenticationIncluded then [NoOAuthScenarios(side)] else [])
      + (if o.scenarios.None? then [NoCatalog(side)] else [])
  }

  function HeaderErrors(r: Report, side: Side): seq<Error> {
    (if r.schemaVersion != SCHEMA_VERSION then [WrongSchema(side)] else [])
    + (if !r.versionOk then [NoVersionCheck(side)] else [])
    + (if !r.modernEnabled then [ModernDisabled(side)] else [])
    + OfficialErrors(r, side)
  }

  function Selected(r: Report): map<string, seq<string>> {
    if r.official.Some? && r.official.value.scenarios.Some? then r.official.value.scenarios.value else map[]
  }

  function CatalogErrors(cat: Catalog, r: Report, side: Side, mode: string): seq<Error> {
    if mode !in Selected(r) || Selected(r)[mode] != cat(mode) then [IncompleteCatalog(side, mode)] else []
  }

  function ScenarioErrors(cat: Catalog, side: Side, mode: string, observed: set<string>): seq<Error> {
    var expected := set s | s in cat(mode);
    (if expected - observed != {} then [NotObserved(side, mode, expected - observed)] else [])
    + (if observed - expected != {} then [Unexpected(side, mode, observed - expected)] else [])
  }

  // ---------- compact reports ----------

  predicate GoodIdentity(id: Identity) {
    id.mode in MODES && id.transport in TRANSPORTS && KnownSource(id.source) && id.checkId != ""
  }

  datatype BucketState = BucketState(errors: seq<Error>, ids: Statuses, seen: set<Identity>)

  /** One pass over a bucket of recorded identities. */
  function ReadRecords(s: BucketState, records: seq<Option<Identity>>, st: Status, side: Side): BucketState {
    if records == [] then s
    else
      var s' := ReadRecords(s, records[..|records| - 1], st, side);
      var record := records[|records| - 1];
      if record.None? || !GoodIdentity(record.value) then s'.(errors := s'.errors + [MalformedIdentity(side, st)])
      else if record.value in s'.seen then s'.(errors := s'.errors + [DuplicateIdentity(side, st)])
      else s'.(ids := With(s'.ids, record.value, st), seen := s'.seen + {record.value})
  }

  function ReadBucket(r: Reading, records: Option<seq<Option<Identity>>>, st: Status, side: Side): Reading {
    if records.None? then r.(errors := r.errors + [NoBucket(side, st)])
    else
      var s := ReadRecords(BucketState(r.errors, r.ids, {}), records.value, st, side);
      Reading(s.errors, s.ids)
  }

  function ReadBuckets(errors: seq<Error>, b: Buckets, side: Side): Reading {
    ReadBucket(ReadBucket(Reading(errors, map[]), b.passing, PASS, side), b.failing, FAIL, side)
  }

  predicate HasCase(ids: Statuses, mode: string, transport: string) {
    exists id :: id in ids && id.mode == mode && id.transport == transport
  }

  function ObservedScenarios(ids: Statuses, mode: string): set<string> {
    set id | id in ids && id.mode == mode && id.transport == "official-http" && ScenarioSource(id.source) :: id.scenario
  }

  function CompactModeErrors(cat: Catalog, r: Report, side: Side, ids: Statuses, mode: string): seq<Error> {
    CatalogErrors(cat, r, side, mode)
    + (if !HasCase(ids, mode, "stdio") then [MissingCase(side, mode, "stdio")] else [])
    + (if !HasCase(ids, mode, "official-http") then [MissingCase(side, mode, "official-http")] else [])
    + ScenarioErrors(cat, side, mode, ObservedScenarios(ids, mode))
  }

  function CompactHeaderErrors(r: Report, side: Side): seq<Error>
    requires r.body.Compact?
  {
    var t := r.body.transports;
    HeaderErrors(r, side)
    + (if r.body.requiredModes != Some(MODES) then [WrongModes(side)] else [])
    + (if t.None? || |t.value| != 2 || (set x | x in t.value) != {"stdio", "official-http"} then [WrongTransports(side)] else [])
  }

  function CompactModesErrors(cat: Catalog, r: Report, side: Side, ids: Statuses): seq<Error> {
    CompactModeErrors(cat, r, side, ids, SHIPPING)
    + CompactModeErrors(cat, r, side, ids, LEGACY)
    + CompactModeErrors(cat, r, side, ids, MODERN)
  }

  function ReadCompact(cat: Catalog, r: Report, side: Side): Reading
    requires r.body.Compact?
  {
    if r.body.kind != COMPACT_KIND then Reading(HeaderErrors(r, side) + [UnsupportedKind(side)], map[])
    else if r.body.checks.None? then Reading(CompactHeaderErrors(r, side) + [NoIdentities(side)], map[])
    else
      var read := ReadBuckets(CompactHeaderErrors(r, side), r.body.checks.value, side);
      read.(errors := read.errors + CompactModesErrors(cat, r, side, read.ids))
  }

  // ---------- full reports ----------

  datatype CaseTable = CaseTable(errors: seq<Error>, cases: map<(string, string), Case>)

  /** One pass over the transport cases, keeping the first of each mode and transport. */
  function ReadCases(errors: seq<Error>, cases: seq<Option<Case>>, side: Side): CaseTable {
    if cases == [] then CaseTable(errors, map[])
    else
      var t := ReadCases(errors, cases[..|cases| - 1], side);
      var last := cases[|cases| - 1];
      if last.None? then t.(errors := t.errors + [MalformedCase(side)])
      else if last.value.mode !in MODES then t
      else if last.value.transport.None? then t.(errors := t.errors + [MalformedRequiredCase(side)])
      else
        var key := (last.value.mode, last.value.transport.value);
        if key in t.cases then t.(errors := t.errors + [DuplicateCase(side, key.0, key.1)])
        else t.(cases := t.cases[key := last.value])
  }

  /** A check the gate can use: an identity, a status, and a success flag that agrees with it. */
  predicate GoodCheck(mode: string, transport: string, c: Option<Check>) {
    && c.Some? && IdentityOf(mode, transport, c.value).Some? && c.value.status.Some? && c.value.success.Some?
    && c.value.success.value == (c.value.status.value != FAIL)
  }

  datatype CheckState = CheckState(errors: seq<Error>, ids: Statuses, observed: set<string>)

  /** One pass over the checks of a case. */
  function ReadChecks(s: CheckState, checks: seq<Option<Check>>, mode: string, transport: string, side: Side): CheckState {
    if checks == [] then s
    else
      var s' := ReadChecks(s, checks[..|checks| - 1], mode, transport, side);
      var c := checks[|checks| - 1];
      if !GoodCheck(mode, transport, c) then s'.(errors := s'.errors + [MalformedCheck(side, mode, transport)])
      else
        var id := IdentityOf(mode, transport, c.value).value;
        CheckState(s'.errors, With(s'.ids, id, c.value.status.value),
                   if transport == "official-http" && ScenarioSource(id.source) then s'.observed + {id.scenario} else s'.observed)
  }

  function ReadCase(cat: Catalog, r: Reading, t: map<(string, string), Case>, mode: string, transport: string, side: Side): Reading {
    if (mode, transport) !in t then r.(errors := r.errors + [MissingCase(side, mode, transport)])
    else
      var checks := t[(mode, transport)].checks;
      if checks.None? || checks.value == [] then r.(errors := r.errors + [NoChecks(side, mode, transport)])
      else
        var s := ReadChecks(CheckState(r.errors, r.ids, {}), checks.value, mode, transport, side);
        Reading(s.errors + (if transport == "official-http" then ScenarioErrors(cat, side, mode, s.observed) else []), s.ids)
  }

  function ReadMode(cat: Catalog, rep: Report, r: Reading, t: map<(string, string), Case>, mode: string, side: Side): Reading {
    var start := r.(errors := r.errors + CatalogErrors(cat, rep, side, mode));
    ReadCase(cat, ReadCase(cat, start, t, mode, "stdio", side), t, mode, "official-http", side)
  }

  function ReadFull(cat: Catalog, r: Report, side: Side): Reading
    requires r.body.Full?
  {
    var header := HeaderErrors(r, side);
    var table := if r.body.cases.None? then CaseTable(header + [NoCases(side)], map[])
                 else ReadCases(header, r.body.cases.value, side);
    var shipping := ReadMode(cat, r, Reading(table.errors, map[]), table.cases, SHIPPING, side);
    var legacy := ReadMode(cat, r, shipping, table.cases, LEGACY, side);
    ReadMode(cat, r, legacy, table.cases, MODERN, side)
  }

  /** The checks a report is required to carry, with the errors that reading it finds. */
  function Required(cat: Catalog, r: Report, side: Side): Reading {
    if r.body.Compact? then ReadCompact(cat, r, side) else ReadFull(cat, r, side)
  }

  // ---------- the order of identities ----------

  function Fields(id: Identity): seq<string> { [id.mode, id.transport, id.source, id.scenario, id.checkId] }

  predicate IdLt(a: Identity, b: Identity) { FieldsLt(Fields(a), Fields(b)) }

  lemma IdStrictTotal()
    ensures StrictTotal(IdLt)
  {
    FieldsStrictTotal();
    forall a, b ensures IdLt(a, b) || IdLt(b, a) || a == b {
      if Fields(a) == Fields(b) {
        assert Fields(a)[0] == Fields(b)[0] && Fields(a)[1] == Fields(b)[1] && Fields(a)[2] == Fields(b)[2];
        assert Fields(a)[3] == Fields(b)[3] && Fields(a)[4] == Fields(b)[4];
      }
    }
    forall a ensures !IdLt(a, a) { }
    forall a, b, c | IdLt(a, b) && IdLt(b, c) ensures IdLt(a, c) { }
  }

  /** Identities are ordered by mode, then transport, source, scenario and check id. */
  lemma IdLtByField(a: Identity, b: Identity)
    ensures IdLt(a, b) <==>
              if a.mode != b.mode then TextLt(a.mode, b.mode)
              else if a.transport != b.transport then TextLt(a.transport, b.transport)
              else if a.source != b.source then TextLt(a.source, b.source)
              else if a.scenario != b.scenario then TextLt(a.scenario, b.scenario)
              else TextLt(a.checkId, b.checkId)
  {
    TextStrictTotal();
    var x, y := Fields(a), Fields(b);
    FieldsFirst(x, y);
    FieldsFirst(x[1..], y[1..]);
    FieldsFirst(x[2..], y[2..]);
    FieldsFirst(x[3..], y[3..]);
    FieldsFirst(x[4..], y[4..]);
    assert x[1..][1..] == x[2..] && x[2..][1..] == x[3..] && x[3..][1..] == x[4..] && x[4..][1..] == [];
    assert y[1..][1..] == y[2..] && y[2..][1..] == y[3..] && y[3..][1..] == y[4..] && y[4..][1..] == [];
  }

  lemma FieldsFirst(x: seq<string>, y: seq<string>)
    requires x != [] && y != []
    ensures FieldsLt(x, y) <==> TextLt(x[0], y[0]) || (x[0] == y[0] && FieldsLt(x[1..], y[1..]))
  {
  }

  ghost function InOrder(s: set<Identity>): (xs: seq<Identity>)
    ensures Increasing(IdLt, xs) && forall x :: x in xs <==> x in s
  {
    IdStrictTotal();
    Sorted(IdLt, s)
  }

  // ---------- compaction ----------

  function Marked(ids: Statuses, st: Status): set<Identity> { set id | id in ids && st in ids[id] }

  /** A shipping-mode check that failed. */
  predicate ShippingFails(ids: Statuses) {
    exists id :: id in ids && id.mode == SHIPPING && FAIL in ids[id]
  }

  ghost function Records(s: set<Identity>): seq<Option<Identity>> {
    var xs := InOrder(s);
    seq(|xs|, i requires 0 <= i < |xs| => Some(xs[i]))
  }

  predicate Compactable(cat: Catalog, r: Report) {
    var reading := Required(cat, r, Baseline);
    reading.errors == [] && r.automaticAuth.Some? && !ShippingFails(reading.ids)
  }

  /** The compact baseline of a report that passes the compaction checks. */
  ghost function CompactOf(cat: Catalog, r: Report): Report
    requires Compactable(cat, r)
  {
    var ids := Required(cat, r, Baseline).ids;
    Report(SCHEMA_VERSION, true, true, r.automaticAuth,
           Some(Official(REPOSITORY, GIT_REF, true,
                         Some(map m | m in MODES && m in Selected(r) :: Selected(r)[m]))),
           Compact(COMPACT_KIND, Some(MODES), Some(TRANSPORTS),
                   Some(Buckets(Some(Records(Marked(ids, PASS))), Some(Records(Marked(ids, FAIL)))))))
  }

  // ---------- the gate ----------

  datatype Gate = Gate(success: bool, errors: seq<Error>, newFailures: seq<Identity>, missing: seq<Identity>,
                       known: seq<Identity>, fixed: seq<Identity>)

  function PolicyErrors(c: Report, b: Report): seq<Error> {
    if b.automaticAuth.None? || c.automaticAuth.None? then [NoPolicy]
    else if b.automaticAuth != c.automaticAuth then [PolicyDiffers]
    else []
  }

  predicate Fails(ids: Statuses, id: Identity) { FAIL in StatusesOf(ids, id) }

  predicate Passes(ids: Statuses, id: Identity) { PASS in StatusesOf(ids, id) }

  function NewFailures(c: Statuses, b: Statuses): set<Identity> { set id | id in c && Fails(c, id) && !Fails(b, id) }

  function Known(c: Statuses, b: Statuses): set<Identity> { set id | id in c && Fails(c, id) && Fails(b, id) }

  /** A baseline check that passed and passes no more, or that failed and now does neither. */
  predicate Lost(c: Statuses, b: Statuses, id: Identity) {
    (Passes(b, id) && !Passes(c, id)) || (Fails(b, id) && !Fails(c, id) && !Passes(c, id))
  }

  function Missing(c: Statuses, b: Statuses): set<Identity> { set id | id in b && Lost(c, b, id) }

  function Fixed(c: Statuses, b: Statuses): set<Identity> {
    set id | id in b && !Lost(c, b, id) && Fails(b, id) && !Fails(c, id)
  }

  function FailedShipping(ids: Statuses): set<Identity> { set id | id in ids && id.mode == SHIPPING && Fails(ids, id) }

  function AsShipping(checkId: string): Error { ShippingFailed(checkId) }

  function AsBaselineShipping(checkId: string): Error { BaselineShippingFailed(checkId) }

  ghost function CheckIds(xs: seq<Identity>, make: string -> Error): seq<Error> {
    seq(|xs|, i requires 0 <= i < |xs| => make(xs[i].checkId))
  }

  ghost function ShippingErrors(c: Statuses): seq<Error> { CheckIds(InOrder(FailedShipping(c)), AsShipping) }

  ghost function BaselineShippingErrors(b: Statuses): seq<Error> { CheckIds(InOrder(FailedShipping(b)), AsBaselineShipping) }

  /** The verdict on what was read of a candidate and a baseline. */
  ghost function Verdict(base: Reading, cand: Reading, policy: seq<Error>): Gate {
    var errors := base.errors + cand.errors + policy + ShippingErrors(cand.ids) + BaselineShippingErrors(base.ids);
    var novel, missing := NewFailures(cand.ids, base.ids), Missing(cand.ids, base.ids);
    Gate(errors == [] && novel == {} && missing == {}, errors, InOrder(novel), InOrder(missing),
         InOrder(Known(cand.ids, base.ids)), InOrder(Fixed(cand.ids, base.ids)))
  }

  /** The gate: a candidate report against a baseline report. */
  ghost function Evaluate(cat: Catalog, c: Report, b: Report): Gate {
    Verdict(Required(cat, b, Baseline), Required(cat, c, Candidate), PolicyErrors(c, b))
  }
}
