/** For every catalog, a full baseline the gate accepts whose compact form it rejects: its scenarios were all skipped. */
module ComplianceSkipped {
  import opened Prelude
  import opened ComplianceReport
  import opened ComplianceGate
  import opened CompliancePreorder
  import Reads = ComplianceReading

  /** Every mode has scenarios, and every scenario a name. */
  ghost predicate Named(cat: Catalog) {
    forall m :: m in MODES ==> cat(m) != [] && forall i :: 0 <= i < |cat(m)| ==> cat(m)[i] != ""
  }

  function PassingCheck(): Check { Check("official", Text("stdio"), "check", Text("id"), Some(PASS), Some(true)) }

  function SkippedCheck(scenario: string): Check { Check("official", Text(scenario), "check", Text("id"), Some(SKIP), Some(true)) }

  /** The checks of a case: one that passed on stdio, one skipped per scenario over HTTP. */
  function Checks(cat: Catalog, mode: string, transport: string): seq<Option<Check>> {
    if transport == "stdio" then [Some(PassingCheck())]
    else seq(|cat(mode)|, i requires 0 <= i < |cat(mode)| => Some(SkippedCheck(cat(mode)[i])))
  }

  function CaseFor(cat: Catalog, mode: string, transport: string): Case {
    Case(mode, Some(transport), Some(Checks(cat, mode, transport)))
  }

  function Cases(cat: Catalog): seq<Option<Case>> {
    [ Some(CaseFor(cat, SHIPPING, "stdio")), Some(CaseFor(cat, SHIPPING, "official-http")),
      Some(CaseFor(cat, LEGACY, "stdio")), Some(CaseFor(cat, LEGACY, "official-http")),
      Some(CaseFor(cat, MODERN, "stdio")), Some(CaseFor(cat, MODERN, "official-http")) ]
  }

  /** Every stdio check passed and every official HTTP scenario was skipped. */
  function SkippedReport(cat: Catalog): Report {
    Report(SCHEMA_VERSION, true, true, Some(false),
           Some(Official(REPOSITORY, GIT_REF, true,
                         Some(map[SHIPPING := cat(SHIPPING), LEGACY := cat(LEGACY), MODERN := cat(MODERN)]))),
           Full(Some(Cases(cat))))
  }

  lemma CasesFound(cat: Catalog, mode: string, transport: string, c: Case)
    requires mode in MODES && transport in TRANSPORTS
    ensures Reads.Found(Cases(cat), mode, transport, c) <==> c == CaseFor(cat, mode, transport)
  {
    var cs := Cases(cat);
    assert cs[0] == Some(CaseFor(cat, SHIPPING, "stdio")) && cs[1] == Some(CaseFor(cat, SHIPPING, "official-http"));
    assert cs[2] == Some(CaseFor(cat, LEGACY, "stdio")) && cs[3] == Some(CaseFor(cat, LEGACY, "official-http"));
    assert cs[4] == Some(CaseFor(cat, MODERN, "stdio")) && cs[5] == Some(CaseFor(cat, MODERN, "official-http"));
    var i := (if mode == SHIPPING then 0 else if mode == LEGACY then 2 else 4) + if transport == "stdio" then 0 else 1;
    assert cs[i] == Some(CaseFor(cat, mode, transport)) && Reads.HasKey(cs[i], mode, transport);
  }

  lemma CasesTable(cat: Catalog)
    ensures Reads.GoodTable(Cases(cat))
  {
  }

  lemma CaseIsGood(cat: Catalog, mode: string, transport: string)
    requires Named(cat) && mode in MODES && transport in TRANSPORTS
    ensures Reads.CaseGood(cat, Cases(cat), mode, transport)
  {
    var c, checks := CaseFor(cat, mode, transport), Checks(cat, mode, transport);
    CasesFound(cat, mode, transport, c);
    forall k | 0 <= k < |checks| ensures Reads.Usable(checks[k]) {
      assert transport != "stdio" ==> cat(mode)[k] != "";
    }
    if transport == "official-http" {
      forall s ensures s in cat(mode) <==> Reads.Shown(checks, s) {
        if s in cat(mode) {
          var k :| 0 <= k < |cat(mode)| && cat(mode)[k] == s;
          assert Reads.CheckShows(checks[k], s);
        }
      }
    }
  }

  lemma CaseSkips(cat: Catalog, mode: string, transport: string, id: Identity, st: Status)
    requires mode in MODES && transport in TRANSPORTS && Reads.CaseTells(Cases(cat), mode, transport, id, st)
    ensures id.transport == transport && st == if transport == "stdio" then PASS else SKIP
  {
    var c :| Reads.Found(Cases(cat), mode, transport, c) && c.checks.Some? && Reads.Listed(c.checks.value, mode, transport, id, st);
    CasesFound(cat, mode, transport, c);
    var checks := Checks(cat, mode, transport);
    var k :| 0 <= k < |checks| && Reads.CheckTells(checks[k], mode, transport, id, st);
  }

  lemma ModeSkips(cat: Catalog, mode: string, id: Identity, st: Status)
    requires mode in MODES && Reads.ModeTells(Cases(cat), mode, id, st)
    ensures st == if id.transport == "official-http" then SKIP else PASS
  {
    if Reads.CaseTells(Cases(cat), mode, "stdio", id, st) { CaseSkips(cat, mode, "stdio", id, st); }
    else { CaseSkips(cat, mode, "official-http", id, st); }
  }

  lemma ReportSkips(cat: Catalog, id: Identity, st: Status)
    requires Reads.Tells(Cases(cat), id, st)
    ensures st == if id.transport == "official-http" then SKIP else PASS
  {
    if Reads.ModeTells(Cases(cat), SHIPPING, id, st) { ModeSkips(cat, SHIPPING, id, st); }
    else if Reads.ModeTells(Cases(cat), LEGACY, id, st) { ModeSkips(cat, LEGACY, id, st); }
    else { ModeSkips(cat, MODERN, id, st); }
  }

  lemma SkippedIsSound(cat: Catalog)
    requires Named(cat)
    ensures Sound(cat, SkippedReport(cat)) && !CasesCover(cat, Cases(cat))
  {
    var r := SkippedReport(cat);
    CasesTable(cat);
    CaseIsGood(cat, SHIPPING, "stdio"); CaseIsGood(cat, SHIPPING, "official-http");
    CaseIsGood(cat, LEGACY, "stdio"); CaseIsGood(cat, LEGACY, "official-http");
    CaseIsGood(cat, MODERN, "stdio"); CaseIsGood(cat, MODERN, "official-http");
    assert Reads.Complete(cat, r, Cases(cat));
    forall id: Identity ensures !Reads.Tells(Cases(cat), id, FAIL) {
      if Reads.Tells(Cases(cat), id, FAIL) { ReportSkips(cat, id, FAIL); }
    }
    forall id | Recorded(Cases(cat), id) ensures id.transport != "official-http" {
      if Reads.Tells(Cases(cat), id, PASS) { ReportSkips(cat, id, PASS); }
    }
    assert !CaseRecorded(Cases(cat), SHIPPING, "official-http");
  }

  lemma UncoveredRejected(cat: Catalog, r: Report)
    requires Compactable(cat, r) && !Coverage(cat, Required(cat, r, Baseline).ids)
    ensures Accepts(cat, r, r) && !Accepts(cat, r, CompactOf(cat, r))
  {
    GateIsReflexive(cat, r);
    CompactReadsBack(cat, r, Baseline);
    AcceptsIff(cat, r, CompactOf(cat, r));
  }

  /** For every catalog this report compacts and passes against itself, but not against its own compact form. */
  lemma SkippedScenarioBreaksCompaction(cat: Catalog)
    requires Named(cat)
    ensures var r := SkippedReport(cat);
            Compactable(cat, r) && Accepts(cat, r, r) && !Accepts(cat, r, CompactOf(cat, r))
  {
    var r := SkippedReport(cat);
    SkippedIsSound(cat);
    SoundIffUsable(cat, r);
    CasesCoverIff(cat, Ids(cat, r), Cases(cat));
    UncoveredRejected(cat, r);
  }
}
