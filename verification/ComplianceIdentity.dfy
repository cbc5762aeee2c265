/** What identifies a check: not the arrival number in its name. */
module ComplianceIdentity {
  import opened Prelude
  import opened ComplianceReport

  // ---------- names ----------

  /** A name with an arrival number appended. */
  ghost predicate Numbered(name: string, stem: string, digits: string) { stem != "" && Decimal(digits) && name == stem + "#" + digits }

  lemma {:induction false} LastHashOf(stem: string, rest: string)
    requires forall i :: 0 <= i < |rest| ==> rest[i] != '#'
    ensures LastHash(stem + "#" + rest) == |stem|
  {
    var name := stem + "#" + rest;
    if rest == "" {
      assert name[|name| - 1] == '#';
    } else {
      var n := |rest| - 1;
      assert name[|name| - 1] == rest[n] && name[..|name| - 1] == stem + "#" + rest[..n];
      LastHashOf(stem, rest[..n]);
    }
  }

  lemma {:induction false} LastHashFound(name: string)
    ensures -1 <= LastHash(name) < |name| || (name == "" && LastHash(name) == -1)
    ensures LastHash(name) >= 0 ==> name[LastHash(name)] == '#'
  {
    if name != "" { LastHashFound(name[..|name| - 1]); }
  }

  /** A numbered name is its stem, and any other name is itself. */
  lemma StableNameExact(name: string)
    ensures forall stem, digits :: Numbered(name, stem, digits) ==> StableName(name) == stem
    ensures (forall stem, digits :: !Numbered(name, stem, digits)) ==> StableName(name) == name
  {
    forall stem, digits | Numbered(name, stem, digits) ensures StableName(name) == stem {
      LastHashOf(stem, digits);
      assert name[|stem| + 1..] == digits && name[..|stem|] == stem;
    }
    LastHashFound(name);
    var at := LastHash(name);
    if 0 < at && Decimal(name[at + 1..]) {
      assert name == name[..at] + "#" + name[at + 1..];
      assert Numbered(name, name[..at], name[at + 1..]);
    }
  }

  // ---------- identities ----------

  /** An absent field, or a text that is not empty. */
  predicate Given(f: Field) { f == Absent || (f.Text? && f.text != "") }

  /** Which checks have an identity, and what it is made of. */
  lemma IdentityExact(mode: string, transport: string, c: Check)
    ensures IdentityOf(mode, transport, c).Some? <==>
              c.source in {"official", "harness", "supplemental"} && c.name != "" && Given(c.scenario) && Given(c.checkId)
    ensures IdentityOf(mode, transport, c).Some? ==>
              var id := IdentityOf(mode, transport, c).value;
              && id.mode == mode && id.transport == transport && id.source == c.source
              && (c.scenario == Text(id.scenario) || (c.scenario == Absent && id.scenario == ""))
              && (c.checkId == Text(id.checkId) || (c.checkId == Absent && id.checkId == StableName(c.name)))
  {
  }

  /** The names of one check in two runs: anything if it has a check id, else the same but for the arrival number. */
  ghost predicate SameButArrival(c: Check, d: Check) {
    && c.source == d.source && c.scenario == d.scenario && c.checkId == d.checkId && c.status == d.status && c.success == d.success
    && (c.name == "" <==> d.name == "")
    && (c.checkId == Absent ==> Renumbered(c.name, d.name))
  }

  ghost predicate Renumbered(n: string, m: string) {
    n == m || exists stem, digits, digits' :: Numbered(n, stem, digits) && Numbered(m, stem, digits')
  }

  /** Renumbering the arrival of a check leaves its identity as it is. */
  lemma ArrivalIsNoIdentity(mode: string, transport: string, c: Check, d: Check)
    requires SameButArrival(c, d)
    ensures IdentityOf(mode, transport, c) == IdentityOf(mode, transport, d)
  {
    IdentityExact(mode, transport, c);
    IdentityExact(mode, transport, d);
    StableNameExact(c.name);
    StableNameExact(d.name);
  }

  // ---------- reports ----------

  ghost predicate ChecksAlike(cs: seq<Option<Check>>, ds: seq<Option<Check>>) {
    |cs| == |ds| && forall i :: 0 <= i < |cs| ==> cs[i] == ds[i] || (cs[i].Some? && ds[i].Some? && SameButArrival(cs[i].value, ds[i].value))
  }

  ghost predicate CaseAlike(c: Case, d: Case) {
    && c.mode == d.mode && c.transport == d.transport
    && (c.checks == d.checks || (c.checks.Some? && d.checks.Some? && ChecksAlike(c.checks.value, d.checks.value)))
  }

  ghost predicate CasesAlike(cs: seq<Option<Case>>, ds: seq<Option<Case>>) {
    |cs| == |ds| && forall i :: 0 <= i < |cs| ==> cs[i] == ds[i] || (cs[i].Some? && ds[i].Some? && CaseAlike(cs[i].value, ds[i].value))
  }

  /** Two full reports that differ in nothing but arrival numbers. */
  ghost predicate Rerun(r: Report, q: Report) {
    && r.body.Full? && q.body.Full? && q == r.(body := q.body)
    && (r.body.cases == q.body.cases
        || (r.body.cases.Some? && q.body.cases.Some? && CasesAlike(r.body.cases.value, q.body.cases.value)))
  }

  lemma {:induction false} ChecksAlikeRead(s: CheckState, cs: seq<Option<Check>>, ds: seq<Option<Check>>, mode: string, transport: string, side: Side)
    requires ChecksAlike(cs, ds)
    ensures ReadChecks(s, cs, mode, transport, side) == ReadChecks(s, ds, mode, transport, side)
  {
    if cs != [] {
      var n := |cs| - 1;
      ChecksAlikeRead(s, cs[..n], ds[..n], mode, transport, side);
      if cs[n] != ds[n] { ArrivalIsNoIdentity(mode, transport, cs[n].value, ds[n].value); }
    }
  }

  ghost predicate TablesAlike(t: map<(string, string), Case>, u: map<(string, string), Case>) {
    t.Keys == u.Keys && forall k :: k in t ==> t[k] == u[k] || CaseAlike(t[k], u[k])
  }

  lemma {:induction false} CasesAlikeRead(errors: seq<Error>, cs: seq<Option<Case>>, ds: seq<Option<Case>>, side: Side)
    requires CasesAlike(cs, ds)
    ensures var t, u := ReadCases(errors, cs, side), ReadCases(errors, ds, side);
            t.errors == u.errors && TablesAlike(t.cases, u.cases)
  {
    if cs != [] {
      var n := |cs| - 1;
      CasesAlikeRead(errors, cs[..n], ds[..n], side);
      assert cs[n] == ds[n] || CaseAlike(cs[n].value, ds[n].value);
    }
  }

  lemma CaseAlikeRead(cat: Catalog, r: Reading, t: map<(string, string), Case>, u: map<(string, string), Case>, mode: string, transport: string, side: Side)
    requires TablesAlike(t, u)
    ensures ReadCase(cat, r, t, mode, transport, side) == ReadCase(cat, r, u, mode, transport, side)
  {
    var k := (mode, transport);
    if k in t && t[k] != u[k] && t[k].checks != u[k].checks {
      ChecksAlikeRead(CheckState(r.errors, r.ids, {}), t[k].checks.value, u[k].checks.value, mode, transport, side);
    }
  }

  lemma ModeAlikeRead(cat: Catalog, rep: Report, rep': Report, r: Reading, t: map<(string, string), Case>, u: map<(string, string), Case>, mode: string, side: Side)
    requires TablesAlike(t, u) && rep'.official == rep.official
    ensures ReadMode(cat, rep, r, t, mode, side) == ReadMode(cat, rep', r, u, mode, side)
  {
    var start := r.(errors := r.errors + CatalogErrors(cat, rep, side, mode));
    CaseAlikeRead(cat, start, t, u, mode, "stdio", side);
    CaseAlikeRead(cat, ReadCase(cat, start, t, mode, "stdio", side), t, u, mode, "official-http", side);
  }

  lemma RerunReads(cat: Catalog, r: Report, q: Report, side: Side)
    requires Rerun(r, q)
    ensures Required(cat, r, side) == Required(cat, q, side)
  {
    var header := HeaderErrors(r, side);
    assert header == HeaderErrors(q, side);
    var t := if r.body.cases.None? then CaseTable(header + [NoCases(side)], map[]) else ReadCases(header, r.body.cases.value, side);
    var u := if q.body.cases.None? then CaseTable(header + [NoCases(side)], map[]) else ReadCases(header, q.body.cases.value, side);
    if r.body.cases != q.body.cases { CasesAlikeRead(header, r.body.cases.value, q.body.cases.value, side); }
    var s0 := Reading(t.errors, map[]);
    ModeAlikeRead(cat, r, q, s0, t.cases, u.cases, SHIPPING, side);
    var s1 := ReadMode(cat, r, s0, t.cases, SHIPPING, side);
    ModeAlikeRead(cat, r, q, s1, t.cases, u.cases, LEGACY, side);
    ModeAlikeRead(cat, r, q, ReadMode(cat, r, s1, t.cases, LEGACY, side), t.cases, u.cases, MODERN, side);
  }

  /** Renumbering arrivals in the candidate, the baseline or both leaves the whole verdict of the gate as it is. */
  lemma GateIgnoresArrival(cat: Catalog, c: Report, c': Report, b: Report, b': Report)
    requires (c' == c || Rerun(c, c')) && (b' == b || Rerun(b, b'))
    ensures Evaluate(cat, c', b') == Evaluate(cat, c, b)
  {
    if c' != c { RerunReads(cat, c, c', Candidate); }
    if b' != b { RerunReads(cat, b, b', Baseline); }
    assert PolicyErrors(c', b') == PolicyErrors(c, b);
  }
}
