/** Who gets in: when a reserve is granted, when a key is accepted, and what close and restart leave. */
module NativeAdmission {
  import opened Prelude
  import opened BudgetLedger
  import opened NativeJobs
  import opened NativeSafety
  import opened NativeTheorems
  import opened NativeHistory

  // ---------- one reservation ----------

  /** The row is unwritten, or bound to the budget and accounting for some reservations of it. */
  ghost predicate Accounted(h: Hashes, b: Budget, row: Option<Row>, gs: seq<Allocation>) {
    if row.None? then gs == [] else row.value.binding == h.bind(b) && Accounts(b, row.value, gs)
  }

  /** After some reservations the budget has a call and a second left. */
  ghost predicate CallLeft(b: Budget, gs: seq<Allocation>) { b.callsBefore + |gs| < b.maxCalls }

  ghost predicate SecondLeft(b: Budget, gs: seq<Allocation>) { b.secondsBefore + Seconds(gs) < b.maxSeconds }

  /** Whether and why a reservation is refused, in terms of what was reserved so far. */
  ghost predicate AnsweredByCause(
    b: Budget, cap: int, bound: bool, held: bool, gs: seq<Allocation>, now: real, answer: Result<int, Refusal>)
  {
    match answer
    case Ok(seconds) =>
      && bound && !held && now < b.expiresAt && CallLeft(b, gs) && SecondLeft(b, gs)
      && seconds == Least(cap, b.maxSeconds - b.secondsBefore - Seconds(gs))
    case Err(BindingDiffers) => !bound
    case Err(UnknownHeld) => bound && held
    case Err(ExhaustedOrExpired) => bound && !held && !(now < b.expiresAt && CallLeft(b, gs))
    case Err(SecondsExhausted) => bound && !held && now < b.expiresAt && CallLeft(b, gs) && !SecondLeft(b, gs)
  }

  function Seconded(g: Result<Grant, Refusal>): Result<int, Refusal> {
    match g case Ok(v) => Ok(v.allocation) case Err(e) => Err(e)
  }

  lemma ReserveByCause(h: Hashes, b: Budget, row: Option<Row>, gs: seq<Allocation>, cap: int, ref: Ref, now: real)
    requires ValidBudget(b) && 1 <= cap <= 150
    requires (row.Some? && row.value.binding != h.bind(b)) || Accounted(h, b, row, gs)
    ensures AnsweredByCause(b, cap, row.None? || row.value.binding == h.bind(b), row.Some? && row.value.held.Some?, gs, now,
                            Seconded(ReserveRow(h.bind, row, b, cap, ref, now)))
  {
  }

  /**
   * A reservation on an unwritten ledger, or on one bound to the budget, succeeds if and only if nothing
   * is held, the budget has not expired, and the reservations so far leave a call and a second.
   */
  lemma ReserveIff(h: Hashes, b: Budget, row: Option<Row>, gs: seq<Allocation>, cap: int, ref: Ref, now: real)
    requires ValidBudget(b) && 1 <= cap <= 150 && Accounted(h, b, row, gs)
    ensures ReserveRow(h.bind, row, b, cap, ref, now).Ok? <==>
              (row.Some? ==> row.value.held == None) && now < b.expiresAt && CallLeft(b, gs) && SecondLeft(b, gs)
  {
    ReserveByCause(h, b, row, gs, cap, ref, now);
  }

  /** A release frees a latch that carries its ref, leaves any other latch alone, and refunds nothing. */
  lemma ReleaseMeansOwn(row: Row, ref: Ref)
    ensures ReleaseRow(None, ref) == None
    ensures row.held == Some(ref) ==> ReleaseRow(Some(row), ref) == Some(Row(row.binding, row.calls, row.seconds, None))
    ensures row.held != Some(ref) ==> ReleaseRow(Some(row), ref) == Some(row)
  {
  }

  // ---------- reservations over runs ----------

  /** The ledger of a budget is unwritten, or written under its digest. */
  predicate BoundTo(h: Hashes, w: World, b: Budget) {
    RowAt(w, b.path).Some? ==> RowAt(w, b.path).value.binding == h.bind(b)
  }

  ghost predicate SomeoneHolds(w: World, p: Path) { exists root, r :: HeldBy(w, root, r, p) }

  lemma HeldIff(h: Hashes, w: World, p: Path)
    requires Inv(h, w)
    ensures RowAt(w, p).Some? && RowAt(w, p).value.held.Some? <==> SomeoneHolds(w, p)
  {
  }

  /** What a step does for a worker about to reserve in an open service. */
  lemma AdmitStep(h: Hashes, w: World, root: Root, r: Ref, now: real, putOk: bool)
    requires Inv(h, w) && Known(w, root, r) && w.services[root].workers[r].pc == Checking && !w.services[root].closed
    ensures var k := w.services[root].workers[r];
            var k' := Step(h, w, Work(root, r, Reserving(now, putOk))).services[root].workers[r];
            if ReserveRow(h.bind, RowAt(w, k.budget.path), k.budget, k.cap, r, now).Ok?
            then k'.pc == Reserved && Holding(k') else k'.pc == Finishing && !k'.reserved
  {
    assert ServiceInv(h, w.services[root]);
    assert WorkerInv(w.services[root].workers[r], w.services[root].jobs[r]);
    StepMovesJob(h, w, Work(root, r, Reserving(now, putOk)), root, r);
  }

  /**
   * In every run, a worker about to reserve in an open service is granted, and so comes to hold the
   * latch, if and only if its ledger is unwritten or bound to its budget, nobody holds the ledger, the
   * budget has not expired, and the reservations of the run leave a call and a second; otherwise the
   * refusal names the first of these that fails. The only exception is a collision of two budgets.
   */
  lemma GrantedIff(h: Hashes, w: World, acts: seq<Action>, root: Root, r: Ref, now: real, putOk: bool)
    requires Initial(w) && Known(Run(h, w, acts), root, r)
    requires var s := Run(h, w, acts).services[root]; s.workers[r].pc == Checking && !s.closed
    ensures var v := Run(h, w, acts);
            var k := v.services[root].workers[r];
            var k' := Step(h, v, Work(root, r, Reserving(now, putOk))).services[root].workers[r];
            var gs := Grants(h, w, acts, k.budget.path);
            var answer := Seconded(ReserveRow(h.bind, RowAt(v, k.budget.path), k.budget, k.cap, r, now));
            || Twin(h, v, k.budget)
            || (&& AnsweredByCause(k.budget, k.cap, BoundTo(h, v, k.budget), SomeoneHolds(v, k.budget.path), gs, now, answer)
                && (if answer.Ok? then k'.pc == Reserved && Holding(k') else k'.pc == Finishing && !k'.reserved))
  {
    var v := Run(h, w, acts);
    var k := v.services[root].workers[r];
    Reachable(h, w, acts);
    assert ServiceInv(h, v.services[root]);
    assert WorkerInv(k, v.services[root].jobs[r]);
    BudgetConserved(h, w, acts, k.budget.path, k.budget);
    HeldIff(h, v, k.budget.path);
    AdmitStep(h, v, root, r, now, putOk);
    if !Twin(h, v, k.budget) {
      ReserveByCause(h, k.budget, RowAt(v, k.budget.path), Grants(h, w, acts, k.budget.path), k.cap, r, now);
    }
  }

  // ---------- fresh keys ----------

  /** Every job of a service is over: its worker has stopped and its last put left a settled status. */
  ghost predicate AllOver(h: Hashes, w: World, acts: seq<Action>, root: Root)
    requires root in Run(h, w, acts).services
  {
    var s := Run(h, w, acts).services[root];
    forall r :: r in s.jobs && r in s.workers ==> !Alive(s.workers[r]) && LeftSettled(PastOf(h, w, acts, root, r), s.workers[r])
  }

  /** A request `start` can serve at all. */
  predicate WellMade(s: Service, caseRef: string, key: string, specSha: Digest) {
    caseRef in s.cases && PlainKey(key) && specSha == s.cases[caseRef].specSha
  }

  /** One to 120 letters, digits, underscores, dots and dashes. */
  predicate PlainKey(key: string) {
    1 <= |key| <= 120 && forall c :: c in key ==> 'A' <= c <= 'Z' || 'a' <= c <= 'z' || '0' <= c <= '9' || c in "_.-"
  }

  lemma KeyOkIff(key: string)
    ensures KeyOk(key) <==> PlainKey(key)
  {
    if PlainKey(key) {
      forall i | 0 <= i < |key| ensures KeyChar(key[i]) { assert key[i] in key; }
    }
  }

  /**
   * In every run, a key that no job of the service has is accepted if and only if the request is well
   * made, the service is open, every job is over, and no other key has its reference; the new row and
   * the new worker are then those of the case asked for.
   */
  lemma FreshKeyAcceptedIff(h: Hashes, w: World, acts: seq<Action>, root: Root, caseRef: string, key: string, specSha: Digest)
    requires Initial(w) && root in Run(h, w, acts).services
    requires var s := Run(h, w, acts).services[root]; forall r :: r in s.jobs ==> s.jobs[r].key != key
    ensures var s := Run(h, w, acts).services[root];
            var s' := StartStep(h, s, caseRef, key, specSha);
            && (StartInserts(h, s, caseRef, key, specSha) <==>
                  && WellMade(s, caseRef, key, specSha) && !s.closed && AllOver(h, w, acts, root) && h.refOf(key) !in s.jobs)
            && (StartInserts(h, s, caseRef, key, specSha) ==> Inserted(h, s, s', caseRef, key, specSha))
  {
    var s := Run(h, w, acts).services[root];
    Reachable(h, w, acts);
    assert ServiceInv(h, s);
    forall r | r in s.jobs ensures Settled(s.jobs[r]) <==> LeftSettled(PastOf(h, w, acts, root, r), s.workers[r]) {
      assert WorkerInv(s.workers[r], s.jobs[r]);
      RowIsAsPut(h, w, acts, root, r);
      SettledAsPut(PastOf(h, w, acts, root, r), s.workers[r], s.jobs[r]);
    }
    KeyOkIff(key);
    assert AllSettled(s) && !AnyAlive(s) <==> AllOver(h, w, acts, root);
  }

  /** One row and one worker more: those of the case, before anything is put or reserved. */
  ghost predicate Inserted(h: Hashes, s: Service, s': Service, caseRef: string, key: string, specSha: Digest)
    requires caseRef in s.cases
  {
    var r, c := h.refOf(key), s.cases[caseRef];
    && s'.jobs == s.jobs[r := Job(key, caseRef, h.request(caseRef, key, specSha), IntentRecorded, false, false, NotProduced)]
    && s'.workers.Keys == s.workers.Keys + {r} && (forall q :: q in s.workers && q != r ==> s'.workers[q] == s.workers[q])
    && s'.workers[r].pc == Checking && s'.workers[r].budget == c.budget && s'.workers[r].cap == c.cap && !s'.workers[r].reserved
    && s'.closed == s.closed && s'.cases == s.cases
  }

  /** Why a start is refused, the causes in the order they are looked at. */
  lemma StartRefusedBy(h: Hashes, s: Service, caseRef: string, key: string, specSha: Digest)
    ensures match StartAnswer(h, s, caseRef, key, specSha)
            case Err(CaseUnavailable) => caseRef !in s.cases
            case Err(KeyInvalid) => caseRef in s.cases && !PlainKey(key)
            case Err(SpecDiffers) => caseRef in s.cases && PlainKey(key) && specSha != s.cases[caseRef].specSha
            case Err(ServiceClosed) => WellMade(s, caseRef, key, specSha) && s.closed
            case Err(PayloadDiffers) => WellMade(s, caseRef, key, specSha) && !s.closed && Stored(h, s, key)
            case Err(WorkerActive) => exists r :: r in s.workers && Alive(s.workers[r])
            case Err(UnsettledHeld) => !AnyAlive(s) && exists r :: r in s.jobs && !Settled(s.jobs[r])
            case Err(RefTaken) => h.refOf(key) in s.jobs && s.jobs[h.refOf(key)].key != key
            case Ok(j) => WellMade(s, caseRef, key, specSha) && !s.closed && j.key == key
  {
    KeyOkIff(key);
  }

  // ---------- close ----------

  ghost predicate NoRestart(acts: seq<Action>, root: Root) {
    forall i :: 0 <= i < |acts| ==> !(acts[i].Restart? && acts[i].root == root)
  }

  lemma ClosedStays(h: Hashes, w: World, a: Action, root: Root)
    requires root in w.services && w.services[root].closed && !(a.Restart? && a.root == root)
    ensures root in Step(h, w, a).services && Step(h, w, a).services[root].closed
    ensures Step(h, w, a).services[root].jobs.Keys == w.services[root].jobs.Keys
  {
    var s := w.services[root];
    if a.root == root && a.Work? && a.ref in s.workers && a.ref in s.jobs {
      var t := WorkerStep(h, LocalOf(w, root, a.ref), a.ref, s.closed, a.act);
      assert Step(h, w, a) == WithLocal(w, root, a.ref, t);
    }
  }

  /** A step in a closed service hands nothing to a provider. */
  lemma ClosedDispatchesNothing(h: Hashes, w: World, a: Action, root: Root, r: Ref)
    requires Inv(h, w) && root in w.services && w.services[root].closed && !IsDispatched(w, root, r)
    ensures !IsDispatched(Step(h, w, a), root, r)
  {
    if IsDispatched(Step(h, w, a), root, r) {
      DispatchedOnlyByDispatching(h, w, a, root, r);
      var s := w.services[root];
      if r in s.workers && r in s.jobs { StepMovesJob(h, w, a, root, r); }
    }
  }

  /**
   * Once `close` has begun, and until a restart, the service refuses every well-made start, takes in
   * no job, and hands none of its jobs to a provider that it had not handed over before.
   */
  lemma {:induction false} ClosedIsQuiet(h: Hashes, w: World, before: seq<Action>, after: seq<Action>, root: Root)
    requires Initial(w) && root in Run(h, w, before).services && NoRestart(after, root)
    ensures var u := Step(h, Run(h, w, before), CloseBegin(root));
            var v := Run(h, u, after);
            && Inv(h, v) && root in v.services && v.services[root].closed
            && v.services[root].jobs.Keys == u.services[root].jobs.Keys
            && (forall caseRef, key, specSha :: WellMade(v.services[root], caseRef, key, specSha) ==>
                  StartAnswer(h, v.services[root], caseRef, key, specSha) == Err(ServiceClosed))
            && (forall r :: IsDispatched(v, root, r) ==> IsDispatched(u, root, r))
  {
    var u := Step(h, Run(h, w, before), CloseBegin(root));
    Reachable(h, w, before);
    StepKeeps(h, Run(h, w, before), CloseBegin(root));
    forall key | PlainKey(key) ensures KeyOk(key) { KeyOkIff(key); }
    if after != [] {
      var n := |after| - 1;
      assert NoRestart(after[..n], root);
      ClosedIsQuiet(h, w, before, after[..n], root);
      var v := Run(h, u, after[..n]);
      StepKeeps(h, v, after[n]);
      ClosedStays(h, v, after[n], root);
      forall r | IsDispatched(Step(h, v, after[n]), root, r) ensures IsDispatched(u, root, r) {
        if !IsDispatched(v, root, r) { ClosedDispatchesNothing(h, v, after[n], root, r); }
      }
    }
  }

  /** No other `close` writes for the job. */
  ghost predicate NotMarked(acts: seq<Action>, root: Root, r: Ref) {
    forall i :: 0 <= i < |acts| ==> !(acts[i].MarkUnknown? && acts[i].root == root && acts[i].ref == r)
  }

  lemma {:induction false} ClosingStays(h: Hashes, w: World, acts: seq<Action>, root: Root, r: Ref)
    requires Inv(h, w) && root in w.services && r in w.services[root].closing && r in w.services[root].jobs
    requires NoRestart(acts, root) && NotMarked(acts, root, r)
    ensures var v := Run(h, w, acts);
            Inv(h, v) && root in v.services && r in v.services[root].closing && r in v.services[root].jobs
  {
    if acts != [] {
      var n := |acts| - 1;
      assert NoRestart(acts[..n], root) && NotMarked(acts[..n], root, r);
      ClosingStays(h, w, acts[..n], root, r);
      var v := Run(h, w, acts[..n]);
      StepKeeps(h, v, acts[n]);
      assert ServiceInv(h, v.services[root]);
      StepMovesJob(h, v, acts[n], root, r);
      ClosingStep(h, v, acts[n], root, r);
    }
  }

  lemma ClosingStep(h: Hashes, w: World, a: Action, root: Root, r: Ref)
    requires root in w.services && r in w.services[root].closing
    requires !(a.Restart? && a.root == root) && !(a.MarkUnknown? && a.root == root && a.ref == r)
    ensures root in Step(h, w, a).services && r in Step(h, w, a).services[root].closing
  {
  }

  /**
   * A `close` that finds a worker still running leaves its job unknown when it comes to write, whatever
   * happens in between.
   */
  lemma CloseLeavesUnknown(h: Hashes, w: World, before: seq<Action>, between: seq<Action>, root: Root, r: Ref, more: bool)
    requires Initial(w) && Known(Run(h, w, before), root, r)
    requires var s := Run(h, w, before).services[root]; s.closed && Alive(s.workers[r])
    requires NoRestart(between, root) && NotMarked(between, root, r)
    ensures var v := Run(h, Step(h, Run(h, w, before), Observe(root, r)), between);
            var v' := Step(h, v, MarkUnknown(root, r, more));
            Known(v', root, r) && v'.services[root].jobs[r].status == ExecutionUnknown
  {
    var u := Step(h, Run(h, w, before), Observe(root, r));
    Reachable(h, w, before);
    StepKeeps(h, Run(h, w, before), Observe(root, r));
    ClosingStays(h, u, between, root, r);
    var v := Run(h, u, between);
    assert ServiceInv(h, v.services[root]);
    StepMovesJob(h, v, MarkUnknown(root, r, more), root, r);
  }

  /** A restart opens the service with the new cases: the jobs are kept, and every running worker is gone, with its hold. */
  lemma RestartOpens(h: Hashes, w: World, root: Root, cases: map<string, CaseSpec>)
    requires Inv(h, w) && root in w.services && ValidCases(cases)
    ensures var s, s' := w.services[root], Step(h, w, Restart(root, cases)).services[root];
            && !s'.closed && s'.cases == cases && s'.jobs == s.jobs && s'.closing == {} && !AnyAlive(s')
            && (forall r :: r in s.workers ==> r in s'.workers && Holding(s'.workers[r]) == Holding(s.workers[r]))
  {
  }
}
