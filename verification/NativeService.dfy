/** The job service as an object: each method does in place what the step functions describe. */
module NativeService {
  import opened Prelude
  import opened BudgetLedger
  import opened NativeJobs
  import opened NativeSafety

  /** What the world outside decides while one worker runs undisturbed. */
  datatype Script = Script(
    checksOk: bool, now: real, prepareOk: bool, factoryOk: bool,
    provider: Option<Outcome>, recordOk: bool, pinsOk: bool, collector: Option<bool>, receiptPutOk: bool,
    handlerPutOk: bool, releaseOk: bool)

  // The worker's steps under a script, in program order; after an exception the rest are no-ops.

  function Admission(e: Script): WorkerAction {
    if e.checksOk then Reserving(e.now, e.handlerPutOk) else Raising(e.handlerPutOk)
  }

  function Preparation(e: Script): WorkerAction { if e.prepareOk then Preparing else Raising(e.handlerPutOk) }

  function Dispatch(e: Script): WorkerAction { if e.factoryOk then Dispatching else Raising(e.handlerPutOk) }

  function Return(e: Script): WorkerAction {
    if e.provider.Some? then Returning(e.provider.value) else Raising(e.handlerPutOk)
  }

  function Record(e: Script): WorkerAction {
    if e.recordOk then Recording(e.handlerPutOk) else Raising(e.handlerPutOk)
  }

  function Deliver(e: Script): WorkerAction {
    if e.pinsOk then Delivering(e.collector.Some?) else Raising(e.handlerPutOk)
  }

  function Collect(e: Script): WorkerAction {
    if e.receiptPutOk then CollectorDone(e.collector == Some(true)) else Raising(e.handlerPutOk)
  }

  /** The worker up to the hand-over to its provider. */
  function ToDispatch(h: Hashes, s: Local, ref: Ref, closed: bool, e: Script): Local {
    var admitted := WorkerStep(h, s, ref, closed, Admission(e));
    var prepared := WorkerStep(h, admitted, ref, closed, Preparation(e));
    WorkerStep(h, prepared, ref, closed, Dispatch(e))
  }

  /** The worker from its provider's return to its collector's. */
  function ToCollected(h: Hashes, s: Local, ref: Ref, closed: bool, e: Script): Local {
    var returned := WorkerStep(h, s, ref, closed, Return(e));
    var recorded := WorkerStep(h, returned, ref, closed, Record(e));
    var delivered := WorkerStep(h, recorded, ref, closed, Deliver(e));
    WorkerStep(h, delivered, ref, closed, Collect(e))
  }

  /** The effect of all the steps of a script on one worker, its job and its ledger. */
  function WholeRun(h: Hashes, s: Local, ref: Ref, closed: bool, e: Script): Local {
    var dispatched := ToDispatch(h, s, ref, closed, e);
    var collected := ToCollected(h, dispatched, ref, closed, e);
    WorkerStep(h, collected, ref, closed, Releasing(e.releaseOk))
  }

  lemma WholeRunKeeps(h: Hashes, s: Local, ref: Ref, closed: bool, e: Script)
    requires WorkerInv(s.worker, s.job)
    ensures WorkerInv(WholeRun(h, s, ref, closed, e).worker, WholeRun(h, s, ref, closed, e).job)
  {
    var dispatched := ToDispatch(h, s, ref, closed, e);
    assert WorkerInv(dispatched.worker, dispatched.job) by {
      var admitted := WorkerStep(h, s, ref, closed, Admission(e));
      var prepared := WorkerStep(h, admitted, ref, closed, Preparation(e));
      WorkerStepKeeps(h, s, ref, closed, Admission(e));
      WorkerStepKeeps(h, admitted, ref, closed, Preparation(e));
      WorkerStepKeeps(h, prepared, ref, closed, Dispatch(e));
    }
    var collected := ToCollected(h, dispatched, ref, closed, e);
    assert WorkerInv(collected.worker, collected.job) by {
      var returned := WorkerStep(h, dispatched, ref, closed, Return(e));
      var recorded := WorkerStep(h, returned, ref, closed, Record(e));
      var delivered := WorkerStep(h, recorded, ref, closed, Deliver(e));
      WorkerStepKeeps(h, dispatched, ref, closed, Return(e));
      WorkerStepKeeps(h, returned, ref, closed, Record(e));
      WorkerStepKeeps(h, recorded, ref, closed, Deliver(e));
      WorkerStepKeeps(h, delivered, ref, closed, Collect(e));
    }
    WorkerStepKeeps(h, collected, ref, closed, Releasing(e.releaseOk));
  }

  // ---------- what a whole run amounts to ----------

  /** The reservation of an undisturbed worker, if its checks let it get that far. */
  function Reservation(h: Hashes, s: Local, ref: Ref, closed: bool, e: Script): Result<Grant, Refusal> {
    if !e.checksOk || closed then Err(UnknownHeld) else ReserveRow(h.bind, s.row, s.worker.budget, s.worker.cap, ref, e.now)
  }

  /** Whether the provider is handed the job once the reservation is made. */
  predicate HandsOver(e: Script) { e.prepareOk && e.factoryOk }

  predicate EndsTerminal(e: Script) { e.provider.Some? && e.provider.value.Dict? && e.provider.value.terminal }

  predicate EndsVerified(e: Script) { EndsTerminal(e) && e.provider.value.leaderStopped }

  /** The provider's dictionary names one of four statuses and, unless it is unknown, a native terminal. */
  predicate Accepts(e: Script) {
    && e.recordOk && e.provider.Some? && e.provider.value.Dict?
    && (|| e.provider.value.status == Some(ExecutionUnknown)
        || (e.provider.value.status in {Some(Completed), Some(Failed), Some(Cancelled)} && e.provider.value.terminal))
  }

  /** The status a job is left with. */
  function FinalStatus(was: Status, reserved: bool, e: Script): Status {
    if !(reserved && HandsOver(e)) then
      if e.handlerPutOk then Refused else if reserved && e.prepareOk then Running else was
    else if Accepts(e) then e.provider.value.status.value
    else if !e.handlerPutOk then Running
    else if !EndsTerminal(e) then ExecutionUnknown
    else if e.provider.value.status.Some? then e.provider.value.status.value
    else Running
  }

  /** The delivery status of a job whose provider was called. */
  function FinalDelivery(e: Script): Delivery {
    var failed := if EndsTerminal(e) && e.handlerPutOk then DeliveryFailed else NotProduced;
    if !Accepts(e) || !e.pinsOk then failed
    else if e.provider.value.status != Some(Completed) then NotProduced
    else if !e.provider.value.leaderStopped then HeldCleanupUnproven
    else if e.collector.None? then NotProduced
    else if !e.receiptPutOk then (if e.handlerPutOk then DeliveryFailed else Validating)
    else if e.collector.value then ValidatedByCollector
    else DeliveryFailed
  }

  /** The ledger is left as found, or charged, and held unless a release is due and goes through. */
  function FinalRow(row: Option<Row>, reservation: Result<Grant, Refusal>, e: Script): Option<Row> {
    if reservation.Err? then row
    else if (!HandsOver(e) || EndsVerified(e)) && e.releaseOk then Some(reservation.value.row.(held := None))
    else Some(reservation.value.row)
  }

  lemma DispatchMeans(h: Hashes, s: Local, ref: Ref, closed: bool, e: Script)
    requires s.worker.pc == Checking && WorkerInv(s.worker, s.job)
    ensures var t, g := ToDispatch(h, s, ref, closed, e), Reservation(h, s, ref, closed, e);
            && t.worker.reserved == g.Ok? && t.worker.dispatched == (g.Ok? && HandsOver(e))
            && t.worker.pc == (if t.worker.dispatched then Dispatched else Finishing)
            && t.worker.outcome == None && !t.worker.released && !t.worker.releaseFailed
            && t.row == (if g.Ok? then Some(g.value.row) else s.row)
            && t.job.delivery == NotProduced
            && t.job.status == if t.worker.dispatched then Running else FinalStatus(s.job.status, g.Ok?, e)
  {
  }

  lemma CollectMeans(h: Hashes, s: Local, ref: Ref, closed: bool, e: Script)
    requires s.worker.pc == Dispatched && s.worker.dispatched && s.worker.outcome == None
    requires s.job.status == Running && s.job.delivery == NotProduced
    ensures var t := ToCollected(h, s, ref, closed, e);
            && t.worker == s.worker.(pc := Finishing, outcome := e.provider) && t.row == s.row
            && (HandsOver(e) ==> t.job.status == FinalStatus(Running, true, e)) && t.job.delivery == FinalDelivery(e)
  {
    var returned := WorkerStep(h, s, ref, closed, Return(e));
    var recorded := WorkerStep(h, returned, ref, closed, Record(e));
    if e.provider.Some? {
      RecordedAs(h, returned, ref, closed, e);
      if Accepts(e) { DeliveredMeans(h, recorded, ref, closed, e); }
      else { FinishingStays(h, recorded, ref, closed, e); }
    }
  }

  lemma FinishingStays(h: Hashes, s: Local, ref: Ref, closed: bool, e: Script)
    requires s.worker.pc == Finishing
    ensures WorkerStep(h, WorkerStep(h, s, ref, closed, Deliver(e)), ref, closed, Collect(e)) == s
  {
  }

  lemma DeliveredMeans(h: Hashes, s: Local, ref: Ref, closed: bool, e: Script)
    requires s.worker.pc == Recorded && s.worker.dispatched && s.worker.outcome == e.provider && Accepts(e)
    requires s.job.status == e.provider.value.status.value && s.job.delivery == NotProduced
    ensures var t := WorkerStep(h, WorkerStep(h, s, ref, closed, Deliver(e)), ref, closed, Collect(e));
            && t.worker == s.worker.(pc := Finishing) && t.row == s.row
            && t.job.status == e.provider.value.status.value && t.job.delivery == FinalDelivery(e)
  {
  }

  /** The outcome and the guards of an undisturbed worker decide its job's status, its delivery and the ledger. */
  ghost predicate RunMeans(h: Hashes, s: Local, ref: Ref, closed: bool, e: Script, t: Local) {
    var g := Reservation(h, s, ref, closed, e);
    && t.job.status == FinalStatus(s.job.status, g.Ok?, e)
    && t.job.delivery == (if g.Ok? && HandsOver(e) then FinalDelivery(e) else NotProduced)
    && t.row == FinalRow(s.row, g, e)
  }

  lemma WholeRunMeans(h: Hashes, s: Local, ref: Ref, closed: bool, e: Script)
    requires s.worker.pc == Checking && WorkerInv(s.worker, s.job)
    ensures RunMeans(h, s, ref, closed, e, WholeRun(h, s, ref, closed, e))
    ensures WholeRun(h, s, ref, closed, e).worker.releaseFailed ==> !e.releaseOk
  {
    var dispatched := ToDispatch(h, s, ref, closed, e);
    DispatchMeans(h, s, ref, closed, e);
    if dispatched.worker.dispatched { CollectMeans(h, dispatched, ref, closed, e); }
    else { FinishedStays(h, dispatched, ref, closed, e); }
    ReleaseMeans(h, ToCollected(h, dispatched, ref, closed, e), ref, closed, e.releaseOk);
  }

  /** Whoever still holds the latch at the end, with nothing failing to release it, has an unsettled job. */
  lemma WholeRunAgrees(h: Hashes, s: Local, ref: Ref, closed: bool, e: Script)
    requires s.worker.pc == Checking && WorkerInv(s.worker, s.job)
    ensures var t := WholeRun(h, s, ref, closed, e);
            Holding(t.worker) && t.worker.pc == Ended && !t.worker.releaseFailed ==> !Settled(t.job)
  {
    WholeRunKeeps(h, s, ref, closed, e);
  }

  lemma FinishedStays(h: Hashes, s: Local, ref: Ref, closed: bool, e: Script)
    requires s.worker.pc == Finishing
    ensures ToCollected(h, s, ref, closed, e) == s
  {
  }

  lemma ReleaseMeans(h: Hashes, s: Local, ref: Ref, closed: bool, writeOk: bool)
    requires s.worker.pc == Finishing
    ensures var t := WorkerStep(h, s, ref, closed, Releasing(writeOk));
            && (t.worker.releaseFailed ==> s.worker.releaseFailed || !writeOk)
            && t.job == s.job && t.row == if ReleaseDue(s.worker) && writeOk then ReleaseRow(s.row, ref) else s.row
  {
  }

  lemma RecordedAs(h: Hashes, s: Local, ref: Ref, closed: bool, e: Script)
    requires s.worker.pc == Returned && s.worker.outcome.Some?
    ensures WorkerStep(h, s, ref, closed, Record(e)) ==
            if e.recordOk && AcceptableOutcome(s.worker.outcome.value)
            then Local(s.worker.(pc := Recorded), Merge(s.job, s.worker.outcome.value), s.row)
            else Raised(s, e.handlerPutOk)
  {
  }

  predicate RefChar(c: char) { 'A' <= c <= 'Z' || 'a' <= c <= 'z' || '0' <= c <= '9' || c == '_' || c == '-' }

  predicate CaseRefOk(ref: string) { 1 <= |ref| <= 58 && forall i :: 0 <= i < |ref| ==> RefChar(ref[i]) }

  /** A trusted case as configured; a field of the wrong type, or an expiry that is not finite, is `None`. */
  datatype Spec = Spec(
    ref: string, sha: Digest, cap: Option<int>, effort: string, path: Path,
    maxCalls: Option<int>, callsBefore: Option<int>, expiresAt: Option<real>,
    maxSeconds: Option<int>, secondsBefore: Option<int>)

  datatype CaseError = CaseRefInvalid | CapInvalid | EffortInvalid | BudgetInvalid | ExpiryInvalid | SecondsInvalid

  predicate Within(lo: int, x: Option<int>, hi: int) { x.Some? && lo <= x.value <= hi }

  predicate EffortOk(effort: string) { effort in {"low", "medium", "high", "xhigh", "max", "ultra"} }

  /** The checks on one spec, in order, after others have been taken. */
  function SpecError(s: Spec, taken: bool): Option<CaseError> {
    if !CaseRefOk(s.ref) || taken then Some(CaseRefInvalid)
    else if !Within(1, s.cap, 150) then Some(CapInvalid)
    else if !EffortOk(s.effort) then Some(EffortInvalid)
    else if !(Within(1, s.maxCalls, 8) && Within(0, s.callsBefore, s.maxCalls.value - 1)) then Some(BudgetInvalid)
    else if s.expiresAt.None? then Some(ExpiryInvalid)
    else if !(Within(1, s.maxSeconds, 1200) && Within(0, s.secondsBefore, s.maxSeconds.value - 1)) then Some(SecondsInvalid)
    else None
  }

  /** Each refusal of a spec has its cause. */
  lemma SpecErrorByCause(s: Spec, taken: bool)
    ensures match SpecError(s, taken)
            case None => !taken && SpecOk(s)
            case Some(CaseRefInvalid) => taken || !CaseRefOk(s.ref)
            case Some(CapInvalid) => s.cap.None? || s.cap.value < 1 || s.cap.value > 150
            case Some(EffortInvalid) => s.effort !in {"low", "medium", "high", "xhigh", "max", "ultra"}
            case Some(BudgetInvalid) =>
              s.maxCalls.None? || s.callsBefore.None? || !(1 <= s.maxCalls.value <= 8 && 0 <= s.callsBefore.value < s.maxCalls.value)
            case Some(ExpiryInvalid) => s.expiresAt.None?
            case Some(SecondsInvalid) =>
              s.maxSeconds.None? || s.secondsBefore.None? || !(1 <= s.maxSeconds.value <= 1200 && 0 <= s.secondsBefore.value < s.maxSeconds.value)
  {
  }

  /** Every field of a spec is usable. */
  predicate SpecOk(s: Spec) {
    && CaseRefOk(s.ref) && EffortOk(s.effort) && s.cap.Some? && s.maxCalls.Some? && s.callsBefore.Some?
    && s.expiresAt.Some? && s.maxSeconds.Some? && s.secondsBefore.Some? && ValidCase(CaseOf(s))
  }

  function CaseOf(s: Spec): CaseSpec
    requires s.cap.Some? && s.maxCalls.Some? && s.callsBefore.Some? && s.expiresAt.Some? && s.maxSeconds.Some? && s.secondsBefore.Some?
  {
    CaseSpec(s.sha, s.cap.value,
             Budget(s.path, s.maxCalls.value, s.callsBefore.value, s.maxSeconds.value, s.secondsBefore.value, s.expiresAt.value))
  }

  ghost predicate Names(specs: seq<Spec>, ref: string) { exists i :: 0 <= i < |specs| && specs[i].ref == ref }

  /** Every spec is usable, under a reference of its own. */
  ghost predicate Trustworthy(specs: seq<Spec>) {
    forall i :: 0 <= i < |specs| ==> SpecOk(specs[i]) && !Names(specs[..i], specs[i].ref)
  }

  lemma TrustworthyNext(specs: seq<Spec>, n: nat)
    requires n < |specs|
    ensures Trustworthy(specs[..n + 1]) <==> Trustworthy(specs[..n]) && SpecOk(specs[n]) && !Names(specs[..n], specs[n].ref)
  {
    assert forall i :: 0 <= i < n ==> specs[..n][i] == specs[i] && specs[..n + 1][i] == specs[i];
    assert forall i :: 0 <= i <= n ==> specs[..n + 1][..i] == specs[..i];
    assert forall i :: 0 <= i < n ==> specs[..n][..i] == specs[..i];
    assert specs[..n + 1][n] == specs[n];
  }

  lemma {:induction false} TrustworthyPrefix(specs: seq<Spec>, n: nat)
    requires n <= |specs| && Trustworthy(specs)
    ensures Trustworthy(specs[..n])
  {
    assert forall i :: 0 <= i < n ==> specs[..n][i] == specs[i] && specs[..n][..i] == specs[..i];
  }

  /** The case table holds exactly the cases of some specs. */
  ghost predicate Tables(cases: map<string, CaseSpec>, specs: seq<Spec>) {
    && (forall ref :: ref in cases <==> Names(specs, ref))
    && (forall i :: 0 <= i < |specs| ==> SpecOk(specs[i]) && specs[i].ref in cases && cases[specs[i].ref] == CaseOf(specs[i]))
  }

  /** The case table a service is opened with, or the first check that refuses a spec. */
  method TrustedCases(specs: seq<Spec>) returns (r: Result<map<string, CaseSpec>, CaseError>)
    ensures r.Ok? <==> Trustworthy(specs)
    ensures r.Ok? ==> ValidCases(r.value) && Tables(r.value, specs)
    ensures r.Err? ==> exists n :: 0 <= n < |specs| && Trustworthy(specs[..n])
                                   && SpecError(specs[n], Names(specs[..n], specs[n].ref)) == Some(r.error)
  {
    var cases: map<string, CaseSpec> := map[];
    for n := 0 to |specs|
      invariant Trustworthy(specs[..n]) && ValidCases(cases) && Tables(cases, specs[..n])
    {
      var spec := specs[n];
      TrustworthyNext(specs, n);
      var refused := SpecError(spec, spec.ref in cases);
      if refused.Some? {
        if Trustworthy(specs) { TrustworthyPrefix(specs, n + 1); }
        return Err(refused.value);
      }
      TablesNext(cases, specs, n);
      cases := cases[spec.ref := CaseOf(spec)];
    }
    assert specs[..|specs|] == specs;
    r := Ok(cases);
  }

  lemma TablesNext(cases: map<string, CaseSpec>, specs: seq<Spec>, n: nat)
    requires n < |specs| && Tables(cases, specs[..n]) && SpecOk(specs[n]) && specs[n].ref !in cases
    ensures Tables(cases[specs[n].ref := CaseOf(specs[n])], specs[..n + 1])
  {
    assert specs[..n + 1] == specs[..n] + [specs[n]];
    forall i | 0 <= i < n ensures specs[i].ref != specs[n].ref { assert specs[..n][i] == specs[i]; }
  }

  class NativeStage1Service {
    const h: Hashes
    var cases: map<string, CaseSpec>
    var jobs: map<Ref, Job>
    var workers: map<Ref, Worker>
    var closed: bool
    var closing: set<Ref>

    ghost function View(): Service
      reads this
    {
      Service(cases, jobs, workers, closed, closing)
    }

    ghost predicate Valid()
      reads this
    {
      ServiceInv(h, View())
    }

    constructor (h: Hashes, cases: map<string, CaseSpec>)
      requires ValidCases(cases)
      ensures Valid() && this.h == h
      ensures View() == Service(cases, map[], map[], false, {})
    {
      this.h, this.cases := h, cases;
      jobs, workers, closed, closing := map[], map[], false, {};
    }

    method Start(caseRef: string, key: string, specSha: Digest) returns (r: Result<Job, StartError>)
      modifies this
      ensures View() == StartStep(h, old(View()), caseRef, key, specSha)
      ensures r == StartAnswer(h, old(View()), caseRef, key, specSha)
    {
      if caseRef !in cases { return Err(CaseUnavailable); }
      if !KeyOk(key) { return Err(KeyInvalid); }
      if specSha != cases[caseRef].specSha { return Err(SpecDiffers); }
      if closed { return Err(ServiceClosed); }
      var ref := h.refOf(key);
      var requestSha := h.request(caseRef, key, specSha);
      if ref in jobs && jobs[ref].key == key {
        return if jobs[ref].requestSha == requestSha then Ok(jobs[ref]) else Err(PayloadDiffers);
      }
      if exists q | q in workers :: Alive(workers[q]) { return Err(WorkerActive); }
      if exists q | q in jobs :: !Settled(jobs[q]) { return Err(UnsettledHeld); }
      if ref in jobs { return Err(RefTaken); }
      var value := Job(key, caseRef, requestSha, IntentRecorded, false, false, NotProduced);
      jobs := jobs[ref := value];
      workers := workers[ref := NewWorker(cases[caseRef])];
      r := Ok(value);
    }

    /** `View()` is `base` but for one job and its worker. */
    ghost predicate Differs(base: Service, ref: Ref, w: Worker, j: Job)
      reads this
    {
      View() == base.(workers := base.workers[ref := w], jobs := base.jobs[ref := j])
    }

    /** Moves a worker on and puts its job row. */
    method Put(ref: Ref, w: Worker, j: Job, ghost base: Service, ghost w0: Worker, ghost j0: Job)
      requires Differs(base, ref, w0, j0)
      modifies this
      ensures Differs(base, ref, w, j)
    {
      workers, jobs := workers[ref := w], jobs[ref := j];
      assert base.workers[ref := w0][ref := w] == base.workers[ref := w];
      assert base.jobs[ref := j0][ref := j] == base.jobs[ref := j];
    }

    /** The exception handler. */
    method Raise(ref: Ref, w: Worker, j: Job, putOk: bool, ghost base: Service) returns (w': Worker, j': Job)
      requires Differs(base, ref, w, j)
      modifies this
      ensures Differs(base, ref, w', j')
      ensures w' == w.(pc := Finishing) && j' == if putOk then Handled(w, j) else j
    {
      w', j' := w.(pc := Finishing), j;
      if putOk {
        if w.outcome.Some? && w.outcome.value.Dict? && w.outcome.value.terminal {
          j' := Merge(j, w.outcome.value).(delivery := DeliveryFailed);
        } else if w.dispatched {
          j' := j.(status := ExecutionUnknown);
        } else {
          j' := j.(status := Refused);
        }
      }
      Put(ref, w', j', base, w, j);
    }

    /** The checks and the reservation. */
    method Admit(ref: Ref, ledger: LedgerFile, e: Script, w: Worker, j: Job, ghost base: Service)
      returns (w': Worker, j': Job)
      requires Differs(base, ref, w, j) && w.pc == Checking
      modifies this, ledger
      ensures Differs(base, ref, w', j')
      ensures Local(w', j', ledger.row) == WorkerStep(h, Local(w, j, old(ledger.row)), ref, base.closed, Admission(e))
      ensures w'.pc == Finishing || (w'.pc == Reserved && !base.closed)
    {
      var raised := !e.checksOk || closed;
      if !raised {
        var reservation := ledger.Reserve(h.bind, w.budget, w.cap, ref, e.now);
        raised := reservation.Err?;
      }
      if raised {
        w', j' := Raise(ref, w, j, e.handlerPutOk, base);
      } else {
        w', j' := w.(pc := Reserved, reserved := true), j;
        Put(ref, w', j', base, w, j);
      }
    }

    /** The private folder and the row marked running. */
    method Prepare(ref: Ref, e: Script, w: Worker, j: Job, ghost base: Service, ghost row: Option<Row>)
      returns (w': Worker, j': Job)
      requires Differs(base, ref, w, j) && w.pc in {Reserved, Finishing}
      modifies this
      ensures Differs(base, ref, w', j')
      ensures Local(w', j', row) == WorkerStep(h, Local(w, j, row), ref, base.closed, Preparation(e))
      ensures w'.pc == Finishing || (w'.pc == Prepared && w.pc == Reserved)
    {
      w', j' := w, j;
      if w.pc == Reserved {
        if e.prepareOk {
          w', j' := w.(pc := Prepared), j.(status := Running);
          Put(ref, w', j', base, w, j);
        } else {
          w', j' := Raise(ref, w, j, e.handlerPutOk, base);
        }
      }
    }

    /** The hand-over to the provider. */
    method HandOver(ref: Ref, e: Script, w: Worker, j: Job, ghost base: Service, ghost row: Option<Row>)
      returns (w': Worker, j': Job)
      requires Differs(base, ref, w, j) && (w.pc == Finishing || (w.pc == Prepared && !base.closed))
      modifies this
      ensures Differs(base, ref, w', j') && w'.pc in {Dispatched, Finishing}
      ensures Local(w', j', row) == WorkerStep(h, Local(w, j, row), ref, base.closed, Dispatch(e))
    {
      w', j' := w, j;
      if w.pc == Prepared {
        if e.factoryOk {
          w' := w.(pc := Dispatched, dispatched := true);
          Put(ref, w', j', base, w, j);
        } else {
          w', j' := Raise(ref, w, j, e.handlerPutOk, base);
        }
      }
    }

    /** Everything up to the hand-over to the provider. */
    method RunToDispatch(ref: Ref, ledger: LedgerFile, e: Script, w: Worker, j: Job, ghost base: Service)
      returns (w': Worker, j': Job)
      requires Differs(base, ref, w, j) && w.pc == Checking
      modifies this, ledger
      ensures Differs(base, ref, w', j')
      ensures Local(w', j', ledger.row) == ToDispatch(h, Local(w, j, old(ledger.row)), ref, base.closed, e)
      ensures w'.pc in {Dispatched, Finishing}
    {
      w', j' := Admit(ref, ledger, e, w, j, base);
      w', j' := Prepare(ref, e, w', j', base, ledger.row);
      w', j' := HandOver(ref, e, w', j', base, ledger.row);
    }

    /** The provider's return. */
    method AwaitProvider(ref: Ref, e: Script, w: Worker, j: Job, ghost base: Service, ghost row: Option<Row>)
      returns (w': Worker, j': Job)
      requires Differs(base, ref, w, j) && w.pc in {Dispatched, Finishing}
      modifies this
      ensures Differs(base, ref, w', j')
      ensures Local(w', j', row) == WorkerStep(h, Local(w, j, row), ref, base.closed, Return(e))
      ensures w'.pc == Finishing || (w'.pc == Returned && w'.outcome.Some?)
    {
      w', j' := w, j;
      if w.pc == Dispatched {
        if e.provider.Some? {
          w' := w.(pc := Returned, outcome := e.provider);
          Put(ref, w', j', base, w, j);
        } else {
          w', j' := Raise(ref, w, j, e.handlerPutOk, base);
        }
      }
    }

    /** The first put of what the provider returned. */
    method RecordOutcome(ref: Ref, e: Script, w: Worker, j: Job, ghost base: Service, ghost row: Option<Row>)
      returns (w': Worker, j': Job)
      requires Differs(base, ref, w, j) && (w.pc == Finishing || (w.pc == Returned && w.outcome.Some?))
      modifies this
      ensures Differs(base, ref, w', j')
      ensures Local(w', j', row) == WorkerStep(h, Local(w, j, row), ref, base.closed, Record(e))
      ensures w'.pc == Finishing || (w'.pc == Recorded && w'.outcome.Some? && w'.outcome.value.Dict?)
    {
      w', j' := w, j;
      if w.pc == Returned {
        RecordedAs(h, Local(w, j, row), ref, base.closed, e);
        if e.recordOk && AcceptableOutcome(w.outcome.value) {
          w', j' := w.(pc := Recorded), Merge(j, w.outcome.value);
          Put(ref, w', j', base, w, j);
        } else {
          w', j' := Raise(ref, w, j, e.handlerPutOk, base);
        }
      }
    }

    /** The second pin check and the delivery status. */
    method DeliverOutcome(ref: Ref, e: Script, w: Worker, j: Job, ghost base: Service, ghost row: Option<Row>)
      returns (w': Worker, j': Job)
      requires Differs(base, ref, w, j)
      requires w.pc == Finishing || (w.pc == Recorded && w.outcome.Some? && w.outcome.value.Dict?)
      modifies this
      ensures Differs(base, ref, w', j')
      ensures Local(w', j', row) == WorkerStep(h, Local(w, j, row), ref, base.closed, Deliver(e))
      ensures w'.pc == Finishing || (w'.pc == Collecting && e.collector.Some?)
    {
      w', j' := w, j;
      if w.pc == Recorded {
        if e.pinsOk {
          var o := w.outcome.value;
          var publishable := o.status == Some(Completed) && o.leaderStopped;
          var delivery := if publishable && e.collector.Some? then Validating
                          else if o.status == Some(Completed) && !publishable then HeldCleanupUnproven else NotProduced;
          w', j' := w.(pc := if delivery == Validating then Collecting else Finishing), Merge(j, o).(delivery := delivery);
          Put(ref, w', j', base, w, j);
        } else {
          w', j' := Raise(ref, w, j, e.handlerPutOk, base);
        }
      }
    }

    /** The collector's receipt, or its failure. */
    method CollectReceipt(ref: Ref, e: Script, w: Worker, j: Job, ghost base: Service, ghost row: Option<Row>)
      returns (w': Worker, j': Job)
      requires Differs(base, ref, w, j) && (w.pc == Finishing || (w.pc == Collecting && e.collector.Some?))
      modifies this
      ensures Differs(base, ref, w', j') && w'.pc == Finishing
      ensures Local(w', j', row) == WorkerStep(h, Local(w, j, row), ref, base.closed, Collect(e))
    {
      w', j' := w, j;
      if w.pc == Collecting {
        if e.receiptPutOk {
          w', j' := w.(pc := Finishing), j.(delivery := if e.collector.value then ValidatedByCollector else DeliveryFailed);
          Put(ref, w', j', base, w, j);
        } else {
          w', j' := Raise(ref, w, j, e.handlerPutOk, base);
        }
      }
    }

    /** From the provider's return to the collector's. */
    method RunToCollected(ref: Ref, e: Script, w: Worker, j: Job, ghost base: Service, ghost row: Option<Row>)
      returns (w': Worker, j': Job)
      requires Differs(base, ref, w, j) && w.pc in {Dispatched, Finishing}
      modifies this
      ensures Differs(base, ref, w', j') && w'.pc == Finishing
      ensures Local(w', j', row) == ToCollected(h, Local(w, j, row), ref, base.closed, e)
    {
      w', j' := AwaitProvider(ref, e, w, j, base, row);
      w', j' := RecordOutcome(ref, e, w', j', base, row);
      w', j' := DeliverOutcome(ref, e, w', j', base, row);
      w', j' := CollectReceipt(ref, e, w', j', base, row);
    }

    /** The release of the latch, when it is due. */
    method GiveBack(ref: Ref, ledger: LedgerFile, e: Script, w: Worker, j: Job, ghost base: Service) returns (w': Worker)
      requires Differs(base, ref, w, j) && w.pc == Finishing
      modifies this, ledger
      ensures Differs(base, ref, w', j) && w'.pc == Ended
      ensures Local(w', j, ledger.row) == WorkerStep(h, Local(w, j, old(ledger.row)), ref, base.closed, Releasing(e.releaseOk))
      ensures w'.releaseFailed ==> w.releaseFailed || !e.releaseOk
    {
      w' := w.(pc := Ended);
      if w.reserved && (Verified(w) || !w.dispatched) {
        if e.releaseOk {
          ledger.Release(ref);
          w' := w'.(released := true);
        } else {
          w' := w'.(releaseFailed := true);
        }
      }
      Put(ref, w', j, base, w, j);
    }

    /** The worker thread from its first check to its release, with no other thread in between. */
    method Run(ref: Ref, ledger: LedgerFile, e: Script)
      requires Valid() && ref in jobs && workers[ref].pc == Checking
      modifies this, ledger
      ensures var t := WholeRun(h, Local(old(workers[ref]), old(jobs[ref]), old(ledger.row)), ref, old(closed), e);
              Differs(old(View()), ref, t.worker, t.job) && ledger.row == t.row && t.worker.pc == Ended
      ensures RunMeans(h, Local(old(workers[ref]), old(jobs[ref]), old(ledger.row)), ref, old(closed), e,
                       Local(workers[ref], jobs[ref], ledger.row))
      ensures Holding(workers[ref]) && !workers[ref].releaseFailed ==> !Settled(jobs[ref])
      ensures workers[ref].releaseFailed ==> !e.releaseOk
    {
      ghost var base, s0 := View(), Local(workers[ref], jobs[ref], ledger.row);
      var w, j := workers[ref], jobs[ref];
      assert Differs(base, ref, w, j) by {
        assert base.workers[ref := w] == base.workers && base.jobs[ref := j] == base.jobs;
      }
      WholeRunMeans(h, s0, ref, base.closed, e);
      WholeRunAgrees(h, s0, ref, base.closed, e);
      w, j := RunToDispatch(ref, ledger, e, w, j, base);
      w, j := RunToCollected(ref, e, w, j, base, ledger.row);
      w := GiveBack(ref, ledger, e, w, j, base);
    }

    /**
     * Marks the service closed and records as unknown every job whose worker is still alive
     * when its turn comes; `order` lists the registered workers.
     */
    method Close(order: seq<Ref>)
      requires jobs.Keys == workers.Keys && (forall r :: r in workers <==> r in order)
      modifies this
      ensures closed && workers == old(workers) && jobs.Keys == old(jobs).Keys
      ensures forall r :: r in jobs ==>
                jobs[r] == Marked(old(jobs)[r], Alive(workers[r]))
    {
      closed := true;
      var was := jobs;
      ghost var done: set<Ref> := {};
      for i := 0 to |order|
        invariant closed && workers == old(workers) && MarkedIn(was, jobs, workers, done)
        invariant forall k :: 0 <= k < i ==> order[k] in done
      {
        var r := order[i];
        MarkOne(was, jobs, workers, done, r);
        if Alive(workers[r]) { jobs := jobs[r := was[r].(status := ExecutionUnknown)]; }
        done := done + {r};
      }
    }
  }

  /** The jobs of `done` whose workers still run are marked, and no others. */
  ghost predicate MarkedIn(was: map<Ref, Job>, jobs: map<Ref, Job>, workers: map<Ref, Worker>, done: set<Ref>) {
    && jobs.Keys == was.Keys == workers.Keys
    && forall r :: r in jobs ==> jobs[r] == Marked(was[r], r in done && Alive(workers[r]))
  }

  lemma MarkOne(was: map<Ref, Job>, jobs: map<Ref, Job>, workers: map<Ref, Worker>, done: set<Ref>, r: Ref)
    requires MarkedIn(was, jobs, workers, done) && r in jobs
    ensures MarkedIn(was, if Alive(workers[r]) then jobs[r := was[r].(status := ExecutionUnknown)] else jobs, workers, done + {r})
  {
    assert jobs[r := was[r].(status := ExecutionUnknown)].Keys == jobs.Keys;
  }

  /** A job row as `close` leaves it. */
  function Marked(j: Job, stuck: bool): Job { if stuck then j.(status := ExecutionUnknown) else j }
}
