/**
 * The native job service: job rows, workers, and the shared ledger they reserve from.
 * Every SQLite transaction and every in-memory assignment that other threads can see
 * is one step; a run is any interleaving of steps of any number of services.
 */
module NativeJobs {
  import opened Prelude
  import opened BudgetLedger

  type Root = string

  /** The digests the service takes; only what a lemma assumes of them is known. */
  datatype Hashes = Hashes(
    refOf: string -> Ref,
    bind: Budget -> Digest,
    request: (string, string, Digest) -> Digest)

  datatype CaseSpec = CaseSpec(specSha: Digest, cap: int, budget: Budget)

  /** What the service constructor demands of a trusted case. */
  predicate ValidCase(c: CaseSpec) {
    1 <= c.cap <= 150 && ValidBudget(c.budget)
  }

  datatype Status =
    IntentRecorded | Running | Completed | Failed | Cancelled | Refused | ExecutionUnknown | Other(text: string)

  datatype Delivery = NotProduced | Validating | HeldCleanupUnproven | ValidatedByCollector | DeliveryFailed

  datatype Job = Job(
    key: string, caseRef: string, requestSha: Digest,
    status: Status, nativeTerminal: bool, leaderStopped: bool, delivery: Delivery)

  /** What a provider hands back; it need not be the dictionary the service asks for. */
  datatype Outcome = NotADict | Dict(status: Option<Status>, terminal: bool, leaderStopped: bool)

  /** The program points of a worker thread between which other threads can run. */
  datatype Pc =
    Checking | Reserved | Prepared | Dispatched | Returned | Recorded | Collecting | Finishing | Ended | Crashed

  datatype Worker = Worker(
    pc: Pc, budget: Budget, cap: int,
    reserved: bool, dispatched: bool, outcome: Option<Outcome>,
    released: bool, releaseFailed: bool)

  predicate Alive(w: Worker) { w.pc != Ended && w.pc != Crashed }

  /** Between a successful reserve and the release of its latch. */
  predicate Holding(w: Worker) { w.reserved && !w.released }

  /** A verified terminal plus a stopped leader. */
  predicate Verified(w: Worker) {
    w.outcome.Some? && w.outcome.value.Dict? && w.outcome.value.terminal && w.outcome.value.leaderStopped
  }

  /** The test `start` applies to every stored job before it accepts a new key. */
  predicate Settled(j: Job) {
    && j.status in {Completed, Failed, Cancelled, Refused}
    && j.delivery != Validating
    && (j.nativeTerminal ==> j.leaderStopped)
  }

  // ---------- one worker ----------

  datatype WorkerAction =
    | Reserving(now: real, putOk: bool)
    | Preparing
    | Dispatching
    | Returning(outcome: Outcome)
    | Recording(putOk: bool)
    | Delivering(hasCollector: bool)
    | CollectorDone(ok: bool)
    | Raising(putOk: bool)
    | Releasing(writeOk: bool)

  /** The dictionary update of a job row by a provider outcome. */
  function Merge(j: Job, o: Outcome): Job
    requires o.Dict?
  {
    j.(status := if o.status.Some? then o.status.value else j.status,
       nativeTerminal := o.terminal, leaderStopped := o.leaderStopped)
  }

  /** What the exception handler of the worker writes to its job row. */
  function Handled(w: Worker, j: Job): Job {
    if w.outcome.Some? && w.outcome.value.Dict? && w.outcome.value.terminal then
      Merge(j, w.outcome.value).(delivery := DeliveryFailed)
    else
      j.(status := if w.dispatched then ExecutionUnknown else Refused)
  }

  /** The service's acceptance of a provider outcome. */
  predicate AcceptableOutcome(o: Outcome) {
    && o.Dict? && o.status.Some?
    && o.status.value in {Completed, Failed, Cancelled, ExecutionUnknown}
    && (o.status.value == ExecutionUnknown || o.terminal)
  }

  predicate ReleaseDue(w: Worker) { w.reserved && (Verified(w) || !w.dispatched) }

  datatype Local = Local(worker: Worker, job: Job, row: Option<Row>)

  function Raised(s: Local, putOk: bool): Local {
    Local(s.worker.(pc := Finishing), if putOk then Handled(s.worker, s.job) else s.job, s.row)
  }

  /** One step of the worker thread; an action its program point does not offer changes nothing. */
  function WorkerStep(h: Hashes, s: Local, ref: Ref, closed: bool, a: WorkerAction): Local {
    var w, j := s.worker, s.job;
    match a
    case Reserving(now, putOk) =>
      if w.pc != Checking then s
      else if closed then Raised(s, putOk)
      else (match ReserveRow(h.bind, s.row, w.budget, w.cap, ref, now)
            case Err(_) => Raised(s, putOk)
            case Ok(g) => Local(w.(pc := Reserved, reserved := true), j, Some(g.row)))
    case Preparing =>
      if w.pc != Reserved then s
      else Local(w.(pc := Prepared), j.(status := Running), s.row)
    case Dispatching =>
      if w.pc != Prepared || closed then s
      else s.(worker := w.(pc := Dispatched, dispatched := true))
    case Returning(o) =>
      if w.pc != Dispatched then s
      else s.(worker := w.(pc := Returned, outcome := Some(o)))
    case Recording(putOk) =>
      if w.pc != Returned || w.outcome.None? then s
      else if !AcceptableOutcome(w.outcome.value) then Raised(s, putOk)
      else Local(w.(pc := Recorded), Merge(j, w.outcome.value), s.row)
    case Delivering(hasCollector) =>
      if w.pc != Recorded || w.outcome.None? || !w.outcome.value.Dict? then s
      else
        var o := w.outcome.value;
        var completed := o.status == Some(Completed);
        var collect := completed && o.leaderStopped && hasCollector;
        var delivery := if collect then Validating
                        else if completed && !o.leaderStopped then HeldCleanupUnproven
                        else NotProduced;
        Local(w.(pc := if collect then Collecting else Finishing), Merge(j, o).(delivery := delivery), s.row)
    case CollectorDone(ok) =>
      if w.pc != Collecting then s
      else Local(w.(pc := Finishing), j.(delivery := if ok then ValidatedByCollector else DeliveryFailed), s.row)
    case Raising(putOk) =>
      if w.pc in {Finishing, Ended, Crashed} then s else Raised(s, putOk)
    case Releasing(writeOk) =>
      if w.pc != Finishing then s
      else if !ReleaseDue(w) then s.(worker := w.(pc := Ended))
      else if !writeOk then s.(worker := w.(pc := Ended, releaseFailed := true))
      else Local(w.(pc := Ended, released := true), j, ReleaseRow(s.row, ref))
  }

  // ---------- one service ----------

  datatype Service = Service(
    cases: map<string, CaseSpec>,
    jobs: map<Ref, Job>,
    workers: map<Ref, Worker>,
    closed: bool,
    closing: set<Ref>)

  datatype StartError =
    CaseUnavailable | KeyInvalid | SpecDiffers | ServiceClosed | PayloadDiffers | WorkerActive | UnsettledHeld | RefTaken

  predicate AnyAlive(s: Service) { exists r :: r in s.workers && Alive(s.workers[r]) }

  predicate AllSettled(s: Service) { forall r :: r in s.jobs ==> Settled(s.jobs[r]) }

  /** The row stored under a key: the only place it can be is under the key's ref. */
  predicate Stored(h: Hashes, s: Service, key: string) {
    h.refOf(key) in s.jobs && s.jobs[h.refOf(key)].key == key
  }

  function NewJob(h: Hashes, caseRef: string, key: string, specSha: Digest): Job {
    Job(key, caseRef, h.request(caseRef, key, specSha), IntentRecorded, false, false, NotProduced)
  }

  function NewWorker(c: CaseSpec): Worker {
    Worker(Checking, c.budget, c.cap, false, false, None, false, false)
  }

  predicate KeyChar(c: char) { 'A' <= c <= 'Z' || 'a' <= c <= 'z' || '0' <= c <= '9' || c in {'_', '.', '-'} }

  predicate KeyOk(key: string) { 1 <= |key| <= 120 && forall i :: 0 <= i < |key| ==> KeyChar(key[i]) }

  /** The answer of `start`. */
  function StartAnswer(h: Hashes, s: Service, caseRef: string, key: string, specSha: Digest): Result<Job, StartError> {
    if caseRef !in s.cases then Err(CaseUnavailable)
    else if !KeyOk(key) then Err(KeyInvalid)
    else if specSha != s.cases[caseRef].specSha then Err(SpecDiffers)
    else if s.closed then Err(ServiceClosed)
    else if Stored(h, s, key) then
      if s.jobs[h.refOf(key)].requestSha == h.request(caseRef, key, specSha)
      then Ok(s.jobs[h.refOf(key)]) else Err(PayloadDiffers)
    else if AnyAlive(s) then Err(WorkerActive)
    else if !AllSettled(s) then Err(UnsettledHeld)
    else if h.refOf(key) in s.jobs then Err(RefTaken)
    else Ok(NewJob(h, caseRef, key, specSha))
  }

  /** Whether `start` inserts a row and spawns a worker, rather than replaying or refusing. */
  predicate StartInserts(h: Hashes, s: Service, caseRef: string, key: string, specSha: Digest) {
    StartAnswer(h, s, caseRef, key, specSha).Ok? && !Stored(h, s, key)
  }

  function StartStep(h: Hashes, s: Service, caseRef: string, key: string, specSha: Digest): Service {
    if !StartInserts(h, s, caseRef, key, specSha) then s
    else
      var r := h.refOf(key);
      s.(jobs := s.jobs[r := NewJob(h, caseRef, key, specSha)],
         workers := s.workers[r := NewWorker(s.cases[caseRef])])
  }

  /** A call of `close` finds a worker still running after the join times out; several calls can. */
  function CloseObserve(s: Service, r: Ref): Service {
    if s.closed && r in s.workers && Alive(s.workers[r]) then s.(closing := s.closing + {r}) else s
  }

  /**
   * `close` then records the job as unknown, whatever its worker has done meanwhile; `more` when another
   * call that found the same worker has yet to write.
   */
  function ClosePut(s: Service, r: Ref, more: bool): Service {
    if r in s.closing && r in s.jobs then
      s.(jobs := s.jobs[r := s.jobs[r].(status := ExecutionUnknown)], closing := if more then s.closing else s.closing - {r})
    else s
  }

  predicate ValidCases(cases: map<string, CaseSpec>) { forall c :: c in cases ==> ValidCase(cases[c]) }

  /**
   * The process dies, with its threads, and a fresh instance opens the same private root
   * with the cases it is given then; the constructor refuses invalid ones.
   */
  function Reopened(s: Service, cases: map<string, CaseSpec>): Service {
    if !ValidCases(cases) then s else
    s.(cases := cases, workers := map r | r in s.workers :: if Alive(s.workers[r]) then s.workers[r].(pc := Crashed) else s.workers[r],
       closed := false, closing := {})
  }

  // ---------- all services on their ledgers ----------

  datatype World = World(services: map<Root, Service>, ledgers: map<Path, Row>)

  datatype Action =
    | Start(root: Root, caseRef: string, key: string, specSha: Digest)
    | Work(root: Root, ref: Ref, act: WorkerAction)
    | CloseBegin(root: Root)
    | Observe(root: Root, ref: Ref)
    | MarkUnknown(root: Root, ref: Ref, more: bool)
    | Restart(root: Root, cases: map<string, CaseSpec>)

  function RowAt(w: World, p: Path): Option<Row> {
    if p in w.ledgers then Some(w.ledgers[p]) else None
  }

  function LocalOf(w: World, root: Root, r: Ref): Local
    requires root in w.services && r in w.services[root].workers && r in w.services[root].jobs
  {
    var s := w.services[root];
    Local(s.workers[r], s.jobs[r], RowAt(w, s.workers[r].budget.path))
  }

  function WithLocal(w: World, root: Root, r: Ref, l: Local): World
    requires root in w.services
  {
    var s := w.services[root];
    World(w.services[root := s.(workers := s.workers[r := l.worker], jobs := s.jobs[r := l.job])],
          if l.row.Some? then w.ledgers[l.worker.budget.path := l.row.value] else w.ledgers)
  }

  function Step(h: Hashes, w: World, a: Action): World {
    if a.root !in w.services then w
    else
      var s := w.services[a.root];
      match a
      case Start(root, caseRef, key, specSha) =>
        w.(services := w.services[root := StartStep(h, s, caseRef, key, specSha)])
      case Work(root, r, act) =>
        if r !in s.workers || r !in s.jobs then w
        else WithLocal(w, root, r, WorkerStep(h, LocalOf(w, root, r), r, s.closed, act))
      case CloseBegin(root) => w.(services := w.services[root := s.(closed := true)])
      case Observe(root, r) => w.(services := w.services[root := CloseObserve(s, r)])
      case MarkUnknown(root, r, more) => w.(services := w.services[root := ClosePut(s, r, more)])
      case Restart(root, cases) => w.(services := w.services[root := Reopened(s, cases)])
  }

  function Run(h: Hashes, w: World, acts: seq<Action>): World {
    if acts == [] then w else Step(h, Run(h, w, acts[..|acts| - 1]), acts[|acts| - 1])
  }

  /** Services with validated cases, no jobs yet, and no ledger written. */
  predicate Initial(w: World) {
    && w.ledgers == map[]
    && (forall root :: root in w.services ==>
          && w.services[root].jobs == map[] && w.services[root].workers == map[]
          && w.services[root].closing == {}
          && ValidCases(w.services[root].cases))
  }
}
