/** What a worker's last put tells of its job row, and when a held latch and the job table disagree. */
module NativeHistory {
  import opened Prelude
  import opened BudgetLedger
  import opened NativeJobs
  import opened NativeSafety
  import opened NativeTheorems

  /** The puts a worker makes to its job row. */
  datatype Put = NoPut | RunningPut | OutcomePut | ValidatingPut | DeliveryPut | CollectorPut(ok: bool) | HandlerPut

  /** The last put that went through, and whether `close` has overwritten its status since. */
  datatype Past = Past(last: Put, overwritten: bool)

  const UNBORN := Past(NoPut, false)

  /** The provider returned a dictionary with a verified terminal, whatever its cleanup. */
  predicate Terminal(w: Worker) { w.outcome.Some? && w.outcome.value.Dict? && w.outcome.value.terminal }

  /** The exception handler's put; a terminal outcome without a status leaves the status alone. */
  function Handling(p: Past, w: Worker, putOk: bool): Past {
    if !putOk then p else Past(HandlerPut, p.overwritten && Terminal(w) && w.outcome.value.status.None?)
  }

  /** The past of a worker after a step that takes it from `w` to `t`. */
  function WorkerPast(p: Past, w: Worker, t: Worker, a: WorkerAction): Past {
    if t.pc == w.pc then p
    else
      match a
      case Reserving(_, putOk) => if t.pc == Reserved then p else Handling(p, w, putOk)
      case Preparing => Past(RunningPut, false)
      case Recording(putOk) => if t.pc == Recorded then Past(OutcomePut, false) else Handling(p, w, putOk)
      case Delivering(_) => Past(if t.pc == Collecting then ValidatingPut else DeliveryPut, false)
      case CollectorDone(ok) => p.(last := CollectorPut(ok))
      case Raising(putOk) => Handling(p, w, putOk)
      case _ => p
  }

  predicate Known(w: World, root: Root, r: Ref) {
    root in w.services && r in w.services[root].jobs && r in w.services[root].workers
  }

  function StepPast(h: Hashes, w: World, a: Action, root: Root, r: Ref, p: Past): Past
    requires Known(w, root, r)
  {
    if a.Work? && a.root == root && a.ref == r then
      WorkerPast(p, w.services[root].workers[r], WorkerStep(h, LocalOf(w, root, r), r, w.services[root].closed, a.act).worker, a.act)
    else if Overwrites(w, a, root, r) then p.(overwritten := true)
    else p
  }

  /** The past of a worker after a run. */
  function PastOf(h: Hashes, w: World, acts: seq<Action>, root: Root, r: Ref): Past {
    if acts == [] then UNBORN
    else
      var n := |acts| - 1;
      var v := Run(h, w, acts[..n]);
      if Known(v, root, r) then StepPast(h, v, acts[n], root, r, PastOf(h, w, acts[..n], root, r)) else UNBORN
  }

  // ---------- the row is what the past made it ----------

  predicate FromOutcome(last: Put) { last in {OutcomePut, ValidatingPut, DeliveryPut} || last.CollectorPut? }

  function StatusBy(last: Put, w: Worker): Status {
    match last
    case NoPut => IntentRecorded
    case RunningPut => Running
    case HandlerPut =>
      if Terminal(w) then (if w.outcome.value.status.Some? then w.outcome.value.status.value else Running)
      else if w.dispatched then ExecutionUnknown else Refused
    case _ => if w.outcome.Some? && w.outcome.value.Dict? && w.outcome.value.status.Some? then w.outcome.value.status.value else Running
  }

  function DeliveryBy(last: Put, w: Worker): Delivery {
    match last
    case ValidatingPut => Validating
    case DeliveryPut => if Terminal(w) && w.outcome.value.status == Some(Completed) && !w.outcome.value.leaderStopped
                        then HeldCleanupUnproven else NotProduced
    case CollectorPut(ok) => if ok then ValidatedByCollector else DeliveryFailed
    case HandlerPut => if Terminal(w) then DeliveryFailed else NotProduced
    case _ => NotProduced
  }

  /** Which put came last at which program point. */
  ghost predicate PutAt(p: Past, w: Worker) {
    && (w.pc in {Checking, Reserved} ==> p.last == NoPut)
    && (w.pc in {Prepared, Dispatched, Returned} ==> p.last == RunningPut)
    && (w.pc == Recorded ==> p.last == OutcomePut)
    && (w.pc == Collecting ==> p.last == ValidatingPut)
    && (FromOutcome(p.last) ==> w.outcome.Some? && AcceptableOutcome(w.outcome.value))
    && (p.last == ValidatingPut || p.last.CollectorPut? ==> Verified(w) && w.outcome.value.status == Some(Completed))
  }

  ghost predicate RowAsPut(p: Past, w: Worker, j: Job) {
    && j.status == (if p.overwritten then ExecutionUnknown else StatusBy(p.last, w))
    && j.delivery == DeliveryBy(p.last, w)
    && (if Terminal(w) && (FromOutcome(p.last) || p.last == HandlerPut)
        then j.nativeTerminal && j.leaderStopped == w.outcome.value.leaderStopped else !j.nativeTerminal)
  }

  ghost predicate Matches(p: Past, w: Worker, j: Job) { PutAt(p, w) && RowAsPut(p, w, j) }

  lemma RaisedMatches(s: Local, putOk: bool, p: Past)
    requires WorkerInv(s.worker, s.job) && Matches(p, s.worker, s.job) && Alive(s.worker) && s.worker.pc != Finishing
    ensures var t := Raised(s, putOk); Matches(Handling(p, s.worker, putOk), t.worker, t.job)
  {
  }

  lemma WorkerMatches(h: Hashes, s: Local, ref: Ref, closed: bool, a: WorkerAction, p: Past)
    requires WorkerInv(s.worker, s.job) && Matches(p, s.worker, s.job)
    ensures var t := WorkerStep(h, s, ref, closed, a); Matches(WorkerPast(p, s.worker, t.worker, a), t.worker, t.job)
  {
    var w, t := s.worker, WorkerStep(h, s, ref, closed, a);
    match a
    case Reserving(_, putOk) => if w.pc == Checking && t.worker.pc == Finishing { RaisedMatches(s, putOk, p); }
    case Recording(putOk) => if w.pc == Returned && t.worker.pc == Finishing { RaisedMatches(s, putOk, p); }
    case Raising(putOk) => if Alive(w) && w.pc != Finishing { RaisedMatches(s, putOk, p); }
    case _ =>
  }

  /** A job that a step brings in is a new one. */
  lemma AppearsNew(h: Hashes, w: World, a: Action, root: Root, r: Ref)
    requires Inv(h, w) && !Known(w, root, r) && Known(Step(h, w, a), root, r)
    ensures var s' := Step(h, w, a).services[root]; Matches(UNBORN, s'.workers[r], s'.jobs[r])
  {
    if a.Start? && a.root == root {
      assert ServiceInv(h, w.services[root]);
      assert Step(h, w, a).services[root] == StartStep(h, w.services[root], a.caseRef, a.key, a.specSha);
    } else {
      OnlyStartAdds(h, w, a, root, r);
    }
  }

  lemma OnlyStartAdds(h: Hashes, w: World, a: Action, root: Root, r: Ref)
    requires Known(Step(h, w, a), root, r) && !(a.Start? && a.root == root)
    ensures Known(w, root, r)
  {
  }

  /** A crash keeps the row and the past; the late write of `close` overwrites the status. */
  lemma OthersMatch(p: Past, w: Worker, j: Job, w': Worker, j': Job, overwrites: bool)
    requires Matches(p, w, j) && (w' == w || w' == w.(pc := Crashed))
    requires j' == if overwrites then j.(status := ExecutionUnknown) else j
    ensures Matches(if overwrites then p.(overwritten := true) else p, w', j')
  {
  }

  lemma StepMatches(h: Hashes, w: World, a: Action, root: Root, r: Ref, p: Past)
    requires Inv(h, w) && Known(w, root, r) && Matches(p, w.services[root].workers[r], w.services[root].jobs[r])
    ensures Known(Step(h, w, a), root, r)
    ensures var s' := Step(h, w, a).services[root]; Matches(StepPast(h, w, a, root, r, p), s'.workers[r], s'.jobs[r])
  {
    assert ServiceInv(h, w.services[root]);
    assert WorkerInv(w.services[root].workers[r], w.services[root].jobs[r]);
    StepMovesJob(h, w, a, root, r);
    if a.Work? && a.root == root && a.ref == r {
      WorkerMatches(h, LocalOf(w, root, r), r, w.services[root].closed, a.act, p);
    } else {
      var s' := Step(h, w, a).services[root];
      OthersMatch(p, w.services[root].workers[r], w.services[root].jobs[r], s'.workers[r], s'.jobs[r], Overwrites(w, a, root, r));
    }
  }

  /** In every run, a job row says exactly what the last put of its worker, or `close` after it, wrote. */
  lemma {:induction false} RowIsAsPut(h: Hashes, w: World, acts: seq<Action>, root: Root, r: Ref)
    requires Initial(w) && Known(Run(h, w, acts), root, r)
    ensures var s := Run(h, w, acts).services[root]; Matches(PastOf(h, w, acts, root, r), s.workers[r], s.jobs[r])
  {
    if acts != [] {
      var n := |acts| - 1;
      var v := Run(h, w, acts[..n]);
      Reachable(h, w, acts[..n]);
      if Known(v, root, r) {
        RowIsAsPut(h, w, acts[..n], root, r);
        StepMatches(h, v, acts[n], root, r, PastOf(h, w, acts[..n], root, r));
      } else {
        AppearsNew(h, v, acts[n], root, r);
      }
    }
  }

  // ---------- when a row is left settled ----------

  /**
   * A settled status was written last and not overwritten: by the handler, a refusal before dispatch
   * or a verified terminal with a settled status; or by the puts of a verified, accepted outcome
   * other than the one that opens validation.
   */
  predicate LeftSettled(p: Past, w: Worker) {
    && !p.overwritten
    && match p.last
       case HandlerPut => !w.dispatched || (Verified(w) && w.outcome.value.status in {Some(Completed), Some(Failed), Some(Cancelled), Some(Refused)})
       case NoPut => false
       case RunningPut => false
       case ValidatingPut => false
       case _ => Verified(w) && w.outcome.value.status in {Some(Completed), Some(Failed), Some(Cancelled)}
  }

  lemma SettledAsPut(p: Past, w: Worker, j: Job)
    requires WorkerInv(w, j) && Matches(p, w, j)
    ensures Settled(j) <==> LeftSettled(p, w)
  {
  }

  /**
   * Exactly when the latch and the job table disagree: in every run, a holder that is gone has a
   * settled job if and only if a settled status was its last put; and then its release was due, and
   * a crash or a failed release write kept it from happening.
   */
  lemma SplitExactly(h: Hashes, w: World, acts: seq<Action>, root: Root, r: Ref)
    requires Initial(w) && Known(Run(h, w, acts), root, r)
    requires var k := Run(h, w, acts).services[root].workers[r]; Holding(k) && !Alive(k)
    ensures var v := Run(h, w, acts);
            var k, j := v.services[root].workers[r], v.services[root].jobs[r];
            && DoomedAt(v, root, r, k.budget.path)
            && (Settled(j) <==> LeftSettled(PastOf(h, w, acts, root, r), k))
            && (Settled(j) ==> ReleaseDue(k) && (k.pc == Crashed || k.releaseFailed))
  {
    var v := Run(h, w, acts);
    Reachable(h, w, acts);
    assert ServiceInv(h, v.services[root]);
    assert WorkerInv(v.services[root].workers[r], v.services[root].jobs[r]);
    RowIsAsPut(h, w, acts, root, r);
    SettledAsPut(PastOf(h, w, acts, root, r), v.services[root].workers[r], v.services[root].jobs[r]);
  }
}
