/** What every interleaving of job services keeps, and what follows from it. */
module NativeSafety {
  import opened Prelude
  import opened BudgetLedger
  import opened NativeJobs

  // ---------- the invariant ----------

  /** How far a worker has come, what it holds, and what its job row says, agree. */
  ghost predicate WorkerInv(w: Worker, j: Job) {
    && (w.pc == Checking ==> !w.reserved)
    && (w.pc in {Reserved, Prepared, Dispatched, Returned, Recorded, Collecting} ==> Holding(w))
    && (w.pc in {Checking, Reserved, Prepared} ==> !w.dispatched)
    && (w.pc in {Dispatched, Returned, Recorded, Collecting} ==> w.dispatched)
    && (w.dispatched ==> w.reserved)
    && (!w.dispatched ==> w.outcome.None?)
    && (w.released ==> w.pc == Ended && ReleaseDue(w))
    && (w.releaseFailed ==> w.pc == Ended && !w.released)
    && (w.pc in {Prepared, Dispatched, Returned} ==> j.status in {Running, ExecutionUnknown})
    && (w.pc == Recorded ==> w.outcome.Some? && AcceptableOutcome(w.outcome.value))
    && (w.pc == Collecting ==> Verified(w))
    && (w.dispatched && !Verified(w) ==> !Settled(j))
    && (w.pc == Ended && Holding(w) && !w.releaseFailed ==> w.dispatched && !Verified(w))
    && ValidBudget(w.budget) && 1 <= w.cap <= 150
    && DeliveryInv(w, j)
  }

  /** A delivery status says what the provider returned. */
  ghost predicate DeliveryInv(w: Worker, j: Job) {
    && (j.delivery in {Validating, ValidatedByCollector} ==> Verified(w) && w.outcome.value.status == Some(Completed))
    && (j.delivery == HeldCleanupUnproven ==>
          w.outcome.Some? && w.outcome.value.Dict? && w.outcome.value.status == Some(Completed) && !w.outcome.value.leaderStopped)
    && (w.pc == Collecting ==> j.delivery == Validating)
    && (w.pc in {Checking, Reserved, Prepared, Dispatched, Returned, Recorded} ==> j.delivery == NotProduced)
  }

  /** A job that blocks or could come to block the next start. */
  ghost predicate Active(s: Service, r: Ref)
    requires r in s.jobs && r in s.workers
  {
    !Settled(s.jobs[r]) || Alive(s.workers[r]) || r in s.closing
  }

  ghost predicate TablesInv(h: Hashes, s: Service) {
    && s.jobs.Keys == s.workers.Keys
    && s.closing <= s.jobs.Keys
    && (s.closing != {} ==> s.closed)
    && ValidCases(s.cases)
    && (forall r :: r in s.jobs ==> h.refOf(s.jobs[r].key) == r)
  }

  ghost predicate WorkersInv(s: Service)
    requires s.jobs.Keys == s.workers.Keys
  {
    forall r :: r in s.jobs ==> WorkerInv(s.workers[r], s.jobs[r])
  }

  ghost predicate OneActive(s: Service)
    requires s.jobs.Keys == s.workers.Keys
  {
    forall r, q :: r in s.jobs && q in s.jobs && Active(s, r) && Active(s, q) ==> r == q
  }

  ghost predicate ServiceInv(h: Hashes, s: Service) {
    TablesInv(h, s) && WorkersInv(s) && OneActive(s)
  }

  /** Worker `r` of service `root` is between its reserve on ledger `p` and its release. */
  ghost predicate HeldBy(w: World, root: Root, r: Ref, p: Path) {
    && root in w.services && r in w.services[root].workers
    && Holding(w.services[root].workers[r]) && w.services[root].workers[r].budget.path == p
  }

  ghost predicate LedgerInv(w: World) {
    && (forall root, r, p :: HeldBy(w, root, r, p) ==> p in w.ledgers && w.ledgers[p].held == Some(r))
    && (forall root, r, root', r', p :: HeldBy(w, root, r, p) && HeldBy(w, root', r', p) ==> root == root' && r == r')
    && (forall p :: p in w.ledgers && w.ledgers[p].held.Some? ==>
          exists root :: HeldBy(w, root, w.ledgers[p].held.value, p))
  }

  ghost predicate Inv(h: Hashes, w: World) {
    && (forall root :: root in w.services ==> ServiceInv(h, w.services[root]))
    && LedgerInv(w)
  }

  // ---------- one worker step ----------

  lemma WorkerStepKeeps(h: Hashes, s: Local, ref: Ref, closed: bool, a: WorkerAction)
    requires WorkerInv(s.worker, s.job)
    ensures var t := WorkerStep(h, s, ref, closed, a);
            && WorkerInv(t.worker, t.job) && t.worker.budget == s.worker.budget
            && t.job.key == s.job.key && t.job.caseRef == s.job.caseRef && t.job.requestSha == s.job.requestSha
            && (s.worker.dispatched ==> t.worker.dispatched)
            && (t.worker.dispatched && !s.worker.dispatched ==> a == Dispatching)
    ensures !Alive(s.worker) ==> WorkerStep(h, s, ref, closed, a) == s
  {
  }

  /** The only ways a step touches the latch: it takes a free one, or gives back the one it holds. */
  ghost predicate LatchMove(s: Local, t: Local, ref: Ref) {
    || (t.row == s.row && Holding(t.worker) == Holding(s.worker))
    || (&& !Holding(s.worker) && Holding(t.worker)
        && (s.row.Some? ==> s.row.value.held == None) && t.row.Some? && t.row.value.held == Some(ref))
    || (Holding(s.worker) && !Holding(t.worker) && t.row == ReleaseRow(s.row, ref))
  }

  lemma WorkerStepLatch(h: Hashes, s: Local, ref: Ref, closed: bool, a: WorkerAction)
    requires WorkerInv(s.worker, s.job)
    ensures LatchMove(s, WorkerStep(h, s, ref, closed, a), ref)
  {
  }

  // ---------- one service step ----------

  /** The workers of two states of a service hold the same latches. */
  ghost predicate SameHolding(s: Service, s': Service) {
    && (forall r :: r in s.workers ==>
          r in s'.workers && Holding(s'.workers[r]) == Holding(s.workers[r]) && s'.workers[r].budget == s.workers[r].budget)
    && (forall r :: r in s'.workers && r !in s.workers ==> !Holding(s'.workers[r]))
  }

  function WithJob(s: Service, r: Ref, j: Job, k: Worker): Service {
    s.(jobs := s.jobs[r := j], workers := s.workers[r := k])
  }

  lemma TablesAdded(h: Hashes, s: Service, r: Ref, j: Job, k: Worker)
    requires TablesInv(h, s) && r !in s.jobs && h.refOf(j.key) == r && !Holding(k)
    ensures TablesInv(h, WithJob(s, r, j, k)) && SameHolding(s, WithJob(s, r, j, k))
  {
    assert WithJob(s, r, j, k).jobs.Keys == s.jobs.Keys + {r} == WithJob(s, r, j, k).workers.Keys;
  }

  lemma WorkersAdded(h: Hashes, s: Service, r: Ref, j: Job, k: Worker)
    requires s.jobs.Keys == s.workers.Keys && WorkersInv(s) && WorkerInv(k, j)
    ensures WithJob(s, r, j, k).jobs.Keys == WithJob(s, r, j, k).workers.Keys && WorkersInv(WithJob(s, r, j, k))
  {
  }

  lemma ActiveAdded(h: Hashes, s: Service, r: Ref, j: Job, k: Worker)
    requires TablesInv(h, s) && !s.closed && AllSettled(s) && !AnyAlive(s)
    ensures WithJob(s, r, j, k).jobs.Keys == WithJob(s, r, j, k).workers.Keys && OneActive(WithJob(s, r, j, k))
  {
    var s' := WithJob(s, r, j, k);
    forall q | q in s'.jobs && q != r ensures !Active(s', q) {
      assert s'.jobs[q] == s.jobs[q] && s'.workers[q] == s.workers[q];
    }
  }

  lemma JobAdded(h: Hashes, s: Service, r: Ref, j: Job, k: Worker)
    requires ServiceInv(h, s) && r !in s.jobs && !s.closed && AllSettled(s) && !AnyAlive(s)
    requires h.refOf(j.key) == r && WorkerInv(k, j) && !Holding(k)
    ensures ServiceInv(h, WithJob(s, r, j, k)) && SameHolding(s, WithJob(s, r, j, k))
  {
    TablesAdded(h, s, r, j, k);
    WorkersAdded(h, s, r, j, k);
    ActiveAdded(h, s, r, j, k);
  }

  lemma StartKeeps(h: Hashes, s: Service, caseRef: string, key: string, specSha: Digest)
    requires ServiceInv(h, s)
    ensures ServiceInv(h, StartStep(h, s, caseRef, key, specSha))
    ensures SameHolding(s, StartStep(h, s, caseRef, key, specSha))
  {
    if StartInserts(h, s, caseRef, key, specSha) {
      JobAdded(h, s, h.refOf(key), NewJob(h, caseRef, key, specSha), NewWorker(s.cases[caseRef]));
    }
  }

  /** A service differing in one job only, which was active before or is settled after, stays in order. */
  lemma OneJobChanged(s: Service, s': Service, r: Ref)
    requires s.jobs.Keys == s.workers.Keys == s'.jobs.Keys == s'.workers.Keys && r in s.jobs
    requires forall q :: q in s.jobs && q != r ==> s'.jobs[q] == s.jobs[q] && s'.workers[q] == s.workers[q]
    requires s'.closing <= s.closing + {r}
    requires OneActive(s) && WorkersInv(s) && Active(s, r) && WorkerInv(s'.workers[r], s'.jobs[r])
    ensures OneActive(s') && WorkersInv(s')
  {
    forall q | q in s'.jobs && q != r ensures !Active(s', q) {
      assert !Active(s, q);
    }
  }

  lemma WorkKeeps(h: Hashes, s: Service, r: Ref, row: Option<Row>, a: WorkerAction)
    requires ServiceInv(h, s) && r in s.jobs
    ensures var t := WorkerStep(h, Local(s.workers[r], s.jobs[r], row), r, s.closed, a);
            ServiceInv(h, WithJob(s, r, t.job, t.worker))
  {
    var l := Local(s.workers[r], s.jobs[r], row);
    var t := WorkerStep(h, l, r, s.closed, a);
    var s' := WithJob(s, r, t.job, t.worker);
    WorkerStepKeeps(h, l, r, s.closed, a);
    if Alive(l.worker) {
      TablesReplaced(h, s, r, t.job, t.worker);
      OneJobChanged(s, s', r);
    } else {
      assert s'.jobs == s.jobs && s'.workers == s.workers;
    }
  }

  lemma TablesReplaced(h: Hashes, s: Service, r: Ref, j: Job, k: Worker)
    requires TablesInv(h, s) && r in s.jobs && j.key == s.jobs[r].key
    ensures TablesInv(h, WithJob(s, r, j, k)) && WithJob(s, r, j, k).jobs.Keys == s.jobs.Keys
  {
    assert WithJob(s, r, j, k).jobs.Keys == s.jobs.Keys && WithJob(s, r, j, k).workers.Keys == s.workers.Keys;
  }

  lemma ObserveKeeps(h: Hashes, s: Service, r: Ref)
    requires ServiceInv(h, s)
    ensures ServiceInv(h, CloseObserve(s, r)) && SameHolding(s, CloseObserve(s, r))
  {
    if CloseObserve(s, r) != s {
      OneJobChanged(s, CloseObserve(s, r), r);
    }
  }

  lemma ClosePutKeeps(h: Hashes, s: Service, r: Ref, more: bool)
    requires ServiceInv(h, s)
    ensures ServiceInv(h, ClosePut(s, r, more)) && SameHolding(s, ClosePut(s, r, more))
  {
    if r in s.closing && r in s.jobs {
      OneJobChanged(s, ClosePut(s, r, more), r);
    }
  }

  lemma CrashKeeps(w: Worker, j: Job)
    requires WorkerInv(w, j)
    ensures Alive(w) ==> WorkerInv(w.(pc := Crashed), j)
  {
  }

  lemma ReopenedKeeps(h: Hashes, s: Service, cases: map<string, CaseSpec>)
    requires ServiceInv(h, s)
    ensures ServiceInv(h, Reopened(s, cases)) && SameHolding(s, Reopened(s, cases))
  {
    ReopenedTables(h, s, cases);
    ReopenedWorkers(s, cases);
    ReopenedActive(s, cases);
  }

  lemma ReopenedTables(h: Hashes, s: Service, cases: map<string, CaseSpec>)
    requires TablesInv(h, s)
    ensures TablesInv(h, Reopened(s, cases)) && SameHolding(s, Reopened(s, cases))
    ensures Reopened(s, cases).jobs == s.jobs && Reopened(s, cases).workers.Keys == s.workers.Keys
  {
    assert Reopened(s, cases).workers.Keys == s.workers.Keys;
  }

  lemma ReopenedWorkers(s: Service, cases: map<string, CaseSpec>)
    requires s.jobs.Keys == s.workers.Keys == Reopened(s, cases).workers.Keys && WorkersInv(s)
    ensures Reopened(s, cases).jobs == s.jobs && WorkersInv(Reopened(s, cases))
  {
    forall r | r in s.jobs ensures WorkerInv(Reopened(s, cases).workers[r], s.jobs[r]) {
      CrashKeeps(s.workers[r], s.jobs[r]);
    }
  }

  lemma ReopenedActive(s: Service, cases: map<string, CaseSpec>)
    requires s.jobs.Keys == s.workers.Keys == Reopened(s, cases).workers.Keys && OneActive(s)
    ensures OneActive(Reopened(s, cases))
  {
    forall r | r in s.jobs && Active(Reopened(s, cases), r) ensures Active(s, r) { }
  }

  // ---------- one step of the world ----------

  /** Replacing a service by one whose workers hold the same latches keeps the ledger invariant. */
  lemma SameHolds(w: World, root: Root, s': Service)
    requires LedgerInv(w) && root in w.services
    requires SameHolding(w.services[root], s')
    ensures LedgerInv(w.(services := w.services[root := s']))
  {
    var w' := w.(services := w.services[root := s']);
    forall root', r, p ensures HeldBy(w', root', r, p) <==> HeldBy(w, root', r, p) {
    }
    forall p | p in w'.ledgers && w'.ledgers[p].held.Some?
      ensures exists root' :: HeldBy(w', root', w'.ledgers[p].held.value, p)
    {
      var root' :| HeldBy(w, root', w.ledgers[p].held.value, p);
      assert HeldBy(w', root', w'.ledgers[p].held.value, p);
    }
  }

  lemma LatchMoveHolds(w: World, root: Root, r: Ref, t: Local)
    requires root in w.services && r in w.services[root].workers && r in w.services[root].jobs
    requires t.worker.budget == w.services[root].workers[r].budget
    ensures var w', p := WithLocal(w, root, r, t), t.worker.budget.path;
            && (HeldBy(w', root, r, p) <==> Holding(t.worker))
            && (forall root', r', q :: !(root' == root && r' == r && q == p) ==>
                  (HeldBy(w', root', r', q) <==> HeldBy(w, root', r', q)))
            && RowAt(w', p) == (if t.row.Some? then t.row else RowAt(w, p))
            && (forall q :: q != p ==> RowAt(w', q) == RowAt(w, q))
  {
  }

  lemma LatchMoveKeeps(w: World, root: Root, r: Ref, t: Local)
    requires LedgerInv(w) && root in w.services && r in w.services[root].workers && r in w.services[root].jobs
    requires t.worker.budget == w.services[root].workers[r].budget && LatchMove(LocalOf(w, root, r), t, r)
    ensures LedgerInv(WithLocal(w, root, r, t))
  {
    var w', p := WithLocal(w, root, r, t), t.worker.budget.path;
    LatchMoveHolds(w, root, r, t);
    assert HeldBy(w, root, r, p) <==> Holding(w.services[root].workers[r]);
    if t.row == LocalOf(w, root, r).row && Holding(t.worker) == HeldBy(w, root, r, p) {
      assert forall root', r', q :: HeldBy(w', root', r', q) <==> HeldBy(w, root', r', q);
    } else {
      // Nobody else holds this ledger before the step, hence nobody else after it.
      assert forall root', r' :: HeldBy(w, root', r', p) ==> root' == root && r' == r;
    }
    forall q | q in w'.ledgers && w'.ledgers[q].held.Some?
      ensures exists root' :: HeldBy(w', root', w'.ledgers[q].held.value, q)
    {
      assert RowAt(w', q) == Some(w'.ledgers[q]);
      if q == p && HeldBy(w', root, r, p) {
      } else {
        assert RowAt(w, q) == RowAt(w', q);
        var root' :| HeldBy(w, root', w.ledgers[q].held.value, q);
        assert HeldBy(w', root', w'.ledgers[q].held.value, q);
      }
    }
  }

  lemma WorkStepKeeps(h: Hashes, w: World, root: Root, r: Ref, a: WorkerAction)
    requires Inv(h, w) && root in w.services && r in w.services[root].jobs
    ensures Inv(h, Step(h, w, Work(root, r, a)))
  {
    assert ServiceInv(h, w.services[root]);
    var l := LocalOf(w, root, r);
    var t := WorkerStep(h, l, r, w.services[root].closed, a);
    WorkerStepKeeps(h, l, r, w.services[root].closed, a);
    WorkerStepLatch(h, l, r, w.services[root].closed, a);
    WorkKeeps(h, w.services[root], r, l.row, a);
    LatchMoveKeeps(w, root, r, t);
  }

  lemma ReplaceService(h: Hashes, w: World, root: Root, s': Service)
    requires Inv(h, w) && root in w.services && ServiceInv(h, s') && SameHolding(w.services[root], s')
    ensures Inv(h, w.(services := w.services[root := s']))
  {
    SameHolds(w, root, s');
  }

  lemma StepKeeps(h: Hashes, w: World, a: Action)
    requires Inv(h, w)
    ensures Inv(h, Step(h, w, a))
  {
    if a.root in w.services {
      var s := w.services[a.root];
      assert ServiceInv(h, s);
      match a {
        case Work(root, r, act) =>
          if r in s.jobs { WorkStepKeeps(h, w, root, r, act); }
        case Start(root, caseRef, key, specSha) =>
          StartKeeps(h, s, caseRef, key, specSha);
          ReplaceService(h, w, root, StartStep(h, s, caseRef, key, specSha));
        case CloseBegin(root) =>
          assert forall r :: r in s.jobs ==> Active(s.(closed := true), r) == Active(s, r);
          ReplaceService(h, w, root, s.(closed := true));
        case Observe(root, r) =>
          ObserveKeeps(h, s, r);
          ReplaceService(h, w, root, CloseObserve(s, r));
        case MarkUnknown(root, r, more) =>
          ClosePutKeeps(h, s, r, more);
          ReplaceService(h, w, root, ClosePut(s, r, more));
        case Restart(root, cases) =>
          ReopenedKeeps(h, s, cases);
          ReplaceService(h, w, root, Reopened(s, cases));
      }
    }
  }

  /** The invariant holds in every reachable state. */
  lemma {:induction false} RunKeeps(h: Hashes, w: World, acts: seq<Action>)
    requires Inv(h, w)
    ensures Inv(h, Run(h, w, acts))
  {
    if acts != [] {
      RunKeeps(h, w, acts[..|acts| - 1]);
      StepKeeps(h, Run(h, w, acts[..|acts| - 1]), acts[|acts| - 1]);
    }
  }

  // ---------- a step as one job sees it ----------

  /** Whether a step is the late write of `close` to a job. */
  predicate Overwrites(w: World, a: Action, root: Root, r: Ref) {
    a.MarkUnknown? && a.root == root && a.ref == r && root in w.services && r in w.services[root].closing && r in w.services[root].jobs
  }

  /** All that a step can do to one job and its worker. */
  ghost predicate JobMove(h: Hashes, w: World, w': World, a: Action, root: Root, r: Ref)
    requires root in w.services && r in w.services[root].jobs && r in w.services[root].workers
  {
    && root in w'.services && r in w'.services[root].jobs && r in w'.services[root].workers
    && var s, s' := w.services[root], w'.services[root];
       if a.Work? && a.root == root && a.ref == r then
         var t := WorkerStep(h, LocalOf(w, root, r), r, s.closed, a.act);
         s'.workers[r] == t.worker && s'.jobs[r] == t.job
       else
         && (s'.workers[r] == s.workers[r] || (Alive(s.workers[r]) && s'.workers[r] == s.workers[r].(pc := Crashed)))
         && s'.jobs[r] == if Overwrites(w, a, root, r) then s.jobs[r].(status := ExecutionUnknown) else s.jobs[r]
  }

  lemma StepMovesJob(h: Hashes, w: World, a: Action, root: Root, r: Ref)
    requires root in w.services && r in w.services[root].jobs && r in w.services[root].workers
    ensures JobMove(h, w, Step(h, w, a), a, root, r)
  {
    if a.root == root {
      var s := w.services[root];
      match a {
        case Work(_, q, act) =>
          if q in s.workers && q in s.jobs {
            var t := WorkerStep(h, LocalOf(w, root, q), q, s.closed, act);
            assert Step(h, w, a) == WithLocal(w, root, q, t);
          }
        case Start(_, caseRef, key, specSha) =>
          assert Step(h, w, a).services[root] == StartStep(h, s, caseRef, key, specSha);
        case CloseBegin(_) =>
        case Observe(_, q) => assert Step(h, w, a).services[root] == CloseObserve(s, q);
        case MarkUnknown(_, q, more) => assert Step(h, w, a).services[root] == ClosePut(s, q, more);
        case Restart(_, cases) => assert Step(h, w, a).services[root] == Reopened(s, cases);
      }
    }
  }
}
