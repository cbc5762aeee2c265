/** The promises of the job service, for every run of any number of services. */
module NativeTheorems {
  import opened Prelude
  import opened BudgetLedger
  import opened NativeJobs
  import opened NativeSafety

  lemma InitialInv(h: Hashes, w: World)
    requires Initial(w)
    ensures Inv(h, w)
  {
    forall root | root in w.services ensures ServiceInv(h, w.services[root]) {
    }
  }

  lemma Reachable(h: Hashes, w: World, acts: seq<Action>)
    requires Initial(w)
    ensures Inv(h, Run(h, w, acts))
  {
    InitialInv(h, w);
    RunKeeps(h, w, acts);
  }

  // ---------- the latch ----------

  /**
   * In every reachable state at most one worker, over all services, is between its reserve and
   * its release on a ledger, and the ledger is held exactly when there is such a worker.
   */
  lemma MutualExclusion(h: Hashes, w: World, acts: seq<Action>, p: Path)
    requires Initial(w)
    ensures var v := Run(h, w, acts);
            && (forall root, r, root', r' :: HeldBy(v, root, r, p) && HeldBy(v, root', r', p) ==> root == root' && r == r')
            && ((p in v.ledgers && v.ledgers[p].held.Some?) <==> exists root, r :: HeldBy(v, root, r, p))
  {
    Reachable(h, w, acts);
  }

  /** Whether a step ends worker `r`'s hold by the one means there is. */
  ghost predicate OwnRelease(w: World, root: Root, r: Ref, a: Action)
    requires root in w.services && r in w.services[root].workers
  {
    a == Work(root, r, Releasing(true)) && w.services[root].workers[r].pc == Finishing
    && ReleaseDue(w.services[root].workers[r])
  }

  lemma HolderStep(h: Hashes, s: Local, ref: Ref, closed: bool, a: WorkerAction)
    requires WorkerInv(s.worker, s.job) && Holding(s.worker)
    ensures var t := WorkerStep(h, s, ref, closed, a);
            && t.worker.budget == s.worker.budget
            && (Holding(t.worker) || (a == Releasing(true) && s.worker.pc == Finishing && ReleaseDue(s.worker)))
  {
  }

  lemma HoldEndsByOwnRelease(h: Hashes, w: World, a: Action, root: Root, r: Ref, p: Path)
    requires Inv(h, w) && HeldBy(w, root, r, p)
    ensures HeldBy(Step(h, w, a), root, r, p) || OwnRelease(w, root, r, a)
  {
    assert ServiceInv(h, w.services[root]);
    assert WorkerInv(w.services[root].workers[r], w.services[root].jobs[r]);
    StepMovesJob(h, w, a, root, r);
    if a.Work? && a.root == root && a.ref == r {
      HolderStep(h, LocalOf(w, root, r), r, w.services[root].closed, a.act);
    }
  }

  /**
   * Whatever step is taken, by whichever worker, even one with the same ref in another service,
   * a held latch stays as it is unless the holder itself releases, and then only when due.
   */
  lemma OnlyHolderReleases(h: Hashes, w: World, acts: seq<Action>, a: Action, root: Root, r: Ref, p: Path)
    requires Initial(w)
    requires HeldBy(Run(h, w, acts), root, r, p)
    ensures var v := Run(h, w, acts);
            var v' := Step(h, v, a);
            || (p in v'.ledgers && v'.ledgers[p].held == Some(r) && HeldBy(v', root, r, p))
            || OwnRelease(v, root, r, a)
  {
    Reachable(h, w, acts);
    StepKeeps(h, Run(h, w, acts), a);
    HoldEndsByOwnRelease(h, Run(h, w, acts), a, root, r, p);
  }

  /** A holder that can no longer release: gone, or dispatched with no verified terminal to come. */
  ghost predicate Doomed(w: Worker) {
    && Holding(w)
    && (!Alive(w) || (w.dispatched && !Verified(w) && w.pc in {Returned, Recorded, Finishing}))
  }

  ghost predicate DoomedAt(w: World, root: Root, r: Ref, p: Path) {
    HeldBy(w, root, r, p) && Doomed(w.services[root].workers[r])
  }

  lemma DoomedWorker(h: Hashes, s: Local, ref: Ref, closed: bool, a: WorkerAction)
    requires WorkerInv(s.worker, s.job) && Doomed(s.worker)
    ensures Doomed(WorkerStep(h, s, ref, closed, a).worker)
  {
  }

  lemma DoomedStays(h: Hashes, w: World, a: Action, root: Root, r: Ref, p: Path)
    requires Inv(h, w) && DoomedAt(w, root, r, p)
    ensures DoomedAt(Step(h, w, a), root, r, p)
  {
    assert ServiceInv(h, w.services[root]);
    assert WorkerInv(w.services[root].workers[r], w.services[root].jobs[r]);
    StepMovesJob(h, w, a, root, r);
    if a.Work? && a.root == root && a.ref == r {
      HolderStep(h, LocalOf(w, root, r), r, w.services[root].closed, a.act);
      DoomedWorker(h, LocalOf(w, root, r), r, w.services[root].closed, a.act);
    }
  }

  /**
   * Once a run is dispatched and is over without a verified terminal and stopped leader, or its
   * holder has ended or crashed, the ledger refuses every later reserve, of anyone, forever.
   */
  lemma {:induction false} UnverifiedRunLatchesForever(
    h: Hashes, w: World, before: seq<Action>, after: seq<Action>, root: Root, r: Ref, p: Path)
    requires Initial(w)
    requires DoomedAt(Run(h, w, before), root, r, p)
    ensures var v := Run(h, Run(h, w, before), after);
            && Inv(h, v) && DoomedAt(v, root, r, p)
            && RowAt(v, p).Some? && RowAt(v, p).value.held == Some(r)
            && (forall b, cap, ref, now :: ReserveRow(h.bind, RowAt(v, p), b, cap, ref, now).Err?)
  {
    var u := Run(h, w, before);
    if after == [] {
      Reachable(h, w, before);
    } else {
      UnverifiedRunLatchesForever(h, w, before, after[..|after| - 1], root, r, p);
      var v := Run(h, u, after[..|after| - 1]);
      StepKeeps(h, v, after[|after| - 1]);
      DoomedStays(h, v, after[|after| - 1], root, r, p);
    }
  }

  // ---------- the latch and the job table ----------

  /** A holder whose run is over and whose release is not due: it was dispatched and never verified. */
  ghost predicate NeverDue(w: World, root: Root, r: Ref) {
    && root in w.services && r in w.services[root].workers && r in w.services[root].jobs
    && Doomed(w.services[root].workers[r]) && !ReleaseDue(w.services[root].workers[r])
  }

  /** A worker that ended without a crash and without a failed release write holds only what is never due. */
  lemma EndedHolderIsNeverDue(h: Hashes, w: World, root: Root, r: Ref)
    requires Inv(h, w) && root in w.services && r in w.services[root].jobs && r in w.services[root].workers
    requires var k := w.services[root].workers[r]; k.pc == Ended && Holding(k) && !k.releaseFailed
    ensures NeverDue(w, root, r)
  {
    assert ServiceInv(h, w.services[root]);
    assert WorkerInv(w.services[root].workers[r], w.services[root].jobs[r]);
  }

  lemma NeverDueWorker(h: Hashes, s: Local, ref: Ref, closed: bool, a: WorkerAction)
    requires WorkerInv(s.worker, s.job) && Doomed(s.worker) && !ReleaseDue(s.worker)
    ensures !ReleaseDue(WorkerStep(h, s, ref, closed, a).worker)
  {
  }

  lemma NeverDueStays(h: Hashes, w: World, a: Action, root: Root, r: Ref)
    requires Inv(h, w) && NeverDue(w, root, r)
    ensures NeverDue(Step(h, w, a), root, r)
  {
    assert ServiceInv(h, w.services[root]);
    assert WorkerInv(w.services[root].workers[r], w.services[root].jobs[r]);
    StepMovesJob(h, w, a, root, r);
    if a.Work? && a.root == root && a.ref == r {
      DoomedWorker(h, LocalOf(w, root, r), r, w.services[root].closed, a.act);
      NeverDueWorker(h, LocalOf(w, root, r), r, w.services[root].closed, a.act);
    }
  }

  lemma NeverDueBlocks(h: Hashes, w: World, root: Root, r: Ref)
    requires Inv(h, w) && NeverDue(w, root, r)
    ensures !Settled(w.services[root].jobs[r])
    ensures forall caseRef, key, specSha :: !StartInserts(h, w.services[root], caseRef, key, specSha)
  {
    var s := w.services[root];
    assert ServiceInv(h, s);
    assert WorkerInv(s.workers[r], s.jobs[r]);
    assert !AllSettled(s);
  }

  /**
   * The latch and the job table agree: whoever holds a latch that never comes due, crashed or not,
   * has an unsettled job, then and after any further steps and restarts, so its service accepts no
   * new key.
   */
  lemma {:induction false} LatchAndTableAgree(
    h: Hashes, w: World, before: seq<Action>, after: seq<Action>, root: Root, r: Ref)
    requires Initial(w) && NeverDue(Run(h, w, before), root, r)
    ensures var v := Run(h, Run(h, w, before), after);
            && Inv(h, v) && NeverDue(v, root, r)
            && !Settled(v.services[root].jobs[r])
            && (forall caseRef, key, specSha :: !StartInserts(h, v.services[root], caseRef, key, specSha))
  {
    var u := Run(h, w, before);
    if after == [] {
      Reachable(h, w, before);
    } else {
      LatchAndTableAgree(h, w, before, after[..|after| - 1], root, r);
      var v := Run(h, u, after[..|after| - 1]);
      StepKeeps(h, v, after[|after| - 1]);
      NeverDueStays(h, v, after[|after| - 1], root, r);
    }
    NeverDueBlocks(h, Run(h, u, after), root, r);
  }

  // ---------- deliveries ----------

  /**
   * In every run, only the output of a completed run with a verified terminal and a stopped leader
   * is ever handed to the collector, and a completed run held back lacks the stopped leader.
   */
  lemma OnlyVerifiedOutputIsCollected(h: Hashes, w: World, acts: seq<Action>, root: Root, r: Ref)
    requires Initial(w) && root in Run(h, w, acts).services && r in Run(h, w, acts).services[root].jobs
    ensures var s := Run(h, w, acts).services[root];
            && r in s.workers
            && (s.jobs[r].delivery in {Validating, ValidatedByCollector} ==>
                  Verified(s.workers[r]) && s.workers[r].outcome.value.status == Some(Completed))
            && (s.jobs[r].delivery == HeldCleanupUnproven ==>
                  s.workers[r].outcome.Some? && s.workers[r].outcome.value.Dict?
                  && s.workers[r].outcome.value.status == Some(Completed) && !s.workers[r].outcome.value.leaderStopped)
  {
    Reachable(h, w, acts);
    var s := Run(h, w, acts).services[root];
    assert ServiceInv(h, s);
    assert WorkerInv(s.workers[r], s.jobs[r]);
  }

  // ---------- the budget ----------

  datatype Allocation = Allocation(seconds: int, cap: int, at: real)

  /** The reservations a run makes on one ledger, in order. */
  function Grants(h: Hashes, w: World, acts: seq<Action>, p: Path): seq<Allocation> {
    if acts == [] then []
    else
      var before := acts[..|acts| - 1];
      Grants(h, w, before, p) + GrantOf(h, Run(h, w, before), acts[|acts| - 1], p)
  }

  /** The reservation one step makes on a ledger, if it makes one. */
  function GrantOf(h: Hashes, w: World, a: Action, p: Path): seq<Allocation> {
    if !(a.Work? && a.act.Reserving? && a.root in w.services) then []
    else
      var s := w.services[a.root];
      if a.ref !in s.workers || a.ref !in s.jobs || s.closed then []
      else
        var k := s.workers[a.ref];
        if k.pc != Checking || k.budget.path != p then []
        else
          match ReserveRow(h.bind, RowAt(w, p), k.budget, k.cap, a.ref, a.act.now)
          case Ok(g) => [Allocation(g.allocation, k.cap, a.act.now)]
          case Err(_) => []
  }

  /** The seconds of a list of reservations together. */
  function Seconds(gs: seq<Allocation>): int {
    if gs == [] then 0 else Seconds(gs[..|gs| - 1]) + gs[|gs| - 1].seconds
  }

  function Least(a: int, b: int): int { if a <= b then a else b }

  /**
   * A reservation of a budget after some earlier ones: made before the budget expires, for the whole
   * cap of its case or for all the seconds left, whichever is less, and for at least one second.
   */
  ghost predicate Granted(b: Budget, earlier: seq<Allocation>, g: Allocation) {
    && g.at < b.expiresAt && 1 <= g.cap <= 150 && 1 <= g.seconds
    && g.seconds == Least(g.cap, b.maxSeconds - b.secondsBefore - Seconds(earlier))
  }

  ghost predicate AllGranted(b: Budget, gs: seq<Allocation>) {
    gs == [] || (AllGranted(b, gs[..|gs| - 1]) && Granted(b, gs[..|gs| - 1], gs[|gs| - 1]))
  }

  /** A ledger's counters say exactly what a list of reservations used of a budget. */
  ghost predicate Accounts(b: Budget, row: Row, gs: seq<Allocation>) {
    && row.calls == b.callsBefore + |gs| <= b.maxCalls
    && row.seconds == b.secondsBefore + Seconds(gs) <= b.maxSeconds
    && AllGranted(b, gs)
  }

  lemma AccountsGrows(h: Hashes, b: Budget, row: Option<Row>, gs: seq<Allocation>, cap: int, ref: Ref, now: real)
    requires ValidBudget(b) && 1 <= cap <= 150
    requires row.None? ==> gs == []
    requires row.Some? ==> Accounts(b, row.value, gs)
    ensures match ReserveRow(h.bind, row, b, cap, ref, now)
            case Ok(g) => g.row.binding == h.bind(b) && Accounts(b, g.row, gs + [Allocation(g.allocation, cap, now)])
            case Err(_) => true
  {
    match ReserveRow(h.bind, row, b, cap, ref, now)
    case Err(_) =>
    case Ok(g) =>
      var last := Allocation(g.allocation, cap, now);
      assert AllGranted(b, gs);
      assert Granted(b, gs, last);
      GrantedLast(b, gs, last);
  }

  lemma GrantedLast(b: Budget, gs: seq<Allocation>, g: Allocation)
    ensures Seconds(gs + [g]) == Seconds(gs) + g.seconds
    ensures AllGranted(b, gs + [g]) <==> AllGranted(b, gs) && Granted(b, gs, g)
  {
    assert (gs + [g])[..|gs|] == gs;
  }

  /** Rows that differ at most in their latch. */
  predicate SameCounts(row: Option<Row>, row': Option<Row>) {
    if row.None? then row'.None? else row'.Some? && row'.value.(held := None) == row.value.(held := None)
  }

  /** A worker step changes a ledger's counters and binding only by a successful reserve. */
  lemma WorkerStepRow(h: Hashes, s: Local, ref: Ref, closed: bool, a: WorkerAction)
    ensures var t := WorkerStep(h, s, ref, closed, a);
            if a.Reserving? && s.worker.pc == Checking && !closed
               && ReserveRow(h.bind, s.row, s.worker.budget, s.worker.cap, ref, a.now).Ok?
            then t.row == Some(ReserveRow(h.bind, s.row, s.worker.budget, s.worker.cap, ref, a.now).value.row)
            else SameCounts(s.row, t.row)
    ensures WorkerStep(h, s, ref, closed, a).worker.budget == s.worker.budget
  {
  }

  lemma StepRow(h: Hashes, w: World, a: Action, p: Path)
    requires Inv(h, w)
    ensures var w' := Step(h, w, a);
            if GrantOf(h, w, a, p) == [] then SameCounts(RowAt(w, p), RowAt(w', p))
            else
              var k := w.services[a.root].workers[a.ref];
              var g := ReserveRow(h.bind, RowAt(w, p), k.budget, k.cap, a.ref, a.act.now);
              && g.Ok? && GrantOf(h, w, a, p) == [Allocation(g.value.allocation, k.cap, a.act.now)]
              && RowAt(w', p) == Some(g.value.row) && ValidBudget(k.budget) && 1 <= k.cap <= 150
  {
    if a.root in w.services && a.Work? {
      var s := w.services[a.root];
      assert ServiceInv(h, s);
      if a.ref in s.jobs {
        assert WorkerInv(s.workers[a.ref], s.jobs[a.ref]);
        var l := LocalOf(w, a.root, a.ref);
        var t := WorkerStep(h, l, a.ref, s.closed, a.act);
        WorkerStepRow(h, l, a.ref, s.closed, a.act);
        assert Step(h, w, a) == WithLocal(w, a.root, a.ref, t);
      }
    } else {
      assert Step(h, w, a).ledgers == w.ledgers;
    }
  }

  /** An unwritten ledger granted nothing; one bound to the budget accounts for every reservation. */
  ghost predicate Balanced(h: Hashes, w: World, p: Path, b: Budget, gs: seq<Allocation>) {
    && (RowAt(w, p).None? ==> gs == [])
    && (RowAt(w, p).Some? && RowAt(w, p).value.binding == h.bind(b) ==> Accounts(b, RowAt(w, p).value, gs))
  }

  /** Some worker's budget differs from `b` and has its digest. */
  ghost predicate Twin(h: Hashes, w: World, b: Budget) {
    exists root, r :: root in w.services && r in w.services[root].workers && IsTwin(h, w.services[root].workers[r].budget, b)
  }

  predicate IsTwin(h: Hashes, c: Budget, b: Budget) { c != b && h.bind(c) == h.bind(b) }

  /** Workers and their budgets stay, so a twin, once there, stays. */
  lemma TwinStays(h: Hashes, w: World, a: Action, b: Budget)
    requires Inv(h, w) && Twin(h, w, b)
    ensures Twin(h, Step(h, w, a), b)
  {
    var root, r :| root in w.services && r in w.services[root].workers && IsTwin(h, w.services[root].workers[r].budget, b);
    BudgetStays(h, w, a, root, r);
    var w' := Step(h, w, a);
    assert IsTwin(h, w'.services[root].workers[r].budget, b);
  }

  lemma BudgetStep(h: Hashes, w: World, a: Action, p: Path, b: Budget, gs: seq<Allocation>)
    requires Inv(h, w) && !Twin(h, w, b) && ValidBudget(b) && Balanced(h, w, p, b, gs)
    ensures Balanced(h, Step(h, w, a), p, b, gs + GrantOf(h, w, a, p))
  {
    StepRow(h, w, a, p);
    if GrantOf(h, w, a, p) != [] {
      var k := w.services[a.root].workers[a.ref];
      assert !IsTwin(h, k.budget, b);
      if k.budget == b { AccountsGrows(h, b, RowAt(w, p), gs, k.cap, a.ref, a.act.now); }
    } else {
      assert gs + [] == gs;
    }
  }

  /**
   * In every run the ledger's calls are the calls reserved before plus the number of successful
   * reserves, its seconds the seconds reserved before plus the sum of the allocations, both within
   * the bound budget's limits; nothing refunds, and each allocation is the cap or all that is left.
   * The budget is the one whose digest the row carries, unless another budget in use collides with it.
   */
  lemma {:induction false} BudgetConserved(h: Hashes, w: World, acts: seq<Action>, p: Path, b: Budget)
    requires Initial(w) && ValidBudget(b)
    ensures Balanced(h, Run(h, w, acts), p, b, Grants(h, w, acts, p)) || Twin(h, Run(h, w, acts), b)
  {
    if acts != [] {
      var n := |acts| - 1;
      BudgetConserved(h, w, acts[..n], p, b);
      Reachable(h, w, acts[..n]);
      if Twin(h, Run(h, w, acts[..n]), b) { TwinStays(h, Run(h, w, acts[..n]), acts[n], b); }
      else { BudgetStep(h, Run(h, w, acts[..n]), acts[n], p, b, Grants(h, w, acts[..n], p)); }
    }
  }

  /** The row of a ledger carries the digest of some worker's budget, which is a valid one for that ledger. */
  ghost predicate Charged(h: Hashes, w: World, p: Path) {
    RowAt(w, p).Some? ==> exists root, r :: ChargedBy(h, w, p, root, r)
  }

  ghost predicate ChargedBy(h: Hashes, w: World, p: Path, root: Root, r: Ref) {
    && root in w.services && r in w.services[root].workers && RowAt(w, p).Some?
    && var b := w.services[root].workers[r].budget;
       ValidBudget(b) && b.path == p && h.bind(b) == RowAt(w, p).value.binding
  }

  lemma BudgetStays(h: Hashes, w: World, a: Action, root: Root, r: Ref)
    requires Inv(h, w) && root in w.services && r in w.services[root].workers
    ensures var w' := Step(h, w, a);
            root in w'.services && r in w'.services[root].workers
            && w'.services[root].workers[r].budget == w.services[root].workers[r].budget
  {
    assert ServiceInv(h, w.services[root]);
    StepMovesJob(h, w, a, root, r);
    if a.Work? && a.root == root && a.ref == r {
      WorkerStepKeeps(h, LocalOf(w, root, r), r, w.services[root].closed, a.act);
    }
  }

  lemma ChargedStep(h: Hashes, w: World, a: Action, p: Path)
    requires Inv(h, w) && Charged(h, w, p)
    ensures Charged(h, Step(h, w, a), p)
  {
    StepRow(h, w, a, p);
    if GrantOf(h, w, a, p) != [] {
      BudgetStays(h, w, a, a.root, a.ref);
      assert ChargedBy(h, Step(h, w, a), p, a.root, a.ref);
    } else if RowAt(w, p).Some? {
      var root, r :| ChargedBy(h, w, p, root, r);
      BudgetStays(h, w, a, root, r);
      assert ChargedBy(h, Step(h, w, a), p, root, r);
    }
  }

  lemma {:induction false} ChargedRun(h: Hashes, w: World, acts: seq<Action>, p: Path)
    requires Initial(w)
    ensures Charged(h, Run(h, w, acts), p)
  {
    if acts != [] {
      ChargedRun(h, w, acts[..|acts| - 1], p);
      Reachable(h, w, acts[..|acts| - 1]);
      ChargedStep(h, Run(h, w, acts[..|acts| - 1]), acts[|acts| - 1], p);
    }
  }

  /**
   * In every run, every ledger written is bound to the valid budget of some worker on it, and accounts
   * for every reservation made on it under that budget, unless another budget in use collides.
   */
  lemma EveryLedgerAccounted(h: Hashes, w: World, acts: seq<Action>, p: Path)
    requires Initial(w) && p in Run(h, w, acts).ledgers
    ensures var v := Run(h, w, acts);
            exists root, r :: && ChargedBy(h, v, p, root, r)
                              && var b := v.services[root].workers[r].budget;
                                 Accounts(b, v.ledgers[p], Grants(h, w, acts, p)) || Twin(h, v, b)
  {
    var v := Run(h, w, acts);
    ChargedRun(h, w, acts, p);
    var root, r :| ChargedBy(h, v, p, root, r);
    BudgetConserved(h, w, acts, p, v.services[root].workers[r].budget);
  }

  // ---------- idempotent start ----------

  /** How often a run hands job `r` of a service to its provider. */
  function ProviderRuns(h: Hashes, w: World, acts: seq<Action>, root: Root, r: Ref): nat {
    if acts == [] then 0
    else
      var v := Run(h, w, acts[..|acts| - 1]);
      ProviderRuns(h, w, acts[..|acts| - 1], root, r)
      + if acts[|acts| - 1] == Work(root, r, Dispatching) && IsDispatched(Step(h, v, acts[|acts| - 1]), root, r)
           && !IsDispatched(v, root, r) then 1 else 0
  }

  predicate IsDispatched(w: World, root: Root, r: Ref) {
    root in w.services && r in w.services[root].workers && w.services[root].workers[r].dispatched
  }

  /** Rows are never dropped, rekeyed or rebound, and a dispatch is never undone. */
  lemma RowStays(h: Hashes, w: World, a: Action, root: Root, r: Ref)
    requires Inv(h, w) && root in w.services && r in w.services[root].jobs
    ensures var w' := Step(h, w, a);
            && root in w'.services && r in w'.services[root].jobs
            && w'.services[root].jobs[r].key == w.services[root].jobs[r].key
            && w'.services[root].jobs[r].caseRef == w.services[root].jobs[r].caseRef
            && w'.services[root].jobs[r].requestSha == w.services[root].jobs[r].requestSha
            && (IsDispatched(w, root, r) ==> IsDispatched(w', root, r))
  {
    assert ServiceInv(h, w.services[root]);
    StepMovesJob(h, w, a, root, r);
    if a.Work? && a.root == root && a.ref == r {
      WorkerStepKeeps(h, LocalOf(w, root, r), r, w.services[root].closed, a.act);
    }
  }

  lemma DispatchedOnlyByDispatching(h: Hashes, w: World, a: Action, root: Root, r: Ref)
    requires Inv(h, w) && !IsDispatched(w, root, r) && IsDispatched(Step(h, w, a), root, r)
    ensures a == Work(root, r, Dispatching)
  {
    assert root in w.services;
    var s := w.services[root];
    assert ServiceInv(h, s);
    if r in s.jobs {
      StepMovesJob(h, w, a, root, r);
      if a.Work? && a.root == root && a.ref == r {
        WorkerStepKeeps(h, LocalOf(w, root, r), r, s.closed, a.act);
      }
    }
  }

  /** A job is handed to its provider at most once, over any steps, closes, crashes and restarts. */
  lemma {:induction false} AtMostOneProviderRun(h: Hashes, w: World, acts: seq<Action>, root: Root, r: Ref)
    requires Initial(w)
    ensures ProviderRuns(h, w, acts, root, r) == if IsDispatched(Run(h, w, acts), root, r) then 1 else 0
  {
    if acts != [] {
      var n := |acts| - 1;
      AtMostOneProviderRun(h, w, acts[..n], root, r);
      Reachable(h, w, acts[..n]);
      var v := Run(h, w, acts[..n]);
      if IsDispatched(v, root, r) {
        assert ServiceInv(h, v.services[root]);
        RowStays(h, v, acts[n], root, r);
      } else if IsDispatched(Step(h, v, acts[n]), root, r) {
        DispatchedOnlyByDispatching(h, v, acts[n], root, r);
      }
    }
  }

  /** In every reachable state each key has at most one row, and at most one job is unsettled. */
  lemma OneRowPerKeyOneUnsettled(h: Hashes, w: World, acts: seq<Action>, root: Root)
    requires Initial(w) && root in Run(h, w, acts).services
    ensures var jobs := Run(h, w, acts).services[root].jobs;
            && (forall r, q :: r in jobs && q in jobs && jobs[r].key == jobs[q].key ==> r == q)
            && (forall r, q :: r in jobs && q in jobs && !Settled(jobs[r]) && !Settled(jobs[q]) ==> r == q)
  {
    Reachable(h, w, acts);
    var s := Run(h, w, acts).services[root];
    assert ServiceInv(h, s);
    forall r, q | r in s.jobs && q in s.jobs && !Settled(s.jobs[r]) && !Settled(s.jobs[q]) ensures r == q {
      assert Active(s, r) && Active(s, q);
    }
  }

  /** The row of `key` with the payload it was first accepted with. */
  ghost predicate Bound(h: Hashes, w: World, root: Root, key: string, requestSha: Digest) {
    root in w.services && Stored(h, w.services[root], key)
    && w.services[root].jobs[h.refOf(key)].requestSha == requestSha
  }

  lemma {:induction false} BoundStays(h: Hashes, w: World, acts: seq<Action>, root: Root, key: string, requestSha: Digest)
    requires Inv(h, w) && Bound(h, w, root, key, requestSha)
    ensures Bound(h, Run(h, w, acts), root, key, requestSha)
  {
    if acts != [] {
      var n := |acts| - 1;
      BoundStays(h, w, acts[..n], root, key, requestSha);
      RunKeeps(h, w, acts[..n]);
      RowStays(h, Run(h, w, acts[..n]), acts[n], root, h.refOf(key));
    }
  }

  /**
   * After a key is accepted, then after anything else happens, the same start is a replay: it
   * answers with the stored row and changes nothing; any payload with another digest is refused.
   */
  lemma StartIsIdempotent(
    h: Hashes, w: World, before: seq<Action>, after: seq<Action>,
    root: Root, caseRef: string, key: string, specSha: Digest)
    requires Initial(w) && root in Run(h, w, before).services
    requires StartInserts(h, Run(h, w, before).services[root], caseRef, key, specSha)
    ensures var u := Step(h, Run(h, w, before), Start(root, caseRef, key, specSha));
            var v := Run(h, u, after);
            && Bound(h, v, root, key, h.request(caseRef, key, specSha))
            && (forall c, d :: c in v.services[root].cases && v.services[root].cases[c].specSha == d && !v.services[root].closed ==>
                  && StartStep(h, v.services[root], c, key, d) == v.services[root]
                  && StartAnswer(h, v.services[root], c, key, d) ==
                       if h.request(c, key, d) == h.request(caseRef, key, specSha)
                       then Ok(v.services[root].jobs[h.refOf(key)]) else Err(PayloadDiffers))
  {
    var v0 := Run(h, w, before);
    var u := Step(h, v0, Start(root, caseRef, key, specSha));
    Reachable(h, w, before);
    StepKeeps(h, v0, Start(root, caseRef, key, specSha));
    assert u.services[root].jobs[h.refOf(key)] == NewJob(h, caseRef, key, specSha);
    BoundStays(h, u, after, root, key, h.request(caseRef, key, specSha));
  }

  /** One service on root "root" with one job. */
  function Lone(cases: map<string, CaseSpec>, r: Ref, j: Job, k: Worker, ledgers: map<Path, Row>): World {
    World(map["root" := Service(cases, map[r := j], map[r := k], false, {})], ledgers)
  }

  lemma LoneWork(h: Hashes, cases: map<string, CaseSpec>, r: Ref, j: Job, k: Worker, ledgers: map<Path, Row>, a: WorkerAction)
    ensures var w := Lone(cases, r, j, k, ledgers);
            var t := WorkerStep(h, LocalOf(w, "root", r), r, false, a);
            Step(h, w, Work("root", r, a)) ==
              Lone(cases, r, t.job, t.worker, if t.row.Some? then ledgers[t.worker.budget.path := t.row.value] else ledgers)
  {
    var w := Lone(cases, r, j, k, ledgers);
    var t := WorkerStep(h, LocalOf(w, "root", r), r, false, a);
    assert map[r := j][r := t.job] == map[r := t.job] && map[r := k][r := t.worker] == map[r := t.worker];
    var s := Service(cases, map[r := t.job], map[r := t.worker], false, {});
    assert w.services["root" := s] == map["root" := s];
  }

  lemma LoneStart(h: Hashes, cases: map<string, CaseSpec>, caseRef: string, key: string)
    requires caseRef in cases && KeyOk(key)
    ensures Step(h, OneService(cases), Start("root", caseRef, key, cases[caseRef].specSha))
         == Lone(cases, h.refOf(key), NewJob(h, caseRef, key, cases[caseRef].specSha), NewWorker(cases[caseRef]), map[])
  {
    var s0 := Service(cases, map[], map[], false, {});
    var s1 := StartStep(h, s0, caseRef, key, cases[caseRef].specSha);
    assert !AnyAlive(s0) && AllSettled(s0);
    assert map["root" := s0]["root" := s1] == map["root" := s1];
  }

  lemma LoneReserveRaise(h: Hashes, cases: map<string, CaseSpec>, r: Ref, j: Job, c: CaseSpec, now: real)
    requires ValidCase(c) && now < c.budget.expiresAt
    ensures var w1 := Step(h, Lone(cases, r, j, NewWorker(c), map[]), Work("root", r, Reserving(now, true)));
            exists row: Row :: row.held == Some(r) &&
              Step(h, w1, Work("root", r, Raising(true))) ==
                Lone(cases, r, j.(status := Refused), NewWorker(c).(pc := Finishing, reserved := true), map[c.budget.path := row])
  {
    var p, row := c.budget.path, ReserveRow(h.bind, None, c.budget, c.cap, r, now).value.row;
    LoneReserve(h, cases, r, j, c, now);
    LoneWork(h, cases, r, j, NewWorker(c).(pc := Reserved, reserved := true), map[p := row], Raising(true));
    assert map[p := row][p := row] == map[p := row];
  }

  lemma LoneReserve(h: Hashes, cases: map<string, CaseSpec>, r: Ref, j: Job, c: CaseSpec, now: real)
    requires ValidCase(c) && now < c.budget.expiresAt
    ensures var g := ReserveRow(h.bind, None, c.budget, c.cap, r, now);
            && g.Ok? && g.value.row.held == Some(r)
            && Step(h, Lone(cases, r, j, NewWorker(c), map[]), Work("root", r, Reserving(now, true)))
               == Lone(cases, r, j, NewWorker(c).(pc := Reserved, reserved := true), map[c.budget.path := g.value.row])
  {
    LoneWork(h, cases, r, j, NewWorker(c), map[], Reserving(now, true));
  }

  /** Service "root" has settled its jobs while worker `r` of it can never release ledger `p`. */
  ghost predicate Split(v: World, r: Ref, p: Path) {
    "root" in v.services && r in v.services["root"].jobs && AllSettled(v.services["root"]) && DoomedAt(v, "root", r, p)
  }

  lemma LoneRestart(h: Hashes, cases: map<string, CaseSpec>, r: Ref, j: Job, k: Worker, p: Path, row: Row)
    requires ValidCases(cases) && Settled(j) && Alive(k) && Holding(k) && k.budget.path == p
    ensures Split(Step(h, Lone(cases, r, j, k, map[p := row]), Restart("root", cases)), r, p)
  {
    var s := Service(cases, map[r := j], map[r := k], false, {});
    assert Reopened(s, cases).workers[r] == k.(pc := Crashed);
  }

  lemma LoneSplit(h: Hashes, cases: map<string, CaseSpec>, r: Ref, j: Job, c: CaseSpec, now: real)
    requires ValidCases(cases) && ValidCase(c) && now < c.budget.expiresAt && j.delivery == NotProduced && !j.nativeTerminal
    ensures var w1 := Step(h, Lone(cases, r, j, NewWorker(c), map[]), Work("root", r, Reserving(now, true)));
            Split(Step(h, Step(h, w1, Work("root", r, Raising(true))), Restart("root", cases)), r, c.budget.path)
  {
    LoneReserveRaise(h, cases, r, j, c, now);
    var k := NewWorker(c).(pc := Finishing, reserved := true);
    var w1 := Step(h, Lone(cases, r, j, NewWorker(c), map[]), Work("root", r, Reserving(now, true)));
    var row: Row :| row.held == Some(r) && Step(h, w1, Work("root", r, Raising(true)))
                                        == Lone(cases, r, j.(status := Refused), k, map[c.budget.path := row]);
    LoneRestart(h, cases, r, j.(status := Refused), k, c.budget.path, row);
  }

  lemma RunFour(h: Hashes, w: World, a: Action, b: Action, c: Action, d: Action)
    ensures Run(h, w, [a, b, c, d]) == Step(h, Step(h, Step(h, Step(h, w, a), b), c), d)
  {
    assert [a, b, c, d][..3] == [a, b, c] && [a, b, c][..2] == [a, b] && [a, b][..1] == [a] && [a][..0] == [];
    assert Run(h, w, [a]) == Step(h, Run(h, w, []), a);
    assert Run(h, w, [a, b]) == Step(h, Run(h, w, [a]), b);
    assert Run(h, w, [a, b, c]) == Step(h, Run(h, w, [a, b]), c);
  }

  function OneService(cases: map<string, CaseSpec>): World {
    World(map["root" := Service(cases, map[], map[], false, {})], map[])
  }

  lemma OneServiceInitial(cases: map<string, CaseSpec>)
    requires ValidCases(cases)
    ensures Initial(OneService(cases))
  {
  }

  lemma CrashRun(h: Hashes, cases: map<string, CaseSpec>, caseRef: string, key: string, now: real)
    requires ValidCases(cases) && caseRef in cases && KeyOk(key) && now < cases[caseRef].budget.expiresAt
    ensures var r := h.refOf(key);
            var w1 := Step(h, OneService(cases), Start("root", caseRef, key, cases[caseRef].specSha));
            var w3 := Step(h, Step(h, w1, Work("root", r, Reserving(now, true))), Work("root", r, Raising(true)));
            Split(Step(h, w3, Restart("root", cases)), r, cases[caseRef].budget.path)
  {
    var c := cases[caseRef];
    assert ValidCase(c);
    LoneStart(h, cases, caseRef, key);
    LoneSplit(h, cases, h.refOf(key), NewJob(h, caseRef, key, c.specSha), c, now);
  }

  /**
   * The crash exclusion of the agreement is needed: a worker that crashes after recording a
   * refusal and before releasing leaves a settled job on a ledger that stays held.
   */
  lemma CrashCanSplitLatchFromTable(h: Hashes, cases: map<string, CaseSpec>, caseRef: string, key: string, now: real)
    requires ValidCases(cases) && caseRef in cases && KeyOk(key) && now < cases[caseRef].budget.expiresAt
    ensures exists w, acts :: Initial(w) && Split(Run(h, w, acts), h.refOf(key), cases[caseRef].budget.path)
  {
    var r, w := h.refOf(key), OneService(cases);
    var a0, a1 := Start("root", caseRef, key, cases[caseRef].specSha), Work("root", r, Reserving(now, true));
    var a2, a3 := Work("root", r, Raising(true)), Restart("root", cases);
    OneServiceInitial(cases);
    CrashRun(h, cases, caseRef, key, now);
    RunFour(h, w, a0, a1, a2, a3);
    assert Split(Run(h, w, [a0, a1, a2, a3]), r, cases[caseRef].budget.path);
  }
}
