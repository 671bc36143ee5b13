// The single transactions on the ledger: what each keeps, adds and closes.
module LedgerSteps {
  import opened Bytes
  import opened Ledger
  import opened LedgerSafety
  import opened Reconciler

  datatype Step =
    | Enqueue(commands: seq<Command>)
    | Pause(bossId: nat, queue: string)
    | ClaimDelivery(bossId: nat)
    | FinishAttempt(attempt: nat, outcome: Outcome)
    | Park(attempt: nat)
    | SkipDelivery(bossId: nat)
    | Repair(catalog: Catalog)
    | CloseGhosts
    | RequeueOrphans(owned: set<string>)
    | Archive(business: string)
    | BossMoves(job: nat, state: BossState)

  function Next(db: Db, step: Step): Db {
    match step
    case Enqueue(cs) => EnqueueAll(db, cs).0
    case Pause(b, queue) => Continue(db, b, queue).0
    case ClaimDelivery(b) => Claim(db, b)
    case FinishAttempt(i, o) => Finish(db, i, o)
    case Park(i) => ParkLegacy(db, i)
    case SkipDelivery(b) => SkipArchived(db, b)
    case Repair(cat) => Reconcile(db, cat).0
    case CloseGhosts => MarkStale(db)
    case RequeueOrphans(owned) => Requeue(db, owned)
    case Archive(business) => CancelBusiness(db, business)
    case BossMoves(b, s) =>
      if b < |db.boss| then db.(boss := db.boss[b := db.boss[b].(state := s)]) else db
  }

  /** The one condition there is: what a skip may close (SkipIsSafeIff). */
  predicate StepTimely(db: Db, step: Step) {
    step.SkipDelivery? ==> Timely(db, step.bossId)
  }

  // --- what a transaction keeps -----------------------------------------------------------

  /** Every row keeps its identity and its link; a run only moves forward. */
  ghost predicate Grows(db: Db, db': Db) {
    && |db.runs| <= |db'.runs| && |db.attempts| <= |db'.attempts|
    && (forall r :: 0 <= r < |db.runs| ==>
          && db'.runs[r].jobType == db.runs[r].jobType && db'.runs[r].key == db.runs[r].key
          && db.runs[r].current <= db'.runs[r].current)
    && (forall i :: 0 <= i < |db.attempts| ==>
          && db'.attempts[i].bossId == db.attempts[i].bossId
          && (db.attempts[i].link.Some? ==> db'.attempts[i].link == db.attempts[i].link))
  }

  /** What became of a closed status: archiving may still cancel a failure, nothing else changes. */
  predicate StaysClosed(s: Status, s': Status) {
    !Active(s) ==> s' == s || ((s.Failed? || s.NeedsHuman?) && s'.Cancelled?)
  }

  /** What is closed stays as it was closed. */
  ghost predicate ClosedKept(db: Db, db': Db) {
    && |db.runs| <= |db'.runs| && |db.attempts| <= |db'.attempts|
    && (forall r :: 0 <= r < |db.runs| ==> StaysClosed(db.runs[r].status, db'.runs[r].status))
    && (forall i :: 0 <= i < |db.attempts| ==> StaysClosed(db.attempts[i].status, db'.attempts[i].status))
    && (forall r :: 0 <= r < |db.runs| && !Active(db.runs[r].status) ==>
          db'.runs[r] == db.runs[r].(status := db'.runs[r].status))
    && (forall i :: 0 <= i < |db.attempts| && !Active(db.attempts[i].status) ==>
          db'.attempts[i] == db.attempts[i].(status := db'.attempts[i].status))
  }

  lemma EnqueueOneGrows(db: Db, c: Command)
    ensures Grows(db, EnqueueOne(db, c).0) && ClosedKept(db, EnqueueOne(db, c).0)
  {}

  lemma GrowsTrans(a: Db, b: Db, c: Db)
    requires Grows(a, b) && ClosedKept(a, b) && Grows(b, c) && ClosedKept(b, c)
    ensures Grows(a, c) && ClosedKept(a, c)
  {}

  lemma {:induction false} EnqueueAllGrows(db: Db, cs: seq<Command>)
    ensures Grows(db, EnqueueAll(db, cs).0) && ClosedKept(db, EnqueueAll(db, cs).0)
    decreases |cs|
  {
    if cs != [] {
      var next := EnqueueOne(db, cs[0]).0;
      EnqueueOneGrows(db, cs[0]);
      EnqueueAllGrows(next, cs[1..]);
      GrowsTrans(db, next, EnqueueAll(next, cs[1..]).0);
    }
  }

  lemma ContinueGrows(db: Db, bossId: nat, queue: string)
    requires Safe(db)
    ensures Grows(db, Continue(db, bossId, queue).0) && ClosedKept(db, Continue(db, bossId, queue).0)
  {}

  lemma RepairGrows(db: Db, cat: Catalog)
    requires Safe(db)
    ensures Grows(db, Reconcile(db, cat).0) && ClosedKept(db, Reconcile(db, cat).0)
  {
    var db' := Reconcile(db, cat).0;
    EveryRowMeetsItsFate(db, cat);
    forall i: nat | i < |db.attempts|
      ensures db'.attempts[i].bossId == db.attempts[i].bossId
      ensures db.attempts[i].link.Some? || !Active(db.attempts[i].status) ==> db'.attempts[i] == db.attempts[i]
    {
      assert Settled(db, cat, db', i);
    }
  }

  /** The steps that only rewrite statuses. */
  lemma ShapeStep(db: Db, step: Step)
    requires Safe(db) && StepTimely(db, step) && !step.Enqueue? && !step.Pause? && !step.Repair?
    ensures SameShape(db, Next(db, step)) && |Next(db, step).boss| == |db.boss|
  {
    match step
    case ClaimDelivery(b) => ClaimSafe(db, b);
    case FinishAttempt(i, o) => FinishSafe(db, i, o);
    case Park(i) => ParkSafe(db, i);
    case SkipDelivery(b) => SkipArchivedSafe(db, b);
    case CloseGhosts => MarkStaleSafe(db);
    case RequeueOrphans(owned) => RequeueSafe(db, owned);
    case Archive(business) => CancelBusinessSafe(db, business);
    case BossMoves(b, s) => BossIsNoMatter(db, Next(db, step));
  }

  lemma ClaimKeepsClosed(db: Db, bossId: nat)
    ensures ClosedKept(db, Claim(db, bossId))
  {}

  lemma FinishKeepsClosed(db: Db, i: nat, o: Outcome)
    requires Safe(db)
    ensures ClosedKept(db, Finish(db, i, o))
  {
    if i < |db.attempts| && db.attempts[i].status.Running? {
      WorkingIsCurrent(db, i);
    }
  }

  lemma SkipKeepsClosed(db: Db, bossId: nat)
    ensures ClosedKept(db, SkipArchived(db, bossId))
  {}

  /** Steps that rewrite statuses do not reopen what is closed. */
  lemma ShapeStepKeepsClosed(db: Db, step: Step)
    requires Safe(db) && !step.Enqueue? && !step.Pause? && !step.Repair?
    ensures ClosedKept(db, Next(db, step))
  {
    match step
    case ClaimDelivery(b) => ClaimKeepsClosed(db, b);
    case FinishAttempt(i, o) => FinishKeepsClosed(db, i, o);
    case SkipDelivery(b) => SkipKeepsClosed(db, b);
    case _ =>
  }

  lemma ShapeGrows(db: Db, db': Db)
    requires SameShape(db, db')
    ensures Grows(db, db')
  {}

  lemma StepGrows(db: Db, step: Step)
    requires Safe(db) && StepTimely(db, step)
    ensures Grows(db, Next(db, step)) && ClosedKept(db, Next(db, step))
  {
    match step
    case Enqueue(cs) => EnqueueAllGrows(db, cs);
    case Pause(b, queue) => ContinueGrows(db, b, queue);
    case Repair(cat) => RepairGrows(db, cat);
    case _ =>
      ShapeStep(db, step);
      ShapeGrows(db, Next(db, step));
      ShapeStepKeepsClosed(db, step);
  }

  lemma StepSafe(db: Db, step: Step)
    requires Safe(db) && StepTimely(db, step)
    ensures Safe(Next(db, step))
  {
    match step
    case Enqueue(cs) => EnqueueAllSafe(db, cs);
    case Pause(b, queue) => ContinueSafe(db, b, queue);
    case ClaimDelivery(b) => ClaimSafe(db, b);
    case FinishAttempt(i, o) => FinishSafe(db, i, o);
    case Park(i) => ParkSafe(db, i);
    case SkipDelivery(b) => SkipArchivedSafe(db, b);
    case Repair(cat) => EveryRowMeetsItsFate(db, cat);
    case CloseGhosts => MarkStaleSafe(db);
    case RequeueOrphans(owned) => RequeueSafe(db, owned);
    case Archive(business) => CancelBusinessSafe(db, business);
    case BossMoves(b, s) => BossIsNoMatter(db, Next(db, step));
  }

  lemma EmptyIsSafe()
    ensures Safe(Db([], [], []))
  {}

  /** At most one attempt of a run can be claimed or worked on. */
  lemma OneRunnableAttempt(db: Db, i: nat, j: nat)
    requires Safe(db) && i < |db.attempts| && j < |db.attempts|
    requires db.attempts[i].link.Some? && db.attempts[j].link.Some?
    requires db.attempts[i].link.value.run == db.attempts[j].link.value.run
    requires db.attempts[i].status.Queued? || db.attempts[i].status.Running?
    requires db.attempts[j].status.Queued? || db.attempts[j].status.Running?
    ensures i == j
  {
    assert AttemptAgrees(db, db.attempts[i]) && AttemptAgrees(db, db.attempts[j]);
    assert LinkFits(db, db.attempts[i]) && LinkFits(db, db.attempts[j]);
    OtherAttempt(db, i, j);
  }

  // --- enqueue refines a partial map ------------------------------------------------------

  /** The abstract store: at most one active run for each job type and key. */
  function ActiveRuns(runs: seq<Run>): map<Group, nat> {
    if runs == [] then map[]
    else
      var n := |runs| - 1;
      var m := ActiveRuns(runs[..n]);
      if Active(runs[n].status) then m[Group(runs[n].jobType, runs[n].key) := n] else m
  }

  /** Enqueue on the abstract store: keep the run there is, or take the next number. */
  function Offer(m: map<Group, nat>, g: Group, next: nat): (map<Group, nat>, nat, bool) {
    if g in m then (m, m[g], false) else (m[g := next], next, true)
  }

  lemma {:induction false} ActiveRunsFinds(runs: seq<Run>, g: Group)
    ensures FindActive(runs, g.name, g.key) == if g in ActiveRuns(runs) then Some(ActiveRuns(runs)[g]) else None
  {
    if runs != [] {
      ActiveRunsFinds(runs[..|runs| - 1], g);
    }
  }

  lemma {:induction false} ActiveRunsSame(x: seq<Run>, y: seq<Run>)
    requires |x| == |y|
    requires forall r :: 0 <= r < |x| ==>
               x[r].jobType == y[r].jobType && x[r].key == y[r].key && Active(x[r].status) == Active(y[r].status)
    ensures ActiveRuns(x) == ActiveRuns(y)
    decreases |x|
  {
    if x != [] {
      ActiveRunsSame(x[..|x| - 1], y[..|y| - 1]);
    }
  }

  /** Accepted exactly when no run is active; a duplicate names the active run and is counted on it alone. */
  lemma EnqueueRefinesOffer(db: Db, c: Command)
    ensures var (db', result) := EnqueueOne(db, c);
            var (m, r, isNew) := Offer(ActiveRuns(db.runs), Group(c.name, c.key), |db.runs|);
            && ActiveRuns(db'.runs) == m && result.run == r && result.Accepted? == isNew
            && (!isNew ==> db' == db.(runs := db.runs[r := db.runs[r].(duplicates := db.runs[r].duplicates + 1)]))
            && (isNew ==> db.runs < db'.runs && db.attempts < db'.attempts && db.boss < db'.boss
                           && |db'.runs| == |db.runs| + 1 && |db'.attempts| == |db.attempts| + 1)
  {
    var db' := EnqueueOne(db, c).0;
    ActiveRunsFinds(db.runs, Group(c.name, c.key));
    if FindActive(db.runs, c.name, c.key).Some? {
      ActiveRunsSame(db.runs, db'.runs);
    } else {
      assert db'.runs[..|db.runs|] == db.runs;
    }
  }

  /** Only enqueues and repairs make runs active. */
  lemma StepOnlyCloses(db: Db, step: Step, g: Group)
    requires Safe(db) && StepTimely(db, step) && !step.Enqueue? && !step.Repair?
    requires g in ActiveRuns(Next(db, step).runs)
    ensures g in ActiveRuns(db.runs) && ActiveRuns(db.runs)[g] == ActiveRuns(Next(db, step).runs)[g]
  {
    var db' := Next(db, step);
    ActiveRunsFinds(db.runs, g);
    ActiveRunsFinds(db'.runs, g);
    StepGrows(db, step);
    StepAddsNoRun(db, step);
    var r := FindActive(db'.runs, g.name, g.key).value;
    assert Active(db.runs[r].status);
    var q := FindActive(db.runs, g.name, g.key).value;
    assert r == q;
  }

  lemma StepAddsNoRun(db: Db, step: Step)
    requires Safe(db) && StepTimely(db, step) && !step.Enqueue? && !step.Repair?
    ensures |Next(db, step).runs| == |db.runs|
  {}

  // --- rows and pg-boss jobs, one to one -----------------------------------------------------

  /** Every row's job exists, and no two rows share one. */
  ghost predicate Mirrored(db: Db) {
    && DistinctJobs(db.attempts)
    && forall i: nat, b: nat :: JobAt(db.attempts, i, b) ==> b < |db.boss|
  }

  /** Rows and jobs grew by the same list. */
  ghost predicate GrowTogether(db: Db, db': Db) {
    && |db.attempts| <= |db'.attempts| && |db'.boss| - |db.boss| == |db'.attempts| - |db.attempts|
    && (forall i :: 0 <= i < |db.attempts| ==> db'.attempts[i].bossId == db.attempts[i].bossId)
    && (forall i :: |db.attempts| <= i < |db'.attempts| ==>
          db'.attempts[i].bossId == Some(i - |db.attempts| + |db.boss|))
  }

  lemma TogetherStaysMirrored(db: Db, db': Db)
    requires Mirrored(db) && GrowTogether(db, db')
    ensures Mirrored(db')
  {
    forall i: nat, b: nat | JobAt(db'.attempts, i, b)
      ensures i < |db.attempts| ==> JobAt(db.attempts, i, b)
      ensures b < |db'.boss| && (i >= |db.attempts| ==> b == i - |db.attempts| + |db.boss|)
    {
      if i < |db.attempts| {
        assert JobAt(db.attempts, i, b);
      }
    }
  }

  lemma {:induction false} EnqueueAllTogether(db: Db, cs: seq<Command>)
    ensures GrowTogether(db, EnqueueAll(db, cs).0)
    decreases |cs|
  {
    if cs != [] {
      EnqueueAllTogether(EnqueueOne(db, cs[0]).0, cs[1..]);
    }
  }

  lemma RepairTogether(db: Db, cat: Catalog)
    requires Safe(db)
    ensures GrowTogether(db, Reconcile(db, cat).0)
  {
    EveryRowMeetsItsFate(db, cat);
    SettleAllOnlyCloses(db, cat, ParkMisfits(db, cat), Groups(db, cat, |db.attempts|));
    forall i: nat | i < |db.attempts| ensures Reconcile(db, cat).0.attempts[i].bossId == db.attempts[i].bossId {
      assert Settled(db, cat, Reconcile(db, cat).0, i);
    }
  }

  lemma ShapeTogether(db: Db, db': Db)
    requires SameShape(db, db') && |db'.boss| == |db.boss|
    ensures GrowTogether(db, db')
  {}

  lemma ContinueTogether(db: Db, bossId: nat, queue: string)
    ensures GrowTogether(db, Continue(db, bossId, queue).0)
  {}

  /** No transaction makes a row without its job, or a job without its row. */
  lemma StepTogether(db: Db, step: Step)
    requires Safe(db) && StepTimely(db, step)
    ensures GrowTogether(db, Next(db, step))
  {
    match step
    case Enqueue(cs) => EnqueueAllTogether(db, cs);
    case Pause(b, queue) => ContinueTogether(db, b, queue);
    case Repair(cat) => RepairTogether(db, cat);
    case _ =>
      ShapeStep(db, step);
      ShapeTogether(db, Next(db, step));
  }

  /** The row of a job is where it was. */
  lemma FindBossKept(db: Db, db': Db, b: nat)
    requires Mirrored(db) && GrowTogether(db, db') && FindBoss(db.attempts, b).Some?
    ensures FindBoss(db'.attempts, b) == FindBoss(db.attempts, b)
  {
    var i := FindBoss(db.attempts, b).value;
    TogetherStaysMirrored(db, db');
    assert JobAt(db'.attempts, i, b);
    assert JobAt(db'.attempts, FindBoss(db'.attempts, b).value, b);
  }

  // --- duplicates are counted exactly ---------------------------------------------------------

  /** How many results report a duplicate of run r. */
  function DuplicatesOf(results: seq<EnqueueResult>, r: nat): nat {
    if results == [] then 0
    else (if results[0].Duplicate? && results[0].run == r then 1 else 0) + DuplicatesOf(results[1..], r)
  }

  function StepResults(db: Db, step: Step): seq<EnqueueResult> {
    if step.Enqueue? then EnqueueAll(db, step.commands).1 else []
  }

  function Suppressed(db: Db, r: nat): nat {
    if r < |db.runs| then db.runs[r].duplicates else 0
  }

  lemma {:induction false} EnqueueAllCounts(db: Db, cs: seq<Command>, r: nat)
    ensures var (db', results) := EnqueueAll(db, cs); Suppressed(db', r) == Suppressed(db, r) + DuplicatesOf(results, r)
    decreases |cs|
  {
    if cs != [] {
      var (next, first) := EnqueueOne(db, cs[0]);
      EnqueueAllCounts(next, cs[1..], r);
      var rest := EnqueueAll(next, cs[1..]).1;
      assert ([first] + rest)[1..] == rest;
    }
  }

  lemma OthersDoNotCount(db: Db, step: Step, r: nat)
    requires Safe(db) && !step.Enqueue?
    ensures Suppressed(Next(db, step), r) == Suppressed(db, r)
  {
    if step.Repair? {
      RepairDoesNotCount(db, step.catalog, r);
    }
  }

  lemma RepairDoesNotCount(db: Db, cat: Catalog, r: nat)
    requires Safe(db)
    ensures Suppressed(Reconcile(db, cat).0, r) == Suppressed(db, r)
  {
    NewRunsUncounted(db, cat, ParkMisfits(db, cat), Groups(db, cat, |db.attempts|), r);
  }

  /** A settled group gains at most one run, which has suppressed nothing. */
  lemma SettleGroupRuns(snap: Db, cat: Catalog, db: Db, g: Group, r: nat)
    requires |snap.attempts| == |db.attempts|
    ensures Suppressed(SettleGroup(snap, cat, db, g).0, r) == Suppressed(db, r)
  {
    var best := Winner(snap, cat, g);
    if !Contested(snap, cat, g) && best.Some? && Canonical(db, g).1.None? {
      AdoptUncounted(db, g, best.value, AdoptedStatus(snap, snap.attempts[best.value]), r);
    }
  }

  lemma AdoptUncounted(db: Db, g: Group, i: nat, s: Status, r: nat)
    requires i < |db.attempts|
    ensures Suppressed(Adopt(db, g, i, s), r) == Suppressed(db, r)
  {}

  lemma {:induction false} NewRunsUncounted(snap: Db, cat: Catalog, db: Db, gs: seq<Group>, r: nat)
    requires |snap.attempts| == |db.attempts|
    ensures Suppressed(SettleAll(snap, cat, db, gs).0, r) == Suppressed(db, r)
    decreases |gs|
  {
    if gs != [] {
      SettleGroupRuns(snap, cat, db, gs[0], r);
      NewRunsUncounted(snap, cat, SettleGroup(snap, cat, db, gs[0]).0, gs[1..], r);
    }
  }

  // --- pauses ------------------------------------------------------------------------------------

  /** The attempts counted against the retry limit. */
  function Spent(db: Db, r: nat): nat
    requires r < |db.runs|
  {
    var found := FindLink(db.attempts, Link(r, db.runs[r].current));
    if found.Some? then db.attempts[found.value].attempts else 0
  }

  lemma SpentIs(db: Db, i: nat)
    requires Safe(db) && i < |db.attempts| && db.attempts[i].link.Some? && IsCurrent(db.runs, db.attempts[i].link.value)
    ensures Spent(db, db.attempts[i].link.value.run) == db.attempts[i].attempts
  {
    var found := FindLink(db.attempts, db.attempts[i].link.value);
    OtherAttempt(db, i, found.value);
  }

  /** After a pause the run's current attempt is the successor, with nothing spent. */
  lemma PauseStartsOver(db: Db, i: nat, queue: string)
    requires Safe(db) && i < |db.attempts| && db.attempts[i].link.Some? && Working(db, i)
    ensures FindLink(db.attempts, Successor(db, i).link.value).None?
    ensures FindLink(Schedule(db, i, queue).attempts, Successor(db, i).link.value) == Some(|db.attempts|)
    ensures Spent(Schedule(db, i, queue), db.attempts[i].link.value.run) == 0
  {
    var next := Successor(db, i).link.value;
    forall j: nat | j < |db.attempts| ensures db.attempts[j].link != Some(next) {
      assert LinkFits(db, db.attempts[j]);
    }
  }

  lemma ScheduleTogether(db: Db, i: nat, queue: string)
    requires i < |db.attempts| && db.attempts[i].link.Some? && Working(db, i)
    ensures GrowTogether(db, Schedule(db, i, queue))
  {}

  /** Racing continuations of one attempt make one successor: the second finds the first's. */
  lemma SecondPauseFindsTheFirst(db: Db, bossId: nat, queue: string)
    requires Safe(db) && Mirrored(db) && Continue(db, bossId, queue).1.Scheduled?
    ensures var (db', first) := Continue(db, bossId, queue);
            Continue(db', bossId, queue) == (db', Existing(first.run, first.attempt, first.bossId))
  {
    var i := FindBoss(db.attempts, bossId).value;
    var db' := Schedule(db, i, queue);
    PauseStartsOver(db, i, queue);
    ScheduleTogether(db, i, queue);
    FindBossKept(db, db', bossId);
  }

  /** A pause never adds work to a closed run, nor to a run that has moved on. */
  lemma NoSuccessorOnceClosed(db: Db, bossId: nat, queue: string)
    requires Safe(db) && FindBoss(db.attempts, bossId).Some?
    requires var a := db.attempts[FindBoss(db.attempts, bossId).value];
             a.link.Some? && (!IsCurrent(db.runs, a.link.value) || !Active(db.runs[a.link.value.run].status))
    ensures Continue(db, bossId, queue).0 == db
  {}

  lemma PauseSchedules(db: Db, bossId: nat, i: nat, queue: string)
    requires Safe(db) && FindBoss(db.attempts, bossId) == Some(i) && db.attempts[i].link.Some? && Working(db, i)
    ensures Continue(db, bossId, queue) ==
            (Schedule(db, i, queue), Scheduled(db.attempts[i].link.value.run, |db.attempts|, |db.boss|))
  {
    PauseStartsOver(db, i, queue);
  }

  /**
   * A pause is meant to leave the attempt budget untouched. It takes back the
   * paused attempt's own count, but the successor starts from zero: the budget
   * is untouched exactly when nothing had been spent before the delivery.
   */
  lemma PauseKeepsBudgetIff(db: Db, bossId: nat, i: nat, queue: string)
    requires Safe(db) && Mirrored(db) && FindBoss(db.attempts, bossId) == Some(i)
    requires Claimable(db, i) && db.attempts[i].link.Some?
    ensures var r := db.attempts[i].link.value.run;
            var (paused, result) := Continue(Claim(db, bossId), bossId, queue);
            && result.Scheduled? && |paused.attempts| == |db.attempts| + 1 && r < |paused.runs|
            && paused.attempts[i].attempts == db.attempts[i].attempts
            && (Spent(paused, r) == Spent(db, r) <==> db.attempts[i].attempts == 0)
  {
    var claimed := Claim(db, bossId);
    SpentIs(db, i);
    ClaimSafe(db, bossId);
    ShapeTogether(db, claimed);
    FindBossKept(db, claimed, bossId);
    PauseSchedules(claimed, bossId, i, queue);
    PauseStartsOver(claimed, i, queue);
  }

  // --- startup ---------------------------------------------------------------------------------------

  /** What a restart does to the ledger before consumers start. */
  function Startup(db: Db, cat: Catalog): Db {
    MarkStale(Reconcile(db, cat).0)
  }

  lemma NoLegacyAfterStartup(db: Db, cat: Catalog, i: nat)
    requires Safe(db) && i < |db.attempts|
    ensures |Startup(db, cat).attempts| == |db.attempts| && !Legacy(Startup(db, cat).attempts[i])
  {
    LeftoversAreGhosts(db, cat, i);
  }

  /** After a stale pass every live current row of an active run has a live job. */
  lemma NoGhostAfterStale(db: Db, i: nat)
    requires Safe(db) && i < |db.attempts|
    ensures !Ghost(MarkStale(db), MarkStale(db).attempts[i])
  {
    var a := db.attempts[i];
    if a.link.Some? && IsCurrent(db.runs, a.link.value) {
      CurrentChosenIff(db, Ghosts(db), i);
    }
  }

  lemma StaleOnce(db: Db)
    requires forall i :: 0 <= i < |db.attempts| ==> !Ghost(db, db.attempts[i])
    ensures MarkStale(db) == db
  {
    var db' := MarkStale(db);
    assert db'.attempts == db.attempts;
    assert db'.runs == db.runs;
  }

  /** A second startup in a row changes nothing at all. */
  lemma SecondStartupIsIdle(db: Db, cat: Catalog)
    requires Safe(db)
    ensures Startup(Startup(db, cat), cat) == Startup(db, cat)
  {
    var repaired, started := Reconcile(db, cat).0, Startup(db, cat);
    EveryRowMeetsItsFate(db, cat);
    forall i: nat | i < |started.attempts|
      ensures !LiveLegacy(started, started.attempts[i]) && !Ghost(started, started.attempts[i])
    {
      NoLegacyAfterStartup(db, cat, i);
      NoGhostAfterStale(repaired, i);
    }
    NothingToReconcile(started, cat);
    StaleOnce(started);
  }

  /** What an adopted row comes to in the stale pass of the same startup. */
  lemma AdoptedAfterStale(db: Db, cat: Catalog, i: nat)
    requires Safe(db) && i < |db.attempts| && Fate(db, cat, i) == Some(Adopted)
    ensures db.attempts[i].bossId.Some? && db.attempts[i].bossId.value < |db.boss|
    ensures var repaired, b := Reconcile(db, cat).0, db.attempts[i].bossId.value;
            && |repaired.attempts| == |db.attempts| && repaired.attempts[i].link.Some?
            && IsCurrent(repaired.runs, repaired.attempts[i].link.value)
            && (Ghost(repaired, repaired.attempts[i]) <==> JobGivenUp(db, cat, b))
  {
    var repaired, b := Reconcile(db, cat).0, db.attempts[i].bossId.value;
    EveryRowMeetsItsFate(db, cat);
    assert Settled(db, cat, repaired, i) && Delivered(db, db.attempts[i]);
    JobsFollowRows(db, cat, b);
  }

  /**
   * Each live legacy row has one exit: it is cancelled, parked or stale, or it is
   * adopted, and then live, current in an active run and deliverable, unless
   * another row gave up the pg-boss job they share: then it goes stale with its run.
   */
  lemma EachLegacyRowExitsOnce(db: Db, cat: Catalog, i: nat)
    requires Safe(db) && i < |db.attempts| && Legacy(db.attempts[i])
    ensures var started := Startup(db, cat);
            |started.attempts| == |db.attempts|
            && var a := started.attempts[i];
               match Fate(db, cat, i)
               case Some(Adopted) =>
                 && a.link.Some? && IsCurrent(started.runs, a.link.value) && a.bossId.Some?
                 && var r := started.runs[a.link.value.run];
                    if JobGivenUp(db, cat, a.bossId.value) then a.status.Stale? && r.status.Failed?
                    else Delivered(started, a) && a.status == AdoptedStatus(db, db.attempts[i]) == r.status
               case Some(DuplicateCancelled) => a == db.attempts[i].(status := Cancelled)
               case Some(_) => a == db.attempts[i].(status := NeedsHuman)
               case None => a == db.attempts[i].(status := Stale)
  {
    var repaired := Reconcile(db, cat).0;
    EveryRowMeetsItsFate(db, cat);
    assert Settled(db, cat, repaired, i);
    if Fate(db, cat, i) == Some(Adopted) {
      AdoptedAfterStale(db, cat, i);
      StaleClosesGhostsOnly(repaired, i);
      MarkStaleSafe(repaired);
    } else {
      LeftoversAreGhosts(db, cat, i);
    }
  }

  /** A worker that was running an adopted attempt closes it together with its new run. */
  lemma AdoptedInFlightCloses(db: Db, cat: Catalog, i: nat)
    requires Safe(db) && i < |db.attempts| && db.attempts[i].status.Running? && Fate(db, cat, i) == Some(Adopted)
    ensures var done := Finish(Reconcile(db, cat).0, i, Done);
            i < |done.attempts| && done.attempts[i].status.Succeeded?
            && done.attempts[i].link.Some? && done.attempts[i].link.value.run < |done.runs|
            && done.runs[done.attempts[i].link.value.run].status.Succeeded?
  {
    var repaired := Reconcile(db, cat).0;
    EveryRowMeetsItsFate(db, cat);
    assert Settled(db, cat, repaired, i);
  }

  /** A whole restart: startup, then the owned build rows go back to the queue. */
  function Restart(db: Db, cat: Catalog, owned: set<string>): Db {
    Requeue(Startup(db, cat), owned)
  }

  /**
   * An adopted attempt that nobody runs can only be worked on if a redelivery can
   * claim it. After a restart it can be claimed if and only if its job is still
   * its own, and it was queued with its job not in flight, or its job is in
   * flight and of an owned type. One adopted as waiting, or as running of a type
   * that is not owned, is never claimed.
   */
  lemma AdoptedClaimableIff(db: Db, cat: Catalog, owned: set<string>, i: nat)
    requires Safe(db) && i < |db.attempts| && Fate(db, cat, i) == Some(Adopted)
    ensures db.attempts[i].bossId.Some? && db.attempts[i].bossId.value < |db.boss|
    ensures var a, restarted := db.attempts[i], Restart(db, cat, owned);
            var inFlight := db.boss[a.bossId.value].state.InFlight?;
            |restarted.attempts| == |db.attempts|
            && (Claimable(restarted, i) <==>
                !JobGivenUp(db, cat, a.bossId.value)
                && (if inFlight then a.jobType in owned else a.status.Queued?))
  {
    var started := Startup(db, cat);
    EveryRowMeetsItsFate(db, cat);
    MarkStaleSafe(Reconcile(db, cat).0);
    AdoptedAtStartup(db, cat, owned, i);
    ClaimableAfterRequeue(started, owned, i);
  }

  /** What a redelivery, or a requeue, finds of an adopted row after the startup. */
  lemma AdoptedAtStartup(db: Db, cat: Catalog, owned: set<string>, i: nat)
    requires Safe(db) && i < |db.attempts| && Fate(db, cat, i) == Some(Adopted)
    ensures db.attempts[i].bossId.Some? && db.attempts[i].bossId.value < |db.boss|
    ensures var a, started := db.attempts[i], Startup(db, cat);
            var inFlight, kept := db.boss[a.bossId.value].state.InFlight?, !JobGivenUp(db, cat, a.bossId.value);
            && |started.attempts| == |db.attempts|
            && (Claimable(started, i) <==> kept && a.status.Queued? && !inFlight)
            && (Orphan(started, owned, started.attempts[i]) <==> kept && inFlight && a.jobType in owned)
  {
    AdoptedKeepsJob(db, cat, i);
    EachLegacyRowExitsOnce(db, cat, i);
    JobsFollowRows(db, cat, db.attempts[i].bossId.value);
  }

  /** After a requeue exactly the rows that could be claimed before and the orphans can be claimed. */
  lemma ClaimableAfterRequeue(db: Db, owned: set<string>, i: nat)
    requires Safe(db) && i < |db.attempts|
    ensures |Requeue(db, owned).attempts| == |db.attempts|
    ensures Claimable(Requeue(db, owned), i) <==> Claimable(db, i) || Orphan(db, owned, db.attempts[i])
  {
    RequeuedCanBeClaimed(db, owned, i);
    if !Orphan(db, owned, db.attempts[i]) {
      UntouchedByRequeue(db, owned, i);
    }
  }

  lemma AdoptedKeepsJob(db: Db, cat: Catalog, i: nat)
    requires Safe(db) && i < |db.attempts| && Fate(db, cat, i) == Some(Adopted)
    ensures Legacy(db.attempts[i]) && Delivered(db, db.attempts[i])
    ensures var started := Startup(db, cat);
            && |started.attempts| == |db.attempts| && started.boss == Reconcile(db, cat).0.boss
            && started.attempts[i].bossId == db.attempts[i].bossId
            && started.attempts[i].jobType == db.attempts[i].jobType
  {
    EveryRowMeetsItsFate(db, cat);
    assert Settled(db, cat, Reconcile(db, cat).0, i);
  }

  /** A row that is not requeued is as claimable as it was. */
  lemma UntouchedByRequeue(db: Db, owned: set<string>, i: nat)
    requires Safe(db) && i < |db.attempts| && !Orphan(db, owned, db.attempts[i])
    ensures var db' := Requeue(db, owned);
            i < |db'.attempts| && db'.attempts[i] == db.attempts[i] && (Claimable(db', i) <==> Claimable(db, i))
  {
    var a := db.attempts[i];
    if a.link.Some? && IsCurrent(db.runs, a.link.value) {
      CurrentChosenIff(db, Orphans(db, owned), i);
    }
  }

  // --- the retry limit -------------------------------------------------------------------------------

  /** One delivery that fails: the last one allowed closes the attempt and its run. */
  function FailOnce(db: Db, i: nat, bossId: nat, limit: nat): Db {
    var claimed := Claim(db, bossId);
    if i < |claimed.attempts| then Finish(claimed, i, Error(false, claimed.attempts[i].attempts > limit)) else claimed
  }

  function FailTimes(db: Db, i: nat, bossId: nat, limit: nat, n: nat): Db
    decreases n
  {
    if n == 0 then db else FailTimes(FailOnce(db, i, bossId, limit), i, bossId, limit, n - 1)
  }

  lemma FailOnceRow(db: Db, i: nat, bossId: nat, limit: nat)
    requires Safe(db) && FindBoss(db.attempts, bossId) == Some(i)
    requires db.attempts[i].link.Some? && Claimable(db, i)
    ensures var db' := FailOnce(db, i, bossId, limit);
            && i < |db'.attempts| && |db'.runs| == |db.runs|
            && db'.attempts[i].link == db.attempts[i].link
            && db'.attempts[i].attempts == db.attempts[i].attempts + 1
            && if db'.attempts[i].attempts <= limit then Claimable(db', i)
               else db'.attempts[i].status.Failed? && db'.runs[db'.attempts[i].link.value.run].status.Failed?
  {}

  lemma FailOnceKeeps(db: Db, i: nat, bossId: nat, limit: nat)
    requires Safe(db) && Mirrored(db) && FindBoss(db.attempts, bossId) == Some(i)
    ensures var db' := FailOnce(db, i, bossId, limit);
            Safe(db') && Mirrored(db') && FindBoss(db'.attempts, bossId) == Some(i)
  {
    var claimed := Claim(db, bossId);
    var db' := FailOnce(db, i, bossId, limit);
    ClaimSafe(db, bossId);
    FinishSafe(claimed, i, Error(false, claimed.attempts[i].attempts > limit));
    ShapeTrans(db, claimed, db');
    ShapeTogether(db, db');
    TogetherStaysMirrored(db, db');
    FindBossKept(db, db', bossId);
  }

  /** An attempt survives exactly `limit` failing deliveries; the next one closes it and its run. */
  lemma {:induction false} RetryLimitIsExact(db: Db, i: nat, bossId: nat, limit: nat, n: nat)
    requires Safe(db) && Mirrored(db) && FindBoss(db.attempts, bossId) == Some(i)
    requires db.attempts[i].link.Some? && Claimable(db, i) && db.attempts[i].attempts + n <= limit + 1
    requires n == 0 ==> db.attempts[i].attempts <= limit
    ensures var db' := FailTimes(db, i, bossId, limit, n);
            && i < |db'.attempts| && db'.attempts[i].link == db.attempts[i].link
            && db'.attempts[i].attempts == db.attempts[i].attempts + n
            && if db.attempts[i].attempts + n <= limit then Claimable(db', i)
               else db'.attempts[i].status.Failed?
                    && db'.attempts[i].link.value.run < |db'.runs|
                    && db'.runs[db'.attempts[i].link.value.run].status.Failed?
    decreases n
  {
    if n > 0 {
      FailOnceRow(db, i, bossId, limit);
      FailOnceKeeps(db, i, bossId, limit);
      if n > 1 {
        RetryLimitIsExact(FailOnce(db, i, bossId, limit), i, bossId, limit, n - 1);
      }
    }
  }

  // --- paused predecessors ---------------------------------------------------------------------------

  /** The proof of life that keeps a business from being recovered as stranded. */
  ghost predicate LiveJob(db: Db, business: string) {
    exists i :: 0 <= i < |db.attempts| && db.attempts[i].business == Some(business) && Active(db.attempts[i].status)
  }

  /** A paused attempt whose run has moved on to a successor. */
  predicate Predecessor(db: Db, i: nat) {
    i < |db.attempts| && db.attempts[i].link.Some? && db.attempts[i].status.RetryWait?
    && db.attempts[i].link.value.run < |db.runs|
    && db.attempts[i].link.value.sequence < db.runs[db.attempts[i].link.value.run].current
  }

  lemma RepairSkipsPredecessor(db: Db, cat: Catalog, i: nat)
    requires Safe(db) && Predecessor(db, i)
    ensures var db' := Reconcile(db, cat).0; |db'.attempts| == |db.attempts| && db'.attempts[i] == db.attempts[i]
  {
    EveryRowMeetsItsFate(db, cat);
    assert Settled(db, cat, Reconcile(db, cat).0, i);
  }

  lemma {:induction false} EnqueueAllKeepsAttempts(db: Db, cs: seq<Command>)
    ensures db.attempts <= EnqueueAll(db, cs).0.attempts
    decreases |cs|
  {
    if cs != [] {
      EnqueueAllKeepsAttempts(EnqueueOne(db, cs[0]).0, cs[1..]);
    }
  }

  /** No transaction touches a predecessor's row, save a skip of it or the archiving of its business. */
  lemma StepKeepsPredecessor(db: Db, step: Step, i: nat)
    requires Safe(db) && Predecessor(db, i)
    requires step.SkipDelivery? ==> FindBoss(db.attempts, step.bossId) != Some(i)
    requires step.Archive? ==> db.attempts[i].business != Some(step.business)
    ensures i < |Next(db, step).attempts| && Next(db, step).attempts[i] == db.attempts[i]
  {
    match step
    case Enqueue(cs) => EnqueueAllKeepsAttempts(db, cs);
    case Repair(cat) => RepairSkipsPredecessor(db, cat, i);
    case _ =>
  }

  lemma StaleKeepsLive(db: Db, cat: Catalog, i: nat)
    requires Safe(db) && i < |db.attempts| && Active(Startup(db, cat).attempts[i].status)
    ensures var s := Startup(db, cat); Delivered(s, s.attempts[i]) || Predecessor(s, i)
  {
    var repaired, s := Reconcile(db, cat).0, Startup(db, cat);
    EveryRowMeetsItsFate(db, cat);
    MarkStaleSafe(repaired);
    NoLegacyAfterStartup(db, cat, i);
    NoGhostAfterStale(repaired, i);
    assert AttemptAgrees(s, s.attempts[i]) && LinkFits(s, s.attempts[i]);
  }

  /**
   * The exact condition: after a startup a business counts as live if and only if
   * a row of it can still be delivered, or a paused predecessor lingers. Without
   * a deliverable row it is spared because of a predecessor, and for no other reason.
   */
  lemma StartupSparesIff(db: Db, cat: Catalog, business: string)
    requires Safe(db)
    ensures var s := Startup(db, cat);
            LiveJob(s, business) <==>
            exists i: nat :: i < |s.attempts| && s.attempts[i].business == Some(business)
                             && Active(s.attempts[i].status) && (Delivered(s, s.attempts[i]) || Predecessor(s, i))
  {
    EveryRowMeetsItsFate(db, cat);
    var s := Startup(db, cat);
    if LiveJob(s, business) {
      var i: nat :| i < |s.attempts| && s.attempts[i].business == Some(business) && Active(s.attempts[i].status);
      StaleKeepsLive(db, cat, i);
    }
  }

  // --- what the bulk updates and results do, and to whom ------------------------------------------------

  /** Archiving leaves nothing of the business to run or to decide, and touches nobody else. */
  lemma ArchiveStopsWork(db: Db, business: string, i: nat, r: nat)
    requires i < |db.attempts| && r < |db.runs|
    ensures var db' := CancelBusiness(db, business);
            && (if db.attempts[i].business == Some(business)
                then !Cancellable(db'.attempts[i].status) else db'.attempts[i] == db.attempts[i])
            && (if db.runs[r].business == Some(business)
                then !Cancellable(db'.runs[r].status) else db'.runs[r] == db.runs[r])
            && db'.boss == db.boss
  {}

  /** The stale pass closes ghosts and their runs, and nothing else. */
  lemma StaleClosesGhostsOnly(db: Db, i: nat)
    requires Safe(db) && i < |db.attempts|
    ensures var a, db' := db.attempts[i], MarkStale(db);
            && db'.attempts[i] == (if Ghost(db, a) then a.(status := Stale) else a)
            && (a.link.Some? && IsCurrent(db.runs, a.link.value) ==>
                  var r := a.link.value.run;
                  db'.runs[r] == if Ghost(db, a) then db.runs[r].(status := Failed) else db.runs[r])
  {
    var a := db.attempts[i];
    if a.link.Some? && IsCurrent(db.runs, a.link.value) {
      CurrentChosenIff(db, Ghosts(db), i);
    }
  }

  /** An orphaned row of an owned type can be claimed again at once, through the same pg-boss job. */
  lemma RequeuedCanBeClaimed(db: Db, owned: set<string>, i: nat)
    requires Safe(db) && i < |db.attempts|
    ensures var a, db' := db.attempts[i], Requeue(db, owned);
            if Orphan(db, owned, a)
            then Claimable(db', i) && db'.boss[a.bossId.value].state.Retry? && db'.attempts[i].bossId == a.bossId
            else db'.attempts[i] == a
  {
    var a, chosen := db.attempts[i], Orphans(db, owned);
    if Orphan(db, owned, a) {
      assert chosen[i] && db.attempts[i].bossId == Some(a.bossId.value);
      WorkingIsCurrent(db, i);
      if a.link.Some? {
        CurrentChosenIff(db, chosen, i);
      }
    }
  }

  /** A committed result moves the attempt and its run to the same status, and nothing else. */
  lemma ResultMovesBoth(db: Db, i: nat, o: Outcome)
    requires Safe(db) && i < |db.attempts|
    ensures var a, db' := db.attempts[i], Finish(db, i, o);
            if !a.status.Running? then db' == db
            else
              && db'.attempts == db.attempts[i := a.(status := OutcomeStatus(o))] && db'.boss == db.boss
              && (a.link.None? ==> db'.runs == db.runs)
              && (a.link.Some? ==> a.link.value.run < |db.runs| && db'.runs == db.runs[a.link.value.run :=
                    db.runs[a.link.value.run].(status := OutcomeStatus(o))])
  {
    if db.attempts[i].status.Running? {
      WorkingIsCurrent(db, i);
    }
  }
}
