// Whole runs of the ledger: any interleaving of enqueues, deliveries, worker
// results, pauses, startup repairs, archiving and restoring.
module WorkflowRuns {
  import opened Bytes
  import opened Ledger
  import opened LedgerSafety
  import opened Reconciler
  import opened LedgerSteps

  /** The ledger, the archived businesses, and the deliveries that a worker has taken past the archive gate. */
  datatype World = World(db: Db, archived: set<string>, passed: set<nat>)

  datatype Move =
    | Deliver(bossId: nat)
    | ClaimPassed(bossId: nat)
    | Shelve(business: string)
    | Unshelve(business: string)
    | Work(step: Step)

  /** The transactions that do not depend on archiving. */
  predicate Plain(step: Step) {
    !step.ClaimDelivery? && !step.SkipDelivery? && !step.Archive?
  }

  /** The delivered job belongs to an archived business. */
  predicate GateShut(w: World, bossId: nat) {
    var found := FindBoss(w.db.attempts, bossId);
    found.Some? && w.db.attempts[found.value].business.Some?
    && w.db.attempts[found.value].business.value in w.archived
  }

  /** The transaction on the ledger that a move commits, if any. */
  function Transaction(w: World, m: Move): Option<Step> {
    match m
    case Deliver(b) => if b < |w.db.boss| && GateShut(w, b) then Some(SkipDelivery(b)) else None
    case ClaimPassed(b) => if b in w.passed then Some(ClaimDelivery(b)) else None
    case Shelve(business) => if business in w.archived then None else Some(Archive(business))
    case Unshelve(_) => None
    case Work(step) => if Plain(step) then Some(step) else None
  }

  function Moved(w: World, m: Move): Db {
    match Transaction(w, m)
    case None => w.db
    case Some(step) => Next(w.db, step)
  }

  function Commit(w: World, m: Move): World {
    World(Moved(w, m),
          match m
          case Shelve(business) => w.archived + {business}
          case Unshelve(business) => w.archived - {business}
          case _ => w.archived,
          if m.Deliver? && m.bossId < |w.db.boss| && !GateShut(w, m.bossId) then w.passed + {m.bossId} else w.passed)
  }

  function Replay(w: World, moves: seq<Move>): World
    decreases |moves|
  {
    if moves == [] then w else Replay(Commit(w, moves[0]), moves[1..])
  }

  // --- what archiving leaves ---------------------------------------------------------------

  /** A delivery of this row has passed the gate and may still claim it. */
  predicate PastGate(w: World, i: nat)
    requires i < |w.db.attempts|
  {
    var b := w.db.attempts[i].bossId;
    b.Some? && b.value in w.passed && FindBoss(w.db.attempts, b.value) == Some(i)
  }

  /** A row of an archived business waits for a delivery that the gate has yet to see, or is closed. */
  predicate RowQuiet(w: World, i: nat)
    requires i < |w.db.attempts|
  {
    var a := w.db.attempts[i];
    a.business.Some? && a.business.value in w.archived ==>
      !a.status.Running? && !a.status.RetryWait? && (a.status.Queued? ==> a.link.Some? && !PastGate(w, i))
  }

  ghost predicate Gated(w: World) {
    && (forall b :: b in w.passed ==> b < |w.db.boss|)
    && (forall i: nat :: i < |w.db.attempts| ==> RowQuiet(w, i))
  }

  ghost predicate Sound(w: World) {
    Safe(w.db) && Gated(w)
  }

  /** What the gate closes is always a current attempt or none: archiving closed the paused ones. */
  lemma GateIsTimely(w: World, m: Move)
    requires Sound(w) && Transaction(w, m).Some?
    ensures StepTimely(w.db, Transaction(w, m).value)
  {
    if m.Deliver? {
      var i := FindBoss(w.db.attempts, m.bossId).value;
      assert RowQuiet(w, i) && AttemptAgrees(w.db, w.db.attempts[i]) && LinkFits(w.db, w.db.attempts[i]);
    }
  }

  /**
   * The gate: a delivery of an archived business ends there and closes its live
   * row; any other one passes and may claim its row. Without passing no delivery
   * is claimed.
   */
  lemma GateDecides(w: World, bossId: nat, i: nat)
    requires bossId < |w.db.boss| && FindBoss(w.db.attempts, bossId) == Some(i)
    ensures var a, w' := w.db.attempts[i], Commit(w, Deliver(bossId));
            && w'.archived == w.archived && |w'.db.attempts| == |w.db.attempts|
            && if a.business.Some? && a.business.value in w.archived
               then w'.passed == w.passed && !Active(w'.db.attempts[i].status)
                    && (Active(a.status) ==> w'.db.attempts[i] == a.(status := Cancelled))
               else w'.passed == w.passed + {bossId} && w'.db == w.db
    ensures bossId !in w.passed ==> Commit(w, ClaimPassed(bossId)) == w
  {}

  lemma {:induction false} FindBossSame(x: seq<Attempt>, y: seq<Attempt>, b: nat)
    requires |x| == |y| && forall i :: 0 <= i < |x| ==> x[i].bossId == y[i].bossId
    ensures FindBoss(x, b) == FindBoss(y, b)
    decreases |x|
  {
    if x != [] {
      FindBossSame(x[..|x| - 1], y[..|y| - 1], b);
    }
  }

  /** Transactions that neither add rows nor put a row of an archived business back to work. */
  ghost predicate Calms(w: World, db': Db) {
    && |db'.boss| == |w.db.boss| && |db'.attempts| == |w.db.attempts|
    && (forall i :: 0 <= i < |w.db.attempts| ==>
          && db'.attempts[i].bossId == w.db.attempts[i].bossId && db'.attempts[i].business == w.db.attempts[i].business
          && (w.db.attempts[i].link.Some? ==> db'.attempts[i].link.Some?))
    && (forall i :: 0 <= i < |w.db.attempts|
                    && w.db.attempts[i].business.Some? && w.db.attempts[i].business.value in w.archived ==>
          db'.attempts[i].status == w.db.attempts[i].status || !Active(db'.attempts[i].status))
  }

  lemma CalmGated(w: World, db': Db)
    requires Gated(w) && Calms(w, db')
    ensures Gated(w.(db := db'))
  {
    forall i: nat | i < |db'.attempts| ensures RowQuiet(w.(db := db'), i) {
      assert RowQuiet(w, i);
      if db'.attempts[i].bossId.Some? {
        FindBossSame(w.db.attempts, db'.attempts, db'.attempts[i].bossId.value);
      }
    }
  }

  /** A new row, behind the old ones and with a new job; an old one may have left the running state. */
  lemma AppendGated(w: World, attempts: seq<Attempt>, a: Attempt, runs: seq<Run>, job: BossJob)
    requires Gated(w) && Calms(w, w.db.(attempts := attempts))
    requires a.bossId == Some(|w.db.boss|) && a.link.Some? && a.status.Queued?
    ensures Gated(w.(db := Db(runs, attempts + [a], w.db.boss + [job])))
  {
    CalmGated(w, w.db.(attempts := attempts));
    var calm, w' := w.(db := w.db.(attempts := attempts)), w.(db := Db(runs, attempts + [a], w.db.boss + [job]));
    assert (attempts + [a])[..|attempts|] == attempts;
    forall i: nat | i < |w'.db.attempts| ensures RowQuiet(w', i) {
      if i < |attempts| {
        assert RowQuiet(calm, i);
      }
    }
  }

  lemma EnqueueOneGated(w: World, c: Command)
    requires Gated(w)
    ensures Gated(w.(db := EnqueueOne(w.db, c).0))
  {
    var db' := EnqueueOne(w.db, c).0;
    if FindActive(w.db.runs, c.name, c.key).Some? {
      CalmGated(w, db');
    } else {
      var a := db'.attempts[|w.db.attempts|];
      AppendGated(w, w.db.attempts, a, db'.runs, db'.boss[|w.db.boss|]);
    }
  }

  lemma {:induction false} EnqueueAllGated(w: World, cs: seq<Command>)
    requires Gated(w)
    ensures Gated(w.(db := EnqueueAll(w.db, cs).0))
    decreases |cs|
  {
    if cs != [] {
      EnqueueOneGated(w, cs[0]);
      EnqueueAllGated(w.(db := EnqueueOne(w.db, cs[0]).0), cs[1..]);
    }
  }

  lemma PauseGated(w: World, bossId: nat, queue: string)
    requires Gated(w)
    ensures Gated(w.(db := Continue(w.db, bossId, queue).0))
  {
    if Continue(w.db, bossId, queue).1.Scheduled? {
      var i := FindBoss(w.db.attempts, bossId).value;
      var a := w.db.attempts[i];
      var db' := Schedule(w.db, i, queue);
      var paused := w.db.attempts[i := a.(status := RetryWait, attempts := Saturated(a.attempts))];
      assert RowQuiet(w, i);
      AppendGated(w, paused, Successor(w.db, i), db'.runs, BossJob(queue, Created, |w.db.boss|));
    }
  }

  lemma RepairGated(w: World, cat: Catalog)
    requires Sound(w)
    ensures Gated(w.(db := Reconcile(w.db, cat).0))
  {
    var db' := Reconcile(w.db, cat).0;
    EveryRowMeetsItsFate(w.db, cat);
    RepairTogether(w.db, cat);
    forall i: nat | i < |w.db.attempts|
      ensures db'.attempts[i].bossId == w.db.attempts[i].bossId && db'.attempts[i].business == w.db.attempts[i].business
      ensures w.db.attempts[i].link.Some? ==> db'.attempts[i].link.Some?
      ensures w.db.attempts[i].business.Some? && w.db.attempts[i].business.value in w.archived ==>
                db'.attempts[i] == w.db.attempts[i]
    {
      assert Settled(w.db, cat, db', i) && RowQuiet(w, i);
    }
    CalmGated(w, db');
  }

  lemma FinishCalms(w: World, i: nat, o: Outcome)
    requires Sound(w)
    ensures Calms(w, Finish(w.db, i, o))
  {
    FinishSafe(w.db, i, o);
    if i < |w.db.attempts| {
      assert RowQuiet(w, i);
    }
  }

  lemma ClaimCalms(w: World, bossId: nat)
    requires Sound(w) && bossId in w.passed
    ensures Calms(w, Claim(w.db, bossId))
  {
    var found := FindBoss(w.db.attempts, bossId);
    if found.Some? {
      assert RowQuiet(w, found.value);
    }
  }

  lemma RequeueCalms(w: World, owned: set<string>)
    requires Sound(w)
    ensures Calms(w, Requeue(w.db, owned))
  {
    forall i: nat | i < |w.db.attempts| && w.db.attempts[i].status.Running? ensures RowQuiet(w, i) {}
  }

  lemma RowStepsCalm(w: World, i: nat, bossId: nat)
    requires Sound(w)
    ensures Calms(w, ParkLegacy(w.db, i)) && Calms(w, SkipArchived(w.db, bossId))
  {
    if i < |w.db.attempts| {
      assert RowQuiet(w, i);
    }
  }

  lemma BulkClosesCalm(w: World, business: string)
    ensures Calms(w, MarkStale(w.db)) && Calms(w, CancelBusiness(w.db, business))
  {}

  /** The transactions that neither enqueue, nor pause, nor repair. */
  lemma PlainCalms(w: World, step: Step)
    requires Sound(w) && !step.Enqueue? && !step.Pause? && !step.Repair?
    requires step.ClaimDelivery? ==> step.bossId in w.passed
    ensures Calms(w, Next(w.db, step))
  {
    match step
    case ClaimDelivery(b) => ClaimCalms(w, b);
    case FinishAttempt(i, o) => FinishCalms(w, i, o);
    case Park(i) => RowStepsCalm(w, i, 0);
    case SkipDelivery(b) => RowStepsCalm(w, 0, b);
    case CloseGhosts => BulkClosesCalm(w, "");
    case RequeueOrphans(owned) => RequeueCalms(w, owned);
    case Archive(business) => BulkClosesCalm(w, business);
    case BossMoves(b, s) =>
  }

  lemma StepGated(w: World, step: Step)
    requires Sound(w) && (step.ClaimDelivery? ==> step.bossId in w.passed)
    ensures Gated(w.(db := Next(w.db, step)))
  {
    match step
    case Enqueue(cs) => EnqueueAllGated(w, cs);
    case Pause(b, queue) => PauseGated(w, b, queue);
    case Repair(cat) => RepairGated(w, cat);
    case _ =>
      PlainCalms(w, step);
      CalmGated(w, Next(w.db, step));
  }

  /** A delivery that passes the gate is of a business that is not archived. */
  lemma PassGated(w: World, bossId: nat)
    requires Gated(w) && bossId < |w.db.boss| && !GateShut(w, bossId)
    ensures Gated(w.(passed := w.passed + {bossId}))
  {
    forall i: nat | i < |w.db.attempts| ensures RowQuiet(w.(passed := w.passed + {bossId}), i) {
      assert RowQuiet(w, i);
    }
  }

  /** Archiving quiets all rows of its business. */
  lemma ShelveGated(w: World, business: string)
    requires Sound(w) && business !in w.archived
    ensures Gated(Commit(w, Shelve(business)))
  {
    var w' := Commit(w, Shelve(business));
    StepGated(w, LedgerSteps.Archive(business));
    forall i: nat | i < |w'.db.attempts| ensures RowQuiet(w', i) {
      assert RowQuiet(w.(db := w'.db), i);
    }
  }

  lemma MoveGated(w: World, m: Move)
    requires Sound(w)
    ensures Gated(Commit(w, m))
  {
    match m
    case Deliver(b) =>
      if b < |w.db.boss| {
        if GateShut(w, b) {
          StepGated(w, SkipDelivery(b));
        } else {
          PassGated(w, b);
        }
      }
    case ClaimPassed(b) =>
      if b in w.passed {
        StepGated(w, ClaimDelivery(b));
      }
    case Shelve(business) =>
      if business !in w.archived {
        ShelveGated(w, business);
      } else {
        assert w.archived + {business} == w.archived;
      }
    case Unshelve(business) =>
      forall i: nat | i < |w.db.attempts| ensures RowQuiet(Commit(w, m), i) {
        assert RowQuiet(w, i);
      }
    case Work(step) =>
      if Plain(step) {
        StepGated(w, step);
      }
  }

  lemma MoveSound(w: World, m: Move)
    requires Sound(w)
    ensures Sound(Commit(w, m))
  {
    MoveGated(w, m);
    if Transaction(w, m).Some? {
      GateIsTimely(w, m);
      StepSafe(w.db, Transaction(w, m).value);
    }
  }

  lemma MoveGrows(w: World, m: Move)
    requires Sound(w)
    ensures Grows(w.db, Commit(w, m).db) && ClosedKept(w.db, Commit(w, m).db)
  {
    if Transaction(w, m).Some? {
      GateIsTimely(w, m);
      StepGrows(w.db, Transaction(w, m).value);
    }
  }

  // --- whole runs --------------------------------------------------------------------------

  /**
   * Main result: over any interleaving, one active run per job type and key,
   * attempts numbered 1..current, runs and attempts in agreement, nothing of an
   * archived business at work, and nothing that was closed ever touched again
   * (archiving turns failures into cancellations, and that is all).
   */
  lemma {:induction false} AlwaysSafe(w: World, moves: seq<Move>)
    requires Sound(w)
    ensures Sound(Replay(w, moves))
    ensures Grows(w.db, Replay(w, moves).db) && ClosedKept(w.db, Replay(w, moves).db)
    decreases |moves|
  {
    if moves != [] {
      var next := Commit(w, moves[0]);
      MoveSound(w, moves[0]);
      MoveGrows(w, moves[0]);
      AlwaysSafe(next, moves[1..]);
      GrowsTrans(w.db, next.db, Replay(next, moves[1..]).db);
    }
  }

  lemma EmptyIsSound()
    ensures Sound(World(Db([], [], []), {}, {}))
  {}

  lemma MoveTogether(w: World, m: Move)
    requires Sound(w)
    ensures GrowTogether(w.db, Commit(w, m).db)
  {
    if Transaction(w, m).Some? {
      GateIsTimely(w, m);
      StepTogether(w.db, Transaction(w, m).value);
    }
  }

  lemma {:induction false} AlwaysMirrored(w: World, moves: seq<Move>)
    requires Sound(w) && Mirrored(w.db)
    ensures Mirrored(Replay(w, moves).db) && GrowTogether(w.db, Replay(w, moves).db)
    decreases |moves|
  {
    if moves != [] {
      MoveSound(w, moves[0]);
      MoveTogether(w, moves[0]);
      TogetherStaysMirrored(w.db, Commit(w, moves[0]).db);
      AlwaysMirrored(Commit(w, moves[0]), moves[1..]);
    }
  }

  /** Only enqueues and repairs make a run active for a key. */
  lemma OthersOnlyClose(w: World, m: Move, g: Group)
    requires Sound(w) && (m.Work? ==> !m.step.Enqueue? && !m.step.Repair?)
    requires g in ActiveRuns(Commit(w, m).db.runs)
    ensures g in ActiveRuns(w.db.runs) && ActiveRuns(w.db.runs)[g] == ActiveRuns(Commit(w, m).db.runs)[g]
  {
    if Transaction(w, m).Some? {
      GateIsTimely(w, m);
      StepOnlyCloses(w.db, Transaction(w, m).value, g);
    }
  }

  function MoveResults(w: World, m: Move): seq<EnqueueResult> {
    match Transaction(w, m)
    case None => []
    case Some(step) => StepResults(w.db, step)
  }

  function DuplicatesReported(w: World, moves: seq<Move>, r: nat): nat
    decreases |moves|
  {
    if moves == [] then 0
    else DuplicatesOf(MoveResults(w, moves[0]), r) + DuplicatesReported(Commit(w, moves[0]), moves[1..], r)
  }

  lemma MoveCounts(w: World, m: Move, r: nat)
    requires Sound(w)
    ensures Suppressed(Commit(w, m).db, r) == Suppressed(w.db, r) + DuplicatesOf(MoveResults(w, m), r)
  {
    if Transaction(w, m).Some? {
      var step := Transaction(w, m).value;
      if step.Enqueue? {
        EnqueueAllCounts(w.db, step.commands, r);
      } else {
        OthersDoNotCount(w.db, step, r);
      }
    }
  }

  /** Over any run of the ledger, a run's counter grew by the duplicates that were reported for it. */
  lemma {:induction false} DuplicatesCountedExactly(w: World, moves: seq<Move>, r: nat)
    requires Sound(w)
    ensures Suppressed(Replay(w, moves).db, r) == Suppressed(w.db, r) + DuplicatesReported(w, moves, r)
    decreases |moves|
  {
    if moves != [] {
      MoveSound(w, moves[0]);
      MoveCounts(w, moves[0], r);
      DuplicatesCountedExactly(Commit(w, moves[0]), moves[1..], r);
    }
  }

  // --- results that arrive after a repair -----------------------------------------------------

  /** A worker that was running a row the repair closed changes nothing, then or later. */
  lemma LateFinishIsIgnored(w: World, cat: Catalog, i: nat, o: Outcome, moves: seq<Move>)
    requires Sound(w) && i < |w.db.attempts|
    requires Fate(w.db, cat, i).Some? && Fate(w.db, cat, i) != Some(Adopted)
    ensures var later := Replay(Commit(w, Work(Repair(cat))), moves).db; Finish(later, i, o) == later
  {
    var repaired := Commit(w, Work(Repair(cat)));
    EveryRowMeetsItsFate(w.db, cat);
    assert Settled(w.db, cat, repaired.db, i);
    MoveSound(w, Work(Repair(cat)));
    AlwaysSafe(repaired, moves);
  }

  /**
   * Whatever happens after the repair, a worker that is still running an adopted
   * attempt closes it together with its logical run.
   */
  lemma AdoptedClosesTogether(w: World, cat: Catalog, i: nat, moves: seq<Move>)
    requires Sound(w) && i < |w.db.attempts| && Fate(w.db, cat, i) == Some(Adopted)
    ensures var later := Replay(Commit(w, Work(Repair(cat))), moves).db;
            && i < |later.attempts| && later.attempts[i].link.Some?
            && (later.attempts[i].status.Running? ==>
                  var done, r := Finish(later, i, Done), later.attempts[i].link.value.run;
                  && i < |done.attempts| && r < |done.runs|
                  && done.attempts[i].status.Succeeded? && done.runs[r].status.Succeeded?)
  {
    var repaired := Commit(w, Work(Repair(cat)));
    EveryRowMeetsItsFate(w.db, cat);
    assert Settled(w.db, cat, repaired.db, i);
    MoveSound(w, Work(Repair(cat)));
    AlwaysSafe(repaired, moves);
    ResultMovesBoth(Replay(repaired, moves).db, i, Done);
  }

  // --- paused predecessors -----------------------------------------------------------------------

  lemma MoveKeepsPredecessor(w: World, m: Move, i: nat)
    requires Sound(w) && Predecessor(w.db, i)
    requires m.Shelve? ==> w.db.attempts[i].business != Some(m.business)
    ensures i < |Commit(w, m).db.attempts| && Commit(w, m).db.attempts[i] == w.db.attempts[i]
  {
    assert RowQuiet(w, i);
    if Transaction(w, m).Some? {
      StepKeepsPredecessor(w.db, Transaction(w, m).value, i);
    }
  }

  /**
   * A paused attempt keeps saying that it waits, whatever becomes of its run,
   * until its business is archived.
   */
  lemma {:induction false} PredecessorLingers(w: World, moves: seq<Move>, i: nat)
    requires Sound(w) && Predecessor(w.db, i)
    requires forall k :: 0 <= k < |moves| && moves[k].Shelve? ==> w.db.attempts[i].business != Some(moves[k].business)
    ensures var later := Replay(w, moves).db;
            && i < |later.attempts| && later.attempts[i] == w.db.attempts[i] && Predecessor(later, i)
    decreases |moves|
  {
    if moves != [] {
      MoveSound(w, moves[0]);
      MoveGrows(w, moves[0]);
      MoveKeepsPredecessor(w, moves[0], i);
      PredecessorLingers(Commit(w, moves[0]), moves[1..], i);
    }
  }
}
