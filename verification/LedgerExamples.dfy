// States of the ledger in which its failing cases show.
module LedgerExamples {
  import opened Bytes
  import opened Ledger
  import opened LedgerSafety
  import opened Reconciler
  import opened LedgerSteps
  import opened WorkflowRuns

  function Empty(): World {
    World(Db([], [], []), {}, {})
  }

  /** Some run from the empty ledger leads here. */
  ghost predicate Reachable(w: World) {
    exists moves :: Replay(Empty(), moves) == w
  }

  lemma {:induction false} ReplaySnoc(w: World, moves: seq<Move>, m: Move)
    ensures Replay(w, moves + [m]) == Commit(Replay(w, moves), m)
    decreases |moves|
  {
    if moves == [] {
      assert [m][1..] == [];
    } else {
      assert (moves + [m])[1..] == moves[1..] + [m];
      ReplaySnoc(Commit(w, moves[0]), moves[1..], m);
    }
  }

  lemma Reaches(w: World, m: Move)
    requires Reachable(w)
    ensures Reachable(Commit(w, m))
  {
    var moves :| Replay(Empty(), moves) == w;
    ReplaySnoc(Empty(), moves, m);
  }

  const WORK := Command("build", "build-queue", "build-shop", Some("shop"))

  function Row(bossId: nat, sequence: nat, status: Status, attempts: nat): Attempt {
    Attempt("build", "build-shop", Some("shop"), Some(bossId), Some(Link(0, sequence)), status, attempts)
  }

  /** One run whose only attempt was claimed once. */
  function Claimed(status: Status): World {
    World(Db([Run("build", "build-shop", Some("shop"), status, 1, 0)], [Row(0, 1, status, 1)],
             [BossJob("build-queue", Created, 0)]), {}, {0})
  }

  lemma ClaimedIsReachable()
    ensures Reachable(Claimed(Running))
  {
    var enqueued := World(Db([Run("build", "build-shop", Some("shop"), Queued, 1, 0)], [Row(0, 1, Queued, 0)],
                             [BossJob("build-queue", Created, 0)]), {}, {});
    assert Replay(Empty(), []) == Empty();
    Reaches(Empty(), Work(Enqueue([WORK])));
    assert [WORK][1..] == [];
    assert EnqueueAll(Empty().db, [WORK]).0 == EnqueueOne(Empty().db, WORK).0;
    assert Commit(Empty(), Work(Enqueue([WORK]))) == enqueued;
    Reaches(enqueued, Deliver(0));
    assert Commit(enqueued, Deliver(0)) == enqueued.(passed := {0});
    Reaches(enqueued.(passed := {0}), ClaimPassed(0));
    assert Commit(enqueued.(passed := {0}), ClaimPassed(0)) == Claimed(Running);
  }

  /** A failed delivery counts one attempt against the retry limit; claimed and paused, nothing is counted. */
  lemma ForgottenFailureExample() returns (w: World)
    ensures Reachable(w) && |w.db.runs| == 1 && Spent(w.db, 0) == 1
    ensures var (paused, result) := Continue(Claim(w.db, 0), 0, "build-queue");
            result.Scheduled? && |paused.runs| == 1 && Spent(paused, 0) == 0
  {
    ClaimedIsReachable();
    Reaches(Claimed(Running), Work(FinishAttempt(0, Error(false, false))));
    w := Claimed(Queued);
    assert Commit(Claimed(Running), Work(FinishAttempt(0, Error(false, false)))) == w;
    var claimed := Claim(w.db, 0);
    assert claimed == Db(w.db.runs[0 := w.db.runs[0].(status := Running)], [Row(0, 1, Running, 2)], w.db.boss);
    assert Working(claimed, 0);
    var paused := Continue(claimed, 0, "build-queue").0;
    assert paused.attempts == [Row(0, 1, RetryWait, 1), Row(1, 2, Queued, 0)];
  }

  /** A run that was paused once, in the hands of its second attempt. */
  function PausedOnce(run: Status, second: Attempt, job: BossState, passed: set<nat>): World {
    World(Db([Run("build", "build-shop", Some("shop"), run, 2, 0)], [Row(0, 1, RetryWait, 0), second],
             [BossJob("build-queue", job, 0), BossJob("build-queue", job, 1)]), {}, passed)
  }

  lemma PausedOnceIsReachable()
    ensures Reachable(PausedOnce(RetryWait, Row(1, 2, Queued, 0), Created, {0}))
  {
    ClaimedIsReachable();
    var w := Claimed(Running);
    Reaches(w, Work(Pause(0, "build-queue")));
    assert Working(w.db, 0);
    assert FindLink(w.db.attempts, Link(0, 2)).None?;
    assert Commit(w, Work(Pause(0, "build-queue"))).db.attempts == [Row(0, 1, RetryWait, 0), Row(1, 2, Queued, 0)];
  }

  lemma SucceedsAfterPause()
    ensures Reachable(PausedOnce(Succeeded, Row(1, 2, Succeeded, 1), Created, {0, 1}))
  {
    var paused := PausedOnce(RetryWait, Row(1, 2, Queued, 0), Created, {0});
    var passed := PausedOnce(RetryWait, Row(1, 2, Queued, 0), Created, {0, 1});
    var running := PausedOnce(Running, Row(1, 2, Running, 1), Created, {0, 1});
    PausedOnceIsReachable();
    Reaches(paused, Deliver(1));
    assert Commit(paused, Deliver(1)) == passed;
    Reaches(passed, ClaimPassed(1));
    assert Commit(passed, ClaimPassed(1)).db.attempts == running.db.attempts;
    assert Commit(passed, ClaimPassed(1)) == running;
    Reaches(running, Work(FinishAttempt(1, Done)));
    assert Commit(running, Work(FinishAttempt(1, Done))).db.attempts == [Row(0, 1, RetryWait, 0), Row(1, 2, Succeeded, 1)];
  }

  /** Some run of the business is active. */
  ghost predicate LiveRun(db: Db, business: string) {
    exists r :: 0 <= r < |db.runs| && db.runs[r].business == Some(business) && Active(db.runs[r].status)
  }

  lemma SafeExample(w: World)
    requires Reachable(w)
    ensures Sound(w)
  {
    var moves :| Replay(Empty(), moves) == w;
    EmptyIsSound();
    AlwaysSafe(Empty(), moves);
  }

  lemma FinishedIsReachable()
    ensures Reachable(PausedOnce(Succeeded, Row(1, 2, Succeeded, 1), Over, {0, 1}))
  {
    var done := PausedOnce(Succeeded, Row(1, 2, Succeeded, 1), Created, {0, 1});
    SucceedsAfterPause();
    Reaches(done, Work(BossMoves(0, Over)));
    var first := Commit(done, Work(BossMoves(0, Over)));
    Reaches(first, Work(BossMoves(1, Over)));
    assert Commit(first, Work(BossMoves(1, Over))).db.boss == [BossJob("build-queue", Over, 0), BossJob("build-queue", Over, 1)];
  }

  /** A predecessor is live for every startup. */
  lemma StartupKeepsPredecessor(db: Db, cat: Catalog, i: nat)
    requires Safe(db) && Predecessor(db, i)
    ensures i < |Startup(db, cat).attempts| && Startup(db, cat).attempts[i] == db.attempts[i]
  {
    var repaired := Reconcile(db, cat).0;
    RepairSkipsPredecessor(db, cat, i);
    RepairGrows(db, cat);
    EveryRowMeetsItsFate(db, cat);
    assert Predecessor(repaired, i);
    StepKeepsPredecessor(repaired, CloseGhosts, i);
  }

  /** All work on the shop succeeded and no job of it is left, and after every startup it still counts as live. */
  lemma LingeringExample(cat: Catalog) returns (w: World)
    ensures Reachable(w) && !LiveRun(w.db, "shop") && LiveJob(Startup(w.db, cat), "shop")
    ensures forall i :: 0 <= i < |w.db.attempts| ==> !Delivered(w.db, w.db.attempts[i])
  {
    w := PausedOnce(Succeeded, Row(1, 2, Succeeded, 1), Over, {0, 1});
    FinishedIsReachable();
    SafeExample(w);
    StartupKeepsPredecessor(w.db, cat, 0);
    assert Startup(w.db, cat).attempts[0].business == Some("shop");
  }

  // --- an adoption ------------------------------------------------------------------------

  const CATALOG: Catalog := map["build" := "build-queue"]

  /** A waiting row from before logical runs, with its job. */
  function OldDb(): Db {
    Db([], [Attempt("build", "build-shop", Some("shop"), Some(0), None, RetryWait, 0)], [BossJob("build", Created, 0)])
  }

  lemma OldRowIsAdopted()
    ensures Safe(OldDb()) && Fate(OldDb(), CATALOG, 0) == Some(Adopted) && !JobGivenUp(OldDb(), CATALOG, 0)
  {
    var g := GroupOf(OldDb().attempts[0]);
    assert CandidateAt(OldDb(), CATALOG, g, 0);
    BestIsLeast(OldDb(), CATALOG, g, 1, 0);
    assert !Contested(OldDb(), CATALOG, g);
  }

  lemma RequeueKeepsJobs(db: Db, owned: set<string>, i: nat)
    requires Safe(db) && i < |db.attempts| && Delivered(db, db.attempts[i]) && !Orphan(db, owned, db.attempts[i])
    ensures var db' := Requeue(db, owned); i < |db'.attempts| && Delivered(db', db'.attempts[i])
  {
    UntouchedByRequeue(db, owned, i);
  }

  /** It is adopted as waiting, its job stays live, and no restart makes it claimable. */
  lemma UnclaimableAdoptionExample(owned: set<string>)
    ensures var restarted := Restart(OldDb(), CATALOG, owned);
            && |restarted.attempts| == 1
            && Delivered(restarted, restarted.attempts[0]) && !Claimable(restarted, 0)
  {
    OldRowIsAdopted();
    var repaired := Reconcile(OldDb(), CATALOG).0;
    EveryRowMeetsItsFate(OldDb(), CATALOG);
    AdoptedClaimableIff(OldDb(), CATALOG, owned, 0);
    EachLegacyRowExitsOnce(OldDb(), CATALOG, 0);
    AdoptedKeepsJob(OldDb(), CATALOG, 0);
    MarkStaleSafe(repaired);
    RequeueKeepsJobs(Startup(OldDb(), CATALOG), owned, 0);
  }
}
