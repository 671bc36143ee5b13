// What each transaction of the ledger writes and answers, told row by row.
module LedgerAnswers {
  import opened Bytes
  import opened Ledger
  import opened LedgerSafety
  import opened LedgerSteps

  // --- enqueue ------------------------------------------------------------------------

  /** A run of this type and key that is queued, running or waiting. */
  predicate Busy(runs: seq<Run>, r: nat, name: string, key: string) {
    r < |runs| && runs[r].jobType == name && runs[r].key == key
    && (runs[r].status.Queued? || runs[r].status.Running? || runs[r].status.RetryWait?)
  }

  /** An accepted command is one queued run, one queued attempt and one job in its queue, all new. */
  lemma AcceptedWrites(db: Db, c: Command)
    requires forall r: nat :: !Busy(db.runs, r, c.name, c.key)
    ensures EnqueueOne(db, c) ==
            (Db(db.runs + [Run(c.name, c.key, c.business, Queued, 1, 0)],
                db.attempts + [Attempt(c.name, c.key, c.business, Some(|db.boss|), Some(Link(|db.runs|, 1)), Queued, 0)],
                db.boss + [BossJob(c.queue, Created, |db.boss|)]),
             Accepted(|db.runs|, |db.attempts|, |db.boss|))
  {
    var found := FindActive(db.runs, c.name, c.key);
    if found.Some? {
      assert Busy(db.runs, found.value, c.name, c.key);
    }
  }

  /**
   * A duplicate names the busy run, its status and sequence, its current attempt
   * and that attempt's job, and only counts.
   */
  lemma DuplicateNamesTheCurrent(db: Db, c: Command, r: nat, i: nat)
    requires Safe(db) && Busy(db.runs, r, c.name, c.key)
    requires i < |db.attempts| && db.attempts[i].link == Some(Link(r, db.runs[r].current))
    ensures EnqueueOne(db, c) ==
            (db.(runs := db.runs[r := db.runs[r].(duplicates := db.runs[r].duplicates + 1)]),
             Duplicate(r, db.runs[r].status, Some(i), db.runs[r].current, db.attempts[i].bossId))
  {
    var found := FindActive(db.runs, c.name, c.key);
    assert found.Some? && found.value == r;
    LatestIsCurrent(db, r, i);
  }

  lemma LatestIsCurrent(db: Db, r: nat, i: nat)
    requires Safe(db) && r < |db.runs| && i < |db.attempts| && db.attempts[i].link == Some(Link(r, db.runs[r].current))
    ensures LatestOf(db.attempts, r) == Some(i)
  {
    var latest := LatestOf(db.attempts, r);
    assert Of(db.attempts[i], r);
    assert LinkFits(db, db.attempts[latest.value]);
    OtherAttempt(db, i, latest.value);
  }

  // --- deliveries ---------------------------------------------------------------------

  /** A delivery claims its row if the row is queued and current in a run that waits for it; else nothing changes. */
  lemma ClaimWrites(db: Db, bossId: nat, i: nat)
    requires Safe(db) && FindBoss(db.attempts, bossId) == Some(i)
    ensures var a, db' := db.attempts[i], Claim(db, bossId);
            var claimable := a.status.Queued?
              && (a.link.Some? ==> db.runs[a.link.value.run].current == a.link.value.sequence
                                   && (db.runs[a.link.value.run].status.Queued? || db.runs[a.link.value.run].status.RetryWait?));
            if claimable
            then && db'.attempts == db.attempts[i := a.(status := Running, attempts := a.attempts + 1)]
                 && db'.boss == db.boss
                 && db'.runs == if a.link.None? then db.runs
                                else db.runs[a.link.value.run := db.runs[a.link.value.run].(status := Running)]
            else db' == db
  {
    assert LinkFits(db, db.attempts[i]);
  }

  lemma UnknownDeliveryIsIgnored(db: Db, bossId: nat, queue: string)
    requires FindBoss(db.attempts, bossId).None?
    ensures Claim(db, bossId) == db && SkipArchived(db, bossId) == db && Continue(db, bossId, queue) == (db, Outdated)
  {}

  /** What a running attempt and its run become: done, skipped, for a human, failed for good, or queued again. */
  lemma ResultsAre(db: Db, i: nat, final: bool)
    requires Safe(db) && i < |db.attempts| && db.attempts[i].status.Running?
    ensures BothBecome(db, Finish(db, i, Done), i, Succeeded)
    ensures BothBecome(db, Finish(db, i, NothingToDo), i, Skipped)
    ensures BothBecome(db, Finish(db, i, Error(true, final)), i, NeedsHuman)
    ensures BothBecome(db, Finish(db, i, Error(false, true)), i, Failed)
    ensures BothBecome(db, Finish(db, i, Error(false, false)), i, Queued)
  {
    WorkingIsCurrent(db, i);
  }

  predicate BothBecome(db: Db, db': Db, i: nat, s: Status)
    requires i < |db.attempts|
  {
    var a := db.attempts[i];
    && db'.attempts == db.attempts[i := a.(status := s)] && db'.boss == db.boss
    && match a.link
       case None => db'.runs == db.runs
       case Some(link) => link.run < |db.runs| && db'.runs == db.runs[link.run := db.runs[link.run].(status := s)]
  }

  /** A row that is not running takes no result, and a pause without a run parks only a running row. */
  lemma ResultsNeedRunning(db: Db, i: nat, o: Outcome)
    requires i < |db.attempts|
    ensures !db.attempts[i].status.Running? ==> Finish(db, i, o) == db
    ensures ParkLegacy(db, i) ==
            if db.attempts[i].status.Running? && db.attempts[i].link.None?
            then db.(attempts := db.attempts[i := db.attempts[i].(status := RetryWait,
                       attempts := if db.attempts[i].attempts > 0 then db.attempts[i].attempts - 1 else 0)])
            else db
  {}

  /** Success and failure are refused when the run has moved on or is not running, whatever the row says. */
  lemma ResultsNeedTheirRun(db: Db, i: nat, o: Outcome)
    requires i < |db.attempts| && db.attempts[i].link.Some? && !o.NothingToDo?
    requires var link := db.attempts[i].link.value;
             link.run < |db.runs| ==> db.runs[link.run].current != link.sequence || !db.runs[link.run].status.Running?
    ensures Finish(db, i, o) == db
  {}

  /** Finding nothing to do closes a running row in any case, and its run only if the row is current in it. */
  lemma NothingToDoWrites(db: Db, i: nat)
    requires i < |db.attempts| && db.attempts[i].status.Running?
    ensures var a, db' := db.attempts[i], Finish(db, i, NothingToDo);
            var current := a.link.Some? && a.link.value.run < |db.runs|
                           && db.runs[a.link.value.run].current == a.link.value.sequence;
            && db'.attempts == db.attempts[i := a.(status := Skipped)] && db'.boss == db.boss
            && db'.runs == if current then db.runs[a.link.value.run := db.runs[a.link.value.run].(status := Skipped)]
                           else db.runs
  {}

  /** The gate's skip cancels a live row in any case, and its run if that is live; a closed row is left alone. */
  lemma SkipWrites(db: Db, bossId: nat, i: nat)
    requires FindBoss(db.attempts, bossId) == Some(i)
    ensures var a, db' := db.attempts[i], SkipArchived(db, bossId);
            var busy := a.link.Some? && a.link.value.run < |db.runs| && Live(db.runs[a.link.value.run].status);
            if !Live(a.status) then db' == db
            else && db'.attempts == db.attempts[i := a.(status := Cancelled)] && db'.boss == db.boss
                 && db'.runs == if busy then db.runs[a.link.value.run := db.runs[a.link.value.run].(status := Cancelled)]
                                else db.runs
  {}

  // --- pauses -------------------------------------------------------------------------

  /** And so is a pause; neither is there a pause past a next attempt that has no job. */
  lemma PausesNeedTheirRun(db: Db, bossId: nat, i: nat, queue: string)
    requires FindBoss(db.attempts, bossId) == Some(i) && db.attempts[i].link.Some?
    ensures var link := db.attempts[i].link.value;
            var found := FindLink(db.attempts, Link(link.run, link.sequence + 1));
            && (found.None?
                && (link.run < |db.runs| ==> db.runs[link.run].current != link.sequence || !db.runs[link.run].status.Running?) ==>
                  Continue(db, bossId, queue) == (db, Outdated))
            && (found.Some? && db.attempts[found.value].bossId.None? ==> Continue(db, bossId, queue) == (db, Outdated))
  {}

  /** A pause of the running, current attempt parks it, takes its count back and queues the next attempt of its run. */
  lemma PauseWrites(db: Db, bossId: nat, i: nat, queue: string)
    requires Safe(db) && FindBoss(db.attempts, bossId) == Some(i)
    requires db.attempts[i].status.Running? && db.attempts[i].link.Some?
    ensures var a, (db', answer) := db.attempts[i], Continue(db, bossId, queue);
            var r, next := a.link.value.run, a.link.value.sequence + 1;
            && answer == Scheduled(r, |db.attempts|, |db.boss|) && r < |db.runs|
            && db'.runs == db.runs[r := db.runs[r].(status := RetryWait, current := next)]
            && db'.attempts == db.attempts[i := a.(status := RetryWait, attempts := if a.attempts > 0 then a.attempts - 1 else 0)]
                 + [Attempt(a.jobType, a.key, a.business, Some(|db.boss|), Some(Link(r, next)), Queued, 0)]
            && db'.boss == db.boss + [BossJob(queue, Created, |db.boss|)]
  {
    WorkingIsCurrent(db, i);
    PauseSchedules(db, bossId, i, queue);
  }

  /** The other answers to a pause: nothing is written. */
  lemma PauseAnswers(db: Db, bossId: nat, i: nat, queue: string)
    requires Safe(db) && FindBoss(db.attempts, bossId) == Some(i)
    ensures var a, (db', answer) := db.attempts[i], Continue(db, bossId, queue);
            && (a.link.None? ==> db' == db && answer == if a.status.Running? then LegacyPause else Outdated)
            && (a.link.Some? && !a.status.Running? ==>
                  && db' == db
                  && (answer.Existing? <==>
                      exists j: nat :: NextOf(db, i, j) && db.runs[a.link.value.run].current == a.link.value.sequence + 1
                                       && Busy(db.runs, a.link.value.run, a.jobType, a.key))
                  && (answer.Existing? ==> answer.run == a.link.value.run && NextOf(db, i, answer.attempt)
                                           && Some(answer.bossId) == db.attempts[answer.attempt].bossId)
                  && (!answer.Existing? ==> answer == Outdated))
  {
    var a := db.attempts[i];
    if a.link.Some? {
      assert LinkFits(db, a);
      var next := Link(a.link.value.run, a.link.value.sequence + 1);
      var found := FindLink(db.attempts, next);
      if found.Some? {
        assert LinkFits(db, db.attempts[found.value]) && NextOf(db, i, found.value);
        forall j: nat | NextOf(db, i, j) ensures j == found.value {
          OtherAttempt(db, j, found.value);
        }
      }
    }
  }

  /** Row j is the attempt after row i. */
  predicate NextOf(db: Db, i: nat, j: nat)
    requires i < |db.attempts|
  {
    j < |db.attempts| && db.attempts[i].link.Some?
    && db.attempts[j].link == Some(Link(db.attempts[i].link.value.run, db.attempts[i].link.value.sequence + 1))
  }

  // --- updates over whole tables --------------------------------------------------------

  predicate Live(s: Status) {
    s.Queued? || s.Running? || s.RetryWait?
  }

  /** Some pg-boss job still stands for the row. */
  predicate HasJob(db: Db, a: Attempt) {
    a.bossId.Some? && a.bossId.value < |db.boss|
    && (db.boss[a.bossId.value].state.Created? || db.boss[a.bossId.value].state.Retry? || db.boss[a.bossId.value].state.InFlight?)
  }

  /** The stale pass: live rows without a job, unless they are paused predecessors or of a run that is over. */
  lemma StaleWrites(db: Db, i: nat)
    requires Safe(db) && i < |db.attempts|
    ensures var a, db' := db.attempts[i], MarkStale(db);
            var current := a.link.Some? && a.link.value.run < |db.runs|
                           && db.runs[a.link.value.run].current == a.link.value.sequence;
            var ghosted := Live(a.status) && !HasJob(db, a)
                           && (a.link.Some? ==> current && Live(db.runs[a.link.value.run].status));
            && |db'.attempts| == |db.attempts| && |db'.runs| == |db.runs| && db'.boss == db.boss
            && db'.attempts[i] == (if ghosted then a.(status := Stale) else a)
            && (current ==> db'.runs[a.link.value.run] ==
                            if ghosted then db.runs[a.link.value.run].(status := Failed) else db.runs[a.link.value.run])
  {
    StaleClosesGhostsOnly(db, i);
    MarkStaleSafe(db);
  }

  /** Which rows the stale pass closes, in any table: a row of a run that is over is not among them. */
  lemma StaleRows(db: Db, i: nat)
    requires i < |db.attempts|
    ensures var a := db.attempts[i];
            |MarkStale(db).attempts| == |db.attempts|
            && MarkStale(db).attempts[i] ==
               if Live(a.status) && !HasJob(db, a)
                  && (a.link.Some? ==> a.link.value.run < |db.runs|
                                       && db.runs[a.link.value.run].current == a.link.value.sequence
                                       && Live(db.runs[a.link.value.run].status))
               then a.(status := Stale) else a
  {}

  /** The requeue: running rows of an owned type whose job is in flight, their current runs and their jobs. */
  lemma RequeueWrites(db: Db, owned: set<string>, i: nat)
    requires Safe(db) && i < |db.attempts|
    ensures var a, db' := db.attempts[i], Requeue(db, owned);
            var orphaned := a.status.Running? && a.jobType in owned && a.bossId.Some? && a.bossId.value < |db.boss|
                            && db.boss[a.bossId.value].state.InFlight?;
            && |db'.attempts| == |db.attempts| && |db'.runs| == |db.runs| && |db'.boss| == |db.boss|
            && db'.attempts[i] == (if orphaned then a.(status := Queued) else a)
            && (orphaned ==> db'.boss[a.bossId.value] == db.boss[a.bossId.value].(state := Retry))
            && (a.link.Some? && a.link.value.run < |db.runs| && db.runs[a.link.value.run].current == a.link.value.sequence ==>
                  db'.runs[a.link.value.run] ==
                  if orphaned then db.runs[a.link.value.run].(status := Queued) else db.runs[a.link.value.run])
  {
    var a, chosen := db.attempts[i], Orphans(db, owned);
    if a.link.Some? && IsCurrent(db.runs, a.link.value) {
      CurrentChosenIff(db, chosen, i);
    }
    if Orphan(db, owned, a) {
      assert chosen[i] && db.attempts[i].bossId == Some(a.bossId.value);
      WorkingIsCurrent(db, i);
    }
  }

  /** A job that no orphaned row stands for is left as it is. */
  lemma RequeueKeepsOtherJobs(db: Db, owned: set<string>, b: nat)
    requires b < |db.boss|
    requires forall i :: 0 <= i < |db.attempts| && db.attempts[i].bossId == Some(b) ==>
               !db.attempts[i].status.Running? || db.attempts[i].jobType !in owned || !db.boss[b].state.InFlight?
    ensures Requeue(db, owned).boss[b] == db.boss[b]
  {}

  /** Archiving: everything live, failed or for a human of the business is cancelled; what is over and what is others' stays. */
  lemma ArchiveWrites(db: Db, business: string, i: nat, r: nat)
    requires i < |db.attempts| && r < |db.runs|
    ensures var a, run, db' := db.attempts[i], db.runs[r], CancelBusiness(db, business);
            && |db'.attempts| == |db.attempts| && |db'.runs| == |db.runs| && db'.boss == db.boss
            && db'.attempts[i] ==
               (if a.business == Some(business) && (Live(a.status) || a.status.Failed? || a.status.NeedsHuman?)
                then a.(status := Cancelled) else a)
            && db'.runs[r] ==
               (if run.business == Some(business) && (Live(run.status) || run.status.Failed? || run.status.NeedsHuman?)
                then run.(status := Cancelled) else run)
  {}
}
