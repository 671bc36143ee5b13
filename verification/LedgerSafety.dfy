// What every transaction on the ledger keeps, over whole runs.
module LedgerSafety {
  import opened Bytes
  import opened Ledger

  // --- the invariant ------------------------------------------------------------

  /** A linked attempt names an existing run and carries that run's identity. */
  predicate LinkFits(db: Db, a: Attempt) {
    a.link.Some? ==>
      && a.link.value.run < |db.runs| && a.bossId.Some?
      && var run := db.runs[a.link.value.run];
      && 1 <= a.link.value.sequence <= run.current
      && a.jobType == run.jobType && a.key == run.key && a.business == run.business
  }

  predicate LinkedAt(attempts: seq<Attempt>, i: nat, link: Link) {
    i < |attempts| && attempts[i].link == Some(link)
  }

  ghost predicate HasAttempt(attempts: seq<Attempt>, link: Link) {
    exists i: nat :: LinkedAt(attempts, i, link)
  }

  /** The attempts of a run are numbered 1, 2, ..., current: each number once. */
  ghost predicate Numbered(db: Db) {
    && (forall r :: 0 <= r < |db.runs| ==> 1 <= db.runs[r].current)
    && (forall i :: 0 <= i < |db.attempts| ==> LinkFits(db, db.attempts[i]))
    && (forall i: nat, j: nat, link :: LinkedAt(db.attempts, i, link) && LinkedAt(db.attempts, j, link) ==> i == j)
    && (forall r: nat, q: nat :: r < |db.runs| && 1 <= q <= db.runs[r].current ==> HasAttempt(db.attempts, Link(r, q)))
  }

  /** How a run's status and its current attempt's status go together. */
  predicate Matches(run: Status, attempt: Status) {
    match run
    case Queued => attempt.Queued?
    case Running => attempt.Running?
    case RetryWait => attempt.Queued? || attempt.RetryWait?
    case _ => !Active(attempt)
  }

  /** Only the current attempt of a run can be claimed or worked on. */
  predicate AttemptAgrees(db: Db, a: Attempt) {
    a.link.Some? && a.link.value.run < |db.runs| ==>
      if a.link.value.sequence == db.runs[a.link.value.run].current
      then Matches(db.runs[a.link.value.run].status, a.status)
      else !a.status.Queued? && !a.status.Running?
  }

  ghost predicate Agreed(db: Db) {
    forall i :: 0 <= i < |db.attempts| ==> AttemptAgrees(db, db.attempts[i])
  }

  ghost predicate OneActive(runs: seq<Run>) {
    forall r, s :: 0 <= r < s < |runs| && Active(runs[r].status) && Active(runs[s].status) ==>
      runs[r].jobType != runs[s].jobType || runs[r].key != runs[s].key
  }

  ghost predicate Safe(db: Db) {
    Numbered(db) && Agreed(db) && OneActive(db.runs)
  }

  // --- steps that only rewrite statuses --------------------------------------------

  ghost predicate SameShape(db: Db, db': Db) {
    && |db'.runs| == |db.runs| && |db'.attempts| == |db.attempts|
    && (forall r :: 0 <= r < |db.runs| ==>
          && db'.runs[r].jobType == db.runs[r].jobType && db'.runs[r].key == db.runs[r].key
          && db'.runs[r].business == db.runs[r].business && db'.runs[r].current == db.runs[r].current)
    && (forall i :: 0 <= i < |db.attempts| ==>
          && db'.attempts[i].jobType == db.attempts[i].jobType && db'.attempts[i].key == db.attempts[i].key
          && db'.attempts[i].business == db.attempts[i].business
          && db'.attempts[i].bossId == db.attempts[i].bossId && db'.attempts[i].link == db.attempts[i].link)
  }

  /** No closed run becomes active. */
  ghost predicate NoRevival(runs: seq<Run>, runs': seq<Run>) {
    |runs| <= |runs'| && forall r :: 0 <= r < |runs| && Active(runs'[r].status) ==> Active(runs[r].status)
  }

  lemma ShapeKeepsNumbers(db: Db, db': Db)
    requires Numbered(db) && SameShape(db, db')
    ensures Numbered(db')
  {
    forall i | 0 <= i < |db'.attempts| ensures LinkFits(db', db'.attempts[i]) {
      assert LinkFits(db, db.attempts[i]);
    }
    forall i: nat, j: nat, link | LinkedAt(db'.attempts, i, link) && LinkedAt(db'.attempts, j, link) ensures i == j {
      assert LinkedAt(db.attempts, i, link) && LinkedAt(db.attempts, j, link);
    }
    forall r: nat, q: nat | r < |db'.runs| && 1 <= q <= db'.runs[r].current
      ensures HasAttempt(db'.attempts, Link(r, q))
    {
      assert HasAttempt(db.attempts, Link(r, q));
      var i: nat :| LinkedAt(db.attempts, i, Link(r, q));
      assert LinkedAt(db'.attempts, i, Link(r, q));
    }
  }

  lemma ShapeKeepsOneActive(db: Db, db': Db)
    requires OneActive(db.runs) && SameShape(db, db') && NoRevival(db.runs, db'.runs)
    ensures OneActive(db'.runs)
  {
    forall r, s | 0 <= r < s < |db'.runs| && Active(db'.runs[r].status) && Active(db'.runs[s].status)
      ensures db'.runs[r].jobType != db'.runs[s].jobType || db'.runs[r].key != db'.runs[s].key
    {
      assert Active(db.runs[r].status) && Active(db.runs[s].status);
    }
  }

  // --- one row at a time --------------------------------------------------------------

  lemma SetBothAgrees(db: Db, i: nat, s: Status)
    requires Safe(db) && i < |db.attempts| && Active(db.attempts[i].status)
    requires db.attempts[i].link.Some? ==>
               IsCurrent(db.runs, db.attempts[i].link.value) && Active(db.runs[db.attempts[i].link.value.run].status)
    requires Matches(s, s)
    ensures Safe(SetBoth(db, i, s)) && SameShape(db, SetBoth(db, i, s))
    ensures NoRevival(db.runs, SetBoth(db, i, s).runs)
  {
    var db' := SetBoth(db, i, s);
    ShapeKeepsNumbers(db, db');
    ShapeKeepsOneActive(db, db');
    forall j: nat | j < |db.attempts| ensures AttemptAgrees(db', db'.attempts[j]) {
      assert AttemptAgrees(db, db.attempts[j]);
      OtherAttempt(db, i, j);
    }
  }

  lemma OtherAttempt(db: Db, i: nat, j: nat)
    requires Numbered(db) && i < |db.attempts| && j < |db.attempts|
    ensures i != j && db.attempts[i].link.Some? ==> db.attempts[j].link != db.attempts[i].link
  {
    if i != j && db.attempts[i].link.Some? && db.attempts[j].link == db.attempts[i].link {
      assert LinkedAt(db.attempts, j, db.attempts[j].link.value);
      assert LinkedAt(db.attempts, i, db.attempts[j].link.value);
    }
  }

  /** Counting attempts changes nothing the invariant looks at. */
  lemma CountSafe(db: Db, i: nat)
    requires Safe(db) && i < |db.attempts|
    ensures Safe(Counted(db, i)) && SameShape(db, Counted(db, i))
  {
    ShapeKeepsNumbers(db, Counted(db, i));
    forall j | 0 <= j < |db.attempts| ensures AttemptAgrees(Counted(db, i), Counted(db, i).attempts[j]) {
      assert AttemptAgrees(db, db.attempts[j]);
    }
  }

  lemma ShapeTrans(a: Db, b: Db, c: Db)
    requires SameShape(a, b) && SameShape(b, c)
    ensures SameShape(a, c)
  {}

  lemma ClaimSafe(db: Db, bossId: nat)
    requires Safe(db)
    ensures Safe(Claim(db, bossId)) && SameShape(db, Claim(db, bossId)) && NoRevival(db.runs, Claim(db, bossId).runs)
  {
    var found := FindBoss(db.attempts, bossId);
    if found.Some? && Claimable(db, found.value) {
      var counted := Counted(db, found.value);
      CountSafe(db, found.value);
      SetBothAgrees(counted, found.value, Running);
      ShapeTrans(db, counted, SetBoth(counted, found.value, Running));
    }
  }

  lemma WorkingIsCurrent(db: Db, i: nat)
    requires Safe(db) && i < |db.attempts| && db.attempts[i].status.Running?
    ensures Working(db, i)
  {
    assert AttemptAgrees(db, db.attempts[i]) && LinkFits(db, db.attempts[i]);
  }

  lemma FinishSafe(db: Db, i: nat, o: Outcome)
    requires Safe(db)
    ensures Safe(Finish(db, i, o)) && SameShape(db, Finish(db, i, o)) && NoRevival(db.runs, Finish(db, i, o).runs)
  {
    if i < |db.attempts| && db.attempts[i].status.Running? {
      WorkingIsCurrent(db, i);
      SetBothAgrees(db, i, OutcomeStatus(o));
    }
  }

  lemma ParkSafe(db: Db, i: nat)
    requires Safe(db)
    ensures Safe(ParkLegacy(db, i)) && SameShape(db, ParkLegacy(db, i)) && NoRevival(db.runs, ParkLegacy(db, i).runs)
  {
    ShapeKeepsNumbers(db, ParkLegacy(db, i));
    forall j | 0 <= j < |db.attempts| ensures AttemptAgrees(ParkLegacy(db, i), ParkLegacy(db, i).attempts[j]) {
      assert AttemptAgrees(db, db.attempts[j]);
    }
  }

  // --- deliveries for archived businesses ---------------------------------------------

  /** The delivery is of a current attempt, or of a run that is over, or of no run. */
  predicate Timely(db: Db, bossId: nat) {
    var found := FindBoss(db.attempts, bossId);
    found.Some? && Active(db.attempts[found.value].status) && db.attempts[found.value].link.Some? ==>
      var link := db.attempts[found.value].link.value;
      IsCurrent(db.runs, link) || (link.run < |db.runs| && !Active(db.runs[link.run].status))
  }

  lemma CloseAttemptSafe(db: Db, i: nat)
    requires Safe(db) && i < |db.attempts|
    requires db.attempts[i].link.Some? && db.attempts[i].link.value.run < |db.runs| ==>
               !Active(db.runs[db.attempts[i].link.value.run].status)
    ensures var db' := db.(attempts := db.attempts[i := db.attempts[i].(status := Cancelled)]);
            Safe(db') && SameShape(db, db')
  {
    var db' := db.(attempts := db.attempts[i := db.attempts[i].(status := Cancelled)]);
    ShapeKeepsNumbers(db, db');
    forall j | 0 <= j < |db'.attempts| ensures AttemptAgrees(db', db'.attempts[j]) {
      assert AttemptAgrees(db, db.attempts[j]);
    }
  }

  lemma SkipArchivedSafe(db: Db, bossId: nat)
    requires Safe(db) && Timely(db, bossId)
    ensures Safe(SkipArchived(db, bossId))
    ensures SameShape(db, SkipArchived(db, bossId)) && NoRevival(db.runs, SkipArchived(db, bossId).runs)
  {
    var found := FindBoss(db.attempts, bossId);
    if found.Some? && Active(db.attempts[found.value].status) {
      var i := found.value;
      assert LinkFits(db, db.attempts[i]);
      if db.attempts[i].link.Some? && Active(db.runs[db.attempts[i].link.value.run].status) {
        SetBothAgrees(db, i, Cancelled);
      } else {
        CloseAttemptSafe(db, i);
      }
    }
  }

  /**
   * The skip of an archived business's delivery does not compare sequences, so what
   * it needs is that the delivered row is not a paused predecessor of a live run.
   * Archiving sees to that: every skip of the gate meets the condition.
   */
  lemma SkipIsSafeIff(db: Db, bossId: nat)
    requires Safe(db)
    ensures Safe(SkipArchived(db, bossId)) <==> Timely(db, bossId)
  {
    if Timely(db, bossId) {
      SkipArchivedSafe(db, bossId);
    } else {
      var i := FindBoss(db.attempts, bossId).value;
      var link := db.attempts[i].link.value;
      assert LinkFits(db, db.attempts[i]);
      var now := Link(link.run, db.runs[link.run].current);
      assert HasAttempt(db.attempts, now);
      var j: nat :| LinkedAt(db.attempts, j, now);
      assert AttemptAgrees(db, db.attempts[j]);
      assert !AttemptAgrees(SkipArchived(db, bossId), SkipArchived(db, bossId).attempts[j]);
    }
  }

  // --- updates over whole tables --------------------------------------------------------

  lemma RewriteShape(db: Db, chosen: seq<bool>, s: Status, closing: seq<bool>, t: Status)
    requires |chosen| == |db.attempts| && |closing| == |db.runs|
    requires forall r :: 0 <= r < |closing| && closing[r] && Active(t) ==> Active(db.runs[r].status)
    ensures SameShape(db, Rewrite(db, chosen, s, closing, t))
    ensures NoRevival(db.runs, Rewrite(db, chosen, s, closing, t).runs)
  {}

  /** What a bulk update makes of one attempt and its run. */
  predicate RewriteFits(db: Db, chosen: bool, s: Status, closing: seq<bool>, t: Status, a: Attempt)
    requires |closing| == |db.runs|
  {
    a.link.Some? && a.link.value.run < |db.runs| ==>
      if IsCurrent(db.runs, a.link.value)
      then Matches(if closing[a.link.value.run] then t else db.runs[a.link.value.run].status,
                   if chosen then s else a.status)
      else chosen ==> !s.Queued? && !s.Running?
  }

  /** A bulk update is safe when it leaves runs and their current attempts in agreement. */
  lemma RewriteSafe(db: Db, chosen: seq<bool>, s: Status, closing: seq<bool>, t: Status)
    requires Safe(db) && |chosen| == |db.attempts| && |closing| == |db.runs|
    requires forall r :: 0 <= r < |closing| && closing[r] && Active(t) ==> Active(db.runs[r].status)
    requires forall i :: 0 <= i < |chosen| ==> RewriteFits(db, chosen[i], s, closing, t, db.attempts[i])
    ensures var db' := Rewrite(db, chosen, s, closing, t);
            Safe(db') && SameShape(db, db') && NoRevival(db.runs, db'.runs)
  {
    var db' := Rewrite(db, chosen, s, closing, t);
    RewriteShape(db, chosen, s, closing, t);
    ShapeKeepsNumbers(db, db');
    ShapeKeepsOneActive(db, db');
    forall i | 0 <= i < |db.attempts| ensures AttemptAgrees(db', db'.attempts[i]) {
      RewriteAgrees(db, chosen, s, closing, t, i);
    }
  }

  lemma RewriteAgrees(db: Db, chosen: seq<bool>, s: Status, closing: seq<bool>, t: Status, i: nat)
    requires |chosen| == |db.attempts| && |closing| == |db.runs| && i < |db.attempts|
    requires AttemptAgrees(db, db.attempts[i]) && RewriteFits(db, chosen[i], s, closing, t, db.attempts[i])
    ensures var db' := Rewrite(db, chosen, s, closing, t); AttemptAgrees(db', db'.attempts[i])
  {}

  /** A current attempt is the only one its run can be chosen by. */
  lemma CurrentChosenIff(db: Db, chosen: seq<bool>, i: nat)
    requires Safe(db) && |chosen| == |db.attempts| && i < |db.attempts| && db.attempts[i].link.Some?
    requires IsCurrent(db.runs, db.attempts[i].link.value)
    ensures CurrentChosen(db, chosen, db.attempts[i].link.value.run) <==> chosen[i]
  {
    var link := db.attempts[i].link.value;
    assert LinkedAt(db.attempts, i, link);
    forall j: nat | j < |db.attempts| && db.attempts[j].link == Some(link) ensures j == i {
      assert LinkedAt(db.attempts, j, link);
    }
  }

  lemma MarkStaleSafe(db: Db)
    requires Safe(db)
    ensures Safe(MarkStale(db)) && SameShape(db, MarkStale(db)) && NoRevival(db.runs, MarkStale(db).runs)
  {
    var chosen := Ghosts(db);
    var closing := ActiveChosen(db, chosen);
    forall i: nat | i < |chosen| ensures RewriteFits(db, chosen[i], Stale, closing, Failed, db.attempts[i]) {
      assert AttemptAgrees(db, db.attempts[i]);
      if db.attempts[i].link.Some? && IsCurrent(db.runs, db.attempts[i].link.value) {
        CurrentChosenIff(db, chosen, i);
      }
    }
    RewriteSafe(db, chosen, Stale, closing, Failed);
  }

  lemma RequeueSafe(db: Db, owned: set<string>)
    requires Safe(db)
    ensures Safe(Requeue(db, owned)) && SameShape(db, Requeue(db, owned))
    ensures NoRevival(db.runs, Requeue(db, owned).runs)
  {
    var chosen := Orphans(db, owned);
    var reset := RunningChosen(db, chosen);
    forall i: nat | i < |chosen| ensures RewriteFits(db, chosen[i], Queued, reset, Queued, db.attempts[i]) {
      assert AttemptAgrees(db, db.attempts[i]);
      if db.attempts[i].link.Some? && IsCurrent(db.runs, db.attempts[i].link.value) {
        CurrentChosenIff(db, chosen, i);
      }
    }
    RewriteSafe(db, chosen, Queued, reset, Queued);
    BossIsNoMatter(Rewrite(db, chosen, Queued, reset, Queued), Requeue(db, owned));
  }

  lemma BossIsNoMatter(db: Db, db': Db)
    requires Safe(db) && db' == db.(boss := db'.boss)
    ensures Safe(db') && SameShape(db, db')
  {
    ShapeKeepsNumbers(db, db');
    forall i | 0 <= i < |db.attempts| ensures AttemptAgrees(db', db'.attempts[i]) {
      assert AttemptAgrees(db, db.attempts[i]);
    }
  }

  lemma CancelBusinessSafe(db: Db, business: string)
    requires Safe(db)
    ensures Safe(CancelBusiness(db, business)) && SameShape(db, CancelBusiness(db, business))
    ensures NoRevival(db.runs, CancelBusiness(db, business).runs)
  {
    var chosen, closing := AttemptsOf(db, business), RunsOf(db, business);
    forall i: nat | i < |chosen| ensures RewriteFits(db, chosen[i], Cancelled, closing, Cancelled, db.attempts[i]) {
      assert AttemptAgrees(db, db.attempts[i]) && LinkFits(db, db.attempts[i]);
    }
    RewriteSafe(db, chosen, Cancelled, closing, Cancelled);
  }

  // --- steps that add a row ------------------------------------------------------------

  lemma DuplicateSafe(db: Db, r: nat)
    requires Safe(db) && r < |db.runs|
    ensures var db' := db.(runs := db.runs[r := db.runs[r].(duplicates := db.runs[r].duplicates + 1)]);
            Safe(db') && SameShape(db, db')
  {
    var db' := db.(runs := db.runs[r := db.runs[r].(duplicates := db.runs[r].duplicates + 1)]);
    ShapeKeepsNumbers(db, db');
    ShapeKeepsOneActive(db, db');
    forall i | 0 <= i < |db.attempts| ensures AttemptAgrees(db', db'.attempts[i]) {
      assert AttemptAgrees(db, db.attempts[i]);
    }
  }

  lemma NewRunNumbered(db: Db, run: Run, a: Attempt)
    requires Numbered(db) && run.current == 1 && a.link == Some(Link(|db.runs|, 1)) && a.bossId.Some?
    requires a.jobType == run.jobType && a.key == run.key && a.business == run.business
    ensures Numbered(Db(db.runs + [run], db.attempts + [a], db.boss))
  {
    var db' := Db(db.runs + [run], db.attempts + [a], db.boss);
    forall i | 0 <= i < |db'.attempts| ensures LinkFits(db', db'.attempts[i]) {
      if i < |db.attempts| {
        assert LinkFits(db, db.attempts[i]);
      }
    }
    forall i: nat, link | i < |db.attempts| && LinkedAt(db'.attempts, i, link)
      ensures LinkedAt(db.attempts, i, link) && link != Link(|db.runs|, 1)
    {
      assert LinkFits(db, db.attempts[i]) && LinkedAt(db.attempts, i, link);
    }
    forall r: nat, q: nat | r < |db'.runs| && 1 <= q <= db'.runs[r].current ensures HasAttempt(db'.attempts, Link(r, q)) {
      if r < |db.runs| {
        assert HasAttempt(db.attempts, Link(r, q));
        var i: nat :| LinkedAt(db.attempts, i, Link(r, q));
        assert LinkedAt(db'.attempts, i, Link(r, q));
      } else {
        assert LinkedAt(db'.attempts, |db.attempts|, Link(r, q));
      }
    }
  }

  lemma NewRunSafe(db: Db, run: Run, a: Attempt)
    requires Safe(db) && FindActive(db.runs, run.jobType, run.key).None?
    requires run.current == 1 && a.link == Some(Link(|db.runs|, 1)) && a.bossId.Some?
    requires a.jobType == run.jobType && a.key == run.key && a.business == run.business
    requires Matches(run.status, a.status)
    ensures Safe(Db(db.runs + [run], db.attempts + [a], db.boss))
  {
    var db' := Db(db.runs + [run], db.attempts + [a], db.boss);
    NewRunNumbered(db, run, a);
    forall i | 0 <= i < |db'.attempts| ensures AttemptAgrees(db', db'.attempts[i]) {
      if i < |db.attempts| {
        assert AttemptAgrees(db, db.attempts[i]) && LinkFits(db, db.attempts[i]);
      }
    }
    forall r, s | 0 <= r < s < |db'.runs| && Active(db'.runs[r].status) && Active(db'.runs[s].status)
      ensures db'.runs[r].jobType != db'.runs[s].jobType || db'.runs[r].key != db'.runs[s].key
    {
      assert Active(db.runs[r].status) && !ActiveFor(db.runs[r], run.jobType, run.key);
    }
  }

  lemma EnqueueOneSafe(db: Db, c: Command)
    requires Safe(db)
    ensures Safe(EnqueueOne(db, c).0)
  {
    var found := FindActive(db.runs, c.name, c.key);
    if found.Some? {
      DuplicateSafe(db, found.value);
    } else {
      var r, b := |db.runs|, |db.boss|;
      var run := Run(c.name, c.key, c.business, Queued, 1, 0);
      var a := Attempt(c.name, c.key, c.business, Some(b), Some(Link(r, 1)), Queued, 0);
      NewRunSafe(db, run, a);
      BossIsNoMatter(Db(db.runs + [run], db.attempts + [a], db.boss), EnqueueOne(db, c).0);
    }
  }

  lemma {:induction false} EnqueueAllSafe(db: Db, cs: seq<Command>)
    requires Safe(db)
    ensures Safe(EnqueueAll(db, cs).0)
    decreases |cs|
  {
    if cs != [] {
      EnqueueOneSafe(db, cs[0]);
      EnqueueAllSafe(EnqueueOne(db, cs[0]).0, cs[1..]);
    }
  }

  lemma ScheduleNumbered(db: Db, i: nat, queue: string)
    requires Safe(db) && i < |db.attempts| && db.attempts[i].link.Some? && Working(db, i)
    requires FindLink(db.attempts, Successor(db, i).link.value).None?
    ensures Numbered(Schedule(db, i, queue))
  {
    var db', next := Schedule(db, i, queue), Successor(db, i).link.value;
    assert LinkFits(db, db.attempts[i]);
    forall j | 0 <= j < |db'.attempts| ensures LinkFits(db', db'.attempts[j]) {
      if j < |db.attempts| {
        assert LinkFits(db, db.attempts[j]);
      }
    }
    forall j: nat, link | j < |db.attempts| && LinkedAt(db'.attempts, j, link)
      ensures LinkedAt(db.attempts, j, link) && link != next
    {}
    forall r: nat, q: nat | r < |db'.runs| && 1 <= q <= db'.runs[r].current
      ensures HasAttempt(db'.attempts, Link(r, q))
    {
      if Link(r, q) == next {
        assert LinkedAt(db'.attempts, |db.attempts|, next);
      } else {
        assert HasAttempt(db.attempts, Link(r, q));
        var j: nat :| LinkedAt(db.attempts, j, Link(r, q));
        assert LinkedAt(db'.attempts, j, Link(r, q));
      }
    }
  }

  lemma ScheduleAgreed(db: Db, i: nat, queue: string)
    requires Safe(db) && i < |db.attempts| && db.attempts[i].link.Some? && Working(db, i)
    ensures Agreed(Schedule(db, i, queue))
  {
    var db' := Schedule(db, i, queue);
    forall j: nat | j < |db'.attempts| ensures AttemptAgrees(db', db'.attempts[j]) {
      if j < |db.attempts| {
        assert AttemptAgrees(db, db.attempts[j]) && LinkFits(db, db.attempts[j]);
        OtherAttempt(db, i, j);
      }
    }
  }

  lemma ContinueSafe(db: Db, bossId: nat, queue: string)
    requires Safe(db)
    ensures Safe(Continue(db, bossId, queue).0) && NoRevival(db.runs, Continue(db, bossId, queue).0.runs)
  {
    if Continue(db, bossId, queue).1.Scheduled? {
      var i := FindBoss(db.attempts, bossId).value;
      var db' := Schedule(db, i, queue);
      ScheduleNumbered(db, i, queue);
      ScheduleAgreed(db, i, queue);
      forall r, s | 0 <= r < s < |db'.runs| && Active(db'.runs[r].status) && Active(db'.runs[s].status)
        ensures db'.runs[r].jobType != db'.runs[s].jobType || db'.runs[r].key != db'.runs[s].key
      {
        assert Active(db.runs[r].status) && Active(db.runs[s].status);
      }
    }
  }
}
