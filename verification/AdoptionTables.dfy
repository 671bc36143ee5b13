// The startup repair told on the tables alone: which row of a job type and key
// ends how, by what its row and its pg-boss job say.
module AdoptionTables {
  import opened Bytes
  import opened Ledger
  import opened LedgerSafety
  import opened Reconciler

  /** Row i is live, has no run, and pg-boss job b will deliver it. */
  predicate WaitsOn(db: Db, i: nat, b: nat) {
    && i < |db.attempts| && db.attempts[i].link.None? && db.attempts[i].bossId == Some(b)
    && (db.attempts[i].status.Queued? || db.attempts[i].status.Running? || db.attempts[i].status.RetryWait?)
    && b < |db.boss| && (db.boss[b].state.Created? || db.boss[b].state.Retry? || db.boss[b].state.InFlight?)
  }

  /** And the job stands where jobs of the type may stand: in their own queue or in the physical one. */
  predicate InItsQueue(db: Db, cat: Catalog, i: nat, b: nat) {
    WaitsOn(db, i, b) && db.attempts[i].jobType in cat
    && (db.boss[b].queue == db.attempts[i].jobType || db.boss[b].queue == cat[db.attempts[i].jobType])
  }

  predicate SameWork(db: Db, i: nat, j: nat) {
    i < |db.attempts| && j < |db.attempts|
    && db.attempts[i].jobType == db.attempts[j].jobType && db.attempts[i].key == db.attempts[j].key
  }

  /** A live row without a run. */
  predicate Unowned(db: Db, i: nat) {
    i < |db.attempts| && db.attempts[i].link.None?
    && (db.attempts[i].status.Queued? || db.attempts[i].status.Running? || db.attempts[i].status.RetryWait?)
  }

  ghost predicate NoActiveRun(db: Db, i: nat)
    requires i < |db.attempts|
  {
    forall r :: 0 <= r < |db.runs| && db.runs[r].jobType == db.attempts[i].jobType && db.runs[r].key == db.attempts[i].key ==>
      !db.runs[r].status.Queued? && !db.runs[r].status.Running? && !db.runs[r].status.RetryWait?
  }

  lemma QueueDecides(db: Db, cat: Catalog, i: nat, b: nat)
    requires WaitsOn(db, i, b)
    ensures CandidateAt(db, cat, GroupOf(db.attempts[i]), i) <==> InItsQueue(db, cat, i, b)
    ensures Misfit(db, cat, db.attempts[i]) <==> !InItsQueue(db, cat, i, b)
  {}

  lemma CandidateWaits(db: Db, cat: Catalog, g: Group, i: nat)
    requires CandidateAt(db, cat, g, i)
    ensures WaitsOn(db, i, db.attempts[i].bossId.value) && InItsQueue(db, cat, i, db.attempts[i].bossId.value)
  {}

  lemma NoneActive(db: Db, i: nat)
    requires i < |db.attempts|
    ensures FindActive(db.runs, db.attempts[i].jobType, db.attempts[i].key).None? <==> NoActiveRun(db, i)
  {}

  // --- rows that are parked ----------------------------------------------------------------

  /** A row of an unknown type, or whose job stands in any other queue, is parked for a human and its job closed. */
  lemma StrayRowIsParked(db: Db, cat: Catalog, i: nat, b: nat)
    requires Safe(db) && WaitsOn(db, i, b)
    requires db.attempts[i].jobType in cat ==>
               db.boss[b].queue != db.attempts[i].jobType && db.boss[b].queue != cat[db.attempts[i].jobType]
    ensures var db' := Reconcile(db, cat).0;
            && |db'.attempts| == |db.attempts| && |db'.boss| == |db.boss|
            && db'.attempts[i] == db.attempts[i].(status := NeedsHuman) && db'.boss[b] == db.boss[b].(state := Over)
  {
    QueueDecides(db, cat, i, b);
    EveryRowMeetsItsFate(db, cat);
    assert Settled(db, cat, Reconcile(db, cat).0, i);
    assert JobAt(db.attempts, i, b) && GivesUpJob(db, cat, i);
    JobsFollowRows(db, cat, b);
  }

  /** Two jobs in flight for the same work: nobody can tell which worker is at it, so both rows are parked. */
  lemma RivalsAreParked(db: Db, cat: Catalog, i: nat, j: nat, b: nat, c: nat)
    requires Safe(db) && i != j && SameWork(db, i, j) && InItsQueue(db, cat, i, b) && InItsQueue(db, cat, j, c)
    requires db.boss[b].state.InFlight? && db.boss[c].state.InFlight?
    ensures var db' := Reconcile(db, cat).0;
            && |db'.attempts| == |db.attempts| && |db'.boss| == |db.boss|
            && db'.attempts[i] == db.attempts[i].(status := NeedsHuman) && db'.boss[b] == db.boss[b].(state := Over)
  {
    var g := GroupOf(db.attempts[i]);
    QueueDecides(db, cat, i, b);
    QueueDecides(db, cat, j, c);
    assert InFlightAt(db, cat, g, i) && InFlightAt(db, cat, g, j);
    BestIsLeast(db, cat, g, |db.attempts|, i);
    EveryRowMeetsItsFate(db, cat);
    assert Settled(db, cat, Reconcile(db, cat).0, i);
    assert JobAt(db.attempts, i, b) && GivesUpJob(db, cat, i);
    JobsFollowRows(db, cat, b);
  }

  // --- rows that are adopted ---------------------------------------------------------------

  /** The run that row i was given: new, active, with one attempt, of the row's own type, key and business. */
  predicate OwnRun(db: Db, db': Db, i: nat)
    requires i < |db.attempts| && i < |db'.attempts|
  {
    var a, a' := db.attempts[i], db'.attempts[i];
    && a'.link.Some? && a'.link.value.sequence == 1 && |db.runs| <= a'.link.value.run < |db'.runs|
    && a' == a.(link := a'.link, status := a'.status)
    && db'.runs[a'.link.value.run] == Run(a.jobType, a.key, a.business, a'.status, 1, 0)
  }

  lemma AdoptedOnTables(db: Db, cat: Catalog, i: nat, b: nat)
    requires Safe(db) && WaitsOn(db, i, b) && Fate(db, cat, i) == Some(Adopted)
    ensures var db' := Reconcile(db, cat).0;
            && |db'.attempts| == |db.attempts| && OwnRun(db, db', i)
            && db'.attempts[i].status == (if db.attempts[i].status.Running? || db.boss[b].state.InFlight? then Running
                                          else if db.attempts[i].status.RetryWait? then RetryWait else Queued)
  {
    EveryRowMeetsItsFate(db, cat);
    assert Settled(db, cat, Reconcile(db, cat).0, i);
  }

  /**
   * The only live row of its work, in the right queue and without an active run,
   * is adopted: running if it says so or its job is in flight, otherwise as it was.
   */
  lemma LoneRowIsAdopted(db: Db, cat: Catalog, i: nat, b: nat)
    requires Safe(db) && WaitsOn(db, i, b) && NoActiveRun(db, i)
    requires db.attempts[i].jobType in cat
    requires db.boss[b].queue == db.attempts[i].jobType || db.boss[b].queue == cat[db.attempts[i].jobType]
    requires forall j: nat :: SameWork(db, i, j) && Unowned(db, j) ==> j == i
    ensures var db' := Reconcile(db, cat).0;
            && |db'.attempts| == |db.attempts| && OwnRun(db, db', i)
            && db'.attempts[i].status == (if db.attempts[i].status.Running? || db.boss[b].state.InFlight? then Running
                                          else if db.attempts[i].status.RetryWait? then RetryWait else Queued)
  {
    var g := GroupOf(db.attempts[i]);
    QueueDecides(db, cat, i, b);
    NoneActive(db, i);
    BestIsLeast(db, cat, g, |db.attempts|, i);
    forall j: nat | CandidateAt(db, cat, g, j) ensures j == i {
      CandidateWaits(db, cat, g, j);
      assert SameWork(db, i, j) && Unowned(db, j);
    }
    assert !Contested(db, cat, g);
    AdoptedOnTables(db, cat, i, b);
  }

  /** Of two rows for the same work, i is the one to keep. */
  predicate Preferred(db: Db, i: nat, j: nat, b: nat, c: nat)
    requires WaitsOn(db, i, b) && WaitsOn(db, j, c)
  {
    var x, y := db.attempts[i].status, db.attempts[j].status;
    if db.boss[b].state != db.boss[c].state then
      db.boss[b].state.InFlight? || (db.boss[b].state.Retry? && db.boss[c].state.Created?)
    else if x != y then x.Running? || (x.RetryWait? && y.Queued?)
    else db.boss[b].created < db.boss[c].created || (db.boss[b].created == db.boss[c].created && i < j)
  }

  /** Only these two live rows are for this work. */
  ghost predicate Pair(db: Db, i: nat, j: nat) {
    SameWork(db, i, j) && i != j && forall k: nat :: SameWork(db, i, k) && Unowned(db, k) ==> k == i || k == j
  }

  lemma PreferredWins(db: Db, cat: Catalog, i: nat, j: nat, b: nat, c: nat)
    requires Safe(db) && Pair(db, i, j) && InItsQueue(db, cat, i, b) && InItsQueue(db, cat, j, c)
    requires Preferred(db, i, j, b, c)
    ensures Winner(db, cat, GroupOf(db.attempts[i])) == Some(i)
  {
    var g := GroupOf(db.attempts[i]);
    QueueDecides(db, cat, i, b);
    QueueDecides(db, cat, j, c);
    BestIsLeast(db, cat, g, |db.attempts|, i);
    BestIsLeast(db, cat, g, |db.attempts|, j);
    var w := Winner(db, cat, g).value;
    CandidateWaits(db, cat, g, w);
    assert Unowned(db, w) && SameWork(db, i, w);
  }

  /**
   * Two rows for the same work, not both in flight: the one that is kept has the
   * job further on, or the row further on, or the older job, in this order. It is
   * adopted; the other one is cancelled, and its job closed unless they share it.
   */
  lemma PreferredIsAdopted(db: Db, cat: Catalog, i: nat, j: nat, b: nat, c: nat)
    requires Safe(db) && Pair(db, i, j) && InItsQueue(db, cat, i, b) && InItsQueue(db, cat, j, c) && NoActiveRun(db, i)
    requires !(db.boss[b].state.InFlight? && db.boss[c].state.InFlight?) && Preferred(db, i, j, b, c)
    ensures var db' := Reconcile(db, cat).0;
            && |db'.attempts| == |db.attempts| && |db'.boss| == |db.boss| && OwnRun(db, db', i)
            && db'.attempts[j] == db.attempts[j].(status := Cancelled)
            && (b != c ==> db'.boss[c] == db.boss[c].(state := Over))
  {
    PreferredWins(db, cat, i, j, b, c);
    PairNotContested(db, cat, i, j, b, c);
    NoneActive(db, i);
    AdoptedOnTables(db, cat, i, b);
    LoserIsCancelled(db, cat, j, c);
  }

  lemma PairNotContested(db: Db, cat: Catalog, i: nat, j: nat, b: nat, c: nat)
    requires Pair(db, i, j) && InItsQueue(db, cat, i, b) && InItsQueue(db, cat, j, c)
    requires !(db.boss[b].state.InFlight? && db.boss[c].state.InFlight?)
    ensures !Contested(db, cat, GroupOf(db.attempts[i]))
  {
    var g := GroupOf(db.attempts[i]);
    forall k: nat | InFlightAt(db, cat, g, k) ensures k == i || k == j {
      CandidateWaits(db, cat, g, k);
      assert Unowned(db, k) && SameWork(db, i, k);
    }
  }

  lemma LoserIsCancelled(db: Db, cat: Catalog, j: nat, c: nat)
    requires Safe(db) && WaitsOn(db, j, c) && Fate(db, cat, j) == Some(DuplicateCancelled)
    ensures var db' := Reconcile(db, cat).0;
            && |db'.attempts| == |db.attempts| && |db'.boss| == |db.boss|
            && db'.attempts[j] == db.attempts[j].(status := Cancelled)
            && (KeptJob(db, cat, GroupOf(db.attempts[j])) != Some(c) ==> db'.boss[c] == db.boss[c].(state := Over))
  {
    EveryRowMeetsItsFate(db, cat);
    assert Settled(db, cat, Reconcile(db, cat).0, j);
    assert JobAt(db.attempts, j, c);
    JobsFollowRows(db, cat, c);
    if KeptJob(db, cat, GroupOf(db.attempts[j])) != Some(c) {
      assert GivesUpJob(db, cat, j);
    }
  }

  /** An active run without its current attempt takes the row into its own sequence instead of a new run. */
  lemma LostAttemptIsReplaced(snap: Db, cat: Catalog, i: nat, r: nat)
    requires i < |snap.attempts| && Winner(snap, cat, GroupOf(snap.attempts[i])) == Some(i)
    requires !Contested(snap, cat, GroupOf(snap.attempts[i]))
    requires FindActive(snap.runs, snap.attempts[i].jobType, snap.attempts[i].key) == Some(r)
    requires FindLink(snap.attempts, Link(r, snap.runs[r].current)).None?
    ensures var db' := SettleGroup(snap, cat, snap, GroupOf(snap.attempts[i])).0;
            && db'.runs == snap.runs && |db'.attempts| == |snap.attempts|
            && db'.attempts[i] == snap.attempts[i].(link := Some(Link(r, snap.runs[r].current)),
                                                    status := AdoptedStatus(snap, snap.attempts[i]))
  {}

  // --- rows that come too late, and rows nothing delivers ------------------------------------

  /** No two rows of this work have their job in flight. */
  ghost predicate Uncontested(db: Db, cat: Catalog, i: nat) {
    forall j: nat, k: nat, b: nat, c: nat ::
      j < k && SameWork(db, i, j) && SameWork(db, i, k) && InItsQueue(db, cat, j, b) && InItsQueue(db, cat, k, c) ==>
        !(db.boss[b].state.InFlight? && db.boss[c].state.InFlight?)
  }

  lemma UncontestedIs(db: Db, cat: Catalog, i: nat)
    requires i < |db.attempts| && Uncontested(db, cat, i)
    ensures !Contested(db, cat, GroupOf(db.attempts[i]))
  {
    var g := GroupOf(db.attempts[i]);
    forall j: nat, k: nat | j < k < |db.attempts| && InFlightAt(db, cat, g, j) && InFlightAt(db, cat, g, k) ensures false {
      CandidateWaits(db, cat, g, j);
      CandidateWaits(db, cat, g, k);
      assert SameWork(db, i, j) && SameWork(db, i, k);
    }
  }

  /** Work that a run is already doing: the row is a duplicate and is cancelled. */
  lemma RowBesideRunIsCancelled(db: Db, cat: Catalog, i: nat, b: nat)
    requires Safe(db) && InItsQueue(db, cat, i, b) && Uncontested(db, cat, i) && !NoActiveRun(db, i)
    ensures var db' := Reconcile(db, cat).0;
            |db'.attempts| == |db.attempts| && db'.attempts[i] == db.attempts[i].(status := Cancelled)
  {
    var g := GroupOf(db.attempts[i]);
    QueueDecides(db, cat, i, b);
    UncontestedIs(db, cat, i);
    NoneActive(db, i);
    BestIsLeast(db, cat, g, |db.attempts|, i);
    LoserIsCancelled(db, cat, i, b);
  }

  /** No job will deliver this row. */
  ghost predicate Undelivered(db: Db, i: nat) {
    Unowned(db, i) && forall b: nat :: !WaitsOn(db, i, b)
  }

  /** A row that nothing delivers is cancelled with its work's rows if there are any that are delivered, else left alone. */
  lemma UndeliveredFollows(db: Db, cat: Catalog, i: nat, j: nat, b: nat)
    requires Safe(db) && Undelivered(db, i) && SameWork(db, i, j) && InItsQueue(db, cat, j, b) && Uncontested(db, cat, i)
    ensures var db' := Reconcile(db, cat).0;
            |db'.attempts| == |db.attempts| && db'.attempts[i] == db.attempts[i].(status := Cancelled)
  {
    var g := GroupOf(db.attempts[i]);
    QueueDecides(db, cat, j, b);
    UncontestedIs(db, cat, i);
    BestIsLeast(db, cat, g, |db.attempts|, j);
    NotDelivered(db, i);
    EveryRowMeetsItsFate(db, cat);
    assert Settled(db, cat, Reconcile(db, cat).0, i);
  }

  lemma NotDelivered(db: Db, i: nat)
    requires Undelivered(db, i)
    ensures !Delivered(db, db.attempts[i])
  {
    if db.attempts[i].bossId.Some? {
      assert !WaitsOn(db, i, db.attempts[i].bossId.value);
    }
  }

  lemma UndeliveredAloneIsLeft(db: Db, cat: Catalog, i: nat)
    requires Safe(db) && Undelivered(db, i)
    requires forall j: nat, b: nat :: SameWork(db, i, j) ==> !InItsQueue(db, cat, j, b)
    ensures var db' := Reconcile(db, cat).0; |db'.attempts| == |db.attempts| && db'.attempts[i] == db.attempts[i]
  {
    var g := GroupOf(db.attempts[i]);
    if Winner(db, cat, g).Some? {
      CandidateWaits(db, cat, g, Winner(db, cat, g).value);
      assert SameWork(db, i, Winner(db, cat, g).value);
    }
    NotDelivered(db, i);
    EveryRowMeetsItsFate(db, cat);
    assert Settled(db, cat, Reconcile(db, cat).0, i);
  }

  /** Rows that have a run or are closed are none of the repair's business. */
  lemma OwnedRowsStay(db: Db, cat: Catalog, i: nat)
    requires Safe(db) && i < |db.attempts| && !Unowned(db, i)
    ensures var db' := Reconcile(db, cat).0; |db'.attempts| == |db.attempts| && db'.attempts[i] == db.attempts[i]
  {
    EveryRowMeetsItsFate(db, cat);
    assert Settled(db, cat, Reconcile(db, cat).0, i);
  }

  // --- the trail -------------------------------------------------------------------------------

  lemma ChangedRowsHaveFates(db: Db, cat: Catalog, i: nat)
    requires Safe(db) && i < |db.attempts|
    ensures |Reconcile(db, cat).0.attempts| == |db.attempts|
    ensures Reconcile(db, cat).0.attempts[i] == db.attempts[i] <==> Fate(db, cat, i).None?
  {
    EveryRowMeetsItsFate(db, cat);
    assert Settled(db, cat, Reconcile(db, cat).0, i);
  }

  lemma FateOnTables(db: Db, cat: Catalog, i: nat)
    requires Safe(db) && i < |db.attempts| && Fate(db, cat, i).Some?
    ensures var db', kind := Reconcile(db, cat).0, Fate(db, cat, i).value;
            && |db'.attempts| == |db.attempts|
            && (kind == Adopted <==> db'.attempts[i].link != db.attempts[i].link)
            && (kind == DuplicateCancelled <==> db'.attempts[i].status.Cancelled?)
            && (kind == Incompatible || kind == Ambiguous <==> db'.attempts[i].status.NeedsHuman?)
  {
    EveryRowMeetsItsFate(db, cat);
    assert Settled(db, cat, Reconcile(db, cat).0, i) && Legacy(db.attempts[i]);
  }

  /** One event for every row that changed, none for the others, and of the kind that the change shows. */
  lemma EventsTellTables(db: Db, cat: Catalog)
    requires Safe(db)
    ensures var (db', events) := Reconcile(db, cat);
            && |db'.attempts| == |db.attempts|
            && (forall i: nat :: i < |db.attempts| ==>
                  Told(events, i) == if db'.attempts[i] == db.attempts[i] then 0 else 1)
            && (forall e :: e in events ==>
                  && e.attempt < |db.attempts|
                  && (e.kind == Adopted <==> db'.attempts[e.attempt].link != db.attempts[e.attempt].link)
                  && (e.kind == DuplicateCancelled <==> db'.attempts[e.attempt].status.Cancelled?)
                  && (e.kind == Incompatible || e.kind == Ambiguous <==> db'.attempts[e.attempt].status.NeedsHuman?))
  {
    var events := Reconcile(db, cat).1;
    EventsTellFates(db, cat);
    forall i: nat | i < |db.attempts|
      ensures Reconcile(db, cat).0.attempts[i] == db.attempts[i] <==> Fate(db, cat, i).None?
    {
      ChangedRowsHaveFates(db, cat, i);
    }
    forall e | e in events
      ensures var a, a' := db.attempts[e.attempt], Reconcile(db, cat).0.attempts[e.attempt];
              && (e.kind == Adopted <==> a'.link != a.link)
              && (e.kind == DuplicateCancelled <==> a'.status.Cancelled?)
              && (e.kind == Incompatible || e.kind == Ambiguous <==> a'.status.NeedsHuman?)
    {
      FateOnTables(db, cat, e.attempt);
    }
  }
}
