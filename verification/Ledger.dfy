// Logical runs, their physical attempts and the pg-boss rows that deliver them.
// Every function from Db to Db is one committed transaction; a transaction that
// throws rolls back and is no step at all.
module Ledger {
  import opened Bytes

  datatype Status = Queued | Running | RetryWait | Succeeded | Failed | NeedsHuman | Skipped | Cancelled | Stale

  /** The statuses of the partial unique index and of every "live" filter. */
  predicate Active(s: Status) {
    s.Queued? || s.Running? || s.RetryWait?
  }

  datatype BossState = Created | Retry | InFlight | Over

  predicate BossLive(s: BossState) {
    !s.Over?
  }

  datatype Run = Run(jobType: string, key: string, business: Option<string>, status: Status,
                     current: nat, duplicates: nat)

  /** run_id and attempt_sequence; absent together on rows older than logical runs. */
  datatype Link = Link(run: nat, sequence: nat)

  /** `key` is the idempotency key of the row, or what stands in for it when the row has none. */
  datatype Attempt = Attempt(jobType: string, key: string, business: Option<string>,
                             bossId: Option<nat>, link: Option<Link>, status: Status, attempts: nat)

  /** `created` orders jobs by age; it is compared only for rows older than logical runs. */
  datatype BossJob = BossJob(queue: string, state: BossState, created: nat)

  /** Rows are numbered by their position; nothing here deletes a row. */
  datatype Db = Db(runs: seq<Run>, attempts: seq<Attempt>, boss: seq<BossJob>)

  datatype Command = Command(name: string, queue: string, key: string, business: Option<string>)

  // --- queries ----------------------------------------------------------------

  predicate ActiveFor(run: Run, name: string, key: string) {
    run.jobType == name && run.key == key && Active(run.status)
  }

  function FindActive(runs: seq<Run>, name: string, key: string): (found: Option<nat>)
    ensures found.Some? ==> found.value < |runs| && ActiveFor(runs[found.value], name, key)
    ensures found.None? ==> forall r :: 0 <= r < |runs| ==> !ActiveFor(runs[r], name, key)
  {
    if runs == [] then None
    else if ActiveFor(runs[|runs| - 1], name, key) then Some(|runs| - 1)
    else FindActive(runs[..|runs| - 1], name, key)
  }

  function FindLink(attempts: seq<Attempt>, link: Link): (found: Option<nat>)
    ensures found.Some? ==> found.value < |attempts| && attempts[found.value].link == Some(link)
    ensures found.None? ==> forall i :: 0 <= i < |attempts| ==> attempts[i].link != Some(link)
  {
    if attempts == [] then None
    else if attempts[|attempts| - 1].link == Some(link) then Some(|attempts| - 1)
    else FindLink(attempts[..|attempts| - 1], link)
  }

  function FindBoss(attempts: seq<Attempt>, bossId: nat): (found: Option<nat>)
    ensures found.Some? ==> found.value < |attempts| && attempts[found.value].bossId == Some(bossId)
    ensures found.None? ==> forall i :: 0 <= i < |attempts| ==> attempts[i].bossId != Some(bossId)
  {
    if attempts == [] then None
    else if attempts[|attempts| - 1].bossId == Some(bossId) then Some(|attempts| - 1)
    else FindBoss(attempts[..|attempts| - 1], bossId)
  }

  predicate Of(a: Attempt, run: nat) {
    a.link.Some? && a.link.value.run == run
  }

  /** The attempt of a run with the highest sequence. */
  function LatestOf(attempts: seq<Attempt>, run: nat): (found: Option<nat>)
    ensures found.Some? ==> found.value < |attempts| && Of(attempts[found.value], run)
    ensures found.Some? ==> forall i :: 0 <= i < |attempts| && Of(attempts[i], run) ==>
                              attempts[i].link.value.sequence <= attempts[found.value].link.value.sequence
    ensures found.None? ==> forall i :: 0 <= i < |attempts| ==> !Of(attempts[i], run)
  {
    if attempts == [] then None
    else
      var best := LatestOf(attempts[..|attempts| - 1], run);
      var last := attempts[|attempts| - 1];
      if Of(last, run) && (best.None? || attempts[best.value].link.value.sequence <= last.link.value.sequence)
      then Some(|attempts| - 1) else best
  }

  // --- enqueue ------------------------------------------------------------------

  datatype EnqueueResult =
    | Accepted(run: nat, attempt: nat, bossId: nat)
    | Duplicate(run: nat, status: Status, latest: Option<nat>, sequence: nat, deliveredBy: Option<nat>)

  function EnqueueOne(db: Db, c: Command): (Db, EnqueueResult) {
    match FindActive(db.runs, c.name, c.key)
    case Some(r) =>
      var run := db.runs[r];
      var latest := LatestOf(db.attempts, r);
      (db.(runs := db.runs[r := run.(duplicates := run.duplicates + 1)]),
       Duplicate(r, run.status, latest, run.current,
                 if latest.Some? then db.attempts[latest.value].bossId else None))
    case None =>
      var r, a, b := |db.runs|, |db.attempts|, |db.boss|;
      (Db(db.runs + [Run(c.name, c.key, c.business, Queued, 1, 0)],
          db.attempts + [Attempt(c.name, c.key, c.business, Some(b), Some(Link(r, 1)), Queued, 0)],
          db.boss + [BossJob(c.queue, Created, b)]),
       Accepted(r, a, b))
  }

  /** The commands of one transaction, in order. */
  function EnqueueAll(db: Db, cs: seq<Command>): (r: (Db, seq<EnqueueResult>))
    ensures |r.1| == |cs|
    decreases |cs|
  {
    if cs == [] then (db, [])
    else
      var (db', first) := EnqueueOne(db, cs[0]);
      var (db'', rest) := EnqueueAll(db', cs[1..]);
      (db'', [first] + rest)
  }

  // --- pauses -------------------------------------------------------------------

  datatype Continuation =
    | Scheduled(run: nat, attempt: nat, bossId: nat)
    | Existing(run: nat, attempt: nat, bossId: nat)
    | LegacyPause
    | Outdated

  predicate IsCurrent(runs: seq<Run>, link: Link) {
    link.run < |runs| && runs[link.run].current == link.sequence
  }

  /** The claimed, current attempt of a running run. */
  predicate Working(db: Db, i: nat)
    requires i < |db.attempts|
  {
    var a := db.attempts[i];
    && a.status.Running?
    && (a.link.Some? ==> IsCurrent(db.runs, a.link.value) && db.runs[a.link.value.run].status.Running?)
  }

  function Saturated(n: nat): nat {
    if n == 0 then 0 else n - 1
  }

  function Successor(db: Db, i: nat): Attempt
    requires i < |db.attempts| && db.attempts[i].link.Some? && db.attempts[i].link.value.run < |db.runs|
  {
    var a := db.attempts[i];
    var link := a.link.value;
    Attempt(a.jobType, a.key, a.business, Some(|db.boss|), Some(Link(link.run, link.sequence + 1)), Queued, 0)
  }

  /** The paused attempt waits, its successor is queued, and the run moves on to the successor. */
  function Schedule(db: Db, i: nat, queue: string): Db
    requires i < |db.attempts| && db.attempts[i].link.Some? && db.attempts[i].link.value.run < |db.runs|
  {
    var a := db.attempts[i];
    var link := a.link.value;
    Db(db.runs[link.run := db.runs[link.run].(status := RetryWait, current := link.sequence + 1)],
       db.attempts[i := a.(status := RetryWait, attempts := Saturated(a.attempts))] + [Successor(db, i)],
       db.boss + [BossJob(queue, Created, |db.boss|)])
  }

  /** continueAfterRateLimit. A successor without a delivery blocks the insert of another one. */
  function Continue(db: Db, bossId: nat, queue: string): (Db, Continuation) {
    match FindBoss(db.attempts, bossId)
    case None => (db, Outdated)
    case Some(i) =>
      var a := db.attempts[i];
      if a.link.None? then (db, if a.status.Running? then LegacyPause else Outdated)
      else
        var r, next := a.link.value.run, a.link.value.sequence + 1;
        match FindLink(db.attempts, Link(r, next))
        case Some(j) =>
          if db.attempts[j].bossId.Some? then
            if IsCurrent(db.runs, Link(r, next)) && Active(db.runs[r].status)
            then (db, Existing(r, j, db.attempts[j].bossId.value))
            else (db, Outdated)
          else (db, Outdated)
        case None =>
          if !Working(db, i) then (db, Outdated)
          else (Schedule(db, i, queue), Scheduled(r, |db.attempts|, |db.boss|))
  }

  // --- the life of a delivery -----------------------------------------------------

  /** Sets an attempt's status, and its run's when it has one. */
  function SetBoth(db: Db, i: nat, s: Status): Db
    requires i < |db.attempts|
  {
    var a := db.attempts[i];
    var attempts := db.attempts[i := a.(status := s)];
    if a.link.Some? && a.link.value.run < |db.runs|
    then db.(attempts := attempts,
             runs := db.runs[a.link.value.run := db.runs[a.link.value.run].(status := s)])
    else db.(attempts := attempts)
  }

  predicate Claimable(db: Db, i: nat)
    requires i < |db.attempts|
  {
    var a := db.attempts[i];
    && a.status.Queued?
    && (a.link.Some? ==> IsCurrent(db.runs, a.link.value)
                         && var s := db.runs[a.link.value.run].status; s.Queued? || s.RetryWait?)
  }

  function Counted(db: Db, i: nat): (db': Db)
    requires i < |db.attempts|
  {
    db.(attempts := db.attempts[i := db.attempts[i].(attempts := db.attempts[i].attempts + 1)])
  }

  function Claim(db: Db, bossId: nat): Db {
    match FindBoss(db.attempts, bossId)
    case None => db
    case Some(i) =>
      if !Claimable(db, i) then db
      else SetBoth(Counted(db, i), i, Running)
  }

  /** How a claimed delivery may end, other than by a pause. */
  datatype Outcome = Done | NothingToDo | Error(needsHuman: bool, final: bool)

  function OutcomeStatus(o: Outcome): Status {
    match o
    case Done => Succeeded
    case NothingToDo => Skipped
    case Error(needsHuman, final) => if needsHuman then NeedsHuman else if final then Failed else Queued
  }

  /** Success and failure check the run; a skip checks only the attempt and the run's sequence. */
  function Finish(db: Db, i: nat, o: Outcome): Db {
    if i >= |db.attempts| then db
    else
      var a := db.attempts[i];
      if o.NothingToDo? then
        if !a.status.Running? then db
        else if a.link.Some? && !IsCurrent(db.runs, a.link.value)
        then db.(attempts := db.attempts[i := a.(status := Skipped)])
        else SetBoth(db, i, Skipped)
      else if Working(db, i) then SetBoth(db, i, OutcomeStatus(o)) else db
  }

  /** A delivery for an archived business closes its attempt and its run, whatever the sequence. */
  function SkipArchived(db: Db, bossId: nat): Db {
    match FindBoss(db.attempts, bossId)
    case None => db
    case Some(i) =>
      var a := db.attempts[i];
      if !Active(a.status) then db
      else if a.link.Some? && a.link.value.run < |db.runs| && Active(db.runs[a.link.value.run].status)
      then SetBoth(db, i, Cancelled)
      else db.(attempts := db.attempts[i := a.(status := Cancelled)])
  }

  /** A pause of an attempt that has no run only parks the row; its successor is enqueued separately. */
  function ParkLegacy(db: Db, i: nat): Db {
    if i < |db.attempts| && db.attempts[i].status.Running? && db.attempts[i].link.None?
    then
      var a := db.attempts[i];
      db.(attempts := db.attempts[i := a.(status := RetryWait, attempts := Saturated(a.attempts))])
    else db
  }

  // --- updates over whole tables --------------------------------------------------

  /** UPDATE ... SET status = s over the chosen attempts and runs. */
  function Rewrite(db: Db, chosen: seq<bool>, s: Status, closing: seq<bool>, t: Status): Db
    requires |chosen| == |db.attempts| && |closing| == |db.runs|
  {
    db.(attempts := seq(|db.attempts|, i requires 0 <= i < |db.attempts| =>
                      if chosen[i] then db.attempts[i].(status := s) else db.attempts[i]),
        runs := seq(|db.runs|, r requires 0 <= r < |db.runs| =>
                  if closing[r] then db.runs[r].(status := t) else db.runs[r]))
  }

  /** Whether the current attempt of a run is among the chosen. */
  predicate CurrentChosen(db: Db, chosen: seq<bool>, r: nat)
    requires r < |db.runs| && |chosen| == |db.attempts|
  {
    exists i :: 0 <= i < |chosen| && chosen[i] && db.attempts[i].link == Some(Link(r, db.runs[r].current))
  }

  predicate Delivered(db: Db, a: Attempt) {
    a.bossId.Some? && a.bossId.value < |db.boss| && BossLive(db.boss[a.bossId.value].state)
  }

  /** Live rows nothing will deliver: without a run, or current in an active one. */
  predicate Ghost(db: Db, a: Attempt) {
    && Active(a.status) && !Delivered(db, a)
    && (a.link.Some? ==> IsCurrent(db.runs, a.link.value) && Active(db.runs[a.link.value.run].status))
  }

  function Ghosts(db: Db): (chosen: seq<bool>)
    ensures |chosen| == |db.attempts|
  {
    seq(|db.attempts|, i requires 0 <= i < |db.attempts| => Ghost(db, db.attempts[i]))
  }

  function ActiveChosen(db: Db, chosen: seq<bool>): (closing: seq<bool>)
    requires |chosen| == |db.attempts|
    ensures |closing| == |db.runs|
  {
    seq(|db.runs|, r requires 0 <= r < |db.runs| => Active(db.runs[r].status) && CurrentChosen(db, chosen, r))
  }

  /** markStaleJobs */
  function MarkStale(db: Db): Db {
    Rewrite(db, Ghosts(db), Stale, ActiveChosen(db, Ghosts(db)), Failed)
  }

  /** A row that says running while its pg-boss job is still in flight from before the restart. */
  predicate Orphan(db: Db, owned: set<string>, a: Attempt) {
    && a.status.Running? && a.jobType in owned
    && a.bossId.Some? && a.bossId.value < |db.boss| && db.boss[a.bossId.value].state.InFlight?
  }

  function Orphans(db: Db, owned: set<string>): (chosen: seq<bool>)
    ensures |chosen| == |db.attempts|
  {
    seq(|db.attempts|, i requires 0 <= i < |db.attempts| => Orphan(db, owned, db.attempts[i]))
  }

  function RunningChosen(db: Db, chosen: seq<bool>): (reset: seq<bool>)
    requires |chosen| == |db.attempts|
    ensures |reset| == |db.runs|
  {
    seq(|db.runs|, r requires 0 <= r < |db.runs| => db.runs[r].status.Running? && CurrentChosen(db, chosen, r))
  }

  /** requeueOrphanedBuildJobs: the rows go back to the queue, and so do their pg-boss jobs. */
  function Requeue(db: Db, owned: set<string>): Db {
    var chosen := Orphans(db, owned);
    Rewrite(db, chosen, Queued, RunningChosen(db, chosen), Queued).(
      boss := seq(|db.boss|, b requires 0 <= b < |db.boss| =>
                if exists i :: 0 <= i < |chosen| && chosen[i] && db.attempts[i].bossId == Some(b)
                then db.boss[b].(state := Retry) else db.boss[b]))
  }

  /** What archiving clears: work in flight, and failures that would keep asking for a decision. */
  predicate Cancellable(s: Status) {
    Active(s) || s.Failed? || s.NeedsHuman?
  }

  function AttemptsOf(db: Db, business: string): (chosen: seq<bool>)
    ensures |chosen| == |db.attempts|
  {
    seq(|db.attempts|, i requires 0 <= i < |db.attempts| =>
      db.attempts[i].business == Some(business) && Cancellable(db.attempts[i].status))
  }

  function RunsOf(db: Db, business: string): (closing: seq<bool>)
    ensures |closing| == |db.runs|
  {
    seq(|db.runs|, r requires 0 <= r < |db.runs| =>
      db.runs[r].business == Some(business) && Cancellable(db.runs[r].status))
  }

  /** The job part of archiving a business. */
  function CancelBusiness(db: Db, business: string): Db {
    Rewrite(db, AttemptsOf(db, business), Cancelled, RunsOf(db, business), Cancelled)
  }
}
