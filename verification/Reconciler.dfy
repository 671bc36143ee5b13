// The startup repair of live attempts that are older than logical runs: each is
// adopted by a run, cancelled as a duplicate, parked for a human, or left for
// the stale pass.
module Reconciler {
  import opened Bytes
  import opened Ledger
  import opened LedgerSafety

  /** Known job types and the physical queue of each. */
  type Catalog = map<string, string>

  datatype Group = Group(name: string, key: string)

  datatype Kind = Adopted | DuplicateCancelled | Incompatible | Ambiguous

  datatype Event = Event(kind: Kind, attempt: nat)

  // --- what the pass looks at --------------------------------------------------------

  function GroupOf(a: Attempt): Group {
    Group(a.jobType, a.key)
  }

  /** Rows the pass may touch: live and without a run. */
  predicate Legacy(a: Attempt) {
    a.link.None? && Active(a.status)
  }

  predicate LiveLegacy(db: Db, a: Attempt) {
    Legacy(a) && Delivered(db, a)
  }

  predicate Compatible(db: Db, cat: Catalog, a: Attempt)
    requires Delivered(db, a)
  {
    a.jobType in cat && var queue := db.boss[a.bossId.value].queue; queue == a.jobType || queue == cat[a.jobType]
  }

  predicate Misfit(db: Db, cat: Catalog, a: Attempt) {
    LiveLegacy(db, a) && !Compatible(db, cat, a)
  }

  predicate Candidate(db: Db, cat: Catalog, a: Attempt) {
    LiveLegacy(db, a) && Compatible(db, cat, a)
  }

  predicate CandidateAt(db: Db, cat: Catalog, g: Group, i: nat) {
    i < |db.attempts| && Candidate(db, cat, db.attempts[i]) && GroupOf(db.attempts[i]) == g
  }

  predicate InFlightAt(db: Db, cat: Catalog, g: Group, i: nat) {
    CandidateAt(db, cat, g, i) && db.boss[db.attempts[i].bossId.value].state.InFlight?
  }

  /** Two different workers may hold the group's job at this moment. */
  predicate Contested(db: Db, cat: Catalog, g: Group) {
    exists i: nat, j: nat :: i < j < |db.attempts| && InFlightAt(db, cat, g, i) && InFlightAt(db, cat, g, j)
  }

  // --- the winner ----------------------------------------------------------------------

  function Rank(db: Db, a: Attempt): (int, int, int)
    requires Delivered(db, a)
  {
    var job := db.boss[a.bossId.value];
    (if job.state.InFlight? then 0 else if job.state.Retry? then 1 else 2,
     if a.status.Running? then 0 else if a.status.RetryWait? then 1 else 2,
     job.created)
  }

  predicate Before(x: (int, int, int), y: (int, int, int)) {
    x.0 < y.0 || (x.0 == y.0 && (x.1 < y.1 || (x.1 == y.1 && x.2 < y.2)))
  }

  /** The best candidate among the first n rows; earlier rows win ties. */
  function Best(db: Db, cat: Catalog, g: Group, n: nat): (best: Option<nat>)
    requires n <= |db.attempts|
    ensures best.Some? ==> best.value < n && CandidateAt(db, cat, g, best.value)
    ensures best.None? ==> forall i: nat :: i < n ==> !CandidateAt(db, cat, g, i)
  {
    if n == 0 then None
    else
      var best := Best(db, cat, g, n - 1);
      if CandidateAt(db, cat, g, n - 1)
         && (best.None? || Before(Rank(db, db.attempts[n - 1]), Rank(db, db.attempts[best.value])))
      then Some(n - 1) else best
  }

  function Winner(db: Db, cat: Catalog, g: Group): Option<nat> {
    Best(db, cat, g, |db.attempts|)
  }

  lemma {:induction false} BestIsLeast(db: Db, cat: Catalog, g: Group, n: nat, i: nat)
    requires n <= |db.attempts| && i < n && CandidateAt(db, cat, g, i)
    ensures var best := Best(db, cat, g, n);
            best.Some? && !Before(Rank(db, db.attempts[i]), Rank(db, db.attempts[best.value]))
            && (best.value <= i || Before(Rank(db, db.attempts[best.value]), Rank(db, db.attempts[i])))
    decreases n
  {
    if i < n - 1 {
      BestIsLeast(db, cat, g, n - 1, i);
    }
  }

  /** A job that pg-boss has in flight beats one it has not. */
  lemma InFlightWins(db: Db, cat: Catalog, g: Group, i: nat)
    requires InFlightAt(db, cat, g, i) && !Contested(db, cat, g)
    ensures Winner(db, cat, g) == Some(i)
  {
    BestIsLeast(db, cat, g, |db.attempts|, i);
    var w := Winner(db, cat, g).value;
    assert InFlightAt(db, cat, g, w);
  }

  function AdoptedStatus(db: Db, a: Attempt): (s: Status)
    requires Delivered(db, a)
    ensures Active(s)
  {
    if a.status.Running? || db.boss[a.bossId.value].state.InFlight? then Running
    else if a.status.RetryWait? then RetryWait
    else Queued
  }

  // --- the steps -----------------------------------------------------------------------

  function CloseBoss(boss: seq<BossJob>, closing: seq<bool>, attempts: seq<Attempt>): (boss': seq<BossJob>)
    requires |closing| == |attempts|
    ensures |boss'| == |boss|
  {
    seq(|boss|, b requires 0 <= b < |boss| =>
      if exists i :: 0 <= i < |closing| && closing[i] && attempts[i].bossId == Some(b)
      then boss[b].(state := Over) else boss[b])
  }

  /** cancelAttempt over the chosen rows: status and, where asked, the pg-boss job. */
  function CancelAttempts(db: Db, chosen: seq<bool>, s: Status, closing: seq<bool>): Db
    requires |chosen| == |db.attempts| && |closing| == |db.attempts|
  {
    db.(attempts := seq(|db.attempts|, i requires 0 <= i < |db.attempts| =>
                      if chosen[i] then db.attempts[i].(status := s) else db.attempts[i]),
        boss := CloseBoss(db.boss, closing, db.attempts))
  }

  /** One event for each chosen row, in row order. */
  function EventsOf(kind: Kind, chosen: seq<bool>): (events: seq<Event>)
    decreases |chosen|
  {
    if chosen == [] then []
    else
      var n := |chosen| - 1;
      EventsOf(kind, chosen[..n]) + if chosen[n] then [Event(kind, n)] else []
  }

  function Misfits(db: Db, cat: Catalog): (chosen: seq<bool>)
    ensures |chosen| == |db.attempts|
  {
    seq(|db.attempts|, i requires 0 <= i < |db.attempts| => Misfit(db, cat, db.attempts[i]))
  }

  /** The rows of a group that are still live and without a run. */
  function Siblings(db: Db, g: Group): (chosen: seq<bool>)
    ensures |chosen| == |db.attempts|
  {
    seq(|db.attempts|, i requires 0 <= i < |db.attempts| => Legacy(db.attempts[i]) && GroupOf(db.attempts[i]) == g)
  }

  /** Siblings whose pg-boss job is not the one being kept. */
  function BossesToClose(db: Db, g: Group, keeper: nat): (closing: seq<bool>)
    requires keeper < |db.attempts|
    ensures |closing| == |db.attempts|
  {
    var chosen := Siblings(db, g);
    seq(|chosen|, i requires 0 <= i < |chosen| => chosen[i] && db.attempts[i].bossId != db.attempts[keeper].bossId)
  }

  /** The group's active run and the attempt that is current in it, where there are any. */
  function Canonical(db: Db, g: Group): (Option<nat>, Option<nat>) {
    var run := FindActive(db.runs, g.name, g.key);
    (run, if run.Some? then FindLink(db.attempts, Link(run.value, db.runs[run.value].current)) else None)
  }

  /** Gives the winner to the group's active run, or to a new one. */
  function Adopt(db: Db, g: Group, i: nat, s: Status): Db
    requires i < |db.attempts|
  {
    var a := db.attempts[i];
    match Canonical(db, g).0
    case Some(r) =>
      db.(attempts := db.attempts[i := a.(link := Some(Link(r, db.runs[r].current)), status := s)])
    case None =>
      db.(runs := db.runs + [Run(g.name, g.key, a.business, s, 1, 0)],
          attempts := db.attempts[i := a.(link := Some(Link(|db.runs|, 1)), status := s)])
  }

  /** One group of the snapshot, settled in the present tables. */
  function SettleGroup(snap: Db, cat: Catalog, db: Db, g: Group): (Db, seq<Event>)
    requires |snap.attempts| == |db.attempts|
  {
    if Contested(snap, cat, g) then
      var chosen := Siblings(db, g);
      (CancelAttempts(db, chosen, NeedsHuman, chosen), EventsOf(Ambiguous, chosen))
    else
      var best, canonical := Winner(snap, cat, g), Canonical(db, g).1;
      if best.None? then (db, [])
      else
        var adopting := canonical.None?;
        var keeper := if adopting then best.value else canonical.value;
        var settled := if adopting
                       then Adopt(db, g, best.value, AdoptedStatus(snap, snap.attempts[best.value])) else db;
        var chosen := Siblings(settled, g);
        (CancelAttempts(settled, chosen, Cancelled, BossesToClose(settled, g, keeper)),
         (if adopting then [Event(Adopted, best.value)] else []) + EventsOf(DuplicateCancelled, chosen))
  }

  /** The groups with a candidate, in the order their first candidate appears. */
  function Groups(db: Db, cat: Catalog, n: nat): (gs: seq<Group>)
    requires n <= |db.attempts|
    ensures forall g :: g in gs <==> exists i: nat :: i < n && CandidateAt(db, cat, g, i)
    ensures forall x, y :: 0 <= x < y < |gs| ==> gs[x] != gs[y]
  {
    if n == 0 then []
    else
      var gs := Groups(db, cat, n - 1);
      var a := db.attempts[n - 1];
      if Candidate(db, cat, a) && GroupOf(a) !in gs then
        assert CandidateAt(db, cat, GroupOf(a), n - 1);
        gs + [GroupOf(a)]
      else gs
  }

  function SettleAll(snap: Db, cat: Catalog, db: Db, gs: seq<Group>): (r: (Db, seq<Event>))
    requires |snap.attempts| == |db.attempts|
    ensures |r.0.attempts| == |db.attempts|
    decreases |gs|
  {
    if gs == [] then (db, [])
    else
      var (next, first) := SettleGroup(snap, cat, db, gs[0]);
      var (last, rest) := SettleAll(snap, cat, next, gs[1..]);
      (last, first + rest)
  }

  function ParkMisfits(db: Db, cat: Catalog): (db': Db)
    ensures |db'.attempts| == |db.attempts|
  {
    CancelAttempts(db, Misfits(db, cat), NeedsHuman, Misfits(db, cat))
  }

  /** One pass: park the misfits, then settle every group with a candidate. */
  function Reconcile(db: Db, cat: Catalog): (r: (Db, seq<Event>))
    ensures |r.0.attempts| == |db.attempts|
  {
    var (db', events) := SettleAll(db, cat, ParkMisfits(db, cat), Groups(db, cat, |db.attempts|));
    (db', EventsOf(Incompatible, Misfits(db, cat)) + events)
  }

  // --- the outcome of each row, told without the steps -------------------------------------

  function Fate(db: Db, cat: Catalog, i: nat): Option<Kind>
    requires i < |db.attempts|
  {
    var a := db.attempts[i];
    var g := GroupOf(a);
    if !Legacy(a) then None
    else if Misfit(db, cat, a) then Some(Incompatible)
    else if Winner(db, cat, g).None? then None
    else if Contested(db, cat, g) then Some(Ambiguous)
    else if FindActive(db.runs, g.name, g.key).None? && Winner(db, cat, g) == Some(i) then Some(Adopted)
    else Some(DuplicateCancelled)
  }

  predicate AdoptedInto(a: Attempt, s: Status, runs: seq<Run>, runs': seq<Run>, a': Attempt) {
    a'.link.Some? && |runs| <= a'.link.value.run < |runs'|
    && a' == a.(link := Some(Link(a'.link.value.run, 1)), status := s)
    && runs'[a'.link.value.run] == Run(a.jobType, a.key, a.business, s, 1, 0)
  }

  /** Row i ends as its fate says. */
  predicate Settled(snap: Db, cat: Catalog, db: Db, i: nat)
    requires i < |snap.attempts| && |db.attempts| == |snap.attempts|
  {
    var a, a' := snap.attempts[i], db.attempts[i];
    match Fate(snap, cat, i)
    case None => a' == a
    case Some(Adopted) => AdoptedInto(a, AdoptedStatus(snap, a), snap.runs, db.runs, a')
    case Some(DuplicateCancelled) => a' == a.(status := Cancelled)
    case Some(_) => a' == a.(status := NeedsHuman)
  }

  /** Row i has not been reached by the group loop yet. */
  predicate Waiting(snap: Db, cat: Catalog, db: Db, i: nat)
    requires i < |snap.attempts| && |db.attempts| == |snap.attempts|
  {
    var a := snap.attempts[i];
    db.attempts[i] == if Misfit(snap, cat, a) then a.(status := NeedsHuman) else a
  }

  lemma CancelUnlinkedSafe(db: Db, chosen: seq<bool>, s: Status, closing: seq<bool>)
    requires Safe(db) && |chosen| == |db.attempts| && |closing| == |db.attempts|
    requires forall i :: 0 <= i < |chosen| && chosen[i] ==> db.attempts[i].link.None?
    ensures Safe(CancelAttempts(db, chosen, s, closing))
  {
    var db' := CancelAttempts(db, chosen, s, closing);
    ShapeKeepsNumbers(db, db');
    forall i | 0 <= i < |db.attempts| ensures AttemptAgrees(db', db'.attempts[i]) {
      assert AttemptAgrees(db, db.attempts[i]);
    }
  }

  lemma AdoptNumbered(db: Db, g: Group, i: nat, s: Status)
    requires Numbered(db) && i < |db.attempts| && db.attempts[i].link.None? && db.attempts[i].bossId.Some?
    requires GroupOf(db.attempts[i]) == g && FindActive(db.runs, g.name, g.key).None?
    ensures Numbered(Adopt(db, g, i, s))
  {
    var db' := Adopt(db, g, i, s);
    forall j | 0 <= j < |db'.attempts| ensures LinkFits(db', db'.attempts[j]) {
      assert LinkFits(db, db.attempts[j]);
    }
    forall j: nat, link | j != i && LinkedAt(db'.attempts, j, link)
      ensures LinkedAt(db.attempts, j, link) && link != Link(|db.runs|, 1)
    {
      assert LinkFits(db, db.attempts[j]) && LinkedAt(db.attempts, j, link);
    }
    forall r: nat, q: nat | r < |db'.runs| && 1 <= q <= db'.runs[r].current
      ensures HasAttempt(db'.attempts, Link(r, q))
    {
      if r < |db.runs| {
        assert HasAttempt(db.attempts, Link(r, q));
        var j: nat :| LinkedAt(db.attempts, j, Link(r, q));
        assert LinkedAt(db'.attempts, j, Link(r, q));
      } else {
        assert LinkedAt(db'.attempts, i, Link(r, q));
      }
    }
  }

  lemma AdoptSafe(db: Db, g: Group, i: nat, s: Status)
    requires Safe(db) && i < |db.attempts| && db.attempts[i].link.None? && db.attempts[i].bossId.Some?
    requires GroupOf(db.attempts[i]) == g && FindActive(db.runs, g.name, g.key).None? && Active(s)
    ensures Safe(Adopt(db, g, i, s))
  {
    var db' := Adopt(db, g, i, s);
    AdoptNumbered(db, g, i, s);
    forall j | 0 <= j < |db'.attempts| ensures AttemptAgrees(db', db'.attempts[j]) {
      assert AttemptAgrees(db, db.attempts[j]) && LinkFits(db, db.attempts[j]);
    }
    forall r, q | 0 <= r < q < |db'.runs| && Active(db'.runs[r].status) && Active(db'.runs[q].status)
      ensures db'.runs[r].jobType != db'.runs[q].jobType || db'.runs[r].key != db'.runs[q].key
    {
      assert Active(db.runs[r].status) && !ActiveFor(db.runs[r], g.name, g.key);
    }
  }

  /** In a safe ledger an active run always has its current attempt. */
  lemma ActiveHasCanonical(db: Db, g: Group)
    requires Safe(db) && FindActive(db.runs, g.name, g.key).Some?
    ensures Canonical(db, g).1.Some?
  {
    var r := FindActive(db.runs, g.name, g.key).value;
    assert HasAttempt(db.attempts, Link(r, db.runs[r].current));
    var i: nat :| LinkedAt(db.attempts, i, Link(r, db.runs[r].current));
  }

  /** Groups do not see each other's new runs. */
  lemma NewRunOfOther(runs: seq<Run>, run: Run, g: Group)
    requires Group(run.jobType, run.key) != g
    ensures FindActive(runs + [run], g.name, g.key) == FindActive(runs, g.name, g.key)
  {
    assert (runs + [run])[..|runs|] == runs;
  }

  // --- one group ------------------------------------------------------------------------------

  /** The group loop is about to settle g: its rows wait, and no run was made for it yet. */
  ghost predicate AboutTo(snap: Db, cat: Catalog, db: Db, g: Group) {
    && |db.attempts| == |snap.attempts| && snap.runs <= db.runs
    && Winner(snap, cat, g).Some?
    && FindActive(db.runs, g.name, g.key) == FindActive(snap.runs, g.name, g.key)
    && (forall i :: 0 <= i < |db.attempts| ==> GroupOf(db.attempts[i]) == GroupOf(snap.attempts[i]))
    && (forall i :: 0 <= i < |db.attempts| && GroupOf(snap.attempts[i]) == g ==> Waiting(snap, cat, db, i))
  }

  predicate RowDone(snap: Db, cat: Catalog, db: Db, g: Group, db': Db, i: nat)
    requires i < |snap.attempts| && |db.attempts| == |snap.attempts| == |db'.attempts|
  {
    && GroupOf(db'.attempts[i]) == GroupOf(snap.attempts[i])
    && if GroupOf(snap.attempts[i]) == g
       then Settled(snap, cat, db', i) else db'.attempts[i] == db.attempts[i]
  }

  /** After it: g's rows are settled and everybody else's are as before. */
  ghost predicate Did(snap: Db, cat: Catalog, db: Db, g: Group, db': Db)
    requires |db.attempts| == |snap.attempts|
  {
    && Safe(db') && |db'.attempts| == |db.attempts| && db.runs <= db'.runs
    && (forall i: nat :: i < |db.attempts| ==> RowDone(snap, cat, db, g, db', i))
    && (forall h: Group :: h != g ==>
          FindActive(db'.runs, h.name, h.key) == FindActive(db.runs, h.name, h.key))
  }

  /** Cancelling the siblings touches g's live rows without a run, and only those. */
  lemma SiblingRow(db: Db, g: Group, s: Status, closing: seq<bool>, i: nat)
    requires |closing| == |db.attempts| && i < |db.attempts|
    ensures var a, a' := db.attempts[i], CancelAttempts(db, Siblings(db, g), s, closing).attempts[i];
            a' == if Legacy(a) && GroupOf(a) == g then a.(status := s) else a
  {}

  /** The fate of a row of a group with candidates. */
  lemma FateOfSibling(snap: Db, cat: Catalog, i: nat)
    requires i < |snap.attempts| && Winner(snap, cat, GroupOf(snap.attempts[i])).Some?
    ensures var a, g := snap.attempts[i], GroupOf(snap.attempts[i]);
            Fate(snap, cat, i) == if !Legacy(a) then None
                                  else if Misfit(snap, cat, a) then Some(Incompatible)
                                  else if Contested(snap, cat, g) then Some(Ambiguous)
                                  else if FindActive(snap.runs, g.name, g.key).None? && Winner(snap, cat, g) == Some(i)
                                  then Some(Adopted)
                                  else Some(DuplicateCancelled)
  {}

  lemma SettledByCancel(snap: Db, cat: Catalog, db: Db, g: Group, s: Status, closing: seq<bool>, i: nat)
    requires |closing| == |db.attempts| == |snap.attempts| && i < |snap.attempts|
    requires GroupOf(snap.attempts[i]) == g && Winner(snap, cat, g).Some? && Waiting(snap, cat, db, i)
    requires Fate(snap, cat, i) != Some(Adopted)
    requires s == if Contested(snap, cat, g) then NeedsHuman else Cancelled
    ensures Settled(snap, cat, CancelAttempts(db, Siblings(db, g), s, closing), i)
  {
    FateOfSibling(snap, cat, i);
    SiblingRow(db, g, s, closing, i);
  }

  /** What cancelling a group's siblings leaves alone. */
  lemma OthersKept(snap: Db, db: Db, g: Group, s: Status, closing: seq<bool>)
    requires Safe(db) && |closing| == |db.attempts| == |snap.attempts|
    requires forall i :: 0 <= i < |db.attempts| ==> GroupOf(db.attempts[i]) == GroupOf(snap.attempts[i])
    ensures var db' := CancelAttempts(db, Siblings(db, g), s, closing);
            && Safe(db') && db'.runs == db.runs && |db'.attempts| == |db.attempts|
            && (forall i :: 0 <= i < |db.attempts| ==>
                  && GroupOf(db'.attempts[i]) == GroupOf(snap.attempts[i])
                  && (GroupOf(snap.attempts[i]) != g ==> db'.attempts[i] == db.attempts[i]))
  {
    CancelUnlinkedSafe(db, Siblings(db, g), s, closing);
  }

  lemma ContestedSettled(snap: Db, cat: Catalog, db: Db, g: Group)
    requires Safe(db) && AboutTo(snap, cat, db, g) && Contested(snap, cat, g)
    ensures Did(snap, cat, db, g, SettleGroup(snap, cat, db, g).0)
  {
    var chosen := Siblings(db, g);
    OthersKept(snap, db, g, NeedsHuman, chosen);
    forall i: nat | i < |db.attempts| && GroupOf(snap.attempts[i]) == g
      ensures Settled(snap, cat, CancelAttempts(db, chosen, NeedsHuman, chosen), i)
    {
      FateOfSibling(snap, cat, i);
      SettledByCancel(snap, cat, db, g, NeedsHuman, chosen, i);
    }
  }

  lemma KeptRunSettled(snap: Db, cat: Catalog, db: Db, g: Group)
    requires Safe(db) && AboutTo(snap, cat, db, g) && !Contested(snap, cat, g)
    requires FindActive(db.runs, g.name, g.key).Some?
    ensures Did(snap, cat, db, g, SettleGroup(snap, cat, db, g).0)
  {
    ActiveHasCanonical(db, g);
    var closing := BossesToClose(db, g, Canonical(db, g).1.value);
    OthersKept(snap, db, g, Cancelled, closing);
    forall i: nat | i < |db.attempts| && GroupOf(snap.attempts[i]) == g
      ensures Settled(snap, cat, CancelAttempts(db, Siblings(db, g), Cancelled, closing), i)
    {
      FateOfSibling(snap, cat, i);
      SettledByCancel(snap, cat, db, g, Cancelled, closing, i);
    }
  }

  /** The winner's row after its adoption and after its siblings are cancelled. */
  lemma AdoptedRow(snap: Db, cat: Catalog, db: Db, g: Group, w: nat, closing: seq<bool>)
    requires |closing| == |db.attempts| == |snap.attempts| && snap.runs <= db.runs
    requires Winner(snap, cat, g) == Some(w) && Waiting(snap, cat, db, w) && !Contested(snap, cat, g)
    requires FindActive(snap.runs, g.name, g.key).None? && FindActive(db.runs, g.name, g.key).None?
    ensures var settled := Adopt(db, g, w, AdoptedStatus(snap, snap.attempts[w]));
            Settled(snap, cat, CancelAttempts(settled, Siblings(settled, g), Cancelled, closing), w)
  {
    var settled := Adopt(db, g, w, AdoptedStatus(snap, snap.attempts[w]));
    FateOfSibling(snap, cat, w);
    SiblingRow(settled, g, Cancelled, closing, w);
  }

  lemma AdoptionSettled(snap: Db, cat: Catalog, db: Db, g: Group)
    requires Safe(db) && AboutTo(snap, cat, db, g) && !Contested(snap, cat, g)
    requires FindActive(db.runs, g.name, g.key).None?
    ensures Did(snap, cat, db, g, SettleGroup(snap, cat, db, g).0)
  {
    var w := Winner(snap, cat, g).value;
    var s := AdoptedStatus(snap, snap.attempts[w]);
    assert Waiting(snap, cat, db, w);
    AdoptSafe(db, g, w, s);
    var settled := Adopt(db, g, w, s);
    var closing := BossesToClose(settled, g, w);
    OthersKept(snap, settled, g, Cancelled, closing);
    forall i: nat | i < |db.attempts| && GroupOf(snap.attempts[i]) == g
      ensures Settled(snap, cat, CancelAttempts(settled, Siblings(settled, g), Cancelled, closing), i)
    {
      if i == w {
        AdoptedRow(snap, cat, db, g, w, closing);
      } else {
        FateOfSibling(snap, cat, i);
        SettledByCancel(snap, cat, settled, g, Cancelled, closing, i);
      }
    }
    forall h: Group | h != g
      ensures FindActive(settled.runs, h.name, h.key) == FindActive(db.runs, h.name, h.key)
    {
      NewRunOfOther(db.runs, settled.runs[|db.runs|], h);
    }
  }

  // --- the whole pass -----------------------------------------------------------------------------

  predicate RowFine(snap: Db, cat: Catalog, db: Db, gs: seq<Group>, i: nat)
    requires i < |snap.attempts| && |db.attempts| == |snap.attempts|
  {
    && GroupOf(db.attempts[i]) == GroupOf(snap.attempts[i])
    && if GroupOf(snap.attempts[i]) in gs then Waiting(snap, cat, db, i) else Settled(snap, cat, db, i)
  }

  ghost predicate Remaining(snap: Db, cat: Catalog, db: Db, gs: seq<Group>) {
    && Safe(db) && |db.attempts| == |snap.attempts| && snap.runs <= db.runs
    && (forall x, y :: 0 <= x < y < |gs| ==> gs[x] != gs[y])
    && (forall g :: g in gs ==> Winner(snap, cat, g).Some?
                                && FindActive(db.runs, g.name, g.key) == FindActive(snap.runs, g.name, g.key))
    && (forall i: nat :: i < |db.attempts| ==> RowFine(snap, cat, db, gs, i))
  }

  lemma SettleGroupDid(snap: Db, cat: Catalog, db: Db, g: Group)
    requires Safe(db) && AboutTo(snap, cat, db, g)
    ensures Did(snap, cat, db, g, SettleGroup(snap, cat, db, g).0)
  {
    if Contested(snap, cat, g) {
      ContestedSettled(snap, cat, db, g);
    } else if FindActive(db.runs, g.name, g.key).Some? {
      KeptRunSettled(snap, cat, db, g);
    } else {
      AdoptionSettled(snap, cat, db, g);
    }
  }

  /** A settled row stays settled while runs are only added. */
  lemma SettledStays(snap: Db, cat: Catalog, db: Db, db': Db, i: nat)
    requires i < |snap.attempts| && |db.attempts| == |snap.attempts| == |db'.attempts|
    requires Settled(snap, cat, db, i) && db.runs <= db'.runs && db'.attempts[i] == db.attempts[i]
    ensures Settled(snap, cat, db', i)
  {}

  lemma RowAfterGroup(snap: Db, cat: Catalog, db: Db, gs: seq<Group>, next: Db, i: nat)
    requires i < |snap.attempts| && |db.attempts| == |snap.attempts| == |next.attempts|
    requires gs != [] && gs[0] !in gs[1..] && db.runs <= next.runs
    requires RowFine(snap, cat, db, gs, i) && RowDone(snap, cat, db, gs[0], next, i)
    ensures RowFine(snap, cat, next, gs[1..], i)
  {
    var h := GroupOf(snap.attempts[i]);
    assert h in gs <==> h == gs[0] || h in gs[1..];
    if h !in gs {
      SettledStays(snap, cat, db, next, i);
    }
  }

  lemma OneGroupLess(snap: Db, cat: Catalog, db: Db, gs: seq<Group>)
    requires gs != [] && Remaining(snap, cat, db, gs)
    ensures Remaining(snap, cat, SettleGroup(snap, cat, db, gs[0]).0, gs[1..])
  {
    var g, next := gs[0], SettleGroup(snap, cat, db, gs[0]).0;
    assert AboutTo(snap, cat, db, g) by {
      forall i: nat | i < |db.attempts|
        ensures GroupOf(db.attempts[i]) == GroupOf(snap.attempts[i])
        ensures GroupOf(snap.attempts[i]) == g ==> Waiting(snap, cat, db, i)
      {
        assert RowFine(snap, cat, db, gs, i);
      }
    }
    SettleGroupDid(snap, cat, db, g);
    forall i: nat | i < |next.attempts| ensures RowFine(snap, cat, next, gs[1..], i) {
      assert RowFine(snap, cat, db, gs, i) && RowDone(snap, cat, db, g, next, i);
      RowAfterGroup(snap, cat, db, gs, next, i);
    }
  }

  lemma {:induction false} SettleAllSettles(snap: Db, cat: Catalog, db: Db, gs: seq<Group>)
    requires Remaining(snap, cat, db, gs)
    ensures Remaining(snap, cat, SettleAll(snap, cat, db, gs).0, [])
    decreases |gs|
  {
    if gs != [] {
      OneGroupLess(snap, cat, db, gs);
      SettleAllSettles(snap, cat, SettleGroup(snap, cat, db, gs[0]).0, gs[1..]);
    }
  }

  lemma NoWinnerNoFate(db: Db, cat: Catalog, i: nat)
    requires i < |db.attempts| && GroupOf(db.attempts[i]) !in Groups(db, cat, |db.attempts|)
    ensures Fate(db, cat, i) == if Misfit(db, cat, db.attempts[i]) then Some(Incompatible) else None
  {}

  lemma ParkedRow(db: Db, cat: Catalog, i: nat)
    requires i < |db.attempts|
    ensures RowFine(db, cat, ParkMisfits(db, cat), Groups(db, cat, |db.attempts|), i)
  {
    var db' := ParkMisfits(db, cat);
    assert Waiting(db, cat, db', i);
    if GroupOf(db.attempts[i]) !in Groups(db, cat, |db.attempts|) {
      NoWinnerNoFate(db, cat, i);
    }
  }

  lemma ParkedRemaining(db: Db, cat: Catalog)
    requires Safe(db)
    ensures Remaining(db, cat, ParkMisfits(db, cat), Groups(db, cat, |db.attempts|))
  {
    var misfits, gs := Misfits(db, cat), Groups(db, cat, |db.attempts|);
    CancelUnlinkedSafe(db, misfits, NeedsHuman, misfits);
    forall g | g in gs ensures Winner(db, cat, g).Some? {}
    forall i: nat | i < |db.attempts|
      ensures RowFine(db, cat, ParkMisfits(db, cat), gs, i)
    {
      ParkedRow(db, cat, i);
    }
  }

  lemma NothingRemains(snap: Db, cat: Catalog, db: Db)
    requires Remaining(snap, cat, db, [])
    ensures forall i: nat :: i < |snap.attempts| ==> Settled(snap, cat, db, i)
  {
    forall i: nat | i < |snap.attempts| ensures Settled(snap, cat, db, i) {
      assert RowFine(snap, cat, db, [], i);
    }
  }

  /**
   * Main result: every row ends as its fate says, whatever the order of groups;
   * the ledger stays safe and only gains runs.
   */
  lemma EveryRowMeetsItsFate(db: Db, cat: Catalog)
    requires Safe(db)
    ensures var db' := Reconcile(db, cat).0;
            && Safe(db') && db.runs <= db'.runs && |db'.attempts| == |db.attempts|
            && forall i: nat :: i < |db.attempts| ==> Settled(db, cat, db', i)
  {
    ParkedRemaining(db, cat);
    SettleAllSettles(db, cat, ParkMisfits(db, cat), Groups(db, cat, |db.attempts|));
    NothingRemains(db, cat, Reconcile(db, cat).0);
  }

  // --- events ---------------------------------------------------------------------------------------

  /** How many events name attempt i. */
  function Told(events: seq<Event>, i: nat): nat {
    if events == [] then 0
    else Told(events[..|events| - 1], i) + if events[|events| - 1].attempt == i then 1 else 0
  }

  lemma {:induction false} ToldConcat(x: seq<Event>, y: seq<Event>, i: nat)
    ensures Told(x + y, i) == Told(x, i) + Told(y, i)
    decreases |y|
  {
    if y == [] {
      assert x + y == x;
    } else {
      assert (x + y)[..|x + y| - 1] == x + y[..|y| - 1];
      ToldConcat(x, y[..|y| - 1], i);
    }
  }

  lemma {:induction false} ChosenAreTold(kind: Kind, chosen: seq<bool>, i: nat)
    ensures Told(EventsOf(kind, chosen), i) == if i < |chosen| && chosen[i] then 1 else 0
    decreases |chosen|
  {
    if chosen != [] {
      var n := |chosen| - 1;
      var first, last := EventsOf(kind, chosen[..n]), if chosen[n] then [Event(kind, n)] else [];
      ChosenAreTold(kind, chosen[..n], i);
      ToldConcat(first, last, i);
      assert Told(last, i) == if chosen[n] && i == n then 1 else 0 by {
        assert last != [] ==> last[..0] == [];
      }
    }
  }

  lemma {:induction false} ToldAreChosen(kind: Kind, chosen: seq<bool>)
    ensures forall e :: e in EventsOf(kind, chosen) ==> e.kind == kind && e.attempt < |chosen| && chosen[e.attempt]
    decreases |chosen|
  {
    if chosen != [] {
      ToldAreChosen(kind, chosen[..|chosen| - 1]);
    }
  }

  /** The group loop's part of a fate. */
  predicate SettledInGroups(snap: Db, cat: Catalog, gs: seq<Group>, i: nat) {
    i < |snap.attempts| && GroupOf(snap.attempts[i]) in gs
    && Fate(snap, cat, i).Some? && Fate(snap, cat, i) != Some(Incompatible)
  }

  /** The events name each row of the groups that changes, once and as what it is. */
  ghost predicate TrueAccount(snap: Db, cat: Catalog, gs: seq<Group>, events: seq<Event>) {
    && (forall i: nat :: Told(events, i) == if SettledInGroups(snap, cat, gs, i) then 1 else 0)
    && (forall e :: e in events ==> SettledInGroups(snap, cat, gs, e.attempt) && Fate(snap, cat, e.attempt) == Some(e.kind))
  }

  /** Which siblings the group loop meets live, by fate. */
  lemma SiblingFate(snap: Db, cat: Catalog, db: Db, g: Group, i: nat)
    requires AboutTo(snap, cat, db, g) && i < |snap.attempts|
    ensures Siblings(db, g)[i] <==> SettledInGroups(snap, cat, [g], i)
  {
    if GroupOf(snap.attempts[i]) == g {
      assert Waiting(snap, cat, db, i);
      FateOfSibling(snap, cat, i);
    }
  }

  lemma CancelledAccount(snap: Db, cat: Catalog, db: Db, g: Group, kind: Kind)
    requires AboutTo(snap, cat, db, g)
    requires kind == (if Contested(snap, cat, g) then Ambiguous else DuplicateCancelled)
    requires Contested(snap, cat, g) || FindActive(snap.runs, g.name, g.key).Some?
    ensures TrueAccount(snap, cat, [g], EventsOf(kind, Siblings(db, g)))
  {
    var chosen := Siblings(db, g);
    forall i: nat
      ensures Told(EventsOf(kind, chosen), i) == if SettledInGroups(snap, cat, [g], i) then 1 else 0
      ensures SettledInGroups(snap, cat, [g], i) ==> Fate(snap, cat, i) == Some(kind)
      ensures i < |chosen| && chosen[i] ==> SettledInGroups(snap, cat, [g], i)
    {
      ChosenAreTold(kind, chosen, i);
      if i < |chosen| {
        SiblingFate(snap, cat, db, g, i);
      }
      if SettledInGroups(snap, cat, [g], i) {
        FateOfSibling(snap, cat, i);
      }
    }
    ToldAreChosen(kind, chosen);
  }

  lemma AdoptionAccount(snap: Db, cat: Catalog, db: Db, g: Group)
    requires AboutTo(snap, cat, db, g) && !Contested(snap, cat, g) && FindActive(snap.runs, g.name, g.key).None?
    ensures var w := Winner(snap, cat, g).value;
            var settled := Adopt(db, g, w, AdoptedStatus(snap, snap.attempts[w]));
            TrueAccount(snap, cat, [g], [Event(Adopted, w)] + EventsOf(DuplicateCancelled, Siblings(settled, g)))
  {
    var w := Winner(snap, cat, g).value;
    var settled := Adopt(db, g, w, AdoptedStatus(snap, snap.attempts[w]));
    var chosen, head := Siblings(settled, g), [Event(Adopted, w)];
    var events := EventsOf(DuplicateCancelled, chosen);
    FateOfSibling(snap, cat, w);
    assert head[..0] == [];
    forall i: nat
      ensures Told(head + events, i) == if SettledInGroups(snap, cat, [g], i) then 1 else 0
      ensures SettledInGroups(snap, cat, [g], i) && i != w ==> Fate(snap, cat, i) == Some(DuplicateCancelled)
      ensures i < |chosen| && chosen[i] ==> i != w && SettledInGroups(snap, cat, [g], i)
    {
      ChosenAreTold(DuplicateCancelled, chosen, i);
      ToldConcat(head, events, i);
      if i < |chosen| {
        SiblingFate(snap, cat, db, g, i);
        assert i != w ==> chosen[i] == Siblings(db, g)[i];
      }
      if SettledInGroups(snap, cat, [g], i) {
        FateOfSibling(snap, cat, i);
      }
    }
    ToldAreChosen(DuplicateCancelled, chosen);
  }

  lemma GroupAccount(snap: Db, cat: Catalog, db: Db, g: Group)
    requires Safe(db) && AboutTo(snap, cat, db, g)
    ensures TrueAccount(snap, cat, [g], SettleGroup(snap, cat, db, g).1)
  {
    if Contested(snap, cat, g) {
      CancelledAccount(snap, cat, db, g, Ambiguous);
    } else if FindActive(db.runs, g.name, g.key).Some? {
      ActiveHasCanonical(db, g);
      CancelledAccount(snap, cat, db, g, DuplicateCancelled);
      assert [] + EventsOf(DuplicateCancelled, Siblings(db, g)) == EventsOf(DuplicateCancelled, Siblings(db, g));
    } else {
      AdoptionAccount(snap, cat, db, g);
    }
  }

  lemma JoinAccounts(snap: Db, cat: Catalog, gs: seq<Group>, first: seq<Event>, rest: seq<Event>)
    requires gs != [] && gs[0] !in gs[1..]
    requires TrueAccount(snap, cat, [gs[0]], first) && TrueAccount(snap, cat, gs[1..], rest)
    ensures TrueAccount(snap, cat, gs, first + rest)
  {
    forall i: nat
      ensures Told(first + rest, i) == if SettledInGroups(snap, cat, gs, i) then 1 else 0
      ensures SettledInGroups(snap, cat, gs, i) <==>
              SettledInGroups(snap, cat, [gs[0]], i) || SettledInGroups(snap, cat, gs[1..], i)
    {
      ToldConcat(first, rest, i);
      if i < |snap.attempts| {
        assert GroupOf(snap.attempts[i]) in gs <==>
               GroupOf(snap.attempts[i]) == gs[0] || GroupOf(snap.attempts[i]) in gs[1..];
      }
    }
  }

  lemma BeforeFirstGroup(snap: Db, cat: Catalog, db: Db, gs: seq<Group>)
    requires gs != [] && Remaining(snap, cat, db, gs)
    ensures AboutTo(snap, cat, db, gs[0]) && gs[0] !in gs[1..]
  {
    forall i: nat | i < |db.attempts|
      ensures GroupOf(db.attempts[i]) == GroupOf(snap.attempts[i])
      ensures GroupOf(snap.attempts[i]) == gs[0] ==> Waiting(snap, cat, db, i)
    {
      assert RowFine(snap, cat, db, gs, i);
    }
  }

  lemma {:induction false} SettleAllAccount(snap: Db, cat: Catalog, db: Db, gs: seq<Group>)
    requires Remaining(snap, cat, db, gs)
    ensures TrueAccount(snap, cat, gs, SettleAll(snap, cat, db, gs).1)
    decreases |gs|
  {
    if gs != [] {
      var (next, first) := SettleGroup(snap, cat, db, gs[0]);
      BeforeFirstGroup(snap, cat, db, gs);
      GroupAccount(snap, cat, db, gs[0]);
      OneGroupLess(snap, cat, db, gs);
      SettleAllAccount(snap, cat, next, gs[1..]);
      JoinAccounts(snap, cat, gs, first, SettleAll(snap, cat, next, gs[1..]).1);
    }
  }

  /** A row has a fate as a misfit or from its group, never both. */
  lemma FateIsOneOfTwo(db: Db, cat: Catalog, i: nat)
    requires i < |db.attempts|
    ensures var gs := Groups(db, cat, |db.attempts|);
            && !(Misfit(db, cat, db.attempts[i]) && SettledInGroups(db, cat, gs, i))
            && (Fate(db, cat, i).Some? <==> Misfit(db, cat, db.attempts[i]) || SettledInGroups(db, cat, gs, i))
            && (Misfit(db, cat, db.attempts[i]) ==> Fate(db, cat, i) == Some(Incompatible))
  {
    if GroupOf(db.attempts[i]) !in Groups(db, cat, |db.attempts|) {
      NoWinnerNoFate(db, cat, i);
    }
  }

  /**
   * The audit trail is exact: every row with a fate has one event, which names
   * that fate, and no other row has any.
   */
  lemma EventsTellFates(db: Db, cat: Catalog)
    requires Safe(db)
    ensures var events := Reconcile(db, cat).1;
            && (forall i: nat :: Told(events, i) == if i < |db.attempts| && Fate(db, cat, i).Some? then 1 else 0)
            && (forall e :: e in events ==> e.attempt < |db.attempts| && Fate(db, cat, e.attempt) == Some(e.kind))
  {
    var misfits, gs := Misfits(db, cat), Groups(db, cat, |db.attempts|);
    var settled := SettleAll(db, cat, ParkMisfits(db, cat), gs).1;
    ParkedRemaining(db, cat);
    SettleAllAccount(db, cat, ParkMisfits(db, cat), gs);
    TwoAccounts(db, cat, settled);
  }

  lemma TwoAccounts(db: Db, cat: Catalog, settled: seq<Event>)
    requires TrueAccount(db, cat, Groups(db, cat, |db.attempts|), settled)
    ensures var events := EventsOf(Incompatible, Misfits(db, cat)) + settled;
            && (forall i: nat :: Told(events, i) == if i < |db.attempts| && Fate(db, cat, i).Some? then 1 else 0)
            && (forall e :: e in events ==> e.attempt < |db.attempts| && Fate(db, cat, e.attempt) == Some(e.kind))
  {
    var misfits := Misfits(db, cat);
    var parked := EventsOf(Incompatible, misfits);
    forall i: nat
      ensures Told(parked + settled, i) == if i < |db.attempts| && Fate(db, cat, i).Some? then 1 else 0
    {
      ToldConcat(parked, settled, i);
      ChosenAreTold(Incompatible, misfits, i);
      if i < |db.attempts| {
        FateIsOneOfTwo(db, cat, i);
      }
    }
    ToldAreChosen(Incompatible, misfits);
    forall e | e in parked ensures e.attempt < |db.attempts| && Fate(db, cat, e.attempt) == Some(e.kind) {
      FateIsOneOfTwo(db, cat, e.attempt);
    }
  }

  // --- the second pass --------------------------------------------------------------------------------

  /** pg-boss jobs are only ever closed. */
  ghost predicate OnlyCloses(boss: seq<BossJob>, boss': seq<BossJob>) {
    |boss'| == |boss| && forall b :: 0 <= b < |boss| ==> boss'[b] == boss[b] || boss'[b] == boss[b].(state := Over)
  }

  lemma {:induction false} SettleAllOnlyCloses(snap: Db, cat: Catalog, db: Db, gs: seq<Group>)
    requires |snap.attempts| == |db.attempts|
    ensures OnlyCloses(db.boss, SettleAll(snap, cat, db, gs).0.boss)
    decreases |gs|
  {
    if gs != [] {
      SettleAllOnlyCloses(snap, cat, SettleGroup(snap, cat, db, gs[0]).0, gs[1..]);
    }
  }

  lemma CancelNone(db: Db, chosen: seq<bool>, s: Status)
    requires |chosen| == |db.attempts| && forall i :: 0 <= i < |chosen| ==> !chosen[i]
    ensures CancelAttempts(db, chosen, s, chosen) == db
  {
    assert CloseBoss(db.boss, chosen, db.attempts) == db.boss;
    assert CancelAttempts(db, chosen, s, chosen).attempts == db.attempts;
  }

  lemma {:induction false} NoGroups(db: Db, cat: Catalog, n: nat)
    requires n <= |db.attempts| && forall i :: 0 <= i < |db.attempts| ==> !LiveLegacy(db, db.attempts[i])
    ensures Groups(db, cat, n) == []
  {
    if n > 0 {
      NoGroups(db, cat, n - 1);
      assert !Candidate(db, cat, db.attempts[n - 1]);
    }
  }

  /** With no live legacy row left the pass does nothing. */
  lemma NothingToReconcile(db: Db, cat: Catalog)
    requires forall i :: 0 <= i < |db.attempts| ==> !LiveLegacy(db, db.attempts[i])
    ensures Reconcile(db, cat) == (db, [])
  {
    NoGroups(db, cat, |db.attempts|);
    CancelNone(db, Misfits(db, cat), NeedsHuman);
    NoEventsOf(Incompatible, Misfits(db, cat));
    var nothing: (Db, seq<Event>) := SettleAll(db, cat, db, []);
    assert ParkMisfits(db, cat) == db && Reconcile(db, cat) == (nothing.0, [] + nothing.1);
    assert nothing.0 == db && nothing.1 == [];
    assert [] + nothing.1 == [];
  }

  lemma {:induction false} NoEventsOf(kind: Kind, chosen: seq<bool>)
    requires forall i :: 0 <= i < |chosen| ==> !chosen[i]
    ensures EventsOf(kind, chosen) == []
    decreases |chosen|
  {
    if chosen != [] {
      NoEventsOf(kind, chosen[..|chosen| - 1]);
    }
  }

  lemma NoFateNoDelivery(db: Db, cat: Catalog, i: nat)
    requires i < |db.attempts| && Legacy(db.attempts[i]) && Fate(db, cat, i).None?
    ensures !Delivered(db, db.attempts[i])
  {
    var a := db.attempts[i];
    assert CandidateAt(db, cat, GroupOf(a), i) <==> Candidate(db, cat, a);
  }

  /** What is left live without a run is what nothing will deliver: the stale pass's share. */
  lemma LeftoversAreGhosts(db: Db, cat: Catalog, i: nat)
    requires Safe(db) && i < |db.attempts|
    ensures var db' := Reconcile(db, cat).0;
            |db'.attempts| == |db.attempts| && !LiveLegacy(db', db'.attempts[i])
            && (Legacy(db'.attempts[i]) ==> db'.attempts[i] == db.attempts[i] && Ghost(db', db'.attempts[i]))
  {
    var db' := Reconcile(db, cat).0;
    EveryRowMeetsItsFate(db, cat);
    SettleAllOnlyCloses(db, cat, ParkMisfits(db, cat), Groups(db, cat, |db.attempts|));
    if Legacy(db'.attempts[i]) {
      assert Settled(db, cat, db', i);
      NoFateNoDelivery(db, cat, i);
    }
  }

  /** A second pass changes nothing and records nothing. */
  lemma SecondPassIsIdle(db: Db, cat: Catalog)
    requires Safe(db)
    ensures var db' := Reconcile(db, cat).0; Reconcile(db', cat) == (db', [])
  {
    var db' := Reconcile(db, cat).0;
    forall i: nat | i < |db'.attempts| ensures !LiveLegacy(db', db'.attempts[i]) {
      LeftoversAreGhosts(db, cat, i);
    }
    NothingToReconcile(db', cat);
  }

  // --- pg-boss jobs --------------------------------------------------------------------------------------

  predicate JobAt(attempts: seq<Attempt>, i: nat, b: nat) {
    i < |attempts| && attempts[i].bossId == Some(b)
  }

  /** No two rows mirror the same pg-boss job. */
  ghost predicate DistinctJobs(attempts: seq<Attempt>) {
    forall i: nat, j: nat, b :: JobAt(attempts, i, b) && JobAt(attempts, j, b) ==> i == j
  }

  /** The job of the attempt that a group keeps. */
  function KeptJob(db: Db, cat: Catalog, g: Group): Option<nat> {
    if FindActive(db.runs, g.name, g.key).Some? then
      var canonical := Canonical(db, g).1;
      if canonical.Some? then db.attempts[canonical.value].bossId else None
    else
      var winner := Winner(db, cat, g);
      if winner.Some? then db.attempts[winner.value].bossId else None
  }

  /** A parked row gives up its job; a cancelled duplicate does unless it shares the job that is kept. */
  predicate GivesUpJob(db: Db, cat: Catalog, i: nat)
    requires i < |db.attempts|
  {
    match Fate(db, cat, i)
    case None => false
    case Some(Adopted) => false
    case Some(DuplicateCancelled) => db.attempts[i].bossId != KeptJob(db, cat, GroupOf(db.attempts[i]))
    case Some(_) => true
  }

  ghost predicate JobGivenUp(db: Db, cat: Catalog, b: nat) {
    exists i: nat :: JobAt(db.attempts, i, b) && GivesUpJob(db, cat, i)
  }

  /** The group loop's part of it. */
  predicate GivenUpBy(snap: Db, cat: Catalog, gs: seq<Group>, i: nat, b: nat) {
    JobAt(snap.attempts, i, b) && SettledInGroups(snap, cat, gs, i) && GivesUpJob(snap, cat, i)
  }

  ghost predicate GroupsGiveUp(snap: Db, cat: Catalog, gs: seq<Group>, b: nat) {
    exists i: nat :: GivenUpBy(snap, cat, gs, i, b)
  }

  ghost predicate SameJobs(x: seq<Attempt>, y: seq<Attempt>) {
    |x| == |y| && forall i :: 0 <= i < |x| ==> x[i].bossId == y[i].bossId
  }

  /** Closing jobs by a list of rows, told by the rows that give theirs up. */
  lemma CloseBossIff(snap: Db, cat: Catalog, gs: seq<Group>, boss: seq<BossJob>,
                     closing: seq<bool>, attempts: seq<Attempt>, b: nat)
    requires |closing| == |attempts| && b < |boss| && SameJobs(snap.attempts, attempts)
    requires forall i: nat :: JobAt(snap.attempts, i, b) ==> (closing[i] <==> GivenUpBy(snap, cat, gs, i, b))
    ensures CloseBoss(boss, closing, attempts)[b] ==
            if GroupsGiveUp(snap, cat, gs, b) then boss[b].(state := Over) else boss[b]
  {
    if GroupsGiveUp(snap, cat, gs, b) {
      var i: nat :| GivenUpBy(snap, cat, gs, i, b);
      assert closing[i] && attempts[i].bossId == Some(b);
    } else {
      forall i: nat | i < |closing| && attempts[i].bossId == Some(b) ensures !closing[i] {
        assert JobAt(snap.attempts, i, b) && !GivenUpBy(snap, cat, gs, i, b);
      }
    }
  }

  lemma ContestedJobs(snap: Db, cat: Catalog, db: Db, g: Group, b: nat)
    requires AboutTo(snap, cat, db, g) && SameJobs(snap.attempts, db.attempts) && b < |db.boss|
    requires Contested(snap, cat, g)
    ensures SettleGroup(snap, cat, db, g).0.boss[b] ==
            if GroupsGiveUp(snap, cat, [g], b) then db.boss[b].(state := Over) else db.boss[b]
  {
    var closing := Siblings(db, g);
    forall i: nat | JobAt(snap.attempts, i, b) ensures closing[i] <==> GivenUpBy(snap, cat, [g], i, b) {
      SiblingFate(snap, cat, db, g, i);
      if closing[i] {
        FateOfSibling(snap, cat, i);
      }
    }
    CloseBossIff(snap, cat, [g], db.boss, closing, db.attempts, b);
  }

  /** The canonical attempt of an active run is the same row before and during the pass. */
  lemma CanonicalStays(snap: Db, cat: Catalog, db: Db, g: Group)
    requires Safe(snap) && Safe(db) && AboutTo(snap, cat, db, g) && FindActive(db.runs, g.name, g.key).Some?
    ensures Canonical(db, g).1.Some? && Canonical(snap, g).1 == Canonical(db, g).1
  {
    ActiveHasCanonical(snap, g);
    ActiveHasCanonical(db, g);
    var i, j := Canonical(snap, g).1.value, Canonical(db, g).1.value;
    assert LinkFits(snap, snap.attempts[i]);
    assert Waiting(snap, cat, db, i);
    assert db.attempts[i].link == db.attempts[j].link;
    OtherAttempt(db, i, j);
  }

  lemma JoinedJobs(snap: Db, cat: Catalog, db: Db, g: Group, b: nat)
    requires Safe(snap) && Safe(db) && AboutTo(snap, cat, db, g) && SameJobs(snap.attempts, db.attempts) && b < |db.boss|
    requires !Contested(snap, cat, g) && FindActive(db.runs, g.name, g.key).Some?
    ensures SettleGroup(snap, cat, db, g).0.boss[b] ==
            if GroupsGiveUp(snap, cat, [g], b) then db.boss[b].(state := Over) else db.boss[b]
  {
    CanonicalStays(snap, cat, db, g);
    var closing := BossesToClose(db, g, Canonical(db, g).1.value);
    forall i: nat | JobAt(snap.attempts, i, b) ensures closing[i] <==> GivenUpBy(snap, cat, [g], i, b) {
      SiblingFate(snap, cat, db, g, i);
      if GroupOf(snap.attempts[i]) == g {
        FateOfSibling(snap, cat, i);
      }
    }
    CloseBossIff(snap, cat, [g], db.boss, closing, db.attempts, b);
  }

  lemma AdoptionJobs(snap: Db, cat: Catalog, db: Db, g: Group, b: nat)
    requires AboutTo(snap, cat, db, g) && SameJobs(snap.attempts, db.attempts) && b < |db.boss|
    requires !Contested(snap, cat, g) && FindActive(db.runs, g.name, g.key).None?
    ensures SettleGroup(snap, cat, db, g).0.boss[b] ==
            if GroupsGiveUp(snap, cat, [g], b) then db.boss[b].(state := Over) else db.boss[b]
  {
    var w := Winner(snap, cat, g).value;
    var settled := Adopt(db, g, w, AdoptedStatus(snap, snap.attempts[w]));
    var closing := BossesToClose(settled, g, w);
    forall i: nat | JobAt(snap.attempts, i, b) ensures closing[i] <==> GivenUpBy(snap, cat, [g], i, b) {
      SiblingFate(snap, cat, db, g, i);
      assert i != w ==> Siblings(settled, g)[i] == Siblings(db, g)[i];
      if GroupOf(snap.attempts[i]) == g {
        FateOfSibling(snap, cat, i);
      }
    }
    CloseBossIff(snap, cat, [g], settled.boss, closing, settled.attempts, b);
  }

  lemma GroupJobs(snap: Db, cat: Catalog, db: Db, g: Group, b: nat)
    requires Safe(snap) && Safe(db) && AboutTo(snap, cat, db, g)
    requires SameJobs(snap.attempts, db.attempts) && b < |db.boss|
    ensures SettleGroup(snap, cat, db, g).0.boss[b] ==
            if GroupsGiveUp(snap, cat, [g], b) then db.boss[b].(state := Over) else db.boss[b]
  {
    if Contested(snap, cat, g) {
      ContestedJobs(snap, cat, db, g, b);
    } else if FindActive(db.runs, g.name, g.key).Some? {
      JoinedJobs(snap, cat, db, g, b);
    } else {
      AdoptionJobs(snap, cat, db, g, b);
    }
  }

  lemma RemainingJobs(snap: Db, cat: Catalog, db: Db, gs: seq<Group>)
    requires Remaining(snap, cat, db, gs)
    ensures SameJobs(snap.attempts, db.attempts)
  {
    forall i: nat | i < |db.attempts| ensures snap.attempts[i].bossId == db.attempts[i].bossId {
      assert RowFine(snap, cat, db, gs, i);
    }
  }

  lemma GiveUpInTwo(snap: Db, cat: Catalog, gs: seq<Group>, b: nat)
    requires gs != []
    ensures GroupsGiveUp(snap, cat, gs, b) <==>
            GroupsGiveUp(snap, cat, [gs[0]], b) || GroupsGiveUp(snap, cat, gs[1..], b)
  {
    forall i: nat
      ensures GivenUpBy(snap, cat, gs, i, b) <==>
              GivenUpBy(snap, cat, [gs[0]], i, b) || GivenUpBy(snap, cat, gs[1..], i, b)
    {
      if i < |snap.attempts| {
        assert GroupOf(snap.attempts[i]) in gs <==>
               GroupOf(snap.attempts[i]) == gs[0] || GroupOf(snap.attempts[i]) in gs[1..];
      }
    }
  }

  lemma {:induction false} SettleAllJobs(snap: Db, cat: Catalog, db: Db, gs: seq<Group>, b: nat)
    requires Safe(snap) && Remaining(snap, cat, db, gs) && b < |db.boss|
    ensures var boss' := SettleAll(snap, cat, db, gs).0.boss;
            |boss'| == |db.boss|
            && boss'[b] == if GroupsGiveUp(snap, cat, gs, b) then db.boss[b].(state := Over) else db.boss[b]
    decreases |gs|
  {
    if gs != [] {
      BeforeFirstGroup(snap, cat, db, gs);
      RemainingJobs(snap, cat, db, gs);
      GroupJobs(snap, cat, db, gs[0], b);
      OneGroupLess(snap, cat, db, gs);
      SettleAllJobs(snap, cat, SettleGroup(snap, cat, db, gs[0]).0, gs[1..], b);
      GiveUpInTwo(snap, cat, gs, b);
    }
  }

  lemma ParkedJobs(db: Db, cat: Catalog, b: nat)
    requires b < |db.boss|
    ensures ParkMisfits(db, cat).boss[b] ==
            if exists i: nat :: JobAt(db.attempts, i, b) && Misfit(db, cat, db.attempts[i])
            then db.boss[b].(state := Over) else db.boss[b]
  {
    var misfits := Misfits(db, cat);
    if i: nat :| JobAt(db.attempts, i, b) && Misfit(db, cat, db.attempts[i]) {
      assert misfits[i];
    } else {
      forall i: nat | i < |misfits| && db.attempts[i].bossId == Some(b) ensures !misfits[i] {
        assert JobAt(db.attempts, i, b);
      }
    }
  }

  /**
   * A pg-boss job is closed if and only if some row that mirrors it gives it up;
   * rows may share jobs.
   */
  lemma JobsFollowRows(db: Db, cat: Catalog, b: nat)
    requires Safe(db) && b < |db.boss|
    ensures var boss' := Reconcile(db, cat).0.boss;
            |boss'| == |db.boss|
            && boss'[b] == if JobGivenUp(db, cat, b) then db.boss[b].(state := Over) else db.boss[b]
  {
    var gs := Groups(db, cat, |db.attempts|);
    ParkedRemaining(db, cat);
    ParkedJobs(db, cat, b);
    SettleAllJobs(db, cat, ParkMisfits(db, cat), gs, b);
    forall i: nat | JobAt(db.attempts, i, b)
      ensures GivesUpJob(db, cat, i) <==> Misfit(db, cat, db.attempts[i]) || GivenUpBy(db, cat, gs, i, b)
    {
      FateIsOneOfTwo(db, cat, i);
    }
  }

  // --- the outcome told on the tables ----------------------------------------------------------------

  lemma AdoptedIsWinner(db: Db, cat: Catalog, i: nat)
    requires i < |db.attempts| && Fate(db, cat, i) == Some(Adopted)
    ensures Winner(db, cat, GroupOf(db.attempts[i])) == Some(i)
    ensures FindActive(db.runs, db.attempts[i].jobType, db.attempts[i].key).None?
  {}

  lemma LinkedWasAdopted(db: Db, cat: Catalog, i: nat)
    requires Safe(db) && i < |db.attempts| && db.attempts[i].link.None?
    ensures var db' := Reconcile(db, cat).0;
            |db'.attempts| == |db.attempts| && (db'.attempts[i].link.Some? ==> Fate(db, cat, i) == Some(Adopted))
  {
    EveryRowMeetsItsFate(db, cat);
    assert Settled(db, cat, Reconcile(db, cat).0, i);
  }

  /** Of the rows of one job type and key at most one is given a run by the pass. */
  lemma OneAdoptionPerKey(db: Db, cat: Catalog, i: nat, j: nat)
    requires Safe(db) && i < |db.attempts| && j < |db.attempts|
    requires GroupOf(db.attempts[i]) == GroupOf(db.attempts[j])
    requires db.attempts[i].link.None? && db.attempts[j].link.None?
    ensures var db' := Reconcile(db, cat).0;
            |db'.attempts| == |db.attempts|
            && (db'.attempts[i].link.Some? && db'.attempts[j].link.Some? ==> i == j)
            && (db'.attempts[i].link.Some? ==> FindActive(db.runs, db.attempts[i].jobType, db.attempts[i].key).None?)
  {
    var db' := Reconcile(db, cat).0;
    LinkedWasAdopted(db, cat, i);
    LinkedWasAdopted(db, cat, j);
    if db'.attempts[i].link.Some? {
      AdoptedIsWinner(db, cat, i);
    }
    if db'.attempts[j].link.Some? {
      AdoptedIsWinner(db, cat, j);
    }
  }

  /** A group with two jobs in flight is wholly parked: every live row of it without a run. */
  lemma ContestedIsParked(db: Db, cat: Catalog, i: nat)
    requires Safe(db) && i < |db.attempts| && Legacy(db.attempts[i])
    requires Contested(db, cat, GroupOf(db.attempts[i]))
    ensures var db' := Reconcile(db, cat).0;
            |db'.attempts| == |db.attempts| && db'.attempts[i] == db.attempts[i].(status := NeedsHuman)
  {
    EveryRowMeetsItsFate(db, cat);
    assert Settled(db, cat, Reconcile(db, cat).0, i);
    FateOfSibling(db, cat, i);
  }
}
