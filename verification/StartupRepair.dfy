// The startup repair as it runs: row by row over the tables, under one lock.
module StartupRepair {
  import opened Bytes
  import opened Ledger
  import opened LedgerSafety
  import opened Reconciler

  datatype Report = Report(adoptedRuns: nat, cancelledDuplicates: nat, parkedIncompatible: nat)

  /** How many events of a kind there are. */
  function Tally(events: seq<Event>, kind: Kind): nat {
    if events == [] then 0
    else Tally(events[..|events| - 1], kind) + if events[|events| - 1].kind == kind then 1 else 0
  }

  /** How the events of each kind grew. */
  predicate Grew(before: seq<Event>, after: seq<Event>, adopted: nat, cancelled: nat, misfits: nat, contested: nat) {
    && Tally(after, Adopted) == Tally(before, Adopted) + adopted
    && Tally(after, DuplicateCancelled) == Tally(before, DuplicateCancelled) + cancelled
    && Tally(after, Incompatible) == Tally(before, Incompatible) + misfits
    && Tally(after, Ambiguous) == Tally(before, Ambiguous) + contested
  }

  /** By the n new events of one kind, and no others. */
  ghost predicate Counts(before: seq<Event>, after: seq<Event>, kind: Kind, n: nat) {
    forall k :: Tally(after, k) == Tally(before, k) + if k == kind then n else 0
  }

  lemma TallyOneMore(events: seq<Event>, e: Event)
    ensures Counts(events, events + [e], e.kind, 1)
  {
    assert (events + [e])[..|events|] == events;
  }

  lemma CountsOneMore(before: seq<Event>, events: seq<Event>, e: Event, n: nat)
    requires Counts(before, events, e.kind, n)
    ensures Counts(before, events + [e], e.kind, n + 1)
  {
    TallyOneMore(events, e);
  }

  lemma CloseBossOneMore(boss: seq<BossJob>, closing: seq<bool>, attempts: seq<Attempt>, k: nat)
    requires |closing| == |attempts| && k < |closing|
    ensures var before := CloseBoss(boss, closing[..k], attempts[..k]);
            CloseBoss(boss, closing[..k + 1], attempts[..k + 1]) ==
            if closing[k] && attempts[k].bossId.Some? && attempts[k].bossId.value < |boss|
            then before[attempts[k].bossId.value := boss[attempts[k].bossId.value].(state := Over)] else before
  {
    var before, after := CloseBoss(boss, closing[..k], attempts[..k]), CloseBoss(boss, closing[..k + 1], attempts[..k + 1]);
    forall b: nat | b < |boss|
      ensures after[b] == if closing[k] && attempts[k].bossId == Some(b) then boss[b].(state := Over) else before[b]
    {
      if i: nat :| i < k && closing[i] && attempts[i].bossId == Some(b) {
        assert closing[..k][i] && attempts[..k][i].bossId == Some(b);
        assert closing[..k + 1][i] && attempts[..k + 1][i].bossId == Some(b);
      } else if closing[k] && attempts[k].bossId == Some(b) {
        assert closing[..k + 1][k] && attempts[..k + 1][k].bossId == Some(b);
      }
    }
  }

  /** CancelAttempts restricted to the first k rows. */
  function CancelUpTo(db: Db, chosen: seq<bool>, s: Status, closing: seq<bool>, k: nat): (db': Db)
    requires |chosen| == |db.attempts| && |closing| == |db.attempts| && k <= |db.attempts|
    ensures |db'.attempts| == |db.attempts| && |db'.boss| == |db.boss|
  {
    db.(attempts := seq(|db.attempts|, j requires 0 <= j < |db.attempts| =>
                      if j < k && chosen[j] then db.attempts[j].(status := s) else db.attempts[j]),
        boss := CloseBoss(db.boss, closing[..k], db.attempts[..k]))
  }

  lemma CancelOneMore(db: Db, chosen: seq<bool>, s: Status, closing: seq<bool>, k: nat)
    requires |chosen| == |db.attempts| && |closing| == |db.attempts| && k < |db.attempts|
    ensures var a, before := db.attempts[k], CancelUpTo(db, chosen, s, closing, k);
            && before.attempts[k] == a
            && CancelUpTo(db, chosen, s, closing, k + 1) ==
               before.(attempts := if chosen[k] then before.attempts[k := a.(status := s)] else before.attempts,
                       boss := if closing[k] && a.bossId.Some? && a.bossId.value < |db.boss|
                               then before.boss[a.bossId.value := before.boss[a.bossId.value].(state := Over)]
                               else before.boss)
  {
    var before, after := CancelUpTo(db, chosen, s, closing, k), CancelUpTo(db, chosen, s, closing, k + 1);
    CloseBossOneMore(db.boss, closing, db.attempts, k);
    assert after.attempts == if chosen[k] then before.attempts[k := db.attempts[k].(status := s)] else before.attempts;
  }

  lemma CancelFromNone(db: Db, chosen: seq<bool>, s: Status, closing: seq<bool>)
    requires |chosen| == |db.attempts| && |closing| == |db.attempts|
    ensures CancelUpTo(db, chosen, s, closing, 0) == db
  {
    assert CancelUpTo(db, chosen, s, closing, 0).attempts == db.attempts;
    assert CancelUpTo(db, chosen, s, closing, 0).boss == db.boss;
  }

  lemma CancelToEnd(db: Db, chosen: seq<bool>, s: Status, closing: seq<bool>)
    requires |chosen| == |db.attempts| && |closing| == |db.attempts|
    ensures CancelUpTo(db, chosen, s, closing, |db.attempts|) == CancelAttempts(db, chosen, s, closing)
  {
    assert closing[..|db.attempts|] == closing && db.attempts[..|db.attempts|] == db.attempts;
    assert CancelUpTo(db, chosen, s, closing, |db.attempts|).attempts == CancelAttempts(db, chosen, s, closing).attempts;
  }

  lemma EventsOneMore(kind: Kind, chosen: seq<bool>, k: nat)
    requires k < |chosen|
    ensures EventsOf(kind, chosen[..k + 1]) == EventsOf(kind, chosen[..k]) + if chosen[k] then [Event(kind, k)] else []
  {
    assert chosen[..k + 1][..k] == chosen[..k];
  }

  class LegacyJobReconciler {
    var db: Db
    var events: seq<Event>

    constructor (database: Db)
      ensures db == database && events == []
    {
      db, events := database, [];
    }

    /** Closes a row that is still live and without a run, and its pg-boss job where asked. */
    method CancelAttempt(i: nat, kind: Kind, cancelBoss: bool, s: Status) returns (done: bool)
      requires i < |db.attempts|
      modifies this
      ensures var a := old(db).attempts[i];
              && done == Legacy(a)
              && events == (if done then old(events) + [Event(kind, i)] else old(events))
              && db == if !done then old(db) else old(db).(
                   attempts := old(db).attempts[i := a.(status := s)],
                   boss := if cancelBoss && a.bossId.Some? && a.bossId.value < |old(db).boss|
                           then old(db).boss[a.bossId.value := old(db).boss[a.bossId.value].(state := Over)]
                           else old(db).boss)
    {
      var a := db.attempts[i];
      if !Legacy(a) {
        return false;
      }
      db := db.(attempts := db.attempts[i := a.(status := s)]);
      if cancelBoss && a.bossId.Some? && a.bossId.value < |db.boss| {
        var job := db.boss[a.bossId.value];
        if BossLive(job.state) {
          db := db.(boss := db.boss[a.bossId.value := job.(state := Over)]);
        }
      }
      events := events + [Event(kind, i)];
      return true;
    }

    /** One row of the sibling loop; `start` is the state at its beginning. */
    method CancelSibling(i: nat, row: Attempt, g: Group, kind: Kind, s: Status, cancelBoss: bool,
                         ghost start: Db, ghost chosen: seq<bool>, ghost closing: seq<bool>) returns (done: bool)
      requires |chosen| == |closing| == |start.attempts| && i < |start.attempts|
      requires db == CancelUpTo(start, chosen, s, closing, i)
      requires chosen[i] == (Legacy(start.attempts[i]) && Legacy(row) && GroupOf(row) == g)
      requires closing[i] == (chosen[i] && cancelBoss)
      modifies this
      ensures done == chosen[i] && db == CancelUpTo(start, chosen, s, closing, i + 1)
      ensures events == if done then old(events) + [Event(kind, i)] else old(events)
    {
      CancelOneMore(start, chosen, s, closing, i);
      done := false;
      if Legacy(row) && GroupOf(row) == g {
        done := CancelAttempt(i, kind, cancelBoss, s);
      }
    }

    /** The sibling loop. `kept` is the pg-boss id that stays, where one is to stay. */
    method CancelRows(rows: seq<Attempt>, g: Group, kind: Kind, s: Status, kept: Option<Option<nat>>,
                      ghost chosen: seq<bool>, ghost closing: seq<bool>) returns (n: nat)
      requires |rows| == |chosen| == |closing| == |db.attempts|
      requires forall i :: 0 <= i < |rows| ==>
                 chosen[i] == (Legacy(db.attempts[i]) && Legacy(rows[i]) && GroupOf(rows[i]) == g)
      requires forall i :: 0 <= i < |rows| ==> closing[i] == (chosen[i] && kept != Some(db.attempts[i].bossId))
      modifies this
      ensures db == CancelAttempts(old(db), chosen, s, closing)
      ensures events == old(events) + EventsOf(kind, chosen)
      ensures Counts(old(events), events, kind, n)
    {
      ghost var start := db;
      n := 0;
      CancelFromNone(start, chosen, s, closing);
      for i := 0 to |rows|
        invariant db == CancelUpTo(start, chosen, s, closing, i)
        invariant events == old(events) + EventsOf(kind, chosen[..i])
        invariant Counts(old(events), events, kind, n)
      {
        ghost var before := events;
        CancelOneMore(start, chosen, s, closing, i);
        var done := CancelSibling(i, rows[i], g, kind, s, kept != Some(db.attempts[i].bossId), start, chosen, closing);
        EventsOneMore(kind, chosen, i);
        if done {
          CountsOneMore(old(events), before, Event(kind, i), n);
          n := n + 1;
        }
      }
      CancelToEnd(start, chosen, s, closing);
      assert chosen[..|rows|] == chosen;
    }

    /** One misfit of the first loop. */
    method ParkMisfit(i: nat, snap: Db, ghost chosen: seq<bool>)
      requires |chosen| == |snap.attempts| && i < |snap.attempts| && chosen[i] && Legacy(snap.attempts[i])
      requires db == CancelUpTo(snap, chosen, NeedsHuman, chosen, i)
      modifies this
      ensures db == CancelUpTo(snap, chosen, NeedsHuman, chosen, i + 1)
      ensures events == old(events) + [Event(Incompatible, i)]
    {
      CancelOneMore(snap, chosen, NeedsHuman, chosen, i);
      var done := CancelAttempt(i, Incompatible, true, NeedsHuman);
    }

    /** First loop: parks the misfits and lists the groups of the other live rows. */
    method ParkAndGroup(cat: Catalog) returns (groups: seq<Group>, n: nat)
      modifies this
      ensures db == ParkMisfits(old(db), cat)
      ensures groups == Groups(old(db), cat, |old(db).attempts|)
      ensures events == old(events) + EventsOf(Incompatible, Misfits(old(db), cat))
      ensures Counts(old(events), events, Incompatible, n)
    {
      var snap := db;
      ghost var chosen := Misfits(snap, cat);
      groups, n := [], 0;
      CancelFromNone(snap, chosen, NeedsHuman, chosen);
      for i := 0 to |snap.attempts|
        invariant db == CancelUpTo(snap, chosen, NeedsHuman, chosen, i)
        invariant groups == Groups(snap, cat, i)
        invariant events == old(events) + EventsOf(Incompatible, chosen[..i])
        invariant Counts(old(events), events, Incompatible, n)
      {
        ghost var before := events;
        var row := snap.attempts[i];
        EventsOneMore(Incompatible, chosen, i);
        if LiveLegacy(snap, row) && !Compatible(snap, cat, row) {
          ParkMisfit(i, snap, chosen);
          CountsOneMore(old(events), before, Event(Incompatible, i), n);
          n := n + 1;
        } else {
          CancelOneMore(snap, chosen, NeedsHuman, chosen, i);
          if LiveLegacy(snap, row) && GroupOf(row) !in groups {
            groups := groups + [GroupOf(row)];
          }
        }
      }
      CancelToEnd(snap, chosen, NeedsHuman, chosen);
      assert chosen[..|snap.attempts|] == chosen;
    }

    /** Gives the winner to the group's active run, inserting one if there is none. */
    method AdoptWinner(g: Group, i: nat, s: Status)
      requires i < |db.attempts| && Legacy(db.attempts[i])
      modifies this
      ensures db == Adopt(old(db), g, i, s)
      ensures events == old(events) + [Event(Adopted, i)]
    {
      var run := FindActive(db.runs, g.name, g.key);
      var r, sequence := |db.runs|, 1;
      if run.Some? {
        r, sequence := run.value, db.runs[run.value].current;
      } else {
        db := db.(runs := db.runs + [Run(g.name, g.key, db.attempts[i].business, s, 1, 0)]);
      }
      db := db.(attempts := db.attempts[i := db.attempts[i].(link := Some(Link(r, sequence)), status := s)]);
      events := events + [Event(Adopted, i)];
    }

    /** A group whose job several workers may hold is parked as a whole. */
    method ParkGroup(snap: Db, cat: Catalog, g: Group) returns (parked: nat)
      requires AboutTo(snap, cat, db, g) && Contested(snap, cat, g)
      modifies this
      ensures db == SettleGroup(snap, cat, old(db), g).0
      ensures events == old(events) + SettleGroup(snap, cat, old(db), g).1
      ensures Counts(old(events), events, Ambiguous, parked)
    {
      SameRows(snap, cat, db, g);
      parked := CancelRows(snap.attempts, g, Ambiguous, NeedsHuman, None, Siblings(db, g), Siblings(db, g));
    }

    /** Cancels the siblings of the attempt that stays. */
    method CancelDuplicates(rows: seq<Attempt>, g: Group, keeper: nat) returns (n: nat)
      requires |rows| == |db.attempts| && keeper < |db.attempts|
      requires forall i :: 0 <= i < |rows| ==>
                 Siblings(db, g)[i] == (Legacy(db.attempts[i]) && Legacy(rows[i]) && GroupOf(rows[i]) == g)
      modifies this
      ensures db == CancelAttempts(old(db), Siblings(old(db), g), Cancelled, BossesToClose(old(db), g, keeper))
      ensures events == old(events) + EventsOf(DuplicateCancelled, Siblings(old(db), g))
      ensures Counts(old(events), events, DuplicateCancelled, n)
    {
      n := CancelRows(rows, g, DuplicateCancelled, Cancelled, Some(db.attempts[keeper].bossId),
                      Siblings(db, g), BossesToClose(db, g, keeper));
    }

    /** Adopts the winner and cancels the others. */
    method StartRun(rows: seq<Attempt>, g: Group, w: nat, s: Status, ghost settled: Db) returns (cancelled: nat)
      requires |rows| == |db.attempts| && w < |db.attempts| && Legacy(db.attempts[w])
      requires settled == Adopt(db, g, w, s) && |settled.attempts| == |rows|
      requires forall i :: 0 <= i < |rows| ==>
                 Siblings(settled, g)[i] ==
                 (Legacy(settled.attempts[i]) && Legacy(rows[i]) && GroupOf(rows[i]) == g)
      modifies this
      ensures db == CancelAttempts(settled, Siblings(settled, g), Cancelled, BossesToClose(settled, g, w))
      ensures events == old(events) + ([Event(Adopted, w)] + EventsOf(DuplicateCancelled, Siblings(settled, g)))
      ensures Counts(old(events) + [Event(Adopted, w)], events, DuplicateCancelled, cancelled)
    {
      ghost var tail := EventsOf(DuplicateCancelled, Siblings(settled, g));
      assert old(events) + [Event(Adopted, w)] + tail == old(events) + ([Event(Adopted, w)] + tail);
      AdoptWinner(g, w, s);
      cancelled := CancelDuplicates(rows, g, w);
    }

    /** A group that no two workers hold: its run's current attempt stays, or the winner is adopted. */
    method KeepOne(snap: Db, cat: Catalog, g: Group) returns (adopted: nat, cancelled: nat, ghost w: nat)
      requires Safe(db) && AboutTo(snap, cat, db, g) && !Contested(snap, cat, g)
      modifies this
      ensures db == SettleGroup(snap, cat, old(db), g).0
      ensures events == old(events) + SettleGroup(snap, cat, old(db), g).1
      ensures adopted <= 1
      ensures Counts(if adopted == 1 then old(events) + [Event(Adopted, w)] else old(events), events,
                     DuplicateCancelled, cancelled)
    {
      var run := FindActive(db.runs, g.name, g.key);
      if run.Some? {
        ghost var keeper, tail := BeforeJoin(snap, cat, db, g);
        cancelled := CancelDuplicates(snap.attempts, g, FindLink(db.attempts, Link(run.value, db.runs[run.value].current)).value);
        adopted, w := 0, 0;
      } else {
        var best := FindWinner(snap, cat, g);
        var winner := best.value;
        ghost var settled, tail := AfterAdoption(snap, cat, db, g, winner);
        cancelled := StartRun(snap.attempts, g, winner, AdoptedStatus(snap, snap.attempts[winner]), settled);
        adopted, w := 1, winner;
      }
    }

    /** One group of the second loop. */
    method Settle(snap: Db, cat: Catalog, g: Group) returns (adopted: nat, cancelled: nat, parked: nat)
      requires Safe(db) && AboutTo(snap, cat, db, g)
      modifies this
      ensures db == SettleGroup(snap, cat, old(db), g).0
      ensures events == old(events) + SettleGroup(snap, cat, old(db), g).1
      ensures Grew(old(events), events, adopted, cancelled, 0, parked)
    {
      adopted, cancelled, parked := 0, 0, 0;
      var inFlight := CountInFlight(snap, cat, g);
      if inFlight > 1 {
        parked := ParkGroup(snap, cat, g);
      } else {
        ghost var w: nat;
        adopted, cancelled, w := KeepOne(snap, cat, g);
        TallyOneMore(old(events), Event(Adopted, w));
      }
    }

    /** The second loop. */
    method SettleGroups(snap: Db, cat: Catalog, groups: seq<Group>)
      returns (adopted: nat, cancelled: nat, parked: nat)
      requires Remaining(snap, cat, db, groups)
      modifies this
      ensures db == SettleAll(snap, cat, old(db), groups).0
      ensures events == old(events) + SettleAll(snap, cat, old(db), groups).1
      ensures Grew(old(events), events, adopted, cancelled, 0, parked)
    {
      ghost var goal := SettleAll(snap, cat, db, groups);
      adopted, cancelled, parked := 0, 0, 0;
      assert groups[0..] == groups;
      for k := 0 to |groups|
        invariant Remaining(snap, cat, db, groups[k..])
        invariant SettleAll(snap, cat, db, groups[k..]).0 == goal.0
        invariant events + SettleAll(snap, cat, db, groups[k..]).1 == old(events) + goal.1
        invariant Grew(old(events), events, adopted, cancelled, 0, parked)
      {
        GroupStep(snap, cat, db, groups, k, events);
        var a, c, p := Settle(snap, cat, groups[k]);
        adopted, cancelled, parked := adopted + a, cancelled + c, parked + p;
      }
      assert groups[|groups|..] == [];
      assert events + [] == events;
    }

    /** The whole pass, and its report. */
    method Reconcile(cat: Catalog) returns (report: Report)
      requires Safe(db)
      modifies this
      ensures db == Reconciler.Reconcile(old(db), cat).0
      ensures events == old(events) + Reconciler.Reconcile(old(db), cat).1
      ensures report.adoptedRuns == Tally(events, Adopted) - Tally(old(events), Adopted)
      ensures report.cancelledDuplicates == Tally(events, DuplicateCancelled) - Tally(old(events), DuplicateCancelled)
      ensures report.parkedIncompatible == Tally(events, Incompatible) - Tally(old(events), Incompatible)
                                           + Tally(events, Ambiguous) - Tally(old(events), Ambiguous)
    {
      var snap := db;
      ParkedRemaining(snap, cat);
      var groups, misfits := ParkAndGroup(cat);
      ghost var first, rest := PassInTwo(snap, cat, old(events));
      var adopted, cancelled, contested := SettleGroups(snap, cat, groups);
      return Report(adopted, cancelled, misfits + contested);
    }
  }

  lemma PassInTwo(db: Db, cat: Catalog, events: seq<Event>) returns (first: seq<Event>, rest: seq<Event>)
    ensures first == EventsOf(Incompatible, Misfits(db, cat))
    ensures rest == SettleAll(db, cat, ParkMisfits(db, cat), Groups(db, cat, |db.attempts|)).1
    ensures events + Reconciler.Reconcile(db, cat).1 == events + first + rest
  {
    first := EventsOf(Incompatible, Misfits(db, cat));
    rest := SettleAll(db, cat, ParkMisfits(db, cat), Groups(db, cat, |db.attempts|)).1;
    assert events + (first + rest) == events + first + rest;
  }

  lemma GroupStep(snap: Db, cat: Catalog, db: Db, groups: seq<Group>, k: nat, events: seq<Event>)
    requires k < |groups| && Remaining(snap, cat, db, groups[k..])
    ensures AboutTo(snap, cat, db, groups[k])
    ensures var (next, first) := SettleGroup(snap, cat, db, groups[k]);
            && Remaining(snap, cat, next, groups[k + 1..])
            && SettleAll(snap, cat, db, groups[k..]).0 == SettleAll(snap, cat, next, groups[k + 1..]).0
            && events + SettleAll(snap, cat, db, groups[k..]).1 ==
               (events + first) + SettleAll(snap, cat, next, groups[k + 1..]).1
  {
    assert groups[k..][0] == groups[k] && groups[k..][1..] == groups[k + 1..];
    BeforeFirstGroup(snap, cat, db, groups[k..]);
    OneGroupLess(snap, cat, db, groups[k..]);
  }

  /** What an active run leaves for the sibling loop. */
  lemma BeforeJoin(snap: Db, cat: Catalog, db: Db, g: Group) returns (keeper: nat, tail: seq<Event>)
    requires Safe(db) && AboutTo(snap, cat, db, g) && !Contested(snap, cat, g)
    requires FindActive(db.runs, g.name, g.key).Some?
    ensures keeper < |db.attempts| && Canonical(db, g).1 == Some(keeper)
    ensures forall i :: 0 <= i < |db.attempts| ==>
              (Siblings(db, g)[i] <==>
               Legacy(db.attempts[i]) && Legacy(snap.attempts[i]) && GroupOf(snap.attempts[i]) == g)
    ensures tail == EventsOf(DuplicateCancelled, Siblings(db, g))
    ensures SettleGroup(snap, cat, db, g) ==
            (CancelAttempts(db, Siblings(db, g), Cancelled, BossesToClose(db, g, keeper)), tail)
  {
    ActiveHasCanonical(db, g);
    SameRows(snap, cat, db, g);
    keeper := Canonical(db, g).1.value;
    tail := EventsOf(DuplicateCancelled, Siblings(db, g));
    assert [] + tail == tail;
  }

  /** What the adoption leaves for the sibling loop. */
  lemma AfterAdoption(snap: Db, cat: Catalog, db: Db, g: Group, w: nat) returns (settled: Db, tail: seq<Event>)
    requires AboutTo(snap, cat, db, g) && !Contested(snap, cat, g)
    requires FindActive(db.runs, g.name, g.key).None? && Winner(snap, cat, g) == Some(w)
    ensures Legacy(db.attempts[w])
    ensures settled == Adopt(db, g, w, AdoptedStatus(snap, snap.attempts[w])) && |settled.attempts| == |db.attempts|
    ensures tail == EventsOf(DuplicateCancelled, Siblings(settled, g))
    ensures forall i :: 0 <= i < |db.attempts| ==>
              (Siblings(settled, g)[i] <==>
               Legacy(settled.attempts[i]) && Legacy(snap.attempts[i]) && GroupOf(snap.attempts[i]) == g)
    ensures SettleGroup(snap, cat, db, g) ==
            (CancelAttempts(settled, Siblings(settled, g), Cancelled, BossesToClose(settled, g, w)),
             [Event(Adopted, w)] + tail)
  {
    SameRows(snap, cat, db, g);
    settled := Adopt(db, g, w, AdoptedStatus(snap, snap.attempts[w]));
    tail := EventsOf(DuplicateCancelled, Siblings(settled, g));
    forall i: nat | i < |db.attempts| && i != w ensures Siblings(settled, g)[i] == Siblings(db, g)[i] {}
  }

  /** Before a group is settled its live rows are those of the snapshot, and the winner is one of them. */
  lemma SameRows(snap: Db, cat: Catalog, db: Db, g: Group)
    requires AboutTo(snap, cat, db, g)
    ensures forall i :: 0 <= i < |db.attempts| ==>
              (Siblings(db, g)[i] <==>
               Legacy(db.attempts[i]) && Legacy(snap.attempts[i]) && GroupOf(snap.attempts[i]) == g)
    ensures Legacy(db.attempts[Winner(snap, cat, g).value])
  {
    assert Waiting(snap, cat, db, Winner(snap, cat, g).value);
    forall i: nat | i < |db.attempts| && GroupOf(snap.attempts[i]) == g && Legacy(db.attempts[i])
      ensures Legacy(snap.attempts[i])
    {
      assert Waiting(snap, cat, db, i);
    }
  }

  /** liveRows.filter(active).length, told as the question it answers. */
  method CountInFlight(snap: Db, cat: Catalog, g: Group) returns (count: nat)
    ensures count > 1 <==> Contested(snap, cat, g)
  {
    count := 0;
    ghost var x: nat, y: nat := 0, 0;
    for i := 0 to |snap.attempts|
      invariant count == 0 ==> forall j: nat :: j < i ==> !InFlightAt(snap, cat, g, j)
      invariant count == 1 ==> x < i && forall j: nat :: j < i ==> (InFlightAt(snap, cat, g, j) <==> j == x)
      invariant count > 1 ==> x < y < i && InFlightAt(snap, cat, g, x) && InFlightAt(snap, cat, g, y)
    {
      if InFlightAt(snap, cat, g, i) {
        if count == 0 {
          x := i;
        } else if count == 1 {
          y := i;
        }
        count := count + 1;
      }
    }
  }

  /** The first of the live rows sorted by rank. */
  method FindWinner(snap: Db, cat: Catalog, g: Group) returns (best: Option<nat>)
    ensures best == Winner(snap, cat, g)
  {
    best := None;
    for i := 0 to |snap.attempts|
      invariant best == Best(snap, cat, g, i)
    {
      if CandidateAt(snap, cat, g, i) {
        if best.None? || Before(Rank(snap, snap.attempts[i]), Rank(snap, snap.attempts[best.value])) {
          best := Some(i);
        }
      }
    }
  }
}
