// The transactions of the run store and of the worker lifecycle, statement by
// statement; a throw rolls back to the state before the transaction.
module WorkflowRunStore {
  import opened Bytes
  import opened Ledger
  import opened LedgerSafety

  /** How many jobs a list of commands sends. */
  function Sends(db: Db, cs: seq<Command>): int {
    |EnqueueAll(db, cs).0.boss| - |db.boss|
  }

  lemma {:induction false} EnqueueAllSnoc(db: Db, cs: seq<Command>, c: Command)
    ensures var (db', results) := EnqueueAll(db, cs);
            EnqueueAll(db, cs + [c]) == (EnqueueOne(db', c).0, results + [EnqueueOne(db', c).1])
    ensures |db.boss| <= |EnqueueAll(db, cs).0.boss|
    decreases |cs|
  {
    if cs == [] {
      assert [] + [c] == [c];
      assert EnqueueAll(EnqueueOne(db, c).0, []) == (EnqueueOne(db, c).0, []);
      assert [EnqueueOne(db, c).1] + [] == [] + [EnqueueOne(db, c).1];
    } else {
      var (next, first) := EnqueueOne(db, cs[0]);
      EnqueueAllSnoc(next, cs[1..], c);
      assert (cs + [c])[1..] == cs[1..] + [c];
      var (db', rest) := EnqueueAll(next, cs[1..]);
      assert [first] + (rest + [EnqueueOne(db', c).1]) == ([first] + rest) + [EnqueueOne(db', c).1];
    }
  }

  lemma OneCommand(db: Db, c: Command)
    ensures EnqueueAll(db, [c]) == (EnqueueOne(db, c).0, [EnqueueOne(db, c).1])
  {
    var (next, first) := EnqueueOne(db, c);
    assert [c][1..] == [] && EnqueueAll(next, []) == (next, []);
    assert [first] + [] == [first];
  }

  class Store {
    var db: Db

    constructor (start: Db)
      ensures db == start
    {
      db := start;
    }

    /** One command inside a transaction; None is the throw of a send that failed. */
    method EnqueueInTransaction(c: Command, sent: bool) returns (result: Option<EnqueueResult>)
      modifies this
      ensures var (next, r) := EnqueueOne(old(db), c);
              if r.Duplicate? || sent then db == next && result == Some(r) else result == None
    {
      var existing := FindActive(db.runs, c.name, c.key);
      if existing.Some? {
        var r := existing.value;
        var run := db.runs[r];
        db := db.(runs := db.runs[r := run.(duplicates := run.duplicates + 1)]);
        var latest := LatestOf(db.attempts, r);
        var deliveredBy := if latest.Some? then db.attempts[latest.value].bossId else None;
        return Some(Duplicate(r, run.status, latest, run.current, deliveredBy));
      }
      var r, a, b := |db.runs|, |db.attempts|, |db.boss|;
      db := db.(runs := db.runs + [Run(c.name, c.key, c.business, Queued, 1, 0)]);
      db := db.(attempts := db.attempts + [Attempt(c.name, c.key, c.business, Some(b), Some(Link(r, 1)), Queued, 0)]);
      if !sent {
        return None;
      }
      db := db.(boss := db.boss + [BossJob(c.queue, Created, b)]);
      return Some(Accepted(r, a, b));
    }

    /**
     * All commands or none: an invalid payload or a failing send, at whichever
     * command, leaves the tables as they were. `sends(k)` tells whether the k-th
     * send of the transaction succeeds.
     */
    method EnqueueTransaction(cs: seq<Command>, valid: Command -> bool, sends: nat -> bool)
      returns (results: Option<seq<EnqueueResult>>)
      modifies this
      ensures results.Some? <==> (forall c :: c in cs ==> valid(c))
                                 && (forall k: nat :: k < Sends(old(db), cs) ==> sends(k))
      ensures if results.Some? then EnqueueAll(old(db), cs) == (db, results.value) else db == old(db)
    {
      for i := 0 to |cs|
        invariant forall j :: 0 <= j < i ==> valid(cs[j])
      {
        if !valid(cs[i]) {
          return None;
        }
      }
      var before := db;
      var done: seq<EnqueueResult> := [];
      var k: nat := 0;
      for i := 0 to |cs|
        invariant EnqueueAll(before, cs[..i]) == (db, done)
        invariant k == Sends(before, cs[..i]) && forall m: nat :: m < k ==> sends(m)
      {
        assert cs[..i + 1] == cs[..i] + [cs[i]];
        EnqueueAllSnoc(before, cs[..i], cs[i]);
        SendsGrow(before, cs[..i + 1], cs[i + 1..]);
        assert cs[..i + 1] + cs[i + 1..] == cs;
        var result := EnqueueInTransaction(cs[i], sends(k));
        if result.None? {
          db := before;
          return None;
        }
        done := done + [result.value];
        k := if result.value.Accepted? then k + 1 else k;
      }
      assert cs[..|cs|] == cs;
      return Some(done);
    }

    /** Schedules the one successor of a paused attempt, or finds it; None is the throw of its send. */
    method ContinueAfterRateLimit(bossId: nat, queue: string, sent: bool) returns (result: Option<Continuation>)
      modifies this
      ensures var (next, r) := Continue(old(db), bossId, queue);
              if r.Scheduled? && !sent then result == None && db == old(db) else result == Some(r) && db == next
    {
      var before := db;
      var found := FindBoss(db.attempts, bossId);
      if found.None? {
        return Some(Outdated);
      }
      var current := db.attempts[found.value];
      if current.link.None? {
        return Some(if current.status.Running? then LegacyPause else Outdated);
      }
      var link := current.link.value;
      var next := Link(link.run, link.sequence + 1);
      var existing := FindLink(db.attempts, next);
      if existing.Some? && db.attempts[existing.value].bossId.Some? {
        if !IsCurrent(db.runs, next) || !Active(db.runs[next.run].status) {
          return Some(Outdated);
        }
        return Some(Existing(link.run, existing.value, db.attempts[existing.value].bossId.value));
      }
      if existing.Some? || !current.status.Running? || !IsCurrent(db.runs, link) || !db.runs[link.run].status.Running? {
        return Some(Outdated);
      }
      var a, b := |db.attempts|, |db.boss|;
      db := db.(attempts := db.attempts + [Attempt(current.jobType, current.key, current.business, Some(b), Some(next), Queued, 0)]);
      if !sent {
        db := before;
        return None;
      }
      db := db.(boss := db.boss + [BossJob(queue, Created, b)]);
      db := db.(attempts := db.attempts[found.value :=
                  current.(status := RetryWait, attempts := Saturated(current.attempts))]);
      db := db.(runs := db.runs[link.run := db.runs[link.run].(status := RetryWait, current := next.sequence)]);
      return Some(Scheduled(link.run, a, b));
    }

    /** The claim at the start of a delivery: the row's number, or nothing to do. */
    method ClaimDelivery(bossId: nat) returns (claimed: Option<nat>)
      modifies this
      ensures db == Claim(old(db), bossId)
      ensures claimed.Some? ==> claimed.value < |db.attempts| && db.attempts[claimed.value].status.Running?
      ensures claimed.None? ==> db == old(db)
    {
      var found := FindBoss(db.attempts, bossId);
      if found.None? {
        return None;
      }
      var i := found.value;
      var a := db.attempts[i];
      if a.link.Some? {
        if !IsCurrent(db.runs, a.link.value) {
          return None;
        }
        var s := db.runs[a.link.value.run].status;
        if !s.Queued? && !s.RetryWait? {
          return None;
        }
      }
      if !a.status.Queued? {
        return None;
      }
      db := db.(attempts := db.attempts[i := a.(status := Running, attempts := a.attempts + 1)]);
      if a.link.Some? {
        var r := a.link.value.run;
        db := db.(runs := db.runs[r := db.runs[r].(status := Running)]);
      }
      return Some(i);
    }

    /** The transaction after the handler succeeded or failed; false when the result is stale. */
    method CommitResult(i: nat, o: Outcome) returns (committed: bool)
      requires i < |db.attempts| && !o.NothingToDo?
      modifies this
      ensures db == Finish(old(db), i, o) && committed == Working(old(db), i)
    {
      var a := db.attempts[i];
      if !a.status.Running? {
        return false;
      }
      var s := if o.Done? then Succeeded else if o.needsHuman then NeedsHuman else if o.final then Failed else Queued;
      if a.link.Some? {
        var link := a.link.value;
        if !IsCurrent(db.runs, link) || !db.runs[link.run].status.Running? {
          return false;
        }
        db := db.(runs := db.runs[link.run := db.runs[link.run].(status := s)]);
      }
      db := db.(attempts := db.attempts[i := a.(status := s)]);
      return true;
    }

    /** The transaction after the handler found nothing left to do. */
    method CommitSkip(i: nat) returns (committed: bool)
      requires i < |db.attempts|
      modifies this
      ensures db == Finish(old(db), i, NothingToDo) && committed == old(db).attempts[i].status.Running?
    {
      var a := db.attempts[i];
      if !a.status.Running? {
        return false;
      }
      db := db.(attempts := db.attempts[i := a.(status := Skipped)]);
      if a.link.Some? && IsCurrent(db.runs, a.link.value) {
        var r := a.link.value.run;
        db := db.(runs := db.runs[r := db.runs[r].(status := Skipped)]);
      }
      return true;
    }

    /**
     * What the gate does with a delivery of an archived business: its row is not
     * live afterwards, neither is its run, and no other row or run is touched.
     */
    method SkipArchivedDelivery(bossId: nat)
      modifies this
      ensures db == SkipArchived(old(db), bossId)
      ensures |db.attempts| == |old(db).attempts| && |db.runs| == |old(db).runs| && db.boss == old(db).boss
      ensures var found := FindBoss(old(db).attempts, bossId);
              && (found.Some? ==> !Active(db.attempts[found.value].status))
              && (forall i :: 0 <= i < |db.attempts| && found != Some(i) ==> db.attempts[i] == old(db).attempts[i])
              && (forall r :: 0 <= r < |db.runs| && db.runs[r] != old(db).runs[r] ==>
                    && found.Some? && Of(old(db).attempts[found.value], r)
                    && Active(old(db).runs[r].status) && db.runs[r].status.Cancelled?)
      ensures Safe(old(db)) && Timely(old(db), bossId) ==> Safe(db)
    {
      if Safe(db) && Timely(db, bossId) {
        SkipArchivedSafe(db, bossId);
      }
      var found := FindBoss(db.attempts, bossId);
      if found.Some? && Active(db.attempts[found.value].status) {
        var a := db.attempts[found.value];
        db := db.(attempts := db.attempts[found.value := a.(status := Cancelled)]);
        if a.link.Some? && a.link.value.run < |db.runs| && Active(db.runs[a.link.value.run].status) {
          var r := a.link.value.run;
          db := db.(runs := db.runs[r := db.runs[r].(status := Cancelled)]);
        }
      }
    }
  }

  lemma {:induction false} SendsGrow(db: Db, cs: seq<Command>, more: seq<Command>)
    ensures Sends(db, cs) <= Sends(db, cs + more)
    decreases |cs|
  {
    if cs == [] {
      assert [] + more == more;
      EnqueueAllAppends(db, more);
    } else {
      assert (cs + more)[1..] == cs[1..] + more;
      SendsGrow(EnqueueOne(db, cs[0]).0, cs[1..], more);
    }
  }

  lemma {:induction false} EnqueueAllAppends(db: Db, cs: seq<Command>)
    ensures |db.boss| <= |EnqueueAll(db, cs).0.boss|
    decreases |cs|
  {
    if cs != [] {
      EnqueueAllAppends(EnqueueOne(db, cs[0]).0, cs[1..]);
    }
  }
}
