// The barrier's transactions as they run, over the run store they share. A
// failing send throws, and the throw undoes the generation rows as well.
module EnrichmentBarrier {
  import opened Bytes
  import L = Ledger
  import R = WorkflowRunStore
  import opened Barrier

  class Service {
    const store: R.Store
    const businesses: map<string, string>
    var gens: seq<Gen>

    constructor (store: R.Store, businesses: map<string, string>)
      ensures this.store == store && this.businesses == businesses && gens == []
    {
      this.store, this.businesses, gens := store, businesses, [];
    }

    function View(): State
      reads this, store
    {
      State(businesses, gens, store.db)
    }

    /** Supersedes what is current and opens the next generation with its two jobs. */
    method OpenGeneration(business: string, campaign: string, id: string, sends: nat -> bool)
      returns (generation: Option<nat>)
      modifies this, store
      ensures generation.Some? <==>
              (Start(old(View()), business, campaign, id).Some?
               && forall k: nat :: k < R.Sends(old(store.db), BranchCommands(business, id)) ==> sends(k))
      ensures if generation.Some?
              then Start(old(View()), business, campaign, id) == Some(View()) && generation.value == Latest(old(gens), business) + 1
              else View() == old(View())
    {
      if business !in businesses || businesses[business] != campaign {
        return None;
      }
      var before := gens;
      var next := Latest(gens, business) + 1;
      gens := SupersedeRows(gens, business);
      gens := gens + [Gen(id, business, campaign, next, false, Running, Pending, Pending, None, false)];
      var jobs := store.EnqueueTransaction(BranchCommands(business, id), _ => true, sends);
      if jobs.None? {
        gens := before;
        return None;
      }
      return Some(next);
    }

    /** One branch result; `ran` tells whether the branch's own writes were committed with it. */
    method SettleBranch(id: string, business: string, b: Branch, outcome: BranchStatus, reason: string, sent: bool)
      returns (decision: Option<Decision>, ran: bool)
      requires !outcome.Pending?
      modifies this, store
      ensures var (next, d) := Settle(old(View()), id, business, b, outcome, reason);
              && (decision.None? <==>
                  d.EnqueueScore? && !sent && R.Sends(old(store.db), [ScoreJob(id, business)]) > 0)
              && if decision.Some? then View() == next && decision == Some(d) && ran == MutationRuns(d)
                 else View() == old(View()) && !ran
    {
      var found := Find(gens, id, business);
      if found.None? {
        return Some(Stale), false;
      }
      var i := found.value;
      var g := gens[i];
      assert gens[i := g] == gens;
      if g.status.Superseded? || g.status.Completed? {
        return Some(Stale), false;
      }
      var current := BranchOf(g, b);
      if current == outcome {
        return Some(AlreadyRecorded), false;
      }
      if g.status.Blocked? {
        if current.Pending? {
          gens := gens[i := WithBranch(g, b, outcome)];
          return Some(if outcome.Succeeded? then Recorded else BlockedRun(true)), outcome.Succeeded?;
        }
        return Some(BlockedRun(false)), false;
      }
      if !current.Pending? {
        return Some(BlockedRun(false)), false;
      }
      if !outcome.Succeeded? {
        gens := gens[i := WithBranch(g, b, outcome).(status := Blocked, reason := Some(reason))];
        return Some(BlockedRun(true)), false;
      }
      var otherSucceeded := if b.Assets? then g.audit.Succeeded? else g.assets.Succeeded?;
      if !otherSucceeded {
        gens := gens[i := WithBranch(g, b, Succeeded)];
        return Some(Recorded), true;
      }
      gens := gens[i := WithBranch(g, b, Succeeded).(status := ScoreEnqueued, scored := true)];
      var command := ScoreCommand(gens[i]);
      R.OneCommand(store.db, command);
      var sends: nat -> bool := _ => sent;
      var jobs := store.EnqueueTransaction([command], _ => true, sends);
      assert sends(0) == sent;
      if jobs.None? {
        gens := gens[i := g];
        return None, false;
      }
      return Some(EnqueueScore), true;
    }

    /** Commits the score's evidence and its commands, or nothing; None is a throw. */
    method CommitScoreRun(id: string, business: string, commands: seq<L.Command>, sends: nat -> bool)
      returns (committed: Option<bool>)
      modifies this, store
      ensures var r := CommitScore(old(View()), id, business, commands);
              && (committed.Some? <==>
                  r.Some? && (r.value.1 ==> forall k: nat :: k < R.Sends(old(store.db), commands) ==> sends(k)))
              && if committed.Some? then r == Some((View(), committed.value)) else View() == old(View())
    {
      if business !in businesses {
        return None;
      }
      var found := Find(gens, id, business);
      if found.None? {
        return Some(false);
      }
      var i := found.value;
      var g := gens[i];
      if !g.status.ScoreEnqueued? || !g.assets.Succeeded? || !g.audit.Succeeded? || !g.scored {
        return Some(false);
      }
      gens := gens[i := g.(status := Completed)];
      var jobs := store.EnqueueTransaction(commands, _ => true, sends);
      if jobs.None? {
        gens := gens[i := g];
        return None;
      }
      return Some(true);
    }
  }

  /** UPDATE ... SET status = 'superseded' over the current rows of a business. */
  method SupersedeRows(rows: seq<Gen>, business: string) returns (gens: seq<Gen>)
    ensures gens == SupersedeCurrent(rows, business)
  {
    gens := rows;
    for i := 0 to |rows|
      invariant |gens| == |rows|
      invariant forall j :: 0 <= j < |rows| ==>
                  gens[j] == if j < i then SupersedeCurrent(rows, business)[j] else rows[j]
    {
      if rows[i].business == business && (rows[i].status.Running? || rows[i].status.ScoreEnqueued?) {
        gens := gens[i := rows[i].(status := Superseded)];
      }
    }
  }
}
