// What each transaction of the barrier writes and answers, told row by row.
module BarrierAnswers {
  import opened Bytes
  import L = Ledger
  import W = WorkflowRuns
  import opened Barrier
  import opened BarrierSafety

  /** Identifiers are unique, so a lookup finds the row itself. */
  lemma FindsRow(s: State, i: nat)
    requires Sound(s) && i < |s.gens|
    ensures Find(s.gens, s.gens[i].id, s.gens[i].business) == Some(i)
  {
    var found := Find(s.gens, s.gens[i].id, s.gens[i].business).value;
    assert InOrder(s.gens, i, found) && InOrder(s.gens, found, i);
  }

  // --- branch results ----------------------------------------------------------------

  /** Only a running generation whose branch is open can be decided by a result. */
  predicate Deciding(g: Gen, b: Branch) {
    g.status.Running? && BranchOf(g, b).Pending?
  }

  /**
   * What a result writes: an open branch of a generation that is not over takes
   * it, and no other branch or generation changes; the first failure blocks with
   * its reason, the second success enqueues the one score job.
   */
  lemma SettleWrites(s: State, i: nat, b: Branch, outcome: BranchStatus, reason: string)
    requires Sound(s) && i < |s.gens| && !outcome.Pending?
    ensures var g := s.gens[i];
            var s' := Settle(s, g.id, g.business, b, outcome, reason).0;
            var joins := Deciding(g, b) && outcome.Succeeded? && BranchOf(g, OtherBranch(b)).Succeeded?;
            var blocks := Deciding(g, b) && !outcome.Succeeded?;
            && |s'.gens| == |s.gens| && s'.businesses == s.businesses
            && (forall j :: 0 <= j < |s.gens| && j != i ==> s'.gens[j] == s.gens[j])
            && s'.gens[i] == g.(assets := s'.gens[i].assets, audit := s'.gens[i].audit, status := s'.gens[i].status,
                                reason := s'.gens[i].reason, scored := s'.gens[i].scored)
            && BranchOf(s'.gens[i], OtherBranch(b)) == BranchOf(g, OtherBranch(b))
            && BranchOf(s'.gens[i], b) ==
               (if BranchOf(g, b).Pending? && (g.status.Running? || g.status.Blocked?) then outcome else BranchOf(g, b))
            && s'.gens[i].status == (if joins then ScoreEnqueued else if blocks then Blocked else g.status)
            && s'.gens[i].reason == (if blocks then Some(reason) else g.reason)
            && s'.gens[i].scored == (g.scored || joins)
            && s'.ledger == if joins then L.EnqueueOne(s.ledger, ScoreJob(g.id, g.business)).0 else s.ledger
  {
    FindsRow(s, i);
    assert GenSound(s.gens[i]);
  }

  /** What it answers, by the row as it was. */
  lemma SettleAnswers(s: State, i: nat, b: Branch, outcome: BranchStatus, reason: string)
    requires Sound(s) && i < |s.gens| && !outcome.Pending?
    ensures var g := s.gens[i];
            var was := BranchOf(g, b);
            var d := Settle(s, g.id, g.business, b, outcome, reason).1;
            && (d.Stale? <==> g.status.Superseded? || g.status.Completed?)
            && (d.AlreadyRecorded? <==> !g.status.Superseded? && !g.status.Completed? && was == outcome)
            && (d == EnqueueScore <==>
                Deciding(g, b) && outcome.Succeeded? && BranchOf(g, OtherBranch(b)).Succeeded?)
            && (d == Recorded <==>
                was.Pending? && outcome.Succeeded?
                && (g.status.Blocked? || (g.status.Running? && !BranchOf(g, OtherBranch(b)).Succeeded?)))
            && (d == BlockedRun(true) <==>
                was.Pending? && !outcome.Succeeded? && (g.status.Running? || g.status.Blocked?))
            && (d == BlockedRun(false) <==>
                was != outcome && !was.Pending? && !g.status.Superseded? && !g.status.Completed?)
  {
    FindsRow(s, i);
    assert GenSound(s.gens[i]);
  }

  /** A result for a generation that is not there is stale and writes nothing. */
  lemma UnknownIsStale(s: State, id: string, business: string, b: Branch, outcome: BranchStatus, reason: string)
    requires forall i :: 0 <= i < |s.gens| ==> s.gens[i].id != id || s.gens[i].business != business
    ensures Settle(s, id, business, b, outcome, reason) == (s, Stale)
    ensures Authorize(s, id, business, b).Outdated?
    ensures business in s.businesses ==> CommitScore(s, id, business, []) == Some((s, false))
  {}

  /** The authorization before the work, by the row. */
  lemma AuthorizeAnswers(s: State, i: nat, b: Branch)
    requires i < |s.gens| && Find(s.gens, s.gens[i].id, s.gens[i].business) == Some(i)
    ensures var g := s.gens[i];
            var a, open := Authorize(s, g.id, g.business, b), BranchOf(g, b).Pending?;
            && (a == Run <==> g.status.Running? && open)
            && (a == NoWork <==> g.status.Blocked? && open)
            && (a == Settled <==> !open && !g.status.Superseded? && !g.status.Completed?)
            && (a == Outdated <==>
                g.status.Superseded? || g.status.Completed? || (g.status.ScoreEnqueued? && open))
  {}

  // --- new generations -----------------------------------------------------------------

  /** A start supersedes what is current of the business, and only that, and opens the next generation. */
  lemma StartOpens(s: State, business: string, campaign: string, id: string)
    requires Sound(s)
    ensures Start(s, business, campaign, id).Some? <==> business in s.businesses && s.businesses[business] == campaign
    ensures Start(s, business, campaign, id).Some? ==>
              var s' := Start(s, business, campaign, id).value;
              && |s'.gens| == |s.gens| + 1 && s'.businesses == s.businesses
              && s'.gens[|s.gens|] == Gen(id, business, campaign, s'.gens[|s.gens|].generation, false,
                                          Running, Pending, Pending, None, false)
              && (forall j :: 0 <= j < |s.gens| ==>
                    && s'.gens[j] == (if s.gens[j].business == business
                                         && (s.gens[j].status.Running? || s.gens[j].status.ScoreEnqueued?)
                                      then s.gens[j].(status := Superseded) else s.gens[j])
                    && (s.gens[j].business == business ==> s.gens[j].generation < s'.gens[|s.gens|].generation))
  {}

  /** The two branch jobs of a start: their types, queues and keys, each a run of its own. */
  lemma StartQueuesBranches(s: State, business: string, campaign: string, id: string)
    requires business in s.businesses && s.businesses[business] == campaign
    requires L.FindActive(s.ledger.runs, "collect-assets", "collect-assets:" + business + ":enrichment:" + id).None?
    requires L.FindActive(s.ledger.runs, "audit-website", "audit-website:" + business + ":enrichment:" + id).None?
    ensures var db, db' := s.ledger, Start(s, business, campaign, id).value.ledger;
            var r, b := |db.runs|, |db.boss|;
            var assets := "collect-assets:" + business + ":enrichment:" + id;
            var audit := "audit-website:" + business + ":enrichment:" + id;
            && db'.runs == db.runs + [L.Run("collect-assets", assets, Some(business), L.Queued, 1, 0),
                                      L.Run("audit-website", audit, Some(business), L.Queued, 1, 0)]
            && db'.boss == db.boss + [L.BossJob("agent-core", L.Created, b), L.BossJob("audit-website", L.Created, b + 1)]
            && db'.attempts == db.attempts +
                 [L.Attempt("collect-assets", assets, Some(business), Some(b), Some(L.Link(r, 1)), L.Queued, 0),
                  L.Attempt("audit-website", audit, Some(business), Some(b + 1), Some(L.Link(r + 1, 1)), L.Queued, 0)]
  {
    var cs := BranchCommands(business, id);
    var first := L.EnqueueOne(s.ledger, cs[0]).0;
    assert cs[1..] == [cs[1]] && [cs[1]][1..] == [];
    assert first.runs[..|s.ledger.runs|] == s.ledger.runs;
    OtherRunsInactive(s.ledger.runs, first.runs[|s.ledger.runs|], cs[1].name, cs[1].key);
    var second := L.EnqueueOne(first, cs[1]).0;
    assert L.EnqueueAll(first, [cs[1]]).0 == second;
    assert L.EnqueueAll(s.ledger, cs).0 == second;
  }

  lemma OtherRunsInactive(runs: seq<L.Run>, r: L.Run, name: string, key: string)
    requires L.FindActive(runs, name, key).None? && r.jobType != name
    ensures L.FindActive(runs + [r], name, key).None?
  {
    assert (runs + [r])[..|runs|] == runs;
  }

  /** The score job of a generation: its type, queue and key. */
  lemma ScoreIsQueued(s: State, id: string, business: string)
    requires L.FindActive(s.ledger.runs, "score-and-qa", "score-and-qa:" + business + ":enrichment:" + id).None?
    ensures var db, db' := s.ledger, L.EnqueueOne(s.ledger, ScoreJob(id, business)).0;
            var key := "score-and-qa:" + business + ":enrichment:" + id;
            && db'.runs == db.runs + [L.Run("score-and-qa", key, Some(business), L.Queued, 1, 0)]
            && db'.boss == db.boss + [L.BossJob("agent-enrich", L.Created, |db.boss|)]
  {}

  /** A branch job without a generation shares the current legacy one, is refused by a native one, or opens a legacy one. */
  lemma AdoptAnswers(s: State, business: string, id: string)
    requires Sound(s) && business in s.businesses
    ensures var (s', answer) := AdoptLegacy(s, business, id).value;
            && s'.businesses == s.businesses && s'.ledger == s.ledger
            && (forall i :: 0 <= i < |s.gens| && s.gens[i].business == business
                            && (s.gens[i].status.Running? || s.gens[i].status.ScoreEnqueued?) ==>
                  && s' == s
                  && answer == if s.gens[i].legacy then Adopted(s.gens[i].id, s.gens[i].generation)
                               else Conflict(s.gens[i].id, s.gens[i].generation))
            && ((forall i :: 0 <= i < |s.gens| && s.gens[i].business == business ==>
                   !s.gens[i].status.Running? && !s.gens[i].status.ScoreEnqueued?) ==>
                  && s'.gens == s.gens + [Gen(id, business, s.businesses[business], s'.gens[|s.gens|].generation, true,
                                              Running, Pending, Pending, None, false)]
                  && (forall i :: 0 <= i < |s.gens| && s.gens[i].business == business ==>
                        s.gens[i].generation < s'.gens[|s.gens|].generation)
                  && answer == Adopted(id, s'.gens[|s.gens|].generation))
  {
    forall i: nat | i < |s.gens| && s.gens[i].business == business && Current(s.gens[i])
      ensures FindCurrent(s.gens, business) == Some(i)
    {
      CurrentIsLatest(s, i);
    }
  }

  /** Archiving a business ends its open generation, and nobody else's. */
  lemma ShelvingSupersedes(m: Machine, business: string, i: nat)
    requires i < |m.tables.gens|
    ensures var gens := Next(m, Jobs(W.Shelve(business))).tables.gens;
            && |gens| == |m.tables.gens|
            && gens[i] == if business !in m.archived && m.tables.gens[i].business == business
                             && (m.tables.gens[i].status.Running? || m.tables.gens[i].status.ScoreEnqueued?)
                          then m.tables.gens[i].(status := Superseded) else m.tables.gens[i]
  {}

  // --- score commits -------------------------------------------------------------------

  /**
   * A score is committed exactly for a generation whose score is enqueued, with
   * both branches succeeded. The commit completes that generation, enqueues its
   * commands and changes no other row; otherwise nothing changes.
   */
  lemma CommitCompletes(s: State, i: nat, commands: seq<L.Command>)
    requires i < |s.gens| && Find(s.gens, s.gens[i].id, s.gens[i].business) == Some(i)
    requires s.gens[i].business in s.businesses
    ensures var g := s.gens[i];
            var due := g.status.ScoreEnqueued? && g.assets.Succeeded? && g.audit.Succeeded? && g.scored;
            var answer := CommitScore(s, g.id, g.business, commands);
            && answer.Some? && (answer.value.1 <==> due)
            && var s' := answer.value.0;
               if due
               then s' == s.(gens := s'.gens, ledger := L.EnqueueAll(s.ledger, commands).0)
                    && |s'.gens| == |s.gens| && s'.gens[i] == g.(status := Completed)
                    && (forall j :: 0 <= j < |s.gens| && j != i ==> s'.gens[j] == s.gens[j])
               else s' == s
  {}

  /** An unknown business is a throw. */
  lemma UnknownBusinessThrows(s: State, id: string, business: string, commands: seq<L.Command>)
    ensures CommitScore(s, id, business, commands).None? <==> business !in s.businesses
    ensures AdoptLegacy(s, business, id).None? <==> business !in s.businesses
  {}

  /** Whether this step commits the score of the generation. */
  predicate Commits(s: State, step: Step, id: string, business: string) {
    step.ScoreDone? && step.id == id && step.business == business
    && var answer := CommitScore(s, id, business, step.commands); answer.Some? && answer.value.1
  }

  function CommitCount(m: Machine, steps: seq<Step>, id: string, business: string): nat
    decreases |steps|
  {
    if steps == [] then 0
    else (if Commits(m.tables, steps[0], id, business) then 1 else 0)
         + CommitCount(Next(m, steps[0]), steps[1..], id, business)
  }

  lemma OverNeverCommits(m: Machine, steps: seq<Step>, i: nat)
    requires MachineSound(m) && AllAllowed(m, steps) && i < |m.tables.gens|
    requires m.tables.gens[i].status.Completed? || m.tables.gens[i].status.Superseded?
    ensures CommitCount(m, steps, m.tables.gens[i].id, m.tables.gens[i].business) == 0
    decreases |steps|
  {
    if steps != [] {
      var g := m.tables.gens[i];
      FindsRow(m.tables, i);
      StepSound(m, steps[0]);
      StepSettles(m, steps[0]);
      assert RowSettles(g, Next(m, steps[0]).tables.gens[i]);
      OverNeverCommits(Next(m, steps[0]), steps[1..], i);
    }
  }

  /** Over any run the score of a generation is committed at most once. */
  lemma {:induction false} ScoreCommittedOnce(m: Machine, steps: seq<Step>, i: nat)
    requires MachineSound(m) && AllAllowed(m, steps) && i < |m.tables.gens|
    ensures CommitCount(m, steps, m.tables.gens[i].id, m.tables.gens[i].business) <= 1
    decreases |steps|
  {
    if steps != [] {
      var g, next := m.tables.gens[i], Next(m, steps[0]);
      StepSound(m, steps[0]);
      StepSettles(m, steps[0]);
      assert RowSettles(g, next.tables.gens[i]);
      if Commits(m.tables, steps[0], g.id, g.business) {
        FindsRow(m.tables, i);
        CommitCompletes(m.tables, i, steps[0].commands);
        OverNeverCommits(next, steps[1..], i);
      } else {
        ScoreCommittedOnce(next, steps[1..], i);
      }
    }
  }

  /** A second delivery of a committed score, however late, answers false and changes nothing. */
  lemma SecondCommitIsIdle(m: Machine, i: nat, first: seq<L.Command>, steps: seq<Step>, second: seq<L.Command>)
    requires MachineSound(m) && i < |m.tables.gens| && Foreign(first)
    requires var g := m.tables.gens[i]; Commits(m.tables, ScoreDone(g.id, g.business, first), g.id, g.business)
    requires var g := m.tables.gens[i]; AllAllowed(Next(m, ScoreDone(g.id, g.business, first)), steps)
    ensures var g := m.tables.gens[i];
            var later := Replay(Next(m, ScoreDone(g.id, g.business, first)), steps).tables;
            CommitScore(later, g.id, g.business, second) == Some((later, false))
  {
    var g := m.tables.gens[i];
    var step := ScoreDone(g.id, g.business, first);
    var next := Next(m, step);
    FindsRow(m.tables, i);
    CommitCompletes(m.tables, i, first);
    StepSound(m, step);
    AlwaysSound(next, steps);
    var later := Replay(next, steps).tables;
    assert RowSettles(next.tables.gens[i], later.gens[i]);
    BusinessesStay(next, steps);
    FindsRow(later, i);
    CommitCompletes(later, i, second);
  }

  lemma {:induction false} BusinessesStay(m: Machine, steps: seq<Step>)
    ensures Replay(m, steps).tables.businesses == m.tables.businesses
    decreases |steps|
  {
    if steps != [] {
      BusinessesStay(Next(m, steps[0]), steps[1..]);
    }
  }

  // --- a whole run -----------------------------------------------------------------------

  /** A transaction that goes through is the step; one that throws is none. */
  lemma StepsAreTransactions(m: Machine, business: string, campaign: string, id: string, commands: seq<L.Command>)
    ensures var r := Start(m.tables, business, campaign, id);
            Next(m, StartRun(business, campaign, id)) == if r.Some? then m.(tables := r.value) else m
    ensures var r := AdoptLegacy(m.tables, business, id);
            Next(m, AdoptBranch(business, id)) == if r.Some? then m.(tables := r.value.0) else m
    ensures var r := CommitScore(m.tables, id, business, commands);
            Next(m, ScoreDone(id, business, commands)) == if r.Some? then m.(tables := r.value.0) else m
  {}

  lemma ResultOfOne(m: Machine, g: Gen, b: Branch)
    requires MachineSound(m) && m.tables.gens == [g] && g.status.Running? && BranchOf(g, b).Pending?
    ensures var m' := Next(m, SettleBranch(g.id, g.business, b, Succeeded, ""));
            && MachineSound(m')
            && (BranchOf(g, OtherBranch(b)).Pending? ==> m'.tables == m.tables.(gens := [WithBranch(g, b, Succeeded)]))
            && (BranchOf(g, OtherBranch(b)).Succeeded? ==>
                  && m'.tables.gens == [g.(assets := Succeeded, audit := Succeeded, status := ScoreEnqueued, scored := true)]
                  && |m'.tables.ledger.runs| == |m.tables.ledger.runs| + 1
                  && |m'.tables.ledger.boss| == |m.tables.ledger.boss| + 1)
  {
    assert m.tables.gens[0] == g;
    SettleWrites(m.tables, 0, b, Succeeded, "");
    StepSound(m, SettleBranch(g.id, g.business, b, Succeeded, ""));
    assert GenSound(g);
    JoinIsAccepted(m.tables, 0);
  }

  function OneShop(): Machine {
    Machine(State(map["shop" := "spring"], [], L.Db([], [], [])), {}, {})
  }

  lemma FirstStart(id: string)
    requires |id| == UUID_LENGTH
    ensures var m := Next(OneShop(), StartRun("shop", "spring", id));
            && MachineSound(m) && m.tables.businesses == map["shop" := "spring"]
            && m.tables.gens == [Gen(id, "shop", "spring", 1, false, Running, Pending, Pending, None, false)]
            && |m.tables.ledger.runs| == |m.tables.ledger.boss| == 2
  {
    NoGenerationsIsSound(OneShop().tables.businesses, OneShop().tables.ledger);
    StartQueuesBranches(OneShop().tables, "shop", "spring", id);
    StepSound(OneShop(), StartRun("shop", "spring", id));
  }

  /** A generation from its start to its score: three jobs, and the score is committed. */
  lemma OneGeneration(id: string) returns (m: Machine)
    requires |id| == UUID_LENGTH
    ensures m == Next(Next(Next(OneShop(), StartRun("shop", "spring", id)),
                           SettleBranch(id, "shop", Audit, Succeeded, "")),
                      SettleBranch(id, "shop", Assets, Succeeded, ""))
    ensures m.tables.gens == [Gen(id, "shop", "spring", 1, false, ScoreEnqueued, Succeeded, Succeeded, None, true)]
    ensures |m.tables.ledger.runs| == |m.tables.ledger.boss| == 3
    ensures MachineSound(m) && Commits(m.tables, ScoreDone(id, "shop", []), id, "shop")
  {
    var g := Gen(id, "shop", "spring", 1, false, Running, Pending, Pending, None, false);
    FirstStart(id);
    var m1 := Next(OneShop(), StartRun("shop", "spring", id));
    ResultOfOne(m1, g, Audit);
    var m2 := Next(m1, SettleBranch(id, "shop", Audit, Succeeded, ""));
    ResultOfOne(m2, g.(audit := Succeeded), Assets);
    m := Next(m2, SettleBranch(id, "shop", Assets, Succeeded, ""));
    CommitOfOne(m, m.tables.gens[0]);
  }

  lemma CommitOfOne(m: Machine, g: Gen)
    requires MachineSound(m) && m.tables.gens == [g] && g.status.ScoreEnqueued? && g.business in m.tables.businesses
    ensures Commits(m.tables, ScoreDone(g.id, g.business, []), g.id, g.business)
  {
    assert m.tables.gens[0] == g && GenSound(m.tables.gens[0]);
    FindsRow(m.tables, 0);
    CommitCompletes(m.tables, 0, []);
  }
}
