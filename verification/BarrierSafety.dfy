// What the enrichment barrier keeps over whole runs.
module BarrierSafety {
  import opened Bytes
  import L = Ledger
  import S = LedgerSafety
  import T = LedgerSteps
  import C = Reconciler
  import W = WorkflowRuns
  import opened Barrier

  /** How many logical runs carry a score key. */
  function ScoreRuns(runs: seq<L.Run>, key: string): nat {
    if runs == [] then 0
    else
      ScoreRuns(runs[..|runs| - 1], key)
      + if runs[|runs| - 1].jobType == SCORE && runs[|runs| - 1].key == key then 1 else 0
  }

  function KeyOf(g: Gen): string {
    ScoreKey(g.business, g.id)
  }

  predicate GenSound(g: Gen) {
    && |g.id| == UUID_LENGTH && g.generation >= 1
    && (g.scored <==> BothSucceeded(g))
    && match g.status
       case Running => !g.scored && BranchGood(g.assets) && BranchGood(g.audit)
       case ScoreEnqueued => g.scored
       case Completed => g.scored
       case Blocked => !(BranchGood(g.assets) && BranchGood(g.audit))
       case Superseded => BranchGood(g.assets) && BranchGood(g.audit)
  }

  predicate BranchGood(b: BranchStatus) {
    b.Pending? || b.Succeeded?
  }

  /** Generations of a business grow, and only its last one can be current. */
  predicate InOrder(gens: seq<Gen>, i: nat, j: nat) {
    i < j < |gens| ==>
      gens[i].id != gens[j].id
      && (gens[i].business == gens[j].business ==>
            gens[i].generation < gens[j].generation && !Current(gens[i]))
  }

  /** A generation has one score job in the ledger if it scored, and none if it did not. */
  predicate ScoreAccounted(runs: seq<L.Run>, g: Gen) {
    ScoreRuns(runs, KeyOf(g)) == if g.scored then 1 else 0
  }

  /** Score jobs are younger than logical runs: none of their rows lacks one. */
  predicate ScoresLinked(attempts: seq<L.Attempt>) {
    forall i :: 0 <= i < |attempts| && attempts[i].link.None? ==> attempts[i].jobType != SCORE
  }

  ghost predicate Sound(s: State) {
    && S.Safe(s.ledger) && ScoresLinked(s.ledger.attempts)
    && (forall i :: 0 <= i < |s.gens| ==> GenSound(s.gens[i]))
    && (forall i: nat, j: nat :: InOrder(s.gens, i, j))
    && (forall i :: 0 <= i < |s.gens| ==> ScoreAccounted(s.ledger.runs, s.gens[i]))
  }

  // --- score keys --------------------------------------------------------------------

  /** The identifier is the last 36 characters of the key. */
  lemma KeysDiffer(business: string, id: string, business': string, id': string)
    requires |id| == |id'| == UUID_LENGTH && id != id'
    ensures ScoreKey(business, id) != ScoreKey(business', id')
  {
    var k, k' := ScoreKey(business, id), ScoreKey(business', id');
    assert k[|k| - UUID_LENGTH..] == id && k'[|k'| - UUID_LENGTH..] == id';
  }

  lemma {:induction false} SameRunsSameScores(x: seq<L.Run>, y: seq<L.Run>, key: string)
    requires |x| == |y| && forall r :: 0 <= r < |x| ==> x[r].jobType == y[r].jobType && x[r].key == y[r].key
    ensures ScoreRuns(x, key) == ScoreRuns(y, key)
    decreases |x|
  {
    if x != [] {
      SameRunsSameScores(x[..|x| - 1], y[..|y| - 1], key);
    }
  }

  lemma {:induction false} NoActiveScore(runs: seq<L.Run>, key: string)
    requires ScoreRuns(runs, key) == 0
    ensures L.FindActive(runs, SCORE, key).None?
    decreases |runs|
  {
    if runs != [] {
      NoActiveScore(runs[..|runs| - 1], key);
    }
  }

  lemma EnqueueOneScores(db: L.Db, c: L.Command, key: string)
    ensures var (db', r) := L.EnqueueOne(db, c);
            ScoreRuns(db'.runs, key) ==
            ScoreRuns(db.runs, key) + if r.Accepted? && c.name == SCORE && c.key == key then 1 else 0
  {
    var (db', r) := L.EnqueueOne(db, c);
    if r.Accepted? {
      assert db'.runs[..|db.runs|] == db.runs;
    } else {
      SameRunsSameScores(db.runs, db'.runs, key);
    }
  }

  lemma {:induction false} ForeignScores(db: L.Db, cs: seq<L.Command>, key: string)
    requires Foreign(cs)
    ensures ScoreRuns(L.EnqueueAll(db, cs).0.runs, key) == ScoreRuns(db.runs, key)
    decreases |cs|
  {
    if cs != [] {
      EnqueueOneScores(db, cs[0], key);
      ForeignScores(L.EnqueueOne(db, cs[0]).0, cs[1..], key);
    }
  }

  /** Runs added behind the others that are no score jobs. */
  lemma {:induction false} AddedRunsNoScores(runs: seq<L.Run>, later: seq<L.Run>, key: string)
    requires runs <= later && forall r :: |runs| <= r < |later| ==> later[r].jobType != SCORE
    ensures ScoreRuns(later, key) == ScoreRuns(runs, key)
    decreases |later|
  {
    if |later| == |runs| {
      assert later == runs;
    } else {
      AddedRunsNoScores(runs, later[..|later| - 1], key);
    }
  }

  /** A run that a repair adds has the job type of the row it adopts. */
  lemma AddedRunIsAdopted(db: L.Db, cat: C.Catalog, r: nat)
    requires S.Safe(db) && ScoresLinked(db.attempts) && |db.runs| <= r < |C.Reconcile(db, cat).0.runs|
    ensures C.Reconcile(db, cat).0.runs[r].jobType != SCORE
  {
    var db' := C.Reconcile(db, cat).0;
    C.EveryRowMeetsItsFate(db, cat);
    assert S.HasAttempt(db'.attempts, L.Link(r, 1));
    var i: nat :| S.LinkedAt(db'.attempts, i, L.Link(r, 1));
    assert C.Settled(db, cat, db', i) && S.LinkFits(db, db.attempts[i]);
  }

  lemma RepairKeepsRuns(db: L.Db, cat: C.Catalog)
    requires S.Safe(db)
    ensures db.runs <= C.Reconcile(db, cat).0.runs
  {
    C.EveryRowMeetsItsFate(db, cat);
  }

  lemma RepairScores(db: L.Db, cat: C.Catalog, key: string)
    requires S.Safe(db) && ScoresLinked(db.attempts)
    ensures ScoreRuns(C.Reconcile(db, cat).0.runs, key) == ScoreRuns(db.runs, key)
  {
    var later := C.Reconcile(db, cat).0.runs;
    RepairKeepsRuns(db, cat);
    forall r: nat | |db.runs| <= r < |later| ensures later[r].jobType != SCORE {
      AddedRunIsAdopted(db, cat, r);
    }
    AddedRunsNoScores(db.runs, later, key);
  }

  lemma StepScores(db: L.Db, step: T.Step, key: string)
    requires S.Safe(db) && T.StepTimely(db, step) && ScoresLinked(db.attempts)
    requires step.Enqueue? ==> Foreign(step.commands)
    ensures ScoreRuns(T.Next(db, step).runs, key) == ScoreRuns(db.runs, key)
  {
    if step.Enqueue? {
      ForeignScores(db, step.commands, key);
    } else if step.Repair? {
      RepairScores(db, step.catalog, key);
    } else {
      T.StepAddsNoRun(db, step);
      T.StepGrows(db, step);
      SameRunsSameScores(db.runs, T.Next(db, step).runs, key);
    }
  }

  // --- score rows stay linked ----------------------------------------------------------

  lemma {:induction false} EnqueueAllLinked(db: L.Db, cs: seq<L.Command>)
    requires ScoresLinked(db.attempts)
    ensures ScoresLinked(L.EnqueueAll(db, cs).0.attempts)
    decreases |cs|
  {
    if cs != [] {
      EnqueueAllLinked(L.EnqueueOne(db, cs[0]).0, cs[1..]);
    }
  }

  lemma RepairLinked(db: L.Db, cat: C.Catalog)
    requires S.Safe(db) && ScoresLinked(db.attempts)
    ensures ScoresLinked(C.Reconcile(db, cat).0.attempts)
  {
    C.EveryRowMeetsItsFate(db, cat);
    forall i: nat | i < |db.attempts|
      ensures C.Reconcile(db, cat).0.attempts[i].jobType == db.attempts[i].jobType
      ensures db.attempts[i].link.Some? ==> C.Reconcile(db, cat).0.attempts[i].link.Some?
    {
      assert C.Settled(db, cat, C.Reconcile(db, cat).0, i);
    }
  }

  lemma StepLinked(db: L.Db, step: T.Step)
    requires S.Safe(db) && T.StepTimely(db, step) && ScoresLinked(db.attempts)
    ensures ScoresLinked(T.Next(db, step).attempts)
  {
    match step
    case Enqueue(cs) => EnqueueAllLinked(db, cs);
    case Pause(_, _) => {}
    case Repair(cat) => RepairLinked(db, cat);
    case _ => T.ShapeStep(db, step);
  }

  // --- steps ---------------------------------------------------------------------------

  /** Rows may change, but not who they are, nor from closed to current. */
  ghost predicate SameGens(x: seq<Gen>, y: seq<Gen>) {
    && |x| == |y|
    && forall i :: 0 <= i < |x| ==>
         && y[i].id == x[i].id && y[i].business == x[i].business && y[i].generation == x[i].generation
         && (Current(y[i]) ==> Current(x[i]))
  }

  lemma SameGensInOrder(x: seq<Gen>, y: seq<Gen>)
    requires SameGens(x, y) && forall i: nat, j: nat :: InOrder(x, i, j)
    ensures forall i: nat, j: nat :: InOrder(y, i, j)
  {
    forall i: nat, j: nat ensures InOrder(y, i, j) {
      assert InOrder(x, i, j);
    }
  }

  lemma DecideSound(g: Gen, b: Branch, outcome: BranchStatus, reason: string)
    requires GenSound(g) && !outcome.Pending?
    ensures var (g', d) := Decide(g, b, outcome, reason);
            && GenSound(g') && g'.id == g.id && g'.business == g.business && g'.generation == g.generation
            && (Current(g') ==> Current(g))
            && g'.scored == (g.scored || d.EnqueueScore?) && (d.EnqueueScore? ==> !g.scored)
  {}

  lemma SettleAccounts(s: State, id: string, business: string, b: Branch, outcome: BranchStatus, reason: string)
    requires Sound(s) && !outcome.Pending?
    ensures var s' := Settle(s, id, business, b, outcome, reason).0;
            |s'.gens| == |s.gens| && forall j :: 0 <= j < |s.gens| ==> ScoreAccounted(s'.ledger.runs, s'.gens[j])
  {
    var s' := Settle(s, id, business, b, outcome, reason).0;
    var found := Find(s.gens, id, business);
    if found.Some? {
      var i := found.value;
      DecideSound(s.gens[i], b, outcome, reason);
      var (g, d) := Decide(s.gens[i], b, outcome, reason);
      forall j: nat | j < |s.gens| ensures ScoreAccounted(s'.ledger.runs, s'.gens[j]) {
        assert ScoreAccounted(s.ledger.runs, s.gens[j]) && GenSound(s.gens[j]);
        if d.EnqueueScore? {
          assert ScoreAccounted(s.ledger.runs, s.gens[i]);
          NoActiveScore(s.ledger.runs, KeyOf(g));
          EnqueueOneScores(s.ledger, ScoreCommand(g), KeyOf(s.gens[j]));
          assert InOrder(s.gens, i, j) && InOrder(s.gens, j, i);
          if j != i {
            KeysDiffer(g.business, g.id, s.gens[j].business, s.gens[j].id);
          }
        }
      }
    }
  }

  lemma SettleSound(s: State, id: string, business: string, b: Branch, outcome: BranchStatus, reason: string)
    requires Sound(s) && !outcome.Pending?
    ensures Sound(Settle(s, id, business, b, outcome, reason).0)
  {
    var s' := Settle(s, id, business, b, outcome, reason).0;
    SettleAccounts(s, id, business, b, outcome, reason);
    var found := Find(s.gens, id, business);
    if found.Some? {
      DecideSound(s.gens[found.value], b, outcome, reason);
      var g := Decide(s.gens[found.value], b, outcome, reason).0;
      SameGensInOrder(s.gens, s'.gens);
      S.EnqueueOneSafe(s.ledger, ScoreCommand(g));
      EnqueueAllLinked(s.ledger, [ScoreCommand(g)]);
      assert [ScoreCommand(g)][1..] == [];
    }
  }

  /** Superseding and adding a generation, with foreign jobs. */
  lemma NewGenSound(s: State, gens: seq<Gen>, g: Gen, cs: seq<L.Command>)
    requires Sound(s) && SameGens(s.gens, gens) && Foreign(cs) && FreshId(s, g.business, g.id)
    requires forall i :: 0 <= i < |gens| ==>
               GenSound(gens[i]) && gens[i].scored == s.gens[i].scored
               && (gens[i].business == g.business ==> !Current(gens[i]))
    requires GenSound(g) && !g.scored && g.generation == Latest(s.gens, g.business) + 1
    ensures Sound(s.(gens := gens + [g], ledger := L.EnqueueAll(s.ledger, cs).0))
  {
    var ledger := L.EnqueueAll(s.ledger, cs).0;
    S.EnqueueAllSafe(s.ledger, cs);
    EnqueueAllLinked(s.ledger, cs);
    SameGensInOrder(s.gens, gens);
    forall i: nat, j: nat ensures InOrder(gens + [g], i, j) {
      assert InOrder(gens, i, j);
    }
    forall i: nat | i <= |gens| ensures ScoreAccounted(ledger.runs, (gens + [g])[i]) {
      ForeignScores(s.ledger, cs, KeyOf((gens + [g])[i]));
      if i < |gens| {
        assert ScoreAccounted(s.ledger.runs, s.gens[i]);
      } else {
        UnusedKey(s.ledger.runs, KeyOf(g));
      }
    }
  }

  lemma {:induction false} UnusedKey(runs: seq<L.Run>, key: string)
    requires forall r :: 0 <= r < |runs| ==> runs[r].key != key
    ensures ScoreRuns(runs, key) == 0
    decreases |runs|
  {
    if runs != [] {
      UnusedKey(runs[..|runs| - 1], key);
    }
  }

  lemma StartSound(s: State, business: string, campaign: string, id: string)
    requires Sound(s) && FreshId(s, business, id)
    ensures Sound(Apply(s, StartRun(business, campaign, id)))
  {
    if Start(s, business, campaign, id).Some? {
      NewGenSound(s, SupersedeCurrent(s.gens, business), FreshGen(s.gens, business, campaign, id, false),
                  BranchCommands(business, id));
    }
  }

  lemma AdoptSound(s: State, business: string, id: string)
    requires Sound(s) && FreshId(s, business, id)
    ensures Sound(Apply(s, AdoptBranch(business, id)))
  {
    if business in s.businesses && FindCurrent(s.gens, business).None? {
      NewGenSound(s, s.gens, FreshGen(s.gens, business, s.businesses[business], id, true), []);
    }
  }

  lemma ScoreDoneSound(s: State, id: string, business: string, commands: seq<L.Command>)
    requires Sound(s) && Foreign(commands)
    ensures Sound(Apply(s, ScoreDone(id, business, commands)))
  {
    var s' := Apply(s, ScoreDone(id, business, commands));
    SameGensInOrder(s.gens, s'.gens);
    S.EnqueueAllSafe(s.ledger, commands);
    EnqueueAllLinked(s.ledger, commands);
    forall j: nat | j < |s.gens| ensures ScoreAccounted(s'.ledger.runs, s'.gens[j]) {
      assert ScoreAccounted(s.ledger.runs, s.gens[j]);
      ForeignScores(s.ledger, commands, KeyOf(s.gens[j]));
    }
  }

  lemma ApplySound(s: State, step: Step)
    requires Sound(s) && Allowed(s, step)
    ensures Sound(Apply(s, step))
  {
    match step
    case StartRun(business, campaign, id) => StartSound(s, business, campaign, id);
    case AdoptBranch(business, id) => AdoptSound(s, business, id);
    case SettleBranch(id, business, b, outcome, reason) => SettleSound(s, id, business, b, outcome, reason);
    case ScoreDone(id, business, commands) => ScoreDoneSound(s, id, business, commands);
    case Jobs(_) => {}
  }

  /** The ledger may take any transaction that enqueues no score job, and generations may be closed with it. */
  lemma LedgerMovesSound(s: State, step: T.Step, gens: seq<Gen>)
    requires Sound(s) && T.StepTimely(s.ledger, step) && (step.Enqueue? ==> Foreign(step.commands))
    requires SameGens(s.gens, gens) && forall i :: 0 <= i < |gens| ==>
               GenSound(gens[i]) && gens[i].scored == s.gens[i].scored
    ensures Sound(s.(gens := gens, ledger := T.Next(s.ledger, step)))
  {
    T.StepSafe(s.ledger, step);
    StepLinked(s.ledger, step);
    SameGensInOrder(s.gens, gens);
    forall j: nat | j < |gens| ensures ScoreAccounted(T.Next(s.ledger, step).runs, gens[j]) {
      assert ScoreAccounted(s.ledger.runs, s.gens[j]);
      StepScores(s.ledger, step, KeyOf(gens[j]));
    }
  }

  lemma SupersededStillSound(gens: seq<Gen>, business: string)
    requires forall i :: 0 <= i < |gens| ==> GenSound(gens[i])
    ensures var gens' := SupersedeCurrent(gens, business);
            SameGens(gens, gens')
            && forall i :: 0 <= i < |gens| ==> GenSound(gens'[i]) && gens'[i].scored == gens[i].scored
  {}

  /** The barrier is sound and the ledger's world is. */
  ghost predicate MachineSound(m: Machine) {
    Sound(m.tables) && W.Gated(World(m))
  }

  lemma JobsSound(m: Machine, move: W.Move)
    requires MachineSound(m) && Allowed(m.tables, Jobs(move))
    ensures MachineSound(Next(m, Jobs(move)))
  {
    W.MoveGated(World(m), move);
    SupersededStillSound(m.tables.gens, if move.Shelve? then move.business else "");
    var step := W.Transaction(World(m), move);
    if step.Some? {
      W.GateIsTimely(World(m), move);
      LedgerMovesSound(m.tables, step.value, GensAfter(m, move));
    }
  }

  /** The barrier's transactions only enqueue, which leaves archived businesses quiet. */
  lemma ApplyGated(m: Machine, step: Step)
    requires MachineSound(m)
    ensures W.Gated(World(m.(tables := Apply(m.tables, step))))
  {
    var s := m.tables;
    match step
    case StartRun(business, campaign, id) => W.EnqueueAllGated(World(m), BranchCommands(business, id));
    case AdoptBranch(business, id) => {}
    case SettleBranch(id, business, b, outcome, reason) =>
      var found := Find(s.gens, id, business);
      if found.Some? {
        W.EnqueueOneGated(World(m), ScoreCommand(Decide(s.gens[found.value], b, outcome, reason).0));
      }
    case ScoreDone(id, business, commands) => W.EnqueueAllGated(World(m), commands);
    case Jobs(_) => {}
  }

  lemma StepSound(m: Machine, step: Step)
    requires MachineSound(m) && Allowed(m.tables, step)
    ensures MachineSound(Next(m, step))
  {
    if step.Jobs? {
      JobsSound(m, step.move);
    } else {
      ApplySound(m.tables, step);
      ApplyGated(m, step);
    }
  }

  // --- whole runs -------------------------------------------------------------------------

  /** An over generation keeps everything, a blocked one its verdict, a scored one its score. */
  predicate RowSettles(g: Gen, g': Gen) {
    && g'.id == g.id && g'.business == g.business && g'.generation == g.generation
    && (Over(g) ==> g' == g)
    && (g.status.Blocked? ==> g'.status.Blocked? && g'.reason == g.reason && g'.scored == g.scored)
    && (g.scored ==> g'.scored)
  }

  ghost predicate Settling(x: seq<Gen>, y: seq<Gen>) {
    |x| <= |y| && forall i :: 0 <= i < |x| ==> RowSettles(x[i], y[i])
  }

  lemma OneRowSettles(x: seq<Gen>, i: nat, g: Gen)
    requires i < |x| && RowSettles(x[i], g)
    ensures Settling(x, x[i := g])
  {}

  lemma DecideSettles(g: Gen, b: Branch, outcome: BranchStatus, reason: string)
    ensures RowSettles(g, Decide(g, b, outcome, reason).0)
  {}

  lemma SupersedeSettles(x: seq<Gen>, business: string, more: seq<Gen>)
    ensures Settling(x, SupersedeCurrent(x, business) + more)
  {}

  lemma ApplySettles(s: State, step: Step)
    ensures Settling(s.gens, Apply(s, step).gens)
  {
    match step
    case StartRun(business, campaign, id) =>
      SupersedeSettles(s.gens, business, [FreshGen(s.gens, business, campaign, id, false)]);
    case AdoptBranch(business, id) =>
    case SettleBranch(id, business, b, outcome, reason) =>
      var found := Find(s.gens, id, business);
      if found.Some? {
        DecideSettles(s.gens[found.value], b, outcome, reason);
        OneRowSettles(s.gens, found.value, Decide(s.gens[found.value], b, outcome, reason).0);
      }
    case ScoreDone(id, business, commands) =>
      var found := Find(s.gens, id, business);
      if found.Some? && ScoreCurrent(s.gens[found.value]) {
        OneRowSettles(s.gens, found.value, s.gens[found.value].(status := Completed));
      }
    case Jobs(_) =>
  }

  lemma StepSettles(m: Machine, step: Step)
    ensures Settling(m.tables.gens, Next(m, step).tables.gens)
  {
    if step.Jobs? {
      if step.move.Shelve? {
        SupersedeSettles(m.tables.gens, step.move.business, []);
        assert SupersedeCurrent(m.tables.gens, step.move.business) + [] ==
               SupersedeCurrent(m.tables.gens, step.move.business);
      }
    } else {
      ApplySettles(m.tables, step);
    }
  }

  lemma SettlingTrans(x: seq<Gen>, y: seq<Gen>, z: seq<Gen>)
    requires Settling(x, y) && Settling(y, z)
    ensures Settling(x, z)
  {}

  /**
   * Main result: in every interleaving of starts, adoptions, branch results and
   * score commits with everything the job ledger does, restarts and archiving
   * included, the barrier stays sound; a superseded or completed generation is
   * never touched again and a blocked one never scores.
   */
  lemma {:induction false} AlwaysSound(m: Machine, steps: seq<Step>)
    requires MachineSound(m) && AllAllowed(m, steps)
    ensures MachineSound(Replay(m, steps)) && Settling(m.tables.gens, Replay(m, steps).tables.gens)
    decreases |steps|
  {
    if steps != [] {
      var next := Next(m, steps[0]);
      StepSound(m, steps[0]);
      StepSettles(m, steps[0]);
      AlwaysSound(next, steps[1..]);
      SettlingTrans(m.tables.gens, next.tables.gens, Replay(next, steps[1..]).tables.gens);
    }
  }

  lemma NoGenerationsIsSound(businesses: map<string, string>, ledger: L.Db)
    requires S.Safe(ledger) && ScoresLinked(ledger.attempts)
    ensures MachineSound(Machine(State(businesses, [], ledger), {}, {}))
  {}

  /** At any time a generation has exactly one score job if both its branches succeeded, and none otherwise. */
  lemma ScoreExactlyOnce(m: Machine, steps: seq<Step>, i: nat)
    requires MachineSound(m) && AllAllowed(m, steps) && i < |Replay(m, steps).tables.gens|
    ensures var later := Replay(m, steps).tables;
            var g := later.gens[i];
            ScoreRuns(later.ledger.runs, KeyOf(g)) == if BothSucceeded(g) then 1 else 0
  {
    var later := Replay(m, steps).tables;
    AlwaysSound(m, steps);
    assert ScoreAccounted(later.ledger.runs, later.gens[i]) && GenSound(later.gens[i]);
  }

  /** The score job of a join is always a new logical run. */
  lemma JoinIsAccepted(s: State, i: nat)
    requires Sound(s) && i < |s.gens| && !s.gens[i].scored
    ensures L.EnqueueOne(s.ledger, ScoreCommand(s.gens[i])).1.Accepted?
  {
    assert ScoreAccounted(s.ledger.runs, s.gens[i]);
    NoActiveScore(s.ledger.runs, KeyOf(s.gens[i]));
  }

  /** At most one generation of a business is current, and it is the latest one. */
  lemma CurrentIsLatest(s: State, i: nat)
    requires Sound(s) && i < |s.gens| && Current(s.gens[i])
    ensures s.gens[i].generation == Latest(s.gens, s.gens[i].business)
    ensures FindCurrent(s.gens, s.gens[i].business) == Some(i)
  {
    forall j: nat | j < |s.gens| && s.gens[j].business == s.gens[i].business
      ensures s.gens[j].generation <= s.gens[i].generation
      ensures Current(s.gens[j]) ==> j == i
    {
      assert InOrder(s.gens, i, j) && InOrder(s.gens, j, i);
    }
  }

  /**
   * A late result of a generation that has been replaced is meant to be inert.
   * It is, except when that generation had been blocked: blocked generations are
   * not superseded, so a success of a still pending branch runs its writes.
   */
  lemma LateWritesRunIff(s: State, i: nat, b: Branch)
    requires Sound(s) && i < |s.gens| && s.gens[i].generation < Latest(s.gens, s.gens[i].business)
    ensures var g := s.gens[i];
            MutationRuns(Settle(s, g.id, g.business, b, Succeeded, "").1) <==>
              g.status.Blocked? && BranchOf(g, b).Pending?
  {
    var g := s.gens[i];
    FindGen(s, i);
    assert GenSound(g);
    if Current(g) {
      CurrentIsLatest(s, i);
    }
  }

  lemma FindGen(s: State, i: nat)
    requires Sound(s) && i < |s.gens|
    ensures Find(s.gens, s.gens[i].id, s.gens[i].business) == Some(i)
  {
    var j := Find(s.gens, s.gens[i].id, s.gens[i].business).value;
    assert InOrder(s.gens, i, j) && InOrder(s.gens, j, i);
  }

  /** Two generations of one business, the first blocked before the second was started. */
  lemma LateWriteExample() returns (s: State, i: nat)
    ensures i < |s.gens| && Sound(s)
    ensures s.gens[i].generation < Latest(s.gens, s.gens[i].business)
    ensures MutationRuns(Settle(s, s.gens[i].id, s.gens[i].business, Assets, Succeeded, "").1)
  {
    var first, second := seq(UUID_LENGTH, _ => 'a'), seq(UUID_LENGTH, _ => 'b');
    var blocked := Gen(first, "shop", "spring", 1, false, Blocked, Pending, Held, Some("contradiction"), false);
    var running := Gen(second, "shop", "spring", 2, false, Running, Pending, Pending, None, false);
    s, i := State(map["shop" := "spring"], [blocked, running], L.Db([], [], [])), 0;
    assert first[0] != second[0];
    TwoGenerationsSound(s, blocked, running);
    assert s.gens[1].generation <= Latest(s.gens, "shop");
    LateWritesRunIff(s, 0, Assets);
  }

  lemma TwoGenerationsSound(s: State, g: Gen, h: Gen)
    requires s.gens == [g, h] && s.ledger == L.Db([], [], []) && GenSound(g) && GenSound(h) && !g.scored && !h.scored
    requires g.id != h.id && g.generation < h.generation && !Current(g)
    ensures Sound(s)
  {
    forall i | 0 <= i < 2 ensures GenSound(s.gens[i]) && ScoreAccounted(s.ledger.runs, s.gens[i]) {
      assert s.gens[i] == g || s.gens[i] == h;
    }
  }

  // --- any order, any number of deliveries ------------------------------------------------------

  /** Successful deliveries of one generation's branches, one after another. */
  function Deliver(s: State, id: string, business: string, bs: seq<Branch>): State
    decreases |bs|
  {
    if bs == [] then s
    else Settle(Deliver(s, id, business, bs[..|bs| - 1]), id, business, bs[|bs| - 1], Succeeded, "").0
  }

  /** What they come to, told by which branches were delivered at all. */
  function Delivered(s: State, i: nat, assets: bool, audit: bool): State
    requires i < |s.gens|
  {
    var g := s.gens[i];
    var g' := g.(assets := if assets then Succeeded else g.assets, audit := if audit then Succeeded else g.audit);
    if assets && audit
    then s.(gens := s.gens[i := g'.(status := ScoreEnqueued, scored := true)],
            ledger := L.EnqueueOne(s.ledger, ScoreCommand(g)).0)
    else s.(gens := s.gens[i := g'])
  }

  lemma FindSame(x: seq<Gen>, y: seq<Gen>, id: string, business: string)
    requires |x| == |y| && forall i :: 0 <= i < |x| ==> x[i].id == y[i].id && x[i].business == y[i].business
    ensures Find(x, id, business) == Find(y, id, business)
    decreases |x|
  {
    if x != [] {
      FindSame(x[..|x| - 1], y[..|y| - 1], id, business);
    }
  }

  lemma DeliverOne(s: State, i: nat, assets: bool, audit: bool, b: Branch)
    requires i < |s.gens| && s.gens[i].status.Running? && s.gens[i].assets.Pending? && s.gens[i].audit.Pending?
    requires Find(s.gens, s.gens[i].id, s.gens[i].business) == Some(i)
    ensures Settle(Delivered(s, i, assets, audit), s.gens[i].id, s.gens[i].business, b, Succeeded, "").0 ==
            Delivered(s, i, assets || b.Assets?, audit || b.Audit?)
  {
    var before := Delivered(s, i, assets, audit);
    FindSame(s.gens, before.gens, s.gens[i].id, s.gens[i].business);
    assert before.gens[i := before.gens[i]] == before.gens;
  }

  /**
   * Assets first, audit first, repeated or interleaved: the state after any
   * deliveries depends only on which branches were delivered.
   */
  lemma {:induction false} OrderDoesNotMatter(s: State, i: nat, bs: seq<Branch>)
    requires i < |s.gens| && s.gens[i].status.Running? && s.gens[i].assets.Pending? && s.gens[i].audit.Pending?
    requires Find(s.gens, s.gens[i].id, s.gens[i].business) == Some(i)
    ensures Deliver(s, s.gens[i].id, s.gens[i].business, bs) == Delivered(s, i, Assets in bs, Audit in bs)
    decreases |bs|
  {
    if bs == [] {
      assert s.gens[i := s.gens[i]] == s.gens;
    } else {
      var n := |bs| - 1;
      OrderDoesNotMatter(s, i, bs[..n]);
      DeliverOne(s, i, Assets in bs[..n], Audit in bs[..n], bs[n]);
      assert bs == bs[..n] + [bs[n]];
    }
  }

  // --- authorization ------------------------------------------------------------------------------

  /**
   * A delivery is told to run exactly when its generation is open and its branch
   * pending. Its writes would be committed in one case more: a pending branch of
   * a blocked generation, which is told that there is no work.
   */
  lemma WritesIffAuthorizedOrBlocked(s: State, id: string, business: string, b: Branch)
    requires Sound(s)
    ensures MutationRuns(Settle(s, id, business, b, Succeeded, "").1) <==>
            Authorize(s, id, business, b).Run? || Authorize(s, id, business, b).NoWork?
  {
    var found := Find(s.gens, id, business);
    if found.Some? {
      assert GenSound(s.gens[found.value]);
    }
  }
}
