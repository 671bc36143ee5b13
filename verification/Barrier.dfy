// The enrichment barrier: each generation of a business fans out into two
// branches, and their success enqueues one score job. The barrier's
// transactions and the job ledger's are one machine.
module Barrier {
  import opened Bytes
  import L = Ledger
  import S = LedgerSafety
  import W = WorkflowRuns

  datatype Branch = Assets | Audit

  datatype BranchStatus = Pending | Succeeded | Failed | Held

  datatype GenStatus = Running | ScoreEnqueued | Completed | Blocked | Superseded

  datatype Gen = Gen(id: string, business: string, campaign: string, generation: nat, legacy: bool,
                     status: GenStatus, assets: BranchStatus, audit: BranchStatus,
                     reason: Option<string>, scored: bool)

  /** `businesses` gives each business its campaign. Rows of `gens` are never deleted. */
  datatype State = State(businesses: map<string, string>, gens: seq<Gen>, ledger: L.Db)

  /** The partial unique index: a generation that can still take effect. */
  predicate Current(g: Gen) {
    g.status.Running? || g.status.ScoreEnqueued?
  }

  predicate Over(g: Gen) {
    g.status.Superseded? || g.status.Completed?
  }

  function BranchOf(g: Gen, b: Branch): BranchStatus {
    if b.Assets? then g.assets else g.audit
  }

  function WithBranch(g: Gen, b: Branch, s: BranchStatus): Gen {
    if b.Assets? then g.(assets := s) else g.(audit := s)
  }

  function OtherBranch(b: Branch): Branch {
    if b.Assets? then Audit else Assets
  }

  predicate BothSucceeded(g: Gen) {
    g.assets.Succeeded? && g.audit.Succeeded?
  }

  // --- queries ----------------------------------------------------------------------

  function Find(gens: seq<Gen>, id: string, business: string): (found: Option<nat>)
    ensures found.Some? ==> found.value < |gens| && gens[found.value].id == id && gens[found.value].business == business
    ensures found.None? ==> forall i :: 0 <= i < |gens| ==> gens[i].id != id || gens[i].business != business
  {
    if gens == [] then None
    else if gens[|gens| - 1].id == id && gens[|gens| - 1].business == business then Some(|gens| - 1)
    else Find(gens[..|gens| - 1], id, business)
  }

  function FindCurrent(gens: seq<Gen>, business: string): (found: Option<nat>)
    ensures found.Some? ==> found.value < |gens| && gens[found.value].business == business && Current(gens[found.value])
    ensures found.None? ==> forall i :: 0 <= i < |gens| && gens[i].business == business ==> !Current(gens[i])
  {
    if gens == [] then None
    else if gens[|gens| - 1].business == business && Current(gens[|gens| - 1]) then Some(|gens| - 1)
    else FindCurrent(gens[..|gens| - 1], business)
  }

  /** The highest generation of a business; zero when it has none. */
  function Latest(gens: seq<Gen>, business: string): (n: nat)
    ensures forall i :: 0 <= i < |gens| && gens[i].business == business ==> gens[i].generation <= n
    ensures n > 0 ==> exists i :: 0 <= i < |gens| && gens[i].business == business && gens[i].generation == n
  {
    if gens == [] then 0
    else
      var n := Latest(gens[..|gens| - 1], business);
      var last := gens[|gens| - 1];
      if last.business == business && last.generation > n then last.generation else n
  }

  // --- transactions -------------------------------------------------------------------

  const SCORE: string := "score-and-qa"

  function ScoreKey(business: string, id: string): string {
    "score-and-qa:" + business + ":enrichment:" + id
  }

  function ScoreJob(id: string, business: string): L.Command {
    L.Command(SCORE, "agent-enrich", ScoreKey(business, id), Some(business))
  }

  function ScoreCommand(g: Gen): L.Command {
    ScoreJob(g.id, g.business)
  }

  function BranchCommands(business: string, id: string): seq<L.Command> {
    [L.Command("collect-assets", "agent-core", "collect-assets:" + business + ":enrichment:" + id, Some(business)),
     L.Command("audit-website", "audit-website", "audit-website:" + business + ":enrichment:" + id, Some(business))]
  }

  function SupersedeCurrent(gens: seq<Gen>, business: string): (gens': seq<Gen>)
    ensures |gens'| == |gens|
    ensures forall i :: 0 <= i < |gens| ==>
              gens'[i] == if gens[i].business == business && Current(gens[i])
                          then gens[i].(status := Superseded) else gens[i]
  {
    seq(|gens|, i requires 0 <= i < |gens| =>
      if gens[i].business == business && Current(gens[i]) then gens[i].(status := Superseded) else gens[i])
  }

  function FreshGen(gens: seq<Gen>, business: string, campaign: string, id: string, legacy: bool): Gen {
    Gen(id, business, campaign, Latest(gens, business) + 1, legacy, Running, Pending, Pending, None, false)
  }

  /** None is the throw: an unknown business or a campaign that is not its own. */
  function Start(s: State, business: string, campaign: string, id: string): Option<State> {
    if business !in s.businesses || s.businesses[business] != campaign then None
    else
      Some(s.(gens := SupersedeCurrent(s.gens, business) + [FreshGen(s.gens, business, campaign, id, false)],
              ledger := L.EnqueueAll(s.ledger, BranchCommands(business, id)).0))
  }

  datatype Adoption = Adopted(id: string, generation: nat) | Conflict(id: string, generation: nat)

  function AdoptLegacy(s: State, business: string, id: string): Option<(State, Adoption)> {
    if business !in s.businesses then None
    else
      match FindCurrent(s.gens, business)
      case Some(i) =>
        var g := s.gens[i];
        Some((s, if g.legacy then Adopted(g.id, g.generation) else Conflict(g.id, g.generation)))
      case None =>
        var g := FreshGen(s.gens, business, s.businesses[business], id, true);
        Some((s.(gens := s.gens + [g]), Adopted(id, g.generation)))
  }

  datatype Decision = Stale | AlreadyRecorded | Recorded | BlockedRun(changed: bool) | EnqueueScore

  /** One branch result against one generation; the caller enqueues the score job. */
  function Decide(g: Gen, b: Branch, outcome: BranchStatus, reason: string): (Gen, Decision) {
    var current := BranchOf(g, b);
    if Over(g) then (g, Stale)
    else if current == outcome then (g, AlreadyRecorded)
    else if g.status.Blocked? then
      if current.Pending?
      then (WithBranch(g, b, outcome), if outcome.Succeeded? then Recorded else BlockedRun(true))
      else (g, BlockedRun(false))
    else if !current.Pending? then (g, BlockedRun(false))
    else if !outcome.Succeeded? then (WithBranch(g, b, outcome).(status := Blocked, reason := Some(reason)), BlockedRun(true))
    else if !BranchOf(g, OtherBranch(b)).Succeeded? then (WithBranch(g, b, Succeeded), Recorded)
    else (WithBranch(g, b, Succeeded).(status := ScoreEnqueued, scored := true), EnqueueScore)
  }

  /** The branch's own writes are committed with the decision, or not at all. */
  predicate MutationRuns(d: Decision) {
    d.Recorded? || d.EnqueueScore?
  }

  function Settle(s: State, id: string, business: string, b: Branch, outcome: BranchStatus, reason: string)
    : (State, Decision)
  {
    match Find(s.gens, id, business)
    case None => (s, Stale)
    case Some(i) =>
      var (g, d) := Decide(s.gens[i], b, outcome, reason);
      (s.(gens := s.gens[i := g],
          ledger := if d.EnqueueScore? then L.EnqueueOne(s.ledger, ScoreCommand(g)).0 else s.ledger), d)
  }

  predicate ScoreCurrent(g: Gen) {
    g.status.ScoreEnqueued? && BothSucceeded(g) && g.scored
  }

  /** None is the throw for an unknown business; the flag tells whether the score's writes were committed. */
  function CommitScore(s: State, id: string, business: string, commands: seq<L.Command>): Option<(State, bool)> {
    if business !in s.businesses then None
    else
      match Find(s.gens, id, business)
      case None => Some((s, false))
      case Some(i) =>
        if !ScoreCurrent(s.gens[i]) then Some((s, false))
        else Some((s.(gens := s.gens[i := s.gens[i].(status := Completed)],
                      ledger := L.EnqueueAll(s.ledger, commands).0), true))
  }

  datatype Authorization = Run | Settled | NoWork | Outdated

  function Authorize(s: State, id: string, business: string, b: Branch): Authorization {
    match Find(s.gens, id, business)
    case None => Outdated
    case Some(i) =>
      var g := s.gens[i];
      if Over(g) then Outdated
      else if !BranchOf(g, b).Pending? then Settled
      else if g.status.Blocked? then NoWork
      else if g.status.Running? then Run
      else Outdated
  }

  // --- whole runs ---------------------------------------------------------------------

  /** The barrier's tables and the job ledger's world: archived businesses, deliveries past the gate. */
  datatype Machine = Machine(tables: State, archived: set<string>, passed: set<nat>)

  datatype Step =
    | StartRun(business: string, campaign: string, id: string)
    | AdoptBranch(business: string, id: string)
    | SettleBranch(id: string, business: string, branch: Branch, outcome: BranchStatus, reason: string)
    | ScoreDone(id: string, business: string, commands: seq<L.Command>)
    | Jobs(move: W.Move)

  function World(m: Machine): W.World {
    W.World(m.tables.ledger, m.archived, m.passed)
  }

  /** The barrier's own transactions; one that throws changes nothing. */
  function Apply(s: State, step: Step): State {
    match step
    case StartRun(business, campaign, id) =>
      var r := Start(s, business, campaign, id);
      if r.Some? then r.value else s
    case AdoptBranch(business, id) =>
      var r := AdoptLegacy(s, business, id);
      if r.Some? then r.value.0 else s
    case SettleBranch(id, business, b, outcome, reason) => Settle(s, id, business, b, outcome, reason).0
    case ScoreDone(id, business, commands) =>
      var r := CommitScore(s, id, business, commands);
      if r.Some? then r.value.0 else s
    case Jobs(_) => s
  }

  /** Archiving a business closes its open generation along with its jobs. */
  function GensAfter(m: Machine, move: W.Move): seq<Gen> {
    if move.Shelve? && move.business !in m.archived
    then SupersedeCurrent(m.tables.gens, move.business) else m.tables.gens
  }

  function Next(m: Machine, step: Step): Machine {
    match step
    case Jobs(move) =>
      var w := W.Commit(World(m), move);
      Machine(m.tables.(gens := GensAfter(m, move), ledger := w.db), w.archived, w.passed)
    case _ => m.(tables := Apply(m.tables, step))
  }

  function Replay(m: Machine, steps: seq<Step>): Machine
    decreases |steps|
  {
    if steps == [] then m else Replay(Next(m, steps[0]), steps[1..])
  }

  const UUID_LENGTH: nat := 36

  predicate FreshId(s: State, business: string, id: string) {
    && |id| == UUID_LENGTH
    && (forall i :: 0 <= i < |s.gens| ==> s.gens[i].id != id)
    && (forall r :: 0 <= r < |s.ledger.runs| ==> s.ledger.runs[r].key != ScoreKey(business, id))
  }

  /** Commands that are not the barrier's own score jobs. */
  predicate Foreign(cs: seq<L.Command>) {
    forall c :: c in cs ==> c.name != SCORE
  }

  /**
   * What a step may bring: identifiers are fresh UUIDs, outcomes are outcomes,
   * and nobody else enqueues score jobs.
   */
  predicate Allowed(s: State, step: Step) {
    match step
    case StartRun(business, _, id) => FreshId(s, business, id)
    case AdoptBranch(business, id) => FreshId(s, business, id)
    case SettleBranch(_, _, _, outcome, _) => !outcome.Pending?
    case ScoreDone(_, _, commands) => Foreign(commands)
    case Jobs(move) => move.Work? && move.step.Enqueue? ==> Foreign(move.step.commands)
  }

  predicate AllAllowed(m: Machine, steps: seq<Step>)
    decreases |steps|
  {
    steps != [] ==> Allowed(m.tables, steps[0]) && AllAllowed(Next(m, steps[0]), steps[1..])
  }
}
