// The compare-and-set of a business's status and its append-only history.
module StatusHistory {
  import opened Bytes

  datatype Status =
    | Discovered | Prequalified | Enriching | NeedsReview | Qualified
    | ProductionReady | SiteInProgress | SiteReady | OutreachApproved
    | Contacted | Replied | Meeting | Proposal | Won | Lost
    | Rejected | Duplicate | Closed | DoNotContact

  /** The forward edges of the workflow. */
  function Edges(from: Status): set<Status> {
    match from
    case Discovered => {Prequalified, Rejected, Duplicate, NeedsReview}
    case Prequalified => {Enriching, Rejected, NeedsReview}
    case Enriching => {NeedsReview, Qualified, Rejected}
    case NeedsReview => {Enriching, Qualified, Rejected, ProductionReady}
    case Qualified => {ProductionReady, Enriching, NeedsReview, Rejected}
    case ProductionReady => {SiteInProgress}
    case SiteInProgress => {SiteReady, NeedsReview}
    case SiteReady => {OutreachApproved, NeedsReview, Rejected}
    case OutreachApproved => {Contacted}
    case Contacted => {Replied, Closed, DoNotContact}
    case Replied => {Meeting, Proposal, Won, Lost, DoNotContact}
    case Meeting => {Proposal, Won, Lost}
    case Proposal => {Won, Lost}
    case _ => {}
  }

  predicate Allowed(from: Status, to: Status) {
    from == to || to in Edges(from)
  }

  datatype Operation = Normal | Override | Recovery

  datatype Row = Row(from: Status, to: Status, operation: Operation)

  datatype Business = Business(status: Status, history: seq<Row>)

  /** What a caller asks for; `reasoned` tells whether its reason is not blank. */
  datatype Command = Command(operation: Operation, expected: Status, to: Status, reasoned: bool)

  datatype Result = Moved | AlreadyAtTarget | Conflict | Illegal | ReasonRequired

  /** Refused before the database is asked. */
  function Refusal(c: Command): Option<Result> {
    if c.operation.Normal? then (if Allowed(c.expected, c.to) then None else Some(Illegal))
    else if c.reasoned then None else Some(ReasonRequired)
  }

  function Apply(b: Business, c: Command): (Business, Result) {
    if Refusal(c).Some? then (b, Refusal(c).value)
    else if c.expected != c.to && b.status == c.expected
    then (Business(c.to, b.history + [Row(c.expected, c.to, c.operation)]), Moved)
    else (b, if b.status == c.to then AlreadyAtTarget else Conflict)
  }

  function ApplyAll(b: Business, cs: seq<Command>): (Business, seq<Result>)
    decreases |cs|
  {
    if cs == [] then (b, [])
    else
      var (next, first) := Apply(b, cs[0]);
      var (last, rest) := ApplyAll(next, cs[1..]);
      (last, [first] + rest)
  }

  function Moves(results: seq<Result>): nat {
    if results == [] then 0 else (if results[0].Moved? then 1 else 0) + Moves(results[1..])
  }

  /** Each row starts where the one before it ended, and the last one ends at the present status. */
  predicate Chain(start: Status, b: Business) {
    && (forall k :: 0 < k < |b.history| ==> b.history[k].from == b.history[k - 1].to)
    && (if b.history == [] then b.status == start
        else b.history[0].from == start && b.history[|b.history| - 1].to == b.status)
  }

  /** Every row changes the status, and normal rows follow an edge. */
  predicate Legal(b: Business) {
    forall k :: 0 <= k < |b.history| ==>
      b.history[k].from != b.history[k].to
      && (b.history[k].operation.Normal? ==> b.history[k].to in Edges(b.history[k].from))
  }

  /**
   * Main result: over any commands the history is a connected chain of legal
   * rows from the first status to the present one, one row for each move.
   */
  lemma {:induction false} HistoryIsAChain(start: Status, b: Business, cs: seq<Command>)
    requires Chain(start, b) && Legal(b)
    ensures var (b', results) := ApplyAll(b, cs);
            && Chain(start, b') && Legal(b') && b.history <= b'.history
            && |b'.history| == |b.history| + Moves(results)
    decreases |cs|
  {
    if cs != [] {
      var (next, first) := Apply(b, cs[0]);
      HistoryIsAChain(start, next, cs[1..]);
      var rest := ApplyAll(next, cs[1..]).1;
      assert ([first] + rest)[1..] == rest;
    }
  }

  /** All of them expect the same status and mean to leave it. */
  predicate Racing(cs: seq<Command>, expected: Status) {
    forall k :: 0 <= k < |cs| ==> cs[k].expected == expected && cs[k].to != expected && Refusal(cs[k]).None?
  }

  lemma {:induction false} LateRacersLose(b: Business, cs: seq<Command>, expected: Status)
    requires Racing(cs, expected) && b.status != expected
    ensures ApplyAll(b, cs).0 == b && Moves(ApplyAll(b, cs).1) == 0
    decreases |cs|
  {
    if cs != [] {
      LateRacersLose(b, cs[1..], expected);
      var rest := ApplyAll(b, cs[1..]).1;
      assert ([Apply(b, cs[0]).1] + rest)[1..] == rest;
    }
  }

  /** Of commands racing from the present status the first one wins, and only it. */
  lemma OneRacerWins(b: Business, cs: seq<Command>)
    requires cs != [] && Racing(cs, b.status)
    ensures var (b', results) := ApplyAll(b, cs);
            b' == Apply(b, cs[0]).0 && b'.status == cs[0].to && Moves(results) == 1
  {
    var next := Apply(b, cs[0]).0;
    LateRacersLose(next, cs[1..], b.status);
    var rest := ApplyAll(next, cs[1..]).1;
    assert ([Moved] + rest)[1..] == rest;
  }

  /** The workflow read backwards: from where each status is entered by a normal move. */
  lemma EntriesInto(from: Status)
    ensures Discovered !in Edges(from)
    ensures Prequalified in Edges(from) <==> from == Discovered
    ensures Enriching in Edges(from) <==> from == Prequalified || from == NeedsReview || from == Qualified
    ensures NeedsReview in Edges(from) <==>
            from == Discovered || from == Prequalified || from == Enriching || from == Qualified
            || from == SiteInProgress || from == SiteReady
    ensures Qualified in Edges(from) <==> from == Enriching || from == NeedsReview
    ensures ProductionReady in Edges(from) <==> from == NeedsReview || from == Qualified
    ensures SiteInProgress in Edges(from) <==> from == ProductionReady
    ensures SiteReady in Edges(from) <==> from == SiteInProgress
    ensures OutreachApproved in Edges(from) <==> from == SiteReady
    ensures Contacted in Edges(from) <==> from == OutreachApproved
    ensures Replied in Edges(from) <==> from == Contacted
    ensures Meeting in Edges(from) <==> from == Replied
    ensures Proposal in Edges(from) <==> from == Replied || from == Meeting
    ensures Won in Edges(from) <==> from == Replied || from == Meeting || from == Proposal
    ensures Lost in Edges(from) <==> from == Replied || from == Meeting || from == Proposal
    ensures Rejected in Edges(from) <==>
            from == Discovered || from == Prequalified || from == Enriching || from == NeedsReview
            || from == Qualified || from == SiteReady
    ensures Duplicate in Edges(from) <==> from == Discovered
    ensures Closed in Edges(from) <==> from == Contacted
    ensures DoNotContact in Edges(from) <==> from == Contacted || from == Replied
  {}

  /** The answer to each command, told by what the caller and the table say. */
  lemma AnswersTell(b: Business, c: Command)
    ensures var (b', r) := Apply(b, c);
            && (r.Illegal? <==> c.operation.Normal? && c.expected != c.to && c.to !in Edges(c.expected))
            && (r.ReasonRequired? <==> !c.operation.Normal? && !c.reasoned)
            && (!r.Illegal? && !r.ReasonRequired? ==>
                  && (r.Moved? <==> b.status == c.expected != c.to)
                  && (r.AlreadyAtTarget? <==> b.status == c.to)
                  && (r.Conflict? <==> b.status != c.to && (b.status != c.expected || c.expected == c.to)))
            && b' == if r.Moved? then Business(c.to, b.history + [Row(b.status, c.to, c.operation)]) else b
  {}

  predicate OnlyNormal(b: Business) {
    forall k :: 0 <= k < |b.history| ==> b.history[k].operation.Normal?
  }

  /** The stages a business passes, one after the other, before it may be contacted. */
  function Before(s: Status): Status {
    match s
    case Contacted => OutreachApproved
    case OutreachApproved => SiteReady
    case SiteReady => SiteInProgress
    case SiteInProgress => ProductionReady
    case _ => s
  }

  lemma OneWayIn(from: Status, to: Status)
    requires to in Edges(from) && Before(to) != to
    ensures from == Before(to)
  {}

  /**
   * A business that only ever moved normally and is (or was) contacted went
   * through production, build, site and approval, in this order and without
   * anything in between.
   */
  lemma ContactedWasApproved(b: Business, k: nat)
    requires Chain(Discovered, b) && Legal(b) && OnlyNormal(b) && k < |b.history| && b.history[k].to == Contacted
    ensures k >= 4 && b.history[k - 1].to == OutreachApproved && b.history[k - 2].to == SiteReady
            && b.history[k - 3].to == SiteInProgress && b.history[k - 4].to == ProductionReady
  {
    OneWayIn(b.history[k].from, Contacted);
    OneWayIn(b.history[k - 1].from, OutreachApproved);
    OneWayIn(b.history[k - 2].from, SiteReady);
    OneWayIn(b.history[k - 3].from, SiteInProgress);
  }

  /** A status without outgoing edges is left by overrides and recoveries only. */
  lemma {:induction false} NormalMovesStopAtTheEnd(b: Business, cs: seq<Command>)
    requires Edges(b.status) == {} && forall k :: 0 <= k < |cs| ==> cs[k].operation.Normal?
    ensures ApplyAll(b, cs).0 == b
    decreases |cs|
  {
    if cs != [] {
      NormalMovesStopAtTheEnd(b, cs[1..]);
    }
  }

  class TransitionService {
    var business: Business

    constructor (status: Status)
      ensures business == Business(status, [])
    {
      business := Business(status, []);
    }

    /** Moves a business that is still where the caller expects it, with one row; any other answer moves nothing. */
    method Move(c: Command) returns (r: Result)
      modifies this
      ensures r.Moved? <==> Refusal(c).None? && c.expected != c.to && old(business).status == c.expected
      ensures if r.Moved? then business.status == c.to && old(business).history < business.history
              else business == old(business)
      ensures r.AlreadyAtTarget? ==> business.status == c.to
      ensures forall start :: Chain(start, old(business)) && Legal(old(business)) ==>
                Chain(start, business) && Legal(business)
      ensures (business, r) == Apply(old(business), c)
    {
      if c.operation.Normal? {
        if c.expected != c.to && c.to !in Edges(c.expected) {
          return Illegal;
        }
      } else if !c.reasoned {
        return ReasonRequired;
      }
      if c.expected != c.to {
        if business.status == c.expected {
          business := business.(status := c.to);
          business := business.(history := business.history + [Row(c.expected, c.to, c.operation)]);
          return Moved;
        }
      }
      if business.status == c.to {
        return AlreadyAtTarget;
      }
      return Conflict;
    }
  }
}
