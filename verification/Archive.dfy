// Shelving businesses and campaigns, bringing them back, and deleting them.
module Archive {
  import opened Bytes

  datatype Business = Business(campaign: string, status: string, archivedAt: Option<int>, reason: Option<string>)

  datatype Campaign = Campaign(status: string, archivedAt: Option<int>, reason: Option<string>)

  /** Rows that hang off a business, by table. */
  datatype Table =
    | ReconciliationEvents | OutreachEvents | OutreachMessages | Approvals | Deals
    | BusinessFacts | BusinessContacts | BusinessSources | Assets | WebsiteAudits | Qualifications
    | ProductionGaps | SiteProjects | EnrichmentRuns | StatusHistory | WorkflowJobs | WorkflowJobRuns

  datatype Row = Row(table: Table, business: string)

  datatype State = State(businesses: map<string, Business>, campaigns: map<string, Campaign>, rows: seq<Row>)

  // --- archiving ----------------------------------------------------------------------

  function Shelved(b: Business, at: int, reason: Option<string>): Business {
    b.(archivedAt := Some(at), reason := reason)
  }

  function Restored(b: Business): Business {
    b.(archivedAt := None, reason := None)
  }

  /** Stamps the live ones among `ids`; rows already archived keep their stamp. */
  function ShelveLive(businesses: map<string, Business>, ids: set<string>, at: int, reason: Option<string>)
    : (shelved: map<string, Business>)
    ensures shelved.Keys == businesses.Keys
  {
    map id | id in businesses ::
      if id in ids && businesses[id].archivedAt.None? then Shelved(businesses[id], at, reason) else businesses[id]
  }

  function ArchiveMany(s: State, ids: set<string>, at: int, reason: Option<string>): State {
    s.(businesses := ShelveLive(s.businesses, ids, at, reason))
  }

  function UnarchiveMany(s: State, ids: set<string>): State {
    s.(businesses := map id | id in s.businesses ::
         if id in ids then Restored(s.businesses[id]) else s.businesses[id])
  }

  function Members(businesses: map<string, Business>, campaign: string): set<string> {
    set id | id in businesses && businesses[id].campaign == campaign
  }

  /** One instant for the campaign and every live business of it; discovery is paused. */
  function ArchiveCampaign(s: State, c: string, at: int, reason: Option<string>): State {
    if c !in s.campaigns || s.campaigns[c].archivedAt.Some? then s
    else
      s.(businesses := ShelveLive(s.businesses, Members(s.businesses, c), at, reason),
         campaigns := s.campaigns[c := Campaign("paused", Some(at), reason)])
  }

  /** Brings back the campaign's businesses that carry the campaign's own instant. */
  function UnarchiveCampaign(s: State, c: string): State {
    if c !in s.campaigns || s.campaigns[c].archivedAt.None? then s
    else
      s.(businesses := map id | id in s.businesses ::
           if s.businesses[id].campaign == c && s.businesses[id].archivedAt == s.campaigns[c].archivedAt
           then Restored(s.businesses[id]) else s.businesses[id],
         campaigns := s.campaigns[c := s.campaigns[c].(archivedAt := None, reason := None)])
  }

  // --- deleting -----------------------------------------------------------------------

  /** Outreach that was recorded must not be forgotten. */
  predicate Protected(rows: seq<Row>, id: string) {
    Row(Approvals, id) in rows || Row(OutreachMessages, id) in rows
  }

  function Without(rows: seq<Row>, table: Table, id: string): (kept: seq<Row>)
    ensures forall k :: 0 <= k < |kept| ==> kept[k] in rows && !(kept[k].table == table && kept[k].business == id)
    ensures forall r :: r in rows && !(r.table == table && r.business == id) ==> r in kept
  {
    if rows == [] then []
    else
      var kept, last := Without(rows[..|rows| - 1], table, id), rows[|rows| - 1];
      if last.table == table && last.business == id then kept else kept + [last]
  }

  /** The order of the DELETE statements. */
  function Order(): seq<Table> {
    [ReconciliationEvents, OutreachEvents, OutreachMessages, Approvals, Deals,
     BusinessFacts, BusinessContacts, BusinessSources, Assets, WebsiteAudits, Qualifications,
     ProductionGaps, SiteProjects, EnrichmentRuns, StatusHistory, WorkflowJobs, WorkflowJobRuns]
  }

  function WithoutAll(rows: seq<Row>, tables: seq<Table>, id: string): seq<Row>
    decreases |tables|
  {
    if tables == [] then rows else WithoutAll(Without(rows, tables[0], id), tables[1..], id)
  }

  function DeleteBusiness(s: State, id: string): State {
    if id !in s.businesses || Protected(s.rows, id) then s
    else s.(businesses := s.businesses - {id}, rows := WithoutAll(s.rows, Order(), id))
  }

  function DeleteCampaign(s: State, c: string): State {
    if Members(s.businesses, c) != {} then s else s.(campaigns := s.campaigns - {c})
  }

  // --- whole runs -----------------------------------------------------------------------

  datatype Step =
    | Shelve(ids: set<string>, at: int, reason: Option<string>)
    | BringBack(ids: set<string>)
    | ShelveCampaign(campaign: string, at: int, reason: Option<string>)
    | BringCampaignBack(campaign: string)
    | Delete(id: string)
    | DeleteEmptyCampaign(campaign: string)

  function Next(s: State, step: Step): State {
    match step
    case Shelve(ids, at, reason) => ArchiveMany(s, ids, at, reason)
    case BringBack(ids) => UnarchiveMany(s, ids)
    case ShelveCampaign(c, at, reason) => ArchiveCampaign(s, c, at, reason)
    case BringCampaignBack(c) => UnarchiveCampaign(s, c)
    case Delete(id) => DeleteBusiness(s, id)
    case DeleteEmptyCampaign(c) => DeleteCampaign(s, c)
  }

  function Replay(s: State, steps: seq<Step>): State
    decreases |steps|
  {
    if steps == [] then s else Replay(Next(s, steps[0]), steps[1..])
  }

  /** Only archived businesses have a reason. */
  ghost predicate Tidy(s: State) {
    forall id :: id in s.businesses && s.businesses[id].archivedAt.None? ==> s.businesses[id].reason.None?
  }

  /** No step ever moves a business's status or its campaign. */
  ghost predicate StatusesKept(s: State, s': State) {
    forall id :: id in s'.businesses ==>
      id in s.businesses && s'.businesses[id].status == s.businesses[id].status
      && s'.businesses[id].campaign == s.businesses[id].campaign
  }

  lemma {:induction false} ArchivingKeepsStatuses(s: State, steps: seq<Step>)
    requires Tidy(s)
    ensures StatusesKept(s, Replay(s, steps)) && Tidy(Replay(s, steps))
    decreases |steps|
  {
    if steps != [] {
      ArchivingKeepsStatuses(Next(s, steps[0]), steps[1..]);
    }
  }

  // --- the cascade and its undoing ----------------------------------------------------------

  predicate OnlyShelves(steps: seq<Step>) {
    forall k :: 0 <= k < |steps| ==> steps[k].Shelve? || steps[k].ShelveCampaign?
  }

  /** The campaign and its businesses are as they were, all of them archived. */
  ghost predicate ShelvedAlike(s: State, s': State, c: string) {
    && s'.businesses.Keys == s.businesses.Keys
    && c in s.campaigns && c in s'.campaigns && s'.campaigns[c] == s.campaigns[c] && s.campaigns[c].archivedAt.Some?
    && (forall id :: id in s.businesses ==> s'.businesses[id].campaign == s.businesses[id].campaign)
    && (forall id :: id in s.businesses && s.businesses[id].campaign == c ==>
          s.businesses[id].archivedAt.Some? && s'.businesses[id] == s.businesses[id])
  }

  /** Archiving again, anything and in any way, does not touch a shelved campaign. */
  lemma {:induction false} RepeatedArchivingIsIdle(s: State, steps: seq<Step>, c: string)
    requires OnlyShelves(steps) && ShelvedAlike(s, s, c)
    ensures ShelvedAlike(s, Replay(s, steps), c)
    decreases |steps|
  {
    if steps != [] {
      var next := Next(s, steps[0]);
      assert ShelvedAlike(s, next, c);
      RepeatedArchivingIsIdle(next, steps[1..], c);
    }
  }

  /** A business of the campaign that was archived by hand at the cascade's very instant. */
  predicate StampedBefore(s: State, c: string, at: int) {
    exists id :: id in s.businesses && s.businesses[id].campaign == c && s.businesses[id].archivedAt == Some(at)
  }

  /** The campaign's businesses are back exactly as they were. */
  ghost predicate SameMembers(s: State, s': State, c: string) {
    && Members(s'.businesses, c) == Members(s.businesses, c)
    && forall id :: id in Members(s.businesses, c) ==> s'.businesses[id] == s.businesses[id]
  }

  /** What archiving makes of one business: an earlier stamp stays, and nobody else is touched. */
  lemma ShelvingStamps(s: State, ids: set<string>, c: string, at: int, reason: Option<string>, id: string)
    requires id in s.businesses
    ensures var b, byName := s.businesses[id], ArchiveMany(s, ids, at, reason);
            && byName.campaigns == s.campaigns && byName.rows == s.rows && byName.businesses.Keys == s.businesses.Keys
            && byName.businesses[id] ==
               if id in ids && b.archivedAt.None? then Business(b.campaign, b.status, Some(at), reason) else b
    ensures var b, cascade := s.businesses[id], ArchiveCampaign(s, c, at, reason);
            && cascade.rows == s.rows && cascade.businesses.Keys == s.businesses.Keys
            && if c in s.campaigns && s.campaigns[c].archivedAt.None?
               then cascade.campaigns == s.campaigns[c := Campaign("paused", Some(at), reason)]
                    && cascade.businesses[id] ==
                       if b.campaign == c && b.archivedAt.None?
                       then Business(b.campaign, b.status, Some(at), reason) else b
               else cascade == s
    ensures var b, back := s.businesses[id], UnarchiveMany(s, ids);
            && back.campaigns == s.campaigns && back.rows == s.rows && back.businesses.Keys == s.businesses.Keys
            && back.businesses[id] == if id in ids then Business(b.campaign, b.status, None, None) else b
  {
    assert id in Members(s.businesses, c) <==> s.businesses[id].campaign == c;
  }

  lemma CascadeShelves(s: State, c: string, at: int, reason: Option<string>)
    requires c in s.campaigns && s.campaigns[c].archivedAt.None?
    ensures var shelved := ArchiveCampaign(s, c, at, reason); ShelvedAlike(shelved, shelved, c)
  {}

  /** What a member of the campaign looks like after the cascade and the restore. */
  lemma MemberAfterRestore(s: State, later: State, c: string, at: int, reason: Option<string>, id: string)
    requires Tidy(s) && c in s.campaigns && s.campaigns[c].archivedAt.None?
    requires ShelvedAlike(ArchiveCampaign(s, c, at, reason), later, c)
    requires id in s.businesses
    ensures var restored := UnarchiveCampaign(later, c);
            && id in restored.businesses && restored.businesses[id].campaign == s.businesses[id].campaign
            && (s.businesses[id].campaign == c ==>
                  restored.businesses[id] ==
                  if s.businesses[id].archivedAt == Some(at) then Restored(s.businesses[id]) else s.businesses[id])
  {}

  /**
   * The restore is matched on the instant alone. After any archiving in between
   * it undoes the cascade exactly if no business of the campaign had been
   * archived by hand at that same instant; otherwise that one comes back too.
   */
  lemma RestoreUndoesCascadeIff(s: State, c: string, at: int, reason: Option<string>, steps: seq<Step>)
    requires Tidy(s) && c in s.campaigns && s.campaigns[c].archivedAt.None? && OnlyShelves(steps)
    ensures var shelved := ArchiveCampaign(s, c, at, reason);
            var restored := UnarchiveCampaign(Replay(shelved, steps), c);
            && c in restored.campaigns && restored.campaigns[c] == Campaign("paused", None, None)
            && (SameMembers(s, restored, c) <==> !StampedBefore(s, c, at))
  {
    var shelved := ArchiveCampaign(s, c, at, reason);
    var later := Replay(shelved, steps);
    var restored := UnarchiveCampaign(later, c);
    CascadeShelves(s, c, at, reason);
    RepeatedArchivingIsIdle(shelved, steps, c);
    assert restored.businesses.Keys == s.businesses.Keys;
    forall id | id in s.businesses
      ensures restored.businesses[id].campaign == s.businesses[id].campaign
      ensures s.businesses[id].campaign == c ==>
                restored.businesses[id] ==
                if s.businesses[id].archivedAt == Some(at) then Restored(s.businesses[id]) else s.businesses[id]
    {
      MemberAfterRestore(s, later, c, at, reason, id);
    }
    RestoredMembers(s, restored, c, at);
  }

  lemma RestoredMembers(s: State, restored: State, c: string, at: int)
    requires restored.businesses.Keys == s.businesses.Keys
    requires forall id :: id in s.businesses ==>
               && restored.businesses[id].campaign == s.businesses[id].campaign
               && (s.businesses[id].campaign == c ==>
                     restored.businesses[id] ==
                     if s.businesses[id].archivedAt == Some(at) then Restored(s.businesses[id]) else s.businesses[id])
    ensures SameMembers(s, restored, c) <==> !StampedBefore(s, c, at)
  {
    assert Members(restored.businesses, c) == Members(s.businesses, c);
    if StampedBefore(s, c, at) {
      var id :| id in s.businesses && s.businesses[id].campaign == c && s.businesses[id].archivedAt == Some(at);
      assert id in Members(s.businesses, c);
    }
  }

  lemma {:induction false} ShelvingKeepsKeys(s: State, steps: seq<Step>)
    requires OnlyShelves(steps)
    ensures Replay(s, steps).businesses.Keys == s.businesses.Keys
    decreases |steps|
  {
    if steps != [] {
      ShelvingKeepsKeys(Next(s, steps[0]), steps[1..]);
    }
  }

  /**
   * Bringing businesses back by name, unlike the campaign's restore, looks at no
   * instant: whatever was archived in between, a business is as it was exactly
   * if it was live, and an older stamp is gone.
   */
  lemma BringBackUndoesIff(s: State, ids: set<string>, at: int, reason: Option<string>, steps: seq<Step>, id: string)
    requires Tidy(s) && OnlyShelves(steps) && id in s.businesses && id in ids
    ensures var later := UnarchiveMany(Replay(ArchiveMany(s, ids, at, reason), steps), ids);
            && id in later.businesses && later.businesses[id].archivedAt.None?
            && (later.businesses[id] == s.businesses[id] <==> s.businesses[id].archivedAt.None?)
  {
    var shelved := ArchiveMany(s, ids, at, reason);
    ShelvingKeepsKeys(shelved, steps);
    ArchivingKeepsStatuses(shelved, steps);
    assert StatusesKept(shelved, Replay(shelved, steps));
  }

  /** Archived by hand and with its campaign at one instant, a business comes back with the campaign. */
  lemma SameInstantExample(at: int, reason: Option<string>) returns (s: State)
    ensures Tidy(s) && "shop" in s.businesses && s.businesses["shop"].archivedAt.None?
    ensures var byHand := ArchiveMany(s, {"shop"}, at, reason);
            var restored := UnarchiveCampaign(ArchiveCampaign(byHand, "spring", at, reason), "spring");
            && byHand.businesses["shop"].archivedAt == Some(at)
            && "shop" in restored.businesses && restored.businesses["shop"].archivedAt.None?
  {
    s := State(map["shop" := Business("spring", "discovered", None, None)],
               map["spring" := Campaign("running", None, None)], []);
  }

  // --- deletion -------------------------------------------------------------------------------

  /** Rows are deleted before the rows they cite, so no statement breaks one of the foreign keys. */
  lemma ChildrenFirst(i: nat, j: nat)
    requires i < |Order()| && j < |Order()|
    ensures Order()[i].ReconciliationEvents? && (Order()[j].WorkflowJobs? || Order()[j].WorkflowJobRuns?) ==> i < j
    ensures Order()[i].WorkflowJobs? && Order()[j].WorkflowJobRuns? ==> i < j
    ensures Order()[i].OutreachEvents? && Order()[j].OutreachMessages? ==> i < j
    ensures (Order()[i].BusinessFacts? || Order()[i].BusinessContacts?) && Order()[j].BusinessSources? ==> i < j
  {}

  lemma {:induction false} WithoutAllFinds(rows: seq<Row>, tables: seq<Table>, id: string, r: Row)
    ensures r in WithoutAll(rows, tables, id) <==> r in rows && !(r.business == id && r.table in tables)
    decreases |tables|
  {
    if tables != [] {
      WithoutAllFinds(Without(rows, tables[0], id), tables[1..], id, r);
    }
  }

  lemma EveryTableListed(t: Table)
    ensures t in Order()
  {
    match t
    case ReconciliationEvents => assert Order()[0] == t;
    case OutreachEvents => assert Order()[1] == t;
    case OutreachMessages => assert Order()[2] == t;
    case Approvals => assert Order()[3] == t;
    case Deals => assert Order()[4] == t;
    case BusinessFacts => assert Order()[5] == t;
    case BusinessContacts => assert Order()[6] == t;
    case BusinessSources => assert Order()[7] == t;
    case Assets => assert Order()[8] == t;
    case WebsiteAudits => assert Order()[9] == t;
    case Qualifications => assert Order()[10] == t;
    case ProductionGaps => assert Order()[11] == t;
    case SiteProjects => assert Order()[12] == t;
    case EnrichmentRuns => assert Order()[13] == t;
    case StatusHistory => assert Order()[14] == t;
    case WorkflowJobs => assert Order()[15] == t;
    case WorkflowJobRuns => assert Order()[16] == t;
  }

  lemma OwnRowsGo(rows: seq<Row>, id: string, r: Row)
    ensures r in WithoutAll(rows, Order(), id) <==> r in rows && r.business != id
  {
    EveryTableListed(r.table);
    WithoutAllFinds(rows, Order(), id, r);
  }

  /**
   * A delete takes a business with all its rows and nobody else's, or, when there
   * is an approval or a message, nothing at all.
   */
  lemma DeleteIsCleanOrRefused(s: State, id: string, r: Row)
    requires id in s.businesses
    ensures var s' := DeleteBusiness(s, id);
            if Row(Approvals, id) in s.rows || Row(OutreachMessages, id) in s.rows then s' == s
            else id !in s'.businesses && s'.businesses == s.businesses - {id} && s'.campaigns == s.campaigns
                 && (r in s'.rows <==> r in s.rows && r.business != id)
  {
    if !Protected(s.rows, id) {
      assert DeleteBusiness(s, id).rows == WithoutAll(s.rows, Order(), id);
      OwnRowsGo(s.rows, id, r);
    }
  }

  /** A campaign goes only without members, alone, and a second time it is not there. */
  lemma DeletedIfEmpty(s: State, c: string)
    ensures var s' := DeleteCampaign(s, c);
            if exists id :: id in s.businesses && s.businesses[id].campaign == c then s' == s
            else c !in s'.campaigns && s' == s.(campaigns := s.campaigns - {c})
  {
    if id :| id in s.businesses && s.businesses[id].campaign == c {
      assert id in Members(s.businesses, c);
    } else {
      assert Members(s.businesses, c) == {};
    }
  }

  /** The rows of one business, in their order. */
  function RowsOf(rows: seq<Row>, id: string): seq<Row> {
    if rows == [] then []
    else
      var mine, last := RowsOf(rows[..|rows| - 1], id), rows[|rows| - 1];
      if last.business == id then mine + [last] else mine
  }

  lemma {:induction false} RowsOfOthers(rows: seq<Row>, table: Table, other: string, id: string)
    requires other != id
    ensures RowsOf(Without(rows, table, other), id) == RowsOf(rows, id)
    decreases |rows|
  {
    if rows != [] {
      var kept, last := Without(rows[..|rows| - 1], table, other), rows[|rows| - 1];
      RowsOfOthers(rows[..|rows| - 1], table, other, id);
      assert (kept + [last])[..|kept|] == kept;
    }
  }

  lemma {:induction false} RowsOfKept(rows: seq<Row>, tables: seq<Table>, other: string, id: string)
    requires other != id
    ensures RowsOf(WithoutAll(rows, tables, other), id) == RowsOf(rows, id)
    decreases |tables|
  {
    if tables != [] {
      RowsOfOthers(rows, tables[0], other, id);
      RowsOfKept(Without(rows, tables[0], other), tables[1..], other, id);
    }
  }

  lemma {:induction false} ProtectedByOwnRows(rows: seq<Row>, id: string, r: Row)
    requires r.business == id
    ensures r in rows <==> r in RowsOf(rows, id)
    decreases |rows|
  {
    if rows != [] {
      ProtectedByOwnRows(rows[..|rows| - 1], id, r);
      assert rows == rows[..|rows| - 1] + [rows[|rows| - 1]];
    }
  }

  lemma ProtectionIsOwn(rows: seq<Row>, later: seq<Row>, id: string)
    requires RowsOf(later, id) == RowsOf(rows, id)
    ensures Protected(later, id) <==> Protected(rows, id)
  {
    ProtectedByOwnRows(rows, id, Row(Approvals, id));
    ProtectedByOwnRows(later, id, Row(Approvals, id));
    ProtectedByOwnRows(rows, id, Row(OutreachMessages, id));
    ProtectedByOwnRows(later, id, Row(OutreachMessages, id));
  }

  lemma DeleteKeepsOutreach(s: State, other: string, id: string)
    requires id in s.businesses && Protected(s.rows, id)
    ensures var next := DeleteBusiness(s, other);
            id in next.businesses && RowsOf(next.rows, id) == RowsOf(s.rows, id)
  {
    if other !in s.businesses || Protected(s.rows, other) {
      assert DeleteBusiness(s, other) == s;
    } else {
      assert other != id;
      RowsOfKept(s.rows, Order(), other, id);
    }
  }

  lemma StepKeepsOutreach(s: State, step: Step, id: string)
    requires id in s.businesses && Protected(s.rows, id)
    ensures var next := Next(s, step);
            id in next.businesses && RowsOf(next.rows, id) == RowsOf(s.rows, id) && Protected(next.rows, id)
  {
    if step.Delete? {
      DeleteKeepsOutreach(s, step.id, id);
      ProtectionIsOwn(s.rows, DeleteBusiness(s, step.id).rows, id);
    }
  }

  /**
   * Outreach, once recorded, outlives every sequence of archive operations and
   * deletions: the business stays, and so does every one of its rows.
   */
  lemma {:induction false} OutreachOutlives(s: State, steps: seq<Step>, id: string)
    requires id in s.businesses && Protected(s.rows, id)
    ensures var later := Replay(s, steps);
            id in later.businesses && RowsOf(later.rows, id) == RowsOf(s.rows, id) && Protected(later.rows, id)
    decreases |steps|
  {
    if steps != [] {
      StepKeepsOutreach(s, steps[0], id);
      OutreachOutlives(Next(s, steps[0]), steps[1..], id);
    }
  }

  /** One approval, or one message, is enough. */
  lemma OneRecordIsEnough(s: State, steps: seq<Step>, id: string)
    requires id in s.businesses && (Row(Approvals, id) in s.rows || Row(OutreachMessages, id) in s.rows)
    ensures var later := Replay(s, steps);
            && id in later.businesses && RowsOf(later.rows, id) == RowsOf(s.rows, id)
            && (Row(Approvals, id) in s.rows ==> Row(Approvals, id) in later.rows)
            && (Row(OutreachMessages, id) in s.rows ==> Row(OutreachMessages, id) in later.rows)
  {
    var later := Replay(s, steps);
    OutreachOutlives(s, steps, id);
    ProtectedByOwnRows(s.rows, id, Row(Approvals, id));
    ProtectedByOwnRows(later.rows, id, Row(Approvals, id));
    ProtectedByOwnRows(s.rows, id, Row(OutreachMessages, id));
    ProtectedByOwnRows(later.rows, id, Row(OutreachMessages, id));
  }

  /** Every business has its campaign. */
  ghost predicate NoOrphans(s: State) {
    forall id :: id in s.businesses ==> s.businesses[id].campaign in s.campaigns
  }

  /** A campaign goes only when it is empty, so no business is ever left without one. */
  lemma {:induction false} NeverOrphans(s: State, steps: seq<Step>)
    requires NoOrphans(s)
    ensures NoOrphans(Replay(s, steps))
    decreases |steps|
  {
    if steps != [] {
      StepNoOrphans(s, steps[0]);
      NeverOrphans(Next(s, steps[0]), steps[1..]);
    }
  }

  lemma StepNoOrphans(s: State, step: Step)
    requires NoOrphans(s)
    ensures NoOrphans(Next(s, step))
  {
    if step.DeleteEmptyCampaign? {
      assert forall id :: id in s.businesses && s.businesses[id].campaign == step.campaign ==>
          id in Members(s.businesses, step.campaign);
    }
  }
}
