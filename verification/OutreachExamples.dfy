// Reachable states in which the budget and the stop signals fail as
// OutreachSafety says they do.
module OutreachExamples {
  import opened Bytes
  import opened Outreach
  import opened OutreachSafety

  function Fresh(): State {
    State(0, map[], map[], [], [], {}, {}, {}, {}, [])
  }

  /** Every reservation of a run is checked against this limit. */
  ghost predicate UnderLimit(steps: seq<Step>, limit: nat) {
    forall i :: 0 <= i < |steps| && steps[i].ReserveMessage? ==> steps[i].limit == limit
  }

  /** Some run from the empty state under this limit leads here. */
  ghost predicate Reachable(s: State, limit: nat) {
    exists steps :: UnderLimit(steps, limit) && Replay(Fresh(), steps) == s
  }

  lemma {:induction false} ReplaySnoc(s: State, steps: seq<Step>, step: Step)
    ensures Replay(s, steps + [step]) == Next(Replay(s, steps), step)
    decreases |steps|
  {
    if steps == [] {
      assert [step][1..] == [];
    } else {
      assert (steps + [step])[1..] == steps[1..] + [step];
      ReplaySnoc(Next(s, steps[0]), steps[1..], step);
    }
  }

  lemma FreshIsReachable(limit: nat)
    ensures Reachable(Fresh(), limit)
  {
    assert UnderLimit([], limit) && Replay(Fresh(), []) == Fresh();
  }

  lemma Reaches(s: State, step: Step, limit: nat)
    requires Reachable(s, limit) && (step.ReserveMessage? ==> step.limit == limit)
    ensures Reachable(Next(s, step), limit)
  {
    var steps :| UnderLimit(steps, limit) && Replay(Fresh(), steps) == s;
    ReplaySnoc(Fresh(), steps, step);
    assert UnderLimit(steps + [step], limit);
  }

  // --- an initial message ---------------------------------------------------------------

  function InitialTicket(s: State, business: string, draft: Draft): Ticket {
    Ticket(SendKey(|s.approvals|), business, draft.channel, draft.address)
  }

  function Approving(s: State, business: string, draft: Draft): State {
    s.(status := s.status[business := OutreachApproved],
       approvals := s.approvals + [Approval(business, Approved(draft, s.now))])
  }

  function Passing(s: State, business: string, draft: Draft): State {
    Approving(s, business, draft).(tickets := s.tickets + {InitialTicket(s, business, draft)})
  }

  function InitialRow(s: State, business: string, draft: Draft): Message {
    Message(SendKey(|s.approvals|), business, draft.channel, draft.address, Queued, s.now, None)
  }

  function Queueing(s: State, business: string, draft: Draft): State {
    Approving(s, business, draft).(messages := s.messages + [InitialRow(s, business, draft)])
  }

  /** The present approval was not decided after this moment. */
  predicate NoneLater(s: State, business: string) {
    var found := LatestApproved(s.approvals, business);
    found.Some? ==> s.approvals[found.value].decision.at <= s.now
  }

  lemma ReachesApproving(s: State, business: string, draft: Draft, limit: nat)
    requires Reachable(s, limit)
    ensures Reachable(Approving(s, business, draft), limit)
  {
    var n := |s.approvals|;
    Reaches(s, StatusMoves(business, SiteReady), limit);
    var ready := s.(status := s.status[business := SiteReady]);
    Reaches(ready, NewApproval(business), limit);
    var asked := ready.(approvals := s.approvals + [Approval(business, Undecided)]);
    Reaches(asked, OperatorApproves(n, draft), limit);
    assert asked.approvals[n := Approval(business, Approved(draft, s.now))] == Approving(s, business, draft).approvals;
    assert s.status[business := SiteReady][business := OutreachApproved] == s.status[business := OutreachApproved];
  }

  lemma ReachesPassing(s: State, business: string, draft: Draft, limit: nat)
    requires Reachable(s, limit) && !IsBarred(s, business, draft.address) && NoneLater(s, business)
    ensures Reachable(Passing(s, business, draft), limit)
  {
    var approved := Approving(s, business, draft);
    ReachesApproving(s, business, draft, limit);
    assert approved.approvals[..|s.approvals|] == s.approvals;
    Reaches(approved, PassSendGate(business), limit);
  }

  lemma ReachesQueueing(s: State, business: string, draft: Draft, limit: nat)
    requires Reachable(s, limit) && !IsBarred(s, business, draft.address) && NoneLater(s, business) && s.tickets == {}
    requires FindKey(s.messages, SendKey(|s.approvals|)).None?
    requires Automated(draft.channel) ==> SlotsTaken(s.messages, s.now) < limit
    ensures Reachable(Queueing(s, business, draft), limit)
  {
    var t := InitialTicket(s, business, draft);
    ReachesPassing(s, business, draft, limit);
    assert {t} - {t} == {};
    Reaches(Passing(s, business, draft), ReserveMessage(t, limit), limit);
  }

  // --- the examples -----------------------------------------------------------------------

  const AT_B := Draft(Email, "b@example")
  const AT_C := Draft(Email, "c@example")

  function OneQueued(): State {
    Queueing(Fresh(), "b", AT_B)
  }

  lemma OneQueuedIsReachable(limit: nat)
    requires limit > 0
    ensures Reachable(OneQueued(), limit)
    ensures OneQueued().messages == [InitialRow(Fresh(), "b", AT_B)] && SlotsTaken(OneQueued().messages, 0) == 1
  {
    FreshIsReachable(limit);
    ReachesQueueing(Fresh(), "b", AT_B, limit);
    SlotsAppend([], InitialRow(Fresh(), "b", AT_B), 0);
  }

  /** Its reservation has left the window when the next one is made. */
  function OneExpired(): State {
    Queueing(OneQueued().(now := DAY + 1), "c", AT_C)
  }

  lemma LateResultExample() returns (s: State)
    ensures Reachable(s, 1) && s.messages != [] && s.messages[0].state.Queued?
    ensures SlotsTaken(s.messages, s.now) == 1
    ensures SlotsTaken(Finalize(s, 0, Email, WasSent, 0).messages, s.now) == 2
  {
    s := OneExpired();
    var waited := OneQueued().(now := DAY + 1);
    var row := InitialRow(Fresh(), "b", AT_B);
    OneQueuedIsReachable(1);
    Reaches(OneQueued(), TimePasses(DAY + 1), 1);
    SlotsAppend([], row, DAY + 1);
    ReachesQueueing(waited, "c", AT_C, 1);
    SlotsAppend(waited.messages, InitialRow(waited, "c", AT_C), DAY + 1);
    SlotsUpdate(s.messages, 0, row.(state := Sent, sentAt := Some(DAY + 1)), DAY + 1);
  }

  /** The first message is sent, with as many follow-ups scheduled. */
  function OneSent(followups: nat): State {
    State(0, map["b" := Contacted], map["b" := Contacted], [Approval("b", Approved(AT_B, 0))],
          [InitialRow(Fresh(), "b", AT_B).(state := Sent, sentAt := Some(0))],
          {}, {}, FollowupKeys(0, followups), {}, [0])
  }

  lemma OneSentIsReachable(followups: nat, limit: nat)
    requires limit > 0
    ensures Reachable(OneSent(followups), limit)
  {
    OneQueuedIsReachable(limit);
    Reaches(OneQueued(), FinalizeMessage(0, Email, WasSent, followups), limit);
    var sent := Next(OneQueued(), FinalizeMessage(0, Email, WasSent, followups));
    assert sent.messages == OneSent(followups).messages && sent.sends == [0];
    assert sent.status == OneSent(followups).status && sent.followups == FollowupKeys(0, followups);
    assert sent == OneSent(followups);
  }

  /** It bounced. */
  function OneBounced(): State {
    OneSent(0).(messages := [InitialRow(Fresh(), "b", AT_B).(state := Failed, sentAt := Some(0))],
                inbound := {Inbound("b", Bounced)})
  }

  lemma OneBouncedIsReachable()
    ensures Reachable(OneBounced(), 1) && SlotsTaken(OneBounced().messages, 0) == 0
  {
    OneSentIsReachable(0, 1);
    Reaches(OneSent(0), BounceArrives("b", Some(0)), 1);
    assert Next(OneSent(0), BounceArrives("b", Some(0))).messages == OneBounced().messages;
    SlotsAppend([], OneBounced().messages[0], 0);
  }

  /** One bounce under a limit of one, and two messages leave at the same moment. */
  lemma BounceExample() returns (s: State)
    ensures Reachable(s, 1) && SendsWithin(s.sends, s.now - DAY, s.now) == 2
  {
    OneBouncedIsReachable();
    ReachesQueueing(OneBounced(), "c", AT_C, 1);
    var both := Queueing(OneBounced(), "c", AT_C);
    s := Next(both, FinalizeMessage(1, Email, WasSent, 0));
    Reaches(both, FinalizeMessage(1, Email, WasSent, 0), 1);
    assert s.sends == [0, 0] && [0, 0][..1] == [0] && [0][..0] == [];
    assert SendsWithin([0], -DAY, 0) == 1;
  }

  /** The opt-out is on record, and the worker past its gate still reserves the message. */
  lemma LateStopExample() returns (s: State, t: Ticket)
    ensures Reachable(s, 1) && t in s.tickets && Stopped(s, EverythingOf("b"))
    ensures s.messages == [] && Next(s, ReserveMessage(t, 1)).messages == [InitialRow(Fresh(), "b", AT_B)]
  {
    t := InitialTicket(Fresh(), "b", AT_B);
    FreshIsReachable(1);
    ReachesPassing(Fresh(), "b", AT_B, 1);
    Reaches(Passing(Fresh(), "b", AT_B), OptOutArrives("b", None), 1);
    s := Next(Passing(Fresh(), "b", AT_B), OptOutArrives("b", None));
  }

  // A follow-up fails after its business was reached by email. A new approval then
  // goes over a manual channel, and the follow-up job runs again.

  const BY_HAND := Draft(Viber, "+000")
  const FOLLOWUP := FollowupKey(0, 1)

  function FailedRow(): Message {
    Message(FOLLOWUP, "b", Email, "b@example", Failed, 0, None)
  }

  function FollowupPassed(): State {
    OneSent(1).(tickets := {Ticket(FOLLOWUP, "b", Email, "b@example")})
  }

  function FollowupFailed(): State {
    OneSent(1).(messages := OneSent(1).messages + [FailedRow()])
  }

  lemma FollowupPassedIsReachable()
    ensures Reachable(FollowupPassed(), 2)
  {
    OneSentIsReachable(1, 2);
    FollowupKeysAre(0, 1, 1);
    Reaches(OneSent(1), PassFollowupGate(FOLLOWUP), 2);
    assert Next(OneSent(1), PassFollowupGate(FOLLOWUP)) == FollowupPassed();
  }

  lemma FollowupFailedIsReachable()
    ensures Reachable(FollowupFailed(), 2)
  {
    var t := Ticket(FOLLOWUP, "b", Email, "b@example");
    var queued := OneSent(1).(messages := OneSent(1).messages + [FailedRow().(state := Queued)]);
    FollowupPassedIsReachable();
    SlotsAppend([], OneSent(1).messages[0], 0);
    Reaches(FollowupPassed(), ReserveMessage(t, 2), 2);
    assert {t} - {t} == {};
    assert Next(FollowupPassed(), ReserveMessage(t, 2)) == queued;
    Reaches(queued, MarkMessage(1, false), 2);
    assert Next(queued, MarkMessage(1, false)).messages == FollowupFailed().messages;
  }

  function ReachedByHand(): State {
    var row := Message(SendKey(1), "b", Viber, "+000", Sent, 0, Some(0));
    FollowupFailed().(approvals := FollowupFailed().approvals + [Approval("b", Approved(BY_HAND, 0))],
                      messages := FollowupFailed().messages + [row])
  }

  lemma ReachedByHandIsReachable()
    ensures Reachable(ReachedByHand(), 2)
  {
    var s := FollowupFailed();
    FollowupFailedIsReachable();
    assert s.approvals[..0] == [];
    ReachesQueueing(s, "b", BY_HAND, 2);
    var queued := Queueing(s, "b", BY_HAND);
    Reaches(queued, FinalizeMessage(2, Viber, ForOperator, 0), 2);
    var pending := Next(queued, FinalizeMessage(2, Viber, ForOperator, 0));
    Reaches(pending, OperatorConfirms(1, 0), 2);
    assert Next(pending, OperatorConfirms(1, 0)).messages == ReachedByHand().messages;
    assert Next(pending, OperatorConfirms(1, 0)) == ReachedByHand();
  }

  /** Another business takes the last slot. */
  function LastSlotTaken(): State {
    Queueing(ReachedByHand(), "c", AT_C)
  }

  lemma LastSlotTakenIsReachable()
    ensures Reachable(LastSlotTaken(), 2) && SlotsTaken(LastSlotTaken().messages, 0) == 2
  {
    var s := ReachedByHand();
    ReachedByHandIsReachable();
    SlotsAppend([], s.messages[0], 0);
    SlotsAppend(s.messages[..1], s.messages[1], 0);
    SlotsAppend(s.messages[..2], s.messages[2], 0);
    assert s.messages == s.messages[..2] + [s.messages[2]] && s.messages[..2] == s.messages[..1] + [s.messages[1]];
    assert s.messages[..1] == [] + [s.messages[0]];
    ReachesQueueing(s, "c", AT_C, 2);
    SlotsAppend(s.messages, InitialRow(s, "c", AT_C), 0);
  }

  /** The manual ticket takes over the automated row unchecked, and three slots of two are taken. */
  lemma TakeOverExample() returns (s: State, t: Ticket)
    ensures Reachable(s, 2) && t in s.tickets && SlotsTaken(s.messages, s.now) == 2
    ensures SlotsTaken(Reserve(s.messages, s.now, t, 2).0, s.now) == 3
  {
    t := Ticket(FOLLOWUP, "b", Viber, "+000");
    LastSlotTakenIsReachable();
    FollowupKeysAre(0, 1, 1);
    var before := LastSlotTaken();
    s := before.(tickets := {t});
    assert LatestInitial(before.messages[..3], "b") == Some(2);
    Reaches(before, PassFollowupGate(FOLLOWUP), 2);
    assert Next(before, PassFollowupGate(FOLLOWUP)) == s;
    assert FindKey(s.messages[..2], FOLLOWUP) == Some(1);
    SlotsUpdate(s.messages, 1, FailedRow().(state := Queued), 0);
  }
}
