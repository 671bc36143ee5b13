// Outreach: an operator approves once, a worker passes its gates, reserves one
// message under a daily budget, sends, and finalizes; replies, bounces and
// opt-outs arrive at any time.
module Outreach {
  import opened Bytes

  datatype Channel = WhatsApp | Email | Instagram | Viber

  predicate Automated(c: Channel) {
    c.WhatsApp? || c.Email?
  }

  /** Statuses as far as outreach tells them apart. */
  datatype BusinessStatus = Earlier | SiteReady | OutreachApproved | Contacted | Replied | Later | DoNotContact | Rejected

  datatype Draft = Draft(channel: Channel, address: string)

  datatype Approval = Approval(business: string, decision: Decision)
  datatype Decision = Undecided | Approved(draft: Draft, at: int) | Refused

  /** sendIdempotencyKey and followupIdempotencyKey. */
  datatype Key = SendKey(approval: nat) | FollowupKey(approval: nat, index: nat)

  datatype MessageState = Queued | ManualPending | Sent | Delivered | Simulated | DeliveryUnknown | Failed

  datatype Message = Message(key: Key, business: string, channel: Channel, address: string,
                             state: MessageState, created: int, sentAt: Option<int>)

  datatype InboundKind = ReplyReceived | OptedOut | Bounced
  datatype Inbound = Inbound(business: string, kind: InboundKind)

  datatype Barred = BarredBusiness(business: string) | BarredAddress(address: string)

  /** What a worker holds between its gates and its reservation. */
  datatype Ticket = Ticket(key: Key, business: string, channel: Channel, address: string)

  /** `followups` are the scheduled follow-up jobs; `sends` logs when automated messages left. */
  datatype State = State(now: int, status: map<string, BusinessStatus>, deals: map<string, BusinessStatus>,
                         approvals: seq<Approval>, messages: seq<Message>, inbound: set<Inbound>,
                         barred: set<Barred>, followups: set<Key>, tickets: set<Ticket>, sends: seq<int>)

  const DAY: int := 24 * 60 * 60 * 1000

  // --- the budget -------------------------------------------------------------------

  predicate FinalCounted(s: MessageState) {
    s.Sent? || s.Delivered? || s.Simulated? || s.DeliveryUnknown?
  }

  /** Whether a message takes a slot of the window that ends now. */
  predicate TakesSlot(m: Message, now: int) {
    Automated(m.channel)
    && ((m.state.Queued? && m.created >= now - DAY)
        || (FinalCounted(m.state) && m.sentAt.Some? && m.sentAt.value >= now - DAY))
  }

  function SlotsTaken(messages: seq<Message>, now: int): nat {
    if messages == [] then 0
    else SlotsTaken(messages[..|messages| - 1], now) + if TakesSlot(messages[|messages| - 1], now) then 1 else 0
  }

  // --- reservation ------------------------------------------------------------------

  function FindKey(messages: seq<Message>, key: Key): (found: Option<nat>)
    ensures found.Some? ==> found.value < |messages| && messages[found.value].key == key
    ensures found.None? ==> forall i :: 0 <= i < |messages| ==> messages[i].key != key
  {
    if messages == [] then None
    else if messages[|messages| - 1].key == key then Some(|messages| - 1)
    else FindKey(messages[..|messages| - 1], key)
  }

  datatype Reservation = Reserved(message: nat) | Duplicate(message: nat, state: MessageState) | DailyLimit(current: nat)

  /** reserveMessage: the present row wins unless it failed; automated channels need a free slot. */
  function Reserve(messages: seq<Message>, now: int, t: Ticket, limit: nat): (seq<Message>, Reservation) {
    var found := FindKey(messages, t.key);
    if found.Some? && !messages[found.value].state.Failed? then
      (messages, Duplicate(found.value, messages[found.value].state))
    else if Automated(t.channel) && SlotsTaken(messages, now) >= limit then
      (messages, DailyLimit(SlotsTaken(messages, now)))
    else if found.Some? then
      (messages[found.value := messages[found.value].(state := Queued, sentAt := None, created := now)],
       Reserved(found.value))
    else
      (messages + [Message(t.key, t.business, t.channel, t.address, Queued, now, None)], Reserved(|messages|))
  }

  // --- gates --------------------------------------------------------------------------

  predicate IsBarred(s: State, business: string, address: string) {
    BarredBusiness(business) in s.barred || BarredAddress(address) in s.barred
  }

  predicate HasInbound(s: State, business: string) {
    Inbound(business, ReplyReceived) in s.inbound || Inbound(business, OptedOut) in s.inbound
    || Inbound(business, Bounced) in s.inbound
  }

  /** The approved approval of a business that was decided last. */
  function LatestApproved(approvals: seq<Approval>, business: string): (found: Option<nat>)
    ensures found.Some? ==> found.value < |approvals| && approvals[found.value].business == business
                            && approvals[found.value].decision.Approved?
  {
    if approvals == [] then None
    else
      var best, a := LatestApproved(approvals[..|approvals| - 1], business), approvals[|approvals| - 1];
      if a.business == business && a.decision.Approved?
         && (best.None? || approvals[best.value].decision.at <= a.decision.at)
      then Some(|approvals| - 1) else best
  }

  /** The ticket of an initial send; None when a gate refuses. */
  function SendTicket(s: State, business: string): Option<Ticket> {
    var found := LatestApproved(s.approvals, business);
    if found.None? || business !in s.status || !s.status[business].OutreachApproved? then None
    else
      var draft := s.approvals[found.value].decision.draft;
      if IsBarred(s, business, draft.address) then None
      else Some(Ticket(SendKey(found.value), business, draft.channel, draft.address))
  }

  function LatestInitial(messages: seq<Message>, business: string): (found: Option<nat>)
    ensures found.Some? ==> found.value < |messages| && messages[found.value].business == business
                            && messages[found.value].key.SendKey?
  {
    if messages == [] then None
    else if messages[|messages| - 1].business == business && messages[|messages| - 1].key.SendKey? then Some(|messages| - 1)
    else LatestInitial(messages[..|messages| - 1], business)
  }

  predicate BeyondContacted(s: BusinessStatus) {
    s.Replied? || s.Later? || s.DoNotContact? || s.Rejected?
  }

  /** followupSkipReason, and the ticket when there is no reason. */
  function FollowupTicket(s: State, key: Key): Option<Ticket>
    requires key.FollowupKey?
  {
    if key !in s.followups || key.approval >= |s.approvals| then None
    else
      var business := s.approvals[key.approval].business;
      var initial := LatestInitial(s.messages, business);
      if business in s.status && BeyondContacted(s.status[business]) then None
      else if business in s.deals && !s.deals[business].Contacted? then None
      else if HasInbound(s, business) then None
      else if initial.None? then None
      else
        var m := s.messages[initial.value];
        if !m.state.Sent? && !m.state.Simulated? then None
        else if IsBarred(s, business, m.address) then None
        else Some(Ticket(key, business, m.channel, m.address))
  }

  // --- what a worker or an operator commits -----------------------------------------------

  /** How an attempt to send ends. */
  datatype SendResult = WasSent | WasSimulated | ForOperator

  function ResultState(r: SendResult): MessageState {
    match r
    case WasSent => Sent
    case WasSimulated => Simulated
    case ForOperator => ManualPending
  }

  /** One job for each follow-up day, numbered from one. */
  function FollowupKeys(approval: nat, n: nat): (keys: set<Key>)
    ensures forall k :: k in keys ==> k.FollowupKey? && k.approval == approval
  {
    if n == 0 then {} else FollowupKeys(approval, n - 1) + {FollowupKey(approval, n)}
  }

  /** Contacts the business: status, deal and follow-up jobs, only from the approved status. */
  function Contact(s: State, approval: nat, business: string, followups: nat): State {
    if business in s.status && s.status[business].OutreachApproved? then
      s.(status := s.status[business := Contacted],
         deals := if business in s.deals then s.deals else s.deals[business := Contacted],
         followups := s.followups + FollowupKeys(approval, followups))
    else s
  }

  /** finalizeInitial and finalizeFollowup: only a queued message is finalized. `sentOver` is the worker's channel. */
  function Finalize(s: State, i: nat, sentOver: Channel, r: SendResult, followups: nat): State {
    if i >= |s.messages| || !s.messages[i].state.Queued? then s
    else
      var m := s.messages[i];
      var sentAt := if r.ForOperator? then None else Some(s.now);
      var s' := s.(messages := s.messages[i := m.(state := ResultState(r), sentAt := sentAt)],
                   sends := if r.ForOperator? || !Automated(sentOver) then s.sends else s.sends + [s.now]);
      if m.key.SendKey? && !r.ForOperator? then Contact(s', m.key.approval, m.business, followups) else s'
  }

  /** markFailed and markDeliveryUnknown; only an automated send may have left unnoticed. */
  function MarkTerminal(s: State, i: nat, mayHaveSent: bool): State {
    if i >= |s.messages| || !s.messages[i].state.Queued? then s
    else
      var m := s.messages[i];
      s.(messages := s.messages[i := m.(state := if mayHaveSent then DeliveryUnknown else Failed,
                                        sentAt := if mayHaveSent then Some(s.now) else None)],
         sends := if mayHaveSent then s.sends + [s.now] else s.sends)
  }

  function Approve(s: State, a: nat, draft: Draft): State {
    if a >= |s.approvals| || !s.approvals[a].decision.Undecided? then s
    else
      var business := s.approvals[a].business;
      if business !in s.status || !s.status[business].SiteReady? then s
      else s.(approvals := s.approvals[a := s.approvals[a].(decision := Approved(draft, s.now))],
              status := s.status[business := OutreachApproved])
  }

  function Refuse(s: State, a: nat): State {
    if a >= |s.approvals| || !s.approvals[a].decision.Undecided? then s
    else
      var business := s.approvals[a].business;
      if business !in s.status || !s.status[business].SiteReady? then s
      else s.(approvals := s.approvals[a := s.approvals[a].(decision := Refused)],
              status := s.status[business := Rejected])
  }

  function ConfirmManual(s: State, a: nat, followups: nat): State {
    if a >= |s.approvals| || !s.approvals[a].decision.Approved? then s
    else
      var business, found := s.approvals[a].business, FindKey(s.messages, SendKey(a));
      if found.None? || s.messages[found.value].business != business then s
      else if !s.messages[found.value].state.ManualPending? then s
      else if business !in s.status || !s.status[business].OutreachApproved? then s
      else
        Contact(s.(messages := s.messages[found.value := s.messages[found.value].(state := Sent, sentAt := Some(s.now))]),
                a, business, followups)
  }

  function RecordReply(s: State, business: string): State {
    if business !in s.status then s
    else
      var s' := s.(inbound := s.inbound + {Inbound(business, ReplyReceived)});
      if s.status[business].Later? || s.status[business].DoNotContact? then s'
      else s'.(status := s.status[business := Replied], deals := s.deals[business := Replied])
  }

  function RecordBounce(s: State, business: string, message: Option<nat>): State {
    s.(inbound := s.inbound + {Inbound(business, Bounced)},
       messages := if message.Some? && message.value < |s.messages|
                   then s.messages[message.value := s.messages[message.value].(state := Failed)] else s.messages)
  }

  function RecordOptOut(s: State, business: string, address: Option<string>): State {
    if business !in s.status then s
    else
      s.(inbound := s.inbound + {Inbound(business, OptedOut)},
         barred := s.barred + {BarredBusiness(business)} + if address.Some? then {BarredAddress(address.value)} else {},
         status := s.status[business := DoNotContact])
  }

  datatype Step =
    | OperatorApproves(approval: nat, draft: Draft)
    | OperatorRefuses(approval: nat)
    | NewApproval(business: string)
    | PassSendGate(business: string)
    | PassFollowupGate(key: Key)
    | ReserveMessage(ticket: Ticket, limit: nat)
    | FinalizeMessage(message: nat, sentOver: Channel, result: SendResult, followups: nat)
    | MarkMessage(message: nat, mayHaveSent: bool)
    | OperatorConfirms(approval: nat, followups: nat)
    | ReplyArrives(business: string)
    | BounceArrives(business: string, bounced: Option<nat>)
    | OptOutArrives(business: string, address: Option<string>)
    | StatusMoves(business: string, status: BusinessStatus)
    | TimePasses(ms: nat)

  function Next(s: State, step: Step): State {
    match step
    case OperatorApproves(a, draft) => Approve(s, a, draft)
    case OperatorRefuses(a) => Refuse(s, a)
    case NewApproval(business) => s.(approvals := s.approvals + [Approval(business, Undecided)])
    case PassSendGate(business) =>
      var t := SendTicket(s, business);
      if t.Some? then s.(tickets := s.tickets + {t.value})
      else if LatestApproved(s.approvals, business).Some? && business in s.status && s.status[business].OutreachApproved?
      then s.(status := s.status[business := DoNotContact]) else s
    case PassFollowupGate(key) =>
      if key.FollowupKey? && FollowupTicket(s, key).Some?
      then s.(tickets := s.tickets + {FollowupTicket(s, key).value}) else s
    case ReserveMessage(t, limit) =>
      if t !in s.tickets then s
      else s.(tickets := s.tickets - {t}, messages := Reserve(s.messages, s.now, t, limit).0)
    case FinalizeMessage(i, sentOver, r, followups) => Finalize(s, i, sentOver, r, followups)
    case MarkMessage(i, mayHaveSent) => MarkTerminal(s, i, mayHaveSent)
    case OperatorConfirms(a, followups) => ConfirmManual(s, a, followups)
    case ReplyArrives(business) => RecordReply(s, business)
    case BounceArrives(business, bounced) => RecordBounce(s, business, bounced)
    case OptOutArrives(business, address) => RecordOptOut(s, business, address)
    case StatusMoves(business, status) => s.(status := s.status[business := status])
    case TimePasses(ms) => s.(now := s.now + ms)
  }

  function Replay(s: State, steps: seq<Step>): State
    decreases |steps|
  {
    if steps == [] then s else Replay(Next(s, steps[0]), steps[1..])
  }
}
