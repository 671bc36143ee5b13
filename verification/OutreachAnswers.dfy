// What each transaction of outreach writes and answers, told row by row.
module OutreachAnswers {
  import opened Bytes
  import opened Outreach
  import opened OutreachSafety

  const A_DAY: int := 86_400_000

  // --- slots ----------------------------------------------------------------------------

  /**
   * A message of an automated channel holds a slot for a day: from its reservation
   * while it is queued, from its sending once it was or may have been sent. Failed
   * and manual ones hold none.
   */
  lemma HoldsASlotForADay(m: Message, now: int)
    ensures m.channel.Instagram? || m.channel.Viber? ==> !TakesSlot(m, now)
    ensures m.state.Failed? || m.state.ManualPending? ==> !TakesSlot(m, now)
    ensures (m.channel.Email? || m.channel.WhatsApp?) && m.state.Queued? ==>
              (TakesSlot(m, now) <==> now <= m.created + A_DAY)
    ensures (m.channel.Email? || m.channel.WhatsApp?)
            && (m.state.Sent? || m.state.Delivered? || m.state.Simulated? || m.state.DeliveryUnknown?) ==>
              (TakesSlot(m, now) <==> m.sentAt.Some? && now <= m.sentAt.value + A_DAY)
  {}

  // --- reservations -----------------------------------------------------------------------

  lemma FindsMessage(s: State, i: nat)
    requires Rooted(s) && i < |s.messages|
    ensures FindKey(s.messages, s.messages[i].key) == Some(i)
  {}

  /** A key that has no row yet: a new queued row, or a refusal for a full budget. */
  lemma NewKeyReserves(messages: seq<Message>, now: int, t: Ticket, limit: nat)
    requires forall i :: 0 <= i < |messages| ==> messages[i].key != t.key
    ensures Reserve(messages, now, t, limit) ==
            if (t.channel.Email? || t.channel.WhatsApp?) && SlotsTaken(messages, now) >= limit
            then (messages, DailyLimit(SlotsTaken(messages, now)))
            else (messages + [Message(t.key, t.business, t.channel, t.address, Queued, now, None)], Reserved(|messages|))
  {}

  /** A key that has a row: it is a duplicate, unless it failed and is queued again where it stands. */
  lemma UsedKeyReserves(s: State, i: nat, t: Ticket, limit: nat)
    requires Rooted(s) && i < |s.messages| && s.messages[i].key == t.key
    ensures Reserve(s.messages, s.now, t, limit) ==
            var m := s.messages[i];
            if !m.state.Failed? then (s.messages, Duplicate(i, m.state))
            else if (t.channel.Email? || t.channel.WhatsApp?) && SlotsTaken(s.messages, s.now) >= limit
            then (s.messages, DailyLimit(SlotsTaken(s.messages, s.now)))
            else (s.messages[i := Message(m.key, m.business, m.channel, m.address, Queued, s.now, None)], Reserved(i))
  {
    FindsMessage(s, i);
  }

  // --- gates ------------------------------------------------------------------------------

  /** The approval that counts is the one decided last, the later row among equals. */
  lemma {:induction false} LatestIsLast(approvals: seq<Approval>, business: string, i: nat)
    requires i < |approvals| && approvals[i].business == business && approvals[i].decision.Approved?
    ensures var found := LatestApproved(approvals, business);
            && found.Some? && approvals[i].decision.at <= approvals[found.value].decision.at
            && (approvals[i].decision.at == approvals[found.value].decision.at ==> i <= found.value)
    decreases |approvals|
  {
    if i < |approvals| - 1 {
      LatestIsLast(approvals[..|approvals| - 1], business, i);
    }
  }

  /** A first message passes the gate for the last approval, in the approved status, if nobody is barred. */
  lemma SendGatePasses(s: State, business: string, a: nat)
    requires LatestApproved(s.approvals, business) == Some(a)
    ensures var draft := s.approvals[a].decision.draft;
            SendTicket(s, business) ==
            if business in s.status && s.status[business].OutreachApproved?
               && BarredBusiness(business) !in s.barred && BarredAddress(draft.address) !in s.barred
            then Some(Ticket(SendKey(a), business, draft.channel, draft.address)) else None
  {}

  /** Without an approval there is no first message. */
  lemma NoApprovalNoTicket(s: State, business: string)
    requires forall a :: 0 <= a < |s.approvals| && s.approvals[a].business == business ==> !s.approvals[a].decision.Approved?
    ensures SendTicket(s, business).None? && Next(s, PassSendGate(business)) == s
  {}

  /** A barred business that reaches the gate is not to be contacted again. */
  lemma BarredAtTheGate(s: State, business: string, a: nat)
    requires LatestApproved(s.approvals, business) == Some(a) && business in s.status
    ensures var draft, s' := s.approvals[a].decision.draft, Next(s, PassSendGate(business));
            && (!s.status[business].OutreachApproved? ==> s' == s)
            && (s.status[business].OutreachApproved? ==>
                  if BarredBusiness(business) in s.barred || BarredAddress(draft.address) in s.barred
                  then s' == s.(status := s.status[business := DoNotContact])
                  else s' == s.(tickets := s.tickets + {Ticket(SendKey(a), business, draft.channel, draft.address)}))
  {}

  /** The first message of a business is the one that was reserved last. */
  lemma {:induction false} InitialIsLast(messages: seq<Message>, business: string, i: nat)
    requires i < |messages| && messages[i].business == business && messages[i].key.SendKey?
    ensures var found := LatestInitial(messages, business); found.Some? && i <= found.value
    decreases |messages|
  {
    if i < |messages| - 1 {
      InitialIsLast(messages[..|messages| - 1], business, i);
    }
  }

  /** A follow-up passes if it is scheduled, nothing came back, the business stands where it was, and its first message went out. */
  lemma FollowupGatePasses(s: State, a: nat, k: nat, i: nat)
    requires a < |s.approvals| && LatestInitial(s.messages, s.approvals[a].business) == Some(i)
    ensures var business, m := s.approvals[a].business, s.messages[i];
            var waiting := FollowupKey(a, k) in s.followups
              && (business in s.status ==>
                    !s.status[business].Replied? && !s.status[business].Later?
                    && !s.status[business].DoNotContact? && !s.status[business].Rejected?)
              && (business in s.deals ==> s.deals[business].Contacted?);
            var silent := Inbound(business, ReplyReceived) !in s.inbound && Inbound(business, OptedOut) !in s.inbound
                          && Inbound(business, Bounced) !in s.inbound
                          && BarredBusiness(business) !in s.barred && BarredAddress(m.address) !in s.barred;
            FollowupTicket(s, FollowupKey(a, k)) ==
            if waiting && silent && (m.state.Sent? || m.state.Simulated?)
            then Some(Ticket(FollowupKey(a, k), business, m.channel, m.address)) else None
  {}

  lemma NoFirstMessageNoFollowup(s: State, a: nat, k: nat)
    requires a < |s.approvals| ==> LatestInitial(s.messages, s.approvals[a].business).None?
    ensures FollowupTicket(s, FollowupKey(a, k)).None?
    ensures Next(s, PassFollowupGate(FollowupKey(a, k))) == s && Next(s, PassFollowupGate(SendKey(a))) == s
  {}

  /** A ticket is used up by its reservation, whatever comes of it, and nothing is reserved without one. */
  lemma TicketIsUsedUp(s: State, t: Ticket, limit: nat)
    ensures Next(s, ReserveMessage(t, limit)) ==
            if t in s.tickets
            then s.(tickets := s.tickets - {t}, messages := Reserve(s.messages, s.now, t, limit).0) else s
  {}

  // --- results ------------------------------------------------------------------------------

  /** What finalizing writes on the message and in the log of sends. */
  lemma FinalizeWrites(s: State, i: nat, sentOver: Channel, followups: nat)
    requires i < |s.messages| && s.messages[i].state.Queued?
    ensures var m := s.messages[i];
            && Finalize(s, i, sentOver, WasSent, followups).messages == s.messages[i := m.(state := Sent, sentAt := Some(s.now))]
            && Finalize(s, i, sentOver, WasSimulated, followups).messages ==
               s.messages[i := m.(state := Simulated, sentAt := Some(s.now))]
            && Finalize(s, i, sentOver, ForOperator, followups) ==
               s.(messages := s.messages[i := m.(state := ManualPending, sentAt := None)])
    ensures var logged := if sentOver.Email? || sentOver.WhatsApp? then s.sends + [s.now] else s.sends;
            && Finalize(s, i, sentOver, WasSent, followups).sends == logged
            && Finalize(s, i, sentOver, WasSimulated, followups).sends == logged
    ensures Finalize(s, i, sentOver, WasSimulated, followups) ==
            Finalize(s, i, sentOver, WasSent, followups).(messages := s.messages[i :=
              s.messages[i].(state := Simulated, sentAt := Some(s.now))])
  {}

  /** A follow-up's result changes nothing but its message; a first message contacts its business as well. */
  lemma FirstMessageContacts(s: State, i: nat, sentOver: Channel, n: nat)
    requires i < |s.messages| && s.messages[i].state.Queued?
    ensures var m, s' := s.messages[i], Finalize(s, i, sentOver, WasSent, n);
            && s' == s.(messages := s'.messages, sends := s'.sends, status := s'.status, deals := s'.deals, followups := s'.followups)
            && if m.key.SendKey? && m.business in s.status && s.status[m.business].OutreachApproved?
               then && s'.status == s.status[m.business := Contacted]
                    && s'.deals == (if m.business in s.deals then s.deals else s.deals[m.business := Contacted])
                    && (forall k :: k in s'.followups <==>
                          k in s.followups || (k.FollowupKey? && k.approval == m.key.approval && 1 <= k.index <= n))
               else s'.status == s.status && s'.deals == s.deals && s'.followups == s.followups
  {
    var m := s.messages[i];
    forall k: Key | k.FollowupKey? && k.approval == m.key.approval
      ensures k in FollowupKeys(m.key.approval, n) <==> 1 <= k.index <= n
    {
      FollowupKeysAre(m.key.approval, n, k.index);
    }
  }

  /** Only a queued message takes a result. */
  lemma SettledStays(s: State, i: nat, sentOver: Channel, r: SendResult, followups: nat, mayHaveSent: bool)
    requires i < |s.messages| ==> !s.messages[i].state.Queued?
    ensures Finalize(s, i, sentOver, r, followups) == s && MarkTerminal(s, i, mayHaveSent) == s
  {}

  /** A send that failed is failed, unless it may have gone out: then it counts as sent now. */
  lemma FailureWrites(s: State, i: nat)
    requires i < |s.messages| && s.messages[i].state.Queued?
    ensures MarkTerminal(s, i, false) == s.(messages := s.messages[i := s.messages[i].(state := Failed, sentAt := None)])
    ensures MarkTerminal(s, i, true) ==
            s.(messages := s.messages[i := s.messages[i].(state := DeliveryUnknown, sentAt := Some(s.now))],
               sends := s.sends + [s.now])
  {}

  // --- decisions ------------------------------------------------------------------------------

  /** An operator decides an open approval of a business whose site is ready; business and approval move together. */
  lemma DecisionWrites(s: State, a: nat, draft: Draft)
    ensures var open := a < |s.approvals| && s.approvals[a].decision.Undecided?
                        && s.approvals[a].business in s.status && s.status[s.approvals[a].business].SiteReady?;
            && Approve(s, a, draft) ==
               (if open then s.(approvals := s.approvals[a := Approval(s.approvals[a].business, Approved(draft, s.now))],
                                status := s.status[s.approvals[a].business := OutreachApproved]) else s)
            && Refuse(s, a) ==
               (if open then s.(approvals := s.approvals[a := Approval(s.approvals[a].business, Refused)],
                                status := s.status[s.approvals[a].business := Rejected]) else s)
  {}

  /** The operator's confirmation of a manual first message. */
  lemma ConfirmationWrites(s: State, a: nat, n: nat, i: nat)
    requires Rooted(s) && a < |s.approvals| && i < |s.messages| && s.messages[i].key == SendKey(a)
    ensures var business, m, s' := s.approvals[a].business, s.messages[i], ConfirmManual(s, a, n);
            if m.state.ManualPending? && business in s.status && s.status[business].OutreachApproved?
            then && s'.messages == s.messages[i := m.(state := Sent, sentAt := Some(s.now))]
                 && s'.status == s.status[business := Contacted]
                 && s'.deals == (if business in s.deals then s.deals else s.deals[business := Contacted])
                 && (forall k :: k in s'.followups <==>
                       k in s.followups || (k.FollowupKey? && k.approval == a && 1 <= k.index <= n))
                 && s' == s.(messages := s'.messages, status := s'.status, deals := s'.deals, followups := s'.followups)
            else s' == s
  {
    FindsMessage(s, i);
    assert Backed(s.approvals, s.messages[i].key, s.messages[i].business);
    forall k: Key | k.FollowupKey? && k.approval == a ensures k in FollowupKeys(a, n) <==> 1 <= k.index <= n {
      FollowupKeysAre(a, n, k.index);
    }
  }

  lemma NothingToConfirm(s: State, a: nat, n: nat)
    requires forall i :: 0 <= i < |s.messages| ==> s.messages[i].key != SendKey(a)
    ensures ConfirmManual(s, a, n) == s
  {}

  // --- what comes back --------------------------------------------------------------------------

  /** A reply is on record, and moves business and deal unless the business is further on or must not be contacted. */
  lemma ReplyWrites(s: State, business: string)
    requires business in s.status
    ensures var s' := RecordReply(s, business);
            && s'.inbound == s.inbound + {Inbound(business, ReplyReceived)}
            && s' == s.(inbound := s'.inbound, status := s'.status, deals := s'.deals)
            && if s.status[business].Later? || s.status[business].DoNotContact?
               then s'.status == s.status && s'.deals == s.deals
               else s'.status == s.status[business := Replied] && s'.deals == s.deals[business := Replied]
  {}

  /** A bounce is on record, and its message failed, whatever state it was in. */
  lemma BounceWrites(s: State, business: string, i: nat)
    ensures RecordBounce(s, business, None) == s.(inbound := s.inbound + {Inbound(business, Bounced)})
    ensures i < |s.messages| ==>
              RecordBounce(s, business, Some(i)) ==
              s.(inbound := s.inbound + {Inbound(business, Bounced)},
                 messages := s.messages[i := s.messages[i].(state := Failed)])
  {}

  /** An opt-out is on record, bars the business and the address it came from, and ends the contact. */
  lemma OptOutWrites(s: State, business: string, address: string)
    requires business in s.status
    ensures RecordOptOut(s, business, Some(address)) ==
            s.(inbound := s.inbound + {Inbound(business, OptedOut)},
               barred := s.barred + {BarredBusiness(business), BarredAddress(address)},
               status := s.status[business := DoNotContact])
    ensures RecordOptOut(s, business, None) ==
            s.(inbound := s.inbound + {Inbound(business, OptedOut)},
               barred := s.barred + {BarredBusiness(business)},
               status := s.status[business := DoNotContact])
  {
    assert s.barred + {BarredBusiness(business)} + {BarredAddress(address)} ==
           s.barred + {BarredBusiness(business), BarredAddress(address)};
    assert s.barred + {BarredBusiness(business)} + {} == s.barred + {BarredBusiness(business)};
  }

  /** A reply or an opt-out of a business that is not there is a throw. */
  lemma UnknownBusinessThrows(s: State, business: string, address: Option<string>)
    requires business !in s.status
    ensures RecordReply(s, business) == s && RecordOptOut(s, business, address) == s
  {}

  /** So after an opt-out neither the business nor the address is ever written to again, however the next steps run. */
  lemma OptOutIsForever(s: State, business: string, address: string, steps: seq<Step>, t: Ticket)
    requires Rooted(s) && business in s.status
    requires forall u :: u in s.tickets ==> u.business != business && u.address != address
    ensures var later := Replay(Next(s, OptOutArrives(business, Some(address))), steps);
            t in later.tickets ==> t.business != business && t.address != address
  {
    var next := Next(s, OptOutArrives(business, Some(address)));
    StepRooted(s, OptOutArrives(business, Some(address)));
    StopsForGood(next, steps, EverythingOf(business));
    StopsForGood(next, steps, EverythingTo(address));
    var later := Replay(next, steps);
    assert t in later.tickets ==> !TicketIn(EverythingOf(business), t) && !TicketIn(EverythingTo(address), t);
  }
}
