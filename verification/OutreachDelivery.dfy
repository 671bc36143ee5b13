// The durable boundary around a delivery, as its transactions run.
module OutreachDelivery {
  import opened Bytes
  import opened Outreach

  class DeliveryService {
    var state: State

    constructor (start: State)
      ensures state == start
    {
      state := start;
    }

    /** Reserves the message of a key and, on an automated channel, one slot of the budget. */
    method ReserveMessage(t: Ticket, dailyLimit: nat) returns (r: Reservation)
      modifies this
      ensures var (messages, result) := Reserve(old(state).messages, old(state).now, t, dailyLimit);
              r == result && state == old(state).(messages := messages)
    {
      var existing := FindKey(state.messages, t.key);
      if existing.Some? && !state.messages[existing.value].state.Failed? {
        return Duplicate(existing.value, state.messages[existing.value].state);
      }
      if Automated(t.channel) {
        var current := CountSlots(state.messages, state.now - DAY);
        if current >= dailyLimit {
          return DailyLimit(current);
        }
      }
      if existing.Some? {
        var i := existing.value;
        state := state.(messages := state.messages[i := state.messages[i].(state := Queued, sentAt := None, created := state.now)]);
        return Reserved(i);
      }
      var i := |state.messages|;
      state := state.(messages := state.messages + [Message(t.key, t.business, t.channel, t.address, Queued, state.now, None)]);
      return Reserved(i);
    }

    /** Commits every local consequence of an initial send; false when it was finalized before. */
    method FinalizeInitial(i: nat, sentOver: Channel, r: SendResult, followupDays: nat) returns (finalized: bool)
      requires i < |state.messages| && state.messages[i].key.SendKey?
      modifies this
      ensures state == Finalize(old(state), i, sentOver, r, followupDays)
      ensures finalized == old(state).messages[i].state.Queued?
    {
      var m := state.messages[i];
      if !m.state.Queued? {
        return false;
      }
      var sentAt := if r.ForOperator? then None else Some(state.now);
      state := state.(messages := state.messages[i := m.(state := ResultState(r), sentAt := sentAt)]);
      if !r.ForOperator? && Automated(sentOver) {
        state := state.(sends := state.sends + [state.now]);
      }
      if r.ForOperator? || m.business !in state.status || !state.status[m.business].OutreachApproved? {
        return true;
      }
      state := state.(status := state.status[m.business := Contacted]);
      if m.business !in state.deals {
        state := state.(deals := state.deals[m.business := Contacted]);
      }
      state := state.(followups := state.followups + FollowupKeys(m.key.approval, followupDays));
      return true;
    }
  }

  /** count(*) over the rows that hold a slot of the window starting at `since`. */
  method CountSlots(messages: seq<Message>, since: int) returns (count: nat)
    ensures count == SlotsTaken(messages, since + DAY)
  {
    count := 0;
    for i := 0 to |messages|
      invariant count == SlotsTaken(messages[..i], since + DAY)
    {
      assert messages[..i + 1][..i] == messages[..i];
      var m := messages[i];
      if Automated(m.channel)
         && ((m.state.Queued? && m.created >= since)
             || (FinalCounted(m.state) && m.sentAt.Some? && m.sentAt.value >= since)) {
        count := count + 1;
      }
    }
    assert messages[..|messages|] == messages;
  }
}
