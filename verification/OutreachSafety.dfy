// What outreach keeps over whole runs: the budget, the stop signals, and the
// approval behind every message.
module OutreachSafety {
  import opened Bytes
  import opened Outreach

  // --- slots ------------------------------------------------------------------------

  lemma {:induction false} SlotsUpdate(messages: seq<Message>, i: nat, m: Message, now: int)
    requires i < |messages|
    ensures SlotsTaken(messages[i := m], now) + (if TakesSlot(messages[i], now) then 1 else 0) ==
            SlotsTaken(messages, now) + if TakesSlot(m, now) then 1 else 0
    decreases |messages|
  {
    var n := |messages| - 1;
    if i < n {
      assert messages[i := m][..n] == messages[..n][i := m];
      SlotsUpdate(messages[..n], i, m, now);
    } else {
      assert messages[i := m][..n] == messages[..n];
    }
  }

  lemma SlotsAppend(messages: seq<Message>, m: Message, now: int)
    ensures SlotsTaken(messages + [m], now) == SlotsTaken(messages, now) + if TakesSlot(m, now) then 1 else 0
  {
    assert (messages + [m])[..|messages|] == messages;
  }

  lemma {:induction false} SlotsExpire(messages: seq<Message>, now: int, later: int)
    requires now <= later
    ensures SlotsTaken(messages, later) <= SlotsTaken(messages, now)
    decreases |messages|
  {
    if messages != [] {
      SlotsExpire(messages[..|messages| - 1], now, later);
    }
  }

  /** A failed row that a reservation takes over was for the ticket's own channel and address. */
  predicate SameTarget(messages: seq<Message>, t: Ticket) {
    var found := FindKey(messages, t.key);
    found.Some? && messages[found.value].state.Failed? ==>
      messages[found.value].channel == t.channel && messages[found.value].address == t.address
  }

  /** A ticket of a manual channel takes over the failed row of an automated one. */
  predicate Unchecked(messages: seq<Message>, t: Ticket) {
    var found := FindKey(messages, t.key);
    found.Some? && messages[found.value].state.Failed?
    && Automated(messages[found.value].channel) && !Automated(t.channel)
  }

  lemma ReserveSlots(messages: seq<Message>, now: int, t: Ticket, limit: nat)
    ensures var (messages', r) := Reserve(messages, now, t, limit);
            SlotsTaken(messages', now) ==
            SlotsTaken(messages, now) + if r.Reserved? && Automated(messages'[r.message].channel) then 1 else 0
  {
    var found := FindKey(messages, t.key);
    if found.Some? {
      SlotsUpdate(messages, found.value, messages[found.value].(state := Queued, sentAt := None, created := now), now);
    } else {
      SlotsAppend(messages, Message(t.key, t.business, t.channel, t.address, Queued, now, None), now);
    }
  }

  /**
   * A reservation takes a free slot. The row of a failed message keeps the channel
   * it had, so the budget survives if and only if it is not full while a manual
   * ticket takes over an automated row.
   */
  lemma ReserveKeepsBudgetIff(messages: seq<Message>, now: int, t: Ticket, limit: nat)
    requires SlotsTaken(messages, now) <= limit
    ensures SlotsTaken(Reserve(messages, now, t, limit).0, now) <= limit <==>
            !(Unchecked(messages, t) && SlotsTaken(messages, now) == limit)
  {
    ReserveSlots(messages, now, t, limit);
  }

  /** Manual channels are never refused for the budget, and a new manual message takes no slot. */
  lemma ManualIsFree(messages: seq<Message>, now: int, t: Ticket, limit: nat)
    requires !Automated(t.channel)
    ensures var (messages', r) := Reserve(messages, now, t, limit);
            && !r.DailyLimit?
            && (SlotsTaken(messages', now) == SlotsTaken(messages, now) <==> !Unchecked(messages, t))
  {
    ReserveSlots(messages, now, t, limit);
  }

  /** The message's own reservation still holds its slot. */
  predicate StillReserved(m: Message, now: int) {
    Automated(m.channel) ==> m.created >= now - DAY
  }

  /**
   * Finalizing a send after its reservation left the window takes a slot that
   * nobody reserved: the budget survives exactly when the reservation still
   * holds or a slot happens to be free.
   */
  lemma FinalizeKeepsBudgetIff(s: State, i: nat, sentOver: Channel, r: SendResult, followups: nat, limit: nat)
    requires SlotsTaken(s.messages, s.now) <= limit && i < |s.messages| && s.messages[i].state.Queued?
    requires !r.ForOperator?
    ensures SlotsTaken(Finalize(s, i, sentOver, r, followups).messages, s.now) <= limit <==>
            (StillReserved(s.messages[i], s.now) || SlotsTaken(s.messages, s.now) < limit)
  {
    var m := s.messages[i];
    SlotsUpdate(s.messages, i, m.(state := ResultState(r), sentAt := Some(s.now)), s.now);
  }

  // --- the budget over whole runs -------------------------------------------------------

  /** A queued message whose slot has left the window. */
  predicate Expired(messages: seq<Message>, i: nat, now: int) {
    i < |messages| && messages[i].state.Queued? && !StillReserved(messages[i], now)
  }

  /** The steps that may take a slot without a check: exactly the failing cases above, and other limits. */
  predicate Slip(s: State, step: Step, limit: nat) {
    match step
    case ReserveMessage(t, l) => t in s.tickets && (Unchecked(s.messages, t) || (Automated(t.channel) && l > limit))
    case FinalizeMessage(i, _, r, _) => Expired(s.messages, i, s.now) && !r.ForOperator?
    case MarkMessage(i, mayHaveSent) => Expired(s.messages, i, s.now) && mayHaveSent
    case OperatorConfirms(a, _) =>
      var found := FindKey(s.messages, SendKey(a));
      found.Some? && s.messages[found.value].state.ManualPending? && Automated(s.messages[found.value].channel)
    case _ => false
  }

  function Slips(s: State, steps: seq<Step>, limit: nat): nat
    decreases |steps|
  {
    if steps == [] then 0
    else (if Slip(s, steps[0], limit) then 1 else 0) + Slips(Next(s, steps[0]), steps[1..], limit)
  }

  /** One row changes: the slots change by what it held and what it holds. */
  lemma RowSlots(messages: seq<Message>, now: int, i: nat, m: Message, extra: nat, bound: nat)
    requires i < |messages| && SlotsTaken(messages, now) <= bound
    requires TakesSlot(m, now) && !TakesSlot(messages[i], now) ==> extra == 1
    ensures SlotsTaken(messages[i := m], now) <= bound + extra
  {
    SlotsUpdate(messages, i, m, now);
  }

  lemma ReserveBounded(s: State, t: Ticket, l: nat, limit: nat, bound: nat)
    requires limit <= bound && SlotsTaken(s.messages, s.now) <= bound && t in s.tickets
    ensures SlotsTaken(Reserve(s.messages, s.now, t, l).0, s.now) <=
            bound + if Slip(s, ReserveMessage(t, l), limit) then 1 else 0
  {
    ReserveSlots(s.messages, s.now, t, l);
  }

  lemma ResultBounded(s: State, i: nat, sentOver: Channel, r: SendResult, followups: nat, mayHaveSent: bool, bound: nat)
    requires SlotsTaken(s.messages, s.now) <= bound
    ensures SlotsTaken(Finalize(s, i, sentOver, r, followups).messages, s.now) <=
            bound + if Expired(s.messages, i, s.now) && !r.ForOperator? then 1 else 0
    ensures SlotsTaken(MarkTerminal(s, i, mayHaveSent).messages, s.now) <=
            bound + if Expired(s.messages, i, s.now) && mayHaveSent then 1 else 0
  {
    if i < |s.messages| && s.messages[i].state.Queued? {
      var m := s.messages[i];
      var expired := if Expired(s.messages, i, s.now) then 1 else 0;
      RowSlots(s.messages, s.now, i,
               m.(state := ResultState(r), sentAt := if r.ForOperator? then None else Some(s.now)),
               if r.ForOperator? then 0 else expired, bound);
      RowSlots(s.messages, s.now, i, MarkTerminal(s, i, mayHaveSent).messages[i],
               if mayHaveSent then expired else 0, bound);
    }
  }

  lemma ConfirmBounded(s: State, a: nat, followups: nat, limit: nat, bound: nat)
    requires SlotsTaken(s.messages, s.now) <= bound
    ensures SlotsTaken(ConfirmManual(s, a, followups).messages, s.now) <=
            bound + if Slip(s, OperatorConfirms(a, followups), limit) then 1 else 0
  {
    var found := FindKey(s.messages, SendKey(a));
    if found.Some? && s.messages[found.value].state.ManualPending? {
      RowSlots(s.messages, s.now, found.value, s.messages[found.value].(state := Sent, sentAt := Some(s.now)),
               if Automated(s.messages[found.value].channel) then 1 else 0, bound);
    }
  }

  lemma BounceBounded(s: State, business: string, bounced: Option<nat>, bound: nat)
    requires SlotsTaken(s.messages, s.now) <= bound
    ensures SlotsTaken(RecordBounce(s, business, bounced).messages, s.now) <= bound
  {
    if bounced.Some? && bounced.value < |s.messages| {
      RowSlots(s.messages, s.now, bounced.value, s.messages[bounced.value].(state := Failed), 0, bound);
    }
  }

  /** The other steps leave the messages and the clock alone. */
  lemma OthersLeaveMessages(s: State, step: Step)
    requires !step.ReserveMessage? && !step.FinalizeMessage? && !step.MarkMessage?
    requires !step.OperatorConfirms? && !step.BounceArrives? && !step.TimePasses?
    ensures Next(s, step).messages == s.messages && Next(s, step).now == s.now && Next(s, step).sends == s.sends
  {}

  lemma StepBounded(s: State, step: Step, limit: nat, bound: nat)
    requires limit <= bound && SlotsTaken(s.messages, s.now) <= bound
    ensures SlotsTaken(Next(s, step).messages, Next(s, step).now) <= bound + if Slip(s, step, limit) then 1 else 0
  {
    match step
    case ReserveMessage(t, l) =>
      if t in s.tickets {
        ReserveBounded(s, t, l, limit, bound);
      }
    case FinalizeMessage(i, sentOver, r, followups) => ResultBounded(s, i, sentOver, r, followups, false, bound);
    case MarkMessage(i, mayHaveSent) => ResultBounded(s, i, Email, WasSent, 0, mayHaveSent, bound);
    case OperatorConfirms(a, followups) => ConfirmBounded(s, a, followups, limit, bound);
    case BounceArrives(business, bounced) => BounceBounded(s, business, bounced, bound);
    case TimePasses(ms) => SlotsExpire(s.messages, s.now, s.now + ms);
    case _ => OthersLeaveMessages(s, step);
  }

  /**
   * Main result on slots: in any order of everybody's steps, at every moment, the
   * slots taken exceed the limit by at most the number of slips.
   */
  lemma {:induction false} BudgetSlipsAtMost(s: State, steps: seq<Step>, limit: nat, bound: nat)
    requires limit <= bound && SlotsTaken(s.messages, s.now) <= bound
    ensures SlotsTaken(Replay(s, steps).messages, Replay(s, steps).now) <= bound + Slips(s, steps, limit)
    decreases |steps|
  {
    if steps != [] {
      StepBounded(s, steps[0], limit, bound);
      BudgetSlipsAtMost(Next(s, steps[0]), steps[1..], limit,
                        bound + if Slip(s, steps[0], limit) then 1 else 0);
    }
  }

  /** So without slips the budget holds at every moment. */
  lemma AlwaysWithinBudget(s: State, steps: seq<Step>, limit: nat)
    requires SlotsTaken(s.messages, s.now) <= limit && Slips(s, steps, limit) == 0
    ensures SlotsTaken(Replay(s, steps).messages, Replay(s, steps).now) <= limit
  {
    BudgetSlipsAtMost(s, steps, limit, limit);
  }

  // --- actual sends ---------------------------------------------------------------------

  function SendsSince(sends: seq<int>, t: int): nat {
    if sends == [] then 0
    else SendsSince(sends[..|sends| - 1], t) + if sends[|sends| - 1] >= t then 1 else 0
  }

  /** Sends from one moment to another, both included. */
  function SendsWithin(sends: seq<int>, from: int, to: int): nat {
    if sends == [] then 0
    else SendsWithin(sends[..|sends| - 1], from, to) + if from <= sends[|sends| - 1] <= to then 1 else 0
  }

  predicate SentSince(m: Message, t: int) {
    Automated(m.channel) && FinalCounted(m.state) && m.sentAt.Some? && m.sentAt.value >= t
  }

  function FinalsSince(messages: seq<Message>, t: int): nat {
    if messages == [] then 0
    else FinalsSince(messages[..|messages| - 1], t) + if SentSince(messages[|messages| - 1], t) then 1 else 0
  }

  /** For every window the final rows account for all sends but k. */
  ghost predicate LogWithin(s: State, k: nat) {
    forall t :: SendsSince(s.sends, t) <= FinalsSince(s.messages, t) + k
  }

  /** A send that no automated row will show. */
  predicate Uncounted(s: State, step: Step) {
    match step
    case FinalizeMessage(i, sentOver, r, _) =>
      i < |s.messages| && s.messages[i].state.Queued? && !r.ForOperator?
      && Automated(sentOver) && !Automated(s.messages[i].channel)
    case MarkMessage(i, mayHaveSent) =>
      i < |s.messages| && s.messages[i].state.Queued? && mayHaveSent && !Automated(s.messages[i].channel)
    case _ => false
  }

  function Stray(s: State, step: Step): nat {
    if Uncounted(s, step) || step.BounceArrives? then 1 else 0
  }

  /** Bounces, and sends over another channel than the row's. */
  function Strays(s: State, steps: seq<Step>): nat
    decreases |steps|
  {
    if steps == [] then 0 else Stray(s, steps[0]) + Strays(Next(s, steps[0]), steps[1..])
  }

  lemma {:induction false} FinalsUpdate(messages: seq<Message>, i: nat, m: Message, t: int)
    requires i < |messages|
    ensures FinalsSince(messages[i := m], t) + (if SentSince(messages[i], t) then 1 else 0) ==
            FinalsSince(messages, t) + if SentSince(m, t) then 1 else 0
    decreases |messages|
  {
    var n := |messages| - 1;
    if i < n {
      assert messages[i := m][..n] == messages[..n][i := m];
      FinalsUpdate(messages[..n], i, m, t);
    } else {
      assert messages[i := m][..n] == messages[..n];
    }
  }

  lemma {:induction false} FinalsTakeSlots(messages: seq<Message>, now: int)
    ensures FinalsSince(messages, now - DAY) <= SlotsTaken(messages, now)
    decreases |messages|
  {
    if messages != [] {
      FinalsTakeSlots(messages[..|messages| - 1], now);
    }
  }

  /** One row changes; at most one send is logged, and it is the row's or a stray. */
  lemma RowTells(s: State, i: nat, m: Message, sends: seq<int>, k: nat, stray: nat)
    requires LogWithin(s, k) && i < |s.messages|
    requires sends == s.sends || sends == s.sends + [s.now]
    requires var gained := if sends == s.sends then 0 else 1;
             var kept := if Automated(m.channel) && FinalCounted(m.state) && m.sentAt == Some(s.now) then 1 else 0;
             gained <= kept + stray
    requires stray == 0 ==> !FinalCounted(s.messages[i].state)
    requires sends != s.sends ==> !FinalCounted(s.messages[i].state)
    ensures LogWithin(s.(messages := s.messages[i := m], sends := sends), k + stray)
  {
    assert s.sends != s.sends + [s.now];
    forall t ensures SendsSince(sends, t) <= FinalsSince(s.messages[i := m], t) + k + stray {
      FinalsUpdate(s.messages, i, m, t);
      assert (s.sends + [s.now])[..|s.sends|] == s.sends;
    }
  }

  lemma ReserveTells(s: State, t: Ticket, l: nat, k: nat)
    requires LogWithin(s, k)
    ensures LogWithin(s.(messages := Reserve(s.messages, s.now, t, l).0), k)
  {
    var (messages, r) := Reserve(s.messages, s.now, t, l);
    if r.Reserved? {
      if r.message < |s.messages| {
        RowTells(s, r.message, messages[r.message], s.sends, k, 0);
      } else {
        assert messages[..|s.messages|] == s.messages;
      }
    }
  }

  lemma FinalizeTells(s: State, i: nat, sentOver: Channel, r: SendResult, followups: nat, k: nat)
    requires LogWithin(s, k)
    ensures LogWithin(Finalize(s, i, sentOver, r, followups), k + Stray(s, FinalizeMessage(i, sentOver, r, followups)))
  {
    if i < |s.messages| && s.messages[i].state.Queued? {
      var s' := Finalize(s, i, sentOver, r, followups);
      RowTells(s, i, s'.messages[i], s'.sends, k, Stray(s, FinalizeMessage(i, sentOver, r, followups)));
    }
  }

  lemma MarkTells(s: State, i: nat, mayHaveSent: bool, k: nat)
    requires LogWithin(s, k)
    ensures LogWithin(MarkTerminal(s, i, mayHaveSent), k + Stray(s, MarkMessage(i, mayHaveSent)))
  {
    if i < |s.messages| && s.messages[i].state.Queued? {
      var s' := MarkTerminal(s, i, mayHaveSent);
      RowTells(s, i, s'.messages[i], s'.sends, k, Stray(s, MarkMessage(i, mayHaveSent)));
    }
  }

  lemma ConfirmTells(s: State, a: nat, followups: nat, k: nat)
    requires LogWithin(s, k)
    ensures LogWithin(ConfirmManual(s, a, followups), k)
  {
    var found := FindKey(s.messages, SendKey(a));
    if found.Some? && s.messages[found.value].state.ManualPending? {
      RowTells(s, found.value, s.messages[found.value].(state := Sent, sentAt := Some(s.now)), s.sends, k, 0);
    }
  }

  lemma BounceTells(s: State, business: string, bounced: Option<nat>, k: nat)
    requires LogWithin(s, k)
    ensures LogWithin(RecordBounce(s, business, bounced), k + 1)
  {
    if bounced.Some? && bounced.value < |s.messages| {
      RowTells(s, bounced.value, s.messages[bounced.value].(state := Failed), s.sends, k, 1);
    }
  }

  lemma StepTells(s: State, step: Step, k: nat)
    requires LogWithin(s, k)
    ensures LogWithin(Next(s, step), k + Stray(s, step))
  {
    match step
    case ReserveMessage(t, l) => ReserveTells(s, t, l, k);
    case FinalizeMessage(i, sentOver, r, followups) => FinalizeTells(s, i, sentOver, r, followups, k);
    case MarkMessage(i, mayHaveSent) => MarkTells(s, i, mayHaveSent, k);
    case OperatorConfirms(a, followups) => ConfirmTells(s, a, followups, k);
    case BounceArrives(business, bounced) => BounceTells(s, business, bounced, k);
    case TimePasses(_) => {}
    case _ => OthersLeaveMessages(s, step);
  }

  /** Looking back a day from any send, there are at most `bound` of them. */
  ghost predicate DaysWithin(sends: seq<int>, bound: nat) {
    forall p :: 0 <= p < |sends| ==> SendsSince(sends[..p + 1], sends[p] - DAY) <= bound
  }

  lemma {:induction false} SinceIsAntitone(sends: seq<int>, t: int, u: int)
    requires t <= u
    ensures SendsSince(sends, u) <= SendsSince(sends, t)
    decreases |sends|
  {
    if sends != [] {
      SinceIsAntitone(sends[..|sends| - 1], t, u);
    }
  }

  lemma {:induction false} WithinIsSince(sends: seq<int>, from: int, to: int)
    ensures SendsWithin(sends, from, to) <= SendsSince(sends, from)
    decreases |sends|
  {
    if sends != [] {
      WithinIsSince(sends[..|sends| - 1], from, to);
    }
  }

  lemma {:induction false} AnyWindow(sends: seq<int>, from: int, to: int, bound: nat)
    requires DaysWithin(sends, bound) && to <= from + DAY
    ensures SendsWithin(sends, from, to) <= bound
    decreases |sends|
  {
    if sends != [] {
      var n := |sends| - 1;
      if from <= sends[n] <= to {
        assert sends[..n + 1] == sends;
        WithinIsSince(sends, from, to);
        SinceIsAntitone(sends, sends[n] - DAY, from);
      } else {
        forall p | 0 <= p < n ensures SendsSince(sends[..n][..p + 1], sends[..n][p] - DAY) <= bound {
          assert sends[..n][..p + 1] == sends[..p + 1];
        }
        AnyWindow(sends[..n], from, to, bound);
      }
    }
  }

  /** A step logs at most one send, at the present moment. */
  lemma StepLogs(s: State, step: Step)
    ensures var next := Next(s, step);
            next.sends == s.sends || (next.sends == s.sends + [s.now] && next.now == s.now)
  {}

  lemma LongerDays(sends: seq<int>, more: seq<int>, now: int, bound: nat, more': nat)
    requires DaysWithin(sends, bound) && bound <= more'
    requires more == sends || (more == sends + [now] && SendsSince(more, now - DAY) <= more')
    ensures DaysWithin(more, more')
  {
    forall p | 0 <= p < |more| ensures SendsSince(more[..p + 1], more[p] - DAY) <= more' {
      if p < |sends| {
        assert more[..p + 1] == sends[..p + 1];
      } else {
        assert more[..p + 1] == more;
      }
    }
  }

  lemma LastDay(s: State, slots: nat, k: nat)
    requires SlotsTaken(s.messages, s.now) <= slots && LogWithin(s, k)
    ensures SendsSince(s.sends, s.now - DAY) <= slots + k
  {
    FinalsTakeSlots(s.messages, s.now);
  }

  lemma NextDays(s: State, next: State, bound: nat, slots: nat, k: nat)
    requires DaysWithin(s.sends, bound) && bound <= slots + k
    requires next.sends == s.sends || (next.sends == s.sends + [s.now] && next.now == s.now)
    requires SlotsTaken(next.messages, next.now) <= slots && LogWithin(next, k)
    ensures DaysWithin(next.sends, slots + k)
  {
    LastDay(next, slots, k);
    LongerDays(s.sends, next.sends, s.now, bound, slots + k);
  }

  lemma StepDays(s: State, step: Step, limit: nat, slots: nat, k: nat)
    requires limit <= slots && SlotsTaken(s.messages, s.now) <= slots
    requires LogWithin(s, k) && DaysWithin(s.sends, slots + k)
    ensures DaysWithin(Next(s, step).sends, slots + (if Slip(s, step, limit) then 1 else 0) + k + Stray(s, step))
  {
    StepBounded(s, step, limit, slots);
    StepTells(s, step, k);
    StepLogs(s, step);
    NextDays(s, Next(s, step), slots + k, slots + (if Slip(s, step, limit) then 1 else 0), k + Stray(s, step));
  }

  lemma {:induction false} DaysSlipAtMost(s: State, steps: seq<Step>, limit: nat, slots: nat, k: nat)
    requires limit <= slots && SlotsTaken(s.messages, s.now) <= slots
    requires LogWithin(s, k) && DaysWithin(s.sends, slots + k)
    ensures DaysWithin(Replay(s, steps).sends, slots + k + Slips(s, steps, limit) + Strays(s, steps))
    decreases |steps|
  {
    if steps != [] {
      StepDays(s, steps[0], limit, slots, k);
      StepBounded(s, steps[0], limit, slots);
      StepTells(s, steps[0], k);
      DaysSlipAtMost(Next(s, steps[0]), steps[1..], limit,
                     slots + (if Slip(s, steps[0], limit) then 1 else 0), k + Stray(s, steps[0]));
    }
  }

  /**
   * Main result on sends: no window of a day, past or present, ever holds more
   * sends than the limit plus the slips, the bounces and the sends over another
   * channel than their row's.
   */
  lemma WindowSlipsAtMost(s: State, steps: seq<Step>, limit: nat, from: int, to: int)
    requires SlotsTaken(s.messages, s.now) <= limit && LogWithin(s, 0) && DaysWithin(s.sends, limit)
    requires to <= from + DAY
    ensures SendsWithin(Replay(s, steps).sends, from, to) <= limit + Slips(s, steps, limit) + Strays(s, steps)
  {
    DaysSlipAtMost(s, steps, limit, limit, 0);
    AnyWindow(Replay(s, steps).sends, from, to, limit + Slips(s, steps, limit) + Strays(s, steps));
  }

  /** So without any of these no day ever holds more sends than the limit. */
  lemma NoWindowOverLimit(s: State, steps: seq<Step>, limit: nat, from: int, to: int)
    requires SlotsTaken(s.messages, s.now) <= limit && LogWithin(s, 0) && DaysWithin(s.sends, limit)
    requires to <= from + DAY && Slips(s, steps, limit) == 0 && Strays(s, steps) == 0
    ensures SendsWithin(Replay(s, steps).sends, from, to) <= limit
  {
    WindowSlipsAtMost(s, steps, limit, from, to);
  }

  /**
   * A bounce marks the message as failed and so gives its slot back although it
   * was sent: at a full budget the next reservation goes through exactly when
   * the bounced message held a slot.
   */
  lemma BounceFreesSlotIff(s: State, i: nat, t: Ticket, limit: nat)
    requires i < |s.messages| && SlotsTaken(s.messages, s.now) == limit && Automated(t.channel)
    requires FindKey(s.messages, t.key).None?
    ensures var s' := RecordBounce(s, s.messages[i].business, Some(i));
            && Reserve(s.messages, s.now, t, limit).1.DailyLimit?
            && (Reserve(s'.messages, s'.now, t, limit).1.Reserved? <==> TakesSlot(s.messages[i], s.now))
            && s'.sends == s.sends
  {
    var failed := s.messages[i].(state := Failed);
    SlotsUpdate(s.messages, i, failed, s.now);
    SameKeys(s.messages, s.messages[i := failed], t.key);
  }

  lemma {:induction false} SameKeys(x: seq<Message>, y: seq<Message>, key: Key)
    requires |x| == |y| && forall i :: 0 <= i < |x| ==> x[i].key == y[i].key
    ensures FindKey(x, key) == FindKey(y, key)
    decreases |x|
  {
    if x != [] {
      SameKeys(x[..|x| - 1], y[..|y| - 1], key);
    }
  }

  // --- approvals ------------------------------------------------------------------------------

  /** The key belongs to an approved approval of this business. */
  predicate Backed(approvals: seq<Approval>, key: Key, business: string) {
    key.approval < |approvals| && approvals[key.approval].decision.Approved?
    && approvals[key.approval].business == business
  }

  /** An initial send is the draft the operator approved. */
  predicate AsApproved(approvals: seq<Approval>, key: Key, channel: Channel, address: string) {
    key.SendKey? && key.approval < |approvals| && approvals[key.approval].decision.Approved? ==>
      approvals[key.approval].decision.draft == Draft(channel, address)
  }

  ghost predicate Rooted(s: State) {
    && (forall i :: 0 <= i < |s.messages| ==>
          && Backed(s.approvals, s.messages[i].key, s.messages[i].business)
          && AsApproved(s.approvals, s.messages[i].key, s.messages[i].channel, s.messages[i].address))
    && (forall t :: t in s.tickets ==>
          Backed(s.approvals, t.key, t.business) && AsApproved(s.approvals, t.key, t.channel, t.address))
    && (forall k :: k in s.followups ==>
          k.FollowupKey? && k.approval < |s.approvals| && s.approvals[k.approval].decision.Approved?)
    && (forall i, j :: 0 <= i < j < |s.messages| ==> s.messages[i].key != s.messages[j].key)
  }

  /** Decided approvals are never decided again, and approvals are never dropped. */
  ghost predicate DecisionsKept(x: seq<Approval>, y: seq<Approval>) {
    && |x| <= |y|
    && (forall a :: 0 <= a < |x| ==> y[a].business == x[a].business)
    && (forall a :: 0 <= a < |x| && !x[a].decision.Undecided? ==> y[a] == x[a])
  }

  /** The parts of a state that a step may have changed without touching keys. */
  ghost predicate SameIntents(s: State, s': State) {
    && DecisionsKept(s.approvals, s'.approvals) && s'.tickets == s.tickets
    && |s'.messages| == |s.messages|
    && (forall i :: 0 <= i < |s.messages| ==>
          && s'.messages[i].key == s.messages[i].key && s'.messages[i].business == s.messages[i].business
          && s'.messages[i].channel == s.messages[i].channel && s'.messages[i].address == s.messages[i].address)
  }

  lemma SameIntentsRooted(s: State, s': State)
    requires Rooted(s) && SameIntents(s, s')
    requires forall k :: k in s'.followups && k !in s.followups ==>
               k.FollowupKey? && k.approval < |s'.approvals| && s'.approvals[k.approval].decision.Approved?
    ensures Rooted(s')
  {
    forall i | 0 <= i < |s.messages|
      ensures Backed(s'.approvals, s'.messages[i].key, s'.messages[i].business)
      ensures AsApproved(s'.approvals, s'.messages[i].key, s'.messages[i].channel, s'.messages[i].address)
    {
      assert Backed(s.approvals, s.messages[i].key, s.messages[i].business);
      assert AsApproved(s.approvals, s.messages[i].key, s.messages[i].channel, s.messages[i].address);
    }
    forall t | t in s.tickets
      ensures Backed(s'.approvals, t.key, t.business) && AsApproved(s'.approvals, t.key, t.channel, t.address)
    {
      assert Backed(s.approvals, t.key, t.business) && AsApproved(s.approvals, t.key, t.channel, t.address);
    }
  }

  lemma ReserveRooted(s: State, t: Ticket, limit: nat)
    requires Rooted(s) && t in s.tickets
    ensures Rooted(Next(s, ReserveMessage(t, limit)))
  {
    assert Backed(s.approvals, t.key, t.business) && AsApproved(s.approvals, t.key, t.channel, t.address);
  }

  lemma FinalizeRooted(s: State, i: nat, sentOver: Channel, r: SendResult, followups: nat)
    requires Rooted(s)
    ensures Rooted(Finalize(s, i, sentOver, r, followups))
  {
    if i < |s.messages| {
      assert Backed(s.approvals, s.messages[i].key, s.messages[i].business);
      SameIntentsRooted(s, Finalize(s, i, sentOver, r, followups));
    }
  }

  lemma GatesRooted(s: State, step: Step)
    requires Rooted(s) && (step.PassSendGate? || step.PassFollowupGate?)
    ensures Rooted(Next(s, step))
  {}

  lemma ConfirmRooted(s: State, a: nat, followups: nat)
    requires Rooted(s)
    ensures Rooted(ConfirmManual(s, a, followups))
  {
    SameIntentsRooted(s, ConfirmManual(s, a, followups));
  }

  /** Inbound events, decisions and moves keep every intent as it is. */
  lemma OthersRooted(s: State, step: Step)
    requires Rooted(s) && !step.ReserveMessage? && !step.FinalizeMessage? && !step.OperatorConfirms?
    requires !step.PassSendGate? && !step.PassFollowupGate?
    ensures Rooted(Next(s, step))
  {
    SameIntentsRooted(s, Next(s, step));
  }

  lemma StepRooted(s: State, step: Step)
    requires Rooted(s)
    ensures Rooted(Next(s, step))
  {
    match step
    case PassSendGate(business) => GatesRooted(s, step);
    case PassFollowupGate(key) => GatesRooted(s, step);
    case ReserveMessage(t, limit) =>
      if t in s.tickets {
        ReserveRooted(s, t, limit);
      }
    case FinalizeMessage(i, sentOver, r, followups) => FinalizeRooted(s, i, sentOver, r, followups);
    case OperatorConfirms(a, followups) => ConfirmRooted(s, a, followups);
    case _ => OthersRooted(s, step);
  }

  /** An approval is decided once. */
  lemma {:induction false} DecidedOnce(s: State, steps: seq<Step>)
    ensures DecisionsKept(s.approvals, Replay(s, steps).approvals)
    decreases |steps|
  {
    if steps != [] {
      StepKeepsDecisions(s, steps[0]);
      DecidedOnce(Next(s, steps[0]), steps[1..]);
    }
  }

  lemma StepKeepsDecisions(s: State, step: Step)
    ensures DecisionsKept(s.approvals, Next(s, step).approvals)
  {}

  /**
   * Main result on approvals: over any run there is at most one message per key,
   * each under an approved approval of its own business, and an initial message
   * goes over the channel and to the address that were approved.
   */
  lemma {:induction false} AlwaysRooted(s: State, steps: seq<Step>)
    requires Rooted(s)
    ensures Rooted(Replay(s, steps))
    decreases |steps|
  {
    if steps != [] {
      StepRooted(s, steps[0]);
      AlwaysRooted(Next(s, steps[0]), steps[1..]);
    }
  }

  /** For initial sends the budget's condition on taken-over rows always holds. */
  lemma InitialKeepsItsTarget(s: State, t: Ticket)
    requires Rooted(s) && t in s.tickets && t.key.SendKey?
    ensures SameTarget(s.messages, t)
  {
    var found := FindKey(s.messages, t.key);
    if found.Some? {
      var m := s.messages[found.value];
      assert AsApproved(s.approvals, m.key, m.channel, m.address) && Backed(s.approvals, m.key, m.business);
      assert AsApproved(s.approvals, t.key, t.channel, t.address);
    }
  }

  // --- stop signals ---------------------------------------------------------------------------------

  /** What a stop signal forbids. */
  datatype Scope = FollowupsOf(business: string) | EverythingOf(business: string) | EverythingTo(address: string)

  predicate MessageIn(scope: Scope, m: Message) {
    match scope
    case FollowupsOf(business) => m.key.FollowupKey? && m.business == business
    case EverythingOf(business) => m.business == business
    case EverythingTo(address) => m.address == address
  }

  predicate TicketIn(scope: Scope, t: Ticket) {
    match scope
    case FollowupsOf(business) => t.key.FollowupKey? && t.business == business
    case EverythingOf(business) => t.business == business
    case EverythingTo(address) => t.address == address
  }

  /** A reply, bounce or opt-out stops follow-ups; do-not-contact entries stop everything. */
  predicate Stopped(s: State, scope: Scope) {
    match scope
    case FollowupsOf(business) => HasInbound(s, business)
    case EverythingOf(business) => BarredBusiness(business) in s.barred
    case EverythingTo(address) => BarredAddress(address) in s.barred
  }

  /** Stopped, and no worker is between its gates and its reservation. */
  ghost predicate Shut(s: State, scope: Scope) {
    Stopped(s, scope) && forall t :: t in s.tickets ==> !TicketIn(scope, t)
  }

  /** Nothing in the scope is reserved: no row appears and none goes back to the queue. */
  ghost predicate NoneReserved(scope: Scope, x: seq<Message>, y: seq<Message>) {
    && |x| <= |y|
    && (forall i :: |x| <= i < |y| ==> !MessageIn(scope, y[i]))
    && (forall i :: 0 <= i < |x| ==>
          (MessageIn(scope, y[i]) <==> MessageIn(scope, x[i]))
          && (MessageIn(scope, x[i]) && y[i].state.Queued? ==> x[i].state.Queued?))
  }

  /** No gate lets anything through for a stopped scope. */
  lemma GatesRefuse(s: State, step: Step, scope: Scope)
    requires Shut(s, scope) && Rooted(s)
    ensures Shut(Next(s, step), scope)
  {}

  /** A reservation takes over a row of its own business. */
  lemma SameKeyRow(s: State, t: Ticket)
    requires Rooted(s) && t in s.tickets
    ensures var found := FindKey(s.messages, t.key); found.Some? ==> s.messages[found.value].business == t.business
  {
    assert Backed(s.approvals, t.key, t.business);
    var found := FindKey(s.messages, t.key);
    if found.Some? {
      assert Backed(s.approvals, s.messages[found.value].key, s.messages[found.value].business);
    }
  }

  lemma ReserveOutside(s: State, t: Ticket, limit: nat, scope: Scope)
    requires Rooted(s) && t in s.tickets && !TicketIn(scope, t) && (scope.EverythingTo? ==> SameTarget(s.messages, t))
    ensures NoneReserved(scope, s.messages, Reserve(s.messages, s.now, t, limit).0)
  {
    SameKeyRow(s, t);
  }

  lemma ResultReservesNone(s: State, i: nat, sentOver: Channel, r: SendResult, followups: nat, mayHaveSent: bool,
                           scope: Scope)
    ensures NoneReserved(scope, s.messages, Finalize(s, i, sentOver, r, followups).messages)
    ensures NoneReserved(scope, s.messages, MarkTerminal(s, i, mayHaveSent).messages)
  {}

  lemma InboundReservesNone(s: State, a: nat, followups: nat, business: string, bounced: Option<nat>, scope: Scope)
    ensures NoneReserved(scope, s.messages, ConfirmManual(s, a, followups).messages)
    ensures NoneReserved(scope, s.messages, RecordBounce(s, business, bounced).messages)
  {}

  lemma StepReservesNone(s: State, step: Step, scope: Scope)
    requires Shut(s, scope) && Rooted(s)
    requires step.ReserveMessage? && scope.EverythingTo? ==> SameTarget(s.messages, step.ticket)
    ensures NoneReserved(scope, s.messages, Next(s, step).messages)
  {
    match step
    case ReserveMessage(t, limit) =>
      if t in s.tickets {
        ReserveOutside(s, t, limit, scope);
      }
    case FinalizeMessage(i, sentOver, r, followups) =>
      ResultReservesNone(s, i, sentOver, r, followups, false, scope);
    case MarkMessage(i, mayHaveSent) => ResultReservesNone(s, i, Email, WasSent, 0, mayHaveSent, scope);
    case OperatorConfirms(a, followups) => InboundReservesNone(s, a, followups, "", None, scope);
    case BounceArrives(business, bounced) => InboundReservesNone(s, 0, 0, business, bounced, scope);
    case TimePasses(_) => {}
    case _ => OthersLeaveMessages(s, step);
  }

  predicate AllSameTarget(s: State, steps: seq<Step>)
    decreases |steps|
  {
    steps != [] ==> (steps[0].ReserveMessage? ==> SameTarget(s.messages, steps[0].ticket))
                    && AllSameTarget(Next(s, steps[0]), steps[1..])
  }

  lemma NoneReservedTrans(scope: Scope, x: seq<Message>, y: seq<Message>, z: seq<Message>)
    requires NoneReserved(scope, x, y) && NoneReserved(scope, y, z)
    ensures NoneReserved(scope, x, z)
  {}

  /**
   * Main result on stop signals: once one is recorded and no worker is past its
   * gates, no worker ever passes them again for anything in its scope, not even
   * under a new approval. So nothing in the scope is reserved; for an address,
   * unless the failed row that a ticket takes over was for another target.
   */
  lemma {:induction false} StopsForGood(s: State, steps: seq<Step>, scope: Scope)
    requires Shut(s, scope) && Rooted(s)
    ensures Shut(Replay(s, steps), scope)
    ensures (scope.EverythingTo? ==> AllSameTarget(s, steps)) ==>
              NoneReserved(scope, s.messages, Replay(s, steps).messages)
    decreases |steps|
  {
    if steps != [] {
      GatesRefuse(s, steps[0], scope);
      StepRooted(s, steps[0]);
      StopsForGood(Next(s, steps[0]), steps[1..], scope);
      if scope.EverythingTo? ==> AllSameTarget(s, steps) {
        StepReservesNone(s, steps[0], scope);
        NoneReservedTrans(scope, s.messages, Next(s, steps[0]).messages, Replay(s, steps).messages);
      }
    }
  }

  /** The reservation goes through: the key is free or failed, and so is a slot where one is needed. */
  predicate GoesThrough(s: State, t: Ticket, limit: nat) {
    var found := FindKey(s.messages, t.key);
    (found.Some? ==> s.messages[found.value].state.Failed?)
    && (Automated(t.channel) ==> SlotsTaken(s.messages, s.now) < limit)
  }

  /** The message that it makes or takes over is in the scope. */
  predicate ReservesIn(scope: Scope, messages: seq<Message>, t: Ticket) {
    var found := FindKey(messages, t.key);
    if found.Some? then MessageIn(scope, messages[found.value]) else TicketIn(scope, t)
  }

  /**
   * The gates and the reservation are separate transactions. A worker that passed
   * its gates before a stop still reserves: something of the scope is reserved if
   * and only if a worker holds a ticket, its reservation goes through, and the
   * message it makes or takes over is in the scope.
   */
  lemma StopComesTooLateIff(s: State, t: Ticket, limit: nat, scope: Scope)
    requires Rooted(s)
    ensures !NoneReserved(scope, s.messages, Next(s, ReserveMessage(t, limit)).messages) <==>
            t in s.tickets && GoesThrough(s, t, limit) && ReservesIn(scope, s.messages, t)
  {
    var later := Next(s, ReserveMessage(t, limit)).messages;
    var found := FindKey(s.messages, t.key);
    if t in s.tickets && GoesThrough(s, t, limit) && ReservesIn(scope, s.messages, t) {
      if found.Some? {
        assert later[found.value].state.Queued? && MessageIn(scope, s.messages[found.value]);
      } else {
        assert MessageIn(scope, later[|s.messages|]);
      }
    }
  }

  // --- a delivered first message ---------------------------------------------------------------------

  lemma {:induction false} FollowupKeysAre(approval: nat, n: nat, k: nat)
    ensures FollowupKey(approval, k) in FollowupKeys(approval, n) <==> 1 <= k <= n
  {
    if n > 0 {
      FollowupKeysAre(approval, n - 1, k);
    }
  }

  /**
   * A sent initial message contacts its business once: the status and the deal
   * move and the follow-ups are scheduled together, from the approved status only.
   */
  lemma SentContactsOnce(s: State, i: nat, c: Channel, n: nat, k: nat)
    requires i < |s.messages| && s.messages[i].state.Queued? && s.messages[i].key.SendKey?
    requires s.messages[i].business in s.status
    ensures var m, s' := s.messages[i], Finalize(s, i, c, WasSent, n);
            && s'.messages == s.messages[i := m.(state := Sent, sentAt := Some(s.now))]
            && if s.status[m.business].OutreachApproved?
               then s'.status == s.status[m.business := Contacted] && m.business in s'.deals
                    && (FollowupKey(m.key.approval, k) in s'.followups <==>
                        1 <= k <= n || FollowupKey(m.key.approval, k) in s.followups)
               else s'.status == s.status && s'.deals == s.deals && s'.followups == s.followups
    ensures Finalize(Finalize(s, i, c, WasSent, n), i, c, WasSent, n) == Finalize(s, i, c, WasSent, n)
  {
    FollowupKeysAre(s.messages[i].key.approval, n, k);
  }
}
