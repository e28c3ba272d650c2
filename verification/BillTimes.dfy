/**
 Bills whose payment time is not in the future when they are reported: a bill whose payment was applied never
 matches again, except in an exact tie of three instants.
 */
module BillTimes {
  import opened Options
  import opened PaymentStatuses
  import opened Orders
  import opened BillStatuses
  import opened BillMatching

  /** The step reports no bill from the future. */
  predicate Past(g: Gateway, step: Step) {
    step.Ingest? ==> step.bill.paidAt <= g.clock
  }

  predicate AllPast(g: Gateway, steps: seq<Step>, policy: AmountPolicy)
    decreases |steps|
  {
    steps != [] ==> Past(g, steps[0]) && AllPast(Next(g, steps[0], policy), steps[1..], policy)
  }

  predicate EventsPast(events: map<EventId, BillEvent>, clock: int) {
    forall e | e in events :: events[e].paidAt <= clock
  }

  /** An order was still open, or within its validity, when the bill that credited it was paid. */
  predicate CreditedInTime(o: Order, events: map<EventId, BillEvent>) {
    forall e | e in o.creditedBy && e in events :: o.leftOpenAt.Some? && events[e].paidAt <= o.leftOpenAt.value
  }

  predicate InTime(g: Gateway) {
    && EventsPast(g.events, g.clock)
    && forall id | id in g.orders :: CreditedInTime(g.orders[id], g.events)
  }

  /** A write that adds no credit and does not move `leftOpenAt` backwards keeps a row in time. */
  lemma RowStaysInTime(g: Gateway, id: OrderId, o: Order)
    requires InTime(g) && id in g.orders && o.creditedBy == g.orders[id].creditedBy
    requires g.orders[id].leftOpenAt.Some? ==> o.leftOpenAt == g.orders[id].leftOpenAt
    ensures CreditedInTime(o, g.events)
  {
    assert CreditedInTime(g.orders[id], g.events);
  }

  lemma MatchIsInTime(g: Gateway, step: Step, policy: AmountPolicy)
    requires Inv(g) && InTime(g) && step.Match? && Enabled(g, step)
    ensures InTime(Effect(g, step, policy))
  {
    var o, e := g.orders[step.id], g.events[step.eid];
    assert RowOk(o, g.clock) && CreditedInTime(o, g.events);
    var v := Effect(g, step, policy);
    forall id | id in v.orders ensures CreditedInTime(v.orders[id], v.events) {
      if id != step.id {
        assert v.orders[id] == g.orders[id];
      }
    }
  }

  lemma EventStaysInTime(g: Gateway, eid: EventId, e: BillEvent)
    requires Inv(g) && InTime(g) && e.paidAt <= g.clock
    requires eid in g.events ==> e.paidAt == g.events[eid].paidAt
    ensures InTime(g.(events := g.events[eid := e]))
  {
    forall id | id in g.orders ensures CreditedInTime(g.orders[id], g.events[eid := e]) {
      assert CreditedInTime(g.orders[id], g.events);
      assert forall f | f in g.orders[id].creditedBy :: f in g.events;
    }
  }

  lemma WriteIsInTime(g: Gateway, id: OrderId, o: Order)
    requires InTime(g) && CreditedInTime(o, g.events)
    ensures InTime(g.(orders := g.orders[id := o]))
  {
  }

  lemma NextIsInTime(g: Gateway, step: Step, policy: AmountPolicy)
    requires Inv(g) && InTime(g) && Past(g, step)
    ensures InTime(Next(g, step, policy))
  {
    if Enabled(g, step) {
      var v := Effect(g, step, policy);
      match step {
        case Tick(_) =>
        case Create(id, _, _, _, _, _, _) =>
          if id in v.orders {
            WriteIsInTime(g, id, v.orders[id]);
          }
        case ConfirmCreate(id, _) =>
          RowStaysInTime(g, id, v.orders[id]);
          WriteIsInTime(g, id, v.orders[id]);
        case Notify(id, _) =>
          RowStaysInTime(g, id, v.orders[id]);
          WriteIsInTime(g, id, v.orders[id]);
        case ReadOverdue(_) =>
        case WriteExpired(id, _) =>
          RowStaysInTime(g, id, v.orders[id]);
          WriteIsInTime(g, id, v.orders[id]);
        case Ingest(eid, bill) => EventStaysInTime(g, eid, bill);
        case Match(_, _, _, _) => MatchIsInTime(g, step, policy);
        case Mark(eid, _) => EventStaysInTime(g, eid, v.events[eid]);
        case GiveUp(eid) => EventStaysInTime(g, eid, v.events[eid]);
      }
    }
  }

  lemma {:induction false} RunIsInTime(g: Gateway, steps: seq<Step>, policy: AmountPolicy)
    requires Inv(g) && InTime(g) && AllPast(g, steps, policy)
    ensures Inv(Run(g, steps, policy)) && InTime(Run(g, steps, policy))
    decreases |steps|
  {
    if steps != [] {
      NextIsInTime(g, steps[0], policy);
      NextKeepsInv(g, steps[0], policy);
      RunIsInTime(Next(g, steps[0], policy), steps[1..], policy);
    }
  }

  /** One order closed, the other was created and the bill was paid in one and the same millisecond. */
  predicate Tied(closed: Order, created: Order, paidAt: int) {
    closed.leftOpenAt == Some(paidAt) && created.createdAt == paidAt
  }

  /**
   Once its payment is applied, a bill finds no order any more.  So when the worker dies before marking it
   MATCHED, the retries can only end in DEAD_LETTER, although the money was credited.
   */
  lemma CreditedBillFindsNothing(
      clock: int, steps: seq<Step>, policy: AmountPolicy, e: EventId, i: OrderId, j: OrderId, hits: set<OrderId>, w: int)
    requires AllPast(Initial(clock), steps, policy)
    requires var g := Run(Initial(clock), steps, policy);
             && i in g.orders && e in g.orders[i].creditedBy && e in g.events
             && IsCtfChannel(g.orders[i].channel) && g.orders[i].Effective() > 0
             && MayReturn(g, g.events[e], j, hits, w)
    ensures var g := Run(Initial(clock), steps, policy);
            && i != j
            && (Tied(g.orders[i], g.orders[j], g.events[e].paidAt) || Tied(g.orders[j], g.orders[i], g.events[e].paidAt))
  {
    RunIsInTime(Initial(clock), steps, policy);
    var g := Run(Initial(clock), steps, policy);
    var a, b := g.orders[i], g.orders[j];
    assert CreditOk(g.events[e], a) && CreditedInTime(a, g.events);
    assert RowOk(a, g.clock) && RowOk(b, g.clock);
    assert i != j ==> SameSlot(a, b);
  }
}
