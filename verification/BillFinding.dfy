/**
 When a captured bill finds its order (findMatchingPaymentOrder in lib/ctf-bill-capture/service.ts), column by column,
 and that the order it was paid for is then credited.
 */
module BillFindings {
  import opened Options
  import opened PaymentStatuses
  import opened Orders
  import opened BillStatuses
  import opened BillMatching
  import opened BillSafety

  /** The order waits for money, or its validity ended without any and the bill was paid before that. */
  predicate AwaitsBill(o: Order, paidAt: int) {
    || o.status == Pending
    || o.status == Processing
    || (o.status == Cancelled && o.providerStatus == "ORDER_EXPIRED" && o.paidAt == None
        && o.expireAt.Some? && paidAt <= o.expireAt.value)
  }

  /** The row is the one the bill is about. */
  predicate Fits(o: Order, e: BillEvent, window: int) {
    && o.account == Some(e.account) && o.channel == e.channel && o.currency == e.currency
    && e.amount == (if o.payable.Some? then o.payable.value else o.amount)
    && o.createdAt <= e.paidAt
    && (o.expireAt.Some? ==> e.paidAt - window <= o.expireAt.value)
    && AwaitsBill(o, e.paidAt)
  }

  predicate Unclaimed(events: map<EventId, BillEvent>, id: OrderId) {
    forall b | b in events && events[b].matchedOrder == Some(id) :: events[b].status != Matched
  }

  function Fitting(orders: map<OrderId, Order>, events: map<EventId, BillEvent>, e: BillEvent, window: int): set<OrderId> {
    set id | id in orders && Fits(orders[id], e, window) && Unclaimed(events, id)
  }

  lemma FittingIsEligible(g: Gateway, e: BillEvent, window: int, id: OrderId)
    ensures id in Fitting(g.orders, g.events, e, window) <==> Eligible(g, e, id, window)
  {
    if id in g.orders {
      assert Unclaimed(g.events, id) <==> !HasMatchedBill(g.events, id);
    }
  }

  /** What the bill may be matched with: the fitting orders its remark names, or a lone one if a listener captured it. */
  function Findable(
      orders: map<OrderId, Order>, events: map<EventId, BillEvent>, e: BillEvent, hits: set<OrderId>, window: int):
    set<OrderId>
  {
    var fitting := Fitting(orders, events, e, window);
    if fitting * hits != {} then fitting * hits
    else if e.listener && |fitting| == 1 then fitting
    else {}
  }

  lemma LoneElement<T>(s: set<T>, x: T)
    requires x in s
    ensures |s| == 1 <==> s == {x}
  {
    assert s == {x} + (s - {x});
  }

  /** The matching rule is exactly this: what it allows, and that it allows something iff there is something to find. */
  lemma MayReturnIffFits(g: Gateway, e: BillEvent, id: OrderId, hits: set<OrderId>, window: int)
    ensures var fitting := Fitting(g.orders, g.events, e, window);
            && (MayReturn(g, e, id, hits, window) <==>
                  id in fitting && (id in hits || (e.listener && |fitting| == 1)))
            && (id in Findable(g.orders, g.events, e, hits, window) ==> MayReturn(g, e, id, hits, window))
            && (MayReturn(g, e, id, hits, window) ==> Findable(g.orders, g.events, e, hits, window) != {})
  {
    var fitting := Fitting(g.orders, g.events, e, window);
    forall j ensures j in fitting <==> Eligible(g, e, j, window) {
      FittingIsEligible(g, e, window, j);
    }
    if id in fitting {
      LoneElement(fitting, id);
      assert id in hits ==> id in fitting * hits;
    }
  }

  // ---------- the order is credited ----------

  lemma {:induction false} ExtendRun(clock: int, steps: seq<Step>, more: seq<Step>, policy: AmountPolicy)
    ensures Run(Initial(clock), steps + more, policy) == Run(Run(Initial(clock), steps, policy), more, policy)
    ensures Reachable(Run(Run(Initial(clock), steps, policy), more, policy), policy)
  {
    RunAppend(Initial(clock), steps, more, policy);
  }

  /** An order that waits for a bill is the only one that fits it, unless another one handed over its amount just then. */
  lemma WaitingOrderFitsAlone(g: Gateway, policy: AmountPolicy, id: OrderId, e: BillEvent, window: int)
    requires Reachable(g, policy) && id in g.orders && IsOpen(g.orders[id].status)
    requires IsCtfChannel(e.channel) && e.amount > 0 && Fits(g.orders[id], e, window)
    requires forall j | j in g.orders :: !HandoverAt(g.orders[j], g.orders[id], e.paidAt)
    ensures Fitting(g.orders, g.events, e, window) == {id}
  {
    ReachableInv(g, policy);
    assert RowOk(g.orders[id], g.clock);
    assert Unclaimed(g.events, id) by {
      forall b | b in g.events && g.events[b].matchedOrder == Some(id) ensures g.events[b].status != Matched {
        assert MatchOk(g.orders, b, g.events[b]);
      }
    }
    FittingIsEligible(g, e, window, id);
    forall j | j in Fitting(g.orders, g.events, e, window) ensures j == id {
      FittingIsEligible(g, e, window, j);
      if j != id {
        AtMostOneEligible(g, policy, e, id, j, window, window);
      }
    }
  }

  /** The bill's own payment is accepted. */
  lemma BillIsAccepted(g: Gateway, policy: AmountPolicy, id: OrderId, eid: EventId, hits: set<OrderId>, window: int)
    requires eid in g.events && g.events[eid].status == Received && Settled(g, id)
    requires IsCtfChannel(g.orders[id].channel) && Fits(g.orders[id], g.events[eid], window)
    requires Fitting(g.orders, g.events, g.events[eid], window) == {id} && (id in hits || g.events[eid].listener)
    requires forall j | j in g.orders && j != id :: g.orders[j].gatewayOrderId != Identity(eid, g.events[eid])
    ensures var g' := Run(g, [Match(eid, id, hits, window)] + [Mark(eid, id)], policy);
            && id in g'.orders && g'.orders[id].status == Succeeded && eid in g'.orders[id].creditedBy
            && g'.orders[id].paidAt == Some(g.events[eid].paidAt)
            && eid in g'.events && g'.events[eid].status == Matched && g'.events[eid].matchedOrder == Some(id)
  {
    var e, pay, mark := g.events[eid], Match(eid, id, hits, window), Mark(eid, id);
    LoneElement({id}, id);
    MayReturnIffFits(g, e, id, hits, window);
    assert Enabled(g, pay);
    assert ApplyError(g.orders, id, BillNotification(eid, e), policy).None?;
    OneStep(g, pay, policy);
    OneStep(Next(g, pay, policy), mark, policy);
    RunAppend(g, [pay], [mark], policy);
  }

  /**
   After any run, an open capture order is found by and credited with a bill that fits it: a listener's bill whatever
   its remark says, any other bill if the remark names the order.
   */
  lemma OpenOrderIsCredited(
      clock: int, steps: seq<Step>, policy: AmountPolicy, id: OrderId, eid: EventId, bill: BillEvent, hits: set<OrderId>,
      window: int)
    requires var g := Run(Initial(clock), steps, policy);
             && Settled(g, id) && IsOpen(g.orders[id].status) && IsCtfChannel(bill.channel) && bill.amount > 0
             && Fits(g.orders[id], bill, window) && (id in hits || bill.listener)
             && eid !in g.events && bill.status == Received && bill.matchedOrder.None?
             && (forall j | j in g.orders :: !HandoverAt(g.orders[j], g.orders[id], bill.paidAt))
             && (forall j | j in g.orders && j != id :: g.orders[j].gatewayOrderId != Identity(eid, bill))
    ensures var g := Run(Initial(clock), steps, policy);
            var g' := Run(g, [Ingest(eid, bill)] + ([Match(eid, id, hits, window)] + [Mark(eid, id)]), policy);
            && Findable(g.orders, g.events[eid := bill], bill, hits, window) == {id}
            && id in g'.orders && g'.orders[id].status == Succeeded && eid in g'.orders[id].creditedBy
            && g'.orders[id].paidAt == Some(bill.paidAt)
            && eid in g'.events && g'.events[eid].status == Matched && g'.events[eid].matchedOrder == Some(id)
  {
    var g := Run(Initial(clock), steps, policy);
    var ingest, rest := Ingest(eid, bill), [Match(eid, id, hits, window)] + [Mark(eid, id)];
    ExtendRun(clock, steps, [ingest], policy);
    OneStep(g, ingest, policy);
    var g1 := Next(g, ingest, policy);
    WaitingOrderFitsAlone(g1, policy, id, bill, window);
    BillIsAccepted(g1, policy, id, eid, hits, window);
    RunAppend(g, [ingest], rest, policy);
    assert id in hits ==> {id} * hits == {id};
    assert id !in hits ==> {id} * hits == {};
  }

  /** A tick, or a word about the order that asks for nothing beyond PROCESSING. */
  predicate Polls(step: Step, id: OrderId) {
    step.Tick? || (step.Notify? && step.id == id && Target(step.n.providerStatus, step.n.succeeds) == Processing)
  }

  /** Terms and times of the order are as they were, and it still waits. */
  predicate StillWaits(g: Gateway, g': Gateway, id: OrderId) {
    && Settled(g, id) && Settled(g', id) && g'.orders.Keys == g.orders.Keys && g'.events == g.events
    && IsOpen(g'.orders[id].status) && SameTerms(g.orders[id], g'.orders[id])
    && g'.orders[id].account == g.orders[id].account && g'.orders[id].currency == g.orders[id].currency
    && g'.orders[id].createdAt == g.orders[id].createdAt && g'.orders[id].expireAt == g.orders[id].expireAt
    && forall j | j in g.orders && j != id :: g'.orders[j] == g.orders[j]
  }

  /** Polling, however often and whether accepted or not, leaves the order waiting. */
  lemma {:induction false} PollingKeepsWaiting(g: Gateway, polls: seq<Step>, policy: AmountPolicy, id: OrderId)
    requires Settled(g, id) && IsOpen(g.orders[id].status) && forall step | step in polls :: Polls(step, id)
    ensures StillWaits(g, Run(g, polls, policy), id)
    decreases |polls|
  {
    if polls != [] {
      assert polls[0] in polls && forall step | step in polls[1..] :: step in polls;
      if polls[0].Notify? {
        ResolveIsJoin(g.orders[id].status, polls[0].n.providerStatus, polls[0].n.succeeds);
      }
      PollingKeepsWaiting(Next(g, polls[0], policy), polls[1..], policy, id);
    }
  }

  /**
   From creation to credit: a capture order is created, confirmed and polled any number of times, and a bill of exactly
   the payable amount that was told, paid after the creation and within the validity, credits it.
   */
  lemma PolledOrderIsCredited(
      clock: int, past: seq<Step>, policy: AmountPolicy, create: Step, outcome: CreateOutcome, polls: seq<Step>,
      eid: EventId, bill: BillEvent, hits: set<OrderId>, window: nat)
    requires create.Create? && IsCtfChannel(create.channel) && create.account == Some(bill.account)
    requires create.channel == bill.channel && create.currency == bill.currency
    requires forall step | step in polls :: Polls(step, create.id)
    requires bill.listener && bill.status == Received && bill.matchedOrder.None? && bill.amount > 0
    requires var g0 := Run(Initial(clock), past, policy);
             var g1 := Run(g0, [create] + [ConfirmCreate(create.id, outcome)], policy);
             && create.id !in g0.orders && Settled(g1, create.id) && IsOpen(g1.orders[create.id].status)
             && bill.amount == g1.orders[create.id].Effective()
             && g0.clock < bill.paidAt <= g0.clock + create.ttl
             && eid !in g0.events
             && forall j | j in g0.orders :: g0.orders[j].gatewayOrderId != Identity(eid, bill)
    ensures var g0 := Run(Initial(clock), past, policy);
            var g1 := Run(g0, [create] + [ConfirmCreate(create.id, outcome)], policy);
            var g2 := Run(g1, polls, policy);
            var credit := [Match(eid, create.id, hits, window)] + [Mark(eid, create.id)];
            var g3 := Run(g2, [Ingest(eid, bill)] + credit, policy);
            && Findable(g2.orders, g2.events[eid := bill], bill, hits, window) == {create.id}
            && create.id in g3.orders && g3.orders[create.id].status == Succeeded
            && g3.orders[create.id].paidAt == Some(bill.paidAt) && eid in g3.orders[create.id].creditedBy
            && eid in g3.events && g3.events[eid].matchedOrder == Some(create.id)
  {
    var g0 := Run(Initial(clock), past, policy);
    var made := [create] + [ConfirmCreate(create.id, outcome)];
    var g1 := Run(g0, made, policy);
    CreationMakesRow(g0, create, outcome, policy);
    PollingKeepsWaiting(g1, polls, policy, create.id);
    RunAppend(Initial(clock), past, made, policy);
    RunAppend(Initial(clock), past + made, polls, policy);
    var g2 := Run(g1, polls, policy);
    OpenOrderIsCredited(clock, past + made + polls, policy, create.id, eid, bill, hits, window);
  }

  /** The two creation steps give the order the terms it was asked for; no other row changes. */
  lemma CreationMakesRow(g: Gateway, create: Step, outcome: CreateOutcome, policy: AmountPolicy)
    requires create.Create? && create.id !in g.orders
    requires create.id in Run(g, [create] + [ConfirmCreate(create.id, outcome)], policy).orders
    ensures var g' := Run(g, [create] + [ConfirmCreate(create.id, outcome)], policy);
            var o := g'.orders[create.id];
            && o.account == create.account && o.channel == create.channel && o.currency == create.currency
            && o.amount == create.amount && o.createdAt == g.clock && o.expireAt == Some(g.clock + create.ttl)
            && o.paidAt.None? && g'.events == g.events && g'.orders.Keys == g.orders.Keys + {create.id}
            && forall j | j in g.orders :: g'.orders[j] == g.orders[j]
  {
    var confirm := ConfirmCreate(create.id, outcome);
    OneStep(g, create, policy);
    OneStep(Next(g, create, policy), confirm, policy);
    RunAppend(g, [create], [confirm], policy);
  }
}
