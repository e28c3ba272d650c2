/**
 What the transition system of BillMatching guarantees over whole runs, and the runs that show
 where the guarantee stops.
 */
module BillSafety {
  import opened Options
  import opened PaymentStatuses
  import opened Orders
  import opened BillStatuses
  import opened BillMatching

  ghost predicate Reachable(g: Gateway, policy: AmountPolicy) {
    exists clock: int, steps: seq<Step> :: g == Run(Initial(clock), steps, policy)
  }

  lemma ReachableInv(g: Gateway, policy: AmountPolicy)
    requires Reachable(g, policy)
    ensures Inv(g)
  {
    var clock: int, steps: seq<Step> :| g == Run(Initial(clock), steps, policy);
    RunKeepsInv(Initial(clock), steps, policy);
  }

  // ---------- at most one candidate ----------

  /** `a` expired, left the open state and handed its amount to `b`, all in the millisecond `t`. */
  predicate HandoverAt(a: Order, b: Order, t: int) {
    a.status == Cancelled && a.expireAt == Some(t) && a.leftOpenAt == Some(t) && b.createdAt == t
  }

  /**
   In every reachable state a bill has at most one eligible order, whatever the match windows are,
   unless one candidate handed over to the other in the very millisecond the bill was paid.
   */
  lemma AtMostOneEligible(g: Gateway, policy: AmountPolicy, e: BillEvent, i: OrderId, j: OrderId, v: int, w: int)
    requires Reachable(g, policy) && IsCtfChannel(e.channel) && e.amount > 0
    requires i != j && Eligible(g, e, i, v) && Eligible(g, e, j, w)
    ensures HandoverAt(g.orders[i], g.orders[j], e.paidAt) || HandoverAt(g.orders[j], g.orders[i], e.paidAt)
  {
    ReachableInv(g, policy);
    var a, b := g.orders[i], g.orders[j];
    assert SameSlot(a, b);
    assert RowOk(a, g.clock) && RowOk(b, g.clock);
  }

  /** The order in which the table lists the candidates. */
  predicate Lists(g: Gateway, e: BillEvent, window: int, candidates: seq<OrderId>) {
    && (forall id | id in g.orders :: id in candidates <==> Eligible(g, e, id, window))
    && (forall k | 0 <= k < |candidates| :: candidates[k] in g.orders)
    && (forall k, l | 0 <= k < l < |candidates| :: candidates[k] != candidates[l])
  }

  function FirstHit(candidates: seq<OrderId>, hits: set<OrderId>): Option<OrderId> {
    if candidates == [] then None
    else if candidates[0] in hits then Some(candidates[0])
    else FirstHit(candidates[1..], hits)
  }

  /** findMatchingPaymentOrder on its candidate list. */
  function Search(e: BillEvent, candidates: seq<OrderId>, hits: set<OrderId>): Option<OrderId> {
    var hit := FirstHit(candidates, hits);
    if hit.Some? then hit
    else if e.listener && |candidates| == 1 then Some(candidates[0])
    else None
  }

  lemma {:induction false} FirstHitIsAHit(candidates: seq<OrderId>, hits: set<OrderId>)
    ensures match FirstHit(candidates, hits)
            case Some(id) => id in candidates && id in hits
            case None => forall id | id in candidates :: id !in hits
  {
    if candidates != [] {
      FirstHitIsAHit(candidates[1..], hits);
    }
  }

  /** The search finds something the relation MayReturn allows, or nothing is allowed. */
  lemma SearchMeetsRelation(g: Gateway, e: BillEvent, window: int, candidates: seq<OrderId>, hits: set<OrderId>)
    requires Lists(g, e, window, candidates)
    ensures match Search(e, candidates, hits)
            case Some(id) => MayReturn(g, e, id, hits, window)
            case None => forall id :: !MayReturn(g, e, id, hits, window)
  {
    FirstHitIsAHit(candidates, hits);
    forall id | MayReturn(g, e, id, hits, window)
      ensures id in hits || candidates == [id]
      ensures id in candidates
    {
      if id !in hits {
        OnlyCandidate(g, e, window, candidates, id);
      }
    }
  }

  lemma OnlyCandidate(g: Gateway, e: BillEvent, window: int, candidates: seq<OrderId>, id: OrderId)
    requires Lists(g, e, window, candidates) && Eligible(g, e, id, window)
    requires forall j | j in g.orders && Eligible(g, e, j, window) :: j == id
    ensures candidates == [id]
  {
    assert |candidates| < 2 || candidates[0] != candidates[1];
    assert forall k | 0 <= k < |candidates| :: candidates[k] in candidates && candidates[k] == id;
  }

  predicate HasHandover(g: Gateway, t: int) {
    exists i, j | i in g.orders && j in g.orders :: HandoverAt(g.orders[i], g.orders[j], t)
  }

  /** Away from such a millisecond the result does not depend on how the candidates are listed. */
  lemma SearchIgnoresListing(
      g: Gateway, policy: AmountPolicy, e: BillEvent, window: int,
      xs: seq<OrderId>, ys: seq<OrderId>, hits: set<OrderId>)
    requires Reachable(g, policy) && IsCtfChannel(e.channel) && e.amount > 0
    requires !HasHandover(g, e.paidAt)
    requires Lists(g, e, window, xs) && Lists(g, e, window, ys)
    ensures Search(e, xs, hits) == Search(e, ys, hits)
  {
    ListedOnce(g, policy, e, window, xs);
    ListedOnce(g, policy, e, window, ys);
    assert forall id :: id in xs <==> id in ys;
    assert xs != [] ==> xs == [xs[0]] && xs[0] in xs;
    assert ys != [] ==> ys == [ys[0]] && ys[0] in ys;
  }

  lemma ListedOnce(g: Gateway, policy: AmountPolicy, e: BillEvent, window: int, xs: seq<OrderId>)
    requires Reachable(g, policy) && IsCtfChannel(e.channel) && e.amount > 0
    requires !HasHandover(g, e.paidAt) && Lists(g, e, window, xs)
    ensures |xs| <= 1
  {
    if |xs| > 1 {
      assert xs[0] in xs && xs[1] in xs && xs[0] != xs[1];
      AtMostOneEligible(g, policy, e, xs[0], xs[1], window, window);
      assert false;
    }
  }

  // ---------- credits ----------

  /** Crashes and retries included, an order is credited by at most one bill, and then it has succeeded. */
  lemma OneBillPerOrder(g: Gateway, policy: AmountPolicy, id: OrderId, e: EventId, f: EventId)
    requires Reachable(g, policy) && id in g.orders
    requires e in g.orders[id].creditedBy && f in g.orders[id].creditedBy
    ensures e == f && g.orders[id].status == Succeeded
    ensures e in g.events && CreditOk(g.events[e], g.orders[id])
  {
    ReachableInv(g, policy);
    assert RowOk(g.orders[id], g.clock);
  }

  /** Bills marked MATCHED name distinct orders, each credited by that very bill. */
  lemma MatchedBillsAreInjective(g: Gateway, policy: AmountPolicy, e: EventId, f: EventId)
    requires Reachable(g, policy) && e in g.events && f in g.events
    requires g.events[e].status == Matched && g.events[f].status == Matched
    requires g.events[e].matchedOrder == g.events[f].matchedOrder
    ensures e == f
    ensures g.events[e].matchedOrder.Some? && g.events[e].matchedOrder.value in g.orders
    ensures e in g.orders[g.events[e].matchedOrder.value].creditedBy
  {
    ReachableInv(g, policy);
    assert MatchOk(g.orders, e, g.events[e]) && MatchOk(g.orders, f, g.events[f]);
  }

  // ---------- one order per bill ----------

  /** What identifies a bill to the gateway: its external id, or its own. */
  function Identity(e: EventId, bill: BillEvent): Option<string> {
    bill.externalBillId.OrElse(Some(e))
  }

  /**
   Whoever speaks about a capture order brings no gateway id or the order's own: its provider echoes the id it was
   asked with, and so does the expiry notification.
   */
  predicate EchoesOwnId(g: Gateway, step: Step) {
    match step
    case Notify(id, n) =>
      id in g.orders && IsCtfChannel(g.orders[id].channel) ==>
        n.gatewayOrderId.None? || n.gatewayOrderId == g.orders[id].gatewayOrderId
    case WriteExpired(id, seen) =>
      id in g.orders && IsCtfChannel(g.orders[id].channel) ==>
        seen.None? || seen == g.orders[id].gatewayOrderId
    case _ => true
  }

  predicate AllEcho(g: Gateway, steps: seq<Step>, policy: AmountPolicy)
    decreases |steps|
  {
    steps != [] ==> EchoesOwnId(g, steps[0]) && AllEcho(Next(g, steps[0], policy), steps[1..], policy)
  }

  /** A credited order carries the identity of the bill that paid it. */
  predicate CarriesBill(o: Order, events: map<EventId, BillEvent>) {
    forall e | e in o.creditedBy ::
      e in events && IsCtfChannel(o.channel) && o.gatewayOrderId == Identity(e, events[e])
  }

  predicate AllCarryBills(g: Gateway) {
    forall id | id in g.orders :: CarriesBill(g.orders[id], g.events)
  }

  lemma RowKeepsBill(g: Gateway, id: OrderId, o: Order)
    requires AllCarryBills(g) && id in g.orders && CarriesBill(o, g.events)
    ensures AllCarryBills(g.(orders := g.orders[id := o]))
  {
  }

  lemma NotifiedRowKeepsBill(g: Gateway, id: OrderId, n: Notification, policy: AmountPolicy)
    requires AllCarryBills(g) && id in g.orders && n.bill.None?
    requires IsCtfChannel(g.orders[id].channel) ==>
               n.gatewayOrderId.None? || n.gatewayOrderId == g.orders[id].gatewayOrderId
    ensures id in ApplyToTable(g.orders, id, n, policy, g.clock)
    ensures CarriesBill(ApplyToTable(g.orders, id, n, policy, g.clock)[id], g.events)
    ensures AllCarryBills(g.(orders := ApplyToTable(g.orders, id, n, policy, g.clock)))
  {
    var o := g.orders[id];
    assert CarriesBill(o, g.events);
    assert CarriesBill(Apply(o, n, g.clock), g.events);
    RowKeepsBill(g, id, Apply(o, n, g.clock));
  }

  lemma MatchedRowKeepsBill(g: Gateway, step: Step, policy: AmountPolicy)
    requires Inv(g) && AllCarryBills(g) && step.Match? && Enabled(g, step)
    ensures AllCarryBills(Effect(g, step, policy))
  {
    var o, n := g.orders[step.id], BillNotification(step.eid, g.events[step.eid]);
    assert RowOk(o, g.clock) && o.creditedBy == {};
    if ApplyError(g.orders, step.id, n, policy).None? {
      assert CarriesBill(Apply(o, n, g.clock), g.events);
      RowKeepsBill(g, step.id, Apply(o, n, g.clock));
    }
  }

  lemma EventKeepsBills(g: Gateway, eid: EventId, e: BillEvent)
    requires Inv(g) && AllCarryBills(g)
    requires eid in g.events ==> e.externalBillId == g.events[eid].externalBillId
    ensures AllCarryBills(g.(events := g.events[eid := e]))
  {
    forall id | id in g.orders ensures CarriesBill(g.orders[id], g.events[eid := e]) {
      assert CarriesBill(g.orders[id], g.events);
    }
  }

  lemma NextKeepsBills(g: Gateway, step: Step, policy: AmountPolicy)
    requires Inv(g) && AllCarryBills(g) && EchoesOwnId(g, step)
    ensures AllCarryBills(Next(g, step, policy))
  {
    if Enabled(g, step) {
      var v := Effect(g, step, policy);
      match step {
        case Tick(_) =>
        case Create(id, _, _, _, _, _, _) =>
          forall k | k in v.orders ensures CarriesBill(v.orders[k], v.events) {
            assert k in g.orders ==> CarriesBill(g.orders[k], g.events);
          }
        case ConfirmCreate(id, _) => RowKeepsBill(g, id, v.orders[id]);
        case Notify(id, n) => NotifiedRowKeepsBill(g, id, n, policy);
        case ReadOverdue(_) =>
        case WriteExpired(id, seen) =>
          NotifiedRowKeepsBill(g, id, ExpiredNotification(g.orders[id]).(gatewayOrderId := seen), policy);
        case Ingest(eid, bill) => EventKeepsBills(g, eid, bill);
        case Match(_, _, _, _) => MatchedRowKeepsBill(g, step, policy);
        case Mark(eid, _) => EventKeepsBills(g, eid, v.events[eid]);
        case GiveUp(eid) => EventKeepsBills(g, eid, v.events[eid]);
      }
    }
  }

  lemma {:induction false} RunKeepsBills(g: Gateway, steps: seq<Step>, policy: AmountPolicy)
    requires Inv(g) && AllCarryBills(g) && AllEcho(g, steps, policy)
    ensures Inv(Run(g, steps, policy)) && AllCarryBills(Run(g, steps, policy))
    decreases |steps|
  {
    if steps != [] {
      NextKeepsBills(g, steps[0], policy);
      NextKeepsInv(g, steps[0], policy);
      RunKeepsBills(Next(g, steps[0], policy), steps[1..], policy);
    }
  }

  /**
   Over every run, with any clock, any payment times and any crashes and retries, bills of one identity credit at
   most one order, and only one of them does.
   */
  lemma OneOrderPerBill(clock: int, steps: seq<Step>, policy: AmountPolicy, e: EventId, f: EventId, i: OrderId, j: OrderId)
    requires AllEcho(Initial(clock), steps, policy)
    requires var g := Run(Initial(clock), steps, policy);
             && i in g.orders && j in g.orders && e in g.orders[i].creditedBy && f in g.orders[j].creditedBy
             && e in g.events && f in g.events && Identity(e, g.events[e]) == Identity(f, g.events[f])
    ensures i == j && e == f
  {
    RunKeepsBills(Initial(clock), steps, policy);
    var g := Run(Initial(clock), steps, policy);
    assert CarriesBill(g.orders[i], g.events) && CarriesBill(g.orders[j], g.events);
  }

  // ---------- statuses over runs ----------

  predicate Rises(g: Gateway, g': Gateway) {
    forall id | id in g.orders && Settled(g, id) ::
      Settled(g', id) && Rank(g.orders[id].status) <= Rank(g'.orders[id].status)
  }

  lemma NextRises(g: Gateway, step: Step, policy: AmountPolicy)
    ensures Rises(g, Next(g, step, policy))
  {
    forall id | id in g.orders && Settled(g, id)
      ensures Settled(Next(g, step, policy), id)
      ensures Rank(g.orders[id].status) <= Rank(Next(g, step, policy).orders[id].status)
    {
    }
  }

  /** Once its creation is complete, an order is never lost and its status never falls. */
  lemma {:induction false} RunRises(g: Gateway, steps: seq<Step>, policy: AmountPolicy)
    ensures Rises(g, Run(g, steps, policy))
    decreases |steps|
  {
    if steps != [] {
      NextRises(g, steps[0], policy);
      RunRises(Next(g, steps[0], policy), steps[1..], policy);
    }
  }

  // ---------- where the guarantees stop ----------

  /** A recoverable order stays recoverable through an accepted notification only if it is another expiry. */
  lemma PollingForfeitsLateBill(o: Order, n: Notification, now: int, paidAt: int)
    requires Recoverable(o, paidAt)
    ensures Recoverable(Apply(o, n, now), paidAt) <==> !n.succeeds && n.providerStatus == ORDER_EXPIRED
  {
  }
}
