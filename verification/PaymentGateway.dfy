/**
 The order service and the bill matcher as they are written: loops over rows and writes to tables
 (lib/orders/service.ts, lib/ctf-bill-capture/service.ts).  Every method is tied to the transition
 system of module BillMatching, whose guarantees are in module BillSafety.
 */
module PaymentGateways {
  import opened Options
  import opened PaymentStatuses
  import opened Orders
  import opened BillStatuses
  import opened BillMatching
  import opened Expiry
  import opened BillSafety
  import opened BillFindings

  /** `ThrewAfterPaying`: the payment is written, and the dispatch or the ledger sync behind it threw. */
  datatype MatchResult =
    | NotMatched
    | MatchedTo(id: OrderId)
    | MatchThrew(error: Error)
    | ThrewAfterPaying(id: OrderId)

  /** The payment is applied and the bill marked, or only the former. */
  function AfterMatch(g: Gateway, eid: EventId, result: MatchResult, hits: set<OrderId>, window: int, policy: AmountPolicy):
    Gateway
  {
    match result
    case MatchedTo(id) => Next(Next(g, Match(eid, id, hits, window), policy), Mark(eid, id), policy)
    case ThrewAfterPaying(id) => Next(g, Match(eid, id, hits, window), policy)
    case _ => g
  }

  /**
   A RECEIVED bill is matched with an order it may be matched with, and left alone iff there is none.  The order then has
   succeeded, with the bill as its evidence and the bill's payment time as its own.
   */
  ghost predicate MatchIsRight(
      g: Gateway, g': Gateway, eid: EventId, result: MatchResult, hits: set<OrderId>, window: int)
  {
    if eid !in g.events || g.events[eid].status != Received then result == NotMatched
    else
      var e := g.events[eid];
      var findable := Findable(g.orders, g.events, e, hits, window);
      && (result == NotMatched <==> findable == {})
      && (result == NotMatched ==> forall id :: !MayReturn(g, e, id, hits, window))
      && (result.MatchedTo? || result.ThrewAfterPaying? ==>
            && result.id in findable && MayReturn(g, e, result.id, hits, window)
            && result.id in g'.orders && Credits(g'.orders[result.id], eid, e))
      && (result.MatchedTo? ==> g'.events == g.events[eid := e.(status := Matched, matchedOrder := Some(result.id))])
      && (!result.MatchedTo? ==> g'.events == g.events)
  }

  /** The row has the terms it was asked for, and waits, or has failed at once. */
  predicate IsNewRow(
      o: Order, account: Option<string>, channel: string, currency: string, amount: int, payable: int, now: int, ttl: nat,
      route: CallbackRoute, outcome: CreateOutcome)
  {
    && o.account == account && o.channel == channel && o.currency == currency && o.route == route
    && o.amount == amount && o.Effective() == payable
    && o.createdAt == now && o.expireAt == Some(now + ttl) && o.paidAt.None? && o.callbackStatus == NotRequired
    && if IsOpen(o.status) then
         && outcome.Confirmed? && o.status == (if outcome.processing then Processing else Pending)
         && o.providerStatus == outcome.providerStatus && o.gatewayOrderId == outcome.gatewayOrderId
       else o.status == Failed && o.providerStatus == "CREATE_FAILED"
  }

  lemma NewRowHasTerms(
      account: Option<string>, channel: string, currency: string, amount: int, payable: int, now: int, ttl: nat,
      route: CallbackRoute, outcome: CreateOutcome)
    ensures var o := NewOrder(now, account, channel, currency, amount, payable, ttl, route);
            && IsNewRow(FinishCreate(o, outcome, now), account, channel, currency, amount, payable, now, ttl, route, outcome)
            && IsNewRow(FinishCreate(o, CreateFailed, now), account, channel, currency, amount, payable, now, ttl, route,
                        outcome)
  {
  }

  predicate Credits(o: Order, eid: EventId, e: BillEvent) {
    o.status == Succeeded && eid in o.creditedBy && o.paidAt == Some(e.paidAt)
  }

  class PaymentGateway {
    const policy: AmountPolicy
    var clock: int
    var orders: map<OrderId, Order>
    var events: map<EventId, BillEvent>
    // What other processes are in the middle of; see Gateway.
    ghost var creating: set<OrderId>
    ghost var expiring: set<OrderId>
    ghost var marking: set<(EventId, OrderId)>

    constructor (policy: AmountPolicy, clock: int)
      ensures this.policy == policy && State() == Initial(clock)
    {
      this.policy := policy;
      this.clock := clock;
      orders, events := map[], map[];
      creating, expiring, marking := {}, {}, {};
    }

    ghost function State(): Gateway
      reads this
    {
      Gateway(clock, orders, events, creating, expiring, marking)
    }

    /** The least payable amount at or above the base that no open order of the group uses. */
    method AllocateCtfPayableAmount(account: Option<string>, channel: string, currency: string, baseAmount: int)
      returns (cents: Option<int>)
      ensures cents == Allocate(orders, account, channel, currency, baseAmount)
      ensures NeedsTail(account, channel, baseAmount) ==>
                var used := UsedCents(orders, ActiveOrders(orders, account, channel, currency));
                match cents
                case Some(c) => IsLeastFree(used, baseAmount, c)
                case None => IsExhausted(used, baseAmount)
    {
      if !NeedsTail(account, channel, baseAmount) {
        return Some(baseAmount);
      }
      var active := ActiveOrders(orders, account, channel, currency);
      var used, left := {}, active;
      while left != {}
        invariant left <= active
        invariant used == UsedCents(orders, active - left)
      {
        var id :| id in left;
        left := left - {id};
        assert active - left == (active - left - {id}) + {id};
        used := used + {orders[id].Effective()};
      }
      assert active - left == active;
      FirstFreeIsLeast(used, baseAmount, 0);
      for offset := 0 to CTF_TAIL_SLOTS
        invariant FirstFree(used, baseAmount, 0) == FirstFree(used, baseAmount, offset)
      {
        if baseAmount + offset !in used {
          return Some(baseAmount + offset);
        }
      }
      return None;
    }

    /** Allocation, insertion, the provider call with its outcome, and the second write. */
    method CreatePaymentOrder(
        id: OrderId, account: Option<string>, channel: string, currency: string, amount: int, ttl: nat,
        route: CallbackRoute, outcome: CreateOutcome)
      returns (error: Option<Error>)
      requires id !in orders && id !in creating
      modifies this
      ensures var create := Create(id, account, channel, currency, amount, ttl, route);
              State() == Next(Next(old(State()), create, policy), ConfirmCreate(id, outcome), policy)
      ensures error == if id in orders then None else Some(UniqueAmountExhausted)
      ensures error.None? <==> old(Allocate(orders, account, channel, currency, amount)).Some?
      ensures error.None? ==>
                && orders == old(orders)[id := orders[id]]
                && IsNewRow(orders[id], account, channel, currency, amount,
                            old(Allocate(orders, account, channel, currency, amount)).value, clock, ttl, route, outcome)
    {
      var payable := AllocateCtfPayableAmount(account, channel, currency, amount);
      if payable.None? {
        return Some(UniqueAmountExhausted);
      }
      var order := NewOrder(clock, account, channel, currency, amount, payable.value, ttl, route);
      orders := orders[id := order];
      creating := creating + {id};
      NewRowHasTerms(account, channel, currency, amount, payable.value, clock, ttl, route, outcome);
      if outcome.Confirmed? && !GatewayIdTaken(orders, id, outcome.gatewayOrderId.OrElse(order.gatewayOrderId)) {
        orders := orders[id := FinishCreate(order, outcome, clock)];
      } else {
        orders := orders[id := FinishCreate(order, CreateFailed, clock)];
      }
      creating := creating - {id};
      return None;
    }

    /** applyPaymentNotification up to its single write. */
    method ApplyPaymentNotification(id: OrderId, n: Notification) returns (error: Option<Error>)
      modifies this`orders
      ensures error == ApplyError(old(orders), id, n, policy)
      ensures orders == ApplyToTable(old(orders), id, n, policy, clock)
      ensures error.Some? ==> orders == old(orders)
    {
      if id !in orders {
        return Some(OrderNotFound);
      }
      var order := orders[id];
      error := Rejection(order, n, policy);
      if error.Some? {
        return;
      }
      if GatewayIdTaken(orders, id, n.gatewayOrderId.OrElse(order.gatewayOrderId)) {
        return Some(GatewayOrderIdTaken);
      }
      orders := orders[id := Apply(order, n, clock)];
      return None;
    }

    /** The candidate query with the amount filter, oldest order first. */
    method ListCandidates(e: BillEvent, window: int) returns (candidates: seq<OrderId>)
      ensures IsListing(orders, candidates, Fitting(orders, events, e, window))
    {
      ghost var fitting := Fitting(orders, events, e, window);
      var left := orders.Keys;
      candidates := [];
      while left != {}
        invariant left <= orders.Keys && IsListing(orders, candidates, fitting - left)
        invariant forall id, j | id in candidates && j in left :: orders[id].createdAt <= orders[j].createdAt
      {
        EarliestExists(orders, left);
        var id :| id in left && forall j | j in left :: orders[id].createdAt <= orders[j].createdAt;
        FittingIsEligible(State(), e, window, id);
        if IsEligible(e, id, window) {
          ListingPush(orders, candidates, fitting - left, id);
          candidates := candidates + [id];
          assert fitting - (left - {id}) == (fitting - left) + {id};
        } else {
          assert fitting - (left - {id}) == fitting - left;
        }
        left := left - {id};
      }
      assert fitting - left == fitting;
    }

    /** findMatchingPaymentOrder: the first order the remark names, or a lone candidate of a listener. */
    method FindMatchingPaymentOrder(e: BillEvent, hits: set<OrderId>, window: int) returns (found: Option<OrderId>)
      ensures var findable := Findable(orders, events, e, hits, window);
              match found
              case Some(id) =>
                id in findable && id in orders
                && forall j | j in findable && j in orders :: orders[id].createdAt <= orders[j].createdAt
              case None => findable == {}
      ensures match found
              case Some(id) => MayReturn(State(), e, id, hits, window)
              case None => forall id :: !MayReturn(State(), e, id, hits, window)
    {
      FindableMeetsRelation(State(), e, hits, window);
      var candidates := ListCandidates(e, window);
      var i := 0;
      while i < |candidates|
        invariant 0 <= i <= |candidates|
        invariant forall k | 0 <= k < i :: candidates[k] !in hits
      {
        if candidates[i] in hits {
          FirstHitIsFound(orders, events, e, hits, window, candidates, i);
          return Some(candidates[i]);
        }
        i := i + 1;
      }
      NoHitIsFound(orders, events, e, hits, window, candidates);
      if e.listener && |candidates| == 1 {
        return Some(candidates[0]);
      }
      return None;
    }

    predicate IsEligible(e: BillEvent, id: OrderId, window: int)
      reads this
      ensures IsEligible(e, id, window) == Eligible(State(), e, id, window)
    {
      Eligible(Gateway(clock, orders, events, {}, {}, {}), e, id, window)
    }

    /**
     One attempt at one bill: search, apply, mark.  With `lateThrow` what follows the write of the payment throws, so
     that the order is credited and the bill stays as it is.
     */
    method MatchCtfBillCaptureEvent(eid: EventId, hits: set<OrderId>, window: int, lateThrow: bool)
      returns (result: MatchResult)
      requires forall id | id in orders :: id !in creating
      modifies this
      ensures State() == AfterMatch(old(State()), eid, result, hits, window, policy)
      ensures MatchIsRight(old(State()), State(), eid, result, hits, window)
      ensures if lateThrow then !result.MatchedTo? else !result.ThrewAfterPaying?
    {
      if eid !in events || events[eid].status != Received {
        return NotMatched;
      }
      var e := events[eid];
      var found := FindMatchingPaymentOrder(e, hits, window);
      if found.None? {
        return NotMatched;
      }
      var id := found.value;
      var error := ApplyPaymentNotification(id, BillNotification(eid, e));
      if error.Some? {
        return MatchThrew(error.value);
      }
      assert orders == Next(old(State()), Match(eid, id, hits, window), policy).orders;
      ghost var applied := marking + {(eid, id)};
      if lateThrow {
        marking := applied;
        return ThrewAfterPaying(id);
      }
      events := events[eid := e.(status := Matched, matchedOrder := Some(id))];
      marking := applied - {(eid, id)};
      return MatchedTo(id);
    }

    /** ingestCtfBillCaptureEvent: the fingerprint is unique, so a repeated report adds no event. */
    method IngestCtfBillCaptureEvent(
        eid: EventId, bill: BillEvent, matchImmediately: bool, hits: set<OrderId>, window: int, lateThrow: bool)
      returns (duplicate: bool, result: MatchResult)
      requires bill.status == Received && bill.matchedOrder.None?
      requires forall id | id in orders :: id !in creating
      modifies this
      ensures duplicate == (eid in old(events))
      ensures var stored := Next(old(State()), Ingest(eid, bill), policy);
              State() == AfterMatch(stored, eid, result, hits, window, policy)
      ensures eid in events
    {
      duplicate := eid in events;
      if !duplicate {
        events := events[eid := bill];
      }
      assert State() == Next(old(State()), Ingest(eid, bill), policy);
      if matchImmediately && events[eid].status == Received {
        result := MatchCtfBillCaptureEvent(eid, hits, window, lateThrow);
      } else {
        result := NotMatched;
      }
    }

    /** expirePaymentOrderIfNeeded; `error` is what it throws. */
    method ExpirePaymentOrderIfNeeded(id: OrderId, provider: Provider) returns (error: Option<Error>)
      requires id in orders
      modifies this`orders
      ensures Expired(orders, error) == ExpireOne(old(orders), id, provider, policy, clock)
      ensures orders.Keys == old(orders).Keys
    {
      if IsTerminal(orders[id].status) || orders[id].expireAt.None? || orders[id].expireAt.value > clock {
        return None;
      }
      if provider.query.Said? {
        var ignored := ApplyPaymentNotification(id, provider.query.n);
      }
      if IsTerminal(orders[id].status) || orders[id].expireAt.None? || orders[id].expireAt.value > clock {
        return None;
      }
      if provider.close.Said? {
        error := ApplyPaymentNotification(id, provider.close.n);
        if error.None? {
          return;
        }
      }
      error := ApplyPaymentNotification(id, ExpiredNotification(orders[id]));
    }

    /** closeExpiredPaymentOrders over the batch its query selected. */
    method CloseExpiredPaymentOrders(batch: seq<OrderId>, providers: OrderId -> Provider)
      returns (cancelled: nat, succeededAfterSync: nat, failed: nat)
      requires forall id | id in batch :: id in orders
      modifies this`orders
      ensures Sweep(orders, cancelled, succeededAfterSync, failed)
           == SweepAll(Sweep(old(orders), 0, 0, 0), batch, providers, policy, clock)
    {
      cancelled, succeededAfterSync, failed := 0, 0, 0;
      ghost var start := Sweep(orders, 0, 0, 0);
      for i := 0 to |batch|
        invariant orders.Keys == old(orders).Keys
        invariant Sweep(orders, cancelled, succeededAfterSync, failed)
               == SweepAll(start, batch[..i], providers, policy, clock)
      {
        assert batch[..i + 1] == batch[..i] + [batch[i]];
        assert forall k | k in batch[..i] :: k in batch;
        SweepAllAppends(start, batch[..i], batch[i], providers, policy, clock);
        var error := ExpirePaymentOrderIfNeeded(batch[i], providers(batch[i]));
        if error.Some? {
          failed := failed + 1;
        } else if orders[batch[i]].status == Succeeded {
          succeededAfterSync := succeededAfterSync + 1;
        } else if orders[batch[i]].status == Cancelled {
          cancelled := cancelled + 1;
        }
      }
      assert batch[..|batch|] == batch;
    }
  }

  /** The list names exactly these orders, each once, the oldest first. */
  ghost predicate IsListing(orders: map<OrderId, Order>, ids: seq<OrderId>, all: set<OrderId>) {
    && (forall id :: id in ids <==> id in all)
    && (forall id | id in ids :: id in orders)
    && (forall k, l | 0 <= k < l < |ids| :: ids[k] != ids[l] && orders[ids[k]].createdAt <= orders[ids[l]].createdAt)
  }

  lemma ListingPush(orders: map<OrderId, Order>, ids: seq<OrderId>, all: set<OrderId>, id: OrderId)
    requires IsListing(orders, ids, all) && id !in all && id in orders
    requires forall j | j in ids :: orders[j].createdAt <= orders[id].createdAt
    ensures IsListing(orders, ids + [id], all + {id})
  {
  }

  lemma {:induction false} ListingSize(orders: map<OrderId, Order>, ids: seq<OrderId>, all: set<OrderId>)
    requires IsListing(orders, ids, all)
    ensures |ids| == |all|
    decreases |ids|
  {
    if ids == [] {
      assert all == {};
    } else {
      var last, front := ids[|ids| - 1], ids[..|ids| - 1];
      assert forall id :: id in ids <==> id in front || id == last;
      ListingSize(orders, front, all - {last});
    }
  }

  lemma FirstHitIsFound(
      orders: map<OrderId, Order>, events: map<EventId, BillEvent>, e: BillEvent, hits: set<OrderId>, window: int,
      ids: seq<OrderId>, i: nat)
    requires IsListing(orders, ids, Fitting(orders, events, e, window))
    requires i < |ids| && ids[i] in hits && forall k | 0 <= k < i :: ids[k] !in hits
    ensures ids[i] in orders && ids[i] in Findable(orders, events, e, hits, window)
    ensures forall j | j in Findable(orders, events, e, hits, window) ::
              j in orders && orders[ids[i]].createdAt <= orders[j].createdAt
  {
    var fitting := Fitting(orders, events, e, window);
    assert ids[i] in fitting * hits;
    forall j | j in fitting * hits ensures orders[ids[i]].createdAt <= orders[j].createdAt {
      var k :| 0 <= k < |ids| && ids[k] == j;
      assert k >= i;
    }
  }

  lemma NoHitIsFound(
      orders: map<OrderId, Order>, events: map<EventId, BillEvent>, e: BillEvent, hits: set<OrderId>, window: int,
      ids: seq<OrderId>)
    requires IsListing(orders, ids, Fitting(orders, events, e, window))
    requires forall k | 0 <= k < |ids| :: ids[k] !in hits
    ensures Findable(orders, events, e, hits, window)
         == if e.listener && |ids| == 1 then {ids[0]} else {}
  {
    var fitting := Fitting(orders, events, e, window);
    assert fitting * hits == {};
    ListingSize(orders, ids, fitting);
    if |ids| == 1 {
      assert ids[0] in fitting;
      LoneElement(fitting, ids[0]);
    }
  }

  lemma FindableMeetsRelation(g: Gateway, e: BillEvent, hits: set<OrderId>, window: int)
    ensures forall id | id in Findable(g.orders, g.events, e, hits, window) :: MayReturn(g, e, id, hits, window)
    ensures Findable(g.orders, g.events, e, hits, window) == {} ==> forall id :: !MayReturn(g, e, id, hits, window)
  {
    forall id ensures id in Findable(g.orders, g.events, e, hits, window) ==> MayReturn(g, e, id, hits, window)
              ensures MayReturn(g, e, id, hits, window) ==> Findable(g.orders, g.events, e, hits, window) != {} {
      MayReturnIffFits(g, e, id, hits, window);
    }
  }

  lemma {:induction false} EarliestExists(orders: map<OrderId, Order>, ids: set<OrderId>)
    requires ids != {} && ids <= orders.Keys
    ensures exists id | id in ids :: forall j | j in ids :: orders[id].createdAt <= orders[j].createdAt
    decreases |ids|
  {
    var x :| x in ids;
    if ids == {x} {
      assert forall j | j in ids :: orders[x].createdAt <= orders[j].createdAt;
    } else {
      EarliestExists(orders, ids - {x});
      var y :| y in ids - {x} && forall j | j in ids - {x} :: orders[y].createdAt <= orders[j].createdAt;
      var z := if orders[x].createdAt <= orders[y].createdAt then x else y;
      assert forall j | j in ids :: orders[z].createdAt <= orders[j].createdAt;
    }
  }
}
