/**
 Unique payable amounts and bill matching (lib/orders/service.ts, lib/ctf-bill-capture/service.ts)
 as one transition system over the order and bill-event tables.

 A step is one database statement, or a read-then-write the gateway performs without yielding a
 decision in between; any process may take any enabled step at any time, so a crash is simply a
 process that takes no further step.
 */
module BillMatching {
  import opened Options
  import opened Sets
  import opened PaymentStatuses
  import opened Orders
  import opened BillStatuses

  const CTF_TAIL_SLOTS := 100

  /** A captured bill; its id is the fingerprint.  `listener` is isNotificationListenerSource(captureSource). */
  datatype BillEvent = BillEvent(
    account: string, channel: string, currency: string, amount: int, paidAt: int, createdAt: int,
    externalBillId: Option<string>, listener: bool, status: BillStatus, matchedOrder: Option<OrderId>)

  /**
   `creating`: orders whose creation has not made its second write.  `expiring`: orders an expiry check
   has read as open and overdue but not yet written.  `marking`: bills whose payment is applied but
   whose own row is not yet MATCHED.
   */
  datatype Gateway = Gateway(
    clock: int, orders: map<OrderId, Order>, events: map<EventId, BillEvent>,
    creating: set<OrderId>, expiring: set<OrderId>, marking: set<(EventId, OrderId)>)

  // ---------- allocation ----------

  predicate InGroup(o: Order, account: Option<string>, channel: string, currency: string) {
    o.account == account && o.channel == channel && o.currency == currency
  }

  function ActiveOrders(orders: map<OrderId, Order>, account: Option<string>, channel: string, currency: string):
    set<OrderId>
  {
    set id | id in orders && orders[id].Open() && InGroup(orders[id], account, channel, currency)
  }

  function UsedCents(orders: map<OrderId, Order>, active: set<OrderId>): set<int>
    requires active <= orders.Keys
  {
    set id | id in active :: orders[id].Effective()
  }

  predicate IsLeastFree(used: set<int>, base: int, cents: int) {
    && base <= cents < base + 100
    && cents !in used
    && forall c | base <= c < cents :: c in used
  }

  predicate IsExhausted(used: set<int>, base: int) {
    forall c | base <= c < base + 100 :: c in used
  }

  function FirstFree(used: set<int>, base: int, offset: nat): Option<int>
    decreases CTF_TAIL_SLOTS - offset
  {
    if offset >= CTF_TAIL_SLOTS then None
    else if base + offset !in used then Some(base + offset)
    else FirstFree(used, base, offset + 1)
  }

  lemma {:induction false} FirstFreeIsLeast(used: set<int>, base: int, offset: nat)
    requires offset <= CTF_TAIL_SLOTS
    requires forall c | base <= c < base + offset :: c in used
    ensures match FirstFree(used, base, offset)
            case Some(cents) => IsLeastFree(used, base, cents)
            case None => IsExhausted(used, base)
    decreases CTF_TAIL_SLOTS - offset
  {
    if offset < CTF_TAIL_SLOTS && base + offset in used {
      FirstFreeIsLeast(used, base, offset + 1);
    }
  }

  /** Accounts and channels without bill capture, and non-positive amounts, keep their base amount. */
  predicate NeedsTail(account: Option<string>, channel: string, base: int) {
    account.Some? && IsCtfChannel(channel) && base > 0
  }

  function Allocate(orders: map<OrderId, Order>, account: Option<string>, channel: string, currency: string, base: int):
    Option<int>
  {
    if NeedsTail(account, channel, base)
    then FirstFree(UsedCents(orders, ActiveOrders(orders, account, channel, currency)), base, 0)
    else Some(base)
  }

  function Range(base: int, n: nat): (r: set<int>)
    ensures forall c :: c in r <==> base <= c < base + n
    ensures |r| == n
  {
    if n == 0 then {} else Range(base, n - 1) + {base + n - 1}
  }

  lemma {:induction false} UsedAreFewerThanActive(orders: map<OrderId, Order>, active: set<OrderId>)
    requires active <= orders.Keys
    ensures |UsedCents(orders, active)| <= |active|
    decreases |active|
  {
    if active != {} {
      var id :| id in active;
      UsedAreFewerThanActive(orders, active - {id});
      assert UsedCents(orders, active) == UsedCents(orders, active - {id}) + {orders[id].Effective()};
    }
  }

  /** Pigeonhole: fewer than a hundred open orders in the group always leave a tail. */
  lemma {:induction false} AllocationSucceeds(
      orders: map<OrderId, Order>, account: Option<string>, channel: string, currency: string, base: int)
    requires |ActiveOrders(orders, account, channel, currency)| < 100
    ensures Allocate(orders, account, channel, currency, base).Some?
  {
    var active := ActiveOrders(orders, account, channel, currency);
    var used := UsedCents(orders, active);
    FirstFreeIsLeast(used, base, 0);
    if IsExhausted(used, base) {
      SubsetSize(Range(base, CTF_TAIL_SLOTS), used);
      UsedAreFewerThanActive(orders, active);
      assert false;
    }
  }

  /** What the waiting orders of a group ask for. */
  function Taken(orders: map<OrderId, Order>, account: Option<string>, channel: string, currency: string): set<int> {
    set id | id in orders && orders[id].account == account && orders[id].channel == channel
             && orders[id].currency == currency && (orders[id].status == Pending || orders[id].status == Processing) ::
      if orders[id].payable.Some? then orders[id].payable.value else orders[id].amount
  }

  /**
   A positive amount on a capture channel gets the least of its hundred tails that no waiting order of the group asks
   for, or none if all are asked for; any other amount stays as it is.
   */
  lemma AllocatedAmountIsLeast(
      orders: map<OrderId, Order>, account: Option<string>, channel: string, currency: string, base: int)
    ensures var taken := Taken(orders, account, channel, currency);
            var tailed := account.Some? && base > 0 && (channel == "ctf.alipay.monitor" || channel == "ctf.wxpay.monitor");
            match Allocate(orders, account, channel, currency, base)
            case Some(cents) =>
              if tailed then base <= cents < base + 100 && cents !in taken && forall c | base <= c < cents :: c in taken
              else cents == base
            case None => tailed && forall c | base <= c < base + 100 :: c in taken
  {
    var used := UsedCents(orders, ActiveOrders(orders, account, channel, currency));
    assert used == Taken(orders, account, channel, currency);
    FirstFreeIsLeast(used, base, 0);
  }

  function NewOrder(
      now: int, account: Option<string>, channel: string, currency: string,
      amount: int, cents: int, ttl: nat, route: CallbackRoute): Order
  {
    Order(account, channel, currency, amount, if cents != amount then Some(cents) else None,
          Pending, "", None, now, Some(now + ttl), None, None, route, NotRequired, None, 0, None, {})
  }

  // ---------- notifications ----------

  /** The unique index on gatewayOrderId. */
  predicate GatewayIdTaken(orders: map<OrderId, Order>, id: OrderId, gatewayOrderId: Option<string>) {
    gatewayOrderId.Some? && exists j | j in orders :: j != id && orders[j].gatewayOrderId == gatewayOrderId
  }

  /** Why applyPaymentNotification throws before changing anything, or None. */
  function ApplyError(orders: map<OrderId, Order>, id: OrderId, n: Notification, policy: AmountPolicy): Option<Error> {
    if id !in orders then Some(OrderNotFound)
    else if !Accepts(orders[id], n, policy) then Rejection(orders[id], n, policy)
    else if GatewayIdTaken(orders, id, n.gatewayOrderId.OrElse(orders[id].gatewayOrderId)) then Some(GatewayOrderIdTaken)
    else None
  }

  function ApplyToTable(orders: map<OrderId, Order>, id: OrderId, n: Notification, policy: AmountPolicy, now: int):
    map<OrderId, Order>
  {
    if ApplyError(orders, id, n, policy).None? then orders[id := Apply(orders[id], n, now)] else orders
  }

  // ---------- matching ----------

  /** Cancelled by expiry and still recoverable by a bill paid before the expiry. */
  predicate Recoverable(o: Order, paidAt: int) {
    && o.status == Cancelled && o.providerStatus == ORDER_EXPIRED
    && o.paidAt.None? && o.expireAt.Some? && o.expireAt.value >= paidAt
  }

  predicate HasMatchedBill(events: map<EventId, BillEvent>, id: OrderId) {
    exists e | e in events :: events[e].status == Matched && events[e].matchedOrder == Some(id)
  }

  /** The `where` clause and the amount filter of findMatchingPaymentOrder. */
  predicate Eligible(g: Gateway, e: BillEvent, id: OrderId, window: int) {
    && id in g.orders
    && var o := g.orders[id];
    && InGroup(o, Some(e.account), e.channel, e.currency)
    && o.createdAt <= e.paidAt
    && (o.Open() || Recoverable(o, e.paidAt))
    && (o.expireAt.None? || o.expireAt.value >= e.paidAt - window)
    && !HasMatchedBill(g.events, id)
    && o.Effective() == e.amount
  }

  /** What the search may return; `hits` are the orders whose texts occur in the bill's remark. */
  predicate MayReturn(g: Gateway, e: BillEvent, id: OrderId, hits: set<OrderId>, window: int) {
    && Eligible(g, e, id, window)
    && (id in hits || (e.listener && forall j | j in g.orders && Eligible(g, e, j, window) :: j == id))
  }

  function BillNotification(eid: EventId, e: BillEvent): Notification {
    Notification(e.externalBillId.OrElse(Some(eid)), CTF_BILL_CAPTURED, Some(Cents(e.amount)),
                 Some(e.paidAt), true, true, Some(eid))
  }

  // ---------- steps ----------

  datatype Step =
    | Tick(delta: nat)
    | Create(id: OrderId, account: Option<string>, channel: string, currency: string, amount: int,
             ttl: nat, route: CallbackRoute)
    | ConfirmCreate(id: OrderId, outcome: CreateOutcome)
    | Notify(id: OrderId, n: Notification)
    | ReadOverdue(id: OrderId)
    | WriteExpired(id: OrderId, seenGatewayOrderId: Option<string>)
    | Ingest(eid: EventId, bill: BillEvent)
    | Match(eid: EventId, id: OrderId, hits: set<OrderId>, window: int)
    | Mark(eid: EventId, id: OrderId)
    | GiveUp(eid: EventId)

  predicate Settled(g: Gateway, id: OrderId) {
    id in g.orders && id !in g.creating
  }

  /**
   `Notify` is any provider's word: a query, a webhook, a close.  Two assumptions are built in:
   providers do not speak the gateway's own ORDER_EXPIRED or bill evidence, and nothing reaches
   an order before the second write of its own creation.
   */
  predicate Enabled(g: Gateway, step: Step) {
    match step
    case Tick(_) => true
    case Create(id, _, _, _, _, _, _) => id !in g.orders
    case ConfirmCreate(id, _) => id in g.orders && id in g.creating
    case Notify(id, n) => Settled(g, id) && n.providerStatus != ORDER_EXPIRED && n.bill.None?
    case ReadOverdue(id) =>
      && Settled(g, id) && g.orders[id].Open()
      && g.orders[id].expireAt.Some? && g.orders[id].expireAt.value <= g.clock
    case WriteExpired(id, _) => id in g.expiring && Settled(g, id)
    case Ingest(eid, bill) => eid !in g.events && bill.status == Received && bill.matchedOrder.None?
    case Match(eid, id, hits, window) =>
      && eid in g.events && g.events[eid].status == Received
      && Settled(g, id) && MayReturn(g, g.events[eid], id, hits, window)
    case Mark(eid, id) => (eid, id) in g.marking && eid in g.events
    case GiveUp(eid) => eid in g.events && g.events[eid].status == Received
  }

  function Effect(g: Gateway, step: Step, policy: AmountPolicy): Gateway
    requires Enabled(g, step)
  {
    match step
    case Tick(delta) => g.(clock := g.clock + delta)
    case Create(id, account, channel, currency, amount, ttl, route) =>
      (match Allocate(g.orders, account, channel, currency, amount)
       case None => g
       case Some(cents) =>
         g.(orders := g.orders[id := NewOrder(g.clock, account, channel, currency, amount, cents, ttl, route)],
            creating := g.creating + {id}))
    case ConfirmCreate(id, outcome) =>
      var taken := outcome.Confirmed?
                   && GatewayIdTaken(g.orders, id, outcome.gatewayOrderId.OrElse(g.orders[id].gatewayOrderId));
      var ending := if taken then CreateFailed else outcome;
      g.(orders := g.orders[id := FinishCreate(g.orders[id], ending, g.clock)], creating := g.creating - {id})
    case Notify(id, n) => g.(orders := ApplyToTable(g.orders, id, n, policy, g.clock))
    case ReadOverdue(id) => g.(expiring := g.expiring + {id})
    case WriteExpired(id, seen) =>
      g.(orders := ApplyToTable(g.orders, id, ExpiredNotification(g.orders[id]).(gatewayOrderId := seen), policy, g.clock),
         expiring := g.expiring - {id})
    case Ingest(eid, bill) => g.(events := g.events[eid := bill])
    case Match(eid, id, _, _) =>
      var n := BillNotification(eid, g.events[eid]);
      if ApplyError(g.orders, id, n, policy).None?
      then g.(orders := ApplyToTable(g.orders, id, n, policy, g.clock), marking := g.marking + {(eid, id)})
      else g
    case Mark(eid, id) =>
      g.(events := g.events[eid := g.events[eid].(status := Matched, matchedOrder := Some(id))],
         marking := g.marking - {(eid, id)})
    case GiveUp(eid) => g.(events := g.events[eid := g.events[eid].(status := DeadLetter)])
  }

  function Next(g: Gateway, step: Step, policy: AmountPolicy): Gateway {
    if Enabled(g, step) then Effect(g, step, policy) else g
  }

  function Run(g: Gateway, steps: seq<Step>, policy: AmountPolicy): Gateway
    decreases |steps|
  {
    if steps == [] then g else Run(Next(g, steps[0], policy), steps[1..], policy)
  }

  lemma {:induction false} RunAppend(g: Gateway, xs: seq<Step>, ys: seq<Step>, policy: AmountPolicy)
    ensures Run(g, xs + ys, policy) == Run(Run(g, xs, policy), ys, policy)
    decreases |xs|
  {
    if xs == [] {
      assert xs + ys == ys;
    } else {
      assert (xs + ys)[1..] == xs[1..] + ys;
      RunAppend(Next(g, xs[0], policy), xs[1..], ys, policy);
    }
  }

  lemma OneStep(g: Gateway, step: Step, policy: AmountPolicy)
    ensures Run(g, [step], policy) == Next(g, step, policy)
  {
    assert Run(g, [step], policy) == Run(Next(g, step, policy), [step][1..], policy);
  }

  function Initial(clock: int): Gateway {
    Gateway(clock, map[], map[], {}, {}, {})
  }

  // ---------- the invariant ----------

  /** Orders that a bill could confuse: same account, capture channel, currency and positive payable cents. */
  predicate SameSlot(a: Order, b: Order) {
    && a.account.Some? && IsCtfChannel(a.channel) && a.Effective() > 0
    && InGroup(b, a.account, a.channel, a.currency)
    && a.Effective() == b.Effective()
  }

  predicate LeftBefore(a: Order, b: Order) {
    a.leftOpenAt.Some? && a.leftOpenAt.value <= b.createdAt
  }

  /** The row had left the open state no earlier than it expired, or has not left it. */
  predicate OutlivedExpiry(o: Order, clock: int) {
    && o.expireAt.Some? && o.expireAt.value <= clock
    && (o.leftOpenAt.Some? ==> o.expireAt.value <= o.leftOpenAt.value)
  }

  predicate RowOk(o: Order, clock: int) {
    && o.createdAt <= clock
    && (o.Open() <==> o.leftOpenAt.None?)
    && (o.leftOpenAt.Some? ==> o.createdAt <= o.leftOpenAt.value <= clock)
    && (o.status == Cancelled && o.providerStatus == ORDER_EXPIRED ==> OutlivedExpiry(o, clock))
    && (o.creditedBy != {} ==> o.status == Succeeded)
  }

  predicate SlotsExclusive(orders: map<OrderId, Order>) {
    forall i, j | i in orders && j in orders && i != j && SameSlot(orders[i], orders[j]) ::
      LeftBefore(orders[i], orders[j]) || LeftBefore(orders[j], orders[i])
  }

  predicate GatewayIdsUnique(orders: map<OrderId, Order>) {
    forall i, j | i in orders && j in orders && i != j && orders[i].gatewayOrderId.Some? ::
      orders[i].gatewayOrderId != orders[j].gatewayOrderId
  }

  /** A credit is justified by the bill: same group and amount, not paid before the order existed. */
  predicate CreditOk(e: BillEvent, o: Order) {
    && InGroup(o, Some(e.account), e.channel, e.currency)
    && o.Effective() == e.amount
    && o.createdAt <= e.paidAt
  }

  predicate CreditsOk(orders: map<OrderId, Order>, events: map<EventId, BillEvent>) {
    && (forall id, e | id in orders && e in orders[id].creditedBy :: e in events && CreditOk(events[e], orders[id]))
    && (forall id, e, f | id in orders && e in orders[id].creditedBy && f in orders[id].creditedBy :: e == f)
  }

  predicate MatchOk(orders: map<OrderId, Order>, eid: EventId, e: BillEvent) {
    e.status == Matched ==>
      && e.matchedOrder.Some? && e.matchedOrder.value in orders
      && eid in orders[e.matchedOrder.value].creditedBy
  }

  predicate MatchesOk(orders: map<OrderId, Order>, events: map<EventId, BillEvent>, marking: set<(EventId, OrderId)>) {
    && (forall m | m in marking :: m.1 in orders && m.0 in orders[m.1].creditedBy)
    && (forall eid | eid in events :: MatchOk(orders, eid, events[eid]))
  }

  predicate RowsOk(orders: map<OrderId, Order>, clock: int) {
    forall id | id in orders :: RowOk(orders[id], clock)
  }

  predicate CreatingOk(orders: map<OrderId, Order>, creating: set<OrderId>) {
    forall id | id in creating :: id in orders && orders[id].leftOpenAt.None? && orders[id].creditedBy == {}
  }

  predicate ExpiringOk(orders: map<OrderId, Order>, expiring: set<OrderId>, clock: int) {
    forall id | id in expiring :: id in orders && OutlivedExpiry(orders[id], clock)
  }

  predicate Inv(g: Gateway) {
    && RowsOk(g.orders, g.clock)
    && CreatingOk(g.orders, g.creating)
    && ExpiringOk(g.orders, g.expiring, g.clock)
    && SlotsExclusive(g.orders)
    && GatewayIdsUnique(g.orders)
    && CreditsOk(g.orders, g.events)
    && MatchesOk(g.orders, g.events, g.marking)
  }

  // ---------- writing one existing row ----------

  /** What every write to an existing order leaves alone, and what it may only add to. */
  predicate Evolves(o: Order, o': Order, clock: int) {
    && InGroup(o', o.account, o.channel, o.currency)
    && o'.amount == o.amount && o'.payable == o.payable
    && o'.createdAt == o.createdAt && o'.expireAt == o.expireAt
    && (o'.leftOpenAt == o.leftOpenAt || (o.leftOpenAt.None? && o'.leftOpenAt == Some(clock)))
    && o.creditedBy <= o'.creditedBy
  }

  lemma WriteKeepsSlots(orders: map<OrderId, Order>, id: OrderId, o': Order, clock: int)
    requires SlotsExclusive(orders) && id in orders && Evolves(orders[id], o', clock)
    ensures SlotsExclusive(orders[id := o'])
  {
  }

  lemma WriteKeepsExpiring(orders: map<OrderId, Order>, expiring: set<OrderId>, id: OrderId, o': Order, clock: int)
    requires ExpiringOk(orders, expiring, clock) && id in orders && Evolves(orders[id], o', clock)
    ensures ExpiringOk(orders[id := o'], expiring, clock)
  {
  }

  lemma WriteKeepsMatches(
      orders: map<OrderId, Order>, events: map<EventId, BillEvent>, marking: set<(EventId, OrderId)>,
      id: OrderId, o': Order)
    requires MatchesOk(orders, events, marking) && id in orders && orders[id].creditedBy <= o'.creditedBy
    ensures MatchesOk(orders[id := o'], events, marking)
  {
  }

  /** One row is rewritten; nobody but the row's own creation may still be creating it. */
  lemma WriteKeepsInv(g: Gateway, id: OrderId, o': Order)
    requires Inv(g) && id in g.orders && Evolves(g.orders[id], o', g.clock) && RowOk(o', g.clock)
    requires !GatewayIdTaken(g.orders, id, o'.gatewayOrderId)
    requires forall e | e in o'.creditedBy :: e in g.events && CreditOk(g.events[e], o')
    requires forall e, f | e in o'.creditedBy && f in o'.creditedBy :: e == f
    ensures Inv(g.(orders := g.orders[id := o'], creating := g.creating - {id}))
  {
    WriteKeepsSlots(g.orders, id, o', g.clock);
    WriteKeepsExpiring(g.orders, g.expiring, id, o', g.clock);
    WriteKeepsMatches(g.orders, g.events, g.marking, id, o');
  }

  // ---------- each step ----------

  lemma CreateKeepsSlots(g: Gateway, id: OrderId, o: Order)
    requires RowsOk(g.orders, g.clock) && SlotsExclusive(g.orders) && id !in g.orders && o.createdAt == g.clock
    requires NeedsTail(o.account, o.channel, o.Effective()) ==>
               o.Effective() !in UsedCents(g.orders, ActiveOrders(g.orders, o.account, o.channel, o.currency))
    ensures SlotsExclusive(g.orders[id := o])
  {
  }

  lemma NewRowKeepsCredits(g: Gateway, id: OrderId, o: Order)
    requires MatchesOk(g.orders, g.events, g.marking) && CreditsOk(g.orders, g.events)
    requires id !in g.orders && o.creditedBy == {}
    ensures MatchesOk(g.orders[id := o], g.events, g.marking) && CreditsOk(g.orders[id := o], g.events)
  {
  }

  lemma NewRowKeepsInv(g: Gateway, id: OrderId, o: Order)
    requires Inv(g) && id !in g.orders && RowOk(o, g.clock) && o.createdAt == g.clock
    requires o.creditedBy == {} && o.leftOpenAt.None? && o.gatewayOrderId.None?
    requires SlotsExclusive(g.orders[id := o])
    ensures Inv(g.(orders := g.orders[id := o], creating := g.creating + {id}))
  {
    NewRowKeepsCredits(g, id, o);
  }

  lemma AllocationIsUnused(
      orders: map<OrderId, Order>, account: Option<string>, channel: string, currency: string, base: int)
    requires NeedsTail(account, channel, base) && Allocate(orders, account, channel, currency, base).Some?
    ensures Allocate(orders, account, channel, currency, base).value !in
              UsedCents(orders, ActiveOrders(orders, account, channel, currency))
  {
    FirstFreeIsLeast(UsedCents(orders, ActiveOrders(orders, account, channel, currency)), base, 0);
  }

  lemma CreateKeepsInv(g: Gateway, step: Step, policy: AmountPolicy)
    requires Inv(g) && step.Create? && Enabled(g, step)
    ensures Inv(Effect(g, step, policy))
  {
    var Create(id, account, channel, currency, amount, ttl, route) := step;
    var slot := Allocate(g.orders, account, channel, currency, amount);
    if slot.Some? {
      var o := NewOrder(g.clock, account, channel, currency, amount, slot.value, ttl, route);
      if NeedsTail(account, channel, amount) {
        AllocationIsUnused(g.orders, account, channel, currency, amount);
      }
      CreateKeepsSlots(g, id, o);
      NewRowKeepsInv(g, id, o);
    }
  }

  lemma ConfirmKeepsInv(g: Gateway, step: Step, policy: AmountPolicy)
    requires Inv(g) && step.ConfirmCreate? && Enabled(g, step)
    ensures Inv(Effect(g, step, policy))
  {
    var o := g.orders[step.id];
    assert RowOk(o, g.clock);
    WriteKeepsInv(g, step.id, Effect(g, step, policy).orders[step.id]);
  }

  /** One accepted notification, whoever sent it, as a change of its row. */
  lemma ApplyEvolves(o: Order, n: Notification, clock: int)
    requires RowOk(o, clock)
    requires n.providerStatus == ORDER_EXPIRED ==> OutlivedExpiry(o, clock)
    requires n.bill.Some? ==> n.succeeds
    ensures Evolves(o, Apply(o, n, clock), clock)
    ensures RowOk(Apply(o, n, clock), clock)
  {
  }

  lemma NotifyKeepsInv(g: Gateway, id: OrderId, n: Notification, policy: AmountPolicy)
    requires Inv(g) && Settled(g, id) && n.bill.None?
    requires n.providerStatus == ORDER_EXPIRED ==> OutlivedExpiry(g.orders[id], g.clock)
    ensures Inv(g.(orders := ApplyToTable(g.orders, id, n, policy, g.clock)))
  {
    if ApplyError(g.orders, id, n, policy).None? {
      var o := g.orders[id];
      assert RowOk(o, g.clock);
      ApplyEvolves(o, n, g.clock);
      WriteKeepsInv(g, id, Apply(o, n, g.clock));
      assert g.creating - {id} == g.creating;
    }
  }

  lemma MatchKeepsInv(g: Gateway, step: Step, policy: AmountPolicy)
    requires Inv(g) && step.Match? && Enabled(g, step)
    ensures Inv(Effect(g, step, policy))
  {
    var Match(eid, id, hits, window) := step;
    var o, n := g.orders[id], BillNotification(eid, g.events[eid]);
    if ApplyError(g.orders, id, n, policy).None? {
      assert RowOk(o, g.clock);
      ApplyEvolves(o, n, g.clock);
      assert o.creditedBy == {};
      WriteKeepsInv(g, id, Apply(o, n, g.clock));
      assert g.creating - {id} == g.creating;
    }
  }

  /** An event row is added or changes its outcome only. */
  lemma EventKeepsInv(g: Gateway, eid: EventId, e': BillEvent, marking: set<(EventId, OrderId)>)
    requires Inv(g) && marking <= g.marking && MatchOk(g.orders, eid, e')
    requires eid in g.events ==> e' == g.events[eid].(status := e'.status, matchedOrder := e'.matchedOrder)
    ensures Inv(g.(events := g.events[eid := e'], marking := marking))
  {
  }

  /** Every step keeps the invariant. */
  lemma NextKeepsInv(g: Gateway, step: Step, policy: AmountPolicy)
    requires Inv(g)
    ensures Inv(Next(g, step, policy))
  {
    if Enabled(g, step) {
      match step {
        case Tick(_) =>
        case Create(_, _, _, _, _, _, _) => CreateKeepsInv(g, step, policy);
        case ConfirmCreate(_, _) => ConfirmKeepsInv(g, step, policy);
        case Notify(id, n) => NotifyKeepsInv(g, id, n, policy);
        case ReadOverdue(id) =>
          assert RowOk(g.orders[id], g.clock);
        case WriteExpired(id, seen) =>
          NotifyKeepsInv(g, id, ExpiredNotification(g.orders[id]).(gatewayOrderId := seen), policy);
        case Ingest(eid, bill) => EventKeepsInv(g, eid, bill, g.marking);
        case Match(_, _, _, _) => MatchKeepsInv(g, step, policy);
        case Mark(eid, id) => EventKeepsInv(g, eid, Effect(g, step, policy).events[eid], g.marking - {(eid, id)});
        case GiveUp(eid) => EventKeepsInv(g, eid, Effect(g, step, policy).events[eid], g.marking);
      }
    }
  }

  lemma {:induction false} RunKeepsInv(g: Gateway, steps: seq<Step>, policy: AmountPolicy)
    requires Inv(g)
    ensures Inv(Run(g, steps, policy))
    decreases |steps|
  {
    if steps != [] {
      NextKeepsInv(g, steps[0], policy);
      RunKeepsInv(Next(g, steps[0], policy), steps[1..], policy);
    }
  }
}
