/**
 Expiry of overdue orders (expirePaymentOrderIfNeeded and closeExpiredPaymentOrders in
 lib/orders/service.ts), with the provider's answers as inputs.
 */
module Expiry {
  import opened Options
  import opened PaymentStatuses
  import opened Orders
  import opened BillMatching

  /** What `queryPayment` and `closePayment` do when asked; Absent means the provider lacks the operation. */
  datatype Answer = Absent | Threw | Said(n: Notification)

  datatype Provider = Provider(query: Answer, close: Answer)

  datatype Expired = Expired(orders: map<OrderId, Order>, error: Option<Error>)

  predicate Overdue(o: Order, now: int) {
    o.Open() && o.expireAt.Some? && o.expireAt.value <= now
  }

  function Applied(orders: map<OrderId, Order>, id: OrderId, n: Notification, policy: AmountPolicy, now: int): Expired {
    Expired(ApplyToTable(orders, id, n, policy, now), ApplyError(orders, id, n, policy))
  }

  /** The last resort: the gateway's own ORDER_EXPIRED notification, whose rejection propagates. */
  function ForceExpire(orders: map<OrderId, Order>, id: OrderId, policy: AmountPolicy, now: int): Expired
    requires id in orders
  {
    Applied(orders, id, ExpiredNotification(orders[id]), policy, now)
  }

  function AfterQuery(orders: map<OrderId, Order>, id: OrderId, query: Answer, policy: AmountPolicy, now: int):
    map<OrderId, Order>
  {
    if query.Said? then ApplyToTable(orders, id, query.n, policy, now) else orders
  }

  function ExpireOne(orders: map<OrderId, Order>, id: OrderId, provider: Provider, policy: AmountPolicy, now: int): Expired
    requires id in orders
  {
    if !Overdue(orders[id], now) then Expired(orders, None)
    else
      var asked := AfterQuery(orders, id, provider.query, policy, now);
      if !Overdue(asked[id], now) then Expired(asked, None)
      else match provider.close
        case Absent => ForceExpire(asked, id, policy, now)
        case Threw => ForceExpire(asked, id, policy, now)
        case Said(n) =>
          var closed := Applied(asked, id, n, policy, now);
          if closed.error.Some? then ForceExpire(asked, id, policy, now) else closed
  }

  /** An overdue order that its provider knows to be paid is not expired: the query's success settles it. */
  lemma PaidOverdueOrderSucceeds(
      orders: map<OrderId, Order>, id: OrderId, provider: Provider, policy: AmountPolicy, now: int)
    requires id in orders && IsOpen(orders[id].status) && orders[id].expireAt.Some? && orders[id].expireAt.value <= now
    requires provider.query.Said? && provider.query.n.succeeds && ApplyError(orders, id, provider.query.n, policy).None?
    ensures var e := ExpireOne(orders, id, provider, policy, now);
            && e.error.None? && e.orders == orders[id := e.orders[id]] && e.orders[id].status == Succeeded
            && (provider.query.n.paidAt.Some? ==> e.orders[id].paidAt == provider.query.n.paidAt)
  {
  }

  /** One that its provider does not know to be paid and closes is cancelled in the provider's words, not the gateway's. */
  lemma ClosedOverdueOrderIsCancelled(
      orders: map<OrderId, Order>, id: OrderId, provider: Provider, policy: AmountPolicy, now: int)
    requires id in orders && IsOpen(orders[id].status) && orders[id].expireAt.Some? && orders[id].expireAt.value <= now
    requires !provider.query.Said?
    requires provider.close.Said? && !provider.close.n.succeeds && Mentions(provider.close.n.providerStatus, "CLOSE")
    requires ApplyError(orders, id, provider.close.n, policy).None?
    ensures var e := ExpireOne(orders, id, provider, policy, now);
            && e.error.None? && e.orders == orders[id := e.orders[id]] && e.orders[id].status == Cancelled
            && e.orders[id].providerStatus == provider.close.n.providerStatus
  {
    TextDecides(orders[id].status, provider.close.n.providerStatus);
  }

  /** An order that is not overdue is not even asked about. */
  lemma OtherOrdersAreLeftAlone(
      orders: map<OrderId, Order>, id: OrderId, provider: Provider, policy: AmountPolicy, now: int)
    requires id in orders && (IsTerminal(orders[id].status) || orders[id].expireAt.None? || now < orders[id].expireAt.value)
    ensures ExpireOne(orders, id, provider, policy, now) == Expired(orders, None)
  {
  }

  datatype Sweep = Sweep(orders: map<OrderId, Order>, cancelled: nat, succeeded: nat, failed: nat)

  function Tally(s: Sweep, id: OrderId, e: Expired): Sweep
    requires id in e.orders
  {
    if e.error.Some? then s.(orders := e.orders, failed := s.failed + 1)
    else if e.orders[id].status == Succeeded then s.(orders := e.orders, succeeded := s.succeeded + 1)
    else if e.orders[id].status == Cancelled then s.(orders := e.orders, cancelled := s.cancelled + 1)
    else s.(orders := e.orders)
  }

  function SweepOne(s: Sweep, id: OrderId, provider: Provider, policy: AmountPolicy, now: int): (r: Sweep)
    requires id in s.orders
    ensures r.orders.Keys == s.orders.Keys
  {
    Tally(s, id, ExpireOne(s.orders, id, provider, policy, now))
  }

  function SweepAll(
      s: Sweep, batch: seq<OrderId>, providers: OrderId -> Provider, policy: AmountPolicy, now: int): (r: Sweep)
    requires forall id | id in batch :: id in s.orders
    ensures r.orders.Keys == s.orders.Keys
    decreases |batch|
  {
    if batch == [] then s
    else SweepAll(SweepOne(s, batch[0], providers(batch[0]), policy, now), batch[1..], providers, policy, now)
  }

  lemma {:induction false} SweepAllAppends(
      s: Sweep, batch: seq<OrderId>, id: OrderId, providers: OrderId -> Provider, policy: AmountPolicy, now: int)
    requires forall k | k in batch :: k in s.orders
    requires id in s.orders
    ensures SweepAll(s, batch + [id], providers, policy, now)
         == SweepOne(SweepAll(s, batch, providers, policy, now), id, providers(id), policy, now)
    decreases |batch|
  {
    if batch == [] {
      assert batch + [id] == [id] && [id][1..] == [];
    } else {
      assert (batch + [id])[1..] == batch[1..] + [id];
      SweepAllAppends(SweepOne(s, batch[0], providers(batch[0]), policy, now), batch[1..], id, providers, policy, now);
    }
  }

  // ---------- bill-capture orders ----------

  /** The bill-capture provider: it can only say "still waiting", quoting `order.amount`, and cannot close. */
  predicate IsCtfProvider(provider: Provider, o: Order) {
    && provider.close.Absent?
    && (provider.query.Threw?
        || provider.query == Said(Notification(
             o.gatewayOrderId, "CTF_WAIT_BILL_CAPTURE", Some(Cents(o.amount)), None, false, false, None)))
  }

  lemma MatchedLetter(text: string, word: string, at: nat, k: nat)
    requires MatchesAt(text, word, at) && k < |word|
    ensures AsciiUpper(text[at + k]) == word[k]
  {
  }

  lemma LacksLetter(text: string, word: string, k: nat)
    requires k < |word| && forall i | 0 <= i < |text| :: AsciiUpper(text[i]) != word[k]
    ensures !Mentions(text, word)
  {
    forall at: nat | at <= |text| ensures !MatchesAt(text, word, at) {
      if MatchesAt(text, word, at) {
        MatchedLetter(text, word, at, k);
      }
    }
  }

  /** Its status text asks for nothing beyond PROCESSING. */
  lemma WaitingAsksForProcessing()
    ensures Target("CTF_WAIT_BILL_CAPTURE", false) == Processing
  {
    var text := "CTF_WAIT_BILL_CAPTURE";
    LacksLetter(text, "CLOSE", 2);
    LacksLetter(text, "CANCEL", 2);
    LacksLetter(text, "EXPIRE", 1);
    LacksLetter(text, "ERROR", 3);
    forall at: nat | at <= |text| ensures !MatchesAt(text, "FAIL", at) {
      if MatchesAt(text, "FAIL", at) {
        MatchedLetter(text, "FAIL", at, 0);
        MatchedLetter(text, "FAIL", at, 1);
      }
    }
  }

  predicate TinyTail(o: Order) {
    -1 <= o.Effective() - o.amount <= 1
  }

  /** A notification quoting the order's own gateway id and its `amount` passes iff the tail is tiny. */
  lemma OwnNotification(orders: map<OrderId, Order>, id: OrderId, n: Notification, policy: AmountPolicy, now: int)
    requires id in orders && GatewayIdsUnique(orders)
    requires n.gatewayOrderId == orders[id].gatewayOrderId && n.amount == Some(Cents(orders[id].amount)) && !n.ctfEvidence
    ensures ApplyError(orders, id, n, policy) == if TinyTail(orders[id]) then None else Some(AmountMismatch)
    ensures GatewayIdsUnique(ApplyToTable(orders, id, n, policy, now))
  {
  }

  /**
   An overdue capture order is cancelled by its expiry check iff its tail is at most one cent.  With a
   longer tail the check throws and the order stays open, keeping its amount occupied.
   */
  lemma CtfExpiry(orders: map<OrderId, Order>, id: OrderId, provider: Provider, policy: AmountPolicy, now: int)
    requires id in orders && GatewayIdsUnique(orders)
    requires Overdue(orders[id], now) && IsCtfProvider(provider, orders[id])
    ensures var e := ExpireOne(orders, id, provider, policy, now);
            && e.orders.Keys == orders.Keys
            && GatewayIdsUnique(e.orders)
            && (forall k | k in orders && k != id :: e.orders[k] == orders[k])
            && if TinyTail(orders[id])
               then e.error.None? && e.orders[id].status == Cancelled && e.orders[id].providerStatus == ORDER_EXPIRED
               else e.error == Some(AmountMismatch) && e.orders == orders
  {
    WaitingAsksForProcessing();
    ExpiryIsClosing();
    var o, asked := orders[id], AfterQuery(orders, id, provider.query, policy, now);
    if provider.query.Said? {
      OwnNotification(orders, id, provider.query.n, policy, now);
      ResolveIsJoin(o.status, provider.query.n.providerStatus, false);
    }
    assert asked[id] == o || asked[id] == Apply(o, provider.query.n, now);
    assert Overdue(asked[id], now) && asked.Keys == orders.Keys;
    OwnNotification(asked, id, ExpiredNotification(asked[id]), policy, now);
  }

  function TinyTails(orders: map<OrderId, Order>, batch: seq<OrderId>): nat
    requires forall id | id in batch :: id in orders
  {
    if batch == [] then 0 else (if TinyTail(orders[batch[0]]) then 1 else 0) + TinyTails(orders, batch[1..])
  }

  predicate CtfBatch(orders: map<OrderId, Order>, batch: seq<OrderId>, providers: OrderId -> Provider, now: int) {
    && (forall id | id in batch ::
          id in orders && Overdue(orders[id], now) && IsCtfProvider(providers(id), orders[id]))
    && (forall i, j | 0 <= i < j < |batch| :: batch[i] != batch[j])
  }

  /**
   The worker's pass over capture orders: exactly those with tiny tails are cancelled, no other row changes, and the
   report counts the others as failed.
   */
  lemma {:induction false} CtfSweep(
      s: Sweep, batch: seq<OrderId>, providers: OrderId -> Provider, policy: AmountPolicy, now: int)
    requires CtfBatch(s.orders, batch, providers, now) && GatewayIdsUnique(s.orders)
    ensures var s' := SweepAll(s, batch, providers, policy, now);
            && s'.cancelled == s.cancelled + TinyTails(s.orders, batch)
            && s'.failed == s.failed + |batch| - TinyTails(s.orders, batch)
            && s'.succeeded == s.succeeded
    ensures forall id | id in s.orders ::
              SweptRow(s.orders[id], SweepAll(s, batch, providers, policy, now).orders[id], id in batch)
    decreases |batch|
  {
    if batch != [] {
      var id, rest := batch[0], batch[1..];
      var e := ExpireOne(s.orders, id, providers(id), policy, now);
      CtfExpiry(s.orders, id, providers(id), policy, now);
      assert forall k | k in rest :: k in batch && k != id;
      CtfSweep(Tally(s, id, e), rest, providers, policy, now);
      SameTinyTails(s.orders, e.orders, rest);
      SweptNext(s.orders, e.orders, SweepAll(Tally(s, id, e), rest, providers, policy, now).orders, batch);
    }
  }

  lemma SweptNext(
      before: map<OrderId, Order>, between: map<OrderId, Order>, after: map<OrderId, Order>, batch: seq<OrderId>)
    requires batch != [] && batch[0] !in batch[1..] && before.Keys == between.Keys == after.Keys && batch[0] in before
    requires SweptRow(before[batch[0]], between[batch[0]], true)
    requires forall k | k in before && k != batch[0] :: between[k] == before[k]
    requires forall k | k in before :: SweptRow(between[k], after[k], k in batch[1..])
    ensures forall k | k in before :: SweptRow(before[k], after[k], k in batch)
  {
    assert batch == [batch[0]] + batch[1..];
  }

  /** A selected order with a tiny tail is cancelled as expired; every other row stays as it is. */
  predicate SweptRow(before: Order, after: Order, selected: bool) {
    if selected && TinyTail(before) then after.status == Cancelled && after.providerStatus == ORDER_EXPIRED
    else after == before
  }

  lemma {:induction false} SameTinyTails(a: map<OrderId, Order>, b: map<OrderId, Order>, batch: seq<OrderId>)
    requires forall id | id in batch :: id in a && id in b && a[id] == b[id]
    ensures TinyTails(a, batch) == TinyTails(b, batch)
  {
    if batch != [] {
      assert batch[0] in batch;
      SameTinyTails(a, b, batch[1..]);
    }
  }

  // ---------- what a sweep reports ----------

  /** The orders of a batch that end in a status. */
  function EndedIn(orders: map<OrderId, Order>, batch: seq<OrderId>, status: PaymentStatus): set<OrderId> {
    set id | id in batch && id in orders && orders[id].status == status
  }

  lemma ApplyTouchesOneRow(orders: map<OrderId, Order>, id: OrderId, n: Notification, policy: AmountPolicy, now: int)
    requires id in orders
    ensures var after := ApplyToTable(orders, id, n, policy, now);
            && after.Keys == orders.Keys && (forall k | k in orders && k != id :: after[k] == orders[k])
            && (ApplyError(orders, id, n, policy).Some? ==> after == orders)
  {
  }

  predicate OnlyRow(orders: map<OrderId, Order>, after: map<OrderId, Order>, id: OrderId) {
    id in orders && after.Keys == orders.Keys && forall k | k in orders && k != id :: after[k] == orders[k]
  }

  lemma AppliedEnds(orders: map<OrderId, Order>, id: OrderId, n: Notification, policy: AmountPolicy, now: int)
    requires id in orders
    ensures var e := Applied(orders, id, n, policy, now);
            OnlyRow(orders, e.orders, id) && (e.error.Some? ==> e.orders == orders)
  {
    ApplyTouchesOneRow(orders, id, n, policy, now);
  }

  /** The expiry check of one order changes no other row, and it throws only if it leaves the order open. */
  lemma ExpireOneEnds(orders: map<OrderId, Order>, id: OrderId, provider: Provider, policy: AmountPolicy, now: int)
    requires id in orders
    ensures var e := ExpireOne(orders, id, provider, policy, now);
            OnlyRow(orders, e.orders, id) && (e.error.Some? ==> e.orders[id].Open())
  {
    if provider.query.Said? {
      ApplyTouchesOneRow(orders, id, provider.query.n, policy, now);
    }
    var asked := AfterQuery(orders, id, provider.query, policy, now);
    assert OnlyRow(orders, asked, id);
    if provider.close.Said? {
      AppliedEnds(asked, id, provider.close.n, policy, now);
    }
    AppliedEnds(asked, id, ExpiredNotification(asked[id]), policy, now);
  }

  lemma SweepOneCounts(s: Sweep, id: OrderId, provider: Provider, policy: AmountPolicy, now: int)
    requires id in s.orders
    ensures var v := SweepOne(s, id, provider, policy, now);
            && v.orders.Keys == s.orders.Keys && (forall k | k in s.orders && k != id :: v.orders[k] == s.orders[k])
            && v.cancelled == s.cancelled + (if v.orders[id].status == Cancelled then 1 else 0)
            && v.succeeded == s.succeeded + (if v.orders[id].status == Succeeded then 1 else 0)
  {
    ExpireOneEnds(s.orders, id, provider, policy, now);
  }

  lemma {:induction false} SweepTouchesBatchOnly(
      s: Sweep, batch: seq<OrderId>, providers: OrderId -> Provider, policy: AmountPolicy, now: int, id: OrderId)
    requires (forall k | k in batch :: k in s.orders) && id in s.orders && id !in batch
    ensures SweepAll(s, batch, providers, policy, now).orders[id] == s.orders[id]
    decreases |batch|
  {
    if batch != [] {
      SweepOneCounts(s, batch[0], providers(batch[0]), policy, now);
      SweepTouchesBatchOnly(SweepOne(s, batch[0], providers(batch[0]), policy, now), batch[1..], providers, policy, now, id);
    }
  }

  /** What a sweep reports as cancelled and as succeeded are the numbers of its orders that ended so. */
  lemma {:induction false} SweepCountsEndings(
      s: Sweep, batch: seq<OrderId>, providers: OrderId -> Provider, policy: AmountPolicy, now: int)
    requires forall id | id in batch :: id in s.orders
    requires forall i, j | 0 <= i < j < |batch| :: batch[i] != batch[j]
    ensures var v := SweepAll(s, batch, providers, policy, now);
            && v.cancelled == s.cancelled + |EndedIn(v.orders, batch, Cancelled)|
            && v.succeeded == s.succeeded + |EndedIn(v.orders, batch, Succeeded)|
    decreases |batch|
  {
    var v := SweepAll(s, batch, providers, policy, now);
    if batch == [] {
      assert EndedIn(v.orders, batch, Cancelled) == {} == EndedIn(v.orders, batch, Succeeded);
    } else {
      var id, rest := batch[0], batch[1..];
      SweepOneCounts(s, id, providers(id), policy, now);
      assert id !in rest;
      SweepCountsEndings(SweepOne(s, id, providers(id), policy, now), rest, providers, policy, now);
      SweepTouchesBatchOnly(SweepOne(s, id, providers(id), policy, now), rest, providers, policy, now, id);
      EndedPush(v.orders, batch, Cancelled);
      EndedPush(v.orders, batch, Succeeded);
    }
  }

  lemma EndedPush(orders: map<OrderId, Order>, batch: seq<OrderId>, status: PaymentStatus)
    requires batch != [] && batch[0] !in batch[1..] && batch[0] in orders
    ensures |EndedIn(orders, batch, status)|
         == |EndedIn(orders, batch[1..], status)| + if orders[batch[0]].status == status then 1 else 0
  {
    var rest := EndedIn(orders, batch[1..], status);
    assert EndedIn(orders, batch, status) == if orders[batch[0]].status == status then rest + {batch[0]} else rest;
  }
}
