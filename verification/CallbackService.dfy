/** The callback dispatcher and its worker as written (lib/callbacks/service.ts), over the order table. */
module CallbackServices {
  import opened Options
  import opened PaymentStatuses
  import opened Orders
  import opened Callbacks
  import opened CallbackQueues
  import opened Batches
  import Sorting

  class CallbackService {
    const policy: AmountPolicy
    const cfg: Config
    var clock: int
    var orders: map<OrderId, Order>
    var attempts: map<OrderId, seq<Attempt>>

    constructor (policy: AmountPolicy, cfg: Config, clock: int, orders: map<OrderId, Order>)
      ensures Valid() && this.policy == policy && this.cfg == cfg && this.clock == clock && this.orders == orders
      ensures forall id | id in orders :: attempts[id] == []
    {
      this.policy, this.cfg, this.clock, this.orders := policy, cfg, clock, orders;
      attempts := map id | id in orders :: [];
    }

    ghost predicate Valid()
      reads this
    {
      attempts.Keys == orders.Keys
    }

    /** The compare-and-set update; it reports whether exactly one row matched. */
    method ClaimMerchantCallbackDispatch(id: OrderId, d: Dispatch) returns (claimed: bool)
      requires Valid()
      modifies this`orders
      ensures Valid()
      ensures claimed <==> id in old(orders) && Claims(old(orders)[id], d, cfg)
      ensures orders == if claimed then old(orders)[id := ClaimRow(old(orders)[id], d.now, cfg)] else old(orders)
    {
      if id !in orders || !Claims(orders[id], d, cfg) {
        return false;
      }
      orders := orders[id := orders[id].(callbackStatus := CallbackProcessing, nextCallbackAt := Some(d.now + cfg.leaseMs))];
      return true;
    }

    /** dispatchMerchantCallback; a missing order makes the source throw. */
    method DispatchMerchantCallback(id: OrderId, force: bool, reply: Reply) returns (result: DispatchResult)
      requires Valid() && id in orders
      modifies this`orders, this`attempts
      ensures Valid()
      ensures var w := Undisturbed(old(orders)[id], old(attempts)[id], force, reply, clock, cfg);
              orders == old(orders)[id := w.o] && attempts == old(attempts)[id := w.log]
      ensures result == ResultOf(old(orders)[id], old(attempts)[id], force, reply, clock, cfg)
      ensures result.Skipped? <==> |attempts[id]| == |old(attempts)[id]|
      ensures result.Sent? ==> attempts[id] == old(attempts)[id] + [Attempt(result.delivered, old(orders)[id].status)]
    {
      var order := orders[id];
      assert orders == orders[id := order] && attempts == attempts[id := attempts[id]];
      var reading := ReadOrder(order, force);
      if reading.NoTarget? {
        orders := orders[id := Unrequired(order)];
        return Skipped;
      }
      if reading.Skip? {
        return Skipped;
      }
      var claimed := ClaimMerchantCallbackDispatch(id, Dispatch(order, force, clock, false));
      if !claimed {
        return Skipped;
      }
      if order.route.easyPay.Some? && (order.status != Succeeded || !reply.credential) {
        orders := orders[id := Unrequired(orders[id])];
        return Skipped;
      }
      CloseDispatch(id, order, reply);
      return Sent(reply.delivered);
    }

    /** The early returns of dispatchMerchantCallback. */
    method ReadOrder(order: Order, force: bool) returns (reading: Reading)
      ensures reading == Read(order, force, clock, cfg)
    {
      if !HasAddress(order.route) {
        return NoTarget;
      }
      if !force && order.callbackStatus.Delivered? {
        return Skip;
      }
      if !IsTerminal(order.status) {
        return Skip;
      }
      if !force && order.callbackAttemptsCount >= cfg.maxAttempts {
        return Skip;
      }
      if order.callbackStatus.CallbackProcessing? && order.nextCallbackAt.Some? && order.nextCallbackAt.value > clock {
        return Skip;
      }
      if !force && !IsWaiting(order.callbackStatus) {
        return Skip;
      }
      return Proceed;
    }

    /** The closing transaction: one attempt row and the order row. */
    method CloseDispatch(id: OrderId, seen: Order, reply: Reply)
      requires Valid() && id in orders
      modifies this`orders, this`attempts
      ensures Valid()
      ensures orders == old(orders)[id := FinishRow(old(orders)[id], seen, reply.delivered, clock + reply.elapsed, cfg)]
      ensures attempts == old(attempts)[id := old(attempts)[id] + [Attempt(reply.delivered, seen.status)]]
    {
      var order, completedAt := orders[id], clock + reply.elapsed;
      attempts := attempts[id := attempts[id] + [Attempt(reply.delivered, seen.status)]];
      var next := if reply.delivered then None
                  else if seen.callbackAttemptsCount + 1 >= cfg.maxAttempts then None
                  else Some(completedAt + cfg.retryMs);
      orders := orders[id := order.(
        callbackStatus := if reply.delivered then Delivered else CallbackFailed,
        callbackAttemptsCount := order.callbackAttemptsCount + 1,
        nextCallbackAt := next)];
    }

    /** The order of the due query; `tie` is how the database lists orders with equal keys. */
    function QueueOrder(tie: OrderId -> int): (OrderId, OrderId) -> bool
      reads this
    {
      ByKey(QueueKeys(orders), tie)
    }

    /** The due query: `where`, `orderBy` and `take`. */
    method ListDueMerchantCallbackOrderIds(limit: nat, tie: OrderId -> int) returns (ids: seq<OrderId>)
      requires TellsApart(tie)
      ensures IsBatch(ids, DueIds(orders, clock, cfg), QueueOrder(tie), limit)
      ensures LongestWaitFirst(orders, ids, DueIds(orders, clock, cfg))
      ensures forall id | id in ids :: id in orders && Due(orders[id], clock, cfg)
      ensures forall k, l | 0 <= k < l < |ids| :: ids[k] != ids[l]
    {
      var due, left := [], orders.Keys;
      while left != {}
        invariant left <= orders.Keys
        invariant forall k | 0 <= k < |due| :: due[k] in orders && due[k] !in left && Due(orders[due[k]], clock, cfg)
        invariant forall k, l | 0 <= k < l < |due| :: due[k] != due[l]
        invariant forall id | id in orders && id !in left && Due(orders[id], clock, cfg) :: id in due
        decreases left
      {
        var id :| id in left;
        left := left - {id};
        if Due(orders[id], clock, cfg) {
          due := due + [id];
        }
      }
      assert Elements(due) == DueIds(orders, clock, cfg);
      ByKeyIsTotal(QueueKeys(orders), tie);
      SortedTakeIsBatch(due, DueIds(orders, clock, cfg), QueueOrder(tie), limit);
      ids := Take(Sorting.Sort(due, QueueOrder(tie)), limit);
      BatchIsLongestWaitFirst(orders, ids, DueIds(orders, clock, cfg), tie, limit);
      BatchIsDueOnce(ids, DueIds(orders, clock, cfg), QueueOrder(tie), limit);
    }

    /** The worker: every selected order is dispatched once, in isolation from the others. */
    method RunDueMerchantCallbackDispatches(limit: nat, tie: OrderId -> int, replies: OrderId -> Reply)
      returns (selected: nat, delivered: nat, failed: nat, skipped: nat, ghost ids: seq<OrderId>)
      requires Valid() && TellsApart(tie)
      modifies this`orders, this`attempts
      ensures Valid()
      ensures selected == |ids| == delivered + failed + skipped
      ensures Tallied(old(orders), old(attempts), replies, clock, cfg, ids, delivered, failed, skipped)
      ensures IsBatch(ids, DueIds(old(orders), clock, cfg), old(QueueOrder(tie)), limit)
      ensures LongestWaitFirst(old(orders), ids, DueIds(old(orders), clock, cfg))
      ensures Dispatched(old(orders), old(attempts), orders, attempts, ids, replies, clock, cfg)
    {
      var list := ListDueMerchantCallbackOrderIds(limit, tie);
      selected, delivered, failed, skipped, ids := |list|, 0, 0, 0, list;
      for i := 0 to |list|
        invariant Valid() && delivered + failed + skipped == i
        invariant Tallied(old(orders), old(attempts), replies, clock, cfg, list[..i], delivered, failed, skipped)
        invariant Dispatched(old(orders), old(attempts), orders, attempts, list[..i], replies, clock, cfg)
      {
        DispatchedNext(old(orders), old(attempts), orders, attempts, list, i, replies, clock, cfg);
        TalliedNext(old(orders), old(attempts), replies, clock, cfg, list, i, delivered, failed, skipped);
        var result := DispatchMerchantCallback(list[i], false, replies(list[i]));
        if result.Skipped? {
          skipped := skipped + 1;
        } else if result.delivered {
          delivered := delivered + 1;
        } else {
          failed := failed + 1;
        }
      }
      assert list[..|list|] == list;
    }
  }
}
