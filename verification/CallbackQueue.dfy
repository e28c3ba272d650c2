/**
 The queue of waiting callbacks (listDueMerchantCallbackOrderIds in lib/callbacks/service.ts): which due orders a worker
 takes into its batch, and how long an order can be passed over.
 */
module CallbackQueues {
  import opened Options
  import opened Sets
  import opened Sums
  import opened Orders
  import opened Batches
  import opened Callbacks

  type Table = map<OrderId, Order>

  // ---------- one pass ----------

  function DueIds(orders: Table, now: int, cfg: Config): set<OrderId> {
    set id | id in orders && Due(orders[id], now, cfg)
  }

  /** `orderBy: [{ nextCallbackAt: "asc" }, { createdAt: "asc" }]`; null comes last. */
  function QueueKey(o: Order): SortKey {
    SortKey(o.nextCallbackAt, o.createdAt)
  }

  function QueueKeys(orders: Table): OrderId -> SortKey {
    id => if id in orders then QueueKey(orders[id]) else SortKey(None, 0)
  }

  /** No due order that is left out has waited longer than one that is selected. */
  predicate LongestWaitFirst(orders: Table, ids: seq<OrderId>, due: set<OrderId>) {
    forall x, y | x in ids && y in due && y !in ids && y in orders && orders[y].nextCallbackAt.Some? ::
      && x in orders && orders[x].nextCallbackAt.Some?
      && (orders[x].nextCallbackAt.value < orders[y].nextCallbackAt.value
          || (orders[x].nextCallbackAt == orders[y].nextCallbackAt && orders[x].createdAt <= orders[y].createdAt))
  }

  lemma BatchIsLongestWaitFirst(orders: Table, ids: seq<OrderId>, due: set<OrderId>, tie: OrderId -> int, limit: nat)
    requires due <= orders.Keys && IsBatch(ids, due, ByKey(QueueKeys(orders), tie), limit)
    ensures LongestWaitFirst(orders, ids, due)
  {
    forall x, y | x in ids && y in due && y !in ids && orders[y].nextCallbackAt.Some?
      ensures x in orders && orders[x].nextCallbackAt.Some?
      ensures orders[x].nextCallbackAt.value < orders[y].nextCallbackAt.value
              || (orders[x].nextCallbackAt == orders[y].nextCallbackAt && orders[x].createdAt <= orders[y].createdAt) {
      assert x in Elements(ids);
      assert ByKey(QueueKeys(orders), tie)(x, y);
    }
  }

  /** The listed orders have been dispatched once each, in isolation; all others are as they were. */
  predicate Dispatched(
      orders: Table, attempts: map<OrderId, seq<Attempt>>, orders': Table, attempts': map<OrderId, seq<Attempt>>,
      ids: seq<OrderId>, replies: OrderId -> Reply, now: int, cfg: Config)
  {
    && orders'.Keys == orders.Keys && attempts.Keys == orders.Keys && attempts'.Keys == orders.Keys
    && forall id | id in orders ::
         Outcome(orders'[id], attempts'[id])
         == if id in ids then Undisturbed(orders[id], attempts[id], false, replies(id), now, cfg)
            else Outcome(orders[id], attempts[id])
  }

  datatype DispatchResult = Skipped | Sent(delivered: bool)

  /** What a dispatch reports: whether it wrote an attempt, and how that ended. */
  function ResultOf(o: Order, log: seq<Attempt>, force: bool, reply: Reply, now: int, cfg: Config): DispatchResult {
    var told := Undisturbed(o, log, force, reply, now, cfg).log;
    if |told| == |log| then Skipped else Sent(told[|told| - 1].delivered)
  }

  /** One for each order whose dispatch ends like this. */
  function Ending(
      orders: Table, attempts: map<OrderId, seq<Attempt>>, replies: OrderId -> Reply, now: int, cfg: Config,
      result: DispatchResult): OrderId -> int
  {
    id =>
      if id in orders && id in attempts && ResultOf(orders[id], attempts[id], false, replies(id), now, cfg) == result
      then 1 else 0
  }

  /** The counters are the numbers of orders whose dispatch was answered, refused and skipped. */
  predicate Tallied(
      orders: Table, attempts: map<OrderId, seq<Attempt>>, replies: OrderId -> Reply, now: int, cfg: Config,
      ids: seq<OrderId>, delivered: nat, failed: nat, skipped: nat)
  {
    && delivered == SumBy(ids, Ending(orders, attempts, replies, now, cfg, Sent(true)))
    && failed == SumBy(ids, Ending(orders, attempts, replies, now, cfg, Sent(false)))
    && skipped == SumBy(ids, Ending(orders, attempts, replies, now, cfg, Skipped))
  }

  lemma TalliedNext(
      orders: Table, attempts: map<OrderId, seq<Attempt>>, replies: OrderId -> Reply, now: int, cfg: Config,
      ids: seq<OrderId>, i: nat, delivered: nat, failed: nat, skipped: nat)
    requires i < |ids| && ids[i] in orders && ids[i] in attempts
    requires Tallied(orders, attempts, replies, now, cfg, ids[..i], delivered, failed, skipped)
    ensures var result := ResultOf(orders[ids[i]], attempts[ids[i]], false, replies(ids[i]), now, cfg);
            Tallied(orders, attempts, replies, now, cfg, ids[..i + 1],
                    delivered + (if result == Sent(true) then 1 else 0), failed + (if result == Sent(false) then 1 else 0),
                    skipped + (if result == Skipped then 1 else 0))
  {
    assert ids[..i + 1] == ids[..i] + [ids[i]];
    SumPush(ids[..i], ids[i], Ending(orders, attempts, replies, now, cfg, Sent(true)));
    SumPush(ids[..i], ids[i], Ending(orders, attempts, replies, now, cfg, Sent(false)));
    SumPush(ids[..i], ids[i], Ending(orders, attempts, replies, now, cfg, Skipped));
  }

  /** The next listed order is still untouched, and its dispatch leaves one more order dispatched. */
  lemma DispatchedNext(
      orders: Table, attempts: map<OrderId, seq<Attempt>>, orders': Table, attempts': map<OrderId, seq<Attempt>>,
      ids: seq<OrderId>, i: nat, replies: OrderId -> Reply, now: int, cfg: Config)
    requires i < |ids| && (forall k, l | 0 <= k < l < |ids| :: ids[k] != ids[l]) && ids[i] in orders
    requires Dispatched(orders, attempts, orders', attempts', ids[..i], replies, now, cfg)
    ensures orders'[ids[i]] == orders[ids[i]] && attempts'[ids[i]] == attempts[ids[i]]
    ensures var out := Undisturbed(orders'[ids[i]], attempts'[ids[i]], false, replies(ids[i]), now, cfg);
            Dispatched(orders, attempts, orders'[ids[i] := out.o], attempts'[ids[i] := out.log], ids[..i + 1], replies,
                       now, cfg)
  {
    assert ids[i] !in ids[..i] && ids[..i + 1] == ids[..i] + [ids[i]];
    assert Outcome(orders'[ids[i]], attempts'[ids[i]]) == Outcome(orders[ids[i]], attempts[ids[i]]);
  }

  // ---------- places in the queue ----------

  /** A due order always has an instant: over every run, whatever is PROCESSING carries its lease. */
  lemma {:induction false} DueHasInstant(w: World, steps: seq<Step>, policy: AmountPolicy, cfg: Config, now: int)
    requires w.o.callbackStatus.CallbackProcessing? ==> w.o.nextCallbackAt.Some?
    ensures Due(Run(w, steps, policy, cfg).o, now, cfg) ==> Run(w, steps, policy, cfg).o.nextCallbackAt.Some?
    decreases |steps|
  {
    if steps != [] {
      DueHasInstant(Next(w, steps[0], policy, cfg), steps[1..], policy, cfg, now);
    }
  }

  /** An order waits that is not sorted behind a callback with key `place`. */
  predicate Precedes(o: Order, place: SortKey, cfg: Config) {
    && place.first.Some? && Due(o, place.first.value, cfg) && o.nextCallbackAt.Some?
    && !KeyLess(place, QueueKey(o))
  }

  /** A claim so late after its reading that its lease ends by `due`. */
  predicate LateClaim(w: World, step: Step, due: int, cfg: Config) {
    step.Claim? && step.id in w.dispatches && w.dispatches[step.id].now + cfg.leaseMs <= due
  }

  /** Once a callback's instant has passed, no statement about another order puts that order before it. */
  lemma PlaceIsNotGained(w: World, step: Step, place: SortKey, policy: AmountPolicy, cfg: Config)
    requires place.first.Some? && w.clock > place.first.value && !LateClaim(w, step, place.first.value, cfg)
    ensures Precedes(Next(w, step, policy, cfg).o, place, cfg) ==> Precedes(w.o, place, cfg)
  {
  }

  predicate NoLateClaims(w: World, steps: seq<Step>, due: int, policy: AmountPolicy, cfg: Config)
    decreases |steps|
  {
    steps != [] ==>
      !LateClaim(w, steps[0], due, cfg) && NoLateClaims(Next(w, steps[0], policy, cfg), steps[1..], due, policy, cfg)
  }

  /** Nor does any run of statements. */
  lemma {:induction false} RunGainsNoPlace(w: World, steps: seq<Step>, place: SortKey, policy: AmountPolicy, cfg: Config)
    requires place.first.Some? && w.clock > place.first.value
    requires NoLateClaims(w, steps, place.first.value, policy, cfg)
    ensures Precedes(Run(w, steps, policy, cfg).o, place, cfg) ==> Precedes(w.o, place, cfg)
    decreases |steps|
  {
    if steps != [] {
      PlaceIsNotGained(w, steps[0], place, policy, cfg);
      RunGainsNoPlace(Next(w, steps[0], policy, cfg), steps[1..], place, policy, cfg);
    }
  }

  /**
   A dispatch takes its order out of the way, among any other dispatchers: if it stops at its reading, or once it has
   tried its claim, the order no longer comes before a callback that was due before.
   */
  lemma VisitGivesUpPlace(w: World, id: DispatchId, place: SortKey, policy: AmountPolicy, cfg: Config)
    requires place.first.Some? && w.clock > place.first.value
    ensures Read(w.o, false, w.clock, cfg) != Proceed && id !in w.dispatches ==>
              !Precedes(Next(w, Begin(id, false), policy, cfg).o, place, cfg)
    ensures Enabled(w, Claim(id)) && !w.dispatches[id].force && w.dispatches[id].now > place.first.value ==>
              !Precedes(Next(w, Claim(id), policy, cfg).o, place, cfg)
  {
  }

  /** So does a whole dispatch of a due order with nobody else around. */
  lemma DispatchGivesUpPlace(o: Order, log: seq<Attempt>, reply: Reply, now: int, place: SortKey, cfg: Config)
    requires place.first.Some? && now > place.first.value && Due(o, now, cfg)
    ensures !Precedes(Undisturbed(o, log, false, reply, now, cfg).o, place, cfg)
  {
  }

  // ---------- many passes ----------

  /** A pass: the table it read, its instant, how it lists equal keys, and its batch. */
  datatype Pass = Pass(orders: Table, now: int, tie: OrderId -> int, batch: seq<OrderId>)

  /** The pass finds the order waiting at its place. */
  ghost predicate Sees(pass: Pass, id: OrderId, place: SortKey, limit: nat, cfg: Config) {
    && TellsApart(pass.tie)
    && IsBatch(pass.batch, DueIds(pass.orders, pass.now, cfg), ByKey(QueueKeys(pass.orders), pass.tie), limit)
    && id in DueIds(pass.orders, pass.now, cfg) && QueueKey(pass.orders[id]) == place
  }

  function Ahead(orders: Table, id: OrderId, place: SortKey, cfg: Config): set<OrderId> {
    set x | x in orders && x != id && Precedes(orders[x], place, cfg)
  }

  /** Until the next pass the batch has given up its places, and nobody gained one. */
  predicate Follows(pass: Pass, next: Pass, id: OrderId, place: SortKey, cfg: Config) {
    forall x | x in Ahead(next.orders, id, place, cfg) ::
      x in Ahead(pass.orders, id, place, cfg) && x !in pass.batch
  }

  /** A pass that leaves a due order out takes `limit` orders that were ahead of it. */
  lemma OverlookingTakesFromAhead(pass: Pass, id: OrderId, place: SortKey, limit: nat, cfg: Config)
    requires place.first.Some? && Sees(pass, id, place, limit, cfg) && id !in pass.batch
    ensures Elements(pass.batch) <= Ahead(pass.orders, id, place, cfg) && |Elements(pass.batch)| == limit
  {
    var due, before := DueIds(pass.orders, pass.now, cfg), ByKey(QueueKeys(pass.orders), pass.tie);
    ByKeyIsTotal(QueueKeys(pass.orders), pass.tie);
    SelectedIffFewAhead(pass.batch, due, before, limit, id);
  }

  /**
   First due, first served: a waiting callback that stays due is in the batch of one of the passes as soon as these
   have more places than there were orders ahead of it.
   */
  lemma SelectedInTime(passes: seq<Pass>, id: OrderId, place: SortKey, limit: nat, cfg: Config)
    requires passes != [] && place.first.Some?
    requires forall k | 0 <= k < |passes| :: Sees(passes[k], id, place, limit, cfg)
    requires forall k | 0 <= k < |passes| - 1 :: Follows(passes[k], passes[k + 1], id, place, cfg)
    requires |passes| * limit > |Ahead(passes[0].orders, id, place, cfg)|
    ensures exists k | 0 <= k < |passes| :: id in passes[k].batch
  {
    if forall k | 0 <= k < |passes| :: id !in passes[k].batch {
      forall k | 0 <= k < |passes|
        ensures Elements(passes[k].batch) <= Ahead(passes[k].orders, id, place, cfg)
        ensures |Elements(passes[k].batch)| == limit
      {
        OverlookingTakesFromAhead(passes[k], id, place, limit, cfg);
      }
      var left := seq(|passes|, k requires 0 <= k < |passes| => Ahead(passes[k].orders, id, place, cfg));
      var used := seq(|passes|, k requires 0 <= k < |passes| => Elements(passes[k].batch));
      forall k | 0 <= k < |left| - 1 ensures left[k + 1] <= left[k] - used[k] {
        assert Follows(passes[k], passes[k + 1], id, place, cfg);
      }
      RoundsAreBounded(left, used, limit);
    }
  }

  /**
   No callback is lost in the queue either: after any run, a waiting callback with attempts left is in the batch of
   one of the passes from its instant on, as soon as these have more places than there were orders ahead of it.
   */
  lemma WaitingCallbackIsServed(
      w: World, steps: seq<Step>, passes: seq<Pass>, id: OrderId, limit: nat, policy: AmountPolicy, cfg: Config)
    requires Initial(w) && passes != []
    requires var o := Run(w, steps, policy, cfg).o;
             && IsWaiting(o.callbackStatus) && o.callbackAttemptsCount < cfg.maxAttempts
             && (forall k | 0 <= k < |passes| ::
                   && id in passes[k].orders && passes[k].orders[id] == o && DueFrom(o, passes[k].now) <= passes[k].now
                   && TellsApart(passes[k].tie)
                   && IsBatch(passes[k].batch, DueIds(passes[k].orders, passes[k].now, cfg),
                              ByKey(QueueKeys(passes[k].orders), passes[k].tie), limit))
             && (forall k | 0 <= k < |passes| - 1 :: Follows(passes[k], passes[k + 1], id, QueueKey(o), cfg))
             && |passes| * limit > |Ahead(passes[0].orders, id, QueueKey(o), cfg)|
    ensures exists k | 0 <= k < |passes| :: id in passes[k].batch
  {
    var o := Run(w, steps, policy, cfg).o;
    forall k | 0 <= k < |passes| ensures Sees(passes[k], id, QueueKey(o), limit, cfg) {
      NoCallbackIsLost(w, steps, policy, cfg, passes[k].now);
    }
    DueHasInstant(w, steps, policy, cfg, passes[0].now);
    assert Sees(passes[0], id, QueueKey(o), limit, cfg);
    SelectedInTime(passes, id, QueueKey(o), limit, cfg);
  }

  /** An undisturbed pass of the service after the order's instant is followed by the table it leaves. */
  lemma ServicePassFits(
      pass: Pass, attempts: map<OrderId, seq<Attempt>>, next: Pass, attempts': map<OrderId, seq<Attempt>>,
      replies: OrderId -> Reply, id: OrderId, place: SortKey, limit: nat, cfg: Config)
    requires place.first.Some? && pass.now > place.first.value && Sees(pass, id, place, limit, cfg)
    requires Dispatched(pass.orders, attempts, next.orders, attempts', pass.batch, replies, pass.now, cfg)
    ensures Follows(pass, next, id, place, cfg)
  {
    ByKeyIsTotal(QueueKeys(pass.orders), pass.tie);
    BatchIsDueOnce(pass.batch, DueIds(pass.orders, pass.now, cfg), ByKey(QueueKeys(pass.orders), pass.tie), limit);
    forall x | x in pass.orders ensures x in pass.batch ==> !Precedes(next.orders[x], place, cfg)
                                ensures x !in pass.batch ==> next.orders[x] == pass.orders[x] {
      assert Outcome(next.orders[x], attempts'[x])
          == if x in pass.batch then Undisturbed(pass.orders[x], attempts[x], false, replies(x), pass.now, cfg)
             else Outcome(pass.orders[x], attempts[x]);
      if x in pass.batch {
        DispatchGivesUpPlace(pass.orders[x], attempts[x], replies(x), pass.now, place, cfg);
      }
    }
  }
}
