/**
 Delivery of merchant callbacks (lib/callbacks/service.ts) for one order, under any interleaving of
 notifications, dispatchers, forced retries and crashes.  A dispatcher is split where the source
 awaits: it reads the row, claims it with a compare-and-set, and later writes the outcome.
 */
module Callbacks {
  import opened Options
  import opened PaymentStatuses
  import opened Orders

  type DispatchId = nat

  /** getCallbackRuntimeConfig; every value is a positive integer there. */
  datatype Config = Config(maxAttempts: nat, retryMs: nat, leaseMs: nat)

  /** A PaymentCallbackAttempt row: whether it was delivered and which order status it told. */
  datatype Attempt = Attempt(delivered: bool, told: PaymentStatus)

  /** A dispatcher that has read the row (`seen`) at `now`. */
  datatype Dispatch = Dispatch(seen: Order, force: bool, now: int, claimed: bool)

  // ---------- the row-level statements ----------

  predicate IsWaiting(status: CallbackStatus) {
    status.CallbackPending? || status.CallbackFailed? || status.CallbackProcessing?
  }

  predicate DueNow(next: Option<int>, now: int) {
    next.Some? && next.value <= now
  }

  /** resolveCallbackTarget: EasyPay orders go to their own notify URL. */
  function ResolveTarget(route: CallbackRoute): Option<string> {
    if !route.enabled then None
    else if route.easyPay.Some? then route.easyPay.value
    else route.callbackUrl.OrElse(route.callbackBase)
  }

  predicate HasAddress(route: CallbackRoute) {
    var target := ResolveTarget(route);
    target.Some? && target.value != ""
  }

  predicate LeaseOver(o: Order, now: int) {
    o.nextCallbackAt.None? || o.nextCallbackAt.value <= now
  }

  /** buildAutomaticClaimWhere, which is also the `where` of the due query without its status clause. */
  predicate AutomaticClaim(o: Order, now: int, cfg: Config) {
    && o.callbackAttemptsCount < cfg.maxAttempts
    && (((o.callbackStatus.CallbackPending? || o.callbackStatus.CallbackFailed?) && DueNow(o.nextCallbackAt, now))
        || (o.callbackStatus.CallbackProcessing? && LeaseOver(o, now)))
  }

  /** buildForcedClaimWhere */
  predicate ForcedClaim(o: Order, now: int) {
    !o.callbackStatus.CallbackProcessing? || LeaseOver(o, now)
  }

  predicate Claims(o: Order, d: Dispatch, cfg: Config) {
    if d.force then ForcedClaim(o, d.now) else AutomaticClaim(o, d.now, cfg)
  }

  /** listDueMerchantCallbackOrderIds */
  predicate Due(o: Order, now: int, cfg: Config) {
    IsTerminal(o.status) && AutomaticClaim(o, now, cfg)
  }

  datatype Reading = NoTarget | Skip | Proceed

  /** The early returns of dispatchMerchantCallback, in order. */
  function Read(o: Order, force: bool, now: int, cfg: Config): Reading {
    if !HasAddress(o.route) then NoTarget
    else if !force && o.callbackStatus.Delivered? then Skip
    else if !IsTerminal(o.status) then Skip
    else if !force && o.callbackAttemptsCount >= cfg.maxAttempts then Skip
    else if o.callbackStatus.CallbackProcessing? && o.nextCallbackAt.Some? && o.nextCallbackAt.value > now then Skip
    else if !force && !IsWaiting(o.callbackStatus) then Skip
    else Proceed
  }

  function Unrequired(o: Order): Order {
    o.(callbackStatus := NotRequired, nextCallbackAt := None)
  }

  function ClaimRow(o: Order, now: int, cfg: Config): Order {
    o.(callbackStatus := CallbackProcessing, nextCallbackAt := Some(now + cfg.leaseMs))
  }

  /** The closing transaction; the retry decision uses the attempt count read at the start. */
  function FinishRow(o: Order, seen: Order, delivered: bool, now: int, cfg: Config): Order {
    o.(callbackStatus := if delivered then Delivered else CallbackFailed,
       callbackAttemptsCount := o.callbackAttemptsCount + 1,
       nextCallbackAt :=
         if delivered || seen.callbackAttemptsCount + 1 >= cfg.maxAttempts then None
         else Some(now + cfg.retryMs))
  }

  /** An EasyPay order has nothing to tell unless it succeeded. */
  predicate Tellable(seen: Order) {
    seen.route.easyPay.Some? ==> seen.status == Succeeded
  }

  // ---------- the transition system ----------

  /** `forced`, `overlaps` and `requeues` are history counters; see Effect. */
  datatype World = World(
    clock: int, o: Order, log: seq<Attempt>, dispatches: map<DispatchId, Dispatch>,
    forced: nat, overlaps: nat, requeues: nat)

  datatype Step =
    | Tick(delta: nat)
    | Notify(n: Notification)
    | Begin(id: DispatchId, force: bool)
    | Claim(id: DispatchId)
    | NothingToTell(id: DispatchId)
    | Finish(id: DispatchId, delivered: bool)
    | Crash(id: DispatchId)

  predicate InFlight(w: World, id: DispatchId) {
    id in w.dispatches && w.dispatches[id].claimed
  }

  function Claimed(w: World): set<DispatchId> {
    set id | id in w.dispatches && w.dispatches[id].claimed
  }

  predicate Enabled(w: World, step: Step) {
    match step
    case Tick(_) => true
    case Notify(_) => true
    case Begin(id, _) => id !in w.dispatches
    case Claim(id) => id in w.dispatches && !w.dispatches[id].claimed
    case NothingToTell(id) => InFlight(w, id) && w.dispatches[id].seen.route.easyPay.Some?
    case Finish(id, _) => InFlight(w, id) && Tellable(w.dispatches[id].seen)
    case Crash(id) => id in w.dispatches
  }

  function Effect(w: World, step: Step, policy: AmountPolicy, cfg: Config): World
    requires Enabled(w, step)
  {
    match step
    case Tick(delta) => w.(clock := w.clock + delta)
    case Notify(n) =>
      if !Accepts(w.o, n, policy) then w
      else
        var next := Resolve(w.o.status, n.providerStatus, n.succeeds);
        var requeued := w.o.callbackStatus.Delivered? && ForcesCallback(w.o, next);
        w.(o := Apply(w.o, n, w.clock), requeues := w.requeues + if requeued then 1 else 0)
    case Begin(id, force) =>
      (match Read(w.o, force, w.clock, cfg)
       case NoTarget => w.(o := Unrequired(w.o))
       case Skip => w
       case Proceed => w.(dispatches := w.dispatches[id := Dispatch(w.o, force, w.clock, false)]))
    case Claim(id) =>
      var d := w.dispatches[id];
      if !Claims(w.o, d, cfg) then w.(dispatches := w.dispatches - {id})
      else w.(o := ClaimRow(w.o, d.now, cfg),
              dispatches := w.dispatches[id := d.(claimed := true)],
              forced := w.forced + if d.force then 1 else 0,
              overlaps := w.overlaps + if !d.force && Claimed(w) != {} then 1 else 0)
    case NothingToTell(id) => w.(o := Unrequired(w.o), dispatches := w.dispatches - {id})
    case Finish(id, delivered) =>
      var seen := w.dispatches[id].seen;
      w.(o := FinishRow(w.o, seen, delivered, w.clock, cfg),
         log := w.log + [Attempt(delivered, seen.status)],
         dispatches := w.dispatches - {id})
    case Crash(id) => w.(dispatches := w.dispatches - {id})
  }

  function Next(w: World, step: Step, policy: AmountPolicy, cfg: Config): World {
    if Enabled(w, step) then Effect(w, step, policy, cfg) else w
  }

  function Run(w: World, steps: seq<Step>, policy: AmountPolicy, cfg: Config): World
    decreases |steps|
  {
    if steps == [] then w else Run(Next(w, steps[0], policy, cfg), steps[1..], policy, cfg)
  }

  /** An order as its creation leaves it: open, with no callback asked for. */
  predicate Initial(w: World) {
    && w.o.Open() && w.o.callbackStatus.NotRequired? && w.o.callbackAttemptsCount == 0
    && w.log == [] && w.dispatches == map[] && w.forced == w.overlaps == w.requeues == 0
  }

  // ---------- the invariant ----------

  /** A waiting callback will be due by itself, or has used up its attempts. */
  predicate NotLost(o: Order, cfg: Config) {
    IsWaiting(o.callbackStatus) ==>
      && IsTerminal(o.status)
      && (o.callbackAttemptsCount >= cfg.maxAttempts || o.nextCallbackAt.Some? || o.callbackStatus.CallbackProcessing?)
  }

  /** A dispatcher's reading is of a past terminal row with no more attempts than now. */
  predicate ReadingOk(w: World, d: Dispatch) {
    && IsTerminal(d.seen.status)
    && d.seen.callbackAttemptsCount <= w.o.callbackAttemptsCount
    && d.now <= w.clock
  }

  predicate RequeuesOk(w: World) {
    w.requeues == 0 || w.requeues + Rank(Failed) <= Rank(w.o.status)
  }

  predicate Inv(w: World, cfg: Config) {
    && NotLost(w.o, cfg)
    && (forall id | id in w.dispatches :: ReadingOk(w, w.dispatches[id]))
    && (w.dispatches != map[] ==> IsTerminal(w.o.status))
    && w.o.callbackAttemptsCount == |w.log|
    && |w.log| + |Claimed(w)| <= cfg.maxAttempts + w.forced + w.overlaps
    && (w.o.callbackStatus.Delivered? ==> IsTerminal(w.o.status))
    && RequeuesOk(w)
  }

  lemma ClaimedAfter(w: World, id: DispatchId, d: Dispatch)
    ensures Claimed(w.(dispatches := w.dispatches[id := d]))
         == if d.claimed then Claimed(w) + {id} else Claimed(w) - {id}
    ensures Claimed(w.(dispatches := w.dispatches - {id})) == Claimed(w) - {id}
  {
  }

  lemma NotifyKeepsInv(w: World, n: Notification, policy: AmountPolicy, cfg: Config)
    requires Inv(w, cfg)
    ensures Inv(Next(w, Notify(n), policy, cfg), cfg)
  {
  }

  lemma ClaimKeepsInv(w: World, id: DispatchId, policy: AmountPolicy, cfg: Config)
    requires Inv(w, cfg) && Enabled(w, Claim(id))
    ensures Inv(Effect(w, Claim(id), policy, cfg), cfg)
  {
    var d := w.dispatches[id];
    var w' := Effect(w, Claim(id), policy, cfg);
    assert ReadingOk(w, d);
    if Claims(w.o, d, cfg) {
      assert Claimed(w') == Claimed(w) + {id};
    } else {
      assert Claimed(w') == Claimed(w) - {id} == Claimed(w);
    }
  }

  lemma FinishKeepsInv(w: World, id: DispatchId, delivered: bool, policy: AmountPolicy, cfg: Config)
    requires Inv(w, cfg) && Enabled(w, Finish(id, delivered))
    ensures Inv(Effect(w, Finish(id, delivered), policy, cfg), cfg)
  {
    var d := w.dispatches[id];
    var w' := Effect(w, Finish(id, delivered), policy, cfg);
    assert ReadingOk(w, d);
    assert Claimed(w') == Claimed(w) - {id} && id in Claimed(w);
  }

  lemma DropKeepsInv(w: World, id: DispatchId, o: Order, cfg: Config)
    requires Inv(w, cfg) && (o == w.o || o == Unrequired(w.o))
    ensures Inv(w.(o := o, dispatches := w.dispatches - {id}), cfg)
  {
    var w' := w.(o := o, dispatches := w.dispatches - {id});
    ClaimedAfter(w, id, Dispatch(w.o, false, 0, false));
    assert Claimed(w') == Claimed(w.(dispatches := w.dispatches - {id}));
    assert |Claimed(w')| <= |Claimed(w)|;
    assert forall k | k in w'.dispatches :: k in w.dispatches && w'.dispatches[k] == w.dispatches[k];
    assert w.dispatches == map[] ==> w'.dispatches == map[];
    assert forall k | k in w'.dispatches :: ReadingOk(w, w.dispatches[k]);
  }

  lemma ReadingKeepsInv(w: World, id: DispatchId, force: bool, cfg: Config)
    requires Inv(w, cfg) && id !in w.dispatches && IsTerminal(w.o.status)
    ensures Inv(w.(dispatches := w.dispatches[id := Dispatch(w.o, force, w.clock, false)]), cfg)
  {
    var w' := w.(dispatches := w.dispatches[id := Dispatch(w.o, force, w.clock, false)]);
    ClaimedAfter(w, id, Dispatch(w.o, force, w.clock, false));
    assert Claimed(w') == Claimed(w) - {id} == Claimed(w);
    forall k | k in w'.dispatches ensures ReadingOk(w', w'.dispatches[k]) {
      assert k != id ==> w'.dispatches[k] == w.dispatches[k] && ReadingOk(w, w.dispatches[k]);
    }
  }

  lemma BeginKeepsInv(w: World, id: DispatchId, force: bool, policy: AmountPolicy, cfg: Config)
    requires Inv(w, cfg) && id !in w.dispatches
    ensures Inv(Effect(w, Begin(id, force), policy, cfg), cfg)
  {
    match Read(w.o, force, w.clock, cfg)
    case NoTarget =>
      assert w.dispatches - {id} == w.dispatches;
      DropKeepsInv(w, id, Unrequired(w.o), cfg);
    case Skip =>
    case Proceed =>
      ReadingKeepsInv(w, id, force, cfg);
  }

  /** Every step keeps the invariant: above all, no callback is lost. */
  lemma NextKeepsInv(w: World, step: Step, policy: AmountPolicy, cfg: Config)
    requires Inv(w, cfg)
    ensures Inv(Next(w, step, policy, cfg), cfg)
  {
    if Enabled(w, step) {
      match step {
        case Tick(delta) =>
          var w' := Next(w, step, policy, cfg);
          assert Claimed(w') == Claimed(w);
          assert forall id | id in w'.dispatches :: ReadingOk(w, w.dispatches[id]);
        case Notify(n) => NotifyKeepsInv(w, n, policy, cfg);
        case Begin(id, force) => BeginKeepsInv(w, id, force, policy, cfg);
        case Claim(id) => ClaimKeepsInv(w, id, policy, cfg);
        case NothingToTell(id) => DropKeepsInv(w, id, Unrequired(w.o), cfg);
        case Finish(id, delivered) => FinishKeepsInv(w, id, delivered, policy, cfg);
        case Crash(id) => DropKeepsInv(w, id, w.o, cfg);
      }
    }
  }

  lemma {:induction false} RunKeepsInv(w: World, steps: seq<Step>, policy: AmountPolicy, cfg: Config)
    requires Inv(w, cfg)
    ensures Inv(Run(w, steps, policy, cfg), cfg)
    decreases |steps|
  {
    if steps != [] {
      NextKeepsInv(w, steps[0], policy, cfg);
      RunKeepsInv(Next(w, steps[0], policy, cfg), steps[1..], policy, cfg);
    }
  }

  // ---------- what it means ----------

  /** The instant from which the due query selects the order. */
  function DueFrom(o: Order, now: int): int {
    o.nextCallbackAt.GetOr(now)
  }

  /**
   No callback is lost: after any run, a callback that is pending, failed or stuck in processing either
   has used up its attempts or is selected by the due query at every instant from DueFrom on.
   */
  lemma NoCallbackIsLost(w: World, steps: seq<Step>, policy: AmountPolicy, cfg: Config, now: int)
    requires Initial(w)
    requires IsWaiting(Run(w, steps, policy, cfg).o.callbackStatus)
    requires DueFrom(Run(w, steps, policy, cfg).o, now) <= now
    ensures var o := Run(w, steps, policy, cfg).o;
            Due(o, now, cfg) <==> o.callbackAttemptsCount < cfg.maxAttempts
  {
    assert Claimed(w) == {};
    RunKeepsInv(w, steps, policy, cfg);
  }

  /** And a dispatcher that acts on a due order is not turned away by its own checks. */
  lemma DueIsDispatched(w: World, id: DispatchId, policy: AmountPolicy, cfg: Config)
    requires Due(w.o, w.clock, cfg) && id !in w.dispatches
    ensures var w' := Next(Next(w, Begin(id, false), policy, cfg), Claim(id), policy, cfg);
            if HasAddress(w.o.route)
            then InFlight(w', id) && w'.o == ClaimRow(w.o, w.clock, cfg)
            else w'.o.callbackStatus == NotRequired
  {
  }

  /**
   Attempt rows and the counter agree, and attempts exceed the limit only by forced claims and by
   automatic claims made while another dispatcher of the order was still in flight.
   */
  lemma AttemptsAreBounded(w: World, steps: seq<Step>, policy: AmountPolicy, cfg: Config)
    requires Initial(w)
    ensures var w' := Run(w, steps, policy, cfg);
            && w'.o.callbackAttemptsCount == |w'.log|
            && |w'.log| <= cfg.maxAttempts + w'.forced + w'.overlaps
  {
    assert Claimed(w) == {};
    RunKeepsInv(w, steps, policy, cfg);
  }

  /** A delivered order is queued again for a changed terminal status at most twice. */
  lemma RequeuedAtMostTwice(w: World, steps: seq<Step>, policy: AmountPolicy, cfg: Config)
    requires Initial(w)
    ensures Run(w, steps, policy, cfg).requeues <= 2
  {
    assert Claimed(w) == {};
    RunKeepsInv(w, steps, policy, cfg);
  }

  // ---------- freshness of what was delivered ----------

  function LastDelivered(log: seq<Attempt>): Option<PaymentStatus> {
    if log == [] then None
    else if log[|log| - 1].delivered then Some(log[|log| - 1].told)
    else LastDelivered(log[..|log| - 1])
  }

  /** DELIVERED means that the merchant was last told the current status. */
  predicate Fresh(w: World) {
    w.o.callbackStatus.Delivered? ==> LastDelivered(w.log) == Some(w.o.status)
  }

  /** A delivery of a status the order has meanwhile left. */
  predicate StaleDelivery(w: World, step: Step) {
    step.Finish? && Enabled(w, step) && step.delivered && w.dispatches[step.id].seen.status != w.o.status
  }

  /** A step breaks freshness exactly when it completes a stale delivery. */
  lemma FreshUnlessStale(w: World, step: Step, policy: AmountPolicy, cfg: Config)
    requires Inv(w, cfg) && Fresh(w)
    ensures Fresh(Next(w, step, policy, cfg)) <==> !StaleDelivery(w, step)
  {
  }

  predicate AllTimely(w: World, steps: seq<Step>, policy: AmountPolicy, cfg: Config)
    decreases |steps|
  {
    steps != [] ==>
      && !StaleDelivery(w, steps[0])
      && AllTimely(Next(w, steps[0], policy, cfg), steps[1..], policy, cfg)
  }

  lemma {:induction false} RunIsFresh(w: World, steps: seq<Step>, policy: AmountPolicy, cfg: Config)
    requires Inv(w, cfg) && Fresh(w) && AllTimely(w, steps, policy, cfg)
    ensures Fresh(Run(w, steps, policy, cfg))
    decreases |steps|
  {
    if steps != [] {
      FreshUnlessStale(w, steps[0], policy, cfg);
      NextKeepsInv(w, steps[0], policy, cfg);
      RunIsFresh(Next(w, steps[0], policy, cfg), steps[1..], policy, cfg);
    }
  }

  /** The row after a failure that queued a callback. */
  lemma FailureQueues(w: World, failure: Notification, policy: AmountPolicy, cfg: Config)
    requires Initial(w) && HasTarget(w.o.route) && Accepts(w.o, failure, policy)
    requires !failure.succeeds && IsTerminal(Target(failure.providerStatus, false))
    ensures var w0 := Next(w, Notify(failure), policy, cfg);
            && w0.o.status == Target(failure.providerStatus, false) && w0.o.callbackStatus == CallbackPending
            && w0.o.nextCallbackAt == Some(w.clock) && w0.o.callbackAttemptsCount == 0 && w0.o.route == w.o.route
            && w0.clock == w.clock && w0.dispatches == map[] && w0.log == []
            && SameTerms(w0.o, w.o)
  {
  }

  /** A dispatcher reads and claims the due row. */
  lemma DueIsClaimed(w: World, policy: AmountPolicy, cfg: Config)
    requires Due(w.o, w.clock, cfg) && HasAddress(w.o.route) && w.dispatches == map[]
    ensures var w1 := Next(Next(w, Begin(0, false), policy, cfg), Claim(0), policy, cfg);
            && w1.o == ClaimRow(w.o, w.clock, cfg) && w1.dispatches == map[0 := Dispatch(w.o, false, w.clock, true)]
            && w1.log == w.log && w1.clock == w.clock
  {
  }

  /** A success that arrives in between is told with the old reading. */
  lemma LateFinish(w: World, success: Notification, policy: AmountPolicy, cfg: Config, later: int)
    requires InFlight(w, 0) && Tellable(w.dispatches[0].seen) && success.succeeds && Accepts(w.o, success, policy)
    ensures var w3 := Next(Next(w, Notify(success), policy, cfg), Finish(0, true), policy, cfg);
            && w3.o.status == Succeeded && w3.o.callbackStatus == Delivered
            && LastDelivered(w3.log) == Some(w.dispatches[0].seen.status)
            && !Due(w3.o, later, cfg)
  {
  }

  /**
   The stale case, for any order with a callback address: a success that lands while an earlier failure is
   being delivered is marked DELIVERED with it.  The merchant was told the failure and the due query never
   selects the order again.
   */
  lemma StaleDeliveryHidesSuccess(
      w: World, failure: Notification, success: Notification, policy: AmountPolicy, cfg: Config, later: int)
    requires Initial(w) && HasTarget(w.o.route) && HasAddress(w.o.route) && w.o.route.easyPay.None? && cfg.maxAttempts > 0
    requires Accepts(w.o, failure, policy) && Accepts(w.o, success, policy) && success.succeeds
    requires !failure.succeeds && IsTerminal(Target(failure.providerStatus, false))
    ensures var w1 := Next(Next(w, Notify(failure), policy, cfg), Begin(0, false), policy, cfg);
            var w2 := Next(Next(w1, Claim(0), policy, cfg), Notify(success), policy, cfg);
            var w3 := Next(w2, Finish(0, true), policy, cfg);
            && w3.o.status == Succeeded && w3.o.callbackStatus == Delivered
            && LastDelivered(w3.log) == Some(Target(failure.providerStatus, false))
            && !Due(w3.o, later, cfg)
  {
    FailureQueues(w, failure, policy, cfg);
    var w0 := Next(w, Notify(failure), policy, cfg);
    DueIsClaimed(w0, policy, cfg);
    var w1 := Next(Next(w0, Begin(0, false), policy, cfg), Claim(0), policy, cfg);
    LateFinish(w1, success, policy, cfg, later);
  }

  /** The step ends the wait of a queued success without telling it. */
  predicate DropsSuccess(w: World, step: Step, policy: AmountPolicy) {
    && Enabled(w, step)
    && match step
       case NothingToTell(_) => true
       case Finish(id, delivered) => delivered && w.dispatches[id].seen.status != Succeeded
       case Begin(_, _) => !HasAddress(w.o.route)
       case Notify(n) => Accepts(w.o, n, policy) && !HasTarget(w.o.route)
       case _ => false
  }

  /** A waiting success leaves the queue by being told, or by exactly these steps, whatever they had read. */
  lemma QueuedSuccessIsDroppedIff(w: World, step: Step, policy: AmountPolicy, cfg: Config)
    requires IsWaiting(w.o.callbackStatus) && w.o.status == Succeeded
    ensures var v := Next(w, step, policy, cfg);
            var told := |v.log| > |w.log| && v.log[|v.log| - 1] == Attempt(true, Succeeded);
            !IsWaiting(v.o.callbackStatus) && !told <==> DropsSuccess(w, step, policy)
  {
  }

  /**
   The EasyPay case, for any order with both addresses: a dispatcher has claimed it as failed or cancelled, a success
   lands and is queued, and the dispatcher, which has nothing to tell, takes the success out of the queue for good.
   */
  lemma StaleReadingDropsSuccess(
      w: World, failure: Notification, success: Notification, policy: AmountPolicy, cfg: Config, later: int)
    requires Initial(w) && HasTarget(w.o.route) && HasAddress(w.o.route) && w.o.route.easyPay.Some? && cfg.maxAttempts > 0
    requires Accepts(w.o, failure, policy) && Accepts(w.o, success, policy) && success.succeeds
    requires !failure.succeeds && IsTerminal(Target(failure.providerStatus, false))
    ensures var w1 := Next(Next(w, Notify(failure), policy, cfg), Begin(0, false), policy, cfg);
            var w2 := Next(Next(w1, Claim(0), policy, cfg), Notify(success), policy, cfg);
            var w3 := Next(w2, NothingToTell(0), policy, cfg);
            && w2.o.callbackStatus == CallbackPending && w3.log == []
            && w3.o.status == Succeeded && w3.o.callbackStatus == NotRequired && !Due(w3.o, later, cfg)
  {
    FailureQueues(w, failure, policy, cfg);
    var w0 := Next(w, Notify(failure), policy, cfg);
    DueIsClaimed(w0, policy, cfg);
    var w1 := Next(Next(w0, Begin(0, false), policy, cfg), Claim(0), policy, cfg);
    LateRetreat(w1, success, policy, cfg, later);
  }

  lemma LateRetreat(w: World, success: Notification, policy: AmountPolicy, cfg: Config, later: int)
    requires InFlight(w, 0) && w.dispatches[0].seen.route.easyPay.Some? && HasTarget(w.o.route)
    requires w.o.callbackStatus == CallbackProcessing && success.succeeds && Accepts(w.o, success, policy)
    ensures var w2 := Next(w, Notify(success), policy, cfg);
            var w3 := Next(w2, NothingToTell(0), policy, cfg);
            && w2.o.callbackStatus == CallbackPending && w3.log == w.log
            && w3.o.status == Succeeded && w3.o.callbackStatus == NotRequired && !Due(w3.o, later, cfg)
  {
  }

  // ---------- EasyPay ----------

  /**
   A success of an open order reaches the merchant's address exactly when two different addresses are
   set: queuing looks at the native callback target, sending at the EasyPay notify URL.
   */
  lemma SuccessIsSentIffBothTargets(w: World, n: Notification, id: DispatchId, policy: AmountPolicy, cfg: Config)
    requires w.o.Open() && w.o.callbackStatus.NotRequired? && w.o.callbackAttemptsCount < cfg.maxAttempts
    requires n.succeeds && Accepts(w.o, n, policy) && id !in w.dispatches
    ensures var w1 := Next(w, Notify(n), policy, cfg);
            var w2 := Next(Next(w1, Begin(id, false), policy, cfg), Claim(id), policy, cfg);
            InFlight(w2, id) <==> HasTarget(w.o.route) && HasAddress(w.o.route)
    ensures var r := w.o.route;
            && (HasTarget(r) <==> r.enabled && NonEmpty(if r.callbackUrl.Some? then r.callbackUrl else r.callbackBase))
            && (HasAddress(r) <==> r.enabled && NonEmpty(if r.easyPay.Some? then r.easyPay.value
                                                         else if r.callbackUrl.Some? then r.callbackUrl else r.callbackBase))
  {
  }

  predicate NonEmpty(url: Option<string>) {
    url.Some? && url.value != ""
  }

  /** News is queued for its own instant: a terminal status that the order did not have is due from then on. */
  lemma NewsIsDueAtOnce(w: World, n: Notification, policy: AmountPolicy, cfg: Config, t: int)
    requires Accepts(w.o, n, policy) && w.o.callbackAttemptsCount < cfg.maxAttempts && HasTarget(w.o.route)
    requires w.o.callbackStatus.Delivered? ==> IsTerminal(w.o.status)
    requires var next := Join(w.o.status, Target(n.providerStatus, n.succeeds)); IsTerminal(next) && next != w.o.status
    ensures Due(Next(w, Notify(n), policy, cfg).o, t, cfg) <==> t >= w.clock
  {
    ResolveIsJoin(w.o.status, n.providerStatus, n.succeeds);
  }

  /** A claim puts the order off by exactly one lease, counted from the dispatcher's reading. */
  lemma ClaimPutsOffByLease(w: World, id: DispatchId, policy: AmountPolicy, cfg: Config, t: int)
    requires Enabled(w, Claim(id)) && InFlight(Next(w, Claim(id), policy, cfg), id)
    requires IsTerminal(w.o.status) && w.o.callbackAttemptsCount < cfg.maxAttempts
    ensures Due(Next(w, Claim(id), policy, cfg).o, t, cfg) <==> t >= w.dispatches[id].now + cfg.leaseMs
  {
  }

  /**
   When a dispatcher's claim succeeds: an automatic one while attempts are left and the callback waits past its instant, a
   forced one whatever the callback's state, and neither while another dispatcher's lease still ran at its reading.
   */
  lemma ClaimSucceedsIff(w: World, id: DispatchId, policy: AmountPolicy, cfg: Config)
    requires Enabled(w, Claim(id))
    ensures var o, d := w.o, w.dispatches[id];
            var idle := o.nextCallbackAt.Some? ==> o.nextCallbackAt.value <= d.now;
            var waits := (o.callbackStatus == CallbackPending || o.callbackStatus == CallbackFailed) && o.nextCallbackAt.Some?;
            var left := o.callbackAttemptsCount < cfg.maxAttempts;
            InFlight(Next(w, Claim(id), policy, cfg), id) ==
            (if o.callbackStatus == CallbackProcessing then idle && (d.force || left) else d.force || (left && waits && idle))
  {
  }

  /** A forced dispatch goes ahead whenever there is news and an address, unless another dispatcher's lease still runs. */
  lemma ForcedDispatchIff(w: World, id: DispatchId, policy: AmountPolicy, cfg: Config)
    requires id !in w.dispatches
    ensures InFlight(Next(Next(w, Begin(id, true), policy, cfg), Claim(id), policy, cfg), id)
       <==> && HasAddress(w.o.route) && IsTerminal(w.o.status)
            && !(w.o.callbackStatus.CallbackProcessing? && w.o.nextCallbackAt.Some? && w.o.nextCallbackAt.value > w.clock)
  {
  }

  /** Dispatchers read rows with the order's own route, and what was told of an EasyPay order was its success. */
  predicate TellsSuccessOnly(w: World) {
    && (forall id | id in w.dispatches :: w.dispatches[id].seen.route == w.o.route)
    && (w.o.route.easyPay.Some? ==> forall k | 0 <= k < |w.log| :: w.log[k].told == Succeeded)
  }

  lemma NextTellsSuccessOnly(w: World, step: Step, policy: AmountPolicy, cfg: Config)
    requires TellsSuccessOnly(w)
    ensures TellsSuccessOnly(Next(w, step, policy, cfg))
  {
  }

  /** Over every run, an EasyPay merchant is told of successes and of nothing else. */
  lemma {:induction false} EasyPayIsToldSuccessOnly(w: World, steps: seq<Step>, policy: AmountPolicy, cfg: Config)
    requires TellsSuccessOnly(w)
    ensures TellsSuccessOnly(Run(w, steps, policy, cfg))
    decreases |steps|
  {
    if steps != [] {
      NextTellsSuccessOnly(w, steps[0], policy, cfg);
      EasyPayIsToldSuccessOnly(Next(w, steps[0], policy, cfg), steps[1..], policy, cfg);
    }
  }

  // ---------- one undisturbed dispatch ----------

  /** What the network and the credential store answer. */
  datatype Reply = Reply(credential: bool, delivered: bool, elapsed: nat)

  predicate HasPlan(seen: Order, reply: Reply) {
    seen.route.easyPay.Some? ==> seen.status == Succeeded && reply.credential
  }

  datatype Outcome = Outcome(o: Order, log: seq<Attempt>)

  /** dispatchMerchantCallback with nobody else around, by the branch that decides it. */
  function Undisturbed(o: Order, log: seq<Attempt>, force: bool, reply: Reply, now: int, cfg: Config): Outcome {
    match Read(o, force, now, cfg)
    case NoTarget => Outcome(Unrequired(o), log)
    case Skip => Outcome(o, log)
    case Proceed =>
      if !Claims(o, Dispatch(o, force, now, false), cfg) then Outcome(o, log)
      else if !HasPlan(o, reply) then Outcome(Unrequired(o), log)
      else Outcome(FinishRow(o, o, reply.delivered, now + reply.elapsed, cfg),
                   log + [Attempt(reply.delivered, o.status)])
  }

  function Alone(o: Order, log: seq<Attempt>, now: int): World {
    World(now, o, log, map[], 0, 0, 0)
  }

  /** An undisturbed dispatch is the run read, claim, wait, write of the transition system. */
  lemma UndisturbedIsARun(
      o: Order, log: seq<Attempt>, force: bool, reply: Reply, now: int, policy: AmountPolicy, cfg: Config)
    requires Read(o, force, now, cfg).Proceed? && Claims(o, Dispatch(o, force, now, false), cfg)
    ensures var begun := Next(Alone(o, log, now), Begin(0, force), policy, cfg);
            var ticked := Next(Next(begun, Claim(0), policy, cfg), Tick(reply.elapsed), policy, cfg);
            var w' := Next(ticked, if HasPlan(o, reply) then Finish(0, reply.delivered) else NothingToTell(0), policy, cfg);
            Undisturbed(o, log, force, reply, now, cfg) == Outcome(w'.o, w'.log)
  {
  }

  /** A due dispatch always makes progress: it delivers, uses up an attempt, or ends the obligation. */
  lemma DueDispatchProgresses(o: Order, log: seq<Attempt>, reply: Reply, now: int, cfg: Config)
    requires Due(o, now, cfg)
    ensures var out := Undisturbed(o, log, false, reply, now, cfg);
            || out.o.callbackStatus == NotRequired
            || (out.o.callbackAttemptsCount == o.callbackAttemptsCount + 1
                && out.o.callbackStatus == (if reply.delivered then Delivered else CallbackFailed)
                && out.log == log + [Attempt(reply.delivered, o.status)]
                && (Due(out.o, now, cfg) ==> cfg.retryMs == 0 && reply.elapsed == 0))
  {
  }

  /**
   A due order with an address is told something iff it is not an EasyPay order, or it succeeded and its credential is
   there to sign with; what it is told is its status.
   */
  lemma DueIsToldIff(o: Order, log: seq<Attempt>, reply: Reply, now: int, cfg: Config)
    requires Due(o, now, cfg) && HasAddress(o.route)
    ensures var told := Undisturbed(o, log, false, reply, now, cfg).log;
            if o.route.easyPay.Some? && !(o.status == Succeeded && reply.credential) then told == log
            else told == log + [Attempt(reply.delivered, o.status)]
  {
  }

  /**
   When a failed dispatch is tried again: with attempts left it is due exactly one retry interval after its reply came,
   and with none left it is never due again.
   */
  lemma FailureIsRetriedAfterInterval(o: Order, log: seq<Attempt>, reply: Reply, now: int, cfg: Config, t: int)
    requires Due(o, now, cfg)
    requires Undisturbed(o, log, false, reply, now, cfg).log == log + [Attempt(false, o.status)]
    ensures var out := Undisturbed(o, log, false, reply, now, cfg).o;
            if o.callbackAttemptsCount + 1 < cfg.maxAttempts then Due(out, t, cfg) <==> t >= now + reply.elapsed + cfg.retryMs
            else !Due(out, t, cfg) && out.nextCallbackAt.None?
  {
    var told := Undisturbed(o, log, false, reply, now, cfg).log;
    assert told[|log|] == Attempt(false, o.status);
    assert told == log || told[|log|] == Attempt(reply.delivered, o.status);
  }

  /** One visit of the worker: when, and what the world answers. */
  datatype Visit = Visit(now: int, reply: Reply)

  /** The order is due at every one of these visits. */
  predicate AlwaysDue(o: Order, log: seq<Attempt>, visits: seq<Visit>, cfg: Config)
    decreases |visits|
  {
    visits != [] ==>
      && Due(o, visits[0].now, cfg)
      && var out := Undisturbed(o, log, false, visits[0].reply, visits[0].now, cfg);
         AlwaysDue(out.o, out.log, visits[1..], cfg)
  }

  /** The worker drains: an order is due at no more visits than it has attempts left. */
  lemma {:induction false} WorkerDrains(o: Order, log: seq<Attempt>, visits: seq<Visit>, cfg: Config)
    requires AlwaysDue(o, log, visits, cfg)
    ensures visits != [] ==> |visits| <= cfg.maxAttempts - o.callbackAttemptsCount
    decreases |visits|
  {
    if visits != [] {
      var out := Undisturbed(o, log, false, visits[0].reply, visits[0].now, cfg);
      DueDispatchProgresses(o, log, visits[0].reply, visits[0].now, cfg);
      WorkerDrains(out.o, out.log, visits[1..], cfg);
    }
  }

  /** Every visit but the last one fails, and the next one comes no earlier than a retry interval after its reply. */
  predicate Spaced(visits: seq<Visit>, cfg: Config) {
    forall k | 0 <= k < |visits| - 1 ::
      && !visits[k].reply.delivered
      && visits[k + 1].now >= visits[k].now + visits[k].reply.elapsed + cfg.retryMs
  }

  /**
   Exactly when an order with an address and something to tell is due at all of these visits: at the first one, and
   then one retry interval after each failed reply or later, as long as attempts are left.
   */
  lemma {:induction false} AlwaysDueIffSpaced(o: Order, log: seq<Attempt>, visits: seq<Visit>, cfg: Config)
    requires HasAddress(o.route) && visits != [] && Due(o, visits[0].now, cfg)
    requires forall k | 0 <= k < |visits| :: HasPlan(o, visits[k].reply)
    ensures AlwaysDue(o, log, visits, cfg) <==>
            |visits| <= cfg.maxAttempts - o.callbackAttemptsCount && Spaced(visits, cfg)
    decreases |visits|
  {
    var v, rest := visits[0], visits[1..];
    var out := Undisturbed(o, log, false, v.reply, v.now, cfg);
    DueDispatchProgresses(o, log, v.reply, v.now, cfg);
    assert out.o.route == o.route && out.o.status == o.status;
    if rest != [] {
      SpacedNext(visits, cfg);
      if !v.reply.delivered {
        FailureIsRetriedAfterInterval(o, log, v.reply, v.now, cfg, rest[0].now);
        if Due(out.o, rest[0].now, cfg) {
          assert forall k | 0 <= k < |rest| :: rest[k] == visits[k + 1];
          AlwaysDueIffSpaced(out.o, out.log, rest, cfg);
        }
      }
    }
  }

  lemma SpacedNext(visits: seq<Visit>, cfg: Config)
    requires |visits| > 1
    ensures Spaced(visits, cfg) <==>
            && !visits[0].reply.delivered && visits[1].now >= visits[0].now + visits[0].reply.elapsed + cfg.retryMs
            && Spaced(visits[1..], cfg)
  {
    var rest := visits[1..];
    if Spaced(rest, cfg) && !visits[0].reply.delivered
       && visits[1].now >= visits[0].now + visits[0].reply.elapsed + cfg.retryMs {
      forall k | 0 <= k < |visits| - 1
        ensures !visits[k].reply.delivered && visits[k + 1].now >= visits[k].now + visits[k].reply.elapsed + cfg.retryMs {
        if k > 0 {
          assert rest[k - 1] == visits[k] && rest[k - 1 + 1] == visits[k + 1];
        }
      }
    }
    if Spaced(visits, cfg) {
      assert visits[0 + 1].now >= visits[0].now + visits[0].reply.elapsed + cfg.retryMs;
      forall k | 0 <= k < |rest| - 1
        ensures !rest[k].reply.delivered && rest[k + 1].now >= rest[k].now + rest[k].reply.elapsed + cfg.retryMs {
        assert rest[k] == visits[k + 1] && rest[k + 1] == visits[k + 1 + 1];
      }
    }
  }
}
