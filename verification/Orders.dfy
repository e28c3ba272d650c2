/**
 The payment-order row and the single statement that applies a provider notification to it
 (lib/orders/service.ts).  Amounts are integer cents, instants integer milliseconds.
 */
module Orders {
  import opened Options
  import opened PaymentStatuses

  type OrderId = string
  type EventId = string

  datatype CallbackStatus = NotRequired | CallbackPending | CallbackProcessing | Delivered | CallbackFailed

  /** Where merchant callbacks go.  `easyPay` is present for EasyPay orders and holds their notify URL. */
  datatype CallbackRoute = CallbackRoute(
    enabled: bool, callbackUrl: Option<string>, callbackBase: Option<string>, easyPay: Option<Option<string>>)

  /**
   `leftOpenAt` and `creditedBy` are history: the instant the row first left PENDING/PROCESSING and
   the bill events whose notifications made it succeed.  Nothing the gateway does depends on them.
   */
  datatype Order = Order(
    account: Option<string>, channel: string, currency: string,
    amount: int, payable: Option<int>,
    status: PaymentStatus, providerStatus: string, gatewayOrderId: Option<string>,
    createdAt: int, expireAt: Option<int>, paidAt: Option<int>, completedAt: Option<int>,
    route: CallbackRoute, callbackStatus: CallbackStatus, nextCallbackAt: Option<int>, callbackAttemptsCount: nat,
    leftOpenAt: Option<int>, creditedBy: set<EventId>)
  {
    /** `order.payableAmount ?? order.amount` */
    function Effective(): int {
      payable.GetOr(amount)
    }

    predicate Open() {
      IsOpen(status)
    }
  }

  datatype NotifiedAmount = Malformed | Cents(cents: int)

  /** `ctfEvidence` is `evidenceKind === "ctf-capture"`; `bill` is the event id in its raw payload. */
  datatype Notification = Notification(
    gatewayOrderId: Option<string>, providerStatus: string, amount: Option<NotifiedAmount>,
    paidAt: Option<int>, succeeds: bool, ctfEvidence: bool, bill: Option<EventId>)

  /** NOVAPAY_REQUIRE_NOTIFICATION_AMOUNT together with the environment default. */
  datatype AmountPolicy = Enforced | Waived | Misconfigured

  datatype Error =
    | OrderNotFound
    | EvidenceChannelMismatch
    | AmountConfigInvalid
    | AmountRequired
    | AmountInvalid
    | AmountMismatch
    | GatewayOrderIdTaken
    | UniqueAmountExhausted

  const CTF_ALIPAY := "ctf.alipay.monitor"
  const CTF_WXPAY := "ctf.wxpay.monitor"

  predicate IsCtfChannel(channel: string) {
    channel == CTF_ALIPAY || channel == CTF_WXPAY
  }

  // ---------- acceptance ----------

  /** assertPaymentNotificationAmountMatches: the tolerance is one cent either way. */
  function AmountError(expected: int, actual: Option<NotifiedAmount>, requireAmount: bool, policy: AmountPolicy):
    Option<Error>
  {
    match actual
    case None =>
      if !requireAmount then None
      else if policy.Misconfigured? then Some(AmountConfigInvalid)
      else if policy.Enforced? then Some(AmountRequired)
      else None
    case Some(Malformed) => Some(AmountInvalid)
    case Some(Cents(cents)) =>
      if expected - cents > 1 || cents - expected > 1 then Some(AmountMismatch) else None
  }

  /** The checks that come before the row is written; None means accepted. */
  function Rejection(o: Order, n: Notification, policy: AmountPolicy): Option<Error> {
    if n.ctfEvidence && !IsCtfChannel(o.channel) then Some(EvidenceChannelMismatch)
    else AmountError(o.Effective(), n.amount, n.succeeds, policy)
  }

  predicate Accepts(o: Order, n: Notification, policy: AmountPolicy) {
    Rejection(o, n, policy).None?
  }

  // ---------- the update ----------

  function GetCallbackTarget(route: CallbackRoute): Option<string> {
    if !route.enabled then None else route.callbackUrl.OrElse(route.callbackBase)
  }

  predicate HasTarget(route: CallbackRoute) {
    var target := GetCallbackTarget(route);
    target.Some? && target.value != ""
  }

  predicate ForcesCallback(o: Order, next: PaymentStatus) {
    IsTerminal(next) && IsTerminal(o.status) && o.status != next && HasTarget(o.route)
  }

  predicate QueuesCallback(o: Order, next: PaymentStatus) {
    && IsTerminal(next)
    && HasTarget(o.route)
    && (o.callbackStatus != Delivered || ForcesCallback(o, next))
  }

  /** The row written by applyPaymentNotification for an accepted notification. */
  function Apply(o: Order, n: Notification, now: int): Order {
    var next := Resolve(o.status, n.providerStatus, n.succeeds);
    var queue := QueuesCallback(o, next);
    o.(
      status := next,
      providerStatus := n.providerStatus,
      gatewayOrderId := n.gatewayOrderId.OrElse(o.gatewayOrderId),
      paidAt := if n.succeeds then n.paidAt.OrElse(o.paidAt).OrElse(Some(now)) else o.paidAt,
      completedAt := if IsTerminal(next) then o.completedAt.OrElse(Some(now)) else o.completedAt,
      callbackStatus :=
        if queue then CallbackPending else if HasTarget(o.route) then o.callbackStatus else NotRequired,
      nextCallbackAt := if queue then Some(now) else o.nextCallbackAt,
      leftOpenAt := if IsTerminal(next) then o.leftOpenAt.OrElse(Some(now)) else o.leftOpenAt,
      creditedBy := if n.succeeds && n.bill.Some? then o.creditedBy + {n.bill.value} else o.creditedBy)
  }

  // ---------- notification sequences ----------

  /** Delivering notifications one after the other; a rejected one throws and leaves the row alone. */
  function Deliver(o: Order, ns: seq<Notification>, policy: AmountPolicy, now: int): Order
    decreases |ns|
  {
    if ns == [] then o
    else Deliver(if Accepts(o, ns[0], policy) then Apply(o, ns[0], now) else o, ns[1..], policy, now)
  }

  predicate SameTerms(a: Order, b: Order) {
    a.amount == b.amount && a.payable == b.payable && a.channel == b.channel
  }

  ghost predicate AsksFor(o: Order, ns: seq<Notification>, policy: AmountPolicy, status: PaymentStatus) {
    exists n :: n in ns && Accepts(o, n, policy) && Target(n.providerStatus, n.succeeds) == status
  }

  /** The final status is the least upper bound of the initial one and everything accepted. */
  lemma {:induction false} DeliverIsLeastUpperBound(o: Order, ns: seq<Notification>, policy: AmountPolicy, now: int)
    ensures SameTerms(o, Deliver(o, ns, policy, now))
    ensures Rank(o.status) <= Rank(Deliver(o, ns, policy, now).status)
    ensures forall status | AsksFor(o, ns, policy, status) ::
              Rank(status) <= Rank(Deliver(o, ns, policy, now).status)
    ensures var final := Deliver(o, ns, policy, now).status;
            final == o.status || AsksFor(o, ns, policy, final)
    decreases |ns|
  {
    if ns != [] {
      var head, rest := ns[0], ns[1..];
      var o' := if Accepts(o, head, policy) then Apply(o, head, now) else o;
      ResolveIsJoin(o.status, head.providerStatus, head.succeeds);
      DeliverIsLeastUpperBound(o', rest, policy, now);
      assert forall n :: Rejection(o', n, policy) == Rejection(o, n, policy);
      forall status | AsksFor(o, ns, policy, status)
        ensures Rank(status) <= Rank(Deliver(o, ns, policy, now).status)
      {
        var n :| n in ns && Accepts(o, n, policy) && Target(n.providerStatus, n.succeeds) == status;
        if n in rest {
          assert AsksFor(o', rest, policy, status);
        } else {
          assert n == head;
        }
      }
      var final := Deliver(o, ns, policy, now).status;
      if final != o'.status {
        var n :| n in rest && Accepts(o', n, policy) && Target(n.providerStatus, n.succeeds) == final;
        assert n in ns && Accepts(o, n, policy);
        assert AsksFor(o, ns, policy, final);
      } else if final != o.status {
        assert head in ns && Accepts(o, head, policy);
        assert AsksFor(o, ns, policy, final);
      }
    }
  }

  /** Reordering, repeating or dropping duplicates of notifications never changes the final status. */
  lemma {:induction false} DeliveryOrderIsIrrelevant(
      o: Order, ns: seq<Notification>, ms: seq<Notification>, policy: AmountPolicy, now: int, later: int)
    requires forall n :: n in ns <==> n in ms
    ensures Deliver(o, ns, policy, now).status == Deliver(o, ms, policy, later).status
  {
    DeliverIsLeastUpperBound(o, ns, policy, now);
    DeliverIsLeastUpperBound(o, ms, policy, later);
    forall status ensures AsksFor(o, ns, policy, status) <==> AsksFor(o, ms, policy, status) {
    }
  }

  /** A row whose completion time is set exactly when it is terminal. */
  predicate Stamped(o: Order) {
    IsTerminal(o.status) <==> o.completedAt.Some?
  }

  ghost predicate AcceptsSuccess(o: Order, ns: seq<Notification>, policy: AmountPolicy) {
    exists n :: n in ns && n.succeeds && Accepts(o, n, policy)
  }

  /** The completion time is the first terminal instant and stays; any accepted success leaves a payment time. */
  lemma {:induction false} DeliveryStampsOnce(o: Order, ns: seq<Notification>, policy: AmountPolicy, now: int)
    requires Stamped(o)
    ensures var final := Deliver(o, ns, policy, now);
            && Stamped(final)
            && (o.completedAt.Some? ==> final.completedAt == o.completedAt)
            && (o.completedAt.None? && IsTerminal(final.status) ==> final.completedAt == Some(now))
            && (o.paidAt.Some? || AcceptsSuccess(o, ns, policy) ==> final.paidAt.Some?)
            && (!AcceptsSuccess(o, ns, policy) ==> final.paidAt == o.paidAt)
    decreases |ns|
  {
    if ns != [] {
      var o' := if Accepts(o, ns[0], policy) then Apply(o, ns[0], now) else o;
      ResolveIsJoin(o.status, ns[0].providerStatus, ns[0].succeeds);
      DeliveryStampsOnce(o', ns[1..], policy, now);
      assert forall n :: Rejection(o', n, policy) == Rejection(o, n, policy);
      if AcceptsSuccess(o', ns[1..], policy) {
        var n :| n in ns[1..] && n.succeeds && Accepts(o', n, policy);
        assert n in ns && Accepts(o, n, policy);
        assert AcceptsSuccess(o, ns, policy);
      } else if AcceptsSuccess(o, ns, policy) {
        var n :| n in ns && n.succeeds && Accepts(o, n, policy);
        assert n !in ns[1..] && n == ns[0];
      }
    }
  }

  /** What the last accepted notification that says something about a column says. */
  function LastSaid<T>(o: Order, ns: seq<Notification>, policy: AmountPolicy, says: Notification -> Option<T>): Option<T>
  {
    if ns == [] then None
    else
      var last := ns[|ns| - 1];
      if Accepts(o, last, policy) && says(last).Some? then says(last) else LastSaid(o, ns[..|ns| - 1], policy, says)
  }

  /** Only a success tells when the order was paid. */
  function SaysPaidAt(): Notification -> Option<int> {
    (n: Notification) => if n.succeeds then n.paidAt else None
  }

  function SaysGatewayId(): Notification -> Option<string> {
    (n: Notification) => n.gatewayOrderId
  }

  function SaysProviderStatus(): Notification -> Option<string> {
    (n: Notification) => Some(n.providerStatus)
  }

  lemma {:induction false} DeliverPush(o: Order, ns: seq<Notification>, n: Notification, policy: AmountPolicy, now: int)
    ensures var before := Deliver(o, ns, policy, now);
            && SameTerms(o, before)
            && Deliver(o, ns + [n], policy, now) == if Accepts(o, n, policy) then Apply(before, n, now) else before
    decreases |ns|
  {
    if ns == [] {
      assert ([n])[1..] == [] && [] + [n] == [n];
    } else {
      var o' := if Accepts(o, ns[0], policy) then Apply(o, ns[0], now) else o;
      assert (ns + [n])[1..] == ns[1..] + [n];
      DeliverPush(o', ns[1..], n, policy, now);
    }
  }

  lemma AcceptsSuccessPush(o: Order, ns: seq<Notification>, n: Notification, policy: AmountPolicy)
    ensures AcceptsSuccess(o, ns + [n], policy) <==> AcceptsSuccess(o, ns, policy) || (n.succeeds && Accepts(o, n, policy))
  {
    assert forall m :: m in ns + [n] <==> m in ns || m == n;
  }

  lemma LastSaidPush<T>(
      o: Order, ns: seq<Notification>, n: Notification, policy: AmountPolicy, says: Notification -> Option<T>)
    ensures LastSaid(o, ns + [n], policy, says)
         == if Accepts(o, n, policy) && says(n).Some? then says(n) else LastSaid(o, ns, policy, says)
  {
    assert (ns + [n])[..|ns|] == ns;
  }

  /**
   The payment time is that of the last accepted success that brings one.  A success that brings none leaves the one
   there is, or the instant of its own arrival where there is none.
   */
  lemma {:induction false} PaymentTimeIsLastTold(o: Order, ns: seq<Notification>, policy: AmountPolicy, now: int)
    ensures var told := LastSaid(o, ns, policy, SaysPaidAt());
            Deliver(o, ns, policy, now).paidAt
            == if told.Some? then told
               else if o.paidAt.None? && AcceptsSuccess(o, ns, policy) then Some(now)
               else o.paidAt
    decreases |ns|
  {
    if ns != [] {
      var front, last := ns[..|ns| - 1], ns[|ns| - 1];
      assert ns == front + [last];
      PaymentTimeIsLastTold(o, front, policy, now);
      DeliverPush(o, front, last, policy, now);
      AcceptsSuccessPush(o, front, last, policy);
      LastSaidPush(o, front, last, policy, SaysPaidAt());
    }
  }

  /** The provider status is that of the last accepted notification, the gateway id that of the last one with an id. */
  lemma {:induction false} LastWordCounts(o: Order, ns: seq<Notification>, policy: AmountPolicy, now: int)
    ensures var final := Deliver(o, ns, policy, now);
            && final.gatewayOrderId == LastSaid(o, ns, policy, SaysGatewayId()).OrElse(o.gatewayOrderId)
            && final.providerStatus == LastSaid(o, ns, policy, SaysProviderStatus()).GetOr(o.providerStatus)
    decreases |ns|
  {
    if ns != [] {
      var front, last := ns[..|ns| - 1], ns[|ns| - 1];
      assert ns == front + [last];
      LastWordCounts(o, front, policy, now);
      DeliverPush(o, front, last, policy, now);
      LastSaidPush(o, front, last, policy, SaysGatewayId());
      LastSaidPush(o, front, last, policy, SaysProviderStatus());
    }
  }

  /**
   What is accepted: capture evidence on capture channels only, an amount within a cent of what is to be paid, and no
   success without an amount unless the policy waives it.
   */
  lemma AcceptsIff(o: Order, n: Notification, policy: AmountPolicy)
    ensures Accepts(o, n, policy) <==>
            && (n.ctfEvidence ==> o.channel == "ctf.alipay.monitor" || o.channel == "ctf.wxpay.monitor")
            && match n.amount
               case None => n.succeeds ==> policy.Waived?
               case Some(Malformed) => false
               case Some(Cents(cents)) => -1 <= (if o.payable.Some? then o.payable.value else o.amount) - cents <= 1
  {
  }

  // ---------- creation ----------

  /** How `provider.createPayment` ends. */
  datatype CreateOutcome =
    | Confirmed(processing: bool, providerStatus: string, gatewayOrderId: Option<string>)
    | CreateFailed

  /** The second write of createPaymentOrder; it overwrites the status whatever it is by then. */
  function FinishCreate(o: Order, outcome: CreateOutcome, now: int): Order {
    match outcome
    case Confirmed(processing, providerStatus, gatewayOrderId) =>
      o.(status := if processing then Processing else Pending,
         providerStatus := providerStatus,
         gatewayOrderId := gatewayOrderId.OrElse(o.gatewayOrderId))
    case CreateFailed =>
      o.(status := Failed, providerStatus := "CREATE_FAILED",
         leftOpenAt := o.leftOpenAt.OrElse(Some(now)))
  }

  /** Statuses only rise through creation exactly when nothing higher arrived before the second write. */
  lemma FinishCreateRises(o: Order, outcome: CreateOutcome, now: int)
    ensures Rank(FinishCreate(o, outcome, now).status) >= Rank(o.status) <==>
            match outcome
            case Confirmed(true, _, _) => o.Open()
            case Confirmed(false, _, _) => o.status == Pending
            case CreateFailed => o.Open() || o.status == Failed
  {
  }

  // ---------- expiry ----------

  /** buildExpiredPaymentNotification: it carries `order.amount`, not the payable amount. */
  function ExpiredNotification(o: Order): Notification {
    Notification(o.gatewayOrderId, ORDER_EXPIRED, Some(Cents(o.amount)), None, false, false, None)
  }

  /** An open order is cancelled by its own expiry iff its tail is at most one cent; otherwise nothing happens. */
  lemma ExpiryCancelsIffTailIsTiny(o: Order, policy: AmountPolicy, now: int)
    requires o.Open()
    ensures var o' := Deliver(o, [ExpiredNotification(o)], policy, now);
            if -1 <= o.Effective() - o.amount <= 1
            then o'.status == Cancelled && o'.providerStatus == ORDER_EXPIRED
            else o' == o
  {
    ExpiryIsClosing();
    var n := ExpiredNotification(o);
    assert Deliver(o, [n], policy, now) == if Accepts(o, n, policy) then Apply(o, n, now) else o;
  }
}
