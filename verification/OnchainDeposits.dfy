/**
 Matching on-chain USDT deposits to orders (lib/onchain/service.ts) as a transition system.  An order is
 created together with its USDT quote, and looking up candidates is one step with paying the order; reading
 a deposit and marking it MATCHED are steps of their own, so scans, rematches and crashes interleave freely.
 */
module OnchainDeposits {
  import opened Options
  import opened PaymentStatuses

  type OrderId = string

  /** The unique key of a deposit. */
  datatype DepositId = DepositId(chain: string, txHash: string, txIndex: string)

  /**
   `cents` is the order's CNY amount, `units` what is to be paid, in 10^-6 USDT.  `leftOpenAt` and `creditedBy` are
   history: when the row first left PENDING/PROCESSING, and which deposits paid it.
   */
  datatype UsdtOrder = UsdtOrder(
    account: string, chain: string, cents: int, units: int, status: PaymentStatus,
    createdAt: int, expireAt: Option<int>, quoteExpiresAt: Option<int>, updatedAt: int,
    gatewayOrderId: Option<string>, leftOpenAt: Option<int>, creditedBy: set<DepositId>)

  datatype Deposit = Deposit(account: Option<string>, units: int, observedAt: int, order: Option<OrderId>)

  /** `seen` is what matchers have read and may still act on. */
  datatype Chain = Chain(
    clock: int, orders: map<OrderId, UsdtOrder>, deposits: map<DepositId, Deposit>, seen: set<(DepositId, Deposit)>)

  datatype Step =
    | Tick(ms: nat)
    | Create(id: OrderId, account: string, chain: string, cents: int, units: int,
             expireAt: Option<int>, quoteExpiresAt: Option<int>)
    | Quote(id: OrderId, providerStatus: string)
    | Touch(id: OrderId)
    | Upsert(deposit: DepositId, account: string, units: int, observedAt: int)
    | Read(deposit: DepositId)
    | Pay(deposit: DepositId, read: Deposit)
    | Mark(deposit: DepositId, id: OrderId)

  function Init(clock: int): Chain {
    Chain(clock, map[], map[], {})
  }

  // ---------- allocation ----------

  /** An open order whose quote has not run out keeps its amount. */
  predicate HoldsAmount(o: UsdtOrder, account: string, chain: string, now: int) {
    && o.account == account && o.chain == chain && IsOpen(o.status)
    && (o.quoteExpiresAt.None? || o.quoteExpiresAt.value >= now)
  }

  /** The amounts allocateUsdtTailAmount finds occupied. */
  function Occupied(orders: map<OrderId, UsdtOrder>, account: string, chain: string, now: int): set<int> {
    set id | id in orders && HoldsAmount(orders[id], account, chain, now) :: orders[id].units
  }

  // ---------- candidates ----------

  predicate NotBefore(limit: Option<int>, t: int) {
    limit.None? || limit.value >= t
  }

  predicate Eligible(o: UsdtOrder, chain: string, d: Deposit) {
    && d.account == Some(o.account) && o.chain == chain && o.units == d.units
    && o.createdAt <= d.observedAt && NotBefore(o.quoteExpiresAt, d.observedAt) && NotBefore(o.expireAt, d.observedAt)
    && (IsOpen(o.status) || (o.status.Cancelled? && o.updatedAt >= d.observedAt))
  }

  function Candidates(orders: map<OrderId, UsdtOrder>, chain: string, d: Deposit): set<OrderId> {
    set id | id in orders && Eligible(orders[id], chain, d)
  }

  /** The order a deposit can be for, column by column. */
  lemma EligibleMeans(o: UsdtOrder, chain: string, d: Deposit)
    ensures Eligible(o, chain, d) <==>
            && d.account == Some(o.account) && chain == o.chain && d.units == o.units
            && o.createdAt <= d.observedAt
            && (o.expireAt.Some? ==> d.observedAt <= o.expireAt.value)
            && (o.quoteExpiresAt.Some? ==> d.observedAt <= o.quoteExpiresAt.value)
            && (o.status == Pending || o.status == Processing || (o.status == Cancelled && d.observedAt <= o.updatedAt))
  {
  }

  /** The amounts that are not free: those of waiting orders of the account on the chain whose quote has not run out. */
  lemma OccupiedMeans(orders: map<OrderId, UsdtOrder>, account: string, chain: string, now: int, units: int)
    ensures units in Occupied(orders, account, chain, now) <==>
            exists id | id in orders ::
              && orders[id].units == units && orders[id].account == account && orders[id].chain == chain
              && (orders[id].status == Pending || orders[id].status == Processing)
              && (orders[id].quoteExpiresAt.Some? ==> now <= orders[id].quoteExpiresAt.value)
  {
    if id :| id in orders && orders[id].units == units && orders[id].account == account && orders[id].chain == chain
             && (orders[id].status == Pending || orders[id].status == Processing)
             && (orders[id].quoteExpiresAt.Some? ==> now <= orders[id].quoteExpiresAt.value) {
      assert HoldsAmount(orders[id], account, chain, now);
    }
  }

  // ---------- payment ----------

  /** The unique index on gatewayOrderId. */
  predicate TxTaken(orders: map<OrderId, UsdtOrder>, id: OrderId, txHash: string) {
    exists other :: other in orders && other != id && orders[other].gatewayOrderId == Some(txHash)
  }

  /** applyPaymentNotification with `succeeds`, the transaction hash as gateway id and the exact amount. */
  function Credit(o: UsdtOrder, deposit: DepositId, now: int): UsdtOrder {
    o.(status := Succeeded, updatedAt := now, gatewayOrderId := Some(deposit.txHash),
       leftOpenAt := o.leftOpenAt.OrElse(Some(now)), creditedBy := o.creditedBy + {deposit})
  }

  /** The CNY amount and the USDT amount, read as plain numbers, are within 0.01 of each other. */
  predicate Near(o: UsdtOrder) {
    -10_000 <= o.units - o.cents * 10_000 <= 10_000
  }

  /** In yuan and USDT: the figures differ by at most 0.01. */
  lemma NearMeans(o: UsdtOrder)
    ensures Near(o) <==> -0.01 <= o.units as real / 1_000_000.0 - o.cents as real / 100.0 <= 0.01
  {
  }

  /**
   A closing or expiry notification of a USDT order.  It quotes the CNY amount and is compared with the USDT amount,
   so it throws (None) unless the two are near.
   */
  function Quoted(o: UsdtOrder, providerStatus: string, now: int): Option<UsdtOrder> {
    if !Near(o) then None
    else
      var next := Resolve(o.status, providerStatus, false);
      Some(o.(status := next, updatedAt := now,
              leftOpenAt := if IsTerminal(next) then o.leftOpenAt.OrElse(Some(now)) else o.leftOpenAt))
  }

  datatype Expiry = Untouched | Expired(order: UsdtOrder) | ExpiryThrew

  /** expirePaymentOrderIfNeeded: the provider cannot query; it can close if its account is there. */
  function Expire(o: UsdtOrder, hasAccount: bool, now: int): Expiry {
    if IsTerminal(o.status) || o.expireAt.None? || o.expireAt.value > now then Untouched
    else
      var closed := if hasAccount then Quoted(o, "CLOSED", now) else None;
      var expired := Quoted(o, ORDER_EXPIRED, now);
      if closed.Some? then Expired(closed.value)
      else if expired.Some? then Expired(expired.value)
      else ExpiryThrew
  }

  lemma ClosedIsClosing()
    ensures IsClosing("CLOSED")
  {
    assert MatchesAt("CLOSED", "CLOSE", 0);
    assert Mentions("CLOSED", ["CLOSE", "CANCEL", "EXPIRE"][0]);
  }

  /** An overdue USDT order is cancelled iff its two amounts are near; otherwise closing and expiry both throw. */
  lemma OverdueIsCancelledIffNear(o: UsdtOrder, hasAccount: bool, now: int)
    requires IsOpen(o.status) && o.expireAt.Some? && o.expireAt.value <= now
    ensures match Expire(o, hasAccount, now)
            case Untouched => false
            case Expired(order) => Near(o) && order.status == Cancelled
            case ExpiryThrew => !Near(o)
  {
    ClosedIsClosing();
    ExpiryIsClosing();
  }

  /** How matchDepositToOrder ends: the last case is the write refused by the unique index. */
  datatype MatchOutcome = Skipped | NotFound | Ambiguous | Matched(id: OrderId) | Threw

  function Outcome(orders: map<OrderId, UsdtOrder>, deposit: DepositId, read: Deposit): MatchOutcome {
    var found := Candidates(orders, deposit.chain, read);
    if read.account.None? || read.order.Some? then Skipped
    else if found == {} then NotFound
    else if id :| id in found && found == {id} then
      if TxTaken(orders, id, deposit.txHash) then Threw else Matched(id)
    else Ambiguous
  }

  /** What decides a match: nothing to do, no order that fits, more than one, or one, which a used transaction cannot pay. */
  lemma OutcomeMeans(orders: map<OrderId, UsdtOrder>, deposit: DepositId, read: Deposit)
    ensures var fitting := set id | id in orders && Eligible(orders[id], deposit.chain, read);
            var outcome := Outcome(orders, deposit, read);
            && (outcome == Skipped <==> read.account.None? || read.order.Some?)
            && (outcome != Skipped ==>
                  && (outcome == NotFound <==> |fitting| == 0) && (outcome == Ambiguous <==> |fitting| > 1)
                  && (outcome.Matched? ==> fitting == {outcome.id})
                  && (outcome == Threw ==> forall id | id in fitting ::
                        exists other | other in orders && other != id :: orders[other].gatewayOrderId == Some(deposit.txHash))
                  && (outcome.Matched? ==> forall other | other in orders && other != outcome.id ::
                        orders[other].gatewayOrderId != Some(deposit.txHash)))
  {
    var fitting := set id | id in orders && Eligible(orders[id], deposit.chain, read);
    assert fitting == Candidates(orders, deposit.chain, read);
    if id :| id in fitting {
      assert fitting == {id} + (fitting - {id});
      if |fitting| == 1 {
        assert fitting == {id};
      } else {
        assert forall x | x in fitting :: fitting != {x};
      }
    }
  }

  // ---------- steps ----------

  ghost predicate Enabled(c: Chain, step: Step) {
    match step
    case Tick(_) => true
    case Create(id, account, chain, _, units, _, _) =>
      id !in c.orders && units !in Occupied(c.orders, account, chain, c.clock)
    case Quote(id, _) => id in c.orders
    case Touch(id) => id in c.orders
    case Upsert(_, _, _, observedAt) => true
    case Read(d) => d in c.deposits
    case Pay(d, read) => (d, read) in c.seen && Outcome(c.orders, d, read).Matched?
    case Mark(d, id) => d in c.deposits && id in c.orders && d in c.orders[id].creditedBy
  }

  function Upserted(deposits: map<DepositId, Deposit>, d: DepositId, account: string, units: int, observedAt: int): Deposit {
    Deposit(Some(account), units, observedAt, if d in deposits then deposits[d].order else None)
  }

  ghost function Next(c: Chain, step: Step): Chain {
    if !Enabled(c, step) then c
    else match step
      case Tick(ms) => c.(clock := c.clock + ms)
      case Create(id, account, chain, cents, units, expireAt, quoteExpiresAt) =>
        c.(orders := c.orders[id := UsdtOrder(account, chain, cents, units, Pending, c.clock, expireAt, quoteExpiresAt,
                                              c.clock, None, None, {})])
      case Quote(id, providerStatus) =>
        var o := c.orders[id];
        c.(orders := c.orders[id := Quoted(o, providerStatus, c.clock).GetOr(o)])
      case Touch(id) => c.(orders := c.orders[id := c.orders[id].(updatedAt := c.clock)])
      case Upsert(d, account, units, observedAt) =>
        c.(deposits := c.deposits[d := Upserted(c.deposits, d, account, units, observedAt)])
      case Read(d) => c.(seen := c.seen + {(d, c.deposits[d])})
      case Pay(d, read) =>
        var id := Outcome(c.orders, d, read).id;
        c.(orders := c.orders[id := Credit(c.orders[id], d, c.clock)])
      case Mark(d, id) => c.(deposits := c.deposits[d := c.deposits[d].(order := Some(id))])
  }

  ghost function Run(c: Chain, steps: seq<Step>): Chain
    decreases |steps|
  {
    if steps == [] then c else Run(Next(c, steps[0]), steps[1..])
  }

  // ---------- invariants ----------

  predicate RowInTime(o: UsdtOrder, now: int) {
    && o.createdAt <= now && o.updatedAt <= now
    && (IsOpen(o.status) <==> o.leftOpenAt.None?)
    && (o.leftOpenAt.Some? ==> o.leftOpenAt.value <= now && o.leftOpenAt.value <= o.updatedAt)
    && (o.status.Cancelled? || o.status.Failed? ==> Near(o))
  }

  predicate Timely(c: Chain) {
    forall id | id in c.orders :: RowInTime(c.orders[id], c.clock)
  }

  predicate SameSlot(a: UsdtOrder, b: UsdtOrder) {
    a.account == b.account && a.chain == b.chain && a.units == b.units
  }

  /** By the time b came, a had left PENDING/PROCESSING or its quote had run out. */
  predicate Yields(a: UsdtOrder, b: UsdtOrder) {
    || (a.leftOpenAt.Some? && a.leftOpenAt.value <= b.createdAt)
    || (a.quoteExpiresAt.Some? && a.quoteExpiresAt.value < b.createdAt)
  }

  predicate SlotsYield(orders: map<OrderId, UsdtOrder>) {
    forall i, j | i in orders && j in orders && i != j && SameSlot(orders[i], orders[j]) ::
      Yields(orders[i], orders[j]) || Yields(orders[j], orders[i])
  }

  /** An order that deposits have paid was paid by one deposit, whose transaction it carries. */
  ghost predicate PaidByOne(o: UsdtOrder) {
    o.creditedBy != {} ==>
      o.status.Succeeded? && exists d :: o.creditedBy == {d} && o.gatewayOrderId == Some(d.txHash)
  }

  ghost predicate AllPaidByOne(orders: map<OrderId, UsdtOrder>) {
    forall id | id in orders :: PaidByOne(orders[id])
  }

  predicate TxUnique(orders: map<OrderId, UsdtOrder>) {
    forall i, j | i in orders && j in orders && i != j ::
      orders[i].gatewayOrderId.Some? ==> orders[i].gatewayOrderId != orders[j].gatewayOrderId
  }

  predicate MarksAreTrue(c: Chain) {
    forall d | d in c.deposits && c.deposits[d].order.Some? ::
      c.deposits[d].order.value in c.orders && d in c.orders[c.deposits[d].order.value].creditedBy
  }

  ghost predicate Inv(c: Chain) {
    && Timely(c) && SlotsYield(c.orders) && AllPaidByOne(c.orders) && TxUnique(c.orders) && MarksAreTrue(c)
  }

  lemma OutcomeIsEligible(orders: map<OrderId, UsdtOrder>, deposit: DepositId, read: Deposit)
    requires Outcome(orders, deposit, read).Matched?
    ensures var id := Outcome(orders, deposit, read).id;
            && id in orders && Eligible(orders[id], deposit.chain, read) && !TxTaken(orders, id, deposit.txHash)
            && forall other | other in orders && other != id :: !Eligible(orders[other], deposit.chain, read)
  {
    var id := Outcome(orders, deposit, read).id;
    assert id in Candidates(orders, deposit.chain, read);
    forall other | other in orders && other != id ensures !Eligible(orders[other], deposit.chain, read) {
      assert other !in Candidates(orders, deposit.chain, read);
    }
  }

  lemma NextKeepsTimes(c: Chain, step: Step)
    requires Timely(c)
    ensures Timely(Next(c, step))
  {
  }

  /** Only creation adds a row, and rows only ever gain `leftOpenAt`. */
  predicate Persists(before: UsdtOrder, after: UsdtOrder) {
    && SameSlot(before, after) && before.createdAt == after.createdAt && before.quoteExpiresAt == after.quoteExpiresAt
    && (before.leftOpenAt.Some? ==> after.leftOpenAt == before.leftOpenAt)
  }

  lemma RowsPersist(c: Chain, step: Step, id: OrderId)
    requires id in c.orders
    ensures id in Next(c, step).orders && Persists(c.orders[id], Next(c, step).orders[id])
  {
  }

  lemma NewRowFindsSlotsYielded(c: Chain, step: Step, id: OrderId)
    requires Timely(c) && Enabled(c, step) && step.Create? && id in c.orders
    requires SameSlot(c.orders[id], Next(c, step).orders[step.id])
    ensures Yields(c.orders[id], Next(c, step).orders[step.id])
  {
  }

  lemma NextKeepsSlots(c: Chain, step: Step)
    requires Timely(c) && SlotsYield(c.orders)
    ensures SlotsYield(Next(c, step).orders)
  {
    var v := Next(c, step);
    forall i, j | i in v.orders && j in v.orders && i != j && SameSlot(v.orders[i], v.orders[j])
      ensures Yields(v.orders[i], v.orders[j]) || Yields(v.orders[j], v.orders[i]) {
      if i in c.orders {
        RowsPersist(c, step, i);
      }
      if j in c.orders {
        RowsPersist(c, step, j);
      }
      if i !in c.orders {
        NewRowFindsSlotsYielded(c, step, j);
      } else if j !in c.orders {
        NewRowFindsSlotsYielded(c, step, i);
      }
    }
  }

  lemma NextKeepsPayments(c: Chain, step: Step)
    requires AllPaidByOne(c.orders)
    ensures AllPaidByOne(Next(c, step).orders)
  {
  }

  lemma NextKeepsTx(c: Chain, step: Step)
    requires TxUnique(c.orders)
    ensures TxUnique(Next(c, step).orders)
  {
  }

  lemma NextKeepsMarks(c: Chain, step: Step)
    requires MarksAreTrue(c)
    ensures MarksAreTrue(Next(c, step))
  {
  }

  lemma NextKeepsInv(c: Chain, step: Step)
    requires Inv(c)
    ensures Inv(Next(c, step))
  {
    NextKeepsTimes(c, step);
    NextKeepsSlots(c, step);
    NextKeepsPayments(c, step);
    NextKeepsTx(c, step);
    NextKeepsMarks(c, step);
  }

  lemma {:induction false} RunKeepsInv(c: Chain, steps: seq<Step>)
    requires Inv(c)
    ensures Inv(Run(c, steps))
    decreases |steps|
  {
    if steps != [] {
      NextKeepsInv(c, steps[0]);
      RunKeepsInv(Next(c, steps[0]), steps[1..]);
    }
  }

  // ---------- main results ----------

  /** The row, near, was cancelled no later than the other one was created, and written again (or at that very instant). */
  predicate TouchedAfter(a: UsdtOrder, b: UsdtOrder, observedAt: int) {
    && Near(a) && a.status.Cancelled? && a.leftOpenAt.Some?
    && a.leftOpenAt.value <= b.createdAt <= observedAt <= a.updatedAt
  }

  /**
   Two orders are candidates for one deposit only if one of them, with near amounts, was cancelled and its row was
   written at or after the deposit, which itself came no earlier than the cancellation.
   */
  lemma TwoCandidatesNeedATouch(clock: int, steps: seq<Step>, chain: string, d: Deposit, i: OrderId, j: OrderId)
    requires i != j
    requires i in Candidates(Run(Init(clock), steps).orders, chain, d)
    requires j in Candidates(Run(Init(clock), steps).orders, chain, d)
    ensures var orders := Run(Init(clock), steps).orders;
            TouchedAfter(orders[i], orders[j], d.observedAt) || TouchedAfter(orders[j], orders[i], d.observedAt)
  {
    RunKeepsInv(Init(clock), steps);
    var c := Run(Init(clock), steps);
    assert RowInTime(c.orders[i], c.clock) && RowInTime(c.orders[j], c.clock);
    assert SameSlot(c.orders[i], c.orders[j]);
  }

  /** An order whose amounts are not near is paid or stays open for good: nothing else is ever accepted for it. */
  lemma FarOrdersAreNeverCancelled(clock: int, steps: seq<Step>, id: OrderId)
    requires id in Run(Init(clock), steps).orders && !Near(Run(Init(clock), steps).orders[id])
    ensures var o := Run(Init(clock), steps).orders[id]; IsOpen(o.status) || o.status.Succeeded?
  {
    RunKeepsInv(Init(clock), steps);
    var c := Run(Init(clock), steps);
    assert RowInTime(c.orders[id], c.clock);
  }

  /** So a deposit never has two candidates among such orders, whatever is written when. */
  lemma AtMostOneCandidate(clock: int, steps: seq<Step>, chain: string, d: Deposit)
    ensures var orders := Run(Init(clock), steps).orders;
            |set id | id in Candidates(orders, chain, d) && !Near(orders[id])| <= 1
  {
    var orders := Run(Init(clock), steps).orders;
    var found := set id | id in Candidates(orders, chain, d) && !Near(orders[id]);
    if i :| i in found {
      forall j | j in found ensures j == i {
        if j != i {
          TwoCandidatesNeedATouch(clock, steps, chain, d, i, j);
        }
      }
      assert found == {i};
    }
  }

  /**
   For near amounts there is at most one candidate if rows are not written after cancellation and no order is
   created in the very instant another closes.
   */
  lemma AtMostOneUntouchedCandidate(clock: int, steps: seq<Step>, chain: string, d: Deposit)
    requires var orders := Run(Init(clock), steps).orders;
             && (forall id | id in orders && orders[id].status.Cancelled? && Near(orders[id]) ::
                   orders[id].leftOpenAt == Some(orders[id].updatedAt))
             && (forall i, j | i in orders && j in orders && i != j && Near(orders[i]) ::
                   orders[i].leftOpenAt != Some(orders[j].createdAt))
    ensures |Candidates(Run(Init(clock), steps).orders, chain, d)| <= 1
  {
    var orders := Run(Init(clock), steps).orders;
    var found := Candidates(orders, chain, d);
    if i :| i in found {
      forall j | j in found ensures j == i {
        if j != i {
          TwoCandidatesNeedATouch(clock, steps, chain, d, i, j);
        }
      }
      assert found == {i};
    }
  }

  /**
   Over every interleaving of scans, rematches and crashes, the deposits of one transaction pay at most one
   order, and only one of them does.
   */
  lemma OnePaymentPerTransaction(clock: int, steps: seq<Step>, i: OrderId, j: OrderId, d: DepositId, e: DepositId)
    requires var orders := Run(Init(clock), steps).orders;
             && i in orders && j in orders && d in orders[i].creditedBy && e in orders[j].creditedBy
    requires d.txHash == e.txHash
    ensures i == j && d == e
  {
    RunKeepsInv(Init(clock), steps);
    var orders := Run(Init(clock), steps).orders;
    assert PaidByOne(orders[i]) && PaidByOne(orders[j]);
  }

  /** An order is paid by at most one deposit, and a deposit marked MATCHED did pay the order it names. */
  lemma MatchedDepositsAreInjective(clock: int, steps: seq<Step>, d: DepositId, e: DepositId)
    requires var c := Run(Init(clock), steps);
             && d in c.deposits && e in c.deposits && c.deposits[d].order.Some? && c.deposits[d].order == c.deposits[e].order
    ensures d == e
    ensures var c := Run(Init(clock), steps);
            c.deposits[d].order.value in c.orders && c.orders[c.deposits[d].order.value].creditedBy == {d}
  {
    RunKeepsInv(Init(clock), steps);
    var c := Run(Init(clock), steps);
    assert PaidByOne(c.orders[c.deposits[d].order.value]);
  }

  // ---------- an exact payment arrives ----------

  /** A deposit that fits an open order and no other one pays it, unless its transaction has paid another order. */
  lemma FittingDepositPays(c: Chain, d: DepositId, account: string, units: int, observedAt: int, id: OrderId)
    requires (d in c.deposits ==> c.deposits[d].order.None?) && id in c.orders && IsOpen(c.orders[id].status)
    requires forall other | other in c.orders && other != id :: c.orders[other].gatewayOrderId != Some(d.txHash)
    requires forall other | other in c.orders ::
               Eligible(c.orders[other], d.chain, Deposit(Some(account), units, observedAt, None)) <==> other == id
    ensures var read := Deposit(Some(account), units, observedAt, None);
            var v := Run(c, [Upsert(d, account, units, observedAt), Read(d), Pay(d, read)]);
            var w := Next(v, Mark(d, id));
            && id in w.orders && w.orders[id].status == Succeeded && w.orders[id].gatewayOrderId == Some(d.txHash)
            && d in w.orders[id].creditedBy && w.orders[id].updatedAt == c.clock
            && (forall other | other in c.orders && other != id :: other in w.orders && w.orders[other] == c.orders[other])
            && d in w.deposits && w.deposits[d] == read.(order := Some(id))
  {
    var read := Deposit(Some(account), units, observedAt, None);
    ThreeSteps(c, [Upsert(d, account, units, observedAt), Read(d), Pay(d, read)]);
    DepositIsRead(c, d, account, units, observedAt);
    LoneCandidateMatches(c.orders, d, read, id);
    var c2 := c.(deposits := c.deposits[d := read], seen := c.seen + {(d, read)});
    PaymentIsWritten(c2, d, read, id);
  }

  lemma DepositIsRead(c: Chain, d: DepositId, account: string, units: int, observedAt: int)
    requires d in c.deposits ==> c.deposits[d].order.None?
    ensures var read := Deposit(Some(account), units, observedAt, None);
            Next(Next(c, Upsert(d, account, units, observedAt)), Read(d))
            == c.(deposits := c.deposits[d := read], seen := c.seen + {(d, read)})
  {
  }

  lemma PaymentIsWritten(c: Chain, d: DepositId, read: Deposit, id: OrderId)
    requires (d, read) in c.seen && d in c.deposits && id in c.orders && Outcome(c.orders, d, read) == Matched(id)
    ensures Next(Next(c, Pay(d, read)), Mark(d, id))
         == c.(orders := c.orders[id := Credit(c.orders[id], d, c.clock)],
               deposits := c.deposits[d := c.deposits[d].(order := Some(id))])
  {
  }

  lemma LoneCandidateMatches(orders: map<OrderId, UsdtOrder>, d: DepositId, read: Deposit, id: OrderId)
    requires read.account.Some? && read.order.None? && id in orders
    requires forall other | other in orders && other != id :: orders[other].gatewayOrderId != Some(d.txHash)
    requires forall other | other in orders :: Eligible(orders[other], d.chain, read) <==> other == id
    ensures Outcome(orders, d, read) == Matched(id)
  {
    assert Candidates(orders, d.chain, read) == {id};
    assert id in Candidates(orders, d.chain, read);
  }

  /**
   From creation to credit, for orders whose amounts are not near: the exact amount, sent within the validity, pays the
   order if no order of its account, chain and USDT amount has near amounts.
   */
  lemma OpenOrderIsPaid(clock: int, steps: seq<Step>, d: DepositId, observedAt: int, id: OrderId)
    requires var c := Run(Init(clock), steps);
             && id in c.orders && IsOpen(c.orders[id].status) && d.chain == c.orders[id].chain
             && c.orders[id].createdAt <= observedAt
             && NotBefore(c.orders[id].expireAt, observedAt) && NotBefore(c.orders[id].quoteExpiresAt, observedAt)
             && (d in c.deposits ==> c.deposits[d].order.None?)
             && (forall other | other in c.orders && other != id :: c.orders[other].gatewayOrderId != Some(d.txHash))
             && (forall other | other in c.orders && SameSlot(c.orders[id], c.orders[other]) :: !Near(c.orders[other]))
    ensures var c := Run(Init(clock), steps);
            var o := c.orders[id];
            var read := Deposit(Some(o.account), o.units, observedAt, None);
            var v := Next(Run(c, [Upsert(d, o.account, o.units, observedAt), Read(d), Pay(d, read)]), Mark(d, id));
            && id in v.orders && v.orders[id].status == Succeeded && d in v.orders[id].creditedBy
            && d in v.deposits && v.deposits[d].order == Some(id)
  {
    var c := Run(Init(clock), steps);
    var o := c.orders[id];
    var read := Deposit(Some(o.account), o.units, observedAt, None);
    forall other | other in c.orders ensures Eligible(c.orders[other], d.chain, read) <==> other == id {
      if Eligible(c.orders[other], d.chain, read) && other != id {
        assert id in Candidates(c.orders, d.chain, read) && other in Candidates(c.orders, d.chain, read);
        TwoCandidatesNeedATouch(clock, steps, d.chain, read, id, other);
      }
    }
    FittingDepositPays(c, d, o.account, o.units, observedAt, id);
  }

  // ---------- what goes wrong ----------

  /** A second transfer of a transaction that already paid an order is refused whenever it has its one candidate. */
  lemma SecondTransferAlwaysThrows(
      clock: int, steps: seq<Step>, paid: OrderId, d: DepositId, e: DepositId, read: Deposit, id: OrderId)
    requires var orders := Run(Init(clock), steps).orders;
             paid in orders && d in orders[paid].creditedBy && Candidates(orders, e.chain, read) == {id}
    requires e.txHash == d.txHash && read.account.Some? && read.order.None?
    ensures Outcome(Run(Init(clock), steps).orders, e, read) == Threw
  {
    RunKeepsInv(Init(clock), steps);
    var orders := Run(Init(clock), steps).orders;
    assert PaidByOne(orders[paid]);
    assert id in Candidates(orders, e.chain, read);
    assert orders[paid].gatewayOrderId == Some(e.txHash) && paid != id;
    assert TxTaken(orders, id, e.txHash);
  }

  /** An order closed by its merchant at 0, and the open order of the same amount created at 1. */
  function ClosedRow(account: string, chain: string, cents: int, units: int, updatedAt: int): UsdtOrder {
    UsdtOrder(account, chain, cents, units, Cancelled, 0, Some(9), Some(9), updatedAt, None, Some(0), {})
  }

  function OpenRow(account: string, chain: string, cents: int, units: int): UsdtOrder {
    UsdtOrder(account, chain, cents, units, Pending, 1, Some(10), Some(10), 1, None, None, {})
  }

  /** The first order is created and closed. */
  function CloseFirst(account: string, chain: string, cents: int, units: int): seq<Step> {
    [Create("closed", account, chain, cents, units, Some(9), Some(9)), Quote("closed", "CLOSED"), Tick(1)]
  }

  /** Its amount is given to a second order, and a callback of the first one writes its row. */
  function ReuseThenTouch(account: string, chain: string, cents: int, units: int): seq<Step> {
    [Create("open", account, chain, cents, units, Some(10), Some(10)), Tick(1), Touch("closed")]
  }

  lemma CloseFirstRuns(account: string, chain: string, cents: int, units: int)
    requires -10_000 <= units - cents * 10_000 <= 10_000
    ensures Run(Init(0), CloseFirst(account, chain, cents, units))
         == Chain(1, map["closed" := ClosedRow(account, chain, cents, units, 0)], map[], {})
  {
    ClosedIsClosing();
    ThreeSteps(Init(0), CloseFirst(account, chain, cents, units));
  }

  lemma ReuseThenTouchRuns(account: string, chain: string, cents: int, units: int)
    ensures Run(Chain(1, map["closed" := ClosedRow(account, chain, cents, units, 0)], map[], {}),
                ReuseThenTouch(account, chain, cents, units))
         == Chain(2, map["closed" := ClosedRow(account, chain, cents, units, 2),
                         "open" := OpenRow(account, chain, cents, units)], map[], {})
  {
    var c := Chain(1, map["closed" := ClosedRow(account, chain, cents, units, 0)], map[], {});
    assert Occupied(c.orders, account, chain, 1) == {};
    ThreeSteps(c, ReuseThenTouch(account, chain, cents, units));
  }

  /**
   With near amounts it does happen: an order closed by its merchant, whose row a callback then writes once more,
   keeps a payment from reaching the open order it is for.
   */
  lemma TouchHidesPayment(account: string, chain: string, cents: int, units: int, d: DepositId) returns (steps: seq<Step>)
    requires d.chain == chain && -10_000 <= units - cents * 10_000 <= 10_000
    ensures var c := Run(Init(0), steps);
            && d in c.deposits && Outcome(c.orders, d, c.deposits[d]) == Ambiguous
            && "open" in c.orders && IsOpen(c.orders["open"].status) && Eligible(c.orders["open"], chain, c.deposits[d])
            && forall id | id in c.orders && id != "open" :: c.orders[id].status.Cancelled?
  {
    var before, after := CloseFirst(account, chain, cents, units), ReuseThenTouch(account, chain, cents, units);
    var last := Upsert(d, account, units, 2);
    steps := before + after + [last];
    CloseFirstRuns(account, chain, cents, units);
    ReuseThenTouchRuns(account, chain, cents, units);
    RunAppend(Init(0), before, after);
    RunAppend(Init(0), before + after, [last]);
    BothAreCandidates(account, chain, cents, units, d);
  }

  lemma BothAreCandidates(account: string, chain: string, cents: int, units: int, d: DepositId)
    requires d.chain == chain
    ensures var orders := map["closed" := ClosedRow(account, chain, cents, units, 2),
                              "open" := OpenRow(account, chain, cents, units)];
            var deposit := Deposit(Some(account), units, 2, None);
            && Run(Chain(2, orders, map[], {}), [Upsert(d, account, units, 2)])
               == Chain(2, orders, map[d := deposit], {})
            && Eligible(orders["open"], chain, deposit) && Outcome(orders, d, deposit) == Ambiguous
  {
    var orders := map["closed" := ClosedRow(account, chain, cents, units, 2),
                      "open" := OpenRow(account, chain, cents, units)];
    var c, last := Chain(2, orders, map[], {}), Upsert(d, account, units, 2);
    assert Run(c, [last]) == Run(Next(c, last), [last][1..]) == Next(c, last);
    var found := Candidates(orders, chain, Deposit(Some(account), units, 2, None));
    assert "closed" in found && "open" in found;
  }

  lemma ThreeSteps(c: Chain, steps: seq<Step>)
    requires |steps| == 3
    ensures Run(c, steps) == Next(Next(Next(c, steps[0]), steps[1]), steps[2])
  {
    var c1 := Next(c, steps[0]);
    var c2 := Next(c1, steps[1]);
    assert Run(c1, steps[1..]) == Run(c2, steps[1..][1..]);
    assert steps[1..][1..] == steps[2..];
    assert Run(c2, steps[2..]) == Run(Next(c2, steps[2]), steps[2..][1..]);
  }

  lemma {:induction false} RunAppend(c: Chain, xs: seq<Step>, ys: seq<Step>)
    ensures Run(c, xs + ys) == Run(Run(c, xs), ys)
    decreases |xs|
  {
    if xs == [] {
      assert xs + ys == ys;
    } else {
      assert (xs + ys)[1..] == xs[1..] + ys;
      RunAppend(Next(c, xs[0]), xs[1..], ys);
    }
  }
}
