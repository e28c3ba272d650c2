/**
 The merchant ledger as a view of orders and refunds (lib/finance/ledger.ts).  Rows are keyed by their
 unique external key; merchants, currencies, amounts and fees of a row never change once written.
 */
module Ledgers {
  import opened Options
  import opened Sums
  import opened DayKeys
  import opened Finance

  type OrderId = string
  type RefundId = string

  /** What the ledger reads of an order. */
  datatype Order = Order(
    account: Account, succeeded: bool, amount: int, fee: int, net: int,
    paidAt: Option<int>, completedAt: Option<int>, updatedAt: int)
  {
    function OccurredAt(): int {
      paidAt.GetOr(completedAt.GetOr(updatedAt))
    }
  }

  datatype Refund = Refund(
    account: Account, succeeded: bool, amount: int, refundedAt: Option<int>, updatedAt: int)
  {
    function OccurredAt(): int {
      refundedAt.GetOr(updatedAt)
    }
  }

  datatype Books = Books(orders: map<OrderId, Order>, refunds: map<RefundId, Refund>)

  /** The external keys: `payment:capture:`, `payment:fee:`, `refund:` and `settlement:payout:`. */
  datatype Key = CaptureOf(order: OrderId) | FeeOf(order: OrderId) | RefundOf(refund: RefundId) | PayoutOf(bucket: Bucket)

  type Ledger = map<Key, Entry>

  function CaptureEntry(o: Order): Entry {
    Entry(o.account, o.OccurredAt(), PaymentCapture, Credit, o.amount)
  }

  function FeeEntry(o: Order): Entry {
    Entry(o.account, o.OccurredAt(), PaymentFee, Debit, o.fee)
  }

  function RefundEntry(r: Refund): Entry {
    Entry(r.account, r.OccurredAt(), RefundPaid, Debit, r.amount)
  }

  predicate OrderSucceeded(books: Books, id: OrderId) {
    id in books.orders && books.orders[id].succeeded
  }

  predicate RefundSucceeded(books: Books, id: RefundId) {
    id in books.refunds && books.refunds[id].succeeded
  }

  // ---------- the incremental syncs ----------

  /** syncPaymentOrderLedgerEntries */
  function SyncOrder(books: Books, ledger: Ledger, id: OrderId): Ledger {
    if !OrderSucceeded(books, id) then ledger
    else
      var o := books.orders[id];
      var captured := ledger[CaptureOf(id) := CaptureEntry(o)];
      if o.fee > 0 then captured[FeeOf(id) := FeeEntry(o)] else captured - {FeeOf(id)}
  }

  /** syncPaymentRefundLedgerEntries */
  function SyncRefund(books: Books, ledger: Ledger, id: RefundId): Ledger {
    if !RefundSucceeded(books, id) then ledger
    else ledger[RefundOf(id) := RefundEntry(books.refunds[id])]
  }

  // ---------- the view ----------

  function Lookup(ledger: Ledger, k: Key): Option<Entry> {
    if k in ledger then Some(ledger[k]) else None
  }

  /** The row's order or refund is SUCCEEDED. */
  predicate Sourced(books: Books, k: Key) {
    match k
    case CaptureOf(id) => OrderSucceeded(books, id)
    case FeeOf(id) => OrderSucceeded(books, id)
    case RefundOf(id) => RefundSucceeded(books, id)
    case PayoutOf(_) => false
  }

  /** What the orders and refunds alone say the key should hold. */
  function View(books: Books, k: Key): Option<Entry> {
    if !Sourced(books, k) then None
    else match k
      case CaptureOf(id) => Some(CaptureEntry(books.orders[id]))
      case FeeOf(id) => if books.orders[id].fee > 0 then Some(FeeEntry(books.orders[id])) else None
      case RefundOf(id) => Some(RefundEntry(books.refunds[id]))
  }

  /** Apart from payouts, the ledger holds what the view says and nothing else. */
  ghost predicate IsView(books: Books, ledger: Ledger) {
    forall k: Key :: !k.PayoutOf? ==> Lookup(ledger, k) == View(books, k)
  }

  // ---------- backfill ----------

  /** What backfillMerchantLedgerEntries leaves under a key. */
  function Backfilled(books: Books, ledger: Ledger, k: Key): Option<Entry> {
    if Sourced(books, k) then View(books, k) else Lookup(ledger, k)
  }

  /** A row whose order or refund is no longer, or never was, SUCCEEDED. */
  predicate IsStale(books: Books, k: Key) {
    !k.PayoutOf? && !Sourced(books, k)
  }

  lemma SyncOrderLooksUp(books: Books, ledger: Ledger, id: OrderId, k: Key)
    ensures Lookup(SyncOrder(books, ledger, id), k)
         == if k == CaptureOf(id) || k == FeeOf(id) then Backfilled(books, ledger, k) else Lookup(ledger, k)
  {
  }

  /** An order was paid at its payment time; without one it counts from its completion, and failing that its last write. */
  function PaidWhen(o: Order): int {
    if o.paidAt.Some? then o.paidAt.value else if o.completedAt.Some? then o.completedAt.value else o.updatedAt
  }

  /** The rows of a SUCCEEDED order: its amount as a credit, and its fee, if there is one, as a debit, when it was paid. */
  lemma OrderRows(books: Books, ledger: Ledger, id: OrderId)
    requires OrderSucceeded(books, id)
    ensures var o := books.orders[id];
            var synced := SyncOrder(books, ledger, id);
            && Lookup(synced, CaptureOf(id)) == Some(Entry(o.account, PaidWhen(o), PaymentCapture, Credit, o.amount))
            && Lookup(synced, FeeOf(id))
               == if o.fee > 0 then Some(Entry(o.account, PaidWhen(o), PaymentFee, Debit, o.fee)) else None
  {
  }

  /** The row of a SUCCEEDED refund: its amount as a debit when it was refunded, or last written. */
  lemma RefundRow(books: Books, ledger: Ledger, id: RefundId)
    requires RefundSucceeded(books, id)
    ensures var r := books.refunds[id];
            var when := if r.refundedAt.Some? then r.refundedAt.value else r.updatedAt;
            Lookup(SyncRefund(books, ledger, id), RefundOf(id)) == Some(Entry(r.account, when, RefundPaid, Debit, r.amount))
  {
  }

  lemma SyncRefundLooksUp(books: Books, ledger: Ledger, id: RefundId, k: Key)
    ensures Lookup(SyncRefund(books, ledger, id), k)
         == if k == RefundOf(id) then Backfilled(books, ledger, k) else Lookup(ledger, k)
  {
  }

  ghost predicate IsBackfill(books: Books, before: Ledger, after: Ledger) {
    forall k: Key :: Lookup(after, k) == Backfilled(books, before, k)
  }

  /** Backfilling makes the ledger the view exactly when no stale row was in it, because it never removes one. */
  lemma BackfillIsViewIffNothingStale(books: Books, before: Ledger, after: Ledger)
    requires IsBackfill(books, before, after)
    ensures IsView(books, after) <==> forall k | k in before :: !IsStale(books, k)
  {
  }

  /** Repeating a backfill changes nothing. */
  lemma BackfillIsIdempotent(books: Books, before: Ledger, once: Ledger, twice: Ledger)
    requires IsBackfill(books, before, once) && IsBackfill(books, once, twice)
    ensures twice == once
  {
    forall k: Key ensures Lookup(twice, k) == Lookup(once, k) {
      assert Lookup(once, k) == Backfilled(books, before, k);
    }
    SameLookups(twice, once);
  }

  lemma SameLookups(xs: Ledger, ys: Ledger)
    requires forall k: Key :: Lookup(xs, k) == Lookup(ys, k)
    ensures xs == ys
  {
    forall k: Key ensures k in xs <==> k in ys {
      assert Lookup(xs, k) == Lookup(ys, k);
    }
    forall k | k in xs ensures xs[k] == ys[k] {
      assert Lookup(xs, k) == Lookup(ys, k);
    }
  }

  // ---------- conservation ----------

  /** The list names each row of the table once. */
  ghost predicate Lists<K(!new), V>(keys: seq<K>, table: map<K, V>) {
    Distinct(keys) && forall k :: k in keys <==> k in table
  }

  /** The rows of the ledger in the order of a listing. */
  function Rows(ledger: Ledger, keys: seq<Key>): seq<Entry>
    requires forall k | k in keys :: k in ledger
  {
    seq(|keys|, i requires 0 <= i < |keys| => ledger[keys[i]])
  }

  /** A measure of entries as a measure of keys. */
  function At(ledger: Ledger, v: Entry -> int): Key -> int {
    (k: Key) => if k in ledger then v(ledger[k]) else 0
  }

  lemma RowsMeasure(ledger: Ledger, keys: seq<Key>, v: Entry -> int)
    requires forall k | k in keys :: k in ledger
    ensures SumBy(Rows(ledger, keys), v) == SumBy(keys, At(ledger, v))
  {
    forall i | 0 <= i < |keys| ensures v(Rows(ledger, keys)[i]) == At(ledger, v)(keys[i]) {
      assert keys[i] in keys;
    }
    SumMapped(Rows(ledger, keys), keys, v, At(ledger, v));
  }

  /** The part of a measure carried by one kind of key. */
  function Captures(f: Key -> int): Key -> int {
    (k: Key) => if k.CaptureOf? then f(k) else 0
  }

  function Fees(f: Key -> int): Key -> int {
    (k: Key) => if k.FeeOf? then f(k) else 0
  }

  function RefundsOnly(f: Key -> int): Key -> int {
    (k: Key) => if k.RefundOf? then f(k) else 0
  }

  function Payouts(f: Key -> int): Key -> int {
    (k: Key) => if k.PayoutOf? then f(k) else 0
  }

  function Sum(f: Key -> int, g: Key -> int): Key -> int {
    (k: Key) => f(k) + g(k)
  }

  lemma {:induction false} SplitByKind(keys: seq<Key>, f: Key -> int)
    ensures SumBy(keys, f) == SumBy(keys, Captures(f)) + SumBy(keys, Fees(f))
                              + SumBy(keys, RefundsOnly(f)) + SumBy(keys, Payouts(f))
  {
    var orders, others := Sum(Captures(f), Fees(f)), Sum(RefundsOnly(f), Payouts(f));
    SumSplit(keys, f, orders, others);
    SumSplit(keys, orders, Captures(f), Fees(f));
    SumSplit(keys, others, RefundsOnly(f), Payouts(f));
  }

  /** The same measure on the ids behind the keys. */
  function CaptureBy(f: Key -> int): OrderId -> int {
    (id: OrderId) => f(CaptureOf(id))
  }

  function FeeBy(f: Key -> int): OrderId -> int {
    (id: OrderId) => f(FeeOf(id))
  }

  function RefundBy(f: Key -> int): RefundId -> int {
    (id: RefundId) => f(RefundOf(id))
  }

  /** Net amounts of the account's SUCCEEDED orders paid up to a day. */
  function NetThrough(books: Books, account: Account, day: int): OrderId -> int {
    (id: OrderId) =>
      if OrderSucceeded(books, id) && books.orders[id].account == account
         && DayOf(books.orders[id].OccurredAt()) <= day
      then books.orders[id].net else 0
  }

  /** Amounts of the account's SUCCEEDED refunds paid back up to a day. */
  function RefundedThrough(books: Books, account: Account, day: int): RefundId -> int {
    (id: RefundId) =>
      if RefundSucceeded(books, id) && books.refunds[id].account == account
         && DayOf(books.refunds[id].OccurredAt()) <= day
      then books.refunds[id].amount else 0
  }

  /** Every order carries the fee snapshot of its creation. */
  predicate FeesAddUp(books: Books) {
    forall id | id in books.orders ::
      books.orders[id].fee >= 0 && books.orders[id].amount == books.orders[id].fee + books.orders[id].net
  }

  lemma {:induction false} OrdersCarryCaptures(
      books: Books, ledger: Ledger, keys: seq<Key>, orders: seq<OrderId>, v: Entry -> int)
    requires IsView(books, ledger) && Lists(keys, ledger) && Lists(orders, books.orders)
    ensures SumBy(keys, Captures(At(ledger, v)))
         == SumBy(orders, CaptureBy(At(ledger, v)))
  {
    var f := Captures(At(ledger, v));
    forall k | k in keys && f(k) != 0 ensures exists id :: id in orders && CaptureOf(id) == k {
      assert k in ledger && View(books, k).Some?;
      assert k.order in orders;
    }
    SumAlong(keys, orders, f, CaptureBy(At(ledger, v)), (id: OrderId) => CaptureOf(id));
  }

  lemma {:induction false} OrdersCarryFees(
      books: Books, ledger: Ledger, keys: seq<Key>, orders: seq<OrderId>, v: Entry -> int)
    requires IsView(books, ledger) && Lists(keys, ledger) && Lists(orders, books.orders)
    ensures SumBy(keys, Fees(At(ledger, v)))
         == SumBy(orders, FeeBy(At(ledger, v)))
  {
    var f := Fees(At(ledger, v));
    forall k | k in keys && f(k) != 0 ensures exists id :: id in orders && FeeOf(id) == k {
      assert k in ledger && View(books, k).Some?;
      assert k.order in orders;
    }
    SumAlong(keys, orders, f, FeeBy(At(ledger, v)), (id: OrderId) => FeeOf(id));
  }

  lemma {:induction false} RefundsCarryRows(
      books: Books, ledger: Ledger, keys: seq<Key>, refunds: seq<RefundId>, v: Entry -> int)
    requires IsView(books, ledger) && Lists(keys, ledger) && Lists(refunds, books.refunds)
    ensures SumBy(keys, RefundsOnly(At(ledger, v)))
         == SumBy(refunds, RefundBy(At(ledger, v)))
  {
    var f := RefundsOnly(At(ledger, v));
    forall k | k in keys && f(k) != 0 ensures exists id :: id in refunds && RefundOf(id) == k {
      assert k in ledger && View(books, k).Some?;
      assert k.refund in refunds;
    }
    SumAlong(keys, refunds, f, RefundBy(At(ledger, v)), (id: RefundId) => RefundOf(id));
  }

  lemma {:induction false} NetIsCaptureLessFee(books: Books, ledger: Ledger, id: OrderId, account: Account, day: int)
    requires IsView(books, ledger) && FeesAddUp(books) && id in books.orders
    ensures var f := At(ledger, SignedThrough(account, day));
            f(CaptureOf(id)) + f(FeeOf(id)) == NetThrough(books, account, day)(id)
  {
    assert Lookup(ledger, CaptureOf(id)) == View(books, CaptureOf(id));
    assert Lookup(ledger, FeeOf(id)) == View(books, FeeOf(id));
  }

  lemma {:induction false} RefundIsDebited(books: Books, ledger: Ledger, id: RefundId, account: Account, day: int)
    requires IsView(books, ledger) && id in books.refunds
    ensures At(ledger, SignedThrough(account, day))(RefundOf(id)) == -RefundedThrough(books, account, day)(id)
  {
    assert Lookup(ledger, RefundOf(id)) == View(books, RefundOf(id));
  }

  /**
   Conservation: when the ledger is the view, the balance of an account on any day is the net of its
   SUCCEEDED orders, less its SUCCEEDED refunds, plus what the payout rows say, all up to that day.
   */
  lemma {:induction false} BalanceIsNetLessRefunds(
      books: Books, ledger: Ledger, keys: seq<Key>, orders: seq<OrderId>, refunds: seq<RefundId>, account: Account, day: int)
    requires IsView(books, ledger) && FeesAddUp(books)
    requires Lists(keys, ledger) && Lists(orders, books.orders) && Lists(refunds, books.refunds)
    ensures Balance(Rows(ledger, keys), account, day)
         == SumBy(orders, NetThrough(books, account, day)) - SumBy(refunds, RefundedThrough(books, account, day))
            + SumBy(keys, Payouts(At(ledger, SignedThrough(account, day))))
  {
    var v := SignedThrough(account, day);
    var f := At(ledger, v);
    RowsMeasure(ledger, keys, v);
    SplitByKind(keys, f);
    OrdersCarryCaptures(books, ledger, keys, orders, v);
    OrdersCarryFees(books, ledger, keys, orders, v);
    RefundsCarryRows(books, ledger, keys, refunds, v);
    OrdersNet(books, ledger, orders, account, day);
    RefundsDebit(books, ledger, refunds, account, day);
  }

  lemma {:induction false} OrdersNet(books: Books, ledger: Ledger, orders: seq<OrderId>, account: Account, day: int)
    requires IsView(books, ledger) && FeesAddUp(books) && forall id | id in orders :: id in books.orders
    ensures var f := At(ledger, SignedThrough(account, day));
            SumBy(orders, CaptureBy(f)) + SumBy(orders, FeeBy(f)) == SumBy(orders, NetThrough(books, account, day))
  {
    var f := At(ledger, SignedThrough(account, day));
    forall id | id in orders ensures f(CaptureOf(id)) + f(FeeOf(id)) == NetThrough(books, account, day)(id) {
      NetIsCaptureLessFee(books, ledger, id, account, day);
    }
    SumSplit(orders, NetThrough(books, account, day),
             CaptureBy(f), FeeBy(f));
  }

  lemma {:induction false} RefundsDebit(books: Books, ledger: Ledger, refunds: seq<RefundId>, account: Account, day: int)
    requires IsView(books, ledger) && forall id | id in refunds :: id in books.refunds
    ensures SumBy(refunds, RefundBy(At(ledger, SignedThrough(account, day))))
         == -SumBy(refunds, RefundedThrough(books, account, day))
  {
    var f := At(ledger, SignedThrough(account, day));
    forall id | id in refunds ensures f(RefundOf(id)) == -RefundedThrough(books, account, day)(id) {
      RefundIsDebited(books, ledger, id, account, day);
    }
    SumSplit(refunds, (id: RefundId) => 0, RefundBy(f), RefundedThrough(books, account, day));
    SumZero(refunds, (id: RefundId) => 0);
  }
}
