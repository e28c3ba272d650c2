/**
 Fees, ledger entries and what they add up to (lib/finance/calculations.ts).  Amounts are integer
 cents, fee rates ten-thousandths; days are Shanghai day numbers (module DayKeys).
 */
module Finance {
  import opened Sums
  import opened DayKeys

  datatype Account = Account(merchant: string, currency: string)

  datatype EntryKind = PaymentCapture | PaymentFee | RefundPaid | Adjustment | SettlementPayout

  datatype Direction = Credit | Debit

  datatype Entry = Entry(account: Account, occurredAt: int, kind: EntryKind, direction: Direction, amount: int)

  /** One merchant, one currency, one day. */
  datatype Bucket = Bucket(account: Account, day: int)

  function BucketOf(e: Entry): Bucket {
    Bucket(e.account, DayOf(e.occurredAt))
  }

  // ---------- fees ----------

  /** calculatePaymentFeeSnapshot: Math.round of amount * rate, halves up; negative inputs count as zero. */
  function Fee(amount: int, rate: int): int {
    if amount <= 0 || rate <= 0 then 0 else (2 * amount * rate + 10000) / 20000
  }

  function Net(amount: int, rate: int): int {
    (if amount <= 0 then 0 else amount) - Fee(amount, rate)
  }

  lemma FeeIsNearest(amount: int, rate: int)
    requires amount >= 0 && rate >= 0
    ensures -5000 < 10000 * Fee(amount, rate) - amount * rate <= 5000
    ensures Fee(amount, rate) + Net(amount, rate) == amount
  {
  }

  function FeeAt(rate: int): int -> int {
    amount => Fee(amount, rate)
  }

  function Itself(): int -> int {
    amount => amount
  }

  /** Fees on n orders at one rate are together within n/2 cents of the exact fee on their total. */
  lemma {:induction false} TotalFeesAreClose(amounts: seq<int>, rate: int)
    requires rate >= 0 && forall a | a in amounts :: a >= 0
    ensures -5000 * |amounts| <= 10000 * SumBy(amounts, FeeAt(rate)) - SumBy(amounts, Itself()) * rate <= 5000 * |amounts|
  {
    if amounts == [] {
    } else {
      var head, rest, fees := amounts[0], SumBy(amounts[1..], Itself()), SumBy(amounts[1..], FeeAt(rate));
      assert head in amounts && forall a | a in amounts[1..] :: a in amounts;
      FeeIsNearest(head, rate);
      TotalFeesAreClose(amounts[1..], rate);
      assert SumBy(amounts, Itself()) == head + rest && SumBy(amounts, FeeAt(rate)) == Fee(head, rate) + fees;
      Distributes(head, rest, rate);
    }
  }

  lemma Distributes(x: int, y: int, z: int)
    ensures (x + y) * z == x * z + y * z
  {
  }

  // ---------- signs ----------

  /** How an entry moves the balance: by its direction. */
  function Signed(e: Entry): int {
    if e.direction.Credit? then e.amount else -e.amount
  }

  /** How an entry moves a settlement: by its type, and by direction for adjustments only. */
  function Settled(e: Entry): int {
    match e.kind
    case PaymentCapture => e.amount
    case PaymentFee => -e.amount
    case RefundPaid => -e.amount
    case Adjustment => if e.direction.Debit? then -e.amount else e.amount
    case SettlementPayout => 0
  }

  /** The directions the ledger writes: captures are credits; fees, refunds and payouts are debits. */
  predicate WellSigned(e: Entry) {
    match e.kind
    case PaymentCapture => e.direction.Credit?
    case Adjustment => true
    case _ => e.direction.Debit?
  }

  // ---------- sums over the ledger ----------

  function SettledAmount(): Entry -> int {
    (e: Entry) => Settled(e)
  }

  function OfKind(kind: EntryKind): Entry -> int {
    (e: Entry) => if e.kind == kind then e.amount else 0
  }

  function Adjusted(): Entry -> int {
    (e: Entry) => if e.kind.Adjustment? then Settled(e) else 0
  }

  /** A measure restricted to one bucket. */
  function InBucket(v: Entry -> int, b: Bucket): Entry -> int {
    (e: Entry) => if BucketOf(e) == b then v(e) else 0
  }

  function SettledThrough(account: Account, day: int): Entry -> int {
    (e: Entry) => if e.account == account && DayOf(e.occurredAt) <= day then Settled(e) else 0
  }

  function PaidOutThrough(account: Account, day: int): Entry -> int {
    (e: Entry) => if e.account == account && DayOf(e.occurredAt) <= day && e.kind.SettlementPayout? then e.amount else 0
  }

  function SignedThrough(account: Account, day: int): Entry -> int {
    (e: Entry) => if e.account == account && DayOf(e.occurredAt) <= day then Signed(e) else 0
  }

  function Credited(): Entry -> int {
    (e: Entry) => if e.direction.Credit? then e.amount else 0
  }

  function Debited(): Entry -> int {
    (e: Entry) => if e.direction.Debit? then e.amount else 0
  }

  /** The naive balance: everything up to and including a day. */
  function Balance(entries: seq<Entry>, account: Account, day: int): int {
    SumBy(entries, SignedThrough(account, day))
  }

  /** The net of one day's settlement, recomputed from the whole ledger. */
  function DayNet(entries: seq<Entry>, account: Account, day: int): int {
    SumBy(entries, InBucket(SettledAmount(), Bucket(account, day)))
  }

  /** Day nets from `first` to `day`. */
  function NetsThrough(entries: seq<Entry>, account: Account, first: int, day: int): int
    decreases day - first + 1
  {
    if day < first then 0 else NetsThrough(entries, account, first, day - 1) + DayNet(entries, account, day)
  }

  // ---------- reconciliation ----------

  lemma {:induction false} NetsAddUp(entries: seq<Entry>, account: Account, first: int, day: int)
    requires forall e | e in entries :: first <= DayOf(e.occurredAt)
    ensures NetsThrough(entries, account, first, day) == SumBy(entries, SettledThrough(account, day))
    decreases day - first + 1
  {
    if day < first {
      SumZero(entries, SettledThrough(account, day));
    } else {
      NetsAddUp(entries, account, first, day - 1);
      SumSplit(entries, SettledThrough(account, day), SettledThrough(account, day - 1),
               InBucket(SettledAmount(), Bucket(account, day)));
    }
  }

  /**
   Reconciliation: the closing balance of any day is the sum of the settlement nets up to that day minus
   the payouts up to that day.
   */
  lemma Reconciliation(entries: seq<Entry>, account: Account, first: int, day: int)
    requires forall e | e in entries :: WellSigned(e) && first <= DayOf(e.occurredAt)
    ensures Balance(entries, account, day)
         == NetsThrough(entries, account, first, day) - SumBy(entries, PaidOutThrough(account, day))
  {
    NetsAddUp(entries, account, first, day);
    SumSplit(entries, SettledThrough(account, day), SignedThrough(account, day), PaidOutThrough(account, day));
  }

  /** It needs the signs: one entry with the wrong direction breaks it by twice its amount. */
  lemma ReconciliationNeedsSigns(e: Entry)
    ensures Balance([e], e.account, DayOf(e.occurredAt))
         == NetsThrough([e], e.account, DayOf(e.occurredAt), DayOf(e.occurredAt))
            - SumBy([e], PaidOutThrough(e.account, DayOf(e.occurredAt)))
       <==> WellSigned(e) || e.amount == 0
  {
    var day := DayOf(e.occurredAt);
    NetsAddUp([e], e.account, day, day);
    assert [e][1..] == [];
    assert SumBy([e], SettledThrough(e.account, day)) == Settled(e);
    assert SumBy([e], SignedThrough(e.account, day)) == Signed(e);
  }

  // ---------- partition into buckets ----------

  /** What a measure comes to in each bucket. */
  function TotalIn(entries: seq<Entry>, v: Entry -> int): Bucket -> int {
    (b: Bucket) => SumBy(entries, InBucket(v, b))
  }

  function ShareOf(e: Entry, v: Entry -> int): Bucket -> int {
    (b: Bucket) => if b == BucketOf(e) then v(e) else 0
  }

  /** Adding up bucket by bucket counts every entry of the listed buckets exactly once. */
  lemma {:induction false} BucketsPartition(entries: seq<Entry>, buckets: seq<Bucket>, v: Entry -> int)
    requires Distinct(buckets) && forall e | e in entries && v(e) != 0 :: BucketOf(e) in buckets
    ensures SumBy(buckets, TotalIn(entries, v)) == SumBy(entries, v)
    decreases |entries|
  {
    if entries == [] {
      assert forall b :: TotalIn(entries, v)(b) == 0;
      SumZero(buckets, TotalIn(entries, v));
    } else {
      var e, rest := entries[0], entries[1..];
      assert e in entries && forall x | x in rest :: x in entries;
      BucketsPartition(rest, buckets, v);
      assert forall b :: TotalIn(entries, v)(b) == InBucket(v, b)(e) + SumBy(rest, InBucket(v, b));
      SumSplit(buckets, TotalIn(entries, v), ShareOf(e, v), TotalIn(rest, v));
      if v(e) == 0 {
        SumZero(buckets, ShareOf(e, v));
      } else {
        var k :| 0 <= k < |buckets| && buckets[k] == BucketOf(e);
        SumRemove(buckets, k, ShareOf(e, v));
        SumZero(buckets[..k] + buckets[k + 1..], ShareOf(e, v));
      }
    }
  }

  /** The nets of a list of settlements that covers the ledger add up to its settled total. */
  lemma SettlementsCoverLedger(entries: seq<Entry>, buckets: seq<Bucket>)
    requires Distinct(buckets) && forall e | e in entries && Settled(e) != 0 :: BucketOf(e) in buckets
    ensures SumBy(buckets, TotalIn(entries, SettledAmount())) == SumBy(entries, SettledAmount())
  {
    BucketsPartition(entries, buckets, SettledAmount());
  }
}
