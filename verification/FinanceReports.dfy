/**
 Settlement digests and daily balance snapshots as the source computes them: accumulators, grouping
 maps, a sort and a running balance (lib/finance/calculations.ts, lib/finance/settlements.ts).
 */
module FinanceReports {
  import opened Sums
  import opened Sorting
  import opened DayKeys
  import opened Finance

  datatype Digest = Digest(gross: int, refund: int, fee: int, adjustment: int, net: int, payout: int)

  lemma NetIsSettledTotal(entries: seq<Entry>)
    ensures SumBy(entries, SettledAmount())
         == SumBy(entries, OfKind(PaymentCapture)) - SumBy(entries, OfKind(RefundPaid))
            - SumBy(entries, OfKind(PaymentFee)) + SumBy(entries, Adjusted())
  {
  }

  /** buildSettlementDigest: each bucket of money by type, and a net that signs every entry by type. */
  method BuildSettlementDigest(entries: seq<Entry>) returns (d: Digest)
    ensures d.gross == SumBy(entries, OfKind(PaymentCapture)) && d.refund == SumBy(entries, OfKind(RefundPaid))
    ensures d.fee == SumBy(entries, OfKind(PaymentFee)) && d.adjustment == SumBy(entries, Adjusted())
    ensures d.payout == SumBy(entries, OfKind(SettlementPayout))
    ensures d.net == SumBy(entries, SettledAmount())
  {
    var gross, refund, fee, adjustment, payout := 0, 0, 0, 0, 0;
    for i := 0 to |entries|
      invariant gross == SumBy(entries[..i], OfKind(PaymentCapture))
      invariant refund == SumBy(entries[..i], OfKind(RefundPaid))
      invariant fee == SumBy(entries[..i], OfKind(PaymentFee))
      invariant adjustment == SumBy(entries[..i], Adjusted())
      invariant payout == SumBy(entries[..i], OfKind(SettlementPayout))
    {
      var e := entries[i];
      PushAll(entries[..i], e);
      assert entries[..i + 1] == entries[..i] + [e];
      match e.kind {
        case PaymentCapture => gross := gross + e.amount;
        case PaymentFee => fee := fee + e.amount;
        case RefundPaid => refund := refund + e.amount;
        case SettlementPayout => payout := payout + e.amount;
        case Adjustment => adjustment := adjustment + (if e.direction.Debit? then -e.amount else e.amount);
      }
    }
    assert entries[..|entries|] == entries;
    NetIsSettledTotal(entries);
    d := Digest(gross, refund, fee, adjustment, gross - refund - fee + adjustment, payout);
  }

  lemma PushAll(entries: seq<Entry>, e: Entry)
    ensures forall kind :: SumBy(entries + [e], OfKind(kind)) == SumBy(entries, OfKind(kind)) + OfKind(kind)(e)
    ensures SumBy(entries + [e], Adjusted()) == SumBy(entries, Adjusted()) + Adjusted()(e)
  {
    forall kind ensures SumBy(entries + [e], OfKind(kind)) == SumBy(entries, OfKind(kind)) + OfKind(kind)(e) {
      SumPush(entries, e, OfKind(kind));
    }
    SumPush(entries, e, Adjusted());
  }

  // ---------- grouping by day ----------

  /** One row of daily credits and debits. */
  datatype Row = Row(bucket: Bucket, credit: int, debit: int)

  function RowOf(entries: seq<Entry>, b: Bucket): Row {
    Row(b, SumBy(entries, InBucket(Credited(), b)), SumBy(entries, InBucket(Debited(), b)))
  }

  function Buckets(entries: seq<Entry>): set<Bucket> {
    set e | e in entries :: BucketOf(e)
  }

  function AddToRow(r: Row, e: Entry): Row {
    if BucketOf(e) != r.bucket then r
    else if e.direction.Credit? then r.(credit := r.credit + e.amount)
    else r.(debit := r.debit + e.amount)
  }

  lemma RowOfPush(entries: seq<Entry>, e: Entry, b: Bucket)
    ensures RowOf(entries + [e], b) == AddToRow(RowOf(entries, b), e)
  {
    SumPush(entries, e, InBucket(Credited(), b));
    SumPush(entries, e, InBucket(Debited(), b));
  }

  lemma RowOfNone(entries: seq<Entry>, b: Bucket)
    requires b !in Buckets(entries)
    ensures RowOf(entries, b) == Row(b, 0, 0)
  {
    SumZero(entries, InBucket(Credited(), b));
    SumZero(entries, InBucket(Debited(), b));
  }

  /** The grouping loop of syncMerchantBalanceSnapshots; `keys` is the map's insertion order. */
  method GroupByDay(entries: seq<Entry>) returns (grouped: map<Bucket, Row>, keys: seq<Bucket>)
    ensures grouped.Keys == Buckets(entries)
    ensures forall b | b in grouped :: grouped[b] == RowOf(entries, b)
    ensures Distinct(keys) && forall b :: b in keys <==> b in grouped
  {
    grouped, keys := map[], [];
    for i := 0 to |entries|
      invariant grouped.Keys == Buckets(entries[..i])
      invariant forall b | b in grouped :: grouped[b] == RowOf(entries[..i], b)
      invariant Distinct(keys) && forall b :: b in keys <==> b in grouped
    {
      var e := entries[i];
      var b := BucketOf(e);
      assert entries[..i + 1] == entries[..i] + [e];
      forall c ensures RowOf(entries[..i + 1], c) == AddToRow(RowOf(entries[..i], c), e) {
        RowOfPush(entries[..i], e, c);
      }
      if b !in grouped {
        RowOfNone(entries[..i], b);
        keys := keys + [b];
      }
      var row := if b in grouped then grouped[b] else Row(b, 0, 0);
      row := if e.direction.Credit? then row.(credit := row.credit + e.amount) else row.(debit := row.debit + e.amount);
      grouped := grouped[b := row];
    }
    assert entries[..|entries|] == entries;
  }

  // ---------- running balances ----------

  type AccountOrder = (Account, Account) -> bool

  ghost predicate OrdersAccounts(before: AccountOrder) {
    IsStrict(before) && forall a, b :: a != b ==> before(a, b) || before(b, a)
  }

  /** The comparator: merchant and currency first, then the day. */
  function RowBefore(before: AccountOrder): (Row, Row) -> bool {
    (a: Row, b: Row) =>
      if a.bucket.account != b.bucket.account then before(a.bucket.account, b.bucket.account)
      else a.bucket.day < b.bucket.day
  }

  predicate DistinctBuckets(rows: seq<Row>) {
    forall i, k | 0 <= i < k < |rows| :: rows[i].bucket != rows[k].bucket
  }

  function RowsThrough(account: Account, day: int): Row -> int {
    (r: Row) => if r.bucket.account == account && r.bucket.day <= day then r.credit - r.debit else 0
  }

  function RowsOf(account: Account): Row -> int {
    (r: Row) => if r.bucket.account == account then r.credit - r.debit else 0
  }

  datatype Snapshot = Snapshot(bucket: Bucket, opening: int, closing: int, totalCredit: int, totalDebit: int)

  /** What a snapshot should say, from the rows in any order. */
  function SnapshotOf(rows: seq<Row>, r: Row): Snapshot {
    Snapshot(r.bucket,
             SumBy(rows, RowsThrough(r.bucket.account, r.bucket.day - 1)),
             SumBy(rows, RowsThrough(r.bucket.account, r.bucket.day)),
             r.credit, r.debit)
  }

  lemma RowsAreComparable(rows: seq<Row>, before: AccountOrder)
    requires OrdersAccounts(before) && DistinctBuckets(rows)
    ensures IsStrict(RowBefore(before)) && Comparable(rows, RowBefore(before))
  {
    var order := RowBefore(before);
    forall a: Row, b: Row, c: Row | order(a, b) && order(b, c) ensures order(a, c) {
      if a.bucket.account != b.bucket.account && b.bucket.account != c.bucket.account {
        assert before(a.bucket.account, b.bucket.account) && before(b.bucket.account, c.bucket.account);
        assert before(a.bucket.account, c.bucket.account);
        assert !before(a.bucket.account, a.bucket.account);
      }
    }
    assert forall a: Row :: !order(a, a);
  }

  /** If the first k rows are exactly those of the account up to the day, their total is the balance. */
  lemma PrefixIsThrough(rows: seq<Row>, k: nat, account: Account, day: int)
    requires k <= |rows|
    requires forall i | 0 <= i < k :: rows[i].bucket.account == account ==> rows[i].bucket.day <= day
    requires forall i | k <= i < |rows| :: rows[i].bucket.account == account ==> rows[i].bucket.day > day
    ensures SumBy(rows[..k], RowsOf(account)) == SumBy(rows, RowsThrough(account, day))
  {
    assert rows == rows[..k] + rows[k..];
    SumAppend(rows[..k], rows[k..], RowsThrough(account, day));
    forall r | r in rows[k..] ensures RowsThrough(account, day)(r) == 0 {
      var i :| 0 <= i < |rows[k..]| && rows[k..][i] == r;
      assert rows[k + i] == r;
    }
    SumZero(rows[k..], RowsThrough(account, day));
    SumSame(rows[..k], RowsOf(account), RowsThrough(account, day));
  }

  /** In sorted order, what has been carried when a row is reached is what earlier days of its account add up to. */
  lemma {:induction false} CarriedBalance(rows: seq<Row>, sorted: seq<Row>, i: nat, before: AccountOrder)
    requires OrdersAccounts(before) && Increasing(sorted, RowBefore(before)) && multiset(sorted) == multiset(rows)
    requires i < |sorted|
    ensures var a, day := sorted[i].bucket.account, sorted[i].bucket.day;
            && SumBy(sorted[..i], RowsOf(a)) == SumBy(rows, RowsThrough(a, day - 1))
            && SumBy(sorted[..i + 1], RowsOf(a)) == SumBy(rows, RowsThrough(a, day))
  {
    var a, day := sorted[i].bucket.account, sorted[i].bucket.day;
    assert forall j | 0 <= j < i :: RowBefore(before)(sorted[j], sorted[i]);
    assert forall j | i < j < |sorted| :: RowBefore(before)(sorted[i], sorted[j]);
    PrefixIsThrough(sorted, i, a, day - 1);
    PrefixIsThrough(sorted, i + 1, a, day);
    SumPermute(sorted, rows, RowsThrough(a, day - 1));
    SumPermute(sorted, rows, RowsThrough(a, day));
  }

  lemma {:induction false} CarryPush(sorted: seq<Row>, i: nat)
    requires i < |sorted|
    ensures forall c :: SumBy(sorted[..i + 1], RowsOf(c)) == SumBy(sorted[..i], RowsOf(c)) + RowsOf(c)(sorted[i])
  {
    assert sorted[..i + 1] == sorted[..i] + [sorted[i]];
    forall c ensures SumBy(sorted[..i + 1], RowsOf(c)) == SumBy(sorted[..i], RowsOf(c)) + RowsOf(c)(sorted[i]) {
      SumPush(sorted[..i], sorted[i], RowsOf(c));
    }
  }

  /** The map holds, for every account, the total carried over the first i rows. */
  ghost predicate Carries(running: map<Account, int>, sorted: seq<Row>, i: nat)
    requires i <= |sorted|
  {
    forall a :: (if a in running then running[a] else 0) == SumBy(sorted[..i], RowsOf(a))
  }

  lemma {:induction false} CarriesNext(running: map<Account, int>, sorted: seq<Row>, i: nat)
    requires i < |sorted| && Carries(running, sorted, i)
    ensures var r := sorted[i];
            var opening := if r.bucket.account in running then running[r.bucket.account] else 0;
            Carries(running[r.bucket.account := opening + r.credit - r.debit], sorted, i + 1)
  {
    CarryPush(sorted, i);
  }

  /** One row of the loop: the snapshot it emits is the one the rows call for. */
  lemma {:induction false} CarriedSnapshot(
      rows: seq<Row>, sorted: seq<Row>, i: nat, before: AccountOrder, running: map<Account, int>)
    requires OrdersAccounts(before) && Increasing(sorted, RowBefore(before)) && multiset(sorted) == multiset(rows)
    requires i < |sorted| && Carries(running, sorted, i)
    ensures var r := sorted[i];
            var opening := if r.bucket.account in running then running[r.bucket.account] else 0;
            Snapshot(r.bucket, opening, opening + r.credit - r.debit, r.credit, r.debit) == SnapshotOf(rows, r)
  {
    CarriedBalance(rows, sorted, i, before);
    CarryPush(sorted, i);
  }

  /** The map over the sorted rows in buildDailyBalanceSnapshots, with its running balance. */
  method CarryBalances(sorted: seq<Row>, ghost rows: seq<Row>, ghost before: AccountOrder)
    returns (snapshots: seq<Snapshot>)
    requires OrdersAccounts(before) && Increasing(sorted, RowBefore(before)) && multiset(sorted) == multiset(rows)
    ensures |snapshots| == |sorted|
    ensures forall i | 0 <= i < |sorted| :: snapshots[i] == SnapshotOf(rows, sorted[i])
  {
    var running: map<Account, int> := map[];
    snapshots := [];
    for i := 0 to |sorted|
      invariant |snapshots| == i && Carries(running, sorted, i)
      invariant forall j | 0 <= j < i :: snapshots[j] == SnapshotOf(rows, sorted[j])
    {
      var r := sorted[i];
      CarriedSnapshot(rows, sorted, i, before, running);
      CarriesNext(running, sorted, i);
      var opening := if r.bucket.account in running then running[r.bucket.account] else 0;
      var closing := opening + r.credit - r.debit;
      running := running[r.bucket.account := closing];
      snapshots := snapshots + [Snapshot(r.bucket, opening, closing, r.credit, r.debit)];
    }
  }

  /** buildDailyBalanceSnapshots: sort, then carry a running balance per merchant and currency. */
  method BuildDailyBalanceSnapshots(rows: seq<Row>, before: AccountOrder)
    returns (sorted: seq<Row>, snapshots: seq<Snapshot>)
    requires OrdersAccounts(before) && DistinctBuckets(rows)
    ensures multiset(sorted) == multiset(rows) && Increasing(sorted, RowBefore(before))
    ensures |snapshots| == |sorted|
    ensures forall i | 0 <= i < |sorted| :: snapshots[i] == SnapshotOf(rows, sorted[i])
  {
    sorted := Sort(rows, RowBefore(before));
    RowsAreComparable(rows, before);
    SortSorts(rows, RowBefore(before));
    snapshots := CarryBalances(sorted, rows, before);
  }

  // ---------- from entries to snapshots ----------

  /** The naive meaning of a stored snapshot. */
  function LedgerSnapshot(entries: seq<Entry>, b: Bucket): Snapshot {
    var r := RowOf(entries, b);
    Snapshot(b, Balance(entries, b.account, b.day - 1), Balance(entries, b.account, b.day), r.credit, r.debit)
  }

  lemma RowMoves(entries: seq<Entry>, b: Bucket, account: Account, day: int)
    ensures RowsThrough(account, day)(RowOf(entries, b)) == TotalIn(entries, SignedThrough(account, day))(b)
  {
    var v := InBucket(SignedThrough(account, day), b);
    if b.account == account && b.day <= day {
      SumSplit(entries, InBucket(Credited(), b), v, InBucket(Debited(), b));
    } else {
      SumZero(entries, v);
    }
  }

  /** The grouped rows carry the same balances as the entries they were grouped from. */
  lemma {:induction false} RowsCarryBalance(entries: seq<Entry>, rows: seq<Row>, account: Account, day: int)
    requires DistinctBuckets(rows)
    requires forall i | 0 <= i < |rows| :: rows[i] == RowOf(entries, rows[i].bucket)
    requires forall e | e in entries :: exists i | 0 <= i < |rows| :: rows[i].bucket == BucketOf(e)
    ensures SumBy(rows, RowsThrough(account, day)) == Balance(entries, account, day)
  {
    var buckets := seq(|rows|, i requires 0 <= i < |rows| => rows[i].bucket);
    var v := SignedThrough(account, day);
    forall i | 0 <= i < |rows| ensures RowsThrough(account, day)(rows[i]) == TotalIn(entries, v)(buckets[i]) {
      RowMoves(entries, buckets[i], account, day);
    }
    SumMapped(rows, buckets, RowsThrough(account, day), TotalIn(entries, v));
    forall e | e in entries ensures BucketOf(e) in buckets {
      var i :| 0 <= i < |rows| && rows[i].bucket == BucketOf(e);
      assert buckets[i] == BucketOf(e);
    }
    BucketsPartition(entries, buckets, v);
  }

  /** Each day opens where the previous day with entries closed. */
  lemma OpeningIsPreviousClosing(entries: seq<Entry>, account: Account, previous: int, day: int)
    requires previous < day
    requires forall e | e in entries && e.account == account ::
               DayOf(e.occurredAt) <= previous || day <= DayOf(e.occurredAt)
    ensures LedgerSnapshot(entries, Bucket(account, day)).opening
         == LedgerSnapshot(entries, Bucket(account, previous)).closing
  {
    SumSame(entries, SignedThrough(account, day - 1), SignedThrough(account, previous));
  }

  /** Snapshots do not depend on the order in which the ledger is read. */
  lemma SnapshotIgnoresOrder(xs: seq<Entry>, ys: seq<Entry>, b: Bucket)
    requires multiset(xs) == multiset(ys)
    ensures LedgerSnapshot(xs, b) == LedgerSnapshot(ys, b)
  {
    SumPermute(xs, ys, SignedThrough(b.account, b.day - 1));
    SumPermute(xs, ys, SignedThrough(b.account, b.day));
    SumPermute(xs, ys, InBucket(Credited(), b));
    SumPermute(xs, ys, InBucket(Debited(), b));
  }
}
