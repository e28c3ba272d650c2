/** The ledger sync, settlement and balance workers as written (lib/finance/ledger.ts, lib/finance/settlements.ts). */
module FinanceServices {
  import opened Options
  import opened Sums
  import opened DayKeys
  import opened Sorting
  import opened Finance
  import opened FinanceReports
  import opened Ledgers
  import opened Settlements
  import opened SettlementColumns

  // ---------- grouping ----------

  /** The rows of one bucket that settle, in ledger order. */
  function RowsIn(rows: seq<Entry>, b: Bucket): seq<Entry> {
    if rows == [] then []
    else
      var e := rows[|rows| - 1];
      RowsIn(rows[..|rows| - 1], b) + if !e.kind.SettlementPayout? && BucketOf(e) == b then [e] else []
  }

  lemma RowsInPush(rows: seq<Entry>, e: Entry, b: Bucket)
    ensures RowsIn(rows + [e], b)
         == RowsIn(rows, b) + if !e.kind.SettlementPayout? && BucketOf(e) == b then [e] else []
  {
  }

  /** Summing a bucket's rows is summing the ledger restricted to the bucket. */
  lemma {:induction false} SumRowsIn(rows: seq<Entry>, b: Bucket, v: Entry -> int)
    requires forall e: Entry | e.kind.SettlementPayout? :: v(e) == 0
    ensures SumBy(RowsIn(rows, b), v) == SumBy(rows, InBucket(v, b))
  {
    if rows != [] {
      var front, e := rows[..|rows| - 1], rows[|rows| - 1];
      assert rows == front + [e];
      SumRowsIn(front, b, v);
      SumPush(front, e, InBucket(v, b));
      RowsInPush(front, e, b);
      if !e.kind.SettlementPayout? && BucketOf(e) == b {
        SumPush(RowsIn(front, b), e, v);
      } else {
        assert RowsIn(rows, b) == RowsIn(front, b) + [] == RowsIn(front, b);
      }
    }
  }

  function SettlingBuckets(rows: seq<Entry>, cutoff: int): set<Bucket> {
    set e | e in rows && Settles(e, cutoff) :: BucketOf(e)
  }

  /** What the grouping map holds after some rows. */
  ghost predicate Groups(grouped: map<Bucket, seq<Entry>>, buckets: seq<Bucket>, rows: seq<Entry>, cutoff: int) {
    && grouped.Keys == SettlingBuckets(rows, cutoff)
    && (forall b | b in grouped :: grouped[b] == RowsIn(rows, b))
    && Distinct(buckets) && (forall b :: b in buckets <==> b in grouped)
  }

  lemma GroupsNext(grouped: map<Bucket, seq<Entry>>, buckets: seq<Bucket>, rows: seq<Entry>, e: Entry, cutoff: int)
    requires Groups(grouped, buckets, rows, cutoff) && Settles(e, cutoff)
    ensures var b := BucketOf(e);
            var group := if b in grouped then grouped[b] else [];
            Groups(grouped[b := group + [e]], if b in grouped then buckets else buckets + [b], rows + [e], cutoff)
  {
    var b := BucketOf(e);
    DayContainsInstant(e.occurredAt, b.day);
    if b !in grouped {
      NoneBefore(rows, b, cutoff);
    }
    forall c ensures RowsIn(rows + [e], c) == RowsIn(rows, c) + if b == c then [e] else [] {
      RowsInPush(rows, e, c);
    }
    assert SettlingBuckets(rows + [e], cutoff) == SettlingBuckets(rows, cutoff) + {b};
  }

  lemma GroupsSkip(grouped: map<Bucket, seq<Entry>>, buckets: seq<Bucket>, rows: seq<Entry>, e: Entry, cutoff: int)
    requires Groups(grouped, buckets, rows, cutoff) && !Settles(e, cutoff)
    ensures Groups(grouped, buckets, rows + [e], cutoff)
  {
  }

  /** The grouping loop of syncMerchantSettlements: the query's filter, then the day guard. */
  method GroupForSettlement(rows: seq<Entry>, cutoff: int)
    returns (grouped: map<Bucket, seq<Entry>>, buckets: seq<Bucket>)
    ensures grouped.Keys == SettlingBuckets(rows, cutoff)
    ensures forall b | b in grouped :: grouped[b] == RowsIn(rows, b)
    ensures Distinct(buckets) && forall b :: b in buckets <==> b in grouped
  {
    grouped, buckets := map[], [];
    for i := 0 to |rows|
      invariant Groups(grouped, buckets, rows[..i], cutoff)
    {
      var e := rows[i];
      var b := BucketOf(e);
      assert rows[..i + 1] == rows[..i] + [e];
      DayContainsInstant(e.occurredAt, b.day);
      if Settles(e, cutoff) && !(b.day > cutoff) {
        GroupsNext(grouped, buckets, rows[..i], e, cutoff);
        if b !in grouped {
          buckets := buckets + [b];
        }
        grouped := grouped[b := (if b in grouped then grouped[b] else []) + [e]];
      } else {
        GroupsSkip(grouped, buckets, rows[..i], e, cutoff);
      }
    }
    assert rows[..|rows|] == rows;
  }

  lemma NoneBefore(rows: seq<Entry>, b: Bucket, cutoff: int)
    requires b.day <= cutoff && b !in SettlingBuckets(rows, cutoff)
    ensures RowsIn(rows, b) == []
  {
  }

  // ---------- the service ----------

  datatype MarkResult = Marked | AlreadyPaid | SettlementNotFound | SettlementNotPayable

  class FinanceService {
    var books: Books
    var ledger: Ledger
    var settlements: map<Bucket, Settlement>
    var snapshots: map<Bucket, Snapshot>
    // What other syncs have read, and the history of the ledger; see World.
    ghost var readings: set<Reading>
    ghost var moved: set<Key>
    ghost var fell: set<RefundId>

    constructor ()
      ensures Valid() && State() == Init() && snapshots == map[]
    {
      books, ledger, settlements, snapshots := Books(map[], map[]), map[], map[], map[];
      readings, moved, fell := {}, {}, {};
    }

    ghost function State(): World
      reads this
    {
      World(books, ledger, settlements, readings, moved, fell)
    }

    ghost predicate Valid()
      reads this
    {
      Inv(State())
    }

    ghost method Record(before: Ledger)
      modifies this`moved
      ensures moved == old(moved) + Moved(before, ledger)
    {
      moved := moved + Moved(before, ledger);
    }

    method SyncPaymentOrderLedgerEntries(id: OrderId)
      requires Valid()
      modifies this`ledger, this`moved
      ensures Valid() && State() == Next(old(State()), OrderSync(id))
      ensures ledger == SyncOrder(books, old(ledger), id)
    {
      RunKeepsInv(State(), [OrderSync(id)]);
      OneStep(State(), OrderSync(id));
      ghost var before := ledger;
      if id in books.orders && books.orders[id].succeeded {
        var o := books.orders[id];
        ledger := ledger[CaptureOf(id) := CaptureEntry(o)];
        if o.fee > 0 {
          ledger := ledger[FeeOf(id) := FeeEntry(o)];
        } else {
          ledger := ledger - {FeeOf(id)};
        }
      }
      Record(before);
    }

    method SyncPaymentRefundLedgerEntries(id: RefundId)
      requires Valid()
      modifies this`ledger, this`moved
      ensures Valid() && State() == Next(old(State()), RefundSync(id))
      ensures ledger == SyncRefund(books, old(ledger), id)
    {
      RunKeepsInv(State(), [RefundSync(id)]);
      OneStep(State(), RefundSync(id));
      ghost var before := ledger;
      if id in books.refunds && books.refunds[id].succeeded {
        ledger := ledger[RefundOf(id) := RefundEntry(books.refunds[id])];
      }
      Record(before);
    }

    /** Afterwards the ledger is the view of the orders and refunds, apart from rows of refunds that fell. */
    method BackfillMerchantLedgerEntries() returns (paymentOrders: nat, paymentRefunds: nat)
      requires Valid()
      modifies this`ledger, this`moved
      ensures Valid() && IsBackfill(books, old(ledger), ledger)
      ensures IsView(books, ledger) <==> forall k | k in old(ledger) :: !IsFallen(State(), k)
      ensures paymentOrders == |set id | id in books.orders && books.orders[id].succeeded|
      ensures paymentRefunds == |set id | id in books.refunds && books.refunds[id].succeeded|
    {
      var orders := set id | id in books.orders && books.orders[id].succeeded;
      var refunds := set id | id in books.refunds && books.refunds[id].succeeded;
      paymentOrders, paymentRefunds := |orders|, |refunds|;
      while orders != {}
        invariant Valid() && forall id | id in orders :: OrderSucceeded(books, id)
        invariant HalfBackfilled(books, old(ledger), ledger, orders, refunds)
        decreases |orders|
      {
        var id :| id in orders;
        OrderBackfilled(books, old(ledger), ledger, orders, refunds, id);
        SyncPaymentOrderLedgerEntries(id);
        orders := orders - {id};
      }
      while refunds != {}
        invariant Valid() && forall id | id in refunds :: RefundSucceeded(books, id)
        invariant HalfBackfilled(books, old(ledger), ledger, {}, refunds)
        decreases |refunds|
      {
        var id :| id in refunds;
        RefundBackfilled(books, old(ledger), ledger, refunds, id);
        SyncPaymentRefundLedgerEntries(id);
        refunds := refunds - {id};
      }
      BackfillIsViewIffNothingStale(books, old(ledger), ledger);
    }

    /** findMany: every row once, in some order. */
    method ReadLedger() returns (keys: seq<Key>, rows: seq<Entry>)
      ensures Lists(keys, ledger) && rows == Rows(ledger, keys)
    {
      keys, rows := [], [];
      var rest := ledger.Keys;
      while rest != {}
        invariant rest <= ledger.Keys && Distinct(keys)
        invariant forall k :: k in keys <==> k in ledger && k !in rest
        invariant rows == Rows(ledger, keys)
        decreases |rest|
      {
        var k :| k in rest;
        keys, rows, rest := keys + [k], rows + [ledger[k]], rest - {k};
      }
    }

    /** `keys` is the order in which the ledger was read, `buckets` the order in which its buckets turned up. */
    method SyncMerchantSettlements(now: int, holdDays: nat)
      returns (tally: Tally, cutoff: int, ghost keys: seq<Key>, ghost buckets: seq<Bucket>)
      requires Valid()
      modifies this`settlements
      ensures Valid() && Lists(keys, ledger) && cutoff == DayOf(now) - holdDays
      ensures State() == Next(old(State()), Settle(keys, cutoff, holdDays))
      ensures Synced(old(settlements), settlements, ledger, keys, cutoff, holdDays)
      ensures Distinct(buckets) && Elements(buckets) == Eligible(ledger, cutoff)
      ensures tally == TallyOf(old(settlements), buckets)
    {
      ghost var before := State();
      cutoff := DayOf(now) - holdDays;
      var order, rows := ReadLedger();
      var grouped, found := GroupForSettlement(rows, cutoff);
      keys, buckets := order, found;
      RowsAndKeys(ledger, keys, cutoff);
      assert Elements(buckets) == grouped.Keys;
      tally := UpsertSettlements(grouped, found, holdDays, keys, before);
      SettleKeepsInv(before, keys, cutoff, holdDays);
      SettleSyncs(before, keys, cutoff, holdDays);
    }

    /** The loop over the grouped buckets with its counters. */
    method UpsertSettlements(grouped: map<Bucket, seq<Entry>>, buckets: seq<Bucket>, holdDays: nat,
                             ghost keys: seq<Key>, ghost before: World)
      returns (tally: Tally)
      requires Lists(keys, ledger) && ledger == before.ledger && settlements == before.settlements
      requires Distinct(buckets) && forall b | b in buckets :: b in grouped
      requires forall b | b in grouped :: grouped[b] == RowsIn(Rows(ledger, keys), b)
      modifies this`settlements
      ensures settlements == before.settlements + SettleEach(before, keys, holdDays, Elements(buckets))
      ensures tally == TallyOf(before.settlements, buckets)
    {
      tally := Tally(0, 0, 0);
      for i := 0 to |buckets|
        invariant settlements == before.settlements + SettleEach(before, keys, holdDays, Elements(buckets[..i]))
        invariant tally == TallyOf(before.settlements, buckets[..i])
      {
        SettledNext(before, keys, holdDays, buckets, i);
        var outcome := UpsertSettlement(buckets[i], grouped[buckets[i]], holdDays, keys, before);
        tally := tally.Bump(outcome);
      }
      assert buckets[..|buckets|] == buckets;
    }

    /** Afterwards every day with rows has the snapshot the naive reading of the ledger gives. */
    method SyncMerchantBalanceSnapshots(before: AccountOrder) returns (ghost keys: seq<Key>)
      requires OrdersAccounts(before)
      modifies this`snapshots
      ensures Lists(keys, ledger)
      ensures Snapshotted(old(snapshots), snapshots, Rows(ledger, keys), Buckets(Rows(ledger, keys)))
    {
      var order, entries := ReadLedger();
      keys := order;
      var seeds := SeedRows(entries);
      var sorted, built := BuildDailyBalanceSnapshots(seeds, before);
      UpsertSnapshots(sorted, built, seeds, entries);
      SameBuckets(sorted, seeds);
    }

    method UpsertSnapshots(ghost sorted: seq<Row>, built: seq<Snapshot>, ghost seeds: seq<Row>, ghost entries: seq<Entry>)
      requires |built| == |sorted| && multiset(sorted) == multiset(seeds) && Seeds(entries, seeds)
      requires forall i | 0 <= i < |sorted| :: built[i] == SnapshotOf(seeds, sorted[i])
      modifies this`snapshots
      ensures Snapshotted(old(snapshots), snapshots, entries, BucketsOf(sorted))
    {
      SameElements(sorted, seeds);
      for i := 0 to |built|
        invariant Snapshotted(old(snapshots), snapshots, entries, BucketsOf(sorted[..i]))
      {
        assert sorted[..i + 1] == sorted[..i] + [sorted[i]];
        assert sorted[i] in seeds;
        ghost var j :| 0 <= j < |seeds| && seeds[j] == sorted[i];
        SeedsCarryLedger(entries, seeds, j);
        snapshots := snapshots[built[i].bucket := built[i]];
      }
      assert sorted[..|built|] == sorted;
    }

    method MarkMerchantSettlementPaid(b: Bucket, now: int, before: AccountOrder) returns (result: MarkResult)
      requires Valid() && OrdersAccounts(before)
      modifies this`ledger, this`settlements, this`moved, this`snapshots
      ensures Valid() && State() == Next(old(State()), MarkPaid(b, now))
      ensures result == if b !in old(settlements) then SettlementNotFound
                        else if old(settlements)[b].status.Paid? then AlreadyPaid
                        else if old(settlements)[b].net <= 0 then SettlementNotPayable else Marked
      ensures IsPaid(settlements, b) <==> result.Marked? || result.AlreadyPaid?
      ensures if result.Marked? then
                && settlements == old(settlements)[b := old(settlements)[b].(status := Paid, paidAt := Some(now))]
                && ledger == old(ledger)[PayoutOf(b) :=
                     Entry(b.account, now, SettlementPayout, Debit, old(settlements)[b].net)]
              else settlements == old(settlements) && ledger == old(ledger)
      ensures result.SettlementNotFound? || result.SettlementNotPayable? ==> snapshots == old(snapshots)
      ensures IsPaid(settlements, b) ==>
                exists keys :: Lists(keys, ledger)
                  && Snapshotted(old(snapshots), snapshots, Rows(ledger, keys), Buckets(Rows(ledger, keys)))
    {
      MarkKeepsInv(State(), b, now);
      if b !in settlements {
        return SettlementNotFound;
      }
      var existing := settlements[b];
      if existing.status.Paid? {
        result := AlreadyPaid;
      } else if existing.net <= 0 {
        return SettlementNotPayable;
      } else {
        ghost var ledgerBefore := ledger;
        ledger := ledger[PayoutOf(b) := PayoutEntry(b, existing, now)];
        Record(ledgerBefore);
        settlements := settlements[b := existing.(status := Paid, paidAt := Some(now))];
        result := Marked;
      }
      ghost var keys := SyncMerchantBalanceSnapshots(before);
    }

    /** One iteration over the grouped buckets. */
    method UpsertSettlement(b: Bucket, entries: seq<Entry>, holdDays: nat, ghost keys: seq<Key>, ghost before: World)
      returns (outcome: Outcome)
      requires Lists(keys, ledger) && ledger == before.ledger && entries == RowsIn(Rows(ledger, keys), b)
      requires Find(settlements, b) == Find(before.settlements, b)
      modifies this`settlements
      ensures settlements == old(settlements)[b := SettleOne(before, keys, holdDays, b)]
      ensures outcome == OutcomeOf(before.settlements, b)
    {
      var digest := BuildSettlementDigest(entries);
      DigestIsOfBucket(Rows(ledger, keys), b);
      var existing := Find(settlements, b);
      assert b in settlements <==> existing.Some?;
      assert b in before.settlements <==> Find(before.settlements, b).Some?;
      if existing.Some? && existing.value.status.Paid? {
        return Locked;
      }
      var payload := Settlement(
        if existing.Some? then existing.value.status else Pending, EndOf(b.day + holdDays),
        digest.gross, digest.refund, digest.fee, digest.adjustment, digest.net,
        if existing.Some? then existing.value.paidAt else None, KeysIn(ledger, b));
      settlements := settlements[b := payload];
      outcome := if existing.Some? then Updated else Created;
    }
  }

  /** Every row of the ledger is in one of the grouped rows. */
  predicate Seeds(entries: seq<Entry>, seeds: seq<Row>) {
    && DistinctBuckets(seeds)
    && (forall j | 0 <= j < |seeds| :: seeds[j] == RowOf(entries, seeds[j].bucket))
    && (forall e | e in entries :: exists j | 0 <= j < |seeds| :: seeds[j].bucket == BucketOf(e))
  }

  /** The values of the grouping map, in insertion order. */
  method SeedRows(entries: seq<Entry>) returns (seeds: seq<Row>)
    ensures Seeds(entries, seeds) && BucketsOf(seeds) == Buckets(entries)
  {
    var grouped, buckets := GroupByDay(entries);
    seeds := seq(|buckets|, i requires 0 <= i < |buckets| => grouped[buckets[i]]);
    assert forall i | 0 <= i < |seeds| :: buckets[i] in buckets && seeds[i].bucket == buckets[i];
    forall b | b in Buckets(entries) ensures exists j | 0 <= j < |seeds| :: seeds[j].bucket == b {
      assert b in buckets;
      var j :| 0 <= j < |buckets| && buckets[j] == b;
      assert seeds[j].bucket == b;
    }
    assert forall e | e in entries :: BucketOf(e) in Buckets(entries);
  }

  /** What the grouped rows say is what the ledger says. */
  lemma {:induction false} SeedsCarryLedger(entries: seq<Entry>, seeds: seq<Row>, i: nat)
    requires i < |seeds| && Seeds(entries, seeds)
    ensures SnapshotOf(seeds, seeds[i]) == LedgerSnapshot(entries, seeds[i].bucket)
  {
    var b := seeds[i].bucket;
    RowsCarryBalance(entries, seeds, b.account, b.day - 1);
    RowsCarryBalance(entries, seeds, b.account, b.day);
    assert seeds[i] == RowOf(entries, b);
  }

  /** The snapshot table after some upserts. */
  ghost predicate Snapshotted(
      before: map<Bucket, Snapshot>, after: map<Bucket, Snapshot>, entries: seq<Entry>, done: set<Bucket>)
  {
    && after.Keys == before.Keys + done
    && forall b | b in after :: after[b] == if b in done then LedgerSnapshot(entries, b) else before[b]
  }

  datatype Outcome = Created | Updated | Locked

  /** The counters of a settlement sync. */
  datatype Tally = Tally(created: nat, updated: nat, locked: nat) {
    function Bump(outcome: Outcome): Tally {
      match outcome
      case Created => this.(created := created + 1)
      case Updated => this.(updated := updated + 1)
      case Locked => this.(locked := locked + 1)
    }
  }

  /** The ledger half way through a backfill, with some orders and refunds still to go. */
  ghost predicate HalfBackfilled(
      books: Books, before: Ledger, ledger: Ledger, orders: set<OrderId>, refunds: set<RefundId>)
  {
    forall k: Key :: Lookup(ledger, k) == if Waits(k, orders, refunds) then Lookup(before, k) else Backfilled(books, before, k)
  }

  lemma OrderBackfilled(
      books: Books, before: Ledger, ledger: Ledger, orders: set<OrderId>, refunds: set<RefundId>, id: OrderId)
    requires HalfBackfilled(books, before, ledger, orders, refunds) && id in orders
    ensures HalfBackfilled(books, before, SyncOrder(books, ledger, id), orders - {id}, refunds)
  {
  }

  lemma RefundBackfilled(books: Books, before: Ledger, ledger: Ledger, refunds: set<RefundId>, id: RefundId)
    requires HalfBackfilled(books, before, ledger, {}, refunds) && id in refunds
    ensures HalfBackfilled(books, before, SyncRefund(books, ledger, id), {}, refunds - {id})
  {
  }

  function BucketsOf(rows: seq<Row>): set<Bucket> {
    set r | r in rows :: r.bucket
  }

  lemma SameBuckets(xs: seq<Row>, ys: seq<Row>)
    requires multiset(xs) == multiset(ys)
    ensures BucketsOf(xs) == BucketsOf(ys)
  {
    SameElements(xs, ys);
  }

  function PaidAmong(settlements: map<Bucket, Settlement>, buckets: set<Bucket>): set<Bucket> {
    set b | b in buckets && IsPaid(settlements, b)
  }

  lemma MarkKeepsInv(w: World, b: Bucket, now: int)
    requires Inv(w)
    ensures Inv(Next(w, MarkPaid(b, now)))
  {
    RunKeepsInv(w, [MarkPaid(b, now)]);
    OneStep(w, MarkPaid(b, now));
  }

  lemma SettleKeepsInv(w: World, keys: seq<Key>, cutoff: int, holdDays: int)
    requires Inv(w) && Lists(keys, w.ledger)
    ensures Next(w, Settle(keys, cutoff, holdDays)) == w.(settlements := SettleAll(w, keys, cutoff, holdDays))
    ensures Inv(w.(settlements := SettleAll(w, keys, cutoff, holdDays)))
  {
    RunKeepsInv(w, [Settle(keys, cutoff, holdDays)]);
    OneStep(w, Settle(keys, cutoff, holdDays));
  }

  /** The row still waits for its order or refund to be synced. */
  predicate Waits(k: Key, orders: set<OrderId>, refunds: set<RefundId>) {
    match k
    case CaptureOf(id) => id in orders
    case FeeOf(id) => id in orders
    case RefundOf(id) => id in refunds
    case PayoutOf(_) => false
  }

  lemma RowsAndKeys(ledger: Ledger, keys: seq<Key>, cutoff: int)
    requires Lists(keys, ledger)
    ensures SettlingBuckets(Rows(ledger, keys), cutoff) == Eligible(ledger, cutoff)
  {
    var rows := Rows(ledger, keys);
    forall k | k in ledger ensures ledger[k] in rows {
      var i :| 0 <= i < |keys| && keys[i] == k;
      assert rows[i] == ledger[k];
    }
    forall e | e in rows ensures exists k :: k in ledger && ledger[k] == e {
      var i :| 0 <= i < |rows| && rows[i] == e;
      assert keys[i] in keys;
    }
  }

  lemma DigestIsOfBucket(rows: seq<Entry>, b: Bucket)
    ensures SumBy(RowsIn(rows, b), OfKind(PaymentCapture)) == SumBy(rows, InBucket(OfKind(PaymentCapture), b))
    ensures SumBy(RowsIn(rows, b), OfKind(RefundPaid)) == SumBy(rows, InBucket(OfKind(RefundPaid), b))
    ensures SumBy(RowsIn(rows, b), OfKind(PaymentFee)) == SumBy(rows, InBucket(OfKind(PaymentFee), b))
    ensures SumBy(RowsIn(rows, b), Adjusted()) == SumBy(rows, InBucket(Adjusted(), b))
    ensures SumBy(RowsIn(rows, b), SettledAmount()) == DayNet(rows, b.account, b.day)
  {
    SumRowsIn(rows, b, OfKind(PaymentCapture));
    SumRowsIn(rows, b, OfKind(RefundPaid));
    SumRowsIn(rows, b, OfKind(PaymentFee));
    SumRowsIn(rows, b, Adjusted());
    SumRowsIn(rows, b, SettledAmount());
  }

  lemma OneMore(buckets: seq<Bucket>, i: nat)
    requires i < |buckets| && Distinct(buckets)
    ensures buckets[i] !in Elements(buckets[..i])
    ensures Elements(buckets[..i + 1]) == Elements(buckets[..i]) + {buckets[i]}
  {
  }

  lemma CountNew(done: set<Bucket>, b: Bucket, known: set<Bucket>)
    requires b !in done
    ensures |(done + {b}) - known| == |done - known| + if b in known then 0 else 1
  {
    if b in known {
      assert (done + {b}) - known == done - known;
    } else {
      assert (done + {b}) - known == (done - known) + {b};
    }
  }

  lemma CountPaid(done: set<Bucket>, b: Bucket, settlements: map<Bucket, Settlement>)
    requires b !in done
    ensures |PaidAmong(settlements, done + {b})|
         == |PaidAmong(settlements, done)| + if IsPaid(settlements, b) then 1 else 0
  {
    if IsPaid(settlements, b) {
      assert PaidAmong(settlements, done + {b}) == PaidAmong(settlements, done) + {b};
    } else {
      assert PaidAmong(settlements, done + {b}) == PaidAmong(settlements, done);
    }
  }

  function OutcomeOf(settlements: map<Bucket, Settlement>, b: Bucket): Outcome {
    if IsPaid(settlements, b) then Locked else if b in settlements then Updated else Created
  }

  /** What the counters come to over a list of buckets. */
  function TallyOf(settlements: map<Bucket, Settlement>, buckets: seq<Bucket>): Tally {
    if buckets == [] then Tally(0, 0, 0)
    else TallyOf(settlements, buckets[..|buckets| - 1]).Bump(OutcomeOf(settlements, buckets[|buckets| - 1]))
  }

  lemma TallyPush(settlements: map<Bucket, Settlement>, buckets: seq<Bucket>, b: Bucket)
    ensures TallyOf(settlements, buckets + [b]) == TallyOf(settlements, buckets).Bump(OutcomeOf(settlements, b))
  {
  }

  /** The counters split the buckets into new, refreshed and locked ones. */
  lemma {:induction false} TallyCounts(settlements: map<Bucket, Settlement>, buckets: seq<Bucket>)
    requires Distinct(buckets)
    ensures var tally := TallyOf(settlements, buckets);
            && tally.created + tally.updated + tally.locked == |Elements(buckets)|
            && tally.created == |Elements(buckets) - settlements.Keys|
            && tally.locked == |PaidAmong(settlements, Elements(buckets))|
  {
    if buckets == [] {
      assert PaidAmong(settlements, Elements(buckets)) == {};
    } else {
      var n := |buckets| - 1;
      TallyCounts(settlements, buckets[..n]);
      CountsGrow(settlements, buckets);
    }
  }

  lemma CountsGrow(settlements: map<Bucket, Settlement>, buckets: seq<Bucket>)
    requires Distinct(buckets) && buckets != []
    ensures var n := |buckets| - 1;
            var before, after, b := Elements(buckets[..n]), Elements(buckets), buckets[n];
            && |after| == |before| + 1
            && |after - settlements.Keys| == |before - settlements.Keys| + (if b in settlements then 0 else 1)
            && |PaidAmong(settlements, after)| == |PaidAmong(settlements, before)| + (if IsPaid(settlements, b) then 1 else 0)
  {
    var n := |buckets| - 1;
    OneMore(buckets, n);
    assert buckets[..n + 1] == buckets;
    CountNew(Elements(buckets[..n]), buckets[n], settlements.Keys);
    CountPaid(Elements(buckets[..n]), buckets[n], settlements);
  }

  /** One iteration of the upsert loop: its bucket is still as before, and this is what it adds. */
  lemma SettledNext(before: World, keys: seq<Key>, holdDays: int, buckets: seq<Bucket>, i: nat)
    requires forall k | k in keys :: k in before.ledger
    requires i < |buckets| && Distinct(buckets)
    ensures var b := buckets[i];
            var settlements := before.settlements + SettleEach(before, keys, holdDays, Elements(buckets[..i]));
            && Find(settlements, b) == Find(before.settlements, b)
            && before.settlements + SettleEach(before, keys, holdDays, Elements(buckets[..i + 1]))
               == settlements[b := SettleOne(before, keys, holdDays, b)]
            && TallyOf(before.settlements, buckets[..i + 1])
               == TallyOf(before.settlements, buckets[..i]).Bump(OutcomeOf(before.settlements, b))
  {
    OneMore(buckets, i);
    SettleEachAdds(before, keys, holdDays, Elements(buckets[..i]), buckets[i]);
    assert buckets[..i + 1] == buckets[..i] + [buckets[i]];
    TallyPush(before.settlements, buckets[..i], buckets[i]);
  }
}
