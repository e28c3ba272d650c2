/**
 What the columns of the stored settlements mean (lib/finance/settlements.ts): each figure of a settlement is a total
 over the ledger rows of its merchant, currency and day, and the columns add up to the orders and refunds.
 */
module SettlementColumns {
  import opened Options
  import opened Sums
  import opened DayKeys
  import opened Finance
  import opened Ledgers
  import opened Settlements

  // ---------- one settlement ----------

  /** The total of one kind of row of an account within a day; a debited adjustment counts against it. */
  function KindTotal(ledger: Ledger, keys: seq<Key>, b: Bucket, kind: EntryKind): int
    requires forall k | k in keys :: k in ledger
  {
    if keys == [] then 0
    else
      var e := ledger[keys[0]];
      var within := e.account == b.account && StartOf(b.day) <= e.occurredAt <= EndOf(b.day) && e.kind == kind;
      (if !within then 0 else if kind.Adjustment? && e.direction.Debit? then -e.amount else e.amount)
      + KindTotal(ledger, keys[1..], b, kind)
  }

  /** The stored figures are the totals of their kinds, and the net is what is left of the captures. */
  predicate HasFigures(s: Settlement, ledger: Ledger, keys: seq<Key>, b: Bucket)
    requires forall k | k in keys :: k in ledger
  {
    && s.gross == KindTotal(ledger, keys, b, PaymentCapture)
    && s.refund == KindTotal(ledger, keys, b, RefundPaid)
    && s.fee == KindTotal(ledger, keys, b, PaymentFee)
    && s.adjustment == KindTotal(ledger, keys, b, Adjustment)
    && s.net == s.gross - s.refund - s.fee + s.adjustment
  }

  /** How a kind is measured in the digest. */
  function Measure(kind: EntryKind): Entry -> int {
    (e: Entry) => if e.kind != kind then 0 else if kind.Adjustment? && e.direction.Debit? then -e.amount else e.amount
  }

  lemma {:induction false} KindTotalIsSum(ledger: Ledger, keys: seq<Key>, b: Bucket, kind: EntryKind)
    requires forall k | k in keys :: k in ledger
    ensures KindTotal(ledger, keys, b, kind) == SumBy(Rows(ledger, keys), InBucket(Measure(kind), b))
  {
    if keys != [] {
      var rows := Rows(ledger, keys);
      assert rows[1..] == Rows(ledger, keys[1..]);
      DayContainsInstant(rows[0].occurredAt, b.day);
      KindTotalIsSum(ledger, keys[1..], b, kind);
    }
  }

  lemma FiguresAreTotals(ledger: Ledger, keys: seq<Key>, b: Bucket, hold: int, existing: Option<Settlement>)
    requires forall k | k in keys :: k in ledger
    ensures HasFigures(Recomputed(ledger, keys, b, hold, existing), ledger, keys, b)
  {
    var rows := Rows(ledger, keys);
    FiguresAddUp(ledger, keys, b, hold, existing);
    KindTotalIsSum(ledger, keys, b, PaymentCapture);
    KindTotalIsSum(ledger, keys, b, RefundPaid);
    KindTotalIsSum(ledger, keys, b, PaymentFee);
    KindTotalIsSum(ledger, keys, b, Adjustment);
    SumSame(rows, InBucket(OfKind(PaymentCapture), b), InBucket(Measure(PaymentCapture), b));
    SumSame(rows, InBucket(OfKind(RefundPaid), b), InBucket(Measure(RefundPaid), b));
    SumSame(rows, InBucket(OfKind(PaymentFee), b), InBucket(Measure(PaymentFee), b));
    SumSame(rows, InBucket(Adjusted(), b), InBucket(Measure(Adjustment), b));
  }

  /** The day has a row that is not a payout, and its hold is over. */
  predicate IsDue(ledger: Ledger, b: Bucket, cutoff: int) {
    && b.day <= cutoff
    && exists k | k in ledger ::
         && !ledger[k].kind.SettlementPayout? && ledger[k].account == b.account
         && StartOf(b.day) <= ledger[k].occurredAt <= EndOf(b.day)
  }

  lemma EligibleIffDue(ledger: Ledger, b: Bucket, cutoff: int)
    ensures b in Eligible(ledger, cutoff) <==> IsDue(ledger, b, cutoff)
  {
    if b in Eligible(ledger, cutoff) {
      var k :| k in ledger && Settles(ledger[k], cutoff) && BucketOf(ledger[k]) == b;
      DayContainsInstant(ledger[k].occurredAt, b.day);
    }
    if IsDue(ledger, b, cutoff) {
      var k :| k in ledger && !ledger[k].kind.SettlementPayout? && ledger[k].account == b.account
               && StartOf(b.day) <= ledger[k].occurredAt <= EndOf(b.day);
      DayContainsInstant(ledger[k].occurredAt, b.day);
      assert Settles(ledger[k], cutoff);
    }
  }

  /** A due settlement that is not PAID has its figures, its release date and the status it had; all others are as before. */
  ghost predicate Synced(
      before: map<Bucket, Settlement>, after: map<Bucket, Settlement>, ledger: Ledger, keys: seq<Key>, cutoff: int, hold: int)
    requires forall k | k in keys :: k in ledger
  {
    forall b: Bucket {:trigger b in after} ::
      if IsDue(ledger, b, cutoff) && !(b in before && before[b].status.Paid?) then
        && b in after && HasFigures(after[b], ledger, keys, b) && after[b].eligibleAt == EndOf(b.day + hold)
        && after[b].status == (if b in before then before[b].status else Pending)
        && after[b].paidAt == (if b in before then before[b].paidAt else None)
      else
        (b in after <==> b in before) && (b in before ==> after[b] == before[b])
  }

  lemma SettleSyncs(w: World, keys: seq<Key>, cutoff: int, hold: int)
    requires forall k | k in keys :: k in w.ledger
    ensures Synced(w.settlements, SettleAll(w, keys, cutoff, hold), w.ledger, keys, cutoff, hold)
  {
    forall b: Bucket
      ensures b in Eligible(w.ledger, cutoff) <==> IsDue(w.ledger, b, cutoff)
      ensures HasFigures(Recomputed(w.ledger, keys, b, hold, Find(w.settlements, b)), w.ledger, keys, b)
    {
      EligibleIffDue(w.ledger, b, cutoff);
      FiguresAreTotals(w.ledger, keys, b, hold, Find(w.settlements, b));
    }
  }

  // ---------- the rows a settlement counts ----------

  /** What a counted row contributes to the column of its kind. */
  function Part(ledger: Ledger, counted: set<Key>, kind: EntryKind): Key -> int {
    (k: Key) => if k in counted && k in ledger && ledger[k].kind == kind then ledger[k].amount else 0
  }

  /** Captures, fees and refunds: the columns that orders and refunds fill. */
  predicate IsColumn(kind: EntryKind) {
    kind.PaymentCapture? || kind.PaymentFee? || kind.RefundPaid?
  }

  function Column(s: Settlement, kind: EntryKind): int
    requires IsColumn(kind)
  {
    match kind
    case PaymentCapture => s.gross
    case PaymentFee => s.fee
    case RefundPaid => s.refund
  }

  /** The figures are those of the rows counted, as the ledger has them now. */
  predicate Stands(s: Settlement, ledger: Ledger, keys: seq<Key>) {
    forall kind | IsColumn(kind) :: Column(s, kind) == SumBy(keys, Part(ledger, s.counted, kind))
  }

  predicate AllStand(w: World, keys: seq<Key>) {
    forall b | b in w.settlements :: Stands(w.settlements[b], w.ledger, keys)
  }

  /** What an order or refund says a row's amount is. */
  predicate Stated(books: Books, k: Key, e: Entry) {
    match k
    case CaptureOf(id) => id in books.orders && e.amount == books.orders[id].amount
    case FeeOf(id) => id in books.orders && e.amount == books.orders[id].fee
    case RefundOf(id) => RefundSucceeded(books, id) && e.amount == books.refunds[id].amount
    case PayoutOf(_) => true
  }

  predicate AllStated(books: Books, ledger: Ledger) {
    forall k | k in ledger :: Stated(books, k, ledger[k])
  }

  predicate BooksHold(w: World) {
    && AllStated(w.books, w.ledger)
    && forall reading | reading in w.readings :: AllStated(w.books, reading.ledger)
  }

  predicate SameRow(before: Ledger, after: Ledger, k: Key) {
    k in before && k in after && before[k].kind == after[k].kind && before[k].amount == after[k].amount
  }

  /** A part does not depend on which of two ledgers with the same counted rows it is taken from. */
  lemma {:induction false} PartCarries(
      before: Ledger, keys: seq<Key>, after: Ledger, keys': seq<Key>, counted: set<Key>, kind: EntryKind)
    requires Lists(keys, before) && Lists(keys', after) && forall k | k in counted :: SameRow(before, after, k)
    ensures SumBy(keys, Part(before, counted, kind)) == SumBy(keys', Part(after, counted, kind))
  {
    SumAlong(keys, keys', Part(before, counted, kind), Part(after, counted, kind), (k: Key) => k);
  }

  /** A recomputed settlement stands on the ledger it was computed from. */
  lemma {:induction false} RecomputedStands(
      ledger: Ledger, keys: seq<Key>, b: Bucket, hold: int, existing: Option<Settlement>)
    requires Lists(keys, ledger)
    ensures Stands(Recomputed(ledger, keys, b, hold, existing), ledger, keys)
  {
    forall kind | IsColumn(kind)
      ensures Column(Recomputed(ledger, keys, b, hold, existing), kind)
           == SumBy(keys, Part(ledger, KeysIn(ledger, b), kind)) {
      RowsMeasure(ledger, keys, InBucket(OfKind(kind), b));
      SumSame(keys, At(ledger, InBucket(OfKind(kind), b)), Part(ledger, KeysIn(ledger, b), kind));
    }
  }

  lemma NextHoldsBooks(w: World, step: Step)
    requires BooksHold(w) && KindsMatch(w.ledger) && Next(w, step).fell == {}
    ensures BooksHold(Next(w, step))
  {
  }

  /** Rows counted or read stay as they are while nothing moves and no refund falls. */
  lemma RowsStay(books: Books, before: Ledger, after: Ledger, k: Key)
    requires AllStated(books, before) && AllStated(books, after) && KindsMatch(before) && KindsMatch(after)
    requires k in before && k in after && !k.PayoutOf?
    ensures SameRow(before, after, k)
  {
    assert Stated(books, k, before[k]) && Stated(books, k, after[k]);
    assert KindMatches(k, before[k]) && KindMatches(k, after[k]);
  }

  lemma {:induction false} NewStands(
      w: World, v: World, keys': seq<Key>, b: Bucket, ledger: Ledger, keys: seq<Key>, hold: int, existing: Option<Settlement>)
    requires Inv(w) && Inv(v) && BooksHold(v) && v.moved == {} && v.books == w.books && v.ledger == w.ledger
    requires Lists(keys, ledger) && Lists(keys', v.ledger) && AllStated(v.books, ledger) && KindsMatch(ledger)
    requires b in v.settlements && v.settlements[b] == Recomputed(ledger, keys, b, hold, existing)
    ensures Stands(v.settlements[b], v.ledger, keys')
  {
    var s := v.settlements[b];
    RecomputedStands(ledger, keys, b, hold, existing);
    forall k | k in s.counted ensures SameRow(ledger, v.ledger, k) {
      assert CountedInPlace(v, b, k);
      RowsStay(v.books, ledger, v.ledger, k);
    }
    forall kind | IsColumn(kind) ensures Column(s, kind) == SumBy(keys', Part(v.ledger, s.counted, kind)) {
      PartCarries(ledger, keys, v.ledger, keys', s.counted, kind);
    }
  }

  lemma {:induction false} OldStands(w: World, v: World, keys: seq<Key>, keys': seq<Key>, b: Bucket)
    requires Inv(w) && Inv(v) && w.moved == {} && v.moved == {} && BooksHold(v) && AllStated(v.books, w.ledger)
    requires Lists(keys, w.ledger) && Lists(keys', v.ledger)
    requires b in w.settlements && b in v.settlements && Stands(w.settlements[b], w.ledger, keys)
    requires v.settlements[b] == w.settlements[b].(status := v.settlements[b].status, paidAt := v.settlements[b].paidAt)
    ensures Stands(v.settlements[b], v.ledger, keys')
  {
    var s := v.settlements[b];
    forall k | k in s.counted ensures SameRow(w.ledger, v.ledger, k) {
      assert CountedInPlace(w, b, k) && CountedInPlace(v, b, k);
      RowsStay(v.books, w.ledger, v.ledger, k);
    }
    forall kind | IsColumn(kind) ensures Column(s, kind) == SumBy(keys', Part(v.ledger, s.counted, kind)) {
      PartCarries(w.ledger, keys, v.ledger, keys', s.counted, kind);
    }
  }

  /** The step writes this settlement anew. */
  ghost predicate Rewrites(w: World, step: Step, b: Bucket) {
    && Enabled(w, step) && !IsPaid(w.settlements, b)
    && ((step.Settle? && b in Eligible(w.ledger, step.cutoff)) || (step.WriteBucket? && b == step.bucket))
  }

  lemma OtherwiseFiguresStay(w: World, step: Step, b: Bucket)
    requires b in Next(w, step).settlements && !Rewrites(w, step, b)
    ensures b in w.settlements
    ensures var s := Next(w, step).settlements[b]; s == w.settlements[b].(status := s.status, paidAt := s.paidAt)
  {
  }

  lemma {:induction false} NextStands(w: World, step: Step, keys: seq<Key>, keys': seq<Key>)
    requires Inv(w) && BooksHold(w) && Lists(keys, w.ledger) && AllStand(w, keys)
    requires var v := Next(w, step); Inv(v) && v.moved == {} && v.fell == {} && Lists(keys', v.ledger)
    ensures AllStand(Next(w, step), keys')
  {
    var v := Next(w, step);
    NextHoldsBooks(w, step);
    assert w.moved == {};
    forall b | b in v.settlements ensures Stands(v.settlements[b], v.ledger, keys') {
      if !Rewrites(w, step, b) {
        OtherwiseFiguresStay(w, step, b);
        assert v.ledger == w.ledger || v.books == w.books;
        OldStands(w, v, keys, keys', b);
      } else if step.Settle? {
        NewStands(w, v, keys', b, w.ledger, step.keys, step.hold, Find(w.settlements, b));
      } else {
        assert ReadingStays(w, step.reading);
        NewStands(w, v, keys', b, step.reading.ledger, step.reading.keys, step.hold, Find(w.settlements, b));
      }
    }
  }

  lemma {:induction false} AnyListing(ledger: Ledger) returns (keys: seq<Key>)
    ensures Lists(keys, ledger)
    decreases |ledger|
  {
    if ledger == map[] {
      keys := [];
    } else {
      var k :| k in ledger;
      var rest := ledger - {k};
      assert rest.Keys == ledger.Keys - {k};
      assert |rest.Keys| < |ledger.Keys| && |rest| == |rest.Keys| && |ledger| == |ledger.Keys|;
      keys := AnyListing(rest);
      keys := keys + [k];
    }
  }

  /** What moved or fell stays in the history. */
  lemma {:induction false} HistoryGrows(w: World, steps: seq<Step>)
    ensures w.moved <= Run(w, steps).moved && w.fell <= Run(w, steps).fell
    decreases |steps|
  {
    if steps != [] {
      HistoryGrows(Next(w, steps[0]), steps[1..]);
    }
  }

  /** Over every run in which no row moves and no refund falls, each settlement stands on the rows it counted. */
  lemma {:induction false} RunStands(w: World, steps: seq<Step>, keys: seq<Key>, keys': seq<Key>)
    requires Inv(w) && BooksHold(w) && Lists(keys, w.ledger) && AllStand(w, keys)
    requires var v := Run(w, steps); v.moved == {} && v.fell == {} && Lists(keys', v.ledger)
    ensures BooksHold(Run(w, steps)) && AllStand(Run(w, steps), keys')
    decreases |steps|
  {
    if steps == [] {
      forall b, kind | b in w.settlements && IsColumn(kind)
        ensures Column(w.settlements[b], kind) == SumBy(keys', Part(w.ledger, w.settlements[b].counted, kind)) {
        assert Stands(w.settlements[b], w.ledger, keys);
        forall k | k in w.settlements[b].counted ensures SameRow(w.ledger, w.ledger, k) {
          assert CountedInPlace(w, b, k);
        }
        PartCarries(w.ledger, keys, w.ledger, keys', w.settlements[b].counted, kind);
      }
    } else {
      var v := Next(w, steps[0]);
      HistoryGrows(v, steps[1..]);
      RunKeepsInv(w, [steps[0]]);
      OneStep(w, steps[0]);
      NextHoldsBooks(w, steps[0]);
      var between := AnyListing(v.ledger);
      NextStands(w, steps[0], keys, between);
      RunStands(v, steps[1..], between, keys');
    }
  }

  // ---------- the columns and the books ----------

  function AmountOf(books: Books): OrderId -> int {
    (id: OrderId) => if OrderSucceeded(books, id) then books.orders[id].amount else 0
  }

  function FeeAmountOf(books: Books): OrderId -> int {
    (id: OrderId) => if OrderSucceeded(books, id) then books.orders[id].fee else 0
  }

  function RefundAmountOf(books: Books): RefundId -> int {
    (id: RefundId) => if RefundSucceeded(books, id) then books.refunds[id].amount else 0
  }

  /** A column of the settlement table. */
  function ColumnOf(settlements: map<Bucket, Settlement>, kind: EntryKind): Bucket -> int
    requires IsColumn(kind)
  {
    (b: Bucket) => if b in settlements then Column(settlements[b], kind) else 0
  }

  /** The rows of one kind in a ledger that is the view add up to what the orders or refunds say. */
  lemma {:induction false} KindsAddUp(
      books: Books, ledger: Ledger, keys: seq<Key>, orders: seq<OrderId>, refunds: seq<RefundId>)
    requires IsView(books, ledger) && KindsMatch(ledger) && FeesAddUp(books)
    requires Lists(keys, ledger) && Lists(orders, books.orders) && Lists(refunds, books.refunds)
    ensures SumBy(Rows(ledger, keys), OfKind(PaymentCapture)) == SumBy(orders, AmountOf(books))
    ensures SumBy(Rows(ledger, keys), OfKind(PaymentFee)) == SumBy(orders, FeeAmountOf(books))
    ensures SumBy(Rows(ledger, keys), OfKind(RefundPaid)) == SumBy(refunds, RefundAmountOf(books))
  {
    var captures, fees, paid := OfKind(PaymentCapture), OfKind(PaymentFee), OfKind(RefundPaid);
    RowsMeasure(ledger, keys, captures);
    RowsMeasure(ledger, keys, fees);
    RowsMeasure(ledger, keys, paid);
    forall k | k in keys
      ensures At(ledger, captures)(k) == Captures(At(ledger, captures))(k)
      ensures At(ledger, fees)(k) == Fees(At(ledger, fees))(k)
      ensures At(ledger, paid)(k) == RefundsOnly(At(ledger, paid))(k) {
      assert KindMatches(k, ledger[k]);
    }
    SumSame(keys, At(ledger, captures), Captures(At(ledger, captures)));
    SumSame(keys, At(ledger, fees), Fees(At(ledger, fees)));
    SumSame(keys, At(ledger, paid), RefundsOnly(At(ledger, paid)));
    OrdersCarryCaptures(books, ledger, keys, orders, captures);
    OrdersCarryFees(books, ledger, keys, orders, fees);
    RefundsCarryRows(books, ledger, keys, refunds, paid);
    forall id | id in orders
      ensures CaptureBy(At(ledger, captures))(id) == AmountOf(books)(id)
      ensures FeeBy(At(ledger, fees))(id) == FeeAmountOf(books)(id) {
      assert Lookup(ledger, CaptureOf(id)) == View(books, CaptureOf(id));
      assert Lookup(ledger, FeeOf(id)) == View(books, FeeOf(id));
    }
    forall id | id in refunds ensures RefundBy(At(ledger, paid))(id) == RefundAmountOf(books)(id) {
      assert Lookup(ledger, RefundOf(id)) == View(books, RefundOf(id));
    }
    SumSame(orders, CaptureBy(At(ledger, captures)), AmountOf(books));
    SumSame(orders, FeeBy(At(ledger, fees)), FeeAmountOf(books));
    SumSame(refunds, RefundBy(At(ledger, paid)), RefundAmountOf(books));
  }

  /** No settlement was paid out before all the rows of its day were there. */
  predicate PaidInTime(w: World) {
    forall b | b in w.settlements && IsPaid(w.settlements, b) :: KeysIn(w.ledger, b) <= w.settlements[b].counted
  }

  /** After a sync, every settlement of a day with rows counts all of them. */
  lemma SyncedSettlementCountsAll(w: World, keys: seq<Key>, cutoff: int, hold: int, b: Bucket)
    requires Inv(w) && w.moved == {} && PaidInTime(w) && Lists(keys, w.ledger) && b in Eligible(w.ledger, cutoff)
    ensures var v := Next(w, Settle(keys, cutoff, hold));
            b in v.settlements && v.settlements[b].counted == KeysIn(w.ledger, b)
  {
    if IsPaid(w.settlements, b) {
      forall k | k in w.settlements[b].counted ensures k in KeysIn(w.ledger, b) {
        assert CountedInPlace(w, b, k) && KindMatches(k, w.ledger[k]);
      }
    }
  }

  lemma {:induction false} ColumnIsTotal(w: World, keys: seq<Key>, buckets: seq<Bucket>, kind: EntryKind)
    requires IsColumn(kind) && Lists(keys, w.ledger) && AllStand(w, keys) && Distinct(buckets)
    requires forall b | b in buckets :: b in w.settlements && w.settlements[b].counted == KeysIn(w.ledger, b)
    requires forall k | k in w.ledger && !w.ledger[k].kind.SettlementPayout? :: BucketOf(w.ledger[k]) in buckets
    ensures SumBy(buckets, ColumnOf(w.settlements, kind)) == SumBy(Rows(w.ledger, keys), OfKind(kind))
  {
    var rows := Rows(w.ledger, keys);
    forall b | b in buckets ensures ColumnOf(w.settlements, kind)(b) == TotalIn(rows, OfKind(kind))(b) {
      assert Stands(w.settlements[b], w.ledger, keys);
      RowsMeasure(w.ledger, keys, InBucket(OfKind(kind), b));
      SumSame(keys, At(w.ledger, InBucket(OfKind(kind), b)), Part(w.ledger, KeysIn(w.ledger, b), kind));
    }
    SumSame(buckets, ColumnOf(w.settlements, kind), TotalIn(rows, OfKind(kind)));
    forall e | e in rows && OfKind(kind)(e) != 0 ensures BucketOf(e) in buckets {
      var i :| 0 <= i < |rows| && rows[i] == e;
      assert keys[i] in keys && w.ledger[keys[i]] == e;
    }
    BucketsPartition(rows, buckets, OfKind(kind));
  }

  /**
   Over every run of orders, refunds, ledger syncs, settlement syncs and payouts: if no payment day moved, no refund fell
   and nothing was paid out before its day's rows were there, then, once the ledger is the view and a sync reaches all of
   it, the gross column adds up to the amounts of the SUCCEEDED orders, the fee column to their fees, and the refund
   column to the SUCCEEDED refunds, whatever part of it has been paid out by then.
   */
  lemma {:induction false} ColumnsAddUpToBooks(
      steps: seq<Step>, keys: seq<Key>, cutoff: int, hold: int, buckets: seq<Bucket>, orders: seq<OrderId>,
      refunds: seq<RefundId>)
    requires var w := Run(Init(), steps);
             && w.moved == {} && w.fell == {} && PaidInTime(w) && IsView(w.books, w.ledger)
             && Lists(keys, w.ledger) && Lists(orders, w.books.orders) && Lists(refunds, w.books.refunds)
             && Distinct(buckets) && Elements(buckets) == Eligible(w.ledger, cutoff)
             && forall k | k in w.ledger && !w.ledger[k].kind.SettlementPayout? :: w.ledger[k].occurredAt <= EndOf(cutoff)
    ensures var w := Run(Init(), steps);
            var v := Next(w, Settle(keys, cutoff, hold));
            && SumBy(buckets, ColumnOf(v.settlements, PaymentCapture)) == SumBy(orders, AmountOf(w.books))
            && SumBy(buckets, ColumnOf(v.settlements, PaymentFee)) == SumBy(orders, FeeAmountOf(w.books))
            && SumBy(buckets, ColumnOf(v.settlements, RefundPaid)) == SumBy(refunds, RefundAmountOf(w.books))
  {
    var w := Run(Init(), steps);
    RunKeepsInv(Init(), steps);
    RunStands(Init(), steps, [], keys);
    var v := Next(w, Settle(keys, cutoff, hold));
    RunKeepsInv(w, [Settle(keys, cutoff, hold)]);
    OneStep(w, Settle(keys, cutoff, hold));
    NextStands(w, Settle(keys, cutoff, hold), keys, keys);
    forall b | b in buckets ensures b in v.settlements && v.settlements[b].counted == KeysIn(v.ledger, b) {
      assert b in Elements(buckets);
      SyncedSettlementCountsAll(w, keys, cutoff, hold, b);
    }
    forall k | k in v.ledger && !v.ledger[k].kind.SettlementPayout? ensures BucketOf(v.ledger[k]) in buckets {
      assert BucketOf(w.ledger[k]) in Eligible(w.ledger, cutoff) && BucketOf(w.ledger[k]) in Elements(buckets);
    }
    ColumnIsTotal(v, keys, buckets, PaymentCapture);
    ColumnIsTotal(v, keys, buckets, PaymentFee);
    ColumnIsTotal(v, keys, buckets, RefundPaid);
    KindsAddUp(w.books, w.ledger, keys, orders, refunds);
  }
}
