/**
 Daily settlements over the ledger (lib/finance/settlements.ts) as a transition system.  A settlement is
 identified by merchant, currency and Shanghai day; its payout row by the settlement.  A sync reads the ledger in
 one step and writes each bucket in another, so anything may happen in between; an undisturbed sync (`Settle`) and
 a mark-as-paid are one step.
 */
module Settlements {
  import opened Options
  import opened Sums
  import opened DayKeys
  import opened Finance
  import opened Ledgers

  datatype SettlementStatus = Pending | Processing | Paid | Failed

  /** `counted` is history: the ledger rows that the figures were last computed from. */
  datatype Settlement = Settlement(
    status: SettlementStatus, eligibleAt: int, gross: int, refund: int, fee: int, adjustment: int, net: int,
    paidAt: Option<int>, counted: set<Key>)

  /** The ledger as a running sync has read it, with the order of its rows. */
  datatype Reading = Reading(ledger: Ledger, keys: seq<Key>)

  /**
   `moved` and `fell` are history: the ledger rows that were ever removed or redated into another bucket, and the
   refunds that ever fell from SUCCEEDED.
   */
  datatype World = World(
    books: Books, ledger: Ledger, settlements: map<Bucket, Settlement>, readings: set<Reading>,
    moved: set<Key>, fell: set<RefundId>)

  datatype Step =
    | ChangeOrder(id: OrderId, order: Order)
    | ChangeRefund(id: RefundId, refund: Refund)
    | OrderSync(id: OrderId)
    | RefundSync(id: RefundId)
    | ReadLedger(keys: seq<Key>)
    | WriteBucket(reading: Reading, bucket: Bucket, cutoff: int, hold: int)
    | Settle(keys: seq<Key>, cutoff: int, hold: int)
    | MarkPaid(bucket: Bucket, now: int)

  function Init(): World {
    World(Books(map[], map[]), map[], map[], {}, {}, {})
  }

  // ---------- syncMerchantSettlements ----------

  /** The query: anything but payouts, up to the last instant of the cutoff day. */
  predicate Settles(e: Entry, cutoff: int) {
    !e.kind.SettlementPayout? && e.occurredAt <= EndOf(cutoff)
  }

  function Eligible(ledger: Ledger, cutoff: int): set<Bucket> {
    set k | k in ledger && Settles(ledger[k], cutoff) :: BucketOf(ledger[k])
  }

  function KeysIn(ledger: Ledger, b: Bucket): set<Key> {
    set k | k in ledger && !ledger[k].kind.SettlementPayout? && BucketOf(ledger[k]) == b
  }

  predicate IsPaid(settlements: map<Bucket, Settlement>, b: Bucket) {
    b in settlements && settlements[b].status.Paid?
  }

  /** The figures of one bucket; `keys` is the order in which the ledger was read. */
  function Recomputed(ledger: Ledger, keys: seq<Key>, b: Bucket, hold: int, existing: Option<Settlement>): Settlement
    requires forall k | k in keys :: k in ledger
  {
    var rows := Rows(ledger, keys);
    Settlement(
      if existing.Some? then existing.value.status else Pending,
      EndOf(b.day + hold),
      SumBy(rows, InBucket(OfKind(PaymentCapture), b)),
      SumBy(rows, InBucket(OfKind(RefundPaid), b)),
      SumBy(rows, InBucket(OfKind(PaymentFee), b)),
      SumBy(rows, InBucket(Adjusted(), b)),
      DayNet(rows, b.account, b.day),
      if existing.Some? then existing.value.paidAt else None,
      KeysIn(ledger, b))
  }

  function Find(settlements: map<Bucket, Settlement>, b: Bucket): Option<Settlement> {
    if b in settlements then Some(settlements[b]) else None
  }

  /** One bucket that has rows up to the cutoff: locked if PAID, recomputed otherwise. */
  function SettleOne(w: World, keys: seq<Key>, hold: int, b: Bucket): Settlement
    requires forall k | k in keys :: k in w.ledger
  {
    if IsPaid(w.settlements, b) then w.settlements[b]
    else Recomputed(w.ledger, keys, b, hold, Find(w.settlements, b))
  }

  function SettleEach(w: World, keys: seq<Key>, hold: int, buckets: set<Bucket>): map<Bucket, Settlement>
    requires forall k | k in keys :: k in w.ledger
  {
    map b | b in buckets :: SettleOne(w, keys, hold, b)
  }

  /** Buckets without rows up to the cutoff are not looked at. */
  function SettleAll(w: World, keys: seq<Key>, cutoff: int, hold: int): map<Bucket, Settlement>
    requires forall k | k in keys :: k in w.ledger
  {
    w.settlements + SettleEach(w, keys, hold, Eligible(w.ledger, cutoff))
  }

  // ---------- steps ----------

  /** The payout row that markMerchantSettlementPaid writes. */
  function PayoutEntry(b: Bucket, s: Settlement, now: int): Entry {
    Entry(b.account, now, SettlementPayout, Debit, s.net)
  }

  /** What the rest of the gateway guarantees about an order: fixed money, and SUCCEEDED is final. */
  predicate OrderMayBecome(books: Books, id: OrderId, o: Order) {
    && o.fee >= 0 && o.amount == o.fee + o.net
    && (id in books.orders ==>
          var p := books.orders[id];
          && o.account == p.account && o.amount == p.amount && o.fee == p.fee
          && (p.succeeded ==> o.succeeded))
  }

  /**
   A refund keeps its amount while it is SUCCEEDED.  It can fall from there: if anything throws after the success was
   applied, the catch of its creation marks it FAILED, and a retry may bring another amount.
   */
  predicate RefundMayBecome(books: Books, id: RefundId, r: Refund) {
    id in books.refunds ==>
      var p := books.refunds[id];
      r.account == p.account && (p.succeeded && r.succeeded ==> r.amount == p.amount)
  }

  ghost predicate Enabled(w: World, step: Step) {
    match step
    case ChangeOrder(id, o) => OrderMayBecome(w.books, id, o)
    case ChangeRefund(id, r) => RefundMayBecome(w.books, id, r)
    case OrderSync(_) => true
    case RefundSync(_) => true
    case ReadLedger(keys) => Lists(keys, w.ledger)
    case WriteBucket(reading, b, cutoff, _) =>
      reading in w.readings && Lists(reading.keys, reading.ledger) && b in Eligible(reading.ledger, cutoff)
    case Settle(keys, _, _) => Lists(keys, w.ledger)
    case MarkPaid(b, _) => b in w.settlements && !w.settlements[b].status.Paid? && w.settlements[b].net > 0
  }

  /** Rows that disappear or change bucket when one ledger replaces another. */
  function Moved(before: Ledger, after: Ledger): set<Key> {
    set k | k in before && (k !in after || BucketOf(after[k]) != BucketOf(before[k]))
  }

  function Write(w: World, ledger: Ledger): World {
    w.(ledger := ledger, moved := w.moved + Moved(w.ledger, ledger))
  }

  ghost function Next(w: World, step: Step): World {
    if !Enabled(w, step) then w
    else match step
      case ChangeOrder(id, o) => w.(books := w.books.(orders := w.books.orders[id := o]))
      case ChangeRefund(id, r) =>
        w.(books := w.books.(refunds := w.books.refunds[id := r]),
           fell := w.fell + if RefundSucceeded(w.books, id) && !r.succeeded then {id} else {})
      case OrderSync(id) => Write(w, SyncOrder(w.books, w.ledger, id))
      case RefundSync(id) => Write(w, SyncRefund(w.books, w.ledger, id))
      case ReadLedger(keys) => w.(readings := w.readings + {Reading(w.ledger, keys)})
      case WriteBucket(reading, b, _, hold) =>
        w.(settlements := w.settlements[b := SettleOne(w.(ledger := reading.ledger), reading.keys, hold, b)])
      case Settle(keys, cutoff, hold) => w.(settlements := SettleAll(w, keys, cutoff, hold))
      case MarkPaid(b, now) =>
        var s := w.settlements[b];
        Write(w, w.ledger[PayoutOf(b) := PayoutEntry(b, s, now)])
        .(settlements := w.settlements[b := s.(status := Paid, paidAt := Some(now))])
  }

  ghost function Run(w: World, steps: seq<Step>): World
    decreases |steps|
  {
    if steps == [] then w else Run(Next(w, steps[0]), steps[1..])
  }

  // ---------- invariants ----------

  predicate PaidOut(w: World, b: Bucket)
    requires IsPaid(w.settlements, b) && PayoutOf(b) in w.ledger
  {
    var s := w.settlements[b];
    s.net > 0 && s.paidAt.Some? && w.ledger[PayoutOf(b)] == PayoutEntry(b, s, s.paidAt.value)
  }

  /** A settlement is PAID exactly when it has its payout row, a debit of its positive net. */
  ghost predicate PayoutsMatch(w: World) {
    forall b: Bucket {:trigger PayoutOf(b)} ::
      && (PayoutOf(b) in w.ledger <==> IsPaid(w.settlements, b))
      && (PayoutOf(b) in w.ledger ==> PaidOut(w, b))
  }

  predicate CountedInPlace(w: World, b: Bucket, k: Key) {
    k in w.moved || (k in w.ledger && BucketOf(w.ledger[k]) == b)
  }

  /** A row counted by a settlement is still in its bucket, unless it has moved. */
  predicate CountedStay(w: World) {
    forall b | b in w.settlements :: forall k | k in w.settlements[b].counted ::
      !k.PayoutOf? && CountedInPlace(w, b, k)
  }

  predicate KindMatches(k: Key, e: Entry) {
    && WellSigned(e)
    && match k
       case CaptureOf(_) => e.kind.PaymentCapture?
       case FeeOf(_) => e.kind.PaymentFee?
       case RefundOf(_) => e.kind.RefundPaid?
       case PayoutOf(_) => e.kind.SettlementPayout?
  }

  predicate KindsMatch(ledger: Ledger) {
    forall k | k in ledger :: KindMatches(k, ledger[k])
  }

  /** A row read by a running sync is still in its bucket, unless it has moved. */
  predicate ReadingStays(w: World, reading: Reading) {
    && KindsMatch(reading.ledger)
    && forall k | k in reading.ledger :: CountedInPlace(w, BucketOf(reading.ledger[k]), k)
  }

  predicate ReadingsStay(w: World) {
    forall reading | reading in w.readings :: ReadingStays(w, reading)
  }

  /** Only refunds that fell from SUCCEEDED leave stale rows. */
  predicate OnlyFallenAreStale(w: World) {
    forall k | k in w.ledger && IsStale(w.books, k) :: k.RefundOf? && k.refund in w.fell
  }

  ghost predicate Inv(w: World) {
    && PayoutsMatch(w) && CountedStay(w) && ReadingsStay(w) && KindsMatch(w.ledger)
    && OnlyFallenAreStale(w) && FeesAddUp(w.books)
  }

  lemma NextKeepsPayouts(w: World, step: Step)
    requires PayoutsMatch(w)
    ensures PayoutsMatch(Next(w, step))
  {
  }

  /** A row keeps its bucket through a step, or is recorded as moved. */
  lemma PlacesPersist(w: World, step: Step, b: Bucket, k: Key)
    requires CountedInPlace(w, b, k)
    ensures CountedInPlace(Next(w, step), b, k)
  {
  }

  lemma NextKeepsCounted(w: World, step: Step)
    requires CountedStay(w) && ReadingsStay(w) && KindsMatch(w.ledger)
    ensures CountedStay(Next(w, step))
  {
    var v := Next(w, step);
    forall b, k | b in v.settlements && k in v.settlements[b].counted ensures !k.PayoutOf? && CountedInPlace(v, b, k) {
      if b in w.settlements && v.settlements[b].counted == w.settlements[b].counted {
        PlacesPersist(w, step, b, k);
      } else if step.WriteBucket? {
        assert ReadingStays(w, step.reading) && k in KeysIn(step.reading.ledger, b);
        assert KindMatches(k, step.reading.ledger[k]);
      } else {
        assert k in KeysIn(w.ledger, b) && KindMatches(k, w.ledger[k]);
      }
    }
  }

  lemma NextKeepsReadings(w: World, step: Step)
    requires ReadingsStay(w) && KindsMatch(w.ledger)
    ensures ReadingsStay(Next(w, step))
  {
    var v := Next(w, step);
    forall reading | reading in v.readings ensures ReadingStays(v, reading) {
      if reading in w.readings {
        assert ReadingStays(w, reading);
        forall k | k in reading.ledger ensures CountedInPlace(v, BucketOf(reading.ledger[k]), k) {
          PlacesPersist(w, step, BucketOf(reading.ledger[k]), k);
        }
      }
    }
  }

  lemma NextKeepsKinds(w: World, step: Step)
    requires KindsMatch(w.ledger)
    ensures KindsMatch(Next(w, step).ledger)
  {
  }

  lemma NextKeepsSources(w: World, step: Step)
    requires OnlyFallenAreStale(w) && FeesAddUp(w.books)
    ensures OnlyFallenAreStale(Next(w, step)) && FeesAddUp(Next(w, step).books)
  {
  }

  lemma {:induction false} RunKeepsInv(w: World, steps: seq<Step>)
    requires Inv(w)
    ensures Inv(Run(w, steps))
    decreases |steps|
  {
    if steps != [] {
      NextKeepsPayouts(w, steps[0]);
      NextKeepsCounted(w, steps[0]);
      NextKeepsReadings(w, steps[0]);
      NextKeepsKinds(w, steps[0]);
      NextKeepsSources(w, steps[0]);
      RunKeepsInv(Next(w, steps[0]), steps[1..]);
    }
  }

  // ---------- the sync as a run ----------

  function Elements(buckets: seq<Bucket>): set<Bucket> {
    set b | b in buckets
  }

  lemma SettleEachAdds(w: World, keys: seq<Key>, hold: int, done: set<Bucket>, b: Bucket)
    requires forall k | k in keys :: k in w.ledger
    requires b !in done
    ensures var settlements := w.settlements + SettleEach(w, keys, hold, done);
            && Find(settlements, b) == Find(w.settlements, b)
            && w.settlements + SettleEach(w, keys, hold, done + {b}) == settlements[b := SettleOne(w, keys, hold, b)]
  {
  }

  function WriteBuckets(reading: Reading, buckets: seq<Bucket>, cutoff: int, hold: int): seq<Step> {
    if buckets == [] then []
    else WriteBuckets(reading, buckets[..|buckets| - 1], cutoff, hold)
         + [WriteBucket(reading, buckets[|buckets| - 1], cutoff, hold)]
  }

  lemma OneMoreWrite(w: World, reading: Reading, done: set<Bucket>, b: Bucket, cutoff: int, hold: int)
    requires reading in w.readings && reading.ledger == w.ledger && Lists(reading.keys, reading.ledger)
    requires b !in done && b in Eligible(w.ledger, cutoff)
    ensures Next(w.(settlements := w.settlements + SettleEach(w, reading.keys, hold, done)),
                 WriteBucket(reading, b, cutoff, hold))
         == w.(settlements := w.settlements + SettleEach(w, reading.keys, hold, done + {b}))
  {
    SettleEachAdds(w, reading.keys, hold, done, b);
  }

  lemma {:induction false} WritesSettleEach(w: World, reading: Reading, buckets: seq<Bucket>, cutoff: int, hold: int)
    requires reading in w.readings && reading.ledger == w.ledger && Lists(reading.keys, reading.ledger)
    requires Distinct(buckets) && forall b | b in buckets :: b in Eligible(w.ledger, cutoff)
    ensures Run(w, WriteBuckets(reading, buckets, cutoff, hold))
         == w.(settlements := w.settlements + SettleEach(w, reading.keys, hold, Elements(buckets)))
  {
    if buckets == [] {
      assert w.settlements + SettleEach(w, reading.keys, hold, {}) == w.settlements;
    } else {
      var front, b := buckets[..|buckets| - 1], buckets[|buckets| - 1];
      assert buckets == front + [b];
      WritesSettleEach(w, reading, front, cutoff, hold);
      RunAppend(w, WriteBuckets(reading, front, cutoff, hold), [WriteBucket(reading, b, cutoff, hold)]);
      OneStep(Run(w, WriteBuckets(reading, front, cutoff, hold)), WriteBucket(reading, b, cutoff, hold));
      assert b !in Elements(front) && Elements(buckets) == Elements(front) + {b};
      OneMoreWrite(w, reading, Elements(front), b, cutoff, hold);
    }
  }

  lemma OneStep(w: World, step: Step)
    ensures Run(w, [step]) == Next(w, step)
  {
    assert Run(w, [step]) == Run(Next(w, step), [step][1..]);
  }

  lemma SameSettleEach(v: World, w: World, keys: seq<Key>, hold: int, buckets: set<Bucket>)
    requires v.ledger == w.ledger && v.settlements == w.settlements && forall k | k in keys :: k in w.ledger
    ensures SettleEach(v, keys, hold, buckets) == SettleEach(w, keys, hold, buckets)
  {
  }

  /** A sync that nothing disturbs is one reading followed by one write for each of its buckets, in any order. */
  lemma UndisturbedSync(w: World, keys: seq<Key>, buckets: seq<Bucket>, cutoff: int, hold: int)
    requires Lists(keys, w.ledger) && Distinct(buckets) && Elements(buckets) == Eligible(w.ledger, cutoff)
    ensures var reading := Reading(w.ledger, keys);
            Run(w, [ReadLedger(keys)] + WriteBuckets(reading, buckets, cutoff, hold))
            == Next(w, Settle(keys, cutoff, hold)).(readings := w.readings + {reading})
  {
    var reading := Reading(w.ledger, keys);
    var v := Next(w, ReadLedger(keys));
    RunAppend(w, [ReadLedger(keys)], WriteBuckets(reading, buckets, cutoff, hold));
    OneStep(w, ReadLedger(keys));
    assert forall b | b in buckets :: b in Elements(buckets);
    WritesSettleEach(v, reading, buckets, cutoff, hold);
    SameSettleEach(v, w, keys, hold, Elements(buckets));
  }

  // ---------- what every run keeps ----------

  lemma PaidStays(w: World, step: Step, b: Bucket)
    requires PayoutsMatch(w) && IsPaid(w.settlements, b)
    ensures var v := Next(w, step);
            && IsPaid(v.settlements, b) && v.settlements[b] == w.settlements[b]
            && PayoutOf(b) in v.ledger && v.ledger[PayoutOf(b)] == w.ledger[PayoutOf(b)]
  {
  }

  /** A PAID settlement and its payout row never change again. */
  lemma {:induction false} PaidIsFrozen(w: World, steps: seq<Step>, b: Bucket)
    requires Inv(w) && IsPaid(w.settlements, b)
    ensures var v := Run(w, steps);
            && IsPaid(v.settlements, b) && v.settlements[b] == w.settlements[b]
            && PayoutOf(b) in v.ledger && v.ledger[PayoutOf(b)] == w.ledger[PayoutOf(b)]
    decreases |steps|
  {
    if steps != [] {
      PaidStays(w, steps[0], b);
      RunKeepsInv(w, [steps[0]]);
      assert Run(w, [steps[0]]) == Run(Next(w, steps[0]), [steps[0]][1..]) == Next(w, steps[0]);
      PaidIsFrozen(Next(w, steps[0]), steps[1..], b);
    }
  }

  /** A PAID settlement has exactly one payout row, a debit of its net, which is positive. */
  lemma PaidOnce(steps: seq<Step>, b: Bucket)
    ensures var w := Run(Init(), steps);
            && (IsPaid(w.settlements, b) <==> PayoutOf(b) in w.ledger)
            && (IsPaid(w.settlements, b) ==>
                  var s := w.settlements[b];
                  s.net > 0 && s.paidAt.Some? && w.ledger[PayoutOf(b)] == PayoutEntry(b, s, s.paidAt.value))
  {
    RunKeepsInv(Init(), steps);
    var w := Run(Init(), steps);
    assert PayoutOf(b) in w.ledger <==> IsPaid(w.settlements, b);
  }

  /** No ledger row is counted by two settlements unless it was redated into another bucket. */
  lemma CountedOnceUnlessMoved(steps: seq<Step>, a: Bucket, b: Bucket, k: Key)
    requires a != b
    requires var w := Run(Init(), steps);
             a in w.settlements && b in w.settlements && k in w.settlements[a].counted && k in w.settlements[b].counted
    ensures k in Run(Init(), steps).moved
  {
    RunKeepsInv(Init(), steps);
    var w := Run(Init(), steps);
    assert CountedInPlace(w, a, k) && CountedInPlace(w, b, k);
  }

  /** A row that reaches a PAID day too late is in no settlement at all, unless it moves. */
  lemma LateRowIsLockedOut(steps: seq<Step>, b: Bucket, k: Key)
    requires var w := Run(Init(), steps);
             && IsPaid(w.settlements, b) && k in w.ledger && BucketOf(w.ledger[k]) == b
             && k !in w.settlements[b].counted && k !in w.moved
    ensures var w := Run(Init(), steps);
            forall a | a in w.settlements :: k !in w.settlements[a].counted
  {
    RunKeepsInv(Init(), steps);
    var w := Run(Init(), steps);
    assert forall a | a in w.settlements :: k in w.settlements[a].counted ==> CountedInPlace(w, a, k);
  }

  // ---------- rows stay put while payment days do ----------

  predicate SameDay(t: int, u: int) {
    DayOf(t) == DayOf(u)
  }

  /** The step leaves SUCCEEDED orders and refunds SUCCEEDED, and their payment days alone. */
  predicate KeepsDays(w: World, step: Step) {
    match step
    case ChangeOrder(id, o) =>
      OrderSucceeded(w.books, id) ==> SameDay(o.OccurredAt(), w.books.orders[id].OccurredAt())
    case ChangeRefund(id, r) =>
      RefundSucceeded(w.books, id) ==> r.succeeded && SameDay(r.OccurredAt(), w.books.refunds[id].OccurredAt())
    case _ => true
  }

  ghost predicate RunKeepsDays(w: World, steps: seq<Step>)
    decreases |steps|
  {
    steps == [] || (KeepsDays(w, steps[0]) && RunKeepsDays(Next(w, steps[0]), steps[1..]))
  }

  /** Every row is in the bucket its order or refund puts it in. */
  predicate InPlace(books: Books, k: Key, e: Entry) {
    match k
    case CaptureOf(id) => OrderSucceeded(books, id) && BucketOf(e) == BucketOf(CaptureEntry(books.orders[id]))
    case FeeOf(id) =>
      OrderSucceeded(books, id) && books.orders[id].fee > 0 && BucketOf(e) == BucketOf(FeeEntry(books.orders[id]))
    case RefundOf(id) => RefundSucceeded(books, id) && BucketOf(e) == BucketOf(RefundEntry(books.refunds[id]))
    case PayoutOf(_) => true
  }

  predicate AllInPlace(w: World) {
    forall k | k in w.ledger :: InPlace(w.books, k, w.ledger[k])
  }

  lemma NextKeepsPlaces(w: World, step: Step)
    requires PayoutsMatch(w) && AllInPlace(w) && w.moved == {} && KeepsDays(w, step)
    ensures AllInPlace(Next(w, step)) && Next(w, step).moved == {}
  {
    if Enabled(w, step) {
      var v := Next(w, step);
      forall k | k in w.ledger ensures k in v.ledger && BucketOf(v.ledger[k]) == BucketOf(w.ledger[k]) {
        assert InPlace(w.books, k, w.ledger[k]);
        assert k.PayoutOf? ==> IsPaid(w.settlements, k.bucket);
      }
      forall k | k in v.ledger ensures InPlace(v.books, k, v.ledger[k]) {
        if k in w.ledger {
          assert InPlace(w.books, k, w.ledger[k]);
        }
      }
    }
  }

  lemma {:induction false} StableRunMovesNothing(w: World, steps: seq<Step>)
    requires Inv(w) && AllInPlace(w) && w.moved == {} && RunKeepsDays(w, steps)
    ensures Run(w, steps).moved == {}
    decreases |steps|
  {
    if steps != [] {
      NextKeepsPlaces(w, steps[0]);
      RunKeepsInv(w, [steps[0]]);
      assert Run(w, [steps[0]]) == Run(Next(w, steps[0]), [steps[0]][1..]) == Next(w, steps[0]);
      StableRunMovesNothing(Next(w, steps[0]), steps[1..]);
    }
  }

  /** If no SUCCEEDED order or refund ever falls or changes its payment day, no ledger row is counted twice. */
  lemma StableRunCountsOnce(steps: seq<Step>, a: Bucket, b: Bucket)
    requires RunKeepsDays(Init(), steps) && a != b
    requires a in Run(Init(), steps).settlements && b in Run(Init(), steps).settlements
    ensures var w := Run(Init(), steps); w.settlements[a].counted !! w.settlements[b].counted
  {
    StableRunMovesNothing(Init(), steps);
    var w := Run(Init(), steps);
    forall k | k in w.settlements[a].counted ensures k !in w.settlements[b].counted {
      if k in w.settlements[b].counted {
        CountedOnceUnlessMoved(steps, a, b, k);
      }
    }
  }

  lemma {:induction false} RunAppend(w: World, xs: seq<Step>, ys: seq<Step>)
    ensures Run(w, xs + ys) == Run(Run(w, xs), ys)
    decreases |xs|
  {
    if xs == [] {
      assert xs + ys == ys;
    } else {
      assert (xs + ys)[1..] == xs[1..] + ys;
      RunAppend(Next(w, xs[0]), xs[1..], ys);
    }
  }

  /** A fee-free order is recorded, synced, settled on its own and paid out. */
  function PayCycle(id: OrderId, o: Order, keys: seq<Key>, now: int): seq<Step> {
    var b := BucketOf(CaptureEntry(o));
    [ChangeOrder(id, o), OrderSync(id), Settle(keys, b.day, 0), MarkPaid(b, now)]
  }

  lemma {:induction false} OnlyRowSettles(ledger: Ledger, keys: seq<Key>, id: OrderId, b: Bucket)
    requires Lists(keys, ledger) && CaptureOf(id) in ledger && ledger[CaptureOf(id)].kind.PaymentCapture?
    requires BucketOf(ledger[CaptureOf(id)]) == b
    requires forall k | k in ledger && k != CaptureOf(id) :: k.PayoutOf? && ledger[k].kind.SettlementPayout?
    ensures DayNet(Rows(ledger, keys), b.account, b.day) == ledger[CaptureOf(id)].amount
  {
    var f := At(ledger, InBucket(SettledAmount(), b));
    RowsMeasure(ledger, keys, InBucket(SettledAmount(), b));
    assert forall k | k in keys && f(k) != 0 :: k == CaptureOf(id);
    SumAlong(keys, [CaptureOf(id)], f, f, (k: Key) => k);
    assert SumBy([CaptureOf(id)], f) == f(CaptureOf(id)) + SumBy([CaptureOf(id)][1..], f);
  }

  /** The ledger holds the capture of this order and payouts, nothing else. */
  predicate OnlyOrder(w: World, id: OrderId) {
    forall k | k in w.ledger :: if k.PayoutOf? then w.ledger[k].kind.SettlementPayout? else k == CaptureOf(id)
  }

  lemma {:induction false} CyclePays(w: World, id: OrderId, o: Order, keys: seq<Key>, now: int)
    requires OrderMayBecome(w.books, id, o) && o.succeeded && o.fee == 0 && o.amount > 0
    requires OnlyOrder(w, id) && Lists(keys, w.ledger[CaptureOf(id) := CaptureEntry(o)])
    requires !IsPaid(w.settlements, BucketOf(CaptureEntry(o)))
    ensures var v := Run(w, PayCycle(id, o, keys, now));
            var b := BucketOf(CaptureEntry(o));
            && OnlyOrder(v, id) && v.books.orders == w.books.orders[id := o]
            && v.ledger == w.ledger[CaptureOf(id) := CaptureEntry(o)]
                                   [PayoutOf(b) := Entry(b.account, now, SettlementPayout, Debit, o.amount)]
            && IsPaid(v.settlements, b) && CaptureOf(id) in v.settlements[b].counted
            && v.settlements.Keys == w.settlements.Keys + {b}
            && (forall c | c in w.settlements && c != b :: v.settlements[c] == w.settlements[c])
  {
    var b := BucketOf(CaptureEntry(o));
    var steps := PayCycle(id, o, keys, now);
    var w2 := Next(Next(w, steps[0]), steps[1]);
    OrderIsCaptured(w, id, o);
    CaptureIsPaid(w2, keys, id, b, now);
    FourSteps(w, steps);
  }

  lemma {:induction false} CaptureIsPaid(w: World, keys: seq<Key>, id: OrderId, b: Bucket, now: int)
    requires OnlyOrder(w, id) && Lists(keys, w.ledger) && CaptureOf(id) in w.ledger
    requires w.ledger[CaptureOf(id)].kind.PaymentCapture? && BucketOf(w.ledger[CaptureOf(id)]) == b
    requires w.ledger[CaptureOf(id)].amount > 0 && !IsPaid(w.settlements, b)
    ensures var v := Next(Next(w, Settle(keys, b.day, 0)), MarkPaid(b, now));
            && OnlyOrder(v, id) && v.books == w.books
            && v.ledger == w.ledger[PayoutOf(b) := Entry(b.account, now, SettlementPayout, Debit, w.ledger[CaptureOf(id)].amount)]
            && IsPaid(v.settlements, b) && CaptureOf(id) in v.settlements[b].counted
            && v.settlements.Keys == w.settlements.Keys + {b}
            && (forall c | c in w.settlements && c != b :: v.settlements[c] == w.settlements[c])
  {
    OnlyRowSettles(w.ledger, keys, id, b);
    OnlyBucketSettles(w, keys, id, b);
    var settled := w.(settlements := SettleAll(w, keys, b.day, 0));
    assert Next(w, Settle(keys, b.day, 0)) == settled;
    MarkPays(settled, b, now);
  }

  lemma MarkPays(w: World, b: Bucket, now: int)
    requires b in w.settlements && !w.settlements[b].status.Paid? && w.settlements[b].net > 0
    ensures var v := Next(w, MarkPaid(b, now));
            && v.books == w.books
            && v.ledger == w.ledger[PayoutOf(b) := PayoutEntry(b, w.settlements[b], now)]
            && v.settlements == w.settlements[b := w.settlements[b].(status := Paid, paidAt := Some(now))]
  {
  }

  lemma {:induction false} OrderIsCaptured(w: World, id: OrderId, o: Order)
    requires OrderMayBecome(w.books, id, o) && o.succeeded && o.fee == 0
    requires OnlyOrder(w, id)
    ensures var v := Next(Next(w, ChangeOrder(id, o)), OrderSync(id));
            && OnlyOrder(v, id) && v.books.orders == w.books.orders[id := o]
            && v.ledger == w.ledger[CaptureOf(id) := CaptureEntry(o)] && v.settlements == w.settlements
  {
  }

  lemma {:induction false} OnlyBucketSettles(w: World, keys: seq<Key>, id: OrderId, b: Bucket)
    requires OnlyOrder(w, id) && Lists(keys, w.ledger) && CaptureOf(id) in w.ledger
    requires w.ledger[CaptureOf(id)].kind.PaymentCapture? && BucketOf(w.ledger[CaptureOf(id)]) == b
    requires !IsPaid(w.settlements, b)
    ensures var all := SettleAll(w, keys, b.day, 0);
            && all.Keys == w.settlements.Keys + {b} && CaptureOf(id) in all[b].counted
            && all[b].net == DayNet(Rows(w.ledger, keys), b.account, b.day) && !all[b].status.Paid?
            && (forall c | c in w.settlements && c != b :: all[c] == w.settlements[c])
  {
  }

  lemma FourSteps(w: World, steps: seq<Step>)
    requires |steps| == 4
    ensures Run(w, steps) == Next(Next(Next(Next(w, steps[0]), steps[1]), steps[2]), steps[3])
  {
    var w1 := Next(w, steps[0]);
    var w2 := Next(w1, steps[1]);
    var w3 := Next(w2, steps[2]);
    assert Run(w1, steps[1..]) == Run(w2, steps[1..][1..]);
    assert steps[1..][1..] == steps[2..];
    assert Run(w2, steps[2..]) == Run(w3, steps[2..][1..]);
    assert steps[2..][1..] == steps[3..];
    assert Run(w3, steps[3..]) == Run(Next(w3, steps[3]), steps[3..][1..]);
  }

  /**
   Redating is enough to be paid twice: a repeated success notification may bring a new payment time, and
   if that lies on another day the next sync settles and pays the same capture again.
   */
  lemma MovedCaptureIsPaidTwice(id: OrderId, o: Order, paidAt: int, now: int) returns (steps: seq<Step>)
    requires o.succeeded && o.fee == 0 && o.amount == o.net > 0
    requires DayOf(paidAt) != DayOf(o.OccurredAt())
    ensures var w := Run(Init(), steps);
            var a := BucketOf(CaptureEntry(o));
            var b := BucketOf(CaptureEntry(o.(paidAt := Some(paidAt))));
            && IsPaid(w.settlements, a) && IsPaid(w.settlements, b) && a != b
            && CaptureOf(id) in w.settlements[a].counted && CaptureOf(id) in w.settlements[b].counted
            && PayoutOf(a) in w.ledger && w.ledger[PayoutOf(a)].amount == o.amount
            && PayoutOf(b) in w.ledger && w.ledger[PayoutOf(b)].amount == o.amount
  {
    var a := BucketOf(CaptureEntry(o));
    var redated := o.(paidAt := Some(paidAt));
    var once := PayCycle(id, o, [CaptureOf(id)], now);
    var twice := PayCycle(id, redated, [CaptureOf(id), PayoutOf(a)], now);
    CyclePays(Init(), id, o, [CaptureOf(id)], now);
    var w := Run(Init(), once);
    CyclePays(w, id, redated, [CaptureOf(id), PayoutOf(a)], now);
    RunAppend(Init(), once, twice);
    steps := once + twice;
  }

  // ---------- when and how much ----------

  /** A day is synced from the day of its stored `eligibleAt` on: the hold is counted the same way by both. */
  lemma SyncedFromEligibleDay(
      ledger: Ledger, keys: seq<Key>, b: Bucket, hold: int, existing: Option<Settlement>, now: int)
    requires forall k | k in keys :: k in ledger
    ensures b.day <= DayOf(now) - hold <==> DayOf(Recomputed(ledger, keys, b, hold, existing).eligibleAt) <= DayOf(now)
  {
    DayContainsInstant(EndOf(b.day + hold), b.day + hold);
  }

  /** The stored figures add up to the stored net. */
  lemma FiguresAddUp(ledger: Ledger, keys: seq<Key>, b: Bucket, hold: int, existing: Option<Settlement>)
    requires forall k | k in keys :: k in ledger
    ensures var s := Recomputed(ledger, keys, b, hold, existing);
            s.net == s.gross - s.refund - s.fee + s.adjustment
  {
    var rows := Rows(ledger, keys);
    var gains, losses := Gains(b), Losses(b);
    SumSplit(rows, gains, InBucket(SettledAmount(), b), losses);
    SumSplit(rows, gains, InBucket(OfKind(PaymentCapture), b), InBucket(Adjusted(), b));
    SumSplit(rows, losses, InBucket(OfKind(RefundPaid), b), InBucket(OfKind(PaymentFee), b));
  }

  function Gains(b: Bucket): Entry -> int {
    (e: Entry) => if BucketOf(e) == b && (e.kind.PaymentCapture? || e.kind.Adjustment?) then Settled(e) else 0
  }

  function Losses(b: Bucket): Entry -> int {
    (e: Entry) => if BucketOf(e) == b && (e.kind.RefundPaid? || e.kind.PaymentFee?) then e.amount else 0
  }

  // ---------- money ----------

  /** The row of a refund that fell from SUCCEEDED and has not come back. */
  predicate IsFallen(w: World, k: Key) {
    k.RefundOf? && k.refund in w.fell && !RefundSucceeded(w.books, k.refund)
  }

  /**
   After any run, a backfill makes the ledger the view of the orders and refunds plus the rows of fallen refunds,
   which nothing removes; so it is exactly the view iff there is no such row.
   */
  lemma BackfillAfterAnyRun(steps: seq<Step>, after: Ledger)
    requires IsBackfill(Run(Init(), steps).books, Run(Init(), steps).ledger, after)
    ensures var w := Run(Init(), steps);
            forall k: Key | !k.PayoutOf? ::
              Lookup(after, k) == if IsFallen(w, k) then Lookup(w.ledger, k) else View(w.books, k)
    ensures var w := Run(Init(), steps);
            IsView(w.books, after) <==> forall k | k in w.ledger :: !IsFallen(w, k)
  {
    RunKeepsInv(Init(), steps);
    var w := Run(Init(), steps);
    BackfillIsViewIffNothingStale(w.books, w.ledger, after);
    forall k: Key | !k.PayoutOf?
      ensures Lookup(after, k) == if IsFallen(w, k) then Lookup(w.ledger, k) else View(w.books, k) {
      assert Lookup(after, k) == Backfilled(w.books, w.ledger, k);
      assert k in w.ledger && IsStale(w.books, k) ==> IsFallen(w, k);
    }
    assert forall k | k in w.ledger :: IsStale(w.books, k) <==> IsFallen(w, k);
  }

  /** Such a row is reachable for every refund: it succeeds, its row is written, and the catch marks it FAILED. */
  lemma FallenRefundKeepsItsRow(id: RefundId, r: Refund, after: Ledger)
    requires r.succeeded
    requires var w := Run(Init(), Fall(id, r)); IsBackfill(w.books, w.ledger, after)
    ensures var w := Run(Init(), Fall(id, r));
            && !RefundSucceeded(w.books, id) && IsFallen(w, RefundOf(id))
            && RefundOf(id) in after && after[RefundOf(id)] == RefundEntry(r) && !IsView(w.books, after)
  {
    var steps := Fall(id, r);
    var w1 := Next(Init(), steps[0]);
    var w2 := Next(w1, steps[1]);
    var w3 := Next(w2, steps[2]);
    assert w2.ledger == map[RefundOf(id) := RefundEntry(r)];
    assert steps[1..][1..] == [steps[2]] && [steps[2]][1..] == [];
    assert Run(w2, [steps[2]]) == Run(w3, []);
    assert Run(w1, steps[1..]) == Run(w2, steps[1..][1..]);
    assert Lookup(after, RefundOf(id)) == Backfilled(w3.books, w3.ledger, RefundOf(id));
    assert Lookup(after, RefundOf(id)) != View(w3.books, RefundOf(id));
  }

  function Fall(id: RefundId, r: Refund): seq<Step> {
    [ChangeRefund(id, r), RefundSync(id), ChangeRefund(id, r.(succeeded := false))]
  }

  /** In every reachable ledger the closing balance is the settlement nets less the payouts. */
  lemma ReachableReconciles(steps: seq<Step>, keys: seq<Key>, account: Account, first: int, day: int)
    requires Lists(keys, Run(Init(), steps).ledger)
    requires forall k | k in keys :: first <= DayOf(Run(Init(), steps).ledger[k].occurredAt)
    ensures var rows := Rows(Run(Init(), steps).ledger, keys);
            Balance(rows, account, day) ==
            NetsThrough(rows, account, first, day) - SumBy(rows, PaidOutThrough(account, day))
  {
    RunKeepsInv(Init(), steps);
    var ledger := Run(Init(), steps).ledger;
    var rows := Rows(ledger, keys);
    forall e | e in rows ensures WellSigned(e) && first <= DayOf(e.occurredAt) {
      var i :| 0 <= i < |rows| && rows[i] == e;
      assert keys[i] in keys && KindMatches(keys[i], ledger[keys[i]]);
    }
    Reconciliation(rows, account, first, day);
  }

  function PaidThrough(settlements: map<Bucket, Settlement>, account: Account, day: int): Bucket -> int {
    (b: Bucket) =>
      if IsPaid(settlements, b) && b.account == account && settlements[b].paidAt.Some?
         && DayOf(settlements[b].paidAt.value) <= day
      then settlements[b].net else 0
  }

  function NegPaid(settlements: map<Bucket, Settlement>, account: Account, day: int): Bucket -> int {
    (b: Bucket) => -PaidThrough(settlements, account, day)(b)
  }

  lemma {:induction false} PayoutIsDebited(w: World, b: Bucket, account: Account, day: int)
    requires PayoutsMatch(w)
    ensures At(w.ledger, SignedThrough(account, day))(PayoutOf(b)) == -PaidThrough(w.settlements, account, day)(b)
  {
  }

  lemma {:induction false} PayoutsArePaid(w: World, keys: seq<Key>, buckets: seq<Bucket>, account: Account, day: int)
    requires PayoutsMatch(w) && Lists(keys, w.ledger) && Lists(buckets, w.settlements)
    ensures SumBy(keys, Payouts(At(w.ledger, SignedThrough(account, day))))
         == -SumBy(buckets, PaidThrough(w.settlements, account, day))
  {
    var f := Payouts(At(w.ledger, SignedThrough(account, day)));
    var g := NegPaid(w.settlements, account, day);
    forall k | k in keys && f(k) != 0 ensures exists b :: b in buckets && PayoutOf(b) == k {
      assert k in w.ledger && IsPaid(w.settlements, k.bucket);
      assert k.bucket in buckets;
    }
    forall b | b in buckets ensures g(b) == if PayoutOf(b) in keys then f(PayoutOf(b)) else 0 {
      PayoutIsDebited(w, b, account, day);
    }
    SumAlong(keys, buckets, f, g, (b: Bucket) => PayoutOf(b));
    SumSplit(buckets, (b: Bucket) => 0, PaidThrough(w.settlements, account, day), g);
    SumZero(buckets, (b: Bucket) => 0);
  }

  /**
   After any run whose ledger has been backfilled, the closing balance of every account and day is the net of
   the SUCCEEDED orders, less the SUCCEEDED refunds, less the nets of the settlements paid out by that day.
   */
  lemma {:induction false} BalanceIsEarnedLessPaid(
      steps: seq<Step>, keys: seq<Key>, orders: seq<OrderId>, refunds: seq<RefundId>, buckets: seq<Bucket>,
      account: Account, day: int)
    requires IsView(Run(Init(), steps).books, Run(Init(), steps).ledger)
    requires Lists(keys, Run(Init(), steps).ledger) && Lists(buckets, Run(Init(), steps).settlements)
    requires Lists(orders, Run(Init(), steps).books.orders) && Lists(refunds, Run(Init(), steps).books.refunds)
    ensures var w := Run(Init(), steps);
            Balance(Rows(w.ledger, keys), account, day) ==
            SumBy(orders, NetThrough(w.books, account, day)) - SumBy(refunds, RefundedThrough(w.books, account, day))
            - SumBy(buckets, PaidThrough(w.settlements, account, day))
  {
    RunKeepsInv(Init(), steps);
    var w := Run(Init(), steps);
    BalanceIsNetLessRefunds(w.books, w.ledger, keys, orders, refunds, account, day);
    PayoutsArePaid(w, keys, buckets, account, day);
  }
}
