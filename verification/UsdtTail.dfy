/**
 The tail that makes USDT amounts unique (lib/rates/usdt-quote.ts).  All amounts are in units of 10^-4 USDT;
 slots are probed cyclically from a hash of the order id.
 */
module UsdtTail {
  import opened Options
  import opened Sets

  const TWO_TO_THE_32 := 0x1_0000_0000

  // ---------- the hash ----------

  /** Horner's rule modulo 2^32, as `(hash * 31 + code) >>> 0` computes it. */
  function Hash(s: string): (h: int)
    ensures 0 <= h < TWO_TO_THE_32
  {
    if s == "" then 0
    else (Hash(s[..|s| - 1]) * 31 + s[|s| - 1] as int) % TWO_TO_THE_32
  }

  /** The same polynomial without truncation. */
  function Polynomial(s: string): nat {
    if s == "" then 0 else Polynomial(s[..|s| - 1]) * 31 + s[|s| - 1] as int
  }

  lemma TruncationCommutes(x: int, c: int)
    ensures (x % TWO_TO_THE_32 * 31 + c) % TWO_TO_THE_32 == (x * 31 + c) % TWO_TO_THE_32
  {
  }

  /** Truncating at every step is truncating once at the end. */
  lemma {:induction false} HashIsPolynomial(s: string)
    ensures Hash(s) == Polynomial(s) % 4_294_967_296
  {
    if s != "" {
      HashIsPolynomial(s[..|s| - 1]);
      TruncationCommutes(Polynomial(s[..|s| - 1]), s[|s| - 1] as int);
    }
  }

  method HashString(value: string) returns (hash: int)
    ensures hash == Hash(value)
  {
    hash := 0;
    for index := 0 to |value|
      invariant hash == Hash(value[..index])
    {
      assert value[..index + 1][..index] == value[..index];
      hash := (hash * 31 + value[index] as int) % TWO_TO_THE_32;
    }
    assert value[..|value|] == value;
  }

  // ---------- the tail range ----------

  function Min(x: int, y: int): int {
    if x <= y then x else y
  }

  function Max(x: int, y: int): int {
    if x <= y then y else x
  }

  /** The configuration: step and absolute maximum in units, relative maximum in basis points. */
  datatype TailConfig = TailConfig(step: nat, absolute: nat, bps: nat) {
    function Relative(base: nat): nat {
      base * bps / 10_000
    }

    function Effective(base: nat): nat {
      Max(0, Min(absolute, Max(step, Relative(base))))
    }

    function MaxSlot(base: nat): nat
      requires step > 0
    {
      Effective(base) / step
    }
  }

  lemma QuotientTimesDivisor(x: nat, d: nat)
    requires d > 0
    ensures x / d * d <= x
  {
    assert x == x / d * d + x % d;
  }

  /** No tail exceeds the absolute limit, nor the larger of one step and the relative limit. */
  lemma TailStaysInRange(c: TailConfig, base: nat, slot: nat)
    requires c.step > 0 && slot <= c.MaxSlot(base)
    ensures slot * c.step <= c.absolute && slot * c.step <= Max(c.step, c.Relative(base))
    ensures slot * c.step > c.step ==> 10_000 * (slot * c.step) <= base * c.bps
  {
    QuotientTimesDivisor(base * c.bps, 10_000);
    var relative := c.Relative(base);
    var effective := Max(0, Min(c.absolute, Max(c.step, relative)));
    QuotientTimesDivisor(effective, c.step);
    Monotone(slot, effective / c.step, c.step);
  }

  lemma QuotientIsLargest(x: nat, d: nat)
    requires d > 0
    ensures x < (x / d + 1) * d
  {
    assert x == x / d * d + x % d;
    assert (x / d + 1) * d == x / d * d + d;
  }

  /** And the range is used up: one tail more would exceed one of the limits. */
  lemma TailRangeIsUsedUp(c: TailConfig, base: nat)
    requires c.step > 0
    ensures var next := (c.MaxSlot(base) + 1) * c.step;
            next > c.absolute || (next > c.step && 10_000 * next > base * c.bps)
  {
    var next := (c.MaxSlot(base) + 1) * c.step;
    QuotientIsLargest(c.Effective(base), c.step);
    QuotientIsLargest(base * c.bps, 10_000);
  }

  lemma Monotone(x: int, y: int, z: nat)
    ensures x <= y ==> x * z <= y * z
  {
  }

  /** There is a single slot, the bare amount, exactly when one step is already over the absolute limit. */
  lemma SingleSlotIffStepTooLarge(c: TailConfig, base: nat)
    requires c.step > 0
    ensures c.MaxSlot(base) == 0 <==> c.absolute < c.step
  {
  }

  // ---------- the probe ----------

  function SlotAt(start: nat, offset: nat, slots: nat): nat
    requires slots > 0
  {
    (start + offset) % slots
  }

  /** The offset at which a slot comes up. */
  function OffsetOf(start: nat, slot: nat, slots: nat): nat
    requires start < slots && slot < slots
  {
    if slot >= start then slot - start else slot + slots - start
  }

  /** From any start, each slot comes up at exactly one offset below the number of slots. */
  lemma ProbeVisitsEachSlotOnce(start: nat, slots: nat, offset: nat, slot: nat)
    requires start < slots && offset < slots && slot < slots
    ensures OffsetOf(start, slot, slots) < slots
    ensures SlotAt(start, offset, slots) == slot <==> offset == OffsetOf(start, slot, slots)
  {
    if start + offset < slots {
      SmallMod(start + offset, slots);
    } else {
      WrapOnce(start + offset - slots, slots);
    }
  }

  lemma SmallMod(x: nat, slots: nat)
    requires x < slots
    ensures x % slots == x
  {
  }

  lemma WrapOnce(x: nat, slots: nat)
    requires x < slots
    ensures (slots + x) % slots == x
  {
  }

  datatype Tail = Tail(slot: nat, payable: nat, offset: nat, limit: nat)

  function PayableOf(c: TailConfig, base: nat, slot: nat): nat {
    base + slot * c.step
  }

  /** Every amount the order could be given is taken. */
  predicate Full(c: TailConfig, base: nat, occupied: set<int>)
    requires c.step > 0
  {
    forall slot: nat :: slot <= c.MaxSlot(base) ==> PayableOf(c, base, slot) in occupied
  }

  /** The slot the probe tries at an offset, for an order id. */
  function Probed(c: TailConfig, base: nat, orderId: string, offset: nat): nat
    requires c.step > 0
  {
    SlotAt(Hash(orderId) % (c.MaxSlot(base) + 1), offset, c.MaxSlot(base) + 1)
  }

  /** The first slot tried is the order id's polynomial, truncated to 32 bits and then to the number of slots. */
  lemma ProbeStartsAtHash(c: TailConfig, base: nat, orderId: string)
    requires c.step > 0
    ensures Probed(c, base, orderId, 0) == Polynomial(orderId) % 4_294_967_296 % (c.MaxSlot(base) + 1)
  {
    HashIsPolynomial(orderId);
    SmallMod(Hash(orderId) % (c.MaxSlot(base) + 1), c.MaxSlot(base) + 1);
  }

  /** allocateUsdtTailAmount; None is the thrown error.  The configured step is at least one unit. */
  method AllocateUsdtTailAmount(orderId: string, base: nat, c: TailConfig, occupied: set<int>) returns (r: Option<Tail>)
    requires c.step > 0
    ensures r.None? <==> Full(c, base, occupied)
    ensures r.Some? ==> r.value.payable == base + r.value.offset && r.value.payable !in occupied
    ensures r.Some? ==> r.value.offset == r.value.slot * c.step <= r.value.limit <= c.absolute
    ensures r.Some? ==> r.value.limit == c.MaxSlot(base) * c.step
    ensures r.Some? ==> exists k: nat ::
              && k <= c.MaxSlot(base) && r.value.slot == Probed(c, base, orderId, k)
              && forall j: nat | j < k :: PayableOf(c, base, Probed(c, base, orderId, j)) in occupied
  {
    var maxSlot := c.MaxSlot(base);
    var hash := HashString(orderId);
    var start := hash % (maxSlot + 1);
    for offset := 0 to maxSlot + 1
      invariant forall j: nat | j < offset :: PayableOf(c, base, Probed(c, base, orderId, j)) in occupied
    {
      var slot := (start + offset) % (maxSlot + 1);
      var tailOffset := slot * c.step;
      assert slot == Probed(c, base, orderId, offset) <= maxSlot;
      assert base + tailOffset == PayableOf(c, base, slot);
      if base + tailOffset in occupied {
        continue;
      }
      TailStaysInRange(c, base, slot);
      TailStaysInRange(c, base, maxSlot);
      Monotone(slot, maxSlot, c.step);
      return Some(Tail(slot, base + tailOffset, tailOffset, maxSlot * c.step));
    }
    AllProbedIsFull(c, base, orderId, occupied);
    return None;
  }

  lemma AllProbedIsFull(c: TailConfig, base: nat, orderId: string, occupied: set<int>)
    requires c.step > 0
    requires forall j: nat | j < c.MaxSlot(base) + 1 :: PayableOf(c, base, Probed(c, base, orderId, j)) in occupied
    ensures Full(c, base, occupied)
  {
    var slots := c.MaxSlot(base) + 1;
    var start := Hash(orderId) % slots;
    forall slot: nat | slot <= c.MaxSlot(base) ensures PayableOf(c, base, slot) in occupied {
      var k := OffsetOf(start, slot, slots);
      ProbeVisitsEachSlotOnce(start, slots, k, slot);
      assert Probed(c, base, orderId, k) == slot;
    }
  }

  // ---------- capacity ----------

  /** The amounts of the first n slots. */
  function Amounts(c: TailConfig, base: nat, n: nat): set<int> {
    if n == 0 then {} else Amounts(c, base, n - 1) + {PayableOf(c, base, n - 1)}
  }

  lemma {:induction false} AmountsAreDistinct(c: TailConfig, base: nat, n: nat)
    requires c.step > 0
    ensures |Amounts(c, base, n)| == n
    ensures forall x | x in Amounts(c, base, n) :: x < base + n * c.step
  {
    if n > 0 {
      AmountsAreDistinct(c, base, n - 1);
      assert PayableOf(c, base, n - 1) == base + (n - 1) * c.step;
      assert n * c.step == (n - 1) * c.step + c.step;
    }
  }

  lemma {:induction false} AmountsHold(c: TailConfig, base: nat, n: nat, slot: nat)
    requires slot < n
    ensures PayableOf(c, base, slot) in Amounts(c, base, n)
  {
    if slot < n - 1 {
      AmountsHold(c, base, n - 1, slot);
    }
  }

  lemma {:induction false} AmountsAreSlots(c: TailConfig, base: nat, n: nat, x: int)
    requires x in Amounts(c, base, n)
    ensures exists slot: nat :: slot < n && PayableOf(c, base, slot) == x
  {
    if x != PayableOf(c, base, n - 1) {
      AmountsAreSlots(c, base, n - 1, x);
    }
  }

  /** Allocation fails exactly when the open orders hold as many of the possible amounts as there are slots. */
  lemma FullIffCapacityReached(c: TailConfig, base: nat, occupied: set<int>)
    requires c.step > 0
    ensures Full(c, base, occupied) <==> |occupied * Amounts(c, base, c.MaxSlot(base) + 1)| == c.MaxSlot(base) + 1
  {
    var slots := c.MaxSlot(base) + 1;
    var all := Amounts(c, base, slots);
    AmountsAreDistinct(c, base, slots);
    if Full(c, base, occupied) {
      forall x | x in all ensures x in occupied {
        AmountsAreSlots(c, base, slots, x);
      }
      assert occupied * all == all;
    }
    if |occupied * all| == slots {
      SubsetSize(occupied * all, all);
      forall slot: nat | slot <= c.MaxSlot(base) ensures PayableOf(c, base, slot) in occupied {
        AmountsHold(c, base, slots, slot);
      }
    }
  }

  /** Fewer open orders than slots always leave a free amount. */
  lemma FewerOrdersThanSlots(c: TailConfig, base: nat, occupied: set<int>)
    requires c.step > 0 && |occupied| <= c.MaxSlot(base)
    ensures !Full(c, base, occupied)
  {
    FullIffCapacityReached(c, base, occupied);
    SubsetSize(occupied * Amounts(c, base, c.MaxSlot(base) + 1), occupied);
  }
}
