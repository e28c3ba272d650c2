/**
 Canonical request fingerprints (lib/idempotency/fingerprint.ts).

 Key comparison is a parameter: any strict total order on keys.  It stands for `localeCompare` followed
 by the property order that `Object.fromEntries` gives the sorted entries.
 */
module Fingerprint {
  import opened Options
  import opened Sorting
  import Idempotency

  datatype Json =
    | JNull
    | JBool(b: bool)
    | JNumber(literal: string)
    | JString(s: string)
    | JArray(items: seq<Json>)
    | JObject(members: seq<Member>)

  datatype Member = Member(key: string, value: Json)

  type KeyOrder = (string, string) -> bool

  ghost predicate IsStrictTotal(less: KeyOrder) {
    && (forall a :: !less(a, a))
    && (forall a, b, c :: less(a, b) && less(b, c) ==> less(a, c))
    && (forall a, b :: a != b ==> less(a, b) || less(b, a))
  }

  /** Member keys are distinct at every depth, as in any JavaScript object. */
  predicate WellFormed(j: Json) {
    match j
    case JArray(items) => forall i | 0 <= i < |items| :: WellFormed(items[i])
    case JObject(members) =>
      && DistinctKeys(members)
      && forall i | 0 <= i < |members| :: WellFormed(members[i].value)
    case _ => true
  }

  predicate DistinctKeys(members: seq<Member>) {
    forall i, k | 0 <= i < k < |members| :: members[i].key != members[k].key
  }

  // ---------- sortValue ----------

  function ByKey(less: KeyOrder): (Member, Member) -> bool {
    (a: Member, b: Member) => less(a.key, b.key)
  }

  function SortValue(j: Json, less: KeyOrder): Json {
    match j
    case JArray(items) => JArray(seq(|items|, i requires 0 <= i < |items| => SortValue(items[i], less)))
    case JObject(members) =>
      JObject(Sort(seq(|members|, i requires 0 <= i < |members| =>
                         Member(members[i].key, SortValue(members[i].value, less))), ByKey(less)))
    case _ => j
  }

  // ---------- equality up to member order ----------

  predicate Same(a: Json, b: Json) {
    match (a, b)
    case (JArray(xs), JArray(ys)) => |xs| == |ys| && forall i | 0 <= i < |xs| :: Same(xs[i], ys[i])
    case (JObject(ms), JObject(ns)) =>
      && |ms| == |ns|
      && forall i | 0 <= i < |ms| ::
           exists k | 0 <= k < |ns| :: ms[i].key == ns[k].key && Same(ms[i].value, ns[k].value)
    case _ => a == b
  }

  // ---------- sorting ----------

  function Mapped(members: seq<Member>, less: KeyOrder): (r: seq<Member>)
    ensures |r| == |members|
    ensures forall i | 0 <= i < |members| :: r[i] == Member(members[i].key, SortValue(members[i].value, less))
  {
    seq(|members|, i requires 0 <= i < |members| => Member(members[i].key, SortValue(members[i].value, less)))
  }

  lemma KeysAreComparable(members: seq<Member>, less: KeyOrder)
    requires IsStrictTotal(less) && DistinctKeys(members)
    ensures IsStrict(ByKey(less)) && Comparable(members, ByKey(less))
  {
    var order := ByKey(less);
    assert forall a: Member, b: Member :: order(a, b) == less(a.key, b.key);
    forall a: Member, b: Member, c: Member | order(a, b) && order(b, c) ensures order(a, c) {
      assert less(a.key, b.key) && less(b.key, c.key);
    }
  }

  /** The sorted members of an object, as a set, are its members with canonical values. */
  lemma SortedMembers(members: seq<Member>, less: KeyOrder)
    requires IsStrictTotal(less) && DistinctKeys(members)
    ensures var j := SortValue(JObject(members), less);
            && j == JObject(Sort(Mapped(members, less), ByKey(less)))
            && Increasing(j.members, ByKey(less)) && |j.members| == |members|
            && forall x :: x in j.members <==> x in Mapped(members, less)
  {
    KeysAreComparable(Mapped(members, less), less);
    SortSorts(Mapped(members, less), ByKey(less));
    SameElements(Sort(Mapped(members, less), ByKey(less)), Mapped(members, less));
    assert Mapped(members, less) == seq(|members|, i requires 0 <= i < |members| =>
                         Member(members[i].key, SortValue(members[i].value, less)));
  }

  // ---------- the theorem ----------

  lemma {:induction false} EqualSortsAreSame(a: Json, b: Json, less: KeyOrder)
    requires IsStrictTotal(less) && WellFormed(a) && WellFormed(b)
    requires SortValue(a, less) == SortValue(b, less)
    ensures Same(a, b)
    decreases a
  {
    match (a, b) {
      case (JArray(xs), JArray(ys)) =>
        assert |SortValue(a, less).items| == |xs| && |SortValue(b, less).items| == |ys|;
        forall i | 0 <= i < |xs| ensures Same(xs[i], ys[i]) {
          assert SortValue(a, less).items[i] == SortValue(b, less).items[i];
          EqualSortsAreSame(xs[i], ys[i], less);
        }
      case (JObject(ms), JObject(ns)) =>
        SortedMembers(ms, less);
        SortedMembers(ns, less);
        forall i | 0 <= i < |ms|
          ensures exists k | 0 <= k < |ns| :: ms[i].key == ns[k].key && Same(ms[i].value, ns[k].value)
        {
          assert Mapped(ms, less)[i] in Mapped(ns, less);
          var k :| 0 <= k < |ns| && Mapped(ns, less)[k] == Mapped(ms, less)[i];
          EqualSortsAreSame(ms[i].value, ns[k].value, less);
        }
      case _ =>
    }
  }

  lemma {:induction false} SameSortsEqual(a: Json, b: Json, less: KeyOrder)
    requires IsStrictTotal(less) && WellFormed(a) && WellFormed(b) && Same(a, b)
    ensures SortValue(a, less) == SortValue(b, less)
    decreases a
  {
    match (a, b) {
      case (JArray(xs), JArray(ys)) =>
        forall i | 0 <= i < |xs| ensures SortValue(xs[i], less) == SortValue(ys[i], less) {
          SameSortsEqual(xs[i], ys[i], less);
        }
        assert SortValue(a, less).items == SortValue(b, less).items;
      case (JObject(ms), JObject(ns)) =>
        SortedMembers(ms, less);
        SortedMembers(ns, less);
        var xs, ys := Mapped(ms, less), Mapped(ns, less);
        forall i | 0 <= i < |xs| ensures xs[i] in ys {
          var k :| 0 <= k < |ns| && ms[i].key == ns[k].key && Same(ms[i].value, ns[k].value);
          SameSortsEqual(ms[i].value, ns[k].value, less);
          assert ys[k] == xs[i];
        }
        SubsetOfSameSize(xs, ys);
        KeysAreComparable(xs, less);
        IncreasingIsUnique(SortValue(a, less).members, SortValue(b, less).members, ByKey(less));
      case _ =>
    }
  }

  /** Distinct elements, all of them in a list of the same length, are all of that list's. */
  lemma {:induction false} SubsetOfSameSize(xs: seq<Member>, ys: seq<Member>)
    requires DistinctKeys(xs) && |xs| == |ys| && forall i | 0 <= i < |xs| :: xs[i] in ys
    ensures forall x :: x in xs <==> x in ys
    decreases |xs|
  {
    if xs != [] {
      var x, rest := xs[0], xs[1..];
      var k :| 0 <= k < |ys| && ys[k] == x;
      var others := ys[..k] + ys[k + 1..];
      assert forall y :: y in ys <==> y == x || y in others;
      forall i | 0 <= i < |rest| ensures rest[i] in others {
        assert rest[i] == xs[i + 1] && rest[i] in ys;
      }
      SubsetOfSameSize(rest, others);
    }
  }

  /** Two request trees have the same canonical form iff they are equal up to member order at every depth. */
  lemma CanonicalIffSame(a: Json, b: Json, less: KeyOrder)
    requires IsStrictTotal(less) && WellFormed(a) && WellFormed(b)
    ensures SortValue(a, less) == SortValue(b, less) <==> Same(a, b)
  {
    if SortValue(a, less) == SortValue(b, less) {
      EqualSortsAreSame(a, b, less);
    }
    if Same(a, b) {
      SameSortsEqual(a, b, less);
    }
  }

  /** Canonicalising twice changes nothing. */
  lemma {:induction false} SortValueIsIdempotent(j: Json, less: KeyOrder)
    requires IsStrictTotal(less) && WellFormed(j)
    ensures SortValue(SortValue(j, less), less) == SortValue(j, less)
    decreases j
  {
    match j {
      case JArray(items) =>
        var sorted := SortValue(j, less).items;
        forall i | 0 <= i < |items| ensures SortValue(sorted[i], less) == sorted[i] {
          SortValueIsIdempotent(items[i], less);
        }
        assert SortValue(JArray(sorted), less).items == sorted;
      case JObject(members) =>
        SortedMembers(members, less);
        var sorted := SortValue(j, less).members;
        forall i | 0 <= i < |sorted| ensures Mapped(sorted, less)[i] == sorted[i] {
          assert sorted[i] in Mapped(members, less);
          var k :| 0 <= k < |members| && Mapped(members, less)[k] == sorted[i];
          SortValueIsIdempotent(members[k].value, less);
        }
        assert Mapped(sorted, less) == sorted;
        IncreasingKeysAreDistinct(sorted, less);
        SortedMembers(sorted, less);
        KeysAreComparable(sorted, less);
        IncreasingIsUnique(SortValue(JObject(sorted), less).members, sorted, ByKey(less));
      case _ =>
    }
  }

  lemma IncreasingKeysAreDistinct(members: seq<Member>, less: KeyOrder)
    requires IsStrictTotal(less) && Increasing(members, ByKey(less))
    ensures DistinctKeys(members)
  {
  }

  // ---------- requests ----------

  ghost predicate CollisionFree(digest: Json -> string) {
    forall x, y :: digest(x) == digest(y) ==> x == y
  }

  function RequestHash(request: Json, less: KeyOrder, digest: Json -> string): string {
    digest(SortValue(request, less))
  }

  /**
   A request sent under a used key conflicts exactly when it differs from the first one by more than
   member order; otherwise a finished command is replayed to it.  `digest` is the hash of the printed tree.
   */
  lemma ConflictIffDifferent(
      w: Idempotency.World, id: nat, first: Json, second: Json, now: int, passes: nat,
      less: KeyOrder, digest: Json -> string, leaseMs: nat)
    requires IsStrictTotal(less) && CollisionFree(digest) && WellFormed(first) && WellFormed(second)
    requires w.record.Some? && w.record.value.Final() && w.record.value.hash == RequestHash(first, less, digest)
    ensures var b := Idempotency.Begin(RequestHash(second, less, digest), now, Idempotency.Saw(w.record), passes);
            Idempotency.ActOn(w, id, b, leaseMs).results[id] ==
            if Same(first, second) then Idempotency.ReplayOf(w.record.value) else Idempotency.Conflict
  {
    CanonicalIffSame(first, second, less);
  }
}
