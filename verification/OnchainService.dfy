/** The on-chain worker as written: upserts, candidate lookup and the rematch loop (lib/onchain/service.ts). */
module OnchainServices {
  import opened Options
  import opened PaymentStatuses
  import opened OnchainDeposits

  type Reading = (DepositId, Deposit)

  // ---------- what a rematch does ----------

  /** Paying and marking in one go. */
  ghost function MatchOne(c: Chain, reading: Reading): Chain {
    var outcome := Outcome(c.orders, reading.0, reading.1);
    if outcome.Matched?
    then Next(Next(c, Pay(reading.0, reading.1)), Mark(reading.0, outcome.id))
    else c
  }

  /** The loop of rematchConfirmedDeposits: the first refused write ends it. */
  ghost function MatchEach(c: Chain, readings: seq<Reading>): Chain
    decreases |readings|
  {
    if readings == [] || Outcome(c.orders, readings[0].0, readings[0].1).Threw? then c
    else MatchEach(MatchOne(c, readings[0]), readings[1..])
  }

  /** How each of the matches ends, up to the first refused write. */
  ghost function OutcomesOf(c: Chain, readings: seq<Reading>): seq<MatchOutcome>
    decreases |readings|
  {
    if readings == [] then []
    else
      var outcome := Outcome(c.orders, readings[0].0, readings[0].1);
      if outcome.Threw? then [outcome] else [outcome] + OutcomesOf(MatchOne(c, readings[0]), readings[1..])
  }

  /** The matches that end in a certain way. */
  function Where(outcomes: seq<MatchOutcome>, ends: MatchOutcome -> bool): set<nat> {
    set i: nat | i < |outcomes| && ends(outcomes[i])
  }

  lemma WherePush(outcomes: seq<MatchOutcome>, o: MatchOutcome, ends: MatchOutcome -> bool)
    ensures |Where(outcomes + [o], ends)| == |Where(outcomes, ends)| + if ends(o) then 1 else 0
  {
    var before := Where(outcomes, ends);
    assert Where(outcomes + [o], ends) == if ends(o) then before + {|outcomes|} else before;
  }

  /** What the counters come to over a list of outcomes. */
  function RematchOf(outcomes: seq<MatchOutcome>): Rematch {
    if outcomes == [] then Rematch(0, 0, 0, 0)
    else RematchOf(outcomes[..|outcomes| - 1]).Bump(outcomes[|outcomes| - 1])
  }

  lemma RematchPush(outcomes: seq<MatchOutcome>, o: MatchOutcome)
    ensures RematchOf(outcomes + [o]) == RematchOf(outcomes).Bump(o)
  {
    assert (outcomes + [o])[..|outcomes|] == outcomes;
  }

  /** Each counter is the number of the matches that ended its way. */
  lemma {:induction false} RematchCounts(outcomes: seq<MatchOutcome>)
    requires forall o | o in outcomes :: !o.Threw?
    ensures var n := RematchOf(outcomes);
            && n.checked == |outcomes|
            && n.matched == |Where(outcomes, (o: MatchOutcome) => o.Matched?)|
            && n.ambiguous == |Where(outcomes, (o: MatchOutcome) => o.Ambiguous?)|
            && n.pending == |Where(outcomes, (o: MatchOutcome) => o.Skipped? || o.NotFound?)|
    decreases |outcomes|
  {
    if outcomes != [] {
      var front, o := outcomes[..|outcomes| - 1], outcomes[|outcomes| - 1];
      assert outcomes == front + [o];
      RematchCounts(front);
      RematchPush(front, o);
      WherePush(front, o, (o: MatchOutcome) => o.Matched?);
      WherePush(front, o, (o: MatchOutcome) => o.Ambiguous?);
      WherePush(front, o, (o: MatchOutcome) => o.Skipped? || o.NotFound?);
    }
  }

  /** The counters of the loop, or None if it ends in a refused write. */
  ghost function TallyEach(c: Chain, readings: seq<Reading>, n: Rematch): Option<Rematch>
    decreases |readings|
  {
    if readings == [] then Some(n)
    else
      var outcome := Outcome(c.orders, readings[0].0, readings[0].1);
      if outcome.Threw? then None else TallyEach(MatchOne(c, readings[0]), readings[1..], n.Bump(outcome))
  }

  lemma {:induction false} TallyIsOfOutcomes(c: Chain, readings: seq<Reading>, done: seq<MatchOutcome>)
    requires forall o | o in done :: !o.Threw?
    ensures Reports(TallyEach(c, readings, RematchOf(done)), done + OutcomesOf(c, readings))
    ensures var counts := TallyEach(c, readings, RematchOf(done));
            counts.Some? ==> counts.value.checked == RematchOf(done).checked + |readings|
    decreases |readings|
  {
    if readings == [] {
      assert done + [] == done;
    } else {
      var outcome := Outcome(c.orders, readings[0].0, readings[0].1);
      var rest := OutcomesOf(MatchOne(c, readings[0]), readings[1..]);
      if outcome.Threw? {
        assert (done + [outcome])[|done|] == outcome;
      } else {
        RematchPush(done, outcome);
        TallyIsOfOutcomes(MatchOne(c, readings[0]), readings[1..], done + [outcome]);
        assert done + [outcome] + rest == done + ([outcome] + rest);
      }
    }
  }

  lemma TwoSteps(c: Chain, a: Step, b: Step)
    ensures Run(c, [a, b]) == Next(Next(c, a), b)
  {
    assert [a, b][1..] == [b];
    assert Run(Next(c, a), [b]) == Run(Next(Next(c, a), b), [b][1..]);
  }

  /** Whatever a rematch does is a run of the transition system, so everything proved of runs holds of it. */
  lemma {:induction false} RematchIsARun(c: Chain, readings: seq<Reading>) returns (steps: seq<Step>)
    ensures MatchEach(c, readings) == Run(c, steps)
    decreases |readings|
  {
    if readings == [] || Outcome(c.orders, readings[0].0, readings[0].1).Threw? {
      steps := [];
    } else {
      var rest := RematchIsARun(MatchOne(c, readings[0]), readings[1..]);
      var outcome := Outcome(c.orders, readings[0].0, readings[0].1);
      if outcome.Matched? {
        var both := [Pay(readings[0].0, readings[0].1), Mark(readings[0].0, outcome.id)];
        TwoSteps(c, both[0], both[1]);
        RunAppend(c, both, rest);
        steps := both + rest;
      } else {
        steps := rest;
      }
    }
  }

  /**
   A second transfer of an already used transaction blocks the rematch: whatever was observed after it is
   not matched, run after run.
   */
  lemma RematchIsBlocked(
      clock: int, steps: seq<Step>, paid: OrderId, d: DepositId, second: Reading, later: seq<Reading>, id: OrderId)
    requires var orders := Run(Init(clock), steps).orders;
             paid in orders && d in orders[paid].creditedBy && Candidates(orders, second.0.chain, second.1) == {id}
    requires second.0.txHash == d.txHash && second.1.account.Some? && second.1.order.None?
    ensures MatchEach(Run(Init(clock), steps), [second] + later) == Run(Init(clock), steps)
  {
    SecondTransferAlwaysThrows(clock, steps, paid, d, second.0, second.1, id);
  }

  datatype Rematch = Rematch(checked: nat, matched: nat, ambiguous: nat, pending: nat) {
    function Bump(o: MatchOutcome): Rematch {
      match o
      case Matched(_) => this.(checked := checked + 1, matched := matched + 1)
      case Ambiguous => this.(checked := checked + 1, ambiguous := ambiguous + 1)
      case _ => this.(checked := checked + 1, pending := pending + 1)
    }
  }

  /** Without a refused write the counters are those of the outcomes; with one there are none. */
  predicate Reports(counts: Option<Rematch>, outcomes: seq<MatchOutcome>) {
    && (counts.None? <==> exists o | o in outcomes :: o.Threw?)
    && (counts.Some? ==> counts.value == RematchOf(outcomes))
  }

  class OnchainService {
    var clock: int
    var orders: map<OrderId, UsdtOrder>
    var deposits: map<DepositId, Deposit>
    ghost var seen: set<Reading>

    constructor (clock: int)
      ensures Valid() && State() == Init(clock)
    {
      this.clock, orders, deposits, seen := clock, map[], map[], {};
    }

    ghost function State(): Chain
      reads this
    {
      Chain(clock, orders, deposits, seen)
    }

    ghost predicate Valid()
      reads this
    {
      Inv(State())
    }

    /** A rescan refreshes the deposit but never its match. */
    method UpsertDeposit(d: DepositId, account: string, units: int, observedAt: int) returns (row: Deposit)
      requires Valid()
      modifies this`deposits, this`seen
      ensures Valid() && d in deposits && row == deposits[d]
      ensures State() == Next(Next(old(State()), Upsert(d, account, units, observedAt)), Read(d))
      ensures d in old(deposits) ==> row.order == old(deposits)[d].order
    {
      NextKeepsInv(State(), Upsert(d, account, units, observedAt));
      NextKeepsInv(Next(State(), Upsert(d, account, units, observedAt)), Read(d));
      var existing := if d in deposits then deposits[d].order else None;
      row := Deposit(Some(account), units, observedAt, existing);
      deposits := deposits[d := row];
      seen := seen + {(d, row)};
    }

    /** The candidate query with `take: 2`. */
    method FindCandidates(chain: string, read: Deposit) returns (found: seq<OrderId>)
      ensures |found| <= 2 && forall id | id in found :: id in Candidates(orders, chain, read)
      ensures |found| == 2 ==> found[0] != found[1]
      ensures |found| < 2 ==> forall id | id in Candidates(orders, chain, read) :: id in found
    {
      found := [];
      var rest := orders.Keys;
      while rest != {} && |found| < 2
        invariant rest <= orders.Keys && |found| <= 2
        invariant forall id | id in found :: id in Candidates(orders, chain, read) && id !in rest
        invariant |found| == 2 ==> found[0] != found[1]
        invariant forall id | id in Candidates(orders, chain, read) :: id in found || id in rest || |found| == 2
        decreases |rest|
      {
        var id :| id in rest;
        rest := rest - {id};
        if Eligible(orders[id], chain, read) {
          found := found + [id];
        }
      }
    }

    /** The guards of matchDepositToOrder, up to its two writes. */
    method Decide(d: DepositId, read: Deposit) returns (outcome: MatchOutcome)
      ensures outcome == Outcome(orders, d, read)
    {
      if read.account.None? || read.order.Some? {
        return Skipped;
      }
      var candidates := FindCandidates(d.chain, read);
      TakeTwo(Candidates(orders, d.chain, read), candidates);
      if |candidates| != 1 {
        return if |candidates| == 0 then NotFound else Ambiguous;
      }
      outcome := if TxTaken(orders, candidates[0], d.txHash) then Threw else Matched(candidates[0]);
    }

    method MatchDepositToOrder(d: DepositId, read: Deposit) returns (outcome: MatchOutcome)
      requires Valid() && (d, read) in seen && d in deposits
      modifies this`orders, this`deposits
      ensures Valid() && outcome == Outcome(old(orders), d, read)
      ensures State() == MatchOne(old(State()), (d, read))
      ensures deposits.Keys == old(deposits).Keys
    {
      MatchOneKeepsInv(State(), (d, read));
      outcome := Decide(d, read);
      if outcome.Matched? {
        OutcomeIsEligible(orders, d, read);
        MatchOneWrites(State(), d, read);
        orders := orders[outcome.id := Credit(orders[outcome.id], d, clock)];
        deposits := deposits[d := deposits[d].(order := Some(outcome.id))];
      }
    }

    /** None when a match threw; the deposits after it are then left alone. */
    method RematchConfirmedDeposits() returns (counts: Option<Rematch>, ghost readings: seq<Reading>)
      requires Valid()
      modifies this`orders, this`deposits, this`seen
      ensures Valid()
      ensures forall r :: r in readings <==> r.0 in old(deposits) && r.1 == old(deposits)[r.0] && r.1.order.None?
      ensures forall i, j | 0 <= i < j < |readings| :: readings[i].0 != readings[j].0
      ensures State() == MatchEach(old(State()).(seen := old(seen) + Elements(readings)), readings)
      ensures Reports(counts, OutcomesOf(old(State()).(seen := old(seen) + Elements(readings)), readings))
      ensures counts.Some? ==> counts.value.checked == |readings|
    {
      var list := ReadUnmatched();
      readings := list;
      seen := seen + Elements(list);
      SeeingKeepsInv(old(State()), Elements(list));
      TallyIsOfOutcomes(State(), list, []);
      assert [] + OutcomesOf(State(), list) == OutcomesOf(State(), list);
      counts := MatchList(list);
    }

    /** The loop of rematchConfirmedDeposits. */
    method MatchList(list: seq<Reading>) returns (counts: Option<Rematch>)
      requires Valid() && forall r | r in list :: r in seen && r.0 in deposits
      modifies this`orders, this`deposits
      ensures Valid() && State() == MatchEach(old(State()), list)
      ensures counts == TallyEach(old(State()), list, Rematch(0, 0, 0, 0))
    {
      ghost var start := State();
      var n := Rematch(0, 0, 0, 0);
      for i := 0 to |list|
        invariant Valid() && deposits.Keys == old(deposits).Keys
        invariant MatchEach(start, list) == MatchEach(State(), list[i..])
        invariant TallyEach(start, list, Rematch(0, 0, 0, 0)) == TallyEach(State(), list[i..], n)
      {
        assert list[i] in list && list[i..][0] == list[i] && list[i..][1..] == list[i + 1..];
        var outcome := MatchDepositToOrder(list[i].0, list[i].1);
        if outcome.Threw? {
          return None;
        }
        n := n.Bump(outcome);
      }
      counts := Some(n);
    }

    method ReadUnmatched() returns (list: seq<Reading>)
      ensures forall r :: r in list <==> r.0 in deposits && r.1 == deposits[r.0] && r.1.order.None?
      ensures forall i, j | 0 <= i < j < |list| :: list[i].0 != list[j].0
    {
      list := [];
      var rest := deposits.Keys;
      while rest != {}
        invariant rest <= deposits.Keys
        invariant forall r :: r in list <==> r.0 in deposits && r.0 !in rest && r.1 == deposits[r.0] && r.1.order.None?
        invariant forall i, j | 0 <= i < j < |list| :: list[i] in list && list[j] in list && list[i].0 != list[j].0
        decreases |rest|
      {
        var d :| d in rest;
        rest := rest - {d};
        if deposits[d].order.None? {
          list := list + [(d, deposits[d])];
        }
      }
    }
  }

  function Elements(readings: seq<Reading>): set<Reading> {
    set r | r in readings
  }

  lemma SeeingKeepsInv(c: Chain, readings: set<Reading>)
    requires Inv(c)
    ensures Inv(c.(seen := c.seen + readings))
  {
  }

  lemma MatchOneKeepsInv(c: Chain, reading: Reading)
    requires Inv(c)
    ensures Inv(MatchOne(c, reading))
  {
    var outcome := Outcome(c.orders, reading.0, reading.1);
    if outcome.Matched? {
      NextKeepsInv(c, Pay(reading.0, reading.1));
      NextKeepsInv(Next(c, Pay(reading.0, reading.1)), Mark(reading.0, outcome.id));
    }
  }

  lemma MatchOneWrites(c: Chain, d: DepositId, read: Deposit)
    requires (d, read) in c.seen && d in c.deposits && Outcome(c.orders, d, read).Matched?
    requires Outcome(c.orders, d, read).id in c.orders
    ensures var id := Outcome(c.orders, d, read).id;
            MatchOne(c, (d, read)) == c.(orders := c.orders[id := Credit(c.orders[id], d, c.clock)],
                                         deposits := c.deposits[d := c.deposits[d].(order := Some(id))])
  {
  }

  /** Two rows are enough to tell none, one and several apart. */
  lemma TakeTwo(all: set<OrderId>, found: seq<OrderId>)
    requires |found| <= 2 && forall id | id in found :: id in all
    requires |found| == 2 ==> found[0] != found[1]
    requires |found| < 2 ==> forall id | id in all :: id in found
    ensures |found| == 0 <==> all == {}
    ensures |found| == 1 <==> exists id :: id in all && all == {id}
    ensures |found| == 1 ==> all == {found[0]}
  {
    if |found| == 2 {
      assert found[0] in all && found[1] in all;
    } else if |found| == 1 {
      assert found[0] in all;
      assert all == {found[0]};
    }
  }
}
