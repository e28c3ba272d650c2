/**
 The block scanner meets the matcher (scanEvmChain and matchDepositToOrder in lib/onchain/service.ts): a refused
 second transfer of a transaction counts as a scan error, and scan errors hold the cursor back.
 */
module ScanStall {
  import opened Options
  import opened PaymentStatuses
  import opened OnchainDeposits
  import opened EvmScan

  /** What no statement changes about an order. */
  predicate SameTerms(o: UsdtOrder, o': UsdtOrder) {
    && SameSlot(o, o') && o'.cents == o.cents && o'.createdAt == o.createdAt
    && o'.expireAt == o.expireAt && o'.quoteExpiresAt == o.quoteExpiresAt && o.creditedBy <= o'.creditedBy
  }

  lemma {:induction false} TermsAreKept(c: Chain, steps: seq<Step>, id: OrderId)
    requires id in c.orders
    ensures id in Run(c, steps).orders && SameTerms(c.orders[id], Run(c, steps).orders[id])
    decreases |steps|
  {
    if steps != [] {
      TermsAreKept(Next(c, steps[0]), steps[1..], id);
    }
  }

  /** No order of this account, chain and USDT amount has near amounts. */
  predicate SlotIsFar(orders: map<OrderId, UsdtOrder>, id: OrderId)
    requires id in orders
  {
    forall other | other in orders && SameSlot(orders[id], orders[other]) :: !Near(orders[other])
  }

  /** An open order without near neighbours stays the one candidate of whatever it was a candidate for. */
  lemma OpenOrderStaysCandidate(
      clock: int, past: seq<Step>, more: seq<Step>, chain: string, d: Deposit, id: OrderId)
    requires id in Candidates(Run(Init(clock), past).orders, chain, d)
    requires var orders := Run(Init(clock), past + more).orders;
             id in orders && IsOpen(orders[id].status) && SlotIsFar(orders, id)
    ensures Candidates(Run(Init(clock), past + more).orders, chain, d) == {id}
  {
    RunAppend(Init(clock), past, more);
    TermsAreKept(Run(Init(clock), past), more, id);
    var orders := Run(Init(clock), past + more).orders;
    var found := Candidates(orders, chain, d);
    assert id in found;
    forall other | other in found ensures other == id {
      if other != id {
        TwoCandidatesNeedATouch(clock, past + more, chain, d, id, other);
        assert SameSlot(orders[id], orders[other]);
      }
    }
  }

  /** So a second transfer of a transaction that paid another order is refused for as long as its candidate is open. */
  lemma OpenOrderKeepsThrowing(
      clock: int, past: seq<Step>, more: seq<Step>, paid: OrderId, d: DepositId, e: DepositId, read: Deposit, id: OrderId)
    requires var orders := Run(Init(clock), past).orders;
             paid in orders && d in orders[paid].creditedBy && id in Candidates(orders, e.chain, read)
    requires e.txHash == d.txHash && read.account.Some? && read.order.None?
    requires var orders := Run(Init(clock), past + more).orders;
             id in orders && IsOpen(orders[id].status) && SlotIsFar(orders, id)
    ensures Outcome(Run(Init(clock), past + more).orders, e, read) == Threw
  {
    RunAppend(Init(clock), past, more);
    TermsAreKept(Run(Init(clock), past), more, paid);
    OpenOrderStaysCandidate(clock, past, more, e.chain, read, id);
    SecondTransferAlwaysThrows(clock, past + more, paid, d, e, read, id);
  }

  /** What happens to the tables up to a scan's look at the transfer, and the scan. */
  datatype Round = Round(steps: seq<Step>, scan: Scan)

  /** A scan of the block in which all goes well for the account has matched the transfer without an error. */
  ghost predicate Reports(c: Chain, s: Scanner, scan: Scan, account: Account, block: int, e: DepositId, read: Deposit) {
    From(s.cursor, scan.Safe()) <= block <= scan.Safe() && scan.Answered(account).AllWell? ==>
      Outcome(c.orders, e, read) != Threw
  }

  /** Through all rounds the order is open without near neighbours, and the scans report truly. */
  ghost predicate StaysOpen(
      c: Chain, s: Scanner, accounts: seq<Account>, rounds: seq<Round>, account: Account, block: int,
      e: DepositId, read: Deposit, id: OrderId)
    decreases |rounds|
  {
    rounds != [] ==>
      var v := Run(c, rounds[0].steps);
      && id in v.orders && IsOpen(v.orders[id].status) && SlotIsFar(v.orders, id)
      && Reports(v, s, rounds[0].scan, account, block, e, read)
      && StaysOpen(v, ScanOnce(s, accounts, rounds[0].scan), accounts, rounds[1..], account, block, e, read, id)
  }

  function Scans(rounds: seq<Round>): seq<Scan> {
    if rounds == [] then [] else [rounds[0].scan] + Scans(rounds[1..])
  }

  /**
   The scanner stands still: once a block holds a second transfer of a transaction that already paid, and the order
   this transfer fits stays open, no run of the scanner moves the cursor to that block or past it, for any account.
   Such an order, by FarOrdersAreNeverCancelled, can only be ended by another payment.
   */
  lemma {:induction false} SecondTransferStallsScanner(
      clock: int, past: seq<Step>, s: Scanner, accounts: seq<Account>, rounds: seq<Round>, block: int,
      paid: OrderId, d: DepositId, e: DepositId, read: Deposit, id: OrderId)
    requires var orders := Run(Init(clock), past).orders;
             paid in orders && d in orders[paid].creditedBy && id in Candidates(orders, e.chain, read)
    requires e.txHash == d.txHash && read.account.Some? && read.account.value in accounts && read.order.None?
    requires s.cursor.Some? && s.cursor.value >= 0 && From(s.cursor, 0) <= block
    requires StaysOpen(Run(Init(clock), past), s, accounts, rounds, read.account.value, block, e, read, id)
    ensures var v := ScanAll(s, accounts, Scans(rounds));
            v.cursor == s.cursor || (v.cursor.Some? && 0 <= v.cursor.value < block)
    decreases |rounds|
  {
    if rounds != [] {
      var steps, scan := rounds[0].steps, rounds[0].scan;
      var v := ScanOnce(s, accounts, scan);
      RunAppend(Init(clock), past, steps);
      OpenOrderKeepsThrowing(clock, past, steps, paid, d, e, read, id);
      assert v.cursor != s.cursor ==> scan.Safe() < block;
      TermsAreKept(Run(Init(clock), past), steps, paid);
      OpenOrderStaysCandidate(clock, past, steps, e.chain, read, id);
      SecondTransferStallsScanner(clock, past + steps, v, accounts, rounds[1..], block, paid, d, e, read, id);
      assert Scans(rounds)[1..] == Scans(rounds[1..]);
    }
  }
}
