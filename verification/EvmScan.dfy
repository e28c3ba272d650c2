/**
 The EVM block scanner and its cursor (lib/onchain/service.ts, scanEvmChain), for a fixed list of receiving
 accounts.  What the RPC endpoint answers is an input of every run.
 */
module EvmScan {
  import opened Options

  type Account = string

  const OVERLAP_BLOCKS := 12

  /** What happens to one account: its logs never arrive, arrive but a deposit fails, or all goes well. */
  datatype Answer = NoLogs | LogsThenError | AllWell

  /** One run: the chain's head, the configured confirmations, and the answers by account. */
  datatype Scan = Scan(head: nat, confirmations: int, answers: map<Account, Answer>) {
    function Answered(account: Account): Answer {
      if account in answers then answers[account] else NoLogs
    }

    function Depth(): nat {
      if confirmations < 1 then 1 else confirmations
    }

    /** The deepest block with the required confirmations, or -1. */
    function Safe(): int {
      if head >= Depth() then head - Depth() + 1 else -1
    }
  }

  /**
   `queried`, `stored` and `first` are history: the blocks asked for by account, those among them whose deposits all
   went well, and where the first run that moved the cursor began.
   */
  datatype Scanner = Scanner(
    cursor: Option<int>, queried: set<(Account, int)>, stored: set<(Account, int)>, first: Option<int>)

  function From(cursor: Option<int>, safe: int): int {
    match cursor
    case None => safe
    case Some(c) => if c > OVERLAP_BLOCKS then c - OVERLAP_BLOCKS + 1 else 0
  }

  function Blocks(account: Account, from: int, to: int): set<(Account, int)> {
    set b | from <= b <= to :: (account, b)
  }

  /** Which accounts of a run count: those whose logs arrived, or only those where all went well. */
  predicate Covers(scan: Scan, account: Account, whole: bool) {
    if whole then scan.Answered(account).AllWell? else !scan.Answered(account).NoLogs?
  }

  /** What the accounts of a run add. */
  function ScannedBy(accounts: seq<Account>, scan: Scan, from: int, to: int, whole: bool): set<(Account, int)> {
    if accounts == [] then {}
    else
      var last := accounts[|accounts| - 1];
      ScannedBy(accounts[..|accounts| - 1], scan, from, to, whole)
      + if Covers(scan, last, whole) then Blocks(last, from, to) else {}
  }

  predicate Succeeds(accounts: seq<Account>, scan: Scan) {
    forall a | a in accounts :: scan.Answered(a).AllWell?
  }

  function ScanOnce(s: Scanner, accounts: seq<Account>, scan: Scan): Scanner {
    if accounts == [] || scan.Safe() < 0 then s
    else
      var from := From(s.cursor, scan.Safe());
      Scanner(
        if Succeeds(accounts, scan) then Some(scan.Safe()) else s.cursor,
        s.queried + ScannedBy(accounts, scan, from, scan.Safe(), false),
        s.stored + ScannedBy(accounts, scan, from, scan.Safe(), true),
        if Succeeds(accounts, scan) && s.first.None? then Some(from) else s.first)
  }

  function ScanAll(s: Scanner, accounts: seq<Account>, scans: seq<Scan>): Scanner
    decreases |scans|
  {
    if scans == [] then s else ScanAll(ScanOnce(s, accounts, scans[0]), accounts, scans[1..])
  }

  lemma {:induction false} ScannedMeans(
      accounts: seq<Account>, scan: Scan, from: int, to: int, whole: bool, a: Account, b: int)
    ensures (a, b) in ScannedBy(accounts, scan, from, to, whole) <==>
            a in accounts && Covers(scan, a, whole) && from <= b <= to
  {
    if accounts != [] {
      var n := |accounts| - 1;
      ScannedMeans(accounts[..n], scan, from, to, whole, a, b);
      assert accounts == accounts[..n] + [accounts[n]];
    }
  }

  /**
   Which blocks one run asks an answering account for: up to the deepest one with the confirmations, and from the twelfth
   block behind the cursor on, which counts as its first, from block 0 if there are not so many, or from that deepest
   block alone while there is no cursor.
   */
  lemma RunAsksFor(s: Scanner, accounts: seq<Account>, scan: Scan, a: Account, b: int)
    requires a in accounts && !scan.Answered(a).NoLogs?
    ensures var deep := if scan.confirmations < 1 then 1 else scan.confirmations;
            var asked := && scan.head >= deep && b <= scan.head - deep + 1
                         && match s.cursor
                            case None => b == scan.head - deep + 1
                            case Some(c) => if c > 12 then b > c - 12 else b >= 0;
            (a, b) in ScanOnce(s, accounts, scan).queried <==> (a, b) in s.queried || asked
  {
    if scan.Safe() >= 0 {
      ScannedMeans(accounts, scan, From(s.cursor, scan.Safe()), scan.Safe(), false, a, b);
    }
  }

  // ---------- no gaps ----------

  /** Every block from the first stored run up to the cursor has had all its deposits stored, for every account. */
  predicate Covered(s: Scanner, accounts: seq<Account>) {
    && (s.cursor.Some? <==> s.first.Some?)
    && (s.cursor.Some? ==>
          && s.cursor.value >= 0 && s.first.value >= 0
          && forall a, b | a in accounts && s.first.value <= b <= s.cursor.value :: (a, b) in s.stored)
  }

  lemma ScanKeepsCover(s: Scanner, accounts: seq<Account>, scan: Scan)
    requires Covered(s, accounts)
    ensures Covered(ScanOnce(s, accounts, scan), accounts)
  {
    var v := ScanOnce(s, accounts, scan);
    if accounts != [] && scan.Safe() >= 0 && Succeeds(accounts, scan) {
      var from := From(s.cursor, scan.Safe());
      forall a, b | a in accounts && v.first.value <= b <= scan.Safe() ensures (a, b) in v.stored {
        ScannedMeans(accounts, scan, from, scan.Safe(), true, a, b);
        assert s.cursor.Some? && b <= s.cursor.value ==> (a, b) in s.stored;
      }
    }
  }

  /**
   After any sequence of runs, with failing accounts and stalled or regressing heads, there is no gap between
   the first stored run and the cursor: every deposit of every account in between has been stored.
   */
  lemma {:induction false} NoGaps(s: Scanner, accounts: seq<Account>, scans: seq<Scan>)
    requires Covered(s, accounts)
    ensures Covered(ScanAll(s, accounts, scans), accounts)
    decreases |scans|
  {
    if scans != [] {
      ScanKeepsCover(s, accounts, scans[0]);
      NoGaps(ScanOnce(s, accounts, scans[0]), accounts, scans[1..]);
    }
  }

  /** Some run of the list saw the block with its required confirmations. */
  predicate SeenDeep(scans: seq<Scan>, b: int) {
    exists i | 0 <= i < |scans| :: b + scans[i].Depth() - 1 <= scans[i].head
  }

  /** Only blocks with the required confirmations are ever queried. */
  lemma {:induction false} OnlyDeepBlocks(s: Scanner, accounts: seq<Account>, scans: seq<Scan>, a: Account, b: int)
    requires (a, b) in ScanAll(s, accounts, scans).queried && (a, b) !in s.queried
    ensures SeenDeep(scans, b)
    decreases |scans|
  {
    if scans != [] {
      var v := ScanOnce(s, accounts, scans[0]);
      if (a, b) in v.queried {
        ScannedMeans(accounts, scans[0], From(s.cursor, scans[0].Safe()), scans[0].Safe(), false, a, b);
        assert b + scans[0].Depth() - 1 <= scans[0].head;
      } else {
        OnlyDeepBlocks(v, accounts, scans[1..], a, b);
        var i :| 0 <= i < |scans[1..]| && b + scans[1..][i].Depth() - 1 <= scans[1..][i].head;
        assert scans[i + 1] == scans[1..][i];
      }
    }
  }

  /** A run whose every account goes well leaves the cursor at its own safe block and everything up to it stored. */
  lemma SuccessCatchesUp(s: Scanner, accounts: seq<Account>, scan: Scan, a: Account, b: int)
    requires Covered(s, accounts) && accounts != [] && Succeeds(accounts, scan) && scan.Safe() >= 0
    requires s.first.Some? && a in accounts && s.first.value <= b <= scan.Safe()
    ensures (a, b) in ScanOnce(s, accounts, scan).stored && ScanOnce(s, accounts, scan).cursor == Some(scan.Safe())
  {
    ScanKeepsCover(s, accounts, scan);
  }

  // ---------- failing at the start ----------

  lemma {:induction false} ScanAppend(s: Scanner, accounts: seq<Account>, xs: seq<Scan>, ys: seq<Scan>)
    ensures ScanAll(s, accounts, xs + ys) == ScanAll(ScanAll(s, accounts, xs), accounts, ys)
    decreases |xs|
  {
    if xs == [] {
      assert xs + ys == ys;
    } else {
      assert (xs + ys)[1..] == xs[1..] + ys;
      ScanAppend(ScanOnce(s, accounts, xs[0]), accounts, xs[1..], ys);
    }
  }

  /** Runs that fail for an account store nothing for it and, at the start, leave no cursor. */
  lemma {:induction false} FailingRunsStoreNothing(s: Scanner, accounts: seq<Account>, scans: seq<Scan>, a: Account)
    requires a in accounts && s.cursor.None? && s.first.None? && forall scan | scan in scans :: !scan.Answered(a).AllWell?
    requires forall b :: (a, b) !in s.stored
    ensures var v := ScanAll(s, accounts, scans);
            v.cursor.None? && v.first.None? && forall b :: (a, b) !in v.stored
    decreases |scans|
  {
    if scans != [] {
      var v := ScanOnce(s, accounts, scans[0]);
      assert scans[0] in scans && !Succeeds(accounts, scans[0]);
      forall b ensures (a, b) !in v.stored {
        ScannedMeans(accounts, scans[0], From(s.cursor, scans[0].Safe()), scans[0].Safe(), true, a, b);
      }
      FailingRunsStoreNothing(v, accounts, scans[1..], a);
    }
  }

  /** With a cursor at or past `low` and heads that do not fall below it, runs reach back to the overlap and no further. */
  lemma {:induction false} LaterRunsReachBack(
      s: Scanner, accounts: seq<Account>, scans: seq<Scan>, low: int, a: Account, b: int)
    requires a in accounts && s.cursor.Some? && s.cursor.value >= low >= 0 && b <= low
    requires forall scan | scan in scans :: scan.Safe() >= low
    ensures (a, b) in ScanAll(s, accounts, scans).stored ==> (a, b) in s.stored || From(Some(low), low) <= b
    ensures (a, b) in s.stored ==> (a, b) in ScanAll(s, accounts, scans).stored
    ensures s.cursor.value == low && From(Some(low), low) <= b && (exists scan :: scan in scans && scan.Answered(a).AllWell?)
            ==> (a, b) in ScanAll(s, accounts, scans).stored
    decreases |scans|
  {
    if scans != [] {
      var scan, v := scans[0], ScanOnce(s, accounts, scans[0]);
      assert scan in scans;
      ScannedMeans(accounts, scan, From(s.cursor, scan.Safe()), scan.Safe(), true, a, b);
      LaterRunsReachBack(v, accounts, scans[1..], low, a, b);
      if !scan.Answered(a).AllWell? {
        assert !Succeeds(accounts, scan) && v.cursor == s.cursor;
        assert forall other | other in scans && other.Answered(a).AllWell? :: other in scans[1..];
      }
    }
  }

  /**
   Before a run has moved the cursor there is nothing to come back to.  If every run up to the first such one failed
   for an account, then, once the account has answered again and while heads do not fall behind that run, exactly the
   blocks within the overlap of its safe block are ever stored for the account; whatever the failed runs were meant
   to see before that is lost.
   */
  lemma FailedStartLosesOlderBlocks(
      accounts: seq<Account>, failing: seq<Scan>, first: Scan, later: seq<Scan>, a: Account, b: int)
    requires a in accounts && forall scan | scan in failing :: !scan.Answered(a).AllWell?
    requires Succeeds(accounts, first) && first.Safe() >= 0
    requires forall scan | scan in later :: scan.Safe() >= first.Safe()
    requires exists scan :: scan in later && scan.Answered(a).AllWell?
    requires b <= first.Safe()
    ensures (a, b) in ScanAll(Scanner(None, {}, {}, None), accounts, failing + [first] + later).stored
        <==> From(Some(first.Safe()), first.Safe()) <= b
  {
    var s0 := Scanner(None, {}, {}, None);
    var s1 := ScanAll(s0, accounts, failing);
    var s2 := ScanOnce(s1, accounts, first);
    FailingRunsStoreNothing(s0, accounts, failing, a);
    ScanAppend(s0, accounts, failing + [first], later);
    ScanAppend(s0, accounts, failing, [first]);
    assert ScanAll(s1, accounts, [first]) == ScanAll(s2, accounts, [first][1..]) == s2;
    ScannedMeans(accounts, first, first.Safe(), first.Safe(), true, a, b);
    LaterRunsReachBack(s2, accounts, later, first.Safe(), a, b);
  }

  // ---------- the scanner as written ----------

  class EvmScanner {
    const accounts: seq<Account>
    var cursor: Option<int>
    ghost var queried: set<(Account, int)>
    ghost var stored: set<(Account, int)>
    ghost var first: Option<int>

    constructor (accounts: seq<Account>)
      ensures Valid() && this.accounts == accounts && State() == Scanner(None, {}, {}, None)
    {
      this.accounts, cursor, queried, stored, first := accounts, None, {}, {}, None;
    }

    ghost function State(): Scanner
      reads this
    {
      Scanner(cursor, queried, stored, first)
    }

    ghost predicate Valid()
      reads this
    {
      Covered(State(), accounts)
    }

    /** One run; it returns the number of accounts that failed. */
    method ScanEvmChain(scan: Scan) returns (scanErrors: nat)
      requires Valid()
      modifies this
      ensures Valid() && State() == ScanOnce(old(State()), accounts, scan)
      ensures scanErrors == 0 <==> accounts == [] || scan.Safe() < 0 || Succeeds(accounts, scan)
    {
      ScanKeepsCover(State(), accounts, scan);
      scanErrors := 0;
      if accounts == [] {
        return;
      }
      var requiredConfirmations := if scan.confirmations < 1 then 1 else scan.confirmations;
      var safeBlock := if scan.head >= requiredConfirmations then scan.head - requiredConfirmations + 1 else -1;
      if safeBlock < 0 {
        return;
      }
      var fromBlock :=
        if cursor.Some? then (if cursor.value > OVERLAP_BLOCKS then cursor.value - OVERLAP_BLOCKS + 1 else 0)
        else safeBlock;
      ghost var asked, well;
      scanErrors, asked, well := QueryAccounts(scan, fromBlock, safeBlock);
      queried, stored := queried + asked, stored + well;
      if scanErrors == 0 {
        cursor := Some(safeBlock);
        first := if first.None? then Some(fromBlock) else first;
      }
    }

    /** The loop over the accounts, which goes on after an account fails. */
    method QueryAccounts(scan: Scan, fromBlock: int, safeBlock: int)
      returns (scanErrors: nat, ghost asked: set<(Account, int)>, ghost well: set<(Account, int)>)
      ensures asked == ScannedBy(accounts, scan, fromBlock, safeBlock, false)
      ensures well == ScannedBy(accounts, scan, fromBlock, safeBlock, true)
      ensures scanErrors == 0 <==> Succeeds(accounts, scan)
    {
      scanErrors, asked, well := 0, {}, {};
      for i := 0 to |accounts|
        invariant asked == ScannedBy(accounts[..i], scan, fromBlock, safeBlock, false)
        invariant well == ScannedBy(accounts[..i], scan, fromBlock, safeBlock, true)
        invariant scanErrors == 0 <==> Succeeds(accounts[..i], scan)
      {
        var account := accounts[i];
        assert accounts[..i + 1][..i] == accounts[..i] && accounts[..i + 1] == accounts[..i] + [account];
        var answer := scan.Answered(account);
        if !answer.NoLogs? {
          asked := asked + Blocks(account, fromBlock, safeBlock);
        }
        if answer.AllWell? {
          well := well + Blocks(account, fromBlock, safeBlock);
        } else {
          scanErrors := scanErrors + 1;
        }
      }
      assert accounts[..|accounts|] == accounts;
    }
  }
}
