/**
 The queue of captured bills (runDueCtfBillCaptureMatches in lib/ctf-bill-capture/service.ts): which due bills a
 worker takes into its batch, what a pass does to their rows, and how long a bill can be passed over.
 */
module BillQueues {
  import opened Options
  import opened Sets
  import opened BillStatuses
  import opened Orders
  import BillMatching
  import opened Batches
  import opened BillSchedule

  type Rows = map<EventId, Row>

  // ---------- one pass ----------

  predicate IsDue(rows: Rows, eid: EventId, now: int) {
    eid in rows && Due(rows[eid], now)
  }

  function DueIds(rows: Rows, now: int): set<EventId> {
    set id | id in rows && Due(rows[id], now)
  }

  /** `orderBy: [{ paidAt: "asc" }, { createdAt: "asc" }]`; both columns never change. */
  function PaidKeys(events: map<EventId, BillMatching.BillEvent>): EventId -> SortKey {
    id => if id in events then SortKey(Some(events[id].paidAt), events[id].createdAt) else SortKey(None, 0)
  }

  /** No due bill that is left out was paid before one that is selected, or at the same instant and captured before it. */
  predicate OldestFirst(events: map<EventId, BillMatching.BillEvent>, ids: seq<EventId>, due: set<EventId>) {
    forall x, y | x in ids && y in due && y !in ids ::
      && x in events && y in events
      && (events[x].paidAt < events[y].paidAt
          || (events[x].paidAt == events[y].paidAt && events[x].createdAt <= events[y].createdAt))
  }

  lemma BatchIsOldestFirst(
      events: map<EventId, BillMatching.BillEvent>, ids: seq<EventId>, due: set<EventId>, tie: EventId -> int, limit: nat)
    requires due <= events.Keys && IsBatch(ids, due, ByKey(PaidKeys(events), tie), limit)
    ensures OldestFirst(events, ids, due)
  {
    forall x, y | x in ids && y in due && y !in ids
      ensures x in events
      ensures events[x].paidAt < events[y].paidAt
              || (events[x].paidAt == events[y].paidAt && events[x].createdAt <= events[y].createdAt) {
      assert x in Elements(ids);
      assert ByKey(PaidKeys(events), tie)(x, y);
    }
  }

  /** The row after one attempt. */
  function After(row: Row, matched: bool, now: int, cfg: Config): Row {
    if matched then Row(Matched, row.attempts, None)
    else CloseRow(row, row.attempts, now + Delay(row.attempts, cfg), cfg)
  }

  /** That is what an undisturbed attempt does to the row in the schedule. */
  lemma AttemptIsScheduled(w: World, worker: WorkerId, cfg: Config)
    requires Due(w.row, w.clock) && worker !in w.workers
    ensures Run(w, [Select(worker, w.clock), Claim(worker), Close(worker)], cfg).row == After(w.row, false, w.clock, cfg)
    ensures Run(w, [Select(worker, w.clock), Claim(worker), Mark], cfg).row == After(w.row, true, w.clock, cfg)
  {
    OneAttempt(w, worker, cfg);
    ThreeSteps(w, [Select(worker, w.clock), Claim(worker), Mark], cfg);
  }

  /** An attempt leaves the same row as if the lease had never been written. */
  lemma ClaimIsInvisible(rows: Rows, eid: EventId, lease: Option<int>, now: int, cfg: Config)
    requires eid in rows && rows[eid].status == Received
    ensures var claimed := rows[eid := rows[eid].(next := lease)];
            && claimed[eid := CloseRow(claimed[eid], rows[eid].attempts, now + Delay(rows[eid].attempts, cfg), cfg)]
               == rows[eid := After(rows[eid], false, now, cfg)]
            && claimed[eid := Row(Matched, claimed[eid].attempts, None)] == rows[eid := After(rows[eid], true, now, cfg)]
  {
  }

  function RivalOf(rivals: map<EventId, int>, eid: EventId): Option<int> {
    if eid in rivals then Some(rivals[eid]) else None
  }

  function Leased(row: Row, rival: Option<int>): Row {
    if rival.Some? then row.(next := rival) else row
  }

  /** A bill whose lease another worker now holds is refused; any other one has an attempt. */
  function Tried(row: Row, rival: Option<int>, matched: bool, now: int, cfg: Config): Row {
    var leased := Leased(row, rival);
    if Due(leased, now) then After(leased, matched, now, cfg) else leased
  }

  /** The listed bills have been tried once each, all other rows are as they were. */
  predicate Attempted(
      before: Rows, after: Rows, ids: seq<EventId>, rivals: map<EventId, int>, now: int, cfg: Config)
  {
    && after.Keys == before.Keys
    && forall id | id in before ::
         after[id] == if id in ids then Tried(before[id], RivalOf(rivals, id), after[id].status == Matched, now, cfg)
                      else before[id]
  }

  /** The next listed bill's row is still untouched, and trying it leaves one more bill tried. */
  lemma AttemptedNext(
      before: Rows, rows: Rows, ids: seq<EventId>, i: nat, rivals: map<EventId, int>, now: int, cfg: Config)
    requires i < |ids| && (forall k, l | 0 <= k < l < |ids| :: ids[k] != ids[l])
    requires ids[i] in before && before[ids[i]].status == Received && Attempted(before, rows, ids[..i], rivals, now, cfg)
    ensures ids[i] in rows && rows[ids[i]] == before[ids[i]]
    ensures forall matched ::
              Attempted(before, rows[ids[i] := Tried(rows[ids[i]], RivalOf(rivals, ids[i]), matched, now, cfg)],
                        ids[..i + 1], rivals, now, cfg)
  {
    assert ids[i] !in ids[..i] && ids[..i + 1] == ids[..i] + [ids[i]];
  }

  // ---------- many passes ----------

  /** A pass: the table it read, its instant, how it lists equal keys, and its batch. */
  datatype Pass = Pass(rows: Rows, now: int, tie: EventId -> int, batch: seq<EventId>)

  /** The batch is the one the query gives, over rows as NextIsSound keeps them. */
  ghost predicate RanBy(pass: Pass, keys: EventId -> SortKey, limit: nat, cfg: Config) {
    && TellsApart(pass.tie)
    && IsBatch(pass.batch, DueIds(pass.rows, pass.now), ByKey(keys, pass.tie), limit)
    && forall id | id in pass.rows && pass.rows[id].status.Received? :: pass.rows[id].attempts < cfg.maxAttempts
  }

  ghost predicate Sees(pass: Pass, eid: EventId, keys: EventId -> SortKey, limit: nat, cfg: Config) {
    RanBy(pass, keys, limit, cfg) && eid in DueIds(pass.rows, pass.now)
  }

  /** A bill that is still RECEIVED was so before, and lost an attempt if one was completed. */
  predicate Advances(row: Row, row': Row, tried: bool) {
    row'.status.Received? ==>
      row.status.Received? && if tried then row'.attempts > row.attempts else row'.attempts >= row.attempts
  }

  /** Bills other than this one that are not sorted behind it. */
  function NotBehind(rows: Rows, eid: EventId, keys: EventId -> SortKey): set<EventId> {
    set id | id in rows && id != eid && !KeyLess(keys(eid), keys(id))
  }

  /** Until the next pass the batch has been attempted, and no bill arrived that comes before `eid`. */
  predicate Follows(pass: Pass, next: Pass, eid: EventId, keys: EventId -> SortKey) {
    forall id | id in NotBehind(next.rows, eid, keys) ::
      id in pass.rows && Advances(pass.rows[id], next.rows[id], id in pass.batch)
  }

  /** The attempts left to the bills that are not behind this one, one by one. */
  function LeftAhead(pass: Pass, eid: EventId, keys: EventId -> SortKey, cfg: Config): set<(EventId, nat)> {
    set id, n: nat | id in NotBehind(pass.rows, eid, keys) && pass.rows[id].status.Received?
                     && pass.rows[id].attempts <= n < cfg.maxAttempts :: (id, n)
  }

  function NextAttempts(rows: Rows, ids: set<EventId>): set<(EventId, nat)>
    requires ids <= rows.Keys
  {
    set id | id in ids :: (id, rows[id].attempts)
  }

  lemma {:induction false} NextAttemptsSize(rows: Rows, ids: set<EventId>)
    requires ids <= rows.Keys
    ensures |NextAttempts(rows, ids)| == |ids|
    decreases |ids|
  {
    if ids != {} {
      var id :| id in ids;
      NextAttemptsSize(rows, ids - {id});
      assert NextAttempts(rows, ids) == NextAttempts(rows, ids - {id}) + {(id, rows[id].attempts)};
    }
  }

  /** A pass that leaves a due bill out tries `limit` bills that are not behind it, each with an attempt left. */
  lemma OverlookingUsesAttempts(pass: Pass, eid: EventId, keys: EventId -> SortKey, limit: nat, cfg: Config)
    requires Sees(pass, eid, keys, limit, cfg) && eid !in pass.batch
    ensures Elements(pass.batch) <= pass.rows.Keys
    ensures NextAttempts(pass.rows, Elements(pass.batch)) <= LeftAhead(pass, eid, keys, cfg)
    ensures |NextAttempts(pass.rows, Elements(pass.batch))| == limit
  {
    ByKeyIsTotal(keys, pass.tie);
    SelectedIffFewAhead(pass.batch, DueIds(pass.rows, pass.now), ByKey(keys, pass.tie), limit, eid);
    NextAttemptsSize(pass.rows, Elements(pass.batch));
  }

  /** The next pass finds the attempts left that this one's batch has not used. */
  lemma PassUsesAttempts(pass: Pass, next: Pass, eid: EventId, keys: EventId -> SortKey, cfg: Config)
    requires Elements(pass.batch) <= pass.rows.Keys && Follows(pass, next, eid, keys)
    ensures LeftAhead(next, eid, keys, cfg)
         <= LeftAhead(pass, eid, keys, cfg) - NextAttempts(pass.rows, Elements(pass.batch))
  {
    forall a | a in LeftAhead(next, eid, keys, cfg)
      ensures a in LeftAhead(pass, eid, keys, cfg) - NextAttempts(pass.rows, Elements(pass.batch))
    {
      assert a.0 in NotBehind(next.rows, eid, keys);
      assert Advances(pass.rows[a.0], next.rows[a.0], a.0 in pass.batch);
    }
  }

  /** Passes that leave a due bill out use up the attempts of the bills that are not behind it. */
  lemma OverlookedIsBounded(passes: seq<Pass>, eid: EventId, keys: EventId -> SortKey, limit: nat, cfg: Config)
    requires passes != []
    requires forall k | 0 <= k < |passes| :: Sees(passes[k], eid, keys, limit, cfg) && eid !in passes[k].batch
    requires forall k | 0 <= k < |passes| - 1 :: Follows(passes[k], passes[k + 1], eid, keys)
    ensures |passes| * limit <= |LeftAhead(passes[0], eid, keys, cfg)|
  {
    forall k | 0 <= k < |passes|
      ensures Elements(passes[k].batch) <= passes[k].rows.Keys
      ensures NextAttempts(passes[k].rows, Elements(passes[k].batch)) <= LeftAhead(passes[k], eid, keys, cfg)
      ensures |NextAttempts(passes[k].rows, Elements(passes[k].batch))| == limit
    {
      OverlookingUsesAttempts(passes[k], eid, keys, limit, cfg);
    }
    var left := seq(|passes|, k requires 0 <= k < |passes| => LeftAhead(passes[k], eid, keys, cfg));
    var used := seq(|passes|, k requires 0 <= k < |passes| && Elements(passes[k].batch) <= passes[k].rows.Keys =>
                                NextAttempts(passes[k].rows, Elements(passes[k].batch)));
    forall k | 0 <= k < |left| - 1 ensures left[k + 1] <= left[k] - used[k] {
      assert Follows(passes[k], passes[k + 1], eid, keys);
      PassUsesAttempts(passes[k], passes[k + 1], eid, keys, cfg);
    }
    RoundsAreBounded(left, used, limit);
  }

  /**
   Bills are served: a bill that stays due is in the batch of one of the passes as soon as these have more places
   than the bills that are not behind it have attempts left, if no such bill arrives meanwhile and every pass's
   batch has been attempted by the time of the next one.
   */
  lemma SelectedInTime(passes: seq<Pass>, eid: EventId, keys: EventId -> SortKey, limit: nat, cfg: Config)
    requires passes != []
    requires forall k | 0 <= k < |passes| :: Sees(passes[k], eid, keys, limit, cfg)
    requires forall k | 0 <= k < |passes| - 1 :: Follows(passes[k], passes[k + 1], eid, keys)
    requires |passes| * limit > |LeftAhead(passes[0], eid, keys, cfg)|
    ensures exists k | 0 <= k < |passes| :: eid in passes[k].batch
  {
    if forall k | 0 <= k < |passes| :: eid !in passes[k].batch {
      OverlookedIsBounded(passes, eid, keys, limit, cfg);
    }
  }

  /** A pass that finds the bill as some run of its schedule left it, once the longest lease or delay has passed. */
  ghost predicate ComesLater(pass: Pass, eid: EventId, w: World, keys: EventId -> SortKey, limit: nat, cfg: Config)
    requires cfg.Positive()
  {
    && RanBy(pass, keys, limit, cfg)
    && eid in pass.rows && pass.rows[eid] == w.row && pass.now >= w.clock + MaxWait(cfg)
  }

  /** The bill is in the batch, and the worker's claim holds with the bill's own count. */
  predicate Serves(pass: Pass, eid: EventId, w: World, worker: WorkerId, cfg: Config) {
    && eid in pass.batch && pass.now >= w.clock
    && var v := Run(w, Visit(worker, pass.now - w.clock, pass.now), cfg);
       Holds(v, worker) && v.workers[worker].seen == w.row.attempts
  }

  lemma LaterPassSees(
      clock: int, steps: seq<Step>, worker: WorkerId, pass: Pass, eid: EventId, keys: EventId -> SortKey, limit: nat,
      cfg: Config)
    requires cfg.Positive() && ComesLater(pass, eid, Run(Initial(clock), steps, cfg), keys, limit, cfg)
    requires var w := Run(Initial(clock), steps, cfg); w.row.status.Received? && worker !in w.workers
    ensures Sees(pass, eid, keys, limit, cfg)
    ensures eid in pass.batch ==> Serves(pass, eid, Run(Initial(clock), steps, cfg), worker, cfg)
  {
    WaitingBillIsClaimed(clock, steps, cfg, worker, pass.now - Run(Initial(clock), steps, cfg).clock);
  }

  /**
   No bill is stranded: after any run of its schedule, dead and late workers included, a bill that is still RECEIVED
   is in the batch of one of the passes made after the longest lease or delay, as soon as these have more places than
   the bills that are not behind it have attempts left; and a worker with that batch claims it.
   */
  lemma NoBillIsStranded(
      clock: int, steps: seq<Step>, worker: WorkerId, passes: seq<Pass>, eid: EventId, keys: EventId -> SortKey,
      limit: nat, cfg: Config)
    requires cfg.Positive() && passes != []
    requires var w := Run(Initial(clock), steps, cfg); w.row.status.Received? && worker !in w.workers
    requires forall k | 0 <= k < |passes| ::
               ComesLater(passes[k], eid, Run(Initial(clock), steps, cfg), keys, limit, cfg)
    requires forall k | 0 <= k < |passes| - 1 :: Follows(passes[k], passes[k + 1], eid, keys)
    requires |passes| * limit > |LeftAhead(passes[0], eid, keys, cfg)|
    ensures exists k | 0 <= k < |passes| :: Serves(passes[k], eid, Run(Initial(clock), steps, cfg), worker, cfg)
  {
    forall k | 0 <= k < |passes|
      ensures Sees(passes[k], eid, keys, limit, cfg)
      ensures eid in passes[k].batch ==> Serves(passes[k], eid, Run(Initial(clock), steps, cfg), worker, cfg)
    {
      LaterPassSees(clock, steps, worker, passes[k], eid, keys, limit, cfg);
    }
    SelectedInTime(passes, eid, keys, limit, cfg);
    var k :| 0 <= k < |passes| && eid in passes[k].batch;
    assert Serves(passes[k], eid, Run(Initial(clock), steps, cfg), worker, cfg);
  }

  /** An attempt advances its bill. */
  lemma TriedAdvances(row: Row, rival: Option<int>, matched: bool, now: int, cfg: Config)
    requires Due(row, now)
    ensures Advances(row, Tried(row, rival, matched, now, cfg), rival.None?)
  {
  }

  /**
   What a worker's pass guarantees fits: its batch is the one by the keys of any later table, and it advances every
   bill, those of its batch that no rival leased by an attempt.
   */
  lemma WorkerPassFits(
      events: map<EventId, BillMatching.BillEvent>, later: map<EventId, BillMatching.BillEvent>, before: Rows, after: Rows,
      ids: seq<EventId>, tie: EventId -> int, limit: nat, rivals: map<EventId, int>, now: int, cfg: Config)
    requires before.Keys == events.Keys <= later.Keys
    requires forall id | id in events :: later[id].paidAt == events[id].paidAt && later[id].createdAt == events[id].createdAt
    requires IsBatch(ids, DueIds(before, now), ByKey(PaidKeys(events), tie), limit)
    requires Attempted(before, after, ids, rivals, now, cfg)
    ensures IsBatch(ids, DueIds(before, now), ByKey(PaidKeys(later), tie), limit)
    ensures forall id | id in before :: Advances(before[id], after[id], id in ids && id !in rivals)
  {
    OnlyDueKeysMatter(ids, DueIds(before, now), PaidKeys(events), PaidKeys(later), tie, limit);
    forall id | id in before ensures Advances(before[id], after[id], id in ids && id !in rivals) {
      if id in ids {
        assert id in Elements(ids);
        TriedAdvances(before[id], RivalOf(rivals, id), after[id].status == Matched, now, cfg);
      }
    }
  }

  /** Timely runs of any number of workers advance a bill, by an attempt if anyone completes one. */
  lemma {:induction false} TimelyRunsAdvance(w: World, steps: seq<Step>, cfg: Config)
    requires cfg.Positive() && Counted(w, cfg) && AllTimely(w, steps, cfg)
    ensures Advances(w.row, Run(w, steps, cfg).row, Completions(w, steps, cfg) > 0)
    decreases |steps|
  {
    TimelyRunsDrain(w, steps, cfg);
    if steps != [] {
      NextIsCounted(w, steps[0], cfg);
      TimelyRunsAdvance(Next(w, steps[0], cfg), steps[1..], cfg);
    }
  }
}
