/**
 The retry schedule of one captured bill (runDueCtfBillCaptureMatches in lib/ctf-bill-capture/service.ts), with
 any number of workers.  A worker is split where the source awaits: it selects the row, claims it with a
 compare-and-set that sets a lease, and later marks the bill MATCHED or closes the attempt.
 */
module BillSchedule {
  import opened Options
  import opened BillStatuses

  type WorkerId = nat

  /** The columns the schedule uses: attemptCount and nextAttemptAt. */
  datatype Row = Row(status: BillStatus, attempts: nat, next: Option<int>)

  datatype Config = Config(maxAttempts: nat, retryMs: nat, leaseMs: nat) {
    /** What parsePositiveInteger and the lease constant guarantee. */
    predicate Positive() {
      maxAttempts > 0 && retryMs > 0 && leaseMs > 0
    }
  }

  /** What a successful claim fixes: the lease, and the retry time to be written if the attempt fails. */
  datatype Claimed = Claimed(lease: int, retryAt: int)

  /** A worker whose batch was selected for the instant `now`; it read the count `seen`. */
  datatype Worker = Worker(now: int, seen: nat, claim: Option<Claimed>)

  /** `closed` is history: how many attempts were written back to a RECEIVED row. */
  datatype World = World(clock: int, row: Row, workers: map<WorkerId, Worker>, closed: nat)

  datatype Step =
    | Tick(ms: nat)
    | Select(id: WorkerId, now: int)
    | Claim(id: WorkerId)
    | Close(id: WorkerId)
    | Mark
    | Crash(id: WorkerId)

  function Initial(clock: int): World {
    World(clock, Row(Received, 0, None), map[], 0)
  }

  // ---------- the statements ----------

  /** The `where` of the selection and of the claim. */
  predicate Due(row: Row, now: int) {
    row.status.Received? && (row.next.None? || row.next.value <= now)
  }

  function Pow2(n: nat): nat {
    if n == 0 then 1 else 2 * Pow2(n - 1)
  }

  /** `retryBaseSeconds * 1000 * 2 ** (attemptCount - 1)` for the attempt after `seen` earlier ones. */
  function Delay(seen: nat, cfg: Config): nat {
    cfg.retryMs * Pow2(seen)
  }

  /** The row a failed attempt leaves; a row that is no longer RECEIVED is left alone. */
  function CloseRow(row: Row, seen: nat, retryAt: int, cfg: Config): Row {
    if !row.status.Received? then row
    else if seen + 1 >= cfg.maxAttempts then Row(DeadLetter, seen + 1, None)
    else Row(Received, seen + 1, Some(retryAt))
  }

  predicate Holds(w: World, id: WorkerId) {
    id in w.workers && w.workers[id].claim.Some?
  }

  /** `Select` runs its query some time after its `now`; `Close` writes the retry time computed at the claim. */
  predicate Enabled(w: World, step: Step) {
    match step
    case Tick(_) => true
    case Select(id, now) => id !in w.workers && now <= w.clock && Due(w.row, now)
    case Claim(id) => id in w.workers && !Holds(w, id)
    case Close(id) => Holds(w, id)
    case Mark => true
    case Crash(id) => id in w.workers
  }

  function Effect(w: World, step: Step, cfg: Config): World
    requires Enabled(w, step)
  {
    match step
    case Tick(ms) => w.(clock := w.clock + ms)
    case Select(id, now) => w.(workers := w.workers[id := Worker(now, w.row.attempts, None)])
    case Claim(id) =>
      var worker := w.workers[id];
      var claim := Claimed(w.clock + cfg.leaseMs, w.clock + Delay(worker.seen, cfg));
      if Due(w.row, worker.now)
      then w.(row := w.row.(next := Some(claim.lease)), workers := w.workers[id := worker.(claim := Some(claim))])
      else w.(workers := w.workers - {id})
    case Close(id) =>
      var worker := w.workers[id];
      w.(row := CloseRow(w.row, worker.seen, worker.claim.value.retryAt, cfg), workers := w.workers - {id},
         closed := w.closed + if w.row.status.Received? then 1 else 0)
    case Mark => w.(row := w.row.(status := Matched, next := None))
    case Crash(id) => w.(workers := w.workers - {id})
  }

  function Next(w: World, step: Step, cfg: Config): World {
    if Enabled(w, step) then Effect(w, step, cfg) else w
  }

  function Run(w: World, steps: seq<Step>, cfg: Config): World
    decreases |steps|
  {
    if steps == [] then w else Run(Next(w, steps[0], cfg), steps[1..], cfg)
  }

  lemma {:induction false} Pow2IsPositive(n: nat)
    ensures Pow2(n) >= 1
  {
    if n > 0 {
      Pow2IsPositive(n - 1);
    }
  }

  lemma DelayIsPositive(seen: nat, cfg: Config)
    requires cfg.Positive()
    ensures Delay(seen, cfg) >= 1
  {
    Pow2IsPositive(seen);
    var p := Pow2(seen);
    assert cfg.retryMs * p == cfg.retryMs + cfg.retryMs * (p - 1);
  }

  lemma {:induction false} Pow2Grows(m: nat, n: nat)
    requires m <= n
    ensures Pow2(m) <= Pow2(n)
  {
    if m < n {
      Pow2Grows(m, n - 1);
    }
  }

  lemma DelayGrows(m: nat, n: nat, cfg: Config)
    requires m <= n
    ensures Delay(m, cfg) <= Delay(n, cfg)
  {
    Pow2Grows(m, n);
    var p, q := Pow2(m), Pow2(n);
    assert cfg.retryMs * q == cfg.retryMs * p + cfg.retryMs * (q - p);
  }

  // ---------- every run ----------

  /** The longest a bill can be put off: a lease, or the longest delay. */
  function MaxWait(cfg: Config): nat
    requires cfg.Positive()
  {
    var longest := Delay(cfg.maxAttempts - 1, cfg);
    if longest < cfg.leaseMs then cfg.leaseMs else longest
  }

  predicate WorkerOk(w: World, worker: Worker, cfg: Config)
    requires cfg.Positive()
  {
    && worker.now <= w.clock && worker.seen < cfg.maxAttempts
    && (worker.claim.Some? ==> worker.claim.value.retryAt <= w.clock + MaxWait(cfg))
  }

  predicate Sound(w: World, cfg: Config)
    requires cfg.Positive()
  {
    && (w.row.status.Received? ==> w.row.attempts < cfg.maxAttempts)
    && (w.row.next.Some? ==> w.row.next.value <= w.clock + MaxWait(cfg))
    && (forall id | id in w.workers :: WorkerOk(w, w.workers[id], cfg))
  }

  lemma NextIsSound(w: World, step: Step, cfg: Config)
    requires cfg.Positive() && Sound(w, cfg)
    ensures Sound(Next(w, step, cfg), cfg)
  {
    if Enabled(w, step) {
      if step.Claim? {
        assert WorkerOk(w, w.workers[step.id], cfg);
        DelayGrows(w.workers[step.id].seen, cfg.maxAttempts - 1, cfg);
      }
      if step.Close? {
        assert WorkerOk(w, w.workers[step.id], cfg);
      }
      var v := Next(w, step, cfg);
      forall id | id in v.workers ensures WorkerOk(v, v.workers[id], cfg) {
        assert id in w.workers ==> WorkerOk(w, w.workers[id], cfg);
      }
    }
  }

  lemma {:induction false} RunIsSound(w: World, steps: seq<Step>, cfg: Config)
    requires cfg.Positive() && Sound(w, cfg)
    ensures Sound(Run(w, steps, cfg), cfg)
    decreases |steps|
  {
    if steps != [] {
      NextIsSound(w, steps[0], cfg);
      RunIsSound(Next(w, steps[0], cfg), steps[1..], cfg);
    }
  }

  /** A fresh worker that comes after a while. */
  function Visit(id: WorkerId, ms: nat, now: int): seq<Step> {
    [Tick(ms), Select(id, now), Claim(id)]
  }

  /**
   Whatever workers did, slept through or died of before, once the longest lease or delay has passed a bill that is
   still RECEIVED is due, and a worker that then has it in its batch claims it.
   */
  lemma WaitingBillIsClaimed(clock: int, steps: seq<Step>, cfg: Config, id: WorkerId, ms: nat)
    requires cfg.Positive() && ms >= MaxWait(cfg)
    requires var w := Run(Initial(clock), steps, cfg); w.row.status.Received? && id !in w.workers
    ensures var w := Run(Initial(clock), steps, cfg);
            var v := Run(w, Visit(id, ms, w.clock + ms), cfg);
            && Due(w.row, w.clock + ms)
            && Holds(v, id) && v.workers[id].seen == v.row.attempts == w.row.attempts < cfg.maxAttempts
  {
    RunIsSound(Initial(clock), steps, cfg);
    var w := Run(Initial(clock), steps, cfg);
    var visit := Visit(id, ms, w.clock + ms);
    var w1 := Next(w, visit[0], cfg);
    var w2 := Next(w1, visit[1], cfg);
    assert visit[1..] == [visit[1], visit[2]] && [visit[1], visit[2]][1..] == [visit[2]];
    OneStep(w2, visit[2], cfg);
  }

  /** MATCHED is final, whoever closes late. */
  lemma {:induction false} MatchedIsFinal(w: World, steps: seq<Step>, cfg: Config)
    requires w.row.status.Matched?
    ensures Run(w, steps, cfg).row.status.Matched? && Run(w, steps, cfg).row.attempts == w.row.attempts
    decreases |steps|
  {
    if steps != [] {
      MatchedIsFinal(Next(w, steps[0], cfg), steps[1..], cfg);
    }
  }

  // ---------- timely runs ----------

  /** Every worker closes its attempt before its lease runs out; nothing in the code enforces it. */
  predicate Timely(w: World, step: Step) {
    step.Close? && Enabled(w, step) ==> w.clock < w.workers[step.id].claim.value.lease
  }

  predicate AllTimely(w: World, steps: seq<Step>, cfg: Config)
    decreases |steps|
  {
    steps != [] ==> Timely(w, steps[0]) && AllTimely(Next(w, steps[0], cfg), steps[1..], cfg)
  }

  predicate Live(w: World, id: WorkerId) {
    Holds(w, id) && w.clock < w.workers[id].claim.value.lease
  }

  /** A live worker owns the row: its lease is the row's, its count is current, its retry time is past every open batch. */
  predicate OwnsRow(w: World, id: WorkerId)
    requires Holds(w, id)
  {
    var claim := w.workers[id].claim.value;
    w.row.status.Received? ==>
      && w.row.next == Some(claim.lease) && w.workers[id].seen == w.row.attempts
      && forall other | other in w.workers && !Holds(w, other) :: w.workers[other].now < claim.retryAt
  }

  /** A worker's reading is current, or a claim with it will be refused. */
  predicate ReadingOk(w: World, worker: Worker) {
    worker.claim.None? ==> worker.seen == w.row.attempts || !Due(w.row, worker.now)
  }

  predicate Counted(w: World, cfg: Config) {
    && w.row.attempts == w.closed <= cfg.maxAttempts
    && (w.row.status.Received? ==> w.closed < cfg.maxAttempts)
    && (w.row.status.DeadLetter? ==> w.closed == cfg.maxAttempts)
    && (forall id | id in w.workers :: w.workers[id].now <= w.clock && ReadingOk(w, w.workers[id]))
    && (forall id | id in w.workers :: Live(w, id) ==> OwnsRow(w, id))
    && (forall i, j | i in w.workers && j in w.workers :: Live(w, i) && Live(w, j) && w.row.status.Received? ==> i == j)
  }

  lemma NextKeepsReadings(w: World, step: Step, cfg: Config)
    requires cfg.Positive() && Counted(w, cfg) && Timely(w, step)
    ensures var v := Next(w, step, cfg);
            forall id | id in v.workers :: v.workers[id].now <= v.clock && ReadingOk(v, v.workers[id])
  {
    var v := Next(w, step, cfg);
    forall id | id in v.workers ensures v.workers[id].now <= v.clock && ReadingOk(v, v.workers[id]) {
      if id in w.workers {
        assert ReadingOk(w, w.workers[id]);
        if Enabled(w, step) && step.Close? && !Holds(w, id) {
          assert Live(w, step.id) && OwnsRow(w, step.id);
        }
      }
    }
  }

  lemma NextKeepsOwner(w: World, step: Step, cfg: Config)
    requires cfg.Positive() && Counted(w, cfg) && Timely(w, step)
    ensures var v := Next(w, step, cfg);
            forall id | id in v.workers :: Live(v, id) ==> OwnsRow(v, id)
  {
    var v := Next(w, step, cfg);
    forall id | id in v.workers && Live(v, id) ensures OwnsRow(v, id) {
      if Enabled(w, step) {
        if step.Claim? {
          assert ReadingOk(w, w.workers[step.id]);
          DelayIsPositive(w.workers[step.id].seen, cfg);
        }
        if id in w.workers && Live(w, id) {
          assert OwnsRow(w, id);
        }
        if step.Close? {
          assert step.id in w.workers && Live(w, step.id);
        }
      }
    }
  }

  lemma NextIsCounted(w: World, step: Step, cfg: Config)
    requires cfg.Positive() && Counted(w, cfg) && Timely(w, step)
    ensures Counted(Next(w, step, cfg), cfg)
  {
    NextKeepsReadings(w, step, cfg);
    NextKeepsOwner(w, step, cfg);
    if Enabled(w, step) && step.Close? {
      assert step.id in w.workers && Live(w, step.id) && OwnsRow(w, step.id);
    }
    if Enabled(w, step) && step.Claim? {
      assert forall id | id in w.workers :: Live(w, id) ==> OwnsRow(w, id);
    }
  }

  /** A claimed attempt that is written back to a RECEIVED bill. */
  predicate Completes(w: World, step: Step) {
    step.Close? && Enabled(w, step) && w.row.status.Received?
  }

  function Completions(w: World, steps: seq<Step>, cfg: Config): nat
    decreases |steps|
  {
    if steps == [] then 0
    else (if Completes(w, steps[0]) then 1 else 0) + Completions(Next(w, steps[0], cfg), steps[1..], cfg)
  }

  /**
   In timely runs the counter is the number of failed attempts, at most one worker is live, and the bill goes
   to DEAD_LETTER exactly with attempt number maxAttempts.  So the worker drains: each completed attempt uses up
   one of the attempts left, and after that many the bill is settled.
   */
  lemma {:induction false} TimelyRunsDrain(w: World, steps: seq<Step>, cfg: Config)
    requires cfg.Positive() && Counted(w, cfg) && AllTimely(w, steps, cfg)
    ensures Counted(Run(w, steps, cfg), cfg)
    ensures var v := Run(w, steps, cfg);
            && v.row.attempts == v.closed == w.closed + Completions(w, steps, cfg)
            && Completions(w, steps, cfg) <= cfg.maxAttempts - w.row.attempts
            && (v.row.status.Received? ==> v.closed < cfg.maxAttempts)
            && (v.row.status.DeadLetter? ==> v.closed == cfg.maxAttempts)
            && (Completions(w, steps, cfg) == cfg.maxAttempts - w.row.attempts ==> !v.row.status.Received?)
    decreases |steps|
  {
    if steps != [] {
      NextIsCounted(w, steps[0], cfg);
      TimelyRunsDrain(Next(w, steps[0], cfg), steps[1..], cfg);
    }
  }

  /** In timely runs a claim that succeeds was made with the current attempt count, however old its batch. */
  lemma TimelyClaimsAreCurrent(clock: int, steps: seq<Step>, cfg: Config, id: WorkerId)
    requires cfg.Positive() && AllTimely(Initial(clock), steps, cfg)
    requires Enabled(Run(Initial(clock), steps, cfg), Claim(id))
    ensures var w := Run(Initial(clock), steps, cfg);
            Holds(Next(w, Claim(id), cfg), id) ==> w.workers[id].seen == w.row.attempts
  {
    TimelyRunsDrain(Initial(clock), steps, cfg);
    var w := Run(Initial(clock), steps, cfg);
    assert ReadingOk(w, w.workers[id]);
  }

  // ---------- late workers ----------

  /**
   The exact condition: a failed attempt that is written back makes an open batch's reading stale iff it changes
   the count, and a claim with that reading still succeeds iff the retry time, computed at the closer's claim,
   is not after the instant the batch was selected for.
   */
  lemma StaleClaimIffRetryIsOld(w: World, closer: WorkerId, reader: WorkerId, cfg: Config)
    requires Holds(w, closer) && reader in w.workers && !Holds(w, reader)
    requires w.row.status.Received? && w.workers[reader].seen == w.row.attempts
    requires w.workers[closer].seen + 1 < cfg.maxAttempts
    ensures var v := Next(w, Close(closer), cfg);
            && (v.workers[reader].seen != v.row.attempts <==> w.workers[closer].seen + 1 != w.row.attempts)
            && (Holds(Next(v, Claim(reader), cfg), reader)
                <==> w.workers[closer].claim.value.retryAt <= w.workers[reader].now)
  {
  }

  function Attempt(id: WorkerId, now: int): seq<Step> {
    [Select(id, now), Claim(id), Close(id)]
  }

  lemma {:induction false} RunAppend(w: World, xs: seq<Step>, ys: seq<Step>, cfg: Config)
    ensures Run(w, xs + ys, cfg) == Run(Run(w, xs, cfg), ys, cfg)
    decreases |xs|
  {
    if xs == [] {
      assert xs + ys == ys;
    } else {
      assert (xs + ys)[1..] == xs[1..] + ys;
      RunAppend(Next(w, xs[0], cfg), xs[1..], ys, cfg);
    }
  }

  lemma OneStep(w: World, step: Step, cfg: Config)
    ensures Run(w, [step], cfg) == Next(w, step, cfg)
  {
    assert Run(w, [step], cfg) == Run(Next(w, step, cfg), [step][1..], cfg);
  }

  lemma ThreeSteps(w: World, steps: seq<Step>, cfg: Config)
    requires |steps| == 3
    ensures Run(w, steps, cfg) == Next(Next(Next(w, steps[0], cfg), steps[1], cfg), steps[2], cfg)
  {
    var w1 := Next(w, steps[0], cfg);
    assert steps[1..][1..] == [steps[2]];
    OneStep(Next(w1, steps[1], cfg), steps[2], cfg);
  }

  /** An undisturbed failed attempt. */
  lemma OneAttempt(w: World, id: WorkerId, cfg: Config)
    requires Due(w.row, w.clock) && id !in w.workers
    ensures Run(w, Attempt(id, w.clock), cfg)
         == w.(row := CloseRow(w.row, w.row.attempts, w.clock + Delay(w.row.attempts, cfg), cfg), closed := w.closed + 1)
  {
    ThreeSteps(w, Attempt(id, w.clock), cfg);
    var w2 := Next(Next(w, Select(id, w.clock), cfg), Claim(id), cfg);
    assert w2.workers - {id} == w.workers;
  }

  /** Worker 0 claims at the start and sleeps through its lease and its own retry time. */
  function Oversleep(clock: int, cfg: Config): seq<Step> {
    [Select(0, clock), Claim(0), Tick(cfg.leaseMs + cfg.retryMs)]
  }

  function Asleep(clock: int, cfg: Config): World {
    World(clock + cfg.leaseMs + cfg.retryMs, Row(Received, 0, Some(clock + cfg.leaseMs)),
          map[0 := Worker(clock, 0, Some(Claimed(clock + cfg.leaseMs, clock + cfg.retryMs)))], 0)
  }

  lemma OversleepIsReachable(clock: int, cfg: Config)
    ensures Run(Initial(clock), Oversleep(clock, cfg), cfg) == Asleep(clock, cfg)
  {
    ThreeSteps(Initial(clock), Oversleep(clock, cfg), cfg);
    assert Delay(0, cfg) == cfg.retryMs;
  }

  /**
   With any configuration of two attempts or more a stale claim is reachable: another worker selects the bill,
   the sleeper closes with its old retry time, and the other one claims with count 0 and closes, so that two
   failed attempts are counted as one.
   */
  lemma StaleClaimIsReachable(clock: int, cfg: Config)
    requires cfg.Positive() && cfg.maxAttempts >= 2
    ensures var w := Run(Initial(clock), Oversleep(clock, cfg), cfg);
            var v := Run(w, [Select(1, w.clock), Close(0), Claim(1)], cfg);
            && Holds(v, 1) && v.workers[1].seen == 0 && v.row.attempts == 1
            && Next(v, Close(1), cfg).row.attempts == 1 && Next(v, Close(1), cfg).closed == 2
  {
    OversleepIsReachable(clock, cfg);
    var w := Asleep(clock, cfg);
    ThreeSteps(w, [Select(1, w.clock), Close(0), Claim(1)], cfg);
  }

  /**
   With three attempts or more the counter can even go backwards: two attempts of others fail while the sleeper
   holds on to count 0.
   */
  lemma RewindIsReachable(clock: int, cfg: Config) returns (steps: seq<Step>)
    requires cfg.Positive() && cfg.maxAttempts >= 3
    ensures var w := Run(Initial(clock), steps, cfg);
            && Holds(w, 0) && w.row.status.Received? && w.row.attempts == 2 && w.workers[0].seen == 0
            && Next(w, Close(0), cfg).row.attempts == 1 && Next(w, Close(0), cfg).closed == 3
  {
    var w := Asleep(clock, cfg);
    var first := Attempt(1, w.clock);
    OversleepIsReachable(clock, cfg);
    OneAttempt(w, 1, cfg);
    var w1 := Run(w, first, cfg);
    var wait := Tick(Delay(0, cfg));
    OneStep(w1, wait, cfg);
    var w2 := Next(w1, wait, cfg);
    var second := Attempt(2, w2.clock);
    OneAttempt(w2, 2, cfg);
    RunAppend(Initial(clock), Oversleep(clock, cfg), first, cfg);
    RunAppend(Initial(clock), Oversleep(clock, cfg) + first, [wait], cfg);
    RunAppend(Initial(clock), Oversleep(clock, cfg) + first + [wait], second, cfg);
    steps := Oversleep(clock, cfg) + first + [wait] + second;
  }

  // ---------- the backoff ----------

  /** k failed attempts without interference, each made at the instant the previous one asked for. */
  function Rounds(start: int, k: nat, cfg: Config): seq<Step> {
    if k == 0 then []
    else Rounds(start, k - 1, cfg) + (Attempt(k, start + Delay(k - 1, cfg) - cfg.retryMs) + [Tick(Delay(k - 1, cfg))])
  }

  lemma Doubles(k: nat, cfg: Config)
    ensures Delay(k + 1, cfg) == Delay(k, cfg) + Delay(k, cfg)
  {
    var p := Pow2(k);
    assert cfg.retryMs * (2 * p) == cfg.retryMs * p + cfg.retryMs * p;
  }

  /**
   The delays double: k attempts end 2^k - 1 base delays after the first one began, with the bill due again at
   that very instant, until attempt number maxAttempts makes it a dead letter.
   */
  lemma {:induction false} BackoffDoubles(start: int, k: nat, cfg: Config)
    requires cfg.Positive() && k <= cfg.maxAttempts
    ensures var w := Run(Initial(start), Rounds(start, k, cfg), cfg);
            && w.clock == start + (Pow2(k) - 1) * cfg.retryMs == start + Delay(k, cfg) - cfg.retryMs
            && w.workers == map[] && w.closed == k
            && w.row == if k == 0 then Row(Received, 0, None)
                        else if k < cfg.maxAttempts then Row(Received, k, Some(w.clock))
                        else Row(DeadLetter, k, None)
  {
    if k == 0 {
      assert Delay(0, cfg) == cfg.retryMs;
    } else {
      BackoffDoubles(start, k - 1, cfg);
      var w := Run(Initial(start), Rounds(start, k - 1, cfg), cfg);
      var attempt, wait := Attempt(k, w.clock), Tick(Delay(k - 1, cfg));
      OneAttempt(w, k, cfg);
      RunAppend(w, attempt, [wait], cfg);
      OneStep(Run(w, attempt, cfg), wait, cfg);
      RunAppend(Initial(start), Rounds(start, k - 1, cfg), attempt + [wait], cfg);
      Doubles(k - 1, cfg);
    }
  }
}
