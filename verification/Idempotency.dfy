/**
 The idempotency protocol for one (merchant, scope, key) (lib/idempotency/service.ts).

 `beginMerchantIdempotencyCommand` is split at its database calls, so any number of begins, holders
 and clocks interleave between them.
 */
module Idempotency {
  import opened Options

  type RequestHash = string
  type Body = string
  type CommandId = nat

  datatype RecordStatus = Processing | Succeeded | FailedFinal | FailedRetryable

  datatype Record = Record(
    hash: RequestHash, status: RecordStatus, httpStatus: Option<int>, body: Option<Body>,
    leaseExpiresAt: Option<int>, replayCount: nat)
  {
    predicate Final() {
      status.Succeeded? || status.FailedFinal?
    }
  }

  /** What a caller of begin is told. */
  datatype Result = Started | Replay(httpStatus: int, body: Body) | Conflict | InProgress

  const EMPTY_BODY: Body := "{}"

  // ---------- the row-level statements ----------

  function NewRecord(hash: RequestHash, lease: int): Record {
    Record(hash, Processing, None, None, Some(lease), 0)
  }

  predicate LeaseOver(r: Record, now: int) {
    r.leaseExpiresAt.None? || r.leaseExpiresAt.value <= now
  }

  /** The `where` of the claiming update. */
  predicate Claimable(r: Record, hash: RequestHash, now: int) {
    r.hash == hash && (r.status.FailedRetryable? || (r.status.Processing? && LeaseOver(r, now)))
  }

  function ClaimedRecord(r: Record, lease: int): Record {
    r.(status := Processing, httpStatus := None, body := None, leaseExpiresAt := Some(lease))
  }

  function Replayed(r: Record): Record {
    r.(replayCount := r.replayCount + 1)
  }

  function ReplayOf(r: Record): Result {
    Replay(r.httpStatus.GetOr(200), r.body.GetOr(EMPTY_BODY))
  }

  /** The three finish functions differ only in the status; none of them looks at the record first. */
  function FinishedRecord(r: Record, status: RecordStatus, httpStatus: int, body: Body): Record {
    r.(status := status, httpStatus := Some(httpStatus), body := Some(body), leaseExpiresAt := None)
  }

  // ---------- the transition system ----------

  datatype Sight = NotLooked | Saw(record: Option<Record>)

  /** A begin in progress: its clock reading, what its last find saw, and how often it went round. */
  datatype Begin = Begin(hash: RequestHash, now: int, sight: Sight, passes: nat)

  /** A command that was told to start, with the lease it took. */
  datatype Holder = Holder(lease: int, finished: bool)

  /** `latest` is the last command that started; it is history. */
  datatype World = World(
    clock: int, record: Option<Record>, begins: map<CommandId, Begin>, results: map<CommandId, Result>,
    holders: map<CommandId, Holder>, latest: Option<CommandId>)

  datatype Step =
    | Tick(delta: nat)
    | Enter(id: CommandId, hash: RequestHash)
    | Find(id: CommandId)
    | Act(id: CommandId)
    | Finish(id: CommandId, status: RecordStatus, httpStatus: int, body: Body)

  predicate Enabled(w: World, step: Step) {
    match step
    case Tick(_) => true
    case Enter(id, _) => id !in w.begins && id !in w.results
    case Find(id) => id in w.begins && w.begins[id].sight.NotLooked?
    case Act(id) => id in w.begins && w.begins[id].sight.Saw?
    case Finish(id, status, _, _) =>
      id in w.holders && !w.holders[id].finished && w.record.Some? && !status.Processing?
  }

  function Return(w: World, id: CommandId, result: Result): World {
    w.(begins := w.begins - {id}, results := w.results[id := result])
  }

  function Start(w: World, id: CommandId, record: Record, lease: int): World {
    Return(w, id, Started).(
      record := Some(record), holders := w.holders[id := Holder(lease, false)], latest := Some(id))
  }

  /** The statement after a find, by what the find saw. */
  function ActOn(w: World, id: CommandId, b: Begin, leaseMs: nat): World
    requires b.sight.Saw?
  {
    var lease := b.now + leaseMs;
    match b.sight.record
    case None =>
      if w.record.None? then Start(w, id, NewRecord(b.hash, lease), lease)
      else w.(begins := w.begins[id := b.(sight := NotLooked)])
    case Some(seen) =>
      if seen.hash != b.hash then Return(w, id, Conflict)
      else if w.record.None? then w
      else if seen.Final() then
        Return(w, id, ReplayOf(w.record.value)).(record := Some(Replayed(w.record.value)))
      else if Claimable(w.record.value, b.hash, b.now) then
        Start(w, id, ClaimedRecord(w.record.value, lease), lease)
      else Return(w, id, InProgress)
  }

  function Effect(w: World, step: Step, leaseMs: nat): World
    requires Enabled(w, step)
  {
    match step
    case Tick(delta) => w.(clock := w.clock + delta)
    case Enter(id, hash) => w.(begins := w.begins[id := Begin(hash, w.clock, NotLooked, 0)])
    case Find(id) =>
      var b := w.begins[id];
      w.(begins := w.begins[id := b.(sight := Saw(w.record), passes := b.passes + 1)])
    case Act(id) => ActOn(w, id, w.begins[id], leaseMs)
    case Finish(id, status, httpStatus, body) =>
      w.(record := Some(FinishedRecord(w.record.value, status, httpStatus, body)),
         holders := w.holders[id := w.holders[id].(finished := true)])
  }

  function Next(w: World, step: Step, leaseMs: nat): World {
    if Enabled(w, step) then Effect(w, step, leaseMs) else w
  }

  function Run(w: World, steps: seq<Step>, leaseMs: nat): World
    decreases |steps|
  {
    if steps == [] then w else Run(Next(w, steps[0], leaseMs), steps[1..], leaseMs)
  }

  function Initial(clock: int): World {
    World(clock, None, map[], map[], map[], None)
  }

  /** Every holder finishes before its own lease runs out; nothing in the code enforces it. */
  predicate Timely(w: World, step: Step) {
    step.Finish? && Enabled(w, step) ==> w.clock < w.holders[step.id].lease
  }

  predicate AllTimely(w: World, steps: seq<Step>, leaseMs: nat)
    decreases |steps|
  {
    steps != [] ==> Timely(w, steps[0]) && AllTimely(Next(w, steps[0], leaseMs), steps[1..], leaseMs)
  }

  // ---------- invariants ----------

  /** Records are never deleted, so a begin goes round at most twice. */
  predicate PassesOk(b: Begin, record: Option<Record>) {
    && b.passes <= 2
    && (b.sight.NotLooked? && b.passes == 1 ==> record.Some?)
    && (b.sight.NotLooked? ==> b.passes <= 1)
    && (b.sight == Saw(None) ==> b.passes == 1)
    && (b.sight.Saw? && b.sight.record.Some? ==> record.Some?)
  }

  predicate AllPassesOk(w: World) {
    forall id | id in w.begins :: PassesOk(w.begins[id], w.record)
  }

  lemma NextKeepsPasses(w: World, step: Step, leaseMs: nat)
    requires AllPassesOk(w)
    ensures AllPassesOk(Next(w, step, leaseMs))
  {
  }

  /** The retry loop of begin ends within two passes, whatever else happens. */
  lemma {:induction false} AtMostTwoPasses(w: World, steps: seq<Step>, leaseMs: nat)
    requires AllPassesOk(w)
    ensures AllPassesOk(Run(w, steps, leaseMs))
    ensures forall id | id in Run(w, steps, leaseMs).begins :: Run(w, steps, leaseMs).begins[id].passes <= 2
    decreases |steps|
  {
    if steps != [] {
      NextKeepsPasses(w, steps[0], leaseMs);
      AtMostTwoPasses(Next(w, steps[0], leaseMs), steps[1..], leaseMs);
    }
  }

  predicate Live(w: World, id: CommandId) {
    id in w.holders && !w.holders[id].finished && w.clock < w.holders[id].lease
  }

  /** The record mirrors its latest holder. */
  predicate LatestOk(w: World) {
    match w.latest
    case None => w.record.None?
    case Some(id) =>
      && w.record.Some? && id in w.holders
      && (w.record.value.status.Processing? <==> !w.holders[id].finished)
      && (w.record.value.status.Processing? ==> w.record.value.leaseExpiresAt == Some(w.holders[id].lease))
  }

  predicate Inv(w: World) {
    && LatestOk(w)
    && (forall id | id in w.holders && Live(w, id) :: w.latest == Some(id))
    && (forall id | id in w.begins :: w.begins[id].now <= w.clock)
    && w.begins.Keys !! w.results.Keys
    && w.holders.Keys <= w.results.Keys
  }

  lemma NextKeepsLatest(w: World, step: Step, leaseMs: nat)
    requires Inv(w) && Timely(w, step)
    ensures LatestOk(Next(w, step, leaseMs))
  {
    if step.Finish? && Enabled(w, step) {
      assert Live(w, step.id);
    }
  }

  lemma NextKeepsBooks(w: World, step: Step, leaseMs: nat)
    requires Inv(w)
    ensures var v := Next(w, step, leaseMs);
            && (forall id | id in v.begins :: v.begins[id].now <= v.clock)
            && v.begins.Keys !! v.results.Keys && v.holders.Keys <= v.results.Keys
  {
  }

  /** A lease that still runs is not given to anybody else. */
  lemma NextKeepsHolder(w: World, step: Step, leaseMs: nat)
    requires Inv(w) && Timely(w, step)
    ensures var v := Next(w, step, leaseMs); forall id | id in v.holders && Live(v, id) :: v.latest == Some(id)
  {
    var v := Next(w, step, leaseMs);
    forall id | id in v.holders && Live(v, id) ensures v.latest == Some(id) {
      if id in w.holders && Live(w, id) {
        assert w.latest == Some(id);
      }
    }
  }

  /** Timely steps keep the invariant. */
  lemma NextKeepsInv(w: World, step: Step, leaseMs: nat)
    requires Inv(w) && Timely(w, step)
    ensures Inv(Next(w, step, leaseMs))
  {
    NextKeepsLatest(w, step, leaseMs);
    NextKeepsBooks(w, step, leaseMs);
    NextKeepsHolder(w, step, leaseMs);
  }

  lemma {:induction false} RunKeepsInv(w: World, steps: seq<Step>, leaseMs: nat)
    requires Inv(w) && AllTimely(w, steps, leaseMs)
    ensures Inv(Run(w, steps, leaseMs))
    decreases |steps|
  {
    if steps != [] {
      NextKeepsInv(w, steps[0], leaseMs);
      RunKeepsInv(Next(w, steps[0], leaseMs), steps[1..], leaseMs);
    }
  }

  /** At any time at most one started, unfinished command holds an unexpired lease. */
  lemma AtMostOneLiveHolder(clock: int, steps: seq<Step>, leaseMs: nat, a: CommandId, b: CommandId)
    requires AllTimely(Initial(clock), steps, leaseMs)
    requires var w := Run(Initial(clock), steps, leaseMs); Live(w, a) && Live(w, b)
    ensures a == b
  {
    RunKeepsInv(Initial(clock), steps, leaseMs);
  }

  // ---------- final outcomes ----------

  predicate SameOutcome(r: Record, s: Record) {
    r.hash == s.hash && r.status == s.status && r.httpStatus == s.httpStatus && r.body == s.body
  }

  /** Whoever saw a final record saw this one. */
  predicate SightsOk(w: World) {
    && w.record.Some?
    && forall id | id in w.begins && w.begins[id].sight.Saw? && w.begins[id].sight.record.Some? ::
         var seen := w.begins[id].sight.record.value;
         seen.hash == w.record.value.hash && (seen.Final() ==> SameOutcome(seen, w.record.value))
  }

  predicate ToldOutcome(r: Record, result: Result) {
    result == ReplayOf(r) || result == Conflict || result == InProgress
  }

  /** One timely step after a final outcome: it stays, nobody starts, and replays tell it. */
  lemma FinalStep(w: World, step: Step, leaseMs: nat)
    requires Inv(w) && SightsOk(w) && w.record.value.Final() && Timely(w, step)
    ensures var w' := Next(w, step, leaseMs);
            && Inv(w') && SightsOk(w') && SameOutcome(w.record.value, w'.record.value)
            && w'.holders == w.holders
            && forall id | id in w'.results ::
                 if id in w.results then w'.results[id] == w.results[id]
                 else ToldOutcome(w.record.value, w'.results[id])
  {
    NextKeepsInv(w, step, leaseMs);
    if step.Finish? && Enabled(w, step) {
      assert Live(w, step.id);
    }
  }

  /** Sights stay accurate while nothing overwrites a final outcome. */
  lemma NextKeepsSights(w: World, step: Step, leaseMs: nat)
    requires Inv(w) && Timely(w, step) && (w.record.Some? ==> SightsOk(w))
    requires w.record.None? ==> forall id | id in w.begins && w.begins[id].sight.Saw? :: w.begins[id].sight.record.None?
    ensures var w' := Next(w, step, leaseMs);
            && (w'.record.Some? ==> SightsOk(w'))
            && (w'.record.None? ==> forall id | id in w'.begins && w'.begins[id].sight.Saw? :: w'.begins[id].sight.record.None?)
  {
    if step.Finish? && Enabled(w, step) {
      assert Live(w, step.id);
    }
  }

  lemma {:induction false} RunKeepsSights(w: World, steps: seq<Step>, leaseMs: nat)
    requires Inv(w) && AllTimely(w, steps, leaseMs) && (w.record.Some? ==> SightsOk(w))
    requires w.record.None? ==> forall id | id in w.begins && w.begins[id].sight.Saw? :: w.begins[id].sight.record.None?
    ensures var w' := Run(w, steps, leaseMs); Inv(w') && (w'.record.Some? ==> SightsOk(w'))
    decreases |steps|
  {
    if steps != [] {
      NextKeepsInv(w, steps[0], leaseMs);
      NextKeepsSights(w, steps[0], leaseMs);
      RunKeepsSights(Next(w, steps[0], leaseMs), steps[1..], leaseMs);
    }
  }

  lemma {:induction false} FinalRun(w: World, steps: seq<Step>, leaseMs: nat)
    requires Inv(w) && SightsOk(w) && w.record.value.Final() && AllTimely(w, steps, leaseMs)
    ensures var w' := Run(w, steps, leaseMs);
            && w'.record.Some? && SameOutcome(w.record.value, w'.record.value)
            && w'.holders == w.holders
            && forall id | id in w'.results ::
                 if id in w.results then w'.results[id] == w.results[id]
                 else ToldOutcome(w.record.value, w'.results[id])
    decreases |steps|
  {
    if steps != [] {
      FinalStep(w, steps[0], leaseMs);
      FinalRun(Next(w, steps[0], leaseMs), steps[1..], leaseMs);
    }
  }

  /**
   Once a command has finished SUCCEEDED or FAILED_FINAL, then, as long as everyone is timely, the stored
   outcome never changes, no begin ever starts again, and every replay returns that status and body.
   */
  lemma FinalOutcomeIsStable(clock: int, before: seq<Step>, after: seq<Step>, leaseMs: nat)
    requires AllTimely(Initial(clock), before, leaseMs)
    requires var w := Run(Initial(clock), before, leaseMs);
             w.record.Some? && w.record.value.Final() && AllTimely(w, after, leaseMs)
    ensures var w := Run(Initial(clock), before, leaseMs);
            var w' := Run(w, after, leaseMs);
            && w'.record.Some? && SameOutcome(w.record.value, w'.record.value)
            && w'.holders == w.holders
            && forall id | id in w'.results && id !in w.results :: ToldOutcome(w.record.value, w'.results[id])
  {
    RunKeepsSights(Initial(clock), before, leaseMs);
    FinalRun(Run(Initial(clock), before, leaseMs), after, leaseMs);
  }

  /** A timely finish with a final status leaves exactly what it was given. */
  lemma FinishStores(
      clock: int, before: seq<Step>, id: CommandId, status: RecordStatus, httpStatus: int, body: Body, leaseMs: nat)
    requires AllTimely(Initial(clock), before, leaseMs) && (status.Succeeded? || status.FailedFinal?)
    requires var w := Run(Initial(clock), before, leaseMs);
             Enabled(w, Finish(id, status, httpStatus, body)) && Timely(w, Finish(id, status, httpStatus, body))
    ensures var w := Run(Initial(clock), before, leaseMs);
            var v := Next(w, Finish(id, status, httpStatus, body), leaseMs);
            && Inv(v) && SightsOk(v) && v.results == w.results && v.record.value.Final()
            && v.record.value.hash == w.record.value.hash && v.record.value.status == status
            && v.record.value.httpStatus == Some(httpStatus) && v.record.value.body == Some(body)
            && v.record.value.leaseExpiresAt.None?
  {
    RunKeepsSights(Initial(clock), before, leaseMs);
    var w := Run(Initial(clock), before, leaseMs);
    NextKeepsInv(w, Finish(id, status, httpStatus, body), leaseMs);
    NextKeepsSights(w, Finish(id, status, httpStatus, body), leaseMs);
  }

  /**
   What a finish says is what everyone is told: once a command finished SUCCEEDED or FAILED_FINAL, every later result of
   any timely run is a conflict, a notice that work is in progress, or the replay of that very status and body.
   */
  lemma ReplaysTellTheFinish(
      clock: int, before: seq<Step>, id: CommandId, status: RecordStatus, httpStatus: int, body: Body, after: seq<Step>,
      leaseMs: nat)
    requires AllTimely(Initial(clock), before, leaseMs) && (status.Succeeded? || status.FailedFinal?)
    requires var w := Run(Initial(clock), before, leaseMs);
             && Enabled(w, Finish(id, status, httpStatus, body)) && Timely(w, Finish(id, status, httpStatus, body))
             && AllTimely(Next(w, Finish(id, status, httpStatus, body), leaseMs), after, leaseMs)
    ensures var w := Run(Initial(clock), before, leaseMs);
            var v := Run(Next(w, Finish(id, status, httpStatus, body), leaseMs), after, leaseMs);
            forall k | k in v.results && k !in w.results ::
              v.results[k] == Conflict || v.results[k] == InProgress || v.results[k] == Replay(httpStatus, body)
  {
    FinishStores(clock, before, id, status, httpStatus, body, leaseMs);
    var w := Run(Initial(clock), before, leaseMs);
    FinalRun(Next(w, Finish(id, status, httpStatus, body), leaseMs), after, leaseMs);
  }

  /** A begin that has seen nothing, or this final record, or has been answered from it. */
  predicate ToldFrom(w: World, k: CommandId, hash: RequestHash, r: Record) {
    && (k in w.begins ==>
          && w.begins[k].hash == hash
          && (w.begins[k].sight.Saw? ==>
                w.begins[k].sight.record.Some? && SameOutcome(w.begins[k].sight.record.value, r)))
    && (k in w.results ==>
          w.results[k] == if hash == r.hash then Replay(r.httpStatus.GetOr(200), r.body.GetOr("{}")) else Conflict)
    && (k in w.begins || k in w.results)
  }

  lemma {:induction false} LatecomerIsTold(
      w: World, steps: seq<Step>, k: CommandId, hash: RequestHash, r: Record, leaseMs: nat)
    requires Inv(w) && SightsOk(w) && w.record.value.Final() && SameOutcome(w.record.value, r)
    requires AllTimely(w, steps, leaseMs) && ToldFrom(w, k, hash, r)
    ensures ToldFrom(Run(w, steps, leaseMs), k, hash, r)
    decreases |steps|
  {
    if steps != [] {
      FinalStep(w, steps[0], leaseMs);
      LatecomerStep(w, steps[0], k, hash, r, leaseMs);
      LatecomerIsTold(Next(w, steps[0], leaseMs), steps[1..], k, hash, r, leaseMs);
    }
  }

  lemma LatecomerStep(w: World, step: Step, k: CommandId, hash: RequestHash, r: Record, leaseMs: nat)
    requires Inv(w) && SightsOk(w) && w.record.value.Final() && SameOutcome(w.record.value, r)
    requires Timely(w, step) && ToldFrom(w, k, hash, r)
    ensures ToldFrom(Next(w, step, leaseMs), k, hash, r)
  {
  }

  /**
   Whoever comes after the finish is answered, by nothing but its request: the replay of that status and body if the
   request is the same, a conflict if it is another one.
   */
  lemma LateRequestIsAnswered(
      clock: int, before: seq<Step>, id: CommandId, status: RecordStatus, httpStatus: int, body: Body, between: seq<Step>,
      k: CommandId, hash: RequestHash, after: seq<Step>, leaseMs: nat)
    requires AllTimely(Initial(clock), before, leaseMs) && (status.Succeeded? || status.FailedFinal?)
    requires var w := Run(Initial(clock), before, leaseMs);
             && Enabled(w, Finish(id, status, httpStatus, body)) && Timely(w, Finish(id, status, httpStatus, body))
             && AllTimely(Next(w, Finish(id, status, httpStatus, body), leaseMs), between, leaseMs)
             && var u := Run(Next(w, Finish(id, status, httpStatus, body), leaseMs), between, leaseMs);
                Enabled(u, Enter(k, hash)) && AllTimely(Next(u, Enter(k, hash), leaseMs), after, leaseMs)
    ensures var w := Run(Initial(clock), before, leaseMs);
            var u := Run(Next(w, Finish(id, status, httpStatus, body), leaseMs), between, leaseMs);
            var v := Run(Next(u, Enter(k, hash), leaseMs), after, leaseMs);
            k in v.results ==>
              v.results[k] == if hash == w.record.value.hash then Replay(httpStatus, body) else Conflict
  {
    FinishStores(clock, before, id, status, httpStatus, body, leaseMs);
    var w := Run(Initial(clock), before, leaseMs);
    var w1 := Next(w, Finish(id, status, httpStatus, body), leaseMs);
    FinalRun(w1, between, leaseMs);
    RunKeepsInv(w1, between, leaseMs);
    RunKeepsSights(w1, between, leaseMs);
    var u := Run(w1, between, leaseMs);
    FinalStep(u, Enter(k, hash), leaseMs);
    LatecomerIsTold(Next(u, Enter(k, hash), leaseMs), after, k, hash, w1.record.value, leaseMs);
  }

  /** Without that, it is not: a holder whose lease ran out reopens a command that had succeeded. */
  lemma LateFinishReopens(w: World, late: CommandId, again: CommandId, body: Body, leaseMs: nat)
    requires w.record.Some? && w.record.value.Final()
    requires late in w.holders && !w.holders[late].finished
    requires again !in w.begins && again !in w.results
    ensures var w1 := Next(w, Finish(late, FailedRetryable, 500, body), leaseMs);
            var w2 := Next(Next(w1, Enter(again, w.record.value.hash), leaseMs), Find(again), leaseMs);
            var w3 := Next(w2, Act(again), leaseMs);
            && !w1.record.value.Final()
            && again in w3.results && w3.results[again] == Started
  {
  }

  /** Enter, look and act without interference. */
  function Visit(id: CommandId, hash: RequestHash): seq<Step> {
    [Enter(id, hash), Find(id), Act(id)]
  }

  lemma VisitStarts(w: World, id: CommandId, hash: RequestHash, leaseMs: nat)
    requires w.begins == map[] && id !in w.results
    requires w.record.Some? ==> Claimable(w.record.value, hash, w.clock) && !w.record.value.Final()
    ensures var lease := w.clock + leaseMs;
            var replays := if w.record.None? then 0 else w.record.value.replayCount;
            Run(w, Visit(id, hash), leaseMs)
            == Start(w, id, Record(hash, Processing, None, None, Some(lease), replays), lease)
  {
    var w1 := Next(w, Enter(id, hash), leaseMs);
    var w2 := Next(w1, Find(id), leaseMs);
    var w3 := Next(w2, Act(id), leaseMs);
    assert w2.begins == map[id := Begin(hash, w.clock, Saw(w.record), 1)];
    assert w3.begins == map[];
    assert Visit(id, hash)[1..] == [Find(id), Act(id)] && [Find(id), Act(id)][1..] == [Act(id)];
    assert Run(w2, [Act(id)], leaseMs) == Run(w3, [], leaseMs);
  }

  lemma {:induction false} RunSplits(w: World, xs: seq<Step>, ys: seq<Step>, leaseMs: nat)
    ensures Run(w, xs + ys, leaseMs) == Run(Run(w, xs, leaseMs), ys, leaseMs)
    decreases |xs|
  {
    if xs == [] {
      assert xs + ys == ys;
    } else {
      assert (xs + ys)[1..] == xs[1..] + ys;
      RunSplits(Next(w, xs[0], leaseMs), xs[1..], ys, leaseMs);
    }
  }

  lemma VisitIsAnswered(w: World, id: CommandId, hash: RequestHash, leaseMs: nat)
    requires w.begins == map[] && id !in w.results && w.record.Some? && w.record.value.Final()
    ensures var v := Run(w, Visit(id, hash), leaseMs);
            var r := w.record.value;
            && v.results.Keys == w.results.Keys + {id} && (forall k | k in w.results :: v.results[k] == w.results[k])
            && v.results[id] == (if hash == r.hash then Replay(r.httpStatus.GetOr(200), r.body.GetOr("{}")) else Conflict)
            && v.record == Some(r.(replayCount := r.replayCount + if hash == r.hash then 1 else 0))
  {
    var w1 := Next(w, Enter(id, hash), leaseMs);
    var w2 := Next(w1, Find(id), leaseMs);
    assert w2.begins == map[id := Begin(hash, w.clock, Saw(w.record), 1)];
    assert Visit(id, hash)[1..] == [Find(id), Act(id)] && [Find(id), Act(id)][1..] == [Act(id)];
    assert Run(w2, [Act(id)], leaseMs) == Run(Next(w2, Act(id), leaseMs), [Act(id)][1..], leaseMs);
  }

  /** From request to replay: a first request starts, finishes, and a second one is replayed iff it is the same. */
  lemma SameRequestIsReplayed(
      clock: int, hash: RequestHash, again: RequestHash, status: RecordStatus, httpStatus: int, body: Body, leaseMs: nat)
    requires status.Succeeded? || status.FailedFinal?
    ensures var w := Run(Initial(clock), Visit(0, hash), leaseMs);
            var v := Run(Next(w, Finish(0, status, httpStatus, body), leaseMs), Visit(1, again), leaseMs);
            && 0 in v.results && v.results[0] == Started
            && 1 in v.results && v.results[1] == if again == hash then Replay(httpStatus, body) else Conflict
  {
    VisitStarts(Initial(clock), 0, hash, leaseMs);
    var w := Run(Initial(clock), Visit(0, hash), leaseMs);
    VisitIsAnswered(Next(w, Finish(0, status, httpStatus, body), leaseMs), 1, again, leaseMs);
  }

  /** And such a holder is reachable: it took the lease, overslept, and another command took over and succeeded. */
  lemma LateHolderIsReachable(clock: int, hash: RequestHash, body: Body, leaseMs: nat)
    ensures var sleep, done := [Tick(leaseMs)], [Finish(1, Succeeded, 200, body)];
            var w := Run(Initial(clock), Visit(0, hash) + (sleep + (Visit(1, hash) + done)), leaseMs);
            && w.record.Some? && w.record.value.Final()
            && 0 in w.holders && !w.holders[0].finished && !Live(w, 0)
  {
    var sleep, done := [Tick(leaseMs)], [Finish(1, Succeeded, 200, body)];
    RunSplits(Initial(clock), Visit(0, hash), sleep + (Visit(1, hash) + done), leaseMs);
    VisitStarts(Initial(clock), 0, hash, leaseMs);
    var first := Run(Initial(clock), Visit(0, hash), leaseMs);
    RunSplits(first, sleep, Visit(1, hash) + done, leaseMs);
    var slept := first.(clock := clock + leaseMs);
    assert Run(first, sleep, leaseMs) == Run(slept, [], leaseMs);
    RunSplits(slept, Visit(1, hash), done, leaseMs);
    VisitStarts(slept, 1, hash, leaseMs);
    var second := Run(slept, Visit(1, hash), leaseMs);
    assert Run(second, done, leaseMs) == Run(Next(second, done[0], leaseMs), [], leaseMs);
  }
}
