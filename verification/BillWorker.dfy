/** The bill worker as written (runDueCtfBillCaptureMatches in lib/ctf-bill-capture/service.ts). */
module BillWorkers {
  import opened Options
  import opened BillStatuses
  import opened Orders
  import opened BillMatching
  import opened BillSafety
  import opened BillQueues
  import opened Batches
  import opened PaymentGateways
  import BillSchedule
  import Sorting

  /** attemptCount and nextAttemptAt of a bill. */
  datatype Slot = Slot(attempts: nat, next: Option<int>)

  function SlotOf(slots: map<EventId, Slot>, eid: EventId): Slot {
    if eid in slots then slots[eid] else Slot(0, None)
  }

  /** The rows as module BillSchedule sees them. */
  function RowsOf(events: map<EventId, BillEvent>, slots: map<EventId, Slot>): map<EventId, BillSchedule.Row> {
    map eid | eid in events :: BillSchedule.Row(events[eid].status, SlotOf(slots, eid).attempts, SlotOf(slots, eid).next)
  }

  /** Writing one bill and its schedule rewrites one row. */
  lemma OneRowChanges(
      before: map<EventId, BillEvent>, after: map<EventId, BillEvent>, slots: map<EventId, Slot>, eid: EventId, slot: Slot)
    requires eid in before && after.Keys == before.Keys
    requires forall id | id in before && id != eid :: after[id] == before[id]
    ensures RowsOf(after, slots[eid := slot])
         == RowsOf(before, slots)[eid := BillSchedule.Row(after[eid].status, slot.attempts, slot.next)]
  {
  }

  class BillWorker {
    const gateway: PaymentGateway
    const cfg: BillSchedule.Config
    /** A bill without an entry has its defaults: no attempt, due at once. */
    var slots: map<EventId, Slot>

    constructor (gateway: PaymentGateway, cfg: BillSchedule.Config)
      ensures this.gateway == gateway && this.cfg == cfg && slots == map[]
    {
      this.gateway, this.cfg, slots := gateway, cfg, map[];
    }

    function Rows(): map<EventId, BillSchedule.Row>
      reads this, gateway
    {
      RowsOf(gateway.events, slots)
    }

    /** The order of the batch query; `tie` is how the database lists bills with equal keys. */
    function PaidOrder(tie: EventId -> int): (EventId, EventId) -> bool
      reads gateway
    {
      ByKey(PaidKeys(gateway.events), tie)
    }

    /** The batch query: `where`, `orderBy` and `take`. */
    method SelectDue(limit: nat, tie: EventId -> int) returns (ids: seq<EventId>)
      requires TellsApart(tie)
      ensures IsBatch(ids, DueIds(Rows(), gateway.clock), PaidOrder(tie), limit)
      ensures forall id | id in ids :: IsDue(Rows(), id, gateway.clock)
      ensures forall k, l | 0 <= k < l < |ids| :: ids[k] != ids[l]
      ensures OldestFirst(gateway.events, ids, DueIds(Rows(), gateway.clock))
    {
      var due, rows, rest := [], Rows(), gateway.events.Keys;
      while rest != {}
        invariant rest <= rows.Keys
        invariant forall id | id in due :: IsDue(rows, id, gateway.clock) && id !in rest
        invariant forall k, l | 0 <= k < l < |due| :: due[k] != due[l]
        invariant forall id | IsDue(rows, id, gateway.clock) && id !in rest :: id in due
        decreases rest
      {
        var id :| id in rest;
        rest := rest - {id};
        if BillSchedule.Due(rows[id], gateway.clock) {
          due := due + [id];
        }
      }
      assert Elements(due) == DueIds(rows, gateway.clock);
      ByKeyIsTotal(PaidKeys(gateway.events), tie);
      SortedTakeIsBatch(due, DueIds(rows, gateway.clock), PaidOrder(tie), limit);
      ids := Take(Sorting.Sort(due, PaidOrder(tie)), limit);
      BatchIsDueOnce(ids, DueIds(rows, gateway.clock), PaidOrder(tie), limit);
      BatchIsOldestFirst(gateway.events, ids, DueIds(rows, gateway.clock), tie, limit);
    }

    /** Writing a failed attempt back; `updateMany` leaves a bill alone that is no longer RECEIVED. */
    method CloseAttempt(eid: EventId, seen: nat, retryAt: int) returns (deadLetter: bool)
      requires eid in gateway.events && gateway.events[eid].status == Received
      modifies this`slots, gateway`events
      ensures gateway.events.Keys == old(gateway.events).Keys
      ensures Rows() == old(Rows())[eid := BillSchedule.CloseRow(old(Rows())[eid], seen, retryAt, cfg)]
      ensures deadLetter == Rows()[eid].status.DeadLetter?
      ensures gateway.State()
           == if deadLetter then Next(old(gateway.State()), GiveUp(eid), gateway.policy) else old(gateway.State())
    {
      deadLetter := seen + 1 >= cfg.maxAttempts;
      var next := if deadLetter then None else Some(retryAt);
      var event := gateway.events[eid].(status := if deadLetter then DeadLetter else Received);
      OneRowChanges(gateway.events, gateway.events[eid := event], slots, eid, Slot(seen + 1, next));
      slots := slots[eid := Slot(seen + 1, next)];
      gateway.events := gateway.events[eid := event];
    }

    /** The compare-and-set that takes the lease. */
    method ClaimBill(eid: EventId) returns (claimed: bool)
      modifies this`slots
      ensures claimed == IsDue(old(Rows()), eid, gateway.clock)
      ensures Rows() == if claimed then old(Rows())[eid := old(Rows())[eid].(next := Some(gateway.clock + cfg.leaseMs))]
                        else old(Rows())
    {
      claimed := eid in gateway.events && BillSchedule.Due(Rows()[eid], gateway.clock);
      if claimed {
        var slot := Slot(SlotOf(slots, eid).attempts, Some(gateway.clock + cfg.leaseMs));
        OneRowChanges(gateway.events, gateway.events, slots, eid, slot);
        slots := slots[eid := slot];
      }
    }

    /** The match itself, as a run of the gateway; a matched bill is not attempted again. */
    method TryMatch(eid: EventId, hits: set<OrderId>, window: int, lateThrow: bool)
      returns (result: MatchResult, ghost steps: seq<Step>)
      requires eid in gateway.events && gateway.events[eid].status == Received
      requires forall id | id in gateway.orders :: id !in gateway.creating
      modifies gateway, this`slots
      ensures gateway.State() == Run(old(gateway.State()), steps, gateway.policy)
      ensures KeepsShape(old(gateway.State()), gateway.State())
      ensures MatchIsRight(old(gateway.State()), gateway.State(), eid, result, hits, window)
      ensures gateway.State() == AfterMatch(old(gateway.State()), eid, result, hits, window, gateway.policy)
      ensures Rows() == if result.MatchedTo?
                        then old(Rows())[eid := BillSchedule.Row(Matched, old(Rows())[eid].attempts, None)]
                        else old(Rows())
    {
      ghost var start := gateway.State();
      result := gateway.MatchCtfBillCaptureEvent(eid, hits, window, lateThrow);
      steps := MatchSteps(eid, result, hits, window);
      MatchIsRun(start, eid, result, hits, window, gateway.policy);
      assert gateway.State() == Run(start, steps, gateway.policy);
      if result.MatchedTo? {
        var slot := Slot(SlotOf(slots, eid).attempts, None);
        OneRowChanges(start.events, gateway.events, slots, eid, slot);
        slots := slots[eid := slot];
      }
    }

    /** Another worker's claim, made after this worker's batch was selected. */
    method TakeForRival(eid: EventId, lease: int)
      requires eid in gateway.events
      modifies this`slots
      ensures Rows() == old(Rows())[eid := old(Rows())[eid].(next := Some(lease))]
    {
      var slot := Slot(SlotOf(slots, eid).attempts, Some(lease));
      OneRowChanges(gateway.events, gateway.events, slots, eid, slot);
      slots := slots[eid := slot];
    }

    /** One selected bill: claim it, then match it or write the failed attempt back. */
    method AttemptBill(eid: EventId, hits: set<OrderId>, window: int, lateThrow: bool)
      returns (visit: Visited, ghost steps: seq<Step>)
      requires eid in gateway.events && forall id | id in gateway.orders :: id !in gateway.creating
      modifies this`slots, gateway
      ensures gateway.State() == Run(old(gateway.State()), steps, gateway.policy)
      ensures KeepsShape(old(gateway.State()), gateway.State())
      ensures visit.Done? == IsDue(old(Rows()), eid, old(gateway.clock))
      ensures Rows() == if visit.Done? then old(Rows())[eid := After(old(Rows())[eid], IsMatch(visit), gateway.clock, cfg)]
                        else old(Rows())
      ensures visit.Done? ==> ShowsVisit(Rows()[eid], visit)
    {
      ghost var start, rows := gateway.State(), Rows();
      var seen := Rows()[eid].attempts;
      steps := [];
      var claimed := ClaimBill(eid);
      if !claimed {
        return Refused, steps;
      }
      var retryAt := gateway.clock + BillSchedule.Delay(seen, cfg);
      ClaimIsInvisible(rows, eid, Some(gateway.clock + cfg.leaseMs), gateway.clock, cfg);
      var result, deadLetter;
      result, steps := TryMatch(eid, hits, window, lateThrow);
      deadLetter := false;
      if !result.MatchedTo? {
        deadLetter := CloseAttempt(eid, seen, retryAt);
        if deadLetter {
          RunAppend(start, steps, [GiveUp(eid)], gateway.policy);
          OneStep(Run(start, steps, gateway.policy), GiveUp(eid), gateway.policy);
          steps := steps + [GiveUp(eid)];
        }
      }
      visit := Done(result, deadLetter);
    }

    /** One bill of the batch, which another worker may have leased meanwhile. */
    method VisitBill(eid: EventId, hits: set<OrderId>, window: int, lateThrow: bool, rival: Option<int>)
      returns (visit: Visited, ghost steps: seq<Step>)
      requires eid in gateway.events && forall id | id in gateway.orders :: id !in gateway.creating
      modifies this`slots, gateway
      ensures gateway.State() == Run(old(gateway.State()), steps, gateway.policy)
      ensures KeepsShape(old(gateway.State()), gateway.State())
      ensures Rows() == old(Rows())[eid := Tried(old(Rows())[eid], rival, IsMatch(visit), gateway.clock, cfg)]
      ensures visit.Refused? <==> !BillSchedule.Due(Leased(old(Rows())[eid], rival), old(gateway.clock))
      ensures visit.Done? ==> ShowsVisit(Rows()[eid], visit)
    {
      if rival.Some? {
        TakeForRival(eid, rival.value);
      }
      visit, steps := AttemptBill(eid, hits, window, lateThrow);
    }

    /**
     The worker.  `rivals` holds the bills of its batch that other workers lease before it gets to them, `lateThrows`
     those whose payment is written before something throws.  Its whole effect on orders and bills is a run of the
     gateway's transition system.
     */
    method RunDueCtfBillCaptureMatches(
        limit: nat, tie: EventId -> int, hits: EventId -> set<OrderId>, window: int, rivals: map<EventId, int>,
        lateThrows: set<EventId>)
      returns (selected: nat, report: Report, ghost ids: seq<EventId>, ghost visits: seq<Visited>, ghost steps: seq<Step>)
      requires TellsApart(tie) && forall id | id in gateway.orders :: id !in gateway.creating
      modifies this`slots, gateway
      ensures gateway.State() == Run(old(gateway.State()), steps, gateway.policy)
      ensures selected == |ids| && report == ReportOf(visits)
      ensures Shows(Rows(), ids, visits, rivals, old(gateway.clock))
      ensures IsBatch(ids, DueIds(old(Rows()), old(gateway.clock)), old(PaidOrder(tie)), limit)
      ensures OldestFirst(old(gateway.events), ids, DueIds(old(Rows()), old(gateway.clock)))
      ensures Attempted(old(Rows()), Rows(), ids, rivals, old(gateway.clock), cfg)
    {
      var list := SelectDue(limit, tie);
      selected, ids := |list|, list;
      report, visits, steps := VisitEach(list, hits, window, rivals, lateThrows);
    }

    /** The loop over the batch. */
    method VisitEach(
        list: seq<EventId>, hits: EventId -> set<OrderId>, window: int, rivals: map<EventId, int>, lateThrows: set<EventId>)
      returns (report: Report, ghost visits: seq<Visited>, ghost steps: seq<Step>)
      requires forall id | id in gateway.orders :: id !in gateway.creating
      requires forall id | id in list :: IsDue(Rows(), id, gateway.clock)
      requires forall k, l | 0 <= k < l < |list| :: list[k] != list[l]
      modifies this`slots, gateway
      ensures gateway.State() == Run(old(gateway.State()), steps, gateway.policy)
      ensures report == ReportOf(visits) && Shows(Rows(), list, visits, rivals, old(gateway.clock))
      ensures Attempted(old(Rows()), Rows(), list, rivals, old(gateway.clock), cfg)
    {
      visits, steps, report := [], [], Report(0, 0, 0, 0);
      ghost var start, rows := gateway.State(), Rows();
      for i := 0 to |list|
        invariant gateway.State() == Run(start, steps, gateway.policy) && KeepsShape(start, gateway.State())
        invariant |visits| == i && report == ReportOf(visits)
        invariant Shows(Rows(), list[..i], visits, rivals, start.clock)
        invariant Attempted(rows, Rows(), list[..i], rivals, start.clock, cfg)
      {
        ghost var rowsNow := Rows();
        assert list[i] in list;
        AttemptedSoFar(rows, rowsNow, list, i, rivals, start.clock, cfg);
        var visit;
        ghost var more;
        visit, more := VisitBill(list[i], hits(list[i]), window, list[i] in lateThrows, RivalOf(rivals, list[i]));
        VisitedNext(rows, rowsNow, Rows(), list, visits, visit, rivals, start.clock, cfg);
        RunAppend(start, steps, more, gateway.policy);
        ReportPush(visits, visit);
        visits, steps := visits + [visit], steps + more;
        report := report.Bump(visit);
      }
      assert list[..|list|] == list;
    }
  }

  /** Clock, creations in flight and the rows that exist are as before. */
  predicate KeepsShape(g: Gateway, g': Gateway) {
    && g'.clock == g.clock && g'.creating == g.creating
    && g'.orders.Keys == g.orders.Keys && g'.events.Keys == g.events.Keys
  }

  function MatchSteps(eid: EventId, result: MatchResult, hits: set<OrderId>, window: int): seq<Step> {
    match result
    case MatchedTo(id) => [Match(eid, id, hits, window)] + [Mark(eid, id)]
    case ThrewAfterPaying(id) => [Match(eid, id, hits, window)]
    case _ => []
  }

  lemma MatchIsRun(g: Gateway, eid: EventId, result: MatchResult, hits: set<OrderId>, window: int, policy: AmountPolicy)
    ensures AfterMatch(g, eid, result, hits, window, policy) == Run(g, MatchSteps(eid, result, hits, window), policy)
    ensures KeepsShape(g, AfterMatch(g, eid, result, hits, window, policy))
  {
    if result.MatchedTo? || result.ThrewAfterPaying? {
      var pay, mark := Match(eid, result.id, hits, window), Mark(eid, result.id);
      OneStep(g, pay, policy);
      OneStep(Next(g, pay, policy), mark, policy);
      RunAppend(g, [pay], [mark], policy);
    }
  }

  /** How a visit of the batch ended. */
  datatype Visited = Refused | Done(result: MatchResult, deadLetter: bool)

  predicate IsMatch(v: Visited) {
    v.Done? && v.result.MatchedTo?
  }

  /** A visited bill is MATCHED or in DEAD_LETTER iff its visit says so. */
  predicate ShowsVisit(row: BillSchedule.Row, v: Visited)
    requires v.Done?
  {
    (IsMatch(v) <==> row.status == Matched) && (v.deadLetter <==> row.status == DeadLetter)
  }

  /** The table shows what the visits report. */
  predicate Shows(rows: Rows, ids: seq<EventId>, visits: seq<Visited>, rivals: map<EventId, int>, now: int) {
    && |visits| == |ids|
    && forall k | 0 <= k < |ids| ::
         && ids[k] in rows
         && (visits[k].Refused? <==> ids[k] in rivals && rivals[ids[k]] > now)
         && (visits[k].Done? ==> ShowsVisit(rows[ids[k]], visits[k]))
  }

  /** The next bill's row is still untouched. */
  lemma AttemptedSoFar(
      before: Rows, rows: Rows, ids: seq<EventId>, i: nat, rivals: map<EventId, int>, now: int, cfg: BillSchedule.Config)
    requires i < |ids| && (forall k, l | 0 <= k < l < |ids| :: ids[k] != ids[l])
    requires IsDue(before, ids[i], now) && Attempted(before, rows, ids[..i], rivals, now, cfg)
    ensures ids[i] in rows && rows[ids[i]] == before[ids[i]] && IsDue(rows, ids[i], now)
  {
    AttemptedNext(before, rows, ids, i, rivals, now, cfg);
  }

  /** One more visit: one more bill attempted, and the table shows it. */
  lemma VisitedNext(
      before: Rows, rows: Rows, rows': Rows, ids: seq<EventId>, visits: seq<Visited>, v: Visited, rivals: map<EventId, int>,
      now: int, cfg: BillSchedule.Config)
    requires |visits| < |ids| && (forall k, l | 0 <= k < l < |ids| :: ids[k] != ids[l])
    requires Attempted(before, rows, ids[..|visits|], rivals, now, cfg) && Shows(rows, ids[..|visits|], visits, rivals, now)
    requires var id := ids[|visits|];
             && IsDue(before, id, now) && IsDue(rows, id, now)
             && rows' == rows[id := Tried(rows[id], RivalOf(rivals, id), IsMatch(v), now, cfg)]
             && (v.Refused? <==> !BillSchedule.Due(Leased(rows[id], RivalOf(rivals, id)), now))
             && (v.Done? ==> ShowsVisit(rows'[id], v))
    ensures Attempted(before, rows', ids[..|visits| + 1], rivals, now, cfg)
    ensures Shows(rows', ids[..|visits| + 1], visits + [v], rivals, now)
  {
    AttemptedNext(before, rows, ids, |visits|, rivals, now, cfg);
    ShowsNext(rows, rows', ids, visits, v, rivals, now);
  }

  /** A visit changes its own bill's row only. */
  lemma ShowsNext(
      rows: Rows, rows': Rows, ids: seq<EventId>, visits: seq<Visited>, v: Visited, rivals: map<EventId, int>, now: int)
    requires |visits| < |ids| && (forall k, l | 0 <= k < l < |ids| :: ids[k] != ids[l])
    requires var id := ids[|visits|];
             && id in rows && IsDue(rows, id, now) && id in rows' && rows' == rows[id := rows'[id]]
             && (v.Refused? <==> !BillSchedule.Due(Leased(rows[id], RivalOf(rivals, id)), now))
             && (v.Done? ==> ShowsVisit(rows'[id], v))
    requires Shows(rows, ids[..|visits|], visits, rivals, now)
    ensures Shows(rows', ids[..|visits| + 1], visits + [v], rivals, now)
  {
  }

  /** The counters of a pass. */
  datatype Report = Report(matched: nat, stillOpen: nat, errors: nat, deadLetters: nat) {
    function Bump(v: Visited): Report {
      match v
      case Refused => this
      case Done(MatchedTo(_), _) => this.(matched := matched + 1)
      case Done(NotMatched, dead) => this.(stillOpen := stillOpen + 1, deadLetters := deadLetters + if dead then 1 else 0)
      case Done(_, dead) => this.(errors := errors + 1, deadLetters := deadLetters + if dead then 1 else 0)
    }
  }

  function ReportOf(visits: seq<Visited>): Report {
    if visits == [] then Report(0, 0, 0, 0) else ReportOf(visits[..|visits| - 1]).Bump(visits[|visits| - 1])
  }

  lemma ReportPush(visits: seq<Visited>, v: Visited)
    ensures ReportOf(visits + [v]) == ReportOf(visits).Bump(v)
  {
    assert (visits + [v])[..|visits|] == visits;
  }

  /** The visits that end in a certain way. */
  function Where(visits: seq<Visited>, ends: Visited -> bool): set<nat> {
    set k: nat | k < |visits| && ends(visits[k])
  }

  lemma WherePush(visits: seq<Visited>, v: Visited, ends: Visited -> bool)
    ensures |Where(visits + [v], ends)| == |Where(visits, ends)| + if ends(v) then 1 else 0
  {
    var before := Where(visits, ends);
    assert Where(visits + [v], ends) == if ends(v) then before + {|visits|} else before;
  }

  /** Each counter is the number of visits that ended its way; refused visits are counted by none. */
  lemma {:induction false} ReportCounts(visits: seq<Visited>)
    requires forall k | 0 <= k < |visits| :: IsMatch(visits[k]) ==> !visits[k].deadLetter
    ensures var r := ReportOf(visits);
            && r.matched == |Where(visits, (v: Visited) => v.Done? && v.result.MatchedTo?)|
            && r.stillOpen == |Where(visits, (v: Visited) => v.Done? && v.result.NotMatched?)|
            && r.errors == |Where(visits, (v: Visited) =>
                 v.Done? && (v.result.MatchThrew? || v.result.ThrewAfterPaying?))|
            && r.deadLetters == |Where(visits, (v: Visited) => v.Done? && v.deadLetter)|
    decreases |visits|
  {
    if visits != [] {
      var front, v := visits[..|visits| - 1], visits[|visits| - 1];
      assert visits == front + [v];
      ReportCounts(front);
      ReportPush(front, v);
      WherePush(front, v, (v: Visited) => v.Done? && v.result.MatchedTo?);
      WherePush(front, v, (v: Visited) => v.Done? && v.result.NotMatched?);
      WherePush(front, v, (v: Visited) => v.Done? && (v.result.MatchThrew? || v.result.ThrewAfterPaying?));
      WherePush(front, v, (v: Visited) => v.Done? && v.deadLetter);
    }
  }
}
