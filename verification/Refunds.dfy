/**
 Refund reservation (lib/refunds/service.ts, lib/refunds/status.ts) for one paid order: the refund table
 restricted to the order, as an append-only sequence.  Amounts are integer cents.  Creation runs under
 a lock on the order row and is one step; so is the retry of a failed refund, which the source does
 not lock.
 */
module Refunds {
  import opened Options
  import PaymentStatuses

  datatype RefundStatus = Pending | Processing | Succeeded | Failed

  datatype Refund = Refund(amount: int, status: RefundStatus)

  // ---------- refunds/status.ts ----------

  function Resolve(current: RefundStatus, providerStatus: string, succeeds: bool): RefundStatus {
    if succeeds then Succeeded
    else if PaymentStatuses.MentionsAny(providerStatus, ["SUCCESS", "FINISH"]) then Succeeded
    else if PaymentStatuses.MentionsAny(providerStatus, ["PROCESS", "PENDING", "WAIT", "ACCEPT"]) then
      if current.Succeeded? then current else Processing
    else if PaymentStatuses.MentionsAny(providerStatus, ["FAIL", "CLOSE", "CANCEL", "ABNORMAL", "ERROR"]) then
      if current.Succeeded? then current else Failed
    else
      if current.Succeeded? then current else Processing
  }

  /**
   What a provider's text does to a refund: a word of success is final, and of the others the first class that has a word
   in the text decides, PROCESSING being the answer to a text without any.
   */
  lemma TextDecides(current: RefundStatus, text: string)
    ensures var success := PaymentStatuses.Mentions(text, "SUCCESS") || PaymentStatuses.Mentions(text, "FINISH");
            var waiting := || PaymentStatuses.Mentions(text, "PROCESS") || PaymentStatuses.Mentions(text, "PENDING")
                           || PaymentStatuses.Mentions(text, "WAIT") || PaymentStatuses.Mentions(text, "ACCEPT");
            var failing := || PaymentStatuses.Mentions(text, "FAIL") || PaymentStatuses.Mentions(text, "CLOSE")
                           || PaymentStatuses.Mentions(text, "CANCEL") || PaymentStatuses.Mentions(text, "ABNORMAL")
                           || PaymentStatuses.Mentions(text, "ERROR");
            && Resolve(current, text, true) == Succeeded
            && Resolve(current, text, false)
               == if success || current.Succeeded? then Succeeded else if failing && !waiting then Failed else Processing
  {
    var successes, waits := ["SUCCESS", "FINISH"], ["PROCESS", "PENDING", "WAIT", "ACCEPT"];
    var failures := ["FAIL", "CLOSE", "CANCEL", "ABNORMAL", "ERROR"];
    assert successes[0] == "SUCCESS" && successes[1] == "FINISH";
    assert waits[0] == "PROCESS" && waits[1] == "PENDING" && waits[2] == "WAIT" && waits[3] == "ACCEPT";
    assert failures[0] == "FAIL" && failures[1] == "CLOSE" && failures[2] == "CANCEL" && failures[3] == "ABNORMAL";
    assert failures[4] == "ERROR";
    forall i: nat | i < 2 && PaymentStatuses.Mentions(text, successes[i])
      ensures PaymentStatuses.MentionsAny(text, successes) {
      PaymentStatuses.MentionsOneOf(text, successes, i);
    }
    forall i: nat | i < 4 && PaymentStatuses.Mentions(text, waits[i])
      ensures PaymentStatuses.MentionsAny(text, waits) {
      PaymentStatuses.MentionsOneOf(text, waits, i);
    }
    forall i: nat | i < 5 && PaymentStatuses.Mentions(text, failures[i])
      ensures PaymentStatuses.MentionsAny(text, failures) {
      PaymentStatuses.MentionsOneOf(text, failures, i);
    }
  }

  // ---------- reservation ----------

  function Reserves(r: Refund): int {
    if r.status.Failed? then 0 else r.amount
  }

  /** The sum over PENDING, PROCESSING and SUCCEEDED refunds. */
  function Reserved(refunds: seq<Refund>): int {
    if refunds == [] then 0 else Reserves(refunds[0]) + Reserved(refunds[1..])
  }

  /** getReservedRefundAmount with its optional exclusion. */
  function ReservedExcept(refunds: seq<Refund>, excluded: Option<nat>): int {
    if excluded.Some? && excluded.value < |refunds|
    then Reserved(refunds[excluded.value := Refund(0, Failed)])
    else Reserved(refunds)
  }

  datatype RefundError = InvalidAmount | AmountExceeded | AmountConflict

  /** assertRefundAmount: one cent of tolerance above what is available. */
  function AmountError(requested: int, available: int): Option<RefundError> {
    if requested <= 0 then Some(InvalidAmount)
    else if requested - available > 1 then Some(AmountExceeded)
    else None
  }

  /** An amount is admitted iff it is positive and at most a cent above what is available. */
  lemma AmountErrorMeans(requested: int, available: int)
    ensures AmountError(requested, available).None? <==> 0 < requested <= available + 1
    ensures AmountError(requested, available) == Some(InvalidAmount) <==> requested <= 0
    ensures AmountError(requested, available) != Some(AmountConflict)
  {
  }

  // ---------- the transition system ----------

  /**
   `revived`, `paid` and `fallen` are history: what providers brought back from FAILED since a reservation was last
   checked, what was ever paid back, and what of that was marked FAILED afterwards.
   */
  datatype World = World(orderAmount: int, refunds: seq<Refund>, revived: int, paid: int, fallen: int)

  datatype Step =
    | Create(amount: int)
    | Retry(i: nat, amount: int)
    | Notify(i: nat, providerStatus: string, succeeds: bool)
    | CreationFails(i: nat)

  predicate Enabled(w: World, step: Step) {
    match step
    case Create(amount) => AmountError(amount, w.orderAmount - Reserved(w.refunds)).None?
    case Retry(i, amount) =>
      && i < |w.refunds| && w.refunds[i].status.Failed?
      && -1 <= w.refunds[i].amount - amount <= 1
      && AmountError(amount, w.orderAmount - ReservedExcept(w.refunds, Some(i))).None?
    case Notify(i, _, _) => i < |w.refunds|
    case CreationFails(i) => i < |w.refunds|
  }

  /** A refund is tried again iff it failed, for its old amount up to a cent, and within what the other refunds leave. */
  lemma RetryIsAdmittedIff(w: World, i: nat, amount: int)
    requires i < |w.refunds|
    ensures Enabled(w, Retry(i, amount)) <==>
            && w.refunds[i].status == Failed && -1 <= w.refunds[i].amount - amount <= 1
            && 0 < amount <= w.orderAmount - Reserved(w.refunds) + 1
  {
    ReservedExceptOne(w.refunds, i);
  }

  function Next(w: World, step: Step): World {
    if !Enabled(w, step) then w
    else match step
      case Create(amount) => w.(refunds := w.refunds + [Refund(amount, Pending)], revived := 0)
      case Retry(i, amount) => w.(refunds := w.refunds[i := Refund(amount, Pending)], revived := 0)
      case Notify(i, providerStatus, succeeds) =>
        var r := w.refunds[i];
        var r' := r.(status := Resolve(r.status, providerStatus, succeeds));
        w.(refunds := w.refunds[i := r'],
           revived := w.revived + (if r.status.Failed? && !r'.status.Failed? then r.amount else 0),
           paid := w.paid + (if !r.status.Succeeded? && r'.status.Succeeded? then r.amount else 0))
      case CreationFails(i) =>
        w.(refunds := w.refunds[i := w.refunds[i].(status := Failed)],
           fallen := w.fallen + if w.refunds[i].status.Succeeded? then w.refunds[i].amount else 0)
  }

  function Run(w: World, steps: seq<Step>): World
    decreases |steps|
  {
    if steps == [] then w else Run(Next(w, steps[0]), steps[1..])
  }

  // ---------- sums ----------

  lemma {:induction false} ReservedUpdate(refunds: seq<Refund>, i: nat, r: Refund)
    requires i < |refunds|
    ensures Reserved(refunds[i := r]) == Reserved(refunds) - Reserves(refunds[i]) + Reserves(r)
  {
    if i == 0 {
      assert refunds[0 := r][1..] == refunds[1..];
    } else {
      assert refunds[i := r][1..] == refunds[1..][i - 1 := r];
      ReservedUpdate(refunds[1..], i - 1, r);
    }
  }

  lemma {:induction false} ReservedAppend(refunds: seq<Refund>, r: Refund)
    ensures Reserved(refunds + [r]) == Reserved(refunds) + Reserves(r)
  {
    if refunds == [] {
      assert refunds + [r] == [r];
      assert Reserved([r]) == Reserves(r) + Reserved([]);
    } else {
      assert (refunds + [r])[1..] == refunds[1..] + [r];
      ReservedAppend(refunds[1..], r);
    }
  }

  lemma ReservedExceptOne(refunds: seq<Refund>, i: nat)
    requires i < |refunds|
    ensures ReservedExcept(refunds, Some(i)) == Reserved(refunds) - Reserves(refunds[i])
  {
    ReservedUpdate(refunds, i, Refund(0, Failed));
  }

  // ---------- the bound ----------

  predicate Bounded(w: World) {
    && (forall i | 0 <= i < |w.refunds| :: w.refunds[i].amount > 0)
    && w.revived >= 0
    && Reserved(w.refunds) <= w.orderAmount + 1 + w.revived
  }

  lemma NextIsBounded(w: World, step: Step)
    requires Bounded(w)
    ensures Bounded(Next(w, step))
    ensures (step.Create? || step.Retry?) && Enabled(w, step) ==> Reserved(Next(w, step).refunds) <= w.orderAmount + 1
  {
    if Enabled(w, step) {
      match step {
        case Create(amount) => ReservedAppend(w.refunds, Refund(amount, Pending));
        case Retry(i, amount) =>
          ReservedExceptOne(w.refunds, i);
          ReservedUpdate(w.refunds, i, Refund(amount, Pending));
        case Notify(i, _, _) => ReservedUpdate(w.refunds, i, Next(w, step).refunds[i]);
        case CreationFails(i) => ReservedUpdate(w.refunds, i, Next(w, step).refunds[i]);
      }
    }
  }

  /**
   Over every run, what the table has reserved never exceeds the order by more than one cent plus the refunds a
   provider revived from FAILED since the last check.  What was really paid back is the matter of PaidIsBounded.
   */
  lemma {:induction false} RefundsAreBounded(w: World, steps: seq<Step>)
    requires Bounded(w)
    ensures Bounded(Run(w, steps))
    decreases |steps|
  {
    if steps != [] {
      NextIsBounded(w, steps[0]);
      RefundsAreBounded(Next(w, steps[0]), steps[1..]);
    }
  }

  /** The texts that resolveRefundStatus classes as failure. */
  predicate ReadsAsFailure(providerStatus: string) {
    && !PaymentStatuses.MentionsAny(providerStatus, ["SUCCESS", "FINISH"])
    && !PaymentStatuses.MentionsAny(providerStatus, ["PROCESS", "PENDING", "WAIT", "ACCEPT"])
    && PaymentStatuses.MentionsAny(providerStatus, ["FAIL", "CLOSE", "CANCEL", "ABNORMAL", "ERROR"])
  }

  /** A notification about a FAILED refund that says anything but failure. */
  predicate Revives(w: World, step: Step) {
    && step.Notify? && step.i < |w.refunds| && w.refunds[step.i].status.Failed?
    && (step.succeeds || !ReadsAsFailure(step.providerStatus))
  }

  predicate NeverRevives(w: World, steps: seq<Step>)
    decreases |steps|
  {
    steps != [] ==> !Revives(w, steps[0]) && NeverRevives(Next(w, steps[0]), steps[1..])
  }

  /** So without revivals the order amount is exceeded by at most one cent. */
  lemma {:induction false} RefundsStayWithinOrder(w: World, steps: seq<Step>)
    requires Bounded(w) && w.revived == 0 && NeverRevives(w, steps)
    ensures Run(w, steps).revived == 0
    ensures Reserved(Run(w, steps).refunds) <= w.orderAmount + 1
    decreases |steps|
  {
    if steps != [] {
      NextIsBounded(w, steps[0]);
      RefundsStayWithinOrder(Next(w, steps[0]), steps[1..]);
    }
  }

  /** Outside creation the reserved sum grows iff a refund is revived, and then by its whole amount. */
  lemma ReservationGrowsOnlyByRevival(w: World, step: Step)
    requires Bounded(w) && (step.Notify? || step.CreationFails?)
    ensures var grown := Reserved(Next(w, step).refunds) - Reserved(w.refunds);
            if Revives(w, step) then grown == w.refunds[step.i].amount > 0 else grown <= 0
  {
    if Enabled(w, step) {
      ReservedUpdate(w.refunds, step.i, Next(w, step).refunds[step.i]);
    }
  }

  /** So a notification takes the sum past the limit iff it revives a refund larger than what is left below it. */
  lemma LimitIsPassedIffRevived(w: World, step: Step)
    requires Bounded(w) && step.Notify? && Reserved(w.refunds) <= w.orderAmount + 1
    ensures Reserved(Next(w, step).refunds) > w.orderAmount + 1
        <==> Revives(w, step) && w.refunds[step.i].amount > w.orderAmount + 1 - Reserved(w.refunds)
  {
    ReservationGrowsOnlyByRevival(w, step);
  }

  /** The cent above the order amount is really admitted, and no more than that. */
  lemma OneCentMoreIsAdmitted(orderAmount: int, excess: int)
    requires orderAmount > 0 && excess >= 0
    ensures var w := Next(World(orderAmount, [], 0, 0, 0), Create(orderAmount + excess));
            Reserved(w.refunds) == if excess <= 1 then orderAmount + excess else 0
  {
    var w := World(orderAmount, [], 0, 0, 0);
    ReservedAppend(w.refunds, Refund(orderAmount + excess, Pending));
  }

  /** Revival is real: a failed full refund, a second full refund, and a late success of the first pay twice. */
  lemma RevivalCanPayTwice(amount: int)
    requires amount > 0
    ensures var w := Run(World(amount, [], 0, 0, 0), [Create(amount), CreationFails(0), Create(amount), Notify(0, "", true)]);
            w.revived == amount && Reserved(w.refunds) == 2 * amount
  {
    var steps := [Create(amount), CreationFails(0), Create(amount), Notify(0, "", true)];
    var failed, pending, paid := Refund(amount, Failed), Refund(amount, Pending), Refund(amount, Succeeded);
    var w1 := Next(World(amount, [], 0, 0, 0), Create(amount));
    assert w1.refunds == [pending];
    var w2 := Next(w1, CreationFails(0));
    assert w2.refunds == [failed] && Reserved([failed]) == Reserved([failed][1..]) == 0;
    var w3 := Next(w2, Create(amount));
    assert w3.refunds == [failed, pending];
    var w4 := Next(w3, Notify(0, "", true));
    assert w4.refunds == [paid, pending] && [paid, pending][1..] == [pending] && [pending][1..] == [];
    assert Run(w3, [steps[3]]) == Run(w4, []);
    assert Run(w2, [steps[2], steps[3]]) == Run(w3, [steps[3]]);
    assert Run(w1, [steps[1], steps[2], steps[3]]) == Run(w2, [steps[2], steps[3]]);
    assert steps[1..] == [steps[1], steps[2], steps[3]];
  }

  // ---------- what was paid back ----------

  /** The sum over SUCCEEDED refunds. */
  function Standing(refunds: seq<Refund>): int {
    if refunds == [] then 0
    else (if refunds[0].status.Succeeded? then refunds[0].amount else 0) + Standing(refunds[1..])
  }

  lemma {:induction false} StandingUpdate(refunds: seq<Refund>, i: nat, r: Refund)
    requires i < |refunds|
    ensures Standing(refunds[i := r]) == Standing(refunds)
            - (if refunds[i].status.Succeeded? then refunds[i].amount else 0) + (if r.status.Succeeded? then r.amount else 0)
  {
    if i == 0 {
      assert refunds[0 := r][1..] == refunds[1..];
    } else {
      assert refunds[i := r][1..] == refunds[1..][i - 1 := r];
      StandingUpdate(refunds[1..], i - 1, r);
    }
  }

  lemma {:induction false} StandingAppend(refunds: seq<Refund>, r: Refund)
    ensures Standing(refunds + [r]) == Standing(refunds) + if r.status.Succeeded? then r.amount else 0
  {
    if refunds == [] {
      assert refunds + [r] == [r];
      assert Standing([r]) == (if r.status.Succeeded? then r.amount else 0) + Standing([r][1..]);
    } else {
      assert (refunds + [r])[1..] == refunds[1..] + [r];
      StandingAppend(refunds[1..], r);
    }
  }

  lemma {:induction false} StandingIsReserved(refunds: seq<Refund>)
    requires forall i | 0 <= i < |refunds| :: refunds[i].amount > 0
    ensures Standing(refunds) <= Reserved(refunds)
  {
    if refunds != [] {
      StandingIsReserved(refunds[1..]);
    }
  }

  /** Everything paid back still stands as SUCCEEDED, or has fallen. */
  predicate Accounted(w: World) {
    w.paid == Standing(w.refunds) + w.fallen
  }

  lemma NextIsAccounted(w: World, step: Step)
    requires Bounded(w) && Accounted(w)
    ensures Accounted(Next(w, step))
    ensures Next(w, step).fallen >= w.fallen
  {
    if Enabled(w, step) {
      match step {
        case Create(amount) => StandingAppend(w.refunds, Refund(amount, Pending));
        case Retry(i, amount) => StandingUpdate(w.refunds, i, Refund(amount, Pending));
        case Notify(i, providerStatus, succeeds) =>
          StandingUpdate(w.refunds, i, Next(w, step).refunds[i]);
        case CreationFails(i) => StandingUpdate(w.refunds, i, Next(w, step).refunds[i]);
      }
    }
  }

  /**
   Over every run, what providers really paid back is at most the order amount, one cent, the refunds they revived
   since the last check, and the paid refunds that a failing creation marked FAILED.
   */
  lemma {:induction false} PaidIsBounded(w: World, steps: seq<Step>)
    requires Bounded(w) && Accounted(w)
    ensures var v := Run(w, steps);
            Accounted(v) && v.paid <= v.orderAmount + 1 + v.revived + v.fallen && v.orderAmount == w.orderAmount
    decreases |steps|
  {
    if steps == [] {
      StandingIsReserved(w.refunds);
    } else {
      NextIsBounded(w, steps[0]);
      NextIsAccounted(w, steps[0]);
      PaidIsBounded(Next(w, steps[0]), steps[1..]);
    }
  }

  /** A creation that fails after its refund was paid. */
  predicate Fells(w: World, step: Step) {
    step.CreationFails? && step.i < |w.refunds| && w.refunds[step.i].status.Succeeded?
  }

  predicate NeverFells(w: World, steps: seq<Step>)
    decreases |steps|
  {
    steps != [] ==> !Fells(w, steps[0]) && NeverFells(Next(w, steps[0]), steps[1..])
  }

  /** So if nothing is revived and no paid refund falls, the order is paid back at most once, and a cent. */
  lemma {:induction false} PaidStaysWithinOrder(w: World, steps: seq<Step>)
    requires Bounded(w) && Accounted(w) && w.revived == 0 && w.fallen == 0
    requires NeverRevives(w, steps) && NeverFells(w, steps)
    ensures Run(w, steps).paid <= w.orderAmount + 1
    decreases |steps|
  {
    if steps == [] {
      StandingIsReserved(w.refunds);
    } else {
      NextIsBounded(w, steps[0]);
      NextIsAccounted(w, steps[0]);
      PaidStaysWithinOrder(Next(w, steps[0]), steps[1..]);
    }
  }

  /**
   Falling is enough to pay twice, without any revival: a full refund is paid, its creation then fails, and since
   the table shows nothing reserved, a second full refund is created and paid.
   */
  lemma FallenRefundIsPaidAgain(amount: int)
    requires amount > 0
    ensures var start := World(amount, [], 0, 0, 0);
            var steps := [Create(amount), Notify(0, "", true), CreationFails(0), Create(amount), Notify(1, "", true)];
            var w := Run(start, steps);
            NeverRevives(start, steps) && w.revived == 0 && Reserved(w.refunds) == amount && w.paid == 2 * amount
  {
    var w0 := World(amount, [], 0, 0, 0);
    var steps := [Create(amount), Notify(0, "", true), CreationFails(0), Create(amount), Notify(1, "", true)];
    var failed, pending, paid := Refund(amount, Failed), Refund(amount, Pending), Refund(amount, Succeeded);
    var w1 := World(amount, [pending], 0, 0, 0);
    var w2 := World(amount, [paid], 0, amount, 0);
    var w3 := World(amount, [failed], 0, amount, amount);
    var w4 := World(amount, [failed, pending], 0, amount, amount);
    var w5 := World(amount, [failed, paid], 0, 2 * amount, amount);
    assert Reserved([]) == 0 && [failed][1..] == [] && Reserved([failed]) == 0;
    assert [failed, paid][1..] == [paid] && [paid][1..] == [] && Reserved([failed, paid]) == amount;
    assert Next(w0, steps[0]) == w1 && Next(w1, steps[1]) == w2 && Next(w2, steps[2]) == w3;
    assert Next(w3, steps[3]) == w4 && Next(w4, steps[4]) == w5;
    FiveSteps(w0, steps);
  }

  /** A run of five steps, spelled out. */
  lemma FiveSteps(w: World, steps: seq<Step>)
    requires |steps| == 5
    ensures var w1 := Next(w, steps[0]);
            var w2 := Next(w1, steps[1]);
            var w3 := Next(w2, steps[2]);
            var w4 := Next(w3, steps[3]);
            && Run(w, steps) == Next(w4, steps[4])
            && (NeverRevives(w, steps) <==> !Revives(w, steps[0]) && !Revives(w1, steps[1]) && !Revives(w2, steps[2])
                                            && !Revives(w3, steps[3]) && !Revives(w4, steps[4]))
  {
    var w1 := Next(w, steps[0]);
    var w2 := Next(w1, steps[1]);
    var w3 := Next(w2, steps[2]);
    var w4 := Next(w3, steps[3]);
    var s1, s2, s3, s4 := steps[1..], steps[2..], steps[3..], steps[4..];
    assert s1[1..] == s2 && s2[1..] == s3 && s3[1..] == s4 && s4[1..] == [];
    assert Run(w4, s4) == Run(Next(w4, s4[0]), s4[1..]);
    assert Run(w3, s3) == Run(w4, s3[1..]);
    assert Run(w2, s2) == Run(w3, s2[1..]);
    assert Run(w1, s1) == Run(w2, s1[1..]);
    assert NeverRevives(w4, s4) <==> !Revives(w4, s4[0]) && NeverRevives(Next(w4, s4[0]), s4[1..]);
    assert NeverRevives(w3, s3) <==> !Revives(w3, s3[0]) && NeverRevives(w4, s3[1..]);
    assert NeverRevives(w2, s2) <==> !Revives(w2, s2[0]) && NeverRevives(w3, s2[1..]);
    assert NeverRevives(w1, s1) <==> !Revives(w1, s1[0]) && NeverRevives(w2, s1[1..]);
  }

  // ---------- success is final ----------

  function ResolveAll(current: RefundStatus, words: seq<(string, bool)>): RefundStatus
    decreases |words|
  {
    if words == [] then current else ResolveAll(Resolve(current, words[0].0, words[0].1), words[1..])
  }

  /** The provider's flag or text says that the refund was paid. */
  predicate SaysPaid(word: (string, bool)) {
    word.1 || PaymentStatuses.Mentions(word.0, "SUCCESS") || PaymentStatuses.Mentions(word.0, "FINISH")
  }

  /** Provider notifications never take a refund out of SUCCEEDED, and any word of success puts it there for good. */
  lemma {:induction false} SuccessIsFinal(current: RefundStatus, words: seq<(string, bool)>, k: nat)
    requires current.Succeeded? || (k < |words| && SaysPaid(words[k]))
    ensures ResolveAll(current, words).Succeeded?
    decreases |words|
  {
    if words != [] {
      var next := Resolve(current, words[0].0, words[0].1);
      TextDecides(current, words[0].0);
      SuccessIsFinal(next, words[1..], if k == 0 then 0 else k - 1);
    }
  }
}
