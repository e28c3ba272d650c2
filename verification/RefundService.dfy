/** The refund service as written, for one paid order (lib/refunds/service.ts). */
module RefundServices {
  import opened Options
  import opened Refunds

  /** What a provider operation reports, that it threw, or that something threw after its report was applied. */
  datatype Reply =
    | Said(providerStatus: string, succeeds: bool)
    | Threw
    | SaidThenThrew(providerStatus: string, succeeds: bool)

  /** The refunds after the provider call at the end of creation; whatever throws marks the refund FAILED. */
  function AfterReply(w: World, i: nat, reply: Reply): World {
    match reply
    case Said(providerStatus, succeeds) => Next(w, Notify(i, providerStatus, succeeds))
    case Threw => Next(w, CreationFails(i))
    case SaidThenThrew(providerStatus, succeeds) => Next(Next(w, Notify(i, providerStatus, succeeds)), CreationFails(i))
  }

  /** Whatever throws leaves the refund FAILED; a reply that does not throw is one more word of the provider. */
  lemma ThrownReplyFails(w: World, i: nat, reply: Reply)
    requires i < |w.refunds|
    ensures var v := AfterReply(w, i, reply);
            && |v.refunds| == |w.refunds| && v.refunds[i].amount == w.refunds[i].amount
            && (forall k | 0 <= k < |w.refunds| && k != i :: v.refunds[k] == w.refunds[k])
            && v.refunds[i].status
               == if reply.Said? then Resolve(w.refunds[i].status, reply.providerStatus, reply.succeeds) else Failed
  {
  }

  /** The refunds after the provider was asked about one of them, if it could be. */
  function Queried(w: World, i: nat, query: Option<(string, bool)>): World {
    match query
    case None => w
    case Some(word) => Next(w, Notify(i, word.0, word.1))
  }

  /** The provider's answer is heard before anything is decided: it is one word about that refund and no other. */
  lemma QueryIsHeard(w: World, i: nat, query: Option<(string, bool)>)
    requires i < |w.refunds|
    ensures var v := Queried(w, i, query);
            && |v.refunds| == |w.refunds| && v.refunds[i].amount == w.refunds[i].amount
            && (forall k | 0 <= k < |w.refunds| && k != i :: v.refunds[k] == w.refunds[k])
            && v.refunds[i].status
               == if query.Some? then Resolve(w.refunds[i].status, query.value.0, query.value.1) else w.refunds[i].status
  {
  }

  datatype Result = Created(index: nat) | Retried(index: nat) | Existing(index: nat) | Rejected(error: RefundError)

  class RefundService {
    const orderAmount: int
    var refunds: seq<Refund>
    /** The unique index on (merchant, externalRefundId). */
    var index: map<string, nat>
    ghost var revived: int
    ghost var paid: int
    ghost var fallen: int

    constructor (orderAmount: int)
      requires orderAmount >= 0
      ensures Valid() && this.orderAmount == orderAmount && State() == World(orderAmount, [], 0, 0, 0)
    {
      this.orderAmount, refunds, index := orderAmount, [], map[];
      revived, paid, fallen := 0, 0, 0;
    }

    ghost function State(): World
      reads this
    {
      World(orderAmount, refunds, revived, paid, fallen)
    }

    ghost predicate Valid()
      reads this
    {
      && Bounded(State()) && Accounted(State())
      && forall id | id in index :: index[id] < |refunds|
    }

    method GetReservedRefundAmount(excluded: Option<nat>) returns (sum: int)
      ensures sum == ReservedExcept(refunds, excluded)
    {
      var counted := if excluded.Some? && excluded.value < |refunds|
                     then refunds[excluded.value := Refund(0, Failed)] else refunds;
      sum := 0;
      for i := 0 to |refunds|
        invariant sum == Reserved(counted[..i])
      {
        assert counted[..i + 1] == counted[..i] + [counted[i]];
        ReservedAppend(counted[..i], counted[i]);
        if !counted[i].status.Failed? {
          sum := sum + counted[i].amount;
        }
      }
      assert counted[..|refunds|] == counted;
    }

    method ApplyPaymentRefundNotification(i: nat, providerStatus: string, succeeds: bool)
      requires Valid() && i < |refunds|
      modifies this`refunds, this`revived, this`paid
      ensures Valid() && |refunds| == |old(refunds)|
      ensures State() == Next(old(State()), Notify(i, providerStatus, succeeds))
    {
      NextIsBounded(State(), Notify(i, providerStatus, succeeds));
      NextIsAccounted(State(), Notify(i, providerStatus, succeeds));
      var status := Resolve(refunds[i].status, providerStatus, succeeds);
      if refunds[i].status.Failed? && !status.Failed? {
        revived := revived + refunds[i].amount;
      }
      if !refunds[i].status.Succeeded? && status.Succeeded? {
        paid := paid + refunds[i].amount;
      }
      refunds := refunds[i := refunds[i].(status := status)];
    }

    /** The provider call at the end of creation, with the catch around it. */
    method SettleCreation(i: nat, reply: Reply)
      requires Valid() && i < |refunds|
      modifies this`refunds, this`revived, this`paid, this`fallen
      ensures Valid() && |refunds| == |old(refunds)|
      ensures State() == AfterReply(old(State()), i, reply)
    {
      if !reply.Threw? {
        ApplyPaymentRefundNotification(i, reply.providerStatus, reply.succeeds);
      }
      if !reply.Said? {
        NextIsBounded(State(), CreationFails(i));
        NextIsAccounted(State(), CreationFails(i));
        if refunds[i].status.Succeeded? {
          fallen := fallen + refunds[i].amount;
        }
        refunds := refunds[i := refunds[i].(status := Failed)];
      }
    }

    /** What follows for a refund that already exists: ask about it, and try again if it has failed. */
    method RepeatPaymentRefund(i: nat, amount: int, query: Option<(string, bool)>, reply: Reply)
      returns (result: Result, ghost admitted: World)
      requires Valid() && i < |refunds|
      modifies this`refunds, this`revived, this`paid, this`fallen
      ensures Valid() && |refunds| == |old(refunds)|
      ensures match result
              case Created(_) => false
              case Retried(k) =>
                && k == i && -1 <= old(refunds)[i].amount - amount <= 1
                && Enabled(Queried(old(State()), i, query), Retry(i, amount))
                && admitted == Next(Queried(old(State()), i, query), Retry(i, amount))
                && Reserved(admitted.refunds) <= orderAmount + 1 && State() == AfterReply(admitted, i, reply)
              case Existing(k) =>
                && k == i && -1 <= refunds[i].amount - amount <= 1
                && State() == Queried(old(State()), i, query) && !refunds[i].status.Failed?
              case Rejected(AmountConflict) =>
                State() == old(State()) && !(-1 <= refunds[i].amount - amount <= 1)
              case Rejected(error) =>
                && State() == Queried(old(State()), i, query)
                && -1 <= refunds[i].amount - amount <= 1 && refunds[i].status.Failed?
                && AmountError(amount, orderAmount - ReservedExcept(refunds, Some(i))) == Some(error)
    {
      admitted := State();
      if refunds[i].amount - amount > 1 || amount - refunds[i].amount > 1 {
        return Rejected(AmountConflict), admitted;
      }
      if query.Some? {
        ApplyPaymentRefundNotification(i, query.value.0, query.value.1);
      }
      if !refunds[i].status.Failed? {
        return Existing(i), admitted;
      }
      var reserved := GetReservedRefundAmount(Some(i));
      var error := AmountError(amount, orderAmount - reserved);
      if error.Some? {
        return Rejected(error.value), admitted;
      }
      NextIsBounded(State(), Retry(i, amount));
      NextIsAccounted(State(), Retry(i, amount));
      refunds := refunds[i := Refund(amount, Pending)];
      revived := 0;
      admitted := State();
      SettleCreation(i, reply);
      return Retried(i), admitted;
    }

    /**
     createMerchantPaymentRefund.  `query` is the provider's word on a refund that already exists, if it can
     be asked.  `admitted` is the state after the reservation: whatever is admitted, the order was not overdrawn
     by more than a cent at that moment.
     */
    method CreateMerchantPaymentRefund(externalId: string, amount: int, query: Option<(string, bool)>, reply: Reply)
      returns (result: Result, ghost admitted: World)
      requires Valid()
      modifies this
      ensures Valid()
      ensures externalId !in old(index) ==>
                match result
                case Created(i) =>
                  && i == |old(refunds)| && index == old(index)[externalId := i]
                  && admitted.refunds == old(refunds) + [Refund(amount, Pending)]
                  && Enabled(old(State()), Create(amount)) && admitted == Next(old(State()), Create(amount))
                  && Reserved(admitted.refunds) <= orderAmount + 1 && State() == AfterReply(admitted, i, reply)
                case Rejected(error) =>
                  && State() == old(State()) && index == old(index)
                  && AmountError(amount, orderAmount - Reserved(refunds)) == Some(error)
                case _ => false
      ensures externalId in old(index) ==>
                var i := old(index)[externalId];
                var asked := Queried(old(State()), i, query);
                && index == old(index) && |refunds| == |old(refunds)|
                && match result
                   case Created(_) => false
                   case Retried(k) =>
                     && k == i && -1 <= old(refunds)[i].amount - amount <= 1
                     && Enabled(asked, Retry(i, amount)) && admitted == Next(asked, Retry(i, amount))
                     && i < |asked.refunds| && admitted.refunds == asked.refunds[i := Refund(amount, Pending)]
                     && Reserved(admitted.refunds) <= orderAmount + 1 && State() == AfterReply(admitted, i, reply)
                   case Existing(k) =>
                     k == i && -1 <= refunds[i].amount - amount <= 1 && State() == asked && !refunds[i].status.Failed?
                   case Rejected(AmountConflict) => State() == old(State()) && !(-1 <= refunds[i].amount - amount <= 1)
                   case Rejected(error) =>
                     && State() == asked && -1 <= refunds[i].amount - amount <= 1 && refunds[i].status.Failed?
                     && AmountError(amount, orderAmount - ReservedExcept(refunds, Some(i))) == Some(error)
    {
      if externalId in index {
        result, admitted := RepeatPaymentRefund(index[externalId], amount, query, reply);
        return;
      }
      admitted := State();
      var reserved := GetReservedRefundAmount(None);
      var error := AmountError(amount, orderAmount - reserved);
      if error.Some? {
        return Rejected(error.value), admitted;
      }
      NextIsBounded(State(), Create(amount));
      NextIsAccounted(State(), Create(amount));
      var i := |refunds|;
      refunds := refunds + [Refund(amount, Pending)];
      revived := 0;
      index := index[externalId := i];
      admitted := State();
      SettleCreation(i, reply);
      return Created(i), admitted;
    }
  }
}
