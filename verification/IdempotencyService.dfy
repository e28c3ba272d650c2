/** The idempotency service as written: a table of records and a retry loop (lib/idempotency/service.ts). */
module IdempotencyServices {
  import opened Options
  import opened Idempotency

  datatype Key = Key(merchant: string, scope: string, key: string)

  class IdempotencyStore {
    const leaseMs: nat
    var records: map<Key, Record>

    constructor (leaseMs: nat)
      ensures this.leaseMs == leaseMs && records == map[]
    {
      this.leaseMs, records := leaseMs, map[];
    }

    /**
     beginMerchantIdempotencyCommand.  `rival` is the record another process inserts for the same key
     between this call's find and its create, if any: the create then violates the unique index.
     A missing key disables the protocol.
     */
    method BeginMerchantIdempotencyCommand(key: Option<Key>, hash: RequestHash, now: int, rival: Option<Record>)
      returns (result: Option<Result>, passes: nat)
      modifies this
      ensures result.None? <==> key.None?
      ensures key.None? ==> records == old(records)
      ensures passes <= 2 && (passes == 2 ==> key.Some? && key.value !in old(records) && rival.Some?)
      ensures key.Some? ==>
                var k := key.value;
                var raced := k !in old(records) && rival.Some?;
                var found := if k in old(records) then Some(old(records)[k]) else rival;
                && k in records && records == old(records)[k := records[k]]
                && match found
                   case None =>
                     result == Some(Started) && records[k] == Record(hash, Processing, None, None, Some(now + leaseMs), 0)
                   case Some(r) =>
                     var free := || r.status.FailedRetryable?
                                 || (r.status.Processing? && (r.leaseExpiresAt.None? || r.leaseExpiresAt.value <= now));
                     if r.hash != hash then result == Some(Conflict) && records[k] == r
                     else if r.status.Succeeded? || r.status.FailedFinal? then
                       && records[k] == r.(replayCount := r.replayCount + 1)
                       && result == Some(Replay(if r.httpStatus.Some? then r.httpStatus.value else 200,
                                                if r.body.Some? then r.body.value else "{}"))
                     else if free then
                       && result == Some(Started)
                       && records[k] == Record(hash, Processing, None, None, Some(now + leaseMs), r.replayCount)
                     else result == Some(InProgress) && records[k] == r
    {
      passes := 0;
      if key.None? {
        return None, 0;
      }
      var k := key.value;
      while true
        invariant passes <= 1
        invariant passes == 0 ==> records == old(records)
        invariant passes == 1 ==> k !in old(records) && rival.Some? && records == old(records)[k := rival.value]
        decreases 2 - passes
      {
        passes := passes + 1;
        if k !in records {
          if rival.Some? {
            records := records[k := rival.value];
            continue;
          }
          records := records[k := NewRecord(hash, now + leaseMs)];
          return Some(Started), passes;
        }
        var existing := records[k];
        assert records == records[k := existing];
        if existing.hash != hash {
          return Some(Conflict), passes;
        }
        if existing.Final() {
          records := records[k := Replayed(existing)];
          return Some(ReplayOf(existing)), passes;
        }
        if Claimable(existing, hash, now) {
          records := records[k := ClaimedRecord(existing, now + leaseMs)];
          return Some(Started), passes;
        }
        return Some(InProgress), passes;
      }
    }

    /** The three finish functions; `record` is the id begin returned, absent when the protocol is disabled. */
    method Finish(record: Option<Key>, status: RecordStatus, httpStatus: int, body: Body)
      requires !status.Processing? && (record.Some? ==> record.value in records)
      modifies this
      ensures records == if record.None? then old(records)
                         else var r := old(records)[record.value];
                              old(records)[record.value :=
                                Record(r.hash, status, Some(httpStatus), Some(body), None, r.replayCount)]
    {
      if record.Some? {
        records := records[record.value := records[record.value].(
          status := status, httpStatus := Some(httpStatus), body := Some(body), leaseExpiresAt := None)];
      }
    }
  }
}
