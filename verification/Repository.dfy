/** The outbox repository: each method is a transaction or a single statement on the shared table. The table as
    the database sees it is a field; NOW(), the rows that other transactions have locked, and the faults of the
    connection are parameters. */
module Repository {
  import opened Wrappers
  import opened Outbox

  datatype Result<+T> = Ok(value: T) | Err(error: Failure)

  datatype Failure = DatabaseError | NoSuchRow

  /** Where a claim transaction breaks off. After a failed COMMIT the caller cannot tell whether it took effect. */
  datatype ClaimFault = NoFault | BeginFails | QueryFails | ScanFails(row: nat) | UpdateFails
      | CommitFails(applied: bool)

  /** Whether the caller of a claim that selects `n` rows gets an error. */
  predicate Breaks(fault: ClaimFault, n: nat) {
    match fault
    case NoFault => false
    case BeginFails => true
    case QueryFails => true
    case ScanFails(row) => row < n
    case UpdateFails => n > 0
    case CommitFails(_) => true
  }

  /** What a claim under this fault can have selected. */
  ghost predicate Chosen(table: Table, now: Time, locked: set<Uuid>, limit: nat, fault: ClaimFault, ids: seq<Uuid>) {
    if fault == BeginFails || fault == QueryFails then ids == [] else OldestFirst(table, now, locked, limit, ids)
  }

  /** A statement that succeeds, fails without effect, or takes effect but reports an error. */
  datatype Fault = Fine | Lost | AnswerLost

  /** The answer to the claim query: the oldest claimable unlocked rows, in order, as many as the limit allows. */
  ghost predicate OldestFirst(table: Table, now: Time, locked: set<Uuid>, limit: nat, ids: seq<Uuid>) {
    && Distinct(ids) && |ids| <= limit
    && (forall id :: id in ids ==> id in table && Claimable(table[id], now) && id !in locked)
    && (forall i, j :: 0 <= i < j < |ids| ==> table[ids[i]].createdAt <= table[ids[j]].createdAt)
    && (forall id :: id in table && Claimable(table[id], now) && id !in locked && id !in ids ==>
          |ids| == limit && forall i :: 0 <= i < |ids| ==> table[ids[i]].createdAt <= table[id].createdAt)
  }

  lemma OldestFirstMeans(table: Table, now: Time, locked: set<Uuid>, limit: nat, ids: seq<Uuid>)
    requires OldestFirst(table, now, locked, limit, ids)
    ensures |ids| <= limit && forall i, j :: 0 <= i < j < |ids| ==>
      ids[i] != ids[j] && ids[i] in table && ids[j] in table
      && table[ids[i]].createdAt <= table[ids[j]].createdAt
    ensures forall id :: id in ids ==>
      id in table && table[id].status == Pending && table[id].availableAt <= now && id !in locked
    ensures forall id :: id in table && table[id].status == Pending && table[id].availableAt <= now
                         && id !in locked && id !in ids ==>
      |ids| == limit && forall i :: 0 <= i < |ids| ==> table[ids[i]].createdAt <= table[id].createdAt
  {
  }

  function StaleRows(table: Table, staleAfter: Time, now: Time, locked: set<Uuid>): set<Uuid> {
    set id | id in table && Stale(table[id], staleAfter, now) && id !in locked
  }

  method Oldest(table: Table, candidates: set<Uuid>) returns (oldest: Uuid)
    requires candidates != {} && candidates <= table.Keys
    ensures oldest in candidates
    ensures forall id :: id in candidates ==> table[oldest].createdAt <= table[id].createdAt
  {
    oldest :| oldest in candidates;
    var rest := candidates - {oldest};
    while rest != {}
      invariant rest <= candidates && oldest in candidates
      invariant forall id :: id in candidates && id !in rest ==> table[oldest].createdAt <= table[id].createdAt
      decreases |rest|
    {
      var id :| id in rest;
      if table[id].createdAt < table[oldest].createdAt {
        oldest := id;
      }
      rest := rest - {id};
    }
  }

  class OutboxRepository {
    var table: Table

    constructor (table: Table)
      ensures this.table == table
    {
      this.table := table;
    }

    /** The claim query itself: rows that are PENDING, due and not locked, oldest first; one is left behind only when
        the limit is reached and it is no older than those taken. */
    method Select(now: Time, locked: set<Uuid>, limit: nat) returns (ids: seq<Uuid>)
      ensures OldestFirst(table, now, locked, limit, ids)
      ensures |ids| <= limit && forall i, j :: 0 <= i < j < |ids| ==>
        ids[i] != ids[j] && ids[i] in table && ids[j] in table
        && table[ids[i]].createdAt <= table[ids[j]].createdAt
      ensures forall id :: id in ids ==>
        id in table && table[id].status == Pending && table[id].availableAt <= now && id !in locked
      ensures forall id :: id in table && table[id].status == Pending && table[id].availableAt <= now
                           && id !in locked && id !in ids ==>
        |ids| == limit && forall i :: 0 <= i < |ids| ==> table[ids[i]].createdAt <= table[id].createdAt
    {
      ids := Pick(now, locked, limit);
      OldestFirstMeans(table, now, locked, limit, ids);
    }

    /** One oldest candidate after the other, up to the limit. */
    method Pick(now: Time, locked: set<Uuid>, limit: nat) returns (ids: seq<Uuid>)
      ensures OldestFirst(table, now, locked, limit, ids)
    {
      hide Claimable;
      ids := [];
      var candidates := set id | id in table && Claimable(table[id], now) && id !in locked;
      while |ids| < limit && candidates != {}
        invariant Distinct(ids) && |ids| <= limit
        invariant forall id :: id in ids ==>
            id in table && Claimable(table[id], now) && id !in locked && id !in candidates
        invariant forall i, j :: 0 <= i < j < |ids| ==> table[ids[i]].createdAt <= table[ids[j]].createdAt
        invariant forall id :: id in candidates ==> id in table && Claimable(table[id], now) && id !in locked
        invariant forall id :: id in table && Claimable(table[id], now) && id !in locked ==>
            id in ids || id in candidates
        invariant forall i, id :: 0 <= i < |ids| && id in candidates ==> table[ids[i]].createdAt <= table[id].createdAt
        decreases |candidates|
      {
        var oldest := Oldest(table, candidates);
        candidates := candidates - {oldest};
        ids := ids + [oldest];
      }
    }

    /** On success the oldest claimable rows are in PROCESSING under this transaction's stamp, and the caller has
        their copies; on failure nothing has changed, unless only the answer to COMMIT was lost. `claimed` tells what
        the database selected; a caller of the original sees it in a successful result only. */
    method ClaimPending(now: Time, locked: set<Uuid>, limit: nat, fault: ClaimFault)
        returns (result: Result<seq<OutboxEvent>>, claimed: seq<Uuid>)
      modifies this
      ensures Chosen(old(table), now, locked, limit, fault, claimed)
      ensures result == if Breaks(fault, |claimed|) then Err(DatabaseError) else Ok(Snapshots(old(table), claimed))
      ensures table == if result.Ok? || fault == CommitFails(true)
                       then StampRows(old(table), claimed, now) else old(table)
      ensures result.Ok? <==>
        fault == NoFault || (fault.ScanFails? && fault.row >= |claimed|) || (fault == UpdateFails && claimed == [])
      ensures forall id :: id in claimed ==>
        id in old(table) && old(table)[id].status == Pending && old(table)[id].availableAt <= now && id !in locked
      ensures forall id :: id in old(table) ==>
        id in table && table[id] == if id in claimed && (result.Ok? || fault == CommitFails(true))
                                    then old(table)[id].(status := Processing, processingAt := Some(now))
                                    else old(table)[id]
      ensures result.Ok? ==> |result.value| == |claimed| && forall i :: 0 <= i < |claimed| ==>
        var row := old(table)[claimed[i]];
        result.value[i] == OutboxEvent(claimed[i], row.eventId, row.eventType, row.payload, Processing, row.attempts,
                                       row.availableAt, row.createdAt, row.publishedAt, row.lastError)
    {
      claimed := [];
      if fault == BeginFails || fault == QueryFails {
        return Err(DatabaseError), [];
      }
      var rows := Select(now, locked, limit);
      claimed := rows;
      var events: seq<OutboxEvent> := [];
      var i := 0;
      while i < |rows|
        invariant 0 <= i == |events| <= |rows|
        invariant forall k :: 0 <= k < i ==> events[k] == Scan(rows[k], table[rows[k]])
        invariant table == old(table)
        invariant fault.ScanFails? ==> i <= fault.row
      {
        if fault == ScanFails(i) {
          return Err(DatabaseError), claimed;
        }
        events := events + [Scan(rows[i], table[rows[i]])];
        i := i + 1;
      }
      if |events| == 0 {
        assert StampRows(table, [], now) == table;
        if fault.CommitFails? {
          return Err(DatabaseError), claimed;
        }
        return Ok(events), claimed;
      }
      var ids: seq<Uuid> := [];
      for j := 0 to |events|
        invariant |ids| == j
        invariant forall k :: 0 <= k < j ==> ids[k] == rows[k]
      {
        ids := ids + [events[j].id];
      }
      assert ids == rows;
      if fault == UpdateFails || fault == CommitFails(false) {
        return Err(DatabaseError), claimed;
      }
      table := StampRows(table, ids, now);
      if fault.CommitFails? {
        return Err(DatabaseError), claimed;
      }
      for j := 0 to |events|
        invariant |events| == |rows|
        invariant forall k :: 0 <= k < j ==> events[k] == Snapshot(rows[k], old(table)[rows[k]])
        invariant forall k :: j <= k < |events| ==> events[k] == Scan(rows[k], old(table)[rows[k]])
        invariant table == StampRows(old(table), rows, now)
      {
        events := events[j := events[j].(status := Processing)];
      }
      assert events == Snapshots(old(table), rows);
      return Ok(events), claimed;
    }

    /** Exactly the stale rows that nobody has locked go back to PENDING, and their number is reported. */
    method ReclaimStale(staleAfter: Time, now: Time, locked: set<Uuid>, fault: Fault) returns (result: Result<nat>)
      modifies this
      ensures var stale := StaleRows(old(table), staleAfter, now, locked);
        && table == (if fault == Lost then old(table) else ReclaimRows(old(table), stale, now))
        && result == (if fault == Fine then Ok(|stale|) else Err(DatabaseError))
      ensures table.Keys == old(table).Keys
      ensures forall id :: id in old(table) ==>
        var row := old(table)[id];
        table[id] == if fault != Lost && id !in locked && row.status == Processing
                        && (row.processingAt == None || row.processingAt.value <= now - staleAfter)
                     then row.(status := Pending, availableAt := now, processingAt := None) else row
    {
      if fault == Lost {
        return Err(DatabaseError);
      }
      var stale := StaleRows(table, staleAfter, now, locked);
      table := ReclaimRows(table, stale, now);
      return if fault == AnswerLost then Err(DatabaseError) else Ok(|stale|);
    }

    method MarkPublished(id: Uuid, now: Time, fault: Fault) returns (error: Option<Failure>)
      modifies this
      ensures table == (if fault == Lost then old(table) else PublishRow(old(table), id, now))
      ensures table == if fault == Lost || id !in old(table) then old(table)
                       else old(table)[id := old(table)[id].(status := Published, publishedAt := Some(now))]
      ensures error == None <==> fault == Fine && id in old(table)
    {
      if fault == Lost {
        return Some(DatabaseError);
      }
      var affected := id in table;
      table := PublishRow(table, id, now);
      if fault == AnswerLost {
        return Some(DatabaseError);
      }
      return if affected then None else Some(NoSuchRow);
    }

    method MarkFailed(id: Uuid, errMsg: string, nextAttemptAt: Time, fault: Fault) returns (error: Option<Failure>)
      modifies this
      ensures table == (if fault == Lost then old(table) else FailRow(old(table), id, errMsg, nextAttemptAt))
      ensures table == if fault == Lost || id !in old(table) || old(table)[id].status != Processing then old(table)
                       else old(table)[id := old(table)[id].(status := Pending, attempts := old(table)[id].attempts + 1,
                                                             availableAt := nextAttemptAt, lastError := Some(errMsg))]
      ensures error == None <==> fault == Fine && InProcessing(old(table), id)
    {
      if fault == Lost {
        return Some(DatabaseError);
      }
      var affected := InProcessing(table, id);
      table := FailRow(table, id, errMsg, nextAttemptAt);
      if fault == AnswerLost {
        return Some(DatabaseError);
      }
      return if affected then None else Some(NoSuchRow);
    }

    method MarkClose(id: Uuid, errMsg: string, fault: Fault) returns (error: Option<Failure>)
      modifies this
      ensures table == (if fault == Lost then old(table) else CloseRow(old(table), id, errMsg))
      ensures table == if fault == Lost || id !in old(table) || old(table)[id].status != Processing then old(table)
                       else old(table)[id := old(table)[id].(status := Close, lastError := Some(errMsg))]
      ensures error == None <==> fault == Fine && InProcessing(old(table), id)
    {
      if fault == Lost {
        return Some(DatabaseError);
      }
      var affected := InProcessing(table, id);
      table := CloseRow(table, id, errMsg);
      if fault == AnswerLost {
        return Some(DatabaseError);
      }
      return if affected then None else Some(NoSuchRow);
    }
  }
}
