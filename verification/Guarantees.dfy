/** The promises of the outbox over every schedule: what PUBLISHED means, how often an event can be
    delivered, how far the retry budget holds, and what a closed row went through. */
module Guarantees {
  import opened Wrappers
  import opened Outbox
  import opened Protocol
  import opened Agreement
  import opened Accounting

  /** How many acknowledged messages carry this key. */
  function Deliveries(log: seq<Message>, key: Uuid): nat {
    if log == [] then 0
    else Deliveries(log[..|log| - 1], key) + (if log[|log| - 1].key == key then 1 else 0)
  }

  /** How often a schedule returns the row to PENDING through the reclaim statement. */
  function ReclaimsIn(run: seq<Action>, id: Uuid): nat {
    if run == [] then 0
    else
      var a := run[|run| - 1];
      ReclaimsIn(run[..|run| - 1], id) + (if a.Reclaim? && id in a.stale then 1 else 0)
  }

  lemma {:induction false} DeliveriesAppend(log: seq<Message>, m: Message, key: Uuid)
    ensures Deliveries(log + [m], key) == Deliveries(log, key) + (if m.key == key then 1 else 0)
  {
    assert (log + [m])[..|log|] == log;
  }

  /** The broker's log and the books agree, and every message belongs to a row. */
  ghost predicate LogAgrees(s: State) {
    && (forall id :: id in s.rows ==> Deliveries(s.acked, s.rows[id].eventId) == s.Of(id).acks)
    && (forall key :: (forall id :: id in s.rows ==> s.rows[id].eventId != key) ==> Deliveries(s.acked, key) == 0)
  }

  lemma AcksOnlyByAck(cfg: Config, s: State, a: Action, id: Uuid)
    requires Consistent(cfg, s) && Enabled(cfg, s, a) && id in s.rows && !a.PublishAck?
    ensures Next(cfg, s, a).Of(id).acks == s.Of(id).acks && Next(cfg, s, a).acked == s.acked
  {
  }

  lemma LogAgreesOnAck(cfg: Config, s: State, a: Action)
    requires Consistent(cfg, s) && LogAgrees(s) && Enabled(cfg, s, a) && a.PublishAck?
    ensures LogAgrees(Next(cfg, s, a))
  {
    var s' := Next(cfg, s, a);
    var e := Head(s, a.w);
    assert WorkerOk(s, s.workers[a.w]) && Agrees(s, e);
    forall key ensures Deliveries(s'.acked, key) == Deliveries(s.acked, key) + (if key == e.eventId then 1 else 0) {
      DeliveriesAppend(s.acked, Message(e.eventId, e.payload), key);
    }
    forall id | id in s'.rows ensures Deliveries(s'.acked, s'.rows[id].eventId) == s'.Of(id).acks {
      assert id != e.id ==> s.rows[id].eventId != s.rows[e.id].eventId;
    }
  }

  lemma LogAgreesKept(cfg: Config, s: State, a: Action)
    requires Consistent(cfg, s) && LogAgrees(s) && Enabled(cfg, s, a)
    ensures LogAgrees(Next(cfg, s, a))
  {
    if a.PublishAck? {
      LogAgreesOnAck(cfg, s, a);
    } else {
      var s' := Next(cfg, s, a);
      RowsEvolve(cfg, s, a);
      assert s'.acked == s.acked;
      forall id | id in s'.rows ensures Deliveries(s.acked, s'.rows[id].eventId) == s'.Of(id).acks {
        if id in s.rows {
          AcksOnlyByAck(cfg, s, a, id);
          assert RowEvolves(s.rows[id], s'.rows[id]);
        } else {
          assert a.Ingest? && a.id == id;
        }
      }
      forall key | forall id :: id in s'.rows ==> s'.rows[id].eventId != key ensures Deliveries(s.acked, key) == 0 {
        forall id | id in s.rows ensures s.rows[id].eventId != key {
          assert RowEvolves(s.rows[id], s'.rows[id]);
        }
      }
    }
  }

  lemma {:induction false} LogAlwaysAgrees(cfg: Config, run: seq<Action>)
    requires Exec(cfg, run).Some?
    ensures LogAgrees(Exec(cfg, run).value)
  {
    if run != [] {
      var before := run[..|run| - 1];
      LogAlwaysAgrees(cfg, before);
      AlwaysConsistent(cfg, before);
      LogAgreesKept(cfg, Exec(cfg, before).value, run[|run| - 1]);
    }
  }

  lemma ReclaimStep(cfg: Config, s: State, a: Action, id: Uuid)
    requires Consistent(cfg, s) && Enabled(cfg, s, a)
    ensures Next(cfg, s, a).Of(id).reclaims == s.Of(id).reclaims + (if a.Reclaim? && id in a.stale then 1 else 0)
  {
    if a.Ingest? {
      assert a.id !in s.hist;
    }
  }

  lemma {:induction false} ReclaimsCounted(cfg: Config, run: seq<Action>, id: Uuid)
    requires Exec(cfg, run).Some?
    ensures Exec(cfg, run).value.Of(id).reclaims == ReclaimsIn(run, id)
    ensures cfg.staleTimeout <= 0 ==> ReclaimsIn(run, id) == 0
  {
    if run != [] {
      var before := run[..|run| - 1];
      ReclaimsCounted(cfg, before, id);
      AlwaysConsistent(cfg, before);
      ReclaimStep(cfg, Exec(cfg, before).value, run[|run| - 1], id);
    }
  }

  /** Duplicates are paid for by reclaims: over every schedule of any number of workers, an event is
      acknowledged at most once more often than it was reclaimed. While the row is still PENDING, or in
      the hands of workers that have not been answered or have been refused, the bound is that much lower. */
  lemma {:induction false} DuplicateBound(cfg: Config, run: seq<Action>, id: Uuid)
    requires Exec(cfg, run).Some? && id in Exec(cfg, run).value.rows
    ensures var s := Exec(cfg, run).value;
      Deliveries(s.acked, s.rows[id].eventId)
        + Total(cfg, Open, s.workers, id) + Total(cfg, Failed, s.workers, id)
        + (if s.rows[id].status == Pending then 1 else 0) + s.Of(id).closes
        <= 1 + ReclaimsIn(run, id)
  {
    AlwaysBalanced(cfg, run, id);
    LogAlwaysAgrees(cfg, run);
    ReclaimsCounted(cfg, run, id);
  }

  /** With reclaiming switched off, every event is acknowledged at most once. */
  lemma AtMostOnceWithoutReclaim(cfg: Config, run: seq<Action>, key: Uuid)
    requires Exec(cfg, run).Some? && cfg.staleTimeout <= 0
    ensures Deliveries(Exec(cfg, run).value.acked, key) <= 1
  {
    var s := Exec(cfg, run).value;
    LogAlwaysAgrees(cfg, run);
    if id :| id in s.rows && s.rows[id].eventId == key {
      DuplicateBound(cfg, run, id);
      ReclaimsCounted(cfg, run, id);
    }
  }

  /** The retry budget over every schedule: stale copies push a row past it by no more than the other
      workers, and by no more than the row was reclaimed. */
  lemma {:induction false} RetryBudget(cfg: Config, run: seq<Action>, id: Uuid)
    requires Exec(cfg, run).Some? && id in Exec(cfg, run).value.rows
    ensures Exec(cfg, run).value.rows[id].attempts <= cfg.maxRetries + Overshoot(cfg, ReclaimsIn(run, id))
    ensures Exec(cfg, run).value.Of(id).claims
         <= 1 + cfg.maxRetries + Overshoot(cfg, ReclaimsIn(run, id)) + ReclaimsIn(run, id)
  {
    AlwaysBalanced(cfg, run, id);
    ReclaimsCounted(cfg, run, id);
  }

  /** A closed row used its budget up. If it was never reclaimed its history is exact: one refusal for
      each retry and one more that closed it, no acknowledgement, and no claim beyond these. */
  lemma {:induction false} ClosedLedger(cfg: Config, run: seq<Action>, id: Uuid)
    requires Exec(cfg, run).Some? && id in Exec(cfg, run).value.rows
    requires Exec(cfg, run).value.rows[id].status == Close
    ensures var s := Exec(cfg, run).value;
      && s.rows[id].lastError.Some?
      && cfg.maxRetries <= s.rows[id].attempts
      && s.Of(id).closes == 1
      && (ReclaimsIn(run, id) == 0 ==>
            && s.rows[id].attempts == cfg.maxRetries
            && s.Of(id).fails == cfg.maxRetries + 1
            && s.Of(id).claims == cfg.maxRetries + 1
            && Deliveries(s.acked, s.rows[id].eventId) == 0)
  {
    AlwaysBalanced(cfg, run, id);
    AlwaysConsistent(cfg, run);
    LogAlwaysAgrees(cfg, run);
    ReclaimsCounted(cfg, run, id);
    assert RowOk(cfg, Exec(cfg, run).value, id);
  }

  /** The failure ledger of every row: a recorded attempt leaves its error, attempts never outnumber the
      refusals, and a row is closed at most once. A finished row that was never reclaimed recorded them all. */
  lemma {:induction false} FailureLedger(cfg: Config, run: seq<Action>, id: Uuid)
    requires Exec(cfg, run).Some? && id in Exec(cfg, run).value.rows
    ensures var s := Exec(cfg, run).value;
      && (s.rows[id].attempts > 0 ==> s.rows[id].lastError.Some?)
      && s.rows[id].attempts + s.Of(id).closes <= s.Of(id).fails
      && s.Of(id).closes <= 1
      && (ReclaimsIn(run, id) == 0 && s.rows[id].status in {Published, Close, Pending} ==>
            s.Of(id).fails == s.rows[id].attempts + s.Of(id).closes)
  {
    AlwaysBalanced(cfg, run, id);
    AlwaysConsistent(cfg, run);
    ReclaimsCounted(cfg, run, id);
    assert RowOk(cfg, Exec(cfg, run).value, id);
  }

  /** PUBLISHED means acknowledged, with the row's event_id as key and its payload as value. */
  lemma PublishedMeansAcknowledged(cfg: Config, run: seq<Action>, id: Uuid)
    requires Exec(cfg, run).Some? && id in Exec(cfg, run).value.rows
    requires Exec(cfg, run).value.rows[id].status == Published
    ensures var s := Exec(cfg, run).value;
      && Message(s.rows[id].eventId, s.rows[id].payload) in s.acked
      && Deliveries(s.acked, s.rows[id].eventId) >= 1
  {
    AlwaysConsistent(cfg, run);
    LogAlwaysAgrees(cfg, run);
    assert RowOk(cfg, Exec(cfg, run).value, id);
  }

  /** Every acknowledged message is the message of some row of the table: nothing is published that was
      not ingested, and never with another payload. */
  lemma {:induction false} NothingElsePublished(cfg: Config, run: seq<Action>, m: Message)
    requires Exec(cfg, run).Some? && m in Exec(cfg, run).value.acked
    ensures var s := Exec(cfg, run).value;
      exists id :: id in s.rows && m == Message(s.rows[id].eventId, s.rows[id].payload)
  {
    if run != [] {
      var before := run[..|run| - 1];
      var s := Exec(cfg, before).value;
      var a := run[|run| - 1];
      RowsEvolve(cfg, s, a);
      AlwaysConsistent(cfg, before);
      var id :| id in s.rows && m == Message(s.rows[id].eventId, s.rows[id].payload) by {
        if m in s.acked {
          NothingElsePublished(cfg, before, m);
        } else {
          assert WorkerOk(s, s.workers[a.w]) && Agrees(s, Head(s, a.w));
          assert m == Message(s.rows[Head(s, a.w).id].eventId, s.rows[Head(s, a.w).id].payload);
        }
      }
      assert RowEvolves(s.rows[id], Next(cfg, s, a).rows[id]);
      assert id in Next(cfg, s, a).rows;
    }
  }

  /** The edges of the status graph, each with the one action that may take it. In particular only
      MarkPublished leaves CLOSE, by a worker whose message was acknowledged, and nothing leaves PUBLISHED. */
  lemma StatusEdges(cfg: Config, run: seq<Action>, a: Action, id: Uuid)
    requires Exec(cfg, run).Some? && Enabled(cfg, Exec(cfg, run).value, a)
    requires id in Exec(cfg, run).value.rows
    ensures var s := Exec(cfg, run).value;
      var s' := Next(cfg, s, a);
      var from, to := s.rows[id].status, s'.rows[id].status;
      || from == to
      || (from == Pending && to == Processing && a.Claim? && id in a.ids)
      || (from == Processing && to == Pending && a.Reclaim? && id in a.stale
          && s'.rows[id].attempts == s.rows[id].attempts)
      || (from == Processing && to == Pending && a.MarkFailed? && Head(s, a.w).id == id
          && s'.rows[id].attempts == s.rows[id].attempts + 1)
      || (from == Processing && to == Close && a.MarkClose? && Head(s, a.w).id == id)
      || (to == Published && a.MarkPublished? && Head(s, a.w).id == id && s.workers[a.w].phase == Acked
          && Message(s.rows[id].eventId, s.rows[id].payload) in s.acked)
  {
    var s := Exec(cfg, run).value;
    AlwaysConsistent(cfg, run);
    if a.MarkPublished? {
      assert WorkerOk(s, s.workers[a.w]);
    }
  }

  /** Nothing is lost and nothing is forgotten: however a schedule goes on, every row is still there with
      its identity, its attempts have not gone down, and PUBLISHED has stayed PUBLISHED. */
  lemma {:induction false} NothingLost(cfg: Config, run: seq<Action>, more: seq<Action>, id: Uuid)
    requires Exec(cfg, run + more).Some?
    ensures Exec(cfg, run).Some?
    ensures var s, s' := Exec(cfg, run).value, Exec(cfg, run + more).value;
      id in s.rows ==>
        && id in s'.rows
        && s'.rows[id].eventId == s.rows[id].eventId && s'.rows[id].payload == s.rows[id].payload
        && s.rows[id].attempts <= s'.rows[id].attempts
        && (s.rows[id].status == Published ==> s'.rows[id].status == Published)
        && (s.rows[id].status == Close ==> s'.rows[id].status == Close || s'.rows[id].status == Published)
    decreases |more|
  {
    if more == [] {
      assert run + more == run;
    } else {
      var most := more[..|more| - 1];
      assert (run + more)[..|run + more| - 1] == run + most;
      NothingLost(cfg, run, most, id);
      var before := Exec(cfg, run + most).value;
      RowsEvolve(cfg, before, more[|more| - 1]);
      assert id in before.rows ==> RowEvolves(before.rows[id], Exec(cfg, run + more).value.rows[id]);
    }
  }

  lemma {:induction false} PrefixRuns(cfg: Config, run: seq<Action>, n: nat)
    requires Exec(cfg, run).Some? && n <= |run|
    ensures Exec(cfg, run[..n]).Some?
    ensures n < |run| ==>
      && Enabled(cfg, Exec(cfg, run[..n]).value, run[n])
      && Exec(cfg, run[..n + 1]) == Some(Next(cfg, Exec(cfg, run[..n]).value, run[n]))
  {
    hide Enabled, Next;
    if n < |run| {
      var most := run[..|run| - 1];
      if n == |run| - 1 {
        assert run[..n] == most && run[..n + 1] == run;
      } else {
        PrefixRuns(cfg, most, n);
        assert most[..n] == run[..n] && most[..n + 1] == run[..n + 1];
      }
    } else {
      assert run[..n] == run;
    }
  }

  lemma OnlyClaimsProcess(cfg: Config, s: State, a: Action, id: Uuid)
    requires Enabled(cfg, s, a) && !InProcessing(s.rows, id) && !(a.Claim? && id in a.ids)
    ensures !InProcessing(Next(cfg, s, a).rows, id)
  {
  }

  lemma {:induction false} IdleUntilClaimed(cfg: Config, run: seq<Action>, i: nat, n: nat, id: Uuid)
    requires Exec(cfg, run).Some? && i < n <= |run| && run[i].Reclaim? && id in run[i].stale
    requires forall k :: i < k < n ==> !(run[k].Claim? && id in run[k].ids)
    ensures Exec(cfg, run[..n]).Some? && !InProcessing(Exec(cfg, run[..n]).value.rows, id)
    decreases n
  {
    PrefixRuns(cfg, run, n - 1);
    if n - 1 > i {
      IdleUntilClaimed(cfg, run, i, n - 1, id);
      OnlyClaimsProcess(cfg, Exec(cfg, run[..n - 1]).value, run[n - 1], id);
    }
  }

  /** Reclaiming is safe for any number of workers at once: however their statements interleave, no row is freed twice
      unless it was claimed in between. */
  lemma ReclaimedOncePerClaim(cfg: Config, run: seq<Action>, i: nat, j: nat, id: Uuid)
    requires Exec(cfg, run).Some? && i < j < |run|
    requires run[i].Reclaim? && id in run[i].stale && run[j].Reclaim? && id in run[j].stale
    ensures exists k :: i < k < j && run[k].Claim? && id in run[k].ids
  {
    PrefixRuns(cfg, run, j);
    assert InProcessing(Exec(cfg, run[..j]).value.rows, id);
    if forall k :: i < k < j ==> !(run[k].Claim? && id in run[k].ids) {
      IdleUntilClaimed(cfg, run, i, j, id);
    }
  }

  /** The action puts the row up for claiming from time `t` on: it arrives, is freed, or is put back for a retry. */
  predicate PutsUp(s: State, a: Action, id: Uuid, t: Time) {
    || (a.Ingest? && a.id == id && t == a.at)
    || (a.Reclaim? && id in a.stale && t == a.started)
    || (a.MarkFailed? && Busy(s, a.w) && Head(s, a.w).id == id && t == a.nextAttemptAt
        && id in s.rows && s.rows[id].status == Processing)
  }

  /** The row waits for time `t`, or has been published in the meantime by a worker that still held it. */
  predicate WaitsUntil(s: State, id: Uuid, t: Time) {
    id in s.rows && (s.rows[id].status == Published || (s.rows[id].status == Pending && s.rows[id].availableAt == t))
  }

  lemma WaitBegins(cfg: Config, s: State, a: Action, id: Uuid, t: Time)
    requires Enabled(cfg, s, a) && PutsUp(s, a, id, t)
    ensures WaitsUntil(Next(cfg, s, a), id, t)
  {
  }

  lemma WaitKept(cfg: Config, s: State, a: Action, id: Uuid, t: Time)
    requires Enabled(cfg, s, a) && WaitsUntil(s, id, t) && !(a.Claim? && id in a.ids)
    ensures WaitsUntil(Next(cfg, s, a), id, t)
  {
  }

  lemma {:induction false} WaitsBetween(cfg: Config, run: seq<Action>, i: nat, n: nat, id: Uuid, t: Time)
    requires Exec(cfg, run).Some? && i < n <= |run| && Exec(cfg, run[..i]).Some?
    requires PutsUp(Exec(cfg, run[..i]).value, run[i], id, t)
    requires forall k :: i < k < n ==> !(run[k].Claim? && id in run[k].ids)
    ensures Exec(cfg, run[..n]).Some? && WaitsUntil(Exec(cfg, run[..n]).value, id, t)
    decreases n
  {
    hide Enabled, Next, PutsUp, WaitsUntil;
    PrefixRuns(cfg, run, n - 1);
    if n - 1 == i {
      WaitBegins(cfg, Exec(cfg, run[..i]).value, run[i], id, t);
    } else {
      WaitsBetween(cfg, run, i, n - 1, id, t);
      WaitKept(cfg, Exec(cfg, run[..n - 1]).value, run[n - 1], id, t);
    }
  }

  lemma NotClaimedEarly(cfg: Config, s: State, a: Action, id: Uuid, t: Time)
    requires Enabled(cfg, s, a) && WaitsUntil(s, id, t) && a.Claim? && id in a.ids
    ensures t <= a.started <= s.now && s.rows[id].status == Pending
  {
  }

  /** A row is not claimed before its time: whatever happens in between, the next claim after a row has arrived, was
      freed, or was put back for a retry begins no earlier than the time it was put up for. */
  lemma ClaimsComeDue(cfg: Config, run: seq<Action>, i: nat, n: nat, id: Uuid, t: Time)
    requires Exec(cfg, run).Some? && i < n < |run| && Exec(cfg, run[..i]).Some?
    requires PutsUp(Exec(cfg, run[..i]).value, run[i], id, t)
    requires run[n].Claim? && id in run[n].ids
    requires forall k :: i < k < n ==> !(run[k].Claim? && id in run[k].ids)
    ensures run[n].started >= t
  {
    WaitsBetween(cfg, run, i, n, id, t);
    PrefixRuns(cfg, run, n);
    NotClaimedEarly(cfg, Exec(cfg, run[..n]).value, run[n], id, t);
  }
}
