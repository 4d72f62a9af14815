/** Schedules that reach the bounds, and what they decide: when a CLOSE row is sure to have used exactly
    its budget, and that delivery is at least once, not exactly once. */
module Tightness {
  import opened Wrappers
  import opened Outbox
  import opened Protocol
  import opened Agreement
  import opened Accounting
  import opened Guarantees

  function S(cfg: Config, run: seq<Action>): State
    requires Exec(cfg, run).Some?
  {
    Exec(cfg, run).value
  }

  /** A schedule whose table holds the single row 0. */
  predicate OneRow(cfg: Config, run: seq<Action>) {
    && Exec(cfg, run).Some?
    && S(cfg, run).rows.Keys == {0}
    && |S(cfg, run).workers| == cfg.workers
    && 0 in S(cfg, run).hist
  }

  predicate Row0(cfg: Config, run: seq<Action>, status: Status, attempts: nat) {
    OneRow(cfg, run) && S(cfg, run).rows[0].status == status && S(cfg, run).rows[0].attempts == attempts
  }

  predicate IsIdle(worker: Worker) {
    worker.batch == []
  }

  /** The worker holds row 0 alone, unanswered, with this many attempts on its copy. */
  predicate HoldsCopy(worker: Worker, attempts: nat) {
    |worker.batch| == 1 && worker.batch[0].id == 0 && worker.batch[0].attempts == attempts && worker.phase == Publishing
  }

  predicate OthersKept(s: State, s': State, w: nat) {
    |s'.workers| == |s.workers| && forall v :: 0 <= v < |s.workers| && v != w ==> s'.workers[v] == s.workers[v]
  }

  /** The longer schedule adds no rows. */
  predicate Continues(run: seq<Action>, run': seq<Action>) {
    run <= run' && forall i :: |run| <= i < |run'| ==> !run'[i].Ingest?
  }

  const ARRIVAL := Ingest(0, 0, "page_view", Json(map[]), 0)

  /** The row 0 arrives at time 0. */
  lemma Seed(cfg: Config, arrival: Action)
    requires arrival.Ingest? && arrival.id == 0 && arrival.at == 0
    ensures Row0(cfg, [arrival], Pending, 0) && S(cfg, [arrival]).Of(0) == NOTHING
    ensures forall w :: 0 <= w < cfg.workers ==> IsIdle(S(cfg, [arrival]).workers[w])
  {
    Extend(cfg, [], arrival);
    assert [] + [arrival] == [arrival];
  }

  lemma TakeRow(cfg: Config, run: seq<Action>, w: nat, attempts: nat) returns (run': seq<Action>)
    requires Row0(cfg, run, Pending, attempts) && w < cfg.workers && cfg.batchSize > 0
    requires IsIdle(S(cfg, run).workers[w])
    ensures Continues(run, run')
    ensures Row0(cfg, run', Processing, attempts) && HoldsCopy(S(cfg, run').workers[w], attempts)
    ensures S(cfg, run').rows[0].processingAt == Some(S(cfg, run').now)
    ensures OthersKept(S(cfg, run), S(cfg, run'), w)
    ensures S(cfg, run').Of(0) == S(cfg, run).Of(0).(claims := S(cfg, run).Of(0).claims + 1)
  {
    var s := S(cfg, run);
    var due := s.rows[0].availableAt;
    var tick := Tick(if due > s.now then due - s.now else 0);
    Extend(cfg, run, tick);
    var s1 := S(cfg, run + [tick]);
    var claim := Claim(w, [0], s1.now);
    Extend(cfg, run + [tick], claim);
    run' := run + [tick] + [claim];
    assert S(cfg, run').workers[w].batch == [Snapshot(0, s1.rows[0])];
  }

  lemma FreeRow(cfg: Config, run: seq<Action>, w: nat, attempts: nat) returns (run': seq<Action>)
    requires Row0(cfg, run, Processing, attempts) && cfg.staleTimeout > 0
    requires w < cfg.workers && IsIdle(S(cfg, run).workers[w])
    ensures Row0(cfg, run', Pending, attempts)
    ensures S(cfg, run').workers == S(cfg, run).workers
    ensures S(cfg, run').Of(0) == S(cfg, run).Of(0).(reclaims := S(cfg, run).Of(0).reclaims + 1)
  {
    AlwaysConsistent(cfg, run);
    var s := S(cfg, run);
    assert RowOk(cfg, s, 0);
    var stale := s.rows[0].processingAt.value + cfg.staleTimeout;
    var tick := Tick(if stale > s.now then stale - s.now else 0);
    Extend(cfg, run, tick);
    var reclaim := Reclaim(w, {0}, S(cfg, run + [tick]).now);
    Extend(cfg, run + [tick], reclaim);
    run' := run + [tick] + [reclaim];
  }

  /** A refused delivery from a copy below the budget puts the row back with one attempt more. */
  lemma Refuse(cfg: Config, run: seq<Action>, w: nat, copy: nat, attempts: nat) returns (run': seq<Action>)
    requires Row0(cfg, run, Processing, attempts) && w < cfg.workers
    requires HoldsCopy(S(cfg, run).workers[w], copy) && copy < cfg.maxRetries
    ensures Continues(run, run')
    ensures Row0(cfg, run', Pending, attempts + 1) && IsIdle(S(cfg, run').workers[w])
    ensures OthersKept(S(cfg, run), S(cfg, run'), w)
    ensures S(cfg, run').Of(0) == S(cfg, run).Of(0).(fails := S(cfg, run).Of(0).fails + 1)
  {
    var fail := PublishFail(w, "");
    Extend(cfg, run, fail);
    var mark := MarkFailed(w, S(cfg, run).now);
    Extend(cfg, run + [fail], mark);
    run' := run + [fail] + [mark];
  }

  /** A refused delivery from a copy at the budget closes the row. */
  lemma Shut(cfg: Config, run: seq<Action>, w: nat, copy: nat, attempts: nat) returns (run': seq<Action>)
    requires Row0(cfg, run, Processing, attempts) && w < cfg.workers
    requires HoldsCopy(S(cfg, run).workers[w], copy) && copy >= cfg.maxRetries
    ensures Continues(run, run')
    ensures Row0(cfg, run', Close, attempts) && IsIdle(S(cfg, run').workers[w])
    ensures OthersKept(S(cfg, run), S(cfg, run'), w)
    ensures S(cfg, run').Of(0).reclaims == S(cfg, run).Of(0).reclaims
    ensures S(cfg, run').Of(0).fails == S(cfg, run).Of(0).fails + 1
  {
    var fail := PublishFail(w, "");
    Extend(cfg, run, fail);
    var mark := MarkClose(w);
    Extend(cfg, run + [fail], mark);
    run' := run + [fail] + [mark];
  }

  lemma GiveUp(cfg: Config, run: seq<Action>, w: nat, status: Status, attempts: nat) returns (run': seq<Action>)
    requires Row0(cfg, run, status, attempts) && w < cfg.workers && !IsIdle(S(cfg, run).workers[w])
    ensures Row0(cfg, run', status, attempts) && IsIdle(S(cfg, run').workers[w])
    ensures OthersKept(S(cfg, run), S(cfg, run'), w)
    ensures S(cfg, run').Of(0).reclaims == S(cfg, run).Of(0).reclaims
    ensures S(cfg, run').Of(0).acks == S(cfg, run).Of(0).acks
  {
    Extend(cfg, run, Abandon(w));
    run' := run + [Abandon(w)];
  }

  /** One worker alone can use up any part of the budget. */
  lemma {:induction false} SpendBudget(cfg: Config, arrival: Action, attempts: nat) returns (run: seq<Action>)
    requires arrival.Ingest? && arrival.id == 0 && arrival.at == 0
    requires cfg.workers > 0 && cfg.batchSize > 0 && attempts <= cfg.maxRetries
    ensures Continues([arrival], run)
    ensures Row0(cfg, run, Pending, attempts)
    ensures S(cfg, run).Of(0).reclaims == 0 && S(cfg, run).Of(0).fails == attempts
    ensures forall w :: 0 <= w < cfg.workers ==> IsIdle(S(cfg, run).workers[w])
  {
    if attempts == 0 {
      Seed(cfg, arrival);
      run := [arrival];
    } else {
      run := SpendBudget(cfg, arrival, attempts - 1);
      run := TakeRow(cfg, run, 0, attempts - 1);
      run := Refuse(cfg, run, 0, attempts - 1, attempts - 1);
    }
  }

  /** One refusal more than the budget closes the row, and nothing is left to do. */
  lemma OverBudget(cfg: Config, arrival: Action) returns (run: seq<Action>)
    requires arrival.Ingest? && arrival.id == 0 && arrival.at == 0 && cfg.workers > 0 && cfg.batchSize > 0
    ensures Continues([arrival], run)
    ensures Row0(cfg, run, Close, cfg.maxRetries)
    ensures S(cfg, run).Of(0).reclaims == 0 && S(cfg, run).Of(0).fails == cfg.maxRetries + 1
    ensures forall w :: 0 <= w < cfg.workers ==> IsIdle(S(cfg, run).workers[w])
  {
    run := SpendBudget(cfg, arrival, cfg.maxRetries);
    run := TakeRow(cfg, run, 0, cfg.maxRetries);
    run := Shut(cfg, run, 0, cfg.maxRetries, cfg.maxRetries);
  }

  /** The first `n + 1` workers each hold a copy taken one attempt below the budget. */
  lemma {:induction false} SpreadCopies(cfg: Config, n: nat) returns (run: seq<Action>)
    requires n < cfg.workers && cfg.batchSize > 0 && cfg.staleTimeout > 0 && cfg.maxRetries > 0
    ensures Row0(cfg, run, Processing, cfg.maxRetries - 1)
    ensures S(cfg, run).Of(0).reclaims == n
    ensures forall w :: 0 <= w <= n ==> HoldsCopy(S(cfg, run).workers[w], cfg.maxRetries - 1)
    ensures forall w :: n < w < cfg.workers ==> IsIdle(S(cfg, run).workers[w])
  {
    if n == 0 {
      run := SpendBudget(cfg, ARRIVAL, cfg.maxRetries - 1);
      run := TakeRow(cfg, run, 0, cfg.maxRetries - 1);
    } else {
      run := SpreadCopies(cfg, n - 1);
      run := FreeRow(cfg, run, n, cfg.maxRetries - 1);
      run := TakeRow(cfg, run, n, cfg.maxRetries - 1);
    }
  }

  /** The copies are played one after the other: the first brings the row to its budget, each of the
      following `k` one beyond it. */
  lemma {:induction false} PlayCopies(cfg: Config, n: nat, k: nat) returns (run: seq<Action>)
    requires k <= n < cfg.workers && cfg.batchSize > 0 && cfg.staleTimeout > 0 && cfg.maxRetries > 0
    ensures Row0(cfg, run, Pending, cfg.maxRetries + k)
    ensures S(cfg, run).Of(0).reclaims == n
    ensures IsIdle(S(cfg, run).workers[0])
    ensures forall w :: k < w <= n ==> HoldsCopy(S(cfg, run).workers[w], cfg.maxRetries - 1)
    decreases k
  {
    if k == 0 {
      run := SpreadCopies(cfg, n);
      run := Refuse(cfg, run, 0, cfg.maxRetries - 1, cfg.maxRetries - 1);
    } else {
      run := PlayCopies(cfg, n, k - 1);
      run := TakeRow(cfg, run, 0, cfg.maxRetries + k - 1);
      run := Refuse(cfg, run, k, cfg.maxRetries - 1, cfg.maxRetries + k - 1);
      run := GiveUp(cfg, run, 0, Pending, cfg.maxRetries + k);
    }
  }

  /** The retry budget bound is reached: `n` reclaims, for any `n` below the number of workers, can close a row
      `n` attempts beyond its budget. */
  lemma RetryBudgetIsTight(cfg: Config, n: nat) returns (run: seq<Action>)
    requires n < cfg.workers && cfg.batchSize > 0 && cfg.staleTimeout > 0 && cfg.maxRetries > 0
    ensures Row0(cfg, run, Close, cfg.maxRetries + n)
    ensures ReclaimsIn(run, 0) == n && n == Overshoot(cfg, n)
  {
    run := PlayCopies(cfg, n, n);
    run := TakeRow(cfg, run, 0, cfg.maxRetries + n);
    run := Shut(cfg, run, 0, cfg.maxRetries + n, cfg.maxRetries + n);
    ReclaimsCounted(cfg, run, 0);
  }

  /** The published check "a CLOSE row has used exactly its budget", over every schedule. */
  ghost predicate ClosedRowsAreExact(cfg: Config) {
    forall run: seq<Action>, id ::
      Exec(cfg, run).Some? && id in S(cfg, run).rows && S(cfg, run).rows[id].status == Close
      ==> S(cfg, run).rows[id].attempts == cfg.maxRetries
  }

  lemma {:induction false} NoBatchNoClaims(cfg: Config, run: seq<Action>, id: Uuid)
    requires Exec(cfg, run).Some? && cfg.batchSize == 0
    ensures S(cfg, run).Of(id).claims == 0
  {
    if run != [] {
      NoBatchNoClaims(cfg, run[..|run| - 1], id);
      var a := run[|run| - 1];
      assert a.Claim? ==> a.ids == [];
    }
  }

  /** The check fails exactly for fleets of two or more workers with reclaiming switched on and a budget to
      retry: a stale copy then lets a row be charged twice for the same attempt. */
  lemma ClosedRowsAreExactWhen(cfg: Config)
    ensures ClosedRowsAreExact(cfg)
      <==> cfg.workers <= 1 || cfg.staleTimeout <= 0 || cfg.maxRetries == 0 || cfg.batchSize == 0
  {
    if cfg.workers <= 1 || cfg.staleTimeout <= 0 || cfg.maxRetries == 0 || cfg.batchSize == 0 {
      forall run, id | Exec(cfg, run).Some? && id in S(cfg, run).rows && S(cfg, run).rows[id].status == Close
        ensures S(cfg, run).rows[id].attempts == cfg.maxRetries
      {
        RetryBudget(cfg, run, id);
        ClosedLedger(cfg, run, id);
        ReclaimsCounted(cfg, run, id);
        if cfg.maxRetries == 0 {
          NoBudgetNoAttempts(cfg, run, id);
        }
        if cfg.batchSize == 0 {
          NoBatchNoClaims(cfg, run, id);
          AlwaysBalanced(cfg, run, id);
        }
      }
    } else {
      var run := RetryBudgetIsTight(cfg, 1);
      assert S(cfg, run).rows[0].attempts != cfg.maxRetries;
    }
  }

  lemma {:induction false} NoBudgetNoAttempts(cfg: Config, run: seq<Action>, id: Uuid)
    requires Exec(cfg, run).Some? && cfg.maxRetries == 0 && id in S(cfg, run).rows
    ensures S(cfg, run).rows[id].attempts == 0
  {
    if run != [] && id in S(cfg, run[..|run| - 1]).rows {
      var s, a := S(cfg, run[..|run| - 1]), run[|run| - 1];
      NoBudgetNoAttempts(cfg, run[..|run| - 1], id);
      if Next(cfg, s, a).rows[id].attempts != s.rows[id].attempts {
        ChargedByMarkFailed(cfg, s, a, id);
      }
    }
  }

  /** Acknowledge row 0 and lose the worker before it marks the row. */
  lemma AckAndCrash(cfg: Config, run: seq<Action>, w: nat, attempts: nat) returns (run': seq<Action>)
    requires Row0(cfg, run, Processing, attempts) && w < cfg.workers && HoldsCopy(S(cfg, run).workers[w], attempts)
    ensures Row0(cfg, run', Processing, attempts) && IsIdle(S(cfg, run').workers[w])
    ensures S(cfg, run').Of(0).acks == S(cfg, run).Of(0).acks + 1
    ensures S(cfg, run').Of(0).reclaims == S(cfg, run).Of(0).reclaims
  {
    var ack := PublishAck(w);
    Extend(cfg, run, ack);
    run' := GiveUp(cfg, run + [ack], w, Processing, attempts);
  }

  lemma {:induction false} Redeliver(cfg: Config, n: nat) returns (run: seq<Action>)
    requires cfg.workers > 0 && cfg.batchSize > 0 && cfg.staleTimeout > 0
    ensures Row0(cfg, run, Processing, 0) && IsIdle(S(cfg, run).workers[0])
    ensures S(cfg, run).Of(0).acks == n + 1 && S(cfg, run).Of(0).reclaims == n
  {
    if n == 0 {
      Seed(cfg, ARRIVAL);
      run := [ARRIVAL];
    } else {
      run := Redeliver(cfg, n - 1);
      run := FreeRow(cfg, run, 0, 0);
    }
    run := TakeRow(cfg, run, 0, 0);
    run := AckAndCrash(cfg, run, 0, 0);
  }

  /** Delivery is at least once, and the duplicate bound is reached: for every `n` a single worker that keeps
      crashing between the acknowledgement and the mark delivers an event `n + 1` times over `n` reclaims. */
  lemma DuplicateBoundIsTight(cfg: Config, n: nat) returns (run: seq<Action>)
    requires cfg.workers > 0 && cfg.batchSize > 0 && cfg.staleTimeout > 0
    ensures OneRow(cfg, run) && ReclaimsIn(run, 0) == n
    ensures Deliveries(S(cfg, run).acked, S(cfg, run).rows[0].eventId) == n + 1
  {
    run := Redeliver(cfg, n);
    ReclaimsCounted(cfg, run, 0);
    LogAlwaysAgrees(cfg, run);
  }
}
