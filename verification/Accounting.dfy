/** The books of one row over every run: claims against outcomes, outcomes against marks, and what
    follows for duplicates, for the retry budget and for the number of publish attempts. */
module Accounting {
  import opened Wrappers
  import opened Outbox
  import opened Protocol
  import opened Agreement

  /** What a worker can still do to a row it holds:
      `Open`: its publish call has not been answered; `Failed`: it was refused, the mark is due;
      `Raise`: one of the two, and the copy is below the budget, so a refusal ends in MarkFailed. */
  datatype Claimed = Open | Failed | Raise

  predicate IsOpen(worker: Worker, id: Uuid) {
    InBatch(worker.batch, id) && (worker.batch[0].id == id ==> worker.phase == Publishing)
  }

  predicate HasFailed(worker: Worker, id: Uuid) {
    worker.batch != [] && worker.batch[0].id == id && worker.phase.Failing?
  }

  predicate BelowBudget(cfg: Config, batch: seq<OutboxEvent>, id: Uuid) {
    exists i :: 0 <= i < |batch| && batch[i].id == id && !Exhausted(cfg, batch[i])
  }

  function Weigh(cfg: Config, what: Claimed, worker: Worker, id: Uuid): nat {
    var counts := match what
      case Open => IsOpen(worker, id)
      case Failed => HasFailed(worker, id)
      case Raise => (IsOpen(worker, id) || HasFailed(worker, id)) && BelowBudget(cfg, worker.batch, id);
    if counts then 1 else 0
  }

  /** In how many workers' hands the row is, in the given sense. */
  function Total(cfg: Config, what: Claimed, workers: seq<Worker>, id: Uuid): nat {
    if workers == [] then 0
    else Total(cfg, what, workers[..|workers| - 1], id) + Weigh(cfg, what, workers[|workers| - 1], id)
  }

  lemma {:induction false} TotalUpdate(cfg: Config, what: Claimed, workers: seq<Worker>, w: nat, worker: Worker,
                                       id: Uuid)
    requires w < |workers|
    ensures Total(cfg, what, workers[w := worker], id) + Weigh(cfg, what, workers[w], id)
         == Total(cfg, what, workers, id) + Weigh(cfg, what, worker, id)
  {
    var last := |workers| - 1;
    var updated := workers[w := worker];
    if w == last {
      assert updated[..last] == workers[..last];
    } else {
      assert updated[..last] == workers[..last][w := worker];
      TotalUpdate(cfg, what, workers[..last], w, worker, id);
    }
  }

  lemma {:induction false} TotalAtMost(cfg: Config, what: Claimed, workers: seq<Worker>, id: Uuid)
    ensures Total(cfg, what, workers, id) <= |workers|
  {
    if workers != [] {
      TotalAtMost(cfg, what, workers[..|workers| - 1], id);
    }
  }

  lemma {:induction false} TotalAtLeast(cfg: Config, what: Claimed, workers: seq<Worker>, w: nat, id: Uuid)
    requires w < |workers|
    ensures Weigh(cfg, what, workers[w], id) <= Total(cfg, what, workers, id)
  {
    if w < |workers| - 1 {
      TotalAtLeast(cfg, what, workers[..|workers| - 1], w, id);
    }
  }

  lemma {:induction false} RaiseIsOpenOrFailed(cfg: Config, workers: seq<Worker>, id: Uuid)
    ensures Total(cfg, Raise, workers, id) <= Total(cfg, Open, workers, id) + Total(cfg, Failed, workers, id)
  {
    if workers != [] {
      RaiseIsOpenOrFailed(cfg, workers[..|workers| - 1], id);
    }
  }

  lemma {:induction false} IdleWeighsNothing(cfg: Config, what: Claimed, workers: seq<Worker>, id: Uuid)
    requires forall w :: 0 <= w < |workers| ==> !InBatch(workers[w].batch, id)
    ensures Total(cfg, what, workers, id) == 0
  {
    if workers != [] {
      IdleWeighsNothing(cfg, what, workers[..|workers| - 1], id);
    }
  }

  /** How far stale copies can push a row past the budget. */
  function Overshoot(cfg: Config, reclaims: nat): nat {
    if cfg.workers == 0 then 0
    else if cfg.workers - 1 < reclaims then cfg.workers - 1 else reclaims
  }

  /** The books of one row, given how many workers hold it in each sense. */
  predicate Books(cfg: Config, row: Row, tally: Tally, open: nat, failed: nat, raise: nat) {
    && tally.acks + tally.fails + open <= tally.claims
    && row.attempts + tally.closes + failed <= tally.fails
    && tally.claims + (if row.status == Pending then 1 else 0) <= 1 + row.attempts + tally.reclaims
    && (row.attempts < cfg.maxRetries
        || row.attempts + raise <= cfg.maxRetries + Overshoot(cfg, tally.reclaims))
  }

  ghost predicate Balanced(cfg: Config, s: State, id: Uuid) {
    id in s.rows ==>
      Books(cfg, s.rows[id], s.Of(id), Total(cfg, Open, s.workers, id),
            Total(cfg, Failed, s.workers, id), Total(cfg, Raise, s.workers, id))
  }

  lemma HeadLeaves(cfg: Config, worker: Worker, now: Time, id: Uuid)
    requires worker.batch != [] && DistinctIds(worker.batch)
    ensures var after := Advance(worker, now);
      && (id == worker.batch[0].id ==> forall what :: Weigh(cfg, what, after, id) == 0)
      && (id != worker.batch[0].id ==> forall what :: Weigh(cfg, what, after, id) == Weigh(cfg, what, worker, id))
  {
    var rest := worker.batch[1..];
    assert forall i :: 0 <= i < |rest| ==> rest[i] == worker.batch[i + 1];
    assert forall i :: 0 < i < |worker.batch| ==> worker.batch[i] == rest[i - 1];
  }

  lemma OnlyHeadTurns(cfg: Config, worker: Worker, phase: Phase, id: Uuid)
    requires worker.batch != [] && id != worker.batch[0].id
    ensures forall what :: Weigh(cfg, what, worker.(phase := phase), id) == Weigh(cfg, what, worker, id)
  {
  }

  /** What a mark does to the three totals: the marked row leaves the worker's hands. */
  lemma MarkShifts(cfg: Config, s: State, w: nat, what: Claimed, id: Uuid)
    requires Consistent(cfg, s) && Busy(s, w)
    ensures var worker := s.workers[w];
      Total(cfg, what, s.workers[w := Advance(worker, s.now)], id)
      == Total(cfg, what, s.workers, id) - (if id == worker.batch[0].id then Weigh(cfg, what, worker, id) else 0)
  {
    var worker := s.workers[w];
    assert WorkerOk(s, worker);
    HeadLeaves(cfg, worker, s.now, id);
    TotalUpdate(cfg, what, s.workers, w, Advance(worker, s.now), id);
  }

  lemma MarkShiftsAll(cfg: Config, s: State, w: nat, id: Uuid)
    requires Consistent(cfg, s) && Busy(s, w) && s.workers[w].phase != Publishing
    ensures var worker := s.workers[w];
      var after := s.workers[w := Advance(worker, s.now)];
      var failed := id == worker.batch[0].id && worker.phase.Failing?;
      && Total(cfg, Open, after, id) == Total(cfg, Open, s.workers, id)
      && Total(cfg, Failed, after, id) == Total(cfg, Failed, s.workers, id) - (if failed then 1 else 0)
      && Total(cfg, Raise, after, id) <= Total(cfg, Raise, s.workers, id)
      && (failed && !Exhausted(cfg, worker.batch[0]) ==>
          Total(cfg, Raise, after, id) == Total(cfg, Raise, s.workers, id) - 1)
  {
    MarkShifts(cfg, s, w, Open, id);
    MarkShifts(cfg, s, w, Failed, id);
    MarkShifts(cfg, s, w, Raise, id);
  }

  lemma BalancedMark(cfg: Config, s: State, a: Action, id: Uuid)
    requires Consistent(cfg, s) && Enabled(cfg, s, a) && Balanced(cfg, s, id) && id in s.rows
    requires a.MarkPublished? || a.MarkError?
    ensures Balanced(cfg, Next(cfg, s, a), id)
  {
    var s' := Next(cfg, s, a);
    MarkShiftsAll(cfg, s, a.w, id);
    assert s'.workers == s.workers[a.w := Advance(s.workers[a.w], s.now)];
    assert Books(cfg, s'.rows[id], s'.Of(id), Total(cfg, Open, s'.workers, id),
                 Total(cfg, Failed, s'.workers, id), Total(cfg, Raise, s'.workers, id));
  }

  lemma BalancedMarkClose(cfg: Config, s: State, a: Action, id: Uuid)
    requires Consistent(cfg, s) && Enabled(cfg, s, a) && Balanced(cfg, s, id) && id in s.rows
    requires a.MarkClose?
    ensures Balanced(cfg, Next(cfg, s, a), id)
  {
    var s' := Next(cfg, s, a);
    MarkShiftsAll(cfg, s, a.w, id);
    assert s'.workers == s.workers[a.w := Advance(s.workers[a.w], s.now)];
    assert Books(cfg, s'.rows[id], s'.Of(id), Total(cfg, Open, s'.workers, id),
                 Total(cfg, Failed, s'.workers, id), Total(cfg, Raise, s'.workers, id));
  }

  lemma BalancedMarkFailed(cfg: Config, s: State, a: Action, id: Uuid)
    requires Consistent(cfg, s) && Enabled(cfg, s, a) && Balanced(cfg, s, id) && id in s.rows
    requires a.MarkFailed?
    ensures Balanced(cfg, Next(cfg, s, a), id)
  {
    var s' := Next(cfg, s, a);
    MarkShiftsAll(cfg, s, a.w, id);
    TotalAtMost(cfg, Raise, s.workers, id);
    RaiseIsOpenOrFailed(cfg, s.workers, id);
    assert s'.workers == s.workers[a.w := Advance(s.workers[a.w], s.now)];
    assert s'.Of(id) == s.Of(id);
  }

  lemma BalancedPublish(cfg: Config, s: State, a: Action, id: Uuid)
    requires Consistent(cfg, s) && Enabled(cfg, s, a) && Balanced(cfg, s, id) && id in s.rows
    requires a.PublishAck? || a.PublishFail?
    ensures Balanced(cfg, Next(cfg, s, a), id)
  {
    var s' := Next(cfg, s, a);
    PublishShifts(cfg, s, a.w, s'.workers[a.w].phase, id);
    assert s'.workers == s.workers[a.w := s.workers[a.w].(phase := s'.workers[a.w].phase)];
    assert s'.rows == s.rows;
  }

  lemma PublishShifts(cfg: Config, s: State, w: nat, phase: Phase, id: Uuid)
    requires Busy(s, w) && s.workers[w].phase == Publishing && phase != Publishing
    ensures var worker := s.workers[w];
      var after := s.workers[w := worker.(phase := phase)];
      var turned := if id == worker.batch[0].id then 1 else 0;
      && Total(cfg, Open, after, id) == Total(cfg, Open, s.workers, id) - turned
      && Total(cfg, Failed, after, id) <= Total(cfg, Failed, s.workers, id) + (if phase.Failing? then turned else 0)
      && Total(cfg, Raise, after, id) <= Total(cfg, Raise, s.workers, id)
  {
    var worker := s.workers[w];
    var after := worker.(phase := phase);
    if id != worker.batch[0].id {
      OnlyHeadTurns(cfg, worker, phase, id);
    }
    TotalUpdate(cfg, Open, s.workers, w, after, id);
    TotalUpdate(cfg, Failed, s.workers, w, after, id);
    TotalUpdate(cfg, Raise, s.workers, w, after, id);
  }

  lemma ClaimShifts(cfg: Config, s: State, a: Action, id: Uuid)
    requires Enabled(cfg, s, a) && a.Claim?
    requires id in s.rows
    ensures var after := Next(cfg, s, a).workers;
      && Total(cfg, Open, after, id) == Total(cfg, Open, s.workers, id) + (if id in a.ids then 1 else 0)
      && Total(cfg, Failed, after, id) == Total(cfg, Failed, s.workers, id)
      && Total(cfg, Raise, after, id) == Total(cfg, Raise, s.workers, id)
           + (if id in a.ids && s.rows[id].attempts < cfg.maxRetries then 1 else 0)
  {
    var after := Next(cfg, s, a).workers[a.w];
    assert forall i :: 0 <= i < |after.batch| ==> after.batch[i] == Snapshot(a.ids[i], s.rows[a.ids[i]]);
    if id in a.ids {
      var i :| 0 <= i < |a.ids| && a.ids[i] == id;
      assert after.batch[i].id == id;
    }
    TotalUpdate(cfg, Open, s.workers, a.w, after, id);
    TotalUpdate(cfg, Failed, s.workers, a.w, after, id);
    TotalUpdate(cfg, Raise, s.workers, a.w, after, id);
  }

  lemma BalancedClaim(cfg: Config, s: State, a: Action, id: Uuid)
    requires Consistent(cfg, s) && Enabled(cfg, s, a) && Balanced(cfg, s, id) && id in s.rows
    requires a.Claim?
    ensures Balanced(cfg, Next(cfg, s, a), id)
  {
    var s' := Next(cfg, s, a);
    ClaimShifts(cfg, s, a, id);
    assert s'.rows[id].attempts == s.rows[id].attempts;
    assert id in a.ids ==> Claimable(s.rows[id], a.started);
  }

  lemma BalancedAbandon(cfg: Config, s: State, a: Action, id: Uuid)
    requires Consistent(cfg, s) && Enabled(cfg, s, a) && Balanced(cfg, s, id) && id in s.rows
    requires a.Abandon?
    ensures Balanced(cfg, Next(cfg, s, a), id)
  {
    var s' := Next(cfg, s, a);
    var after := s'.workers[a.w];
    assert s'.workers == s.workers[a.w := after];
    TotalUpdate(cfg, Open, s.workers, a.w, after, id);
    TotalUpdate(cfg, Failed, s.workers, a.w, after, id);
    TotalUpdate(cfg, Raise, s.workers, a.w, after, id);
    assert s'.rows == s.rows;
    assert forall what :: Weigh(cfg, what, after, id) == 0;
  }

  lemma BalancedKept(cfg: Config, s: State, a: Action, id: Uuid)
    requires Consistent(cfg, s) && Enabled(cfg, s, a) && Balanced(cfg, s, id)
    ensures Balanced(cfg, Next(cfg, s, a), id)
  {
    if id !in s.rows {
      if a.Ingest? && a.id == id {
        forall w | 0 <= w < |s.workers| ensures !InBatch(s.workers[w].batch, id) {
          assert WorkerOk(s, s.workers[w]);
          assert forall i :: 0 <= i < |s.workers[w].batch| ==> Agrees(s, s.workers[w].batch[i]);
        }
        IdleWeighsNothing(cfg, Open, s.workers, id);
        IdleWeighsNothing(cfg, Failed, s.workers, id);
        IdleWeighsNothing(cfg, Raise, s.workers, id);
      }
    } else if a.MarkPublished? || a.MarkError? {
      BalancedMark(cfg, s, a, id);
    } else if a.MarkClose? {
      BalancedMarkClose(cfg, s, a, id);
    } else if a.MarkFailed? {
      BalancedMarkFailed(cfg, s, a, id);
    } else if a.PublishAck? || a.PublishFail? {
      BalancedPublish(cfg, s, a, id);
    } else if a.Claim? {
      BalancedClaim(cfg, s, a, id);
    } else if a.Abandon? {
      BalancedAbandon(cfg, s, a, id);
    }
  }

  lemma {:induction false} AlwaysBalanced(cfg: Config, run: seq<Action>, id: Uuid)
    requires Exec(cfg, run).Some?
    ensures Balanced(cfg, Exec(cfg, run).value, id)
  {
    if run != [] {
      var before := run[..|run| - 1];
      AlwaysBalanced(cfg, before, id);
      AlwaysConsistent(cfg, before);
      BalancedKept(cfg, Exec(cfg, before).value, run[|run| - 1], id);
    }
  }
}
