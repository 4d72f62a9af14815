/** The bound on the stale timeout is exact: one unit less, and a punctual worker can lose a row it still holds. */
module TimingLimits {
  import opened Wrappers
  import opened Outbox
  import opened Protocol
  import opened Agreement
  import opened Timing

  /** In no timely schedule does a reclaim take a row out of a worker's hands. */
  ghost predicate LiveRowsAreSafe(cfg: Config, pace: Pace) {
    forall run: seq<Action>, a: Action, w: nat, id ::
      Exec(cfg, run).Some? && Timely(cfg, pace, run)
      && Enabled(cfg, Exec(cfg, run).value, a) && a.Reclaim? && id in a.stale
      && w < |Exec(cfg, run).value.workers|
      ==> !InBatch(Exec(cfg, run).value.workers[w].batch, id)
  }

  predicate OthersIdle(s: State) {
    forall w :: 0 < w < |s.workers| ==> s.workers[w].batch == []
  }

  lemma Append(cfg: Config, pace: Pace, run: seq<Action>, a: Action)
    requires Exec(cfg, run).Some? && Timely(cfg, pace, run) && Enabled(cfg, Exec(cfg, run).value, a)
    requires OnTime(pace, Next(cfg, Exec(cfg, run).value, a))
    requires a.Claim? ==> Exec(cfg, run).value.now <= a.started + pace.claim
    ensures Exec(cfg, run + [a]) == Some(Next(cfg, Exec(cfg, run).value, a))
    ensures Timely(cfg, pace, run + [a])
  {
    Extend(cfg, run, a);
    assert (run + [a])[..|run + [a]| - 1] == run;
  }

  /** A timely schedule and the state it leads to. */
  ghost predicate Arranged(cfg: Config, pace: Pace, run: seq<Action>, s: State) {
    Exec(cfg, run) == Some(s) && Timely(cfg, pace, run)
  }

  lemma Then(cfg: Config, pace: Pace, run: seq<Action>, s: State, a: Action) returns (run': seq<Action>)
    requires Arranged(cfg, pace, run, s) && Enabled(cfg, s, a) && OnTime(pace, Next(cfg, s, a))
    requires a.Claim? ==> s.now <= a.started + pace.claim
    ensures Arranged(cfg, pace, run', Next(cfg, s, a))
  {
    Append(cfg, pace, run, a);
    run' := run + [a];
  }

  /** `n` rows wait since time 0 and the whole fleet is idle. */
  ghost predicate Waiting(cfg: Config, s: State, n: nat) {
    && |s.workers| == cfg.workers
    && (forall w :: 0 <= w < |s.workers| ==> s.workers[w].batch == [])
    && (forall id: Uuid :: id in s.rows <==> id < n)
    && (forall id :: id in s.rows ==> Claimable(s.rows[id], 0) && s.rows[id].eventId == id)
  }

  function Arrival(n: nat): Action {
    Ingest(n, n, "page_view", Json(map[]), 0)
  }

  lemma Arrives(cfg: Config, pace: Pace, s: State, n: nat)
    requires Waiting(cfg, s, n) && s.now == 0
    ensures Enabled(cfg, s, Arrival(n))
    ensures Waiting(cfg, Next(cfg, s, Arrival(n)), n + 1) && Next(cfg, s, Arrival(n)).now == 0
    ensures OnTime(pace, Next(cfg, s, Arrival(n)))
  {
  }

  lemma FillOne(cfg: Config, pace: Pace, run: seq<Action>, s: State, n: nat) returns (run': seq<Action>, s': State)
    requires Arranged(cfg, pace, run, s) && Waiting(cfg, s, n) && s.now == 0
    ensures Arranged(cfg, pace, run', s') && Waiting(cfg, s', n + 1) && s'.now == 0
  {
    Arrives(cfg, pace, s, n);
    run' := Then(cfg, pace, run, s, Arrival(n));
    s' := Next(cfg, s, Arrival(n));
  }

  lemma {:induction false} Fill(cfg: Config, pace: Pace, n: nat) returns (run: seq<Action>, s: State)
    ensures Arranged(cfg, pace, run, s) && Waiting(cfg, s, n) && s.now == 0
  {
    if n == 0 {
      run, s := [], Init(cfg);
      assert Waiting(cfg, Init(cfg), 0);
    } else {
      run, s := Fill(cfg, pace, n - 1);
      run, s := FillOne(cfg, pace, run, s, n - 1);
    }
  }

  /** The first worker, punctual to the limit, still has the rows from `k` on. */
  ghost predicate Busily(cfg: Config, pace: Pace, s: State, k: nat) {
    && |s.workers| == cfg.workers > 0 && k < cfg.batchSize && OthersIdle(s)
    && var worker := s.workers[0];
    && s.now == worker.itemStart == pace.claim + k * pace.item
    && worker.phase == Publishing && |worker.batch| == cfg.batchSize - k
    && (forall i :: 0 <= i < |worker.batch| ==> worker.batch[i].id == k + i)
    && (forall id :: k <= id < cfg.batchSize ==>
        id in s.rows && s.rows[id].status == Processing && s.rows[id].processingAt == Some(0))
  }

  lemma ClaimsAll(cfg: Config, pace: Pace, s: State) returns (a: Action)
    requires Waiting(cfg, s, cfg.batchSize) && s.now == pace.claim && cfg.workers > 0 && cfg.batchSize > 0
    ensures a.Claim? && a.started == 0 && Enabled(cfg, s, a)
    ensures Busily(cfg, pace, Next(cfg, s, a), 0) && OnTime(pace, Next(cfg, s, a))
  {
    var ids := seq(cfg.batchSize, i => i);
    a := Claim(0, ids, 0);
    var s' := Next(cfg, s, a);
    forall id: nat | id < cfg.batchSize
      ensures id in s'.rows && s'.rows[id].status == Processing && s'.rows[id].processingAt == Some(0)
    {
      assert ids[id] == id;
    }
  }

  lemma ClaimAll(cfg: Config, pace: Pace) returns (run: seq<Action>, s: State)
    requires cfg.workers > 0 && cfg.batchSize > 0
    ensures Arranged(cfg, pace, run, s) && Busily(cfg, pace, s, 0)
  {
    run, s := Fill(cfg, pace, cfg.batchSize);
    run := Then(cfg, pace, run, s, Tick(pace.claim));
    s := Next(cfg, s, Tick(pace.claim));
    var claim := ClaimsAll(cfg, pace, s);
    run := Then(cfg, pace, run, s, claim);
    s := Next(cfg, s, claim);
  }

  /** The state after the first worker has delivered one more event in the longest time allowed. */
  function Delivered(cfg: Config, pace: Pace, s: State): State
    requires Busy(s, 0) && s.workers[0].phase == Publishing
  {
    var waited := s.(now := s.now + pace.item);
    var answered := Next(cfg, waited, PublishAck(0));
    Next(cfg, answered, MarkPublished(0, answered.now))
  }

  lemma OneLess(cfg: Config, pace: Pace, s: State, k: nat)
    requires Busily(cfg, pace, s, k) && k + 1 < cfg.batchSize
    ensures Busily(cfg, pace, Delivered(cfg, pace, s), k + 1)
  {
    var s' := Delivered(cfg, pace, s);
    assert (k + 1) * pace.item == k * pace.item + pace.item;
    assert s'.workers == s.workers[0 := Advance(s.workers[0].(phase := Acked), s.now + pace.item)];
    assert s'.rows == PublishRow(s.rows, k, s.now + pace.item);
  }

  lemma Deliverable(cfg: Config, pace: Pace, s: State, k: nat)
    requires Busily(cfg, pace, s, k)
    ensures Enabled(cfg, s, Tick(pace.item)) && Next(cfg, s, Tick(pace.item)) == s.(now := s.now + pace.item)
    ensures var waited := s.(now := s.now + pace.item);
      && OnTime(pace, waited) && Enabled(cfg, waited, PublishAck(0))
      && var answered := Next(cfg, waited, PublishAck(0));
      && OnTime(pace, answered) && Enabled(cfg, answered, MarkPublished(0, answered.now))
      && OnTime(pace, Next(cfg, answered, MarkPublished(0, answered.now)))
      && Busy(s, 0) && s.workers[0].phase == Publishing
      && Delivered(cfg, pace, s) == Next(cfg, answered, MarkPublished(0, answered.now))
  {
  }

  lemma DeliverOne(cfg: Config, pace: Pace, run: seq<Action>, s: State, k: nat) returns (run': seq<Action>, s': State)
    requires Arranged(cfg, pace, run, s) && Busily(cfg, pace, s, k) && k + 1 < cfg.batchSize
    ensures Arranged(cfg, pace, run', s') && Busily(cfg, pace, s', k + 1)
  {
    hide Enabled, Next, OnTime, Arranged, Busily;
    OneLess(cfg, pace, s, k);
    Deliverable(cfg, pace, s, k);
    var waited := s.(now := s.now + pace.item);
    run' := Then(cfg, pace, run, s, Tick(pace.item));
    run' := Then(cfg, pace, run', waited, PublishAck(0));
    var answered := Next(cfg, waited, PublishAck(0));
    run' := Then(cfg, pace, run', answered, MarkPublished(0, answered.now));
    s' := Delivered(cfg, pace, s);
  }

  lemma {:induction false} DeliverMost(cfg: Config, pace: Pace, k: nat) returns (run: seq<Action>, s: State)
    requires cfg.workers > 0 && k < cfg.batchSize
    ensures Arranged(cfg, pace, run, s) && Busily(cfg, pace, s, k)
  {
    if k == 0 {
      run, s := ClaimAll(cfg, pace);
    } else {
      run, s := DeliverMost(cfg, pace, k - 1);
      run, s := DeliverOne(cfg, pace, run, s, k - 1);
    }
  }

  lemma LastRowGoesStale(cfg: Config, pace: Pace) returns (run: seq<Action>)
    requires cfg.workers > 1 && cfg.batchSize > 0 && cfg.staleTimeout > 0 && !Patient(cfg, pace)
    ensures Exec(cfg, run).Some? && Timely(cfg, pace, run) && |Exec(cfg, run).value.workers| > 0
    ensures var s, last := Exec(cfg, run).value, cfg.batchSize - 1;
      Enabled(cfg, s, Reclaim(1, {last}, s.now)) && InBatch(s.workers[0].batch, last)
  {
    var last := cfg.batchSize - 1;
    var before;
    run, before := DeliverMost(cfg, pace, last);
    assert before.workers[0].batch[0].id == last;
    var full := pace.claim + cfg.batchSize * pace.item;
    assert before.now + pace.item == full by {
      NextItem(cfg.batchSize, 1, pace.item);
    }
    run := Then(cfg, pace, run, before, Tick(pace.item));
    assert Exec(cfg, run).value == before.(now := full);
    assert Stale(before.rows[last], cfg.staleTimeout, full);
  }

  /** Live rows are safe from reclaiming exactly when the stale timeout exceeds the claim plus a whole batch of
      deliveries, or reclaiming is off, or nobody claims, or there is one worker only, which never reclaims while it
      holds a batch. The longest single publish is not enough. */
  lemma LiveRowsAreSafeWhen(cfg: Config, pace: Pace)
    ensures LiveRowsAreSafe(cfg, pace)
      <==> Patient(cfg, pace) || cfg.staleTimeout <= 0 || cfg.workers <= 1 || cfg.batchSize == 0
  {
    if cfg.staleTimeout > 0 && cfg.workers > 1 && cfg.batchSize > 0 && !Patient(cfg, pace) {
      var run := LastRowGoesStale(cfg, pace);
      var s := Exec(cfg, run).value;
      var last := cfg.batchSize - 1;
      var reclaim := Reclaim(1, {last}, s.now);
      assert Enabled(cfg, s, reclaim) && last in reclaim.stale && InBatch(s.workers[0].batch, last);
    } else {
      forall run: seq<Action>, a: Action, w: nat, id
        | Exec(cfg, run).Some? && Timely(cfg, pace, run)
          && Enabled(cfg, Exec(cfg, run).value, a) && a.Reclaim? && id in a.stale
          && w < |Exec(cfg, run).value.workers|
        ensures !InBatch(Exec(cfg, run).value.workers[w].batch, id)
      {
        if Patient(cfg, pace) {
          NoLiveRowReclaimed(cfg, pace, run, a);
        } else if cfg.workers <= 1 {
          AlwaysConsistent(cfg, run);
          assert a.w == w;
        } else if cfg.batchSize == 0 {
          NobodyHolds(cfg, run);
        }
      }
    }
  }

  lemma {:induction false} NobodyHolds(cfg: Config, run: seq<Action>)
    requires Exec(cfg, run).Some? && cfg.batchSize == 0
    ensures forall w :: 0 <= w < |Exec(cfg, run).value.workers| ==> Exec(cfg, run).value.workers[w].batch == []
  {
    if run != [] {
      NobodyHolds(cfg, run[..|run| - 1]);
    }
  }
}
