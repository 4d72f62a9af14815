/** Draining: the work a schedule can do is bounded by what is ingested and reclaimed, and a table on which
    nothing more can happen holds finished rows only. */
module Draining {
  import opened Wrappers
  import opened Outbox
  import opened Protocol
  import opened Agreement
  import opened Accounting
  import opened Guarantees

  ghost function Sum(m: map<Uuid, nat>): nat {
    if m == map[] then 0
    else
      var k :| k in m;
      m[k] + Sum(m - {k})
  }

  lemma {:induction false} SumRemove(m: map<Uuid, nat>, k: Uuid)
    requires k in m
    ensures Sum(m) == m[k] + Sum(m - {k})
    decreases |m|
  {
    var j :| j in m && Sum(m) == m[j] + Sum(m - {j});
    if j != k {
      SumRemove(m - {j}, k);
      SumRemove(m - {k}, j);
      assert m - {j} - {k} == m - {k} - {j};
    }
  }

  lemma {:induction false} SumGrowsOn(m: map<Uuid, nat>, m': map<Uuid, nat>, moved: set<Uuid>)
    requires m.Keys == m'.Keys && moved <= m.Keys
    requires forall k :: k in m ==> m'[k] <= m[k] + (if k in moved then 4 else 0)
    ensures Sum(m') <= Sum(m) + 4 * |moved|
    decreases |m|
  {
    if m == map[] {
      assert m' == map[];
    } else {
      var k :| k in m;
      SumRemove(m, k);
      SumRemove(m', k);
      var rest := moved - {k};
      SumGrowsOn(m - {k}, m' - {k}, rest);
      assert |rest| == if k in moved then |moved| - 1 else |moved| by {
        assert k !in moved ==> rest == moved;
      }
    }
  }

  lemma {:induction false} SumShrinksOn(m: map<Uuid, nat>, m': map<Uuid, nat>, moved: set<Uuid>)
    requires m.Keys == m'.Keys && moved <= m.Keys
    requires forall k :: k in m ==> m'[k] + (if k in moved then 4 else 0) <= m[k]
    ensures Sum(m') + 4 * |moved| <= Sum(m)
    decreases |m|
  {
    if m == map[] {
      assert m' == map[];
      assert moved == {};
    } else {
      var k :| k in m;
      SumRemove(m, k);
      SumRemove(m', k);
      var rest := moved - {k};
      SumShrinksOn(m - {k}, m' - {k}, rest);
      assert |rest| == if k in moved then |moved| - 1 else |moved| by {
        assert k !in moved ==> rest == moved;
      }
    }
  }

  lemma {:induction false} SumInsert(m: map<Uuid, nat>, k: Uuid, v: nat)
    requires k !in m
    ensures Sum(m[k := v]) == Sum(m) + v
  {
    SumRemove(m[k := v], k);
    assert m[k := v] - {k} == m;
  }

  /** No row is ever recorded more attempts than this. */
  function Ceiling(cfg: Config): nat {
    cfg.maxRetries + cfg.workers
  }

  /** What is left to do for a row: twice the attempts still possible, plus two when it waits, one when it is
      being processed; nothing when it is finished. Scaled so that it outweighs a claim's deliveries. */
  function RowWork(cfg: Config, row: Row): nat {
    var left := if row.attempts <= Ceiling(cfg) then Ceiling(cfg) - row.attempts else 0;
    match row.status
    case Pending => 4 * (2 * left + 2)
    case Processing => 4 * (2 * left + 1)
    case Published => 0
    case Close => 0
  }

  /** Two steps for each event in hand, one less once the publisher has answered. */
  function WorkerWork(worker: Worker): nat {
    if worker.batch == [] then 0
    else 2 * |worker.batch| - (if worker.phase == Publishing then 0 else 1)
  }

  function FleetWork(workers: seq<Worker>): nat {
    if workers == [] then 0
    else FleetWork(workers[..|workers| - 1]) + WorkerWork(workers[|workers| - 1])
  }

  lemma {:induction false} FleetUpdate(workers: seq<Worker>, w: nat, worker: Worker)
    requires w < |workers|
    ensures FleetWork(workers[w := worker]) + WorkerWork(workers[w]) == FleetWork(workers) + WorkerWork(worker)
  {
    var last := |workers| - 1;
    if w == last {
      assert workers[w := worker][..last] == workers[..last];
    } else {
      assert workers[w := worker][..last] == workers[..last][w := worker];
      FleetUpdate(workers[..last], w, worker);
    }
  }

  function RowWorks(cfg: Config, rows: Table): map<Uuid, nat> {
    map id | id in rows :: RowWork(cfg, rows[id])
  }

  ghost function Work(cfg: Config, s: State): nat {
    Sum(RowWorks(cfg, s.rows)) + FleetWork(s.workers)
  }

  /** Steps that a worker takes: a claim that finds rows, an answer of the publisher, a mark, giving up. */
  predicate IsWork(a: Action) {
    match a
    case Ingest(_, _, _, _, _) => false
    case Tick(_) => false
    case Claim(_, ids, _) => ids != []
    case Reclaim(_, _, _) => false
    case _ => true
  }

  function WorkSteps(run: seq<Action>): nat {
    if run == [] then 0
    else WorkSteps(run[..|run| - 1]) + (if IsWork(run[|run| - 1]) then 1 else 0)
  }

  /** What a schedule hands to the fleet: a full budget for each row ingested, one more round for each row reclaimed. */
  function Supply(cfg: Config, run: seq<Action>): nat {
    if run == [] then 0
    else
      Supply(cfg, run[..|run| - 1])
        + match run[|run| - 1]
          case Ingest(_, _, _, _, _) => 8 * Ceiling(cfg) + 8
          case Reclaim(_, stale, _) => 4 * |stale|
          case _ => 0
  }

  ghost predicate WithinCeiling(cfg: Config, s: State) {
    forall id :: id in s.rows ==> s.rows[id].attempts <= Ceiling(cfg)
  }

  lemma AlwaysWithinCeiling(cfg: Config, run: seq<Action>)
    requires Exec(cfg, run).Some?
    ensures WithinCeiling(cfg, Exec(cfg, run).value)
  {
    var s := Exec(cfg, run).value;
    forall id | id in s.rows ensures s.rows[id].attempts <= Ceiling(cfg) {
      RetryBudget(cfg, run, id);
    }
  }

  function Elements(ids: seq<Uuid>): set<Uuid> {
    set id | id in ids
  }

  lemma {:induction false} DistinctCount(ids: seq<Uuid>)
    requires Distinct(ids)
    ensures |Elements(ids)| == |ids|
  {
    if ids != [] {
      var last := |ids| - 1;
      DistinctCount(ids[..last]);
      assert ids == ids[..last] + [ids[last]];
      assert Elements(ids) == Elements(ids[..last]) + {ids[last]};
      assert ids[last] !in Elements(ids[..last]);
    }
  }

  lemma StampWorks(cfg: Config, s: State, ids: seq<Uuid>, started: Time)
    requires Distinct(ids) && WithinCeiling(cfg, s)
    requires forall id :: id in ids ==> id in s.rows && Claimable(s.rows[id], started)
    ensures Sum(RowWorks(cfg, StampRows(s.rows, ids, started))) + 4 * |ids| <= Sum(RowWorks(cfg, s.rows))
  {
    var before, after := RowWorks(cfg, s.rows), RowWorks(cfg, StampRows(s.rows, ids, started));
    DistinctCount(ids);
    forall id | id in before ensures after[id] + (if id in Elements(ids) then 4 else 0) <= before[id] {
    }
    assert after.Keys == before.Keys;
    SumShrinksOn(before, after, Elements(ids));
  }

  lemma ClaimWorks(cfg: Config, s: State, a: Action)
    requires Enabled(cfg, s, a) && a.Claim? && WithinCeiling(cfg, s)
    ensures Work(cfg, Next(cfg, s, a)) + 2 * |a.ids| <= Work(cfg, s)
  {
    var s' := Next(cfg, s, a);
    StampWorks(cfg, s, a.ids, a.started);
    FleetUpdate(s.workers, a.w, s'.workers[a.w]);
  }

  lemma ReclaimWorks(cfg: Config, s: State, a: Action)
    requires Enabled(cfg, s, a) && a.Reclaim? && WithinCeiling(cfg, s)
    ensures Work(cfg, Next(cfg, s, a)) <= Work(cfg, s) + 4 * |a.stale|
  {
    var before, after := RowWorks(cfg, s.rows), RowWorks(cfg, Next(cfg, s, a).rows);
    assert after.Keys == before.Keys;
    SumGrowsOn(before, after, a.stale);
  }

  lemma IngestWorks(cfg: Config, s: State, a: Action)
    requires Enabled(cfg, s, a) && a.Ingest?
    ensures Work(cfg, Next(cfg, s, a)) == Work(cfg, s) + 8 * Ceiling(cfg) + 8
  {
    var s' := Next(cfg, s, a);
    var row := s'.rows[a.id];
    SumInsert(RowWorks(cfg, s.rows), a.id, RowWork(cfg, row));
    assert RowWorks(cfg, s'.rows) == RowWorks(cfg, s.rows)[a.id := RowWork(cfg, row)];
  }

  lemma RowsShrink(cfg: Config, rows: Table, rows': Table)
    requires rows.Keys == rows'.Keys
    requires forall id :: id in rows ==> RowWork(cfg, rows'[id]) <= RowWork(cfg, rows[id])
    ensures Sum(RowWorks(cfg, rows')) <= Sum(RowWorks(cfg, rows))
  {
    SumGrowsOn(RowWorks(cfg, rows), RowWorks(cfg, rows'), {});
  }

  lemma AnswerWorks(cfg: Config, s: State, a: Action)
    requires Enabled(cfg, s, a) && (a.PublishAck? || a.PublishFail? || a.Abandon?)
    ensures Work(cfg, Next(cfg, s, a)) < Work(cfg, s)
  {
    var s' := Next(cfg, s, a);
    assert s'.rows == s.rows && s'.workers == s.workers[a.w := s'.workers[a.w]];
    FleetUpdate(s.workers, a.w, s'.workers[a.w]);
  }

  lemma MarkShrinks(cfg: Config, s: State, a: Action, id: Uuid)
    requires Enabled(cfg, s, a) && (a.MarkPublished? || a.MarkFailed? || a.MarkClose? || a.MarkError?)
    requires id in s.rows && Next(cfg, s, a).rows[id].attempts <= Ceiling(cfg)
    ensures RowWork(cfg, Next(cfg, s, a).rows[id]) <= RowWork(cfg, s.rows[id])
  {
  }

  lemma MarkWorks(cfg: Config, s: State, a: Action)
    requires Enabled(cfg, s, a) && WithinCeiling(cfg, Next(cfg, s, a))
    requires a.MarkPublished? || a.MarkFailed? || a.MarkClose? || a.MarkError?
    ensures Work(cfg, Next(cfg, s, a)) < Work(cfg, s)
  {
    var s' := Next(cfg, s, a);
    FleetUpdate(s.workers, a.w, Advance(s.workers[a.w], s.now));
    assert s'.workers == s.workers[a.w := Advance(s.workers[a.w], s.now)] && s'.rows.Keys == s.rows.Keys;
    forall id | id in s.rows ensures RowWork(cfg, s'.rows[id]) <= RowWork(cfg, s.rows[id]) {
      assert id in s'.rows;
      MarkShrinks(cfg, s, a, id);
    }
    RowsShrink(cfg, s.rows, s'.rows);
  }

  lemma {:induction false} InitWorks(n: nat)
    ensures FleetWork(seq(n, _ => IDLE)) == 0
  {
    if n > 0 {
      InitWorks(n - 1);
      assert seq(n, _ => IDLE)[..n - 1] == seq(n - 1, _ => IDLE);
    }
  }

  /** Every schedule drains: the steps its workers take, together with the work that is left, are at most what
      was ingested and reclaimed. Without ingestion or reclaims the work left strictly shrinks at every step. */
  lemma {:induction false} WorkIsBounded(cfg: Config, run: seq<Action>)
    requires Exec(cfg, run).Some?
    ensures WorkSteps(run) + Work(cfg, Exec(cfg, run).value) <= Supply(cfg, run)
  {
    if run == [] {
      InitWorks(cfg.workers);
      assert RowWorks(cfg, Init(cfg).rows) == map[];
    } else {
      var before := run[..|run| - 1];
      var s := Exec(cfg, before).value;
      var a := run[|run| - 1];
      WorkIsBounded(cfg, before);
      AlwaysWithinCeiling(cfg, before);
      AlwaysWithinCeiling(cfg, run);
      match a
      case Ingest(_, _, _, _, _) => IngestWorks(cfg, s, a);
      case Tick(_) =>
      case Claim(_, _, _) => ClaimWorks(cfg, s, a);
      case Reclaim(_, _, _) => ReclaimWorks(cfg, s, a);
      case PublishAck(_) => AnswerWorks(cfg, s, a);
      case PublishFail(_, _) => AnswerWorks(cfg, s, a);
      case Abandon(_) => AnswerWorks(cfg, s, a);
      case _ => MarkWorks(cfg, s, a);
    }
  }

  /** A row in PROCESSING is in a worker's hands, or some delivery of it was given up. */
  ghost predicate Accounted(s: State, id: Uuid) {
    InProcessing(s.rows, id) ==>
        s.Of(id).drops > 0 || exists w :: 0 <= w < |s.workers| && InBatch(s.workers[w].batch, id)
  }

  /** A mark that is applied takes the row out of PROCESSING; every other way out of a worker's hands is counted. */
  lemma LettingGo(cfg: Config, s: State, a: Action, w: nat, id: Uuid)
    requires Enabled(cfg, s, a) && InProcessing(s.rows, id)
    requires w < |s.workers| && InBatch(s.workers[w].batch, id) && LetsGo(s, a, w, id)
    ensures Drops(s, a, id) || !InProcessing(Next(cfg, s, a).rows, id)
  {
  }

  lemma AccountedKept(cfg: Config, s: State, a: Action, id: Uuid)
    requires Consistent(cfg, s) && Enabled(cfg, s, a) && Accounted(s, id)
    ensures Accounted(Next(cfg, s, a), id)
  {
    var s' := Next(cfg, s, a);
    if InProcessing(s.rows, id) {
      DropTally(cfg, s, a, id);
      if w :| 0 <= w < |s.workers| && InBatch(s.workers[w].batch, id) {
        if LetsGo(s, a, w, id) {
          LettingGo(cfg, s, a, w, id);
        } else {
          HandKept(cfg, s, a, w, id);
        }
      }
    } else if InProcessing(s'.rows, id) {
      ClaimFillsHand(cfg, s, a, id);
    }
  }

  lemma {:induction false} AlwaysAccounted(cfg: Config, run: seq<Action>, id: Uuid)
    requires Exec(cfg, run).Some?
    ensures Accounted(Exec(cfg, run).value, id)
  {
    if run != [] {
      var before := run[..|run| - 1];
      AlwaysAccounted(cfg, before, id);
      AlwaysConsistent(cfg, before);
      AccountedKept(cfg, Exec(cfg, before).value, run[|run| - 1], id);
    }
  }

  /** Steps forward: a claim that finds rows, an answer of the publisher, the mark that is due, a reclaim that frees
      rows. Giving up and failing do not count. */
  predicate Effective(a: Action) {
    (IsWork(a) && !a.Abandon? && !a.MarkError?) || (a.Reclaim? && a.stale != {})
  }

  predicate Possible(cfg: Config, s: State, wait: nat, a: Action) {
    Effective(a) && Enabled(cfg, s.(now := s.now + wait), a)
  }

  /** After some wait, a worker can take a step or a reclaim has something to free. */
  ghost predicate CanGoOn(cfg: Config, s: State) {
    exists wait, a :: Possible(cfg, s, wait, a)
  }

  /** Finished for good: published, closed, or left in PROCESSING with reclaiming switched off. */
  predicate Settled(cfg: Config, s: State) {
    && (forall w :: 0 <= w < |s.workers| ==> s.workers[w].batch == [])
    && (forall id :: id in s.rows ==>
          s.rows[id].status == Published || s.rows[id].status == Close
          || (s.rows[id].status == Processing && cfg.staleTimeout <= 0))
  }

  lemma BusyCanGoOn(cfg: Config, s: State, w: nat)
    requires Busy(s, w)
    ensures CanGoOn(cfg, s)
  {
    var a := match s.workers[w].phase
      case Publishing => PublishAck(w)
      case Acked => MarkPublished(w, s.now)
      case Failing(_) => if Exhausted(cfg, Head(s, w)) then MarkClose(w) else MarkFailed(w, s.now);
    assert s.(now := s.now + 0) == s;
    assert Possible(cfg, s, 0, a);
  }

  lemma PendingCanGoOn(cfg: Config, s: State, id: Uuid)
    requires cfg.batchSize > 0 && |s.workers| > 0
    requires s.workers[0].batch == [] && id in s.rows && s.rows[id].status == Pending
    ensures CanGoOn(cfg, s)
  {
    var wait: nat := if s.rows[id].availableAt > s.now then s.rows[id].availableAt - s.now else 0;
    assert Possible(cfg, s, wait, Claim(0, [id], s.now + wait));
  }

  lemma ProcessingCanGoOn(cfg: Config, s: State, id: Uuid)
    requires cfg.staleTimeout > 0 && |s.workers| > 0 && s.workers[0].batch == []
    requires id in s.rows && s.rows[id].status == Processing && s.rows[id].processingAt.Some?
    ensures CanGoOn(cfg, s)
  {
    var stale := s.rows[id].processingAt.value + cfg.staleTimeout;
    var wait: nat := if stale > s.now then stale - s.now else 0;
    var a := Reclaim(0, {id}, s.now + wait);
    assert Effective(a) by { assert id in a.stale; }
    assert Possible(cfg, s, wait, a);
  }

  lemma SettledStops(cfg: Config, s: State, wait: nat, a: Action)
    requires Settled(cfg, s)
    ensures !Possible(cfg, s, wait, a)
  {
    if Effective(a) {
      match a
      case Claim(_, ids, _) => assert ids[0] in ids;
      case Reclaim(_, stale, _) => var id :| id in stale;
      case _ =>
    }
  }

  /** A schedule has come to its end exactly when the fleet is idle and every row is PUBLISHED or CLOSE; the only
      other rows are given-up deliveries, and only while reclaiming is switched off. */
  lemma {:induction false} StuckMeansDone(cfg: Config, run: seq<Action>)
    requires Exec(cfg, run).Some?
    requires cfg.workers > 0 && cfg.batchSize > 0
    ensures var s := Exec(cfg, run).value;
      && (!CanGoOn(cfg, s) <==> Settled(cfg, s))
      && (Settled(cfg, s) ==> forall id :: id in s.rows && s.rows[id].status == Processing ==> s.Of(id).drops > 0)
  {
    var s := Exec(cfg, run).value;
    AlwaysConsistent(cfg, run);
    if Settled(cfg, s) {
      forall wait, a ensures !Possible(cfg, s, wait, a) {
        SettledStops(cfg, s, wait, a);
      }
      forall id | id in s.rows && s.rows[id].status == Processing ensures s.Of(id).drops > 0 {
        AlwaysAccounted(cfg, run, id);
      }
    } else if w :| 0 <= w < |s.workers| && s.workers[w].batch != [] {
      BusyCanGoOn(cfg, s, w);
    } else {
      var id :| id in s.rows && s.rows[id].status != Published && s.rows[id].status != Close
        && !(s.rows[id].status == Processing && cfg.staleTimeout <= 0);
      if s.rows[id].status == Pending {
        PendingCanGoOn(cfg, s, id);
      } else {
        assert RowOk(cfg, s, id);
        ProcessingCanGoOn(cfg, s, id);
      }
    }
  }
}
