/** Claiming at the granularity of row locks: SELECT ... ORDER BY created_at LIMIT n FOR UPDATE SKIP LOCKED walks
    its candidates one row at a time, among other claims doing the same. Every such schedule is a schedule of the
    protocol, in which a claim is one atomic step. */
module ClaimLocks {
  import opened Wrappers
  import opened Outbox
  import opened Protocol
  import opened Agreement
  import opened Guarantees

  /** An open claim transaction. `candidates` is the query's snapshot in order, `cursor` the next one to visit,
      `picked` the rows locked, `skipped` the ones passed over. */
  datatype Tx =
    | NoTx
    | Selecting(started: Time, candidates: seq<Uuid>, cursor: nat, picked: seq<Uuid>, skipped: set<Uuid>)

  datatype Locking = Locking(db: State, txs: seq<Tx>)

  datatype Step =
    | Begin(w: nat, started: Time, candidates: seq<Uuid>)
    | Visit(w: nat)
    | Commit(w: nat)
    | Rollback(w: nat)
    | Plain(a: Action)

  /** The result set of the query before LIMIT and locks: the claimable rows, oldest first. */
  ghost predicate Selected(rows: Table, started: Time, candidates: seq<Uuid>) {
    && Distinct(candidates)
    && (forall id :: id in candidates <==> id in rows && Claimable(rows[id], started))
    && (forall i, j :: 0 <= i < j < |candidates| ==> rows[candidates[i]].createdAt <= rows[candidates[j]].createdAt)
  }

  predicate LockedBy(l: Locking, w: nat, id: Uuid) {
    w < |l.txs| && l.txs[w].Selecting? && id in l.txs[w].picked
  }

  predicate Locked(l: Locking, id: Uuid) {
    exists w :: 0 <= w < |l.txs| && LockedBy(l, w, id)
  }

  /** The rows an action's statement has to lock itself. */
  function Touched(s: State, a: Action): set<Uuid>
  {
    match a
    case Reclaim(_, stale, _) => stale
    case MarkPublished(w, _) => if Busy(s, w) then {Head(s, w).id} else {}
    case MarkFailed(w, _) => if Busy(s, w) then {Head(s, w).id} else {}
    case MarkClose(w) => if Busy(s, w) then {Head(s, w).id} else {}
    case _ => {}
  }

  ghost predicate StepEnabled(cfg: Config, l: Locking, step: Step) {
    match step
    case Begin(w, started, candidates) =>
      && w < |l.txs| && l.txs[w].NoTx? && w < |l.db.workers| && l.db.workers[w].batch == []
      && started <= l.db.now && Selected(l.db.rows, started, candidates)
    case Visit(w) =>
      && w < |l.txs| && l.txs[w].Selecting?
      && l.txs[w].cursor < |l.txs[w].candidates| && |l.txs[w].picked| < cfg.batchSize
    case Commit(w) =>
      && w < |l.txs| && l.txs[w].Selecting?
      && (l.txs[w].cursor >= |l.txs[w].candidates| || |l.txs[w].picked| >= cfg.batchSize)
    case Rollback(w) => w < |l.txs| && l.txs[w].Selecting?
    case Plain(a) =>
      && !a.Claim? && Enabled(cfg, l.db, a)
      && (a.Reclaim? ==> a.w < |l.txs| && l.txs[a.w].NoTx?)   // a worker reclaims before it claims
      && forall id :: id in Touched(l.db, a) ==> !Locked(l, id)
  }

  /** A row locked by another transaction is skipped; a row changed since the snapshot is re-checked. */
  predicate Takes(l: Locking, tx: Tx, id: Uuid)
    requires tx.Selecting?
  {
    !Locked(l, id) && id in l.db.rows && Claimable(l.db.rows[id], tx.started)
  }

  function VisitNext(l: Locking, tx: Tx): Tx
    requires tx.Selecting? && tx.cursor < |tx.candidates|
  {
    var id := tx.candidates[tx.cursor];
    if Takes(l, tx, id) then tx.(cursor := tx.cursor + 1, picked := tx.picked + [id])
    else tx.(cursor := tx.cursor + 1, skipped := tx.skipped + {id})
  }

  /** What a committed transaction amounts to. */
  function AsClaim(w: nat, tx: Tx): Action
    requires tx.Selecting?
  {
    Claim(w, tx.picked, tx.started)
  }

  ghost predicate TxOk(cfg: Config, l: Locking, w: nat)
    requires w < |l.txs|
  {
    var tx := l.txs[w];
    tx.Selecting? ==>
      && w < |l.db.workers| && l.db.workers[w].batch == []
      && tx.started <= l.db.now
      && tx.cursor <= |tx.candidates| && |tx.picked| <= cfg.batchSize
      && Distinct(tx.candidates) && Distinct(tx.picked)
      && (forall i :: 0 <= i < |tx.candidates| ==> tx.candidates[i] in l.db.rows)
      && (forall i, j :: 0 <= i < j < |tx.candidates| ==>
            l.db.rows[tx.candidates[i]].createdAt <= l.db.rows[tx.candidates[j]].createdAt)
      && (forall i :: 0 <= i < tx.cursor ==> tx.candidates[i] in tx.picked || tx.candidates[i] in tx.skipped)
      && (forall id :: id in tx.picked ==>
          id in l.db.rows && Claimable(l.db.rows[id], tx.started) && id in tx.candidates[..tx.cursor])
  }

  ghost predicate Orderly(cfg: Config, l: Locking) {
    && Consistent(cfg, l.db)
    && |l.txs| == |l.db.workers|
    && (forall w :: 0 <= w < |l.txs| ==> TxOk(cfg, l, w))
    && (forall w, v, id :: 0 <= w < |l.txs| && 0 <= v < |l.txs| && w != v && LockedBy(l, w, id) ==> !LockedBy(l, v, id))
  }

  /** Rows locked by a claim stay claimable until it ends, so its commit is the protocol's atomic claim. */
  lemma CommitIsClaim(cfg: Config, l: Locking, w: nat)
    requires Orderly(cfg, l) && w < |l.txs| && l.txs[w].Selecting?
    ensures Enabled(cfg, l.db, AsClaim(w, l.txs[w]))
  {
    assert TxOk(cfg, l, w);
  }

  function StepNext(cfg: Config, l: Locking, step: Step): Locking
    requires StepEnabled(cfg, l, step)
    requires step.Commit? ==> Enabled(cfg, l.db, AsClaim(step.w, l.txs[step.w]))
  {
    match step
    case Begin(w, started, candidates) => l.(txs := l.txs[w := Selecting(started, candidates, 0, [], {})])
    case Visit(w) => l.(txs := l.txs[w := VisitNext(l, l.txs[w])])
    case Commit(w) => Locking(Next(cfg, l.db, AsClaim(w, l.txs[w])), l.txs[w := NoTx])
    case Rollback(w) => l.(txs := l.txs[w := NoTx])
    case Plain(a) => l.(db := Next(cfg, l.db, a))
  }

  /** Other statements wait for the locks, so a locked row does not change under them. */
  lemma LockedRowsKept(cfg: Config, l: Locking, a: Action, id: Uuid)
    requires Consistent(cfg, l.db) && StepEnabled(cfg, l, Plain(a)) && Locked(l, id) && id in l.db.rows
    ensures id in Next(cfg, l.db, a).rows && Next(cfg, l.db, a).rows[id] == l.db.rows[id]
  {
    assert id !in Touched(l.db, a);
  }

  /** While one claim commits, the rows locked by the others are not among its own. */
  lemma CommitSparesOthers(cfg: Config, l: Locking, w: nat, v: nat, id: Uuid)
    requires Orderly(cfg, l) && w < |l.txs| && v < |l.txs| && w != v && l.txs[w].Selecting? && LockedBy(l, v, id)
    requires Enabled(cfg, l.db, AsClaim(w, l.txs[w]))
    ensures id in l.db.rows && Next(cfg, l.db, AsClaim(w, l.txs[w])).rows[id] == l.db.rows[id]
  {
    assert TxOk(cfg, l, v);
    assert !LockedBy(l, w, id);
  }

  /** A transaction stays in order when the database changes without touching its rows. */
  lemma TxOkFrame(cfg: Config, l: Locking, l': Locking, w: nat)
    requires w < |l.txs| == |l'.txs| && TxOk(cfg, l, w) && l'.txs[w] == l.txs[w] && l.txs[w].Selecting?
    requires |l'.db.workers| == |l.db.workers| && l'.db.workers[w] == l.db.workers[w] && l.db.now <= l'.db.now
    requires forall id :: id in l.db.rows ==> id in l'.db.rows && l'.db.rows[id].createdAt == l.db.rows[id].createdAt
    requires forall id :: id in l.txs[w].picked ==> l'.db.rows[id] == l.db.rows[id]
    ensures TxOk(cfg, l', w)
  {
  }

  lemma VisitKept(cfg: Config, l: Locking, w: nat)
    requires Orderly(cfg, l) && StepEnabled(cfg, l, Visit(w))
    ensures TxOk(cfg, StepNext(cfg, l, Visit(w)), w)
  {
    assert TxOk(cfg, l, w);
    var tx := l.txs[w];
    var id := tx.candidates[tx.cursor];
    assert tx.candidates[..tx.cursor + 1] == tx.candidates[..tx.cursor] + [id];
    NotYetPicked(cfg, l, w);
  }

  lemma NotYetPicked(cfg: Config, l: Locking, w: nat)
    requires w < |l.txs| && TxOk(cfg, l, w) && l.txs[w].Selecting? && l.txs[w].cursor < |l.txs[w].candidates|
    ensures l.txs[w].candidates[l.txs[w].cursor] !in l.txs[w].picked
  {
    var tx := l.txs[w];
    var id := tx.candidates[tx.cursor];
    assert id !in tx.candidates[..tx.cursor];
  }

  lemma PlainKept(cfg: Config, l: Locking, a: Action, w: nat)
    requires Orderly(cfg, l) && StepEnabled(cfg, l, Plain(a)) && w < |l.txs|
    ensures TxOk(cfg, StepNext(cfg, l, Plain(a)), w)
  {
    var tx := l.txs[w];
    if tx.Selecting? {
      assert TxOk(cfg, l, w);
      RowsEvolve(cfg, l.db, a);
      forall id | id in l.db.rows
        ensures id in Next(cfg, l.db, a).rows && Next(cfg, l.db, a).rows[id].createdAt == l.db.rows[id].createdAt
      {
        assert RowEvolves(l.db.rows[id], Next(cfg, l.db, a).rows[id]);
      }
      forall id | id in tx.picked ensures Next(cfg, l.db, a).rows[id] == l.db.rows[id] {
        assert LockedBy(l, w, id);
        LockedRowsKept(cfg, l, a, id);
      }
      TxOkFrame(cfg, l, StepNext(cfg, l, Plain(a)), w);
    }
  }

  lemma CommitKept(cfg: Config, l: Locking, w: nat, v: nat)
    requires Orderly(cfg, l) && StepEnabled(cfg, l, Commit(w)) && v < |l.txs| && v != w
    requires Enabled(cfg, l.db, AsClaim(w, l.txs[w]))
    ensures TxOk(cfg, StepNext(cfg, l, Commit(w)), v)
  {
    var tx := l.txs[v];
    if tx.Selecting? {
      assert TxOk(cfg, l, v);
      forall id | id in tx.picked ensures Next(cfg, l.db, AsClaim(w, l.txs[w])).rows[id] == l.db.rows[id] {
        assert LockedBy(l, v, id);
        CommitSparesOthers(cfg, l, w, v, id);
      }
      TxOkFrame(cfg, l, StepNext(cfg, l, Commit(w)), v);
    }
  }

  lemma DisjointLocks(cfg: Config, l: Locking, step: Step, w: nat, v: nat, id: Uuid)
    requires Orderly(cfg, l) && StepEnabled(cfg, l, step) && w < |l.txs| && v < |l.txs| && w != v
    requires step.Commit? ==> Enabled(cfg, l.db, AsClaim(step.w, l.txs[step.w]))
    requires LockedBy(StepNext(cfg, l, step), w, id)
    ensures !LockedBy(StepNext(cfg, l, step), v, id)
  {
    if LockedBy(l, w, id) {
      assert Locked(l, id) && !LockedBy(l, v, id);
    } else if LockedBy(l, v, id) {
      assert Locked(l, id);
    }
  }

  lemma OrderlyKept(cfg: Config, l: Locking, step: Step)
    requires Orderly(cfg, l) && StepEnabled(cfg, l, step)
    requires step.Commit? ==> Enabled(cfg, l.db, AsClaim(step.w, l.txs[step.w]))
    ensures Orderly(cfg, StepNext(cfg, l, step))
  {
    var l' := StepNext(cfg, l, step);
    match step {
      case Plain(a) => ConsistentKept(cfg, l.db, a);
      case Commit(w) => ConsistentKept(cfg, l.db, AsClaim(w, l.txs[w]));
      case _ =>
    }
    forall w | 0 <= w < |l'.txs| ensures TxOk(cfg, l', w) {
      assert TxOk(cfg, l, w);
      match step {
        case Begin(_, _, _) => if w == step.w { BeginKept(cfg, l, step); }
        case Visit(_) => if w == step.w { VisitKept(cfg, l, w); }
        case Commit(_) => if w != step.w { CommitKept(cfg, l, step.w, w); }
        case Rollback(_) =>
        case Plain(a) => PlainKept(cfg, l, a, w);
      }
    }
    forall w, v, id | 0 <= w < |l'.txs| && 0 <= v < |l'.txs| && w != v && LockedBy(l', w, id)
      ensures !LockedBy(l', v, id)
    {
      DisjointLocks(cfg, l, step, w, v, id);
    }
  }

  lemma BeginKept(cfg: Config, l: Locking, step: Step)
    requires Orderly(cfg, l) && StepEnabled(cfg, l, step) && step.Begin?
    ensures TxOk(cfg, StepNext(cfg, l, step), step.w)
  {
    forall i | 0 <= i < |step.candidates| ensures step.candidates[i] in l.db.rows {
      assert step.candidates[i] in step.candidates;
    }
  }

  // ---------------------------------------------------------------- runs

  /** A state that a schedule of lock-level steps may lead to. The condition on commits is never in the way: see
      CommitNeverFails. */
  ghost predicate Leads(cfg: Config, steps: seq<Step>, l: Locking)
    decreases |steps|
  {
    if steps == [] then l == Locking(Init(cfg), seq(cfg.workers, _ => NoTx))
    else
      var step := steps[|steps| - 1];
      exists before ::
        && Leads(cfg, steps[..|steps| - 1], before)
        && StepEnabled(cfg, before, step)
        && (step.Commit? ==> Enabled(cfg, before.db, AsClaim(step.w, before.txs[step.w])))
        && l == StepNext(cfg, before, step)
  }

  lemma {:induction false} AlwaysOrderly(cfg: Config, steps: seq<Step>, l: Locking)
    requires Leads(cfg, steps, l)
    ensures Orderly(cfg, l)
    decreases |steps|
  {
    if steps == [] {
      AlwaysConsistent(cfg, []);
    } else {
      var step := steps[|steps| - 1];
      var before :|
        && Leads(cfg, steps[..|steps| - 1], before)
        && StepEnabled(cfg, before, step)
        && (step.Commit? ==> Enabled(cfg, before.db, AsClaim(step.w, before.txs[step.w])))
        && l == StepNext(cfg, before, step);
      AlwaysOrderly(cfg, steps[..|steps| - 1], before);
      OrderlyKept(cfg, before, step);
    }
  }

  /** Every schedule of locks, visits, commits and rollbacks is a schedule of the protocol on the same database, in
      which each committed claim is one atomic step and everything else about claiming is invisible. */
  lemma {:induction false} LocksRefineClaim(cfg: Config, steps: seq<Step>, l: Locking) returns (run: seq<Action>)
    requires Leads(cfg, steps, l)
    ensures Exec(cfg, run) == Some(l.db)
    decreases |steps|
  {
    if steps == [] {
      run := [];
    } else {
      var step := steps[|steps| - 1];
      var before :|
        && Leads(cfg, steps[..|steps| - 1], before)
        && StepEnabled(cfg, before, step)
        && (step.Commit? ==> Enabled(cfg, before.db, AsClaim(step.w, before.txs[step.w])))
        && l == StepNext(cfg, before, step);
      run := LocksRefineClaim(cfg, steps[..|steps| - 1], before);
      if step.Plain? || step.Commit? {
        var a := if step.Plain? then step.a else AsClaim(step.w, before.txs[step.w]);
        Extend(cfg, run, a);
        run := run + [a];
      }
    }
  }

  /** No commit is ever in the way: an open claim that has walked its candidates can always commit. */
  lemma {:induction false} CommitNeverFails(cfg: Config, steps: seq<Step>, l: Locking, w: nat)
    requires Leads(cfg, steps, l) && w < |l.txs| && l.txs[w].Selecting?
    ensures Enabled(cfg, l.db, AsClaim(w, l.txs[w]))
  {
    AlwaysOrderly(cfg, steps, l);
    CommitIsClaim(cfg, l, w);
  }

  /** Claims open at the same time hold disjoint sets of distinct rows, each within the limit. */
  lemma ConcurrentClaimsDisjoint(cfg: Config, steps: seq<Step>, l: Locking, w: nat, v: nat)
    requires Leads(cfg, steps, l) && w < |l.txs| && v < |l.txs| && w != v
    requires l.txs[w].Selecting? && l.txs[v].Selecting?
    ensures Distinct(l.txs[w].picked + l.txs[v].picked)
    ensures |l.txs[w].picked| <= cfg.batchSize
  {
    AlwaysOrderly(cfg, steps, l);
    assert TxOk(cfg, l, w) && TxOk(cfg, l, v);
    var both := l.txs[w].picked + l.txs[v].picked;
    forall i, j | 0 <= i < j < |both| ensures both[i] != both[j] {
      if i < |l.txs[w].picked| <= j {
        assert LockedBy(l, w, both[i]) && LockedBy(l, v, both[j]);
      }
    }
  }

  /** Oldest first: when a claim is about to commit, each row that was claimable at its query is taken, or was
      passed over while locked by another claim or no longer claimable, or the limit was reached and the row is no
      older than any row taken. */
  lemma OldestFirst(cfg: Config, steps: seq<Step>, l: Locking, w: nat, id: Uuid, taken: Uuid)
    requires Leads(cfg, steps, l) && StepEnabled(cfg, l, Commit(w))
    requires id in l.txs[w].candidates && taken in l.txs[w].picked
    ensures id in l.txs[w].picked || id in l.txs[w].skipped
      || (|l.txs[w].picked| == cfg.batchSize && id in l.db.rows && taken in l.db.rows
          && l.db.rows[taken].createdAt <= l.db.rows[id].createdAt)
  {
    AlwaysOrderly(cfg, steps, l);
    assert TxOk(cfg, l, w);
    var tx := l.txs[w];
    var i :| 0 <= i < |tx.candidates| && tx.candidates[i] == id;
    if i >= tx.cursor {
      assert taken in tx.candidates[..tx.cursor];
      var j :| 0 <= j < tx.cursor && tx.candidates[j] == taken;
    }
  }

  /** A candidate is passed over only while another claim holds it or once it has ceased to be claimable. */
  lemma {:induction false} SkippedForCause(cfg: Config, steps: seq<Step>, l: Locking, w: nat)
    requires Leads(cfg, steps, l) && StepEnabled(cfg, l, Visit(w))
    ensures var tx, tx' := l.txs[w], StepNext(cfg, l, Visit(w)).txs[w];
      var id := tx.candidates[tx.cursor];
      && (tx'.picked == tx.picked + [id] <==>
            id in l.db.rows && Claimable(l.db.rows[id], tx.started)
            && forall v :: 0 <= v < |l.txs| && v != w ==> !LockedBy(l, v, id))
      && (tx'.picked == tx.picked + [id] || (tx'.picked == tx.picked && tx'.skipped == tx.skipped + {id}))
  {
    AlwaysOrderly(cfg, steps, l);
    assert TxOk(cfg, l, w);
    var tx := l.txs[w];
    var id := tx.candidates[tx.cursor];
    NotYetPicked(cfg, l, w);
    assert !LockedBy(l, w, id);
  }
}
