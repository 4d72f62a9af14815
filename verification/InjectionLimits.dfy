/** Exactly when failure injection cannot close an event. */
module InjectionLimits {
  import opened Wrappers
  import opened Outbox
  import opened Protocol
  import opened Agreement
  import opened Injection

  lemma StepRuns(cfg: Config, inj: Injection, steps: seq<Step>, step: Step)
    requires JointExec(cfg, inj, steps).Some? && StepEnabled(cfg, JointExec(cfg, inj, steps).value, step)
    requires InnerNeverRefuses(steps) && (step.Deliver? ==> step.inner == Ack)
    ensures JointExec(cfg, inj, steps + [step]) == Some(StepNext(cfg, inj, JointExec(cfg, inj, steps).value, step))
    ensures InnerNeverRefuses(steps + [step])
  {
    assert (steps + [step])[..|steps|] == steps;
  }

  /** A schedule with the single row 0, whose refusals were all injected, and an idle first worker. */
  predicate Failed(cfg: Config, inj: Injection, steps: seq<Step>, eventType: string, status: Status, attempts: nat,
                   refusals: nat) {
    && JointExec(cfg, inj, steps).Some?
    && InnerNeverRefuses(steps)
    && var j := JointExec(cfg, inj, steps).value;
    && |j.outbox.workers| > 0 && j.outbox.workers[0].batch == []
    && j.outbox.rows.Keys == {0}
    && j.outbox.rows[0].eventType == eventType
    && j.outbox.rows[0].status == status && j.outbox.rows[0].attempts == attempts
    && j.counters.FailuresOf(0) <= refusals
  }

  /** The injector can fail every one of the first `maxRetries + 1` attempts. */
  predicate Harsh(cfg: Config, inj: Injection, eventType: string) {
    eventType in inj.permanentTypes || !Mild(cfg, inj)
  }

  /** The same with row 0 in the hands of the first worker, in the given phase. */
  predicate Taken(cfg: Config, inj: Injection, steps: seq<Step>, eventType: string, attempts: nat, failing: bool,
                  refusals: nat) {
    && JointExec(cfg, inj, steps).Some?
    && InnerNeverRefuses(steps)
    && var j := JointExec(cfg, inj, steps).value;
    && |j.outbox.workers| > 0
    && |j.outbox.workers[0].batch| == 1
    && var e := j.outbox.workers[0].batch[0];
    && e.id == 0 && e.attempts == attempts && e.eventType == eventType
    && (if failing then j.outbox.workers[0].phase.Failing? else j.outbox.workers[0].phase == Publishing)
    && j.outbox.rows.Keys == {0}
    && j.outbox.rows[0].eventType == eventType
    && j.outbox.rows[0].status == Processing && j.outbox.rows[0].attempts == attempts
    && j.counters.FailuresOf(0) <= refusals
  }

  lemma Take(cfg: Config, inj: Injection, steps: seq<Step>, eventType: string, attempts: nat)
      returns (steps': seq<Step>)
    requires cfg.batchSize > 0 && Failed(cfg, inj, steps, eventType, Pending, attempts, attempts)
    ensures Taken(cfg, inj, steps', eventType, attempts, false, attempts)
  {
    var s := JointExec(cfg, inj, steps).value.outbox;
    var due := s.rows[0].availableAt;
    var tick := Other(Tick(if due > s.now then due - s.now else 0));
    StepRuns(cfg, inj, steps, tick);
    var s1 := JointExec(cfg, inj, steps + [tick]).value.outbox;
    var claim := Other(Claim(0, [0], s1.now));
    StepRuns(cfg, inj, steps + [tick], claim);
    steps' := steps + [tick] + [claim];
    assert JointExec(cfg, inj, steps').value.outbox.workers[0].batch == [Snapshot(0, s1.rows[0])];
  }

  lemma Injected(cfg: Config, inj: Injection, steps: seq<Step>, eventType: string, attempts: nat)
      returns (steps': seq<Step>)
    requires Harsh(cfg, inj, eventType) && attempts <= cfg.maxRetries
    requires Taken(cfg, inj, steps, eventType, attempts, false, attempts)
    ensures Taken(cfg, inj, steps', eventType, attempts, true, attempts + 1)
  {
    var publish := Deliver(0, 0.0, Ack);
    var j := JointExec(cfg, inj, steps).value;
    StepRuns(cfg, inj, steps, publish);
    steps' := steps + [publish];
    assert Act(cfg, inj, j, publish).PublishFail?;
  }

  lemma PutBack(cfg: Config, inj: Injection, steps: seq<Step>, eventType: string, attempts: nat)
      returns (steps': seq<Step>)
    requires Taken(cfg, inj, steps, eventType, attempts, true, attempts + 1) && attempts < cfg.maxRetries
    ensures Failed(cfg, inj, steps', eventType, Pending, attempts + 1, attempts + 1)
  {
    var mark := Other(MarkFailed(0, JointExec(cfg, inj, steps).value.outbox.now));
    StepRuns(cfg, inj, steps, mark);
    steps' := steps + [mark];
  }

  lemma ShutDown(cfg: Config, inj: Injection, steps: seq<Step>, eventType: string, attempts: nat)
      returns (steps': seq<Step>)
    requires Taken(cfg, inj, steps, eventType, attempts, true, attempts + 1) && attempts >= cfg.maxRetries
    ensures Failed(cfg, inj, steps', eventType, Close, attempts, attempts + 1)
  {
    StepRuns(cfg, inj, steps, Other(MarkClose(0)));
    steps' := steps + [Other(MarkClose(0))];
  }

  /** One failed delivery: back to PENDING within the budget, to CLOSE at its end. */
  lemma FailOnce(cfg: Config, inj: Injection, steps: seq<Step>, eventType: string, attempts: nat)
      returns (steps': seq<Step>)
    requires cfg.batchSize > 0 && Harsh(cfg, inj, eventType) && attempts <= cfg.maxRetries
    requires Failed(cfg, inj, steps, eventType, Pending, attempts, attempts)
    ensures attempts < cfg.maxRetries ==> Failed(cfg, inj, steps', eventType, Pending, attempts + 1, attempts + 1)
    ensures attempts == cfg.maxRetries ==> Failed(cfg, inj, steps', eventType, Close, attempts, attempts + 1)
  {
    var taken := Take(cfg, inj, steps, eventType, attempts);
    var failed := Injected(cfg, inj, taken, eventType, attempts);
    if attempts < cfg.maxRetries {
      steps' := PutBack(cfg, inj, failed, eventType, attempts);
    } else {
      steps' := ShutDown(cfg, inj, failed, eventType, attempts);
    }
  }

  lemma {:induction false} FailUpTo(cfg: Config, inj: Injection, eventType: string, attempts: nat)
      returns (steps: seq<Step>)
    requires cfg.workers > 0 && cfg.batchSize > 0 && Harsh(cfg, inj, eventType) && attempts <= cfg.maxRetries
    ensures Failed(cfg, inj, steps, eventType, Pending, attempts, attempts)
  {
    if attempts == 0 {
      var ingest := Other(Ingest(0, 0, eventType, Json(map[]), 0));
      StepRuns(cfg, inj, [], ingest);
      steps := [] + [ingest];
    } else {
      steps := FailUpTo(cfg, inj, eventType, attempts - 1);
      steps := FailOnce(cfg, inj, steps, eventType, attempts - 1);
    }
  }

  /** In no schedule is an event of this type closed, as long as the wrapped publisher refuses nothing. */
  ghost predicate NeverCloses(cfg: Config, inj: Injection, eventType: string) {
    forall steps: seq<Step>, id ::
      JointExec(cfg, inj, steps).Some? && InnerNeverRefuses(steps)
      && id in JointExec(cfg, inj, steps).value.outbox.rows
      && JointExec(cfg, inj, steps).value.outbox.rows[id].eventType == eventType
      ==> JointExec(cfg, inj, steps).value.outbox.rows[id].status != Close
  }

  /** Injection leaves the outcome of a type pinned exactly when the type is not a permanently failing one and the
      per-event cap lies within the retry budget (or nothing is injected, or no worker ever claims a row). */
  lemma NeverClosesWhen(cfg: Config, inj: Injection, eventType: string)
    ensures NeverCloses(cfg, inj, eventType)
      <==> (eventType !in inj.permanentTypes && Mild(cfg, inj)) || cfg.workers == 0 || cfg.batchSize == 0
  {
    if cfg.workers == 0 || cfg.batchSize == 0 {
      forall steps: seq<Step>, id
        | JointExec(cfg, inj, steps).Some?
          && id in JointExec(cfg, inj, steps).value.outbox.rows
        ensures JointExec(cfg, inj, steps).value.outbox.rows[id].status != Close
      {
        ProjectRuns(cfg, inj, steps);
        NobodyWorks(cfg, Project(cfg, inj, steps));
      }
    } else if Harsh(cfg, inj, eventType) {
      var steps := FailUpTo(cfg, inj, eventType, cfg.maxRetries);
      steps := FailOnce(cfg, inj, steps, eventType, cfg.maxRetries);
      assert JointExec(cfg, inj, steps).value.outbox.rows[0].status == Close;
    } else {
      forall steps: seq<Step>, id
        | JointExec(cfg, inj, steps).Some? && InnerNeverRefuses(steps)
          && id in JointExec(cfg, inj, steps).value.outbox.rows
          && JointExec(cfg, inj, steps).value.outbox.rows[id].eventType == eventType
        ensures JointExec(cfg, inj, steps).value.outbox.rows[id].status != Close
      {
        AlwaysSpared(cfg, inj, steps);
      }
    }
  }

  lemma {:induction false} NobodyWorks(cfg: Config, run: seq<Action>)
    requires Exec(cfg, run).Some? && (cfg.workers == 0 || cfg.batchSize == 0)
    ensures var s := Exec(cfg, run).value;
      && |s.workers| == cfg.workers
      && (forall w :: 0 <= w < |s.workers| ==> s.workers[w].batch == [])
      && (forall id :: id in s.rows ==> s.rows[id].status == Pending)
  {
    if run != [] {
      NobodyWorks(cfg, run[..|run| - 1]);
    }
  }
}
