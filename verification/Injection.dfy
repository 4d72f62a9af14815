/** Failure injection around a publisher, and the outbox run through it. */
module Injection {
  import opened Wrappers
  import opened Outbox
  import opened Protocol
  import opened Agreement
  import opened Accounting
  import opened Guarantees
  import opened Draining
  import Decimal

  datatype Injection = Injection(rate: real, maxFailuresPerEvent: int, permanentTypes: set<string>)

  /** The counters the injector keeps under its mutex. */
  datatype Counters = Counters(failures: map<Uuid, nat>, attempts: nat, injected: nat) {
    function FailuresOf(id: Uuid): nat {
      if id in failures then failures[id] else 0
    }
  }

  /** What a publisher answers: nil, an ordinary error, or a context error. */
  datatype Answer = Ack | Refused(error: string) | Cancelled

  function PermanentError(eventType: string): string {
    "injected permanent failure for event type " + eventType
  }

  function TransientError(failure: nat): string {
    "injected transient failure (event failure " + Decimal.Digits(failure) + ")"
  }

  /** The state after one attempt and the injected error, if any; `draw` is the random number. */
  function Inject(inj: Injection, c: Counters, event: OutboxEvent, draw: real): (Counters, Option<string>) {
    var counted := c.(attempts := c.attempts + 1);
    if event.eventType in inj.permanentTypes then
      (counted.(injected := c.injected + 1), Some(PermanentError(event.eventType)))
    else if inj.rate <= 0.0 then (counted, None)
    else if inj.maxFailuresPerEvent > 0 && c.FailuresOf(event.id) >= inj.maxFailuresPerEvent then (counted, None)
    else if draw >= inj.rate then (counted, None)
    else
      var failure := c.FailuresOf(event.id) + 1;
      (Counters(c.failures[event.id := failure], c.attempts + 1, c.injected + 1), Some(TransientError(failure)))
  }

  /** The event may be failed once more; without a positive cap there is no limit. */
  predicate BelowCap(inj: Injection, failures: map<Uuid, nat>, id: Uuid) {
    inj.maxFailuresPerEvent > 0 ==>
      (if id in failures then failures[id] < inj.maxFailuresPerEvent else 0 < inj.maxFailuresPerEvent)
  }

  class FailingPublisher {
    const injection: Injection
    var failures: map<Uuid, nat>
    var attempts: nat
    var injected: nat

    function View(): Counters
      reads this
    {
      Counters(failures, attempts, injected)
    }

    constructor (injection: Injection)
      ensures this.injection == injection && View() == Counters(map[], 0, 0)
    {
      this.injection := injection;
      failures, attempts, injected := map[], 0, 0;
    }

    method InjectFailure(event: OutboxEvent, draw: real) returns (error: Option<string>)
      modifies this
      ensures (View(), error) == Inject(injection, old(View()), event, draw)
      ensures attempts == old(attempts) + 1
      ensures error.Some? <==>
        event.eventType in injection.permanentTypes
        || (injection.rate > 0.0 && draw < injection.rate && BelowCap(injection, old(failures), event.id))
      ensures error.Some? ==>
        error.value == if event.eventType in injection.permanentTypes
                       then "injected permanent failure for event type " + event.eventType
                       else "injected transient failure (event failure "
                            + Decimal.Digits(old(View()).FailuresOf(event.id) + 1) + ")"
      ensures injected == old(injected) + (if error.Some? then 1 else 0)
      ensures failures == if error.Some? && event.eventType !in injection.permanentTypes
                          then old(failures)[event.id := old(View()).FailuresOf(event.id) + 1] else old(failures)
    {
      attempts := attempts + 1;
      if event.eventType in injection.permanentTypes {
        injected := injected + 1;
        return Some(PermanentError(event.eventType));
      }
      if injection.rate <= 0.0 {
        return None;
      }
      var failed := if event.id in failures then failures[event.id] else 0;
      if injection.maxFailuresPerEvent > 0 && failed >= injection.maxFailuresPerEvent {
        return None;
      }
      if draw >= injection.rate {
        return None;
      }
      failures := failures[event.id := failed + 1];
      injected := injected + 1;
      return Some(TransientError(failed + 1));
    }

    /** `inner` is what the wrapped publisher answers if it is reached. It is reached unless the type fails permanently,
        or the draw is below the rate and the event below its cap. */
    method Publish(event: OutboxEvent, draw: real, inner: Answer) returns (answer: Answer, forwarded: bool)
      modifies this
      ensures View() == Inject(injection, old(View()), event, draw).0
      ensures forwarded == Inject(injection, old(View()), event, draw).1.None?
      ensures answer == Through(injection, old(View()), event, draw, inner)
      ensures !forwarded <==>
        event.eventType in injection.permanentTypes
        || (injection.rate > 0.0 && draw < injection.rate && BelowCap(injection, old(failures), event.id))
      ensures if forwarded then answer == inner else answer.Refused?
    {
      var error := InjectFailure(event, draw);
      if error.Some? {
        return Refused(error.value), false;
      }
      return inner, true;
    }
  }

  /** The answer the worker sees. */
  function Through(inj: Injection, c: Counters, event: OutboxEvent, draw: real, inner: Answer): Answer {
    var (_, error) := Inject(inj, c, event, draw);
    if error.Some? then Refused(error.value) else inner
  }

  // ---------------------------------------------------------------- accounting of the injector alone

  datatype Call = Call(event: OutboxEvent, draw: real)

  function After(inj: Injection, calls: seq<Call>): Counters {
    if calls == [] then Counters(map[], 0, 0)
    else
      var last := calls[|calls| - 1];
      Inject(inj, After(inj, calls[..|calls| - 1]), last.event, last.draw).0
  }

  predicate Forwards(inj: Injection, calls: seq<Call>)
    requires calls != []
  {
    var last := calls[|calls| - 1];
    Inject(inj, After(inj, calls[..|calls| - 1]), last.event, last.draw).1 == None
  }

  function Forwarded(inj: Injection, calls: seq<Call>): nat {
    if calls == [] then 0
    else Forwarded(inj, calls[..|calls| - 1]) + (if Forwards(inj, calls) then 1 else 0)
  }

  function PermanentCalls(inj: Injection, calls: seq<Call>): nat {
    if calls == [] then 0
    else
      PermanentCalls(inj, calls[..|calls| - 1])
        + (if calls[|calls| - 1].event.eventType in inj.permanentTypes then 1 else 0)
  }

  lemma SumBump(m: map<Uuid, nat>, k: Uuid)
    ensures Sum(m[k := (if k in m then m[k] else 0) + 1]) == Sum(m) + 1
  {
    var m' := m[k := (if k in m then m[k] else 0) + 1];
    SumRemove(m', k);
    if k in m {
      SumRemove(m, k);
      assert m' - {k} == m - {k};
    } else {
      assert m' - {k} == m;
    }
  }

  /** No event is failed beyond the cap, and none at all at rate zero. */
  lemma {:induction false} FailuresAreCapped(inj: Injection, calls: seq<Call>, id: Uuid)
    ensures inj.maxFailuresPerEvent > 0 ==> After(inj, calls).FailuresOf(id) <= inj.maxFailuresPerEvent
    ensures inj.rate <= 0.0 ==> After(inj, calls).FailuresOf(id) == 0
  {
    if calls != [] {
      FailuresAreCapped(inj, calls[..|calls| - 1], id);
    }
  }

  /** As long as every draw is at or above the rate, nothing but the permanent types fails, and nothing is booked. */
  lemma {:induction false} QuietDraws(inj: Injection, calls: seq<Call>)
    requires forall i :: 0 <= i < |calls| ==> calls[i].draw >= inj.rate
    ensures After(inj, calls).failures == map[]
    ensures After(inj, calls).injected == PermanentCalls(inj, calls)
  {
    if calls != [] {
      QuietDraws(inj, calls[..|calls| - 1]);
    }
  }

  /** As long as every draw is below a positive rate and there is no cap, every attempt fails. */
  lemma {:induction false} LoudDraws(inj: Injection, calls: seq<Call>)
    requires inj.rate > 0.0 && inj.maxFailuresPerEvent <= 0
    requires forall i :: 0 <= i < |calls| ==> calls[i].draw < inj.rate
    ensures After(inj, calls).injected == |calls| && Forwarded(inj, calls) == 0
  {
    if calls != [] {
      LoudDraws(inj, calls[..|calls| - 1]);
    }
  }

  lemma {:induction false} AttemptsAccount(inj: Injection, calls: seq<Call>)
    ensures After(inj, calls).attempts == |calls| == After(inj, calls).injected + Forwarded(inj, calls)
  {
    if calls != [] {
      AttemptsAccount(inj, calls[..|calls| - 1]);
    }
  }

  lemma {:induction false} InjectedAccount(inj: Injection, calls: seq<Call>)
    ensures After(inj, calls).injected == PermanentCalls(inj, calls) + Sum(After(inj, calls).failures)
  {
    if calls != [] {
      var before := calls[..|calls| - 1];
      InjectedAccount(inj, before);
      SumBump(After(inj, before).failures, calls[|calls| - 1].event.id);
    }
  }

  /** After any calls, every attempt was either failed by injection or forwarded, and every injected failure is a
      permanent one or booked on its event. */
  lemma {:induction false} InjectorAccounts(inj: Injection, calls: seq<Call>)
    ensures var c := After(inj, calls);
      && c.attempts == |calls|
      && c.attempts == c.injected + Forwarded(inj, calls)
      && c.injected == PermanentCalls(inj, calls) + Sum(c.failures)
  {
    AttemptsAccount(inj, calls);
    InjectedAccount(inj, calls);
  }

  // ---------------------------------------------------------------- the outbox run through the injector

  datatype Joint = Joint(outbox: State, counters: Counters)

  /** A publish call through the injector, or any action that is not an answer of the publisher. */
  datatype Step = Deliver(w: nat, draw: real, inner: Answer) | Other(a: Action)

  predicate IsAnswer(a: Action) {
    a.PublishAck? || a.PublishFail?
  }

  predicate StepEnabled(cfg: Config, j: Joint, step: Step) {
    match step
    case Deliver(w, draw, _) => Busy(j.outbox, w) && j.outbox.workers[w].phase == Publishing && 0.0 <= draw < 1.0
    case Other(a) => !IsAnswer(a) && Enabled(cfg, j.outbox, a)
  }

  /** The outbox action that a step amounts to. */
  function Act(cfg: Config, inj: Injection, j: Joint, step: Step): Action
    requires StepEnabled(cfg, j, step)
  {
    match step
    case Other(a) => a
    case Deliver(w, draw, inner) =>
      match Through(inj, j.counters, Head(j.outbox, w), draw, inner)
      case Ack => PublishAck(w)
      case Refused(error) => PublishFail(w, error)
      case Cancelled => Abandon(w)
  }

  function StepNext(cfg: Config, inj: Injection, j: Joint, step: Step): Joint
    requires StepEnabled(cfg, j, step)
  {
    Joint(Next(cfg, j.outbox, Act(cfg, inj, j, step)),
          if step.Deliver? then Inject(inj, j.counters, Head(j.outbox, step.w), step.draw).0 else j.counters)
  }

  function JointExec(cfg: Config, inj: Injection, steps: seq<Step>): Option<Joint> {
    if steps == [] then Some(Joint(Init(cfg), Counters(map[], 0, 0)))
    else
      var before := JointExec(cfg, inj, steps[..|steps| - 1]);
      var step := steps[|steps| - 1];
      if before.Some? && StepEnabled(cfg, before.value, step)
      then Some(StepNext(cfg, inj, before.value, step)) else None
  }

  /** The schedule of the outbox alone. */
  function Project(cfg: Config, inj: Injection, steps: seq<Step>): seq<Action>
    requires JointExec(cfg, inj, steps).Some?
  {
    if steps == [] then []
    else
      var before := steps[..|steps| - 1];
      Project(cfg, inj, before) + [Act(cfg, inj, JointExec(cfg, inj, before).value, steps[|steps| - 1])]
  }

  lemma {:induction false} ProjectRuns(cfg: Config, inj: Injection, steps: seq<Step>)
    requires JointExec(cfg, inj, steps).Some?
    ensures Exec(cfg, Project(cfg, inj, steps)) == Some(JointExec(cfg, inj, steps).value.outbox)
  {
    if steps != [] {
      var before := steps[..|steps| - 1];
      ProjectRuns(cfg, inj, before);
      var j := JointExec(cfg, inj, before).value;
      Extend(cfg, Project(cfg, inj, before), Act(cfg, inj, j, steps[|steps| - 1]));
    }
  }

  /** The wrapped publisher acknowledges whatever reaches it. */
  predicate InnerAlwaysAcks(steps: seq<Step>) {
    forall i :: 0 <= i < |steps| && steps[i].Deliver? ==> steps[i].inner == Ack
  }

  lemma AttemptSplits(cfg: Config, inj: Injection, j: Joint, step: Step)
    requires StepEnabled(cfg, j, step) && (step.Deliver? ==> step.inner == Ack)
    requires j.counters.attempts == j.counters.injected + |j.outbox.acked|
    ensures var j' := StepNext(cfg, inj, j, step); j'.counters.attempts == j'.counters.injected + |j'.outbox.acked|
  {
  }

  /** In the benchmark's chain every publish attempt is an injected failure or an acknowledged message. */
  lemma {:induction false} ChainAccounts(cfg: Config, inj: Injection, steps: seq<Step>)
    requires JointExec(cfg, inj, steps).Some? && InnerAlwaysAcks(steps)
    ensures var j := JointExec(cfg, inj, steps).value; j.counters.attempts == j.counters.injected + |j.outbox.acked|
  {
    if steps != [] {
      var before := steps[..|steps| - 1];
      assert steps[|steps| - 1].Deliver? ==> steps[|steps| - 1].inner == Ack;
      assert InnerAlwaysAcks(before);
      ChainAccounts(cfg, inj, before);
      AttemptSplits(cfg, inj, JointExec(cfg, inj, before).value, steps[|steps| - 1]);
    }
  }

  /** The wrapped publisher refuses nothing on its own account. */
  predicate InnerNeverRefuses(steps: seq<Step>) {
    forall i :: 0 <= i < |steps| && steps[i].Deliver? ==> !steps[i].inner.Refused?
  }

  predicate IsPermanent(inj: Injection, s: State, id: Uuid)
    requires id in s.rows
  {
    s.rows[id].eventType in inj.permanentTypes
  }

  /** What the injector's counters say about a row. */
  ghost predicate Booked(inj: Injection, j: Joint, id: Uuid) {
    id in j.outbox.rows ==>
      && (IsPermanent(inj, j.outbox, id) ==> j.outbox.Of(id).acks == 0)
      && (!IsPermanent(inj, j.outbox, id) ==>
            && j.outbox.Of(id).fails == j.counters.FailuresOf(id)
            && (inj.rate <= 0.0 ==> j.outbox.Of(id).fails == 0)
            && (inj.maxFailuresPerEvent > 0 ==> j.outbox.Of(id).fails <= inj.maxFailuresPerEvent))
  }

  /** The configuration under which injection leaves every retry budget intact. */
  predicate Mild(cfg: Config, inj: Injection) {
    inj.rate <= 0.0 || 0 < inj.maxFailuresPerEvent <= cfg.maxRetries
  }

  /** No refused delivery of an event that is not permanently failing is beyond its budget. */
  ghost predicate Spared(cfg: Config, inj: Injection, s: State) {
    && (forall w :: 0 <= w < |s.workers| && Busy(s, w) && s.workers[w].phase.Failing?
          ==> Head(s, w).eventType in inj.permanentTypes || !Exhausted(cfg, Head(s, w)))
    && (forall id :: id in s.rows && s.rows[id].status == Close ==> IsPermanent(inj, s, id))
  }

  lemma TallyOnly(cfg: Config, s: State, a: Action, id: Uuid)
    requires Consistent(cfg, s) && Enabled(cfg, s, a)
    ensures (!a.PublishAck? || Head(s, a.w).id != id) ==> Next(cfg, s, a).Of(id).acks == s.Of(id).acks
    ensures (!a.PublishFail? || Head(s, a.w).id != id) ==> Next(cfg, s, a).Of(id).fails == s.Of(id).fails
  {
    if a.Ingest? {
      assert a.id !in s.hist;
    }
  }

  lemma BookedByDelivery(cfg: Config, inj: Injection, j: Joint, step: Step, id: Uuid)
    requires Consistent(cfg, j.outbox) && Booked(inj, j, id) && StepEnabled(cfg, j, step)
    requires step.Deliver? && !step.inner.Refused? && id in j.outbox.rows
    ensures Booked(inj, StepNext(cfg, inj, j, step), id)
  {
    var a := Act(cfg, inj, j, step);
    var e := Head(j.outbox, step.w);
    assert WorkerOk(j.outbox, j.outbox.workers[step.w]) && Agrees(j.outbox, e);
    TallyOnly(cfg, j.outbox, a, id);
    assert Next(cfg, j.outbox, a).rows == j.outbox.rows;
  }

  lemma BookedOtherwise(cfg: Config, inj: Injection, j: Joint, step: Step, id: Uuid)
    requires Consistent(cfg, j.outbox) && Booked(inj, j, id) && StepEnabled(cfg, j, step)
    requires step.Other?
    requires id !in j.outbox.rows ==> j.counters.FailuresOf(id) == 0
    ensures Booked(inj, StepNext(cfg, inj, j, step), id)
  {
    TallyOnly(cfg, j.outbox, step.a, id);
    RowsEvolve(cfg, j.outbox, step.a);
    if id in j.outbox.rows {
      assert RowEvolves(j.outbox.rows[id], Next(cfg, j.outbox, step.a).rows[id]);
    } else {
      assert j.outbox.Of(id) == NOTHING;
    }
  }

  lemma CountersOnlyForRows(cfg: Config, inj: Injection, j: Joint, step: Step)
    requires Consistent(cfg, j.outbox) && StepEnabled(cfg, j, step) && j.counters.failures.Keys <= j.outbox.rows.Keys
    ensures StepNext(cfg, inj, j, step).counters.failures.Keys <= StepNext(cfg, inj, j, step).outbox.rows.Keys
  {
    RowsEvolve(cfg, j.outbox, Act(cfg, inj, j, step));
    if step.Deliver? {
      assert WorkerOk(j.outbox, j.outbox.workers[step.w]) && Agrees(j.outbox, Head(j.outbox, step.w));
    }
  }

  lemma {:induction false} AlwaysBooked(cfg: Config, inj: Injection, steps: seq<Step>)
    requires JointExec(cfg, inj, steps).Some? && InnerNeverRefuses(steps)
    ensures var j := JointExec(cfg, inj, steps).value;
      j.counters.failures.Keys <= j.outbox.rows.Keys && forall id :: Booked(inj, j, id)
  {
    if steps != [] {
      var before := steps[..|steps| - 1];
      var step := steps[|steps| - 1];
      assert steps[|steps| - 1] == step && (step.Deliver? ==> !step.inner.Refused?);
      assert InnerNeverRefuses(before);
      AlwaysBooked(cfg, inj, before);
      var j := JointExec(cfg, inj, before).value;
      ProjectRuns(cfg, inj, before);
      AlwaysConsistent(cfg, Project(cfg, inj, before));
      CountersOnlyForRows(cfg, inj, j, step);
      forall id ensures Booked(inj, StepNext(cfg, inj, j, step), id) {
        if step.Other? {
          BookedOtherwise(cfg, inj, j, step, id);
        } else if id in j.outbox.rows {
          BookedByDelivery(cfg, inj, j, step, id);
        } else {
          assert Next(cfg, j.outbox, Act(cfg, inj, j, step)).rows == j.outbox.rows;
        }
      }
    }
  }

  /** At the moment of refusal the copy is below the budget: its attempts are recorded refusals of the row, and
      the injector had not yet reached its cap. */
  lemma RefusalIsBelowBudget(cfg: Config, inj: Injection, j: Joint, step: Step, run: seq<Action>)
    requires Exec(cfg, run) == Some(j.outbox) && StepEnabled(cfg, j, step) && Mild(cfg, inj)
    requires step.Deliver? && !step.inner.Refused? && Act(cfg, inj, j, step).PublishFail?
    requires forall id :: Booked(inj, j, id)
    ensures var e := Head(j.outbox, step.w); e.eventType in inj.permanentTypes || !Exhausted(cfg, e)
  {
    AlwaysConsistent(cfg, run);
    var e := Head(j.outbox, step.w);
    assert WorkerOk(j.outbox, j.outbox.workers[step.w]) && Agrees(j.outbox, e);
    AlwaysBalanced(cfg, run, e.id);
    assert Booked(inj, j, e.id);
  }

  lemma SparedWorkerKept(cfg: Config, inj: Injection, s: State, a: Action, w: nat)
    requires Consistent(cfg, s) && Enabled(cfg, s, a) && Spared(cfg, inj, s)
    requires a.PublishFail? ==> Head(s, a.w).eventType in inj.permanentTypes || !Exhausted(cfg, Head(s, a.w))
    requires Busy(Next(cfg, s, a), w) && Next(cfg, s, a).workers[w].phase.Failing?
    ensures Head(Next(cfg, s, a), w).eventType in inj.permanentTypes || !Exhausted(cfg, Head(Next(cfg, s, a), w))
  {
    var s' := Next(cfg, s, a);
    if s'.workers[w] != s.workers[w] {
      assert a.PublishFail? && a.w == w;
    } else {
      assert Busy(s, w) && Head(s, w) == Head(s', w);
    }
  }

  lemma SparedRowKept(cfg: Config, inj: Injection, s: State, a: Action, id: Uuid)
    requires Consistent(cfg, s) && Enabled(cfg, s, a) && Spared(cfg, inj, s)
    requires id in Next(cfg, s, a).rows && Next(cfg, s, a).rows[id].status == Close
    ensures IsPermanent(inj, Next(cfg, s, a), id)
  {
    var s' := Next(cfg, s, a);
    RowsEvolve(cfg, s, a);
    assert RowEvolves(s.rows[id], s'.rows[id]);
    if s.rows[id].status != Close {
      assert a.MarkClose? && Head(s, a.w).id == id;
      assert WorkerOk(s, s.workers[a.w]) && Agrees(s, Head(s, a.w));
      assert Busy(s, a.w);
    }
  }

  lemma SparedKept(cfg: Config, inj: Injection, s: State, a: Action)
    requires Consistent(cfg, s) && Enabled(cfg, s, a) && Spared(cfg, inj, s)
    requires a.PublishFail? ==> Head(s, a.w).eventType in inj.permanentTypes || !Exhausted(cfg, Head(s, a.w))
    ensures Spared(cfg, inj, Next(cfg, s, a))
  {
    var s' := Next(cfg, s, a);
    forall w | 0 <= w < |s'.workers| && Busy(s', w) && s'.workers[w].phase.Failing?
      ensures Head(s', w).eventType in inj.permanentTypes || !Exhausted(cfg, Head(s', w))
    {
      SparedWorkerKept(cfg, inj, s, a, w);
    }
    forall id | id in s'.rows && s'.rows[id].status == Close ensures IsPermanent(inj, s', id) {
      SparedRowKept(cfg, inj, s, a, id);
    }
  }

  lemma {:induction false} AlwaysSpared(cfg: Config, inj: Injection, steps: seq<Step>)
    requires JointExec(cfg, inj, steps).Some? && InnerNeverRefuses(steps) && Mild(cfg, inj)
    ensures Spared(cfg, inj, JointExec(cfg, inj, steps).value.outbox)
  {
    if steps != [] {
      var before := steps[..|steps| - 1];
      assert steps[|steps| - 1].Deliver? ==> !steps[|steps| - 1].inner.Refused?;
      assert InnerNeverRefuses(before);
      AlwaysSpared(cfg, inj, before);
      AlwaysBooked(cfg, inj, before);
      ProjectRuns(cfg, inj, before);
      AlwaysConsistent(cfg, Project(cfg, inj, before));
      var j := JointExec(cfg, inj, before).value;
      var step := steps[|steps| - 1];
      var a := Act(cfg, inj, j, step);
      if step.Deliver? && a.PublishFail? {
        RefusalIsBelowBudget(cfg, inj, j, step, Project(cfg, inj, before));
      }
      SparedKept(cfg, inj, j.outbox, a);
    }
  }

  ghost predicate Unacked(inj: Injection, s: State, id: Uuid) {
    id in s.rows && IsPermanent(inj, s, id) ==> s.Of(id).acks == 0
  }

  lemma UnackedKept(cfg: Config, inj: Injection, j: Joint, step: Step, id: Uuid)
    requires Consistent(cfg, j.outbox) && StepEnabled(cfg, j, step) && Unacked(inj, j.outbox, id)
    ensures Unacked(inj, StepNext(cfg, inj, j, step).outbox, id)
  {
    var s, a := j.outbox, Act(cfg, inj, j, step);
    TallyOnly(cfg, s, a, id);
    RowsEvolve(cfg, s, a);
    if id in s.rows {
      assert RowEvolves(s.rows[id], Next(cfg, s, a).rows[id]);
      if step.Deliver? {
        assert WorkerOk(s, s.workers[step.w]) && Agrees(s, Head(s, step.w));
      }
    } else {
      assert s.Of(id) == NOTHING;
      assert a.PublishAck? ==> Next(cfg, s, a).rows == s.rows;
    }
  }

  lemma {:induction false} AlwaysUnacked(cfg: Config, inj: Injection, steps: seq<Step>, id: Uuid)
    requires JointExec(cfg, inj, steps).Some?
    ensures Unacked(inj, JointExec(cfg, inj, steps).value.outbox, id)
  {
    if steps != [] {
      var before := steps[..|steps| - 1];
      AlwaysUnacked(cfg, inj, before, id);
      ProjectRuns(cfg, inj, before);
      AlwaysConsistent(cfg, Project(cfg, inj, before));
      UnackedKept(cfg, inj, JointExec(cfg, inj, before).value, steps[|steps| - 1], id);
    }
  }

  /** A permanently failing event is never delivered and never PUBLISHED, whatever the wrapped publisher does. */
  lemma PermanentNeverPublished(cfg: Config, inj: Injection, steps: seq<Step>, id: Uuid)
    requires JointExec(cfg, inj, steps).Some? && id in JointExec(cfg, inj, steps).value.outbox.rows
    requires IsPermanent(inj, JointExec(cfg, inj, steps).value.outbox, id)
    ensures var s := JointExec(cfg, inj, steps).value.outbox;
      s.rows[id].status != Published && Deliveries(s.acked, s.rows[id].eventId) == 0
  {
    AlwaysUnacked(cfg, inj, steps, id);
    ProjectRuns(cfg, inj, steps);
    AlwaysConsistent(cfg, Project(cfg, inj, steps));
    LogAlwaysAgrees(cfg, Project(cfg, inj, steps));
    assert RowOk(cfg, JointExec(cfg, inj, steps).value.outbox, id);
  }

  /** The outcome the failure matrix expects, for every schedule that has come to its end: with injection mild and
      reclaiming on, the permanently failing events are exactly the closed rows and all others are published. */
  lemma Converges(cfg: Config, inj: Injection, steps: seq<Step>, id: Uuid)
    requires JointExec(cfg, inj, steps).Some? && InnerNeverRefuses(steps) && Mild(cfg, inj)
    requires cfg.workers > 0 && cfg.batchSize > 0
    requires !CanGoOn(cfg, JointExec(cfg, inj, steps).value.outbox)
    requires id in JointExec(cfg, inj, steps).value.outbox.rows
    requires cfg.staleTimeout > 0 || JointExec(cfg, inj, steps).value.outbox.Of(id).drops == 0
    ensures var s := JointExec(cfg, inj, steps).value.outbox;
      && (s.rows[id].status == Close <==> IsPermanent(inj, s, id))
      && (s.rows[id].status == Published <==> !IsPermanent(inj, s, id))
  {
    ProjectRuns(cfg, inj, steps);
    StuckMeansDone(cfg, Project(cfg, inj, steps));
    AlwaysSpared(cfg, inj, steps);
    if IsPermanent(inj, JointExec(cfg, inj, steps).value.outbox, id) {
      PermanentNeverPublished(cfg, inj, steps, id);
    }
  }

  /** The step is a publish attempt on this row. */
  predicate Tries(j: Joint, step: Step, id: Uuid) {
    step.Deliver? && Busy(j.outbox, step.w) && Head(j.outbox, step.w).id == id
  }

  predicate IsInjected(inj: Injection, j: Joint, step: Step) {
    step.Deliver? && Busy(j.outbox, step.w) && Inject(inj, j.counters, Head(j.outbox, step.w), step.draw).1.Some?
  }

  /** The publish attempts on a row. */
  function AttemptsOn(cfg: Config, inj: Injection, steps: seq<Step>, id: Uuid): nat
    requires JointExec(cfg, inj, steps).Some?
  {
    if steps == [] then 0
    else
      var before, step := steps[..|steps| - 1], steps[|steps| - 1];
      AttemptsOn(cfg, inj, before, id) + (if Tries(JointExec(cfg, inj, before).value, step, id) then 1 else 0)
  }

  /** Those of them that the injector failed. */
  function InjectedOn(cfg: Config, inj: Injection, steps: seq<Step>, id: Uuid): nat
    requires JointExec(cfg, inj, steps).Some?
  {
    if steps == [] then 0
    else
      var before, step := steps[..|steps| - 1], steps[|steps| - 1];
      var j := JointExec(cfg, inj, before).value;
      InjectedOn(cfg, inj, before, id) + (if Tries(j, step, id) && IsInjected(inj, j, step) then 1 else 0)
  }

  lemma AlreadyPermanent(cfg: Config, inj: Injection, j: Joint, step: Step, id: Uuid)
    requires StepEnabled(cfg, j, step) && id in j.outbox.rows
    ensures id in StepNext(cfg, inj, j, step).outbox.rows
    ensures IsPermanent(inj, j.outbox, id) <==> IsPermanent(inj, StepNext(cfg, inj, j, step).outbox, id)
  {
    var s, a := j.outbox, Act(cfg, inj, j, step);
    RowsEvolve(cfg, s, a);
    assert RowEvolves(s.rows[id], Next(cfg, s, a).rows[id]);
  }

  /** Each attempt on a permanently failing row is injected and ends in a refusal, and it has no other refusals. */
  lemma PermanentAttempt(cfg: Config, inj: Injection, j: Joint, step: Step, id: Uuid)
    requires Consistent(cfg, j.outbox) && StepEnabled(cfg, j, step)
    requires id in j.outbox.rows && IsPermanent(inj, j.outbox, id)
    ensures Tries(j, step, id) ==> IsInjected(inj, j, step)
    ensures StepNext(cfg, inj, j, step).outbox.Of(id).fails
         == j.outbox.Of(id).fails + (if Tries(j, step, id) then 1 else 0)
  {
    TallyOnly(cfg, j.outbox, Act(cfg, inj, j, step), id);
    if step.Deliver? {
      assert WorkerOk(j.outbox, j.outbox.workers[step.w]) && Agrees(j.outbox, Head(j.outbox, step.w));
    }
  }

  lemma ArrivesUnfailed(cfg: Config, inj: Injection, j: Joint, step: Step, id: Uuid)
    requires Consistent(cfg, j.outbox) && StepEnabled(cfg, j, step) && id !in j.outbox.rows
    ensures StepNext(cfg, inj, j, step).outbox.Of(id).fails == 0 && !Tries(j, step, id)
  {
    NoRowNoFails(cfg, j.outbox, id);
    TallyOnly(cfg, j.outbox, Act(cfg, inj, j, step), id);
  }

  lemma NoRowNoFails(cfg: Config, s: State, id: Uuid)
    requires Consistent(cfg, s) && id !in s.rows
    ensures s.Of(id).fails == 0
    ensures forall w: nat :: Busy(s, w) ==> Head(s, w).id != id
  {
    forall w: nat | Busy(s, w) ensures Head(s, w).id != id {
      assert WorkerOk(s, s.workers[w]) && Agrees(s, Head(s, w));
    }
  }

  lemma {:induction false} PermanentAttempts(cfg: Config, inj: Injection, steps: seq<Step>, id: Uuid)
    requires JointExec(cfg, inj, steps).Some?
    ensures var s := JointExec(cfg, inj, steps).value.outbox;
      (id in s.rows ==> IsPermanent(inj, s, id)) ==>
        AttemptsOn(cfg, inj, steps, id) == InjectedOn(cfg, inj, steps, id) == s.Of(id).fails
  {
    hide Enabled, Next, StepEnabled, StepNext, Consistent, Inject;
    ProjectRuns(cfg, inj, steps);
    AlwaysConsistent(cfg, Project(cfg, inj, steps));
    if steps == [] {
      NoRowNoFails(cfg, Init(cfg), id);
    } else {
      var before, step := steps[..|steps| - 1], steps[|steps| - 1];
      PermanentAttempts(cfg, inj, before, id);
      ProjectRuns(cfg, inj, before);
      AlwaysConsistent(cfg, Project(cfg, inj, before));
      PermanentStep(cfg, inj, JointExec(cfg, inj, before).value, step, id);
    }
  }

  lemma PermanentStep(cfg: Config, inj: Injection, j: Joint, step: Step, id: Uuid)
    requires Consistent(cfg, j.outbox) && StepEnabled(cfg, j, step)
    ensures var s, s' := j.outbox, StepNext(cfg, inj, j, step).outbox;
      (id in s'.rows ==> IsPermanent(inj, s', id)) ==>
        && (id in s.rows ==> IsPermanent(inj, s, id))
        && (Tries(j, step, id) ==> IsInjected(inj, j, step))
        && s'.Of(id).fails == s.Of(id).fails + (if Tries(j, step, id) then 1 else 0)
  {
    hide Inject, Next, Enabled, Consistent, StepEnabled, StepNext, Tries;
    if id in j.outbox.rows {
      AlreadyPermanent(cfg, inj, j, step, id);
      if IsPermanent(inj, j.outbox, id) {
        PermanentAttempt(cfg, inj, j, step, id);
      }
    } else {
      NoRowNoFails(cfg, j.outbox, id);
      ArrivesUnfailed(cfg, inj, j, step, id);
    }
  }

  /** Once a schedule has come to its end, a permanently failing event that was never reclaimed and never given up is
      closed, after exactly one publish attempt more than its budget, and the injector failed every one of them. */
  lemma {:induction false} PermanentClosesAfterBudget(cfg: Config, inj: Injection, steps: seq<Step>, id: Uuid)
    requires JointExec(cfg, inj, steps).Some? && id in JointExec(cfg, inj, steps).value.outbox.rows
    requires IsPermanent(inj, JointExec(cfg, inj, steps).value.outbox, id)
    requires cfg.workers > 0 && cfg.batchSize > 0 && !CanGoOn(cfg, JointExec(cfg, inj, steps).value.outbox)
    requires ReclaimsIn(Project(cfg, inj, steps), id) == 0 && JointExec(cfg, inj, steps).value.outbox.Of(id).drops == 0
    ensures var s := JointExec(cfg, inj, steps).value.outbox;
      && s.rows[id].status == Close && s.rows[id].attempts == cfg.maxRetries
      && AttemptsOn(cfg, inj, steps, id) == InjectedOn(cfg, inj, steps, id) == cfg.maxRetries + 1
      && Deliveries(s.acked, s.rows[id].eventId) == 0
  {
    ProjectRuns(cfg, inj, steps);
    StuckMeansDone(cfg, Project(cfg, inj, steps));
    PermanentNeverPublished(cfg, inj, steps, id);
    ClosedLedger(cfg, Project(cfg, inj, steps), id);
    PermanentAttempts(cfg, inj, steps, id);
  }
}
