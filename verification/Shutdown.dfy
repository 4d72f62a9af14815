/** Run and its shutdown watcher: two goroutines, the outer context, the detached processing context, the stop
    channel, the timer and the timed-out flag, over an outbox in which this worker's process calls make their moves. */
module Shutdown {
  import opened Wrappers
  import opened Outbox
  import opened Lifecycle
  import opened Moves
  import P = Protocol
  import Worker

  /** Which worker of which fleet runs here, and the outbox it starts on. */
  datatype Setting = Setting(cfg: P.Config, me: nat, start: P.State) {
    predicate Fits() {
      me < |start.workers| && start.workers[me].batch == []
    }
  }

  /** Where Run stands. */
  datatype Main =
    | Starting
    | Selecting
    | Ticked                    // the ticker fired, ctx.Err() is not checked yet
    | Cleared                   // past the check, process is about to be called
    | InProcess(stage: Stage)
    | Leaving                   // ctx.Done() selected, the flag is not loaded yet
    | Returned(timeout: bool)

  datatype Watcher = Waiting | Timing | Expired | Gone

  datatype Run = Run(
    cancelled: bool, procCancelled: bool, stopped: bool, timedOut: bool, life: Life,
    main: Main, watcher: Watcher, db: P.State)

  /** Why a batch is given up or a mark fails without effect: the processing context was cancelled, the publisher ran
      into a deadline of its own, the answer to the claim's COMMIT was lost, or the statement failed by itself. */
  datatype Cause = Forced | Deadline | LostCommit | BadStatement

  /** `Act` is any other action of the outbox, this worker's or another's. */
  datatype Event =
    | Cancel
    | Start | Tick | Check | Process | Act(a: P.Action) | GiveUp(cause: Cause) | FailMark(cause: Cause)
    | EndProcess | Leave | Return
    | Notice | QuitEarly | Expire | Force | QuitLate

  function Fresh(g: Setting): Run {
    Run(false, false, false, false, STARTING, Starting, Waiting, g.start)
  }

  predicate ActEnabled(g: Setting, r: Run, a: P.Action) {
    && P.Enabled(g.cfg, r.db, a)
    && (MovesOf(a, g.me) ==>
          r.main.InProcess? && !a.Abandon? && !a.MarkError? && StageAfter(r.main.stage, a).Some?)
  }

  /** Instead of an answer the publisher reports a context error, or the claim was broken off. */
  predicate GiveUpEnabled(g: Setting, r: Run, cause: Cause) {
    && r.main == InProcess(Delivering) && P.Busy(r.db, g.me)
    && (cause == Forced ==> r.procCancelled)
    && (cause == LostCommit ==> r.db.workers[g.me].size == |r.db.workers[g.me].batch|)
    && cause != BadStatement
  }

  /** The mark that is due fails without effect. */
  predicate FailMarkEnabled(g: Setting, r: Run, cause: Cause) {
    && r.main == InProcess(Marking) && P.Enabled(g.cfg, r.db, P.MarkError(g.me))
    && (cause == Forced || cause == BadStatement)
    && (cause == Forced ==> r.procCancelled)
  }

  predicate Enabled(g: Setting, r: Run, e: Event) {
    match e
    case Cancel => true
    case Start => r.main == Starting
    case Tick => r.main == Selecting
    case Check => r.main == Ticked
    case Process => r.main == Cleared
    case Act(a) => ActEnabled(g, r, a)
    case GiveUp(cause) => GiveUpEnabled(g, r, cause)
    case FailMark(cause) => FailMarkEnabled(g, r, cause)
    case EndProcess => r.main.InProcess? && !P.Busy(r.db, g.me)
    case Leave => r.main == Selecting && r.cancelled
    case Return => r.main == Leaving
    case Notice => r.watcher == Waiting && r.cancelled
    case QuitEarly => r.watcher == Waiting && r.stopped
    case Expire => r.watcher == Timing
    case Force => r.watcher == Expired
    case QuitLate => r.watcher == Timing && r.stopped
  }

  /** What an event does to the outbox. */
  function ActionOf(g: Setting, e: Event): seq<P.Action> {
    match e
    case Act(a) => [a]
    case GiveUp(_) => [P.Abandon(g.me)]
    case FailMark(_) => [P.MarkError(g.me)]
    case _ => []
  }

  function ActNext(g: Setting, r: Run, a: P.Action): Run
    requires ActEnabled(g, r, a)
  {
    r.(db := P.Next(g.cfg, r.db, a),
       main := if MovesOf(a, g.me) then InProcess(StageAfter(r.main.stage, a).value) else r.main)
  }

  function Next(g: Setting, r: Run, e: Event): Run
    requires Enabled(g, r, e)
  {
    match e
    case Cancel => r.(cancelled := true)
    case Start => r.(main := Selecting, life := Max(r.life, RUNNING))
    case Tick => r.(main := Ticked)
    case Check => r.(main := if r.cancelled then Selecting else Cleared)
    case Process => r.(main := InProcess(Opened))
    case Act(a) => ActNext(g, r, a)
    case GiveUp(_) => r.(main := InProcess(Over), db := P.Next(g.cfg, r.db, P.Abandon(g.me)))
    case FailMark(_) => r.(main := InProcess(Delivering), db := P.Next(g.cfg, r.db, P.MarkError(g.me)))
    case EndProcess => r.(main := Selecting)
    case Leave => r.(main := Leaving, life := Max(r.life, STOPPED))
    case Return => r.(main := Returned(r.timedOut), stopped := true, procCancelled := true)
    case Notice => r.(watcher := Timing, life := Max(r.life, STOPPING))
    case QuitEarly => r.(watcher := Gone)
    case Expire => r.(watcher := Expired, timedOut := true)
    case Force => r.(watcher := Gone, procCancelled := true)
    case QuitLate => r.(watcher := Gone)
  }

  function Exec(g: Setting, events: seq<Event>): (r: Option<Run>) {
    if events == [] then Some(Fresh(g))
    else
      var before := Exec(g, events[..|events| - 1]);
      var e := events[|events| - 1];
      if before.Some? && Enabled(g, before.value, e) then Some(Next(g, before.value, e)) else None
  }

  // ---------------------------------------------------------------- what can be told from the events alone

  /** A process call has begun and not ended. */
  predicate OpenAt(events: seq<Event>) {
    events != []
    && (events[|events| - 1].Process?
        || (!events[|events| - 1].EndProcess? && OpenAt(events[..|events| - 1])))
  }

  /** At some moment after this event a process call was under way. */
  predicate OpenAfter(events: seq<Event>, e: Event) {
    events != [] && ((e in events && OpenAt(events)) || OpenAfter(events[..|events| - 1], e))
  }

  /** How many process calls began after the outer context was cancelled. */
  function LateStarts(events: seq<Event>): nat {
    if events == [] then 0
    else
      LateStarts(events[..|events| - 1])
        + (if events[|events| - 1].Process? && Cancel in events then 1 else 0)
  }

  /** The schedule of the outbox. */
  function Actions(g: Setting, events: seq<Event>): seq<P.Action> {
    if events == [] then []
    else Actions(g, events[..|events| - 1]) + ActionOf(g, events[|events| - 1])
  }

  predicate GaveUp(events: seq<Event>) {
    exists cause :: GiveUp(cause) in events
  }

  /** The forced cancellation made this worker give a batch up, or broke one of its marks. */
  predicate ForcedLoss(events: seq<Event>) {
    GiveUp(Forced) in events || FailMark(Forced) in events
  }

  /** The same from any other cause. */
  predicate OtherLoss(events: seq<Event>) {
    exists cause :: cause != Forced && (GiveUp(cause) in events || FailMark(cause) in events)
  }

  /** What became of the rows that this worker claimed. */
  function RowFates(g: Setting, events: seq<Event>): seq<Fate> {
    Fates(g.cfg, g.start, Actions(g, events), g.me)
  }

  // ---------------------------------------------------------------- invariants

  /** What the events say about the flags. */
  ghost predicate FlagsOk(events: seq<Event>, r: Run) {
    && (r.cancelled <==> Cancel in events)
    && (r.timedOut <==> Expire in events)
    && (r.main.InProcess? <==> OpenAt(events))
    && (Force in events ==> Expire in events)
    && (r.watcher == Expired ==> Expire in events)
    && (r.procCancelled && !r.main.Returned? ==> Force in events)
  }

  /** What a returned or leaving Run has behind it. */
  ghost predicate ExitOk(events: seq<Event>, r: Run) {
    && (r.main.Leaving? || r.main.Returned? ==> r.life == STOPPED && r.cancelled)
    && (r.main.Returned? ==> ReturnedBy(events, r.main.timeout))
    && LateStarts(events) + (if r.cancelled && r.main == Cleared then 1 else 0) <= (if r.cancelled then 1 else 0)
    && (ForcedLoss(events) ==> OpenAfter(events, Force))
    && (r.main.Returned? && OpenAfter(events, Force) ==> r.main.timeout)
    && (OpenAfter(events, Force) ==> OpenAfter(events, Expire))
  }

  /** Run has loaded the flag, and the answer is whether the timer had expired by then. */
  ghost predicate ReturnedBy(events: seq<Event>, timeout: bool) {
    exists k :: 0 <= k < |events| && events[k] == Return && (timeout <==> Expire in events[..k])
  }

  /** The outbox has run the schedule that the events stand for; outside a process call this worker holds nothing. */
  ghost predicate DbOk(g: Setting, events: seq<Event>, r: Run) {
    && P.RunFrom(g.cfg, g.start, Actions(g, events)) == Some(r.db)
    && HandsOk(g, r)
  }

  /** The worker has an unanswered event, an answered one, or nothing in its hands, as the stage says. */
  predicate HandsOk(g: Setting, r: Run) {
    && g.me < |r.db.workers|
    && var worker := r.db.workers[g.me];
    && (r.main == InProcess(Delivering) ==> worker.batch == [] || worker.phase == P.Publishing)
    && (r.main == InProcess(Marking) ==> worker.batch != [] && worker.phase != P.Publishing)
    && (r.main != InProcess(Delivering) && r.main != InProcess(Marking) ==> worker.batch == [])
  }

  lemma Longer(events: seq<Event>, e: Event)
    ensures (events + [e])[..|events + [e]| - 1] == events && (events + [e])[|events|] == e
    ensures forall f :: f in events + [e] <==> f in events || f == e
    ensures OpenAt(events + [e]) <==> e.Process? || (!e.EndProcess? && OpenAt(events))
    ensures LateStarts(events + [e])
         == LateStarts(events) + (if e.Process? && (Cancel in events || e == Cancel) then 1 else 0)
  {
    assert (events + [e])[..|events|] == events;
  }

  lemma FlagsKeptByWatcher(g: Setting, events: seq<Event>, r: Run, e: Event)
    requires FlagsOk(events, r) && Enabled(g, r, e)
    requires e.Cancel? || e.Notice? || e.QuitEarly? || e.Expire? || e.Force? || e.QuitLate?
    ensures FlagsOk(events + [e], Next(g, r, e))
  {
    hide ActEnabled, GiveUpEnabled, FailMarkEnabled, OpenAt, LateStarts;
    Longer(events, e);
  }

  lemma FlagsKeptByMain(g: Setting, events: seq<Event>, r: Run, e: Event)
    requires FlagsOk(events, r) && Enabled(g, r, e)
    requires !(e.Cancel? || e.Notice? || e.QuitEarly? || e.Expire? || e.Force? || e.QuitLate?)
    ensures FlagsOk(events + [e], Next(g, r, e))
  {
    hide P.Enabled, P.Next, OpenAt, LateStarts;
    Longer(events, e);
  }

  lemma OpenLonger(events: seq<Event>, e: Event, mark: Event)
    ensures OpenAfter(events + [e], mark)
       <==> OpenAfter(events, mark) || ((mark in events || e == mark) && OpenAt(events + [e]))
  {
    Longer(events, e);
  }

  lemma {:induction false} OpenAfterItOccurred(events: seq<Event>, mark: Event)
    requires OpenAfter(events, mark)
    ensures mark in events
  {
    if mark !in events {
      OpenAfterItOccurred(events[..|events| - 1], mark);
    }
  }

  lemma ReturnedLonger(events: seq<Event>, e: Event, timeout: bool)
    requires ReturnedBy(events, timeout)
    ensures ReturnedBy(events + [e], timeout)
  {
    var k :| 0 <= k < |events| && events[k] == Return && (timeout <==> Expire in events[..k]);
    assert (events + [e])[..k] == events[..k];
    assert (events + [e])[k] == Return;
  }

  lemma JustReturned(events: seq<Event>)
    ensures ReturnedBy(events + [Return], Expire in events)
  {
    assert (events + [Return])[..|events|] == events;
    assert (events + [Return])[|events|] == Return;
  }

  lemma ExitKept(g: Setting, events: seq<Event>, r: Run, e: Event)
    requires FlagsOk(events, r) && ExitOk(events, r) && Enabled(g, r, e)
    requires FlagsOk(events + [e], Next(g, r, e))
    ensures ExitOk(events + [e], Next(g, r, e))
  {
    hide P.Enabled, P.Next, OpenAt, OpenAfter, LateStarts, ReturnedBy;
    Longer(events, e);
    OpenLonger(events, e, Force);
    OpenLonger(events, e, Expire);
    if OpenAfter(events, Force) {
      OpenAfterItOccurred(events, Force);
    }
    if r.main.Returned? {
      ReturnedLonger(events, e, r.main.timeout);
    }
    if e.Return? {
      JustReturned(events);
    }
  }

  lemma ActsOn(g: Setting, events: seq<Event>, e: Event)
    ensures Actions(g, events + [e]) == Actions(g, events) + ActionOf(g, e)
  {
    assert (events + [e])[..|events|] == events;
  }

  lemma MoveKeepsHands(g: Setting, r: Run, a: P.Action)
    requires HandsOk(g, r) && ActEnabled(g, r, a)
    ensures HandsOk(g, ActNext(g, r, a))
  {
    if !MovesOf(a, g.me) {
      OthersLeaveMine(g.cfg, r.db, a, g.me);
    }
  }

  lemma DbKept(g: Setting, events: seq<Event>, r: Run, e: Event)
    requires DbOk(g, events, r) && Enabled(g, r, e)
    ensures DbOk(g, events + [e], Next(g, r, e))
  {
    hide P.Next, P.RunFrom, Actions;
    ActsOn(g, events, e);
    match e {
      case Act(a) =>
        P.ExtendFrom(g.cfg, g.start, Actions(g, events), a);
        MoveKeepsHands(g, r, a);
      case GiveUp(_) =>
        P.ExtendFrom(g.cfg, g.start, Actions(g, events), P.Abandon(g.me));
        GivingUpEmptiesHands(g, r);
      case FailMark(_) =>
        P.ExtendFrom(g.cfg, g.start, Actions(g, events), P.MarkError(g.me));
        FailingKeepsHands(g, r);
      case _ =>
        assert Actions(g, events) + [] == Actions(g, events);
    }
  }

  lemma GivingUpEmptiesHands(g: Setting, r: Run)
    requires P.Busy(r.db, g.me)
    ensures var workers := P.Next(g.cfg, r.db, P.Abandon(g.me)).workers; g.me < |workers| && workers[g.me].batch == []
  {
  }

  lemma FailingKeepsHands(g: Setting, r: Run)
    requires HandsOk(g, r) && P.Enabled(g.cfg, r.db, P.MarkError(g.me))
    ensures HandsOk(g, r.(main := InProcess(Delivering), db := P.Next(g.cfg, r.db, P.MarkError(g.me))))
  {
  }

  lemma {:induction false} AlwaysOk(g: Setting, events: seq<Event>)
    requires g.Fits() && Exec(g, events).Some?
    ensures var r := Exec(g, events).value; FlagsOk(events, r) && ExitOk(events, r) && DbOk(g, events, r)
  {
    hide Enabled, Next, FlagsOk, ExitOk, DbOk;
    if events == [] {
      FreshOk(g);
    } else {
      var before, e := events[..|events| - 1], events[|events| - 1];
      AlwaysOk(g, before);
      assert events == before + [e];
      StepOk(g, before, Exec(g, before).value, e);
    }
  }

  lemma FreshOk(g: Setting)
    requires g.Fits()
    ensures FlagsOk([], Fresh(g)) && ExitOk([], Fresh(g)) && DbOk(g, [], Fresh(g))
  {
  }

  lemma StepOk(g: Setting, events: seq<Event>, r: Run, e: Event)
    requires FlagsOk(events, r) && ExitOk(events, r) && DbOk(g, events, r) && Enabled(g, r, e)
    ensures var r' := Next(g, r, e);
      FlagsOk(events + [e], r') && ExitOk(events + [e], r') && DbOk(g, events + [e], r')
  {
    hide Enabled, Next, FlagsOk, ExitOk, DbOk;
    if e.Cancel? || e.Notice? || e.QuitEarly? || e.Expire? || e.Force? || e.QuitLate? {
      FlagsKeptByWatcher(g, events, r, e);
    } else {
      FlagsKeptByMain(g, events, r, e);
    }
    ExitKept(g, events, r, e);
    DbKept(g, events, r, e);
  }

  // ---------------------------------------------------------------- the rows

  /** The row got its mark call. */
  predicate AllMarked(fates: seq<Fate>) {
    forall i :: 0 <= i < |fates| ==> fates[i].mark.Some?
  }

  /** The row was given up, or its mark failed without effect. */
  predicate IsLost(fate: Fate) {
    fate.mark.None? || fate.mark.value.MarkError?
  }

  predicate NoneLost(fates: seq<Fate>) {
    forall i :: 0 <= i < |fates| ==> !IsLost(fates[i])
  }

  lemma LossLonger(events: seq<Event>, e: Event)
    ensures GaveUp(events + [e]) <==> GaveUp(events) || e.GiveUp?
    ensures ForcedLoss(events + [e]) || OtherLoss(events + [e])
       <==> ForcedLoss(events) || OtherLoss(events) || e.GiveUp? || e.FailMark?
  {
    if GaveUp(events) {
      var cause :| GiveUp(cause) in events;
      assert GiveUp(cause) in events + [e];
    }
    if OtherLoss(events) {
      var cause :| cause != Forced && (GiveUp(cause) in events || FailMark(cause) in events);
      assert GiveUp(cause) in events + [e] || FailMark(cause) in events + [e];
    }
    if e.GiveUp? {
      assert GiveUp(e.cause) in events + [e];
    }
    if e.FailMark? {
      assert FailMark(e.cause) in events + [e];
    }
  }

  lemma FatesOfEvent(g: Setting, r: Run, e: Event)
    requires Enabled(g, r, e) && (e.Act? || e.GiveUp? || e.FailMark?)
    ensures var fates := FatesBy(r.db, ActionOf(g, e)[0], g.me);
      && (AllMarked(fates) <==> !e.GiveUp?)
      && (NoneLost(fates) <==> !e.GiveUp? && !e.FailMark?)
  {
    var fates := FatesBy(r.db, ActionOf(g, e)[0], g.me);
    if e.GiveUp? {
      assert |fates| > 0 && fates[0].mark.None?;
    } else if e.FailMark? {
      assert |fates| == 1 && fates[0].mark == Some(P.MarkError(g.me));
    }
  }

  lemma FatesLonger(g: Setting, events: seq<Event>, r: Run, e: Event)
    requires DbOk(g, events, r) && Enabled(g, r, e)
    ensures AllMarked(RowFates(g, events + [e])) <==> AllMarked(RowFates(g, events)) && !e.GiveUp?
    ensures NoneLost(RowFates(g, events + [e])) <==> NoneLost(RowFates(g, events)) && !e.GiveUp? && !e.FailMark?
  {
    hide P.Next, P.Enabled, P.RunFrom, Fates, FatesBy, HandsOk, AllMarked, NoneLost;
    ActsOn(g, events, e);
    var run := Actions(g, events);
    if e.Act? || e.GiveUp? || e.FailMark? {
      var fates, latest := Fates(g.cfg, g.start, run, g.me), FatesBy(r.db, ActionOf(g, e)[0], g.me);
      FatesExtend(g.cfg, g.start, run, ActionOf(g, e)[0], g.me);
      FatesOfEvent(g, r, e);
      FatesTogether(fates, latest);
    } else {
      assert run + [] == run;
    }
  }

  lemma FatesTogether(fates: seq<Fate>, latest: seq<Fate>)
    ensures AllMarked(fates + latest) <==> AllMarked(fates) && AllMarked(latest)
    ensures NoneLost(fates + latest) <==> NoneLost(fates) && NoneLost(latest)
  {
    assert forall i :: 0 <= i < |fates| ==> (fates + latest)[i] == fates[i];
    assert forall i :: 0 <= i < |latest| ==> (fates + latest)[|fates| + i] == latest[i];
  }

  /** Rows stay without a mark call exactly when a batch was given up, and without an effective one exactly when a batch
      was given up or a mark failed. */
  lemma {:induction false} UnmarkedExactlyWhen(g: Setting, events: seq<Event>)
    requires g.Fits() && Exec(g, events).Some?
    ensures AllMarked(RowFates(g, events)) <==> !GaveUp(events)
    ensures NoneLost(RowFates(g, events)) <==> !ForcedLoss(events) && !OtherLoss(events)
  {
    hide Enabled, Next, DbOk, FlagsOk, ExitOk, AllMarked, NoneLost, GaveUp, ForcedLoss, OtherLoss;
    if events == [] {
      NothingYet(g);
    } else {
      var before, e := events[..|events| - 1], events[|events| - 1];
      UnmarkedExactlyWhen(g, before);
      AlwaysOk(g, before);
      assert events == before + [e];
      FatesLonger(g, before, Exec(g, before).value, e);
      LossLonger(before, e);
    }
  }

  lemma NothingYet(g: Setting)
    ensures AllMarked(RowFates(g, [])) && !GaveUp([])
    ensures NoneLost(RowFates(g, [])) && !ForcedLoss([]) && !OtherLoss([])
  {
  }

  /** Every row this worker claimed, in the order of the claims, has met its one fate, up to the batch still held. */
  lemma {:induction false} RowsAccountedFor(g: Setting, events: seq<Event>)
    requires g.Fits() && Exec(g, events).Some?
    ensures var r := Exec(g, events).value;
      && P.RunFrom(g.cfg, g.start, Actions(g, events)) == Some(r.db)
      && g.me < |r.db.workers|
      && Handed(Actions(g, events), g.me) == FateIds(RowFates(g, events)) + Ids(r.db.workers[g.me].batch)
      && (!OpenAt(events) ==> Handed(Actions(g, events), g.me) == FateIds(RowFates(g, events)))
  {
    AlwaysOk(g, events);
    EveryRowOneFate(g.cfg, g.start, Actions(g, events), g.me);
    var r := Exec(g, events).value;
    if !OpenAt(events) {
      assert Ids(r.db.workers[g.me].batch) == [];
    }
  }

  /** Outside a process call the worker holds nothing. */
  lemma {:induction false} HoldsNothingOutside(g: Setting, events: seq<Event>)
    requires g.Fits() && Exec(g, events).Some? && !Exec(g, events).value.main.InProcess?
    ensures var r := Exec(g, events).value; g.me < |r.db.workers| && r.db.workers[g.me].batch == []
  {
    AlwaysOk(g, events);
  }

  // ---------------------------------------------------------------- results

  /** After cancellation a worker starts at most one more batch, the one already past the check. */
  lemma {:induction false} AtMostOneLateBatch(g: Setting, events: seq<Event>)
    requires g.Fits() && Exec(g, events).Some?
    ensures LateStarts(events) <= 1
    ensures Cancel !in events ==> LateStarts(events) == 0
  {
    AlwaysOk(g, events);
  }

  /** Run returns ErrShutdownTimeout exactly when the timer had expired by the time it returned. */
  lemma {:induction false} TimeoutExactlyWhen(g: Setting, events: seq<Event>)
    requires g.Fits() && Exec(g, events).Some? && Exec(g, events).value.main.Returned?
    ensures exists k :: 0 <= k < |events| && events[k] == Return
                        && (Exec(g, events).value.main == Returned(true) <==> Expire in events[..k])
  {
    AlwaysOk(g, events);
    var timeout := Exec(g, events).value.main.timeout;
    var k :| 0 <= k < |events| && events[k] == Return && (timeout <==> Expire in events[..k]);
  }

  /** A nil return means a clean stop: the forced cancellation never met a process call, and every row claimed, in
      order, has met its fate, by exactly one mark call if no publish ran into a deadline of its own and no claim lost
      the answer to its COMMIT, and by an effective one if no statement failed by itself either. */
  lemma {:induction false} CleanStop(g: Setting, events: seq<Event>)
    requires g.Fits() && Exec(g, events).Some? && Exec(g, events).value.main == Returned(false)
    ensures var r := Exec(g, events).value;
      && r.cancelled && r.life == STOPPED
      && !OpenAfter(events, Force) && !ForcedLoss(events)
      && Handed(Actions(g, events), g.me) == FateIds(RowFates(g, events))
      && (GiveUp(Deadline) !in events && GiveUp(LostCommit) !in events ==> AllMarked(RowFates(g, events)))
      && (!OtherLoss(events) ==> NoneLost(RowFates(g, events)))
  {
    hide Exec, RowFates, AllMarked, NoneLost, DbOk, GaveUp, OpenAfter, OpenAt, Actions, OtherLoss;
    AlwaysOk(g, events);
    RowsAccountedFor(g, events);
    UnmarkedExactlyWhen(g, events);
    if GiveUp(Deadline) !in events && GiveUp(LostCommit) !in events && GaveUp(events) {
      NoOtherGiveUp(g, events);
    }
  }

  lemma {:induction false} NoOtherGiveUp(g: Setting, events: seq<Event>)
    requires Exec(g, events).Some? && GaveUp(events)
    requires GiveUp(Deadline) !in events && GiveUp(LostCommit) !in events
    ensures GiveUp(Forced) in events
  {
    var cause :| GiveUp(cause) in events;
    if cause == BadStatement {
      OnlyPossibleGiveUps(g, events);
    }
  }

  lemma {:induction false} OnlyPossibleGiveUps(g: Setting, events: seq<Event>)
    requires Exec(g, events).Some?
    ensures GiveUp(BadStatement) !in events
  {
    hide P.Next, P.Enabled;
    if events != [] {
      OnlyPossibleGiveUps(g, events[..|events| - 1]);
      assert events == events[..|events| - 1] + [events[|events| - 1]];
    }
  }

  /** What the timeout costs. With every other cause apart, rows are lost exactly when the forced cancellation made a
      batch be given up or broke a mark; either takes a process call under way after the timer has expired, and then
      Run, once it returns, returns ErrShutdownTimeout. If none was under way from then on, no row was lost. */
  lemma {:induction false} LossNeedsExpiry(g: Setting, events: seq<Event>)
    requires g.Fits() && Exec(g, events).Some? && !OtherLoss(events)
    ensures NoneLost(RowFates(g, events)) <==> !ForcedLoss(events)
    ensures ForcedLoss(events) ==> OpenAfter(events, Force) && OpenAfter(events, Expire)
    ensures ForcedLoss(events) && Exec(g, events).value.main.Returned? ==>
      Exec(g, events).value.main == Returned(true)
    ensures !OpenAfter(events, Expire) ==> NoneLost(RowFates(g, events))
  {
    hide Exec, RowFates, NoneLost, DbOk, OpenAfter, OpenAt, OtherLoss;
    AlwaysOk(g, events);
    UnmarkedExactlyWhen(g, events);
  }

  /** Before the timer expires no batch is disturbed: cancellation of the outer context alone never reaches it. */
  lemma {:induction false} InFlightSurvivesCancel(g: Setting, events: seq<Event>)
    requires g.Fits() && Exec(g, events).Some? && Expire !in events
    ensures !Exec(g, events).value.procCancelled || Exec(g, events).value.main.Returned?
    ensures !OpenAfter(events, Force) && !ForcedLoss(events)
  {
    AlwaysOk(g, events);
    if OpenAfter(events, Expire) {
      OpenAfterItOccurred(events, Expire);
    }
  }

  lemma LifeStep(g: Setting, r: Run, e: Event)
    requires Enabled(g, r, e)
    ensures r.life <= Next(g, r, e).life
  {
    hide P.Enabled, P.Next;
  }

  /** The lifecycle only moves forward, and STOPPED is final. */
  lemma {:induction false} LifeOnlyRises(g: Setting, events: seq<Event>, more: seq<Event>)
    requires Exec(g, events + more).Some?
    ensures Exec(g, events).Some? && Exec(g, events).value.life <= Exec(g, events + more).value.life
    decreases |more|
  {
    hide Enabled, Next;
    if more == [] {
      assert events + more == events;
    } else {
      var most := more[..|more| - 1];
      assert (events + more)[..|events + more| - 1] == events + most;
      LifeOnlyRises(g, events, most);
      LifeStep(g, Exec(g, events + most).value, more[|more| - 1]);
    }
  }

  /** The state that the worker reports is what has happened to it, and nothing else. */
  lemma {:induction false} LifeTells(g: Setting, events: seq<Event>)
    requires Exec(g, events).Some?
    ensures Exec(g, events).value.life
         == if Leave in events then STOPPED
            else if Notice in events then STOPPING
            else if Start in events then RUNNING
            else STARTING
  {
    hide Enabled, Next;
    if events != [] {
      var before, e := events[..|events| - 1], events[|events| - 1];
      LifeTells(g, before);
      assert events == before + [e];
      LifeMoves(g, Exec(g, before).value, e);
    }
  }

  lemma LifeMoves(g: Setting, r: Run, e: Event)
    requires Enabled(g, r, e)
    ensures Next(g, r, e).life == if e.Leave? then STOPPED
                                  else if e.Notice? then Max(r.life, STOPPING)
                                  else if e.Start? then Max(r.life, RUNNING) else r.life
  {
    hide P.Enabled, P.Next;
  }

  /** How many steps the watcher still has to take before it is gone. */
  function StepsLeft(watcher: Watcher): nat {
    match watcher
    case Waiting => 3
    case Timing => 2
    case Expired => 1
    case Gone => 0
  }

  predicate IsWatchers(e: Event) {
    e.Notice? || e.QuitEarly? || e.Expire? || e.Force? || e.QuitLate?
  }

  /** The watcher does not outlive Run: once Run has returned the watcher can always go on until it is gone, each of its
      steps brings it closer, and nothing that Run does sets it back. */
  lemma WatcherEnds(g: Setting, events: seq<Event>, e: Event)
    requires g.Fits() && Exec(g, events).Some? && Enabled(g, Exec(g, events).value, e)
    ensures var r := Exec(g, events).value;
      && (if IsWatchers(e) then StepsLeft(Next(g, r, e).watcher) < StepsLeft(r.watcher)
          else Next(g, r, e).watcher == r.watcher)
      && (r.main.Returned? && r.watcher != Gone ==> exists f :: IsWatchers(f) && Enabled(g, r, f))
  {
    hide Exec, P.Enabled, P.Next;
    var r := Exec(g, events).value;
    StoppedWhenReturned(g, events);
    if r.main.Returned? && r.watcher != Gone {
      var f := match r.watcher
        case Waiting => QuitEarly
        case Timing => QuitLate
        case _ => Force;
      assert IsWatchers(f) && Enabled(g, r, f);
    }
  }

  lemma {:induction false} StoppedWhenReturned(g: Setting, events: seq<Event>)
    requires Exec(g, events).Some?
    ensures Exec(g, events).value.main.Returned? ==> Exec(g, events).value.stopped
  {
    hide Enabled, Next;
    if events != [] {
      StoppedWhenReturned(g, events[..|events| - 1]);
      StaysStopped(g, Exec(g, events[..|events| - 1]).value, events[|events| - 1]);
    }
  }

  lemma StaysStopped(g: Setting, r: Run, e: Event)
    requires Enabled(g, r, e) && (r.main.Returned? ==> r.stopped)
    ensures Next(g, r, e).main.Returned? ==> Next(g, r, e).stopped
  {
    hide P.Enabled, P.Next;
  }

  lemma Then(g: Setting, events: seq<Event>, r: Run, e: Event)
    requires Exec(g, events) == Some(r) && Enabled(g, r, e)
    ensures Exec(g, events + [e]) == Some(Next(g, r, e))
  {
    assert (events + [e])[..|events|] == events;
  }

  /** ErrShutdownTimeout does not mean that work was cancelled: whenever the last batch has ended before the timer
      expires, Run can still return it, with everything as it was. */
  lemma TimeoutWithoutLoss(g: Setting, events: seq<Event>, r: Run)
    requires Exec(g, events) == Some(r) && r.main == Selecting && r.watcher == Timing && r.cancelled
    ensures var late := events + [Expire] + [Leave] + [Return];
      && Exec(g, late).Some? && Exec(g, late).value.main == Returned(true) && Exec(g, late).value.db == r.db
      && Actions(g, late) == Actions(g, events)
      && RowFates(g, late) == RowFates(g, events)
  {
    var r1 := Next(g, r, Expire);
    var r2 := Next(g, r1, Leave);
    Then(g, events, r, Expire);
    Then(g, events + [Expire], r1, Leave);
    Then(g, events + [Expire] + [Leave], r2, Return);
    ActsOn(g, events, Expire);
    ActsOn(g, events + [Expire], Leave);
    ActsOn(g, events + [Expire] + [Leave], Return);
    assert Actions(g, events) + [] + [] + [] == Actions(g, events);
  }

  /** What is in the worker's hands when the timer has expired can be lost: before the answer the batch is given up, and
      after it the mark fails. */
  lemma {:induction false} OpenBatchCanBeLost(g: Setting, events: seq<Event>, r: Run) returns (late: seq<Event>)
    requires g.Fits() && Exec(g, events) == Some(r)
    requires P.Busy(r.db, g.me) && r.watcher == Expired
    ensures late == events + [Force] + [if r.main == InProcess(Delivering) then GiveUp(Forced) else FailMark(Forced)]
    ensures Exec(g, late).Some? && !NoneLost(RowFates(g, late))
  {
    AlwaysOk(g, events);
    var r1 := Next(g, r, Force);
    var loss := if r.main == InProcess(Delivering) then GiveUp(Forced) else FailMark(Forced);
    Then(g, events, r, Force);
    Then(g, events + [Force], r1, loss);
    late := events + [Force] + [loss];
    UnmarkedExactlyWhen(g, late);
    assert loss in late;
  }

  // ---------------------------------------------------------------- the worker's tick is a process call here

  function EventFor(g: Setting, a: P.Action): Event {
    if a == P.Abandon(g.me) then GiveUp(Deadline)
    else if a == P.MarkError(g.me) then FailMark(BadStatement)
    else Act(a)
  }

  function EventsFor(g: Setting, run: seq<P.Action>): seq<Event> {
    if run == [] then []
    else EventsFor(g, run[..|run| - 1]) + [EventFor(g, run[|run| - 1])]
  }

  /** The position of Run in the middle of a process call that has made these moves. */
  function During(g: Setting, r: Run, run: seq<P.Action>): Run
    requires Walk(Opened, run, g.me).Some?
  {
    r.(main := InProcess(Walk(Opened, run, g.me).value), db := After(g.cfg, r.db, run))
  }

  lemma ReplayOne(g: Setting, r: Run, run: seq<P.Action>, a: P.Action)
    requires P.RunFrom(g.cfg, r.db, run + [a]).Some? && Walk(Opened, run + [a], g.me).Some?
    requires g.me < |r.db.workers|
    ensures Walk(Opened, run, g.me).Some? && Enabled(g, During(g, r, run), EventFor(g, a))
    ensures Next(g, During(g, r, run), EventFor(g, a)) == During(g, r, run + [a])
    ensures ActionOf(g, EventFor(g, a)) == [a]
  {
    hide P.Next;
    assert (run + [a])[..|run|] == run;
    SplitLast(g.cfg, r.db, run, a);
  }

  lemma {:induction false} Replay(g: Setting, events: seq<Event>, r: Run, run: seq<P.Action>)
    requires Exec(g, events) == Some(r) && r.main == InProcess(Opened) && g.me < |r.db.workers|
    requires P.RunFrom(g.cfg, r.db, run).Some? && Walk(Opened, run, g.me).Some?
    ensures Exec(g, events + EventsFor(g, run)) == Some(During(g, r, run))
    ensures Actions(g, events + EventsFor(g, run)) == Actions(g, events) + run
    decreases |run|
  {
    hide Enabled, Next, During, EventFor, ActionOf;
    if run == [] {
      assert events + EventsFor(g, run) == events;
      assert During(g, r, []) == r by { AtFirst(g, r); }
    } else {
      var most, a := run[..|run| - 1], run[|run| - 1];
      assert run == most + [a];
      ReplayOne(g, r, most, a);
      SplitFrom(g.cfg, r.db, most, [a]);
      Replay(g, events, r, most);
      var before := events + EventsFor(g, most);
      assert events + EventsFor(g, run) == before + [EventFor(g, a)];
      Then(g, before, During(g, r, most), EventFor(g, a));
      ActsOn(g, before, EventFor(g, a));
    }
  }

  lemma AtFirst(g: Setting, r: Run)
    requires r.main == InProcess(Opened)
    ensures During(g, r, []) == r
  {
  }

  /** Every tick of the batch loop is a process call here: whenever Run is about to call process, the schedule that the
      worker's method goes through can be played by the events of this machine, up to the return to the select. */
  lemma EveryTickIsAProcessCall(g: Setting, events: seq<Event>, r: Run, w: Worker.OutboxWorker, script: Worker.Script,
                                ids: seq<Uuid>) returns (batch: seq<Event>)
    requires g.Fits() && Exec(g, events) == Some(r) && r.main == Cleared && w.cfg == g.cfg && w.me == g.me
    requires P.RunFrom(g.cfg, r.db, w.TickRun(r.db, script, ids)).Some?
    requires !P.Busy(After(g.cfg, r.db, w.TickRun(r.db, script, ids)), g.me)
    ensures var run := w.TickRun(r.db, script, ids);
      && Exec(g, events + batch) == Some(r.(main := Selecting, db := After(g.cfg, r.db, run)))
      && Actions(g, events + batch) == Actions(g, events) + run
  {
    var run := w.TickRun(r.db, script, ids);
    Worker.TickWalks(w, r.db, script, ids);
    batch := PlayCall(g, events, r, run);
  }

  lemma PlayCall(g: Setting, events: seq<Event>, r: Run, run: seq<P.Action>) returns (batch: seq<Event>)
    requires g.Fits() && Exec(g, events) == Some(r) && r.main == Cleared
    requires P.RunFrom(g.cfg, r.db, run).Some? && Walk(Opened, run, g.me).Some?
    requires !P.Busy(After(g.cfg, r.db, run), g.me)
    ensures Exec(g, events + batch) == Some(r.(main := Selecting, db := After(g.cfg, r.db, run)))
    ensures Actions(g, events + batch) == Actions(g, events) + run
  {
    hide P.RunFrom, After, Walk, Actions, Exec, P.Enabled, P.Next;
    AlwaysOk(g, events);
    var begun := r.(main := InProcess(Opened));
    Then(g, events, r, Process);
    ActsOn(g, events, Process);
    Replay(g, events + [Process], begun, run);
    var done := events + [Process] + EventsFor(g, run);
    Then(g, done, During(g, begun, run), EndProcess);
    ActsOn(g, done, EndProcess);
    batch := [Process] + EventsFor(g, run) + [EndProcess];
    assert events + batch == done + [EndProcess];
  }
}
