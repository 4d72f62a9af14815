/** Schedules that start in any state, and one worker's share in them: which actions are its own, which rows it was
    handed, and what became of each. */
module Moves {
  import opened Wrappers
  import opened Outbox
  import opened Protocol
  import opened Agreement

  /** The worker whose move an action is, if any. */
  predicate MovesOf(a: Action, me: nat) {
    match a
    case Ingest(_, _, _, _, _) => false
    case Tick(_) => false
    case Claim(w, _, _) => w == me
    case Reclaim(w, _, _) => w == me
    case PublishAck(w) => w == me
    case PublishFail(w, _) => w == me
    case Abandon(w) => w == me
    case MarkPublished(w, _) => w == me
    case MarkFailed(w, _) => w == me
    case MarkClose(w) => w == me
    case MarkError(w) => w == me
  }

  predicate IsMark(a: Action) {
    a.MarkPublished? || a.MarkFailed? || a.MarkClose? || a.MarkError?
  }

  // ---------------------------------------------------------------- schedules from any state

  /** The state a schedule leads to; a schedule that is not possible leads nowhere. */
  function After(cfg: Config, s: State, run: seq<Action>): State {
    var end := RunFrom(cfg, s, run);
    if end.Some? then end.value else s
  }

  lemma {:induction false} JoinFrom(cfg: Config, s: State, run: seq<Action>, more: seq<Action>)
    requires RunFrom(cfg, s, run).Some? && RunFrom(cfg, RunFrom(cfg, s, run).value, more).Some?
    ensures RunFrom(cfg, s, run + more) == RunFrom(cfg, RunFrom(cfg, s, run).value, more)
    decreases |more|
  {
    if more == [] {
      assert run + more == run;
    } else {
      var most := more[..|more| - 1];
      JoinFrom(cfg, s, run, most);
      assert (run + more)[..|run + more| - 1] == run + most;
    }
  }

  lemma {:induction false} SplitFrom(cfg: Config, s: State, run: seq<Action>, more: seq<Action>)
    requires RunFrom(cfg, s, run + more).Some?
    ensures RunFrom(cfg, s, run).Some?
    ensures RunFrom(cfg, After(cfg, s, run), more) == RunFrom(cfg, s, run + more)
    decreases |more|
  {
    if more == [] {
      assert run + more == run;
    } else {
      var most := more[..|more| - 1];
      assert (run + more)[..|run + more| - 1] == run + most;
      SplitFrom(cfg, s, run, most);
    }
  }

  lemma SplitLast(cfg: Config, s: State, run: seq<Action>, a: Action)
    requires RunFrom(cfg, s, run + [a]).Some?
    ensures RunFrom(cfg, s, run).Some? && Enabled(cfg, After(cfg, s, run), a)
    ensures After(cfg, s, run + [a]) == Next(cfg, After(cfg, s, run), a)
  {
    assert (run + [a])[..|run|] == run;
  }

  /** A schedule that goes on from a reachable state is part of a schedule of the protocol. */
  lemma {:induction false} StaysReachable(cfg: Config, pre: seq<Action>, run: seq<Action>)
    requires Exec(cfg, pre).Some? && RunFrom(cfg, Exec(cfg, pre).value, run).Some?
    ensures Exec(cfg, pre + run) == RunFrom(cfg, Exec(cfg, pre).value, run)
  {
    JoinFrom(cfg, Init(cfg), pre, run);
  }

  lemma {:induction false} ConsistentFrom(cfg: Config, s: State, run: seq<Action>)
    requires Consistent(cfg, s) && RunFrom(cfg, s, run).Some?
    ensures Consistent(cfg, RunFrom(cfg, s, run).value)
  {
    if run != [] {
      var before := run[..|run| - 1];
      ConsistentFrom(cfg, s, before);
      ConsistentKept(cfg, RunFrom(cfg, s, before).value, run[|run| - 1]);
    }
  }

  // ---------------------------------------------------------------- one worker among others

  lemma OthersLeaveMine(cfg: Config, s: State, a: Action, me: nat)
    requires Enabled(cfg, s, a) && !MovesOf(a, me) && me < |s.workers|
    ensures |Next(cfg, s, a).workers| == |s.workers| && Next(cfg, s, a).workers[me] == s.workers[me]
  {
  }

  /** What happens of the given actions, one after the other: those that are possible and not this worker's own. */
  function Happening(cfg: Config, s: State, others: seq<Action>, me: nat): seq<Action> {
    if others == [] then []
    else
      var run := Happening(cfg, s, others[..|others| - 1], me);
      var a := others[|others| - 1];
      if !MovesOf(a, me) && Enabled(cfg, After(cfg, s, run), a) then run + [a] else run
  }

  lemma {:induction false} OthersHappen(cfg: Config, s: State, others: seq<Action>, me: nat)
    ensures RunFrom(cfg, s, Happening(cfg, s, others, me)).Some?
    ensures forall a :: a in Happening(cfg, s, others, me) ==> !MovesOf(a, me)
  {
    if others != [] {
      OthersHappen(cfg, s, others[..|others| - 1], me);
      var run, a := Happening(cfg, s, others[..|others| - 1], me), others[|others| - 1];
      if Enabled(cfg, After(cfg, s, run), a) {
        ExtendFrom(cfg, s, run, a);
      }
    }
  }

  // ---------------------------------------------------------------- the fate of the rows handed to a worker

  /** What became of a row in the worker's hands: the mark call made for it, or None when it was given up. */
  datatype Fate = Fate(id: Uuid, mark: Option<Action>)

  function Ids(batch: seq<OutboxEvent>): (ids: seq<Uuid>)
    ensures |ids| == |batch|
    ensures forall i :: 0 <= i < |ids| ==> ids[i] == batch[i].id
  {
    seq(|batch|, i requires 0 <= i < |batch| => batch[i].id)
  }

  function FateIds(fates: seq<Fate>): (ids: seq<Uuid>)
    ensures |ids| == |fates|
    ensures forall i :: 0 <= i < |ids| ==> ids[i] == fates[i].id
  {
    seq(|fates|, i requires 0 <= i < |fates| => fates[i].id)
  }

  function GivenUp(batch: seq<OutboxEvent>): (fates: seq<Fate>)
    ensures |fates| == |batch|
    ensures forall i :: 0 <= i < |fates| ==> fates[i] == Fate(batch[i].id, None)
  {
    seq(|batch|, i requires 0 <= i < |batch| => Fate(batch[i].id, None))
  }

  function HandedBy(a: Action, me: nat): seq<Uuid> {
    if a.Claim? && a.w == me then a.ids else []
  }

  /** The rows handed to the worker, claim after claim. */
  function Handed(run: seq<Action>, me: nat): seq<Uuid> {
    if run == [] then [] else Handed(run[..|run| - 1], me) + HandedBy(run[|run| - 1], me)
  }

  function FatesBy(s: State, a: Action, me: nat): seq<Fate> {
    if !MovesOf(a, me) || !Busy(s, me) then []
    else if IsMark(a) then [Fate(Head(s, me).id, Some(a))]
    else if a.Abandon? then GivenUp(s.workers[me].batch)
    else []
  }

  /** What became of the worker's rows, in the order in which they left its hands. */
  function Fates(cfg: Config, s: State, run: seq<Action>, me: nat): seq<Fate> {
    if run == [] then []
    else
      var before := run[..|run| - 1];
      Fates(cfg, s, before, me) + FatesBy(After(cfg, s, before), run[|run| - 1], me)
  }

  /** What the worker had and is handed, it has got rid of or still has. */
  predicate HandsBalance(cfg: Config, s: State, a: Action, me: nat)
    requires Enabled(cfg, s, a)
  {
    var s' := Next(cfg, s, a);
    && me < |s.workers| == |s'.workers|
    && Ids(s.workers[me].batch) + HandedBy(a, me) == FateIds(FatesBy(s, a, me)) + Ids(s'.workers[me].batch)
  }

  lemma HandsOfOthersMove(cfg: Config, s: State, a: Action, me: nat)
    requires Enabled(cfg, s, a) && me < |s.workers| && !MovesOf(a, me)
    ensures HandsBalance(cfg, s, a, me)
  {
    OthersLeaveMine(cfg, s, a, me);
    var ids := Ids(s.workers[me].batch);
    assert ids + [] == ids == [] + ids;
  }

  lemma HandsOfClaim(cfg: Config, s: State, a: Action, me: nat)
    requires Enabled(cfg, s, a) && me < |s.workers| && a.Claim? && a.w == me
    ensures HandsBalance(cfg, s, a, me)
  {
    assert Ids(Next(cfg, s, a).workers[me].batch) == a.ids;
  }

  lemma HandsOfMark(cfg: Config, s: State, a: Action, me: nat)
    requires Enabled(cfg, s, a) && me < |s.workers| && IsMark(a) && a.w == me
    ensures HandsBalance(cfg, s, a, me)
  {
    assert Next(cfg, s, a).workers[me].batch == s.workers[me].batch[1..];
    assert Ids(s.workers[me].batch) == [Head(s, me).id] + Ids(Next(cfg, s, a).workers[me].batch);
    assert FateIds(FatesBy(s, a, me)) == [Head(s, me).id];
  }

  lemma HandsOfAbandon(cfg: Config, s: State, a: Action, me: nat)
    requires Enabled(cfg, s, a) && me < |s.workers| && a == Abandon(me)
    ensures HandsBalance(cfg, s, a, me)
  {
    assert FateIds(GivenUp(s.workers[me].batch)) == Ids(s.workers[me].batch);
  }

  lemma AnswerKeepsBatch(cfg: Config, s: State, a: Action, me: nat)
    requires Enabled(cfg, s, a) && me < |s.workers| && (a.PublishAck? || a.PublishFail? || a.Reclaim?) && a.w == me
    ensures |Next(cfg, s, a).workers| == |s.workers| && Next(cfg, s, a).workers[me].batch == s.workers[me].batch
  {
  }

  lemma HandsOfAnswer(cfg: Config, s: State, a: Action, me: nat)
    requires Enabled(cfg, s, a) && me < |s.workers| && (a.PublishAck? || a.PublishFail? || a.Reclaim?) && a.w == me
    ensures HandsBalance(cfg, s, a, me)
  {
    hide Next, Enabled;
    AnswerKeepsBatch(cfg, s, a, me);
    var ids := Ids(s.workers[me].batch);
    assert FatesBy(s, a, me) == [] && ids + [] == ids == [] + ids;
  }

  lemma OneFate(cfg: Config, s: State, a: Action, me: nat)
    requires Enabled(cfg, s, a) && me < |s.workers|
    ensures HandsBalance(cfg, s, a, me)
  {
    hide Next, Enabled, HandsBalance;
    if !MovesOf(a, me) {
      HandsOfOthersMove(cfg, s, a, me);
    } else if a.Claim? {
      HandsOfClaim(cfg, s, a, me);
    } else if IsMark(a) {
      HandsOfMark(cfg, s, a, me);
    } else if a.Abandon? {
      HandsOfAbandon(cfg, s, a, me);
    } else {
      HandsOfAnswer(cfg, s, a, me);
    }
  }

  /** Every row handed to a worker leaves its hands once, in the order of the claims: by one mark call, or given up.
      What has not left yet is the batch it still holds. */
  lemma {:induction false} EveryRowOneFate(cfg: Config, s: State, run: seq<Action>, me: nat)
    requires RunFrom(cfg, s, run).Some? && me < |s.workers| && s.workers[me].batch == []
    ensures |After(cfg, s, run).workers| == |s.workers|
    ensures Handed(run, me) == FateIds(Fates(cfg, s, run, me)) + Ids(After(cfg, s, run).workers[me].batch)
  {
    hide Next, Enabled, FatesBy, HandedBy;
    if run != [] {
      var before, a := run[..|run| - 1], run[|run| - 1];
      EveryRowOneFate(cfg, s, before, me);
      var mid := After(cfg, s, before);
      OneFate(cfg, mid, a, me);
      var fates, latest := Fates(cfg, s, before, me), FatesBy(mid, a, me);
      assert FateIds(fates + latest) == FateIds(fates) + FateIds(latest);
      assert After(cfg, s, run) == Next(cfg, mid, a);
      Regroup(FateIds(fates), Ids(mid.workers[me].batch), HandedBy(a, me),
              FateIds(latest), Ids(After(cfg, s, run).workers[me].batch));
    }
  }

  lemma Regroup(a: seq<Uuid>, b: seq<Uuid>, c: seq<Uuid>, d: seq<Uuid>, e: seq<Uuid>)
    requires b + c == d + e
    ensures a + b + c == a + d + e
  {
    assert a + b + c == a + (b + c);
    assert a + d + e == a + (d + e);
  }

  /** As long as the worker gives nothing up, every fate is a mark call. */
  lemma {:induction false} MarkedUnlessAbandoned(cfg: Config, s: State, run: seq<Action>, me: nat)
    requires Abandon(me) !in run
    ensures forall fate :: fate in Fates(cfg, s, run, me) ==> fate.mark.Some?
  {
    if run != [] {
      assert run[|run| - 1] in run;
      MarkedUnlessAbandoned(cfg, s, run[..|run| - 1], me);
    }
  }

  lemma FatesExtend(cfg: Config, s: State, run: seq<Action>, a: Action, me: nat)
    ensures Fates(cfg, s, run + [a], me) == Fates(cfg, s, run, me) + FatesBy(After(cfg, s, run), a, me)
  {
    assert (run + [a])[..|run|] == run;
  }

  lemma AfterJoin(cfg: Config, s: State, run: seq<Action>, more: seq<Action>)
    requires RunFrom(cfg, s, run).Some? && RunFrom(cfg, After(cfg, s, run), more).Some?
    ensures RunFrom(cfg, s, run + more).Some? && After(cfg, s, run + more) == After(cfg, After(cfg, s, run), more)
  {
    JoinFrom(cfg, s, run, more);
  }

  lemma {:induction false} FatesJoin(cfg: Config, s: State, run: seq<Action>, more: seq<Action>, me: nat)
    requires RunFrom(cfg, s, run).Some? && RunFrom(cfg, After(cfg, s, run), more).Some?
    ensures Fates(cfg, s, run + more, me) == Fates(cfg, s, run, me) + Fates(cfg, After(cfg, s, run), more, me)
    decreases |more|
  {
    hide Next, Enabled, FatesBy;
    if more == [] {
      assert run + more == run;
    } else {
      var mid, most, a := After(cfg, s, run), more[..|more| - 1], more[|more| - 1];
      assert more == most + [a];
      SplitFrom(cfg, mid, most, [a]);
      FatesJoin(cfg, s, run, most, me);
      AfterJoin(cfg, s, run, most);
      FatesExtend(cfg, s, run + most, a, me);
      FatesExtend(cfg, mid, most, a, me);
      assert more == most + [a] && run + more == run + most + [a];
      Associate(Fates(cfg, s, run, me), Fates(cfg, mid, most, me), FatesBy(After(cfg, mid, most), a, me));
    }
  }

  lemma Associate(a: seq<Fate>, b: seq<Fate>, c: seq<Fate>)
    ensures a + b + c == a + (b + c)
  {
  }

  /** One schedule after another: the states and the fates add up. */
  lemma Compose(cfg: Config, s: State, run: seq<Action>, mid: State, more: seq<Action>, end: State, me: nat)
    requires RunFrom(cfg, s, run) == Some(mid) && RunFrom(cfg, mid, more) == Some(end)
    ensures RunFrom(cfg, s, run + more) == Some(end) && After(cfg, s, run) == mid && After(cfg, mid, more) == end
    ensures Fates(cfg, s, run + more, me) == Fates(cfg, s, run, me) + Fates(cfg, mid, more, me)
  {
    JoinFrom(cfg, s, run, more);
    FatesJoin(cfg, s, run, more, me);
  }

  lemma Single(cfg: Config, s: State, a: Action, me: nat)
    requires Enabled(cfg, s, a)
    ensures RunFrom(cfg, s, [a]) == Some(Next(cfg, s, a)) && Fates(cfg, s, [a], me) == FatesBy(s, a, me)
  {
    ExtendFrom(cfg, s, [], a);
    FatesExtend(cfg, s, [], a, me);
    assert [] + [a] == [a];
  }

  lemma Nothing(cfg: Config, s: State, me: nat)
    ensures RunFrom(cfg, s, []) == Some(s) && Fates(cfg, s, [], me) == []
  {
  }

  lemma {:induction false} OthersHaveNoFates(cfg: Config, s: State, run: seq<Action>, me: nat)
    requires forall a :: a in run ==> !MovesOf(a, me)
    ensures Fates(cfg, s, run, me) == []
  {
    if run != [] {
      assert run[|run| - 1] in run;
      OthersHaveNoFates(cfg, s, run[..|run| - 1], me);
    }
  }

  /** What the others do leaves the worker as it was. */
  lemma {:induction false} OthersLeaveMe(cfg: Config, s: State, run: seq<Action>, me: nat)
    requires RunFrom(cfg, s, run).Some? && me < |s.workers| && forall a :: a in run ==> !MovesOf(a, me)
    ensures var end := After(cfg, s, run); |end.workers| == |s.workers| && end.workers[me] == s.workers[me]
  {
    if run != [] {
      assert run[|run| - 1] in run;
      OthersLeaveMe(cfg, s, run[..|run| - 1], me);
      OthersLeaveMine(cfg, After(cfg, s, run[..|run| - 1]), run[|run| - 1], me);
    }
  }

  // ---------------------------------------------------------------- the order of a worker's moves in one tick

  /** How far a tick has come: nothing done yet, past the reclaim, past the claim with the publisher to be asked about
      the next event, with that event answered and its mark due, or ended by giving the batch up. */
  datatype Stage = Opened | Reclaimed | Delivering | Marking | Over

  /** The stage after the worker's own move `a`, if the move has its place there. */
  function StageAfter(stage: Stage, a: Action): Option<Stage> {
    match stage
    case Opened => if a.Reclaim? then Some(Reclaimed) else if a.Claim? then Some(Delivering) else None
    case Reclaimed => if a.Claim? then Some(Delivering) else None
    case Delivering =>
      if a.PublishAck? || a.PublishFail? then Some(Marking) else if a.Abandon? then Some(Over) else None
    case Marking => if IsMark(a) then Some(Delivering) else None
    case Over => None
  }

  /** The stage after a schedule; the others' moves make no difference. */
  function Walk(stage: Stage, run: seq<Action>, me: nat): Option<Stage> {
    if run == [] then Some(stage)
    else
      var before := Walk(stage, run[..|run| - 1], me);
      var a := run[|run| - 1];
      if before.None? || !MovesOf(a, me) then before else StageAfter(before.value, a)
  }

  lemma WalkExtend(stage: Stage, run: seq<Action>, a: Action, me: nat)
    requires Walk(stage, run, me).Some?
    ensures Walk(stage, run + [a], me)
         == if MovesOf(a, me) then StageAfter(Walk(stage, run, me).value, a) else Walk(stage, run, me)
  {
    assert (run + [a])[..|run|] == run;
  }

  lemma {:induction false} WalkJoin(stage: Stage, run: seq<Action>, more: seq<Action>, me: nat)
    requires Walk(stage, run, me).Some?
    ensures Walk(stage, run + more, me) == Walk(Walk(stage, run, me).value, more, me)
    decreases |more|
  {
    if more == [] {
      assert run + more == run;
    } else {
      WalkJoin(stage, run, more[..|more| - 1], me);
      assert (run + more)[..|run + more| - 1] == run + more[..|more| - 1];
    }
  }

  lemma {:induction false} OthersDoNotWalk(stage: Stage, run: seq<Action>, me: nat)
    requires forall a :: a in run ==> !MovesOf(a, me)
    ensures Walk(stage, run, me) == Some(stage)
  {
    if run != [] {
      assert run[|run| - 1] in run;
      OthersDoNotWalk(stage, run[..|run| - 1], me);
    }
  }

  predicate Reclaims(a: Action, me: nat) {
    a.Reclaim? && a.w == me
  }

  predicate Claims(a: Action, me: nat) {
    a.Claim? && a.w == me
  }

  /** Past its beginning a tick neither reclaims nor, once it has claimed, claims again. */
  lemma {:induction false} NoWayBack(stage: Stage, run: seq<Action>, me: nat)
    requires stage != Opened && Walk(stage, run, me).Some?
    ensures Walk(stage, run, me).value != Opened
    ensures forall a :: a in run ==> !Reclaims(a, me)
    ensures stage != Reclaimed ==> Walk(stage, run, me).value != Reclaimed && forall a :: a in run ==> !Claims(a, me)
  {
    if run != [] {
      NoWayBack(stage, run[..|run| - 1], me);
      assert run == run[..|run| - 1] + [run[|run| - 1]];
    }
  }

  /** Every schedule of the others can happen. */
  lemma {:induction false} OthersMayDoAnything(cfg: Config, s: State, run: seq<Action>, me: nat)
    requires RunFrom(cfg, s, run).Some? && forall a :: a in run ==> !MovesOf(a, me)
    ensures Happening(cfg, s, run, me) == run
  {
    if run != [] {
      var most := run[..|run| - 1];
      assert run == most + [run[|run| - 1]];
      OthersMayDoAnything(cfg, s, most, me);
    }
  }
}
