/** A whole fleet going down: what the outbox looks like when every worker's Run has returned nil. */
module Fleet {
  import opened Wrappers
  import opened Outbox
  import opened Protocol
  import opened Agreement
  import Draining
  import S = Shutdown

  /** Worker `w` of a fleet that started on the empty database. */
  function Place(cfg: Config, w: nat): S.Setting {
    S.Setting(cfg, w, Init(cfg))
  }

  /** Seen from worker `w`, the schedule is a run of its Run that returned nil, with no deadline of the publisher's own,
      no lost commit and no failed statement among its moves. */
  predicate StoppedCleanly(cfg: Config, run: seq<Action>, w: nat, events: seq<S.Event>) {
    && S.Exec(Place(cfg, w), events).Some?
    && S.Exec(Place(cfg, w), events).value.main == S.Returned(false)
    && S.Actions(Place(cfg, w), events) == run
    && !S.OtherLoss(events)
  }

  predicate LosesFor(a: Action, w: nat) {
    a == Abandon(w) || a == MarkError(w)
  }

  predicate SomeoneLoses(run: seq<Action>, workers: nat) {
    exists w :: 0 <= w < workers && (Abandon(w) in run || MarkError(w) in run)
  }

  lemma DropNeedsLoser(cfg: Config, s: State, a: Action, id: Uuid)
    requires Consistent(cfg, s) && Enabled(cfg, s, a) && Next(cfg, s, a).Of(id).drops != s.Of(id).drops
    ensures (a.Abandon? || a.MarkError?) && a.w < cfg.workers
  {
  }

  /** A delivery is given up only by a worker that gives its batch up or whose mark fails. */
  lemma {:induction false} DropsHaveLosers(cfg: Config, run: seq<Action>, id: Uuid)
    requires Exec(cfg, run).Some? && Exec(cfg, run).value.Of(id).drops > 0
    ensures SomeoneLoses(run, cfg.workers)
  {
    hide Enabled, Next, Consistent;
    if run == [] {
      assert false;
    } else {
      var before, a := run[..|run| - 1], run[|run| - 1];
      var s := Exec(cfg, before).value;
      assert run == before + [a];
      AlwaysConsistent(cfg, before);
      if s.Of(id).drops > 0 {
        DropsHaveLosers(cfg, before, id);
        var w :| 0 <= w < cfg.workers && (Abandon(w) in before || MarkError(w) in before);
        assert Abandon(w) in run || MarkError(w) in run;
      } else {
        DropNeedsLoser(cfg, s, a, id);
        assert a == Abandon(a.w) || a == MarkError(a.w);
        assert a in run;
      }
    }
  }

  lemma OwnLossEvent(g: S.Setting, r: S.Run, e: S.Event, a: Action)
    requires S.Enabled(g, r, e) && a in S.ActionOf(g, e) && LosesFor(a, g.me)
    ensures e.GiveUp? || e.FailMark?
  {
  }

  /** A worker's own losing move is an event of its Run that says why. */
  lemma {:induction false} LossHasCause(g: S.Setting, events: seq<S.Event>, a: Action)
    requires S.Exec(g, events).Some? && a in S.Actions(g, events) && LosesFor(a, g.me)
    ensures S.ForcedLoss(events) || S.OtherLoss(events)
  {
    hide S.Enabled, S.Next, S.ActionOf, S.ForcedLoss, S.OtherLoss, LosesFor;
    if events == [] {
      assert false;
    } else {
      var before, e := events[..|events| - 1], events[|events| - 1];
      assert events == before + [e];
      S.LossLonger(before, e);
      if a in S.Actions(g, before) {
        LossHasCause(g, before, a);
      } else {
        OwnLossEvent(g, S.Exec(g, before).value, e, a);
      }
    }
  }

  lemma NothingLostBy(cfg: Config, run: seq<Action>, w: nat, events: seq<S.Event>)
    requires w < cfg.workers && StoppedCleanly(cfg, run, w, events)
    ensures Abandon(w) !in run && MarkError(w) !in run
    ensures Exec(cfg, run).Some? && w < |Exec(cfg, run).value.workers| && Exec(cfg, run).value.workers[w].batch == []
  {
    hide S.Exec, S.Actions, S.OtherLoss, RunFrom;
    var g := Place(cfg, w);
    assert g.Fits();
    S.CleanStop(g, events);
    S.RowsAccountedFor(g, events);
    S.HoldsNothingOutside(g, events);
    if Abandon(w) in run {
      LossHasCause(g, events, Abandon(w));
    }
    if MarkError(w) in run {
      LossHasCause(g, events, MarkError(w));
    }
  }

  /** When every worker of the fleet has returned nil, and none of them met a publisher's deadline, lost a commit or
      saw a statement fail, nobody holds anything and no row is left in PROCESSING: each waits to be claimed, is
      published or is closed. Nothing needs to be reclaimed when the fleet comes back. */
  lemma CleanFleet(cfg: Config, run: seq<Action>, views: seq<seq<S.Event>>)
    requires |views| == cfg.workers && Exec(cfg, run).Some?
    requires forall w :: 0 <= w < cfg.workers ==> StoppedCleanly(cfg, run, w, views[w])
    ensures var s := Exec(cfg, run).value;
      && (forall w :: 0 <= w < |s.workers| ==> s.workers[w].batch == [])
      && (forall id :: id in s.rows ==> s.rows[id].status != Processing && s.Of(id).drops == 0)
  {
    hide StoppedCleanly, RunFrom;
    var s := Exec(cfg, run).value;
    AlwaysConsistent(cfg, run);
    forall w | 0 <= w < |s.workers| ensures s.workers[w].batch == [] {
      NothingLostBy(cfg, run, w, views[w]);
    }
    forall id | id in s.rows ensures s.rows[id].status != Processing && s.Of(id).drops == 0 {
      if s.Of(id).drops > 0 {
        DropsHaveLosers(cfg, run, id);
        var w :| 0 <= w < cfg.workers && (Abandon(w) in run || MarkError(w) in run);
        NothingLostBy(cfg, run, w, views[w]);
        assert false;
      }
      Draining.AlwaysAccounted(cfg, run, id);
    }
  }
}
