/** The benchmark's counting publisher, its statistics and its result row. */
module Bench {
  import opened Wrappers
  import opened Outbox
  import opened Protocol
  import opened Agreement
  import opened Guarantees
  import opened Draining
  import Injection

  /** What was counted: the calls of each event, how many there were, and their durations. */
  datatype Counted = Counted(calls: map<Uuid, nat>, total: nat, durationSum: int, durationMax: int)

  /** Counters that arise from recording deliveries. The maximum starts at zero, so it is only meaningful for
      durations that are not negative. */
  ghost predicate WellCounted(c: Counted) {
    && (forall id :: id in c.calls ==> c.calls[id] >= 1)
    && c.total == Sum(c.calls)
    && 0 <= c.durationMax && 0 <= c.durationSum <= c.total * c.durationMax
  }

  function CallsOf(calls: map<Uuid, nat>, id: Uuid): nat {
    if id in calls then calls[id] else 0
  }

  function Duplicated(calls: map<Uuid, nat>): set<Uuid> {
    set id | id in calls && calls[id] > 1
  }

  datatype Stats = Stats(distinct: nat, duplicates: nat, total: nat, durationAvg: int, durationMax: int)

  lemma {:induction false} SumBounds(calls: map<Uuid, nat>)
    requires forall id :: id in calls ==> calls[id] >= 1
    ensures Sum(calls) >= |calls| + |Duplicated(calls)|
    ensures Duplicated(calls) == {} ==> Sum(calls) == |calls|
    decreases |calls|
  {
    if calls == map[] {
      assert Duplicated(calls) == {};
    } else {
      var k :| k in calls;
      SumRemove(calls, k);
      SumBounds(calls - {k});
      var rest := Duplicated(calls - {k});
      assert Duplicated(calls) == if calls[k] > 1 then rest + {k} else rest;
      assert k !in rest;
    }
  }

  /** Duplicates are covered by the surplus of calls over events, and there are none exactly when there is no
      surplus. */
  lemma DuplicateAccounting(c: Counted)
    requires WellCounted(c)
    ensures |Duplicated(c.calls)| <= c.total - |c.calls|
    ensures |Duplicated(c.calls)| == 0 <==> c.total == |c.calls|
  {
    SumBounds(c.calls);
    if |Duplicated(c.calls)| == 0 {
      assert Duplicated(c.calls) == {};
    }
  }

  lemma {:induction false} SumOfCalls(calls: map<Uuid, nat>, id: Uuid)
    ensures Sum(calls[id := CallsOf(calls, id) + 1]) == Sum(calls) + 1
  {
    Injection.SumBump(calls, id);
  }

  lemma DurationStep(total: nat, sum: int, max: int, elapsed: int)
    requires 0 <= max && 0 <= elapsed && 0 <= sum <= total * max
    ensures var max' := if elapsed > max then elapsed else max; 0 <= sum + elapsed <= (total + 1) * max'
  {
    var max' := if elapsed > max then elapsed else max;
    assert total * max <= total * max';
    assert (total + 1) * max' == total * max' + max';
  }

  class BenchPublisher {
    var calls: map<Uuid, nat>
    var total: nat
    var first: Option<Time>
    var durationSum: int
    var durationMax: int

    function View(): Counted
      reads this
    {
      Counted(calls, total, durationSum, durationMax)
    }

    constructor ()
      ensures WellCounted(View()) && View() == Counted(map[], 0, 0, 0) && first == None
    {
      calls, total, first, durationSum, durationMax := map[], 0, None, 0, 0;
    }

    /** A call counts once its publisher answered nil; `interrupted` is a cancellation during the artificial latency,
        `next` the wrapped publisher's answer, `elapsed` how long it took. */
    method Publish(event: OutboxEvent, interrupted: bool, next: Injection.Answer, elapsed: nat, now: Time)
        returns (answer: Injection.Answer)
      requires WellCounted(View())
      modifies this
      ensures WellCounted(View())
      ensures answer == if interrupted then Injection.Cancelled else next
      ensures answer != Injection.Ack ==> View() == old(View()) && first == old(first)
      ensures answer == Injection.Ack ==>
        && calls == old(calls)[event.id := CallsOf(old(calls), event.id) + 1] && total == old(total) + 1
        && durationSum == old(durationSum) + elapsed
        && durationMax >= elapsed && durationMax >= old(durationMax)
        && (durationMax == elapsed || durationMax == old(durationMax))
        && first == (if old(first) == None then Some(now) else old(first))
    {
      if interrupted {
        return Injection.Cancelled;
      }
      if next != Injection.Ack {
        return next;
      }
      SumOfCalls(calls, event.id);
      DurationStep(total, durationSum, durationMax, elapsed);
      calls := calls[event.id := CallsOf(calls, event.id) + 1];
      total := total + 1;
      durationSum := durationSum + elapsed;
      if elapsed > durationMax {
        durationMax := elapsed;
      }
      if first == None {
        first := Some(now);
      }
      return Injection.Ack;
    }

    method CountDuplicates() returns (duplicates: nat)
      ensures duplicates == |Duplicated(calls)|
    {
      duplicates := 0;
      var seen: set<Uuid> := {};
      var rest := calls.Keys;
      while rest != {}
        invariant seen !! rest && seen + rest == calls.Keys
        invariant duplicates == |Among(calls, seen)|
        decreases |rest|
      {
        var id :| id in rest;
        AmongOneMore(calls, seen, id);
        if calls[id] > 1 {
          duplicates := duplicates + 1;
        }
        seen, rest := seen + {id}, rest - {id};
      }
      assert Among(calls, seen) == Duplicated(calls);
    }

    /** The report's figures: duplicates covered by the surplus of calls, the rounded-down average, below the
        maximum. */
    method GetStats() returns (s: Stats)
      requires WellCounted(View())
      ensures s.distinct == |calls| && s.total == total && s.durationMax == durationMax
      ensures s.duplicates == |Duplicated(calls)|
      ensures s.duplicates <= s.total - s.distinct && (s.duplicates == 0 <==> s.total == s.distinct)
      ensures total == 0 ==> s.durationAvg == 0
      ensures total > 0 ==> s.durationAvg * total <= durationSum < (s.durationAvg + 1) * total
      ensures 0 <= s.durationAvg <= s.durationMax
    {
      var duplicates := CountDuplicates();
      DuplicateAccounting(View());
      var avg := 0;
      if total > 0 {
        avg := durationSum / total;
        AverageBelowMax(durationSum, total, durationMax);
      }
      s := Stats(|calls|, duplicates, total, avg, durationMax);
    }
  }

  function Among(calls: map<Uuid, nat>, ids: set<Uuid>): set<Uuid> {
    set id | id in ids && CallsOf(calls, id) > 1
  }

  lemma AmongOneMore(calls: map<Uuid, nat>, ids: set<Uuid>, id: Uuid)
    requires id !in ids
    ensures |Among(calls, ids + {id})| == |Among(calls, ids)| + (if CallsOf(calls, id) > 1 then 1 else 0)
  {
    assert Among(calls, ids + {id}) == Among(calls, ids) + (if CallsOf(calls, id) > 1 then {id} else {});
    assert id !in Among(calls, ids);
  }

  lemma MulStrict(a: int, b: int, t: int)
    requires a > b && t > 0
    ensures a * t > b * t
  {
  }

  lemma AverageBelowMax(sum: int, total: nat, max: int)
    requires total > 0 && 0 <= max && 0 <= sum <= total * max
    ensures 0 <= sum / total <= max
    ensures sum / total * total <= sum < (sum / total + 1) * total
  {
    var avg := sum / total;
    assert sum == avg * total + sum % total;
    if avg > max {
      MulStrict(avg, max, total);
    }
  }

  // ---------------------------------------------------------------- the result row

  datatype Counts = Counts(pending: nat, processing: nat, published: nat, closed: nat)

  function WithStatus(rows: Table, status: Status): set<Uuid> {
    set id | id in rows && rows[id].status == status
  }

  function CountByStatus(rows: Table): Counts {
    Counts(|WithStatus(rows, Pending)|, |WithStatus(rows, Processing)|, |WithStatus(rows, Published)|,
           |WithStatus(rows, Close)|)
  }

  /** What the report calls lost. */
  function LostRows(seeded: int, counts: Counts): int {
    seeded - (counts.published + counts.closed + counts.pending + counts.processing)
  }

  lemma DisjointUnion(a: set<Uuid>, b: set<Uuid>)
    requires a !! b
    ensures |a + b| == |a| + |b|
  {
  }

  /** The four counts partition the table, so nothing is reported lost exactly when no row is missing. */
  lemma LostMeansMissing(rows: Table, seeded: int)
    ensures LostRows(seeded, CountByStatus(rows)) == seeded - |rows|
  {
    var a, b := WithStatus(rows, Pending), WithStatus(rows, Processing);
    var c, d := WithStatus(rows, Published), WithStatus(rows, Close);
    DisjointUnion(a, b);
    DisjointUnion(c, d);
    DisjointUnion(a + b, c + d);
    assert rows.Keys == (a + b) + (c + d);
    assert |rows| == |rows.Keys|;
  }

  /** Over every schedule that only ingests the seeded rows, the benchmark reports none lost. */
  lemma {:induction false} NothingIsEverLost(cfg: Config, run: seq<Action>, more: seq<Action>)
    requires Exec(cfg, run + more).Some? && forall i :: 0 <= i < |more| ==> !more[i].Ingest?
    ensures Exec(cfg, run).Some?
    ensures LostRows(|Exec(cfg, run).value.rows|, CountByStatus(Exec(cfg, run + more).value.rows)) == 0
  {
    NothingLost(cfg, run, more, 0);
    SameKeys(cfg, run, more);
    LostMeansMissing(Exec(cfg, run + more).value.rows, |Exec(cfg, run).value.rows|);
    assert |Exec(cfg, run).value.rows| == |Exec(cfg, run).value.rows.Keys|;
    assert |Exec(cfg, run + more).value.rows| == |Exec(cfg, run + more).value.rows.Keys|;
  }

  lemma KeysStay(cfg: Config, s: State, a: Action)
    requires Enabled(cfg, s, a) && !a.Ingest?
    ensures Next(cfg, s, a).rows.Keys == s.rows.Keys
  {
  }

  lemma {:induction false} SameKeys(cfg: Config, run: seq<Action>, more: seq<Action>)
    requires Exec(cfg, run + more).Some? && forall i :: 0 <= i < |more| ==> !more[i].Ingest?
    ensures Exec(cfg, run).Some? && Exec(cfg, run).value.rows.Keys == Exec(cfg, run + more).value.rows.Keys
    decreases |more|
  {
    if more == [] {
      assert run + more == run;
    } else {
      var most := more[..|more| - 1];
      assert (run + more)[..|run + more| - 1] == run + most;
      assert !more[|more| - 1].Ingest?;
      SameKeys(cfg, run, most);
      KeysStay(cfg, Exec(cfg, run + most).value, more[|more| - 1]);
    }
  }

  /** What the counting publisher holds when it ends the publisher chain of a schedule. */
  function CallsIn(s: State): map<Uuid, nat> {
    map id | id in s.rows && s.Of(id).acks > 0 :: s.Of(id).acks
  }

  lemma CallsUnmoved(cfg: Config, s: State, a: Action)
    requires Consistent(cfg, s) && Enabled(cfg, s, a) && !a.PublishAck?
    ensures CallsIn(Next(cfg, s, a)) == CallsIn(s)
  {
    var s' := Next(cfg, s, a);
    if a.Ingest? {
      assert s.Of(a.id) == NOTHING;
    } else {
      KeysStay(cfg, s, a);
    }
    forall id | id in s.rows ensures s'.Of(id).acks == s.Of(id).acks {
      AcksOnlyByAck(cfg, s, a, id);
    }
  }

  lemma CallsMoved(cfg: Config, s: State, w: nat)
    requires Consistent(cfg, s) && Enabled(cfg, s, PublishAck(w))
    ensures var id := Head(s, w).id;
      CallsIn(Next(cfg, s, PublishAck(w))) == CallsIn(s)[id := CallsOf(CallsIn(s), id) + 1]
  {
    assert WorkerOk(s, s.workers[w]) && Agrees(s, Head(s, w));
    assert Next(cfg, s, PublishAck(w)).rows == s.rows;
  }

  /** The publisher's map follows the schedule: an acknowledgement is one more call of its event, nothing else
      counts. */
  lemma CallsFollow(cfg: Config, s: State, a: Action)
    requires Consistent(cfg, s) && Enabled(cfg, s, a)
    ensures !a.PublishAck? ==> CallsIn(Next(cfg, s, a)) == CallsIn(s)
    ensures a.PublishAck? ==>
        CallsIn(Next(cfg, s, a)) == CallsIn(s)[Head(s, a.w).id := CallsOf(CallsIn(s), Head(s, a.w).id) + 1]
  {
    if a.PublishAck? {
      CallsMoved(cfg, s, a.w);
    } else {
      CallsUnmoved(cfg, s, a);
    }
  }

  /** A duplicate in the benchmark's report is an event that was reclaimed: without reclaims there is none. */
  lemma DuplicatesWereReclaimed(cfg: Config, run: seq<Action>, id: Uuid)
    requires Exec(cfg, run).Some? && id in Duplicated(CallsIn(Exec(cfg, run).value))
    ensures ReclaimsIn(run, id) >= 1
  {
    DuplicateBound(cfg, run, id);
    LogAlwaysAgrees(cfg, run);
  }

  /** How many rows a schedule's reclaims freed altogether. */
  function AllReclaims(run: seq<Action>): nat {
    if run == [] then 0
    else AllReclaims(run[..|run| - 1]) + (if run[|run| - 1].Reclaim? then |run[|run| - 1].stale| else 0)
  }

  function ReclaimsByRow(s: State): map<Uuid, nat> {
    map id | id in s.hist :: s.hist[id].reclaims
  }

  lemma {:induction false} SumPlusOnes(m: map<Uuid, nat>, m': map<Uuid, nat>, moved: set<Uuid>)
    requires m.Keys == m'.Keys && moved <= m.Keys
    requires forall k :: k in m ==> m'[k] == m[k] + (if k in moved then 1 else 0)
    ensures Sum(m') == Sum(m) + |moved|
    decreases |m|
  {
    if m == map[] {
      assert m' == map[] && moved == {};
    } else {
      var k :| k in m;
      SumRemove(m, k);
      SumRemove(m', k);
      SumPlusOnes(m - {k}, m' - {k}, moved - {k});
      assert k !in moved ==> moved - {k} == moved;
    }
  }

  lemma ArrivalUnreclaimed(cfg: Config, s: State, a: Action)
    requires Consistent(cfg, s) && Enabled(cfg, s, a) && a.Ingest?
    ensures Sum(ReclaimsByRow(Next(cfg, s, a))) == Sum(ReclaimsByRow(s))
  {
    SumInsert(ReclaimsByRow(s), a.id, 0);
    assert ReclaimsByRow(Next(cfg, s, a)) == ReclaimsByRow(s)[a.id := 0];
  }

  lemma FreedAreRows(cfg: Config, s: State, a: Action)
    requires Consistent(cfg, s) && Enabled(cfg, s, a)
    ensures a.Reclaim? ==> a.stale <= s.hist.Keys
  {
  }

  lemma ReclaimsMoved(cfg: Config, s: State, a: Action)
    requires Consistent(cfg, s) && Enabled(cfg, s, a)
    ensures Sum(ReclaimsByRow(Next(cfg, s, a))) == Sum(ReclaimsByRow(s)) + (if a.Reclaim? then |a.stale| else 0)
  {
    hide Next, Enabled;
    if a.Ingest? {
      ArrivalUnreclaimed(cfg, s, a);
    } else {
      KeysKept(cfg, s, a);
      KeysStay(cfg, s, a);
      FreedAreRows(cfg, s, a);
      var m, m' := ReclaimsByRow(s), ReclaimsByRow(Next(cfg, s, a));
      var freed := if a.Reclaim? then a.stale else {};
      forall id | id in m ensures m'[id] == m[id] + (if id in freed then 1 else 0) {
        ReclaimStep(cfg, s, a, id);
      }
      SumPlusOnes(m, m', freed);
    }
  }

  lemma {:induction false} ReclaimsAddUp(cfg: Config, run: seq<Action>)
    requires Exec(cfg, run).Some?
    ensures Sum(ReclaimsByRow(Exec(cfg, run).value)) == AllReclaims(run)
  {
    if run == [] {
      assert ReclaimsByRow(Init(cfg)) == map[];
    } else {
      var before := run[..|run| - 1];
      ReclaimsAddUp(cfg, before);
      AlwaysConsistent(cfg, before);
      ReclaimsMoved(cfg, Exec(cfg, before).value, run[|run| - 1]);
    }
  }

  lemma {:induction false} SurplusAtMost(calls: map<Uuid, nat>, reclaims: map<Uuid, nat>)
    requires calls.Keys <= reclaims.Keys && forall id :: id in calls ==> calls[id] <= 1 + reclaims[id]
    ensures Sum(calls) <= |calls| + Sum(reclaims)
    decreases |calls|
  {
    if calls != map[] {
      var id :| id in calls;
      SumRemove(calls, id);
      SumRemove(reclaims, id);
      SurplusAtMost(calls - {id}, reclaims - {id});
    }
  }

  /** The report's surplus of calls over events is paid for by the reclaims of the run: over every schedule it is at
      most the number of rows that were freed. */
  lemma SurplusWasReclaimed(cfg: Config, run: seq<Action>)
    requires Exec(cfg, run).Some?
    ensures var calls := CallsIn(Exec(cfg, run).value); Sum(calls) - |calls| <= AllReclaims(run)
  {
    var s := Exec(cfg, run).value;
    AlwaysConsistent(cfg, run);
    LogAlwaysAgrees(cfg, run);
    forall id | id in CallsIn(s) ensures CallsIn(s)[id] <= 1 + ReclaimsByRow(s)[id] {
      DuplicateBound(cfg, run, id);
      ReclaimsCounted(cfg, run, id);
    }
    SurplusAtMost(CallsIn(s), ReclaimsByRow(s));
    ReclaimsAddUp(cfg, run);
  }
}
