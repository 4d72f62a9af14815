/** The worker's lifecycle: the forward-only state raced by compare-and-swap, and the shutdown of Run. */
module Lifecycle {

  const STARTING := 0
  const RUNNING := 1
  const STOPPING := 2
  const STOPPED := 3

  type Life = s: int | STARTING <= s <= STOPPED

  function Max(a: Life, b: Life): Life {
    if a < b then b else a
  }

  /** The atomic state word of one worker. */
  class LifecycleState {
    var state: Life

    constructor ()
      ensures state == STARTING
    {
      state := STARTING;
    }

    /** Other callers only ever raise the state. */
    method Others(to: Life)
      modifies this
      ensures state == Max(old(state), to)
    {
      if state < to {
        state := to;
      }
    }

    method CompareAndSwap(expected: Life, target: Life) returns (swapped: bool)
      modifies this
      ensures swapped <==> old(state) == expected
      ensures state == if swapped then target else old(state)
    {
      swapped := state == expected;
      if swapped {
        state := target;
      }
    }

    /** Whatever the others raise the state to between its steps, the call returns after at most four rounds, the
        state has not gone down and has reached `target`; and it only raised the state if it had to. */
    method AdvanceState(target: Life, afterLoad: nat -> Life, beforeSwap: nat -> Life)
        returns (rounds: nat, wrote: bool)
      modifies this
      ensures state >= old(state) && state >= target
      ensures 1 <= rounds <= STOPPED - old(state) + 1
      ensures wrote ==> state == target > old(state)
    {
      rounds, wrote := 0, false;
      while true
        invariant old(state) <= state
        invariant rounds <= state - old(state)
        decreases STOPPED - state
      {
        var current := state;
        rounds := rounds + 1;
        Others(afterLoad(rounds));
        if target <= current {
          return;
        }
        Others(beforeSwap(rounds));
        wrote := CompareAndSwap(current, target);
        if wrote {
          return;
        }
      }
    }
  }

  // ---------------------------------------------------------------- any number of callers, interleaved step by step

  datatype Pc = Loading | Loaded(current: Life) | Done

  datatype Caller = Caller(target: Life, pc: Pc)

  datatype Race = Race(value: Life, callers: seq<Caller>)

  predicate CanStep(r: Race, i: nat) {
    i < |r.callers| && r.callers[i].pc != Done
  }

  function StepCaller(r: Race, i: nat): Race
    requires CanStep(r, i)
  {
    var c := r.callers[i];
    match c.pc
    case Loading => r.(callers := r.callers[i := c.(pc := Loaded(r.value))])
    case Loaded(current) =>
      if c.target <= current then r.(callers := r.callers[i := c.(pc := Done)])
      else if r.value == current then Race(c.target, r.callers[i := c.(pc := Done)])
      else r.(callers := r.callers[i := c.(pc := Loading)])
  }

  /** A schedule names the caller that takes the next step. */
  function RaceRun(start: Race, schedule: seq<nat>): (r: Race)
    ensures |r.callers| == |start.callers|
  {
    if schedule == [] then start
    else
      var before := RaceRun(start, schedule[..|schedule| - 1]);
      var i := schedule[|schedule| - 1];
      if CanStep(before, i) then StepCaller(before, i) else before
  }

  predicate Fresh(r: Race) {
    forall i :: 0 <= i < |r.callers| ==> r.callers[i].pc == Loading
  }

  function Highest(value: Life, callers: seq<Caller>): Life {
    if callers == [] then value else Max(Highest(value, callers[..|callers| - 1]), callers[|callers| - 1].target)
  }

  lemma {:induction false} HighestBounds(value: Life, callers: seq<Caller>)
    ensures value <= Highest(value, callers)
    ensures forall i :: 0 <= i < |callers| ==> callers[i].target <= Highest(value, callers)
    ensures Highest(value, callers) == value
      || exists i :: 0 <= i < |callers| && callers[i].target == Highest(value, callers)
  {
    if callers != [] {
      HighestBounds(value, callers[..|callers| - 1]);
    }
  }

  /** No load is ahead of the state, a finished caller's target is reached, and nobody overshoots. */
  ghost predicate RaceOk(start: Race, r: Race) {
    && |r.callers| == |start.callers|
    && start.value <= r.value <= Highest(start.value, start.callers)
    && (forall i :: 0 <= i < |r.callers| ==>
          && r.callers[i].target == start.callers[i].target
          && (r.callers[i].pc.Loaded? ==> r.callers[i].pc.current <= r.value)
          && (r.callers[i].pc == Done ==> r.callers[i].target <= r.value))
  }

  lemma {:induction false} RaceKeeps(start: Race, schedule: seq<nat>)
    requires Fresh(start)
    ensures RaceOk(start, RaceRun(start, schedule))
  {
    HighestBounds(start.value, start.callers);
    if schedule != [] {
      RaceKeeps(start, schedule[..|schedule| - 1]);
    }
  }

  lemma {:induction false} RaceOnlyRises(start: Race, schedule: seq<nat>, more: seq<nat>)
    requires Fresh(start)
    ensures RaceRun(start, schedule).value <= RaceRun(start, schedule + more).value
    decreases |more|
  {
    if more == [] {
      assert schedule + more == schedule;
    } else {
      var most := more[..|more| - 1];
      RaceOnlyRises(start, schedule, most);
      assert (schedule + more)[..|schedule + more| - 1] == schedule + most;
      RaceKeeps(start, schedule + most);
    }
  }

  function Rank(value: Life, c: Caller): nat {
    match c.pc
    case Done => 0
    case Loaded(current) => if current == value then 1 else 3
    case Loading => 2
  }

  function Ranks(value: Life, callers: seq<Caller>): nat {
    if callers == [] then 0 else Ranks(value, callers[..|callers| - 1]) + Rank(value, callers[|callers| - 1])
  }

  lemma {:induction false} RanksUpdate(value: Life, callers: seq<Caller>, i: nat, c: Caller)
    requires i < |callers|
    ensures Ranks(value, callers[i := c]) + Rank(value, callers[i]) == Ranks(value, callers) + Rank(value, c)
  {
    var last := |callers| - 1;
    if i == last {
      assert callers[i := c][..last] == callers[..last];
    } else {
      assert callers[i := c][..last] == callers[..last][i := c];
      RanksUpdate(value, callers[..last], i, c);
    }
  }

  lemma {:induction false} RanksBounded(value: Life, callers: seq<Caller>)
    ensures Ranks(value, callers) <= 3 * |callers|
  {
    if callers != [] {
      RanksBounded(value, callers[..|callers| - 1]);
    }
  }

  lemma {:induction false} FreshRanks(value: Life, callers: seq<Caller>)
    requires forall i :: 0 <= i < |callers| ==> callers[i].pc == Loading
    ensures Ranks(value, callers) == 2 * |callers|
  {
    if callers != [] {
      FreshRanks(value, callers[..|callers| - 1]);
    }
  }

  function Steps(start: Race, schedule: seq<nat>): nat {
    if schedule == [] then 0
    else
      Steps(start, schedule[..|schedule| - 1])
        + (if CanStep(RaceRun(start, schedule[..|schedule| - 1]), schedule[|schedule| - 1]) then 1 else 0)
  }

  function Fuel(r: Race): nat {
    (STOPPED - r.value) * (3 * |r.callers| + 1) + Ranks(r.value, r.callers)
  }

  lemma StepBurnsFuel(start: Race, r: Race, i: nat)
    requires RaceOk(start, r) && CanStep(r, i)
    ensures Fuel(StepCaller(r, i)) < Fuel(r)
  {
    var r' := StepCaller(r, i);
    if r'.value == r.value {
      RanksUpdate(r.value, r.callers, i, r'.callers[i]);
    } else {
      RanksBounded(r'.value, r'.callers);
      RiseBurns(r.value, r'.value, 3 * |r.callers| + 1);
    }
  }

  lemma RiseBurns(value: Life, value': Life, n: nat)
    requires value < value'
    ensures (STOPPED - value) * n >= (STOPPED - value') * n + n
  {
    assert (STOPPED - value) * n == (STOPPED - value') * n + (value' - value) * n;
    assert (value' - value) * n >= n;
  }

  /** Every race ends: however `n` callers interleave, they take at most 11n + 3 steps in all, although a failed swap
      sends a caller back to its load. */
  lemma {:induction false} RaceEnds(start: Race, schedule: seq<nat>)
    requires Fresh(start)
    ensures Steps(start, schedule) + Fuel(RaceRun(start, schedule)) <= 11 * |start.callers| + 3
  {
    if schedule == [] {
      FreshRanks(start.value, start.callers);
      var n := 3 * |start.callers| + 1;
      assert (STOPPED - start.value) * n <= 3 * n;
    } else {
      var before := schedule[..|schedule| - 1];
      RaceEnds(start, before);
      RaceKeeps(start, before);
      var i := schedule[|schedule| - 1];
      if CanStep(RaceRun(start, before), i) {
        StepBurnsFuel(start, RaceRun(start, before), i);
      }
    }
  }

  /** A late transition never moves the lifecycle backwards: when all callers are through, the state is the highest
      of the initial state and their targets, whatever the order. */
  lemma RaceEndsAtHighest(start: Race, schedule: seq<nat>)
    requires Fresh(start)
    requires forall i :: 0 <= i < |start.callers| ==> !CanStep(RaceRun(start, schedule), i)
    ensures RaceRun(start, schedule).value == Highest(start.value, start.callers)
  {
    RaceKeeps(start, schedule);
    HighestBounds(start.value, start.callers);
    var r := RaceRun(start, schedule);
    if i :| 0 <= i < |start.callers| && start.callers[i].target == Highest(start.value, start.callers) {
      assert !CanStep(r, i) && r.callers[i].target == start.callers[i].target;
    }
  }
}
