/** The worker's batch loop over the repository, with the rest of the fleet acting between its calls. The methods are
    the loop; the functions say which schedule of the protocol a tick is, and the lemmas at the end what it does with
    the rows it claims. */
module Worker {
  import opened Wrappers
  import opened Outbox
  import opened Protocol
  import opened Agreement
  import opened Moves
  import opened Repository
  import opened Retry
  import Injection

  type Answer = Injection.Answer

  datatype ProcessError = ClaimFailed | ContextError

  /** What the surroundings do around one event: the others' moves before the publish call and before the mark, the
      publisher's answer, the fault of the mark and the random number of the backoff. */
  datatype Turn = Turn(before: seq<Action>, answer: Answer, between: seq<Action>, fault: Fault, draw: nat)

  datatype Script = Script(
    first: seq<Action>, reclaimLocked: set<Uuid>, reclaimFault: Fault,
    second: seq<Action>, claimLocked: set<Uuid>, claimFault: ClaimFault,
    turns: nat -> Turn)

  /** Of the first `n` events, how many are answered before the first context error. */
  function Answered(turns: nat -> Turn, n: nat): (k: nat)
    ensures k <= n
  {
    if n == 0 then 0
    else
      var k := Answered(turns, n - 1);
      if k == n - 1 && !turns(k).answer.Cancelled? then n else k
  }

  lemma {:induction false} AnsweredMeans(turns: nat -> Turn, n: nat, i: nat)
    requires i < n
    ensures i < Answered(turns, n) ==> !turns(i).answer.Cancelled?
    ensures i == Answered(turns, n) ==> turns(i).answer.Cancelled?
  {
    if i < n - 1 {
      AnsweredMeans(turns, n - 1, i);
    }
  }

  lemma {:induction false} AnsweredStops(turns: nat -> Turn, k: nat, n: nat)
    requires k < n && Answered(turns, k) == k && turns(k).answer.Cancelled?
    ensures Answered(turns, n) == k
  {
    if k < n - 1 {
      AnsweredStops(turns, k, n - 1);
    }
  }

  /** Of the first `n` events, how many get a turn: the one that meets the context error still does. */
  function Taken(turns: nat -> Turn, n: nat): (k: nat)
    ensures Answered(turns, n) <= k <= n
  {
    var k := Answered(turns, n);
    if k < n then k + 1 else n
  }

  /** Of the first `k` events, those acknowledged and marked without error. */
  function Acks(turns: nat -> Turn, k: nat): nat {
    if k == 0 then 0 else Acks(turns, k - 1) + (if turns(k - 1).answer.Ack? && turns(k - 1).fault == Fine then 1 else 0)
  }

  /** What is left of the batch when `i` events have had their turn. */
  function Left(events: seq<OutboxEvent>, i: nat): seq<OutboxEvent>
    requires i <= |events|
  {
    events[i..]
  }

  lemma LeftShrinks(events: seq<OutboxEvent>, i: nat)
    requires i < |events|
    ensures Left(events, i) != [] && Left(events, i)[0] == events[i] && Left(events, i)[1..] == Left(events, i + 1)
  {
  }

  lemma LeftEnds(events: seq<OutboxEvent>)
    ensures Left(events, 0) == events && Left(events, |events|) == []
  {
  }

  /** The row is back in PENDING with one attempt more, the error and the time of its next attempt, unless it had left
      PROCESSING. */
  predicate IsPutBack(before: Table, after: Table, id: Uuid, at: Time, error: string) {
    after == if id !in before || before[id].status != Processing then before
             else before[id := before[id].(status := Pending, attempts := before[id].attempts + 1,
                                           availableAt := at, lastError := Some(error))]
  }

  class OutboxWorker {
    const cfg: Config
    const me: nat
    const retryBaseDelay: int64
    const retryMaxDelay: int64
    const repository: OutboxRepository

    // what the protocol knows besides the table
    var now: Time
    var workers: seq<Protocol.Worker>
    var acked: seq<Message>
    var hist: map<Uuid, Tally>

    // metrics
    var published: nat
    var failed: nat
    var closed: nat

    constructor (cfg: Config, me: nat, repository: OutboxRepository, retryBaseDelay: int64, retryMaxDelay: int64,
                 now: Time, workers: seq<Protocol.Worker>, acked: seq<Message>, hist: map<Uuid, Tally>)
      requires me < |workers|
      ensures this.cfg == cfg && this.me == me && this.repository == repository
      ensures this.retryBaseDelay == retryBaseDelay && this.retryMaxDelay == retryMaxDelay
      ensures View() == State(repository.table, now, workers, acked, hist)
      ensures published == failed == closed == 0
    {
      this.cfg, this.me, this.repository := cfg, me, repository;
      this.retryBaseDelay, this.retryMaxDelay := retryBaseDelay, retryMaxDelay;
      this.now, this.workers, this.acked, this.hist := now, workers, acked, hist;
      published, failed, closed := 0, 0, 0;
    }

    function View(): State
      reads this, repository
    {
      State(repository.table, now, workers, acked, hist)
    }

    // -------------------------------------------------------------- the schedule that a tick is

    /** The statement that ends an answered event's turn at this time. A lost statement has no effect. */
    function MarkAt(at: Time, event: OutboxEvent, turn: Turn): Action {
      if turn.fault == Lost then MarkError(me)
      else if !turn.answer.Refused? then MarkPublished(me, at)
      else if Exhausted(cfg, event) then MarkClose(me)
      else
        var retry := event.attempts + 1;
        MarkFailed(me, at + RetryAfter(retry, retryBaseDelay as int, retryMaxDelay as int, turn.draw))
    }

    function AnswerOf(turn: Turn): Action {
      match turn.answer
      case Ack => PublishAck(me)
      case Refused(error) => PublishFail(me, error)
      case Cancelled => Abandon(me)
    }

    /** The state in which the publisher is asked, when the event's turn starts in `s`. */
    function Asked(s: State, turn: Turn): State {
      After(cfg, s, Happening(cfg, s, turn.before, me))
    }

    /** The state in which the mark is issued, when the publisher is asked in `s`. */
    function AtMark(s: State, turn: Turn): State {
      var answered := After(cfg, s, [AnswerOf(turn)]);
      After(cfg, answered, Happening(cfg, answered, turn.between, me))
    }

    /** The metrics of one turn: a refusal counts as a failure, and once more when putting the row back fails or finds
        it no longer in PROCESSING; a row counts as closed when closing it succeeds. */
    function FailuresOf(s: State, event: OutboxEvent, turn: Turn): nat {
      if !turn.answer.Refused? then 0
      else if Exhausted(cfg, event) || (turn.fault == Fine && InProcessing(AtMark(s, turn).rows, event.id)) then 1
      else 2
    }

    function ClosesOf(s: State, event: OutboxEvent, turn: Turn): nat {
      if turn.answer.Refused? && Exhausted(cfg, event)
         && turn.fault == Fine && InProcessing(AtMark(s, turn).rows, event.id)
      then 1 else 0
    }

    /** From the publisher's answer to the mark; a context error gives the batch up instead. */
    function AnsweredRun(s: State, event: OutboxEvent, turn: Turn): seq<Action> {
      var answer := [AnswerOf(turn)];
      if turn.answer.Cancelled? then answer
      else
        var answered := After(cfg, s, answer);
        var between := Happening(cfg, answered, turn.between, me);
        answer + between + [MarkAt(AtMark(s, turn).now, event, turn)]
    }

    function TurnRun(s: State, event: OutboxEvent, turn: Turn): seq<Action> {
      var before := Happening(cfg, s, turn.before, me);
      before + AnsweredRun(Asked(s, turn), event, turn)
    }

    /** The turns of the first `k` events. */
    function BatchRun(s: State, events: seq<OutboxEvent>, turns: nat -> Turn, k: nat): seq<Action>
      requires k <= |events|
    {
      if k == 0 then []
      else
        var before := BatchRun(s, events, turns, k - 1);
        before + TurnRun(After(cfg, s, before), events[k - 1], turns(k - 1))
    }

    /** The metrics of the first `k` turns. */
    function Failures(s: State, events: seq<OutboxEvent>, turns: nat -> Turn, k: nat): nat
      requires k <= |events|
    {
      if k == 0 then 0
      else
        var start := After(cfg, s, BatchRun(s, events, turns, k - 1));
        Failures(s, events, turns, k - 1) + FailuresOf(Asked(start, turns(k - 1)), events[k - 1], turns(k - 1))
    }

    function Closes(s: State, events: seq<OutboxEvent>, turns: nat -> Turn, k: nat): nat
      requires k <= |events|
    {
      if k == 0 then 0
      else
        var start := After(cfg, s, BatchRun(s, events, turns, k - 1));
        Closes(s, events, turns, k - 1) + ClosesOf(Asked(start, turns(k - 1)), events[k - 1], turns(k - 1))
    }

    function ReclaimOf(s: State, script: Script): seq<Action> {
      if cfg.staleTimeout <= 0 || script.reclaimFault == Lost then []
      else [Reclaim(me, StaleRows(s.rows, cfg.staleTimeout, s.now, script.reclaimLocked), s.now)]
    }

    /** When only the answer to COMMIT is lost, the rows are claimed but in nobody's hands. */
    function ClaimOf(s: State, script: Script, ids: seq<Uuid>): seq<Action> {
      if !Breaks(script.claimFault, |ids|) then [Claim(me, ids, s.now)]
      else if script.claimFault != CommitFails(true) then []
      else [Claim(me, ids, s.now)] + (if ids == [] then [] else [Abandon(me)])
    }

    /** Up to the moment of the claim: reclaim, with the others acting before and after it. */
    function OpeningRun(s: State, script: Script): seq<Action> {
      var first := Happening(cfg, s, script.first, me);
      var reclaimed := first + ReclaimOf(After(cfg, s, first), script);
      reclaimed + Happening(cfg, After(cfg, s, reclaimed), script.second, me)
    }

    /** The copies that a claim of these rows hands over. */
    function Copies(s: State, ids: seq<Uuid>): seq<OutboxEvent> {
      if forall id :: id in ids ==> id in s.rows then Snapshots(s.rows, ids) else []
    }

    /** A whole tick that starts in state `s` and claims these rows. */
    function TickRun(s: State, script: Script, ids: seq<Uuid>): seq<Action> {
      var opening := OpeningRun(s, script);
      var atClaim := After(cfg, s, opening);
      var claimed := opening + ClaimOf(atClaim, script, ids);
      if Breaks(script.claimFault, |ids|) then claimed
      else
        var events := Copies(atClaim, ids);
        claimed + BatchRun(After(cfg, s, claimed), events, script.turns, Taken(script.turns, |events|))
    }

    // -------------------------------------------------------------- what becomes of the rows it claims

    /** The event got its one mark call: an acknowledged one is marked as published, a refused one closed when its copy
        is at the budget and put back otherwise; if the statement is lost, so is the mark. */
    predicate Served(fate: Fate, event: OutboxEvent, turn: Turn) {
      && fate.id == event.id && fate.mark.Some? && IsMark(fate.mark.value) && fate.mark.value.w == me
      && if turn.fault == Lost then fate.mark.value.MarkError?
         else match turn.answer
              case Ack => fate.mark.value.MarkPublished?
              case Refused(_) =>
                if event.attempts >= cfg.maxRetries then fate.mark.value.MarkClose? else fate.mark.value.MarkFailed?
              case Cancelled => false
    }

    /** Each of the first `k` events, in order, has been served. */
    predicate ServedUpTo(fates: seq<Fate>, events: seq<OutboxEvent>, turns: nat -> Turn, k: nat) {
      |fates| == k <= |events| && forall i :: 0 <= i < k ==> Served(fates[i], events[i], turns(i))
    }

    /** One fate for each event, in order: served, until a context error gives the rest up. */
    predicate AllServed(fates: seq<Fate>, events: seq<OutboxEvent>, turns: nat -> Turn) {
      var k := Answered(turns, |events|);
      |fates| >= k && ServedUpTo(fates[..k], events, turns, k) && fates[k..] == GivenUp(Left(events, k))
    }

    lemma NoneServedYet(events: seq<OutboxEvent>, turns: nat -> Turn)
      ensures ServedUpTo([], events, turns, 0)
    {
    }

    lemma OneMoreServed(fates: seq<Fate>, latest: seq<Fate>, events: seq<OutboxEvent>, turns: nat -> Turn, k: nat)
      requires ServedUpTo(fates, events, turns, k) && k < |events|
      requires |latest| == 1 && Served(latest[0], events[k], turns(k))
      ensures ServedUpTo(fates + latest, events, turns, k + 1)
    {
    }

    lemma RestGivenUp(fates: seq<Fate>, events: seq<OutboxEvent>, turns: nat -> Turn, k: nat)
      requires ServedUpTo(fates, events, turns, k) && k == Answered(turns, |events|)
      ensures AllServed(fates + GivenUp(Left(events, k)), events, turns)
      ensures k == |events| ==> AllServed(fates, events, turns)
    {
      assert (fates + GivenUp(Left(events, k)))[..k] == fates;
      assert (fates + GivenUp(Left(events, k)))[k..] == GivenUp(Left(events, k));
      assert k == |events| ==> fates + GivenUp(Left(events, k)) == fates;
    }

    /** The tick reclaims once, before it claims: exactly the rows that are in PROCESSING, not locked, and have no stamp
        or one as old as the stale timeout, at that moment. It does not reclaim when reclaiming is off or the statement
        fails. */
    ghost predicate ReclaimsFirst(s0: State, script: Script, run: seq<Action>) {
      if cfg.staleTimeout <= 0 || script.reclaimFault == Lost then forall a :: a in run ==> !Reclaims(a, me)
      else exists i :: 0 <= i < |run| && IsTheReclaim(s0, script, run, i)
    }

    ghost predicate IsTheReclaim(s0: State, script: Script, run: seq<Action>, i: nat)
      requires i < |run|
    {
      var s := After(cfg, s0, run[..i]);
      && Reclaims(run[i], me) && run[i].started == s.now
      && (forall id :: id in run[i].stale <==>
            && id in s.rows && id !in script.reclaimLocked && s.rows[id].status == Processing
            && (s.rows[id].processingAt == None || s.rows[id].processingAt.value <= s.now - cfg.staleTimeout))
      && (forall a :: a in run[..i] ==> !MovesOf(a, me))
      && (forall a :: a in run[i + 1..] ==> !Reclaims(a, me))
    }

    // -------------------------------------------------------------- the loop

    /** The others act: whatever in the list is possible and not this worker's own move happens. */
    method Yield(others: seq<Action>) returns (ghost run: seq<Action>)
      requires me < |workers|
      modifies this`now, this`workers, this`acked, this`hist, repository
      ensures run == Happening(cfg, old(View()), others, me)
      ensures RunFrom(cfg, old(View()), run) == Some(View())
      ensures Fates(cfg, old(View()), run, me) == []
      ensures |workers| == old(|workers|) && workers[me] == old(workers[me])
    {
      run := [];
      for i := 0 to |others|
        invariant me < |workers| && |workers| == old(|workers|) && workers[me] == old(workers[me])
        invariant run == Happening(cfg, old(View()), others[..i], me)
        invariant RunFrom(cfg, old(View()), run) == Some(View())
      {
        var s := View();
        var a := others[i];
        assert others[..i + 1][..i] == others[..i];
        if !MovesOf(a, me) && Enabled(cfg, s, a) {
          ExtendFrom(cfg, old(View()), run, a);
          OthersLeaveMine(cfg, s, a, me);
          var s' := Next(cfg, s, a);
          repository.table, now, workers, acked, hist := s'.rows, s'.now, s'.workers, s'.acked, s'.hist;
          run := run + [a];
        }
      }
      assert others[..|others|] == others;
      OthersHappen(cfg, old(View()), others, me);
      OthersHaveNoFates(cfg, old(View()), run, me);
    }

    /** Takes down what an action of this worker means outside the table; `s` is the state before the action. */
    method Note(s: State, a: Action)
      requires Enabled(cfg, s, a)
      requires View() == s.(rows := Next(cfg, s, a).rows)
      modifies this`now, this`workers, this`acked, this`hist
      ensures View() == Next(cfg, s, a)
    {
      var s' := Next(cfg, s, a);
      now, workers, acked, hist := s'.now, s'.workers, s'.acked, s'.hist;
    }

    /** Off for a non-positive timeout; a failure leaves the rows where they are. */
    method ReclaimStale(script: Script) returns (ghost run: seq<Action>)
      requires me < |workers| && workers[me].batch == []
      modifies this`now, this`workers, this`acked, this`hist, repository
      ensures run == ReclaimOf(old(View()), script)
      ensures repository.table.Keys == old(repository.table).Keys
      ensures forall id :: id in old(repository.table) ==>
        var row := old(repository.table)[id];
        var due := old(now) - cfg.staleTimeout;
        repository.table[id] == if cfg.staleTimeout > 0 && script.reclaimFault != Lost
                                   && id !in script.reclaimLocked && row.status == Processing
                                   && (row.processingAt == None || row.processingAt.value <= due)
                                then row.(status := Pending, availableAt := old(now), processingAt := None) else row
      ensures RunFrom(cfg, old(View()), run) == Some(View())
      ensures Fates(cfg, old(View()), run, me) == []
      ensures workers == old(workers)
    {
      run := [];
      if cfg.staleTimeout <= 0 {
        return;
      }
      var s := View();
      var reclaimed := repository.ReclaimStale(cfg.staleTimeout, now, script.reclaimLocked, script.reclaimFault);
      if script.reclaimFault != Lost {
        var a := Reclaim(me, StaleRows(s.rows, cfg.staleTimeout, s.now, script.reclaimLocked), s.now);
        Note(s, a);
        Single(cfg, s, a, me);
        run := [a];
      }
    }

    /** Claims a batch. */
    method ClaimPending(script: Script)
        returns (result: Result<seq<OutboxEvent>>, ghost ids: seq<Uuid>, ghost run: seq<Action>)
      requires me < |workers| && workers[me].batch == []
      modifies this`now, this`workers, this`acked, this`hist, repository
      ensures Chosen(old(repository.table), old(now), script.claimLocked, cfg.batchSize, script.claimFault, ids)
      ensures run == ClaimOf(old(View()), script, ids)
      ensures RunFrom(cfg, old(View()), run) == Some(View())
      ensures Fates(cfg, old(View()), run, me)
           == if script.claimFault == CommitFails(true) then GivenUp(Copies(old(View()), ids)) else []
      ensures |workers| == old(|workers|)
      ensures result.Err? <==> Breaks(script.claimFault, |ids|)
      ensures Ids(Copies(old(View()), ids)) == ids
      ensures result.Ok? ==>
        result.value == workers[me].batch == Copies(old(View()), ids) && workers[me].phase == Publishing
      ensures result.Err? ==> workers[me].batch == []
    {
      run := [];
      var s := View();
      var claimed;
      result, claimed := repository.ClaimPending(now, script.claimLocked, cfg.batchSize, script.claimFault);
      ids := claimed;
      if result.Ok? || script.claimFault == CommitFails(true) {
        var a := Claim(me, claimed, s.now);
        Note(s, a);
        Single(cfg, s, a, me);
        run := [a];
        if result.Err? && claimed != [] {
          var s1 := View();
          Note(s1, Abandon(me));
          Single(cfg, s1, Abandon(me), me);
          Compose(cfg, s, run, s1, [Abandon(me)], View(), me);
          run := run + [Abandon(me)];
        }
      }
    }

    /** The publisher's answer, or giving the batch up at a context error. */
    method TakeAnswer(turn: Turn) returns (ghost run: seq<Action>)
      requires Busy(View(), me) && workers[me].phase == Publishing
      modifies this`now, this`workers, this`acked, this`hist
      ensures run == [AnswerOf(turn)]
      ensures RunFrom(cfg, old(View()), run) == Some(View())
      ensures Fates(cfg, old(View()), run, me)
           == if turn.answer.Cancelled? then GivenUp(old(workers[me].batch)) else []
      ensures |workers| == old(|workers|)
      ensures workers[me].batch == if turn.answer.Cancelled? then [] else old(workers[me].batch)
      ensures workers[me].phase == match turn.answer
                                   case Ack => Acked
                                   case Refused(error) => Failing(error)
                                   case Cancelled => Publishing
    {
      var s := View();
      var a := AnswerOf(turn);
      Note(s, a);
      Single(cfg, s, a, me);
      run := [a];
    }

    /** The acknowledged event is marked; the answer is final only once the table says so. */
    method MarkAcked(event: OutboxEvent, turn: Turn) returns (ghost run: seq<Action>)
      requires Consistent(cfg, View()) && Busy(View(), me) && Head(View(), me) == event && workers[me].phase == Acked
      requires turn.answer.Ack?
      modifies this`now, this`workers, this`acked, this`hist, this`published, repository
      ensures run == [MarkAt(old(now), event, turn)]
      ensures RunFrom(cfg, old(View()), run) == Some(View())
      ensures Fates(cfg, old(View()), run, me) == [Fate(event.id, Some(MarkAt(old(now), event, turn)))]
      ensures |workers| == old(|workers|)
      ensures workers[me].batch == old(workers[me].batch)[1..] && workers[me].phase == Publishing
      ensures published == old(published) + (if turn.fault == Fine then 1 else 0)
      ensures turn.fault != Lost ==>
        && event.id in old(repository.table)
        && repository.table == old(repository.table)[event.id :=
             old(repository.table)[event.id].(status := Published, publishedAt := Some(old(now)))]
      ensures turn.fault == Lost ==> repository.table == old(repository.table)
    {
      var s := View();
      assert WorkerOk(s, s.workers[me]) && Agrees(s, s.workers[me].batch[0]);
      var error := repository.MarkPublished(event.id, now, turn.fault);
      if error == None {
        published := published + 1;
      }
      var mark := MarkAt(s.now, event, turn);
      Note(s, mark);
      Single(cfg, s, mark, me);
      run := [mark];
    }

    /** The budget is used up: the row is closed, unless it has left PROCESSING meanwhile. */
    method CloseRefused(event: OutboxEvent, turn: Turn) returns (ghost run: seq<Action>)
      requires Busy(View(), me) && Head(View(), me) == event && workers[me].phase.Failing?
      requires Exhausted(cfg, event) && turn.answer.Refused?
      modifies this`now, this`workers, this`acked, this`hist, this`closed, repository
      ensures run == [MarkAt(old(now), event, turn)]
      ensures RunFrom(cfg, old(View()), run) == Some(View())
      ensures Fates(cfg, old(View()), run, me) == [Fate(event.id, Some(MarkAt(old(now), event, turn)))]
      ensures |workers| == old(|workers|)
      ensures workers[me].batch == old(workers[me].batch)[1..] && workers[me].phase == Publishing
      ensures closed == old(closed)
                        + (if turn.fault == Fine && InProcessing(old(repository.table), event.id) then 1 else 0)
      ensures repository.table
           == if turn.fault == Lost || !InProcessing(old(repository.table), event.id) then old(repository.table)
              else old(repository.table)[event.id := old(repository.table)[event.id].(
                     status := Close, lastError := Some(old(workers[me].phase).error))]
    {
      var s := View();
      var closeError := repository.MarkClose(event.id, workers[me].phase.error, turn.fault);
      if closeError == None {
        closed := closed + 1;
      }
      var mark := MarkAt(s.now, event, turn);
      Note(s, mark);
      Single(cfg, s, mark, me);
      run := [mark];
    }

    /** The row is put back, to be available again after the backoff of its next retry; a mark that fails, or finds
        the row no longer in PROCESSING, counts a second failure. */
    method RetryRefused(event: OutboxEvent, turn: Turn) returns (ghost run: seq<Action>)
      requires Busy(View(), me) && Head(View(), me) == event && workers[me].phase.Failing?
      requires !Exhausted(cfg, event) && turn.answer.Refused?
      requires cfg.maxRetries <= 0x7FFF_FFFF_FFFF_FFFF
      modifies this`now, this`workers, this`acked, this`hist, this`failed, repository
      ensures run == [MarkAt(old(now), event, turn)]
      ensures RunFrom(cfg, old(View()), run) == Some(View())
      ensures Fates(cfg, old(View()), run, me) == [Fate(event.id, Some(MarkAt(old(now), event, turn)))]
      ensures |workers| == old(|workers|)
      ensures workers[me].batch == old(workers[me].batch)[1..] && workers[me].phase == Publishing
      ensures failed == old(failed)
                        + (if turn.fault == Fine && InProcessing(old(repository.table), event.id) then 0 else 1)
      ensures turn.fault == Lost ==> repository.table == old(repository.table)
      ensures turn.fault != Lost ==>
        && run[0].MarkFailed?
        && IsPutBack(old(repository.table), repository.table, event.id, run[0].nextAttemptAt,
                     old(workers[me].phase).error)
        && var delay, doubled, max := run[0].nextAttemptAt - old(now), retryBaseDelay as int * Pow2(event.attempts),
                                      retryMaxDelay as int;
           var d := if doubled >= max || (event.attempts > 0 && doubled == max - 1) then max else doubled;
           if retryBaseDelay <= 0 then delay == 0
           else if d >= 2 then d / 2 <= delay < 2 * (d / 2) else delay == d
    {
      var s := View();
      var retryNumber := event.attempts + 1;
      var delay, _ := RetryDelay(retryNumber as int64, retryBaseDelay, retryMaxDelay, turn.draw);
      var retryAt := now + delay as int;
      var markError := repository.MarkFailed(event.id, workers[me].phase.error, retryAt, turn.fault);
      if markError != None {
        failed := failed + 1;
      }
      var mark := MarkAt(s.now, event, turn);
      Note(s, mark);
      Single(cfg, s, mark, me);
      run := [mark];
    }

    /** The refused event is closed when its copy is at the budget, and put back with a delay otherwise. */
    method MarkRefused(event: OutboxEvent, turn: Turn) returns (ghost run: seq<Action>)
      requires Busy(View(), me) && Head(View(), me) == event && workers[me].phase.Failing?
      requires turn.answer.Refused? && cfg.maxRetries <= 0x7FFF_FFFF_FFFF_FFFF
      modifies this`now, this`workers, this`acked, this`hist, this`failed, this`closed, repository
      ensures run == [MarkAt(old(now), event, turn)]
      ensures RunFrom(cfg, old(View()), run) == Some(View())
      ensures Fates(cfg, old(View()), run, me) == [Fate(event.id, Some(MarkAt(old(now), event, turn)))]
      ensures |workers| == old(|workers|)
      ensures workers[me].batch == old(workers[me].batch)[1..] && workers[me].phase == Publishing
      ensures var done := turn.fault == Fine && InProcessing(old(repository.table), event.id);
        && failed == old(failed) + (if Exhausted(cfg, event) || done then 0 else 1)
        && closed == old(closed) + (if Exhausted(cfg, event) && done then 1 else 0)
    {
      hide Next, Enabled, RunFrom, Fates;
      if event.attempts >= cfg.maxRetries {
        run := CloseRefused(event, turn);
      } else {
        run := RetryRefused(event, turn);
      }
    }

    /** From the answer to the end of the event's turn; a context error ends the batch. */
    method Settle(event: OutboxEvent, turn: Turn) returns (ghost run: seq<Action>)
      requires Consistent(cfg, View()) && Busy(View(), me) && Head(View(), me) == event
      requires workers[me].phase == Publishing && cfg.maxRetries <= 0x7FFF_FFFF_FFFF_FFFF
      modifies this`now, this`workers, this`acked, this`hist, this`published, this`failed, this`closed, repository
      ensures run == AnsweredRun(old(View()), event, turn)
      ensures RunFrom(cfg, old(View()), run) == Some(View())
      ensures var fates := Fates(cfg, old(View()), run, me);
        if turn.answer.Cancelled? then fates == GivenUp(old(workers[me].batch))
        else |fates| == 1 && Served(fates[0], event, turn)
      ensures |workers| == old(|workers|) && workers[me].phase == Publishing
      ensures workers[me].batch == if turn.answer.Cancelled? then [] else old(workers[me].batch)[1..]
      ensures published == old(published) + (if turn.answer.Ack? && turn.fault == Fine then 1 else 0)
      ensures failed == old(failed) + FailuresOf(old(View()), event, turn)
      ensures closed == old(closed) + ClosesOf(old(View()), event, turn)
    {
      hide Next, Enabled, RunFrom, Fates;
      ghost var s0 := View();
      run := TakeAnswer(turn);
      if turn.answer.Cancelled? {
        return;
      }
      if turn.answer.Refused? {
        failed := failed + 1;
      }
      ghost var s1 := View();
      ghost var others := Yield(turn.between);
      Compose(cfg, s0, run, s1, others, View(), me);
      run := run + others;
      ConsistentFrom(cfg, s0, run);
      ghost var s2 := View();
      ghost var mark;
      if turn.answer.Ack? {
        mark := MarkAcked(event, turn);
      } else {
        mark := MarkRefused(event, turn);
      }
      Compose(cfg, s0, run, s2, mark, View(), me);
      run := run + mark;
    }

    /** The turn of one event. */
    method Deliver(event: OutboxEvent, turn: Turn) returns (ghost run: seq<Action>)
      requires Consistent(cfg, View()) && Busy(View(), me) && Head(View(), me) == event
      requires workers[me].phase == Publishing && cfg.maxRetries <= 0x7FFF_FFFF_FFFF_FFFF
      modifies this`now, this`workers, this`acked, this`hist, this`published, this`failed, this`closed, repository
      ensures run == TurnRun(old(View()), event, turn)
      ensures RunFrom(cfg, old(View()), run) == Some(View()) && Consistent(cfg, View())
      ensures var fates := Fates(cfg, old(View()), run, me);
        if turn.answer.Cancelled? then fates == GivenUp(old(workers[me].batch))
        else |fates| == 1 && Served(fates[0], event, turn)
      ensures |workers| == old(|workers|) && workers[me].phase == Publishing
      ensures workers[me].batch == if turn.answer.Cancelled? then [] else old(workers[me].batch)[1..]
      ensures published == old(published) + (if turn.answer.Ack? && turn.fault == Fine then 1 else 0)
      ensures failed == old(failed) + FailuresOf(Asked(old(View()), turn), event, turn)
      ensures closed == old(closed) + ClosesOf(Asked(old(View()), turn), event, turn)
    {
      hide Next, Enabled, RunFrom, Fates, AnsweredRun, FailuresOf, ClosesOf;
      ghost var s0 := View();
      run := Yield(turn.before);
      ConsistentFrom(cfg, s0, run);
      ghost var s1 := View();
      ghost var more := Settle(event, turn);
      Compose(cfg, s0, run, s1, more, View(), me);
      run := run + more;
      ConsistentFrom(cfg, s0, run);
    }

    /** Reclaim, with the others acting before and after it. */
    method Open(script: Script) returns (ghost run: seq<Action>)
      requires me < |workers| && workers[me].batch == []
      modifies this`now, this`workers, this`acked, this`hist, repository
      ensures run == OpeningRun(old(View()), script)
      ensures RunFrom(cfg, old(View()), run) == Some(View())
      ensures Fates(cfg, old(View()), run, me) == []
      ensures |workers| == old(|workers|) && workers[me].batch == []
    {
      hide Next, Enabled, RunFrom, Fates;
      ghost var s0 := View();
      run := Yield(script.first);
      ghost var s1 := View();
      ghost var more := ReclaimStale(script);
      Compose(cfg, s0, run, s1, more, View(), me);
      run := run + more;
      s1 := View();
      more := Yield(script.second);
      Compose(cfg, s0, run, s1, more, View(), me);
      run := run + more;
    }

    /** The batch loop: each event in its turn, until the first context error. */
    method DeliverAll(events: seq<OutboxEvent>, turns: nat -> Turn)
        returns (error: Option<ProcessError>, ghost run: seq<Action>)
      requires Consistent(cfg, View()) && me < |workers|
      requires workers[me].batch == events && workers[me].phase == Publishing
      requires cfg.maxRetries <= 0x7FFF_FFFF_FFFF_FFFF
      modifies this`now, this`workers, this`acked, this`hist, this`published, this`failed, this`closed, repository
      ensures run == BatchRun(old(View()), events, turns, Taken(turns, |events|))
      ensures RunFrom(cfg, old(View()), run) == Some(View())
      ensures AllServed(Fates(cfg, old(View()), run, me), events, turns)
      ensures me < |workers| && workers[me].batch == []
      ensures error == if Answered(turns, |events|) < |events| then Some(ContextError) else None
      ensures var k := Taken(turns, |events|);
        && published == old(published) + Acks(turns, k)
        && failed == old(failed) + Failures(old(View()), events, turns, k)
        && closed == old(closed) + Closes(old(View()), events, turns, k)
    {
      hide Next, Enabled, RunFrom, Fates, TurnRun, Consistent, Served, ServedUpTo, AllServed, GivenUp, Left, FailuresOf,
           ClosesOf;
      ghost var s0 := View();
      run := [];
      ghost var fates := [];
      Nothing(cfg, s0, me);
      LeftEnds(events);
      NoneServedYet(events, turns);
      for i := 0 to |events|
        invariant run == BatchRun(s0, events, turns, i)
        invariant RunFrom(cfg, s0, run) == Some(View()) && Consistent(cfg, View())
        invariant fates == Fates(cfg, s0, run, me) && ServedUpTo(fates, events, turns, i)
        invariant me < |workers| && workers[me].batch == Left(events, i) && workers[me].phase == Publishing
        invariant Answered(turns, i) == i
        invariant published == old(published) + Acks(turns, i)
        invariant failed == old(failed) + Failures(s0, events, turns, i)
        invariant closed == old(closed) + Closes(s0, events, turns, i)
      {
        LeftShrinks(events, i);
        var turn := turns(i);
        ghost var s1 := View();
        ghost var more := Deliver(events[i], turn);
        Compose(cfg, s0, run, s1, more, View(), me);
        run := run + more;
        if turn.answer.Cancelled? {
          AnsweredStops(turns, i, |events|);
          RestGivenUp(fates, events, turns, i);
          return Some(ContextError), run;
        }
        OneMoreServed(fates, Fates(cfg, s1, more, me), events, turns, i);
        fates := fates + Fates(cfg, s1, more, me);
      }
      RestGivenUp(fates, events, turns, |events|);
      return None, run;
    }

    /** One tick of the worker, whatever the others do in between: from any consistent database it is the schedule
        TickRun of the protocol, on rows that the claim's query may have selected. Every claimed row, in order, gets
        exactly one mark call, the one that the publisher's answer and the copy's attempts call for; from the first
        context error on the rows are given up without any. Of a claim that failed there is nothing to mark, and its
        rows are touched at all only when the answer to COMMIT was lost. */
    method Process(script: Script) returns (error: Option<ProcessError>, ghost ids: seq<Uuid>, ghost run: seq<Action>)
      requires Consistent(cfg, View()) && me < |workers| && workers[me].batch == []
      requires cfg.maxRetries <= 0x7FFF_FFFF_FFFF_FFFF
      modifies this`now, this`workers, this`acked, this`hist, this`published, this`failed, this`closed, repository
      ensures run == TickRun(old(View()), script, ids)
      ensures RunFrom(cfg, old(View()), run) == Some(View())
      ensures ReclaimsFirst(old(View()), script, run)
      ensures me < |workers| && workers[me].batch == []
      ensures var s := After(cfg, old(View()), OpeningRun(old(View()), script));
        var fates := Fates(cfg, old(View()), run, me);
        && Chosen(s.rows, s.now, script.claimLocked, cfg.batchSize, script.claimFault, ids)
        && Ids(Copies(s, ids)) == ids
        && (if error != Some(ClaimFailed) then AllServed(fates, Copies(s, ids), script.turns)
            else fates == if script.claimFault == CommitFails(true) then GivenUp(Copies(s, ids)) else [])
      ensures error == if Breaks(script.claimFault, |ids|) then Some(ClaimFailed)
                       else if Answered(script.turns, |ids|) < |ids| then Some(ContextError) else None
      ensures error == Some(ClaimFailed) ==>
        published == old(published) && failed == old(failed) && closed == old(closed)
      ensures error != Some(ClaimFailed) ==>
        var opening := OpeningRun(old(View()), script);
        var atClaim := After(cfg, old(View()), opening);
        var claimed := After(cfg, old(View()), opening + ClaimOf(atClaim, script, ids));
        var k := Taken(script.turns, |Copies(atClaim, ids)|);
        && published == old(published) + Acks(script.turns, k)
        && failed == old(failed) + Failures(claimed, Copies(atClaim, ids), script.turns, k)
        && closed == old(closed) + Closes(claimed, Copies(atClaim, ids), script.turns, k)
    {
      hide Next, Enabled, RunFrom, Fates, OpeningRun, BatchRun, Consistent, AllServed, OldestFirst, Copies, Failures,
           Closes, ReclaimsFirst;
      ghost var s0 := View();
      run := Open(script);
      ghost var s1 := View();
      var result;
      ghost var more;
      result, ids, more := ClaimPending(script);
      Compose(cfg, s0, run, s1, more, View(), me);
      run := run + more;
      if result.Err? {
        TickReclaims(this, s0, script, ids);
        return Some(ClaimFailed), ids, run;
      }
      ConsistentFrom(cfg, s0, run);
      ghost var s2 := View();
      error, more := DeliverAll(result.value, script.turns);
      Compose(cfg, s0, run, s2, more, View(), me);
      run := run + more;
      assert Fates(cfg, s0, run, me) == Fates(cfg, s2, more, me);
      TickReclaims(this, s0, script, ids);
    }
  }

  // ---------------------------------------------------------------- the order of a tick

  lemma NoMoveWalks(stage: Stage, me: nat)
    ensures Walk(stage, [], me) == Some(stage)
  {
  }

  lemma OneMoveWalks(stage: Stage, a: Action, me: nat)
    requires MovesOf(a, me)
    ensures Walk(stage, [a], me) == StageAfter(stage, a)
  {
    WalkExtend(stage, [], a, me);
    assert [] + [a] == [a];
  }

  lemma AnsweredWalks(w: OutboxWorker, s: State, event: OutboxEvent, turn: Turn)
    ensures Walk(Delivering, w.AnsweredRun(s, event, turn), w.me)
         == Some(if turn.answer.Cancelled? then Over else Delivering)
  {
    var answer := w.AnswerOf(turn);
    OneMoveWalks(Delivering, answer, w.me);
    if !turn.answer.Cancelled? {
      var answered := After(w.cfg, s, [answer]);
      var between := Happening(w.cfg, answered, turn.between, w.me);
      OthersHappen(w.cfg, answered, turn.between, w.me);
      OthersDoNotWalk(Marking, between, w.me);
      WalkJoin(Delivering, [answer], between, w.me);
      WalkExtend(Delivering, [answer] + between, w.MarkAt(w.AtMark(s, turn).now, event, turn), w.me);
    }
  }

  lemma TurnWalks(w: OutboxWorker, s: State, event: OutboxEvent, turn: Turn)
    ensures Walk(Delivering, w.TurnRun(s, event, turn), w.me)
         == Some(if turn.answer.Cancelled? then Over else Delivering)
  {
    hide Next, Enabled, RunFrom;
    var before := Happening(w.cfg, s, turn.before, w.me);
    OthersHappen(w.cfg, s, turn.before, w.me);
    OthersDoNotWalk(Delivering, before, w.me);
    AnsweredWalks(w, After(w.cfg, s, before), event, turn);
    WalkJoin(Delivering, before, w.AnsweredRun(After(w.cfg, s, before), event, turn), w.me);
  }

  lemma OneMoreWalks(w: OutboxWorker, s: State, events: seq<OutboxEvent>, turns: nat -> Turn, k: nat)
    requires 0 < k <= |events| && Walk(Delivering, w.BatchRun(s, events, turns, k - 1), w.me) == Some(Delivering)
    ensures Walk(Delivering, w.BatchRun(s, events, turns, k), w.me)
         == Some(if turns(k - 1).answer.Cancelled? then Over else Delivering)
  {
    hide Next, Enabled, RunFrom, After, StageAfter;
    var before := w.BatchRun(s, events, turns, k - 1);
    TurnWalks(w, After(w.cfg, s, before), events[k - 1], turns(k - 1));
    WalkJoin(Delivering, before, w.TurnRun(After(w.cfg, s, before), events[k - 1], turns(k - 1)), w.me);
  }

  lemma NoTurnsWalk(w: OutboxWorker, s: State, events: seq<OutboxEvent>, turns: nat -> Turn)
    ensures Walk(Delivering, w.BatchRun(s, events, turns, 0), w.me) == Some(Delivering)
  {
  }

  lemma {:induction false} BatchWalks(w: OutboxWorker, s: State, events: seq<OutboxEvent>, turns: nat -> Turn, k: nat)
    requires k <= Taken(turns, |events|)
    ensures Walk(Delivering, w.BatchRun(s, events, turns, k), w.me)
         == Some(if k <= Answered(turns, |events|) then Delivering else Over)
    decreases k
  {
    hide Next, Enabled, RunFrom, After, StageAfter, Walk;
    if k == 0 {
      NoTurnsWalk(w, s, events, turns);
    } else {
      BatchWalks(w, s, events, turns, k - 1);
      AnsweredMeans(turns, |events|, k - 1);
      OneMoreWalks(w, s, events, turns, k);
    }
  }

  lemma OpeningWalks(w: OutboxWorker, s: State, script: Script)
    ensures var stage := Walk(Opened, w.OpeningRun(s, script), w.me); stage == Some(Opened) || stage == Some(Reclaimed)
  {
    hide Next, Enabled, RunFrom;
    var first := Happening(w.cfg, s, script.first, w.me);
    OthersHappen(w.cfg, s, script.first, w.me);
    OthersDoNotWalk(Opened, first, w.me);
    var reclaim := w.ReclaimOf(After(w.cfg, s, first), script);
    if reclaim == [] {
      assert first + reclaim == first;
    } else {
      WalkExtend(Opened, first, reclaim[0], w.me);
    }
    var mid := After(w.cfg, s, first + reclaim);
    OthersHappen(w.cfg, mid, script.second, w.me);
    var second := Happening(w.cfg, mid, script.second, w.me);
    OthersDoNotWalk(Walk(Opened, first + reclaim, w.me).value, second, w.me);
    WalkJoin(Opened, first + reclaim, second, w.me);
  }

  lemma ClaimWalks(w: OutboxWorker, s: State, script: Script, ids: seq<Uuid>, stage: Stage)
    requires stage == Opened || stage == Reclaimed
    ensures Walk(stage, w.ClaimOf(s, script, ids), w.me).Some?
    ensures !Breaks(script.claimFault, |ids|) ==> Walk(stage, w.ClaimOf(s, script, ids), w.me) == Some(Delivering)
  {
    hide Walk, Breaks;
    NoMoveWalks(stage, w.me);
    OneMoveWalks(stage, Claim(w.me, ids, s.now), w.me);
    assert [Claim(w.me, ids, s.now)] + [] == [Claim(w.me, ids, s.now)];
    WalkExtend(stage, [Claim(w.me, ids, s.now)], Abandon(w.me), w.me);
  }

  /** A tick reclaims at most once, then claims at most once, then delivers, and does nothing after giving up. */
  lemma TickWalks(w: OutboxWorker, s: State, script: Script, ids: seq<Uuid>)
    ensures Walk(Opened, w.TickRun(s, script, ids), w.me).Some?
  {
    hide Next, Enabled, RunFrom;
    var opening := w.OpeningRun(s, script);
    var atClaim := After(w.cfg, s, opening);
    var claim := w.ClaimOf(atClaim, script, ids);
    OpeningWalks(w, s, script);
    ClaimWalks(w, atClaim, script, ids, Walk(Opened, opening, w.me).value);
    WalkJoin(Opened, opening, claim, w.me);
    if !Breaks(script.claimFault, |ids|) {
      var events, claimed := w.Copies(atClaim, ids), After(w.cfg, s, opening + claim);
      var k := Taken(script.turns, |events|);
      BatchWalks(w, claimed, events, script.turns, k);
      WalkJoin(Opened, opening + claim, w.BatchRun(claimed, events, script.turns, k), w.me);
    }
  }

  /** The beginning of a tick: what the others do first, then the reclaim, then what they do before the claim. */
  lemma OpeningReclaims(w: OutboxWorker, s0: State, script: Script)
    ensures var first := Happening(w.cfg, s0, script.first, w.me);
      var reclaim := w.ReclaimOf(After(w.cfg, s0, first), script);
      && first + reclaim <= w.OpeningRun(s0, script)
      && (forall a :: a in w.OpeningRun(s0, script)[|first| + |reclaim|..] ==> !MovesOf(a, w.me))
      && (forall a :: a in first ==> !MovesOf(a, w.me))
      && RunFrom(w.cfg, s0, first).Some?
  {
    hide Next, Enabled, RunFrom;
    var first := Happening(w.cfg, s0, script.first, w.me);
    var reclaimed := first + w.ReclaimOf(After(w.cfg, s0, first), script);
    var mid := After(w.cfg, s0, reclaimed);
    OthersHappen(w.cfg, s0, script.first, w.me);
    OthersHappen(w.cfg, mid, script.second, w.me);
    assert w.OpeningRun(s0, script)[|reclaimed|..] == Happening(w.cfg, mid, script.second, w.me);
  }

  lemma BatchDoesNotReclaim(w: OutboxWorker, s: State, events: seq<OutboxEvent>, turns: nat -> Turn, k: nat)
    requires k <= Taken(turns, |events|)
    ensures forall a :: a in w.BatchRun(s, events, turns, k) ==> !Reclaims(a, w.me)
  {
    hide OutboxWorker.BatchRun, Walk;
    BatchWalks(w, s, events, turns, k);
    NoWayBack(Delivering, w.BatchRun(s, events, turns, k), w.me);
  }

  lemma TickAfterOpening(w: OutboxWorker, s0: State, script: Script, ids: seq<Uuid>)
    ensures var opening := w.OpeningRun(s0, script);
      var atClaim := After(w.cfg, s0, opening);
      var claim := w.ClaimOf(atClaim, script, ids);
      var events, claimed := w.Copies(atClaim, ids), After(w.cfg, s0, opening + claim);
      w.TickRun(s0, script, ids)
        == opening + (claim + if Breaks(script.claimFault, |ids|) then []
                              else w.BatchRun(claimed, events, script.turns, Taken(script.turns, |events|)))
  {
    hide Next, Enabled, RunFrom, After, OutboxWorker.OpeningRun, OutboxWorker.ClaimOf, OutboxWorker.BatchRun;
  }

  lemma ClaimAndBatchDoNotReclaim(w: OutboxWorker, s0: State, script: Script, ids: seq<Uuid>)
    ensures w.OpeningRun(s0, script) <= w.TickRun(s0, script, ids)
    ensures forall a :: a in w.TickRun(s0, script, ids)[|w.OpeningRun(s0, script)|..] ==> !Reclaims(a, w.me)
  {
    hide Next, Enabled, RunFrom, After, OutboxWorker.TickRun, OutboxWorker.OpeningRun, OutboxWorker.BatchRun;
    var opening := w.OpeningRun(s0, script);
    var atClaim := After(w.cfg, s0, opening);
    var claim := w.ClaimOf(atClaim, script, ids);
    var events, claimed := w.Copies(atClaim, ids), After(w.cfg, s0, opening + claim);
    var batch := w.BatchRun(claimed, events, script.turns, Taken(script.turns, |events|));
    TickAfterOpening(w, s0, script, ids);
    BatchDoesNotReclaim(w, claimed, events, script.turns, Taken(script.turns, |events|));
    var rest := claim + if Breaks(script.claimFault, |ids|) then [] else batch;
    assert w.TickRun(s0, script, ids)[|opening|..] == rest;
    forall a | a in rest ensures !Reclaims(a, w.me) {
      assert a in claim || a in batch;
    }
  }

  lemma ReclaimInPlace(w: OutboxWorker, s0: State, script: Script, first: seq<Action>, tail: seq<Action>)
    requires var s := After(w.cfg, s0, first); w.ReclaimOf(s, script) != []
    requires forall a :: a in first ==> !MovesOf(a, w.me)
    requires forall a :: a in tail ==> !Reclaims(a, w.me)
    ensures w.IsTheReclaim(s0, script, first + w.ReclaimOf(After(w.cfg, s0, first), script) + tail, |first|)
  {
    hide Next, Enabled, RunFrom, After;
    var run := first + w.ReclaimOf(After(w.cfg, s0, first), script) + tail;
    assert run[..|first|] == first && run[|first| + 1..] == tail;
  }

  lemma TickReclaims(w: OutboxWorker, s0: State, script: Script, ids: seq<Uuid>)
    ensures w.ReclaimsFirst(s0, script, w.TickRun(s0, script, ids))
  {
    hide Next, Enabled, RunFrom, After, Happening, OutboxWorker.TickRun, OutboxWorker.OpeningRun,
         OutboxWorker.IsTheReclaim;
    var run, opening := w.TickRun(s0, script, ids), w.OpeningRun(s0, script);
    var first := Happening(w.cfg, s0, script.first, w.me);
    var reclaim := w.ReclaimOf(After(w.cfg, s0, first), script);
    OpeningReclaims(w, s0, script);
    ClaimAndBatchDoNotReclaim(w, s0, script, ids);
    var second, rest := opening[|first| + |reclaim|..], run[|opening|..];
    TickSplits(first, reclaim, opening, run);
    forall a | a in second + rest ensures !Reclaims(a, w.me) {
      assert a in second ==> !MovesOf(a, w.me);
      assert a in rest ==> !Reclaims(a, w.me);
    }
    if reclaim != [] {
      ReclaimInPlace(w, s0, script, first, second + rest);
    } else {
      forall a | a in run ensures !Reclaims(a, w.me) {
        assert a in first ==> !MovesOf(a, w.me);
      }
    }
  }

  lemma TickSplits(first: seq<Action>, reclaim: seq<Action>, opening: seq<Action>, run: seq<Action>)
    requires first + reclaim <= opening <= run
    ensures run == first + reclaim + (opening[|first| + |reclaim|..] + run[|opening|..])
  {
  }

  // ---------------------------------------------------------------- metrics and interference

  /** Of the first `k` events, those refused, and those refused with a copy at the budget. */
  function Refusals(turns: nat -> Turn, k: nat): nat {
    if k == 0 then 0 else Refusals(turns, k - 1) + (if turns(k - 1).answer.Refused? then 1 else 0)
  }

  function FinalRefusals(cfg: Config, events: seq<OutboxEvent>, turns: nat -> Turn, k: nat): nat
    requires k <= |events|
  {
    if k == 0 then 0
    else
      FinalRefusals(cfg, events, turns, k - 1)
        + (if turns(k - 1).answer.Refused? && events[k - 1].attempts >= cfg.maxRetries then 1 else 0)
  }

  /** Published counts the acknowledged events whose mark went through. */
  lemma {:induction false} AcksAreCounted(turns: nat -> Turn, k: nat)
    ensures Acks(turns, k) == |set i: nat | i < k && turns(i).answer.Ack? && turns(i).fault == Fine|
  {
    var counted := set i: nat | i < k && turns(i).answer.Ack? && turns(i).fault == Fine;
    if k > 0 {
      AcksAreCounted(turns, k - 1);
      var before := set i: nat | i < k - 1 && turns(i).answer.Ack? && turns(i).fault == Fine;
      var marked := turns(k - 1).answer.Ack? && turns(k - 1).fault == Fine;
      assert counted == before + (if marked then {k - 1} else {});
    }
  }

  lemma OneTurnCounted(w: OutboxWorker, s: State, event: OutboxEvent, turn: Turn)
    ensures var failures, closes := w.FailuresOf(s, event, turn), w.ClosesOf(s, event, turn);
      && (!turn.answer.Refused? ==> failures == closes == 0)
      && (turn.answer.Refused? && event.attempts >= w.cfg.maxRetries ==> failures == 1 && closes <= 1)
      && (turn.answer.Refused? && event.attempts < w.cfg.maxRetries ==> 1 <= failures <= 2 && closes == 0)
      && (turn.answer.Refused? && turn.fault != Fine ==>
            closes == 0 && (event.attempts < w.cfg.maxRetries ==> failures == 2))
  {
  }

  /** Every refusal counts as a failure, and at most once more; a close is counted only for a refusal at the budget. */
  lemma {:induction false} RefusalsAreCounted(w: OutboxWorker, s: State, events: seq<OutboxEvent>,
                                              turns: nat -> Turn, k: nat)
    requires k <= |events|
    ensures var refused, final := Refusals(turns, k), FinalRefusals(w.cfg, events, turns, k);
      && refused <= w.Failures(s, events, turns, k) <= 2 * refused - final
      && w.Closes(s, events, turns, k) <= final
    decreases k
  {
    hide After, OutboxWorker.BatchRun, OutboxWorker.FailuresOf, OutboxWorker.ClosesOf;
    if k > 0 {
      RefusalsAreCounted(w, s, events, turns, k - 1);
      var start := After(w.cfg, s, w.BatchRun(s, events, turns, k - 1));
      OneTurnCounted(w, w.Asked(start, turns(k - 1)), events[k - 1], turns(k - 1));
    }
  }

  /** The others may do anything in between: for any two schedules of theirs that are possible at these points, there is
      the turn in which they happen before the answer and before the mark. */
  lemma AnythingInBetween(w: OutboxWorker, s: State, event: OutboxEvent, turn: Turn)
    requires !turn.answer.Cancelled?
    requires forall a :: a in turn.before + turn.between ==> !MovesOf(a, w.me)
    requires RunFrom(w.cfg, s, turn.before).Some?
    requires RunFrom(w.cfg, After(w.cfg, After(w.cfg, s, turn.before), [w.AnswerOf(turn)]), turn.between).Some?
    ensures exists mark ::
      && IsMark(mark) && MovesOf(mark, w.me)
      && w.TurnRun(s, event, turn) == turn.before + [w.AnswerOf(turn)] + turn.between + [mark]
  {
    hide Next, Enabled, RunFrom, After;
    assert forall a :: a in turn.before ==> a in turn.before + turn.between;
    assert forall a :: a in turn.between ==> a in turn.before + turn.between;
    OthersMayDoAnything(w.cfg, s, turn.before, w.me);
    var asked := After(w.cfg, s, turn.before);
    var answered := After(w.cfg, asked, [w.AnswerOf(turn)]);
    OthersMayDoAnything(w.cfg, answered, turn.between, w.me);
    var mark := w.MarkAt(After(w.cfg, answered, turn.between).now, event, turn);
    assert w.TurnRun(s, event, turn) == turn.before + [w.AnswerOf(turn)] + turn.between + [mark];
  }

  /** The same around the reclaim. */
  lemma AnythingAroundReclaim(w: OutboxWorker, s: State, script: Script, reclaim: seq<Action>)
    requires forall a :: a in script.first + script.second ==> !MovesOf(a, w.me)
    requires RunFrom(w.cfg, s, script.first).Some?
    requires reclaim == w.ReclaimOf(After(w.cfg, s, script.first), script)
    requires RunFrom(w.cfg, After(w.cfg, s, script.first + reclaim), script.second).Some?
    ensures w.OpeningRun(s, script) == script.first + reclaim + script.second
  {
    hide Next, Enabled, RunFrom, After;
    assert forall a :: a in script.first ==> a in script.first + script.second;
    assert forall a :: a in script.second ==> a in script.first + script.second;
    OthersMayDoAnything(w.cfg, s, script.first, w.me);
    OthersMayDoAnything(w.cfg, After(w.cfg, s, script.first + reclaim), script.second, w.me);
  }
}
