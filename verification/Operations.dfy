/**
 One asynchronous operation: its row in the database, the worker endpoints that move its status, and
 every message about it that is queued, handled, retried or dropped into the poison queue.
 The start request reads the row and writes it in two steps, because nothing locks the row in between.
 */
module Operations {
  import opened Options

  datatype Status = StatusQueued | StatusPending | Running | Succeeded | Failed | TimedOut | EnqueueFailed

  predicate Startable(s: Status) {
    s == StatusQueued || s == StatusPending
  }

  predicate Terminal(s: Status) {
    s == Succeeded || s == Failed || s == TimedOut || s == EnqueueFailed
  }

  const MAX_ATTEMPTS := 3

  /** Where one handling of a message stands. */
  datatype Phase =
    | Received
    | StartRead(seen: Status)
    | InBody
    | Succeeding
    | Failing
    | Raised
    | Returned

  datatype Place = Waiting(retries: nat) | Handling(retries: nat, phase: Phase) | Acked | Poisoned(retries: nat)

  /** A published message and what its retries became; how often it was handled and put back by a crash. */
  datatype Chain = Chain(place: Place, handled: nat, redelivered: nat)

  type ChainId = nat

  /**
   The row's status, how many start requests went through and how often the handler body was entered,
   how many worker requests ended the operation, and the message chains.
   */
  datatype State = State(
    status: Status,
    starts: nat,
    entered: nat,
    ended: nat,
    chains: map<ChainId, Chain>)

  datatype Event =
    | Publish(c: ChainId)
    | Receive(c: ChainId)
    | ReadStart(c: ChainId)
    | CommitStart(c: ChainId, answered: bool)
    | StartErrors(c: ChainId)
    | BodyReturns(c: ChainId)
    | BodyRaises(c: ChainId)
    | Succeed(c: ChainId, answered: bool)
    | Fail(c: ChainId, answered: bool)
    | RequestErrors(c: ChainId)
    | RetryOrDeadLetter(c: ChainId)
    | Ack(c: ChainId)
    | Crash
    | TimeoutOperation
    | MarkEnqueueFailed

  function PhaseOf(s: State, c: ChainId): Option<Phase> {
    if c in s.chains && s.chains[c].place.Handling? then Some(s.chains[c].place.phase) else None
  }

  /** The chain's start request has read a row it may start. */
  predicate MayStart(s: State, c: ChainId) {
    PhaseOf(s, c).Some? && PhaseOf(s, c).value.StartRead? && Startable(PhaseOf(s, c).value.seen)
  }

  predicate CanHappen(s: State, e: Event) {
    match e
    case Publish(c) => c !in s.chains
    case Receive(c) => c in s.chains && s.chains[c].place.Waiting?
    case ReadStart(c) => PhaseOf(s, c) == Some(Received)
    case CommitStart(c, _) => PhaseOf(s, c).Some? && PhaseOf(s, c).value.StartRead?
    case StartErrors(c) => PhaseOf(s, c).Some? && (PhaseOf(s, c).value.Received? || PhaseOf(s, c).value.StartRead?)
    case BodyReturns(c) => PhaseOf(s, c) == Some(InBody)
    case BodyRaises(c) => PhaseOf(s, c) == Some(InBody)
    case Succeed(c, _) => PhaseOf(s, c) == Some(Succeeding)
    case Fail(c, _) => PhaseOf(s, c) == Some(Failing)
    case RequestErrors(c) => PhaseOf(s, c) == Some(Succeeding) || PhaseOf(s, c) == Some(Failing)
    case RetryOrDeadLetter(c) => PhaseOf(s, c) == Some(Raised)
    case Ack(c) => PhaseOf(s, c) == Some(Returned)
    case _ => true
  }

  function InPhase(s: State, c: ChainId, phase: Phase): State
    requires c in s.chains && s.chains[c].place.Handling?
  {
    s.(chains := s.chains[c := s.chains[c].(place := s.chains[c].place.(phase := phase))])
  }

  function InPlace(s: State, c: ChainId, place: Place): State
    requires c in s.chains
  {
    s.(chains := s.chains[c := s.chains[c].(place := place)])
  }

  /** A message that failed: back to a retry queue with its count raised, or to the poison queue. */
  function Retried(place: Place): Place
    requires place.Handling?
  {
    if place.retries + 1 >= MAX_ATTEMPTS then Poisoned(place.retries + 1) else Waiting(place.retries + 1)
  }

  function After(s: State, e: Event): State
    requires CanHappen(s, e)
  {
    match e
    case Publish(c) => s.(chains := s.chains[c := Chain(Waiting(0), 0, 0)])
    case Receive(c) =>
      var chain := s.chains[c];
      s.(chains := s.chains[c := chain.(place := Handling(chain.place.retries, Received), handled := chain.handled
          + 1)])
    case ReadStart(c) => InPhase(s, c, StartRead(s.status))
    case CommitStart(c, answered) =>
      if !Startable(s.chains[c].place.phase.seen) then InPhase(s, c, Returned)
      else
        var t := s.(status := Running, starts := s.starts + 1);
        if answered then InPhase(t.(entered := s.entered + 1), c, InBody) else InPhase(t, c, Failing)
    case StartErrors(c) => InPhase(s, c, Failing)
    case BodyReturns(c) => InPhase(s, c, Succeeding)
    case BodyRaises(c) => InPhase(s, c, Failing)
    case Succeed(c, answered) =>
      if s.status != Running then InPhase(s, c, Failing)
      else InPhase(s.(status := Succeeded, ended := s.ended + 1), c, if answered then Returned else Failing)
    case Fail(c, answered) =>
      if s.status != Running then InPhase(s, c, Raised)
      else InPhase(s.(status := Failed, ended := s.ended + 1), c, if answered then Returned else Raised)
    case RequestErrors(c) => InPhase(s, c, if s.chains[c].place.phase.Succeeding? then Failing else Raised)
    case RetryOrDeadLetter(c) => InPlace(s, c, Retried(s.chains[c].place))
    case Ack(c) => InPlace(s, c, Acked)
    case Crash =>
      s.(chains := map c | c in s.chains ::
           if s.chains[c].place.Handling?
           then s.chains[c].(place := Waiting(s.chains[c].place.retries), redelivered := s.chains[c].redelivered + 1)
           else s.chains[c])
    case TimeoutOperation => if s.status == Running then s.(status := TimedOut, ended := s.ended + 1) else s
    case MarkEnqueueFailed => s.(status := EnqueueFailed)
  }

  // --- the invariant --------------------------------------------------------

  /** Once a start request went through the row never reads as startable again. */
  predicate StartsOk(s: State) {
    && s.entered <= s.starts
    && s.ended + (if s.status == Running then 1 else 0) <= s.starts
    && (if s.starts > 0 then !Startable(s.status) else Startable(s.status) || s.status == EnqueueFailed)
  }

  ghost predicate ChainsOk(s: State) {
    forall c | c in s.chains :: ChainOk(s.chains[c])
  }

  /** Retries count the handlings that failed; a chain is never handled a fourth time but for crashes. */
  predicate ChainOk(c: Chain) {
    match c.place
    case Waiting(retries) => c.handled == retries + c.redelivered && retries < MAX_ATTEMPTS
    case Handling(retries, _) => c.handled == retries + 1 + c.redelivered && retries < MAX_ATTEMPTS
    case Acked => c.handled <= MAX_ATTEMPTS + c.redelivered
    case Poisoned(retries) => c.handled == retries + c.redelivered && retries == MAX_ATTEMPTS
  }

  lemma EventKeepsChains(s: State, e: Event)
    requires CanHappen(s, e) && ChainsOk(s)
    ensures ChainsOk(After(s, e))
  {
  }

  lemma EventKeepsStarts(s: State, e: Event)
    requires CanHappen(s, e) && StartsOk(s)
    ensures StartsOk(After(s, e))
  {
  }

  // --- runs -----------------------------------------------------------------

  ghost predicate IsRun(states: seq<State>, events: seq<Event>) {
    && |states| == |events| + 1
    && forall i | 0 <= i < |events| :: CanHappen(states[i], events[i]) && states[i + 1] == After(states[i], events[i])
  }

  const NEW_OPERATION := State(StatusQueued, 0, 0, 0, map[])

  lemma {:induction false} RunKeeps(states: seq<State>, events: seq<Event>, i: nat)
    requires IsRun(states, events) && states[0] == NEW_OPERATION && i < |states|
    ensures StartsOk(states[i]) && ChainsOk(states[i])
  {
    if i > 0 {
      RunKeeps(states, events, i - 1);
      EventKeepsStarts(states[i - 1], events[i - 1]);
      EventKeepsChains(states[i - 1], events[i - 1]);
    }
  }

  // --- how often the body is entered ----------------------------------------

  /** Start requests that went through, all of them or those whose answer reached the worker. */
  function Count(s: State, answeredOnly: bool): nat {
    if answeredOnly then s.entered else s.starts
  }

  /** A start request is written, from a reading that allowed it. */
  predicate GoesThrough(states: seq<State>, events: seq<Event>, i: nat, answeredOnly: bool)
    requires |states| == |events| + 1 && i < |events|
  {
    events[i].CommitStart? && MayStart(states[i], events[i].c) && (answeredOnly ==> events[i].answered)
  }

  /** A start request reads a startable row at step r and is written at step i. */
  ghost predicate StartRequest(states: seq<State>, events: seq<Event>, r: nat, i: nat, answeredOnly: bool)
    requires |states| == |events| + 1
  {
    && r < i < |events| && GoesThrough(states, events, i, answeredOnly)
    && events[r] == ReadStart(events[i].c) && Startable(states[r].status)
    && forall k | r < k <= i :: MayStart(states[k], events[i].c)
  }

  /** The later of two start requests had read the row before the earlier one wrote it. */
  ghost predicate Overlap(states: seq<State>, events: seq<Event>, answeredOnly: bool)
    requires |states| == |events| + 1
  {
    exists r: nat, i: nat, s: nat, j: nat ::
      StartRequest(states, events, r, i, answeredOnly) && StartRequest(states, events, s, j, answeredOnly) && s < i < j
  }

  lemma {:induction false} CountsGrow(states: seq<State>, events: seq<Event>, i: nat, j: nat)
    requires IsRun(states, events) && i <= j < |states|
    ensures states[i].starts <= states[j].starts && states[i].entered <= states[j].entered
  {
    if i < j { CountsGrow(states, events, i, j - 1); }
  }

  /** The last request counted so far. */
  lemma {:induction false} LastCounted(states: seq<State>, events: seq<Event>, n: nat, answeredOnly: bool)
    returns (i: nat)
    requires IsRun(states, events) && n < |states| && Count(states[n], answeredOnly) > Count(states[0], answeredOnly)
    ensures i < n && GoesThrough(states, events, i, answeredOnly)
    ensures Count(states[i], answeredOnly) == Count(states[n], answeredOnly) - 1
  {
    if Count(states[n - 1], answeredOnly) == Count(states[n], answeredOnly) {
      i := LastCounted(states, events, n - 1, answeredOnly);
    } else {
      i := n - 1;
    }
  }

  /** Whoever may start has read a startable row, and has held on to that reading since. */
  lemma {:induction false} ReadBefore(states: seq<State>, events: seq<Event>, i: nat, c: ChainId) returns (r: nat)
    requires IsRun(states, events) && states[0] == NEW_OPERATION && i < |states| && MayStart(states[i], c)
    ensures r < i && events[r] == ReadStart(c) && Startable(states[r].status)
    ensures forall k | r < k <= i :: MayStart(states[k], c)
  {
    if MayStart(states[i - 1], c) {
      r := ReadBefore(states, events, i - 1, c);
    } else {
      r := i - 1;
    }
  }

  /** A request that went through was written from a reading older than any request that went through before. */
  lemma CountedRequest(states: seq<State>, events: seq<Event>, i: nat, answeredOnly: bool) returns (r: nat)
    requires IsRun(states, events) && states[0] == NEW_OPERATION && i < |events|
    requires GoesThrough(states, events, i, answeredOnly)
    ensures StartRequest(states, events, r, i, answeredOnly)
    ensures states[r].starts == 0
  {
    r := ReadBefore(states, events, i, events[i].c);
    RunKeeps(states, events, r);
  }

  lemma TwiceOverlaps(states: seq<State>, events: seq<Event>, answeredOnly: bool)
    requires IsRun(states, events) && states[0] == NEW_OPERATION && Count(states[|events|], answeredOnly) >= 2
    ensures Overlap(states, events, answeredOnly)
  {
    var j := LastCounted(states, events, |events|, answeredOnly);
    var i := LastCounted(states, events, j, answeredOnly);
    var r := CountedRequest(states, events, i, answeredOnly);
    var s := CountedRequest(states, events, j, answeredOnly);
    if s > i { CountsGrow(states, events, i + 1, s); }
    assert s < i < j;
  }

  lemma OverlapsTwice(states: seq<State>, events: seq<Event>, i: nat, j: nat, answeredOnly: bool)
    requires IsRun(states, events) && i < j < |events|
    requires GoesThrough(states, events, i, answeredOnly) && GoesThrough(states, events, j, answeredOnly)
    ensures Count(states[|events|], answeredOnly) >= 2
  {
    CountsGrow(states, events, i + 1, j);
    CountsGrow(states, events, j + 1, |events|);
  }

  /** Start requests go through twice exactly when two of them overlap. */
  lemma TwiceExactly(states: seq<State>, events: seq<Event>, answeredOnly: bool)
    requires IsRun(states, events) && states[0] == NEW_OPERATION
    ensures Count(states[|events|], answeredOnly) >= 2 <==> Overlap(states, events, answeredOnly)
  {
    if Count(states[|events|], answeredOnly) >= 2 { TwiceOverlaps(states, events, answeredOnly); }
    if Overlap(states, events, answeredOnly) {
      var r: nat, i: nat, s: nat, j: nat :|
        StartRequest(states, events, r, i, answeredOnly) && StartRequest(states, events, s, j, answeredOnly)
            && s < i < j;
      OverlapsTwice(states, events, i, j, answeredOnly);
    }
  }

  /**
   With any duplicates, republished messages, timeouts, failures and crashes, the handler body is
   entered at most once, unless two start requests overlap and both are answered, and then it is not;
   and the operation ends at most once unless two start requests overlap.
   */
  lemma BodyRunsAtMostOnceExactly(states: seq<State>, events: seq<Event>)
    requires IsRun(states, events) && states[0] == NEW_OPERATION
    ensures states[|events|].entered <= 1 <==> !Overlap(states, events, true)
    ensures !Overlap(states, events, false) ==> states[|events|].ended <= 1
  {
    TwiceExactly(states, events, true);
    TwiceExactly(states, events, false);
    RunKeeps(states, events, |events|);
  }

  /** From this state some run enters the body (again). */
  ghost predicate MayEnter(s: State) {
    exists states: seq<State>, events: seq<Event> ::
      IsRun(states, events) && states[0] == s && states[|events|].entered > s.entered
  }

  lemma {:induction false} NobodyStarts(states: seq<State>, events: seq<Event>, i: nat)
    requires IsRun(states, events) && i < |states| && StartsOk(states[0]) && states[0].starts > 0
    requires forall c | c in states[0].chains :: !MayStart(states[0], c)
    ensures StartsOk(states[i]) && states[i].entered == states[0].entered && states[i].starts > 0
    ensures forall c | c in states[i].chains :: !MayStart(states[i], c)
  {
    if i > 0 {
      NobodyStarts(states, events, i - 1);
      EventKeepsStarts(states[i - 1], events[i - 1]);
      forall c | c in states[i].chains ensures !MayStart(states[i], c) {
        assert c in states[i - 1].chains ==> !MayStart(states[i - 1], c);
      }
    }
  }

  /**
   After a start went through, the body can be entered again exactly when some start request still holds
   an older reading.
   */
  lemma EntersAgainExactly(states: seq<State>, events: seq<Event>, i: nat)
    requires IsRun(states, events) && states[0] == NEW_OPERATION && i < |states| && states[i].starts > 0
    ensures MayEnter(states[i]) <==> exists c | c in states[i].chains :: MayStart(states[i], c)
  {
    var s := states[i];
    RunKeeps(states, events, i);
    if c :| c in s.chains && MayStart(s, c) {
      assert IsRun([s], []);
      RunExtends([s], [], CommitStart(c, true));
    } else if MayEnter(s) {
      var later: seq<State>,
          more: seq<Event> :| IsRun(later, more) && later[0] == s && later[|more|].entered > s.entered;
      NobodyStarts(later, more, |more|);
    }
  }

  /** A message is handled at most three times, crashes aside, and the poison queue is where the third failure goes. */
  lemma HandledAtMostThreeTimes(states: seq<State>, events: seq<Event>, i: nat, c: ChainId)
    requires IsRun(states, events) && states[0] == NEW_OPERATION && i < |states| && c in states[i].chains
    ensures var chain := states[i].chains[c];
            && chain.handled <= MAX_ATTEMPTS + chain.redelivered
            && (chain.place.Poisoned? ==> chain.handled == MAX_ATTEMPTS + chain.redelivered)
  {
    RunKeeps(states, events, i);
  }

  /** Forward: from startable to running, from running to an end. */
  predicate Forward(from: Status, to: Status) {
    (Startable(from) && to == Running) || (from == Running && to in {Succeeded, Failed, TimedOut})
  }

  /** A worker's request moves the status forward or leaves it, unless a start request is written over an end. */
  lemma StatusStep(s: State, e: Event)
    requires CanHappen(s, e) && !e.MarkEnqueueFailed?
    ensures After(s, e).status == s.status || Forward(s.status, After(s, e).status)
            <==> !(e.CommitStart? && MayStart(s, e.c) && Terminal(s.status))
  {
  }

  /** How an operation ends: by the request that says so, while it is running and not otherwise. */
  lemma EndsAs(s: State, e: Event)
    requires CanHappen(s, e) && !e.CommitStart? && !e.MarkEnqueueFailed?
    ensures After(s, e).status ==
            if s.status != Running then s.status
            else if e.Succeed? then Succeeded
            else if e.Fail? then Failed
            else if e.TimeoutOperation? then TimedOut
            else Running
  {
  }

  /** In the whole run the status never moves back; `EnqueueFailed` is written without looking. */
  ghost predicate StatusMovesForward(states: seq<State>, events: seq<Event>)
    requires |states| == |events| + 1
  {
    forall i | 0 <= i < |events| && !events[i].MarkEnqueueFailed? ::
      states[i + 1].status == states[i].status || Forward(states[i].status, states[i + 1].status)
  }

  /** The operation ends at this step. */
  predicate Ends(states: seq<State>, k: nat) {
    k + 1 < |states| && !Terminal(states[k].status) && Terminal(states[k + 1].status)
  }

  /** A start request read the row before the operation ended, and is written after. */
  ghost predicate EndOvertaken(states: seq<State>, events: seq<Event>)
    requires |states| == |events| + 1
  {
    exists r: nat, k: nat, j: nat :: r < k < j && StartRequest(states, events, r, j, false) && Ends(states, k)
  }

  lemma {:induction false} EndBetween(states: seq<State>, events: seq<Event>, r: nat, j: nat) returns (k: nat)
    requires IsRun(states, events) && r <= j < |states| && !Terminal(states[r].status) && Terminal(states[j].status)
    ensures r <= k < j && Ends(states, k)
  {
    if Terminal(states[j - 1].status) { k := EndBetween(states, events, r, j - 1); } else { k := j - 1; }
  }

  lemma {:induction false} EndStays(states: seq<State>, events: seq<Event>, k: nat, j: nat)
    requires IsRun(states, events) && k <= j < |states| && Terminal(states[k].status)
    requires StatusMovesForward(states, events)
    ensures Terminal(states[j].status)
  {
    if k < j {
      EndStays(states, events, k, j - 1);
      assert events[j - 1].MarkEnqueueFailed? || states[j].status == states[j - 1].status;
    }
  }

  lemma BackwardOvertakes(states: seq<State>, events: seq<Event>, j: nat)
    requires IsRun(states, events) && states[0] == NEW_OPERATION && j < |events| && !events[j].MarkEnqueueFailed?
    requires states[j + 1].status != states[j].status && !Forward(states[j].status, states[j + 1].status)
    ensures EndOvertaken(states, events)
  {
    StatusStep(states[j], events[j]);
    var r := CountedRequest(states, events, j, false);
    var k := EndBetween(states, events, r, j);
    assert states[r + 1].status == states[r].status;
    assert r < k < j;
  }

  /** The status never moves back exactly when no start request overtakes an end. */
  lemma StatusMovesForwardExactly(states: seq<State>, events: seq<Event>)
    requires IsRun(states, events) && states[0] == NEW_OPERATION
    ensures StatusMovesForward(states, events) <==> !EndOvertaken(states, events)
  {
    if !StatusMovesForward(states, events) {
      var j :| 0 <= j < |events| && !events[j].MarkEnqueueFailed?
          && states[j + 1].status != states[j].status && !Forward(states[j].status, states[j + 1].status);
      BackwardOvertakes(states, events, j);
    } else if EndOvertaken(states, events) {
      var r: nat, k: nat, j: nat :| r < k < j && StartRequest(states, events, r, j, false) && Ends(states, k);
      EndStays(states, events, k + 1, j + 1);
    }
  }

  /** Two published messages, both handled as far as having read the row. */
  lemma BothRead() returns (states: seq<State>, events: seq<Event>)
    ensures IsRun(states, events) && states[0] == NEW_OPERATION
    ensures var s := states[|events|]; s.entered == 0 && MayStart(s, 0) && MayStart(s, 1)
  {
    var s1 := After(NEW_OPERATION, Publish(0));
    var s2 := After(s1, Publish(1));
    var s3 := After(s2, Receive(0));
    var s4 := After(s3, Receive(1));
    var s5 := After(s4, ReadStart(0));
    var s6 := After(s5, ReadStart(1));
    states := [NEW_OPERATION, s1, s2, s3, s4, s5, s6];
    events := [Publish(0), Publish(1), Receive(0), Receive(1), ReadStart(0), ReadStart(1)];
  }

  lemma RunExtends(states: seq<State>, events: seq<Event>, e: Event)
    requires IsRun(states, events) && CanHappen(states[|events|], e)
    ensures IsRun(states + [After(states[|events|], e)], events + [e])
  {
  }

  /** Overlapping start requests do enter the body twice: both read the row before either is written. */
  lemma OverlapEntersTwice()
    ensures exists states: seq<State>, events: seq<Event> ::
              IsRun(states, events) && states[0] == NEW_OPERATION && states[|events|].entered == 2
  {
    var states, events := BothRead();
    var first, second := CommitStart(0, true), CommitStart(1, true);
    var s := states[|events|];
    RunExtends(states, events, first);
    RunExtends(states + [After(s, first)], events + [first], second);
  }

  /** An ended operation does run again: both requests read the row; one starts and ends it before the other's write. */
  lemma EndedRunsAgain() returns (states: seq<State>, events: seq<Event>)
    ensures IsRun(states, events) && states[0] == NEW_OPERATION && |events| > 0
    ensures states[|events| - 1].status == Succeeded && states[|events|].status == Running
  {
    states, events := BothRead();
    var start, body, end, again := CommitStart(0, true), BodyReturns(0), Succeed(0, true), CommitStart(1, true);
    var s := states[|events|];
    var s1 := After(s, start);
    var s2 := After(s1, body);
    var s3 := After(s2, end);
    RunExtends(states, events, start);
    states, events := states + [s1], events + [start];
    RunExtends(states, events, body);
    states, events := states + [s2], events + [body];
    RunExtends(states, events, end);
    states, events := states + [s3], events + [end];
    RunExtends(states, events, again);
    states, events := states + [After(s3, again)], events + [again];
  }

  // --- the endpoints --------------------------------------------------------

  datatype EndpointError = Conflict

  /** The row of an operation; the result and the times are abstract. */
  class OperationRow {
    var status: Status
    var attempts: nat
    var error: Option<string>
    var result: Option<string>
    var finishedAt: Option<int>
    var updatedAt: int

    method StartOperation(now: int) returns (r: Result<nat, EndpointError>)
      modifies this
      ensures r.Ok? <==> old(status) == StatusQueued || old(status) == StatusPending
      ensures r.Ok? ==> status == Running && attempts == old(attempts) + 1 == r.value && error.None? && updatedAt == now
                        && result == old(result) && finishedAt == old(finishedAt)
      ensures r.Err? ==> unchanged(this)
    {
      if status != StatusQueued && status != StatusPending { return Err(Conflict); }
      status := Running;
      attempts := attempts + 1;
      error := None;
      updatedAt := now;
      r := Ok(attempts);
    }

    method SucceedOperation(data: Option<string>, now: int) returns (r: Result<Status, EndpointError>)
      modifies this
      ensures r.Ok? <==> old(status) == Running
      ensures r.Ok? ==> status == Succeeded == r.value && error.None? && result == data
                        && finishedAt == Some(now) && updatedAt == now && attempts == old(attempts)
      ensures r.Err? ==> unchanged(this)
    {
      if status != Running { return Err(Conflict); }
      status := Succeeded;
      error := None;
      result := data;
      finishedAt := Some(now);
      updatedAt := now;
      r := Ok(status);
    }

    method FailOperation(message: Option<string>, data: Option<string>, now: int)
      returns (r: Result<Status, EndpointError>)
      modifies this
      ensures r.Ok? <==> old(status) == Running
      ensures r.Ok? ==>
                status == Failed == r.value && error.Some?
                    && (message.Some? && message.value != "" ==> error == message)
                        && result == data && finishedAt == Some(now) && updatedAt == now && attempts == old(attempts)
      ensures r.Err? ==> unchanged(this)
    {
      if status != Running { return Err(Conflict); }
      status := Failed;
      error := if message.Some? && message.value != "" then message else Some("Worker reported failure");
      result := data;
      finishedAt := Some(now);
      updatedAt := now;
      r := Ok(status);
    }

    method TimeoutOperation(now: int) returns (r: Result<Status, EndpointError>)
      modifies this
      ensures r.Ok? <==> old(status) == Running
      ensures r.Ok? ==> status == TimedOut == r.value && error.Some? && finishedAt == Some(now) && updatedAt == now
                        && attempts == old(attempts) && result == old(result)
      ensures r.Err? ==> unchanged(this)
    {
      if status != Running { return Err(Conflict); }
      status := TimedOut;
      error := Some("Operation exceeded running timeout and needs manual action");
      finishedAt := Some(now);
      updatedAt := now;
      r := Ok(status);
    }
  }
}
