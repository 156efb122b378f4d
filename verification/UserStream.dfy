/**
 The public page's change stream: one browser event source per token, a bounded retry for refused
 connections, and a latch for a token the server rejected. Browser sources are named by the generation
 they were created with; their callbacks may come at any time, also after they were closed.
 */
module UserStream {
  import opened Options

  /** A token is a number here; `NO_TOKEN` is the empty string. */
  type Token = nat

  const NO_TOKEN: Token := 0

  type Generation = nat

  /** Milliseconds before a refused connection is tried again; the last delay repeats. */
  const RETRY_DELAYS := [1000, 2000, 5000, 15000, 30000]

  function RetryDelay(attempts: nat): nat {
    if attempts < |RETRY_DELAYS| then RETRY_DELAYS[attempts] else RETRY_DELAYS[|RETRY_DELAYS| - 1]
  }

  /** The stream's variables, and every source created with the token it was for, open or closed. */
  datatype Stream = Stream(
    source: Option<Generation>,
    connectedToken: Option<Token>,
    generation: Generation,
    attempts: nat,
    retry: Option<nat>,
    disabled: bool,
    rejectedToken: Option<Token>,
    created: map<Generation, Token>,
    closed: set<Generation>)

  const NEW_STREAM := Stream(None, None, 0, 0, None, false, None, map[], {})

  function Detached(s: Stream): Stream {
    s.(generation := s.generation + 1, source := None, connectedToken := None,
       closed := if s.source.Some? then s.closed + {s.source.value} else s.closed)
  }

  function RetryScheduled(s: Stream): Stream {
    if s.disabled then s else s.(retry := Some(RetryDelay(s.attempts)), attempts := s.attempts + 1)
  }

  function Connected(s: Stream, token: Token): Stream {
    if token == NO_TOKEN then s
    else
      var gen := s.generation + 1;
      s.(retry := None, generation := gen, connectedToken := Some(token), source := Some(gen),
         created := s.created[gen := token])
  }

  function Opened(s: Stream, token: Token): Stream {
    var e := s.(disabled := false);
    if token == NO_TOKEN then Detached(e.(retry := None))
    else if s.source.Some? && s.connectedToken == Some(token) then e
    else if s.source.None? && s.rejectedToken == Some(token) then e
    else Connected(Detached(e), token)
  }

  function Closed(s: Stream): Stream {
    Detached(s.(disabled := true, retry := None))
  }

  /** A callback counts only for the source of the current generation. */
  predicate Listening(s: Stream, gen: Generation) {
    gen in s.created && gen == s.generation
  }

  function Heard(s: Stream, gen: Generation): Stream {
    if Listening(s, gen) then s.(attempts := 0) else s
  }

  function Rejected(s: Stream, gen: Generation): Stream {
    if Listening(s, gen) then Detached(s.(rejectedToken := s.connectedToken, disabled := true)) else s
  }

  /** An error of a source the browser still reconnects is left to the browser. */
  function Failed(s: Stream, gen: Generation, refused: bool): Stream {
    if Listening(s, gen) && refused then RetryScheduled(Detached(s)) else s
  }

  function RetryFired(s: Stream, token: Token): Stream {
    if s.retry.Some? then Connected(s.(retry := None), token) else s
  }

  // --- runs -----------------------------------------------------------------

  datatype StreamEvent =
    | Open
    | CloseAll
    | HearConnected(gen: Generation)
    | HearOpen(gen: Generation)
    | HearUnauthorized(gen: Generation)
    | HearError(gen: Generation, refused: bool)
    | RetryTimer

  function AfterStream(s: Stream, e: StreamEvent, token: Token): Stream {
    match e
    case Open => Opened(s, token)
    case CloseAll => Closed(s)
    case HearConnected(gen) => Heard(s, gen)
    case HearOpen(gen) => Heard(s, gen)
    case HearUnauthorized(gen) => Rejected(s, gen)
    case HearError(gen, refused) => Failed(s, gen, refused)
    case RetryTimer => RetryFired(s, token)
  }

  /**
   At most the current source is open, it belongs to the current generation, and it never coexists
   with an armed retry; a closed or rejected stream has neither.
   */
  ghost predicate StreamOk(s: Stream) {
    && (s.source.Some? ==> s.source.value == s.generation && s.generation in s.created
                           && s.connectedToken == Some(s.created[s.generation]) && s.retry.None? && !s.disabled)
    && (s.source.None? ==> s.connectedToken.None? && s.generation !in s.created)
    && (s.retry.Some? ==> !s.disabled)
    && (forall g | g in s.created :: g <= s.generation && (g !in s.closed ==> s.source == Some(g)))
    && (forall g | g in s.closed :: g in s.created && s.source != Some(g))
  }

  lemma StreamEventKeeps(s: Stream, e: StreamEvent, token: Token)
    requires StreamOk(s)
    ensures StreamOk(AfterStream(s, e, token))
  {
  }

  function RunStream(s: Stream, events: seq<(StreamEvent, Token)>): Stream {
    if events == [] then s
    else AfterStream(RunStream(s, events[..|events| - 1]), events[|events| - 1].0, events[|events| - 1].1)
  }

  lemma {:induction false} RunKeepsStream(s: Stream, events: seq<(StreamEvent, Token)>)
    requires StreamOk(s)
    ensures StreamOk(RunStream(s, events))
  {
    if events != [] {
      RunKeepsStream(s, events[..|events| - 1]);
      StreamEventKeeps(RunStream(s, events[..|events| - 1]), events[|events| - 1].0, events[|events| - 1].1);
    }
  }

  /** A callback of an older generation changes nothing. */
  lemma LateCallbacksAreIgnored(s: Stream, e: StreamEvent, token: Token)
    requires StreamOk(s) && (e.HearConnected? || e.HearOpen? || e.HearUnauthorized? || e.HearError?)
    requires s.source != Some(e.gen)
    ensures AfterStream(s, e, token) == s
  {
  }

  /** A second, two, five, fifteen, and thirty from then on. */
  lemma RetryDelays(n: nat)
    ensures RetryDelay(0) == 1000 && RetryDelay(1) == 2000 && RetryDelay(2) == 5000 && RetryDelay(3) == 15000
    ensures n >= 4 ==> RetryDelay(n) == 30000
    ensures RetryDelay(n) <= RetryDelay(n + 1)
  {
  }

  /**
   An error: one the browser itself recovers from changes nothing, and so does one of an older source; a
   refused connection is closed and tried again later, a little later each time.
   */
  lemma ErrorGives(s: Stream, gen: Generation, refused: bool)
    requires StreamOk(s)
    ensures var r := Failed(s, gen, refused);
            if s.source == Some(gen) && refused
            then && r.source.None? && r.connectedToken.None? && r.generation == s.generation + 1 && gen in r.closed
                 && r.retry == Some(RetryDelay(s.attempts)) && r.attempts == s.attempts + 1
                 && r.rejectedToken == s.rejectedToken && r.created == s.created && !r.disabled
            else r == s
  {
  }

  /** What a connect, a rejection and an open do to the stream that is heard. */
  lemma HeardGives(s: Stream, gen: Generation)
    requires StreamOk(s)
    ensures Heard(s, gen) == if s.source == Some(gen) then s.(attempts := 0) else s
    ensures var r := Rejected(s, gen);
            if s.source == Some(gen)
            then && r.source.None? && r.disabled && gen in r.closed && r.retry.None?
                 && r.rejectedToken == Some(s.created[gen]) && r.created == s.created
            else r == s
  {
  }

  /** A page with a token it may use is connected with it after `open`, and not twice. */
  lemma OpenGives(s: Stream, token: Token)
    requires StreamOk(s)
    ensures var r := Opened(s, token);
            && (token == NO_TOKEN ==> r.source.None? && r.retry.None?)
            && (token != NO_TOKEN && s.rejectedToken != Some(token) ==>
                  r.source.Some? && r.connectedToken == Some(token) && r.created[r.generation] == token)
            && (token != NO_TOKEN && s.source.Some? && s.connectedToken == Some(token) ==>
                  r.source == s.source && r.created == s.created)
            && (token != NO_TOKEN && s.source.None? && s.rejectedToken == Some(token) ==>
                  r.source.None? && r.created == s.created)
  {
  }

  /** So many connections in a row were refused and tried again. */
  function RefusedTimes(s: Stream, token: Token, n: nat): Stream {
    if n == 0 then s
    else
      var before := RefusedTimes(s, token, n - 1);
      RetryFired(Failed(before, before.generation, true), token)
  }

  lemma {:induction false} RefusedInARow(s: Stream, token: Token, n: nat)
    requires StreamOk(s) && s.source.Some? && token != NO_TOKEN
    ensures var r := RefusedTimes(s, token, n);
            StreamOk(r) && r.source.Some? && r.attempts == s.attempts + n
  {
    if n > 0 {
      var before := RefusedTimes(s, token, n - 1);
      RefusedInARow(s, token, n - 1);
      StreamEventKeeps(before, HearError(before.generation, true), token);
      StreamEventKeeps(Failed(before, before.generation, true), RetryTimer, token);
    }
  }

  /** After a connect the delays start over, and after n refusals in a row the next retry waits for the n-th. */
  lemma DelaysStartOver(s: Stream, token: Token, n: nat)
    requires StreamOk(s) && s.source.Some? && token != NO_TOKEN
    ensures var r := RefusedTimes(Heard(s, s.generation), token, n);
            Failed(r, r.generation, true).retry == Some(RetryDelay(n))
  {
    StreamEventKeeps(s, HearConnected(s.generation), token);
    RefusedInARow(Heard(s, s.generation), token, n);
    var r := RefusedTimes(Heard(s, s.generation), token, n);
    ErrorGives(r, r.generation, true);
  }

  /** Nothing opens between `close` and the next `open`. */
  lemma {:induction false} ClosedStaysClosed(s: Stream, events: seq<(StreamEvent, Token)>)
    requires StreamOk(s) && forall i | 0 <= i < |events| :: !events[i].0.Open?
    ensures var r := RunStream(Closed(s), events);
            StreamOk(r) && r.disabled && r.source.None? && r.retry.None? && r.created == s.created
  {
    if events == [] {
      StreamEventKeeps(s, CloseAll, NO_TOKEN);
    } else {
      ClosedStaysClosed(s, events[..|events| - 1]);
      StreamEventKeeps(RunStream(Closed(s), events[..|events| - 1]), events[|events| - 1].0, events[|events| - 1].1);
    }
  }

  /** Once the server rejected a token nothing connects while that stays the page's token. */
  lemma {:induction false} RejectedStaysLatched(s: Stream, token: Token, events: seq<StreamEvent>)
    requires StreamOk(s) && s.source.Some? && s.connectedToken == Some(token) && token != NO_TOKEN
    ensures var r := RunStream(Rejected(s, s.generation),
                               seq(|events|, i requires 0 <= i < |events| => (events[i], token)));
            StreamOk(r) && r.source.None? && r.retry.None? && r.rejectedToken == Some(token) && r.created == s.created
  {
    var pairs := seq(|events|, i requires 0 <= i < |events| => (events[i], token));
    if events == [] {
      StreamEventKeeps(s, HearUnauthorized(s.generation), token);
    } else {
      var init := events[..|events| - 1];
      RejectedStaysLatched(s, token, init);
      assert pairs[..|pairs| - 1] == seq(|init|, i requires 0 <= i < |init| => (init[i], token));
      var m := RunStream(Rejected(s, s.generation), pairs[..|pairs| - 1]);
      StreamEventKeeps(m, events[|events| - 1], token);
    }
  }

  /** The events, all while the page has this token. */
  function Under(events: seq<StreamEvent>, token: Token): seq<(StreamEvent, Token)> {
    seq(|events|, i requires 0 <= i < |events| => (events[i], token))
  }

  lemma RunUnder(s: Stream, events: seq<StreamEvent>, token: Token)
    requires events != []
    ensures RunStream(s, Under(events, token))
         == AfterStream(RunStream(s, Under(events[..|events| - 1], token)), events[|events| - 1], token)
  {
    var pairs := Under(events, token);
    assert pairs[..|pairs| - 1] == Under(events[..|events| - 1], token);
  }

  lemma StepKeepsSources(s: Stream, e: StreamEvent, token: Token)
    ensures s.created.Keys <= AfterStream(s, e, token).created.Keys
  {
  }

  lemma {:induction false} SourcesStay(s: Stream, events: seq<StreamEvent>, more: seq<StreamEvent>, token: Token)
    ensures RunStream(s, Under(events, token)).created.Keys <= RunStream(s, Under(events + more, token)).created.Keys
  {
    if more == [] {
      assert events + more == events;
    } else {
      var init := more[..|more| - 1];
      SourcesStay(s, events, init, token);
      assert (events + more)[..|events + more| - 1] == events + init;
      RunUnder(s, events + more, token);
      StepKeepsSources(RunStream(s, Under(events + init, token)), more[|more| - 1], token);
    }
  }

  /** A retry timer that comes before any close. */
  predicate FiresFirst(events: seq<StreamEvent>, k: nat) {
    k < |events| && events[k].RetryTimer? && forall m | 0 <= m < k :: !events[m].CloseAll?
  }

  ghost predicate Latched(s: Stream, r: Stream, token: Token) {
    StreamOk(r) && r.source.None? && r.rejectedToken == Some(token) && r.created == s.created
  }

  /** Until a timer fires the stream stays latched, and the armed retry waits for the first close. */
  lemma {:induction false} LatchedUntilFired(s: Stream, token: Token, events: seq<StreamEvent>)
    requires Latched(s, s, token) && token != NO_TOKEN
    requires s.retry.Some? ==> !exists k: nat :: FiresFirst(events, k)
    ensures var r := RunStream(Opened(s, token), Under(events, token));
            Latched(s, r, token)
                && (r.retry.Some? <==> s.retry.Some? && forall m | 0 <= m < |events| :: !events[m].CloseAll?)
  {
    if events == [] {
      StreamEventKeeps(s, Open, token);
    } else {
      var init, e := events[..|events| - 1], events[|events| - 1];
      if s.retry.Some? {
        if k: nat :| FiresFirst(init, k) { assert FiresFirst(events, k); }
        assert e.RetryTimer? && (forall m | 0 <= m < |init| :: !init[m].CloseAll?) ==> FiresFirst(events, |init|);
      }
      LatchedUntilFired(s, token, init);
      RunUnder(Opened(s, token), events, token);
      StreamEventKeeps(RunStream(Opened(s, token), Under(init, token)), e, token);
    }
  }

  /**
   The latch holds back `open` and not a retry: back on the rejected token, a source is created exactly
   when a retry was still armed and its timer fires before the first close.
   */
  lemma LatchHoldsExactly(s: Stream, token: Token, events: seq<StreamEvent>)
    requires Latched(s, s, token) && token != NO_TOKEN
    ensures RunStream(Opened(s, token), Under(events, token)).created != s.created
            <==> s.retry.Some? && exists k: nat :: FiresFirst(events, k)
  {
    if s.retry.Some? && exists k: nat :: FiresFirst(events, k) {
      var k := FirstFiring(events);
      var before := RunStream(Opened(s, token), Under(events[..k], token));
      LatchedUntilFired(s, token, events[..k]);
      RunUnder(Opened(s, token), events[..k + 1], token);
      assert events[..k + 1][..k] == events[..k];
      assert before.generation + 1 in RunStream(Opened(s, token), Under(events[..k + 1], token)).created;
      SourcesStay(Opened(s, token), events[..k + 1], events[k + 1..], token);
      assert events[..k + 1] + events[k + 1..] == events;
    } else {
      LatchedUntilFired(s, token, events);
    }
  }

  lemma {:induction false} FirstFiring(events: seq<StreamEvent>) returns (k: nat)
    requires exists k: nat :: FiresFirst(events, k)
    ensures FiresFirst(events, k) && !exists m: nat :: FiresFirst(events[..k], m)
  {
    k :| FiresFirst(events, k);
    if m: nat :| FiresFirst(events[..k], m) {
      var earlier := FirstFiring(events[..k]);
      assert events[..k][..earlier] == events[..earlier];
      k := earlier;
    }
  }

  /** Such a state is reached: rejected for one token, refused for another, and back in time. */
  lemma RejectedTokenReconnects()
    ensures var r := RunStream(NEW_STREAM,
                               [(Open, 1), (HearUnauthorized(2), 1), (Open, 2), (HearError(5, true), 2), (Open, 1),
                                            (RetryTimer, 1)]);
            r.source.Some? && r.connectedToken == Some(1) == r.rejectedToken
  {
    var events := [(Open, 1), (HearUnauthorized(2), 1), (Open, 2), (HearError(5, true), 2), (Open, 1), (RetryTimer, 1)];
    var s1 := Opened(NEW_STREAM, 1);
    var s2 := Rejected(s1, 2);
    var s3 := Opened(s2, 2);
    var s4 := Failed(s3, 5, true);
    var s5 := Opened(s4, 1);
    StepTo(events, 0, NEW_STREAM);
    StepTo(events, 1, s1);
    StepTo(events, 2, s2);
    StepTo(events, 3, s3);
    StepTo(events, 4, s4);
    StepTo(events, 5, s5);
    assert events[..6] == events;
  }

  lemma StepTo(events: seq<(StreamEvent, Token)>, n: nat, s: Stream)
    requires n < |events| && RunStream(NEW_STREAM, events[..n]) == s
    ensures RunStream(NEW_STREAM, events[..n + 1]) == AfterStream(s, events[n].0, events[n].1)
  {
    assert events[..n + 1][..n] == events[..n];
  }

  // --- the stream itself ----------------------------------------------------

  class EventStream {
    var source: Option<Generation>
    var connectedToken: Option<Token>
    var generation: Generation
    var attempts: nat
    var retry: Option<nat>
    var disabled: bool
    var rejectedToken: Option<Token>
    /** The browser's side: every source with its token, and those closed. */
    ghost var created: map<Generation, Token>
    ghost var closed: set<Generation>

    ghost function View(): Stream
      reads this
    {
      Stream(source, connectedToken, generation, attempts, retry, disabled, rejectedToken, created, closed)
    }

    constructor ()
      ensures View() == NEW_STREAM
    {
      source, connectedToken, generation, attempts, retry, disabled, rejectedToken := None, None, 0, 0, None, false,
          None;
      created, closed := map[], {};
    }

    method Detach()
      modifies this
      ensures View() == Detached(old(View()))
    {
      generation := generation + 1;
      var previous := source;
      source := None;
      connectedToken := None;
      if previous.Some? { closed := closed + {previous.value}; }
    }

    method ScheduleRetry()
      modifies this
      ensures View() == RetryScheduled(old(View()))
    {
      if disabled { return; }
      retry := None;
      var last := |RETRY_DELAYS| - 1;
      retry := Some(RETRY_DELAYS[if attempts < last then attempts else last]);
      attempts := attempts + 1;
    }

    method Connect(token: Token)
      modifies this
      ensures View() == Connected(old(View()), token)
    {
      if token == NO_TOKEN { return; }
      retry := None;
      generation := generation + 1;
      connectedToken := Some(token);
      source := Some(generation);
      created := created[generation := token];
    }

    method OpenStream(token: Token)
      modifies this
      ensures View() == Opened(old(View()), token)
    {
      disabled := false;
      if token == NO_TOKEN {
        retry := None;
        Detach();
        return;
      }
      if source.Some? && connectedToken == Some(token) { return; }
      if source.None? && rejectedToken == Some(token) { return; }
      Detach();
      Connect(token);
    }

    method CloseStream()
      modifies this
      ensures View() == Closed(old(View()))
    {
      disabled := true;
      retry := None;
      Detach();
    }

    /** Tells whether the callback counted. */
    method OnConnected(gen: Generation) returns (heard: bool)
      requires gen in created
      modifies this
      ensures View() == Heard(old(View()), gen) && heard == Listening(old(View()), gen)
    {
      if gen != generation { return false; }
      attempts := 0;
      heard := true;
    }

    method OnUnauthorized(gen: Generation) returns (heard: bool)
      requires gen in created
      modifies this
      ensures View() == Rejected(old(View()), gen) && heard == Listening(old(View()), gen)
    {
      if gen != generation { return false; }
      rejectedToken := connectedToken;
      disabled := true;
      Detach();
      heard := true;
    }

    method OnError(gen: Generation, refused: bool)
      requires gen in created
      modifies this
      ensures View() == Failed(old(View()), gen, refused)
    {
      if gen != generation || !refused { return; }
      Detach();
      ScheduleRetry();
    }

    method OnRetryTimer(token: Token)
      requires retry.Some?
      modifies this
      ensures View() == RetryFired(old(View()), token)
    {
      retry := None;
      Connect(token);
    }
  }
}
