/**
 The composable behind the public page: its closure variables are the fields, its functions the
 methods, and its change stream an object of its own. A request is sent by recording it;
 `RequestSettles` is the rest of the asynchronous function, which the browser runs whenever the
 promise settles. Each method keeps what `UserPage` proves of every run and says what its caller gets.
 */
module UserPageLoop {
  import opened Options
  import opened UserStream
  import opened UserPage

  /** The request just made is for the page's token, may be aborted, and nothing has made it stale. */
  predicate Asked(w: Watched) {
    var p := w.page;
    && p.inFlight && p.controller == Some(p.run) && p.run in p.requests && p.run !in w.barred
    && p.requests[p.run].token == p.token
  }

  predicate StreamIsFor(s: Stream, token: Token) {
    s.source.Some? ==> s.connectedToken == Some(token)
  }

  /** Everything outstanding is stale once a newer request or a barrier came. */
  lemma OutstandingIsStale(before: set<RunId>, run: RunId, barrier: bool, barred: set<RunId>)
    requires forall r | r in before :: r < run
    ensures BarredAfter(before, before + {run}, barrier, barred) == before
    ensures BarredAfter(before, before, true, barred) == before
  {
    assert run in before + {run} - before && before - before == {};
  }

  lemma ResetGives(w: Watched, now: Time)
    requires Invariant(w)
    ensures var r := Watch(w, ResetPage, now);
            && r.page.screen == BLANK && r.page.timer.None? && r.page.inFlight == r.page.started == w.page.started
            && (forall q | q in w.page.requests :: q in r.barred)
            && (r.page.started ==> Asked(r)) && StreamIsFor(r.page.stream, r.page.token)
  {
    var r := Watch(w, ResetPage, now);
    OutstandingIsStale(w.page.requests.Keys, w.page.run + 2, true, w.barred);
    if w.page.started { assert r.page.requests.Keys == w.page.requests.Keys + {w.page.run + 2}; }
  }

  /** A refresh was asked for: a request leaves at once, or one is queued behind the one in flight. */
  predicate Refreshes(w: Watched, r: Watched) {
    r.page.inFlight && (if w.page.inFlight then r.page.queued else Asked(r))
  }

  predicate NothingCounts(w: Watched) {
    forall q | q in w.page.requests :: q in w.barred
  }

  lemma RefreshAsks(w: Watched, p: Page, silent: bool, barrier: bool)
    requires Invariant(w) && p.started && p.requests == w.page.requests
    requires if p.inFlight then w.page.inFlight && p.run == w.page.run else !w.page.inFlight && p.run >= w.page.run
    ensures var q := Refreshed(p, silent);
            Refreshes(w, Watched(q, BarredAfter(w.page.requests.Keys, q.requests.Keys, barrier, w.barred)))
  {
    if !p.inFlight {
      OutstandingIsStale(w.page.requests.Keys, p.run + 1, barrier, w.barred);
      assert Refreshed(p, silent).requests.Keys == w.page.requests.Keys + {p.run + 1};
    }
  }

  lemma AskedAnew(w: Watched, e: Step, now: Time, p: Page, silent: bool)
    requires Invariant(w) && After(w.page, e, now) == Refreshed(p, silent) && p.started && p.requests == w.page.requests
    requires if p.inFlight then w.page.inFlight && p.run == w.page.run else !w.page.inFlight && p.run >= w.page.run
    ensures Refreshes(w, Watch(w, e, now))
  {
    RefreshAsks(w, p, silent, IsBarrier(w.page, e));
  }

  lemma StartGives(w: Watched, now: Time)
    requires Invariant(w)
    ensures var r := Watch(w, Start, now);
            r.page.started && (!w.page.started ==> Asked(r) && StreamIsFor(r.page.stream, r.page.token))
  {
    if !w.page.started { AskedAnew(w, Start, now, StreamSynced(w.page.(started := true)), false); }
  }

  lemma StopGives(w: Watched, now: Time)
    requires Invariant(w)
    ensures var r := Watch(w, Stop, now);
            && !r.page.started && !r.page.inFlight && r.page.timer.None? && r.page.controller.None?
            && r.page.stream.source.None? && r.page.stream.retry.None? && NothingCounts(r)
  {
    OutstandingIsStale(w.page.requests.Keys, w.page.run + 1, true, w.barred);
  }

  lemma VisibilityGives(w: Watched, hidden: bool, now: Time)
    requires Invariant(w) && hidden != w.page.hidden
    ensures var r := Watch(w, SetHidden(hidden), now);
            && (hidden ==> r.page.timer.None? && r.page.stream.source.None? && r.page.stream.retry.None?
                           && r.page.inFlight == w.page.inFlight)
            && (!hidden && r.page.started ==> Refreshes(w, r) && StreamIsFor(r.page.stream, r.page.token))
  {
    if !hidden && w.page.started {
      AskedAnew(w, SetHidden(hidden), now, StreamSynced(w.page.(hidden := hidden)), true);
    }
  }

  lemma AcceptGives(w: Watched, data: Info, now: Time)
    requires Invariant(w)
    ensures var r := Watch(w, AcceptInfo(data), now);
            && r.page.screen == Screen(Some(data), None, false) && NothingCounts(r)
            && (r.page.timer.Some? <==> r.page.started && !r.page.hidden)
  {
    OutstandingIsStale(w.page.requests.Keys, w.page.run + 1, true, w.barred);
  }

  lemma InvalidateGives(w: Watched, now: Time)
    requires Invariant(w)
    ensures NothingCounts(Watch(w, Invalidate, now))
  {
    OutstandingIsStale(w.page.requests.Keys, w.page.run + 1, true, w.barred);
  }

  lemma UnauthorizedGives(w: Watched, gen: Generation, now: Time)
    requires Invariant(w) && Listening(w.page.stream, gen)
    ensures var r := Watch(w, StreamUnauthorized(gen), now);
            && r.page.screen == BLANK && r.page.stream.source.None? && Refreshes(w, r)
            && forall q | q in w.page.requests :: q in r.barred
  {
    var p := RevokedDropped(w.page.(stream := Rejected(w.page.stream, gen), notifications := false));
    AskedAnew(w, StreamUnauthorized(gen), now, p, true);
    OutstandingIsStale(w.page.requests.Keys, w.page.run + 1, true, w.barred);
    assert w.page.inFlight ==> After(w.page, StreamUnauthorized(gen), now).requests == w.page.requests;
    assert !w.page.inFlight ==>
        After(w.page, StreamUnauthorized(gen), now).requests.Keys == w.page.requests.Keys + {w.page.run + 1};
  }

  lemma SettleGives(w: Watched, run: RunId, o: Outcome, now: Time)
    requires Invariant(w) && run in w.page.requests
    ensures var p, q := w.page, Settled(w.page, run, o, now);
            && Shown(p.screen, q.screen, o, run !in w.barred && p.requests[run].token == p.token)
            && (run != p.run ==> q == p.(requests := p.requests - {run}))
            && (run == p.run && p.queued ==> q.inFlight && q.run == p.run + 1)
            && (run == p.run ==> !q.loading && !q.refreshing)
            && q.lastLoadedAt == (if o.Answer? && run !in w.barred && p.requests[run].token == p.token then Some(now)
                                  else p.lastLoadedAt)
            && (run == p.run && !p.queued ==> !q.inFlight && (q.timer.Some? <==> q.started && !q.hidden && Shows(q)))
            && q.token == p.token
  {
    var p := w.page;
    AnswerAppliesExactly(w, run, o, now);
    if run != p.run {
      SupersededSettlesSilently(p, run, o, now);
    } else if p.queued {
      QueuedRunsAtOnce(p, o, now);
    } else {
      var a := Applied(p.(requests := p.requests - {run}), run, p.requests[run], o, now);
      ScheduledArms(a.(inFlight := false, controller := None, refreshing := false, loading := false), now);
    }
  }

  class UserPageRefresh {
    var screen: Screen
    var loading: bool
    var refreshing: bool
    var lastLoadedAt: Option<Time>
    var notifications: bool
    var timer: Option<Timer>
    var controller: Option<RunId>
    var run: RunId
    var inFlight: bool
    var queued: bool
    var started: bool
    var pendingSince: Option<Time>
    var guard: Ticket
    const stream: EventStream
    /** The environment: tab, token, and the requests whose promises have not settled. */
    var hidden: bool
    var token: Token
    var requests: map<RunId, Request>
    /** Outstanding requests that something made stale: a barrier, or a newer request. */
    ghost var barred: set<RunId>

    ghost function View(): Page
      reads this, stream
    {
      Page(screen, loading, refreshing, lastLoadedAt, notifications, timer, controller, run, inFlight, queued, started,
           pendingSince, guard, stream.View(), hidden, token, requests)
    }

    ghost predicate Valid()
      reads this, stream
    {
      Invariant(Watched(View(), barred))
    }

    constructor (hidden: bool, token: Token)
      ensures View() == NEW_PAGE.(hidden := hidden, token := token) && fresh(stream) && Valid()
    {
      screen, loading, refreshing, lastLoadedAt, notifications := BLANK, true, false, None, false;
      timer, controller, run, inFlight, queued, started := None, None, 0, false, false, false;
      pendingSince, guard := None, 0;
      stream := new EventStream();
      this.hidden, this.token, requests, barred := hidden, token, map[], {};
    }

    method PendingForMs(now: Time) returns (pendingFor: int)
      modifies this
      ensures View() == old(View()).(pendingSince := PendingSince(old(View()), now))
      ensures pendingFor == now - pendingSince.GetOr(now)
      ensures pendingSince.Some? ==> pendingSince == Some(old(pendingSince).GetOr(now))
    {
      if !HasPendingWork(screen.info) {
        pendingSince := None;
        return 0;
      }
      if pendingSince.None? { pendingSince := Some(now); }
      pendingFor := now - pendingSince.value;
    }

    method Schedule(now: Time)
      modifies this
      ensures View() == Scheduled(old(View()), now)
    {
      timer := None;
      if !started || (screen.info.None? && screen.error.None?) { return; }
      var delay;
      if screen.info.Some? {
        var pendingFor := PendingForMs(now);
        delay := NextPollDelay(screen.info, hidden, pendingFor);
      } else {
        delay := if hidden then None else Some(IDLE_POLL_MS);
      }
      if delay.None? { return; }
      timer := Some(Timer(now + delay.value, delay.value == PENDING_POLL_MS));
    }

    /** `guard.begin()`. */
    method TakeTicket() returns (ticket: Ticket)
      modifies this
      ensures View() == old(View()).(guard := old(guard) + 1) && ticket == guard
    {
      guard := guard + 1;
      ticket := guard;
    }

    /** The request leaves with its own abort controller. */
    method Send(ticket: Ticket)
      modifies this
      ensures View()
                == old(View()).(controller := Some(old(run)),
                                requests := old(requests)[old(run) := Request(ticket, old(token))])
    {
      controller := Some(run);
      requests := requests[run := Request(ticket, token)];
    }

    method StartRequest(silent: bool)
      requires started && !inFlight
      modifies this
      ensures View() == Refreshed(old(View()), silent)
    {
      inFlight, run := true, run + 1;
      if !silent { refreshing := true; }
      var ticket := TakeTicket();
      Send(ticket);
    }

    method Refresh(silent: bool)
      modifies this
      ensures View() == Refreshed(old(View()), silent)
    {
      if !started { return; }
      if inFlight {
        queued := true;
        return;
      }
      StartRequest(silent);
    }

    method SyncStream()
      modifies this, stream
      ensures View() == StreamSynced(old(View()))
    {
      if started && !hidden {
        stream.OpenStream(token);
      } else {
        CloseStream();
      }
    }

    method Seize()
      modifies this
      ensures View() == Seized(old(View()))
    {
      run := run + 1;
      inFlight := false;
      queued := false;
    }

    method ClearPollTimer()
      modifies this
      ensures View() == old(View()).(timer := None)
    {
      timer := None;
    }

    method CloseStream()
      modifies this, stream
      ensures View() == old(View()).(stream := Closed(old(View()).stream), notifications := false)
    {
      stream.CloseStream();
      notifications := false;
    }

    method InvalidateAnswers()
      modifies this
      ensures View() == Invalidated(old(View()))
    {
      guard := guard + 1;
    }

    method BlankScreen()
      modifies this
      ensures View() == old(View()).(screen := BLANK, lastLoadedAt := None, pendingSince := None, loading := true)
    {
      screen, lastLoadedAt, pendingSince, loading := BLANK, None, None, true;
    }

    /** Aborts the request in flight, if there is one. */
    method AbortRequest()
      modifies this
      ensures View() == old(View()).(controller := None)
    {
      controller := None;
    }

    method Apply(o: Outcome)
      modifies this
      ensures View() == old(View()).(screen := ResolveRefresh(old(screen), o))
    {
      match o {
        case Answer(data) => screen := Screen(Some(data), None, false);
        case Failure(code) => screen := screen.(error := Some(code), retrying := screen.info.Some?);
        case Aborted =>
      }
    }

    method DropRevokedState()
      modifies this
      ensures View() == RevokedDropped(old(View()))
    {
      InvalidateAnswers();
      BlankScreen();
    }

    /** The live request gives the shared state back. */
    method Settle()
      modifies this
      ensures View() == old(View()).(inFlight := false, controller := None, refreshing := false, loading := false)
    {
      inFlight, controller := false, None;
      refreshing, loading := false, false;
    }

    /** The `finally` block. */
    method Finalize(requestRun: RunId, now: Time)
      modifies this
      ensures View() == Finalized(old(View()), requestRun, now)
    {
      if requestRun != run { return; }
      Settle();
      if !started {
        queued := false;
      } else if queued {
        queued := false;
        Refresh(true);
      } else {
        Schedule(now);
      }
    }

    /** Keeps track of what the step made stale. */
    ghost method Observe(e: Step, now: Time, w: Watched)
      requires Invariant(w) && View() == After(w.page, e, now)
      modifies `barred
      ensures Watched(View(), barred) == Watch(w, e, now) && Valid()
    {
      StepKeeps(w, e, now);
      barred := Watch(w, e, now).barred;
    }

    // --- what the page and the browser call ---------------------------------

    /** No answer on its way counts, nothing is in flight or queued, and no poll is armed. */
    method Silence()
      modifies this
      ensures View() == Seized(old(View())).(guard := old(guard) + 1, controller := None, timer := None)
    {
      InvalidateAnswers();
      Seize();
      AbortRequest();
      ClearPollTimer();
    }

    method ResetState()
      modifies this, stream
      ensures View() == Reset(old(View()))
    {
      Silence();
      BlankScreen();
      SyncStream();
      Refresh(false);
    }

    /** A blank page asking for the new token's state; no answer asked for earlier will be shown. */
    method ResetForToken(now: Time)
      requires Valid()
      modifies this, stream
      ensures Valid() && View() == Reset(old(View()))
      ensures screen == BLANK && timer.None? && inFlight == started == old(started)
      ensures lastLoadedAt.None? && pendingSince.None? && loading
      ensures forall r | r in old(requests) :: r in barred
      ensures started ==> Asked(Watched(View(), barred))
      ensures StreamIsFor(stream.View(), token)
    {
      ghost var w := Watched(View(), barred);
      ResetState();
      Observe(ResetPage, now, w);
      ResetGives(w, now);
    }

    method BeginLoop()
      modifies this, stream
      ensures View() == Started(old(View()))
    {
      if started { return; }
      started := true;
      SyncStream();
      Refresh(false);
    }

    /** The first call asks for the page's state and opens the token's stream; later ones do nothing. */
    method StartLoop(now: Time)
      requires Valid()
      modifies this, stream
      ensures Valid() && View() == Started(old(View()))
      ensures started && (!old(started) ==> Asked(Watched(View(), barred)) && StreamIsFor(stream.View(), token))
    {
      ghost var w := Watched(View(), barred);
      BeginLoop();
      Observe(Start, now, w);
      StartGives(w, now);
    }

    method EndLoop()
      modifies this, stream
      ensures View() == Stopped(old(View()))
    {
      started := false;
      Silence();
      pendingSince := None;
      CloseStream();
    }

    /** Afterwards nothing is armed, no stream is open, and no answer still on its way will be shown. */
    method StopLoop(now: Time)
      requires Valid()
      modifies this, stream
      ensures Valid() && View() == Stopped(old(View()))
      ensures !started && !inFlight && timer.None? && controller.None? && !notifications
      ensures stream.source.None? && stream.retry.None? && NothingCounts(Watched(View(), barred))
    {
      ghost var w := Watched(View(), barred);
      EndLoop();
      Observe(Stop, now, w);
      StopGives(w, now);
    }

    method FollowVisibility(tabHidden: bool)
      modifies this, stream
      ensures View() == VisibilityChanged(old(View()), tabHidden)
    {
      hidden := tabHidden;
      if !started { return; }
      if hidden {
        ClearPollTimer();
        CloseStream();
        return;
      }
      SyncStream();
      Refresh(true);
    }

    /** A hidden tab polls nothing and keeps no stream; a tab shown again asks at once. */
    method OnVisibilityChange(tabHidden: bool, now: Time)
      requires Valid() && tabHidden != hidden
      modifies this, stream
      ensures Valid() && View() == VisibilityChanged(old(View()), tabHidden)
      ensures tabHidden && started ==> !notifications
      ensures tabHidden ==> timer.None? && stream.source.None? && stream.retry.None? && inFlight == old(inFlight)
      ensures !tabHidden && started ==>
                Refreshes(old(Watched(View(), barred)), Watched(View(), barred)) && StreamIsFor(stream.View(), token)
    {
      ghost var w := Watched(View(), barred);
      FollowVisibility(tabHidden);
      Observe(SetHidden(tabHidden), now, w);
      VisibilityGives(w, tabHidden, now);
    }

    /** Before a start or after a stop nothing is asked; otherwise the state is read, now or next. */
    method AskRefresh(silent: bool, now: Time)
      requires Valid()
      modifies this
      ensures Valid() && View() == Refreshed(old(View()), silent)
      ensures started && !old(inFlight) ==> inFlight && refreshing == (old(refreshing) || !silent)
      ensures started ==> Refreshes(old(Watched(View(), barred)), Watched(View(), barred))
    {
      ghost var w := Watched(View(), barred);
      Refresh(silent);
      Observe(Ask(silent), now, w);
      if started { AskedAnew(w, Ask(silent), now, w.page, silent); }
    }

    method OnPollTimer(now: Time)
      requires Valid() && timer.Some?
      modifies this
      ensures Valid() && View() == TimerFired(old(View()))
      ensures timer.None? && Refreshes(old(Watched(View(), barred)), Watched(View(), barred))
    {
      ghost var w := Watched(View(), barred);
      timer := None;
      Refresh(true);
      Observe(TimerEnds, now, w);
      AskedAnew(w, TimerEnds, now, w.page.(timer := None), true);
    }

    method ShowSnapshot(data: Info, now: Time)
      modifies this
      ensures View() == Accepted(old(View()), data, now)
    {
      InvalidateAnswers();
      Apply(Answer(data));
      lastLoadedAt, loading := Some(now), false;
      Schedule(now);
    }

    /** The snapshot is on screen, polled from now on, and no older answer will replace it. */
    method AcceptSnapshot(data: Info, now: Time)
      requires Valid()
      modifies this
      ensures Valid() && View() == Accepted(old(View()), data, now)
      ensures screen == Screen(Some(data), None, false) && NothingCounts(Watched(View(), barred))
      ensures lastLoadedAt == Some(now) && !loading
      ensures timer.Some? <==> started && !hidden
    {
      ghost var w := Watched(View(), barred);
      ShowSnapshot(data, now);
      Observe(AcceptInfo(data), now, w);
      AcceptGives(w, data, now);
    }

    /** No answer still on its way will be shown. */
    method InvalidateRefresh(now: Time)
      requires Valid()
      modifies this
      ensures Valid() && View() == Invalidated(old(View())) && NothingCounts(Watched(View(), barred))
    {
      ghost var w := Watched(View(), barred);
      InvalidateAnswers();
      Observe(Invalidate, now, w);
      InvalidateGives(w, now);
    }

    method Show(o: Outcome, now: Time)
      modifies this
      ensures View() == old(View()).(screen := ResolveRefresh(old(screen), o),
                                     lastLoadedAt := if o.Answer? then Some(now) else old(lastLoadedAt))
    {
      Apply(o);
      if o.Answer? { lastLoadedAt := Some(now); }
    }

    method Withdraw(requestRun: RunId) returns (request: Request)
      requires requestRun in requests
      modifies this
      ensures View() == old(View()).(requests := old(requests) - {requestRun})
      ensures request == old(requests)[requestRun]
    {
      request := requests[requestRun];
      requests := requests - {requestRun};
    }

    method ShowIfCurrent(requestRun: RunId, request: Request, o: Outcome, now: Time)
      modifies this
      ensures View() == Applied(old(View()), requestRun, request, o, now)
    {
      if o.Aborted? || requestRun != run || request.ticket != guard || token != request.token { return; }
      Show(o, now);
    }

    method Land(requestRun: RunId, o: Outcome, now: Time)
      requires requestRun in requests
      modifies this
      ensures View() == Settled(old(View()), requestRun, o, now)
    {
      var request := Withdraw(requestRun);
      ShowIfCurrent(requestRun, request, o, now);
      Finalize(requestRun, now);
    }

    /**
     After the await. The answer reaches the screen exactly when nothing made it stale and it is for the
     page's token; a superseded request changes nothing; a queued refresh runs next, else the poll is armed.
     */
    method RequestSettles(requestRun: RunId, o: Outcome, now: Time)
      requires Valid() && requestRun in requests
      modifies this
      ensures Valid() && View() == Settled(old(View()), requestRun, o, now)
      ensures requestRun !in old(barred) && old(requests)[requestRun].token == token && o.Answer? ==>
                screen.info == Some(o.info) && screen.error.None? && !screen.retrying
      ensures requestRun !in old(barred) && old(requests)[requestRun].token == token && o.Failure? ==>
                screen.info == old(screen.info) && screen.error == Some(o.error)
                && (screen.retrying <==> old(screen.info).Some?)
      ensures requestRun in old(barred) || old(requests)[requestRun].token != token || o.Aborted? ==>
                screen == old(screen)
      ensures requestRun != old(run) ==> View() == old(View()).(requests := old(requests) - {requestRun})
      ensures requestRun == old(run) && old(queued) ==> inFlight && run == old(run) + 1
      ensures requestRun == old(run) ==> !loading && !refreshing
      ensures lastLoadedAt == if o.Answer? && requestRun !in old(barred) && old(requests)[requestRun].token == token
                              then Some(now) else old(lastLoadedAt)
      ensures requestRun == old(run) && !old(queued) ==>
                !inFlight && (timer.Some? <==> started && !hidden && Shows(View()))
    {
      ghost var w := Watched(View(), barred);
      Land(requestRun, o, now);
      Observe(Step.Settle(requestRun, o), now, w);
      SettleGives(w, requestRun, o, now);
    }

    method Hear(gen: Generation, available: bool)
      requires gen in stream.created
      modifies this, stream
      ensures View() == After(old(View()), StreamConnected(gen, available), 0)
    {
      var heard := stream.OnConnected(gen);
      if !heard { return; }
      notifications := available;
      Refresh(true);
    }

    /** Every connect of the current stream re-reads the state; one of an older stream does nothing. */
    method OnStreamConnected(gen: Generation, available: bool, now: Time)
      requires Valid() && gen in stream.created
      modifies this, stream
      ensures Valid() && View() == After(old(View()), StreamConnected(gen, available), now)
      ensures if Listening(old(stream.View()), gen)
              then Refreshes(old(Watched(View(), barred)), Watched(View(), barred)) && notifications == available
              else View() == old(View())
    {
      ghost var w := Watched(View(), barred);
      Hear(gen, available);
      Observe(StreamConnected(gen, available), now, w);
      if Listening(w.page.stream, gen) {
        AskedAnew(w, StreamConnected(gen, available), now,
                  w.page.(stream := Heard(w.page.stream, gen), notifications := available),
                  true);
      }
    }

    /** An announced change of the current stream re-reads the whole state. */
    method OnStreamChanged(gen: Generation, now: Time)
      requires Valid() && gen in stream.created
      modifies this
      ensures Valid() && View() == After(old(View()), StreamChanged(gen), now)
      ensures if Listening(old(stream.View()), gen)
                then Refreshes(old(Watched(View(), barred)), Watched(View(), barred))
              else View() == old(View())
    {
      ghost var w := Watched(View(), barred);
      if gen == stream.generation { Refresh(true); }
      Observe(StreamChanged(gen), now, w);
      if Listening(w.page.stream, gen) { AskedAnew(w, StreamChanged(gen), now, w.page, true); }
    }

    method Revoke(gen: Generation)
      requires gen in stream.created
      modifies this, stream
      ensures View() == After(old(View()), StreamUnauthorized(gen), 0)
    {
      var heard := stream.OnUnauthorized(gen);
      if !heard { return; }
      notifications := false;
      DropRevokedState();
      Refresh(true);
    }

    /** A rejected token clears the screen for good: what was asked for before will not come back. */
    method OnStreamUnauthorized(gen: Generation, now: Time)
      requires Valid() && gen in stream.created
      modifies this, stream
      ensures Valid() && View() == After(old(View()), StreamUnauthorized(gen), now)
      ensures if Listening(old(stream.View()), gen)
              then && screen == BLANK && lastLoadedAt.None? && loading && !notifications && stream.source.None?
                   && (forall q | q in old(requests) :: q in barred)
                   && Refreshes(old(Watched(View(), barred)), Watched(View(), barred))
              else View() == old(View())
    {
      ghost var w := Watched(View(), barred);
      Revoke(gen);
      Observe(StreamUnauthorized(gen), now, w);
      if Listening(w.page.stream, gen) { UnauthorizedGives(w, gen, now); }
    }
  }
}
