/**
 The public page's refresh loop: one request at a time, tickets against stale answers, a queue of one,
 one poll timer, and the change stream. Every browser callback is one step; answers may come late.
 */
module UserPage {
  import opened Options
  import opened UserStream

  type Time = int

  // --- refresh policy -------------------------------------------------------

  const PENDING_POLL_MS := 1000
  const PENDING_POLL_WINDOW_MS := 120000
  const IDLE_POLL_MS := 15000

  datatype DeviceInfo = DeviceInfo(pending: bool, nodesReady: seq<bool>)
  datatype Info = Info(blocked: bool, active: bool, devices: seq<DeviceInfo>)

  type ErrorCode = nat
  type Ticket = nat
  type RunId = nat

  predicate HasPendingWork(info: Option<Info>) {
    && info.Some? && !info.value.blocked && info.value.active
    && exists d | d in info.value.devices :: d.pending || false in d.nodesReady
  }

  /** No delay means no timer. */
  function NextPollDelay(info: Option<Info>, hidden: bool, pendingFor: int): Option<nat> {
    if hidden then None
    else if !HasPendingWork(info) then Some(IDLE_POLL_MS)
    else if pendingFor < PENDING_POLL_WINDOW_MS then Some(PENDING_POLL_MS)
    else Some(IDLE_POLL_MS)
  }

  /** What a poll timer does: when it is due, and whether it was armed for the fast interval. */
  datatype Timer = Timer(due: Time, fast: bool)

  /** A request on its way: its generation, its ticket, and the token it was made for. */
  datatype Request = Request(ticket: Ticket, token: Token)

  datatype Outcome = Answer(info: Info) | Failure(error: ErrorCode) | Aborted

  /** What is on screen. */
  datatype Screen = Screen(info: Option<Info>, error: Option<ErrorCode>, retrying: bool)

  const BLANK := Screen(None, None, false)

  /** A failure keeps the last good payload. */
  function ResolveRefresh(s: Screen, o: Outcome): Screen {
    match o
    case Answer(info) => Screen(Some(info), None, false)
    case Failure(error) => Screen(s.info, Some(error), s.info.Some?)
    case Aborted => s
  }

  /**
   The composable's variables; the environment's part is whether the tab is hidden, the current token,
   and the requests whose promises have not settled.
   */
  datatype Page = Page(
    screen: Screen,
    loading: bool,
    refreshing: bool,
    lastLoadedAt: Option<Time>,
    notifications: bool,
    timer: Option<Timer>,
    controller: Option<RunId>,
    run: RunId,
    inFlight: bool,
    queued: bool,
    started: bool,
    pendingSince: Option<Time>,
    guard: Ticket,
    stream: Stream,
    hidden: bool,
    token: Token,
    requests: map<RunId, Request>)

  // --- the composable's functions -------------------------------------------

  function PendingSince(p: Page, now: Time): Option<Time> {
    if !HasPendingWork(p.screen.info) then None
    else if p.pendingSince.None? then Some(now)
    else p.pendingSince
  }

  predicate Shows(p: Page) {
    p.screen.info.Some? || p.screen.error.Some?
  }

  function PollDelay(p: Page, now: Time): Option<nat> {
    if p.screen.info.Some? then NextPollDelay(p.screen.info, p.hidden, now - PendingSince(p, now).GetOr(now))
    else if p.hidden then None
    else Some(IDLE_POLL_MS)
  }

  /** Without anything on screen there is no poll. */
  function PollTimer(p: Page, now: Time): Option<Timer> {
    if !p.started || !Shows(p) || PollDelay(p, now).None? then None
    else Some(Timer(now + PollDelay(p, now).value, PollDelay(p, now).value == PENDING_POLL_MS))
  }

  /** (Re)arm the poll for what is on screen. */
  function Scheduled(p: Page, now: Time): Page {
    p.(timer := PollTimer(p, now),
       pendingSince := if p.started && p.screen.info.Some? then PendingSince(p, now) else p.pendingSince)
  }

  /** Starts a request, or queues one behind the request in flight. */
  function Refreshed(p: Page, silent: bool): Page {
    if !p.started then p
    else if p.inFlight then p.(queued := true)
    else
      p.(inFlight := true, run := p.run + 1, refreshing := p.refreshing || !silent, guard := p.guard + 1,
         controller := Some(p.run + 1), requests := p.requests[p.run + 1 := Request(p.guard + 1, p.token)])
  }

  predicate IsLive(p: Page, run: RunId) {
    run == p.run
  }

  /** The answer of a request still counts. */
  predicate Counts(p: Page, run: RunId, r: Request, o: Outcome) {
    !o.Aborted? && IsLive(p, run) && r.ticket == p.guard && r.token == p.token
  }

  function Applied(p: Page, run: RunId, r: Request, o: Outcome, now: Time): Page {
    if !Counts(p, run, r, o) then p
    else p.(screen := ResolveRefresh(p.screen, o), lastLoadedAt := if o.Answer? then Some(now) else p.lastLoadedAt)
  }

  /** The `finally` part: only the live request may touch the shared state. */
  function Finalized(p: Page, run: RunId, now: Time): Page {
    if !IsLive(p, run) then p
    else
      var q := p.(inFlight := false, controller := None, refreshing := false, loading := false);
      if !q.started then q.(queued := false)
      else if q.queued then Refreshed(q.(queued := false), true)
      else Scheduled(q, now)
  }

  function Settled(p: Page, run: RunId, o: Outcome, now: Time): Page {
    if run !in p.requests then p
    else
      var r := p.requests[run];
      Finalized(Applied(p.(requests := p.requests - {run}), run, r, o, now), run, now)
  }

  function Accepted(p: Page, info: Info, now: Time): Page {
    Scheduled(p.(guard := p.guard
        + 1, screen := Screen(Some(info), None, false), lastLoadedAt := Some(now), loading := false), now)
  }

  function Invalidated(p: Page): Page {
    p.(guard := p.guard + 1)
  }

  function RevokedDropped(p: Page): Page {
    p.(guard := p.guard + 1, screen := BLANK, lastLoadedAt := None, pendingSince := None, loading := true)
  }

  function StreamSynced(p: Page): Page {
    if p.started && !p.hidden then p.(stream := Opened(p.stream, p.token))
    else p.(stream := Closed(p.stream), notifications := false)
  }

  function Seized(p: Page): Page {
    p.(run := p.run + 1, inFlight := false, queued := false)
  }

  function Reset(p: Page): Page {
    var q := Seized(p).(guard := p.guard + 1, controller := None, timer := None, pendingSince := None, screen := BLANK,
                        lastLoadedAt := None, loading := true);
    Refreshed(StreamSynced(q), false)
  }

  function VisibilityChanged(p: Page, hidden: bool): Page {
    var q := p.(hidden := hidden);
    if !p.started then q
    else if hidden then q.(timer := None, stream := Closed(q.stream), notifications := false)
    else Refreshed(StreamSynced(q), true)
  }

  function Started(p: Page): Page {
    if p.started then p else Refreshed(StreamSynced(p.(started := true)), false)
  }

  function Stopped(p: Page): Page {
    Seized(p).(started := false, guard := p.guard + 1, controller := None, timer := None, pendingSince := None,
               stream := Closed(p.stream), notifications := false)
  }

  function TimerFired(p: Page): Page {
    if p.timer.None? then p else Refreshed(p.(timer := None), true)
  }

  // --- steps ----------------------------------------------------------------

  datatype Step =
    | Start
    | Stop
    | ResetPage
    | Ask(silent: bool)
    | AcceptInfo(info: Info)
    | Invalidate
    | SetHidden(hidden: bool)
    | SetToken(token: Token)
    | TimerEnds
    | Settle(run: RunId, outcome: Outcome)
    | StreamConnected(gen: Generation, notifications: bool)
    | StreamChanged(gen: Generation)
    | StreamUnauthorized(gen: Generation)
    | StreamError(gen: Generation, refused: bool)
    | StreamOpened(gen: Generation)
    | StreamRetry

  function After(p: Page, e: Step, now: Time): Page {
    match e
    case Start => Started(p)
    case Stop => Stopped(p)
    case ResetPage => Reset(p)
    case Ask(silent) => Refreshed(p, silent)
    case AcceptInfo(info) => Accepted(p, info, now)
    case Invalidate => Invalidated(p)
    case SetHidden(hidden) => if hidden == p.hidden then p else VisibilityChanged(p, hidden)
    case SetToken(token) => p.(token := token)
    case TimerEnds => TimerFired(p)
    case Settle(run, o) => Settled(p, run, o, now)
    case StreamConnected(gen, n) =>
      if Listening(p.stream, gen) then Refreshed(p.(stream := Heard(p.stream, gen), notifications := n), true) else p
    case StreamChanged(gen) => if Listening(p.stream, gen) then Refreshed(p, true) else p
    case StreamUnauthorized(gen) =>
      if Listening(p.stream, gen)
      then Refreshed(RevokedDropped(p.(stream := Rejected(p.stream, gen), notifications := false)), true) else p
    case StreamError(gen, refused) => p.(stream := Failed(p.stream, gen, refused))
    case StreamOpened(gen) => p.(stream := Heard(p.stream, gen))
    case StreamRetry => p.(stream := RetryFired(p.stream, p.token))
  }

  // --- what an observer keeps apart ------------------------------------------

  /** A reset, a stop, an invalidation, an accepted snapshot, or a revocation that was heard. */
  predicate IsBarrier(p: Page, e: Step) {
    match e
    case Stop => true
    case ResetPage => true
    case AcceptInfo(_) => true
    case Invalidate => true
    case StreamUnauthorized(gen) => Listening(p.stream, gen)
    case _ => false
  }

  /** The page, with the outstanding requests that a barrier or a newer request came after. */
  datatype Watched = Watched(page: Page, barred: set<RunId>)

  function BarredAfter(before: set<RunId>, after: set<RunId>, barrier: bool, barred: set<RunId>): set<RunId> {
    if after - before != {} then after * before
    else if barrier then after
    else barred * after
  }

  function Watch(w: Watched, e: Step, now: Time): Watched {
    var q := After(w.page, e, now);
    Watched(q, BarredAfter(w.page.requests.Keys, q.requests.Keys, IsBarrier(w.page, e), w.barred))
  }

  // --- the invariant --------------------------------------------------------

  /** Exactly one outstanding request is live while one is in flight, and none otherwise. */
  predicate OneLiveRequest(p: Page) {
    && (p.inFlight <==> p.run in p.requests)
    && (forall r | r in p.requests :: r <= p.run)
    && (p.controller == if p.inFlight then Some(p.run) else None)
    && (p.queued ==> p.inFlight)
    && (p.inFlight ==> p.started)
  }

  /** A ticket is current exactly when no barrier and no newer request came after it. */
  predicate TicketsOk(w: Watched) {
    Tickets(w.page.requests, w.page.guard, w.page.run, w.barred)
  }

  predicate Tickets(requests: map<RunId, Request>, guard: Ticket, run: RunId, barred: set<RunId>) {
    && barred <= requests.Keys
    && forall r | r in requests ::
         && requests[r].ticket <= guard && (requests[r].ticket == guard <==> r !in barred)
         && (r !in barred ==> r == run)
  }

  /** Started, visible and idle, a poll is armed exactly when something is shown; hidden or stopped, never. */
  predicate PollOk(p: Page) {
    && (p.started && !p.hidden && !p.inFlight ==> (p.timer.Some? <==> Shows(p)))
    && (p.timer.Some? ==> p.started && !p.hidden)
  }

  ghost predicate PageStreamOk(p: Page) {
    StreamOk(p.stream) && (p.stream.source.Some? || p.stream.retry.Some? ==> p.started && !p.hidden)
  }

  ghost predicate Invariant(w: Watched) {
    OneLiveRequest(w.page) && TicketsOk(w) && PollOk(w.page) && PageStreamOk(w.page)
  }

  // --- every step keeps it --------------------------------------------------

  /** The stream's callbacks that ask for nothing. */
  predicate IsQuiet(e: Step) {
    e.StreamOpened? || e.StreamError? || e.StreamRetry?
  }

  predicate IsLifecycle(e: Step) {
    e.Start? || e.Stop? || e.ResetPage? || e.SetHidden? || e.TimerEnds?
  }

  /** The stream's callbacks that may ask for a refresh. */
  predicate IsHeard(e: Step) {
    e.StreamConnected? || e.StreamChanged? || e.StreamUnauthorized?
  }

  lemma ScheduledArms(p: Page, now: Time)
    ensures var q := Scheduled(p, now);
            && q == p.(timer := q.timer, pendingSince := q.pendingSince)
            && (q.timer.Some? <==> p.started && !p.hidden && Shows(p))
  {
  }

  lemma RefreshedKeeps(p: Page, silent: bool)
    requires OneLiveRequest(p)
    ensures OneLiveRequest(Refreshed(p, silent)) && (p.started ==> Refreshed(p, silent).inFlight)
    ensures PageStreamOk(p) ==> PageStreamOk(Refreshed(p, silent))
  {
  }

  /** The page when the live request's finalizer looks at the queue. */
  function Idle(p: Page): Page {
    p.(inFlight := false, controller := None, refreshing := false, loading := false)
  }

  lemma FinalizedRequests(p: Page, run: RunId, now: Time)
    requires run !in p.requests && forall r | r in p.requests :: r <= p.run
    requires run == p.run ==> p.inFlight && p.started
    requires run != p.run ==> OneLiveRequest(p)
    ensures OneLiveRequest(Finalized(p, run, now))
  {
    if run == p.run {
      var q := Idle(p);
      if q.queued {
        RefreshedKeeps(q.(queued := false), true);
      } else {
        ScheduledArms(q, now);
      }
    }
  }

  lemma SettledRequests(p: Page, run: RunId, o: Outcome, now: Time)
    requires OneLiveRequest(p)
    ensures OneLiveRequest(Settled(p, run, o, now))
  {
    if run in p.requests {
      FinalizedRequests(Applied(p.(requests := p.requests - {run}), run, p.requests[run], o, now), run, now);
    }
  }

  lemma SeizedRequests(p: Page)
    requires OneLiveRequest(p)
    ensures OneLiveRequest(Reset(p)) && OneLiveRequest(Stopped(p))
  {
    var q := Seized(p).(guard := p.guard + 1, controller := None, timer := None, pendingSince := None, screen := BLANK,
                        lastLoadedAt := None, loading := true);
    assert OneLiveRequest(q);
    RefreshedKeeps(StreamSynced(q), false);
  }

  lemma LifecycleRequests(p: Page, e: Step, now: Time)
    requires OneLiveRequest(p) && IsLifecycle(e)
    ensures OneLiveRequest(After(p, e, now))
  {
    match e
    case Start => RefreshedKeeps(StreamSynced(p.(started := true)), false);
    case TimerEnds => RefreshedKeeps(p.(timer := None), true);
    case SetHidden(hidden) => RefreshedKeeps(StreamSynced(p.(hidden := hidden)), true);
    case _ => SeizedRequests(p);
  }

  lemma AcceptedRequests(p: Page, info: Info, now: Time)
    requires OneLiveRequest(p)
    ensures OneLiveRequest(Accepted(p, info, now))
  {
    ScheduledArms(p.(guard := p.guard
        + 1, screen := Screen(Some(info), None, false), lastLoadedAt := Some(now), loading := false), now);
  }

  lemma StreamRequests(p: Page, e: Step, now: Time)
    requires OneLiveRequest(p) && IsHeard(e)
    ensures OneLiveRequest(After(p, e, now))
  {
    match e
    case StreamConnected(gen, n) => RefreshedKeeps(p.(stream := Heard(p.stream, gen), notifications := n), true);
    case StreamChanged(gen) => RefreshedKeeps(p, true);
    case StreamUnauthorized(gen) =>
      RefreshedKeeps(RevokedDropped(p.(stream := Rejected(p.stream, gen), notifications := false)), true);
  }

  lemma StepKeepsRequests(p: Page, e: Step, now: Time)
    requires OneLiveRequest(p)
    ensures OneLiveRequest(After(p, e, now))
  {
    if e.Settle? { SettledRequests(p, e.run, e.outcome, now); }
    else if e.AcceptInfo? { AcceptedRequests(p, e.info, now); }
    else if IsHeard(e) { StreamRequests(p, e, now); }
    else if IsLifecycle(e) { LifecycleRequests(p, e, now); }
    else if e.Ask? { RefreshedKeeps(p, e.silent); }
  }

  lemma NewRequestTickets(requests: map<RunId, Request>, guard: Ticket, run: RunId, barred: set<RunId>, was: set<RunId>,
                          barrier: bool, r: Request, newRun: RunId)
    requires forall x | x in requests :: requests[x].ticket < r.ticket && x < newRun
    requires was <= requests.Keys + {run} && requests.Keys <= was && run < newRun
    ensures Tickets(requests[newRun := r], r.ticket, newRun,
                    BarredAfter(was, requests[newRun := r].Keys, barrier, barred))
  {
    var after := requests[newRun := r].Keys;
    assert newRun in after - was;
    assert after * was == requests.Keys;
  }

  lemma SameRequestTickets(requests: map<RunId, Request>, guard: Ticket, run: RunId, barred: set<RunId>, barrier: bool,
                           newGuard: Ticket, newRun: RunId)
    requires Tickets(requests, guard, run, barred)
    requires if barrier then newGuard > guard else newGuard == guard && newRun == run
    ensures Tickets(requests, newGuard, newRun, BarredAfter(requests.Keys, requests.Keys, barrier, barred))
  {
    assert requests.Keys - requests.Keys == {} && barred * requests.Keys == barred;
  }

  lemma GoneRequestTickets(requests: map<RunId, Request>, guard: Ticket, run: RunId, barred: set<RunId>, gone: RunId)
    requires Tickets(requests, guard, run, barred)
    ensures Tickets(requests - {gone}, guard, run, BarredAfter(requests.Keys, (requests - {gone}).Keys, false, barred))
  {
    assert (requests - {gone}).Keys - requests.Keys == {};
  }

  lemma AppliedFrame(p: Page, run: RunId, r: Request, o: Outcome, now: Time)
    ensures var q := Applied(p, run, r, o, now);
            && q.requests == p.requests && q.guard == p.guard && q.run == p.run && q.queued == p.queued
            && q.started == p.started && q.hidden == p.hidden && q.stream == p.stream && q.token == p.token
  {
  }

  lemma FinalizedFrame(p: Page, run: RunId, now: Time)
    ensures var q := Finalized(p, run, now);
            && q.stream == p.stream && q.started == p.started && q.hidden == p.hidden
            && if run == p.run && p.queued && p.started
               then q.requests == p.requests[run + 1 := Request(p.guard + 1, p.token)]
                   && q.guard == p.guard + 1 && q.run == run + 1
               else q.requests == p.requests && q.guard == p.guard && q.run == p.run
  {
    ScheduledArms(Idle(p), now);
  }

  /** What the finalizer does to requests, guard and generation. */
  lemma SettledFrame(p: Page, run: RunId, o: Outcome, now: Time)
    requires run in p.requests && OneLiveRequest(p)
    ensures var q := Settled(p, run, o, now);
            if run == p.run && p.queued
            then q.requests == (p.requests - {run})[run + 1 := Request(p.guard + 1, p.token)]
                && q.guard == p.guard + 1 && q.run == run + 1
            else q.requests == p.requests - {run} && q.guard == p.guard && q.run == p.run
  {
    AppliedFrame(p.(requests := p.requests - {run}), run, p.requests[run], o, now);
    FinalizedFrame(Applied(p.(requests := p.requests - {run}), run, p.requests[run], o, now), run, now);
  }

  lemma SettledTickets(w: Watched, run: RunId, o: Outcome, now: Time)
    requires OneLiveRequest(w.page) && TicketsOk(w)
    ensures TicketsOk(Watch(w, Settle(run, o), now))
  {
    var p := w.page;
    if run in p.requests {
      SettledFrame(p, run, o, now);
      if run == p.run && p.queued {
        NewRequestTickets(p.requests - {run}, p.guard, p.run, w.barred, p.requests.Keys, false,
                          Request(p.guard + 1, p.token), run + 1);
      } else {
        GoneRequestTickets(p.requests, p.guard, p.run, w.barred, run);
      }
    } else {
      SameRequestTickets(p.requests, p.guard, p.run, w.barred, false, p.guard, p.run);
    }
  }

  lemma AskedTickets(w: Watched, barrier: bool, p: Page, silent: bool)
    requires OneLiveRequest(w.page) && TicketsOk(w)
    requires p.requests == w.page.requests && p.guard >= w.page.guard
    requires if barrier then p.run >= w.page.run && p.guard > w.page.guard
             else p.run == w.page.run && p.guard == w.page.guard
    ensures var q := Refreshed(p, silent);
            Tickets(q.requests, q.guard, q.run, BarredAfter(w.page.requests.Keys, q.requests.Keys, barrier, w.barred))
  {
    if p.started && !p.inFlight {
      NewRequestTickets(p.requests, w.page.guard, p.run, w.barred, p.requests.Keys, barrier,
                        Request(p.guard + 1, p.token), p.run + 1);
    } else {
      SameRequestTickets(p.requests, w.page.guard, w.page.run, w.barred, barrier, p.guard, p.run);
    }
  }

  lemma StreamTickets(w: Watched, e: Step, now: Time)
    requires OneLiveRequest(w.page) && TicketsOk(w) && IsHeard(e)
    ensures TicketsOk(Watch(w, e, now))
  {
    var p := w.page;
    match e
    case StreamConnected(gen, n) =>
      if Listening(p.stream, gen) {
        AskedTickets(w, IsBarrier(w.page, e), p.(stream := Heard(p.stream, gen), notifications := n), true);
      }
      else { KeepsTickets(w, e, now); }
    case StreamChanged(gen) =>
      if Listening(p.stream, gen) { AskedTickets(w, IsBarrier(w.page, e), p, true); } else {
        KeepsTickets(w, e, now);
      }
    case StreamUnauthorized(gen) =>
      if Listening(p.stream, gen) {
        AskedTickets(w, IsBarrier(w.page, e),
                     RevokedDropped(p.(stream := Rejected(p.stream, gen), notifications := false)), true);
      } else {
        KeepsTickets(w, e, now);
      }
  }

  lemma ResetTickets(w: Watched, now: Time)
    requires OneLiveRequest(w.page) && TicketsOk(w)
    ensures TicketsOk(Watch(w, ResetPage, now))
  {
    var q := Seized(w.page).(guard := w.page.guard + 1, controller := None, timer := None, pendingSince := None,
                             screen := BLANK, lastLoadedAt := None, loading := true);
    AskedTickets(w, true, StreamSynced(q), false);
  }

  lemma HiddenTickets(w: Watched, hidden: bool, now: Time)
    requires OneLiveRequest(w.page) && TicketsOk(w)
    ensures TicketsOk(Watch(w, SetHidden(hidden), now))
  {
    var p := w.page;
    if hidden != p.hidden && p.started && !hidden {
      AskedTickets(w, false, StreamSynced(p.(hidden := hidden)), true);
    } else {
      KeepsTickets(w, SetHidden(hidden), now);
    }
  }

  lemma LifecycleTickets(w: Watched, e: Step, now: Time)
    requires OneLiveRequest(w.page) && TicketsOk(w) && IsLifecycle(e) && !e.Stop?
    ensures TicketsOk(Watch(w, e, now))
  {
    var p := w.page;
    match e
    case Start =>
      if !p.started { AskedTickets(w, false, StreamSynced(p.(started := true)), false); } else {
        KeepsTickets(w, e, now);
      }
    case ResetPage => ResetTickets(w, now);
    case SetHidden(hidden) => HiddenTickets(w, hidden, now);
    case TimerEnds =>
      if p.timer.Some? { AskedTickets(w, false, p.(timer := None), true); } else {
        KeepsTickets(w, e, now);
      }
  }

  lemma AcceptedTickets(w: Watched, info: Info, now: Time)
    requires TicketsOk(w)
    ensures TicketsOk(Watch(w, AcceptInfo(info), now))
  {
    ScheduledArms(w.page.(guard := w.page.guard
        + 1, screen := Screen(Some(info), None, false), lastLoadedAt := Some(now), loading := false), now);
    KeepsTickets(w, AcceptInfo(info), now);
  }

  lemma StoppedTickets(w: Watched, now: Time)
    requires TicketsOk(w)
    ensures TicketsOk(Watch(w, Stop, now))
  {
    KeepsTickets(w, Stop, now);
  }

  lemma QuietTickets(w: Watched, e: Step, now: Time)
    requires TicketsOk(w) && IsQuiet(e)
    ensures TicketsOk(Watch(w, e, now))
  {
    match e
    case StreamOpened(gen) => KeepsTickets(w, StreamOpened(gen), now);
    case StreamError(gen, refused) => KeepsTickets(w, StreamError(gen, refused), now);
    case StreamRetry => KeepsTickets(w, StreamRetry, now);
  }

  lemma PlainTickets(w: Watched, e: Step, now: Time)
    requires TicketsOk(w) && (e.Invalidate? || e.SetToken?)
    ensures TicketsOk(Watch(w, e, now))
  {
    match e
    case Invalidate => KeepsTickets(w, Invalidate, now);
    case SetToken(token) => KeepsTickets(w, SetToken(token), now);
  }

  lemma StepKeepsTickets(w: Watched, e: Step, now: Time)
    requires OneLiveRequest(w.page) && TicketsOk(w)
    ensures TicketsOk(Watch(w, e, now))
  {
    if e.Settle? { SettledTickets(w, e.run, e.outcome, now); }
    else if e.Ask? { AskedTickets(w, IsBarrier(w.page, e), w.page, e.silent); }
    else if IsHeard(e) { StreamTickets(w, e, now); }
    else if IsLifecycle(e) && !e.Stop? { LifecycleTickets(w, e, now); }
    else if e.AcceptInfo? { AcceptedTickets(w, e.info, now); }
    else if e.Stop? { StoppedTickets(w, now); }
    else if IsQuiet(e) { QuietTickets(w, e, now); }
    else { PlainTickets(w, e, now); }
  }

  /** Steps that leave the requests alone. */
  lemma KeepsTickets(w: Watched, e: Step, now: Time)
    requires TicketsOk(w) && After(w.page, e, now).requests == w.page.requests
    requires After(w.page, e, now).guard == if IsBarrier(w.page, e) then w.page.guard + 1 else w.page.guard
    requires IsBarrier(w.page, e) || After(w.page, e, now).run == w.page.run
    ensures TicketsOk(Watch(w, e, now))
  {
    var q := After(w.page, e, now);
    SameRequestTickets(w.page.requests, w.page.guard, w.page.run, w.barred, IsBarrier(w.page, e), q.guard, q.run);
  }

  lemma SettledPoll(p: Page, run: RunId, o: Outcome, now: Time)
    requires OneLiveRequest(p) && PollOk(p)
    ensures PollOk(Settled(p, run, o, now))
  {
    if run in p.requests {
      var a := Applied(p.(requests := p.requests - {run}), run, p.requests[run], o, now);
      ScheduledArms(a.(inFlight := false, controller := None, refreshing := false, loading := false), now);
    }
  }

  /** A refresh is in flight or the page is not started, so nothing has to be armed. */
  lemma RefreshedPoll(p: Page, silent: bool)
    requires p.timer.Some? ==> p.started && !p.hidden
    ensures PollOk(Refreshed(p, silent))
  {
  }

  lemma LifecyclePoll(p: Page, e: Step, now: Time)
    requires PollOk(p) && IsLifecycle(e)
    ensures PollOk(After(p, e, now))
  {
    match e
    case Start => RefreshedPoll(StreamSynced(p.(started := true)), false);
    case TimerEnds => RefreshedPoll(p.(timer := None), true);
    case SetHidden(hidden) => if !hidden { RefreshedPoll(StreamSynced(p.(hidden := hidden)), true); }
    case ResetPage =>
      RefreshedPoll(StreamSynced(Seized(p).(guard := p.guard + 1, controller := None, timer := None,
          pendingSince := None, screen := BLANK, lastLoadedAt := None, loading := true)), false);
    case Stop =>
  }

  lemma StreamPoll(p: Page, e: Step, now: Time)
    requires PollOk(p) && IsHeard(e)
    ensures PollOk(After(p, e, now))
  {
    match e
    case StreamConnected(gen, n) => RefreshedPoll(p.(stream := Heard(p.stream, gen), notifications := n), true);
    case StreamChanged(gen) => RefreshedPoll(p, true);
    case StreamUnauthorized(gen) =>
      RefreshedPoll(RevokedDropped(p.(stream := Rejected(p.stream, gen), notifications := false)), true);
  }

  lemma AcceptedPoll(p: Page, info: Info, now: Time)
    ensures PollOk(Accepted(p, info, now))
  {
    ScheduledArms(p.(guard := p.guard
        + 1, screen := Screen(Some(info), None, false), lastLoadedAt := Some(now), loading := false), now);
  }

  lemma StepKeepsPoll(p: Page, e: Step, now: Time)
    requires OneLiveRequest(p) && PollOk(p)
    ensures PollOk(After(p, e, now))
  {
    if e.Settle? { SettledPoll(p, e.run, e.outcome, now); }
    else if e.AcceptInfo? { AcceptedPoll(p, e.info, now); }
    else if e.Ask? { RefreshedPoll(p, e.silent); }
    else if IsHeard(e) { StreamPoll(p, e, now); }
    else if IsLifecycle(e) { LifecyclePoll(p, e, now); }
  }

  lemma StreamPartKeeps(p: Page)
    requires PageStreamOk(p)
    ensures StreamOk(Closed(p.stream)) && Closed(p.stream).source.None? && Closed(p.stream).retry.None?
    ensures StreamOk(Opened(p.stream, p.token))
  {
    StreamEventKeeps(p.stream, CloseAll, p.token);
    StreamEventKeeps(p.stream, Open, p.token);
  }

  lemma SettledStream(p: Page, run: RunId, o: Outcome, now: Time)
    ensures var q := Settled(p, run, o, now); q.stream == p.stream && q.started == p.started && q.hidden == p.hidden
  {
    if run in p.requests {
      AppliedFrame(p.(requests := p.requests - {run}), run, p.requests[run], o, now);
      FinalizedFrame(Applied(p.(requests := p.requests - {run}), run, p.requests[run], o, now), run, now);
    }
  }

  lemma RefreshedStream(p: Page, silent: bool)
    ensures var q := Refreshed(p, silent); q.stream == p.stream && q.started == p.started && q.hidden == p.hidden
  {
  }

  lemma LifecycleStream(p: Page, e: Step, now: Time)
    requires PageStreamOk(p) && IsLifecycle(e)
    ensures PageStreamOk(After(p, e, now))
  {
    StreamPartKeeps(p);
    match e
    case Start => RefreshedStream(StreamSynced(p.(started := true)), false);
    case TimerEnds => RefreshedStream(p.(timer := None), true);
    case SetHidden(hidden) => RefreshedStream(StreamSynced(p.(hidden := hidden)), true);
    case ResetPage =>
      RefreshedStream(StreamSynced(Seized(p).(guard := p.guard + 1, controller := None, timer := None,
          pendingSince := None, screen := BLANK, lastLoadedAt := None, loading := true)), false);
    case Stop =>
  }

  lemma HeardStream(p: Page, e: Step, now: Time)
    requires PageStreamOk(p) && IsHeard(e)
    ensures PageStreamOk(After(p, e, now))
  {
    match e
    case StreamConnected(gen, n) =>
      StreamEventKeeps(p.stream, HearConnected(gen), p.token);
      RefreshedStream(p.(stream := Heard(p.stream, gen), notifications := n), true);
    case StreamChanged(gen) => RefreshedStream(p, true);
    case StreamUnauthorized(gen) =>
      StreamEventKeeps(p.stream, HearUnauthorized(gen), p.token);
      RefreshedStream(RevokedDropped(p.(stream := Rejected(p.stream, gen), notifications := false)), true);
  }

  lemma OtherStream(p: Page, e: Step, now: Time)
    requires PageStreamOk(p) && IsQuiet(e)
    ensures PageStreamOk(After(p, e, now))
  {
    match e
    case StreamOpened(gen) => StreamEventKeeps(p.stream, HearOpen(gen), p.token);
    case StreamError(gen, refused) => StreamEventKeeps(p.stream, HearError(gen, refused), p.token);
    case StreamRetry => StreamEventKeeps(p.stream, RetryTimer, p.token);
  }

  lemma AcceptedStream(p: Page, info: Info, now: Time)
    ensures var q := Accepted(p, info, now); q.stream == p.stream && q.started == p.started && q.hidden == p.hidden
  {
    ScheduledArms(p.(guard := p.guard
        + 1, screen := Screen(Some(info), None, false), lastLoadedAt := Some(now), loading := false), now);
  }

  lemma StepKeepsPageStream(p: Page, e: Step, now: Time)
    requires PageStreamOk(p)
    ensures PageStreamOk(After(p, e, now))
  {
    if e.Settle? { SettledStream(p, e.run, e.outcome, now); }
    else if e.AcceptInfo? { AcceptedStream(p, e.info, now); }
    else if e.Ask? { RefreshedStream(p, e.silent); }
    else if IsHeard(e) { HeardStream(p, e, now); }
    else if IsLifecycle(e) { LifecycleStream(p, e, now); }
    else if IsQuiet(e) { OtherStream(p, e, now); }
  }

  lemma StepKeeps(w: Watched, e: Step, now: Time)
    requires Invariant(w)
    ensures Invariant(Watch(w, e, now))
  {
    StepKeepsRequests(w.page, e, now);
    StepKeepsTickets(w, e, now);
    StepKeepsPoll(w.page, e, now);
    StepKeepsPageStream(w.page, e, now);
  }

  function RunPage(w: Watched, steps: seq<(Step, Time)>): Watched {
    if steps == [] then w
    else Watch(RunPage(w, steps[..|steps| - 1]), steps[|steps| - 1].0, steps[|steps| - 1].1)
  }

  const NEW_PAGE := Page(BLANK, true, false, None, false, None, None, 0, false, false, false, None, 0, NEW_STREAM,
                         false, NO_TOKEN, map[])

  lemma NewPageIsFine(hidden: bool, token: Token)
    ensures Invariant(Watched(NEW_PAGE.(hidden := hidden, token := token), {}))
  {
  }

  /** Every reachable state of the page, whatever settles late and whatever the stream says when. */
  lemma {:induction false} RunKeepsInvariant(w: Watched, steps: seq<(Step, Time)>)
    requires Invariant(w)
    ensures Invariant(RunPage(w, steps))
  {
    if steps != [] {
      RunKeepsInvariant(w, steps[..|steps| - 1]);
      StepKeeps(RunPage(w, steps[..|steps| - 1]), steps[|steps| - 1].0, steps[|steps| - 1].1);
    }
  }

  /** A page just opened keeps it from there on, in a shown or a hidden tab, with or without a token. */
  lemma PageStaysFine(hidden: bool, token: Token, steps: seq<(Step, Time)>)
    ensures Invariant(RunPage(Watched(NEW_PAGE.(hidden := hidden, token := token), {}), steps))
  {
    NewPageIsFine(hidden, token);
    RunKeepsInvariant(Watched(NEW_PAGE.(hidden := hidden, token := token), {}), steps);
  }

  // --- what it means --------------------------------------------------------

  lemma FinalizedScreen(p: Page, run: RunId, now: Time)
    ensures Finalized(p, run, now).screen == p.screen
  {
  }

  lemma SettledScreen(p: Page, run: RunId, o: Outcome, now: Time)
    requires run in p.requests
    ensures var r := p.requests[run];
            Settled(p, run, o, now).screen == if Counts(p, run, r, o) then ResolveRefresh(p.screen, o) else p.screen
  {
    FinalizedScreen(Applied(p.(requests := p.requests - {run}), run, p.requests[run], o, now), run, now);
  }

  /**
   An answer reaches the screen exactly when the page's token is still the one it was asked for and
   nothing newer came after it started: no reset, stop, invalidation, accepted snapshot, revocation or
   newer request.
   */
  lemma AnswerAppliesExactly(w: Watched, run: RunId, o: Outcome, now: Time)
    requires Invariant(w) && run in w.page.requests
    ensures var p := w.page;
            Shown(p.screen, Settled(p, run, o, now).screen, o, run !in w.barred && p.requests[run].token == p.token)
  {
    SettledScreen(w.page, run, o, now);
  }

  /**
   What an outcome leaves on screen if it counts: an answer replaces everything; a failure keeps the payload,
   reports its error, and reads as retrying exactly when there is a payload to keep.
   */
  predicate Shown(before: Screen, after: Screen, o: Outcome, counts: bool) {
    && (counts && o.Answer? ==> after.info == Some(o.info) && after.error.None? && !after.retrying)
    && (counts && o.Failure? ==> after.info == before.info && after.error == Some(o.error)
                                 && (after.retrying <==> before.info.Some?))
    && (!counts || o.Aborted? ==> after == before)
  }

  /** A payload that is on screen goes only with a reset or a revoked token; a failure never blanks the page. */
  lemma PayloadGoesOnlyBy(p: Page, e: Step, now: Time)
    requires p.screen.info.Some? && After(p, e, now).screen.info.None?
    ensures e.ResetPage? || (e.StreamUnauthorized? && e.gen == p.stream.generation)
  {
    if e.Settle? && e.run in p.requests { SettledScreen(p, e.run, e.outcome, now); }
  }

  /** A superseded request's answer and finalizer change nothing. */
  lemma SupersededSettlesSilently(p: Page, run: RunId, o: Outcome, now: Time)
    requires run in p.requests && run != p.run
    ensures Settled(p, run, o, now) == p.(requests := p.requests - {run})
  {
  }

  /** A refresh asked for meanwhile runs the moment the live request settles. */
  lemma QueuedRunsAtOnce(p: Page, o: Outcome, now: Time)
    requires OneLiveRequest(p) && p.queued
    ensures var q := Settled(p, p.run, o, now);
            q.inFlight && !q.queued && q.run == p.run + 1 && q.run in q.requests && q.requests[q.run].token == p.token
  {
  }

  /**
   The poll, exactly: armed while started, shown and with something on screen; after a second while the
   account is active with a device or a node still pending, within two minutes of that being seen first,
   and after fifteen seconds otherwise.
   */
  lemma PollIsExact(p: Page, now: Time)
    ensures var q := Scheduled(p, now);
            var pending := p.screen.info.Some? && !p.screen.info.value.blocked && p.screen.info.value.active
                && exists d | d in p.screen.info.value.devices :: d.pending || false in d.nodesReady;
            var since := if p.pendingSince.Some? then p.pendingSince.value else now;
            && (q.timer.Some? <==> p.started && !p.hidden && (p.screen.info.Some? || p.screen.error.Some?))
            && (q.timer.Some? ==> && (q.timer.value.fast <==> pending && now - since < 120000)
                                  && q.timer.value.due == now + if q.timer.value.fast then 1000 else 15000)
            && (p.started && p.screen.info.Some? ==> q.pendingSince == if pending then Some(since) else None)
  {
  }
}
