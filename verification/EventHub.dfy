/**
 The hub that fans notifications out to open streams: one shared coalescing timer per user, and one
 slot per stream that both the hub and the stream's own ticker write into. Times are integers; the
 coalescing window is a parameter.
 */
module EventHub {
  import opened Options

  type User = nat
  type Time = int

  datatype Reason = DeviceCreated | DeviceDeleted | NodeSync | NodeHeartbeat

  /** Only heartbeats are coalesced. */
  predicate Coalesced(r: Reason) {
    r.NodeHeartbeat?
  }

  datatype Sub = Sub(user: User, id: nat)
  datatype Item = Changed(reason: Reason) | Tick | Terminated
  datatype Timer = Timer(due: Time, reason: Reason)
  datatype Fanout = Fanout(subs: seq<Sub>, last: Option<Time>, trailing: Option<Timer>)

  datatype Hub = Hub(fanouts: map<User, Fanout>, slots: map<Sub, Option<Item>>, stopping: bool)

  // --- what each operation does ----------------------------------------------

  /** A full slot keeps what it holds. */
  function Offered(slot: Option<Item>, item: Item): Option<Item> {
    if slot.None? then Some(item) else slot
  }

  function Delivered(h: Hub, u: User, reason: Reason, now: Time): Hub
    requires u in h.fanouts
  {
    var f := h.fanouts[u];
    h.(fanouts := h.fanouts[u := f.(last := Some(now), trailing := None)],
       slots := map s | s in h.slots :: if s in f.subs then Offered(h.slots[s], Changed(reason)) else h.slots[s])
  }

  /** Whether a notification goes out at once. */
  predicate AtOnce(f: Fanout, reason: Reason, now: Time, window: nat) {
    !Coalesced(reason) || f.last.None? || now - f.last.value >= window
  }

  function Notified(h: Hub, u: User, reason: Reason, now: Time, window: nat): Hub {
    if u !in h.fanouts then h
    else
      var f := h.fanouts[u];
      if AtOnce(f, reason, now, window) then Delivered(h, u, reason, now)
      else if f.trailing.None? then
        h.(fanouts := h.fanouts[u := f.(trailing := Some(Timer(now + (window - (now - f.last.value)), reason)))])
      else h
  }

  predicate TimerDue(h: Hub, u: User, now: Time) {
    u in h.fanouts && h.fanouts[u].trailing.Some? && h.fanouts[u].trailing.value.due <= now
  }

  function Fired(h: Hub, u: User, now: Time): Hub {
    if TimerDue(h, u, now) then Delivered(h, u, h.fanouts[u].trailing.value.reason, now) else h
  }

  predicate IsOpen(h: Hub, s: Sub) {
    s.user in h.fanouts && s in h.fanouts[s.user].subs
  }

  function OpenSubs(h: Hub): set<Sub> {
    set s | s in h.slots && IsOpen(h, s)
  }

  datatype SubscribeError = StreamsStopped | LimitExceeded

  function SubscribeRefused(h: Hub, max: nat): Option<SubscribeError> {
    if h.stopping then Some(StreamsStopped) else if |OpenSubs(h)| >= max then Some(LimitExceeded) else None
  }

  function Admitted(h: Hub, s: Sub): Hub {
    var f := if s.user in h.fanouts then h.fanouts[s.user] else Fanout([], None, None);
    h.(fanouts := h.fanouts[s.user := f.(subs := f.subs + [s])], slots := h.slots[s := None])
  }

  function Subscribed(h: Hub, s: Sub, max: nat): Hub {
    if SubscribeRefused(h, max).Some? then h else Admitted(h, s)
  }

  function Without(subs: seq<Sub>, s: Sub): seq<Sub> {
    if subs == [] then []
    else if subs[0] == s then subs[1..]
    else [subs[0]] + Without(subs[1..], s)
  }

  /** A user's last stream takes the user's timer with it. */
  function Unsubscribed(h: Hub, s: Sub): Hub {
    var slots := h.slots - {s};
    if s.user !in h.fanouts then h.(slots := slots)
    else
      var f := h.fanouts[s.user];
      var subs := Without(f.subs, s);
      if subs == [] then h.(fanouts := h.fanouts - {s.user}, slots := slots)
      else h.(fanouts := h.fanouts[s.user := f.(subs := subs)], slots := slots)
  }

  function Stopped(h: Hub): Hub {
    Hub(map[], map s | s in h.slots :: if s in OpenSubs(h) then Some(Terminated) else h.slots[s], true)
  }

  /** The stream's ticker, through the same slot. */
  function Ticked(h: Hub, s: Sub): Hub {
    if s in h.slots then h.(slots := h.slots[s := Offered(h.slots[s], Tick)]) else h
  }

  function Read(h: Hub, s: Sub): Hub {
    if s in h.slots then h.(slots := h.slots[s := None]) else h
  }

  // --- runs -----------------------------------------------------------------

  datatype Event =
    | Subscribe(sub: Sub)
    | Unsubscribe(sub: Sub)
    | Notify(user: User, reason: Reason)
    | Fire(user: User)
    | TickerEnds(sub: Sub)
    | StreamReads(sub: Sub)
    | Stop
    | Restart

  /**
   The hub with what an observer remembers: users notified since their last delivery, streams that had
   a delivery since they last read a change, and those whose last delivery found only their own tick.
   */
  datatype Trace = Trace(hub: Hub, owedUsers: set<User>, owedSubs: set<Sub>, missed: set<Sub>, now: Time)

  function AfterEvent(h: Hub, e: Event, now: Time, window: nat, max: nat): Hub {
    match e
    case Subscribe(s) => Subscribed(h, s, max)
    case Unsubscribe(s) => Unsubscribed(h, s)
    case Notify(u, reason) => Notified(h, u, reason, now, window)
    case Fire(u) => Fired(h, u, now)
    case TickerEnds(s) => Ticked(h, s)
    case StreamReads(s) => Read(h, s)
    case Stop => Stopped(h)
    case Restart => h.(stopping := false)
  }

  /** The user whose streams an event delivers to. */
  function DeliversTo(h: Hub, e: Event, now: Time, window: nat): Option<User> {
    match e
    case Notify(u, reason) => if u in h.fanouts && AtOnce(h.fanouts[u], reason, now, window) then Some(u) else None
    case Fire(u) => if TimerDue(h, u, now) then Some(u) else None
    case _ => None
  }

  function Receivers(h: Hub, e: Event, now: Time, window: nat): set<Sub> {
    var u := DeliversTo(h, e, now, window);
    if u.None? || u.value !in h.fanouts then {} else set s | s in h.fanouts[u.value].subs
  }

  function Observed(t: Trace, e: Event, now: Time, window: nat, max: nat): Trace {
    var h := AfterEvent(t.hub, e, now, window, max);
    var u := DeliversTo(t.hub, e, now, window);
    var got := Receivers(t.hub, e, now, window);
    var readChange := if e.StreamReads? && e.sub in t.hub.slots && t.hub.slots[e.sub].Some?
        && t.hub.slots[e.sub].value.Changed?
                      then {e.sub} else {};
    var open := OpenSubs(h);
    Trace(h,
          (if u.Some? then t.owedUsers - {u.value}
           else if e.Notify? && e.user in t.hub.fanouts then t.owedUsers + {e.user}
           else t.owedUsers) * h.fanouts.Keys,
          (t.owedSubs - readChange + got) * open,
          (t.missed + (set s | s in got && s in t.hub.slots && t.hub.slots[s] == Some(Tick))
           - (set s | s in got && s in t.hub.slots && t.hub.slots[s] == None)) * open,
          now)
  }

  predicate Fresh(h: Hub, e: Event) {
    e.Subscribe? ==> e.sub !in h.slots
  }

  // --- the invariant --------------------------------------------------------

  predicate Distinct(subs: seq<Sub>) {
    forall i, j | 0 <= i < j < |subs| :: subs[i] != subs[j]
  }

  /** One timer per user at most, armed for the end of the window exactly while a delivery is owed. */
  ghost predicate TimersOk(t: Trace, window: nat) {
    && t.owedUsers <= t.hub.fanouts.Keys
    && forall u | u in t.hub.fanouts ::
         var f := t.hub.fanouts[u];
         && (f.last.Some? ==> f.last.value <= t.now)
         && (f.trailing.Some? <==> u in t.owedUsers)
         && (f.trailing.Some? ==> f.last.Some? && f.trailing.value == Timer(f.last.value + window, NodeHeartbeat))
  }

  ghost predicate StreamsOk(h: Hub) {
    && (forall u | u in h.fanouts :: h.fanouts[u].subs != [] && Distinct(h.fanouts[u].subs))
    && (forall u, s | u in h.fanouts && s in h.fanouts[u].subs ::
          s.user == u && s in h.slots && h.slots[s] != Some(Terminated))
  }

  predicate HoldsChange(h: Hub, s: Sub) {
    s in h.slots && h.slots[s].Some? && h.slots[s].value.Changed?
  }

  /** A stream is owed a change exactly when its slot holds one, or its own tick kept the last one out. */
  ghost predicate SlotsOk(t: Trace) {
    && t.owedSubs <= OpenSubs(t.hub) && t.missed <= OpenSubs(t.hub)
    && forall s | s in OpenSubs(t.hub) :: SlotOk(t, s)
  }

  predicate SlotOk(t: Trace, s: Sub) {
    && (s in t.owedSubs <==> HoldsChange(t.hub, s) || s in t.missed)
    && !(HoldsChange(t.hub, s) && s in t.missed)
  }

  ghost predicate Invariant(t: Trace, window: nat) {
    TimersOk(t, window) && StreamsOk(t.hub) && SlotsOk(t)
  }

  lemma {:induction false} WithoutIsRest(subs: seq<Sub>, s: Sub)
    requires Distinct(subs)
    ensures Distinct(Without(subs, s)) && forall x :: x in Without(subs, s) <==> x in subs && x != s
  {
    if subs != [] {
      assert subs == [subs[0]] + subs[1..];
      assert Distinct(subs[1..]) by {
        forall i, j | 0 <= i < j < |subs[1..]|
          ensures subs[1..][i] != subs[1..][j]
        {
          assert subs[i + 1] != subs[j + 1];
        }
      }
      assert subs[0] !in subs[1..] by {
        forall i | 0 <= i < |subs[1..]| ensures subs[1..][i] != subs[0] { assert subs[1..][i] == subs[i + 1]; }
      }
      WithoutIsRest(subs[1..], s);
    }
  }

  lemma AdmittedStreams(h: Hub, s: Sub)
    requires StreamsOk(h) && s !in h.slots
    ensures StreamsOk(Admitted(h, s))
  {
    assert s.user in h.fanouts ==> s !in h.fanouts[s.user].subs;
  }

  lemma AdmittedSubs(h: Hub, s: Sub)
    requires s !in h.slots
    ensures OpenSubs(Admitted(h, s)) == OpenSubs(h) + {s}
  {
    var r := Admitted(h, s);
    assert r.fanouts[s.user].subs[|r.fanouts[s.user].subs| - 1] == s;
    forall x | x != s && x in h.slots ensures IsOpen(r, x) == IsOpen(h, x) {}
  }

  lemma UnsubscribeKeepsStreams(h: Hub, s: Sub)
    requires StreamsOk(h)
    ensures StreamsOk(Unsubscribed(h, s)) && OpenSubs(Unsubscribed(h, s)) == OpenSubs(h) - {s}
  {
    var r := Unsubscribed(h, s);
    if s.user in h.fanouts {
      var f := h.fanouts[s.user];
      WithoutIsRest(f.subs, s);
      assert forall x | x in f.subs :: x == s || x in Without(f.subs, s);
    }
    forall x | x != s && x in h.slots ensures IsOpen(r, x) == IsOpen(h, x) {}
  }

  lemma SameSubs(h: Hub, r: Hub)
    requires r.fanouts.Keys == h.fanouts.Keys && forall u | u in h.fanouts :: r.fanouts[u].subs == h.fanouts[u].subs
    requires r.slots.Keys == h.slots.Keys
    ensures OpenSubs(r) == OpenSubs(h)
  {
  }

  lemma DeliveryKeepsStreams(h: Hub, u: User, reason: Reason, now: Time)
    requires StreamsOk(h) && u in h.fanouts
    ensures StreamsOk(Delivered(h, u, reason, now)) && OpenSubs(Delivered(h, u, reason, now)) == OpenSubs(h)
  {
    SameSubs(h, Delivered(h, u, reason, now));
  }

  lemma SubscribeKeeps(t: Trace, s: Sub, now: Time, window: nat, max: nat)
    requires Invariant(t, window) && now >= t.now && Fresh(t.hub, Subscribe(s))
    ensures Invariant(Observed(t, Subscribe(s), now, window, max), window)
  {
    var r := Observed(t, Subscribe(s), now, window, max);
    if SubscribeRefused(t.hub, max).None? {
      AdmittedStreams(t.hub, s);
      AdmittedSubs(t.hub, s);
    }
    assert r.owedUsers == t.owedUsers && r.owedSubs == t.owedSubs && r.missed == t.missed;
    forall x | x in OpenSubs(r.hub) ensures SlotOk(r, x) {
      assert x in OpenSubs(t.hub) ==> SlotOk(t, x);
    }
  }

  lemma UnsubscribeKeeps(t: Trace, s: Sub, now: Time, window: nat, max: nat)
    requires Invariant(t, window) && now >= t.now
    ensures Invariant(Observed(t, Unsubscribe(s), now, window, max), window)
  {
    var r := Observed(t, Unsubscribe(s), now, window, max);
    UnsubscribeKeepsStreams(t.hub, s);
    assert r.owedSubs == t.owedSubs - {s} && r.missed == t.missed - {s};
    forall x | x in OpenSubs(r.hub) ensures SlotOk(r, x) { assert SlotOk(t, x); }
  }

  lemma DeliveryKeepsTimers(t: Trace, e: Event, now: Time, window: nat, max: nat)
    requires Invariant(t, window) && now >= t.now && (e.Notify? || e.Fire?)
    ensures TimersOk(Observed(t, e, now, window, max), window)
  {
  }

  lemma DeliveryKeepsSlots(t: Trace, e: Event, u: User, reason: Reason, now: Time, window: nat, max: nat)
    requires StreamsOk(t.hub) && SlotsOk(t) && (e.Notify? || e.Fire?)
    requires DeliversTo(t.hub, e, now, window) == Some(u) && u in t.hub.fanouts
    requires AfterEvent(t.hub, e, now, window, max) == Delivered(t.hub, u, reason, now)
    ensures SlotsOk(Observed(t, e, now, window, max))
  {
    var r := Observed(t, e, now, window, max);
    SameSubs(t.hub, r.hub);
    forall x | x in OpenSubs(r.hub) ensures SlotOk(r, x) { SlotAfterDelivery(t, e, u, reason, now, window, max, x); }
  }

  lemma SlotAfterDelivery(t: Trace, e: Event, u: User, reason: Reason, now: Time, window: nat, max: nat, x: Sub)
    requires StreamsOk(t.hub) && SlotsOk(t) && (e.Notify? || e.Fire?) && x in OpenSubs(t.hub)
    requires DeliversTo(t.hub, e, now, window) == Some(u) && u in t.hub.fanouts
    requires AfterEvent(t.hub, e, now, window, max) == Delivered(t.hub, u, reason, now)
    requires x in OpenSubs(Delivered(t.hub, u, reason, now))
    ensures SlotOk(Observed(t, e, now, window, max), x)
  {
    assert SlotOk(t, x) && t.hub.slots[x] != Some(Terminated);
    assert x in Receivers(t.hub, e, now, window) <==> x.user == u;
  }

  lemma DeliveryKeeps(t: Trace, e: Event, now: Time, window: nat, max: nat)
    requires Invariant(t, window) && now >= t.now && (e.Notify? || e.Fire?)
    ensures Invariant(Observed(t, e, now, window, max), window)
  {
    var r := Observed(t, e, now, window, max);
    var u := DeliversTo(t.hub, e, now, window);
    DeliveryKeepsTimers(t, e, now, window, max);
    if u.Some? {
      var reason := if e.Notify? then e.reason else t.hub.fanouts[e.user].trailing.value.reason;
      DeliveryKeepsStreams(t.hub, u.value, reason, now);
      DeliveryKeepsSlots(t, e, u.value, reason, now, window, max);
    } else {
      SameSubs(t.hub, r.hub);
      assert r.owedSubs == t.owedSubs && r.missed == t.missed;
      forall x | x in OpenSubs(r.hub) ensures SlotOk(r, x) { assert SlotOk(t, x); }
    }
  }

  lemma SlotEventKeeps(t: Trace, e: Event, now: Time, window: nat, max: nat)
    requires Invariant(t, window) && now >= t.now && (e.TickerEnds? || e.StreamReads? || e.Stop? || e.Restart?)
    ensures Invariant(Observed(t, e, now, window, max), window)
  {
    var r := Observed(t, e, now, window, max);
    if !e.Stop? {
      SameSubs(t.hub, r.hub);
      forall x | x in OpenSubs(r.hub) ensures SlotOk(r, x) { assert SlotOk(t, x); }
    }
  }

  lemma EventKeeps(t: Trace, e: Event, now: Time, window: nat, max: nat)
    requires Invariant(t, window) && now >= t.now && Fresh(t.hub, e)
    ensures Invariant(Observed(t, e, now, window, max), window)
  {
    match e
    case Subscribe(s) => SubscribeKeeps(t, s, now, window, max);
    case Unsubscribe(s) => UnsubscribeKeeps(t, s, now, window, max);
    case Notify(_, _) => DeliveryKeeps(t, e, now, window, max);
    case Fire(_) => DeliveryKeeps(t, e, now, window, max);
    case _ => SlotEventKeeps(t, e, now, window, max);
  }

  // --- what every run has ---------------------------------------------------

  function RunHub(t: Trace, events: seq<Event>, times: seq<Time>, window: nat, max: nat): Trace
    requires |events| == |times|
  {
    if events == [] then t
    else
      var n := |events| - 1;
      Observed(RunHub(t, events[..n], times[..n], window, max), events[n], times[n], window, max)
  }

  ghost predicate PossibleRun(t: Trace, events: seq<Event>, times: seq<Time>, window: nat, max: nat)
    requires |events| == |times|
  {
    forall n | 0 <= n < |events| ::
      var before := RunHub(t, events[..n], times[..n], window, max);
      Fresh(before.hub, events[n]) && times[n] >= before.now
  }

  lemma PossibleBefore(t: Trace, events: seq<Event>, times: seq<Time>, window: nat, max: nat)
    requires |events| == |times| && events != [] && PossibleRun(t, events, times, window, max)
    ensures var n := |events| - 1;
            var before := RunHub(t, events[..n], times[..n], window, max);
            && PossibleRun(t, events[..n], times[..n], window, max)
            && Fresh(before.hub, events[n]) && times[n] >= before.now
  {
    var n := |events| - 1;
    forall m | 0 <= m < n
      ensures Fresh(RunHub(t, events[..n][..m], times[..n][..m], window, max).hub, events[..n][m])
      ensures times[..n][m] >= RunHub(t, events[..n][..m], times[..n][..m], window, max).now
    {
      assert events[..n][..m] == events[..m] && times[..n][..m] == times[..m];
    }
  }

  /** In every reachable state the timers, the streams and the slots are as the invariant says. */
  lemma {:induction false} RunKeepsInvariant(t: Trace, events: seq<Event>, times: seq<Time>, window: nat, max: nat)
    requires |events| == |times| && Invariant(t, window) && PossibleRun(t, events, times, window, max)
    ensures Invariant(RunHub(t, events, times, window, max), window)
  {
    if events != [] {
      var n := |events| - 1;
      PossibleBefore(t, events, times, window, max);
      RunKeepsInvariant(t, events[..n], times[..n], window, max);
      EventKeeps(RunHub(t, events[..n], times[..n], window, max), events[n], times[n], window, max);
    }
  }

  lemma EmptyHub(now: Time, window: nat)
    ensures Invariant(Trace(Hub(map[], map[], false), {}, {}, {}, now), window)
  {
  }

  /** A delivery that a heartbeat causes, at once or by the timer, comes a window after the last one. */
  lemma HeartbeatsAreSpaced(t: Trace, e: Event, now: Time, window: nat)
    requires Invariant(t, window) && DeliversTo(t.hub, e, now, window).Some?
    requires e.Fire? || (e.Notify? && e.reason.NodeHeartbeat?)
    ensures var f := t.hub.fanouts[e.user]; f.last.Some? ==> now >= f.last.value + window
  {
  }

  /** A stream is opened exactly if the hub is not stopping and has fewer open ones than the limit. */
  lemma SubscribeOpensExactly(h: Hub, s: Sub, max: nat)
    requires StreamsOk(h) && s !in h.slots
    ensures var r := Subscribed(h, s, max);
            if h.stopping || |OpenSubs(h)| >= max then r == h
            else OpenSubs(r) == OpenSubs(h) + {s} && r.slots == h.slots[s := None]
  {
    AdmittedSubs(h, s);
  }

  lemma EventBounds(t: Trace, e: Event, now: Time, window: nat, max: nat)
    requires Invariant(t, window) && Fresh(t.hub, e) && |OpenSubs(t.hub)| <= max
    ensures |OpenSubs(AfterEvent(t.hub, e, now, window, max))| <= max
  {
    var h, r := t.hub, AfterEvent(t.hub, e, now, window, max);
    match e
    case Subscribe(s) => AdmittedSubs(h, s);
    case Unsubscribe(s) =>
      UnsubscribeKeepsStreams(h, s);
      Fewer(OpenSubs(r), OpenSubs(h));
    case Stop => assert OpenSubs(r) == {};
    case _ => OtherEventsKeepSubs(h, e, now, window, max);
  }

  lemma NotifiedKeepsSubs(h: Hub, u: User, reason: Reason, now: Time, window: nat)
    ensures OpenSubs(Notified(h, u, reason, now, window)) == OpenSubs(h)
    ensures OpenSubs(Fired(h, u, now)) == OpenSubs(h)
  {
    if u in h.fanouts {
      SameSubs(h, Notified(h, u, reason, now, window));
      SameSubs(h, Fired(h, u, now));
    }
  }

  lemma OtherEventsKeepSubs(h: Hub, e: Event, now: Time, window: nat, max: nat)
    requires !e.Subscribe? && !e.Unsubscribe? && !e.Stop?
    ensures OpenSubs(AfterEvent(h, e, now, window, max)) == OpenSubs(h)
  {
    if e.Notify? { NotifiedKeepsSubs(h, e.user, e.reason, now, window); }
    else if e.Fire? { NotifiedKeepsSubs(h, e.user, NodeHeartbeat, now, window); }
    else { SameSubs(h, AfterEvent(h, e, now, window, max)); }
  }

  lemma Fewer(a: set<Sub>, b: set<Sub>)
    requires a <= b
    ensures |a| <= |b|
  {
    assert b == a + (b - a);
  }

  /** In every run there are never more open streams than the limit. */
  lemma {:induction false} StreamsAreBounded(t: Trace, events: seq<Event>, times: seq<Time>, window: nat, max: nat)
    requires |events| == |times| && Invariant(t, window) && PossibleRun(t, events, times, window, max)
    requires |OpenSubs(t.hub)| <= max
    ensures |OpenSubs(RunHub(t, events, times, window, max).hub)| <= max
  {
    if events != [] {
      var n := |events| - 1;
      PossibleBefore(t, events, times, window, max);
      StreamsAreBounded(t, events[..n], times[..n], window, max);
      RunKeepsInvariant(t, events[..n], times[..n], window, max);
      EventBounds(RunHub(t, events[..n], times[..n], window, max), events[n], times[n], window, max);
    }
  }

  /**
   A heartbeat goes out at once exactly if none did within the window; otherwise it waits, with all others
   of the window, for the one timer at the end of it.
   */
  lemma HeartbeatGoesExactly(t: Trace, u: User, now: Time, window: nat, max: nat)
    requires Invariant(t, window) && u in t.hub.fanouts
    ensures var r, before := Observed(t, Notify(u, NodeHeartbeat), now, window, max), t.hub.fanouts[u];
            && u in r.hub.fanouts && r.hub.fanouts[u].subs == before.subs
            && if before.last.None? || now - before.last.value >= window
               then r.hub.fanouts[u].last == Some(now) && r.hub.fanouts[u].trailing.None? && u !in r.owedUsers
               else && r.hub.fanouts[u].last == before.last && r.hub.slots == t.hub.slots && u in r.owedUsers
                    && r.hub.fanouts[u].trailing == Some(Timer(before.last.value + window, NodeHeartbeat))
  {
  }

  /** The timer, when it is due, delivers what waited; before that it does nothing. */
  lemma TimerDelivers(t: Trace, u: User, now: Time, window: nat, max: nat)
    requires Invariant(t, window) && u in t.hub.fanouts
    ensures var r, before := Observed(t, Fire(u), now, window, max), t.hub.fanouts[u];
            if before.trailing.Some? && before.trailing.value.due <= now
            then && u in r.hub.fanouts && r.hub.fanouts[u].last == Some(now) && r.hub.fanouts[u].trailing.None?
                 && u !in r.owedUsers
            else r.hub == t.hub
  {
  }

  /** A notification touches the slots of its own user's streams alone. */
  lemma OthersHearNothing(t: Trace, u: User, reason: Reason, now: Time, window: nat, max: nat, s: Sub)
    requires Invariant(t, window) && s in t.hub.slots && s.user != u
    ensures var r := Observed(t, Notify(u, reason), now, window, max);
            s in r.hub.slots && r.hub.slots[s] == t.hub.slots[s]
  {
  }

  /** Any other reason goes out at once, and takes a waiting timer with it. */
  lemma OtherReasonsGoAtOnce(t: Trace, u: User, reason: Reason, now: Time, window: nat, max: nat)
    requires !reason.NodeHeartbeat? && u in t.hub.fanouts
    ensures var r := Observed(t, Notify(u, reason), now, window, max);
            r.hub.fanouts[u].last == Some(now) && r.hub.fanouts[u].trailing.None? && u !in r.owedUsers
  {
  }

  /** Right after a delivery no open stream of the user has an empty slot. */
  lemma DeliveryFillsSlots(t: Trace, e: Event, now: Time, window: nat, max: nat, s: Sub)
    requires Invariant(t, window) && DeliversTo(t.hub, e, now, window) == Some(s.user) && s in OpenSubs(t.hub)
    ensures var r := Observed(t, e, now, window, max);
            && s in OpenSubs(r.hub) && r.hub.slots[s].Some?
            && (HoldsChange(r.hub, s) <==> t.hub.slots[s] != Some(Tick))
            && (s in r.missed <==> t.hub.slots[s] == Some(Tick))
  {
    assert s in Receivers(t.hub, e, now, window);
    assert SlotOk(t, s) && t.hub.slots[s] != Some(Terminated);
    SameSubs(t.hub, AfterEvent(t.hub, e, now, window, max));
  }

  /** Only the stream itself takes the end marker away. */
  lemma EndMarkerStays(h: Hub, e: Event, now: Time, window: nat, max: nat, s: Sub)
    requires s in h.slots && h.slots[s] == Some(Terminated) && Fresh(h, e)
    requires e != StreamReads(s) && e != Unsubscribe(s)
    ensures var r := AfterEvent(h, e, now, window, max); s in r.slots && r.slots[s] == Some(Terminated)
  {
  }

  lemma {:induction false} EndMarkerStaysInRuns(t: Trace, events: seq<Event>, times: seq<Time>, window: nat,
                                                max: nat, s: Sub)
    requires |events| == |times| && PossibleRun(t, events, times, window, max)
    requires s in t.hub.slots && t.hub.slots[s] == Some(Terminated)
    requires StreamReads(s) !in events && Unsubscribe(s) !in events
    ensures var r := RunHub(t, events, times, window, max).hub; s in r.slots && r.slots[s] == Some(Terminated)
  {
    if events != [] {
      var n := |events| - 1;
      assert events[n] in events && forall e | e in events[..n] :: e in events;
      PossibleBefore(t, events, times, window, max);
      EndMarkerStaysInRuns(t, events[..n], times[..n], window, max, s);
      EndMarkerStays(RunHub(t, events[..n], times[..n], window, max).hub, events[n], times[n], window, max, s);
    }
  }

  /** After `stop` every stream that was open finds the end marker when it reads next, whatever happens until then. */
  lemma StopEndsStreams(t: Trace, now: Time, events: seq<Event>, times: seq<Time>, window: nat, max: nat, s: Sub)
    requires s in OpenSubs(t.hub) && |events| == |times|
    requires PossibleRun(Observed(t, Stop, now, window, max), events, times, window, max)
    requires StreamReads(s) !in events && Unsubscribe(s) !in events
    ensures var r := RunHub(Observed(t, Stop, now, window, max), events, times, window, max).hub;
            s in r.slots && r.slots[s] == Some(Terminated)
  {
    EndMarkerStaysInRuns(Observed(t, Stop, now, window, max), events, times, window, max, s);
  }

  /**
   A wake-up is lost: the stream's own tick sits in the slot, the delivery is
   dropped, and after the tick is read nothing is waiting although a change was announced.
   */
  lemma TickHidesDelivery(t: Trace, s: Sub, reason: Reason, now: Time, window: nat, max: nat)
    requires Invariant(t, window) && s in OpenSubs(t.hub) && t.hub.slots[s] == Some(Tick) && !reason.NodeHeartbeat?
    ensures var r := Observed(Observed(t, Notify(s.user, reason), now, window, max), StreamReads(s), now, window, max);
            s in r.owedSubs && r.hub.slots[s].None? && s.user !in r.owedUsers
  {
    var m := Observed(t, Notify(s.user, reason), now, window, max);
    DeliveryFillsSlots(t, Notify(s.user, reason), now, window, max, s);
    SameSubs(m.hub, Read(m.hub, s));
  }

  function EmptyAt(now: Time): Trace {
    Trace(Hub(map[], map[], false), {}, {}, {}, now)
  }

  lemma RunExtends(t: Trace, events: seq<Event>, times: seq<Time>, e: Event, now: Time, window: nat, max: nat)
    requires |events| == |times| && PossibleRun(t, events, times, window, max)
    requires Fresh(RunHub(t, events, times, window, max).hub, e) && now >= RunHub(t, events, times, window, max).now
    ensures PossibleRun(t, events + [e], times + [now], window, max)
    ensures RunHub(t, events + [e], times + [now], window, max)
              == Observed(RunHub(t, events, times, window, max), e, now, window, max)
  {
    var longer, later, n := events + [e], times + [now], |events|;
    assert longer[..n] == events && later[..n] == times;
    forall m | 0 <= m < n
      ensures Fresh(RunHub(t, longer[..m], later[..m], window, max).hub, longer[m])
      ensures later[m] >= RunHub(t, longer[..m], later[..m], window, max).now
    {
      assert longer[..m] == events[..m] && later[..m] == times[..m];
    }
  }

  lemma FirstStreamOpens(s: Sub, now: Time, window: nat, max: nat)
    requires max > 0
    ensures var t := Observed(EmptyAt(now), Subscribe(s), now, window, max);
            && Fresh(EmptyAt(now).hub, Subscribe(s)) && Invariant(t, window)
            && s in OpenSubs(t.hub) && t.hub.slots[s].None? && t.now == now
  {
    EmptyHub(now, window);
    assert OpenSubs(EmptyAt(now).hub) == {};
    EventKeeps(EmptyAt(now), Subscribe(s), now, window, max);
    AdmittedSubs(EmptyAt(now).hub, s);
  }

  lemma TickerFillsSlot(t: Trace, s: Sub, now: Time, window: nat, max: nat)
    requires Invariant(t, window) && s in OpenSubs(t.hub) && t.hub.slots[s].None? && t.now == now
    ensures var r := Observed(t, TickerEnds(s), now, window, max);
            && Fresh(t.hub, TickerEnds(s)) && Invariant(r, window)
            && s in OpenSubs(r.hub) && r.hub.slots[s] == Some(Tick) && r.now == now
  {
    EventKeeps(t, TickerEnds(s), now, window, max);
    SameSubs(t.hub, Observed(t, TickerEnds(s), now, window, max).hub);
  }

  lemma EmptyRun(now: Time, window: nat, max: nat)
    ensures PossibleRun(EmptyAt(now), [], [], window, max) && RunHub(EmptyAt(now), [], [], window, max) == EmptyAt(now)
  {
  }

  /** A new stream on an empty hub whose ticker ran out. */
  lemma TickInSlot(s: Sub, now: Time, window: nat, max: nat) returns (events: seq<Event>, times: seq<Time>)
    requires max > 0
    ensures |events| == |times| && PossibleRun(EmptyAt(now), events, times, window, max)
    ensures var t := RunHub(EmptyAt(now), events, times, window, max);
            Invariant(t, window) && s in OpenSubs(t.hub) && t.hub.slots[s] == Some(Tick) && t.now == now
  {
    FirstStreamOpens(s, now, window, max);
    EmptyRun(now, window, max);
    RunExtends(EmptyAt(now), [], [], Subscribe(s), now, window, max);
    TickerFillsSlot(Observed(EmptyAt(now), Subscribe(s), now, window, max), s, now, window, max);
    events, times := [] + [Subscribe(s)], [] + [now];
    RunExtends(EmptyAt(now), events, times, TickerEnds(s), now, window, max);
    events, times := events + [TickerEnds(s)], times + [now];
  }

  /** A stopped hub has no timers left and opens no stream until it is started again. */
  lemma StopRefusesNew(h: Hub, s: Sub, max: nat, u: User, reason: Reason, now: Time, window: nat)
    ensures var r := Stopped(h);
            && r.fanouts == map[] && Subscribed(r, s, max) == r && Notified(r, u, reason, now, window) == r
            && Fired(r, u, now) == r
  {
  }

  /** Such a state is reached from an empty hub: subscribe, let the ticker run out, notify, and read. */
  lemma TickHidesDeliveryReached(s: Sub, reason: Reason, now: Time, window: nat, max: nat)
    returns (events: seq<Event>, times: seq<Time>)
    requires max > 0 && !reason.NodeHeartbeat?
    ensures |events| == |times| && PossibleRun(EmptyAt(now), events, times, window, max)
    ensures var r := RunHub(EmptyAt(now), events, times, window, max);
            s in r.owedSubs && r.hub.slots[s].None? && s.user !in r.owedUsers
  {
    events, times := TickInSlot(s, now, window, max);
    var t := RunHub(EmptyAt(now), events, times, window, max);
    RunExtends(EmptyAt(now), events, times, Notify(s.user, reason), now, window, max);
    RunExtends(EmptyAt(now), events + [Notify(s.user, reason)], times + [now], StreamReads(s), now, window, max);
    TickHidesDelivery(t, s, reason, now, window, max);
    events, times := events + [Notify(s.user, reason)] + [StreamReads(s)], times + [now] + [now];
  }

  // --- the hub itself -------------------------------------------------------

  lemma {:induction false} DistinctCount(subs: seq<Sub>)
    requires Distinct(subs)
    ensures |set s | s in subs| == |subs|
  {
    if subs == [] {
      assert (set s | s in subs) == {};
    } else {
      var init, last := subs[..|subs| - 1], subs[|subs| - 1];
      DistinctCount(init);
      assert subs == init + [last] && last !in init;
      assert (set s | s in subs) == (set s | s in init) + {last};
    }
  }

  function OpenOf(h: Hub, us: set<User>): set<Sub> {
    set s | s in OpenSubs(h) && s.user in us
  }

  lemma OpenOneMore(h: Hub, us: set<User>, u: User)
    requires StreamsOk(h) && u in h.fanouts && u !in us
    ensures var mine := set s | s in h.fanouts[u].subs;
            OpenOf(h, us + {u}) == OpenOf(h, us) + mine && OpenOf(h, us) !! mine
  {
    var mine := set s | s in h.fanouts[u].subs;
    forall s ensures s in OpenOf(h, us + {u}) <==> s in OpenOf(h, us) || s in mine {
      assert s in mine <==> s in OpenSubs(h) && s.user == u;
    }
  }

  lemma CountOneMore(h: Hub, us: set<User>, u: User)
    requires StreamsOk(h) && u in h.fanouts && u !in us
    ensures |OpenOf(h, us + {u})| == |OpenOf(h, us)| + |h.fanouts[u].subs|
  {
    var mine := set s | s in h.fanouts[u].subs;
    DistinctCount(h.fanouts[u].subs);
    OpenOneMore(h, us, u);
  }

  /** The slots after offering an item to some streams. */
  function OfferedAll(slots: map<Sub, Option<Item>>, subs: seq<Sub>, item: Item): map<Sub, Option<Item>> {
    map s | s in slots :: if s in subs then Offered(slots[s], item) else slots[s]
  }

  class UserEventHub {
    const window: nat
    const max: nat
    var fanouts: map<User, Fanout>
    var slots: map<Sub, Option<Item>>
    var stopping: bool

    ghost function View(): Hub
      reads this
    {
      Hub(fanouts, slots, stopping)
    }

    constructor (window: nat, max: nat)
      ensures View() == Hub(map[], map[], false) && this.window == window && this.max == max
    {
      this.window, this.max := window, max;
      fanouts, slots, stopping := map[], map[], false;
    }

    method SubscriptionCount() returns (count: nat)
      requires StreamsOk(View())
      ensures count == |OpenSubs(View())|
    {
      count := 0;
      ghost var done: set<User> := {};
      var todo := fanouts.Keys;
      assert OpenOf(View(), done) == {};
      while todo != {}
        invariant todo + done == fanouts.Keys && todo !! done
        invariant count == |OpenOf(View(), done)|
        decreases todo
      {
        var u :| u in todo;
        CountOneMore(View(), done, u);
        count := count + |fanouts[u].subs|;
        todo, done := todo - {u}, done + {u};
      }
      assert OpenOf(View(), done) == OpenSubs(View());
    }

    /** The new stream's slot is empty; its identity is fresh. */
    method SubscribeStream(s: Sub) returns (refused: Option<SubscribeError>)
      requires StreamsOk(View()) && s !in slots
      modifies this
      ensures refused == SubscribeRefused(old(View()), max)
      ensures View() == Subscribed(old(View()), s, max)
    {
      if stopping { return Some(StreamsStopped); }
      var count := SubscriptionCount();
      if count >= max { return Some(LimitExceeded); }
      if s.user !in fanouts { fanouts := fanouts[s.user := Fanout([], None, None)]; }
      fanouts := fanouts[s.user := fanouts[s.user].(subs := fanouts[s.user].subs + [s])];
      slots := slots[s := None];
      refused := None;
    }

    method UnsubscribeStream(s: Sub)
      modifies this
      ensures View() == Unsubscribed(old(View()), s)
    {
      slots := slots - {s};
      if s.user !in fanouts { return; }
      var subs := Without(fanouts[s.user].subs, s);
      fanouts := fanouts[s.user := fanouts[s.user].(subs := subs)];
      if subs == [] { fanouts := fanouts - {s.user}; }
    }

    method Deliver(u: User, reason: Reason, now: Time)
      requires u in fanouts && forall s | s in fanouts[u].subs :: s in slots
      modifies this
      ensures View() == Delivered(old(View()), u, reason, now)
    {
      fanouts := fanouts[u := fanouts[u].(last := Some(now), trailing := None)];
      var subs := fanouts[u].subs;
      for i := 0 to |subs|
        invariant slots == OfferedAll(old(slots), subs[..i], Changed(reason))
        invariant unchanged(`stopping) && fanouts == Delivered(old(View()), u, reason, now).fanouts
      {
        assert subs[..i + 1] == subs[..i] + [subs[i]];
        if slots[subs[i]].None? { slots := slots[subs[i] := Some(Changed(reason))]; }
      }
      assert subs[..|subs|] == subs;
    }

    method FanOut(u: User, reason: Reason, now: Time)
      requires StreamsOk(View())
      modifies this
      ensures View() == Notified(old(View()), u, reason, now, window)
    {
      if u !in fanouts { return; }
      var f := fanouts[u];
      if !Coalesced(reason) || f.last.None? || now - f.last.value >= window {
        Deliver(u, reason, now);
        return;
      }
      if f.trailing.None? {
        var elapsed := now - f.last.value;
        fanouts := fanouts[u := f.(trailing := Some(Timer(now + (window - elapsed), reason)))];
      }
    }

    method FireTimer(u: User, now: Time)
      requires StreamsOk(View())
      modifies this
      ensures View() == Fired(old(View()), u, now)
    {
      if u in fanouts && fanouts[u].trailing.Some? && fanouts[u].trailing.value.due <= now {
        Deliver(u, fanouts[u].trailing.value.reason, now);
      }
    }

    /** Ends the stream now, whether or not it has an unread event. */
    method Terminate(s: Sub)
      requires s in slots
      modifies `slots
      ensures slots == old(slots)[s := Some(Terminated)]
    {
      slots := slots[s := None];
      if slots[s].None? { slots := slots[s := Some(Terminated)]; }
    }

    method StopStreams()
      requires StreamsOk(View())
      modifies this
      ensures View() == Stopped(old(View()))
    {
      stopping := true;
      ghost var h := old(View());
      ghost var done: set<User> := {};
      var todo := fanouts.Keys;
      while todo != {}
        invariant todo + done == fanouts.Keys && todo !! done && stopping && fanouts == h.fanouts
        invariant slots.Keys == h.slots.Keys
        invariant forall s | s in slots :: slots[s] == if s in OpenOf(h, done) then Some(Terminated) else h.slots[s]
        decreases todo
      {
        var u :| u in todo;
        var subs := fanouts[u].subs;
        for i := 0 to |subs|
          invariant slots.Keys == h.slots.Keys && fanouts == h.fanouts && stopping
          invariant forall s | s in slots ::
            slots[s] == if s in OpenOf(h, done) || s in subs[..i] then Some(Terminated) else h.slots[s]
        {
          assert subs[..i + 1] == subs[..i] + [subs[i]];
          Terminate(subs[i]);
        }
        assert subs[..|subs|] == subs;
        todo, done := todo - {u}, done + {u};
      }
      fanouts := map[];
      assert OpenOf(h, done) == OpenSubs(h);
    }
  }
}
