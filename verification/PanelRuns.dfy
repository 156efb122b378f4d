/**
 Runs of the panel: every transaction as one step, in any order and with any arguments, reports with
 any content included. Each step keeps what a committed state promises, so every run does.
 */
module PanelRuns {
  import opened Options
  import opened TrafficLedger
  import opened PanelModel
  import opened Devices
  import opened Lifecycle
  import opened NodeResults

  datatype Step =
    | CreateStep(user: UserId, device: DeviceId, key: Key, now: Time, psk: PeerKey -> Psk)
    | DeleteStep(device: DeviceId, now: Time)
    | EditStep(user: UserId, edit: LocalEdit, now: Time, psk: PeerKey -> Psk)
    | UpsertStep(user: UserId, data: Profile, now: Time, psk: PeerKey -> Psk)
    | ReconcileStep(missing: set<UserId>)
    | RequestDeleteStep(user: UserId)
    | AddUserStep(user: UserId, row: User)
    | RemoveUserStep(user: UserId)
    | SetDeviceLimitStep(user: UserId, limit: int)
    | AddNodeStep(node: NodeId, psk: PeerKey -> Psk)
    | RemoveNodeStep(node: NodeId)
    | SyncStep(node: NodeId, ok: bool, reports: seq<PeerReport>, now: Time, psk: PeerKey -> Psk)
    | HeartbeatStep(node: NodeId, ok: bool, reports: seq<PeerReport>, now: Time, psk: PeerKey -> Psk)

  /** Generated ids and keys are fresh; everything else is up to the caller. */
  predicate Enabled(p: Panel, s: Step) {
    match s
    case CreateStep(_, d, key, _, _) => FreshIdentity(p, d, key)
    case AddUserStep(u, row) => u !in p.users && row.profile.None?
    case AddNodeStep(n, _) => n !in p.nodes
    case _ => true
  }

  ghost function Apply(hosts: seq<Ip>, p: Panel, s: Step): Panel {
    match s
    case CreateStep(u, d, key, now, psk) =>
      (match CreateDevice(p, hosts, u, d, key, now, psk) case Ok(q) => q case Err(_) => p)
    case DeleteStep(d, now) => DeleteDevice(p, d, now)
    case EditStep(u, edit, now, psk) => EditLocal(p, u, edit, now, psk)
    case UpsertStep(u, data, now, psk) => UpsertRemote(p, u, data, now, psk)
    case ReconcileStep(missing) => PurgeConfirmed(MarkStale(p, missing))
    case RequestDeleteStep(u) => RequestDelete(p, u)
    case AddUserStep(u, row) => p.(users := p.users[u := row])
    case SetDeviceLimitStep(u, limit) =>
      if u in p.users && p.users[u].profile.None? then p.(users := p.users[u := p.users[u].(deviceLimit := limit)])
          else p
    case RemoveUserStep(u) => if u in p.users && p.users[u].profile.None? then RemoveUsers(p, {u}) else p
    case AddNodeStep(n, psk) => AddNode(p, n, psk)
    case RemoveNodeStep(n) => if n in p.nodes then RemoveNode(p, n) else p
    case SyncStep(n, ok, reports, now, psk) => SyncResult(p, n, ok, reports, now, psk)
    case HeartbeatStep(n, ok, reports, now, psk) => HeartbeatResult(p, n, ok, reports, now, psk)
  }

  ghost function Run(hosts: seq<Ip>, p: Panel, steps: seq<Step>): Panel {
    if steps == [] then p
    else Apply(hosts, Run(hosts, p, steps[..|steps| - 1]), steps[|steps| - 1])
  }

  ghost predicate Possible(hosts: seq<Ip>, p: Panel, steps: seq<Step>) {
    forall i | 0 <= i < |steps| :: Enabled(Run(hosts, p, steps[..i]), steps[i])
  }

  /** Steps whose reports came from a worker's dump. */
  predicate WorkerShaped(s: Step) {
    match s
    case SyncStep(_, _, reports, _, _) => FromDump(reports)
    case HeartbeatStep(_, _, reports, _, _) => FromDump(reports)
    case _ => true
  }

  lemma SameDevicesUnique(p: Panel, q: Panel)
    requires UniqueDevices(p) && q.devices == p.devices
    ensures UniqueDevices(q)
  {
    UniqueShrinks(p, q);
  }

  lemma SyncIsUnique(p: Panel, n: NodeId, ok: bool, reports: seq<PeerReport>, now: Time, psk: PeerKey -> Psk)
    requires Committed(p)
    ensures UniqueDevices(SyncResult(p, n, ok, reports, now, psk))
  {
    if ok && n in p.nodes {
      var a := ApplyReports(p, PeersOn(p, n), reports, now, psk);
      ApplyReportsKeeps(p, PeersOn(p, n), reports, now, psk);
      UniqueShrinks(p, SyncResult(p, n, ok, reports, now, psk));
    }
  }

  /** Committed again, history kept, and the two conditions that need reports from real dumps kept. */
  ghost predicate Keeps(p: Panel, q: Panel) {
    Committed(q) && HistoryKept(p, q)
        && (LivePeersHold(p) && RecyclingHolds(p) ==> LivePeersHold(q) && RecyclingHolds(q))
  }

  lemma ReconcileKeeps(p: Panel, missing: set<UserId>)
    requires Committed(p)
    ensures Keeps(p, PurgeConfirmed(MarkStale(p, missing)))
  {
    var m := MarkStale(p, missing);
    MarkStaleKeeps(p, missing);
    RemoveUsersKeeps(m, set u | u in m.users && PurgeDue(m, u));
    HistoryChains(p, m, PurgeConfirmed(m));
    UniqueShrinks(p, PurgeConfirmed(m));
  }

  lemma AddUserKeeps(p: Panel, u: UserId, row: User)
    requires Committed(p) && u !in p.users
    ensures Keeps(p, p.(users := p.users[u := row])) && ConfirmsNothing(p, p.(users := p.users[u := row]))
  {
    var q := p.(users := p.users[u := row]);
    StoreUserKeeps(p, u, row);
    SameDevicesUnique(p, q);
  }

  lemma SameRowsKeep(p: Panel, q: Panel)
    requires Committed(p) && KeepsPanel(p, q)
    ensures Keeps(p, q)
  {
    SameDevicesUnique(p, q);
  }

  lemma RemovedUserKeeps(p: Panel, u: UserId)
    requires Committed(p)
    ensures Keeps(p, RemoveUsers(p, {u}))
  {
    RemoveUsersKeeps(p, {u});
    UniqueShrinks(p, RemoveUsers(p, {u}));
  }

  lemma RemoveUserStepKeeps(hosts: seq<Ip>, p: Panel, u: UserId)
    requires Committed(p)
    ensures Keeps(p, Apply(hosts, p, RemoveUserStep(u)))
  {
    RemovedUserKeeps(p, u);
    SamePanelKeeps(p);
  }

  lemma RemoveNodeStepKeeps(hosts: seq<Ip>, p: Panel, n: NodeId)
    requires Committed(p)
    ensures Keeps(p, Apply(hosts, p, RemoveNodeStep(n)))
  {
    RemoveNodeKeeps(p, n);
    SamePanelKeeps(p);
  }

  lemma SamePanelKeeps(p: Panel)
    requires Committed(p)
    ensures Keeps(p, p)
  {
  }

  /** What takes rows away, or confirms that peers are gone. */
  predicate Removes(s: Step) {
    s.SyncStep? || s.ReconcileStep? || s.RemoveUserStep? || s.RemoveNodeStep?
  }

  lemma AccountStepKeeps(hosts: seq<Ip>, p: Panel, s: Step)
    requires Committed(p) && Enabled(p, s)
    requires s.EditStep? || s.UpsertStep? || s.ReconcileStep? || s.RequestDeleteStep? || s.AddUserStep?
              || s.SetDeviceLimitStep?
    ensures Keeps(p, Apply(hosts, p, s))
    ensures !s.ReconcileStep? ==> ConfirmsNothing(p, Apply(hosts, p, s))
  {
    var q := Apply(hosts, p, s);
    match s
    case EditStep(u, edit, now, psk) => EditLocalKeeps(p, u, edit, now, psk); SameRowsKeep(p, q);
    case UpsertStep(u, data, now, psk) => UpsertRemoteKeeps(p, u, data, now, psk); SameRowsKeep(p, q);
    case ReconcileStep(missing) => ReconcileKeeps(p, missing);
    case RequestDeleteStep(u) => RequestDeleteKeeps(p, u); SameRowsKeep(p, q);
    case AddUserStep(u, row) => AddUserKeeps(p, u, row);
    case SetDeviceLimitStep(u, limit) =>
      if u in p.users && p.users[u].profile.None? {
        StoreUserKeeps(p, u, q.users[u]);
        SameRowsKeep(p, q);
      }
  }

  lemma DeviceStepKeeps(hosts: seq<Ip>, p: Panel, s: Step)
    requires Committed(p) && Enabled(p, s)
    requires s.CreateStep? || s.DeleteStep? || s.AddNodeStep?
    ensures Keeps(p, Apply(hosts, p, s)) && ConfirmsNothing(p, Apply(hosts, p, s))
  {
    match s
    case CreateStep(u, d, key, now, psk) =>
      if CreateDevice(p, hosts, u, d, key, now, psk).Ok? { CreatedDevice(p, hosts, u, d, key, now, psk); }
    case DeleteStep(d, now) => DeleteDeviceKeeps(p, d, now);
    case AddNodeStep(n, psk) => AddNodeKeeps(p, n, psk); SameDevicesUnique(p, AddNode(p, n, psk));
  }

  lemma ReportStepKeeps(hosts: seq<Ip>, p: Panel, s: Step)
    requires Committed(p) && (s.SyncStep? || s.HeartbeatStep?)
    ensures Committed(Apply(hosts, p, s)) && HistoryKept(p, Apply(hosts, p, s))
    ensures WorkerShaped(s) ==> Keeps(p, Apply(hosts, p, s))
    ensures s.HeartbeatStep? && WorkerShaped(s) ==> ConfirmsNothing(p, Apply(hosts, p, s))
  {
    match s
    case SyncStep(n, ok, reports, now, psk) =>
      SyncResultKeeps(p, n, ok, reports, now, psk);
      SyncIsUnique(p, n, ok, reports, now, psk);
    case HeartbeatStep(n, ok, reports, now, psk) =>
      ApplyReportsKeeps(p, PeersOn(p, n), reports, now, psk);
      SameDevicesUnique(p, Apply(hosts, p, s));
  }

  /** Every transaction keeps the committed-state promises and never rewrites device history. */
  lemma StepKeeps(hosts: seq<Ip>, p: Panel, s: Step)
    requires Committed(p) && Enabled(p, s)
    ensures Committed(Apply(hosts, p, s)) && HistoryKept(p, Apply(hosts, p, s))
    ensures WorkerShaped(s) ==> Keeps(p, Apply(hosts, p, s))
    ensures WorkerShaped(s) && !Removes(s) ==> ConfirmsNothing(p, Apply(hosts, p, s))
  {
    if s.SyncStep? || s.HeartbeatStep? { ReportStepKeeps(hosts, p, s); }
    else if s.RemoveUserStep? { RemoveUserStepKeeps(hosts, p, s.user); }
    else if s.RemoveNodeStep? { RemoveNodeStepKeeps(hosts, p, s.node); }
    else if s.CreateStep? || s.DeleteStep? || s.AddNodeStep? { DeviceStepKeeps(hosts, p, s); }
    else { AccountStepKeeps(hosts, p, s); }
  }

  lemma {:induction false} RunKeeps(hosts: seq<Ip>, p: Panel, steps: seq<Step>)
    requires Committed(p) && Possible(hosts, p, steps)
    ensures Committed(Run(hosts, p, steps)) && HistoryKept(p, Run(hosts, p, steps))
    ensures (forall s | s in steps :: WorkerShaped(s)) ==> Keeps(p, Run(hosts, p, steps))
  {
    if steps != [] {
      var before := steps[..|steps| - 1];
      assert forall i | 0 <= i < |before| :: before[..i] == steps[..i];
      RunKeeps(hosts, p, before);
      StepKeeps(hosts, Run(hosts, p, before), steps[|steps| - 1]);
      HistoryChains(p, Run(hosts, p, before), Run(hosts, p, steps));
    }
  }

  lemma {:induction false} RunAppends(hosts: seq<Ip>, p: Panel, a: seq<Step>, b: seq<Step>)
    ensures Run(hosts, p, a + b) == Run(hosts, Run(hosts, p, a), b)
    decreases |b|
  {
    if b == [] {
      assert a + b == a;
    } else {
      var init := b[..|b| - 1];
      RunAppends(hosts, p, a, init);
      assert (a + b)[..|a + b| - 1] == a + init;
    }
  }

  lemma RunSplits(hosts: seq<Ip>, p: Panel, before: seq<Step>, after: seq<Step>)
    requires Possible(hosts, p, before + after)
    ensures Possible(hosts, p, before) && Possible(hosts, Run(hosts, p, before), after)
    ensures Run(hosts, p, before + after) == Run(hosts, Run(hosts, p, before), after)
  {
    var steps := before + after;
    RunAppends(hosts, p, before, after);
    forall j | 0 <= j < |before| ensures Enabled(Run(hosts, p, before[..j]), before[j]) {
      assert before[..j] == steps[..j];
    }
    forall j | 0 <= j < |after| ensures Enabled(Run(hosts, Run(hosts, p, before), after[..j]), after[j]) {
      RunAppends(hosts, p, before, after[..j]);
      assert before + after[..j] == steps[..|before| + j];
      assert steps[|before| + j] == after[j];
    }
  }

  /**
   Deletion is durable over every run: once a device is deleted it stays deleted at the same instant
   with no pending or active peer, and once its address is released it never regains one and keeps the
   same released address on record.
   */
  lemma DurableDeletion(hosts: seq<Ip>, p: Panel, before: seq<Step>, after: seq<Step>, d: DeviceId)
    requires Committed(p) && Possible(hosts, p, before + after)
    requires Tombstoned(Run(hosts, p, before), d) && d in Run(hosts, p, before + after).devices
    ensures var a := Run(hosts, p, before).devices[d];
            var q := Run(hosts, p, before + after);
            && q.devices[d].deletedAt == a.deletedAt
            && (forall n | PeerKey(n, d) in q.peers :: IsTombstone(q.peers[PeerKey(n, d)].status))
            && (a.releasedIp.Some? ==> q.devices[d].ip.None? && q.devices[d].releasedIp == a.releasedIp)
  {
    RunSplits(hosts, p, before, after);
    RunKeeps(hosts, p, before);
    RunKeeps(hosts, Run(hosts, p, before), after);
    var a, b := Run(hosts, p, before).devices[d], Run(hosts, p, before + after).devices[d];
    assert RowKept(a, b);
  }

  // --- the ledger over runs -------------------------------------------------

  function ClockOf(s: Step): Option<Time> {
    match s
    case CreateStep(_, _, _, now, _) => Some(now)
    case DeleteStep(_, now) => Some(now)
    case EditStep(_, _, now, _) => Some(now)
    case UpsertStep(_, _, now, _) => Some(now)
    case SyncStep(_, _, _, now, _) => Some(now)
    case HeartbeatStep(_, _, _, now, _) => Some(now)
    case _ => None
  }

  /** Every reset on record happened on or before the day. */
  ghost predicate ResetsBefore(l: Ledger, day: Day) {
    forall u | u in l.resetDay :: l.resetDay[u] <= day
  }

  ghost predicate Booked(p: Panel, day: Day) {
    Conserved(p.ledger) && ResetsBefore(p.ledger, day)
  }

  lemma PassesBookNothing(p: Panel, u: UserId, now: Time, psk: PeerKey -> Psk)
    ensures EnforceCombined(EnforceLocal(p, u, now, psk), u).ledger == p.ledger
  {
  }

  lemma TrafficBooks(p: Panel, k: PeerKey, r: PeerReport, now: Time)
    requires k in p.peers && k.device in p.devices && Booked(p, DayOf(now))
    ensures Booked(WithTraffic(p, k, r, now), DayOf(now))
  {
    if Sampled(p, k, r) {
      BookKeepsConservation(p.ledger, p.devices[k.device].owner, k.node, DayOf(now),
                            CounterDelta(p.peers[k].rawRx, r.rx.value), CounterDelta(p.peers[k].rawTx, r.tx.value));
    }
  }

  lemma ApplyToPeerBooks(p: Panel, k: PeerKey, r: PeerReport, now: Time, psk: PeerKey -> Psk)
    requires k in p.peers && k.device in p.devices && Booked(p, DayOf(now))
    ensures Booked(ApplyToPeer(p, k, r, now, psk), DayOf(now))
  {
    TrafficBooks(WithStatus(p, k, r), k, r, now);
    PassesBookNothing(ApplyPeerResult(p, k, r, now), p.devices[k.device].owner, now, psk);
  }

  lemma {:induction false} ApplyReportsBooks(p: Panel, loaded: set<PeerKey>, reports: seq<PeerReport>, now: Time,
                                             psk: PeerKey -> Psk)
    requires Booked(p, DayOf(now))
    ensures Booked(ApplyReports(p, loaded, reports, now, psk), DayOf(now))
    decreases |reports|
  {
    if reports != [] {
      var m := ApplyReport(p, loaded, reports[0], now, psk);
      if k: PeerKey :| IsFor(p, loaded, reports[0].key, k) && m == ApplyToPeer(p, k, reports[0], now, psk) {
        ApplyToPeerBooks(p, k, reports[0], now, psk);
      }
      ApplyReportsBooks(m, loaded, reports[1..], now, psk);
    }
  }

  lemma SyncBooks(p: Panel, n: NodeId, ok: bool, reports: seq<PeerReport>, now: Time, psk: PeerKey -> Psk)
    requires Booked(p, DayOf(now))
    ensures Booked(SyncResult(p, n, ok, reports, now, psk), DayOf(now))
  {
    if ok && n in p.nodes {
      var loaded := PeersOn(p, n);
      var a := ApplyReports(p, loaded, reports, now, psk);
      var b := ConfirmAbsent(a, loaded, ReportedKeys(reports));
      var c := ReleaseDeviceIps(b, ReleaseCandidates(b, loaded));
      ApplyReportsBooks(p, loaded, reports, now, psk);
      ForgetKeepsConservation(c.ledger, set u | u in c.users && PurgeDue(c, u));
    }
  }

  lemma EditBooks(p: Panel, u: UserId, edit: LocalEdit, now: Time, psk: PeerKey -> Psk)
    requires Booked(p, DayOf(now))
    ensures Booked(EditLocal(p, u, edit, now, psk), DayOf(now))
  {
    if edit.ResetTraffic? { ResetKeepsConservation(p.ledger, u, DayOf(now)); }
  }

  /** A node may only go if nothing was booked on it: by `ForgetNodeConservesExactly` no other would do. */
  ghost predicate BooksStay(p: Panel, s: Step) {
    s.RemoveNodeStep? && s.node in p.nodes ==> NodeUnused(p.ledger, s.node)
  }

  lemma StepBooks(hosts: seq<Ip>, p: Panel, s: Step, day: Day)
    requires Booked(p, day) && (ClockOf(s).Some? ==> DayOf(ClockOf(s).value) == day)
    ensures Booked(Apply(hosts, p, s), day) <==> BooksStay(p, s)
  {
    var q := Apply(hosts, p, s);
    match s
    case EditStep(u, edit, now, psk) => EditBooks(p, u, edit, now, psk);
    case ReconcileStep(missing) =>
      var m := MarkStale(p, missing);
      ForgetKeepsConservation(p.ledger, set u | u in m.users && PurgeDue(m, u));
    case RemoveUserStep(u) => ForgetKeepsConservation(p.ledger, {u});
    case RemoveNodeStep(n) => ForgetNodeConservesExactly(p.ledger, n);
    case SyncStep(n, ok, reports, now, psk) => SyncBooks(p, n, ok, reports, now, psk);
    case HeartbeatStep(n, ok, reports, now, psk) =>
      if ok && n in p.nodes { ApplyReportsBooks(p, PeersOn(p, n), reports, now, psk); }
    case _ => assert q.ledger == p.ledger;
  }

  /** The day of the last step that read the clock. */
  function LastDay(from: Day, steps: seq<Step>): Day {
    if steps == [] then from
    else if ClockOf(steps[|steps| - 1]).Some? then DayOf(ClockOf(steps[|steps| - 1]).value)
    else LastDay(from, steps[..|steps| - 1])
  }

  /**
   Traffic is conserved by every run of the panel whose clock does not run backwards: per account the
   lifetime row equals its node rows and its days since the last reset, and each day its node days.
   A node may be removed on the way if nothing was booked on it.
   */
  lemma {:induction false} RunBooks(hosts: seq<Ip>, p: Panel, steps: seq<Step>, from: Day)
    requires Booked(p, from)
    requires forall i | 0 <= i < |steps| && ClockOf(steps[i]).Some? ::
               LastDay(from, steps[..i]) <= DayOf(ClockOf(steps[i]).value)
    requires forall i | 0 <= i < |steps| :: BooksStay(Run(hosts, p, steps[..i]), steps[i])
    ensures Booked(Run(hosts, p, steps), LastDay(from, steps))
  {
    if steps != [] {
      var before := steps[..|steps| - 1];
      assert forall i | 0 <= i < |before| :: before[..i] == steps[..i];
      RunBooks(hosts, p, before, from);
      StepBooks(hosts, Run(hosts, p, before), steps[|steps| - 1], LastDay(from, steps));
    }
  }
}
