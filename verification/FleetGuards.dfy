/**
 Address exclusivity with any number of nodes, account removals and reports that commit halfway: what
 the single steps must respect for every state of a run to be exclusive.
 */
module FleetGuards {
  import opened Options
  import opened TrafficLedger
  import opened PanelModel
  import opened Devices
  import opened Lifecycle
  import opened NodeResults
  import opened PanelRuns
  import opened WorkerSync
  import opened Fleet

  // --- the guards -----------------------------------------------------------

  ghost predicate InSnapshots(ss: seq<Snapshot>, key: Key) {
    exists s, put :: s in ss && put in PutsOf(s.peers) && put.key == key
  }

  ghost predicate InPuts(puts: seq<Put>, key: Key) {
    exists put :: put in puts && put.key == key
  }

  /** The job may still install this key. */
  ghost predicate InFlight(job: Job, key: Key) {
    match job
    case Idle => false
    case Fetched(ss) => InSnapshots(ss, key)
    case Applying(_, puts, _, rest) => InPuts(puts, key) || InSnapshots(rest, key)
    case Dumped(_, _, rest) => InSnapshots(rest, key)
    case HalfReported(_, _, _, rest) => InSnapshots(rest, key)
  }

  /** No put of the snapshot comes from a peer that is confirmed gone. */
  predicate NoDeletedPut(s: Snapshot) {
    forall w | w in s.peers && IsPut(w) :: w.status != Deleted
  }

  ghost predicate HasTunnel(f: State, key: Key) {
    exists n | n in f.tables :: key in f.tables[n]
  }

  /** None of the account's keys is on a node or about to be. */
  ghost predicate NothingInstalled(f: State, u: UserId) {
    forall d | d in f.panel.devices && f.panel.devices[d].owner == u && f.panel.devices[d].key.Some? ::
      !HasTunnel(f, f.panel.devices[d].key.value) && !InFlight(f.job, f.panel.devices[d].key.value)
  }

  /**
   Snapshots are fetched without puts of `deleted` peers, and accounts go only when nothing of theirs is
   installed.
   */
  ghost predicate Guarded(f: State, e: Event) {
    match e
    case Fetch(ss) => forall s | s in ss :: NoDeletedPut(s)
    case RemoveAccount(u) => NothingInstalled(f, u)
    case _ => true
  }

  // --- the invariant --------------------------------------------------------

  ghost predicate SnapshotsHeld(p: Panel, ss: seq<Snapshot>) {
    DistinctNodes(ss) && forall s | s in ss :: s.node in p.nodes && PutsHeld(p, s.node, PutsOf(s.peers))
  }

  predicate NotAgain(n: NodeId, rest: seq<Snapshot>) {
    forall s | s in rest :: s.node != n
  }

  ghost predicate JobHeldEverywhere(f: State) {
    match f.job
    case Idle => true
    case Fetched(ss) => SnapshotsHeld(f.panel, ss)
    case Applying(n, puts, _, rest) =>
      n in f.panel.nodes && PutsHeld(f.panel, n, puts) && SnapshotsHeld(f.panel, rest) && NotAgain(n, rest)
    case Dumped(n, seen, rest) =>
      n in f.panel.nodes && seen == TableOf(f, n).Keys && SnapshotsHeld(f.panel, rest) && NotAgain(n, rest)
    case HalfReported(n, stale, seen, rest) =>
      && n in f.panel.nodes && seen == TableOf(f, n).Keys && SnapshotsHeld(f.panel, rest) && NotAgain(n, rest)
      && forall k | k in stale :: k.node == n
  }

  ghost predicate Sane(f: State) {
    Committed(f.panel) && TablesHeld(f) && JobHeldEverywhere(f)
  }

  /** What is held, on some nodes, after a change of the panel that takes no node away. */
  ghost predicate HeldStays(p: Panel, q: Panel, n: NodeId) {
    forall key, ip | Held(p, n, key, ip) :: Held(q, n, key, ip)
  }

  lemma SnapshotsStayHeld(p: Panel, q: Panel, ss: seq<Snapshot>)
    requires SnapshotsHeld(p, ss) && p.nodes <= q.nodes && forall s | s in ss :: HeldStays(p, q, s.node)
    ensures SnapshotsHeld(q, ss)
  {
    forall s | s in ss ensures PutsHeld(q, s.node, PutsOf(s.peers)) {
      forall put | put in PutsOf(s.peers) ensures Held(q, s.node, put.key, put.ip) {
        assert Held(p, s.node, put.key, put.ip);
      }
    }
  }

  lemma TunnelsStayHeld(p: Panel, q: Panel, n: NodeId, t: Table)
    requires TunnelsHeld(p, n, t) && HeldStays(p, q, n)
    ensures TunnelsHeld(q, n, t)
  {
    forall key | key in t ensures exists ip :: t[key].allowed == {ip} && Held(q, n, key, ip) {
      var ip :| t[key].allowed == {ip} && Held(p, n, key, ip);
    }
  }

  /** A panel that forgets nothing held keeps the whole state sane. */
  lemma PanelMayMove(f: State, g: State)
    requires Sane(f) && Committed(g.panel) && g.tables == f.tables && g.job == f.job
    requires f.panel.nodes <= g.panel.nodes && forall n :: HeldStays(f.panel, g.panel, n)
    ensures Sane(g)
  {
    forall n | n in g.tables ensures TunnelsHeld(g.panel, n, g.tables[n]) {
      TunnelsStayHeld(f.panel, g.panel, n, f.tables[n]);
    }
    match f.job
    case Idle =>
    case Fetched(ss) => SnapshotsStayHeld(f.panel, g.panel, ss);
    case Applying(n, puts, _, rest) =>
      SnapshotsStayHeld(f.panel, g.panel, rest);
      assert HeldStays(f.panel, g.panel, n);
      forall put | put in puts ensures Held(g.panel, n, put.key, put.ip) { assert Held(f.panel, n, put.key, put.ip); }
    case Dumped(n, _, rest) => SnapshotsStayHeld(f.panel, g.panel, rest);
    case HalfReported(n, _, _, rest) => SnapshotsStayHeld(f.panel, g.panel, rest);
  }

  lemma TransactionIsSane(hosts: seq<Ip>, f: State, s: Step)
    requires Sane(f) && CanHappen(f, Transaction(s))
    ensures Sane(After(hosts, f, Transaction(s)))
  {
    var g := After(hosts, f, Transaction(s));
    StepKeeps(hosts, f.panel, s);
    forall n ensures HeldStays(f.panel, g.panel, n) {
      forall key, ip | Held(f.panel, n, key, ip) ensures Held(g.panel, n, key, ip) {
        if s.ReconcileStep? { HeldThroughReconcile(f.panel, s.missing, n, key, ip); }
        else { HeldThrough(f.panel, g.panel, n, key, ip); }
      }
    }
    PanelMayMove(f, g);
  }

  lemma FetchIsSane(hosts: seq<Ip>, f: State, ss: seq<Snapshot>)
    requires Sane(f) && CanHappen(f, Fetch(ss)) && Guarded(f, Fetch(ss))
    ensures Sane(After(hosts, f, Fetch(ss)))
  {
    forall s | s in ss ensures PutsHeld(f.panel, s.node, PutsOf(s.peers)) {
      forall put | put in PutsOf(s.peers) ensures Held(f.panel, s.node, put.key, put.ip) {
        PutsOfMembers(s.peers, put);
        var w :| w in s.peers && IsPut(w) && put == Put(w.key.value, w.ip, w.psk);
        var k :| k in PeersOn(f.panel, s.node) && PeerPayload(f.panel, k) == Some(w);
        assert HeldBy(f.panel, s.node, k.device, put.key, put.ip);
      }
    }
  }

  lemma RestHeld(p: Panel, ss: seq<Snapshot>)
    requires SnapshotsHeld(p, ss) && ss != []
    ensures SnapshotsHeld(p, ss[1..]) && NotAgain(ss[0].node, ss[1..])
  {
    forall s | s in ss[1..] ensures s in ss && s.node != ss[0].node {
      var j :| 0 <= j < |ss[1..]| && ss[1..][j] == s;
      assert ss[j + 1] == s;
    }
    forall i, j | 0 <= i < j < |ss[1..]| ensures ss[1..][i].node != ss[1..][j].node {
      assert ss[1..][i] == ss[i + 1] && ss[1..][j] == ss[j + 1];
    }
  }

  lemma BeginIsSane(hosts: seq<Ip>, f: State)
    requires Sane(f) && CanHappen(f, Begin)
    ensures Sane(After(hosts, f, Begin))
  {
    if f.job.snapshots != [] {
      var s := f.job.snapshots[0];
      RestHeld(f.panel, f.job.snapshots);
      assert PutsHeld(f.panel, s.node, PutsOf(s.peers));
      forall put | put in PutsToSend(PutsOf(s.peers), TableOf(f, s.node)) ensures put in PutsOf(s.peers) {
        PutsToSendMembers(PutsOf(s.peers), TableOf(f, s.node), put);
      }
    }
  }

  lemma RequestIsSane(hosts: seq<Ip>, f: State, e: Event)
    requires Sane(f) && CanHappen(f, e) && (e.SendPut? || e.SendDelete?)
    ensures Sane(After(hosts, f, e))
  {
    var g := After(hosts, f, e);
    var n := f.job.node;
    assert n in f.tables ==> TunnelsHeld(f.panel, n, f.tables[n]);
    if e.SendPut? {
      assert f.job.puts[0] in f.job.puts;
      assert g.tables[n][f.job.puts[0].key].allowed == {f.job.puts[0].ip};
    }
    assert TunnelsHeld(g.panel, n, g.tables[n]);
    assert forall m | m in g.tables && m != n :: m in f.tables && g.tables[m] == f.tables[m];
  }

  // --- reports --------------------------------------------------------------

  /** A report about one node lets go of nothing held on another. */
  lemma HeldElsewhere(p: Panel, at: NodeId, reports: seq<PeerReport>, now: Time, psk: PeerKey -> Psk, n: NodeId,
                      key: Key, ip: Ip)
    requires Settled(p) && Held(p, n, key, ip) && FromDump(reports) && n != at && at in p.nodes
    ensures Held(SyncResult(p, at, true, reports, now, psk), n, key, ip)
  {
    var loaded := PeersOn(p, at);
    var a := ApplyReports(p, loaded, reports, now, psk);
    var b := ConfirmAbsent(a, loaded, ReportedKeys(reports));
    var c := ReleaseDeviceIps(b, ReleaseCandidates(b, loaded));
    ApplyReportsKeeps(p, loaded, reports, now, psk);
    HeldThrough(p, a, n, key, ip);
    var d :| HeldBy(a, n, d, key, ip);
    assert HeldBy(b, n, d, key, ip);
    ConfirmKeeps(a, loaded, ReportedKeys(reports));
    ReleaseKeeps(b, ReleaseCandidates(b, loaded));
    HeldThrough(b, c, n, key, ip);
    HeldThroughPurge(c, n, key, ip);
  }

  /** What a job holds once a node's part of it is over. */
  lemma NextIsHeld(f: State, q: Panel, rest: seq<Snapshot>, at: NodeId)
    requires Sane(f) && Committed(q) && SnapshotsHeld(f.panel, rest) && NotAgain(at, rest) && q.nodes == f.panel.nodes
    requires forall n | n != at :: HeldStays(f.panel, q, n)
    requires at in f.tables ==> TunnelsHeld(q, at, f.tables[at])
    ensures Sane(f.(panel := q, job := Next(rest)))
  {
    var g := f.(panel := q, job := Next(rest));
    forall n | n in g.tables ensures n in q.nodes && TunnelsHeld(q, n, g.tables[n]) {
      if n != at { TunnelsStayHeld(f.panel, q, n, f.tables[n]); }
    }
    SnapshotsStayHeld(f.panel, q, rest);
  }

  lemma ReportIsSane(hosts: seq<Ip>, f: State, reports: seq<PeerReport>, now: Time, psk: PeerKey -> Psk)
    requires Sane(f) && CanHappen(f, Report(reports, now, psk))
    ensures Sane(After(hosts, f, Report(reports, now, psk)))
  {
    var at := f.job.node;
    var q := SyncResult(f.panel, at, true, reports, now, psk);
    SyncResultKeeps(f.panel, at, true, reports, now, psk);
    SyncIsUnique(f.panel, at, true, reports, now, psk);
    SyncKeepsNodes(f.panel, at, reports, now, psk);
    forall n | n != at ensures HeldStays(f.panel, q, n) {
      forall key, ip | Held(f.panel, n, key, ip) ensures Held(q, n, key, ip) {
        HeldElsewhere(f.panel, at, reports, now, psk, n, key, ip);
      }
    }
    if at in f.tables {
      assert TunnelsHeld(f.panel, at, f.tables[at]);
      forall key | key in f.tables[at] ensures exists ip :: f.tables[at][key].allowed == {ip} && Held(q, at, key, ip) {
        var ip :| f.tables[at][key].allowed == {ip} && Held(f.panel, at, key, ip);
        HeldThroughSync(f.panel, at, reports, now, psk, at, key, ip);
      }
    }
    NextIsHeld(f, q, f.job.rest, at);
  }

  lemma StaysWhereNothingIsConfirmed(p: Panel, q: Panel)
    requires ConfirmsNothing(p, q)
    ensures forall n :: HeldStays(p, q, n)
  {
    forall n, key, ip | Held(p, n, key, ip) ensures Held(q, n, key, ip) { HeldThrough(p, q, n, key, ip); }
  }

  lemma HalfMayFollow(f: State, stale: map<PeerKey, PeerStatus>)
    requires Sane(f) && f.job.Dumped? && forall k | k in stale :: k.node == f.job.node
    ensures Sane(f.(job := HalfReported(f.job.node, stale, f.job.seen, f.job.rest)))
  {
  }

  lemma FirstHalfIsSane(hosts: seq<Ip>, f: State, reports: seq<PeerReport>, now: Time, psk: PeerKey -> Psk)
    requires Sane(f) && CanHappen(f, ReportFirstHalf(reports, now, psk))
    ensures Sane(After(hosts, f, ReportFirstHalf(reports, now, psk)))
  {
    var loaded := PeersOn(f.panel, f.job.node);
    var q := ApplyReports(f.panel, loaded, reports, now, psk);
    ApplyReportsKeeps(f.panel, loaded, reports, now, psk);
    SameDevicesUnique(f.panel, q);
    StaysWhereNothingIsConfirmed(f.panel, q);
    PanelMayMove(f, f.(panel := q));
    HalfMayFollow(f.(panel := q), map k | k in loaded && k in q.peers :: q.peers[k].status);
  }

  /** The peers as the second half writes them. */
  function Overwritten(p: Panel, stale: map<PeerKey, PeerStatus>, seen: set<Key>): Panel {
    p.(peers := map k | k in p.peers ::
         if k in stale && stale[k] == PendingDelete && Absent(p, k, seen) then p.peers[k].(status := Deleted)
             else p.peers[k])
  }

  lemma OverwrittenKeeps(p: Panel, stale: map<PeerKey, PeerStatus>, seen: set<Key>)
    requires Settled(p)
    ensures Settled(Overwritten(p, stale, seen))
  {
  }

  lemma HeldThroughSecondHalf(p: Panel, at: NodeId, stale: map<PeerKey, PeerStatus>, seen: set<Key>, n: NodeId,
                              key: Key, ip: Ip)
    requires Settled(p) && Held(p, n, key, ip) && (forall k | k in stale :: k.node == at) && (n == at ==> key in seen)
    ensures Held(ConfirmFromStale(p, stale, seen), n, key, ip)
  {
    var b := Overwritten(p, stale, seen);
    OverwrittenKeeps(p, stale, seen);
    var d :| HeldBy(p, n, d, key, ip);
    assert HeldBy(b, n, d, key, ip);
    var ids := set k | k in stale && (stale[k] == Deleted || (stale[k] == PendingDelete && Absent(p, k, seen))) ::
        k.device;
    ReleaseKeeps(b, ids);
    HeldThrough(b, ReleaseDeviceIps(b, ids), n, key, ip);
    HeldThroughPurge(ReleaseDeviceIps(b, ids), n, key, ip);
  }

  lemma SecondHalfCommits(p: Panel, stale: map<PeerKey, PeerStatus>, seen: set<Key>)
    requires Committed(p)
    ensures Committed(ConfirmFromStale(p, stale, seen)) && ConfirmFromStale(p, stale, seen).nodes == p.nodes
  {
    var b := Overwritten(p, stale, seen);
    OverwrittenKeeps(p, stale, seen);
    var ids := set k | k in stale && (stale[k] == Deleted || (stale[k] == PendingDelete && Absent(p, k, seen))) ::
        k.device;
    ReleaseKeeps(b, ids);
    var c := ReleaseDeviceIps(b, ids);
    RemoveUsersKeeps(c, set u | u in c.users && PurgeDue(c, u));
    UniqueShrinks(p, ConfirmFromStale(p, stale, seen));
  }

  lemma SecondHalfIsSane(hosts: seq<Ip>, f: State)
    requires Sane(f) && CanHappen(f, ReportSecondHalf)
    ensures Sane(After(hosts, f, ReportSecondHalf))
  {
    var at, q := f.job.node, ConfirmFromStale(f.panel, f.job.stale, f.job.seen);
    SecondHalfCommits(f.panel, f.job.stale, f.job.seen);
    forall n | n != at ensures HeldStays(f.panel, q, n) {
      forall key, ip | Held(f.panel, n, key, ip) ensures Held(q, n, key, ip) {
        HeldThroughSecondHalf(f.panel, at, f.job.stale, f.job.seen, n, key, ip);
      }
    }
    if at in f.tables {
      assert TunnelsHeld(f.panel, at, f.tables[at]);
      forall key | key in f.tables[at] ensures exists ip :: f.tables[at][key].allowed == {ip} && Held(q, at, key, ip) {
        var ip :| f.tables[at][key].allowed == {ip} && Held(f.panel, at, key, ip);
        HeldThroughSecondHalf(f.panel, at, f.job.stale, f.job.seen, at, key, ip);
      }
    }
    NextIsHeld(f, q, f.job.rest, at);
  }

  // --- removing an account --------------------------------------------------

  /** A key that no device of the account has stays held when the account goes. */
  lemma HeldThroughRemoval(p: Panel, u: UserId, n: NodeId, key: Key, ip: Ip)
    requires Committed(p) && Held(p, n, key, ip)
    requires forall d | d in p.devices && p.devices[d].owner == u :: p.devices[d].key != Some(key)
    ensures Held(RemoveUsers(p, {u}), n, key, ip)
  {
    var d :| HeldBy(p, n, d, key, ip);
    assert HeldBy(RemoveUsers(p, {u}), n, d, key, ip);
  }

  lemma SnapshotsOutlive(p: Panel, u: UserId, ss: seq<Snapshot>)
    requires Committed(p) && SnapshotsHeld(p, ss)
    requires forall d | d in p.devices && p.devices[d].owner == u && p.devices[d].key.Some? ::
               !InSnapshots(ss, p.devices[d].key.value)
    ensures SnapshotsHeld(RemoveUsers(p, {u}), ss)
  {
    forall s | s in ss ensures PutsHeld(RemoveUsers(p, {u}), s.node, PutsOf(s.peers)) {
      forall put | put in PutsOf(s.peers) ensures Held(RemoveUsers(p, {u}), s.node, put.key, put.ip) {
        assert InSnapshots(ss, put.key) && Held(p, s.node, put.key, put.ip);
        HeldThroughRemoval(p, u, s.node, put.key, put.ip);
      }
    }
  }

  lemma TunnelsOutlive(f: State, u: UserId)
    requires Sane(f) && NothingInstalled(f, u)
    ensures TablesHeld(f.(panel := RemoveUsers(f.panel, {u})))
  {
    var q := RemoveUsers(f.panel, {u});
    forall n | n in f.tables ensures TunnelsHeld(q, n, f.tables[n]) {
      assert TunnelsHeld(f.panel, n, f.tables[n]);
      forall key | key in f.tables[n] ensures exists ip :: f.tables[n][key].allowed == {ip} && Held(q, n, key, ip) {
        var ip :| f.tables[n][key].allowed == {ip} && Held(f.panel, n, key, ip);
        assert HasTunnel(f, key);
        HeldThroughRemoval(f.panel, u, n, key, ip);
      }
    }
  }

  lemma JobOutlives(f: State, u: UserId)
    requires Sane(f) && NothingInstalled(f, u)
    ensures JobHeldEverywhere(f.(panel := RemoveUsers(f.panel, {u})))
  {
    match f.job
    case Idle =>
    case Fetched(ss) => SnapshotsOutlive(f.panel, u, ss);
    case Applying(n, puts, _, rest) =>
      SnapshotsOutlive(f.panel, u, rest);
      forall put | put in puts ensures Held(RemoveUsers(f.panel, {u}), n, put.key, put.ip) {
        assert InPuts(puts, put.key) && Held(f.panel, n, put.key, put.ip);
        HeldThroughRemoval(f.panel, u, n, put.key, put.ip);
      }
    case Dumped(_, _, rest) => SnapshotsOutlive(f.panel, u, rest);
    case HalfReported(_, _, _, rest) => SnapshotsOutlive(f.panel, u, rest);
  }

  lemma RemovalIsSane(hosts: seq<Ip>, f: State, u: UserId)
    requires Sane(f) && CanHappen(f, RemoveAccount(u)) && Guarded(f, RemoveAccount(u))
    ensures Sane(After(hosts, f, RemoveAccount(u)))
  {
    RemoveUsersKeeps(f.panel, {u});
    UniqueShrinks(f.panel, RemoveUsers(f.panel, {u}));
    TunnelsOutlive(f, u);
    JobOutlives(f, u);
  }

  /** Removing an account leaves an exclusive state exactly when none of its devices has a tunnel. */
  lemma RemovalIsExclusiveExactly(hosts: seq<Ip>, f: State, u: UserId)
    requires Exclusive(f) && Committed(f.panel) && CanHappen(f, RemoveAccount(u))
    ensures Exclusive(After(hosts, f, RemoveAccount(u))) <==>
            forall d | d in f.panel.devices && f.panel.devices[d].owner == u && f.panel.devices[d].key.Some? ::
              !HasTunnel(f, f.panel.devices[d].key.value)
  {
    var q := RemoveUsers(f.panel, {u});
    forall n, key | n in f.tables && key in f.tables[n]
      ensures (exists d, ip :: f.tables[n][key].allowed == {ip} && HoldsAddress(q, d, key, ip))
              <==> forall d | d in f.panel.devices && f.panel.devices[d].owner == u ::
                  f.panel.devices[d].key != Some(key)
    {
      var d, ip :| f.tables[n][key].allowed == {ip} && HoldsAddress(f.panel, d, key, ip);
      if f.panel.devices[d].owner != u {
        assert HoldsAddress(q, d, key, ip);
      }
    }
    forall n, key | n in f.tables && key in f.tables[n] ensures HasTunnel(f, key) {}
  }

  // --- runs -----------------------------------------------------------------

  lemma EventIsSane(hosts: seq<Ip>, f: State, e: Event)
    requires Sane(f) && CanHappen(f, e) && Guarded(f, e)
    ensures Sane(After(hosts, f, e))
  {
    match e
    case Transaction(s) => TransactionIsSane(hosts, f, s);
    case Fetch(ss) => FetchIsSane(hosts, f, ss);
    case Begin => BeginIsSane(hosts, f);
    case SendPut => RequestIsSane(hosts, f, e);
    case SendDelete => RequestIsSane(hosts, f, e);
    case Dump =>
    case Report(reports, now, psk) => ReportIsSane(hosts, f, reports, now, psk);
    case Abort =>
    case RemoveAccount(u) => RemovalIsSane(hosts, f, u);
    case ReportFirstHalf(reports, now, psk) => FirstHalfIsSane(hosts, f, reports, now, psk);
    case ReportSecondHalf => SecondHalfIsSane(hosts, f);
  }

  /**
   With any number of nodes, account removals and split reports: every state of a run is exclusive if
   no snapshot puts a `deleted` peer and no account goes while a key of it is installed or about to be.
   */
  lemma {:induction false} GuardedRunIsExclusive(hosts: seq<Ip>, c: Config, states: seq<State>, events: seq<Event>,
                                                 i: nat)
    requires IsRun(hosts, c, states, events) && Sane(states[0]) && i < |states|
    requires forall j | 0 <= j < |events| :: Guarded(states[j], events[j])
    ensures Sane(states[i]) && Exclusive(states[i])
  {
    if i > 0 {
      GuardedRunIsExclusive(hosts, c, states, events, i - 1);
      EventIsSane(hosts, states[i - 1], events[i - 1]);
    }
    InvariantIsSafe(states[i]);
  }

  // --- which steps end exclusivity ------------------------------------------

  /** The device held an address before that it does not hold after. */
  predicate GivesUp(p: Panel, q: Panel, d: DeviceId) {
    d in p.devices && p.devices[d].ip.Some? && (d in q.devices ==> q.devices[d].ip != p.devices[d].ip)
  }

  /** No device that gives up its address has a tunnel on any node. */
  ghost predicate NoTunnelLeftBehind(f: State, q: Panel) {
    forall d | GivesUp(f.panel, q, d) && f.panel.devices[d].key.Some? :: !HasTunnel(f, f.panel.devices[d].key.value)
  }

  lemma HolderIsKept(p: Panel, q: Panel, d: DeviceId, key: Key, ip: Ip)
    requires Committed(p) && HistoryKept(p, q) && HoldsAddress(p, d, key, ip)
    ensures (exists e :: HoldsAddress(q, e, key, ip)) <==> !GivesUp(p, q, d)
  {
    if e :| HoldsAddress(q, e, key, ip) {
      assert key in p.issuedKeys;
      assert e in p.devices && p.devices[e].key == Some(key);
      assert e == d;
    }
    if !GivesUp(p, q, d) { assert HoldsAddress(q, d, key, ip); }
  }

  ghost predicate HasHolder(p: Panel, t: Tunnel, key: Key) {
    exists d, ip :: t.allowed == {ip} && HoldsAddress(p, d, key, ip)
  }

  lemma TunnelKeepsHolder(p: Panel, q: Panel, t: Tunnel, key: Key, d: DeviceId, ip: Ip)
    requires Committed(p) && HistoryKept(p, q) && HoldsAddress(p, d, key, ip) && t.allowed == {ip}
    ensures HasHolder(q, t, key) <==> !GivesUp(p, q, d)
  {
    HolderIsKept(p, q, d, key, ip);
    if HasHolder(q, t, key) {
      var e, other :| t.allowed == {other} && HoldsAddress(q, e, key, other);
      assert other in {ip};
    }
  }

  /** While no table changes, exclusivity ends exactly when an address is given up that has a tunnel. */
  lemma PanelMayMoveExactly(f: State, g: State)
    requires Exclusive(f) && Committed(f.panel) && HistoryKept(f.panel, g.panel) && g.tables == f.tables
    ensures Exclusive(g) <==> NoTunnelLeftBehind(f, g.panel)
  {
    if NoTunnelLeftBehind(f, g.panel) {
      forall n, key | n in g.tables && key in g.tables[n] ensures HasHolder(g.panel, g.tables[n][key], key) {
        var d, ip :| f.tables[n][key].allowed == {ip} && HoldsAddress(f.panel, d, key, ip);
        assert HasTunnel(f, key);
        TunnelKeepsHolder(f.panel, g.panel, f.tables[n][key], key, d, ip);
      }
    } else {
      var d :| GivesUp(f.panel, g.panel, d) && f.panel.devices[d].key.Some?
          && HasTunnel(f, f.panel.devices[d].key.value);
      var key := f.panel.devices[d].key.value;
      var n :| n in f.tables && key in f.tables[n];
      var e, ip :| f.tables[n][key].allowed == {ip} && HoldsAddress(f.panel, e, key, ip);
      assert e == d;
      TunnelKeepsHolder(f.panel, g.panel, f.tables[n][key], key, d, ip);
      assert !HasHolder(g.panel, g.tables[n][key], key);
    }
  }

  /** A put keeps an exclusive state exclusive exactly when some device still holds its key with its address. */
  lemma PutIsExclusiveExactly(hosts: seq<Ip>, f: State)
    requires Exclusive(f) && CanHappen(f, SendPut)
    ensures Exclusive(After(hosts, f, SendPut)) <==>
            exists d :: HoldsAddress(f.panel, d, f.job.puts[0].key, f.job.puts[0].ip)
  {
    var at, t, put := f.job.node, TableOf(f, f.job.node), f.job.puts[0];
    var tables := f.tables[at := t[put.key := PutTunnel(t, put)]];
    var g := f.(tables := tables, job := f.job.(puts := f.job.puts[1..]));
    PutLeaves(f, g, put);
  }

  lemma PutLeaves(f: State, g: State, put: Put)
    requires Exclusive(f) && f.job.Applying? && g.panel == f.panel
    requires var t := TableOf(f, f.job.node); g.tables == f.tables[f.job.node := t[put.key := PutTunnel(t, put)]]
    ensures Exclusive(g) <==> exists d :: HoldsAddress(f.panel, d, put.key, put.ip)
  {
    var at := f.job.node;
    assert put.key in g.tables[at] && g.tables[at][put.key].allowed == {put.ip};
    if Exclusive(g) {
      var d, ip :| g.tables[at][put.key].allowed == {ip} && HoldsAddress(g.panel, d, put.key, ip);
      assert ip in {put.ip};
    }
    if d :| HoldsAddress(f.panel, d, put.key, put.ip) {
      forall n, key | n in g.tables && key in g.tables[n] ensures HasHolder(g.panel, g.tables[n][key], key) {
        if n == at && key == put.key {
          assert HoldsAddress(g.panel, d, key, put.ip);
        } else {
          assert n in f.tables && key in f.tables[n];
          var e, ip :| f.tables[n][key].allowed == {ip} && HoldsAddress(f.panel, e, key, ip);
        }
      }
    }
  }

  lemma DeleteStaysExclusive(hosts: seq<Ip>, f: State)
    requires Exclusive(f) && CanHappen(f, SendDelete)
    ensures Exclusive(After(hosts, f, SendDelete))
  {
    var g := After(hosts, f, SendDelete);
    forall n, key | n in g.tables && key in g.tables[n] ensures HasHolder(g.panel, g.tables[n][key], key) {
      assert n in f.tables && key in f.tables[n];
    }
  }

  lemma SecondHalfKeepsHistory(p: Panel, stale: map<PeerKey, PeerStatus>, seen: set<Key>)
    requires Committed(p)
    ensures HistoryKept(p, ConfirmFromStale(p, stale, seen))
  {
    var b := Overwritten(p, stale, seen);
    OverwrittenKeeps(p, stale, seen);
    var ids := set k | k in stale && (stale[k] == Deleted || (stale[k] == PendingDelete && Absent(p, k, seen))) ::
        k.device;
    ReleaseKeeps(b, ids);
    var c := ReleaseDeviceIps(b, ids);
    RemoveUsersKeeps(c, set u | u in c.users && PurgeDue(c, u));
    HistoryChains(b, c, ConfirmFromStale(p, stale, seen));
  }

  /** Every step leaves a committed database and keeps the history of its devices. */
  lemma EventCommits(hosts: seq<Ip>, f: State, e: Event)
    requires Committed(f.panel) && CanHappen(f, e)
    ensures Committed(After(hosts, f, e).panel) && HistoryKept(f.panel, After(hosts, f, e).panel)
  {
    match e
    case Transaction(s) => StepKeeps(hosts, f.panel, s);
    case Report(reports, now, psk) =>
      SyncResultKeeps(f.panel, f.job.node, true, reports, now, psk);
      SyncIsUnique(f.panel, f.job.node, true, reports, now, psk);
    case RemoveAccount(u) =>
      RemoveUsersKeeps(f.panel, {u});
      UniqueShrinks(f.panel, RemoveUsers(f.panel, {u}));
    case ReportFirstHalf(reports, now, psk) =>
      var loaded := PeersOn(f.panel, f.job.node);
      ApplyReportsKeeps(f.panel, loaded, reports, now, psk);
      SameDevicesUnique(f.panel, ApplyReports(f.panel, loaded, reports, now, psk));
    case ReportSecondHalf =>
      SecondHalfCommits(f.panel, f.job.stale, f.job.seen);
      SecondHalfKeepsHistory(f.panel, f.job.stale, f.job.seen);
    case _ =>
  }

  /** The step can happen, installs no address nobody holds, and takes none away that is installed. */
  ghost predicate Clean(hosts: seq<Ip>, f: State, e: Event) {
    CanHappen(f, e) &&
    match e
    case SendPut => exists d :: HoldsAddress(f.panel, d, f.job.puts[0].key, f.job.puts[0].ip)
    case SendDelete => true
    case _ => NoTunnelLeftBehind(f, After(hosts, f, e).panel)
  }

  /** Any step, be it a report, either half of one, a deletion, a removal or a put, stays exclusive exactly if clean. */
  lemma StepIsExclusiveExactly(hosts: seq<Ip>, f: State, e: Event)
    requires Exclusive(f) && Committed(f.panel) && CanHappen(f, e)
    ensures Exclusive(After(hosts, f, e)) <==> Clean(hosts, f, e)
  {
    if e.SendPut? { PutIsExclusiveExactly(hosts, f); }
    else if e.SendDelete? { DeleteStaysExclusive(hosts, f); }
    else {
      EventCommits(hosts, f, e);
      PanelMayMoveExactly(f, After(hosts, f, e));
    }
  }

  lemma {:induction false} RunCommits(hosts: seq<Ip>, c: Config, states: seq<State>, events: seq<Event>, i: nat)
    requires IsRun(hosts, c, states, events) && Committed(states[0].panel) && i < |states|
    ensures Committed(states[i].panel)
  {
    if i > 0 {
      RunCommits(hosts, c, states, events, i - 1);
      EventCommits(hosts, states[i - 1], events[i - 1]);
    }
  }

  lemma RunStepIsExclusive(hosts: seq<Ip>, c: Config, states: seq<State>, events: seq<Event>, j: nat)
    requires IsRun(hosts, c, states, events) && Committed(states[0].panel) && j < |events| && Exclusive(states[j])
    ensures Exclusive(states[j + 1]) <==> Clean(hosts, states[j], events[j])
  {
    RunCommits(hosts, c, states, events, j);
    StepIsExclusiveExactly(hosts, states[j], events[j]);
  }

  /** Every step before the n-th is clean. */
  ghost predicate CleanSteps(hosts: seq<Ip>, states: seq<State>, events: seq<Event>, n: nat) {
    n <= |events| < |states| && forall j | 0 <= j < n :: Clean(hosts, states[j], events[j])
  }

  lemma {:induction false} CleanRun(hosts: seq<Ip>, c: Config, states: seq<State>, events: seq<Event>, n: nat)
    requires IsRun(hosts, c, states, events) && Committed(states[0].panel) && Exclusive(states[0])
    requires CleanSteps(hosts, states, events, n)
    ensures Exclusive(states[n])
    decreases n
  {
    if n > 0 {
      CleanRun(hosts, c, states, events, n - 1);
      RunStepIsExclusive(hosts, c, states, events, n - 1);
    }
  }

  /**
   Any run, with any number of nodes, removals and split reports: every state is exclusive exactly when
   every step is clean.
   */
  lemma RunIsExclusiveExactly(hosts: seq<Ip>, c: Config, states: seq<State>, events: seq<Event>)
    requires IsRun(hosts, c, states, events) && Committed(states[0].panel) && Exclusive(states[0])
    ensures (forall i | 0 <= i < |states| :: Exclusive(states[i])) <==> CleanSteps(hosts, states, events, |events|)
  {
    if CleanSteps(hosts, states, events, |events|) {
      forall i | 0 <= i < |states| ensures Exclusive(states[i]) {
        assert CleanSteps(hosts, states, events, i);
        CleanRun(hosts, c, states, events, i);
      }
    } else {
      var j :| 0 <= j < |events| && !Clean(hosts, states[j], events[j]);
      if Exclusive(states[j]) { RunStepIsExclusive(hosts, c, states, events, j); }
    }
  }

  // --- one node -------------------------------------------------------------

  /** Nobody came back to life between the halves that the second half is about to confirm gone. */
  predicate NobodyRevived(f: State)
    requires f.job.HalfReported?
  {
    forall k | k in f.panel.peers && k in f.job.stale && f.job.stale[k] == PendingDelete
        && Absent(f.panel, k, f.job.seen) ::
      IsTombstone(f.panel.peers[k].status)
  }

  ghost predicate GuardedOnOneNode(f: State, e: Event) {
    match e
    case RemoveAccount(u) => NothingInstalled(f, u)
    case ReportSecondHalf => f.job.HalfReported? ==> NobodyRevived(f)
    case _ => true
  }

  /** In a healthy panel with one node no snapshot puts a `deleted` peer. */
  lemma OneNodePutsNoDeleted(p: Panel, s: Snapshot)
    requires Healthy(p) && IsSnapshot(p, s) && forall m | m in p.nodes :: m == s.node
    ensures NoDeletedPut(s)
  {
    forall w | w in s.peers && IsPut(w) ensures w.status != Deleted {
      var k :| k in PeersOn(p, s.node) && PeerPayload(p, k) == Some(w);
      GoneIsNotSent(p, k);
    }
  }

  lemma UnrevivedKeepsLive(p: Panel, stale: map<PeerKey, PeerStatus>, seen: set<Key>)
    requires Settled(p) && LivePeersHold(p)
    requires forall k | k in p.peers && k in stale && stale[k] == PendingDelete && Absent(p, k, seen) ::
              IsTombstone(p.peers[k].status)
    ensures LivePeersHold(Overwritten(p, stale, seen))
  {
  }

  lemma SecondHalfRecycles(p: Panel, stale: map<PeerKey, PeerStatus>, seen: set<Key>, ids: set<DeviceId>)
    requires Settled(p) && RecyclingHolds(p)
    requires ids == set k | k in stale
              && (stale[k] == Deleted || (stale[k] == PendingDelete && Absent(p, k, seen))) :: k.device
    ensures RecyclingHolds(ReleaseDeviceIps(Overwritten(p, stale, seen), ids))
  {
    var b := Overwritten(p, stale, seen);
    var c := ReleaseDeviceIps(b, ids);
    OverwrittenKeeps(p, stale, seen);
    ReleaseKeeps(b, ids);
    forall d | d in c.devices && c.devices[d].deletedAt.Some? && ConfirmedGone(c, d) ensures c.devices[d].ip.None? {
      assert ConfirmedGone(b, d);
      if d !in ids {
        forall k | k in p.peers && k.device == d
          ensures p.peers[k].status == Deleted
        {
          assert b.peers[k].status == Deleted;
        }
        assert ConfirmedGone(p, d);
      }
    }
  }

  lemma SecondHalfIsHealthy(p: Panel, stale: map<PeerKey, PeerStatus>, seen: set<Key>)
    requires Healthy(p)
    requires forall k | k in p.peers && k in stale && stale[k] == PendingDelete && Absent(p, k, seen) ::
              IsTombstone(p.peers[k].status)
    ensures Healthy(ConfirmFromStale(p, stale, seen))
  {
    var b := Overwritten(p, stale, seen);
    var ids := set k | k in stale && (stale[k] == Deleted || (stale[k] == PendingDelete && Absent(p, k, seen))) ::
        k.device;
    OverwrittenKeeps(p, stale, seen);
    UnrevivedKeepsLive(p, stale, seen);
    SecondHalfRecycles(p, stale, seen, ids);
    ReleaseKeeps(b, ids);
    var c := ReleaseDeviceIps(b, ids);
    RemoveUsersKeeps(c, set u | u in c.users && PurgeDue(c, u));
    SecondHalfCommits(p, stale, seen);
  }

  lemma EventIsHealthy(hosts: seq<Ip>, f: State, e: Event)
    requires Sane(f) && Healthy(f.panel) && CanHappen(f, e) && GuardedOnOneNode(f, e)
    ensures Healthy(After(hosts, f, e).panel)
  {
    match e
    case Transaction(s) => StepKeeps(hosts, f.panel, s);
    case Report(reports, now, psk) =>
      SyncResultKeeps(f.panel, f.job.node, true, reports, now, psk);
      SyncIsUnique(f.panel, f.job.node, true, reports, now, psk);
    case RemoveAccount(u) =>
      RemoveUsersKeeps(f.panel, {u});
      UniqueShrinks(f.panel, RemoveUsers(f.panel, {u}));
    case ReportFirstHalf(reports, now, psk) =>
      var loaded := PeersOn(f.panel, f.job.node);
      ApplyReportsKeeps(f.panel, loaded, reports, now, psk);
      SameDevicesUnique(f.panel, ApplyReports(f.panel, loaded, reports, now, psk));
    case ReportSecondHalf => SecondHalfIsHealthy(f.panel, f.job.stale, f.job.seen);
    case _ =>
  }

  lemma OneNodeIsGuarded(f: State, e: Event)
    requires Healthy(f.panel) && |f.panel.nodes| <= 1 && CanHappen(f, e) && GuardedOnOneNode(f, e)
    ensures Guarded(f, e)
  {
    if e.Fetch? {
      FewNodes(f.panel);
      forall s | s in e.snapshots ensures NoDeletedPut(s) { OneNodePutsNoDeleted(f.panel, s); }
    }
  }

  /**
   With one node, reports may commit halfway and accounts may be removed: every state of a run is
   exclusive if no second half finds a peer revived that it is about to confirm gone, and no account
   goes while a key of it is installed or about to be.
   */
  lemma {:induction false} OneNodeGuardedIsExclusive(hosts: seq<Ip>, c: Config, states: seq<State>,
                                                     events: seq<Event>, i: nat)
    requires IsRun(hosts, c, states, events) && Start(states[0]) && i < |states| && c.maxNodes <= 1
    requires forall j | 0 <= j < |events| :: GuardedOnOneNode(states[j], events[j])
    ensures Sane(states[i]) && Healthy(states[i].panel) && Exclusive(states[i])
  {
    if i > 0 {
      OneNodeGuardedIsExclusive(hosts, c, states, events, i - 1);
      OneNodeIsGuarded(states[i - 1], events[i - 1]);
      EventIsSane(hosts, states[i - 1], events[i - 1]);
      EventIsHealthy(hosts, states[i - 1], events[i - 1]);
    }
    InvariantIsSafe(states[i]);
  }
}
