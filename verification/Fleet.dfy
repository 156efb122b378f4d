/**
 The whole system: the panel's database, the real peer table of every node, and the one sync job that
 is in flight. Panel transactions and stale heartbeats happen between any two steps of a job.

 The safety property is address exclusivity: every tunnel on a node belongs to a device that still
 holds exactly that address.
 */
module Fleet {
  import opened Options
  import opened TrafficLedger
  import opened PanelModel
  import opened Devices
  import opened Lifecycle
  import opened NodeResults
  import opened PanelRuns
  import opened WorkerSync

  datatype Snapshot = Snapshot(node: NodeId, peers: seq<WirePeer>)

  datatype Job =
    | Idle
    | Fetched(snapshots: seq<Snapshot>)
    | Applying(node: NodeId, puts: seq<Put>, deletes: seq<Key>, rest: seq<Snapshot>)
    | Dumped(node: NodeId, seen: set<Key>, rest: seq<Snapshot>)
    | HalfReported(node: NodeId, stale: map<PeerKey, PeerStatus>, seen: set<Key>, rest: seq<Snapshot>)

  datatype State = State(panel: Panel, tables: map<NodeId, Table>, job: Job)

  datatype Event =
    | Transaction(step: Step)
    | Fetch(snapshots: seq<Snapshot>)
    | Begin
    | SendPut
    | SendDelete
    | Dump
    | Report(reports: seq<PeerReport>, now: Time, psk: PeerKey -> Psk)
    | Abort
    | RemoveAccount(user: UserId)
    | ReportFirstHalf(reports: seq<PeerReport>, now: Time, psk: PeerKey -> Psk)
    | ReportSecondHalf

  function TableOf(f: State, n: NodeId): Table {
    if n in f.tables then f.tables[n] else map[]
  }

  /** A snapshot lists, in some order, exactly the payloads of the node's peers. */
  ghost predicate IsSnapshot(p: Panel, s: Snapshot) {
    && s.node in p.nodes && References(p) && DistinctKeys(s.peers)
    && (forall w | w in s.peers :: exists k | k in PeersOn(p, s.node) :: PeerPayload(p, k) == Some(w))
    && (forall k | k in PeersOn(p, s.node) && PeerPayload(p, k).Some? :: PeerPayload(p, k).value in s.peers)
  }

  predicate DistinctNodes(ss: seq<Snapshot>) {
    forall i, j | 0 <= i < j < |ss| :: ss[i].node != ss[j].node
  }

  /** The combined limit is reached and the remote side does not know yet. */
  predicate DisablesRemote(p: Panel, u: UserId) {
    && Managed(p, u) && p.users[u].profile.value.status != RemoteDisabled
    && OverLimit(p.users[u].profile.value.limitBytes, p.users[u].profile.value.usedBytes + LifetimeTotal(p, u))
  }

  /** The passes after this result queue an operation: for the nodes whose peers changed, or for the remote side. */
  ghost predicate QueuesAfter(p: Panel, k: PeerKey, r: PeerReport, now: Time, psk: PeerKey -> Psk)
    requires k in p.peers && k.device in p.devices
  {
    var m, u := ApplyPeerResult(p, k, r, now), p.devices[k.device].owner;
    Sampled(p, k, r)
        && (ApplyToPeer(p, k, r, now, psk).peers != m.peers || DisablesRemote(EnforceLocal(m, u, now, psk), u))
  }

  /** Some result of the report queues an operation, which commits what was done so far. */
  ghost predicate CommitsHalfway(p: Panel, loaded: set<PeerKey>, reports: seq<PeerReport>, now: Time,
                                 psk: PeerKey -> Psk)
    decreases |reports|
  {
    reports != [] && (
      || (exists k :: IsFor(p, loaded, reports[0].key, k) && QueuesAfter(p, k, reports[0], now, psk))
      || CommitsHalfway(ApplyReport(p, loaded, reports[0], now, psk), loaded, reports[1..], now, psk))
  }

  ghost predicate CanHappen(f: State, e: Event) {
    match e
    case Transaction(s) => (Removes(s) ==> s.ReconcileStep?) && Enabled(f.panel, s) && WorkerShaped(s)
    case Fetch(ss) => f.job.Idle? && DistinctNodes(ss) && forall s | s in ss :: IsSnapshot(f.panel, s)
    case Begin => f.job.Fetched?
    case SendPut => f.job.Applying? && f.job.puts != []
    case SendDelete => f.job.Applying? && f.job.puts == [] && f.job.deletes != []
    case Dump => f.job.Applying? && f.job.puts == [] && f.job.deletes == []
    case Report(reports, _, _) => f.job.Dumped? && FromDump(reports) && ReportedKeys(reports) == f.job.seen
    case Abort => !f.job.Idle?
    case RemoveAccount(u) => u in f.panel.users && f.panel.users[u].profile.None?
    case ReportFirstHalf(reports, now, psk) =>
      && f.job.Dumped? && FromDump(reports) && ReportedKeys(reports) == f.job.seen
      && CommitsHalfway(f.panel, PeersOn(f.panel, f.job.node), reports, now, psk)
    case ReportSecondHalf => f.job.HalfReported?
  }

  function Next(rest: seq<Snapshot>): Job {
    if rest == [] then Idle else Fetched(rest)
  }

  /** The second half of a report, working on the statuses it read before the first half committed. */
  function ConfirmFromStale(p: Panel, stale: map<PeerKey, PeerStatus>, seen: set<Key>): Panel {
    var q := p.(peers := map k | k in p.peers ::
                  if k in stale && stale[k] == PendingDelete && Absent(p, k, seen)
                  then p.peers[k].(status := Deleted) else p.peers[k]);
    var candidates := set k | k in stale
        && (stale[k] == Deleted || (stale[k] == PendingDelete && Absent(p, k, seen))) :: k.device;
    PurgeConfirmed(ReleaseDeviceIps(q, candidates))
  }

  ghost function After(hosts: seq<Ip>, f: State, e: Event): State
    requires CanHappen(f, e)
  {
    match e
    case Transaction(s) => f.(panel := Apply(hosts, f.panel, s))
    case Fetch(ss) => f.(job := Fetched(ss))
    case Begin =>
      if f.job.snapshots == [] then f.(job := Idle)
      else
        var s := f.job.snapshots[0];
        f.(job := Applying(s.node, PutsToSend(PutsOf(s.peers), TableOf(f, s.node)),
                           DeletesToSend(DeletesOf(s.peers), TableOf(f, s.node)), f.job.snapshots[1..]))
    case SendPut =>
      var t, put := TableOf(f, f.job.node), f.job.puts[0];
      f.(tables := f.tables[f.job.node := t[put.key := PutTunnel(t, put)]], job := f.job.(puts := f.job.puts[1..]))
    case SendDelete =>
      f.(tables := f.tables[f.job.node := TableOf(f, f.job.node) - {f.job.deletes[0]}],
         job := f.job.(deletes := f.job.deletes[1..]))
    case Dump => f.(job := Dumped(f.job.node, TableOf(f, f.job.node).Keys, f.job.rest))
    case Report(reports, now, psk) =>
      f.(panel := SyncResult(f.panel, f.job.node, true, reports, now, psk), job := Next(f.job.rest))
    case Abort => f.(job := Idle)
    case RemoveAccount(u) => f.(panel := RemoveUsers(f.panel, {u}))
    case ReportFirstHalf(reports, now, psk) =>
      var loaded := PeersOn(f.panel, f.job.node);
      var q := ApplyReports(f.panel, loaded, reports, now, psk);
      f.(panel := q,
         job := HalfReported(f.job.node, map k | k in loaded && k in q.peers ::
             q.peers[k].status, f.job.seen, f.job.rest))
    case ReportSecondHalf =>
      f.(panel := ConfirmFromStale(f.panel, f.job.stale, f.job.seen), job := Next(f.job.rest))
  }

  // --- the property ---------------------------------------------------------

  /** The device holds this key and this address now. */
  predicate HoldsAddress(p: Panel, d: DeviceId, key: Key, ip: Ip) {
    d in p.devices && p.devices[d].key == Some(key) && p.devices[d].ip == Some(ip)
  }

  /** Every tunnel of every node belongs to a device that still holds exactly its address. */
  ghost predicate Exclusive(f: State) {
    forall n, key | n in f.tables && key in f.tables[n] ::
      exists d, ip :: f.tables[n][key].allowed == {ip} && HoldsAddress(f.panel, d, key, ip)
  }

  // --- the invariant --------------------------------------------------------

  predicate HeldBy(p: Panel, n: NodeId, d: DeviceId, key: Key, ip: Ip) {
    HoldsAddress(p, d, key, ip) && PeerKey(n, d) in p.peers && p.peers[PeerKey(n, d)].status != Deleted
  }

  /** Installed with good reason: the holder's peer on this node is not confirmed gone. */
  ghost predicate Held(p: Panel, n: NodeId, key: Key, ip: Ip) {
    exists d :: HeldBy(p, n, d, key, ip)
  }

  ghost predicate TunnelsHeld(p: Panel, n: NodeId, t: Table) {
    forall key | key in t :: exists ip :: t[key].allowed == {ip} && Held(p, n, key, ip)
  }

  ghost predicate PutsHeld(p: Panel, n: NodeId, puts: seq<Put>) {
    forall put | put in puts :: Held(p, n, put.key, put.ip)
  }

  ghost predicate JobHeld(f: State) {
    match f.job
    case Idle => true
    case Fetched(ss) =>
      |ss| <= 1 && forall s | s in ss :: s.node in f.panel.nodes && PutsHeld(f.panel, s.node, PutsOf(s.peers))
    case Applying(n, puts, _, rest) => n in f.panel.nodes && rest == [] && PutsHeld(f.panel, n, puts)
    case Dumped(n, seen, rest) => n in f.panel.nodes && rest == [] && seen == TableOf(f, n).Keys
    case HalfReported(_, _, _, _) => false
  }

  ghost predicate Healthy(p: Panel) {
    Committed(p) && LivePeersHold(p) && RecyclingHolds(p)
  }

  ghost predicate TablesHeld(f: State) {
    forall n | n in f.tables :: n in f.panel.nodes && TunnelsHeld(f.panel, n, f.tables[n])
  }

  ghost predicate Invariant(f: State) {
    Healthy(f.panel) && TablesHeld(f) && JobHeld(f)
  }

  lemma InvariantIsSafe(f: State)
    requires TablesHeld(f)
    ensures Exclusive(f)
  {
    forall n, key | n in f.tables && key in f.tables[n]
      ensures exists d, ip :: f.tables[n][key].allowed == {ip} && HoldsAddress(f.panel, d, key, ip)
    {
      assert TunnelsHeld(f.panel, n, f.tables[n]);
      var ip :| f.tables[n][key].allowed == {ip} && Held(f.panel, n, key, ip);
      var d :| HeldBy(f.panel, n, d, key, ip);
    }
  }

  /** Exclusive means what it says: different tunnels of a node have different addresses. */
  lemma ExclusiveSeparatesTunnels(f: State, n: NodeId, m: NodeId, a: Key, b: Key)
    requires Exclusive(f) && UniqueDevices(f.panel)
    requires n in f.tables && m in f.tables && a in f.tables[n] && b in f.tables[m] && a != b
    ensures f.tables[n][a].allowed !! f.tables[m][b].allowed
  {
    var d, ip :| f.tables[n][a].allowed == {ip} && HoldsAddress(f.panel, d, a, ip);
    var e, jp :| f.tables[m][b].allowed == {jp} && HoldsAddress(f.panel, e, b, jp);
    assert d != e;
  }

  /** A device that gave its address back has no tunnel, and the address is only where it was reissued. */
  lemma ReleasedAddressIsFree(f: State, d: DeviceId, n: NodeId, key: Key)
    requires Exclusive(f) && Committed(f.panel)
    requires d in f.panel.devices && f.panel.devices[d].releasedIp.Some?
    requires n in f.tables && key in f.tables[n]
    ensures f.panel.devices[d].key != Some(key)
    ensures f.panel.devices[d].releasedIp.value in f.tables[n][key].allowed ==>
              exists e :: e != d && HoldsAddress(f.panel, e, key, f.panel.devices[d].releasedIp.value)
  {
    var e, ip :| f.tables[n][key].allowed == {ip} && HoldsAddress(f.panel, e, key, ip);
    assert e != d;
  }

  // --- what keeps a tunnel held ---------------------------------------------

  lemma HeldThrough(p: Panel, q: Panel, n: NodeId, key: Key, ip: Ip)
    requires ConfirmsNothing(p, q) && Held(p, n, key, ip)
    ensures Held(q, n, key, ip)
  {
    var d :| HeldBy(p, n, d, key, ip);
    assert !ConfirmedGone(p, d);
    assert HeldBy(q, n, d, key, ip);
  }

  lemma HeldThroughPurge(p: Panel, n: NodeId, key: Key, ip: Ip)
    requires Held(p, n, key, ip)
    ensures Held(PurgeConfirmed(p), n, key, ip)
  {
    var d :| HeldBy(p, n, d, key, ip);
    assert OwnedBy(p, PeerKey(n, d), p.devices[d].owner);
    assert HeldBy(PurgeConfirmed(p), n, d, key, ip);
  }

  lemma HeldThroughConfirm(p: Panel, loaded: set<PeerKey>, seen: set<Key>, n: NodeId, key: Key, ip: Ip)
    requires Held(p, n, key, ip) && key in seen
    ensures Held(ConfirmAbsent(p, loaded, seen), n, key, ip)
  {
    var d :| HeldBy(p, n, d, key, ip);
    assert HeldBy(ConfirmAbsent(p, loaded, seen), n, d, key, ip);
  }

  lemma HeldThroughReconcile(p: Panel, missing: set<UserId>, n: NodeId, key: Key, ip: Ip)
    requires Settled(p) && Held(p, n, key, ip)
    ensures Held(PurgeConfirmed(MarkStale(p, missing)), n, key, ip)
  {
    MarkStaleKeeps(p, missing);
    HeldThrough(p, MarkStale(p, missing), n, key, ip);
    HeldThroughPurge(MarkStale(p, missing), n, key, ip);
  }

  lemma HeldThroughSync(p: Panel, at: NodeId, reports: seq<PeerReport>, now: Time, psk: PeerKey -> Psk, n: NodeId,
                        key: Key, ip: Ip)
    requires Settled(p) && Held(p, n, key, ip) && FromDump(reports)
    requires key in ReportedKeys(reports)
    ensures Held(SyncResult(p, at, true, reports, now, psk), n, key, ip)
  {
    if at in p.nodes {
      var loaded := PeersOn(p, at);
      var a := ApplyReports(p, loaded, reports, now, psk);
      var b := ConfirmAbsent(a, loaded, ReportedKeys(reports));
      var c := ReleaseDeviceIps(b, ReleaseCandidates(b, loaded));
      ApplyReportsKeeps(p, loaded, reports, now, psk);
      HeldThrough(p, a, n, key, ip);
      HeldThroughConfirm(a, loaded, ReportedKeys(reports), n, key, ip);
      ConfirmKeeps(a, loaded, ReportedKeys(reports));
      ReleaseKeeps(b, ReleaseCandidates(b, loaded));
      HeldThrough(b, c, n, key, ip);
      HeldThroughPurge(c, n, key, ip);
    }
  }

  /** On the only node, a peer confirmed gone of a deleted device has no payload: the address is back already. */
  lemma GoneIsNotSent(p: Panel, k: PeerKey)
    requires Healthy(p) && k in p.peers && forall m | m in p.nodes :: m == k.node
    ensures p.peers[k].status == Deleted && Tombstoned(p, k.device) ==> PeerPayload(p, k).None?
  {
    if p.peers[k].status == Deleted && Tombstoned(p, k.device) {
      forall j | j in p.peers && j.device == k.device ensures p.peers[j].status == Deleted {
        assert j == k;
      }
      assert ConfirmedGone(p, k.device);
    }
  }

  /**
   The heart of the argument. With one managed node, no put of a snapshot is for a peer confirmed
   gone: such a peer's device is deleted, so it has already given its address back, or its owner is
   blocked. Both drop it from the put list.
   */
  lemma FetchedPutsAreHeld(p: Panel, s: Snapshot)
    requires Healthy(p) && IsSnapshot(p, s)
    requires forall m | m in p.nodes :: m == s.node
    ensures PutsHeld(p, s.node, PutsOf(s.peers))
  {
    forall put | put in PutsOf(s.peers) ensures Held(p, s.node, put.key, put.ip) {
      PutsOfMembers(s.peers, put);
      var w :| w in s.peers && IsPut(w) && put == Put(w.key.value, w.ip, w.psk);
      var k :| k in PeersOn(p, s.node) && PeerPayload(p, k) == Some(w);
      GoneIsNotSent(p, k);
      assert HeldBy(p, s.node, k.device, put.key, put.ip);
    }
  }

  // --- every event keeps the invariant --------------------------------------

  /** Which configurations are asked about: how many nodes, and which of two routes are in use. */
  datatype Config = Config(maxNodes: nat, removesAccounts: bool, splitsReports: bool)

  ghost predicate Legal(c: Config, f: State, e: Event) {
    && CanHappen(f, e)
    && (e.RemoveAccount? ==> c.removesAccounts)
    && (e.ReportFirstHalf? ==> c.splitsReports)
  }

  ghost predicate AtMostOneNode(p: Panel) {
    forall m, n | m in p.nodes && n in p.nodes :: m == n
  }

  lemma PanelMovesOn(f: State, g: State)
    requires Invariant(f) && ConfirmsNothing(f.panel, g.panel) && Healthy(g.panel)
    requires g.tables == f.tables && g.job == f.job
    ensures Invariant(g)
  {
    forall n, key, ip | Held(f.panel, n, key, ip) ensures Held(g.panel, n, key, ip) {
      HeldThrough(f.panel, g.panel, n, key, ip);
    }
    assert TablesHeld(g);
  }

  lemma TransactionKeeps(hosts: seq<Ip>, f: State, s: Step)
    requires Invariant(f) && CanHappen(f, Transaction(s))
    ensures Invariant(After(hosts, f, Transaction(s)))
  {
    var g := After(hosts, f, Transaction(s));
    StepKeeps(hosts, f.panel, s);
    if s.ReconcileStep? {
      forall n, key, ip | Held(f.panel, n, key, ip) ensures Held(g.panel, n, key, ip) {
        HeldThroughReconcile(f.panel, s.missing, n, key, ip);
      }
    } else {
      PanelMovesOn(f, g);
    }
  }

  lemma FewNodes(p: Panel)
    requires |p.nodes| <= 1
    ensures AtMostOneNode(p)
  {
    forall m, n | m in p.nodes && n in p.nodes ensures m == n {
      var rest := p.nodes - {m};
      assert |rest| == |p.nodes| - 1;
      assert n in rest || n == m;
    }
  }

  lemma {:induction false} OneSnapshotPerNode(ss: seq<Snapshot>, nodes: set<NodeId>)
    requires DistinctNodes(ss) && forall s | s in ss :: s.node in nodes
    ensures |ss| <= |nodes|
  {
    if ss != [] {
      var last := ss[|ss| - 1];
      OneSnapshotPerNode(ss[..|ss| - 1], nodes - {last.node});
    }
  }

  lemma FetchKeeps(hosts: seq<Ip>, f: State, ss: seq<Snapshot>)
    requires Invariant(f) && CanHappen(f, Fetch(ss)) && |f.panel.nodes| <= 1
    ensures Invariant(After(hosts, f, Fetch(ss)))
  {
    OneSnapshotPerNode(ss, f.panel.nodes);
    FewNodes(f.panel);
    forall s | s in ss ensures PutsHeld(f.panel, s.node, PutsOf(s.peers)) {
      FetchedPutsAreHeld(f.panel, s);
    }
  }

  lemma BeginKeeps(hosts: seq<Ip>, f: State)
    requires Invariant(f) && CanHappen(f, Begin)
    ensures Invariant(After(hosts, f, Begin))
  {
    if f.job.snapshots != [] {
      var s := f.job.snapshots[0];
      assert PutsHeld(f.panel, s.node, PutsOf(s.peers));
      forall put | put in PutsToSend(PutsOf(s.peers), TableOf(f, s.node)) ensures put in PutsOf(s.peers) {
        PutsToSendMembers(PutsOf(s.peers), TableOf(f, s.node), put);
      }
    }
  }

  /** Requests touch one node's table; puts are held, and a delete only shrinks the table. */
  lemma RequestKeeps(hosts: seq<Ip>, f: State, e: Event)
    requires Invariant(f) && CanHappen(f, e) && (e.SendPut? || e.SendDelete?)
    ensures Invariant(After(hosts, f, e))
  {
    var g := After(hosts, f, e);
    var n := f.job.node;
    assert n in f.tables ==> TunnelsHeld(f.panel, n, f.tables[n]);
    if e.SendPut? {
      assert f.job.puts[0] in f.job.puts;
      assert g.tables[n][f.job.puts[0].key].allowed == {f.job.puts[0].ip};
    }
    assert TunnelsHeld(g.panel, n, g.tables[n]);
    assert forall m | m in g.tables && m != n :: m in f.tables && g.tables[m] == f.tables[m];
  }

  lemma ReportKeepsInvariant(hosts: seq<Ip>, f: State, reports: seq<PeerReport>, now: Time, psk: PeerKey -> Psk)
    requires Invariant(f) && CanHappen(f, Report(reports, now, psk)) && AtMostOneNode(f.panel)
    ensures Invariant(After(hosts, f, Report(reports, now, psk)))
  {
    var g := After(hosts, f, Report(reports, now, psk));
    var at := f.job.node;
    SyncResultKeeps(f.panel, at, true, reports, now, psk);
    SyncIsUnique(f.panel, at, true, reports, now, psk);
    forall n | n in g.tables ensures n in g.panel.nodes && TunnelsHeld(g.panel, n, g.tables[n]) {
      assert n == at && TunnelsHeld(f.panel, n, f.tables[n]);
      SyncKeepsNodes(f.panel, at, reports, now, psk);
      forall key | key in g.tables[n]
        ensures exists ip :: g.tables[n][key].allowed == {ip} && Held(g.panel, n, key, ip)
      {
        var ip :| f.tables[n][key].allowed == {ip} && Held(f.panel, n, key, ip);
        HeldThroughSync(f.panel, at, reports, now, psk, n, key, ip);
      }
    }
  }

  lemma SyncKeepsNodes(p: Panel, n: NodeId, reports: seq<PeerReport>, now: Time, psk: PeerKey -> Psk)
    requires Settled(p)
    ensures SyncResult(p, n, true, reports, now, psk).nodes == p.nodes
  {
    ApplyReportsKeeps(p, PeersOn(p, n), reports, now, psk);
  }

  lemma EventKeeps(hosts: seq<Ip>, c: Config, f: State, e: Event)
    requires Invariant(f) && Legal(c, f, e) && |f.panel.nodes| <= 1
    requires !c.removesAccounts && !c.splitsReports
    ensures Invariant(After(hosts, f, e))
  {
    match e
    case Transaction(s) => TransactionKeeps(hosts, f, s);
    case Fetch(ss) => FetchKeeps(hosts, f, ss);
    case Begin => BeginKeeps(hosts, f);
    case SendPut => RequestKeeps(hosts, f, e);
    case SendDelete => RequestKeeps(hosts, f, e);
    case Dump =>
    case Report(reports, now, psk) => FewNodes(f.panel); ReportKeepsInvariant(hosts, f, reports, now, psk);
    case Abort =>
  }

  // --- runs -----------------------------------------------------------------

  /** States reached one event after the other; every state visited respects the node bound. */
  ghost predicate IsRun(hosts: seq<Ip>, c: Config, states: seq<State>, events: seq<Event>) {
    && |states| == |events| + 1
    && (forall i | 0 <= i < |states| :: |states[i].panel.nodes| <= c.maxNodes)
    && (forall i | 0 <= i < |events| ::
        Legal(c, states[i], events[i]) && states[i + 1] == After(hosts, states[i], events[i]))
  }

  /** Any healthy database with no job in flight and only justified tunnels: an empty one, for instance. */
  ghost predicate Start(f: State) {
    Healthy(f.panel) && f.job.Idle? && TablesHeld(f)
  }

  lemma {:induction false} RunKeepsInvariant(hosts: seq<Ip>, c: Config, states: seq<State>, events: seq<Event>, i: nat)
    requires IsRun(hosts, c, states, events) && Start(states[0]) && i < |states|
    requires c.maxNodes <= 1 && !c.removesAccounts && !c.splitsReports
    ensures Invariant(states[i])
  {
    if i > 0 {
      RunKeepsInvariant(hosts, c, states, events, i - 1);
      EventKeeps(hosts, c, states[i - 1], events[i - 1]);
    }
  }

  /** Address exclusivity end to end, in every state of every run with one managed node. */
  lemma OneNodeIsExclusive(hosts: seq<Ip>, c: Config, states: seq<State>, events: seq<Event>, i: nat)
    requires IsRun(hosts, c, states, events) && Start(states[0]) && i < |states|
    requires c.maxNodes <= 1 && !c.removesAccounts && !c.splitsReports
    ensures Exclusive(states[i])
  {
    RunKeepsInvariant(hosts, c, states, events, i);
    InvariantIsSafe(states[i]);
  }

  /** Without any node nothing is ever installed, whatever else happens. */
  lemma {:induction false} NoNodeNoTunnel(hosts: seq<Ip>, c: Config, states: seq<State>, events: seq<Event>, i: nat)
    requires IsRun(hosts, c, states, events) && Start(states[0]) && i < |states| && c.maxNodes == 0
    ensures states[i].tables == map[] && (states[i].job.Idle? || states[i].job == Fetched([]))
  {
    if i > 0 {
      NoNodeNoTunnel(hosts, c, states, events, i - 1);
      assert states[i - 1].panel.nodes == {};
      if events[i - 1].Fetch? {
        OneSnapshotPerNode(events[i - 1].snapshots, {});
      }
    } else {
      assert states[0].panel.nodes == {};
    }
  }
}
