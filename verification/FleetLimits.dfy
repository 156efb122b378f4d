/**
 Where address exclusivity ends. Three configurations let a run install one address twice, each shown
 by a concrete run, and `ExclusivityExactly` says that those three are all there is.
 */
module FleetLimits {
  import opened Options
  import opened TrafficLedger
  import opened PanelModel
  import opened Devices
  import opened Lifecycle
  import opened NodeResults
  import opened PanelRuns
  import opened WorkerSync
  import opened Fleet

  /** The second state is reached from the first by some run. */
  ghost predicate Reaches(hosts: seq<Ip>, c: Config, f: State, g: State) {
    exists states, events :: IsRun(hosts, c, states, events) && states[0] == f && states[|events|] == g
  }

  lemma ReachesSelf(hosts: seq<Ip>, c: Config, f: State)
    requires |f.panel.nodes| <= c.maxNodes
    ensures Reaches(hosts, c, f, f)
  {
    assert IsRun(hosts, c, [f], []);
  }

  lemma RunOneMore(hosts: seq<Ip>, c: Config, states: seq<State>, events: seq<Event>, e: Event)
    requires IsRun(hosts, c, states, events) && Legal(c, states[|events|], e)
    requires |After(hosts, states[|events|], e).panel.nodes| <= c.maxNodes
    ensures IsRun(hosts, c, states + [After(hosts, states[|events|], e)], events + [e])
  {
    var longer, steps := states + [After(hosts, states[|events|], e)], events + [e];
    forall i | 0 <= i < |steps|
      ensures Legal(c, longer[i], steps[i]) && longer[i + 1] == After(hosts, longer[i], steps[i])
    {
      if i < |events| { assert longer[i + 1] == states[i + 1]; }
    }
  }

  lemma ReachesNext(hosts: seq<Ip>, c: Config, f: State, g: State, e: Event)
    requires Reaches(hosts, c, f, g) && Legal(c, g, e)
    requires |After(hosts, g, e).panel.nodes| <= c.maxNodes
    ensures Reaches(hosts, c, f, After(hosts, g, e))
  {
    var states, events :| IsRun(hosts, c, states, events) && states[0] == f && states[|events|] == g;
    RunOneMore(hosts, c, states, events, e);
    assert (states + [After(hosts, g, e)])[0] == f;
  }

  // --- whole jobs -----------------------------------------------------------

  /** What the worker sends for a snapshot of one peer. */
  lemma SplitOne(w: WirePeer, t: Table)
    requires w.key.Some?
    ensures PutsToSend(PutsOf([w]), t) ==
            if IsPut(w) && !Matches(Put(w.key.value, w.ip, w.psk), t) then [Put(w.key.value, w.ip, w.psk)] else []
    ensures DeletesToSend(DeletesOf([w]), t) == if IsDelete(w) && w.key.value in t then [w.key.value] else []
  {
    assert PutsOf([w][..0]) == [] && DeletesOf([w][..0]) == [];
  }

  lemma FetchHappens(hosts: seq<Ip>, c: Config, f: State, s: Snapshot)
    requires f.job.Idle? && IsSnapshot(f.panel, s)
    ensures Legal(c, f, Fetch([s])) && After(hosts, f, Fetch([s])) == f.(job := Fetched([s]))
  {
  }

  lemma BeginHappens(hosts: seq<Ip>, c: Config, f: State, s: Snapshot)
    requires f.job == Fetched([s])
    ensures Legal(c, f, Begin)
    ensures After(hosts, f, Begin) ==
            f.(job := Applying(s.node, PutsToSend(PutsOf(s.peers), TableOf(f, s.node)),
                               DeletesToSend(DeletesOf(s.peers), TableOf(f, s.node)), []))
  {
    assert [s][1..] == [];
  }

  /** Fetching one node's snapshot and working out what to send for it. */
  lemma FetchAndBegin(hosts: seq<Ip>, c: Config, start: State, f: State, n: NodeId, peers: seq<WirePeer>)
    requires Reaches(hosts, c, start, f) && f.job.Idle? && |f.panel.nodes| <= c.maxNodes
    requires IsSnapshot(f.panel, Snapshot(n, peers))
    ensures Reaches(hosts, c, start,
                    f.(job := Applying(n, PutsToSend(PutsOf(peers), TableOf(f, n)),
                                       DeletesToSend(DeletesOf(peers), TableOf(f, n)), [])))
  {
    var s := Snapshot(n, peers);
    FetchHappens(hosts, c, f, s);
    BeginHappens(hosts, c, f.(job := Fetched([s])), s);
    ReachesNext(hosts, c, start, f, Fetch([s]));
    ReachesNext(hosts, c, start, f.(job := Fetched([s])), Begin);
  }

  lemma DeleteHappens(hosts: seq<Ip>, c: Config, f: State, n: NodeId, key: Key)
    requires f.job == Applying(n, [], [key], [])
    ensures Legal(c, f, SendDelete)
    ensures After(hosts, f, SendDelete)
              == f.(tables := f.tables[n := TableOf(f, n) - {key}], job := Applying(n, [], [], []))
  {
    assert [key][1..] == [];
  }

  lemma DumpHappens(hosts: seq<Ip>, c: Config, f: State, n: NodeId, t: Table)
    requires f.job == Applying(n, [], [], []) && TableOf(f, n) == t
    ensures Legal(c, f, Dump) && After(hosts, f, Dump) == f.(job := Dumped(n, t.Keys, []))
  {
  }

  lemma DumpReached(hosts: seq<Ip>, c: Config, start: State, f: State, n: NodeId, t: Table)
    requires Reaches(hosts, c, start, f) && f.job == Applying(n, [], [], []) && TableOf(f, n) == t
    requires |f.panel.nodes| <= c.maxNodes
    ensures Reaches(hosts, c, start, f.(job := Dumped(n, t.Keys, [])))
  {
    DumpHappens(hosts, c, f, n, t);
    ReachesNext(hosts, c, start, f, Dump);
  }

  lemma DeleteReached(hosts: seq<Ip>, c: Config, start: State, f: State, n: NodeId, key: Key, left: Table)
    requires Reaches(hosts, c, start, f) && f.job == Applying(n, [], [key], []) && left == TableOf(f, n) - {key}
    requires |f.panel.nodes| <= c.maxNodes
    ensures Reaches(hosts, c, start, f.(tables := f.tables[n := left], job := Applying(n, [], [], [])))
  {
    DeleteHappens(hosts, c, f, n, key);
    ReachesNext(hosts, c, start, f, SendDelete);
  }

  /** A job that removes one tunnel, up to its dump. */
  lemma RemovalJob(hosts: seq<Ip>, c: Config, start: State, f: State, n: NodeId, w: WirePeer, left: Table)
    requires Reaches(hosts, c, start, f) && f.job.Idle? && |f.panel.nodes| <= c.maxNodes
    requires IsSnapshot(f.panel, Snapshot(n, [w])) && IsDelete(w) && w.key.value in TableOf(f, n)
    requires left == TableOf(f, n) - {w.key.value}
    ensures Reaches(hosts, c, start, f.(tables := f.tables[n := left], job := Dumped(n, left.Keys, [])))
  {
    FetchAndBegin(hosts, c, start, f, n, [w]);
    SplitOne(w, TableOf(f, n));
    DeleteReached(hosts, c, start, f.(job := Applying(n, [], [w.key.value], [])), n, w.key.value, left);
    DumpReached(hosts, c, start, f.(tables := f.tables[n := left], job := Applying(n, [], [], [])), n, left);
  }

  /** A job that installs one tunnel, up to just before its put. */
  lemma InstallJob(hosts: seq<Ip>, c: Config, start: State, f: State, n: NodeId, w: WirePeer)
    requires Reaches(hosts, c, start, f) && f.job.Idle? && |f.panel.nodes| <= c.maxNodes
    requires IsSnapshot(f.panel, Snapshot(n, [w])) && IsPut(w) && w.key.value !in TableOf(f, n)
    ensures Reaches(hosts, c, start, f.(job := Applying(n, [Put(w.key.value, w.ip, w.psk)], [], [])))
  {
    FetchAndBegin(hosts, c, start, f, n, [w]);
    SplitOne(w, TableOf(f, n));
  }

  lemma PutHappens(hosts: seq<Ip>, c: Config, f: State, n: NodeId, put: Put, deletes: seq<Key>)
    requires f.job == Applying(n, [put], deletes, [])
    ensures Legal(c, f, SendPut)
    ensures After(hosts, f, SendPut) ==
            f.(tables := f.tables[n := TableOf(f, n)[put.key := PutTunnel(TableOf(f, n), put)]],
               job := Applying(n, [], deletes, []))
  {
    assert [put][1..] == [];
  }

  lemma PutLands(hosts: seq<Ip>, c: Config, start: State, f: State, n: NodeId, put: Put, full: Table)
    requires Reaches(hosts, c, start, f) && f.job == Applying(n, [put], [], []) && |f.panel.nodes| <= c.maxNodes
    requires full == TableOf(f, n)[put.key := PutTunnel(TableOf(f, n), put)]
    ensures Reaches(hosts, c, start, f.(tables := f.tables[n := full], job := Applying(n, [], [], [])))
    ensures Reaches(hosts, c, start, f.(tables := f.tables[n := full], job := Dumped(n, full.Keys, [])))
  {
    PutHappens(hosts, c, f, n, put, []);
    ReachesNext(hosts, c, start, f, SendPut);
    DumpReached(hosts, c, start, f.(tables := f.tables[n := full], job := Applying(n, [], [], [])), n, full);
  }

  lemma ReportLands(hosts: seq<Ip>, c: Config, start: State, f: State, n: NodeId, reports: seq<PeerReport>, q: Panel)
    requires Reaches(hosts, c, start, f) && f.job == Dumped(n, ReportedKeys(reports), []) && FromDump(reports)
    requires SyncResult(f.panel, n, true, reports, NOW, NoPsk) == q && |q.nodes| <= c.maxNodes
    ensures Reaches(hosts, c, start, f.(panel := q, job := Idle))
  {
    ReachesNext(hosts, c, start, f, Report(reports, NOW, NoPsk));
  }

  // --- the people and devices of the scenarios ------------------------------

  const ALICE: UserId := 0
  const BOB: UserId := 1
  const PHONE: DeviceId := 0
  const PHONE_KEY: Key := 7
  const PHONE_IP: Ip := 2
  const PSK: Psk := 1
  const TUNNEL := Tunnel({PHONE_IP}, PSK, PSK)
  const NOW: Time := 0

  function NoPsk(k: PeerKey): Psk {
    0
  }

  function Account(isBlocked: bool): User {
    User(isBlocked, if isBlocked then LifeBlocked else LifeActive, None, 0, 0, None)
  }

  function PhoneRow(deleted: bool, released: bool): Device {
    Device(ALICE, Some(PHONE_KEY), if released then None else Some(PHONE_IP),
           if deleted then Some(NOW) else None, if released then Some(PHONE_IP) else None)
  }

  function PhoneWire(status: PeerStatus, isBlocked: bool): WirePeer {
    WirePeer(Some(PHONE_KEY), PHONE_IP, PSK, status, isBlocked)
  }

  // --- two nodes ------------------------------------------------------------

  const A: NodeId := 0
  const B: NodeId := 1

  function TwoNodes(a: PeerStatus, b: PeerStatus, deleted: bool, released: bool): Panel {
    Panel(map[ALICE := Account(false)], {A, B}, map[PHONE := PhoneRow(deleted, released)],
          map[PeerKey(A, PHONE) := Peer(a, PSK, None, None), PeerKey(B, PHONE) := Peer(b, PSK, None, None)],
          EMPTY, {PHONE}, {PHONE_KEY})
  }

  function TwoTables(onA: bool, onB: bool): map<NodeId, Table> {
    map[A := if onA then map[PHONE_KEY := TUNNEL] else map[],
        B := if onB then map[PHONE_KEY := TUNNEL] else map[]]
  }

  /** Deleting the phone marks both peers. */
  lemma TwoNodesDelete()
    ensures DeleteDevice(TwoNodes(Active, Active, false, false), PHONE, NOW)
            == TwoNodes(PendingDelete, PendingDelete, true, false)
  {
    var p := TwoNodes(Active, Active, false, false);
    var q := Tombstone(p, PHONE, NOW);
    assert q == TwoNodes(PendingDelete, PendingDelete, true, false);
    assert PeerKey(A, PHONE) in q.peers && q.peers[PeerKey(A, PHONE)].status == PendingDelete;
    assert !ConfirmedGone(q, PHONE);
    assert DeleteDevice(p, PHONE, NOW).devices == q.devices;
  }

  lemma NothingToPurge(p: Panel)
    requires forall u | u in p.users :: p.users[u].profile.None?
    requires forall k | k in p.peers :: k.device in p.devices
    ensures PurgeConfirmed(p) == p
  {
    var due := set u | u in p.users && PurgeDue(p, u);
    assert due == {};
    var q := PurgeConfirmed(p);
    assert q.users == p.users && q.devices == p.devices && q.peers == p.peers;
    var l, m := p.ledger, q.ledger;
    assert m.daily == l.daily && m.nodeDaily == l.nodeDaily && m.lifetime == l.lifetime;
    assert m.nodeLifetime == l.nodeLifetime && m.resetDay == l.resetDay;
  }

  /** A report that lists nothing confirms the removal on its node, on that node only. */
  lemma TwoNodesConfirmA()
    ensures SyncResult(TwoNodes(PendingDelete, PendingDelete, true, false), A, true, [], NOW, NoPsk)
            == TwoNodes(Deleted, PendingDelete, true, false)
  {
    var p := TwoNodes(PendingDelete, PendingDelete, true, false);
    var q := TwoNodes(Deleted, PendingDelete, true, false);
    assert ConfirmAbsent(p, PeersOn(p, A), {}) == q;
    assert PeerKey(B, PHONE) in q.peers;
    assert !ConfirmedGone(q, PHONE);
    assert ReleaseDeviceIps(q, ReleaseCandidates(q, PeersOn(p, A))).devices == q.devices;
    NothingToPurge(q);
    assert ReportedKeys([]) == {};
  }

  /** The last confirmation releases the address, whatever happened to the first node since. */
  lemma TwoNodesConfirmB()
    ensures SyncResult(TwoNodes(Deleted, PendingDelete, true, false), B, true, [], NOW, NoPsk)
            == TwoNodes(Deleted, Deleted, true, true)
  {
    var p := TwoNodes(Deleted, PendingDelete, true, false);
    var q := TwoNodes(Deleted, Deleted, true, false);
    var r := TwoNodes(Deleted, Deleted, true, true);
    assert ConfirmAbsent(p, PeersOn(p, B), {}) == q;
    assert ConfirmedGone(q, PHONE);
    assert PeerKey(B, PHONE) in PeersOn(p, B) && PHONE in ReleaseCandidates(q, PeersOn(p, B));
    assert ReleaseDeviceIps(q, ReleaseCandidates(q, PeersOn(p, B))).devices == r.devices;
    NothingToPurge(r);
    assert ReportedKeys([]) == {};
  }

  /** Seeing the resurrected tunnel in a report changes nothing: the row stays deleted. */
  lemma TwoNodesSeenOnA()
    ensures SyncResult(TwoNodes(Deleted, PendingDelete, true, false), A, true,
                       [PeerReport(PHONE_KEY, Some(Active), None, None)], NOW, NoPsk)
            == TwoNodes(Deleted, PendingDelete, true, false)
  {
    var p := TwoNodes(Deleted, PendingDelete, true, false);
    var r := PeerReport(PHONE_KEY, Some(Active), None, None);
    var loaded := PeersOn(p, A);
    forall k | IsFor(p, loaded, PHONE_KEY, k) ensures ApplyToPeer(p, k, r, NOW, NoPsk) == p {
      assert k == PeerKey(A, PHONE);
      assert WithStatus(p, k, r).peers == p.peers;
    }
    assert ApplyReport(p, loaded, r, NOW, NoPsk) == p;
    assert [r][1..] == [];
    assert ApplyReports(p, loaded, [r], NOW, NoPsk) == p;
    assert ConfirmAbsent(p, loaded, ReportedKeys([r])).peers == p.peers;
    assert PeerKey(B, PHONE) in p.peers;
    assert !ConfirmedGone(p, PHONE);
    assert ReleaseDeviceIps(p, ReleaseCandidates(p, loaded)).devices == p.devices;
    NothingToPurge(p);
  }

  lemma TwoNodesSnapshot(a: PeerStatus, b: PeerStatus, n: NodeId)
    requires n == A || n == B
    ensures IsSnapshot(TwoNodes(a, b, true, false), Snapshot(n, [PhoneWire(if n == A then a else b, false)]))
  {
    var p := TwoNodes(a, b, true, false);
    var w := PhoneWire(if n == A then a else b, false);
    var k := PeerKey(n, PHONE);
    assert k in PeersOn(p, n) && PeerPayload(p, k) == Some(w);
    assert forall j | j in PeersOn(p, n) :: j == k;
  }

  /** A state of the two-node scenario. */
  function Two(a: PeerStatus, b: PeerStatus, released: bool, onA: bool, onB: bool, job: Job): State {
    State(TwoNodes(a, b, true, released), TwoTables(onA, onB), job)
  }

  const TWO_START := State(TwoNodes(Active, Active, false, false), TwoTables(true, true), Idle)

  lemma TwoStartIsHealthy()
    ensures Start(TWO_START) && |TWO_START.panel.nodes| == 2
  {
    var p := TWO_START.panel;
    forall n | n in TWO_START.tables ensures n in p.nodes && TunnelsHeld(p, n, TWO_START.tables[n]) {
      assert HeldBy(p, n, PHONE, PHONE_KEY, PHONE_IP);
      assert Held(p, n, PHONE_KEY, PHONE_IP);
      assert TUNNEL.allowed == {PHONE_IP};
    }
  }

  lemma TablesChanged(onA: bool, onB: bool, n: NodeId)
    requires n == A || n == B
    ensures TwoTables(onA, onB)[n := map[]] == TwoTables(onA && n != A, onB && n != B)
    ensures TwoTables(onA, onB)[n := map[PHONE_KEY := TUNNEL]] == TwoTables(onA || n == A, onB || n == B)
  {
  }

  lemma TwoNodesRemove(hosts: seq<Ip>, c: Config, a: PeerStatus, b: PeerStatus, n: NodeId, onA: bool, onB: bool)
    requires c.maxNodes >= 2 && (n == A || n == B) && (if n == A then a else b) == PendingDelete
    requires if n == A then onA else onB
    requires Reaches(hosts, c, TWO_START, Two(a, b, false, onA, onB, Idle))
    ensures Reaches(hosts, c, TWO_START, Two(a, b, false, onA && n != A, onB && n != B, Dumped(n, {}, [])))
  {
    var f := Two(a, b, false, onA, onB, Idle);
    TwoNodesSnapshot(a, b, n);
    var left: Table := map[];
    assert left.Keys == {};
    RemovalJob(hosts, c, TWO_START, f, n, PhoneWire(PendingDelete, false), left);
    TablesChanged(onA, onB, n);
  }

  /** The resurrecting sync: the confirmed peer travels as `deleted`, which the worker puts back. */
  lemma TwoNodesInstall(hosts: seq<Ip>, c: Config)
    requires c.maxNodes >= 2
    requires Reaches(hosts, c, TWO_START, Two(Deleted, PendingDelete, false, false, true, Idle))
    ensures Reaches(hosts, c, TWO_START, Two(Deleted, PendingDelete, false, true, true, Dumped(A, {PHONE_KEY}, [])))
  {
    var f := Two(Deleted, PendingDelete, false, false, true, Idle);
    var put := Put(PHONE_KEY, PHONE_IP, PSK);
    var full: Table := map[PHONE_KEY := TUNNEL];
    assert full.Keys == {PHONE_KEY};
    TwoNodesSnapshot(Deleted, PendingDelete, A);
    InstallJob(hosts, c, TWO_START, f, A, PhoneWire(Deleted, false));
    PutLands(hosts, c, TWO_START, f.(job := Applying(A, [put], [], [])), A, put, full);
    TablesChanged(false, true, A);
  }

  lemma SeenIsTheReport()
    ensures var reports := [PeerReport(PHONE_KEY, Some(Active), None, None)];
            ReportedKeys(reports) == {PHONE_KEY} && FromDump(reports)
  {
    var reports := [PeerReport(PHONE_KEY, Some(Active), None, None)];
    assert reports[0] in reports;
  }

  lemma TwoNodesResurrect(hosts: seq<Ip>, c: Config)
    requires c.maxNodes >= 2
    requires Reaches(hosts, c, TWO_START, Two(Deleted, PendingDelete, false, false, true, Idle))
    ensures Reaches(hosts, c, TWO_START, Two(Deleted, PendingDelete, false, true, true, Idle))
  {
    TwoNodesInstall(hosts, c);
    SeenIsTheReport();
    TwoNodesSeenOnA();
    ReportLands(hosts, c, TWO_START, Two(Deleted, PendingDelete, false, true, true, Dumped(A, {PHONE_KEY}, [])), A,
                [PeerReport(PHONE_KEY, Some(Active), None, None)], TwoNodes(Deleted, PendingDelete, true, false));
  }

  /**
   Two nodes break exclusivity: the phone is deleted, A confirms, the next sync of A installs it again
   because its confirmed peer counts as one to put, B confirms, and the address is released while the
   tunnel on A is still there.
   */
  lemma TwoNodesReuse(hosts: seq<Ip>, c: Config)
    requires c.maxNodes >= 2
    ensures Reaches(hosts, c, TWO_START, Two(Deleted, Deleted, true, true, false, Idle))
    ensures !Exclusive(Two(Deleted, Deleted, true, true, false, Idle))
  {
    TwoNodesDeleted(hosts, c);
    TwoNodesRemove(hosts, c, PendingDelete, PendingDelete, A, true, true);
    TwoNodesConfirmA();
    TwoNodesReported(hosts, c, TwoNodes(PendingDelete, PendingDelete, true, false), TwoTables(false, true), A,
                     TwoNodes(Deleted, PendingDelete, true, false));
    TwoNodesResurrect(hosts, c);
    TwoNodesRemove(hosts, c, Deleted, PendingDelete, B, true, true);
    TwoNodesConfirmB();
    TwoNodesReported(hosts, c, TwoNodes(Deleted, PendingDelete, true, false), TwoTables(true, false), B,
                     TwoNodes(Deleted, Deleted, true, true));
    TunnelOutlivesRelease();
  }

  lemma TwoNodesDeleted(hosts: seq<Ip>, c: Config)
    requires c.maxNodes >= 2
    ensures Reaches(hosts, c, TWO_START, Two(PendingDelete, PendingDelete, false, true, true, Idle))
  {
    ReachesSelf(hosts, c, TWO_START);
    TwoNodesDelete();
    ReachesNext(hosts, c, TWO_START, TWO_START, Transaction(DeleteStep(PHONE, NOW)));
  }

  lemma TwoNodesReported(hosts: seq<Ip>, c: Config, p: Panel, tables: map<NodeId, Table>, n: NodeId, q: Panel)
    requires c.maxNodes >= 2 && |q.nodes| == 2
    requires Reaches(hosts, c, TWO_START, State(p, tables, Dumped(n, {}, [])))
    requires SyncResult(p, n, true, [], NOW, NoPsk) == q
    ensures Reaches(hosts, c, TWO_START, State(q, tables, Idle))
  {
    assert ReportedKeys([]) == {};
    ReportLands(hosts, c, TWO_START, State(p, tables, Dumped(n, {}, [])), n, [], q);
  }

  lemma TunnelOutlivesRelease()
    ensures !Exclusive(Two(Deleted, Deleted, true, true, false, Idle))
  {
    var g := Two(Deleted, Deleted, true, true, false, Idle);
    assert PHONE_KEY in g.tables[A];
    assert forall d, ip :: !HoldsAddress(g.panel, d, PHONE_KEY, ip);
  }

  // --- one node, an account removed -----------------------------------------

  const ONE_START := State(
    Panel(map[ALICE := Account(false)], {A}, map[PHONE := PhoneRow(false, false)],
          map[PeerKey(A, PHONE) := Peer(Active, PSK, None, None)], EMPTY, {PHONE}, {PHONE_KEY}),
    map[A := map[PHONE_KEY := TUNNEL]], Idle)

  /**
   Removing an account frees its addresses at once while its tunnels stay: no later snapshot names
   their keys, so the worker never removes them. This holds from every state.
   */
  lemma RemovedAccountLeavesTunnel(f: State, u: UserId, n: NodeId, d: DeviceId, key: Key)
    requires Committed(f.panel) && n in f.tables && key in f.tables[n]
    requires d in f.panel.devices && f.panel.devices[d].key == Some(key) && f.panel.devices[d].owner == u
    ensures !Exclusive(f.(panel := RemoveUsers(f.panel, {u})))
  {
    var q := RemoveUsers(f.panel, {u});
    forall e, ip ensures !HoldsAddress(q, e, key, ip) {
      if e in q.devices { assert e in f.panel.devices && (e == d || f.panel.devices[d].key != f.panel.devices[e].key); }
    }
  }

  lemma OneStartIsHealthy()
    ensures Start(ONE_START) && |ONE_START.panel.nodes| == 1
  {
    assert HeldBy(ONE_START.panel, A, PHONE, PHONE_KEY, PHONE_IP);
    assert Held(ONE_START.panel, A, PHONE_KEY, PHONE_IP);
    assert TunnelsHeld(ONE_START.panel, A, ONE_START.tables[A]);
  }

  lemma RemovalHappens(hosts: seq<Ip>, c: Config, f: State, u: UserId)
    requires c.removesAccounts && u in f.panel.users && f.panel.users[u].profile.None?
    requires Reaches(hosts, c, f, f) && |f.panel.nodes| <= c.maxNodes
    ensures Reaches(hosts, c, f, f.(panel := RemoveUsers(f.panel, {u})))
  {
    ReachesNext(hosts, c, f, f, RemoveAccount(u));
  }

  lemma RemovedAccountReuse(hosts: seq<Ip>, c: Config) returns (g: State)
    requires c.maxNodes >= 1 && c.removesAccounts
    ensures Start(ONE_START) && Reaches(hosts, c, ONE_START, g) && !Exclusive(g)
  {
    var f := ONE_START;
    OneStartIsHealthy();
    assert PHONE_KEY in f.tables[A] && f.panel.devices[PHONE].owner == ALICE;
    ReachesSelf(hosts, c, f);
    RemovalHappens(hosts, c, f, ALICE);
    RemovedAccountLeavesTunnel(f, ALICE, A, PHONE, PHONE_KEY);
    g := f.(panel := RemoveUsers(f.panel, {ALICE}));
  }

  // --- one node, a report that commits halfway ------------------------------

  const LAPTOP: DeviceId := 1
  const LAPTOP_KEY: Key := 8
  const LAPTOP_IP: Ip := 3

  /** Bob's first sample: 5 bytes over a limit of 1. */
  const SAMPLE := PeerReport(LAPTOP_KEY, Some(Active), Some(5), Some(0))
  const BOOKED := BookDelta(EMPTY, BOB, A, 0, 5, 0)

  function BobRow(limited: bool): User {
    User(limited, if limited then LifeLimited else LifeActive, None, 1, 0, None)
  }

  function LaptopPeer(limited: bool): Peer {
    if limited then Peer(PendingDelete, PSK, Some(5), Some(0)) else Peer(Active, PSK, Some(0), Some(0))
  }

  /** Alice's phone is being removed or restored while Bob runs into his traffic limit. */
  function Shared(aliceBlocked: bool, phone: PeerStatus, deleted: bool, bobLimited: bool): Panel {
    Panel(map[ALICE := Account(aliceBlocked), BOB := BobRow(bobLimited)], {A},
          map[PHONE := PhoneRow(deleted, deleted),
              LAPTOP := Device(BOB, Some(LAPTOP_KEY), Some(LAPTOP_IP), None, None)],
          map[PeerKey(A, PHONE) := Peer(phone, PSK, None, None), PeerKey(A, LAPTOP) := LaptopPeer(bobLimited)],
          if bobLimited then BOOKED else EMPTY, {PHONE, LAPTOP}, {PHONE_KEY, LAPTOP_KEY})
  }

  const LAPTOP_ONLY: Table := map[LAPTOP_KEY := Tunnel({LAPTOP_IP}, PSK, PSK)]

  const SHARED_START := State(Shared(true, PendingDelete, false, false), map[A := LAPTOP_ONLY], Idle)

  function LaptopWire(bobLimited: bool): WirePeer {
    WirePeer(Some(LAPTOP_KEY), LAPTOP_IP, PSK, LaptopPeer(bobLimited).status, bobLimited)
  }

  lemma SharedStartIsHealthy()
    ensures Start(SHARED_START)
  {
    var p := SHARED_START.panel;
    assert HeldBy(p, A, LAPTOP, LAPTOP_KEY, LAPTOP_IP);
    assert Held(p, A, LAPTOP_KEY, LAPTOP_IP);
    assert TunnelsHeld(p, A, LAPTOP_ONLY);
  }

  lemma SharedSnapshot(aliceBlocked: bool, phone: PeerStatus, bobLimited: bool)
    ensures IsSnapshot(Shared(aliceBlocked, phone, false, bobLimited),
                       Snapshot(A, [PhoneWire(phone, aliceBlocked), LaptopWire(bobLimited)]))
  {
    var p := Shared(aliceBlocked, phone, false, bobLimited);
    var peers := [PhoneWire(phone, aliceBlocked), LaptopWire(bobLimited)];
    assert PeerKey(A, PHONE) in PeersOn(p, A) && PeerPayload(p, PeerKey(A, PHONE)) == Some(peers[0]);
    assert PeerKey(A, LAPTOP) in PeersOn(p, A) && PeerPayload(p, PeerKey(A, LAPTOP)) == Some(peers[1]);
    assert forall j | j in PeersOn(p, A) :: j == PeerKey(A, PHONE) || j == PeerKey(A, LAPTOP);
  }

  /** Bob's sample books his traffic and blocks him. */
  lemma SampleBlocksBob()
    ensures var p, k := SHARED_START.panel, PeerKey(A, LAPTOP);
            && ApplyToPeer(p, k, SAMPLE, NOW, NoPsk) == Shared(true, PendingDelete, false, true)
            && ApplyPeerResult(p, k, SAMPLE, NOW).peers[k].status == Active
            && Sampled(p, k, SAMPLE)
  {
    var p, k := SHARED_START.panel, PeerKey(A, LAPTOP);
    var q := ApplyPeerResult(p, k, SAMPLE, NOW);
    assert q.ledger == BOOKED && q.users == p.users && q.devices == p.devices;
    assert q.peers[k] == Peer(Active, PSK, Some(5), Some(0));
    assert LifetimeTotal(q, BOB) == 5;
    assert DesiredStatus(q.users[BOB], 5, NOW) == LifeLimited;
    var r := EnforceLocal(q, BOB, NOW, NoPsk);
    assert r.users == Shared(true, PendingDelete, false, true).users;
    assert r.peers == Shared(true, PendingDelete, false, true).peers;
  }

  /** The first half of the report: it blocks Bob, so it queues a sync and commits. */
  lemma FirstHalfCommits()
    ensures var p := SHARED_START.panel;
            && ApplyReports(p, PeersOn(p, A), [SAMPLE], NOW, NoPsk) == Shared(true, PendingDelete, false, true)
            && CommitsHalfway(p, PeersOn(p, A), [SAMPLE], NOW, NoPsk)
  {
    var p, k := SHARED_START.panel, PeerKey(A, LAPTOP);
    var loaded := PeersOn(p, A);
    SampleBlocksBob();
    assert k in loaded && IsFor(p, loaded, LAPTOP_KEY, k);
    forall j | IsFor(p, loaded, LAPTOP_KEY, j) ensures j == k {}
    var q := Shared(true, PendingDelete, false, true);
    assert q.peers[k].status == PendingDelete;
    assert ApplyReport(p, loaded, SAMPLE, NOW, NoPsk) == q;
    assert [SAMPLE][1..] == [];
  }

  lemma UnblockedPhone()
    ensures var p := Shared(true, PendingDelete, false, true);
            RecoverOwner(p, ALICE, Account(true).(lifecycle := LifeActive), NoPsk)
                == Shared(false, Pending, false, true)
  {
    var p, q := Shared(true, PendingDelete, false, true), Shared(false, Pending, false, true);
    var r := UnblockOwner(p, ALICE, Account(true).(lifecycle := LifeActive));
    assert r.peers == q.peers;
    assert r.users == q.users;
    assert MissingForUser(r, ALICE) == {};
    assert AddPeers(r, {}, NoPsk).peers == r.peers;
  }

  lemma RecoverReplacesRow(p: Panel, u: UserId, written: User, row: User)
    ensures RecoverOwner(p.(users := p.users[u := written]), u, row, NoPsk) == RecoverOwner(p, u, row, NoPsk)
  {
    var m := p.(users := p.users[u := written]);
    assert m.users[u := row.(isBlocked := false)] == p.users[u := row.(isBlocked := false)];
    assert PeersRestored(m, u) == PeersRestored(p, u);
  }

  /** Alice is unblocked in between: her phone's peer is pending again. */
  lemma UnblockInBetween()
    ensures EditLocal(Shared(true, PendingDelete, false, true), ALICE, Unblock, NOW, NoPsk)
              == Shared(false, Pending, false, true)
  {
    var p := Shared(true, PendingDelete, false, true);
    var row := p.users[ALICE].(lifecycle := LifeActive);
    assert row == Account(true).(lifecycle := LifeActive);
    RecoverReplacesRow(p, ALICE, row, row);
    UnblockedPhone();
  }

  function StaleRead(): map<PeerKey, PeerStatus> {
    map[PeerKey(A, PHONE) := PendingDelete, PeerKey(A, LAPTOP) := PendingDelete]
  }

  lemma NothingReleased(ds: set<DeviceId>)
    ensures ReleaseDeviceIps(Shared(false, Deleted, false, true), ds) == Shared(false, Deleted, false, true)
  {
    var q := Shared(false, Deleted, false, true);
    assert ReleaseDeviceIps(q, ds).devices == q.devices;
  }

  /** The second half writes what it read: the restored peer becomes `deleted`. */
  lemma SecondHalfOverwrites()
    ensures ConfirmFromStale(Shared(false, Pending, false, true), StaleRead(), {LAPTOP_KEY})
              == Shared(false, Deleted, false, true)
  {
    var p, q := Shared(false, Pending, false, true), Shared(false, Deleted, false, true);
    var stale := StaleRead();
    assert q.peers == map k | k in p.peers ::
             if k in stale && stale[k] == PendingDelete && Absent(p, k, {LAPTOP_KEY})
             then p.peers[k].(status := Deleted) else p.peers[k];
    NothingReleased(set k | k in stale
        && (stale[k] == Deleted || (stale[k] == PendingDelete && Absent(p, k, {LAPTOP_KEY}))) :: k.device);
    NothingToPurge(q);
  }

  /** Deleting the phone now releases its address at once: all its peers read as confirmed gone. */
  lemma DeletionReleasesAtOnce()
    ensures DeleteDevice(Shared(false, Deleted, false, true), PHONE, NOW) == Shared(false, Deleted, true, true)
  {
    var p, r := Shared(false, Deleted, false, true), Shared(false, Deleted, true, true);
    var q := Tombstone(p, PHONE, NOW);
    assert q.peers == p.peers;
    assert ConfirmedGone(q, PHONE);
    assert DeleteDevice(p, PHONE, NOW).devices == r.devices;
  }

  function SharedState(aliceBlocked: bool, phone: PeerStatus, deleted: bool, bobLimited: bool, t: Table,
                       job: Job): State {
    State(Shared(aliceBlocked, phone, deleted, bobLimited), map[A := t], job)
  }

  lemma SplitTwo(v: WirePeer, w: WirePeer)
    ensures PutsOf([v, w]) == PutsOf([v]) + PutsOf([w]) && DeletesOf([v, w]) == DeletesOf([v]) + DeletesOf([w])
  {
    assert [v, w][..1] == [v] && [v][..0] == [] == [w][..0];
  }

  lemma SplitSingle(w: WirePeer)
    requires w.key.Some?
    ensures PutsOf([w]) == if IsPut(w) then [Put(w.key.value, w.ip, w.psk)] else []
    ensures DeletesOf([w]) == if IsDelete(w) then [w.key.value] else []
  {
    assert [w][..0] == [];
  }

  /** Nothing to send the first time: the phone is off the node already and the laptop matches. */
  lemma FirstSplit()
    ensures PutsToSend(PutsOf([PhoneWire(PendingDelete, true), LaptopWire(false)]), LAPTOP_ONLY) == []
    ensures DeletesToSend(DeletesOf([PhoneWire(PendingDelete, true), LaptopWire(false)]), LAPTOP_ONLY) == []
  {
    var phone, laptop := PhoneWire(PendingDelete, true), LaptopWire(false);
    SplitTwo(phone, laptop);
    SplitSingle(phone);
    SplitSingle(laptop);
    assert PutsOf([phone, laptop]) == [Put(LAPTOP_KEY, LAPTOP_IP, PSK)] && DeletesOf([phone, laptop]) == [PHONE_KEY];
  }

  /** The second time the phone's peer travels as `deleted`, so it is put. */
  lemma SecondSplit()
    ensures PutsToSend(PutsOf([PhoneWire(Deleted, false), LaptopWire(true)]), LAPTOP_ONLY)
              == [Put(PHONE_KEY, PHONE_IP, PSK)]
    ensures DeletesToSend(DeletesOf([PhoneWire(Deleted, false), LaptopWire(true)]), LAPTOP_ONLY) == [LAPTOP_KEY]
  {
    var phone, laptop := PhoneWire(Deleted, false), LaptopWire(true);
    SplitTwo(phone, laptop);
    SplitSingle(phone);
    SplitSingle(laptop);
    assert PutsOf([phone, laptop]) == [Put(PHONE_KEY, PHONE_IP, PSK)] && DeletesOf([phone, laptop]) == [LAPTOP_KEY];
  }

  lemma SharedBegun(hosts: seq<Ip>, c: Config)
    requires c.maxNodes >= 1
    ensures Reaches(hosts, c, SHARED_START,
                    SharedState(true, PendingDelete, false, false, LAPTOP_ONLY, Applying(A, [], [], [])))
  {
    ReachesSelf(hosts, c, SHARED_START);
    SharedSnapshot(true, PendingDelete, false);
    FetchAndBegin(hosts, c, SHARED_START, SHARED_START, A, [PhoneWire(PendingDelete, true), LaptopWire(false)]);
    FirstSplit();
  }

  lemma SharedDumped(hosts: seq<Ip>, c: Config)
    requires c.maxNodes >= 1
    ensures Reaches(hosts, c, SHARED_START,
                    SharedState(true, PendingDelete, false, false, LAPTOP_ONLY, Dumped(A, {LAPTOP_KEY}, [])))
  {
    SharedBegun(hosts, c);
    assert LAPTOP_ONLY.Keys == {LAPTOP_KEY};
    DumpReached(hosts, c, SHARED_START,
                SharedState(true, PendingDelete, false, false, LAPTOP_ONLY, Applying(A, [], [], [])), A, LAPTOP_ONLY);
  }

  lemma FirstHalfHappens(hosts: seq<Ip>, c: Config, f: State, n: NodeId, reports: seq<PeerReport>, q: Panel,
                         stale: map<PeerKey, PeerStatus>)
    requires c.splitsReports && f.job == Dumped(n, ReportedKeys(reports), []) && FromDump(reports)
    requires CommitsHalfway(f.panel, PeersOn(f.panel, n), reports, NOW, NoPsk)
    requires ApplyReports(f.panel, PeersOn(f.panel, n), reports, NOW, NoPsk) == q
    requires stale == map k | k in PeersOn(f.panel, n) && k in q.peers :: q.peers[k].status
    ensures Legal(c, f, ReportFirstHalf(reports, NOW, NoPsk))
    ensures After(hosts, f, ReportFirstHalf(reports, NOW, NoPsk)) ==
            f.(panel := q, job := HalfReported(n, stale, ReportedKeys(reports), []))
  {
  }

  lemma SampleIsTheReport()
    ensures ReportedKeys([SAMPLE]) == {LAPTOP_KEY} && FromDump([SAMPLE])
  {
    assert SAMPLE in [SAMPLE];
  }

  lemma StaleReadIsWhatItRead()
    ensures var p, q := Shared(true, PendingDelete, false, false), Shared(true, PendingDelete, false, true);
            StaleRead() == map k | k in PeersOn(p, A) && k in q.peers :: q.peers[k].status
  {
  }

  lemma SharedHalfReported(hosts: seq<Ip>, c: Config)
    requires c.maxNodes >= 1 && c.splitsReports
    ensures Reaches(hosts, c, SHARED_START,
                    SharedState(true, PendingDelete, false, true, LAPTOP_ONLY,
                                HalfReported(A, StaleRead(), {LAPTOP_KEY}, [])))
  {
    var f := SharedState(true, PendingDelete, false, false, LAPTOP_ONLY, Dumped(A, {LAPTOP_KEY}, []));
    SharedDumped(hosts, c);
    SampleIsTheReport();
    FirstHalfCommits();
    StaleReadIsWhatItRead();
    FirstHalfHappens(hosts, c, f, A, [SAMPLE], Shared(true, PendingDelete, false, true), StaleRead());
    ReachesNext(hosts, c, SHARED_START, f, ReportFirstHalf([SAMPLE], NOW, NoPsk));
  }

  lemma UnblockHappens(hosts: seq<Ip>, c: Config, f: State)
    requires f.panel == Shared(true, PendingDelete, false, true)
    ensures Legal(c, f, Transaction(EditStep(ALICE, Unblock, NOW, NoPsk)))
    ensures After(hosts, f, Transaction(EditStep(ALICE, Unblock, NOW, NoPsk)))
            == f.(panel := Shared(false, Pending, false, true))
  {
    UnblockInBetween();
  }

  lemma SecondHalfHappens(hosts: seq<Ip>, c: Config, f: State)
    requires f.panel == Shared(false, Pending, false, true)
    requires f.job == HalfReported(A, StaleRead(), {LAPTOP_KEY}, [])
    ensures Legal(c, f, ReportSecondHalf)
    ensures After(hosts, f, ReportSecondHalf) == f.(panel := Shared(false, Deleted, false, true), job := Idle)
  {
    SecondHalfOverwrites();
  }

  lemma SharedConfirmed(hosts: seq<Ip>, c: Config)
    requires c.maxNodes >= 1 && c.splitsReports
    ensures Reaches(hosts, c, SHARED_START, SharedState(false, Deleted, false, true, LAPTOP_ONLY, Idle))
  {
    var half := HalfReported(A, StaleRead(), {LAPTOP_KEY}, []);
    var f, g := SharedState(true, PendingDelete, false, true, LAPTOP_ONLY, half),
      SharedState(false, Pending, false, true, LAPTOP_ONLY, half);
    SharedHalfReported(hosts, c);
    UnblockHappens(hosts, c, f);
    ReachesNext(hosts, c, SHARED_START, f, Transaction(EditStep(ALICE, Unblock, NOW, NoPsk)));
    SecondHalfHappens(hosts, c, g);
    ReachesNext(hosts, c, SHARED_START, g, ReportSecondHalf);
  }

  lemma DeletionHappens(hosts: seq<Ip>, c: Config, f: State)
    requires f.panel == Shared(false, Deleted, false, true)
    ensures Legal(c, f, Transaction(DeleteStep(PHONE, NOW)))
    ensures After(hosts, f, Transaction(DeleteStep(PHONE, NOW))) == f.(panel := Shared(false, Deleted, true, true))
  {
    DeletionReleasesAtOnce();
  }

  lemma SharedDeleted(hosts: seq<Ip>, c: Config)
    requires c.maxNodes >= 1 && c.splitsReports
    ensures Reaches(hosts, c, SHARED_START,
                    SharedState(false, Deleted, true, true, LAPTOP_ONLY,
                                Applying(A, [Put(PHONE_KEY, PHONE_IP, PSK)], [LAPTOP_KEY], [])))
  {
    SharedConfirmed(hosts, c);
    var f := SharedState(false, Deleted, false, true, LAPTOP_ONLY, Idle);
    var applying := Applying(A, [Put(PHONE_KEY, PHONE_IP, PSK)], [LAPTOP_KEY], []);
    SharedSnapshot(false, Deleted, true);
    FetchAndBegin(hosts, c, SHARED_START, f, A, [PhoneWire(Deleted, false), LaptopWire(true)]);
    SecondSplit();
    DeletionHappens(hosts, c, f.(job := applying));
    ReachesNext(hosts, c, SHARED_START, f.(job := applying), Transaction(DeleteStep(PHONE, NOW)));
  }

  /** The put in flight lands after the deletion that released its address. */
  lemma SplitReportReuse(hosts: seq<Ip>, c: Config) returns (g: State)
    requires c.maxNodes >= 1 && c.splitsReports
    ensures Start(SHARED_START) && Reaches(hosts, c, SHARED_START, g) && !Exclusive(g)
  {
    SharedStartIsHealthy();
    SharedDeleted(hosts, c);
    var put := Put(PHONE_KEY, PHONE_IP, PSK);
    var h := SharedState(false, Deleted, true, true, LAPTOP_ONLY, Applying(A, [put], [LAPTOP_KEY], []));
    PutHappens(hosts, c, h, A, put, [LAPTOP_KEY]);
    ReachesNext(hosts, c, SHARED_START, h, SendPut);
    g := After(hosts, h, SendPut);
    assert PHONE_KEY in g.tables[A];
    assert forall d, ip :: !HoldsAddress(g.panel, d, PHONE_KEY, ip);
  }

  // --- the exact statement --------------------------------------------------

  /** Every state every healthy start can reach is exclusive. */
  ghost predicate AlwaysExclusive(hosts: seq<Ip>, c: Config) {
    forall f, g :: Start(f) && Reaches(hosts, c, f, g) ==> Exclusive(g)
  }

  /**
   Address exclusivity holds in every run exactly when no node is managed, or when one is and neither
   account removal nor a report that commits halfway is in play.
   */
  lemma ExclusivityExactly(hosts: seq<Ip>, c: Config)
    ensures AlwaysExclusive(hosts, c) <==>
            c.maxNodes == 0 || (c.maxNodes == 1 && !c.removesAccounts && !c.splitsReports)
  {
    if c.maxNodes == 0 || (c.maxNodes == 1 && !c.removesAccounts && !c.splitsReports) {
      forall f, g | Start(f) && Reaches(hosts, c, f, g) ensures Exclusive(g) {
        var states, events :| IsRun(hosts, c, states, events) && states[0] == f && states[|events|] == g;
        if c.maxNodes == 0 {
          NoNodeNoTunnel(hosts, c, states, events, |events|);
        } else {
          OneNodeIsExclusive(hosts, c, states, events, |events|);
        }
      }
    } else if c.maxNodes >= 2 {
      TwoStartIsHealthy();
      TwoNodesReuse(hosts, c);
    } else if c.removesAccounts {
      var g := RemovedAccountReuse(hosts, c);
    } else {
      var g := SplitReportReuse(hosts, c);
    }
  }
}
