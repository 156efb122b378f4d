/**
 The panel's database session. Rows are read and written in place, one loop turn at a time, as the
 services do; every method is proved to do what the function of the same name says, so what is proved
 about those functions holds of the database.
 */
module PanelDb {
  import opened Options
  import opened TrafficLedger
  import opened PanelModel
  import D = Devices
  import L = Lifecycle
  import N = NodeResults
  import T = TrafficLedger

  // --- what one turn of a loop does -----------------------------------------

  function SetStatus(p: Panel, ks: set<PeerKey>, s: PeerStatus): Panel {
    p.(peers := map k | k in p.peers :: if k in ks then p.peers[k].(status := s) else p.peers[k])
  }

  function NodesIn(ks: set<PeerKey>): set<NodeId> {
    set k | k in ks :: k.node
  }

  /** The nodes on which some peer was created or changed its status. */
  function TouchedNodes(p: Panel, q: Panel): set<NodeId> {
    NodesIn(set k | k in q.peers && (k !in p.peers || p.peers[k].status != q.peers[k].status))
  }

  lemma SetOneMore(p: Panel, ks: set<PeerKey>, k: PeerKey, s: PeerStatus)
    requires k in p.peers && k !in ks
    ensures var q := SetStatus(p, ks, s);
            && q.peers[k] == p.peers[k]
            && q.(peers := q.peers[k := q.peers[k].(status := s)]) == SetStatus(p, ks + {k}, s)
  {
    var q := SetStatus(p, ks, s);
    assert q.peers[k := q.peers[k].(status := s)] == SetStatus(p, ks + {k}, s).peers;
  }

  lemma SetTouches(p: Panel, ks: set<PeerKey>, s: PeerStatus)
    requires forall k | k in ks :: k in p.peers && p.peers[k].status != s
    ensures TouchedNodes(p, SetStatus(p, ks, s)) == NodesIn(ks)
  {
    var q := SetStatus(p, ks, s);
    assert ks == set k | k in q.peers && (k !in p.peers || p.peers[k].status != q.peers[k].status);
  }

  lemma AddOneMore(p: Panel, ks: set<PeerKey>, js: set<PeerKey>, psk: PeerKey -> Psk)
    ensures D.AddPeers(D.AddPeers(p, ks, psk), js, psk) == D.AddPeers(p, ks + js, psk)
  {
    var a := map k | k in ks :: Peer(Pending, psk(k), None, None);
    var b := map k | k in js :: Peer(Pending, psk(k), None, None);
    assert a + b == map k | k in ks + js :: Peer(Pending, psk(k), None, None);
    assert p.peers + a + b == p.peers + (a + b);
  }

  lemma AddTouches(p: Panel, ks: set<PeerKey>, psk: PeerKey -> Psk)
    requires forall k | k in ks :: k !in p.peers
    ensures TouchedNodes(p, D.AddPeers(p, ks, psk)) == NodesIn(ks)
  {
    var q := D.AddPeers(p, ks, psk);
    assert ks == set k | k in q.peers && (k !in p.peers || p.peers[k].status != q.peers[k].status);
  }

  lemma ReleaseOneMore(p: Panel, ids: set<DeviceId>, d: DeviceId)
    requires d in p.devices && d !in ids
    ensures var q := D.ReleaseDeviceIps(p, ids);
            q.(devices := q.devices[d := D.ReleasedRow(q, d)]) == D.ReleaseDeviceIps(p, ids + {d})
  {
    var q := D.ReleaseDeviceIps(p, ids);
    assert ConfirmedGone(p, d) == ConfirmedGone(q, d);
    assert q.devices[d := D.ReleasedRow(q, d)] == D.ReleaseDeviceIps(p, ids + {d}).devices;
  }

  /** What the given devices miss on one node. */
  function MissingAt(p: Panel, n: NodeId, ds: set<DeviceId>): set<PeerKey> {
    set d | d in ds && D.CanProvision(p, PeerKey(n, d)) :: PeerKey(n, d)
  }

  function DevicesIn(ks: set<PeerKey>): set<DeviceId> {
    set k | k in ks :: k.device
  }

  lemma DeviceOneMore(p: Panel, n: NodeId, ds: set<DeviceId>, d: DeviceId, psk: PeerKey -> Psk)
    requires d !in ds
    ensures var q, k := D.AddPeers(p, MissingAt(p, n, ds), psk), PeerKey(n, d);
            && D.CanProvision(q, k) == D.CanProvision(p, k)
            && D.AddPeers(p, MissingAt(p, n, ds + {d}), psk) == if D.CanProvision(p, k) then D.AddPeers(q, {k}, psk)
                else q
    ensures DevicesIn(MissingAt(p, n, ds + {d}))
         == DevicesIn(MissingAt(p, n, ds)) + if D.CanProvision(p, PeerKey(n, d)) then {d} else {}
  {
    var was, now, k := MissingAt(p, n, ds), MissingAt(p, n, ds + {d}), PeerKey(n, d);
    assert k !in was;
    if D.CanProvision(p, k) {
      assert now == was + {k};
      AddOneMore(p, was, {k}, psk);
    } else {
      assert now == was;
    }
  }

  /** What the given devices miss, on all nodes. */
  function MissingOf(p: Panel, ds: set<DeviceId>): set<PeerKey> {
    set n, d | n in p.nodes && d in ds && D.CanProvision(p, PeerKey(n, d)) :: PeerKey(n, d)
  }

  lemma MissingOneMore(p: Panel, ds: set<DeviceId>, d: DeviceId, here: set<NodeId>, psk: PeerKey -> Psk)
    requires d in p.devices && d !in ds
    requires here == set n | n in p.nodes && D.CanProvision(D.AddPeers(p, MissingOf(p, ds), psk), PeerKey(n, d))
    ensures D.AddPeers(D.AddPeers(p, MissingOf(p, ds), psk), set n | n in here :: PeerKey(n, d), psk)
         == D.AddPeers(p, MissingOf(p, ds + {d}), psk)
    ensures NodesIn(MissingOf(p, ds + {d})) == NodesIn(MissingOf(p, ds)) + here
  {
    var more := set n | n in here :: PeerKey(n, d);
    AddOneMore(p, MissingOf(p, ds), more, psk);
    assert MissingOf(p, ds + {d}) == MissingOf(p, ds) + more;
    assert NodesIn(more) == here by {
      forall n | n in here ensures n in NodesIn(more) { assert PeerKey(n, d) in more; }
    }
    assert NodesIn(MissingOf(p, ds) + more) == NodesIn(MissingOf(p, ds)) + NodesIn(more);
  }

  /** No peer changes in both halves: what was touched is what either half touched. */
  lemma TouchedInTurn(p: Panel, q: Panel, r: Panel)
    requires p.peers.Keys <= q.peers.Keys <= r.peers.Keys
    requires forall k | k in q.peers ::
               r.peers[k].status == q.peers[k].status || (k in p.peers && p.peers[k].status == q.peers[k].status)
    ensures TouchedNodes(p, r) == TouchedNodes(p, q) + TouchedNodes(q, r)
  {
    var a := set k | k in q.peers && (k !in p.peers || p.peers[k].status != q.peers[k].status);
    var b := set k | k in r.peers && (k !in q.peers || q.peers[k].status != r.peers[k].status);
    assert a + b == set k | k in r.peers && (k !in p.peers || p.peers[k].status != r.peers[k].status);
    assert NodesIn(a + b) == NodesIn(a) + NodesIn(b);
  }

  lemma StaleOne(p: Panel, u: UserId)
    ensures !L.Managed(p, u) ==> L.MarkStale(p, {u}) == p
    ensures L.Managed(p, u) ==>
              var stale := p.users[u].profile.value.(sync := Stale);
              L.MarkStale(p, {u}) == p.(users := p.users[u := p.users[u].(isBlocked := true, profile := Some(stale))],
                                        peers := L.PeersBlocked(p, {u}))
  {
    var q := L.MarkStale(p, {u});
    if L.Managed(p, u) {
      assert (set v | v in {u} && L.Managed(p, v)) == {u};
      assert q.users
          == p.users[u := p.users[u].(isBlocked := true, profile := Some(p.users[u].profile.value.(sync := Stale)))];
    } else {
      assert (set v | v in {u} && L.Managed(p, v)) == {};
      assert q.users == p.users && q.peers == p.peers;
    }
  }

  lemma StaleOneMore(p: Panel, us: set<UserId>, u: UserId)
    requires u !in us
    ensures var q := L.MarkStale(p, us);
            && L.MarkStale(q, {u}) == L.MarkStale(p, us + {u})
            && TouchedNodes(p, L.MarkStale(q, {u})) == TouchedNodes(p, q) + TouchedNodes(q, L.MarkStale(q, {u}))
  {
    var q := L.MarkStale(p, us);
    var r := L.MarkStale(q, {u});
    assert r.users == L.MarkStale(p, us + {u}).users;
    assert r.peers == L.MarkStale(p, us + {u}).peers;
    TouchedInTurn(p, q, r);
  }

  lemma ForgetOneMore(l: Ledger, us: set<UserId>, u: UserId)
    ensures ForgetUsers(ForgetUsers(l, us), {u}) == ForgetUsers(l, us + {u})
  {
    var a, b := ForgetUsers(ForgetUsers(l, us), {u}), ForgetUsers(l, us + {u});
    assert a.daily == b.daily && a.nodeDaily == b.nodeDaily && a.lifetime == b.lifetime;
    assert a.nodeLifetime == b.nodeLifetime && a.resetDay == b.resetDay;
  }

  lemma NoneRemoved(p: Panel)
    requires forall k | k in p.peers :: k.device in p.devices
    ensures L.RemoveUsers(p, {}) == p
  {
    var q := L.RemoveUsers(p, {});
    assert q.users == p.users && q.devices == p.devices && q.peers == p.peers;
    assert q.ledger.daily == p.ledger.daily && q.ledger.nodeDaily == p.ledger.nodeDaily;
    assert q.ledger.lifetime == p.ledger.lifetime && q.ledger.nodeLifetime == p.ledger.nodeLifetime;
    assert q.ledger.resetDay == p.ledger.resetDay;
  }

  lemma CascadeOf(p: Panel, u: UserId, owned: set<DeviceId>, lost: set<PeerKey>)
    requires owned == set d | d in p.devices && p.devices[d].owner == u
    requires lost == set k | k in p.peers && (k.device !in p.devices || k.device in owned)
    ensures L.RemoveUsers(p, {u}) == p.(users := p.users - {u}, devices := p.devices - owned, peers := p.peers - lost,
                                        ledger := ForgetUsers(p.ledger, {u}))
  {
    var q := L.RemoveUsers(p, {u});
    assert q.users == p.users - {u} && q.devices == p.devices - owned && q.peers == p.peers - lost;
  }

  lemma RemoveOneMore(p: Panel, us: set<UserId>, u: UserId)
    ensures L.RemoveUsers(L.RemoveUsers(p, us), {u}) == L.RemoveUsers(p, us + {u})
  {
    var a, b := L.RemoveUsers(L.RemoveUsers(p, us), {u}), L.RemoveUsers(p, us + {u});
    ForgetOneMore(p.ledger, us, u);
    assert a.users == b.users && a.devices == b.devices && a.peers == b.peers;
  }

  lemma PurgeDueElsewhere(p: Panel, us: set<UserId>, u: UserId)
    requires u !in us
    ensures L.PurgeDue(L.RemoveUsers(p, us), u) == L.PurgeDue(p, u)
  {
    var q := L.RemoveUsers(p, us);
    forall k | k in p.peers && OwnedBy(p, k, u) ensures k in q.peers && OwnedBy(q, k, u) {}
  }

  // --- reports --------------------------------------------------------------

  predicate OnOneNode(loaded: set<PeerKey>) {
    forall j, k | j in loaded && k in loaded :: j.node == k.node
  }

  /** A local account is judged by the first pass only, a managed one by the second only. */
  lemma OnePassActs(p: Panel, u: UserId, now: Time, psk: PeerKey -> Psk)
    ensures var q := L.EnforceLocal(p, u, now, psk);
            var r := L.EnforceCombined(q, u);
            TouchedNodes(p, r) == TouchedNodes(p, q) + TouchedNodes(q, r)
  {
    var q := L.EnforceLocal(p, u, now, psk);
    if L.Managed(p, u) {
      assert q == p;
      assert TouchedNodes(p, q) == {};
    } else {
      assert !L.Managed(q, u);
      assert TouchedNodes(q, q) == {};
    }
  }

  /** The owners of the loaded peers whose key was reported. */
  function Acknowledged(devices: map<DeviceId, Device>, loaded: set<PeerKey>, keys: set<Key>): set<UserId> {
    set k | k in loaded && k.device in devices && devices[k.device].key.Some? && devices[k.device].key.value in keys ::
      devices[k.device].owner
  }

  lemma AcknowledgedInTurn(devices: map<DeviceId, Device>, loaded: set<PeerKey>, keys: set<Key>, more: set<Key>)
    ensures Acknowledged(devices, loaded, keys + more)
              == Acknowledged(devices, loaded, keys) + Acknowledged(devices, loaded, more)
  {
  }

  lemma OneReportMore(devices: map<DeviceId, Device>, loaded: set<PeerKey>, reports: seq<N.PeerReport>, i: nat)
    requires i < |reports|
    ensures Acknowledged(devices, loaded, N.ReportedKeys(reports[..i + 1]))
         == Acknowledged(devices, loaded, N.ReportedKeys(reports[..i]))
             + Acknowledged(devices, loaded, {reports[i].key})
  {
    assert N.ReportedKeys(reports[..i + 1]) == N.ReportedKeys(reports[..i]) + {reports[i].key};
    AcknowledgedInTurn(devices, loaded, N.ReportedKeys(reports[..i]), {reports[i].key});
  }

  lemma SameLookup(p: Panel, q: Panel, loaded: set<PeerKey>)
    requires loaded <= p.peers.Keys && loaded <= q.peers.Keys && q.devices == p.devices
    ensures forall key, k :: N.IsFor(q, loaded, key, k) == N.IsFor(p, loaded, key, k)
  {
  }

  /** The nodes the lifecycle passes of one result leave to be synced. */
  ghost function ResyncedBy(p: Panel, loaded: set<PeerKey>, r: N.PeerReport, now: Time,
                            psk: PeerKey -> Psk): set<NodeId> {
    if k: PeerKey :| N.IsFor(p, loaded, r.key, k)
    then TouchedNodes(N.ApplyPeerResult(p, k, r, now), N.ApplyToPeer(p, k, r, now, psk)) else {}
  }

  ghost function Resynced(p: Panel, loaded: set<PeerKey>, reports: seq<N.PeerReport>, now: Time,
                          psk: PeerKey -> Psk): set<NodeId>
    decreases |reports|
  {
    if reports == [] then {}
    else ResyncedBy(p, loaded, reports[0], now, psk)
         + Resynced(N.ApplyReport(p, loaded, reports[0], now, psk), loaded, reports[1..], now, psk)
  }

  /** The unique constraint on public keys. */
  ghost predicate DistinctPublicKeys(devices: map<DeviceId, Device>) {
    forall d, e | d in devices && e in devices && devices[d].key.Some? && devices[d].key == devices[e].key :: d == e
  }

  /** Keys are unique, so a reported key names one loaded peer. */
  lemma OnePeerPerKey(p: Panel, loaded: set<PeerKey>, r: N.PeerReport, k: PeerKey, now: Time, psk: PeerKey -> Psk)
    requires DistinctPublicKeys(p.devices) && OnOneNode(loaded) && N.IsFor(p, loaded, r.key, k)
    ensures N.ApplyReport(p, loaded, r, now, psk) == N.ApplyToPeer(p, k, r, now, psk)
    ensures ResyncedBy(p, loaded, r, now, psk)
              == TouchedNodes(N.ApplyPeerResult(p, k, r, now), N.ApplyToPeer(p, k, r, now, psk))
    ensures Acknowledged(p.devices, loaded, {r.key}) == {p.devices[k.device].owner}
  {
    assert forall j | N.IsFor(p, loaded, r.key, j) :: j == k;
  }

  lemma NoPeerForKey(p: Panel, loaded: set<PeerKey>, r: N.PeerReport, now: Time, psk: PeerKey -> Psk)
    requires loaded <= p.peers.Keys && forall k :: !N.IsFor(p, loaded, r.key, k)
    ensures N.ApplyReport(p, loaded, r, now, psk) == p && ResyncedBy(p, loaded, r, now, psk) == {}
    ensures Acknowledged(p.devices, loaded, {r.key}) == {}
  {
    forall k | k in loaded && k.device in p.devices ensures p.devices[k.device].key != Some(r.key) {
      assert !N.IsFor(p, loaded, r.key, k);
    }
  }

  lemma PeerReportStays(p: Panel, k: PeerKey, r: N.PeerReport, now: Time, psk: PeerKey -> Psk)
    requires k in p.peers && k.device in p.devices
    ensures var q := N.ApplyToPeer(p, k, r, now, psk); q.devices == p.devices && p.peers.Keys <= q.peers.Keys
  {
    var m := N.ApplyPeerResult(p, k, r, now);
    assert m.devices == p.devices && m.peers.Keys == p.peers.Keys;
  }

  lemma ReportStays(p: Panel, loaded: set<PeerKey>, r: N.PeerReport, now: Time, psk: PeerKey -> Psk)
    ensures var q := N.ApplyReport(p, loaded, r, now, psk);
            q.devices == p.devices && p.peers.Keys <= q.peers.Keys
  {
    forall k | N.IsFor(p, loaded, r.key, k)
      ensures var q := N.ApplyToPeer(p, k, r, now, psk); q.devices == p.devices && p.peers.Keys <= q.peers.Keys
    {
      PeerReportStays(p, k, r, now, psk);
    }
  }

  /** Turning one more waiting peer into a confirmed one. */
  lemma ConfirmOneMore(p: Panel, done: set<PeerKey>, k: PeerKey, seen: set<Key>)
    requires k in p.peers && k !in done
    ensures var q := N.ConfirmAbsent(p, done, seen);
            && q.peers[k] == p.peers[k]
            && N.ConfirmAbsent(p, done + {k}, seen)
               == if p.peers[k].status == PendingDelete && N.Absent(p, k, seen)
                  then q.(peers := q.peers[k := q.peers[k].(status := Deleted)]) else q
  {
    var q, r := N.ConfirmAbsent(p, done, seen), N.ConfirmAbsent(p, done + {k}, seen);
    if p.peers[k].status == PendingDelete && N.Absent(p, k, seen) {
      assert r.peers == q.peers[k := q.peers[k].(status := Deleted)];
    } else {
      assert r.peers == q.peers;
    }
  }

  /** After the results are applied every peer still has its device. */
  lemma SyncKeepsReferences(p: Panel, loaded: set<PeerKey>, reports: seq<N.PeerReport>, now: Time, psk: PeerKey -> Psk)
    requires Settled(p)
    ensures var q := N.ApplyReports(p, loaded, reports, now, psk);
            p.peers.Keys <= q.peers.Keys && q.devices == p.devices && forall k | k in q.peers :: k.device in q.devices
  {
    N.ApplyReportsKeeps(p, loaded, reports, now, psk);
  }

  /** The owners a successful sync announces: acknowledged ones, and those whose peers it confirmed gone. */
  function Confirmed(p: Panel, loaded: set<PeerKey>, seen: set<Key>): set<UserId> {
    set k | k in loaded && k in p.peers && p.peers[k].status == PendingDelete && N.Absent(p, k, seen) ::
        p.devices[k.device].owner
  }

  lemma ConfirmTallies(p: Panel, done: set<PeerKey>, k: PeerKey, seen: set<Key>)
    requires k in p.peers && k !in done && k.device in p.devices
    ensures Confirmed(p, done + {k}, seen)
         == Confirmed(p, done, seen)
            + if p.peers[k].status == PendingDelete && N.Absent(p, k, seen) then {p.devices[k.device].owner} else {}
    ensures var q, r := N.ConfirmAbsent(p, done, seen), N.ConfirmAbsent(p, done + {k}, seen);
            N.ReleaseCandidates(r, done + {k})
            == N.ReleaseCandidates(q, done) + if r.peers[k].status == Deleted then {k.device} else {}
  {
    var q, r := N.ConfirmAbsent(p, done, seen), N.ConfirmAbsent(p, done + {k}, seen);
    assert forall j | j in done && j in p.peers :: r.peers[j] == q.peers[j];
  }

  lemma MadeIsMissing(p: Panel, d: DeviceId, made: set<NodeId>, psk: PeerKey -> Psk)
    requires made == set n | n in p.nodes && D.CanProvision(p, PeerKey(n, d))
    ensures D.MissingForDevice(p, d) == set n | n in made :: PeerKey(n, d)
    ensures TouchedNodes(p, D.AddPeers(p, D.MissingForDevice(p, d), psk)) == made
  {
    var ks := set n | n in made :: PeerKey(n, d);
    assert D.MissingForDevice(p, d) == ks;
    AddTouches(p, ks, psk);
    forall n | n in made ensures n in NodesIn(ks) { assert PeerKey(n, d) in ks; }
  }

  class Database {
    var users: map<UserId, User>
    var nodes: set<NodeId>
    var devices: map<DeviceId, Device>
    var peers: map<PeerKey, Peer>
    var daily: map<UserDay, Row>
    var nodeDaily: map<UserNodeDay, Row>
    var lifetime: map<UserId, Row>
    var nodeLifetime: map<UserNode, Row>
    var resetDay: map<UserId, Day>
    ghost var issuedIds: set<DeviceId>
    ghost var issuedKeys: set<Key>

    ghost function View(): Panel
      reads this
    {
      Panel(users, nodes, devices, peers, Ledger(daily, nodeDaily, lifetime, nodeLifetime, resetDay), issuedIds,
            issuedKeys)
    }

    // --- traffic ------------------------------------------------------------

    static method IncreaseAggregate<K>(table: map<K, Row>, k: K, rx: nat, tx: nat) returns (t: map<K, Row>)
      ensures t == T.IncreaseAggregate(table, k, Row(rx, tx, rx + tx)) && T.Grown(table, t, k, rx, tx)
    {
      if k !in table {
        return table[k := Row(rx, tx, rx + tx)];
      }
      var row := table[k];
      t := table[k := Row(row.rx + rx, row.tx + tx, row.total + (rx + tx))];
    }

    method ApplyTrafficAggregates(u: UserId, n: NodeId, now: Time, rx: nat, tx: nat)
      modifies `daily, `nodeDaily, `lifetime, `nodeLifetime
      ensures View() == old(View()).(ledger := BookDelta(old(View().ledger), u, n, DayOf(now), rx, tx))
      ensures T.Grown(old(daily), daily, UserDay(u, DayOf(now)), rx, tx)
      ensures T.Grown(old(nodeDaily), nodeDaily, UserNodeDay(u, n, DayOf(now)), rx, tx)
      ensures T.Grown(old(lifetime), lifetime, u, rx, tx)
      ensures T.Grown(old(nodeLifetime), nodeLifetime, UserNode(u, n), rx, tx)
    {
      T.BooksExactly(View().ledger, u, n, DayOf(now), rx, tx);
      var day := DayOf(now);
      daily := IncreaseAggregate(daily, UserDay(u, day), rx, tx);
      nodeDaily := IncreaseAggregate(nodeDaily, UserNodeDay(u, n, day), rx, tx);
      lifetime := IncreaseAggregate(lifetime, u, rx, tx);
      nodeLifetime := IncreaseAggregate(nodeLifetime, UserNode(u, n), rx, tx);
    }

    method ResetTrafficUsage(u: UserId, now: Time)
      modifies `daily, `nodeDaily, `lifetime, `nodeLifetime, `resetDay
      ensures View() == old(View()).(ledger := ResetUsage(old(View().ledger), u, DayOf(now)))
    {
      var day := DayOf(now);
      lifetime := map k | k in lifetime && k != u :: lifetime[k];
      nodeLifetime := map k | k in nodeLifetime && k.user != u :: nodeLifetime[k];
      daily := map k | k in daily && !(k.user == u && k.day >= day) :: daily[k];
      nodeDaily := map k | k in nodeDaily && !(k.user == u && k.day >= day) :: nodeDaily[k];
      resetDay := resetDay[u := day];
    }

    method LoadTotal(u: UserId) returns (total: nat)
      ensures total == D.LifetimeTotal(View(), u)
    {
      total := if u in lifetime then lifetime[u].total else 0;
    }

    // --- devices ------------------------------------------------------------

    /** `allocate_ip`: the first host after the gateway that nobody holds. */
    static method AllocateIp(hosts: seq<Ip>, used: set<Ip>) returns (ip: Option<Ip>)
      ensures ip == D.AllocateIp(hosts, used)
    {
      if hosts == [] { return None; }
      for i := 1 to |hosts|
        invariant D.FirstFree(hosts[1..], used) == D.FirstFree(hosts[i..], used)
      {
        if hosts[i] !in used { return Some(hosts[i]); }
      }
      ip := None;
    }

    method ReleaseDeviceIp(d: DeviceId) returns (released: bool)
      requires d in devices
      modifies `devices
      ensures View() == old(View()).(devices := old(devices)[d := D.ReleasedRow(old(View()), d)])
      ensures released <==> old(devices[d].ip).Some? && devices[d].ip.None?
    {
      var row := devices[d];
      if row.deletedAt.None? || row.ip.None? { return false; }
      var statuses := set k | k in peers && k.device == d :: peers[k].status;
      if statuses != {} && statuses != {Deleted} {
        assert !ConfirmedGone(View(), d);
        return false;
      }
      forall k | k in peers && k.device == d ensures peers[k].status == Deleted {
        assert peers[k].status in statuses;
      }
      devices := devices[d := row.(releasedIp := row.ip, ip := None)];
      released := true;
    }

    method ReleaseDeviceIps(ids: set<DeviceId>) returns (released: set<DeviceId>)
      modifies `devices
      ensures View() == D.ReleaseDeviceIps(old(View()), ids)
      ensures released == set d | d in old(devices) && old(devices)[d].ip.Some? && devices[d].ip.None?
    {
      released := {};
      ghost var p := View();
      var wanted := ids * devices.Keys;
      var todo := wanted;
      assert View() == D.ReleaseDeviceIps(p, {});
      while todo != {}
        invariant todo <= wanted && View() == D.ReleaseDeviceIps(p, wanted - todo)
        invariant released == set d | d in p.devices && p.devices[d].ip.Some? && devices[d].ip.None?
        decreases todo
      {
        var d :| d in todo;
        ReleaseOneMore(p, wanted - todo, d);
        assert wanted - (todo - {d}) == wanted - todo + {d};
        var gone := ReleaseDeviceIp(d);
        todo := todo - {d};
        if gone { released := released + {d}; }
      }
      assert View() == D.ReleaseDeviceIps(p, ids);
    }

    /** The loop of `delete_device`: peers that are still wanted are marked, the others left alone. */
    method MarkDevicePeers(d: DeviceId) returns (affected: set<NodeId>)
      modifies `peers
      ensures View() == old(View()).(peers := D.MarkedForRemoval(old(View()), d))
      ensures affected == TouchedNodes(old(View()), View())
    {
      affected := {};
      ghost var p := View();
      ghost var marked: set<PeerKey> := {};
      var mine := set k | k in peers && k.device == d;
      var todo := mine;
      assert p == SetStatus(p, {}, PendingDelete);
      while todo != {}
        invariant todo <= mine && View() == SetStatus(p, marked, PendingDelete)
        invariant marked == set k | k in mine - todo && !IsTombstone(p.peers[k].status)
        invariant affected == NodesIn(marked)
        decreases todo
      {
        var k :| k in todo;
        todo := todo - {k};
        SetOneMore(p, marked, k, PendingDelete);
        if peers[k].status == Pending || peers[k].status == Active {
          peers := peers[k := peers[k].(status := PendingDelete)];
          affected := affected + {k.node};
          marked := marked + {k};
        }
      }
      SetTouches(p, marked, PendingDelete);
      assert peers == D.MarkedForRemoval(p, d);
    }

    method DeleteDevice(d: DeviceId, at: Time) returns (affected: set<NodeId>)
      modifies `devices, `peers
      ensures View() == D.DeleteDevice(old(View()), d, at)
      ensures affected == TouchedNodes(old(View()), View())
    {
      if d !in devices { return {}; }
      ghost var p := View();
      if devices[d].deletedAt.None? {
        devices := devices[d := devices[d].(deletedAt := Some(at))];
      }
      affected := MarkDevicePeers(d);
      ghost var m := View();
      assert m == D.Tombstone(p, d, at);
      var released := ReleaseDeviceIp(d);
      assert devices == D.ReleaseDeviceIps(m, {d}).devices;
    }

    // --- provisioning -------------------------------------------------------

    method CreatePendingPeer(n: NodeId, d: DeviceId, psk: PeerKey -> Psk) returns (created: bool)
      requires d in devices
      modifies `peers
      ensures created == D.CanProvision(old(View()), PeerKey(n, d))
      ensures View() == if created then D.AddPeers(old(View()), {PeerKey(n, d)}, psk) else old(View())
    {
      var device := devices[d];
      if device.deletedAt.Some? { return false; }
      if PeerKey(n, d) in peers { return false; }
      if device.key.None? || device.ip.None? { return false; }
      peers := peers[PeerKey(n, d) := Peer(Pending, psk(PeerKey(n, d)), None, None)];
      created := true;
    }

    method CreatePendingPeersForDevice(d: DeviceId, ns: set<NodeId>, psk: PeerKey -> Psk) returns (created: set<NodeId>)
      requires d in devices
      modifies `peers
      ensures created == set n | n in ns && D.CanProvision(old(View()), PeerKey(n, d))
      ensures View() == D.AddPeers(old(View()), set n | n in created :: PeerKey(n, d), psk)
    {
      created := {};
      ghost var p := View();
      ghost var made: set<PeerKey> := {};
      var todo := ns;
      assert p == D.AddPeers(p, {}, psk);
      while todo != {}
        invariant todo <= ns && View() == D.AddPeers(p, made, psk)
        invariant created == set n | n in ns - todo && D.CanProvision(p, PeerKey(n, d))
        invariant made == set n | n in created :: PeerKey(n, d)
        decreases todo
      {
        var n :| n in todo;
        todo := todo - {n};
        AddOneMore(p, made, {PeerKey(n, d)}, psk);
        var isNew := CreatePendingPeer(n, d, psk);
        if isNew {
          created := created + {n};
          made := made + {PeerKey(n, d)};
        }
      }
    }

    /** `_live_device_filters`. */
    predicate Provisionable(d: DeviceId)
      reads this
    {
      && d in devices && devices[d].deletedAt.None? && devices[d].key.Some? && devices[d].ip.Some?
      && devices[d].owner in users && !users[devices[d].owner].isBlocked
    }

    method CreatePendingPeersForNode(n: NodeId, psk: PeerKey -> Psk) returns (created: set<DeviceId>)
      modifies `peers
      ensures View() == D.AddPeers(old(View()), D.MissingForNode(old(View()), n), psk)
      ensures created == DevicesIn(D.MissingForNode(old(View()), n))
    {
      created := {};
      ghost var p := View();
      ghost var done: set<DeviceId> := {};
      var wanted := set d | d in devices && Provisionable(d);
      var todo := wanted;
      assert p == D.AddPeers(p, MissingAt(p, n, {}), psk);
      while todo != {}
        invariant todo + done == wanted && todo !! done
        invariant View() == D.AddPeers(p, MissingAt(p, n, done), psk)
        invariant created == DevicesIn(MissingAt(p, n, done))
        decreases todo
      {
        var d :| d in todo;
        todo := todo - {d};
        DeviceOneMore(p, n, done, d, psk);
        var isNew := CreatePendingPeer(n, d, psk);
        done := done + {d};
        if isNew { created := created + {d}; }
      }
      assert MissingAt(p, n, wanted) == D.MissingForNode(p, n);
    }

    method RestoreMissingPeersForUser(u: UserId, psk: PeerKey -> Psk) returns (created: set<NodeId>)
      modifies `peers
      ensures View() == D.AddPeers(old(View()), D.MissingForUser(old(View()), u), psk)
      ensures created == TouchedNodes(old(View()), View())
    {
      created := {};
      ghost var p := View();
      ghost var done: set<DeviceId> := {};
      var live := set d | d in devices && devices[d].owner == u && devices[d].deletedAt.None?;
      var todo := live;
      assert p == D.AddPeers(p, MissingOf(p, {}), psk);
      while todo != {}
        invariant todo + done == live && todo !! done
        invariant View() == D.AddPeers(p, MissingOf(p, done), psk)
        invariant created == NodesIn(MissingOf(p, done))
        decreases todo
      {
        var d :| d in todo;
        todo := todo - {d};
        var here := CreatePendingPeersForDevice(d, nodes, psk);
        MissingOneMore(p, done, d, here, psk);
        done := done + {d};
        created := created + here;
      }
      assert MissingOf(p, live) == D.MissingForUser(p, u);
      AddTouches(p, MissingOf(p, live), psk);
    }

    /** `assert_device_capacity`: the limit that is already reached, if one is. */
    method ReachedLimit(u: UserId) returns (reached: Option<nat>)
      requires u in users
      ensures reached == var limit := D.EffectiveLimit(users[u]);
                         if limit.Some? && |D.LiveDevices(View(), u)| >= limit.value then limit else None
    {
      var limit := D.EffectiveLimit(users[u]);
      if limit.None? { return None; }
      var live := set e | e in devices && devices[e].owner == u && devices[e].deletedAt.None?;
      assert live == D.LiveDevices(View(), u);
      reached := if |live| >= limit.value then limit else None;
    }

    method AllocateDeviceIp(hosts: seq<Ip>) returns (ip: Option<Ip>)
      ensures ip == D.AllocateIp(hosts, D.ReservedIps(View()))
    {
      var used := set e | e in devices && devices[e].ip.Some? :: devices[e].ip.value;
      assert used == D.ReservedIps(View());
      ip := AllocateIp(hosts, used);
    }

    /** `create_device`; the new id and key come from the generators. */
    method CreateDevice(hosts: seq<Ip>, u: UserId, d: DeviceId, key: Key, now: Time, psk: PeerKey -> Psk)
      returns (r: Result<set<NodeId>, D.CreateError>)
      modifies `devices, `peers, `issuedIds, `issuedKeys
      ensures match D.CreateDevice(old(View()), hosts, u, d, key, now, psk)
              case Ok(q) => View() == q && r == Ok(TouchedNodes(old(View()), q))
              case Err(e) => View() == old(View()) && r == Err(e)
    {
      if u !in users { return Err(D.UserNotFound); }
      var total := LoadTotal(u);
      var standing := D.AccountStanding(users[u], total, now);
      if standing != D.InGoodStanding { return Err(D.AccountInactive(standing)); }
      var reached := ReachedLimit(u);
      if reached.Some? { return Err(D.LimitReached(reached.value)); }
      var ip := AllocateDeviceIp(hosts);
      if ip.None? { return Err(D.PoolExhausted); }
      ghost var p := View();
      devices := devices[d := Device(u, Some(key), ip, None, None)];
      issuedIds, issuedKeys := issuedIds + {d}, issuedKeys + {key};
      ghost var q := View();
      assert q == D.InsertDevice(p, u, d, key, ip.value);
      var made := CreatePendingPeersForDevice(d, nodes, psk);
      MadeIsMissing(q, d, made, psk);
      assert TouchedNodes(p, View()) == TouchedNodes(q, View());
      r := Ok(made);
    }

    // --- lifecycle ----------------------------------------------------------

    /** The blocking loop of every lifecycle pass: whatever is not on its way out yet is marked. */
    method MarkForRemoval(ks: set<PeerKey>) returns (affected: set<NodeId>)
      requires ks <= peers.Keys
      modifies `peers
      ensures View() == SetStatus(old(View()), ks, PendingDelete)
      ensures affected == TouchedNodes(old(View()), View())
    {
      affected := {};
      ghost var p := View();
      ghost var marked: set<PeerKey> := {};
      var todo := ks;
      assert p == SetStatus(p, {}, PendingDelete);
      while todo != {}
        invariant todo <= ks && View() == SetStatus(p, marked, PendingDelete)
        invariant marked == set k | k in ks - todo && p.peers[k].status != PendingDelete
        invariant affected == NodesIn(marked)
        decreases todo
      {
        var k :| k in todo;
        todo := todo - {k};
        SetOneMore(p, marked, k, PendingDelete);
        if peers[k].status != PendingDelete {
          peers := peers[k := peers[k].(status := PendingDelete)];
          affected := affected + {k.node};
          marked := marked + {k};
        }
      }
      SetTouches(p, marked, PendingDelete);
      assert peers == SetStatus(p, ks, PendingDelete).peers;
    }

    /** The recovering loop: peers come back unless their device is deleted. */
    method RestorePeers(u: UserId) returns (affected: set<NodeId>)
      modifies `peers
      ensures View() == old(View()).(peers := L.PeersRestored(old(View()), u))
      ensures affected == TouchedNodes(old(View()), View())
    {
      affected := {};
      ghost var p := View();
      ghost var restored: set<PeerKey> := {};
      var mine := set k | k in peers && k.device in devices && devices[k.device].owner == u;
      var todo := mine;
      assert p == SetStatus(p, {}, Pending);
      while todo != {}
        invariant todo <= mine && View() == SetStatus(p, restored, Pending)
        invariant restored == set k | k in mine - todo && IsTombstone(p.peers[k].status) && !Tombstoned(p, k.device)
        invariant affected == NodesIn(restored)
        decreases todo
      {
        var k :| k in todo;
        todo := todo - {k};
        SetOneMore(p, restored, k, Pending);
        if IsTombstone(peers[k].status) && devices[k.device].deletedAt.None? {
          peers := peers[k := peers[k].(status := Pending)];
          affected := affected + {k.node};
          restored := restored + {k};
        }
      }
      SetTouches(p, restored, Pending);
      assert peers == L.PeersRestored(p, u);
    }

    method BlockOwner(u: UserId, row: User) returns (affected: set<NodeId>)
      modifies `users, `peers
      ensures View() == L.BlockOwner(old(View()), u, row)
      ensures affected == TouchedNodes(old(View()), View())
    {
      ghost var p := View();
      users := users[u := row.(isBlocked := true)];
      var mine := set k | k in peers && k.device in devices && devices[k.device].owner == u;
      affected := MarkForRemoval(mine);
      assert peers == L.PeersBlocked(p, {u});
    }

    method RecoverOwner(u: UserId, row: User, provisions: bool, psk: PeerKey -> Psk) returns (affected: set<NodeId>)
      modifies `users, `peers
      ensures View() == if provisions then L.RecoverOwner(old(View()), u, row, psk)
                else L.UnblockOwner(old(View()), u, row)
      ensures affected == TouchedNodes(old(View()), View())
    {
      ghost var p := View();
      users := users[u := row.(isBlocked := false)];
      affected := RestorePeers(u);
      ghost var q := View();
      assert q == L.UnblockOwner(p, u, row);
      if provisions {
        var created := RestoreMissingPeersForUser(u, psk);
        TouchedInTurn(p, q, View());
        affected := affected + created;
      }
    }

    /** `apply_local_lifecycle_state`: returns the nodes to sync, exactly those whose peers changed. */
    method ApplyLocalLifecycleState(u: UserId, total: nat, now: Time, psk: PeerKey -> Psk)
      returns (affected: set<NodeId>)
      requires u in users
      modifies `users, `peers
      ensures View() == L.ApplyLocal(old(View()), u, total, now, psk)
      ensures affected == TouchedNodes(old(View()), View())
    {
      var user := users[u];
      var wasBlocked := user.isBlocked || user.lifecycle != LifeActive;
      var desired := LifeActive;
      if D.Expired(user.expireAt, now) {
        desired := LifeExpired;
      } else if D.OverLimit(user.limitBytes, total) {
        desired := LifeLimited;
      } else if user.lifecycle == LifeBlocked {
        desired := LifeBlocked;
      }
      if desired != LifeActive {
        affected := BlockOwner(u, user.(lifecycle := desired));
      } else {
        affected := RecoverOwner(u, user.(lifecycle := desired), wasBlocked, psk);
      }
    }

    method EnforceLocalLifecycle(u: UserId, now: Time, psk: PeerKey -> Psk) returns (affected: set<NodeId>)
      modifies `users, `peers
      ensures View() == L.EnforceLocal(old(View()), u, now, psk)
      ensures affected == TouchedNodes(old(View()), View())
    {
      if u !in users || users[u].profile.Some? { return {}; }
      var total := LoadTotal(u);
      affected := ApplyLocalLifecycleState(u, total, now, psk);
    }

    method ApplyRemnawaveLifecycle(u: UserId, data: Profile, now: Time, psk: PeerKey -> Psk)
      returns (affected: set<NodeId>)
      requires u in users
      modifies `users, `peers
      ensures View() == L.ApplyRemote(old(View()), u, data, now, psk)
      ensures affected == TouchedNodes(old(View()), View())
    {
      var wasBlocked := users[u].isBlocked;
      var shouldBlock := L.RemoteBlocked(data, now);
      if wasBlocked == shouldBlock { return {}; }
      if shouldBlock {
        affected := BlockOwner(u, users[u]);
      } else {
        affected := RecoverOwner(u, users[u], true, psk);
      }
    }

    method EnforceCombinedLimit(u: UserId) returns (affected: set<NodeId>)
      modifies `users, `peers
      ensures View() == L.EnforceCombined(old(View()), u)
      ensures affected == TouchedNodes(old(View()), View())
    {
      if u !in users || users[u].profile.None? { return {}; }
      var total := LoadTotal(u);
      var profile := users[u].profile.value;
      if !D.OverLimit(profile.limitBytes, profile.usedBytes + total) { return {}; }
      affected := BlockOwner(u, users[u]);
    }

    /** `mark_remnawave_user_stale`. */
    method MarkUserStale(u: UserId) returns (affected: set<NodeId>)
      modifies `users, `peers
      ensures View() == L.MarkStale(old(View()), {u})
      ensures affected == TouchedNodes(old(View()), View())
    {
      ghost var p := View();
      StaleOne(p, u);
      if u !in users || users[u].profile.None? { return {}; }
      users := users[u := users[u].(isBlocked := true, profile := Some(users[u].profile.value.(sync := Stale)))];
      var mine := set k | k in peers && k.device in devices && devices[k.device].owner == u;
      affected := MarkForRemoval(mine);
      assert peers == L.PeersBlocked(p, {u});
    }

    method ReconcileMissing(us: set<UserId>) returns (affected: set<NodeId>)
      modifies `users, `peers
      ensures View() == L.MarkStale(old(View()), us)
      ensures affected == TouchedNodes(old(View()), View())
    {
      affected := {};
      ghost var p := View();
      ghost var done: set<UserId> := {};
      var todo := us;
      assert p == L.MarkStale(p, {});
      while todo != {}
        invariant todo + done == us && todo !! done
        invariant View() == L.MarkStale(p, done) && affected == TouchedNodes(p, View())
        decreases todo
      {
        var u :| u in todo;
        todo := todo - {u};
        StaleOneMore(p, done, u);
        var more := MarkUserStale(u);
        done := done + {u};
        affected := affected + more;
      }
    }

    /** Deleting an account's row; its devices, peers and traffic rows cascade. */
    method DeleteUser(u: UserId)
      modifies `users, `devices, `peers, `daily, `nodeDaily, `lifetime, `nodeLifetime, `resetDay
      ensures View() == L.RemoveUsers(old(View()), {u})
    {
      ghost var p := View();
      var owned := set d | d in devices && devices[d].owner == u;
      var lost := set k | k in peers && (k.device !in devices || k.device in owned);
      CascadeOf(p, u, owned, lost);
      peers, devices, users := peers - lost, devices - owned, users - {u};
      var l := ForgetUsers(Ledger(daily, nodeDaily, lifetime, nodeLifetime, resetDay), {u});
      daily, nodeDaily, lifetime, nodeLifetime, resetDay := l.daily, l.nodeDaily, l.lifetime, l.nodeLifetime,
          l.resetDay;
    }

    /** `api_delete_node`: the devices whose addresses only this node's peers still reserved are returned. */
    method DeleteNode(n: NodeId) returns (released: set<DeviceId>)
      modifies `nodes, `devices, `peers, `nodeDaily, `nodeLifetime
      ensures View() == D.RemoveNode(old(View()), n)
      ensures released == set d | d in old(devices) && old(devices)[d].ip.Some? && devices[d].ip.None?
    {
      var candidates := set k | k in peers && k.node == n :: k.device;
      nodes := nodes - {n};
      peers := map k | k in peers && k.node != n :: peers[k];
      nodeDaily := map k | k in nodeDaily && k.node != n :: nodeDaily[k];
      nodeLifetime := map k | k in nodeLifetime && k.node != n :: nodeLifetime[k];
      assert View() == D.DetachNode(old(View()), n);
      released := ReleaseDeviceIps(candidates);
    }

    method IsPurgeDue(u: UserId) returns (due: bool)
      ensures due == L.PurgeDue(View(), u)
      ensures due <==>
              && u in users && users[u].profile.Some? && users[u].profile.value.deleteRequested
              && (exists k | k in peers :: k.device in devices && devices[k.device].owner == u)
              && (forall k | k in peers && k.device in devices && devices[k.device].owner == u ::
                    peers[k].status == Deleted)
    {
      if u !in users || users[u].profile.None? || !users[u].profile.value.deleteRequested { return false; }
      var mine := set k | k in peers && k.device in devices && devices[k.device].owner == u;
      assert mine != {} ==> exists k | k in mine :: OwnedBy(View(), k, u);
      assert forall k | k in peers && k.device in devices && devices[k.device].owner == u :: k in mine;
      assert forall k | k in peers && OwnedBy(View(), k, u) :: k in mine;
      due := mine != {} && forall k | k in mine :: peers[k].status == Deleted;
    }

    method PurgeIfDue(u: UserId, ghost p: Panel, ghost purged: set<UserId>) returns (due: bool)
      requires View() == L.RemoveUsers(p, purged) && u !in purged
      modifies `users, `devices, `peers, `daily, `nodeDaily, `lifetime, `nodeLifetime, `resetDay
      ensures due == L.PurgeDue(p, u)
      ensures View() == L.RemoveUsers(p, purged + if due then {u} else {})
    {
      RemoveOneMore(p, purged, u);
      PurgeDueElsewhere(p, purged, u);
      due := IsPurgeDue(u);
      if due {
        DeleteUser(u);
      } else {
        assert purged + {} == purged;
      }
    }

    method PurgeConfirmedDeletes() returns (purged: set<UserId>)
      requires forall k | k in peers :: k.device in devices
      modifies `users, `devices, `peers, `daily, `nodeDaily, `lifetime, `nodeLifetime, `resetDay
      ensures View() == L.PurgeConfirmed(old(View()))
      ensures purged == set u | u in old(View()).users && L.PurgeDue(old(View()), u)
    {
      purged := {};
      ghost var p := View();
      var rows := users.Keys;
      var todo := rows;
      NoneRemoved(p);
      while todo != {}
        invariant todo <= rows && View() == L.RemoveUsers(p, purged)
        invariant purged == set u | u in rows - todo && L.PurgeDue(p, u)
        decreases todo
      {
        var u :| u in todo;
        todo := todo - {u};
        var due := PurgeIfDue(u, p, purged);
        purged := purged + if due then {u} else {};
      }
      assert purged == set u | u in p.users && L.PurgeDue(p, u);
    }

    // --- reports ------------------------------------------------------------

    /** `apply_peer_result`: tells whether a traffic sample was stored. */
    method ApplyPeerResult(k: PeerKey, r: N.PeerReport, now: Time) returns (sampled: bool)
      requires k in peers && k.device in devices
      modifies `peers, `daily, `nodeDaily, `lifetime, `nodeLifetime
      ensures View() == N.ApplyPeerResult(old(View()), k, r, now)
      ensures sampled == N.Sampled(old(View()), k, r)
    {
      ghost var p := View();
      var stored := IsTombstone(peers[k].status);
      var gone := devices[k.device].deletedAt.Some?;
      if gone && !stored {
        peers := peers[k := peers[k].(status := PendingDelete)];
      }
      if r.status.Some? && peers[k].status != r.status.value
         && !((r.status.value == Active || r.status.value == Pending) && (stored || gone)) {
        peers := peers[k := peers[k].(status := r.status.value)];
      }
      assert View() == N.WithStatus(p, k, r) by { assert peers == N.WithStatus(p, k, r).peers; }
      if r.rx.None? || r.tx.None? { return false; }
      var rxDelta := CounterDelta(peers[k].rawRx, r.rx.value);
      var txDelta := CounterDelta(peers[k].rawTx, r.tx.value);
      peers := peers[k := peers[k].(rawRx := r.rx, rawTx := r.tx)];
      if rxDelta == 0 && txDelta == 0 { return false; }
      ApplyTrafficAggregates(devices[k.device].owner, k.node, now, rxDelta, txDelta);
      sampled := true;
    }

    /** One turn of the loop of `_apply_peer_results`: a sample triggers both enforcement passes. */
    method ApplyToPeer(k: PeerKey, r: N.PeerReport, now: Time, psk: PeerKey -> Psk) returns (resync: set<NodeId>)
      requires k in peers && k.device in devices
      modifies `users, `peers, `daily, `nodeDaily, `lifetime, `nodeLifetime
      ensures View() == N.ApplyToPeer(old(View()), k, r, now, psk)
      ensures resync == TouchedNodes(N.ApplyPeerResult(old(View()), k, r, now), View())
    {
      var sampled := ApplyPeerResult(k, r, now);
      if !sampled { return {}; }
      var u := devices[k.device].owner;
      OnePassActs(View(), u, now, psk);
      var local := EnforceLocalLifecycle(u, now, psk);
      var remote := EnforceCombinedLimit(u);
      resync := local + remote;
    }

    /** The peers of a report, by the public key of their device. */
    method PeersByKey(loaded: set<PeerKey>) returns (byKey: map<Key, PeerKey>)
      ensures forall key | key in byKey :: N.IsFor(View(), loaded, key, byKey[key])
      ensures forall key, k | N.IsFor(View(), loaded, key, k) :: key in byKey
    {
      byKey := map[];
      var todo := loaded;
      while todo != {}
        invariant todo <= loaded
        invariant forall key | key in byKey :: N.IsFor(View(), loaded, key, byKey[key])
        invariant forall key, k | N.IsFor(View(), loaded, key, k) && k !in todo :: key in byKey
        decreases todo
      {
        var k :| k in todo;
        todo := todo - {k};
        if k in peers && k.device in devices && devices[k.device].key.Some? {
          byKey := byKey[devices[k.device].key.value := k];
        }
      }
    }

    /** One turn of the loop: results of unknown keys are skipped. */
    method ApplyOneResult(loaded: set<PeerKey>, byKey: map<Key, PeerKey>, r: N.PeerReport, now: Time,
                          psk: PeerKey -> Psk)
      returns (owner: set<UserId>, resync: set<NodeId>)
      requires DistinctPublicKeys(devices) && OnOneNode(loaded) && loaded <= peers.Keys
      requires forall key | key in byKey :: N.IsFor(View(), loaded, key, byKey[key])
      requires forall key, k | N.IsFor(View(), loaded, key, k) :: key in byKey
      modifies `users, `peers, `daily, `nodeDaily, `lifetime, `nodeLifetime
      ensures View() == N.ApplyReport(old(View()), loaded, r, now, psk)
      ensures owner == Acknowledged(old(devices), loaded, {r.key})
      ensures resync == ResyncedBy(old(View()), loaded, r, now, psk)
    {
      if r.key !in byKey {
        NoPeerForKey(View(), loaded, r, now, psk);
        return {}, {};
      }
      OnePeerPerKey(View(), loaded, r, byKey[r.key], now, psk);
      owner := {devices[byKey[r.key].device].owner};
      resync := ApplyToPeer(byKey[r.key], r, now, psk);
    }

    /** `_apply_peer_results`: the owners to notify and the nodes to sync. */
    method ApplyPeerResults(loaded: set<PeerKey>, reports: seq<N.PeerReport>, now: Time, psk: PeerKey -> Psk)
      returns (acknowledged: set<UserId>, resync: set<NodeId>)
      requires DistinctPublicKeys(devices) && OnOneNode(loaded) && loaded <= peers.Keys
      modifies `users, `peers, `daily, `nodeDaily, `lifetime, `nodeLifetime
      ensures View() == N.ApplyReports(old(View()), loaded, reports, now, psk)
      ensures acknowledged == Acknowledged(old(devices), loaded, N.ReportedKeys(reports))
      ensures resync == Resynced(old(View()), loaded, reports, now, psk)
    {
      acknowledged, resync := {}, {};
      ghost var p := View();
      var byKey := PeersByKey(loaded);
      for i := 0 to |reports|
        invariant devices == p.devices && p.peers.Keys <= peers.Keys
        invariant N.ApplyReports(View(), loaded, reports[i..], now, psk) == N.ApplyReports(p, loaded, reports, now, psk)
        invariant resync + Resynced(View(), loaded, reports[i..], now, psk) == Resynced(p, loaded, reports, now, psk)
        invariant acknowledged == Acknowledged(p.devices, loaded, N.ReportedKeys(reports[..i]))
      {
        assert reports[i..][1..] == reports[i + 1..];
        OneReportMore(p.devices, loaded, reports, i);
        SameLookup(p, View(), loaded);
        ReportStays(View(), loaded, reports[i], now, psk);
        var owner, more := ApplyOneResult(loaded, byKey, reports[i], now, psk);
        acknowledged, resync := acknowledged + owner, resync + more;
      }
      assert reports[..|reports|] == reports;
    }

    method ConfirmIfAbsent(k: PeerKey, seen: set<Key>) returns (gone: bool)
      requires k in peers && k.device in devices
      modifies `peers
      ensures gone == (old(peers)[k].status == PendingDelete && N.Absent(old(View()), k, seen))
      ensures View() == if gone then old(View()).(peers := old(peers)[k := old(peers)[k].(status := Deleted)])
                else old(View())
    {
      var key := devices[k.device].key;
      gone := peers[k].status == PendingDelete && (key.None? || key.value !in seen);
      if gone { peers := peers[k := peers[k].(status := Deleted)]; }
    }

    /** The loop of the sync endpoint over the node's peers. */
    method ConfirmAbsentPeers(loaded: set<PeerKey>, seen: set<Key>)
      returns (owners: set<UserId>, candidates: set<DeviceId>)
      requires loaded <= peers.Keys && forall k | k in loaded :: k.device in devices
      modifies `peers
      ensures View() == N.ConfirmAbsent(old(View()), loaded, seen)
      ensures owners == Confirmed(old(View()), loaded, seen)
      ensures candidates == N.ReleaseCandidates(View(), loaded)
    {
      owners, candidates := {}, {};
      ghost var p := View();
      ghost var done: set<PeerKey> := {};
      var todo := loaded;
      assert p == N.ConfirmAbsent(p, {}, seen);
      while todo != {}
        invariant todo + done == loaded && todo !! done
        invariant View() == N.ConfirmAbsent(p, done, seen)
        invariant owners == Confirmed(p, done, seen)
        invariant candidates == N.ReleaseCandidates(View(), done)
        decreases todo
      {
        var k :| k in todo;
        todo := todo - {k};
        ConfirmOneMore(p, done, k, seen);
        ConfirmTallies(p, done, k, seen);
        var gone := ConfirmIfAbsent(k, seen);
        if gone { owners := owners + {devices[k.device].owner}; }
        if peers[k].status == Deleted { candidates := candidates + {k.device}; }
        done := done + {k};
      }
      assert done == loaded;
    }

    /** `node_sync_result`: returns the owners whose pages must re-read. */
    method NodeSyncResult(n: NodeId, ok: bool, reports: seq<N.PeerReport>, now: Time, psk: PeerKey -> Psk)
      returns (notified: set<UserId>)
      requires Committed(View())
      modifies this
      ensures View() == N.SyncResult(old(View()), n, ok, reports, now, psk)
      ensures var p, loaded := old(View()), N.PeersOn(old(View()), n);
              notified == if n !in p.nodes then {}
                          else if !ok then set k | k in loaded :: p.devices[k.device].owner
                          else Acknowledged(p.devices, loaded, N.ReportedKeys(reports))
                               + Confirmed(N.ApplyReports(p, loaded, reports, now, psk), loaded,
                                           N.ReportedKeys(reports))
    {
      if n !in nodes { return {}; }
      var loaded := set k | k in peers && k.node == n;
      if !ok { return set k | k in loaded :: devices[k.device].owner; }
      var seen := set r | r in reports :: r.key;
      SyncKeepsReferences(View(), loaded, reports, now, psk);
      var acknowledged, resync := ApplyPeerResults(loaded, reports, now, psk);
      var gone, candidates := ConfirmAbsentPeers(loaded, seen);
      var released := ReleaseDeviceIps(candidates);
      var purged := PurgeConfirmedDeletes();
      notified := acknowledged + gone;
    }

    method NodeHeartbeatResult(n: NodeId, ok: bool, reports: seq<N.PeerReport>, now: Time, psk: PeerKey -> Psk)
      returns (notified: set<UserId>)
      requires Committed(View())
      modifies this
      ensures View() == N.HeartbeatResult(old(View()), n, ok, reports, now, psk)
      ensures notified == if ok && n in old(nodes)
                          then Acknowledged(old(devices), N.PeersOn(old(View()), n), N.ReportedKeys(reports)) else {}
    {
      if n !in nodes { return {}; }
      var loaded := set k | k in peers && k.node == n;
      notified := {};
      if ok && reports != [] {
        var acknowledged, resync := ApplyPeerResults(loaded, reports, now, psk);
        notified := acknowledged;
      }
    }
  }
}
