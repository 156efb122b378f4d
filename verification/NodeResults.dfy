/**
 What a worker's report does to the database: one peer result (status guard and traffic), the loop
 over a report with its lifecycle passes, and the sync and heartbeat endpoints.
 */
module NodeResults {
  import opened Options
  import opened TrafficLedger
  import opened PanelModel
  import opened Devices
  import opened Lifecycle

  /** One peer of a report. A status outside the four known ones is ignored, like an absent one. */
  datatype PeerReport = PeerReport(key: Key, status: Option<PeerStatus>, rx: Option<nat>, tx: Option<nat>)

  /** The status guard of `apply_peer_result`. */
  function StatusAfter(stored: PeerStatus, deviceGone: bool, reported: Option<PeerStatus>): PeerStatus {
    var base := if deviceGone && !IsTombstone(stored) then PendingDelete else stored;
    if reported.None? then base
    else if !IsTombstone(reported.value) && (IsTombstone(stored) || deviceGone) then base
    else reported.value
  }

  function WithStatus(p: Panel, k: PeerKey, r: PeerReport): Panel
    requires k in p.peers && k.device in p.devices
  {
    var peer := p.peers[k];
    p.(peers := p.peers[k := peer.(status := StatusAfter(peer.status, Tombstoned(p, k.device), r.status))])
  }

  /** The traffic part: the new baselines, and the delta booked when there is one. */
  function WithTraffic(p: Panel, k: PeerKey, r: PeerReport, now: Time): Panel
    requires k in p.peers && k.device in p.devices
  {
    if r.rx.None? || r.tx.None? then p
    else
      var peer := p.peers[k];
      var q := p.(peers := p.peers[k := peer.(rawRx := r.rx, rawTx := r.tx)]);
      if Sampled(p, k, r)
      then q.(ledger := BookDelta(p.ledger, p.devices[k.device].owner, k.node, DayOf(now),
                                  CounterDelta(peer.rawRx, r.rx.value), CounterDelta(peer.rawTx, r.tx.value)))
      else q
  }

  /** A sample is stored: both counters were reported and at least one of them moved. */
  predicate Sampled(p: Panel, k: PeerKey, r: PeerReport)
    requires k in p.peers
  {
    && r.rx.Some? && r.tx.Some?
    && CounterDelta(p.peers[k].rawRx, r.rx.value) + CounterDelta(p.peers[k].rawTx, r.tx.value) > 0
  }

  function ApplyPeerResult(p: Panel, k: PeerKey, r: PeerReport, now: Time): Panel
    requires k in p.peers && k.device in p.devices
  {
    WithTraffic(WithStatus(p, k, r), k, r, now)
  }

  /** The loaded peer a result is about: peers are told apart by their device's public key. */
  predicate IsFor(p: Panel, loaded: set<PeerKey>, key: Key, k: PeerKey) {
    k in loaded && k in p.peers && k.device in p.devices && p.devices[k.device].key == Some(key)
  }

  /** One turn of the loop: the result, and the two enforcement passes its sample triggers. */
  function ApplyToPeer(p: Panel, k: PeerKey, r: PeerReport, now: Time, psk: PeerKey -> Psk): Panel
    requires k in p.peers && k.device in p.devices
  {
    var q := ApplyPeerResult(p, k, r, now);
    var u := p.devices[k.device].owner;
    if Sampled(p, k, r) then EnforceCombined(EnforceLocal(q, u, now, psk), u) else q
  }

  ghost function ApplyReport(p: Panel, loaded: set<PeerKey>, r: PeerReport, now: Time, psk: PeerKey -> Psk): Panel {
    if k: PeerKey :| IsFor(p, loaded, r.key, k) then ApplyToPeer(p, k, r, now, psk) else p
  }

  ghost function ApplyReports(p: Panel, loaded: set<PeerKey>, reports: seq<PeerReport>, now: Time,
                              psk: PeerKey -> Psk): Panel
    decreases |reports|
  {
    if reports == [] then p
    else ApplyReports(ApplyReport(p, loaded, reports[0], now, psk), loaded, reports[1..], now, psk)
  }

  function PeersOn(p: Panel, n: NodeId): set<PeerKey> {
    set k | k in p.peers && k.node == n
  }

  function ReportedKeys(reports: seq<PeerReport>): set<Key> {
    set r | r in reports :: r.key
  }

  predicate Absent(p: Panel, k: PeerKey, seen: set<Key>) {
    k.device in p.devices && (p.devices[k.device].key.None? || p.devices[k.device].key.value !in seen)
  }

  /** A peer waiting for removal that the node no longer lists is confirmed gone. */
  function ConfirmAbsent(p: Panel, loaded: set<PeerKey>, seen: set<Key>): Panel {
    p.(peers := map k | k in p.peers ::
         if k in loaded && p.peers[k].status == PendingDelete && Absent(p, k, seen)
         then p.peers[k].(status := Deleted) else p.peers[k])
  }

  function ReleaseCandidates(p: Panel, loaded: set<PeerKey>): set<DeviceId> {
    set k | k in loaded && k in p.peers && p.peers[k].status == Deleted :: k.device
  }

  /** The sync endpoint; a failed report only writes the node's diagnostics. */
  ghost function SyncResult(p: Panel, n: NodeId, ok: bool, reports: seq<PeerReport>, now: Time,
                            psk: PeerKey -> Psk): Panel {
    if !ok || n !in p.nodes then p
    else
      var loaded := PeersOn(p, n);
      var applied := ApplyReports(p, loaded, reports, now, psk);
      var confirmed := ConfirmAbsent(applied, loaded, ReportedKeys(reports));
      PurgeConfirmed(ReleaseDeviceIps(confirmed, ReleaseCandidates(confirmed, loaded)))
  }

  ghost function HeartbeatResult(p: Panel, n: NodeId, ok: bool, reports: seq<PeerReport>, now: Time,
                                 psk: PeerKey -> Psk): Panel {
    if !ok || n !in p.nodes then p else ApplyReports(p, PeersOn(p, n), reports, now, psk)
  }

  // --- the status guard -----------------------------------------------------

  /** No reply returns a tombstoned peer, or a deleted device's peer, to a live status. */
  lemma GuardHolds(stored: PeerStatus, deviceGone: bool, reported: Option<PeerStatus>)
    ensures deviceGone || IsTombstone(stored) ==> IsTombstone(StatusAfter(stored, deviceGone, reported))
    ensures !deviceGone && !IsTombstone(stored) && reported.Some? ==>
              StatusAfter(stored, deviceGone, reported) == reported.value
  {
  }

  // --- what reports keep ----------------------------------------------------

  /** The reports a worker sends: the agent's dump carries no status, so every listed peer is active. */
  predicate FromDump(reports: seq<PeerReport>) {
    forall r | r in reports :: r.status == Some(Active)
  }

  /** What any report keeps, whatever statuses it claims. */
  ghost predicate ReportKeeps(p: Panel, q: Panel) {
    && Settled(q) && HistoryKept(p, q) && q.devices == p.devices && q.nodes == p.nodes
    && p.peers.Keys <= q.peers.Keys
  }

  lemma WithStatusKeeps(p: Panel, k: PeerKey, r: PeerReport)
    requires Settled(p) && k in p.peers && k.device in p.devices
    ensures ReportKeeps(p, WithStatus(p, k, r))
    ensures r.status == Some(Active) ==> KeepsPanel(p, WithStatus(p, k, r))
  {
    var q := WithStatus(p, k, r);
    if r.status == Some(Active) && RecyclingHolds(p) { ConfirmedBefore(p, q); }
  }

  lemma CountersKeep(p: Panel, q: Panel)
    requires Settled(p) && q == p.(peers := q.peers, ledger := q.ledger)
    requires q.peers.Keys == p.peers.Keys && forall j | j in p.peers :: q.peers[j].status == p.peers[j].status
    ensures ReportKeeps(p, q) && KeepsPanel(p, q)
  {
    if RecyclingHolds(p) { ConfirmedBefore(p, q); }
  }

  lemma WithTrafficKeeps(p: Panel, k: PeerKey, r: PeerReport, now: Time)
    requires Settled(p) && k in p.peers && k.device in p.devices
    ensures ReportKeeps(p, WithTraffic(p, k, r, now)) && KeepsPanel(p, WithTraffic(p, k, r, now))
  {
    CountersKeep(p, WithTraffic(p, k, r, now));
  }

  lemma ReportChains(p: Panel, q: Panel, r: Panel)
    requires Settled(p) && ReportKeeps(p, q) && ReportKeeps(q, r)
    ensures ReportKeeps(p, r)
  {
    HistoryChains(p, q, r);
  }

  lemma EnforceLocalKeeps(p: Panel, u: UserId, now: Time, psk: PeerKey -> Psk)
    requires Settled(p)
    ensures KeepsPanel(p, EnforceLocal(p, u, now, psk))
  {
    LedgerIsApart(p, p.ledger);
    if u in p.users { ApplyLocalKeeps(p, u, LifetimeTotal(p, u), now, psk); }
  }

  lemma EnforcementKeepsNodes(p: Panel, u: UserId, now: Time, psk: PeerKey -> Psk)
    ensures EnforceCombined(EnforceLocal(p, u, now, psk), u).nodes == p.nodes
  {
  }

  lemma EnforcementKeeps(p: Panel, u: UserId, now: Time, psk: PeerKey -> Psk)
    requires Settled(p)
    ensures var q := EnforceCombined(EnforceLocal(p, u, now, psk), u);
            KeepsPanel(p, q) && ReportKeeps(p, q)
  {
    var m := EnforceLocal(p, u, now, psk);
    EnforceLocalKeeps(p, u, now, psk);
    EnforceCombinedKeeps(m, u);
    KeepsPanelChains(p, m, EnforceCombined(m, u));
    EnforcementKeepsNodes(p, u, now, psk);
  }

  lemma ApplyToPeerKeeps(p: Panel, k: PeerKey, r: PeerReport, now: Time, psk: PeerKey -> Psk)
    requires Settled(p) && k in p.peers && k.device in p.devices
    ensures ReportKeeps(p, ApplyToPeer(p, k, r, now, psk))
    ensures r.status == Some(Active) ==> KeepsPanel(p, ApplyToPeer(p, k, r, now, psk))
  {
    var a := WithStatus(p, k, r);
    var b := WithTraffic(a, k, r, now);
    var q := ApplyToPeer(p, k, r, now, psk);
    WithStatusKeeps(p, k, r);
    WithTrafficKeeps(a, k, r, now);
    ReportChains(p, a, b);
    EnforcementKeeps(b, p.devices[k.device].owner, now, psk);
    assert Sampled(a, k, r) == Sampled(p, k, r);
    if Sampled(p, k, r) { ReportChains(p, b, q); }
    if r.status == Some(Active) {
      KeepsPanelChains(p, a, b);
      if Sampled(p, k, r) { KeepsPanelChains(p, b, q); }
    }
  }

  lemma {:induction false} ApplyReportsKeeps(p: Panel, loaded: set<PeerKey>, reports: seq<PeerReport>, now: Time,
                                             psk: PeerKey -> Psk)
    requires Settled(p)
    ensures ReportKeeps(p, ApplyReports(p, loaded, reports, now, psk))
    ensures FromDump(reports) ==> KeepsPanel(p, ApplyReports(p, loaded, reports, now, psk))
    decreases |reports|
  {
    if reports != [] {
      var m := ApplyReport(p, loaded, reports[0], now, psk);
      if k: PeerKey :| IsFor(p, loaded, reports[0].key, k) && m == ApplyToPeer(p, k, reports[0], now, psk) {
        ApplyToPeerKeeps(p, k, reports[0], now, psk);
      }
      ApplyReportsKeeps(m, loaded, reports[1..], now, psk);
      var q := ApplyReports(p, loaded, reports, now, psk);
      ReportChains(p, m, q);
      if FromDump(reports) {
        assert reports[0] in reports;
        KeepsPanelChains(p, m, q);
      }
    }
  }

  lemma ConfirmKeeps(p: Panel, loaded: set<PeerKey>, seen: set<Key>)
    requires Settled(p)
    ensures ReportKeeps(p, ConfirmAbsent(p, loaded, seen))
    ensures LivePeersHold(p) ==> LivePeersHold(ConfirmAbsent(p, loaded, seen))
    ensures RecyclingHolds(p) ==>
              var q := ConfirmAbsent(p, loaded, seen);
              RecyclingHolds(ReleaseDeviceIps(q, ReleaseCandidates(q, loaded)))
  {
    var q := ConfirmAbsent(p, loaded, seen);
    var r := ReleaseDeviceIps(q, ReleaseCandidates(q, loaded));
    if RecyclingHolds(p) {
      forall d | d in r.devices && r.devices[d].deletedAt.Some? && ConfirmedGone(r, d) ensures r.devices[d].ip.None? {
        assert ConfirmedGone(q, d);
        if d !in ReleaseCandidates(q, loaded) {
          forall k | k in p.peers && k.device == d ensures p.peers[k].status == Deleted {
            assert q.peers[k].status == Deleted;
            assert k in loaded ==> d in ReleaseCandidates(q, loaded);
          }
          assert ConfirmedGone(p, d);
        }
      }
    }
  }

  lemma SyncResultKeeps(p: Panel, n: NodeId, ok: bool, reports: seq<PeerReport>, now: Time, psk: PeerKey -> Psk)
    requires Settled(p)
    ensures var q := SyncResult(p, n, ok, reports, now, psk);
            && Settled(q) && HistoryKept(p, q)
            && (FromDump(reports) && LivePeersHold(p) ==> LivePeersHold(q))
            && (FromDump(reports) && RecyclingHolds(p) ==> RecyclingHolds(q))
  {
    if ok && n in p.nodes {
      var loaded := PeersOn(p, n);
      var a := ApplyReports(p, loaded, reports, now, psk);
      var b := ConfirmAbsent(a, loaded, ReportedKeys(reports));
      var c := ReleaseDeviceIps(b, ReleaseCandidates(b, loaded));
      ApplyReportsKeeps(p, loaded, reports, now, psk);
      ConfirmKeeps(a, loaded, ReportedKeys(reports));
      ReportChains(p, a, b);
      ReleaseKeeps(b, ReleaseCandidates(b, loaded));
      HistoryChains(p, b, c);
      RemoveUsersKeeps(c, set u | u in c.users && PurgeDue(c, u));
      HistoryChains(p, c, PurgeConfirmed(c));
    }
  }
}
