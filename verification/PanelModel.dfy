/**
 The panel's rows. Columns that no modelled rule reads are left out. Ids, keys, addresses and times
 are abstract numbers; a pre-shared key of 0 stands for the empty string.
 */
module PanelModel {
  import opened Options
  import opened TrafficLedger

  type DeviceId = nat
  type Key = nat
  type Ip = nat
  type Psk = nat
  type Time = int

  const SECONDS_PER_DAY := 86400

  function DayOf(t: Time): Day {
    t / SECONDS_PER_DAY
  }

  datatype PeerStatus = Pending | Active | PendingDelete | Deleted

  /** "This peer is going away or gone": no node result may bring it back. */
  predicate IsTombstone(s: PeerStatus) {
    s == PendingDelete || s == Deleted
  }

  datatype LifecycleStatus = LifeActive | LifeBlocked | LifeExpired | LifeLimited
  datatype RemoteStatus = RemoteActive | RemoteDisabled | RemoteLimited | RemoteExpired
  datatype SyncState = Synced | Missing | Stale

  /** The imported profile of a Remnawave-managed account. */
  datatype Profile = Profile(
    status: RemoteStatus,
    expireAt: Option<Time>,
    limitBytes: int,
    usedBytes: int,
    hwidLimit: Option<int>,
    sync: SyncState,
    deleteRequested: bool)

  datatype User = User(
    isBlocked: bool,
    lifecycle: LifecycleStatus,
    expireAt: Option<Time>,
    limitBytes: int,
    deviceLimit: int,
    profile: Option<Profile>)

  datatype Device = Device(
    owner: UserId,
    key: Option<Key>,
    ip: Option<Ip>,
    deletedAt: Option<Time>,
    releasedIp: Option<Ip>)

  /** One peer per node and device: the unique key of the peers table. */
  datatype PeerKey = PeerKey(node: NodeId, device: DeviceId)
  datatype Peer = Peer(status: PeerStatus, psk: Psk, rawRx: Option<nat>, rawTx: Option<nat>)

  /** The database, with every device id and public key ever generated (both are fresh values). */
  datatype Panel = Panel(
    users: map<UserId, User>,
    nodes: set<NodeId>,
    devices: map<DeviceId, Device>,
    peers: map<PeerKey, Peer>,
    ledger: Ledger,
    issuedIds: set<DeviceId>,
    issuedKeys: set<Key>)

  predicate OwnedBy(p: Panel, k: PeerKey, u: UserId) {
    k.device in p.devices && p.devices[k.device].owner == u
  }

  predicate Tombstoned(p: Panel, d: DeviceId) {
    d in p.devices && p.devices[d].deletedAt.Some?
  }

  // --- what every committed state satisfies ---------------------------------

  /** Foreign keys, and ids and keys drawn from the generators. */
  ghost predicate References(p: Panel) {
    && (forall k | k in p.peers :: k.device in p.devices && k.node in p.nodes)
    && (forall d | d in p.devices ::
          && p.devices[d].owner in p.users
          && d in p.issuedIds
          && (p.devices[d].key.Some? ==> p.devices[d].key.value in p.issuedKeys))
  }

  /** The unique constraints on devices: no two share a key, no two hold one address. */
  ghost predicate UniqueDevices(p: Panel) {
    forall d, e | d in p.devices && e in p.devices && d != e ::
      && (p.devices[d].key.Some? ==> p.devices[d].key != p.devices[e].key)
      && (p.devices[d].ip.Some? ==> p.devices[d].ip != p.devices[e].ip)
  }

  /** A deleted device has no pending or active peer. */
  ghost predicate DeletionHolds(p: Panel) {
    forall k | k in p.peers && Tombstoned(p, k.device) :: IsTombstone(p.peers[k].status)
  }

  /** A blocked owner has no pending or active peer. */
  ghost predicate BlockHolds(p: Panel) {
    forall k | k in p.peers && k.device in p.devices && p.devices[k.device].owner in p.users
               && p.users[p.devices[k.device].owner].isBlocked ::
      IsTombstone(p.peers[k].status)
  }

  /** An address is only recorded as released by a device that no longer holds one. */
  ghost predicate ReleasesHold(p: Panel) {
    forall d | d in p.devices && p.devices[d].releasedIp.Some? ::
      p.devices[d].ip.None? && p.devices[d].deletedAt.Some?
  }

  /** What every committed state satisfies, the unique constraints aside. */
  ghost predicate Settled(p: Panel) {
    References(p) && DeletionHolds(p) && BlockHolds(p) && ReleasesHold(p)
  }

  ghost predicate Committed(p: Panel) {
    Settled(p) && UniqueDevices(p)
  }

  /** A live device of an unblocked owner has no peer on its way out. */
  ghost predicate LivePeersHold(p: Panel) {
    forall k | k in p.peers && k.device in p.devices && p.devices[k.device].owner in p.users
               && !p.users[p.devices[k.device].owner].isBlocked && !Tombstoned(p, k.device) ::
      !IsTombstone(p.peers[k].status)
  }

  /** A deleted device whose removal every node confirmed has handed its address back. */
  ghost predicate RecyclingHolds(p: Panel) {
    forall d | d in p.devices && p.devices[d].deletedAt.Some? && ConfirmedGone(p, d) ::
      p.devices[d].ip.None?
  }

  predicate ConfirmedGone(p: Panel, d: DeviceId) {
    forall k | k in p.peers && k.device == d :: p.peers[k].status == Deleted
  }

  // --- what a step may do to the devices that are already there --------------

  /** A device row survives with its identity; deletion and release are never undone. */
  ghost predicate RowKept(a: Device, b: Device) {
    && a.owner == b.owner && a.key == b.key
    && (a.deletedAt.Some? ==> b.deletedAt == a.deletedAt)
    && (a.releasedIp.Some? ==> b.releasedIp == a.releasedIp)
    && (b.ip != a.ip ==> a.ip.Some? && b.ip.None? && b.releasedIp == a.ip && b.deletedAt.Some?)
    && (b.ip == a.ip ==> b.releasedIp == a.releasedIp)
  }

  /** History only grows: rows are kept or cascade away, and their ids and keys are never reissued. */
  ghost predicate HistoryKept(p: Panel, q: Panel) {
    && p.issuedIds <= q.issuedIds && p.issuedKeys <= q.issuedKeys
    && (forall d | d in p.devices && d in q.devices :: RowKept(p.devices[d], q.devices[d]))
    && (forall d | d in q.devices && d !in p.devices ::
          && d !in p.issuedIds
          && (q.devices[d].key.Some? ==> q.devices[d].key.value !in p.issuedKeys))
  }

  /**
   A step that confirms no removal: no row cascades away, no peer becomes `Deleted`, and an address is
   given up only by a device whose peers were all confirmed gone before.
   */
  ghost predicate ConfirmsNothing(p: Panel, q: Panel) {
    && HistoryKept(p, q)
    && p.nodes <= q.nodes
    && p.devices.Keys <= q.devices.Keys
    && p.peers.Keys <= q.peers.Keys
    && (forall k | k in p.peers && q.peers[k].status == Deleted :: p.peers[k].status == Deleted)
    && (forall d | d in p.devices && q.devices[d].ip != p.devices[d].ip :: ConfirmedGone(p, d))
  }

  lemma RowKeptChains(a: Device, b: Device, c: Device)
    requires RowKept(a, b) && RowKept(b, c)
    requires a.releasedIp.Some? ==> a.ip.None?
    ensures RowKept(a, c)
  {
  }

  lemma HistoryChains(p: Panel, q: Panel, r: Panel)
    requires HistoryKept(p, q) && HistoryKept(q, r) && ReleasesHold(p) && References(p)
    ensures HistoryKept(p, r)
  {
    forall d | d in p.devices && d in r.devices ensures RowKept(p.devices[d], r.devices[d]) {
      assert d in p.issuedIds && d in q.issuedIds;
      assert d in q.devices;
      RowKeptChains(p.devices[d], q.devices[d], r.devices[d]);
    }
  }

  lemma ConfirmsNothingChains(p: Panel, q: Panel, r: Panel)
    requires ConfirmsNothing(p, q) && ConfirmsNothing(q, r) && ReleasesHold(p) && References(p)
    ensures ConfirmsNothing(p, r)
  {
    HistoryChains(p, q, r);
    forall d | d in p.devices && r.devices[d].ip != p.devices[d].ip ensures ConfirmedGone(p, d) {
      if q.devices[d].ip == p.devices[d].ip {
        assert ConfirmedGone(q, d);
      }
    }
  }
}
