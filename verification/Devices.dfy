/**
 Device ownership as functions on the database: limits, address allocation, creation, deletion,
 peer provisioning and the recycling of addresses. `PanelDb` holds the operations themselves.
 */
module Devices {
  import opened Options
  import opened TrafficLedger
  import opened PanelModel

  // --- account standing -----------------------------------------------------

  datatype Standing = InGoodStanding | StandingBlocked | StandingLimited | StandingExpired

  predicate Expired(expireAt: Option<Time>, now: Time) {
    expireAt.Some? && expireAt.value <= now
  }

  predicate OverLimit(limitBytes: int, used: int) {
    limitBytes > 0 && used >= limitBytes
  }

  function LocalStanding(u: User, total: nat, now: Time): Standing {
    if Expired(u.expireAt, now) then StandingExpired
    else if OverLimit(u.limitBytes, total) then StandingLimited
    else if u.lifecycle == LifeBlocked || u.isBlocked then StandingBlocked
    else InGoodStanding
  }

  function RemoteStanding(r: Profile, total: nat, now: Time): Standing {
    if r.deleteRequested || r.sync != Synced then StandingBlocked
    else if r.status == RemoteDisabled then StandingBlocked
    else if r.status == RemoteLimited then StandingLimited
    else if r.status == RemoteExpired then StandingExpired
    else if OverLimit(r.limitBytes, r.usedBytes + total) then StandingLimited
    else if Expired(r.expireAt, now) then StandingExpired
    else InGoodStanding
  }

  function AccountStanding(u: User, total: nat, now: Time): Standing {
    if u.profile.None? then LocalStanding(u, total, now)
    else
      var remote := RemoteStanding(u.profile.value, total, now);
      if remote != InGoodStanding then remote
      else if u.isBlocked then StandingBlocked
      else InGoodStanding
  }

  function LifetimeTotal(p: Panel, u: UserId): nat {
    Lookup(p.ledger.lifetime, u).total
  }

  // --- limits and addresses -------------------------------------------------

  /** The owner's kind selects the rule: the imported limit alone for a managed owner. */
  function EffectiveLimit(u: User): Option<nat> {
    var raw := if u.profile.Some? then u.profile.value.hwidLimit.GetOr(0) else u.deviceLimit;
    if raw > 0 then Some(raw) else None
  }

  function LiveDevices(p: Panel, u: UserId): set<DeviceId> {
    set d | d in p.devices && p.devices[d].owner == u && p.devices[d].deletedAt.None?
  }

  function ReservedIps(p: Panel): set<Ip> {
    set d | d in p.devices && p.devices[d].ip.Some? :: p.devices[d].ip.value
  }

  function FirstFree(hosts: seq<Ip>, used: set<Ip>): Option<Ip> {
    if hosts == [] then None
    else if hosts[0] !in used then Some(hosts[0])
    else FirstFree(hosts[1..], used)
  }

  /** The first host not in use; the head of the host list is the gateway and never handed out. */
  function AllocateIp(hosts: seq<Ip>, used: set<Ip>): Option<Ip> {
    if hosts == [] then None else FirstFree(hosts[1..], used)
  }

  /** First match: the result is free and every host before it is in use; none only when all are. */
  lemma {:induction false} FirstFreeIsLeast(hosts: seq<Ip>, used: set<Ip>)
    ensures match FirstFree(hosts, used)
            case None => forall ip | ip in hosts :: ip in used
            case Some(ip) => ip !in used && exists i | 0 <= i < |hosts| ::
                               hosts[i] == ip && forall j | 0 <= j < i :: hosts[j] in used
  {
    if hosts != [] && hosts[0] in used {
      FirstFreeIsLeast(hosts[1..], used);
      if FirstFree(hosts, used).Some? {
        var i :| 0 <= i < |hosts[1..]| && hosts[1..][i] == FirstFree(hosts, used).value
                 && forall j | 0 <= j < i :: hosts[1..][j] in used;
        assert hosts[i + 1] == FirstFree(hosts, used).value;
        forall j | 0 <= j < i + 1 ensures hosts[j] in used {
          if j > 0 { assert hosts[j] == hosts[1..][j - 1]; }
        }
      }
    } else if hosts != [] {
      assert hosts[0] == FirstFree(hosts, used).value;
    }
  }

  // --- releasing addresses --------------------------------------------------

  /** What `release_device_ip` leaves in a device's row. */
  function ReleasedRow(p: Panel, d: DeviceId): Device
    requires d in p.devices
  {
    var row := p.devices[d];
    if row.deletedAt.None? || row.ip.None? || !ConfirmedGone(p, d) then row
    else row.(releasedIp := row.ip, ip := None)
  }

  function ReleaseDeviceIps(p: Panel, ids: set<DeviceId>): Panel {
    p.(devices := map d | d in p.devices :: if d in ids then ReleasedRow(p, d) else p.devices[d])
  }

  // --- provisioning peers ---------------------------------------------------

  /** `create_pending_peer` applies: never to a deleted device, one without identity, or twice. */
  predicate CanProvision(p: Panel, k: PeerKey) {
    && k.device in p.devices
    && p.devices[k.device].deletedAt.None?
    && k !in p.peers
    && p.devices[k.device].key.Some? && p.devices[k.device].ip.Some?
  }

  function AddPeers(p: Panel, ks: set<PeerKey>, psk: PeerKey -> Psk): Panel {
    p.(peers := p.peers + map k | k in ks :: Peer(Pending, psk(k), None, None))
  }

  function MissingForDevice(p: Panel, d: DeviceId): set<PeerKey> {
    set n | n in p.nodes && CanProvision(p, PeerKey(n, d)) :: PeerKey(n, d)
  }

  predicate OwnerUnblocked(p: Panel, d: DeviceId) {
    d in p.devices && p.devices[d].owner in p.users && !p.users[p.devices[d].owner].isBlocked
  }

  function MissingForNode(p: Panel, n: NodeId): set<PeerKey> {
    set d | d in p.devices && CanProvision(p, PeerKey(n, d)) && OwnerUnblocked(p, d) :: PeerKey(n, d)
  }

  function MissingForUser(p: Panel, u: UserId): set<PeerKey> {
    set n, d | n in p.nodes && d in p.devices && p.devices[d].owner == u && CanProvision(p, PeerKey(n, d)) ::
      PeerKey(n, d)
  }

  function AddNode(p: Panel, n: NodeId, psk: PeerKey -> Psk): Panel {
    var q := p.(nodes := p.nodes + {n});
    AddPeers(q, MissingForNode(q, n), psk)
  }

  // --- creating and deleting devices ----------------------------------------

  datatype CreateError = UserNotFound | AccountInactive(standing: Standing) | LimitReached(limit: nat) | PoolExhausted

  predicate FreshIdentity(p: Panel, d: DeviceId, key: Key) {
    d !in p.issuedIds && key !in p.issuedKeys
  }

  function InsertDevice(p: Panel, u: UserId, d: DeviceId, key: Key, ip: Ip): Panel {
    p.(devices := p.devices[d := Device(u, Some(key), Some(ip), None, None)],
       issuedIds := p.issuedIds + {d}, issuedKeys := p.issuedKeys + {key})
  }

  /** `create_device` under the owner lock: standing, limit and address are judged in that order. */
  function CreateDevice(p: Panel, hosts: seq<Ip>, u: UserId, d: DeviceId, key: Key, now: Time, psk: PeerKey -> Psk)
    : Result<Panel, CreateError>
  {
    if u !in p.users then Err(UserNotFound)
    else
      var standing := AccountStanding(p.users[u], LifetimeTotal(p, u), now);
      var limit := EffectiveLimit(p.users[u]);
      if standing != InGoodStanding then Err(AccountInactive(standing))
      else if limit.Some? && |LiveDevices(p, u)| >= limit.value then Err(LimitReached(limit.value))
      else
        var ip := AllocateIp(hosts, ReservedIps(p));
        if ip.None? then Err(PoolExhausted)
        else
          var q := InsertDevice(p, u, d, key, ip.value);
          Ok(AddPeers(q, MissingForDevice(q, d), psk))
  }

  function MarkedForRemoval(p: Panel, d: DeviceId): map<PeerKey, Peer> {
    map k | k in p.peers ::
      if k.device == d && !IsTombstone(p.peers[k].status) then p.peers[k].(status := PendingDelete)
      else p.peers[k]
  }

  function Tombstone(p: Panel, d: DeviceId, at: Time): Panel
    requires d in p.devices
  {
    var row := p.devices[d];
    p.(devices := p.devices[d := if row.deletedAt.Some? then row else row.(deletedAt := Some(at))],
       peers := MarkedForRemoval(p, d))
  }

  /** `delete_device`: tombstone, mark the peers, release the address if nothing is left anywhere. */
  function DeleteDevice(p: Panel, d: DeviceId, at: Time): Panel {
    if d in p.devices then ReleaseDeviceIps(Tombstone(p, d, at), {d}) else p
  }

  function DetachNode(p: Panel, n: NodeId): Panel {
    p.(nodes := p.nodes - {n}, peers := map k | k in p.peers && k.node != n ::
        p.peers[k], ledger := ForgetNode(p.ledger, n))
  }

  /** `api_delete_node`: the node's peers and ledger rows cascade, then what only they reserved is released. */
  function RemoveNode(p: Panel, n: NodeId): Panel {
    ReleaseDeviceIps(DetachNode(p, n), set k | k in p.peers && k.node == n :: k.device)
  }

  // --- what the operations keep ---------------------------------------------

  lemma AddPeersKeeps(p: Panel, ks: set<PeerKey>, psk: PeerKey -> Psk)
    requires Settled(p)
    requires forall k | k in ks :: k.node in p.nodes && CanProvision(p, k) && OwnerUnblocked(p, k.device)
    ensures Settled(AddPeers(p, ks, psk)) && ConfirmsNothing(p, AddPeers(p, ks, psk))
    ensures LivePeersHold(p) ==> LivePeersHold(AddPeers(p, ks, psk))
    ensures RecyclingHolds(p) ==> RecyclingHolds(AddPeers(p, ks, psk))
  {
    var q := AddPeers(p, ks, psk);
    forall k | k in q.peers ensures k in ks || (k in p.peers && q.peers[k] == p.peers[k]) {}
    if RecyclingHolds(p) {
      forall d | d in q.devices && q.devices[d].deletedAt.Some? && ConfirmedGone(q, d)
        ensures q.devices[d].ip.None?
      {
        forall k | k in p.peers && k.device == d ensures p.peers[k].status == Deleted {
          assert k !in ks;
          assert q.peers[k].status == Deleted;
        }
        assert ConfirmedGone(p, d);
      }
    }
  }

  lemma AddNodeKeeps(p: Panel, n: NodeId, psk: PeerKey -> Psk)
    requires Settled(p)
    ensures Settled(AddNode(p, n, psk)) && ConfirmsNothing(p, AddNode(p, n, psk))
    ensures LivePeersHold(p) ==> LivePeersHold(AddNode(p, n, psk))
    ensures RecyclingHolds(p) ==> RecyclingHolds(AddNode(p, n, psk))
  {
    var q := p.(nodes := p.nodes + {n});
    assert forall d | d in p.devices :: ConfirmedGone(p, d) == ConfirmedGone(q, d);
    AddPeersKeeps(q, MissingForNode(q, n), psk);
    ConfirmsNothingChains(p, q, AddNode(p, n, psk));
  }

  /** Only an owner in good standing gets a device, and such an owner is never blocked. */
  lemma GoodStandingIsUnblocked(u: User, total: nat, now: Time)
    requires AccountStanding(u, total, now) == InGoodStanding
    ensures !u.isBlocked
  {
  }

  lemma InsertedIsUnique(p: Panel, u: UserId, d: DeviceId, key: Key, ip: Ip)
    requires References(p) && UniqueDevices(p) && FreshIdentity(p, d, key) && ip !in ReservedIps(p)
    ensures UniqueDevices(InsertDevice(p, u, d, key, ip))
  {
    var q := InsertDevice(p, u, d, key, ip);
    forall a, b | a in q.devices && b in q.devices && a != b
      ensures (q.devices[a].key.Some? ==> q.devices[a].key != q.devices[b].key)
           && (q.devices[a].ip.Some? ==> q.devices[a].ip != q.devices[b].ip)
    {
      assert a in p.devices && p.devices[a].ip.Some? ==> p.devices[a].ip.value in ReservedIps(p);
      assert b in p.devices && p.devices[b].ip.Some? ==> p.devices[b].ip.value in ReservedIps(p);
    }
  }

  lemma InsertedIsLive(p: Panel, u: UserId, d: DeviceId, key: Key, ip: Ip)
    requires d !in p.devices
    ensures LiveDevices(InsertDevice(p, u, d, key, ip), u) == LiveDevices(p, u) + {d}
  {
  }

  lemma InsertConfirmsNothing(p: Panel, u: UserId, d: DeviceId, key: Key, ip: Ip)
    requires Settled(p) && FreshIdentity(p, d, key) && u in p.users
    ensures Settled(InsertDevice(p, u, d, key, ip)) && ConfirmsNothing(p, InsertDevice(p, u, d, key, ip))
    ensures LivePeersHold(p) ==> LivePeersHold(InsertDevice(p, u, d, key, ip))
  {
  }

  lemma InsertDeviceKeeps(p: Panel, u: UserId, d: DeviceId, key: Key, ip: Ip)
    requires Settled(p) && FreshIdentity(p, d, key) && u in p.users
    ensures Settled(InsertDevice(p, u, d, key, ip)) && ConfirmsNothing(p, InsertDevice(p, u, d, key, ip))
    ensures LivePeersHold(p) ==> LivePeersHold(InsertDevice(p, u, d, key, ip))
    ensures RecyclingHolds(p) ==> RecyclingHolds(InsertDevice(p, u, d, key, ip))
    ensures LiveDevices(InsertDevice(p, u, d, key, ip), u) == LiveDevices(p, u) + {d}
  {
    var q := InsertDevice(p, u, d, key, ip);
    InsertConfirmsNothing(p, u, d, key, ip);
    InsertedIsLive(p, u, d, key, ip);
    assert forall e | e in p.devices :: ConfirmedGone(p, e) == ConfirmedGone(q, e);
  }

  /** A device without peers gets a pending one on every node. */
  lemma ProvisionedDevice(p: Panel, d: DeviceId, psk: PeerKey -> Psk)
    requires Committed(p) && d in p.devices && p.devices[d].deletedAt.None? && OwnerUnblocked(p, d)
    requires p.devices[d].key.Some? && p.devices[d].ip.Some? && forall n :: PeerKey(n, d) !in p.peers
    ensures var q := AddPeers(p, MissingForDevice(p, d), psk);
            && Committed(q) && ConfirmsNothing(p, q)
            && (LivePeersHold(p) ==> LivePeersHold(q)) && (RecyclingHolds(p) ==> RecyclingHolds(q))
            && (forall n | n in q.nodes :: PeerKey(n, d) in q.peers && q.peers[PeerKey(n, d)].status == Pending)
  {
    AddPeersKeeps(p, MissingForDevice(p, d), psk);
    forall n | n in p.nodes ensures PeerKey(n, d) in MissingForDevice(p, d) {}
  }

  /** A created device is live, holds the address allocated, and has a pending peer on every node. */
  lemma CreatedDevice(p: Panel, hosts: seq<Ip>, u: UserId, d: DeviceId, key: Key, now: Time, psk: PeerKey -> Psk)
    requires Committed(p) && FreshIdentity(p, d, key)
    requires CreateDevice(p, hosts, u, d, key, now, psk).Ok?
    ensures var q := CreateDevice(p, hosts, u, d, key, now, psk).value;
            && Committed(q) && ConfirmsNothing(p, q)
            && (LivePeersHold(p) ==> LivePeersHold(q))
            && (RecyclingHolds(p) ==> RecyclingHolds(q))
            && LiveDevices(q, u) == LiveDevices(p, u) + {d} && d !in LiveDevices(p, u)
            && (forall n | n in q.nodes :: PeerKey(n, d) in q.peers && q.peers[PeerKey(n, d)].status == Pending)
  {
    var ip := AllocateIp(hosts, ReservedIps(p)).value;
    FirstFreeIsLeast(hosts[1..], ReservedIps(p));
    GoodStandingIsUnblocked(p.users[u], LifetimeTotal(p, u), now);
    InsertedAndProvisioned(p, u, d, key, ip, psk);
  }

  lemma InsertedAndProvisioned(p: Panel, u: UserId, d: DeviceId, key: Key, ip: Ip, psk: PeerKey -> Psk)
    requires Committed(p) && FreshIdentity(p, d, key) && ip !in ReservedIps(p)
    requires u in p.users && !p.users[u].isBlocked
    ensures var m := InsertDevice(p, u, d, key, ip);
            var q := AddPeers(m, MissingForDevice(m, d), psk);
            && Committed(q) && ConfirmsNothing(p, q)
            && (LivePeersHold(p) ==> LivePeersHold(q)) && (RecyclingHolds(p) ==> RecyclingHolds(q))
            && LiveDevices(q, u) == LiveDevices(p, u) + {d} && d !in LiveDevices(p, u)
            && (forall n | n in q.nodes :: PeerKey(n, d) in q.peers && q.peers[PeerKey(n, d)].status == Pending)
  {
    var m := InsertDevice(p, u, d, key, ip);
    InsertDeviceKeeps(p, u, d, key, ip);
    InsertedIsUnique(p, u, d, key, ip);
    ProvisionedDevice(m, d, psk);
    var q := AddPeers(m, MissingForDevice(m, d), psk);
    ConfirmsNothingChains(p, m, q);
    assert LiveDevices(q, u) == LiveDevices(m, u);
  }

  /** Rows that keep their keys and keep or give up their addresses stay unique. */
  lemma UniqueShrinks(p: Panel, q: Panel)
    requires UniqueDevices(p) && q.devices.Keys <= p.devices.Keys
    requires forall d | d in q.devices ::
               q.devices[d].key == p.devices[d].key && (q.devices[d].ip.Some? ==> q.devices[d].ip == p.devices[d].ip)
    ensures UniqueDevices(q)
  {
    forall d, e | d in q.devices && e in q.devices && d != e
      ensures (q.devices[d].key.Some? ==> q.devices[d].key != q.devices[e].key)
           && (q.devices[d].ip.Some? ==> q.devices[d].ip != q.devices[e].ip)
    {
      assert p.devices[d].key.Some? ==> p.devices[d].key != p.devices[e].key;
    }
  }

  lemma TombstoneConfirms(p: Panel, d: DeviceId, at: Time, e: DeviceId)
    requires d in p.devices && e in p.devices && ConfirmedGone(Tombstone(p, d, at), e)
    ensures ConfirmedGone(p, e)
  {
    var q := Tombstone(p, d, at);
    forall k | k in p.peers && k.device == e ensures p.peers[k].status == Deleted {
      assert q.peers[k].status == Deleted;
    }
  }

  lemma TombstoneKeeps(p: Panel, d: DeviceId, at: Time)
    requires Settled(p) && d in p.devices
    ensures Settled(Tombstone(p, d, at)) && ConfirmsNothing(p, Tombstone(p, d, at))
    ensures LivePeersHold(p) ==> LivePeersHold(Tombstone(p, d, at))
  {
  }

  lemma DeleteRecycles(p: Panel, d: DeviceId, at: Time)
    requires d in p.devices && RecyclingHolds(p)
    ensures RecyclingHolds(DeleteDevice(p, d, at))
  {
    var m, q := Tombstone(p, d, at), DeleteDevice(p, d, at);
    forall e | e in q.devices && q.devices[e].deletedAt.Some? && ConfirmedGone(q, e)
      ensures q.devices[e].ip.None?
    {
      assert ConfirmedGone(m, e);
      TombstoneConfirms(p, d, at, e);
    }
  }

  lemma DeleteDeviceKeeps(p: Panel, d: DeviceId, at: Time)
    requires Committed(p)
    ensures Committed(DeleteDevice(p, d, at)) && ConfirmsNothing(p, DeleteDevice(p, d, at))
    ensures LivePeersHold(p) ==> LivePeersHold(DeleteDevice(p, d, at))
    ensures RecyclingHolds(p) ==> RecyclingHolds(DeleteDevice(p, d, at))
    ensures d in p.devices ==> Tombstoned(DeleteDevice(p, d, at), d)
  {
    if d in p.devices {
      var m := Tombstone(p, d, at);
      TombstoneKeeps(p, d, at);
      UniqueShrinks(p, m);
      ReleaseKeeps(m, {d});
      var q := DeleteDevice(p, d, at);
      UniqueShrinks(m, q);
      ConfirmsNothingChains(p, m, q);
      if RecyclingHolds(p) { DeleteRecycles(p, d, at); }
    }
  }

  lemma ReleaseKeeps(p: Panel, ids: set<DeviceId>)
    requires Settled(p)
    ensures Settled(ReleaseDeviceIps(p, ids)) && ConfirmsNothing(p, ReleaseDeviceIps(p, ids))
    ensures LivePeersHold(p) ==> LivePeersHold(ReleaseDeviceIps(p, ids))
    ensures forall d | d in p.devices && d in ids && p.devices[d].deletedAt.Some? && ConfirmedGone(p, d) ::
              ReleaseDeviceIps(p, ids).devices[d].ip.None?
  {
  }

  lemma DetachNodeKeeps(p: Panel, n: NodeId)
    requires Settled(p)
    ensures Settled(DetachNode(p, n)) && HistoryKept(p, DetachNode(p, n))
    ensures LivePeersHold(p) ==> LivePeersHold(DetachNode(p, n))
  {
  }

  /** Forgetting a node keeps what committed states promise; devices deleted everywhere else are released. */
  lemma RemoveNodeKeeps(p: Panel, n: NodeId)
    requires Committed(p)
    ensures Committed(RemoveNode(p, n)) && HistoryKept(p, RemoveNode(p, n))
    ensures LivePeersHold(p) ==> LivePeersHold(RemoveNode(p, n))
    ensures RecyclingHolds(p) ==> RecyclingHolds(RemoveNode(p, n))
  {
    var m, ids := DetachNode(p, n), set k | k in p.peers && k.node == n :: k.device;
    DetachNodeKeeps(p, n);
    ReleaseKeeps(m, ids);
    HistoryChains(p, m, RemoveNode(p, n));
    UniqueShrinks(p, RemoveNode(p, n));
    if RecyclingHolds(p) { RemoveNodeRecycles(p, n); }
  }

  lemma RemoveNodeRecycles(p: Panel, n: NodeId)
    requires Settled(p) && RecyclingHolds(p)
    ensures RecyclingHolds(RemoveNode(p, n))
  {
    var m, ids, q := DetachNode(p, n), set k | k in p.peers && k.node == n :: k.device, RemoveNode(p, n);
    DetachNodeKeeps(p, n);
    ReleaseKeeps(m, ids);
    forall d | d in q.devices && q.devices[d].deletedAt.Some? && ConfirmedGone(q, d) ensures q.devices[d].ip.None? {
      if d !in ids {
        forall k | k in p.peers && k.device == d ensures p.peers[k].status == Deleted { assert k in q.peers; }
        assert ConfirmedGone(p, d);
      } else {
        assert ConfirmedGone(m, d);
      }
    }
  }
}
