/**
 Migration 0019: every user's key material and address move to one Default device, and back. Queries
 over whole tables are set operations; the backfill is a loop over the users.
 */
module Migration {
  import opened Options

  type UserId = nat
  type DeviceId = nat
  type PeerId = nat
  type NodeId = nat

  /** The credential columns of a user, each nullable. */
  datatype UserRow = UserRow(publicKey: Option<nat>, privateKey: Option<nat>, vpnIp: Option<nat>, createdAt: int)

  datatype DeviceRow = DeviceRow(
    user: UserId, isDefaultName: bool,
    publicKey: Option<nat>, privateKey: Option<nat>, vpnIp: Option<nat>,
    isLegacyDefault: bool, deletedAt: Option<int>, createdAt: int)

  /** The device column exists only in the new schema; everything else a peer has is its details. */
  datatype PeerRow = PeerRow(node: NodeId, user: UserId, device: Option<DeviceId>, details: nat)

  /** In the old schema there are no devices and no limits. */
  datatype Database = Database(
    users: map<UserId, UserRow>,
    devices: map<DeviceId, DeviceRow>,
    peers: map<PeerId, PeerRow>,
    limits: map<UserId, int>)

  datatype Refusal = SharedKeys | SharedIps | OrphanedPeers | TombstonedDevices | NonLegacyDevices

  // --- schemas --------------------------------------------------------------

  /** Revision 0018: one peer per node and user. */
  ghost predicate LegacySchema(db: Database) {
    && db.devices == map[] && db.limits == map[]
    && (forall p | p in db.peers :: db.peers[p].device.None?)
    && UniqueNodeUser(db)
  }

  ghost predicate UniqueNodeUser(db: Database) {
    forall p, q | p in db.peers && q in db.peers && db.peers[p].node == db.peers[q].node
        && db.peers[p].user == db.peers[q].user ::
      p == q
  }

  ghost predicate UniqueNodeDevice(db: Database) {
    forall p, q | p in db.peers && q in db.peers && db.peers[p].node == db.peers[q].node
        && db.peers[p].device == db.peers[q].device ::
      p == q
  }

  /** The composite ownership key: a peer's device exists and is its user's. */
  ghost predicate OwnedPeers(db: Database) {
    forall p | p in db.peers ::
      && db.peers[p].device.Some? && db.peers[p].device.value in db.devices
      && db.devices[db.peers[p].device.value].user == db.peers[p].user
  }

  ghost predicate UniqueCredentials(db: Database) {
    forall d, e | d in db.devices && e in db.devices && d != e ::
      && (db.devices[d].publicKey.Some? ==> db.devices[d].publicKey != db.devices[e].publicKey)
      && (db.devices[d].vpnIp.Some? ==> db.devices[d].vpnIp != db.devices[e].vpnIp)
  }

  /** Revision 0019. */
  ghost predicate NewSchema(db: Database) {
    && OwnedPeers(db) && UniqueCredentials(db) && UniqueNodeDevice(db)
    && (forall d | d in db.devices :: db.devices[d].user in db.users)
    && db.limits.Keys == db.users.Keys
  }

  // --- upgrade --------------------------------------------------------------

  predicate SharesKey(db: Database) {
    exists u, v | u in db.users && v in db.users ::
      u != v && db.users[u].publicKey.Some? && db.users[u].publicKey == db.users[v].publicKey
  }

  predicate SharesIp(db: Database) {
    exists u, v | u in db.users && v in db.users ::
      u != v && db.users[u].vpnIp.Some? && db.users[u].vpnIp == db.users[v].vpnIp
  }

  predicate HasOrphan(db: Database) {
    exists p | p in db.peers :: db.peers[p].user !in db.users
  }

  function UpgradeRefusal(db: Database): Option<Refusal> {
    if SharesKey(db) then Some(SharedKeys)
    else if SharesIp(db) then Some(SharedIps)
    else if HasOrphan(db) then Some(OrphanedPeers)
    else None
  }

  function DefaultDevice(u: UserId, row: UserRow): DeviceRow {
    DeviceRow(u, true, row.publicKey, row.privateKey, row.vpnIp, true, None, row.createdAt)
  }

  predicate Injective(us: set<UserId>, id: UserId -> DeviceId) {
    forall u, v | u in us && v in us && u != v :: id(u) != id(v)
  }

  function DefaultDevices(users: map<UserId, UserRow>, us: set<UserId>, id: UserId -> DeviceId): map<DeviceId,
      DeviceRow>
    requires us <= users.Keys && Injective(us, id)
  {
    map u | u in us :: id(u) := DefaultDevice(u, users[u])
  }

  /** The backfill for some of the users; `id` draws their device ids. */
  function Backfilled(db: Database, us: set<UserId>, id: UserId -> DeviceId): Database
    requires us <= db.users.Keys && Injective(us, id)
  {
    db.(devices := db.devices + DefaultDevices(db.users, us, id), peers := Pointed(db.peers, us, id))
  }

  /** The peers of some users pointed at those users' devices. */
  function Pointed(peers: map<PeerId, PeerRow>, us: set<UserId>, id: UserId -> DeviceId): map<PeerId, PeerRow> {
    map p | p in peers :: if peers[p].user in us then peers[p].(device := Some(id(peers[p].user))) else peers[p]
  }

  ghost predicate FreshIds(db: Database, id: UserId -> DeviceId) {
    && Injective(db.users.Keys, id)
    && (forall u | u in db.users :: id(u) !in db.devices)
  }

  /** The new limit column's default. */
  function Unlimited(users: map<UserId, UserRow>): (limits: map<UserId, int>)
    ensures limits.Keys == users.Keys
  {
    map u | u in users :: 0
  }

  /** The upgraded database; what it means is what the lemmas below say about it. */
  function Upgraded(db: Database, id: UserId -> DeviceId): Database
    requires Injective(db.users.Keys, id)
  {
    Backfilled(db, db.users.Keys, id).(limits := Unlimited(db.users))
  }

  // --- downgrade ------------------------------------------------------------

  function DowngradeRefusal(db: Database): Option<Refusal> {
    if exists d | d in db.devices :: db.devices[d].deletedAt.Some? then Some(TombstonedDevices)
    else if exists d | d in db.devices :: !db.devices[d].isLegacyDefault then Some(NonLegacyDevices)
    else None
  }

  predicate IsLiveDefaultOf(db: Database, d: DeviceId, u: UserId) {
    d in db.devices && db.devices[d].user == u && db.devices[d].isLegacyDefault && db.devices[d].deletedAt.None?
  }

  /** At most one migration device per user: only the upgrade sets the flag. */
  ghost predicate OneDefaultEach(db: Database) {
    forall d, e | d in db.devices && e in db.devices && db.devices[d].isLegacyDefault && db.devices[e].isLegacyDefault
                  && db.devices[d].user == db.devices[e].user :: d == e
  }

  function Coalesce<T>(a: Option<T>, b: Option<T>): Option<T> {
    if a.Some? then a else b
  }

  function RestoredUser(row: UserRow, d: DeviceRow): UserRow {
    row.(publicKey := Coalesce(d.publicKey, row.publicKey), privateKey := Coalesce(d.privateKey, row.privateKey),
         vpnIp := Coalesce(d.vpnIp, row.vpnIp))
  }

  ghost function RestoredUsers(db: Database): map<UserId, UserRow> {
    map u | u in db.users ::
      if d: DeviceId :| IsLiveDefaultOf(db, d, u) then RestoredUser(db.users[u], db.devices[d]) else db.users[u]
  }

  ghost function Downgraded(db: Database): Database {
    Database(RestoredUsers(db), map[], Unpointed(db.peers), map[])
  }

  /** The dropped column. */
  function Unpointed(peers: map<PeerId, PeerRow>): map<PeerId, PeerRow> {
    map p | p in peers :: peers[p].(device := None)
  }

  // --- what they guarantee --------------------------------------------------

  lemma DefaultDeviceAt(users: map<UserId, UserRow>, us: set<UserId>, id: UserId -> DeviceId, u: UserId)
    requires us <= users.Keys && Injective(us, id) && u in us
    ensures id(u) in DefaultDevices(users, us, id) && DefaultDevices(users, us, id)[id(u)] == DefaultDevice(u, users[u])
  {
  }

  lemma DefaultDeviceFrom(users: map<UserId, UserRow>, us: set<UserId>, id: UserId -> DeviceId, d: DeviceId)
    returns (u: UserId)
    requires us <= users.Keys && Injective(us, id) && d in DefaultDevices(users, us, id)
    ensures u in us && d == id(u) && DefaultDevices(users, us, id)[d] == DefaultDevice(u, users[u])
  {
    u :| u in us && d == id(u);
  }

  lemma UpgradedParts(db: Database, id: UserId -> DeviceId)
    requires LegacySchema(db) && FreshIds(db, id)
    ensures Upgraded(db, id).devices == DefaultDevices(db.users, db.users.Keys, id)
  {
    assert map[] + DefaultDevices(db.users, db.users.Keys, id) == DefaultDevices(db.users, db.users.Keys, id);
  }

  lemma UpgradeCredentials(db: Database, id: UserId -> DeviceId)
    requires LegacySchema(db) && FreshIds(db, id) && UpgradeRefusal(db).None?
    ensures UniqueCredentials(Upgraded(db, id)) && OneDefaultEach(Upgraded(db, id))
    ensures forall d | d in Upgraded(db, id).devices :: Upgraded(db, id).devices[d].user in db.users
  {
    var q := Upgraded(db, id);
    UpgradedParts(db, id);
    forall d | d in q.devices ensures q.devices[d].user in db.users && d == id(q.devices[d].user)
      ensures q.devices[d] == DefaultDevice(q.devices[d].user, db.users[q.devices[d].user])
    {
      var u := DefaultDeviceFrom(db.users, db.users.Keys, id, d);
    }
    forall d, e | d in q.devices && e in q.devices && d != e
      ensures q.devices[d].publicKey.Some? ==> q.devices[d].publicKey != q.devices[e].publicKey
      ensures q.devices[d].vpnIp.Some? ==> q.devices[d].vpnIp != q.devices[e].vpnIp
    {
      assert q.devices[d].user != q.devices[e].user;
    }
  }

  lemma UpgradePeers(db: Database, id: UserId -> DeviceId)
    requires LegacySchema(db) && FreshIds(db, id) && !HasOrphan(db)
    ensures OwnedPeers(Upgraded(db, id)) && UniqueNodeDevice(Upgraded(db, id))
  {
    var q := Upgraded(db, id);
    UpgradedParts(db, id);
    forall p | p in q.peers
      ensures q.peers[p].user == db.peers[p].user && q.peers[p].user in db.users
                && q.peers[p].device == Some(id(q.peers[p].user))
    {
    }
    forall p | p in q.peers
      ensures q.peers[p].device.value in q.devices && q.devices[q.peers[p].device.value].user == q.peers[p].user
    {
      DefaultDeviceAt(db.users, db.users.Keys, id, q.peers[p].user);
    }
    forall p, r | p in q.peers && r in q.peers && q.peers[p].node == q.peers[r].node
        && q.peers[p].device == q.peers[r].device
      ensures p == r
    {
      assert db.peers[p].user == db.peers[r].user && db.peers[p].node == db.peers[r].node;
    }
  }

  /**
   Every user gets a live Default device with all its own credentials and its creation time, keeps its own
   row, gets no limit, and has all its peers pointed at that device and otherwise left alone.
   */
  lemma UpgradeDefaults(db: Database, id: UserId -> DeviceId, u: UserId)
    requires LegacySchema(db) && FreshIds(db, id) && u in db.users
    ensures var q := Upgraded(db, id);
            && IsLiveDefaultOf(q, id(u), u) && q.devices[id(u)].isDefaultName
            && q.devices[id(u)].publicKey == db.users[u].publicKey
            && q.devices[id(u)].privateKey == db.users[u].privateKey
            && q.devices[id(u)].vpnIp == db.users[u].vpnIp
            && q.devices[id(u)].createdAt == db.users[u].createdAt
            && q.users == db.users && u in q.limits && q.limits[u] == 0
            && q.peers.Keys == db.peers.Keys
            && forall p | p in db.peers && db.peers[p].user == u ::
                 && q.peers[p].device == Some(id(u)) && q.peers[p].user == u
                 && q.peers[p].node == db.peers[p].node && q.peers[p].details == db.peers[p].details
  {
    UpgradedParts(db, id);
    DefaultDeviceAt(db.users, db.users.Keys, id, u);
  }

  /** Shared keys are what is judged first, then shared addresses, then peers without a user. */
  lemma UpgradeRefusals(db: Database)
    ensures UpgradeRefusal(db) == Some(SharedKeys) <==>
              exists u, v | u in db.users && v in db.users ::
                u != v && db.users[u].publicKey.Some? && db.users[u].publicKey == db.users[v].publicKey
    ensures UpgradeRefusal(db) == Some(SharedIps) ==>
              exists u, v | u in db.users && v in db.users ::
                u != v && db.users[u].vpnIp.Some? && db.users[u].vpnIp == db.users[v].vpnIp
    ensures UpgradeRefusal(db) == Some(OrphanedPeers) ==>
              !SharesIp(db) && exists p | p in db.peers :: db.peers[p].user !in db.users
    ensures UpgradeRefusal(db).Some? ==> UpgradeRefusal(db).value in {SharedKeys, SharedIps, OrphanedPeers}
  {
  }

  /** And nobody gets two. */
  lemma UpgradeCount(db: Database, id: UserId -> DeviceId)
    requires LegacySchema(db) && FreshIds(db, id)
    ensures |Upgraded(db, id).devices.Keys| == |db.users.Keys|
  {
    UpgradedParts(db, id);
    CountDefaults(db.users.Keys, id);
    assert Upgraded(db, id).devices.Keys == set u | u in db.users.Keys :: id(u);
  }

  /** An upgrade that is not refused meets every constraint of the new schema. */
  lemma UpgradeMeetsSchema(db: Database, id: UserId -> DeviceId)
    requires LegacySchema(db) && FreshIds(db, id) && UpgradeRefusal(db).None?
    ensures NewSchema(Upgraded(db, id)) && OneDefaultEach(Upgraded(db, id))
  {
    UpgradeCredentials(db, id);
    UpgradePeers(db, id);
    SchemaFrom(Upgraded(db, id));
  }

  lemma SchemaFrom(db: Database)
    requires OwnedPeers(db) && UniqueCredentials(db) && UniqueNodeDevice(db)
    requires (forall d | d in db.devices :: db.devices[d].user in db.users) && db.limits.Keys == db.users.Keys
    ensures NewSchema(db)
  {
  }

  lemma {:induction false} CountDefaults(us: set<UserId>, id: UserId -> DeviceId)
    requires Injective(us, id)
    ensures |set u | u in us :: id(u)| == |us|
  {
    if us != {} {
      var u :| u in us;
      CountDefaults(us - {u}, id);
      assert (set v | v in us :: id(v)) == (set v | v in us - {u} :: id(v)) + {id(u)};
    }
  }

  lemma TwoDefaults(db: Database, id: UserId -> DeviceId, u: UserId, v: UserId)
    requires LegacySchema(db) && FreshIds(db, id) && u in db.users && v in db.users && u != v
    ensures var q := Upgraded(db, id);
            UniqueCredentials(q) ==>
              && (db.users[u].publicKey.Some? ==> db.users[u].publicKey != db.users[v].publicKey)
              && (db.users[u].vpnIp.Some? ==> db.users[u].vpnIp != db.users[v].vpnIp)
  {
    UpgradedParts(db, id);
    DefaultDeviceAt(db.users, db.users.Keys, id, u);
    DefaultDeviceAt(db.users, db.users.Keys, id, v);
    assert id(u) != id(v);
  }

  lemma SharedKeyBreaksSchema(db: Database, id: UserId -> DeviceId)
    requires LegacySchema(db) && FreshIds(db, id) && SharesKey(db)
    ensures !UniqueCredentials(Upgraded(db, id))
  {
    var u, v :| u in db.users && v in db.users && u != v && db.users[u].publicKey.Some?
        && db.users[u].publicKey == db.users[v].publicKey;
    TwoDefaults(db, id, u, v);
  }

  lemma SharedIpBreaksSchema(db: Database, id: UserId -> DeviceId)
    requires LegacySchema(db) && FreshIds(db, id) && SharesIp(db)
    ensures !UniqueCredentials(Upgraded(db, id))
  {
    var u, v :| u in db.users && v in db.users && u != v && db.users[u].vpnIp.Some?
        && db.users[u].vpnIp == db.users[v].vpnIp;
    TwoDefaults(db, id, u, v);
  }

  lemma OrphanBreaksSchema(db: Database, id: UserId -> DeviceId)
    requires LegacySchema(db) && FreshIds(db, id) && HasOrphan(db)
    ensures !OwnedPeers(Upgraded(db, id))
  {
    UpgradedParts(db, id);
    var p :| p in db.peers && db.peers[p].user !in db.users;
    assert Upgraded(db, id).peers[p].device.None?;
  }

  /** The refusal is exact: without it some constraint of the new schema could not be met. */
  lemma UpgradeRefusesExactly(db: Database, id: UserId -> DeviceId)
    requires LegacySchema(db) && FreshIds(db, id)
    ensures UpgradeRefusal(db).None? <==> NewSchema(Upgraded(db, id))
  {
    if UpgradeRefusal(db).None? {
      UpgradeMeetsSchema(db, id);
    } else if SharesKey(db) {
      SharedKeyBreaksSchema(db, id);
    } else if SharesIp(db) {
      SharedIpBreaksSchema(db, id);
    } else {
      OrphanBreaksSchema(db, id);
    }
  }

  /** Downgrading a fresh upgrade restores the very same database. */
  lemma RoundTrip(db: Database, id: UserId -> DeviceId)
    requires LegacySchema(db) && FreshIds(db, id) && UpgradeRefusal(db).None?
    ensures DowngradeRefusal(Upgraded(db, id)).None? && Downgraded(Upgraded(db, id)) == db
  {
    UpgradeIsReversible(db, id);
    RestoresUsers(db, id);
    UnpointedAgain(db.peers, db.users.Keys, id);
    SameDatabase(Downgraded(Upgraded(db, id)), db);
  }

  lemma SameDatabase(a: Database, b: Database)
    requires a.users == b.users && a.devices == b.devices && a.peers == b.peers && a.limits == b.limits
    ensures a == b
  {
  }

  lemma RestoresUsers(db: Database, id: UserId -> DeviceId)
    requires LegacySchema(db) && FreshIds(db, id) && UpgradeRefusal(db).None?
    ensures RestoredUsers(Upgraded(db, id)) == db.users
  {
    var users := RestoredUsers(Upgraded(db, id));
    forall u | u in db.users ensures users[u] == db.users[u] { RestoresUser(db, id, u); }
    SameRows(users, db.users);
  }

  lemma SameRows(a: map<UserId, UserRow>, b: map<UserId, UserRow>)
    requires a.Keys == b.Keys && forall u | u in b :: a[u] == b[u]
    ensures a == b
  {
  }

  lemma UpgradeIsReversible(db: Database, id: UserId -> DeviceId)
    requires LegacySchema(db) && FreshIds(db, id)
    ensures DowngradeRefusal(Upgraded(db, id)).None?
  {
    var q := Upgraded(db, id);
    UpgradedParts(db, id);
    forall d | d in q.devices ensures q.devices[d].deletedAt.None? && q.devices[d].isLegacyDefault {
      var u := DefaultDeviceFrom(db.users, db.users.Keys, id, d);
    }
  }

  lemma UnpointedAgain(peers: map<PeerId, PeerRow>, us: set<UserId>, id: UserId -> DeviceId)
    requires forall p | p in peers :: peers[p].device.None?
    ensures Unpointed(Pointed(peers, us, id)) == peers
  {
  }

  lemma RestoresUser(db: Database, id: UserId -> DeviceId, u: UserId)
    requires LegacySchema(db) && FreshIds(db, id) && UpgradeRefusal(db).None? && u in db.users
    ensures RestoredUsers(Upgraded(db, id))[u] == db.users[u]
  {
    var q := Upgraded(db, id);
    UpgradeCredentials(db, id);
    UpgradeDefaults(db, id, u);
    UpgradedParts(db, id);
    DefaultDeviceAt(db.users, db.users.Keys, id, u);
    RestoresFrom(q, id(u), u);
  }

  lemma RestoresFrom(db: Database, d: DeviceId, u: UserId)
    requires OneDefaultEach(db) && IsLiveDefaultOf(db, d, u) && u in db.users
    ensures RestoredUsers(db)[u] == RestoredUser(db.users[u], db.devices[d])
  {
  }

  /** A downgrade of any later state is refused exactly when a deleted or a non-migration device exists. */
  lemma DowngradeRefusesExactly(db: Database)
    ensures DowngradeRefusal(db).None? <==>
              forall d | d in db.devices :: db.devices[d].isLegacyDefault && db.devices[d].deletedAt.None?
    ensures DowngradeRefusal(db) == Some(TombstonedDevices) <==>
              exists d | d in db.devices :: db.devices[d].deletedAt.Some?
    ensures DowngradeRefusal(db) == Some(NonLegacyDevices) ==>
              exists d | d in db.devices :: !db.devices[d].isLegacyDefault
  {
  }

  /** Each credential of the device wins where it has one, and the user's own stays where it has none. */
  predicate CredentialsOf(d: DeviceRow, before: UserRow, after: UserRow) {
    && after.publicKey == (if d.publicKey.Some? then d.publicKey else before.publicKey)
    && after.privateKey == (if d.privateKey.Some? then d.privateKey else before.privateKey)
    && after.vpnIp == (if d.vpnIp.Some? then d.vpnIp else before.vpnIp)
    && after.createdAt == before.createdAt
  }

  /** When it is not refused, the old schema's constraint holds and live credentials win over stale ones. */
  lemma DowngradeMeetsSchema(db: Database)
    requires NewSchema(db) && OneDefaultEach(db) && DowngradeRefusal(db).None?
    ensures LegacySchema(Downgraded(db)) && Downgraded(db).users.Keys == db.users.Keys
    ensures forall d | d in db.devices ::
              CredentialsOf(db.devices[d], db.users[db.devices[d].user], Downgraded(db).users[db.devices[d].user])
    ensures forall u | u in db.users && (forall d | d in db.devices :: db.devices[d].user != u) ::
              Downgraded(db).users[u] == db.users[u]
  {
    var q := Downgraded(db);
    forall p, r | p in q.peers && r in q.peers && q.peers[p].node == q.peers[r].node
        && q.peers[p].user == q.peers[r].user
      ensures p == r
    {
      assert db.peers[p].device.value == db.peers[r].device.value;
    }
    forall d | d in db.devices
      ensures CredentialsOf(db.devices[d], db.users[db.devices[d].user], q.users[db.devices[d].user])
    {
      assert IsLiveDefaultOf(db, d, db.devices[d].user);
    }
  }

  // --- the migration itself -------------------------------------------------

  /** One turn of the backfill: insert the device, point the user's peers at it. */
  function OneBackfilled(db: Database, u: UserId, row: UserRow, d: DeviceId): Database {
    db.(devices := db.devices[d := DefaultDevice(u, row)],
        peers := map p | p in db.peers ::
            if db.peers[p].user == u then db.peers[p].(device := Some(d)) else db.peers[p])
  }

  lemma PointedOneMore(peers: map<PeerId, PeerRow>, us: set<UserId>, u: UserId, id: UserId -> DeviceId)
    requires u !in us
    ensures var q := Pointed(peers, us, id);
            Pointed(peers, us + {u}, id) == map p | p in q ::
                if q[p].user == u then q[p].(device := Some(id(u))) else q[p]
  {
  }

  lemma DefaultsOneMore(users: map<UserId, UserRow>, us: set<UserId>, u: UserId, id: UserId -> DeviceId)
    requires us <= users.Keys && u in users && u !in us && Injective(users.Keys, id)
    ensures DefaultDevices(users, us + {u}, id) == DefaultDevices(users, us, id)[id(u) := DefaultDevice(u, users[u])]
  {
    var a, b := DefaultDevices(users, us + {u}, id), DefaultDevices(users, us, id)[id(u) := DefaultDevice(u, users[u])];
    forall d | d in a ensures d in b && a[d] == b[d] {
      var v := DefaultDeviceFrom(users, us + {u}, id, d);
      if v != u { DefaultDeviceAt(users, us, id, v); }
    }
    forall d | d in b ensures d in a {
      if d == id(u) {
        DefaultDeviceAt(users, us + {u}, id, u);
      } else {
        var v := DefaultDeviceFrom(users, us, id, d);
        DefaultDeviceAt(users, us + {u}, id, v);
      }
    }
  }

  lemma InsertedLast<K, V>(m: map<K, V>, n: map<K, V>, k: K, v: V)
    ensures m + n[k := v] == (m + n)[k := v]
  {
  }

  lemma BackfilledOneMore(db: Database, us: set<UserId>, u: UserId, id: UserId -> DeviceId)
    requires us <= db.users.Keys && u in db.users && u !in us && Injective(db.users.Keys, id)
    ensures Backfilled(db, us + {u}, id) == OneBackfilled(Backfilled(db, us, id), u, db.users[u], id(u))
  {
    var q, r := Backfilled(db, us, id), Backfilled(db, us + {u}, id);
    DefaultsOneMore(db.users, us, u, id);
    PointedOneMore(db.peers, us, u, id);
    InsertedLast(db.devices, DefaultDevices(db.users, us, id), id(u), DefaultDevice(u, db.users[u]));
    SameDatabase(r, OneBackfilled(q, u, db.users[u], id(u)));
  }

  lemma NothingBackfilled(db: Database, id: UserId -> DeviceId)
    ensures Backfilled(db, {}, id) == db
  {
    assert Backfilled(db, {}, id).devices == db.devices && Backfilled(db, {}, id).peers == db.peers;
  }

  class Migrator {
    var db: Database

    /** Upgrades or refuses; a refusal leaves the database alone. */
    method Upgrade(id: UserId -> DeviceId) returns (refusal: Option<Refusal>)
      requires LegacySchema(db) && FreshIds(db, id)
      modifies this
      ensures refusal == UpgradeRefusal(old(db))
      ensures db == if refusal.Some? then old(db) else Upgraded(old(db), id)
    {
      refusal := UpgradeRefusal(db);
      if refusal.Some? { return; }
      ghost var before := db;
      ghost var done: set<UserId> := {};
      var rows := db.users;
      var todo := rows.Keys;
      NothingBackfilled(before, id);
      while todo != {}
        invariant todo + done == before.users.Keys && todo !! done && rows == before.users
        invariant db == Backfilled(before, done, id)
        decreases todo
      {
        var u :| u in todo;
        BackfilledOneMore(before, done, u, id);
        db := OneBackfilled(db, u, rows[u], id(u));
        todo, done := todo - {u}, done + {u};
      }
      assert done == before.users.Keys;
      db := db.(limits := Unlimited(rows));
    }
  }
}
