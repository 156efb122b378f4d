/**
 The two lifecycles that block and recover an owner: the local one (blocked, expired, limited) and
 the one imported from Remnawave, with the removal of accounts the remote side asked to delete.
 */
module Lifecycle {
  import opened Options
  import opened TrafficLedger
  import opened PanelModel
  import opened Devices

  // --- what blocking and recovering do to the peers -------------------------

  function PeersBlocked(p: Panel, us: set<UserId>): map<PeerKey, Peer> {
    map k | k in p.peers ::
      if k.device in p.devices && p.devices[k.device].owner in us then p.peers[k].(status := PendingDelete)
      else p.peers[k]
  }

  /** Peers on their way out come back, except those of deleted devices. */
  function PeersRestored(p: Panel, u: UserId): map<PeerKey, Peer> {
    map k | k in p.peers ::
      if OwnedBy(p, k, u) && IsTombstone(p.peers[k].status) && !Tombstoned(p, k.device)
      then p.peers[k].(status := Pending) else p.peers[k]
  }

  function BlockOwner(p: Panel, u: UserId, row: User): Panel {
    p.(users := p.users[u := row.(isBlocked := true)], peers := PeersBlocked(p, {u}))
  }

  function UnblockOwner(p: Panel, u: UserId, row: User): Panel {
    p.(users := p.users[u := row.(isBlocked := false)], peers := PeersRestored(p, u))
  }

  /** Recovery: the known peers come back, and the ones a new node never got are created. */
  function RecoverOwner(p: Panel, u: UserId, row: User, psk: PeerKey -> Psk): Panel {
    var q := UnblockOwner(p, u, row);
    AddPeers(q, MissingForUser(q, u), psk)
  }

  // --- local lifecycle ------------------------------------------------------

  function DesiredStatus(u: User, total: nat, now: Time): LifecycleStatus {
    if Expired(u.expireAt, now) then LifeExpired
    else if OverLimit(u.limitBytes, total) then LifeLimited
    else if u.lifecycle == LifeBlocked then LifeBlocked
    else LifeActive
  }

  /** `apply_local_lifecycle_state`: only a transition provisions. */
  function ApplyLocal(p: Panel, u: UserId, total: nat, now: Time, psk: PeerKey -> Psk): Panel
    requires u in p.users
  {
    var user := p.users[u];
    var row := user.(lifecycle := DesiredStatus(user, total, now));
    if row.lifecycle != LifeActive then BlockOwner(p, u, row)
    else if user.isBlocked || user.lifecycle != LifeActive then RecoverOwner(p, u, row, psk)
    else UnblockOwner(p, u, row)
  }

  /** The pass after a traffic sample; a managed owner is not judged by it. */
  function EnforceLocal(p: Panel, u: UserId, now: Time, psk: PeerKey -> Psk): Panel {
    if u in p.users && p.users[u].profile.None? then ApplyLocal(p, u, LifetimeTotal(p, u), now, psk) else p
  }

  datatype LocalEdit =
    | Block
    | Unblock
    | SetLimits(expireAt: Option<Time>, limitBytes: int)
    | ResetTraffic

  /** An administrator's edit of a local account, refused for a managed one. */
  function EditLocal(p: Panel, u: UserId, edit: LocalEdit, now: Time, psk: PeerKey -> Psk): Panel {
    if u !in p.users || p.users[u].profile.Some? then p
    else
      var user := p.users[u];
      var total := LifetimeTotal(p, u);
      match edit
      case Block =>
        ApplyLocal(p.(users := p.users[u := user.(lifecycle := LifeBlocked)]), u, total, now, psk)
      case Unblock =>
        if LocalStanding(user, total, now) in {StandingExpired, StandingLimited} then p
        else ApplyLocal(p.(users := p.users[u := user.(lifecycle := LifeActive)]), u, total, now, psk)
      case SetLimits(expireAt, limitBytes) =>
        ApplyLocal(p.(users := p.users[u := user.(expireAt := expireAt, limitBytes := limitBytes)]), u, total, now, psk)
      case ResetTraffic =>
        ApplyLocal(p.(ledger := ResetUsage(p.ledger, u, DayOf(now))), u, 0, now, psk)
  }

  // --- Remnawave lifecycle --------------------------------------------------

  predicate RemoteBlocked(r: Profile, now: Time) {
    r.status != RemoteActive || Expired(r.expireAt, now)
  }

  predicate Managed(p: Panel, u: UserId) {
    u in p.users && p.users[u].profile.Some?
  }

  /** `apply_remnawave_lifecycle`: an unchanged block state touches nothing. */
  function ApplyRemote(p: Panel, u: UserId, data: Profile, now: Time, psk: PeerKey -> Psk): Panel
    requires u in p.users
  {
    var user := p.users[u];
    if user.isBlocked == RemoteBlocked(data, now) then p
    else if RemoteBlocked(data, now) then BlockOwner(p, u, user)
    else RecoverOwner(p, u, user, psk)
  }

  function EnforceCombined(p: Panel, u: UserId): Panel {
    if Managed(p, u)
        && OverLimit(p.users[u].profile.value.limitBytes, p.users[u].profile.value.usedBytes + LifetimeTotal(p, u))
    then BlockOwner(p, u, p.users[u]) else p
  }

  function StoreProfile(p: Panel, u: UserId, data: Profile): Panel
    requires u in p.users
  {
    p.(users := p.users[u := p.users[u].(profile := Some(data.(sync := Synced, deleteRequested := false)))])
  }

  /** One imported profile: a new mirror account starts with nothing, a known one changes state. */
  function UpsertRemote(p: Panel, u: UserId, data: Profile, now: Time, psk: PeerKey -> Psk): Panel {
    if u in p.users && p.users[u].profile.None? then p
    else
      var q := if u in p.users then ApplyRemote(p, u, data, now, psk)
               else p.(users := p.users[u := User(RemoteBlocked(data, now), LifeActive, None, 0, 0, None)]);
      EnforceCombined(StoreProfile(q, u, data), u)
  }

  /** `reconcile_missing_remnawave_users`: managed accounts the reconcile did not see are blocked. */
  function MarkStale(p: Panel, us: set<UserId>): Panel {
    var stale := set u | u in us && Managed(p, u);
    p.(users := map u | u in p.users ::
         if u in stale
         then p.users[u].(isBlocked := true, profile := Some(p.users[u].profile.value.(sync := Stale)))
         else p.users[u],
       peers := PeersBlocked(p, stale))
  }

  /** The remote side asks for the account to go; peers already confirmed gone stay so. */
  function RequestDelete(p: Panel, u: UserId): Panel {
    if !Managed(p, u) then p
    else
      p.(users := p.users[u := p.users[u].(isBlocked := true,
                                           profile := Some(p.users[u].profile.value.(sync := Missing,
                                               deleteRequested := true)))],
         peers := map k | k in p.peers ::
           if OwnedBy(p, k, u) && p.peers[k].status != Deleted then p.peers[k].(status := PendingDelete)
           else p.peers[k])
  }

  /** Deleting accounts cascades to their devices, peers and traffic rows. */
  function RemoveUsers(p: Panel, us: set<UserId>): Panel {
    p.(users := map u | u in p.users && u !in us :: p.users[u],
       devices := map d | d in p.devices && p.devices[d].owner !in us :: p.devices[d],
       peers := map k | k in p.peers && k.device in p.devices && p.devices[k.device].owner !in us :: p.peers[k],
       ledger := ForgetUsers(p.ledger, us))
  }

  predicate PurgeDue(p: Panel, u: UserId) {
    && Managed(p, u) && p.users[u].profile.value.deleteRequested
    && (exists k | k in p.peers :: OwnedBy(p, k, u))
    && (forall k | k in p.peers && OwnedBy(p, k, u) :: p.peers[k].status == Deleted)
  }

  function PurgeConfirmed(p: Panel): Panel {
    RemoveUsers(p, set u | u in p.users && PurgeDue(p, u))
  }

  // --- what the passes keep -------------------------------------------------

  /** The conclusion shared by every step that only moves statuses and block flags. */
  ghost predicate KeepsPanel(p: Panel, q: Panel) {
    && Settled(q) && ConfirmsNothing(p, q) && q.devices == p.devices
    && (LivePeersHold(p) ==> LivePeersHold(q))
    && (RecyclingHolds(p) ==> RecyclingHolds(q))
  }

  lemma KeepsPanelChains(p: Panel, q: Panel, r: Panel)
    requires Settled(p) && KeepsPanel(p, q) && KeepsPanel(q, r)
    ensures KeepsPanel(p, r)
  {
    ConfirmsNothingChains(p, q, r);
  }

  /** Removal was confirmed before wherever it reads as confirmed after a step that confirms nothing. */
  lemma ConfirmedBefore(p: Panel, q: Panel)
    requires ConfirmsNothing(p, q) && q.devices == p.devices && RecyclingHolds(p)
    ensures RecyclingHolds(q)
  {
    forall d | d in q.devices && q.devices[d].deletedAt.Some? && ConfirmedGone(q, d) ensures q.devices[d].ip.None? {
      forall k | k in p.peers && k.device == d ensures p.peers[k].status == Deleted {
        assert q.peers[k].status == Deleted;
      }
      assert ConfirmedGone(p, d);
    }
  }

  lemma BlockOwnerKeeps(p: Panel, u: UserId, row: User)
    requires Settled(p) && u in p.users
    ensures KeepsPanel(p, BlockOwner(p, u, row))
    ensures forall k | k in p.peers && OwnedBy(p, k, u) :: BlockOwner(p, u, row).peers[k].status == PendingDelete
  {
    if RecyclingHolds(p) { ConfirmedBefore(p, BlockOwner(p, u, row)); }
  }

  lemma UnblockOwnerKeeps(p: Panel, u: UserId, row: User)
    requires Settled(p) && u in p.users
    ensures KeepsPanel(p, UnblockOwner(p, u, row))
  {
    if RecyclingHolds(p) { ConfirmedBefore(p, UnblockOwner(p, u, row)); }
  }

  lemma RecoverOwnerKeeps(p: Panel, u: UserId, row: User, psk: PeerKey -> Psk)
    requires Settled(p) && u in p.users
    ensures KeepsPanel(p, RecoverOwner(p, u, row, psk))
  {
    UnblockOwnerKeeps(p, u, row);
    var q := UnblockOwner(p, u, row);
    AddPeersKeeps(q, MissingForUser(q, u), psk);
    KeepsPanelChains(p, q, RecoverOwner(p, u, row, psk));
  }

  lemma ApplyLocalKeeps(p: Panel, u: UserId, total: nat, now: Time, psk: PeerKey -> Psk)
    requires Settled(p) && u in p.users
    ensures KeepsPanel(p, ApplyLocal(p, u, total, now, psk))
  {
    var row := p.users[u].(lifecycle := DesiredStatus(p.users[u], total, now));
    if row.lifecycle != LifeActive { BlockOwnerKeeps(p, u, row); } else {
      UnblockOwnerKeeps(p, u, row);
      RecoverOwnerKeeps(p, u, row, psk);
    }
  }

  lemma StoreUserKeeps(p: Panel, u: UserId, row: User)
    requires Settled(p)
    requires u in p.users ==> row.isBlocked == p.users[u].isBlocked
    ensures KeepsPanel(p, p.(users := p.users[u := row]))
  {
    var q := p.(users := p.users[u := row]);
    if RecyclingHolds(p) { ConfirmedBefore(p, q); }
  }

  lemma StoredRowKeeps(p: Panel, u: UserId, row: User, total: nat, now: Time, psk: PeerKey -> Psk)
    requires Settled(p) && u in p.users && row.isBlocked == p.users[u].isBlocked
    ensures KeepsPanel(p, ApplyLocal(p.(users := p.users[u := row]), u, total, now, psk))
  {
    var q := p.(users := p.users[u := row]);
    StoreUserKeeps(p, u, row);
    ApplyLocalKeeps(q, u, total, now, psk);
    KeepsPanelChains(p, q, ApplyLocal(q, u, total, now, psk));
  }

  /** No promise about rows and peers reads the ledger. */
  lemma LedgerIsApart(p: Panel, l: Ledger)
    requires Settled(p)
    ensures KeepsPanel(p, p.(ledger := l))
  {
    if RecyclingHolds(p) { ConfirmedBefore(p, p.(ledger := l)); }
  }

  lemma ResetEditKeeps(p: Panel, u: UserId, l: Ledger, now: Time, psk: PeerKey -> Psk)
    requires Settled(p) && u in p.users
    ensures KeepsPanel(p, ApplyLocal(p.(ledger := l), u, 0, now, psk))
  {
    var q := p.(ledger := l);
    LedgerIsApart(p, l);
    ApplyLocalKeeps(q, u, 0, now, psk);
    KeepsPanelChains(p, q, ApplyLocal(q, u, 0, now, psk));
  }

  lemma EditLocalKeeps(p: Panel, u: UserId, edit: LocalEdit, now: Time, psk: PeerKey -> Psk)
    requires Settled(p)
    ensures KeepsPanel(p, EditLocal(p, u, edit, now, psk))
  {
    LedgerIsApart(p, p.ledger);
    if u in p.users {
      var user, total := p.users[u], LifetimeTotal(p, u);
      match edit
      case Block => StoredRowKeeps(p, u, user.(lifecycle := LifeBlocked), total, now, psk);
      case Unblock => StoredRowKeeps(p, u, user.(lifecycle := LifeActive), total, now, psk);
      case SetLimits(e, l) => StoredRowKeeps(p, u, user.(expireAt := e, limitBytes := l), total, now, psk);
      case ResetTraffic => ResetEditKeeps(p, u, ResetUsage(p.ledger, u, DayOf(now)), now, psk);
    }
  }

  lemma EnforceCombinedKeeps(p: Panel, u: UserId)
    requires Settled(p)
    ensures KeepsPanel(p, EnforceCombined(p, u))
  {
    LedgerIsApart(p, p.ledger);
    if u in p.users { BlockOwnerKeeps(p, u, p.users[u]); }
  }

  lemma ApplyRemoteKeeps(p: Panel, u: UserId, data: Profile, now: Time, psk: PeerKey -> Psk)
    requires Settled(p) && u in p.users
    ensures KeepsPanel(p, ApplyRemote(p, u, data, now, psk))
  {
    LedgerIsApart(p, p.ledger);
    BlockOwnerKeeps(p, u, p.users[u]);
    RecoverOwnerKeeps(p, u, p.users[u], psk);
  }

  lemma StoredProfileKeeps(p: Panel, u: UserId, data: Profile)
    requires Settled(p) && u in p.users
    ensures KeepsPanel(p, EnforceCombined(StoreProfile(p, u, data), u))
  {
    var q := StoreProfile(p, u, data);
    StoreUserKeeps(p, u, q.users[u]);
    EnforceCombinedKeeps(q, u);
    KeepsPanelChains(p, q, EnforceCombined(q, u));
  }

  lemma UpsertRemoteKeeps(p: Panel, u: UserId, data: Profile, now: Time, psk: PeerKey -> Psk)
    requires Settled(p)
    ensures KeepsPanel(p, UpsertRemote(p, u, data, now, psk))
  {
    if u in p.users {
      LedgerIsApart(p, p.ledger);
      var q := ApplyRemote(p, u, data, now, psk);
      ApplyRemoteKeeps(p, u, data, now, psk);
      StoredProfileKeeps(q, u, data);
      KeepsPanelChains(p, q, EnforceCombined(StoreProfile(q, u, data), u));
    } else {
      var row := User(RemoteBlocked(data, now), LifeActive, None, 0, 0, None);
      var q := p.(users := p.users[u := row]);
      StoreUserKeeps(p, u, row);
      StoredProfileKeeps(q, u, data);
      KeepsPanelChains(p, q, UpsertRemote(p, u, data, now, psk));
    }
  }

  lemma MarkStaleConfirmsNothing(p: Panel, us: set<UserId>)
    requires Settled(p)
    ensures Settled(MarkStale(p, us)) && ConfirmsNothing(p, MarkStale(p, us)) && MarkStale(p, us).devices == p.devices
    ensures LivePeersHold(p) ==> LivePeersHold(MarkStale(p, us))
  {
  }

  lemma MarkStaleKeeps(p: Panel, us: set<UserId>)
    requires Settled(p)
    ensures KeepsPanel(p, MarkStale(p, us))
  {
    MarkStaleConfirmsNothing(p, us);
    if RecyclingHolds(p) { ConfirmedBefore(p, MarkStale(p, us)); }
  }

  lemma RequestConfirmsNothing(p: Panel, u: UserId)
    requires Settled(p)
    ensures Settled(RequestDelete(p, u)) && ConfirmsNothing(p, RequestDelete(p, u))
    ensures RequestDelete(p, u).devices == p.devices
    ensures LivePeersHold(p) ==> LivePeersHold(RequestDelete(p, u))
  {
  }

  lemma RequestDeleteKeeps(p: Panel, u: UserId)
    requires Settled(p)
    ensures KeepsPanel(p, RequestDelete(p, u))
  {
    RequestConfirmsNothing(p, u);
    if RecyclingHolds(p) { ConfirmedBefore(p, RequestDelete(p, u)); }
  }

  /** The surviving rows are untouched. */
  lemma RemoveUsersKeeps(p: Panel, us: set<UserId>)
    requires Settled(p)
    ensures Settled(RemoveUsers(p, us)) && HistoryKept(p, RemoveUsers(p, us))
    ensures LivePeersHold(p) ==> LivePeersHold(RemoveUsers(p, us))
    ensures RecyclingHolds(p) ==> RecyclingHolds(RemoveUsers(p, us))
  {
    var q := RemoveUsers(p, us);
    forall d | d in q.devices && ConfirmedGone(q, d) ensures ConfirmedGone(p, d) {
      forall k | k in p.peers && k.device == d ensures p.peers[k].status == Deleted {
        assert k in q.peers;
      }
    }
  }

  // --- block and recovery ---------------------------------------------------

  /**
   After a pass that takes an owner from blocked to active, each of its live devices with a key and an
   address has a pending or active peer on every node, nodes added meanwhile included.
   */
  lemma RecoveryCoversEveryNode(p: Panel, u: UserId, total: nat, now: Time, psk: PeerKey -> Psk, d: DeviceId, n: NodeId)
    requires u in p.users && (p.users[u].isBlocked || p.users[u].lifecycle != LifeActive)
    requires DesiredStatus(p.users[u], total, now) == LifeActive
    requires d in p.devices && p.devices[d].owner == u && p.devices[d].deletedAt.None?
    requires p.devices[d].key.Some? && p.devices[d].ip.Some? && n in p.nodes
    ensures var q := ApplyLocal(p, u, total, now, psk);
            PeerKey(n, d) in q.peers && !IsTombstone(q.peers[PeerKey(n, d)].status)
  {
    var row := p.users[u].(lifecycle := LifeActive);
    var m := UnblockOwner(p, u, row);
    assert PeerKey(n, d) in m.peers || PeerKey(n, d) in MissingForUser(m, u);
  }

  lemma RemoteRecoveryCoversEveryNode(p: Panel, u: UserId, data: Profile, now: Time, psk: PeerKey -> Psk,
                                      d: DeviceId, n: NodeId)
    requires u in p.users && p.users[u].isBlocked && !RemoteBlocked(data, now)
    requires d in p.devices && p.devices[d].owner == u && p.devices[d].deletedAt.None?
    requires p.devices[d].key.Some? && p.devices[d].ip.Some? && n in p.nodes
    ensures var q := ApplyRemote(p, u, data, now, psk);
            PeerKey(n, d) in q.peers && !IsTombstone(q.peers[PeerKey(n, d)].status)
  {
    var m := UnblockOwner(p, u, p.users[u]);
    assert PeerKey(n, d) in m.peers || PeerKey(n, d) in MissingForUser(m, u);
  }

  /** A second pass on the same inputs changes nothing. */
  lemma LocalPassIsIdempotent(p: Panel, u: UserId, total: nat, now: Time, psk: PeerKey -> Psk, psk': PeerKey -> Psk)
    requires u in p.users
    ensures var q := ApplyLocal(p, u, total, now, psk);
            ApplyLocal(q, u, total, now, psk') == q
  {
    var user := p.users[u];
    var want := DesiredStatus(user, total, now);
    var row := user.(lifecycle := want);
    if want != LifeActive { BlockTwice(p, u, row); } else {
      RecoveredStaysRestored(p, u, row, psk);
      UnblockTwice(p, u, row);
    }
  }

  lemma BlockTwice(p: Panel, u: UserId, row: User)
    ensures var q := BlockOwner(p, u, row); BlockOwner(q, u, row.(isBlocked := true)) == q
  {
    var q := BlockOwner(p, u, row);
    assert PeersBlocked(q, {u}) == q.peers;
    assert q.users[u := q.users[u]] == q.users;
  }

  lemma UnblockTwice(p: Panel, u: UserId, row: User)
    ensures var q := UnblockOwner(p, u, row); UnblockOwner(q, u, row.(isBlocked := false)) == q
  {
    var q := UnblockOwner(p, u, row);
    assert PeersRestored(q, u) == q.peers;
    assert q.users[u := q.users[u]] == q.users;
  }

  lemma RecoveredStaysRestored(p: Panel, u: UserId, row: User, psk: PeerKey -> Psk)
    ensures var q := RecoverOwner(p, u, row, psk); UnblockOwner(q, u, row.(isBlocked := false)) == q
  {
    var q := RecoverOwner(p, u, row, psk);
    assert PeersRestored(q, u) == q.peers;
    assert q.users[u := q.users[u]] == q.users;
  }

  lemma RemotePassIsIdempotent(p: Panel, u: UserId, data: Profile, now: Time, psk: PeerKey -> Psk, psk': PeerKey -> Psk)
    requires u in p.users
    ensures var q := ApplyRemote(p, u, data, now, psk);
            ApplyRemote(q, u, data, now, psk') == q
  {
  }
}
