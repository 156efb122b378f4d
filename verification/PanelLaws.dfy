/**
 What the panel's passes and transactions do, column by column: who is blocked afterwards and why, what
 happens to the peers, and what is left alone.
 */
module PanelLaws {
  import opened Options
  import opened TrafficLedger
  import opened PanelModel
  import opened Devices
  import opened Lifecycle
  import opened NodeResults
  import opened PanelRuns
  import opened TrafficRuns

  // --- peers of one account -------------------------------------------------

  /** Only the account's own row changes, and only the statuses of its own peers; peers may be added to it. */
  ghost predicate OnlyAccount(p: Panel, q: Panel, u: UserId) {
    && q == p.(users := q.users, peers := q.peers)
    && q.users.Keys == p.users.Keys && (forall v | v in p.users && v != u :: q.users[v] == p.users[v])
    && (forall k | k in p.peers :: k in q.peers && q.peers[k] == p.peers[k].(status := q.peers[k].status))
    && (forall k | k in p.peers && !(k.device in p.devices && p.devices[k.device].owner == u) ::
          q.peers[k] == p.peers[k])
    && (forall k | k in q.peers && k !in p.peers :: k.device in p.devices && p.devices[k.device].owner == u)
  }

  /** All of the account's peers are on their way out. */
  ghost predicate AllLeaving(p: Panel, u: UserId) {
    forall k | k in p.peers && k.device in p.devices && p.devices[k.device].owner == u ::
      p.peers[k].status == PendingDelete
  }

  /** The account's peers on their way out are pending again; live ones and deleted devices' are as they were. */
  ghost predicate AllBack(p: Panel, q: Panel, u: UserId) {
    forall k | k in q.peers && k.device in q.devices && q.devices[k.device].owner == u ::
      if q.devices[k.device].deletedAt.Some? then k in p.peers && q.peers[k] == p.peers[k]
      else if k in p.peers && (p.peers[k].status == Pending || p.peers[k].status == Active)
      then q.peers[k] == p.peers[k]
      else q.peers[k].status == Pending
  }

  lemma BlockGives(p: Panel, u: UserId, row: User)
    requires u in p.users
    ensures var q := BlockOwner(p, u, row);
            OnlyAccount(p, q, u) && AllLeaving(q, u) && q.users[u] == row.(isBlocked := true)
  {
  }

  lemma UnblockGives(p: Panel, u: UserId, row: User)
    requires u in p.users
    ensures var q := UnblockOwner(p, u, row);
            OnlyAccount(p, q, u) && AllBack(p, q, u) && q.users[u] == row.(isBlocked := false)
  {
  }

  lemma RecoverGives(p: Panel, u: UserId, row: User, psk: PeerKey -> Psk)
    requires u in p.users
    ensures var q := RecoverOwner(p, u, row, psk);
            OnlyAccount(p, q, u) && AllBack(p, q, u) && q.users[u] == row.(isBlocked := false)
  {
    UnblockGives(p, u, row);
    var m := UnblockOwner(p, u, row);
    var q := RecoverOwner(p, u, row, psk);
    assert forall k | k in q.peers :: k in MissingForUser(m, u) || (k in m.peers && q.peers[k] == m.peers[k]);
  }

  // --- the passes -----------------------------------------------------------

  /**
   The local pass: an account is blocked afterwards exactly if it has expired, or used up a positive limit,
   or an administrator's block is on file; in that order the reason is recorded.
   */
  lemma LocalPassGives(p: Panel, u: UserId, total: nat, now: Time, psk: PeerKey -> Psk)
    requires u in p.users
    ensures var q, before, after := ApplyLocal(p, u, total, now, psk), p.users[u],
              ApplyLocal(p, u, total, now, psk).users;
            var expired := before.expireAt.Some? && before.expireAt.value <= now;
            var over := before.limitBytes > 0 && total >= before.limitBytes;
            && OnlyAccount(p, q, u) && (after[u].isBlocked ==> AllLeaving(q, u))
            && (!after[u].isBlocked ==> AllBack(p, q, u))
            && after[u] == before.(isBlocked := after[u].isBlocked, lifecycle := after[u].lifecycle)
            && (after[u].isBlocked <==> expired || over || before.lifecycle == LifeBlocked)
            && after[u].lifecycle == if expired then LifeExpired else if over then LifeLimited
                                     else if before.lifecycle == LifeBlocked then LifeBlocked else LifeActive
  {
    var row := p.users[u].(lifecycle := DesiredStatus(p.users[u], total, now));
    BlockGives(p, u, row);
    UnblockGives(p, u, row);
    RecoverGives(p, u, row, psk);
  }

  /** The remote pass: blocked afterwards exactly if the profile is not active or has expired; else as before. */
  lemma RemotePassGives(p: Panel, u: UserId, data: Profile, now: Time, psk: PeerKey -> Psk)
    requires u in p.users
    ensures var q := ApplyRemote(p, u, data, now, psk);
            && u in q.users && q.users[u] == p.users[u].(isBlocked := q.users[u].isBlocked)
            && (q.users[u].isBlocked <==>
                data.status != RemoteActive || (data.expireAt.Some? && data.expireAt.value <= now))
            && OnlyAccount(p, q, u)
            && (q.users[u].isBlocked == p.users[u].isBlocked ==> q == p)
            && (q.users[u].isBlocked && !p.users[u].isBlocked ==> AllLeaving(q, u))
            && (!q.users[u].isBlocked && p.users[u].isBlocked ==> AllBack(p, q, u))
  {
    BlockGives(p, u, p.users[u]);
    RecoverGives(p, u, p.users[u], psk);
  }

  /** An imported account's traffic, remote and local together, has used up its positive limit. */
  predicate UsedUp(p: Panel, u: UserId) {
    u in p.users && p.users[u].profile.Some? && p.users[u].profile.value.limitBytes > 0
    && p.users[u].profile.value.usedBytes + (if u in p.ledger.lifetime then p.ledger.lifetime[u].total else 0)
       >= p.users[u].profile.value.limitBytes
  }

  /** The combined limit: used up, the account is blocked and its peers go; otherwise nothing changes. */
  lemma CombinedPassGives(p: Panel, u: UserId)
    ensures var q := EnforceCombined(p, u);
            if UsedUp(p, u)
            then OnlyAccount(p, q, u) && AllLeaving(q, u) && q.users[u] == p.users[u].(isBlocked := true)
            else q == p
  {
    if u in p.users { BlockGives(p, u, p.users[u]); }
  }

  // --- an administrator's edits ---------------------------------------------

  function UsedLocally(p: Panel, u: UserId): nat {
    if u in p.ledger.lifetime then p.ledger.lifetime[u].total else 0
  }

  /** An account with these limits has run out, by its date or by its traffic. */
  predicate RunOut(expireAt: Option<Time>, limitBytes: int, total: int, now: Time) {
    (expireAt.Some? && expireAt.value <= now) || (limitBytes > 0 && total >= limitBytes)
  }

  lemma StoredPassGives(p: Panel, u: UserId, row: User, total: nat, now: Time, psk: PeerKey -> Psk)
    requires u in p.users
    ensures var q := ApplyLocal(p.(users := p.users[u := row]), u, total, now, psk);
            && OnlyAccount(p, q, u) && (q.users[u].isBlocked ==> AllLeaving(q, u))
            && (!q.users[u].isBlocked ==> AllBack(p, q, u))
            && q.users[u] == row.(isBlocked := q.users[u].isBlocked, lifecycle := q.users[u].lifecycle)
            && (q.users[u].isBlocked <==>
                RunOut(row.expireAt, row.limitBytes, total, now) || row.lifecycle == LifeBlocked)
            && (q.users[u].isBlocked <==> q.users[u].lifecycle != LifeActive)
  {
    LocalPassGives(p.(users := p.users[u := row]), u, total, now, psk);
  }

  /** Blocking always blocks. */
  lemma BlockEditGives(p: Panel, u: UserId, now: Time, psk: PeerKey -> Psk)
    requires u in p.users && p.users[u].profile.None?
    ensures var q := EditLocal(p, u, Block, now, psk);
            OnlyAccount(p, q, u) && AllLeaving(q, u) && q.users[u].isBlocked && q.users[u].lifecycle != LifeActive
  {
    StoredPassGives(p, u, p.users[u].(lifecycle := LifeBlocked), UsedLocally(p, u), now, psk);
  }

  /** Unblocking is refused while the account has run out; otherwise it is active and its peers come back. */
  lemma UnblockEditGives(p: Panel, u: UserId, now: Time, psk: PeerKey -> Psk)
    requires u in p.users && p.users[u].profile.None?
    ensures var q := EditLocal(p, u, Unblock, now, psk);
            if RunOut(p.users[u].expireAt, p.users[u].limitBytes, UsedLocally(p, u), now) then q == p
            else OnlyAccount(p, q, u) && AllBack(p, q, u) && !q.users[u].isBlocked && q.users[u].lifecycle == LifeActive
  {
    StoredPassGives(p, u, p.users[u].(lifecycle := LifeActive), UsedLocally(p, u), now, psk);
  }

  /** New limits are stored and judged at once; an administrator's block outlasts them. */
  lemma LimitEditGives(p: Panel, u: UserId, expireAt: Option<Time>, limitBytes: int, now: Time, psk: PeerKey -> Psk)
    requires u in p.users && p.users[u].profile.None?
    ensures var q := EditLocal(p, u, SetLimits(expireAt, limitBytes), now, psk);
            && OnlyAccount(p, q, u) && q.users[u].expireAt == expireAt && q.users[u].limitBytes == limitBytes
            && (q.users[u].isBlocked <==>
                RunOut(expireAt, limitBytes, UsedLocally(p, u), now) || p.users[u].lifecycle == LifeBlocked)
            && (q.users[u].isBlocked ==> AllLeaving(q, u)) && (!q.users[u].isBlocked ==> AllBack(p, q, u))
  {
    StoredPassGives(p, u, p.users[u].(expireAt := expireAt, limitBytes := limitBytes), UsedLocally(p, u), now, psk);
  }

  /** A reset takes the account's traffic away and judges it as unused. */
  lemma ResetEditGives(p: Panel, u: UserId, now: Time, psk: PeerKey -> Psk)
    requires u in p.users && p.users[u].profile.None?
    ensures var q := EditLocal(p, u, ResetTraffic, now, psk);
            && UsedLocally(q, u) == 0
            && (q.users[u].isBlocked <==>
                (p.users[u].expireAt.Some? && p.users[u].expireAt.value <= now) || p.users[u].lifecycle == LifeBlocked)
            && (q.users[u].isBlocked ==> AllLeaving(q, u)) && (!q.users[u].isBlocked ==> AllBack(p, q, u))
  {
    var m := p.(ledger := ResetUsage(p.ledger, u, DayOf(now)));
    ResetEmpties(p.ledger, u, DayOf(now));
    LocalPassGives(m, u, 0, now, psk);
    SamePeersBack(p, m, ApplyLocal(m, u, 0, now, psk), u);
  }

  lemma ResetEmpties(l: Ledger, u: UserId, day: Day)
    ensures u !in ResetUsage(l, u, day).lifetime
  {
    ResetTakesExactly(l, u, day);
  }

  lemma SamePeersBack(p: Panel, m: Panel, q: Panel, u: UserId)
    requires m.peers == p.peers
    ensures AllBack(m, q, u) ==> AllBack(p, q, u)
  {
  }

  /** A managed or unknown account is not edited. */
  lemma NoEditOfManaged(p: Panel, u: UserId, edit: LocalEdit, now: Time, psk: PeerKey -> Psk)
    requires u in p.users ==> p.users[u].profile.Some?
    ensures EditLocal(p, u, edit, now, psk) == p
  {
  }

  // --- imports --------------------------------------------------------------

  /** What an imported profile means for the block, with the traffic counted here. */
  predicate ImportBlocks(data: Profile, total: nat, now: Time) {
    || data.status != RemoteActive
    || (data.expireAt.Some? && data.expireAt.value <= now)
    || (data.limitBytes > 0 && data.usedBytes + total >= data.limitBytes)
  }

  /** The profile is on file as synced and wanted; the block is what the profile and the traffic say. */
  lemma ImportKnownGives(p: Panel, u: UserId, data: Profile, now: Time, psk: PeerKey -> Psk)
    requires u in p.users && p.users[u].profile.Some?
    ensures var q := UpsertRemote(p, u, data, now, psk);
            && OnlyAccount(p, q, u)
            && q.users[u] == p.users[u].(isBlocked := q.users[u].isBlocked,
                                         profile := Some(data.(sync := Synced, deleteRequested := false)))
            && (q.users[u].isBlocked <==> ImportBlocks(data, UsedLocally(p, u), now))
            && (q.users[u].isBlocked && !p.users[u].isBlocked ==> AllLeaving(q, u))
            && (!q.users[u].isBlocked && p.users[u].isBlocked ==> AllBack(p, q, u))
  {
    var a := ApplyRemote(p, u, data, now, psk);
    RemotePassGives(p, u, data, now, psk);
    var b := StoreProfile(a, u, data);
    CombinedPassGives(b, u);
    AccountOnlyChains(p, a, b, u);
    if UsedUp(b, u) { AccountOnlyChains(p, b, EnforceCombined(b, u), u); }
  }

  lemma AccountOnlyChains(p: Panel, m: Panel, q: Panel, u: UserId)
    requires u in p.users && u in q.users
    requires OnlyAccount(p, m, u) && (OnlyAccount(m, q, u) || q == m.(users := m.users[u := q.users[u]]))
    ensures OnlyAccount(p, q, u)
  {
  }

  /** A profile seen for the first time makes an account with nothing of its own. */
  lemma ImportNewGives(p: Panel, u: UserId, data: Profile, now: Time, psk: PeerKey -> Psk)
    requires u !in p.users && References(p)
    ensures var q := UpsertRemote(p, u, data, now, psk);
            q == p.(users := p.users[u := User(ImportBlocks(data, UsedLocally(p, u), now), LifeActive, None, 0, 0,
                                               Some(data.(sync := Synced, deleteRequested := false)))])
  {
    var a := p.(users := p.users[u := User(RemoteBlocked(data, now), LifeActive, None, 0, 0, None)]);
    var b := StoreProfile(a, u, data);
    assert PeersBlocked(b, {u}) == b.peers;
    var q := EnforceCombined(b, u);
    assert q.users == b.users[u := b.users[u].(isBlocked := q.users[u].isBlocked)];
  }

  lemma NoImportOverLocal(p: Panel, u: UserId, data: Profile, now: Time, psk: PeerKey -> Psk)
    requires u in p.users && p.users[u].profile.None?
    ensures UpsertRemote(p, u, data, now, psk) == p
  {
  }

  /** A reconcile blocks exactly the imported accounts it did not see, marks them stale, and takes their peers out. */
  lemma StaleGives(p: Panel, us: set<UserId>, u: UserId)
    requires u in p.users
    ensures var q := MarkStale(p, us);
            && q.users.Keys == p.users.Keys && q.peers.Keys == p.peers.Keys
            && q.devices == p.devices && q.nodes == p.nodes && q.ledger == p.ledger
            && if u in us && p.users[u].profile.Some?
               then q.users[u] == p.users[u].(isBlocked := true,
                                              profile := Some(p.users[u].profile.value.(sync := Stale)))
                   && AllLeaving(q, u)
               else q.users[u] == p.users[u] && forall k | k in p.peers && k.device in p.devices
                                                   && p.devices[k.device].owner == u :: q.peers[k] == p.peers[k]
  {
  }

  /** A delete request blocks the imported account, marks it as missing, and takes out all peers not already gone. */
  lemma RequestGives(p: Panel, u: UserId)
    ensures var q := RequestDelete(p, u);
            if u in p.users && p.users[u].profile.Some?
            then && OnlyAccount(p, q, u) && q.peers.Keys == p.peers.Keys
                 && q.users[u] == p.users[u].(isBlocked := true, profile := Some(
                     p.users[u].profile.value.(sync := Missing, deleteRequested := true)))
                 && forall k | k in p.peers && k.device in p.devices && p.devices[k.device].owner == u ::
                      q.peers[k].status == if p.peers[k].status == Deleted then Deleted else PendingDelete
            else q == p
  {
  }

  /** A removal takes the accounts, their devices and those devices' peers, and nothing else. */
  lemma RemovalGives(p: Panel, us: set<UserId>)
    requires References(p)
    ensures var q := RemoveUsers(p, us);
            && q.nodes == p.nodes && q.issuedIds == p.issuedIds && q.issuedKeys == p.issuedKeys
            && (forall u :: u in q.users <==> u in p.users && u !in us)
            && (forall d :: d in q.devices <==> d in p.devices && p.devices[d].owner !in us)
            && (forall k :: k in q.peers <==> k in p.peers && p.devices[k.device].owner !in us)
            && (forall u | u in q.users :: q.users[u] == p.users[u])
            && (forall d | d in q.devices :: q.devices[d] == p.devices[d])
            && (forall k | k in q.peers :: q.peers[k] == p.peers[k])
  {
  }

  // --- devices --------------------------------------------------------------

  /** The account may be given a device: nothing on file, here or remotely, speaks against it. */
  predicate MayHaveDevices(user: User, total: nat, now: Time) {
    && !user.isBlocked
    && match user.profile
       case None => !RunOut(user.expireAt, user.limitBytes, total, now) && user.lifecycle != LifeBlocked
       case Some(r) =>
         && !r.deleteRequested && r.sync == Synced && r.status == RemoteActive
         && !RunOut(r.expireAt, r.limitBytes, r.usedBytes + total, now)
  }

  /** The number of live devices a positive limit allows: the imported one alone for a managed account. */
  predicate HasRoom(user: User, live: nat) {
    var limit := if user.profile.Some? then user.profile.value.hwidLimit.GetOr(0) else user.deviceLimit;
    limit > 0 ==> live < limit
  }

  ghost predicate HasFreeHost(p: Panel, hosts: seq<Ip>) {
    exists i :: 1 <= i < |hosts| && forall d | d in p.devices :: p.devices[d].ip != Some(hosts[i])
  }

  lemma StandingExactly(user: User, total: nat, now: Time)
    ensures AccountStanding(user, total, now) == InGoodStanding <==> MayHaveDevices(user, total, now)
  {
  }

  lemma {:induction false} FreeHostIsFound(hosts: seq<Ip>, used: set<Ip>)
    ensures FirstFree(hosts, used).Some? <==> exists i :: 0 <= i < |hosts| && hosts[i] !in used
  {
    FirstFreeIsLeast(hosts, used);
  }

  lemma FreeHostExactly(p: Panel, hosts: seq<Ip>)
    ensures AllocateIp(hosts, ReservedIps(p)).Some? <==> HasFreeHost(p, hosts)
  {
    if hosts != [] {
      var rest := hosts[1..];
      FreeHostIsFound(rest, ReservedIps(p));
      forall i | 0 <= i < |rest|
        ensures rest[i] == hosts[i + 1]
        ensures rest[i] !in ReservedIps(p) <==> forall d | d in p.devices :: p.devices[d].ip != Some(hosts[i + 1])
      {
      }
      if HasFreeHost(p, hosts) {
        var i :| 1 <= i < |hosts| && forall d | d in p.devices :: p.devices[d].ip != Some(hosts[i]);
        assert rest[i - 1] !in ReservedIps(p);
      }
    }
  }

  /**
   A device is created exactly if the account exists and may have devices, has room for one more, and some
   host after the gateway is free; otherwise the first of these that fails is the error.
   */
  lemma CreateSucceedsExactly(p: Panel, hosts: seq<Ip>, u: UserId, d: DeviceId, key: Key, now: Time,
                              psk: PeerKey -> Psk)
    ensures var r := CreateDevice(p, hosts, u, d, key, now, psk);
            if u !in p.users then r == Err(UserNotFound)
            else if !MayHaveDevices(p.users[u], UsedLocally(p, u), now) then r.Err? && r.error.AccountInactive?
            else if !HasRoom(p.users[u], |LiveDevices(p, u)|) then r.Err? && r.error.LimitReached?
            else if !HasFreeHost(p, hosts) then r == Err(PoolExhausted)
            else r.Ok?
  {
    if u in p.users { StandingExactly(p.users[u], UsedLocally(p, u), now); }
    FreeHostExactly(p, hosts);
  }

  /**
   A new node gets a pending peer, with a key of its own, for exactly the live devices with a key and an
   address whose owner is not blocked.
   */
  lemma NewNodeGives(p: Panel, n: NodeId, psk: PeerKey -> Psk)
    requires References(p) && n !in p.nodes
    ensures var q := AddNode(p, n, psk);
            && q == p.(nodes := p.nodes + {n}, peers := q.peers)
            && (forall k | k in p.peers :: k in q.peers && q.peers[k] == p.peers[k])
            && (forall k | k in q.peers && k !in p.peers ::
                  k.node == n && q.peers[k] == Peer(Pending, psk(k), None, None))
            && (forall d :: PeerKey(n, d) in q.peers <==>
                  && d in p.devices && p.devices[d].deletedAt.None? && p.devices[d].key.Some? && p.devices[d].ip.Some?
                  && !p.users[p.devices[d].owner].isBlocked)
  {
    var m := p.(nodes := p.nodes + {n});
    forall d ensures PeerKey(n, d) in MissingForNode(m, n) <==>
                     && d in p.devices && p.devices[d].deletedAt.None?
                     && p.devices[d].key.Some? && p.devices[d].ip.Some?
                     && !p.users[p.devices[d].owner].isBlocked
    {
      assert PeerKey(n, d) !in p.peers;
    }
  }

  /** A new limit is stored for a local account; it takes no device away. */
  lemma LimitStepGives(hosts: seq<Ip>, p: Panel, u: UserId, limit: int)
    ensures var q := Apply(hosts, p, SetDeviceLimitStep(u, limit));
            if u in p.users && p.users[u].profile.None?
            then && q == p.(users := p.users[u := p.users[u].(deviceLimit := limit)])
                 && LiveDevices(q, u) == LiveDevices(p, u)
            else q == p
  {
  }

  /** A deletion dates the device, takes its live peers out, and gives its address back once all peers were gone. */
  lemma DeletionGives(p: Panel, d: DeviceId, at: Time)
    requires d in p.devices
    ensures var q := DeleteDevice(p, d, at);
            && q == p.(devices := q.devices, peers := q.peers) && q.peers.Keys == p.peers.Keys
            && q.devices.Keys == p.devices.Keys && (forall e | e in p.devices && e != d :: q.devices[e] == p.devices[e])
            && q.devices[d].deletedAt == (if p.devices[d].deletedAt.Some? then p.devices[d].deletedAt else Some(at))
            && (forall k | k in p.peers :: q.peers[k] == p.peers[k].(status :=
                  if k.device == d && (p.peers[k].status == Pending || p.peers[k].status == Active) then PendingDelete
                  else p.peers[k].status))
            && (if p.devices[d].ip.Some? && forall k | k in p.peers && k.device == d :: p.peers[k].status == Deleted
                then q.devices[d].ip.None? && q.devices[d].releasedIp == p.devices[d].ip
                else q.devices[d].ip == p.devices[d].ip && q.devices[d].releasedIp == p.devices[d].releasedIp)
  {
    var m := Tombstone(p, d, at);
    assert ConfirmedGone(m, d) <==> forall k | k in p.peers && k.device == d :: p.peers[k].status == Deleted by {
      forall k | k in p.peers && k.device == d ensures m.peers[k].status == Deleted <==> p.peers[k].status == Deleted {}
    }
  }

  /**
   Removing a node takes its peers and nothing of the accounts; a deleted device that had one there gives
   its address back if its peers elsewhere are all confirmed gone.
   */
  lemma NodeRemovalGives(p: Panel, n: NodeId)
    ensures var q := RemoveNode(p, n);
            && q.users == p.users && q.nodes == p.nodes - {n} && q.devices.Keys == p.devices.Keys
            && (forall k :: k in q.peers <==> k in p.peers && k.node != n)
            && (forall k | k in q.peers :: q.peers[k] == p.peers[k])
            && forall d | d in p.devices ::
                 if p.devices[d].deletedAt.Some? && p.devices[d].ip.Some? && PeerKey(n, d) in p.peers
                    && forall k | k in p.peers && k.device == d && k.node != n :: p.peers[k].status == Deleted
                 then q.devices[d] == p.devices[d].(releasedIp := p.devices[d].ip, ip := None)
                 else q.devices[d] == p.devices[d]
  {
    var m := DetachNode(p, n);
    forall d | d in p.devices
      ensures ConfirmedGone(m, d) <==>
              forall k | k in p.peers && k.device == d && k.node != n :: p.peers[k].status == Deleted
    {
      if forall k | k in p.peers && k.device == d && k.node != n :: p.peers[k].status == Deleted {
        forall k | k in m.peers && k.device == d ensures m.peers[k].status == Deleted {}
      }
      if ConfirmedGone(m, d) {
        forall k | k in p.peers && k.device == d && k.node != n
          ensures p.peers[k].status == Deleted
        {
          assert k in m.peers;
        }
      }
    }
  }

  // --- results --------------------------------------------------------------

  /**
   One result: a peer that is not on its way out takes the status reported, unless its device is deleted; a
   peer that is stays so whatever is reported live; and the counters are what was reported.
   */
  lemma ResultGives(p: Panel, k: PeerKey, r: PeerReport, now: Time)
    requires k in p.peers && k.device in p.devices
    ensures var q, before := ApplyPeerResult(p, k, r, now), p.peers[k];
            var leaving := before.status == PendingDelete || before.status == Deleted;
            var deleted := p.devices[k.device].deletedAt.Some?;
            && q == p.(peers := q.peers, ledger := q.ledger) && q.peers.Keys == p.peers.Keys
            && (forall j | j in p.peers && j != k :: q.peers[j] == p.peers[j])
            && q.peers[k].psk == before.psk
            && q.peers[k].status == (
                 if r.status.Some? && (r.status.value == PendingDelete || r.status.value == Deleted) then r.status.value
                 else if leaving then before.status
                 else if deleted then PendingDelete
                 else if r.status.Some? then r.status.value
                 else before.status)
            && q.peers[k].rawRx == (if r.rx.Some? && r.tx.Some? then r.rx else before.rawRx)
            && q.peers[k].rawTx == (if r.rx.Some? && r.tx.Some? then r.tx else before.rawTx)
  {
  }

  /** Exactly the loaded peers waiting for removal whose key the node no longer lists are confirmed gone. */
  lemma ConfirmationGives(p: Panel, loaded: set<PeerKey>, seen: set<Key>)
    requires References(p)
    ensures var q := ConfirmAbsent(p, loaded, seen);
            && q == p.(peers := q.peers) && q.peers.Keys == p.peers.Keys
            && forall k | k in p.peers :: q.peers[k] == p.peers[k].(status :=
                 if k in loaded && p.peers[k].status == PendingDelete
                    && !(exists key | key in seen :: p.devices[k.device].key == Some(key)) then Deleted
                 else p.peers[k].status)
  {
  }

  // --- a whole sync result --------------------------------------------------

  /** A peer of a deleted device that waits for removal goes on waiting through any dump and its passes. */
  lemma {:induction false} StillWaiting(p: Panel, loaded: set<PeerKey>, reports: seq<PeerReport>, now: Time,
                                        psk: PeerKey -> Psk, k: PeerKey)
    requires FromDump(reports) && k in p.peers && p.peers[k].status == PendingDelete && Tombstoned(p, k.device)
    ensures var q := ApplyReports(p, loaded, reports, now, psk);
            && k in q.peers && q.peers[k].status == PendingDelete && q.devices == p.devices && q.nodes == p.nodes
            && q.users.Keys == p.users.Keys
    decreases |reports|
  {
    if reports != [] {
      var m := ApplyReport(p, loaded, reports[0], now, psk);
      assert reports[0] in reports;
      if j: PeerKey :| IsFor(p, loaded, reports[0].key, j) && m == ApplyToPeer(p, j, reports[0], now, psk) {
        WaitsThroughResult(p, j, reports[0], now, psk, k);
      }
      StillWaiting(m, loaded, reports[1..], now, psk, k);
    }
  }

  lemma WaitsThroughPasses(p: Panel, u: UserId, now: Time, psk: PeerKey -> Psk, k: PeerKey)
    requires k in p.peers && p.peers[k].status == PendingDelete && Tombstoned(p, k.device)
    ensures var q := EnforceCombined(EnforceLocal(p, u, now, psk), u);
            && k in q.peers && q.peers[k].status == PendingDelete && q.devices == p.devices && q.nodes == p.nodes
            && q.users.Keys == p.users.Keys
  {
    var m := EnforceLocal(p, u, now, psk);
    if u in p.users { LocalPassGives(p, u, UsedLocally(p, u), now, psk); }
    assert k in m.peers && m.peers[k].status == PendingDelete && m.devices == p.devices;
    CombinedPassGives(m, u);
  }

  lemma WaitsThroughResult(p: Panel, j: PeerKey, r: PeerReport, now: Time, psk: PeerKey -> Psk, k: PeerKey)
    requires j in p.peers && j.device in p.devices && r.status == Some(Active)
    requires k in p.peers && p.peers[k].status == PendingDelete && Tombstoned(p, k.device)
    ensures var q := ApplyToPeer(p, j, r, now, psk);
            && k in q.peers && q.peers[k].status == PendingDelete && q.devices == p.devices && q.nodes == p.nodes
            && q.users.Keys == p.users.Keys
  {
    ResultGives(p, j, r, now);
    WaitsThroughPasses(ApplyPeerResult(p, j, r, now), p.devices[j.device].owner, now, psk, k);
  }

  /**
   The point of a sync result: a deleted device's peer that waits for removal is confirmed gone exactly when
   the node's dump no longer lists its key; a listed one goes on waiting. Only a purge takes its row.
   */
  lemma SyncConfirmsExactly(p: Panel, n: NodeId, reports: seq<PeerReport>, now: Time, psk: PeerKey -> Psk, k: PeerKey)
    requires References(p) && n in p.nodes && FromDump(reports) && k in p.peers && k.node == n
    requires p.peers[k].status == PendingDelete && Tombstoned(p, k.device) && p.devices[k.device].key.Some?
    ensures var q := SyncResult(p, n, true, reports, now, psk);
            k in q.peers ==>
              q.peers[k].status == (if exists r | r in reports :: r.key == p.devices[k.device].key.value
                                    then PendingDelete else Deleted)
    ensures (exists r | r in reports :: r.key == p.devices[k.device].key.value) ==>
              k in SyncResult(p, n, true, reports, now, psk).peers
  {
    var loaded, seen := PeersOn(p, n), ReportedKeys(reports);
    var a := ApplyReports(p, loaded, reports, now, psk);
    StillWaiting(p, loaded, reports, now, psk, k);
    assert p.devices[k.device].key.value in seen <==> exists r | r in reports :: r.key == p.devices[k.device].key.value;
    var b := ConfirmAbsent(a, loaded, seen);
    var c := ReleaseDeviceIps(b, ReleaseCandidates(b, loaded));
    ConfirmedOne(a, loaded, seen, k);
    PurgeKeepsWaiting(c, k);
  }

  lemma ConfirmedOne(p: Panel, loaded: set<PeerKey>, seen: set<Key>, k: PeerKey)
    requires k in loaded && k in p.peers && p.peers[k].status == PendingDelete
    requires k.device in p.devices && p.devices[k.device].key.Some?
    ensures var q := ConfirmAbsent(p, loaded, seen);
            k in q.peers
            && q.peers[k].status == if p.devices[k.device].key.value in seen then PendingDelete else Deleted
  {
  }

  lemma PurgeKeepsWaiting(p: Panel, k: PeerKey)
    requires k in p.peers && k.device in p.devices
    ensures k in PurgeConfirmed(p).peers ==> PurgeConfirmed(p).peers[k] == p.peers[k]
    ensures p.peers[k].status != Deleted ==> k in PurgeConfirmed(p).peers
  {
    var u := p.devices[k.device].owner;
    if p.peers[k].status != Deleted {
      assert OwnedBy(p, k, u);
      assert !PurgeDue(p, u);
    }
  }

  // --- a whole heartbeat ----------------------------------------------------

  /** An entry with both counters for the key. */
  predicate ReadsKey(r: PeerReport, key: Key) {
    r.key == key && r.rx.Some? && r.tx.Some?
  }

  lemma {:induction false} NoReadings(key: Key, reports: seq<PeerReport>, w: Way)
    requires forall j | 0 <= j < |reports| :: !ReadsKey(reports[j], key)
    ensures ReadingsFor(Some(key), reports, w) == []
    decreases |reports|
  {
    if reports != [] {
      assert !ReadsKey(reports[0], key);
      assert forall j | 0 <= j < |reports[1..]| :: reports[1..][j] == reports[j + 1];
      NoReadings(key, reports[1..], w);
    }
  }

  lemma {:induction false} LastReading(key: Key, reports: seq<PeerReport>, i: nat, w: Way)
    requires i < |reports| && ReadsKey(reports[i], key)
    requires forall j | i < j < |reports| :: !ReadsKey(reports[j], key)
    ensures var marks := ReadingsFor(Some(key), reports, w);
            marks != []
            && marks[|marks| - 1] == Reading(if w == Received then reports[i].rx.value else reports[i].tx.value)
    decreases |reports|
  {
    var rest := reports[1..];
    assert forall j | 0 <= j < |rest| :: rest[j] == reports[j + 1];
    if i == 0 {
      NoReadings(key, rest, w);
    } else {
      LastReading(key, rest, i - 1, w);
    }
  }

  /** A heartbeat's last reading of a peer is what its row holds afterwards. */
  lemma HeartbeatCounts(p: Panel, n: NodeId, reports: seq<PeerReport>, now: Time, psk: PeerKey -> Psk, k: PeerKey,
                        i: nat)
    requires Committed(p) && n in p.nodes && k in p.peers && k.node == n && p.devices[k.device].key.Some?
    requires i < |reports| && ReadsKey(reports[i], p.devices[k.device].key.value)
    requires forall j | i < j < |reports| :: !ReadsKey(reports[j], p.devices[k.device].key.value)
    ensures var q := HeartbeatResult(p, n, true, reports, now, psk);
            k in q.peers && q.peers[k].rawRx == reports[i].rx && q.peers[k].rawTx == reports[i].tx
  {
    var u := p.devices[k.device].owner;
    forall w: Way
      ensures CounterOf(HeartbeatResult(p, n, true, reports, now, psk), k, w)
           == Some(if w == Received then reports[i].rx.value else reports[i].tx.value)
      ensures k in HeartbeatResult(p, n, true, reports, now, psk).peers
    {
      ReportBooks(p, PeersOn(p, n), reports, now, psk, u, PeersNow(p, u), w);
      LastReading(p.devices[k.device].key.value, reports, i, w);
    }
    var q := HeartbeatResult(p, n, true, reports, now, psk);
    assert CounterOf(q, k, Received) == reports[i].rx && CounterOf(q, k, Sent) == reports[i].tx;
  }

  /** If the account is blocked, then for a reason that a pass at this time would find again. */
  predicate BlockedForCause(p: Panel, u: UserId, now: Time) {
    u in p.users && (p.users[u].isBlocked && p.users[u].profile.None? ==>
      RunOut(p.users[u].expireAt, p.users[u].limitBytes, UsedLocally(p, u), now) || p.users[u].lifecycle == LifeBlocked)
  }

  lemma PassesKeepCause(p: Panel, v: UserId, now: Time, psk: PeerKey -> Psk, u: UserId)
    requires BlockedForCause(p, u, now)
    ensures var q := EnforceCombined(EnforceLocal(p, v, now, psk), v);
            BlockedForCause(q, u, now) && (p.users[u].isBlocked ==> q.users[u].isBlocked)
  {
    var m := EnforceLocal(p, v, now, psk);
    if v in p.users { LocalPassGives(p, v, UsedLocally(p, v), now, psk); }
    CombinedPassGives(m, v);
    assert m.ledger == p.ledger;
  }

  lemma ResultKeepsCause(p: Panel, j: PeerKey, r: PeerReport, now: Time, psk: PeerKey -> Psk, u: UserId)
    requires j in p.peers && j.device in p.devices && BlockedForCause(p, u, now)
    ensures var q := ApplyToPeer(p, j, r, now, psk);
            BlockedForCause(q, u, now) && (p.users[u].isBlocked ==> q.users[u].isBlocked)
  {
    var m := ApplyPeerResult(p, j, r, now);
    UsageOnlyGrows(p, j, r, now, u);
    PassesKeepCause(m, p.devices[j.device].owner, now, psk, u);
  }

  lemma UsageOnlyGrows(p: Panel, j: PeerKey, r: PeerReport, now: Time, u: UserId)
    requires j in p.peers && j.device in p.devices
    ensures UsedLocally(ApplyPeerResult(p, j, r, now), u) >= UsedLocally(p, u)
    ensures ApplyPeerResult(p, j, r, now).users == p.users
  {
    if Sampled(p, j, r) {
      BooksExactly(p.ledger, p.devices[j.device].owner, j.node, DayOf(now),
                   CounterDelta(p.peers[j].rawRx, r.rx.value), CounterDelta(p.peers[j].rawTx, r.tx.value));
    }
  }

  /** A live device's peer with this status at least: live, or active if it was seen. */
  predicate Shows(p: Panel, k: PeerKey, seen: bool) {
    && k in p.peers && k.device in p.devices && p.devices[k.device].deletedAt.None?
    && (p.peers[k].status == Active || (!seen && p.peers[k].status == Pending))
  }

  lemma PassesShow(p: Panel, v: UserId, now: Time, psk: PeerKey -> Psk, k: PeerKey, seen: bool)
    requires Shows(p, k, seen) && p.devices[k.device].owner in p.users
    ensures var q := EnforceCombined(EnforceLocal(p, v, now, psk), v);
            p.devices[k.device].owner in q.users
            && (!q.users[p.devices[k.device].owner].isBlocked ==> Shows(q, k, seen)) && q.devices == p.devices
  {
    var m := EnforceLocal(p, v, now, psk);
    if v in p.users { LocalPassGives(p, v, UsedLocally(p, v), now, psk); }
    CombinedPassGives(m, v);
  }

  lemma ResultShows(p: Panel, j: PeerKey, r: PeerReport, now: Time, psk: PeerKey -> Psk, k: PeerKey, seen: bool)
    requires j in p.peers && j.device in p.devices && r.status == Some(Active)
    requires Shows(p, k, seen) && p.devices[k.device].owner in p.users
    ensures var q := ApplyToPeer(p, j, r, now, psk);
            && q.devices == p.devices && p.devices[k.device].owner in q.users
            && (!q.users[p.devices[k.device].owner].isBlocked ==> Shows(q, k, seen || j == k))
  {
    ResultGives(p, j, r, now);
    PassesShow(ApplyPeerResult(p, j, r, now), p.devices[j.device].owner, now, psk, k, seen || j == k);
  }

  predicate Lists(reports: seq<PeerReport>, key: Key) {
    exists r :: r in reports && r.key == key
  }

  lemma EntryShows(p: Panel, loaded: set<PeerKey>, r: PeerReport, now: Time, psk: PeerKey -> Psk, k: PeerKey,
                   seen: bool)
    requires Loaded(p, loaded) && k in loaded && r.status == Some(Active) && p.devices[k.device].key.Some?
    requires Shows(p, k, seen) && BlockedForCause(p, p.devices[k.device].owner, now)
    ensures var q, u := ApplyReport(p, loaded, r, now, psk), p.devices[k.device].owner;
            && q.devices == p.devices && Loaded(q, loaded) && BlockedForCause(q, u, now)
            && (p.users[u].isBlocked ==> q.users[u].isBlocked)
            && (!q.users[u].isBlocked ==> Shows(q, k, seen || r.key == p.devices[k.device].key.value))
  {
    var q, u := ApplyReport(p, loaded, r, now, psk), p.devices[k.device].owner;
    if j: PeerKey :| IsFor(p, loaded, r.key, j) && q == ApplyToPeer(p, j, r, now, psk) {
      ResultKeepsCause(p, j, r, now, psk, u);
      ResultShows(p, j, r, now, psk, k, seen);
      EntryFound(p, loaded, r, now, psk, j, Received);
      if r.key == p.devices[k.device].key.value { OnlyOneHit(p, loaded, j, k, r.key); }
    } else {
      NothingFound(p, loaded, r, now, psk);
      assert !IsFor(p, loaded, r.key, k);
    }
  }

  lemma {:induction false} BlockStays(p: Panel, loaded: set<PeerKey>, reports: seq<PeerReport>, now: Time,
                                      psk: PeerKey -> Psk, u: UserId)
    requires BlockedForCause(p, u, now) && p.users[u].isBlocked
    ensures var q := ApplyReports(p, loaded, reports, now, psk); u in q.users && q.users[u].isBlocked
    decreases |reports|
  {
    if reports != [] {
      var m := ApplyReport(p, loaded, reports[0], now, psk);
      if j: PeerKey :| IsFor(p, loaded, reports[0].key, j) && m == ApplyToPeer(p, j, reports[0], now, psk) {
        ResultKeepsCause(p, j, reports[0], now, psk, u);
      }
      BlockStays(m, loaded, reports[1..], now, psk, u);
    }
  }

  lemma {:induction false} ReportsShow(p: Panel, loaded: set<PeerKey>, reports: seq<PeerReport>, now: Time,
                                       psk: PeerKey -> Psk, k: PeerKey, seen: bool)
    requires Loaded(p, loaded) && k in loaded && FromDump(reports) && p.devices[k.device].key.Some?
    requires Shows(p, k, seen) && BlockedForCause(p, p.devices[k.device].owner, now)
    ensures var q, u := ApplyReports(p, loaded, reports, now, psk), p.devices[k.device].owner;
            u in q.users && (!q.users[u].isBlocked ==>
                               Shows(q, k, seen || Lists(reports, p.devices[k.device].key.value)))
    decreases |reports|
  {
    if reports != [] {
      var u, key := p.devices[k.device].owner, p.devices[k.device].key.value;
      var m := ApplyReport(p, loaded, reports[0], now, psk);
      assert reports[0] in reports && forall r | r in reports[1..] :: r in reports;
      EntryShows(p, loaded, reports[0], now, psk, k, seen);
      if m.users[u].isBlocked { BlockStays(m, loaded, reports[1..], now, psk, u); } else {
        ReportsShow(m, loaded, reports[1..], now, psk, k, seen || reports[0].key == key);
        ListsFirst(reports, key);
      }
    }
  }

  lemma ListsFirst(reports: seq<PeerReport>, key: Key)
    requires reports != []
    ensures Lists(reports, key) <==> reports[0].key == key || Lists(reports[1..], key)
  {
    if r :| r in reports && r.key == key { assert r == reports[0] || r in reports[1..]; }
  }

  /**
   A heartbeat makes the live peers it lists active: those of an account that is not blocked, unless its own
   traffic is what gets the account blocked.
   */
  lemma HeartbeatActivates(p: Panel, n: NodeId, reports: seq<PeerReport>, now: Time, psk: PeerKey -> Psk, k: PeerKey)
    requires Committed(p) && n in p.nodes && FromDump(reports) && k in p.peers && k.node == n
    requires p.devices[k.device].deletedAt.None? && p.devices[k.device].key.Some?
    requires p.peers[k].status == Pending || p.peers[k].status == Active
    requires exists r :: r in reports && r.key == p.devices[k.device].key.value
    ensures var q, u := HeartbeatResult(p, n, true, reports, now, psk), p.devices[k.device].owner;
            u in q.users && (q.users[u].isBlocked || (k in q.peers && q.peers[k].status == Active))
  {
    assert !p.users[p.devices[k.device].owner].isBlocked;
    ReportsShow(p, PeersOn(p, n), reports, now, psk, k, false);
  }
}
