/**
 The worker's side of a sync: the snapshot it fetches, how it is split and reconciled with what the
 node reports, and what the resulting PUT and DELETE requests do to the node's peer table.
 */
module WorkerSync {
  import opened Options
  import opened TrafficLedger
  import opened PanelModel

  /** One peer of a snapshot, as it travels. */
  datatype WirePeer = WirePeer(key: Option<Key>, ip: Ip, psk: Psk, status: PeerStatus, isBlocked: bool)

  datatype Put = Put(key: Key, ip: Ip, psk: Psk)

  /** A peer on the node: its allowed addresses, and its key both in the config file and live. */
  datatype Tunnel = Tunnel(allowed: set<Ip>, filePsk: Psk, livePsk: Psk)

  type Table = map<Key, Tunnel>

  /** `peer_payload`: nothing for a device without a key or an address. */
  function PeerPayload(p: Panel, k: PeerKey): Option<WirePeer>
    requires k in p.peers && k.device in p.devices && p.devices[k.device].owner in p.users
  {
    var device := p.devices[k.device];
    if device.key.None? || device.ip.None? then None
    else Some(WirePeer(device.key, device.ip.value, p.peers[k].psk, p.peers[k].status, p.users[device.owner].isBlocked))
  }

  // --- splitting and reconciling --------------------------------------------

  predicate IsDelete(w: WirePeer) {
    w.key.Some? && (w.status == PendingDelete || w.isBlocked)
  }

  predicate IsPut(w: WirePeer) {
    w.key.Some? && !IsDelete(w)
  }

  function PutsOf(peers: seq<WirePeer>): seq<Put> {
    if peers == [] then []
    else
      var w := peers[|peers| - 1];
      PutsOf(peers[..|peers| - 1]) + if IsPut(w) then [Put(w.key.value, w.ip, w.psk)] else []
  }

  function DeletesOf(peers: seq<WirePeer>): seq<Key> {
    if peers == [] then []
    else
      var w := peers[|peers| - 1];
      DeletesOf(peers[..|peers| - 1]) + if IsDelete(w) then [w.key.value] else []
  }

  /**
   `_split_peers`: a peer with a key is deleted when it is waiting for removal or its owner is blocked,
   and put with its address and its pre-shared key otherwise, whatever else its status is.
   */
  method SplitPeers(peers: seq<WirePeer>) returns (active: seq<Put>, delete: seq<Key>)
    ensures active == PutsOf(peers) && delete == DeletesOf(peers)
    ensures DistinctKeys(peers) ==> forall w | w in peers && w.key.Some? ::
              && (w.key.value in delete <==> w.status == PendingDelete || w.isBlocked)
              && (Put(w.key.value, w.ip, w.psk) in active <==> w.status != PendingDelete && !w.isBlocked)
    ensures forall key | key in delete :: exists w | w in peers ::
              w.key == Some(key) && (w.status == PendingDelete || w.isBlocked)
    ensures forall put | put in active :: exists w | w in peers ::
              w.key == Some(put.key) && w.ip == put.ip && w.psk == put.psk && w.status != PendingDelete && !w.isBlocked
  {
    active, delete := [], [];
    for i := 0 to |peers|
      invariant active == PutsOf(peers[..i]) && delete == DeletesOf(peers[..i])
    {
      assert peers[..i + 1][..i] == peers[..i];
      var w := peers[i];
      if w.key.None? { continue; }
      if w.status == PendingDelete || w.isBlocked {
        delete := delete + [w.key.value];
        continue;
      }
      active := active + [Put(w.key.value, w.ip, w.psk)];
    }
    assert peers[..|peers|] == peers;
    SplitIsExact(peers);
  }

  /** `_peer_matches_current`: the node already allows exactly that address with that key on file. */
  predicate Matches(put: Put, t: Table) {
    put.key in t && t[put.key].allowed == {put.ip} && t[put.key].filePsk == put.psk
  }

  function PutsToSend(puts: seq<Put>, t: Table): seq<Put> {
    if puts == [] then []
    else PutsToSend(puts[..|puts| - 1], t) + if Matches(puts[|puts| - 1], t) then [] else [puts[|puts| - 1]]
  }

  function DeletesToSend(keys: seq<Key>, t: Table): seq<Key> {
    if keys == [] then []
    else DeletesToSend(keys[..|keys| - 1], t) + if keys[|keys| - 1] in t then [keys[|keys| - 1]] else []
  }

  // --- what the requests do to the node -------------------------------------

  /** A PUT sets address and key; with an empty key the live tunnel keeps the key it has. */
  function PutTunnel(t: Table, put: Put): Tunnel {
    Tunnel({put.ip}, put.psk, if put.psk != 0 then put.psk else if put.key in t then t[put.key].livePsk else 0)
  }

  function ApplyPuts(t: Table, puts: seq<Put>): Table {
    if puts == [] then t
    else
      var before := ApplyPuts(t, puts[..|puts| - 1]);
      before[puts[|puts| - 1].key := PutTunnel(before, puts[|puts| - 1])]
  }

  function ApplyDeletes(t: Table, keys: seq<Key>): Table {
    if keys == [] then t else ApplyDeletes(t, keys[..|keys| - 1]) - {keys[|keys| - 1]}
  }

  /** The straightforward sync: send every put, then every delete. */
  function SyncAll(t: Table, peers: seq<WirePeer>): Table {
    ApplyDeletes(ApplyPuts(t, PutsOf(peers)), DeletesOf(peers))
  }

  /** The sync the worker performs: what already matches or is absent is not sent. */
  function SyncReconciled(t: Table, peers: seq<WirePeer>): Table {
    ApplyDeletes(ApplyPuts(t, PutsToSend(PutsOf(peers), t)), DeletesToSend(DeletesOf(peers), t))
  }

  /** What the status endpoint shows of a tunnel. */
  datatype Shown = Shown(allowed: set<Ip>, psk: Psk)

  function StatusOf(t: Table): map<Key, Shown> {
    map k | k in t :: Shown(t[k].allowed, t[k].filePsk)
  }

  predicate DistinctKeys(peers: seq<WirePeer>) {
    forall i, j | 0 <= i < j < |peers| && peers[i].key.Some? :: peers[i].key != peers[j].key
  }

  predicate DistinctPuts(puts: seq<Put>) {
    forall i, j | 0 <= i < j < |puts| :: puts[i].key != puts[j].key
  }

  function KeysOf(puts: seq<Put>): set<Key> {
    set put | put in puts :: put.key
  }

  // --- membership -----------------------------------------------------------

  lemma {:induction false} PutsOfMembers(peers: seq<WirePeer>, put: Put)
    ensures put in PutsOf(peers) <==> exists w | w in peers :: IsPut(w) && put == Put(w.key.value, w.ip, w.psk)
  {
    if peers != [] {
      PutsOfMembers(peers[..|peers| - 1], put);
      assert peers == peers[..|peers| - 1] + [peers[|peers| - 1]];
    }
  }

  lemma {:induction false} DeletesOfMembers(peers: seq<WirePeer>, key: Key)
    ensures key in DeletesOf(peers) <==> exists w | w in peers :: IsDelete(w) && w.key.value == key
  {
    if peers != [] {
      DeletesOfMembers(peers[..|peers| - 1], key);
      assert peers == peers[..|peers| - 1] + [peers[|peers| - 1]];
    }
  }

  /** Which list a peer goes to, in the terms of the peer alone. */
  lemma SplitIsExact(peers: seq<WirePeer>)
    ensures DistinctKeys(peers) ==> forall w | w in peers && w.key.Some? ::
              && (w.key.value in DeletesOf(peers) <==> w.status == PendingDelete || w.isBlocked)
              && (Put(w.key.value, w.ip, w.psk) in PutsOf(peers) <==> w.status != PendingDelete && !w.isBlocked)
    ensures forall key | key in DeletesOf(peers) :: exists w | w in peers ::
              w.key == Some(key) && (w.status == PendingDelete || w.isBlocked)
    ensures forall put | put in PutsOf(peers) :: exists w | w in peers ::
              w.key == Some(put.key) && w.ip == put.ip && w.psk == put.psk && w.status != PendingDelete && !w.isBlocked
  {
    if DistinctKeys(peers) {
      forall w | w in peers && w.key.Some?
        ensures w.key.value in DeletesOf(peers) <==> w.status == PendingDelete || w.isBlocked
        ensures Put(w.key.value, w.ip, w.psk) in PutsOf(peers) <==> w.status != PendingDelete && !w.isBlocked
      {
        DeletesOfMembers(peers, w.key.value);
        PutsOfMembers(peers, Put(w.key.value, w.ip, w.psk));
      }
    }
    forall key | key in DeletesOf(peers)
      ensures exists w | w in peers :: w.key == Some(key) && (w.status == PendingDelete || w.isBlocked)
    {
      DeletesOfMembers(peers, key);
    }
    forall put | put in PutsOf(peers)
      ensures exists w | w in peers :: w.key == Some(put.key) && w.ip == put.ip && w.psk == put.psk
                                       && w.status != PendingDelete && !w.isBlocked
    {
      PutsOfMembers(peers, put);
    }
  }

  /** Puts go out in the order of the snapshot. */
  lemma PutsInOrder(peers: seq<WirePeer>, i: nat, j: nat)
    requires i < j < |peers| && peers[i].key.Some? && peers[j].key.Some?
    requires peers[i].status != PendingDelete && !peers[i].isBlocked
    requires peers[j].status != PendingDelete && !peers[j].isBlocked
    ensures exists a, b :: 0 <= a < b < |PutsOf(peers)|
              && PutsOf(peers)[a] == Put(peers[i].key.value, peers[i].ip, peers[i].psk)
              && PutsOf(peers)[b] == Put(peers[j].key.value, peers[j].ip, peers[j].psk)
  {
    PutPosition(peers, i);
    PutPosition(peers, j);
    PutsArePrefix(peers, i + 1, j);
    PutsArePrefix(peers, j, |peers|);
    assert PutsOf(peers)[|PutsOf(peers[..i])|].key == peers[i].key.value;
  }

  lemma PutPosition(peers: seq<WirePeer>, i: nat)
    requires i < |peers| && peers[i].key.Some? && peers[i].status != PendingDelete && !peers[i].isBlocked
    ensures |PutsOf(peers[..i + 1])| == |PutsOf(peers[..i])| + 1 && |PutsOf(peers[..i])| < |PutsOf(peers)|
    ensures PutsOf(peers)[|PutsOf(peers[..i])|] == Put(peers[i].key.value, peers[i].ip, peers[i].psk)
  {
    assert peers[..i + 1][..i] == peers[..i];
    PutsArePrefix(peers, i + 1, |peers|);
  }

  lemma {:induction false} PutsArePrefix(peers: seq<WirePeer>, i: nat, j: nat)
    requires i <= j <= |peers|
    ensures |PutsOf(peers[..i])| <= |PutsOf(peers[..j])|
    ensures forall a | 0 <= a < |PutsOf(peers[..i])| :: PutsOf(peers[..j])[a] == PutsOf(peers[..i])[a]
    ensures peers[..|peers|] == peers
    decreases j
  {
    if i < j {
      PutsArePrefix(peers, i, j - 1);
      assert peers[..j][..j - 1] == peers[..j - 1];
    }
  }

  lemma {:induction false} PutsToSendMembers(puts: seq<Put>, t: Table, put: Put)
    ensures put in PutsToSend(puts, t) <==> put in puts && !Matches(put, t)
  {
    if puts != [] {
      PutsToSendMembers(puts[..|puts| - 1], t, put);
      assert puts == puts[..|puts| - 1] + [puts[|puts| - 1]];
    }
  }

  lemma {:induction false} DeletesToSendMembers(keys: seq<Key>, t: Table, key: Key)
    ensures key in DeletesToSend(keys, t) <==> key in keys && key in t
  {
    if keys != [] {
      DeletesToSendMembers(keys[..|keys| - 1], t, key);
      assert keys == keys[..|keys| - 1] + [keys[|keys| - 1]];
    }
  }

  lemma {:induction false} DistinctPutsOf(peers: seq<WirePeer>)
    requires DistinctKeys(peers)
    ensures DistinctPuts(PutsOf(peers))
    ensures forall put | put in PutsOf(peers) :: put.key !in DeletesOf(peers)
  {
    if peers != [] {
      var init, w := peers[..|peers| - 1], peers[|peers| - 1];
      DistinctPutsOf(init);
      forall put | put in PutsOf(init) ensures w.key != Some(put.key) { PutsOfMembers(init, put); }
      forall k | k in DeletesOf(init) ensures w.key != Some(k) { DeletesOfMembers(init, k); }
    }
  }

  lemma {:induction false} DistinctPutsToSend(puts: seq<Put>, t: Table)
    requires DistinctPuts(puts)
    ensures DistinctPuts(PutsToSend(puts, t))
  {
    if puts != [] {
      var init := puts[..|puts| - 1];
      DistinctPutsToSend(init, t);
      forall put | put in PutsToSend(init, t)
        ensures put.key != puts[|puts| - 1].key
      {
        PutsToSendMembers(init, t, put);
      }
    }
  }

  // --- the table after the requests, key by key -----------------------------

  lemma {:induction false} PutsAtKey(t: Table, puts: seq<Put>, key: Key)
    requires DistinctPuts(puts)
    ensures var r := ApplyPuts(t, puts);
            && (key in r <==> key in t || key in KeysOf(puts))
            && (key !in KeysOf(puts) && key in t ==> r[key] == t[key])
            && (forall put | put in puts && put.key == key :: r[key] == PutTunnel(t, put))
  {
    if puts != [] {
      var init, last := puts[..|puts| - 1], puts[|puts| - 1];
      PutsAtKey(t, init, key);
      PutsAtKey(t, init, last.key);
      assert puts == init + [last];
      assert last.key !in KeysOf(init);
      assert KeysOf(puts) == KeysOf(init) + {last.key};
    } else {
      assert KeysOf(puts) == {};
    }
  }

  lemma {:induction false} DeletesAtKey(t: Table, keys: seq<Key>, key: Key)
    ensures var r := ApplyDeletes(t, keys);
            (key in r <==> key in t && key !in keys) && (key in r ==> r[key] == t[key])
  {
    if keys != [] {
      DeletesAtKey(t, keys[..|keys| - 1], key);
      assert keys == keys[..|keys| - 1] + [keys[|keys| - 1]];
    }
  }

  /** A skipped put whose live key is not the one on file: the one case where skipping would show. */
  predicate Drifted(put: Put, t: Table) {
    Matches(put, t) && put.psk != 0 && t[put.key].livePsk != put.psk
  }

  lemma SyncsAtKey(t: Table, peers: seq<WirePeer>, key: Key)
    requires DistinctKeys(peers)
    ensures key in SyncAll(t, peers) <==> key in SyncReconciled(t, peers)
    ensures key in SyncAll(t, peers) ==>
              var a, b := SyncAll(t, peers)[key], SyncReconciled(t, peers)[key];
              && a.allowed == b.allowed && a.filePsk == b.filePsk
              && (a == b <==> !exists put | put in PutsOf(peers) :: put.key == key && Drifted(put, t))
    ensures (exists put | put in PutsOf(peers) :: put.key == key) ==> key in SyncAll(t, peers)
  {
    var puts, dels := PutsOf(peers), DeletesOf(peers);
    DistinctPutsOf(peers);
    DistinctPutsToSend(puts, t);
    PutsAtKey(t, puts, key);
    PutsAtKey(t, PutsToSend(puts, t), key);
    DeletesAtKey(ApplyPuts(t, puts), dels, key);
    DeletesAtKey(ApplyPuts(t, PutsToSend(puts, t)), DeletesToSend(dels, t), key);
    DeletesToSendMembers(dels, t, key);
    if put :| put in puts && put.key == key {
      PutsToSendMembers(puts, t, put);
      forall other | other in puts && other.key == key ensures other == put {}
      if Matches(put, t) {
        forall other | other in PutsToSend(puts, t) ensures other.key != key { PutsToSendMembers(puts, t, other); }
      }
    } else {
      forall other | other in PutsToSend(puts, t) ensures other.key != key { PutsToSendMembers(puts, t, other); }
    }
  }

  /**
   What a sync is for: afterwards the peers of the snapshot that are neither waiting for removal nor
   blocked have a tunnel with their address and key, and the others have none.
   */
  lemma SyncInstalls(t: Table, peers: seq<WirePeer>, w: WirePeer)
    requires DistinctKeys(peers) && w in peers && w.key.Some?
    ensures var r := SyncAll(t, peers);
            if w.status == PendingDelete || w.isBlocked then w.key.value !in r
            else && w.key.value in r && r[w.key.value].allowed == {w.ip} && r[w.key.value].filePsk == w.psk
                 && r[w.key.value].livePsk == (if w.psk != 0 then w.psk
                                              else if w.key.value in t then t[w.key.value].livePsk else 0)
  {
    var key := w.key.value;
    SplitIsExact(peers);
    DistinctPutsOf(peers);
    PutsAtKey(t, PutsOf(peers), key);
    DeletesAtKey(ApplyPuts(t, PutsOf(peers)), DeletesOf(peers), key);
    if w.status != PendingDelete && !w.isBlocked { assert Put(key, w.ip, w.psk) in PutsOf(peers); }
  }

  /**
   Skipping is sound: from any node table the reconciled sync shows the same status as sending
   everything, and leaves the very same tunnels unless a skipped put's live key is not the one on file.
   */
  lemma ReconcileRefines(t: Table, peers: seq<WirePeer>)
    requires DistinctKeys(peers)
    ensures StatusOf(SyncReconciled(t, peers)) == StatusOf(SyncAll(t, peers))
    ensures SyncReconciled(t, peers) == SyncAll(t, peers) <==> forall put | put in PutsOf(peers) :: !Drifted(put, t)
  {
    forall key
      ensures key in SyncAll(t, peers) <==> key in SyncReconciled(t, peers)
      ensures key in SyncAll(t, peers) ==>
                var a, b := SyncAll(t, peers)[key], SyncReconciled(t, peers)[key];
                && a.allowed == b.allowed && a.filePsk == b.filePsk
                && (a == b <==> !exists put | put in PutsOf(peers) :: put.key == key && Drifted(put, t))
    {
      SyncsAtKey(t, peers, key);
    }
    if put :| put in PutsOf(peers) && Drifted(put, t) {
      SyncsAtKey(t, peers, put.key);
      assert SyncAll(t, peers)[put.key] != SyncReconciled(t, peers)[put.key];
    }
  }

  // --- the keys on the node agree -------------------------------------------

  /** A key on file is the live key: what every request leaves, as it sets both. */
  predicate KeysAgree(t: Table) {
    forall key | key in t && t[key].filePsk != 0 :: t[key].livePsk == t[key].filePsk
  }

  lemma {:induction false} PutsKeepAgreement(t: Table, puts: seq<Put>)
    requires KeysAgree(t)
    ensures KeysAgree(ApplyPuts(t, puts))
  {
    if puts != [] { PutsKeepAgreement(t, puts[..|puts| - 1]); }
  }

  lemma {:induction false} DeletesKeepAgreement(t: Table, keys: seq<Key>)
    requires KeysAgree(t)
    ensures KeysAgree(ApplyDeletes(t, keys))
  {
    if keys != [] { DeletesKeepAgreement(t, keys[..|keys| - 1]); }
  }

  /** On every table the requests themselves can build, skipping leaves the same tunnels as sending everything. */
  lemma SkippingIsExact(t: Table, peers: seq<WirePeer>)
    requires DistinctKeys(peers) && KeysAgree(t)
    ensures SyncReconciled(t, peers) == SyncAll(t, peers) && KeysAgree(SyncAll(t, peers))
  {
    ReconcileRefines(t, peers);
    PutsKeepAgreement(t, PutsOf(peers));
    DeletesKeepAgreement(ApplyPuts(t, PutsOf(peers)), DeletesOf(peers));
  }

  // --- one request after the other ------------------------------------------

  lemma {:induction false} FirstPut(t: Table, puts: seq<Put>)
    requires puts != []
    ensures ApplyPuts(t, puts) == ApplyPuts(t[puts[0].key := PutTunnel(t, puts[0])], puts[1..])
    decreases |puts|
  {
    var n := |puts| - 1;
    if n == 0 {
      assert ApplyPuts(t, puts[..0]) == t;
    } else {
      FirstPut(t, puts[..n]);
      assert puts[..n][1..] == puts[1..][..n - 1] && puts[1..][n - 1] == puts[n];
    }
  }

  lemma {:induction false} FirstDelete(t: Table, keys: seq<Key>)
    requires keys != []
    ensures ApplyDeletes(t, keys) == ApplyDeletes(t - {keys[0]}, keys[1..])
    decreases |keys|
  {
    var n := |keys| - 1;
    if n == 0 {
      assert ApplyDeletes(t, keys[..0]) == t;
    } else {
      FirstDelete(t, keys[..n]);
      assert keys[..n][1..] == keys[1..][..n - 1] && keys[1..][n - 1] == keys[n];
    }
  }

  /** Tunnels of keys the snapshot does not name are left alone. */
  lemma OtherKeysUntouched(t: Table, peers: seq<WirePeer>, key: Key)
    requires DistinctKeys(peers) && forall w | w in peers :: w.key != Some(key)
    ensures key in SyncReconciled(t, peers) <==> key in t
    ensures key in t ==> SyncReconciled(t, peers)[key] == t[key]
  {
    var puts := PutsToSend(PutsOf(peers), t);
    DistinctPutsOf(peers);
    DistinctPutsToSend(PutsOf(peers), t);
    PutsAtKey(t, puts, key);
    DeletesAtKey(ApplyPuts(t, puts), DeletesToSend(DeletesOf(peers), t), key);
    DeletesToSendMembers(DeletesOf(peers), t, key);
    DeletesOfMembers(peers, key);
    forall put | put in puts ensures put.key != key {
      PutsToSendMembers(PutsOf(peers), t, put);
      PutsOfMembers(peers, put);
    }
  }

  /** Only what is needed is sent: a put unless the node shows just that address and key, a delete if it has the key. */
  lemma SentExactly(t: Table, peers: seq<WirePeer>, w: WirePeer)
    requires DistinctKeys(peers) && w in peers && w.key.Some?
    ensures var key := w.key.value;
            && (Put(key, w.ip, w.psk) in PutsToSend(PutsOf(peers), t) <==>
                w.status != PendingDelete && !w.isBlocked
                && !(key in t && t[key].allowed == {w.ip} && t[key].filePsk == w.psk))
            && (key in DeletesToSend(DeletesOf(peers), t) <==> (w.status == PendingDelete || w.isBlocked) && key in t)
  {
    SplitIsExact(peers);
    PutsToSendMembers(PutsOf(peers), t, Put(w.key.value, w.ip, w.psk));
    DeletesToSendMembers(DeletesOf(peers), t, w.key.value);
  }

  /** Applying the same snapshot again sends no put and no delete. */
  lemma SecondSyncIsSilent(t: Table, peers: seq<WirePeer>)
    requires DistinctKeys(peers)
    ensures PutsToSend(PutsOf(peers), SyncReconciled(t, peers)) == []
    ensures DeletesToSend(DeletesOf(peers), SyncReconciled(t, peers)) == []
  {
    var r := SyncReconciled(t, peers);
    DistinctPutsOf(peers);
    ReconcileRefines(t, peers);
    var puts, deletes := PutsToSend(PutsOf(peers), r), DeletesToSend(DeletesOf(peers), r);
    if puts != [] {
      var put := puts[0];
      PutsToSendMembers(PutsOf(peers), r, put);
      SyncsAtKey(t, peers, put.key);
      PutsAtKey(t, PutsOf(peers), put.key);
      DeletesAtKey(ApplyPuts(t, PutsOf(peers)), DeletesOf(peers), put.key);
    }
    if deletes != [] {
      var key := deletes[0];
      DeletesToSendMembers(DeletesOf(peers), r, key);
      SyncsAtKey(t, peers, key);
      DeletesAtKey(ApplyPuts(t, PutsOf(peers)), DeletesOf(peers), key);
    }
  }
}
