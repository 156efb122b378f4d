/**
 What one node's part of a sync job does to its tunnels, whatever happens on the panel meanwhile: the
 requests the worker does not send make no difference.
 */
module FleetSync {
  import opened TrafficLedger
  import opened PanelModel
  import opened NodeResults
  import opened WorkerSync
  import opened Fleet

  ghost predicate TablesAgree(f: State) {
    forall n | n in f.tables :: KeysAgree(f.tables[n])
  }

  predicate DistinctSnapshots(ss: seq<Snapshot>) {
    forall s | s in ss :: DistinctKeys(s.peers)
  }

  /** Snapshots name each key once, as public keys are unique. */
  predicate JobDistinct(job: Job) {
    match job
    case Idle => true
    case Fetched(ss) => DistinctSnapshots(ss)
    case Applying(_, _, _, rest) => DistinctSnapshots(rest)
    case Dumped(_, _, rest) => DistinctSnapshots(rest)
    case HalfReported(_, _, _, rest) => DistinctSnapshots(rest)
  }

  lemma EventKeepsTables(hosts: seq<Ip>, f: State, e: Event)
    requires TablesAgree(f) && CanHappen(f, e)
    ensures TablesAgree(After(hosts, f, e))
  {
    var g := After(hosts, f, e);
    forall n | n in g.tables ensures KeysAgree(g.tables[n]) {
      assert n in f.tables ==> KeysAgree(f.tables[n]);
    }
  }

  lemma EventKeepsDistinct(hosts: seq<Ip>, f: State, e: Event)
    requires JobDistinct(f.job) && CanHappen(f, e)
    ensures JobDistinct(After(hosts, f, e).job)
  {
  }

  /** In every run, with any number of nodes, removals and split reports, the keys on file stay the live ones. */
  lemma {:induction false} RunKeepsTables(hosts: seq<Ip>, c: Config, states: seq<State>, events: seq<Event>, i: nat)
    requires IsRun(hosts, c, states, events) && i < |states|
    requires TablesAgree(states[0]) && states[0].job.Idle?
    ensures TablesAgree(states[i]) && JobDistinct(states[i].job)
  {
    if i > 0 {
      RunKeepsTables(hosts, c, states, events, i - 1);
      EventKeepsTables(hosts, states[i - 1], events[i - 1]);
      EventKeepsDistinct(hosts, states[i - 1], events[i - 1]);
    }
  }

  /** The table once everything that is still to be sent has been. */
  function Remaining(f: State): Table
    requires f.job.Applying?
  {
    ApplyDeletes(ApplyPuts(TableOf(f, f.job.node), f.job.puts), f.job.deletes)
  }

  lemma SendingLeavesLess(hosts: seq<Ip>, f: State, e: Event)
    requires f.job.Applying? && CanHappen(f, e) && After(hosts, f, e).job.Applying?
    ensures var g := After(hosts, f, e); g.job.node == f.job.node && Remaining(g) == Remaining(f)
  {
    var t := TableOf(f, f.job.node);
    if e.SendPut? { FirstPut(t, f.job.puts); }
    if e.SendDelete? { FirstDelete(t, f.job.deletes); }
  }

  /** Steps i+1 to k are one node's part of a job, begun at step i. */
  ghost predicate AppliesFrom(states: seq<State>, events: seq<Event>, i: nat, k: nat)
    requires |states| == |events| + 1
  {
    && i < k < |states| && events[i].Begin? && CanHappen(states[i], events[i]) && states[i].job.snapshots != []
    && forall m | i < m <= k :: states[m].job.Applying?
  }

  lemma BeginLeavesAll(hosts: seq<Ip>, f: State)
    requires CanHappen(f, Begin) && f.job.snapshots != []
    ensures var s, g := f.job.snapshots[0], After(hosts, f, Begin);
            g.job.Applying? && g.job.node == s.node && Remaining(g) == SyncReconciled(TableOf(f, s.node), s.peers)
  {
  }

  /** What is left to send leads to the same table for the same node. */
  ghost predicate OnCourse(f: State, g: State) {
    && f.job.Applying? && g.job.Applying?
    && g.job.node == f.job.node && Remaining(g) == Remaining(f)
  }

  lemma CourseChains(f: State, g: State, h: State)
    requires f.job.Applying? && (f == g || OnCourse(f, g)) && (g == h || OnCourse(g, h))
    ensures OnCourse(f, h)
  {
  }

  lemma SentLast(hosts: seq<Ip>, c: Config, states: seq<State>, events: seq<Event>, i: nat, k: nat)
    requires IsRun(hosts, c, states, events) && AppliesFrom(states, events, i, k) && k > i + 1
    ensures OnCourse(states[k - 1], states[k])
  {
    assert states[k - 1 + 1] == After(hosts, states[k - 1], events[k - 1]);
    SendingLeavesLess(hosts, states[k - 1], events[k - 1]);
  }

  lemma Begun(hosts: seq<Ip>, c: Config, states: seq<State>, events: seq<Event>, i: nat)
    requires IsRun(hosts, c, states, events) && AppliesFrom(states, events, i, i + 1)
    ensures var s := states[i].job.snapshots[0];
            && states[i + 1].job.node == s.node
            && Remaining(states[i + 1]) == SyncReconciled(TableOf(states[i], s.node), s.peers)
  {
    assert events[i] == Begin && states[i + 1] == After(hosts, states[i], events[i]);
    BeginLeavesAll(hosts, states[i]);
  }

  ghost predicate StaysOnCourse(states: seq<State>, m: nat) {
    0 < m < |states| && OnCourse(states[m - 1], states[m])
  }

  lemma {:induction false} CourseKept(states: seq<State>, i: nat, k: nat)
    requires i < k < |states| && states[i + 1].job.Applying?
    requires forall m: nat | i + 1 < m <= k :: StaysOnCourse(states, m)
    ensures OnCourse(states[i + 1], states[k])
    decreases k
  {
    var f, h := states[i + 1], states[k];
    if k == i + 1 {
      CourseChains(f, f, h);
    } else {
      CourseKept(states, i, k - 1);
      assert StaysOnCourse(states, k);
      CourseChains(f, states[k - 1], h);
    }
  }

  lemma Progress(hosts: seq<Ip>, c: Config, states: seq<State>, events: seq<Event>, i: nat, k: nat)
    requires IsRun(hosts, c, states, events) && AppliesFrom(states, events, i, k)
    ensures OnCourse(states[i + 1], states[k])
  {
    forall m: nat | i + 1 < m <= k ensures StaysOnCourse(states, m) {
      assert AppliesFrom(states, events, i, m);
      SentLast(hosts, c, states, events, i, m);
    }
    CourseKept(states, i, k);
  }

  /**
   When the worker is done with a node, its tunnels are what sending every put and every delete of
   the snapshot would have left, from any start at which the node's keys on file are its live keys.
   */
  lemma JobDoesTheWholeSync(hosts: seq<Ip>, c: Config, states: seq<State>, events: seq<Event>, i: nat, k: nat)
    requires IsRun(hosts, c, states, events) && TablesAgree(states[0]) && states[0].job.Idle?
    requires AppliesFrom(states, events, i, k) && states[k].job.puts == [] && states[k].job.deletes == []
    ensures var s := states[i].job.snapshots[0];
            TableOf(states[k], s.node) == SyncAll(TableOf(states[i], s.node), s.peers)
  {
    var s := states[i].job.snapshots[0];
    RunKeepsTables(hosts, c, states, events, i);
    assert s in states[i].job.snapshots;
    SkippingIsExact(TableOf(states[i], s.node), s.peers);
    Begun(hosts, c, states, events, i);
    Progress(hosts, c, states, events, i, k);
  }

  /**
   The point of it: when the worker is done with a node, every peer of the snapshot that is neither
   waiting for removal nor blocked has a tunnel with its address and key, and every other one has none.
   */
  lemma JobInstallsTheSnapshot(hosts: seq<Ip>, c: Config, states: seq<State>, events: seq<Event>, i: nat, k: nat,
                               w: WirePeer)
    requires IsRun(hosts, c, states, events) && TablesAgree(states[0]) && states[0].job.Idle?
    requires AppliesFrom(states, events, i, k) && states[k].job.puts == [] && states[k].job.deletes == []
    requires w in states[i].job.snapshots[0].peers && w.key.Some?
    ensures var t := TableOf(states[k], states[i].job.snapshots[0].node);
            if w.status == PendingDelete || w.isBlocked then w.key.value !in t
            else && w.key.value in t && t[w.key.value].allowed == {w.ip} && t[w.key.value].filePsk == w.psk
                 && (w.psk != 0 ==> t[w.key.value].livePsk == w.psk)
  {
    var s := states[i].job.snapshots[0];
    RunKeepsTables(hosts, c, states, events, i);
    assert s in states[i].job.snapshots;
    JobDoesTheWholeSync(hosts, c, states, events, i, k);
    SyncInstalls(TableOf(states[i], s.node), s.peers, w);
  }

  /** A peer of the panel the snapshot was taken from, with a key and an address, travels as it is on file. */
  lemma PanelPeerTravels(p: Panel, s: Snapshot, k: PeerKey)
    requires IsSnapshot(p, s) && k in p.peers && k.node == s.node
    requires p.devices[k.device].key.Some? && p.devices[k.device].ip.Some?
    ensures var row := p.devices[k.device];
            WirePeer(row.key, row.ip.value, p.peers[k].psk, p.peers[k].status, p.users[row.owner].isBlocked) in s.peers
  {
    assert k in PeersOn(p, s.node) && PeerPayload(p, k).Some?;
  }

  /** The snapshots a job still has to do. */
  function Pending(job: Job): seq<Snapshot> {
    match job
    case Idle => []
    case Fetched(ss) => ss
    case Applying(_, _, _, rest) => rest
    case Dumped(_, _, rest) => rest
    case HalfReported(_, _, _, rest) => rest
  }

  lemma StillPending(hosts: seq<Ip>, f: State, e: Event, s: Snapshot)
    requires CanHappen(f, e) && s in Pending(After(hosts, f, e).job)
    ensures s in Pending(f.job) || (e.Fetch? && s in e.snapshots && IsSnapshot(f.panel, s))
  {
  }

  lemma {:induction false} WasFetched(hosts: seq<Ip>, c: Config, states: seq<State>, events: seq<Event>, i: nat,
                                      s: Snapshot)
    returns (h: nat)
    requires IsRun(hosts, c, states, events) && i < |states| && states[0].job.Idle? && s in Pending(states[i].job)
    ensures h < i && events[h].Fetch? && s in events[h].snapshots && IsSnapshot(states[h].panel, s)
    decreases i
  {
    StillPending(hosts, states[i - 1], events[i - 1], s);
    if s in Pending(states[i - 1].job) { h := WasFetched(hosts, c, states, events, i - 1, s); } else { h := i - 1; }
  }

  /**
   From the panel to the node: a device with a key and an address has a tunnel on a finished node exactly
   if, when the snapshot was fetched, its peer there was not waiting for removal and its owner not blocked.
   */
  lemma PanelPeersAreInstalled(hosts: seq<Ip>, c: Config, states: seq<State>, events: seq<Event>, i: nat, k: nat)
    returns (h: nat)
    requires IsRun(hosts, c, states, events) && TablesAgree(states[0]) && states[0].job.Idle?
    requires AppliesFrom(states, events, i, k) && states[k].job.puts == [] && states[k].job.deletes == []
    ensures h < i && events[h].Fetch? && References(states[h].panel)
    ensures forall peer | peer in states[h].panel.peers && peer.node == states[k].job.node ::
              Installed(states[h].panel, peer, TableOf(states[k], peer.node))
  {
    var s := states[i].job.snapshots[0];
    h := WasFetched(hosts, c, states, events, i, s);
    var p := states[h].panel;
    Begun(hosts, c, states, events, i);
    Progress(hosts, c, states, events, i, k);
    forall peer | peer in p.peers && peer.node == states[k].job.node
      ensures Installed(p, peer, TableOf(states[k], peer.node))
    {
      PanelPeerIsInstalled(hosts, c, states, events, i, k, p, peer);
    }
  }

  /** The peer has the tunnel it should have: its device's address and its key, or none at all. */
  ghost predicate Installed(p: Panel, peer: PeerKey, t: Table)
    requires References(p) && peer in p.peers
  {
    var row := p.devices[peer.device];
    row.key.Some? && row.ip.Some? ==>
      if p.peers[peer].status == PendingDelete || p.users[row.owner].isBlocked then row.key.value !in t
      else && row.key.value in t && t[row.key.value].allowed == {row.ip.value}
           && t[row.key.value].filePsk == p.peers[peer].psk
  }

  lemma PanelPeerIsInstalled(hosts: seq<Ip>, c: Config, states: seq<State>, events: seq<Event>, i: nat, k: nat,
                             p: Panel, peer: PeerKey)
    requires IsRun(hosts, c, states, events) && TablesAgree(states[0]) && states[0].job.Idle?
    requires AppliesFrom(states, events, i, k) && states[k].job.puts == [] && states[k].job.deletes == []
    requires IsSnapshot(p, states[i].job.snapshots[0])
    requires peer in p.peers && peer.node == states[i].job.snapshots[0].node
    ensures Installed(p, peer, TableOf(states[k], peer.node))
  {
    var row := p.devices[peer.device];
    if row.key.Some? && row.ip.Some? {
      PanelPeerTravels(p, states[i].job.snapshots[0], peer);
      JobInstallsTheSnapshot(hosts, c, states, events, i, k,
                             WirePeer(row.key, row.ip.value, p.peers[peer].psk, p.peers[peer].status,
                                      p.users[row.owner].isBlocked));
    }
  }
}
