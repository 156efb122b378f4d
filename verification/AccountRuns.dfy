/**
 How an account can leave the panel: an administrator removes it, or its removal was asked for from the
 remote side and every node confirmed its peers gone.
 */
module AccountRuns {
  import opened Options
  import opened TrafficLedger
  import opened PanelModel
  import opened Devices
  import opened Lifecycle
  import opened NodeResults
  import opened PanelRuns

  /** The remote side asked for an imported account to go. */
  predicate Requested(p: Panel, u: UserId) {
    u in p.users && p.users[u].profile.Some? && p.users[u].profile.value.deleteRequested
  }

  ghost predicate SameRequests(p: Panel, q: Panel) {
    q.users.Keys == p.users.Keys && forall u :: Requested(q, u) <==> Requested(p, u)
  }

  lemma LocalPassKeepsRequests(p: Panel, u: UserId, now: Time, psk: PeerKey -> Psk)
    ensures SameRequests(p, EnforceLocal(p, u, now, psk))
  {
  }

  lemma CombinedKeepsRequests(p: Panel, u: UserId)
    ensures SameRequests(p, EnforceCombined(p, u))
  {
  }

  lemma ResultKeepsRequests(p: Panel, k: PeerKey, r: PeerReport, now: Time, psk: PeerKey -> Psk)
    requires k in p.peers && k.device in p.devices
    ensures SameRequests(p, ApplyToPeer(p, k, r, now, psk))
  {
    var m, u := ApplyPeerResult(p, k, r, now), p.devices[k.device].owner;
    LocalPassKeepsRequests(m, u, now, psk);
    CombinedKeepsRequests(EnforceLocal(m, u, now, psk), u);
  }

  lemma {:induction false} ReportsKeepRequests(p: Panel, loaded: set<PeerKey>, reports: seq<PeerReport>, now: Time,
                                               psk: PeerKey -> Psk)
    ensures SameRequests(p, ApplyReports(p, loaded, reports, now, psk))
    decreases |reports|
  {
    if reports != [] {
      var m := ApplyReport(p, loaded, reports[0], now, psk);
      if k: PeerKey :| IsFor(p, loaded, reports[0].key, k) && m == ApplyToPeer(p, k, reports[0], now, psk) {
        ResultKeepsRequests(p, k, reports[0], now, psk);
      }
      ReportsKeepRequests(m, loaded, reports[1..], now, psk);
    }
  }

  /** A purge takes exactly the accounts asked to go whose peers, at least one, are all confirmed gone. */
  lemma PurgedExactly(p: Panel, u: UserId)
    requires u in p.users
    ensures u !in PurgeConfirmed(p).users <==>
              && p.users[u].profile.Some? && p.users[u].profile.value.deleteRequested
              && (exists k | k in p.peers :: k.device in p.devices && p.devices[k.device].owner == u)
              && (forall k | k in p.peers && k.device in p.devices && p.devices[k.device].owner == u ::
                    p.peers[k].status == Deleted)
    ensures u in PurgeConfirmed(p).users ==> PurgeConfirmed(p).users[u] == p.users[u]
  {
    if forall k | k in p.peers && k.device in p.devices && p.devices[k.device].owner == u ::
        p.peers[k].status == Deleted
    {
      forall k | k in p.peers && OwnedBy(p, k, u) ensures p.peers[k].status == Deleted {}
    }
  }

  /** How one transaction can take an account, and how it comes to be asked to go. */
  ghost predicate Leaves(p: Panel, s: Step, q: Panel, u: UserId) {
    && (u in p.users && u !in q.users ==>
          s == RemoveUserStep(u) || (Requested(p, u) && (s.SyncStep? || s.ReconcileStep?)))
    && (Requested(q, u) ==> s == RequestDeleteStep(u) || (Requested(p, u) && !(s.UpsertStep? && s.user == u)))
  }

  lemma PurgeLeaves(p: Panel, m: Panel, s: Step, u: UserId)
    requires SameRequests(p, m) && (s.SyncStep? || s.ReconcileStep?)
    ensures Leaves(p, s, PurgeConfirmed(m), u)
  {
    if u in m.users { PurgedExactly(m, u); }
  }

  lemma ReportLeaves(hosts: seq<Ip>, p: Panel, s: Step, u: UserId)
    requires s.SyncStep? || s.HeartbeatStep?
    ensures Leaves(p, s, Apply(hosts, p, s), u)
  {
    if s.ok && s.node in p.nodes {
      var loaded := PeersOn(p, s.node);
      var m := ApplyReports(p, loaded, s.reports, s.now, s.psk);
      ReportsKeepRequests(p, loaded, s.reports, s.now, s.psk);
      if s.SyncStep? {
        var b := ConfirmAbsent(m, loaded, ReportedKeys(s.reports));
        PurgeLeaves(p, ReleaseDeviceIps(b, ReleaseCandidates(b, loaded)), s, u);
      }
    }
  }

  lemma EditLeaves(p: Panel, v: UserId, edit: LocalEdit, now: Time, psk: PeerKey -> Psk)
    ensures SameRequests(p, EditLocal(p, v, edit, now, psk))
  {
  }

  lemma UpsertLeaves(p: Panel, v: UserId, data: Profile, now: Time, psk: PeerKey -> Psk, u: UserId)
    ensures Leaves(p, UpsertStep(v, data, now, psk), UpsertRemote(p, v, data, now, psk), u)
  {
  }

  lemma AccountLeaves(hosts: seq<Ip>, p: Panel, s: Step, u: UserId)
    requires Enabled(p, s)
    requires s.RequestDeleteStep? || s.AddUserStep? || s.SetDeviceLimitStep? || s.RemoveUserStep?
    ensures Leaves(p, s, Apply(hosts, p, s), u)
  {
  }

  lemma DeviceLeaves(hosts: seq<Ip>, p: Panel, s: Step)
    requires s.CreateStep? || s.DeleteStep? || s.AddNodeStep? || s.RemoveNodeStep?
    ensures SameRequests(p, Apply(hosts, p, s))
  {
  }

  lemma StepLeaves(hosts: seq<Ip>, p: Panel, s: Step, u: UserId)
    requires Enabled(p, s)
    ensures Leaves(p, s, Apply(hosts, p, s), u)
  {
    if s.SyncStep? || s.HeartbeatStep? { ReportLeaves(hosts, p, s, u); }
    else if s.ReconcileStep? { PurgeLeaves(p, MarkStale(p, s.missing), s, u); }
    else if s.EditStep? { EditLeaves(p, s.user, s.edit, s.now, s.psk); }
    else if s.UpsertStep? { UpsertLeaves(p, s.user, s.data, s.now, s.psk, u); }
    else if s.CreateStep? || s.DeleteStep? || s.AddNodeStep? || s.RemoveNodeStep? { DeviceLeaves(hosts, p, s); }
    else { AccountLeaves(hosts, p, s, u); }
  }

  /** The account was asked to go at step r, and no import took that back before step i. */
  predicate AskedBefore(steps: seq<Step>, u: UserId, r: nat, i: nat) {
    r < i <= |steps| && steps[r] == RequestDeleteStep(u)
    && forall j | r < j < i :: !(steps[j].UpsertStep? && steps[j].user == u)
  }

  lemma NextState(hosts: seq<Ip>, p: Panel, steps: seq<Step>, i: nat)
    requires Possible(hosts, p, steps) && i < |steps|
    ensures Enabled(Run(hosts, p, steps[..i]), steps[i])
    ensures Run(hosts, p, steps[..i + 1]) == Apply(hosts, Run(hosts, p, steps[..i]), steps[i])
  {
    assert steps[..i + 1][..i] == steps[..i];
  }

  /** Whoever is asked to go was so from the start, or was asked since, and it was not taken back. */
  lemma {:induction false} RequestedSince(hosts: seq<Ip>, p: Panel, steps: seq<Step>, u: UserId, i: nat)
    requires Possible(hosts, p, steps) && i <= |steps| && Requested(Run(hosts, p, steps[..i]), u) && !Requested(p, u)
    ensures exists r: nat :: AskedBefore(steps, u, r, i)
    decreases i
  {
    if i > 0 {
      var m := i - 1;
      RequestedAt(hosts, p, steps, u, m);
      if steps[m] == RequestDeleteStep(u) {
        assert AskedBefore(steps, u, m, i);
      } else {
        RequestedSince(hosts, p, steps, u, m);
        var r: nat :| AskedBefore(steps, u, r, m);
        StillAsked(steps, u, r, m);
      }
    }
  }

  lemma RequestedAt(hosts: seq<Ip>, p: Panel, steps: seq<Step>, u: UserId, m: nat)
    requires Possible(hosts, p, steps) && m < |steps| && Requested(Run(hosts, p, steps[..m + 1]), u)
    ensures steps[m] == RequestDeleteStep(u)
         || (Requested(Run(hosts, p, steps[..m]), u) && !(steps[m].UpsertStep? && steps[m].user == u))
  {
    NextState(hosts, p, steps, m);
    StepLeaves(hosts, Run(hosts, p, steps[..m]), steps[m], u);
  }

  lemma StillAsked(steps: seq<Step>, u: UserId, r: nat, m: nat)
    requires AskedBefore(steps, u, r, m) && m < |steps| && !(steps[m].UpsertStep? && steps[m].user == u)
    ensures AskedBefore(steps, u, r, m + 1)
  {
  }

  /** The step at which an account is gone first. */
  lemma {:induction false} FirstGone(hosts: seq<Ip>, p: Panel, steps: seq<Step>, u: UserId, n: nat) returns (i: nat)
    requires n <= |steps| && u in p.users && u !in Run(hosts, p, steps[..n]).users
    ensures i < n && u in Run(hosts, p, steps[..i]).users && u !in Run(hosts, p, steps[..i + 1]).users
    decreases n
  {
    var m := n - 1;
    if u in Run(hosts, p, steps[..m]).users { i := m; } else { i := FirstGone(hosts, p, steps, u, m); }
  }

  /**
   Over every run, an account that nobody had asked to go leaves only by an administrator's removal, or
   with a sync result or a reconcile after a delete request that no later import took back.
   */
  lemma AccountLeavesOnlyBy(hosts: seq<Ip>, p: Panel, steps: seq<Step>, u: UserId)
    requires Possible(hosts, p, steps) && u in p.users && !Requested(p, u) && u !in Run(hosts, p, steps).users
    ensures RemoveUserStep(u) in steps || exists r: nat, i: nat ::
              AskedBefore(steps, u, r, i) && i < |steps| && (steps[i].SyncStep? || steps[i].ReconcileStep?)
  {
    assert steps[..|steps|] == steps;
    var i := FirstGone(hosts, p, steps, u, |steps|);
    NextState(hosts, p, steps, i);
    StepLeaves(hosts, Run(hosts, p, steps[..i]), steps[i], u);
    if steps[i] != RemoveUserStep(u) {
      RequestedSince(hosts, p, steps, u, i);
      var r: nat :| AskedBefore(steps, u, r, i);
    }
  }
}
