/**
 Whether an administrator's block of a local account lasts. Every pass over the account judges it by
 what is on file; over whole runs of the panel, with reports and edits of anything in between, the
 passes that find it expired or over its limit are what loses the block.
 */
module AdminBlock {
  import opened Options
  import opened TrafficLedger
  import opened PanelModel
  import opened Devices
  import opened Lifecycle
  import opened NodeResults
  import opened PanelRuns

  /** One pass over the account: what an administrator wrote first, if anything, and what it is judged by. */
  datatype Pass = Pass(edit: Option<LocalEdit>, total: nat, now: Time)

  function Written(user: User, j: Pass): User {
    match j.edit
    case Some(Block) => user.(lifecycle := LifeBlocked)
    case Some(Unblock) => user.(lifecycle := LifeActive)
    case Some(SetLimits(expireAt, limitBytes)) => user.(expireAt := expireAt, limitBytes := limitBytes)
    case _ => user
  }

  function Judged(user: User, j: Pass): User {
    var status := DesiredStatus(Written(user, j), j.total, j.now);
    Written(user, j).(lifecycle := status, isBlocked := status != LifeActive)
  }

  function AllJudged(user: User, js: seq<Pass>): User {
    if js == [] then user else Judged(AllJudged(user, js[..|js| - 1]), js[|js| - 1])
  }

  /** The i-th pass finds the account expired or over its limit. */
  predicate FindsAt(user: User, js: seq<Pass>, i: nat)
    requires i < |js|
  {
    var row := Written(AllJudged(user, js[..i]), js[i]);
    Expired(row.expireAt, js[i].now) || OverLimit(row.limitBytes, js[i].total)
  }

  /** Some pass found it so, and no administrator blocked it again since. */
  ghost predicate Lost(user: User, js: seq<Pass>) {
    exists i: nat :: i < |js| && FindsAt(user, js, i) && forall m | i < m < |js| :: js[m].edit != Some(Block)
  }

  lemma LostStep(user: User, js: seq<Pass>)
    requires js != []
    ensures var n := |js| - 1;
            Lost(user, js) <==> FindsAt(user, js, n) || (Lost(user, js[..n]) && js[n].edit != Some(Block))
  {
    var n := |js| - 1;
    var init := js[..n];
    forall i: nat | i < n ensures FindsAt(user, init, i) == FindsAt(user, js, i) { assert init[..i] == js[..i]; }
    if i: nat :| i < |init| && FindsAt(user, init, i) && forall m | i < m < |init| :: init[m].edit != Some(Block) {
      assert js[n].edit != Some(Block) ==> FindsAt(user, js, i) && forall m | i < m < |js| :: js[m].edit != Some(Block);
    }
    if i: nat :| i < |js| && FindsAt(user, js, i) && forall m | i < m < |js| :: js[m].edit != Some(Block) {
      assert i < n ==> FindsAt(user, init, i) && forall m | i < m < |init| :: init[m].edit != Some(Block);
    }
  }

  /** A blocked account's status after any passes, none of them after an unblock. */
  lemma {:induction false} JudgedExactly(user: User, js: seq<Pass>)
    requires user.lifecycle == LifeBlocked && forall j | j in js :: j.edit != Some(Unblock)
    ensures var status := AllJudged(user, js).lifecycle;
            && (status == LifeBlocked <==> !Lost(user, js))
            && (status == LifeActive <==> Lost(user, js) && !FindsAt(user, js, |js| - 1))
  {
    if js != [] {
      var init, last := js[..|js| - 1], js[|js| - 1];
      assert last in js && forall j | j in init :: j in js;
      JudgedExactly(user, init);
      LostStep(user, js);
    }
  }

  // --- the passes of a run --------------------------------------------------

  predicate Local(p: Panel, u: UserId) {
    u in p.users && p.users[u].profile.None?
  }

  /** What the passes read and write of an account. */
  function Core(user: User): User {
    user.(deviceLimit := 0)
  }

  ghost predicate AppliesTo(p: Panel, loaded: set<PeerKey>, r: PeerReport, now: Time, psk: PeerKey -> Psk, k: PeerKey) {
    IsFor(p, loaded, r.key, k) && ApplyReport(p, loaded, r, now, psk) == ApplyToPeer(p, k, r, now, psk)
  }

  /** The result applied is some peer's; the account is judged if that peer is its own and was sampled. */
  ghost predicate JudgesFor(p: Panel, loaded: set<PeerKey>, r: PeerReport, now: Time, psk: PeerKey -> Psk, u: UserId,
                            k: PeerKey) {
    AppliesTo(p, loaded, r, now, psk, k) && Sampled(p, k, r) && p.devices[k.device].owner == u
  }

  ghost function PassesOfReport(p: Panel, loaded: set<PeerKey>, r: PeerReport, now: Time, psk: PeerKey -> Psk,
                                u: UserId): seq<Pass> {
    if k: PeerKey :| JudgesFor(p, loaded, r, now, psk, u, k)
    then [Pass(None, LifetimeTotal(ApplyPeerResult(p, k, r, now), u), now)] else []
  }

  ghost function PassesOfReports(p: Panel, loaded: set<PeerKey>, reports: seq<PeerReport>, now: Time,
                                 psk: PeerKey -> Psk, u: UserId)
    : seq<Pass>
    decreases |reports|
  {
    if reports == [] then []
    else
      PassesOfReport(p, loaded, reports[0], now, psk, u)
      + PassesOfReports(ApplyReport(p, loaded, reports[0], now, psk), loaded, reports[1..], now, psk, u)
  }

  ghost function PassesOfStep(p: Panel, s: Step, u: UserId): seq<Pass> {
    match s
    case EditStep(v, edit, now, _) =>
      if v != u || !Local(p, u) then []
      else if edit.Unblock?
          && LocalStanding(p.users[u], LifetimeTotal(p, u), now) in {StandingExpired, StandingLimited} then []
      else [Pass(Some(edit), if edit.ResetTraffic? then 0 else LifetimeTotal(p, u), now)]
    case SyncStep(n, ok, reports, now, psk) =>
      if ok && n in p.nodes then PassesOfReports(p, PeersOn(p, n), reports, now, psk, u) else []
    case HeartbeatStep(n, ok, reports, now, psk) =>
      if ok && n in p.nodes then PassesOfReports(p, PeersOn(p, n), reports, now, psk, u) else []
    case _ => []
  }

  /** Every pass over the account in a run, in order. */
  ghost function PassesOf(hosts: seq<Ip>, p: Panel, steps: seq<Step>, u: UserId): seq<Pass> {
    if steps == [] then []
    else
      var before := steps[..|steps| - 1];
      PassesOf(hosts, p, before, u) + PassesOfStep(Run(hosts, p, before), steps[|steps| - 1], u)
  }

  lemma {:induction false} JudgedInTurn(user: User, a: seq<Pass>, b: seq<Pass>)
    ensures AllJudged(user, a + b) == AllJudged(AllJudged(user, a), b)
    decreases |b|
  {
    if b == [] {
      assert a + b == a;
    } else {
      JudgedInTurn(user, a, b[..|b| - 1]);
      assert (a + b)[..|a + b| - 1] == a + b[..|b| - 1];
    }
  }

  lemma JudgedOnce(user: User, j: Pass)
    ensures AllJudged(user, [j]) == Judged(user, j)
  {
    assert [j][..0] == [];
  }

  lemma EnforcementJudges(p: Panel, v: UserId, now: Time, psk: PeerKey -> Psk, u: UserId)
    requires Local(p, u)
    ensures var q := EnforceCombined(EnforceLocal(p, v, now, psk), v);
            Local(q, u) && Core(q.users[u])
                           == if v == u then Judged(Core(p.users[u]), Pass(None, LifetimeTotal(p, u), now))
                               else Core(p.users[u])
  {
    var m := EnforceLocal(p, v, now, psk);
    assert Local(m, u);
    assert v != u ==> m.users[u] == p.users[u];
    assert v == u ==> EnforceCombined(m, v) == m;
  }

  lemma ResultJudges(p: Panel, k: PeerKey, r: PeerReport, now: Time, psk: PeerKey -> Psk, u: UserId)
    requires Local(p, u) && k in p.peers && k.device in p.devices
    ensures var q, m := ApplyToPeer(p, k, r, now, psk), ApplyPeerResult(p, k, r, now);
            Local(q, u) && Core(q.users[u])
                           == if Sampled(p, k, r) && p.devices[k.device].owner == u
                              then Judged(Core(p.users[u]), Pass(None, LifetimeTotal(m, u), now)) else Core(p.users[u])
  {
    EnforcementJudges(ApplyPeerResult(p, k, r, now), p.devices[k.device].owner, now, psk, u);
  }

  lemma NothingApplied(p: Panel, loaded: set<PeerKey>, r: PeerReport, now: Time, psk: PeerKey -> Psk)
    requires !exists k: PeerKey :: AppliesTo(p, loaded, r, now, psk, k)
    ensures ApplyReport(p, loaded, r, now, psk) == p
  {
    if k: PeerKey :|
      IsFor(p, loaded, r.key, k) && ApplyReport(p, loaded, r, now, psk) == ApplyToPeer(p, k, r, now, psk)
    {
      assert AppliesTo(p, loaded, r, now, psk, k);
    }
  }

  lemma ReportJudges(p: Panel, loaded: set<PeerKey>, r: PeerReport, now: Time, psk: PeerKey -> Psk, u: UserId)
    requires Local(p, u)
    ensures var q := ApplyReport(p, loaded, r, now, psk);
            Local(q, u) && Core(q.users[u]) == AllJudged(Core(p.users[u]), PassesOfReport(p, loaded, r, now, psk, u))
  {
    var js := PassesOfReport(p, loaded, r, now, psk, u);
    if js != [] {
      var k: PeerKey :| JudgesFor(p, loaded, r, now, psk, u, k)
          && js == [Pass(None, LifetimeTotal(ApplyPeerResult(p, k, r, now), u), now)];
      ResultJudges(p, k, r, now, psk, u);
      JudgedOnce(Core(p.users[u]), js[0]);
    } else if k: PeerKey :| AppliesTo(p, loaded, r, now, psk, k) {
      assert !JudgesFor(p, loaded, r, now, psk, u, k);
      ResultJudges(p, k, r, now, psk, u);
    } else {
      NothingApplied(p, loaded, r, now, psk);
    }
  }

  lemma {:induction false} ReportsJudge(p: Panel, loaded: set<PeerKey>, reports: seq<PeerReport>, now: Time,
                                        psk: PeerKey -> Psk, u: UserId)
    requires Local(p, u)
    ensures var q := ApplyReports(p, loaded, reports, now, psk);
            Local(q, u) && Core(q.users[u])
                == AllJudged(Core(p.users[u]), PassesOfReports(p, loaded, reports, now, psk, u))
    decreases |reports|
  {
    if reports != [] {
      var m := ApplyReport(p, loaded, reports[0], now, psk);
      ReportJudges(p, loaded, reports[0], now, psk, u);
      ReportsJudge(m, loaded, reports[1..], now, psk, u);
      JudgedInTurn(Core(p.users[u]), PassesOfReport(p, loaded, reports[0], now, psk, u),
                   PassesOfReports(m, loaded, reports[1..], now, psk, u));
    }
  }

  /** A pass judges its account and leaves every other account's row alone. */
  lemma PassJudges(p: Panel, v: UserId, total: nat, now: Time, psk: PeerKey -> Psk)
    requires Local(p, v)
    ensures ApplyLocal(p, v, total, now, psk).users == p.users[v := Judged(p.users[v], Pass(None, total, now))]
  {
  }

  lemma OwnEditJudges(p: Panel, u: UserId, edit: LocalEdit, now: Time, psk: PeerKey -> Psk)
    requires Local(p, u)
    requires edit.Unblock? ==>
               LocalStanding(p.users[u], LifetimeTotal(p, u), now) !in {StandingExpired, StandingLimited}
    ensures var total := if edit.ResetTraffic? then 0 else LifetimeTotal(p, u);
            EditLocal(p, u, edit, now, psk).users == p.users[u := Judged(p.users[u], Pass(Some(edit), total, now))]
  {
    var total := LifetimeTotal(p, u);
    if edit.ResetTraffic? {
      PassJudges(p.(ledger := ResetUsage(p.ledger, u, DayOf(now))), u, 0, now, psk);
    } else {
      var row := Written(p.users[u], Pass(Some(edit), total, now));
      PassJudges(p.(users := p.users[u := row]), u, total, now, psk);
    }
  }

  lemma EditSparesOthers(p: Panel, v: UserId, edit: LocalEdit, now: Time, psk: PeerKey -> Psk, u: UserId)
    requires Local(p, u) && v != u
    ensures var q := EditLocal(p, v, edit, now, psk); u in q.users && q.users[u] == p.users[u]
  {
  }

  lemma EditJudges(p: Panel, v: UserId, edit: LocalEdit, now: Time, psk: PeerKey -> Psk, u: UserId)
    requires Local(p, u)
    ensures var q := EditLocal(p, v, edit, now, psk);
            Local(q, u) && Core(q.users[u])
                == AllJudged(Core(p.users[u]), PassesOfStep(p, EditStep(v, edit, now, psk), u))
  {
    var js := PassesOfStep(p, EditStep(v, edit, now, psk), u);
    if v != u { EditSparesOthers(p, v, edit, now, psk, u); }
    else if js != [] {
      OwnEditJudges(p, u, edit, now, psk);
      JudgedOnce(Core(p.users[u]), js[0]);
    }
  }

  lemma StepJudges(hosts: seq<Ip>, p: Panel, s: Step, u: UserId)
    requires Local(p, u) && Enabled(p, s) && s != RemoveUserStep(u)
    ensures var q := Apply(hosts, p, s);
            Local(q, u) && Core(q.users[u]) == AllJudged(Core(p.users[u]), PassesOfStep(p, s, u))
  {
    match s
    case EditStep(v, edit, now, psk) => EditJudges(p, v, edit, now, psk, u);
    case SyncStep(n, ok, reports, now, psk) =>
      if ok && n in p.nodes { ReportsJudge(p, PeersOn(p, n), reports, now, psk, u); }
    case HeartbeatStep(n, ok, reports, now, psk) =>
      if ok && n in p.nodes { ReportsJudge(p, PeersOn(p, n), reports, now, psk, u); }
    case _ =>
  }

  lemma {:induction false} RunJudges(hosts: seq<Ip>, p: Panel, steps: seq<Step>, u: UserId)
    requires Local(p, u) && Possible(hosts, p, steps) && RemoveUserStep(u) !in steps
    ensures var q := Run(hosts, p, steps);
            Local(q, u) && Core(q.users[u]) == AllJudged(Core(p.users[u]), PassesOf(hosts, p, steps, u))
  {
    if steps != [] {
      var before, s := steps[..|steps| - 1], steps[|steps| - 1];
      assert s in steps && forall i | 0 <= i < |before| :: before[..i] == steps[..i];
      RunJudges(hosts, p, before, u);
      StepJudges(hosts, Run(hosts, p, before), s, u);
      JudgedInTurn(Core(p.users[u]), PassesOf(hosts, p, before, u), PassesOfStep(Run(hosts, p, before), s, u));
    }
  }

  /** No administrator unblocks the account. */
  ghost predicate NoUnblock(steps: seq<Step>, u: UserId) {
    forall s | s in steps && s.EditStep? && s.user == u :: !s.edit.Unblock?
  }

  lemma {:induction false} ReportsUnblockNobody(p: Panel, loaded: set<PeerKey>, reports: seq<PeerReport>, now: Time,
                                                psk: PeerKey -> Psk,
                                                u: UserId)
    ensures forall j | j in PassesOfReports(p, loaded, reports, now, psk, u) :: j.edit.None?
    decreases |reports|
  {
    if reports != [] {
      ReportsUnblockNobody(ApplyReport(p, loaded, reports[0], now, psk), loaded, reports[1..], now, psk, u);
    }
  }

  lemma StepUnblocksNobody(p: Panel, s: Step, u: UserId)
    requires s.EditStep? && s.user == u ==> !s.edit.Unblock?
    ensures forall j | j in PassesOfStep(p, s, u) :: j.edit != Some(Unblock)
  {
    if s.SyncStep? || s.HeartbeatStep? { ReportsUnblockNobody(p, PeersOn(p, s.node), s.reports, s.now, s.psk, u); }
  }

  lemma {:induction false} PassesUnblockNobody(hosts: seq<Ip>, p: Panel, steps: seq<Step>, u: UserId)
    requires NoUnblock(steps, u)
    ensures forall j | j in PassesOf(hosts, p, steps, u) :: j.edit != Some(Unblock)
  {
    if steps != [] {
      var before := steps[..|steps| - 1];
      assert steps[|steps| - 1] in steps && forall s | s in before :: s in steps;
      PassesUnblockNobody(hosts, p, before, u);
      StepUnblocksNobody(Run(hosts, p, before), steps[|steps| - 1], u);
    }
  }

  /**
   Over every run in which nobody unblocks it, an account that an administrator blocked is still blocked
   by him exactly when no pass since his last block found it expired or over its limit; and it is active
   exactly when some did and the latest pass does not.
   */
  lemma AdminBlockLastsExactly(hosts: seq<Ip>, p: Panel, steps: seq<Step>, u: UserId)
    requires Possible(hosts, p, steps) && RemoveUserStep(u) !in steps && NoUnblock(steps, u)
    requires Local(p, u) && p.users[u].lifecycle == LifeBlocked
    ensures var user, js, after := Core(p.users[u]), PassesOf(hosts, p, steps, u), Run(hosts, p, steps).users;
            && u in after
            && (after[u].lifecycle == LifeBlocked <==> !Lost(user, js))
            && (after[u].lifecycle == LifeActive <==> Lost(user, js) && !FindsAt(user, js, |js| - 1))
  {
    RunJudges(hosts, p, steps, u);
    PassesUnblockNobody(hosts, p, steps, u);
    JudgedExactly(Core(p.users[u]), PassesOf(hosts, p, steps, u));
  }

  // --- a block that is lost -------------------------------------------------

  const ACCOUNT: UserId := 0

  /** An account that ends at the given time, on a panel with nothing else. */
  function OneAccount(isBlocked: bool, lifecycle: LifecycleStatus, expireAt: Time, limitBytes: int): Panel {
    var user := User(isBlocked, lifecycle, Some(expireAt), limitBytes, 0, None);
    Panel(map[ACCOUNT := user], {}, map[], map[], EMPTY, {}, {})
  }

  lemma EditsOneAccount(lifecycle: LifecycleStatus, isBlocked: bool, expireAt: Time, limitBytes: int, edit: LocalEdit,
                        now: Time, psk: PeerKey -> Psk, next: Panel)
    requires edit.Block? || edit.SetLimits?
    requires var user := User(isBlocked, lifecycle, Some(expireAt), limitBytes, 0, None);
             var row := Judged(user, Pass(Some(edit), 0, now));
             next == Panel(map[ACCOUNT := row], {}, map[], map[], EMPTY, {}, {})
    ensures EditLocal(OneAccount(isBlocked, lifecycle, expireAt, limitBytes), ACCOUNT, edit, now, psk) == next
  {
    var p := OneAccount(isBlocked, lifecycle, expireAt, limitBytes);
    var q := EditLocal(p, ACCOUNT, edit, now, psk);
    assert LifetimeTotal(p, ACCOUNT) == 0;
    assert q.peers == map[] && q.users == next.users;
  }

  lemma RunOneMore(hosts: seq<Ip>, p: Panel, steps: seq<Step>, s: Step)
    ensures Run(hosts, p, steps + [s]) == Apply(hosts, Run(hosts, p, steps), s)
  {
    assert (steps + [s])[..|steps|] == steps;
  }

  lemma RunOfThree(hosts: seq<Ip>, p: Panel, a: Step, b: Step, c: Step)
    ensures Run(hosts, p, [a]) == Apply(hosts, p, a)
    ensures Run(hosts, p, [a, b]) == Apply(hosts, Apply(hosts, p, a), b)
    ensures Run(hosts, p, [a, b, c]) == Apply(hosts, Apply(hosts, Apply(hosts, p, a), b), c)
  {
    RunOneMore(hosts, p, [], a);
    RunOneMore(hosts, p, [a], b);
    RunOneMore(hosts, p, [a, b], c);
    assert [] + [a] == [a] && [a] + [b] == [a, b] && [a, b] + [c] == [a, b, c];
  }

  lemma EditsArePossible(hosts: seq<Ip>, p: Panel, steps: seq<Step>)
    requires forall s | s in steps :: s.EditStep?
    ensures Possible(hosts, p, steps)
  {
    forall i | 0 <= i < |steps| ensures Enabled(Run(hosts, p, steps[..i]), steps[i]) { assert steps[i] in steps; }
  }

  lemma CommittedAccount(expireAt: Time)
    ensures Committed(OneAccount(false, LifeActive, expireAt, 0))
  {
  }

  const LIMIT := SetLimits(Some(10), 1000)
  const PROLONG := SetLimits(Some(30), 1000)

  lemma AccountIsActiveAgain(hosts: seq<Ip>, psk: PeerKey -> Psk)
    ensures var p, block := OneAccount(false, LifeActive, 10, 0), EditStep(ACCOUNT, Block, 0, psk);
            && Run(hosts, p, [block]) == OneAccount(true, LifeBlocked, 10, 0)
            && Run(hosts, p, [block, EditStep(ACCOUNT, LIMIT, 20, psk), EditStep(ACCOUNT, PROLONG, 20, psk)])
               == OneAccount(false, LifeActive, 30, 1000)
  {
    var p, block := OneAccount(false, LifeActive, 10, 0), EditStep(ACCOUNT, Block, 0, psk);
    EditsOneAccount(LifeActive, false, 10, 0, Block, 0, psk, OneAccount(true, LifeBlocked, 10, 0));
    EditsOneAccount(LifeBlocked, true, 10, 0, LIMIT, 20, psk, OneAccount(true, LifeExpired, 10, 1000));
    EditsOneAccount(LifeExpired, true, 10, 1000, PROLONG, 20, psk, OneAccount(false, LifeActive, 30, 1000));
    RunOfThree(hosts, p, block, EditStep(ACCOUNT, LIMIT, 20, psk), EditStep(ACCOUNT, PROLONG, 20, psk));
  }

  /**
   Blocked at time 0, found expired at time 20 when its traffic limit is changed, and prolonged: the
   account is active again, and nobody unblocked it.
   */
  lemma BlockIsLost(hosts: seq<Ip>, psk: PeerKey -> Psk) returns (p: Panel, block: Step, later: seq<Step>)
    ensures Committed(p) && Possible(hosts, p, [block] + later) && NoUnblock([block] + later, ACCOUNT)
    ensures block == EditStep(ACCOUNT, Block, 0, psk) && Local(Run(hosts, p, [block]), ACCOUNT)
    ensures Run(hosts, p, [block]).users[ACCOUNT].lifecycle == LifeBlocked
    ensures var q := Run(hosts, p, [block] + later);
            Local(q, ACCOUNT) && q.users[ACCOUNT].lifecycle == LifeActive && !q.users[ACCOUNT].isBlocked
    ensures forall s | s in later :: s.EditStep?
  {
    p, block := OneAccount(false, LifeActive, 10, 0), EditStep(ACCOUNT, Block, 0, psk);
    later := [EditStep(ACCOUNT, LIMIT, 20, psk), EditStep(ACCOUNT, PROLONG, 20, psk)];
    CommittedAccount(10);
    assert [block] + later == [block, later[0], later[1]];
    EditsArePossible(hosts, p, [block] + later);
    AccountIsActiveAgain(hosts, psk);
  }

  lemma LossFollows(hosts: seq<Ip>, p: Panel, block: Step, later: seq<Step>)
    requires NoUnblock(later, ACCOUNT) && forall s | s in later :: s.EditStep?
    requires Local(Run(hosts, p, [block]), ACCOUNT) && Run(hosts, p, [block]).users[ACCOUNT].lifecycle == LifeBlocked
    requires var q := Run(hosts, p, [block] + later); ACCOUNT in q.users && q.users[ACCOUNT].lifecycle == LifeActive
    ensures var m := Run(hosts, p, [block]);
            Possible(hosts, m, later) && Lost(Core(m.users[ACCOUNT]), PassesOf(hosts, m, later, ACCOUNT))
  {
    EditsArePossible(hosts, Run(hosts, p, [block]), later);
    RunAppends(hosts, p, [block], later);
    AdminBlockLastsExactly(hosts, Run(hosts, p, [block]), later, ACCOUNT);
  }

  /** The same run in the words of the exact condition: from a committed panel, a block can be lost. */
  lemma LossHappens(hosts: seq<Ip>, psk: PeerKey -> Psk) returns (p: Panel, steps: seq<Step>)
    ensures Committed(p) && Possible(hosts, p, steps) && NoUnblock(steps, ACCOUNT)
    ensures Local(p, ACCOUNT) && p.users[ACCOUNT].lifecycle == LifeBlocked
    ensures Lost(Core(p.users[ACCOUNT]), PassesOf(hosts, p, steps, ACCOUNT))
  {
    var start, block;
    start, block, steps := BlockIsLost(hosts, psk);
    p := Run(hosts, start, [block]);
    assert NoUnblock(steps, ACCOUNT) by { assert forall s | s in steps :: s in [block] + steps; }
    LossFollows(hosts, start, block, steps);
    EditsArePossible(hosts, start, [block]);
    RunKeeps(hosts, start, [block]);
  }
}
