/**
 The local traffic ledger: how one peer's raw counters become deltas, and how each delta is booked
 into four aggregate tables (per user and day, per user, node and day, per user, and per user and
 node), with the per-user traffic reset and the cascading removal of an account.
 */
module TrafficLedger {
  import opened Options

  type UserId = nat
  type NodeId = nat
  type Day = int

  // --- counter deltas -------------------------------------------------------

  /** Bytes a reading adds; a counter that went down was reset, so all of it is new. */
  function CounterDelta(previous: Option<nat>, current: nat): nat {
    if previous.None? then 0
    else if current < previous.value then current
    else current - previous.value
  }

  /** What a whole sequence of readings adds, the first one only setting the baseline. */
  function DeltaSum(previous: Option<nat>, readings: seq<nat>): nat
    decreases |readings|
  {
    if readings == [] then 0
    else CounterDelta(previous, readings[0]) + DeltaSum(Some(readings[0]), readings[1..])
  }

  /** Sum of the readings that were directly followed by a smaller one, that is, by a reset. */
  function LostAtResets(readings: seq<nat>): nat {
    if |readings| < 2 then 0
    else (if readings[1] < readings[0] then readings[0] else 0) + LostAtResets(readings[1..])
  }

  /** Conservation of one counter: nothing is counted twice and nothing is lost over resets. */
  lemma {:induction false} DeltasTelescope(readings: seq<nat>)
    requires readings != []
    ensures DeltaSum(None, readings) == readings[|readings| - 1] - readings[0] + LostAtResets(readings)
  {
    TelescopeFrom(readings[0], readings[1..]);
    assert [readings[0]] + readings[1..] == readings;
  }

  lemma {:induction false} TelescopeFrom(first: nat, rest: seq<nat>)
    ensures var all := [first] + rest;
            first + DeltaSum(Some(first), rest) == all[|all| - 1] + LostAtResets(all)
    decreases |rest|
  {
    if rest != [] {
      TelescopeFrom(rest[0], rest[1..]);
      assert ([first] + rest)[1..] == rest == [rest[0]] + rest[1..];
    }
  }

  // --- aggregate rows -------------------------------------------------------

  datatype Row = Row(rx: nat, tx: nat, total: nat) {
    function Plus(other: Row): Row {
      Row(rx + other.rx, tx + other.tx, total + other.total)
    }
  }

  const ZERO := Row(0, 0, 0)

  datatype UserDay = UserDay(user: UserId, day: Day)
  datatype UserNode = UserNode(user: UserId, node: NodeId)
  datatype UserNodeDay = UserNodeDay(user: UserId, node: NodeId, day: Day)

  /** The four tables, and each account's `traffic_reset_at` day. */
  datatype Ledger = Ledger(
    daily: map<UserDay, Row>,
    nodeDaily: map<UserNodeDay, Row>,
    lifetime: map<UserId, Row>,
    nodeLifetime: map<UserNode, Row>,
    resetDay: map<UserId, Day>)

  const EMPTY := Ledger(map[], map[], map[], map[], map[])

  function Lookup<K>(m: map<K, Row>, k: K): Row {
    if k in m then m[k] else ZERO
  }

  /** Upsert: insert the increment as a new row, or add it to the row that exists. */
  function IncreaseAggregate<K>(m: map<K, Row>, k: K, inc: Row): map<K, Row> {
    if k in m then m[k := m[k].Plus(inc)] else m[k := inc]
  }

  function BookDelta(l: Ledger, u: UserId, n: NodeId, day: Day, rx: nat, tx: nat): Ledger {
    var inc := Row(rx, tx, rx + tx);
    l.(daily := IncreaseAggregate(l.daily, UserDay(u, day), inc),
       nodeDaily := IncreaseAggregate(l.nodeDaily, UserNodeDay(u, n, day), inc),
       lifetime := IncreaseAggregate(l.lifetime, u, inc),
       nodeLifetime := IncreaseAggregate(l.nodeLifetime, UserNode(u, n), inc))
  }

  /** The manual reset: lifetime rows go, and so does every daily row from the reset day on. */
  function ResetUsage(l: Ledger, u: UserId, day: Day): Ledger {
    Ledger(
      map k | k in l.daily && !(k.user == u && k.day >= day) :: l.daily[k],
      map k | k in l.nodeDaily && !(k.user == u && k.day >= day) :: l.nodeDaily[k],
      map k | k in l.lifetime && k != u :: l.lifetime[k],
      map k | k in l.nodeLifetime && k.user != u :: l.nodeLifetime[k],
      l.resetDay[u := day])
  }

  /** Rows of removed accounts go with them. */
  function ForgetUsers(l: Ledger, us: set<UserId>): Ledger {
    Ledger(
      map k | k in l.daily && k.user !in us :: l.daily[k],
      map k | k in l.nodeDaily && k.user !in us :: l.nodeDaily[k],
      map k | k in l.lifetime && k !in us :: l.lifetime[k],
      map k | k in l.nodeLifetime && k.user !in us :: l.nodeLifetime[k],
      map k | k in l.resetDay && k !in us :: l.resetDay[k])
  }

  /** Rows of a removed node go with it; the accounts' own rows stay. */
  function ForgetNode(l: Ledger, n: NodeId): Ledger {
    l.(nodeDaily := map k | k in l.nodeDaily && k.node != n :: l.nodeDaily[k],
       nodeLifetime := map k | k in l.nodeLifetime && k.node != n :: l.nodeLifetime[k])
  }

  // --- what is booked, and what a reset and a removal take away -------------

  /** One row grew by the bytes received and sent, from zero if it is new; every other row is as it was. */
  ghost predicate Grown<K>(before: map<K, Row>, after: map<K, Row>, k: K, rx: nat, tx: nat) {
    && after.Keys == before.Keys + {k}
    && after[k].rx == (if k in before then before[k].rx else 0) + rx
    && after[k].tx == (if k in before then before[k].tx else 0) + tx
    && after[k].total == (if k in before then before[k].total else 0) + rx + tx
    && forall j | j in before && j != k :: after[j] == before[j]
  }

  lemma BooksExactly(l: Ledger, u: UserId, n: NodeId, day: Day, rx: nat, tx: nat)
    ensures var q := BookDelta(l, u, n, day, rx, tx);
            && Grown(l.daily, q.daily, UserDay(u, day), rx, tx)
            && Grown(l.nodeDaily, q.nodeDaily, UserNodeDay(u, n, day), rx, tx)
            && Grown(l.lifetime, q.lifetime, u, rx, tx)
            && Grown(l.nodeLifetime, q.nodeLifetime, UserNode(u, n), rx, tx)
            && q.resetDay == l.resetDay
  {
  }

  /** The rows that stay are those that meet the condition, unchanged. */
  ghost predicate Kept<K(!new)>(before: map<K, Row>, after: map<K, Row>, stays: K -> bool) {
    && (forall k :: k in after <==> k in before && stays(k))
    && (forall k | k in after :: after[k] == before[k])
  }

  /** A reset takes the account's lifetime rows and its days from then on; earlier days and other accounts stay. */
  ghost predicate ResetTook(l: Ledger, q: Ledger, u: UserId, day: Day) {
    && Kept(l.daily, q.daily, (k: UserDay) => k.user != u || k.day < day)
    && Kept(l.nodeDaily, q.nodeDaily, (k: UserNodeDay) => k.user != u || k.day < day)
    && Kept(l.lifetime, q.lifetime, (k: UserId) => k != u)
    && Kept(l.nodeLifetime, q.nodeLifetime, (k: UserNode) => k.user != u)
    && q.resetDay == l.resetDay[u := day]
  }

  lemma ResetTakesExactly(l: Ledger, u: UserId, day: Day)
    ensures ResetTook(l, ResetUsage(l, u, day), u, day)
  {
  }

  /** A removal takes the rows of the accounts removed and nobody else's. */
  lemma ForgetTakesExactly(l: Ledger, us: set<UserId>)
    ensures var q := ForgetUsers(l, us);
            && Kept(l.daily, q.daily, (k: UserDay) => k.user !in us)
            && Kept(l.nodeDaily, q.nodeDaily, (k: UserNodeDay) => k.user !in us)
            && Kept(l.lifetime, q.lifetime, (k: UserId) => k !in us)
            && Kept(l.nodeLifetime, q.nodeLifetime, (k: UserNode) => k.user !in us)
  {
  }

  lemma ForgetNodeTakesExactly(l: Ledger, n: NodeId)
    ensures var q := ForgetNode(l, n);
            && q.daily == l.daily && q.lifetime == l.lifetime && q.resetDay == l.resetDay
            && Kept(l.nodeDaily, q.nodeDaily, (k: UserNodeDay) => k.node != n)
            && Kept(l.nodeLifetime, q.nodeLifetime, (k: UserNode) => k.node != n)
  {
  }

  // --- sums over the rows of a table ----------------------------------------

  ghost function SumRows<K>(m: map<K, Row>, keys: set<K>): Row
    requires keys <= m.Keys
    decreases keys
  {
    if keys == {} then ZERO
    else var k :| k in keys; m[k].Plus(SumRows(m, keys - {k}))
  }

  lemma {:induction false} SumRowsPick<K>(m: map<K, Row>, keys: set<K>, k: K)
    requires keys <= m.Keys && k in keys
    ensures SumRows(m, keys) == m[k].Plus(SumRows(m, keys - {k}))
    decreases keys
  {
    var j :| j in keys && SumRows(m, keys) == m[j].Plus(SumRows(m, keys - {j}));
    if j != k {
      SumRowsPick(m, keys - {j}, k);
      SumRowsPick(m, keys - {k}, j);
      assert keys - {j} - {k} == keys - {k} - {j};
      var rest := SumRows(m, keys - {j} - {k});
      assert SumRows(m, keys - {j}) == m[k].Plus(rest);
      assert SumRows(m, keys - {k}) == m[j].Plus(rest);
      assert m[j].Plus(m[k].Plus(rest)) == m[k].Plus(m[j].Plus(rest));
    }
  }

  lemma {:induction false} SumRowsSame<K>(m: map<K, Row>, m': map<K, Row>, keys: set<K>)
    requires keys <= m.Keys && keys <= m'.Keys
    requires forall k | k in keys :: m[k] == m'[k]
    ensures SumRows(m, keys) == SumRows(m', keys)
    decreases keys
  {
    if keys != {} {
      var k :| k in keys;
      SumRowsPick(m, keys, k);
      SumRowsPick(m', keys, k);
      SumRowsSame(m, m', keys - {k});
    }
  }

  /** An upsert moves the sum of any key set holding the key by exactly the increment. */
  lemma {:induction false} SumRowsIncrease<K>(m: map<K, Row>, keys: set<K>, k: K, inc: Row)
    requires keys <= m.Keys && (k in m ==> k in keys)
    ensures SumRows(IncreaseAggregate(m, k, inc), keys + {k}) == SumRows(m, keys).Plus(inc)
  {
    var m' := IncreaseAggregate(m, k, inc);
    SumRowsPick(m', keys + {k}, k);
    assert keys + {k} - {k} == keys - {k};
    SumRowsSame(m, m', keys - {k});
    if k in keys {
      SumRowsPick(m, keys, k);
    } else {
      assert keys - {k} == keys;
    }
  }

  ghost function NodesOf(l: Ledger, u: UserId): set<UserNode> {
    set k | k in l.nodeLifetime && k.user == u
  }

  ghost function NodeDaysOf(l: Ledger, u: UserId, day: Day): set<UserNodeDay> {
    set k | k in l.nodeDaily && k.user == u && k.day == day
  }

  /** The daily rows the lifetime row is made of: those since the account's last reset day. */
  ghost function DaysSinceReset(l: Ledger, u: UserId): set<UserDay> {
    set k | k in l.daily && k.user == u && (u in l.resetDay ==> k.day >= l.resetDay[u])
  }

  // --- conservation ---------------------------------------------------------

  /** The account's lifetime row is the sum of its per-node lifetime rows. */
  ghost predicate NodesAddUp(l: Ledger, u: UserId) {
    Lookup(l.lifetime, u) == SumRows(l.nodeLifetime, NodesOf(l, u))
  }

  /** The account's row of one day is the sum of its per-node rows of that day. */
  ghost predicate NodeDaysAddUp(l: Ledger, u: UserId, d: Day) {
    Lookup(l.daily, UserDay(u, d)) == SumRows(l.nodeDaily, NodeDaysOf(l, u, d))
  }

  /** The account's lifetime row is the sum of its daily rows since its last reset day. */
  ghost predicate DaysAddUp(l: Ledger, u: UserId) {
    Lookup(l.lifetime, u) == SumRows(l.daily, DaysSinceReset(l, u))
  }

  ghost predicate RowsAddUp<K>(m: map<K, Row>) {
    forall k | k in m :: m[k].total == m[k].rx + m[k].tx
  }

  ghost predicate TotalsAddUp(l: Ledger) {
    RowsAddUp(l.daily) && RowsAddUp(l.nodeDaily) && RowsAddUp(l.lifetime) && RowsAddUp(l.nodeLifetime)
  }

  ghost predicate Conserved(l: Ledger) {
    && TotalsAddUp(l)
    && (forall u :: NodesAddUp(l, u))
    && (forall u, d :: NodeDaysAddUp(l, u, d))
    && (forall u :: DaysAddUp(l, u))
  }

  lemma BookKeepsNodes(l: Ledger, u: UserId, n: NodeId, day: Day, rx: nat, tx: nat, v: UserId)
    requires NodesAddUp(l, v)
    ensures NodesAddUp(BookDelta(l, u, n, day, rx, tx), v)
  {
    var l' := BookDelta(l, u, n, day, rx, tx);
    if v == u {
      SumRowsIncrease(l.nodeLifetime, NodesOf(l, u), UserNode(u, n), Row(rx, tx, rx + tx));
      assert NodesOf(l', u) == NodesOf(l, u) + {UserNode(u, n)};
    } else {
      assert NodesOf(l', v) == NodesOf(l, v);
      SumRowsSame(l.nodeLifetime, l'.nodeLifetime, NodesOf(l, v));
    }
  }

  lemma BookKeepsNodeDays(l: Ledger, u: UserId, n: NodeId, day: Day, rx: nat, tx: nat, v: UserId, d: Day)
    requires NodeDaysAddUp(l, v, d)
    ensures NodeDaysAddUp(BookDelta(l, u, n, day, rx, tx), v, d)
  {
    var l' := BookDelta(l, u, n, day, rx, tx);
    if v == u && d == day {
      SumRowsIncrease(l.nodeDaily, NodeDaysOf(l, u, d), UserNodeDay(u, n, d), Row(rx, tx, rx + tx));
      assert NodeDaysOf(l', u, d) == NodeDaysOf(l, u, d) + {UserNodeDay(u, n, d)};
    } else {
      assert NodeDaysOf(l', v, d) == NodeDaysOf(l, v, d);
      SumRowsSame(l.nodeDaily, l'.nodeDaily, NodeDaysOf(l, v, d));
    }
  }

  /** Dated on or after the account's reset day: what a non-decreasing clock guarantees. */
  predicate NotBeforeReset(l: Ledger, u: UserId, day: Day) {
    u in l.resetDay ==> day >= l.resetDay[u]
  }

  /** Booking keeps "lifetime is the sum of the days" exactly when the delta is not backdated. */
  lemma BookKeepsDays(l: Ledger, u: UserId, n: NodeId, day: Day, rx: nat, tx: nat)
    requires DaysAddUp(l, u)
    ensures DaysAddUp(BookDelta(l, u, n, day, rx, tx), u) <==> NotBeforeReset(l, u, day) || rx + tx == 0
  {
    var l' := BookDelta(l, u, n, day, rx, tx);
    if NotBeforeReset(l, u, day) {
      SumRowsIncrease(l.daily, DaysSinceReset(l, u), UserDay(u, day), Row(rx, tx, rx + tx));
      assert DaysSinceReset(l', u) == DaysSinceReset(l, u) + {UserDay(u, day)};
    } else {
      assert DaysSinceReset(l', u) == DaysSinceReset(l, u);
      SumRowsSame(l.daily, l'.daily, DaysSinceReset(l, u));
    }
  }

  lemma BookKeepsOtherDays(l: Ledger, u: UserId, n: NodeId, day: Day, rx: nat, tx: nat, v: UserId)
    requires v != u && DaysAddUp(l, v)
    ensures DaysAddUp(BookDelta(l, u, n, day, rx, tx), v)
  {
    var l' := BookDelta(l, u, n, day, rx, tx);
    assert DaysSinceReset(l', v) == DaysSinceReset(l, v);
    SumRowsSame(l.daily, l'.daily, DaysSinceReset(l, v));
  }

  lemma BookKeepsConservation(l: Ledger, u: UserId, n: NodeId, day: Day, rx: nat, tx: nat)
    requires Conserved(l) && NotBeforeReset(l, u, day)
    ensures Conserved(BookDelta(l, u, n, day, rx, tx))
  {
    var l' := BookDelta(l, u, n, day, rx, tx);
    forall v ensures NodesAddUp(l', v) { BookKeepsNodes(l, u, n, day, rx, tx, v); }
    forall v, d ensures NodeDaysAddUp(l', v, d) { BookKeepsNodeDays(l, u, n, day, rx, tx, v, d); }
    forall v ensures DaysAddUp(l', v) {
      if v == u { BookKeepsDays(l, u, n, day, rx, tx); } else { BookKeepsOtherDays(l, u, n, day, rx, tx, v); }
    }
  }

  /** Dropping whole accounts' rows, or one account's rows from a day on, leaves other sums alone. */
  lemma RestrictedSums(l: Ledger, l': Ledger, v: UserId)
    requires l'.lifetime.Keys <= l.lifetime.Keys && forall k | k in l'.lifetime :: l'.lifetime[k] == l.lifetime[k]
    requires NodesOf(l', v) == NodesOf(l, v) && forall k | k in NodesOf(l, v) :: l'.nodeLifetime[k] == l.nodeLifetime[k]
    requires DaysSinceReset(l', v) == DaysSinceReset(l, v)
    requires forall k | k in DaysSinceReset(l, v) :: l'.daily[k] == l.daily[k]
    requires v in l.lifetime ==> v in l'.lifetime
    requires NodesAddUp(l, v) && DaysAddUp(l, v)
    ensures NodesAddUp(l', v) && DaysAddUp(l', v)
  {
    SumRowsSame(l.nodeLifetime, l'.nodeLifetime, NodesOf(l, v));
    SumRowsSame(l.daily, l'.daily, DaysSinceReset(l, v));
  }

  lemma RestrictedDaySums(l: Ledger, l': Ledger, v: UserId, d: Day)
    requires Lookup(l'.daily, UserDay(v, d)) == Lookup(l.daily, UserDay(v, d))
    requires NodeDaysOf(l', v, d) == NodeDaysOf(l, v, d)
    requires forall k | k in NodeDaysOf(l, v, d) :: l'.nodeDaily[k] == l.nodeDaily[k]
    requires NodeDaysAddUp(l, v, d)
    ensures NodeDaysAddUp(l', v, d)
  {
    SumRowsSame(l.nodeDaily, l'.nodeDaily, NodeDaysOf(l, v, d));
  }

  /** A reset dated no earlier than the last one starts the account from zero and keeps every sum. */
  lemma ResetKeepsConservation(l: Ledger, u: UserId, day: Day)
    requires Conserved(l) && NotBeforeReset(l, u, day)
    ensures Conserved(ResetUsage(l, u, day))
    ensures Lookup(ResetUsage(l, u, day).lifetime, u) == ZERO
  {
    var l' := ResetUsage(l, u, day);
    forall v ensures NodesAddUp(l', v) && DaysAddUp(l', v) {
      if v == u {
        assert NodesOf(l', u) == {} && DaysSinceReset(l', u) == {};
      } else {
        assert NodesOf(l', v) == NodesOf(l, v) && DaysSinceReset(l', v) == DaysSinceReset(l, v);
        RestrictedSums(l, l', v);
      }
    }
    forall v, d ensures NodeDaysAddUp(l', v, d) {
      if v == u && d >= day {
        assert NodeDaysOf(l', v, d) == {};
      } else {
        assert NodeDaysOf(l', v, d) == NodeDaysOf(l, v, d);
        RestrictedDaySums(l, l', v, d);
      }
    }
  }

  lemma ForgetKeepsConservation(l: Ledger, us: set<UserId>)
    requires Conserved(l)
    ensures Conserved(ForgetUsers(l, us))
  {
    var l' := ForgetUsers(l, us);
    forall v ensures NodesAddUp(l', v) && DaysAddUp(l', v) {
      if v in us {
        assert NodesOf(l', v) == {} && DaysSinceReset(l', v) == {};
      } else {
        assert NodesOf(l', v) == NodesOf(l, v) && DaysSinceReset(l', v) == DaysSinceReset(l, v);
        RestrictedSums(l, l', v);
      }
    }
    forall v, d ensures NodeDaysAddUp(l', v, d) {
      if v in us {
        assert NodeDaysOf(l', v, d) == {};
      } else {
        assert NodeDaysOf(l', v, d) == NodeDaysOf(l, v, d);
        RestrictedDaySums(l, l', v, d);
      }
    }
  }

  // --- removing a node ------------------------------------------------------

  /** Nothing was ever booked on the node. */
  ghost predicate NodeUnused(l: Ledger, n: NodeId) {
    && (forall k | k in l.nodeLifetime && k.node == n :: l.nodeLifetime[k] == ZERO)
    && (forall k | k in l.nodeDaily && k.node == n :: l.nodeDaily[k] == ZERO)
  }

  lemma PlusNothing(a: Row, b: Row)
    ensures b == a.Plus(b) <==> a == ZERO
  {
  }

  lemma SumWithout<K>(m: map<K, Row>, m': map<K, Row>, keys: set<K>, k: K)
    requires keys <= m.Keys && keys - {k} <= m'.Keys && forall j | j in keys - {k} :: m'[j] == m[j]
    ensures SumRows(m', keys - {k}) == SumRows(m, keys) <==> (k in keys ==> m[k] == ZERO)
  {
    var rest := keys - {k};
    SumRowsSame(m, m', rest);
    if k in keys {
      SumRowsPick(m, keys, k);
      PlusNothing(m[k], SumRows(m, rest));
    } else {
      assert rest == keys;
    }
  }

  lemma ForgetNodeAt(l: Ledger, n: NodeId, u: UserId)
    requires NodesAddUp(l, u)
    ensures NodesAddUp(ForgetNode(l, n), u)
            <==> (UserNode(u, n) in l.nodeLifetime ==> l.nodeLifetime[UserNode(u, n)] == ZERO)
  {
    var l' := ForgetNode(l, n);
    assert NodesOf(l', u) == NodesOf(l, u) - {UserNode(u, n)};
    SumWithout(l.nodeLifetime, l'.nodeLifetime, NodesOf(l, u), UserNode(u, n));
  }

  lemma ForgetNodeAtDay(l: Ledger, n: NodeId, u: UserId, d: Day)
    requires NodeDaysAddUp(l, u, d)
    ensures NodeDaysAddUp(ForgetNode(l, n), u, d)
            <==> (UserNodeDay(u, n, d) in l.nodeDaily ==> l.nodeDaily[UserNodeDay(u, n, d)] == ZERO)
  {
    var l' := ForgetNode(l, n);
    assert NodeDaysOf(l', u, d) == NodeDaysOf(l, u, d) - {UserNodeDay(u, n, d)};
    SumWithout(l.nodeDaily, l'.nodeDaily, NodeDaysOf(l, u, d), UserNodeDay(u, n, d));
  }

  /** Removing a node keeps the sums exactly when nothing was booked on it. */
  lemma ForgetNodeConservesExactly(l: Ledger, n: NodeId)
    requires Conserved(l)
    ensures Conserved(ForgetNode(l, n)) <==> NodeUnused(l, n)
  {
    var l' := ForgetNode(l, n);
    forall u
      ensures NodesAddUp(l', u) <==> (UserNode(u, n) in l.nodeLifetime ==> l.nodeLifetime[UserNode(u, n)] == ZERO)
    {
      ForgetNodeAt(l, n, u);
    }
    forall u, d ensures NodeDaysAddUp(l', u, d)
                        <==> (UserNodeDay(u, n, d) in l.nodeDaily ==> l.nodeDaily[UserNodeDay(u, n, d)] == ZERO) {
      ForgetNodeAtDay(l, n, u, d);
    }
    forall u ensures DaysAddUp(l', u) {
      assert DaysSinceReset(l', u) == DaysSinceReset(l, u);
      assert DaysAddUp(l, u);
    }
    if Conserved(l') {
      forall k | k in l.nodeLifetime && k.node == n ensures l.nodeLifetime[k] == ZERO { assert NodesAddUp(l', k.user); }
      forall k | k in l.nodeDaily && k.node == n
        ensures l.nodeDaily[k] == ZERO
      {
        assert NodeDaysAddUp(l', k.user, k.day);
      }
    }
  }
}
