/**
 Notifications parked on a database session until its outermost commit: one level of payloads per open
 savepoint, kept up to date by the session's transaction hooks.
 */
module EventBuffer {

  type Payload = string

  /** What can happen to a session. `RollbackTo(n)` rolls back its n-th savepoint and all inside it. */
  datatype Op =
    | Savepoint
    | Note(payload: Payload)
    | Release
    | RollbackTo(level: nat)
    | FlushFailed
    | Commit
    | RollbackAll
    | Close

  function DepthAfter(depth: nat, op: Op): nat {
    match op
    case Savepoint => depth + 1
    case Release => if depth > 0 then depth - 1 else 0
    case RollbackTo(level) => if level > 0 then level - 1 else 0
    case Commit => 0
    case RollbackAll => 0
    case Close => 0
    case _ => depth
  }

  /** Open savepoints after the operations. */
  function Depth(ops: seq<Op>): nat {
    if ops == [] then 0 else DepthAfter(Depth(ops[..|ops| - 1]), ops[|ops| - 1])
  }

  predicate CanDo(depth: nat, op: Op) {
    (op.Release? ==> depth > 0) && (op.RollbackTo? ==> 1 <= op.level <= depth)
  }

  predicate Possible(ops: seq<Op>) {
    forall u | 0 <= u < |ops| :: CanDo(Depth(ops[..u]), ops[u])
  }

  // --- what the hooks keep --------------------------------------------------

  /** Enough levels for the depth, the new payload on the last. */
  function Extended<T>(levels: seq<seq<T>>, depth: nat): seq<seq<T>>
    decreases depth - |levels|
  {
    if |levels| <= depth then Extended(levels + [[]], depth) else levels
  }

  function Recorded<T>(levels: seq<seq<T>>, depth: nat, x: T): seq<seq<T>> {
    var l := Extended(levels, depth);
    ExtendedLength(levels, depth);
    l[depth := l[depth] + [x]]
  }

  lemma {:induction false} ExtendedLength<T>(levels: seq<seq<T>>, depth: nat)
    ensures |Extended(levels, depth)| == if |levels| <= depth then depth + 1 else |levels|
    ensures forall k | 0 <= k < |Extended(levels, depth)| ::
              Extended(levels, depth)[k] == if k < |levels| then levels[k] else []
    decreases depth - |levels|
  {
    if |levels| <= depth { ExtendedLength(levels + [[]], depth); }
  }

  /** The level from which an operation drops what is parked. */
  function CutLevel(op: Op): (level: int) {
    match op
    case RollbackTo(level) => level
    case FlushFailed => 0
    case Commit => 0
    case RollbackAll => 0
    case Close => 0
    case _ => -1
  }

  /** The parked notifications, each named by when it was recorded. */
  function Buffer(ops: seq<Op>): seq<seq<nat>> {
    if ops == [] then []
    else
      var before, op := Buffer(ops[..|ops| - 1]), ops[|ops| - 1];
      if op.Note? then Recorded<nat>(before, Depth(ops[..|ops| - 1]), |ops| - 1)
      else if 0 <= CutLevel(op) < |before| then before[..CutLevel(op)]
      else before
  }

  predicate HeldAt(levels: seq<seq<nat>>, t: nat, k: nat) {
    k < |levels| && t in levels[k]
  }

  ghost predicate Parked(ops: seq<Op>, t: nat) {
    exists k :: HeldAt(Buffer(ops), t, k)
  }

  /** Recorded at depth k, with no later operation that drops that level. */
  predicate Kept(ops: seq<Op>, t: nat, k: nat) {
    && t < |ops| && ops[t].Note? && Depth(ops[..t]) == k
    && forall u | t < u < |ops| && CutLevel(ops[u]) >= 0 :: CutLevel(ops[u]) > k
  }

  /** How one operation moves what an earlier one recorded. */
  lemma BufferStep(ops: seq<Op>, t: nat, k: nat)
    requires ops != [] && t != |ops| - 1
    ensures var before, op := Buffer(ops[..|ops| - 1]), ops[|ops| - 1];
            HeldAt(Buffer(ops), t, k) <==> HeldAt(before, t, k) && (CutLevel(op) >= 0 ==> CutLevel(op) > k)
  {
    if ops[|ops| - 1].Note? { ExtendedLength(Buffer(ops[..|ops| - 1]), Depth(ops[..|ops| - 1])); }
  }

  /** The parked set, exactly: level k holds what was recorded at depth k and not dropped since. */
  lemma {:induction false} ParkedExactly(ops: seq<Op>, t: nat, k: nat)
    ensures HeldAt(Buffer(ops), t, k) <==> Kept(ops, t, k)
  {
    if ops != [] {
      var n := |ops| - 1;
      var init, op := ops[..n], ops[n];
      ParkedExactly(init, t, k);
      assert t <= n ==> init[..t] == ops[..t];
      assert forall u | 0 <= u < n :: init[u] == ops[u];
      if t != n {
        BufferStep(ops, t, k);
        assert Kept(ops, t, k) <==> Kept(init, t, k) && (CutLevel(op) >= 0 ==> CutLevel(op) > k);
      } else {
        assert !HeldAt(Buffer(init), n, k);
        if op.Note? { ExtendedLength(Buffer(init), Depth(init)); }
      }
    }
  }

  // --- what a rollback undoes -----------------------------------------------

  /** The level of the transaction an operation rolls back or ends. */
  function EndLevel(ops: seq<Op>, u: nat): int
    requires u < |ops|
  {
    if ops[u].FlushFailed? then Depth(ops[..u]) else CutLevel(ops[u])
  }

  /** At level n or deeper throughout: in the savepoint, or the transaction, that is open there. */
  predicate Within(ops: seq<Op>, t: nat, u: nat, level: int)
    requires u < |ops|
  {
    forall v | t <= v <= u :: Depth(ops[..v]) >= level
  }

  /** Recorded inside the transaction or savepoint the operation rolls back or ends. */
  predicate EndedBy(ops: seq<Op>, t: nat, u: nat)
    requires t < u < |ops|
  {
    EndLevel(ops, u) >= 0 && Within(ops, t, u, EndLevel(ops, u))
  }

  /** Still pending by the rules of nested transactions: nothing it was recorded under has ended badly. */
  predicate Pending(ops: seq<Op>, t: nat) {
    t < |ops| && ops[t].Note? && forall u | t < u < |ops| :: !EndedBy(ops, t, u)
  }

  /** No leak: whatever is parked is pending, so no rolled-back change is ever announced. */
  lemma ParkedIsPending(ops: seq<Op>, t: nat)
    requires Parked(ops, t)
    ensures Pending(ops, t)
  {
    var k :| HeldAt(Buffer(ops), t, k);
    ParkedExactly(ops, t, k);
    forall u | t < u < |ops| ensures !EndedBy(ops, t, u) {
      assert CutLevel(ops[u]) >= 0 ==> CutLevel(ops[u]) > k;
    }
  }

  // --- when nothing pending is lost -----------------------------------------

  /** What the operation drops was all recorded under what it rolls back. */
  ghost predicate Careful(ops: seq<Op>, u: nat)
    requires u < |ops|
  {
    forall t, k | HeldAt(Buffer(ops[..u]), t, k) && 0 <= CutLevel(ops[u]) <= k ::
      Within(ops, t, u, EndLevel(ops, u))
  }

  ghost predicate Faithful(ops: seq<Op>) {
    forall t: nat :: Parked(ops, t) <==> Pending(ops, t)
  }

  lemma PendingExtends(ops: seq<Op>, t: nat)
    requires ops != [] && t < |ops| - 1
    ensures Pending(ops, t) <==> Pending(ops[..|ops| - 1], t) && !EndedBy(ops, t, |ops| - 1)
  {
    var n := |ops| - 1;
    var init := ops[..n];
    forall u | t < u < n ensures EndedBy(ops, t, u) <==> EndedBy(init, t, u) {
      assert init[..u] == ops[..u];
      assert forall v | t <= v <= u :: init[..v] == ops[..v];
    }
    assert EndedBy(ops, t, n) || forall u | t < u < |ops| && EndedBy(ops, t, u) :: u < n;
  }

  lemma NewNote(ops: seq<Op>)
    requires ops != []
    ensures Parked(ops, |ops| - 1) <==> ops[|ops| - 1].Note?
    ensures Pending(ops, |ops| - 1) <==> ops[|ops| - 1].Note?
  {
    var n := |ops| - 1;
    ParkedExactly(ops, n, Depth(ops[..n]));
    forall k | HeldAt(Buffer(ops), n, k) ensures ops[n].Note? { ParkedExactly(ops, n, k); }
  }

  lemma CarefulStep(ops: seq<Op>, t: nat)
    requires ops != [] && Faithful(ops[..|ops| - 1]) && Careful(ops, |ops| - 1)
    ensures Pending(ops, t) ==> Parked(ops, t)
  {
    var n := |ops| - 1;
    if t < n && Pending(ops, t) {
      PendingExtends(ops, t);
      var k :| HeldAt(Buffer(ops[..n]), t, k);
      BufferStep(ops, t, k);
    } else if t == n {
      NewNote(ops);
    }
  }

  lemma CarelessStep(ops: seq<Op>)
    requires ops != [] && Faithful(ops[..|ops| - 1]) && !Careful(ops, |ops| - 1)
    ensures !Faithful(ops)
  {
    var n := |ops| - 1;
    var init := ops[..n];
    var t, k :| HeldAt(Buffer(init), t, k) && 0 <= CutLevel(ops[n]) <= k && !Within(ops, t, n, EndLevel(ops, n));
    ParkedExactly(init, t, k);
    PendingExtends(ops, t);
    forall j ensures !HeldAt(Buffer(ops), t, j) {
      BufferStep(ops, t, j);
      ParkedExactly(init, t, j);
    }
    assert Parked(init, t);
    assert Pending(ops, t) && !Parked(ops, t);
  }

  /** One operation keeps parked and pending the same exactly when it is careful. */
  lemma StepIsFaithful(ops: seq<Op>)
    requires ops != [] && Faithful(ops[..|ops| - 1])
    ensures Faithful(ops) <==> Careful(ops, |ops| - 1)
  {
    if Careful(ops, |ops| - 1) {
      forall t: nat ensures Parked(ops, t) <==> Pending(ops, t) {
        CarefulStep(ops, t);
        if Parked(ops, t) { ParkedIsPending(ops, t); }
      }
    } else {
      CarelessStep(ops);
    }
  }

  lemma {:induction false} NothingLostIfCareful(ops: seq<Op>)
    ensures (forall n | 0 <= n <= |ops| :: Faithful(ops[..n])) <==> forall u | 0 <= u < |ops| :: Careful(ops, u)
  {
    if ops == [] {
      assert ops[..0] == [];
      assert Faithful([]);
    } else {
      var m := |ops| - 1;
      var init := ops[..m];
      NothingLostIfCareful(init);
      assert forall n | 0 <= n <= m :: init[..n] == ops[..n];
      forall u | 0 <= u < m ensures Careful(init, u) <==> Careful(ops, u) {
        assert forall v | 0 <= v <= u :: init[..v] == ops[..v];
      }
      assert ops[..|ops|] == ops;
      if Faithful(init) { StepIsFaithful(ops); }
    }
  }

  // --- the guard ------------------------------------------------------------

  lemma OnlySavepointsDeepen(ops: seq<Op>, u: nat)
    requires Possible(ops) && u <= |ops| && Depth(ops[..u]) > 0
    ensures u > 0
    ensures Depth(ops[..u]) <= if ops[u - 1].Savepoint? then Depth(ops[..u - 1]) + 1 else Depth(ops[..u - 1])
  {
    assert u > 0 && ops[..u][..u - 1] == ops[..u - 1] && ops[..u][u - 1] == ops[u - 1];
    assert CanDo(Depth(ops[..u - 1]), ops[u - 1]);
  }

  /** Where the n-th of the savepoints open before operation u was opened. */
  function OpeningOf(ops: seq<Op>, u: nat, n: nat): (s: nat)
    requires u <= |ops|
    ensures s <= u
  {
    if u == 0 then 0
    else if ops[u - 1].Savepoint? && Depth(ops[..u - 1]) == n - 1 then u - 1
    else OpeningOf(ops, u - 1, n)
  }

  /** Operation s opens the n-th savepoint, and it stays open up to operation u. */
  predicate Opens(ops: seq<Op>, s: nat, u: nat, n: nat)
    requires u <= |ops|
  {
    && s < u && ops[s].Savepoint? && Depth(ops[..s]) == n - 1
    && forall v | s < v <= u :: Depth(ops[..v]) >= n
  }

  lemma {:induction false} OpeningOpens(ops: seq<Op>, u: nat, n: nat)
    requires Possible(ops) && u <= |ops| && 0 < n <= Depth(ops[..u])
    ensures Opens(ops, OpeningOf(ops, u, n), u, n)
  {
    OnlySavepointsDeepen(ops, u);
    if ops[u - 1].Savepoint? && Depth(ops[..u - 1]) == n - 1 { OpensNow(ops, u, n); } else {
      OpeningOpens(ops, u - 1, n);
      OpensLonger(ops, OpeningOf(ops, u - 1, n), u, n);
    }
  }

  lemma OpensNow(ops: seq<Op>, u: nat, n: nat)
    requires 0 < u <= |ops| && ops[u - 1].Savepoint? && Depth(ops[..u - 1]) == n - 1 && n <= Depth(ops[..u])
    ensures Opens(ops, u - 1, u, n)
  {
    forall v | u - 1 < v <= u ensures Depth(ops[..v]) >= n { assert v == u; }
  }

  lemma OpensLonger(ops: seq<Op>, s: nat, u: nat, n: nat)
    requires 0 < u <= |ops| && Opens(ops, s, u - 1, n) && Depth(ops[..u]) >= n
    ensures Opens(ops, s, u, n)
  {
  }

  predicate NothingFrom(levels: seq<seq<nat>>, n: int) {
    forall k | 0 <= k < |levels| && k >= n :: levels[k] == []
  }

  /**
   What a caller can look at when it opens a savepoint: rolling the savepoint back is safe if nothing was
   parked at its level or deeper then, and a flush may fail inside it if nothing was parked at all.
   Outside savepoints nothing needs to hold.
   */
  predicate Guarded(ops: seq<Op>, u: nat)
    requires Possible(ops) && u < |ops|
  {
    CutLevel(ops[u]) < 0 || EndLevel(ops, u) == 0
    || NothingFrom(Buffer(ops[..OpeningOf(ops, u, EndLevel(ops, u))]), CutLevel(ops[u]))
  }

  /** Inside a savepoint nothing ends at or above its level. */
  lemma EndsInside(ops: seq<Op>, v: nat, n: nat)
    requires 0 < v <= |ops| && CanDo(Depth(ops[..v - 1]), ops[v - 1]) && CutLevel(ops[v - 1]) >= 0
    requires Depth(ops[..v - 1]) >= n && Depth(ops[..v]) >= n > 0
    ensures EndLevel(ops, v - 1) >= n
  {
    assert ops[..v][..v - 1] == ops[..v - 1] && ops[..v][v - 1] == ops[v - 1];
  }

  lemma BufferExtends(ops: seq<Op>, v: nat, t: nat, k: nat)
    requires 0 < v <= |ops| && t < v - 1
    ensures var op := ops[v - 1];
            HeldAt(Buffer(ops[..v]), t, k)
            <==> HeldAt(Buffer(ops[..v - 1]), t, k) && (CutLevel(op) >= 0 ==> CutLevel(op) > k)
  {
    var longer := ops[..v];
    assert longer[..v - 1] == ops[..v - 1] && longer[v - 1] == ops[v - 1];
    BufferStep(longer, t, k);
  }

  lemma KeptInside(ops: seq<Op>, s: nat, v: nat, n: nat, t: nat, k: nat)
    requires s + 1 < v <= |ops| && n > 0 && Depth(ops[..s]) == n - 1 && t < s
    requires CanDo(Depth(ops[..v - 1]), ops[v - 1]) && Depth(ops[..v - 1]) >= n && Depth(ops[..v]) >= n
    requires Careful(ops, v - 1) && HeldAt(Buffer(ops[..v - 1]), t, k)
    ensures HeldAt(Buffer(ops[..v]), t, k)
  {
    if CutLevel(ops[v - 1]) >= 0 {
      EndsInside(ops, v, n);
      assert !Within(ops, t, v - 1, EndLevel(ops, v - 1));
    }
    BufferExtends(ops, v, t, k);
  }

  /** Operations s+1 to v-1 run inside the n-th savepoint, which operation s opens, and are careful. */
  ghost predicate CarefulInside(ops: seq<Op>, s: nat, v: nat, n: nat) {
    && v <= |ops| && n > 0 && Opens(ops, s, v, n)
    && (forall w | s < w < v :: Careful(ops, w))
  }

  lemma InsideBefore(ops: seq<Op>, s: nat, v: nat, n: nat)
    requires CarefulInside(ops, s, v, n) && v > s + 1
    ensures CarefulInside(ops, s, v - 1, n) && Careful(ops, v - 1) && Depth(ops[..v - 1]) >= n && Depth(ops[..v]) >= n
  {
  }

  ghost predicate HeldAfter(ops: seq<Op>, v: nat, t: nat, k: nat) {
    v <= |ops| && HeldAt(Buffer(ops[..v]), t, k)
  }

  lemma StaysHeld(ops: seq<Op>, s: nat, v: nat, n: nat, t: nat, k: nat)
    requires Possible(ops) && CarefulInside(ops, s, v, n) && t < s && v > s + 1 && HeldAfter(ops, v - 1, t, k)
    ensures HeldAfter(ops, v, t, k)
  {
    InsideBefore(ops, s, v, n);
    KeptInside(ops, s, v, n, t, k);
  }

  /** What was parked when a savepoint was opened stays parked inside it, as long as every operation is careful. */
  lemma {:induction false} ParkedInside(ops: seq<Op>, s: nat, v: nat, n: nat, t: nat, k: nat)
    requires Possible(ops) && CarefulInside(ops, s, v, n) && t < s && HeldAfter(ops, s, t, k)
    ensures HeldAfter(ops, v, t, k)
    decreases v
  {
    if v == s + 1 {
      OpeningDropsNothing(ops, s, t, k);
    } else {
      InsideBefore(ops, s, v, n);
      ParkedInside(ops, s, v - 1, n, t, k);
      StaysHeld(ops, s, v, n, t, k);
    }
  }

  lemma OpeningDropsNothing(ops: seq<Op>, v: nat, t: nat, k: nat)
    requires v < |ops| && t < v && ops[v].Savepoint? && HeldAfter(ops, v, t, k)
    ensures HeldAfter(ops, v + 1, t, k)
  {
    BufferExtends(ops, v + 1, t, k);
  }

  /** Something recorded before step s is parked at level c or deeper after the operations. */
  ghost predicate OlderParked(ops: seq<Op>, s: nat, c: int) {
    exists t: nat, k: nat :: HeldAt(Buffer(ops), t, k) && k >= c && t < s
  }

  lemma OlderStayParked(ops: seq<Op>, s: nat, u: nat, n: nat, c: int)
    requires Possible(ops) && CarefulInside(ops, s, u, n)
    ensures OlderParked(ops[..s], s, c) <==> OlderParked(ops[..u], s, c)
  {
    if t: nat, k: nat :| HeldAt(Buffer(ops[..s]), t, k) && k >= c && t < s { ParkedInside(ops, s, u, n, t, k); }
    if t: nat, k: nat :| HeldAt(Buffer(ops[..u]), t, k) && k >= c && t < s { HeldBefore(ops, s, u, t, k); }
  }

  lemma CarefulIsNoneOlder(ops: seq<Op>, u: nat, s: nat)
    requires u < |ops| && CutLevel(ops[u]) >= 0 && EndLevel(ops, u) > 0 && s < u && ops[s].Savepoint?
    requires Depth(ops[..s]) < EndLevel(ops, u) && forall v | s < v <= u :: Depth(ops[..v]) >= EndLevel(ops, u)
    ensures Careful(ops, u) <==> !OlderParked(ops[..u], s, CutLevel(ops[u]))
  {
    forall t: nat, k: nat | HeldAt(Buffer(ops[..u]), t, k) ensures t < u && t != s {
      ParkedExactly(ops[..u], t, k);
    }
    forall t: nat | t < s ensures !Within(ops, t, u, EndLevel(ops, u)) {}
    if !OlderParked(ops[..u], s, CutLevel(ops[u])) {
      forall t: nat, k: nat | HeldAt(Buffer(ops[..u]), t, k) && CutLevel(ops[u]) <= k
        ensures Within(ops, t, u, EndLevel(ops, u))
      {
        assert t > s;
      }
    }
  }

  lemma GuardIsNoneOlder(ops: seq<Op>, s: nat, c: int)
    requires s <= |ops| && c >= 0
    ensures NothingFrom(Buffer(ops[..s]), c) <==> !OlderParked(ops[..s], s, c)
  {
    var levels := Buffer(ops[..s]);
    forall t: nat, k: nat | HeldAt(levels, t, k) ensures t < s { ParkedExactly(ops[..s], t, k); }
    forall k: nat | k < |levels| && k >= c && levels[k] != [] ensures HeldAt(levels, levels[k][0], k) {}
  }

  /** After careful operations, an operation is careful exactly when its guard holds. */
  lemma CarefulIsGuarded(ops: seq<Op>, u: nat)
    requires Possible(ops) && u < |ops| && AllCareful(ops, u)
    ensures Careful(ops, u) <==> Guarded(ops, u)
  {
    var n, c := EndLevel(ops, u), CutLevel(ops[u]);
    if c >= 0 && n > 0 {
      var s := OpeningOf(ops, u, n);
      OpeningOpens(ops, u, n);
      CarefulIsNoneOlder(ops, u, s);
      OlderStayParked(ops, s, u, n, c);
      GuardIsNoneOlder(ops, s, c);
    }
  }

  /** What is parked now, and not recorded since the savepoint was opened, was parked then. */
  lemma HeldBefore(ops: seq<Op>, s: nat, u: nat, t: nat, k: nat)
    requires s < u <= |ops| && HeldAt(Buffer(ops[..u]), t, k) && t < s
    ensures HeldAt(Buffer(ops[..s]), t, k)
  {
    ParkedExactly(ops[..u], t, k);
    assert ops[..u][..t] == ops[..t] == ops[..s][..t];
    assert forall w | 0 <= w < s :: ops[..s][w] == ops[..u][w];
    ParkedExactly(ops[..s], t, k);
  }

  /**
   Nothing pending is ever lost, at any moment of a run, exactly when every rollback and every failed
   flush is guarded. Otherwise a released savepoint's notification goes with an operation that had
   nothing to do with it.
   */
  lemma NothingLostExactly(ops: seq<Op>)
    requires Possible(ops)
    ensures (forall n | 0 <= n <= |ops| :: Faithful(ops[..n])) <==> forall u | 0 <= u < |ops| :: Guarded(ops, u)
  {
    NothingLostIfCareful(ops);
    AllCarefulIsAllGuarded(ops, |ops|);
  }

  ghost predicate AllCareful(ops: seq<Op>, n: nat)
    requires n <= |ops|
  {
    forall u | 0 <= u < n :: Careful(ops, u)
  }

  ghost predicate AllGuarded(ops: seq<Op>, n: nat)
    requires Possible(ops) && n <= |ops|
  {
    forall u | 0 <= u < n :: Guarded(ops, u)
  }

  lemma OneMoreCareful(ops: seq<Op>, n: nat)
    requires n < |ops|
    ensures AllCareful(ops, n + 1) <==> AllCareful(ops, n) && Careful(ops, n)
  {
  }

  lemma OneMoreGuarded(ops: seq<Op>, n: nat)
    requires Possible(ops) && n < |ops|
    ensures AllGuarded(ops, n + 1) <==> AllGuarded(ops, n) && Guarded(ops, n)
  {
  }

  lemma {:induction false} AllCarefulIsAllGuarded(ops: seq<Op>, n: nat)
    requires Possible(ops) && n <= |ops|
    ensures AllCareful(ops, n) <==> AllGuarded(ops, n)
  {
    if n > 0 {
      AllCarefulIsAllGuarded(ops, n - 1);
      OneMoreCareful(ops, n - 1);
      OneMoreGuarded(ops, n - 1);
      if AllCareful(ops, n - 1) { CarefulIsGuarded(ops, n - 1); }
    }
  }

  lemma DepthStep(ops: seq<Op>, k: nat)
    requires k < |ops|
    ensures Depth(ops[..k + 1]) == DepthAfter(Depth(ops[..k]), ops[k])
  {
    assert ops[..k + 1][..k] == ops[..k];
  }

  /** A released savepoint's notification goes when the next savepoint beside it is rolled back. */
  lemma ReleasedSiblingIsDropped(p: Payload)
    ensures var ops := [Savepoint, Note(p), Release, Savepoint, RollbackTo(1)];
            Possible(ops) && Pending(ops, 1) && !Parked(ops, 1)
  {
    var ops := [Savepoint, Note(p), Release, Savepoint, RollbackTo(1)];
    assert Depth(ops[..0]) == 0;
    DepthStep(ops, 0);
    DepthStep(ops, 1);
    DepthStep(ops, 2);
    DepthStep(ops, 3);
    forall k ensures !HeldAt(Buffer(ops), 1, k) {
      ParkedExactly(ops, 1, k);
      assert CutLevel(ops[4]) == 1;
    }
    forall u | 1 < u < 5 ensures !EndedBy(ops, 1, u) {
      assert u < 4 ==> EndLevel(ops, u) < 0;
      assert Depth(ops[..3]) == 0;
    }
  }
}
