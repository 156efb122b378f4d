/**
 A database session with its transaction hooks: the imperative form of the payload buffer. The session
 calls the hooks in the order the database library does; the buffer's meaning is in `EventBuffer`.
 */
module EventSession {
  import opened EventBuffer

  datatype Transaction = Transaction(id: nat, nested: bool)

  function PayloadAt(history: seq<Op>, t: nat): Payload {
    if t < |history| && history[t].Note? then history[t].payload else ""
  }

  function PayloadsAt(history: seq<Op>, ts: seq<nat>): seq<Payload> {
    seq(|ts|, j requires 0 <= j < |ts| => PayloadAt(history, ts[j]))
  }

  function Named(history: seq<Op>, levels: seq<seq<nat>>): seq<seq<Payload>> {
    seq(|levels|, i requires 0 <= i < |levels| => PayloadsAt(history, levels[i]))
  }

  function Concat(levels: seq<seq<Payload>>): seq<Payload> {
    if levels == [] then [] else Concat(levels[..|levels| - 1]) + levels[|levels| - 1]
  }

  lemma {:induction false} ConcatMembers(levels: seq<seq<Payload>>, p: Payload)
    requires p in Concat(levels)
    ensures exists k | 0 <= k < |levels| :: p in levels[k]
  {
    if p !in levels[|levels| - 1] { ConcatMembers(levels[..|levels| - 1], p); }
  }

  /** Whatever the buffer holds was recorded under nothing that was rolled back. */
  lemma BufferedIsPending(history: seq<Op>, p: Payload)
    requires p in Concat(Named(history, Buffer(history)))
    ensures exists t: nat :: Pending(history, t) && history[t].payload == p
  {
    var levels := Named(history, Buffer(history));
    ConcatMembers(levels, p);
    var k :| 0 <= k < |levels| && p in levels[k];
    var j :| 0 <= j < |levels[k]| && levels[k][j] == p;
    var t := Buffer(history)[k][j];
    assert HeldAt(Buffer(history), t, k);
    ParkedExactly(history, t, k);
    ParkedIsPending(history, t);
  }

  // --- what a commit hands out, and in which order ---------------------------

  function Flat(levels: seq<seq<nat>>): seq<nat> {
    if levels == [] then [] else Flat(levels[..|levels| - 1]) + levels[|levels| - 1]
  }

  lemma {:induction false} FlatNamed(history: seq<Op>, levels: seq<seq<nat>>)
    ensures Concat(Named(history, levels)) == PayloadsAt(history, Flat(levels))
  {
    if levels != [] {
      var init, last := levels[..|levels| - 1], levels[|levels| - 1];
      FlatNamed(history, init);
      assert Named(history, levels)[..|levels| - 1] == Named(history, init);
      assert PayloadsAt(history, Flat(init) + last) == PayloadsAt(history, Flat(init)) + PayloadsAt(history, last);
    }
  }

  /** Level by level from the outermost, and in the order of recording on each. */
  ghost predicate InOrder(history: seq<Op>, ts: seq<nat>) {
    && (forall i | 0 <= i < |ts| :: ts[i] < |history|)
    && forall i, j | 0 <= i < j < |ts| ::
         var a, b := Depth(history[..ts[i]]), Depth(history[..ts[j]]);
         a < b || (a == b && ts[i] < ts[j])
  }

  ghost predicate Rising(ts: seq<nat>) {
    forall i, j | 0 <= i < j < |ts| :: ts[i] < ts[j]
  }

  lemma {:induction false} BufferRises(ops: seq<Op>, k: nat)
    requires k < |Buffer(ops)|
    ensures Rising(Buffer(ops)[k])
  {
    if ops != [] {
      var init, op := ops[..|ops| - 1], ops[|ops| - 1];
      var before := Buffer(init);
      if k < |before| {
        BufferRises(init, k);
        BufferIsPast(init);
        forall i | 0 <= i < |before[k]| ensures before[k][i] < |ops| - 1 { assert HeldAt(before, before[k][i], k); }
      }
      if op.Note? { ExtendedLength(before, Depth(init)); }
    }
  }

  lemma {:induction false} FlatInOrder(history: seq<Op>, levels: seq<seq<nat>>, n: nat)
    requires levels == Buffer(history) && n <= |levels|
    ensures InOrder(history, Flat(levels[..n]))
    ensures forall t: nat :: t in Flat(levels[..n]) <==> exists k: nat :: k < n && t in levels[k]
    decreases n
  {
    if n > 0 {
      var m := n - 1;
      FlatInOrder(history, levels, m);
      assert levels[..n][..m] == levels[..m];
      BufferRises(history, m);
      var ts := Flat(levels[..m]);
      forall i | 0 <= i < |ts| ensures Depth(history[..ts[i]]) < m {
        assert ts[i] in ts;
        var k: nat :| k < m && ts[i] in levels[k];
        LevelOf(history, k, ts[i]);
      }
      forall i | 0 <= i < |levels[m]| ensures levels[m][i] < |history| && Depth(history[..levels[m][i]]) == m {
        LevelOf(history, m, levels[m][i]);
      }
      FlatOneMore(history, ts, levels[m], m);
    }
  }

  lemma LevelOf(history: seq<Op>, k: nat, t: nat)
    requires k < |Buffer(history)| && t in Buffer(history)[k]
    ensures t < |history| && Depth(history[..t]) == k
  {
    assert HeldAt(Buffer(history), t, k);
    ParkedExactly(history, t, k);
  }

  lemma FlatOneMore(history: seq<Op>, ts: seq<nat>, level: seq<nat>, k: nat)
    requires InOrder(history, ts) && Rising(level)
    requires forall i | 0 <= i < |ts| :: Depth(history[..ts[i]]) < k
    requires forall i | 0 <= i < |level| :: level[i] < |history| && Depth(history[..level[i]]) == k
    ensures InOrder(history, ts + level)
  {
  }

  /**
   What a commit hands out: the payload of each notification still parked, each once, the outermost level
   first and on each level in the order of recording.
   */
  lemma HandedOut(history: seq<Op>) returns (ts: seq<nat>)
    ensures Concat(Named(history, Buffer(history))) == PayloadsAt(history, ts) && InOrder(history, ts)
    ensures forall t: nat :: t in ts <==> exists k: nat :: Kept(history, t, k)
  {
    var levels := Buffer(history);
    assert levels[..|levels|] == levels;
    FlatInOrder(history, levels, |levels|);
    FlatNamed(history, levels);
    ts := Flat(levels);
    forall t: nat ensures t in ts <==> exists k: nat :: Kept(history, t, k) {
      if k: nat :| k < |levels| && t in levels[k] {
        assert HeldAt(levels, t, k);
        ParkedExactly(history, t, k);
      }
      if k: nat :| Kept(history, t, k) { ParkedExactly(history, t, k); }
    }
  }

  lemma HistoryExtends(history: seq<Op>, op: Op)
    ensures Depth(history + [op]) == DepthAfter(Depth(history), op)
    ensures op.Note? ==> Buffer(history + [op]) == Recorded<nat>(Buffer(history), Depth(history), |history|)
    ensures !op.Note? ==>
              Buffer(history + [op])
                  == (if 0 <= CutLevel(op) < |Buffer(history)| then Buffer(history)[..CutLevel(op)]
                      else Buffer(history))
  {
    assert (history + [op])[..|history|] == history;
  }

  /** What was recorded keeps its name when something more happens. */
  lemma NamedExtends(history: seq<Op>, op: Op, levels: seq<seq<nat>>)
    requires forall t: nat, k: nat | HeldAt(levels, t, k) :: t < |history|
    ensures Named(history + [op], levels) == Named(history, levels)
  {
    forall k | 0 <= k < |levels| ensures PayloadsAt(history + [op], levels[k]) == PayloadsAt(history, levels[k]) {
      forall j | 0 <= j < |levels[k]| ensures levels[k][j] < |history| { assert HeldAt(levels, levels[k][j], k); }
    }
  }

  lemma BufferIsPast(history: seq<Op>)
    ensures forall t: nat, k: nat | HeldAt(Buffer(history), t, k) :: t < |history|
  {
    forall t: nat, k: nat | HeldAt(Buffer(history), t, k) ensures t < |history| { ParkedExactly(history, t, k); }
  }

  /** What an operation other than a notification leaves of the parked payloads. */
  lemma LevelsAfter(history: seq<Op>, op: Op, levels: seq<seq<Payload>>)
    requires !op.Note? && levels == Named(history, Buffer(history))
    ensures Depth(history + [op]) == DepthAfter(Depth(history), op)
    ensures Named(history + [op], Buffer(history + [op]))
         == (if 0 <= CutLevel(op) < |levels| then levels[..CutLevel(op)] else levels)
  {
    HistoryExtends(history, op);
    BufferIsPast(history);
    NamedExtends(history, op, Buffer(history));
    if 0 <= CutLevel(op) < |levels| { NamedCut(history + [op], Buffer(history), CutLevel(op)); }
  }

  lemma NamedCut(history: seq<Op>, levels: seq<seq<nat>>, n: nat)
    requires n <= |levels|
    ensures Named(history, levels[..n]) == Named(history, levels)[..n]
  {
  }

  lemma NamedRecorded(history: seq<Op>, p: Payload)
    ensures Depth(history + [Note(p)]) == Depth(history)
    ensures Named(history + [Note(p)], Buffer(history + [Note(p)]))
              == Recorded(Named(history, Buffer(history)), Depth(history), p)
  {
    var op, b, d := Note(p), Buffer(history), Depth(history);
    HistoryExtends(history, op);
    BufferIsPast(history);
    NamedExtends(history, op, b);
    ExtendedLength(b, d);
    ExtendedLength(Named(history, b), d);
    var l, r := Named(history + [op], Recorded<nat>(b, d, |history|)), Recorded(Named(history, b), d, p);
    assert |l| == |r|;
    forall k | 0 <= k < |l| ensures l[k] == r[k] {
      if k < |b| { assert PayloadsAt(history + [op], b[k]) == Named(history + [op], b)[k]; }
    }
  }

  /** The first position, or the length. */
  function Position(ts: seq<Transaction>, t: Transaction): nat {
    if ts == [] || ts[0] == t then 0 else 1 + Position(ts[1..], t)
  }

  lemma {:induction false} NotThere(ts: seq<Transaction>, t: Transaction)
    requires t !in ts
    ensures Position(ts, t) == |ts|
  {
    if ts != [] { NotThere(ts[1..], t); }
  }

  lemma {:induction false} FirstAt(ts: seq<Transaction>, t: Transaction, i: nat)
    requires i < |ts| && ts[i] == t && t !in ts[..i]
    ensures Position(ts, t) == i
  {
    if i > 0 {
      assert ts[0] in ts[..i] && ts[1..][..i - 1] == ts[..i][1..];
      FirstAt(ts[1..], t, i - 1);
    }
  }

  class Session {
    /** The library's open transactions, outermost first. */
    var transactions: seq<Transaction>
    var created: nat
    /** Kept in the session's info dictionary: payloads per level, and the open savepoints. */
    var levels: seq<seq<Payload>>
    var savepoints: seq<Transaction>
    /** What was handed to the hub. */
    var delivered: seq<Payload>
    ghost var history: seq<Op>

    ghost predicate Stacked()
      reads this
    {
      && (forall i | 0 <= i < |transactions| :: transactions[i].id < created && (transactions[i].nested <==> i > 0))
      && (forall i, j | 0 <= i < j < |transactions| :: transactions[i].id < transactions[j].id)
      && savepoints == if transactions == [] then [] else transactions[1..]
    }

    ghost predicate Valid()
      reads this
    {
      && Stacked()
      && |savepoints| == Depth(history)
      && levels == Named(history, Buffer(history))
    }

    constructor ()
      ensures Valid() && history == [] && delivered == []
    {
      transactions, created, levels, savepoints, delivered := [], 0, [], [], [];
      history := [];
    }

    // --- the hooks ----------------------------------------------------------

    method TrackSavepoint(t: Transaction)
      modifies `savepoints
      ensures savepoints == if t.nested then old(savepoints) + [t] else old(savepoints)
    {
      if t.nested { savepoints := savepoints + [t]; }
    }

    method EndOfTransaction(t: Transaction)
      modifies `savepoints, `levels
      ensures savepoints == if old(savepoints) != [] && old(savepoints)[|old(savepoints)| - 1] == t
                            then old(savepoints)[..|old(savepoints)| - 1] else old(savepoints)
      ensures levels == if transactions == [] then [] else old(levels)
    {
      if savepoints != [] && savepoints[|savepoints| - 1] == t { savepoints := savepoints[..|savepoints| - 1]; }
      if transactions == [] { levels := []; }
    }

    /** A nested transaction is the innermost one, or encloses it. */
    predicate InNested()
      reads this
    {
      exists i | 0 <= i < |transactions| :: transactions[i].nested
    }

    method FlushCommittedPayloads()
      modifies `levels, `delivered
      ensures delivered == if InNested() then old(delivered) else old(delivered) + Concat(old(levels))
      ensures levels == if InNested() then old(levels) else []
    {
      if InNested() { return; }
      delivered := delivered + Concat(levels);
      levels := [];
    }

    method DropRolledBackPayloads()
      modifies `levels, `savepoints
      ensures levels == if InNested() then old(levels) else []
      ensures savepoints == if InNested() then old(savepoints) else []
    {
      if !InNested() { levels, savepoints := [], []; }
    }

    /** One past the savepoint's position among those still tracked, or past the last if it is gone already. */
    ghost function DepthOf(t: Transaction): nat
      reads `savepoints
    {
      Position(savepoints, t) + 1
    }

    method RolledBackDepth(t: Transaction) returns (depth: nat)
      ensures depth == DepthOf(t)
      ensures t !in savepoints ==> depth == |savepoints| + 1
      ensures t in savepoints ==>
                1 <= depth <= |savepoints| && savepoints[depth - 1] == t && t !in savepoints[..depth - 1]
    {
      for index := 0 to |savepoints|
        invariant t !in savepoints[..index]
      {
        if savepoints[index] == t {
          FirstAt(savepoints, t, index);
          return index + 1;
        }
      }
      depth := |savepoints| + 1;
      NotThere(savepoints, t);
    }

    method DropRolledBackSavepointPayloads(t: Transaction)
      modifies `levels
      ensures transactions == [] || !t.nested ==> levels == []
      ensures transactions != [] && t.nested ==>
                levels == (if DepthOf(t) < |old(levels)| then old(levels)[..DepthOf(t)] else old(levels))
    {
      if transactions == [] || !t.nested {
        levels := [];
        return;
      }
      if levels != [] {
        var depth := RolledBackDepth(t);
        if depth < |levels| { levels := levels[..depth]; }
      }
    }

    // --- the session --------------------------------------------------------

    /** Enters an operation in the history once the hooks have left what it leaves of `parked`. */
    ghost method Happened(op: Op, parked: seq<seq<Payload>>)
      requires Stacked() && !op.Note? && |savepoints| == DepthAfter(Depth(history), op)
      requires parked == Named(history, Buffer(history))
      requires levels == (if 0 <= CutLevel(op) < |parked| then parked[..CutLevel(op)] else parked)
      modifies `history
      ensures Valid() && history == old(history) + [op]
    {
      LevelsAfter(history, op, parked);
      history := history + [op];
    }

    /** `notify_user_changes`: parks on the level of the current savepoint, level 0 outside any transaction. */
    method Notify(p: Payload)
      requires Valid()
      modifies this
      ensures Valid() && history == old(history) + [Note(p)] && delivered == old(delivered)
    {
      var depth := |savepoints|;
      while |levels| <= depth
        invariant Extended(levels, depth) == Extended(old(levels), depth)
        invariant unchanged(`transactions, `created, `savepoints, `delivered, `history)
        decreases depth - |levels|
      {
        levels := levels + [[]];
      }
      ExtendedLength(old(levels), depth);
      levels := levels[depth := levels[depth] + [p]];
      NamedRecorded(history, p);
      history := history + [Note(p)];
    }

    method Begin()
      requires Stacked()
      modifies `transactions, `created
      ensures Stacked() && transactions != []
      ensures old(transactions) != [] ==> transactions == old(transactions)
      ensures |transactions| >= 1 && (old(transactions) == [] ==> |transactions| == 1)
    {
      if transactions == [] {
        transactions := [Transaction(created, false)];
        created := created + 1;
      }
    }

    method OpenNested()
      requires Stacked() && transactions != []
      modifies `transactions, `created, `savepoints
      ensures Stacked() && |transactions| == |old(transactions)| + 1
    {
      var t := Transaction(created, true);
      created := created + 1;
      transactions := transactions + [t];
      TrackSavepoint(t);
    }

    method BeginNested()
      requires Valid()
      modifies this
      ensures Valid() && history == old(history) + [Savepoint] && delivered == old(delivered) && transactions != []
    {
      Begin();
      OpenNested();
      Happened(Savepoint, old(levels));
    }

    /** Takes the innermost transaction off and tells the hook. */
    method End()
      requires Stacked() && transactions != []
      modifies `transactions, `savepoints, `levels
      ensures Stacked() && transactions == old(transactions)[..|old(transactions)| - 1]
      ensures levels == if transactions == [] then [] else old(levels)
    {
      var t := transactions[|transactions| - 1];
      transactions := transactions[..|transactions| - 1];
      EndOfTransaction(t);
    }

    method ReleaseNested()
      requires Valid() && |savepoints| > 0
      modifies this
      ensures Valid() && history == old(history) + [Release] && delivered == old(delivered) && transactions != []
    {
      assert transactions[|transactions| - 1].nested;
      FlushCommittedPayloads();
      End();
      Happened(Release, old(levels));
    }

    /** Rolls back the innermost savepoint, level by level of the stack. */
    method RollBackInnermost()
      requires Stacked() && |transactions| > 1
      modifies `transactions, `savepoints, `levels
      ensures Stacked() && transactions == old(transactions)[..|old(transactions)| - 1]
      ensures levels == if |transactions| < |old(levels)| then old(levels)[..|transactions|] else old(levels)
    {
      var t := transactions[|transactions| - 1];
      assert t.nested;
      DropRolledBackPayloads();
      End();
      NotThere(savepoints, t);
      DropRolledBackSavepointPayloads(t);
    }

    /** Rolls back the level-th savepoint; the savepoints inside it are closed first. */
    method RollbackNested(level: nat)
      requires Valid() && 1 <= level <= |savepoints|
      modifies this
      ensures Valid() && history == old(history) + [RollbackTo(level)] && delivered == old(delivered)
                && transactions != []
    {
      while |transactions| - 1 > level
        invariant Stacked() && level < |transactions| && levels == old(levels)
        invariant unchanged(`created, `delivered, `history)
        decreases |transactions|
      {
        End();
      }
      RollBackInnermost();
      Happened(RollbackTo(level), old(levels));
    }

    /** A failed flush rolls back its own subtransaction, and the transaction it ran in stays open. */
    method FailSubtransaction()
      requires Stacked() && transactions != []
      modifies `transactions, `created, `savepoints, `levels
      ensures Stacked() && transactions == old(transactions) && levels == []
    {
      var sub := Transaction(created, false);
      ghost var before := transactions;
      created := created + 1;
      transactions := transactions + [sub];
      TrackSavepoint(sub);
      if |before| > 1 { assert transactions[1].nested; }
      DropRolledBackPayloads();
      transactions := transactions[..|transactions| - 1];
      assert transactions == before;
      assert sub !in savepoints;
      EndOfTransaction(sub);
      DropRolledBackSavepointPayloads(sub);
    }

    method FailFlush()
      requires Valid() && transactions != []
      modifies this
      ensures Valid() && history == old(history) + [FlushFailed] && delivered == old(delivered)
    {
      FailSubtransaction();
      Happened(FlushFailed, old(levels));
    }

    /** Releases the open savepoints and commits the outermost transaction. */
    method CommitOutermost()
      requires Stacked()
      modifies `transactions, `created, `savepoints, `levels, `delivered
      ensures Stacked() && transactions == [] && levels == [] && delivered == old(delivered) + Concat(old(levels))
    {
      Begin();
      while |transactions| > 1
        invariant Stacked() && transactions != [] && levels == old(levels)
        invariant unchanged(`delivered)
        decreases |transactions|
      {
        assert transactions[1].nested;
        FlushCommittedPayloads();
        End();
      }
      FlushCommittedPayloads();
      End();
    }

    /** The outermost commit releases what is still open and delivers; only pending payloads leave. */
    method CommitAll()
      requires Valid()
      modifies this
      ensures Valid() && history == old(history) + [Commit] && transactions == []
      ensures delivered == old(delivered) + Concat(old(levels))
      ensures forall p | p in delivered[|old(delivered)|..] :: exists t: nat ::
                Pending(old(history), t) && old(history)[t].payload == p
      ensures exists ts :: InOrder(old(history), ts) && delivered == old(delivered) + PayloadsAt(old(history), ts)
                           && forall t: nat :: t in ts <==> exists k: nat :: Kept(old(history), t, k)
    {
      ghost var ts := HandedOut(history);
      forall p | p in Concat(levels) ensures exists t: nat :: Pending(history, t) && history[t].payload == p {
        BufferedIsPending(history, p);
      }
      CommitOutermost();
      assert delivered[|old(delivered)|..] == Concat(old(levels));
      Happened(Commit, old(levels));
    }

    /** Without an open transaction there is nothing to roll back, and what is parked stays. */
    method RollbackWhole()
      requires Valid()
      modifies this
      ensures Valid() && delivered == old(delivered) && transactions == []
      ensures history == if old(transactions) == [] then old(history) else old(history) + [RollbackAll]
    {
      if transactions == [] { return; }
      while |transactions| > 1
        invariant Stacked() && transactions != []
        invariant unchanged(`created, `delivered, `history)
        decreases |transactions|
      {
        RollBackInnermost();
      }
      var root := transactions[0];
      DropRolledBackPayloads();
      End();
      DropRolledBackSavepointPayloads(root);
      Happened(RollbackAll, old(levels));
    }

    /** Closing without a commit: what is still parked goes with the last transaction. */
    method CloseSession()
      requires Valid()
      modifies this
      ensures Valid() && delivered == old(delivered) && transactions == []
      ensures history == if old(transactions) == [] then old(history) else old(history) + [Close]
    {
      if transactions == [] { return; }
      while transactions != []
        invariant Stacked() && (transactions == [] ==> levels == [])
        invariant unchanged(`created, `delivered, `history)
        decreases |transactions|
      {
        End();
      }
      Happened(Close, old(levels));
    }
  }
}
