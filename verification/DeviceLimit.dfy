/**
 One owner's device limit when requests overlap: taking the owner's row lock, checking, inserting and
 committing are separate steps. An administrator's limit takes the same lock; an imported one does not.
 */
module DeviceLimit {
  import opened Options

  type Txn = nat

  datatype Phase =
    | Locked
    | Checked(limit: Option<nat>, count: nat)
    | Inserted(limit: Option<nat>, count: nat)

  /** Committed limit and live count, and the transaction that holds the owner's lock. */
  datatype Owner = Owner(limit: Option<nat>, live: nat, holder: Option<(Txn, Phase)>)

  datatype Event =
    | Lock(t: Txn)
    | Check(t: Txn)
    | Insert(t: Txn)
    | Commit(t: Txn)
    | Rollback(t: Txn)
    | DeleteDevice
    | SetLocalLimit(limit: Option<nat>)
    | ImportLimit(limit: Option<nat>)

  predicate Holds(o: Owner, t: Txn) {
    o.holder.Some? && o.holder.value.0 == t
  }

  predicate CanHappen(o: Owner, e: Event) {
    match e
    case Lock(_) => o.holder.None?
    case Check(t) => Holds(o, t) && o.holder.value.1.Locked?
    case Insert(t) => Holds(o, t) && o.holder.value.1.Checked?
    case Commit(t) => Holds(o, t) && o.holder.value.1.Inserted?
    case Rollback(t) => Holds(o, t)
    case DeleteDevice => o.holder.None? && o.live > 0
    case SetLocalLimit(_) => o.holder.None?
    case ImportLimit(_) => true
  }

  /** The check passes: unlimited, or below the limit. */
  predicate Below(limit: Option<nat>, count: nat) {
    limit.None? || count < limit.value
  }

  predicate Within(limit: Option<nat>, count: nat) {
    limit.None? || count <= limit.value
  }

  function After(o: Owner, e: Event): Owner
    requires CanHappen(o, e)
  {
    match e
    case Lock(t) => o.(holder := Some((t, Locked)))
    case Check(t) => if Below(o.limit, o.live) then o.(holder := Some((t, Checked(o.limit, o.live))))
        else o.(holder := None)
    case Insert(t) => o.(holder := Some((t, Inserted(o.holder.value.1.limit, o.holder.value.1.count))))
    case Commit(t) => o.(live := o.live + 1, holder := None)
    case Rollback(t) => o.(holder := None)
    case DeleteDevice => o.(live := o.live - 1)
    case SetLocalLimit(limit) => o.(limit := limit)
    case ImportLimit(limit) => o.(limit := limit)
  }

  ghost predicate IsRun(states: seq<Owner>, events: seq<Event>) {
    && |states| == |events| + 1
    && forall i | 0 <= i < |events| :: CanHappen(states[i], events[i]) && states[i + 1] == After(states[i], events[i])
  }

  /** Whoever checked still sees the committed count, and did find room below the limit it read. */
  predicate CheckHolds(o: Owner) {
    o.holder.Some? && !o.holder.value.1.Locked? ==>
      o.holder.value.1.count == o.live && Below(o.holder.value.1.limit, o.live)
  }

  lemma {:induction false} RunKeepsCheck(states: seq<Owner>, events: seq<Event>, i: nat)
    requires IsRun(states, events) && states[0].holder.None? && i < |states|
    ensures CheckHolds(states[i])
  {
    if i > 0 { RunKeepsCheck(states, events, i - 1); }
  }

  /** While no limit is imported, the limit a holder read is the limit in force. */
  lemma {:induction false} ReadLimitIsInForce(states: seq<Owner>, events: seq<Event>, i: nat)
    requires IsRun(states, events) && states[0].holder.None? && i < |states|
    requires forall e | e in events :: !e.ImportLimit?
    ensures states[i].holder.Some? && !states[i].holder.value.1.Locked? ==>
              states[i].holder.value.1.limit == states[i].limit
  {
    if i > 0 {
      ReadLimitIsInForce(states, events, i - 1);
      assert events[i - 1] in events;
    }
  }

  /** With administrators' limits alone, no commit ever takes the owner above the limit in force. */
  lemma LocalLimitHolds(states: seq<Owner>, events: seq<Event>, i: nat)
    requires IsRun(states, events) && states[0].holder.None? && i < |events| && events[i].Commit?
    requires forall e | e in events :: !e.ImportLimit?
    ensures Within(states[i + 1].limit, states[i + 1].live)
  {
    RunKeepsCheck(states, events, i);
    ReadLimitIsInForce(states, events, i);
  }

  /** Step c is the check of the transaction that holds the lock before step i. */
  predicate CheckedAt(states: seq<Owner>, events: seq<Event>, c: nat, i: nat)
    requires |states| == |events| + 1
  {
    && c < i < |states| && events[c].Check?
    && forall m | c < m <= i :: Holds(states[m], events[c].t) && !states[m].holder.value.1.Locked?
  }

  /** An import between the check and step i, the last one before i, sets a limit the count had reached at the check. */
  ghost predicate Undercut(states: seq<Owner>, events: seq<Event>, i: nat)
    requires |states| == |events| + 1
  {
    exists c: nat, k: nat ::
      && CheckedAt(states, events, c, i) && c < k < i
      && events[k].ImportLimit? && events[k].limit.Some? && events[k].limit.value <= states[c].live
      && forall m | k < m < i :: !events[m].ImportLimit?
  }

  lemma {:induction false} FindCheck(states: seq<Owner>, events: seq<Event>, i: nat) returns (c: nat)
    requires IsRun(states, events) && states[0].holder.None? && i < |states|
    requires states[i].holder.Some? && !states[i].holder.value.1.Locked?
    ensures CheckedAt(states, events, c, i)
  {
    if states[i - 1].holder.Some? && !states[i - 1].holder.value.1.Locked? {
      c := FindCheck(states, events, i - 1);
    } else {
      c := i - 1;
    }
  }

  /** While a transaction that checked holds the lock, the count stays and only an import moves the limit. */
  lemma {:induction false} LimitWhileHeld(states: seq<Owner>, events: seq<Event>, c: nat, k: nat, i: nat)
    requires IsRun(states, events) && CheckedAt(states, events, c, i) && c < k <= i
    requires forall m | k <= m < i :: !events[m].ImportLimit?
    ensures states[i].live == states[c].live && states[i].limit == states[k].limit
    ensures states[k].live == states[c].live
  {
    if i > k {
      assert CheckedAt(states, events, c, i - 1);
      LimitWhileHeld(states, events, c, k, i - 1);
    } else if k > c + 1 {
      CountWhileHeld(states, events, c, k);
    }
  }

  lemma {:induction false} CountWhileHeld(states: seq<Owner>, events: seq<Event>, c: nat, i: nat)
    requires IsRun(states, events) && CheckedAt(states, events, c, i)
    ensures states[i].live == states[c].live
  {
    if i > c + 1 {
      assert CheckedAt(states, events, c, i - 1);
      CountWhileHeld(states, events, c, i - 1);
    }
  }

  lemma {:induction false} LastImport(states: seq<Owner>, events: seq<Event>, c: nat, i: nat) returns (k: nat)
    requires |states| == |events| + 1 && c < i < |states|
    ensures c <= k < i && (k > c ==> events[k].ImportLimit?)
    ensures forall m | k < m < i :: !events[m].ImportLimit?
  {
    k := i - 1;
    if k > c && !events[k].ImportLimit? { k := LastImport(states, events, c, i - 1); }
  }

  /**
   A commit takes the owner above the limit in force exactly when, after its check, the last import
   set a limit that the count had already reached when it was checked.
   */
  lemma ImportedLimitHoldsExactly(states: seq<Owner>, events: seq<Event>, i: nat)
    requires IsRun(states, events) && states[0].holder.None? && i < |events| && events[i].Commit?
    ensures Within(states[i + 1].limit, states[i + 1].live) <==> !Undercut(states, events, i)
  {
    var c := FindCheck(states, events, i);
    var k := LastImport(states, events, c, i);
    LimitWhileHeld(states, events, c, k + 1, i);
    if Undercut(states, events, i) {
      var d: nat, j: nat :| CheckedAt(states, events, d, i) && d < j < i && events[j].ImportLimit?
        && events[j].limit.Some? && events[j].limit.value <= states[d].live && forall m | j < m < i ::
            !events[m].ImportLimit?;
      LimitWhileHeld(states, events, d, j + 1, i);
    }
  }

  lemma ImportCanOvertake(t: Txn)
    ensures exists states: seq<Owner>, events: seq<Event> ::
              IsRun(states, events) && states[0] == Owner(Some(2), 1, None)
                  && states[|events|] == Owner(Some(1), 2, None)
  {
    var s0 := Owner(Some(2), 1, None);
    var s1 := After(s0, Lock(t));
    var s2 := After(s1, Check(t));
    var s3 := After(s2, ImportLimit(Some(1)));
    var s4 := After(s3, Insert(t));
    var s5 := After(s4, Commit(t));
    assert IsRun([s0, s1, s2, s3, s4, s5], [Lock(t), Check(t), ImportLimit(Some(1)), Insert(t), Commit(t)]);
  }

  /** Lowering a limit removes nothing. */
  lemma LoweringRemovesNothing(o: Owner, limit: Option<nat>)
    ensures CanHappen(o, SetLocalLimit(limit)) ==> After(o, SetLocalLimit(limit)).live == o.live
    ensures After(o, ImportLimit(limit)).live == o.live
  {
  }
}
