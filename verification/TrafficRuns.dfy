/**
 What an account's traffic is made of: over every run of the panel, its lifetime bytes received and sent
 are the deltas of the readings its peers' counters were reported with, since the last reset.
 */
module TrafficRuns {
  import opened Options
  import opened TrafficLedger
  import opened PanelModel
  import opened Devices
  import opened Lifecycle
  import opened NodeResults
  import opened PanelRuns

  /** The two counters of a peer. */
  datatype Way = Received | Sent

  function BytesOf(r: Row, w: Way): nat {
    if w == Received then r.rx else r.tx
  }

  /** What an account's lifetime row says. */
  function Lifetime(p: Panel, u: UserId, w: Way): nat {
    if u in p.ledger.lifetime then BytesOf(p.ledger.lifetime[u], w) else 0
  }

  function RawOf(peer: Peer, w: Way): Option<nat> {
    if w == Received then peer.rawRx else peer.rawTx
  }

  // --- the history of a counter ---------------------------------------------

  /** A counter is read, or the peer's row goes (or is not there). */
  datatype Mark = Reading(value: nat) | Gone

  function CounterOf(p: Panel, k: PeerKey, w: Way): Option<nat> {
    if k in p.peers then RawOf(p.peers[k], w) else None
  }

  function EndOf(previous: Option<nat>, marks: seq<Mark>): Option<nat> {
    if marks == [] then previous
    else if marks[|marks| - 1].Gone? then None
    else Some(marks[|marks| - 1].value)
  }

  /** The bytes that went over the counter. */
  function Usage(previous: Option<nat>, marks: seq<Mark>): nat {
    if marks == [] then 0
    else
      var init, last := marks[..|marks| - 1], marks[|marks| - 1];
      Usage(previous, init) + if last.Gone? then 0 else CounterDelta(EndOf(previous, init), last.value)
  }

  lemma UsageNext(previous: Option<nat>, marks: seq<Mark>, m: Mark)
    ensures Usage(previous, marks + [m])
         == Usage(previous, marks) + if m.Gone? then 0 else CounterDelta(EndOf(previous, marks), m.value)
    ensures EndOf(previous, marks + [m]) == if m.Gone? then None else Some(m.value)
  {
    assert (marks + [m])[..|marks|] == marks;
  }

  lemma {:induction false} UsageAppends(previous: Option<nat>, a: seq<Mark>, b: seq<Mark>)
    ensures Usage(previous, a + b) == Usage(previous, a) + Usage(EndOf(previous, a), b)
    ensures EndOf(previous, a + b) == EndOf(EndOf(previous, a), b)
    decreases |b|
  {
    if b == [] {
      assert a + b == a;
    } else {
      UsageAppends(previous, a, b[..|b| - 1]);
      UsageNext(previous, a + b[..|b| - 1], b[|b| - 1]);
      UsageNext(EndOf(previous, a), b[..|b| - 1], b[|b| - 1]);
      assert b == b[..|b| - 1] + [b[|b| - 1]] && a + b == a + b[..|b| - 1] + [b[|b| - 1]];
    }
  }

  function ValueOf(m: Mark): nat
    requires m.Reading?
  {
    m.value
  }

  function Values(marks: seq<Mark>): seq<nat>
    requires Gone !in marks
  {
    seq(|marks|, i requires 0 <= i < |marks| => ValueOf(marks[i]))
  }

  lemma {:induction false} DeltaSumAppends(previous: Option<nat>, a: seq<nat>, last: nat)
    ensures DeltaSum(previous, a + [last])
         == DeltaSum(previous, a) + CounterDelta(if a == [] then previous else Some(a[|a| - 1]), last)
    decreases |a|
  {
    if a != [] {
      DeltaSumAppends(Some(a[0]), a[1..], last);
      assert (a + [last])[1..] == a[1..] + [last];
    } else {
      assert (a + [last])[1..] == [];
    }
  }

  /** While the peer's row stays, a counter's usage is its delta sum. */
  lemma {:induction false} UsageIsDeltas(previous: Option<nat>, marks: seq<Mark>)
    requires Gone !in marks
    ensures Usage(previous, marks) == DeltaSum(previous, Values(marks))
  {
    if marks != [] {
      var init, last := marks[..|marks| - 1], marks[|marks| - 1];
      assert last in marks && Gone !in init;
      UsageIsDeltas(previous, init);
      DeltaSumAppends(previous, Values(init), last.value);
      assert Values(marks) == Values(init) + [last.value];
    }
  }

  /**
   From a peer's first reading on, a counter's usage is the last reading minus the first, and every
   reading that a restart of the counter followed.
   */
  lemma UsageTelescopes(marks: seq<Mark>)
    requires Gone !in marks && marks != []
    ensures var values := Values(marks);
            Usage(None, marks) == values[|values| - 1] - values[0] + LostAtResets(values)
  {
    UsageIsDeltas(None, marks);
    DeltasTelescope(Values(marks));
  }

  // --- sums over peers ------------------------------------------------------

  ghost function Sum(m: map<PeerKey, nat>, ks: set<PeerKey>): nat
    requires ks <= m.Keys
    decreases ks
  {
    if ks == {} then 0 else var k :| k in ks; m[k] + Sum(m, ks - {k})
  }

  lemma {:induction false} SumPick(m: map<PeerKey, nat>, ks: set<PeerKey>, k: PeerKey)
    requires ks <= m.Keys && k in ks
    ensures Sum(m, ks) == m[k] + Sum(m, ks - {k})
    decreases ks
  {
    var j :| j in ks && Sum(m, ks) == m[j] + Sum(m, ks - {j});
    if j != k {
      SumPick(m, ks - {j}, k);
      SumPick(m, ks - {k}, j);
      assert ks - {j} - {k} == ks - {k} - {j};
    }
  }

  lemma {:induction false} SumPlus(m: map<PeerKey, nat>, a: map<PeerKey, nat>, b: map<PeerKey, nat>, ks: set<PeerKey>)
    requires ks <= m.Keys && ks <= a.Keys && ks <= b.Keys && forall k | k in ks :: m[k] == a[k] + b[k]
    ensures Sum(m, ks) == Sum(a, ks) + Sum(b, ks)
    decreases ks
  {
    if ks != {} {
      var k :| k in ks;
      SumPick(m, ks, k);
      SumPick(a, ks, k);
      SumPick(b, ks, k);
      SumPlus(m, a, b, ks - {k});
    }
  }

  lemma {:induction false} SumSame(a: map<PeerKey, nat>, b: map<PeerKey, nat>, ks: set<PeerKey>)
    requires ks <= a.Keys && ks <= b.Keys && forall k | k in ks :: a[k] == b[k]
    ensures Sum(a, ks) == Sum(b, ks)
    decreases ks
  {
    if ks != {} {
      var k :| k in ks;
      SumPick(a, ks, k);
      SumPick(b, ks, k);
      SumSame(a, b, ks - {k});
    }
  }

  lemma {:induction false} SumZero(m: map<PeerKey, nat>, ks: set<PeerKey>)
    requires ks <= m.Keys && forall k | k in ks :: m[k] == 0
    ensures Sum(m, ks) == 0
    decreases ks
  {
    if ks != {} {
      var k :| k in ks;
      SumPick(m, ks, k);
      SumZero(m, ks - {k});
    }
  }

  /** Only one peer's entry may differ, and by this much. */
  lemma SumMoves(a: map<PeerKey, nat>, b: map<PeerKey, nat>, ks: set<PeerKey>, hit: PeerKey, inc: nat)
    requires ks <= a.Keys && ks <= b.Keys && forall k | k in ks && k != hit :: a[k] == b[k]
    requires hit in ks ==> a[hit] == b[hit] + inc
    ensures Sum(a, ks) == Sum(b, ks) + if hit in ks then inc else 0
  {
    if hit in ks {
      SumPick(a, ks, hit);
      SumPick(b, ks, hit);
      SumSame(a, b, ks - {hit});
    } else {
      SumSame(a, b, ks);
    }
  }

  // --- one result -----------------------------------------------------------

  /** What an entry of a report says about a counter of the peer with this key: both are sent, or neither counts. */
  function ReadingIn(key: Option<Key>, r: PeerReport, w: Way): seq<Mark> {
    if key == Some(r.key) && r.rx.Some? && r.tx.Some? then [Reading(if w == Received then r.rx.value else r.tx.value)]
    else []
  }

  function ReadingsFor(key: Option<Key>, reports: seq<PeerReport>, w: Way): seq<Mark>
    decreases |reports|
  {
    if reports == [] then [] else ReadingIn(key, reports[0], w) + ReadingsFor(key, reports[1..], w)
  }

  /** The same rows, and peers at most added. */
  predicate SameRows(p: Panel, q: Panel) {
    q.devices == p.devices && q.nodes == p.nodes && p.peers.Keys <= q.peers.Keys
  }

  lemma LocalPassKeepsCounters(p: Panel, u: UserId, now: Time, psk: PeerKey -> Psk, w: Way)
    ensures var q := EnforceLocal(p, u, now, psk);
            SameRows(p, q) && forall k :: CounterOf(q, k, w) == CounterOf(p, k, w)
  {
  }

  lemma PassesKeepCounters(p: Panel, u: UserId, now: Time, psk: PeerKey -> Psk, w: Way)
    ensures var q := EnforceCombined(EnforceLocal(p, u, now, psk), u);
            SameRows(p, q) && q.ledger == p.ledger && forall k :: CounterOf(q, k, w) == CounterOf(p, k, w)
  {
    var m := EnforceLocal(p, u, now, psk);
    var q := EnforceCombined(m, u);
    LocalPassKeepsCounters(p, u, now, psk, w);
    PassesBookNothing(p, u, now, psk);
    assert SameRows(m, q) && q.peers.Keys == m.peers.Keys;
    forall k ensures CounterOf(q, k, w) == CounterOf(m, k, w) {}
  }

  /** What the marks of one peer do to its counter, and to the lifetime of any account. */
  ghost predicate Books(p: Panel, q: Panel, hit: PeerKey, marks: seq<Mark>, w: Way) {
    && SameRows(p, q)
    && (forall k :: CounterOf(q, k, w) == EndOf(CounterOf(p, k, w), if k == hit then marks else []))
    && (forall u :: Lifetime(q, u, w) == Lifetime(p, u, w)
                    + if hit.device in p.devices && p.devices[hit.device].owner == u
                      then Usage(CounterOf(p, hit, w), marks) else 0)
  }

  lemma UsageOfOne(previous: Option<nat>, value: nat)
    ensures Usage(previous, [Reading(value)]) == CounterDelta(previous, value)
  {
    assert [Reading(value)][..0] == [];
  }

  lemma ReadingSetsCounter(p: Panel, k: PeerKey, r: PeerReport, now: Time, w: Way)
    requires k in p.peers && k.device in p.devices && p.devices[k.device].key == Some(r.key)
    ensures var q, marks := ApplyPeerResult(p, k, r, now), ReadingIn(p.devices[k.device].key, r, w);
            && SameRows(p, q)
            && forall j :: CounterOf(q, j, w) == EndOf(CounterOf(p, j, w), if j == k then marks else [])
  {
  }

  /** Nothing is booked when neither counter moved, which is as good as booking nothing. */
  lemma ReadingGrows(p: Panel, k: PeerKey, r: PeerReport, now: Time, w: Way, u: UserId)
    requires k in p.peers && k.device in p.devices && p.devices[k.device].key == Some(r.key)
    ensures Lifetime(ApplyPeerResult(p, k, r, now), u, w) == Lifetime(p, u, w)
            + if p.devices[k.device].owner == u
              then Usage(CounterOf(p, k, w), ReadingIn(p.devices[k.device].key, r, w)) else 0
  {
    if r.rx.Some? && r.tx.Some? {
      UsageOfOne(CounterOf(p, k, Received), r.rx.value);
      UsageOfOne(CounterOf(p, k, Sent), r.tx.value);
      BooksExactly(p.ledger, p.devices[k.device].owner, k.node, DayOf(now),
                   CounterDelta(p.peers[k].rawRx, r.rx.value), CounterDelta(p.peers[k].rawTx, r.tx.value));
    }
  }

  lemma ResultBooks(p: Panel, k: PeerKey, r: PeerReport, now: Time, psk: PeerKey -> Psk, w: Way)
    requires k in p.peers && k.device in p.devices && p.devices[k.device].key == Some(r.key)
    ensures Books(p, ApplyToPeer(p, k, r, now, psk), k, ReadingIn(p.devices[k.device].key, r, w), w)
  {
    var m, owner := ApplyPeerResult(p, k, r, now), p.devices[k.device].owner;
    var q := EnforceCombined(EnforceLocal(m, owner, now, psk), owner);
    ReadingSetsCounter(p, k, r, now, w);
    PassesKeepCounters(m, owner, now, psk, w);
    forall u ensures Lifetime(m, u, w) == Lifetime(p, u, w)
                     + if owner == u then Usage(CounterOf(p, k, w), ReadingIn(p.devices[k.device].key, r, w)) else 0 {
      ReadingGrows(p, k, r, now, w, u);
    }
    PassesComeAfter(p, m, q, k, ReadingIn(p.devices[k.device].key, r, w), w);
  }

  lemma PassesComeAfter(p: Panel, m: Panel, q: Panel, hit: PeerKey, marks: seq<Mark>, w: Way)
    requires Books(p, m, hit, marks, w) && SameRows(m, q) && q.ledger == m.ledger
    requires forall k :: CounterOf(q, k, w) == CounterOf(m, k, w)
    ensures Books(p, q, hit, marks, w)
  {
    forall k ensures CounterOf(q, k, w) == EndOf(CounterOf(p, k, w), if k == hit then marks else []) {
      assert CounterOf(q, k, w) == CounterOf(m, k, w);
    }
    forall u ensures Lifetime(q, u, w) == Lifetime(m, u, w) {}
  }

  // --- a whole report -------------------------------------------------------

  /** One node's peers, loaded. */
  ghost predicate Loaded(p: Panel, loaded: set<PeerKey>) {
    && UniqueDevices(p) && (forall k | k in loaded :: k in p.peers && k.device in p.devices)
    && (forall j, k | j in loaded && k in loaded :: j.node == k.node)
  }

  /** What a report brings for a loaded peer. */
  function MarksIn(p: Panel, loaded: set<PeerKey>, reports: seq<PeerReport>, k: PeerKey, w: Way): seq<Mark> {
    if k in loaded && k.device in p.devices then ReadingsFor(p.devices[k.device].key, reports, w) else []
  }

  lemma OnlyOneHit(p: Panel, loaded: set<PeerKey>, j: PeerKey, k: PeerKey, key: Key)
    requires Loaded(p, loaded) && IsFor(p, loaded, key, j) && IsFor(p, loaded, key, k)
    ensures j == k
  {
  }

  lemma MarksOfEntry(p: Panel, loaded: set<PeerKey>, r: PeerReport, k: PeerKey, w: Way)
    ensures MarksIn(p, loaded, [r], k, w)
         == if k in loaded && k.device in p.devices then ReadingIn(p.devices[k.device].key, r, w) else []
  {
    if k in loaded && k.device in p.devices {
      var key := p.devices[k.device].key;
      assert [r][1..] == [];
      assert ReadingsFor(key, [r][1..], w) == [];
      assert ReadingIn(key, r, w) + [] == ReadingIn(key, r, w);
    }
  }

  /** One entry of a report is one peer's reading, or nobody's. */
  ghost predicate EntryIs(p: Panel, q: Panel, loaded: set<PeerKey>, r: PeerReport, hit: PeerKey, w: Way) {
    && Loaded(q, loaded) && Books(p, q, hit, MarksIn(p, loaded, [r], hit, w), w)
    && (forall k | k in loaded && k != hit :: MarksIn(p, loaded, [r], k, w) == [])
  }

  lemma EntryFound(p: Panel, loaded: set<PeerKey>, r: PeerReport, now: Time, psk: PeerKey -> Psk, hit: PeerKey, w: Way)
    requires Loaded(p, loaded) && IsFor(p, loaded, r.key, hit)
    ensures EntryIs(p, ApplyToPeer(p, hit, r, now, psk), loaded, r, hit, w)
  {
    ResultBooks(p, hit, r, now, psk, w);
    MarksOfEntry(p, loaded, r, hit, w);
    SameDevicesUnique(p, ApplyToPeer(p, hit, r, now, psk));
    forall j | j in loaded && j != hit ensures MarksIn(p, loaded, [r], j, w) == [] {
      MarksOfEntry(p, loaded, r, j, w);
      if p.devices[j.device].key == Some(r.key) { OnlyOneHit(p, loaded, j, hit, r.key); }
    }
  }

  lemma EntryMissed(p: Panel, loaded: set<PeerKey>, r: PeerReport, hit: PeerKey, w: Way)
    requires Loaded(p, loaded) && forall k :: !IsFor(p, loaded, r.key, k)
    ensures EntryIs(p, p, loaded, r, hit, w)
  {
    forall j ensures MarksIn(p, loaded, [r], j, w) == [] {
      MarksOfEntry(p, loaded, r, j, w);
      assert !IsFor(p, loaded, r.key, j);
    }
    assert MarksIn(p, loaded, [r], hit, w) == [];
    NoReading(p, hit, w);
  }

  lemma NoReading(p: Panel, hit: PeerKey, w: Way)
    ensures Books(p, p, hit, [], w)
  {
    assert Usage(CounterOf(p, hit, w), []) == 0;
    forall k ensures CounterOf(p, k, w) == EndOf(CounterOf(p, k, w), if k == hit then [] else []) {}
  }

  lemma NothingFound(p: Panel, loaded: set<PeerKey>, r: PeerReport, now: Time, psk: PeerKey -> Psk)
    requires !exists k: PeerKey ::
               IsFor(p, loaded, r.key, k) && ApplyReport(p, loaded, r, now, psk) == ApplyToPeer(p, k, r, now, psk)
    ensures ApplyReport(p, loaded, r, now, psk) == p && forall k :: !IsFor(p, loaded, r.key, k)
  {
  }

  lemma EntryBooks(p: Panel, loaded: set<PeerKey>, r: PeerReport, now: Time, psk: PeerKey -> Psk, w: Way)
    returns (hit: PeerKey)
    requires Loaded(p, loaded)
    ensures EntryIs(p, ApplyReport(p, loaded, r, now, psk), loaded, r, hit, w)
  {
    var q := ApplyReport(p, loaded, r, now, psk);
    if k: PeerKey :| IsFor(p, loaded, r.key, k) && q == ApplyToPeer(p, k, r, now, psk) {
      hit := k;
      EntryFound(p, loaded, r, now, psk, k, w);
    } else {
      NothingFound(p, loaded, r, now, psk);
      hit := PeerKey(0, 0);
      EntryMissed(p, loaded, r, hit, w);
    }
  }

  lemma MarksSplit(p: Panel, loaded: set<PeerKey>, reports: seq<PeerReport>, k: PeerKey, w: Way)
    requires reports != []
    ensures MarksIn(p, loaded, reports, k, w)
         == MarksIn(p, loaded, [reports[0]], k, w) + MarksIn(p, loaded, reports[1..], k, w)
  {
    MarksOfEntry(p, loaded, reports[0], k, w);
  }

  /** The usage that marks show of each of some peers. */
  function UsageIn(p: Panel, loaded: set<PeerKey>, reports: seq<PeerReport>, ks: set<PeerKey>, w: Way)
    : map<PeerKey, nat>
  {
    map k | k in ks :: Usage(CounterOf(p, k, w), MarksIn(p, loaded, reports, k, w))
  }

  /** Only peers of the account, and all of them among those loaded. */
  ghost predicate Covers(p: Panel, loaded: set<PeerKey>, u: UserId, ks: set<PeerKey>) {
    && (forall k | k in ks && k.device in p.devices :: p.devices[k.device].owner == u)
    && (forall k | k in loaded && k.device in p.devices && p.devices[k.device].owner == u :: k in ks)
  }

  /** What a report does to a counter of each peer, and to one account's lifetime. */
  ghost predicate ReportBooked(p: Panel, q: Panel, loaded: set<PeerKey>, reports: seq<PeerReport>, u: UserId,
                               ks: set<PeerKey>, w: Way) {
    && SameRows(p, q)
    && (forall k :: CounterOf(q, k, w) == EndOf(CounterOf(p, k, w), MarksIn(p, loaded, reports, k, w)))
    && Lifetime(q, u, w) == Lifetime(p, u, w) + Sum(UsageIn(p, loaded, reports, ks, w), ks)
  }

  lemma OthersUnmoved(p: Panel, m: Panel, loaded: set<PeerKey>, reports: seq<PeerReport>, hit: PeerKey, k: PeerKey,
                      w: Way)
    requires reports != [] && EntryIs(p, m, loaded, reports[0], hit, w) && k != hit
    ensures CounterOf(m, k, w) == CounterOf(p, k, w)
    ensures MarksIn(m, loaded, reports[1..], k, w) == MarksIn(p, loaded, reports, k, w)
  {
    MarksSplit(p, loaded, reports, k, w);
    assert [] + MarksIn(p, loaded, reports[1..], k, w) == MarksIn(p, loaded, reports[1..], k, w);
  }

  lemma HitMoves(p: Panel, m: Panel, loaded: set<PeerKey>, reports: seq<PeerReport>, hit: PeerKey, w: Way)
    requires reports != [] && EntryIs(p, m, loaded, reports[0], hit, w)
    ensures Usage(CounterOf(p, hit, w), MarksIn(p, loaded, reports, hit, w))
         == Usage(CounterOf(p, hit, w), MarksIn(p, loaded, [reports[0]], hit, w))
            + Usage(CounterOf(m, hit, w), MarksIn(m, loaded, reports[1..], hit, w))
    ensures EndOf(CounterOf(m, hit, w), MarksIn(m, loaded, reports[1..], hit, w))
         == EndOf(CounterOf(p, hit, w), MarksIn(p, loaded, reports, hit, w))
  {
    MarksSplit(p, loaded, reports, hit, w);
    UsageAppends(CounterOf(p, hit, w), MarksIn(p, loaded, [reports[0]], hit, w),
                 MarksIn(p, loaded, reports[1..], hit, w));
  }

  lemma EntryMovesSum(p: Panel, m: Panel, loaded: set<PeerKey>, reports: seq<PeerReport>, ks: set<PeerKey>,
                      hit: PeerKey, w: Way)
    requires reports != [] && EntryIs(p, m, loaded, reports[0], hit, w)
    ensures Sum(UsageIn(p, loaded, reports, ks, w), ks) == Sum(UsageIn(m, loaded, reports[1..], ks, w), ks)
            + if hit in ks then Usage(CounterOf(p, hit, w), MarksIn(p, loaded, [reports[0]], hit, w)) else 0
  {
    var a, b := UsageIn(p, loaded, reports, ks, w), UsageIn(m, loaded, reports[1..], ks, w);
    forall k | k in ks && k != hit ensures a[k] == b[k] { OthersUnmoved(p, m, loaded, reports, hit, k, w); }
    HitMoves(p, m, loaded, reports, hit, w);
    SumMoves(a, b, ks, hit, Usage(CounterOf(p, hit, w), MarksIn(p, loaded, [reports[0]], hit, w)));
  }

  lemma EntryGrows(p: Panel, m: Panel, loaded: set<PeerKey>, r: PeerReport, u: UserId, ks: set<PeerKey>, hit: PeerKey,
                   w: Way)
    requires EntryIs(p, m, loaded, r, hit, w) && Covers(p, loaded, u, ks)
    ensures Lifetime(m, u, w) == Lifetime(p, u, w)
            + if hit in ks then Usage(CounterOf(p, hit, w), MarksIn(p, loaded, [r], hit, w)) else 0
  {
  }

  /** The first entry and then the rest. */
  lemma EntryThenRest(p: Panel, m: Panel, q: Panel, loaded: set<PeerKey>, reports: seq<PeerReport>, u: UserId,
                      ks: set<PeerKey>, hit: PeerKey, w: Way)
    requires reports != [] && EntryIs(p, m, loaded, reports[0], hit, w) && Covers(p, loaded, u, ks)
    requires ReportBooked(m, q, loaded, reports[1..], u, ks, w)
    ensures ReportBooked(p, q, loaded, reports, u, ks, w)
  {
    forall k ensures CounterOf(q, k, w) == EndOf(CounterOf(p, k, w), MarksIn(p, loaded, reports, k, w)) {
      if k == hit { HitMoves(p, m, loaded, reports, hit, w); } else { OthersUnmoved(p, m, loaded, reports, hit, k, w); }
      assert CounterOf(q, k, w) == EndOf(CounterOf(m, k, w), MarksIn(m, loaded, reports[1..], k, w));
    }
    EntryMovesSum(p, m, loaded, reports, ks, hit, w);
    EntryGrows(p, m, loaded, reports[0], u, ks, hit, w);
  }

  lemma {:induction false} ReportBooks(p: Panel, loaded: set<PeerKey>, reports: seq<PeerReport>, now: Time,
                                       psk: PeerKey -> Psk, u: UserId, ks: set<PeerKey>, w: Way)
    requires Loaded(p, loaded) && Covers(p, loaded, u, ks)
    ensures ReportBooked(p, ApplyReports(p, loaded, reports, now, psk), loaded, reports, u, ks, w)
    decreases |reports|
  {
    if reports == [] {
      SumZero(UsageIn(p, loaded, reports, ks, w), ks);
    } else {
      var m := ApplyReport(p, loaded, reports[0], now, psk);
      var hit := EntryBooks(p, loaded, reports[0], now, psk, w);
      ReportBooks(m, loaded, reports[1..], now, psk, u, ks, w);
      EntryThenRest(p, m, ApplyReports(p, loaded, reports, now, psk), loaded, reports, u, ks, hit, w);
    }
  }

  // --- one step -------------------------------------------------------------

  /** What the reports of a step say about a counter. */
  function Heard(p: Panel, s: Step, k: PeerKey, w: Way): seq<Mark> {
    if (s.SyncStep? || s.HeartbeatStep?) && s.ok && s.node in p.nodes
    then MarksIn(p, PeersOn(p, s.node), s.reports, k, w) else []
  }

  /** What a step means for a counter: what its reports say, and whether the peer's row is there afterwards. */
  function MarksOf(p: Panel, s: Step, q: Panel, k: PeerKey, w: Way): seq<Mark> {
    Heard(p, s, k, w) + if k in q.peers then [] else [Gone]
  }

  ghost function History(hosts: seq<Ip>, p: Panel, steps: seq<Step>, k: PeerKey, w: Way): seq<Mark> {
    if steps == [] then []
    else
      var before := steps[..|steps| - 1];
      History(hosts, p, before, k, w)
      + MarksOf(Run(hosts, p, before), steps[|steps| - 1], Run(hosts, p, steps), k, w)
  }

  /** An administrator resets the account's traffic; refused for a managed account. */
  predicate Resets(p: Panel, s: Step, u: UserId) {
    s.EditStep? && s.user == u && s.edit.ResetTraffic? && u in p.users && p.users[u].profile.None?
  }

  /** Rows may go or come without readings; nothing is booked for the account. */
  ghost predicate Trims(p: Panel, q: Panel, u: UserId, w: Way) {
    && (forall k :: CounterOf(q, k, w) == if k in q.peers then CounterOf(p, k, w) else None)
    && Lifetime(q, u, w) == Lifetime(p, u, w)
  }

  lemma TrimsChain(p: Panel, m: Panel, q: Panel, u: UserId, w: Way)
    requires Trims(p, m, u, w) && Trims(m, q, u, w) && q.peers.Keys <= m.peers.Keys
    ensures Trims(p, q, u, w)
  {
    forall k ensures CounterOf(q, k, w) == if k in q.peers then CounterOf(p, k, w) else None {
      assert CounterOf(q, k, w) == if k in q.peers then CounterOf(m, k, w) else None;
    }
  }

  lemma RemovalTrims(p: Panel, us: set<UserId>, u: UserId, w: Way)
    requires u !in us
    ensures Trims(p, RemoveUsers(p, us), u, w) && RemoveUsers(p, us).peers.Keys <= p.peers.Keys
  {
  }

  lemma PurgeTrims(p: Panel, u: UserId, w: Way)
    requires u in PurgeConfirmed(p).users
    ensures Trims(p, PurgeConfirmed(p), u, w) && PurgeConfirmed(p).peers.Keys <= p.peers.Keys
  {
    RemovalTrims(p, (set v | v in p.users && PurgeDue(p, v)), u, w);
  }

  lemma ReconcileTrims(p: Panel, missing: set<UserId>, u: UserId, w: Way)
    requires u in PurgeConfirmed(MarkStale(p, missing)).users
    ensures Trims(p, PurgeConfirmed(MarkStale(p, missing)), u, w)
  {
    var m := MarkStale(p, missing);
    assert Trims(p, m, u, w);
    PurgeTrims(m, u, w);
    TrimsChain(p, m, PurgeConfirmed(m), u, w);
  }

  lemma BlockTrims(p: Panel, v: UserId, row: User, u: UserId, w: Way)
    ensures Trims(p, BlockOwner(p, v, row), u, w) && BlockOwner(p, v, row).peers.Keys == p.peers.Keys
  {
  }

  lemma RecoverTrims(p: Panel, v: UserId, row: User, psk: PeerKey -> Psk, u: UserId, w: Way)
    ensures Trims(p, UnblockOwner(p, v, row), u, w) && Trims(p, RecoverOwner(p, v, row, psk), u, w)
  {
  }

  lemma PassTrims(p: Panel, v: UserId, total: nat, now: Time, psk: PeerKey -> Psk, u: UserId, w: Way)
    requires v in p.users
    ensures Trims(p, ApplyLocal(p, v, total, now, psk), u, w)
  {
    var row := p.users[v].(lifecycle := DesiredStatus(p.users[v], total, now));
    BlockTrims(p, v, row, u, w);
    RecoverTrims(p, v, row, psk, u, w);
  }

  /** Rows of accounts and profiles are no concern of the counters, nor is another account's reset. */
  lemma SamePeersTrim(p: Panel, m: Panel, q: Panel, u: UserId, w: Way)
    requires m.peers == p.peers && Lifetime(m, u, w) == Lifetime(p, u, w) && Trims(m, q, u, w)
    ensures Trims(p, q, u, w)
  {
    forall k ensures CounterOf(q, k, w) == if k in q.peers then CounterOf(p, k, w) else None {
      assert CounterOf(m, k, w) == CounterOf(p, k, w);
    }
  }

  lemma EditTrims(p: Panel, v: UserId, edit: LocalEdit, now: Time, psk: PeerKey -> Psk, u: UserId, w: Way)
    requires !(v == u && edit.ResetTraffic? && u in p.users && p.users[u].profile.None?)
    ensures Trims(p, EditLocal(p, v, edit, now, psk), u, w)
  {
    if v in p.users && p.users[v].profile.None? {
      match edit
      case Block => StoredTrims(p, v, p.users[v].(lifecycle := LifeBlocked), now, psk, u, w);
      case Unblock => StoredTrims(p, v, p.users[v].(lifecycle := LifeActive), now, psk, u, w);
      case SetLimits(e, l) => StoredTrims(p, v, p.users[v].(expireAt := e, limitBytes := l), now, psk, u, w);
      case ResetTraffic => ResetTrims(p, v, now, psk, u, w);
    }
  }

  lemma StoredTrims(p: Panel, v: UserId, row: User, now: Time, psk: PeerKey -> Psk, u: UserId, w: Way)
    requires v in p.users
    ensures Trims(p, ApplyLocal(p.(users := p.users[v := row]), v, LifetimeTotal(p, v), now, psk), u, w)
  {
    var m := p.(users := p.users[v := row]);
    PassTrims(m, v, LifetimeTotal(p, v), now, psk, u, w);
    SamePeersTrim(p, m, ApplyLocal(m, v, LifetimeTotal(p, v), now, psk), u, w);
  }

  lemma ResetTrims(p: Panel, v: UserId, now: Time, psk: PeerKey -> Psk, u: UserId, w: Way)
    requires v in p.users && v != u
    ensures Trims(p, ApplyLocal(p.(ledger := ResetUsage(p.ledger, v, DayOf(now))), v, 0, now, psk), u, w)
  {
    var m := p.(ledger := ResetUsage(p.ledger, v, DayOf(now)));
    PassTrims(m, v, 0, now, psk, u, w);
    SamePeersTrim(p, m, ApplyLocal(m, v, 0, now, psk), u, w);
  }

  lemma RemotePassTrims(p: Panel, v: UserId, data: Profile, now: Time, psk: PeerKey -> Psk, u: UserId, w: Way)
    requires v in p.users
    ensures Trims(p, ApplyRemote(p, v, data, now, psk), u, w)
  {
    BlockTrims(p, v, p.users[v], u, w);
    RecoverTrims(p, v, p.users[v], psk, u, w);
  }

  lemma CombinedTrims(p: Panel, v: UserId, u: UserId, w: Way)
    requires v in p.users
    ensures Trims(p, EnforceCombined(p, v), u, w) && EnforceCombined(p, v).peers.Keys == p.peers.Keys
  {
    BlockTrims(p, v, p.users[v], u, w);
  }

  lemma ImportTrims(p: Panel, m: Panel, v: UserId, data: Profile, u: UserId, w: Way)
    requires v in m.users && Trims(p, m, u, w)
    ensures Trims(p, EnforceCombined(StoreProfile(m, v, data), v), u, w)
  {
    var r := StoreProfile(m, v, data);
    CombinedTrims(r, v, u, w);
    SamePeersTrim(m, r, EnforceCombined(r, v), u, w);
    TrimsChain(p, m, EnforceCombined(r, v), u, w);
  }

  lemma UpsertTrims(p: Panel, v: UserId, data: Profile, now: Time, psk: PeerKey -> Psk, u: UserId, w: Way)
    ensures Trims(p, UpsertRemote(p, v, data, now, psk), u, w)
  {
    if v in p.users {
      RemotePassTrims(p, v, data, now, psk, u, w);
      ImportTrims(p, ApplyRemote(p, v, data, now, psk), v, data, u, w);
    } else {
      var row := User(RemoteBlocked(data, now), LifeActive, None, 0, 0, None);
      ImportTrims(p, p.(users := p.users[v := row]), v, data, u, w);
    }
  }

  lemma CreateTrims(hosts: seq<Ip>, p: Panel, s: Step, u: UserId, w: Way)
    requires s.CreateStep? || s.DeleteStep? || s.AddNodeStep? || s.RemoveNodeStep?
    ensures Trims(p, Apply(hosts, p, s), u, w)
  {
  }

  lemma AccountTrims(hosts: seq<Ip>, p: Panel, s: Step, u: UserId, w: Way)
    requires s.RequestDeleteStep? || s.AddUserStep? || s.SetDeviceLimitStep? || s.RemoveUserStep?
    requires u in Apply(hosts, p, s).users && u in p.users
    ensures Trims(p, Apply(hosts, p, s), u, w)
  {
    if s.RemoveUserStep? && s.user != u { RemovalTrims(p, {s.user}, u, w); }
  }

  lemma StepTrims(hosts: seq<Ip>, p: Panel, s: Step, u: UserId, w: Way)
    requires !s.SyncStep? && !s.HeartbeatStep? && !Resets(p, s, u)
    requires u in p.users && u in Apply(hosts, p, s).users
    ensures Trims(p, Apply(hosts, p, s), u, w)
  {
    if s.EditStep? { EditTrims(p, s.user, s.edit, s.now, s.psk, u, w); }
    else if s.UpsertStep? { UpsertTrims(p, s.user, s.data, s.now, s.psk, u, w); }
    else if s.ReconcileStep? { ReconcileTrims(p, s.missing, u, w); }
    else if s.CreateStep? || s.DeleteStep? || s.AddNodeStep? || s.RemoveNodeStep? { CreateTrims(hosts, p, s, u, w); }
    else { AccountTrims(hosts, p, s, u, w); }
  }

  lemma ConfirmTrims(p: Panel, loaded: set<PeerKey>, seen: set<Key>, u: UserId, w: Way)
    ensures var b := ConfirmAbsent(p, loaded, seen); var c := ReleaseDeviceIps(b, ReleaseCandidates(b, loaded));
            Trims(p, c, u, w) && c.peers.Keys == p.peers.Keys
  {
  }

  /** A report step: the readings, and then rows at most go. */
  lemma SyncReads(p: Panel, n: NodeId, reports: seq<PeerReport>, now: Time, psk: PeerKey -> Psk, u: UserId,
                  ks: set<PeerKey>, w: Way)
    returns (m: Panel)
    requires Committed(p) && n in p.nodes && Covers(p, p.peers.Keys, u, ks)
    requires u in SyncResult(p, n, true, reports, now, psk).users
    ensures ReportBooked(p, m, PeersOn(p, n), reports, u, ks, w)
    ensures Trims(m, SyncResult(p, n, true, reports, now, psk), u, w)
  {
    var loaded := PeersOn(p, n);
    m := ApplyReports(p, loaded, reports, now, psk);
    ReportBooks(p, loaded, reports, now, psk, u, ks, w);
    ConfirmTrims(m, loaded, ReportedKeys(reports), u, w);
    var b := ConfirmAbsent(m, loaded, ReportedKeys(reports));
    var c := ReleaseDeviceIps(b, ReleaseCandidates(b, loaded));
    PurgeTrims(c, u, w);
    TrimsChain(m, c, PurgeConfirmed(c), u, w);
  }

  /** The usage that a step's marks show of each of some peers. */
  function UsageOfStep(p: Panel, s: Step, q: Panel, ks: set<PeerKey>, w: Way): map<PeerKey, nat> {
    map k | k in ks :: Usage(CounterOf(p, k, w), MarksOf(p, s, q, k, w))
  }

  /** What a step does to a counter of each peer, and to one account's lifetime. */
  ghost predicate StepBooked(p: Panel, s: Step, q: Panel, u: UserId, ks: set<PeerKey>, w: Way) {
    && (forall k :: CounterOf(q, k, w) == EndOf(CounterOf(p, k, w), MarksOf(p, s, q, k, w)))
    && Lifetime(q, u, w) == Lifetime(p, u, w) + Sum(UsageOfStep(p, s, q, ks, w), ks)
  }

  /** Whether the row is there afterwards adds nothing to what was heard. */
  lemma MarksAreHeard(p: Panel, s: Step, q: Panel, k: PeerKey, w: Way)
    ensures Usage(CounterOf(p, k, w), MarksOf(p, s, q, k, w)) == Usage(CounterOf(p, k, w), Heard(p, s, k, w))
    ensures EndOf(CounterOf(p, k, w), MarksOf(p, s, q, k, w))
         == if k in q.peers then EndOf(CounterOf(p, k, w), Heard(p, s, k, w)) else None
  {
    var heard := Heard(p, s, k, w);
    assert heard + [] == heard;
    UsageNext(CounterOf(p, k, w), heard, Gone);
  }

  lemma HeardThenTrimmed(p: Panel, s: Step, m: Panel, q: Panel, u: UserId, ks: set<PeerKey>, w: Way,
                         heard: map<PeerKey, nat>)
    requires heard == map k | k in ks :: Usage(CounterOf(p, k, w), Heard(p, s, k, w))
    requires forall k :: CounterOf(m, k, w) == EndOf(CounterOf(p, k, w), Heard(p, s, k, w))
    requires Lifetime(m, u, w) == Lifetime(p, u, w) + Sum(heard, ks) && Trims(m, q, u, w)
    ensures StepBooked(p, s, q, u, ks, w)
  {
    forall k ensures CounterOf(q, k, w) == EndOf(CounterOf(p, k, w), MarksOf(p, s, q, k, w)) {
      MarksAreHeard(p, s, q, k, w);
      assert CounterOf(q, k, w) == if k in q.peers then CounterOf(m, k, w) else None;
    }
    var booked := UsageOfStep(p, s, q, ks, w);
    forall k | k in ks ensures booked[k] == heard[k] { MarksAreHeard(p, s, q, k, w); }
    SumSame(booked, heard, ks);
  }

  lemma SilentStepBooks(p: Panel, s: Step, q: Panel, u: UserId, ks: set<PeerKey>, w: Way)
    requires Trims(p, q, u, w) && forall k :: Heard(p, s, k, w) == []
    ensures StepBooked(p, s, q, u, ks, w)
  {
    var heard := map k | k in ks :: Usage(CounterOf(p, k, w), Heard(p, s, k, w));
    forall k | k in ks ensures heard[k] == 0 { assert Heard(p, s, k, w) == []; }
    SumZero(heard, ks);
    forall k ensures CounterOf(p, k, w) == EndOf(CounterOf(p, k, w), Heard(p, s, k, w)) {}
    HeardThenTrimmed(p, s, p, q, u, ks, w, heard);
  }

  lemma HeardIsUsage(p: Panel, s: Step, ks: set<PeerKey>, w: Way)
    requires (s.SyncStep? || s.HeartbeatStep?) && s.ok && s.node in p.nodes
    ensures UsageIn(p, PeersOn(p, s.node), s.reports, ks, w)
         == map k | k in ks :: Usage(CounterOf(p, k, w), Heard(p, s, k, w))
  {
  }

  lemma SyncStepBooks(hosts: seq<Ip>, p: Panel, s: Step, u: UserId, ks: set<PeerKey>, w: Way)
    requires Committed(p) && s.SyncStep? && s.ok && s.node in p.nodes
    requires Covers(p, p.peers.Keys, u, ks) && u in Apply(hosts, p, s).users
    ensures StepBooked(p, s, Apply(hosts, p, s), u, ks, w)
  {
    HeardIsUsage(p, s, ks, w);
    var m := SyncReads(p, s.node, s.reports, s.now, s.psk, u, ks, w);
    HeardThenTrimmed(p, s, m, Apply(hosts, p, s), u, ks, w, UsageIn(p, PeersOn(p, s.node), s.reports, ks, w));
  }

  lemma HeartbeatStepBooks(hosts: seq<Ip>, p: Panel, s: Step, u: UserId, ks: set<PeerKey>, w: Way)
    requires Committed(p) && s.HeartbeatStep? && s.ok && s.node in p.nodes && Covers(p, p.peers.Keys, u, ks)
    ensures StepBooked(p, s, Apply(hosts, p, s), u, ks, w)
  {
    var loaded, m := PeersOn(p, s.node), Apply(hosts, p, s);
    HeardIsUsage(p, s, ks, w);
    ReportBooks(p, loaded, s.reports, s.now, s.psk, u, ks, w);
    NothingTrimmed(m, u, w);
    HeardThenTrimmed(p, s, m, m, u, ks, w, UsageIn(p, loaded, s.reports, ks, w));
  }

  lemma NothingTrimmed(p: Panel, u: UserId, w: Way)
    ensures Trims(p, p, u, w)
  {
  }

  /** One transaction: the account's lifetime grows by the usage its peers' readings show. */
  lemma StepUsage(hosts: seq<Ip>, p: Panel, s: Step, u: UserId, ks: set<PeerKey>, w: Way)
    requires Committed(p) && Covers(p, p.peers.Keys, u, ks) && !Resets(p, s, u)
    requires u in p.users && u in Apply(hosts, p, s).users
    ensures StepBooked(p, s, Apply(hosts, p, s), u, ks, w)
  {
    if s.SyncStep? || s.HeartbeatStep? {
      if s.ok && s.node in p.nodes {
        if s.SyncStep? { SyncStepBooks(hosts, p, s, u, ks, w); } else { HeartbeatStepBooks(hosts, p, s, u, ks, w); }
      } else {
        NothingTrimmed(p, u, w);
        SilentStepBooks(p, s, Apply(hosts, p, s), u, ks, w);
      }
    } else {
      StepTrims(hosts, p, s, u, w);
      SilentStepBooks(p, s, Apply(hosts, p, s), u, ks, w);
    }
  }

  // --- runs -----------------------------------------------------------------

  /** The account stays and its traffic is not reset. */
  ghost predicate Unreset(hosts: seq<Ip>, p: Panel, steps: seq<Step>, u: UserId) {
    && (forall i | 0 <= i <= |steps| :: u in Run(hosts, p, steps[..i]).users)
    && (forall i | 0 <= i < |steps| :: !Resets(Run(hosts, p, steps[..i]), steps[i], u))
  }

  ghost function PeersNow(p: Panel, u: UserId): set<PeerKey> {
    set k | k in p.peers && k.device in p.devices && p.devices[k.device].owner == u
  }

  /** Every peer the account has at some point of the run. */
  ghost function PeersEver(hosts: seq<Ip>, p: Panel, steps: seq<Step>, u: UserId): set<PeerKey> {
    PeersNow(Run(hosts, p, steps), u) + if steps == [] then {} else PeersEver(hosts, p, steps[..|steps| - 1], u)
  }

  ghost predicate CoversRun(hosts: seq<Ip>, p: Panel, steps: seq<Step>, u: UserId, ks: set<PeerKey>) {
    forall i | 0 <= i <= |steps| :: Covers(Run(hosts, p, steps[..i]), Run(hosts, p, steps[..i]).peers.Keys, u, ks)
  }

  /** The usage that the run's reports show of each of some peers. */
  ghost function UsageOfRun(hosts: seq<Ip>, p: Panel, steps: seq<Step>, ks: set<PeerKey>, w: Way): map<PeerKey, nat> {
    map k | k in ks :: Usage(CounterOf(p, k, w), History(hosts, p, steps, k, w))
  }

  /** What the run did to a counter of each peer, and to the account's lifetime. */
  ghost predicate RunBooked(hosts: seq<Ip>, p: Panel, steps: seq<Step>, u: UserId, ks: set<PeerKey>, w: Way) {
    && (forall k :: CounterOf(Run(hosts, p, steps), k, w) == EndOf(CounterOf(p, k, w), History(hosts, p, steps, k, w)))
    && Lifetime(Run(hosts, p, steps), u, w) == Lifetime(p, u, w) + Sum(UsageOfRun(hosts, p, steps, ks, w), ks)
  }

  lemma UsageThenStep(hosts: seq<Ip>, p: Panel, before: seq<Step>, s: Step, after: seq<Step>, u: UserId,
                      ks: set<PeerKey>, w: Way)
    requires after == before + [s] && RunBooked(hosts, p, before, u, ks, w)
    requires StepBooked(Run(hosts, p, before), s, Run(hosts, p, after), u, ks, w)
    ensures RunBooked(hosts, p, after, u, ks, w)
  {
    var m, q := Run(hosts, p, before), Run(hosts, p, after);
    assert after[..|after| - 1] == before;
    forall k
      ensures CounterOf(q, k, w) == EndOf(CounterOf(p, k, w), History(hosts, p, after, k, w))
      ensures Usage(CounterOf(p, k, w), History(hosts, p, after, k, w))
           == Usage(CounterOf(p, k, w), History(hosts, p, before, k, w))
              + Usage(CounterOf(m, k, w), MarksOf(m, s, q, k, w))
    {
      UsageAppends(CounterOf(p, k, w), History(hosts, p, before, k, w), MarksOf(m, s, q, k, w));
      assert CounterOf(m, k, w) == EndOf(CounterOf(p, k, w), History(hosts, p, before, k, w));
    }
    SumPlus(UsageOfRun(hosts, p, after, ks, w), UsageOfRun(hosts, p, before, ks, w), UsageOfStep(m, s, q, ks, w), ks);
  }

  lemma {:induction false} UsageOfRunOf(hosts: seq<Ip>, p: Panel, steps: seq<Step>, n: nat, u: UserId, ks: set<PeerKey>,
                                        w: Way)
    requires n <= |steps|
    requires Committed(p) && Possible(hosts, p, steps)
    requires Unreset(hosts, p, steps, u) && CoversRun(hosts, p, steps, u, ks)
    ensures RunBooked(hosts, p, steps[..n], u, ks, w)
    decreases n
  {
    if n == 0 { NothingRun(hosts, p, steps[..n], u, ks, w); } else {
      var m := n - 1;
      UsageOfRunOf(hosts, p, steps, m, u, ks, w);
      StepOfRun(hosts, p, steps, m, u, ks, w);
      UsageOneMore(hosts, p, steps, m, u, ks, w);
    }
  }

  lemma NothingRun(hosts: seq<Ip>, p: Panel, steps: seq<Step>, u: UserId, ks: set<PeerKey>, w: Way)
    requires steps == []
    ensures RunBooked(hosts, p, steps, u, ks, w)
  {
    SumZero(UsageOfRun(hosts, p, steps, ks, w), ks);
  }

  lemma OneMore(steps: seq<Step>, i: nat)
    requires i < |steps|
    ensures steps[..i + 1] == steps[..i] + [steps[i]]
  {
  }

  lemma UsageOneMore(hosts: seq<Ip>, p: Panel, steps: seq<Step>, i: nat, u: UserId, ks: set<PeerKey>, w: Way)
    requires i < |steps| && RunBooked(hosts, p, steps[..i], u, ks, w)
    requires StepBooked(Run(hosts, p, steps[..i]), steps[i], Run(hosts, p, steps[..i + 1]), u, ks, w)
    ensures RunBooked(hosts, p, steps[..i + 1], u, ks, w)
  {
    OneMore(steps, i);
    UsageThenStep(hosts, p, steps[..i], steps[i], steps[..i + 1], u, ks, w);
  }

  lemma StepOfRun(hosts: seq<Ip>, p: Panel, steps: seq<Step>, i: nat, u: UserId, ks: set<PeerKey>, w: Way)
    requires i < |steps|
    requires Committed(p) && Possible(hosts, p, steps)
    requires Unreset(hosts, p, steps, u) && CoversRun(hosts, p, steps, u, ks)
    ensures StepBooked(Run(hosts, p, steps[..i]), steps[i], Run(hosts, p, steps[..i + 1]), u, ks, w)
  {
    NextInRun(hosts, p, steps, i);
    StateOfRun(hosts, p, steps, i);
    StepUsage(hosts, Run(hosts, p, steps[..i]), steps[i], u, ks, w);
  }

  lemma NextInRun(hosts: seq<Ip>, p: Panel, steps: seq<Step>, i: nat)
    requires i < |steps|
    ensures Run(hosts, p, steps[..i + 1]) == Apply(hosts, Run(hosts, p, steps[..i]), steps[i])
  {
    assert steps[..i + 1][..i] == steps[..i];
  }

  lemma StateOfRun(hosts: seq<Ip>, p: Panel, steps: seq<Step>, i: nat)
    requires Committed(p) && Possible(hosts, p, steps) && i <= |steps|
    ensures Committed(Run(hosts, p, steps[..i])) && HistoryKept(p, Run(hosts, p, steps[..i]))
  {
    assert Possible(hosts, p, steps[..i]) by {
      assert forall m | 0 <= m < i :: steps[..i][..m] == steps[..m];
    }
    RunKeeps(hosts, p, steps[..i]);
  }

  // --- every peer the account ever had --------------------------------------

  /** Between two states of a run history is kept. */
  lemma {:induction false} HistoryBetween(hosts: seq<Ip>, p: Panel, steps: seq<Step>, i: nat, j: nat)
    requires Committed(p) && Possible(hosts, p, steps) && i <= j <= |steps|
    ensures HistoryKept(Run(hosts, p, steps[..i]), Run(hosts, p, steps[..j]))
    decreases j
  {
    if i < j {
      var m := j - 1;
      HistoryBetween(hosts, p, steps, i, m);
      HistoryOneMore(hosts, p, steps, i, m);
    } else {
      StateOfRun(hosts, p, steps, j);
      SamePanelKeeps(Run(hosts, p, steps[..j]));
    }
  }

  lemma HistoryOneMore(hosts: seq<Ip>, p: Panel, steps: seq<Step>, i: nat, j: nat)
    requires Committed(p) && Possible(hosts, p, steps) && i <= j < |steps|
    requires HistoryKept(Run(hosts, p, steps[..i]), Run(hosts, p, steps[..j]))
    ensures HistoryKept(Run(hosts, p, steps[..i]), Run(hosts, p, steps[..j + 1]))
  {
    StateOfRun(hosts, p, steps, i);
    StateOfRun(hosts, p, steps, j);
    NextInRun(hosts, p, steps, j);
    StepKeeps(hosts, Run(hosts, p, steps[..j]), steps[j]);
    HistoryChains(Run(hosts, p, steps[..i]), Run(hosts, p, steps[..j]), Run(hosts, p, steps[..j + 1]));
  }

  /** Devices keep their owner over a run. */
  lemma OwnersStay(hosts: seq<Ip>, p: Panel, steps: seq<Step>, i: nat, j: nat, d: DeviceId)
    requires Committed(p) && Possible(hosts, p, steps) && i <= j <= |steps|
    requires d in Run(hosts, p, steps[..i]).devices && d in Run(hosts, p, steps[..j]).devices
    ensures Run(hosts, p, steps[..j]).devices[d].owner == Run(hosts, p, steps[..i]).devices[d].owner
  {
    HistoryBetween(hosts, p, steps, i, j);
  }

  lemma {:induction false} PeersEverAt(hosts: seq<Ip>, p: Panel, steps: seq<Step>, u: UserId, k: PeerKey)
    ensures k in PeersEver(hosts, p, steps, u)
       <==> exists i :: 0 <= i <= |steps| && k in PeersNow(Run(hosts, p, steps[..i]), u)
  {
    assert steps[..|steps|] == steps;
    if steps != [] {
      var init := steps[..|steps| - 1];
      PeersEverAt(hosts, p, init, u, k);
      assert forall i | 0 <= i <= |init| :: init[..i] == steps[..i];
    }
  }

  lemma PeersEverCover(hosts: seq<Ip>, p: Panel, steps: seq<Step>, u: UserId)
    requires Committed(p) && Possible(hosts, p, steps)
    ensures CoversRun(hosts, p, steps, u, PeersEver(hosts, p, steps, u))
  {
    var ks := PeersEver(hosts, p, steps, u);
    forall j | 0 <= j <= |steps|
      ensures Covers(Run(hosts, p, steps[..j]), Run(hosts, p, steps[..j]).peers.Keys, u, ks)
    {
      var q := Run(hosts, p, steps[..j]);
      forall k | k in ks && k.device in q.devices ensures q.devices[k.device].owner == u {
        PeersEverAt(hosts, p, steps, u, k);
        var i :| 0 <= i <= |steps| && k in PeersNow(Run(hosts, p, steps[..i]), u);
        if i <= j { OwnersStay(hosts, p, steps, i, j, k.device); } else { OwnersStay(hosts, p, steps, j, i, k.device); }
      }
      forall k | k in q.peers && k.device in q.devices && q.devices[k.device].owner == u ensures k in ks {
        PeersEverAt(hosts, p, steps, u, k);
        assert k in PeersNow(q, u);
      }
    }
  }

  /**
   Every byte is accounted for. Over every run in which the account stays and is not reset, its lifetime
   grows, for the bytes received and for the bytes sent, by what the counters of all its peers went up by
   according to their readings.
   */
  lemma LifetimeIsReadings(hosts: seq<Ip>, p: Panel, steps: seq<Step>, u: UserId, w: Way)
    requires Committed(p) && Possible(hosts, p, steps) && Unreset(hosts, p, steps, u)
    ensures var ks := PeersEver(hosts, p, steps, u);
            Lifetime(Run(hosts, p, steps), u, w) == Lifetime(p, u, w) + Sum(UsageOfRun(hosts, p, steps, ks, w), ks)
  {
    PeersEverCover(hosts, p, steps, u);
    UsageOfRunOf(hosts, p, steps, |steps|, u, PeersEver(hosts, p, steps, u), w);
    assert steps[..|steps|] == steps;
  }

  lemma ResetEmpties(hosts: seq<Ip>, p: Panel, reset: Step, u: UserId, w: Way)
    requires Resets(p, reset, u)
    ensures Lifetime(Apply(hosts, p, reset), u, w) == 0
  {
    ResetTakesExactly(p.ledger, u, DayOf(reset.now));
  }

  /** Since a reset, the lifetime is exactly what its peers' readings show since then. */
  lemma LifetimeSinceReset(hosts: seq<Ip>, p: Panel, reset: Step, steps: seq<Step>, u: UserId, w: Way)
    requires Committed(p) && Enabled(p, reset) && Resets(p, reset, u)
    requires Possible(hosts, Apply(hosts, p, reset), steps) && Unreset(hosts, Apply(hosts, p, reset), steps, u)
    ensures var m := Apply(hosts, p, reset); var ks := PeersEver(hosts, m, steps, u);
            Lifetime(Run(hosts, m, steps), u, w) == Sum(UsageOfRun(hosts, m, steps, ks, w), ks)
  {
    var m := Apply(hosts, p, reset);
    StepKeeps(hosts, p, reset);
    ResetEmpties(hosts, p, reset, u, w);
    LifetimeIsReadings(hosts, m, steps, u, w);
  }
}
