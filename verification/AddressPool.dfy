/**
 Allocating addresses when several requests do it at once: reading the used addresses and inserting the
 device are separate steps, the unique index is the only arbiter, and an attempt that loses is repeated
 a bounded number of times.
 */
module AddressPool {
  import opened Options
  import opened PanelModel
  import D = Devices

  const MAX_ATTEMPTS := 5

  type Request = nat

  /** One request: attempts begun so far, and what it last read and chose. */
  datatype Phase =
    | Ready(attempts: nat)
    | Chosen(attempts: nat, seen: set<Ip>, ip: Ip)
    | Done(ip: Ip)
    | Exhausted(seen: set<Ip>)
    | GaveUp

  /** The addresses held by devices, and the requests. A request's device has the request's number. */
  datatype Pool = Pool(held: map<DeviceId, Ip>, requests: map<Request, Phase>)

  datatype Event =
    | Arrive(r: Request)
    | Read(r: Request)
    | Insert(r: Request)
    | Free(d: DeviceId)

  function Used(p: Pool): set<Ip> {
    set d | d in p.held :: p.held[d]
  }

  predicate CanHappen(p: Pool, e: Event) {
    match e
    case Arrive(r) => r !in p.requests && r !in p.held
    case Read(r) => r in p.requests && p.requests[r].Ready?
    case Insert(r) => r in p.requests && p.requests[r].Chosen?
    case Free(d) => d in p.held
  }

  function After(hosts: seq<Ip>, p: Pool, e: Event): Pool
    requires CanHappen(p, e)
  {
    match e
    case Arrive(r) => p.(requests := p.requests[r := Ready(0)])
    case Read(r) =>
      var attempts := p.requests[r].attempts;
      var ip := D.AllocateIp(hosts, Used(p));
      p.(requests := p.requests[r :=
           if attempts >= MAX_ATTEMPTS then GaveUp
           else if ip.None? then Exhausted(Used(p))
           else Chosen(attempts + 1, Used(p), ip.value)])
    case Insert(r) =>
      var c := p.requests[r];
      if c.ip in Used(p) then p.(requests := p.requests[r := Ready(c.attempts)])
      else Pool(p.held[r := c.ip], p.requests[r := Done(c.ip)])
    case Free(d) => p.(held := p.held - {d})
  }

  ghost predicate IsRun(hosts: seq<Ip>, states: seq<Pool>, events: seq<Event>) {
    && |states| == |events| + 1
    && forall i | 0 <= i < |events| ::
        CanHappen(states[i], events[i]) && states[i + 1] == After(hosts, states[i], events[i])
  }

  // --- what holds in every state --------------------------------------------

  /** No two devices hold one address. */
  ghost predicate Unique(p: Pool) {
    forall d, e | d in p.held && e in p.held && d != e :: p.held[d] != p.held[e]
  }

  /** A choice is the least host after the gateway that was not in the set read. */
  predicate LeastFree(hosts: seq<Ip>, seen: set<Ip>, ip: Ip) {
    && ip !in seen
    && exists i | 1 <= i < |hosts| :: hosts[i] == ip && forall j | 1 <= j < i :: hosts[j] in seen
  }

  ghost predicate ChoicesOk(hosts: seq<Ip>, p: Pool) {
    forall r | r in p.requests ::
      match p.requests[r]
      case Chosen(attempts, seen, ip) => attempts <= MAX_ATTEMPTS && LeastFree(hosts, seen, ip)
      case Exhausted(seen) => forall i | 1 <= i < |hosts| :: hosts[i] in seen
      case Ready(attempts) => attempts <= MAX_ATTEMPTS
      case _ => true
  }

  lemma AllocationIsLeast(hosts: seq<Ip>, used: set<Ip>)
    ensures match D.AllocateIp(hosts, used)
            case None => forall i | 1 <= i < |hosts| :: hosts[i] in used
            case Some(ip) => LeastFree(hosts, used, ip)
  {
    if hosts != [] {
      D.FirstFreeIsLeast(hosts[1..], used);
      assert forall i | 1 <= i < |hosts| :: hosts[i] == hosts[1..][i - 1];
      if D.AllocateIp(hosts, used).Some? {
        var ip := D.AllocateIp(hosts, used).value;
        var i :| 0 <= i < |hosts[1..]| && hosts[1..][i] == ip && forall j | 0 <= j < i :: hosts[1..][j] in used;
        assert hosts[i + 1] == ip;
        forall j | 1 <= j < i + 1 ensures hosts[j] in used { assert hosts[1..][j - 1] in used; }
      }
    }
  }

  lemma EventKeeps(hosts: seq<Ip>, p: Pool, e: Event)
    requires CanHappen(p, e) && Unique(p) && ChoicesOk(hosts, p)
    ensures Unique(After(hosts, p, e)) && ChoicesOk(hosts, After(hosts, p, e))
  {
    if e.Read? { AllocationIsLeast(hosts, Used(p)); }
    if e.Insert? {
      assert forall d | d in p.held :: p.held[d] in Used(p);
    }
  }

  lemma {:induction false} RunKeeps(hosts: seq<Ip>, states: seq<Pool>, events: seq<Event>, i: nat)
    requires IsRun(hosts, states, events) && Unique(states[0]) && states[0].requests == map[] && i < |states|
    ensures Unique(states[i]) && ChoicesOk(hosts, states[i])
  {
    if i > 0 {
      RunKeeps(hosts, states, events, i - 1);
      EventKeeps(hosts, states[i - 1], events[i - 1]);
    }
  }

  /** The gateway is not handed out, when it is listed once. */
  lemma GatewayIsKept(hosts: seq<Ip>, seen: set<Ip>, ip: Ip)
    requires LeastFree(hosts, seen, ip) && forall i, j | 0 <= i < j < |hosts| :: hosts[i] != hosts[j]
    ensures ip != hosts[0]
  {
  }

  // --- why an attempt is lost -----------------------------------------------

  /** Between two states an address came into use: some request inserted it. */
  lemma {:induction false} SomebodyInserted(hosts: seq<Ip>, states: seq<Pool>, events: seq<Event>, i: nat, j: nat,
                                            ip: Ip)
    returns (k: nat)
    requires IsRun(hosts, states, events) && i <= j < |states|
    requires ip !in Used(states[i]) && ip in Used(states[j])
    ensures i <= k < j && events[k].Insert? && states[k].requests[events[k].r].Chosen?
    ensures states[k].requests[events[k].r].ip == ip && ip !in Used(states[k]) && ip in Used(states[k + 1])
    decreases j - i
  {
    if ip in Used(states[j - 1]) {
      k := SomebodyInserted(hosts, states, events, i, j - 1, ip);
    } else {
      k := j - 1;
      NewlyUsed(hosts, states[k], events[k], ip);
    }
  }

  lemma NewlyUsed(hosts: seq<Ip>, p: Pool, e: Event, ip: Ip)
    requires CanHappen(p, e) && ip !in Used(p) && ip in Used(After(hosts, p, e))
    ensures e.Insert? && p.requests[e.r].ip == ip
  {
    var d :| d in After(hosts, p, e).held && After(hosts, p, e).held[d] == ip;
    assert d in p.held ==> p.held[d] in Used(p);
  }

  /** The choice a request holds was made from a state earlier in the run. */
  lemma {:induction false} ChoiceWasRead(hosts: seq<Ip>, states: seq<Pool>, events: seq<Event>, j: nat, r: Request)
    returns (i: nat)
    requires IsRun(hosts, states, events) && states[0].requests == map[] && j < |states|
    requires r in states[j].requests && states[j].requests[r].Chosen?
    ensures i <= j && states[j].requests[r].seen == Used(states[i]) && states[j].requests[r].ip !in Used(states[i])
  {
    if j > 0 && r in states[j - 1].requests && states[j - 1].requests[r] == states[j].requests[r] {
      i := ChoiceWasRead(hosts, states, events, j - 1, r);
    } else {
      i := j - 1;
      assert events[i] == Read(r);
      AllocationIsLeast(hosts, Used(states[i]));
    }
  }

  /**
   An attempt is lost only because another request inserted that very address after this one had read
   the used set and before it inserted.
   */
  lemma LostToAnotherAllocator(hosts: seq<Ip>, states: seq<Pool>, events: seq<Event>, j: nat) returns (i: nat, k: nat)
    requires IsRun(hosts, states, events) && states[0].requests == map[] && j < |events|
    requires events[j].Insert? && states[j + 1].requests[events[j].r].Ready?
    ensures i <= k < j && events[k].Insert? && events[k].r != events[j].r
    ensures states[j].requests[events[j].r].seen == Used(states[i])
    ensures states[k].requests[events[k].r].Chosen?
              && states[k].requests[events[k].r].ip == states[j].requests[events[j].r].ip
  {
    var c := states[j].requests[events[j].r];
    i := ChoiceWasRead(hosts, states, events, j, events[j].r);
    k := SomebodyInserted(hosts, states, events, i, j, c.ip);
    if events[k].r == events[j].r {
      DoneStays(hosts, states, events, k + 1, j, events[j].r);
    }
  }

  lemma {:induction false} DoneStays(hosts: seq<Ip>, states: seq<Pool>, events: seq<Event>, i: nat, j: nat, r: Request)
    requires IsRun(hosts, states, events) && i <= j < |states| && r in states[i].requests && states[i].requests[r].Done?
    ensures r in states[j].requests && states[j].requests[r].Done?
    decreases j - i
  {
    if i < j {
      DoneStays(hosts, states, events, i, j - 1, r);
      assert CanHappen(states[j - 1], events[j - 1]);
    }
  }

  /** Exhaustion is reported exactly when every host but the gateway was in the set read. */
  lemma ExhaustedExactly(hosts: seq<Ip>, p: Pool, r: Request)
    requires CanHappen(p, Read(r)) && p.requests[r].attempts < MAX_ATTEMPTS
    ensures After(hosts, p, Read(r)).requests[r].Exhausted? <==> forall i | 1 <= i < |hosts| :: hosts[i] in Used(p)
  {
    AllocationIsLeast(hosts, Used(p));
  }
}
