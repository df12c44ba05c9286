/** EnsureLoadBalancer: listeners, pools, members and monitors brought in line with a
    service, and what is left over taken down. */
module LbEnsure {
  import opened Common
  import opened LbGraph
  import opened LbCloud
  import opened LbPop
  import opened LbMembers
  import opened LbDelete
  import opened LbUpdate

  datatype Config = Config(connLimit: int, createMonitor: bool)

  function Wanted(sp: ServicePort, cfg: Config): Listener {
    Listener(TCP, sp.port, cfg.connLimit)
  }

  /** Listener `l` and pool `p` are what service port `sp` asks for. */
  ghost predicate PortOk(g: Graph, l: Id, p: Id, sp: ServicePort, want: set<string>, cfg: Config) {
    && l in g.listeners && g.listeners[l] == Wanted(sp, cfg)
    && PoolsOf(g, l) == {p} && p in g.pools
    && PoolHolds(g, p, want, sp.nodePort)
    && (cfg.createMonitor ==> g.pools[p].monitor.Some?)
  }

  /** The ports handled so far, with the listener and pool of each. */
  ghost predicate Built(g: Graph, ports: seq<ServicePort>, ls: seq<Id>, ps: seq<Id>, want: set<string>, cfg: Config) {
    && |ls| == |ps| <= |ports| && NoDuplicates(ls)
    && forall i :: 0 <= i < |ls| ==> PortOk(g, ls[i], ps[i], ports[i], want, cfg)
  }

  /** The listeners are exactly those of the service ports, one each. */
  ghost predicate Converged(g: Graph, ports: seq<ServicePort>, ls: seq<Id>, ps: seq<Id>, want: set<string>, cfg: Config) {
    && Built(g, ports, ls, ps, want, cfg) && |ls| == |ports|
    && forall l :: l in g.listeners ==> l in ls
  }

  /** The listing slice holds the listeners no port has claimed yet. */
  ghost predicate Remaining(rest: seq<ListenerView>, g: Graph, kept: seq<Id>) {
    && NoDuplicates(rest)
    && (forall v :: v in rest <==> v.id in g.listeners && g.listeners[v.id] == v.listener && v.id !in kept)
    && (forall l :: l in kept ==> l in g.listeners)
  }

  /** Outside listener `l` and pool `p` nothing the service cares about differs. */
  ghost predicate Touches(g: Graph, g': Graph, l: Id, p: Id) {
    && g'.up == g.up
    && (forall x :: x != l ==> (x in g'.listeners <==> x in g.listeners))
    && (forall x :: x != l && x in g.listeners ==> g'.listeners[x] == g.listeners[x])
    && (forall q :: q != p ==> (q in g'.pools <==> q in g.pools))
    && (forall q :: q != p && q in g.pools ==> g'.pools[q] == g.pools[q])
    && (p in g'.pools ==> g'.pools[p].listener == l)
    && (p in g.pools ==> g.pools[p].listener == l)
    && (forall k: MemberKey :: k.pool != p ==> (k in g'.members <==> k in g.members))
  }

  lemma PortOkElsewhere(g: Graph, g': Graph, l: Id, p: Id, x: Id, q: Id, sp: ServicePort, want: set<string>, cfg: Config)
    requires Touches(g, g', l, p) && PortOk(g, x, q, sp, want, cfg) && x != l
    ensures PortOk(g', x, q, sp, want, cfg)
  {
    assert q in PoolsOf(g, x);
    assert forall r :: r in g'.pools && g'.pools[r].listener == x ==> r in PoolsOf(g, x);
    assert PoolsOf(g', x) == {q};
  }

  lemma PortOkPruned(g: Graph, g': Graph, l: Id, x: Id, q: Id, sp: ServicePort, want: set<string>, cfg: Config)
    requires Pruned(g, g', l) && PortOk(g, x, q, sp, want, cfg) && x != l
    ensures PortOk(g', x, q, sp, want, cfg)
  {
    assert q in PoolsOf(g, x);
    assert forall r :: r in g'.pools && g'.pools[r].listener == x ==> r in PoolsOf(g, x);
    assert PoolsOf(g', x) == {q};
  }

  // ---- the listener of a port ----

  method ListenerForPort(a: array<ListenerView>, n: nat, sp: ServicePort) returns (r: Option<ListenerView>)
    requires n <= a.Length
    ensures r.Some? ==> r.value in a[..n] && r.value.listener.protocol == TCP && r.value.listener.port == sp.port
    ensures r.None? ==> forall v :: v in a[..n] ==> !(v.listener.protocol == TCP && v.listener.port == sp.port)
  {
    for i := 0 to n
      invariant forall j :: 0 <= j < i ==> !(a[j].listener.protocol == TCP && a[j].listener.port == sp.port)
    {
      if a[i].listener.protocol == TCP && a[i].listener.port == sp.port {
        assert a[i] in a[..n];
        return Some(a[i]);
      }
    }
    return None;
  }

  lemma ListenerCreated(g: Graph, rest: seq<ListenerView>, kept: seq<Id>, w: Listener)
    requires Consistent(g) && Closed(g) && Remaining(rest, g, kept)
    requires forall v :: v in rest ==> !SamePort(v.listener, w)
    ensures Accepts(g, CreateListener(w)) ==>
              && Closed(Apply(g, CreateListener(w)))
              && Remaining(rest, Apply(g, CreateListener(w)), kept + [g.next])
              && g.next !in kept && PoolsOf(Apply(g, CreateListener(w)), g.next) == {}
    ensures g.up && !Accepts(g, CreateListener(w)) ==> exists l :: l in kept && l in g.listeners && SamePort(g.listeners[l], w)
  {
    hide MemberIdsUnique, MonitorsNamed, PortsUnique;
    assert forall l :: l in g.listeners && l !in kept ==> ListenerView(l, g.listeners[l]) in rest;
  }

  lemma ListenerUpdated(g: Graph, rest: seq<ListenerView>, kept: seq<Id>, v: ListenerView, c: int, rest': seq<ListenerView>)
    requires Remaining(rest, g, kept) && v in rest
    requires NoDuplicates(rest') && forall x :: x in rest' <==> x in rest && x != v
    ensures Remaining(rest', g, kept + [v.id]) && v.id !in kept
    ensures Remaining(rest', Apply(g, UpdateListener(v.id, c)), kept + [v.id])
  {
    forall x | x in rest
      ensures x != v <==> x.id != v.id
    {
    }
  }

  lemma UpdateKeepsClosed(g: Graph, l: Id, c: int)
    requires Closed(g)
    ensures Closed(Apply(g, UpdateListener(l, c)))
  {
  }

  /** Removes the claimed listener from the slice. */
  method PopClaimed(a: array<ListenerView>, n: nat, v: ListenerView, ghost g: Graph, ghost kept: seq<Id>) returns (m: nat)
    requires n <= a.Length && Remaining(a[..n], g, kept) && v in a[..n]
    modifies a
    ensures m <= a.Length && NoDuplicates(a[..m]) && forall x :: x in a[..m] <==> x in old(a[..n]) && x != v
  {
    hide SwapRemove;
    ghost var s := a[..n];
    ghost var i :| 0 <= i < n && s[i] == v;
    forall j | 0 <= j < n && j != i
      ensures a[j].id != v.id
    {
      assert s[j] in s && s[j] != s[i];
    }
    m := PopListener(a, n, v.id);
    SwapRemoveElements(s, i);
  }

  /** Finds or creates the listener of a port, corrects its connection limit, and claims it. */
  method EnsureListener(c: Cloud, sp: ServicePort, cfg: Config, a: array<ListenerView>, n: nat, ghost kept: seq<Id>)
      returns (e: Outcome, l: Id, m: nat)
    requires c.Sound() && c.g.up && n <= a.Length && Remaining(a[..n], c.g, kept)
    modifies c`g, c`status, c`log, c`faults, a
    ensures c.Sound() && old(c.log) <= c.log && m <= a.Length
    ensures e.Ok? ==>
              && l in c.g.listeners && c.g.listeners[l] == Wanted(sp, cfg) && l !in kept
              && c.g.pools == old(c.g.pools) && c.g.members == old(c.g.members) && c.g.up
              && c.g.listeners == old(c.g.listeners)[l := Wanted(sp, cfg)]
              && Remaining(a[..m], c.g, kept + [l]) && c.faults == old(c.faults)
    ensures e.Failed? ==>
              || c.faults > old(c.faults)
              || (e.why.Duplicate? && exists x :: x in kept && x in old(c.g).listeners && SamePort(old(c.g).listeners[x], Wanted(sp, cfg)))
    ensures forall v :: v in old(a[..n]) && v.listener == Wanted(sp, cfg) ==>
              c.g == old(c.g) && c.log == old(c.log) && (e.Ok? ==> l == v.id)
    ensures old(c.Quiet()) ==> AllActive(c.log) && (e.Ok? ==> c.Quiet())
  {
    hide Consistent, Recorded, AllClosed, Closed, AllActive, Apply;
    var found := ListenerForPort(a, n, sp);
    m := n;
    if found.None? {
      ListenerCreated(c.g, a[..n], kept, Wanted(sp, cfg));
      CreateListenerEffect(c.g, Wanted(sp, cfg));
      var r := c.Do(CreateListener(Wanted(sp, cfg)));
      if r.Conflict? {
        return Failed(Duplicate), 0, m;
      }
      if !r.Done? {
        return Failed(CloudFault), 0, m;
      }
      return Ok, r.id, m;
    }
    e, l, m := ClaimListener(c, sp, cfg, a, n, kept, found.value);
  }

  lemma CreateListenerEffect(g: Graph, w: Listener)
    ensures Present(g, CreateListener(w))
    ensures Apply(g, CreateListener(w)) == g.(listeners := g.listeners[g.next := w], next := g.next + 1)
  {
  }

  lemma UniquePort(g: Graph, rest: seq<ListenerView>, kept: seq<Id>, v: ListenerView, w: ListenerView)
    requires Consistent(g) && Remaining(rest, g, kept) && v in rest && w in rest && SamePort(v.listener, w.listener)
    ensures v == w
  {
  }

  method ClaimListener(c: Cloud, sp: ServicePort, cfg: Config, a: array<ListenerView>, n: nat, ghost kept: seq<Id>, v: ListenerView)
      returns (e: Outcome, l: Id, m: nat)
    requires c.Sound() && c.g.up && n <= a.Length && Remaining(a[..n], c.g, kept)
    requires v in a[..n] && v.listener.protocol == TCP && v.listener.port == sp.port
    modifies c`g, c`status, c`log, c`faults, a
    ensures c.Sound() && old(c.log) <= c.log && m <= a.Length
    ensures e.Ok? ==>
              && l in c.g.listeners && c.g.listeners[l] == Wanted(sp, cfg) && l !in kept
              && c.g.pools == old(c.g.pools) && c.g.members == old(c.g.members) && c.g.up
              && c.g.listeners == old(c.g.listeners)[l := Wanted(sp, cfg)]
              && Remaining(a[..m], c.g, kept + [l]) && c.faults == old(c.faults)
    ensures e.Failed? ==> c.faults > old(c.faults)
    ensures forall w :: w in old(a[..n]) && w.listener == Wanted(sp, cfg) ==>
              c.g == old(c.g) && c.log == old(c.log) && (e.Ok? ==> l == w.id)
    ensures old(c.Quiet()) ==> AllActive(c.log) && (e.Ok? ==> c.Quiet())
  {
    hide Consistent, Recorded, AllClosed, Closed, AllActive, NoDuplicates;
    ghost var g0, rest := c.g, a[..n];
    l := v.id;
    forall w | w in rest && w.listener == Wanted(sp, cfg)
      ensures w == v
    {
      UniquePort(g0, rest, kept, w, v);
    }
    m := n;
    if v.listener.connLimit != cfg.connLimit {
      UpdateKeepsClosed(g0, l, cfg.connLimit);
      var r := c.Do(UpdateListener(l, cfg.connLimit));
      if !r.Done? {
        return Failed(CloudFault), l, m;
      }
    } else {
      assert g0.listeners == g0.listeners[l := Wanted(sp, cfg)];
    }
    m := PopClaimed(a, n, v, g0, kept);
    ListenerUpdated(g0, rest, kept, v, cfg.connLimit, a[..m]);
    return Ok, l, m;
  }

  // ---- the pool and the monitor of a port ----

  lemma PoolCreated(g: Graph, l: Id)
    requires Consistent(g) && Closed(g) && l in g.listeners && PoolsOf(g, l) == {}
    ensures var g' := Apply(g, CreatePool(l));
            && Accepts(g, CreatePool(l)) && Present(g, CreatePool(l)) && Closed(g')
            && g' == g.(pools := g.pools[g.next := Pool(l, None)], next := g.next + 1)
            && PoolsOf(g', l) == {g.next} && g.next !in g.pools
  {
    hide MemberIdsUnique, MonitorsNamed, PortsUnique;
    var g' := Apply(g, CreatePool(l));
    assert forall q :: q in g.pools && g.pools[q].listener == l ==> q in PoolsOf(g, l);
  }

  /** Finds or creates the pool of a listener, and reads its monitor. */
  method EnsurePool(c: Cloud, l: Id) returns (e: Outcome, p: Id, monitor: Option<Id>)
    requires c.Sound() && l in c.g.listeners
    modifies c`g, c`status, c`log, c`faults
    ensures c.Sound() && old(c.log) <= c.log
    ensures e.Ok? ==>
              && PoolsOf(c.g, l) == {p} && p in c.g.pools && c.g.pools[p] == Pool(l, monitor)
              && c.g.listeners == old(c.g.listeners) && c.g.members == old(c.g.members) && c.g.up == old(c.g.up)
              && c.g.pools == old(c.g.pools)[p := Pool(l, monitor)]
              && (p in old(c.g.pools) ==> c.g.pools == old(c.g.pools)) && c.faults == old(c.faults)
    ensures e.Failed? ==> c.faults > old(c.faults) || (e.why.ManyPools? && |PoolsOf(old(c.g), l)| > 1)
    ensures PoolsOf(old(c.g), l) != {} ==> c.g == old(c.g) && c.log == old(c.log)
    ensures old(c.Quiet()) ==> AllActive(c.log) && (e.Ok? ==> c.Quiet())
  {
    hide Consistent, Recorded, AllClosed, Closed, AllActive, Apply;
    var r := c.PoolOfListener(l);
    match r {
      case PoolFault => return Failed(CloudFault), 0, None;
      case Multiple => return Failed(ManyPools), 0, None;
      case Found(q, m) =>
        assert q in PoolsOf(c.g, l);
        assert c.g.pools == c.g.pools[q := Pool(l, m)];
        return Ok, q, m;
      case NoPool =>
        PoolCreated(c.g, l);
        var d := c.Do(CreatePool(l));
        if !d.Done? {
          return Failed(CloudFault), 0, None;
        }
        return Ok, d.id, None;
    }
  }

  lemma MonitorCreated(g: Graph, p: Id)
    requires Closed(g) && p in g.pools && g.pools[p].monitor.None?
    ensures var g' := Apply(g, CreateMonitor(p));
            && Accepts(g, CreateMonitor(p)) && Present(g, CreateMonitor(p)) && Closed(g')
            && g'.pools == g.pools[p := g.pools[p].(monitor := Some(g.next))]
            && g'.listeners == g.listeners && g'.members == g.members && g'.up == g.up
  {
  }

  method EnsureMonitor(c: Cloud, p: Id, monitor: Option<Id>, cfg: Config) returns (e: Outcome)
    requires c.Sound() && p in c.g.pools && c.g.pools[p].monitor == monitor
    modifies c`g, c`status, c`log, c`faults
    ensures c.Sound() && old(c.log) <= c.log
    ensures e.Ok? ==>
              && p in c.g.pools && c.g.pools == old(c.g.pools)[p := c.g.pools[p]] && c.g.pools[p].listener == old(c.g.pools)[p].listener
              && (cfg.createMonitor ==> c.g.pools[p].monitor.Some?)
              && c.g.listeners == old(c.g.listeners) && c.g.members == old(c.g.members) && c.g.up == old(c.g.up)
              && c.faults == old(c.faults)
    ensures e.Failed? ==> c.faults > old(c.faults)
    ensures monitor.Some? || !cfg.createMonitor ==> c.g == old(c.g) && c.log == old(c.log)
    ensures old(c.Quiet()) ==> AllActive(c.log) && (e.Ok? ==> c.Quiet())
  {
    hide Consistent, Recorded, AllClosed, Closed, AllActive, Apply;
    if monitor.None? && cfg.createMonitor {
      MonitorCreated(c.g, p);
      var r := c.Do(CreateMonitor(p));
      if !r.Done? {
        return Failed(CloudFault);
      }
    } else {
      assert c.g.pools == c.g.pools[p := c.g.pools[p]];
    }
    return Ok;
  }

  /** Pool, members and monitor of a listener. */
  method EnsureBackend(c: Cloud, l: Id, sp: ServicePort, nodes: seq<Node>, cfg: Config) returns (e: Outcome, p: Id)
    requires c.Sound() && l in c.g.listeners && c.g.listeners[l] == Wanted(sp, cfg)
    modifies c`g, c`status, c`log, c`faults
    ensures c.Sound() && old(c.log) <= c.log
    ensures e.Ok? ==>
              && PortOk(c.g, l, p, sp, Addresses(nodes), cfg) && Touches(old(c.g), c.g, l, p)
              && c.g.listeners == old(c.g.listeners) && c.g.up == old(c.g.up) && AllAddressed(nodes) && DistinctNodes(nodes) && c.faults == old(c.faults)
    ensures e.Failed? ==> c.faults > old(c.faults) || BackendRefusal(e.why, old(c.g), l, nodes)
    ensures forall q :: PortOk(old(c.g), l, q, sp, Addresses(nodes), cfg) ==>
              c.g == old(c.g) && c.log == old(c.log) && (e.Ok? ==> p == q)
    ensures old(c.Quiet()) ==> AllActive(c.log) && (e.Ok? ==> c.Quiet())
  {
    hide Consistent, Recorded, AllClosed, Closed, AllActive, MinimalOps, AllAddressed, DistinctNodes, Touches, PortOk, PoolsOf;
    OkMeans(c.g, l, sp, Addresses(nodes), cfg);
    ghost var g0 := c.g;
    var monitor;
    e, p, monitor := EnsurePool(c, l);
    if e.Failed? {
      return;
    }
    ghost var g1, log1 := c.g, c.log;
    e := EnsureMembers(c, p, nodes, sp.nodePort);
    if PoolHolds(g1, p, Addresses(nodes), sp.nodePort) {
      NothingToDo(log1, c.log, g1, p, Addresses(nodes), sp.nodePort);
    }
    if e.Failed? {
      return;
    }
    e := EnsureMonitor(c, p, monitor, cfg);
    if e.Ok? {
      BackendOk(g0, g1, c.g, l, p, sp, Addresses(nodes), cfg);
    }
  }

  lemma OkMeans(g: Graph, l: Id, sp: ServicePort, want: set<string>, cfg: Config)
    ensures forall q: Id :: PortOk(g, l, q, sp, want, cfg) ==>
              && PoolsOf(g, l) == {q} && q in g.pools && PoolHolds(g, q, want, sp.nodePort)
              && (cfg.createMonitor ==> g.pools[q].monitor.Some?)
  {
  }

  ghost predicate BackendRefusal(why: Why, g: Graph, l: Id, nodes: seq<Node>) {
    || (why.ManyPools? && |PoolsOf(g, l)| > 1)
    || (why.NoAddress? && !AllAddressed(nodes))
    || (why.Duplicate? && !DistinctNodes(nodes))
  }

  lemma BackendOk(g0: Graph, g1: Graph, g: Graph, l: Id, p: Id, sp: ServicePort, want: set<string>, cfg: Config)
    requires l in g0.listeners && g0.listeners[l] == Wanted(sp, cfg)
    requires PoolsOf(g1, l) == {p} && p in g1.pools && g1.pools[p].listener == l && g1.pools == g0.pools[p := g1.pools[p]]
    requires p in g0.pools ==> g1.pools == g0.pools
    requires g1.listeners == g0.listeners && g1.members == g0.members && g1.up == g0.up
    requires p in g.pools && g.pools == g1.pools[p := g.pools[p]] && g.pools[p].listener == l
    requires cfg.createMonitor ==> g.pools[p].monitor.Some?
    requires g.listeners == g1.listeners && g.up == g1.up
    requires forall k: MemberKey :: k.pool != p ==> (k in g.members <==> k in g1.members)
    requires PoolHolds(g, p, want, sp.nodePort)
    ensures PortOk(g, l, p, sp, want, cfg) && Touches(g0, g, l, p)
  {
    assert forall q :: q in g.pools ==> (q in PoolsOf(g, l) <==> q in PoolsOf(g1, l));
    assert PoolsOf(g, l) == {p};
  }

  // ---- all ports ----

  /** No listener has come to own several pools. */
  ghost predicate NoNewMultiples(g0: Graph, g: Graph) {
    forall l :: |PoolsOf(g, l)| > 1 ==> |PoolsOf(g0, l)| > 1
  }

  lemma BuiltWithListener(g: Graph, g': Graph, l: Id, w: Listener, ports: seq<ServicePort>, ls: seq<Id>, ps: seq<Id>,
                          want: set<string>, cfg: Config)
    requires Built(g, ports, ls, ps, want, cfg) && l !in ls
    requires g'.listeners == g.listeners[l := w] && g'.pools == g.pools && g'.members == g.members
    ensures Built(g', ports, ls, ps, want, cfg) && forall x :: PoolsOf(g', x) == PoolsOf(g, x)
  {
    forall i | 0 <= i < |ls|
      ensures PortOk(g', ls[i], ps[i], ports[i], want, cfg)
    {
      assert PoolsOf(g', ls[i]) == PoolsOf(g, ls[i]);
    }
    assert forall x :: PoolsOf(g', x) == PoolsOf(g, x);
  }

  lemma BuiltWithBackend(g0: Graph, g: Graph, g': Graph, l: Id, p: Id, ports: seq<ServicePort>, ls: seq<Id>, ps: seq<Id>,
                         want: set<string>, cfg: Config)
    requires Built(g, ports, ls, ps, want, cfg) && l !in ls && |ls| < |ports| && NoNewMultiples(g0, g)
    requires Touches(g, g', l, p) && PortOk(g', l, p, ports[|ls|], want, cfg)
    ensures Built(g', ports, ls + [l], ps + [p], want, cfg) && NoNewMultiples(g0, g')
  {
    hide PortOk;
    forall i | 0 <= i < |ls|
      ensures PortOk(g', ls[i], ps[i], ports[i], want, cfg)
    {
      PortOkElsewhere(g, g', l, p, ls[i], ps[i], ports[i], want, cfg);
    }
    forall x
      ensures |PoolsOf(g', x)| > 1 ==> |PoolsOf(g0, x)| > 1
    {
      SamePoolsElsewhere(g, g', l, p, x, ports[|ls|], want, cfg);
    }
  }

  lemma SamePoolsElsewhere(g: Graph, g': Graph, l: Id, p: Id, x: Id, sp: ServicePort, want: set<string>, cfg: Config)
    requires Touches(g, g', l, p) && PortOk(g', l, p, sp, want, cfg)
    ensures x != l ==> PoolsOf(g', x) == PoolsOf(g, x)
    ensures |PoolsOf(g', l)| == 1
  {
    if x != l {
      assert PoolsOf(g', x) == PoolsOf(g, x);
    }
  }

  /** Why EnsureLoadBalancer may refuse without any call having failed. */
  ghost predicate EnsureRefusal(why: Why, g: Graph, ports: seq<ServicePort>, nodes: seq<Node>) {
    match why
    case BadService => nodes == [] || ports == [] || exists sp :: sp in ports && sp.protocol != TCP
    case ManyPools => exists l :: |PoolsOf(g, l)| > 1
    case NoAddress => !AllAddressed(nodes)
    case Duplicate => !DistinctPorts(ports) || !DistinctNodes(nodes)
    case _ => false
  }

  /** The state before port `|ls|`. */
  ghost predicate Midway(g0: Graph, g: Graph, rest: seq<ListenerView>, ports: seq<ServicePort>, ls: seq<Id>, ps: seq<Id>,
                         want: set<string>, cfg: Config) {
    && g.up && Remaining(rest, g, ls) && Built(g, ports, ls, ps, want, cfg) && NoNewMultiples(g0, g)
  }

  /** One service port. A port that is already as it should be causes no mutation. */
  method EnsurePort(c: Cloud, ports: seq<ServicePort>, nodes: seq<Node>, cfg: Config, a: array<ListenerView>, n: nat, i: nat,
                    ghost ls: seq<Id>, ghost ps: seq<Id>, ghost g0: Graph)
      returns (e: Outcome, l: Id, p: Id, m: nat)
    requires c.Sound() && i == |ls| < |ports| && n <= a.Length && forall sp :: sp in ports ==> sp.protocol == TCP
    requires Midway(g0, c.g, a[..n], ports, ls, ps, Addresses(nodes), cfg)
    modifies c`g, c`status, c`log, c`faults, a
    ensures c.Sound() && old(c.log) <= c.log && m <= a.Length
    ensures e.Ok? ==>
              && Midway(g0, c.g, a[..m], ports, ls + [l], ps + [p], Addresses(nodes), cfg)
              && AllAddressed(nodes) && DistinctNodes(nodes) && c.faults == old(c.faults)
    ensures e.Failed? ==> c.faults > old(c.faults) || EnsureRefusal(e.why, g0, ports, nodes)
    ensures forall x, q :: x !in ls && PortOk(old(c.g), x, q, ports[i], Addresses(nodes), cfg) ==>
              c.g == old(c.g) && c.log == old(c.log) && (e.Ok? ==> l == x && p == q)
    ensures old(c.Quiet()) ==> AllActive(c.log) && (e.Ok? ==> c.Quiet())
  {
    hide Consistent, Recorded, AllClosed, Closed, AllActive, Touches, DistinctNodes, AllAddressed, Built, Remaining, NoNewMultiples, PortOk;
    ghost var before, rest, want := c.g, a[..n], Addresses(nodes);
    forall x, q | x !in ls && PortOk(before, x, q, ports[i], want, cfg)
      ensures ListenerView(x, Wanted(ports[i], cfg)) in rest
    {
      StillListed(before, rest, ls, x, q, ports[i], want, cfg);
    }
    p := 0;
    e, l, m := EnsureListener(c, ports[i], cfg, a, n, ls);
    if e.Failed? {
      if c.faults <= old(c.faults) {
        PortTaken(before, ports, ls, ps, want, cfg);
      }
      return;
    }
    BuiltWithListener(before, c.g, l, Wanted(ports[i], cfg), ports, ls, ps, want, cfg);
    ghost var mid := c.g;
    SameMultiples(g0, before, mid, l);
    e, p := EnsureBackend(c, l, ports[i], nodes, cfg);
    if e.Ok? {
      BuiltWithBackend(g0, mid, c.g, l, p, ports, ls, ps, want, cfg);
      SameRemaining(a[..m], mid, c.g, ls + [l]);
    }
  }

  lemma StillListed(g: Graph, rest: seq<ListenerView>, ls: seq<Id>, x: Id, q: Id, sp: ServicePort, want: set<string>, cfg: Config)
    requires Remaining(rest, g, ls) && x !in ls && PortOk(g, x, q, sp, want, cfg)
    ensures ListenerView(x, Wanted(sp, cfg)) in rest
  {
  }

  lemma PortTaken(g: Graph, ports: seq<ServicePort>, ls: seq<Id>, ps: seq<Id>, want: set<string>, cfg: Config)
    requires |ls| < |ports| && Built(g, ports, ls, ps, want, cfg) && forall sp :: sp in ports ==> sp.protocol == TCP
    requires exists x :: x in ls && x in g.listeners && SamePort(g.listeners[x], Wanted(ports[|ls|], cfg))
    ensures !DistinctPorts(ports)
  {
    var j :| 0 <= j < |ls| && ls[j] in g.listeners && SamePort(g.listeners[ls[j]], Wanted(ports[|ls|], cfg));
    assert PortOk(g, ls[j], ps[j], ports[j], want, cfg);
    assert ports[j] in ports && ports[|ls|] in ports;
  }

  lemma SameMultiples(g0: Graph, g: Graph, g': Graph, l: Id)
    requires NoNewMultiples(g0, g) && forall x :: PoolsOf(g', x) == PoolsOf(g, x)
    ensures NoNewMultiples(g0, g') && (|PoolsOf(g', l)| > 1 ==> |PoolsOf(g0, l)| > 1)
  {
  }

  lemma SameRemaining(rest: seq<ListenerView>, g: Graph, g': Graph, ls: seq<Id>)
    requires Remaining(rest, g, ls) && g'.listeners == g.listeners
    ensures Remaining(rest, g', ls)
  {
  }

  /** The loop over the service ports. */
  method EnsurePorts(c: Cloud, ports: seq<ServicePort>, nodes: seq<Node>, cfg: Config, a: array<ListenerView>)
      returns (e: Outcome, n: nat, ghost ls: seq<Id>, ghost ps: seq<Id>)
    requires c.Sound() && c.g.up && ListsListeners(a[..], c.g) && forall sp :: sp in ports ==> sp.protocol == TCP
    modifies c`g, c`status, c`log, c`faults, a
    ensures c.Sound() && old(c.log) <= c.log && n <= a.Length
    ensures e.Ok? ==>
              && |ls| == |ports| && Midway(old(c.g), c.g, a[..n], ports, ls, ps, Addresses(nodes), cfg)
              && (ports != [] ==> AllAddressed(nodes) && DistinctNodes(nodes)) && c.faults == old(c.faults)
    ensures e.Failed? ==> c.faults > old(c.faults) || EnsureRefusal(e.why, old(c.g), ports, nodes)
    ensures IsConverged(old(c.g), ports, Addresses(nodes), cfg) ==>
              c.g == old(c.g) && c.log == old(c.log) && (e.Ok? ==> exists ps0 :: Converged(c.g, ports, ls, ps0, Addresses(nodes), cfg))
    ensures old(c.Quiet()) ==> AllActive(c.log) && (e.Ok? ==> c.Quiet())
  {
    hide Consistent, Recorded, AllClosed, Closed, AllActive, Midway, Converged, EnsureRefusal, PortOk, AllAddressed, DistinctNodes;
    ghost var g0, want := c.g, Addresses(nodes);
    n, ls, ps := a.Length, [], [];
    assert a[..n] == a[..];
    MidwayStart(g0, a[..], ports, want, cfg);
    ghost var idle := IsConverged(g0, ports, want, cfg);
    ghost var ls0, ps0 := ConvergedWith(g0, ports, want, cfg);
    for i := 0 to |ports|
      invariant c.Sound() && old(c.log) <= c.log && n <= a.Length && |ls| == |ps| == i
      invariant Midway(g0, c.g, a[..n], ports, ls, ps, want, cfg)
      invariant i > 0 ==> AllAddressed(nodes) && DistinctNodes(nodes)
      invariant c.faults == old(c.faults)
      invariant idle ==> c.g == g0 && c.log == old(c.log) && ls <= ls0 && ps <= ps0
      invariant old(c.Quiet()) ==> c.Quiet()
    {
      if idle {
        NextIsDone(g0, ports, ls0, ps0, want, cfg, ls);
      }
      var l, p;
      e, l, p, n := EnsurePort(c, ports, nodes, cfg, a, n, i, ls, ps, g0);
      if e.Failed? {
        return;
      }
      ls, ps := ls + [l], ps + [p];
    }
    if idle {
      NextIsDone(g0, ports, ls0, ps0, want, cfg, []);
      assert ls == ls0;
    }
    e := Ok;
  }

  ghost predicate IsConverged(g: Graph, ports: seq<ServicePort>, want: set<string>, cfg: Config) {
    exists ls, ps :: Converged(g, ports, ls, ps, want, cfg)
  }

  lemma ConvergedWith(g: Graph, ports: seq<ServicePort>, want: set<string>, cfg: Config) returns (ls: seq<Id>, ps: seq<Id>)
    ensures IsConverged(g, ports, want, cfg) ==> Converged(g, ports, ls, ps, want, cfg)
  {
    hide Converged;
    ls, ps := [], [];
    if IsConverged(g, ports, want, cfg) {
      ls, ps :| Converged(g, ports, ls, ps, want, cfg);
    }
  }

  lemma MidwayStart(g: Graph, views: seq<ListenerView>, ports: seq<ServicePort>, want: set<string>, cfg: Config)
    requires g.up && ListsListeners(views, g)
    ensures Midway(g, g, views, ports, [], [], want, cfg)
  {
  }

  lemma NextIsDone(g: Graph, ports: seq<ServicePort>, ls0: seq<Id>, ps0: seq<Id>, want: set<string>, cfg: Config, ls: seq<Id>)
    requires Converged(g, ports, ls0, ps0, want, cfg) && ls <= ls0
    ensures |ls0| == |ps0| == |ports|
    ensures |ls| < |ports| ==> ls0[|ls|] !in ls && PortOk(g, ls0[|ls|], ps0[|ls|], ports[|ls|], want, cfg)
  {
    if |ls| < |ports| {
      assert forall j :: 0 <= j < |ls| ==> ls[j] == ls0[j] && ls0[j] != ls0[|ls|];
    }
  }

  // ---- what is left over ----

  lemma BuiltPruned(g0: Graph, g: Graph, g': Graph, l: Id, ports: seq<ServicePort>, ls: seq<Id>, ps: seq<Id>,
                    want: set<string>, cfg: Config)
    requires Built(g, ports, ls, ps, want, cfg) && NoNewMultiples(g0, g) && Pruned(g, g', l) && l !in ls
    ensures Built(g', ports, ls, ps, want, cfg) && NoNewMultiples(g0, g')
  {
    hide PortOk;
    forall i | 0 <= i < |ls|
      ensures PortOk(g', ls[i], ps[i], ports[i], want, cfg)
    {
      PortOkPruned(g, g', l, ls[i], ps[i], ports[i], want, cfg);
    }
    forall x
      ensures x == l ==> PoolsOf(g', x) == {}
      ensures x != l ==> PoolsOf(g', x) == PoolsOf(g, x)
    {
      PrunedPools(g, g', l, x);
    }
  }

  lemma PrunedPools(g: Graph, g': Graph, l: Id, x: Id)
    requires Pruned(g, g', l)
    ensures x == l ==> PoolsOf(g', x) == {}
    ensures x != l ==> PoolsOf(g', x) == PoolsOf(g, x)
  {
  }

  lemma RemainingPruned(rest: seq<ListenerView>, g: Graph, g': Graph, ls: seq<Id>)
    requires rest != [] && Remaining(rest, g, ls) && Pruned(g, g', rest[0].id)
    ensures Remaining(rest[1..], g', ls)
  {
    assert rest == [rest[0]] + rest[1..];
    forall v | v in rest
      ensures v in rest[1..] <==> v.id != rest[0].id
    {
    }
  }

  /** The loop over the unclaimed listeners. */
  method DeleteObsolete(c: Cloud, ports: seq<ServicePort>, cfg: Config, rest: seq<ListenerView>,
                        ghost want: set<string>, ghost ls: seq<Id>, ghost ps: seq<Id>, ghost g0: Graph)
      returns (e: Outcome)
    requires c.Sound() && |ls| == |ports| && Midway(g0, c.g, rest, ports, ls, ps, want, cfg)
    modifies c`g, c`status, c`log, c`faults
    ensures c.Sound() && old(c.log) <= c.log
    ensures e.Ok? ==> Converged(c.g, ports, ls, ps, want, cfg) && c.faults == old(c.faults)
    ensures e.Failed? ==> c.faults > old(c.faults) || (e.why.ManyPools? && exists l :: |PoolsOf(g0, l)| > 1)
    ensures rest == [] ==> c.g == old(c.g) && c.log == old(c.log)
    ensures old(c.Quiet()) ==> AllActive(c.log) && (e.Ok? ==> c.Quiet())
  {
    hide Consistent, Recorded, AllClosed, Closed, AllActive, Built, Pruned, PoolsOf;
    for i := 0 to |rest|
      invariant c.Sound() && old(c.log) <= c.log && Midway(g0, c.g, rest[i..], ports, ls, ps, want, cfg)
      invariant i == 0 ==> c.g == old(c.g) && c.log == old(c.log)
      invariant c.faults == old(c.faults)
      invariant old(c.Quiet()) ==> c.Quiet()
    {
      ghost var g := c.g;
      assert rest[i..][0] == rest[i] && rest[i] in rest[i..] && rest[i..][1..] == rest[i + 1..];
      e := DeleteListenerTree(c, rest[i].id);
      if e.Failed? {
        return;
      }
      BuiltPruned(g0, g, c.g, rest[i].id, ports, ls, ps, want, cfg);
      RemainingPruned(rest[i..], g, c.g, ls);
      PrunedUp(g, c.g, rest[i].id);
    }
    assert forall l :: l in c.g.listeners && l !in ls ==> ListenerView(l, c.g.listeners[l]) in rest[|rest|..];
    return Ok;
  }

  lemma PrunedUp(g: Graph, g': Graph, l: Id)
    requires Pruned(g, g', l)
    ensures g'.up == g.up
  {
  }

  // ---- the whole call ----

  method OnlyTcp(ports: seq<ServicePort>) returns (ok: bool)
    ensures ok <==> forall sp :: sp in ports ==> sp.protocol == TCP
  {
    for i := 0 to |ports|
      invariant forall j :: 0 <= j < i ==> ports[j].protocol == TCP
    {
      if ports[i].protocol != TCP {
        assert ports[i] in ports;
        return false;
      }
    }
    return true;
  }

  /** Finds the load balancer or creates it, then waits for it to be ACTIVE. */
  method AcquireLoadBalancer(c: Cloud) returns (e: Outcome)
    requires c.Sound()
    modifies c`g, c`status, c`log, c`faults
    ensures c.Sound() && old(c.log) <= c.log
    ensures e.Ok? ==> c.g == old(c.g).(up := true) && c.status.Active? && c.faults == old(c.faults)
    ensures e.Failed? ==> c.faults > old(c.faults)
    ensures old(c.g.up) ==> c.g == old(c.g) && c.log == old(c.log)
    ensures old(AllActive(c.log)) ==> AllActive(c.log)
  {
    hide Consistent, Recorded, AllClosed;
    var ok, found := c.LookupLb();
    if !ok {
      return Failed(CloudFault);
    }
    if !found {
      var r := c.Issue(CreateLb);
      if !r.Done? {
        return Failed(CloudFault);
      }
    }
    var active := c.WaitActive();
    if !active {
      return Failed(CloudFault);
    }
    return Ok;
  }

  /** EnsureLoadBalancer, from the checks on the service to the last obsolete listener.

      - On success the graph has converged to the service.
      - Whatever happens, the log keeps all that was there and gains exactly the mutations that
        lead to the new graph; every graph on the way is closed (in `Sound`), and no listener,
        pool, member or monitor is touched unless the load balancer is ACTIVE.
      - From a converged graph it mutates nothing.
      - It fails only if some call failed or the service or nodes are refused. */
  method EnsureLoadBalancer(c: Cloud, ports: seq<ServicePort>, nodes: seq<Node>, cfg: Config)
      returns (e: Outcome, ghost ls: seq<Id>, ghost ps: seq<Id>)
    requires c.Sound()
    modifies c`g, c`status, c`log, c`starts, c`faults
    ensures c.starts == old(c.starts) + [old(c.log)]
    ensures c.Sound() && old(c.log) <= c.log && Recorded(old(c.g), c.log[|old(c.log)|..], c.g)
    ensures e.Ok? ==> Converged(c.g, ports, ls, ps, Addresses(nodes), cfg) && AllAddressed(nodes) && DistinctNodes(nodes) && c.faults == old(c.faults)
    ensures e.Ok? ==> forall i :: 0 <= i < |ports| ==>
              && ls[i] in c.g.listeners && c.g.listeners[ls[i]].protocol == "TCP"
              && c.g.listeners[ls[i]].port == ports[i].port && c.g.listeners[ls[i]].connLimit == cfg.connLimit
              && (forall p :: p in c.g.pools && c.g.pools[p].listener == ls[i] <==> p == ps[i])
              && (forall addr, port :: MemberKey(ps[i], addr, port) in c.g.members <==> addr in Addresses(nodes) && port == ports[i].nodePort)
              && (cfg.createMonitor ==> ps[i] in c.g.pools && c.g.pools[ps[i]].monitor.Some?)
    ensures e.Ok? ==> forall l :: l in c.g.listeners ==> l in ls
    ensures e.Ok? ==> nodes != [] && ports != [] && forall sp :: sp in ports ==> sp.protocol == TCP
    ensures e.Failed? ==> c.faults > old(c.faults) || EnsureRefusal(e.why, old(c.g), ports, nodes)
    ensures IsConverged(old(c.g), ports, Addresses(nodes), cfg) ==> c.g == old(c.g) && c.log == old(c.log)
    ensures old(AllActive(c.log)) ==> AllActive(c.log) && (e.Ok? ==> c.Quiet())
  {
    hide Consistent, Recorded, AllClosed, AllActive, Midway, Converged;
    RecordedFromNowOn(c.start, c.log, c.g);
    ghost var g0, want := c.g, Addresses(nodes);
    c.starts := c.starts + [c.log];
    ls, ps := [], [];
    if |nodes| == 0 || |ports| == 0 {
      return Failed(BadService), ls, ps;
    }
    var tcp := OnlyTcp(ports);
    if !tcp {
      return Failed(BadService), ls, ps;
    }
    ConvergedIsUp(g0, ports, want, cfg);
    e := AcquireLoadBalancer(c);
    if e.Failed? {
      return;
    }
    var listed, a := c.ListListeners();
    if !listed {
      return Failed(CloudFault), ls, ps;
    }
    SamePoolsWhenUp(g0, c.g);
    ghost var g1 := c.g;
    var n;
    e, n, ls, ps := EnsurePorts(c, ports, nodes, cfg, a);
    if e.Failed? {
      return;
    }
    if IsConverged(g0, ports, want, cfg) {
      NothingRemains(g1, c.g, a[..n], ports, ls, ps, want, cfg);
    }
    e := DeleteObsolete(c, ports, cfg, a[..n], want, ls, ps, g1);
    if e.Ok? {
      ConvergedSpelledOut(c.g, ports, ls, ps, want, cfg);
    }
  }

  lemma ConvergedSpelledOut(g: Graph, ports: seq<ServicePort>, ls: seq<Id>, ps: seq<Id>, want: set<string>, cfg: Config)
    requires Converged(g, ports, ls, ps, want, cfg)
    ensures |ls| == |ps| == |ports| && forall l :: l in g.listeners ==> l in ls
    ensures forall i :: 0 <= i < |ports| ==>
              && ls[i] in g.listeners && g.listeners[ls[i]].protocol == "TCP"
              && g.listeners[ls[i]].port == ports[i].port && g.listeners[ls[i]].connLimit == cfg.connLimit
              && (forall p :: p in g.pools && g.pools[p].listener == ls[i] <==> p == ps[i])
              && (forall addr, port :: MemberKey(ps[i], addr, port) in g.members <==> addr in want && port == ports[i].nodePort)
              && (cfg.createMonitor ==> ps[i] in g.pools && g.pools[ps[i]].monitor.Some?)
  {
    forall i | 0 <= i < |ports|
      ensures ls[i] in g.listeners && g.listeners[ls[i]] == Listener(TCP, ports[i].port, cfg.connLimit)
      ensures forall p :: p in g.pools && g.pools[p].listener == ls[i] <==> p == ps[i]
      ensures PoolHolds(g, ps[i], want, ports[i].nodePort) && (cfg.createMonitor ==> ps[i] in g.pools && g.pools[ps[i]].monitor.Some?)
    {
      assert PortOk(g, ls[i], ps[i], ports[i], want, cfg);
      assert forall p :: p in PoolsOf(g, ls[i]) <==> p in g.pools && g.pools[p].listener == ls[i];
    }
  }

  lemma ConvergedIsUp(g: Graph, ports: seq<ServicePort>, want: set<string>, cfg: Config)
    requires Closed(g) && ports != []
    ensures forall ls, ps :: Converged(g, ports, ls, ps, want, cfg) ==> g.up
  {
    forall ls, ps | Converged(g, ports, ls, ps, want, cfg)
      ensures g.up
    {
      assert PortOk(g, ls[0], ps[0], ports[0], want, cfg);
    }
  }

  lemma SamePoolsWhenUp(g0: Graph, g: Graph)
    requires g == g0.(up := true)
    ensures forall l :: PoolsOf(g, l) == PoolsOf(g0, l)
  {
    assert forall l :: PoolsOf(g, l) == PoolsOf(g0, l);
  }

  lemma NothingRemains(g0: Graph, g: Graph, rest: seq<ListenerView>, ports: seq<ServicePort>, ls: seq<Id>, ps: seq<Id>,
                       want: set<string>, cfg: Config)
    requires Midway(g0, g, rest, ports, ls, ps, want, cfg) && exists ps0 :: Converged(g, ports, ls, ps0, want, cfg)
    ensures rest == []
  {
    FirstElement(rest);
  }
}
