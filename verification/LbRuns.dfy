/** Several calls in a row: EnsureLoadBalancer is idempotent, and it and
    UpdateLoadBalancer agree on the members whatever their order. */
module LbRuns {
  import opened LbGraph
  import opened LbCloud
  import opened LbMembers
  import opened LbUpdate
  import opened LbEnsure

  /** Every service port has a listener whose one pool holds exactly `want`. */
  ghost predicate ServesAll(g: Graph, ports: seq<ServicePort>, want: set<string>) {
    forall i :: 0 <= i < |ports| ==> PortServed(g, ports[i], want)
  }

  ghost predicate PortServed(g: Graph, sp: ServicePort, want: set<string>) {
    exists p :: Serves(g, sp, p) && PoolHolds(g, p, want, sp.nodePort)
  }

  lemma PortServedSpelledOut(g: Graph, sp: ServicePort, want: set<string>)
    ensures PortServed(g, sp, want) <==>
              exists p: Id :: p in g.pools && g.pools[p].listener in g.listeners
                && (var l := g.pools[p].listener;
                    && g.listeners[l].protocol == sp.protocol && g.listeners[l].port == sp.port
                    && (forall q :: q in g.pools && g.pools[q].listener == l ==> q == p))
                && (forall addr, port :: MemberKey(p, addr, port) in g.members <==> addr in want && port == sp.nodePort)
  {
    if PortServed(g, sp, want) {
      var p: Id :| Serves(g, sp, p) && PoolHolds(g, p, want, sp.nodePort);
      var l: Id :| l in g.listeners && PortOf(g.listeners[l]) == (sp.protocol, sp.port) && PoolsOf(g, l) == {p};
      assert p in PoolsOf(g, l);
      assert forall q :: q in g.pools && g.pools[q].listener == l ==> q in PoolsOf(g, l);
    }
    forall p: Id |
      && p in g.pools && g.pools[p].listener in g.listeners
      && g.listeners[g.pools[p].listener].protocol == sp.protocol && g.listeners[g.pools[p].listener].port == sp.port
      && (forall q :: q in g.pools && g.pools[q].listener == g.pools[p].listener ==> q == p)
      && (forall addr, port :: MemberKey(p, addr, port) in g.members <==> addr in want && port == sp.nodePort)
      ensures PortServed(g, sp, want)
    {
      assert PoolsOf(g, g.pools[p].listener) == {p};
      assert Serves(g, sp, p);
      forall k: MemberKey | k.pool == p
        ensures k in g.members <==> k.addr in want && k.port == sp.nodePort
      {
        assert k == MemberKey(p, k.addr, k.port);
      }
    }
  }

  lemma ConvergedServes(g: Graph, ports: seq<ServicePort>, ls: seq<Id>, ps: seq<Id>, want: set<string>, cfg: Config)
    requires Converged(g, ports, ls, ps, want, cfg) && PortsUnique(g) && forall sp :: sp in ports ==> sp.protocol == TCP
    ensures ServesAll(g, ports, want) && DistinctPorts(ports)
  {
    forall i | 0 <= i < |ports|
      ensures PortServed(g, ports[i], want)
    {
      assert PortOk(g, ls[i], ps[i], ports[i], want, cfg) && ports[i] in ports;
      assert PortOf(g.listeners[ls[i]]) == (ports[i].protocol, ports[i].port);
      assert Serves(g, ports[i], ps[i]);
    }
    forall i, j | 0 <= i < j < |ports|
      ensures ports[i].port != ports[j].port
    {
      assert PortOk(g, ls[i], ps[i], ports[i], want, cfg) && PortOk(g, ls[j], ps[j], ports[j], want, cfg);
      assert ls[i] != ls[j];
    }
  }

  lemma OnePoolPerPort(g: Graph, sp: ServicePort, p: Id, q: Id)
    requires PortsUnique(g) && Serves(g, sp, p) && Serves(g, sp, q)
    ensures p == q
  {
    var l :| l in g.listeners && PortOf(g.listeners[l]) == (sp.protocol, sp.port) && PoolsOf(g, l) == {p};
    var m :| m in g.listeners && PortOf(g.listeners[m]) == (sp.protocol, sp.port) && PoolsOf(g, m) == {q};
    assert SamePort(g.listeners[l], g.listeners[m]);
    assert p in PoolsOf(g, l);
  }

  lemma SameServing(g: Graph, g': Graph, sp: ServicePort, p: Id)
    requires Serves(g, sp, p) && g'.listeners == g.listeners && g'.pools == g.pools
    ensures Serves(g', sp, p)
  {
    var l :| l in g.listeners && PortOf(g.listeners[l]) == (sp.protocol, sp.port) && PoolsOf(g, l) == {p};
    assert PoolsOf(g', l) == PoolsOf(g, l);
  }

  /** From a state either call leaves behind, the address-keyed update is exact. */
  lemma UpdatedServes(g: Graph, g': Graph, ports: seq<ServicePort>, ps: seq<Id>, want: set<string>, want': set<string>)
    requires ServesAll(g, ports, want) && PortsUnique(g) && DistinctPorts(ports)
    requires |ps| == |ports| && Updated(g, g', ports, ps, want')
    ensures ServesAll(g', ports, want')
  {
    forall i | 0 <= i < |ports|
      ensures PortServed(g', ports[i], want')
    {
      assert PortServed(g, ports[i], want);
      var p :| Serves(g, ports[i], p) && PoolHolds(g, p, want, ports[i].nodePort);
      OnePoolPerPort(g, ports[i], p, ps[i]);
      HoldsDistinct(g, p, want, ports[i].nodePort);
      SameServing(g, g', ports[i], p);
    }
  }

  /** What either call leaves behind once EnsureLoadBalancer has succeeded: one pool for every
      listener, and distinct addresses in every pool. */
  ghost predicate Steady(g: Graph) {
    && g.up
    && (forall l :: l in g.listeners ==> |PoolsOf(g, l)| == 1)
    && (forall p :: p in g.pools ==> DistinctAddresses(g, p))
  }

  lemma ConvergedIsSteady(g: Graph, ports: seq<ServicePort>, ls: seq<Id>, ps: seq<Id>, want: set<string>, cfg: Config)
    requires Converged(g, ports, ls, ps, want, cfg) && Closed(g) && ports != []
    ensures Steady(g)
  {
    hide PoolHolds, DistinctAddresses;
    assert PortOk(g, ls[0], ps[0], ports[0], want, cfg);
    forall l | l in g.listeners
      ensures |PoolsOf(g, l)| == 1 && forall p :: p in PoolsOf(g, l) ==> DistinctAddresses(g, p)
    {
      var i :| 0 <= i < |ls| && ls[i] == l;
      assert PortOk(g, ls[i], ps[i], ports[i], want, cfg);
      HoldsDistinct(g, ps[i], want, ports[i].nodePort);
    }
    forall p | p in g.pools
      ensures DistinctAddresses(g, p)
    {
      assert p in PoolsOf(g, g.pools[p].listener);
    }
  }

  lemma UpdatedIsSteady(g: Graph, g': Graph, ports: seq<ServicePort>, ps: seq<Id>, want: set<string>)
    requires Steady(g) && Updated(g, g', ports, ps, want)
    ensures Steady(g')
  {
    hide DistinctAddresses;
    forall l
      ensures PoolsOf(g', l) == PoolsOf(g, l)
    {
    }
  }

  lemma SteadyHasNoMultiples(g: Graph)
    requires Steady(g) && Closed(g)
    ensures forall l :: |PoolsOf(g, l)| <= 1
  {
    forall l
      ensures |PoolsOf(g, l)| <= 1
    {
      assert l !in g.listeners ==> PoolsOf(g, l) == {};
    }
  }

  datatype Call = Ensure(nodes: seq<Node>) | Update(nodes: seq<Node>)

  /** What makes a call fail although no call to the service does, whatever came before it. */
  ghost predicate CallRefused(call: Call, ports: seq<ServicePort>) {
    match call
    case Ensure(nodes) =>
      || nodes == [] || ports == [] || !DistinctPorts(ports) || (exists sp :: sp in ports && sp.protocol != TCP)
      || !AllAddressed(nodes) || !DistinctNodes(nodes)
    case Update(nodes) => !AllAddressed(nodes)
  }

  lemma EnsureRefusedBy(why: Why, g: Graph, ports: seq<ServicePort>, nodes: seq<Node>)
    requires EnsureRefusal(why, g, ports, nodes)
    ensures CallRefused(Ensure(nodes), ports) || exists l :: |PoolsOf(g, l)| > 1
  {
    hide AllAddressed, DistinctNodes, DistinctPorts, PoolsOf;
  }

  lemma UpdateRefusedBy(why: Why, g: Graph, ports: seq<ServicePort>, nodes: seq<Node>, want: set<string>)
    requires Refusal(why, g, ports, nodes) && Steady(g) && ServesAll(g, ports, want) && ports != []
    ensures CallRefused(Update(nodes), ports)
  {
    hide AllAddressed, DistinctAddresses, PoolHolds;
    forall sp | sp in ports
      ensures exists l :: l in g.listeners && PortOf(g.listeners[l]) == (sp.protocol, sp.port)
    {
      var i :| 0 <= i < |ports| && ports[i] == sp;
      assert PortServed(g, ports[i], want);
    }
  }

  /** An immediate second run mutates nothing, and fails only if some call to the service does.
      `starts` tells how either run found the log. */
  method EnsureTwice(c: Cloud, ports: seq<ServicePort>, nodes: seq<Node>, cfg: Config)
      returns (first: Outcome, second: Outcome, ghost ls: seq<Id>, ghost ps: seq<Id>)
    requires c.Sound()
    modifies c`g, c`status, c`log, c`starts, c`faults
    ensures c.Sound() && old(c.log) <= c.log && Recorded(old(c.g), c.log[|old(c.log)|..], c.g)
    ensures |c.starts| == |old(c.starts)| + 2 && c.starts[|c.starts| - 2] == old(c.log)
    ensures first.Ok? ==> c.starts[|c.starts| - 1] == c.log && Converged(c.g, ports, ls, ps, Addresses(nodes), cfg)
    ensures first.Ok? && second.Failed? ==> c.faults > old(c.faults)
    ensures old(AllActive(c.log)) ==> AllActive(c.log)
  {
    hide Recorded, AllClosed, AllActive, Closed, Converged, IdsIssued, MemberIdsUnique, MonitorsNamed, PortsUnique, Steady,
         AllAddressed, DistinctNodes, DistinctPorts, ServesAll, EnsureRefusal;
    RecordedFromNowOn(c.start, c.log, c.g);
    first, ls, ps := EnsureLoadBalancer(c, ports, nodes, cfg);
    ghost var g := c.g;
    ghost var ls', ps';
    second, ls', ps' := EnsureLoadBalancer(c, ports, nodes, cfg);
    if first.Ok? && second.Failed? && c.faults <= old(c.faults) {
      ConvergedServes(g, ports, ls, ps, Addresses(nodes), cfg);
      ConvergedIsSteady(g, ports, ls, ps, Addresses(nodes), cfg);
      SteadyHasNoMultiples(g);
      EnsureRefusedBy(second.why, g, ports, nodes);
    }
  }

  /** Any run of calls that starts with a successful EnsureLoadBalancer and goes on
      succeeding leaves every pool with exactly the nodes of the latest call, whichever
      diff that call used. It ends early only if some call to the service failed, one of the
      calls is refused for its arguments, or a listener had several pools to begin with. */
  method Run(c: Cloud, ports: seq<ServicePort>, cfg: Config, calls: seq<Call>) returns (ok: bool)
    requires c.Sound() && |calls| > 0 && calls[0].Ensure?
    modifies c`g, c`status, c`log, c`starts, c`faults
    ensures c.Sound() && old(c.log) <= c.log && Recorded(old(c.g), c.log[|old(c.log)|..], c.g)
    ensures ok ==> ServesAll(c.g, ports, Addresses(calls[|calls| - 1].nodes))
    ensures !ok ==>
              || c.faults > old(c.faults)
              || (exists i :: 0 <= i < |calls| && CallRefused(calls[i], ports))
              || (exists l :: |PoolsOf(old(c.g), l)| > 1)
    ensures old(AllActive(c.log)) ==> AllActive(c.log)
  {
    hide Recorded, AllClosed, AllActive, Closed, Converged, Updated, ServesAll, IdsIssued, MemberIdsUnique, MonitorsNamed, PortsUnique,
         Steady, CallRefused, DistinctPorts, PoolsOf, EnsureRefusal, Refusal;
    RecordedFromNowOn(c.start, c.log, c.g);
    for i := 0 to |calls|
      invariant c.Sound() && old(c.log) <= c.log && c.faults == old(c.faults)
      invariant i == 0 ==> c.g == old(c.g)
      invariant i > 0 ==> ports != [] && DistinctPorts(ports) && ServesAll(c.g, ports, Addresses(calls[i - 1].nodes)) && Steady(c.g)
      invariant old(AllActive(c.log)) ==> AllActive(c.log) && (i > 0 ==> c.Quiet())
    {
      if i > 0 {
        SteadyHasNoMultiples(c.g);
      }
      var e := OneCall(c, ports, cfg, calls[i], i > 0, if i > 0 then Addresses(calls[i - 1].nodes) else {});
      if e.Failed? {
        return false;
      }
    }
    return true;
  }

  /** One call of a run; `later` says that another one has succeeded before it. */
  method OneCall(c: Cloud, ports: seq<ServicePort>, cfg: Config, call: Call, ghost later: bool, ghost before: set<string>) returns (e: Outcome)
    requires c.Sound() && (!later ==> call.Ensure?)
    requires later ==> ports != [] && DistinctPorts(ports) && ServesAll(c.g, ports, before) && Steady(c.g)
    modifies c`g, c`status, c`log, c`starts, c`faults
    ensures c.Sound() && old(c.log) <= c.log && Recorded(old(c.g), c.log[|old(c.log)|..], c.g)
    ensures e.Ok? ==>
              && ports != [] && DistinctPorts(ports) && ServesAll(c.g, ports, Addresses(call.nodes)) && Steady(c.g)
              && c.faults == old(c.faults)
    ensures e.Failed? ==> c.faults > old(c.faults) || CallRefused(call, ports) || exists l :: |PoolsOf(old(c.g), l)| > 1
    ensures old(AllActive(c.log)) && (later ==> old(c.Quiet())) ==> AllActive(c.log) && (e.Ok? ==> c.Quiet())
  {
    hide Recorded, AllClosed, AllActive, Closed, Converged, Updated, ServesAll, IdsIssued, MemberIdsUnique, MonitorsNamed, PortsUnique,
         Steady, CallRefused, DistinctPorts, PoolsOf, EnsureRefusal, Refusal;
    RecordedFromNowOn(c.start, c.log, c.g);
    ghost var g := c.g;
    ghost var ls, ps;
    match call {
      case Ensure(nodes) =>
        e, ls, ps := EnsureLoadBalancer(c, ports, nodes, cfg);
        if e.Ok? {
          ConvergedServes(c.g, ports, ls, ps, Addresses(nodes), cfg);
          ConvergedIsSteady(c.g, ports, ls, ps, Addresses(nodes), cfg);
        } else if c.faults <= old(c.faults) {
          EnsureRefusedBy(e.why, g, ports, nodes);
        }
      case Update(nodes) =>
        e, ps := UpdateLoadBalancer(c, ports, nodes);
        if e.Ok? {
          UpdatedServes(g, c.g, ports, ps, before, Addresses(nodes));
          UpdatedIsSteady(g, c.g, ports, ps, Addresses(nodes));
        } else if c.faults <= old(c.faults) {
          UpdateRefusedBy(e.why, g, ports, nodes, before);
        }
    }
  }
}
