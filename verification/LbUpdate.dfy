/** UpdateLoadBalancer: the members of every service port's pool, diffed by address. */
module LbUpdate {
  import opened Common
  import opened LbGraph
  import opened LbCloud
  import opened LbMembers

  /** The address index keeps one member per address: the last one listed. */
  method IndexByAddress(a: array<MemberView>) returns (index: map<string, MemberView>)
    ensures forall x :: x in index ==> index[x] in a[..] && index[x].addr == x
    ensures forall v :: v in a[..] ==> v.addr in index
  {
    index := map[];
    for i := 0 to a.Length
      invariant forall x :: x in index ==> index[x] in a[..i] && index[x].addr == x
      invariant forall v :: v in a[..i] ==> v.addr in index
    {
      assert a[..i + 1] == a[..i] + [a[i]];
      index := index[a[i].addr := a[i]];
    }
    assert a[..a.Length] == a[..];
  }

  ghost predicate Indexes(index: map<string, MemberView>, g: Graph, p: Id) {
    && (forall x :: x in index ==> index[x].addr == x && Lists(g, p, index[x]))
    && (forall k :: k in g.members && k.pool == p ==> k.addr in index)
  }

  /** After the addresses `seen`: their members are there, and any of them that were there
      before are the ones the index shows. */
  ghost predicate Adding(g0: Graph, g: Graph, p: Id, port: int, seen: set<string>, index: map<string, MemberView>) {
    && OnlyMembersOf(g0, g, p)
    && (forall k: MemberKey :: k.pool == p ==> (k in g.members <==> k in g0.members || Kept(k, seen, port)))
    && (forall k: MemberKey :: k.pool == p && Kept(k, seen, port) && k in g0.members ==>
          k.addr in index && index[k.addr] == ViewOf(g0, k))
  }

  lemma AddStart(g: Graph, p: Id, port: int, index: map<string, MemberView>)
    ensures Adding(g, g, p, port, {}, index)
  {
  }

  lemma AddSkip(g0: Graph, g: Graph, p: Id, port: int, seen: set<string>, index: map<string, MemberView>, addr: string)
    requires Adding(g0, g, p, port, seen, index) && Indexes(index, g0, p)
    requires addr in index && index[addr].port == port
    ensures Adding(g0, g, p, port, seen + {addr}, index)
  {
    assert Lists(g0, p, index[addr]);
    assert ViewOf(g0, KeyOf(p, index[addr])) == index[addr];
  }

  lemma AddCreate(g0: Graph, g: Graph, p: Id, port: int, seen: set<string>, index: map<string, MemberView>, addr: string)
    requires Adding(g0, g, p, port, seen, index) && Indexes(index, g0, p)
    requires addr !in seen && !(addr in index && index[addr].port == port)
    ensures var k := MemberKey(p, addr, port);
            if k in g.members then !DistinctAddresses(g0, p)
            else k !in g0.members && Adding(g0, Apply(g, CreateMember(k)), p, port, seen + {addr}, index)
  {
    var k := MemberKey(p, addr, port);
    if k in g.members {
      var j := KeyOf(p, index[addr]);
      assert k in g0.members && j in g0.members && j.addr == k.addr && j != k;
    }
  }

  method AddMembers(c: Cloud, p: Id, addrs: set<string>, port: int, index: map<string, MemberView>,
                    ghost g0: Graph)
      returns (e: Outcome)
    requires c.Sound() && p in c.g.pools && g0 == c.g && Indexes(index, g0, p)
    modifies c`g, c`status, c`log, c`faults
    ensures c.Sound() && old(c.log) <= c.log
    ensures exists seen :: Adding(g0, c.g, p, port, seen, index)
    ensures e.Ok? ==> Adding(g0, c.g, p, port, addrs, index) && c.faults == old(c.faults)
    ensures MinimalOps(old(c.log), c.log, g0, p, addrs, port) && (c.log == old(c.log) ==> c.g == g0)
    ensures e.Failed? ==> c.faults > old(c.faults) || (e.why.Duplicate? && !DistinctAddresses(g0, p))
    ensures old(c.Quiet()) ==> AllActive(c.log) && (e.Ok? ==> c.Quiet())
  {
    hide Consistent, Recorded, AllClosed, AllActive, Closed, MinimalOps, Indexes, DistinctAddresses, Adding;
    var q := Enumerate(addrs);
    StartDiff(c.log, g0, p, addrs, port, []);
    ghost var seen: set<string> := {};
    AddStart(g0, p, port, index);
    for i := 0 to |q|
      invariant c.Sound() && old(c.log) <= c.log && c.g.pools == g0.pools
      invariant Adding(g0, c.g, p, port, seen, index) && seen == set x | x in q[..i]
      invariant MinimalOps(old(c.log), c.log, g0, p, addrs, port) && (c.log == old(c.log) ==> c.g == g0)
      invariant c.faults == old(c.faults)
      invariant old(c.Quiet()) ==> c.Quiet()
    {
      var addr := q[i];
      var k := MemberKey(p, addr, port);
      assert q[..i + 1] == q[..i] + [addr];
      assert addr !in q[..i] && addr in addrs;
      if addr in index && index[addr].port == port {
        AddSkip(g0, c.g, p, port, seen, index, addr);
        seen := seen + {addr};
        continue;
      }
      AddCreate(g0, c.g, p, port, seen, index, addr);
      MemberOpsKeepClosed(c.g, k, 0);
      if k !in c.g.members {
        OneMoreOp(old(c.log), c.log, Entry(CreateMember(k), c.status, Apply(c.g, CreateMember(k))), g0, p, addrs, port);
      }
      var r := c.Do(CreateMember(k));
      if r.Conflict? {
        return Failed(Duplicate);
      }
      if !r.Done? {
        return Failed(CloudFault);
      }
      seen := seen + {addr};
    }
    assert seen == addrs by {
      assert q[..|q|] == q;
    }
    return Ok;
  }

  lemma IndexedAreObsoleteOrKept(g0: Graph, g1: Graph, p: Id, port: int, want: set<string>, index: map<string, MemberView>)
    requires Indexes(index, g0, p) && Adding(g0, g1, p, port, want, index)
    ensures forall v :: v in index.Values ==>
              Lists(g1, p, v) && (!Kept(KeyOf(p, v), want, port) ==> Justified(DeleteMember(p, v.id), g0, p, want, port))
  {
    forall v | v in index.Values
      ensures Lists(g1, p, v) && (!Kept(KeyOf(p, v), want, port) ==> Justified(DeleteMember(p, v.id), g0, p, want, port))
    {
      var x :| x in index && index[x] == v;
      assert Lists(g0, p, v);
      assert KeyOf(p, v) in g0.members && g0.members[KeyOf(p, v)] == v.id;
    }
  }

  /** A successful address-keyed update leaves exactly the wanted members if and only if
      the pool's members had distinct addresses: a member hidden from the index survives. */
  lemma UpdateExact(g0: Graph, g1: Graph, g: Graph, p: Id, port: int, want: set<string>,
                    index: map<string, MemberView>, views: seq<MemberView>)
    requires Indexes(index, g0, p) && Adding(g0, g1, p, port, want, index)
    requires forall v :: v in views <==> v in index.Values
    requires Purging(g1, g, p, views, |views|, want, port)
    ensures PoolHolds(g, p, want, port) <==> DistinctAddresses(g0, p)
  {
    assert views[..|views|] == views;
    forall k: MemberKey | k.pool == p
      ensures k in g.members <==> Kept(k, want, port) || (k in g0.members && index[k.addr] != ViewOf(g0, k))
    {
      if k in g0.members {
        assert ViewOf(g1, k) == ViewOf(g0, k);
        assert index[k.addr] in index.Values;
        assert ViewOf(g0, k) in index.Values ==> index[k.addr] == ViewOf(g0, k);
      }
    }
    if PoolHolds(g, p, want, port) {
      HiddenIsNotWanted(g0, g1, g, p, port, want, index);
    }
    if DistinctAddresses(g0, p) {
      assert forall k :: k in g0.members && k.pool == p ==> KeyOf(p, index[k.addr]) == k;
    }
  }

  lemma HiddenIsNotWanted(g0: Graph, g1: Graph, g: Graph, p: Id, port: int, want: set<string>, index: map<string, MemberView>)
    requires Indexes(index, g0, p) && Adding(g0, g1, p, port, want, index)
    requires forall k: MemberKey :: k.pool == p ==>
               (k in g.members <==> Kept(k, want, port) || (k in g0.members && index[k.addr] != ViewOf(g0, k)))
    requires PoolHolds(g, p, want, port)
    ensures DistinctAddresses(g0, p)
  {
    forall j, k | j in g0.members && k in g0.members && j.pool == p && k.pool == p && j.addr == k.addr
      ensures j == k
    {
      assert index[j.addr] == ViewOf(g0, j) && index[k.addr] == ViewOf(g0, k);
    }
  }

  /** A pool with two members on one address. */
  ghost function TwoOnOneAddress(addr: string, x: int, y: int): Graph {
    Graph(true, map[0 := Listener(TCP, 80, -1)], map[1 := Pool(0, None)],
          map[MemberKey(1, addr, x) := 2, MemberKey(1, addr, y) := 3], map[], 4)
  }

  lemma TwoOnOneAddressIsSound(addr: string, x: int, y: int)
    requires x != y
    ensures Consistent(TwoOnOneAddress(addr, x, y)) && Closed(TwoOnOneAddress(addr, x, y))
  {
  }

  /** If the index shows only one of them and no node is wanted, the other is never deleted. */
  lemma HiddenMemberExample(addr: string, shown: int, hidden: int)
    requires shown != hidden
    ensures var g0, v := TwoOnOneAddress(addr, shown, hidden), MemberView(2, addr, shown);
            var g := g0.(members := map[MemberKey(1, addr, hidden) := 3]);
            && Indexes(map[addr := v], g0, 1)
            && Adding(g0, g0, 1, shown, {}, map[addr := v]) && Purging(g0, g, 1, [v], 1, {}, shown)
            && !PoolHolds(g, 1, {}, shown)
  {
    var g0, v, b := TwoOnOneAddress(addr, shown, hidden), MemberView(2, addr, shown), MemberKey(1, addr, hidden);
    var g := g0.(members := map[b := 3]);
    assert Purging(g0, g, 1, [v], 1, {}, shown) by {
      assert [v][..1] == [v];
      assert ViewOf(g0, MemberKey(1, addr, shown)) == v && ViewOf(g0, b) != v;
    }
    assert b in g.members;
  }

  /** One pool of UpdateLoadBalancer. */
  method UpdateMembers(c: Cloud, p: Id, addrs: set<string>, port: int) returns (e: Outcome)
    requires c.Sound() && p in c.g.pools
    modifies c`g, c`status, c`log, c`faults
    ensures c.Sound() && old(c.log) <= c.log && ShapeKept(old(c.g), c.g, {p})
    ensures e.Ok? ==> (PoolHolds(c.g, p, addrs, port) <==> DistinctAddresses(old(c.g), p)) && c.faults == old(c.faults)
    ensures MinimalOps(old(c.log), c.log, old(c.g), p, addrs, port) && (c.log == old(c.log) ==> c.g == old(c.g))
    ensures e.Failed? ==> c.faults > old(c.faults) || (e.why.Duplicate? && !DistinctAddresses(old(c.g), p))
    ensures old(c.Quiet()) ==> AllActive(c.log) && (e.Ok? ==> c.Quiet())
  {
    hide Consistent, Recorded, AllClosed, AllActive, Closed, MinimalOps, Justified, DistinctAddresses, Adding, Purging;
    ghost var g0 := c.g;
    var ok, a := c.ListMembers(p);
    if !ok {
      StartDiff(c.log, g0, p, addrs, port, []);
      return Failed(CloudFault);
    }
    var index := IndexByAddress(a);
    assert Indexes(index, g0, p) by {
      IndexIsComplete(g0, p, a[..], index);
    }
    hide Indexes, PoolHolds;
    e := AddMembers(c, p, addrs, port, index, g0);
    ghost var g1 := c.g;
    ghost var seen :| Adding(g0, g1, p, port, seen, index);
    if e.Failed? {
      AddingKeepsShape(g0, g1, p, port, seen, index);
      return;
    }
    IndexedAreObsoleteOrKept(g0, g1, p, port, addrs, index);
    var views := Enumerate(index.Values);
    e := DeleteMembers(c, p, views, addrs, port, g0, old(c.log), addrs);
    ghost var i :| Purging(g1, c.g, p, views, i, addrs, port);
    AddingKeepsShape(g0, g1, p, port, seen, index);
    PurgingKeepsShape(g1, c.g, p, views, i, addrs, port);
    if e.Ok? {
      UpdateExact(g0, g1, c.g, p, port, addrs, index, views);
    }
  }

  /** Only members of the given pools changed. */
  ghost predicate ShapeKept(g0: Graph, g: Graph, ps: set<Id>) {
    && g.up == g0.up && g.listeners == g0.listeners && g.pools == g0.pools && g.monitors == g0.monitors
    && (forall k: MemberKey :: k.pool !in ps ==> (k in g.members <==> k in g0.members))
  }

  lemma AddingKeepsShape(g0: Graph, g: Graph, p: Id, port: int, seen: set<string>, index: map<string, MemberView>)
    requires Adding(g0, g, p, port, seen, index)
    ensures ShapeKept(g0, g, {p})
  {
  }

  lemma PurgingKeepsShape(g0: Graph, g: Graph, p: Id, views: seq<MemberView>, i: nat, keep: set<string>, port: int)
    requires Purging(g0, g, p, views, i, keep, port)
    ensures ShapeKept(g0, g, {p})
  {
  }

  lemma IndexIsComplete(g: Graph, p: Id, s: seq<MemberView>, index: map<string, MemberView>)
    requires ListsMembers(s, g, p)
    requires forall x :: x in index ==> index[x] in s && index[x].addr == x
    requires forall v :: v in s ==> v.addr in index
    ensures Indexes(index, g, p)
  {
    forall k | k in g.members && k.pool == p
      ensures k.addr in index
    {
      assert ViewOf(g, k) in s;
    }
  }

  // ---- the whole call ----

  function PortOf(l: Listener): (string, int) {
    (l.protocol, l.port)
  }

  /** The pool behind a service port. */
  ghost predicate Serves(g: Graph, sp: ServicePort, p: Id) {
    exists l :: l in g.listeners && PortOf(g.listeners[l]) == (sp.protocol, sp.port) && PoolsOf(g, l) == {p}
  }

  ghost predicate PortIndex(m: map<(string, int), Id>, g: Graph) {
    && (forall x :: x in m ==> m[x] in g.listeners && PortOf(g.listeners[m[x]]) == x)
    && (forall l :: l in g.listeners ==> PortOf(g.listeners[l]) in m)
  }

  ghost predicate PoolIndex(m: map<Id, Id>, g: Graph) {
    forall l :: l in g.listeners ==> l in m && PoolsOf(g, l) == {m[l]}
  }

  method IndexListeners(c: Cloud, a: array<ListenerView>) returns (byPort: map<(string, int), Id>)
    requires ListsListeners(a[..], c.g)
    ensures PortIndex(byPort, c.g)
  {
    byPort := map[];
    for i := 0 to a.Length
      invariant forall x :: x in byPort ==> byPort[x] in c.g.listeners && PortOf(c.g.listeners[byPort[x]]) == x
      invariant forall j :: 0 <= j < i ==> PortOf(a[j].listener) in byPort
    {
      assert a[i] in a[..];
      byPort := byPort[PortOf(a[i].listener) := a[i].id];
    }
    forall l | l in c.g.listeners
      ensures PortOf(c.g.listeners[l]) in byPort
    {
      assert ListenerView(l, c.g.listeners[l]) in a[..];
    }
  }

  method IndexPools(c: Cloud, a: array<ListenerView>) returns (e: Outcome, pools: map<Id, Id>)
    requires ListsListeners(a[..], c.g)
    modifies c`faults
    ensures e.Ok? ==> PoolIndex(pools, c.g) && c.faults == old(c.faults)
    ensures e.Failed? ==> c.faults > old(c.faults) || ((e.why.MissingPool? || e.why.ManyPools?) && Refusal(e.why, c.g, [], []))
  {
    pools := map[];
    for i := 0 to a.Length
      invariant c.faults == old(c.faults)
      invariant forall j :: 0 <= j < i ==> a[j].id in pools && PoolsOf(c.g, a[j].id) == {pools[a[j].id]}
    {
      assert a[i] in a[..];
      var r := c.PoolOfListener(a[i].id);
      match r {
        case Found(p, _) => pools := pools[a[i].id := p];
        case NoPool => return Failed(MissingPool), pools;
        case Multiple => return Failed(ManyPools), pools;
        case PoolFault => return Failed(CloudFault), pools;
      }
    }
    forall l | l in c.g.listeners
      ensures l in pools && PoolsOf(c.g, l) == {pools[l]}
    {
      assert ListenerView(l, c.g.listeners[l]) in a[..];
    }
    return Ok, pools;
  }

  method AddressSet(nodes: seq<Node>) returns (ok: bool, addrs: set<string>)
    ensures ok <==> AllAddressed(nodes)
    ensures ok ==> addrs == Addresses(nodes)
  {
    addrs := {};
    for i := 0 to |nodes|
      invariant AllAddressed(nodes[..i]) && addrs == Addresses(nodes[..i])
    {
      var addr := NodeAddressForLB(nodes[i]);
      if addr.None? {
        return false, addrs;
      }
      AddressesGrow(nodes, i);
      addrs := addrs + {addr.value};
    }
    assert nodes[..|nodes|] == nodes;
    return true, addrs;
  }

  /** Why UpdateLoadBalancer may refuse without any call having failed. */
  ghost predicate Refusal(why: Why, g: Graph, ports: seq<ServicePort>, nodes: seq<Node>) {
    match why
    case BadService => ports == []
    case NoLoadBalancer => !g.up
    case MissingPool => exists l :: l in g.listeners && PoolsOf(g, l) == {}
    case ManyPools => exists l :: l in g.listeners && |PoolsOf(g, l)| > 1
    case NoAddress => !AllAddressed(nodes)
    case MissingListener =>
      exists sp :: sp in ports && forall l :: l in g.listeners ==> PortOf(g.listeners[l]) != (sp.protocol, sp.port)
    case Duplicate => exists p :: p in g.pools && !DistinctAddresses(g, p)
    case CloudFault => false
  }

  ghost function Elements(ps: seq<Id>): set<Id> {
    set p | p in ps
  }

  /** After the first `|ps|` ports, `ps` being their pools. */
  ghost predicate Updated(g0: Graph, g: Graph, ports: seq<ServicePort>, ps: seq<Id>, want: set<string>) {
    && |ps| <= |ports|
    && ShapeKept(g0, g, Elements(ps))
    && (forall p :: DistinctAddresses(g0, p) ==> DistinctAddresses(g, p))
    && (forall j :: 0 <= j < |ps| ==> Serves(g0, ports[j], ps[j]))
    && (DistinctPorts(ports) ==>
          forall j :: 0 <= j < |ps| ==> (PoolHolds(g, ps[j], want, ports[j].nodePort) <==> DistinctAddresses(g0, ps[j])))
  }

  lemma UpdateStart(g: Graph, ports: seq<ServicePort>, want: set<string>)
    ensures Updated(g, g, ports, [], want)
  {
  }

  lemma OtherPool(g0: Graph, ports: seq<ServicePort>, ps: seq<Id>, p: Id)
    requires |ps| < |ports| && DistinctPorts(ports)
    requires forall j :: 0 <= j < |ps| ==> Serves(g0, ports[j], ps[j])
    requires Serves(g0, ports[|ps|], p)
    ensures p !in ps
  {
    forall j | 0 <= j < |ps|
      ensures ps[j] != p
    {
      var l :| l in g0.listeners && PortOf(g0.listeners[l]) == (ports[j].protocol, ports[j].port) && PoolsOf(g0, l) == {ps[j]};
      var m :| m in g0.listeners && PortOf(g0.listeners[m]) == (ports[|ps|].protocol, ports[|ps|].port) && PoolsOf(g0, m) == {p};
      assert ps[j] in PoolsOf(g0, l) && p in PoolsOf(g0, m);
    }
  }

  lemma OtherPoolsUntouched(g: Graph, g': Graph, p: Id, q: Id, want: set<string>, port: int)
    requires ShapeKept(g, g', {p}) && q != p
    ensures PoolHolds(g, q, want, port) <==> PoolHolds(g', q, want, port)
    ensures DistinctAddresses(g, q) <==> DistinctAddresses(g', q)
  {
  }

  /** Holding one port's members makes the addresses distinct. */
  lemma HoldsDistinct(g: Graph, p: Id, want: set<string>, port: int)
    requires PoolHolds(g, p, want, port)
    ensures DistinctAddresses(g, p)
  {
  }

  lemma ShapeKeptTwice(g0: Graph, g: Graph, g': Graph, ps: set<Id>, p: Id)
    requires ShapeKept(g0, g, ps) && ShapeKept(g, g', {p})
    ensures ShapeKept(g0, g', ps + {p})
  {
  }

  lemma UpdateStep(g0: Graph, g: Graph, g': Graph, ports: seq<ServicePort>, ps: seq<Id>, want: set<string>, p: Id)
    requires Updated(g0, g, ports, ps, want) && |ps| < |ports| && Serves(g0, ports[|ps|], p)
    requires ShapeKept(g, g', {p})
    requires PoolHolds(g', p, want, ports[|ps|].nodePort) <==> DistinctAddresses(g, p)
    ensures Updated(g0, g', ports, ps + [p], want)
  {
    hide Serves, DistinctAddresses, PoolHolds, DistinctPorts, ShapeKept;
    ShapeKeptTwice(g0, g, g', Elements(ps), p);
    assert Elements(ps + [p]) == Elements(ps) + {p};
    forall q | DistinctAddresses(g0, q)
      ensures DistinctAddresses(g', q)
    {
      if q == p {
        HoldsDistinct(g', p, want, ports[|ps|].nodePort);
      } else {
        OtherPoolsUntouched(g, g', p, q, want, 0);
      }
    }
    if DistinctPorts(ports) {
      OtherPool(g0, ports, ps, p);
      UntouchedSoFar(g0, g, Elements(ps), p);
      forall j | 0 <= j < |ps|
        ensures PoolHolds(g', ps[j], want, ports[j].nodePort) <==> DistinctAddresses(g0, ps[j])
      {
        OtherPoolsUntouched(g, g', p, ps[j], want, ports[j].nodePort);
      }
    }
  }

  lemma UntouchedSoFar(g0: Graph, g: Graph, ps: set<Id>, p: Id)
    requires ShapeKept(g0, g, ps) && p !in ps
    ensures DistinctAddresses(g0, p) <==> DistinctAddresses(g, p)
  {
  }

  /** UpdateLoadBalancer. On success every service port has its pool, nothing but members
      changed, and (ports being distinct) every one of those pools holds exactly the nodes
      if and only if its members had distinct addresses. */
  method UpdateLoadBalancer(c: Cloud, ports: seq<ServicePort>, nodes: seq<Node>) returns (e: Outcome, ghost ps: seq<Id>)
    requires c.Sound()
    modifies c`g, c`status, c`log, c`faults
    ensures c.Sound() && old(c.log) <= c.log && Recorded(old(c.g), c.log[|old(c.log)|..], c.g)
    ensures e.Ok? ==> |ps| == |ports| && Updated(old(c.g), c.g, ports, ps, Addresses(nodes)) && c.faults == old(c.faults)
    ensures e.Failed? ==> c.faults > old(c.faults) || Refusal(e.why, old(c.g), ports, nodes)
    ensures old(c.Quiet()) ==> AllActive(c.log) && (e.Ok? ==> c.Quiet())
  {
    hide Consistent, Recorded, AllClosed, AllActive, Closed, PortIndex, PoolIndex, Updated;
    RecordedFromNowOn(c.start, c.log, c.g);
    ps := [];
    if |ports| == 0 {
      return Failed(BadService), ps;
    }
    var ok, found := c.LookupLb();
    if !ok {
      return Failed(CloudFault), ps;
    }
    if !found {
      return Failed(NoLoadBalancer), ps;
    }
    var listed, a := c.ListListeners();
    if !listed {
      return Failed(CloudFault), ps;
    }
    var byPort := IndexListeners(c, a);
    var pools;
    e, pools := IndexPools(c, a);
    if e.Failed? {
      return;
    }
    var addressed, addrs := AddressSet(nodes);
    if !addressed {
      return Failed(NoAddress), ps;
    }
    e, ps := UpdatePorts(c, ports, addrs, byPort, pools);
  }

  /** The loop over the service ports. */
  method UpdatePorts(c: Cloud, ports: seq<ServicePort>, addrs: set<string>, byPort: map<(string, int), Id>, pools: map<Id, Id>)
      returns (e: Outcome, ghost ps: seq<Id>)
    requires c.Sound() && PortIndex(byPort, c.g) && PoolIndex(pools, c.g)
    modifies c`g, c`status, c`log, c`faults
    ensures c.Sound() && old(c.log) <= c.log
    ensures e.Ok? ==> |ps| == |ports| && Updated(old(c.g), c.g, ports, ps, addrs) && c.faults == old(c.faults)
    ensures e.Failed? ==> c.faults > old(c.faults) || Refusal(e.why, old(c.g), ports, [])
    ensures old(c.Quiet()) ==> AllActive(c.log) && (e.Ok? ==> c.Quiet())
  {
    hide Consistent, Recorded, AllClosed, AllActive, Closed, Updated, DistinctAddresses, PoolHolds, PoolsOf;
    ghost var g0 := c.g;
    ps := [];
    UpdateStart(g0, ports, addrs);
    for i := 0 to |ports|
      invariant c.Sound() && old(c.log) <= c.log && |ps| == i && Updated(g0, c.g, ports, ps, addrs) && c.g.pools == g0.pools
      invariant c.faults == old(c.faults)
      invariant old(c.Quiet()) ==> c.Quiet()
    {
      var key := (ports[i].protocol, ports[i].port);
      if key !in byPort {
        assert ports[i] in ports;
        return Failed(MissingListener), ps;
      }
      var l := byPort[key];
      if l !in pools {
        return Failed(MissingPool), ps;
      }
      var p := pools[l];
      FoundPool(g0, ports[i], l, p);
      ghost var g := c.g;
      e := UpdateMembers(c, p, addrs, ports[i].nodePort);
      if e.Failed? {
        StillDistinct(g0, g, ports, ps, addrs, p);
        return;
      }
      UpdateStep(g0, g, c.g, ports, ps, addrs, p);
      ps := ps + [p];
    }
    return Ok, ps;
  }

  lemma FoundPool(g: Graph, sp: ServicePort, l: Id, p: Id)
    requires l in g.listeners && PortOf(g.listeners[l]) == (sp.protocol, sp.port) && PoolsOf(g, l) == {p}
    ensures Serves(g, sp, p) && p in g.pools
  {
    assert p in PoolsOf(g, l);
  }

  lemma StillDistinct(g0: Graph, g: Graph, ports: seq<ServicePort>, ps: seq<Id>, want: set<string>, p: Id)
    requires Updated(g0, g, ports, ps, want)
    ensures !DistinctAddresses(g, p) ==> !DistinctAddresses(g0, p)
  {
  }
}
