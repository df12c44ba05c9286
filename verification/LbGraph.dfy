/** The resources below one LBaaS v2 load balancer, and the API calls that change them.

    Members are indexed by what the API keeps unique, the (pool, address, port) triple,
    and carry the id under which they are deleted. */
module LbGraph {
  import opened Common

  type Id = nat

  const TCP := "TCP"

  datatype Listener = Listener(protocol: string, port: int, connLimit: int)
  datatype Pool = Pool(listener: Id, monitor: Option<Id>)
  datatype MemberKey = MemberKey(pool: Id, addr: string, port: int)

  datatype Graph = Graph(
    up: bool,
    listeners: map<Id, Listener>,
    pools: map<Id, Pool>,
    members: map<MemberKey, Id>,
    monitors: map<Id, Id>,
    next: Id)

  datatype Op =
    | CreateLb
    | DeleteLb
    | CreateListener(listener: Listener)
    | UpdateListener(id: Id, connLimit: int)
    | DeleteListener(id: Id)
    | CreatePool(owner: Id)
    | DeletePool(id: Id)
    | CreateMember(key: MemberKey)
    | DeleteMember(pool: Id, id: Id)
    | CreateMonitor(pool: Id)
    | DeleteMonitor(id: Id)

  /** Nothing outlives what it hangs from. */
  ghost predicate Closed(g: Graph) {
    && (forall l :: l in g.listeners ==> g.up)
    && (forall p :: p in g.pools ==> g.pools[p].listener in g.listeners)
    && (forall k :: k in g.members ==> k.pool in g.pools)
    && (forall h :: h in g.monitors ==> g.monitors[h] in g.pools)
  }

  /** What the API itself maintains: fresh ids, unique member ids, one listener per
      protocol and port, and a pool that names the monitor attached to it. */
  ghost predicate Consistent(g: Graph) {
    IdsIssued(g) && MemberIdsUnique(g) && MonitorsNamed(g) && PortsUnique(g)
  }

  ghost predicate IdsIssued(g: Graph) {
    && (forall l :: l in g.listeners ==> l < g.next)
    && (forall p :: p in g.pools ==> p < g.next && g.pools[p].listener < g.next)
    && (forall h :: h in g.monitors ==> h < g.next && g.monitors[h] < g.next)
    && (forall k :: k in g.members ==> g.members[k] < g.next && k.pool < g.next)
  }

  ghost predicate MemberIdsUnique(g: Graph) {
    forall j, k :: j in g.members && k in g.members && g.members[j] == g.members[k] ==> j == k
  }

  ghost predicate MonitorsNamed(g: Graph) {
    && (forall h :: h in g.monitors && g.monitors[h] in g.pools ==> g.pools[g.monitors[h]].monitor == Some(h))
    && (forall p, h :: p in g.pools && g.pools[p].monitor == Some(h) ==> h in g.monitors && g.monitors[h] == p)
  }

  ghost predicate PortsUnique(g: Graph) {
    forall a, b :: a in g.listeners && b in g.listeners && SamePort(g.listeners[a], g.listeners[b]) ==> a == b
  }

  predicate SamePort(a: Listener, b: Listener) {
    a.protocol == b.protocol && a.port == b.port
  }

  /** Whether a delete or an update names something that is there. */
  predicate Present(g: Graph, op: Op) {
    match op
    case DeleteLb => g.up
    case UpdateListener(l, _) => l in g.listeners
    case DeleteListener(l) => l in g.listeners
    case DeletePool(p) => p in g.pools
    case DeleteMember(p, id) => exists k :: k in g.members && k.pool == p && g.members[k] == id
    case DeleteMonitor(h) => h in g.monitors
    case _ => true
  }

  /** Whether the API has room for what a create asks for. */
  predicate Accepts(g: Graph, op: Op) {
    match op
    case CreateLb => !g.up
    case CreateListener(l) => g.up && forall x :: x in g.listeners ==> !SamePort(g.listeners[x], l)
    case CreatePool(l) => l in g.listeners
    case CreateMember(k) => k.pool in g.pools && k !in g.members
    case CreateMonitor(p) => p in g.pools && g.pools[p].monitor.None?
    case _ => true
  }

  /** The effect of one accepted call. Deletes are raw: they do not cascade. */
  function Apply(g: Graph, op: Op): Graph {
    match op
    case CreateLb => g.(up := true)
    case DeleteLb => g.(up := false)
    case CreateListener(l) => g.(listeners := g.listeners[g.next := l], next := g.next + 1)
    case UpdateListener(l, c) =>
      if l in g.listeners then g.(listeners := g.listeners[l := g.listeners[l].(connLimit := c)]) else g
    case DeleteListener(l) => g.(listeners := g.listeners - {l})
    case CreatePool(l) => g.(pools := g.pools[g.next := Pool(l, None)], next := g.next + 1)
    case DeletePool(p) => g.(pools := g.pools - {p})
    case CreateMember(k) => g.(members := g.members[k := g.next], next := g.next + 1)
    case DeleteMember(p, id) =>
      g.(members := map k | k in g.members && !(k.pool == p && g.members[k] == id) :: g.members[k])
    case CreateMonitor(p) =>
      if p in g.pools then
        g.(pools := g.pools[p := g.pools[p].(monitor := Some(g.next))],
           monitors := g.monitors[g.next := p], next := g.next + 1)
      else g
    case DeleteMonitor(h) =>
      if h in g.monitors && g.monitors[h] in g.pools then
        var p := g.monitors[h];
        g.(pools := g.pools[p := g.pools[p].(monitor := None)], monitors := g.monitors - {h})
      else g.(monitors := g.monitors - {h})
  }

  lemma ApplyConsistent(g: Graph, op: Op)
    requires Consistent(g) && Accepts(g, op)
    ensures Consistent(Apply(g, op))
  {
    ApplyIdsIssued(g, op);
    ApplyMonitorsNamed(g, op);
    ApplyKeysUnique(g, op);
  }

  lemma ApplyIdsIssued(g: Graph, op: Op)
    requires IdsIssued(g) && Accepts(g, op)
    ensures IdsIssued(Apply(g, op))
  {
  }

  lemma ApplyMonitorsNamed(g: Graph, op: Op)
    requires IdsIssued(g) && MonitorsNamed(g) && Accepts(g, op)
    ensures MonitorsNamed(Apply(g, op))
  {
    match op
    case CreatePool(l) => NamedWithPool(g, g.next, Pool(l, None));
    case DeletePool(p) => NamedWithoutPool(g, p);
    case CreateMonitor(p) => NamedWithMonitor(g, p);
    case DeleteMonitor(h) => NamedWithoutMonitor(g, h);
    case _ =>
  }

  lemma NamedWithPool(g: Graph, p: Id, pool: Pool)
    requires MonitorsNamed(g) && IdsIssued(g) && p == g.next && pool.monitor.None?
    ensures MonitorsNamed(g.(pools := g.pools[p := pool], next := g.next + 1))
  {
  }

  lemma NamedWithoutPool(g: Graph, p: Id)
    requires MonitorsNamed(g)
    ensures MonitorsNamed(g.(pools := g.pools - {p}))
  {
  }

  lemma NamedWithMonitor(g: Graph, p: Id)
    requires MonitorsNamed(g) && IdsIssued(g) && p in g.pools && g.pools[p].monitor.None?
    ensures MonitorsNamed(g.(pools := g.pools[p := g.pools[p].(monitor := Some(g.next))], monitors := g.monitors[g.next := p], next := g.next + 1))
  {
  }

  lemma NamedWithoutMonitor(g: Graph, h: Id)
    requires MonitorsNamed(g)
    ensures MonitorsNamed(Apply(g, DeleteMonitor(h)))
  {
  }

  lemma ApplyKeysUnique(g: Graph, op: Op)
    requires IdsIssued(g) && MemberIdsUnique(g) && PortsUnique(g) && Accepts(g, op)
    ensures MemberIdsUnique(Apply(g, op)) && PortsUnique(Apply(g, op))
  {
  }

  ghost function PoolsOf(g: Graph, l: Id): set<Id> {
    set p | p in g.pools && g.pools[p].listener == l
  }

  /** The pool holds exactly one member per address, all on one port. */
  ghost predicate PoolHolds(g: Graph, p: Id, addrs: set<string>, port: int) {
    forall k: MemberKey :: k.pool == p ==> (k in g.members <==> k.addr in addrs && k.port == port)
  }

  ghost predicate DistinctAddresses(g: Graph, p: Id) {
    forall j, k :: j in g.members && k in g.members && j.pool == p && k.pool == p && j.addr == k.addr ==> j == k
  }
}
