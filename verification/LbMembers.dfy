/** The two ways a pool's members are brought in line with the nodes: the list-popping
    diff of EnsureLoadBalancer and the address-keyed diff of UpdateLoadBalancer. */
module LbMembers {
  import opened Common
  import opened LbGraph
  import opened LbCloud
  import opened LbPop

  datatype AddressKind = InternalIP | ExternalIP | Hostname
  datatype NodeAddress = NodeAddress(kind: AddressKind, addr: string)
  datatype Node = Node(addresses: seq<NodeAddress>)

  datatype ServicePort = ServicePort(protocol: string, port: int, nodePort: int)

  ghost predicate DistinctPorts(ports: seq<ServicePort>) {
    forall i, j :: 0 <= i < j < |ports| ==> ports[i].protocol != ports[j].protocol || ports[i].port != ports[j].port
  }

  function FirstOfKind(s: seq<NodeAddress>, kind: AddressKind): (r: Option<string>)
    ensures r.None? ==> forall i :: 0 <= i < |s| ==> s[i].kind != kind
    ensures r.Some? ==> exists i :: 0 <= i < |s| && s[i] == NodeAddress(kind, r.value) && forall j :: 0 <= j < i ==> s[j].kind != kind
  {
    if s == [] then None
    else if s[0].kind == kind then Some(s[0].addr)
    else FirstOfKind(s[1..], kind)
  }

  /** `nodeAddressForLB`. Its failure is a "no address" error, not the "not found" error
      that EnsureLoadBalancer would skip over. */
  function NodeAddressForLB(node: Node): Option<string> {
    var internal := FirstOfKind(node.addresses, InternalIP);
    if internal.Some? then internal else FirstOfKind(node.addresses, ExternalIP)
  }

  /** The first internal address, or the first external one of a node without internal ones. */
  lemma NodeAddressIsPreferred(node: Node)
    ensures var s, r := node.addresses, NodeAddressForLB(node);
            && (r.Some? ==> exists i ::
                  && 0 <= i < |s| && s[i].addr == r.value && (s[i].kind == InternalIP || s[i].kind == ExternalIP)
                  && (forall j :: 0 <= j < i ==> s[j].kind != s[i].kind)
                  && (s[i].kind == ExternalIP ==> forall j :: 0 <= j < |s| ==> s[j].kind != InternalIP))
            && (r.None? ==> forall j :: 0 <= j < |s| ==> s[j].kind != InternalIP && s[j].kind != ExternalIP)
  {
  }

  /** The addresses wanted are those of the nodes, and nothing else. */
  lemma AddressesAreTheNodes(nodes: seq<Node>, addr: string)
    ensures addr in Addresses(nodes) <==> exists i :: 0 <= i < |nodes| && NodeAddressForLB(nodes[i]) == Some(addr)
  {
  }

  ghost function Addresses(nodes: seq<Node>): set<string> {
    set n | n in nodes && NodeAddressForLB(n).Some? :: NodeAddressForLB(n).value
  }

  ghost predicate DistinctNodes(nodes: seq<Node>) {
    forall i, j :: 0 <= i < j < |nodes| ==> NodeAddressForLB(nodes[i]) != NodeAddressForLB(nodes[j])
  }

  ghost predicate AllAddressed(nodes: seq<Node>) {
    forall n :: n in nodes ==> NodeAddressForLB(n).Some?
  }

  lemma AddressesGrow(nodes: seq<Node>, i: nat)
    requires i < |nodes| && NodeAddressForLB(nodes[i]).Some?
    ensures Addresses(nodes[..i + 1]) == Addresses(nodes[..i]) + {NodeAddressForLB(nodes[i]).value}
  {
    assert nodes[..i + 1] == nodes[..i] + [nodes[i]];
  }

  lemma StillDistinctNodes(nodes: seq<Node>, i: nat)
    requires i < |nodes| && NodeAddressForLB(nodes[i]).Some? && DistinctNodes(nodes[..i])
    requires NodeAddressForLB(nodes[i]).value !in Addresses(nodes[..i])
    ensures DistinctNodes(nodes[..i + 1])
  {
    hide NodeAddressForLB;
    forall j | 0 <= j < i
      ensures NodeAddressForLB(nodes[j]) != NodeAddressForLB(nodes[i])
    {
      assert nodes[..i][j] == nodes[j] && nodes[j] in nodes[..i];
    }
  }

  function KeyOf(p: Id, v: MemberView): MemberKey {
    MemberKey(p, v.addr, v.port)
  }

  ghost predicate Lists(g: Graph, p: Id, v: MemberView) {
    KeyOf(p, v) in g.members && g.members[KeyOf(p, v)] == v.id
  }

  /** `g` is `g0` but for the members of pool `p`; members that stay keep their id. */
  ghost predicate OnlyMembersOf(g0: Graph, g: Graph, p: Id) {
    && g.up == g0.up && g.listeners == g0.listeners && g.pools == g0.pools && g.monitors == g0.monitors
    && (forall k: MemberKey :: k.pool != p ==> (k in g.members <==> k in g0.members))
    && (forall k :: k in g.members && k in g0.members ==> g.members[k] == g0.members[k])
  }

  /** Creates are wanted and were missing; deletes are unwanted and were there. */
  ghost predicate Justified(op: Op, g0: Graph, p: Id, want: set<string>, port: int) {
    match op
    case CreateMember(k) => k.pool == p && k.addr in want && k.port == port && k !in g0.members
    case DeleteMember(q, id) =>
      q == p && exists k :: k in g0.members && g0.members[k] == id && k.pool == p && !(k.addr in want && k.port == port)
    case _ => false
  }

  ghost predicate MinimalOps(log0: seq<Entry>, log: seq<Entry>, g0: Graph, p: Id, want: set<string>, port: int) {
    && log0 <= log
    && forall i :: |log0| <= i < |log| ==> Justified(log[i].op, g0, p, want, port)
  }

  lemma OneMoreOp(log0: seq<Entry>, log: seq<Entry>, x: Entry, g0: Graph, p: Id, want: set<string>, port: int)
    requires MinimalOps(log0, log, g0, p, want, port) && Justified(x.op, g0, p, want, port)
    ensures MinimalOps(log0, log + [x], g0, p, want, port) && log + [x] != log0
  {
  }

  /** A pool that already holds what is wanted leaves nothing to justify. */
  lemma NothingToDo(log0: seq<Entry>, log: seq<Entry>, g0: Graph, p: Id, want: set<string>, port: int)
    requires MinimalOps(log0, log, g0, p, want, port) && PoolHolds(g0, p, want, port)
    ensures log == log0
  {
    forall op
      ensures !Justified(op, g0, p, want, port)
    {
    }
    assert |log| > |log0| ==> Justified(log[|log0|].op, g0, p, want, port);
  }

  // ---- the diff of EnsureLoadBalancer ----

  /** After the nodes with addresses `seen`: their members are there, and `rest` lists the
      old members that none of them claimed. */
  ghost predicate Diffing(g0: Graph, g: Graph, p: Id, port: int, seen: set<string>, rest: seq<MemberView>) {
    && OnlyMembersOf(g0, g, p)
    && (forall k: MemberKey :: k.pool == p ==> (k in g.members <==> k in g0.members || (k.addr in seen && k.port == port)))
    && NoDuplicates(rest)
    && (forall v :: v in rest <==> Lists(g0, p, v) && !(v.addr in seen && v.port == port))
  }

  lemma DiffCreate(g0: Graph, g: Graph, p: Id, port: int, seen: set<string>, rest: seq<MemberView>, addr: string)
    requires Diffing(g0, g, p, port, seen, rest)
    requires forall v :: v in rest ==> !Matches(v, addr, port)
    ensures MemberKey(p, addr, port) in g.members ==> addr in seen
    ensures MemberKey(p, addr, port) !in g.members ==>
              Diffing(g0, Apply(g, CreateMember(MemberKey(p, addr, port))), p, port, seen + {addr}, rest)
  {
    var k := MemberKey(p, addr, port);
    if k in g0.members {
      assert Lists(g0, p, MemberView(g0.members[k], addr, port));
    }
  }

  lemma DiffPop(g0: Graph, g: Graph, p: Id, port: int, seen: set<string>, rest: seq<MemberView>,
                popped: seq<MemberView>, addr: string)
    requires Diffing(g0, g, p, port, seen, rest)
    requires exists v :: v in rest && Matches(v, addr, port)
    requires multiset(popped) == multiset(Keep(rest, addr, port))
    ensures Diffing(g0, g, p, port, seen + {addr}, popped)
  {
    KeepElements(rest, addr, port);
    SameElements(popped, Keep(rest, addr, port));
  }

  lemma SameElements<T>(s: seq<T>, t: seq<T>)
    requires multiset(s) == multiset(t) && NoDuplicates(t)
    ensures NoDuplicates(s) && forall x :: x in s <==> x in t
  {
    assert forall x :: x in s <==> x in multiset(s);
    assert forall x :: x in t <==> x in multiset(t);
    forall i, j | 0 <= i < j < |s|
      ensures s[i] != s[j]
    {
      OnceEach(t, s[i]);
      Twice(s, i, j);
    }
  }

  lemma Twice<T>(s: seq<T>, i: nat, j: nat)
    requires i < j < |s|
    ensures s[i] == s[j] ==> multiset(s)[s[i]] >= 2
  {
    assert s == s[..i] + [s[i]] + s[i + 1..j] + [s[j]] + s[j + 1..];
  }

  lemma {:induction false} OnceEach<T>(t: seq<T>, x: T)
    requires NoDuplicates(t)
    ensures multiset(t)[x] <= 1
  {
    if |t| > 0 {
      OnceEach(t[1..], x);
      assert t == [t[0]] + t[1..];
      assert t[0] !in t[1..];
    }
  }

  method MemberExists(a: array<MemberView>, n: nat, addr: string, port: int) returns (r: bool)
    requires n <= a.Length
    ensures r <==> exists v :: v in a[..n] && Matches(v, addr, port)
  {
    for i := 0 to n
      invariant forall j :: 0 <= j < i ==> !Matches(a[j], addr, port)
    {
      if a[i].addr == addr && a[i].port == port {
        assert a[i] in a[..n];
        return true;
      }
    }
    return false;
  }

  lemma AtMostOneMatch(g0: Graph, g: Graph, p: Id, port: int, seen: set<string>, rest: seq<MemberView>, addr: string)
    requires Diffing(g0, g, p, port, seen, rest)
    ensures TailFree(rest, addr, port)
  {
    forall i, j | 0 <= i < j < |rest|
      ensures !(Matches(rest[i], addr, port) && Matches(rest[j], addr, port))
    {
      assert Lists(g0, p, rest[i]) && Lists(g0, p, rest[j]);
    }
    UniqueMatchIsTailFree(rest, addr, port);
  }

  /** One node of EnsureLoadBalancer's member loop. */
  method EnsureMember(c: Cloud, ghost g0: Graph, p: Id, a: array<MemberView>, n: nat, addr: string, port: int,
                      ghost seen: set<string>, ghost want: set<string>, ghost log0: seq<Entry>)
      returns (e: Outcome, m: nat)
    requires c.Sound() && p in c.g.pools && addr in want
    requires n <= a.Length && Diffing(g0, c.g, p, port, seen, a[..n])
    requires MinimalOps(log0, c.log, g0, p, want, port) && (c.log == log0 ==> c.g == g0)
    modifies c`g, c`status, c`log, c`faults, a
    ensures c.Sound() && old(c.log) <= c.log && m <= a.Length && OnlyMembersOf(g0, c.g, p)
    ensures e.Ok? ==> Diffing(g0, c.g, p, port, seen + {addr}, a[..m]) && addr !in seen && c.faults == old(c.faults)
    ensures MinimalOps(log0, c.log, g0, p, want, port) && (c.log == log0 ==> c.g == g0)
    ensures e.Failed? ==> c.faults > old(c.faults) || (e.why.Duplicate? && addr in seen)
    ensures old(c.Quiet()) ==> AllActive(c.log) && (e.Ok? ==> c.Quiet())
  {
    hide Consistent, Recorded, AllClosed, AllActive, Closed;
    m := n;
    var present := MemberExists(a, n, addr, port);
    MemberOpsKeepClosed(c.g, MemberKey(p, addr, port), 0);
    if !present {
      DiffCreate(g0, c.g, p, port, seen, a[..n], addr);
      var r := c.Do(CreateMember(MemberKey(p, addr, port)));
      if r.Conflict? {
        return Failed(Duplicate), m;
      }
      if !r.Done? {
        return Failed(CloudFault), m;
      }
    } else {
      AtMostOneMatch(g0, c.g, p, port, seen, a[..n], addr);
      ghost var rest := a[..n];
      var r := PopMember(a, n, addr, port);
      m := r.value;
      DiffPop(g0, c.g, p, port, seen, rest, a[..m], addr);
    }
    return Ok, m;
  }

  /** The loop over the nodes: creates what is missing, pops what is claimed. */
  method ClaimMembers(c: Cloud, ghost g0: Graph, p: Id, a: array<MemberView>, nodes: seq<Node>, port: int)
      returns (e: Outcome, n: nat)
    requires c.Sound() && p in c.g.pools && g0 == c.g && ListsMembers(a[..], g0, p)
    modifies c`g, c`status, c`log, c`faults, a
    ensures c.Sound() && old(c.log) <= c.log && n <= a.Length && OnlyMembersOf(g0, c.g, p)
    ensures e.Ok? ==> Diffing(g0, c.g, p, port, Addresses(nodes), a[..n]) && AllAddressed(nodes) && DistinctNodes(nodes) && c.faults == old(c.faults)
    ensures MinimalOps(old(c.log), c.log, g0, p, Addresses(nodes), port) && (c.log == old(c.log) ==> c.g == g0)
    ensures e.Failed? ==>
              c.faults > old(c.faults) || (e.why.NoAddress? && !AllAddressed(nodes)) || (e.why.Duplicate? && !DistinctNodes(nodes))
    ensures old(c.Quiet()) ==> AllActive(c.log) && (e.Ok? ==> c.Quiet())
  {
    hide Consistent, Recorded, AllClosed, Closed, AllActive, MinimalOps;
    n := a.Length;
    StartDiff(old(c.log), g0, p, Addresses(nodes), port, a[..]);
    assert a[..n] == a[..] && nodes[..0] == [];
    for i := 0 to |nodes|
      invariant c.Sound() && old(c.log) <= c.log && p in c.g.pools && n <= a.Length
      invariant Diffing(g0, c.g, p, port, Addresses(nodes[..i]), a[..n])
      invariant AllAddressed(nodes[..i]) && DistinctNodes(nodes[..i])
      invariant MinimalOps(old(c.log), c.log, g0, p, Addresses(nodes), port) && (c.log == old(c.log) ==> c.g == g0)
      invariant c.faults == old(c.faults)
      invariant old(c.Quiet()) ==> c.Quiet()
    {
      var addr := NodeAddressForLB(nodes[i]);
      if addr.None? {
        return Failed(NoAddress), n;
      }
      AddressesGrow(nodes, i);
      assert nodes[i] in nodes;
      e, n := EnsureMember(c, g0, p, a, n, addr.value, port, Addresses(nodes[..i]), Addresses(nodes), old(c.log));
      if e.Failed? {
        return e, n;
      }
      StillDistinctNodes(nodes, i);
    }
    assert nodes[..|nodes|] == nodes;
    e := Ok;
  }

  lemma StartDiff(log: seq<Entry>, g: Graph, p: Id, want: set<string>, port: int, s: seq<MemberView>)
    ensures ListsMembers(s, g, p) ==> Diffing(g, g, p, port, {}, s)
    ensures MinimalOps(log, log, g, p, want, port)
  {
  }

  // ---- deleting listed members ----

  predicate Kept(k: MemberKey, keep: set<string>, port: int) {
    k.addr in keep && k.port == port
  }

  ghost function ViewOf(g: Graph, k: MemberKey): MemberView
    requires k in g.members
  {
    MemberView(g.members[k], k.addr, k.port)
  }

  /** After `i` of the views: those of them that are not to be kept are gone. */
  ghost predicate Purging(g1: Graph, g: Graph, p: Id, views: seq<MemberView>, i: nat, keep: set<string>, port: int) {
    && i <= |views|
    && OnlyMembersOf(g1, g, p)
    && (forall k: MemberKey :: k.pool == p ==>
          (k in g.members <==> k in g1.members && (Kept(k, keep, port) || ViewOf(g1, k) !in views[..i])))
  }

  lemma PurgeStart(g: Graph, p: Id, views: seq<MemberView>, keep: set<string>, port: int)
    ensures Purging(g, g, p, views, 0, keep, port)
  {
  }

  lemma PurgeKeep(g1: Graph, g: Graph, p: Id, views: seq<MemberView>, i: nat, keep: set<string>, port: int)
    requires i < |views| && Purging(g1, g, p, views, i, keep, port)
    requires Kept(KeyOf(p, views[i]), keep, port)
    ensures Purging(g1, g, p, views, i + 1, keep, port)
  {
    assert views[..i + 1] == views[..i] + [views[i]];
  }

  lemma PurgeDelete(g1: Graph, g: Graph, p: Id, views: seq<MemberView>, i: nat, keep: set<string>, port: int)
    requires i < |views| && Purging(g1, g, p, views, i, keep, port)
    requires NoDuplicates(views) && Lists(g1, p, views[i]) && Consistent(g)
    requires !Kept(KeyOf(p, views[i]), keep, port)
    ensures Present(g, DeleteMember(p, views[i].id))
    ensures Purging(g1, Apply(g, DeleteMember(p, views[i].id)), p, views, i + 1, keep, port)
  {
    hide IdsIssued, MonitorsNamed, PortsUnique;
    var k := KeyOf(p, views[i]);
    assert views[..i + 1] == views[..i] + [views[i]];
    assert ViewOf(g1, k) == views[i] && views[i] !in views[..i];
    assert k in g.members && g.members[k] == views[i].id;
  }

  lemma MemberOpsKeepClosed(g: Graph, k: MemberKey, id: Id)
    requires Closed(g)
    ensures Closed(Apply(g, DeleteMember(k.pool, id)))
    ensures k.pool in g.pools ==> Closed(Apply(g, CreateMember(k)))
  {
  }

  /** Deletes the listed members of a pool, except those on the kept addresses and port. */
  method DeleteMembers(c: Cloud, p: Id, views: seq<MemberView>, keep: set<string>, port: int,
                       ghost g0: Graph, ghost log0: seq<Entry>, ghost want: set<string>)
      returns (e: Outcome)
    requires c.Sound() && NoDuplicates(views) && forall v :: v in views ==> Lists(c.g, p, v)
    requires MinimalOps(log0, c.log, g0, p, want, port) && (c.log == log0 ==> c.g == g0)
    requires forall v :: v in views && !Kept(KeyOf(p, v), keep, port) ==> Justified(DeleteMember(p, v.id), g0, p, want, port)
    modifies c`g, c`status, c`log, c`faults
    ensures c.Sound() && old(c.log) <= c.log
    ensures exists i :: Purging(old(c.g), c.g, p, views, i, keep, port)
    ensures e.Ok? ==> Purging(old(c.g), c.g, p, views, |views|, keep, port) && c.faults == old(c.faults)
    ensures MinimalOps(log0, c.log, g0, p, want, port) && (c.log == log0 ==> c.g == g0)
    ensures e.Failed? ==> c.faults > old(c.faults)
    ensures old(c.Quiet()) ==> AllActive(c.log) && (e.Ok? ==> c.Quiet())
  {
    hide Recorded, AllClosed, AllActive, Consistent, Closed, MinimalOps, Justified, Purging, Apply;
    ghost var g1 := c.g;
    PurgeStart(g1, p, views, keep, port);
    for i := 0 to |views|
      invariant c.Sound() && old(c.log) <= c.log && Purging(g1, c.g, p, views, i, keep, port)
      invariant MinimalOps(log0, c.log, g0, p, want, port) && (c.log == log0 ==> c.g == g0)
      invariant c.faults == old(c.faults)
      invariant old(c.Quiet()) ==> c.Quiet()
    {
      if views[i].addr in keep && views[i].port == port {
        PurgeKeep(g1, c.g, p, views, i, keep, port);
        continue;
      }
      PurgeDelete(g1, c.g, p, views, i, keep, port);
      MemberOpsKeepClosed(c.g, KeyOf(p, views[i]), views[i].id);
      OneMoreOp(log0, c.log, Entry(DeleteMember(p, views[i].id), c.status, Apply(c.g, DeleteMember(p, views[i].id))),
                g0, p, want, port);
      var r := c.Do(DeleteMember(p, views[i].id));
      if r.Fault? || r.Conflict? {
        return Failed(CloudFault);
      }
    }
    return Ok;
  }

  lemma DiffThenPurge(g0: Graph, g1: Graph, g: Graph, p: Id, port: int, want: set<string>, rest: seq<MemberView>, i: nat)
    requires Diffing(g0, g1, p, port, want, rest) && Purging(g1, g, p, rest, i, {}, port)
    ensures OnlyMembersOf(g0, g, p)
    ensures i == |rest| ==> PoolHolds(g, p, want, port)
  {
    assert rest[..|rest|] == rest;
    forall k | k in g0.members
      ensures k in g1.members && g1.members[k] == g0.members[k]
    {
    }
    forall k: MemberKey | k.pool == p && k in g1.members && i == |rest|
      ensures ViewOf(g1, k) !in rest <==> k.addr in want && k.port == port
    {
      if k in g0.members {
        assert Lists(g0, p, ViewOf(g1, k));
      } else {
        assert !Lists(g0, p, ViewOf(g1, k));
      }
    }
  }

  lemma LeftoversAreObsolete(g0: Graph, g1: Graph, p: Id, port: int, want: set<string>, rest: seq<MemberView>)
    requires Diffing(g0, g1, p, port, want, rest)
    ensures forall v :: v in rest ==> Lists(g1, p, v) && Justified(DeleteMember(p, v.id), g0, p, want, port)
  {
    forall v | v in rest
      ensures Lists(g1, p, v) && Justified(DeleteMember(p, v.id), g0, p, want, port)
    {
      assert Lists(g0, p, v);
      assert KeyOf(p, v) in g0.members && g0.members[KeyOf(p, v)] == v.id;
    }
  }

  /** EnsureLoadBalancer's member phase for one pool: on success the pool holds exactly the
      nodes' addresses on the node port, and whatever happens only missing wanted members
      are created and only unwanted existing ones deleted. */
  method EnsureMembers(c: Cloud, p: Id, nodes: seq<Node>, port: int) returns (e: Outcome)
    requires c.Sound() && p in c.g.pools
    modifies c`g, c`status, c`log, c`faults
    ensures c.Sound() && old(c.log) <= c.log && OnlyMembersOf(old(c.g), c.g, p)
    ensures e.Ok? ==> PoolHolds(c.g, p, Addresses(nodes), port) && AllAddressed(nodes) && DistinctNodes(nodes) && c.faults == old(c.faults)
    ensures MinimalOps(old(c.log), c.log, old(c.g), p, Addresses(nodes), port) && (c.log == old(c.log) ==> c.g == old(c.g))
    ensures e.Failed? ==>
              c.faults > old(c.faults) || (e.why.NoAddress? && !AllAddressed(nodes)) || (e.why.Duplicate? && !DistinctNodes(nodes))
    ensures old(c.Quiet()) ==> AllActive(c.log) && (e.Ok? ==> c.Quiet())
  {
    hide Consistent, Recorded, AllClosed, Closed, AllActive, MinimalOps, Purging, Justified;
    ghost var g0 := c.g;
    var ok, a := c.ListMembers(p);
    if !ok {
      StartDiff(c.log, g0, p, Addresses(nodes), port, []);
      return Failed(CloudFault);
    }
    var n;
    e, n := ClaimMembers(c, g0, p, a, nodes, port);
    if e.Failed? {
      return;
    }
    ghost var g1, rest := c.g, a[..n];
    LeftoversAreObsolete(g0, g1, p, port, Addresses(nodes), rest);
    e := DeleteMembers(c, p, a[..n], {}, port, g0, old(c.log), Addresses(nodes));
    ghost var i :| Purging(g1, c.g, p, rest, i, {}, port);
    DiffThenPurge(g0, g1, c.g, p, port, Addresses(nodes), rest, i);
    if e.Ok? {
      DiffThenPurge(g0, g1, c.g, p, port, Addresses(nodes), rest, |rest|);
    }
  }
}
