/** Taking things down in dependency order: one obsolete listener (EnsureLoadBalancer) and
    a whole load balancer (EnsureLoadBalancerDeleted without Octavia's cascade). */
module LbDelete {
  import opened Common
  import opened LbGraph
  import opened LbCloud
  import opened LbMembers

  ghost predicate NoMonitorOn(g: Graph, p: Id) {
    forall h :: h in g.monitors ==> g.monitors[h] != p
  }

  ghost predicate WithoutPool(g0: Graph, g: Graph, p: Id) {
    && g.up == g0.up && g.listeners == g0.listeners && g.monitors == g0.monitors
    && g.pools == g0.pools - {p}
    && (forall k :: k in g.members <==> k in g0.members && k.pool != p)
  }

  lemma AllMembersListed(g0: Graph, g: Graph, p: Id, views: seq<MemberView>)
    requires ListsMembers(views, g0, p) && Purging(g0, g, p, views, |views|, {}, 0)
    ensures forall k :: k in g.members <==> k in g0.members && k.pool != p
  {
    assert views[..|views|] == views;
    forall k | k in g0.members && k.pool == p
      ensures ViewOf(g0, k) in views
    {
    }
  }

  lemma PurgeAllJustified(g: Graph, log: seq<Entry>, p: Id, views: seq<MemberView>)
    requires ListsMembers(views, g, p)
    ensures MinimalOps(log, log, g, p, {}, 0)
    ensures forall v :: v in views ==> Lists(g, p, v) && Justified(DeleteMember(p, v.id), g, p, {}, 0)
  {
    forall v | v in views
      ensures Justified(DeleteMember(p, v.id), g, p, {}, 0)
    {
      assert KeyOf(p, v) in g.members && g.members[KeyOf(p, v)] == v.id;
    }
  }

  lemma PoolGone(g0: Graph, g: Graph, p: Id)
    requires OnlyMembersOf(g0, g, p) && (forall k :: k in g.members <==> k in g0.members && k.pool != p)
    requires Closed(g) && NoMonitorOn(g0, p)
    ensures Closed(Apply(g, DeletePool(p))) && WithoutPool(g0, Apply(g, DeletePool(p)), p)
  {
  }

  /** The members of a pool that has no monitor, then the pool. */
  method DeletePoolAndMembers(c: Cloud, p: Id) returns (e: Outcome)
    requires c.Sound() && p in c.g.pools && NoMonitorOn(c.g, p)
    modifies c`g, c`status, c`log, c`faults
    ensures c.Sound() && old(c.log) <= c.log
    ensures e.Ok? ==> WithoutPool(old(c.g), c.g, p) && c.faults == old(c.faults)
    ensures e.Failed? ==> c.faults > old(c.faults)
    ensures old(c.Quiet()) ==> AllActive(c.log) && (e.Ok? ==> c.Quiet())
  {
    hide Consistent, Recorded, AllClosed, AllActive, Closed, MinimalOps, Justified, Purging, WithoutPool, Apply;
    ghost var g0 := c.g;
    var ok, a := c.ListMembers(p);
    if !ok {
      return Failed(CloudFault);
    }
    PurgeAllJustified(g0, c.log, p, a[..]);
    e := DeleteMembers(c, p, a[..], {}, 0, g0, c.log, {});
    if e.Failed? {
      return;
    }
    AllMembersListed(g0, c.g, p, a[..]);
    PurgedOnlyMembers(g0, c.g, p, a[..]);
    PoolGone(g0, c.g, p);
    var r := c.Do(DeletePool(p));
    if r.Fault? || r.Conflict? {
      return Failed(CloudFault);
    }
  }

  lemma PurgedOnlyMembers(g0: Graph, g: Graph, p: Id, views: seq<MemberView>)
    requires Purging(g0, g, p, views, |views|, {}, 0)
    ensures OnlyMembersOf(g0, g, p)
  {
  }

  /** Only the listener, its pools and what hangs from them differ. */
  ghost predicate Pruned(g0: Graph, g: Graph, l: Id) {
    && g.up == g0.up && g.listeners == g0.listeners - {l}
    && (forall p :: p in g.pools <==> p in g0.pools && g0.pools[p].listener != l)
    && (forall p :: p in g.pools ==> g.pools[p] == g0.pools[p])
    && (forall k: MemberKey :: k.pool in g.pools ==> (k in g.members <==> k in g0.members))
  }

  lemma MonitorGone(g: Graph, p: Id, h: Id)
    requires Consistent(g) && Closed(g) && p in g.pools && g.pools[p].monitor == Some(h)
    ensures var g' := Apply(g, DeleteMonitor(h));
            && Present(g, DeleteMonitor(h)) && Closed(g') && NoMonitorOn(g', p)
            && g' == g.(pools := g.pools[p := g.pools[p].(monitor := None)], monitors := g.monitors - {h})
  {
  }

  lemma NoMonitorNamed(g: Graph, p: Id)
    requires Consistent(g) && p in g.pools && g.pools[p].monitor.None?
    ensures NoMonitorOn(g, p)
  {
  }

  lemma ListenerGone(g0: Graph, g: Graph, l: Id)
    requires l in g0.listeners && g.listeners == g0.listeners && g.up == g0.up && Closed(g)
    requires forall p :: p in g.pools <==> p in g0.pools && g0.pools[p].listener != l
    requires forall p :: p in g.pools ==> g.pools[p] == g0.pools[p]
    requires forall k: MemberKey :: k.pool in g.pools ==> (k in g.members <==> k in g0.members)
    ensures Closed(Apply(g, DeleteListener(l))) && Pruned(g0, Apply(g, DeleteListener(l)), l)
  {
  }

  /** The pool a listener turned out to have: its monitor, its members, itself. */
  method DeletePoolTree(c: Cloud, l: Id, p: Id, monitor: Option<Id>) returns (e: Outcome)
    requires c.Sound() && p in c.g.pools && c.g.pools[p].monitor == monitor && PoolsOf(c.g, l) == {p}
    modifies c`g, c`status, c`log, c`faults
    ensures c.Sound() && old(c.log) <= c.log
    ensures e.Ok? ==>
              && c.g.listeners == old(c.g.listeners) && c.g.up == old(c.g.up) && c.faults == old(c.faults)
              && (forall q :: q in c.g.pools <==> q in old(c.g.pools) && old(c.g.pools)[q].listener != l)
              && (forall q :: q in c.g.pools ==> c.g.pools[q] == old(c.g.pools)[q])
              && (forall k: MemberKey :: k.pool in c.g.pools ==> (k in c.g.members <==> k in old(c.g.members)))
    ensures e.Failed? ==> c.faults > old(c.faults)
    ensures old(c.Quiet()) ==> AllActive(c.log) && (e.Ok? ==> c.Quiet())
  {
    hide Consistent, Recorded, AllClosed, AllActive, Closed, NoMonitorOn, Apply;
    assert forall q :: q in c.g.pools && c.g.pools[q].listener == l ==> q in PoolsOf(c.g, l);
    assert p in PoolsOf(c.g, l);
    if monitor.Some? {
      MonitorGone(c.g, p, monitor.value);
      var r := c.Do(DeleteMonitor(monitor.value));
      if r.Fault? || r.Conflict? {
        return Failed(CloudFault);
      }
    } else {
      NoMonitorNamed(c.g, p);
    }
    e := DeletePoolAndMembers(c, p);
  }

  /** One obsolete listener. */
  method DeleteListenerTree(c: Cloud, l: Id) returns (e: Outcome)
    requires c.Sound() && l in c.g.listeners
    modifies c`g, c`status, c`log, c`faults
    ensures c.Sound() && old(c.log) <= c.log
    ensures e.Ok? ==> Pruned(old(c.g), c.g, l) && c.faults == old(c.faults)
    ensures e.Failed? ==> c.faults > old(c.faults) || (e.why.ManyPools? && |PoolsOf(old(c.g), l)| > 1)
    ensures old(c.Quiet()) ==> AllActive(c.log) && (e.Ok? ==> c.Quiet())
  {
    hide Consistent, Recorded, AllClosed, AllActive, Closed, Pruned, Apply;
    ghost var g0 := c.g;
    var pool := c.PoolOfListener(l);
    match pool {
      case Multiple => return Failed(ManyPools);
      case PoolFault => return Failed(CloudFault);
      case NoPool =>
        assert forall q :: q in g0.pools && g0.pools[q].listener == l ==> q in PoolsOf(g0, l);
      case Found(p, monitor) =>
        assert p in PoolsOf(g0, l);
        e := DeletePoolTree(c, l, p, monitor);
        if e.Failed? {
          return;
        }
    }
    ListenerGone(g0, c.g, l);
    var r := c.Do(DeleteListener(l));
    if r.Fault? || r.Conflict? {
      return Failed(CloudFault);
    }
    return Ok;
  }

  // ---- the whole load balancer ----

  ghost predicate Empty(g: Graph) {
    !g.up && g.listeners == map[] && g.pools == map[] && g.members == map[] && g.monitors == map[]
  }

  lemma DownIsEmpty(g: Graph)
    requires Closed(g) && !g.up
    ensures Empty(g)
  {
    assert g.listeners.Keys == {};
    assert g.pools.Keys == {};
    assert g.members.Keys == {} && g.monitors.Keys == {};
  }

  ghost predicate ListsPools(s: seq<Id>, g: Graph) {
    NoDuplicates(s) && forall p :: p in s <==> p in g.pools
  }

  ghost predicate ListsMonitors(s: seq<Id>, g: Graph) {
    NoDuplicates(s) && forall h :: h in s <==> h in g.monitors
  }

  /** What the listeners seen so far contribute. */
  ghost predicate Collected(g: Graph, views: seq<ListenerView>, i: nat, pools: seq<Id>, monitors: seq<Id>) {
    && i <= |views|
    && NoDuplicates(pools) && NoDuplicates(monitors)
    && (forall p :: p in pools <==> p in g.pools && exists j :: 0 <= j < i && views[j].id == g.pools[p].listener)
    && (forall h :: h in monitors <==> h in g.monitors && g.monitors[h] in pools)
  }

  lemma CollectNone(g: Graph, views: seq<ListenerView>, i: nat, pools: seq<Id>, monitors: seq<Id>)
    requires i < |views| && Collected(g, views, i, pools, monitors) && PoolsOf(g, views[i].id) == {}
    ensures Collected(g, views, i + 1, pools, monitors)
  {
    assert forall p :: p in g.pools ==> (p in PoolsOf(g, views[i].id) <==> g.pools[p].listener == views[i].id);
  }

  lemma CollectPool(g: Graph, views: seq<ListenerView>, i: nat, pools: seq<Id>, monitors: seq<Id>, p: Id)
    requires Consistent(g) && ListsListeners(views, g)
    requires i < |views| && Collected(g, views, i, pools, monitors) && PoolsOf(g, views[i].id) == {p}
    ensures p in g.pools
    ensures g.pools[p].monitor.None? ==> Collected(g, views, i + 1, pools + [p], monitors)
    ensures g.pools[p].monitor.Some? ==> Collected(g, views, i + 1, pools + [p], monitors + [g.pools[p].monitor.value])
  {
    hide IdsIssued, MemberIdsUnique, PortsUnique;
    assert p in PoolsOf(g, views[i].id);
    assert forall q :: q in g.pools ==> (q in PoolsOf(g, views[i].id) <==> g.pools[q].listener == views[i].id);
    assert forall j :: 0 <= j < i ==> views[j] in views && views[i] in views && views[j] != views[i];
    assert forall j :: 0 <= j < i ==> views[j].id != views[i].id;
    assert p !in pools;
  }

  lemma CollectedAll(g: Graph, views: seq<ListenerView>, pools: seq<Id>, monitors: seq<Id>)
    requires Closed(g) && ListsListeners(views, g) && Collected(g, views, |views|, pools, monitors)
    ensures ListsPools(pools, g) && ListsMonitors(monitors, g)
  {
    forall p | p in g.pools
      ensures p in pools
    {
      var l := g.pools[p].listener;
      assert ListenerView(l, g.listeners[l]) in views;
    }
  }

  method CollectPools(c: Cloud, a: array<ListenerView>) returns (e: Outcome, pools: seq<Id>, monitors: seq<Id>)
    requires c.Sound() && ListsListeners(a[..], c.g)
    modifies c`faults
    ensures e.Ok? ==> ListsPools(pools, c.g) && ListsMonitors(monitors, c.g) && c.faults == old(c.faults)
    ensures e.Failed? ==> c.faults > old(c.faults) || (e.why.ManyPools? && exists l :: l in c.g.listeners && |PoolsOf(c.g, l)| > 1)
  {
    hide Consistent, Recorded, AllClosed, Closed, Collected, PoolsOf;
    pools, monitors := [], [];
    CollectStart(c.g, a[..]);
    for i := 0 to a.Length
      invariant Collected(c.g, a[..], i, pools, monitors) && c.faults == old(c.faults)
    {
      assert a[i] == a[..][i] && a[i] in a[..];
      var r := c.PoolOfListener(a[i].id);
      match r {
        case NoPool => CollectNone(c.g, a[..], i, pools, monitors);
        case Multiple => return Failed(ManyPools), pools, monitors;
        case PoolFault => return Failed(CloudFault), pools, monitors;
        case Found(p, monitor) =>
          CollectPool(c.g, a[..], i, pools, monitors, p);
          pools := pools + [p];
          if monitor.Some? {
            monitors := monitors + [monitor.value];
          }
      }
    }
    CollectedAll(c.g, a[..], pools, monitors);
    return Ok, pools, monitors;
  }

  lemma CollectStart(g: Graph, views: seq<ListenerView>)
    ensures Collected(g, views, 0, [], [])
  {
  }

  lemma TailListed(s: seq<Id>, i: nat)
    requires i < |s| && NoDuplicates(s)
    ensures s[i] in s[i..] && forall x :: x in s[i + 1..] <==> x in s[i..] && x != s[i]
  {
    assert s[i..] == [s[i]] + s[i + 1..];
  }

  method DeleteMonitors(c: Cloud, monitors: seq<Id>) returns (e: Outcome)
    requires c.Sound() && ListsMonitors(monitors, c.g)
    modifies c`g, c`status, c`log, c`faults
    ensures c.Sound() && old(c.log) <= c.log
    ensures e.Ok? ==> (forall h :: h !in c.g.monitors) && c.g.pools.Keys == old(c.g.pools.Keys) && c.g.listeners == old(c.g.listeners)
                      && c.faults == old(c.faults)
    ensures e.Failed? ==> c.faults > old(c.faults)
    ensures old(c.Quiet()) ==> AllActive(c.log) && (e.Ok? ==> c.Quiet())
  {
    hide Consistent, Recorded, AllClosed, AllActive, Closed, Apply;
    for i := 0 to |monitors|
      invariant c.Sound() && old(c.log) <= c.log && c.g.pools.Keys == old(c.g.pools.Keys) && c.g.listeners == old(c.g.listeners)
      invariant forall h :: h in c.g.monitors <==> h in monitors[i..]
      invariant c.faults == old(c.faults)
      invariant old(c.Quiet()) ==> c.Quiet()
    {
      TailListed(monitors, i);
      MonitorDeleted(c.g, monitors[i]);
      var r := c.Do(DeleteMonitor(monitors[i]));
      if r.Fault? || r.Conflict? {
        return Failed(CloudFault);
      }
    }
    return Ok;
  }

  lemma MonitorDeleted(g: Graph, h: Id)
    requires Closed(g)
    ensures var g' := Apply(g, DeleteMonitor(h));
            Closed(g') && g'.pools.Keys == g.pools.Keys && g'.listeners == g.listeners && g'.monitors == g.monitors - {h}
  {
  }

  method DeletePools(c: Cloud, pools: seq<Id>) returns (e: Outcome)
    requires c.Sound() && ListsPools(pools, c.g) && (forall h :: h !in c.g.monitors)
    modifies c`g, c`status, c`log, c`faults
    ensures c.Sound() && old(c.log) <= c.log
    ensures e.Ok? ==> (forall p :: p !in c.g.pools) && c.g.listeners == old(c.g.listeners) && c.faults == old(c.faults)
    ensures e.Failed? ==> c.faults > old(c.faults)
    ensures old(c.Quiet()) ==> AllActive(c.log) && (e.Ok? ==> c.Quiet())
  {
    hide Consistent, Recorded, AllClosed, AllActive, Closed;
    for i := 0 to |pools|
      invariant c.Sound() && old(c.log) <= c.log && (forall h :: h !in c.g.monitors) && c.g.listeners == old(c.g.listeners)
      invariant forall p :: p in c.g.pools <==> p in pools[i..]
      invariant c.faults == old(c.faults)
      invariant old(c.Quiet()) ==> c.Quiet()
    {
      TailListed(pools, i);
      e := DeletePoolAndMembers(c, pools[i]);
      if e.Failed? {
        return;
      }
    }
    return Ok;
  }

  method DeleteListeners(c: Cloud, a: array<ListenerView>) returns (e: Outcome)
    requires c.Sound() && ListsListeners(a[..], c.g) && (forall p :: p !in c.g.pools)
    modifies c`g, c`status, c`log, c`faults
    ensures c.Sound() && old(c.log) <= c.log
    ensures e.Ok? ==> (forall l :: l !in c.g.listeners) && c.faults == old(c.faults)
    ensures e.Failed? ==> c.faults > old(c.faults)
    ensures old(c.Quiet()) ==> AllActive(c.log) && (e.Ok? ==> c.Quiet())
  {
    hide Consistent, Recorded, AllClosed, AllActive;
    assert forall l :: l in c.g.listeners ==> ListenerView(l, c.g.listeners[l]) in a[..];
    for i := 0 to a.Length
      invariant c.Sound() && old(c.log) <= c.log && (forall p :: p !in c.g.pools)
      invariant forall l :: l in c.g.listeners ==> exists j :: i <= j < a.Length && a[j].id == l
      invariant c.faults == old(c.faults)
      invariant old(c.Quiet()) ==> c.Quiet()
    {
      var r := c.Do(DeleteListener(a[i].id));
      if r.Fault? || r.Conflict? {
        return Failed(CloudFault);
      }
    }
    return Ok;
  }

  /** EnsureLoadBalancerDeleted without Octavia: monitors, then each pool after its members,
      then listeners, then the load balancer. */
  method EnsureLoadBalancerDeleted(c: Cloud) returns (e: Outcome)
    requires c.Sound()
    modifies c`g, c`status, c`log, c`faults
    ensures c.Sound() && old(c.log) <= c.log && Recorded(old(c.g), c.log[|old(c.log)|..], c.g)
    ensures e.Ok? ==> Empty(c.g) && c.faults == old(c.faults)
    ensures e.Failed? ==>
              c.faults > old(c.faults) || (e.why.ManyPools? && exists l :: l in old(c.g.listeners) && |PoolsOf(old(c.g), l)| > 1)
    ensures old(c.Quiet()) ==> AllActive(c.log)
  {
    hide Consistent, Recorded, AllClosed, Closed, ListsPools, ListsMonitors, Empty;
    RecordedFromNowOn(c.start, c.log, c.g);
    var ok, found := c.LookupLb();
    if !ok {
      return Failed(CloudFault);
    }
    if !found {
      DownIsEmpty(c.g);
      return Ok;
    }
    var listed, a := c.ListListeners();
    if !listed {
      return Failed(CloudFault);
    }
    var pools, monitors;
    e, pools, monitors := CollectPools(c, a);
    if e.Failed? {
      return;
    }
    e := DeleteMonitors(c, monitors);
    if e.Failed? {
      return;
    }
    SamePools(pools, old(c.g), c.g);
    e := DeletePools(c, pools);
    if e.Failed? {
      return;
    }
    e := DeleteListeners(c, a);
    if e.Failed? {
      return;
    }
    e := DeleteLoadBalancer(c);
  }

  lemma SamePools(pools: seq<Id>, g0: Graph, g: Graph)
    requires ListsPools(pools, g0) && g.pools.Keys == g0.pools.Keys
    ensures ListsPools(pools, g)
  {
    assert forall p :: p in g.pools <==> p in g.pools.Keys;
  }

  method DeleteLoadBalancer(c: Cloud) returns (e: Outcome)
    requires c.Sound() && (forall l :: l !in c.g.listeners)
    modifies c`g, c`status, c`log, c`faults
    ensures c.Sound() && old(c.log) <= c.log
    ensures e.Ok? ==> Empty(c.g) && c.faults == old(c.faults)
    ensures e.Failed? ==> c.faults > old(c.faults)
    ensures old(c.Quiet()) ==> AllActive(c.log)
  {
    hide Consistent, Recorded, AllClosed, Empty;
    var r := c.Issue(DeleteLb);
    if r.Fault? || r.Conflict? {
      return Failed(CloudFault);
    }
    var ok := c.WaitDeleted();
    if !ok {
      return Failed(CloudFault);
    }
    DownIsEmpty(c.g);
    return Ok;
  }
}
