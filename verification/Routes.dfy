/** Managed routes: a router table and a port's allowed address pairs changed together,
    with deferred unwinders that hold slices of the table they may have to write back.
    Slices alias their backing array, as in Go, and an unwinder writes back what the
    array holds when it runs. */
module Routes {
  import opened Common

  type PortId = nat

  datatype Route = Route(cidr: string, nextHop: string)
  datatype Pair = Pair(ip: string, mac: string)
  datatype AddressKind = InternalIP | ExternalIP | Hostname
  datatype NodeAddress = NodeAddress(kind: AddressKind, addr: string)
  datatype Interface = Interface(port: PortId, ips: seq<string>)
  datatype Server = Server(addresses: seq<NodeAddress>, interfaces: seq<Interface>)

  /** A route as the route controller knows it. */
  datatype CloudRoute = CloudRoute(cidr: string, node: string, blackhole: bool)

  /** Which CIDRs and addresses are IPv6, and whether IPv6 is switched off. */
  datatype Families = Families(cidrIsV6: string -> bool, addrIsV6: string -> bool, v6Disabled: bool)

  datatype Slice<T> = Slice(arr: array<T>, len: nat)
  datatype Unwinder = RestoreRoutes(routes: Slice<Route>) | RestorePairs(port: PortId, pairs: Slice<Pair>)
  datatype Result = Ok | Failed

  ghost function Contents<T>(s: Slice<T>): seq<T>
    requires s.len <= s.arr.Length
    reads s.arr
  {
    s.arr[..s.len]
  }

  // ---- addresses ----

  function FirstAddress(s: seq<NodeAddress>, kind: AddressKind, v6: bool, fam: Families): (r: Option<string>)
    ensures r.Some? ==> exists i :: IsFirst(s, i, kind, v6, fam) && s[i].addr == r.value
    ensures r.None? ==> forall i :: 0 <= i < |s| ==> !Qualifies(s[i], kind, v6, fam)
  {
    if s == [] then None
    else if Qualifies(s[0], kind, v6, fam) then
      assert IsFirst(s, 0, kind, v6, fam);
      Some(s[0].addr)
    else
      var r := FirstAddress(s[1..], kind, v6, fam);
      assert r.Some? ==> exists i :: IsFirst(s, i, kind, v6, fam) && s[i].addr == r.value by {
        if r.Some? {
          var i :| IsFirst(s[1..], i, kind, v6, fam) && s[1..][i].addr == r.value;
          assert IsFirst(s, i + 1, kind, v6, fam);
        }
      }
      r
  }

  predicate Qualifies(a: NodeAddress, kind: AddressKind, v6: bool, fam: Families) {
    a.kind == kind && fam.addrIsV6(a.addr) == v6
  }

  ghost predicate IsFirst(s: seq<NodeAddress>, i: int, kind: AddressKind, v6: bool, fam: Families) {
    0 <= i < |s| && Qualifies(s[i], kind, v6, fam) && forall j :: 0 <= j < i ==> !Qualifies(s[j], kind, v6, fam)
  }

  /** Position `i` has the first internal address of the family, or the first external one
      where no internal address has the family. */
  ghost predicate Picks(s: seq<NodeAddress>, i: int, v6: bool, fam: Families) {
    || IsFirst(s, i, InternalIP, v6, fam)
    || (IsFirst(s, i, ExternalIP, v6, fam) && forall j :: 0 <= j < |s| ==> !Qualifies(s[j], InternalIP, v6, fam))
  }

  /** `getAddressByName` once the server is known: an internal address of the wanted family
      if there is one, else an external one, and never one of the other family. */
  function PickAddress(s: seq<NodeAddress>, v6: bool, fam: Families): (r: Option<string>)
    ensures r.Some? ==> exists i :: Picks(s, i, v6, fam) && s[i].addr == r.value
    ensures r.None? <==>
            (v6 && fam.v6Disabled) || forall i :: 0 <= i < |s| && s[i].kind != Hostname ==> fam.addrIsV6(s[i].addr) != v6
  {
    if v6 && fam.v6Disabled then None
    else
      var internal := FirstAddress(s, InternalIP, v6, fam);
      if internal.Some? then internal else FirstAddress(s, ExternalIP, v6, fam)
  }

  function PortWithIp(s: seq<Interface>, ip: string): (r: Option<PortId>)
    ensures r.Some? ==> exists i :: 0 <= i < |s| && s[i].port == r.value && ip in s[i].ips && forall j :: 0 <= j < i ==> ip !in s[j].ips
    ensures r.None? ==> forall i :: 0 <= i < |s| ==> ip !in s[i].ips
  {
    if s == [] then None
    else if ip in s[0].ips then Some(s[0].port)
    else PortWithIp(s[1..], ip)
  }

  /** The next hop the node's addresses determine for a route. */
  function NextHop(servers: map<string, Server>, r: CloudRoute, fam: Families): Option<string> {
    if r.node in servers then PickAddress(servers[r.node].addresses, fam.cidrIsV6(r.cidr), fam) else None
  }

  /** The next hop, spelled out: an address of the node, of the CIDR's family, internal if the
      node has such an internal one, and the first of its kind; none if there is no such
      address. */
  lemma NextHopSpelledOut(servers: map<string, Server>, r: CloudRoute, fam: Families)
    ensures var hop, v6 := NextHop(servers, r, fam), fam.cidrIsV6(r.cidr);
            && (hop.Some? ==>
                  && r.node in servers && fam.addrIsV6(hop.value) == v6
                  && var s := servers[r.node].addresses;
                     exists i ::
                       && 0 <= i < |s| && s[i].addr == hop.value && (s[i].kind == InternalIP || s[i].kind == ExternalIP)
                       && (forall j :: 0 <= j < i && s[j].kind == s[i].kind ==> fam.addrIsV6(s[j].addr) != v6)
                       && (s[i].kind == ExternalIP ==> forall j :: 0 <= j < |s| && s[j].kind == InternalIP ==> fam.addrIsV6(s[j].addr) != v6))
            && (hop.None? <==>
                  || r.node !in servers || (v6 && fam.v6Disabled)
                  || forall j :: 0 <= j < |servers[r.node].addresses| && servers[r.node].addresses[j].kind != Hostname ==>
                       fam.addrIsV6(servers[r.node].addresses[j].addr) != v6)
  {
    hide FirstAddress;
    if NextHop(servers, r, fam).Some? {
      var s, v6 := servers[r.node].addresses, fam.cidrIsV6(r.cidr);
      var i :| Picks(s, i, v6, fam) && s[i].addr == NextHop(servers, r, fam).value;
      forall j | 0 <= j < |s|
        ensures Qualifies(s[j], s[i].kind, v6, fam) <==> s[j].kind == s[i].kind && fam.addrIsV6(s[j].addr) == v6
        ensures Qualifies(s[j], InternalIP, v6, fam) <==> s[j].kind == InternalIP && fam.addrIsV6(s[j].addr) == v6
      {
      }
    }
  }

  // ---- the effects, on values ----

  predicate Hits(x: Route, r: CloudRoute, addr: string) {
    x.cidr == r.cidr && (x.nextHop == addr || (r.blackhole && x.nextHop == r.node))
  }

  function FirstHit(s: seq<Route>, r: CloudRoute, addr: string): (i: Option<nat>)
    ensures i.Some? ==> i.value < |s| && Hits(s[i.value], r, addr) && forall j :: 0 <= j < i.value ==> !Hits(s[j], r, addr)
    ensures i.None? ==> forall j :: 0 <= j < |s| ==> !Hits(s[j], r, addr)
  {
    if s == [] then None
    else if Hits(s[0], r, addr) then Some(0)
    else
      var t := FirstHit(s[1..], r, addr);
      if t.Some? then Some(t.value + 1) else None
  }

  function FirstPair(s: seq<Pair>, cidr: string): (i: Option<nat>)
    ensures i.Some? ==> i.value < |s| && s[i.value].ip == cidr && forall j :: 0 <= j < i.value ==> s[j].ip != cidr
    ensures i.None? ==> forall j :: 0 <= j < |s| ==> s[j].ip != cidr
  {
    if s == [] then None
    else if s[0].ip == cidr then Some(0)
    else
      var t := FirstPair(s[1..], cidr);
      if t.Some? then Some(t.value + 1) else None
  }

  predicate HasPair(s: seq<Pair>, cidr: string) {
    exists i :: 0 <= i < |s| && s[i].ip == cidr
  }

  function WithPair(s: seq<Pair>, cidr: string): seq<Pair> {
    if HasPair(s, cidr) then s else s + [Pair(cidr, "")]
  }

  function WithoutPair(s: seq<Pair>, cidr: string): seq<Pair> {
    var i := FirstPair(s, cidr);
    if i.Some? then SwapRemove(s, i.value) else s
  }

  /** What the unwinder of DeleteRoute writes back: the swap has already happened in the
      array it shares, so the deleted entry is overwritten by the last one. */
  function Unwound(s: seq<Route>, i: nat): seq<Route>
    requires i < |s|
  {
    s[i := s[|s| - 1]]
  }

  /** The written-back table is the original exactly when the deleted entry equals the last. */
  lemma UnwoundIsOriginal(s: seq<Route>, i: nat)
    requires i < |s|
    ensures |Unwound(s, i)| == |s| && Unwound(s, i)[i] == s[|s| - 1] && forall j :: 0 <= j < |s| && j != i ==> Unwound(s, i)[j] == s[j]
    ensures Unwound(s, i) == s <==> s[i] == s[|s| - 1]
  {
    assert Unwound(s, i)[i] == s[|s| - 1];
  }

  /** Deleting the first of two different routes and failing afterwards writes the second back
      twice: the deleted route is lost. */
  lemma UnwindLosesRouteExample(x: Route, y: Route)
    requires x != y
    ensures Unwound([x, y], 0) == [y, y] && x !in Unwound([x, y], 0)
  {
    assert Unwound([x, y], 0) == [y, y];
  }

  // ---- the network service ----

  /** An update sent to the service, and whether it took effect. */
  datatype Write = WriteRoutes(table: seq<Route>, ok: bool) | WritePairs(port: PortId, list: seq<Pair>, ok: bool)

  /** The router table and the pairs after a run of updates. */
  ghost function RoutesAfter(routes: seq<Route>, writes: seq<Write>): seq<Route> {
    if writes == [] then routes
    else
      var w := writes[|writes| - 1];
      if w.WriteRoutes? && w.ok then w.table else RoutesAfter(routes, writes[..|writes| - 1])
  }

  ghost function PairsAfter(pairs: map<PortId, seq<Pair>>, writes: seq<Write>): map<PortId, seq<Pair>> {
    if writes == [] then pairs
    else
      var w, before := writes[|writes| - 1], PairsAfter(pairs, writes[..|writes| - 1]);
      if w.WritePairs? && w.ok then before[w.port := w.list] else before
  }

  /** `writes` records every update in order. */
  class Network {
    var routes: seq<Route>
    var pairs: map<PortId, seq<Pair>>
    var servers: map<string, Server>
    ghost var writes: seq<Write>
    ghost var faults: nat

    method FindServer(node: string) returns (r: Option<Server>)
      modifies this`faults
      ensures r.Some? ==> node in servers && r.value == servers[node] && faults == old(faults)
      ensures r.None? ==> faults > old(faults) || node !in servers
      ensures faults >= old(faults)
    {
      var ok: bool := *;
      if !ok {
        faults := faults + 1;
        return None;
      }
      return if node in servers then Some(servers[node]) else None;
    }

    /** The decoded answer is a fresh slice; it may have spare capacity. */
    method GetRoutes() returns (ok: bool, s: Slice<Route>)
      modifies this`faults
      ensures fresh(s.arr) && s.len <= s.arr.Length
      ensures ok ==> Contents(s) == routes && faults == old(faults)
      ensures !ok ==> faults > old(faults)
    {
      ok := *;
      var spare: int :| 0 <= spare;
      var have := routes;
      var arr := new Route[|have| + spare](i => if 0 <= i < |have| then have[i] else Route("", ""));
      s := Slice(arr, |have|);
      assert arr[..|have|] == have;
      if !ok {
        faults := faults + 1;
      }
    }

    method PutRoutes(s: Slice<Route>) returns (ok: bool)
      requires s.len <= s.arr.Length
      modifies this`routes, this`writes, this`faults
      ensures writes == old(writes) + [WriteRoutes(Contents(s), ok)]
      ensures ok ==> routes == Contents(s) && faults == old(faults)
      ensures !ok ==> routes == old(routes) && faults > old(faults)
    {
      ok := *;
      writes := writes + [WriteRoutes(Contents(s), ok)];
      if ok {
        routes := s.arr[..s.len];
      } else {
        faults := faults + 1;
      }
    }

    method GetPairs(p: PortId) returns (ok: bool, s: Slice<Pair>)
      modifies this`faults
      ensures fresh(s.arr) && s.len <= s.arr.Length
      ensures ok ==> p in pairs && Contents(s) == pairs[p] && faults == old(faults)
      ensures !ok ==> faults > old(faults) || p !in pairs
      ensures faults >= old(faults)
    {
      ok := *;
      var spare: int :| 0 <= spare;
      var have := if p in pairs then pairs[p] else [];
      var arr := new Pair[|have| + spare](i => if 0 <= i < |have| then have[i] else Pair("", ""));
      s := Slice(arr, |have|);
      assert arr[..|have|] == have;
      if !ok {
        faults := faults + 1;
      }
      ok := ok && p in pairs;
    }

    method PutPairs(p: PortId, s: Slice<Pair>) returns (ok: bool)
      requires s.len <= s.arr.Length
      modifies this`pairs, this`writes, this`faults
      ensures writes == old(writes) + [WritePairs(p, Contents(s), ok)]
      ensures ok ==> pairs == old(pairs)[p := Contents(s)] && faults == old(faults)
      ensures !ok ==> pairs == old(pairs) && faults > old(faults)
    {
      ok := *;
      writes := writes + [WritePairs(p, Contents(s), ok)];
      if ok {
        pairs := pairs[p := s.arr[..s.len]];
      } else {
        faults := faults + 1;
      }
    }
  }

  // ---- slices ----

  /** Go's append: in place beyond the length if there is capacity, else into a new array.
      Either way a slice of the old length over the old array still reads the same. */
  method Append<T(0)>(s: Slice<T>, x: T) returns (t: Slice<T>)
    requires s.len <= s.arr.Length
    modifies s.arr
    ensures t.len <= t.arr.Length && Contents(t) == old(Contents(s)) + [x]
    ensures Contents(s) == old(Contents(s))
    ensures t.arr == s.arr || fresh(t.arr)
  {
    if s.len < s.arr.Length {
      s.arr[s.len] := x;
      return Slice(s.arr, s.len + 1);
    }
    var arr := new T[s.len + 1];
    for i := 0 to s.len
      invariant arr[..i] == s.arr[..i]
      invariant s.arr[..] == old(s.arr[..])
    {
      arr[i] := s.arr[i];
    }
    arr[s.len] := x;
    assert s.arr[..s.len] == s.arr[..];
    return Slice(arr, s.len + 1);
  }

  /** Overwrites element `i` with the last one and shortens the slice, over the same array. */
  method SwapDelete<T>(s: Slice<T>, i: nat) returns (t: Slice<T>)
    requires i < s.len <= s.arr.Length
    modifies s.arr
    ensures t == Slice(s.arr, s.len - 1)
    ensures Contents(t) == SwapRemove(old(Contents(s)), i)
    ensures Contents(s) == old(Contents(s))[i := old(Contents(s))[s.len - 1]]
  {
    s.arr[i] := s.arr[s.len - 1];
    t := Slice(s.arr, s.len - 1);
    assert Contents(s) == old(Contents(s))[i := old(Contents(s))[s.len - 1]];
  }

  ghost predicate InBounds(u: Unwinder) {
    match u
    case RestoreRoutes(s) => s.len <= s.arr.Length
    case RestorePairs(_, s) => s.len <= s.arr.Length
  }

  /** The update an unwinder sends: what its slice shows when it runs. */
  ghost function Sent(u: Unwinder, ok: bool): Write
    requires InBounds(u)
    reads if u.RestoreRoutes? then {u.routes.arr as object} else {u.pairs.arr as object}
  {
    match u
    case RestoreRoutes(s) => WriteRoutes(Contents(s), ok)
    case RestorePairs(p, s) => WritePairs(p, Contents(s), ok)
  }

  lemma AfterNothing(routes: seq<Route>, pairs: map<PortId, seq<Pair>>)
    ensures RoutesAfter(routes, []) == routes && PairsAfter(pairs, []) == pairs
  {
  }

  lemma AfterNext(routes: seq<Route>, pairs: map<PortId, seq<Pair>>, writes: seq<Write>, w: Write)
    ensures RoutesAfter(routes, writes + [w]) == RoutesAfter(RoutesAfter(routes, writes), [w])
    ensures PairsAfter(pairs, writes + [w]) == PairsAfter(PairsAfter(pairs, writes), [w])
  {
    assert (writes + [w])[..|writes|] == writes && [w][..0] == [];
  }

  method RunUnwinder(net: Network, u: Unwinder) returns (ok: bool)
    requires InBounds(u)
    modifies net`routes, net`pairs, net`writes, net`faults
    ensures net.writes == old(net.writes) + [Sent(u, ok)]
    ensures net.routes == RoutesAfter(old(net.routes), [Sent(u, ok)]) && net.pairs == PairsAfter(old(net.pairs), [Sent(u, ok)])
    ensures if ok then net.faults == old(net.faults) else net.faults > old(net.faults)
  {
    match u {
      case RestoreRoutes(s) => ok := net.PutRoutes(s);
      case RestorePairs(p, s) => ok := net.PutPairs(p, s);
    }
  }

  /** The deferred `onFailure.call(unwind)` calls: an armed caller sends the update of every
      unwinder, last deferred first, whether or not the others take effect; a disarmed one
      sends nothing. */
  method RunDeferred(net: Network, armed: bool, stack: seq<Unwinder>) returns (ghost sent: seq<Write>)
    requires forall i :: 0 <= i < |stack| ==> InBounds(stack[i])
    modifies net`routes, net`pairs, net`writes, net`faults
    ensures net.writes == old(net.writes) + sent && |sent| == if armed then |stack| else 0
    ensures forall k :: 0 <= k < |sent| ==> InBounds(stack[|stack| - 1 - k]) && sent[k] == Sent(stack[|stack| - 1 - k], sent[k].ok)
    ensures net.routes == RoutesAfter(old(net.routes), sent) && net.pairs == PairsAfter(old(net.pairs), sent)
    ensures net.faults >= old(net.faults)
  {
    hide RoutesAfter, PairsAfter;
    sent := [];
    AfterNothing(net.routes, net.pairs);
    var i := |stack|;
    while i > 0
      invariant 0 <= i <= |stack|
      invariant net.writes == old(net.writes) + sent && |sent| == if armed then |stack| - i else 0
      invariant forall k :: 0 <= k < |sent| ==> InBounds(stack[|stack| - 1 - k]) && sent[k] == Sent(stack[|stack| - 1 - k], sent[k].ok)
      invariant net.routes == RoutesAfter(old(net.routes), sent) && net.pairs == PairsAfter(old(net.pairs), sent)
      invariant net.faults >= old(net.faults)
    {
      i := i - 1;
      if armed {
        var ok := RunUnwinder(net, stack[i]);
        AfterNext(old(net.routes), old(net.pairs), sent, Sent(stack[i], ok));
        sent := sent + [Sent(stack[i], ok)];
      }
    }
  }

  // ---- CreateRoute and DeleteRoute ----

  ghost predicate AllFailed(w: seq<Write>) {
    forall i :: 0 <= i < |w| ==> !w[i].ok
  }

  /** Updates that changed the table to `changed` and then did nothing else that took effect. */
  ghost predicate ChangedOnly(w: seq<Write>, changed: seq<Route>) {
    |w| > 0 && w[0] == WriteRoutes(changed, true) && AllFailed(w[1..])
  }

  /** The same, followed by one last update, the compensation, which sends `back`: the table
      is `back` if it takes effect and stays `changed` if not. */
  ghost predicate Compensated(w: seq<Write>, changed: seq<Route>, back: seq<Route>, now: seq<Route>) {
    && |w| > 1 && ChangedOnly(w[..|w| - 1], changed)
    && w[|w| - 1] == WriteRoutes(back, w[|w| - 1].ok)
    && now == if w[|w| - 1].ok then back else changed
  }

  lemma NoneSent(writes: seq<Write>)
    ensures AllFailed(writes[|writes|..])
  {
  }

  lemma OnlyFirst(writes: seq<Write>, changed: seq<Route>, writes': seq<Write>)
    requires var mid := writes + [WriteRoutes(changed, true)]; mid <= writes' && AllFailed(writes'[|mid|..])
    ensures ChangedOnly(writes'[|writes|..], changed)
  {
    assert writes'[|writes|..][1..] == writes'[|writes| + 1..];
  }

  lemma CompensatedBy(w: seq<Write>, changed: seq<Route>, back: seq<Route>, ok: bool)
    requires ChangedOnly(w, changed)
    ensures Compensated(w + [WriteRoutes(back, ok)], changed, back, RoutesAfter(changed, [WriteRoutes(back, ok)]))
  {
    assert (w + [WriteRoutes(back, ok)])[..|w|] == w;
  }

  function PortFor(servers: map<string, Server>, node: string, addr: string): Option<PortId> {
    if node in servers then PortWithIp(servers[node].interfaces, addr) else None
  }

  /** The port, spelled out: that of the node's first interface with the address. */
  lemma PortForSpelledOut(servers: map<string, Server>, node: string, addr: string)
    ensures var p := PortFor(servers, node, addr);
            && (p.Some? ==>
                  && node in servers
                  && var s := servers[node].interfaces;
                     exists i :: 0 <= i < |s| && s[i].port == p.value && addr in s[i].ips && forall j :: 0 <= j < i ==> addr !in s[j].ips)
            && (p.None? ==> node in servers ==> forall i :: 0 <= i < |servers[node].interfaces| ==> addr !in servers[node].interfaces[i].ips)
  {
  }

  method FindAddress(net: Network, r: CloudRoute, fam: Families) returns (addr: Option<string>)
    modifies net`faults
    ensures addr.Some? ==> addr == NextHop(net.servers, r, fam) && net.faults == old(net.faults)
    ensures addr.None? ==> net.faults > old(net.faults) || NextHop(net.servers, r, fam).None?
    ensures net.faults >= old(net.faults)
  {
    var v6 := fam.cidrIsV6(r.cidr);
    if v6 && fam.v6Disabled {
      return None;
    }
    var srv := net.FindServer(r.node);
    if srv.None? {
      return None;
    }
    return PickAddress(srv.value.addresses, v6, fam);
  }

  method FindPairs(net: Network, node: string, addr: string) returns (p: Option<PortId>, s: Slice<Pair>)
    modifies net`faults
    ensures fresh(s.arr) && s.len <= s.arr.Length
    ensures p.Some? ==> p == PortFor(net.servers, node, addr) && p.value in net.pairs && Contents(s) == net.pairs[p.value]
    ensures p.Some? ==> net.faults == old(net.faults)
    ensures net.faults >= old(net.faults)
    ensures p.None? ==>
              || net.faults > old(net.faults)
              || PortFor(net.servers, node, addr).None? || PortFor(net.servers, node, addr).value !in net.pairs
  {
    var none := new Pair[0];
    s := Slice(none, 0);
    var srv := net.FindServer(node);
    if srv.None? {
      return None, s;
    }
    p := PortWithIp(srv.value.interfaces, addr);
    if p.None? {
      return;
    }
    var ok;
    ok, s := net.GetPairs(p.value);
    if !ok {
      p := None;
    }
  }

  /** The first resource of CreateRoute: sends the table with the route, unless it has it. The
      slice handed on still shows the table as it was. */
  method ExtendTable(net: Network, x: Route) returns (e: Result, added: bool, orig: Slice<Route>)
    modifies net`routes, net`writes, net`faults
    ensures fresh(orig.arr) && orig.len <= orig.arr.Length && net.faults >= old(net.faults) && old(net.writes) <= net.writes
    ensures e.Ok? ==> (added <==> x !in old(net.routes))
    ensures !added ==> net.routes == old(net.routes) && AllFailed(net.writes[|old(net.writes)|..])
    ensures added ==>
              && e.Ok? && net.routes == old(net.routes) + [x]
              && net.writes == old(net.writes) + [WriteRoutes(net.routes, true)]
              && ChangedOnly(net.writes[|old(net.writes)|..], net.routes)
              && Contents(orig) == old(net.routes)
    ensures e.Failed? ==> net.faults > old(net.faults)
  {
    var ok;
    ok, orig := net.GetRoutes();
    if !ok {
      return Failed, false, orig;
    }
    var at := FindRoute(orig, CloudRoute(x.cidr, "", false), x.nextHop);
    if at.Some? {
      return Ok, false, orig;
    }
    assert x !in net.routes by {
      if i :| 0 <= i < |net.routes| && net.routes[i] == x {
        assert Hits(net.routes[i], CloudRoute(x.cidr, "", false), x.nextHop);
      }
    }
    var longer := Append(orig, x);
    ok := net.PutRoutes(longer);
    if !ok {
      return Failed, false, orig;
    }
    return Ok, true, orig;
  }

  /** Everything CreateRoute does before its deferred calls run. */
  method CreateRouteBody(net: Network, r: CloudRoute, fam: Families) returns (e: Result, armed: bool, stack: seq<Unwinder>)
    modifies net`routes, net`pairs, net`writes, net`faults
    ensures forall i :: 0 <= i < |stack| ==> InBounds(stack[i]) && (stack[i].RestoreRoutes? ==> fresh(stack[i].routes.arr))
    ensures old(net.writes) <= net.writes && net.faults >= old(net.faults)
    ensures stack == [] ==> net.routes == old(net.routes) && net.pairs == old(net.pairs) && AllFailed(net.writes[|old(net.writes)|..])
    ensures stack == [] && e.Ok? ==> NextHop(net.servers, r, fam).Some? && Route(r.cidr, NextHop(net.servers, r, fam).value) in net.routes
    ensures stack != [] ==>
              && NextHop(net.servers, r, fam).Some?
              && var x := Route(r.cidr, NextHop(net.servers, r, fam).value);
                 x !in old(net.routes) && net.routes == old(net.routes) + [x]
    ensures stack != [] && e.Failed? ==>
              && armed && |stack| == 1 && stack[0].RestoreRoutes? && InBounds(stack[0])
              && Contents(stack[0].routes) == old(net.routes) && net.pairs == old(net.pairs)
              && ChangedOnly(net.writes[|old(net.writes)|..], net.routes)
    ensures stack != [] && e.Ok? ==>
              && !armed
              && var p := PortFor(net.servers, r.node, NextHop(net.servers, r, fam).value);
                 p.Some? && p.value in old(net.pairs) && net.pairs == old(net.pairs)[p.value := WithPair(old(net.pairs)[p.value], r.cidr)]
    ensures e.Failed? ==> net.faults > old(net.faults) || NoTarget(net.servers, old(net.pairs), r, fam)
  {
    hide NextHop, PortFor, PickAddress, WithPair, WithoutPair, FirstHit, AllFailed, ChangedOnly;
    armed, stack := true, [];
    NoneSent(net.writes);
    var addr := FindAddress(net, r, fam);
    if addr.None? {
      return Failed, armed, stack;
    }
    var added, orig;
    e, added, orig := ExtendTable(net, Route(r.cidr, addr.value));
    if e.Failed? || !added {
      return;
    }
    stack := [RestoreRoutes(orig)];
    ghost var changed := net.routes;
    var undo;
    e, undo := AddPair(net, r.node, addr.value, r.cidr);
    if e.Failed? {
      OnlyFirst(old(net.writes), changed, net.writes);
      return;
    }
    stack := stack + undo;
    armed := false;
  }

  /** The second resource of CreateRoute. */
  method AddPair(net: Network, node: string, addr: string, cidr: string) returns (e: Result, undo: seq<Unwinder>)
    modifies net`pairs, net`writes, net`faults
    ensures old(net.writes) <= net.writes
    ensures e.Failed? ==> AllFailed(net.writes[|old(net.writes)|..])
    ensures e.Ok? ==>
              && var p := PortFor(net.servers, node, addr);
                 p.Some? && p.value in old(net.pairs) && net.pairs == old(net.pairs)[p.value := WithPair(old(net.pairs)[p.value], cidr)]
    ensures e.Failed? ==> net.pairs == old(net.pairs)
    ensures e.Failed? ==>
              || net.faults > old(net.faults)
              || PortFor(net.servers, node, addr).None? || PortFor(net.servers, node, addr).value !in old(net.pairs)
    ensures net.faults >= old(net.faults)
    ensures forall i :: 0 <= i < |undo| ==> undo[i].RestorePairs? && InBounds(undo[i])
  {
    undo := [];
    var p, pairs := FindPairs(net, node, addr);
    if p.None? {
      return Failed, undo;
    }
    var found := FindPair(pairs, cidr);
    if found.Some? {
      assert net.pairs == net.pairs[p.value := net.pairs[p.value]];
      return Ok, undo;
    }
    var more := Append(pairs, Pair(cidr, ""));
    var ok := net.PutPairs(p.value, more);
    if !ok {
      return Failed, undo;
    }
    return Ok, [RestorePairs(p.value, pairs)];
  }

  method FindRoute(s: Slice<Route>, r: CloudRoute, addr: string) returns (i: Option<nat>)
    requires s.len <= s.arr.Length
    ensures i == FirstHit(Contents(s), r, addr)
  {
    for k := 0 to s.len
      invariant forall j :: 0 <= j < k ==> !Hits(s.arr[j], r, addr)
    {
      if s.arr[k].cidr == r.cidr && (s.arr[k].nextHop == addr || (r.blackhole && s.arr[k].nextHop == r.node)) {
        return Some(k);
      }
    }
    return None;
  }

  ghost predicate NoTarget(servers: map<string, Server>, pairs: map<PortId, seq<Pair>>, r: CloudRoute, fam: Families) {
    || NextHop(servers, r, fam).None?
    || PortFor(servers, r.node, NextHop(servers, r, fam).value).None?
    || PortFor(servers, r.node, NextHop(servers, r, fam).value).value !in pairs
  }

  method FindPair(s: Slice<Pair>, cidr: string) returns (i: Option<nat>)
    requires s.len <= s.arr.Length
    ensures i == FirstPair(Contents(s), cidr)
    ensures i.Some? <==> HasPair(Contents(s), cidr)
  {
    for k := 0 to s.len
      invariant forall j :: 0 <= j < k ==> s.arr[j].ip != cidr
    {
      if s.arr[k].ip == cidr {
        return Some(k);
      }
    }
    return None;
  }

  /** CreateRoute is all or nothing: success adds exactly the new route and the pair. On
      failure either no update took effect, or the table was extended and the last update
      sent is the compensation, with the table as it was: then only a compensation that
      fails leaves something over, the new route. */
  method CreateRoute(net: Network, r: CloudRoute, fam: Families) returns (e: Result)
    modifies net`routes, net`pairs, net`writes, net`faults
    ensures old(net.writes) <= net.writes && net.faults >= old(net.faults)
    ensures e.Ok? ==>
              && !NoNextHop(net, r, fam)
              && var x := Route(r.cidr, NextHop(net.servers, r, fam).value);
                 if x in old(net.routes) then net.routes == old(net.routes) && net.pairs == old(net.pairs)
                 else
                   && net.routes == old(net.routes) + [x]
                   && var p := PortFor(net.servers, r.node, x.nextHop);
                      && p.Some? && p.value in old(net.pairs)
                      && net.pairs == old(net.pairs)[p.value := WithPair(old(net.pairs)[p.value], r.cidr)]
    ensures e.Ok? ==>
              && r.node in net.servers
              && exists i ::
                   && Picks(net.servers[r.node].addresses, i, fam.cidrIsV6(r.cidr), fam)
                   && var x := Route(r.cidr, net.servers[r.node].addresses[i].addr);
                      && fam.addrIsV6(x.nextHop) == fam.cidrIsV6(r.cidr) && x in net.routes
                      && (net.routes == old(net.routes) || net.routes == old(net.routes) + [x])
    ensures e.Ok? && net.routes != old(net.routes) ==>
              exists p :: p in old(net.pairs) && PairAdded(old(net.pairs), net.pairs, p, r.cidr)
    ensures e.Failed? ==> net.pairs == old(net.pairs)
    ensures e.Failed? ==>
              var w := net.writes[|old(net.writes)|..];
              || (AllFailed(w) && net.routes == old(net.routes))
              || (&& !NoNextHop(net, r, fam)
                  && var x := Route(r.cidr, NextHop(net.servers, r, fam).value);
                     Compensated(w, old(net.routes) + [x], old(net.routes), net.routes))
    ensures e.Failed? ==> net.faults > old(net.faults) || NoTarget(net.servers, old(net.pairs), r, fam)
  {
    hide ChangedOnly, AllFailed, Compensated, NextHop, PortFor, WithPair, PairAdded, Picks;
    var armed, stack;
    e, armed, stack := CreateRouteBody(net, r, fam);
    NextHopPicked(net.servers, r, fam);
    PairsAdded(old(net.pairs), r.cidr);
    ghost var w, changed := net.writes[|old(net.writes)|..], net.routes;
    ghost var sent := RunDeferred(net, armed, stack);
    assert net.writes[|old(net.writes)|..] == w + sent;
    if stack == [] {
      assert w + sent == w;
    } else if e.Failed? {
      CompensatedBy(w, changed, old(net.routes), sent[0].ok);
      assert sent == [WriteRoutes(old(net.routes), sent[0].ok)];
    }
  }

  /** The port's list is as before if it had the CIDR, and one pair longer if not; no other
      port's list changed. */
  ghost predicate PairAdded(before: map<PortId, seq<Pair>>, now: map<PortId, seq<Pair>>, p: PortId, cidr: string) {
    && now.Keys == before.Keys && p in before && (forall q :: q in before && q != p ==> now[q] == before[q])
    && now[p] == if exists k :: 0 <= k < |before[p]| && before[p][k].ip == cidr then before[p] else before[p] + [Pair(cidr, "")]
  }

  /** The port's list has lost the first pair of the CIDR, if any; no other list changed. */
  ghost predicate PairRemoved(before: map<PortId, seq<Pair>>, now: map<PortId, seq<Pair>>, p: PortId, cidr: string) {
    && now.Keys == before.Keys && p in before && (forall q :: q in before && q != p ==> now[q] == before[q])
    && ((forall k :: 0 <= k < |before[p]| ==> before[p][k].ip != cidr) ==> now[p] == before[p])
    && (forall k :: 0 <= k < |before[p]| && before[p][k].ip == cidr && (forall j :: 0 <= j < k ==> before[p][j].ip != cidr) ==>
          multiset(now[p]) == multiset(before[p]) - multiset{before[p][k]})
  }

  lemma PairsRemoved(before: map<PortId, seq<Pair>>, cidr: string)
    ensures forall p :: p in before ==> PairRemoved(before, before[p := WithoutPair(before[p], cidr)], p, cidr)
  {
    hide SwapRemove, FirstPair;
    forall p | p in before
      ensures PairRemoved(before, before[p := WithoutPair(before[p], cidr)], p, cidr)
    {
      var s := before[p];
      FirstPairMatches(s, cidr);
      var i := FirstPair(s, cidr);
      if i.Some? {
        SwapRemoveMultiset(s, i.value);
        assert forall k :: 0 <= k < |s| && s[k].ip == cidr && (forall j :: 0 <= j < k ==> s[j].ip != cidr) ==> k == i.value;
      }
    }
  }

  lemma FirstPairMatches(s: seq<Pair>, cidr: string)
    ensures FirstPair(s, cidr).None? ==> forall k :: 0 <= k < |s| ==> s[k].ip != cidr
    ensures FirstPair(s, cidr).Some? ==>
              FirstPair(s, cidr).value < |s| && s[FirstPair(s, cidr).value].ip == cidr && forall j :: 0 <= j < FirstPair(s, cidr).value ==> s[j].ip != cidr
  {
  }

  lemma PairsAdded(before: map<PortId, seq<Pair>>, cidr: string)
    ensures forall p :: p in before ==> PairAdded(before, before[p := WithPair(before[p], cidr)], p, cidr)
  {
  }

  lemma NextHopPicked(servers: map<string, Server>, r: CloudRoute, fam: Families)
    ensures NextHop(servers, r, fam).Some? ==>
              && r.node in servers && fam.addrIsV6(NextHop(servers, r, fam).value) == fam.cidrIsV6(r.cidr)
              && exists i :: Picks(servers[r.node].addresses, i, fam.cidrIsV6(r.cidr), fam) && servers[r.node].addresses[i].addr == NextHop(servers, r, fam).value
  {
  }

  ghost predicate NoNextHop(net: Network, r: CloudRoute, fam: Families)
    reads net
  {
    NextHop(net.servers, r, fam).None?
  }

  /** The address DeleteRoute compares next hops with: none is looked up for a blackhole. */
  function DeleteAddress(servers: map<string, Server>, r: CloudRoute, fam: Families): Option<string> {
    if r.blackhole then Some("") else NextHop(servers, r, fam)
  }

  /** The first resource of DeleteRoute: finds the entry, and sends the table without it. The
      slice handed on shares its array with the one the entry was removed from. */
  method ShortenTable(net: Network, r: CloudRoute, addr: string) returns (e: Result, touched: Option<nat>, orig: Slice<Route>)
    modifies net`routes, net`writes, net`faults
    ensures fresh(orig.arr) && orig.len <= orig.arr.Length && net.faults >= old(net.faults) && old(net.writes) <= net.writes
    ensures e.Ok? ==> touched == FirstHit(old(net.routes), r, addr)
    ensures touched.None? ==> net.routes == old(net.routes) && AllFailed(net.writes[|old(net.writes)|..])
    ensures touched.Some? ==>
              && e.Ok? && touched.value < |old(net.routes)|
              && net.routes == SwapRemove(old(net.routes), touched.value)
              && net.writes == old(net.writes) + [WriteRoutes(net.routes, true)]
              && ChangedOnly(net.writes[|old(net.writes)|..], net.routes)
              && Contents(orig) == Unwound(old(net.routes), touched.value)
    ensures e.Failed? ==> net.faults > old(net.faults)
  {
    hide FirstHit, SwapRemove;
    var ok;
    ok, orig := net.GetRoutes();
    if !ok {
      return Failed, None, orig;
    }
    var at := FindRoute(orig, r, addr);
    if at.None? {
      return Ok, None, orig;
    }
    FirstHitMatches(Contents(orig), r, addr);
    var shorter := SwapDelete(orig, at.value);
    ok := net.PutRoutes(shorter);
    if !ok {
      return Failed, None, orig;
    }
    return Ok, at, orig;
  }

  lemma FirstHitMatches(s: seq<Route>, r: CloudRoute, addr: string)
    ensures FirstHit(s, r, addr).Some? ==>
              && FirstHit(s, r, addr).value < |s|
              && (var x := s[FirstHit(s, r, addr).value]; x.cidr == r.cidr && (x.nextHop == addr || (r.blackhole && x.nextHop == r.node)))
              && (forall j :: 0 <= j < FirstHit(s, r, addr).value && s[j].cidr == r.cidr ==>
                    s[j].nextHop != addr && (r.blackhole ==> s[j].nextHop != r.node))
  {
  }

  /** Everything DeleteRoute does before its deferred calls run. `touched` says that the
      router table has been changed. */
  method DeleteRouteBody(net: Network, r: CloudRoute, fam: Families)
      returns (e: Result, armed: bool, stack: seq<Unwinder>, touched: Option<nat>)
    modifies net`routes, net`pairs, net`writes, net`faults
    ensures forall i :: 0 <= i < |stack| ==> InBounds(stack[i]) && (stack[i].RestoreRoutes? ==> fresh(stack[i].routes.arr))
    ensures old(net.writes) <= net.writes && net.faults >= old(net.faults)
    ensures touched.None? ==>
              net.routes == old(net.routes) && net.pairs == old(net.pairs) && stack == [] && AllFailed(net.writes[|old(net.writes)|..])
    ensures touched.Some? || e.Ok? ==>
              DeleteAddress(net.servers, r, fam).Some? && touched == FirstHit(old(net.routes), r, DeleteAddress(net.servers, r, fam).value)
    ensures r.blackhole && e.Failed? ==> touched.None?
    ensures touched.Some? ==> touched.value < |old(net.routes)| && net.routes == SwapRemove(old(net.routes), touched.value)
    ensures touched.Some? && e.Ok? && r.blackhole ==> net.pairs == old(net.pairs) && stack == []
    ensures touched.Some? && e.Ok? && !r.blackhole ==>
              && !armed
              && var p := PortFor(net.servers, r.node, DeleteAddress(net.servers, r, fam).value);
                 p.Some? && p.value in old(net.pairs) && net.pairs == old(net.pairs)[p.value := WithoutPair(old(net.pairs)[p.value], r.cidr)]
    ensures touched.Some? && e.Failed? ==>
              && armed && net.pairs == old(net.pairs)
              && |stack| == 1 && stack[0].RestoreRoutes? && InBounds(stack[0])
              && Contents(stack[0].routes) == Unwound(old(net.routes), touched.value)
              && ChangedOnly(net.writes[|old(net.writes)|..], net.routes)
    ensures e.Failed? ==> net.faults > old(net.faults) || (!r.blackhole && NoTarget(net.servers, old(net.pairs), r, fam))
  {
    hide NextHop, PortFor, PickAddress, WithPair, WithoutPair, FirstHit, SwapRemove, Unwound, AllFailed, ChangedOnly;
    armed, stack, touched := true, [], None;
    NoneSent(net.writes);
    var addr := Some("");
    if !r.blackhole {
      addr := FindAddress(net, r, fam);
      if addr.None? {
        return Failed, armed, stack, touched;
      }
    }
    var orig;
    e, touched, orig := ShortenTable(net, r, addr.value);
    if e.Failed? || touched.None? || r.blackhole {
      return;
    }
    stack := [RestoreRoutes(orig)];
    ghost var changed := net.routes;
    var undo;
    e, undo := RemovePair(net, r.node, addr.value, r.cidr);
    if e.Failed? {
      OnlyFirst(old(net.writes), changed, net.writes);
      return;
    }
    stack := stack + undo;
    armed := false;
  }

  /** The second resource of DeleteRoute. */
  method RemovePair(net: Network, node: string, addr: string, cidr: string) returns (e: Result, undo: seq<Unwinder>)
    modifies net`pairs, net`writes, net`faults
    ensures old(net.writes) <= net.writes
    ensures e.Failed? ==> AllFailed(net.writes[|old(net.writes)|..])
    ensures e.Ok? ==>
              && var p := PortFor(net.servers, node, addr);
                 p.Some? && p.value in old(net.pairs) && net.pairs == old(net.pairs)[p.value := WithoutPair(old(net.pairs)[p.value], cidr)]
    ensures e.Failed? ==> net.pairs == old(net.pairs)
    ensures e.Failed? ==>
              || net.faults > old(net.faults)
              || PortFor(net.servers, node, addr).None? || PortFor(net.servers, node, addr).value !in old(net.pairs)
    ensures net.faults >= old(net.faults)
    ensures forall i :: 0 <= i < |undo| ==> undo[i].RestorePairs? && InBounds(undo[i])
  {
    undo := [];
    var p, pairs := FindPairs(net, node, addr);
    if p.None? {
      return Failed, undo;
    }
    var at := FindPair(pairs, cidr);
    if at.None? {
      assert net.pairs == net.pairs[p.value := net.pairs[p.value]];
      return Ok, undo;
    }
    var fewer := SwapDelete(pairs, at.value);
    var ok := net.PutPairs(p.value, fewer);
    if !ok {
      return Failed, undo;
    }
    return Ok, [RestorePairs(p.value, pairs)];
  }

  /** DeleteRoute. Success removes the first hit by swapping and, unless the route is a
      blackhole, the port's pair. On failure either no update took effect, or the table was
      shortened and the last update sent is the compensation, but with `Unwound` instead of
      the original table. */
  method DeleteRoute(net: Network, r: CloudRoute, fam: Families) returns (e: Result, ghost touched: Option<nat>)
    modifies net`routes, net`pairs, net`writes, net`faults
    ensures old(net.writes) <= net.writes && net.faults >= old(net.faults)
    ensures touched.Some? || e.Ok? ==>
              DeleteAddress(net.servers, r, fam).Some? && touched == FirstHit(old(net.routes), r, DeleteAddress(net.servers, r, fam).value)
    ensures touched.None? ==>
              net.routes == old(net.routes) && net.pairs == old(net.pairs) && AllFailed(net.writes[|old(net.writes)|..])
    ensures touched.Some? ==> touched.value < |old(net.routes)|
    ensures r.blackhole && e.Failed? ==> touched.None?
    ensures touched.Some? ==>
              var x := old(net.routes)[touched.value];
              && x.cidr == r.cidr
              && (r.blackhole ==> x.nextHop == "" || x.nextHop == r.node)
              && (forall j :: 0 <= j < touched.value && old(net.routes)[j].cidr == r.cidr ==>
                    if r.blackhole then old(net.routes)[j].nextHop != "" && old(net.routes)[j].nextHop != r.node
                    else old(net.routes)[j].nextHop != x.nextHop)
              && (!r.blackhole ==>
                    && r.node in net.servers && fam.addrIsV6(x.nextHop) == fam.cidrIsV6(r.cidr)
                    && exists i :: Picks(net.servers[r.node].addresses, i, fam.cidrIsV6(r.cidr), fam) && net.servers[r.node].addresses[i].addr == x.nextHop)
    ensures touched.Some? && e.Ok? ==>
              && net.routes == SwapRemove(old(net.routes), touched.value)
              && (r.blackhole ==> net.pairs == old(net.pairs))
              && (!r.blackhole ==>
                    var p := PortFor(net.servers, r.node, DeleteAddress(net.servers, r, fam).value);
                    p.Some? && p.value in old(net.pairs) && net.pairs == old(net.pairs)[p.value := WithoutPair(old(net.pairs)[p.value], r.cidr)])
    ensures touched.Some? && e.Ok? && !r.blackhole ==>
              exists p :: p in old(net.pairs) && PairRemoved(old(net.pairs), net.pairs, p, r.cidr)
    ensures touched.Some? && e.Failed? ==>
              && net.pairs == old(net.pairs)
              && Compensated(net.writes[|old(net.writes)|..], SwapRemove(old(net.routes), touched.value),
                             Unwound(old(net.routes), touched.value), net.routes)
    ensures e.Failed? ==> net.faults > old(net.faults) || (!r.blackhole && NoTarget(net.servers, old(net.pairs), r, fam))
  {
    hide ChangedOnly, AllFailed, Compensated, NextHop, PortFor, WithoutPair, FirstHit, SwapRemove, Unwound, Picks, PairRemoved;
    var armed, stack;
    e, armed, stack, touched := DeleteRouteBody(net, r, fam);
    NextHopPicked(net.servers, r, fam);
    if touched.Some? {
      FirstHitMatches(old(net.routes), r, DeleteAddress(net.servers, r, fam).value);
      PairsRemoved(old(net.pairs), r.cidr);
    }
    ghost var w, changed := net.writes[|old(net.writes)|..], net.routes;
    ghost var sent := RunDeferred(net, armed, stack);
    assert net.writes[|old(net.writes)|..] == w + sent;
    if touched.None? {
      assert w + sent == w;
    } else if e.Failed? {
      ghost var back := Unwound(old(net.routes), touched.value);
      CompensatedBy(w, changed, back, sent[0].ok);
      assert sent == [WriteRoutes(back, sent[0].ok)];
    }
  }

  // ---- listing, and the two calls in a row ----

  ghost predicate SomeServerHas(servers: map<string, Server>, addr: string, node: string) {
    node in servers && exists i :: 0 <= i < |servers[node].addresses| && servers[node].addresses[i].addr == addr
  }

  /** The last server listed wins an address that several have. */
  lemma ItsAddresses(servers: map<string, Server>, n: string)
    requires n in servers
    ensures var s := servers[n].addresses;
            && (forall j :: 0 <= j < |s| ==> SomeServerHas(servers, s[j].addr, n))
            && (forall a :: SomeServerHas(servers, a, n) ==> exists j :: 0 <= j < |s| && s[j].addr == a)
  {
  }

  method IndexAddresses(servers: map<string, Server>) returns (names: map<string, string>)
    ensures forall a :: a in names ==> SomeServerHas(servers, a, names[a])
    ensures forall a, n :: SomeServerHas(servers, a, n) ==> a in names
  {
    hide SomeServerHas;
    names := map[];
    var q := Enumerate(servers.Keys);
    for i := 0 to |q|
      invariant forall a :: a in names ==> SomeServerHas(servers, a, names[a])
      invariant forall a, n :: n in q[..i] && SomeServerHas(servers, a, n) ==> a in names
    {
      assert q[i] in q && q[..i + 1] == q[..i] + [q[i]];
      var addrs := servers[q[i]].addresses;
      ghost var before := names;
      ItsAddresses(servers, q[i]);
      for j := 0 to |addrs|
        invariant forall a :: a in names ==> SomeServerHas(servers, a, names[a])
        invariant forall a :: a in before ==> a in names
        invariant forall k :: 0 <= k < j ==> addrs[k].addr in names
      {
        names := names[addrs[j].addr := q[i]];
      }
    }
    assert q[..|q|] == q;
    forall a, n | SomeServerHas(servers, a, n)
      ensures n in servers
    {
      HasIsListed(servers, a, n);
    }
  }

  lemma HasIsListed(servers: map<string, Server>, addr: string, node: string)
    requires SomeServerHas(servers, addr, node)
    ensures node in servers
  {
  }

  /** What ListRoutes reports for one table entry. */
  ghost predicate Reports(servers: map<string, Server>, x: Route, r: CloudRoute) {
    && r.cidr == x.cidr
    && (r.blackhole <==> forall n :: !SomeServerHas(servers, x.nextHop, n))
    && (if r.blackhole then r.node == x.nextHop else SomeServerHas(servers, x.nextHop, r.node))
  }

  method ListRoutes(net: Network) returns (ok: bool, out: seq<CloudRoute>)
    modifies net`faults
    ensures net.faults >= old(net.faults)
    ensures ok ==> |out| == |net.routes| && forall i :: 0 <= i < |out| ==> Reports(net.servers, net.routes[i], out[i])
    ensures !ok ==> net.faults > old(net.faults)
  {
    out := [];
    var listed: bool := *;
    if !listed {
      net.faults := net.faults + 1;
      return false, out;
    }
    var names := IndexAddresses(net.servers);
    var s;
    ok, s := net.GetRoutes();
    if !ok {
      return;
    }
    for i := 0 to s.len
      invariant |out| == i && forall j :: 0 <= j < i ==> Reports(net.servers, s.arr[j], out[j])
    {
      var x := s.arr[i];
      var r := if x.nextHop in names then CloudRoute(x.cidr, names[x.nextHop], false) else CloudRoute(x.cidr, x.nextHop, true);
      out := out + [r];
    }
    assert forall j :: 0 <= j < s.len ==> s.arr[j] == Contents(s)[j];
  }

  /** An entry with the same CIDR and an empty next hop comes before every copy of `x`. */
  ghost predicate Masked(s: seq<Route>, x: Route) {
    exists j :: 0 <= j < |s| && s[j] == Route(x.cidr, "") && x !in s[..j + 1]
  }

  /** Deleting a listed blackhole route removes one copy of just that entry, and keeps the
      rest as a multiset, exactly when the entry is not masked: the empty address the call
      uses for blackholes also matches entries whose next hop is empty. */
  lemma BlackholeDeletesItsEntry(s: seq<Route>, x: Route, r: CloudRoute)
    requires x in s && r == CloudRoute(x.cidr, x.nextHop, true)
    ensures FirstHit(s, r, "").Some?
    ensures var i := FirstHit(s, r, "").value;
            && (s[i] == x <==> !Masked(s, x))
            && (multiset(SwapRemove(s, i)) == multiset(s) - multiset{x} <==> !Masked(s, x))
  {
    hide SwapRemove;
    var k :| 0 <= k < |s| && s[k] == x;
    assert Hits(s[k], r, "");
    var i := FirstHit(s, r, "").value;
    assert forall j :: 0 <= j < |s| ==> (Hits(s[j], r, "") <==> s[j] == x || s[j] == Route(x.cidr, ""));
    assert x !in s[..i];
    if s[i] == x {
      forall j | i <= j < |s| && s[j] == Route(x.cidr, "")
        ensures x in s[..j + 1]
      {
        assert s[..j + 1][i] == x;
      }
    } else {
      assert s[..i + 1] == s[..i] + [s[i]];
    }
    MultisetTells(s, i, x);
  }

  lemma MultisetTells(s: seq<Route>, i: nat, x: Route)
    requires i < |s| && x in s
    ensures multiset(SwapRemove(s, i)) == multiset(s) - multiset{x} <==> s[i] == x
  {
    SwapRemoveMultiset(s, i);
    if s[i] != x {
      assert multiset(s)[x] > 0 && multiset(s)[s[i]] > 0;
      assert (multiset(s) - multiset{s[i]})[x] != (multiset(s) - multiset{x})[x];
    }
  }

  /** Such an entry exists: the blackhole delete takes the empty next hop instead. */
  lemma MaskedEntryExample(cidr: string, hop: string)
    requires hop != ""
    ensures Masked([Route(cidr, ""), Route(cidr, hop)], Route(cidr, hop))
  {
    var s := [Route(cidr, ""), Route(cidr, hop)];
    assert s[..0 + 1] == [Route(cidr, "")];
    assert s[0] == Route(cidr, "");
  }

  /** Lists the routes and deletes the `i`-th of them, a blackhole. If that succeeds the table has
      lost one copy of just that entry if and only if the entry was not masked. */
  method ListThenDelete(net: Network, fam: Families, i: nat) returns (ok: bool)
    modifies net`routes, net`pairs, net`writes, net`faults
    ensures net.pairs == old(net.pairs)
    ensures !ok ==> net.routes == old(net.routes)
    ensures !ok ==> net.faults > old(net.faults) || i >= |old(net.routes)| || exists n :: SomeServerHas(net.servers, old(net.routes)[i].nextHop, n)
    ensures ok ==>
              && i < |old(net.routes)|
              && (multiset(net.routes) == multiset(old(net.routes)) - multiset{old(net.routes)[i]} <==> !Masked(old(net.routes), old(net.routes)[i]))
  {
    hide FirstHit, Masked, SwapRemove, AllFailed, SomeServerHas;
    var listed, out := ListRoutes(net);
    if !listed || i >= |out| || !out[i].blackhole {
      return false;
    }
    ghost var x := net.routes[i];
    assert x in net.routes && out[i] == CloudRoute(x.cidr, x.nextHop, true);
    BlackholeDeletesItsEntry(net.routes, x, out[i]);
    var e;
    ghost var touched;
    e, touched := DeleteRoute(net, out[i], fam);
    return e.Ok?;
  }

  lemma LastHit(s: seq<Route>, r: CloudRoute, addr: string)
    requires !r.blackhole && Route(r.cidr, addr) !in s
    ensures FirstHit(s + [Route(r.cidr, addr)], r, addr) == Some(|s|)
    ensures SwapRemove(s + [Route(r.cidr, addr)], |s|) == s
  {
    var t := s + [Route(r.cidr, addr)];
    assert Hits(t[|s|], r, addr);
    assert forall j :: 0 <= j < |s| ==> t[j] == s[j] && (Hits(s[j], r, addr) ==> s[j] == Route(r.cidr, addr));
  }

  lemma PairTwice(s: seq<Pair>, cidr: string)
    ensures WithoutPair(WithPair(s, cidr), cidr) == s <==> !HasPair(s, cidr)
  {
    if HasPair(s, cidr) {
      assert FirstPair(s, cidr).Some?;
    } else {
      var t := s + [Pair(cidr, "")];
      assert t[|s|].ip == cidr && forall j :: 0 <= j < |s| ==> t[j] == s[j];
      assert FirstPair(t, cidr) == Some(|s|);
      assert SwapRemove(t, |s|) == s;
    }
  }

  /** CreateRoute then DeleteRoute, both succeeding, restores table and pairs exactly when
      neither the route nor the pair was there before. */
  method CreateThenDelete(net: Network, r: CloudRoute, fam: Families) returns (ok: bool)
    requires !r.blackhole
    modifies net`routes, net`pairs, net`writes, net`faults
    ensures !ok ==> net.faults > old(net.faults) || NoTarget(net.servers, old(net.pairs), r, fam)
    ensures ok ==> NextHop(net.servers, r, fam).Some? && PortFor(net.servers, r.node, NextHop(net.servers, r, fam).value).Some?
    ensures ok ==>
              var addr := NextHop(net.servers, r, fam).value;
              var p := PortFor(net.servers, r.node, addr).value;
              && p in old(net.pairs)
              && ((net.routes == old(net.routes) && net.pairs == old(net.pairs)) <==>
                    Route(r.cidr, addr) !in old(net.routes) && !HasPair(old(net.pairs)[p], r.cidr))
  {
    hide NextHop, PortFor, FirstHit, WithPair, WithoutPair, HasPair, Picks, PairAdded, PairRemoved, Unwound, AllFailed, ChangedOnly, SwapRemove;
    ghost var touched;
    var e;
    ghost var routes0, pairs0 := net.routes, net.pairs;
    e := CreateRoute(net, r, fam);
    if e.Failed? {
      return false;
    }
    ghost var x := Route(r.cidr, NextHop(net.servers, r, fam).value);
    ghost var routes1, pairs1 := net.routes, net.pairs;
    e, touched := DeleteRoute(net, r, fam);
    if e.Failed? {
      return false;
    }
    assert x in routes1;
    ghost var i :| 0 <= i < |routes1| && routes1[i] == x;
    assert Hits(routes1[i], r, x.nextHop);
    assert touched.Some?;
    ghost var p := PortFor(net.servers, r.node, x.nextHop).value;
    if x !in routes0 {
      LastHit(routes0, r, x.nextHop);
      PairTwice(pairs0[p], r.cidr);
      assert net.pairs[p] == WithoutPair(WithPair(pairs0[p], r.cidr), r.cidr);
      assert pairs0 == pairs0[p := pairs0[p]];
    }
    return true;
  }
}
