/** The load balancer's security group on the nodes' Neutron ports: applied and tagged,
    later found again by the tag and taken off. */
module SecurityGroups {
  import opened Common

  type PortId = nat

  datatype Port = Port(device: string, groups: seq<string>, tags: set<string>)
  datatype Outcome = Ok | Failed | TagFailed(port: PortId)

  ghost function GroupSet(p: Port): set<string> {
    set x | x in p.groups
  }

  /** A port carries the group only if tagged with it. */
  ghost predicate Tagged(ports: map<PortId, Port>, sg: string) {
    forall p :: p in ports && sg in ports[p].groups ==> sg in ports[p].tags
  }

  /** Apart from the one group and its tag, every port is what it was. */
  ghost predicate SameOtherwise(a: map<PortId, Port>, b: map<PortId, Port>, sg: string) {
    && a.Keys == b.Keys
    && forall p :: p in a ==>
         && b[p].device == a[p].device
         && GroupSet(b[p]) - {sg} == GroupSet(a[p]) - {sg}
         && b[p].tags - {sg} == a[p].tags - {sg}
  }

  class Neutron {
    /** Server ids by node name, and the ports. */
    var servers: map<string, string>
    var ports: map<PortId, Port>
    ghost var faults: nat

    method FindServer(node: string) returns (r: Option<string>)
      modifies this`faults
      ensures r.Some? ==> node in servers && r.value == servers[node] && faults == old(faults)
      ensures r.None? ==> faults > old(faults) || node !in servers
    {
      var ok: bool := *;
      if !ok {
        faults := faults + 1;
        return None;
      }
      return if node in servers then Some(servers[node]) else None;
    }

    method ListByDevice(device: string) returns (ok: bool, q: seq<PortId>)
      modifies this`faults
      ensures ok ==> NoDuplicates(q) && faults == old(faults) && forall p :: p in q <==> p in ports && ports[p].device == device
      ensures !ok ==> faults > old(faults)
    {
      ok, q := *, [];
      if !ok {
        faults := faults + 1;
        return;
      }
      q := Enumerate(set p | p in ports && ports[p].device == device);
    }

    method ListByTag(tag: string) returns (ok: bool, q: seq<PortId>)
      modifies this`faults
      ensures ok ==> NoDuplicates(q) && faults == old(faults) && forall p :: p in q <==> p in ports && tag in ports[p].tags
      ensures !ok ==> faults > old(faults)
    {
      ok, q := *, [];
      if !ok {
        faults := faults + 1;
        return;
      }
      q := Enumerate(set p | p in ports && tag in ports[p].tags);
    }

    method SetGroups(p: PortId, groups: seq<string>) returns (ok: bool)
      requires p in ports
      modifies this`ports, this`faults
      ensures ok ==> ports == old(ports)[p := old(ports)[p].(groups := groups)] && faults == old(faults)
      ensures !ok ==> ports == old(ports) && faults > old(faults)
    {
      ok := *;
      if ok {
        ports := ports[p := ports[p].(groups := groups)];
      } else {
        faults := faults + 1;
      }
    }

    method SetTag(p: PortId, tag: string, on: bool) returns (ok: bool)
      requires p in ports
      modifies this`ports, this`faults
      ensures ok ==> faults == old(faults) &&
                     ports == old(ports)[p := old(ports)[p].(tags := if on then old(ports)[p].tags + {tag} else old(ports)[p].tags - {tag})]
      ensures !ok ==> ports == old(ports) && faults > old(faults)
    {
      ok := *;
      if ok {
        ports := ports[p := ports[p].(tags := if on then ports[p].tags + {tag} else ports[p].tags - {tag})];
      } else {
        faults := faults + 1;
      }
    }
  }

  /** One port of `applyNodeSecurityGroupIDForLB`: the group first, then the tag. */
  method ApplyToPort(c: Neutron, p: PortId, sg: string) returns (e: Outcome)
    requires p in c.ports
    modifies c`ports, c`faults
    ensures SameOtherwise(old(c.ports), c.ports, sg)
    ensures forall x :: x in c.ports && x != p ==> c.ports[x] == old(c.ports)[x]
    ensures e.Ok? ==> sg in c.ports[p].groups && sg in c.ports[p].tags && c.faults == old(c.faults)
    ensures e.Failed? ==> c.ports == old(c.ports)
    ensures e.TagFailed? ==> e.port == p && sg in c.ports[p].groups && c.ports[p].tags == old(c.ports)[p].tags
    ensures !e.Ok? ==> c.faults > old(c.faults)
  {
    var ok := c.SetGroups(p, c.ports[p].groups + [sg]);
    assert GroupSet(c.ports[p]) - {sg} == GroupSet(old(c.ports)[p]) - {sg};
    if !ok {
      return Failed;
    }
    ok := c.SetTag(p, sg, true);
    if !ok {
      return TagFailed(p);
    }
    return Ok;
  }

  lemma OtherwiseTwice(a: map<PortId, Port>, b: map<PortId, Port>, c: map<PortId, Port>, sg: string)
    requires SameOtherwise(a, b, sg) && SameOtherwise(b, c, sg)
    ensures SameOtherwise(a, c, sg)
  {
  }

  /** All ports of one server. */
  method ApplyToServer(c: Neutron, device: string, sg: string) returns (e: Outcome)
    modifies c`ports, c`faults
    ensures SameOtherwise(old(c.ports), c.ports, sg)
    ensures forall p :: p in c.ports && c.ports[p].device != device ==> c.ports[p] == old(c.ports)[p]
    ensures forall p :: p in c.ports && c.ports[p] != old(c.ports)[p] && !(e.TagFailed? && p == e.port) ==>
              sg in c.ports[p].groups && sg in c.ports[p].tags
    ensures e.Ok? ==> c.faults == old(c.faults)
    ensures e.Ok? ==> forall p :: p in c.ports && c.ports[p].device == device ==> sg in c.ports[p].groups && sg in c.ports[p].tags
    ensures e.TagFailed? ==> e.port in c.ports && sg in c.ports[e.port].groups && old(c.ports)[e.port].tags <= c.ports[e.port].tags
    ensures !e.Ok? ==> c.faults > old(c.faults)
  {
    hide SameOtherwise;
    SameItself(c.ports, sg);
    var ok, q := c.ListByDevice(device);
    if !ok {
      return Failed;
    }
    for i := 0 to |q|
      invariant SameOtherwise(old(c.ports), c.ports, sg) && c.ports.Keys == old(c.ports.Keys)
      invariant forall p :: p in c.ports ==> c.ports[p].device == old(c.ports)[p].device
      invariant forall p :: p in c.ports && p !in q[..i] ==> c.ports[p] == old(c.ports)[p]
      invariant forall p :: p in q ==> p in c.ports
      invariant forall p :: p in q[..i] ==> sg in c.ports[p].groups && sg in c.ports[p].tags
      invariant c.faults == old(c.faults)
    {
      ghost var before := c.ports;
      assert q[i] in q && q[..i + 1] == q[..i] + [q[i]];
      e := ApplyToPort(c, q[i], sg);
      OtherwiseTwice(old(c.ports), before, c.ports, sg);
      SameDevices(before, c.ports, sg);
      if !e.Ok? {
        return;
      }
    }
    return Ok;
  }

  lemma SameItself(a: map<PortId, Port>, sg: string)
    ensures SameOtherwise(a, a, sg)
  {
  }

  lemma SameDevices(a: map<PortId, Port>, b: map<PortId, Port>, sg: string)
    requires SameOtherwise(a, b, sg)
    ensures a.Keys == b.Keys && forall p :: p in a ==> b[p].device == a[p].device
  {
  }

  /** The device is the server of a listed node. */
  ghost predicate Listed(nodes: seq<string>, servers: map<string, string>, device: string) {
    exists n :: n in nodes && n in servers && servers[n] == device
  }

  /** `applyNodeSecurityGroupIDForLB`. Success keeps `Tagged`; a failure breaks it exactly
      when it is the tagging of a port that had no tag yet. */
  method ApplyNodeSecurityGroup(c: Neutron, nodes: seq<string>, sg: string) returns (e: Outcome)
    modifies c`ports, c`faults
    ensures SameOtherwise(old(c.ports), c.ports, sg)
    ensures e.Ok? ==> c.faults == old(c.faults)
    ensures e.Ok? ==> forall p :: p in c.ports && (c.ports[p] != old(c.ports)[p] || Listed(nodes, c.servers, c.ports[p].device)) ==>
              sg in c.ports[p].groups && sg in c.ports[p].tags
    ensures forall p :: p in c.ports && !Listed(nodes, c.servers, c.ports[p].device) ==> c.ports[p] == old(c.ports)[p]
    ensures e.Ok? ==> forall n, p :: n in nodes && p in c.ports && n in c.servers && c.ports[p].device == c.servers[n] ==>
              sg in c.ports[p].groups && sg in c.ports[p].tags
    ensures old(Tagged(c.ports, sg)) ==>
              (Tagged(c.ports, sg) <==> !(e.TagFailed? && e.port in c.ports && sg !in c.ports[e.port].tags))
    ensures !e.Ok? ==> c.faults > old(c.faults) || exists n :: n in nodes && n !in c.servers
  {
    hide SameOtherwise;
    SameItself(c.ports, sg);
    for i := 0 to |nodes|
      invariant SameOtherwise(old(c.ports), c.ports, sg)
      invariant old(Tagged(c.ports, sg)) ==> Tagged(c.ports, sg)
      invariant forall p :: p in c.ports ==> p in old(c.ports) && c.ports[p].device == old(c.ports)[p].device
      invariant forall p :: p in c.ports && c.ports[p] != old(c.ports)[p] ==> sg in c.ports[p].groups && sg in c.ports[p].tags
      invariant forall p :: p in c.ports && !Listed(nodes, c.servers, c.ports[p].device) ==> c.ports[p] == old(c.ports)[p]
      invariant forall n, p :: n in nodes[..i] && p in c.ports && n in c.servers && c.ports[p].device == c.servers[n] ==>
                  sg in c.ports[p].groups && sg in c.ports[p].tags
      invariant c.faults == old(c.faults)
    {
      assert nodes[..i + 1] == nodes[..i] + [nodes[i]];
      var srv := c.FindServer(nodes[i]);
      if srv.None? {
        return Failed;
      }
      ghost var before := c.ports;
      assert nodes[i] in nodes && Listed(nodes, c.servers, srv.value);
      e := ApplyToServer(c, srv.value, sg);
      OtherwiseTwice(old(c.ports), before, c.ports, sg);
      SameDevices(before, c.ports, sg);
      if !e.Ok? {
        return;
      }
    }
    assert nodes[..|nodes|] == nodes;
    return Ok;
  }

  /** One port of `disassociateSecurityGroupForLB`: the group first, then the tag, so a
      port from which the group is not yet gone can always be found again. */
  method DisassociatePort(c: Neutron, p: PortId, sg: string) returns (ok: bool)
    requires p in c.ports && sg in c.ports[p].tags
    modifies c`ports, c`faults
    ensures SameOtherwise(old(c.ports), c.ports, sg)
    ensures forall x :: x in c.ports && x != p ==> c.ports[x] == old(c.ports)[x]
    ensures sg in c.ports[p].groups ==> sg in c.ports[p].tags
    ensures Taken(old(c.ports), c.ports, sg)
    ensures ok ==> sg !in c.ports[p].groups && sg !in c.ports[p].tags && c.faults == old(c.faults)
    ensures !ok ==> c.faults > old(c.faults)
  {
    ghost var port := c.ports[p];
    var keep: set<string> := {};
    var groups := c.ports[p].groups;
    for i := 0 to |groups|
      invariant keep == set x | x in groups[..i]
    {
      assert groups[..i + 1] == groups[..i] + [groups[i]];
      keep := keep + {groups[i]};
    }
    assert groups[..|groups|] == groups;
    assert keep == GroupSet(port);
    var fewer := Enumerate(keep - {sg});
    ok := c.SetGroups(p, fewer);
    if !ok {
      return;
    }
    assert GroupSet(c.ports[p]) == keep - {sg};
    ok := c.SetTag(p, sg, false);
  }

  /** Only tagged ports are touched, and a touched port has lost the group. */
  ghost predicate Taken(a: map<PortId, Port>, b: map<PortId, Port>, sg: string) {
    && a.Keys == b.Keys
    && forall p :: p in a ==> b[p] == a[p] || (sg in a[p].tags && sg !in b[p].groups)
  }

  lemma TakenTwice(a: map<PortId, Port>, b: map<PortId, Port>, c: map<PortId, Port>, sg: string)
    requires Taken(a, b, sg) && Taken(b, c, sg)
    ensures Taken(a, c, sg)
  {
    forall p | p in a
      ensures c[p] == a[p] || (sg in a[p].tags && sg !in c[p].groups)
    {
      assert b[p] == a[p] || (sg in a[p].tags && sg !in b[p].groups);
    }
  }

  /** `disassociateSecurityGroupForLB`. Every outcome keeps `Tagged`, so it can be rerun;
      success leaves no port with the tag and, given `Tagged`, none with the group. */
  method DisassociateSecurityGroup(c: Neutron, sg: string) returns (ok: bool)
    modifies c`ports, c`faults
    ensures SameOtherwise(old(c.ports), c.ports, sg)
    ensures old(Tagged(c.ports, sg)) ==> Tagged(c.ports, sg)
    ensures Taken(old(c.ports), c.ports, sg)
    ensures ok ==> c.faults == old(c.faults) && forall p :: p in c.ports ==> sg !in c.ports[p].tags
    ensures !ok ==> c.faults > old(c.faults)
  {
    hide SameOtherwise, Taken;
    SameItself(c.ports, sg);
    NoneTaken(c.ports, sg);
    var q;
    ok, q := c.ListByTag(sg);
    if !ok {
      return;
    }
    for i := 0 to |q|
      invariant SameOtherwise(old(c.ports), c.ports, sg)
      invariant old(Tagged(c.ports, sg)) ==> Tagged(c.ports, sg)
      invariant Taken(old(c.ports), c.ports, sg)
      invariant forall p :: p in c.ports && sg in c.ports[p].tags <==> p in q[i..]
      invariant c.faults == old(c.faults)
    {
      assert q[i..] == [q[i]] + q[i + 1..] && q[i] in q[i..];
      ghost var before := c.ports;
      ok := DisassociatePort(c, q[i], sg);
      OtherwiseTwice(old(c.ports), before, c.ports, sg);
      TakenTwice(old(c.ports), before, c.ports, sg);
      SameDevices(before, c.ports, sg);
      if !ok {
        return;
      }
    }
    return true;
  }

  lemma NoneTaken(a: map<PortId, Port>, sg: string)
    ensures Taken(a, a, sg)
  {
  }

  /** The device is the server of a node of some list. */
  ghost predicate EverListed(batches: seq<seq<string>>, servers: map<string, string>, device: string) {
    exists i :: 0 <= i < |batches| && Listed(batches[i], servers, device)
  }

  ghost predicate SameGroupsAndTags(a: Port, b: Port) {
    GroupSet(a) == GroupSet(b) && a.tags == b.tags
  }

  /** After the applications: listed ports have group and tag, the others are as before. */
  ghost predicate Applied(a: map<PortId, Port>, b: map<PortId, Port>, batches: seq<seq<string>>, servers: map<string, string>, sg: string) {
    && a.Keys == b.Keys
    && forall p :: p in a ==>
         && b[p].device == a[p].device
         && (if EverListed(batches, servers, a[p].device) then sg in b[p].groups && sg in b[p].tags else b[p] == a[p])
  }

  lemma AppliedNext(a: map<PortId, Port>, b: map<PortId, Port>, c: map<PortId, Port>, batches: seq<seq<string>>, i: nat,
                    servers: map<string, string>, sg: string)
    requires i < |batches| && Applied(a, b, batches[..i], servers, sg)
    requires c.Keys == b.Keys && forall p :: p in c ==> c[p].device == b[p].device
    requires forall p :: p in c && (c[p] != b[p] || Listed(batches[i], servers, c[p].device)) ==> sg in c[p].groups && sg in c[p].tags
    requires forall p :: p in c && !Listed(batches[i], servers, c[p].device) ==> c[p] == b[p]
    ensures Applied(a, c, batches[..i + 1], servers, sg)
  {
    hide Listed;
    forall p | p in a
      ensures EverListed(batches[..i + 1], servers, a[p].device) <==>
                EverListed(batches[..i], servers, a[p].device) || Listed(batches[i], servers, a[p].device)
    {
      EverListedNext(batches, i, servers, a[p].device);
    }
  }

  lemma EverListedNext(batches: seq<seq<string>>, i: nat, servers: map<string, string>, device: string)
    requires i < |batches|
    ensures EverListed(batches[..i + 1], servers, device) <==> EverListed(batches[..i], servers, device) || Listed(batches[i], servers, device)
  {
    hide Listed;
    var more := batches[..i + 1];
    assert more[i] == batches[i];
    assert forall j :: 0 <= j < i ==> more[j] == batches[..i][j];
  }

  /** A group applied to any node lists any number of times, and disassociated until that
      succeeds: a port is back to its own groups and tags if and only if it did not have the
      tag before, nor, being on a listed node, the group. It gives up only if some call
      failed, a node is unknown, or it may not try to disassociate at all. */
  method Lifecycle(c: Neutron, batches: seq<seq<string>>, retries: nat, sg: string) returns (ok: bool)
    modifies c`ports, c`faults
    ensures ok ==> c.ports.Keys == old(c.ports.Keys)
    ensures ok ==> forall p :: p in c.ports ==>
              (SameGroupsAndTags(old(c.ports)[p], c.ports[p]) <==>
                 && sg !in old(c.ports)[p].tags
                 && (sg in old(c.ports)[p].groups ==> !EverListed(batches, c.servers, old(c.ports)[p].device)))
    ensures !ok ==> c.faults > old(c.faults) || retries == 0 || exists b, n :: b in batches && n in b && n !in c.servers
  {
    hide SameOtherwise, Applied, Taken, Tagged, EverListed;
    ghost var start := c.ports;
    SameItself(start, sg);
    NoneApplied(start, batches[..0], c.servers, sg);
    for i := 0 to |batches|
      invariant SameOtherwise(start, c.ports, sg) && Applied(start, c.ports, batches[..i], c.servers, sg) && c.faults == old(c.faults)
    {
      assert batches[i] in batches;
      ghost var before := c.ports;
      var e := ApplyNodeSecurityGroup(c, batches[i], sg);
      OtherwiseTwice(start, before, c.ports, sg);
      if !e.Ok? {
        return false;
      }
      SameDevices(before, c.ports, sg);
      AppliedNext(start, before, c.ports, batches, i, c.servers, sg);
    }
    assert batches[..|batches|] == batches;
    ghost var applied := c.ports;
    NoneTaken(applied, sg);
    for i := 0 to retries
      invariant SameOtherwise(start, c.ports, sg) && Taken(applied, c.ports, sg)
      invariant (i > 0 ==> c.faults > old(c.faults)) && c.faults >= old(c.faults)
    {
      ghost var before := c.ports;
      ok := DisassociateSecurityGroup(c, sg);
      OtherwiseTwice(start, before, c.ports, sg);
      TakenTwice(applied, before, c.ports, sg);
      if ok {
        Restored(start, applied, c.ports, batches, c.servers, sg);
        return;
      }
    }
    return false;
  }

  lemma NoneApplied(a: map<PortId, Port>, batches: seq<seq<string>>, servers: map<string, string>, sg: string)
    requires batches == []
    ensures Applied(a, a, batches, servers, sg)
  {
  }

  lemma Restored(a: map<PortId, Port>, m: map<PortId, Port>, b: map<PortId, Port>, batches: seq<seq<string>>,
                 servers: map<string, string>, sg: string)
    requires SameOtherwise(a, b, sg) && Applied(a, m, batches, servers, sg) && Taken(m, b, sg)
    requires forall p :: p in b ==> sg !in b[p].tags
    ensures a.Keys == b.Keys
    ensures forall p :: p in b ==>
              (SameGroupsAndTags(a[p], b[p]) <==>
                 sg !in a[p].tags && (sg in a[p].groups ==> !EverListed(batches, servers, a[p].device)))
  {
    hide EverListed;
    forall p | p in b
      ensures SameGroupsAndTags(a[p], b[p]) <==>
                sg !in a[p].tags && (sg in a[p].groups ==> !EverListed(batches, servers, a[p].device))
    {
      WithoutTheGroup(a[p], b[p], sg);
      assert sg in b[p].groups <==> sg in GroupSet(b[p]);
      assert sg in a[p].groups <==> sg in GroupSet(a[p]);
    }
  }

  lemma WithoutTheGroup(a: Port, b: Port, sg: string)
    requires GroupSet(b) - {sg} == GroupSet(a) - {sg} && b.tags - {sg} == a.tags - {sg}
    ensures sg !in a.groups && sg !in b.groups && sg !in a.tags && sg !in b.tags ==> SameGroupsAndTags(a, b)
  {
    if sg !in a.groups && sg !in b.groups && sg !in a.tags && sg !in b.tags {
      assert GroupSet(b) == GroupSet(b) - {sg} && GroupSet(a) == GroupSet(a) - {sg};
      assert b.tags == b.tags - {sg} && a.tags == a.tags - {sg};
    }
  }
}
