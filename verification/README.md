# Verification model of cloud-provider-openstack

Dafny models of the parts of cloud-provider-openstack that keep state in other systems, with
proofs of what they guarantee over whole calls and runs:

- **LBaaS reconciliation** (`Lb*.dfy`): EnsureLoadBalancer, UpdateLoadBalancer and the
  non-Octavia EnsureLoadBalancerDeleted on the graph of listeners, pools, members and monitors
  of one load balancer.
- **Security group tagging** (`SecurityGroups.dfy`).
- **Router routes** (`Routes.dfy`): table and allowed address pairs, with Go's slice aliasing.
- **Cinder provisioner** (`Provisioner.dfy`): the compensation ladder, and Delete.
- **Keystone authorizer and role sync** (`SortedStrings.dfy`, `Authorizer.dfy`, `RoleSync.dfy`).
- **Manila share option validator** (`Validator.dfy`, `Populate.dfy`).
- **AES-CBC** (`AesCbc.dfy`): section 6.2 of NIST SP 800-38A, padding of section 6.3 of RFC 5652.
- **Safe path walking and formatting** (`Paths.dfy`, `SafeOpen.dfy`, `SafeMakeDir.dfy`,
  `FormatAndMount.dfy`).

`Common.dfy` and `Strings.dfy` hold what they share. `dafny verify dfyconfig.toml` checks all of it.

## How the outside world is modelled

- Remote systems, the kernel and the host are classes. Any call may fail, without effect; a ghost
  counter `faults` counts failures the modelled state does not explain, so that a contract can say
  that an error is either such a failure or a named refusal.
- What the source iterates in map order, and what a listing returns, comes in an arbitrary order.
- The load-balancing API keeps (protocol, port) of listeners and (pool, address, port) of members
  unique, attaches a pool to one listener, names a pool's monitor in the pool, and deletes nothing
  but what it is asked to delete. Every mutation sends the load balancer from ACTIVE to a pending
  status. The X-Forwarded-For annotation is off.
- Before every system call the directory tree may be replaced by any other. Close releases the
  descriptor even when it reports an error.
- The block cipher is any keyed permutation of 16-byte blocks; regular expressions and JSON
  decoding are arbitrary functions.

## Where the code differs from what one might expect

- `popMember` keeps ranging over the original length while it shrinks the slice. It is safe exactly
  when no match sits among the last (matches - 1) elements, in particular with at most one match.
- The address-keyed diff of UpdateLoadBalancer is exact if and only if the pool's members had
  distinct addresses; a member that shares its address with another is hidden from the diff.
- EnsureLoadBalancer means to skip a node without address, but compares with an error that
  `nodeAddressForLB` does not return, so such a node fails the call. The model follows the code.
- DeleteRoute captures the router table after the in-place swap, so its unwind writes back the
  original only when the deleted entry equals the last one.
- Deleting a blackhole route also matches entries of the same CIDR with an empty next hop.
- The role sync finds no binding of a user whose id contains an underscore.
- Populate's result depends on the map order exactly when two fields share a name and disagree on
  its default.
- `Decrypt` indexes out of range for inputs shorter than two blocks and for a last byte larger than
  the text; the model has these as an outcome of their own.
- doSafeMakeDir hands mkdirat the whole path rather than the name, so an absolute path is resolved anew, links
  followed. Every path handed over is within the base, but the directory is made below the descriptor if and
  only if the parent path leads there at that moment.
- Provision's compensations are labels, not deferred calls, and some failures panic past them: a failed read
  while waiting for the volume, a claim that cannot be read or has no annotations, and a claim without storage
  class for an rbd volume. No compensation runs then. Delete panics on a volume that names a secret but no claim.

## Model

| member | source | states |
|---|---|---|
| LbCloud.Cloud.WaitActive | pkg/cloudprovider/providers/openstack/openstack_loadbalancer.go:378-406 | success means ACTIVE; giving up is always due to an ERROR status, a failed poll or too many polls |
| LbCloud.Cloud.WaitDeleted | pkg/cloudprovider/providers/openstack/openstack_loadbalancer.go:408-430 | success means the load balancer is gone |
| LbCloud.Cloud.Do | pkg/cloudprovider/providers/openstack/openstack_loadbalancer.go:1000-1026 | mutation plus wait: if entered ACTIVE with only ACTIVE mutations logged, that still holds after every outcome, and the status is ACTIVE again after success or "not found" |
| LbCloud.Cloud.PoolOfListener | pkg/cloudprovider/providers/openstack/openstack_loadbalancer.go:259-292 | the one pool that names the listener, or none, or several |
| LbCloud.RecordedSince | pkg/cloudprovider/providers/openstack/openstack_loadbalancer.go:951-1221 | what a call adds to the log leads, operation by operation, from the graph before the call to the graph after it |
| LbEnsure.ListenerForPort | pkg/cloudprovider/providers/openstack/openstack_loadbalancer.go:248-256 | a listed TCP listener on that port, and none only if there is none |
| LbPop.PopMember | pkg/cloudprovider/providers/openstack/openstack_loadbalancer.go:335-344 | indexes past the shrinking slice if and only if a match sits among the last (matches - 1) elements; otherwise exactly the matches go, as a multiset |
| LbPop.UniqueMatchIsTailFree | pkg/cloudprovider/providers/openstack/openstack_loadbalancer.go:335-344 | with at most one match popping is always in bounds |
| LbPop.DuplicateAtTheEndPanics | pkg/cloudprovider/providers/openstack/openstack_loadbalancer.go:335-344 | a concrete slice on which it is not |
| LbPop.KeepElements | pkg/cloudprovider/providers/openstack/openstack_loadbalancer.go:335-344 | what remains are exactly the elements that do not match, without new duplicates |
| LbPop.PopListener | pkg/cloudprovider/providers/openstack/openstack_loadbalancer.go:323-333 | only the first match goes, replaced by the last element |
| LbMembers.NodeAddressIsPreferred | pkg/cloudprovider/providers/openstack/openstack_loadbalancer.go:566-583 | the first internal address, else, without any internal one, the first external one; none only if there is neither |
| LbMembers.AddressesAreTheNodes | pkg/cloudprovider/providers/openstack/openstack_loadbalancer.go:566-583 | the addresses wanted are those of the nodes that have one, and nothing else |
| LbMembers.MemberExists | pkg/cloudprovider/providers/openstack/openstack_loadbalancer.go:313-321 | some listed member has that address and port |
| LbMembers.EnsureMember | pkg/cloudprovider/providers/openstack/openstack_loadbalancer.go:1083-1117 | one node keeps the diff invariant: the slice holds the listed members no node has claimed yet, and the pool what it held plus the wanted ones seen |
| LbMembers.ClaimMembers | pkg/cloudprovider/providers/openstack/openstack_loadbalancer.go:1083-1117 | after all nodes the slice is exactly existing minus desired; only missing members were created |
| LbMembers.DeleteMembers | pkg/cloudprovider/providers/openstack/openstack_loadbalancer.go:1120-1130 | deletes exactly the listed members that are not kept, each delete justified |
| LbMembers.EnsureMembers | pkg/cloudprovider/providers/openstack/openstack_loadbalancer.go:1079-1130 | on success the pool holds exactly (address(node), node port); on every outcome creates are within desired minus existing and deletes within existing minus desired; it fails only for a failed call, a node without address or two nodes with one address |
| LbMembers.NothingToDo | pkg/cloudprovider/providers/openstack/openstack_loadbalancer.go:1079-1130 | minimal operations on a pool that already holds what is wanted are no operations |
| LbUpdate.IndexByAddress | pkg/cloudprovider/providers/openstack/openstack_loadbalancer.go:1642-1645 | one listed member per listed address |
| LbUpdate.AddMembers | pkg/cloudprovider/providers/openstack/openstack_loadbalancer.go:1647-1666 | creates a member for exactly the wanted addresses the index does not have |
| LbUpdate.UpdateMembers | pkg/cloudprovider/providers/openstack/openstack_loadbalancer.go:1637-1683 | on success the pool holds exactly the wanted members if and only if its members had distinct addresses; operations are minimal on every outcome |
| LbUpdate.UpdateExact | pkg/cloudprovider/providers/openstack/openstack_loadbalancer.go:1637-1683 | the same equivalence for the three phases as graphs: a member hidden from the index survives |
| LbUpdate.HiddenIsNotWanted | pkg/cloudprovider/providers/openstack/openstack_loadbalancer.go:1637-1683 | the converse half: exactness afterwards forces distinct addresses before |
| LbUpdate.HiddenMemberExample | pkg/cloudprovider/providers/openstack/openstack_loadbalancer.go:1637-1683 | a pool with two members on one address, of which the hidden one is never deleted |
| LbUpdate.HoldsDistinct | pkg/cloudprovider/providers/openstack/openstack_loadbalancer.go:1637-1683 | holding one port's members re-establishes distinct addresses, so success of either diff does |
| LbUpdate.IndexListeners | pkg/cloudprovider/providers/openstack/openstack_loadbalancer.go:1588-1598 | the listener of every (protocol, port) |
| LbUpdate.IndexPools | pkg/cloudprovider/providers/openstack/openstack_loadbalancer.go:1600-1608 | the one pool of every listener, or which listener lacks one or has several |
| LbUpdate.AddressSet | pkg/cloudprovider/providers/openstack/openstack_loadbalancer.go:1610-1618 | the set of node addresses, unless some node has none |
| LbUpdate.UpdatePorts | pkg/cloudprovider/providers/openstack/openstack_loadbalancer.go:1620-1683 | each port's pool is updated, no other pool, listener or monitor changes |
| LbUpdate.UpdateLoadBalancer | pkg/cloudprovider/providers/openstack/openstack_loadbalancer.go:1551-1693 | the log keeps what was there and gains exactly the mutations that lead to the new graph; closed graph after every one and on return; mutations only while ACTIVE when entered ACTIVE; on success every port's pool is exact if and only if its addresses were distinct; every failure is a failed call or a named refusal |
| LbDelete.DeletePoolAndMembers | pkg/cloudprovider/providers/openstack/openstack_loadbalancer.go:1854-1882 | members, then the pool; nothing else changes |
| LbDelete.DeletePoolTree | pkg/cloudprovider/providers/openstack/openstack_loadbalancer.go:1166-1211 | monitor, members and pool of an obsolete listener |
| LbDelete.DeleteListenerTree | pkg/cloudprovider/providers/openstack/openstack_loadbalancer.go:1161-1221 | the listener and everything below it are gone, everything else is as before |
| LbDelete.CollectPools | pkg/cloudprovider/providers/openstack/openstack_loadbalancer.go:1825-1840 | all pools and all monitors below the listeners, given one pool each |
| LbDelete.DeleteMonitors | pkg/cloudprovider/providers/openstack/openstack_loadbalancer.go:1842-1852 | no monitor is left |
| LbDelete.DeletePools | pkg/cloudprovider/providers/openstack/openstack_loadbalancer.go:1854-1882 | no pool is left |
| LbDelete.DeleteListeners | pkg/cloudprovider/providers/openstack/openstack_loadbalancer.go:1884-1894 | no listener is left |
| LbDelete.EnsureLoadBalancerDeleted | pkg/cloudprovider/providers/openstack/openstack_loadbalancer.go:1776-1904 | the log keeps what was there and gains exactly the mutations that lead to the new graph; closed graph after every one and on every early return; mutations only while ACTIVE when entered ACTIVE; on success nothing is left; without a failed call it fails only if some listener has several pools |
| LbDelete.DownIsEmpty | pkg/cloudprovider/providers/openstack/openstack_loadbalancer.go:1896-1904 | a closed graph without load balancer has nothing at all |
| LbEnsure.EnsureListener | pkg/cloudprovider/providers/openstack/openstack_loadbalancer.go:951-1034 | finds or creates the listener, corrects its limit and claims it in the slice; no mutation when it is already right |
| LbEnsure.EnsurePool | pkg/cloudprovider/providers/openstack/openstack_loadbalancer.go:1035-1075 | the listener ends with exactly one pool; no mutation when it has one |
| LbEnsure.EnsureMonitor | pkg/cloudprovider/providers/openstack/openstack_loadbalancer.go:1132-1157 | a monitor if one is asked for; no mutation when there is one |
| LbEnsure.EnsureBackend | pkg/cloudprovider/providers/openstack/openstack_loadbalancer.go:1035-1157 | pool, members and monitor of one listener are as asked, nothing else is touched, nothing is mutated if they already were |
| LbEnsure.EnsurePort | pkg/cloudprovider/providers/openstack/openstack_loadbalancer.go:951-1157 | ports already handled stay handled; a port that is as it should be causes no mutation |
| LbEnsure.EnsurePorts | pkg/cloudprovider/providers/openstack/openstack_loadbalancer.go:951-1157 | after the loop every port is served and the slice holds exactly the listeners no port claimed |
| LbEnsure.DeleteObsolete | pkg/cloudprovider/providers/openstack/openstack_loadbalancer.go:1160-1221 | unclaimed listeners go, claimed ones keep their backends |
| LbEnsure.OnlyTcp | pkg/cloudprovider/providers/openstack/openstack_loadbalancer.go:890-895 | the protocol check |
| LbEnsure.AcquireLoadBalancer | pkg/cloudprovider/providers/openstack/openstack_loadbalancer.go:917-941 | an ACTIVE load balancer, created only if it was missing |
| LbEnsure.EnsureLoadBalancer | pkg/cloudprovider/providers/openstack/openstack_loadbalancer.go:839-1221 | the log keeps what was there and gains exactly the mutations that lead to the new graph; closed graph after every one and on every return; listener, pool, member and monitor mutations only while ACTIVE; on success there is one listener per service port and no other, with protocol TCP, that port and the configured connection limit, its one pool holds exactly the nodes' addresses at the node port, and has the configured monitor or none; from such a graph it mutates nothing; every failure is a failed call or a named refusal |
| LbEnsure.ConvergedSpelledOut | pkg/cloudprovider/providers/openstack/openstack_loadbalancer.go:951-1221 | what a converged graph is, in listener, pool, member and monitor attributes alone |
| LbRuns.ConvergedServes | pkg/cloudprovider/providers/openstack/openstack_loadbalancer.go:951-1221 | a converged graph serves every port with exactly the nodes, and its ports are distinct |
| LbRuns.OnePoolPerPort | pkg/cloudprovider/providers/openstack/openstack_loadbalancer.go:1586-1640 | a port is served by one pool only |
| LbRuns.UpdatedServes | pkg/cloudprovider/providers/openstack/openstack_loadbalancer.go:1610-1683 | from a state either call leaves behind, UpdateLoadBalancer is exact |
| LbRuns.ConvergedIsSteady | pkg/cloudprovider/providers/openstack/openstack_loadbalancer.go:951-1221 | after EnsureLoadBalancer every listener has one pool and every pool distinct addresses |
| LbRuns.UpdatedIsSteady | pkg/cloudprovider/providers/openstack/openstack_loadbalancer.go:1610-1683 | UpdateLoadBalancer keeps that |
| LbRuns.OneCall | pkg/cloudprovider/providers/openstack/openstack_loadbalancer.go:1079-1683 | one call of such a run, with its refusals |
| LbRuns.EnsureTwice | pkg/cloudprovider/providers/openstack/openstack_loadbalancer.go:951-1221 | after a first call succeeded, the second finds the log as the first left it and leaves it so, the graph is still the converged one, and the second fails only if some call to the service does |
| LbRuns.Run | pkg/cloudprovider/providers/openstack/openstack_loadbalancer.go:1079-1683 | any run of EnsureLoadBalancer and UpdateLoadBalancer calls that starts with the former and keeps succeeding leaves every pool with exactly the nodes of the latest call; the log gains exactly the mutations of the run, all while ACTIVE; it ends early only for a failed call to the service, a call refused for its arguments, or a listener that had several pools to begin with |
| LbRuns.PortServedSpelledOut | pkg/cloudprovider/providers/openstack/openstack_loadbalancer.go:1586-1640 | what it is for a service port to be served, in listener, pool and member attributes alone |
| SecurityGroups.ApplyToPort | pkg/cloudprovider/providers/openstack/openstack_loadbalancer.go:690-701 | group first, then tag; a failed tag is the only way to leave the group without it |
| SecurityGroups.ApplyToServer | pkg/cloudprovider/providers/openstack/openstack_loadbalancer.go:684-701 | every changed port has group and tag, except the one whose tagging failed |
| SecurityGroups.ApplyNodeSecurityGroup | pkg/cloudprovider/providers/openstack/openstack_loadbalancer.go:676-705 | "a port carries the group only if tagged" is kept on success, and broken by a failure exactly when it is the tagging of a port without tag; groups and tags other than this one never change |
| SecurityGroups.DisassociatePort | pkg/cloudprovider/providers/openstack/openstack_loadbalancer.go:717-735 | every outcome leaves a port that still has the group tagged |
| SecurityGroups.DisassociateSecurityGroup | pkg/cloudprovider/providers/openstack/openstack_loadbalancer.go:708-738 | every outcome keeps the invariant, so it can be rerun; success leaves no port with tag or group |
| SecurityGroups.Restored | pkg/cloudprovider/providers/openstack/openstack_loadbalancer.go:676-738 | a port has its own groups and tags back if and only if it did not have the tag before, nor, being on a listed node, the group |
| SecurityGroups.Lifecycle | pkg/cloudprovider/providers/openstack/openstack_loadbalancer.go:676-738 | any number of successful applications over any node lists, then disassociating until it succeeds, restores a port's groups and tags if and only if it did not have the tag before, nor, being on a listed node, the group; it gives up only for a failed call, an unknown node or no attempt allowed |
| Routes.FirstAddress | pkg/cloudprovider/providers/openstack/openstack.go:629-656 | the first address of a kind and family, no earlier one qualifying |
| Routes.PickAddress | pkg/cloudprovider/providers/openstack/openstack.go:629-656 | the first internal address of the wanted family, the first external one only where no internal address has it, and none exactly when there is neither or the family is disabled |
| Routes.NextHopSpelledOut | pkg/cloudprovider/providers/openstack/openstack_routes.go:156-160 | the next hop is an address of the node, of the CIDR's family, internal if it has such an internal one, the first of its kind, and none exactly without such an address |
| Routes.PortWithIp | pkg/cloudprovider/providers/openstack/openstack_routes.go:310-330 | the first interface with the address |
| Routes.PortForSpelledOut | pkg/cloudprovider/providers/openstack/openstack_routes.go:310-330 | the port is that of the node's first interface with the address |
| Routes.Append | pkg/cloudprovider/providers/openstack/openstack_routes.go:179-182 | appending never disturbs a slice of the old length over the old array, whatever the spare capacity |
| Routes.SwapDelete | pkg/cloudprovider/providers/openstack/openstack_routes.go:263-265 | the shortened slice has the element swapped away; the old-length slice over the same array shows the overwrite |
| Routes.RunUnwinder | pkg/cloudprovider/providers/openstack/openstack_routes.go:113-144 | one compensating update with what the captured slice shows now, and its effect |
| Routes.RunDeferred | pkg/cloudprovider/providers/openstack/openstack.go:354-364 | an armed caller sends the update of every unwinder, last deferred first, whether or not the others take effect, and a disarmed one sends nothing; the state is what those updates make of it |
| Routes.ExtendTable | pkg/cloudprovider/providers/openstack/openstack_routes.go:165-188 | sends the table with the route exactly if it lacks it; the captured slice still shows the old table |
| Routes.ShortenTable | pkg/cloudprovider/providers/openstack/openstack_routes.go:244-272 | sends the table without the first hit; the captured slice shows the old length with the hit overwritten |
| Routes.CreateRouteBody | pkg/cloudprovider/providers/openstack/openstack_routes.go:150-223 | what is changed, what has been sent and what is deferred at each return |
| Routes.CreateRoute | pkg/cloudprovider/providers/openstack/openstack_routes.go:150-223 | all or nothing: on failure pairs are as before, and either no update took effect or the last update sent is the compensation with the table as it was, so only a failing compensation leaves the new route over; on success past the skip check the table is the old one plus exactly the new route, whose next hop is an address of the node of the CIDR's family, and the port of that address has the pair; every failure is a failed call or a node without address or port |
| Routes.UnwoundIsOriginal | pkg/cloudprovider/providers/openstack/openstack_routes.go:103-124 | the table DeleteRoute writes back has the original length, the last entry at the deleted position and all others as they were, and is the original if and only if the deleted entry equals the last one |
| Routes.UnwindLosesRouteExample | pkg/cloudprovider/providers/openstack/openstack_routes.go:263-272 | deleting the first of two different routes and failing afterwards loses it |
| Routes.DeleteRouteBody | pkg/cloudprovider/providers/openstack/openstack_routes.go:226-308 | the captured "original" is the table after the in-place swap |
| Routes.DeleteRoute | pkg/cloudprovider/providers/openstack/openstack_routes.go:226-308 | success removes the first entry with the CIDR and, unless a blackhole, the node's address of the CIDR's family as next hop, and with it the pair; on failure either no update took effect, or the last update sent is the compensation, with the overwritten table instead of the original, and the table is that or, if it fails, the shortened one |
| Routes.FirstHit | pkg/cloudprovider/providers/openstack/openstack_routes.go:249-256 | the first entry with the CIDR and, for a blackhole, an empty or the given next hop |
| Routes.FirstHitMatches | pkg/cloudprovider/providers/openstack/openstack_routes.go:249-256 | the hit has the CIDR and the next hop looked for, or for a blackhole its name, and no earlier entry does |
| Routes.FindRoute | pkg/cloudprovider/providers/openstack/openstack_routes.go:249-256 | the loop finds that entry |
| Routes.FindPair | pkg/cloudprovider/providers/openstack/openstack_routes.go:284-291 | the loop finds the first pair of the CIDR |
| Routes.PairsAdded | pkg/cloudprovider/providers/openstack/openstack_routes.go:200-220 | the port's list gains the pair exactly if it had none of the CIDR; no other list changes |
| Routes.PairsRemoved | pkg/cloudprovider/providers/openstack/openstack_routes.go:284-303 | the port's list loses the first pair of the CIDR, if any; no other list changes |
| Routes.IndexAddresses | pkg/cloudprovider/providers/openstack/openstack_routes.go:62-77 | every server address is mapped to a server that has it |
| Routes.ListRoutes | pkg/cloudprovider/providers/openstack/openstack_routes.go:59-101 | one result per table entry, in order; a blackhole exactly if no server has the next hop |
| Routes.BlackholeDeletesItsEntry | pkg/cloudprovider/providers/openstack/openstack_routes.go:85-265 | deleting a listed blackhole removes one copy of just that entry, keeping the rest as a multiset, if and only if no earlier entry of the same CIDR has an empty next hop |
| Routes.ListThenDelete | pkg/cloudprovider/providers/openstack/openstack_routes.go:59-308 | listing, then deleting a listed blackhole: the table loses one copy of just that entry if and only if it was not masked |
| Routes.MaskedEntryExample | pkg/cloudprovider/providers/openstack/openstack_routes.go:249-256 | a table where another entry is removed |
| Routes.MultisetTells | pkg/cloudprovider/providers/openstack/openstack_routes.go:263-265 | swap-removing position i takes one copy of x away if and only if x is at i |
| Routes.LastHit | pkg/cloudprovider/providers/openstack/openstack_routes.go:170-265 | a route just appended is the one found, and removing it restores the table |
| Routes.PairTwice | pkg/cloudprovider/providers/openstack/openstack_routes.go:200-303 | adding then removing the pair restores the list if and only if it was not there |
| Routes.CreateThenDelete | pkg/cloudprovider/providers/openstack/openstack_routes.go:150-308 | create then delete restores table and pairs if and only if neither route nor pair was there before; it fails only for a failed call or a node without address or port |
| Provisioner.DeletedLast | pkg/volume/cinder/provisioner/provisioner.go:163-263 | a new volume whose last call is a successful delete leaves no trace |
| Provisioner.InverseUndoes | pkg/volume/cinder/provisioner/provisioner.go:238-262 | each compensation takes back what its step did to the volumes |
| Provisioner.UndoSpelledOut | pkg/volume/cinder/provisioner/provisioner.go:163-263 | the compensations due after each way the steps can end, listed |
| Provisioner.MapperSurvives | pkg/volume/cinder/provisioner/mapper.go:42-90 | Delete picks from the volume the mapper that built it and finds in it the very secret creation stored |
| Provisioner.SourceSpelledOut | pkg/volume/cinder/provisioner/rbd.go:52-72 | an rbd name is pool, first slash and image, with the storage class in the cephx secret; which connections cannot be built; an iSCSI volume names a secret exactly for CHAP |
| Provisioner.AnnotatedBy | pkg/volume/cinder/provisioner/provisioner.go:146-160 | the claim gets the volume's id, and the request it is a clone of exactly if it asked for one and the volume is one; its other annotations stay |
| Provisioner.Cloud.Poll | pkg/volume/cinder/volumeservice/actions.go:82-87 | available, timed out, or unread: a read that fails is no error but delivers no volume to ask for its status |
| Provisioner.Cloud.Annotate | pkg/volume/cinder/provisioner/clusterbroker.go:64-84 | written, update failed, claim unread, or no annotation map to write into; after a conflict all over again |
| Provisioner.Forward | pkg/volume/cinder/provisioner/provisioner.go:177-210 | the steps up to the attachment: a failure at step k jumps to the label whose rungs are exactly the inverses of the steps done, except that a failed read while waiting reaches no label |
| Provisioner.Ladder | pkg/volume/cinder/provisioner/provisioner.go:238-262 | from any label the compensations below it run, each once, past failures |
| Provisioner.Publish | pkg/volume/cinder/provisioner/provisioner.go:212-236 | mapper, secret, volume and claim annotation; on failure the claim is unchanged and the secret may stay only if the annotation failed; it panics if and only if reading the claim fails or, no call having failed, claim, annotations or storage class are missing |
| Provisioner.PanicsExactly | pkg/volume/cinder/provisioner/provisioner.go:163-263 | when a request panics although no call fails, as one condition on claim, annotations, driver and storage class |
| Provisioner.RefusedExactly | pkg/volume/cinder/provisioner/provisioner.go:163-236 | each refusal of a request whose calls all succeed, as a condition on request and connection |
| Provisioner.Provision | pkg/volume/cinder/provisioner/provisioner.go:163-263 | the compensations are exactly the inverses of the steps that succeeded, newest first, once each, whether or not they succeed, if and only if it does not panic; it panics if and only if a read fails or, no call having failed, claim, annotations or storage class are missing, and then no compensation runs and the volume stays; success leaves the volume, secret and claim annotations spelled out for the connection; on an error claims are unchanged, the first error is returned and compensations that succeed give back the volumes of before; every error is a failed call or a named refusal |
| Provisioner.LeavesTheVolume | pkg/volume/cinder/provisioner/provisioner.go:163-263 | what a panic leaves: the volume as created, or reserved, connected and attached |
| Provisioner.ClaimDeletedMeanwhile | pkg/volume/cinder/provisioner/clusterbroker.go:68-71 | a claim deleted while its volume was prepared: all five steps done, four to take back, none taken back, the volume left with all three marks |
| Provisioner.CreateIsUndoneLast | pkg/volume/cinder/provisioner/provisioner.go:238-262 | the last compensation deletes the volume |
| Provisioner.Compensated | pkg/volume/cinder/provisioner/provisioner.go:163-263 | successful compensations give back the volumes of before |
| Provisioner.Teardown | pkg/volume/cinder/provisioner/iscsi.go:84-94 | exactly the secret the volume names, in the bound claim's namespace, is gone afterwards unless a call failed |
| Provisioner.DeletePV | pkg/volume/cinder/provisioner/provisioner.go:267-320 | the named secret goes unless a call failed, then the inverse steps are issued in order up to the first failure, which is the one reported and a failed call or a missing volume; every earlier end is a named refusal, or a missing claim reference, and changes nothing |
| Provisioner.ProvisionThenDelete | pkg/volume/cinder/provisioner/provisioner.go:163-320 | both succeeding no volume is left, and if no call failed no secret either; it crashes exactly when Provision panics, leaving the volume; otherwise, without a failed call, it ends early only for one of Provision's refusals |
| AesCbc.DecryptInverts | pkg/kms/encryption/aescbc/aescbc.go:15-72 | CBC decryption inverts encryption on whole blocks |
| AesCbc.EncryptInverts | pkg/kms/encryption/aescbc/aescbc.go:15-72 | and encryption inverts decryption |
| AesCbc.EncryptedBlocks | pkg/kms/encryption/aescbc/aescbc.go:38-44 | each ciphertext block is the encryption of its plaintext block and the ciphertext block before, the IV before the first |
| AesCbc.DecryptedBlocks | pkg/kms/encryption/aescbc/aescbc.go:58-64 | each plaintext block is the decryption of its ciphertext block and the ciphertext block before |
| AesCbc.PadEnds | pkg/kms/encryption/aescbc/aescbc.go:26-31 | the last byte of a padded text says where the text ends; the padded length |
| AesCbc.PadSpelledOut | pkg/kms/encryption/aescbc/aescbc.go:26-31 | one to sixteen bytes of padding up to a whole block, each of them their number |
| AesCbc.RoundTrip | pkg/kms/encryption/aescbc/aescbc.go:15-72 | Decrypt(Encrypt(p)) = p for every plaintext, valid key and IV; the ciphertext has 16 * (len/16 + 2) bytes |
| AesCbc.PadBuffer | pkg/kms/encryption/aescbc/aescbc.go:26-31 | the buffer loop builds the padded text |
| AesCbc.DecryptInPlace | pkg/kms/encryption/aescbc/aescbc.go:63-64 | decrypting over the ciphertext buffer refines block-by-block decryption |
| AesCbc.Encrypt | pkg/kms/encryption/aescbc/aescbc.go:15-46 | succeeds exactly for keys of 16, 24 or 32 bytes and enough random bytes, and then is IV followed by the CBC encryption of the padded text |
| AesCbc.Decrypt | pkg/kms/encryption/aescbc/aescbc.go:49-72 | plaintext, error or index panic exactly as the value-level definition says, each with its condition on key, length and last byte; the plaintext is a slice of the overwritten input |
| AesCbc.EncryptThenDecrypt | pkg/kms/encryption/aescbc/aescbc.go:15-72 | the round trip on buffers |
| RoleSync.OwnedIsPrefixed | pkg/identity/keystone/sync.go:221-227 | the split test finds exactly the bindings with the user's prefix for an id without underscore, and none for any other id |
| RoleSync.NamesSpelledOut | pkg/identity/keystone/sync.go:221-287 | exact and untouched bindings in terms of names of the form user id, underscore, role |
| RoleSync.IsHeld | pkg/identity/keystone/sync.go:229-235 | the binding belongs to a role held |
| RoleSync.DeleteStale | pkg/identity/keystone/sync.go:220-244 | no owned binding without its role is left; nothing else is deleted |
| RoleSync.CreateMissing | pkg/identity/keystone/sync.go:246-284 | every role held is bound; existing bindings are not recreated |
| RoleSync.SyncRoleAssignments | pkg/identity/keystone/sync.go:212-287 | kept and foreign bindings are untouched on every outcome; on success every role has its binding under user id, underscore, role, a new one binding the user to that role, and the prefixed bindings are exactly those of the roles held if and only if the id has no underscore or nothing was stale; after the listing only owned stale bindings are deleted and missing ones created, so kept ones are never deleted or recreated; with nothing to do the listing is the only call; it fails only for a failed call or a role listed twice |
| RoleSync.NowExact | pkg/identity/keystone/sync.go:212-287 | the same equivalence on the states |
| RoleSync.SeparatorInIdExample | pkg/identity/keystone/sync.go:221-227 | a stale binding that is never found |
| RoleSync.SyncTwice | pkg/identity/keystone/sync.go:212-287 | after a first run succeeded, the calls of two runs are those of one run and a last listing, the bindings are those the first run left, and the second fails only if a call does |
| SortedStrings.SortStrings | pkg/identity/keystone/authorizer.go:43-50 | sorts in place: sorted, and a permutation |
| SortedStrings.SearchStrings | pkg/identity/keystone/authorizer.go:43-50 | binary search for the first element not below x |
| SortedStrings.FindString | pkg/identity/keystone/authorizer.go:43-50 | membership in the list as it was, although it is left sorted |
| Authorizer.MatchOne | pkg/identity/keystone/authorizer.go:224-298 | one match clause, by type, against the loaded values |
| Authorizer.AdmitsSpelledOut | pkg/identity/keystone/authorizer.go:224-298 | which users a clause of each type admits |
| Authorizer.MatchAll | pkg/identity/keystone/authorizer.go:224-298 | all clauses must admit the user |
| Authorizer.ResourceMatches | pkg/identity/keystone/authorizer.go:172-194 | the old policy form decides as its declarative reading |
| Authorizer.NonResourceMatches | pkg/identity/keystone/authorizer.go:196-222 | the same for paths |
| Authorizer.GetAllowed | pkg/identity/keystone/authorizer.go:53-103 | a definition permits exactly: everything, the value, a listed value, or anything but the listed ones |
| Authorizer.PermitsSpelledOut | pkg/identity/keystone/authorizer.go:53-103 | when a definition permits a value, character by character |
| Authorizer.QuotedSpelledOut | pkg/identity/keystone/authorizer.go:68-82 | quoting keeps the length and changes exactly the single quotes |
| Authorizer.TrimSpaceSpelledOut | pkg/identity/keystone/authorizer.go:126-128 | trimming takes away spaces at both ends, nothing else, and leaves none there |
| Authorizer.AllowedVerbs | pkg/identity/keystone/authorizer.go:111-120 | the verb asked for is allowed exactly if it or "*" is listed |
| Authorizer.EvaluateKey | pkg/identity/keystone/authorizer.go:111-146 | one permission key and its verbs |
| Authorizer.ResourcePermissionAllowed | pkg/identity/keystone/authorizer.go:105-149 | some key allows, whatever the order of keys |
| Authorizer.NonResourcePermissionAllowed | pkg/identity/keystone/authorizer.go:151-170 | some path allows, whatever the order of keys |
| Authorizer.InScope | pkg/identity/keystone/authorizer.go:305-345 | the user has all roles and all projects the policy names, or it names none |
| Authorizer.ScopeSpelledOut | pkg/identity/keystone/authorizer.go:305-345 | the user is in scope exactly if every role and project named is among theirs |
| Authorizer.EvaluatePolicy | pkg/identity/keystone/authorizer.go:301-373 | one policy decides as its declarative reading |
| Authorizer.PermissionsSpelledOut | pkg/identity/keystone/authorizer.go:105-170 | a policy with permissions allows exactly if some key has two parts that permit namespace and resource and lists the verb or "*"; for a path likewise |
| Authorizer.SpecsSpelledOut | pkg/identity/keystone/authorizer.go:172-222 | a policy without permissions allows exactly if its attributes equal or are "*", and all match clauses admit the user |
| Authorizer.Authorizer.Authorize | pkg/identity/keystone/authorizer.go:301-373 | the decision equals the declarative predicate on the policies as loaded, and the lists still agree with them afterwards |
| Authorizer.Authorizer.AuthorizeAll | pkg/identity/keystone/authorizer.go:301-373 | over any sequence of requests each decision is the one the request would get first |
| Authorizer.MorePolicies | pkg/identity/keystone/authorizer.go:301-373 | only the set of policies matters, and more of them never turn allow into deny |
| Authorizer.MoreMemberships | pkg/identity/keystone/authorizer.go:224-373 | more roles, projects or groups never turn allow into deny |
| Authorizer.PolicyAllowsMore | pkg/identity/keystone/authorizer.go:224-373 | the same for one policy |
| Validator.ValueExprRoundTrip | pkg/share/manila/shareoptions/validator/valueexpr.go:88-129 | parsing inverts rendering of every expressible value expression |
| Validator.ParsedIsRendered | pkg/share/manila/shareoptions/validator/valueexpr.go:88-129 | and accepts nothing but renderings |
| Validator.ValidValueTag | pkg/share/manila/shareoptions/validator/valueexpr.go:88-129 | the value tags accepted: "required", "optional", "default:" and a default, or "requiredIf:" or "optionalIf:" with another field, "=" and a pattern that compiles |
| Validator.DepsRoundTrip | pkg/share/manila/shareoptions/validator/dependsexpr.go:38-58 | parsing inverts rendering of every dependency expression over plain names |
| Validator.ValidNameTags | pkg/share/manila/shareoptions/validator/dependsexpr.go:38-58 | dependency and preclusion tags are accepted exactly if every name in them is a field |
| Validator.ParseDepsExpr | pkg/share/manila/shareoptions/validator/dependsexpr.go:38-58 | the nested loops compute that parse, or fail exactly on an unknown name |
| Validator.BuildValueExpressions | pkg/share/manila/shareoptions/validator/valueexpr.go:131-160 | succeeds exactly on valid tags and represents each |
| Validator.BuildDependencies | pkg/share/manila/shareoptions/validator/dependsexpr.go:60-76 | succeeds exactly on parseable tags and holds their parses |
| Validator.BuildPreclusions | pkg/share/manila/shareoptions/validator/precludesexpr.go:53-69 | the same for precludes |
| Validator.BuildPatterns | pkg/share/manila/shareoptions/validator/matchexpr.go:33-43 | the same for matches |
| Validator.New | pkg/share/manila/shareoptions/validator/validator.go:61-75 | succeeds exactly if all tags are valid, and then represents all of them |
| Validator.CompiledInRange | pkg/share/manila/shareoptions/validator/validator.go:61-75 | all compiled indices are fields |
| Populate.FillDefaults | pkg/share/manila/shareoptions/validator/validator.go:85-92 | the data is what the loop makes of it in some order of the defaults: absent names get one of their defaults, nothing else changes |
| Populate.OrderExtends | pkg/share/manila/shareoptions/validator/validator.go:85-92 | in every order the loop extends the data |
| Populate.ExtensionReached | pkg/share/manila/shareoptions/validator/validator.go:85-92 | and every extension is what the loop makes in some order |
| Populate.FillValues | pkg/share/manila/shareoptions/validator/validator.go:94-114 | succeeds exactly if every field has a non-empty value or needs none, and then every field has its value |
| Populate.CountsToOne | pkg/share/manila/shareoptions/validator/dependsexpr.go:93-108 | exactly one of the group is set, although the count stops early |
| Populate.DependenciesSatisfied | pkg/share/manila/shareoptions/validator/dependsexpr.go:91-110 | every group has exactly one set |
| Populate.CheckDependencies | pkg/share/manila/shareoptions/validator/validator.go:116-124 | all dependencies of set fields, in any order |
| Populate.PreclusionsSatisfied | pkg/share/manila/shareoptions/validator/precludesexpr.go:71-79 | none of the precluded is set |
| Populate.CheckPreclusions | pkg/share/manila/shareoptions/validator/validator.go:126-134 | all preclusions of set fields, in any order |
| Populate.CheckPatterns | pkg/share/manila/shareoptions/validator/validator.go:136-144 | all patterns of set fields, in any order |
| Populate.PopulateStruct | pkg/share/manila/shareoptions/validator/validator.go:78-147 | whatever the iteration orders, succeeds if and only if the extended data is accepted, and then each field equals it |
| Populate.RequiresAsSaid | pkg/share/manila/shareoptions/validator/valueexpr.go:162-187 | the compiled requirement is the one the tag states |
| Populate.DefaultTag | pkg/share/manila/shareoptions/validator/valueexpr.go:88-129 | a field has a default exactly if its tag is "default:" and the default |
| Populate.MissingSpelledOut | pkg/share/manila/shareoptions/validator/valueexpr.go:162-187 | a field may be missing exactly if its tag is "optional", or "requiredIf:" with a condition that is not met, or "optionalIf:" with one that is |
| Populate.AcceptsDocumented | pkg/share/manila/shareoptions/validator/validator.go:78-147 | on a zeroed struct acceptance is exactly the documented meaning of the tags |
| Populate.ExtensionUnique | pkg/share/manila/shareoptions/validator/validator.go:85-92 | all orders of the loop give the same data, for all data, if and only if fields that share a name agree on its default |
| Populate.TwoOrders | pkg/share/manila/shareoptions/validator/validator.go:85-92 | otherwise there are two orders in which the loop gives different data |
| Populate.ExtensionByTags | pkg/share/manila/shareoptions/validator/validator.go:85-92 | the extension stated by tags and names alone |
| Populate.Validate | pkg/share/manila/shareoptions/validator/validator.go:61-147 | New and Populate on a fresh struct: success if and only if the documented predicate holds of the extended data, and every field has its value |
| Paths.RelRejoins | pkg/util/mount/mount_linux.go:1166-1203 | within the base the relative path leads back to the target |
| Paths.RelSpelledOut | pkg/util/mount/mount_linux.go:1166-1185 | within the base the relative path is what follows the base, or a dot if nothing does |
| Paths.NameAndParentCancel | pkg/util/mount/mount_linux.go:1210-1211 | a name and the parent step behind it cancel, anywhere in the path |
| Paths.DotsDrop | pkg/util/mount/mount_linux.go:1210-1211 | empty and dot segments do not count |
| Paths.RootIsItsParent | pkg/util/mount/mount_linux.go:1210-1211 | there is nothing above the root |
| Paths.NamesStay | pkg/util/mount/mount_linux.go:1210-1211 | names, behind parent steps if the path is relative, stay as they are |
| Paths.JoinAppends | pkg/util/mount/mount_linux.go:1248-1248 | joining a name puts it behind the cleaned path |
| Paths.BackstepsComeFirst | pkg/util/mount/mount.go:356-372 | a relative path with a parent segment anywhere starts with one |
| Paths.WithinIsExtends | pkg/util/mount/mount.go:356-372 | the base test holds if and only if the base's cleaned segments start the path's and no parent step follows |
| Paths.StaysWithin | pkg/util/mount/mount.go:356-372 | going on without parent steps stays within |
| Paths.NoStepUp | pkg/util/mount/mount_linux.go:1247-1251 | a walk whose first step passes the base test has no parent step |
| Paths.TestedAlongTheWay | pkg/util/mount/mount_linux.go:1247-1251 | testing every step amounts to testing the target |
| SafeOpen.FollowSegment | pkg/util/mount/mount_linux.go:1247-1276 | the parent descriptor is exchanged for the child's, or the two are left to the deferred closes; without a fault a refused step was missing, a link, or outside |
| SafeOpen.FollowAll | pkg/util/mount/mount_linux.go:1243-1276 | all segments were followed by one walk, or where it stopped |
| SafeOpen.DoSafeOpen | pkg/util/mount/mount_linux.go:1209-1283 | under arbitrary tree changes between calls, the descriptor returned names the end of a walk from the base: one entry per segment, each of its predecessor when opened, none a link, none a parent step; the target is within the base; on failure no descriptor is kept, and without a fault something on the way was missing or a link |
| SafeMakeDir.Probe | pkg/util/mount/mount_linux.go:1186-1201 | follows names until one leads nowhere, exchanging descriptors |
| SafeMakeDir.FindExistingPrefix | pkg/util/mount/mount_linux.go:1166-1203 | the prefix was reached name by name, the first remaining name led nowhere when tried, both rejoin to the path (within the base), and no descriptor is kept on any return |
| SafeMakeDir.AllBelowWithin | pkg/util/mount/mount_linux.go:1113-1119 | every path handed to mkdirat below a path within the base is within it |
| SafeMakeDir.PathsBelowSpelledOut | pkg/util/mount/mount_linux.go:1113-1114 | the i-th path handed over is the existing one with the first i + 1 remaining names |
| SafeMakeDir.MadeInPlace | pkg/util/mount/mount_linux.go:1113-1119 | a directory is made in the directory of the descriptor if and only if its parent path, links followed, led there at that moment |
| SafeMakeDir.MadeElsewhereExample | pkg/util/mount/mount_linux.go:1113-1119 | two trees between which a parent becomes a link: the path is within the base, the directory is made elsewhere |
| SafeMakeDir.MakeOne | pkg/util/mount/mount_linux.go:1113-1137 | what is entered is an entry of the parent and no link |
| SafeMakeDir.MakeAll | pkg/util/mount/mount_linux.go:1110-1138 | hands over exactly the remaining paths, outermost first, each with the descriptor of the walk's directory at that point, extending the walk; each directory is made where its path leads at that moment |
| SafeMakeDir.DoSafeMakeDir | pkg/util/mount/mount_linux.go:1057-1162 | no descriptor is kept on any return; every path handed to mkdirat is within the base, and every directory is made where its path leads at that moment; on success the mode is set on the end of a link-free walk from the base through the resolved prefix and the names made, each handed over with the descriptor of the walk's directory |
| FormatAndMount.TellsOnce | pkg/util/mount/mount_linux.go:533-552 | what the output says about a key is determined |
| FormatAndMount.ParseLines | pkg/util/mount/mount_linux.go:535-552 | fails exactly on a non-empty line without exactly one "="; otherwise the last TYPE and PTTYPE lines |
| FormatAndMount.GetDiskFormat | pkg/util/mount/mount_linux.go:512-562 | one blkid call, and the verdict its outcome determines |
| FormatAndMount.EmptyIsUnformatted | pkg/util/mount/mount_linux.go:512-562 | the answer is empty if and only if blkid exited with 2 or its output leaves both values empty |
| FormatAndMount.IsReadOnly | pkg/util/mount/mount_linux.go:428-434 | "ro" is among the options |
| FormatAndMount.FormatAndRetry | pkg/util/mount/mount_linux.go:461-507 | one look at the disk; mkfs exactly if it is unformatted and writable, and a second mount exactly if mkfs worked |
| FormatAndMount.FormatAndMount | pkg/util/mount/mount_linux.go:427-509 | the whole command sequence, with mkfs for ext4 by default and its arguments: mkfs runs if and only if the first mount failed, no option is "ro" and the disk is unformatted; success exactly if the last command is a mount that worked |
| FormatAndMount.FormatsOnlyWhenDue | pkg/util/mount/mount_linux.go:427-509 | mkfs runs at most once, right after the failed mount and the look at the disk |

## Left out

- Octavia's cascading delete, floating IPs, subnet and network selection, load balancer names: single calls and option choices.
- Security group rules of a service (ensureSecurityGroup, updateSecurityGroup): creation of rules from annotations.
- The checks of EnsureLoadBalancer on source ranges, session affinity and annotations: they end the call before anything is touched.
- Listener, pool and monitor attributes other than protocol, port, connection limit and ownership.
- Load balancers that share pools, or several load balancers: one load balancer's graph is modelled.
- getCreateOptions of the provisioner: its result is a parameter.
- Reading policies, requests and Keystone data; node-name folding to lower case.
- The order of set listings and of policy reports, which no decision depends on.
- Permission bits of doSafeMakeDir, the other mount helpers, and the namespace-entering mounter.
- Backoff timing, locks, metrics and logging.
- Ingress controller, CSI drivers, flexvolume, KMS server plumbing, Manila API calls: check-then-call code.
- Authorizer.Authorizer.Authorize: only for policies whose resource spec, if any, has a `version` and a `namespace`; the code dereferences both and the policy file is not checked for them.
- SafeMakeDir.DoSafeMakeDir: resolving links returns an arbitrary path, so only its test against the base is used.
