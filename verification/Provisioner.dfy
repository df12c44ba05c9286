/** The standalone Cinder provisioner: create, reserve, connect and attach a volume, with a
    ladder of compensations for every point at which that can fail. */
module Provisioner {
  import opened Common

  type VolId = nat

  datatype Mark = Reserved | Connected | Attached
  datatype Step = Create | Wait | Reserve | Connect | Attach | Detach | Disconnect | Unreserve | Delete
  datatype Call = Call(step: Step, vol: VolId, ok: bool)

  /** Annotation values: texts and volume ids. */
  datatype Value = Text(text: string) | Volume(id: VolId)

  datatype Connection = Connection(driver: string, authMethod: string, hosts: seq<string>, ports: seq<string>, name: string)
  datatype Claim = Claim(ns: string, name: string, annotations: map<string, Value>, storageClass: Option<string>)
  /** `source` is the outcome of reading the storage class parameters: the volume to clone,
      or the empty string, or `None` for an invalid option. */
  datatype Options = Options(pvName: string, claim: Claim, selector: bool, source: Option<string>)
  datatype Source = Iscsi(chap: bool, secretRef: Option<string>) | Rbd(pool: string, image: string, cephxSecret: string) | OtherSource
  datatype PV = PV(name: string, ns: string, annotations: map<string, Value>, source: Source, claimRef: Option<string>)
  datatype Mapper = IscsiMapper | RbdMapper

  datatype Error = Selector | BadOptions | StepFailed(step: Step) | NoMapper | AuthFailed | BuildFailed | AnnotateFailed
  /** Where Provision panics: reading the volume it waits for, or the claim it annotates, when
      the read fails; writing into a claim's missing annotation map; and dereferencing a
      missing storage class name. */
  datatype Place = AtVolumeRead | AtClaimRead | AtAnnotations | AtStorageClass
  datatype Result = Ok(pv: PV) | Err(error: Error) | Panicked(at: Place)

  const PROVISIONER_ID_ANN := "standaloneCinderProvisionerIdentity"
  const VOLUME_ID_ANN := "cinderVolumeId"
  const CLONE_REQUEST_ANN := "k8s.io/CloneRequest"
  const CLONE_OF_ANN := "k8s.io/CloneOf"

  /** The forward steps, and the compensations of all of them, newest first. */
  const FORWARD := [Create, Wait, Reserve, Connect, Attach]
  const BACKWARD := [Detach, Disconnect, Unreserve, Delete]

  const POLLS := 20
  const RETRIES := 5

  function Inverse(s: Step): Option<Step> {
    match s
    case Create => Some(Delete)
    case Reserve => Some(Unreserve)
    case Connect => Some(Disconnect)
    case Attach => Some(Detach)
    case _ => None
  }

  /** What must be called to take back the calls that succeeded, newest first. */
  function Undo(calls: seq<Call>): seq<Step> {
    if calls == [] then []
    else
      var last := calls[|calls| - 1];
      var rest := Undo(calls[..|calls| - 1]);
      if last.ok && Inverse(last.step).Some? then [Inverse(last.step).value] + rest else rest
  }

  function Steps(calls: seq<Call>): (r: seq<Step>)
    ensures |r| == |calls| && forall i :: 0 <= i < |r| ==> r[i] == calls[i].step
  {
    if calls == [] then [] else [calls[0].step] + Steps(calls[1..])
  }

  ghost predicate AllOk(calls: seq<Call>) {
    forall i :: 0 <= i < |calls| ==> calls[i].ok
  }

  ghost predicate AllOn(calls: seq<Call>, v: VolId) {
    forall i :: 0 <= i < |calls| ==> calls[i].vol == v
  }

  /** Forward calls on one volume, in order, each but the last successful. */
  ghost predicate ForwardRun(calls: seq<Call>, v: VolId) {
    && AllOn(calls, v) && Steps(calls) <= FORWARD
    && forall i :: 0 <= i < |calls| - 1 ==> calls[i].ok
  }

  /** The tail of the ladder that takes back the first `k` forward steps. */
  function Rungs(k: nat): seq<Step> {
    if k >= 5 then BACKWARD
    else if k == 4 then BACKWARD[1..]
    else if k == 3 then BACKWARD[2..]
    else if k >= 1 then BACKWARD[3..]
    else []
  }

  /** How many forward steps a jump has behind it. */
  function Behind(jump: Label): nat {
    match jump
    case Done => 5
    case ToDetach => 5
    case ToDisconnect => 4
    case ToUnreserve => 3
    case ToDelete => 2
    case Lost => 2
    case ToError => 0
  }

  /** The volumes after a call; a failed call has no effect. */
  function Effect(volumes: map<VolId, set<Mark>>, c: Call): map<VolId, set<Mark>> {
    if !c.ok then volumes
    else if c.step == Create then volumes[c.vol := {}]
    else if c.vol !in volumes then volumes
    else
      match c.step
      case Reserve => volumes[c.vol := volumes[c.vol] + {Reserved}]
      case Connect => volumes[c.vol := volumes[c.vol] + {Connected}]
      case Attach => volumes[c.vol := volumes[c.vol] + {Attached}]
      case Detach => volumes[c.vol := volumes[c.vol] - {Attached}]
      case Disconnect => volumes[c.vol := volumes[c.vol] - {Connected}]
      case Unreserve => volumes[c.vol := volumes[c.vol] - {Reserved}]
      case Delete => volumes - {c.vol}
      case _ => volumes
  }

  function Replay(volumes: map<VolId, set<Mark>>, calls: seq<Call>): map<VolId, set<Mark>> {
    if calls == [] then volumes else Effect(Replay(volumes, calls[..|calls| - 1]), calls[|calls| - 1])
  }

  lemma {:induction false} ReplayAppend(volumes: map<VolId, set<Mark>>, a: seq<Call>, b: seq<Call>)
    ensures Replay(volumes, a + b) == Replay(Replay(volumes, a), b)
  {
    if b == [] {
      assert a + b == a;
    } else {
      ReplayAppend(volumes, a, b[..|b| - 1]);
      assert (a + b)[..|a + b| - 1] == a + b[..|b| - 1];
    }
  }

  /** Calls on one volume leave every other volume alone. */
  lemma {:induction false} ReplayElsewhere(volumes: map<VolId, set<Mark>>, calls: seq<Call>, v: VolId)
    requires AllOn(calls, v)
    ensures Replay(volumes, calls) - {v} == volumes - {v}
  {
    if calls != [] {
      ReplayElsewhere(volumes, calls[..|calls| - 1], v);
    }
  }

  /** A volume that did not exist, whatever was done to it, is gone once the last call is a
      successful delete: the volumes are those of before. */
  lemma DeletedLast(volumes: map<VolId, set<Mark>>, calls: seq<Call>, v: VolId)
    requires v !in volumes && AllOn(calls, v) && calls != []
    requires calls[|calls| - 1].step == Delete && calls[|calls| - 1].ok
    ensures Replay(volumes, calls) == volumes
  {
    var front := calls[..|calls| - 1];
    ReplayElsewhere(volumes, front, v);
    assert v !in volumes ==> volumes - {v} == volumes;
    assert Replay(volumes, calls) == Replay(volumes, front) - {v};
  }

  // ---- the services ----

  datatype Polled = Available | TimedOut | VolumeUnread
  datatype Annotated = Written | UpdateFailed | ClaimUnread | NoAnnotations

  /** `claims` has the annotations of every claim, if it has an annotation map at all. Calls
      that fail count as `faults`, reads that fail as `failedReads`. */
  class Cloud {
    var volumes: map<VolId, set<Mark>>
    var next: VolId
    /** What connecting a volume answers. */
    var connection: Connection
    var secrets: set<(string, string)>
    var claims: map<(string, string), Option<map<string, Value>>>
    ghost var log: seq<Call>
    ghost var faults: nat
    ghost var failedReads: nat

    ghost predicate Valid() reads this {
      forall v :: v in volumes ==> v < next
    }

    method CreateVolume() returns (ok: bool, v: VolId)
      requires Valid()
      modifies this`volumes, this`next, this`log, this`faults
      ensures Valid() && v == old(next) && v !in old(volumes)
      ensures log == old(log) + [Call(Create, v, ok)] && volumes == Effect(old(volumes), Call(Create, v, ok))
      ensures ok ==> v in volumes
      ensures if ok then faults == old(faults) else faults > old(faults)
    {
      ok, v := *, next;
      log := log + [Call(Create, v, ok)];
      next := next + 1;
      if ok {
        volumes := volumes[v := {}];
      } else {
        faults := faults + 1;
      }
    }

    method Do(step: Step, v: VolId) returns (ok: bool)
      requires Valid() && step != Create
      modifies this`volumes, this`log, this`faults
      ensures Valid()
      ensures log == old(log) + [Call(step, v, ok)] && volumes == Effect(old(volumes), Call(step, v, ok))
      ensures if ok then faults == old(faults) else faults > old(faults) || v !in old(volumes)
      ensures faults >= old(faults)
    {
      ok := *;
      if !ok {
        faults := faults + 1;
      }
      ok := ok && v in volumes;
      log := log + [Call(step, v, ok)];
      volumes := Effect(volumes, Call(step, v, ok));
    }

    method CreateSecret(ns: string, name: string) returns (ok: bool)
      modifies this`secrets, this`faults
      ensures ok ==> (ns, name) !in old(secrets) && secrets == old(secrets) + {(ns, name)} && faults == old(faults)
      ensures !ok ==> secrets == old(secrets) && (faults > old(faults) || (ns, name) in secrets)
      ensures faults >= old(faults)
    {
      ok := *;
      if !ok {
        faults := faults + 1;
        return;
      }
      ok := (ns, name) !in secrets;
      if ok {
        secrets := secrets + {(ns, name)};
      }
    }

    method DeleteSecret(ns: string, name: string) returns (ok: bool)
      modifies this`secrets, this`faults
      ensures ok ==> (ns, name) in old(secrets) && secrets == old(secrets) - {(ns, name)} && faults == old(faults)
      ensures !ok ==> secrets == old(secrets) && (faults > old(faults) || (ns, name) !in secrets)
      ensures faults >= old(faults)
    {
      ok := *;
      if !ok {
        faults := faults + 1;
        return;
      }
      ok := (ns, name) in secrets;
      if ok {
        secrets := secrets - {(ns, name)};
      }
    }

    /** Polls until the volume is available. A read that fails is not an error here: it
        delivers no volume, and its status is asked for all the same. */
    method Poll(v: VolId) returns (r: Polled)
      requires Valid()
      modifies this`log, this`faults, this`failedReads
      ensures Valid() && log == old(log) + [Call(Wait, v, r.Available?)]
      ensures r.Available? ==> v in volumes && faults == old(faults) && failedReads == old(failedReads)
      ensures r.TimedOut? ==> faults > old(faults) && failedReads == old(failedReads)
      ensures r.VolumeUnread? ==> faults == old(faults) && (failedReads > old(failedReads) || (failedReads == old(failedReads) && v !in volumes))
    {
      r := TimedOut;
      for i := 0 to POLLS
        invariant r.TimedOut? && faults == old(faults) && failedReads == old(failedReads) && log == old(log)
      {
        var answered, available: bool := *, *;
        if !answered {
          failedReads := failedReads + 1;
        }
        if !answered || v !in volumes || available {
          r := if answered && v in volumes then Available else VolumeUnread;
          break;
        }
      }
      if r.TimedOut? {
        faults := faults + 1;
      }
      log := log + [Call(Wait, v, r.Available?)];
    }

    /** Reads the claim and writes it back with the updates, again after a conflict. */
    method Annotate(ns: string, name: string, updates: map<string, Value>) returns (r: Annotated)
      modifies this`claims, this`faults, this`failedReads
      ensures r.Written? ==>
                && (ns, name) in old(claims) && old(claims)[(ns, name)].Some?
                && claims == old(claims)[(ns, name) := Some(old(claims)[(ns, name)].value + updates)]
                && faults == old(faults) && failedReads == old(failedReads)
      ensures !r.Written? ==> claims == old(claims)
      ensures r.UpdateFailed? ==> faults > old(faults) && failedReads == old(failedReads)
      ensures r.ClaimUnread? ==>
                faults == old(faults) && (failedReads > old(failedReads) || (failedReads == old(failedReads) && (ns, name) !in claims))
      ensures r.NoAnnotations? ==>
                faults == old(faults) && failedReads == old(failedReads) && (ns, name) in claims && claims[(ns, name)].None?
      ensures !r.ClaimUnread? ==> (ns, name) in old(claims)
      ensures r.Written? || r.UpdateFailed? ==> old(claims)[(ns, name)].Some?
    {
      for i := 0 to RETRIES
        invariant claims == old(claims) && faults == old(faults) && failedReads == old(failedReads)
        invariant i > 0 ==> (ns, name) in claims && claims[(ns, name)].Some?
      {
        var answered, updated, conflict: bool := *, *, *;
        if !answered {
          failedReads := failedReads + 1;
          return ClaimUnread;
        }
        if (ns, name) !in claims {
          return ClaimUnread;
        }
        if claims[(ns, name)].None? {
          return NoAnnotations;
        }
        if updated {
          claims := claims[(ns, name) := Some(claims[(ns, name)].value + updates)];
          return Written;
        }
        if !conflict {
          break;
        }
      }
      faults := faults + 1;
      return UpdateFailed;
    }
  }

  // ---- mapping connections to persistent volumes ----

  function MapperFromConnection(conn: Connection): Option<Mapper> {
    if conn.driver == "iscsi" then Some(IscsiMapper)
    else if conn.driver == "rbd" then Some(RbdMapper)
    else None
  }

  function MapperFromPV(pv: PV): Option<Mapper> {
    match pv.source
    case Iscsi(_, _) => Some(IscsiMapper)
    case Rbd(_, _, _) => Some(RbdMapper)
    case OtherSource => None
  }

  /** `getChapSecretName`: empty when no secret is needed. */
  function ChapSecretName(conn: Connection, opts: Options): string {
    if conn.authMethod == "CHAP" then opts.pvName + "-secret" else ""
  }

  function FirstSlash(s: string): (r: Option<nat>)
    ensures r.Some? ==> r.value < |s| && s[r.value] == '/' && '/' !in s[..r.value]
    ensures r.None? ==> '/' !in s
  {
    if s == "" then None
    else if s[0] == '/' then Some(0)
    else
      var r := FirstSlash(s[1..]);
      if r.None? then None
      else
        assert s[..r.value + 1] == [s[0]] + s[1..][..r.value];
        Some(r.value + 1)
  }

  datatype Building = Built(source: Source) | Unbuildable | NoStorageClass

  function BuildSource(m: Mapper, conn: Connection, opts: Options): Building {
    match m
    case IscsiMapper =>
      var name := ChapSecretName(conn, opts);
      if name != "" then Built(Iscsi(true, Some(name))) else Built(Iscsi(false, None))
    case RbdMapper =>
      if |conn.hosts| != |conn.ports| then Unbuildable
      else
        var i := FirstSlash(conn.name);
        if i.None? then Unbuildable
        else if opts.claim.storageClass.None? then NoStorageClass
        else Built(Rbd(conn.name[..i.value], conn.name[i.value + 1..], opts.claim.storageClass.value + "-cephx-secret"))
  }

  function BuildPV(m: Mapper, identity: string, opts: Options, conn: Connection, vol: VolId): Option<PV> {
    var b := BuildSource(m, conn, opts);
    if !b.Built? then None
    else Some(PV(opts.pvName, opts.claim.ns,
                 map[PROVISIONER_ID_ANN := Text(identity), VOLUME_ID_ANN := Volume(vol)], b.source, None))
  }

  /** What is built, spelled out. An rbd name is split at its first slash. */
  lemma SourceSpelledOut(conn: Connection, opts: Options)
    ensures BuildSource(IscsiMapper, conn, opts) ==
              Built(if conn.authMethod == "CHAP" then Iscsi(true, Some(opts.pvName + "-secret")) else Iscsi(false, None))
    ensures var b := BuildSource(RbdMapper, conn, opts);
            && (b.Unbuildable? <==> |conn.hosts| != |conn.ports| || '/' !in conn.name)
            && (b.NoStorageClass? <==> |conn.hosts| == |conn.ports| && '/' in conn.name && opts.claim.storageClass.None?)
            && (b.Built? ==>
                  && opts.claim.storageClass.Some? && b.source.Rbd?
                  && b.source.pool + "/" + b.source.image == conn.name && '/' !in b.source.pool
                  && b.source.cephxSecret == opts.claim.storageClass.value + "-cephx-secret")
  {
    assert |opts.pvName + "-secret"| > 0;
    var i := FirstSlash(conn.name);
    if i.Some? {
      assert conn.name == conn.name[..i.value] + "/" + conn.name[i.value + 1..];
    }
  }

  /** Deletion picks the mapper from the volume that creation built with it, and finds in
      it the very secret that creation stored. */
  lemma MapperSurvives(m: Mapper, identity: string, opts: Options, conn: Connection, vol: VolId)
    requires BuildPV(m, identity, opts, conn, vol).Some?
    ensures var pv := BuildPV(m, identity, opts, conn, vol).value;
            && MapperFromPV(pv) == Some(m)
            && pv.annotations[PROVISIONER_ID_ANN] == Text(identity) && pv.annotations[VOLUME_ID_ANN] == Volume(vol)
            && (m.IscsiMapper? ==> pv.source.secretRef == if conn.authMethod == "CHAP" then Some(ChapSecretName(conn, opts)) else None)
  {
    assert PROVISIONER_ID_ANN[0] != VOLUME_ID_ANN[0];
    assert |ChapSecretName(conn, opts)| > 0 <==> conn.authMethod == "CHAP";
  }

  // ---- Provision ----

  /** `Lost` is no label: a panic leaves the function past all of them. */
  datatype Label = Done | Lost | ToError | ToDelete | ToUnreserve | ToDisconnect | ToDetach

  /** What holds after the forward calls `run` on volume `v`. */
  ghost predicate Went(c: Cloud, log0: seq<Call>, volumes0: map<VolId, set<Mark>>, run: seq<Call>, v: VolId)
    reads c
  {
    c.Valid() && c.log == log0 + run && c.volumes == Replay(volumes0, run) && ForwardRun(run, v)
  }

  method Advance(c: Cloud, step: Step, v: VolId, ghost log0: seq<Call>, ghost volumes0: map<VolId, set<Mark>>, ghost run: seq<Call>)
      returns (ok: bool, ghost more: seq<Call>)
    requires Went(c, log0, volumes0, run, v) && AllOk(run) && 0 < |run| < |FORWARD| && step == FORWARD[|run|]
    requires Undo(run) == Rungs(|run|) && v in c.volumes
    modifies c`volumes, c`log, c`faults
    ensures Went(c, log0, volumes0, more, v) && |more| == |run| + 1 && more[|run|] == Call(step, v, ok) && v in c.volumes
    ensures AllOk(more) <==> ok
    ensures Undo(more) == Rungs(if ok then |more| else |run|)
    ensures if ok then c.faults == old(c.faults) else c.faults > old(c.faults)
  {
    ok := c.Do(step, v);
    more := run + [Call(step, v, ok)];
    RunExtend(volumes0, run, Call(step, v, ok));
  }

  /** How the steps up to the attachment ended: all done, lost in a panic while waiting, or at
      the label that takes back exactly what was done. */
  ghost predicate Ended(jump: Label, error: Error, run: seq<Call>, faulty: bool, unread: bool) {
    && Undo(run) == Rungs(Behind(jump)) && run != []
    && (jump.Done? ==> AllOk(run) && |run| == |FORWARD| && !faulty && !unread)
    && (jump.Lost? ==> |run| == 2 && run[0].ok && !run[1].ok && !faulty && unread)
    && (!jump.Done? && !jump.Lost? ==> !run[|run| - 1].ok && error == StepFailed(run[|run| - 1].step) && faulty && !unread)
  }

  /** The Cinder steps up to the attachment; a failure jumps to a label of the ladder. */
  method Forward(c: Cloud) returns (jump: Label, error: Error, v: VolId, ghost run: seq<Call>)
    requires c.Valid()
    modifies c`volumes, c`next, c`log, c`faults, c`failedReads
    ensures Went(c, old(c.log), old(c.volumes), run, v) && v !in old(c.volumes)
    ensures Ended(jump, error, run, c.faults > old(c.faults), c.failedReads > old(c.failedReads))
    ensures jump.Done? ==> v in c.volumes
    ensures c.faults >= old(c.faults) && c.failedReads >= old(c.failedReads)
  {
    hide ForwardRun, Replay, Undo, Rungs;
    var ok;
    ok, v := c.CreateVolume();
    run := [Call(Create, v, ok)];
    RunStart(old(c.volumes), v, ok);
    if !ok {
      return ToError, StepFailed(Create), v, run;
    }
    jump, error, run := ForwardFromCreated(c, v, old(c.log), old(c.volumes), run);
  }

  /** The wait for the new volume. */
  method AwaitVolume(c: Cloud, v: VolId, ghost log0: seq<Call>, ghost volumes0: map<VolId, set<Mark>>, ghost run: seq<Call>)
      returns (r: Polled, ghost more: seq<Call>)
    requires Went(c, log0, volumes0, run, v) && AllOk(run) && |run| == 1 && Undo(run) == Rungs(1) && v in c.volumes
    modifies c`log, c`faults, c`failedReads
    ensures Went(c, log0, volumes0, more, v) && |more| == 2 && more[0].ok && more[1] == Call(Wait, v, r.Available?)
    ensures AllOk(more) <==> r.Available?
    ensures Undo(more) == Rungs(2)
    ensures r.TimedOut? <==> c.faults > old(c.faults)
    ensures r.VolumeUnread? <==> c.failedReads > old(c.failedReads)
    ensures c.faults >= old(c.faults) && c.failedReads >= old(c.failedReads)
  {
    r := c.Poll(v);
    more := run + [Call(Wait, v, r.Available?)];
    RunExtend(volumes0, run, Call(Wait, v, r.Available?));
    RunStart(volumes0, v, true);
  }

  method ForwardFromCreated(c: Cloud, v: VolId, ghost log0: seq<Call>, ghost volumes0: map<VolId, set<Mark>>, ghost start: seq<Call>)
      returns (jump: Label, error: Error, ghost run: seq<Call>)
    requires Went(c, log0, volumes0, start, v) && AllOk(start) && |start| == 1 && Undo(start) == Rungs(1) && v in c.volumes
    modifies c`volumes, c`log, c`faults, c`failedReads
    ensures Went(c, log0, volumes0, run, v)
    ensures Ended(jump, error, run, c.faults > old(c.faults), c.failedReads > old(c.failedReads))
    ensures jump.Done? ==> v in c.volumes
    ensures c.faults >= old(c.faults) && c.failedReads >= old(c.failedReads)
  {
    hide ForwardRun, Replay, Undo, Went, AllOk, Rungs;
    var polled;
    polled, run := AwaitVolume(c, v, log0, volumes0, start);
    if polled.VolumeUnread? {
      return Lost, StepFailed(Wait), run;
    }
    if polled.TimedOut? {
      return ToDelete, StepFailed(Wait), run;
    }
    jump, error, run := ForwardFromAvailable(c, v, log0, volumes0, run);
  }

  method ForwardFromAvailable(c: Cloud, v: VolId, ghost log0: seq<Call>, ghost volumes0: map<VolId, set<Mark>>, ghost start: seq<Call>)
      returns (jump: Label, error: Error, ghost run: seq<Call>)
    requires Went(c, log0, volumes0, start, v) && AllOk(start) && |start| == 2 && Undo(start) == Rungs(2) && v in c.volumes
    modifies c`volumes, c`log, c`faults
    ensures Went(c, log0, volumes0, run, v)
    ensures Ended(jump, error, run, c.faults > old(c.faults), false)
    ensures jump.Done? ==> v in c.volumes
    ensures c.faults >= old(c.faults)
  {
    hide ForwardRun, Replay, Undo, Went, AllOk, Rungs;
    var ok;
    ok, run := Advance(c, Reserve, v, log0, volumes0, start);
    if !ok {
      return ToDelete, StepFailed(Reserve), run;
    }
    ok, run := Advance(c, Connect, v, log0, volumes0, run);
    if !ok {
      return ToUnreserve, StepFailed(Connect), run;
    }
    ok, run := Advance(c, Attach, v, log0, volumes0, run);
    if !ok {
      return ToDisconnect, StepFailed(Attach), run;
    }
    return Done, BadOptions, run;
  }

  lemma RunStart(volumes: map<VolId, set<Mark>>, v: VolId, ok: bool)
    ensures var run := [Call(Create, v, ok)];
            && ForwardRun(run, v) && Replay(volumes, run) == Effect(volumes, Call(Create, v, ok))
            && Undo(run) == Rungs(if ok then 1 else 0) && (AllOk(run) <==> ok)
            && Rungs(1) == Rungs(2)
  {
    var run := [Call(Create, v, ok)];
    assert run[..0] == [] && run[1..] == [];
    assert Steps(run) == [Create];
  }

  lemma RunExtend(volumes: map<VolId, set<Mark>>, run: seq<Call>, c: Call)
    requires ForwardRun(run, c.vol) && AllOk(run) && 0 < |run| < |FORWARD| && c.step == FORWARD[|run|] && Undo(run) == Rungs(|run|)
    ensures ForwardRun(run + [c], c.vol) && (AllOk(run + [c]) <==> c.ok)
    ensures Replay(volumes, run + [c]) == Effect(Replay(volumes, run), c)
    ensures Undo(run + [c]) == Rungs(if c.ok then |run| + 1 else |run|)
  {
    var more := run + [c];
    assert more[..|run|] == run;
    assert Steps(more)[..|run|] == Steps(run);
  }

  // ---- the ladder ----

  ghost predicate Undoing(c: Cloud, log0: seq<Call>, volumes0: map<VolId, set<Mark>>, comps: seq<Call>, v: VolId)
    reads c
  {
    c.Valid() && c.log == log0 + comps && c.volumes == Replay(volumes0, comps) && AllOn(comps, v)
  }

  lemma OneMore(volumes: map<VolId, set<Mark>>, calls: seq<Call>, c: Call)
    ensures Steps(calls + [c]) == Steps(calls) + [c.step]
    ensures Replay(volumes, calls + [c]) == Effect(Replay(volumes, calls), c)
  {
    assert (calls + [c])[..|calls|] == calls;
  }

  /** One compensation. Its failure is only logged: the next one runs all the same. */
  method Compensate(c: Cloud, step: Step, v: VolId, ghost log0: seq<Call>, ghost volumes0: map<VolId, set<Mark>>, ghost comps: seq<Call>)
      returns (ghost more: seq<Call>)
    requires Undoing(c, log0, volumes0, comps, v) && step != Create
    modifies c`volumes, c`log, c`faults
    ensures Undoing(c, log0, volumes0, more, v) && Steps(more) == Steps(comps) + [step]
    ensures c.faults >= old(c.faults)
  {
    hide Effect, Replay, Steps;
    var ok := c.Do(step, v);
    more := comps + [Call(step, v, ok)];
    OneMore(volumes0, comps, Call(step, v, ok));
  }

  /** The labels from ERROR_DETACH down to ERROR, each falling through to the next. */
  method Ladder(c: Cloud, jump: Label, v: VolId) returns (ghost comps: seq<Call>)
    requires c.Valid() && !jump.Done? && !jump.Lost?
    modifies c`volumes, c`log, c`faults
    ensures Undoing(c, old(c.log), old(c.volumes), comps, v) && Steps(comps) == Rungs(Behind(jump))
    ensures c.faults >= old(c.faults)
  {
    comps := [];
    if jump.ToDetach? {
      comps := Compensate(c, Detach, v, old(c.log), old(c.volumes), comps);
    }
    if jump.ToDetach? || jump.ToDisconnect? {
      comps := Compensate(c, Disconnect, v, old(c.log), old(c.volumes), comps);
    }
    if jump.ToDetach? || jump.ToDisconnect? || jump.ToUnreserve? {
      comps := Compensate(c, Unreserve, v, old(c.log), old(c.volumes), comps);
    }
    if !jump.ToError? {
      comps := Compensate(c, Delete, v, old(c.log), old(c.volumes), comps);
    }
  }

  // ---- the rest of Provision ----

  /** `annotatePVC`: the volume id, and for a real clone the claim it was cloned from. */
  function ClaimUpdates(opts: Options, v: VolId): map<string, Value>
    requires opts.source.Some?
  {
    var base := map[VOLUME_ID_ANN := Volume(v)];
    if CLONE_REQUEST_ANN in opts.claim.annotations && opts.source.value != ""
    then base[CLONE_OF_ANN := opts.claim.annotations[CLONE_REQUEST_ANN]]
    else base
  }

  /** The claim gets the volume's id, and the request it is a clone of exactly if it asked for a
      clone and the volume is one; its other annotations stay. */
  ghost predicate ClaimAnnotated(before: map<string, Value>, now: map<string, Value>, opts: Options, v: VolId) {
    && "cinderVolumeId" in now && now["cinderVolumeId"] == Volume(v)
    && (var clone := "k8s.io/CloneRequest" in opts.claim.annotations && opts.source.Some? && opts.source.value != "";
        if clone then "k8s.io/CloneOf" in now && now["k8s.io/CloneOf"] == opts.claim.annotations["k8s.io/CloneRequest"]
        else
          && ("k8s.io/CloneOf" in now <==> "k8s.io/CloneOf" in before)
          && ("k8s.io/CloneOf" in before ==> now["k8s.io/CloneOf"] == before["k8s.io/CloneOf"]))
    && (forall k :: k in before && k != "cinderVolumeId" && k != "k8s.io/CloneOf" ==> k in now && now[k] == before[k])
    && (forall k :: k in now && k != "cinderVolumeId" && k != "k8s.io/CloneOf" ==> k in before)
  }

  lemma AnnotatedBy(before: map<string, Value>, opts: Options, v: VolId)
    requires opts.source.Some?
    ensures ClaimAnnotated(before, before + ClaimUpdates(opts, v), opts, v)
  {
    assert |"cinderVolumeId"| != |"k8s.io/CloneOf"| || "cinderVolumeId"[0] != "k8s.io/CloneOf"[0];
  }

  function ChapSecret(conn: Connection, opts: Options): (string, string) {
    (opts.claim.ns, opts.pvName + "-secret")
  }

  predicate NeedsSecret(conn: Connection) {
    conn.driver == "iscsi" && conn.authMethod == "CHAP"
  }

  /** What becomes of a claim when no call fails. */
  datatype Fate = Fine | Refused(error: Error) | Panics(at: Place)

  function PublishFate(opts: Options, conn: Connection, secrets: set<(string, string)>,
                       claims: map<(string, string), Option<map<string, Value>>>): Fate {
    var mapper, key := MapperFromConnection(conn), (opts.claim.ns, opts.claim.name);
    if mapper.None? then Refused(NoMapper)
    else if NeedsSecret(conn) && ChapSecret(conn, opts) in secrets then Refused(AuthFailed)
    else
      match BuildSource(mapper.value, conn, opts)
      case Unbuildable => Refused(BuildFailed)
      case NoStorageClass => Panics(AtStorageClass)
      case Built(_) =>
        if key !in claims then Panics(AtClaimRead)
        else if claims[key].None? then Panics(AtAnnotations)
        else Fine
  }

  function ProvisionFate(opts: Options, conn: Connection, secrets: set<(string, string)>,
                         claims: map<(string, string), Option<map<string, Value>>>): Fate {
    if opts.selector then Refused(Selector)
    else if opts.source.None? then Refused(BadOptions)
    else PublishFate(opts, conn, secrets, claims)
  }

  /** The panics in one condition. A request that is accepted and can be connected panics if
      and only if the claim is gone, has no annotations, or has no storage class where the
      volume is an rbd image. */
  lemma PanicsExactly(opts: Options, conn: Connection, secrets: set<(string, string)>,
                      claims: map<(string, string), Option<map<string, Value>>>)
    ensures ProvisionFate(opts, conn, secrets, claims).Panics? <==>
              && !opts.selector && opts.source.Some?
              && (|| (conn.driver == "iscsi" && (conn.authMethod == "CHAP" ==> ChapSecret(conn, opts) !in secrets))
                  || (conn.driver == "rbd" && |conn.hosts| == |conn.ports| && '/' in conn.name))
              && (|| (opts.claim.ns, opts.claim.name) !in claims || claims[(opts.claim.ns, opts.claim.name)].None?
                  || (conn.driver == "rbd" && opts.claim.storageClass.None?))
  {
  }

  /** What success leaves, spelled out: the persistent volume, the CHAP secret of an iSCSI volume
      that needs one, and the annotated claim. */
  ghost predicate Published(pv: PV, v: VolId, identity: string, opts: Options, conn: Connection,
                            secrets0: set<(string, string)>, secrets: set<(string, string)>,
                            claims0: map<(string, string), Option<map<string, Value>>>,
                            claims: map<(string, string), Option<map<string, Value>>>) {
    && pv.name == opts.pvName && pv.ns == opts.claim.ns && pv.claimRef.None?
    && pv.annotations == map["standaloneCinderProvisionerIdentity" := Text(identity), "cinderVolumeId" := Volume(v)]
    && SourceOf(pv.source, conn, opts)
    && secrets == (if conn.driver == "iscsi" && conn.authMethod == "CHAP" then secrets0 + {(opts.claim.ns, opts.pvName + "-secret")} else secrets0)
    && var key := (opts.claim.ns, opts.claim.name);
       && key in claims0 && claims0[key].Some? && key in claims && claims[key].Some? && claims == claims0[key := claims[key]]
       && ClaimAnnotated(claims0[key].value, claims[key].value, opts, v)
  }

  /** The refusals, one by one, for a request that is accepted. */
  lemma RefusedExactly(opts: Options, conn: Connection, secrets: set<(string, string)>,
                       claims: map<(string, string), Option<map<string, Value>>>)
    ensures var f := ProvisionFate(opts, conn, secrets, claims);
            && (f == Refused(Selector) <==> opts.selector)
            && (f == Refused(BadOptions) <==> !opts.selector && opts.source.None?)
            && (!opts.selector && opts.source.Some? ==>
                  && (f == Refused(NoMapper) <==> conn.driver != "iscsi" && conn.driver != "rbd")
                  && (f == Refused(AuthFailed) <==> conn.driver == "iscsi" && conn.authMethod == "CHAP" && (opts.claim.ns, opts.pvName + "-secret") in secrets)
                  && (f == Refused(BuildFailed) <==> conn.driver == "rbd" && (|conn.hosts| != |conn.ports| || '/' !in conn.name)))
            && (f.Refused? ==> f.error in {Selector, BadOptions, NoMapper, AuthFailed, BuildFailed})
  {
    hide FirstSlash;
    SourceSpelledOut(conn, opts);
  }

  /** Mapper, secret, persistent volume and claim annotation of an attached volume. It panics
      if and only if reading the claim fails or, no call having failed, it is fated to. */
  method Publish(c: Cloud, identity: string, opts: Options, v: VolId, conn: Connection) returns (r: Result)
    requires opts.source.Some?
    modifies c`secrets, c`claims, c`faults, c`failedReads
    ensures c.faults >= old(c.faults) && c.failedReads >= old(c.failedReads)
    ensures r.Panicked? <==>
              c.failedReads > old(c.failedReads) || (c.faults == old(c.faults) && PublishFate(opts, conn, old(c.secrets), old(c.claims)).Panics?)
    ensures r.Panicked? ==>
              && c.faults == old(c.faults) && c.claims == old(c.claims) && r.at != AtVolumeRead
              && ((c.failedReads > old(c.failedReads) && r.at == AtClaimRead) || PublishFate(opts, conn, old(c.secrets), old(c.claims)) == Panics(r.at))
              && c.secrets == (if NeedsSecret(conn) then old(c.secrets) + {ChapSecret(conn, opts)} else old(c.secrets))
    ensures r.Ok? ==>
              && MapperFromConnection(conn).Some?
              && BuildPV(MapperFromConnection(conn).value, identity, opts, conn, v) == Some(r.pv)
              && c.secrets == (if NeedsSecret(conn) then old(c.secrets) + {ChapSecret(conn, opts)} else old(c.secrets))
              && (NeedsSecret(conn) ==> ChapSecret(conn, opts) !in old(c.secrets))
              && (opts.claim.ns, opts.claim.name) in old(c.claims) && old(c.claims)[(opts.claim.ns, opts.claim.name)].Some?
              && c.claims == old(c.claims)[(opts.claim.ns, opts.claim.name) :=
                                             Some(old(c.claims)[(opts.claim.ns, opts.claim.name)].value + ClaimUpdates(opts, v))]
              && c.faults == old(c.faults) && PublishFate(opts, conn, old(c.secrets), old(c.claims)).Fine?
    ensures r.Ok? ==> Published(r.pv, v, identity, opts, conn, old(c.secrets), c.secrets, old(c.claims), c.claims)
    ensures r.Err? ==> c.claims == old(c.claims) && PublishError(r.error)
    ensures r.Err? ==>
              || c.secrets == old(c.secrets)
              || (r.error.AnnotateFailed? && NeedsSecret(conn) && c.secrets == old(c.secrets) + {ChapSecret(conn, opts)})
    ensures r.Err? ==> c.faults > old(c.faults) || PublishFate(opts, conn, old(c.secrets), old(c.claims)) == Refused(r.error)
  {
    hide FirstSlash, ClaimAnnotated, ClaimUpdates, SourceOf;
    ghost var key := (opts.claim.ns, opts.claim.name);
    if key in c.claims && c.claims[key].Some? {
      AnnotatedBy(c.claims[key].value, opts, v);
    }
    BuiltSpelledOut(identity, opts, conn, v);
    var mapper := MapperFromConnection(conn);
    if mapper.None? {
      return Err(NoMapper);
    }
    if mapper.value.IscsiMapper? && ChapSecretName(conn, opts) != "" {
      var ok := c.CreateSecret(opts.claim.ns, ChapSecretName(conn, opts));
      if !ok {
        return Err(AuthFailed);
      }
    }
    var source := BuildSource(mapper.value, conn, opts);
    if source.Unbuildable? {
      return Err(BuildFailed);
    }
    if source.NoStorageClass? {
      return Panicked(AtStorageClass);
    }
    var a := c.Annotate(opts.claim.ns, opts.claim.name, ClaimUpdates(opts, v));
    match a
    case ClaimUnread => return Panicked(AtClaimRead);
    case NoAnnotations => return Panicked(AtAnnotations);
    case UpdateFailed => return Err(AnnotateFailed);
    case Written => return Ok(BuildPV(mapper.value, identity, opts, conn, v).value);
  }

  predicate PublishError(e: Error) {
    e.NoMapper? || e.AuthFailed? || e.BuildFailed? || e.AnnotateFailed?
  }

  /** What a panic leaves behind: the volume as it was created, or with all three marks. */
  ghost predicate LeftBehind(at: Place, before: map<VolId, set<Mark>>, now: map<VolId, set<Mark>>, v: VolId) {
    now == before[v := if at == AtVolumeRead then {} else {Reserved, Connected, Attached}]
  }

  lemma LeavesTheVolume(volumes: map<VolId, set<Mark>>, run: seq<Call>, v: VolId)
    requires ForwardRun(run, v)
    ensures |run| == 2 && run[0].ok && !run[1].ok ==> Replay(volumes, run) == volumes[v := {}]
    ensures |run| == |FORWARD| && AllOk(run) ==> Replay(volumes, run) == volumes[v := {Reserved, Connected, Attached}]
  {
    if |run| == 2 && run[0].ok && !run[1].ok {
      assert run == [Call(Create, v, true), Call(Wait, v, false)] by {
        assert Steps(run)[0] == FORWARD[0] && Steps(run)[1] == FORWARD[1];
      }
      ReplayPair(volumes, v);
    }
    if |run| == |FORWARD| && AllOk(run) {
      assert run == FullRun(v) by {
        assert Steps(run) == FORWARD;
      }
      ReplayFull(volumes, v);
    }
  }

  function FullRun(v: VolId): seq<Call> {
    [Call(Create, v, true), Call(Wait, v, true), Call(Reserve, v, true), Call(Connect, v, true), Call(Attach, v, true)]
  }

  lemma ReplayPair(volumes: map<VolId, set<Mark>>, v: VolId)
    ensures Replay(volumes, [Call(Create, v, true), Call(Wait, v, false)]) == volumes[v := {}]
  {
    hide Replay;
    EmptyRun(volumes, v);
    OneMore(volumes, [], Call(Create, v, true));
    OneMore(volumes, [Call(Create, v, true)], Call(Wait, v, false));
    assert [] + [Call(Create, v, true)] == [Call(Create, v, true)];
    assert [Call(Create, v, true)] + [Call(Wait, v, false)] == [Call(Create, v, true), Call(Wait, v, false)];
  }

  lemma ReplayFull(volumes: map<VolId, set<Mark>>, v: VolId)
    ensures Replay(volumes, FullRun(v)) == volumes[v := {Reserved, Connected, Attached}]
  {
    hide Replay;
    var r := FullRun(v);
    EmptyRun(volumes, v);
    OneMore(volumes, [], r[0]);
    OneMore(volumes, [r[0]], r[1]);
    OneMore(volumes, r[..2], r[2]);
    OneMore(volumes, r[..3], r[3]);
    OneMore(volumes, r[..4], r[4]);
    assert [] + [r[0]] == [r[0]] && [r[0]] + [r[1]] == r[..2] && r[..2] + [r[2]] == r[..3] && r[..3] + [r[3]] == r[..4] && r[..4] + [r[4]] == r;
    assert {} + {Reserved} == {Reserved};
    assert Replay(volumes, r[..3]) == volumes[v := {Reserved}];
    assert Replay(volumes, r[..4]) == volumes[v := {Reserved} + {Connected}];
    assert {Reserved} + {Connected} + {Attached} == {Reserved, Connected, Attached};
  }

  /** Provision. `run` are the forward calls, `comps` the compensations.

      - Success means all five steps succeeded and nothing was compensated.
      - An error runs exactly the inverses of the steps that succeeded, newest first, once
        each, whether or not they succeed, and is the error that started it.
      - If they all succeed the volumes are those of before; only the CHAP secret may stay,
        and only when it was the claim that could not be annotated.
      - It panics if and only if a read fails or, no call having failed, the request is fated
        to. No compensation runs then, and the volume stays. */
  method Provision(c: Cloud, identity: string, opts: Options)
      returns (r: Result, ghost v: VolId, ghost run: seq<Call>, ghost comps: seq<Call>)
    requires c.Valid()
    modifies c`volumes, c`next, c`secrets, c`claims, c`log, c`faults, c`failedReads
    ensures c.Valid() && v !in old(c.volumes) && c.faults >= old(c.faults) && c.failedReads >= old(c.failedReads)
    ensures c.log == old(c.log) + run + comps && c.volumes == Replay(Replay(old(c.volumes), run), comps)
    ensures ForwardRun(run, v) && AllOn(comps, v)
    ensures r.Ok? ==> AllOk(run) && |run| == |FORWARD| && comps == [] && v in c.volumes && c.faults == old(c.faults)
    ensures r.Ok? ==>
              && MapperFromConnection(c.connection).Some?
              && BuildPV(MapperFromConnection(c.connection).value, identity, opts, c.connection, v) == Some(r.pv)
              && c.secrets == (if NeedsSecret(c.connection) then old(c.secrets) + {ChapSecret(c.connection, opts)} else old(c.secrets))
              && (NeedsSecret(c.connection) ==> ChapSecret(c.connection, opts) !in old(c.secrets))
              && ProvisionFate(opts, c.connection, old(c.secrets), old(c.claims)).Fine?
    ensures r.Ok? ==> Published(r.pv, v, identity, opts, c.connection, old(c.secrets), c.secrets, old(c.claims), c.claims)
    ensures !r.Ok? ==> c.claims == old(c.claims)
    ensures Steps(run) <= [Create, Wait, Reserve, Connect, Attach]
    ensures !r.Ok? ==> (Steps(comps) == Undo(run) <==> !r.Panicked?)
    ensures r.Panicked? <==>
              || c.failedReads > old(c.failedReads)
              || (c.faults == old(c.faults) && ProvisionFate(opts, c.connection, old(c.secrets), old(c.claims)).Panics?)
    ensures r.Panicked? ==> comps == [] && LeftBehind(r.at, old(c.volumes), c.volumes, v)
    ensures r.Err? && run != [] && !run[|run| - 1].ok ==> r.error == StepFailed(run[|run| - 1].step)
    ensures r.Err? && run != [] && run[|run| - 1].ok ==> |run| == |FORWARD| && PublishError(r.error)
    ensures r.Err? && AllOk(comps) ==> c.volumes == old(c.volumes)
    ensures r.Err? ==>
              || c.secrets == old(c.secrets)
              || (r.error.AnnotateFailed? && NeedsSecret(c.connection) && c.secrets == old(c.secrets) + {ChapSecret(c.connection, opts)})
    ensures r.Err? ==> c.faults > old(c.faults) || ProvisionFate(opts, c.connection, old(c.secrets), old(c.claims)) == Refused(r.error)
  {
    hide Replay, Undo, Rungs, BuildPV, PublishFate, ChapSecret, ForwardRun, NeedsSecret, MapperFromConnection, Published, ClaimUpdates,
         AllOn, PublishError, Effect;
    run, comps, v := [], [], c.next;
    EmptyRun(c.volumes, v);
    if opts.selector {
      return Err(Selector), v, run, comps;
    }
    if opts.source.None? {
      return Err(BadOptions), v, run, comps;
    }
    var jump, error, vol;
    jump, error, vol, run := Forward(c);
    v := vol;
    StepsOf(run, v);
    LeavesTheVolume(old(c.volumes), run, v);
    EmptyRun(c.volumes, v);
    SomethingToUndo(run, v);
    if jump.Lost? {
      return Panicked(AtVolumeRead), v, run, comps;
    }
    r := Err(error);
    if jump.Done? {
      r := Publish(c, identity, opts, vol, c.connection);
      if !r.Err? {
        return;
      }
      jump := ToDetach;
    }
    comps := Ladder(c, jump, vol);
    Compensated(old(c.volumes), run, comps, v);
  }

  /** The volume source of a connection. */
  ghost predicate SourceOf(source: Source, conn: Connection, opts: Options) {
    if conn.driver == "iscsi" then
      source == if conn.authMethod == "CHAP" then Iscsi(true, Some(opts.pvName + "-secret")) else Iscsi(false, None)
    else
      && conn.driver == "rbd" && source.Rbd? && opts.claim.storageClass.Some?
      && source.pool + "/" + source.image == conn.name && '/' !in source.pool
      && source.cephxSecret == opts.claim.storageClass.value + "-cephx-secret"
  }

  lemma BuiltSpelledOut(identity: string, opts: Options, conn: Connection, v: VolId)
    ensures var m := MapperFromConnection(conn);
            && (m.Some? <==> conn.driver == "iscsi" || conn.driver == "rbd")
            && (m.Some? && BuildPV(m.value, identity, opts, conn, v).Some? ==>
                  var pv := BuildPV(m.value, identity, opts, conn, v).value;
                  && pv.name == opts.pvName && pv.ns == opts.claim.ns && pv.claimRef.None?
                  && pv.annotations == map["standaloneCinderProvisionerIdentity" := Text(identity), "cinderVolumeId" := Volume(v)]
                  && SourceOf(pv.source, conn, opts))
    ensures NeedsSecret(conn) <==> conn.driver == "iscsi" && conn.authMethod == "CHAP"
    ensures ChapSecret(conn, opts) == (opts.claim.ns, opts.pvName + "-secret")
  {
    hide BuildSource;
    SourceSpelledOut(conn, opts);
  }

  /** What is to be undone after each way the steps can end, spelled out. */
  lemma {:induction false} UndoSpelledOut(run: seq<Call>, v: VolId)
    requires ForwardRun(run, v)
    ensures run == [] || (|run| == 1 && !run[0].ok) ==> Undo(run) == []
    ensures (|run| == 1 && run[0].ok) || |run| == 2 || (|run| == 3 && !run[2].ok) ==> Undo(run) == [Delete]
    ensures (|run| == 3 && run[2].ok) || (|run| == 4 && !run[3].ok) ==> Undo(run) == [Unreserve, Delete]
    ensures (|run| == 4 && run[3].ok) || (|run| == 5 && !run[4].ok) ==> Undo(run) == [Disconnect, Unreserve, Delete]
    ensures |run| == 5 && run[4].ok ==> Undo(run) == [Detach, Disconnect, Unreserve, Delete]
    decreases |run|
  {
    if run != [] {
      var front := run[..|run| - 1];
      assert Steps(run)[..|run| - 1] == Steps(front);
      assert forall i :: 0 <= i < |front| ==> front[i] == run[i];
      assert ForwardRun(front, v);
      UndoSpelledOut(front, v);
      assert run[|run| - 1].step == Steps(run)[|run| - 1] == FORWARD[|run| - 1];
    }
  }

  /** Each compensation takes back what its step did to a volume that did not have the mark, and
      nothing else. */
  lemma InverseUndoes(volumes: map<VolId, set<Mark>>, step: Step, v: VolId)
    requires step == Create ==> v !in volumes
    requires step == Reserve ==> v in volumes && Reserved !in volumes[v]
    requires step == Connect ==> v in volumes && Connected !in volumes[v]
    requires step == Attach ==> v in volumes && Attached !in volumes[v]
    ensures Inverse(step).Some? <==> step in {Create, Reserve, Connect, Attach}
    ensures Inverse(step).Some? ==> Effect(Effect(volumes, Call(step, v, true)), Call(Inverse(step).value, v, true)) == volumes
  {
    if step == Create {
      assert volumes[v := {}] - {v} == volumes;
    } else if Inverse(step).Some? {
      var m := volumes[v];
      var mark := if step == Reserve then Reserved else if step == Connect then Connected else Attached;
      assert m + {mark} - {mark} == m;
      assert volumes[v := m] == volumes;
    }
  }

  lemma SomethingToUndo(run: seq<Call>, v: VolId)
    requires ForwardRun(run, v) && run != []
    ensures run[0].ok ==> Undo(run) != []
  {
    assert Steps(run)[0] == FORWARD[0];
    if run[0].ok {
      CreateIsUndoneLast(run);
    }
  }

  /** A claim deleted while its volume was being prepared, all calls succeeding: fated to panic,
      with five steps done, four of them to be taken back, and the volume left attached. */
  lemma ClaimDeletedMeanwhile(opts: Options, conn: Connection, v: VolId)
    requires !opts.selector && opts.source.Some? && conn.driver == "iscsi"
    ensures ProvisionFate(opts, conn, {}, map[]) == Panics(AtClaimRead)
    ensures ForwardRun(FullRun(v), v) && AllOk(FullRun(v)) && Undo(FullRun(v)) == BACKWARD
    ensures Replay(map[], FullRun(v)) == map[v := {Reserved, Connected, Attached}]
  {
    hide Replay;
    ReplayFull(map[], v);
    var r := FullRun(v);
    assert r[..4][..3] == r[..3] && r[..3][..2] == r[..2] && r[..2][..1] == r[..1] && r[..1][..0] == [];
    assert Steps(r) == FORWARD;
    assert Undo(r[..1]) == [Delete];
    assert Undo(r[..3]) == [Unreserve, Delete];
  }

  lemma EmptyRun(volumes: map<VolId, set<Mark>>, v: VolId)
    ensures Replay(volumes, []) == volumes && ForwardRun([], v) && Undo([]) == [] && Steps([]) == []
  {
  }

  /** Successful compensations leave the volumes of before. */
  lemma Compensated(volumes: map<VolId, set<Mark>>, run: seq<Call>, comps: seq<Call>, v: VolId)
    requires v !in volumes && ForwardRun(run, v) && AllOn(comps, v) && run != [] && Steps(comps) == Undo(run)
    ensures AllOk(comps) ==> Replay(Replay(volumes, run), comps) == volumes
  {
    assert run[0].step == Steps(run)[0] == FORWARD[0];
    ReplayAppend(volumes, run, comps);
    if run[0].ok {
      CreateIsUndoneLast(run);
      if AllOk(comps) {
        var all := run + comps;
        assert all[|all| - 1] == comps[|comps| - 1];
        DeletedLast(volumes, all, v);
      }
    } else {
      assert |run| == 1 && run[..0] == [];
      assert Undo(run) == [] && comps == [] && Replay(volumes, run) == volumes;
    }
  }

  lemma {:induction false} CreateIsUndoneLast(run: seq<Call>)
    requires run != [] && run[0].ok && run[0].step == Create
    ensures Undo(run) != [] && Undo(run)[|Undo(run)| - 1] == Delete
  {
    if |run| == 1 {
      assert run[..0] == [];
    } else {
      CreateIsUndoneLast(run[..|run| - 1]);
    }
  }

  // ---- Delete ----

  /** `Crashed`: the claim reference the secret's namespace is taken from is missing. */
  datatype DeleteResult = Deleted | NoIdentity | NotOurs | NoVolumeId | BadSource | Crashed | DeleteFailed(step: Step)

  /** A volume that names a secret but no claim whose namespace it is in. */
  predicate NamesNoClaim(pv: PV) {
    pv.source.Iscsi? && pv.source.secretRef.Some? && pv.claimRef.None?
  }

  /** The secret a volume names, in the namespace of the bound claim. */
  function NamedSecret(pv: PV): Option<(string, string)> {
    if pv.source.Iscsi? && pv.source.secretRef.Some? && pv.claimRef.Some? then Some((pv.claimRef.value, pv.source.secretRef.value)) else None
  }

  /** The named secret is gone and no other, unless a call failed; then none is. */
  ghost predicate SecretGone(named: Option<(string, string)>, before: set<(string, string)>, now: set<(string, string)>, fault: bool) {
    || (now == if named.Some? then before - {named.value} else before)
    || (fault && now == before)
  }

  /** `AuthTeardown`. */
  method Teardown(c: Cloud, m: Mapper, pv: PV) returns (ok: bool)
    requires MapperFromPV(pv) == Some(m) && !NamesNoClaim(pv)
    modifies c`secrets, c`faults
    ensures SecretGone(NamedSecret(pv), old(c.secrets), c.secrets, c.faults > old(c.faults))
    ensures !ok ==> c.faults > old(c.faults) || (NamedSecret(pv).Some? && NamedSecret(pv).value !in old(c.secrets))
    ensures c.faults >= old(c.faults)
  {
    if m.RbdMapper? || pv.source.secretRef.None? {
      return true;
    }
    ok := c.DeleteSecret(pv.claimRef.value, pv.source.secretRef.value);
  }

  lemma KeepsVolume(volumes: map<VolId, set<Mark>>, step: Step, v: VolId)
    ensures step != Delete && v in volumes ==> forall ok :: v in Effect(volumes, Call(step, v, ok))
  {
  }

  /** One step of Delete; unlike in the ladder, a failure ends the call. */
  method Dismantle(c: Cloud, v: VolId, k: nat, ghost log0: seq<Call>, ghost volumes0: map<VolId, set<Mark>>, ghost calls: seq<Call>)
      returns (ok: bool, ghost more: seq<Call>)
    requires Undoing(c, log0, volumes0, calls, v) && k == |calls| < |BACKWARD| && Steps(calls) == BACKWARD[..k] && AllOk(calls)
    modifies c`volumes, c`log, c`faults
    ensures Undoing(c, log0, volumes0, more, v) && |more| == k + 1 && Steps(more) == BACKWARD[..k + 1]
    ensures more[k].ok == ok && more[k].step == BACKWARD[k] && AllOk(more[..k]) && (ok ==> AllOk(more))
    ensures c.faults >= old(c.faults) && (!ok ==> c.faults > old(c.faults) || v !in old(c.volumes))
    ensures k < 3 && v in old(c.volumes) ==> v in c.volumes
  {
    hide Effect, Replay, Steps;
    var step := BACKWARD[k];
    KeepsVolume(c.volumes, step, v);
    ok := c.Do(step, v);
    more := calls + [Call(step, v, ok)];
    OneMore(volumes0, calls, Call(step, v, ok));
    assert more[..k] == calls;
    assert BACKWARD[..k + 1] == BACKWARD[..k] + [step];
  }

  /** Why Delete may end before any call is made. */
  ghost predicate DeleteRefusal(e: DeleteResult, identity: string, pv: PV) {
    match e
    case NoIdentity => PROVISIONER_ID_ANN !in pv.annotations
    case NotOurs => PROVISIONER_ID_ANN in pv.annotations && pv.annotations[PROVISIONER_ID_ANN] != Text(identity)
    case NoVolumeId => VOLUME_ID_ANN !in pv.annotations || pv.annotations[VOLUME_ID_ANN].Text?
    case BadSource => MapperFromPV(pv).None?
    case Crashed => NamesNoClaim(pv)
    case _ => false
  }

  /** Delete. The secret the volume names goes first, and not being able to remove it stops
      nothing. Then the whole ladder is issued in order, up to the first failure. */
  method DeletePV(c: Cloud, identity: string, pv: PV) returns (e: DeleteResult, ghost v: VolId, ghost calls: seq<Call>)
    requires c.Valid()
    modifies c`volumes, c`secrets, c`log, c`faults
    ensures Undoing(c, old(c.log), old(c.volumes), calls, v) && Steps(calls) <= BACKWARD && c.faults >= old(c.faults)
    ensures e.Deleted? || e.DeleteFailed? ==>
              && VOLUME_ID_ANN in pv.annotations && pv.annotations[VOLUME_ID_ANN] == Volume(v)
              && PROVISIONER_ID_ANN in pv.annotations && pv.annotations[PROVISIONER_ID_ANN] == Text(identity)
              && SecretGone(NamedSecret(pv), old(c.secrets), c.secrets, c.faults > old(c.faults))
    ensures Steps(calls) <= [Detach, Disconnect, Unreserve, Delete]
    ensures (e.Deleted? || e.DeleteFailed?) && c.faults == old(c.faults) ==>
              c.secrets == if pv.source.Iscsi? && pv.source.secretRef.Some? && pv.claimRef.Some?
                           then old(c.secrets) - {(pv.claimRef.value, pv.source.secretRef.value)} else old(c.secrets)
    ensures e.Deleted? ==> AllOk(calls) && |calls| == |BACKWARD| == 4
    ensures e.DeleteFailed? ==>
              && calls != [] && !calls[|calls| - 1].ok && AllOk(calls[..|calls| - 1]) && e.step == calls[|calls| - 1].step
              && (c.faults > old(c.faults) || v !in old(c.volumes))
    ensures !e.Deleted? && !e.DeleteFailed? ==> DeleteRefusal(e, identity, pv) && calls == [] && c.secrets == old(c.secrets)
  {
    hide Replay;
    v, calls := 0, [];
    EmptyRun(c.volumes, v);
    if PROVISIONER_ID_ANN !in pv.annotations {
      return NoIdentity, v, calls;
    }
    if pv.annotations[PROVISIONER_ID_ANN] != Text(identity) {
      return NotOurs, v, calls;
    }
    if VOLUME_ID_ANN !in pv.annotations || pv.annotations[VOLUME_ID_ANN].Text? {
      return NoVolumeId, v, calls;
    }
    var m := MapperFromPV(pv);
    if m.None? {
      return BadSource, v, calls;
    }
    if NamesNoClaim(pv) {
      return Crashed, v, calls;
    }
    var _ := Teardown(c, m.value, pv);
    v := pv.annotations[VOLUME_ID_ANN].id;
    e, calls := DismantleAll(c, pv.annotations[VOLUME_ID_ANN].id);
  }

  method DismantleAll(c: Cloud, v: VolId) returns (e: DeleteResult, ghost calls: seq<Call>)
    requires c.Valid()
    modifies c`volumes, c`log, c`faults
    ensures Undoing(c, old(c.log), old(c.volumes), calls, v) && Steps(calls) <= BACKWARD
    ensures e.Deleted? ==> AllOk(calls) && |calls| == |BACKWARD|
    ensures !e.Deleted? ==>
              e.DeleteFailed? && calls != [] && !calls[|calls| - 1].ok && AllOk(calls[..|calls| - 1]) && e.step == calls[|calls| - 1].step
    ensures c.faults >= old(c.faults) && (!e.Deleted? ==> c.faults > old(c.faults) || v !in old(c.volumes))
  {
    hide Undoing, Steps, AllOk;
    NothingUndone(c, v);
    var ok;
    ok, calls := Dismantle(c, v, 0, old(c.log), old(c.volumes), []);
    if !ok {
      return DeleteFailed(Detach), calls;
    }
    ok, calls := Dismantle(c, v, 1, old(c.log), old(c.volumes), calls);
    if !ok {
      return DeleteFailed(Disconnect), calls;
    }
    ok, calls := Dismantle(c, v, 2, old(c.log), old(c.volumes), calls);
    if !ok {
      return DeleteFailed(Unreserve), calls;
    }
    ok, calls := Dismantle(c, v, 3, old(c.log), old(c.volumes), calls);
    if !ok {
      return DeleteFailed(Delete), calls;
    }
    return Deleted, calls;
  }

  lemma NothingUndone(c: Cloud, v: VolId)
    requires c.Valid()
    ensures Undoing(c, c.log, c.volumes, [], v) && Steps([]) == [] && AllOk([])
  {
  }

  lemma AllUndone(volumes: map<VolId, set<Mark>>, run: seq<Call>, calls: seq<Call>, v: VolId)
    requires v !in volumes && AllOn(run, v) && AllOn(calls, v) && AllOk(calls) && Steps(calls) == BACKWARD
    ensures Replay(Replay(volumes, run), calls) == volumes
  {
    hide Replay;
    ReplayAppend(volumes, run, calls);
    var all := run + calls;
    assert all[|all| - 1] == calls[3] && Steps(calls)[3] == BACKWARD[3];
    DeletedLast(volumes, all, v);
  }

  datatype Ending = Gone | Refusal | Crash

  /** Provision, then Delete by the same provisioner once the claim is bound. If both succeed
      no volume is left, and if moreover no call failed no secret is. It crashes exactly when
      Provision panics, and then the volume is left. Otherwise, without a failed call, only a
      refusal of Provision ends it early. */
  method ProvisionThenDelete(c: Cloud, identity: string, opts: Options) returns (e: Ending, ghost v: VolId)
    requires c.Valid()
    modifies c`volumes, c`next, c`secrets, c`claims, c`log, c`faults, c`failedReads
    ensures c.Valid() && v !in old(c.volumes) && c.faults >= old(c.faults) && c.failedReads >= old(c.failedReads)
    ensures e.Gone? ==> c.volumes == old(c.volumes)
    ensures e.Gone? && c.faults == old(c.faults) ==> c.secrets == old(c.secrets)
    ensures e.Crash? <==>
              || c.failedReads > old(c.failedReads)
              || (c.faults == old(c.faults) && ProvisionFate(opts, c.connection, old(c.secrets), old(c.claims)).Panics?)
    ensures e.Crash? ==> exists at :: LeftBehind(at, old(c.volumes), c.volumes, v)
    ensures e.Refusal? ==> c.faults > old(c.faults) || ProvisionFate(opts, c.connection, old(c.secrets), old(c.claims)).Refused?
  {
    hide Replay, Undo, ProvisionFate, ForwardRun, Published, LeftBehind;
    ghost var run, comps;
    var r;
    ghost var volumes0, secrets0 := c.volumes, c.secrets;
    r, v, run, comps := Provision(c, identity, opts);
    if r.Panicked? {
      return Crash, v;
    }
    if r.Err? {
      return Refusal, v;
    }
    MapperSurvives(MapperFromConnection(c.connection).value, identity, opts, c.connection, v);
    EmptyRun(Replay(volumes0, run), v);
    OnItsVolume(run, v);
    ghost var w, calls;
    var bound := r.pv.(claimRef := Some(opts.claim.ns));
    var d;
    d, w, calls := DeletePV(c, identity, bound);
    if !d.Deleted? {
      return Refusal, v;
    }
    AllUndone(volumes0, run, calls, v);
    assert NamedSecret(bound) == if NeedsSecret(c.connection) then Some(ChapSecret(c.connection, opts)) else None;
    return Gone, v;
  }

  lemma StepsOf(run: seq<Call>, v: VolId)
    requires ForwardRun(run, v)
    ensures Steps(run) <= [Create, Wait, Reserve, Connect, Attach]
  {
  }

  lemma OnItsVolume(run: seq<Call>, v: VolId)
    requires ForwardRun(run, v)
    ensures AllOn(run, v)
  {
  }
}
