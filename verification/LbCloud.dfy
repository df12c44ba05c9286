/** The load-balancing service as the reconciler sees it: any call may fail without
    effect, every mutation sends the load balancer from ACTIVE to a pending status, and
    a ghost log records each mutation with the status it was issued in and the graph it
    left behind. `faults` counts the calls the environment failed, so that a contract
    can say when an error is the environment's doing. */
module LbCloud {
  import opened Common
  import opened LbGraph

  const ACTIVE_STEPS := 19
  const DELETE_STEPS := 13

  datatype Status = Active | Pending | Error
  datatype Entry = Entry(op: Op, status: Status, after: Graph)
  datatype Reply = Done(id: Id) | NotFound | Conflict | Fault
  datatype Outcome = Ok | Failed(why: Why)
  datatype Why = CloudFault | Duplicate | NoAddress | ManyPools | BadService | NoLoadBalancer | MissingListener | MissingPool
  datatype PoolReply = Found(id: Id, monitor: Option<Id>) | NoPool | Multiple | PoolFault

  datatype ListenerView = ListenerView(id: Id, listener: Listener)
  datatype MemberView = MemberView(id: Id, addr: string, port: int)

  ghost predicate AllClosed(log: seq<Entry>) {
    forall i :: 0 <= i < |log| ==> Closed(log[i].after)
  }

  /** Creating the load balancer is the one call that has no status to wait for. */
  ghost predicate AllActive(log: seq<Entry>) {
    forall i :: 0 <= i < |log| ==> log[i].op.CreateLb? || log[i].status.Active?
  }

  /** The entries lead from `start` to `g`, each by what its operation does. */
  ghost predicate Recorded(start: Graph, log: seq<Entry>, g: Graph) {
    && (forall i :: 0 <= i < |log| ==> Effected(start, log, i))
    && g == Before(start, log, |log|)
  }

  ghost function Before(start: Graph, log: seq<Entry>, i: nat): Graph
    requires i <= |log|
  {
    if i == 0 then start else log[i - 1].after
  }

  ghost predicate Effected(start: Graph, log: seq<Entry>, i: nat)
    requires i < |log|
  {
    log[i].after == Apply(Before(start, log, i), log[i].op)
  }

  lemma RecordedNext(start: Graph, log: seq<Entry>, g: Graph, e: Entry)
    requires Recorded(start, log, g) && e.after == Apply(g, e.op)
    ensures Recorded(start, log + [e], e.after)
  {
    hide Apply;
    var more := log + [e];
    forall i | 0 <= i < |more|
      ensures Effected(start, more, i)
    {
      assert i < |log| ==> Effected(start, log, i);
    }
  }

  /** What has been added to the log since leads from the graph of then to the graph of now. */
  lemma RecordedSince(start: Graph, log0: seq<Entry>, g0: Graph, log: seq<Entry>, g: Graph)
    requires Recorded(start, log0, g0) && Recorded(start, log, g) && log0 <= log
    ensures Recorded(g0, log[|log0|..], g)
  {
    hide Apply;
    var since := log[|log0|..];
    forall i | 0 <= i < |since|
      ensures Effected(g0, since, i)
    {
      assert Effected(start, log, |log0| + i);
    }
  }

  lemma RecordedFromNowOn(start: Graph, log0: seq<Entry>, g0: Graph)
    requires Recorded(start, log0, g0)
    ensures forall log: seq<Entry>, g: Graph :: Recorded(start, log, g) && log0 <= log ==> Recorded(g0, log[|log0|..], g)
  {
    hide Recorded;
    forall log: seq<Entry>, g: Graph | Recorded(start, log, g) && log0 <= log
      ensures Recorded(g0, log[|log0|..], g)
    {
      RecordedSince(start, log0, g0, log, g);
    }
  }

  ghost predicate ListsListeners(s: seq<ListenerView>, g: Graph) {
    && NoDuplicates(s)
    && forall v :: v in s <==> v.id in g.listeners && g.listeners[v.id] == v.listener
  }

  ghost predicate ListsMembers(s: seq<MemberView>, g: Graph, p: Id) {
    && NoDuplicates(s)
    && forall v :: v in s <==> MemberKey(p, v.addr, v.port) in g.members && g.members[MemberKey(p, v.addr, v.port)] == v.id
  }

  class Cloud {
    var g: Graph
    var status: Status
    ghost var log: seq<Entry>
    /** The graph the log starts from. */
    ghost var start: Graph
    /** The log as each call of EnsureLoadBalancer found it. */
    ghost var starts: seq<seq<Entry>>
    ghost var faults: nat

    ghost predicate Sound() reads this {
      Consistent(g) && Closed(g) && AllClosed(log) && Recorded(start, log, g)
    }

    ghost predicate Quiet() reads this {
      status.Active? && AllActive(log)
    }

    /** One mutating API call. */
    method Issue(op: Op) returns (r: Reply)
      requires Sound()
      requires Accepts(g, op) && Present(g, op) ==> Closed(Apply(g, op))
      modifies this`g, this`status, this`log, this`faults
      ensures Sound()
      ensures r.Done? ==> Accepts(old(g), op) && Present(old(g), op) && g == Apply(old(g), op) && r.id == old(g).next
      ensures r.Done? ==> log == old(log) + [Entry(op, old(status), g)] && status.Pending? && faults == old(faults)
      ensures !r.Done? ==> g == old(g) && log == old(log) && status == old(status)
      ensures r.NotFound? ==> !Present(g, op) && faults == old(faults)
      ensures r.Conflict? ==> !Accepts(g, op) && faults == old(faults)
      ensures r.Fault? ==> faults > old(faults)
    {
      hide Consistent, Recorded, Closed, Apply, Present, Accepts;
      var up: bool := *;
      if !up {
        faults := faults + 1;
        return Fault;
      }
      if !Present(g, op) {
        return NotFound;
      }
      if !Accepts(g, op) {
        return Conflict;
      }
      ApplyConsistent(g, op);
      RecordedNext(start, log, g, Entry(op, status, Apply(g, op)));
      r := Done(g.next);
      log := log + [Entry(op, status, Apply(g, op))];
      g := Apply(g, op);
      status := Pending;
    }

    /** Polls until ACTIVE; an ERROR status, a failed poll or too many polls give up. */
    method WaitActive() returns (ok: bool)
      modifies this`status, this`faults
      ensures ok ==> status.Active? && faults == old(faults)
      ensures !ok ==> faults > old(faults)
    {
      for step := 0 to ACTIVE_STEPS
        invariant faults == old(faults)
      {
        var answered: bool := *;
        if !answered {
          faults := faults + 1;
          return false;
        }
        status := *;
        if status.Active? {
          return true;
        }
        if status.Error? {
          faults := faults + 1;
          return false;
        }
      }
      faults := faults + 1;
      return false;
    }

    /** A mutation and the wait that follows it everywhere. A delete or update that finds
        nothing is waited for as well. */
    method Do(op: Op) returns (r: Reply)
      requires Sound()
      requires Accepts(g, op) && Present(g, op) ==> Closed(Apply(g, op))
      modifies this`g, this`status, this`log, this`faults
      ensures Sound()
      ensures r.Done? ==> Accepts(old(g), op) && Present(old(g), op) && g == Apply(old(g), op) && r.id == old(g).next
      ensures r.Done? ==> log == old(log) + [Entry(op, old(status), g)] && faults == old(faults)
      ensures r.NotFound? ==> !Present(g, op)
      ensures r.Conflict? ==> !Accepts(g, op)
      ensures r.NotFound? || r.Conflict? ==> g == old(g) && log == old(log) && faults == old(faults)
      ensures r.Fault? ==> faults > old(faults)
      ensures r.Fault? ==>
                || (g == old(g) && log == old(log))
                || (Accepts(old(g), op) && g == Apply(old(g), op) && log == old(log) + [Entry(op, old(status), g)])
      ensures old(Quiet()) ==> AllActive(log) && (r.Done? || r.NotFound? ==> Quiet())
    {
      hide Consistent, Recorded, AllClosed, Closed, Apply, Present, Accepts;
      r := Issue(op);
      if r.Done? || r.NotFound? {
        var ok := WaitActive();
        if !ok {
          r := Fault;
        }
      }
    }

    /** Polls until the load balancer is gone. */
    method WaitDeleted() returns (ok: bool)
      modifies this`faults
      ensures ok ==> !g.up && faults == old(faults)
      ensures !ok && !g.up ==> faults > old(faults)
    {
      for step := 0 to DELETE_STEPS
        invariant faults == old(faults)
        invariant step > 0 ==> g.up
      {
        var answered: bool := *;
        if !answered {
          faults := faults + 1;
          return false;
        }
        if !g.up {
          return true;
        }
      }
      return false;
    }

    method LookupLb() returns (ok: bool, found: bool)
      modifies this`faults
      ensures ok ==> found == g.up && faults == old(faults)
      ensures !ok ==> faults > old(faults)
    {
      ok, found := *, g.up;
      if !ok {
        faults := faults + 1;
      }
    }

    method ListListeners() returns (ok: bool, a: array<ListenerView>)
      modifies this`faults
      ensures fresh(a)
      ensures ok ==> ListsListeners(a[..], g) && faults == old(faults)
      ensures !ok ==> faults > old(faults)
    {
      ok := *;
      if !ok {
        faults := faults + 1;
        a := new ListenerView[0];
        return;
      }
      var q := Enumerate(set l | l in g.listeners :: ListenerView(l, g.listeners[l]));
      a := new ListenerView[|q|](i requires 0 <= i < |q| => q[i]);
      assert a[..] == q;
    }

    method ListMembers(p: Id) returns (ok: bool, a: array<MemberView>)
      modifies this`faults
      ensures fresh(a)
      ensures ok ==> ListsMembers(a[..], g, p) && faults == old(faults)
      ensures !ok ==> faults > old(faults)
    {
      ok := *;
      if !ok {
        faults := faults + 1;
        a := new MemberView[0];
        return;
      }
      var q := Enumerate(set k | k in g.members && k.pool == p :: MemberView(g.members[k], k.addr, k.port));
      a := new MemberView[|q|](i requires 0 <= i < |q| => q[i]);
      assert a[..] == q;
    }

    /** The pools of the load balancer that name the listener: there should be one. */
    method PoolOfListener(l: Id) returns (r: PoolReply)
      modifies this`faults
      ensures r.Found? ==> PoolsOf(g, l) == {r.id} && r.monitor == g.pools[r.id].monitor
      ensures r.NoPool? ==> PoolsOf(g, l) == {}
      ensures r.Multiple? ==> |PoolsOf(g, l)| > 1
      ensures r.PoolFault? <==> faults > old(faults)
      ensures !r.PoolFault? ==> faults == old(faults)
    {
      var ok: bool := *;
      if !ok {
        faults := faults + 1;
        return PoolFault;
      }
      var q := Enumerate(g.pools.Keys);
      var mine: set<Id> := {};
      for i := 0 to |q|
        invariant mine == set p | p in q[..i] && g.pools[p].listener == l
      {
        assert q[..i + 1] == q[..i] + [q[i]];
        if g.pools[q[i]].listener == l {
          mine := mine + {q[i]};
        }
      }
      assert q[..|q|] == q;
      assert mine == PoolsOf(g, l);
      if |mine| == 0 {
        return NoPool;
      }
      if |mine| > 1 {
        return Multiple;
      }
      var p :| p in mine;
      assert mine == {p} by {
        assert |mine - {p}| == 0;
      }
      return Found(p, g.pools[p].monitor);
    }
  }
}
