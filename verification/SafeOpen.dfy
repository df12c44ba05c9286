/** Walking paths with openat while the directory tree changes underneath. Before every system
    call the environment may replace the whole tree; the ghost history keeps the tree each call
    saw. A failure that no tree explains counts as a fault. Closing a descriptor releases it
    whether or not the call reports an error. */
module SafeOpen {
  import opened Common
  import opened Paths

  datatype Kind = Directory | Symlink | Other
  datatype Inode = Inode(id: nat, kind: Kind)

  /** What a final link does to an open: it is followed, refused, or opened itself. */
  datatype Mode = Follow | NoFollow | LinkItself

  /** Directory entries as they are and what following them leads to, the same for whole
      paths, and where relative paths lead from a directory, links followed. */
  datatype Tree = Tree(entries: map<(Inode, string), Inode>, followed: map<(Inode, string), Inode>,
                       paths: map<Path, Inode>, followedPaths: map<Path, Inode>, relative: map<(Inode, seq<string>), Inode>)

  /** A directory made: the path handed over, the directory of the descriptor handed over, the
      directory that got the entry, and when. */
  datatype Made = Made(path: Path, dir: Inode, into: Inode, at: nat)

  datatype OpenResult = Opened(fd: int) | NotExist | OpenError

  /** What opening a name in a directory leads to; "." is the directory itself. */
  function Entry(t: Tree, mode: Mode, dir: Inode, name: string): Option<Inode> {
    var m := if mode.Follow? then t.followed else t.entries;
    if name == DOT then Some(dir) else if (dir, name) in m then Some(m[(dir, name)]) else None
  }

  function Lookup(t: Tree, mode: Mode, p: Path): Option<Inode> {
    var m := if mode.Follow? then t.followedPaths else t.paths;
    if p in m then Some(m[p]) else None
  }

  /** The directory in which mkdirat makes the last name of a path. From the root on the
      descriptor does not matter. */
  function Receiver(t: Tree, dir: Inode, p: Path): Option<Inode> {
    if p.segs == [] then None
    else
      var parent := p.segs[..|p.segs| - 1];
      if p.rooted then Lookup(t, Follow, Path(true, parent))
      else if parent == [] then Some(dir)
      else if (dir, parent) in t.relative then Some(t.relative[(dir, parent)])
      else None
  }

  predicate Refused(mode: Mode, i: Inode) {
    mode.NoFollow? && i.kind.Symlink?
  }

  lemma {:induction false} Bounded(s: set<int>) returns (m: int)
    ensures m >= 0 && forall x :: x in s ==> x < m
    decreases |s|
  {
    m := 0;
    if |s| > 0 {
      var y := Pick(s);
      m := Bounded(s - {y});
      assert forall x :: x in s ==> x == y || x in s - {y};
      m := if m <= y then y + 1 else m;
    }
  }

  class Kernel {
    var fds: map<int, Inode>
    /** The calls of mkdirat that succeeded. */
    ghost var made: seq<Made>
    /** What the fchmod calls that succeeded were applied to. */
    var chmods: seq<Inode>
    ghost var history: seq<Tree>
    ghost var faults: nat

    ghost predicate Valid()
      reads this
    {
      forall fd :: fd in fds ==> fd >= 0
    }

    /** A system call sees some tree. */
    method Observe() returns (t: Tree)
      modifies this`history
      ensures history == old(history) + [t]
    {
      t := *;
      history := history + [t];
    }

    /** Some outcomes have no reason in the tree. */
    method Fault() returns (fault: bool)
      modifies this`faults
      ensures faults == old(faults) + (if fault then 1 else 0)
    {
      fault := *;
      if fault {
        faults := faults + 1;
      }
    }

    method Allocate(i: Inode) returns (fd: int)
      modifies this`fds
      ensures fd >= 0 && fd !in old(fds) && fds == old(fds)[fd := i]
    {
      ghost var free := Bounded(fds.Keys);
      assert free !in fds.Keys;
      fd :| fd >= 0 && fd !in fds.Keys;
      fds := fds[fd := i];
    }

    /** Opens what a call found, if anything. */
    method Finish(mode: Mode, i: Option<Inode>) returns (r: OpenResult)
      modifies this`fds, this`faults
      ensures r.Opened? ==>
                && i.Some? && !Refused(mode, i.value)
                && r.fd >= 0 && r.fd !in old(fds) && fds == old(fds)[r.fd := i.value] && faults == old(faults)
      ensures r.NotExist? ==> i.None? && fds == old(fds) && faults == old(faults)
      ensures r.OpenError? ==> fds == old(fds) && (faults > old(faults) || (faults == old(faults) && i.Some? && Refused(mode, i.value)))
    {
      var fault := Fault();
      if fault {
        return OpenError;
      }
      if i.None? {
        return NotExist;
      }
      if Refused(mode, i.value) {
        return OpenError;
      }
      var fd := Allocate(i.value);
      return Opened(fd);
    }

    method Open(p: Path, mode: Mode) returns (r: OpenResult, ghost t: Tree)
      requires Valid()
      modifies this`fds, this`history, this`faults
      ensures Valid() && history == old(history) + [t] && faults >= old(faults)
      ensures r.Opened? ==>
                && Lookup(t, mode, p).Some? && !Refused(mode, Lookup(t, mode, p).value)
                && r.fd >= 0 && r.fd !in old(fds) && fds == old(fds)[r.fd := Lookup(t, mode, p).value]
      ensures !r.Opened? ==> fds == old(fds)
      ensures !r.Opened? && faults == old(faults) ==> Lookup(t, mode, p).None? || Refused(mode, Lookup(t, mode, p).value)
    {
      var seen := Observe();
      r := Finish(mode, Lookup(seen, mode, p));
      t := seen;
    }

    method OpenAt(dir: int, name: string, mode: Mode) returns (r: OpenResult, ghost t: Tree)
      requires Valid() && dir in fds
      modifies this`fds, this`history, this`faults
      ensures Valid() && history == old(history) + [t] && faults >= old(faults)
      ensures r.Opened? ==>
                && Entry(t, mode, old(fds)[dir], name).Some? && !Refused(mode, Entry(t, mode, old(fds)[dir], name).value)
                && r.fd >= 0 && r.fd !in old(fds) && fds == old(fds)[r.fd := Entry(t, mode, old(fds)[dir], name).value]
      ensures !r.Opened? ==> fds == old(fds)
      ensures r.NotExist? ==> Entry(t, mode, old(fds)[dir], name).None?
      ensures r.OpenError? && faults == old(faults) ==>
                Entry(t, mode, old(fds)[dir], name).Some? && Refused(mode, Entry(t, mode, old(fds)[dir], name).value)
    {
      var seen := Observe();
      r := Finish(mode, Entry(seen, mode, fds[dir], name));
      t := seen;
    }

    method Fstat(fd: int) returns (r: Option<Kind>)
      requires fd in fds
      modifies this`history, this`faults
      ensures |history| == |old(history)| + 1 && old(history) <= history
      ensures if r.Some? then r.value == fds[fd].kind && faults == old(faults) else faults > old(faults)
    {
      var _ := Observe();
      var fault := Fault();
      return if fault then None else Some(fds[fd].kind);
    }

    /** Closing a descriptor that is not open is an error without effect. */
    method Close(fd: int) returns (ok: bool)
      requires Valid()
      modifies this`fds, this`history, this`faults
      ensures Valid() && |history| == |old(history)| + 1 && old(history) <= history
      ensures fds == old(fds) - {fd}
      ensures faults >= old(faults) && (ok <==> faults == old(faults) && fd in old(fds))
    {
      var _ := Observe();
      var fault := Fault();
      ok := !fault && fd in fds;
      fds := fds - {fd};
    }

    /** A call whose refusals this model does not explain. */
    method Attempt() returns (ok: bool)
      modifies this`history
      ensures |history| == |old(history)| + 1 && old(history) <= history
    {
      var _ := Observe();
      ok := *;
    }

    method MkdirAt(dir: int, p: Path) returns (ok: bool, ghost m: Made)
      requires dir in fds
      modifies this`history, this`made
      ensures |history| == |old(history)| + 1 && old(history) <= history
      ensures made == if ok then old(made) + [m] else old(made)
      ensures ok ==>
                && m.path == p && m.dir == fds[dir] && m.at == |old(history)|
                && Receiver(history[m.at], m.dir, p) == Some(m.into)
    {
      var t := Observe();
      ok := *;
      var into := Receiver(t, fds[dir], p);
      ok := ok && into.Some?;
      m := Made(p, fds[dir], if ok then into.value else fds[dir], |history| - 1);
      if ok {
        made := made + [m];
      }
    }

    method Fchmod(fd: int) returns (ok: bool)
      requires fd in fds
      modifies this`history, this`chmods
      ensures |history| == |old(history)| + 1 && old(history) <= history
      ensures chmods == if ok then old(chmods) + [fds[fd]] else old(chmods)
    {
      ok := Attempt();
      if ok {
        chmods := chmods + [fds[fd]];
      }
    }

    /** Whether a path, links followed, is a directory, if it exists at all. */
    method Stat(p: Path) returns (r: Option<bool>)
      modifies this`history
      ensures |history| == |old(history)| + 1 && old(history) <= history
      ensures r == Some(true) ==> Lookup(history[|old(history)|], Follow, p).Some? && Lookup(history[|old(history)|], Follow, p).value.kind.Directory?
    {
      var t := Observe();
      var ok: bool := *;
      var i := Lookup(t, Follow, p);
      return if ok && i.Some? then Some(i.value.kind.Directory?) else None;
    }

    /** Some path without links, or nothing. */
    method EvalSymlinks(p: Path) returns (r: Option<Path>)
      modifies this`history
      ensures |history| == |old(history)| + 1 && old(history) <= history
    {
      var _ := Observe();
      r := *;
    }
  }

  // ---- walks ----

  /** When the base was found, the inodes passed, and when each step was taken. */
  datatype Trail = Trail(start: nat, chain: seq<Inode>, times: seq<nat>)

  /** `chain[0]` is the base as found at time `start`; each later inode was what its segment
      led to from its predecessor, at a later and later time. Walks that do not follow links
      hold none. */
  ghost predicate Walk(history: seq<Tree>, mode: Mode, base: Path, segs: seq<string>, w: Trail) {
    && |w.chain| == |segs| + 1 && |w.times| == |segs|
    && w.start < |history| && Lookup(history[w.start], mode, base) == Some(w.chain[0])
    && (!mode.Follow? ==> forall i :: 0 <= i < |w.chain| ==> !w.chain[i].kind.Symlink?)
    && (forall i :: 0 <= i < |segs| ==>
          w.start < w.times[i] < |history| && Entry(history[w.times[i]], mode, w.chain[i], segs[i]) == Some(w.chain[i + 1]))
    && (forall i, j :: 0 <= i < j < |segs| ==> w.times[i] < w.times[j])
  }

  /** The walk got as far as `w`, and at some later time the next segment led nowhere, or to a
      link that may not be followed. */
  ghost predicate Blocked(history: seq<Tree>, mode: Mode, base: Path, segs: seq<string>, w: Trail) {
    var n := |w.times|;
    && n < |segs| && Walk(history, mode, base, segs[..n], w)
    && exists t :: w.start < t < |history| && (forall i :: 0 <= i < n ==> w.times[i] < t) && StopsAt(history[t], mode, w.chain[n], segs[n])
  }

  predicate StopsAt(t: Tree, mode: Mode, dir: Inode, name: string) {
    var e := Entry(t, mode, dir, name);
    e.None? || (!mode.Follow? && e.value.kind.Symlink?)
  }

  ghost predicate NoBase(t: Tree, mode: Mode, base: Path) {
    var i := Lookup(t, mode, base);
    i.None? || Refused(mode, i.value)
  }

  lemma WalkStart(h: seq<Tree>, mode: Mode, base: Path, i: Inode)
    requires h != [] && Lookup(h[|h| - 1], mode, base) == Some(i) && (mode.Follow? || !i.kind.Symlink?)
    ensures Walk(h, mode, base, [], Trail(|h| - 1, [i], []))
  {
  }

  lemma WalkOn(h: seq<Tree>, h': seq<Tree>, mode: Mode, base: Path, segs: seq<string>, w: Trail)
    requires Walk(h, mode, base, segs, w) && h <= h'
    ensures Walk(h', mode, base, segs, w)
  {
  }

  lemma WalkStep(h: seq<Tree>, h': seq<Tree>, mode: Mode, base: Path, segs: seq<string>, w: Trail, n: nat, next: Inode)
    requires n < |segs| && Walk(h, mode, base, segs[..n], w) && |h'| > |h| && h <= h'
    requires Entry(h'[|h|], mode, w.chain[n], segs[n]) == Some(next) && (mode.Follow? || !next.kind.Symlink?)
    ensures Walk(h', mode, base, segs[..n + 1], Trail(w.start, w.chain + [next], w.times + [|h|]))
  {
  }

  lemma WalkStops(h: seq<Tree>, h': seq<Tree>, mode: Mode, base: Path, segs: seq<string>, w: Trail, n: nat)
    requires n < |segs| && Walk(h, mode, base, segs[..n], w) && |h'| > |h| && h <= h'
    requires StopsAt(h'[|h|], mode, w.chain[n], segs[n])
    ensures Blocked(h', mode, base, segs, w)
  {
    WalkOn(h, h', mode, base, segs[..n], w);
  }

  lemma BlockedOn(h: seq<Tree>, h': seq<Tree>, mode: Mode, base: Path, segs: seq<string>, w: Trail)
    requires Blocked(h, mode, base, segs, w) && h <= h'
    ensures Blocked(h', mode, base, segs, w)
  {
    var n := |w.times|;
    WalkOn(h, h', mode, base, segs[..n], w);
    var t :| w.start < t < |h| && (forall i :: 0 <= i < n ==> w.times[i] < t) && StopsAt(h[t], mode, w.chain[n], segs[n]);
    assert h'[t] == h[t];
  }

  // ---- doSafeOpen ----

  /** One segment: the base test, openat, fstat, and the swap of descriptors. On failure the
      two descriptors are the ones the deferred closes will see. */
  method FollowSegment(k: Kernel, base: Path, current: Path, seg: string, parent: int)
    returns (ok: bool, parent': int, child: int, current': Path, ghost next: Option<Inode>)
    requires k.Valid() && parent in k.fds
    modifies k`fds, k`history, k`faults
    ensures k.Valid() && old(k.history) <= k.history && k.faults >= old(k.faults) && current' == JoinAll(current, [seg])
    ensures ok ==>
              && PathWithinBase(current', base) && next.Some? && !next.value.kind.Symlink?
              && child == -1 && parent' !in old(k.fds) && k.fds == (old(k.fds) - {parent})[parent' := next.value]
              && |k.history| > |old(k.history)| && Entry(k.history[|old(k.history)|], NoFollow, old(k.fds)[parent], seg) == next
    ensures !ok ==>
              && parent' == parent && (child == -1 || child !in old(k.fds))
              && k.fds - {parent, child} == old(k.fds) - {parent}
    ensures !ok && k.faults == old(k.faults) && PathWithinBase(current', base) ==>
              && |k.history| > |old(k.history)| && Entry(k.history[|old(k.history)|], NoFollow, old(k.fds)[parent], seg) == next
              && (next.None? || next.value.kind.Symlink?)
  {
    hide PathWithinBase, JoinAll;
    parent', child, current', next := parent, -1, JoinAll(current, [seg]), None;
    if !PathWithinBase(current', base) {
      return false, parent', child, current', next;
    }
    var r, seen := k.OpenAt(parent, seg, LinkItself);
    next := Entry(seen, LinkItself, old(k.fds)[parent], seg);
    if !r.Opened? {
      return false, parent', child, current', next;
    }
    child := r.fd;
    var kind := k.Fstat(child);
    if kind.None? || kind.value.Symlink? {
      return false, parent', child, current', next;
    }
    var closed := k.Close(parent);
    if !closed {
      return false, parent', child, current', next;
    }
    return true, child, -1, current', next;
  }

  /** The deferred closes, last deferred first. */
  method CloseDeferred(k: Kernel, parent: int, child: int)
    requires k.Valid()
    modifies k`fds, k`history, k`faults
    ensures k.Valid() && old(k.history) <= k.history && k.faults >= old(k.faults)
    ensures k.fds == old(k.fds) - {parent, child}
  {
    if child != -1 {
      var _ := k.Close(child);
    }
    if parent != -1 {
      var _ := k.Close(parent);
    }
  }

  /** Follows the segments from the base, both already cleaned. */
  method FollowAll(k: Kernel, base: Path, segs: seq<string>, parent: int) returns (ok: bool, parent': int, child: int, ghost w: Trail)
    requires k.Valid() && Clean(base) == base && parent in k.fds && k.history != []
    requires Lookup(k.history[|k.history| - 1], NoFollow, base) == Some(k.fds[parent]) && !k.fds[parent].kind.Symlink?
    modifies k`fds, k`history, k`faults
    ensures k.Valid() && old(k.history) <= k.history && k.faults >= old(k.faults)
    ensures w.start == |old(k.history)| - 1
    ensures ok ==>
              && child == -1 && Walk(k.history, NoFollow, base, segs, w)
              && parent' !in old(k.fds) - {parent} && k.fds == (old(k.fds) - {parent})[parent' := w.chain[|segs|]]
              && forall j :: 0 < j <= |segs| ==> PathWithinBase(JoinAll(base, segs[..j]), base)
    ensures !ok ==>
              && k.fds - {parent', child} == old(k.fds) - {parent}
              && (|| k.faults > old(k.faults)
                  || (exists j :: 0 < j <= |segs| && !PathWithinBase(JoinAll(base, segs[..j]), base))
                  || Blocked(k.history, NoFollow, base, segs, w))
  {
    hide PathWithinBase, Walk, Blocked, JoinAll;
    parent', child, ok := parent, -1, true;
    var current := base;
    w := Trail(|k.history| - 1, [k.fds[parent]], []);
    WalkStart(k.history, NoFollow, base, k.fds[parent]);
    JoinNothing(base);
    assert segs[..0] == [];
    for i := 0 to |segs|
      invariant k.Valid() && old(k.history) <= k.history && k.faults >= old(k.faults)
      invariant child == -1 && ok && w.start == |old(k.history)| - 1
      invariant current == JoinAll(base, segs[..i]) && |w.chain| == i + 1
      invariant Walk(k.history, NoFollow, base, segs[..i], w)
      invariant parent' !in old(k.fds) - {parent} && k.fds == (old(k.fds) - {parent})[parent' := w.chain[i]]
      invariant forall j :: 0 < j <= i ==> PathWithinBase(JoinAll(base, segs[..j]), base)
    {
      ghost var h := k.history;
      ghost var next;
      ok, parent', child, current, next := FollowSegment(k, base, current, segs[i], parent');
      JoinTwice(base, segs[..i], [segs[i]]);
      assert segs[..i] + [segs[i]] == segs[..i + 1];
      if !ok {
        if k.faults == old(k.faults) && PathWithinBase(current, base) {
          WalkStops(h, k.history, NoFollow, base, segs, w, i);
        }
        return;
      }
      WalkStep(h, k.history, NoFollow, base, segs, w, i, next.value);
      w := Trail(w.start, w.chain + [next.value], w.times + [|h|]);
    }
    assert segs[..|segs|] == segs;
  }

  /** Opens a path below the base one link-free step at a time. What it returns was reached
      from the base without leaving it; a failure keeps no descriptor. */
  method DoSafeOpen(k: Kernel, pathname: Path, base: Path) returns (r: Option<int>, ghost w: Trail)
    requires k.Valid()
    modifies k`fds, k`history, k`faults
    ensures k.Valid() && old(k.history) <= k.history && k.faults >= old(k.faults)
    ensures r.Some? ==>
              && PathWithinBase(pathname, base) && w.start == |old(k.history)|
              && Walk(k.history, NoFollow, Clean(base), Rel(base, pathname).value, w) && DOTDOT !in Rel(base, pathname).value
              && r.value !in old(k.fds) && k.fds == old(k.fds)[r.value := w.chain[|w.times|]]
    ensures r.None? ==> k.fds == old(k.fds)
    ensures r.None? && k.faults == old(k.faults) && PathWithinBase(pathname, base) ==>
              && |k.history| > |old(k.history)|
              && (|| NoBase(k.history[|old(k.history)|], NoFollow, Clean(base))
                  || Blocked(k.history, NoFollow, Clean(base), Rel(base, pathname).value, w))
  {
    hide PathWithinBase, Rel, Clean, JoinAll, Blocked;
    w := Trail(0, [], []);
    var p, b := Clean(pathname), Clean(base);
    CleanTwice(pathname);
    CleanTwice(base);
    RelCleaned(base, pathname);
    if PathWithinBase(pathname, base) {
      WithinHasNoStepUp(base, pathname);
    }
    var rel := Rel(b, p);
    if rel.None? {
      return None, w;
    }
    TestedAlongTheWay(base, pathname);
    var o, seen := k.Open(b, NoFollow);
    if !o.Opened? {
      return None, w;
    }
    var ok, parent, child;
    ok, parent, child, w := FollowAll(k, b, rel.value, o.fd);
    if ok {
      r := Some(parent);
    } else {
      ghost var h := k.history;
      CloseDeferred(k, parent, child);
      r := None;
      if Blocked(h, NoFollow, b, rel.value, w) {
        BlockedOn(h, k.history, NoFollow, b, rel.value, w);
      }
    }
  }
}
