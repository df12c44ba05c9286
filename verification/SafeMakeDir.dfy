/** Creating a directory below a base: the existing part of its path is found and reopened
    without links, and the rest is made one directory at a time. */
module SafeMakeDir {
  import opened Common
  import opened Paths
  import opened SafeOpen

  // ---- findExistingPrefix ----

  /** Follows the names from the base, open as `fd`, until one does not exist. The descriptor
      left in `fd'` is closed by the caller's deferred call. */
  method Probe(k: Kernel, base: Path, dirs: seq<string>, fd: int) returns (ok: bool, n: nat, fd': int, current: Path, ghost w: Trail)
    requires k.Valid() && fd in k.fds && k.history != [] && Lookup(k.history[|k.history| - 1], Follow, base) == Some(k.fds[fd])
    modifies k`fds, k`history, k`faults
    ensures k.Valid() && old(k.history) <= k.history && k.faults >= old(k.faults)
    ensures k.fds - {fd'} == old(k.fds) - {fd}
    ensures if ok then n <= |dirs| else k.faults > old(k.faults)
    ensures ok ==>
              && Clean(current) == JoinAll(base, dirs[..n]) && Walk(k.history, Follow, base, dirs[..n], w)
              && (n < |dirs| ==> Blocked(k.history, Follow, base, dirs, w))
  {
    hide Walk, Blocked, JoinAll, Clean;
    fd', current, n := fd, base, 0;
    w := Trail(|k.history| - 1, [k.fds[fd]], []);
    WalkStart(k.history, Follow, base, k.fds[fd]);
    JoinNothing(base);
    assert dirs[..0] == [];
    while n < |dirs|
      invariant k.Valid() && old(k.history) <= k.history && k.faults >= old(k.faults)
      invariant n <= |dirs| && |w.chain| == n + 1 && Clean(current) == JoinAll(base, dirs[..n])
      invariant Walk(k.history, Follow, base, dirs[..n], w)
      invariant fd' !in old(k.fds) - {fd} && k.fds == (old(k.fds) - {fd})[fd' := w.chain[n]]
    {
      ghost var h := k.history;
      var child, seen := k.OpenAt(fd', dirs[n], Follow);
      if child.NotExist? {
        WalkStops(h, k.history, Follow, base, dirs, w, n);
        WalkOn(h, k.history, Follow, base, dirs[..n], w);
        return true, n, fd', current, w;
      }
      if child.OpenError? {
        return false, n, fd', current, w;
      }
      ghost var next := k.fds[child.fd];
      var _ := k.Close(fd');
      fd' := child.fd;
      WalkStep(h, k.history, Follow, base, dirs, w, n, next);
      w := Trail(w.start, w.chain + [next], w.times + [|h|]);
      JoinNext(base, current, dirs, n);
      current := JoinAll(current, [dirs[n]]);
      n := n + 1;
    }
    ok := true;
  }

  lemma JoinNext(base: Path, current: Path, dirs: seq<string>, n: nat)
    requires n < |dirs| && Clean(current) == JoinAll(base, dirs[..n])
    ensures Clean(JoinAll(current, [dirs[n]])) == JoinAll(base, dirs[..n + 1])
  {
    hide PushAll;
    JoinCleaned(current, [dirs[n]]);
    JoinTwice(base, dirs[..n], [dirs[n]]);
    assert dirs[..n] + [dirs[n]] == dirs[..n + 1];
    CleanTwice(Path(base.rooted, base.segs + dirs[..n + 1]));
  }

  /** The part of a path that exists and the names that do not yet: some prefix of the names
      led somewhere, links followed, and the next name led nowhere when it was tried. Put
      together again they are the path. No descriptor is kept. */
  method FindExistingPrefix(k: Kernel, base: Path, pathname: Path) returns (r: Option<(Path, seq<string>)>, ghost w: Trail)
    requires k.Valid()
    modifies k`fds, k`history, k`faults
    ensures k.Valid() && old(k.history) <= k.history && k.faults >= old(k.faults) && k.fds == old(k.fds)
    ensures r.Some? ==>
              && Rel(base, pathname).Some?
              && var dirs, rest := Rel(base, pathname).value, r.value.1;
              && |rest| <= |dirs| && rest == dirs[|dirs| - |rest|..]
              && Walk(k.history, Follow, base, dirs[..|dirs| - |rest|], w)
              && (rest != [] ==> Blocked(k.history, Follow, base, dirs, w))
              && (if rest == [] then r.value.0 == pathname else Clean(r.value.0) == JoinAll(base, dirs[..|dirs| - |rest|]))
    ensures r.Some? && PathWithinBase(pathname, base) ==> JoinAll(r.value.0, r.value.1) == Clean(pathname)
    ensures r.None? && k.faults == old(k.faults) && Rel(base, pathname).Some? ==>
              |k.history| > |old(k.history)| && NoBase(k.history[|old(k.history)|], Follow, base)
  {
    hide Walk, Blocked, JoinAll, Clean, Rel, PathWithinBase;
    w := Trail(0, [], []);
    var rel := Rel(base, pathname);
    if rel.None? {
      return None, w;
    }
    var dirs := rel.value;
    var o, seen := k.Open(base, Follow);
    if !o.Opened? {
      return None, w;
    }
    var ok, n, fd, current;
    ok, n, fd, current, w := Probe(k, base, dirs, o.fd);
    ghost var h := k.history;
    var _ := k.Close(fd);
    if !ok {
      return None, w;
    }
    WalkOn(h, k.history, Follow, base, dirs[..n], w);
    if n < |dirs| {
      BlockedOn(h, k.history, Follow, base, dirs, w);
      Reassembled(base, pathname, dirs, current, n);
      return Some((current, dirs[n..])), w;
    }
    JoinNothing(pathname);
    return Some((pathname, [])), w;
  }

  lemma Reassembled(base: Path, pathname: Path, dirs: seq<string>, current: Path, n: nat)
    requires Rel(base, pathname) == Some(dirs) && n <= |dirs| && Clean(current) == JoinAll(base, dirs[..n])
    ensures PathWithinBase(pathname, base) ==> JoinAll(current, dirs[n..]) == Clean(pathname)
  {
    hide PushAll, Rel;
    if PathWithinBase(pathname, base) {
      JoinCleaned(current, dirs[n..]);
      JoinTwice(base, dirs[..n], dirs[n..]);
      assert dirs[..n] + dirs[n..] == dirs;
      RelRejoins(base, pathname);
    }
  }

  // ---- doSafeMakeDir ----

  /** The directories to make, outermost first, as the paths handed to mkdirat. */
  function PathsBelow(full: Path, names: seq<string>): seq<Path> {
    if names == [] then [] else PathsBelow(full, names[..|names| - 1]) + [JoinAll(full, names)]
  }

  lemma {:induction false} PathsBelowSpelledOut(full: Path, names: seq<string>, i: nat)
    ensures |PathsBelow(full, names)| == |names|
    ensures i < |names| ==> PathsBelow(full, names)[i] == Clean(Path(full.rooted, full.segs + names[..i + 1]))
    decreases |names|
  {
    if names != [] {
      var before := names[..|names| - 1];
      PathsBelowSpelledOut(full, before, i);
      assert i < |before| ==> before[..i + 1] == names[..i + 1];
      assert names[..|names|] == names;
    }
  }

  lemma {:induction false} AllBelowWithin(full: Path, names: seq<string>, base: Path)
    requires PathWithinBase(full, base) && DOTDOT !in names
    ensures forall p :: p in PathsBelow(full, names) ==> PathWithinBase(p, base)
    decreases |names|
  {
    if names != [] {
      AllBelowWithin(full, names[..|names| - 1], base);
      StaysWithin(full, base, names);
    }
  }

  lemma {:induction false} BelowPrefix(full: Path, names: seq<string>, i: nat)
    requires i <= |names|
    ensures PathsBelow(full, names[..i]) <= PathsBelow(full, names)
    decreases |names|
  {
    if i == |names| {
      assert names[..i] == names;
    } else {
      var before := names[..|names| - 1];
      BelowPrefix(full, before, i);
      assert before[..i] == names[..i];
    }
  }

  lemma BelowNext(full: Path, names: seq<string>, i: nat)
    requires i < |names|
    ensures PathsBelow(full, names[..i + 1]) == PathsBelow(full, names[..i]) + [JoinAll(full, names[..i + 1])]
    ensures PathsBelow(full, names[..i]) <= PathsBelow(full, names) && PathsBelow(full, names[..i + 1]) <= PathsBelow(full, names)
    ensures JoinAll(full, names[..i + 1]) == JoinAll(if i == 0 then full else JoinAll(full, names[..i]), [names[i]])
  {
    hide JoinAll;
    assert names[..i + 1][..i] == names[..i];
    BelowPrefix(full, names, i);
    BelowPrefix(full, names, i + 1);
    JoinTwice(full, names[..i], [names[i]]);
    assert names[..i] + [names[i]] == names[..i + 1];
    assert i == 0 ==> names[..i + 1] == [names[0]];
  }

  /** Every directory was made where its path led at that moment. */
  ghost predicate Landed(history: seq<Tree>, ms: seq<Made>) {
    forall i :: 0 <= i < |ms| ==> LandedAt(history, ms[i])
  }

  ghost predicate LandedAt(history: seq<Tree>, m: Made) {
    m.at < |history| && Receiver(history[m.at], m.dir, m.path) == Some(m.into)
  }

  /** The directories were handed over with the descriptors of a walk from position `n` on, each
      between the steps to its directory and out of it. */
  ghost predicate OnTheWalk(ms: seq<Made>, w: Trail, n: nat) {
    forall i :: 0 <= i < |ms| ==>
      && n + i < |w.chain| && ms[i].dir == w.chain[n + i]
      && (0 < n + i <= |w.times| ==> w.times[n + i - 1] < ms[i].at)
      && (n + i < |w.times| ==> ms[i].at < w.times[n + i])
  }

  function Handed(ms: seq<Made>): (r: seq<Path>)
    ensures |r| == |ms| && forall i :: 0 <= i < |r| ==> r[i] == ms[i].path
  {
    if ms == [] then [] else Handed(ms[..|ms| - 1]) + [ms[|ms| - 1].path]
  }

  lemma HandedNext(ms: seq<Made>, m: Made)
    ensures Handed(ms + [m]) == Handed(ms) + [m.path]
  {
    assert (ms + [m])[..|ms|] == ms;
  }

  lemma LandedOn(h: seq<Tree>, h': seq<Tree>, ms: seq<Made>)
    requires Landed(h, ms) && h <= h'
    ensures Landed(h', ms)
  {
    hide Receiver;
    forall i | 0 <= i < |ms|
      ensures LandedAt(h', ms[i])
    {
      assert LandedAt(h, ms[i]);
    }
  }

  /** A directory was made in the directory of the descriptor if and only if its parent path,
      links followed, led there at that moment. */
  lemma MadeInPlace(history: seq<Tree>, ms: seq<Made>, i: nat)
    requires Landed(history, ms) && i < |ms|
    ensures ms[i].at < |history|
    ensures ms[i].into == ms[i].dir <==> Receiver(history[ms[i].at], ms[i].dir, ms[i].path) == Some(ms[i].dir)
    ensures ms[i].path.rooted && ms[i].path.segs != [] ==>
              (ms[i].into == ms[i].dir <==>
                 Lookup(history[ms[i].at], Follow, Path(true, ms[i].path.segs[..|ms[i].path.segs| - 1])) == Some(ms[i].dir))
  {
    assert LandedAt(history, ms[i]);
  }

  /** It need not: when `/b/s`, once a directory, has become a link to a directory elsewhere,
      the path `/b/s/d` is still within `/b`, but the directory is made elsewhere. */
  lemma MadeElsewhereExample(b: Inode, s: Inode, elsewhere: Inode)
    requires s != elsewhere
    ensures var base, parent, path := Path(true, ["b"]), Path(true, ["b", "s"]), Path(true, ["b", "s", "d"]);
            var before := Tree(map[(b, "s") := s], map[(b, "s") := s], map[base := b], map[parent := s], map[]);
            var after := Tree(map[], map[(b, "s") := elsewhere], map[base := b], map[parent := elsewhere], map[]);
            && PathWithinBase(path, base) && Entry(before, NoFollow, b, "s") == Some(s)
            && Receiver(before, s, path) == Some(s) && Receiver(after, s, path) == Some(elsewhere)
  {
    var base, parent, path := Path(true, ["b"]), Path(true, ["b", "s"]), Path(true, ["b", "s", "d"]);
    assert path.segs[..2] == parent.segs;
    PushAllRebuilds(true, base.segs, 0);
    PushAllRebuilds(true, path.segs, 0);
    assert base.segs[..0] == [] && base.segs[0..] == base.segs && path.segs[..0] == [] && path.segs[0..] == path.segs;
    WithinIsExtends(path, base);
  }

  /** Makes one directory and enters it; what it enters is no link. */
  method MakeOne(k: Kernel, current: Path, name: string, parent: int)
    returns (ok: bool, parent': int, ghost next: Inode, ghost at: nat, ghost ms: seq<Made>)
    requires k.Valid() && parent in k.fds
    modifies k`fds, k`history, k`faults, k`made
    ensures k.Valid() && old(k.history) <= k.history
    ensures k.made == old(k.made) + ms && |ms| <= 1 && Landed(k.history, ms)
    ensures forall m :: m in ms ==> m.path == current && m.dir == old(k.fds)[parent] && m.at >= |old(k.history)|
    ensures ok ==>
              && |ms| == 1 && ms[0].at < at
              && parent' !in old(k.fds) && k.fds == (old(k.fds) - {parent})[parent' := next] && !next.kind.Symlink?
              && |old(k.history)| <= at < |k.history| && Entry(k.history[at], NoFollow, old(k.fds)[parent], name) == Some(next)
    ensures !ok ==> parent' == parent && k.fds == old(k.fds)
  {
    hide Receiver;
    parent', next, at, ms := parent, k.fds[parent], 0, [];
    ghost var m;
    ok, m := k.MkdirAt(parent, current);
    if ok {
      ms := [m];
      ghost var h := k.history;
      at := |k.history|;
      var child, seen := k.OpenAt(parent, name, NoFollow);
      ok := child.Opened?;
      if ok {
        next := k.fds[child.fd];
        var _ := k.Close(parent);
        parent' := child.fd;
      }
      LandedOn(h, k.history, ms);
    }
  }

  lemma OneMoreMade(h: seq<Tree>, h': seq<Tree>, ms: seq<Made>, more: seq<Made>)
    requires Landed(h, ms) && h <= h' && Landed(h', more)
    ensures Landed(h', ms + more)
  {
    hide LandedAt;
    LandedOn(h, h', ms);
  }

  lemma FurtherOn(ms: seq<Made>, w: Trail, n: nat, m: Made, h: nat)
    requires OnTheWalk(ms, w, n) && |w.times| == n + |ms| && |w.chain| == |w.times| + 1
    requires m.dir == w.chain[n + |ms|] && m.at >= h && forall i :: 0 <= i < |w.times| ==> w.times[i] < h
    ensures OnTheWalk(ms + [m], w, n)
    ensures forall next, at :: at > m.at ==> OnTheWalk(ms + [m], Trail(w.start, w.chain + [next], w.times + [at]), n)
  {
  }

  /** Makes and enters the remaining directories. `segs` is how `parent` was reached. Each
      directory entered is an entry of the one before and no link. */
  method MakeAll(k: Kernel, base: Path, full: Path, ghost segs: seq<string>, names: seq<string>, parent: int, ghost w: Trail)
    returns (ok: bool, parent': int, ghost w': Trail, ghost ms: seq<Made>)
    requires k.Valid() && parent in k.fds && Walk(k.history, NoFollow, base, segs, w) && k.fds[parent] == w.chain[|segs|]
    modifies k`fds, k`history, k`faults, k`made
    ensures k.Valid() && old(k.history) <= k.history
    ensures parent' in k.fds && k.fds - {parent'} == old(k.fds) - {parent}
    ensures k.made == old(k.made) + ms && Handed(ms) <= PathsBelow(full, names) && Landed(k.history, ms) && OnTheWalk(ms, w', |segs|)
    ensures ok ==>
              && Handed(ms) == PathsBelow(full, names)
              && Walk(k.history, NoFollow, base, segs + names, w') && k.fds[parent'] == w'.chain[|segs + names|]
  {
    hide Walk, JoinAll, Entry, PathsBelow, Landed, OnTheWalk, Handed;
    parent', w', ok, ms := parent, w, true, [];
    var current := full;
    ghost var all := segs + names;
    ghost var m := |segs|;
    assert all[..m] == segs;
    WalkLength(k.history, NoFollow, base, segs, w);
    BelowPrefix(full, names, 0);
    NothingBelow(full, names[..0]);
    NothingMade(k.history, w, m);
    for i := 0 to |names|
      invariant k.Valid() && old(k.history) <= k.history && ok
      invariant |w'.chain| == m + i + 1 && parent' !in old(k.fds) - {parent} && k.fds == (old(k.fds) - {parent})[parent' := w'.chain[m + i]]
      invariant Walk(k.history, NoFollow, base, all[..m + i], w')
      invariant k.made == old(k.made) + ms && |ms| == i && Handed(ms) == PathsBelow(full, names[..i])
      invariant Landed(k.history, ms) && OnTheWalk(ms, w', m)
      invariant current == if i == 0 then full else JoinAll(full, names[..i])
    {
      BelowNext(full, names, i);
      ghost var h := k.history;
      WalkLength(h, NoFollow, base, all[..m + i], w');
      WalkPast(h, NoFollow, base, all[..m + i], w');
      ghost var next, at, one;
      current := JoinAll(current, [names[i]]);
      ok, parent', next, at, one := MakeOne(k, current, names[i], parent');
      OneMoreMade(h, k.history, ms, one);
      if |one| == 1 {
        assert one == [one[0]] && one[0] in one;
        FurtherOn(ms, w', m, one[0], |h|);
        HandedNext(ms, one[0]);
        ms := ms + [one[0]];
      }
      if !ok {
        assert one == [] ==> ms + one == ms;
        return;
      }
      WalkOn(h, k.history[..at], NoFollow, base, all[..m + i], w');
      WalkStep(k.history[..at], k.history, NoFollow, base, all, w', m + i, next);
      w' := Trail(w'.start, w'.chain + [next], w'.times + [at]);
    }
    assert all[..|all|] == all && names[..|names|] == names;
  }

  lemma NothingMade(h: seq<Tree>, w: Trail, n: nat)
    ensures Landed(h, []) && OnTheWalk([], w, n) && Handed([]) == []
  {
  }

  lemma WalkPast(h: seq<Tree>, mode: Mode, base: Path, segs: seq<string>, w: Trail)
    requires Walk(h, mode, base, segs, w)
    ensures forall i :: 0 <= i < |w.times| ==> w.times[i] < |h|
  {
  }

  lemma NothingBelow(full: Path, names: seq<string>)
    requires names == []
    ensures PathsBelow(full, names) == []
  {
  }

  lemma WalkLength(h: seq<Tree>, mode: Mode, base: Path, segs: seq<string>, w: Trail)
    requires Walk(h, mode, base, segs, w)
    ensures |w.chain| == |segs| + 1 && |w.times| == |segs|
  {
  }

  datatype Outcome = Existed | Created | Failed

  /** The rest of the names lies at the end of the relative path, so it has no step up. */
  lemma RestIsPlain(base: Path, pathname: Path, rest: seq<string>)
    requires PathWithinBase(pathname, base) && var dirs := Rel(base, pathname).value; |rest| <= |dirs| && rest == dirs[|dirs| - |rest|..]
    ensures DOTDOT !in rest
  {
    WithinHasNoStepUp(base, pathname);
  }

  lemma PrefixWithin(ms: seq<Made>, all: seq<Path>, base: Path)
    requires Handed(ms) <= all && forall p :: p in all ==> PathWithinBase(p, base)
    ensures forall m :: m in ms ==> PathWithinBase(m.path, base)
  {
    hide PathWithinBase;
    forall m | m in ms
      ensures PathWithinBase(m.path, base)
    {
      var i :| 0 <= i < |ms| && ms[i] == m;
      assert all[i] == Handed(ms)[i] && all[i] in all;
    }
  }

  /** Makes the directory unless it is there. Every path handed to mkdirat is within the base,
      every directory is made where its path leads at that moment, and no descriptor is kept.
      On success the mode is set on the inode at the end of a link-free walk from the base:
      first the existing part, as resolved, then the directories made, each handed over with
      the descriptor of the walk's directory at that point. */
  method DoSafeMakeDir(k: Kernel, pathname: Path, base: Path)
    returns (r: Outcome, ghost full: Path, ghost rest: seq<string>, ghost w: Trail, ghost ms: seq<Made>)
    requires k.Valid()
    modifies k
    ensures k.Valid() && old(k.history) <= k.history && k.fds == old(k.fds)
    ensures k.made == old(k.made) + ms && Landed(k.history, ms) && forall m :: m in ms ==> PathWithinBase(m.path, base)
    ensures !r.Failed? ==> PathWithinBase(pathname, base)
    ensures r.Existed? ==>
              && ms == [] && k.chmods == old(k.chmods) && |k.history| > |old(k.history)|
              && var i := Lookup(k.history[|old(k.history)|], Follow, pathname); i.Some? && i.value.kind.Directory?
    ensures r.Created? ==>
              && PathWithinBase(full, base) && DOTDOT !in rest
              && (var dirs := Rel(base, pathname).value; |rest| <= |dirs| && rest == dirs[|dirs| - |rest|..])
              && Handed(ms) == PathsBelow(full, rest)
              && Walk(k.history, NoFollow, Clean(base), Rel(base, full).value + rest, w)
              && OnTheWalk(ms, w, |Rel(base, full).value|)
              && k.chmods == old(k.chmods) + [w.chain[|w.times|]]
    ensures r.Failed? ==> k.chmods == old(k.chmods)
  {
    hide PathWithinBase, Rel, Clean, JoinAll, Walk, Blocked, PathsBelow, Landed, OnTheWalk, Handed;
    r, full, rest, w, ms := Failed, pathname, [], Trail(0, [], []), [];
    NothingMade(k.history, w, 0);
    NothingYet();
    if !PathWithinBase(pathname, base) {
      return;
    }
    var s := k.Stat(pathname);
    if s.Some? {
      r := if s.value then Existed else Failed;
      return;
    }
    var found, seen := FindExistingPrefix(k, base, pathname);
    if found.None? {
      return;
    }
    var resolved := k.EvalSymlinks(found.value.0);
    if resolved.None? || !PathWithinBase(resolved.value, base) {
      return;
    }
    var names := found.value.1;
    full, rest := resolved.value, names;
    RestIsPlain(base, pathname, names);
    AllBelowWithin(full, names, base);
    var fd;
    fd, w := DoSafeOpen(k, resolved.value, base);
    if fd.None? {
      return;
    }
    WithinHasNoStepUp(base, full);
    WalkLength(k.history, NoFollow, Clean(base), Rel(base, full).value, w);
    var ok, parent;
    ok, parent, w, ms := MakeAll(k, Clean(base), resolved.value, Rel(base, full).value, names, fd.value, w);
    PrefixWithin(ms, PathsBelow(full, names), base);
    ghost var h := k.history;
    if ok {
      ok := k.Fchmod(parent);
    }
    var _ := k.Close(parent);
    LandedOn(h, k.history, ms);
    if ok {
      WalkOn(h, k.history, NoFollow, Clean(base), Rel(base, full).value + rest, w);
      WalkLength(h, NoFollow, Clean(base), Rel(base, full).value + rest, w);
      r := Created;
    }
  }

  lemma NothingYet()
    ensures forall h: seq<Tree> :: Landed(h, [])
  {
  }
}
