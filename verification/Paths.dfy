/** Lexical paths, as Go's path/filepath treats them: cleaning, joining, relative paths, and
    the test that a path lies within a base directory. A path is a list of segments and
    whether it starts at the root; the relative path without segments is ".". */
module Paths {
  import opened Common

  const DOT := "."
  const DOTDOT := ".."

  datatype Path = Path(rooted: bool, segs: seq<string>)

  /** One segment onto a cleaned stack. */
  function Push(rooted: bool, stack: seq<string>, seg: string): seq<string> {
    if seg == "" || seg == DOT then stack
    else if seg == DOTDOT then
      if stack != [] && stack[|stack| - 1] != DOTDOT then stack[..|stack| - 1]
      else if rooted then stack
      else stack + [DOTDOT]
    else stack + [seg]
  }

  function PushAll(rooted: bool, stack: seq<string>, segs: seq<string>): seq<string>
    decreases |segs|
  {
    if segs == [] then stack else Push(rooted, PushAll(rooted, stack, segs[..|segs| - 1]), segs[|segs| - 1])
  }

  function Clean(p: Path): Path {
    Path(p.rooted, PushAll(p.rooted, [], p.segs))
  }

  /** `filepath.Join(p, segs...)`. */
  function JoinAll(p: Path, segs: seq<string>): Path {
    Clean(Path(p.rooted, p.segs + segs))
  }

  /** No empty or dot segments; parent segments only in front, and none below the root. */
  ghost predicate IsCleanStack(rooted: bool, s: seq<string>) {
    && (forall i :: 0 <= i < |s| ==> s[i] != "" && s[i] != DOT)
    && (rooted ==> DOTDOT !in s)
    && (forall i, j :: 0 <= i < j < |s| && s[j] == DOTDOT ==> s[i] == DOTDOT)
  }

  lemma PushClean(rooted: bool, s: seq<string>, seg: string)
    requires IsCleanStack(rooted, s)
    ensures IsCleanStack(rooted, Push(rooted, s, seg))
  {
  }

  lemma {:induction false} PushAllClean(rooted: bool, s: seq<string>, segs: seq<string>)
    requires IsCleanStack(rooted, s)
    ensures IsCleanStack(rooted, PushAll(rooted, s, segs))
    decreases |segs|
  {
    if segs != [] {
      PushAllClean(rooted, s, segs[..|segs| - 1]);
      PushClean(rooted, PushAll(rooted, s, segs[..|segs| - 1]), segs[|segs| - 1]);
    }
  }

  lemma CleanIsClean(p: Path)
    ensures IsCleanStack(p.rooted, Clean(p).segs)
  {
    PushAllClean(p.rooted, [], p.segs);
  }

  lemma {:induction false} PushAllAppend(rooted: bool, s: seq<string>, a: seq<string>, b: seq<string>)
    ensures PushAll(rooted, s, a + b) == PushAll(rooted, PushAll(rooted, s, a), b)
    decreases |b|
  {
    if b == [] {
      assert a + b == a;
    } else {
      PushAllAppend(rooted, s, a, b[..|b| - 1]);
      assert (a + b)[..|a + b| - 1] == a + b[..|b| - 1];
    }
  }

  /** Pushing the rest of a clean stack onto its beginning rebuilds it. */
  lemma {:induction false} PushAllRebuilds(rooted: bool, t: seq<string>, k: nat)
    requires IsCleanStack(rooted, t) && k <= |t|
    ensures PushAll(rooted, t[..k], t[k..]) == t
    decreases |t| - k
  {
    if k == |t| {
      assert t[..k] == t && t[k..] == [];
    } else {
      var n := |t| - 1;
      var u := t[..n];
      assert IsCleanStack(rooted, u);
      PushAllRebuilds(rooted, u, k);
      assert t[k..][..|t[k..]| - 1] == u[k..] && u[..k] == t[..k] && t == u + [t[n]];
      assert t[n] == DOTDOT && u != [] ==> u[n - 1] == DOTDOT;
    }
  }

  /** Cleaning is idempotent. */
  lemma CleanTwice(p: Path)
    ensures Clean(Clean(p)) == Clean(p)
  {
    CleanIsClean(p);
    PushAllRebuilds(p.rooted, Clean(p).segs, 0);
    assert Clean(p).segs[..0] == [] && Clean(p).segs[0..] == Clean(p).segs;
  }

  // ---- the laws of cleaning: together they say what every path is cleaned to ----

  lemma PushTwo(rooted: bool, s: seq<string>, x: string, y: string)
    ensures PushAll(rooted, s, [x]) == Push(rooted, s, x)
    ensures PushAll(rooted, s, [x, y]) == Push(rooted, Push(rooted, s, x), y)
  {
    assert [x][..0] == [] && [x, y][..1] == [x];
  }

  /** A name and the parent step behind it cancel. */
  lemma NameAndParentCancel(rooted: bool, a: seq<string>, x: string, b: seq<string>)
    requires x != "" && x != "." && x != ".."
    ensures Clean(Path(rooted, a + [x, ".."] + b)) == Clean(Path(rooted, a + b))
  {
    hide PushAll;
    var s := PushAll(rooted, [], a);
    PushAllAppend(rooted, [], a, [x, ".."]);
    PushAllAppend(rooted, [], a + [x, ".."], b);
    PushAllAppend(rooted, [], a, b);
    PushTwo(rooted, s, x, "..");
    assert (s + [x])[..|s|] == s;
  }

  /** Empty and dot segments do not count. */
  lemma DotsDrop(rooted: bool, a: seq<string>, x: string, b: seq<string>)
    requires x == "" || x == "."
    ensures Clean(Path(rooted, a + [x] + b)) == Clean(Path(rooted, a + b))
  {
    hide PushAll;
    PushAllAppend(rooted, [], a, [x]);
    PushAllAppend(rooted, [], a + [x], b);
    PushAllAppend(rooted, [], a, b);
    PushTwo(rooted, PushAll(rooted, [], a), x, x);
  }

  /** There is nothing above the root. */
  lemma RootIsItsParent(b: seq<string>)
    ensures Clean(Path(true, [".."] + b)) == Clean(Path(true, b))
  {
    hide PushAll;
    PushAllAppend(true, [], [".."], b);
    PushTwo(true, [], "..", "..");
  }

  /** What none of that applies to stays: names, behind parent steps if the path is relative. */
  lemma NamesStay(rooted: bool, n: nat, names: seq<string>)
    requires (rooted ==> n == 0) && forall i :: 0 <= i < |names| ==> names[i] != "" && names[i] != "." && names[i] != ".."
    ensures Clean(Path(rooted, Ups(n) + names)) == Path(rooted, Ups(n) + names)
  {
    var s := Ups(n) + names;
    assert IsCleanStack(rooted, s);
    PushAllRebuilds(rooted, s, 0);
    assert s[..0] == [] && s[0..] == s;
  }

  /** Joining a name puts it behind the cleaned path. */
  lemma JoinAppends(p: Path, x: string)
    requires x != "" && x != "." && x != ".."
    ensures JoinAll(p, [x]) == Path(p.rooted, Clean(p).segs + [x])
  {
    hide PushAll;
    PushAllAppend(p.rooted, [], p.segs, [x]);
    PushTwo(p.rooted, Clean(p).segs, x, x);
  }

  /** Joining in two steps, the first of them cleaned. */
  lemma JoinTwice(p: Path, a: seq<string>, b: seq<string>)
    ensures JoinAll(JoinAll(p, a), b) == JoinAll(p, a + b)
  {
    CleanTwice(Path(p.rooted, p.segs + a));
    var q := JoinAll(p, a);
    PushAllAppend(p.rooted, [], q.segs, b);
    PushAllAppend(p.rooted, [], p.segs + a, b);
    assert p.segs + (a + b) == (p.segs + a) + b;
  }

  // ---- relative paths ----

  function CommonLength(a: seq<string>, b: seq<string>): (k: nat)
    ensures k <= |a| && k <= |b| && a[..k] == b[..k]
    ensures k < |a| && k < |b| ==> a[k] != b[k]
  {
    if a == [] || b == [] || a[0] != b[0] then 0
    else
      var k := 1 + CommonLength(a[1..], b[1..]);
      assert a[..k] == [a[0]] + a[1..][..k - 1] && b[..k] == [b[0]] + b[1..][..k - 1];
      k
  }

  lemma {:induction false} CommonWithPrefix(a: seq<string>, n: nat)
    requires n <= |a|
    ensures CommonLength(a, a[..n]) == n && CommonLength(a[..n], a) == n
  {
    if n > 0 {
      CommonWithPrefix(a[1..], n - 1);
      assert a[..n][1..] == a[1..][..n - 1];
    }
  }

  /** The target's segments as Rel compares them: "." is a segment of its own. */
  function Components(t: Path): seq<string> {
    if !t.rooted && t.segs == [] then [DOT] else t.segs
  }

  function Ups(n: nat): (r: seq<string>)
    ensures |r| == n && forall i :: 0 <= i < n ==> r[i] == DOTDOT
  {
    if n == 0 then [] else [DOTDOT] + Ups(n - 1)
  }

  /** `filepath.Rel`, as the segments of its result; never empty. */
  function Rel(base: Path, target: Path): (r: Option<seq<string>>)
    ensures r.Some? ==> r.value != []
  {
    var b, t := Clean(base), Clean(target);
    if b == t then Some([DOT])
    else if b.rooted != t.rooted then None
    else
      var c := Components(t);
      var k := CommonLength(b.segs, c);
      if k < |b.segs| && k < |c| && b.segs[k] == DOTDOT then None
      else
        NotAllCommon(b, t, k, base, target);
        Some(Ups(|b.segs| - k) + c[k..])
  }

  lemma NotAllCommon(b: Path, t: Path, k: nat, base: Path, target: Path)
    requires b == Clean(base) && t == Clean(target) && b != t && b.rooted == t.rooted
    requires k == CommonLength(b.segs, Components(t))
    ensures k < |b.segs| || k < |Components(t)|
  {
    CleanIsClean(base);
    assert k == |b.segs| ==> b.segs[..k] == b.segs;
    assert k == |Components(t)| ==> Components(t)[..k] == Components(t);
  }

  predicate StartsWithBackstep(rel: seq<string>)
    requires rel != []
  {
    rel[0] == DOTDOT
  }

  predicate PathWithinBase(full: Path, base: Path) {
    var rel := Rel(base, full);
    rel.Some? && !StartsWithBackstep(rel.value)
  }

  /** A relative path with a parent segment anywhere starts with one. */
  lemma BackstepsComeFirst(base: Path, target: Path)
    requires Rel(base, target).Some? && DOTDOT in Rel(base, target).value
    ensures StartsWithBackstep(Rel(base, target).value)
  {
    hide PushAll, CommonLength, IsCleanStack;
    CleanIsClean(target);
    var b, t, r := Clean(base), Clean(target), Rel(base, target).value;
    if b != t {
      var c := Components(t);
      var k := CommonLength(b.segs, c);
      if k == |b.segs| {
        assert r == c[k..];
        ParentsFirst(t, k);
      }
    }
  }

  lemma ParentsFirst(t: Path, k: nat)
    requires IsCleanStack(t.rooted, t.segs) && k < |Components(t)| && DOTDOT in Components(t)[k..]
    ensures Components(t)[k] == DOTDOT
  {
    var c := Components(t);
    var j :| 0 <= j < |c[k..]| && c[k..][j] == DOTDOT;
    assert c[k + j] == DOTDOT;
  }

  /** For a target within the base, the relative path leads back to the target. */
  lemma RelRejoins(base: Path, target: Path)
    requires PathWithinBase(target, base)
    ensures JoinAll(base, Rel(base, target).value) == Clean(target)
  {
    hide PushAll;
    var b, t, r := Clean(base), Clean(target), Rel(base, target).value;
    CleanIsClean(target);
    PushAllAppend(base.rooted, [], base.segs, r);
    if b == t {
      DotChangesNothing(base.rooted, b.segs);
    } else {
      var k := |b.segs|;
      RelIsRest(base, target);
      PushAllRebuilds(t.rooted, t.segs, k);
    }
  }

  lemma DotChangesNothing(rooted: bool, s: seq<string>)
    ensures PushAll(rooted, s, [DOT]) == s
  {
    assert [DOT][..0] == [];
  }

  /** Within the base, the base's segments start the target's and the rest is the result. */
  lemma RelIsRest(base: Path, target: Path)
    requires PathWithinBase(target, base) && Clean(base) != Clean(target)
    ensures var b, t := Clean(base), Clean(target);
            b.rooted == t.rooted && |b.segs| <= |t.segs| && b.segs == t.segs[..|b.segs|] && Rel(base, target).value == t.segs[|b.segs|..]
  {
    hide PushAll;
    var b, t := Clean(base), Clean(target);
    var c := Components(t);
    var k := CommonLength(b.segs, c);
    CleanIsClean(base);
    assert k == |b.segs| && b.segs[..k] == b.segs;
    assert k == 0 || b.segs[0] == c[..k][0];
    assert c == t.segs;
  }

  /** Stepping up from a base leads out of it, unless the base is the root. */
  lemma StepUpLeaves(base: Path)
    requires !(base.rooted && Clean(base).segs == [])
    ensures !PathWithinBase(JoinAll(Clean(base), [DOTDOT]), base)
  {
    hide PushAll, CommonLength, IsCleanStack, Components;
    var b := Clean(base);
    var up := JoinAll(b, [DOTDOT]);
    CleanIsClean(base);
    OneUp(base);
    if b.segs != [] && b.segs[|b.segs| - 1] != DOTDOT {
      UpFromPlain(b, up);
    } else {
      UpFromParents(b, up);
    }
  }

  lemma OneUp(base: Path)
    ensures var b := Clean(base);
            var up := JoinAll(b, [DOTDOT]);
            Clean(b) == b && Clean(up) == up && up == Path(b.rooted, Push(b.rooted, b.segs, DOTDOT))
  {
    hide Push;
    var b := Clean(base);
    CleanTwice(base);
    PushAllAppend(b.rooted, [], b.segs, [DOTDOT]);
    assert [DOTDOT][..0] == [] && PushAll(b.rooted, b.segs, [DOTDOT]) == Push(b.rooted, b.segs, DOTDOT);
    CleanTwice(Path(b.rooted, b.segs + [DOTDOT]));
  }

  lemma UpFromPlain(b: Path, up: Path)
    requires Clean(b) == b && Clean(up) == up && IsCleanStack(b.rooted, b.segs)
    requires b.segs != [] && b.segs[|b.segs| - 1] != DOTDOT && up == Path(b.rooted, b.segs[..|b.segs| - 1])
    ensures Rel(b, up).Some? && Rel(b, up).value[0] == DOTDOT
  {
    var n := |b.segs| - 1;
    var c := Components(up);
    var k := CommonLength(b.segs, c);
    if c == up.segs {
      CommonWithPrefix(b.segs, n);
    } else {
      assert c == [DOT] && n == 0;
    }
  }

  lemma UpFromParents(b: Path, up: Path)
    requires Clean(b) == b && Clean(up) == up && !b.rooted && up == Path(false, b.segs + [DOTDOT])
    ensures Rel(b, up).Some? && Rel(b, up).value[0] == DOTDOT
  {
    CommonWithPrefix(up.segs, |b.segs|);
    assert up.segs[..|b.segs|] == b.segs;
  }

  /** A walk along a relative path whose first step passes the base test takes no step up. */
  lemma NoStepUp(base: Path, target: Path)
    requires Rel(base, target).Some?
    requires PathWithinBase(JoinAll(Clean(base), [Rel(base, target).value[0]]), base)
    ensures DOTDOT !in Rel(base, target).value
  {
    var r := Rel(base, target).value;
    if DOTDOT in r {
      BackstepsComeFirst(base, target);
      if base.rooted && Clean(base).segs == [] {
        RootHasNoBackstep(base, target);
      } else {
        StepUpLeaves(base);
      }
    }
  }

  lemma RootHasNoBackstep(base: Path, target: Path)
    requires base.rooted && Clean(base).segs == [] && Rel(base, target).Some?
    ensures DOTDOT !in Rel(base, target).value
  {
    CleanIsClean(target);
  }

  // ---- what the base test means ----

  /** The base's segments start the path's, and the path does not go on with a parent step. */
  ghost predicate Extends(t: Path, b: Path) {
    && t.rooted == b.rooted && b.segs <= t.segs
    && (|t.segs| > |b.segs| ==> t.segs[|b.segs|] != DOTDOT)
  }

  /** Within the base the relative path is what follows the base, or a dot if nothing does. */
  lemma RelSpelledOut(base: Path, target: Path)
    requires PathWithinBase(target, base)
    ensures var b, t, r := Clean(base), Clean(target), Rel(base, target).value;
            if t == b then r == ["."] else t == Path(b.rooted, b.segs + r)
  {
    hide PushAll, CommonLength;
    CleanIsClean(base);
    var b, t := Clean(base), Clean(target);
    if b != t {
      var c := Components(t);
      var k := CommonLength(b.segs, c);
      assert k == |b.segs|;
      assert c == c[..k] + c[k..] && b.segs[..k] == b.segs;
    }
  }

  /** The base test in terms of the cleaned paths alone. */
  lemma WithinIsExtends(full: Path, base: Path)
    ensures PathWithinBase(full, base) <==> Extends(Clean(full), Clean(base))
  {
    hide PushAll;
    var b, t := Clean(base), Clean(full);
    CleanIsClean(base);
    CleanIsClean(full);
    if Extends(t, b) && b != t {
      ExtendsIsWithin(full, base);
    } else if PathWithinBase(full, base) && b != t {
      RelIsRest(base, full);
    }
  }

  lemma ExtendsIsWithin(full: Path, base: Path)
    requires Extends(Clean(full), Clean(base)) && Clean(full) != Clean(base)
    ensures PathWithinBase(full, base)
  {
    hide PushAll;
    var b, t := Clean(base), Clean(full);
    assert t.segs[..|b.segs|] == b.segs;
    assert |t.segs| > |b.segs|;
    CommonWithPrefix(t.segs, |b.segs|);
    assert Ups(0) == [];
  }

  /** Going on from inside the base without parent steps stays inside it. */
  lemma StaysWithin(p: Path, base: Path, names: seq<string>)
    requires PathWithinBase(p, base) && DOTDOT !in names
    ensures PathWithinBase(JoinAll(p, names), base)
  {
    hide Push;
    WithinIsExtends(p, base);
    PushAllAppend(p.rooted, [], p.segs, names);
    CleanTwice(Path(p.rooted, p.segs + names));
    WithinIsExtends(JoinAll(p, names), base);
    PlainStepsExtend(Clean(p), names);
    ExtendsOn(Path(p.rooted, PushAll(p.rooted, Clean(p).segs, names)), Clean(p), Clean(base));
  }

  lemma ExtendsOn(q: Path, p: Path, b: Path)
    requires Extends(q, p) && Extends(p, b)
    ensures Extends(q, b)
  {
    assert |p.segs| > |b.segs| ==> q.segs[|b.segs|] == p.segs[|b.segs|];
  }

  lemma {:induction false} PlainStepsExtend(p: Path, names: seq<string>)
    requires DOTDOT !in names
    ensures Extends(Path(p.rooted, PushAll(p.rooted, p.segs, names)), p)
    decreases |names|
  {
    if names != [] {
      PlainStepsExtend(p, names[..|names| - 1]);
    }
  }

  lemma JoinNothing(p: Path)
    ensures JoinAll(p, []) == Clean(p)
  {
    assert p.segs + [] == p.segs;
  }

  /** Joining does not see whether its first argument was cleaned. */
  lemma JoinCleaned(p: Path, names: seq<string>)
    ensures JoinAll(Clean(p), names) == JoinAll(p, names)
  {
    JoinNothing(p);
    JoinTwice(p, [], names);
    assert [] + names == names;
  }

  /** Testing every step along the relative path amounts to testing its end. */
  lemma TestedAlongTheWay(base: Path, target: Path)
    requires Rel(base, target).Some?
    ensures var b, r := Clean(base), Rel(base, target).value;
            PathWithinBase(target, base) <==> forall j :: 0 < j <= |r| ==> PathWithinBase(JoinAll(b, r[..j]), b)
  {
    hide PushAll, Push, CommonLength;
    var b, r := Clean(base), Rel(base, target).value;
    CleanTwice(base);
    if PathWithinBase(target, base) {
      WithinHasNoStepUp(base, target);
      forall j | 0 < j <= |r| ensures PathWithinBase(JoinAll(b, r[..j]), b) {
        StaysWithin(b, b, r[..j]);
      }
    } else if forall j :: 0 < j <= |r| ==> PathWithinBase(JoinAll(b, r[..j]), b) {
      assert r[..1] == [r[0]];
      assert PathWithinBase(JoinAll(b, r[..1]), base);
      NoStepUp(base, target);
    }
  }

  lemma RelCleaned(base: Path, target: Path)
    ensures Rel(Clean(base), Clean(target)) == Rel(base, target)
  {
    hide PushAll;
    CleanTwice(base);
    CleanTwice(target);
  }

  lemma WithinHasNoStepUp(base: Path, target: Path)
    requires PathWithinBase(target, base)
    ensures Rel(base, target).Some? && DOTDOT !in Rel(base, target).value
  {
    if DOTDOT in Rel(base, target).value {
      BackstepsComeFirst(base, target);
    }
  }
}
