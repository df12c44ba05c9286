/** The two swap-deletes over listing slices. A slice is an array and a length. */
module LbPop {
  import opened Common
  import opened LbGraph
  import opened LbCloud

  predicate Matches(v: MemberView, addr: string, port: int) {
    v.addr == addr && v.port == port
  }

  /** The elements that do not match, in order. */
  function Keep(s: seq<MemberView>, addr: string, port: int): (r: seq<MemberView>)
    ensures |r| <= |s|
  {
    if s == [] then []
    else
      var r := Keep(s[..|s| - 1], addr, port);
      var v := s[|s| - 1];
      if Matches(v, addr, port) then r else r + [v]
  }

  lemma {:induction false} KeepElements(s: seq<MemberView>, addr: string, port: int)
    ensures forall v :: v in Keep(s, addr, port) <==> v in s && !Matches(v, addr, port)
    ensures NoDuplicates(s) ==> NoDuplicates(Keep(s, addr, port))
  {
    if |s| > 0 {
      KeepElements(s[..|s| - 1], addr, port);
      assert s == s[..|s| - 1] + [s[|s| - 1]];
    }
  }

  /** How many of the elements match. */
  function Hits(s: seq<MemberView>, addr: string, port: int): nat {
    |s| - |Keep(s, addr, port)|
  }

  /** No match sits among the last `Hits - 1` elements. */
  ghost predicate TailFree(s: seq<MemberView>, addr: string, port: int) {
    forall i :: 0 <= i < |s| && Matches(s[i], addr, port) ==> i <= |s| - Hits(s, addr, port)
  }

  /** `popMember`. The loop keeps ranging over the original length while the slice
      shrinks, so a late match can index past the end: `None` is that panic. It happens
      exactly when the slice is not `TailFree`; otherwise all matches go, and only they. */
  method PopMember(a: array<MemberView>, n: nat, addr: string, port: int) returns (r: Option<nat>)
    requires n <= a.Length
    modifies a
    ensures r.Some? <==> TailFree(old(a[..n]), addr, port)
    ensures r.Some? ==> r.value == n - Hits(old(a[..n]), addr, port)
    ensures r.Some? ==> multiset(a[..r.value]) == multiset(Keep(old(a[..n]), addr, port))
  {
    hide *;
    ghost var s := a[..n];
    ghost var t := s;
    var len := n;
    Start(s, addr, port);
    ViewStart(a, n);
    for i := 0 to n
      invariant 0 <= len <= n && View(a, n, len, i, s, t) && Popping(s, i, t, addr, port)
    {
      ViewNext(a, n, len, i, s, t);
      MatchesIs(s[i], addr, port);
      if a[i].addr == addr && a[i].port == port {
        if i >= len {
          Overrun(s, i, t, addr, port);
          return None;
        }
        Pop(s, i, t, addr, port);
        PopAt(a, n, len, i, s, t);
        len, t := len - 1, SwapRemove(t, i);
      } else {
        Skip(s, i, t, addr, port);
      }
    }
    Finish(s, t, addr, port);
    ViewEnd(a, n, len, s, t);
    return Some(len);
  }

  /** The slice shows `t`, and from `i` on the array still shows `s`. */
  ghost predicate View(a: array<MemberView>, n: nat, len: int, i: int, s: seq<MemberView>, t: seq<MemberView>)
    reads a
  {
    0 <= len <= n <= a.Length && |s| == n && 0 <= i <= n && t == a[..len] && a[i..n] == s[i..]
  }

  lemma ViewStart(a: array<MemberView>, n: nat)
    requires n <= a.Length
    ensures View(a, n, n, 0, a[..n], a[..n])
  {
    assert a[0..n] == a[..n][0..];
  }

  lemma ViewNext(a: array<MemberView>, n: nat, len: int, i: int, s: seq<MemberView>, t: seq<MemberView>)
    requires View(a, n, len, i, s, t) && i < n
    ensures n <= a.Length && |s| == n && a[i] == s[i] && |t| == len && (i < len ==> t[i] == s[i]) && View(a, n, len, i + 1, s, t)
  {
    assert a[i] == a[i..n][0];
    assert a[i + 1..n] == a[i..n][1..] && s[i + 1..] == s[i..][1..];
  }

  lemma ViewEnd(a: array<MemberView>, n: nat, len: int, s: seq<MemberView>, t: seq<MemberView>)
    requires View(a, n, len, n, s, t)
    ensures 0 <= len <= a.Length && t == a[..len] && |s| == n
  {
  }

  lemma MatchesIs(v: MemberView, addr: string, port: int)
    ensures Matches(v, addr, port) <==> v.addr == addr && v.port == port
  {
  }

  method PopAt(a: array<MemberView>, n: nat, len: int, i: int, ghost s: seq<MemberView>, ghost t: seq<MemberView>)
    requires View(a, n, len, i + 1, s, t) && 0 <= i < len
    modifies a
    ensures i < |t| && View(a, n, len - 1, i + 1, s, SwapRemove(t, i))
  {
    OverwriteWithLast(a, len, i, n);
  }

  /** What the loop of `PopMember` keeps: after `i` elements the slice holds the
      non-matches among them and everything still to come. */
  ghost predicate Popping(s: seq<MemberView>, i: nat, t: seq<MemberView>, addr: string, port: int) {
    && i <= |s|
    && |t| == |s| - Hits(s[..i], addr, port)
    && (forall j :: 0 <= j < i && Matches(s[j], addr, port) ==> j <= |t|)
    && multiset(t) == multiset(Keep(s[..i], addr, port)) + multiset(s[i..])
  }

  lemma Start(s: seq<MemberView>, addr: string, port: int)
    ensures Popping(s, 0, s, addr, port)
  {
    assert s[..0] == [] && s[0..] == s;
  }

  lemma Skip(s: seq<MemberView>, i: nat, t: seq<MemberView>, addr: string, port: int)
    requires i < |s| && Popping(s, i, t, addr, port) && !Matches(s[i], addr, port)
    ensures Popping(s, i + 1, t, addr, port)
  {
    KeepStep(s, i, addr, port);
  }

  lemma Pop(s: seq<MemberView>, i: nat, t: seq<MemberView>, addr: string, port: int)
    requires i < |s| && Popping(s, i, t, addr, port) && Matches(s[i], addr, port)
    requires i < |t| && t[i] == s[i]
    ensures Popping(s, i + 1, SwapRemove(t, i), addr, port)
  {
    KeepStep(s, i, addr, port);
    SwapRemoveMultiset(t, i);
  }

  lemma Overrun(s: seq<MemberView>, i: nat, t: seq<MemberView>, addr: string, port: int)
    requires i < |s| && Popping(s, i, t, addr, port) && Matches(s[i], addr, port) && i >= |t|
    ensures !TailFree(s, addr, port)
  {
    KeepStep(s, i, addr, port);
    HitsGrow(s, i + 1, addr, port);
  }

  lemma Finish(s: seq<MemberView>, t: seq<MemberView>, addr: string, port: int)
    requires Popping(s, |s|, t, addr, port)
    ensures TailFree(s, addr, port)
    ensures |t| == |s| - Hits(s, addr, port) && multiset(t) == multiset(Keep(s, addr, port))
  {
    assert s[..|s|] == s && s[|s|..] == [];
  }

  /** The body of the deletion: element `i` takes the value of the last one. */
  method OverwriteWithLast<T>(a: array<T>, len: nat, i: nat, ghost n: nat)
    requires i < len <= n <= a.Length
    modifies a
    ensures a[..len - 1] == SwapRemove(old(a[..len]), i)
    ensures a[i + 1..n] == old(a[i + 1..n])
  {
    a[i] := a[len - 1];
    assert a[..len - 1] == SwapRemove(old(a[..len]), i);
  }

  lemma KeepStep(s: seq<MemberView>, i: nat, addr: string, port: int)
    requires i < |s|
    ensures Keep(s[..i + 1], addr, port) ==
            Keep(s[..i], addr, port) + (if Matches(s[i], addr, port) then [] else [s[i]])
    ensures Hits(s[..i + 1], addr, port) ==
            Hits(s[..i], addr, port) + (if Matches(s[i], addr, port) then 1 else 0)
    ensures multiset(s[i..]) == multiset{s[i]} + multiset(s[i + 1..])
  {
    assert s[..i + 1][..i] == s[..i];
    assert s[i..] == [s[i]] + s[i + 1..];
  }

  /** Matches only accumulate along the slice. */
  lemma {:induction false} HitsGrow(s: seq<MemberView>, i: nat, addr: string, port: int)
    requires i <= |s|
    ensures Hits(s[..i], addr, port) <= Hits(s, addr, port)
    decreases |s| - i
  {
    if i < |s| {
      assert s[..i + 1][..i] == s[..i];
      HitsGrow(s, i + 1, addr, port);
    } else {
      assert s[..i] == s;
    }
  }

  /** A listing without duplicate ids has at most one match, and then popping is safe. */
  lemma UniqueMatchIsTailFree(s: seq<MemberView>, addr: string, port: int)
    requires forall i, j :: 0 <= i < j < |s| ==> !(Matches(s[i], addr, port) && Matches(s[j], addr, port))
    ensures Hits(s, addr, port) <= 1 && TailFree(s, addr, port)
  {
    if |s| > 0 {
      var t := s[..|s| - 1];
      UniqueMatchIsTailFree(t, addr, port);
      if Matches(s[|s| - 1], addr, port) {
        NoMatchKeepsAll(t, addr, port);
      }
    }
  }

  lemma {:induction false} NoMatchKeepsAll(s: seq<MemberView>, addr: string, port: int)
    requires forall i :: 0 <= i < |s| ==> !Matches(s[i], addr, port)
    ensures Keep(s, addr, port) == s
  {
    if |s| > 0 {
      NoMatchKeepsAll(s[..|s| - 1], addr, port);
      assert s == s[..|s| - 1] + [s[|s| - 1]];
    }
  }

  /** Two members with the popped key, the second one last: the pop indexes out of range. */
  lemma DuplicateAtTheEndPanics(addr: string, port: int)
    ensures !TailFree([MemberView(1, addr, port), MemberView(2, addr, port)], addr, port)
  {
    var v, w := MemberView(1, addr, port), MemberView(2, addr, port);
    assert [v, w][..1] == [v];
    assert Keep([v], addr, port) == [];
    assert Matches([v, w][1], addr, port);
  }

  /** `popListener`: only the first match goes. */
  method PopListener(a: array<ListenerView>, n: nat, id: Id) returns (m: nat)
    requires n <= a.Length
    modifies a
    ensures m <= n
    ensures (forall i :: 0 <= i < n ==> old(a[i]).id != id) ==> m == n && a[..] == old(a[..])
    ensures forall i :: 0 <= i < n && old(a[i]).id == id && (forall j :: 0 <= j < i ==> old(a[j]).id != id)
              ==> m == n - 1 && a[..m] == SwapRemove(old(a[..n]), i)
  {
    for i := 0 to n
      invariant a[..] == old(a[..])
      invariant forall j :: 0 <= j < i ==> a[j].id != id
    {
      if a[i].id == id {
        OverwriteWithLast(a, n, i, n);
        return n - 1;
      }
    }
    return n;
  }
}
