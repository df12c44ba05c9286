/** Sorting a list of strings in place and searching it, as findString does. */
module SortedStrings {

  /** Lexicographic order. */
  predicate Leq(a: string, b: string) {
    a == "" || (b != "" && (a[0] < b[0] || (a[0] == b[0] && Leq(a[1..], b[1..]))))
  }

  lemma {:induction false} LeqTotal(a: string, b: string)
    ensures Leq(a, b) || Leq(b, a)
    ensures Leq(a, b) && Leq(b, a) ==> a == b
  {
    if a != "" && b != "" {
      LeqTotal(a[1..], b[1..]);
      assert a == [a[0]] + a[1..] && b == [b[0]] + b[1..];
    }
  }

  lemma {:induction false} LeqTransitive(a: string, b: string, c: string)
    requires Leq(a, b) && Leq(b, c)
    ensures Leq(a, c)
  {
    if a != "" && a[0] == b[0] == c[0] {
      LeqTransitive(a[1..], b[1..], c[1..]);
    }
  }

  ghost predicate Sorted(s: seq<string>) {
    forall i, j :: 0 <= i < j < |s| ==> Leq(s[i], s[j])
  }

  function Insert(s: seq<string>, x: string): seq<string> {
    if s == [] || Leq(x, s[0]) then [x] + s else [s[0]] + Insert(s[1..], x)
  }

  function Sort(s: seq<string>): seq<string> {
    if s == [] then [] else Insert(Sort(s[1..]), s[0])
  }

  lemma {:induction false} InsertSorted(s: seq<string>, x: string)
    requires Sorted(s)
    ensures Sorted(Insert(s, x)) && multiset(Insert(s, x)) == multiset(s) + multiset{x}
  {
    if s == [] {
    } else if Leq(x, s[0]) {
      forall i | 0 <= i < |s|
        ensures Leq(x, s[i])
      {
        if i > 0 {
          LeqTransitive(x, s[0], s[i]);
        }
      }
    } else {
      var t := Insert(s[1..], x);
      assert s == [s[0]] + s[1..];
      InsertSorted(s[1..], x);
      LeqTotal(x, s[0]);
      forall i | 0 <= i < |t|
        ensures Leq(s[0], t[i])
      {
        assert t[i] in multiset(t);
        assert t[i] == x || t[i] in s[1..];
      }
    }
  }

  lemma {:induction false} SortSorts(s: seq<string>)
    ensures Sorted(Sort(s)) && multiset(Sort(s)) == multiset(s)
  {
    if s != [] {
      SortSorts(s[1..]);
      InsertSorted(Sort(s[1..]), s[0]);
      assert s == [s[0]] + s[1..];
    }
  }

  ghost function Elements(a: array<string>): set<string>
    reads a
  {
    set x | x in a[..]
  }

  method SortStrings(a: array<string>)
    modifies a
    ensures Sorted(a[..]) && multiset(a[..]) == multiset(old(a[..]))
  {
    var s := Sort(a[..]);
    SortSorts(a[..]);
    assert |s| == |multiset(s)| == a.Length;
    Fill(a, s);
  }

  method Fill(a: array<string>, s: seq<string>)
    requires |s| == a.Length
    modifies a
    ensures a[..] == s
  {
    for i := 0 to a.Length
      invariant a[..i] == s[..i]
    {
      a[i] := s[i];
    }
    assert a[..] == a[..a.Length] && s == s[..a.Length];
  }

  /** The first position whose element is not below `x`. */
  method SearchStrings(a: array<string>, x: string) returns (i: nat)
    requires Sorted(a[..])
    ensures i <= a.Length
    ensures forall k :: 0 <= k < i ==> !Leq(x, a[k])
    ensures forall k :: i <= k < a.Length ==> Leq(x, a[k])
  {
    i := 0;
    var j := a.Length;
    while i < j
      invariant 0 <= i <= j <= a.Length
      invariant forall k :: 0 <= k < i ==> !Leq(x, a[k])
      invariant forall k :: j <= k < a.Length ==> Leq(x, a[k])
    {
      var h := (i + j) / 2;
      if !Leq(x, a[h]) {
        Below(a[..], x, h);
        i := h + 1;
      } else {
        Above(a[..], x, h);
        j := h;
      }
    }
  }

  lemma Below(s: seq<string>, x: string, h: nat)
    requires Sorted(s) && h < |s| && !Leq(x, s[h])
    ensures forall k :: 0 <= k <= h ==> !Leq(x, s[k])
  {
    forall k | 0 <= k <= h
      ensures !Leq(x, s[k])
    {
      if Leq(x, s[k]) && k < h {
        LeqTransitive(x, s[k], s[h]);
      }
    }
  }

  lemma Above(s: seq<string>, x: string, h: nat)
    requires Sorted(s) && h < |s| && Leq(x, s[h])
    ensures forall k :: h <= k < |s| ==> Leq(x, s[k])
  {
    forall k | h <= k < |s|
      ensures Leq(x, s[k])
    {
      if h < k {
        LeqTransitive(x, s[h], s[k]);
      }
    }
  }

  /** `findString`: membership, at the price of leaving the list sorted. */
  method FindString(x: string, list: array<string>) returns (found: bool)
    modifies list
    ensures found <==> x in old(list[..])
    ensures Sorted(list[..]) && multiset(list[..]) == multiset(old(list[..]))
    ensures Elements(list) == old(Elements(list))
  {
    ghost var before := list[..];
    SortStrings(list);
    ghost var after := list[..];
    assert forall y :: y in before <==> y in multiset(before);
    assert forall y :: y in after <==> y in multiset(after);
    var i := SearchStrings(list, x);
    found := i < list.Length && list[i] == x;
    if x in after {
      var k :| 0 <= k < list.Length && list[k] == x;
      LeqTotal(x, x);
      assert i <= k;
      LeqTotal(x, list[i]);
      assert i < k ==> Leq(after[i], after[k]);
    }
  }
}
