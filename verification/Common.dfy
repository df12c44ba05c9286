/** Small shared vocabulary: options, listings in arbitrary order, swap-deletion. */
module Common {

  datatype Option<+T> = None | Some(value: T)

  ghost predicate NoDuplicates<T>(s: seq<T>) {
    forall i, j :: 0 <= i < j < |s| ==> s[i] != s[j]
  }

  lemma FirstElement<T>(s: seq<T>)
    ensures s == [] || s[0] in s
  {
  }

  lemma PrefixOrMore<T>(a: seq<T>, b: seq<T>)
    requires a <= b
    ensures a == b || b[|a|] in b
  {
  }

  lemma Pick<T>(s: set<T>) returns (x: T)
    requires |s| > 0
    ensures x in s
  {
    x :| x in s;
  }

  /** Lists a set in some order. Which order is left open, as it is for a Go map
      iteration or an API listing, so callers must be right for every order. */
  method Enumerate<T(==)>(s: set<T>) returns (q: seq<T>)
    ensures NoDuplicates(q)
    ensures forall e :: e in q <==> e in s
  {
    q := [];
    var rest := s;
    while |rest| > 0
      invariant rest <= s
      invariant NoDuplicates(q)
      invariant forall e :: e in q <==> e in s - rest
    {
      var e :| e in rest;
      assert e !in q;
      rest := rest - {e};
      q := q + [e];
    }
  }

  /** Deletion of one element by overwriting it with the last one. */
  function SwapRemove<T>(s: seq<T>, i: nat): (r: seq<T>)
    requires i < |s|
    ensures |r| == |s| - 1
  {
    s[i := s[|s| - 1]][..|s| - 1]
  }

  lemma SwapRemoveElements<T>(s: seq<T>, i: nat)
    requires i < |s| && NoDuplicates(s)
    ensures NoDuplicates(SwapRemove(s, i))
    ensures forall x :: x in SwapRemove(s, i) <==> x in s && x != s[i]
  {
    var r := SwapRemove(s, i);
    assert forall k :: 0 <= k < |s| && k != i ==> s[k] == r[if k == |s| - 1 then i else k];
  }

  /** Where the elements go, as sequences. */
  lemma SwapRemoveParts<T>(s: seq<T>, i: nat) returns (a: seq<T>, b: seq<T>, y: T)
    requires i < |s|
    ensures if i == |s| - 1 then s == a + [s[i]] && SwapRemove(s, i) == a else s == a + [s[i]] + b + [y] && SwapRemove(s, i) == a + [y] + b
  {
    var n := |s| - 1;
    a, b, y := s[..i], if i < n then s[i + 1..n] else [], s[n];
  }

  lemma OneLess<T>(a: seq<T>, x: T, b: seq<T>, y: T)
    ensures multiset(a) == multiset(a + [x]) - multiset{x}
    ensures multiset(a + [y] + b) == multiset(a + [x] + b + [y]) - multiset{x}
  {
  }

  lemma SwapRemoveMultiset<T>(s: seq<T>, i: nat)
    requires i < |s|
    ensures multiset(SwapRemove(s, i)) == multiset(s) - multiset{s[i]}
  {
    hide SwapRemove;
    var a, b, y := SwapRemoveParts(s, i);
    OneLess(a, s[i], b, y);
  }
}
