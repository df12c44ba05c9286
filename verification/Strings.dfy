/** Splitting and joining at a separator, as Go's strings package does. */
module Strings {
  import opened Common

  /** `strings.Split(s, d)`: always at least one part. */
  function Split(s: string, d: char): (r: seq<string>)
    ensures |r| >= 1
    ensures forall i :: 0 <= i < |r| ==> d !in r[i]
  {
    if s == "" then [""]
    else
      var r := Split(s[1..], d);
      if s[0] == d then [""] + r else [[s[0]] + r[0]] + r[1..]
  }

  function Join(parts: seq<string>, d: char): string
    requires |parts| >= 1
  {
    if |parts| == 1 then parts[0] else parts[0] + [d] + Join(parts[1..], d)
  }

  lemma {:induction false} JoinSplit(s: string, d: char)
    ensures Join(Split(s, d), d) == s
  {
    if s != "" {
      JoinSplit(s[1..], d);
      var r := Split(s[1..], d);
      if s[0] == d {
        assert ([""] + r)[1..] == r;
      } else {
        assert ([[s[0]] + r[0]] + r[1..])[1..] == r[1..];
      }
    }
  }

  lemma {:induction false} SplitJoin(parts: seq<string>, d: char)
    requires |parts| >= 1 && forall i :: 0 <= i < |parts| ==> d !in parts[i]
    ensures Split(Join(parts, d), d) == parts
    decreases |parts|, |parts[0]|
  {
    if parts[0] == "" {
      if |parts| > 1 {
        assert Join(parts, d) == [d] + Join(parts[1..], d);
        SplitJoin(parts[1..], d);
        assert [""] + parts[1..] == parts;
      }
    } else {
      var shorter := parts[0 := parts[0][1..]];
      assert shorter[1..] == parts[1..];
      assert Join(parts, d) == [parts[0][0]] + Join(shorter, d);
      assert Join(parts, d)[1..] == Join(shorter, d);
      assert forall i :: 0 <= i < |parts| ==> d !in shorter[i];
      SplitJoin(shorter, d);
      assert parts[0] == [parts[0][0]] + shorter[0] && parts[0][0] in parts[0];
      assert parts == [parts[0]] + shorter[1..];
    }
  }

  /** Position of the first occurrence. */
  function IndexOf(s: string, d: char): (r: Option<nat>)
    ensures r.Some? ==> r.value < |s| && s[r.value] == d && d !in s[..r.value]
    ensures r.None? ==> d !in s
  {
    if s == "" then None
    else if s[0] == d then Some(0)
    else
      var r := IndexOf(s[1..], d);
      if r.None? then None
      else
        assert s[..r.value + 1] == [s[0]] + s[1..][..r.value];
        Some(r.value + 1)
  }
}
