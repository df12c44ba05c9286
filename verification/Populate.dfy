/** Validator.Populate: defaults, values, dependencies, preclusions and patterns, each by a
    loop over a map in any order. */
module Populate {
  import opened Common
  import opened Strings
  import opened Validator

  type Data = map<string, string>

  /** The caller's options map, which Populate writes defaults into. */
  class Params {
    var m: Data
  }

  /** A condition holds when its field is there and matches. */
  predicate Holds(c: Cond, rx: Regexp, d: Data) {
    c.field in d && rx.matches(c.pattern, d[c.field])
  }

  /** `requiresValue`. */
  function RequiresValue(v: ValueExpressions, i: Index, rx: Regexp, d: Data): bool {
    if i in v.required then v.required[i]
    else if i in v.condRequired then Holds(v.condRequired[i], rx, d)
    else if i in v.condOptional then !Holds(v.condOptional[i], rx, d)
    else true
  }

  // ---- what the code decides, over indices ----

  /** `d` is `m` with a default for every missing name that has one. */
  ghost predicate Extended(v: Compiled, m: Data, d: Data)
    requires InRange(v)
  {
    && (forall n :: n in m ==> n in d && d[n] == m[n])
    && (forall n :: n in d && n !in m ==> exists i :: i in v.exprs.defaults && v.names[i] == n && v.exprs.defaults[i] == d[n])
    && (forall i :: i in v.exprs.defaults ==> v.names[i] in d)
  }

  function Value(v: Compiled, d: Data, o: seq<string>, i: Index): string
    requires i < |v.names| && |o| == |v.names|
  {
    if v.names[i] in d then d[v.names[i]] else o[i]
  }

  function Filled(v: Compiled, d: Data, o: seq<string>): (r: seq<string>)
    requires |o| == |v.names|
    ensures |r| == |o| && forall i :: 0 <= i < |r| ==> r[i] == Value(v, d, o, i)
  {
    seq(|o|, i requires 0 <= i < |o| => Value(v, d, o, i))
  }

  ghost predicate ExactlyOneSet(e: seq<string>, xs: seq<Index>)
    requires Below(xs, |e|)
  {
    exists j :: 0 <= j < |xs| && e[xs[j]] != "" && forall k :: 0 <= k < |xs| && k != j ==> e[xs[k]] == ""
  }

  ghost predicate PresenceOk(v: Compiled, rx: Regexp, d: Data) {
    forall i :: 0 <= i < |v.names| ==> FieldPresent(v, rx, d, i)
  }

  predicate FieldPresent(v: Compiled, rx: Regexp, d: Data, i: Index)
    requires i < |v.names|
  {
    if v.names[i] in d then d[v.names[i]] != "" else !RequiresValue(v.exprs, i, rx, d)
  }

  ghost predicate DepsOk(v: Compiled, e: seq<string>)
    requires InRange(v) && |e| == |v.names|
  {
    forall i :: i in v.deps && e[i] != "" ==> GroupsOk(e, v.deps[i])
  }

  ghost predicate GroupsOk(e: seq<string>, groups: seq<seq<Index>>)
    requires AllBelow(groups, |e|)
  {
    forall g :: 0 <= g < |groups| ==> ExactlyOneSet(e, groups[g])
  }

  ghost predicate PreclsOk(v: Compiled, e: seq<string>)
    requires InRange(v) && |e| == |v.names|
  {
    forall i :: i in v.precls && e[i] != "" ==> NoneSet(e, v.precls[i])
  }

  ghost predicate NoneSet(e: seq<string>, xs: seq<Index>)
    requires Below(xs, |e|)
  {
    forall j :: 0 <= j < |xs| ==> e[xs[j]] == ""
  }

  ghost predicate PatternsOk(v: Compiled, rx: Regexp, e: seq<string>)
    requires InRange(v) && |e| == |v.names|
  {
    forall i :: i in v.patterns && e[i] != "" ==> rx.matches(v.patterns[i], e[i])
  }

  /** The whole decision, for data `d` already extended and a struct that held `o`. */
  ghost predicate Accepts(v: Compiled, rx: Regexp, d: Data, o: seq<string>)
    requires InRange(v) && |o| == |v.names|
  {
    PresenceOk(v, rx, d) && DepsOk(v, Filled(v, d, o)) && PreclsOk(v, Filled(v, d, o)) && PatternsOk(v, rx, Filled(v, d, o))
  }

  // ---- the loops ----

  /** `q` is an order in which the defaults may be visited. */
  ghost predicate VisitsAll(v: Compiled, q: seq<Index>) {
    NoDuplicates(q) && forall i :: i in q <==> i in v.exprs.defaults
  }

  /** The loop over the defaults, in a given order: the first default for a name wins. */
  ghost function ExtendInOrder(v: Compiled, m: Data, q: seq<Index>): Data
    requires InRange(v) && forall i :: i in q ==> i in v.exprs.defaults
  {
    if q == [] then m
    else
      var d, i := ExtendInOrder(v, m, q[..|q| - 1]), q[|q| - 1];
      assert i in q;
      if v.names[i] in d then d else d[v.names[i] := v.exprs.defaults[i]]
  }

  method FillDefaults(v: Compiled, p: Params)
    requires InRange(v)
    modifies p
    ensures exists q :: VisitsAll(v, q) && p.m == ExtendInOrder(v, old(p.m), q)
    ensures Extended(v, old(p.m), p.m)
  {
    hide InRange;
    var keys := Enumerate(v.exprs.defaults.Keys);
    assert VisitsAll(v, keys);
    for k := 0 to |keys|
      invariant p.m == ExtendInOrder(v, old(p.m), keys[..k])
    {
      assert keys[..k + 1][..k] == keys[..k] && keys[k] in keys;
      DefaultsNamed(v, keys[k]);
      var name := v.names[keys[k]];
      if name !in p.m {
        p.m := p.m[name := v.exprs.defaults[keys[k]]];
      }
    }
    assert keys[..|keys|] == keys;
    OrderExtends(v, old(p.m), keys);
  }

  lemma DefaultsNamed(v: Compiled, i: Index)
    requires InRange(v) && i in v.exprs.defaults
    ensures i < |v.names|
  {
  }

  /** What holds midway: the data as given, defaults for names that were missing, and a value
      for every name visited. */
  lemma {:induction false} MidwayExtends(v: Compiled, m: Data, q: seq<Index>)
    requires InRange(v) && forall i :: i in q ==> i in v.exprs.defaults
    ensures var d := ExtendInOrder(v, m, q);
            && (forall n :: n in m ==> n in d && d[n] == m[n])
            && (forall n :: n in d && n !in m ==> exists i :: i in v.exprs.defaults && v.names[i] == n && v.exprs.defaults[i] == d[n])
            && (forall i :: i in q ==> v.names[i] in d)
    decreases |q|
  {
    hide InRange;
    if q != [] {
      var last := q[|q| - 1];
      assert q == q[..|q| - 1] + [last];
      DefaultsNamed(v, last);
      MidwayExtends(v, m, q[..|q| - 1]);
    }
  }

  /** Whatever the order, the loop extends the data. */
  lemma OrderExtends(v: Compiled, m: Data, q: seq<Index>)
    requires InRange(v) && VisitsAll(v, q)
    ensures Extended(v, m, ExtendInOrder(v, m, q))
  {
    hide ExtendInOrder;
    MidwayExtends(v, m, q);
  }

  function Indices(n: nat): (r: set<Index>)
    ensures forall i :: i in r <==> 0 <= i < n
  {
    if n == 0 then {} else Indices(n - 1) + {n - 1}
  }

  method FillValues(v: Compiled, rx: Regexp, d: Data, out: array<string>) returns (ok: bool)
    requires InRange(v) && out.Length == |v.names|
    modifies out
    ensures ok <==> PresenceOk(v, rx, d)
    ensures ok ==> out[..] == Filled(v, d, old(out[..]))
  {
    hide RequiresValue, InRange;
    ghost var o := out[..];
    var order := Enumerate(Indices(|v.names|));
    for k := 0 to |order|
      invariant forall i :: 0 <= i < |o| ==> out[i] == if i in order[..k] then Value(v, d, o, i) else o[i]
      invariant forall i :: i in order[..k] ==> 0 <= i < |v.names| && FieldPresent(v, rx, d, i)
    {
      var i := order[k];
      assert i in order && order[..k + 1] == order[..k] + [i];
      if v.names[i] in d {
        if d[v.names[i]] == "" {
          assert !FieldPresent(v, rx, d, i);
          return false;
        }
        out[i] := d[v.names[i]];
        continue;
      }
      if RequiresValue(v.exprs, i, rx, d) {
        assert !FieldPresent(v, rx, d, i);
        return false;
      }
    }
    assert order[..|order|] == order;
    assert out[..] == Filled(v, d, o);
    return true;
  }

  /** `dependenciesSatisfied`: the count stops at two. */
  method DependenciesSatisfied(e: array<string>, groups: seq<seq<Index>>) returns (ok: bool)
    requires AllBelow(groups, e.Length)
    ensures ok <==> GroupsOk(e[..], groups)
  {
    hide ExactlyOneSet;
    for g := 0 to |groups|
      invariant forall h :: 0 <= h < g ==> ExactlyOneSet(e[..], groups[h])
    {
      assert Below(groups[g], e.Length);
      var one := CountsToOne(e, groups[g]);
      if !one {
        return false;
      }
    }
    return true;
  }

  method CountsToOne(e: array<string>, xs: seq<Index>) returns (one: bool)
    requires Below(xs, e.Length)
    ensures one <==> ExactlyOneSet(e[..], xs)
  {
    var values := 0;
    ghost var first := 0;
    for j := 0 to |xs|
      invariant values == 0 ==> forall k :: 0 <= k < j ==> e[xs[k]] == ""
      invariant values == 1 ==> 0 <= first < j && e[xs[first]] != "" && forall k :: 0 <= k < j && k != first ==> e[xs[k]] == ""
      invariant 0 <= values <= 1
    {
      if e[xs[j]] != "" {
        values := values + 1;
        if values > 1 {
          assert e[..][xs[first]] != "" && e[..][xs[j]] != "";
          return false;
        }
        first := j;
      }
    }
    if values == 1 {
      assert e[..][xs[first]] != "";
    }
    return values == 1;
  }

  method CheckDependencies(v: Compiled, e: array<string>) returns (ok: bool)
    requires InRange(v) && e.Length == |v.names|
    ensures ok <==> DepsOk(v, e[..])
  {
    hide GroupsOk;
    var keys := Enumerate(v.deps.Keys);
    for k := 0 to |keys|
      invariant forall i :: i in v.deps && i in keys[..k] && e[i] != "" ==> GroupsOk(e[..], v.deps[i])
    {
      assert keys[k] in keys && keys[..k + 1] == keys[..k] + [keys[k]];
      if e[keys[k]] != "" {
        ok := DependenciesSatisfied(e, v.deps[keys[k]]);
        if !ok {
          return;
        }
      }
    }
    assert keys[..|keys|] == keys;
    return true;
  }

  method CheckPreclusions(v: Compiled, e: array<string>) returns (ok: bool)
    requires InRange(v) && e.Length == |v.names|
    ensures ok <==> PreclsOk(v, e[..])
  {
    hide NoneSet;
    var keys := Enumerate(v.precls.Keys);
    for k := 0 to |keys|
      invariant forall i :: i in v.precls && i in keys[..k] && e[i] != "" ==> NoneSet(e[..], v.precls[i])
    {
      assert keys[k] in keys && keys[..k + 1] == keys[..k] + [keys[k]];
      if e[keys[k]] != "" {
        ok := PreclusionsSatisfied(e, v.precls[keys[k]]);
        if !ok {
          return;
        }
      }
    }
    assert keys[..|keys|] == keys;
    return true;
  }

  method PreclusionsSatisfied(e: array<string>, xs: seq<Index>) returns (ok: bool)
    requires Below(xs, e.Length)
    ensures ok <==> NoneSet(e[..], xs)
  {
    for j := 0 to |xs|
      invariant forall k :: 0 <= k < j ==> e[xs[k]] == ""
    {
      if e[xs[j]] != "" {
        assert e[..][xs[j]] != "";
        return false;
      }
    }
    return true;
  }

  method CheckPatterns(v: Compiled, rx: Regexp, e: array<string>) returns (ok: bool)
    requires InRange(v) && e.Length == |v.names|
    ensures ok <==> PatternsOk(v, rx, e[..])
  {
    var keys := Enumerate(v.patterns.Keys);
    for k := 0 to |keys|
      invariant forall i :: i in v.patterns && i in keys[..k] && e[i] != "" ==> rx.matches(v.patterns[i], e[i])
    {
      assert keys[k] in keys && keys[..k + 1] == keys[..k] + [keys[k]];
      if e[keys[k]] != "" && !rx.matches(v.patterns[keys[k]], e[keys[k]]) {
        assert e[..][keys[k]] != "";
        return false;
      }
    }
    assert keys[..|keys|] == keys;
    return true;
  }

  /** Populate: whatever the orders, it succeeds if and only if the extended data is accepted,
      and then every field has its value. */
  method PopulateStruct(v: Compiled, rx: Regexp, p: Params, out: array<string>) returns (ok: bool)
    requires InRange(v) && out.Length == |v.names|
    modifies p, out
    ensures exists q :: VisitsAll(v, q) && p.m == ExtendInOrder(v, old(p.m), q)
    ensures Extended(v, old(p.m), p.m)
    ensures ok <==> Accepts(v, rx, p.m, old(out[..]))
    ensures ok ==> out[..] == Filled(v, p.m, old(out[..]))
  {
    hide InRange, Extended, VisitsAll, ExtendInOrder, PresenceOk, DepsOk, PreclsOk, PatternsOk;
    FillDefaults(v, p);
    ok := FillValues(v, rx, p.m, out);
    if !ok {
      return;
    }
    ok := CheckDependencies(v, out);
    if !ok {
      return;
    }
    ok := CheckPreclusions(v, out);
    if !ok {
      return;
    }
    ok := CheckPatterns(v, rx, out);
  }

  // ---- what the documentation says, over names ----

  /** Whether a missing field makes the data invalid. */
  ghost predicate NeedsValue(e: Option<ValueExpr>, rx: Regexp, d: Data) {
    if e.None? then true
    else
      match e.value
      case Required => true
      case Optional => false
      case Default(_) => true
      case RequiredIf(f, p) => f in d && rx.matches(p, d[f])
      case OptionalIf(f, p) => !(f in d && rx.matches(p, d[f]))
  }

  ghost predicate ExactlyOnePresent(parts: seq<string>, d: Data) {
    exists j :: 0 <= j < |parts| && parts[j] in d && forall k :: 0 <= k < |parts| && k != j ==> parts[k] !in d
  }

  ghost predicate DependsMet(deps: string, d: Data) {
    forall g :: 0 <= g < |Split(deps, ',')| ==> ExactlyOnePresent(Split(Split(deps, ',')[g], '|'), d)
  }

  ghost predicate PrecludesMet(precls: string, d: Data) {
    forall j :: 0 <= j < |Split(precls, ',')| ==> Split(precls, ',')[j] !in d
  }

  /** One field: present and non-empty with its constraints met, or missing and not needed. */
  ghost predicate FieldDocumented(fields: seq<Field>, i: Index, rx: Regexp, d: Data)
    requires i < |fields|
  {
    var f := fields[i];
    if f.name in d then
      && d[f.name] != ""
      && (f.dependsOn.Some? ==> DependsMet(f.dependsOn.value, d))
      && (f.precludes.Some? ==> PrecludesMet(f.precludes.value, d))
      && (f.matches.Some? ==> rx.matches(f.matches.value, d[f.name]))
    else !NeedsValue(FieldExpr(fields, i), rx, d)
  }

  ghost predicate Documented(fields: seq<Field>, rx: Regexp, d: Data) {
    forall i :: 0 <= i < |fields| ==> FieldDocumented(fields, i, rx, d)
  }

  /** A default tag, spelled out. */
  lemma DefaultTag(fields: seq<Field>, i: Index, x: string)
    requires i < |fields|
    ensures FieldExpr(fields, i) == Some(Default(x)) <==> x != "" && fields[i].value == Some("default:" + x)
  {
    var names := NameSet(fields);
    if FieldExpr(fields, i) == Some(Default(x)) {
      ParsedIsRendered(fields[i].value.value, fields[i].name, names);
    }
    if x != "" && fields[i].value == Some("default:" + x) {
      ValueExprRoundTrip(Default(x), fields[i].name, names);
    }
  }

  /** A condition of a tag, `field=pattern`, met by the data. */
  ghost predicate ConditionMet(cond: string, rx: Regexp, d: Data) {
    exists i :: 0 <= i < |cond| && cond[i] == '=' && '=' !in cond[..i] && cond[..i] in d && rx.matches(cond[i + 1..], d[cond[..i]])
  }

  /** A field may be missing exactly if its tag says "optional", or "requiredIf:" with a condition
      that is not met, or "optionalIf:" with one that is. */
  lemma MissingSpelledOut(fields: seq<Field>, i: Index, rx: Regexp, d: Data)
    requires i < |fields| && ValidTags(fields, i, rx)
    ensures !NeedsValue(FieldExpr(fields, i), rx, d) <==>
              && fields[i].value.Some?
              && var t := fields[i].value.value;
                 || t == "optional"
                 || ("requiredIf:" <= t && !ConditionMet(t[11..], rx, d))
                 || ("optionalIf:" <= t && ConditionMet(t[11..], rx, d))
  {
    if fields[i].value.Some? {
      ParsedIsRendered(fields[i].value.value, fields[i].name, NameSet(fields));
      hide ConditionMet, NeedsValue, RenderValueExpr, ParseValueExpr;
      MissingByTag(FieldExpr(fields, i).value, fields[i].value.value, rx, d);
    }
  }

  lemma MissingByTag(e: ValueExpr, t: string, rx: Regexp, d: Data)
    requires t == RenderValueExpr(e) && ((e.RequiredIf? || e.OptionalIf?) ==> '=' !in e.field)
    ensures !NeedsValue(Some(e), rx, d) <==>
              || t == "optional"
              || ("requiredIf:" <= t && !ConditionMet(t[11..], rx, d))
              || ("optionalIf:" <= t && ConditionMet(t[11..], rx, d))
  {
    hide ConditionMet;
    TagsDiffer();
    match e {
      case Required =>
      case Optional =>
      case Default(v) =>
        assert t[..8] == "default:";
      case RequiredIf(f, p) =>
        assert t[..11] == "requiredIf:" && t[11..] == f + "=" + p;
        ConditionIs(f, p, rx, d);
      case OptionalIf(f, p) =>
        assert t[..11] == "optionalIf:" && t[11..] == f + "=" + p;
        ConditionIs(f, p, rx, d);
    }
  }

  lemma ConditionIs(f: string, p: string, rx: Regexp, d: Data)
    requires '=' !in f
    ensures ConditionMet(f + "=" + p, rx, d) <==> f in d && rx.matches(p, d[f])
  {
    var s := f + "=" + p;
    assert s[|f|] == '=' && s[..|f|] == f && s[|f| + 1..] == p;
    forall i | |f| < i < |s|
      ensures '=' in s[..i]
    {
      assert s[..i][|f|] == '=';
    }
  }

  ghost predicate Zeroed(o: seq<string>) {
    forall i :: 0 <= i < |o| ==> o[i] == ""
  }

  lemma RequiresAsSaid(v: ValueExpressions, i: Index, e: Option<ValueExpr>, rx: Regexp, d: Data)
    requires Says(v, i, e)
    ensures RequiresValue(v, i, rx, d) == NeedsValue(e, rx, d)
  {
  }

  /** A struct filled from nothing has a value exactly where the data has the name. */
  lemma SetIsPresent(v: Compiled, rx: Regexp, d: Data, o: seq<string>)
    requires |o| == |v.names| && Zeroed(o) && PresenceOk(v, rx, d)
    ensures forall i :: 0 <= i < |o| ==> (Filled(v, d, o)[i] != "" <==> v.names[i] in d)
  {
    forall i | 0 <= i < |o|
      ensures Filled(v, d, o)[i] != "" <==> v.names[i] in d
    {
      assert FieldPresent(v, rx, d, i);
    }
  }

  lemma GroupAsNames(names: seq<string>, e: seq<string>, d: Data, parts: seq<string>, xs: seq<Index>)
    requires |e| == |names| && Lookup(names, parts) == Some(xs) && Below(xs, |e|)
    requires forall i :: 0 <= i < |e| ==> (e[i] != "" <==> names[i] in d)
    ensures ExactlyOneSet(e, xs) <==> ExactlyOnePresent(parts, d)
    ensures NoneSet(e, xs) <==> forall j :: 0 <= j < |parts| ==> parts[j] !in d
  {
    assert forall j :: 0 <= j < |xs| ==> names[xs[j]] == parts[j];
    assert forall j :: 0 <= j < |xs| ==> (e[xs[j]] != "" <==> parts[j] in d);
  }

  lemma DepsAsNames(names: seq<string>, e: seq<string>, d: Data, deps: string)
    requires |e| == |names| && ParseDeps(names, deps).Some? && AllBelow(ParseDeps(names, deps).value, |e|)
    requires forall i :: 0 <= i < |e| ==> (e[i] != "" <==> names[i] in d)
    ensures GroupsOk(e, ParseDeps(names, deps).value) <==> DependsMet(deps, d)
  {
    hide ExactlyOneSet, ExactlyOnePresent, Lookup, Split;
    var groups, xs := Split(deps, ','), ParseDeps(names, deps).value;
    forall g | 0 <= g < |groups|
      ensures ExactlyOneSet(e, xs[g]) <==> ExactlyOnePresent(Split(groups[g], '|'), d)
    {
      assert Below(xs[g], |e|);
      GroupAsNames(names, e, d, Split(groups[g], '|'), xs[g]);
    }
  }

  /** One field's constraints, in indices and in names. */
  lemma FieldAsDocumented(v: Compiled, fields: seq<Field>, i: Index, rx: Regexp, d: Data, e: seq<string>)
    requires CompiledFrom(v, fields) && i < |fields| && |e| == |v.names|
    requires forall j :: 0 <= j < |e| ==> e[j] == if v.names[j] in d then d[v.names[j]] else ""
    requires forall j :: 0 <= j < |e| ==> (e[j] != "" <==> v.names[j] in d)
    requires FieldPresent(v, rx, d, i)
    ensures FieldDocumented(fields, i, rx, d) <==>
              && (i in v.deps && e[i] != "" ==> GroupsOk(e, v.deps[i]))
              && (i in v.precls && e[i] != "" ==> NoneSet(e, v.precls[i]))
              && (i in v.patterns && e[i] != "" ==> rx.matches(v.patterns[i], e[i]))
  {
    hide Says, FieldExpr, GroupsOk, DependsMet, NeedsValue, RequiresValue, ParseDeps, ParsePrecludes;
    assert Represents(v, fields, i);
    var f := fields[i];
    assert v.names[i] == f.name;
    RequiresAsSaid(v.exprs, i, FieldExpr(fields, i), rx, d);
    if f.dependsOn.Some? {
      DepsAsNames(v.names, e, d, f.dependsOn.value);
    }
    if f.precludes.Some? {
      PreclsAsNames(v.names, e, d, f.precludes.value);
    }
  }

  lemma PreclsAsNames(names: seq<string>, e: seq<string>, d: Data, precls: string)
    requires |e| == |names| && ParsePrecludes(names, precls).Some? && Below(ParsePrecludes(names, precls).value, |e|)
    requires forall i :: 0 <= i < |e| ==> (e[i] != "" <==> names[i] in d)
    ensures NoneSet(e, ParsePrecludes(names, precls).value) <==> PrecludesMet(precls, d)
  {
    GroupAsNames(names, e, d, Split(precls, ','), ParsePrecludes(names, precls).value);
  }

  lemma PresentIfDocumented(v: Compiled, fields: seq<Field>, rx: Regexp, d: Data)
    requires CompiledFrom(v, fields) && Documented(fields, rx, d)
    ensures PresenceOk(v, rx, d)
  {
    hide Says, FieldExpr, NeedsValue, RequiresValue;
    forall i | 0 <= i < |v.names|
      ensures FieldPresent(v, rx, d, i)
    {
      assert Represents(v, fields, i) && FieldDocumented(fields, i, rx, d);
      RequiresAsSaid(v.exprs, i, FieldExpr(fields, i), rx, d);
    }
  }

  /** On a zeroed struct the code accepts exactly what the tags are documented to mean. */
  lemma AcceptsDocumented(v: Compiled, fields: seq<Field>, rx: Regexp, d: Data, o: seq<string>)
    requires CompiledFrom(v, fields) && |o| == |fields| && Zeroed(o)
    ensures Accepts(v, rx, d, o) <==> Documented(fields, rx, d)
  {
    hide FieldPresent, FieldDocumented, GroupsOk, NoneSet, Represents;
    if Documented(fields, rx, d) {
      PresentIfDocumented(v, fields, rx, d);
    }
    if PresenceOk(v, rx, d) {
      var e := Filled(v, d, o);
      SetIsPresent(v, rx, d, o);
      forall i | 0 <= i < |fields|
        ensures FieldDocumented(fields, i, rx, d) <==>
                  && (i in v.deps && e[i] != "" ==> GroupsOk(e, v.deps[i]))
                  && (i in v.precls && e[i] != "" ==> NoneSet(e, v.precls[i]))
                  && (i in v.patterns && e[i] != "" ==> rx.matches(v.patterns[i], e[i]))
      {
        FieldAsDocumented(v, fields, i, rx, d, e);
      }
    }
  }

  // ---- the order of the defaults ----

  /** Fields that share a name agree on its default. */
  ghost predicate DefaultsAgree(v: Compiled)
    requires InRange(v)
  {
    forall i, j :: i in v.exprs.defaults && j in v.exprs.defaults && v.names[i] == v.names[j] ==>
      v.exprs.defaults[i] == v.exprs.defaults[j]
  }

  lemma {:induction false} Listing(s: set<Index>) returns (q: seq<Index>)
    ensures NoDuplicates(q) && forall i :: i in q <==> i in s
    decreases |s|
  {
    q := [];
    if |s| > 0 {
      var x := Pick(s);
      var rest := Listing(s - {x});
      q := rest + [x];
      assert forall i :: i in s <==> i == x || i in s - {x};
    }
  }

  lemma {:induction false} ExtendAppend(v: Compiled, m: Data, a: seq<Index>, b: seq<Index>)
    requires InRange(v) && (forall i :: i in a ==> i in v.exprs.defaults) && (forall i :: i in b ==> i in v.exprs.defaults)
    ensures (forall i :: i in a + b ==> i in v.exprs.defaults) && ExtendInOrder(v, m, a + b) == ExtendInOrder(v, ExtendInOrder(v, m, a), b)
    decreases |b|
  {
    if b == [] {
      assert a + b == a;
    } else {
      ExtendAppend(v, m, a, b[..|b| - 1]);
      assert (a + b)[..|a + b| - 1] == a + b[..|b| - 1];
    }
  }

  /** Names that all have a value already are left alone. */
  lemma {:induction false} ExtendNothing(v: Compiled, m: Data, q: seq<Index>)
    requires InRange(v) && (forall i :: i in q ==> i in v.exprs.defaults && v.names[i] in m)
    ensures ExtendInOrder(v, m, q) == m
    decreases |q|
  {
    if q != [] {
      ExtendNothing(v, m, q[..|q| - 1]);
    }
  }

  /** The defaults that `d` shows for names missing in `m`. */
  ghost function Chosen(v: Compiled, m: Data, d: Data): set<Index>
    requires InRange(v)
  {
    set i | i in v.exprs.defaults && v.names[i] !in m && v.names[i] in d && d[v.names[i]] == v.exprs.defaults[i]
  }

  lemma {:induction false} ExtendChosen(v: Compiled, m: Data, d: Data, q: seq<Index>)
    requires InRange(v) && Extended(v, m, d) && (forall i :: i in q ==> i in v.exprs.defaults && i in Chosen(v, m, d))
    ensures var e := ExtendInOrder(v, m, q);
            && (forall n :: n in e ==> n in d && d[n] == e[n])
            && (forall n :: n in m ==> n in e)
            && (forall i :: i in q ==> v.names[i] in e)
    decreases |q|
  {
    hide InRange;
    if q != [] {
      var last := q[|q| - 1];
      assert q == q[..|q| - 1] + [last];
      DefaultsNamed(v, last);
      ExtendChosen(v, m, d, q[..|q| - 1]);
    }
  }

  lemma ChosenIsAll(v: Compiled, m: Data, d: Data, q: seq<Index>)
    requires InRange(v) && Extended(v, m, d) && (forall i :: i in q <==> i in Chosen(v, m, d))
    ensures ExtendInOrder(v, m, q) == d
  {
    hide ExtendInOrder;
    ExtendChosen(v, m, d, q);
    var e := ExtendInOrder(v, m, q);
    forall n | n in d
      ensures n in e
    {
      if n !in m {
        var i :| i in v.exprs.defaults && v.names[i] == n && v.exprs.defaults[i] == d[n];
        assert i in q;
      }
    }
    assert e.Keys == d.Keys;
  }

  lemma VisitsBoth(v: Compiled, c: set<Index>, a: seq<Index>, b: seq<Index>)
    requires c <= v.exprs.defaults.Keys && NoDuplicates(a) && NoDuplicates(b)
    requires (forall i :: i in a <==> i in c) && (forall i :: i in b <==> i in v.exprs.defaults.Keys - c)
    ensures VisitsAll(v, a + b)
  {
    forall i, j | 0 <= i < j < |a + b|
      ensures (a + b)[i] != (a + b)[j]
    {
      if i < |a| <= j {
        assert a[i] in a && b[j - |a|] in b;
      }
    }
  }

  /** Every extension is what the loop makes in some order: the chosen defaults first. */
  lemma ExtensionReached(v: Compiled, m: Data, d: Data) returns (q: seq<Index>)
    requires InRange(v) && Extended(v, m, d)
    ensures VisitsAll(v, q) && ExtendInOrder(v, m, q) == d
  {
    hide InRange, ExtendInOrder;
    var c := Chosen(v, m, d);
    var a := Listing(c);
    var b := Listing(v.exprs.defaults.Keys - c);
    q := a + b;
    VisitsBoth(v, c, a, b);
    ChosenIsAll(v, m, d, a);
    ExtendAppend(v, m, a, b);
    ExtendNothing(v, d, b);
  }

  /** The loop's result is independent of the order, for all data, if and only if fields that
      share a name agree on its default. */
  lemma ExtensionUnique(v: Compiled)
    requires InRange(v)
    ensures DefaultsAgree(v) <==>
              forall m: Data, q: seq<Index>, q': seq<Index> :: VisitsAll(v, q) && VisitsAll(v, q') ==>
                ExtendInOrder(v, m, q) == ExtendInOrder(v, m, q')
  {
    hide InRange, ExtendInOrder, Extended;
    if DefaultsAgree(v) {
      forall m: Data, q: seq<Index>, q': seq<Index> | VisitsAll(v, q) && VisitsAll(v, q')
        ensures ExtendInOrder(v, m, q) == ExtendInOrder(v, m, q')
      {
        OrderExtends(v, m, q);
        OrderExtends(v, m, q');
        var c, d := ExtendInOrder(v, m, q), ExtendInOrder(v, m, q');
        SameExtension(v, m, c, d);
        SameExtension(v, m, d, c);
        assert c.Keys == d.Keys;
      }
    } else {
      var _, _ := TwoOrders(v);
    }
  }

  lemma SameExtension(v: Compiled, m: Data, c: Data, d: Data)
    requires InRange(v) && DefaultsAgree(v) && Extended(v, m, c) && Extended(v, m, d)
    ensures forall n :: n in c ==> n in d && d[n] == c[n]
  {
    forall n | n in c
      ensures n in d && d[n] == c[n]
    {
      if n !in m {
        var i :| i in v.exprs.defaults && v.names[i] == n && v.exprs.defaults[i] == c[n];
      }
    }
  }

  /** Otherwise two orders give different results, on the empty data. */
  lemma TwoOrders(v: Compiled) returns (q: seq<Index>, q': seq<Index>)
    requires InRange(v) && !DefaultsAgree(v)
    ensures VisitsAll(v, q) && VisitsAll(v, q') && ExtendInOrder(v, map[], q) != ExtendInOrder(v, map[], q')
  {
    hide Extended, VisitsAll, ExtendInOrder;
    var i, j :| i in v.exprs.defaults && j in v.exprs.defaults && v.names[i] == v.names[j] && v.exprs.defaults[i] != v.exprs.defaults[j];
    var c := AnyExtension(v);
    Override(v, c, i);
    Override(v, c, j);
    var n := v.names[i];
    var c1, c2 := c[n := v.exprs.defaults[i]], c[n := v.exprs.defaults[j]];
    assert c1[n] != c2[n];
    q := ExtensionReached(v, map[], c1);
    q' := ExtensionReached(v, map[], c2);
  }

  lemma Override(v: Compiled, c: Data, i: Index)
    requires InRange(v) && Extended(v, map[], c) && i in v.exprs.defaults
    ensures Extended(v, map[], c[v.names[i] := v.exprs.defaults[i]])
  {
    var d := c[v.names[i] := v.exprs.defaults[i]];
    forall n | n in d
      ensures exists k :: k in v.exprs.defaults && v.names[k] == n && v.exprs.defaults[k] == d[n]
    {
      if n != v.names[i] {
        assert n in c && d[n] == c[n];
      }
    }
  }

  /** Some extension of the empty data. */
  ghost function AnyExtension(v: Compiled): (d: Data)
    requires InRange(v)
    ensures Extended(v, map[], d)
  {
    var keys := set i | i in v.exprs.defaults :: v.names[i];
    map n | n in keys :: DefaultFor(v, n)
  }

  ghost function DefaultFor(v: Compiled, n: string): (x: string)
    requires InRange(v) && exists i :: i in v.exprs.defaults && v.names[i] == n
    ensures exists i :: i in v.exprs.defaults && v.names[i] == n && v.exprs.defaults[i] == x
  {
    var i :| i in v.exprs.defaults && v.names[i] == n;
    v.exprs.defaults[i]
  }

  /** The options as given, and for a missing name some default that a field gives it. */
  ghost predicate ExtendedByTags(fields: seq<Field>, m: Data, d: Data) {
    && (forall n :: n in m ==> n in d && d[n] == m[n])
    && (forall n :: n in d && n !in m ==> exists i :: 0 <= i < |fields| && fields[i].name == n && FieldExpr(fields, i) == Some(Default(d[n])))
    && (forall i :: 0 <= i < |fields| && FieldExpr(fields, i).Some? && FieldExpr(fields, i).value.Default? ==> fields[i].name in d)
  }

  lemma ExtensionByTags(v: Compiled, fields: seq<Field>, m: Data, d: Data)
    requires CompiledFrom(v, fields) && Extended(v, m, d)
    ensures ExtendedByTags(fields, m, d)
  {
    hide FieldExpr, ParseDeps, ParsePrecludes;
    forall i | 0 <= i < |fields|
      ensures i in v.exprs.defaults <==> FieldExpr(fields, i).Some? && FieldExpr(fields, i).value.Default?
      ensures i in v.exprs.defaults ==> FieldExpr(fields, i) == Some(Default(v.exprs.defaults[i]))
    {
      assert Represents(v, fields, i);
    }
    forall n | n in d && n !in m
      ensures exists i :: 0 <= i < |fields| && fields[i].name == n && FieldExpr(fields, i) == Some(Default(d[n]))
    {
      var i :| i in v.exprs.defaults && v.names[i] == n && v.exprs.defaults[i] == d[n];
      assert fields[i].name == n;
    }
  }

  /** Construction and population of a fresh struct, end to end. */
  method Validate(fields: seq<Field>, rx: Regexp, p: Params) returns (ok: bool, out: array<string>)
    requires forall i :: 0 <= i < |fields| ==> ValidTags(fields, i, rx)
    modifies p
    ensures fresh(out) && out.Length == |fields|
    ensures ExtendedByTags(fields, old(p.m), p.m)
    ensures ok <==> Documented(fields, rx, p.m)
    ensures ok ==> forall i :: 0 <= i < |fields| ==> out[i] == if fields[i].name in p.m then p.m[fields[i].name] else ""
  {
    hide Accepts, Documented, ValidTags, InRange, Extended, Represents;
    var v := New(fields, rx);
    out := new string[|fields|](_ => "");
    ghost var o := out[..];
    ok := PopulateStruct(v.value, rx, p, out);
    ExtensionByTags(v.value, fields, old(p.m), p.m);
    AcceptsDocumented(v.value, fields, rx, p.m, o);
    assert ok ==> forall i :: 0 <= i < |fields| ==> out[i] == out[..][i];
  }
}
