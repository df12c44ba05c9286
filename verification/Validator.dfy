/** The share-option validator: a small constraint language read from struct tags, evaluated
    over an options map by loops whose order Go leaves open. */
module Validator {
  import opened Common
  import opened Strings

  type Index = nat

  /** The tags of one struct field. */
  datatype Field = Field(name: string, value: Option<string>, dependsOn: Option<string>, precludes: Option<string>,
                         matches: Option<string>)

  /** Regular expressions, left uninterpreted. */
  datatype Regexp = Regexp(compiles: string -> bool, matches: (string, string) -> bool)

  // ---- value expressions ----

  datatype ValueExpr =
    | Required
    | Optional
    | Default(arg: string)
    | RequiredIf(field: string, pattern: string)
    | OptionalIf(field: string, pattern: string)

  const REQUIRED := "required"
  const OPTIONAL := "optional"
  const DEFAULT := "default:"
  const REQUIRED_IF := "requiredIf:"
  const OPTIONAL_IF := "optionalIf:"

  predicate Tagged(value: string, tag: string) {
    |value| > |tag| && value[..|tag|] == tag
  }

  function ParseCondition(rest: string, self: string, names: set<string>): Option<(string, string)> {
    var i := IndexOf(rest, '=');
    if i.None? || i.value == 0 then None
    else
      var field := rest[..i.value];
      if field == self || field !in names then None else Some((field, rest[i.value + 1..]))
  }

  /** `parseValueExpr`; `None` stands for the panic on an invalid tag. */
  function ParseValueExpr(value: string, self: string, names: set<string>): Option<ValueExpr> {
    if value == OPTIONAL then Some(Optional)
    else if value == REQUIRED then Some(Required)
    else if Tagged(value, DEFAULT) then Some(Default(value[|DEFAULT|..]))
    else if Tagged(value, REQUIRED_IF) then
      var c := ParseCondition(value[|REQUIRED_IF|..], self, names);
      if c.None? then None else Some(RequiredIf(c.value.0, c.value.1))
    else if Tagged(value, OPTIONAL_IF) then
      var c := ParseCondition(value[|OPTIONAL_IF|..], self, names);
      if c.None? then None else Some(OptionalIf(c.value.0, c.value.1))
    else None
  }

  function RenderValueExpr(e: ValueExpr): string {
    match e
    case Required => REQUIRED
    case Optional => OPTIONAL
    case Default(v) => DEFAULT + v
    case RequiredIf(f, p) => REQUIRED_IF + f + "=" + p
    case OptionalIf(f, p) => OPTIONAL_IF + f + "=" + p
  }

  /** The expressions a tag can express. */
  predicate Expressible(e: ValueExpr, self: string, names: set<string>) {
    match e
    case Default(v) => v != ""
    case RequiredIf(f, _) => f != "" && '=' !in f && f != self && f in names
    case OptionalIf(f, _) => f != "" && '=' !in f && f != self && f in names
    case _ => true
  }

  lemma ConditionRoundTrip(f: string, p: string, self: string, names: set<string>)
    requires f != "" && '=' !in f && f != self && f in names
    ensures ParseCondition(f + "=" + p, self, names) == Some((f, p))
  {
    FirstEquals(f, p);
    var s := f + "=" + p;
    assert s[..|f|] == f && s[|f| + 1..] == p;
  }

  lemma {:induction false} FirstEquals(f: string, p: string)
    requires '=' !in f
    ensures IndexOf(f + "=" + p, '=') == Some(|f|)
  {
    if f != "" {
      FirstEquals(f[1..], p);
      assert (f + "=" + p)[1..] == f[1..] + "=" + p;
    }
  }

  /** Parsing inverts rendering, and accepts nothing but renderings. */
  lemma ValueExprRoundTrip(e: ValueExpr, self: string, names: set<string>)
    requires Expressible(e, self, names)
    ensures ParseValueExpr(RenderValueExpr(e), self, names) == Some(e)
  {
    var s := RenderValueExpr(e);
    TagsDiffer();
    match e {
      case Required =>
      case Optional =>
      case Default(v) =>
        assert s[..|DEFAULT|] == DEFAULT && s[|DEFAULT|..] == v;
      case RequiredIf(f, p) =>
        assert s[..|REQUIRED_IF|] == REQUIRED_IF && s[|REQUIRED_IF|..] == f + "=" + p;
        ConditionRoundTrip(f, p, self, names);
      case OptionalIf(f, p) =>
        assert s[..|OPTIONAL_IF|] == OPTIONAL_IF && s[|OPTIONAL_IF|..] == f + "=" + p;
        ConditionRoundTrip(f, p, self, names);
    }
  }

  lemma TagsDiffer()
    ensures REQUIRED[0] == 'r' && OPTIONAL[0] == 'o' && DEFAULT[0] == 'd' && REQUIRED_IF[0] == 'r' && OPTIONAL_IF[0] == 'o'
    ensures |REQUIRED| == 8 && |OPTIONAL| == 8 && |DEFAULT| == 8 && |REQUIRED_IF| == 11 && |OPTIONAL_IF| == 11
  {
  }

  lemma ParsedIsRendered(value: string, self: string, names: set<string>)
    requires ParseValueExpr(value, self, names).Some?
    ensures var e := ParseValueExpr(value, self, names).value;
            Expressible(e, self, names) && RenderValueExpr(e) == value
  {
    hide IndexOf, ParseCondition;
    if value != OPTIONAL && value != REQUIRED {
      if Tagged(value, DEFAULT) {
        assert value == value[..|DEFAULT|] + value[|DEFAULT|..];
      } else if Tagged(value, REQUIRED_IF) {
        SplitCondition(value[|REQUIRED_IF|..], self, names);
        assert value == value[..|REQUIRED_IF|] + value[|REQUIRED_IF|..];
      } else {
        SplitCondition(value[|OPTIONAL_IF|..], self, names);
        assert value == value[..|OPTIONAL_IF|] + value[|OPTIONAL_IF|..];
      }
    }
  }

  lemma SplitCondition(rest: string, self: string, names: set<string>)
    requires ParseCondition(rest, self, names).Some?
    ensures var c := ParseCondition(rest, self, names).value;
            rest == c.0 + "=" + c.1 && c.0 != "" && '=' !in c.0 && c.0 != self && c.0 in names
  {
    var i := IndexOf(rest, '=').value;
    assert rest == rest[..i] + [rest[i]] + rest[i + 1..];
  }

  // ---- dependency and preclusion expressions ----

  /** The index a name stands for: the last field that has it. */
  function IndexOfName(names: seq<string>, n: string): (r: Option<Index>)
    ensures r.Some? ==> r.value < |names| && names[r.value] == n
    ensures r.None? ==> n !in names
  {
    if names == [] then None
    else if names[|names| - 1] == n then Some(|names| - 1)
    else IndexOfName(names[..|names| - 1], n)
  }

  function Lookup(names: seq<string>, parts: seq<string>): (r: Option<seq<Index>>)
    ensures r.Some? ==> |r.value| == |parts| && forall i :: 0 <= i < |parts| ==> IndexOfName(names, parts[i]) == Some(r.value[i])
    ensures r.None? ==> exists i :: 0 <= i < |parts| && parts[i] !in names
  {
    if parts == [] then Some([])
    else
      var x, rest := IndexOfName(names, parts[0]), Lookup(names, parts[1..]);
      if x.None? then None
      else if rest.None? then
        assert exists i :: 0 <= i < |parts| && parts[i] !in names by {
          var i :| 0 <= i < |parts[1..]| && parts[1..][i] !in names;
          assert parts[i + 1] !in names;
        }
        None
      else Some([x.value] + rest.value)
  }

  function ParseGroups(names: seq<string>, groups: seq<string>): (r: Option<seq<seq<Index>>>)
    ensures r.Some? ==> |r.value| == |groups|
    ensures r.Some? ==> forall i :: 0 <= i < |groups| ==> Lookup(names, Split(groups[i], '|')) == Some(r.value[i])
    ensures r.None? ==> exists i :: 0 <= i < |groups| && Lookup(names, Split(groups[i], '|')).None?
  {
    if groups == [] then Some([])
    else
      var g, rest := Lookup(names, Split(groups[0], '|')), ParseGroups(names, groups[1..]);
      if g.None? then None
      else if rest.None? then
        assert exists i :: 0 <= i < |groups| && Lookup(names, Split(groups[i], '|')).None? by {
          var i :| 0 <= i < |groups[1..]| && Lookup(names, Split(groups[1..][i], '|')).None?;
          assert Lookup(names, Split(groups[i + 1], '|')).None?;
        }
        None
      else Some([g.value] + rest.value)
  }

  /** `parseDepsExpr`: groups separated by commas, alternatives by bars. */
  function ParseDeps(names: seq<string>, deps: string): Option<seq<seq<Index>>> {
    ParseGroups(names, Split(deps, ','))
  }

  /** `parsePreclsExpr`. */
  function ParsePrecludes(names: seq<string>, precls: string): Option<seq<Index>> {
    Lookup(names, Split(precls, ','))
  }

  function NamesOf(names: seq<string>, xs: seq<Index>): (r: seq<string>)
    requires forall i :: 0 <= i < |xs| ==> xs[i] < |names|
    ensures |r| == |xs| && forall i :: 0 <= i < |xs| ==> r[i] == names[xs[i]]
  {
    if xs == [] then [] else [names[xs[0]]] + NamesOf(names, xs[1..])
  }

  /** A dependency expression over the fields: non-empty groups of indices. */
  ghost predicate WellFormedDeps(names: seq<string>, e: seq<seq<Index>>) {
    && e != []
    && forall i :: 0 <= i < |e| ==> e[i] != [] && forall j :: 0 <= j < |e[i]| ==> e[i][j] < |names|
  }

  function RenderGroups(names: seq<string>, e: seq<seq<Index>>): (r: seq<string>)
    requires forall i :: 0 <= i < |e| ==> e[i] != [] && forall j :: 0 <= j < |e[i]| ==> e[i][j] < |names|
    ensures |r| == |e| && forall i :: 0 <= i < |e| ==> r[i] == Join(NamesOf(names, e[i]), '|')
  {
    if e == [] then [] else [Join(NamesOf(names, e[0]), '|')] + RenderGroups(names, e[1..])
  }

  function RenderDeps(names: seq<string>, e: seq<seq<Index>>): string
    requires WellFormedDeps(names, e)
  {
    Join(RenderGroups(names, e), ',')
  }

  /** Field names that can be written in an expression: distinct, without delimiters. */
  ghost predicate PlainNames(names: seq<string>) {
    NoDuplicates(names) && forall i :: 0 <= i < |names| ==> ',' !in names[i] && '|' !in names[i]
  }

  lemma LookupNames(names: seq<string>, xs: seq<Index>)
    requires NoDuplicates(names) && forall i :: 0 <= i < |xs| ==> xs[i] < |names|
    ensures Lookup(names, NamesOf(names, xs)) == Some(xs)
  {
    hide NoDuplicates, Lookup;
    var parts := NamesOf(names, xs);
    forall i | 0 <= i < |xs|
      ensures IndexOfName(names, parts[i]) == Some(xs[i])
    {
      OwnIndex(names, xs[i]);
    }
    LookupFinds(names, parts, xs);
  }

  lemma {:induction false} LookupFinds(names: seq<string>, parts: seq<string>, xs: seq<Index>)
    requires |parts| == |xs| && forall i :: 0 <= i < |xs| ==> IndexOfName(names, parts[i]) == Some(xs[i])
    ensures Lookup(names, parts) == Some(xs)
  {
    hide IndexOfName;
    if parts != [] {
      LookupFinds(names, parts[1..], xs[1..]);
      assert xs == [xs[0]] + xs[1..];
    }
  }

  lemma OwnIndex(names: seq<string>, x: Index)
    requires NoDuplicates(names) && x < |names|
    ensures IndexOfName(names, names[x]) == Some(x)
  {
    var r := IndexOfName(names, names[x]);
    assert r.Some? && names[r.value] == names[x];
  }

  lemma {:induction false} JoinAvoids(parts: seq<string>, d: char, c: char)
    requires |parts| >= 1 && c != d && forall i :: 0 <= i < |parts| ==> c !in parts[i]
    ensures c !in Join(parts, d)
  {
    if |parts| > 1 {
      JoinAvoids(parts[1..], d, c);
    }
  }

  lemma {:induction false} GroupsRoundTrip(names: seq<string>, e: seq<seq<Index>>)
    requires PlainNames(names)
    requires forall i :: 0 <= i < |e| ==> e[i] != [] && forall j :: 0 <= j < |e[i]| ==> e[i][j] < |names|
    ensures ParseGroups(names, RenderGroups(names, e)) == Some(e)
    ensures forall i :: 0 <= i < |e| ==> ',' !in RenderGroups(names, e)[i]
  {
    hide Join, Split, NoDuplicates, Lookup;
    if e != [] {
      GroupRoundTrip(names, e[0]);
      GroupsRoundTrip(names, e[1..]);
      var r := RenderGroups(names, e);
      assert r[1..] == RenderGroups(names, e[1..]);
      assert forall i :: 1 <= i < |e| ==> r[i] == r[1..][i - 1];
      assert e == [e[0]] + e[1..];
    }
  }

  lemma GroupRoundTrip(names: seq<string>, xs: seq<Index>)
    requires PlainNames(names) && xs != [] && forall j :: 0 <= j < |xs| ==> xs[j] < |names|
    ensures Lookup(names, Split(Join(NamesOf(names, xs), '|'), '|')) == Some(xs) && ',' !in Join(NamesOf(names, xs), '|')
  {
    hide Join, Split, Lookup, NoDuplicates;
    var g := NamesOf(names, xs);
    SplitJoin(g, '|');
    LookupNames(names, xs);
    JoinAvoids(g, '|', ',');
  }

  /** Parsing a rendered dependency expression gives it back. */
  lemma DepsRoundTrip(names: seq<string>, e: seq<seq<Index>>)
    requires PlainNames(names) && WellFormedDeps(names, e)
    ensures ParseDeps(names, RenderDeps(names, e)) == Some(e)
  {
    GroupsRoundTrip(names, e);
    SplitJoin(RenderGroups(names, e), ',');
  }

  method LookupAll(names: seq<string>, parts: seq<string>) returns (r: Option<seq<Index>>)
    ensures r == Lookup(names, parts)
  {
    var out: seq<Index> := [];
    for j := 0 to |parts|
      invariant |out| == j && forall k :: 0 <= k < j ==> IndexOfName(names, parts[k]) == Some(out[k])
    {
      var x := IndexOfName(names, parts[j]);
      if x.None? {
        return None;
      }
      out := out + [x.value];
    }
    assert forall k :: 0 <= k < |parts| ==> parts[k] in names;
    ghost var want := Lookup(names, parts);
    assert want.Some? && out == want.value;
    return Some(out);
  }

  /** `parseDepsExpr` as the nested loops compute it. */
  method ParseDepsExpr(names: seq<string>, deps: string) returns (r: Option<seq<seq<Index>>>)
    ensures r == ParseDeps(names, deps)
  {
    hide Lookup;
    var groups := Split(deps, ',');
    var out: seq<seq<Index>> := [];
    for i := 0 to |groups|
      invariant |out| == i && forall k :: 0 <= k < i ==> Lookup(names, Split(groups[k], '|')) == Some(out[k])
    {
      var g := LookupAll(names, Split(groups[i], '|'));
      if g.None? {
        return None;
      }
      out := out + [g.value];
    }
    ghost var want := ParseGroups(names, groups);
    assert want.Some? && out == want.value;
    return Some(out);
  }

  // ---- the compiled validator ----

  datatype Cond = Cond(field: string, pattern: string)

  datatype ValueExpressions = ValueExpressions(
    required: map<Index, bool>, condRequired: map<Index, Cond>, condOptional: map<Index, Cond>, defaults: map<Index, string>)

  datatype Compiled = Compiled(
    names: seq<string>, exprs: ValueExpressions, deps: map<Index, seq<seq<Index>>>, precls: map<Index, seq<Index>>,
    patterns: map<Index, string>)

  function FieldNames(fields: seq<Field>): (r: seq<string>)
    ensures |r| == |fields| && forall i :: 0 <= i < |r| ==> r[i] == fields[i].name
  {
    if fields == [] then [] else [fields[0].name] + FieldNames(fields[1..])
  }

  function NameSet(fields: seq<Field>): set<string> {
    set n | n in FieldNames(fields)
  }

  predicate CompilesIn(rx: Regexp, e: ValueExpr) {
    match e
    case RequiredIf(_, p) => rx.compiles(p)
    case OptionalIf(_, p) => rx.compiles(p)
    case _ => true
  }

  /** The tags of field `i` are such that construction does not panic. */
  ghost predicate ValidTags(fields: seq<Field>, i: Index, rx: Regexp)
    requires i < |fields|
  {
    var f, names := fields[i], FieldNames(fields);
    && (f.value.Some? ==>
          ParseValueExpr(f.value.value, f.name, NameSet(fields)).Some? && CompilesIn(rx, ParseValueExpr(f.value.value, f.name, NameSet(fields)).value))
    && (f.dependsOn.Some? ==> ParseDeps(names, f.dependsOn.value).Some?)
    && (f.precludes.Some? ==> ParsePrecludes(names, f.precludes.value).Some?)
    && (f.matches.Some? ==> rx.compiles(f.matches.value))
  }

  ghost predicate AreFields(fields: seq<Field>, parts: seq<string>) {
    forall n :: n in parts ==> exists j :: 0 <= j < |fields| && fields[j].name == n
  }

  ghost predicate GroupsAreFields(fields: seq<Field>, groups: seq<string>) {
    forall i :: 0 <= i < |groups| ==> AreFields(fields, Split(groups[i], '|'))
  }

  /** A condition of a tag: another field, the first '=', and a pattern that compiles. */
  ghost predicate ValidCondition(c: string, self: string, names: set<string>, rx: Regexp) {
    exists i :: 0 < i < |c| && c[i] == '=' && '=' !in c[..i] && c[..i] != self && c[..i] in names && rx.compiles(c[i + 1..])
  }

  lemma ConditionParses(c: string, self: string, names: set<string>, rx: Regexp)
    ensures ValidCondition(c, self, names, rx) <==>
              ParseCondition(c, self, names).Some? && rx.compiles(ParseCondition(c, self, names).value.1)
  {
    var at := IndexOf(c, '=');
    forall i | at.Some? && at.value < i < |c|
      ensures '=' in c[..i]
    {
      assert c[..i][at.value] == '=';
    }
  }

  /** The value tags construction accepts. */
  lemma ValidValueTag(t: string, self: string, names: set<string>, rx: Regexp)
    ensures ParseValueExpr(t, self, names).Some? && CompilesIn(rx, ParseValueExpr(t, self, names).value) <==>
              || t == "required" || t == "optional"
              || ("default:" <= t && |t| > 8)
              || (("requiredIf:" <= t || "optionalIf:" <= t) && ValidCondition(t[11..], self, names, rx))
  {
    hide ValidCondition, ParseCondition;
    TagsDiffer();
    assert "default:" <= t <==> |t| >= 8 && t[..8] == DEFAULT;
    assert "requiredIf:" <= t <==> |t| >= 11 && t[..11] == REQUIRED_IF;
    assert "optionalIf:" <= t <==> |t| >= 11 && t[..11] == OPTIONAL_IF;
    assert |t| >= 11 ==> t[0] == t[..8][0] == t[..11][0];
    NothingParses(self, names, rx);
    if |t| >= 11 {
      ConditionParses(t[11..], self, names, rx);
      assert |t| == 11 ==> t[11..] == "";
    }
  }

  lemma NothingParses(self: string, names: set<string>, rx: Regexp)
    ensures !ValidCondition("", self, names, rx)
  {
  }

  /** The dependency and preclusion tags construction accepts: all names are fields. */
  lemma ValidNameTags(fields: seq<Field>, tag: string)
    ensures ParseDeps(FieldNames(fields), tag).Some? <==> GroupsAreFields(fields, Split(tag, ','))
    ensures ParsePrecludes(FieldNames(fields), tag).Some? <==> AreFields(fields, Split(tag, ','))
  {
    hide AreFields, GroupsAreFields;
    var groups := Split(tag, ',');
    LookupSucceeds(fields, groups);
    GroupsSucceed(fields, groups);
  }

  lemma GroupsSucceed(fields: seq<Field>, groups: seq<string>)
    ensures ParseGroups(FieldNames(fields), groups).Some? <==> GroupsAreFields(fields, groups)
  {
    hide AreFields;
    forall i | 0 <= i < |groups|
      ensures Lookup(FieldNames(fields), Split(groups[i], '|')).Some? <==> AreFields(fields, Split(groups[i], '|'))
    {
      LookupSucceeds(fields, Split(groups[i], '|'));
    }
  }

  lemma LookupSucceeds(fields: seq<Field>, parts: seq<string>)
    ensures Lookup(FieldNames(fields), parts).Some? <==> AreFields(fields, parts)
  {
    var names := FieldNames(fields);
    var r := Lookup(names, parts);
    if r.Some? {
      forall n | n in parts
        ensures exists j :: 0 <= j < |fields| && fields[j].name == n
      {
        var i :| 0 <= i < |parts| && parts[i] == n;
        assert IndexOfName(names, parts[i]) == Some(r.value[i]);
        assert fields[r.value[i]].name == n;
      }
    } else {
      var i :| 0 <= i < |parts| && parts[i] !in names;
      assert parts[i] in parts && forall j :: 0 <= j < |fields| ==> names[j] == fields[j].name;
    }
  }

  ghost function FieldExpr(fields: seq<Field>, i: Index): Option<ValueExpr>
    requires i < |fields|
  {
    if fields[i].value.None? then None else ParseValueExpr(fields[i].value.value, fields[i].name, NameSet(fields))
  }

  /** The four maps together say `e` about index `i`. */
  ghost predicate Says(v: ValueExpressions, i: Index, e: Option<ValueExpr>) {
    && (i in v.required <==> e.Some? && (e.value.Required? || e.value.Optional?))
    && (i in v.condRequired <==> e.Some? && e.value.RequiredIf?)
    && (i in v.condOptional <==> e.Some? && e.value.OptionalIf?)
    && (i in v.defaults <==> e.Some? && e.value.Default?)
    && (i in v.required ==> (v.required[i] <==> e.value.Required?))
    && (i in v.condRequired ==> v.condRequired[i] == Cond(e.value.field, e.value.pattern))
    && (i in v.condOptional ==> v.condOptional[i] == Cond(e.value.field, e.value.pattern))
    && (i in v.defaults ==> v.defaults[i] == e.value.arg)
  }

  /** The compiled form of the tags of field `i`. */
  ghost predicate Represents(v: Compiled, fields: seq<Field>, i: Index)
    requires i < |fields|
  {
    var f, names := fields[i], FieldNames(fields);
    && Says(v.exprs, i, FieldExpr(fields, i))
    && (i in v.deps <==> f.dependsOn.Some?) && (i in v.deps ==> ParseDeps(names, f.dependsOn.value) == Some(v.deps[i]))
    && (i in v.precls <==> f.precludes.Some?) && (i in v.precls ==> ParsePrecludes(names, f.precludes.value) == Some(v.precls[i]))
    && (i in v.patterns <==> f.matches.Some?) && (i in v.patterns ==> v.patterns[i] == f.matches.value)
  }

  /** Indices stay within the struct. */
  ghost predicate InRange(v: Compiled) {
    && (forall i :: i in v.exprs.required || i in v.exprs.condRequired || i in v.exprs.condOptional || i in v.exprs.defaults ==> i < |v.names|)
    && (forall i :: i in v.deps ==> i < |v.names| && AllBelow(v.deps[i], |v.names|))
    && (forall i :: i in v.precls ==> i < |v.names| && Below(v.precls[i], |v.names|))
    && (forall i :: i in v.patterns ==> i < |v.names|)
  }

  ghost predicate Below(xs: seq<Index>, n: nat) {
    forall j :: 0 <= j < |xs| ==> xs[j] < n
  }

  ghost predicate AllBelow(e: seq<seq<Index>>, n: nat) {
    forall g :: 0 <= g < |e| ==> Below(e[g], n)
  }

  ghost predicate CompiledFrom(v: Compiled, fields: seq<Field>) {
    v.names == FieldNames(fields) && InRange(v) && forall i :: 0 <= i < |fields| ==> Represents(v, fields, i)
  }

  /** One field's value tag. */
  function AddValueExpr(v: ValueExpressions, i: Index, e: ValueExpr): ValueExpressions {
    match e
    case Optional => v.(required := v.required[i := false])
    case Required => v.(required := v.required[i := true])
    case Default(x) => v.(defaults := v.defaults[i := x])
    case RequiredIf(f, p) => v.(condRequired := v.condRequired[i := Cond(f, p)])
    case OptionalIf(f, p) => v.(condOptional := v.condOptional[i := Cond(f, p)])
  }

  lemma AddSays(v: ValueExpressions, i: Index, e: ValueExpr, j: Index, d: Option<ValueExpr>)
    requires Says(v, i, None)
    ensures Says(AddValueExpr(v, i, e), i, Some(e))
    ensures j != i && Says(v, j, d) ==> Says(AddValueExpr(v, i, e), j, d)
  {
  }

  ghost predicate ValueTagOk(fields: seq<Field>, i: Index, rx: Regexp)
    requires i < |fields|
  {
    fields[i].value.Some? ==> FieldExpr(fields, i).Some? && CompilesIn(rx, FieldExpr(fields, i).value)
  }

  /** The expressions of the fields before `n`, and nothing about the others. */
  ghost predicate SaysUpTo(v: ValueExpressions, fields: seq<Field>, n: nat)
    requires n <= |fields|
  {
    && (forall i :: 0 <= i < n ==> Says(v, i, FieldExpr(fields, i)))
    && (forall i: Index :: i >= n ==> Says(v, i, None))
  }

  method BuildValueExpressions(fields: seq<Field>, rx: Regexp) returns (r: Option<ValueExpressions>)
    ensures r.Some? <==> forall i :: 0 <= i < |fields| ==> ValueTagOk(fields, i, rx)
    ensures r.Some? ==> SaysUpTo(r.value, fields, |fields|)
  {
    hide Says, ParseValueExpr;
    var v := ValueExpressions(map[], map[], map[], map[]);
    var names := NameSet(fields);
    SaysNothing();
    for i := 0 to |fields|
      invariant SaysUpTo(v, fields, i)
      invariant forall j :: 0 <= j < i ==> ValueTagOk(fields, j, rx)
    {
      if fields[i].value.None? {
        continue;
      }
      var e := ParseValueExpr(fields[i].value.value, fields[i].name, names);
      if e.None? || !CompilesIn(rx, e.value) {
        assert !ValueTagOk(fields, i, rx);
        return None;
      }
      forall j: Index, d: Option<ValueExpr>
        ensures Says(AddValueExpr(v, i, e.value), i, e)
        ensures j != i && Says(v, j, d) ==> Says(AddValueExpr(v, i, e.value), j, d)
      {
        AddSays(v, i, e.value, j, d);
      }
      v := AddValueExpr(v, i, e.value);
    }
    return Some(v);
  }

  lemma SaysNothing()
    ensures forall i: Index :: Says(ValueExpressions(map[], map[], map[], map[]), i, None)
  {
  }

  method BuildDependencies(fields: seq<Field>) returns (r: Option<map<Index, seq<seq<Index>>>>)
    ensures r.Some? <==> forall i :: 0 <= i < |fields| && fields[i].dependsOn.Some? ==> ParseDeps(FieldNames(fields), fields[i].dependsOn.value).Some?
    ensures r.Some? ==> forall i :: i in r.value <==> 0 <= i < |fields| && fields[i].dependsOn.Some?
    ensures r.Some? ==> forall i :: i in r.value ==> ParseDeps(FieldNames(fields), fields[i].dependsOn.value) == Some(r.value[i])
  {
    hide ParseDeps;
    var m: map<Index, seq<seq<Index>>> := map[];
    for i := 0 to |fields|
      invariant forall j :: j in m <==> 0 <= j < i && fields[j].dependsOn.Some?
      invariant forall j :: j in m ==> ParseDeps(FieldNames(fields), fields[j].dependsOn.value) == Some(m[j])
    {
      if fields[i].dependsOn.Some? {
        var e := ParseDepsExpr(FieldNames(fields), fields[i].dependsOn.value);
        if e.None? {
          return None;
        }
        m := m[i := e.value];
      }
    }
    return Some(m);
  }

  method BuildPreclusions(fields: seq<Field>) returns (r: Option<map<Index, seq<Index>>>)
    ensures r.Some? <==> forall i :: 0 <= i < |fields| && fields[i].precludes.Some? ==> ParsePrecludes(FieldNames(fields), fields[i].precludes.value).Some?
    ensures r.Some? ==> forall i :: i in r.value <==> 0 <= i < |fields| && fields[i].precludes.Some?
    ensures r.Some? ==> forall i :: i in r.value ==> ParsePrecludes(FieldNames(fields), fields[i].precludes.value) == Some(r.value[i])
  {
    hide Lookup;
    var m: map<Index, seq<Index>> := map[];
    for i := 0 to |fields|
      invariant forall j :: j in m <==> 0 <= j < i && fields[j].precludes.Some?
      invariant forall j :: j in m ==> ParsePrecludes(FieldNames(fields), fields[j].precludes.value) == Some(m[j])
    {
      if fields[i].precludes.Some? {
        var e := LookupAll(FieldNames(fields), Split(fields[i].precludes.value, ','));
        if e.None? {
          return None;
        }
        m := m[i := e.value];
      }
    }
    return Some(m);
  }

  method BuildPatterns(fields: seq<Field>, rx: Regexp) returns (r: Option<map<Index, string>>)
    ensures r.Some? <==> forall i :: 0 <= i < |fields| && fields[i].matches.Some? ==> rx.compiles(fields[i].matches.value)
    ensures r.Some? ==> forall i :: i in r.value <==> 0 <= i < |fields| && fields[i].matches.Some?
    ensures r.Some? ==> forall i :: i in r.value ==> r.value[i] == fields[i].matches.value
  {
    var m: map<Index, string> := map[];
    for i := 0 to |fields|
      invariant forall j :: j in m <==> 0 <= j < i && fields[j].matches.Some?
      invariant forall j :: j in m ==> m[j] == fields[j].matches.value && rx.compiles(m[j])
    {
      if fields[i].matches.Some? {
        if !rx.compiles(fields[i].matches.value) {
          return None;
        }
        m := m[i := fields[i].matches.value];
      }
    }
    return Some(m);
  }

  /** `New`: succeeds exactly on valid tags, and then represents every one of them. */
  method New(fields: seq<Field>, rx: Regexp) returns (r: Option<Compiled>)
    ensures r.Some? <==> forall i :: 0 <= i < |fields| ==> ValidTags(fields, i, rx)
    ensures r.Some? ==> CompiledFrom(r.value, fields)
  {
    hide ParseValueExpr, ParseDeps, ParsePrecludes, Says, NameSet;
    var exprs := BuildValueExpressions(fields, rx);
    if exprs.None? {
      ghost var i :| 0 <= i < |fields| && !ValueTagOk(fields, i, rx);
      assert !ValidTags(fields, i, rx);
      return None;
    }
    var deps := BuildDependencies(fields);
    if deps.None? {
      ghost var i :| 0 <= i < |fields| && fields[i].dependsOn.Some? && ParseDeps(FieldNames(fields), fields[i].dependsOn.value).None?;
      assert !ValidTags(fields, i, rx);
      return None;
    }
    var precls := BuildPreclusions(fields);
    if precls.None? {
      ghost var i :| 0 <= i < |fields| && fields[i].precludes.Some? && ParsePrecludes(FieldNames(fields), fields[i].precludes.value).None?;
      assert !ValidTags(fields, i, rx);
      return None;
    }
    var patterns := BuildPatterns(fields, rx);
    if patterns.None? {
      ghost var i :| 0 <= i < |fields| && fields[i].matches.Some? && !rx.compiles(fields[i].matches.value);
      assert !ValidTags(fields, i, rx);
      return None;
    }
    forall i | 0 <= i < |fields|
      ensures ValidTags(fields, i, rx)
    {
      assert ValueTagOk(fields, i, rx);
    }
    var v := Compiled(FieldNames(fields), exprs.value, deps.value, precls.value, patterns.value);
    CompiledInRange(v, fields);
    return Some(v);
  }

  lemma {:induction false} CompiledInRange(v: Compiled, fields: seq<Field>)
    requires v.names == FieldNames(fields) && SaysUpTo(v.exprs, fields, |fields|)
    requires forall i :: i in v.deps ==> i < |fields| && fields[i].dependsOn.Some? && ParseDeps(v.names, fields[i].dependsOn.value) == Some(v.deps[i])
    requires forall i :: i in v.precls ==> i < |fields| && fields[i].precludes.Some? && ParsePrecludes(v.names, fields[i].precludes.value) == Some(v.precls[i])
    requires forall i :: i in v.patterns ==> i < |fields|
    ensures InRange(v)
  {
    hide ParseDeps, ParsePrecludes, Says, SaysUpTo, FieldExpr, Below, AllBelow;
    KeysInRange(v.exprs, fields);
    forall i | i in v.deps
      ensures AllBelow(v.deps[i], |v.names|)
    {
      DepsBelow(v.names, fields[i].dependsOn.value);
    }
    forall i | i in v.precls
      ensures Below(v.precls[i], |v.names|)
    {
      PreclsBelow(v.names, fields[i].precludes.value);
    }
  }

  lemma DepsBelow(names: seq<string>, deps: string)
    requires ParseDeps(names, deps).Some?
    ensures AllBelow(ParseDeps(names, deps).value, |names|)
  {
    hide Split;
    var e, groups := ParseDeps(names, deps).value, Split(deps, ',');
    forall g | 0 <= g < |e|
      ensures Below(e[g], |names|)
    {
      assert Lookup(names, Split(groups[g], '|')) == Some(e[g]);
    }
  }

  lemma PreclsBelow(names: seq<string>, precls: string)
    requires ParsePrecludes(names, precls).Some?
    ensures Below(ParsePrecludes(names, precls).value, |names|)
  {
  }

  lemma KeysInRange(v: ValueExpressions, fields: seq<Field>)
    requires SaysUpTo(v, fields, |fields|)
    ensures forall i :: i in v.required || i in v.condRequired || i in v.condOptional || i in v.defaults ==> i < |fields|
  {
    hide FieldExpr;
    forall i: Index | i >= |fields|
      ensures i !in v.required && i !in v.condRequired && i !in v.condOptional && i !in v.defaults
    {
      assert Says(v, i, None);
    }
  }
}
