/** The Keystone authorizer. Answering a query sorts the policies' own lists in place, so the
    decision is stated over a fixed snapshot: `env` gives the set of strings of each list as
    it was loaded, and every operation keeps the lists in agreement with it. */
module Authorizer {
  import opened Common
  import opened Strings
  import opened SortedStrings

  const TYPE_USER := "user"
  const TYPE_GROUP := "group"
  const TYPE_PROJECT := "project"
  const TYPE_ROLE := "role"
  const ROLES := "alpha.kubernetes.io/identity/roles"
  const PROJECT_ID := "alpha.kubernetes.io/identity/project/id"
  const PROJECT_NAME := "alpha.kubernetes.io/identity/project/name"
  const ANY := "*"

  type List = array<string>
  type Env = map<List, set<string>>
  type Permissions = map<string, seq<string>>

  datatype User = User(name: string, uid: string, groups: seq<string>, extra: map<string, seq<string>>)
  datatype Attributes = Attributes(user: User, isResource: bool, namespace: string, resource: string, verb: string,
                                   apiGroup: string, path: string)

  datatype Match = Match(typ: string, values: List)
  datatype ResourceSpec = ResourceSpec(verbs: List, resources: List, apiGroup: Option<string>, namespace: Option<string>)
  datatype NonResourceSpec = NonResourceSpec(verbs: List, path: Option<string>)
  datatype Policy = Policy(
    resource: Option<ResourceSpec>,
    nonResource: Option<NonResourceSpec>,
    matches: seq<Match>,
    resourcePermissions: Option<Permissions>,
    nonResourcePermissions: Option<Permissions>,
    users: Option<Permissions>)

  /** JSON decoding of a list of strings, left uninterpreted. */
  type Json = string -> Option<seq<string>>

  /** The lists hold what the snapshot says, in whatever order. */
  ghost predicate Agrees(env: Env)
    reads set a | a in env
  {
    forall a :: a in env ==> Elements(a) == env[a]
  }

  /** A policy the code can evaluate: its lists are in the snapshot, and a resource spec has
      the group and namespace that are dereferenced. */
  ghost predicate WellFormed(env: Env, p: Policy) {
    && (p.resource.Some? ==>
          && p.resource.value.verbs in env && p.resource.value.resources in env
          && p.resource.value.apiGroup.Some? && p.resource.value.namespace.Some?)
    && (p.nonResource.Some? ==> p.nonResource.value.verbs in env)
    && (forall i :: 0 <= i < |p.matches| ==> p.matches[i].values in env)
  }

  // ---- the decision, declaratively ----

  function Extra(u: User, key: string): seq<string> {
    if key in u.extra then u.extra[key] else []
  }

  ghost predicate Meets(items: seq<string>, values: set<string>) {
    exists i :: 0 <= i < |items| && items[i] in values
  }

  ghost predicate KnownType(t: string) {
    t == TYPE_GROUP || t == TYPE_PROJECT || t == TYPE_ROLE || t == TYPE_USER
  }

  ghost predicate Selects(t: string, values: set<string>, u: User) {
    || (t == TYPE_GROUP && Meets(u.groups, values))
    || (t == TYPE_USER && (u.name in values || u.uid in values))
    || (t == TYPE_PROJECT && (Meets(Extra(u, PROJECT_ID), values) || Meets(Extra(u, PROJECT_NAME), values)))
    || (t == TYPE_ROLE && Meets(Extra(u, ROLES), values))
  }

  /** One match entry admits the user. */
  ghost predicate Admits(env: Env, m: Match, u: User)
    requires m.values in env
  {
    KnownType(m.typ) && (ANY in env[m.values] || Selects(m.typ, env[m.values], u))
  }

  ghost predicate AdmitsAll(env: Env, ms: seq<Match>, u: User)
    requires forall i :: 0 <= i < |ms| ==> ms[i].values in env
  {
    forall i :: 0 <= i < |ms| ==> Admits(env, ms[i], u)
  }

  ghost predicate Covers(values: set<string>, x: string) {
    ANY in values || x in values
  }

  ghost predicate ResourceAllows(env: Env, p: Policy, a: Attributes)
    requires WellFormed(env, p) && p.resource.Some?
  {
    var s := p.resource.value;
    && (s.apiGroup.value == ANY || s.apiGroup.value == a.apiGroup)
    && (s.namespace.value == ANY || s.namespace.value == a.namespace)
    && Covers(env[s.resources], a.resource) && Covers(env[s.verbs], a.verb)
    && AdmitsAll(env, p.matches, a.user)
  }

  ghost predicate NonResourceAllows(env: Env, p: Policy, a: Attributes)
    requires WellFormed(env, p) && p.nonResource.Some?
  {
    var s := p.nonResource.value;
    && "" !in env[s.verbs] && s.path.Some?
    && Covers(env[s.verbs], a.verb) && (s.path.value == ANY || s.path.value == a.path)
    && AdmitsAll(env, p.matches, a.user)
  }

  /** What a namespace or resource definition says. */
  datatype Definition = Anything | Exactly(s: string) | Except(s: string) | OneOf(items: seq<string>) | NoneOf(items: seq<string>) | Malformed

  function Quoted(s: string): string {
    if s == "" then "" else [if s[0] == '\'' then '\"' else s[0]] + Quoted(s[1..])
  }

  predicate EndsList(def: string) {
    def != "" && IndexOf(def, ']') == Some(|def| - 1)
  }

  function ParseDefinition(json: Json, def: string): Definition {
    if def == ANY then Anything
    else if IndexOf(def, '!') == Some(0) && IndexOf(def, '[') != Some(1) then Except(def[1..])
    else if IndexOf(def, '[') == Some(0) && EndsList(def) then
      var items := json(Quoted(def));
      if items.Some? then OneOf(items.value) else Malformed
    else if IndexOf(def, '!') == Some(0) && EndsList(def) then
      var items := json(Quoted(def[1..]));
      if items.Some? then NoneOf(items.value) else Malformed
    else Exactly(def)
  }

  predicate Means(d: Definition, x: string) {
    match d
    case Anything => true
    case Exactly(s) => s == x
    case Except(s) => s != x && s != ANY
    case OneOf(items) => x in items || ANY in items
    case NoneOf(items) => x !in items && ANY !in items
    case Malformed => false
  }

  /** An empty attribute and a literal match pass whatever the definition. */
  predicate Permits(json: Json, def: string, x: string) {
    x == "" || def == x || Means(ParseDefinition(json, def), x)
  }

  /** Go's strings.TrimSpace. */
  predicate IsSpace(c: char) {
    c in "\t\n\r \U{000B}\U{000C}\U{0085}\U{00A0}\U{1680}\U{2028}\U{2029}\U{202F}\U{205F}\U{3000}" || '\U{2000}' <= c <= '\U{200A}'
  }

  function TrimSpace(s: string): string
    decreases |s|
  {
    if s != "" && IsSpace(s[0]) then TrimSpace(s[1..])
    else if s != "" && IsSpace(s[|s| - 1]) then TrimSpace(s[..|s| - 1])
    else s
  }

  ghost predicate KeyAllows(json: Json, key: string, verbs: seq<string>, a: Attributes) {
    var parts := Split(key, '/');
    |parts| == 2 && Permits(json, TrimSpace(parts[0]), a.namespace) && Permits(json, TrimSpace(parts[1]), a.resource)
    && (ANY in verbs || a.verb in verbs)
  }

  ghost predicate PermissionsAllow(json: Json, perms: Permissions, a: Attributes) {
    exists k :: k in perms && KeyAllows(json, k, perms[k], a)
  }

  ghost predicate PathAllows(perms: Permissions, a: Attributes) {
    a.path in perms && (ANY in perms[a.path] || a.verb in perms[a.path])
  }

  ghost predicate Subset(xs: seq<string>, ys: seq<string>) {
    forall i :: 0 <= i < |xs| ==> xs[i] in ys
  }

  function Listed(m: Permissions, key: string): seq<string> {
    if key in m then m[key] else []
  }

  /** The users clause: all its roles and projects are the user's. */
  ghost predicate UserInScope(p: Policy, u: User) {
    p.users.Some? ==>
      Subset(Listed(p.users.value, "roles"), Extra(u, ROLES)) && Subset(Listed(p.users.value, "projects"), Extra(u, PROJECT_NAME))
  }

  ghost predicate PolicyAllows(json: Json, env: Env, p: Policy, a: Attributes)
    requires WellFormed(env, p)
  {
    && UserInScope(p, a.user)
    && if a.isResource then
         if p.resourcePermissions.Some? then PermissionsAllow(json, p.resourcePermissions.value, a)
         else p.resource.Some? && ResourceAllows(env, p, a)
       else
         if p.nonResourcePermissions.Some? then PathAllows(p.nonResourcePermissions.value, a)
         else p.nonResource.Some? && NonResourceAllows(env, p, a)
  }

  /** Some policy allows the request. */
  ghost predicate Allowed(json: Json, env: Env, pl: seq<Policy>, a: Attributes)
    requires forall i :: 0 <= i < |pl| ==> WellFormed(env, pl[i])
  {
    exists i :: 0 <= i < |pl| && PolicyAllows(json, env, pl[i], a)
  }

  // ---- the code ----

  method FindIn(x: string, list: List, ghost env: Env) returns (found: bool)
    requires list in env && Agrees(env)
    modifies list
    ensures Agrees(env)
    ensures found <==> x in env[list]
  {
    found := FindString(x, list);
  }

  method AnyIn(items: seq<string>, list: List, ghost env: Env) returns (found: bool)
    requires list in env && Agrees(env)
    modifies list
    ensures Agrees(env)
    ensures found <==> Meets(items, env[list])
  {
    for i := 0 to |items|
      invariant Agrees(env)
      invariant forall j :: 0 <= j < i ==> items[j] !in env[list]
    {
      found := FindIn(items[i], list, env);
      if found {
        return;
      }
    }
    return false;
  }

  method IsKnownType(t: string) returns (known: bool)
    ensures known <==> KnownType(t)
  {
    var types := new string[][TYPE_GROUP, TYPE_PROJECT, TYPE_ROLE, TYPE_USER];
    assert types[..] == [TYPE_GROUP, TYPE_PROJECT, TYPE_ROLE, TYPE_USER];
    known := FindString(t, types);
  }

  /** One turn of the loop in `match`. */
  method MatchOne(m: Match, u: User, ghost env: Env) returns (ok: bool)
    requires m.values in env && Agrees(env)
    modifies m.values
    ensures Agrees(env)
    ensures ok <==> Admits(env, m, u)
  {
    hide Meets;
    ok := IsKnownType(m.typ);
    if !ok {
      return;
    }
    var any := FindIn(ANY, m.values, env);
    if any {
      return true;
    }
    TypesDiffer();
    if m.typ == TYPE_GROUP {
      ok := AnyIn(u.groups, m.values, env);
    } else if m.typ == TYPE_USER {
      ok := FindIn(u.name, m.values, env);
      if !ok {
        ok := FindIn(u.uid, m.values, env);
      }
    } else if m.typ == TYPE_PROJECT {
      ok := AnyIn(Extra(u, PROJECT_ID), m.values, env);
      if !ok {
        ok := AnyIn(Extra(u, PROJECT_NAME), m.values, env);
      }
    } else {
      ok := AnyIn(Extra(u, ROLES), m.values, env);
    }
  }

  lemma TypesDiffer()
    ensures TYPE_GROUP != TYPE_USER && TYPE_GROUP != TYPE_PROJECT && TYPE_GROUP != TYPE_ROLE
    ensures TYPE_USER != TYPE_PROJECT && TYPE_USER != TYPE_ROLE && TYPE_PROJECT != TYPE_ROLE
  {
    assert TYPE_GROUP[0] == 'g' && TYPE_USER[0] == 'u' && TYPE_PROJECT[0] == 'p' && TYPE_ROLE[0] == 'r';
  }

  method MatchAll(ms: seq<Match>, u: User, ghost env: Env) returns (ok: bool)
    requires (forall i :: 0 <= i < |ms| ==> ms[i].values in env) && Agrees(env)
    modifies set a | a in env
    ensures Agrees(env)
    ensures ok <==> AdmitsAll(env, ms, u)
  {
    hide Admits;
    for i := 0 to |ms|
      invariant Agrees(env)
      invariant forall j :: 0 <= j < i ==> Admits(env, ms[j], u)
    {
      ok := MatchOne(ms[i], u, env);
      if !ok {
        return;
      }
    }
    return true;
  }

  method CoversIn(x: string, list: List, ghost env: Env) returns (ok: bool)
    requires list in env && Agrees(env)
    modifies list
    ensures Agrees(env)
    ensures ok <==> Covers(env[list], x)
  {
    ok := FindIn(ANY, list, env);
    if !ok {
      ok := FindIn(x, list, env);
    }
  }

  method ResourceMatches(p: Policy, a: Attributes, ghost env: Env) returns (ok: bool)
    requires WellFormed(env, p) && p.resource.Some? && Agrees(env)
    modifies set x | x in env
    ensures Agrees(env)
    ensures ok <==> ResourceAllows(env, p, a)
  {
    hide Covers, AdmitsAll;
    var s := p.resource.value;
    if s.apiGroup.value != ANY && s.apiGroup.value != a.apiGroup {
      return false;
    }
    if s.namespace.value != ANY && s.namespace.value != a.namespace {
      return false;
    }
    ok := CoversIn(a.resource, s.resources, env);
    if !ok {
      return;
    }
    ok := CoversIn(a.verb, s.verbs, env);
    if !ok {
      return;
    }
    ok := MatchAll(p.matches, a.user, env);
  }

  method NonResourceMatches(p: Policy, a: Attributes, ghost env: Env) returns (ok: bool)
    requires WellFormed(env, p) && p.nonResource.Some? && Agrees(env)
    modifies set x | x in env
    ensures Agrees(env)
    ensures ok <==> NonResourceAllows(env, p, a)
  {
    hide Covers, AdmitsAll;
    var s := p.nonResource.value;
    var empty := FindIn("", s.verbs, env);
    if empty || s.path.None? {
      return false;
    }
    ok := CoversIn(a.verb, s.verbs, env);
    if !ok {
      return;
    }
    if s.path.value != ANY && s.path.value != a.path {
      return false;
    }
    ok := MatchAll(p.matches, a.user, env);
  }

  function Elems(s: seq<string>): set<string> {
    set x | x in s
  }

  /** `getAllowed`: a set of allowed values, or an error. */
  method GetAllowed(json: Json, def: string, x: string) returns (allowed: Option<set<string>>)
    ensures allowed.Some? && x in allowed.value <==> Permits(json, def, x)
  {
    hide ParseDefinition;
    DefinitionCases(json, def);
    if def == x || def == ANY || x == "" {
      return Some({x});
    }
    if IndexOf(def, '!') == Some(0) && IndexOf(def, '[') != Some(1) {
      return if def[1..] == x || def[1..] == ANY then None else Some({x});
    }
    if IndexOf(def, '[') == Some(0) && EndsList(def) {
      var items := json(Quoted(def));
      if items.None? {
        return None;
      }
      var set_: set<string> := {};
      for i := 0 to |items.value|
        invariant set_ == (set y | y in items.value[..i] && y != ANY) + (if ANY in items.value[..i] then {x} else {})
      {
        assert items.value[..i + 1] == items.value[..i] + [items.value[i]];
        set_ := set_ + {if items.value[i] == ANY then x else items.value[i]};
      }
      assert items.value[..|items.value|] == items.value;
      return Some(set_);
    }
    if IndexOf(def, '!') == Some(0) && EndsList(def) {
      var items := json(Quoted(def[1..]));
      if items.None? {
        return None;
      }
      var found := false;
      for i := 0 to |items.value|
        invariant found <==> x in items.value[..i] || ANY in items.value[..i]
      {
        assert items.value[..i + 1] == items.value[..i] + [items.value[i]];
        if items.value[i] == x || items.value[i] == ANY {
          found := true;
        }
      }
      assert items.value[..|items.value|] == items.value;
      return if found then None else Some({x});
    }
    return Some({});
  }

  lemma DefinitionCases(json: Json, def: string)
    ensures def == ANY ==> ParseDefinition(json, def) == Anything
    ensures def != ANY && IndexOf(def, '!') == Some(0) && IndexOf(def, '[') != Some(1) ==> ParseDefinition(json, def) == Except(def[1..])
    ensures def != ANY && IndexOf(def, '[') == Some(0) && EndsList(def) ==>
              ParseDefinition(json, def) == if json(Quoted(def)).Some? then OneOf(json(Quoted(def)).value) else Malformed
    ensures def != ANY && IndexOf(def, '!') == Some(0) && IndexOf(def, '[') == Some(1) && EndsList(def) ==>
              ParseDefinition(json, def) == if json(Quoted(def[1..])).Some? then NoneOf(json(Quoted(def[1..])).value) else Malformed
    ensures (&& def != ANY && !(IndexOf(def, '!') == Some(0) && (IndexOf(def, '[') != Some(1) || EndsList(def)))
             && !(IndexOf(def, '[') == Some(0) && EndsList(def))) ==> ParseDefinition(json, def) == Exactly(def)
  {
  }

  /** `resourcePermissionAllowed`, over the keys in any order. */
  method ResourcePermissionAllowed(json: Json, perms: Permissions, a: Attributes) returns (ok: bool)
    ensures ok <==> PermissionsAllow(json, perms, a)
  {
    hide KeyAllows;
    var keys := Enumerate(perms.Keys);
    for i := 0 to |keys|
      invariant forall j :: 0 <= j < i ==> !KeyAllows(json, keys[j], perms[keys[j]], a)
    {
      assert keys[i] in keys;
      ok := EvaluateKey(json, keys[i], perms[keys[i]], a);
      if ok {
        return;
      }
    }
    return false;
  }

  /** The verbs a permission lists; "*" adds the verb asked for. */
  method AllowedVerbs(verbs: seq<string>, verb: string) returns (allowed: set<string>)
    ensures verb in allowed <==> "*" in verbs || verb in verbs
  {
    allowed := {};
    for i := 0 to |verbs|
      invariant allowed == set v | v in verbs[..i]
    {
      assert verbs[..i + 1] == verbs[..i] + [verbs[i]];
      allowed := allowed + {verbs[i]};
    }
    assert verbs[..|verbs|] == verbs;
    if ANY in allowed {
      allowed := allowed + {verb};
    }
  }

  method EvaluateKey(json: Json, key: string, verbs: seq<string>, a: Attributes) returns (ok: bool)
    ensures ok <==> KeyAllows(json, key, verbs, a)
  {
    var verbs' := AllowedVerbs(verbs, a.verb);
    var parts := Split(key, '/');
    if |parts| != 2 {
      return false;
    }
    var namespaces := GetAllowed(json, TrimSpace(parts[0]), a.namespace);
    if namespaces.None? {
      return false;
    }
    var resources := GetAllowed(json, TrimSpace(parts[1]), a.resource);
    if resources.None? {
      return false;
    }
    return a.namespace in namespaces.value && a.resource in resources.value && a.verb in verbs';
  }

  method NonResourcePermissionAllowed(perms: Permissions, a: Attributes) returns (ok: bool)
    ensures ok <==> PathAllows(perms, a)
  {
    var keys := Enumerate(perms.Keys);
    for i := 0 to |keys|
      invariant forall j :: 0 <= j < i ==> !(keys[j] == a.path && (ANY in perms[keys[j]] || a.verb in perms[keys[j]]))
    {
      assert keys[i] in keys;
      var verbs := AllowedVerbs(perms[keys[i]], a.verb);
      if keys[i] == a.path && a.verb in verbs {
        return true;
      }
    }
    return false;
  }

  method InScope(p: Policy, u: User) returns (ok: bool)
    ensures ok <==> UserInScope(p, u)
  {
    if p.users.None? {
      return true;
    }
    var roles, projects := Elems(Listed(p.users.value, "roles")), Elems(Listed(p.users.value, "projects"));
    SubsetElems(Listed(p.users.value, "roles"), Extra(u, ROLES));
    SubsetElems(Listed(p.users.value, "projects"), Extra(u, PROJECT_NAME));
    return roles <= Elems(Extra(u, ROLES)) && projects <= Elems(Extra(u, PROJECT_NAME));
  }

  lemma SubsetElems(xs: seq<string>, ys: seq<string>)
    ensures Subset(xs, ys) <==> Elems(xs) <= Elems(ys)
  {
    forall i | 0 <= i < |xs|
      ensures xs[i] in Elems(xs)
    {
    }
  }

  method EvaluatePolicy(json: Json, p: Policy, a: Attributes, ghost env: Env) returns (ok: bool)
    requires WellFormed(env, p) && Agrees(env)
    modifies set x | x in env
    ensures Agrees(env)
    ensures ok <==> PolicyAllows(json, env, p, a)
  {
    hide UserInScope, ResourceAllows, NonResourceAllows, PermissionsAllow, PathAllows;
    ok := InScope(p, a.user);
    if !ok {
      return;
    }
    ok := false;
    if a.isResource {
      if p.resourcePermissions.Some? {
        ok := ResourcePermissionAllowed(json, p.resourcePermissions.value, a);
      } else if p.resource.Some? {
        ok := ResourceMatches(p, a, env);
      }
    } else {
      if p.nonResourcePermissions.Some? {
        ok := NonResourcePermissionAllowed(p.nonResourcePermissions.value, a);
      } else if p.nonResource.Some? {
        ok := NonResourceMatches(p, a, env);
      }
    }
  }

  class Authorizer {
    var pl: seq<Policy>

    /** Authorize: the decision is `Allowed` on the policies as loaded, and the lists still
        agree with them afterwards. */
    method Authorize(json: Json, a: Attributes, ghost env: Env) returns (allow: bool)
      requires (forall i :: 0 <= i < |pl| ==> WellFormed(env, pl[i])) && Agrees(env)
      modifies set x | x in env
      ensures Agrees(env)
      ensures allow <==> Allowed(json, env, pl, a)
    {
      hide WellFormed, PolicyAllows;
      for i := 0 to |pl|
        invariant Agrees(env)
        invariant forall j :: 0 <= j < i ==> !PolicyAllows(json, env, pl[j], a)
      {
        allow := EvaluatePolicy(json, pl[i], a, env);
        if allow {
          return;
        }
      }
      return false;
    }

    /** Any run of requests: each decision is the one its request would get first. */
    method AuthorizeAll(json: Json, requests: seq<Attributes>, ghost env: Env) returns (decisions: seq<bool>)
      requires (forall i :: 0 <= i < |pl| ==> WellFormed(env, pl[i])) && Agrees(env)
      modifies set x | x in env
      ensures Agrees(env)
      ensures |decisions| == |requests|
      ensures forall k :: 0 <= k < |requests| ==> (decisions[k] <==> Allowed(json, env, pl, requests[k]))
    {
      hide WellFormed, Allowed;
      decisions := [];
      for k := 0 to |requests|
        invariant Agrees(env) && |decisions| == k
        invariant forall j :: 0 <= j < k ==> (decisions[j] <==> Allowed(json, env, pl, requests[j]))
      {
        var allow := Authorize(json, requests[k], env);
        decisions := decisions + [allow];
      }
    }
  }

  // ---- the decision, spelled out ----

  /** Quoting keeps the length and changes exactly the single quotes. */
  lemma {:induction false} QuotedSpelledOut(s: string)
    ensures |Quoted(s)| == |s| && forall i :: 0 <= i < |s| ==> Quoted(s)[i] == if s[i] == '\'' then '\"' else s[i]
  {
    if s != "" {
      QuotedSpelledOut(s[1..]);
    }
  }

  /** Trimming takes a run of spaces off either end, and leaves none there. */
  lemma {:induction false} TrimSpaceSpelledOut(s: string) returns (i: nat, j: nat)
    ensures i <= j <= |s| && TrimSpace(s) == s[i..j]
    ensures (forall k :: 0 <= k < i ==> IsSpace(s[k])) && (forall k :: j <= k < |s| ==> IsSpace(s[k]))
    ensures i < j ==> !IsSpace(s[i]) && !IsSpace(s[j - 1])
    decreases |s|
  {
    hide IsSpace;
    i, j := 0, |s|;
    if s != "" && IsSpace(s[0]) {
      var a, b := TrimSpaceSpelledOut(s[1..]);
      i, j := a + 1, b + 1;
      assert s[1..][a..b] == s[i..j];
      assert forall k :: 1 <= k < |s| ==> s[1..][k - 1] == s[k];
    } else if s != "" && IsSpace(s[|s| - 1]) {
      i, j := TrimSpaceSpelledOut(s[..|s| - 1]);
      assert s[..|s| - 1][i..j] == s[i..j];
    }
  }

  /** What a definition permits. */
  lemma PermitsSpelledOut(json: Json, def: string, x: string)
    ensures Permits(json, def, x) <==>
              || x == "" || def == x || def == "*"
              || (def != "*" && |def| > 0 && def[0] == '!' && !(|def| > 1 && def[1] == '[' && '[' !in def[..1]) && def[1..] != x && def[1..] != "*")
              || (def != "*" && |def| > 0 && def[0] == '[' && def[|def| - 1] == ']' && ']' !in def[..|def| - 1]
                  && json(Quoted(def)).Some? && (x in json(Quoted(def)).value || "*" in json(Quoted(def)).value))
              || (def != "*" && |def| > 1 && def[0] == '!' && def[1] == '[' && def[|def| - 1] == ']' && ']' !in def[..|def| - 1]
                  && json(Quoted(def[1..])).Some? && x !in json(Quoted(def[1..])).value && "*" !in json(Quoted(def[1..])).value)
  {
    hide IndexOf, Quoted;
    IndexOfIs(def, '!', 0);
    IndexOfIs(def, '[', 0);
    IndexOfIs(def, '[', 1);
    if def != "" {
      IndexOfIs(def, ']', |def| - 1);
    }
    DefinitionCases(json, def);
  }

  lemma IndexOfIs(s: string, d: char, i: nat)
    ensures IndexOf(s, d) == Some(i) <==> i < |s| && s[i] == d && d !in s[..i]
  {
  }

  /** A policy with permissions, for a user in its scope. */
  lemma PermissionsSpelledOut(json: Json, env: Env, p: Policy, a: Attributes)
    requires WellFormed(env, p)
    ensures a.isResource && p.resourcePermissions.Some? && UserInScope(p, a.user) ==>
              var perms := p.resourcePermissions.value;
              (PolicyAllows(json, env, p, a) <==>
                 exists k :: k in perms &&
                   (var parts := Split(k, '/');
                    && |parts| == 2 && Permits(json, TrimSpace(parts[0]), a.namespace) && Permits(json, TrimSpace(parts[1]), a.resource)
                    && ("*" in perms[k] || a.verb in perms[k])))
    ensures !a.isResource && p.nonResourcePermissions.Some? && UserInScope(p, a.user) ==>
              var perms := p.nonResourcePermissions.value;
              (PolicyAllows(json, env, p, a) <==> a.path in perms && ("*" in perms[a.path] || a.verb in perms[a.path]))
    ensures !UserInScope(p, a.user) ==> !PolicyAllows(json, env, p, a)
  {
    hide Permits, TrimSpace, Split;
    if a.isResource && p.resourcePermissions.Some? {
      var perms := p.resourcePermissions.value;
      forall k | k in perms
        ensures KeyAllows(json, k, perms[k], a) <==>
                  (var parts := Split(k, '/');
                   && |parts| == 2 && Permits(json, TrimSpace(parts[0]), a.namespace) && Permits(json, TrimSpace(parts[1]), a.resource)
                   && ("*" in perms[k] || a.verb in perms[k]))
      {
      }
    }
  }

  /** The scope of a policy: all the roles and projects it names are the user's. */
  lemma ScopeSpelledOut(p: Policy, u: User)
    ensures UserInScope(p, u) <==>
              p.users.Some? ==>
                && ("roles" in p.users.value ==>
                      forall r :: r in p.users.value["roles"] ==>
                        "alpha.kubernetes.io/identity/roles" in u.extra && r in u.extra["alpha.kubernetes.io/identity/roles"])
                && ("projects" in p.users.value ==>
                      forall r :: r in p.users.value["projects"] ==>
                        "alpha.kubernetes.io/identity/project/name" in u.extra && r in u.extra["alpha.kubernetes.io/identity/project/name"])
  {
    if p.users.Some? {
      ListedIn(p.users.value, "roles", Extra(u, ROLES));
      ListedIn(p.users.value, "projects", Extra(u, PROJECT_NAME));
    }
  }

  lemma ListedIn(m: Permissions, key: string, ys: seq<string>)
    ensures Subset(Listed(m, key), ys) <==> (key in m ==> forall r :: r in m[key] ==> r in ys)
  {
    if Subset(Listed(m, key), ys) && key in m {
      forall r | r in m[key]
        ensures r in ys
      {
        var i :| 0 <= i < |m[key]| && m[key][i] == r;
        assert Listed(m, key)[i] in ys;
      }
    }
  }

  /** A policy without permissions: its resource or path part, and its match clauses. */
  lemma SpecsSpelledOut(json: Json, env: Env, p: Policy, a: Attributes)
    requires WellFormed(env, p) && UserInScope(p, a.user)
    ensures a.isResource && p.resourcePermissions.None? ==>
              (PolicyAllows(json, env, p, a) <==>
                 && p.resource.Some?
                 && var s := p.resource.value;
                    && (s.apiGroup.value == "*" || s.apiGroup.value == a.apiGroup) && (s.namespace.value == "*" || s.namespace.value == a.namespace)
                    && ("*" in env[s.resources] || a.resource in env[s.resources]) && ("*" in env[s.verbs] || a.verb in env[s.verbs])
                    && forall i :: 0 <= i < |p.matches| ==> Admits(env, p.matches[i], a.user))
    ensures !a.isResource && p.nonResourcePermissions.None? ==>
              (PolicyAllows(json, env, p, a) <==>
                 && p.nonResource.Some?
                 && var s := p.nonResource.value;
                    && "" !in env[s.verbs] && s.path.Some? && ("*" in env[s.verbs] || a.verb in env[s.verbs])
                    && (s.path.value == "*" || s.path.value == a.path)
                    && forall i :: 0 <= i < |p.matches| ==> Admits(env, p.matches[i], a.user))
  {
    hide Admits, UserInScope;
  }

  /** One match clause. */
  lemma AdmitsSpelledOut(env: Env, m: Match, u: User)
    requires m.values in env
    ensures var v := env[m.values];
            Admits(env, m, u) <==>
              && m.typ in {"user", "group", "project", "role"}
              && (|| "*" in v
                  || (m.typ == "user" && (u.name in v || u.uid in v))
                  || (m.typ == "group" && exists g :: g in u.groups && g in v)
                  || (m.typ == "project" && (|| HasOneOf(u, "alpha.kubernetes.io/identity/project/id", v)
                                             || HasOneOf(u, "alpha.kubernetes.io/identity/project/name", v)))
                  || (m.typ == "role" && HasOneOf(u, "alpha.kubernetes.io/identity/roles", v)))
  {
    var v := env[m.values];
    MeetsIs(u.groups, v);
    MeetsIs(Extra(u, PROJECT_ID), v);
    MeetsIs(Extra(u, PROJECT_NAME), v);
    MeetsIs(Extra(u, ROLES), v);
    assert |"user"| == 4 && |"role"| == 4 && "user"[0] != "role"[0] && |"group"| == 5 && |"project"| == 7;
  }

  ghost predicate HasOneOf(u: User, key: string, values: set<string>) {
    key in u.extra && exists x :: x in u.extra[key] && x in values
  }

  lemma MeetsIs(items: seq<string>, values: set<string>)
    ensures Meets(items, values) <==> exists x :: x in items && x in values
  {
  }

  // ---- what the decision depends on ----

  /** Only the set of policies matters, and more of them never take an answer away. */
  lemma MorePolicies(json: Json, env: Env, pl: seq<Policy>, more: seq<Policy>, a: Attributes)
    requires forall i :: 0 <= i < |pl| ==> WellFormed(env, pl[i]) && pl[i] in more
    requires forall i :: 0 <= i < |more| ==> WellFormed(env, more[i])
    ensures Allowed(json, env, pl, a) ==> Allowed(json, env, more, a)
    ensures (forall p :: p in more ==> p in pl) ==> (Allowed(json, env, pl, a) <==> Allowed(json, env, more, a))
  {
    if Allowed(json, env, pl, a) {
      var i :| 0 <= i < |pl| && PolicyAllows(json, env, pl[i], a);
      var j :| 0 <= j < |more| && more[j] == pl[i];
    }
    if (forall p :: p in more ==> p in pl) && Allowed(json, env, more, a) {
      var i :| 0 <= i < |more| && PolicyAllows(json, env, more[i], a);
      assert more[i] in pl;
      var j :| 0 <= j < |pl| && pl[j] == more[i];
    }
  }

  /** The same user with more groups, and more values under any extra key. */
  ghost predicate Extends(u: User, v: User) {
    && v.name == u.name && v.uid == u.uid && Subset(u.groups, v.groups)
    && forall key :: Subset(Extra(u, key), Extra(v, key))
  }

  lemma MeetsMore(xs: seq<string>, ys: seq<string>, values: set<string>)
    requires Subset(xs, ys) && Meets(xs, values)
    ensures Meets(ys, values)
  {
    var i :| 0 <= i < |xs| && xs[i] in values;
    var j :| 0 <= j < |ys| && ys[j] == xs[i];
  }

  lemma SelectsMore(t: string, values: set<string>, u: User, v: User)
    requires Extends(u, v) && Selects(t, values, u)
    ensures Selects(t, values, v)
  {
    hide Meets, Subset;
    assert Subset(Extra(u, PROJECT_ID), Extra(v, PROJECT_ID)) && Subset(Extra(u, PROJECT_NAME), Extra(v, PROJECT_NAME));
    assert Subset(Extra(u, ROLES), Extra(v, ROLES));
    if Meets(u.groups, values) {
      MeetsMore(u.groups, v.groups, values);
    }
    if Meets(Extra(u, PROJECT_ID), values) {
      MeetsMore(Extra(u, PROJECT_ID), Extra(v, PROJECT_ID), values);
    }
    if Meets(Extra(u, PROJECT_NAME), values) {
      MeetsMore(Extra(u, PROJECT_NAME), Extra(v, PROJECT_NAME), values);
    }
    if Meets(Extra(u, ROLES), values) {
      MeetsMore(Extra(u, ROLES), Extra(v, ROLES), values);
    }
  }

  lemma AdmitsMore(env: Env, ms: seq<Match>, u: User, v: User)
    requires (forall i :: 0 <= i < |ms| ==> ms[i].values in env) && Extends(u, v) && AdmitsAll(env, ms, u)
    ensures AdmitsAll(env, ms, v)
  {
    hide Selects, Extends;
    forall i | 0 <= i < |ms|
      ensures Admits(env, ms[i], v)
    {
      assert Admits(env, ms[i], u);
      if Selects(ms[i].typ, env[ms[i].values], u) {
        SelectsMore(ms[i].typ, env[ms[i].values], u, v);
      }
    }
  }

  lemma ScopeMore(p: Policy, u: User, v: User)
    requires Extends(u, v) && UserInScope(p, u)
    ensures UserInScope(p, v)
  {
    assert Subset(Extra(u, PROJECT_NAME), Extra(v, PROJECT_NAME)) && Subset(Extra(u, ROLES), Extra(v, ROLES));
  }

  /** Giving the user more roles, projects or groups never turns an allow into a deny. */
  lemma MoreMemberships(json: Json, env: Env, pl: seq<Policy>, a: Attributes, v: User)
    requires forall i :: 0 <= i < |pl| ==> WellFormed(env, pl[i])
    requires Extends(a.user, v) && Allowed(json, env, pl, a)
    ensures Allowed(json, env, pl, a.(user := v))
  {
    hide Extends, UserInScope, AdmitsAll, WellFormed, KeyAllows;
    var i :| 0 <= i < |pl| && PolicyAllows(json, env, pl[i], a);
    PolicyAllowsMore(json, env, pl[i], a, v);
  }

  lemma PolicyAllowsMore(json: Json, env: Env, p: Policy, a: Attributes, v: User)
    requires WellFormed(env, p) && Extends(a.user, v) && PolicyAllows(json, env, p, a)
    ensures PolicyAllows(json, env, p, a.(user := v))
  {
    hide Extends, UserInScope, AdmitsAll, Covers;
    var b := a.(user := v);
    ScopeMore(p, a.user, v);
    if AdmitsAll(env, p.matches, a.user) {
      AdmitsMore(env, p.matches, a.user, v);
    }
    if p.resourcePermissions.Some? && PermissionsAllow(json, p.resourcePermissions.value, a) {
      var k :| k in p.resourcePermissions.value && KeyAllows(json, k, p.resourcePermissions.value[k], a);
      assert KeyAllows(json, k, p.resourcePermissions.value[k], b);
    }
  }
}
