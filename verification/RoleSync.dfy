/** Role bindings of one Keystone user in one namespace, synchronised by name: the binding of
    role `r` for user `u` is called `u_r`. */
module RoleSync {
  import opened Common
  import opened Strings

  datatype Binding = Binding(user: string, role: string)
  datatype Call = List | Delete(name: string) | Create(name: string)

  const SEPARATOR := '_'

  function BindingName(uid: string, role: string): string {
    uid + [SEPARATOR] + role
  }

  ghost predicate Prefixed(name: string, uid: string) {
    uid + [SEPARATOR] <= name
  }

  /** The code's ownership test: the part before the first separator is the user id. */
  predicate Owned(name: string, uid: string) {
    var i := IndexOf(name, SEPARATOR);
    i.Some? && name[..i.value] == uid
  }

  ghost predicate Held(name: string, uid: string, roles: seq<string>) {
    exists i :: 0 <= i < |roles| && name == BindingName(uid, roles[i])
  }

  /** For a user id without separator the test finds exactly the bindings with the user's
      prefix, whatever separators the role names contain; for any other it finds none. */
  lemma OwnedIsPrefixed(name: string, uid: string)
    ensures SEPARATOR !in uid ==> (Owned(name, uid) <==> Prefixed(name, uid))
    ensures SEPARATOR in uid ==> !Owned(name, uid)
    ensures Owned(name, uid) <==> '_' !in uid && uid + "_" <= name
  {
    assert uid + [SEPARATOR] == uid + "_";
    var i := IndexOf(name, SEPARATOR);
    if SEPARATOR !in uid && Prefixed(name, uid) {
      FirstSeparator(uid, name[|uid| + 1..]);
      assert name == uid + [SEPARATOR] + name[|uid| + 1..];
    }
    if Owned(name, uid) {
      assert name[..i.value + 1] == uid + [SEPARATOR];
    }
  }

  lemma {:induction false} FirstSeparator(uid: string, rest: string)
    requires SEPARATOR !in uid
    ensures IndexOf(uid + [SEPARATOR] + rest, SEPARATOR) == Some(|uid|)
  {
    if uid != "" {
      FirstSeparator(uid[1..], rest);
      assert (uid + [SEPARATOR] + rest)[1..] == uid[1..] + [SEPARATOR] + rest;
    }
  }

  /** Nothing left for a run to do. */
  ghost predicate Settled(bindings: map<string, Binding>, uid: string, roles: seq<string>) {
    && (forall n :: n in bindings && Owned(n, uid) ==> Held(n, uid, roles))
    && (forall i :: 0 <= i < |roles| ==> BindingName(uid, roles[i]) in bindings)
  }

  /** The bindings with the user's prefix are exactly those of the roles held. */
  ghost predicate Exact(bindings: map<string, Binding>, uid: string, roles: seq<string>) {
    forall n :: Prefixed(n, uid) ==> (n in bindings <==> Held(n, uid, roles))
  }

  ghost predicate Stale(bindings: map<string, Binding>, uid: string, roles: seq<string>) {
    exists n :: n in bindings && Prefixed(n, uid) && !Held(n, uid, roles)
  }

  ghost predicate DistinctRoles(roles: seq<string>) {
    NoDuplicates(roles)
  }

  /** Kept bindings and foreign ones are untouched. */
  ghost predicate Untouched(a: map<string, Binding>, b: map<string, Binding>, uid: string, roles: seq<string>) {
    && (forall n :: n in a && (Held(n, uid, roles) || !Owned(n, uid)) ==> n in b && b[n] == a[n])
    && (forall n :: n in b && n !in a ==> Held(n, uid, roles))
  }

  class Rbac {
    var bindings: map<string, Binding>
    ghost var log: seq<Call>
    ghost var faults: nat

    method ListNames() returns (ok: bool, names: seq<string>)
      modifies this`log, this`faults
      ensures log == old(log) + [List]
      ensures ok ==> NoDuplicates(names) && faults == old(faults) && forall n :: n in names <==> n in bindings
      ensures !ok ==> faults > old(faults)
    {
      ok, names := *, [];
      log := log + [List];
      if !ok {
        faults := faults + 1;
        return;
      }
      names := Enumerate(bindings.Keys);
    }

    method DeleteBinding(n: string) returns (ok: bool)
      modifies this
      ensures log == old(log) + [Delete(n)]
      ensures ok ==> n in old(bindings) && bindings == old(bindings) - {n} && faults == old(faults)
      ensures !ok ==> bindings == old(bindings) && (faults > old(faults) || n !in bindings)
    {
      ok := *;
      log := log + [Delete(n)];
      if !ok {
        faults := faults + 1;
        return;
      }
      ok := n in bindings;
      bindings := bindings - {n};
    }

    method CreateBinding(n: string, b: Binding) returns (ok: bool)
      modifies this
      ensures log == old(log) + [Create(n)]
      ensures ok ==> n !in old(bindings) && bindings == old(bindings)[n := b] && faults == old(faults)
      ensures !ok ==> bindings == old(bindings) && (faults > old(faults) || n in bindings)
    {
      ok := *;
      log := log + [Create(n)];
      if !ok {
        faults := faults + 1;
        return;
      }
      ok := n !in bindings;
      if ok {
        bindings := bindings[n := b];
      }
    }
  }

  method IsHeld(name: string, uid: string, roles: seq<string>) returns (keep: bool)
    ensures keep <==> Held(name, uid, roles)
  {
    keep := false;
    for i := 0 to |roles|
      invariant keep <==> exists j :: 0 <= j < i && name == BindingName(uid, roles[j])
    {
      if name == BindingName(uid, roles[i]) {
        keep := true;
      }
    }
  }

  /** Deletes the user's bindings whose role is gone. */
  method DeleteStale(c: Rbac, uid: string, roles: seq<string>, names: seq<string>) returns (ok: bool)
    requires NoDuplicates(names) && forall n :: n in names <==> n in c.bindings
    modifies c
    ensures Untouched(old(c.bindings), c.bindings, uid, roles) && c.bindings.Keys <= old(c.bindings.Keys)
    ensures ok ==> c.faults == old(c.faults) && forall n :: n in c.bindings && Owned(n, uid) ==> Held(n, uid, roles)
    ensures !ok ==> c.faults > old(c.faults)
    ensures OnlyDeletes(old(c.log), c.log, old(c.bindings), uid, roles)
  {
    hide Owned, Held, Untouched, OnlyDeletes;
    NoneDeleted(c.bindings, c.log, uid, roles);
    for i := 0 to |names|
      invariant Untouched(old(c.bindings), c.bindings, uid, roles) && c.bindings.Keys <= old(c.bindings.Keys)
      invariant forall n :: n in names[i..] ==> n in c.bindings
      invariant forall n :: n in c.bindings && n in names[..i] && Owned(n, uid) ==> Held(n, uid, roles)
      invariant c.faults == old(c.faults)
      invariant OnlyDeletes(old(c.log), c.log, old(c.bindings), uid, roles)
    {
      var n := names[i];
      assert names[i..] == [n] + names[i + 1..] && names[..i + 1] == names[..i] + [n] && n in names;
      if !Owned(n, uid) {
        continue;
      }
      var keep := IsHeld(n, uid, roles);
      if !keep {
        DeletedOne(old(c.bindings), c.bindings, old(c.log), c.log, n, uid, roles);
        ok := c.DeleteBinding(n);
        if !ok {
          return;
        }
      }
    }
    assert names[..|names|] == names;
    return true;
  }

  ghost predicate OnlyDeletes(log0: seq<Call>, log: seq<Call>, bindings: map<string, Binding>, uid: string, roles: seq<string>) {
    && log0 <= log
    && forall i :: |log0| <= i < |log| ==>
         log[i].Delete? && log[i].name in bindings && Owned(log[i].name, uid) && !Held(log[i].name, uid, roles)
  }

  lemma NoneDeleted(a: map<string, Binding>, log: seq<Call>, uid: string, roles: seq<string>)
    ensures Untouched(a, a, uid, roles) && OnlyDeletes(log, log, a, uid, roles)
  {
  }

  lemma DeletedOne(a: map<string, Binding>, b: map<string, Binding>, log0: seq<Call>, log: seq<Call>, n: string, uid: string, roles: seq<string>)
    requires Untouched(a, b, uid, roles) && OnlyDeletes(log0, log, a, uid, roles) && n in a && Owned(n, uid) && !Held(n, uid, roles)
    ensures Untouched(a, b - {n}, uid, roles) && OnlyDeletes(log0, log + [Delete(n)], a, uid, roles)
  {
    hide Owned, Held;
  }

  ghost predicate OnlyCreates(log0: seq<Call>, log: seq<Call>, names: seq<string>, uid: string, roles: seq<string>) {
    && log0 <= log
    && forall i :: |log0| <= i < |log| ==> log[i].Create? && log[i].name !in names && Held(log[i].name, uid, roles)
  }

  /** The calls of one run: a listing, then only deletes of owned bindings whose role is gone
      and creations of bindings that were missing. */
  ghost predicate OneRun(log0: seq<Call>, log: seq<Call>, bindings: map<string, Binding>, uid: string, roles: seq<string>) {
    && |log| > |log0| && log0 == log[..|log0|] && log[|log0|] == List
    && forall i :: |log0| < i < |log| ==> Needed(log[i], bindings, uid, roles)
  }

  ghost predicate Needed(call: Call, bindings: map<string, Binding>, uid: string, roles: seq<string>) {
    || (call.Delete? && call.name in bindings && Owned(call.name, uid) && !Held(call.name, uid, roles))
    || (call.Create? && call.name !in bindings && Held(call.name, uid, roles))
  }

  lemma RunOfThree(log0: seq<Call>, log1: seq<Call>, log2: seq<Call>, log3: seq<Call>, bindings: map<string, Binding>,
                   names: seq<string>, uid: string, roles: seq<string>)
    requires log1 == log0 + [List] && OnlyDeletes(log1, log2, bindings, uid, roles) && OnlyCreates(log2, log3, names, uid, roles)
    requires forall n :: n in names <==> n in bindings
    ensures OneRun(log0, log3, bindings, uid, roles)
  {
    hide Owned, Held;
    forall i | |log0| < i < |log3|
      ensures Needed(log3[i], bindings, uid, roles)
    {
      assert i < |log2| ==> log3[i] == log2[i];
    }
    assert log3[|log0|] == log2[|log0|] == log1[|log0|];
  }

  /** The role's binding is there, and if it is new it binds the user to the role. */
  ghost predicate Bound(a: map<string, Binding>, b: map<string, Binding>, uid: string, user: string, role: string) {
    var n := BindingName(uid, role);
    n in b && (n !in a ==> b[n] == Binding(user, role))
  }

  /** Creates the missing bindings, judged by the same listing. */
  method CreateMissing(c: Rbac, uid: string, user: string, roles: seq<string>, names: seq<string>) returns (ok: bool)
    requires forall i :: 0 <= i < |roles| ==> (BindingName(uid, roles[i]) in names <==> BindingName(uid, roles[i]) in c.bindings)
    modifies c
    ensures forall n :: n in old(c.bindings) ==> n in c.bindings && c.bindings[n] == old(c.bindings)[n]
    ensures forall n :: n in c.bindings && n !in old(c.bindings) ==> Held(n, uid, roles)
    ensures ok ==> c.faults == old(c.faults)
    ensures ok ==> forall i :: 0 <= i < |roles| ==> Bound(old(c.bindings), c.bindings, uid, user, roles[i])
    ensures !ok ==> |c.log| > |old(c.log)| && (c.faults > old(c.faults) || !DistinctRoles(roles))
    ensures OnlyCreates(old(c.log), c.log, names, uid, roles)
  {
    hide BindingName;
    for i := 0 to |roles|
      invariant forall n :: n in old(c.bindings) ==> n in c.bindings && c.bindings[n] == old(c.bindings)[n]
      invariant forall n :: n in c.bindings && n !in old(c.bindings) ==> exists j :: 0 <= j < i && n == BindingName(uid, roles[j])
      invariant forall j :: 0 <= j < i ==> Bound(old(c.bindings), c.bindings, uid, user, roles[j])
      invariant c.faults == old(c.faults)
      invariant OnlyCreates(old(c.log), c.log, names, uid, roles)
    {
      var n := BindingName(uid, roles[i]);
      var exists_ := false;
      for j := 0 to |names|
        invariant exists_ <==> n in names[..j]
      {
        assert names[..j + 1] == names[..j] + [names[j]];
        if n == names[j] {
          exists_ := true;
          break;
        }
      }
      assert exists_ ==> n in names;
      if exists_ {
        continue;
      }
      assert names[..|names|] == names;
      ok := c.CreateBinding(n, Binding(user, roles[i]));
      if !ok {
        if n in c.bindings {
          var k :| 0 <= k < i && n == BindingName(uid, roles[k]);
          SameRole(uid, roles[k], roles[i]);
        }
        return;
      }
    }
    return true;
  }

  lemma SameRole(uid: string, a: string, b: string)
    requires BindingName(uid, a) == BindingName(uid, b)
    ensures a == b
  {
    assert BindingName(uid, a)[|uid| + 1..] == a && BindingName(uid, b)[|uid| + 1..] == b;
  }

  /** `syncRoleAssignmentsData`.

      - Every binding that is kept or belongs to somebody else is untouched, whatever happens.
      - On success all roles held are bound, and the bindings with the user's prefix are
        exactly those if and only if the user id has no separator or nothing was stale.
      - When there is nothing to do, the listing is the only call.
      - It fails only if a call failed or a role is listed twice. */
  method SyncRoleAssignments(c: Rbac, uid: string, user: string, roles: seq<string>) returns (ok: bool)
    modifies c
    ensures Untouched(old(c.bindings), c.bindings, uid, roles)
    ensures ok ==> Settled(c.bindings, uid, roles) && c.faults == old(c.faults)
    ensures ok ==> forall i :: 0 <= i < |roles| ==> Bound(old(c.bindings), c.bindings, uid, user, roles[i])
    ensures ok ==> (Exact(c.bindings, uid, roles) <==> SEPARATOR !in uid || !Stale(old(c.bindings), uid, roles))
    ensures ok ==> forall i :: 0 <= i < |roles| ==>
              && uid + "_" + roles[i] in c.bindings
              && (uid + "_" + roles[i] !in old(c.bindings) ==> c.bindings[uid + "_" + roles[i]] == Binding(user, roles[i]))
    ensures OneRun(old(c.log), c.log, old(c.bindings), uid, roles)
    ensures old(Settled(c.bindings, uid, roles)) ==>
              c.log == old(c.log) + [List] && c.bindings == old(c.bindings) && (ok || c.faults > old(c.faults))
    ensures !ok ==> c.faults > old(c.faults) || !DistinctRoles(roles)
  {
    hide Owned, BindingName, OneRun, OnlyDeletes, OnlyCreates, Stale;
    ghost var b0, log0 := c.bindings, c.log;
    var names;
    ok, names := c.ListNames();
    JustListed(log0, b0, uid, roles);
    if !ok {
      return;
    }
    ghost var log1 := c.log;
    ok := DeleteStale(c, uid, roles, names);
    ghost var b1, log2 := c.bindings, c.log;
    NothingStale(log1, log2, b0, uid, roles);
    OnlyDeletesItself(log2, names, uid, roles);
    RunOfThree(log0, log1, log2, log2, b0, names, uid, roles);
    if !ok {
      return;
    }
    KeptNames(b0, b1, uid, roles, names);
    ok := CreateMissing(c, uid, user, roles, names);
    SameUnderCreation(b0, b1, c.bindings, uid, roles);
    RunOfThree(log0, log1, log2, c.log, b0, names, uid, roles);
    NothingMissing(log2, c.log, b0, names, uid, roles);
    if ok {
      NowExact(b0, c.bindings, uid, roles);
      forall i | 0 <= i < |roles|
        ensures uid + "_" + roles[i] == BindingName(uid, roles[i])
      {
        NameSpelledOut(uid, roles[i]);
      }
    }
  }

  lemma NameSpelledOut(uid: string, role: string)
    ensures BindingName(uid, role) == uid + "_" + role
  {
    assert [SEPARATOR] == "_";
  }

  /** Exactness, untouched bindings and the calls of a run in terms of the names alone. */
  lemma NamesSpelledOut(a: map<string, Binding>, b: map<string, Binding>, uid: string, roles: seq<string>)
    ensures Exact(b, uid, roles) <==> forall n :: uid + "_" <= n ==> (n in b <==> exists i :: 0 <= i < |roles| && n == uid + "_" + roles[i])
    ensures Untouched(a, b, uid, roles) <==>
              && (forall n :: n in a && ('_' in uid || !(uid + "_" <= n) || exists i :: 0 <= i < |roles| && n == uid + "_" + roles[i]) ==> n in b && b[n] == a[n])
              && (forall n :: n in b && n !in a ==> exists i :: 0 <= i < |roles| && n == uid + "_" + roles[i])
  {
    hide BindingName, Owned;
    assert uid + [SEPARATOR] == uid + "_";
    forall n: string
      ensures Held(n, uid, roles) <==> exists i :: 0 <= i < |roles| && n == uid + "_" + roles[i]
      ensures Owned(n, uid) <==> '_' !in uid && uid + "_" <= n
    {
      HeldSpelledOut(n, uid, roles);
      OwnedIsPrefixed(n, uid);
    }
  }

  lemma HeldSpelledOut(n: string, uid: string, roles: seq<string>)
    ensures Held(n, uid, roles) <==> exists i :: 0 <= i < |roles| && n == uid + "_" + roles[i]
  {
    hide BindingName;
    forall i | 0 <= i < |roles|
      ensures uid + "_" + roles[i] == BindingName(uid, roles[i])
    {
      NameSpelledOut(uid, roles[i]);
    }
  }

  lemma KeptNames(a: map<string, Binding>, b: map<string, Binding>, uid: string, roles: seq<string>, names: seq<string>)
    requires Untouched(a, b, uid, roles) && b.Keys <= a.Keys && forall n :: n in names <==> n in a
    ensures forall i :: 0 <= i < |roles| ==> (BindingName(uid, roles[i]) in names <==> BindingName(uid, roles[i]) in b)
  {
    forall i | 0 <= i < |roles|
      ensures BindingName(uid, roles[i]) in a <==> BindingName(uid, roles[i]) in b
    {
      assert Held(BindingName(uid, roles[i]), uid, roles);
      assert BindingName(uid, roles[i]) in b ==> BindingName(uid, roles[i]) in b.Keys;
    }
  }

  lemma SameUnderCreation(a: map<string, Binding>, b: map<string, Binding>, c: map<string, Binding>, uid: string, roles: seq<string>)
    requires Untouched(a, b, uid, roles) && b.Keys <= a.Keys
    requires forall n :: n in b ==> n in c && c[n] == b[n]
    requires forall n :: n in c && n !in b ==> Held(n, uid, roles)
    ensures Untouched(a, c, uid, roles)
  {
  }

  lemma NowExact(a: map<string, Binding>, b: map<string, Binding>, uid: string, roles: seq<string>)
    requires Untouched(a, b, uid, roles) && Settled(b, uid, roles)
    ensures Exact(b, uid, roles) <==> SEPARATOR !in uid || !Stale(a, uid, roles)
  {
    forall n
      ensures Held(n, uid, roles) ==> Prefixed(n, uid) && n in b
      ensures SEPARATOR !in uid ==> (Owned(n, uid) <==> Prefixed(n, uid))
      ensures SEPARATOR in uid ==> !Owned(n, uid)
    {
      OwnedIsPrefixed(n, uid);
    }
    if SEPARATOR in uid && Stale(a, uid, roles) {
      var n :| n in a && Prefixed(n, uid) && !Held(n, uid, roles);
      assert n in b;
    }
  }

  /** A stale binding of a user whose id has a separator is never found. */
  lemma SeparatorInIdExample()
    ensures var b := map["a_b_old" := Binding("u", "old")];
            Stale(b, "a_b", []) && Settled(b, "a_b", []) && !Exact(b, "a_b", [])
  {
    var b := map["a_b_old" := Binding("u", "old")];
    assert "a_b" + [SEPARATOR] == "a_b_old"[..4];
    assert Prefixed("a_b_old", "a_b") && "a_b_old" in b && !Held("a_b_old", "a_b", []);
    OwnedIsPrefixed("a_b_old", "a_b");
    assert "a_b"[1] == SEPARATOR;
  }

  lemma NothingStale(log0: seq<Call>, log: seq<Call>, bindings: map<string, Binding>, uid: string, roles: seq<string>)
    requires OnlyDeletes(log0, log, bindings, uid, roles)
    ensures Settled(bindings, uid, roles) ==> log == log0
  {
    hide Owned, Held;
    PrefixOrMore(log0, log);
  }

  lemma NothingMissing(log0: seq<Call>, log: seq<Call>, bindings: map<string, Binding>, names: seq<string>, uid: string, roles: seq<string>)
    requires OnlyCreates(log0, log, names, uid, roles) && forall n :: n in names <==> n in bindings
    ensures Settled(bindings, uid, roles) ==> log == log0
  {
    hide Owned;
    assert Settled(bindings, uid, roles) ==> forall n :: Held(n, uid, roles) ==> n in names;
    PrefixOrMore(log0, log);
  }

  lemma OnlyDeletesItself(log: seq<Call>, names: seq<string>, uid: string, roles: seq<string>)
    ensures OnlyCreates(log, log, names, uid, roles)
  {
  }

  lemma JustListed(log0: seq<Call>, bindings: map<string, Binding>, uid: string, roles: seq<string>)
    ensures OneRun(log0, log0 + [List], bindings, uid, roles)
  {
  }

  /** After a successful run a second one only lists: the calls are those of one run and a
      last listing, the bindings are as the first run left them, and only a listing that
      fails makes it fail. */
  method SyncTwice(c: Rbac, uid: string, user: string, roles: seq<string>) returns (first: bool, second: bool)
    modifies c
    ensures first ==>
              && |c.log| > 0 && c.log[|c.log| - 1] == List
              && OneRun(old(c.log), c.log[..|c.log| - 1], old(c.bindings), uid, roles)
              && Settled(c.bindings, uid, roles) && Untouched(old(c.bindings), c.bindings, uid, roles)
              && (forall i :: 0 <= i < |roles| ==> Bound(old(c.bindings), c.bindings, uid, user, roles[i]))
              && (second || c.faults > old(c.faults))
  {
    hide *;
    first := SyncRoleAssignments(c, uid, user, roles);
    ghost var between := c.log;
    second := SyncRoleAssignments(c, uid, user, roles);
    assert first ==> c.log[..|c.log| - 1] == between;
  }
}
