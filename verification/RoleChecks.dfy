/** The comparisons of scripts/apply_migration_0016.py and 0017 that are not "unchanged": what the
    four roles hold, the policies and their counts, and the memberships. */
module RoleChecks {
  import opened Options
  import opened Rows
  import opened Additions
  import opened Policies
  import opened Grants

  // ------------------------------------------------------------------ grants

  datatype GrantRow = GrantRow(role: string, object_: string, privileges: seq<Privilege>)

  function KeyOf(row: GrantRow): (string, string) {
    (row.role, row.object_)
  }

  function TableWanted(ts: seq<TableGrant>, name: string): seq<Privilege> {
    if ts == [] then []
    else if ts[0].table == name then ts[0].privileges
    else TableWanted(ts[1..], name)
  }

  /** expected.get(role, {}).get(name, ()) */
  function Wanted(expected: Policies.Grants, role: string, name: string): seq<Privilege> {
    if expected == [] then []
    else if expected[0].role == role then TableWanted(expected[0].tables, name)
    else Wanted(expected[1..], role, name)
  }

  predicate AsReviewed(row: GrantRow, roles: seq<string>, objects: seq<string>, expected: Policies.Grants) {
    row.role in roles && row.object_ in objects && row.privileges == Wanted(expected, row.role, row.object_)
  }

  predicate Read(rows: seq<GrantRow>, role: string, name: string) {
    exists row :: row in rows && row.role == role && row.object_ == name
  }

  /** Every (role, object) once, each holding exactly its list. */
  predicate HoldExactly(rows: seq<GrantRow>, roles: seq<string>, objects: seq<string>, expected: Policies.Grants) {
    && DistinctKeys(rows, KeyOf)
    && (forall row :: row in rows ==> AsReviewed(row, roles, objects, expected))
    && (forall role, name :: role in roles && name in objects ==> Read(rows, role, name))
  }

  type Found = map<(string, string), GrantRow>

  function Asked(roles: seq<string>, objects: seq<string>): set<(string, string)> {
    set role, name | role in roles && name in objects :: (role, name)
  }

  predicate HeldAsWanted(found: Found, expected: Policies.Grants, role: string, name: string) {
    (role, name) in found && found[(role, name)].privileges == Wanted(expected, role, name)
  }

  predicate AllHeldAsWanted(found: Found, expected: Policies.Grants, roles: seq<string>, objects: seq<string>) {
    forall role, name :: role in roles && name in objects ==> HeldAsWanted(found, expected, role, name)
  }

  method GrantsFailures(check: string, rows: seq<GrantRow>, roles: seq<string>, objects: seq<string>, expected: Policies.Grants)
    returns (failures: seq<Failure>)
    ensures failures == [] <==> HoldExactly(rows, roles, objects, expected)
    ensures NoneIsTheGate(failures)
  {
    failures := [];
    var found := ByKey(rows, KeyOf);
    HoldExactlyWhenWanted(rows, roles, objects, expected);
    hide HoldExactly, AllHeldAsWanted;
    if |found| != |rows| || found.Keys != Asked(roles, objects) {
      failures := [Failure(check, Null, Unreadable)];
      return;
    }
    OneMoreRoleHeld(found, expected, [], "", objects);
    assert roles[..0] == [];
    for i := 0 to |roles|
      invariant failures == [] <==> AllHeldAsWanted(found, expected, roles[..i], objects)
      invariant NoneIsTheGate(failures)
    {
      var more := RoleFailures(check, found, roles[i], objects, expected);
      failures := failures + more;
      OneMoreRoleHeld(found, expected, roles[..i], roles[i], objects);
      assert roles[..i + 1] == roles[..i] + [roles[i]];
    }
    assert roles[..|roles|] == roles;
  }

  lemma OneMoreRoleHeld(found: Found, expected: Policies.Grants, roles: seq<string>, role: string, objects: seq<string>)
    ensures AllHeldAsWanted(found, expected, roles + [role], objects) <==>
      AllHeldAsWanted(found, expected, roles, objects) && forall name :: name in objects ==> HeldAsWanted(found, expected, role, name)
    ensures AllHeldAsWanted(found, expected, [], objects)
  {
    assert role in roles + [role];
  }

  method RoleFailures(check: string, found: Found, role: string, objects: seq<string>, expected: Policies.Grants)
    returns (failures: seq<Failure>)
    requires forall name :: name in objects ==> (role, name) in found
    ensures failures == [] <==> forall name :: name in objects ==> HeldAsWanted(found, expected, role, name)
    ensures NoneIsTheGate(failures)
  {
    failures := [];
    for j := 0 to |objects|
      invariant failures == [] <==> forall o :: 0 <= o < j ==> HeldAsWanted(found, expected, role, objects[o])
      invariant NoneIsTheGate(failures)
    {
      if found[(role, objects[j])].privileges != Wanted(expected, role, objects[j]) {
        failures := failures + [Failure(check, List([Text(role), Text(objects[j])]), Wrong)];
      }
    }
  }

  lemma HoldExactlyWhenWanted(rows: seq<GrantRow>, roles: seq<string>, objects: seq<string>, expected: Policies.Grants)
    ensures var found := ByKey(rows, KeyOf);
      HoldExactly(rows, roles, objects, expected) <==>
        |found| == |rows| && found.Keys == Asked(roles, objects) && AllHeldAsWanted(found, expected, roles, objects)
  {
    var found := ByKey(rows, KeyOf);
    DictSize(rows, KeyOf);
    if HoldExactly(rows, roles, objects, expected) {
      ExactIsWanted(rows, roles, objects, expected);
    }
    if |found| == |rows| && found.Keys == Asked(roles, objects) && AllHeldAsWanted(found, expected, roles, objects) {
      WantedIsExact(rows, roles, objects, expected);
    }
  }

  lemma ExactIsWanted(rows: seq<GrantRow>, roles: seq<string>, objects: seq<string>, expected: Policies.Grants)
    requires HoldExactly(rows, roles, objects, expected)
    ensures ByKey(rows, KeyOf).Keys == Asked(roles, objects)
    ensures AllHeldAsWanted(ByKey(rows, KeyOf), expected, roles, objects)
  {
    var found := ByKey(rows, KeyOf);
    forall role, name | role in roles && name in objects ensures HeldAsWanted(found, expected, role, name) {
      assert Read(rows, role, name);
      var row :| row in rows && row.role == role && row.object_ == name;
      assert AsReviewed(row, roles, objects, expected);
      RowFound(rows, KeyOf, row);
    }
    forall k | k in found ensures k in Asked(roles, objects) {
      KeysOf(rows, KeyOf, k);
      assert AsReviewed(found[k], roles, objects, expected);
    }
    forall k | k in Asked(roles, objects) ensures k in found {
      assert HeldAsWanted(found, expected, k.0, k.1);
    }
  }

  lemma WantedIsExact(rows: seq<GrantRow>, roles: seq<string>, objects: seq<string>, expected: Policies.Grants)
    requires DistinctKeys(rows, KeyOf) && ByKey(rows, KeyOf).Keys == Asked(roles, objects)
    requires AllHeldAsWanted(ByKey(rows, KeyOf), expected, roles, objects)
    ensures HoldExactly(rows, roles, objects, expected)
  {
    var found := ByKey(rows, KeyOf);
    forall row | row in rows ensures AsReviewed(row, roles, objects, expected) {
      RowFound(rows, KeyOf, row);
      assert KeyOf(row) in Asked(roles, objects);
      assert HeldAsWanted(found, expected, row.role, row.object_);
    }
    forall role, name | role in roles && name in objects ensures Read(rows, role, name) {
      assert (role, name) in Asked(roles, objects);
      KeysOf(rows, KeyOf, (role, name));
    }
  }

  /** Two readings that hold exactly the reviewed list are the same rows, in some order. */
  lemma SameHoldings(a: seq<GrantRow>, b: seq<GrantRow>, roles: seq<string>, objects: seq<string>, expected: Policies.Grants)
    requires HoldExactly(a, roles, objects, expected) && HoldExactly(b, roles, objects, expected)
    ensures multiset(a) == multiset(b)
  {
    forall row ensures multiset(a)[row] == multiset(b)[row] {
      OnceAtMost(a, row);
      OnceAtMost(b, row);
    }
  }

  lemma {:induction false} OnceAtMost(rows: seq<GrantRow>, row: GrantRow)
    requires DistinctKeys(rows, KeyOf)
    ensures multiset(rows)[row] == if row in rows then 1 else 0
  {
    if rows != [] {
      var n := |rows| - 1;
      OnceAtMost(rows[..n], row);
      assert rows == rows[..n] + [rows[n]];
      assert forall i :: 0 <= i < n ==> rows[..n][i] == rows[i] && KeyOf(rows[i]) != KeyOf(rows[n]);
    }
  }

  /** The order of the rows does not matter. */
  lemma HoldInAnyOrder(a: seq<GrantRow>, b: seq<GrantRow>, roles: seq<string>, objects: seq<string>, expected: Policies.Grants)
    requires HoldExactly(a, roles, objects, expected) && multiset(a) == multiset(b)
    ensures HoldExactly(b, roles, objects, expected)
  {
    forall row ensures row in a <==> row in b {
      assert row in a <==> row in multiset(a);
      assert row in b <==> row in multiset(b);
    }
    forall i, j | 0 <= i < j < |b| ensures KeyOf(b[i]) != KeyOf(b[j]) {
      assert b[i] in a && b[j] in a;
      if b[i] == b[j] {
        Twice(b, i, j);
        OnceAtMost(a, b[i]);
      }
    }
    forall role, name | role in roles && name in objects ensures Read(b, role, name) {
      assert Read(a, role, name);
    }
  }

  lemma Twice(rows: seq<GrantRow>, i: nat, j: nat)
    requires i < j < |rows| && rows[i] == rows[j]
    ensures multiset(rows)[rows[i]] >= 2
  {
    assert rows == rows[..j] + [rows[j]] + rows[j + 1..];
    assert rows[..j][i] == rows[i];
  }

  // ------------------------------------------------------------------ policies

  datatype PolicyRow = PolicyRow(item: string, policy: Policy)

  function ItemOf(row: PolicyRow): string {
    row.item
  }

  /** The older policies exactly as they were, and each added one exactly as reviewed. */
  predicate PoliciesGrownBy(pre: seq<PolicyRow>, post: seq<PolicyRow>, added: map<string, Policy>) {
    && KeptRows(post, ItemOf, added.Keys) == pre
    && forall item :: item in added ==> item in ByKey(post, ItemOf) && ByKey(post, ItemOf)[item].policy == added[item]
  }

  method PoliciesPostCheckFailures(pre: seq<PolicyRow>, post: seq<PolicyRow>, added: map<string, Policy>)
    returns (failures: seq<Failure>)
    ensures failures == [] <==> PoliciesGrownBy(pre, post, added)
  {
    failures := UnchangedFailures("policy", (row: PolicyRow) => Text(row.item), pre, KeptRows(post, ItemOf, added.Keys));
    var found := ByKey(post, ItemOf);
    var left := added.Keys;
    while left != {}
      invariant left <= added.Keys
      invariant failures == [] <==>
        && KeptRows(post, ItemOf, added.Keys) == pre
        && forall item :: item in added.Keys - left ==> item in found && found[item].policy == added[item]
    {
      var item :| item in left;
      if item !in found {
        failures := failures + [Failure("policy", Text(item), Missing)];
      } else if found[item].policy != added[item] {
        failures := failures + [Failure("policy", Text(item), Wrong)];
      }
      left := left - {item};
    }
    assert added.Keys - left == added.Keys;
  }

  /** {row["table"]: row["policies"]}.get(table) or 0 */
  function CountOf(rows: seq<Security>, table: string): int {
    if rows == [] then 0
    else if rows[|rows| - 1].table == table then rows[|rows| - 1].policies
    else CountOf(rows[..|rows| - 1], table)
  }

  lemma {:induction false} CountOfRow(rows: seq<Security>, i: nat)
    requires i < |rows| && Distinct(Tables(rows))
    ensures CountOf(rows, rows[i].table) == rows[i].policies
  {
    var n := |rows| - 1;
    if i < n {
      assert Tables(rows)[i] != Tables(rows)[n];
      forall j, k | 0 <= j < k < n ensures Tables(rows[..n])[j] != Tables(rows[..n])[k] {
        assert Tables(rows)[j] != Tables(rows)[k];
      }
      CountOfRow(rows[..n], i);
    }
  }

  function WithoutPolicies(rows: seq<Security>): seq<Security> {
    seq(|rows|, i requires 0 <= i < |rows| => rows[i].(policies := 0))
  }

  /** Nothing but the policy counts changed, and each is the count its table had and the number of
      policies added on it. */
  predicate CountsGrownBy(pre: seq<Security>, post: seq<Security>, added: set<string>) {
    && |post| == |pre|
    && forall i :: 0 <= i < |pre| ==>
         post[i] == pre[i].(policies := CountOf(pre, pre[i].table) + |On(added, pre[i].table)|)
  }

  /** `security_post_check_failures` of 0016 and 0017. */
  method SecurityPostCheckFailures(pre: seq<Security>, post: seq<Security>, added: set<string>) returns (failures: seq<Failure>)
    ensures failures == [] <==> CountsGrownBy(pre, post, added)
  {
    var counts := CountByTable(added);
    failures := UnchangedFailures("security of table", (row: Security) => Text(row.table), WithoutPolicies(pre), WithoutPolicies(post));
    ghost var same := WithoutPolicies(post) == WithoutPolicies(pre);
    hide CountOf, On, WithoutPolicies;
    for i := 0 to |post|
      invariant failures == [] <==>
        && same
        && forall k :: 0 <= k < i ==> post[k].policies == CountOf(pre, post[k].table) + |On(added, post[k].table)|
    {
      var table := post[i].table;
      var wanted := CountOf(pre, table) + if table in counts then counts[table] else 0;
      if post[i].policies != wanted {
        failures := failures + [Failure("security of table", Text(table), Wrong)];
      }
    }
    SameButCounts(pre, post);
  }

  /** With each table read once, every row's own count grows by the policies added on its table. */
  lemma EachCountGrows(pre: seq<Security>, post: seq<Security>, added: set<string>)
    requires Distinct(Tables(pre))
    ensures CountsGrownBy(pre, post, added) <==>
      && |post| == |pre|
      && forall i :: 0 <= i < |pre| ==> post[i] == pre[i].(policies := pre[i].policies + |On(added, pre[i].table)|)
  {
    forall k | 0 <= k < |pre| ensures CountOf(pre, pre[k].table) == pre[k].policies {
      CountOfRow(pre, k);
    }
    hide CountOf, On;
  }

  lemma SameButCounts(pre: seq<Security>, post: seq<Security>)
    ensures WithoutPolicies(post) == WithoutPolicies(pre) <==>
      |post| == |pre| && forall i :: 0 <= i < |pre| ==> post[i] == pre[i].(policies := post[i].policies)
  {
    if WithoutPolicies(post) == WithoutPolicies(pre) {
      assert |WithoutPolicies(post)| == |WithoutPolicies(pre)|;
      forall i | 0 <= i < |pre| ensures post[i] == pre[i].(policies := post[i].policies) {
        assert WithoutPolicies(post)[i] == WithoutPolicies(pre)[i];
      }
    }
  }

  // ------------------------------------------------------------------ memberships

  const AUTHENTICATOR := "authenticator"

  datatype Membership = Membership(role: string, member: string, grantedByApplier: bool, admin: bool, inherit: bool, set_: bool)

  function AsSet<T>(rows: seq<T>): set<T> {
    set row | row in rows
  }

  /** The writer's membership in authenticator; a superuser's grants are recorded as another role's. */
  function WriterRows(superuser: bool): set<Membership> {
    {Membership(WRITER, AUTHENTICATOR, true, false, false, true)}
    + if superuser then {Membership(WRITER, AUTHENTICATOR, false, false, false, true)} else {}
  }

  /** The ADMIN rows PostgreSQL 16 gives a CREATEROLE creator. */
  function CreatorRows(applier: string): set<Membership> {
    set role | role in NEW_ROLES :: Membership(role, applier, false, true, false, false)
  }

  /** No membership is gone, and the new ones are one writer row and the creator's, unless superuser.
      An applier that was not read has no rows to be given. */
  predicate MembershipsAsReviewed(pre: seq<Membership>, post: seq<Membership>, applier: Option<string>, superuser: bool) {
    && AsSet(pre) <= AsSet(post)
    && (applier.Some? || superuser)
    && exists w :: w in WriterRows(superuser)
         && AsSet(post) - AsSet(pre) == {w} + if superuser then {} else CreatorRows(applier.value)
  }

  /** `memberships_post_check_failures` of 0016. */
  method MembershipsPostCheckFailures(pre: seq<Membership>, post: seq<Membership>, applier: Option<string>, superuser: bool)
    returns (failures: seq<Failure>)
    ensures failures == [] <==> MembershipsAsReviewed(pre, post, applier, superuser)
  {
    var before, after := AsSet(pre), AsSet(post);
    var lost := Each("membership", before - after, Gone);
    var writer, creator := WriterRows(superuser), if applier.Some? then CreatorRows(applier.value) else {};
    var added := after - before;
    failures := lost;
    if |added * writer| != 1 {
      failures := failures + [Failure("authenticator", Null, Wrong)];
    }
    var unexpected := Each("membership", added - writer - creator, Appeared);
    failures := failures + unexpected;
    if superuser && added * creator != {} {
      failures := failures + [Failure("superuser", Null, Wrong)];
    }
    if !superuser && (applier.None? || added * creator != creator) {
      failures := failures + [Failure("creator", Null, Wrong)];
    }
    OneWriter(added, writer, creator, superuser, applier);
    hide WriterRows, CreatorRows, AsSet;
  }

  method Each(check: string, rows: set<Membership>, kind: Kind) returns (failures: seq<Failure>)
    ensures failures == [] <==> rows == {}
    ensures |failures| == |rows|
  {
    failures := [];
    var left := rows;
    while left != {}
      invariant left <= rows && |failures| == |rows| - |left|
    {
      var row :| row in left;
      failures := failures + [Failure(check, List([Text(row.role), Text(row.member)]), kind)];
      left := left - {row};
    }
  }

  lemma WriterIsNoCreatorRow(superuser: bool, applier: string)
    ensures WriterRows(superuser) !! CreatorRows(applier)
  {
    forall w | w in WriterRows(superuser) ensures w !in CreatorRows(applier) {
      assert !w.admin;
    }
  }

  lemma OneWriter(added: set<Membership>, writer: set<Membership>, creator: set<Membership>, superuser: bool, applier: Option<string>)
    requires writer == WriterRows(superuser) && creator == if applier.Some? then CreatorRows(applier.value) else {}
    ensures
      (&& |added * writer| == 1 && added - writer - creator == {}
       && added * creator == if superuser then {} else creator)
      <==> exists w :: w in writer && added == {w} + if superuser then {} else creator
  {
    if applier.Some? {
      WriterIsNoCreatorRow(superuser, applier.value);
    }
    hide WriterRows, CreatorRows;
    OneOf(added, writer, creator, if superuser then {} else creator);
  }

  lemma OneOf<T>(added: set<T>, a: set<T>, b: set<T>, kept: set<T>)
    requires a !! b && kept <= b
    ensures |added * a| == 1 && added - a - b == {} && added * b == kept <==> exists w :: w in a && added == {w} + kept
  {
    if |added * a| == 1 && added - a - b == {} && added * b == kept {
      var w :| w in added * a;
      Singleton(added * a, w);
      assert added == (added * a) + (added * b);
      assert w in a && added == {w} + kept;
    }
    if w :| w in a && added == {w} + kept {
      assert added * a == {w};
      assert added * b == kept;
    }
  }

  lemma Singleton<T>(s: set<T>, x: T)
    requires |s| == 1 && x in s
    ensures s == {x}
  {
    assert |s - {x}| == 0;
  }

  /** `memberships_post_check_failures` of 0017 and 0018: every row as before, in the same order. */
  method MembershipsUnchangedFailures(pre: seq<Membership>, post: seq<Membership>) returns (failures: seq<Failure>)
    ensures failures == [] <==> post == pre
  {
    if post == pre {
      return [];
    }
    var lost := Each("membership", AsSet(pre) - AsSet(post), Gone);
    var added := Each("membership", AsSet(post) - AsSet(pre), Appeared);
    failures := lost + added;
    if failures == [] {
      failures := [Failure("memberships", Null, Reordered)];
    }
  }
}
