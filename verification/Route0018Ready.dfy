/** A database 0018 can be applied to: the pre-checks of Route0018.dfy can all pass at once, whatever the
    two function bodies are, and what they ask for is what the migrations before 0018 leave behind.

    The four roles hold no attribute, and the applying role is a superuser named postgres. The grants and
    the policies are the reviewed ones, in any order. service_role holds on every core table what it held
    before 0018, so the inventory lists each of those privileges but SELECT, and both functions. */
module Route0018Ready {
  import opened Options
  import opened Rows
  import opened Policies
  import opened Grants
  import opened RoleChecks
  import opened CommonChecks
  import opened Route0018

  // ------------------------------------------------------------------ lists

  /** Some list of the set. */
  lemma Listed<T>(s: set<T>) returns (rows: seq<T>)
    ensures forall x :: x in rows <==> x in s
    ensures Distinct(rows)
  {
    rows := [];
    var left := s;
    while left != {}
      invariant left <= s && Distinct(rows)
      invariant forall x :: x in rows <==> x in s - left
    {
      var x :| x in left;
      assert forall i :: 0 <= i < |rows| ==> rows[i] in rows;
      rows := rows + [x];
      left := left - {x};
    }
  }

  function RowsOf<T>(names: seq<string>, row: string -> T): seq<T> {
    seq(|names|, i requires 0 <= i < |names| => row(names[i]))
  }

  lemma LookedUp<T>(names: seq<string>, row: string -> T, key: T -> string, name: string)
    requires forall n :: key(row(n)) == n
    ensures name in ByKey(RowsOf(names, row), key) <==> name in names
    ensures name in names ==> ByKey(RowsOf(names, row), key)[name] == row(name)
  {
    var rows := RowsOf(names, row);
    KeysOf(rows, key, name);
    hide ByKey;
    if name in names {
      var i :| 0 <= i < |names| && names[i] == name;
      assert key(rows[i]) == name;
    }
  }

  // ------------------------------------------------------------------ what the roles are and hold

  const APPLIER := "postgres"

  function RoleNamed(name: string): RoleRow {
    var all := name == APPLIER;
    RoleRow(name, all, all, all, all, all, all, all, all)
  }

  lemma {:induction false} NoneApplies(names: seq<string>)
    requires APPLIER !in names
    ensures Applying(RowsOf(names, RoleNamed)) == []
  {
    if names != [] {
      NoneApplies(names[..|names| - 1]);
      assert RowsOf(names, RoleNamed)[..|names| - 1] == RowsOf(names[..|names| - 1], RoleNamed);
    }
  }

  lemma OneApplies(names: seq<string>)
    requires APPLIER !in names
    ensures Applying(RowsOf(names + [APPLIER], RoleNamed)) == [RoleNamed(APPLIER)]
  {
    NoneApplies(names);
    assert RowsOf(names + [APPLIER], RoleNamed)[..|names|] == RowsOf(names, RoleNamed);
  }

  lemma RolesAreReady(names: seq<string>, applier: string)
    requires names == [AUTHENTICATOR] + NEW_ROLES && applier == APPLIER
    ensures RolesReady(RowsOf(names + [applier], RoleNamed), LOGIN_ROLES)
    ensures Applying(RowsOf(names + [applier], RoleNamed)) == [RoleNamed(APPLIER)]
  {
    assert applier[0] == 'p' && forall name :: name in names ==> name[0] == 'a' || name[0] == 'u';
    OneApplies(names);
    hide ByKey, Applying, RowsOf;
    assert names[0] == AUTHENTICATOR;
    forall name | name in names
      ensures name in ByKey(RowsOf(names + [applier], RoleNamed), RoleOf)
      ensures ByKey(RowsOf(names + [applier], RoleNamed), RoleOf)[name] == RoleNamed(name)
    {
      LookedUp(names + [applier], RoleNamed, RoleOf, name);
    }
  }

  lemma MembershipIsReady(row: Membership, roles: seq<RoleRow>)
    requires row == Membership(WRITER, AUTHENTICATOR, false, false, false, true) && Applying(roles) == [RoleNamed(APPLIER)]
    ensures MembershipsReady([row], roles)
  {
    assert [row][..0] == [] && WriterMemberships([]) == [];
    hide Applying;
  }

  function UsageOnly(role: string): SchemaGrant {
    SchemaGrant(role, true, false)
  }

  lemma RightsAreReady()
    ensures SchemaGrantsReady(RowsOf(NEW_ROLES, UsageOnly))
  {
    hide ByKey, RowsOf;
    forall role
      ensures role in ByKey(RowsOf(NEW_ROLES, UsageOnly), GrantedRole) <==> role in NEW_ROLES
      ensures role in NEW_ROLES ==> ByKey(RowsOf(NEW_ROLES, UsageOnly), GrantedRole)[role] == UsageOnly(role)
    {
      LookedUp(NEW_ROLES, UsageOnly, GrantedRole, role);
    }
  }

  function Reviewed(roles: seq<string>, objects: seq<string>, expected: Policies.Grants): set<GrantRow> {
    set role, name | role in roles && name in objects :: GrantRow(role, name, Wanted(expected, role, name))
  }

  lemma GrantsAreReady(roles: seq<string>, objects: seq<string>, expected: Policies.Grants) returns (rows: seq<GrantRow>)
    ensures HoldExactly(rows, roles, objects, expected)
  {
    hide Wanted;
    rows := Listed(Reviewed(roles, objects, expected));
    forall i, j | 0 <= i < j < |rows| ensures KeyOf(rows[i]) != KeyOf(rows[j]) {
      assert rows[i] in rows && rows[j] in rows;
    }
    forall role, name | role in roles && name in objects ensures Read(rows, role, name) {
      assert GrantRow(role, name, Wanted(expected, role, name)) in rows;
    }
  }

  lemma PoliciesAreReady(expected: map<string, Policy>) returns (rows: seq<PolicyRow>)
    ensures PoliciesReady(rows, expected)
  {
    rows := Listed(set item | item in expected :: PolicyRow(item, expected[item]));
    forall i, j | 0 <= i < j < |rows| ensures ItemOf(rows[i]) != ItemOf(rows[j]) {
      assert rows[i] in rows && rows[j] in rows;
    }
    forall item | item in expected ensures item in ByKey(rows, ItemOf) && ByKey(rows, ItemOf)[item].policy == expected[item] {
      RowFound(rows, ItemOf, PolicyRow(item, expected[item]));
    }
  }

  // ------------------------------------------------------------------ functions and tables

  lemma BundleIsReady(acl: seq<string>)
    requires acl == [BUNDLE_OWNER + "=EXECUTE", WRITER + "=EXECUTE", "service_role" + "=EXECUTE"]
    ensures ExecuteReady(Some(acl))
  {
    ExecutorIsNeverBarred(BUNDLE_OWNER);
    ExecutorIsNeverBarred(WRITER);
    ExecutorIsNeverBarred("service_role");
    hide GivenTo;
    assert acl[0] in acl && acl[1] in acl && acl[2] in acl;
  }

  const VERSION := 170006

  function SecurityRow(table: string): Security {
    Security(table, 1, "r", true, true, false, 0, false, false, [], [],
             if table in CORE_TABLES then ServiceRoleBefore(VERSION, table) else [])
  }

  lemma TablesAreReady()
    ensures TablesReady(RowsOf(TABLES, SecurityRow), TABLES) && ServiceRoleReady(RowsOf(TABLES, SecurityRow), VERSION)
  {
    hide ServiceRoleBefore, ByKey;
    CoreTablesAreRead(TABLES, CORE_TABLES);
    var rows := RowsOf(TABLES, SecurityRow);
    forall i | 0 <= i < |TABLES| ensures Tables(rows)[i] == TABLES[i] {
      assert rows[i] == SecurityRow(TABLES[i]);
    }
    assert Tables(rows) == TABLES;
    forall table | table in CORE_TABLES ensures ServiceHolds(rows, table) == Some(ServiceRoleBefore(VERSION, table)) {
      var k :| 0 <= k < |CORE_TABLES| && CORE_TABLES[k] == table;
      LookedUp(TABLES, SecurityRow, TableOfRow, table);
    }
  }

  // ------------------------------------------------------------------ the inventory

  function Surfaces(kind: InventoryKind, of: set<(string, string)>): set<Surface> {
    set pair | pair in of :: Surface(kind, pair.0, pair.1)
  }

  lemma {:induction false} UnspacedWord(word: string, rest: string)
    requires ',' !in word
    ensures Unspaced(word + rest) == word + Unspaced(rest)
  {
    if word == [] {
      assert word + rest == rest;
    } else {
      assert (word + rest)[0] == word[0] && (word + rest)[1..] == word[1..] + rest && word[0] in word;
      UnspacedWord(word[1..], rest);
    }
  }

  lemma {:induction false} UnspacedMore(n: nat)
    ensures Unspaced(More(n, ", ")) == More(n, ",")
  {
    if n == 0 {
      assert ")"[1..] == [];
    } else {
      var rest := "jsonb" + More(n - 1, ", ");
      UnspacedMore(n - 1);
      UnspacedWord("jsonb", More(n - 1, ", "));
      assert (", " + rest)[2..] == rest && ", " + "jsonb" + More(n - 1, ", ") == ", " + rest;
      assert "," + "jsonb" + More(n - 1, ",") == "," + ("jsonb" + More(n - 1, ","));
    }
  }

  lemma UnspacedSignature(name: string, arguments: nat)
    requires ',' !in name && arguments > 0
    ensures Unspaced(Signature(name, arguments, ", ")) == Signature(name, arguments, ",")
  {
    hide Unspaced, More;
    UnspacedMore(arguments - 1);
    UnspacedWord(name + "(jsonb", More(arguments - 1, ", "));
  }

  lemma BothAreCovered(bundle: string, forecast: string)
    requires bundle == BUNDLE && forecast == FORECAST
    ensures forall s :: s in Surfaces(F, FunctionSurfacesBefore()) ==> Covered(s)
  {
    assert ',' !in bundle && ',' !in forecast;
    UnspacedSignature(bundle, 3);
    UnspacedSignature(forecast, 5);
    hide Unspaced, Signature;
    AfterPublic(Signature(bundle, 3, ", "));
    AfterPublic(Signature(forecast, 5, ", "));
    assert BUNDLE_FUNCTIONS[0] == Signature(forecast, 5, ",") && BUNDLE_FUNCTIONS[1] == Signature(bundle, 3, ",");
  }

  lemma AfterPublic(name: string)
    ensures "public." <= "public." + name && ("public." + name)[|"public."|..] == name
  {
  }

  lemma InventoryIsReady() returns (inventory: seq<Surface>)
    ensures InventoryReady(inventory, VERSION) && inventory != []
  {
    hide ServiceRoleBefore, FunctionSurfacesBefore, Covered, Route0018.Text;
    inventory := Listed(Surfaces(T, TableSurfacesBefore(VERSION)) + Surfaces(F, FunctionSurfacesBefore()));
    BothAreCovered(BUNDLE, FORECAST);
    forall s | s in inventory ensures Covered(s) {
      if s in Surfaces(T, TableSurfacesBefore(VERSION)) {
        CoreIsCovered(s);
      }
    }
    hide TableSurfacesBefore;
    SurfacesListed(inventory, TableSurfacesBefore(VERSION), FunctionSurfacesBefore());
    SomeFunctionSurface();
  }

  lemma CoreIsCovered(s: Surface)
    requires s.kind == T && s.object_ in CORE_TABLES
    ensures Covered(s)
  {
    hide Unspaced;
  }

  lemma SurfacesListed(inventory: seq<Surface>, tables: set<(string, string)>, functions: set<(string, string)>)
    requires forall s :: s in inventory <==> s in Surfaces(T, tables) + Surfaces(F, functions)
    ensures SurfacesOf(inventory, T) == tables && SurfacesOf(inventory, F) == functions
    ensures functions != {} ==> inventory != []
  {
    forall pair | pair in tables ensures Surface(T, pair.0, pair.1) in inventory {
      assert Surface(T, pair.0, pair.1) in Surfaces(T, tables);
    }
    forall pair | pair in functions ensures Surface(F, pair.0, pair.1) in inventory {
      assert Surface(F, pair.0, pair.1) in Surfaces(F, functions);
    }
  }

  lemma SomeFunctionSurface()
    ensures FunctionSurfacesBefore() != {}
  {
    hide Signature;
    assert ("public." + Signature(BUNDLE, 3, ", "), BUNDLE_OWNER) in FunctionSurfacesBefore();
  }

  // ------------------------------------------------------------------ the reading

  function OwnedRow(arguments: string, source: string, acl: seq<string>): FunctionRow {
    FunctionRow(arguments, "jsonb", "plpgsql", true, "f", "v", ["search_path=pg_catalog, pg_temp"], BUNDLE_OWNER, false,
                source, Some(acl))
  }

  lemma OwnedRowIsReady(arguments: string, source: string, acl: seq<string>)
    requires ExecuteReady(Some(acl))
    ensures FunctionReady([OwnedRow(arguments, source, acl)], arguments, source)
  {
    hide ExecuteReady;
  }

  /** Some reading whose lists are all ready, but for what is read of the functions. */
  lemma ListsAreReady(bundle: FunctionRow, forecast: FunctionRow) returns (r: Reading)
    ensures r.server == [Int(VERSION)] && r.function_ == [bundle] && r.forecast == [forecast]
    ensures RolesReady(r.roles, LOGIN_ROLES) && MembershipsReady(r.memberships, r.roles)
    ensures HoldBoth(r.grants, r.sequenceGrants, EXPECTED_GRANTS) && SchemaGrantsReady(r.schemaGrants)
    ensures PoliciesReady(r.policies, PoliciesOf(EXPECTED_GRANTS)) && SchemaRead(r.schema)
    ensures TablesReady(r.security, TABLES) && ServiceRoleReady(r.security, VERSION)
    ensures InventoryReady(r.inventory, VERSION) && r.inventory != []
  {
    hide RolesReady, MembershipsReady, HoldExactly, SchemaGrantsReady, PoliciesReady, TablesReady, ServiceRoleReady, InventoryReady,
         RowsOf, Applying, PoliciesOf;
    var roles := RowsOf([AUTHENTICATOR] + NEW_ROLES + [APPLIER], RoleNamed);
    var membership := Membership(WRITER, AUTHENTICATOR, false, false, false, true);
    RolesAreReady([AUTHENTICATOR] + NEW_ROLES, APPLIER);
    MembershipIsReady(membership, roles);
    RightsAreReady();
    TablesAreReady();
    var grants := GrantsAreReady(NEW_ROLES, TABLES, EXPECTED_GRANTS);
    var sequenceGrants := GrantsAreReady(NEW_ROLES, SEQUENCES, EXPECTED_SEQUENCE_GRANTS);
    var policies := PoliciesAreReady(PoliciesOf(EXPECTED_GRANTS));
    var inventory := InventoryIsReady();
    r := Reading(
      [Int(VERSION)], roles, [membership], grants, sequenceGrants, [SchemaRow("public", true, true, map[])],
      RowsOf(NEW_ROLES, UsageOnly), policies, [bundle], [forecast], [], RowsOf(TABLES, SecurityRow), [], [], inventory);
  }

  /** For any bodies there is a reading the pre-checks accept, so what is proved of 0018 is about something:
      it can be applied, once. */
  lemma AFirstApplyIsPossible(bodies: Bodies) returns (r: Reading)
    ensures PrePasses(r, bodies) && PostPasses(r, Intended(r))
  {
    var acl := [BUNDLE_OWNER + "=EXECUTE", WRITER + "=EXECUTE", "service_role" + "=EXECUTE"];
    BundleIsReady(acl);
    OwnedRowIsReady(FunctionOwner.FUNCTION_ARGUMENTS, bodies.function_, acl);
    OwnedRowIsReady(FORECAST_ARGUMENTS, bodies.forecast, acl);
    r := ListsAreReady(OwnedRow(FunctionOwner.FUNCTION_ARGUMENTS, bodies.function_, acl), OwnedRow(FORECAST_ARGUMENTS, bodies.forecast, acl));
    PartsPass(r, bodies);
    IntendedIsAccepted(r, bodies);
    hide *;
  }

  lemma PartsPass(r: Reading, bodies: Bodies)
    requires r.server == [Int(VERSION)]
    requires FunctionReady(r.function_, FunctionOwner.FUNCTION_ARGUMENTS, bodies.function_)
    requires FunctionReady(r.forecast, FORECAST_ARGUMENTS, bodies.forecast)
    requires RolesReady(r.roles, LOGIN_ROLES) && MembershipsReady(r.memberships, r.roles)
    requires HoldBoth(r.grants, r.sequenceGrants, EXPECTED_GRANTS) && SchemaGrantsReady(r.schemaGrants)
    requires PoliciesReady(r.policies, PoliciesOf(EXPECTED_GRANTS)) && SchemaRead(r.schema)
    requires TablesReady(r.security, TABLES) && ServiceRoleReady(r.security, VERSION)
    requires InventoryReady(r.inventory, VERSION) && r.inventory != []
    ensures PrePasses(r, bodies)
  {
    hide RolesReady, MembershipsReady, HoldBoth, SchemaGrantsReady, PoliciesReady, FunctionReady, TablesReady, ServiceRoleReady,
         InventoryReady, SchemaRead, OnlySelectOnCore, PoliciesOf;
  }
}
