/** The pre-checks of scripts/apply_migration_0018.py, as the code builds their list: nothing is listed
    exactly when Route0018.dfy says that the reading passes, and "not a first apply" exactly when it is
    already applied. */
module Route0018PreChecks {
  import opened Options
  import opened Rows
  import opened Policies
  import opened Grants
  import opened CommonChecks
  import opened Route0018

  method ServiceRoleFailures(rows: seq<Security>, version: Option<int>) returns (failures: seq<Failure>)
    ensures failures == [] <==> version == None || ServiceRoleReady(rows, version.value)
    ensures NoneIsTheGate(failures)
  {
    if version == None {
      return [];
    }
    hide ServiceRoleBefore, ServiceHolds;
    failures := [];
    for i := 0 to |CORE_TABLES|
      invariant failures == [] <==> forall k :: 0 <= k < i ==> HeldBefore(rows, version.value, CORE_TABLES[k])
      invariant NoneIsTheGate(failures)
    {
      if !HeldBefore(rows, version.value, CORE_TABLES[i]) {
        failures := failures + [Failure("service_role", Text(CORE_TABLES[i]), Wrong)];
      }
    }
    EachHeldBefore(rows, version.value, CORE_TABLES);
  }

  predicate HeldBefore(rows: seq<Security>, version: int, table: string) {
    ServiceHolds(rows, table) == Some(ServiceRoleBefore(version, table))
  }

  lemma EachHeldBefore(rows: seq<Security>, version: int, tables: seq<string>)
    ensures (forall k :: 0 <= k < |tables| ==> HeldBefore(rows, version, tables[k])) <==>
      forall table :: table in tables ==> HeldBefore(rows, version, table)
  {
    hide HeldBefore;
    forall k | 0 <= k < |tables| ensures tables[k] in tables {
    }
  }

  // ------------------------------------------------------------------ the inventory

  /** `inventory_omitted`: exactly the surfaces the revoke does not cover, in order. */
  method InventoryOmitted(inventory: seq<Surface>) returns (left: seq<Surface>)
    ensures forall s :: s in left <==> s in inventory && !Covered(s)
  {
    hide Covered;
    left := [];
    for i := 0 to |inventory|
      invariant forall s :: s in left <==> s in inventory[..i] && !Covered(s)
    {
      if !Covered(inventory[i]) {
        left := left + [inventory[i]];
      }
      assert inventory[..i + 1] == inventory[..i] + [inventory[i]];
    }
    assert inventory[..|inventory|] == inventory;
  }

  method OmittedFailures(inventory: seq<Surface>) returns (failures: seq<Failure>)
    ensures failures == [] <==> forall s :: s in inventory ==> Covered(s)
    ensures NoneIsTheGate(failures)
  {
    var left := InventoryOmitted(inventory);
    hide Covered;
    failures := seq(|left|, i requires 0 <= i < |left| => Failure("inventory", Text(left[i].object_), Appeared));
    if left != [] {
      assert left[0] in left;
    }
  }

  method InventoryFailures(inventory: seq<Surface>, version: Option<int>) returns (failures: seq<Failure>)
    ensures failures == [] <==> version == None || InventoryReady(inventory, version.value)
    ensures NoneIsTheGate(failures)
  {
    if version == None {
      return [];
    }
    failures := OmittedFailures(inventory);
    hide Covered, TableSurfacesBefore, FunctionSurfacesBefore, SurfacesOf;
    if SurfacesOf(inventory, T) != TableSurfacesBefore(version.value) {
      failures := failures + [Failure("inventory of tables", Null, Wrong)];
    }
    if SurfacesOf(inventory, F) != FunctionSurfacesBefore() {
      failures := failures + [Failure("inventory of functions", Null, Wrong)];
    }
  }

  // ------------------------------------------------------------------ all together

  /** `pre_check_failures` */
  method PreCheckFailures(r: Reading, bodies: Bodies) returns (failures: seq<Failure>)
    ensures failures == [] <==> PrePasses(r, bodies)
    ensures NamesTheGate(failures) <==> AlreadyApplied(r)
    ensures AlreadyApplied(r) ==> |failures| == 1
  {
    if AlreadyApplied(r) {
      var gate := Failure("service_role", Null, NotAFirstApply);
      assert gate in [gate];
      return [gate];
    }
    hide AlreadyApplied, RolesReady, MembershipsReady, HoldBoth, SchemaGrantsReady, PoliciesReady, FunctionReady,
         TablesReady, ServiceRoleReady, InventoryReady;
    var server := ServerFailures(r.server);
    var roles := RoleSideFailures(r);
    var functions := FunctionSideFailures(r, bodies);
    var tables := TableSideFailures(r);
    failures := server + roles + functions + tables;
  }

  /** The roles, and all they hold. */
  method RoleSideFailures(r: Reading) returns (failures: seq<Failure>)
    ensures failures == [] <==>
      && RolesReady(r.roles, LOGIN_ROLES) && MembershipsReady(r.memberships, r.roles)
      && HoldBoth(r.grants, r.sequenceGrants, EXPECTED_GRANTS)
      && SchemaGrantsReady(r.schemaGrants) && PoliciesReady(r.policies, PoliciesOf(EXPECTED_GRANTS))
    ensures NoneIsTheGate(failures)
  {
    hide RolesReady, MembershipsReady, HoldBoth, SchemaGrantsReady, PoliciesReady;
    var roles := RolesFailures(r.roles, LOGIN_ROLES);
    var memberships := MembershipsFailures(r.memberships, r.roles);
    var grants := BothGrantsFailures(r.grants, r.sequenceGrants, EXPECTED_GRANTS);
    var rights := SchemaGrantsFailures(r.schemaGrants);
    var policies := PoliciesFailures(r.policies, PoliciesOf(EXPECTED_GRANTS));
    failures := roles + memberships + grants + rights + policies;
  }

  method FunctionSideFailures(r: Reading, bodies: Bodies) returns (failures: seq<Failure>)
    ensures failures == [] <==>
      && FunctionReady(r.function_, FunctionOwner.FUNCTION_ARGUMENTS, bodies.function_)
      && FunctionReady(r.forecast, FORECAST_ARGUMENTS, bodies.forecast)
      && SchemaRead(r.schema)
    ensures NoneIsTheGate(failures)
  {
    hide FunctionReady;
    var bundle := FunctionFailures("public.save_prediction_bundle", r.function_, FunctionOwner.FUNCTION_ARGUMENTS, bodies.function_);
    var forecast := FunctionFailures("public.save_forecast_bundle", r.forecast, FORECAST_ARGUMENTS, bodies.forecast);
    var schema := if SchemaRead(r.schema) then [] else [Failure("schema", Null, Unreadable)];
    failures := bundle + forecast + schema;
  }

  method TableSideFailures(r: Reading) returns (failures: seq<Failure>)
    ensures ServerVersion(r.server) != None ==> (failures == [] <==>
      && TablesReady(r.security, TABLES)
      && ServiceRoleReady(r.security, ServerVersion(r.server).value)
      && InventoryReady(r.inventory, ServerVersion(r.server).value))
    ensures NoneIsTheGate(failures)
  {
    hide TablesReady, ServiceRoleReady, InventoryReady;
    var version := ServerVersion(r.server);
    var security := TablesFailures(r.security, TABLES);
    var serviceRole := ServiceRoleFailures(r.security, version);
    var inventory := InventoryFailures(r.inventory, version);
    failures := security + serviceRole + inventory;
  }
}
