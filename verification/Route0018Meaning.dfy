/** What 0018 finds in place before and after, surface by surface and table by table. */
module Route0018Meaning {
  import opened Options
  import opened Rows
  import opened Route0018
  import opened Route0018Ready

  // ------------------------------------------------------------------ already applied

  /** The row read last of a core table grants service_role SELECT only. */
  ghost predicate NarrowedTable(rows: seq<Security>, table: string) {
    exists i :: IsLast(rows, TableOfRow, table, i) && rows[i].serviceRole == [SELECT]
  }

  lemma HoldsMeans(rows: seq<Security>, table: string)
    ensures ServiceHolds(rows, table) == Some([SELECT]) <==> NarrowedTable(rows, table)
  {
    KeysOf(rows, TableOfRow, table);
    if table in ByKey(rows, TableOfRow) {
      LastWins(rows, TableOfRow, table);
    }
    hide ByKey;
  }

  /** Nothing is left to apply: two functions without service_role's entry, no write surface, and the six
      tables narrowed. */
  lemma AppliedMeans(r: Reading)
    ensures AlreadyApplied(r) <==>
      && NarrowedTable(r.security, "analysis_run_details") && NarrowedTable(r.security, "analysis_runs")
      && NarrowedTable(r.security, "prediction_derivatives_snapshots")
      && NarrowedTable(r.security, "prediction_feature_snapshots")
      && NarrowedTable(r.security, "prediction_outcomes") && NarrowedTable(r.security, "predictions")
      && |r.function_| + |r.forecast| == 2
      && (forall row :: row in r.function_ || row in r.forecast ==>
            row.acl.Some? && forall entry :: entry in row.acl.value ==> entry != "service_role=EXECUTE")
      && r.inventory == []
  {
    hide ServiceHolds, NarrowedTable;
    forall table ensures ServiceHolds(r.security, table) == Some([SELECT]) <==> NarrowedTable(r.security, table) {
      HoldsMeans(r.security, table);
    }
    SixTables(CORE_TABLES);
    assert SERVICE_ROLE_KEPT == [SELECT];
    assert forall row :: row in r.function_ + r.forecast <==> row in r.function_ || row in r.forecast;
    EveryCore(CORE_TABLES, r.security);
    hide CORE_TABLES;
  }

  lemma SixTables(names: seq<string>)
    requires names == CORE_TABLES
    ensures |names| == 6 && names[0] == "analysis_run_details" && names[1] == "analysis_runs"
    ensures names[2] == "prediction_derivatives_snapshots" && names[3] == "prediction_feature_snapshots"
    ensures names[4] == "prediction_outcomes" && names[5] == "predictions"
  {
  }

  lemma EveryCore(names: seq<string>, rows: seq<Security>)
    requires |names| == 6
    ensures (forall table :: table in names ==> NarrowedTable(rows, table)) <==>
      && NarrowedTable(rows, names[0]) && NarrowedTable(rows, names[1]) && NarrowedTable(rows, names[2])
      && NarrowedTable(rows, names[3]) && NarrowedTable(rows, names[4]) && NarrowedTable(rows, names[5])
  {
    hide NarrowedTable;
    assert forall table :: table in names <==>
      table == names[0] || table == names[1] || table == names[2] || table == names[3] || table == names[4] || table == names[5];
  }

  // ------------------------------------------------------------------ the write surfaces

  /** The tables whose rows service_role changed freely. */
  predicate Free(table: string) {
    || table == "analysis_runs" || table == "prediction_feature_snapshots"
    || table == "prediction_outcomes" || table == "predictions"
  }

  /** What service_role holds on a core table, before 0018, beyond SELECT. */
  predicate WriteHeld(version: int, table: string, p: Privilege) {
    || (table == "analysis_run_details" && (p == INSERT || p == UPDATE))
    || (table == "prediction_derivatives_snapshots" && p == INSERT)
    || (Free(table) && (p == DELETE || p == INSERT || p == REFERENCES || p == TRIGGER || p == TRUNCATE || p == UPDATE))
    || (Free(table) && p == MAINTAIN && version >= 170000)
  }

  predicate Spelled(p: Privilege, word: string) {
    match p
    case DELETE => word == "DELETE" case INSERT => word == "INSERT" case MAINTAIN => word == "MAINTAIN"
    case REFERENCES => word == "REFERENCES" case TRIGGER => word == "TRIGGER" case TRUNCATE => word == "TRUNCATE"
    case UPDATE => word == "UPDATE" case _ => false
  }

  lemma HeldBefore(version: int, table: string, p: Privilege)
    requires table in CORE_TABLES
    ensures p in ServiceRoleBefore(version, table) && p != SELECT <==> WriteHeld(version, table, p)
  {
    SixTables(CORE_TABLES);
    OneOfSix(CORE_TABLES, table);
    hide CORE_TABLES;
    if Free(table) {
      FreeHeld(version, table, p);
    } else if table == "analysis_run_details" {
      DetailsHeld(version, table, p);
    } else {
      SnapshotsHeld(version, table, p);
    }
  }

  lemma HeldByName(version: int, table: string)
    requires Free(table)
    ensures ServiceRoleBefore(version, table) ==
      if version >= 170000 then [DELETE, INSERT, MAINTAIN, REFERENCES, SELECT, TRIGGER, TRUNCATE, UPDATE]
      else [DELETE, INSERT, REFERENCES, SELECT, TRIGGER, TRUNCATE, UPDATE]
    ensures table != "analysis_run_details" && table != "prediction_derivatives_snapshots"
  {
    assert |table| != |"analysis_run_details"| && |table| != |"prediction_derivatives_snapshots"|;
    hide Free;
  }

  lemma FreeHeld(version: int, table: string, p: Privilege)
    requires Free(table)
    ensures p in ServiceRoleBefore(version, table) && p != SELECT <==> WriteHeld(version, table, p)
  {
    HeldByName(version, table);
    hide Free, ServiceRoleBefore;
    InEither(version >= 170000, p);
  }

  lemma InEither(late: bool, p: Privilege)
    ensures p in (if late then [DELETE, INSERT, MAINTAIN, REFERENCES, SELECT, TRIGGER, TRUNCATE, UPDATE]
                  else [DELETE, INSERT, REFERENCES, SELECT, TRIGGER, TRUNCATE, UPDATE]) <==>
      (late && p == MAINTAIN) || p == DELETE || p == INSERT || p == REFERENCES || p == SELECT || p == TRIGGER || p == TRUNCATE || p == UPDATE
  {
  }

  lemma DetailsHeld(version: int, table: string, p: Privilege)
    requires table == "analysis_run_details"
    ensures p in ServiceRoleBefore(version, table) && p != SELECT <==> WriteHeld(version, table, p)
  {
    assert !Free(table) by {
      assert |table| == 20;
    }
    hide Free;
  }

  lemma SnapshotsHeld(version: int, table: string, p: Privilege)
    requires table == "prediction_derivatives_snapshots"
    ensures p in ServiceRoleBefore(version, table) && p != SELECT <==> WriteHeld(version, table, p)
  {
    assert !Free(table) && table != "analysis_run_details" by {
      assert |table| == 32;
    }
    hide Free;
  }

  lemma OneOfSix(names: seq<string>, table: string)
    requires |names| == 6 && table in names
    ensures table == names[0] || table == names[1] || table == names[2] || table == names[3] || table == names[4] || table == names[5]
  {
  }

  lemma OnlyCoreHeld(version: int, table: string, p: Privilege)
    requires WriteHeld(version, table, p)
    ensures table in CORE_TABLES
  {
    SixTables(CORE_TABLES);
    var names := CORE_TABLES;
    assert names[0] in names && names[1] in names && names[2] in names && names[3] in names && names[4] in names && names[5] in names;
    hide CORE_TABLES;
  }

  /** A table surface of the revoke set. */
  ghost predicate TableSurface(version: int, table: string, word: string) {
    exists p :: WriteHeld(version, table, p) && Spelled(p, word)
  }

  lemma TableSurfacesMean(version: int, table: string, word: string)
    ensures (table, word) in TableSurfacesBefore(version) <==> TableSurface(version, table, word)
  {
    assert SERVICE_ROLE_KEPT == [SELECT];
    if table in CORE_TABLES {
      forall p: Privilege ensures p in ServiceRoleBefore(version, table) && p != SELECT <==> WriteHeld(version, table, p) {
        HeldBefore(version, table, p);
      }
    }
    forall p: Privilege | WriteHeld(version, table, p) ensures table in CORE_TABLES && (Spelled(p, word) <==> Route0018.Text(p) == word) {
      OnlyCoreHeld(version, table, p);
    }
    hide CORE_TABLES, WriteHeld, Spelled, ServiceRoleBefore, Route0018.Text;
  }

  function Times(word: string, n: nat): string {
    if n == 0 then "" else word + Times(word, n - 1)
  }

  /** "public." and a function of `n` jsonb arguments. */
  function PublicFunction(name: string, n: nat): string
    requires n > 0
  {
    "public." + (name + "(jsonb" + (Times(", jsonb", n - 1) + ")"))
  }

  /** The two functions, as the inventory names them, owned by the bundle's owner. */
  predicate FunctionSurface(object_: string, owner: string) {
    && owner == "ucpe_bundle_owner"
    && (object_ == PublicFunction("save_prediction_bundle", 3) || object_ == PublicFunction("save_forecast_bundle", 5))
  }

  lemma {:induction false} MoreIsTimes(n: nat)
    ensures More(n, ", ") == Times(", jsonb", n) + ")"
  {
    if n > 0 {
      MoreIsTimes(n - 1);
      OneMoreTime(Times(", jsonb", n - 1));
    }
  }

  lemma OneMoreTime(rest: string)
    ensures ", " + "jsonb" + (rest + ")") == ", jsonb" + rest + ")"
  {
    assert ", " + "jsonb" == ", jsonb";
  }

  lemma SignatureIs(name: string, n: nat)
    requires n > 0
    ensures "public." + Signature(name, n, ", ") == PublicFunction(name, n)
  {
    MoreIsTimes(n - 1);
    hide More, Times;
  }

  lemma FunctionSurfacesMean(object_: string, owner: string)
    ensures (object_, owner) in FunctionSurfacesBefore() <==> FunctionSurface(object_, owner)
  {
    hide Signature, PublicFunction;
    SignatureIs(BUNDLE, 3);
    SignatureIs(FORECAST, 5);
  }

  lemma Listed(inventory: seq<Surface>, kind: InventoryKind, object_: string, detail: string)
    ensures (object_, detail) in SurfacesOf(inventory, kind) <==> Surface(kind, object_, detail) in inventory
  {
  }

  ghost predicate TablesFound(inventory: seq<Surface>, version: int) {
    forall table, word :: Surface(T, table, word) in inventory <==> TableSurface(version, table, word)
  }

  ghost predicate FunctionsFound(inventory: seq<Surface>) {
    forall object_, owner :: Surface(F, object_, owner) in inventory <==> FunctionSurface(object_, owner)
  }

  lemma TablesFoundMeans(inventory: seq<Surface>, version: int)
    ensures SurfacesOf(inventory, T) == TableSurfacesBefore(version) <==> TablesFound(inventory, version)
  {
    forall table, word ensures (table, word) in TableSurfacesBefore(version) <==> TableSurface(version, table, word) {
      TableSurfacesMean(version, table, word);
    }
    forall table, word ensures (table, word) in SurfacesOf(inventory, T) <==> Surface(T, table, word) in inventory {
      Listed(inventory, T, table, word);
    }
    hide TableSurfacesBefore, SurfacesOf, TableSurface;
    SamePairs(SurfacesOf(inventory, T), TableSurfacesBefore(version));
  }

  lemma FunctionsFoundMeans(inventory: seq<Surface>)
    ensures SurfacesOf(inventory, F) == FunctionSurfacesBefore() <==> FunctionsFound(inventory)
  {
    forall object_, owner ensures (object_, owner) in FunctionSurfacesBefore() <==> FunctionSurface(object_, owner) {
      FunctionSurfacesMean(object_, owner);
    }
    forall object_, owner ensures (object_, owner) in SurfacesOf(inventory, F) <==> Surface(F, object_, owner) in inventory {
      Listed(inventory, F, object_, owner);
    }
    hide FunctionSurfacesBefore, SurfacesOf, FunctionSurface;
    SamePairs(SurfacesOf(inventory, F), FunctionSurfacesBefore());
  }

  /** MAIN: a first apply finds just these write surfaces: on the core tables what service_role held beyond
      SELECT, and grants on their columns; the two functions of the bundle's owner; and no other. */
  lemma InventoryMeans(inventory: seq<Surface>, version: int)
    ensures InventoryReady(inventory, version) <==>
      && (forall s :: s in inventory ==> s.kind.T? || s.kind.F? || (s.kind.C? && s.object_ in CORE_TABLES))
      && TablesFound(inventory, version) && FunctionsFound(inventory)
  {
    TablesFoundMeans(inventory, version);
    FunctionsFoundMeans(inventory);
    forall s | s in inventory ensures Covered(s) ==> s.kind.T? || s.kind.F? || (s.kind.C? && s.object_ in CORE_TABLES) {
      CoveredKinds(s);
    }
    if TablesFound(inventory, version) && FunctionsFound(inventory) {
      forall s | s in inventory && (s.kind.T? || s.kind.F? || (s.kind.C? && s.object_ in CORE_TABLES)) ensures Covered(s) {
        assert s == Surface(s.kind, s.object_, s.detail);
        SurfaceCovered(s, version);
      }
    }
    hide TableSurfacesBefore, FunctionSurfacesBefore, SurfacesOf, TablesFound, FunctionsFound, Covered;
  }

  lemma SamePairs(a: set<(string, string)>, b: set<(string, string)>)
    ensures a == b <==> forall x, y :: (x, y) in a <==> (x, y) in b
  {
    if forall x, y :: (x, y) in a <==> (x, y) in b {
      assert forall p :: p in a <==> (p.0, p.1) in a;
      forall p ensures p in a <==> p in b {
        assert p == (p.0, p.1);
      }
    }
  }

  lemma CoveredKinds(s: Surface)
    ensures Covered(s) ==> s.kind.T? || s.kind.F? || (s.kind.C? && s.object_ in CORE_TABLES)
  {
    hide Unspaced, CORE_TABLES, BUNDLE_FUNCTIONS;
  }

  lemma SurfaceCovered(s: Surface, version: int)
    requires s.kind.C? ==> s.object_ in CORE_TABLES
    requires s.kind.T? ==> TableSurface(version, s.object_, s.detail)
    requires s.kind.F? ==> FunctionSurface(s.object_, s.detail)
    requires s.kind.T? || s.kind.F? || s.kind.C?
    ensures Covered(s)
  {
    if s.kind.T? {
      var p :| WriteHeld(version, s.object_, p) && Spelled(p, s.detail);
      OnlyCoreHeld(version, s.object_, p);
    }
    if s.kind.F? {
      FunctionSurfacesMean(s.object_, s.detail);
      BothAreCovered(BUNDLE, FORECAST);
      hide FunctionSurfacesBefore, FunctionSurface, Covered;
      assert s in Surfaces(F, FunctionSurfacesBefore()) by {
        assert (s.object_, s.detail) in FunctionSurfacesBefore();
      }
    }
    hide Unspaced, CORE_TABLES, BUNDLE_FUNCTIONS, WriteHeld, FunctionSurface;
  }
}
