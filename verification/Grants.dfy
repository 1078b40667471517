/** The four least-privilege roles' grants, and the exact comparison of what they hold, as
    scripts/apply_migration_0016.py, 0017 and 0018 make it. */
module Grants {
  import opened Rows
  import opened Policies

  const WRITER := "ucpe_api_writer"
  const BUNDLE_OWNER := "ucpe_bundle_owner"
  const RESOLVER := "ucpe_resolver"
  const SPACE_DB := "ucpe_space_db"
  const NEW_ROLES: seq<string> := [WRITER, BUNDLE_OWNER, RESOLVER, SPACE_DB]

  const UPSERTED: seq<Privilege> := [INSERT, SELECT, UPDATE]
  const READ: seq<Privilege> := [SELECT]
  const APPENDED: seq<Privilege> := [INSERT, SELECT]

  const WRITER_GRANTS: RoleGrants := RoleGrants(WRITER, [
    TableGrant("analysis_run_details", UPSERTED),
    TableGrant("analysis_runs", UPSERTED),
    TableGrant("analysis_timeframe_results", [INSERT]),
    TableGrant("news_clusters", UPSERTED),
    TableGrant("news_evidence_links", UPSERTED),
    TableGrant("news_items", UPSERTED),
    TableGrant("predictions", READ),
    TableGrant("provider_observations", [INSERT]),
    TableGrant("watchlist", [DELETE, INSERT, SELECT, UPDATE])])
  const BUNDLE_GRANTS_0016: seq<TableGrant> := [
    TableGrant("prediction_derivatives_snapshots", APPENDED),
    TableGrant("prediction_feature_snapshots", APPENDED),
    TableGrant("predictions", APPENDED)]
  const ADDED_GRANTS: seq<TableGrant> := [
    TableGrant("analysis_run_details", APPENDED),
    TableGrant("analysis_runs", APPENDED)]
  const RESOLVER_GRANTS: RoleGrants := RoleGrants(RESOLVER, [
    TableGrant("prediction_outcomes", APPENDED),
    TableGrant("prediction_resolution_status", UPSERTED),
    TableGrant("predictions", READ)])
  const SPACE_DB_GRANTS: RoleGrants := RoleGrants(SPACE_DB, [
    TableGrant("automation_credential", READ),
    TableGrant("automation_radar_ledger", UPSERTED),
    TableGrant("prediction_outcomes", READ),
    TableGrant("predictions", READ)])

  const EXPECTED_GRANTS_0016: Policies.Grants :=
    [WRITER_GRANTS, RoleGrants(BUNDLE_OWNER, BUNDLE_GRANTS_0016), RESOLVER_GRANTS, SPACE_DB_GRANTS]
  const EXPECTED_GRANTS: Policies.Grants :=
    [WRITER_GRANTS, RoleGrants(BUNDLE_OWNER, BUNDLE_GRANTS_0016 + ADDED_GRANTS), RESOLVER_GRANTS, SPACE_DB_GRANTS]

  // ------------------------------------------------------------------ how many policies they call for

  function Commands(privileges: seq<Privilege>): nat {
    (if SELECT in privileges then 1 else 0) + (if INSERT in privileges then 1 else 0)
    + (if UPDATE in privileges then 1 else 0) + (if DELETE in privileges then 1 else 0)
  }

  function CommandsOn(ts: seq<TableGrant>): nat {
    if ts == [] then 0 else Commands(ts[0].privileges) + CommandsOn(ts[1..])
  }

  lemma CommandTriplesCount(role: string, t: TableGrant)
    ensures |CommandTriples(role, t, COMMANDS)| == Commands(t.privileges)
  {
    assert COMMANDS == [Select, Insert, Update, Delete];
    assert COMMANDS[..3] == [Select, Insert, Update];
    assert COMMANDS[..3][..2] == [Select, Insert];
    assert COMMANDS[..3][..2][..1] == [Select];
    assert [Select][..0] == [];
    assert |CommandTriples(role, t, [Select])| == if SELECT in t.privileges then 1 else 0;
    assert |CommandTriples(role, t, [Select, Insert])| == |CommandTriples(role, t, [Select])| + if INSERT in t.privileges then 1 else 0;
  }

  lemma {:induction false} CommandsOnSplit(a: seq<TableGrant>, b: seq<TableGrant>)
    ensures CommandsOn(a + b) == CommandsOn(a) + CommandsOn(b)
  {
    if a == [] {
      assert a + b == b;
    } else {
      assert (a + b)[1..] == a[1..] + b;
      CommandsOnSplit(a[1..], b);
    }
  }

  lemma {:induction false} TableTriplesCount(role: string, ts: seq<TableGrant>)
    ensures |TableTriples(role, ts)| == CommandsOn(ts)
  {
    if ts != [] {
      var n := |ts| - 1;
      TableTriplesCount(role, ts[..n]);
      CommandTriplesCount(role, ts[n]);
      CommandsOnSplit(ts[..n], [ts[n]]);
      assert ts == ts[..n] + [ts[n]];
      assert [ts[n]][1..] == [];
    }
  }

  lemma OneMoreRole(grants: Policies.Grants, last: RoleGrants)
    ensures |TriplesOf(grants + [last])| == |TriplesOf(grants)| + CommandsOn(last.tables)
  {
    assert (grants + [last])[..|grants|] == grants;
    TableTriplesCount(last.role, last.tables);
  }

  lemma FourRoles(a: RoleGrants, b: RoleGrants, c: RoleGrants, d: RoleGrants)
    ensures |TriplesOf([a, b, c, d])| == CommandsOn(a.tables) + CommandsOn(b.tables) + CommandsOn(c.tables) + CommandsOn(d.tables)
  {
    hide TriplesOf;
    OneMoreRole([], a);
    OneMoreRole([a], b);
    OneMoreRole([a, b], c);
    OneMoreRole([a, b, c], d);
    assert [] + [a] == [a] && [a] + [b] == [a, b] && [a, b] + [c] == [a, b, c] && [a, b, c] + [d] == [a, b, c, d];
    NoTriples();
  }

  lemma NoTriples()
    ensures TriplesOf([]) == []
  {
  }

  lemma CommandCounts()
    ensures Commands(UPSERTED) == 3 && Commands(READ) == 1 && Commands(APPENDED) == 2
    ensures Commands([INSERT]) == 1 && Commands([DELETE, INSERT, SELECT, UPDATE]) == 4
  {
    assert UPSERTED[0] == INSERT && UPSERTED[1] == SELECT && UPSERTED[2] == UPDATE;
    assert READ[0] == SELECT && APPENDED[0] == INSERT && APPENDED[1] == SELECT;
    var all := [DELETE, INSERT, SELECT, UPDATE];
    assert all[0] == DELETE && all[1] == INSERT && all[2] == SELECT && all[3] == UPDATE;
  }

  lemma {:induction false} CommandsFrom(ts: seq<TableGrant>, counts: seq<nat>)
    requires |counts| == |ts| && forall i :: 0 <= i < |ts| ==> Commands(ts[i].privileges) == counts[i]
    ensures CommandsOn(ts) == Total(counts)
  {
    if ts != [] {
      CommandsFrom(ts[1..], counts[1..]);
    }
  }

  function Total(counts: seq<nat>): nat {
    if counts == [] then 0 else counts[0] + Total(counts[1..])
  }

  lemma WriterCount()
    ensures CommandsOn(WRITER_GRANTS.tables) == 22
  {
    hide CommandsOn, Commands;
    CommandCounts();
    CommandsFrom(WRITER_GRANTS.tables, [3, 3, 1, 3, 3, 3, 1, 1, 4]);
  }

  lemma BundleCounts()
    ensures CommandsOn(BUNDLE_GRANTS_0016) == 6 && CommandsOn(BUNDLE_GRANTS_0016 + ADDED_GRANTS) == 10
  {
    hide CommandsOn, Commands;
    CommandCounts();
    CommandsFrom(BUNDLE_GRANTS_0016, [2, 2, 2]);
    CommandsFrom(ADDED_GRANTS, [2, 2]);
    CommandsOnSplit(BUNDLE_GRANTS_0016, ADDED_GRANTS);
  }

  lemma ReaderCounts()
    ensures CommandsOn(RESOLVER_GRANTS.tables) == 6 && CommandsOn(SPACE_DB_GRANTS.tables) == 6
  {
    hide CommandsOn, Commands;
    CommandCounts();
    CommandsFrom(RESOLVER_GRANTS.tables, [2, 3, 1]);
    CommandsFrom(SPACE_DB_GRANTS.tables, [1, 3, 1, 1]);
  }

  predicate WellNamed(names: seq<string>) {
    Distinct(names) && forall i :: 0 <= i < |names| ==> '/' !in names[i]
  }

  function Names(ts: seq<TableGrant>): seq<string> {
    seq(|ts|, i requires 0 <= i < |ts| => ts[i].table)
  }

  lemma WriterNames(n: seq<string>)
    requires n == ["analysis_run_details", "analysis_runs", "analysis_timeframe_results", "news_clusters",
                   "news_evidence_links", "news_items", "predictions", "provider_observations", "watchlist"]
    ensures WellNamed(n)
  {
  }

  lemma BundleNames(n: seq<string>)
    requires n == ["prediction_derivatives_snapshots", "prediction_feature_snapshots", "predictions",
                   "analysis_run_details", "analysis_runs"]
    ensures WellNamed(n) && WellNamed(n[..3])
  {
  }

  lemma ReaderNames(resolver: seq<string>, spaceDb: seq<string>)
    requires resolver == ["prediction_outcomes", "prediction_resolution_status", "predictions"]
    requires spaceDb == ["automation_credential", "automation_radar_ledger", "prediction_outcomes", "predictions"]
    ensures WellNamed(resolver) && WellNamed(spaceDb)
  {
  }

  lemma FourRolesWellFormed(grants: Policies.Grants)
    requires |grants| == 4 && Distinct([grants[0].role, grants[1].role, grants[2].role, grants[3].role])
    requires forall k :: 0 <= k < 4 ==> WellNamed(Names(grants[k].tables))
    ensures WellKeyed(grants) && SlashFree(grants)
  {
    var roles := [grants[0].role, grants[1].role, grants[2].role, grants[3].role];
    assert forall i :: 0 <= i < 4 ==> roles[i] == grants[i].role;
    forall g | g in grants
      ensures forall i, j :: 0 <= i < j < |g.tables| ==> g.tables[i].table != g.tables[j].table
      ensures forall t :: t in g.tables ==> '/' !in t.table
    {
      var names := Names(g.tables);
      assert forall i :: 0 <= i < |g.tables| ==> names[i] == g.tables[i].table;
    }
  }

  lemma WiderBundle(t: Triple)
    requires Granted(EXPECTED_GRANTS_0016, t)
    ensures Granted(EXPECTED_GRANTS, t)
  {
    var i :| 0 <= i < |EXPECTED_GRANTS_0016|
      && EXPECTED_GRANTS_0016[i].role == t.role && TablesCarry(EXPECTED_GRANTS_0016[i].tables, t);
    var ts := EXPECTED_GRANTS_0016[i].tables;
    var j :| 0 <= j < |ts| && ts[j].table == t.table && t.command.Privilege() in ts[j].privileges;
    assert EXPECTED_GRANTS[i].tables[j] == ts[j];
  }

  lemma ConstantsWellFormed()
    ensures WellKeyed(EXPECTED_GRANTS_0016) && SlashFree(EXPECTED_GRANTS_0016)
    ensures WellKeyed(EXPECTED_GRANTS) && SlashFree(EXPECTED_GRANTS)
    ensures Included(EXPECTED_GRANTS_0016, EXPECTED_GRANTS)
  {
    hide WellNamed;
    WriterNames(Names(WRITER_GRANTS.tables));
    BundleNames(Names(BUNDLE_GRANTS_0016 + ADDED_GRANTS));
    assert Names(BUNDLE_GRANTS_0016) == Names(BUNDLE_GRANTS_0016 + ADDED_GRANTS)[..3];
    ReaderNames(Names(RESOLVER_GRANTS.tables), Names(SPACE_DB_GRANTS.tables));
    FourRolesWellFormed(EXPECTED_GRANTS_0016);
    FourRolesWellFormed(EXPECTED_GRANTS);
    forall t | Granted(EXPECTED_GRANTS_0016, t) ensures Granted(EXPECTED_GRANTS, t) {
      WiderBundle(t);
    }
  }

  /** 0016 creates 40 policies and 0017 exactly 4 more, as their routes say. */
  lemma PolicyCounts()
    ensures |PoliciesOf(EXPECTED_GRANTS_0016)| == 40
    ensures |PoliciesOf(EXPECTED_GRANTS)| == 44
    ensures |Added(EXPECTED_GRANTS_0016, EXPECTED_GRANTS)| == 4
  {
    ConstantsWellFormed();
    WriterCount();
    BundleCounts();
    ReaderCounts();
    FourRoles(WRITER_GRANTS, RoleGrants(BUNDLE_OWNER, BUNDLE_GRANTS_0016), RESOLVER_GRANTS, SPACE_DB_GRANTS);
    FourRoles(WRITER_GRANTS, RoleGrants(BUNDLE_OWNER, BUNDLE_GRANTS_0016 + ADDED_GRANTS), RESOLVER_GRANTS, SPACE_DB_GRANTS);
    OnePolicyPerGrantedCommand(EXPECTED_GRANTS_0016);
    OnePolicyPerGrantedCommand(EXPECTED_GRANTS);
    AddedExactly(EXPECTED_GRANTS_0016, EXPECTED_GRANTS);
  }
}
