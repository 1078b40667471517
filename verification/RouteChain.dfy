/** One route after another: what 0016 leaves and what 0017 requires, what 0017 leaves and what 0018
    requires. */
module RouteChain {
  import opened Rows
  import opened Additions
  import opened Policies
  import opened Grants
  import opened RoleChecks
  import opened CommonChecks
  import FunctionOwner
  import Route0016
  import Route0017
  import Route0018

  // ------------------------------------------------------------------ 0017, then 0018

  /** What 0018 reads of the same database, with its inventory of write surfaces. */
  function ReadBy0018(r: Route0017.Reading, inventory: seq<Route0018.Surface>): Route0018.Reading {
    Route0018.Reading(r.server, r.roles, r.memberships, r.grants, r.sequenceGrants, r.schema, r.schemaGrants, r.policies,
                      r.function_, r.forecast, r.otherFunctions, r.security, r.fingerprint, r.eventTriggers, inventory)
  }

  /** Dropping rows of other keys changes nothing that is looked up. */
  lemma {:induction false} LookedUpAmongKept<T>(rows: seq<T>, key: T -> string, names: set<string>, k: string)
    requires k !in names
    ensures k in ByKey(KeptRows(rows, key, names), key) <==> k in ByKey(rows, key)
    ensures k in ByKey(rows, key) ==> ByKey(KeptRows(rows, key, names), key)[k] == ByKey(rows, key)[k]
  {
    if rows != [] {
      var n := |rows| - 1;
      var kept := KeptRows(rows[..n], key, names);
      LookedUpAmongKept(rows[..n], key, names, k);
      assert (kept + [rows[n]])[..|kept|] == kept;
      assert kept + [] == kept;
    }
  }

  lemma WiderPolicy(item: string)
    requires item in PoliciesOf(EXPECTED_GRANTS)
    ensures item in Route0017.ADDED ==> Route0017.ADDED[item] == PoliciesOf(EXPECTED_GRANTS)[item]
    ensures item !in Route0017.ADDED ==> item in POLICIES_0016 && POLICIES_0016[item] == PoliciesOf(EXPECTED_GRANTS)[item]
  {
    ConstantsWellFormed();
    KeptPolicies(EXPECTED_GRANTS_0016, EXPECTED_GRANTS);
    hide PoliciesOf;
  }

  lemma PoliciesAreWider(pre: seq<PolicyRow>, post: seq<PolicyRow>)
    requires PoliciesReady(pre, POLICIES_0016) && PoliciesGrownBy(pre, post, Route0017.ADDED)
    ensures PoliciesReady(post, PoliciesOf(EXPECTED_GRANTS))
  {
    hide ByKey, KeptRows, PoliciesOf, POLICIES_0016, Route0017.ADDED;
    forall item | item in PoliciesOf(EXPECTED_GRANTS)
      ensures item in ByKey(post, ItemOf) && ByKey(post, ItemOf)[item].policy == PoliciesOf(EXPECTED_GRANTS)[item]
    {
      WiderPolicy(item);
      if item !in Route0017.ADDED {
        LookedUpAmongKept(post, ItemOf, Route0017.ADDED.Keys, item);
      }
    }
  }

  lemma LoginIsAllowed(rows: seq<RoleRow>, loginRoles: seq<string>)
    requires RolesReady(rows, [])
    ensures RolesReady(rows, loginRoles)
  {
    hide ByKey, Applying;
    forall role | role in NEW_ROLES ensures RoleReady(ByKey(rows, RoleOf), role, loginRoles) {
      assert RoleReady(ByKey(rows, RoleOf), role, []);
    }
  }

  lemma ServiceRoleStillExecutes(rows: seq<FunctionRow>, arguments: string, source: string)
    requires FunctionReady(rows, arguments, source)
    ensures Route0018.SERVICE_EXECUTE in EntriesOf(rows[0].acl)
  {
    hide Grantee;
    assert EXECUTORS[2] == "service_role";
    assert "service_role" + "=EXECUTE" == Route0018.SERVICE_EXECUTE;
  }

  lemma NotYetNarrowed(r: Route0018.Reading, arguments: string, source: string)
    requires FunctionReady(r.forecast, arguments, source)
    ensures !Route0018.AlreadyApplied(r)
  {
    ServiceRoleStillExecutes(r.forecast, arguments, source);
    hide FunctionReady, Route0018.OnlySelectOnCore;
    assert r.forecast[0] in r.function_ + r.forecast;
  }

  /** MAIN: what 0017 leaves is, to 0018, ready for a first apply in everything 0017 has a say in: 0018
      goes on if and only if service_role holds what it held and the write surfaces are the known ones. */
  lemma After0017(pre: Route0017.Reading, post: Route0017.Reading, bodies: Route0017.Bodies, inventory: seq<Route0018.Surface>)
    requires Route0017.PrePasses(pre, bodies) && Route0017.PostPasses(pre, post, bodies)
    ensures var version := ServerVersion(post.server);
      && version.Some?
      && (Route0018.PrePasses(ReadBy0018(post, inventory), Route0018.Bodies(bodies.function_, bodies.forecast)) <==>
            Route0018.ServiceRoleReady(post.security, version.value) && Route0018.InventoryReady(inventory, version.value))
  {
    hide RolesReady, MembershipsReady, HoldBoth, SchemaGrantsReady, PoliciesReady, FunctionReady, TablesReady, Route0018.AlreadyApplied,
         Route0018.ServiceRoleReady, Route0018.InventoryReady, PoliciesGrownBy, CountsGrownBy, SomePolicyExists, Route0017.Explained;
    PoliciesAreWider(pre.policies, post.policies);
    LoginIsAllowed(post.roles, Route0018.LOGIN_ROLES);
    NotYetNarrowed(ReadBy0018(post, inventory), FORECAST_ARGUMENTS, bodies.forecast);
    TablesStayReady(pre.security, post.security, Route0017.ADDED.Keys);
  }

  // ------------------------------------------------------------------ 0016, then 0017

  function ReadBy0017(r: Route0016.Reading, forecast: seq<FunctionRow>): Route0017.Reading {
    Route0017.Reading(r.server, r.roles, r.memberships, r.grants, r.sequenceGrants, r.schema, r.schemaGrants, r.policies,
                      r.function_, forecast, r.otherFunctions, r.security, r.fingerprint, r.eventTriggers)
  }

  lemma {:induction false} WriterMembershipsAre(rows: seq<Membership>, row: Membership)
    ensures row in WriterMemberships(rows) <==> row in rows && row.role == WRITER && row.member == AUTHENTICATOR
  {
    if rows != [] {
      var n := |rows| - 1;
      WriterMembershipsAre(rows[..n], row);
      assert rows == rows[..n] + [rows[n]];
    }
  }

  lemma {:induction false} ApplyingAre(rows: seq<RoleRow>, row: RoleRow)
    ensures row in Applying(rows) <==> row in rows && row.isApplyingRole
  {
    if rows != [] {
      var n := |rows| - 1;
      ApplyingAre(rows[..n], row);
      var before, last := Applying(rows[..n]), if rows[n].isApplyingRole then [rows[n]] else [];
      assert Applying(rows) == before + last;
      hide Applying;
      assert row in before + last <==> row in before || row in last;
      assert row in rows <==> row in rows[..n] || row == rows[n] by {
        assert rows == rows[..n] + [rows[n]];
      }
    }
  }

  lemma TheApplier(rows: seq<RoleRow>)
    requires |Applying(rows)| == 1
    ensures Route0016.ApplyingSuperuser(rows) <==> Applying(rows)[0].superuser
  {
    var applier := Applying(rows)[0];
    ApplyingAre(rows, applier);
    assert applier in Applying(rows);
    if row :| row in rows && row.isApplyingRole && row.superuser {
      ApplyingAre(rows, row);
    }
    hide Applying;
  }

  /** The writer's membership that 0016 grants is the one 0017 looks for, if there is no other; and a
      creator who is no superuser holds ADMIN on the bundle owner. */
  lemma MembershipsAfter0016(pre: seq<Membership>, post: seq<Membership>, roles: seq<RoleRow>)
    requires |Applying(roles)| == 1
    requires MembershipsAsReviewed(pre, post, Route0016.ApplyingRole(roles), Route0016.ApplyingSuperuser(roles))
    ensures MembershipsReady(post, roles) <==> |WriterMemberships(post)| == 1
  {
    TheApplier(roles);
    var applier := Applying(roles)[0];
    hide Applying, Route0016.ApplyingSuperuser, WriterMemberships;
    var w :| w in WriterRows(applier.superuser)
      && AsSet(post) - AsSet(pre) == {w} + if applier.superuser then {} else CreatorRows(applier.role);
    assert w in AsSet(post);
    WriterMembershipsAre(post, w);
    if !applier.superuser {
      var admin := Membership(BUNDLE_OWNER, applier.role, false, true, false, false);
      assert NEW_ROLES[1] == BUNDLE_OWNER;
      assert admin in CreatorRows(applier.role);
      assert admin in AsSet(post);
    }
  }

  const BARRED: seq<string> := [RESOLVER, SPACE_DB]

  lemma OwnersAreNotBarred(entry: string)
    requires entry == BUNDLE_OWNER + "=EXECUTE" || entry == WRITER + "=EXECUTE"
    ensures !GivenTo(entry, NEVER_EXECUTE) && !GivenTo(entry, BARRED) && !GivenTo(entry, Route0016.API_GRANTEES)
  {
    hide GivenTo;
    ExecutorIsNeverBarred(BUNDLE_OWNER);
    ExecutorIsNeverBarred(WRITER);
    BarredParts(entry);
  }

  /** Who must never execute: the API's grantees, whom 0016 looks for, and two roles it creates. */
  lemma BarredParts(entry: string)
    ensures GivenTo(entry, NEVER_EXECUTE) <==> GivenTo(entry, Route0016.API_GRANTEES) || GivenTo(entry, BARRED)
  {
    hide Grantee;
    assert NEVER_EXECUTE == Route0016.API_GRANTEES + BARRED;
  }

  lemma ExecuteAfter0016(pre: seq<FunctionRow>, post: FunctionRow, source: string)
    requires Route0016.FunctionBefore(pre, source) && FunctionOwner.Handed(pre, post, source)
    ensures ExecuteReady(post.acl) <==>
      "service_role=EXECUTE" in EntriesOf(post.acl) && forall entry :: entry in EntriesOf(post.acl) ==> !GivenTo(entry, BARRED)
  {
    hide Grantee, FunctionOwner.Sorted, GivenTo;
    var entries := post.acl.value;
    forall entry | entry in entries ensures GivenTo(entry, NEVER_EXECUTE) <==> GivenTo(entry, BARRED) {
      assert entry in FunctionOwner.Members(entries);
      BarredParts(entry);
      if entry == BUNDLE_OWNER + "=EXECUTE" || entry == WRITER + "=EXECUTE" {
        OwnersAreNotBarred(entry);
      } else {
        assert entry in EntriesOf(pre[0].acl);
      }
    }
    assert BUNDLE_OWNER + "=EXECUTE" in FunctionOwner.Members(entries) && WRITER + "=EXECUTE" in FunctionOwner.Members(entries);
    ExecutorsAre(entries);
  }

  lemma ExecutorsAre(entries: seq<string>)
    requires BUNDLE_OWNER + "=EXECUTE" in entries && WRITER + "=EXECUTE" in entries
    ensures (forall grantee :: grantee in EXECUTORS ==> grantee + "=EXECUTE" in entries) <==> "service_role=EXECUTE" in entries
  {
    assert EXECUTORS[2] == "service_role";
    assert "service_role" + "=EXECUTE" == "service_role=EXECUTE";
  }

  /** MAIN: what 0016 leaves is, to 0017, ready for a first apply in everything 0016 has a say in: 0017
      goes on if and only if nothing of it is there, no new role is read as the applying one, the writer
      has the one membership, and of the function's other grantees service_role is one and neither of
      the two barred roles is. */
  lemma After0016(pre: Route0016.Reading, post: Route0016.Reading, bodies: Route0017.Bodies, forecast: seq<FunctionRow>)
    requires Route0016.PrePasses(pre, bodies.function_) && Route0016.PostPasses(pre, post, bodies.function_)
    ensures Route0017.PrePasses(ReadBy0017(post, forecast), bodies) <==>
      && forecast == [] && !SomePolicyExists(post.policies, Route0017.ADDED)
      && Route0016.NoNewRoleApplies(post.roles)
      && |WriterMemberships(post.memberships)| == 1
      && "service_role=EXECUTE" in EntriesOf(post.function_[0].acl)
      && forall entry :: entry in EntriesOf(post.function_[0].acl) ==> !GivenTo(entry, BARRED)
  {
    hide Route0016.OtherRoles, FourRolesReady, MembershipsAsReviewed, HoldBoth, SchemaGrantsReady, PoliciesGrownBy, CountsGrownBy,
         TablesReady, Route0016.SomeRoleExists, SomePolicyExists, ExecuteReady, GivenTo, MembershipsReady, Applying, ByKey, PoliciesReady,
         Route0016.NoNewRoleApplies;
    Route0016.OldRolesKept(pre.roles, post.roles);
    MembershipsAfter0016(pre.memberships, post.memberships, pre.roles);
    if Route0016.NoNewRoleApplies(post.roles) {
      SameApplier(post.memberships, pre.roles, post.roles);
    }
    ExecuteAfter0016(pre.function_, post.function_[0], bodies.function_);
    TablesStayReady(pre.security, post.security, POLICIES_0016.Keys);
    PoliciesOf0016(pre.policies, post.policies);
  }

  lemma SameApplier(rows: seq<Membership>, before: seq<RoleRow>, after: seq<RoleRow>)
    requires Applying(before) == Applying(after)
    ensures MembershipsReady(rows, before) <==> MembershipsReady(rows, after)
  {
  }

  lemma PoliciesOf0016(pre: seq<PolicyRow>, post: seq<PolicyRow>)
    requires PoliciesGrownBy(pre, post, POLICIES_0016)
    ensures PoliciesReady(post, POLICIES_0016)
  {
  }
}
