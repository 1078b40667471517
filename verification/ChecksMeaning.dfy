/** What the lookups and lists of CommonChecks.dfy, RoleChecks.dfy and FunctionOwner.dfy find. */
module ChecksMeaning {
  import opened Options
  import opened Filters
  import opened Rows
  import opened Policies
  import opened Grants
  import opened RoleChecks
  import opened CommonChecks
  import opened FunctionOwner

  // ------------------------------------------------------------------ lists kept in order

  function IsApplying(): RoleRow -> bool {
    (row: RoleRow) => row.isApplyingRole
  }

  function OfTheWriter(): Membership -> bool {
    (row: Membership) => row.role == "ucpe_api_writer" && row.member == "authenticator"
  }

  function GivenToAny(grantees: seq<string>): string -> bool {
    (entry: string) => exists name :: name in grantees && Names(entry, name)
  }

  /** The entry gives something to the name: `name`=... or the name alone. */
  predicate Names(entry: string, name: string) {
    && '=' !in name
    && (entry == name || (|name| < |entry| && entry[..|name|] == name && entry[|name|] == '='))
  }

  lemma {:induction false} ApplyingIsFiltered(rows: seq<RoleRow>)
    ensures Filtered(rows, Applying(rows), IsApplying())
  {
    hide Filtered;
    if rows == [] {
      NothingFiltered(IsApplying());
    } else {
      var before, last := rows[..|rows| - 1], rows[|rows| - 1];
      ApplyingIsFiltered(before);
      var kept := Applying(before);
      assert Applying(rows) == if IsApplying()(last) then kept + [last] else kept;
      hide Applying;
      OneMoreFiltered(before, kept, IsApplying(), last);
      assert rows == before + [last];
    }
  }

  lemma {:induction false} WriterIsFiltered(rows: seq<Membership>)
    ensures Filtered(rows, WriterMemberships(rows), OfTheWriter())
  {
    hide Filtered;
    if rows == [] {
      NothingFiltered(OfTheWriter());
    } else {
      var before, last := rows[..|rows| - 1], rows[|rows| - 1];
      WriterIsFiltered(before);
      var kept := WriterMemberships(before);
      assert WriterMemberships(rows) == if OfTheWriter()(last) then kept + [last] else kept;
      hide WriterMemberships;
      OneMoreFiltered(before, kept, OfTheWriter(), last);
      assert rows == before + [last];
    }
  }

  lemma {:induction false} GranteeMeans(entry: string, name: string)
    ensures Grantee(entry) == name <==> Names(entry, name)
  {
    if entry != [] && entry[0] != '=' {
      if name != [] && name[0] == entry[0] {
        GranteeMeans(entry[1..], name[1..]);
        assert name == [name[0]] + name[1..] && entry == [entry[0]] + entry[1..];
        hide Grantee;
        assert |name| < |entry| ==> entry[..|name|] == [entry[0]] + entry[1..][..|name| - 1];
      }
    }
  }

  lemma {:induction false} EntriesAreFiltered(entries: seq<string>, grantees: seq<string>)
    ensures Filtered(entries, EntriesFor(entries, grantees), GivenToAny(grantees))
  {
    hide Filtered, Grantee, Names;
    if entries == [] {
      NothingFiltered(GivenToAny(grantees));
    } else {
      var before, last := entries[..|entries| - 1], entries[|entries| - 1];
      EntriesAreFiltered(before, grantees);
      var kept := EntriesFor(before, grantees);
      forall name ensures Grantee(last) == name <==> Names(last, name) {
        GranteeMeans(last, name);
      }
      assert EntriesFor(entries, grantees) == if GivenToAny(grantees)(last) then kept + [last] else kept;
      hide EntriesFor;
      OneMoreFiltered(before, kept, GivenToAny(grantees), last);
      assert entries == before + [last];
    }
  }

  // ------------------------------------------------------------------ lookups

  /** The privileges the reviewed lists give the role on the object, if they name it. */
  lemma {:induction false} WantedIsListed(expected: Policies.Grants, g: RoleGrants, t: TableGrant)
    requires WellKeyed(expected) && g in expected && t in g.tables
    ensures Wanted(expected, g.role, t.table) == t.privileges
  {
    if expected[0] == g {
      TableWantedIsListed(g.tables, t);
    } else {
      var i :| 0 <= i < |expected| && expected[i] == g;
      assert expected[0].role != g.role;
      assert forall j, k :: 0 <= j < k < |expected[1..]| ==> expected[1..][j] == expected[j + 1] && expected[1..][k] == expected[k + 1];
      assert expected[1..][i - 1] == g;
      WantedIsListed(expected[1..], g, t);
    }
  }

  lemma {:induction false} TableWantedIsListed(ts: seq<TableGrant>, t: TableGrant)
    requires t in ts && forall i, j :: 0 <= i < j < |ts| ==> ts[i].table != ts[j].table
    ensures TableWanted(ts, t.table) == t.privileges
  {
    if ts[0] != t {
      var i :| 0 <= i < |ts| && ts[i] == t;
      assert ts[1..][i - 1] == t;
      TableWantedIsListed(ts[1..], t);
    }
  }

  lemma {:induction false} NothingWanted(expected: Policies.Grants, role: string, name: string)
    requires forall g :: g in expected && g.role == role ==> forall t :: t in g.tables ==> t.table != name
    ensures Wanted(expected, role, name) == []
  {
    if expected != [] {
      if expected[0].role == role {
        NoTableWanted(expected[0].tables, name);
      } else {
        NothingWanted(expected[1..], role, name);
      }
    }
  }

  lemma {:induction false} NoTableWanted(ts: seq<TableGrant>, name: string)
    requires forall t :: t in ts ==> t.table != name
    ensures TableWanted(ts, name) == []
  {
    if ts != [] {
      NoTableWanted(ts[1..], name);
    }
  }

  function TableName(row: Security): string {
    row.table
  }

  /** The count read last for the table, and 0 when none was. */
  lemma {:induction false} CountIsLast(rows: seq<Security>, table: string)
    ensures (exists i :: IsLast(rows, TableName, table, i) && CountOf(rows, table) == rows[i].policies)
         || ((forall row :: row in rows ==> row.table != table) && CountOf(rows, table) == 0)
  {
    if rows != [] {
      var n := |rows| - 1;
      if rows[n].table == table {
        assert IsLast(rows, TableName, table, n);
      } else {
        CountIsLast(rows[..n], table);
        assert forall j :: 0 <= j < n ==> rows[..n][j] == rows[j];
        if i :| IsLast(rows[..n], TableName, table, i) && CountOf(rows[..n], table) == rows[..n][i].policies {
          assert IsLast(rows, TableName, table, i);
        } else {
          assert forall row :: row in rows ==> row in rows[..n] || row == rows[n];
        }
      }
    }
  }

  // ------------------------------------------------------------------ the memberships 0016 adds

  /** The grant of the writer to authenticator: given by the applier or, for a superuser, as another role. */
  predicate WriterGrant(m: Membership, superuser: bool) {
    && m.role == "ucpe_api_writer" && m.member == "authenticator" && !m.admin && !m.inherit && m.set_
    && (m.grantedByApplier || superuser)
  }

  /** What PostgreSQL gives a creator that is no superuser: ADMIN on each of the four roles. */
  predicate CreatorGrant(m: Membership, applier: string) {
    && m.role in ["ucpe_api_writer", "ucpe_bundle_owner", "ucpe_resolver", "ucpe_space_db"]
    && m.member == applier && !m.grantedByApplier && m.admin && !m.inherit && !m.set_
  }

  /** Every old membership is there still, and the new ones are `w` and, unless superuser, the creator's. */
  ghost predicate GrownBy(pre: seq<Membership>, post: seq<Membership>, applier: Option<string>, superuser: bool, w: Membership) {
    && w !in pre
    && (!superuser ==> applier.Some? && forall m :: m in pre ==> !CreatorGrant(m, applier.value))
    && forall m: Membership :: m in post <==> m in pre || m == w || (!superuser && applier.Some? && CreatorGrant(m, applier.value))
  }

  lemma WriterRowsAre(superuser: bool, m: Membership)
    ensures m in WriterRows(superuser) <==> WriterGrant(m, superuser)
  {
  }

  lemma CreatorRowsAre(applier: string, m: Membership)
    ensures m in CreatorRows(applier) <==> CreatorGrant(m, applier)
  {
    assert m.role in NEW_ROLES <==> m.role in ["ucpe_api_writer", "ucpe_bundle_owner", "ucpe_resolver", "ucpe_space_db"] by {
      assert forall x :: x in NEW_ROLES ==> x == NEW_ROLES[0] || x == NEW_ROLES[1] || x == NEW_ROLES[2] || x == NEW_ROLES[3];
    }
  }

  /** MAIN: so 0016's memberships are accepted exactly when one writer's grant is new and, unless superuser, all
      four of the creator's, and nothing else changed. */
  lemma MembershipsMean(pre: seq<Membership>, post: seq<Membership>, applier: Option<string>, superuser: bool)
    ensures MembershipsAsReviewed(pre, post, applier, superuser) <==>
      (applier.Some? || superuser) && exists w :: WriterGrant(w, superuser) && GrownBy(pre, post, applier, superuser, w)
  {
    forall w ensures w in WriterRows(superuser) <==> WriterGrant(w, superuser) {
      WriterRowsAre(superuser, w);
    }
    var creator := if superuser || applier.None? then {} else CreatorRows(applier.value);
    forall m ensures m in creator <==> !superuser && applier.Some? && CreatorGrant(m, applier.value) {
      if applier.Some? {
        CreatorRowsAre(applier.value, m);
      }
    }
    hide WriterRows, CreatorRows, WriterGrant, CreatorGrant;
    if applier.Some? || superuser {
      forall w ensures (AsSet(pre) <= AsSet(post) && AsSet(post) - AsSet(pre) == {w} + creator) <==> GrownBy(pre, post, applier, superuser, w) {
        OneGrowth(pre, post, applier, superuser, w, creator);
      }
      hide GrownBy, AsSet;
    }
  }

  lemma OneGrowth(pre: seq<Membership>, post: seq<Membership>, applier: Option<string>, superuser: bool, w: Membership,
                  creator: set<Membership>)
    requires applier.Some? || superuser
    requires forall m :: m in creator <==> !superuser && applier.Some? && CreatorGrant(m, applier.value)
    ensures (AsSet(pre) <= AsSet(post) && AsSet(post) - AsSet(pre) == {w} + creator) <==> GrownBy(pre, post, applier, superuser, w)
  {
    hide CreatorGrant;
    var before, after := AsSet(pre), AsSet(post);
    assert forall m :: m in before <==> m in pre;
    assert forall m :: m in after <==> m in post;
    hide AsSet;
    if before <= after && after - before == {w} + creator {
      assert w in after - before;
      forall m ensures m in post <==> m in pre || m == w || m in creator {
        assert m in after - before <==> m in {w} + creator;
      }
      forall m | m in pre ensures m !in creator {
        assert m in creator ==> m in after - before;
      }
    }
    if GrownBy(pre, post, applier, superuser, w) {
      assert before <= after;
      assert after - before == {w} + creator;
    }
  }

  // ------------------------------------------------------------------ 0016's EXECUTE list

  /** An entry stays unless it is the old owner's; the new owner's and the writer's are there. */
  lemma EntriesWanted(pre: seq<FunctionRow>, entry: string)
    ensures entry in WantedEntries(pre) <==>
      || entry == "ucpe_bundle_owner" + "=EXECUTE" || entry == "ucpe_api_writer" + "=EXECUTE"
      || (|pre| == 1 && pre[0].acl.Some? && entry in pre[0].acl.value && entry != pre[0].owner + "=EXECUTE")
  {
  }

  /** The first difference decides: a smaller code point, or the end of the shorter. */
  predicate Differ(a: string, b: string, k: int) {
    && 0 <= k <= |a| && k < |b| && a[..k] == b[..k]
    && (k == |a| || a[k] < b[k])
  }

  lemma SharedStart(a: string, b: string, k: int)
    requires Differ(a, b, k) && k > 0
    ensures a != [] && b != [] && a[0] == b[0]
  {
    assert a[..k][0] == b[..k][0];
  }

  lemma {:induction false} LessMeans(a: string, b: string)
    ensures Less(a, b) <==> exists k :: Differ(a, b, k)
  {
    if a == [] || b == [] || a[0] != b[0] {
      if Less(a, b) {
        assert Differ(a, b, 0);
      }
      if k :| Differ(a, b, k) && k > 0 {
        SharedStart(a, b, k);
      }
    } else {
      LessMeans(a[1..], b[1..]);
      if k :| Differ(a[1..], b[1..], k) {
        assert a[..k + 1] == [a[0]] + a[1..][..k] && b[..k + 1] == [b[0]] + b[1..][..k];
        assert Differ(a, b, k + 1);
      }
      if k :| Differ(a, b, k) {
        assert k > 0;
        assert a[1..][..k - 1] == a[..k][1..] && b[1..][..k - 1] == b[..k][1..];
        assert Differ(a[1..], b[1..], k - 1);
      }
    }
  }
}
