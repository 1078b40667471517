/** The policies a grant list calls for, as scripts/apply_migration_0016.py, 0017 and 0018 name them. */
module Policies {
  import opened Rows

  datatype Command = Select | Insert | Update | Delete {
    /** pg_policy.polcmd */
    function Code(): char {
      match this case Select => 'r' case Insert => 'a' case Update => 'w' case Delete => 'd'
    }
    function Privilege(): Privilege {
      match this case Select => SELECT case Insert => INSERT case Update => UPDATE case Delete => DELETE
    }
    function Lower(): string {
      match this case Select => "select" case Insert => "insert" case Update => "update" case Delete => "delete"
    }
  }

  const COMMANDS: seq<Command> := [Select, Insert, Update, Delete]

  /** A dict of dicts, in its order: role -> table -> privileges. */
  datatype TableGrant = TableGrant(table: string, privileges: seq<Privilege>)
  datatype RoleGrants = RoleGrants(role: string, tables: seq<TableGrant>)
  type Grants = seq<RoleGrants>

  datatype Triple = Triple(role: string, table: string, command: Command)
  datatype Policy = Policy(command: char, permissive: bool, roles: seq<string>, using: string, withCheck: string)

  function Item(t: Triple): string {
    t.table + "/" + t.role + "_" + t.command.Lower()
  }

  function PolicyFor(t: Triple): Policy {
    Policy(
      t.command.Code(), true, [t.role],
      if t.command.Code() in {'r', 'w', 'd'} then "true" else "",
      if t.command.Code() in {'a', 'w'} then "true" else "")
  }

  // ------------------------------------------------------------------ what is granted

  function CommandTriples(role: string, t: TableGrant, cs: seq<Command>): seq<Triple> {
    if cs == [] then []
    else
      var c := cs[|cs| - 1];
      CommandTriples(role, t, cs[..|cs| - 1]) + if c.Privilege() in t.privileges then [Triple(role, t.table, c)] else []
  }

  function TableTriples(role: string, ts: seq<TableGrant>): seq<Triple> {
    if ts == [] then []
    else TableTriples(role, ts[..|ts| - 1]) + CommandTriples(role, ts[|ts| - 1], COMMANDS)
  }

  /** One triple per (role, table, command) the grants carry, in order. */
  function TriplesOf(grants: Grants): seq<Triple> {
    if grants == [] then []
    else
      var last := grants[|grants| - 1];
      TriplesOf(grants[..|grants| - 1]) + TableTriples(last.role, last.tables)
  }

  predicate TablesCarry(ts: seq<TableGrant>, u: Triple) {
    exists j :: 0 <= j < |ts| && ts[j].table == u.table && u.command.Privilege() in ts[j].privileges
  }

  predicate Granted(grants: Grants, t: Triple) {
    exists i :: 0 <= i < |grants| && grants[i].role == t.role && TablesCarry(grants[i].tables, t)
  }

  /** Keys of a dict occur once. */
  predicate WellKeyed(grants: Grants) {
    && (forall i, j :: 0 <= i < j < |grants| ==> grants[i].role != grants[j].role)
    && (forall g :: g in grants ==> forall i, j :: 0 <= i < j < |g.tables| ==> g.tables[i].table != g.tables[j].table)
  }

  predicate SlashFree(grants: Grants) {
    forall g :: g in grants ==> forall t :: t in g.tables ==> '/' !in t.table
  }

  // ------------------------------------------------------------------ the dict of policies

  function Assign(ts: seq<Triple>): map<string, Policy> {
    if ts == [] then map[]
    else Assign(ts[..|ts| - 1])[Item(ts[|ts| - 1]) := PolicyFor(ts[|ts| - 1])]
  }

  function PoliciesOf(grants: Grants): map<string, Policy> {
    Assign(TriplesOf(grants))
  }

  /** The source's nested loops. */
  method ExpectedPolicies(grants: Grants) returns (policies: map<string, Policy>)
    ensures policies == PoliciesOf(grants)
  {
    policies := map[];
    for i := 0 to |grants|
      invariant policies == Assign(TriplesOf(grants[..i]))
    {
      policies := AddRole(grants[i].role, grants[i].tables, policies, TriplesOf(grants[..i]));
      assert grants[..i + 1][..i] == grants[..i];
    }
    assert grants[..|grants|] == grants;
  }

  method AddRole(role: string, tables: seq<TableGrant>, policies: map<string, Policy>, ghost done: seq<Triple>)
    returns (policies': map<string, Policy>)
    requires policies == Assign(done)
    ensures policies' == Assign(done + TableTriples(role, tables))
  {
    hide Assign, CommandTriples;
    policies' := policies;
    assert done + [] == done;
    for j := 0 to |tables|
      invariant policies' == Assign(done + TableTriples(role, tables[..j]))
    {
      policies' := AddTable(role, tables[j], policies', done + TableTriples(role, tables[..j]));
      assert tables[..j + 1][..j] == tables[..j];
      assert done + TableTriples(role, tables[..j]) + CommandTriples(role, tables[j], COMMANDS)
          == done + TableTriples(role, tables[..j + 1]);
    }
    assert tables[..|tables|] == tables;
  }

  method AddTable(role: string, t: TableGrant, policies: map<string, Policy>, ghost done: seq<Triple>)
    returns (policies': map<string, Policy>)
    requires policies == Assign(done)
    ensures policies' == Assign(done + CommandTriples(role, t, COMMANDS))
  {
    hide Assign, Item, PolicyFor;
    policies' := policies;
    assert done + [] == done;
    for k := 0 to |COMMANDS|
      invariant policies' == Assign(done + CommandTriples(role, t, COMMANDS[..k]))
    {
      if COMMANDS[k].Privilege() in t.privileges {
        var triple := Triple(role, t.table, COMMANDS[k]);
        policies' := policies'[Item(triple) := PolicyFor(triple)];
        AssignOne(done + CommandTriples(role, t, COMMANDS[..k]), triple);
      }
      assert COMMANDS[..k + 1][..k] == COMMANDS[..k];
      ghost var found := CommandTriples(role, t, COMMANDS[..k]);
      if COMMANDS[k].Privilege() in t.privileges {
        assert done + CommandTriples(role, t, COMMANDS[..k + 1]) == done + found + [Triple(role, t.table, COMMANDS[k])];
      } else {
        assert CommandTriples(role, t, COMMANDS[..k + 1]) == found + [];
        assert found + [] == found;
      }
    }
    assert COMMANDS[..|COMMANDS|] == COMMANDS;
  }

  lemma AssignOne(done: seq<Triple>, t: Triple)
    ensures Assign(done + [t]) == Assign(done)[Item(t) := PolicyFor(t)]
  {
    assert (done + [t])[..|done|] == done;
  }

  // ------------------------------------------------------------------ the naming is injective

  /** item.split("/", 1)[0] */
  function TableOf(item: string): string {
    if item == [] || item[0] == '/' then [] else [item[0]] + TableOf(item[1..])
  }

  lemma {:induction false} TableOfItem(table: string, rest: string)
    requires '/' !in table
    ensures TableOf(table + "/" + rest) == table
  {
    var s := table + "/" + rest;
    if table != [] {
      TableOfItem(table[1..], rest);
      assert s[1..] == table[1..] + "/" + rest;
      assert s[0] == table[0];
    }
  }

  lemma SplitAtSlash(a: string, x: string, b: string, y: string)
    requires '/' !in a && '/' !in b && a + "/" + x == b + "/" + y
    ensures a == b && x == y
  {
    TableOfItem(a, x);
    TableOfItem(b, y);
    assert x == (a + "/" + x)[|a| + 1..] && y == (b + "/" + y)[|b| + 1..];
  }

  lemma NamingIsInjective(t: Triple, u: Triple)
    requires '/' !in t.table && '/' !in u.table && Item(t) == Item(u)
    ensures t == u
  {
    hide TableOf, Command.Lower;
    var x, y := t.role + "_" + t.command.Lower(), u.role + "_" + u.command.Lower();
    assert Item(t) == t.table + "/" + x && Item(u) == u.table + "/" + y;
    SplitAtSlash(t.table, x, u.table, y);
    SameRoleAndCommand(t.role, t.command, u.role, u.command);
  }

  lemma SameRoleAndCommand(a: string, c: Command, b: string, d: Command)
    requires a + "_" + c.Lower() == b + "_" + d.Lower()
    ensures a == b && c == d
  {
    SplitBeforeEnd(a, c.Lower(), b, d.Lower());
    assert c == d by {
      FirstLetter(c);
      FirstLetter(d);
    }
  }

  lemma FirstLetter(c: Command)
    ensures c.Lower()[0] == match c case Select => 's' case Insert => 'i' case Update => 'u' case Delete => 'd'
  {
  }

  lemma SplitBeforeEnd(a: string, x: string, b: string, y: string)
    requires |x| == |y| == 6 && a + "_" + x == b + "_" + y
    ensures a == b && x[0] == y[0]
  {
    var s := a + "_" + x;
    assert a == s[..|s| - 7] && b == (b + "_" + y)[..|s| - 7];
    assert s[|s| - 6] == x[0] && (b + "_" + y)[|s| - 6] == y[0];
  }

  /** With a slash in a table name two grants can ask for one policy name. */
  lemma SlashesCollide()
    ensures Item(Triple("b/c", "a", Select)) == Item(Triple("c", "a/b", Select))
  {
    assert "a" + "/" + "b/c" == "a/b" + "/" + "c";
  }

  lemma {:induction false} CommandTriplesExact(role: string, t: TableGrant, cs: seq<Command>, u: Triple)
    ensures u in CommandTriples(role, t, cs) <==>
            u.role == role && u.table == t.table && u.command in cs && u.command.Privilege() in t.privileges
  {
    if cs != [] {
      CommandTriplesExact(role, t, cs[..|cs| - 1], u);
      assert cs == cs[..|cs| - 1] + [cs[|cs| - 1]];
    }
  }

  lemma OneMoreTable(ts: seq<TableGrant>, u: Triple)
    requires ts != []
    ensures var last := ts[|ts| - 1];
      TablesCarry(ts, u) <==> TablesCarry(ts[..|ts| - 1], u) || (last.table == u.table && u.command.Privilege() in last.privileges)
  {
    var n := |ts| - 1;
    assert forall j :: 0 <= j < n ==> ts[..n][j] == ts[j];
  }

  lemma {:induction false} TableTriplesExact(role: string, ts: seq<TableGrant>, u: Triple)
    ensures u in TableTriples(role, ts) <==> u.role == role && TablesCarry(ts, u)
  {
    hide CommandTriples;
    if ts == [] {
    } else {
      var n := |ts| - 1;
      TableTriplesExact(role, ts[..n], u);
      CommandTriplesExact(role, ts[n], COMMANDS, u);
      OneMoreTable(ts, u);
      hide TablesCarry;
    }
  }

  lemma {:induction false} TriplesExact(grants: Grants, u: Triple)
    ensures u in TriplesOf(grants) <==> Granted(grants, u)
  {
    hide TableTriples, TablesCarry;
    if grants != [] {
      var n := |grants| - 1;
      TriplesExact(grants[..n], u);
      TableTriplesExact(grants[n].role, grants[n].tables, u);
      assert forall i :: 0 <= i < n ==> grants[..n][i] == grants[i];
    }
  }

  lemma DistinctAppend<T>(a: seq<T>, b: seq<T>)
    requires Distinct(a) && Distinct(b) && forall x :: x in a ==> x !in b
    ensures Distinct(a + b)
  {
    forall i, j | 0 <= i < j < |a + b| ensures (a + b)[i] != (a + b)[j] {
      if i < |a| <= j {
        assert a[i] in a && b[j - |a|] in b;
      }
    }
  }

  lemma {:induction false} CommandTriplesDistinct(role: string, t: TableGrant, cs: seq<Command>)
    requires Distinct(cs)
    ensures Distinct(CommandTriples(role, t, cs))
  {
    if cs != [] {
      var rest, c := cs[..|cs| - 1], cs[|cs| - 1];
      CommandTriplesDistinct(role, t, rest);
      CommandTriplesExact(role, t, rest, Triple(role, t.table, c));
      DistinctAppend(CommandTriples(role, t, rest), if c.Privilege() in t.privileges then [Triple(role, t.table, c)] else []);
    }
  }

  lemma {:induction false} TableTriplesDistinct(role: string, ts: seq<TableGrant>)
    requires forall i, j :: 0 <= i < j < |ts| ==> ts[i].table != ts[j].table
    ensures Distinct(TableTriples(role, ts))
  {
    if ts != [] {
      var n := |ts| - 1;
      TableTriplesDistinct(role, ts[..n]);
      CommandTriplesDistinct(role, ts[n], COMMANDS);
      forall u | u in TableTriples(role, ts[..n]) ensures u !in CommandTriples(role, ts[n], COMMANDS) {
        TableTriplesExact(role, ts[..n], u);
        CommandTriplesExact(role, ts[n], COMMANDS, u);
      }
      DistinctAppend(TableTriples(role, ts[..n]), CommandTriples(role, ts[n], COMMANDS));
    }
  }

  lemma {:induction false} TriplesDistinct(grants: Grants)
    requires WellKeyed(grants)
    ensures Distinct(TriplesOf(grants))
  {
    if grants != [] {
      var n := |grants| - 1;
      TriplesDistinct(grants[..n]);
      TableTriplesDistinct(grants[n].role, grants[n].tables);
      forall u | u in TriplesOf(grants[..n]) ensures u !in TableTriples(grants[n].role, grants[n].tables) {
        TriplesExact(grants[..n], u);
        TableTriplesExact(grants[n].role, grants[n].tables, u);
      }
      DistinctAppend(TriplesOf(grants[..n]), TableTriples(grants[n].role, grants[n].tables));
    }
  }

  lemma {:induction false} AssignNames(ts: seq<Triple>, item: string)
    ensures item in Assign(ts) <==> exists t :: t in ts && Item(t) == item
  {
    hide Item, PolicyFor;
    if ts == [] {
    } else {
      AssignNames(ts[..|ts| - 1], item);
      assert ts == ts[..|ts| - 1] + [ts[|ts| - 1]];
    }
  }

  lemma {:induction false} AssignExact(ts: seq<Triple>)
    requires Distinct(ts) && forall t :: t in ts ==> '/' !in t.table
    ensures |Assign(ts)| == |ts|
    ensures forall t :: t in ts ==> Item(t) in Assign(ts) && Assign(ts)[Item(t)] == PolicyFor(t)
  {
    hide Item, PolicyFor;
    if ts != [] {
      var rest, last := ts[..|ts| - 1], ts[|ts| - 1];
      AssignExact(rest);
      AssignNames(rest, Item(last));
      forall t | t in rest ensures Item(t) != Item(last) {
        if Item(t) == Item(last) {
          NamingIsInjective(t, last);
        }
      }
      assert ts == rest + [last];
    }
  }

  /** MAIN: exactly one distinct policy per (role, table, command) granted. */
  lemma OnePolicyPerGrantedCommand(grants: Grants)
    requires WellKeyed(grants) && SlashFree(grants)
    ensures |PoliciesOf(grants)| == |TriplesOf(grants)| && Distinct(TriplesOf(grants))
    ensures forall t :: Granted(grants, t) ==> Item(t) in PoliciesOf(grants) && PoliciesOf(grants)[Item(t)] == PolicyFor(t)
    ensures forall item :: item in PoliciesOf(grants) ==> exists t :: Granted(grants, t) && Item(t) == item
  {
    var ts := TriplesOf(grants);
    TriplesDistinct(grants);
    forall t ensures t in ts <==> Granted(grants, t) {
      TriplesExact(grants, t);
    }
    AssignExact(ts);
    forall item | item in PoliciesOf(grants) ensures exists t :: Granted(grants, t) && Item(t) == item {
      AssignNames(ts, item);
      var t :| t in ts && Item(t) == item;
      assert Granted(grants, t);
    }
  }

  /** Some entry of the role grants the table this privilege. */
  ghost predicate Carries(grants: Grants, role: string, table: string, privilege: Privilege) {
    exists g, t :: g in grants && g.role == role && t in g.tables && t.table == table && privilege in t.privileges
  }

  lemma CarriesMeans(grants: Grants, t: Triple)
    ensures Granted(grants, t) <==> Carries(grants, t.role, t.table, t.command.Privilege())
  {
    forall g: RoleGrants ensures TablesCarry(g.tables, t) <==>
      exists u :: u in g.tables && u.table == t.table && t.command.Privilege() in u.privileges
    {
    }
  }

  /** MAIN: what there is for each privilege of a table, and it is nothing else: a permissive policy for the
      role alone, named after all three; rows that are read, updated or deleted pass USING (true), and rows
      that are inserted or updated pass WITH CHECK (true). */
  lemma PoliciesAreTheGrants(grants: Grants, role: string, table: string)
    requires WellKeyed(grants) && SlashFree(grants) && '/' !in table
    ensures var of, name := PoliciesOf(grants), table + "/" + role;
      && (name + "_select" in of <==> Carries(grants, role, table, SELECT))
      && (name + "_insert" in of <==> Carries(grants, role, table, INSERT))
      && (name + "_update" in of <==> Carries(grants, role, table, UPDATE))
      && (name + "_delete" in of <==> Carries(grants, role, table, DELETE))
      && (name + "_select" in of ==> of[name + "_select"] == Policy('r', true, [role], "true", ""))
      && (name + "_insert" in of ==> of[name + "_insert"] == Policy('a', true, [role], "", "true"))
      && (name + "_update" in of ==> of[name + "_update"] == Policy('w', true, [role], "true", "true"))
      && (name + "_delete" in of ==> of[name + "_delete"] == Policy('d', true, [role], "true", ""))
  {
    hide *;
    NamedWhenGranted(grants, Triple(role, table, Select));
    NamedWhenGranted(grants, Triple(role, table, Insert));
    NamedWhenGranted(grants, Triple(role, table, Update));
    NamedWhenGranted(grants, Triple(role, table, Delete));
  }

  lemma ItemIs(t: Triple)
    ensures Item(t) == t.table + "/" + t.role + match t.command
      case Select => "_select" case Insert => "_insert" case Update => "_update" case Delete => "_delete"
  {
    var word := "_" + t.command.Lower();
    assert Item(t) == t.table + "/" + t.role + word;
  }

  lemma PolicyIs(t: Triple)
    ensures PolicyFor(t) == match t.command
      case Select => Policy('r', true, [t.role], "true", "")
      case Insert => Policy('a', true, [t.role], "", "true")
      case Update => Policy('w', true, [t.role], "true", "true")
      case Delete => Policy('d', true, [t.role], "true", "")
  {
  }

  lemma NamedWhenGranted(grants: Grants, t: Triple)
    requires WellKeyed(grants) && SlashFree(grants) && '/' !in t.table
    ensures var item := t.table + "/" + t.role + match t.command
      case Select => "_select" case Insert => "_insert" case Update => "_update" case Delete => "_delete";
      && (item in PoliciesOf(grants) <==>
            Carries(grants, t.role, t.table, match t.command
              case Select => SELECT case Insert => INSERT case Update => UPDATE case Delete => DELETE))
      && (item in PoliciesOf(grants) ==>
            PoliciesOf(grants)[item] == match t.command
              case Select => Policy('r', true, [t.role], "true", "")
              case Insert => Policy('a', true, [t.role], "", "true")
              case Update => Policy('w', true, [t.role], "true", "true")
              case Delete => Policy('d', true, [t.role], "true", ""))
  {
    ItemIs(t);
    OnePolicyPerGrantedCommand(grants);
    CarriesMeans(grants, t);
    if Item(t) in PoliciesOf(grants) {
      var u :| Granted(grants, u) && Item(u) == Item(t);
      GrantedTableSlashFree(grants, u);
      NamingIsInjective(u, t);
    }
    PolicyIs(t);
    hide WellKeyed, SlashFree, Item, PoliciesOf, PolicyFor, Carries, Granted;
  }

  // ------------------------------------------------------------------ the added policies

  /** `added_policies`: those the wider grants call for and the narrower do not. */
  function Added(before: Grants, after: Grants): map<string, Policy> {
    map item | item in PoliciesOf(after) && item !in PoliciesOf(before) :: PoliciesOf(after)[item]
  }

  ghost predicate Included(before: Grants, after: Grants) {
    forall t :: Granted(before, t) ==> Granted(after, t)
  }

  lemma KeptPolicies(before: Grants, after: Grants)
    requires WellKeyed(before) && SlashFree(before) && WellKeyed(after) && SlashFree(after) && Included(before, after)
    ensures forall item :: item in PoliciesOf(before) ==> item in PoliciesOf(after) && PoliciesOf(after)[item] == PoliciesOf(before)[item]
  {
    hide WellKeyed, SlashFree, Granted, PoliciesOf;
    OnePolicyPerGrantedCommand(before);
    OnePolicyPerGrantedCommand(after);
    forall item | item in PoliciesOf(before)
      ensures item in PoliciesOf(after) && PoliciesOf(after)[item] == PoliciesOf(before)[item]
    {
      var u :| Granted(before, u) && Item(u) == item;
      assert Granted(after, u);
    }
  }

  lemma AddedWhenNotGranted(before: Grants, after: Grants, t: Triple)
    requires WellKeyed(before) && SlashFree(before) && WellKeyed(after) && SlashFree(after) && Granted(after, t)
    ensures Item(t) in Added(before, after) <==> !Granted(before, t)
  {
    GrantedTableSlashFree(after, t);
    hide WellKeyed, SlashFree, Granted, PoliciesOf, Item;
    OnePolicyPerGrantedCommand(before);
    OnePolicyPerGrantedCommand(after);
    if Item(t) in PoliciesOf(before) {
      var u :| Granted(before, u) && Item(u) == Item(t);
      GrantedTableSlashFree(before, u);
      NamingIsInjective(t, u);
    }
  }

  /** MAIN: widening the grants adds exactly the policies of the added grants, and changes none. */
  lemma AddedExactly(before: Grants, after: Grants)
    requires WellKeyed(before) && SlashFree(before) && WellKeyed(after) && SlashFree(after) && Included(before, after)
    ensures forall t :: Granted(after, t) ==> (Item(t) in Added(before, after) <==> !Granted(before, t))
    ensures forall item :: item in PoliciesOf(before) ==> item in PoliciesOf(after) && PoliciesOf(after)[item] == PoliciesOf(before)[item]
    ensures |Added(before, after)| == |TriplesOf(after)| - |TriplesOf(before)|
  {
    KeptPolicies(before, after);
    forall t | Granted(after, t) ensures Item(t) in Added(before, after) <==> !Granted(before, t) {
      AddedWhenNotGranted(before, after, t);
    }
    AddedSize(before, after);
  }

  lemma AddedSize(before: Grants, after: Grants)
    requires WellKeyed(before) && SlashFree(before) && WellKeyed(after) && SlashFree(after) && Included(before, after)
    ensures |Added(before, after)| == |TriplesOf(after)| - |TriplesOf(before)|
  {
    hide WellKeyed, SlashFree, Included, Granted, TriplesOf, PoliciesOf;
    KeptPolicies(before, after);
    OnePolicyPerGrantedCommand(before);
    OnePolicyPerGrantedCommand(after);
    assert PoliciesOf(after).Keys == PoliciesOf(before).Keys + Added(before, after).Keys;
    assert PoliciesOf(before).Keys !! Added(before, after).Keys;
    assert |PoliciesOf(after)| == |PoliciesOf(after).Keys|;
    assert |PoliciesOf(before)| == |PoliciesOf(before).Keys|;
    assert |Added(before, after)| == |Added(before, after).Keys|;
  }

  lemma GrantedTableSlashFree(grants: Grants, t: Triple)
    requires SlashFree(grants) && Granted(grants, t)
    ensures '/' !in t.table
  {
  }

  // ------------------------------------------------------------------ counting them per table

  function On(items: set<string>, table: string): set<string> {
    set item | item in items && TableOf(item) == table
  }

  lemma OnGrows(done: set<string>, item: string, other: string)
    requires item !in done
    ensures |On(done + {item}, other)| == |On(done, other)| + if TableOf(item) == other then 1 else 0
  {
    hide TableOf;
    if TableOf(item) == other {
      assert On(done + {item}, other) == On(done, other) + {item};
    } else {
      assert On(done + {item}, other) == On(done, other);
    }
  }

  /** The loop that counts the policies added per table. */
  method CountByTable(items: set<string>) returns (added: map<string, nat>)
    ensures forall table :: (if table in added then added[table] else 0) == |On(items, table)|
  {
    added := map[];
    var left := items;
    assert forall table :: On(items - left, table) == {};
    while left != {}
      invariant left <= items
      invariant forall table :: (if table in added then added[table] else 0) == |On(items - left, table)|
    {
      var item :| item in left;
      var table := TableOf(item);
      ghost var done := items - left;
      forall other ensures |On(done + {item}, other)| == |On(done, other)| + if TableOf(item) == other then 1 else 0 {
        OnGrows(done, item, other);
      }
      added := added[table := (if table in added then added[table] else 0) + 1];
      left := left - {item};
      assert items - left == done + {item};
    }
    assert items - left == items;
  }

  function TriplesOn(ts: seq<Triple>, table: string): set<Triple> {
    set t | t in ts && t.table == table
  }

  lemma TableOfPolicy(t: Triple)
    requires '/' !in t.table
    ensures TableOf(Item(t)) == t.table
  {
    var rest := t.role + "_" + t.command.Lower();
    TableOfItem(t.table, rest);
    assert Item(t) == t.table + "/" + rest;
  }

  /** MAIN: the count recovered from the names is the number of commands granted on the table. */
  lemma CountsAreGrants(grants: Grants, table: string)
    requires WellKeyed(grants) && SlashFree(grants)
    ensures |On(PoliciesOf(grants).Keys, table)| == |TriplesOn(TriplesOf(grants), table)|
  {
    var ts, items := TriplesOn(TriplesOf(grants), table), On(PoliciesOf(grants).Keys, table);
    forall t | t in TriplesOf(grants) ensures '/' !in t.table && Granted(grants, t) && TableOf(Item(t)) == t.table {
      TriplesExact(grants, t);
      GrantedTableSlashFree(grants, t);
      TableOfPolicy(t);
    }
    TriplesDistinct(grants);
    hide WellKeyed, SlashFree, Granted, TriplesOf, Item, TableOf;
    forall item | item in items ensures exists t :: t in ts && Item(t) == item {
      AssignNames(TriplesOf(grants), item);
      var t :| t in TriplesOf(grants) && Item(t) == item;
      assert t in ts;
    }
    AssignExact(TriplesOf(grants));
    SameSize(ts, items);
  }

  lemma {:induction false} SameSize(ts: set<Triple>, items: set<string>)
    requires forall t :: t in ts ==> '/' !in t.table && Item(t) in items
    requires forall item :: item in items ==> exists t :: t in ts && Item(t) == item
    ensures |ts| == |items|
    decreases |ts|
  {
    if ts == {} {
      assert items == {};
    } else {
      var t :| t in ts;
      forall u | u in ts - {t} ensures Item(u) in items - {Item(t)} {
        if Item(u) == Item(t) {
          NamingIsInjective(u, t);
        }
      }
      SameSize(ts - {t}, items - {Item(t)});
    }
  }
}
