/** PostgreSQL's own rules, and what an assessment says about them. */
module AuditSemantics {
  // `World` is the whole catalog; `Reaches` says when a role can use a command on a row, for given
  // policy expressions, following "Row Security Policies" in the Data Definition chapter of the
  // PostgreSQL manual. An `Observed` witnesses a world when every fact it holds is true of that world;
  // it may hold any part of the facts.

  import opened Audit

  datatype World = World(
    attributes: map<Role, Attributes>,
    tables: seq<Table>,
    tableRights: set<(TableId, Role, Privilege)>,
    columnRights: set<(TableId, string, Role, Privilege)>,
    owners: set<(TableId, Role)>,
    usage: set<(string, Role)>,
    policies: seq<Policy>,
    applies: set<(TableId, string, Role)>,
    publications: seq<Publication>)

  predicate Superuser(w: World, r: Role) {
    r in w.attributes && w.attributes[r].superuser
  }

  /** The server's privilege functions: a superuser passes every one. */
  predicate HasTablePrivilege(w: World, t: TableId, r: Role, p: Privilege) {
    Superuser(w, r) || (t, r, p) in w.tableRights
  }

  predicate HasColumnPrivilege(w: World, t: TableId, column: string, r: Role, p: Privilege) {
    p in COLUMN_PRIVILEGES && (HasTablePrivilege(w, t, r, p) || (t, column, r, p) in w.columnRights)
  }

  predicate HasUsage(w: World, schema: string, r: Role) {
    Superuser(w, r) || (schema, r) in w.usage
  }

  predicate CountsAsOwner(w: World, t: TableId, r: Role) {
    Superuser(w, r) || (t, r) in w.owners
  }

  predicate BypassesRowSecurity(w: World, t: Table, r: Role) {
    || Superuser(w, r)
    || (r in w.attributes && w.attributes[r].bypassRls)
    || (CountsAsOwner(w, t.id, r) && !t.forced)
  }

  ghost predicate MayUseCommand(w: World, t: TableId, r: Role, c: Privilege) {
    HasTablePrivilege(w, t, r, c) || exists column :: HasColumnPrivilege(w, t, column, r, c)
  }

  predicate Concerns(w: World, p: Policy, t: TableId, r: Role, c: Privilege) {
    p.table == t && p.Covers(c) && (t, p.name, r) in w.applies
  }

  /** Some permissive policy admits the row and no restrictive one rejects it. `expr(p, c, row)` is
      the policy's expression for the command: USING, or WITH CHECK for a new row. */
  ghost predicate PoliciesAdmit<Row(!new)>(w: World, expr: (Policy, Privilege, Row) -> bool, row: Row,
                                           t: TableId, r: Role, c: Privilege) {
    && (exists p :: p in w.policies && p.permissive && Concerns(w, p, t, r, c) && expr(p, c, row))
    && (forall p :: p in w.policies && !p.permissive && Concerns(w, p, t, r, c) ==> expr(p, c, row))
  }

  ghost predicate RowVisible<Row(!new)>(w: World, expr: (Policy, Privilege, Row) -> bool, row: Row,
                                        t: Table, r: Role, c: Privilege) {
    !t.rls || BypassesRowSecurity(w, t, r) || PoliciesAdmit(w, expr, row, t.id, r, c)
  }

  ghost predicate Reaches<Row(!new)>(w: World, expr: (Policy, Privilege, Row) -> bool, row: Row,
                                     t: Table, r: Role, c: Privilege) {
    && r in w.attributes
    && HasUsage(w, t.id.schema, r)
    && MayUseCommand(w, t.id, r, c)
    && RowVisible(w, expr, row, t, r, c)
  }

  /** Realtime delivers a published table's change events to a role that may SELECT a column. It
      filters inserted and updated rows by row-level security, and deleted keys by nothing. */
  ghost predicate ReceivesDeletedKeys(w: World, t: Table, r: Role) {
    r in w.attributes && (exists p :: p in w.publications && p.table == t.id) && MayUseCommand(w, t.id, r, Select)
  }

  ghost predicate ReceivesRow<Row(!new)>(w: World, expr: (Policy, Privilege, Row) -> bool, row: Row, t: Table, r: Role) {
    ReceivesDeletedKeys(w, t, r) && RowVisible(w, expr, row, t, r, Select)
  }

  /** What the server answers to each question about an audited table. */
  predicate Truth(w: World, f: Fact) {
    match f
    case Holds(t, r, p) => HasTablePrivilege(w, t, r, p)
    case ActsAsOwner(t, r) => CountsAsOwner(w, t, r)
    case UsesSchema(schema, r) => HasUsage(w, schema, r)
    case PolicyApplies(t, name, r) => (t, name, r) in w.applies
    case RelationHolds(_, _, _) => true
    case ReadAnswered(_) => true
  }

  predicate AboutTables(f: Fact) {
    !f.RelationHolds? && !f.ReadAnswered?
  }

  /** `o` was read from `w`: whole lists of tables, policies and column rights, of publications unless that
      read was refused, and any part of the yes-or-no facts, each one true. */
  ghost predicate Witnesses(w: World, o: Observed) {
    && o.roles == w.attributes
    && o.tables == w.tables
    && o.policies == w.policies
    && (RealtimePublications !in o.refused ==> o.publications == w.publications)
    && (forall f :: f in o.facts && AboutTables(f) ==> o.facts[f] == Truth(w, f))
    && (forall t, column, r, p ::
          ColumnRight(t, column, r, p) in o.columnOnly <==>
          (exists x :: x in w.tables && x.id == t) && r in w.attributes
          && HasColumnPrivilege(w, t, column, r, p) && !HasTablePrivilege(w, t, r, p))
  }

  // ------------------------------------------------------------------ reading the lists of an assessment

  lemma {:induction false} ColumnListed(rows: seq<ColumnRight>, row: ColumnRight)
    requires row in rows
    ensures ColumnsAmong(rows, row.table, row.role, row.privilege) != []
  {
    if row != rows[|rows| - 1] {
      ColumnListed(rows[..|rows| - 1], row);
    }
  }

  lemma {:induction false} ColumnBehind(rows: seq<ColumnRight>, t: TableId, r: Role, c: Privilege)
    requires ColumnsAmong(rows, t, r, c) != []
    ensures exists column :: ColumnRight(t, column, r, c) in rows
  {
    var last := rows[|rows| - 1];
    if last.table == t && last.role == r && last.privilege == c {
      assert ColumnRight(t, last.column, r, c) in rows;
    } else {
      ColumnBehind(rows[..|rows| - 1], t, r, c);
    }
  }

  lemma {:induction false} ApplicableListed(o: Observed, ps: seq<Policy>, p: Policy, t: TableId, r: Role, c: Privilege)
    requires p in ps && MayAdmit(p, t, c) && Yes(o, PolicyApplies(t, p.name, r))
    ensures p.name in ApplicableAmong(o, ps, t, r, c)
  {
    if p != ps[|ps| - 1] {
      ApplicableListed(o, ps[..|ps| - 1], p, t, r, c);
    }
  }

  lemma {:induction false} ApplicableBehind(o: Observed, ps: seq<Policy>, name: string, t: TableId, r: Role, c: Privilege)
    requires name in ApplicableAmong(o, ps, t, r, c)
    ensures exists p :: p in ps && p.name == name && MayAdmit(p, t, c) && Yes(o, PolicyApplies(t, name, r))
  {
    var p := ps[|ps| - 1];
    if !(p.name == name && MayAdmit(p, t, c) && Yes(o, PolicyApplies(t, name, r))) {
      ApplicableBehind(o, ps[..|ps| - 1], name, t, r, c);
    }
  }

  lemma {:induction false} CommandLine(o: Observed, t: Table, r: Role, cs: seq<Privilege>, e: Exposure)
    ensures e in CommandsExposures(o, t, r, cs) <==>
            e.TableExposure? && e.table == t.id && e.role == r && e.command in cs
            && TableExposed(o, t, r, e.command) && e.verdict == VerdictOf(o, t, r, e.command)
  {
    hide Usable, AdmitsOf, VerdictOf, Uses;
    if cs != [] {
      CommandLine(o, t, r, cs[..|cs| - 1], e);
      assert cs == cs[..|cs| - 1] + [cs[|cs| - 1]];
    }
  }

  lemma {:induction false} RoleLines(o: Observed, t: Table, rs: seq<Role>, e: Exposure)
    ensures e in RolesExposures(o, t, rs) <==> exists r :: r in rs && e in RoleExposures(o, t, r)
  {
    hide RoleExposures;
    if rs != [] {
      RoleLines(o, t, rs[..|rs| - 1], e);
      assert rs == rs[..|rs| - 1] + [rs[|rs| - 1]];
    }
  }

  predicate OnTable(o: Observed, t: Table, e: Exposure) {
    e in RolesExposures(o, t, API_ROLES)
  }

  lemma {:induction false} TableLines(o: Observed, ts: seq<Table>, e: Exposure)
    ensures e in TablesExposures(o, ts) <==> exists t :: t in ts && OnTable(o, t, e)
  {
    if ts != [] {
      var rest, last := ts[..|ts| - 1], ts[|ts| - 1];
      TableLines(o, rest, e);
      assert forall t :: t in ts <==> t in rest || t == last;
      assert TablesExposures(o, ts) == TablesExposures(o, rest) + RolesExposures(o, last, API_ROLES);
      assert e in TablesExposures(o, ts) <==> e in TablesExposures(o, rest) || OnTable(o, last, e);
      if OnTable(o, last, e) {
        assert last in ts;
      }
    }
  }

  predicate ApiRole(r: Role) {
    r == Anon || r == Authenticated
  }

  lemma ApiRolesListed(r: Role)
    ensures r in API_ROLES
  {
    assert API_ROLES[0] == Anon && API_ROLES[1] == Authenticated && API_ROLES[2] == ServiceRole;
  }

  /** A reachable command of anon or authenticated is a line of the report. */
  lemma ExposureListed(o: Observed, t: Table, r: Role, c: Privilege)
    requires t in o.tables && ApiRole(r) && c in API_PRIVILEGES && TableExposed(o, t, r, c)
    ensures TableExposure(t.id, r, c, VerdictOf(o, t, r, c)) in ExposuresOf(o)
  {
    hide TableExposed, VerdictOf, RealtimeExposures, ViewExposures, ParentExposures;
    var e := TableExposure(t.id, r, c, VerdictOf(o, t, r, c));
    CommandLine(o, t, r, API_PRIVILEGES, e);
    ApiRolesListed(r);
    RoleLines(o, t, API_ROLES, e);
    assert OnTable(o, t, e) <==> e in RolesExposures(o, t, API_ROLES);
    TableLines(o, o.tables, e);
  }

  lemma RealtimeListed(o: Observed, t: Table, r: Role)
    requires t in o.tables && ApiRole(r) && Published(o, t.id) && Usable(o, t.id, r, Select)
    ensures RealtimeExposure(t.id, r, EventsOf(o, t, r)) in ExposuresOf(o)
  {
    hide CommandsExposures, EventsOf, ViewExposures, ParentExposures;
    var e := RealtimeExposure(t.id, r, EventsOf(o, t, r));
    assert e in RealtimeExposures(o, t, r);
    ApiRolesListed(r);
    RoleLines(o, t, API_ROLES, e);
    assert OnTable(o, t, e) <==> e in RolesExposures(o, t, API_ROLES);
    TableLines(o, o.tables, e);
  }

  // ------------------------------------------------------------------ soundness, for any part of the facts

  lemma UsableWhenHeld(w: World, o: Observed, t: Table, r: Role, c: Privilege)
    requires Witnesses(w, o) && t in w.tables && r in w.attributes && c in API_PRIVILEGES
    requires MayUseCommand(w, t.id, r, c)
    ensures Usable(o, t.id, r, c)
  {
    if HasTablePrivilege(w, t.id, r, c) {
      assert Truth(w, Holds(t.id, r, c));
      assert Yes(o, Holds(t.id, r, c));
    } else {
      var column :| HasColumnPrivilege(w, t.id, column, r, c);
      assert ColumnRight(t.id, column, r, c) in o.columnOnly;
      ColumnListed(o.columnOnly, ColumnRight(t.id, column, r, c));
    }
  }

  lemma AdmittedWhenVisible<Row(!new)>(w: World, o: Observed, expr: (Policy, Privilege, Row) -> bool, row: Row,
                                       t: Table, r: Role, c: Privilege)
    requires Witnesses(w, o) && t in w.tables && r in w.attributes && c in API_PRIVILEGES
    requires MayUseCommand(w, t.id, r, c) && RowVisible(w, expr, row, t, r, c)
    ensures Usable(o, t.id, r, c) && AdmitsOf(o, t, r, c) != AdmitsNothing
  {
    hide Usable, ApplicableAmong, MayUseCommand;
    UsableWhenHeld(w, o, t, r, c);
    if t.rls && !BypassesRowSecurity(w, t, r) {
      var p :| p in w.policies && p.permissive && Concerns(w, p, t.id, r, c) && expr(p, c, row);
      assert Truth(w, PolicyApplies(t.id, p.name, r));
      ApplicableListed(o, o.policies, p, t.id, r, c);
    }
  }

  /** MAIN: a missing fact never hides an exposure. Whatever part of the facts was returned, and
      whatever the policy expressions and the row, a row an API role can reach with a command is an
      exposure line of that table, role and command. */
  lemma NoReachableRowIsHidden<Row(!new)>(w: World, o: Observed, expr: (Policy, Privilege, Row) -> bool, row: Row,
                                          t: Table, r: Role, c: Privilege)
    requires Witnesses(w, o) && t in w.tables && ApiRole(r) && c in API_PRIVILEGES
    requires Reaches(w, expr, row, t, r, c)
    ensures TableExposed(o, t, r, c)
    ensures TableExposure(t.id, r, c, VerdictOf(o, t, r, c)) in AssessmentOf(o).exposures
  {
    AdmittedWhenVisible(w, o, expr, row, t, r, c);
    assert Truth(w, UsesSchema(t.id.schema, r));
    ExposureListed(o, t, r, c);
  }

  /** A refused optional read is a gap: it alone rules a NOT_EXPOSED verdict out. */
  lemma RefusedReadIsAGap(o: Observed, q: OptionalRead)
    requires q in o.refused
    ensures ReadAnswered(q) in AssessmentOf(o).gaps
    ensures AssessmentOf(o).verdict != NotExposedThroughAuditedPaths
  {
    hide ConsultedTables, ViewGaps, ParentGaps, RefusedGaps;
    assert OPTIONAL_READS[0] == DependentViewPrivileges && OPTIONAL_READS[1] == InheritanceParents
           && OPTIONAL_READS[2] == RealtimePublications;
    RefusalListed(o, OPTIONAL_READS, q);
  }

  lemma {:induction false} RefusalListed(o: Observed, qs: seq<OptionalRead>, q: OptionalRead)
    requires q in qs && q in o.refused
    ensures ReadAnswered(q) in RefusedGaps(o, qs)
  {
    if q != qs[|qs| - 1] {
      RefusalListed(o, qs[..|qs| - 1], q);
    }
  }

  /** The same for Realtime: whoever can receive a deleted row's key, or any row, is reported, unless the
      publications could not be read, which is then a gap; and "deleted keys only" is reported only when
      no row can be received. */
  lemma NoRealtimeEventIsHidden<Row(!new)>(w: World, o: Observed, expr: (Policy, Privilege, Row) -> bool, row: Row,
                                           t: Table, r: Role)
    requires Witnesses(w, o) && t in w.tables && ApiRole(r) && ReceivesDeletedKeys(w, t, r)
    ensures
      || RealtimeExposure(t.id, r, EventsOf(o, t, r)) in AssessmentOf(o).exposures
      || (RealtimePublications in o.refused && ReadAnswered(RealtimePublications) in AssessmentOf(o).gaps)
    ensures EventsOf(o, t, r) == DeletedKeysOnly ==> !ReceivesRow(w, expr, row, t, r)
  {
    assert API_PRIVILEGES[0] == Select;
    UsableWhenHeld(w, o, t, r, Select);
    if RealtimePublications in o.refused {
      RefusedReadIsAGap(o, RealtimePublications);
    } else {
      RealtimeListed(o, t, r);
    }
    if ReceivesRow(w, expr, row, t, r) {
      AdmittedWhenVisible(w, o, expr, row, t, r, Select);
    }
  }

  /** NO_PRIVILEGE, RLS_DENIES_ALL and the two "no schema usage" verdicts mean what they say. */
  lemma ClosedVerdictsAreClosed<Row(!new)>(w: World, o: Observed, expr: (Policy, Privilege, Row) -> bool, row: Row,
                                           t: Table, r: Role, c: Privilege)
    requires Witnesses(w, o) && t in w.tables && c in API_PRIVILEGES
    requires !VerdictOf(o, t, r, c).Open? && !VerdictOf(o, t, r, c).PolicyDecidesRows?
    ensures !Reaches(w, expr, row, t, r, c)
  {
    if Reaches(w, expr, row, t, r, c) {
      AdmittedWhenVisible(w, o, expr, row, t, r, c);
      assert Truth(w, UsesSchema(t.id.schema, r));
    }
  }

  /** A NOT_EXPOSED verdict: nothing of any audited table is reachable through an audited path. */
  lemma NotExposedMeansUnreachable<Row(!new)>(w: World, o: Observed, expr: (Policy, Privilege, Row) -> bool, row: Row,
                                              t: Table, r: Role, c: Privilege)
    requires Witnesses(w, o) && t in w.tables && ApiRole(r) && c in API_PRIVILEGES
    requires AssessmentOf(o).verdict == NotExposedThroughAuditedPaths
    ensures !Reaches(w, expr, row, t, r, c) && !ReceivesDeletedKeys(w, t, r)
    ensures AssessmentOf(o).gaps == {}
  {
    if Reaches(w, expr, row, t, r, c) {
      NoReachableRowIsHidden(w, o, expr, row, t, r, c);
    }
    if ReceivesDeletedKeys(w, t, r) {
      NoRealtimeEventIsHidden(w, o, expr, row, t, r);
    }
  }

  // ------------------------------------------------------------------ exactness, when every fact was returned

  predicate Complete(o: Observed) {
    ConsultedTables(o, o.tables) <= o.facts.Keys
  }

  lemma {:induction false} RoleFactsConsulted(o: Observed, ts: seq<Table>, t: Table, r: Role)
    requires t in ts
    ensures ConsultedRole(o, t, r) <= ConsultedTables(o, ts)
  {
    hide ConsultedRole;
    if t == ts[|ts| - 1] {
      assert API_ROLES == [Anon, Authenticated, ServiceRole];
      assert API_ROLES[..2] == [Anon, Authenticated];
      assert API_ROLES[..1] == [Anon];
      assert ConsultedRoles(o, t, API_ROLES) == ConsultedRoles(o, t, API_ROLES[..2]) + ConsultedRole(o, t, ServiceRole);
      assert API_ROLES[..2][..1] == API_ROLES[..1];
      assert ConsultedRoles(o, t, API_ROLES[..2]) == ConsultedRoles(o, t, API_ROLES[..1]) + ConsultedRole(o, t, Authenticated);
      assert ConsultedRoles(o, t, API_ROLES[..1]) == ConsultedRoles(o, t, []) + ConsultedRole(o, t, Anon);
    } else {
      RoleFactsConsulted(o, ts[..|ts| - 1], t, r);
    }
  }

  lemma {:induction false} PolicyFactsConsulted(o: Observed, t: Table, r: Role, cs: seq<Privilege>, c: Privilege)
    requires c in cs
    ensures ConsultedPolicies(o, t, r, c) <= ConsultedCommands(o, t, r, cs)
  {
    hide ConsultedPolicies;
    if c != cs[|cs| - 1] {
      PolicyFactsConsulted(o, t, r, cs[..|cs| - 1], c);
    }
  }

  lemma {:induction false} PolicyAsked(ps: seq<Policy>, p: Policy, t: TableId, r: Role, c: Privilege)
    requires p in ps && MayAdmit(p, t, c)
    ensures PolicyApplies(t, p.name, r) in AskedAmong(ps, t, r, c)
  {
    if p != ps[|ps| - 1] {
      PolicyAsked(ps[..|ps| - 1], p, t, r, c);
    }
  }

  /** With every consulted fact known, the facts about one role and table are the server's. */
  lemma KnownFacts(w: World, o: Observed, t: Table, r: Role, c: Privilege)
    requires Witnesses(w, o) && Complete(o) && t in w.tables && r in w.attributes && c in API_PRIVILEGES
    ensures Uses(o, t.id.schema, r) == HasUsage(w, t.id.schema, r)
    ensures Usable(o, t.id, r, c) == MayUseCommand(w, t.id, r, c)
    ensures Bypasses(o, t, r) == BypassesRowSecurity(w, t, r)
  {
    hide ConsultedTables, ConsultedCommands, ColumnsAmong;
    RoleFactsConsulted(o, o.tables, t, r);
    assert Holds(t.id, r, c) in ConsultedRole(o, t, r);
    assert UsesSchema(t.id.schema, r) in ConsultedRole(o, t, r);
    assert ActsAsOwner(t.id, r) in ConsultedRole(o, t, r);
    if Usable(o, t.id, r, c) && c !in Held(o, t.id, r) {
      ColumnBehind(o.columnOnly, t.id, r, c);
      var column :| ColumnRight(t.id, column, r, c) in o.columnOnly;
    }
    if MayUseCommand(w, t.id, r, c) {
      UsableWhenHeld(w, o, t, r, c);
    }
  }

  /** MAIN: no false alarm when no fact is missing. A command is reported exactly when some policy
      expressions make rows reachable with it. */
  lemma CompleteExposuresAreReal<Row(!new)>(w: World, o: Observed, row: Row, t: Table, r: Role, c: Privilege)
    requires Witnesses(w, o) && Complete(o) && t in w.tables && r in w.attributes && c in API_PRIVILEGES
    ensures TableExposed(o, t, r, c) <==> Reaches(w, (p, command, any: Row) => true, row, t, r, c)
  {
    var all := (p: Policy, command: Privilege, any: Row) => true;
    KnownFacts(w, o, t, r, c);
    if Reaches(w, all, row, t, r, c) {
      AdmittedWhenVisible(w, o, all, row, t, r, c);
    }
    if TableExposed(o, t, r, c) {
      AdmittedRowIsVisible(w, o, row, t, r, c);
    }
  }

  lemma AdmittedRowIsVisible<Row(!new)>(w: World, o: Observed, row: Row, t: Table, r: Role, c: Privilege)
    requires Witnesses(w, o) && Complete(o) && t in w.tables && r in w.attributes && c in API_PRIVILEGES
    requires AdmitsOf(o, t, r, c) != AdmitsNothing
    ensures RowVisible(w, (p, command, any: Row) => true, row, t, r, c)
  {
    if AdmitsOf(o, t, r, c).PolicyDecides? {
      AdmittingPolicyApplies(w, o, t, r, c);
    } else {
      KnownFacts(w, o, t, r, c);
    }
  }

  /** OPEN: row-level security filters nothing, whatever the policies say. */
  lemma OpenFiltersNothing<Row(!new)>(w: World, o: Observed, expr: (Policy, Privilege, Row) -> bool, row: Row,
                                      t: Table, r: Role, c: Privilege)
    requires Witnesses(w, o) && Complete(o) && t in w.tables && r in w.attributes && c in API_PRIVILEGES
    requires VerdictOf(o, t, r, c) == Open
    ensures Reaches(w, expr, row, t, r, c)
  {
    KnownFacts(w, o, t, r, c);
  }

  lemma AdmittingPolicyApplies(w: World, o: Observed, t: Table, r: Role, c: Privilege)
    requires Witnesses(w, o) && Complete(o) && t in w.tables && c in API_PRIVILEGES
    requires AdmitsOf(o, t, r, c).PolicyDecides?
    ensures exists p :: p in w.policies && p.permissive && Concerns(w, p, t.id, r, c)
  {
    var name :| name in Applicable(o, t.id, r, c);
    ApplicableBehind(o, o.policies, name, t.id, r, c);
    var p :| p in o.policies && p.name == name && MayAdmit(p, t.id, c) && Yes(o, PolicyApplies(t.id, name, r));
    RoleFactsConsulted(o, o.tables, t, r);
    PolicyFactsConsulted(o, t, r, API_PRIVILEGES, c);
    PolicyAsked(o.policies, p, t.id, r, c);
    assert PolicyApplies(t.id, name, r) in o.facts;
    assert Truth(w, PolicyApplies(t.id, name, r));
    assert Concerns(w, p, t.id, r, c);
  }
}
