/** The exposure assessment of scripts/audit_table_privileges.py.

    `Assess` is the source's imperative walk over the catalog facts; `AssessmentOf` is its value.
    AuditSemantics.dfy proves that value sound against PostgreSQL's own rules. */
module Audit {
  import opened Options

  datatype Role = Anon | Authenticated | ServiceRole
  datatype Privilege = Select | Insert | Update | Delete | Truncate | References | Trigger

  const API_ROLES: seq<Role> := [Anon, Authenticated, ServiceRole]
  const PRIVILEGES: seq<Privilege> := [Select, Insert, Update, Delete, Truncate, References, Trigger]
  const API_PRIVILEGES: seq<Privilege> := [Select, Insert, Update, Delete]
  const COLUMN_PRIVILEGES: seq<Privilege> := [Select, Insert, Update]

  datatype TableId = TableId(schema: string, name: string)
  datatype Table = Table(id: TableId, rls: bool, forced: bool)
  datatype Attributes = Attributes(superuser: bool, bypassRls: bool)

  datatype PolicyCommand = AllCommands | Only(command: Privilege)
  datatype Policy = Policy(table: TableId, name: string, permissive: bool, command: PolicyCommand) {
    predicate Covers(c: Privilege) {
      command == AllCommands || command == Only(c)
    }
  }

  /** One yes-or-no question the server answers. */
  datatype Fact =
    | Holds(table: TableId, role: Role, privilege: Privilege)
    | ActsAsOwner(table: TableId, role: Role)
    | UsesSchema(schema: string, role: Role)
    | PolicyApplies(table: TableId, policy: string, role: Role)
    | RelationHolds(relation: TableId, role: Role, privilege: Privilege)
    | ReadAnswered(read: OptionalRead)

  /** A read the audit survives losing, and must then call incomplete. */
  datatype OptionalRead = DependentViewPrivileges | InheritanceParents | RealtimePublications

  const OPTIONAL_READS: seq<OptionalRead> := [DependentViewPrivileges, InheritanceParents, RealtimePublications]

  datatype ColumnRight = ColumnRight(table: TableId, column: string, role: Role, privilege: Privilege)
  datatype Publication = Publication(name: string, table: TableId)
  datatype ViewRow = ViewRow(view: TableId, role: Role, privilege: Privilege, held: Option<bool>)
  datatype ParentRow = ParentRow(parent: TableId, child: TableId, role: Role, privilege: Privilege, held: Option<bool>)

  /** What the catalog reads returned. A fact absent from `facts` was not returned, or was NULL. */
  datatype Observed = Observed(
    roles: map<Role, Attributes>,
    tables: seq<Table>,
    facts: map<Fact, bool>,
    columnOnly: seq<ColumnRight>,
    policies: seq<Policy>,
    publications: seq<Publication>,
    views: seq<ViewRow>,
    parents: seq<ParentRow>,
    refused: set<OptionalRead>)

  datatype Admits = AdmitsNothing | AdmitsAll | PolicyDecides(names: set<string>)

  datatype Verdict =
    | NoPrivilege
    | RlsDeniesAll
    | Open
    | OpenButNoSchemaUsage
    | PolicyDecidesRows(names: set<string>)
    | PolicyDecidesButNoSchemaUsage

  /** `columns` names the columns when the privilege is held on columns only. */
  datatype CommandReport = CommandReport(verdict: Verdict, admits: Admits, columns: seq<string>)

  datatype RoleReport = RoleReport(
    held: set<Privilege>,
    actsAsOwner: bool,
    bypass: bool,
    usesSchema: bool,
    commands: map<Privilege, CommandReport>)

  datatype TableEntry = TableEntry(table: Table, roles: map<Role, RoleReport>)

  datatype ChangeEvents = EveryEvent | EventsThePolicyAdmits | DeletedKeysOnly

  datatype Exposure =
    | TableExposure(table: TableId, role: Role, command: Privilege, verdict: Verdict)
    | RealtimeExposure(table: TableId, role: Role, events: ChangeEvents)
    | ViewExposure(view: TableId, role: Role, privilege: Privilege)
    | ParentExposure(parent: TableId, child: TableId, role: Role, privilege: Privilege)

  datatype Overall = Exposed | Incomplete | NotExposedThroughAuditedPaths

  datatype Assessment = Assessment(
    entries: seq<TableEntry>,
    exposures: seq<Exposure>,
    gaps: set<Fact>,
    verdict: Overall)

  // ---------------------------------------------------------------- the value of an assessment

  /** A fact the server did not return is taken as the unsafe answer. */
  predicate Yes(o: Observed, f: Fact) {
    f !in o.facts || o.facts[f]
  }

  function Held(o: Observed, t: TableId, r: Role): set<Privilege> {
    if r in o.roles then set p | p in PRIVILEGES && Yes(o, Holds(t, r, p)) else {}
  }

  predicate Owns(o: Observed, t: TableId, r: Role) {
    r in o.roles && Yes(o, ActsAsOwner(t, r))
  }

  predicate Uses(o: Observed, schema: string, r: Role) {
    r in o.roles && Yes(o, UsesSchema(schema, r))
  }

  predicate Bypasses(o: Observed, t: Table, r: Role) {
    || (r in o.roles && (o.roles[r].bypassRls || o.roles[r].superuser))
    || (Owns(o, t.id, r) && !t.forced)
  }

  function ColumnsAmong(rows: seq<ColumnRight>, t: TableId, r: Role, c: Privilege): seq<string> {
    if rows == [] then []
    else
      var last := rows[|rows| - 1];
      ColumnsAmong(rows[..|rows| - 1], t, r, c) +
      if last.table == t && last.role == r && last.privilege == c then [last.column] else []
  }

  function Columns(o: Observed, t: TableId, r: Role, c: Privilege): seq<string> {
    ColumnsAmong(o.columnOnly, t, r, c)
  }

  predicate Usable(o: Observed, t: TableId, r: Role, c: Privilege) {
    c in Held(o, t, r) || Columns(o, t, r, c) != []
  }

  /** Only a PERMISSIVE policy of the table that covers the command is asked about. */
  predicate MayAdmit(p: Policy, t: TableId, c: Privilege) {
    p.table == t && p.permissive && p.Covers(c)
  }

  function ApplicableAmong(o: Observed, ps: seq<Policy>, t: TableId, r: Role, c: Privilege): set<string> {
    if ps == [] then {}
    else
      var p := ps[|ps| - 1];
      ApplicableAmong(o, ps[..|ps| - 1], t, r, c) +
      if MayAdmit(p, t, c) && Yes(o, PolicyApplies(t, p.name, r)) then {p.name} else {}
  }

  function Applicable(o: Observed, t: TableId, r: Role, c: Privilege): set<string> {
    ApplicableAmong(o, o.policies, t, r, c)
  }

  function AdmitsOf(o: Observed, t: Table, r: Role, c: Privilege): Admits {
    if !Usable(o, t.id, r, c) then AdmitsNothing
    else if !t.rls || Bypasses(o, t, r) then AdmitsAll
    else if Applicable(o, t.id, r, c) == {} then AdmitsNothing
    else PolicyDecides(Applicable(o, t.id, r, c))
  }

  function VerdictOf(o: Observed, t: Table, r: Role, c: Privilege): Verdict {
    if !Usable(o, t.id, r, c) then NoPrivilege
    else
      match AdmitsOf(o, t, r, c)
      case AdmitsNothing => RlsDeniesAll
      case AdmitsAll => if Uses(o, t.id.schema, r) then Open else OpenButNoSchemaUsage
      case PolicyDecides(names) =>
        if Uses(o, t.id.schema, r) then PolicyDecidesRows(names) else PolicyDecidesButNoSchemaUsage
  }

  function ReportOf(o: Observed, t: Table, r: Role, c: Privilege): CommandReport {
    CommandReport(
      VerdictOf(o, t, r, c),
      AdmitsOf(o, t, r, c),
      if c in Held(o, t.id, r) then [] else Columns(o, t.id, r, c))
  }

  function CommandReports(o: Observed, t: Table, r: Role, cs: seq<Privilege>): map<Privilege, CommandReport> {
    if cs == [] then map[]
    else CommandReports(o, t, r, cs[..|cs| - 1])[cs[|cs| - 1] := ReportOf(o, t, r, cs[|cs| - 1])]
  }

  function RoleReportOf(o: Observed, t: Table, r: Role): RoleReport {
    RoleReport(
      Held(o, t.id, r), Owns(o, t.id, r), Bypasses(o, t, r), Uses(o, t.id.schema, r),
      CommandReports(o, t, r, API_PRIVILEGES))
  }

  function RoleReports(o: Observed, t: Table, rs: seq<Role>): map<Role, RoleReport> {
    if rs == [] then map[]
    else RoleReports(o, t, rs[..|rs| - 1])[rs[|rs| - 1] := RoleReportOf(o, t, rs[|rs| - 1])]
  }

  function EntryOf(o: Observed, t: Table): TableEntry {
    TableEntry(t, RoleReports(o, t, API_ROLES))
  }

  function EntriesOf(o: Observed, ts: seq<Table>): seq<TableEntry> {
    seq(|ts|, i requires 0 <= i < |ts| => EntryOf(o, ts[i]))
  }

  function AskedAmong(ps: seq<Policy>, t: TableId, r: Role, c: Privilege): set<Fact> {
    if ps == [] then {}
    else
      var p := ps[|ps| - 1];
      AskedAmong(ps[..|ps| - 1], t, r, c) + if MayAdmit(p, t, c) then {PolicyApplies(t, p.name, r)} else {}
  }

  /** The policy facts consulted for one command: none unless rows are filtered. */
  function ConsultedPolicies(o: Observed, t: Table, r: Role, c: Privilege): set<Fact> {
    if !Usable(o, t.id, r, c) || !t.rls || Bypasses(o, t, r) then {}
    else AskedAmong(o.policies, t.id, r, c)
  }

  function ConsultedCommands(o: Observed, t: Table, r: Role, cs: seq<Privilege>): set<Fact> {
    if cs == [] then {}
    else ConsultedCommands(o, t, r, cs[..|cs| - 1]) + ConsultedPolicies(o, t, r, cs[|cs| - 1])
  }

  /** Every server fact the assessment of one role on one table looks up. */
  function ConsultedRole(o: Observed, t: Table, r: Role): set<Fact> {
    (if r !in o.roles then {}
     else (set p | p in PRIVILEGES :: Holds(t.id, r, p)) + {ActsAsOwner(t.id, r), UsesSchema(t.id.schema, r)})
    + ConsultedCommands(o, t, r, API_PRIVILEGES)
  }

  function ConsultedRoles(o: Observed, t: Table, rs: seq<Role>): set<Fact> {
    if rs == [] then {}
    else ConsultedRoles(o, t, rs[..|rs| - 1]) + ConsultedRole(o, t, rs[|rs| - 1])
  }

  function ConsultedTables(o: Observed, ts: seq<Table>): set<Fact> {
    if ts == [] then {}
    else ConsultedTables(o, ts[..|ts| - 1]) + ConsultedRoles(o, ts[|ts| - 1], API_ROLES)
  }

  function Missing(o: Observed, consulted: set<Fact>): set<Fact> {
    consulted - o.facts.Keys
  }

  function ViewGaps(rows: seq<ViewRow>): set<Fact> {
    if rows == [] then {}
    else
      var v := rows[|rows| - 1];
      ViewGaps(rows[..|rows| - 1]) + if v.held == None then {RelationHolds(v.view, v.role, v.privilege)} else {}
  }

  function ParentGaps(rows: seq<ParentRow>): set<Fact> {
    if rows == [] then {}
    else
      var v := rows[|rows| - 1];
      ParentGaps(rows[..|rows| - 1]) + if v.held == None then {RelationHolds(v.parent, v.role, v.privilege)} else {}
  }

  function RefusedGaps(o: Observed, qs: seq<OptionalRead>): set<Fact> {
    if qs == [] then {}
    else
      var q := qs[|qs| - 1];
      RefusedGaps(o, qs[..|qs| - 1]) + if q in o.refused then {ReadAnswered(q)} else {}
  }

  function GapsOf(o: Observed): set<Fact> {
    RefusedGaps(o, OPTIONAL_READS) + Missing(o, ConsultedTables(o, o.tables))
    + ViewGaps(o.views) + ParentGaps(o.parents)
  }

  predicate TableExposed(o: Observed, t: Table, r: Role, c: Privilege) {
    AdmitsOf(o, t, r, c) != AdmitsNothing && Uses(o, t.id.schema, r)
  }

  function CommandsExposures(o: Observed, t: Table, r: Role, cs: seq<Privilege>): seq<Exposure> {
    if cs == [] then []
    else
      var c := cs[|cs| - 1];
      CommandsExposures(o, t, r, cs[..|cs| - 1]) +
      if TableExposed(o, t, r, c) then [TableExposure(t.id, r, c, VerdictOf(o, t, r, c))] else []
  }

  predicate Published(o: Observed, t: TableId) {
    exists p :: p in o.publications && p.table == t
  }

  function EventsOf(o: Observed, t: Table, r: Role): ChangeEvents {
    match AdmitsOf(o, t, r, Select)
    case AdmitsAll => EveryEvent
    case PolicyDecides(_) => EventsThePolicyAdmits
    case AdmitsNothing => DeletedKeysOnly
  }

  function RealtimeExposures(o: Observed, t: Table, r: Role): seq<Exposure> {
    if Published(o, t.id) && Usable(o, t.id, r, Select)
    then [RealtimeExposure(t.id, r, EventsOf(o, t, r))] else []
  }

  function RoleExposures(o: Observed, t: Table, r: Role): seq<Exposure> {
    if r == ServiceRole then []
    else CommandsExposures(o, t, r, API_PRIVILEGES) + RealtimeExposures(o, t, r)
  }

  function RolesExposures(o: Observed, t: Table, rs: seq<Role>): seq<Exposure> {
    if rs == [] then []
    else RolesExposures(o, t, rs[..|rs| - 1]) + RoleExposures(o, t, rs[|rs| - 1])
  }

  function TablesExposures(o: Observed, ts: seq<Table>): seq<Exposure> {
    if ts == [] then []
    else TablesExposures(o, ts[..|ts| - 1]) + RolesExposures(o, ts[|ts| - 1], API_ROLES)
  }

  function ViewExposures(rows: seq<ViewRow>): seq<Exposure> {
    if rows == [] then []
    else
      var v := rows[|rows| - 1];
      ViewExposures(rows[..|rows| - 1]) +
      if v.held != Some(false) && v.role != ServiceRole then [ViewExposure(v.view, v.role, v.privilege)] else []
  }

  function ParentExposures(rows: seq<ParentRow>): seq<Exposure> {
    if rows == [] then []
    else
      var v := rows[|rows| - 1];
      ParentExposures(rows[..|rows| - 1]) +
      if v.held != Some(false) && v.role != ServiceRole
      then [ParentExposure(v.parent, v.child, v.role, v.privilege)] else []
  }

  function ExposuresOf(o: Observed): seq<Exposure> {
    TablesExposures(o, o.tables) + ViewExposures(o.views) + ParentExposures(o.parents)
  }

  function OverallOf(exposures: seq<Exposure>, gaps: set<Fact>): Overall {
    if exposures != [] then Exposed
    else if gaps != {} then Incomplete
    else NotExposedThroughAuditedPaths
  }

  function AssessmentOf(o: Observed): Assessment {
    Assessment(EntriesOf(o, o.tables), ExposuresOf(o), GapsOf(o), OverallOf(ExposuresOf(o), GapsOf(o)))
  }

  // ---------------------------------------------------------------- the walk over the facts

  lemma SelectIsAsked()
    ensures Select in API_PRIVILEGES
  {
    assert API_PRIVILEGES[0] == Select;
  }

  lemma MissingUnion(o: Observed, a: set<Fact>, b: set<Fact>)
    ensures Missing(o, a + b) == Missing(o, a) + Missing(o, b)
    ensures Missing(o, {}) == {}
  {
  }

  lemma CommandReported(o: Observed, t: Table, r: Role, cs: seq<Privilege>, c: Privilege)
    requires c in cs
    ensures c in CommandReports(o, t, r, cs) && CommandReports(o, t, r, cs)[c] == ReportOf(o, t, r, c)
  {
    if c != cs[|cs| - 1] {
      CommandReported(o, t, r, cs[..|cs| - 1], c);
    }
  }

  lemma RoleReported(o: Observed, t: Table, rs: seq<Role>, r: Role)
    requires r in rs
    ensures r in RoleReports(o, t, rs) && RoleReports(o, t, rs)[r] == RoleReportOf(o, t, r)
  {
    if r != rs[|rs| - 1] {
      RoleReported(o, t, rs[..|rs| - 1], r);
    }
  }

  /** The source's inner `known`: a missing fact is recorded and answered unsafely. */
  method Known(o: Observed, f: Fact, gaps: set<Fact>) returns (value: bool, gaps': set<Fact>)
    ensures value == Yes(o, f)
    ensures gaps' == gaps + Missing(o, {f})
  {
    if f !in o.facts {
      return true, gaps + {f};
    }
    return o.facts[f], gaps;
  }

  method HeldPrivileges(o: Observed, t: TableId, r: Role, gaps: set<Fact>)
    returns (held: set<Privilege>, gaps': set<Fact>)
    requires r in o.roles
    ensures held == Held(o, t, r)
    ensures gaps' == gaps + Missing(o, set p | p in PRIVILEGES :: Holds(t, r, p))
  {
    held, gaps' := {}, gaps;
    for i := 0 to |PRIVILEGES|
      invariant held == set p | p in PRIVILEGES[..i] && Yes(o, Holds(t, r, p))
      invariant gaps' == gaps + Missing(o, set p | p in PRIVILEGES[..i] :: Holds(t, r, p))
    {
      var yes;
      yes, gaps' := Known(o, Holds(t, r, PRIVILEGES[i]), gaps');
      if yes {
        held := held + {PRIVILEGES[i]};
      }
      assert PRIVILEGES[..i + 1] == PRIVILEGES[..i] + [PRIVILEGES[i]];
    }
    assert PRIVILEGES[..|PRIVILEGES|] == PRIVILEGES;
  }

  method ApplicablePolicies(o: Observed, t: TableId, r: Role, c: Privilege, gaps: set<Fact>)
    returns (names: set<string>, gaps': set<Fact>)
    ensures names == Applicable(o, t, r, c)
    ensures gaps' == gaps + Missing(o, AskedAmong(o.policies, t, r, c))
  {
    hide Missing, MayAdmit, Yes;
    names, gaps' := {}, gaps;
    MissingUnion(o, {}, {});
    for i := 0 to |o.policies|
      invariant names == ApplicableAmong(o, o.policies[..i], t, r, c)
      invariant gaps' == gaps + Missing(o, AskedAmong(o.policies[..i], t, r, c))
    {
      var p := o.policies[i];
      MissingUnion(o, AskedAmong(o.policies[..i], t, r, c), {PolicyApplies(t, p.name, r)});
      if MayAdmit(p, t, c) {
        var yes;
        yes, gaps' := Known(o, PolicyApplies(t, p.name, r), gaps');
        if yes {
          names := names + {p.name};
        }
      }
      assert o.policies[..i + 1][..i] == o.policies[..i];
      assert AskedAmong(o.policies[..i + 1], t, r, c) ==
        AskedAmong(o.policies[..i], t, r, c) + if MayAdmit(p, t, c) then {PolicyApplies(t, p.name, r)} else {};
      assert AskedAmong(o.policies[..i], t, r, c) + {} == AskedAmong(o.policies[..i], t, r, c);
    }
    assert o.policies[..|o.policies|] == o.policies;
  }

  method ColumnsHeld(o: Observed, t: TableId, r: Role, c: Privilege) returns (columns: seq<string>)
    ensures columns == Columns(o, t, r, c)
  {
    columns := [];
    for i := 0 to |o.columnOnly|
      invariant columns == ColumnsAmong(o.columnOnly[..i], t, r, c)
    {
      var row := o.columnOnly[i];
      if row.table == t && row.role == r && row.privilege == c {
        columns := columns + [row.column];
      }
      assert o.columnOnly[..i + 1][..i] == o.columnOnly[..i];
    }
    assert o.columnOnly[..|o.columnOnly|] == o.columnOnly;
  }

  /** The body of the source's loop over the four API commands. */
  method AssessCommand(o: Observed, t: Table, r: Role, c: Privilege, held: set<Privilege>, bypass: bool,
                       usesSchema: bool, gaps: set<Fact>)
    returns (report: CommandReport, gaps': set<Fact>)
    requires held == Held(o, t.id, r) && bypass == Bypasses(o, t, r) && usesSchema == Uses(o, t.id.schema, r)
    ensures report == ReportOf(o, t, r, c)
    ensures gaps' == gaps + Missing(o, ConsultedPolicies(o, t, r, c))
  {
    hide Held, Bypasses, Uses, Columns, Applicable, AskedAmong, Missing;
    MissingUnion(o, {}, {});
    gaps' := gaps;
    var columns := ColumnsHeld(o, t.id, r, c);
    if c !in held && columns == [] {
      return CommandReport(NoPrivilege, AdmitsNothing, []), gaps';
    }
    var admits;
    if !t.rls || bypass {
      admits := AdmitsAll;
    } else {
      var names;
      names, gaps' := ApplicablePolicies(o, t.id, r, c, gaps');
      admits := if names == {} then AdmitsNothing else PolicyDecides(names);
    }
    var verdict :=
      if admits == AdmitsNothing then RlsDeniesAll
      else if usesSchema then (if admits == AdmitsAll then Open else PolicyDecidesRows(admits.names))
      else if admits == AdmitsAll then OpenButNoSchemaUsage
      else PolicyDecidesButNoSchemaUsage;
    report := CommandReport(verdict, admits, if c in held then [] else columns);
  }

  method AssessCommands(o: Observed, t: Table, r: Role, cs: seq<Privilege>, held: set<Privilege>, bypass: bool,
                        usesSchema: bool, gaps: set<Fact>)
    returns (commands: map<Privilege, CommandReport>, gaps': set<Fact>)
    requires held == Held(o, t.id, r) && bypass == Bypasses(o, t, r) && usesSchema == Uses(o, t.id.schema, r)
    ensures commands == CommandReports(o, t, r, cs)
    ensures gaps' == gaps + Missing(o, ConsultedCommands(o, t, r, cs))
  {
    gaps', commands := gaps, map[];
    for j := 0 to |cs|
      invariant commands == CommandReports(o, t, r, cs[..j])
      invariant gaps' == gaps + Missing(o, ConsultedCommands(o, t, r, cs[..j]))
    {
      var one;
      one, gaps' := AssessCommand(o, t, r, cs[j], held, bypass, usesSchema, gaps');
      commands := commands[cs[j] := one];
      assert cs[..j + 1][..j] == cs[..j];
    }
    assert cs[..|cs|] == cs;
  }

  method AssessRole(o: Observed, t: Table, r: Role, published: bool, gaps: set<Fact>, exposures: seq<Exposure>)
    returns (report: RoleReport, gaps': set<Fact>, exposures': seq<Exposure>)
    requires published == Published(o, t.id)
    ensures report == RoleReportOf(o, t, r)
    ensures gaps' == gaps + Missing(o, ConsultedRole(o, t, r))
    ensures exposures' == exposures + RoleExposures(o, t, r)
  {
    hide Yes, ConsultedCommands, CommandReports, CommandsExposures, RealtimeExposures;
    gaps' := gaps;
    var held: set<Privilege>, owner, uses := {}, false, false;
    if r in o.roles {
      held, gaps' := HeldPrivileges(o, t.id, r, gaps');
      owner, gaps' := Known(o, ActsAsOwner(t.id, r), gaps');
      uses, gaps' := Known(o, UsesSchema(t.id.schema, r), gaps');
    }
    var bypass := (r in o.roles && (o.roles[r].bypassRls || o.roles[r].superuser)) || (owner && !t.forced);
    var commands;
    commands, gaps' := AssessCommands(o, t, r, API_PRIVILEGES, held, bypass, uses, gaps');
    report := RoleReport(held, owner, bypass, uses, commands);
    exposures' := exposures;
    if r != ServiceRole {
      exposures' := ExposeCommands(o, t, r, API_PRIVILEGES, report, exposures);
      exposures' := ExposeRealtime(o, t, r, report, published, exposures');
    }
  }

  /** One exposure line per command the role can reach rows with. */
  method ExposeCommands(o: Observed, t: Table, r: Role, cs: seq<Privilege>, report: RoleReport, exposures: seq<Exposure>)
    returns (exposures': seq<Exposure>)
    requires report.usesSchema == Uses(o, t.id.schema, r) && report.commands == CommandReports(o, t, r, cs)
    ensures exposures' == exposures + CommandsExposures(o, t, r, cs)
  {
    hide Usable, Held, Bypasses, Applicable, Uses, CommandReports;
    exposures' := exposures;
    for j := 0 to |cs|
      invariant exposures' == exposures + CommandsExposures(o, t, r, cs[..j])
    {
      var c := cs[j];
      CommandReported(o, t, r, cs, c);
      if report.commands[c].admits != AdmitsNothing && report.usesSchema {
        exposures' := exposures' + [TableExposure(t.id, r, c, report.commands[c].verdict)];
      }
      assert cs[..j + 1][..j] == cs[..j];
    }
    assert cs[..|cs|] == cs;
  }

  /** Realtime needs neither USAGE nor a served schema, only SELECT on the table or a column. */
  method ExposeRealtime(o: Observed, t: Table, r: Role, report: RoleReport, published: bool, exposures: seq<Exposure>)
    returns (exposures': seq<Exposure>)
    requires report == RoleReportOf(o, t, r) && published == Published(o, t.id)
    ensures exposures' == exposures + RealtimeExposures(o, t, r)
  {
    SelectIsAsked();
    CommandReported(o, t, r, API_PRIVILEGES, Select);
    exposures' := exposures;
    if published && (Select in report.held || report.commands[Select].columns != []) {
      var events :=
        match report.commands[Select].admits
        case AdmitsAll => EveryEvent
        case PolicyDecides(_) => EventsThePolicyAdmits
        case AdmitsNothing => DeletedKeysOnly;
      exposures' := exposures' + [RealtimeExposure(t.id, r, events)];
    }
  }

  method PublicationsOf(o: Observed, t: TableId) returns (names: seq<string>)
    ensures names != [] <==> Published(o, t)
  {
    names := [];
    for i := 0 to |o.publications|
      invariant names != [] <==> exists k :: 0 <= k < i && o.publications[k].table == t
    {
      if o.publications[i].table == t {
        names := names + [o.publications[i].name];
      }
    }
  }

  method AssessTable(o: Observed, t: Table, gaps: set<Fact>, exposures: seq<Exposure>)
    returns (entry: TableEntry, gaps': set<Fact>, exposures': seq<Exposure>)
    ensures entry == EntryOf(o, t)
    ensures gaps' == gaps + Missing(o, ConsultedRoles(o, t, API_ROLES))
    ensures exposures' == exposures + RolesExposures(o, t, API_ROLES)
  {
    hide RoleReportOf, ConsultedRole, RoleExposures, Missing, Published;
    MissingUnion(o, {}, {});
    var names := PublicationsOf(o, t.id);
    gaps', exposures' := gaps, exposures;
    var roles: map<Role, RoleReport> := map[];
    for j := 0 to |API_ROLES|
      invariant roles == RoleReports(o, t, API_ROLES[..j])
      invariant gaps' == gaps + Missing(o, ConsultedRoles(o, t, API_ROLES[..j]))
      invariant exposures' == exposures + RolesExposures(o, t, API_ROLES[..j])
    {
      var r := API_ROLES[j];
      var report;
      MissingUnion(o, ConsultedRoles(o, t, API_ROLES[..j]), ConsultedRole(o, t, r));
      report, gaps', exposures' := AssessRole(o, t, r, names != [], gaps', exposures');
      roles := roles[r := report];
      assert API_ROLES[..j + 1][..j] == API_ROLES[..j];
    }
    assert API_ROLES[..|API_ROLES|] == API_ROLES;
    entry := TableEntry(t, roles);
  }

  /** Every table, then the indirect paths: what the audit reports is exactly `AssessmentOf`. */
  method Assess(o: Observed) returns (a: Assessment)
    ensures a == AssessmentOf(o)
  {
    hide EntryOf, ConsultedRoles, RolesExposures, RefusedGaps, ViewGaps, ParentGaps, ViewExposures, ParentExposures, Missing;
    MissingUnion(o, {}, {});
    var gaps := RefusedReads(o);
    ghost var refused := gaps;
    var exposures: seq<Exposure> := [];
    var entries: seq<TableEntry> := [];
    for i := 0 to |o.tables|
      invariant entries == EntriesOf(o, o.tables[..i])
      invariant gaps == refused + Missing(o, ConsultedTables(o, o.tables[..i]))
      invariant exposures == TablesExposures(o, o.tables[..i])
    {
      var entry;
      MissingUnion(o, ConsultedTables(o, o.tables[..i]), ConsultedRoles(o, o.tables[i], API_ROLES));
      entry, gaps, exposures := AssessTable(o, o.tables[i], gaps, exposures);
      entries := entries + [entry];
      assert o.tables[..i + 1][..i] == o.tables[..i];
    }
    assert o.tables[..|o.tables|] == o.tables;
    gaps, exposures := AssessViews(o.views, gaps, exposures);
    gaps, exposures := AssessParents(o.parents, gaps, exposures);
    var overall;
    if exposures != [] {
      overall := Exposed;
    } else if gaps != {} {
      overall := Incomplete;
    } else {
      overall := NotExposedThroughAuditedPaths;
    }
    a := Assessment(entries, exposures, gaps, overall);
  }

  method RefusedReads(o: Observed) returns (gaps: set<Fact>)
    ensures gaps == RefusedGaps(o, OPTIONAL_READS)
  {
    gaps := {};
    for i := 0 to |OPTIONAL_READS|
      invariant gaps == RefusedGaps(o, OPTIONAL_READS[..i])
    {
      if OPTIONAL_READS[i] in o.refused {
        gaps := gaps + {ReadAnswered(OPTIONAL_READS[i])};
      }
      assert OPTIONAL_READS[..i + 1][..i] == OPTIONAL_READS[..i];
    }
    assert OPTIONAL_READS[..|OPTIONAL_READS|] == OPTIONAL_READS;
  }

  method AssessViews(views: seq<ViewRow>, gaps: set<Fact>, exposures: seq<Exposure>)
    returns (gaps': set<Fact>, exposures': seq<Exposure>)
    ensures gaps' == gaps + ViewGaps(views)
    ensures exposures' == exposures + ViewExposures(views)
  {
    gaps', exposures' := gaps, exposures;
    for i := 0 to |views|
      invariant gaps' == gaps + ViewGaps(views[..i])
      invariant exposures' == exposures + ViewExposures(views[..i])
    {
      var v := views[i];
      if v.held == None {
        gaps' := gaps' + {RelationHolds(v.view, v.role, v.privilege)};
      }
      if v.held != Some(false) && v.role != ServiceRole {
        exposures' := exposures' + [ViewExposure(v.view, v.role, v.privilege)];
      }
      assert views[..i + 1][..i] == views[..i];
    }
    assert views[..|views|] == views;
  }

  method AssessParents(parents: seq<ParentRow>, gaps: set<Fact>, exposures: seq<Exposure>)
    returns (gaps': set<Fact>, exposures': seq<Exposure>)
    ensures gaps' == gaps + ParentGaps(parents)
    ensures exposures' == exposures + ParentExposures(parents)
  {
    gaps', exposures' := gaps, exposures;
    for i := 0 to |parents|
      invariant gaps' == gaps + ParentGaps(parents[..i])
      invariant exposures' == exposures + ParentExposures(parents[..i])
    {
      var v := parents[i];
      if v.held == None {
        gaps' := gaps' + {RelationHolds(v.parent, v.role, v.privilege)};
      }
      if v.held != Some(false) && v.role != ServiceRole {
        exposures' := exposures' + [ParentExposure(v.parent, v.child, v.role, v.privilege)];
      }
      assert parents[..i + 1][..i] == parents[..i];
    }
    assert parents[..|parents|] == parents;
  }
}
