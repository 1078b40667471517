/** What an assessment says, fact by fact: when each line, each verdict and each gap is given. */
module AuditMeaning {
  import opened Options
  import opened Audit
  import opened AuditSemantics
  import opened Filters

  // ------------------------------------------------------------------ the facts, as they were returned

  /** The server said no. */
  predicate Refuted(o: Observed, f: Fact) {
    f in o.facts && o.facts[f] == false
  }

  ghost predicate OnSomeColumn(o: Observed, t: TableId, r: Role, c: Privilege) {
    exists column :: ColumnRight(t, column, r, c) in o.columnOnly
  }

  /** The role exists and was not denied the privilege, or it holds it on a column. */
  ghost predicate MayUse(o: Observed, t: TableId, r: Role, c: Privilege) {
    (r in o.roles && !Refuted(o, Holds(t, r, c))) || OnSomeColumn(o, t, r, c)
  }

  /** Row-level security is off, or does not filter the role: BYPASSRLS, superuser, or acting as the owner
      of a table that does not force it. */
  predicate Unfiltered(o: Observed, t: Table, r: Role) {
    || !t.rls
    || (r in o.roles && (o.roles[r].bypassRls || o.roles[r].superuser || (!t.forced && !Refuted(o, ActsAsOwner(t.id, r)))))
  }

  /** A permissive policy of the table, for the command or for all. */
  predicate CouldAdmit(p: Policy, t: TableId, c: Privilege) {
    p.table == t && p.permissive && p.command in {AllCommands, Only(c)}
  }

  /** And it was not said not to apply. */
  ghost predicate Decides(o: Observed, t: TableId, r: Role, c: Privilege, name: string) {
    exists p :: p in o.policies && p.name == name && CouldAdmit(p, t, c) && !Refuted(o, PolicyApplies(t, name, r))
  }

  predicate InSchema(o: Observed, t: TableId, r: Role) {
    r in o.roles && !Refuted(o, UsesSchema(t.schema, r))
  }

  predicate OfApi(r: Role) {
    r != ServiceRole
  }

  // ------------------------------------------------------------------ verdicts

  lemma ColumnsListed(rows: seq<ColumnRight>, t: TableId, r: Role, c: Privilege)
    ensures ColumnsAmong(rows, t, r, c) != [] <==> exists column :: ColumnRight(t, column, r, c) in rows
  {
    if column :| ColumnRight(t, column, r, c) in rows {
      ColumnListed(rows, ColumnRight(t, column, r, c));
    }
    if ColumnsAmong(rows, t, r, c) != [] {
      ColumnBehind(rows, t, r, c);
    }
  }

  lemma UsableMeans(o: Observed, t: TableId, r: Role, c: Privilege)
    requires c in API_PRIVILEGES
    ensures Usable(o, t, r, c) <==> MayUse(o, t, r, c)
  {
    ColumnsListed(o.columnOnly, t, r, c);
    hide ColumnsAmong;
    AllAreListed(c);
  }

  lemma AllAreListed(c: Privilege)
    ensures c in PRIVILEGES
    ensures c in API_PRIVILEGES <==> c in {Select, Insert, Update, Delete}
  {
    assert PRIVILEGES[0] == Select && PRIVILEGES[1] == Insert && PRIVILEGES[2] == Update && PRIVILEGES[3] == Delete;
    assert PRIVILEGES[4] == Truncate && PRIVILEGES[5] == References && PRIVILEGES[6] == Trigger;
    assert API_PRIVILEGES[0] == Select && API_PRIVILEGES[1] == Insert && API_PRIVILEGES[2] == Update && API_PRIVILEGES[3] == Delete;
  }

  lemma {:induction false} ApplicableMeans(o: Observed, ps: seq<Policy>, t: TableId, r: Role, c: Privilege, name: string)
    ensures name in ApplicableAmong(o, ps, t, r, c) <==>
      exists p :: p in ps && p.name == name && CouldAdmit(p, t, c) && !Refuted(o, PolicyApplies(t, name, r))
  {
    if ps != [] {
      var n := |ps| - 1;
      ApplicableMeans(o, ps[..n], t, r, c, name);
      assert MayAdmit(ps[n], t, c) <==> CouldAdmit(ps[n], t, c);
      hide MayAdmit, CouldAdmit;
      assert forall p :: p in ps <==> p in ps[..n] || p == ps[n] by {
        assert ps == ps[..n] + [ps[n]];
      }
    }
  }

  /** MAIN: when each verdict is given, and which policies it names. */
  lemma VerdictMeans(o: Observed, t: Table, r: Role, c: Privilege)
    requires c in API_PRIVILEGES
    ensures var v := VerdictOf(o, t, r, c);
      var policies := exists name :: Decides(o, t.id, r, c, name);
      && (v == NoPrivilege <==> !MayUse(o, t.id, r, c))
      && (v == RlsDeniesAll <==> MayUse(o, t.id, r, c) && !Unfiltered(o, t, r) && !policies)
      && (v == Open <==> MayUse(o, t.id, r, c) && Unfiltered(o, t, r) && InSchema(o, t.id, r))
      && (v == OpenButNoSchemaUsage <==> MayUse(o, t.id, r, c) && Unfiltered(o, t, r) && !InSchema(o, t.id, r))
      && (v.PolicyDecidesRows? <==> MayUse(o, t.id, r, c) && !Unfiltered(o, t, r) && policies && InSchema(o, t.id, r))
      && (v == PolicyDecidesButNoSchemaUsage <==> MayUse(o, t.id, r, c) && !Unfiltered(o, t, r) && policies && !InSchema(o, t.id, r))
      && (v.PolicyDecidesRows? ==> forall name :: name in v.names <==> Decides(o, t.id, r, c, name))
  {
    AdmitsMeans(o, t, r, c);
    hide MayUse, Unfiltered, Decides, Usable, Bypasses, Applicable;
    UsesMeans(o, t.id, r);
  }

  lemma UsesMeans(o: Observed, t: TableId, r: Role)
    ensures Uses(o, t.schema, r) <==> InSchema(o, t, r)
  {
  }

  lemma AdmitsMeans(o: Observed, t: Table, r: Role, c: Privilege)
    requires c in API_PRIVILEGES
    ensures var a := AdmitsOf(o, t, r, c);
      var policies := exists name :: Decides(o, t.id, r, c, name);
      && (Usable(o, t.id, r, c) <==> MayUse(o, t.id, r, c))
      && (a == AdmitsAll <==> MayUse(o, t.id, r, c) && Unfiltered(o, t, r))
      && (a.PolicyDecides? <==> MayUse(o, t.id, r, c) && !Unfiltered(o, t, r) && policies)
      && (a.PolicyDecides? ==> forall name :: name in a.names <==> Decides(o, t.id, r, c, name))
  {
    UsableMeans(o, t.id, r, c);
    BypassMeans(o, t, r);
    hide MayUse, Usable, Unfiltered, Bypasses;
    forall name ensures name in Applicable(o, t.id, r, c) <==> Decides(o, t.id, r, c, name) {
      ApplicableMeans(o, o.policies, t.id, r, c, name);
    }
    hide Applicable, Decides;
    assert Applicable(o, t.id, r, c) == {} <==> forall name :: name !in Applicable(o, t.id, r, c);
  }

  lemma BypassMeans(o: Observed, t: Table, r: Role)
    ensures !t.rls || Bypasses(o, t, r) <==> Unfiltered(o, t, r)
  {
  }

  // ------------------------------------------------------------------ lines

  /** A command that reaches rows through the Data API, or may. */
  ghost predicate Reachable(o: Observed, t: Table, r: Role, c: Privilege) {
    && OfApi(r) && c in {Select, Insert, Update, Delete}
    && MayUse(o, t.id, r, c) && InSchema(o, t.id, r)
    && (Unfiltered(o, t, r) || exists name :: Decides(o, t.id, r, c, name))
  }

  ghost predicate TableLine(o: Observed, e: Exposure, t: Table) {
    && e.TableExposure? && e.table == t.id && Reachable(o, t, e.role, e.command)
    && e.verdict == VerdictOf(o, t, e.role, e.command)
  }

  /** Every event where rows are not filtered, the admitted ones where policies decide, else deleted keys. */
  ghost predicate EventLine(o: Observed, e: Exposure, t: Table) {
    && e.RealtimeExposure? && e.table == t.id && OfApi(e.role)
    && MayUse(o, t.id, e.role, Select) && (exists p :: p in o.publications && p.table == t.id)
    && (e.events == EveryEvent <==> Unfiltered(o, t, e.role))
    && (e.events == EventsThePolicyAdmits <==> !Unfiltered(o, t, e.role) && exists name :: Decides(o, t.id, e.role, Select, name))
  }

  ghost predicate ViewLine(o: Observed, e: Exposure) {
    && e.ViewExposure? && OfApi(e.role)
    && exists row :: row in o.views && row.view == e.view && row.role == e.role && row.privilege == e.privilege && row.held != Some(false)
  }

  ghost predicate ParentLine(o: Observed, e: Exposure) {
    && e.ParentExposure? && OfApi(e.role)
    && exists row :: row in o.parents && row.parent == e.parent && row.child == e.child && row.role == e.role
         && row.privilege == e.privilege && row.held != Some(false)
  }

  lemma {:induction false} ViewLines(rows: seq<ViewRow>, e: Exposure)
    ensures e in ViewExposures(rows) <==>
      && e.ViewExposure? && OfApi(e.role)
      && exists row :: row in rows && row.view == e.view && row.role == e.role && row.privilege == e.privilege && row.held != Some(false)
  {
    if rows != [] {
      var n := |rows| - 1;
      ViewLines(rows[..n], e);
      assert forall row :: row in rows <==> row in rows[..n] || row == rows[n] by {
        assert rows == rows[..n] + [rows[n]];
      }
    }
  }

  lemma {:induction false} ParentLines(rows: seq<ParentRow>, e: Exposure)
    ensures e in ParentExposures(rows) <==>
      && e.ParentExposure? && OfApi(e.role)
      && exists row :: row in rows && row.parent == e.parent && row.child == e.child && row.role == e.role
           && row.privilege == e.privilege && row.held != Some(false)
  {
    if rows != [] {
      var n := |rows| - 1;
      ParentLines(rows[..n], e);
      assert forall row :: row in rows <==> row in rows[..n] || row == rows[n] by {
        assert rows == rows[..n] + [rows[n]];
      }
    }
  }

  lemma CommandLines(o: Observed, t: Table, r: Role, e: Exposure)
    requires OfApi(r)
    ensures e in CommandsExposures(o, t, r, API_PRIVILEGES) <==> TableLine(o, e, t) && e.role == r
  {
    CommandLine(o, t, r, API_PRIVILEGES, e);
    if e.TableExposure? {
      AllAreListed(e.command);
      if e.command in API_PRIVILEGES {
        AdmitsMeans(o, t, r, e.command);
        UsesMeans(o, t.id, r);
      }
    }
    hide MayUse, Unfiltered, Decides, Usable, VerdictOf, AdmitsOf, Uses, InSchema, CommandsExposures;
  }

  lemma EventLines(o: Observed, t: Table, r: Role, e: Exposure)
    requires OfApi(r)
    ensures e in RealtimeExposures(o, t, r) <==> EventLine(o, e, t) && e.role == r
  {
    AllAreListed(Select);
    AdmitsMeans(o, t, r, Select);
    hide MayUse, Unfiltered, Decides, Usable, AdmitsOf;
    EventsMean(o, t, r);
    if e.RealtimeExposure? {
      OneEvent(e.events, EventsOf(o, t, r));
    }
    hide EventsOf;
  }

  lemma EventsMean(o: Observed, t: Table, r: Role)
    ensures EventsOf(o, t, r) == EveryEvent <==> AdmitsOf(o, t, r, Select) == AdmitsAll
    ensures EventsOf(o, t, r) == EventsThePolicyAdmits <==> AdmitsOf(o, t, r, Select).PolicyDecides?
  {
  }

  lemma OneEvent(a: ChangeEvents, b: ChangeEvents)
    ensures a == b <==> (a == EveryEvent <==> b == EveryEvent) && (a == EventsThePolicyAdmits <==> b == EventsThePolicyAdmits)
  {
  }

  lemma TableOrEvent(o: Observed, t: Table, e: Exposure)
    ensures OnTable(o, t, e) <==> TableLine(o, e, t) || EventLine(o, e, t)
  {
    RoleLines(o, t, API_ROLES, e);
    hide TableLine, EventLine, CommandsExposures, RealtimeExposures;
    forall r ensures r in API_ROLES && (e in RoleExposures(o, t, r) <==>
      OfApi(r) && ((TableLine(o, e, t) && e.role == r) || (EventLine(o, e, t) && e.role == r)))
    {
      ApiRolesListed(r);
      if OfApi(r) {
        CommandLines(o, t, r, e);
        EventLines(o, t, r, e);
      }
    }
    LineHasARole(o, e, t);
    hide RoleExposures;
  }

  lemma LineHasARole(o: Observed, e: Exposure, t: Table)
    ensures TableLine(o, e, t) || EventLine(o, e, t) ==> (e.TableExposure? || e.RealtimeExposure?) && OfApi(e.role)
  {
  }

  /** MAIN: exactly these lines. */
  lemma ExposuresAre(o: Observed, e: Exposure)
    ensures e in AssessmentOf(o).exposures <==>
      (exists t :: t in o.tables && (TableLine(o, e, t) || EventLine(o, e, t))) || ViewLine(o, e) || ParentLine(o, e)
  {
    TableLines(o, o.tables, e);
    ViewLines(o.views, e);
    ParentLines(o.parents, e);
    forall t | t in o.tables ensures OnTable(o, t, e) <==> TableLine(o, e, t) || EventLine(o, e, t) {
      TableOrEvent(o, t, e);
    }
    hide TablesExposures, ViewExposures, ParentExposures, TableLine, EventLine, OnTable;
  }

  // ------------------------------------------------------------------ gaps

  /** Asked, for a role that exists, on a table: the seven privileges, the owner and the schema. */
  predicate AskedOfTable(o: Observed, f: Fact) {
    match f
    case Holds(t, r, _) => r in o.roles && exists table :: table in o.tables && table.id == t
    case ActsAsOwner(t, r) => r in o.roles && exists table :: table in o.tables && table.id == t
    case UsesSchema(schema, r) => r in o.roles && exists table :: table in o.tables && table.id.schema == schema
    case PolicyApplies(_, _, _) => false
    case RelationHolds(_, _, _) => false
    case ReadAnswered(_) => false
  }

  /** A policy that could admit rows, where the role may use the command and rows are filtered. */
  ghost predicate AskedOfPolicy(o: Observed, t: Table, r: Role, c: Privilege, f: Fact) {
    && MayUse(o, t.id, r, c) && !Unfiltered(o, t, r)
    && exists p :: p in o.policies && CouldAdmit(p, t.id, c) && f == PolicyApplies(t.id, p.name, r)
  }

  ghost predicate AskedForCommand(o: Observed, f: Fact) {
    exists t, r, c :: t in o.tables && c in API_PRIVILEGES && AskedOfPolicy(o, t, r, c, f)
  }

  lemma {:induction false} AskedMeans(ps: seq<Policy>, t: TableId, r: Role, c: Privilege, f: Fact)
    ensures f in AskedAmong(ps, t, r, c) <==>
      exists p :: p in ps && CouldAdmit(p, t, c) && f == PolicyApplies(t, p.name, r)
  {
    if ps != [] {
      var n := |ps| - 1;
      AskedMeans(ps[..n], t, r, c, f);
      assert MayAdmit(ps[n], t, c) <==> CouldAdmit(ps[n], t, c);
      hide MayAdmit, CouldAdmit;
      assert forall p :: p in ps <==> p in ps[..n] || p == ps[n] by {
        assert ps == ps[..n] + [ps[n]];
      }
    }
  }

  lemma PoliciesConsulted(o: Observed, t: Table, r: Role, c: Privilege, f: Fact)
    requires c in API_PRIVILEGES
    ensures f in ConsultedPolicies(o, t, r, c) <==> AskedOfPolicy(o, t, r, c, f)
  {
    UsableMeans(o, t.id, r, c);
    BypassMeans(o, t, r);
    AskedMeans(o.policies, t.id, r, c, f);
    hide MayUse, Usable, Unfiltered, Bypasses, AskedAmong;
  }

  lemma {:induction false} CommandsConsulted(o: Observed, t: Table, r: Role, cs: seq<Privilege>, f: Fact)
    requires forall c :: c in cs ==> c in API_PRIVILEGES
    ensures f in ConsultedCommands(o, t, r, cs) <==> exists c :: c in cs && AskedOfPolicy(o, t, r, c, f)
  {
    hide AskedOfPolicy, ConsultedPolicies;
    if cs != [] {
      var n := |cs| - 1;
      CommandsConsulted(o, t, r, cs[..n], f);
      PoliciesConsulted(o, t, r, cs[n], f);
      assert forall c :: c in cs <==> c in cs[..n] || c == cs[n] by {
        assert cs == cs[..n] + [cs[n]];
      }
    }
  }

  predicate AskedOfRole(o: Observed, t: Table, r: Role, f: Fact) {
    r in o.roles && ((exists p :: f == Holds(t.id, r, p)) || f == ActsAsOwner(t.id, r) || f == UsesSchema(t.id.schema, r))
  }

  lemma RoleConsulted(o: Observed, t: Table, r: Role, f: Fact)
    ensures f in ConsultedRole(o, t, r) <==>
      AskedOfRole(o, t, r, f) || exists c :: c in API_PRIVILEGES && AskedOfPolicy(o, t, r, c, f)
  {
    CommandsConsulted(o, t, r, API_PRIVILEGES, f);
    hide ConsultedCommands, AskedOfPolicy;
    forall p: Privilege ensures p in PRIVILEGES {
      AllAreListed(p);
    }
  }

  lemma {:induction false} RolesConsulted(o: Observed, t: Table, rs: seq<Role>, f: Fact)
    ensures f in ConsultedRoles(o, t, rs) <==> exists r :: r in rs && f in ConsultedRole(o, t, r)
  {
    hide ConsultedRole;
    if rs != [] {
      var n := |rs| - 1;
      RolesConsulted(o, t, rs[..n], f);
      assert forall r :: r in rs <==> r in rs[..n] || r == rs[n] by {
        assert rs == rs[..n] + [rs[n]];
      }
    }
  }

  lemma {:induction false} TablesConsulted(o: Observed, ts: seq<Table>, f: Fact)
    ensures f in ConsultedTables(o, ts) <==> exists t, r :: t in ts && f in ConsultedRole(o, t, r)
  {
    hide ConsultedRole, ConsultedRoles;
    if ts != [] {
      var n := |ts| - 1;
      TablesConsulted(o, ts[..n], f);
      RolesConsulted(o, ts[n], API_ROLES, f);
      forall r ensures r in API_ROLES {
        ApiRolesListed(r);
      }
      assert forall t :: t in ts <==> t in ts[..n] || t == ts[n] by {
        assert ts == ts[..n] + [ts[n]];
      }
    }
  }

  lemma {:induction false} ViewGapsAre(rows: seq<ViewRow>, f: Fact)
    ensures f in ViewGaps(rows) <==> exists row :: row in rows && row.held == None && f == RelationHolds(row.view, row.role, row.privilege)
  {
    if rows != [] {
      var n := |rows| - 1;
      ViewGapsAre(rows[..n], f);
      assert forall row :: row in rows <==> row in rows[..n] || row == rows[n] by {
        assert rows == rows[..n] + [rows[n]];
      }
    }
  }

  lemma {:induction false} ParentGapsAre(rows: seq<ParentRow>, f: Fact)
    ensures f in ParentGaps(rows) <==> exists row :: row in rows && row.held == None && f == RelationHolds(row.parent, row.role, row.privilege)
  {
    if rows != [] {
      var n := |rows| - 1;
      ParentGapsAre(rows[..n], f);
      assert forall row :: row in rows <==> row in rows[..n] || row == rows[n] by {
        assert rows == rows[..n] + [rows[n]];
      }
    }
  }

  lemma {:induction false} RefusedGapsAre(o: Observed, qs: seq<OptionalRead>, f: Fact)
    ensures f in RefusedGaps(o, qs) <==> f.ReadAnswered? && f.read in qs && f.read in o.refused
  {
    if qs != [] {
      var n := |qs| - 1;
      RefusedGapsAre(o, qs[..n], f);
      assert forall q :: q in qs <==> q in qs[..n] || q == qs[n] by {
        assert qs == qs[..n] + [qs[n]];
      }
    }
  }

  /** MAIN: the gaps are the facts that were asked and not returned, the unknown holdings of views and
      parents, and the refused reads. */
  lemma GapsAre(o: Observed, f: Fact)
    ensures f in AssessmentOf(o).gaps <==>
      || ((AskedOfTable(o, f) || AskedForCommand(o, f)) && f !in o.facts)
      || (exists row :: row in o.views && row.held == None && f == RelationHolds(row.view, row.role, row.privilege))
      || (exists row :: row in o.parents && row.held == None && f == RelationHolds(row.parent, row.role, row.privilege))
      || (f.ReadAnswered? && f.read in o.refused)
  {
    ViewGapsAre(o.views, f);
    ParentGapsAre(o.parents, f);
    RefusedGapsAre(o, OPTIONAL_READS, f);
    forall q: OptionalRead ensures q in OPTIONAL_READS {
      EveryRead(q);
    }
    ConsultedAre(o, f);
    hide ConsultedTables, ViewGaps, ParentGaps, RefusedGaps, AskedOfTable, AskedForCommand;
    assert f in GapsOf(o) <==> f in RefusedGaps(o, OPTIONAL_READS) || f in Missing(o, ConsultedTables(o, o.tables))
                               || f in ViewGaps(o.views) || f in ParentGaps(o.parents);
  }

  lemma EveryRead(q: OptionalRead)
    ensures q in OPTIONAL_READS
  {
    assert OPTIONAL_READS[0] == DependentViewPrivileges && OPTIONAL_READS[1] == InheritanceParents
           && OPTIONAL_READS[2] == RealtimePublications;
  }

  lemma ConsultedAre(o: Observed, f: Fact)
    ensures f in ConsultedTables(o, o.tables) <==> AskedOfTable(o, f) || AskedForCommand(o, f)
  {
    TablesConsulted(o, o.tables, f);
    hide ConsultedTables, ConsultedRole, AskedOfPolicy;
    forall t, r ensures f in ConsultedRole(o, t, r) <==>
      AskedOfRole(o, t, r, f) || exists c :: c in API_PRIVILEGES && AskedOfPolicy(o, t, r, c, f)
    {
      RoleConsulted(o, t, r, f);
    }
    RolesAsked(o, f);
    hide AskedOfRole, AskedOfTable;
    if t, r :| t in o.tables && f in ConsultedRole(o, t, r) && !AskedOfRole(o, t, r, f) {
      var c :| c in API_PRIVILEGES && AskedOfPolicy(o, t, r, c, f);
      assert AskedForCommand(o, f);
    }
    if AskedForCommand(o, f) {
      var t, r, c :| t in o.tables && c in API_PRIVILEGES && AskedOfPolicy(o, t, r, c, f);
      assert f in ConsultedRole(o, t, r);
    }
    if AskedOfTable(o, f) {
      var t, r :| t in o.tables && AskedOfRole(o, t, r, f);
      assert f in ConsultedRole(o, t, r);
    }
  }

  lemma RolesAsked(o: Observed, f: Fact)
    ensures AskedOfTable(o, f) <==> exists t, r :: t in o.tables && AskedOfRole(o, t, r, f)
  {
    if t, r :| t in o.tables && AskedOfRole(o, t, r, f) {
    }
    if AskedOfTable(o, f) {
      match f
      case Holds(t, r, p) =>
        var table :| table in o.tables && table.id == t;
        assert AskedOfRole(o, table, r, f);
      case ActsAsOwner(t, r) =>
        var table :| table in o.tables && table.id == t;
        assert AskedOfRole(o, table, r, f);
      case UsesSchema(schema, r) =>
        var table :| table in o.tables && table.id.schema == schema;
        assert AskedOfRole(o, table, r, f);
    }
  }

  // ------------------------------------------------------------------ the verdict, and the report

  /** MAIN: NOT_EXPOSED means that there is no line and no gap, so no relation over an audited table, and no
      parent of one, that an API role holds or may hold a privilege on. */
  lemma NotExposedMeans(o: Observed)
    ensures AssessmentOf(o).verdict == NotExposedThroughAuditedPaths <==> AssessmentOf(o).exposures == [] && AssessmentOf(o).gaps == {}
    ensures AssessmentOf(o).verdict == Exposed <==> AssessmentOf(o).exposures != []
    ensures AssessmentOf(o).verdict == NotExposedThroughAuditedPaths ==>
      && (forall row :: row in o.views && OfApi(row.role) ==> row.held == Some(false))
      && (forall row :: row in o.parents && OfApi(row.role) ==> row.held == Some(false))
  {
    hide ExposuresOf, GapsOf, EntriesOf;
    if AssessmentOf(o).exposures == [] {
      forall row | row in o.views && OfApi(row.role) ensures row.held == Some(false) {
        ExposuresAre(o, ViewExposure(row.view, row.role, row.privilege));
        assert ViewLine(o, ViewExposure(row.view, row.role, row.privilege)) || row.held == Some(false);
      }
      forall row | row in o.parents && OfApi(row.role) ensures row.held == Some(false) {
        ExposuresAre(o, ParentExposure(row.parent, row.child, row.role, row.privilege));
        assert ParentLine(o, ParentExposure(row.parent, row.child, row.role, row.privilege)) || row.held == Some(false);
      }
    }
  }

  // ------------------------------------------------------------------ the report of one role on one table

  function RightOn(t: TableId, r: Role, c: Privilege): ColumnRight -> bool {
    (row: ColumnRight) => row.table == t && row.role == r && row.privilege == c
  }

  function NamesOf(rows: seq<ColumnRight>): seq<string> {
    seq(|rows|, i requires 0 <= i < |rows| => rows[i].column)
  }

  /** The names of just these columns, in the order they were read. */
  ghost predicate ColumnsOf(o: Observed, t: TableId, r: Role, c: Privilege, columns: seq<string>) {
    exists rows :: Filtered(o.columnOnly, rows, RightOn(t, r, c)) && columns == NamesOf(rows)
  }

  lemma {:induction false} ColumnsAmongAre(rows: seq<ColumnRight>, t: TableId, r: Role, c: Privilege) returns (kept: seq<ColumnRight>)
    ensures Filtered(rows, kept, RightOn(t, r, c)) && ColumnsAmong(rows, t, r, c) == NamesOf(kept)
  {
    hide Filtered;
    if rows == [] {
      kept := [];
      NothingFiltered(RightOn(t, r, c));
    } else {
      var before, last := rows[..|rows| - 1], rows[|rows| - 1];
      kept := ColumnsAmongAre(before, t, r, c);
      OneMoreFiltered(before, kept, RightOn(t, r, c), last);
      assert rows == before + [last];
      assert NamesOf(kept + [last]) == NamesOf(kept) + [last.column];
      kept := if RightOn(t, r, c)(last) then kept + [last] else kept;
    }
  }

  ghost predicate CommandMeans(o: Observed, t: Table, r: Role, c: Privilege, report: CommandReport) {
    && report.verdict == VerdictOf(o, t, r, c)
    && (if r in o.roles && !Refuted(o, Holds(t.id, r, c)) then report.columns == [] else ColumnsOf(o, t.id, r, c, report.columns))
  }

  ghost predicate RoleMeans(o: Observed, t: Table, r: Role, report: RoleReport) {
    && (forall p :: p in report.held <==> r in o.roles && !Refuted(o, Holds(t.id, r, p)))
    && (report.actsAsOwner <==> r in o.roles && !Refuted(o, ActsAsOwner(t.id, r)))
    && (!t.rls || report.bypass <==> Unfiltered(o, t, r))
    && (report.usesSchema <==> InSchema(o, t.id, r))
    && report.commands.Keys == {Select, Insert, Update, Delete}
    && forall c :: c in report.commands ==> CommandMeans(o, t, r, c, report.commands[c])
  }

  lemma {:induction false} CommandsKeys(o: Observed, t: Table, r: Role, cs: seq<Privilege>)
    ensures forall c :: c in CommandReports(o, t, r, cs) <==> c in cs
    ensures forall c :: c in CommandReports(o, t, r, cs) ==> CommandReports(o, t, r, cs)[c] == ReportOf(o, t, r, c)
  {
    hide ReportOf;
    if cs != [] {
      CommandsKeys(o, t, r, cs[..|cs| - 1]);
      assert cs == cs[..|cs| - 1] + [cs[|cs| - 1]];
    }
  }

  lemma OneCommandMeans(o: Observed, t: Table, r: Role, c: Privilege)
    ensures CommandMeans(o, t, r, c, ReportOf(o, t, r, c))
  {
    AllAreListed(c);
    var kept := ColumnsAmongAre(o.columnOnly, t.id, r, c);
    hide ColumnsAmong, Filtered, VerdictOf, AdmitsOf, NamesOf;
  }

  lemma RoleReportMeans(o: Observed, t: Table, r: Role)
    ensures RoleMeans(o, t, r, RoleReportOf(o, t, r))
  {
    var report := RoleReportOf(o, t, r);
    CommandsKeys(o, t, r, API_PRIVILEGES);
    BypassMeans(o, t, r);
    forall p ensures p in report.held <==> r in o.roles && !Refuted(o, Holds(t.id, r, p)) {
      AllAreListed(p);
    }
    hide CommandReports, CommandMeans, ReportOf, Bypasses, Unfiltered;
    forall c ensures c in report.commands <==> c in {Select, Insert, Update, Delete} {
      AllAreListed(c);
    }
    forall c | c in report.commands ensures CommandMeans(o, t, r, c, report.commands[c]) {
      OneCommandMeans(o, t, r, c);
    }
  }

  lemma {:induction false} RoleReportsKeys(o: Observed, t: Table, rs: seq<Role>)
    ensures forall r :: r in RoleReports(o, t, rs) <==> r in rs
    ensures forall r :: r in RoleReports(o, t, rs) ==> RoleReports(o, t, rs)[r] == RoleReportOf(o, t, r)
  {
    hide RoleReportOf;
    if rs != [] {
      RoleReportsKeys(o, t, rs[..|rs| - 1]);
      assert rs == rs[..|rs| - 1] + [rs[|rs| - 1]];
    }
  }

  /** MAIN: one entry per table, in order, and in it a report of each of the three roles. */
  lemma EntriesMean(o: Observed, i: nat)
    requires i < |o.tables|
    ensures var entries := AssessmentOf(o).entries;
      && |entries| == |o.tables| && entries[i].table == o.tables[i]
      && forall r :: r in entries[i].roles && RoleMeans(o, o.tables[i], r, entries[i].roles[r])
  {
    hide ExposuresOf, GapsOf, OverallOf, RoleReportOf, RoleMeans;
    RoleReportsKeys(o, o.tables[i], API_ROLES);
    hide RoleReports;
    forall r ensures r in API_ROLES && RoleMeans(o, o.tables[i], r, RoleReportOf(o, o.tables[i], r)) {
      ApiRolesListed(r);
      RoleReportMeans(o, o.tables[i], r);
    }
  }
}
