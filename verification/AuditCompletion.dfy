/** What the missing facts of an audit could still change. `Refines(p, f)`: `f` answers everything
    `p` answers, in the same way, and possibly more. */
module AuditCompletion {
  import opened Options
  import opened Audit
  import opened AuditSemantics

  ghost predicate Refines(p: Observed, f: Observed) {
    && p.roles == f.roles && p.tables == f.tables && p.columnOnly == f.columnOnly
    && p.policies == f.policies && p.publications == f.publications && p.refused == f.refused
    && (forall k :: k in p.facts ==> k in f.facts && f.facts[k] == p.facts[k])
    && RefinesViews(p.views, f.views)
    && RefinesParents(p.parents, f.parents)
  }

  predicate FillsIn(known: Option<bool>, completed: Option<bool>) {
    known == None || known == completed
  }

  ghost predicate RefinesViews(p: seq<ViewRow>, f: seq<ViewRow>) {
    |p| == |f| && forall i :: 0 <= i < |p| ==> f[i] == p[i].(held := f[i].held) && FillsIn(p[i].held, f[i].held)
  }

  ghost predicate RefinesParents(p: seq<ParentRow>, f: seq<ParentRow>) {
    |p| == |f| && forall i :: 0 <= i < |p| ==> f[i] == p[i].(held := f[i].held) && FillsIn(p[i].held, f[i].held)
  }

  /** What an exposure line is about, without how exposed it is. */
  datatype Key =
    | TableKey(table: TableId, role: Role, command: Privilege)
    | RealtimeKey(table: TableId, role: Role)
    | ViewKey(view: TableId, role: Role, privilege: Privilege)
    | ParentKey(parent: TableId, child: TableId, role: Role, privilege: Privilege)

  function KeyOf(e: Exposure): Key {
    match e
    case TableExposure(t, r, c, _) => TableKey(t, r, c)
    case RealtimeExposure(t, r, _) => RealtimeKey(t, r)
    case ViewExposure(v, r, p) => ViewKey(v, r, p)
    case ParentExposure(v, t, r, p) => ParentKey(v, t, r, p)
  }

  predicate Reports(es: seq<Exposure>, k: Key) {
    exists e :: e in es && KeyOf(e) == k
  }

  lemma ReportsEither(a: seq<Exposure>, b: seq<Exposure>, k: Key)
    ensures Reports(a + b, k) <==> Reports(a, k) || Reports(b, k)
  {
    if Reports(a, k) {
      var e :| e in a && KeyOf(e) == k;
      assert e in a + b;
    }
    if Reports(b, k) {
      var e :| e in b && KeyOf(e) == k;
      assert e in a + b;
    }
  }

  // ------------------------------------------------------------------ an exposure never appears

  lemma {:induction false} ApplicableShrinks(p: Observed, f: Observed, ps: seq<Policy>, t: TableId, r: Role, c: Privilege)
    requires Refines(p, f)
    ensures ApplicableAmong(f, ps, t, r, c) <= ApplicableAmong(p, ps, t, r, c)
  {
    if ps != [] {
      ApplicableShrinks(p, f, ps[..|ps| - 1], t, r, c);
    }
  }

  lemma AnswersShrink(p: Observed, f: Observed, t: Table, r: Role, c: Privilege)
    requires Refines(p, f)
    ensures Usable(f, t.id, r, c) ==> Usable(p, t.id, r, c)
    ensures TableExposed(f, t, r, c) ==> TableExposed(p, t, r, c)
  {
    hide MayAdmit, ApplicableAmong, ColumnsAmong;
    assert Held(f, t.id, r) <= Held(p, t.id, r);
    ApplicableShrinks(p, f, p.policies, t.id, r, c);
  }

  lemma {:induction false} CommandKeys(p: Observed, f: Observed, t: Table, r: Role, cs: seq<Privilege>, k: Key)
    requires Refines(p, f) && Reports(CommandsExposures(f, t, r, cs), k)
    ensures Reports(CommandsExposures(p, t, r, cs), k)
  {
    hide Refines, Usable, AdmitsOf, VerdictOf, Uses;
    var e :| e in CommandsExposures(f, t, r, cs) && KeyOf(e) == k;
    CommandLine(f, t, r, cs, e);
    AnswersShrink(p, f, t, r, e.command);
    var e' := TableExposure(t.id, r, e.command, VerdictOf(p, t, r, e.command));
    CommandLine(p, t, r, cs, e');
  }

  lemma RoleKeys(p: Observed, f: Observed, t: Table, r: Role, k: Key)
    requires Refines(p, f) && Reports(RoleExposures(f, t, r), k)
    ensures Reports(RoleExposures(p, t, r), k)
  {
    hide Usable, CommandsExposures, EventsOf, Reports;
    assert r != ServiceRole by {
      NothingReported(k);
    }
    ReportsEither(CommandsExposures(f, t, r, API_PRIVILEGES), RealtimeExposures(f, t, r), k);
    ReportsEither(CommandsExposures(p, t, r, API_PRIVILEGES), RealtimeExposures(p, t, r), k);
    if Reports(CommandsExposures(f, t, r, API_PRIVILEGES), k) {
      CommandKeys(p, f, t, r, API_PRIVILEGES, k);
    } else {
      RealtimeKeys(p, f, t, r, k);
    }
  }

  lemma NothingReported(k: Key)
    ensures !Reports([], k)
  {
  }

  lemma RealtimeKeys(p: Observed, f: Observed, t: Table, r: Role, k: Key)
    requires Refines(p, f) && Reports(RealtimeExposures(f, t, r), k)
    ensures Reports(RealtimeExposures(p, t, r), k)
  {
    hide Usable, EventsOf;
    AnswersShrink(p, f, t, r, Select);
    assert RealtimeExposures(p, t, r) == [RealtimeExposure(t.id, r, EventsOf(p, t, r))];
    assert RealtimeExposure(t.id, r, EventsOf(p, t, r)) in RealtimeExposures(p, t, r);
  }

  lemma {:induction false} RolesKeys(p: Observed, f: Observed, t: Table, rs: seq<Role>, k: Key)
    requires Refines(p, f) && Reports(RolesExposures(f, t, rs), k)
    ensures Reports(RolesExposures(p, t, rs), k)
  {
    hide RoleExposures, Refines;
    if rs != [] {
      var rest, last := rs[..|rs| - 1], rs[|rs| - 1];
      ReportsEither(RolesExposures(f, t, rest), RoleExposures(f, t, last), k);
      ReportsEither(RolesExposures(p, t, rest), RoleExposures(p, t, last), k);
      if Reports(RoleExposures(f, t, last), k) {
        RoleKeys(p, f, t, last, k);
      } else {
        RolesKeys(p, f, t, rest, k);
      }
    }
  }

  lemma {:induction false} TablesKeys(p: Observed, f: Observed, ts: seq<Table>, k: Key)
    requires Refines(p, f) && Reports(TablesExposures(f, ts), k)
    ensures Reports(TablesExposures(p, ts), k)
  {
    hide RolesExposures, Refines;
    if ts != [] {
      var rest, last := ts[..|ts| - 1], ts[|ts| - 1];
      ReportsEither(TablesExposures(f, rest), RolesExposures(f, last, API_ROLES), k);
      ReportsEither(TablesExposures(p, rest), RolesExposures(p, last, API_ROLES), k);
      if Reports(RolesExposures(f, last, API_ROLES), k) {
        RolesKeys(p, f, last, API_ROLES, k);
      } else {
        TablesKeys(p, f, rest, k);
      }
    }
  }

  lemma {:induction false} ViewKeys(p: seq<ViewRow>, f: seq<ViewRow>, k: Key)
    requires RefinesViews(p, f) && Reports(ViewExposures(f), k)
    ensures Reports(ViewExposures(p), k)
  {
    var n := |p| - 1;
    var one := if f[n].held != Some(false) && f[n].role != ServiceRole
               then [ViewExposure(f[n].view, f[n].role, f[n].privilege)] else [];
    ReportsEither(ViewExposures(f[..n]), one, k);
    if Reports(ViewExposures(f[..n]), k) {
      ViewKeys(p[..n], f[..n], k);
      ReportsEither(ViewExposures(p[..n]), ViewExposures(p)[|ViewExposures(p[..n])|..], k);
      assert ViewExposures(p) == ViewExposures(p[..n]) + ViewExposures(p)[|ViewExposures(p[..n])|..];
    } else {
      ReportsEither(ViewExposures(p[..n]), one, k);
      assert ViewExposures(p) == ViewExposures(p[..n]) + one;
    }
  }

  lemma {:induction false} ParentKeys(p: seq<ParentRow>, f: seq<ParentRow>, k: Key)
    requires RefinesParents(p, f) && Reports(ParentExposures(f), k)
    ensures Reports(ParentExposures(p), k)
  {
    var n := |p| - 1;
    var one := if f[n].held != Some(false) && f[n].role != ServiceRole
               then [ParentExposure(f[n].parent, f[n].child, f[n].role, f[n].privilege)] else [];
    ReportsEither(ParentExposures(f[..n]), one, k);
    if Reports(ParentExposures(f[..n]), k) {
      ParentKeys(p[..n], f[..n], k);
      ReportsEither(ParentExposures(p[..n]), ParentExposures(p)[|ParentExposures(p[..n])|..], k);
      assert ParentExposures(p) == ParentExposures(p[..n]) + ParentExposures(p)[|ParentExposures(p[..n])|..];
    } else {
      ReportsEither(ParentExposures(p[..n]), one, k);
      assert ParentExposures(p) == ParentExposures(p[..n]) + one;
    }
  }

  /** MAIN: every exposure of every completion is already reported for the partial facts. */
  lemma CompletionAddsNoExposure(p: Observed, f: Observed, k: Key)
    requires Refines(p, f) && Reports(AssessmentOf(f).exposures, k)
    ensures Reports(AssessmentOf(p).exposures, k)
  {
    hide TablesExposures, ViewExposures, ParentExposures, Reports;
    ReportsEither(TablesExposures(f, f.tables) + ViewExposures(f.views), ParentExposures(f.parents), k);
    ReportsEither(TablesExposures(p, p.tables) + ViewExposures(p.views), ParentExposures(p.parents), k);
    ReportsEither(TablesExposures(f, f.tables), ViewExposures(f.views), k);
    ReportsEither(TablesExposures(p, p.tables), ViewExposures(p.views), k);
    if Reports(TablesExposures(f, f.tables), k) {
      TablesKeys(p, f, p.tables, k);
    } else if Reports(ViewExposures(f.views), k) {
      ViewKeys(p.views, f.views, k);
    } else {
      ParentKeys(p.parents, f.parents, k);
    }
  }

  // ------------------------------------------------------------------ no gap means no completion matters

  lemma {:induction false} SameApplicable(p: Observed, f: Observed, ps: seq<Policy>, t: TableId, r: Role, c: Privilege)
    requires Refines(p, f) && AskedAmong(ps, t, r, c) <= p.facts.Keys
    ensures ApplicableAmong(f, ps, t, r, c) == ApplicableAmong(p, ps, t, r, c)
  {
    if ps != [] {
      SameApplicable(p, f, ps[..|ps| - 1], t, r, c);
    }
  }

  lemma SameFacts(p: Observed, f: Observed, t: Table, r: Role)
    requires Refines(p, f) && ConsultedRole(p, t, r) <= p.facts.Keys
    ensures Held(f, t.id, r) == Held(p, t.id, r) && Owns(f, t.id, r) == Owns(p, t.id, r)
    ensures Uses(f, t.id.schema, r) == Uses(p, t.id.schema, r) && Bypasses(f, t, r) == Bypasses(p, t, r)
  {
    if r in p.roles {
      assert forall q :: q in PRIVILEGES ==> Holds(t.id, r, q) in ConsultedRole(p, t, r);
      assert ActsAsOwner(t.id, r) in ConsultedRole(p, t, r);
      assert UsesSchema(t.id.schema, r) in ConsultedRole(p, t, r);
    }
  }

  lemma PolicyFactsKnown(p: Observed, t: Table, r: Role, c: Privilege)
    requires c in API_PRIVILEGES && ConsultedRole(p, t, r) <= p.facts.Keys
    ensures ConsultedPolicies(p, t, r, c) <= p.facts.Keys
  {
    hide ConsultedPolicies, ConsultedCommands;
    PolicyFactsConsulted(p, t, r, API_PRIVILEGES, c);
  }

  lemma SameAdmits(p: Observed, f: Observed, t: Table, r: Role, c: Privilege)
    requires Refines(p, f) && c in API_PRIVILEGES
    requires ConsultedRole(p, t, r) <= p.facts.Keys
    ensures Usable(f, t.id, r, c) == Usable(p, t.id, r, c)
    ensures AdmitsOf(f, t, r, c) == AdmitsOf(p, t, r, c)
    ensures ConsultedPolicies(f, t, r, c) == ConsultedPolicies(p, t, r, c)
  {
    hide Held, Owns, Uses, Bypasses, ConsultedRole, ApplicableAmong, AskedAmong, ColumnsAmong;
    SameFacts(p, f, t, r);
    PolicyFactsKnown(p, t, r, c);
    assert p.columnOnly == f.columnOnly && p.policies == f.policies;
    if Usable(p, t.id, r, c) && t.rls && !Bypasses(p, t, r) {
      SameApplicable(p, f, p.policies, t.id, r, c);
    }
  }

  lemma SameReport(p: Observed, f: Observed, t: Table, r: Role, c: Privilege)
    requires Refines(p, f) && c in API_PRIVILEGES
    requires ConsultedRole(p, t, r) <= p.facts.Keys
    ensures ReportOf(f, t, r, c) == ReportOf(p, t, r, c)
    ensures ConsultedPolicies(f, t, r, c) == ConsultedPolicies(p, t, r, c)
  {
    hide Held, Owns, Uses, Bypasses, Columns, Refines, ConsultedRole, AdmitsOf, Usable, ConsultedPolicies;
    SameFacts(p, f, t, r);
    SameAdmits(p, f, t, r, c);
    SameColumns(p, f, t.id, r, c);
  }

  lemma SameColumns(p: Observed, f: Observed, t: TableId, r: Role, c: Privilege)
    requires Refines(p, f)
    ensures Columns(f, t, r, c) == Columns(p, t, r, c)
  {
  }

  lemma {:induction false} SameCommands(p: Observed, f: Observed, t: Table, r: Role, cs: seq<Privilege>)
    requires Refines(p, f) && ConsultedRole(p, t, r) <= p.facts.Keys
    requires forall c :: c in cs ==> c in API_PRIVILEGES
    ensures CommandReports(f, t, r, cs) == CommandReports(p, t, r, cs)
    ensures CommandsExposures(f, t, r, cs) == CommandsExposures(p, t, r, cs)
    ensures ConsultedCommands(f, t, r, cs) == ConsultedCommands(p, t, r, cs)
  {
    hide Refines, ConsultedRole, Held, Owns, Bypasses, Usable, Applicable, ConsultedPolicies;
    if cs != [] {
      SameCommands(p, f, t, r, cs[..|cs| - 1]);
      SameReport(p, f, t, r, cs[|cs| - 1]);
      SameFacts(p, f, t, r);
      assert ReportOf(f, t, r, cs[|cs| - 1]).admits == AdmitsOf(f, t, r, cs[|cs| - 1]);
      assert ReportOf(f, t, r, cs[|cs| - 1]).verdict == VerdictOf(f, t, r, cs[|cs| - 1]);
    }
  }

  lemma SameRole(p: Observed, f: Observed, t: Table, r: Role)
    requires Refines(p, f) && ConsultedRole(p, t, r) <= p.facts.Keys
    ensures RoleReportOf(f, t, r) == RoleReportOf(p, t, r)
    ensures RoleExposures(f, t, r) == RoleExposures(p, t, r)
    ensures ConsultedRole(f, t, r) == ConsultedRole(p, t, r)
  {
    hide Bypasses, ConsultedPolicies, CommandsExposures, CommandReports, ConsultedCommands;
    SelectIsAsked();
    SameCommands(p, f, t, r, API_PRIVILEGES);
    SameFacts(p, f, t, r);
    SameReport(p, f, t, r, Select);
    assert ReportOf(f, t, r, Select).admits == AdmitsOf(f, t, r, Select);
    assert ReportOf(p, t, r, Select).admits == AdmitsOf(p, t, r, Select);
  }

  lemma {:induction false} SameRoles(p: Observed, f: Observed, t: Table, rs: seq<Role>)
    requires Refines(p, f) && ConsultedRoles(p, t, rs) <= p.facts.Keys
    ensures RoleReports(f, t, rs) == RoleReports(p, t, rs)
    ensures RolesExposures(f, t, rs) == RolesExposures(p, t, rs)
    ensures ConsultedRoles(f, t, rs) == ConsultedRoles(p, t, rs)
  {
    hide Refines, RoleReportOf, RoleExposures, ConsultedRole;
    if rs != [] {
      SameRoles(p, f, t, rs[..|rs| - 1]);
      SameRole(p, f, t, rs[|rs| - 1]);
    }
  }

  lemma {:induction false} SameTables(p: Observed, f: Observed, ts: seq<Table>)
    requires Refines(p, f) && ConsultedTables(p, ts) <= p.facts.Keys
    ensures EntriesOf(f, ts) == EntriesOf(p, ts)
    ensures TablesExposures(f, ts) == TablesExposures(p, ts)
    ensures ConsultedTables(f, ts) == ConsultedTables(p, ts)
  {
    hide Refines, RoleReports, RolesExposures, ConsultedRoles;
    if ts != [] {
      var rest, last := ts[..|ts| - 1], ts[|ts| - 1];
      SameTables(p, f, rest);
      SameRoles(p, f, last, API_ROLES);
      assert EntriesOf(f, ts) == EntriesOf(f, rest) + [EntryOf(f, last)];
      assert EntriesOf(p, ts) == EntriesOf(p, rest) + [EntryOf(p, last)];
    }
  }

  lemma {:induction false} SameViews(p: seq<ViewRow>, f: seq<ViewRow>)
    requires RefinesViews(p, f) && ViewGaps(p) == {}
    ensures p == f
  {
    if p != [] {
      var n := |p| - 1;
      SameViews(p[..n], f[..n]);
      assert f[n] == p[n];
      assert p == p[..n] + [p[n]] && f == f[..n] + [f[n]];
    }
  }

  lemma {:induction false} SameParents(p: seq<ParentRow>, f: seq<ParentRow>)
    requires RefinesParents(p, f) && ParentGaps(p) == {}
    ensures p == f
  {
    if p != [] {
      var n := |p| - 1;
      SameParents(p[..n], f[..n]);
      assert f[n] == p[n];
      assert p == p[..n] + [p[n]] && f == f[..n] + [f[n]];
    }
  }

  /** MAIN: with no gap listed, no consulted fact was missing, and every completion of the facts has
      the very same assessment, verdict included. */
  lemma NoGapsSettlesTheAssessment(p: Observed, f: Observed)
    requires Refines(p, f) && AssessmentOf(p).gaps == {}
    ensures AssessmentOf(f) == AssessmentOf(p)
    ensures Complete(p)
  {
    hide EntriesOf, TablesExposures, ViewExposures, ParentExposures, ConsultedTables, RefusedGaps, ViewGaps, ParentGaps;
    assert RefusedGaps(p, OPTIONAL_READS) + ViewGaps(p.views) + ParentGaps(p.parents) == {};
    NothingMissing(p, ConsultedTables(p, p.tables));
    SameTables(p, f, p.tables);
    SameViews(p.views, f.views);
    SameParents(p.parents, f.parents);
    SameRefusals(p, f, OPTIONAL_READS);
    assert Missing(f, ConsultedTables(f, f.tables)) == {};
  }

  lemma NothingMissing(o: Observed, consulted: set<Fact>)
    requires Missing(o, consulted) == {}
    ensures consulted <= o.facts.Keys
  {
    assert forall x :: x in consulted && x !in o.facts.Keys ==> x in Missing(o, consulted);
  }

  lemma {:induction false} SameRefusals(p: Observed, f: Observed, qs: seq<OptionalRead>)
    requires p.refused == f.refused
    ensures RefusedGaps(p, qs) == RefusedGaps(f, qs)
  {
    if qs != [] {
      SameRefusals(p, f, qs[..|qs| - 1]);
    }
  }
}
