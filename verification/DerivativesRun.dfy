/** The derivatives collector as the source runs it: one mutable result row per cell, shared by the list
    of results and the list of cells still pending, and changed in place by three passes. Each pass
    is proved to do what Derivatives.dfy says of the values. */
module DerivativesRun {
  import opened Options
  import D = Derivatives
  import M = DerivativesMeaning

  class CellResult {
    const name: D.CellName
    var runId: Option<string>
    var predictionId: Option<string>
    var reference: Option<D.Reference>
    var classification: D.Classification
    var guard: Option<D.Admission>
    var methodology: Option<string>
    var providerPolicy: Option<string>
    var providerStatus: Option<string>
    var predictionStatus: Option<string>
    var derivativesStatus: Option<string>

    ghost function Abs(): D.Row
      reads this
    {
      D.Row(name, runId, predictionId, reference, classification, guard, methodology, providerPolicy, providerStatus,
            predictionStatus, derivativesStatus)
    }

    /** `_blank_cell` */
    constructor (name: D.CellName, classification: D.Classification)
      ensures Abs() == D.BlankRow(name, classification)
    {
      this.name, this.classification := name, classification;
      runId, predictionId, reference, guard := None, None, None, None;
      methodology, providerPolicy := Some(D.DERIVATIVES_METHODOLOGY), Some(D.DERIVATIVES_PROVIDER_POLICY);
      providerStatus, predictionStatus, derivativesStatus := None, None, None;
    }

    /** The rest of `_analyze_cell`, on the row made for it. */
    method Analyze(a: D.Answers) returns (identity: Option<D.Identity>)
      requires Abs() == D.BlankRow(name, D.FAILED)
      modifies this
      ensures Abs() == D.Analyzed(name, a) && identity == D.AnalyzedIdentity(name, a)
    {
      hide D.ValidatedIdentity;
      if a.analysis == None {
        return None;
      }
      var payload := a.analysis.value;
      runId := payload.runId;
      identity := D.ValidatedIdentity(payload, name);
      if identity == None {
        classification := D.SKIPPED_REFERENCE_UNCERTAIN;
        return;
      }
      predictionId, reference := Some(identity.value.predictionId), Some(identity.value.reference);
      if payload.block.Some? {
        var block := payload.block.value;
        providerStatus, methodology, providerPolicy := block.status, block.methodology, block.providerPolicy;
      }
    }

    /** `_apply_preflight` */
    method ApplyPreflight(payload: D.Payload, identity: D.Identity, dryRun: bool, now: D.Time)
      modifies this
      ensures Abs() == D.Preflight(old(Abs()), payload, identity, dryRun, now)
    {
      hide D.SafetyInvariantsHold, D.EvaluateCadenceAdmission;
      if reference == None || reference.value.at == None {
        classification := D.SKIPPED_REFERENCE_UNCERTAIN;
        return;
      }
      var admission := D.EvaluateCadenceAdmission(methodology, name.timeframe, reference.value.at.value, now);
      guard := Some(admission);
      if admission.verdict != D.Admitted {
        classification := D.Verdict(admission.verdict);
        return;
      }
      if !D.SafetyInvariantsHold(payload, identity) {
        classification := D.FAILED_SAFETY_INVARIANT;
        return;
      }
      if dryRun {
        classification := if providerStatus == Some("UNAVAILABLE") then D.PROVIDER_UNAVAILABLE else D.SKIPPED_DRY_RUN;
        return;
      }
      classification := D.FAILED;
    }

    /** The rest of `_persist_cell`, on what the persist call returned. */
    method Persist(c: D.Confirmation)
      requires !c.PersistRaised?
      modifies this
      ensures Abs() == D.Persisted(old(Abs()), c)
    {
      if c.NoMapping? {
        return;
      }
      predictionStatus, derivativesStatus := c.prediction, c.derivatives;
      var predictionAccepted := predictionStatus in {Some("OK"), Some("STATELESS")};
      var derivativesAccepted := derivativesStatus in {Some("INSERTED"), Some("IDENTICAL_DUPLICATE")};
      if providerStatus == Some("UNAVAILABLE") {
        classification := D.PROVIDER_UNAVAILABLE;
      } else if c.overall == Some("OK") && predictionAccepted && derivativesStatus == Some("INSERTED") {
        classification := D.INSERTED;
      } else if c.overall == Some("OK") && predictionAccepted && derivativesStatus == Some("IDENTICAL_DUPLICATE") {
        classification := D.ALREADY_EXISTS;
      } else if predictionAccepted && (c.overall == Some("PARTIAL") || !derivativesAccepted) {
        classification := D.PARTIAL_PERSISTENCE;
      } else {
        classification := D.FAILED;
      }
    }
  }

  /** It shares its row with the list of results. */
  datatype PendingCell = PendingCell(result: CellResult, payload: D.Payload, identity: D.Identity)

  ghost function Rows(results: seq<CellResult>): seq<D.Row>
    reads results
  {
    seq(|results|, i requires 0 <= i < |results| reads results => results[i].Abs())
  }

  predicate Distinct(results: seq<CellResult>) {
    forall i, j :: 0 <= i < j < |results| ==> results[i] != results[j]
  }

  /** Which cell each pending one is; in order, and every identified cell is there. */
  ghost predicate Pending(results: seq<CellResult>, pending: seq<PendingCell>, at: seq<nat>, cells: D.Cells) {
    && |at| == |pending| && |results| <= |cells|
    && (forall k :: 0 <= k < |at| ==>
          && at[k] < |results| && pending[k].result == results[at[k]]
          && cells[at[k]].1.analysis == Some(pending[k].payload)
          && D.AnalyzedIdentity(cells[at[k]].0, cells[at[k]].1) == Some(pending[k].identity))
    && (forall j, k :: 0 <= j < k < |at| ==> at[j] < at[k])
    && (forall i :: 0 <= i < |results| && D.AnalyzedIdentity(cells[i].0, cells[i].1).Some? ==> i in at)
  }

  /** The first pass: every cell is analysed. */
  method AnalyzeCells(cells: D.Cells) returns (results: seq<CellResult>, pending: seq<PendingCell>, ghost at: seq<nat>)
    ensures |results| == |cells| && Distinct(results) && fresh(results)
    ensures forall i :: 0 <= i < |cells| ==> results[i].Abs() == D.Analyzed(cells[i].0, cells[i].1)
    ensures Pending(results, pending, at, cells)
  {
    hide D.Analyzed, D.AnalyzedIdentity;
    results, pending, at := [], [], [];
    for i := 0 to |cells|
      invariant |results| == i && Distinct(results) && fresh(results)
      invariant forall j :: 0 <= j < i ==> results[j].Abs() == D.Analyzed(cells[j].0, cells[j].1)
      invariant Pending(results, pending, at, cells)
    {
      var result := new CellResult(cells[i].0, D.FAILED);
      var identity := result.Analyze(cells[i].1);
      results := results + [result];
      if identity.Some? {
        IdentifiedWasAnalyzed(cells[i].0, cells[i].1);
        pending := pending + [PendingCell(result, cells[i].1.analysis.value, identity.value)];
        at := at + [i];
      }
    }
  }

  lemma IdentifiedWasAnalyzed(name: D.CellName, a: D.Answers)
    requires D.AnalyzedIdentity(name, a).Some?
    ensures a.analysis.Some?
  {
  }

  /** The second pass: the preflight of every pending cell, at one reading of the clock. */
  method PreflightCells(results: seq<CellResult>, pending: seq<PendingCell>, ghost at: seq<nat>, ghost cells: D.Cells,
                        dryRun: bool, now: D.Time)
    requires |results| == |cells| && Distinct(results) && Pending(results, pending, at, cells)
    requires forall i :: 0 <= i < |cells| ==> results[i].Abs() == D.Analyzed(cells[i].0, cells[i].1)
    modifies results
    ensures Rows(results) == D.PreflightedRows(cells, dryRun, now)
  {
    hide D.Analyzed, D.AnalyzedIdentity, D.Preflight;
    for k := 0 to |pending|
      invariant forall i :: 0 <= i < |cells| ==>
        results[i].Abs() == if i in at[..k] then D.Preflighted(cells[i].0, cells[i].1, dryRun, now)
                            else D.Analyzed(cells[i].0, cells[i].1)
    {
      assert at[k] !in at[..k];
      pending[k].result.ApplyPreflight(pending[k].payload, pending[k].identity, dryRun, now);
      assert at[..k + 1] == at[..k] + [at[k]];
      forall i | 0 <= i < |cells| && i != at[k] ensures results[i] != pending[k].result {
      }
    }
    assert at[..|pending|] == at;
    forall i | 0 <= i < |cells| ensures results[i].Abs() == D.Preflighted(cells[i].0, cells[i].1, dryRun, now) {
    }
  }

  method AnyBlocks(results: seq<CellResult>) returns (any: bool)
    ensures any <==> exists i :: 0 <= i < |results| && D.Blocks(results[i].Abs())
  {
    any := false;
    for i := 0 to |results|
      invariant any <==> exists j :: 0 <= j < i && D.Blocks(results[j].Abs())
    {
      var classification, guard := results[i].classification, results[i].guard;
      if classification in {D.CONFIGURATION_ERROR, D.FAILED_SAFETY_INVARIANT, D.REJECTED_METHODOLOGY_CUTOVER,
                            D.REJECTED_OUTSIDE_WINDOW, D.SKIPPED_REFERENCE_UNCERTAIN} {
        any := true;
      }
      if classification == D.FAILED && !(guard.Some? && guard.value.verdict == D.Admitted) {
        any := true;
      }
    }
  }

  /** `_tally_results` */
  method TallyResults(results: seq<CellResult>) returns (t: D.Tally)
    ensures t == D.TallyOf(Rows(results))
  {
    var newPredictions: nat, newSnapshots: nat, duplicates: nat, skipped: nat, failed: nat := 0, 0, 0, 0, 0;
    for i := 0 to |results|
      invariant D.Tally(newPredictions, newSnapshots, duplicates, skipped, failed) == D.TallyOf(Rows(results)[..i])
    {
      var row := results[i];
      if row.derivativesStatus == Some("INSERTED") {
        newPredictions := newPredictions + 1;
        newSnapshots := newSnapshots + 1;
      } else if row.derivativesStatus == Some("IDENTICAL_DUPLICATE") {
        duplicates := duplicates + 1;
      }
      if D.Skipped(row.classification) {
        skipped := skipped + 1;
      }
      if D.CountsAsFailed(row.classification) {
        failed := failed + 1;
      }
      assert Rows(results)[..i + 1][..i] == Rows(results)[..i];
      assert Rows(results)[..i + 1][i] == row.Abs();
    }
    assert Rows(results)[..|results|] == Rows(results);
    t := D.Tally(newPredictions, newSnapshots, duplicates, skipped, failed);
  }

  /** The third pass: write cell by cell, until a persist call raises or a cap is passed. */
  method PersistCells(results: seq<CellResult>, pending: seq<PendingCell>, ghost at: seq<nat>, cells: D.Cells)
    returns (breached: bool, raised: bool, ghost calls: nat)
    requires |results| == |cells| == |at| && Distinct(results) && Pending(results, pending, at, cells)
    modifies results
    ensures D.Written(Rows(results), calls, breached, raised) == D.PersistFrom(old(Rows(results)), cells, 0)
  {
    hide D.Persisted, D.CapBreached;
    InOrder(at, |results|);
    breached, raised, calls := false, false, 0;
    for k := 0 to |pending|
      invariant calls == k
      invariant D.PersistFrom(Rows(results), cells, k) == D.PersistFrom(old(Rows(results)), cells, 0)
    {
      calls := k + 1;
      var confirmation := cells[k].1.confirmation;
      if confirmation.PersistRaised? {
        return false, true, calls;
      }
      ghost var before := Rows(results);
      pending[k].result.Persist(confirmation);
      assert forall i :: 0 <= i < |results| && i != k ==> results[i] != pending[k].result;
      assert Rows(results) == before[k := D.Persisted(before[k], confirmation)];
      var over := InsertCapBreached(results);
      if over {
        return true, false, calls;
      }
    }
  }

  lemma {:induction false} InOrder(at: seq<nat>, n: nat)
    requires |at| == n && (forall k :: 0 <= k < n ==> at[k] < n) && forall j, k :: 0 <= j < k < n ==> at[j] < at[k]
    ensures forall k :: 0 <= k < n ==> at[k] == k
  {
    if n > 0 {
      var m := n - 1;
      forall k | 0 <= k < m ensures at[k] < m {
        assert at[k] < at[m];
      }
      InOrder(at[..m], m);
      if m > 0 {
        assert at[m - 1] == at[..m][m - 1] == m - 1;
      }
    }
  }

  method InsertCapBreached(results: seq<CellResult>) returns (over: bool)
    ensures over == D.CapBreached(Rows(results))
  {
    var t := TallyResults(results);
    over := t.newPredictions > D.MAX_NEW_PREDICTIONS || t.newSnapshots > D.MAX_NEW_DERIVATIVES_SNAPSHOTS;
  }

  datatype Report = Report(tally: D.Tally, failed: nat, breached: bool, final: D.Final, exitCode: nat)
  datatype Outcome = Reported(report: Report) | Uncaught

  datatype CollectorOptions = CollectorOptions(dryRun: bool, confirmWrite: string)

  /** The two variables read; None when unset. */
  datatype Environment = Environment(enabled: Option<string>, databaseUrl: Option<string>)

  /** What stops the run before its first cell. */
  function Refusal(options: CollectorOptions, environment: Environment): Option<D.Final> {
    if environment.enabled == None || D.LowerCase(environment.enabled.value) in {"", "false"} then Some(D.DISABLED)
    else if D.LowerCase(environment.enabled.value) != "true" then Some(D.Ended(D.CONFIGURATION_ERROR))
    else if options.dryRun then None
    else if options.confirmWrite != D.WRITE_CONFIRMATION then Some(D.CONFIRMATION_REQUIRED)
    else if environment.databaseUrl in {None, Some("")} then Some(D.Ended(D.CONFIGURATION_ERROR))
    else None
  }

  /** Enabled, in small letters or capitals, confirmed in full, and with a store named. */
  predicate MayWrite(options: CollectorOptions, environment: Environment) {
    && environment.enabled.Some? && M.Spells(environment.enabled.value, "true")
    && !options.dryRun && options.confirmWrite == "WRITE-EVIDENCE"
    && environment.databaseUrl.Some? && environment.databaseUrl.value != ""
  }

  /** Not enabled: unset, empty, or set to false. */
  predicate Disabled(environment: Environment) {
    environment.enabled == None || environment.enabled.value == "" || M.Spells(environment.enabled.value, "false")
  }

  lemma MayWriteMeans(options: CollectorOptions, environment: Environment)
    ensures MayWrite(options, environment) <==> Refusal(options, environment) == None && !options.dryRun
    ensures Disabled(environment) <==> Refusal(options, environment) == Some(D.DISABLED)
  {
    if environment.enabled.Some? {
      M.SpellsWhenLower(environment.enabled.value, "true");
      M.SpellsWhenLower(environment.enabled.value, "false");
      M.SpellsWhenLower(environment.enabled.value, "");
      assert M.Spells(environment.enabled.value, "") <==> environment.enabled.value == "";
      hide D.LowerCase, M.Spells;
      assert "true" != "false" && "true" != "" by {
        assert "true"[0] == 't' && "false"[0] == 'f';
      }
    }
  }

  /** `run_collector`: on every path, a failure is counted exactly when the exit code is not 0; and something
      is written exactly when the run may write and every cell is sound. */
  method RunCollector(options: CollectorOptions, environment: Environment, cells: D.Cells, now: D.Time, opens: bool)
    returns (outcome: Outcome, results: seq<CellResult>, ghost calls: nat)
    ensures Refusal(options, environment).Some? ==>
      && calls == 0 && outcome.Reported? && outcome.report.final == Refusal(options, environment).value
      && outcome.report.exitCode == (if Disabled(environment) then 0 else 1)
      && Rows(results) == if Disabled(environment) then D.SkippedRows(cells) else []
    ensures Refusal(options, environment) == None ==>
      var w := D.RunOf(cells, options.dryRun, now, opens);
      && Rows(results) == w.rows && calls == w.calls && (outcome.Uncaught? <==> w.raised)
      && (outcome.Reported? ==>
            && outcome.report.tally == D.TallyOf(w.rows)
            && (outcome.report.final, outcome.report.exitCode) == D.FinalResult(options.dryRun, w.rows, w.breached))
    ensures outcome.Reported? ==> (outcome.report.failed == 0 <==> outcome.report.exitCode == 0)
    ensures calls > 0 <==>
      MayWrite(options, environment) && opens && cells != [] && forall i :: 0 <= i < |cells| ==> M.Sound(cells[i].0, cells[i].1, now)
  {
    hide D.RunOf, D.FinalResult, D.TallyOf, M.Sound;
    MayWriteMeans(options, environment);
    M.WritesExactlyWhenEveryCellIsSound(cells, options.dryRun, now, opens);
    hide MayWrite, Disabled;
    var refusal := Refusal(options, environment);
    if refusal == None {
      outcome, results, calls := RunCells(cells, options.dryRun, now, opens);
      return;
    }
    results, calls := [], 0;
    if refusal == Some(D.DISABLED) {
      results := BlankCells(cells);
      assert Rows(results) == D.SkippedRows(cells);
    }
    var failed := if refusal == Some(D.DISABLED) then 0 else 1;
    outcome := Reported(Report(D.Tally(0, 0, 0, |results|, failed), failed, false, refusal.value, failed));
  }

  method BlankCells(cells: D.Cells) returns (results: seq<CellResult>)
    ensures |results| == |cells| && fresh(results)
    ensures forall i :: 0 <= i < |cells| ==> results[i].Abs() == D.BlankRow(cells[i].0, D.SKIPPED_DISABLED)
  {
    results := [];
    for i := 0 to |cells|
      invariant |results| == i && fresh(results)
      invariant forall j :: 0 <= j < i ==> results[j].Abs() == D.BlankRow(cells[j].0, D.SKIPPED_DISABLED)
    {
      var result := new CellResult(cells[i].0, D.SKIPPED_DISABLED);
      results := results + [result];
    }
  }

  /** The three passes over the cells of the run's scope. */
  method RunCells(cells: D.Cells, dryRun: bool, now: D.Time, opens: bool)
    returns (outcome: Outcome, results: seq<CellResult>, ghost calls: nat)
    ensures var w := D.RunOf(cells, dryRun, now, opens);
      && Rows(results) == w.rows && calls == w.calls && (outcome.Uncaught? <==> w.raised)
      && (outcome.Reported? ==>
            && outcome.report.tally == D.TallyOf(w.rows)
            && outcome.report.failed == D.FailedCount(w.rows, w.breached)
            && (outcome.report.final, outcome.report.exitCode) == D.FinalResult(dryRun, w.rows, w.breached)
            && (outcome.report.failed == 0 <==> outcome.report.exitCode == 0))
  {
    hide D.PersistFrom, D.FinalResult, D.TallyOf, D.PreflightedRows;
    var pending;
    ghost var at;
    results, pending, at := AnalyzeCells(cells);
    PreflightCells(results, pending, at, cells, dryRun, now);
    var blocked := AnyBlocks(results);
    var breached, raised := false, false;
    calls := 0;
    ghost var rows := Rows(results);
    assert forall i :: 0 <= i < |rows| ==> rows[i] == results[i].Abs();
    assert blocked <==> exists i :: 0 <= i < |rows| && D.Blocks(rows[i]);
    if !dryRun && !blocked {
      if !opens {
        return Uncaught, results, calls;
      }
      EveryCellIsPending(results, pending, at, cells, now);
      breached, raised, calls := PersistCells(results, pending, at, cells);
    }
    if raised {
      return Uncaught, results, calls;
    }
    var tally := TallyResults(results);
    var failed := tally.failed + if breached then 1 else 0;
    var rows' := RowsNow(results);
    var (final, exitCode) := D.FinalResult(dryRun, rows', breached);
    D.TallyAgreesWithExitCode(dryRun, rows', breached);
    outcome := Reported(Report(tally, failed, breached, final, exitCode));
  }

  /** The rows as the report copies them. */
  method RowsNow(results: seq<CellResult>) returns (rows: seq<D.Row>)
    ensures rows == Rows(results)
  {
    rows := [];
    for i := 0 to |results|
      invariant rows == Rows(results)[..i]
    {
      var r := results[i];
      rows := rows + [D.Row(r.name, r.runId, r.predictionId, r.reference, r.classification, r.guard, r.methodology,
                            r.providerPolicy, r.providerStatus, r.predictionStatus, r.derivativesStatus)];
    }
  }

  /** When nothing blocks the writing, every cell is pending. */
  lemma EveryCellIsPending(results: seq<CellResult>, pending: seq<PendingCell>, at: seq<nat>, cells: D.Cells, now: D.Time)
    requires |results| == |cells| && Pending(results, pending, at, cells)
    requires D.MayPersist(false, D.PreflightedRows(cells, false, now))
    ensures |at| == |cells|
  {
    hide D.Ready, D.AnalyzedIdentity, D.Blocks, D.Preflighted;
    D.AllOrNothing(cells, false, now, true);
    forall i | 0 <= i < |cells| ensures i in at {
      ReadyIsIdentified(cells[i].0, cells[i].1, now);
    }
    AllListed(at, |cells|);
  }

  lemma ReadyIsIdentified(name: D.CellName, a: D.Answers, now: D.Time)
    ensures D.Ready(name, a, now) ==> D.AnalyzedIdentity(name, a).Some?
  {
  }

  lemma {:induction false} AllListed(at: seq<nat>, n: nat)
    requires (forall k :: 0 <= k < |at| ==> at[k] < n) && (forall j, k :: 0 <= j < k < |at| ==> at[j] < at[k])
    requires forall i: nat :: i < n ==> i in at
    ensures |at| == n
  {
    if n == 0 {
    } else {
      var m := |at| - 1;
      var last: nat := n - 1;
      assert last in at;
      var k :| 0 <= k < |at| && at[k] == last;
      assert at[k] <= at[m];
      forall i: nat | i < n - 1 ensures i in at[..m] {
        assert i in at;
        var j :| 0 <= j < |at| && at[j] == i;
        assert at[..m][j] == i;
      }
      forall j | 0 <= j < m ensures at[j] < n - 1 {
        assert at[j] < at[m];
      }
      AllListed(at[..m], n - 1);
    }
  }
}
