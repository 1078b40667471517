/** The collector of OosCollector.dfy as the source runs it: counters changed in place, a repository
    that is read back, analyses left pending and dropped. */
module OosRun {
  import opened Options
  import C = OosCollector

  datatype CollectorOptions = CollectorOptions(dryRun: bool, confirmWrite: string, maxOccasions: nat)

  /** The two variables read; None when unset. */
  datatype Environment = Environment(enabled: Option<string>, databaseUrl: Option<string>)

  /** Whether the candidate freeze holds, and whether the repository, clock and store could be made. */
  datatype Setup = Setup(frozen: bool, ready: bool)

  datatype Final = DISABLED | CONFIGURATION_ERROR | DRY_RUN | CONFIRMATION_REQUIRED | FREEZE_MISMATCH | READ_UNAVAILABLE
                 | OK | PARTIAL_FAILURE

  datatype Report = Report(
    enabled: bool,
    dryRun: bool,
    occasionsInserted: nat,
    predictionsInserted: nat,
    skipped: nat,
    orphans: nat,
    failed: nat,
    marketSelections: nat,
    cells: seq<C.Cell>,
    classification: Final,
    exitCode: nat)

  datatype Outcome = Reported(report: Report) | Uncaught

  function ReportOf(options: CollectorOptions, enabled: bool, s: C.State, classification: Final): Report {
    Report(enabled, options.dryRun, s.inserted, s.inserted * 2, s.skipped, s.orphans, s.failed, s.selections, s.cells,
           classification, if s.failed == 0 && classification != CONFIGURATION_ERROR then 0 else 1)
  }

  /** What stops the run before the loop, and the failures it reports. */
  function Refusal(options: CollectorOptions, environment: Environment, setup: Setup): Option<(Final, nat)> {
    if environment.enabled != Some("true") then
      Some((if environment.enabled in {None, Some(""), Some("false")} then DISABLED else CONFIGURATION_ERROR, 0))
    else if options.dryRun then Some((DRY_RUN, 0))
    else if options.confirmWrite != C.WRITE_CONFIRMATION then Some((CONFIRMATION_REQUIRED, 1))
    else if environment.databaseUrl in {None, Some("")} then Some((CONFIGURATION_ERROR, 1))
    else if !setup.frozen then Some((FREEZE_MISMATCH, 1))
    else if !setup.ready then Some((READ_UNAVAILABLE, 1))
    else None
  }

  /** Enabled in so many words, confirmed in full, with a store named, and everything made. */
  predicate MayRun(options: CollectorOptions, environment: Environment, setup: Setup) {
    && environment.enabled == Some("true") && !options.dryRun && options.confirmWrite == "WRITE-OOS-PAIR-EVIDENCE"
    && environment.databaseUrl.Some? && environment.databaseUrl.value != "" && setup.frozen && setup.ready
  }

  lemma SameText(unset: Option<string>, text: string)
    ensures unset == Some(text) <==> unset.Some? && unset.value == text
  {
  }

  lemma MayRunMeans(options: CollectorOptions, environment: Environment, setup: Setup)
    ensures Refusal(options, environment, setup) == None <==> MayRun(options, environment, setup)
  {
    SameText(environment.databaseUrl, "");
    assert C.WRITE_CONFIRMATION == "WRITE-OOS-PAIR-EVIDENCE";
    hide C.WRITE_CONFIRMATION;
  }

  /** Which refusal is given, and what its report says. */
  lemma RefusalMeans(options: CollectorOptions, environment: Environment, setup: Setup, matrix: seq<C.Place>)
    ensures Refusal(options, environment, setup) == None <==> MayRun(options, environment, setup)
    ensures Refusal(options, environment, setup).Some? ==>
      var refusal := Refusal(options, environment, setup).value;
      var report := RefusalReport(options, environment, matrix, refusal);
      var on := environment.enabled == Some("true");
      var writing := on && !options.dryRun;
      var confirmed := writing && options.confirmWrite == "WRITE-OOS-PAIR-EVIDENCE";
      && (report.classification == DISABLED <==>
            environment.enabled == None || environment.enabled.value == "" || environment.enabled.value == "false")
      && (report.classification == DRY_RUN <==> on && options.dryRun)
      && (report.classification == CONFIRMATION_REQUIRED <==> writing && !confirmed)
      && (report.classification == FREEZE_MISMATCH ==> confirmed && !setup.frozen)
      && (report.classification == READ_UNAVAILABLE ==> confirmed && setup.frozen && !setup.ready)
      && report.classification != OK && report.classification != PARTIAL_FAILURE
      && (report.exitCode == 0 <==> report.classification == DISABLED || report.classification == DRY_RUN)
      && report.failed == (if writing then 1 else 0)
      && report.enabled == on && report.cells == [] && report.occasionsInserted == 0 && report.predictionsInserted == 0
      && report.skipped == (if report.classification == DRY_RUN then |matrix| else 0)
  {
    MayRunMeans(options, environment, setup);
    SameText(environment.enabled, "");
    SameText(environment.enabled, "false");
    assert "true"[0] == 't' && "false"[0] == 'f';
    assert environment.enabled == Some("true") ==> environment.enabled.value[0] == 't';
    hide MayRun, C.WRITE_CONFIRMATION;
    assert C.WRITE_CONFIRMATION == "WRITE-OOS-PAIR-EVIDENCE" by {
      Confirmation();
    }
  }

  lemma Confirmation()
    ensures C.WRITE_CONFIRMATION == "WRITE-OOS-PAIR-EVIDENCE"
  {
  }

  class Collector {
    var rows: seq<C.Row>
    var pending: set<string>
    var attempted: nat
    var inserted: nat
    var skipped: nat
    var orphans: nat
    var failed: nat
    var selections: nat
    var cells: seq<C.Cell>
    ghost var persists: nat
    ghost var raised: bool

    ghost function Abs(): C.State
      reads this
    {
      C.State(rows, pending, attempted, inserted, skipped, orphans, failed, selections, cells, persists, raised)
    }

    constructor (rows: seq<C.Row>, pending: set<string>)
      ensures Abs() == C.Begun(rows, pending)
    {
      this.rows, this.pending := rows, pending;
      attempted, inserted, skipped, orphans, failed, selections, cells := 0, 0, 0, 0, 0, 0, [];
      persists, raised := 0, false;
    }

    method FetchLatestOosOccasion(place: C.Place) returns (latest: Option<C.Time>)
      ensures latest == C.Latest(rows, place)
    {
      latest := None;
      for i := 0 to |rows|
        invariant latest == C.Latest(rows[..i], place)
      {
        if rows[i].place == place && (latest == None || latest.value <= rows[i].close) {
          latest := Some(rows[i].close);
        }
        assert rows[..i + 1][..i] == rows[..i];
      }
      assert rows[..|rows|] == rows;
    }

    method CountOosOccasionRows(place: C.Place, close: C.Time) returns (n: nat)
      ensures n == C.Count(rows, place, close)
    {
      n := 0;
      for i := 0 to |rows|
        invariant n == C.Count(rows[..i], place, close)
      {
        if rows[i].place == place && rows[i].close == close {
          n := n + 1;
        }
        assert rows[..i + 1][..i] == rows[..i];
      }
      assert rows[..|rows|] == rows;
    }

    method Skip(cell: C.Cell)
      modifies this`skipped, this`cells
      ensures Abs() == C.Skip(old(Abs()), cell)
    {
      skipped := skipped + 1;
      cells := cells + [cell];
    }

    method Fail(cell: C.Cell)
      modifies this`failed, this`cells
      ensures Abs() == C.Fail(old(Abs()), cell)
    {
      failed := failed + 1;
      cells := cells + [cell];
    }

    /** `analyze` of one arm: its rows may be left pending even when it raises. */
    method Analyze(runId: string, analysis: C.Analysis) returns (ok: bool)
      modifies this`pending
      ensures ok == !analysis.raises
      ensures pending == old(pending) || pending == old(pending) + {runId}
    {
      if analysis.leavesPending {
        pending := pending + {runId};
      }
      ok := !analysis.raises;
    }

    /** The two analyses, the cap and the persist call; false where the source raises. */
    method PersistPair(place: C.Place, close: C.Time, runId: string, a: C.Answers) returns (ok: bool)
      modifies this`rows, this`pending, this`persists
      ensures pending - {runId} == old(pending) - {runId}
      ensures var within := (inserted + 1) * 2 <= C.MAX_PREDICTIONS_PER_RUN && !a.baseline.raises && !a.candidate.raises;
        && ok == (within && a.persisted.reply == C.Overall(true))
        && rows == (if within then old(rows) + C.RowsOf(place, close, runId, a.persisted.stored) else old(rows))
        && persists == (if within then old(persists) + 1 else old(persists))
    {
      var analyzed := Analyze(runId, a.baseline);
      if !analyzed {
        return false;
      }
      analyzed := Analyze(runId, a.candidate);
      if !analyzed {
        return false;
      }
      if (inserted + 1) * 2 > C.MAX_PREDICTIONS_PER_RUN {
        return false;
      }
      rows := rows + C.RowsOf(place, close, runId, a.persisted.stored);
      persists := persists + 1;
      return a.persisted.reply == C.Overall(true);
    }

    /** The source's try, except, else and finally around one pair: whatever the analyses leave pending
        under its run, and whatever raises, the run is dropped and no other is touched. */
    method Insert(place: C.Place, close: C.Time, a: C.Answers)
      modifies this`rows, this`pending, this`persists, this`inserted, this`failed, this`cells
      ensures Abs() == C.Insert(old(Abs()), place, close, a)
      ensures pending == old(pending) - if a.pair.Some? then {a.pair.value} else {}
    {
      if a.pair == None {
        Fail(C.Cell(place, C.FAILED, Some(close), None));
        return;
      }
      var runId := a.pair.value;
      var ok := PersistPair(place, close, runId, a);
      if ok {
        inserted := inserted + 1;
        cells := cells + [C.Cell(place, C.INSERTED, Some(close), Some(runId))];
      } else {
        Fail(C.Cell(place, C.FAILED, Some(close), None));
      }
      pending := pending - {runId};
    }

    method Attempt(place: C.Place, now: C.Time, a: C.Answers) returns (ok: bool)
      requires !raised
      modifies this
      ensures Abs() == C.Attempt(old(Abs()), place, now, a) && ok == !raised
    {
      hide C.AttemptReference, C.Boundary;
      ok := true;
      if a.selection == None {
        Fail(C.Cell(place, C.SELECTION_FAILED, None, None));
        return;
      }
      selections := selections + 1;
      var selection := a.selection.value;
      if !selection.isLive || !C.IsCurrentLiveReference(selection.reference, selection.asOf, now, place.timeframe) {
        Fail(C.Cell(place, C.BACKFILL_REFUSED, None, None));
        return;
      }
      ok := AttemptReference(place, selection.reference.value, a);
    }

    /** From an accepted reference close on. */
    method AttemptReference(place: C.Place, close: C.Time, a: C.Answers) returns (ok: bool)
      requires !raised
      modifies this
      ensures ok == !raised
      ensures Abs() == C.AttemptReference(old(Abs()), place, close, a)
    {
      hide C.Count, C.Insert;
      ok := true;
      if !a.countsRows {
        Fail(C.Cell(place, C.READ_UNAVAILABLE, None, None));
        return;
      }
      var existing := CountOosOccasionRows(place, close);
      if existing > 0 {
        if existing == 1 {
          orphans := orphans + 1;
        }
        Skip(C.Cell(place, if existing == 1 then C.ORPHAN_SKIPPED else C.OCCASION_EXISTS, Some(close), None));
        return;
      }
      if !a.costs {
        raised := true;
        return false;
      }
      Insert(place, close, a);
    }

    method Visit(maxOccasions: nat, place: C.Place, now: C.Time, a: C.Answers) returns (ok: bool)
      requires !raised
      modifies this
      ensures Abs() == C.Visit(old(Abs()), maxOccasions, place, now, a) && ok == !raised
    {
      hide C.Latest, C.Attempt;
      ok := true;
      if attempted >= maxOccasions {
        Skip(C.Cell(place, C.SKIPPED_CAP, None, None));
        return;
      }
      if !a.readsLatest {
        Fail(C.Cell(place, C.READ_UNAVAILABLE, None, None));
        return;
      }
      var latest := FetchLatestOosOccasion(place);
      if !C.IsDue(latest, now, place.timeframe.Period()) {
        Skip(C.Cell(place, C.NOT_DUE, None, None));
        return;
      }
      attempted := attempted + 1;
      ok := Attempt(place, now, a);
    }

    /** The loop over the matrix. */
    method Collect(maxOccasions: nat, matrix: seq<C.Place>, now: C.Time, answers: seq<C.Answers>) returns (ok: bool)
      requires !raised && |answers| == |matrix|
      modifies this
      ensures Abs() == C.Collect(old(Abs()), maxOccasions, matrix, now, answers) && ok == !raised
    {
      hide C.Visit;
      ok := true;
      var i := 0;
      while i < |matrix| && ok
        invariant i <= |matrix| && ok == !raised
        invariant Abs() == C.Collect(old(Abs()), maxOccasions, matrix[..i], now, answers[..i])
      {
        ok := Visit(maxOccasions, matrix[i], now, answers[i]);
        assert matrix[..i + 1][..i] == matrix[..i] && answers[..i + 1][..i] == answers[..i];
        i := i + 1;
      }
      C.RaisedStops(old(Abs()), maxOccasions, matrix, now, answers, i);
    }
  }

  /** Nothing attempted, selected or inserted; a dry run skips every cell. */
  function RefusalReport(options: CollectorOptions, environment: Environment, matrix: seq<C.Place>, refusal: (Final, nat)): Report {
    Report(environment.enabled == Some("true"), options.dryRun, 0, 0, if refusal.0 == DRY_RUN then |matrix| else 0, 0, refusal.1, 0, [],
           refusal.0, if refusal.1 == 0 && refusal.0 != CONFIGURATION_ERROR then 0 else 1)
  }

  /** `run_collector`: one run, over the repository's `rows`. */
  method RunCollector(options: CollectorOptions, environment: Environment, setup: Setup, matrix: seq<C.Place>, now: C.Time,
                      answers: seq<C.Answers>, rows: seq<C.Row>, pending: set<string>)
    returns (outcome: Outcome, rows': seq<C.Row>, pending': set<string>)
    requires |answers| == |matrix|
    ensures var refusal := Refusal(options, environment, setup);
      var s := C.Collect(C.Begun(rows, pending), options.maxOccasions, matrix, now, answers);
      && (refusal.Some? ==>
            && rows' == rows && pending' == pending
            && outcome == Reported(RefusalReport(options, environment, matrix, refusal.value)))
      && (refusal == None ==> rows' == s.rows && pending' == s.pending && (outcome.Uncaught? <==> s.raised))
      && (refusal == None && outcome.Reported? ==>
            outcome.report == ReportOf(options, true, s, if s.failed == 0 then OK else PARTIAL_FAILURE))
    ensures outcome.Reported? ==>
      && (outcome.report.exitCode == 0 <==> outcome.report.failed == 0 && outcome.report.classification != CONFIGURATION_ERROR)
      && outcome.report.predictionsInserted == 2 * outcome.report.occasionsInserted <= C.MAX_PREDICTIONS_PER_RUN
  {
    hide C.Collect;
    var refusal := Refusal(options, environment, setup);
    if refusal.Some? {
      return Reported(RefusalReport(options, environment, matrix, refusal.value)), rows, pending;
    }
    C.EveryCellIsCountedOnce(C.Begun(rows, pending), options.maxOccasions, matrix, now, answers);
    var run := new Collector(rows, pending);
    var ok := run.Collect(options.maxOccasions, matrix, now, answers);
    rows', pending' := run.rows, run.pending;
    if !ok {
      return Uncaught, rows', pending';
    }
    var classification := if run.failed == 0 then OK else PARTIAL_FAILURE;
    outcome := Reported(Report(true, options.dryRun, run.inserted, run.inserted * 2, run.skipped, run.orphans, run.failed,
                               run.selections, run.cells, classification, if run.failed == 0 then 0 else 1));
  }
}
