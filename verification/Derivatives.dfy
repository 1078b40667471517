/** scripts/collect_derivatives_evidence.py: what one run decides, cell by cell, over values.
    DerivativesRun.dfy runs it on the source's shared, mutable result rows. */
module Derivatives {
  // A time is a whole number of microseconds since the epoch. What the dependencies answer is an input;
  // the cadence guard is src/crypto_probability_engine/derivatives_intel/cadence_guard.py.

  import opened Options

  type Time = int

  const SECOND := 1_000_000
  const MAX_MATRIX_CELLS := 4
  const MAX_NEW_PREDICTIONS := 4
  const MAX_NEW_DERIVATIVES_SNAPSHOTS := 4
  const WRITE_CONFIRMATION := "WRITE-EVIDENCE"
  const SCHEDULED_ORIGIN := "SCHEDULED_SHADOW_EVIDENCE"
  const DERIVATIVES_METHODOLOGY := "deriv-intel-okx-shadow-v1"
  const DERIVATIVES_PROVIDER_POLICY := "deriv-provider-policy-okx-only-v1"
  /** 2026-07-14T08:00:00Z */
  const CUTOVER_CLOSE_UTC: Time := 1_784_016_000 * SECOND

  datatype Timeframe = H1 | H4 {
    function Text(): string {
      match this case H1 => "1H" case H4 => "4H"
    }
    /** CADENCE_WINDOWS */
    function PostCloseDelay(): Time {
      300 * SECOND
    }
    function MaxLateness(): Time {
      match this case H1 => 1200 * SECOND case H4 => 1800 * SECOND
    }
  }

  datatype CellName = CellName(symbol: string, timeframe: Timeframe)

  datatype Classification =
    | INSERTED | ALREADY_EXISTS | SKIPPED_DISABLED | SKIPPED_DRY_RUN | SKIPPED_REFERENCE_UNCERTAIN
    | PROVIDER_UNAVAILABLE | PARTIAL_PERSISTENCE | FAILED_SAFETY_INVARIANT | REJECTED_METHODOLOGY_CUTOVER
    | REJECTED_OUTSIDE_WINDOW | CONFIGURATION_ERROR | FAILED

  // ------------------------------------------------------------------ payloads

  datatype Json =
    | Nothing | Bool(b: bool) | Number(n: real) | Text(s: string) | List(items: seq<Json>)
    | Mapping(entries: seq<Entry>)

  datatype Entry = Entry(key: string, value: Json)

  datatype Block = Block(
    methodology: Option<string>,
    providerPolicy: Option<string>,
    influenceMode: Option<string>,
    decisionInfluence: Json,
    status: Option<string>)

  /** A stored reference close: its text, and the time it parses to, if it does. */
  datatype Reference = Reference(text: string, at: Option<Time>)

  datatype PendingRow = PendingRow(
    runId: Option<string>,
    predictionId: Option<string>,
    timeframe: Option<string>,
    origin: Option<string>,
    symbol: Option<string>,
    reference: Option<Reference>)

  datatype Inspection = Inspection(predictions: seq<PendingRow>, featureFailed: bool, derivativesFailed: bool)

  /** `protectedState`: probability_state, score_stack, gate_result, decision_synthesis. */
  datatype Payload = Payload(
    runId: Option<string>,
    inspection: Option<Inspection>,
    block: Option<Block>,
    protectedState: seq<Json>)

  datatype Identity = Identity(predictionId: string, origin: string, reference: Reference)

  datatype Confirmation =
    | PersistRaised
    | NoMapping
    | Confirmed(prediction: Option<string>, derivatives: Option<string>, overall: Option<string>)

  datatype Answers = Answers(analysis: Option<Payload>, confirmation: Confirmation)

  /** One row of the report. */
  datatype Row = Row(
    name: CellName,
    runId: Option<string>,
    predictionId: Option<string>,
    reference: Option<Reference>,
    classification: Classification,
    guard: Option<Admission>,
    methodology: Option<string>,
    providerPolicy: Option<string>,
    providerStatus: Option<string>,
    predictionStatus: Option<string>,
    derivativesStatus: Option<string>)

  function BlankRow(name: CellName, classification: Classification): Row {
    Row(name, None, None, None, classification, None, Some(DERIVATIVES_METHODOLOGY), Some(DERIVATIVES_PROVIDER_POLICY),
        None, None, None)
  }

  // ------------------------------------------------------------------ the cadence guard

  datatype Guard = Admitted | CutoverRejected | WindowRejected | Misconfigured

  datatype Reason = ADMITTED | AT_OR_BEFORE_CUTOVER | TOO_EARLY | TOO_LATE | UNSUPPORTED_METHODOLOGY

  /** What the guard says of one cell; the policy's name and its cutover are the same in all. `window`: the
      delay and the lateness. */
  datatype Admission = Admission(
    verdict: Guard, reason: Reason, window: Option<(Time, Time)>, earliest: Option<Time>, latest: Option<Time>, evaluatedAt: Option<Time>)

  /** `evaluate_cadence_admission`, with the windows and the cutover it has by default. It gives back the
      methodology it is asked about, so a row keeps its own. */
  function EvaluateCadenceAdmission(methodology: Option<string>, timeframe: Timeframe, reference: Time, now: Time): Admission {
    if methodology != Some(DERIVATIVES_METHODOLOGY) then Admission(Misconfigured, UNSUPPORTED_METHODOLOGY, None, None, None, None)
    else
      var earliest, latest := reference + timeframe.PostCloseDelay(), reference + timeframe.MaxLateness();
      var (verdict, reason) :=
        if reference <= CUTOVER_CLOSE_UTC then (CutoverRejected, AT_OR_BEFORE_CUTOVER)
        else if now < earliest then (WindowRejected, TOO_EARLY)
        else if now > latest then (WindowRejected, TOO_LATE)
        else (Admitted, Reason.ADMITTED);
      Admission(verdict, reason, Some((timeframe.PostCloseDelay(), timeframe.MaxLateness())), Some(earliest), Some(latest), Some(now))
  }

  // ------------------------------------------------------------------ no influence on a decision

  function Lower(c: char): char {
    if 'A' <= c <= 'Z' then (c as int + 32) as char else c
  }

  function LowerCase(s: string): string {
    seq(|s|, i requires 0 <= i < |s| => Lower(s[i]))
  }

  predicate StandsAt(s: string, i: nat, part: string) {
    i + |part| <= |s| && s[i..i + |part|] == part
  }

  predicate Contains(s: string, part: string) {
    exists i :: 0 <= i <= |s| && StandsAt(s, i, part)
  }

  /** Python's nested == 0.0: False equals zero too. */
  predicate IsZero(value: Json) {
    (value.Number? && value.n == 0.0) || value == Bool(false)
  }

  predicate Influences(e: Entry) {
    var key := LowerCase(e.key);
    || (key == "decision_influence_frac" && !IsZero(e.value))
    || (Contains(key, "deriv") && Contains(key, "influence"))
  }

  /** `_contains_derivatives_influence` */
  predicate ContainsInfluence(value: Json) {
    match value
    case Mapping(entries) => EntriesInfluence(entries)
    case List(items) => AnyInfluence(items)
    case _ => false
  }

  predicate AnyInfluence(items: seq<Json>) {
    items != [] && (ContainsInfluence(items[0]) || AnyInfluence(items[1..]))
  }

  predicate EntriesInfluence(entries: seq<Entry>) {
    entries != [] &&
    (Influences(entries[0]) || ContainsInfluence(entries[0].value) || EntriesInfluence(entries[1..]))
  }

  /** Every entry of every mapping in a value, however deep. */
  function Entries(value: Json): set<Entry> {
    match value
    case Mapping(entries) => EntriesUnder(entries)
    case List(items) => EntriesAmong(items)
    case _ => {}
  }

  function EntriesAmong(items: seq<Json>): set<Entry> {
    if items == [] then {} else Entries(items[0]) + EntriesAmong(items[1..])
  }

  function EntriesUnder(entries: seq<Entry>): set<Entry> {
    if entries == [] then {} else {entries[0]} + Entries(entries[0].value) + EntriesUnder(entries[1..])
  }

  /** MAIN: a value is refused exactly when some entry in it, however deep, influences a decision. */
  lemma {:induction false} InfluenceIsFoundAtAnyDepth(value: Json)
    ensures ContainsInfluence(value) <==> exists e :: e in Entries(value) && Influences(e)
  {
    hide Influences;
    match value
    case Mapping(entries) => InfluenceUnder(entries);
    case List(items) => InfluenceAmong(items);
    case _ =>
  }

  lemma {:induction false} InfluenceAmong(items: seq<Json>)
    ensures AnyInfluence(items) <==> exists e :: e in EntriesAmong(items) && Influences(e)
  {
    hide Influences;
    if items != [] {
      InfluenceIsFoundAtAnyDepth(items[0]);
      InfluenceAmong(items[1..]);
    }
  }

  lemma {:induction false} InfluenceUnder(entries: seq<Entry>)
    ensures EntriesInfluence(entries) <==> exists e :: e in EntriesUnder(entries) && Influences(e)
  {
    hide Influences;
    if entries != [] {
      InfluenceIsFoundAtAnyDepth(entries[0].value);
      InfluenceUnder(entries[1..]);
      if Influences(entries[0]) {
        assert entries[0] in EntriesUnder(entries);
      }
    }
  }

  /** `_safety_invariants_hold` */
  predicate SafetyInvariantsHold(payload: Payload, identity: Identity) {
    && payload.block.Some?
    && var block := payload.block.value;
      && identity.origin == SCHEDULED_ORIGIN
      && block.methodology == Some(DERIVATIVES_METHODOLOGY)
      && block.providerPolicy == Some(DERIVATIVES_PROVIDER_POLICY)
      && block.influenceMode == Some("SHADOW_ONLY")
      && IsZero(block.decisionInfluence)
      && block.status in {Some("ACTIVE"), Some("DEGRADED"), Some("UNAVAILABLE")}
      && forall value :: value in payload.protectedState ==> !ContainsInfluence(value)
  }

  // ------------------------------------------------------------------ one cell

  /** ^cadence-[0-9a-f]{32}$ */
  predicate WellFormedRunId(s: string) {
    && |s| == 40 && s[..8] == "cadence-"
    && forall i :: 8 <= i < 40 ==> '0' <= s[i] <= '9' || 'a' <= s[i] <= 'f'
  }

  /** `_validated_pending_identity` */
  function ValidatedIdentity(payload: Payload, name: CellName): Option<Identity> {
    if payload.runId == None || !WellFormedRunId(payload.runId.value) || payload.inspection == None then None
    else
      var found := payload.inspection.value;
      if found.featureFailed || found.derivativesFailed || |found.predictions| != 1 then None
      else
        var row := found.predictions[0];
        var id := payload.runId.value + ":" + name.timeframe.Text();
        if row.runId != payload.runId || row.predictionId != Some(id) || row.timeframe != Some(name.timeframe.Text())
          || row.origin != Some(SCHEDULED_ORIGIN) || row.symbol != Some(name.symbol)
          || row.reference == None || row.reference.value.text == ""
        then None
        else Some(Identity(id, SCHEDULED_ORIGIN, row.reference.value))
  }

  /** `_analyze_cell`: the row, and whether it goes on to the preflight. */
  function AnalyzedIdentity(name: CellName, a: Answers): Option<Identity> {
    if a.analysis == None then None else ValidatedIdentity(a.analysis.value, name)
  }

  function Analyzed(name: CellName, a: Answers): Row {
    var blank := BlankRow(name, FAILED);
    if a.analysis == None then blank
    else
      var payload := a.analysis.value;
      var row := blank.(runId := payload.runId);
      var identity := ValidatedIdentity(payload, name);
      if identity == None then row.(classification := SKIPPED_REFERENCE_UNCERTAIN)
      else
        var known := row.(predictionId := Some(identity.value.predictionId), reference := Some(identity.value.reference));
        if payload.block == None then known
        else
          var block := payload.block.value;
          known.(providerStatus := block.status, methodology := block.methodology, providerPolicy := block.providerPolicy)
  }

  function Verdict(guard: Guard): Classification {
    match guard
    case Admitted => FAILED
    case CutoverRejected => REJECTED_METHODOLOGY_CUTOVER
    case WindowRejected => REJECTED_OUTSIDE_WINDOW
    case Misconfigured => CONFIGURATION_ERROR
  }

  function ReferenceTime(row: Row): Option<Time> {
    if row.reference.Some? then row.reference.value.at else None
  }

  /** `_apply_preflight` */
  function Preflight(row: Row, payload: Payload, identity: Identity, dryRun: bool, now: Time): Row {
    if ReferenceTime(row) == None then row.(classification := SKIPPED_REFERENCE_UNCERTAIN)
    else
      var guard := EvaluateCadenceAdmission(row.methodology, row.name.timeframe, ReferenceTime(row).value, now);
      var guarded := row.(guard := Some(guard));
      if guard.verdict != Admitted then guarded.(classification := Verdict(guard.verdict))
      else if !SafetyInvariantsHold(payload, identity) then guarded.(classification := FAILED_SAFETY_INVARIANT)
      else if dryRun then
        guarded.(classification := if row.providerStatus == Some("UNAVAILABLE") then PROVIDER_UNAVAILABLE else SKIPPED_DRY_RUN)
      else guarded.(classification := FAILED)
  }

  function Preflighted(name: CellName, a: Answers, dryRun: bool, now: Time): Row {
    var identity := AnalyzedIdentity(name, a);
    if identity == None then Analyzed(name, a)
    else Preflight(Analyzed(name, a), a.analysis.value, identity.value, dryRun, now)
  }

  /** `_preflight_blocks_persistence` */
  predicate Blocks(row: Row) {
    || row.classification in {CONFIGURATION_ERROR, FAILED_SAFETY_INVARIANT, REJECTED_METHODOLOGY_CUTOVER,
                              REJECTED_OUTSIDE_WINDOW, SKIPPED_REFERENCE_UNCERTAIN}
    || (row.classification == FAILED && !(row.guard.Some? && row.guard.value.verdict == Admitted))
  }

  /** `_persist_cell`, from what the persist call confirms. */
  function Persisted(row: Row, c: Confirmation): Row {
    if !c.Confirmed? then row
    else
      var told := row.(predictionStatus := c.prediction, derivativesStatus := c.derivatives);
      var predictionAccepted := c.prediction in {Some("OK"), Some("STATELESS")};
      var derivativesAccepted := c.derivatives in {Some("INSERTED"), Some("IDENTICAL_DUPLICATE")};
      told.(classification :=
        if row.providerStatus == Some("UNAVAILABLE") then PROVIDER_UNAVAILABLE
        else if c.overall == Some("OK") && predictionAccepted && c.derivatives == Some("INSERTED") then INSERTED
        else if c.overall == Some("OK") && predictionAccepted && c.derivatives == Some("IDENTICAL_DUPLICATE") then ALREADY_EXISTS
        else if predictionAccepted && (c.overall == Some("PARTIAL") || !derivativesAccepted) then PARTIAL_PERSISTENCE
        else FAILED)
  }

  // ------------------------------------------------------------------ the tally and the exit code

  datatype Tally = Tally(newPredictions: nat, newSnapshots: nat, duplicates: nat, skipped: nat, failed: nat)

  predicate Skipped(c: Classification) {
    c in {SKIPPED_DISABLED, SKIPPED_DRY_RUN, SKIPPED_REFERENCE_UNCERTAIN}
  }

  predicate CountsAsFailed(c: Classification) {
    c in {CONFIGURATION_ERROR, PROVIDER_UNAVAILABLE, PARTIAL_PERSISTENCE, FAILED_SAFETY_INVARIANT,
          REJECTED_METHODOLOGY_CUTOVER, REJECTED_OUTSIDE_WINDOW, FAILED, SKIPPED_REFERENCE_UNCERTAIN}
  }

  function TallyRow(t: Tally, row: Row): Tally {
    var inserted := if row.derivativesStatus == Some("INSERTED") then 1 else 0;
    Tally(t.newPredictions + inserted,
          t.newSnapshots + inserted,
          t.duplicates + if row.derivativesStatus == Some("IDENTICAL_DUPLICATE") then 1 else 0,
          t.skipped + if Skipped(row.classification) then 1 else 0,
          t.failed + if CountsAsFailed(row.classification) then 1 else 0)
  }

  /** `_tally_results` */
  function TallyOf(rows: seq<Row>): Tally {
    if rows == [] then Tally(0, 0, 0, 0, 0) else TallyRow(TallyOf(rows[..|rows| - 1]), rows[|rows| - 1])
  }

  predicate CapBreached(rows: seq<Row>) {
    TallyOf(rows).newPredictions > MAX_NEW_PREDICTIONS || TallyOf(rows).newSnapshots > MAX_NEW_DERIVATIVES_SNAPSHOTS
  }

  datatype Final =
    | Ended(classification: Classification)
    | DRY_RUN_COMPLETE
    | COMPLETE_WITH_DEGRADED_PROVIDER
    | COMPLETE
    | DISABLED
    | CONFIRMATION_REQUIRED

  predicate Any(rows: seq<Row>, c: Classification) {
    exists i :: 0 <= i < |rows| && rows[i].classification == c
  }

  /** `_final_result` */
  function FinalResult(dryRun: bool, rows: seq<Row>, breached: bool): (Final, nat) {
    if breached then (Ended(FAILED), 1)
    else if Any(rows, CONFIGURATION_ERROR) then (Ended(CONFIGURATION_ERROR), 1)
    else if Any(rows, FAILED_SAFETY_INVARIANT) then (Ended(FAILED_SAFETY_INVARIANT), 1)
    else if Any(rows, REJECTED_METHODOLOGY_CUTOVER) then (Ended(REJECTED_METHODOLOGY_CUTOVER), 1)
    else if Any(rows, REJECTED_OUTSIDE_WINDOW) then (Ended(REJECTED_OUTSIDE_WINDOW), 1)
    else if Any(rows, PARTIAL_PERSISTENCE) then (Ended(PARTIAL_PERSISTENCE), 1)
    else if Any(rows, FAILED) || Any(rows, PROVIDER_UNAVAILABLE) || Any(rows, SKIPPED_REFERENCE_UNCERTAIN)
    then (Ended(FAILED), 1)
    else if dryRun then (DRY_RUN_COMPLETE, 0)
    else if exists i :: 0 <= i < |rows| && rows[i].providerStatus == Some("DEGRADED") then (COMPLETE_WITH_DEGRADED_PROVIDER, 0)
    else (COMPLETE, 0)
  }

  function FailedCount(rows: seq<Row>, breached: bool): nat {
    TallyOf(rows).failed + if breached then 1 else 0
  }

  lemma {:induction false} FailedWhenSomeRowFailed(rows: seq<Row>)
    ensures TallyOf(rows).failed > 0 <==> exists i :: 0 <= i < |rows| && CountsAsFailed(rows[i].classification)
  {
    hide CountsAsFailed, Skipped;
    if rows != [] {
      var n := |rows| - 1;
      FailedWhenSomeRowFailed(rows[..n]);
      assert forall i :: 0 <= i < n ==> rows[..n][i] == rows[i];
    }
  }

  lemma FailureEndsWithOne(dryRun: bool, rows: seq<Row>, breached: bool)
    ensures FinalResult(dryRun, rows, breached).1 == 0 <==>
      !breached && forall i :: 0 <= i < |rows| ==> !CountsAsFailed(rows[i].classification)
  {
    if i :| 0 <= i < |rows| && CountsAsFailed(rows[i].classification) {
      assert Any(rows, rows[i].classification);
    }
  }

  /** MAIN: two independent readings of the rows agree: no failure is counted exactly when the exit
      code is 0. */
  lemma TallyAgreesWithExitCode(dryRun: bool, rows: seq<Row>, breached: bool)
    ensures FailedCount(rows, breached) == 0 <==> FinalResult(dryRun, rows, breached).1 == 0
  {
    hide FinalResult;
    FailedWhenSomeRowFailed(rows);
    FailureEndsWithOne(dryRun, rows, breached);
  }

  // ------------------------------------------------------------------ the run

  type Cells = seq<(CellName, Answers)>

  function PreflightedRows(cells: Cells, dryRun: bool, now: Time): seq<Row> {
    seq(|cells|, i requires 0 <= i < |cells| => Preflighted(cells[i].0, cells[i].1, dryRun, now))
  }

  /** The report of a run that is not enabled. */
  function SkippedRows(cells: Cells): seq<Row> {
    seq(|cells|, i requires 0 <= i < |cells| => BlankRow(cells[i].0, SKIPPED_DISABLED))
  }

  predicate MayPersist(dryRun: bool, rows: seq<Row>) {
    !dryRun && forall i :: 0 <= i < |rows| ==> !Blocks(rows[i])
  }

  /** What the writing loop leaves: the rows, the persist calls made, and how it stopped. */
  datatype Written = Written(rows: seq<Row>, calls: nat, breached: bool, raised: bool)

  /** The loop from cell `i` on, when every cell may be persisted. */
  function PersistFrom(rows: seq<Row>, cells: Cells, i: nat): Written
    requires |rows| == |cells| && i <= |cells|
    decreases |cells| - i
  {
    if i == |cells| then Written(rows, i, false, false)
    else if cells[i].1.confirmation.PersistRaised? then Written(rows, i + 1, false, true)
    else
      var rows' := rows[i := Persisted(rows[i], cells[i].1.confirmation)];
      if CapBreached(rows') then Written(rows', i + 1, true, false) else PersistFrom(rows', cells, i + 1)
  }

  /** `opens`: the repository, asked for only when the run may write, is given; otherwise that raises. */
  function RunOf(cells: Cells, dryRun: bool, now: Time, opens: bool): Written {
    var rows := PreflightedRows(cells, dryRun, now);
    if !MayPersist(dryRun, rows) then Written(rows, 0, false, false)
    else if !opens then Written(rows, 0, false, true)
    else PersistFrom(rows, cells, 0)
  }

  /** A cell the run may write: analysed, identified, admitted by the guard at `now`, and safe. */
  predicate Ready(name: CellName, a: Answers, now: Time) {
    var identity := AnalyzedIdentity(name, a);
    && identity.Some? && identity.value.reference.at.Some?
    && EvaluateCadenceAdmission(Analyzed(name, a).methodology, name.timeframe, identity.value.reference.at.value, now).verdict == Admitted
    && SafetyInvariantsHold(a.analysis.value, identity.value)
  }

  lemma BlocksUnlessReady(name: CellName, a: Answers, now: Time)
    ensures !Blocks(Preflighted(name, a, false, now)) <==> Ready(name, a, now)
  {
    hide SafetyInvariantsHold, EvaluateCadenceAdmission, WellFormedRunId;
  }

  /** MAIN: nothing is ever written unless every cell of the run was analysed, admitted by the guard
      and safe; one cell that is not stops them all. A dry run never writes. */
  lemma AllOrNothing(cells: Cells, dryRun: bool, now: Time, opens: bool)
    ensures MayPersist(dryRun, PreflightedRows(cells, dryRun, now)) <==>
      !dryRun && forall i :: 0 <= i < |cells| ==> Ready(cells[i].0, cells[i].1, now)
    ensures RunOf(cells, dryRun, now, opens).calls > 0 ==> !dryRun && forall i :: 0 <= i < |cells| ==> Ready(cells[i].0, cells[i].1, now)
  {
    hide Ready, Blocks, Preflighted;
    if !dryRun {
      forall i | 0 <= i < |cells| ensures !Blocks(PreflightedRows(cells, dryRun, now)[i]) <==> Ready(cells[i].0, cells[i].1, now) {
        BlocksUnlessReady(cells[i].0, cells[i].1, now);
      }
    }
  }

  // ------------------------------------------------------------------ what exit code 0 means

  lemma {:induction false} PersistFromExact(rows: seq<Row>, cells: Cells, i: nat)
    requires |rows| == |cells| && i <= |cells|
    ensures var w := PersistFrom(rows, cells, i);
      && |w.rows| == |rows|
      && (forall j :: 0 <= j < i ==> w.rows[j] == rows[j])
      && (!w.raised && !w.breached ==>
            && w.calls == |cells|
            && forall j :: i <= j < |rows| ==> w.rows[j] == Persisted(rows[j], cells[j].1.confirmation))
    decreases |cells| - i
  {
    hide Persisted, CapBreached;
    if i < |cells| && !cells[i].1.confirmation.PersistRaised? {
      PersistFromExact(rows[i := Persisted(rows[i], cells[i].1.confirmation)], cells, i + 1);
    }
  }

  lemma {:induction false} AtMostOnePerRow(rows: seq<Row>)
    ensures TallyOf(rows).newPredictions == TallyOf(rows).newSnapshots
    ensures TallyOf(rows).newSnapshots + TallyOf(rows).duplicates <= |rows|
    ensures TallyOf(rows).newSnapshots + TallyOf(rows).duplicates == |rows| <==>
      forall i :: 0 <= i < |rows| ==> rows[i].derivativesStatus in {Some("INSERTED"), Some("IDENTICAL_DUPLICATE")}
  {
    hide Skipped, CountsAsFailed;
    if rows != [] {
      var n := |rows| - 1;
      AtMostOnePerRow(rows[..n]);
      assert forall i :: 0 <= i < n ==> rows[..n][i] == rows[i];
      TallyOne(TallyOf(rows[..n]), rows[n]);
      hide TallyRow;
    }
  }

  lemma TallyOne(t: Tally, row: Row)
    ensures var u := TallyRow(t, row);
      && u.newPredictions - t.newPredictions == u.newSnapshots - t.newSnapshots
      && u.newSnapshots + u.duplicates == t.newSnapshots + t.duplicates +
           if row.derivativesStatus in {Some("INSERTED"), Some("IDENTICAL_DUPLICATE")} then 1 else 0
  {
  }

  /** MAIN: with the at most four cells a scope has, the insert caps are never passed. */
  lemma {:induction false} CapsAreNeverPassed(rows: seq<Row>, cells: Cells, i: nat)
    requires |rows| == |cells| <= MAX_MATRIX_CELLS && i <= |cells|
    ensures var w := PersistFrom(rows, cells, i);
      && !w.breached && TallyOf(w.rows).newSnapshots <= MAX_NEW_DERIVATIVES_SNAPSHOTS
      && TallyOf(w.rows).newPredictions <= MAX_NEW_PREDICTIONS
    decreases |cells| - i
  {
    hide Persisted, TallyOf;
    AtMostOnePerRow(rows);
    if i < |cells| && !cells[i].1.confirmation.PersistRaised? {
      var rows' := rows[i := Persisted(rows[i], cells[i].1.confirmation)];
      AtMostOnePerRow(rows');
      CapsAreNeverPassed(rows', cells, i + 1);
    }
  }

  /** The store confirmed the cell, as new or as the same again, for a provider that was available. */
  predicate Stored(name: CellName, a: Answers) {
    && a.confirmation.Confirmed? && a.confirmation.overall == Some("OK")
    && a.confirmation.prediction in {Some("OK"), Some("STATELESS")}
    && a.confirmation.derivatives in {Some("INSERTED"), Some("IDENTICAL_DUPLICATE")}
    && Analyzed(name, a).providerStatus != Some("UNAVAILABLE")
  }

  lemma WrittenRow(name: CellName, a: Answers, now: Time)
    requires Ready(name, a, now)
    ensures var row := Persisted(Preflighted(name, a, false, now), a.confirmation);
      && (!CountsAsFailed(row.classification) <==> Stored(name, a))
      && (Stored(name, a) ==>
            && row.classification in {INSERTED, ALREADY_EXISTS}
            && row.derivativesStatus == a.confirmation.derivatives
            && (row.classification == INSERTED <==> row.derivativesStatus == Some("INSERTED")))
  {
    hide SafetyInvariantsHold, EvaluateCadenceAdmission, ValidatedIdentity;
    var row := Preflighted(name, a, false, now);
    assert row.classification == FAILED && row.providerStatus == Analyzed(name, a).providerStatus;
    hide Preflight, Analyzed;
  }

  /** MAIN: a writing run that ends exits with 0 exactly when every cell was ready and its storing was
      confirmed; and then every row says INSERTED or ALREADY_EXISTS, and the new snapshots and the
      duplicates add up to the cells. */
  lemma ExitZeroExactlyWhenAllStored(cells: Cells, now: Time, opens: bool)
    requires |cells| <= MAX_MATRIX_CELLS && !RunOf(cells, false, now, opens).raised
    ensures var w := RunOf(cells, false, now, opens);
      && (FinalResult(false, w.rows, w.breached).1 == 0 <==>
            forall i :: 0 <= i < |cells| ==> Ready(cells[i].0, cells[i].1, now) && Stored(cells[i].0, cells[i].1))
      && (FinalResult(false, w.rows, w.breached).1 == 0 ==>
            && |w.rows| == |cells| == w.calls
            && (forall i :: 0 <= i < |cells| ==> w.rows[i].classification in {INSERTED, ALREADY_EXISTS})
            && TallyOf(w.rows).newSnapshots + TallyOf(w.rows).duplicates == |cells|)
  {
    hide FinalResult, TallyOf, Persisted, Preflighted, Ready, Stored, CountsAsFailed, Blocks;
    var rows := PreflightedRows(cells, false, now);
    var w := RunOf(cells, false, now, opens);
    AllOrNothing(cells, false, now, opens);
    FailureEndsWithOne(false, w.rows, w.breached);
    if MayPersist(false, rows) {
      PersistFromExact(rows, cells, 0);
      CapsAreNeverPassed(rows, cells, 0);
      forall i | 0 <= i < |cells|
        ensures !CountsAsFailed(w.rows[i].classification) <==> Stored(cells[i].0, cells[i].1)
        ensures Stored(cells[i].0, cells[i].1) ==>
          && w.rows[i].classification in {INSERTED, ALREADY_EXISTS}
          && w.rows[i].derivativesStatus in {Some("INSERTED"), Some("IDENTICAL_DUPLICATE")}
      {
        WrittenRow(cells[i].0, cells[i].1, now);
        StoredStatus(cells[i].0, cells[i].1);
      }
      AtMostOnePerRow(w.rows);
    } else {
      BlockedRowFails(cells, now);
    }
  }

  lemma StoredStatus(name: CellName, a: Answers)
    ensures Stored(name, a) ==> a.confirmation.Confirmed? && a.confirmation.derivatives in {Some("INSERTED"), Some("IDENTICAL_DUPLICATE")}
  {
  }

  lemma BlockedRowFails(cells: Cells, now: Time)
    requires !MayPersist(false, PreflightedRows(cells, false, now))
    ensures exists i :: 0 <= i < |cells| && CountsAsFailed(PreflightedRows(cells, false, now)[i].classification)
  {
    var rows := PreflightedRows(cells, false, now);
    assert |rows| == |cells|;
    hide PreflightedRows;
    var i :| 0 <= i < |rows| && Blocks(rows[i]);
    assert CountsAsFailed(rows[i].classification);
  }
}
