/** What a derivatives run writes and reports, said of what it was given alone. */
module DerivativesMeaning {
  import opened Options
  import opened Derivatives

  // ------------------------------------------------------------------ no influence, by position

  /** The letter itself, or its capital. */
  predicate SameLetter(c: char, small: char) {
    c == small || ('A' <= c <= 'Z' && c as int - 'A' as int == small as int - 'a' as int)
  }

  predicate Spells(s: string, name: string) {
    |s| == |name| && forall k :: 0 <= k < |s| ==> SameLetter(s[k], name[k])
  }

  predicate SpelledAt(s: string, i: nat, part: string) {
    i + |part| <= |s| && Spells(s[i..i + |part|], part)
  }

  ghost predicate Within(part: string, s: string) {
    exists i :: SpelledAt(s, i, part)
  }

  predicate Zero(value: Json) {
    value == Number(0.0) || value == Bool(false)
  }

  /** An entry that gives derivatives a weight in a decision. */
  ghost predicate Weighs(e: Entry) {
    || (Spells(e.key, "decision_influence_frac") && !Zero(e.value))
    || (Within("deriv", e.key) && Within("influence", e.key))
  }

  /** The way down from a value to one inside it: item by item, entry by entry. */
  predicate Leads(value: Json, path: seq<nat>, inside: Json) {
    if path == [] then value == inside
    else
      match value
      case List(items) => path[0] < |items| && Leads(items[path[0]], path[1..], inside)
      case Mapping(entries) => path[0] < |entries| && Leads(entries[path[0]].value, path[1..], inside)
      case _ => false
  }

  ghost predicate EntryAt(value: Json, path: seq<nat>, entries: seq<Entry>, e: Entry) {
    Leads(value, path, Mapping(entries)) && e in entries
  }

  ghost predicate WeighsNothing(value: Json) {
    forall path, entries, e :: EntryAt(value, path, entries, e) ==> !Weighs(e)
  }

  predicate NoCapital(s: string) {
    forall k :: 0 <= k < |s| ==> !('A' <= s[k] <= 'Z')
  }

  lemma SpellsWhenLower(s: string, name: string)
    requires NoCapital(name)
    ensures LowerCase(s) == name <==> Spells(s, name)
  {
    if |s| == |name| {
      forall k | 0 <= k < |s| ensures LowerCase(s)[k] == name[k] <==> SameLetter(s[k], name[k]) {
      }
    }
  }

  lemma LowerOfPart(s: string, i: nat, n: nat)
    requires i + n <= |s|
    ensures LowerCase(s)[i..i + n] == LowerCase(s[i..i + n])
  {
  }

  lemma WithinWhenContained(part: string, s: string)
    requires NoCapital(part)
    ensures Contains(LowerCase(s), part) <==> Within(part, s)
  {
    hide LowerCase;
    forall i: nat ensures StandsAt(LowerCase(s), i, part) <==> SpelledAt(s, i, part) {
      SameLength(s);
      if i + |part| <= |s| {
        LowerOfPart(s, i, |part|);
        SpellsWhenLower(s[i..i + |part|], part);
      }
    }
    SameLength(s);
    hide StandsAt, SpelledAt;
    if Within(part, s) {
      var i :| SpelledAt(s, i, part);
      SpelledFits(s, i, part);
      assert StandsAt(LowerCase(s), i, part);
    }
  }

  lemma SpelledFits(s: string, i: nat, part: string)
    requires SpelledAt(s, i, part)
    ensures i <= |s|
  {
  }

  lemma SameLength(s: string)
    ensures |LowerCase(s)| == |s|
  {
  }

  lemma WeighsMeans(e: Entry)
    ensures Influences(e) <==> Weighs(e)
  {
    SpellsWhenLower(e.key, "decision_influence_frac");
    WithinWhenContained("deriv", e.key);
    WithinWhenContained("influence", e.key);
    hide LowerCase, Contains, Within, Spells;
  }

  // ------------------------------------------------------------------ every entry has its place

  lemma {:induction false} AmongByIndex(items: seq<Json>, e: Entry)
    ensures e in EntriesAmong(items) <==> exists i :: 0 <= i < |items| && e in Entries(items[i])
  {
    hide Entries;
    if items != [] {
      AmongByIndex(items[1..], e);
      assert forall i :: 0 <= i < |items| - 1 ==> items[1..][i] == items[i + 1];
      if i :| 0 <= i < |items| && e in Entries(items[i]) {
        assert i > 0 ==> items[1..][i - 1] == items[i];
      }
    }
  }

  lemma {:induction false} UnderByIndex(entries: seq<Entry>, e: Entry)
    ensures e in EntriesUnder(entries) <==> exists i :: 0 <= i < |entries| && (e == entries[i] || e in Entries(entries[i].value))
  {
    hide Entries;
    if entries != [] {
      UnderByIndex(entries[1..], e);
      assert forall i :: 0 <= i < |entries| - 1 ==> entries[1..][i] == entries[i + 1];
      if i :| 0 <= i < |entries| && (e == entries[i] || e in Entries(entries[i].value)) {
        assert i > 0 ==> entries[1..][i - 1] == entries[i];
      }
    }
  }

  lemma {:induction false} EntryInside(value: Json, path: seq<nat>, entries: seq<Entry>, e: Entry)
    requires EntryAt(value, path, entries, e)
    ensures e in Entries(value)
    decreases |path|
  {
    match value
    case List(items) =>
      EntryInside(items[path[0]], path[1..], entries, e);
      AmongByIndex(items, e);
    case Mapping(es) =>
      UnderByIndex(es, e);
      if path != [] {
        EntryInside(es[path[0]].value, path[1..], entries, e);
      }
    case _ =>
  }

  lemma {:induction false} WayToEntry(value: Json, e: Entry) returns (path: seq<nat>, entries: seq<Entry>)
    requires e in Entries(value)
    ensures EntryAt(value, path, entries, e)
  {
    path, entries := [], [];
    match value
    case List(items) =>
      AmongByIndex(items, e);
      var i :| 0 <= i < |items| && e in Entries(items[i]);
      var rest;
      rest, entries := WayToEntry(items[i], e);
      path := [i] + rest;
      assert path[1..] == rest;
    case Mapping(es) =>
      UnderByIndex(es, e);
      var i :| 0 <= i < |es| && (e == es[i] || e in Entries(es[i].value));
      if e == es[i] {
        entries := es;
      } else {
        var rest;
        rest, entries := WayToEntry(es[i].value, e);
        path := [i] + rest;
        assert path[1..] == rest;
      }
    case _ =>
  }

  /** MAIN: a value is refused exactly when some place in it, however deep, holds an entry that weighs. */
  lemma RefusedExactlyWhenSomethingWeighs(value: Json)
    ensures ContainsInfluence(value) <==> !WeighsNothing(value)
  {
    InfluenceIsFoundAtAnyDepth(value);
    hide ContainsInfluence, Entries, Influences, EntryAt, Weighs;
    if e :| e in Entries(value) && Influences(e) {
      var path, entries := WayToEntry(value, e);
      WeighsMeans(e);
    }
    if path, entries, e :| EntryAt(value, path, entries, e) && Weighs(e) {
      EntryInside(value, path, entries, e);
      WeighsMeans(e);
    }
  }

  // ------------------------------------------------------------------ a cell that may be written

  /** "cadence-" and 32 hexadecimal digits. */
  predicate RunId(s: string) {
    |s| == 40 && "cadence-" <= s && forall i :: 8 <= i < 40 ==> s[i] in "0123456789abcdef"
  }

  function Hours(timeframe: Timeframe): string {
    match timeframe case H1 => "1H" case H4 => "4H"
  }

  /** The one pending row is the cell's own. */
  predicate OwnRow(row: PendingRow, name: CellName, runId: string) {
    && row.runId == Some(runId)
    && row.predictionId == Some(runId + ":" + Hours(name.timeframe))
    && row.timeframe == Some(Hours(name.timeframe))
    && row.origin == Some("SCHEDULED_SHADOW_EVIDENCE")
    && row.symbol == Some(name.symbol)
    && row.reference.Some? && row.reference.value.text != ""
  }

  predicate Identified(p: Payload, name: CellName) {
    && p.runId.Some? && RunId(p.runId.value)
    && p.inspection.Some?
    && var found := p.inspection.value;
       !found.featureFailed && !found.derivativesFailed && |found.predictions| == 1
       && OwnRow(found.predictions[0], name, p.runId.value)
  }

  /** After the cutover of 2026-07-14T08:00:00Z, from five minutes after the close to 20 (1H) or 30 (4H). */
  predicate InItsWindow(close: Time, timeframe: Timeframe, now: Time) {
    && 1_784_016_000_000_000 < close
    && close + 300_000_000 <= now <= close + (match timeframe case H1 => 1_200_000_000 case H4 => 1_800_000_000)
  }

  /** A shadow: the named methodology and policy, no influence, one of three states. */
  predicate Shadow(block: Block) {
    && block.methodology == Some("deriv-intel-okx-shadow-v1")
    && block.providerPolicy == Some("deriv-provider-policy-okx-only-v1")
    && block.influenceMode == Some("SHADOW_ONLY")
    && Zero(block.decisionInfluence)
    && (block.status == Some("ACTIVE") || block.status == Some("DEGRADED") || block.status == Some("UNAVAILABLE"))
  }

  ghost predicate Sound(name: CellName, a: Answers, now: Time) {
    && a.analysis.Some?
    && var p := a.analysis.value;
       && Identified(p, name)
       && (var at := p.inspection.value.predictions[0].reference.value.at; at.Some? && InItsWindow(at.value, name.timeframe, now))
       && p.block.Some? && Shadow(p.block.value)
       && forall value :: value in p.protectedState ==> WeighsNothing(value)
  }

  lemma RunIdMeans(s: string)
    ensures WellFormedRunId(s) <==> RunId(s)
  {
    if |s| == 40 {
      assert forall i :: 8 <= i < 40 ==> (s[i] in "0123456789abcdef" <==> '0' <= s[i] <= '9' || 'a' <= s[i] <= 'f');
      assert s[..8] == "cadence-" <==> "cadence-" <= s;
    }
  }

  lemma IdentityMeans(p: Payload, name: CellName)
    ensures ValidatedIdentity(p, name).Some? <==> Identified(p, name)
    ensures Identified(p, name) ==>
      ValidatedIdentity(p, name).value.reference == p.inspection.value.predictions[0].reference.value
      && ValidatedIdentity(p, name).value.origin == "SCHEDULED_SHADOW_EVIDENCE"
  {
    if p.runId.Some? {
      RunIdMeans(p.runId.value);
    }
    hide WellFormedRunId, RunId;
  }

  /** What the guard says, and why. */
  lemma GuardMeans(methodology: Option<string>, timeframe: Timeframe, close: Time, now: Time)
    ensures var said := EvaluateCadenceAdmission(methodology, timeframe, close, now);
      && (said.verdict.Admitted? <==> methodology == Some("deriv-intel-okx-shadow-v1") && InItsWindow(close, timeframe, now))
      && (said.verdict.Misconfigured? <==> methodology != Some("deriv-intel-okx-shadow-v1"))
      && (said.verdict.CutoverRejected? <==>
            methodology == Some("deriv-intel-okx-shadow-v1") && close <= 1_784_016_000_000_000)
      && (said.reason == TOO_EARLY ==> said.verdict.WindowRejected? && now < close + 300_000_000)
      && (said.reason == TOO_LATE ==> said.verdict.WindowRejected? && now > close + 1_200_000_000)
      && (said.verdict.WindowRejected? ==> said.reason == TOO_EARLY || said.reason == TOO_LATE)
      && (said.verdict.Admitted? <==> said.reason == Reason.ADMITTED)
      && (said.verdict.CutoverRejected? <==> said.reason == AT_OR_BEFORE_CUTOVER)
      && (!said.verdict.Misconfigured? ==>
            said.earliest == Some(close + 300_000_000) && said.evaluatedAt == Some(now)
            && said.latest == Some(close + match timeframe case H1 => 1_200_000_000 case H4 => 1_800_000_000))
  {
  }

  lemma SafeMeans(p: Payload, identity: Identity)
    ensures SafetyInvariantsHold(p, identity) <==>
      && identity.origin == "SCHEDULED_SHADOW_EVIDENCE" && p.block.Some? && Shadow(p.block.value)
      && forall value :: value in p.protectedState ==> WeighsNothing(value)
  {
    forall value | value in p.protectedState ensures ContainsInfluence(value) <==> !WeighsNothing(value) {
      RefusedExactlyWhenSomethingWeighs(value);
    }
    hide ContainsInfluence, WeighsNothing;
  }

  lemma ReadyMeans(name: CellName, a: Answers, now: Time)
    ensures Ready(name, a, now) <==> Sound(name, a, now)
  {
    if a.analysis.Some? {
      var p := a.analysis.value;
      IdentityMeans(p, name);
      var identity := ValidatedIdentity(p, name);
      if identity.Some? {
        SafeMeans(p, identity.value);
        hide SafetyInvariantsHold, ValidatedIdentity, Identified, WeighsNothing;
        if identity.value.reference.at.Some? {
          GuardMeans(Analyzed(name, a).methodology, name.timeframe, identity.value.reference.at.value, now);
          hide EvaluateCadenceAdmission, InItsWindow;
        }
      }
    }
  }

  /** MAIN: the run makes a persist call exactly when it may write, can, and every cell is sound. */
  lemma WritesExactlyWhenEveryCellIsSound(cells: Cells, dryRun: bool, now: Time, opens: bool)
    ensures RunOf(cells, dryRun, now, opens).calls > 0 <==>
      !dryRun && opens && cells != [] && forall i :: 0 <= i < |cells| ==> Sound(cells[i].0, cells[i].1, now)
  {
    AllOrNothing(cells, dryRun, now, opens);
    forall i | 0 <= i < |cells| ensures Ready(cells[i].0, cells[i].1, now) <==> Sound(cells[i].0, cells[i].1, now) {
      ReadyMeans(cells[i].0, cells[i].1, now);
    }
    CallsAreMade(PreflightedRows(cells, dryRun, now), cells, 0);
    hide Ready, Sound, MayPersist, PersistFrom;
  }

  lemma CallsAreMade(rows: seq<Row>, cells: Cells, i: nat)
    requires |rows| == |cells| && i <= |cells|
    ensures PersistFrom(rows, cells, i).calls >= i && (PersistFrom(rows, cells, i).calls > i <==> i < |cells|)
    decreases |cells| - i
  {
    hide Persisted, CapBreached;
    if i < |cells| && !cells[i].1.confirmation.PersistRaised? {
      CallsAreMade(rows[i := Persisted(rows[i], cells[i].1.confirmation)], cells, i + 1);
    }
  }

  // ------------------------------------------------------------------ what each row says

  /** The cell's reference close, when the cell is identified and the close can be read. */
  function Close(name: CellName, a: Answers): Option<Time> {
    if a.analysis.Some? && Identified(a.analysis.value, name)
    then a.analysis.value.inspection.value.predictions[0].reference.value.at
    else None
  }

  predicate NamedMethodology(p: Payload) {
    p.block == None || p.block.value.methodology == Some("deriv-intel-okx-shadow-v1")
  }

  predicate Unavailable(a: Answers) {
    a.analysis.Some? && a.analysis.value.block.Some? && a.analysis.value.block.value.status == Some("UNAVAILABLE")
  }

  lemma CloseMeans(name: CellName, a: Answers)
    ensures ReferenceTime(Analyzed(name, a)) == Close(name, a)
    ensures AnalyzedIdentity(name, a).Some? ==> AnalyzedIdentity(name, a).value.origin == "SCHEDULED_SHADOW_EVIDENCE"
    ensures AnalyzedIdentity(name, a).Some? <==> a.analysis.Some? && Identified(a.analysis.value, name)
  {
    if a.analysis.Some? {
      IdentityMeans(a.analysis.value, name);
      hide ValidatedIdentity, Identified;
    }
  }

  /** MAIN: what a row says before anything is written, and why. */
  lemma PreflightMeans(name: CellName, a: Answers, dryRun: bool, now: Time)
    ensures var said, close := Preflighted(name, a, dryRun, now).classification, Close(name, a);
      && (said == FAILED <==> a.analysis == None || (!dryRun && Sound(name, a, now)))
      && (said == SKIPPED_REFERENCE_UNCERTAIN <==> a.analysis.Some? && close == None)
      && (said == CONFIGURATION_ERROR <==> close.Some? && !NamedMethodology(a.analysis.value))
      && (said == REJECTED_METHODOLOGY_CUTOVER <==>
            close.Some? && NamedMethodology(a.analysis.value) && close.value <= 1_784_016_000_000_000)
      && (said == REJECTED_OUTSIDE_WINDOW <==>
            close.Some? && NamedMethodology(a.analysis.value) && close.value > 1_784_016_000_000_000
            && !InItsWindow(close.value, name.timeframe, now))
      && (said == FAILED_SAFETY_INVARIANT <==>
            close.Some? && NamedMethodology(a.analysis.value) && InItsWindow(close.value, name.timeframe, now)
            && !Sound(name, a, now))
      && (said == PROVIDER_UNAVAILABLE <==> dryRun && Sound(name, a, now) && Unavailable(a))
      && (said == SKIPPED_DRY_RUN <==> dryRun && Sound(name, a, now) && !Unavailable(a))
  {
    CloseMeans(name, a);
    hide ReferenceTime;
    ReadyMeans(name, a, now);
    var close := Close(name, a);
    if a.analysis.Some? && close.Some? {
      assert Analyzed(name, a).providerStatus == Some("UNAVAILABLE") <==> Unavailable(a);
      assert Analyzed(name, a).methodology == Some("deriv-intel-okx-shadow-v1") <==> NamedMethodology(a.analysis.value);
      GuardMeans(Analyzed(name, a).methodology, name.timeframe, close.value, now);
      SafeMeans(a.analysis.value, AnalyzedIdentity(name, a).value);
      hide SafetyInvariantsHold, EvaluateCadenceAdmission, InItsWindow, Identified, Analyzed, WeighsNothing, Shadow, Sound, Ready,
           Unavailable, NamedMethodology;
    }
  }

  predicate Accepted(c: Confirmation) {
    c.Confirmed? && (c.prediction == Some("OK") || c.prediction == Some("STATELESS"))
  }

  predicate SnapshotStored(c: Confirmation) {
    c.Confirmed? && (c.derivatives == Some("INSERTED") || c.derivatives == Some("IDENTICAL_DUPLICATE"))
  }

  /** MAIN: what the row of a sound cell says after its persist call. */
  lemma WrittenMeans(name: CellName, a: Answers, now: Time)
    requires Sound(name, a, now) && !a.confirmation.PersistRaised?
    ensures var c, row := a.confirmation, Persisted(Preflighted(name, a, false, now), a.confirmation);
      var fine := c.Confirmed? && !Unavailable(a) && Accepted(c);
      && (row.classification == PROVIDER_UNAVAILABLE <==> c.Confirmed? && Unavailable(a))
      && (row.classification == INSERTED <==> fine && c.overall == Some("OK") && c.derivatives == Some("INSERTED"))
      && (row.classification == ALREADY_EXISTS <==> fine && c.overall == Some("OK") && c.derivatives == Some("IDENTICAL_DUPLICATE"))
      && (row.classification == PARTIAL_PERSISTENCE <==> fine && (!SnapshotStored(c) || c.overall == Some("PARTIAL")))
      && (row.classification == FAILED <==>
            || c.NoMapping?
            || (!Unavailable(a) && !Accepted(c))
            || (fine && SnapshotStored(c) && c.overall != Some("OK") && c.overall != Some("PARTIAL")))
      && row.predictionStatus == (if c.Confirmed? then c.prediction else None)
      && row.derivativesStatus == (if c.Confirmed? then c.derivatives else None)
  {
    SoundRow(name, a, now);
    hide Preflighted, Sound, Unavailable;
  }

  lemma SoundRow(name: CellName, a: Answers, now: Time)
    requires Sound(name, a, now)
    ensures var row := Preflighted(name, a, false, now);
      && row.classification == FAILED && row.predictionStatus == None && row.derivativesStatus == None
      && (row.providerStatus == Some("UNAVAILABLE") <==> Unavailable(a))
  {
    hide *;
    PreflightMeans(name, a, false, now);
    PreflightKeeps(name, a, false, now);
    SoundIsIdentified(name, a, now);
    AnalyzedSays(name, a);
  }

  lemma SoundIsIdentified(name: CellName, a: Answers, now: Time)
    requires Sound(name, a, now)
    ensures a.analysis.Some? && AnalyzedIdentity(name, a).Some?
  {
    CloseMeans(name, a);
    hide Identified, InItsWindow, Shadow, WeighsNothing;
  }

  lemma AnalyzedSays(name: CellName, a: Answers)
    requires AnalyzedIdentity(name, a).Some?
    ensures var row := Analyzed(name, a);
      && row.predictionStatus == None && row.derivativesStatus == None
      && (row.providerStatus == Some("UNAVAILABLE") <==> Unavailable(a))
  {
    hide ValidatedIdentity;
  }

  lemma PreflightKeeps(name: CellName, a: Answers, dryRun: bool, now: Time)
    ensures var row, before := Preflighted(name, a, dryRun, now), Analyzed(name, a);
      && row.providerStatus == before.providerStatus
      && row.predictionStatus == before.predictionStatus && row.derivativesStatus == before.derivativesStatus
  {
    hide Analyzed, AnalyzedIdentity, SafetyInvariantsHold, EvaluateCadenceAdmission;
  }

  /** The rows before the call that raised are as written; that one and the rest are as they were. */
  lemma {:induction false} WrittenInOrder(rows: seq<Row>, cells: Cells, i: nat)
    requires |rows| == |cells| <= MAX_MATRIX_CELLS && i <= |cells|
    ensures var w := PersistFrom(rows, cells, i);
      && |w.rows| == |rows| && i <= w.calls <= |cells|
      && (w.raised ==> i < w.calls && cells[w.calls - 1].1.confirmation.PersistRaised?)
      && (!w.raised ==> w.calls == |cells|)
      && (forall j :: i <= j < (if w.raised then w.calls - 1 else |cells|) ==>
            !cells[j].1.confirmation.PersistRaised? && w.rows[j] == Persisted(rows[j], cells[j].1.confirmation))
      && (forall j :: 0 <= j < |rows| && (j < i || (w.raised && j >= w.calls - 1)) ==> w.rows[j] == rows[j])
    decreases |cells| - i
  {
    hide Persisted, TallyOf;
    if i < |cells| && !cells[i].1.confirmation.PersistRaised? {
      NoCapIsPassed(rows[i := Persisted(rows[i], cells[i].1.confirmation)]);
      hide CapBreached;
      WrittenInOrder(rows[i := Persisted(rows[i], cells[i].1.confirmation)], cells, i + 1);
    }
  }

  lemma NoCapIsPassed(rows: seq<Row>)
    requires |rows| <= MAX_MATRIX_CELLS
    ensures !CapBreached(rows)
  {
    AtMostOnePerRow(rows);
    hide TallyOf;
  }

  // ------------------------------------------------------------------ the tally and the result

  function With(rows: seq<Row>, holds: Row -> bool): set<nat> {
    set i: nat | i < |rows| && holds(rows[i])
  }

  lemma OneMoreWith(rows: seq<Row>, last: Row, holds: Row -> bool)
    ensures |With(rows + [last], holds)| == |With(rows, holds)| + if holds(last) then 1 else 0
  {
    var all := rows + [last];
    var n: nat := |rows|;
    assert all[n] == last;
    forall i: nat ensures i in With(all, holds) <==> i in With(rows, holds) || (i == n && holds(last)) {
      if i < n {
        assert all[i] == rows[i];
      }
    }
    assert n !in With(rows, holds);
    AddedOne(With(rows, holds), With(all, holds), n, holds(last));
  }

  lemma AddedOne(before: set<nat>, after: set<nat>, n: nat, added: bool)
    requires n !in before && forall i: nat :: i in after <==> i in before || (i == n && added)
    ensures |after| == |before| + if added then 1 else 0
  {
    assert after == if added then before + {n} else before;
  }

  function Confirms(status: string): Row -> bool {
    (row: Row) => row.derivativesStatus == Some(status)
  }

  function LeftOut(): Row -> bool {
    (row: Row) => row.classification == SKIPPED_DISABLED || row.classification == SKIPPED_DRY_RUN
                  || row.classification == SKIPPED_REFERENCE_UNCERTAIN
  }

  /** Anything but stored, or left out as the options asked. */
  function Unsuccessful(): Row -> bool {
    (row: Row) => !(row.classification == INSERTED || row.classification == ALREADY_EXISTS
                    || row.classification == SKIPPED_DISABLED || row.classification == SKIPPED_DRY_RUN)
  }

  /** MAIN: the tally counts rows. */
  lemma {:induction false} TallyCounts(rows: seq<Row>)
    ensures TallyOf(rows) == Tally(|With(rows, Confirms("INSERTED"))|, |With(rows, Confirms("INSERTED"))|,
                                   |With(rows, Confirms("IDENTICAL_DUPLICATE"))|, |With(rows, LeftOut())|,
                                   |With(rows, Unsuccessful())|)
  {
    if rows == [] {
      assert forall holds: Row -> bool :: With([], holds) == {};
    } else {
      var before, last := rows[..|rows| - 1], rows[|rows| - 1];
      TallyCounts(before);
      assert rows == before + [last];
      OneMoreWith(before, last, Confirms("INSERTED"));
      OneMoreWith(before, last, Confirms("IDENTICAL_DUPLICATE"));
      OneMoreWith(before, last, LeftOut());
      OneMoreWith(before, last, Unsuccessful());
      hide With;
    }
  }

  /** A cap is passed when more than four rows are confirmed new; that is a failure of its own. */
  lemma CapMeans(rows: seq<Row>, breached: bool)
    ensures CapBreached(rows) <==> |With(rows, Confirms("INSERTED"))| > 4
    ensures FailedCount(rows, breached) == |With(rows, Unsuccessful())| + if breached then 1 else 0
  {
    TallyCounts(rows);
    hide TallyOf, With;
  }

  /** From the gravest. */
  const FAILURES: seq<Classification> :=
    [CONFIGURATION_ERROR, FAILED_SAFETY_INVARIANT, REJECTED_METHODOLOGY_CUTOVER, REJECTED_OUTSIDE_WINDOW, PARTIAL_PERSISTENCE]

  /** MAIN: the result is the gravest failure any row has. */
  lemma ResultIsTheGravest(dryRun: bool, rows: seq<Row>, breached: bool, k: nat)
    requires k < |FAILURES|
    ensures var result := FinalResult(dryRun, rows, breached);
      && (result.0 == Ended(FAILURES[k]) <==>
            !breached && Any(rows, FAILURES[k]) && forall j :: 0 <= j < k ==> !Any(rows, FAILURES[j]))
      && (result.1 == 1 <==> breached || exists i :: 0 <= i < |rows| && Unsuccessful()(rows[i]))
      && (result.0 == Ended(FAILED) <==>
            breached || (result.1 == 1 && forall j :: 0 <= j < |FAILURES| ==> !Any(rows, FAILURES[j])))
      && (result.0 == DRY_RUN_COMPLETE <==> result.1 == 0 && dryRun)
      && (result.0 == COMPLETE_WITH_DEGRADED_PROVIDER <==>
            result.1 == 0 && !dryRun && exists i :: 0 <= i < |rows| && rows[i].providerStatus == Some("DEGRADED"))
      && (result.0 == COMPLETE <==>
            result.1 == 0 && !dryRun && forall i :: 0 <= i < |rows| ==> rows[i].providerStatus != Some("DEGRADED"))
  {
    FailureEndsWithOne(dryRun, rows, breached);
    assert FAILURES[0] == CONFIGURATION_ERROR && FAILURES[1] == FAILED_SAFETY_INVARIANT && FAILURES[2] == REJECTED_METHODOLOGY_CUTOVER
           && FAILURES[3] == REJECTED_OUTSIDE_WINDOW && FAILURES[4] == PARTIAL_PERSISTENCE && |FAILURES| == 5;
    hide Any;
  }
}
