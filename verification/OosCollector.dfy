/** scripts/collect_oos_pair_evidence.py: one bounded run over the matrix, and any number of runs. */
module OosCollector {
  // A time is a whole number of microseconds since the epoch; the clocks may say anything. What the
  // dependencies answer is an input; what the repository reads back is computed from the rows it holds.

  import opened Options

  type Time = int

  const SECOND := 1_000_000
  const FIVE_MINUTES := 300 * SECOND
  const MAX_PREDICTIONS_PER_RUN := 12
  const WRITE_CONFIRMATION := "WRITE-OOS-PAIR-EVIDENCE"

  datatype Timeframe = M15 | H1 | H4 {
    /** TIMEFRAME_SECONDS */
    function Seconds(): int {
      match this case M15 => 900 case H1 => 3600 case H4 => 14400
    }
    /** PERIOD_BY_TIMEFRAME */
    function Period(): Time {
      match this case M15 => 45 * 60 * SECOND case H1 => 3 * 3600 * SECOND case H4 => 12 * 3600 * SECOND
    }
  }

  datatype Place = Place(symbol: string, timeframe: Timeframe)

  /** One stored prediction of an out-of-sample run. */
  datatype Row = Row(place: Place, close: Time, runId: string)

  /** A value that is no time-zone-aware datetime is None. */
  datatype Selection = Selection(isLive: bool, reference: Option<Time>, asOf: Option<Time>)

  /** An analysis may leave its rows pending, and may raise before or after that. */
  datatype Analysis = Analysis(leavesPending: bool, raises: bool)

  datatype PersistReply = Overall(ok: bool) | PersistRaised

  /** How many rows were in fact stored, whatever the reply says. */
  datatype Persisted = Persisted(stored: nat, reply: PersistReply)

  /** What one cell's dependencies do: None or false where the call raises. */
  datatype Answers = Answers(
    readsLatest: bool,
    selection: Option<Selection>,
    countsRows: bool,
    costs: bool,
    pair: Option<string>,
    baseline: Analysis,
    candidate: Analysis,
    persisted: Persisted)

  datatype Classification =
    | SKIPPED_CAP | READ_UNAVAILABLE | NOT_DUE | SELECTION_FAILED | BACKFILL_REFUSED | ORPHAN_SKIPPED
    | OCCASION_EXISTS | FAILED | INSERTED

  datatype Cell = Cell(place: Place, classification: Classification, reference: Option<Time>, runId: Option<string>)

  /** The variables of the loop, the repository's rows, and the analyses left pending. `persists`
      and `raised` are history: the persist calls made, and an exception nothing catches. */
  datatype State = State(
    rows: seq<Row>,
    pending: set<string>,
    attempted: nat,
    inserted: nat,
    skipped: nat,
    orphans: nat,
    failed: nat,
    selections: nat,
    cells: seq<Cell>,
    persists: nat,
    raised: bool)

  // ------------------------------------------------------------------ reading the repository

  /** `fetch_latest_oos_occasion`: the greatest stored reference close. */
  function Latest(rows: seq<Row>, place: Place): (latest: Option<Time>)
    ensures latest == None <==> forall row :: row in rows ==> row.place != place
    ensures latest.Some? ==>
      && (exists row :: row in rows && row.place == place && row.close == latest.value)
      && forall row :: row in rows && row.place == place ==> row.close <= latest.value
  {
    if rows == [] then None
    else
      var rest, last := Latest(rows[..|rows| - 1], place), rows[|rows| - 1];
      assert rows == rows[..|rows| - 1] + [last];
      if last.place != place then rest
      else if rest == None || rest.value <= last.close then Some(last.close)
      else rest
  }

  /** `count_oos_occasion_rows` */
  function Count(rows: seq<Row>, place: Place, close: Time): nat {
    if rows == [] then 0
    else
      var last := rows[|rows| - 1];
      Count(rows[..|rows| - 1], place, close) + if last.place == place && last.close == close then 1 else 0
  }

  // ------------------------------------------------------------------ the clock

  predicate IsDue(latest: Option<Time>, now: Time, period: Time) {
    latest == None || now - latest.value >= period
  }

  /** int(now.timestamp()): towards zero. */
  function WholeSeconds(now: Time): int {
    if now >= 0 then now / SECOND else -((-now) / SECOND)
  }

  /** int(...) // seconds * seconds: towards minus infinity. */
  function Boundary(now: Time, timeframe: Timeframe): Time {
    WholeSeconds(now) / timeframe.Seconds() * timeframe.Seconds() * SECOND
  }

  predicate IsCurrentLiveReference(reference: Option<Time>, asOf: Option<Time>, now: Time, timeframe: Timeframe) {
    && reference.Some? && asOf.Some?
    && reference.value == Boundary(now, timeframe)
    && reference.value <= asOf.value <= now + FIVE_MINUTES
  }

  // ------------------------------------------------------------------ one cell

  function Skip(s: State, cell: Cell): State {
    s.(skipped := s.skipped + 1, cells := s.cells + [cell])
  }

  function Fail(s: State, cell: Cell): State {
    s.(failed := s.failed + 1, cells := s.cells + [cell])
  }

  function RowsOf(place: Place, close: Time, runId: string, n: nat): seq<Row> {
    seq(n, _ => Row(place, close, runId))
  }

  /** Both analyses, the cap, one persist call: the source's `try` around the pair. */
  function Insert(s: State, place: Place, close: Time, a: Answers): State {
    if a.pair == None then Fail(s, Cell(place, FAILED, Some(close), None))
    else
      // The finally clause: whatever was left pending under the pair's run is dropped.
      var p := s.(pending := s.pending - {a.pair.value});
      if a.baseline.raises || a.candidate.raises || (s.inserted + 1) * 2 > MAX_PREDICTIONS_PER_RUN
      then Fail(p, Cell(place, FAILED, Some(close), None))
      else
        var w := p.(rows := p.rows + RowsOf(place, close, a.pair.value, a.persisted.stored), persists := p.persists + 1);
        if a.persisted.reply != Overall(true) then Fail(w, Cell(place, FAILED, Some(close), None))
        else w.(inserted := w.inserted + 1, cells := w.cells + [Cell(place, INSERTED, Some(close), a.pair)])
  }

  /** From an accepted reference close on: an occasion that has any row is left alone. */
  function AttemptReference(s: State, place: Place, close: Time, a: Answers): State {
    if !a.countsRows then Fail(s, Cell(place, READ_UNAVAILABLE, None, None))
    else
      var n := Count(s.rows, place, close);
      if n == 1 then Skip(s.(orphans := s.orphans + 1), Cell(place, ORPHAN_SKIPPED, Some(close), None))
      else if n > 0 then Skip(s, Cell(place, OCCASION_EXISTS, Some(close), None))
      else if !a.costs then s.(raised := true)
      else Insert(s, place, close, a)
  }

  function Attempt(s: State, place: Place, now: Time, a: Answers): State {
    if a.selection == None then Fail(s, Cell(place, SELECTION_FAILED, None, None))
    else
      var t := s.(selections := s.selections + 1);
      var sel := a.selection.value;
      if !sel.isLive || !IsCurrentLiveReference(sel.reference, sel.asOf, now, place.timeframe)
      then Fail(t, Cell(place, BACKFILL_REFUSED, None, None))
      else AttemptReference(t, place, sel.reference.value, a)
  }

  function Visit(s: State, maxOccasions: nat, place: Place, now: Time, a: Answers): State {
    if s.attempted >= maxOccasions then Skip(s, Cell(place, SKIPPED_CAP, None, None))
    else if !a.readsLatest then Fail(s, Cell(place, READ_UNAVAILABLE, None, None))
    else if !IsDue(Latest(s.rows, place), now, place.timeframe.Period()) then Skip(s, Cell(place, NOT_DUE, None, None))
    else Attempt(s.(attempted := s.attempted + 1), place, now, a)
  }

  /** The loop over the matrix, until an exception nothing catches. */
  function Collect(s: State, maxOccasions: nat, matrix: seq<Place>, now: Time, answers: seq<Answers>): State
    requires |answers| == |matrix|
  {
    if matrix == [] then s
    else
      var n := |matrix| - 1;
      var before := Collect(s, maxOccasions, matrix[..n], now, answers[..n]);
      if before.raised then before else Visit(before, maxOccasions, matrix[n], now, answers[n])
  }

  /** After an exception nothing catches, the rest of the matrix is not visited. */
  lemma {:induction false} RaisedStops(s: State, maxOccasions: nat, matrix: seq<Place>, now: Time, answers: seq<Answers>, i: nat)
    requires |answers| == |matrix| && i <= |matrix|
    requires i < |matrix| ==> Collect(s, maxOccasions, matrix[..i], now, answers[..i]).raised
    ensures Collect(s, maxOccasions, matrix, now, answers) == Collect(s, maxOccasions, matrix[..i], now, answers[..i])
    decreases |matrix| - i
  {
    hide Visit;
    if i == |matrix| {
      assert matrix[..i] == matrix && answers[..i] == answers;
    } else {
      assert matrix[..i + 1][..i] == matrix[..i] && answers[..i + 1][..i] == answers[..i];
      RaisedStops(s, maxOccasions, matrix, now, answers, i + 1);
    }
  }

  function Begun(rows: seq<Row>, pending: set<string>): State {
    State(rows, pending, 0, 0, 0, 0, 0, 0, [], 0, false)
  }

  // ------------------------------------------------------------------ conservation

  ghost predicate Conserved(s: State, places: nat, maxOccasions: nat) {
    && s.attempted <= maxOccasions
    && s.selections <= s.attempted
    && s.inserted <= s.persists <= s.selections
    && s.orphans <= s.skipped
    && 2 * s.inserted <= MAX_PREDICTIONS_PER_RUN
    && |s.cells| == s.inserted + s.skipped + s.failed
    && |s.cells| == places - if s.raised then 1 else 0
  }

  lemma InsertConserves(s: State, place: Place, close: Time, a: Answers)
    ensures var t := Insert(s, place, close, a);
      && t.attempted == s.attempted && t.selections == s.selections && t.skipped == s.skipped && t.orphans == s.orphans
      && t.inserted + t.failed == s.inserted + s.failed + 1 && |t.cells| == |s.cells| + 1 && t.raised == s.raised
      && s.inserted <= t.inserted && s.persists <= t.persists <= s.persists + 1
      && t.inserted - s.inserted <= t.persists - s.persists
      && (t.inserted > s.inserted ==> 2 * t.inserted <= MAX_PREDICTIONS_PER_RUN)
  {
  }

  lemma VisitConserves(s: State, maxOccasions: nat, place: Place, now: Time, a: Answers, places: nat)
    requires Conserved(s, places, maxOccasions) && !s.raised
    ensures Conserved(Visit(s, maxOccasions, place, now, a), places + 1, maxOccasions)
  {
    hide Insert;
    if a.selection.Some? && a.selection.value.reference.Some? {
      var t := s.(attempted := s.attempted + 1);
      InsertConserves(t.(selections := t.selections + 1), place, a.selection.value.reference.value, a);
    }
  }

  /** MAIN: for a matrix of any length and any answers, every cell is counted once, as inserted,
      skipped or failed, unless an exception ends the run; and no cap is passed. */
  lemma {:induction false} EveryCellIsCountedOnce(s: State, maxOccasions: nat, matrix: seq<Place>, now: Time, answers: seq<Answers>)
    requires |answers| == |matrix| && s == Begun(s.rows, s.pending)
    ensures var t := Collect(s, maxOccasions, matrix, now, answers);
      && t.attempted <= maxOccasions && t.selections <= t.attempted
      && t.inserted <= t.persists <= t.selections && t.orphans <= t.skipped
      && 2 * t.inserted <= MAX_PREDICTIONS_PER_RUN
      && |t.cells| == t.inserted + t.skipped + t.failed
      && (!t.raised ==> t.inserted + t.skipped + t.failed == |matrix|)
      && |t.cells| <= |matrix|
  {
    var k := Conserves(s, maxOccasions, matrix, now, answers);
  }

  lemma {:induction false} Conserves(s: State, maxOccasions: nat, matrix: seq<Place>, now: Time, answers: seq<Answers>)
    returns (k: nat)
    requires |answers| == |matrix| && s == Begun(s.rows, s.pending)
    ensures k <= |matrix| && Conserved(Collect(s, maxOccasions, matrix, now, answers), k, maxOccasions)
    ensures !Collect(s, maxOccasions, matrix, now, answers).raised ==> k == |matrix|
  {
    hide Visit;
    if matrix == [] {
      k := 0;
    } else {
      var n := |matrix| - 1;
      k := Conserves(s, maxOccasions, matrix[..n], now, answers[..n]);
      var before := Collect(s, maxOccasions, matrix[..n], now, answers[..n]);
      if !before.raised {
        VisitConserves(before, maxOccasions, matrix[n], now, answers[n], n);
        k := k + 1;
      }
    }
  }

  // ------------------------------------------------------------------ spacing

  predicate Aligned(row: Row) {
    row.close % (row.place.timeframe.Seconds() * SECOND) == 0
  }

  /** Two stored rows of one place, in the order they were stored: of one pair, or three bars apart. */
  predicate Apart(first: Row, second: Row) {
    first.place == second.place ==>
      || (first.close == second.close && first.runId == second.runId)
      || second.close - first.close >= 3 * first.place.timeframe.Seconds() * SECOND
  }

  /** Closes on the bar, each occasion one pair's, and a later one at least three bars later. */
  ghost predicate Spaced(rows: seq<Row>) {
    && (forall i :: 0 <= i < |rows| ==> Aligned(rows[i]))
    && (forall i, j :: 0 <= i < j < |rows| ==> Apart(rows[i], rows[j]))
  }

  /** PERIOD_BY_TIMEFRAME is three of TIMEFRAME_SECONDS. */
  lemma PeriodIsThreeBars(timeframe: Timeframe)
    ensures timeframe.Period() == 3 * timeframe.Seconds() * SECOND
  {
  }

  /** Truncation and flooring together never go back before a whole second the clock has passed. */
  lemma WholeSecondsReached(now: Time, k: int)
    requires now >= k * SECOND
    ensures WholeSeconds(now) >= k
  {
    if now < 0 {
      assert (-now) / SECOND * SECOND <= -now;
    }
  }

  lemma BoundaryIsAligned(now: Time, timeframe: Timeframe)
    ensures Boundary(now, timeframe) % (timeframe.Seconds() * SECOND) == 0
  {
    hide WholeSeconds;
    match timeframe case M15 => case H1 => case H4 =>
  }

  /** Due on the clock means due on the bar: the boundary reached is a period after the latest close. */
  lemma DueBoundaryIsAPeriodLater(now: Time, latest: Time, timeframe: Timeframe)
    requires latest % (timeframe.Seconds() * SECOND) == 0
    requires now - latest >= timeframe.Period()
    ensures Boundary(now, timeframe) >= latest + timeframe.Period()
  {
    hide WholeSeconds;
    var bars := latest / (timeframe.Seconds() * SECOND);
    WholeSecondsReached(now, (bars + 3) * timeframe.Seconds()) by {
      match timeframe case M15 => case H1 => case H4 =>
    }
    match timeframe case M15 => case H1 => case H4 =>
  }

  lemma StoreKeepsSpacing(rows: seq<Row>, place: Place, now: Time, runId: string, n: nat)
    requires Spaced(rows) && IsDue(Latest(rows, place), now, place.timeframe.Period())
    ensures Spaced(rows + RowsOf(place, Boundary(now, place.timeframe), runId, n))
  {
    hide Boundary;
    var close := Boundary(now, place.timeframe);
    BoundaryIsAligned(now, place.timeframe);
    PeriodIsThreeBars(place.timeframe);
    forall i | 0 <= i < |rows| && rows[i].place == place ensures close - rows[i].close >= place.timeframe.Period() {
      var latest := Latest(rows, place).value;
      assert rows[i] in rows;
      var row :| row in rows && row.place == place && row.close == latest;
      assert Aligned(row);
      DueBoundaryIsAPeriodLater(now, latest, place.timeframe);
    }
  }

  lemma VisitKeepsSpacing(s: State, maxOccasions: nat, place: Place, now: Time, a: Answers)
    requires Spaced(s.rows)
    ensures Spaced(Visit(s, maxOccasions, place, now, a).rows)
  {
    hide Spaced, Latest, Count, RowsOf, Boundary;
    if a.pair.Some? && IsDue(Latest(s.rows, place), now, place.timeframe.Period()) {
      StoreKeepsSpacing(s.rows, place, now, a.pair.value, a.persisted.stored);
    }
  }

  lemma {:induction false} CollectKeepsSpacing(s: State, maxOccasions: nat, matrix: seq<Place>, now: Time, answers: seq<Answers>)
    requires |answers| == |matrix| && Spaced(s.rows)
    ensures Spaced(Collect(s, maxOccasions, matrix, now, answers).rows)
  {
    hide Spaced, Visit;
    if matrix != [] {
      var n := |matrix| - 1;
      CollectKeepsSpacing(s, maxOccasions, matrix[..n], now, answers[..n]);
      VisitKeepsSpacing(Collect(s, maxOccasions, matrix[..n], now, answers[..n]), maxOccasions, matrix[n], now, answers[n]);
    }
  }

  /** One run of the collector: its clock, its cap, its matrix and what its dependencies answer. */
  datatype Run = Run(now: Time, maxOccasions: nat, matrix: seq<Place>, answers: seq<Answers>)

  type Runs = rs: seq<Run> | forall r :: r in rs ==> |r.answers| == |r.matrix| witness []

  /** The rows after the runs, one after the other, from an empty repository. */
  function Stored(runs: Runs): seq<Row> {
    if runs == [] then []
    else
      var last := runs[|runs| - 1];
      assert last in runs;
      Collect(Begun(Stored(runs[..|runs| - 1]), {}), last.maxOccasions, last.matrix, last.now, last.answers).rows
  }

  /** MAIN: over any number of runs, whatever the clocks say and whatever fails, the stored closes of
      a place are on the bar, never go back, belong to one pair each, and are at least three bars
      apart. */
  lemma {:induction false} OccasionsAreSpaced(runs: Runs)
    ensures Spaced(Stored(runs))
  {
    if runs == [] {
    } else {
      var last := runs[|runs| - 1];
      assert last in runs;
      var before: Runs := runs[..|runs| - 1];
      OccasionsAreSpaced(before);
      hide Spaced;
      CollectKeepsSpacing(Begun(Stored(before), {}), last.maxOccasions, last.matrix, last.now, last.answers);
    }
  }

  datatype Occasion = Occasion(place: Place, close: Time)

  /** The occasions stored for a place from `start` to `start + length`. */
  function Within(rows: seq<Row>, place: Place, start: Time, length: nat): set<Occasion> {
    set row | row in rows && row.place == place && start <= row.close <= start + length :: Occasion(place, row.close)
  }

  lemma {:induction false} ApartAreFew(occasions: set<Occasion>, start: Time, length: int, timeframe: Timeframe)
    requires forall o :: o in occasions ==> start <= o.close <= start + length
    requires forall o, p :: o in occasions && p in occasions && o != p ==>
      o.close - p.close >= timeframe.Period() || p.close - o.close >= timeframe.Period()
    ensures occasions != {} ==> length >= 0
    ensures length >= 0 ==> |occasions| <= length / timeframe.Period() + 1
    decreases |occasions|
  {
    if occasions == {} {
      PeriodDivides(length, timeframe);
    } else {
      var last := LastOccasion(occasions);
      ApartAreFew(occasions - {last}, start, last.close - timeframe.Period() - start, timeframe);
      PeriodDivides(last.close - start, timeframe);
      PeriodsGrow(last.close - start, length, timeframe);
    }
  }

  lemma PeriodDivides(x: int, timeframe: Timeframe)
    ensures x >= 0 ==> x / timeframe.Period() >= 0
    ensures (x - timeframe.Period()) / timeframe.Period() + 1 == x / timeframe.Period()
  {
    match timeframe case M15 => case H1 => case H4 =>
  }

  lemma PeriodsGrow(a: int, b: int, timeframe: Timeframe)
    requires a <= b
    ensures a / timeframe.Period() <= b / timeframe.Period()
  {
    match timeframe case M15 => case H1 => case H4 =>
  }

  lemma {:induction false} LastOccasion(occasions: set<Occasion>) returns (last: Occasion)
    requires occasions != {}
    ensures last in occasions && forall o :: o in occasions ==> o.close <= last.close
    decreases |occasions|
  {
    var any :| any in occasions;
    last := any;
    var rest := occasions - {any};
    if rest != {} {
      var other := LastOccasion(rest);
      last := if any.close < other.close then other else any;
    }
    assert forall o :: o in occasions ==> o == any || o in rest;
  }

  /** MAIN: no window of length T holds more than floor(T / period) + 1 occasions of a place. */
  lemma WindowsAreBounded(runs: Runs, place: Place, start: Time, length: nat)
    ensures |Within(Stored(runs), place, start, length)| <= length / place.timeframe.Period() + 1
  {
    var rows := Stored(runs);
    var occasions := Within(rows, place, start, length);
    OccasionsAreSpaced(runs);
    PeriodIsThreeBars(place.timeframe);
    forall o, p | o in occasions && p in occasions && o != p
      ensures o.close - p.close >= place.timeframe.Period() || p.close - o.close >= place.timeframe.Period()
    {
      var i :| 0 <= i < |rows| && rows[i].place == place && rows[i].close == o.close;
      var j :| 0 <= j < |rows| && rows[j].place == place && rows[j].close == p.close;
      if i < j {
        assert Apart(rows[i], rows[j]);
      } else {
        assert Apart(rows[j], rows[i]);
      }
    }
    ApartAreFew(occasions, start, length, place.timeframe);
  }

  // ------------------------------------------------------------------ whole pairs

  /** A persist call stores nothing but rows of its pair, and says OK only when both are stored. */
  predicate Faithful(a: Answers) {
    a.persisted.stored <= 2 && (a.persisted.reply == Overall(true) ==> a.persisted.stored == 2)
  }

  lemma {:induction false} CountAfterStore(rows: seq<Row>, place: Place, close: Time, runId: string, n: nat, p: Place, c: Time)
    ensures Count(rows + RowsOf(place, close, runId, n), p, c) == Count(rows, p, c) + if p == place && c == close then n else 0
  {
    if n == 0 {
      assert rows + RowsOf(place, close, runId, 0) == rows;
    } else {
      CountAfterStore(rows, place, close, runId, n - 1, p, c);
      var all := rows + RowsOf(place, close, runId, n);
      assert all[..|all| - 1] == rows + RowsOf(place, close, runId, n - 1);
    }
  }

  /** Exactly two rows, both of the run id the cell reports. */
  predicate HoldsItsPair(rows: seq<Row>, cell: Cell) {
    && cell.reference.Some? && cell.runId.Some?
    && Count(rows, cell.place, cell.reference.value) == 2
    && forall row :: row in rows && row.place == cell.place && row.close == cell.reference.value ==> row.runId == cell.runId.value
  }

  ghost predicate WholePairs(rows: seq<Row>, cells: seq<Cell>) {
    && (forall p, c :: Count(rows, p, c) <= 2)
    && forall cell :: cell in cells && cell.classification.INSERTED? ==> HoldsItsPair(rows, cell)
  }

  lemma {:induction false} NoneCounted(rows: seq<Row>, place: Place, close: Time)
    requires Count(rows, place, close) == 0
    ensures forall row :: row in rows ==> !(row.place == place && row.close == close)
  {
    if rows != [] {
      var n := |rows| - 1;
      NoneCounted(rows[..n], place, close);
      assert rows == rows[..n] + [rows[n]];
    }
  }

  /** What holds its pair already is another occasion, and keeps it. */
  lemma StoreKeepsPair(rows: seq<Row>, place: Place, close: Time, runId: string, n: nat, cell: Cell)
    requires HoldsItsPair(rows, cell) && Count(rows, place, close) == 0
    ensures HoldsItsPair(rows + RowsOf(place, close, runId, n), cell)
  {
    CountAfterStore(rows, place, close, runId, n, cell.place, cell.reference.value);
    hide Count;
  }

  lemma StoredPairHolds(rows: seq<Row>, place: Place, close: Time, runId: string)
    requires Count(rows, place, close) == 0
    ensures HoldsItsPair(rows + RowsOf(place, close, runId, 2), Cell(place, INSERTED, Some(close), Some(runId)))
  {
    NoneCounted(rows, place, close);
    CountAfterStore(rows, place, close, runId, 2, place, close);
    hide Count;
  }

  /** `earlier`: what was reported before, by this run or another. */
  lemma InsertKeepsWholePairs(s: State, earlier: seq<Cell>, place: Place, close: Time, a: Answers)
    requires WholePairs(s.rows, earlier + s.cells) && Faithful(a) && Count(s.rows, place, close) == 0
    ensures var t := Insert(s, place, close, a); WholePairs(t.rows, earlier + t.cells)
  {
    hide Count, HoldsItsPair;
    var t := Insert(s, place, close, a);
    if t.rows != s.rows {
      var runId, n := a.pair.value, a.persisted.stored;
      forall p, c ensures Count(t.rows, p, c) <= 2 {
        CountAfterStore(s.rows, place, close, runId, n, p, c);
      }
      if n == 2 {
        StoredPairHolds(s.rows, place, close, runId);
      }
      forall cell | cell in earlier + t.cells && cell.classification.INSERTED? ensures HoldsItsPair(t.rows, cell) {
        if cell in earlier + s.cells {
          StoreKeepsPair(s.rows, place, close, runId, n, cell);
        }
      }
    }
  }

  lemma VisitKeepsWholePairs(s: State, earlier: seq<Cell>, maxOccasions: nat, place: Place, now: Time, a: Answers)
    requires WholePairs(s.rows, earlier + s.cells) && Faithful(a)
    ensures var t := Visit(s, maxOccasions, place, now, a); WholePairs(t.rows, earlier + t.cells)
  {
    hide Count, Insert, Latest, Boundary, Faithful, IsDue, HoldsItsPair;
    if a.selection.Some? && a.selection.value.reference.Some? && Count(s.rows, place, a.selection.value.reference.value) == 0 {
      InsertKeepsWholePairs(s.(attempted := s.attempted + 1, selections := s.selections + 1), earlier, place,
                            a.selection.value.reference.value, a);
    }
  }

  lemma {:induction false} CollectKeepsWholePairs(s: State, earlier: seq<Cell>, maxOccasions: nat, matrix: seq<Place>, now: Time,
                                                  answers: seq<Answers>)
    requires |answers| == |matrix| && WholePairs(s.rows, earlier + s.cells) && forall a :: a in answers ==> Faithful(a)
    ensures var t := Collect(s, maxOccasions, matrix, now, answers); WholePairs(t.rows, earlier + t.cells)
  {
    hide WholePairs, Visit, Faithful;
    if matrix != [] {
      var n := |matrix| - 1;
      CollectKeepsWholePairs(s, earlier, maxOccasions, matrix[..n], now, answers[..n]);
      assert answers[n] in answers;
      VisitKeepsWholePairs(Collect(s, maxOccasions, matrix[..n], now, answers[..n]), earlier, maxOccasions, matrix[n], now, answers[n]);
    }
  }

  /** What the runs reported, cell by cell. */
  function CellsOf(runs: Runs): seq<Cell> {
    if runs == [] then []
    else
      var last := runs[|runs| - 1];
      assert last in runs;
      CellsOf(runs[..|runs| - 1])
      + Collect(Begun(Stored(runs[..|runs| - 1]), {}), last.maxOccasions, last.matrix, last.now, last.answers).cells
  }

  /** MAIN: however often and whenever it is run, an occasion never gets a third row, and one that any run
      reported INSERTED holds exactly that pair's two, to the end. */
  lemma {:induction false} InsertedPairsAreWhole(runs: Runs)
    requires forall r :: r in runs ==> forall a :: a in r.answers ==> Faithful(a)
    ensures WholePairs(Stored(runs), CellsOf(runs))
  {
    if runs != [] {
      var last := runs[|runs| - 1];
      assert last in runs;
      var before: Runs := runs[..|runs| - 1];
      InsertedPairsAreWhole(before);
      hide WholePairs, Faithful;
      assert CellsOf(before) + [] == CellsOf(before);
      CollectKeepsWholePairs(Begun(Stored(before), {}), CellsOf(before), last.maxOccasions, last.matrix, last.now, last.answers);
    }
  }
}
