/** When the out-of-sample collector stores an occasion, and what else a cell can be, said of the rows, the
    clock and the answers alone. */
module OosMeaning {
  import opened Options
  import opened OosCollector

  function Bar(timeframe: Timeframe): Time {
    match timeframe case M15 => 900_000_000 case H1 => 3_600_000_000 case H4 => 14_400_000_000
  }

  function Bars(n: int, timeframe: Timeframe): Time {
    n * Bar(timeframe)
  }

  /** Every stored close of the place is at least three bars ago; so, if there is none. */
  ghost predicate Due(rows: seq<Row>, place: Place, now: Time) {
    forall row :: row in rows && row.place == place ==> row.close + 3 * Bar(place.timeframe) <= now
  }

  /** The bar's last close; before 1970 the clock's second is the one it is about to reach. */
  ghost predicate Current(close: Time, timeframe: Timeframe, now: Time) {
    && (exists n :: close == Bars(n, timeframe))
    && if now >= 0 then close <= now < close + Bar(timeframe)
       else close - 1_000_000 < now <= close + Bar(timeframe) - 1_000_000
  }

  ghost predicate LiveNow(selection: Selection, timeframe: Timeframe, now: Time) {
    && selection.isLive && selection.reference.Some? && selection.asOf.Some?
    && Current(selection.reference.value, timeframe, now)
    && selection.reference.value <= selection.asOf.value <= now + 300_000_000
  }

  /** Where an occasion's rows are. */
  function RowsAt(rows: seq<Row>, place: Place, close: Time): set<nat> {
    set i: nat | i < |rows| && rows[i].place == place && rows[i].close == close
  }

  lemma DueMeans(rows: seq<Row>, place: Place, now: Time)
    ensures IsDue(Latest(rows, place), now, place.timeframe.Period()) <==> Due(rows, place, now)
  {
    assert place.timeframe.Period() == 3 * Bar(place.timeframe);
    var latest := Latest(rows, place);
    if latest.Some? {
      var row :| row in rows && row.place == place && row.close == latest.value;
    }
  }

  lemma {:induction false} CountMeans(rows: seq<Row>, place: Place, close: Time)
    ensures Count(rows, place, close) == |RowsAt(rows, place, close)|
  {
    if rows == [] {
    } else {
      var n: nat := |rows| - 1;
      CountMeans(rows[..n], place, close);
      var before, after := RowsAt(rows[..n], place, close), RowsAt(rows, place, close);
      var there := rows[n].place == place && rows[n].close == close;
      forall i: nat ensures i in after <==> i in before || (i == n && there) {
        if i < n {
          assert rows[..n][i] == rows[i];
        }
      }
      assert after == if there then before + {n} else before;
    }
  }

  lemma WholeSecondsMean(now: Time)
    ensures var w := WholeSeconds(now);
      if now >= 0 then w * SECOND <= now < w * SECOND + SECOND else w * SECOND - SECOND < now <= w * SECOND
  {
    if now < 0 {
      var q := (-now) / SECOND;
      assert q * SECOND <= -now < q * SECOND + SECOND;
    }
  }

  lemma BoundaryMeans(close: Time, timeframe: Timeframe, now: Time)
    ensures close == Boundary(now, timeframe) <==> Current(close, timeframe, now)
  {
    WholeSecondsMean(now);
    hide WholeSeconds;
    var w, seconds := WholeSeconds(now), timeframe.Seconds();
    var n := w / seconds;
    assert Bar(timeframe) == seconds * SECOND;
    BarOf(w, timeframe);
    assert Boundary(now, timeframe) == Bars(n, timeframe);
    assert Current(Bars(n, timeframe), timeframe, now);
    if Current(close, timeframe, now) {
      var m :| close == Bars(m, timeframe);
      OneBar(m, n, now, timeframe);
    }
  }

  lemma BarOf(w: int, timeframe: Timeframe)
    ensures var n := w / timeframe.Seconds();
      n * timeframe.Seconds() <= w <= n * timeframe.Seconds() + timeframe.Seconds() - 1
  {
    match timeframe case M15 => case H1 => case H4 =>
  }

  /** No two bars hold one time. */
  lemma OneBar(m: int, n: int, now: Time, timeframe: Timeframe)
    requires Current(Bars(m, timeframe), timeframe, now) && Current(Bars(n, timeframe), timeframe, now)
    ensures m == n
  {
    match timeframe case M15 => case H1 => case H4 =>
  }

  /** A place that is due has nothing stored of the bar the clock is on. So the guard against an occasion that
      exists speaks only where another run stores between the two reads. */
  lemma NothingIsStoredOfADueBar(rows: seq<Row>, place: Place, now: Time, close: Time)
    requires Due(rows, place, now) && Current(close, place.timeframe, now)
    ensures RowsAt(rows, place, close) == {}
  {
    forall i: nat | i < |rows| && rows[i].place == place ensures rows[i].close < close {
      assert rows[i] in rows;
    }
  }

  // ------------------------------------------------------------------ one cell

  /** Under the cap, its place could be read, and it is due. */
  ghost predicate Tried(s: State, maxOccasions: nat, place: Place, now: Time, a: Answers) {
    s.attempted < maxOccasions && a.readsLatest && Due(s.rows, place, now)
  }

  /** And the market showed the bar the clock is on, live. */
  ghost predicate Referenced(s: State, maxOccasions: nat, place: Place, now: Time, a: Answers) {
    Tried(s, maxOccasions, place, now, a) && a.selection.Some? && LiveNow(a.selection.value, place.timeframe, now)
  }

  /** And nothing of that occasion is stored. */
  ghost predicate Open(s: State, maxOccasions: nat, place: Place, now: Time, a: Answers) {
    && Referenced(s, maxOccasions, place, now, a) && a.countsRows
    && RowsAt(s.rows, place, a.selection.value.reference.value) == {}
  }

  /** And the pair was made, both analyses of it ended, and two more predictions are within the run's twelve. */
  ghost predicate Persists(s: State, maxOccasions: nat, place: Place, now: Time, a: Answers) {
    && Open(s, maxOccasions, place, now, a) && a.costs
    && a.pair.Some? && !a.baseline.raises && !a.candidate.raises && 2 * s.inserted + 2 <= 12
  }

  ghost predicate Stores(s: State, maxOccasions: nat, place: Place, now: Time, a: Answers) {
    Persists(s, maxOccasions, place, now, a) && a.persisted.reply == Overall(true)
  }

  /** What the cell is said to be, for each thing it can be. */
  ghost predicate Says(s: State, maxOccasions: nat, place: Place, now: Time, a: Answers, cell: Cell) {
    var said := cell.classification;
    && cell.place == place
    && (said == INSERTED <==> Stores(s, maxOccasions, place, now, a))
    && (said == SKIPPED_CAP <==> s.attempted >= maxOccasions)
    && (said == NOT_DUE <==> s.attempted < maxOccasions && a.readsLatest && !Due(s.rows, place, now))
    && (said == READ_UNAVAILABLE <==>
          s.attempted < maxOccasions && (!a.readsLatest || (Referenced(s, maxOccasions, place, now, a) && !a.countsRows)))
    && (said == SELECTION_FAILED <==> Tried(s, maxOccasions, place, now, a) && a.selection == None)
    && (said == BACKFILL_REFUSED <==>
          Tried(s, maxOccasions, place, now, a) && a.selection.Some? && !LiveNow(a.selection.value, place.timeframe, now))
    && (said == ORPHAN_SKIPPED <==>
          Referenced(s, maxOccasions, place, now, a) && a.countsRows
          && |RowsAt(s.rows, place, a.selection.value.reference.value)| == 1)
    && (said == OCCASION_EXISTS <==>
          Referenced(s, maxOccasions, place, now, a) && a.countsRows
          && |RowsAt(s.rows, place, a.selection.value.reference.value)| >= 2)
    && (said == FAILED <==> Open(s, maxOccasions, place, now, a) && a.costs && !Stores(s, maxOccasions, place, now, a))
    && cell.reference ==
         (if said in {INSERTED, FAILED, ORPHAN_SKIPPED, OCCASION_EXISTS} && a.selection.Some? then a.selection.value.reference else None)
    && cell.runId == (if said == INSERTED then a.pair else None)
  }

  /** What is stored: the pair's rows, when it comes to the persist call, and otherwise nothing. */
  ghost predicate Leaves(s: State, maxOccasions: nat, place: Place, now: Time, a: Answers, t: State) {
    && (if Persists(s, maxOccasions, place, now, a)
        then && |t.rows| == |s.rows| + a.persisted.stored && t.rows[..|s.rows|] == s.rows
             && (forall i :: |s.rows| <= i < |t.rows| ==> t.rows[i] == Row(place, a.selection.value.reference.value, a.pair.value))
        else t.rows == s.rows)
    && t.persists == s.persists + (if Persists(s, maxOccasions, place, now, a) then 1 else 0)
    && t.attempted == s.attempted + (if Tried(s, maxOccasions, place, now, a) then 1 else 0)
    && t.inserted == s.inserted + (if Stores(s, maxOccasions, place, now, a) then 1 else 0)
    && (forall run :: run in t.pending <==>
          run in s.pending && !(Open(s, maxOccasions, place, now, a) && a.costs && a.pair == Some(run)))
  }

  lemma EmptyMeans(rows: seq<Row>, place: Place, close: Time)
    ensures Count(rows, place, close) == |RowsAt(rows, place, close)|
    ensures Count(rows, place, close) == 0 <==> RowsAt(rows, place, close) == {}
  {
    CountMeans(rows, place, close);
  }

  /** How one visit ends. */
  ghost predicate Ends(s: State, maxOccasions: nat, place: Place, now: Time, a: Answers, t: State) {
    && Leaves(s, maxOccasions, place, now, a, t)
    && (t.raised <==> Open(s, maxOccasions, place, now, a) && !a.costs)
    && (if t.raised then t.cells == s.cells
        else |t.cells| == |s.cells| + 1 && t.cells[..|s.cells|] == s.cells
             && Says(s, maxOccasions, place, now, a, t.cells[|s.cells|]))
  }

  lemma NotTriedMeans(s: State, maxOccasions: nat, place: Place, now: Time, a: Answers)
    requires !s.raised && !Tried(s, maxOccasions, place, now, a)
    ensures Ends(s, maxOccasions, place, now, a, Visit(s, maxOccasions, place, now, a))
  {
    DueMeans(s.rows, place, now);
    assert !Referenced(s, maxOccasions, place, now, a) && !Open(s, maxOccasions, place, now, a);
    hide Referenced, Open, Attempt, Due, IsDue, Latest, LiveNow, RowsAt;
  }

  lemma TriedMeans(s: State, maxOccasions: nat, place: Place, now: Time, a: Answers)
    requires Tried(s, maxOccasions, place, now, a)
    ensures Visit(s, maxOccasions, place, now, a) == Attempt(s.(attempted := s.attempted + 1), place, now, a)
    ensures s.attempted < maxOccasions && a.readsLatest && Due(s.rows, place, now)
  {
    DueMeans(s.rows, place, now);
    hide Due, IsDue, Latest, Attempt;
  }

  lemma LiveMeans(selection: Selection, place: Place, now: Time)
    ensures LiveNow(selection, place.timeframe, now) <==>
      selection.isLive && IsCurrentLiveReference(selection.reference, selection.asOf, now, place.timeframe)
  {
    if selection.reference.Some? {
      BoundaryMeans(selection.reference.value, place.timeframe, now);
    }
    hide Boundary, Current;
  }

  lemma NotReferencedMeans(s: State, maxOccasions: nat, place: Place, now: Time, a: Answers)
    requires !s.raised && Tried(s, maxOccasions, place, now, a) && !Referenced(s, maxOccasions, place, now, a)
    ensures Ends(s, maxOccasions, place, now, a, Visit(s, maxOccasions, place, now, a))
  {
    TriedMeans(s, maxOccasions, place, now, a);
    if a.selection.Some? {
      LiveMeans(a.selection.value, place, now);
    }
    assert !Open(s, maxOccasions, place, now, a);
    assert a.selection.Some? ==> !LiveNow(a.selection.value, place.timeframe, now);
    hide Visit, Tried, Referenced, Open, Due, LiveNow, IsCurrentLiveReference, RowsAt, AttemptReference;
  }

  lemma ReferencedMeans(s: State, maxOccasions: nat, place: Place, now: Time, a: Answers)
    requires Referenced(s, maxOccasions, place, now, a)
    ensures Visit(s, maxOccasions, place, now, a) ==
      AttemptReference(s.(attempted := s.attempted + 1, selections := s.selections + 1), place, a.selection.value.reference.value, a)
    ensures Tried(s, maxOccasions, place, now, a) && s.attempted < maxOccasions && a.readsLatest && Due(s.rows, place, now)
    ensures LiveNow(a.selection.value, place.timeframe, now)
  {
    var selection := a.selection.value;
    assert selection.isLive && selection.reference.Some?;
    hide Visit, Attempt, AttemptReference, Tried, Due, LiveNow, IsCurrentLiveReference;
    TriedMeans(s, maxOccasions, place, now, a);
    LiveMeans(selection, place, now);
    GoesOn(s.(attempted := s.attempted + 1), place, now, a);
  }

  lemma GoesOn(s: State, place: Place, now: Time, a: Answers)
    requires a.selection.Some? && a.selection.value.isLive
    requires IsCurrentLiveReference(a.selection.value.reference, a.selection.value.asOf, now, place.timeframe)
    ensures a.selection.value.reference.Some?
    ensures Attempt(s, place, now, a)
         == AttemptReference(s.(selections := s.selections + 1), place, a.selection.value.reference.value, a)
  {
    hide AttemptReference, Boundary;
  }

  lemma NotOpenMeans(s: State, maxOccasions: nat, place: Place, now: Time, a: Answers)
    requires !s.raised && Referenced(s, maxOccasions, place, now, a) && !Open(s, maxOccasions, place, now, a)
    ensures Ends(s, maxOccasions, place, now, a, Visit(s, maxOccasions, place, now, a))
  {
    ReferencedMeans(s, maxOccasions, place, now, a);
    var close := a.selection.value.reference.value;
    EmptyMeans(s.rows, place, close);
    assert a.countsRows ==> RowsAt(s.rows, place, close) != {};
    hide Visit, Tried, Referenced, Open, Due, LiveNow, RowsAt, Count, Insert;
  }

  lemma OpenMeans(s: State, maxOccasions: nat, place: Place, now: Time, a: Answers)
    requires !s.raised && Open(s, maxOccasions, place, now, a)
    ensures Ends(s, maxOccasions, place, now, a, Visit(s, maxOccasions, place, now, a))
  {
    ReferencedMeans(s, maxOccasions, place, now, a);
    var close := a.selection.value.reference.value;
    assert a.countsRows && RowsAt(s.rows, place, close) == {};
    EmptyMeans(s.rows, place, close);
    if a.costs {
      OpenSays(s, maxOccasions, place, now, a);
    }
    OpenLeaves(s, maxOccasions, place, now, a);
    hide Visit, Tried, Referenced, Open, Due, LiveNow, RowsAt, Count, Insert, Says, Leaves;
  }

  lemma OpenSays(s: State, maxOccasions: nat, place: Place, now: Time, a: Answers)
    requires !s.raised && Open(s, maxOccasions, place, now, a) && a.costs
    ensures var close := a.selection.value.reference.value;
      var t := Insert(s.(attempted := s.attempted + 1, selections := s.selections + 1), place, close, a);
      && |t.cells| == |s.cells| + 1 && t.cells[..|s.cells|] == s.cells && !t.raised
      && Says(s, maxOccasions, place, now, a, t.cells[|s.cells|])
  {
    ReferencedMeans(s, maxOccasions, place, now, a);
    assert a.countsRows && RowsAt(s.rows, place, a.selection.value.reference.value) == {};
    hide Visit, Tried, Referenced, Open, Due, LiveNow, RowsAt, Count, RowsOf;
  }

  lemma OpenLeaves(s: State, maxOccasions: nat, place: Place, now: Time, a: Answers)
    requires Open(s, maxOccasions, place, now, a)
    ensures var t := s.(attempted := s.attempted + 1, selections := s.selections + 1);
      && (a.costs ==> Leaves(s, maxOccasions, place, now, a, Insert(t, place, a.selection.value.reference.value, a)))
      && (!a.costs ==> Leaves(s, maxOccasions, place, now, a, t.(raised := true)))
  {
    ReferencedMeans(s, maxOccasions, place, now, a);
    hide Visit, Tried, Referenced, Open, Due, LiveNow, RowsAt, Count;
  }

  /** Every visit ends as said. */
  lemma VisitMeans(s: State, maxOccasions: nat, place: Place, now: Time, a: Answers)
    requires !s.raised
    ensures Ends(s, maxOccasions, place, now, a, Visit(s, maxOccasions, place, now, a))
  {
    hide *;
    if !Tried(s, maxOccasions, place, now, a) {
      NotTriedMeans(s, maxOccasions, place, now, a);
    } else if !Referenced(s, maxOccasions, place, now, a) {
      NotReferencedMeans(s, maxOccasions, place, now, a);
    } else if !Open(s, maxOccasions, place, now, a) {
      NotOpenMeans(s, maxOccasions, place, now, a);
    } else {
      OpenMeans(s, maxOccasions, place, now, a);
    }
  }

  // ------------------------------------------------------------------ the run

  lemma {:induction false} CellByCell(s: State, maxOccasions: nat, matrix: seq<Place>, now: Time, answers: seq<Answers>, i: nat)
    requires |answers| == |matrix| && s == Begun(s.rows, s.pending)
    requires i < |Collect(s, maxOccasions, matrix, now, answers).cells|
    ensures i < |matrix|
    ensures var before, after := Collect(s, maxOccasions, matrix[..i], now, answers[..i]), Collect(s, maxOccasions, matrix, now, answers);
      && !before.raised && |before.cells| == i
      && Says(before, maxOccasions, matrix[i], now, answers[i], after.cells[i])
  {
    hide Visit, Says, Leaves;
    if matrix != [] {
      var n := |matrix| - 1;
      var before := Collect(s, maxOccasions, matrix[..n], now, answers[..n]);
      var k := Conserves(s, maxOccasions, matrix[..n], now, answers[..n]);
      if !before.raised {
        VisitMeans(before, maxOccasions, matrix[n], now, answers[n]);
      }
      if i < |before.cells| {
        CellByCell(s, maxOccasions, matrix[..n], now, answers[..n], i);
        assert matrix[..n][..i] == matrix[..i] && answers[..n][..i] == answers[..i];
      }
    }
  }

  /** MAIN: in any run, a cell that was visited is INSERTED exactly when its place was due, the reference live
      and of the current bar, nothing of that occasion stored, and the pair, both analyses and the reply
      were good, within the caps; and NOT_DUE exactly when a stored close is less than three bars old. */
  lemma InsertedExactlyWhen(rows: seq<Row>, pending: set<string>, maxOccasions: nat, matrix: seq<Place>, now: Time,
                            answers: seq<Answers>, i: nat)
    requires |answers| == |matrix| && i < |Collect(Begun(rows, pending), maxOccasions, matrix, now, answers).cells|
    ensures i < |matrix|
    ensures var s := Collect(Begun(rows, pending), maxOccasions, matrix[..i], now, answers[..i]);
      var place, a, cell := matrix[i], answers[i], Collect(Begun(rows, pending), maxOccasions, matrix, now, answers).cells[i];
      && (cell.classification == INSERTED <==>
            && s.attempted < maxOccasions && a.readsLatest
            && (forall row :: row in s.rows && row.place == place ==> row.close + 3 * Bar(place.timeframe) <= now)
            && a.selection.Some? && LiveNow(a.selection.value, place.timeframe, now)
            && a.countsRows && (forall row :: row in s.rows ==> row.place != place || row.close != a.selection.value.reference.value)
            && a.costs && a.pair.Some? && !a.baseline.raises && !a.candidate.raises && 2 * s.inserted + 2 <= 12
            && a.persisted.reply == Overall(true))
      && (cell.classification == NOT_DUE <==>
            && s.attempted < maxOccasions && a.readsLatest
            && exists row :: row in s.rows && row.place == place && row.close + 3 * Bar(place.timeframe) > now)
  {
    CellByCell(Begun(rows, pending), maxOccasions, matrix, now, answers, i);
    var s := Collect(Begun(rows, pending), maxOccasions, matrix[..i], now, answers[..i]);
    if answers[i].selection.Some? && answers[i].selection.value.reference.Some? {
      NoneAt(s.rows, matrix[i], answers[i].selection.value.reference.value);
    }
    hide Collect, LiveNow, RowsAt;
  }

  lemma NoneAt(rows: seq<Row>, place: Place, close: Time)
    ensures RowsAt(rows, place, close) == {} <==> forall row :: row in rows ==> row.place != place || row.close != close
  {
    if row :| row in rows && row.place == place && row.close == close {
      var i: nat :| i < |rows| && rows[i] == row;
      assert i in RowsAt(rows, place, close);
    }
  }

  /** What a place needs on an empty repository. */
  predicate Good(a: Answers) {
    && a.readsLatest && a.selection.Some? && a.selection.value.isLive && a.countsRows && a.costs
    && a.pair.Some? && !a.baseline.raises && !a.candidate.raises && a.persisted.reply == Overall(true)
  }

  /** MAIN: so the first occasion of a place is stored: with an empty repository, a live reference of the
      current bar and good answers. */
  lemma TheFirstIsStored(pending: set<string>, maxOccasions: nat, place: Place, now: Time, close: Time, a: Answers)
    requires maxOccasions > 0 && Good(a)
    requires a.selection.value.reference == Some(close) && a.selection.value.asOf == Some(now)
    requires Current(close, place.timeframe, now) && close <= now
    ensures var t := Collect(Begun([], pending), maxOccasions, [place], now, [a]);
      && t.cells == [Cell(place, INSERTED, Some(close), a.pair)] && t.inserted == 1 && t.failed == 0 && !t.raised
      && |t.rows| == a.persisted.stored && forall row :: row in t.rows ==> row == Row(place, close, a.pair.value)
  {
    var s := Begun([], pending);
    assert Collect(s, maxOccasions, [], now, []) == s;
    assert [place][..0] == [] && [a][..0] == [];
    assert Collect(s, maxOccasions, [place], now, [a]) == Visit(s, maxOccasions, place, now, a);
    VisitMeans(s, maxOccasions, place, now, a);
    assert Stores(s, maxOccasions, place, now, a);
    var k := Conserves(s, maxOccasions, [place], now, [a]);
    hide Visit, Collect, Current, Bar;
  }

  // ------------------------------------------------------------------ the counters

  function Which(cells: seq<Cell>, kinds: set<Classification>): set<nat> {
    set i: nat | i < |cells| && cells[i].classification in kinds
  }

  ghost predicate Counted(s: State) {
    && s.inserted == |Which(s.cells, {INSERTED})|
    && s.skipped == |Which(s.cells, {SKIPPED_CAP, NOT_DUE, ORPHAN_SKIPPED, OCCASION_EXISTS})|
    && s.orphans == |Which(s.cells, {ORPHAN_SKIPPED})|
    && s.failed == |Which(s.cells, {READ_UNAVAILABLE, SELECTION_FAILED, BACKFILL_REFUSED, FAILED})|
  }

  lemma OneMoreCell(cells: seq<Cell>, cell: Cell, kinds: set<Classification>)
    ensures |Which(cells + [cell], kinds)| == |Which(cells, kinds)| + if cell.classification in kinds then 1 else 0
  {
    var all := cells + [cell];
    var n: nat := |cells|;
    forall i: nat ensures i in Which(all, kinds) <==> i in Which(cells, kinds) || (i == n && cell.classification in kinds) {
      if i < n {
        assert all[i] == cells[i];
      }
    }
    assert Which(all, kinds) == if cell.classification in kinds then Which(cells, kinds) + {n} else Which(cells, kinds);
  }

  lemma OneCellCounts(s: State, t: State)
    requires Counted(s) && |t.cells| == |s.cells| + 1 && t.cells[..|s.cells|] == s.cells
    requires var said := t.cells[|s.cells|].classification;
      && t.inserted == s.inserted + (if said == INSERTED then 1 else 0)
      && t.skipped == s.skipped + (if said in {SKIPPED_CAP, NOT_DUE, ORPHAN_SKIPPED, OCCASION_EXISTS} then 1 else 0)
      && t.orphans == s.orphans + (if said == ORPHAN_SKIPPED then 1 else 0)
      && t.failed == s.failed + (if said in {READ_UNAVAILABLE, SELECTION_FAILED, BACKFILL_REFUSED, FAILED} then 1 else 0)
    ensures Counted(t)
  {
    var last := t.cells[|s.cells|];
    assert t.cells == s.cells + [last];
    OneMoreCell(s.cells, last, {INSERTED});
    OneMoreCell(s.cells, last, {SKIPPED_CAP, NOT_DUE, ORPHAN_SKIPPED, OCCASION_EXISTS});
    OneMoreCell(s.cells, last, {ORPHAN_SKIPPED});
    OneMoreCell(s.cells, last, {READ_UNAVAILABLE, SELECTION_FAILED, BACKFILL_REFUSED, FAILED});
    hide Which;
  }

  lemma SkipCounts(s: State, cell: Cell)
    requires Counted(s) && cell.classification in {SKIPPED_CAP, NOT_DUE, OCCASION_EXISTS}
    ensures Counted(Skip(s, cell))
  {
    OneCellCounts(s, Skip(s, cell));
  }

  lemma OrphanCounts(s: State, cell: Cell)
    requires Counted(s) && cell.classification == ORPHAN_SKIPPED
    ensures Counted(Skip(s.(orphans := s.orphans + 1), cell))
  {
    OneCellCounts(s, Skip(s.(orphans := s.orphans + 1), cell));
  }

  lemma FailCounts(s: State, cell: Cell)
    requires Counted(s) && cell.classification in {READ_UNAVAILABLE, SELECTION_FAILED, BACKFILL_REFUSED, FAILED}
    ensures Counted(Fail(s, cell))
  {
    OneCellCounts(s, Fail(s, cell));
  }

  lemma InsertCounts(s: State, place: Place, close: Time, a: Answers)
    requires Counted(s)
    ensures Counted(Insert(s, place, close, a))
  {
    hide Counted, RowsOf;
    OneCellCounts(s, Insert(s, place, close, a));
  }

  lemma TriedCounts(s: State, attempted: nat, selections: nat, raised: bool)
    requires Counted(s)
    ensures Counted(s.(attempted := attempted, selections := selections, raised := raised))
  {
  }

  lemma AttemptReferenceCounts(s: State, place: Place, close: Time, a: Answers)
    requires Counted(s)
    ensures Counted(AttemptReference(s, place, close, a))
  {
    hide Counted, Skip, Fail, Insert, Count;
    FailCounts(s, Cell(place, READ_UNAVAILABLE, None, None));
    OrphanCounts(s, Cell(place, ORPHAN_SKIPPED, Some(close), None));
    SkipCounts(s, Cell(place, OCCASION_EXISTS, Some(close), None));
    InsertCounts(s, place, close, a);
    TriedCounts(s, s.attempted, s.selections, true);
  }

  lemma AttemptCounts(s: State, place: Place, now: Time, a: Answers)
    requires Counted(s)
    ensures Counted(Attempt(s, place, now, a))
  {
    hide Counted, Skip, Fail, AttemptReference, Boundary;
    FailCounts(s, Cell(place, SELECTION_FAILED, None, None));
    var t := s.(selections := s.selections + 1);
    TriedCounts(s, s.attempted, s.selections + 1, s.raised);
    FailCounts(t, Cell(place, BACKFILL_REFUSED, None, None));
    if a.selection.Some? && a.selection.value.reference.Some? {
      AttemptReferenceCounts(t, place, a.selection.value.reference.value, a);
    }
  }

  lemma VisitCounts(s: State, maxOccasions: nat, place: Place, now: Time, a: Answers)
    requires Counted(s)
    ensures Counted(Visit(s, maxOccasions, place, now, a))
  {
    hide Counted, Skip, Fail, Attempt, Latest, IsDue;
    SkipCounts(s, Cell(place, SKIPPED_CAP, None, None));
    FailCounts(s, Cell(place, READ_UNAVAILABLE, None, None));
    SkipCounts(s, Cell(place, NOT_DUE, None, None));
    TriedCounts(s, s.attempted + 1, s.selections, s.raised);
    AttemptCounts(s.(attempted := s.attempted + 1), place, now, a);
  }

  /** MAIN: the report's counters count its cells. */
  lemma {:induction false} CountersCount(s: State, maxOccasions: nat, matrix: seq<Place>, now: Time, answers: seq<Answers>)
    requires |answers| == |matrix| && s == Begun(s.rows, s.pending)
    ensures Counted(Collect(s, maxOccasions, matrix, now, answers))
  {
    hide Visit, Counted;
    if matrix == [] {
      NothingCounted(s);
    } else {
      var n := |matrix| - 1;
      CountersCount(s, maxOccasions, matrix[..n], now, answers[..n]);
      VisitCounts(Collect(s, maxOccasions, matrix[..n], now, answers[..n]), maxOccasions, matrix[n], now, answers[n]);
    }
  }

  lemma NothingCounted(s: State)
    requires s == Begun(s.rows, s.pending)
    ensures Counted(s)
  {
    assert forall kinds :: Which([], kinds) == {};
  }
}
