/** What each event does to each watch of ReceiptWatch.dfy, and to what is shown. */
module ReceiptMeaning {
  import opened Options
  import opened ReceiptWatch

  // ------------------------------------------------------------------ an answer

  /** A receipt this screen can show: of this version, of the watch's run, with a state of a known name. */
  predicate Shows(w: Watch, reply: Reply, state: SaveState) {
    reply == Receipt("save_receipt.v1", w.runId, Some(state))
  }

  /** MAIN: an answer to a live watch is heeded. A receipt of its own run with a known state is shown in its
      cell; PENDING is asked again, after 1, then 2, then 4 seconds; and after any other answer
      the watch ends and leaves the map. */
  lemma AnAnswerIsHeeded(s: Screen, i: nat, reply: Reply, blank: map<string, nat>)
    requires Inv(s) && i < |s.started| && s.started[i].phase.Asking? && !s.started[i].stopped && !reply.Unauthorized?
    ensures var w, s' := s.started[i], Answer(s, i, reply, blank);
      var again := Shows(w, reply, PENDING) && w.phase.attempt < 3;
      && (forall state :: Shows(w, reply, state) ==>
            s'.cells == s.cells[w.cell := state] && s'.started[i].written == w.written + [state])
      && ((forall state :: !Shows(w, reply, state)) ==> s'.cells == s.cells && s'.started[i].written == w.written)
      && s'.started[i].phase == (if again then Waiting(w.phase.attempt + 1, [1000, 2000, 4000][w.phase.attempt]) else Finished)
      && s'.watches == (if again then s.watches else s.watches - {w.key})
      && !s'.started[i].stopped && s'.started[i].asked == w.asked
      && s'.cards == s.cards && s'.generation == s.generation && s'.signedIn == s.signedIn
  {
    var w := s.started[i];
    assert Showable(reply, w.runId).Some? <==> exists state :: Shows(w, reply, state) by {
      if Showable(reply, w.runId).Some? {
        assert Shows(w, reply, Showable(reply, w.runId).value);
      }
    }
  }

  /** An answer to a stopped watch changes nothing but that nothing more is awaited. */
  lemma ALateAnswerIsDropped(s: Screen, i: nat, reply: Reply, blank: map<string, nat>)
    requires i < |s.started| && s.started[i].phase.Asking? && s.started[i].stopped && !reply.Unauthorized?
    ensures Answer(s, i, reply, blank) == s.(started := s.started[i := s.started[i].(phase := Finished)])
  {
  }

  /** The timer sends the next request, in the session of now. */
  lemma ATimerAsks(s: Screen, i: nat)
    requires Enabled(s, TimerFired(i))
    ensures var w, s' := s.started[i], Next(s, TimerFired(i));
      && s' == s.(started := s'.started) && |s'.started| == |s.started|
      && (forall j :: 0 <= j < |s.started| && j != i ==> s'.started[j] == s.started[j])
      && s'.started[i] == Watch(w.key, w.runId, w.cell, Asking(w.phase.attempt, s.generation), w.stopped, w.asked + 1, w.written)
  {
  }

  // ------------------------------------------------------------------ what an event stops

  ghost predicate Under(key: Key, surface: Surface, place: Option<string>) {
    key.surface == surface && (place.Some? ==> key.place == place.value)
  }

  /** The watches an event stops: those whose card it replaces or hides, or all. */
  ghost predicate Stops(s: Screen, e: Event, key: Key) {
    match e
    case DetailOrBatchShown(k, _, _) => key == k
    case TimeframeShown(k, _, _, _) => key == k
    case TimeframeFailed(k, _) => key == k
    case Cancelled(surface, place) => Under(key, surface, place)
    case TimeframesCleared(surface, _) => key.surface == surface || key.surface == DetailPanel
    case SignedIn(_) => true
    case SignedOut(_) => true
    case SessionExpired(generation, _) => s.signedIn && generation == s.generation
    case Answered(j, reply, _) =>
      reply.Unauthorized? && s.signedIn && j < |s.started| && s.started[j].phase.Asking? && s.started[j].phase.generation == s.generation
    case TimerFired(_) => false
  }

  /** Stopped if its place is cancelled, and otherwise untouched and still in the map. */
  ghost predicate Touched(s: Screen, s': Screen, i: nat, stopped: bool)
    requires i < |s.started|
  {
    && i < |s'.started|
    && (if stopped then !Live(s'.started[i])
        else s'.started[i] == s.started[i] && s.started[i].key in s'.watches && s'.watches[s.started[i].key] == i)
  }

  lemma StopKeysTouches(s: Screen, keys: set<Key>, i: nat)
    requires Inv(s) && i < |s.started| && Live(s.started[i])
    ensures Touched(s, StopKeys(s, keys), i, s.started[i].key in keys)
  {
    if s.started[i].key in keys {
      assert Hit(s, keys, i);
    }
  }

  lemma CancelTouches(s: Screen, surface: Surface, place: Option<string>, i: nat)
    requires Inv(s) && i < |s.started| && Live(s.started[i])
    ensures Touched(s, Cancel(s, surface, place), i, Under(s.started[i].key, surface, place))
  {
    var keys := Matching(s.watches.Keys, surface, place);
    StopKeysTouches(s, keys, i);
    assert s.started[i].key in keys <==> Under(s.started[i].key, surface, place);
    hide StopKeys;
  }

  lemma UnderKey(key: Key, k: Key)
    ensures Under(key, k.surface, Some(k.place)) <==> key == k
  {
  }

  lemma StartTouches(s: Screen, key: Key, runId: string, cell: Option<nat>, i: nat)
    requires Inv(s) && i < |s.started| && Live(s.started[i])
    ensures Touched(s, StartWatch(s, key, runId, cell), i, s.started[i].key == key)
  {
    CancelTouches(s, key.surface, Some(key.place), i);
    UnderKey(s.started[i].key, key);
    hide Cancel;
  }

  lemma ReplaceTouches(s: Screen, key: Key, card: nat, i: nat)
    requires Inv(s) && i < |s.started| && Live(s.started[i])
    ensures Touched(s, ReplaceCard(s, key, card), i, s.started[i].key == key)
  {
    CancelTouches(s, key.surface, Some(key.place), i);
    UnderKey(s.started[i].key, key);
    hide Cancel;
  }

  lemma PlaceholdersTouch(s: Screen, surface: Surface, blank: map<string, nat>, i: nat)
    requires Inv(s) && i < |s.started| && Live(s.started[i])
    ensures Touched(s, Placeholders(s, surface, blank), i, s.started[i].key.surface == surface || s.started[i].key.surface == DetailPanel)
  {
    hide Cancel, Inv;
    var c := Cancel(s, surface, None);
    var d := c.(cards := c.cards[surface := blank]);
    CancelTouches(s, surface, None, i);
    ClearedInv(s, surface, blank);
    if s.started[i].key.surface != surface {
      CancelTouches(d, DetailPanel, None, i);
    } else {
      StaysStopped(d, DetailPanel, i);
    }
  }

  lemma StaysStopped(s: Screen, surface: Surface, i: nat)
    requires i < |s.started| && !Live(s.started[i])
    ensures i < |Cancel(s, surface, None).started| && !Live(Cancel(s, surface, None).started[i])
  {
    assert OnlyQuieter(Cancel(s, surface, None), s);
    assert Quieter(Cancel(s, surface, None).started[i], s.started[i]);
  }

  lemma ShownTouches(s: Screen, key: Key, card: nat, runId: string, cell: Option<nat>, i: nat)
    requires Inv(s) && i < |s.started| && Live(s.started[i])
    ensures Touched(s, StartWatch(ReplaceCard(s, key, card), key, runId, cell), i, s.started[i].key == key)
  {
    hide ReplaceCard, StartWatch, Inv;
    ReplaceTouches(s, key, card, i);
    ReplaceCardInv(s, key, card);
    if s.started[i].key == key {
      StartKeeps(ReplaceCard(s, key, card), key, runId, cell, i);
    } else {
      StartTouches(ReplaceCard(s, key, card), key, runId, cell, i);
    }
  }

  lemma ExpireTouches(s: Screen, generation: nat, blank: map<string, nat>, i: nat)
    requires Inv(s) && i < |s.started| && Live(s.started[i])
    ensures Touched(s, Expire(s, generation, blank), i, s.signedIn && generation == s.generation)
  {
    hide ClearData, Inv;
    ClearDataInv(s, s.generation, false, blank);
    InTheMap(s, i);
    assert s.(signedIn := false) == s.(generation := s.generation, signedIn := false);
  }

  lemma InTheMap(s: Screen, i: nat)
    requires Inv(s) && i < |s.started| && Live(s.started[i])
    ensures s.started[i].key in s.watches && s.watches[s.started[i].key] == i
  {
  }

  lemma AnswerTouches(s: Screen, j: nat, reply: Reply, blank: map<string, nat>, i: nat)
    requires Inv(s) && i < |s.started| && j < |s.started| && i != j && Live(s.started[i]) && s.started[j].phase.Asking?
    ensures Touched(s, Answer(s, j, reply, blank), i,
                    reply.Unauthorized? && s.signedIn && s.started[j].phase.generation == s.generation)
  {
    hide Expire, Inv;
    var generation := s.started[j].phase.generation;
    InTheMap(s, i);
    ExpireTouches(s, generation, blank, i);
    ExpireInv(s, generation, blank);
    var c := if reply.Unauthorized? then Expire(s, generation, blank) else s;
    assert Quieter(c.started[j], s.started[j]);
    SettleTouches(c, j, reply, i);
  }

  lemma SettleTouches(s: Screen, j: nat, reply: Reply, i: nat)
    requires Inv(s) && i < |s.started| && j < |s.started| && i != j && s.started[j].phase.Asking?
    ensures i < |Settle(s, j, reply).started| && Settle(s, j, reply).started[i] == s.started[i]
    ensures Live(s.started[i]) ==> var to := Settle(s, j, reply).watches; s.started[i].key in to && to[s.started[i].key] == i
  {
    hide Inv;
    SettleInv(s, j, reply);
    if Live(s.started[i]) {
      InTheMap(Settle(s, j, reply), i);
    }
  }

  /** MAIN: an event stops exactly the live watches whose card it replaces or hides, or whose session it ends;
      every other live watch stays as it is, and in the map; but the one that is answered. */
  lemma AnEventStopsExactly(s: Screen, e: Event, i: nat)
    requires Inv(s) && Enabled(s, e) && i < |s.started| && Live(s.started[i])
    requires (e.Answered? || e.TimerFired?) ==> e.watch != i
    ensures Touched(s, Next(s, e), i, Stops(s, e, s.started[i].key))
  {
    hide Inv, StartWatch, ReplaceCard, Placeholders, Cancel, ClearData, Expire, Answer;
    InTheMap(s, i);
    match e
    case DetailOrBatchShown(key, runId, cell) => StartTouches(s, key, runId, cell, i);
    case TimeframeShown(key, card, runId, row) => ShownTouches(s, key, card, runId, if row then Some(card) else None, i);
    case TimeframeFailed(key, card) => ReplaceTouches(s, key, card, i);
    case Cancelled(surface, place) => CancelTouches(s, surface, place, i);
    case TimeframesCleared(surface, blank) => PlaceholdersTouch(s, surface, blank, i);
    case SignedIn(blank) => ClearDataInv(s, s.generation + 1, true, blank);
    case SignedOut(blank) =>
      ClearDataInv(s, s.generation, false, blank);
      assert s.(signedIn := false) == s.(generation := s.generation, signedIn := false);
    case SessionExpired(generation, blank) => ExpireTouches(s, generation, blank, i);
    case Answered(j, reply, blank) => AnswerTouches(s, j, reply, blank, i);
    case TimerFired(_) =>
  }

  // ------------------------------------------------------------------ what an event starts and shows

  /** A card shown with a run and a Storage row has its receipt asked for. */
  ghost predicate Starts(e: Event, key: Key, runId: string, cell: nat) {
    match e
    case DetailOrBatchShown(k, run, c) => k == key && run == runId && c == Some(cell)
    case TimeframeShown(k, card, run, row) => k == key && run == runId && row && card == cell
    case _ => false
  }

  ghost predicate StartsNothing(e: Event) {
    match e
    case DetailOrBatchShown(_, _, c) => c == None
    case TimeframeShown(_, _, _, row) => !row
    case _ => true
  }

  /** Whether the session ends: a 401 is heeded in the session it was sent in. */
  ghost predicate Ends(s: Screen, e: Event) {
    match e
    case SignedOut(_) => true
    case SessionExpired(generation, _) => generation == s.generation
    case Answered(j, reply, _) =>
      reply.Unauthorized? && j < |s.started| && s.started[j].phase.Asking? && s.started[j].phase.generation == s.generation
    case _ => false
  }

  lemma StartWatchMeans(s: Screen, key: Key, runId: string, cell: Option<nat>)
    ensures var s' := StartWatch(s, key, runId, cell);
      && s'.cells == s.cells && s'.cards == s.cards && s'.generation == s.generation && s'.signedIn == s.signedIn
      && (cell == None ==> |s'.started| == |s.started|)
      && (cell.Some? ==>
            && |s'.started| == |s.started| + 1 && key in s'.watches && s'.watches[key] == |s.started|
            && s'.started[|s.started|] == Watch(key, runId, cell.value, Asking(0, s.generation), false, 1, []))
  {
  }

  lemma ReplaceCardMeans(s: Screen, key: Key, card: nat)
    ensures var s' := ReplaceCard(s, key, card);
      && s'.cells == s.cells && s'.generation == s.generation && s'.signedIn == s.signedIn && |s'.started| == |s.started|
      && CardAt(s', key) == Some(card) && forall k: Key :: k != key ==> CardAt(s', k) == CardAt(s, k)
  {
  }

  lemma PlaceholdersMean(s: Screen, surface: Surface, blank: map<string, nat>)
    ensures var s' := Placeholders(s, surface, blank);
      && s'.cells == s.cells && s'.generation == s.generation && s'.signedIn == s.signedIn && |s'.started| == |s.started|
      && s'.cards == s.cards[surface := blank]
  {
  }

  lemma ClearDataMeans(s: Screen, blank: map<string, nat>)
    ensures var s' := ClearData(s, blank);
      && s'.cells == s.cells && s'.generation == s.generation && s'.signedIn == s.signedIn && |s'.started| == |s.started|
      && s'.cards == s.cards[SingleResult := blank]
  {
    hide Placeholders;
    PlaceholdersMean(CancelAll(s), SingleResult, blank);
  }

  lemma ExpireMeans(s: Screen, generation: nat, blank: map<string, nat>)
    ensures var s' := Expire(s, generation, blank);
      && s'.cells == s.cells && s'.generation == s.generation && |s'.started| == |s.started|
      && s'.signedIn == (s.signedIn && generation != s.generation)
      && s'.cards == if s.signedIn && generation == s.generation then s.cards[SingleResult := blank] else s.cards
  {
    hide ClearData;
    ClearDataMeans(s.(signedIn := false), blank);
  }

  /** MAIN: what an event starts, and what becomes of the session. */
  lemma AnEventStarts(s: Screen, e: Event)
    requires Enabled(s, e)
    ensures var s' := Next(s, e);
      && s'.generation == s.generation + (if e.SignedIn? then 1 else 0)
      && s'.signedIn == (e.SignedIn? || (s.signedIn && !Ends(s, e)))
      && (StartsNothing(e) ==> |s'.started| == |s.started|)
      && forall key, runId, cell :: Starts(e, key, runId, cell) ==>
           && |s'.started| == |s.started| + 1 && key in s'.watches && s'.watches[key] == |s.started|
           && s'.started[|s.started|] == Watch(key, runId, cell, Asking(0, s.generation), false, 1, [])
  {
    hide StartWatch, ReplaceCard, Placeholders, Cancel, ClearData, Expire, Showable;
    match e
    case DetailOrBatchShown(key, runId, cell) => StartWatchMeans(s, key, runId, cell);
    case TimeframeShown(key, card, runId, row) =>
      ReplaceCardMeans(s, key, card);
      StartWatchMeans(ReplaceCard(s, key, card), key, runId, if row then Some(card) else None);
    case TimeframeFailed(key, card) => ReplaceCardMeans(s, key, card);
    case TimeframesCleared(surface, blank) => PlaceholdersMean(s, surface, blank);
    case SignedIn(blank) => ClearDataMeans(s.(generation := s.generation + 1, signedIn := true), blank);
    case SignedOut(blank) => ClearDataMeans(s.(signedIn := false), blank);
    case SessionExpired(generation, blank) => ExpireMeans(s, generation, blank);
    case Answered(j, reply, blank) =>
      ExpireMeans(s, s.started[j].phase.generation, blank);
      assert Quieter(Expire(s, s.started[j].phase.generation, blank).started[j], s.started[j]);
    case Cancelled(surface, place) => assert OnlyQuieter(Cancel(s, surface, place), s); CancelKeeps(s, surface, place);
    case TimerFired(_) =>
  }

  lemma CancelKeeps(s: Screen, surface: Surface, place: Option<string>)
    ensures var s' := Cancel(s, surface, place);
      s'.cards == s.cards && s'.generation == s.generation && s'.signedIn == s.signedIn && |s'.started| == |s.started|
  {
  }

  /** MAIN: and which card each place shows then. */
  lemma AnEventShows(s: Screen, e: Event, key: Key)
    requires Enabled(s, e)
    ensures var s' := Next(s, e);
      match e
      case TimeframeShown(k, card, _, _) => CardAt(s', key) == if key == k then Some(card) else CardAt(s, key)
      case TimeframeFailed(k, card) => CardAt(s', key) == if key == k then Some(card) else CardAt(s, key)
      case TimeframesCleared(surface, blank) => s'.cards == s.cards[surface := blank]
      case SignedIn(blank) => s'.cards == s.cards[SingleResult := blank]
      case SignedOut(blank) => s'.cards == s.cards[SingleResult := blank]
      case SessionExpired(_, blank) => s'.cards == if s.signedIn && Ends(s, e) then s.cards[SingleResult := blank] else s.cards
      case Answered(_, _, blank) => s'.cards == if s.signedIn && Ends(s, e) then s.cards[SingleResult := blank] else s.cards
      case _ => s'.cards == s.cards
  {
    hide StartWatch, ReplaceCard, Placeholders, Cancel, ClearData, Expire, Showable;
    match e
    case DetailOrBatchShown(k, runId, cell) => StartWatchMeans(s, k, runId, cell);
    case TimeframeShown(k, card, runId, row) =>
      ReplaceCardMeans(s, k, card);
      StartWatchMeans(ReplaceCard(s, k, card), k, runId, if row then Some(card) else None);
    case TimeframeFailed(k, card) => ReplaceCardMeans(s, k, card);
    case TimeframesCleared(surface, blank) => PlaceholdersMean(s, surface, blank);
    case SignedIn(blank) => ClearDataMeans(s.(generation := s.generation + 1, signedIn := true), blank);
    case SignedOut(blank) => ClearDataMeans(s.(signedIn := false), blank);
    case SessionExpired(generation, blank) => ExpireMeans(s, generation, blank);
    case Answered(j, reply, blank) =>
      ExpireMeans(s, s.started[j].phase.generation, blank);
      assert Quieter(Expire(s, s.started[j].phase.generation, blank).started[j], s.started[j]);
    case Cancelled(surface, place) => CancelKeeps(s, surface, place);
    case TimerFired(_) =>
  }
}
