/** The save-receipt watches of frontend/app.js as a state machine over its events: analyses shown,
    cards replaced, answers, timers, sign-in and sign-out, in any order. SaveReceipts.dfy runs it
    on the source's mutable objects. */
module ReceiptWatch {
  import opened Options

  /** A surface is the element whose cards are replaced together. */
  datatype Surface = SingleResult | WatchlistResult | BatchResult | DetailPanel

  predicate OfTimeframes(surface: Surface) {
    surface.SingleResult? || surface.WatchlistResult?
  }

  /** Where one card sits: a timeframe, a run or the panel, of one surface. */
  datatype Key = Key(surface: Surface, place: string)

  datatype SaveState = SAVED | PENDING | FAILED | NOT_RETAINED

  const SAVE_RECEIPT_SCHEMA_VERSION := "save_receipt.v1"
  const SAVE_RECEIPT_RETRY_DELAYS_MS := [1000, 2000, 4000]

  /** What a receipt request brings. A state of an unknown name is None. */
  datatype Reply = NoAnswer | Unauthorized | Receipt(version: string, runId: string, state: Option<SaveState>)

  /** `saveReceiptText`: the state to show, if the answer is one this screen can show. */
  function Showable(reply: Reply, runId: string): Option<SaveState> {
    if reply.Receipt? && reply.version == SAVE_RECEIPT_SCHEMA_VERSION && reply.runId == runId then reply.state else None
  }

  /** A watch awaits the answer to `attempt`, sent in a session, or a timer of `delay` ms for it, or nothing. */
  datatype Phase = Asking(attempt: nat, generation: nat) | Waiting(attempt: nat, delay: int) | Finished

  /** `asked` and `written` are history: the requests sent and the states shown. */
  datatype Watch = Watch(key: Key, runId: string, cell: nat, phase: Phase, stopped: bool, asked: nat, written: seq<SaveState>)

  predicate Live(w: Watch) {
    !w.stopped && !w.phase.Finished?
  }

  /** A card and its Storage cell have one number. `cells`: what the cells were made to show.
      `cards`: history, the card each timeframe of a surface shows. */
  datatype Screen = Screen(
    watches: map<Key, nat>,
    started: seq<Watch>,
    cells: map<nat, SaveState>,
    generation: nat,
    signedIn: bool,
    cards: map<Surface, map<string, nat>>)

  function CardAt(s: Screen, key: Key): Option<nat> {
    if key.surface in s.cards && key.place in s.cards[key.surface] then Some(s.cards[key.surface][key.place]) else None
  }

  // ------------------------------------------------------------------ what each call does

  /** Cancelling changes neither what a watch asked for nor what it showed, nor brings it back. */
  predicate Quieter(w': Watch, w: Watch) {
    && w'.key == w.key && w'.runId == w.runId && w'.cell == w.cell && w'.asked == w.asked && w'.written == w.written
    && (w'.phase == w.phase || (w.phase.Waiting? && w'.phase.Finished?)) && (w.stopped ==> w'.stopped)
  }

  predicate OnlyQuieter(s': Screen, s: Screen) {
    && |s'.started| == |s.started| && s'.cells == s.cells
    && forall i :: 0 <= i < |s.started| ==> Quieter(s'.started[i], s.started[i])
  }

  function Stop(w: Watch): Watch {
    w.(stopped := true, phase := if w.phase.Waiting? then Finished else w.phase)
  }

  predicate Hit(s: Screen, keys: set<Key>, i: nat)
    requires i < |s.started|
  {
    s.started[i].key in keys && s.started[i].key in s.watches && s.watches[s.started[i].key] == i
  }

  function StopKeys(s: Screen, keys: set<Key>): (r: Screen)
    ensures OnlyQuieter(r, s)
  {
    s.(watches := s.watches - keys,
       started := seq(|s.started|, i requires 0 <= i < |s.started| =>
                        if Hit(s, keys, i) then Stop(s.started[i]) else s.started[i]))
  }

  function Matching(keys: set<Key>, surface: Surface, place: Option<string>): set<Key> {
    set k | k in keys && k.surface == surface && (place == None || k.place == place.value)
  }

  /** `cancelSaveReceipts` */
  function Cancel(s: Screen, surface: Surface, place: Option<string>): (r: Screen)
    ensures OnlyQuieter(r, s)
  {
    StopKeys(s, Matching(s.watches.Keys, surface, place))
  }

  /** `cancelAllSaveReceipts` */
  function CancelAll(s: Screen): (r: Screen)
    ensures OnlyQuieter(r, s)
  {
    StopKeys(s, s.watches.Keys)
  }

  /** `watchSaveReceipt`; `cell` is None without a run or a Storage row. */
  function StartWatch(s: Screen, key: Key, runId: string, cell: Option<nat>): Screen {
    var c := Cancel(s, key.surface, Some(key.place));
    if cell == None then c else AddWatch(c, key, runId, cell.value)
  }

  function AddWatch(s: Screen, key: Key, runId: string, cell: nat): Screen {
    s.(watches := s.watches[key := |s.started|],
       started := s.started + [Watch(key, runId, cell, Asking(0, s.generation), false, 1, [])])
  }

  /** `replaceTimeframeCard` */
  function ReplaceCard(s: Screen, key: Key, card: nat): Screen {
    var c := Cancel(s, key.surface, Some(key.place));
    var shown := if key.surface in c.cards then c.cards[key.surface] else map[];
    c.(cards := c.cards[key.surface := shown[key.place := card]])
  }

  /** `renderTimeframePlaceholders`, which also hides the detail panel. */
  function Placeholders(s: Screen, surface: Surface, blank: map<string, nat>): (r: Screen)
    ensures OnlyQuieter(r, s)
  {
    var c := Cancel(s, surface, None);
    Cancel(c.(cards := c.cards[surface := blank]), DetailPanel, None)
  }

  /** `clearOperatorData` */
  function ClearData(s: Screen, blank: map<string, nat>): (r: Screen)
    ensures OnlyQuieter(r, s)
  {
    Placeholders(CancelAll(s), SingleResult, blank)
  }

  /** `resetToLoggedOut` */
  function LogOut(s: Screen, blank: map<string, nat>): (r: Screen)
    ensures OnlyQuieter(r, s)
  {
    ClearData(s.(signedIn := false), blank)
  }

  /** `handleSessionExpired`, of a request sent in session `generation`. */
  function Expire(s: Screen, generation: nat, blank: map<string, nat>): (r: Screen)
    ensures OnlyQuieter(r, s)
  {
    if generation == s.generation && s.signedIn then LogOut(s, blank) else s
  }

  /** A watch once its request is answered: it waits to ask again only after PENDING, while a delay is
      left. */
  function Settled(w: Watch, reply: Reply): Watch
    requires w.phase.Asking?
  {
    var shown := Showable(reply, w.runId);
    if w.stopped then w.(phase := Finished)
    else
      w.(written := w.written + if shown.Some? then [shown.value] else [],
         phase := if shown != Some(PENDING) || w.phase.attempt >= |SAVE_RECEIPT_RETRY_DELAYS_MS| then Finished
                  else Waiting(w.phase.attempt + 1, SAVE_RECEIPT_RETRY_DELAYS_MS[w.phase.attempt]))
  }

  /** The rest of `ask` once its request is answered. */
  function Settle(s: Screen, i: nat, reply: Reply): Screen
    requires i < |s.started| && s.started[i].phase.Asking?
  {
    var w := s.started[i];
    var shown := Showable(reply, w.runId);
    if w.stopped then s.(started := s.started[i := Settled(w, reply)])
    else
      s.(started := s.started[i := Settled(w, reply)],
         cells := if shown.Some? then s.cells[w.cell := shown.value] else s.cells,
         watches := if Settled(w, reply).phase.Finished? then s.watches - {w.key} else s.watches)
  }

  function Answer(s: Screen, i: nat, reply: Reply, blank: map<string, nat>): Screen
    requires i < |s.started| && s.started[i].phase.Asking?
  {
    var c := if reply.Unauthorized? then Expire(s, s.started[i].phase.generation, blank) else s;
    Settle(c, i, reply)
  }

  /** The timer of a watch: the next `ask`. */
  function Fire(s: Screen, i: nat): Screen
    requires i < |s.started| && s.started[i].phase.Waiting?
  {
    var w := s.started[i];
    s.(started := s.started[i := w.(phase := Asking(w.phase.attempt, s.generation), asked := w.asked + 1)])
  }

  lemma StopNothing(s: Screen)
    ensures StopKeys(s, {}) == s
  {
    assert s.watches - {} == s.watches;
    assert StopKeys(s, {}).started == s.started;
  }

  lemma StopOne(s: Screen, key: Key)
    requires key in s.watches && s.watches[key] < |s.started| && s.started[s.watches[key]].key == key
    ensures StopKeys(s, {key}) ==
      s.(watches := s.watches - {key}, started := s.started[s.watches[key] := Stop(s.started[s.watches[key]])])
  {
    var d := StopKeys(s, {key});
    forall i | 0 <= i < |s.started| ensures d.started[i] == s.started[s.watches[key] := Stop(s.started[s.watches[key]])][i] {
    }
  }

  /** Cancelling some places and then others is cancelling them all. */
  lemma StopMore(s: Screen, a: set<Key>, b: set<Key>)
    ensures StopKeys(StopKeys(s, a), b) == StopKeys(s, a + b)
  {
    var c, d, e := StopKeys(s, a), StopKeys(StopKeys(s, a), b), StopKeys(s, a + b);
    assert d.watches == e.watches;
    forall i | 0 <= i < |s.started| ensures d.started[i] == e.started[i] {
      assert c.started[i].key == s.started[i].key;
    }
  }

  function Outside(keys: set<Key>, left: set<Surface>): set<Key> {
    set k | k in keys && k.surface !in left
  }

  function SurfacesOf(keys: set<Key>): set<Surface> {
    set key | key in keys :: key.surface
  }

  lemma FromAllToNone(keys: set<Key>)
    ensures Outside(keys, SurfacesOf(keys)) == {} && Outside(keys, {}) == keys
  {
    assert forall key :: key in keys ==> key.surface in SurfacesOf(keys);
  }

  /** Surface by surface, every watch is cancelled. */
  lemma OneMoreSurface(s: Screen, left: set<Surface>, surface: Surface)
    requires surface in left
    ensures Cancel(StopKeys(s, Outside(s.watches.Keys, left)), surface, None)
         == StopKeys(s, Outside(s.watches.Keys, left - {surface}))
  {
    var done := Outside(s.watches.Keys, left);
    var c := StopKeys(s, done);
    assert c.watches.Keys == s.watches.Keys - done;
    var more := Matching(c.watches.Keys, surface, None);
    StopMore(s, done, more);
    hide StopKeys;
    assert done + more == Outside(s.watches.Keys, left - {surface});
  }

  // ------------------------------------------------------------------ the events

  datatype Event =
    | DetailOrBatchShown(key: Key, runId: string, cell: Option<nat>)
    | Cancelled(surface: Surface, place: Option<string>)
    | TimeframeShown(key: Key, card: nat, runId: string, hasStorageRow: bool)
    | TimeframeFailed(key: Key, card: nat)
    | TimeframesCleared(surface: Surface, blank: map<string, nat>)
    | SignedIn(blank: map<string, nat>)
    | SignedOut(blank: map<string, nat>)
    | SessionExpired(generation: nat, blank: map<string, nat>)
    | Answered(watch: nat, reply: Reply, blank: map<string, nat>)
    | TimerFired(watch: nat)

  /** A cleared timer never fires, and a request is answered once. */
  predicate Enabled(s: Screen, e: Event) {
    match e
    case DetailOrBatchShown(key, _, _) => !OfTimeframes(key.surface)
    case TimeframeShown(key, _, _, _) => OfTimeframes(key.surface)
    case TimeframeFailed(key, _) => OfTimeframes(key.surface)
    case TimeframesCleared(surface, _) => OfTimeframes(surface)
    case Answered(i, _, _) => i < |s.started| && s.started[i].phase.Asking?
    case TimerFired(i) => i < |s.started| && s.started[i].phase.Waiting?
    case _ => true
  }

  function Next(s: Screen, e: Event): Screen
    requires Enabled(s, e)
  {
    match e
    case DetailOrBatchShown(key, runId, cell) => StartWatch(s, key, runId, cell)
    case Cancelled(surface, place) => Cancel(s, surface, place)
    case TimeframeShown(key, card, runId, row) =>
      StartWatch(ReplaceCard(s, key, card), key, runId, if row then Some(card) else None)
    case TimeframeFailed(key, card) => ReplaceCard(s, key, card)
    case TimeframesCleared(surface, blank) => Placeholders(s, surface, blank)
    case SignedIn(blank) => ClearData(s.(generation := s.generation + 1, signedIn := true), blank)
    case SignedOut(blank) => LogOut(s, blank)
    case SessionExpired(generation, blank) => Expire(s, generation, blank)
    case Answered(i, reply, blank) => Answer(s, i, reply, blank)
    case TimerFired(i) => Fire(s, i)
  }

  predicate Possible(s: Screen, run: seq<Event>)
    decreases |run|
  {
    run == [] || (Enabled(s, run[0]) && Possible(Next(s, run[0]), run[1..]))
  }

  function After(s: Screen, run: seq<Event>): Screen
    requires Possible(s, run)
    decreases |run|
  {
    if run == [] then s else After(Next(s, run[0]), run[1..])
  }

  function Loaded(signedIn: bool): Screen {
    Screen(map[], [], map[], 0, signedIn, map[])
  }

  // ------------------------------------------------------------------ what every event keeps

  /** The map holds exactly the live watches, each under its own place. */
  predicate MapInv(s: Screen) {
    && (forall k :: k in s.watches ==>
          s.watches[k] < |s.started| && s.started[s.watches[k]].key == k && Live(s.started[s.watches[k]]))
    && (forall i :: 0 <= i < |s.started| && Live(s.started[i]) ==>
          s.started[i].key in s.watches && s.watches[s.started[i].key] == i)
  }

  /** One request per attempt; every attempt but the first follows a PENDING answer. */
  predicate WatchInv(w: Watch) {
    && 1 <= w.asked <= 1 + |SAVE_RECEIPT_RETRY_DELAYS_MS|
    && w.asked - 1 <= |w.written| <= w.asked
    && (forall j :: 0 <= j < w.asked - 1 ==> w.written[j] == PENDING)
    && (w.phase.Asking? ==> w.asked == w.phase.attempt + 1 && |w.written| == w.phase.attempt)
    && (w.phase.Waiting? ==> !w.stopped && w.asked == w.phase.attempt && |w.written| == w.phase.attempt
                             && w.asked <= |SAVE_RECEIPT_RETRY_DELAYS_MS| && w.written[w.asked - 1] == PENDING)
  }

  /** A live watch's request belongs to this session, and its cell to the card now shown. */
  predicate CurrentInv(s: Screen, w: Watch) {
    Live(w) ==>
      && (w.phase.Asking? ==> w.phase.generation == s.generation)
      && (OfTimeframes(w.key.surface) ==> CardAt(s, w.key) == Some(w.cell))
  }

  predicate Inv(s: Screen) {
    && MapInv(s)
    && (forall i :: 0 <= i < |s.started| ==> WatchInv(s.started[i]) && CurrentInv(s, s.started[i]))
  }

  lemma StoppedWatch(s: Screen, s': Screen, w: Watch)
    requires WatchInv(w)
    ensures WatchInv(Stop(w)) && CurrentInv(s', Stop(w))
    ensures CurrentInv(s, w) && s'.generation == s.generation && s'.cards == s.cards ==> CurrentInv(s', w)
  {
  }

  lemma StopKeysMap(s: Screen, keys: set<Key>)
    requires MapInv(s)
    ensures MapInv(StopKeys(s, keys))
  {
    var s' := StopKeys(s, keys);
    forall k | k in s'.watches
      ensures s'.watches[k] < |s'.started| && s'.started[s'.watches[k]] == s.started[s.watches[k]]
    {
      assert s.started[s.watches[k]].key == k && k !in keys;
    }
    forall i | 0 <= i < |s'.started| && Live(s'.started[i])
      ensures s'.started[i] == s.started[i] && s'.started[i].key in s'.watches && s'.watches[s'.started[i].key] == i
    {
      assert !Hit(s, keys, i);
    }
  }

  lemma StopKeysInv(s: Screen, keys: set<Key>)
    requires Inv(s)
    ensures Inv(StopKeys(s, keys))
  {
    var s' := StopKeys(s, keys);
    StopKeysMap(s, keys);
    hide MapInv, WatchInv, CurrentInv, Hit, Stop;
    forall i | 0 <= i < |s'.started| ensures WatchInv(s'.started[i]) && CurrentInv(s', s'.started[i]) {
      StoppedWatch(s, s', s.started[i]);
    }
  }

  /** After cancelling, nothing live is left under the cancelled places. */
  lemma NothingLiveUnder(s: Screen, keys: set<Key>, i: nat)
    requires Inv(s) && i < |s.started| && s.started[i].key in keys
    ensures !Live(StopKeys(s, keys).started[i])
  {
    if Live(s.started[i]) {
      assert Hit(s, keys, i);
    }
  }

  lemma CancelInv(s: Screen, surface: Surface, place: Option<string>)
    requires Inv(s)
    ensures var c := Cancel(s, surface, place);
      && Inv(c)
      && forall i :: 0 <= i < |c.started| && Live(c.started[i]) ==>
           !(c.started[i].key.surface == surface && (place == None || c.started[i].key.place == place.value))
  {
    var keys := Matching(s.watches.Keys, surface, place);
    var c := StopKeys(s, keys);
    StopKeysInv(s, keys);
    forall i | 0 <= i < |c.started| && c.started[i].key.surface == surface
      && (place == None || c.started[i].key.place == place.value)
      ensures !Live(c.started[i])
    {
      if s.started[i].key in keys {
        NothingLiveUnder(s, keys, i);
      }
    }
  }

  lemma CancelAllInv(s: Screen)
    requires Inv(s)
    ensures Inv(CancelAll(s))
    ensures forall i :: 0 <= i < |s.started| ==> !Live(CancelAll(s).started[i])
  {
    StopKeysInv(s, s.watches.Keys);
    forall i | 0 <= i < |s.started| ensures !Live(CancelAll(s).started[i]) {
      if s.started[i].key in s.watches {
        NothingLiveUnder(s, s.watches.Keys, i);
      }
    }
  }

  lemma StartWatchInv(s: Screen, key: Key, runId: string, cell: Option<nat>)
    requires Inv(s)
    requires OfTimeframes(key.surface) && cell.Some? ==> CardAt(s, key) == cell
    ensures Inv(StartWatch(s, key, runId, cell))
  {
    CancelInv(s, key.surface, Some(key.place));
    if cell.Some? {
      WatchAdded(Cancel(s, key.surface, Some(key.place)), key, runId, cell.value);
    }
  }

  lemma WatchAdded(c: Screen, key: Key, runId: string, cell: nat)
    requires Inv(c) && (OfTimeframes(key.surface) ==> CardAt(c, key) == Some(cell))
    requires forall i :: 0 <= i < |c.started| && Live(c.started[i]) ==> c.started[i].key != key
    ensures Inv(AddWatch(c, key, runId, cell))
  {
    var s' := AddWatch(c, key, runId, cell);
    forall i | 0 <= i < |s'.started| ensures WatchInv(s'.started[i]) && CurrentInv(s', s'.started[i]) {
      if i < |c.started| {
        assert WatchInv(c.started[i]) && CurrentInv(c, c.started[i]);
      }
    }
  }

  lemma CardsInv(c: Screen, cards: map<Surface, map<string, nat>>)
    requires Inv(c)
    requires forall i :: 0 <= i < |c.started| && Live(c.started[i]) ==>
      CardAt(c.(cards := cards), c.started[i].key) == CardAt(c, c.started[i].key)
    ensures Inv(c.(cards := cards))
  {
    hide CardAt, WatchInv;
    var s' := c.(cards := cards);
    assert MapInv(s');
    hide MapInv;
    forall i | 0 <= i < |c.started| ensures WatchInv(s'.started[i]) && CurrentInv(s', s'.started[i]) {
      assert WatchInv(c.started[i]) && CurrentInv(c, c.started[i]);
    }
  }

  lemma ReplaceCardInv(s: Screen, key: Key, card: nat)
    requires Inv(s)
    ensures Inv(ReplaceCard(s, key, card)) && CardAt(ReplaceCard(s, key, card), key) == Some(card)
  {
    CancelInv(s, key.surface, Some(key.place));
    var c, s' := Cancel(s, key.surface, Some(key.place)), ReplaceCard(s, key, card);
    hide Inv, Cancel;
    forall other: Key | other != key ensures CardAt(s', other) == CardAt(c, other) {
    }
    CardsInv(c, s'.cards);
  }

  lemma OtherSurfacesStay(c: Screen, surface: Surface, blank: map<string, nat>, key: Key)
    requires key.surface != surface
    ensures CardAt(c.(cards := c.cards[surface := blank]), key) == CardAt(c, key)
  {
  }

  lemma ClearedInv(s: Screen, surface: Surface, blank: map<string, nat>)
    requires Inv(s)
    ensures var c := Cancel(s, surface, None); Inv(c.(cards := c.cards[surface := blank]))
  {
    hide Inv, Cancel, CardAt;
    CancelInv(s, surface, None);
    var c := Cancel(s, surface, None);
    forall i | 0 <= i < |c.started| && Live(c.started[i])
      ensures CardAt(c.(cards := c.cards[surface := blank]), c.started[i].key) == CardAt(c, c.started[i].key)
    {
      OtherSurfacesStay(c, surface, blank, c.started[i].key);
    }
    CardsInv(c, c.cards[surface := blank]);
  }

  lemma PlaceholdersInv(s: Screen, surface: Surface, blank: map<string, nat>)
    requires Inv(s)
    ensures Inv(Placeholders(s, surface, blank))
  {
    hide Inv, Cancel;
    ClearedInv(s, surface, blank);
    var c := Cancel(s, surface, None);
    CancelInv(c.(cards := c.cards[surface := blank]), DetailPanel, None);
  }

  /** Whatever session comes next, clearing leaves nothing live. */
  lemma ClearDataInv(s: Screen, generation: nat, signedIn: bool, blank: map<string, nat>)
    requires Inv(s)
    ensures Inv(ClearData(s.(generation := generation, signedIn := signedIn), blank))
    ensures forall i :: 0 <= i < |s.started| ==>
      !Live(ClearData(s.(generation := generation, signedIn := signedIn), blank).started[i])
  {
    CancelAllInv(s);
    var s' := s.(generation := generation, signedIn := signedIn);
    var c := CancelAll(s');
    assert c == CancelAll(s).(generation := generation, signedIn := signedIn);
    assert Inv(c);
    PlaceholdersInv(c, SingleResult, blank);
    forall i | 0 <= i < |s.started| ensures !Live(ClearData(s', blank).started[i]) {
      assert !Live(c.started[i]);
    }
  }

  lemma SettleInv(s: Screen, i: nat, reply: Reply)
    requires Inv(s) && i < |s.started| && s.started[i].phase.Asking?
    ensures Inv(Settle(s, i, reply))
  {
    var w, s' := s.started[i], Settle(s, i, reply);
    assert WatchInv(w) && CurrentInv(s, w);
    SettledWatch(s, i, reply);
    SettledMap(s, i, reply);
    hide MapInv, WatchInv, Showable;
    forall j | 0 <= j < |s'.started| ensures WatchInv(s'.started[j]) && CurrentInv(s', s'.started[j]) {
      assert WatchInv(s.started[j]) && CurrentInv(s, s.started[j]);
    }
  }

  lemma SettledMap(s: Screen, i: nat, reply: Reply)
    requires MapInv(s) && i < |s.started| && s.started[i].phase.Asking?
    ensures MapInv(Settle(s, i, reply))
  {
    hide Showable;
    var w, s' := s.started[i], Settle(s, i, reply);
    assert forall j :: 0 <= j < |s.started| && j != i ==> s'.started[j] == s.started[j];
    assert !w.stopped ==> Live(w) && w.key in s.watches && s.watches[w.key] == i;
    assert s'.watches == if !w.stopped && s'.started[i].phase.Finished? then s.watches - {w.key} else s.watches;
    assert s'.started[i].key == w.key && (Live(s'.started[i]) <==> !w.stopped && !s'.started[i].phase.Finished?);
    hide Settle, Settled;
  }

  lemma SettledWatch(s: Screen, i: nat, reply: Reply)
    requires i < |s.started| && s.started[i].phase.Asking? && WatchInv(s.started[i])
    ensures WatchInv(Settle(s, i, reply).started[i])
  {
  }

  lemma ExpireInv(s: Screen, generation: nat, blank: map<string, nat>)
    requires Inv(s)
    ensures Inv(Expire(s, generation, blank))
  {
    ClearDataInv(s, s.generation, false, blank);
    assert s.(signedIn := false) == s.(generation := s.generation, signedIn := false);
  }

  lemma FireInv(s: Screen, i: nat)
    requires Inv(s) && i < |s.started| && s.started[i].phase.Waiting?
    ensures Inv(Fire(s, i))
  {
    var s' := Fire(s, i);
    assert WatchInv(s.started[i]) && CurrentInv(s, s.started[i]);
    forall j | 0 <= j < |s'.started| ensures WatchInv(s'.started[j]) && CurrentInv(s', s'.started[j]) {
      assert WatchInv(s.started[j]) && CurrentInv(s, s.started[j]);
    }
  }

  lemma StepInv(s: Screen, e: Event)
    requires Inv(s) && Enabled(s, e)
    ensures Inv(Next(s, e))
  {
    hide MapInv, WatchInv, CurrentInv, StartWatch, ReplaceCard, Placeholders, Cancel, ClearData, Settle, Fire, CardAt;
    match e
    case DetailOrBatchShown(key, runId, cell) => StartWatchInv(s, key, runId, cell);
    case Cancelled(surface, place) => CancelInv(s, surface, place);
    case TimeframeShown(key, card, runId, row) =>
      ReplaceCardInv(s, key, card);
      StartWatchInv(ReplaceCard(s, key, card), key, runId, if row then Some(card) else None);
    case TimeframeFailed(key, card) => ReplaceCardInv(s, key, card);
    case TimeframesCleared(surface, blank) => PlaceholdersInv(s, surface, blank);
    case SignedIn(blank) => ClearDataInv(s, s.generation + 1, true, blank);
    case SignedOut(blank) =>
      ClearDataInv(s, s.generation, false, blank);
      assert s.(signedIn := false) == s.(generation := s.generation, signedIn := false);
    case SessionExpired(generation, blank) => ExpireInv(s, generation, blank);
    case Answered(i, reply, blank) =>
      if reply.Unauthorized? {
        ExpireInv(s, s.started[i].phase.generation, blank);
      }
      SettleInv(if reply.Unauthorized? then Expire(s, s.started[i].phase.generation, blank) else s, i, reply);
    case TimerFired(i) => FireInv(s, i);
  }

  lemma {:induction false} RunInv(s: Screen, run: seq<Event>)
    requires Inv(s) && Possible(s, run)
    ensures Inv(After(s, run))
    decreases |run|
  {
    hide Inv;
    if run != [] {
      StepInv(s, run[0]);
      RunInv(Next(s, run[0]), run[1..]);
    }
  }

  lemma LoadedInv(signedIn: bool)
    ensures Inv(Loaded(signedIn))
  {
  }

  // ------------------------------------------------------------------ the guarantees, over every run

  /** MAIN: whatever happens in whatever order, a watch is in the map exactly while it is live, and
      so a place has at most one. */
  lemma TheMapHoldsTheLiveWatches(signedIn: bool, run: seq<Event>)
    requires Possible(Loaded(signedIn), run)
    ensures var s := After(Loaded(signedIn), run);
      && (forall i :: 0 <= i < |s.started| ==>
            (Live(s.started[i]) <==> s.started[i].key in s.watches && s.watches[s.started[i].key] == i))
      && (forall k :: k in s.watches ==> s.watches[k] < |s.started| && s.started[s.watches[k]].key == k)
      && (forall i, j | 0 <= i < |s.started| && 0 <= j < |s.started| && Live(s.started[i]) && Live(s.started[j]) ::
            s.started[i].key == s.started[j].key ==> i == j)
  {
    LoadedInv(signedIn);
    RunInv(Loaded(signedIn), run);
  }

  /** MAIN: a watch sends at most one request and one more per delay, and a further one only after an
      answer that said PENDING: nothing polls. */
  lemma RequestsAreBounded(signedIn: bool, run: seq<Event>, i: nat)
    requires Possible(Loaded(signedIn), run) && i < |After(Loaded(signedIn), run).started|
    ensures var w := After(Loaded(signedIn), run).started[i];
      && 1 <= w.asked <= 1 + |SAVE_RECEIPT_RETRY_DELAYS_MS|
      && w.asked - 1 <= |w.written| <= w.asked
      && (forall j :: 0 <= j < w.asked - 1 ==> w.written[j] == PENDING)
  {
    LoadedInv(signedIn);
    RunInv(Loaded(signedIn), run);
  }

  /** MAIN: on a timeframe surface, the cell of a live watch is that of the card now shown. */
  lemma ALiveWatchIsShown(signedIn: bool, run: seq<Event>, i: nat)
    requires Possible(Loaded(signedIn), run)
    ensures var s := After(Loaded(signedIn), run);
      i < |s.started| && Live(s.started[i]) && s.started[i].key.surface in {SingleResult, WatchlistResult} ==>
        CardAt(s, s.started[i].key) == Some(s.started[i].cell)
  {
    LoadedInv(signedIn);
    RunInv(Loaded(signedIn), run);
  }

  /** The watch that ends itself removes itself and no other: every other live watch stays in the map. */
  lemma SelfDeleteIsSafe(s: Screen, i: nat, reply: Reply)
    requires Inv(s) && i < |s.started| && s.started[i].phase.Asking?
    ensures var s' := Settle(s, i, reply);
      && (forall j :: 0 <= j < |s.started| && j != i ==>
            (Live(s'.started[j]) <==> Live(s.started[j])) && (Live(s.started[j]) ==> s'.watches[s.started[j].key] == j))
      && (Live(s.started[i]) && !Live(s'.started[i]) ==> s'.watches == s.watches - {s.started[i].key})
      && (s.started[i].stopped ==> s'.watches == s.watches)
  {
    SettleInv(s, i, reply);
    var s' := Settle(s, i, reply);
    assert WatchInv(s.started[i]);
    forall j | 0 <= j < |s.started| && j != i && Live(s.started[j]) ensures s'.watches[s.started[j].key] == j {
      assert Live(s'.started[j]);
    }
  }

  /** Once stopped or finished: no further request, nothing more shown, for good. */
  lemma SilentStep(s: Screen, e: Event, i: nat)
    requires Inv(s) && Enabled(s, e) && i < |s.started| && !Live(s.started[i])
    ensures i < |Next(s, e).started| && !Live(Next(s, e).started[i])
    ensures Next(s, e).started[i].asked == s.started[i].asked && Next(s, e).started[i].written == s.started[i].written
  {
    assert WatchInv(s.started[i]);
    hide Inv, MapInv, CurrentInv, ReplaceCard, StartWatch, Placeholders, Cancel, ClearData, Answer, CardAt, Showable;
    match e
    case DetailOrBatchShown(key, runId, cell) => StartKeeps(s, key, runId, cell, i);
    case TimeframeShown(key, card, runId, row) =>
      ReplaceKeeps(s, key, card, i);
      StartKeeps(ReplaceCard(s, key, card), key, runId, if row then Some(card) else None, i);
    case TimeframeFailed(key, card) => ReplaceKeeps(s, key, card, i);
    case Answered(j, reply, blank) => AnswerKeeps(s, j, reply, blank, i);
    case _ =>
  }

  lemma AnswerKeeps(s: Screen, j: nat, reply: Reply, blank: map<string, nat>, i: nat)
    requires j < |s.started| && s.started[j].phase.Asking? && i < |s.started| && !Live(s.started[i])
    ensures var s' := Answer(s, j, reply, blank);
      && i < |s'.started| && !Live(s'.started[i])
      && s'.started[i].asked == s.started[i].asked && s'.started[i].written == s.started[i].written
  {
    hide Expire, Showable;
    var c := if reply.Unauthorized? then Expire(s, s.started[j].phase.generation, blank) else s;
    assert Quieter(c.started[i], s.started[i]);
    assert Quieter(c.started[j], s.started[j]);
  }

  lemma ReplaceKeeps(s: Screen, key: Key, card: nat, i: nat)
    requires i < |s.started| && !Live(s.started[i])
    ensures OnlyQuieter(ReplaceCard(s, key, card), s) && !Live(ReplaceCard(s, key, card).started[i])
  {
    assert OnlyQuieter(Cancel(s, key.surface, Some(key.place)), s);
    assert Quieter(Cancel(s, key.surface, Some(key.place)).started[i], s.started[i]);
  }

  lemma StartKeeps(s: Screen, key: Key, runId: string, cell: Option<nat>, i: nat)
    requires i < |s.started| && !Live(s.started[i])
    ensures i < |StartWatch(s, key, runId, cell).started| && Quieter(StartWatch(s, key, runId, cell).started[i], s.started[i])
    ensures !Live(StartWatch(s, key, runId, cell).started[i])
  {
    assert OnlyQuieter(Cancel(s, key.surface, Some(key.place)), s);
    assert Quieter(Cancel(s, key.surface, Some(key.place)).started[i], s.started[i]);
  }

  /** MAIN: a watch that was stopped, or has ended, never asks and never shows anything again. */
  lemma {:induction false} AStoppedWatchIsSilent(s: Screen, run: seq<Event>, i: nat)
    requires Inv(s) && Possible(s, run) && i < |s.started| && !Live(s.started[i])
    ensures i < |After(s, run).started| && !Live(After(s, run).started[i])
    ensures After(s, run).started[i].asked == s.started[i].asked
    ensures After(s, run).started[i].written == s.started[i].written
    decreases |run|
  {
    hide Inv, Live, Next;
    if run != [] {
      SilentStep(s, run[0], i);
      StepInv(s, run[0]);
      AStoppedWatchIsSilent(Next(s, run[0]), run[1..], i);
    }
  }

  /** MAIN: a cell changes only when a live watch's own receipt arrives, to the state it gives, and
      on a timeframe surface that cell belongs to the card now shown. */
  lemma OnlyItsOwnReceiptIsShown(s: Screen, e: Event)
    requires Inv(s) && Enabled(s, e) && Next(s, e).cells != s.cells
    ensures e.Answered? && Live(s.started[e.watch])
    ensures var w := s.started[e.watch];
      && e.reply == Receipt(SAVE_RECEIPT_SCHEMA_VERSION, w.runId, Some(Next(s, e).cells[w.cell]))
      && Next(s, e).cells == s.cells[w.cell := e.reply.state.value]
      && (w.key.surface in {SingleResult, WatchlistResult} ==> CardAt(Next(s, e), w.key) == Some(w.cell))
  {
    hide StartWatch, ReplaceCard, Placeholders, Cancel, ClearData, MapInv, WatchInv;
    match e
    case DetailOrBatchShown(key, runId, cell) => SameCells(s, key, 0, runId, cell);
    case TimeframeShown(key, card, runId, row) =>
      SameCells(s, key, card, runId, None);
      SameCells(ReplaceCard(s, key, card), key, card, runId, if row then Some(card) else None);
    case TimeframeFailed(key, card) => SameCells(s, key, card, "", None);
    case Answered(i, reply, blank) => assert CurrentInv(s, s.started[i]);
    case _ =>
  }

  lemma SameCells(s: Screen, key: Key, card: nat, runId: string, cell: Option<nat>)
    ensures ReplaceCard(s, key, card).cells == s.cells && StartWatch(s, key, runId, cell).cells == s.cells
  {
    assert OnlyQuieter(Cancel(s, key.surface, Some(key.place)), s);
  }

  lemma NothingLiveNothingMapped(s: Screen)
    requires MapInv(s) && forall i :: 0 <= i < |s.started| ==> !Live(s.started[i])
    ensures s.watches == map[]
  {
    forall k ensures k !in s.watches {
    }
  }

  /** A 401 that answers a live watch's request always ends the session that is signed in. */
  lemma ExpiryIsHeeded(s: Screen, i: nat, blank: map<string, nat>)
    requires Inv(s) && i < |s.started| && s.started[i].phase.Asking? && Live(s.started[i]) && s.signedIn
    ensures !Answer(s, i, Unauthorized, blank).signedIn && Answer(s, i, Unauthorized, blank).watches == map[]
  {
    var w := s.started[i];
    assert CurrentInv(s, w);
    ClearDataInv(s, s.generation, false, blank);
    assert s.(signedIn := false) == s.(generation := s.generation, signedIn := false);
    var c := Expire(s, w.phase.generation, blank);
    assert c == ClearData(s.(signedIn := false), blank);
    NothingLiveNothingMapped(c);
    assert !Live(c.started[i]);
  }
}
