/** The save-receipt watches as frontend/app.js keeps them: watch objects shared by the map and by
    their own pending callbacks, changed in place. Each call is proved to be the step of
    ReceiptWatch.dfy it stands for, so every guarantee there holds of these objects. */
module SaveReceipts {
  import opened Options
  import R = ReceiptWatch

  class Watch {
    const key: R.Key
    const runId: string
    const cell: nat
    ghost const id: nat
    /** The attempt a timer is set for. */
    var timer: Option<nat>
    var stopped: bool
    ghost var phase: R.Phase
    ghost var asked: nat
    ghost var written: seq<R.SaveState>

    constructor (key: R.Key, runId: string, cell: nat, ghost id: nat, ghost generation: nat)
      ensures this.id == id && Abs() == R.Watch(key, runId, cell, R.Asking(0, generation), false, 1, [])
      ensures Valid()
    {
      this.key, this.runId, this.cell, this.id := key, runId, cell, id;
      timer, stopped, phase, asked, written := None, false, R.Asking(0, generation), 1, [];
    }

    ghost function Abs(): R.Watch
      reads this
    {
      R.Watch(key, runId, cell, phase, stopped, asked, written)
    }

    /** A timer is set exactly while the watch waits for it. */
    ghost predicate Valid()
      reads this
    {
      && (phase.Waiting? <==> timer.Some? && !stopped)
      && (phase.Waiting? ==> timer.value == phase.attempt)
    }

    method Stop()
      requires Valid()
      modifies this
      ensures Valid() && Abs() == R.Stop(old(Abs()))
    {
      stopped := true;
      if timer != None {
        // clearTimeout: it never fires.
        phase := if phase.Waiting? then R.Finished else phase;
      }
    }

    /** What `ask` does to its watch once its request is answered. */
    method Settle(attempt: nat, shown: Option<R.SaveState>, ghost reply: R.Reply) returns (ended: bool)
      requires Valid() && phase.Asking? && phase.attempt == attempt && !stopped && shown == R.Showable(reply, runId)
      modifies this
      ensures Valid() && Abs() == R.Settled(old(Abs()), reply) && (ended <==> phase.Finished?)
    {
      hide R.Showable;
      if shown != None {
        written := written + [shown.value];
      }
      if shown != Some(R.PENDING) || attempt >= |R.SAVE_RECEIPT_RETRY_DELAYS_MS| {
        phase := R.Finished;
        return true;
      }
      timer, phase := Some(attempt + 1), R.Waiting(attempt + 1, R.SAVE_RECEIPT_RETRY_DELAYS_MS[attempt]);
      return false;
    }

    /** Its answer came too late. */
    ghost method Ignore(reply: R.Reply)
      requires Valid() && phase.Asking? && stopped
      modifies this
      ensures Valid() && Abs() == R.Settled(old(Abs()), reply)
    {
      phase := R.Finished;
    }
  }

  /** `screen` is the state of ReceiptWatch.dfy these objects are in; `Valid` ties every field to it. */
  class Page {
    var saveReceiptWatches: map<R.Key, Watch>
    var cells: map<nat, R.SaveState>
    var sessionGeneration: nat
    var signedIn: bool
    ghost var started: seq<Watch>
    ghost var screen: R.Screen

    ghost predicate Fields()
      reads this
    {
      && cells == screen.cells && sessionGeneration == screen.generation && signedIn == screen.signedIn
      && saveReceiptWatches.Keys == screen.watches.Keys && |started| == |screen.started|
    }

    ghost predicate Valid()
      reads this, started
    {
      Fields() && Tied() && Mapped()
    }

    ghost predicate Tied()
      requires Fields()
      reads this, started
    {
      forall i :: 0 <= i < |started| ==>
        started[i].id == i && started[i].Valid() && started[i].Abs() == screen.started[i]
    }

    ghost predicate Mapped()
      requires Fields()
      reads this
    {
      forall k :: k in saveReceiptWatches ==>
        var i := screen.watches[k];
        i < |started| && saveReceiptWatches[k] == started[i] && started[i].key == k
    }

    constructor (signedIn: bool)
      ensures Valid() && screen == R.Loaded(signedIn)
    {
      saveReceiptWatches, cells, sessionGeneration, this.signedIn := map[], map[], 0, signedIn;
      started, screen := [], R.Loaded(signedIn);
    }

    /** When one watch changed with its place in `screen`, every watch still agrees with it. */
    twostate lemma OnlyOneChanged(watch: Watch)
      requires old(Valid()) && old(watch.id < |started| && started[watch.id] == watch)
      requires Fields() && started == old(started) && watch.Valid()
      requires screen.started == old(screen.started)[watch.id := watch.Abs()]
      requires forall i :: 0 <= i < |started| && i != watch.id ==> unchanged(started[i])
      ensures Tied()
    {
      forall i | 0 <= i < |started|
        ensures started[i].id == i && started[i].Valid() && started[i].Abs() == screen.started[i]
      {
        if i != watch.id {
          assert unchanged(started[i]);
        }
      }
    }

    lemma WatchIsStarted(key: R.Key)
      requires Valid() && key in saveReceiptWatches
      ensures saveReceiptWatches[key] in started
    {
    }

    method StopWatch(key: R.Key)
      requires Valid() && key in saveReceiptWatches
      modifies this`saveReceiptWatches, this`screen, saveReceiptWatches[key]
      ensures Valid() && started == old(started) && saveReceiptWatches == old(saveReceiptWatches) - {key}
      ensures screen == R.StopKeys(old(screen), {key})
    {
      var watch := saveReceiptWatches[key];
      R.StopOne(screen, key);
      hide R.StopKeys, R.Stop, Watch.Valid, Watch.Abs;
      watch.Stop();
      saveReceiptWatches := saveReceiptWatches - {key};
      screen := R.StopKeys(screen, {key});
      OnlyOneChanged(watch);
      hide Tied;
    }

    /** The loop of `cancelSaveReceipts` over the watches it is to stop. */
    method StopWatches(keys: set<R.Key>)
      requires Valid() && keys <= saveReceiptWatches.Keys
      modifies this`saveReceiptWatches, this`screen, started
      ensures Valid() && started == old(started)
      ensures screen == R.StopKeys(old(screen), keys)
    {
      hide R.StopKeys, Valid, Watch.Valid, Watch.Abs;
      R.StopNothing(screen);
      var left := keys;
      assert keys - left == {};
      while left != {}
        invariant left <= keys && Valid() && started == old(started)
        invariant left <= saveReceiptWatches.Keys
        invariant screen == R.StopKeys(old(screen), keys - left)
      {
        var key :| key in left;
        R.StopMore(old(screen), keys - left, {key});
        WatchIsStarted(key);
        StopWatch(key);
        assert keys - (left - {key}) == (keys - left) + {key};
        left := left - {key};
      }
      assert keys - left == keys;
    }

    method CancelSaveReceipts(surface: R.Surface, place: Option<string>)
      requires Valid()
      modifies this`saveReceiptWatches, this`screen, started
      ensures Valid() && started == old(started)
      ensures screen == R.Cancel(old(screen), surface, place)
    {
      StopWatches(R.Matching(saveReceiptWatches.Keys, surface, place));
    }

    method CancelAllSaveReceipts()
      requires Valid()
      modifies this`saveReceiptWatches, this`screen, started
      ensures Valid() && started == old(started)
      ensures screen == R.CancelAll(old(screen))
    {
      ghost var keys := screen.watches.Keys;
      assert saveReceiptWatches.Keys == keys;
      hide R.StopKeys, Valid, R.Cancel, R.Outside, R.SurfacesOf;
      R.StopNothing(screen);
      R.FromAllToNone(keys);
      var left := R.SurfacesOf(saveReceiptWatches.Keys);
      while left != {}
        invariant Valid() && started == old(started)
        invariant screen == R.StopKeys(old(screen), R.Outside(keys, left))
      {
        var surface :| surface in left;
        R.OneMoreSurface(old(screen), left, surface);
        CancelSaveReceipts(surface, None);
        left := left - {surface};
      }
    }

    method WatchSaveReceipt(key: R.Key, runId: string, cell: Option<nat>)
      requires Valid()
      modifies this`saveReceiptWatches, this`screen, this`started, started
      ensures Valid() && screen == R.StartWatch(old(screen), key, runId, cell)
      ensures started == old(started) || (|started| > 0 && fresh(started[|started| - 1]) && started[..|started| - 1] == old(started))
    {
      CancelSaveReceipts(key.surface, Some(key.place));
      if cell == None {
        return;
      }
      hide R.Cancel, Valid, Watch.Abs, Watch.Valid;
      AddWatch(key, runId, cell.value);
    }

    method AddWatch(key: R.Key, runId: string, cell: nat)
      requires Valid()
      modifies this`saveReceiptWatches, this`screen, this`started
      ensures Valid() && |started| == |old(started)| + 1 && started[..|started| - 1] == old(started)
      ensures fresh(started[|started| - 1])
      ensures screen == R.AddWatch(old(screen), key, runId, cell)
    {
      hide Watch.Valid;
      var watch := new Watch(key, runId, cell, |started|, sessionGeneration);
      saveReceiptWatches := saveReceiptWatches[key := watch];
      started := started + [watch];
      screen := R.AddWatch(screen, key, runId, cell);
    }

    /** The cards themselves are the document's; `card` is the one put in place. */
    method ReplaceTimeframeCard(key: R.Key, ghost card: nat)
      requires Valid()
      modifies this`saveReceiptWatches, this`screen, started
      ensures Valid() && started == old(started) && screen == R.ReplaceCard(old(screen), key, card)
    {
      CancelSaveReceipts(key.surface, Some(key.place));
      hide R.Cancel;
      screen := R.ReplaceCard(old(screen), key, card);
    }

    method RenderTimeframePlaceholders(surface: R.Surface, ghost blank: map<string, nat>)
      requires Valid()
      modifies this`saveReceiptWatches, this`screen, started
      ensures Valid() && started == old(started) && screen == R.Placeholders(old(screen), surface, blank)
    {
      CancelSaveReceipts(surface, None);
      hide R.Cancel;
      screen := screen.(cards := screen.cards[surface := blank]);
      CancelSaveReceipts(R.DetailPanel, None);
    }

    method ClearOperatorData(ghost blank: map<string, nat>)
      requires Valid()
      modifies this`saveReceiptWatches, this`screen, started
      ensures Valid() && started == old(started) && screen == R.ClearData(old(screen), blank)
    {
      hide R.CancelAll, R.Placeholders;
      CancelAllSaveReceipts();
      RenderTimeframePlaceholders(R.SingleResult, blank);
    }

    method SignIn(ghost blank: map<string, nat>)
      requires Valid()
      modifies this`saveReceiptWatches, this`screen, this`sessionGeneration, this`signedIn, started
      ensures Valid() && started == old(started)
      ensures screen == R.Next(old(screen), R.SignedIn(blank))
    {
      hide R.ClearData;
      sessionGeneration, signedIn := sessionGeneration + 1, true;
      screen := screen.(generation := screen.generation + 1, signedIn := true);
      ClearOperatorData(blank);
    }

    method ResetToLoggedOut(ghost blank: map<string, nat>)
      requires Valid()
      modifies this`saveReceiptWatches, this`screen, this`signedIn, started
      ensures Valid() && started == old(started) && screen == R.LogOut(old(screen), blank)
    {
      hide R.ClearData;
      signedIn := false;
      screen := screen.(signedIn := false);
      ClearOperatorData(blank);
    }

    method HandleSessionExpired(generation: nat, ghost blank: map<string, nat>)
      requires Valid()
      modifies this`saveReceiptWatches, this`screen, this`signedIn, started
      ensures Valid() && started == old(started) && screen == R.Expire(old(screen), generation, blank)
    {
      hide R.LogOut;
      if generation != sessionGeneration {
        return;
      }
      if !signedIn {
        return;
      }
      ResetToLoggedOut(blank);
    }

    /** The rest of `ask` once the request `watch` sent as `attempt`, in session `generation`, is
        answered. */
    method Answered(watch: Watch, attempt: nat, generation: nat, reply: R.Reply, ghost blank: map<string, nat>)
      requires Valid() && R.Inv(screen) && watch in started && watch.phase == R.Asking(attempt, generation)
      modifies this`saveReceiptWatches, this`screen, this`signedIn, this`cells, started
      ensures Valid() && started == old(started)
      ensures screen == R.Answer(old(screen), watch.id, reply, blank)
    {
      hide R.Expire;
      if reply.Unauthorized? {
        HandleSessionExpired(generation, blank);
        assert R.Quieter(screen.started[watch.id], old(screen).started[watch.id]);
      }
      Settle(watch, attempt, reply);
    }

    method Settle(watch: Watch, attempt: nat, reply: R.Reply)
      requires Valid() && watch in started && watch.phase.Asking? && watch.phase.attempt == attempt
      modifies this`saveReceiptWatches, this`screen, this`cells, watch
      ensures Valid() && started == old(started)
      ensures screen == R.Settle(old(screen), watch.id, reply)
    {
      hide R.Showable, R.Settled, Watch.Valid;
      screen := R.Settle(screen, watch.id, reply);
      if watch.stopped {
        watch.Ignore(reply);
        OnlyOneChanged(watch);
        hide Tied;
        return;
      }
      var shown := R.Showable(reply, watch.runId);
      if shown != None {
        cells := cells[watch.cell := shown.value];
      }
      var ended := watch.Settle(attempt, shown, reply);
      if ended {
        saveReceiptWatches := saveReceiptWatches - {watch.key};
      }
      OnlyOneChanged(watch);
      hide Tied;
    }

    /** `ask` again, from the watch's timer. */
    method TimerFired(watch: Watch)
      requires Valid() && watch in started && watch.timer.Some? && watch.phase.Waiting?
      modifies this`screen, watch
      ensures Valid() && started == old(started)
      ensures screen == R.Fire(old(screen), watch.id)
      ensures watch.phase == R.Asking(old(watch.timer).value, sessionGeneration)
    {
      screen := R.Fire(screen, watch.id);
      watch.asked := watch.asked + 1;
      watch.phase := R.Asking(watch.timer.value, sessionGeneration);
      watch.timer := None;
    }
  }
}
