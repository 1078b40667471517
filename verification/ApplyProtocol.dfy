/** The one-shot apply protocol, run by any number of appliers at once. */
module ApplyProtocol {
  // scripts/apply_migration_0010/0011/0013/0016/0017/0018.py share it. Each applier is a client (the
  // script) and a server session (its transaction). The client takes a transaction-level advisory lock,
  // reads and pre-checks, runs the migration, reads and post-checks, marks the commit as attempted, and
  // sends COMMIT. Everything may fail at any time: the client may stop, the server may roll back, and a
  // COMMIT may be lost in either direction. The migration is not trusted at all: it may turn the
  // transaction's view into any state.

  import opened Options

  /** What one route decides from its reads: the pre-checks pass, the post-checks and probes pass. */
  datatype Route<!S> = Route(pre: S -> bool, post: (S, S) -> bool)

  datatype Captured = Captured(commitAttempted: bool, committed: bool)

  datatype Client<S> =
    | Idle
    | Locking
    | Reading
    | Checked(pre: S)
    | Migrated(pre: S)
    | Verified(pre: S)
    | Attempting(pre: S)
    | Committing
    | Acknowledged
    | Ended(applied: bool)

  datatype Session<S> =
    | NoSession
    | Waiting
    | Open(work: S)
    | CommitSent(pre: S, work: S)
    | Committed(work: S)
    | RolledBack

  datatype Applier<S> = Applier(client: Client<S>, session: Session<S>, captured: Captured)

  datatype Commit<S> = Commit(applier: nat, state: S)

  /** `log` is the ghost history of the commits, oldest first. */
  datatype World<S> = World(shared: S, holder: Option<nat>, appliers: seq<Applier<S>>, log: seq<Commit<S>>)

  datatype Event<S> =
    | Begin
    | Lock
    | PreCheck
    | Migrate(result: S)
    | PostCheck
    | MarkAttempt
    | SendCommit
    | Acknowledge
    | Finish
    | Fail
    | ServerCommit
    | ServerRollback

  ghost predicate Enabled<S>(w: World<S>, i: nat, e: Event<S>) {
    && i < |w.appliers|
    && var a := w.appliers[i];
      match e
      case Begin => a.client.Idle? && a.session.NoSession?
      case Lock => a.client.Locking? && a.session.Waiting? && w.holder == None
      case PreCheck => a.client.Reading? && a.session.Open?
      case Migrate(_) => a.client.Checked? && a.session.Open?
      case PostCheck => a.client.Migrated? && a.session.Open?
      case MarkAttempt => a.client.Verified?
      case SendCommit => a.client.Attempting? && a.session.Open?
      case Acknowledge => a.client.Committing? && a.session.Committed?
      case Finish => a.client.Acknowledged?
      case Fail => !a.client.Idle? && !a.client.Ended?
      case ServerCommit => a.session.CommitSent?
      case ServerRollback => a.session.Waiting? || a.session.Open? || a.session.CommitSent?
  }

  function Release<S>(w: World<S>, i: nat): Option<nat> {
    if w.holder == Some(i) then None else w.holder
  }

  ghost function Next<S>(route: Route<S>, w: World<S>, i: nat, e: Event<S>): World<S>
    requires Enabled(w, i, e)
  {
    var a := w.appliers[i];
    match e
    case Begin => w.(appliers := w.appliers[i := a.(client := Locking, session := Waiting)])
    case Lock =>
      w.(holder := Some(i), appliers := w.appliers[i := a.(client := Reading, session := Open(w.shared))])
    case PreCheck =>
      var next := if route.pre(a.session.work) then Checked(a.session.work) else Ended(false);
      w.(appliers := w.appliers[i := a.(client := next)])
    case Migrate(result) =>
      w.(appliers := w.appliers[i := a.(client := Migrated(a.client.pre), session := Open(result))])
    case PostCheck =>
      var next := if route.post(a.client.pre, a.session.work) then Verified(a.client.pre) else Ended(false);
      w.(appliers := w.appliers[i := a.(client := next)])
    case MarkAttempt =>
      w.(appliers := w.appliers[i := a.(client := Attempting(a.client.pre),
                                       captured := a.captured.(commitAttempted := true))])
    case SendCommit =>
      w.(appliers := w.appliers[i := a.(client := Committing, session := CommitSent(a.client.pre, a.session.work))])
    case Acknowledge =>
      w.(appliers := w.appliers[i := a.(client := Acknowledged, captured := a.captured.(committed := true))])
    case Finish => w.(appliers := w.appliers[i := a.(client := Ended(true))])
    case Fail => w.(appliers := w.appliers[i := a.(client := Ended(false))])
    case ServerCommit =>
      World(a.session.work, Release(w, i), w.appliers[i := a.(session := Committed(a.session.work))],
            w.log + [Commit(i, a.session.work)])
    case ServerRollback =>
      w.(holder := Release(w, i), appliers := w.appliers[i := a.(session := RolledBack)])
  }

  type Schedule<S> = seq<(nat, Event<S>)>

  /** Every event of the schedule was possible when it happened. */
  ghost predicate Possible<S>(route: Route<S>, w: World<S>, run: Schedule<S>)
    decreases |run|
  {
    run == [] || (Enabled(w, run[0].0, run[0].1) && Possible(route, Next(route, w, run[0].0, run[0].1), run[1..]))
  }

  ghost function After<S>(route: Route<S>, w: World<S>, run: Schedule<S>): (w': World<S>)
    requires Possible(route, w, run)
    ensures |w'.appliers| == |w.appliers|
    decreases |run|
  {
    if run == [] then w else After(route, Next(route, w, run[0].0, run[0].1), run[1..])
  }

  ghost function Start<S>(shared: S, n: nat): World<S> {
    World(shared, None, seq(n, _ => Applier(Idle, NoSession, Captured(false, false))), [])
  }

  // ------------------------------------------------------------------ the report

  datatype CommitReport = ReportTrue | ReportFalse | ReportUnknown

  /** The source's `_commit_state` over a record and the records nested in it. */
  function CommitState(records: seq<Captured>): CommitReport {
    if exists k :: 0 <= k < |records| && records[k].committed then ReportTrue
    else if exists k :: 0 <= k < |records| && records[k].commitAttempted then ReportUnknown
    else ReportFalse
  }

  // ------------------------------------------------------------------ what every step keeps

  /** The state a commit found: the initial one, or the one the commit before it left. */
  function Before<S>(init: S, log: seq<Commit<S>>, k: nat): S
    requires k <= |log|
  {
    if k == 0 then init else log[k - 1].state
  }

  ghost predicate CheckedHistory<S>(route: Route<S>, init: S, log: seq<Commit<S>>) {
    forall k :: 0 <= k < |log| ==> route.pre(Before(init, log, k)) && route.post(Before(init, log, k), log[k].state)
  }

  ghost predicate ApplierInv<S>(route: Route<S>, w: World<S>, i: nat)
    requires i < |w.appliers|
  {
    var a := w.appliers[i];
    && (w.holder == Some(i) <==> a.session.Open? || a.session.CommitSent?)
    && (a.captured.committed ==> a.session.Committed?)
    && (!a.captured.commitAttempted ==> !a.session.CommitSent? && !a.session.Committed?)
    && (a.session.CommitSent? ==>
          a.session.pre == w.shared && route.pre(a.session.pre) && route.post(a.session.pre, a.session.work))
    && (a.session.Committed? ==> exists k :: 0 <= k < |w.log| && w.log[k] == Commit(i, a.session.work))
    && match a.client
       case Idle => a.session.NoSession? && !a.captured.commitAttempted
       case Locking => (a.session.Waiting? || a.session.RolledBack?) && !a.captured.commitAttempted
       case Reading =>
         (a.session.RolledBack? || a.session == Open(w.shared)) && !a.captured.commitAttempted
       case Checked(pre) =>
         && (a.session.RolledBack? || (a.session.Open? && pre == w.shared))
         && route.pre(pre) && !a.captured.commitAttempted
       case Migrated(pre) =>
         && (a.session.RolledBack? || (a.session.Open? && pre == w.shared))
         && route.pre(pre) && !a.captured.commitAttempted
       case Verified(pre) =>
         && (a.session.RolledBack? || (a.session.Open? && pre == w.shared && route.post(pre, a.session.work)))
         && route.pre(pre) && !a.captured.commitAttempted
       case Attempting(pre) =>
         && (a.session.RolledBack? || (a.session.Open? && pre == w.shared && route.post(pre, a.session.work)))
         && route.pre(pre) && a.captured.commitAttempted
       case Committing =>
         && (a.session.CommitSent? || a.session.Committed? || a.session.RolledBack?)
         && a.captured.commitAttempted
       case Acknowledged => a.session.Committed? && a.captured.committed
       case Ended(applied) =>
         && !a.session.NoSession?
         && (applied ==> a.captured.committed)
  }

  ghost predicate LogInv<S>(route: Route<S>, init: S, w: World<S>) {
    && w.shared == Before(init, w.log, |w.log|)
    && CheckedHistory(route, init, w.log)
    && (forall k :: 0 <= k < |w.log| ==>
          w.log[k].applier < |w.appliers| && w.appliers[w.log[k].applier].session == Committed(w.log[k].state))
    && (forall j, k :: 0 <= j < k < |w.log| ==> w.log[j].applier != w.log[k].applier)
  }

  ghost predicate Inv<S>(route: Route<S>, init: S, w: World<S>) {
    && (w.holder.Some? ==> w.holder.value < |w.appliers|)
    && LogInv(route, init, w)
    && (forall i :: 0 <= i < |w.appliers| ==> ApplierInv(route, w, i))
  }

  lemma StepInv<S>(route: Route<S>, init: S, w: World<S>, i: nat, e: Event<S>)
    requires Inv(route, init, w) && Enabled(w, i, e)
    ensures Inv(route, init, Next(route, w, i, e))
  {
    hide LogInv, ApplierInv;
    HolderStep(route, init, w, i, e);
    LogStep(route, init, w, i, e);
    EveryApplier(route, init, w, i, e);
    hide Next, Enabled;
  }

  lemma HolderStep<S>(route: Route<S>, init: S, w: World<S>, i: nat, e: Event<S>)
    requires Inv(route, init, w) && Enabled(w, i, e)
    ensures var w' := Next(route, w, i, e);
      |w'.appliers| == |w.appliers| && (w'.holder.Some? ==> w'.holder.value < |w'.appliers|)
  {
    hide LogInv, ApplierInv;
  }

  lemma EveryApplier<S>(route: Route<S>, init: S, w: World<S>, i: nat, e: Event<S>)
    requires Inv(route, init, w) && Enabled(w, i, e)
    ensures forall j :: 0 <= j < |Next(route, w, i, e).appliers| ==> ApplierInv(route, Next(route, w, i, e), j)
  {
    hide LogInv, ApplierInv;
    HolderStep(route, init, w, i, e);
    hide Next, Enabled;
    forall j | 0 <= j < |w.appliers| ensures ApplierInv(route, Next(route, w, i, e), j) {
      OneApplier(route, init, w, i, e, j);
    }
  }

  lemma LogStep<S>(route: Route<S>, init: S, w: World<S>, i: nat, e: Event<S>)
    requires Inv(route, init, w) && Enabled(w, i, e)
    ensures LogInv(route, init, Next(route, w, i, e))
  {
    if e.ServerCommit? {
      CommitStep(route, init, w, i);
    } else {
      assert LogInv(route, init, w);
    }
  }

  /** Only the lock holder's session holds work, checked against the shared state, so its commit
      extends the checked history. */
  lemma CommitStep<S>(route: Route<S>, init: S, w: World<S>, i: nat)
    requires Inv(route, init, w) && Enabled(w, i, ServerCommit)
    ensures LogInv(route, init, Next(route, w, i, ServerCommit))
  {
    assert ApplierInv(route, w, i);
    var log' := w.log + [Commit(i, w.appliers[i].session.work)];
    assert Next(route, w, i, ServerCommit).log == log';
    HistoryGrows(route, init, w.log, log'[|w.log|]);
  }

  lemma HistoryGrows<S>(route: Route<S>, init: S, log: seq<Commit<S>>, c: Commit<S>)
    requires CheckedHistory(route, init, log)
    requires route.pre(Before(init, log, |log|)) && route.post(Before(init, log, |log|), c.state)
    ensures CheckedHistory(route, init, log + [c])
  {
    forall k | 0 <= k <= |log| ensures Before(init, log + [c], k) == Before(init, log, k) {
    }
  }

  lemma OneApplier<S>(route: Route<S>, init: S, w: World<S>, i: nat, e: Event<S>, j: nat)
    requires Inv(route, init, w) && Enabled(w, i, e) && j < |w.appliers|
    ensures ApplierInv(route, Next(route, w, i, e), j)
  {
    assert ApplierInv(route, w, i) && ApplierInv(route, w, j);
    hide LogInv;
    if i == j {
      ItsOwnStep(route, w, i, e);
    } else {
      AnothersStep(route, w, i, e, j);
    }
  }

  lemma ItsOwnStep<S>(route: Route<S>, w: World<S>, i: nat, e: Event<S>)
    requires Enabled(w, i, e) && ApplierInv(route, w, i)
    ensures ApplierInv(route, Next(route, w, i, e), i)
  {
    var w' := Next(route, w, i, e);
    if e.ServerCommit? {
      assert w'.log[|w.log|] == Commit(i, w'.appliers[i].session.work);
    }
  }

  /** The others see at most the lock, the shared state and the log change, and only while they hold
      nothing. */
  lemma AnothersStep<S>(route: Route<S>, w: World<S>, i: nat, e: Event<S>, j: nat)
    requires Enabled(w, i, e) && j < |w.appliers| && i != j && ApplierInv(route, w, i) && ApplierInv(route, w, j)
    ensures ApplierInv(route, Next(route, w, i, e), j)
  {
    var w' := Next(route, w, i, e);
    var a := w.appliers[j];
    assert w'.appliers[j] == a;
    if e.ServerCommit? {
      assert w'.log[..|w.log|] == w.log;
      if a.session.Committed? {
        var k :| 0 <= k < |w.log| && w.log[k] == Commit(j, a.session.work);
        assert w'.log[k] == Commit(j, a.session.work);
      }
    }
  }

  lemma {:induction false} RunInv<S>(route: Route<S>, init: S, w: World<S>, run: Schedule<S>)
    requires Inv(route, init, w) && Possible(route, w, run)
    ensures Inv(route, init, After(route, w, run))
    decreases |run|
  {
    if run != [] {
      StepInv(route, init, w, run[0].0, run[0].1);
      RunInv(route, init, Next(route, w, run[0].0, run[0].1), run[1..]);
    }
  }

  lemma {:induction false} RunAppend<S>(route: Route<S>, w: World<S>, run: Schedule<S>, i: nat, e: Event<S>)
    requires Possible(route, w, run) && Enabled(After(route, w, run), i, e)
    ensures Possible(route, w, run + [(i, e)])
    ensures After(route, w, run + [(i, e)]) == Next(route, After(route, w, run), i, e)
    decreases |run|
  {
    if run == [] {
      assert run + [(i, e)] == [(i, e)];
      assert [(i, e)][1..] == [];
    } else {
      RunAppend(route, Next(route, w, run[0].0, run[0].1), run[1..], i, e);
      assert (run + [(i, e)])[1..] == run[1..] + [(i, e)];
    }
  }

  // ------------------------------------------------------------------ the guarantees, over every run

  /** A result that passes the post-checks is never again a state the pre-checks accept. */
  ghost predicate OneShot<S(!new)>(route: Route<S>) {
    forall a, b :: route.pre(a) && route.post(a, b) ==> !route.pre(b)
  }

  lemma TwoCommits<S>(route: Route<S>, init: S, log: seq<Commit<S>>)
    requires CheckedHistory(route, init, log) && |log| >= 2
    ensures route.pre(init) && route.post(init, log[0].state)
    ensures route.pre(log[0].state) && route.post(log[0].state, log[1].state)
  {
    assert Before(init, log, 0) == init && Before(init, log, 1) == log[0].state;
  }

  /** MAIN: whatever the interleaving and the failures, at most one applier commits, and the shared
      state is the initial one or a state that passed every check against it. */
  lemma AtMostOneCommit<S(!new)>(route: Route<S>, init: S, n: nat, run: Schedule<S>)
    requires OneShot(route) && Possible(route, Start(init, n), run)
    ensures var w := After(route, Start(init, n), run);
      && |w.log| <= 1
      && (forall i, j | 0 <= i < |w.appliers| && 0 <= j < |w.appliers| ::
            w.appliers[i].session.Committed? && w.appliers[j].session.Committed? ==> i == j)
      && (w.log == [] ==> w.shared == init)
      && (w.log != [] ==>
            && route.pre(init) && route.post(init, w.shared)
            && w.log[0].applier < |w.appliers|
            && w.appliers[w.log[0].applier].session == Committed(w.shared))
  {
    RunInv(route, init, Start(init, n), run);
    var w := After(route, Start(init, n), run);
    if |w.log| >= 2 {
      TwoCommits(route, init, w.log);
      assert false;
    }
    forall i, j | 0 <= i < |w.appliers| && 0 <= j < |w.appliers|
      && w.appliers[i].session.Committed? && w.appliers[j].session.Committed?
      ensures i == j
    {
      assert ApplierInv(route, w, i) && ApplierInv(route, w, j);
    }
    if w.log != [] {
      assert Before(init, w.log, 0) == init;
    }
  }

  /** A gate: the pre-checks pass only while it is open, and the post-checks only once it is shut. */
  ghost predicate Gates<S(!new)>(route: Route<S>, open: S -> bool) {
    (forall r :: route.pre(r) ==> open(r)) && forall a, b :: route.post(a, b) ==> !open(b)
  }

  /** MAIN: whatever else the checks accept, a gated route is committed at most once, over every run of
      any number of appliers, and every later applier finds the gate shut. */
  lemma AGateMakesItOneShot<S(!new)>(route: Route<S>, open: S -> bool, init: S, n: nat, run: Schedule<S>)
    requires Gates(route, open) && Possible(route, Start(init, n), run)
    ensures OneShot(route)
    ensures var w := After(route, Start(init, n), run);
      && |w.log| <= 1
      && (w.log == [] ==> w.shared == init)
      && (w.log != [] ==> route.pre(init) && route.post(init, w.shared) && !open(w.shared) && !route.pre(w.shared))
  {
    AtMostOneCommit(route, init, n, run);
  }

  /** Even without the one-shot property, every commit was checked against the state it found. */
  lemma EveryCommitWasChecked<S(!new)>(route: Route<S>, init: S, n: nat, run: Schedule<S>, k: nat)
    requires Possible(route, Start(init, n), run) && k < |After(route, Start(init, n), run).log|
    ensures var log := After(route, Start(init, n), run).log;
      route.pre(Before(init, log, k)) && route.post(Before(init, log, k), log[k].state)
  {
    RunInv(route, init, Start(init, n), run);
  }

  /** What the script reports of one ended applier: its success record, or its refusal record. */
  ghost function ReportOf<S>(a: Applier<S>): CommitReport {
    if a.client == Ended(true) then ReportTrue else CommitState([a.captured])
  }

  /** MAIN: a report is truthful. True: it committed. False: it did not, and it never will, whatever
      still happens. UNKNOWN: only after the commit was marked as attempted. */
  lemma ReportsAreTruthful<S>(route: Route<S>, init: S, n: nat, run: Schedule<S>, i: nat, later: Schedule<S>)
    requires Possible(route, Start(init, n), run) && i < n
    requires Possible(route, After(route, Start(init, n), run), later)
    ensures var w := After(route, Start(init, n), run);
      var w' := After(route, w, later);
      w.appliers[i].client.Ended? ==>
        && (ReportOf(w.appliers[i]) == ReportTrue ==> w.appliers[i].session.Committed?)
        && (ReportOf(w.appliers[i]) == ReportFalse ==>
              !w.appliers[i].session.Committed? && !w'.appliers[i].session.Committed?)
        && (ReportOf(w.appliers[i]) == ReportUnknown ==> w.appliers[i].captured.commitAttempted)
        && (w.appliers[i].captured.committed ==> ReportOf(w.appliers[i]) == ReportTrue)
        && (ReportOf(w.appliers[i]) == ReportFalse <==> !w.appliers[i].captured.commitAttempted)
  {
    RunInv(route, init, Start(init, n), run);
    var w := After(route, Start(init, n), run);
    assert ApplierInv(route, w, i);
    var records := [w.appliers[i].captured];
    assert records[0] == w.appliers[i].captured;
    if w.appliers[i].client.Ended? && ReportOf(w.appliers[i]) == ReportFalse {
      NeverCommitsLater(route, init, w, later, i);
    }
  }

  lemma {:induction false} NeverCommitsLater<S>(route: Route<S>, init: S, w: World<S>, run: Schedule<S>, i: nat)
    requires Inv(route, init, w) && Possible(route, w, run) && i < |w.appliers|
    requires w.appliers[i].client.Ended? && !w.appliers[i].captured.commitAttempted
    ensures !After(route, w, run).appliers[i].session.Committed?
    decreases |run|
  {
    assert ApplierInv(route, w, i);
    if run != [] {
      StepInv(route, init, w, run[0].0, run[0].1);
      NeverCommitsLater(route, init, Next(route, w, run[0].0, run[0].1), run[1..], i);
    }
  }

  /** A failure before the commit was marked as attempted is always reported False. */
  lemma EarlyFailureReportsFalse<S>(route: Route<S>, init: S, w: World<S>, i: nat)
    requires Inv(route, init, w) && i < |w.appliers| && Enabled(w, i, Fail)
    requires !w.appliers[i].client.Attempting? && !w.appliers[i].client.Committing? && !w.appliers[i].client.Acknowledged?
    ensures ReportOf(Next(route, w, i, Fail).appliers[i]) == ReportFalse
  {
    assert ApplierInv(route, w, i);
  }

  /** The rehearsal's record nests one record per apply. True means that one of them committed. False means
      that none did, and that none of those that have ended ever will, whatever still happens. UNKNOWN
      means that one marked its commit as attempted. And the report is True as soon as one record says so,
      and False only when none marked an attempt. */
  lemma NestedReportsAreTruthful<S>(route: Route<S>, init: S, w: World<S>, ids: seq<nat>, records: seq<Captured>, later: Schedule<S>)
    requires Inv(route, init, w) && |records| == |ids| && Possible(route, w, later)
    requires forall k :: 0 <= k < |ids| ==> ids[k] < |w.appliers| && w.appliers[ids[k]].captured == records[k]
    ensures CommitState(records) == ReportTrue ==>
              exists k :: 0 <= k < |ids| && w.appliers[ids[k]].session.Committed?
    ensures CommitState(records) == ReportFalse ==> forall k :: 0 <= k < |ids| ==>
              && !w.appliers[ids[k]].session.Committed? && !w.appliers[ids[k]].session.CommitSent?
              && (w.appliers[ids[k]].client.Ended? ==> !After(route, w, later).appliers[ids[k]].session.Committed?)
    ensures CommitState(records) == ReportUnknown ==> exists k :: 0 <= k < |ids| && w.appliers[ids[k]].captured.commitAttempted
    ensures (exists k :: 0 <= k < |ids| && records[k].committed) ==> CommitState(records) == ReportTrue
    ensures CommitState(records) == ReportFalse <==> forall k :: 0 <= k < |ids| ==> !records[k].commitAttempted
  {
    hide After, Possible;
    forall k | 0 <= k < |ids|
      ensures records[k].committed ==> w.appliers[ids[k]].session.Committed? && records[k].commitAttempted
      ensures !records[k].commitAttempted ==> !w.appliers[ids[k]].session.Committed? && !w.appliers[ids[k]].session.CommitSent?
      ensures !records[k].commitAttempted && w.appliers[ids[k]].client.Ended? ==>
        !After(route, w, later).appliers[ids[k]].session.Committed?
    {
      assert ApplierInv(route, w, ids[k]);
      if !records[k].commitAttempted && w.appliers[ids[k]].client.Ended? {
        NeverCommitsLater(route, init, w, later, ids[k]);
      }
    }
    if CommitState(records) == ReportTrue {
      var k :| 0 <= k < |records| && records[k].committed;
      assert w.appliers[ids[k]].session.Committed?;
    }
    if CommitState(records) == ReportUnknown {
      var k :| 0 <= k < |records| && records[k].commitAttempted;
      assert w.appliers[ids[k]].captured.commitAttempted;
    }
  }

  /** Once anything is committed, every later applier's pre-checks refuse. */
  lemma LaterAppliersAreRefused<S(!new)>(route: Route<S>, init: S, w: World<S>, i: nat)
    requires OneShot(route) && Inv(route, init, w) && w.log != [] && Enabled(w, i, PreCheck)
    ensures Next(route, w, i, PreCheck).appliers[i].client == Ended(false)
  {
    assert ApplierInv(route, w, i);
    var k := |w.log| - 1;
    assert route.pre(Before(init, w.log, k)) && route.post(Before(init, w.log, k), w.log[k].state);
  }

  // ------------------------------------------------------------------ the one-shot property is what it takes

  lemma {:induction false} RunsCompose<S>(route: Route<S>, w: World<S>, first: Schedule<S>, second: Schedule<S>)
    requires Possible(route, w, first) && Possible(route, After(route, w, first), second)
    ensures Possible(route, w, first + second)
    ensures After(route, w, first + second) == After(route, After(route, w, first), second)
    decreases |first|
  {
    if first == [] {
      assert first + second == second;
    } else {
      RunsCompose(route, Next(route, w, first[0].0, first[0].1), first[1..], second);
      assert (first + second)[1..] == first[1..] + second;
    }
  }

  /** An undisturbed applier goes from step to step. */
  lemma UndisturbedUntil<S>(route: Route<S>, w: World<S>, i: nat, result: S, steps: nat) returns (run: Schedule<S>)
    requires i < |w.appliers| && w.holder == None && steps <= 8
    requires w.appliers[i] == Applier(Idle, NoSession, Captured(false, false))
    requires route.pre(w.shared) && route.post(w.shared, result)
    ensures Possible(route, w, run) && After(route, w, run) == Midway(w, i, result, steps)
  {
    var events: seq<Event<S>> := [Begin, Lock, PreCheck, Migrate(result), PostCheck, MarkAttempt, SendCommit, ServerCommit];
    run := [];
    var now := w;
    for k := 0 to steps
      invariant Possible(route, w, run) && After(route, w, run) == now
      invariant now == Midway(w, i, result, k)
    {
      RunAppend(route, w, run, i, events[k]);
      run := run + [(i, events[k])];
      now := Next(route, now, i, events[k]);
    }
  }

  /** So it commits what its migration produced. */
  lemma UndisturbedCommit<S>(route: Route<S>, w: World<S>, i: nat, result: S) returns (run: Schedule<S>)
    requires i < |w.appliers| && w.holder == None
    requires w.appliers[i] == Applier(Idle, NoSession, Captured(false, false))
    requires route.pre(w.shared) && route.post(w.shared, result)
    ensures Possible(route, w, run)
    ensures After(route, w, run) ==
      World(result, None, w.appliers[i := Applier(Committing, Committed(result), Captured(true, false))], w.log + [Commit(i, result)])
  {
    run := UndisturbedUntil(route, w, i, result, 8);
  }

  ghost function Midway<S>(w: World<S>, i: nat, result: S, k: nat): World<S>
    requires i < |w.appliers| && k <= 8
  {
    var pre := w.shared;
    var no, yes := Captured(false, false), Captured(true, false);
    if k == 0 then w
    else if k == 8 then
      World(result, None, w.appliers[i := Applier(Committing, Committed(result), yes)], w.log + [Commit(i, result)])
    else
      w.(holder := if k == 1 then w.holder else Some(i),
         appliers := w.appliers[i :=
           if k == 1 then Applier(Locking, Waiting, no)
           else if k == 2 then Applier(Reading, Open(pre), no)
           else if k == 3 then Applier(Checked(pre), Open(pre), no)
           else if k == 4 then Applier(Migrated(pre), Open(result), no)
           else if k == 5 then Applier(Verified(pre), Open(result), no)
           else if k == 6 then Applier(Attempting(pre), Open(result), yes)
           else Applier(Committing, CommitSent(pre, result), yes)])
  }

  /** MAIN: from a given state, with any two or more appliers, at most one commit happens in every run
      exactly when no result that passes the post-checks can be applied again. */
  lemma OneCommitExactlyWhenNotRepeatable<S(!new)>(route: Route<S>, init: S, n: nat)
    requires n >= 2
    ensures (forall run :: Possible(route, Start(init, n), run) ==> |After(route, Start(init, n), run).log| <= 1)
       <==> !(exists b, c :: route.pre(init) && route.post(init, b) && route.pre(b) && route.post(b, c))
  {
    var w := Start(init, n);
    if exists b, c :: route.pre(init) && route.post(init, b) && route.pre(b) && route.post(b, c) {
      var b, c :| route.pre(init) && route.post(init, b) && route.pre(b) && route.post(b, c);
      var first := UndisturbedCommit(route, w, 0, b);
      var second := UndisturbedCommit(route, After(route, w, first), 1, c);
      RunsCompose(route, w, first, second);
      assert |After(route, w, first + second).log| == 2;
    } else {
      forall run | Possible(route, w, run) ensures |After(route, w, run).log| <= 1 {
        RunInv(route, init, w, run);
        var log := After(route, w, run).log;
        if |log| >= 2 {
          TwoCommits(route, init, log);
          assert false;
        }
      }
    }
  }

  // ------------------------------------------------------------------ UNKNOWN says no less than is known

  /** A client that has begun and not ended can stop at any time, and nothing else changes; a transaction
      that is not committed can be rolled back at any time, and nothing but the lock changes. */
  lemma AnythingCanFail<S>(route: Route<S>, w: World<S>, i: nat)
    requires i < |w.appliers|
    ensures var a := w.appliers[i];
      && (!a.client.Idle? && !a.client.Ended? ==>
            Enabled(w, i, Fail) && Next(route, w, i, Fail) == w.(appliers := w.appliers[i := a.(client := Ended(false))]))
      && (a.session.Waiting? || a.session.Open? || a.session.CommitSent? ==>
            && Enabled(w, i, ServerRollback)
            && Next(route, w, i, ServerRollback).appliers == w.appliers[i := a.(session := RolledBack)]
            && Next(route, w, i, ServerRollback).shared == w.shared && Next(route, w, i, ServerRollback).log == w.log)
  {
  }

  lemma AfterTwo<S>(route: Route<S>, w: World<S>, run: Schedule<S>, i: nat, first: Event<S>, second: Event<S>)
    returns (run': Schedule<S>)
    requires Possible(route, w, run) && Enabled(After(route, w, run), i, first)
    requires Enabled(Next(route, After(route, w, run), i, first), i, second)
    ensures Possible(route, w, run')
    ensures After(route, w, run') == Next(route, Next(route, After(route, w, run), i, first), i, second)
  {
    RunAppend(route, w, run, i, first);
    RunAppend(route, w, run + [(i, first)], i, second);
    run' := run + [(i, first)] + [(i, second)];
  }

  /** MAIN: for every state and result the checks accept there are two runs that leave the client the same
      record, with UNKNOWN reported of both; in one the result is committed, in the other it never is. */
  lemma UnknownCannotBeDecided<S>(route: Route<S>, init: S, result: S) returns (kept: Schedule<S>, lost: Schedule<S>)
    requires route.pre(init) && route.post(init, result)
    ensures Possible(route, Start(init, 1), kept) && Possible(route, Start(init, 1), lost)
    ensures var a, b := After(route, Start(init, 1), kept), After(route, Start(init, 1), lost);
      && a.appliers[0].client == b.appliers[0].client == Ended(false)
      && a.appliers[0].captured == b.appliers[0].captured
      && ReportOf(a.appliers[0]) == ReportUnknown
      && a.shared == result && a.appliers[0].session == Committed(result)
      && b.shared == init && b.appliers[0].session.RolledBack? && b.log == []
  {
    var w := Start(init, 1);
    var run := UndisturbedUntil(route, w, 0, result, 7);
    assert Midway(w, 0, result, 7).appliers[0] == Applier(Committing, CommitSent(init, result), Captured(true, false));
    hide Midway;
    kept := AfterTwo(route, w, run, 0, Fail, ServerCommit);
    lost := AfterTwo(route, w, run, 0, Fail, ServerRollback);
    var record := [Captured(true, false)];
    assert record[0].commitAttempted && !record[0].committed;
    assert CommitState(record) == ReportUnknown;
  }
}
