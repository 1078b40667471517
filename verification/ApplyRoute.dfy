/** One applier of ApplyProtocol.dfy as the source writes it: `apply_in_one_transaction`, which updates
    its `captured` record step by step, and the report its caller writes. Every way it can be stopped
    is an input, and the method returns, as a ghost, the protocol run it performed. */
module ApplyRoute {
  import opened Options
  import opened ApplyProtocol

  class Database<S> {
    var shared: S

    constructor (shared: S)
      ensures this.shared == shared
    {
      this.shared := shared;
    }
  }

  class Record {
    var commitAttempted: bool
    var committed: bool

    constructor ()
      ensures !commitAttempted && !committed
    {
      commitAttempted, committed := false, false;
    }
  }

  /** Where an exception is raised, if anywhere. `LostCommit(done)`: while COMMIT was in flight; only
      the server knows whether it was done. `Closing`: after COMMIT returned. */
  datatype Fault =
    | NoFault
    | Connecting
    | WaitingForLock
    | Reading
    | Migrating
    | PostReading
    | BeforeCommit
    | LostCommit(done: bool)
    | Closing

  datatype Outcome = Applied | Stopped

  /** The one applier's world, field by field. */
  ghost function Alone<S>(shared: S, client: Client<S>, session: Session<S>, captured: Captured): World<S> {
    World(shared, if session.Open? || session.CommitSent? then Some(0) else None,
          [Applier(client, session, captured)],
          if session.Committed? then [Commit(0, session.work)] else [])
  }

  ghost predicate Reached<S>(route: Route<S>, init: S, run: Schedule<S>, w: World<S>) {
    Possible(route, Start(init, 1), run) && After(route, Start(init, 1), run) == w
  }

  /** Where the run of an ended applier stands. */
  ghost predicate EndedWell<S>(route: Route<S>, init: S, run: Schedule<S>, shared: S, captured: Captured, applied: bool) {
    && Possible(route, Start(init, 1), run)
    && var w := After(route, Start(init, 1), run);
       && w.shared == shared && w.holder == None
       && w.appliers[0].captured == captured && w.appliers[0].client == Ended(applied)
  }

  const NOTHING := Captured(false, false)

  /** `migration(before)` is what the migration file makes of the database. */
  method ApplyInOneTransaction<S>(db: Database<S>, captured: Record, route: Route<S>, migration: S -> S, fault: Fault)
    returns (outcome: Outcome, ghost run: Schedule<S>)
    requires !captured.commitAttempted && !captured.committed
    modifies db, captured
    ensures EndedWell(route, old(db.shared), run, db.shared, Captured(captured.commitAttempted, captured.committed), outcome == Applied)
    ensures outcome == Applied <==> route.pre(old(db.shared)) && fault == NoFault
                                    && route.post(old(db.shared), migration(old(db.shared)))
    ensures outcome == Applied ==> db.shared == migration(old(db.shared)) && captured.committed
  {
    ghost var init := db.shared;
    assert Start(init, 1).appliers == [Applier(Idle, NoSession, NOTHING)];
    run, outcome := [], Stopped;
    run := Do(route, init, run, Alone(init, Idle, NoSession, NOTHING), Begin);
    assert Reached(route, init, run, Alone(init, Locking, Waiting, NOTHING));
    if fault == Connecting || fault == WaitingForLock {
      run := Abandon(route, init, run, Locking, Waiting, NOTHING);
      return;
    }
    run := Do(route, init, run, Alone(init, Locking, Waiting, NOTHING), Lock);
    assert Reached(route, init, run, Alone(init, Client.Reading, Open(init), NOTHING));
    var pre := db.shared;
    if fault == Fault.Reading {
      run := Abandon(route, init, run, Client.Reading, Open(init), NOTHING);
      return;
    }
    run := Do(route, init, run, Alone(init, Client.Reading, Open(init), NOTHING), PreCheck);
    if !route.pre(pre) {
      assert Reached(route, init, run, Alone(init, Ended(false), Open(init), NOTHING));
      run := Do(route, init, run, Alone(init, Ended(false), Open(init), NOTHING), ServerRollback);
      return;
    }
    assert Reached(route, init, run, Alone(init, Checked(init), Open(init), NOTHING));
    outcome, run := MigrateAndCheck(db, captured, route, migration, fault, run);
  }

  /** From the passed pre-checks on. */
  method MigrateAndCheck<S>(db: Database<S>, captured: Record, route: Route<S>, migration: S -> S, fault: Fault,
                            ghost before: Schedule<S>)
    returns (outcome: Outcome, ghost run: Schedule<S>)
    requires !captured.commitAttempted && !captured.committed
    requires fault !in {Connecting, WaitingForLock, Fault.Reading} && route.pre(db.shared)
    requires Reached(route, db.shared, before, Alone(db.shared, Checked(db.shared), Open(db.shared), NOTHING))
    modifies db, captured
    ensures EndedWell(route, old(db.shared), run, db.shared, Captured(captured.commitAttempted, captured.committed), outcome == Applied)
    ensures outcome == Applied <==> fault == NoFault && route.post(old(db.shared), migration(old(db.shared)))
    ensures outcome == Applied ==> db.shared == migration(old(db.shared)) && captured.committed
  {
    ghost var init := db.shared;
    var pre := db.shared;
    run, outcome := before, Stopped;
    if fault == Migrating {
      run := Abandon(route, init, run, Checked(init), Open(init), NOTHING);
      return;
    }
    var post := migration(pre);
    run := Do(route, init, run, Alone(init, Checked(init), Open(init), NOTHING), Migrate(post));
    assert Reached(route, init, run, Alone(init, Migrated(init), Open(post), NOTHING));
    if fault == PostReading {
      run := Abandon(route, init, run, Migrated(init), Open(post), NOTHING);
      return;
    }
    run := Do(route, init, run, Alone(init, Migrated(init), Open(post), NOTHING), PostCheck);
    if !route.post(pre, post) {
      assert Reached(route, init, run, Alone(init, Ended(false), Open(post), NOTHING));
      run := Do(route, init, run, Alone(init, Ended(false), Open(post), NOTHING), ServerRollback);
      return;
    }
    assert Reached(route, init, run, Alone(init, Verified(init), Open(post), NOTHING));
    outcome, run := CommitTransaction(db, captured, route, post, fault, run);
  }

  /** From the passed post-checks on: mark the attempt, COMMIT, mark the success. */
  method CommitTransaction<S>(db: Database<S>, captured: Record, route: Route<S>, post: S, fault: Fault,
                              ghost before: Schedule<S>)
    returns (outcome: Outcome, ghost run: Schedule<S>)
    requires !captured.commitAttempted && !captured.committed
    requires fault in {NoFault, BeforeCommit, LostCommit(false), LostCommit(true), Closing}
    requires Reached(route, db.shared, before, Alone(db.shared, Verified(db.shared), Open(post), NOTHING))
    modifies db, captured
    ensures EndedWell(route, old(db.shared), run, db.shared, Captured(captured.commitAttempted, captured.committed), outcome == Applied)
    ensures outcome == Applied <==> fault == NoFault
    ensures outcome == Applied ==> db.shared == post && captured.committed
  {
    ghost var init := db.shared;
    ghost var attempted := Captured(true, false);
    run, outcome := before, Stopped;
    captured.commitAttempted := true;
    run := Do(route, init, run, Alone(init, Verified(init), Open(post), NOTHING), MarkAttempt);
    assert Reached(route, init, run, Alone(init, Attempting(init), Open(post), attempted));
    if fault == BeforeCommit {
      run := Abandon(route, init, run, Attempting(init), Open(post), attempted);
      return;
    }
    run := Do(route, init, run, Alone(init, Attempting(init), Open(post), attempted), SendCommit);
    assert Reached(route, init, run, Alone(init, Committing, CommitSent(init, post), attempted));
    if fault == LostCommit(false) {
      run := Abandon(route, init, run, Committing, CommitSent(init, post), attempted);
      return;
    }
    db.shared := post;
    run := Do(route, init, run, Alone(init, Committing, CommitSent(init, post), attempted), ServerCommit);
    assert Reached(route, init, run, Alone(post, Committing, Committed(post), attempted));
    outcome, run := AfterCommit(db, captured, route, fault, init, run);
  }

  /** From the committed transaction on: COMMIT returns, if it does, and the connection is closed. */
  method AfterCommit<S>(db: Database<S>, captured: Record, route: Route<S>, fault: Fault, ghost init: S,
                        ghost before: Schedule<S>)
    returns (outcome: Outcome, ghost run: Schedule<S>)
    requires captured.commitAttempted && !captured.committed && fault in {NoFault, LostCommit(true), Closing}
    requires Reached(route, init, before, Alone(db.shared, Committing, Committed(db.shared), Captured(true, false)))
    modifies captured
    ensures EndedWell(route, init, run, db.shared, Captured(captured.commitAttempted, captured.committed), outcome == Applied)
    ensures outcome == Applied <==> fault == NoFault
    ensures outcome == Applied ==> captured.committed
  {
    ghost var post := db.shared;
    run, outcome := before, Stopped;
    if fault == LostCommit(true) {
      run := Do(route, init, run, Alone(post, Committing, Committed(post), Captured(true, false)), Fail);
      return;
    }
    captured.committed := true;
    run := Do(route, init, run, Alone(post, Committing, Committed(post), Captured(true, false)), Event.Acknowledge);
    assert Reached(route, init, run, Alone(post, Acknowledged, Committed(post), Captured(true, true)));
    if fault == Closing {
      run := Do(route, init, run, Alone(post, Acknowledged, Committed(post), Captured(true, true)), Fail);
      return;
    }
    run := Do(route, init, run, Alone(post, Acknowledged, Committed(post), Captured(true, true)), Finish);
    outcome := Applied;
  }

  ghost method Do<S>(route: Route<S>, init: S, run: Schedule<S>, w: World<S>, e: Event<S>) returns (run': Schedule<S>)
    requires Reached(route, init, run, w) && Enabled(w, 0, e)
    ensures Reached(route, init, run', Next(route, w, 0, e))
  {
    RunAppend(route, Start(init, 1), run, 0, e);
    run' := run + [(0, e)];
  }

  /** The client fails, and the server rolls its transaction back. */
  ghost method Abandon<S>(route: Route<S>, init: S, run: Schedule<S>, client: Client<S>, session: Session<S>, captured: Captured)
    returns (run': Schedule<S>)
    requires !client.Idle? && !client.Ended? && (session.Waiting? || session.Open? || session.CommitSent?)
    requires Reached(route, init, run, Alone(init, client, session, captured))
    ensures EndedWell(route, init, run', init, captured, false)
  {
    run' := Do(route, init, run, Alone(init, client, session, captured), Fail);
    assert Reached(route, init, run', Alone(init, Ended(false), session, captured));
    run' := Do(route, init, run', Alone(init, Ended(false), session, captured), ServerRollback);
  }
}
