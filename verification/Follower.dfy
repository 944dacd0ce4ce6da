/** The follower process. Its fields are the rows it keeps in the database, so they outlive it; each
    private method is one database transaction, and `budget` is the number of transactions the
    process commits before it dies. What the database, the publisher and the migration command
    answer comes in through `Env`. */
module Follower {
  import opened Common
  import opened Tables
  import opened UndoApply
  import opened CopyAhead
  import opened ReplayShape
  import opened StallMarker
  import opened Protocol
  import R = Rewrites

  /** A committed transaction of the local migration command. */
  datatype Batch = Batch(script: seq<R.Stmt>, versionOps: seq<VersionOp>, catalog: Catalog)

  datatype Env = Env(
    guardViolated: bool,          // A4: the configuration names a coord source after Phase 8
    noSubscription: bool,         // it is gone from the subscriber
    parallelStreaming: bool,
    severalHeads: bool,           // the publisher's version table holds several rows
    noErrorLog: bool,             // the subscriber writes no jsonlog
    stallFresh: bool,             // apply retried recently and not before it was last enabled
    refused: bool,                // 42501 or P0001
    laneOff: bool,                // a coord transaction while the coord lane is off
    moved: bool,                  // A3: a table moved out of the publication
    syncing: bool,                // table syncs in flight
    headsPassed: bool,            // apply passed the publisher's head without a stall
    workersExit: bool,            // within 60 s of DISABLE
    batches: seq<Batch>,          // what the migration command commits
    commandFails: bool,           // its exit status
    refreshBlocked: bool,         // other published tables wait for a refresh
    cleaned: bool,                // halt() could drop the triggers
    reached: bool)                // and DISABLE the subscription

  datatype Why =
    | NoSubscription | ParallelStreaming | SeveralHeads | NoErrorLog | HeadsPassed
    | Restalled | NotAMigration | NotSchemaLag | LaneOff | MovedAway
    | WorkersAlive | CommandFailed | VersionsDiffer | WrongShape | RefreshBlocked

  /** How a piece of work ended: it returned, it raised Halt, or the process died. */
  datatype Ended = Returned | HaltRaised(why: Why, named: Verdict) | Crashed

  /** What a poll checks before it looks at the state, in order. */
  function Unfit(env: Env): Option<Why> {
    if env.noSubscription then Some(NoSubscription)
    else if env.parallelStreaming then Some(ParallelStreaming)
    else if env.severalHeads then Some(SeveralHeads)
    else None
  }

  /** Why a stall is refused outright, the checks in their order. */
  function Refusal(pub: Publisher, db: Db, xid: nat, env: Env): Option<Why> {
    if AlreadyProcessed(db, xid) then Some(Restalled)
    else if Leaves(pub, xid) == {} then Some(NotAMigration)
    else if env.refused then Some(NotSchemaLag)
    else if env.laneOff then Some(LaneOff)
    else if env.moved then Some(MovedAway)
    else None
  }

  /** What a poll of a follower that has not halted comes to. */
  datatype Plan = Refuse(why: Why) | Wait | Carry | Start(xid: nat)

  /** Apply is stuck on a transaction right now. */
  predicate Stalled(db: Db, env: Env) { db.lastError.Some? && db.lastError.value + 1 > db.progress && env.stallFresh }

  function PlanOf(pub: Publisher, db: Db, env: Env): Plan {
    if Unfit(env).Some? then Refuse(Unfit(env).value)
    else if db.status.InProgress? then Carry
    else if env.noErrorLog then Refuse(NoErrorLog)
    else if Stalled(db, env) then
      match Refusal(pub, db, db.lastError.value, env)
      case Some(why) => Refuse(why)
      case None => if env.syncing then Wait else Start(db.lastError.value)
    else if env.headsPassed then Refuse(HeadsPassed)
    else Wait
  }

  /** The events of what the migration command commits. */
  function Committed(batches: seq<Batch>): (es: seq<Event>)
    ensures |es| == |batches|
  {
    seq(|batches|, i requires 0 <= i < |batches| =>
      MigrateTx(batches[i].script, batches[i].versionOps, batches[i].catalog))
  }

  /** How `follower resolve` ends. */
  datatype Resolved =
    | NotHalted | WrongCase | WrongTarget | NotATable | Died | Remaining(targets: set<Target>) | Carried

  /** How `follower copy-columns` ends. */
  datatype CopyResult =
    | Locked | NotIdle | NotEnabled | NotCaughtUp | WorkersStay | VersionsMoved | Unmatched | CopyDied | Done

  /** What halt() may record: nothing, or the migration under way as it is persisted. */
  ghost predicate MayRecord(db: Db, prior: Option<Detail>, named: Verdict) {
    || (prior.None? && named.Pass?)
    || (!db.status.Halted? && prior == Current(db) && (named.HaltOn? ==> InStep(db, Undoing) && named == Check(db.shape)))
  }

  lemma HaltRuns(pub: Publisher, w: World, prior: Option<Detail>, named: Verdict, cleaned: bool, reached: bool)
    returns (es: seq<Event>)
    requires w.db.copy.NoCopy? && MayRecord(w.db, prior, named)
    ensures Ran(pub, w, es, World(HaltDb(w.db, prior, named, cleaned, reached), w.hist))
  {
    var e := if prior.None? && named.Pass? then HaltBare(cleaned, reached) else Event.Halt(named, cleaned, reached);
    assert NextHalt(w, e) == World(HaltDb(w.db, prior, named, cleaned, reached), w.hist);
    es := [] + [e];
    RunHalt(pub, w, [], w, e);
  }

  lemma TornRuns(pub: Publisher, w: World, cleaned: bool, reached: bool) returns (es: seq<Event>)
    requires w.db.copy.NoCopy?
    ensures Ran(pub, w, es, w.(db := w.db.(triggers := w.db.triggers && !cleaned, enabled := w.db.enabled && !reached)))
  {
    es := [] + [HaltTorn(cleaned, reached)];
    RunHalt(pub, w, [], w, HaltTorn(cleaned, reached));
  }

  /** What a halt leaves when the process dies after `budget` of its transactions. */
  function HaltPart(db: Db, prior: Option<Detail>, named: Verdict, env: Env, budget: nat): Db {
    if budget == 0 then db
    else if budget == 1 then db.(triggers := db.triggers && !env.cleaned)
    else if budget == 2 then db.(triggers := db.triggers && !env.cleaned, enabled := db.enabled && !env.reached)
    else HaltDb(db, prior, named, env.cleaned, env.reached)
  }

  function Rank(s: Step): nat {
    match s
    case Disabling => 5 case Logging => 4 case Relogging => 3 case Migrating => 2 case Undoing => 1 case Enabling => 0
  }

  class Follower {
    const pub: Publisher

    /** The subscriber database, and what happened so far. */
    var db: Db
    ghost var hist: History

    ghost function View(): World
      reads this
    {
      World(db, hist)
    }

    /** install() on a subscriber holding the publisher's first state. */
    constructor (pub: Publisher, shape: Shape, enabled: bool, horizon: nat)
      requires Sound(pub) && horizon <= |pub.txs| && shape.resolutions == {}
      ensures this.pub == pub && Initial(pub, View())
    {
      this.pub := pub;
      db := Db(Idle, enabled, false, shape, map[], map[], Marker(pub.versions, {}), pub.base, 0, None, horizon, NoCopy);
      hist := History([], [], {}, [], {}, 0, {}, true);
    }

    // ---------------------------------------------------------------- one transaction each

    method SetStep(step: Step)
      requires db.status.InProgress?
      modifies this`db
      ensures db == old(db).(status := InProgress(old(db.status.detail).(step := step)))
    {
      db := db.(status := InProgress(db.status.detail.(step := step)));
    }

    /** A committed transaction of the migration command; the row and statement triggers write the
        replay log with it when they are installed. */
    method CommitBatch(b: Batch)
      requires InStep(db, Migrating) && Can(pub, View(), MigrateTx(b.script, b.versionOps, b.catalog))
      modifies this
      ensures View() == Next(pub, old(View()), MigrateTx(b.script, b.versionOps, b.catalog))
    {
      var logged := if db.triggers then R.ScriptLog(b.script) + VersionEntries(b.versionOps) else [];
      db := db.(data := R.Run(b.script, db.data),
                marker := db.marker.(rows := Migrate(db.marker.rows, b.versionOps)),
                shape := db.shape.(log := db.shape.log + logged, catalog := b.catalog));
      hist := hist.(script := hist.script + b.script, stamps := hist.stamps + Stamped(b.versionOps));
    }

    /** _undo_replay_inserts: the deletes, the armings, the applied record and the step change are one
        transaction. */
    method UndoReplayInserts()
      requires Can(pub, View(), UndoCommit)
      modifies this
      ensures View() == Next(pub, old(View()), UndoCommit)
    {
      ghost var after := UndoWorld(pub, View());
      var d := db.status.detail;
      db := db.(data := Undo(db.data, db.shape.log),
                marker := UndoVersions(db.marker, VersionsLogged(db.shape.log)),
                shape := db.shape.(log := [], resolutions := {}),
                applied := Recorded(db.applied, Leaves(pub, d.xid), d.xid),
                status := InProgress(d.(step := Enabling)));
      hist := after.hist;
    }

    // ---------------------------------------------------------------- the steps of _advance

    /** Step `disable`: apply's workers must be gone before the step is persisted as done. */
    method DisableStep(env: Env, budget: nat) returns (o: Ended, left: nat, ghost trace: seq<Event>)
      requires InStep(db, Disabling)
      modifies this
      ensures Ran(pub, old(View()), trace, View()) && (o.Crashed? ==> left == 0) && db.copy == old(db.copy)
      ensures hist == old(hist) && (o.HaltRaised? ==> o == HaltRaised(WorkersAlive, Pass) && !env.workersExit)
      ensures db.status == if o.Returned? then InProgress(old(db.status.detail).(step := Logging)) else old(db.status)
      ensures o.Returned? ==> !db.enabled && env.workersExit
    {
      trace, left := [], budget;
      if left == 0 { return Crashed, 0, trace; }
      RunStart(pub, old(View()), trace, View(), Event.Disable);
      db := db.(enabled := false);
      trace, left := trace + [Event.Disable], left - 1;
      if !env.workersExit { return HaltRaised(WorkersAlive, Pass), left, trace; }
      if left == 0 { return Crashed, 0, trace; }
      RunStart(pub, old(View()), trace, View(), PersistLogging);
      SetStep(Logging);
      trace, left := trace + [PersistLogging], left - 1;
      o := Returned;
    }

    /** Step `log`: an empty log and the triggers on the tables of the stored scope. */
    method LogStep(budget: nat) returns (o: Ended, left: nat, ghost trace: seq<Event>)
      requires InStep(db, Logging)
      modifies this
      ensures Ran(pub, old(View()), trace, View()) && (o.Crashed? ==> left == 0) && db.copy == old(db.copy) && !o.HaltRaised?
      ensures hist == old(hist)
      ensures db.status ==
        if o.Returned? then InProgress(old(db.status.detail).(step := Migrating, scoped := true)) else old(db.status)
      ensures o.Returned? ==> db.triggers && db.shape.log == [] && db.shape.scope == ScopeNow(old(db.shape.catalog))
    {
      trace, left := [], budget;
      if left == 0 { return Crashed, 0, trace; }
      RunStart(pub, old(View()), trace, View(), Truncate);
      db := db.(shape := db.shape.(log := []));
      trace, left := trace + [Truncate], left - 1;
      if left == 0 { return Crashed, 0, trace; }
      RunStart(pub, old(View()), trace, View(), Install);
      db := db.(triggers := true);
      trace, left := trace + [Install], left - 1;
      if left == 0 { return Crashed, 0, trace; }
      RunStart(pub, old(View()), trace, View(), PersistMigrating);
      db := db.(shape := db.shape.(scope := ScopeNow(db.shape.catalog),
                                   catalog := db.shape.catalog.(gained := {}, added := {})));
      db := db.(status := InProgress(db.status.detail.(step := Migrating, scoped := true)));
      trace, left := trace + [PersistMigrating], left - 1;
      o := Returned;
    }

    /** Step `relog`: the log so far is kept and the triggers come back. */
    method RelogStep(budget: nat) returns (o: Ended, left: nat, ghost trace: seq<Event>)
      requires InStep(db, Relogging)
      modifies this
      ensures Ran(pub, old(View()), trace, View()) && (o.Crashed? ==> left == 0) && db.copy == old(db.copy) && !o.HaltRaised?
      ensures hist == old(hist) && db.shape == old(db.shape)
      ensures db.status == if o.Returned? then InProgress(old(db.status.detail).(step := Migrating)) else old(db.status)
      ensures o.Returned? ==> db.triggers
    {
      trace, left := [], budget;
      if left == 0 { return Crashed, 0, trace; }
      RunStart(pub, old(View()), trace, View(), Install);
      db := db.(triggers := true);
      trace, left := trace + [Install], left - 1;
      if left == 0 { return Crashed, 0, trace; }
      RunStart(pub, old(View()), trace, View(), PersistRemigrating);
      SetStep(Migrating);
      trace, left := trace + [PersistRemigrating], left - 1;
      o := Returned;
    }

    /** Step `migrate`: the command may commit some transactions and then fail, and the process may
        die between two of them; only a command that succeeded is persisted as done. */
    method MigrateStep(env: Env, budget: nat) returns (o: Ended, left: nat, ghost trace: seq<Event>)
      requires InStep(db, Migrating)
      modifies this
      ensures Ran(pub, old(View()), trace, View()) && (o.Crashed? ==> left == 0) && db.copy == old(db.copy)
      ensures hist.undone == old(hist.undone) && (o.HaltRaised? ==> o == HaltRaised(CommandFailed, Pass))
      ensures db.status == if o.Returned? then InProgress(old(db.status.detail).(step := Undoing)) else old(db.status)
      ensures o.Returned? ==> !env.commandFails && trace == Committed(env.batches) + [PersistUndoing]
      ensures !o.Returned? ==> trace <= Committed(env.batches)
    {
      trace, left := [], budget;
      var i := 0;
      while i < |env.batches|
        invariant 0 <= i <= |env.batches| && trace == Committed(env.batches)[..i]
        invariant Ran(pub, old(View()), trace, View()) && db.copy == old(db.copy)
        invariant db.status == old(db.status) && hist.undone == old(hist.undone)
      {
        var b := env.batches[i];
        if !R.Runs(b.script, db.data) { return HaltRaised(CommandFailed, Pass), left, trace; }
        if left == 0 { return Crashed, 0, trace; }
        ghost var e := MigrateTx(b.script, b.versionOps, b.catalog);
        RunOneMore(pub, old(View()), trace, View(), e);
        CommitBatch(b);
        trace := trace + [e];
        left, i := left - 1, i + 1;
      }
      if env.commandFails { return HaltRaised(CommandFailed, Pass), left, trace; }
      if left == 0 { return Crashed, 0, trace; }
      RunCarry(pub, old(View()), trace, View(), PersistUndoing);
      SetStep(Undoing);
      trace, left := trace + [PersistUndoing], left - 1;
      o := Returned;
    }

    /** Step `undo`: triggers off, versions verified, shape checked, and then the undo, which commits
        with the applied record and the next step. */
    method UndoStep(budget: nat) returns (o: Ended, left: nat, ghost trace: seq<Event>)
      requires InStep(db, Undoing)
      modifies this
      ensures Ran(pub, old(View()), trace, View()) && (o.Crashed? ==> left == 0) && db.copy == old(db.copy)
      ensures db.status == if o.Returned? then InProgress(old(db.status.detail).(step := Enabling)) else old(db.status)
      ensures hist.undone == old(hist.undone) + if o.Returned? then [old(db.status.detail.xid)] else []
      ensures o.HaltRaised? ==> db.shape == old(db.shape) && db.data == old(db.data) && db.marker == old(db.marker)
      ensures o.HaltRaised? ==> match o.why
        case VersionsDiffer => o.named.Pass? && !Verified(Leaves(pub, db.status.detail.xid), db.marker.rows)
        case WrongShape => o.named == Check(db.shape) && o.named.HaltOn?
        case _ => false
      ensures o.Returned? ==> db.data == Undo(old(db.data), old(db.shape.log)) && db.shape.log == []
    {
      trace, left := [], budget;
      if left == 0 { return Crashed, 0, trace; }
      RunCarry(pub, old(View()), trace, View(), DropTriggers);
      db := db.(triggers := false);
      trace, left := trace + [DropTriggers], left - 1;
      if !Verified(Leaves(pub, db.status.detail.xid), db.marker.rows) { return HaltRaised(VersionsDiffer, Pass), left, trace; }
      var v := Check(db.shape);
      if v.HaltOn? { return HaltRaised(WrongShape, v), left, trace; }
      if left == 0 { return Crashed, 0, trace; }
      RunOneMore(pub, old(View()), trace, View(), UndoCommit);
      UndoReplayInserts();
      trace, left := trace + [UndoCommit], left - 1;
      o := Returned;
    }

    /** Step `enable`: the subscription comes back only if the stall had found it on. */
    method EnableStep(env: Env, budget: nat) returns (o: Ended, left: nat, ghost trace: seq<Event>)
      requires InStep(db, Enabling)
      modifies this
      ensures Ran(pub, old(View()), trace, View()) && (o.Crashed? ==> left == 0) && db.copy == old(db.copy)
      ensures hist == old(hist) && (o.HaltRaised? ==> o == HaltRaised(RefreshBlocked, Pass) && env.refreshBlocked)
      ensures db.status == if o.Returned? then Idle else old(db.status)
      ensures o.Returned? ==> !env.refreshBlocked && db.enabled == (old(db.status.detail.wasEnabled) || old(db.enabled))
    {
      trace, left := [], budget;
      if env.refreshBlocked { return HaltRaised(RefreshBlocked, Pass), left, trace; }
      if db.status.detail.wasEnabled {
        if left == 0 { return Crashed, 0, trace; }
        RunCarry(pub, old(View()), trace, View(), EnableSub);
        db := db.(enabled := true);
        trace, left := trace + [EnableSub], left - 1;
      }
      if left == 0 { return Crashed, 0, trace; }
      RunCarry(pub, old(View()), trace, View(), Finish);
      db := db.(status := Idle);
      trace, left := trace + [Finish], left - 1;
      o := Returned;
    }

    /** The step an exception leaves persisted, and why. */
    ghost predicate StoppedFor(env: Env, o: Ended)
      reads this
      requires o.HaltRaised? && db.status.InProgress?
    {
      match o.why
      case WorkersAlive => db.status.detail.step.Disabling? && !env.workersExit && o.named.Pass?
      case CommandFailed => db.status.detail.step.Migrating? && o.named.Pass?
      case VersionsDiffer =>
        db.status.detail.step.Undoing? && !Verified(Leaves(pub, db.status.detail.xid), db.marker.rows) && o.named.Pass?
      case WrongShape => db.status.detail.step.Undoing? && o.named == Check(db.shape) && o.named.HaltOn?
      case RefreshBlocked => db.status.detail.step.Enabling? && env.refreshBlocked && o.named.Pass?
      case _ => false
    }

    /** One turn of the loop in _advance. */
    method OneStep(env: Env, budget: nat) returns (o: Ended, left: nat, ghost trace: seq<Event>)
      requires db.status.InProgress?
      modifies this
      ensures Ran(pub, old(View()), trace, View()) && (o.Crashed? ==> left == 0) && db.copy == old(db.copy)
      ensures !o.Returned? ==> db.status == old(db.status) && hist.undone == old(hist.undone)
      ensures o.HaltRaised? ==> StoppedFor(env, o)
      ensures o.Returned? && old(db.status.detail.step).Enabling? ==>
        && db.status.Idle? && hist.undone == old(hist.undone)
        && (old(db.status.detail.wasEnabled) ==> db.enabled)
      ensures o.Returned? && !old(db.status.detail.step).Enabling? ==>
        && db.status.InProgress? && db.status.detail.xid == old(db.status.detail.xid)
        && db.status.detail.wasEnabled == old(db.status.detail.wasEnabled)
        && Rank(db.status.detail.step) < Rank(old(db.status.detail.step))
        && hist.undone == old(hist.undone) + if db.status.detail.step.Enabling? then [db.status.detail.xid] else []
    {
      match db.status.detail.step {
        case Disabling => o, left, trace := DisableStep(env, budget);
        case Logging => o, left, trace := LogStep(budget);
        case Relogging => o, left, trace := RelogStep(budget);
        case Migrating => o, left, trace := MigrateStep(env, budget);
        case Undoing => o, left, trace := UndoStep(budget);
        case Enabling => o, left, trace := EnableStep(env, budget);
      }
    }

    /** _advance: run the steps from the persisted one on, until the migration is through. */
    method Advance(env: Env, budget: nat) returns (o: Ended, left: nat, ghost trace: seq<Event>)
      requires db.status.InProgress?
      modifies this
      ensures Ran(pub, old(View()), trace, View()) && (o.Crashed? ==> left == 0) && db.copy == old(db.copy)
      ensures o.Returned? ==> db.status.Idle? && (old(db.status.detail.wasEnabled) ==> db.enabled)
      ensures o.Returned? ==>
        hist.undone == old(hist.undone) + if old(db.status.detail.step).Enabling? then [] else [old(db.status.detail.xid)]
      ensures !o.Returned? ==> db.status.InProgress? && db.status.detail.xid == old(db.status.detail.xid)
      ensures o.HaltRaised? ==> StoppedFor(env, o)
    {
      trace, left := [], budget;
      ghost var was := View();
      ghost var d := db.status.detail;
      while true
        invariant Ran(pub, was, trace, View()) && db.copy == old(db.copy)
        invariant db.status.InProgress? && db.status.detail.xid == d.xid && db.status.detail.wasEnabled == d.wasEnabled
        invariant hist.undone == was.hist.undone
          + if db.status.detail.step.Enabling? && !d.step.Enabling? then [d.xid] else []
        invariant d.step.Enabling? ==> db.status.detail.step.Enabling?
        decreases Rank(db.status.detail.step)
      {
        ghost var here := View();
        ghost var more: seq<Event>;
        o, left, more := OneStep(env, left);
        RunJoin(pub, was, trace, here, more, View());
        trace := trace + more;
        if !o.Returned? || db.status.Idle? { return; }
      }
    }

    // ---------------------------------------------------------------- halt and resume

    /** halt(): three transactions. One that is cut short has dropped the triggers, and perhaps
        disabled the subscription, without saying so. */
    method HaltNow(prior: Option<Detail>, named: Verdict, env: Env, budget: nat) returns (ghost trace: seq<Event>)
      requires db.copy.NoCopy?
      requires MayRecord(db, prior, named)
      modifies this`db
      ensures Ran(pub, old(View()), trace, View())
      ensures db == HaltPart(old(db), prior, named, env, budget)
    {
      trace := [];
      ghost var was := View();
      if budget == 0 { return; }
      if budget < 3 {
        trace := TornRuns(pub, was, env.cleaned, budget > 1 && env.reached);
      } else {
        trace := HaltRuns(pub, was, prior, named, env.cleaned, env.reached);
      }
      var on := db.enabled;
      db := db.(triggers := db.triggers && !env.cleaned);
      if budget > 1 { db := db.(enabled := db.enabled && !env.reached); }
      if budget > 2 { db := db.(status := Halted(prior, on && env.reached, named)); }
    }

    /** The resume of a halt outside a migration. */
    method ResumeOutside(budget: nat) returns (ghost trace: seq<Event>)
      requires db.status.Halted? && db.status.prior.None?
      modifies this`db
      ensures Ran(pub, old(View()), trace, View())
      ensures db == old(db).(status := db.status, enabled := db.enabled)
      ensures budget >= 2 ==> db.status.Idle? && db.enabled == (old(db.enabled) || old(db.status).disabledByHalt)
    {
      trace := [];
      ghost var was := View();
      var left := budget;
      if db.status.disabledByHalt && left > 0 {
        RunOperator(pub, was, trace, View(), ResumeEnable);
        db := db.(enabled := true);
        trace, left := trace + [ResumeEnable], left - 1;
      }
      if left == 0 { return; }
      RunOperator(pub, was, trace, View(), ResumeIdle);
      db := db.(status := Idle);
      trace := trace + [ResumeIdle];
    }

    /** resume(): a migration goes back to its step, one that halted before its undo to `relog`;
        without one the subscription a halt had disabled comes back first. */
    method ResumeCommand(budget: nat) returns (ghost trace: seq<Event>)
      modifies this`db
      ensures Ran(pub, old(View()), trace, View())
      ensures db == old(db).(status := db.status, enabled := db.enabled)
      ensures !old(db.status).Halted? ==> db == old(db)
      ensures budget >= 2 && old(db.status).Halted? ==>
        if old(db.status).prior.Some? then
          db.status == InProgress(ResumeStep(old(db.status).prior.value)) && db.enabled == old(db.enabled)
        else db.status.Idle? && db.enabled == (old(db.enabled) || old(db.status).disabledByHalt)
    {
      trace := [];
      if !db.status.Halted? || budget == 0 { return; }
      if db.status.prior.None? {
        trace := ResumeOutside(budget);
        return;
      }
      RunOperator(pub, old(View()), trace, View(), Resume);
      db := db.(status := InProgress(ResumeStep(db.status.prior.value)));
      trace := trace + [Resume];
    }

    // ---------------------------------------------------------------- the cycle

    /** How a migration that was under way, or that a stall started, stands after a poll: carried through,
        or still the one persisted. */
    ghost predicate CarriedOn(was: seq<nat>, xid: nat, undone: bool, wasEnabled: bool, o: Ended)
      reads this
    {
      if o.Returned? then
        db.status.Idle? && hist.undone == was + (if undone then [] else [xid]) && (wasEnabled ==> db.enabled)
      else db.status.InProgress? && db.status.detail.xid == xid
    }

    /** _handle_stall: refuse what is not a migration the follower may replay; wait for table syncs;
        otherwise start. */
    method HandleStall(xid: nat, env: Env, budget: nat) returns (o: Ended, left: nat, ghost trace: seq<Event>)
      requires db.status.Idle? && db.copy.NoCopy? && db.lastError == Some(xid) && xid + 1 > db.progress
      modifies this
      ensures Ran(pub, old(View()), trace, View()) && (o.Crashed? ==> left == 0) && db.copy == old(db.copy)
      ensures match Refusal(pub, old(db), xid, env)
        case Some(why) => o == HaltRaised(why, Pass) && View() == old(View()) && left == budget
        case None =>
          if env.syncing then o == Returned && View() == old(View()) && left == budget
          else if budget == 0 then o == Crashed && View() == old(View())
          else CarriedOn(old(hist.undone), xid, false, old(db.enabled), o)
      ensures o.HaltRaised? ==> MayHalt(o)
    {
      trace, left := [], budget;
      if AlreadyProcessed(db, xid) {
        return HaltRaised(Restalled, Pass), left, trace;
      }
      if Leaves(pub, xid) == {} { return HaltRaised(NotAMigration, Pass), left, trace; }
      if env.refused { return HaltRaised(NotSchemaLag, Pass), left, trace; }
      if env.laneOff { return HaltRaised(LaneOff, Pass), left, trace; }
      if env.moved { return HaltRaised(MovedAway, Pass), left, trace; }
      if env.syncing { return Returned, left, trace; }
      if left == 0 { return Crashed, 0, trace; }
      RunStart(pub, old(View()), trace, View(), Stall(xid));
      db := db.(status := InProgress(Detail(xid, Disabling, false, db.enabled)));
      hist := hist.(script := [], stamps := {});
      trace := trace + [Stall(xid)];
      ghost var started := View();
      ghost var more;
      o, left, more := Advance(env, left - 1);
      RunJoin(pub, old(View()), trace, started, more, View());
      trace := trace + more;
    }

    /** What a raised Halt may be recorded as: the persisted detail, if a migration is under way. */
    ghost predicate MayHalt(o: Ended)
      reads this
      requires o.HaltRaised?
    {
      !db.status.Halted? && MayRecord(db, Current(db), o.named)
    }

    /** The guarded part of cycle(). */
    method Poll(env: Env, budget: nat) returns (o: Ended, left: nat, ghost trace: seq<Event>)
      requires db.copy.NoCopy? && !db.status.Halted?
      modifies this
      ensures Ran(pub, old(View()), trace, View()) && (o.Crashed? ==> left == 0) && db.copy == old(db.copy)
      ensures o.HaltRaised? ==> MayHalt(o)
      ensures match PlanOf(pub, old(db), env)
        case Refuse(why) => o == HaltRaised(why, Pass) && View() == old(View()) && left == budget
        case Wait => o == Returned && View() == old(View()) && left == budget
        case Carry =>
          var d := old(db.status.detail);
          CarriedOn(old(hist.undone), d.xid, d.step.Enabling?, d.wasEnabled, o)
        case Start(xid) =>
          if budget == 0 then o == Crashed && View() == old(View())
          else CarriedOn(old(hist.undone), xid, false, old(db.enabled), o)
    {
      trace, left := [], budget;
      var unfit := Unfit(env);
      if unfit.Some? {
        o := HaltRaised(unfit.value, Pass);
      } else if db.status.InProgress? {
        o, left, trace := Advance(env, budget);
      } else if env.noErrorLog {
        o := HaltRaised(NoErrorLog, Pass);
      } else if Stalled(db, env) {
        o, left, trace := HandleStall(db.lastError.value, env, budget);
      } else if env.headsPassed {
        o := HaltRaised(HeadsPassed, Pass);
      } else {
        o := Returned;
      }
    }

    /** After a poll that may have halted: idle with the migration's undo made exactly once, or the
        migration is still the one recorded. */
    ghost predicate CarriedOrKept(was: seq<nat>, xid: nat, undone: bool)
      reads this
    {
      if db.status.Idle? then hist.undone == was + if undone then [] else [xid]
      else Current(db).Some? && Current(db).value.xid == xid
    }

    /** cycle(): one poll under the follower lock. A raised Halt becomes a halt that keeps the
        persisted detail; only the configuration guard's halt, which comes first, does not. */
    method Cycle(env: Env, budget: nat) returns (ghost trace: seq<Event>)
      requires db.copy.NoCopy?
      modifies this
      ensures Ran(pub, old(View()), trace, View())
      ensures env.guardViolated ==> View() == World(HaltPart(old(db), None, Pass, env, budget), old(hist))
      ensures !env.guardViolated && old(db.status).Halted? ==> View() == old(View())
      ensures !env.guardViolated && !old(db.status).Halted? ==> match PlanOf(pub, old(db), env)
        case Refuse(_) => View() == World(HaltPart(old(db), Current(old(db)), Pass, env, budget), old(hist))
        case Wait => View() == old(View())
        case Carry => CarriedOrKept(old(hist.undone), old(db.status.detail.xid), old(db.status.detail.step).Enabling?)
        case Start(xid) =>
          if budget == 0 then View() == old(View()) else CarriedOrKept(old(hist.undone), xid, false)
    {
      if env.guardViolated {
        trace := HaltNow(None, Pass, env, budget);
        return;
      }
      trace := [];
      if db.status.Halted? { return; }
      var o, left;
      o, left, trace := Poll(env, budget);
      if o.HaltRaised? {
        ghost var here := View();
        ghost var more := HaltAfterPoll(o.named, env, left);
        RunJoin(pub, old(View()), trace, here, more, View());
        trace := trace + more;
      }
    }

    /** The halt a poll's exception ends in. */
    method HaltAfterPoll(named: Verdict, env: Env, budget: nat) returns (ghost trace: seq<Event>)
      requires db.copy.NoCopy? && !db.status.Halted? && MayRecord(db, Current(db), named)
      modifies this`db
      ensures Ran(pub, old(View()), trace, View())
      ensures db == HaltPart(old(db), Current(old(db)), named, env, budget)
      ensures Current(db) == Current(old(db)) && (db.status.Idle? ==> old(db.status).Idle?)
    {
      var prior := if db.status.InProgress? then Some(db.status.detail) else None;
      trace := HaltNow(prior, named, env, budget);
    }

    // ---------------------------------------------------------------- resolve

    /** The one transaction of resolve(): the resolution, the log rows it settles, and the copy it
        leaves owed. */
    method RecordResolution(target: Target, ghost was: World, ghost trace: seq<Event>)
      requires db.status.Halted? && db.status.prior.Some? && db.status.named.HaltOn? && target in db.status.named.targets
      requires WellFormed(db.shape.catalog) && Resolvable(db.shape.catalog, Resolution(db.status.named.kase, target))
      requires Ran(pub, was, trace, View())
      modifies this
      ensures Ran(pub, was, trace + [ResolveTarget(target)], View())
      ensures db.status == old(db.status)
      ensures db.shape == Resolve(old(db.shape), Resolution(old(db.status.named.kase), target))
      ensures db.owed == match OwedBy(old(db.status.named.kase), target)
        case None => old(db.owed)
        case Some(k) => if k in old(db.owed) then old(db.owed) else old(db.owed)[k := old(db.status.prior.value.xid)]
    {
      RunOneMore(pub, was, trace, View(), ResolveTarget(target));
      var kase, xid := db.status.named.kase, db.status.prior.value.xid;
      ghost var after := ResolveWorld(View(), target);
      var log := db.shape.log;
      if kase == RewriteCase || kase == KeyCase {
        var oid :| oid in db.shape.catalog.names && db.shape.catalog.names[oid] == target.name;
        log := DropLog(db.shape.catalog, kase, oid, log);
      }
      db := db.(shape := db.shape.(log := log, resolutions := db.shape.resolutions + {Resolution(kase, target)}));
      var key := OwedBy(kase, target);
      if key.Some? && key.value !in db.owed {
        db := db.(owed := db.owed[key.value := xid]);
      }
      hist := after.hist;
    }

    /** resolve(): only the current halt's case and targets are accepted, and the migration resumes
        exactly when the last of them is resolved. */
    method ResolveCommand(kase: Case, target: Target, budget: nat) returns (r: Resolved, ghost trace: seq<Event>)
      requires WellFormed(db.shape.catalog)
      modifies this
      ensures Ran(pub, old(View()), trace, View())
      ensures r.NotHalted? <==> !old(db.status).Halted? || old(db.status).prior.None?
      ensures r.WrongCase? || r.WrongTarget? || r.NotATable? ==>
        (r.WrongCase? <==> !old(db.status).named.HaltOn? || old(db.status).named.kase != kase)
      ensures r.WrongTarget? ==> target !in old(db.status).named.targets
      ensures r.NotATable? ==>
        target in old(db.status).named.targets && !Resolvable(db.shape.catalog, Resolution(kase, target))
      ensures r.NotHalted? || r.WrongCase? || r.WrongTarget? || r.NotATable? ==> View() == old(View())
      ensures r.Remaining? || r.Carried? ==>
        && old(db.status).named.HaltOn? && old(db.status).named.kase == kase && target in old(db.status).named.targets
        && Resolvable(old(db.shape.catalog), Resolution(kase, target))
        && db.shape == Resolve(old(db.shape), Resolution(kase, target))
      ensures r.Remaining? ==>
        && db.status == old(db.status) && r.targets != {}
        && r.targets == (set t | t in old(db.status).named.targets && Resolution(kase, t) !in db.shape.resolutions)
      ensures r.Carried? ==> forall t :: t in old(db.status).named.targets ==> Resolution(kase, t) in db.shape.resolutions
      ensures r.Carried? && budget >= 3 ==> db.status == InProgress(ResumeStep(old(db.status).prior.value))
    {
      trace := [];
      if !db.status.Halted? || db.status.prior.None? { return NotHalted, trace; }
      if !db.status.named.HaltOn? || db.status.named.kase != kase { return WrongCase, trace; }
      if target !in db.status.named.targets { return WrongTarget, trace; }
      if (kase == RewriteCase || kase == KeyCase) && !(target.Relation? && target.name in db.shape.catalog.names.Values) {
        return NotATable, trace;
      }
      if budget == 0 { return Died, trace; }
      RecordResolution(target, View(), trace);
      trace := trace + [ResolveTarget(target)];
      var remaining := set t | t in db.status.named.targets && Resolution(kase, t) !in db.shape.resolutions;
      if remaining != {} { return Remaining(remaining), trace; }
      assert forall t :: t in db.status.named.targets ==> t !in remaining;
      ghost var here := View();
      ghost var more := ResumeCommand(budget - 1);
      RunJoin(pub, old(View()), trace, here, more, View());
      r, trace := Carried, trace + more;
    }

    // ---------------------------------------------------------------- copy-columns

    /** Meanwhile the publisher goes on: apply is off, so the snapshot may be ahead of it. */
    method PublisherCommits(commits: nat, ghost was: World, ghost before: seq<Event>) returns (ghost trace: seq<Event>)
      requires db.horizon <= |pub.txs| && Ran(pub, was, before, View())
      modifies this`db
      ensures Ran(pub, was, trace, View())
      ensures db == old(db).(horizon := db.horizon)
      ensures db.horizon == if old(db.horizon) + commits <= |pub.txs| then old(db.horizon) + commits else |pub.txs|
    {
      trace := before;
      ghost var start := db;
      var i := 0;
      while i < commits && db.horizon < |pub.txs|
        invariant 0 <= i <= commits && db.horizon == start.horizon + i <= |pub.txs|
        invariant Ran(pub, was, trace, View()) && db == start.(horizon := db.horizon)
      {
        RunApply(pub, was, trace, View(), Commit);
        db := db.(horizon := db.horizon + 1);
        trace, i := trace + [Commit], i + 1;
      }
    }

    /** The copy's UPDATE, one transaction. */
    method WriteCopied(ghost was: World, ghost trace: seq<Event>)
      requires db.copy.Copying? && db.copy.stage.Off? && db.progress <= db.horizon <= |pub.txs|
      requires VersionsAt(pub, db.horizon) == db.marker.rows
      requires Ran(pub, was, trace, View())
      modifies this
      ensures Ran(pub, was, trace + [CopyWrite(old(db.horizon))], View())
      ensures db == old(db).(data := Merge(old(db.data), At(pub, old(db.horizon)), old(db.copy.relids), old(db.copy.cols)),
                             copy := old(db.copy).(stage := Written))
      ensures hist.undone == old(hist.undone)
      ensures hist.debts == DebtsLeft(old(hist), old(db.copy.table), old(db.copy.cols), old(db.copy.all))
    {
      RunCopy(pub, was, trace, View(), CopyWrite(db.horizon));
      ghost var after := WriteWorld(pub, View(), db.horizon);
      db := db.(data := Merge(db.data, At(pub, db.horizon), db.copy.relids, db.copy.cols),
                copy := db.copy.(stage := Written));
      hist := after.hist;
    }

    /** Clearing what the copy covered, another one. */
    method ClearOwed(ghost was: World, ghost trace: seq<Event>)
      requires db.copy.Copying? && db.copy.stage.Written? && Ran(pub, was, trace, View())
      modifies this`db
      ensures Ran(pub, was, trace + [CopyClear], View())
      ensures db == old(db).(owed := OwedLeft(old(db.owed), old(db.copy.table), old(db.copy.cols), old(db.copy.all)),
                             copy := old(db.copy).(stage := Cleared))
    {
      RunCopy(pub, was, trace, View(), CopyClear);
      db := db.(owed := OwedLeft(db.owed, db.copy.table, db.copy.cols, db.copy.all), copy := db.copy.(stage := Cleared));
    }

    /** ENABLE in the finally block; the lock goes with the process's work. */
    method EndCopy(ghost was: World, ghost trace: seq<Event>)
      requires db.copy.Copying? && !db.copy.stage.Waiting? && Ran(pub, was, trace, View())
      modifies this`db
      ensures Ran(pub, was, trace + [CopyOn], View())
      ensures db == old(db).(enabled := true, copy := NoCopy)
    {
      RunCopy(pub, was, trace, View(), CopyOn);
      db := db.(enabled := true, copy := NoCopy);
    }

    /** The update and the clearing: a process that dies in between leaves the entries owed. */
    method WriteAndClear(budget: nat, ghost was: World, ghost before: seq<Event>)
      returns (r: CopyResult, ghost trace: seq<Event>)
      requires db.copy.Copying? && db.copy.stage.Off? && db.progress <= db.horizon <= |pub.txs|
      requires VersionsAt(pub, db.horizon) == db.marker.rows && Ran(pub, was, before, View())
      modifies this
      ensures Ran(pub, was, trace, View()) && r == if budget >= 2 then Done else CopyDied
      ensures db == old(db).(data := db.data, owed := db.owed, copy := db.copy)
      ensures db.copy.Copying? && !db.copy.stage.Waiting? && hist.undone == old(hist.undone)
      ensures r.Done? ==>
        && db.data == Merge(old(db.data), At(pub, old(db.horizon)), old(db.copy.relids), old(db.copy.cols))
        && db.owed == OwedLeft(old(db.owed), old(db.copy.table), old(db.copy.cols), old(db.copy.all))
        && hist.debts == DebtsLeft(old(hist), old(db.copy.table), old(db.copy.cols), old(db.copy.all))
    {
      trace := before;
      if budget == 0 { return CopyDied, trace; }
      WriteCopied(was, trace);
      trace := trace + [CopyWrite(db.horizon)];
      if budget == 1 { return CopyDied, trace; }
      ClearOwed(was, trace);
      trace := trace + [CopyClear];
      r := Done;
    }

    /** Where the publisher stands when the copy reads it. */
    function SnapshotAt(horizon: nat, commits: nat): nat {
      if horizon + commits <= |pub.txs| then horizon + commits else |pub.txs|
    }

    /** The guarded part of _copy_columns, with the subscription off. The snapshot refuses first when
        the publisher's version rows are not the subscriber's. */
    method CopyWhileOff(commits: nat, allowUnmatched: nat, budget: nat) returns (r: CopyResult, ghost trace: seq<Event>)
      requires db.copy.Copying? && db.copy.stage.Off? && db.progress <= db.horizon <= |pub.txs|
      modifies this
      ensures Ran(pub, old(View()), trace, View()) && (r.Done? || r.VersionsMoved? || r.Unmatched? || r.CopyDied?)
      ensures db.status == old(db.status) && hist.undone == old(hist.undone) && db.progress == old(db.progress)
      ensures db.copy.Copying? && !db.copy.stage.Waiting? && db.horizon == SnapshotAt(old(db.horizon), commits)
      ensures r.VersionsMoved? <==> VersionsAt(pub, db.horizon) != old(db.marker.rows)
      ensures r.Unmatched? <==>
        && VersionsAt(pub, db.horizon) == old(db.marker.rows)
        && |UnmatchedRows(old(db.data), At(pub, db.horizon), old(db.copy.relids))| > allowUnmatched
      ensures r.VersionsMoved? || r.Unmatched? ==> hist == old(hist) && db == old(db).(horizon := db.horizon)
      ensures r.Done? ==>
        && db.data == Merge(old(db.data), At(pub, db.horizon), old(db.copy.relids), old(db.copy.cols))
        && db.owed == OwedLeft(old(db.owed), old(db.copy.table), old(db.copy.cols), old(db.copy.all))
        && hist.debts == DebtsLeft(old(hist), old(db.copy.table), old(db.copy.cols), old(db.copy.all))
    {
      ghost var was := View();
      assert Ran(pub, was, [], was);
      trace := PublisherCommits(commits, was, []);
      if VersionsAt(pub, db.horizon) != db.marker.rows { return VersionsMoved, trace; }
      if |UnmatchedRows(db.data, At(pub, db.horizon), db.copy.relids)| > allowUnmatched { return Unmatched, trace; }
      r, trace := WriteAndClear(budget, was, trace);
    }

    /** Taking the lock and turning the subscription off, once apply has caught up. */
    method CopyStart(table: string, relids: set<nat>, cols: set<string>, all: bool, budget: nat)
      returns (r: CopyResult, ghost trace: seq<Event>)
      requires db.progress <= db.horizon && db.status.Idle? && db.enabled && db.copy.NoCopy?
      modifies this`db
      ensures Ran(pub, old(View()), trace, View()) && (r.NotCaughtUp? || r.CopyDied? || r.Done?)
      ensures db.status == old(db.status)
      ensures r.NotCaughtUp? ==> db.progress < db.horizon && View() == old(View())
      ensures r.Done? ==> db.progress == db.horizon
      ensures r.Done? ==> db == old(db).(enabled := false, copy := Copying(table, relids, cols, all, old(db.horizon), Off))
    {
      trace := [];
      ghost var was := View();
      RunCopy(pub, was, trace, View(), CopyBegin(table, relids, cols, all));
      db := db.(copy := Copying(table, relids, cols, all, db.horizon, Waiting));
      trace := trace + [CopyBegin(table, relids, cols, all)];
      if db.progress < db.horizon {
        RunCopy(pub, was, trace, View(), CopyCrash);
        db := db.(copy := NoCopy);
        return NotCaughtUp, trace + [CopyCrash];
      }
      if budget == 0 { return CopyDied, trace; }
      RunCopy(pub, was, trace, View(), CopyOff);
      db := db.(enabled := false, copy := db.copy.(stage := Off));
      trace := trace + [CopyOff];
      r := Done;
    }

    /** _copy_columns: only an idle, enabled and caught-up follower; once the subscription is off,
        every ending but the process's death turns it on again. Between DISABLE and the snapshot the
        publisher commits `commits` more transactions. */
    method CopyColumnsCommand(table: string, relids: set<nat>, cols: set<string>, all: bool, commits: nat,
                              allowUnmatched: nat, workersExit: bool, budget: nat)
      returns (r: CopyResult, ghost trace: seq<Event>)
      requires db.progress <= db.horizon <= |pub.txs|
      modifies this
      ensures Ran(pub, old(View()), trace, View()) && hist.undone == old(hist.undone) && db.status == old(db.status)
      ensures r.Locked? <==> old(db.copy).Copying?
      ensures r.NotIdle? <==> old(db.copy).NoCopy? && !old(db.status).Idle?
      ensures r.NotEnabled? <==> old(db.copy).NoCopy? && old(db.status).Idle? && !old(db.enabled)
      ensures r.Locked? || r.NotIdle? || r.NotEnabled? || r.NotCaughtUp? ==> View() == old(View())
      ensures r.NotCaughtUp? ==> db.progress < db.horizon
      ensures r.WorkersStay? ==> !workersExit
      ensures r.VersionsMoved? || r.Unmatched? || r.Done? ==>
        workersExit && db.progress == old(db.horizon) && db.horizon == SnapshotAt(old(db.horizon), commits) <= |pub.txs|
      ensures r.VersionsMoved? || r.Unmatched? || r.Done? ==>
        && (r.VersionsMoved? <==> VersionsAt(pub, db.horizon) != old(db.marker.rows))
        && (r.Done? ==> |UnmatchedRows(old(db.data), At(pub, db.horizon), relids)| <= allowUnmatched)
        && (r.Unmatched? ==> |UnmatchedRows(old(db.data), At(pub, db.horizon), relids)| > allowUnmatched)
      ensures r.VersionsMoved? || r.Unmatched? || r.WorkersStay? ==>
        hist == old(hist) && db == old(db).(horizon := db.horizon)
      ensures r.Done? ==> db.copy.NoCopy? && db.enabled
      ensures r.Done? ==>
        && db.data == Merge(old(db.data), At(pub, db.horizon), relids, cols)
        && db.owed == OwedLeft(old(db.owed), table, cols, all)
        && hist.debts == DebtsLeft(old(hist), table, cols, all)
    {
      trace := [];
      ghost var was := View();
      if db.copy.Copying? { return Locked, trace; }
      if !db.status.Idle? { return NotIdle, trace; }
      if !db.enabled { return NotEnabled, trace; }
      r, trace := CopyStart(table, relids, cols, all, budget);
      if !r.Done? { return; }
      if !workersExit {
        EndCopy(was, trace);
        return WorkersStay, trace + [CopyOn];
      }
      ghost var here := View();
      ghost var more;
      r, more := CopyWhileOff(commits, allowUnmatched, if budget == 0 then 0 else budget - 1);
      RunJoin(pub, was, trace, here, more, View());
      trace := trace + more;
      if r.CopyDied? { return; }
      EndCopy(was, trace);
      trace := trace + [CopyOn];
    }
  }
}
