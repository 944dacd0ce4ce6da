/** What every event of the protocol keeps, for any interleaving, any crash and any operator: each
    migration is undone at most once, and apply stands still while one is replayed. */
module ExactlyOnce {
  import opened Common
  import opened UndoApply
  import opened ReplayShape
  import opened StallMarker
  import opened Protocol
  import R = Rewrites

  // ---------------------------------------------------------------- the applied record

  /** The applied tables after the undos of `undone`: each version row names the last transaction
      that left it behind. */
  ghost function Record(pub: Publisher, undone: seq<nat>): map<VersionRow, nat>
  {
    if undone == [] then map[]
    else
      var n := |undone| - 1;
      Recorded(Record(pub, undone[..n]), Leaves(pub, undone[n]), undone[n])
  }

  /** The `i`-th undone transaction left `v`, and no later one did. */
  ghost predicate LastToLeave(pub: Publisher, undone: seq<nat>, v: VersionRow, i: int) {
    0 <= i < |undone| && v in Leaves(pub, undone[i]) && forall j :: i < j < |undone| ==> v !in Leaves(pub, undone[j])
  }

  lemma {:induction false} RecordNamesLast(pub: Publisher, undone: seq<nat>, v: VersionRow)
    ensures forall i: int {:trigger LastToLeave(pub, undone, v, i)} :: LastToLeave(pub, undone, v, i) ==>
      v in Record(pub, undone) && Record(pub, undone)[v] == undone[i]
    ensures v in Record(pub, undone) ==> exists i :: LastToLeave(pub, undone, v, i)
    decreases |undone|
  {
    if undone != [] {
      var n := |undone| - 1;
      RecordNamesLast(pub, undone[..n], v);
      if v in Leaves(pub, undone[n]) {
        assert LastToLeave(pub, undone, v, n);
      } else {
        forall i ensures LastToLeave(pub, undone, v, i) <==> LastToLeave(pub, undone[..n], v, i) {
          if LastToLeave(pub, undone[..n], v, i) {
            forall j | i < j < |undone| ensures v !in Leaves(pub, undone[j]) {
              if j < n { assert undone[..n][j] == undone[j]; }
            }
          }
          if LastToLeave(pub, undone, v, i) {
            assert i != n;
            forall j | i < j < n ensures v !in Leaves(pub, undone[..n][j]) { assert undone[..n][j] == undone[j]; }
          }
        }
      }
    }
  }

  /** Some version row the transaction left has been left by no later undone transaction. */
  ghost predicate OnRecord(pub: Publisher, undone: seq<nat>, xid: nat) {
    exists i: int, v :: LastToLeave(pub, undone, v, i) && undone[i] == xid
  }

  lemma RecordIsOnRecord(pub: Publisher, undone: seq<nat>, xid: nat)
    ensures xid in Record(pub, undone).Values <==> OnRecord(pub, undone, xid)
  {
    var r := Record(pub, undone);
    if xid in r.Values {
      var v :| v in r && r[v] == xid;
      RecordNamesLast(pub, undone, v);
      var i :| LastToLeave(pub, undone, v, i);
    }
    if i: int, v :| LastToLeave(pub, undone, v, i) && undone[i] == xid {
      RecordNamesLast(pub, undone, v);
      assert v in r && r[v] == xid;
    }
  }

  /** The last undone transaction is always on record. */
  lemma LastOnRecord(pub: Publisher, undone: seq<nat>)
    requires undone != [] && Leaves(pub, undone[|undone| - 1]) != {}
    ensures undone[|undone| - 1] in Record(pub, undone).Values
  {
    var v :| v in Leaves(pub, undone[|undone| - 1]);
    assert v in Record(pub, undone);
    assert Record(pub, undone)[v] == undone[|undone| - 1];
  }

  // ---------------------------------------------------------------- the invariant

  ghost predicate Last(undone: seq<nat>, xid: nat) { undone != [] && undone[|undone| - 1] == xid }

  /** Undos happen in commit order, never past what apply reached, and the applied record is theirs. */
  ghost predicate Ordered(pub: Publisher, w: World) {
    var db, undone := w.db, w.hist.undone;
    && db.progress <= db.horizon <= |pub.txs|
    && (db.lastError.Some? ==> db.lastError.value <= db.progress && db.lastError.value < db.horizon)
    && Increasing(undone)
    && (forall p :: p in undone ==> p <= db.progress && p < db.horizon && Leaves(pub, p) != {})
    && db.applied == Record(pub, undone)
  }

  /** Where the migration under way stands: until its undo commits no later one has been undone, and
      from the logging step on the subscription is off. */
  ghost predicate Placed(pub: Publisher, w: World) {
    var db, undone := w.db, w.hist.undone;
    match Current(db)
    case None => true
    case Some(d) =>
      && d.xid < db.horizon && d.xid <= db.progress && Leaves(pub, d.xid) != {}
      && (d.step.Enabling? ==> Last(undone, d.xid))
      && (!d.step.Enabling? ==> forall p :: p in undone ==> p < d.xid)
      && (d.step.Logging? || Replaying(d) ==> !db.enabled)
      && (Replaying(d) ==> d.scoped)
  }

  /** And when stalls are steady, apply stands right before it: the marker stops apply while the
      subscription is still on. */
  ghost predicate Standing(pub: Publisher, w: World) {
    var d := Current(w.db);
    d.Some? && !d.value.step.Enabling? ==>
      d.value.xid == w.db.progress && (d.value.step.Disabling? ==> MarkerStops(pub, w.db, d.value.xid))
  }

  /** A copy and a migration exclude each other, and what a halt recorded fits its step. */
  ghost predicate Separate(w: World) {
    var db := w.db;
    && (db.copy.Copying? ==> db.status.Idle?)
    && (db.status.Halted? && db.status.named.HaltOn? ==> db.status.prior.Some? && db.status.prior.value.step.Undoing?)
    && (db.status.Halted? && db.status.disabledByHalt && db.status.prior.Some? ==>
          db.status.prior.value.step.Disabling? || db.status.prior.value.step.Enabling?)
  }

  ghost predicate Safe(pub: Publisher, w: World) { Ordered(pub, w) && Placed(pub, w) && Separate(w) }

  lemma InitiallySafe(pub: Publisher, w: World)
    requires Initial(pub, w)
    ensures Safe(pub, w)
  {
  }

  lemma AppendHighest(undone: seq<nat>, xid: nat)
    requires (forall i, j :: 0 <= i < j < |undone| ==> undone[i] < undone[j]) && forall p :: p in undone ==> p < xid
    ensures forall i, j :: 0 <= i < j < |undone + [xid]| ==> (undone + [xid])[i] < (undone + [xid])[j]
  {
    assert forall i :: 0 <= i < |undone| ==> undone[i] in undone;
  }

  lemma ApplyKeepsSafe(pub: Publisher, w: World, e: Event)
    requires Safe(pub, w) && OfApply(e) && CanApply(pub, w.db, e)
    ensures Safe(pub, NextApply(pub, w, e))
  {
  }

  lemma StallIsNew(pub: Publisher, w: World, xid: nat)
    requires Safe(pub, w) && CanStart(pub, w.db, Stall(xid))
    ensures xid == w.db.progress && forall p :: p in w.hist.undone ==> p < xid
  {
    var undone := w.hist.undone;
    if undone != [] {
      var last := undone[|undone| - 1];
      assert last in undone;
      LastOnRecord(pub, undone);
      forall p | p in undone ensures p < xid {
        var i :| 0 <= i < |undone| && undone[i] == p;
      }
    }
  }

  lemma StartKeepsSafe(pub: Publisher, w: World, e: Event)
    requires Safe(pub, w) && OfStart(e) && CanStart(pub, w.db, e)
    ensures Safe(pub, NextStart(pub, w, e))
  {
    if e.Stall? { StallIsNew(pub, w, e.xid); }
  }

  lemma UndoKeepsOrdered(pub: Publisher, w: World)
    requires Safe(pub, w) && CanUndo(pub, w.db)
    ensures Ordered(pub, UndoWorld(pub, w))
  {
    var undone, xid := w.hist.undone, w.db.status.detail.xid;
    AppendHighest(undone, xid);
    RecordGrows(pub, undone, xid);
  }

  lemma RecordGrows(pub: Publisher, undone: seq<nat>, xid: nat)
    ensures Record(pub, undone + [xid]) == Recorded(Record(pub, undone), Leaves(pub, xid), xid)
  {
    assert (undone + [xid])[..|undone|] == undone;
  }

  lemma UndoKeepsSafe(pub: Publisher, w: World)
    requires Safe(pub, w) && CanUndo(pub, w.db)
    ensures Safe(pub, UndoWorld(pub, w))
  {
    UndoKeepsOrdered(pub, w);
    assert UndoWorld(pub, w).hist.undone[|w.hist.undone|] == w.db.status.detail.xid;
  }

  lemma CarryKeepsSafe(pub: Publisher, w: World, e: Event)
    requires Safe(pub, w) && OfCarry(e) && CanCarry(w.db, e)
    ensures Safe(pub, NextCarry(w, e))
  {
  }

  lemma MigrateKeepsSafe(pub: Publisher, w: World, script: seq<R.Stmt>, versionOps: seq<VersionOp>, catalog: Catalog)
    requires Safe(pub, w) && CanMigrate(w.db, script)
    ensures Safe(pub, MigrateWorld(w, script, versionOps, catalog))
  {
  }

  lemma HaltKeepsSafe(pub: Publisher, w: World, e: Event)
    requires Safe(pub, w) && Halts(e) && CanHalt(w.db, e)
    ensures Safe(pub, NextHalt(w, e))
  {
  }

  lemma OperatorKeepsSafe(pub: Publisher, w: World, e: Event)
    requires Safe(pub, w) && OfOperator(e) && CanOperate(w.db, e)
    ensures Safe(pub, NextOperator(w, e))
  {
  }

  lemma ResolveKeepsSafe(pub: Publisher, w: World, t: Target)
    requires Safe(pub, w) && CanResolve(w.db, t)
    ensures Safe(pub, ResolveWorld(w, t))
  {
  }

  lemma CopyKeepsSafe(pub: Publisher, w: World, e: Event)
    requires Safe(pub, w) && OfCopy(e) && CanCopy(pub, w.db, e)
    ensures Safe(pub, NextCopy(pub, w, e))
  {
  }

  /** Every event keeps the order of the undos and the applied record, the place of the migration under
      way, and the exclusion of copies and migrations. */
  lemma KeepsSafe(pub: Publisher, w: World, e: Event)
    requires Safe(pub, w) && Can(pub, w, e)
    ensures Safe(pub, Next(pub, w, e))
  {
    if OfApply(e) { ApplyKeepsSafe(pub, w, e); }
    else if OfStart(e) { StartKeepsSafe(pub, w, e); }
    else if e.MigrateTx? { MigrateKeepsSafe(pub, w, e.script, e.versionOps, e.catalog); }
    else if OfCarry(e) { CarryKeepsSafe(pub, w, e); }
    else if e.UndoCommit? { UndoKeepsSafe(pub, w); }
    else if Halts(e) { HaltKeepsSafe(pub, w, e); }
    else if OfOperator(e) { OperatorKeepsSafe(pub, w, e); }
    else if e.ResolveTarget? { ResolveKeepsSafe(pub, w, e.target); }
    else { CopyKeepsSafe(pub, w, e); }
  }

  lemma {:induction false} SafeThroughout(pub: Publisher, w: World, es: seq<Event>)
    requires Safe(pub, w) && Run(pub, w, es)
    ensures Safe(pub, After(pub, w, es))
    decreases |es|
  {
    if es != [] {
      KeepsSafe(pub, w, es[0]);
      SafeThroughout(pub, Next(pub, w, es[0]), es[1..]);
    }
  }

  lemma ApplyKeepsStanding(pub: Publisher, w: World, e: Event)
    requires Placed(pub, w) && Standing(pub, w) && OfApply(e) && CanApply(pub, w.db, e)
    ensures Standing(pub, NextApply(pub, w, e))
  {
  }

  lemma StartKeepsStanding(pub: Publisher, w: World, e: Event)
    requires Safe(pub, w) && Standing(pub, w) && OfStart(e) && CanStart(pub, w.db, e) && Steady(pub, w, e)
    ensures Standing(pub, NextStart(pub, w, e))
  {
    if e.Stall? { StallIsNew(pub, w, e.xid); }
  }

  lemma CarryKeepsStanding(pub: Publisher, w: World, e: Event)
    requires Standing(pub, w) && OfCarry(e) && CanCarry(w.db, e)
    ensures Standing(pub, NextCarry(w, e))
  {
  }

  lemma MigrateKeepsStanding(pub: Publisher, w: World, script: seq<R.Stmt>, versionOps: seq<VersionOp>, catalog: Catalog)
    requires Standing(pub, w) && CanMigrate(w.db, script)
    ensures Standing(pub, MigrateWorld(w, script, versionOps, catalog))
  {
  }

  lemma UndoKeepsStanding(pub: Publisher, w: World)
    requires CanUndo(pub, w.db)
    ensures Standing(pub, UndoWorld(pub, w))
  {
  }

  lemma HaltKeepsStanding(pub: Publisher, w: World, e: Event)
    requires Standing(pub, w) && Halts(e) && CanHalt(w.db, e)
    ensures Standing(pub, NextHalt(w, e))
  {
  }

  lemma OperatorKeepsStanding(pub: Publisher, w: World, e: Event)
    requires Placed(pub, w) && Standing(pub, w) && OfOperator(e) && CanOperate(w.db, e)
    ensures Standing(pub, NextOperator(w, e))
  {
  }

  lemma ResolveKeepsStanding(pub: Publisher, w: World, t: Target)
    requires Standing(pub, w) && CanResolve(w.db, t)
    ensures Standing(pub, ResolveWorld(w, t))
  {
  }

  lemma CopyKeepsStanding(pub: Publisher, w: World, e: Event)
    requires Separate(w) && OfCopy(e) && CanCopy(pub, w.db, e)
    ensures Standing(pub, NextCopy(pub, w, e))
  {
  }

  lemma KeepsStanding(pub: Publisher, w: World, e: Event)
    requires Safe(pub, w) && Standing(pub, w) && Can(pub, w, e) && Steady(pub, w, e)
    ensures Standing(pub, Next(pub, w, e))
  {
    if OfApply(e) { ApplyKeepsStanding(pub, w, e); }
    else if OfStart(e) { StartKeepsStanding(pub, w, e); }
    else if e.MigrateTx? { MigrateKeepsStanding(pub, w, e.script, e.versionOps, e.catalog); }
    else if OfCarry(e) { CarryKeepsStanding(pub, w, e); }
    else if e.UndoCommit? { UndoKeepsStanding(pub, w); }
    else if Halts(e) { HaltKeepsStanding(pub, w, e); }
    else if OfOperator(e) { OperatorKeepsStanding(pub, w, e); }
    else if e.ResolveTarget? { ResolveKeepsStanding(pub, w, e.target); }
    else { CopyKeepsStanding(pub, w, e); }
  }

  lemma {:induction false} StandingThroughout(pub: Publisher, w: World, es: seq<Event>)
    requires Safe(pub, w) && Standing(pub, w) && SteadyRun(pub, w, es)
    ensures Run(pub, w, es) && Standing(pub, After(pub, w, es))
    decreases |es|
  {
    if es != [] {
      KeepsSafe(pub, w, es[0]);
      KeepsStanding(pub, w, es[0]);
      StandingThroughout(pub, Next(pub, w, es[0]), es[1..]);
    }
  }

  // ---------------------------------------------------------------- what it means

  /** The undo for a remote transaction commits at most once in any run, and undos commit in the
      publisher's order. */
  lemma UndoneAtMostOnce(pub: Publisher, w: World, es: seq<Event>)
    requires Initial(pub, w) && Run(pub, w, es)
    ensures Increasing(After(pub, w, es).hist.undone)
  {
    InitiallySafe(pub, w);
    SafeThroughout(pub, w, es);
  }

  /** The applied record: a transaction is on it exactly when its undo committed and one of the
      version rows it left was left by no later undone transaction. */
  lemma RecordedIffUndone(pub: Publisher, w: World, es: seq<Event>, xid: nat)
    requires Initial(pub, w) && Run(pub, w, es)
    ensures var end := After(pub, w, es);
      AlreadyProcessed(end.db, xid) <==> OnRecord(pub, end.hist.undone, xid)
  {
    InitiallySafe(pub, w);
    SafeThroughout(pub, w, es);
    RecordIsOnRecord(pub, After(pub, w, es).hist.undone, xid);
  }

  /** But a transaction apply has yet to pass is on record exactly when its undo committed, which is
      all the stall handling asks: a stall on a recorded transaction cannot start a replay. */
  lemma PendingRecordIsExact(pub: Publisher, w: World, es: seq<Event>, xid: nat)
    requires Initial(pub, w) && Run(pub, w, es)
    requires xid >= After(pub, w, es).db.progress
    ensures var end := After(pub, w, es);
      && (AlreadyProcessed(end.db, xid) <==> xid in end.hist.undone)
      && (xid in end.hist.undone ==> !Can(pub, end, Stall(xid)))
  {
    InitiallySafe(pub, w);
    SafeThroughout(pub, w, es);
    PendingIsLast(pub, After(pub, w, es), xid);
  }

  lemma PendingIsLast(pub: Publisher, w: World, xid: nat)
    requires Ordered(pub, w) && xid >= w.db.progress
    ensures AlreadyProcessed(w.db, xid) <==> xid in w.hist.undone
  {
    var undone := w.hist.undone;
    if xid in undone {
      var i :| 0 <= i < |undone| && undone[i] == xid;
      assert undone[|undone| - 1] in undone;
      assert i == |undone| - 1;
      LastOnRecord(pub, undone);
    }
    RecordIsOnRecord(pub, undone, xid);
  }

  /** Step `enable` is persisted only after the undo, and until the undo commits nothing else can
      have been undone meanwhile. */
  lemma EnableFollowsUndo(pub: Publisher, w: World, es: seq<Event>)
    requires Initial(pub, w) && Run(pub, w, es)
    ensures var end := After(pub, w, es);
      var d := Current(end.db);
      d.Some? ==> (d.value.step.Enabling? <==> d.value.xid in end.hist.undone)
  {
    InitiallySafe(pub, w);
    SafeThroughout(pub, w, es);
    var end := After(pub, w, es);
    var undone := end.hist.undone;
    if undone != [] { assert undone[|undone| - 1] in undone; }
  }

  /** From the persisted step `log` until the undo commits, through restarts, halts and resumes, the
      subscription is off; with steady stalls apply stands right before the migration. */
  lemma SubscriptionStaysOff(pub: Publisher, w: World, es: seq<Event>)
    requires Initial(pub, w) && Run(pub, w, es)
    ensures var end := After(pub, w, es);
      var d := Current(end.db);
      d.Some? && (d.value.step.Logging? || Replaying(d.value)) ==>
        !end.db.enabled && (SteadyRun(pub, w, es) ==> end.db.progress == d.value.xid)
  {
    InitiallySafe(pub, w);
    SafeThroughout(pub, w, es);
    if SteadyRun(pub, w, es) { StandingThroughout(pub, w, es); }
  }
}
