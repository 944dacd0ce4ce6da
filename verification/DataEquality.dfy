/** The subscriber's data over whole runs. When every undone migration was carried (see SettlesOff), the
    subscriber holds the publisher's data wherever it is not in the middle of carrying one, apart from the
    tables whose rewrites or stored defaults an operator resolved and no copy has brought back since. */
module DataEquality {
  import opened Common
  import opened Tables
  import opened UndoApply
  import opened CopyAhead
  import opened ReplayShape
  import opened StallMarker
  import opened Protocol
  import opened ExactlyOnce
  import opened LogComplete
  import opened ChecksSuffice
  import opened Apart
  import opened WaivedChecks
  import R = Rewrites

  // ---------------------------------------------------------------- the publisher's changes

  function Between(pub: Publisher, a: nat, b: nat): seq<Change>
    requires a <= b <= |pub.txs|
    decreases b - a
  {
    if a == b then [] else Changes(pub.txs[a]) + Between(pub, a + 1, b)
  }

  lemma {:induction false} BetweenSplits(pub: Publisher, a: nat, b: nat, c: nat)
    requires a <= b <= c <= |pub.txs|
    ensures Between(pub, a, c) == Between(pub, a, b) + Between(pub, b, c)
    decreases b - a
  {
    if a < b { BetweenSplits(pub, a + 1, b, c); }
  }

  /** Without changes of shape a script does what its row changes do. */
  lemma {:induction false} PlainRuns(script: seq<R.Stmt>, t: Table)
    requires Plain(script)
    ensures R.Reshaped(script, t) == t
    ensures R.Runs(script, t) <==> ValidAll(t, R.ChangesOf(script))
    ensures R.Run(script, t) == EffectAll(t, R.ChangesOf(script))
  {
    R.RewritesFirst(script, t);
    PlainKeepsShape(script, t);
  }

  lemma {:induction false} PlainKeepsShape(script: seq<R.Stmt>, t: Table)
    requires Plain(script)
    ensures R.Reshaped(script, t) == t
  {
    if script != [] { PlainKeepsShape(script[1..], t); }
  }

  /** A transaction without changes of shape leads to the next state by its row changes. */
  lemma NextState(pub: Publisher, a: nat)
    requires Sound(pub) && a < |pub.txs| && Plain(pub.txs[a].script)
    ensures ValidAll(At(pub, a), Changes(pub.txs[a])) && EffectAll(At(pub, a), Changes(pub.txs[a])) == At(pub, a + 1)
  {
    PlainRuns(pub.txs[a].script, At(pub, a));
  }

  lemma {:induction false} BetweenLeads(pub: Publisher, a: nat, b: nat)
    requires Sound(pub) && a <= b <= |pub.txs| && Calm(pub, a, b)
    ensures ValidAll(At(pub, a), Between(pub, a, b)) && EffectAll(At(pub, a), Between(pub, a, b)) == At(pub, b)
    decreases b - a
  {
    if a < b {
      BetweenLeads(pub, a + 1, b);
      NextState(pub, a);
      EffectAllConcat(At(pub, a), Changes(pub.txs[a]), Between(pub, a + 1, b));
    }
  }

  // ---------------------------------------------------------------- the phases

  function Max(a: nat, b: nat): nat { if a <= b then b else a }

  /** Outside a migration: the publisher's rows at `a`, except that a row which changes again before
      `b` may already show copied columns of the snapshot at `b`, and those of the relations `apart` may
      differ. No migration lies in between. */
  ghost predicate Converging(pub: Publisher, apart: set<nat>, t: Table, a: nat, b: nat)
    requires a <= |pub.txs| && b <= |pub.txs|
  {
    && t.Keys == At(pub, a).Keys
    && (forall k :: k in t && k.relid !in apart && !Hits(Between(pub, a, Max(a, b)), k) ==> t[k] == At(pub, a)[k])
    && Calm(pub, a, b)
  }

  ghost predicate InReplay(w: World) { Current(w.db).Some? && Replaying(Current(w.db).value) }

  /** What the table holds in each phase, outside `apart`. */
  ghost predicate PhaseOk(pub: Publisher, progress: nat, ahead: nat, apart: set<nat>, script: seq<R.Stmt>, data: Table,
                          replay: bool, pending: bool)
    requires progress <= |pub.txs| && ahead <= |pub.txs|
  {
    if replay then
      R.Runs(script, At(pub, progress)) && SameOff(apart, data, R.Run(script, At(pub, progress)))
    else if pending then
      && ahead <= progress < |pub.txs|
      && LeadsTo(apart, data, Changes(pub.txs[progress]), At(pub, progress + 1))
    else Converging(pub, apart, data, progress, ahead)
  }

  /** Apply carries the changes without a conflict, to that table but for `apart`. */
  ghost predicate LeadsTo(apart: set<nat>, data: Table, cs: seq<Change>, p: Table) {
    ApplyAll(data, cs).Ok? && SameOff(apart, ApplyAll(data, cs).table, p)
  }

  ghost predicate DataOk(pub: Publisher, w: World) {
    var db, hist := w.db, w.hist;
    && db.progress <= |pub.txs| && hist.ahead <= |pub.txs|
    && (hist.faithful ==>
          && Calm(pub, db.progress, hist.ahead)
          && (Current(db).Some? && !Current(db).value.step.Enabling? ==> hist.ahead <= db.progress)
          && PhaseOk(pub, db.progress, hist.ahead, hist.apart, hist.script, db.data, InReplay(w), Pending(w)))
  }

  /** A copy starts when apply has caught up with everything committed, so past every migration. */
  ghost predicate CopyPlaced(w: World) {
    var c := w.db.copy;
    c.Copying? ==>
      && (forall p :: p in w.hist.undone ==> p < c.lsn)
      && (!c.stage.Waiting? ==> c.lsn <= w.db.progress)
  }

  ghost predicate Good(pub: Publisher, w: World) {
    Sound(pub) && Safe(pub, w) && Standing(pub, w) && Logged(w) && CopyPlaced(w) && DataOk(pub, w)
  }

  // ---------------------------------------------------------------- apply

  lemma ConvergedIsEqual(pub: Publisher, apart: set<nat>, t: Table, a: nat, b: nat)
    requires b <= a <= |pub.txs|
    ensures Converging(pub, apart, t, a, b) <==> SameOff(apart, t, At(pub, a))
  {
    assert Between(pub, a, a) == [];
    assert forall k :: !Hits([], k);
  }

  lemma ConvergingApplies(pub: Publisher, apart: set<nat>, t: Table, a: nat, b: nat)
    requires Sound(pub) && a < |pub.txs| && b <= |pub.txs| && Converging(pub, apart, t, a, b) && Plain(pub.txs[a].script)
    ensures var r := ApplyAll(t, Changes(pub.txs[a])); r.Ok? && Converging(pub, apart, r.table, a + 1, b)
  {
    var cs := Changes(pub.txs[a]);
    var p, p' := At(pub, a), At(pub, a + 1);
    NextState(pub, a);
    ApplyTracksDivergence(p, t, cs);
    var t' := ApplyAll(t, cs).table;
    assert Missing(p, t) == {};
    NothingDiverges(cs);
    assert t'.Keys == p'.Keys by { assert forall k :: k in p' ==> k !in Missing(p', t'); }
    var rest := Between(pub, a + 1, Max(a + 1, b));
    assert Between(pub, a, a) == [];
    forall k | k in t' && k.relid !in apart && !Hits(rest, k) ensures t'[k] == p'[k] {
      StaleUntilHit(Stale(p, t), cs, k);
      if k in Stale(p, t) {
        assert Hits(Between(pub, a, Max(a, b)), k);
        if a < b { HitsSplit(cs, rest, k); }
      }
    }
  }

  lemma HitsSplit(a: seq<Change>, b: seq<Change>, k: Key)
    ensures Hits(a + b, k) <==> Hits(a, k) || Hits(b, k)
  {
    if Hits(a + b, k) {
      var i :| 0 <= i < |a + b| && HitBy((a + b)[i], k);
      if i < |a| { assert HitBy(a[i], k); } else { assert HitBy(b[i - |a|], k); }
    }
    HitsOfPrefix(a, b, k);
    if Hits(b, k) {
      var i :| 0 <= i < |b| && HitBy(b[i], k);
      assert (a + b)[|a| + i] == b[i];
    }
  }

  /** Apply leaves every phase but a replay for the converging one. */
  lemma ApplyPhase(pub: Publisher, a: nat, ahead: nat, apart: set<nat>, script: seq<R.Stmt>, data: Table, pending: bool)
    requires Sound(pub) && a < |pub.txs| && ahead <= |pub.txs| && PhaseOk(pub, a, ahead, apart, script, data, false, pending)
    requires pending || Plain(pub.txs[a].script)
    ensures var r := ApplyAll(data, Changes(pub.txs[a])); r.Ok? && Converging(pub, apart, r.table, a + 1, ahead)
  {
    if pending {
      ConvergedIsEqual(pub, apart, ApplyAll(data, Changes(pub.txs[a])).table, a + 1, ahead);
    } else {
      ConvergingApplies(pub, apart, data, a, ahead);
    }
  }

  /** What apply carrying one transaction does to the state DataOk speaks of. */
  lemma ApplyMoves(pub: Publisher, w: World)
    requires Safe(pub, w) && CanApply(pub, w.db, ApplyTx)
    ensures var w' := NextApply(pub, w, ApplyTx);
      && !InReplay(w) && !InReplay(w') && w'.db.progress == w.db.progress + 1 <= |pub.txs|
      && w'.hist.undone == w.hist.undone && w'.hist.ahead == w.hist.ahead && w'.hist.apart == w.hist.apart
      && Current(w'.db) == Current(w.db)
      && (w'.hist.faithful ==> w.hist.faithful && (Pending(w) || Plain(pub.txs[w.db.progress].script)))
      && ApplyAll(w.db.data, Changes(pub.txs[w.db.progress])) == Ok(w'.db.data)
  {
  }

  lemma PassedIsNotPending(pub: Publisher, w: World, w': World)
    requires Ordered(pub, w) && w'.hist.undone == w.hist.undone && w'.db.progress > w.db.progress
    ensures !Pending(w')
  {
    var undone := w.hist.undone;
    if undone != [] { assert undone[|undone| - 1] in undone; }
  }

  /** From any phase but a replay, one transaction on. */
  lemma AppliedIsOk(pub: Publisher, w: World, w': World)
    requires Sound(pub) && DataOk(pub, w) && !InReplay(w) && !InReplay(w') && !Pending(w')
    requires w.db.progress < |pub.txs| && w'.db.progress == w.db.progress + 1
    requires w'.hist.ahead == w.hist.ahead && w'.hist.apart == w.hist.apart && Current(w'.db) == Current(w.db)
    requires w'.hist.faithful ==> w.hist.faithful && (Pending(w) || Plain(pub.txs[w.db.progress].script))
    requires ApplyAll(w.db.data, Changes(pub.txs[w.db.progress])) == Ok(w'.db.data)
    ensures DataOk(pub, w')
  {
    if w'.hist.faithful {
      ApplyPhase(pub, w.db.progress, w.hist.ahead, w.hist.apart, w.hist.script, w.db.data, Pending(w));
    }
  }

  lemma ApplyKeepsGood(pub: Publisher, w: World, e: Event)
    requires Sound(pub) && Safe(pub, w) && DataOk(pub, w) && OfApply(e) && CanApply(pub, w.db, e)
    ensures DataOk(pub, NextApply(pub, w, e)) && KeepsCopy(w, NextApply(pub, w, e))
  {
    var w' := NextApply(pub, w, e);
    if e.ApplyTx? {
      ApplyMoves(pub, w);
      PassedIsNotPending(pub, w, w');
      AppliedIsOk(pub, w, w');
    } else {
      assert SameData(w, w') && Current(w'.db) == Current(w.db);
      SameStaysOk(pub, w, w');
    }
  }

  /** Where nothing the data depends on moves. */
  ghost predicate SameData(w: World, w': World) {
    && w'.db.data == w.db.data && w'.db.progress == w.db.progress
    && w'.hist.undone == w.hist.undone && w'.hist.ahead == w.hist.ahead
    && w'.hist.apart == w.hist.apart && w'.hist.faithful == w.hist.faithful
  }

  /** Where no copy and no undo moves. */
  ghost predicate KeepsCopy(w: World, w': World) {
    w'.hist.undone == w.hist.undone && w'.db.copy == w.db.copy && w'.db.progress >= w.db.progress
  }

  /** Whether a replay is under way, and whether it has yet to be undone, carry over a step. */
  ghost predicate SamePhase(w: World, w': World) {
    && (InReplay(w') <==> InReplay(w)) && (InReplay(w) ==> w'.hist.script == w.hist.script)
    && (Current(w'.db).Some? && !Current(w'.db).value.step.Enabling? ==>
          Current(w.db).Some? && !Current(w.db).value.step.Enabling?)
  }

  lemma SameStaysOk(pub: Publisher, w: World, w': World)
    requires DataOk(pub, w) && SameData(w, w')
    requires SamePhase(w, w') || (Current(w'.db) == Current(w.db) && w'.hist.script == w.hist.script)
    ensures DataOk(pub, w')
  {
  }

  // ---------------------------------------------------------------- the migration

  lemma MigrateKeepsGood(pub: Publisher, w: World, script: seq<R.Stmt>, versionOps: seq<VersionOp>, catalog: Catalog)
    requires DataOk(pub, w) && CanMigrate(w.db, script)
    ensures var w' := MigrateWorld(w, script, versionOps, catalog); DataOk(pub, w') && KeepsCopy(w, w')
  {
    if w.hist.faithful {
      var p := At(pub, w.db.progress);
      RunOff(w.hist.apart, script, w.db.data, R.Run(w.hist.script, p));
      R.RunConcat(w.hist.script, script, p);
    }
  }

  lemma NotUndoneIsNotPending(pub: Publisher, w: World)
    requires Placed(pub, w) && Current(w.db).Some? && !Current(w.db).value.step.Enabling?
    ensures !Pending(w)
  {
    var undone := w.hist.undone;
    if undone != [] { assert undone[|undone| - 1] in undone; }
  }

  lemma LoggingKeepsGood(pub: Publisher, w: World)
    requires Good(pub, w) && CanStart(pub, w.db, PersistMigrating)
    ensures DataOk(pub, NextStart(pub, w, PersistMigrating)) && KeepsCopy(w, NextStart(pub, w, PersistMigrating))
  {
    NotUndoneIsNotPending(pub, w);
    if w.hist.faithful { ConvergedIsEqual(pub, w.hist.apart, w.db.data, w.db.progress, w.hist.ahead); }
  }

  lemma StallKeepsGood(pub: Publisher, w: World, xid: nat)
    requires Good(pub, w) && CanStart(pub, w.db, Stall(xid)) && MarkerStops(pub, w.db, xid)
    ensures DataOk(pub, NextStart(pub, w, Stall(xid))) && KeepsCopy(w, NextStart(pub, w, Stall(xid)))
  {
    StallIsNew(pub, w, xid);
    assert pub.txs[xid].versionOps != [];
  }

  lemma OtherStartsKeepGood(pub: Publisher, w: World, e: Event)
    requires DataOk(pub, w) && OfStart(e) && !e.Stall? && !e.PersistMigrating? && CanStart(pub, w.db, e)
    ensures DataOk(pub, NextStart(pub, w, e)) && KeepsCopy(w, NextStart(pub, w, e))
  {
    var w' := NextStart(pub, w, e);
    assert SameData(w, w') && SamePhase(w, w');
    SameStaysOk(pub, w, w');
  }

  lemma StartKeepsGood(pub: Publisher, w: World, e: Event)
    requires Good(pub, w) && OfStart(e) && CanStart(pub, w.db, e) && Steady(pub, w, e)
    ensures DataOk(pub, NextStart(pub, w, e)) && KeepsCopy(w, NextStart(pub, w, e))
  {
    if e.Stall? { StallKeepsGood(pub, w, e.xid); }
    else if e.PersistMigrating? { LoggingKeepsGood(pub, w); }
    else { OtherStartsKeepGood(pub, w, e); }
  }

  /** The undone table leads to the publisher's next state, whatever the migration did to the shape of
      the rows: the checks that passed give what undo-then-apply asks of the two scripts, and the row
      changes settle. What was resolved joins what may differ. */
  lemma UndonePhase(pub: Publisher, w: World)
    requires Sound(pub) && Logged(w) && CanUndo(pub, w.db) && !KeysWaived(w.db.shape)
    requires var p, apart := w.db.status.detail.xid, w.hist.apart + Lifted(w.db.shape);
      && p < |pub.txs| && R.Runs(w.hist.script, At(pub, p))
      && SameOff(w.hist.apart, w.db.data, R.Run(w.hist.script, At(pub, p)))
      && SameOutside(w.db.shape, apart, w.hist.script, pub.txs[p].script) && Carried(pub, p, apart, w.hist.script)
    ensures var p := w.db.status.detail.xid;
      LeadsTo(w.hist.apart + Lifted(w.db.shape), Undo(w.db.data, w.db.shape.log), Changes(pub.txs[p]), At(pub, p + 1))
  {
    var p, apart := w.db.status.detail.xid, w.hist.apart + Lifted(w.db.shape);
    var script, cs, log := w.hist.script, Changes(pub.txs[p]), LogOf(R.ChangesOf(w.hist.script));
    UndoPassedChecks(pub, w, apart, pub.txs[p].script, At(pub, p));
    UndoThenApplyApart(apart, script, pub.txs[p].script, At(pub, p));
    UndoOff(w.hist.apart, w.db.data, R.Run(script, At(pub, p)), log);
    ApplyAllOff(w.hist.apart, Undo(w.db.data, log), Undo(R.Run(script, At(pub, p)), log), cs);
    StillOff(w.hist.apart, apart, ApplyAll(Undo(w.db.data, log), cs).table,
             ApplyAll(Undo(R.Run(script, At(pub, p)), log), cs).table, At(pub, p + 1));
  }

  lemma UndoKeepsGood(pub: Publisher, w: World)
    requires Good(pub, w) && CanUndo(pub, w.db)
    ensures DataOk(pub, UndoWorld(pub, w))
  {
    var w' := UndoWorld(pub, w);
    var p := w.db.progress;
    assert w.db.status.detail.xid == p && w'.hist.undone[|w.hist.undone|] == p;
    if w'.hist.faithful { UndonePhase(pub, w); }
  }

  // ---------------------------------------------------------------- copy-columns

  lemma CopyIsNotPending(w: World)
    requires CopyPlaced(w) && w.db.copy.Copying? && w.db.copy.stage.Off?
    ensures !Pending(w)
  {
    var undone := w.hist.undone;
    if undone != [] { assert undone[|undone| - 1] in undone; }
  }

  lemma WriteKeepsGood(pub: Publisher, w: World, b: nat)
    requires Good(pub, w) && CanCopy(pub, w.db, CopyWrite(b))
    ensures DataOk(pub, WriteWorld(pub, w, b))
  {
    var w' := WriteWorld(pub, w, b);
    CopyIsNotPending(w);
    if w'.hist.faithful {
      var c := w.db.copy;
      MergeConverges(pub, w.hist.apart, Mended(pub, w), w.db.data, w.db.progress, w.hist.ahead, b, c.relids, c.cols);
      assert w'.hist.ahead == Max(b, w.hist.ahead);
    }
  }

  lemma CopyKeepsGood(pub: Publisher, w: World, e: Event)
    requires Good(pub, w) && OfCopy(e) && CanCopy(pub, w.db, e)
    ensures DataOk(pub, NextCopy(pub, w, e))
  {
    if e.CopyWrite? {
      WriteKeepsGood(pub, w, e.snapshot);
    } else {
      var w' := NextCopy(pub, w, e);
      assert SameData(w, w') && Current(w'.db) == Current(w.db);
      SameStaysOk(pub, w, w');
    }
  }

  /** A copy keeps the table converging, and brings back the relations whose rows differed in the copied
      columns only. */
  lemma MergeConverges(pub: Publisher, apart: set<nat>, mended: set<nat>, t: Table, a: nat, ahead: nat, b: nat,
                       relids: set<nat>, cols: set<string>)
    requires Sound(pub) && a <= b <= |pub.txs| && ahead <= |pub.txs| && Converging(pub, apart, t, a, ahead)
    requires Calm(pub, a, b)
    requires forall o :: o in mended ==> o in relids && Mends(t, At(pub, a), o, cols)
    ensures Converging(pub, apart - mended, Merge(t, At(pub, b), relids, cols), a, Max(b, ahead))
  {
    var t' := Merge(t, At(pub, b), relids, cols);
    var c := Max(a, Max(b, ahead));
    forall k | k in t' && k.relid !in apart - mended && !Hits(Between(pub, a, c), k) ensures t'[k] == At(pub, a)[k] {
      BetweenSplits(pub, a, Max(a, ahead), c);
      HitsSplit(Between(pub, a, Max(a, ahead)), Between(pub, Max(a, ahead), c), k);
      BetweenSplits(pub, a, b, c);
      HitsSplit(Between(pub, a, b), Between(pub, b, c), k);
      BetweenLeads(pub, a, b);
      UnhitRowStays(At(pub, a), Between(pub, a, b), k);
      CopiedRow(t[k], At(pub, a)[k], cols);
    }
  }

  lemma CopiedRow(mine: Row, theirs: Row, cols: set<string>)
    ensures Overwrite(theirs, theirs, cols) == theirs
    ensures mine.Keys == theirs.Keys && AgreeOff(mine, theirs, cols) ==> Overwrite(mine, theirs, cols) == theirs
  {
    if mine.Keys == theirs.Keys { OverwriteRepairs(mine, theirs, cols); }
    OverwriteRepairs(theirs, theirs, cols);
  }

  // ---------------------------------------------------------------- every event

  /** The stored scope exists exactly from the migrate step on. */
  ghost predicate ScopeFits(w: World) {
    var d := Current(w.db);
    d.Some? ==>
      (d.value.step.Disabling? || d.value.step.Logging? ==> !d.value.scoped) && (Replaying(d.value) ==> d.value.scoped)
  }

  lemma HaltKeepsGood(pub: Publisher, w: World, e: Event)
    requires DataOk(pub, w) && Halts(e) && CanHalt(w.db, e) && Careful(w, e)
    ensures DataOk(pub, NextHalt(w, e)) && KeepsCopy(w, NextHalt(w, e))
  {
    assert SameData(w, NextHalt(w, e)) && SamePhase(w, NextHalt(w, e));
    SameStaysOk(pub, w, NextHalt(w, e));
  }

  lemma CarryKeepsGood(pub: Publisher, w: World, e: Event)
    requires DataOk(pub, w) && OfCarry(e) && CanCarry(w.db, e)
    ensures DataOk(pub, NextCarry(w, e)) && KeepsCopy(w, NextCarry(w, e))
  {
    assert SameData(w, NextCarry(w, e)) && SamePhase(w, NextCarry(w, e));
    SameStaysOk(pub, w, NextCarry(w, e));
  }

  lemma OperatorKeepsGood(pub: Publisher, w: World, e: Event)
    requires DataOk(pub, w) && ScopeFits(w) && OfOperator(e) && CanOperate(w.db, e)
    ensures DataOk(pub, NextOperator(w, e)) && KeepsCopy(w, NextOperator(w, e))
  {
    assert SameData(w, NextOperator(w, e)) && SamePhase(w, NextOperator(w, e));
    SameStaysOk(pub, w, NextOperator(w, e));
  }

  lemma ResolveKeepsGood(pub: Publisher, w: World, t: Target)
    requires DataOk(pub, w) && CanResolve(w.db, t)
    ensures DataOk(pub, ResolveWorld(w, t)) && KeepsCopy(w, ResolveWorld(w, t))
  {
    assert SameData(w, ResolveWorld(w, t)) && SamePhase(w, ResolveWorld(w, t));
    SameStaysOk(pub, w, ResolveWorld(w, t));
  }

  lemma KeepsDataOk(pub: Publisher, w: World, e: Event)
    requires Good(pub, w) && Can(pub, w, e) && Careful(w, e) && Steady(pub, w, e)
    ensures DataOk(pub, Next(pub, w, e))
    ensures !e.UndoCommit? && !OfCopy(e) ==> KeepsCopy(w, Next(pub, w, e))
  {
    if OfApply(e) { ApplyKeepsGood(pub, w, e); }
    else if OfStart(e) { StartKeepsGood(pub, w, e); }
    else if e.MigrateTx? { MigrateKeepsGood(pub, w, e.script, e.versionOps, e.catalog); }
    else if OfCarry(e) { CarryKeepsGood(pub, w, e); }
    else if e.UndoCommit? { UndoKeepsGood(pub, w); }
    else if Halts(e) { HaltKeepsGood(pub, w, e); }
    else if OfOperator(e) { OperatorKeepsGood(pub, w, e); }
    else if e.ResolveTarget? { ResolveKeepsGood(pub, w, e.target); }
    else { CopyKeepsGood(pub, w, e); }
  }

  // ---------------------------------------------------------------- where a copy stands

  lemma UndoKeepsCopyPlaced(pub: Publisher, w: World)
    requires Separate(w) && CanUndo(pub, w.db)
    ensures CopyPlaced(UndoWorld(pub, w))
  {
  }

  lemma CopyStepKeepsPlaced(pub: Publisher, w: World, e: Event)
    requires Ordered(pub, w) && CopyPlaced(w) && OfCopy(e) && CanCopy(pub, w.db, e)
    ensures CopyPlaced(NextCopy(pub, w, e))
  {
  }

  lemma KeepsCopyPlaced(pub: Publisher, w: World, e: Event)
    requires Ordered(pub, w) && Separate(w) && CopyPlaced(w) && Can(pub, w, e)
    requires !e.UndoCommit? && !OfCopy(e) ==> KeepsCopy(w, Next(pub, w, e))
    ensures CopyPlaced(Next(pub, w, e))
  {
    if e.UndoCommit? { UndoKeepsCopyPlaced(pub, w); }
    else if OfCopy(e) { CopyStepKeepsPlaced(pub, w, e); }
  }

  lemma KeepsGood(pub: Publisher, w: World, e: Event)
    requires Good(pub, w) && Can(pub, w, e) && Careful(w, e) && Steady(pub, w, e)
    ensures Good(pub, Next(pub, w, e))
  {
    KeepsSafe(pub, w, e);
    KeepsStanding(pub, w, e);
    KeepsLogged(pub, w, e);
    KeepsDataOk(pub, w, e);
    KeepsCopyPlaced(pub, w, e);
  }

  lemma {:induction false} GoodThroughout(pub: Publisher, w: World, es: seq<Event>)
    requires Good(pub, w) && CarefulRun(pub, w, es) && SteadyRun(pub, w, es)
    ensures Run(pub, w, es) && Good(pub, After(pub, w, es))
    decreases |es|
  {
    if es != [] {
      KeepsGood(pub, w, es[0]);
      GoodThroughout(pub, Next(pub, w, es[0]), es[1..]);
    }
  }

  lemma InitiallyGood(pub: Publisher, w: World)
    requires Initial(pub, w)
    ensures Good(pub, w)
  {
    InitiallySafe(pub, w);
    ConvergedIsEqual(pub, {}, w.db.data, 0, 0);
    NothingApart(w.db.data, At(pub, 0));
  }

  // ---------------------------------------------------------------- what it means

  /** Data equality. In every careful run in which each undone migration settles: outside a replay,
      once apply has passed the newest undone migration and the newest copied snapshot, the subscriber's
      table is the publisher's at apply's position, but for rows of relations that a resolved rewrite or
      stored default has set apart and no copy has brought back; where none has, it is the publisher's. */
  lemma SubscriberEqualsPublisher(pub: Publisher, w: World, es: seq<Event>)
    requires Initial(pub, w) && CarefulRun(pub, w, es) && SteadyRun(pub, w, es)
    ensures Run(pub, w, es)
    ensures var end := After(pub, w, es);
      end.db.progress <= |pub.txs| &&
      (end.hist.faithful && !InReplay(end) && !Pending(end) && end.hist.ahead <= end.db.progress ==>
         && SameOff(end.hist.apart, end.db.data, At(pub, end.db.progress))
         && (end.hist.apart == {} ==> end.db.data == At(pub, end.db.progress)))
  {
    InitiallyGood(pub, w);
    GoodThroughout(pub, w, es);
    var end := After(pub, w, es);
    if end.hist.faithful && !InReplay(end) && !Pending(end) && end.hist.ahead <= end.db.progress {
      ConvergedIsEqual(pub, end.hist.apart, end.db.data, end.db.progress, end.hist.ahead);
      NothingApart(end.db.data, At(pub, end.db.progress));
    }
  }

  /** And apply never meets a row conflict there: whenever the subscription is on and the marker lets
      the next transaction through, it applies, for conflicts are about keys and those never differ. */
  lemma ApplyNeverConflicts(pub: Publisher, w: World, es: seq<Event>)
    requires Initial(pub, w) && CarefulRun(pub, w, es) && SteadyRun(pub, w, es)
    ensures Run(pub, w, es)
    ensures var end := After(pub, w, es);
      && end.db.progress <= end.db.horizon <= |pub.txs|
      && (end.hist.faithful && end.db.enabled && end.db.progress < end.db.horizon && !MarkerStops(pub, end.db, end.db.progress)
          && (Pending(end) || Plain(pub.txs[end.db.progress].script))
          ==> Can(pub, end, ApplyTx))
  {
    InitiallyGood(pub, w);
    GoodThroughout(pub, w, es);
    var end := After(pub, w, es);
    if end.hist.faithful && end.db.enabled && end.db.progress < end.db.horizon && !InReplay(end) && !Pending(end)
      && Plain(pub.txs[end.db.progress].script)
    {
      ConvergingApplies(pub, end.hist.apart, end.db.data, end.db.progress, end.hist.ahead);
    }
  }

  /** What may differ comes from resolutions alone: a relation is set apart only by the undo of a migration
      for which its rewrite or a stored default of its was resolved, and comes back only by a copy of it,
      when its rows differed in nothing but the copied columns. */
  lemma ApartByResolution(pub: Publisher, w: World, e: Event, o: nat)
    requires Can(pub, w, e)
    ensures o in Next(pub, w, e).hist.apart && o !in w.hist.apart ==> e.UndoCommit? && o in Lifted(w.db.shape)
    ensures o !in Next(pub, w, e).hist.apart && o in w.hist.apart ==>
      && e.CopyWrite? && w.db.copy.Copying? && o in w.db.copy.relids && w.db.progress <= |pub.txs|
      && Mends(w.db.data, At(pub, w.db.progress), o, w.db.copy.cols)
  {
    if OfCopy(e) { CopyMends(pub, w, e, o); }
    else if !e.UndoCommit? { OthersKeepApart(pub, w, e); }
  }

  lemma OthersKeepApart(pub: Publisher, w: World, e: Event)
    requires Can(pub, w, e) && !OfCopy(e) && !e.UndoCommit?
    ensures Next(pub, w, e).hist.apart == w.hist.apart
  {
  }

  lemma CopyMends(pub: Publisher, w: World, e: Event, o: nat)
    requires OfCopy(e) && CanCopy(pub, w.db, e)
    ensures NextCopy(pub, w, e).hist.apart <= w.hist.apart
    ensures o in w.hist.apart && o !in NextCopy(pub, w, e).hist.apart ==>
      e.CopyWrite? && o in w.db.copy.relids && Mends(w.db.data, At(pub, w.db.progress), o, w.db.copy.cols)
  {
  }

  /** Before that, in the middle of copied columns, the table still leads to the publisher's. */
  lemma {:induction false} ConvergesLater(pub: Publisher, apart: set<nat>, t: Table, a: nat, b: nat, c: nat)
    requires Sound(pub) && a <= c <= |pub.txs| && b <= c && Converging(pub, apart, t, a, b) && Calm(pub, a, c)
    ensures LeadsTo(apart, t, Between(pub, a, c), At(pub, c))
    decreases c - a
  {
    if a == c {
      ConvergedIsEqual(pub, apart, t, a, b);
    } else {
      CalmStep(pub, a, c);
      ConvergingApplies(pub, apart, t, a, b);
      var t' := ApplyAll(t, Changes(pub.txs[a])).table;
      ConvergesLater(pub, apart, t', a + 1, b, c);
      ApplyAllConcat(t, Changes(pub.txs[a]), Between(pub, a + 1, c));
    }
  }

  lemma CalmStep(pub: Publisher, a: nat, c: nat)
    requires Sound(pub) && a < c <= |pub.txs| && Calm(pub, a, c)
    ensures Plain(pub.txs[a].script) && Calm(pub, a + 1, c)
  {
  }
}
