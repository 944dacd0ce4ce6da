/** Two records that stay honest through crashes: the one-shot armings, and the owed copies. */
module Ledger {
  import opened Common
  import opened UndoApply
  import opened ReplayShape
  import opened StallMarker
  import opened Protocol
  import opened ExactlyOnce
  import opened LogComplete
  import R = Rewrites

  // ---------------------------------------------------------------- armings

  lemma {:induction false} ArmLoggedIsOneShot(marks: seq<Mark>, armed: set<VersionRow>, log: seq<LogEntry>)
    requires OneShot(marks, armed)
    ensures OneShot(marks + ArmLogged(armed, log), armed + VersionsLogged(log))
    decreases |log|
  {
    if log == [] {
      assert marks + [] == marks && armed + VersionsLogged(log) == armed;
    } else {
      assert log == [log[0]] + log[1..];
      VersionsLoggedSplits([log[0]], log[1..]);
      if log[0].VersionInsert? {
        var v := log[0].version;
        assert VersionsLogged([log[0]]) == {v} by { assert log[0] in [log[0]]; }
        OneShotArm(marks, armed, v);
        ArmLoggedIsOneShot(marks + Arm(armed, v), armed + {v}, log[1..]);
        assert marks + Arm(armed, v) + ArmLogged(armed + {v}, log[1..]) == marks + ArmLogged(armed, log);
        assert armed + {v} + VersionsLogged(log[1..]) == armed + VersionsLogged(log);
      } else {
        assert VersionsLogged([log[0]]) == {};
        ArmLoggedIsOneShot(marks, armed, log[1..]);
        assert VersionsLogged(log[1..]) == VersionsLogged(log);
      }
    }
  }

  ghost predicate Marked(w: World) { OneShot(w.hist.marks, w.db.marker.armed) }

  lemma UndoKeepsMarked(pub: Publisher, w: World)
    requires Marked(w) && CanUndo(pub, w.db)
    ensures Marked(UndoWorld(pub, w))
  {
    ArmLoggedIsOneShot(w.hist.marks, w.db.marker.armed, w.db.shape.log);
  }

  lemma ApplyKeepsMarked(pub: Publisher, w: World, e: Event)
    requires Marked(w) && OfApply(e) && CanApply(pub, w.db, e)
    ensures Marked(NextApply(pub, w, e))
  {
    if e.ApplyTx? { OneShotApply(w.hist.marks, w.db.marker, pub.txs[w.db.progress].versionOps); }
  }

  lemma OperatorKeepsMarked(w: World, e: Event)
    requires Marked(w) && OfOperator(e) && CanOperate(w.db, e)
    ensures Marked(NextOperator(w, e))
  {
    if e.Seed? { OneShotArm(w.hist.marks, w.db.marker.armed, e.row); }
  }

  ghost predicate SameMarks(w: World, w': World) { w'.hist.marks == w.hist.marks && w'.db.marker.armed == w.db.marker.armed }

  lemma CopyKeepsMarks(pub: Publisher, w: World, e: Event)
    requires OfCopy(e) && CanCopy(pub, w.db, e)
    ensures SameMarks(w, NextCopy(pub, w, e))
  {
  }

  lemma OthersKeepMarks(pub: Publisher, w: World, e: Event)
    requires Can(pub, w, e) && !OfApply(e) && !OfOperator(e) && !e.UndoCommit? && !OfCopy(e)
    ensures SameMarks(w, Next(pub, w, e))
  {
  }

  /** Only apply, the operator's seed and the undo touch armings, and each keeps them one-shot; an
      apply transaction that fails changes nothing. */
  lemma KeepsMarked(pub: Publisher, w: World, e: Event)
    requires Marked(w) && Can(pub, w, e)
    ensures Marked(Next(pub, w, e))
  {
    if OfApply(e) { ApplyKeepsMarked(pub, w, e); }
    else if OfOperator(e) { OperatorKeepsMarked(w, e); }
    else if e.UndoCommit? { UndoKeepsMarked(pub, w); }
    else if OfCopy(e) { CopyKeepsMarks(pub, w, e); }
    else { OthersKeepMarks(pub, w, e); }
  }

  lemma {:induction false} MarkedThroughout(pub: Publisher, w: World, es: seq<Event>)
    requires Marked(w) && Run(pub, w, es)
    ensures Marked(After(pub, w, es))
    decreases |es|
  {
    if es != [] {
      KeepsMarked(pub, w, es[0]);
      MarkedThroughout(pub, Next(pub, w, es[0]), es[1..]);
    }
  }

  /** Over any run, committed passes of a version plus its outstanding arming are its effective
      armings, and two passes have an arming between them. */
  lemma ArmingIsOneShot(pub: Publisher, w: World, es: seq<Event>, v: VersionRow)
    requires Initial(pub, w) && Run(pub, w, es)
    ensures var marks := After(pub, w, es).hist.marks; var armed := After(pub, w, es).db.marker.armed;
      && Count(marks, Through(v)) + (if v in armed then 1 else 0) == Count(marks, Armed(v))
      && (forall i: nat, j: nat :: i < j < |marks| && marks[i] == Through(v) && marks[j] == Through(v) ==>
            exists k :: i < k < j && marks[k] == Armed(v))
  {
    MarkedThroughout(pub, w, es);
    var end := After(pub, w, es);
    ArmingsConserved(end.hist.marks, end.db.marker.armed, v);
    forall i: nat, j: nat | i < j < |end.hist.marks| && end.hist.marks[i] == Through(v) && end.hist.marks[j] == Through(v)
      ensures exists k :: i < k < j && end.hist.marks[k] == Armed(v)
    {
      ArmingBetweenPasses(end.hist.marks, end.db.marker.armed, i, j, v);
    }
  }

  // ---------------------------------------------------------------- owed copies

  /** A debt whose migration has not been carried through. */
  ghost predicate Unsettled(w: World, d: Debt) { d in w.hist.debts && d.xid !in w.hist.undone }

  ghost predicate AllSettled(w: World) { forall d :: d in w.hist.debts ==> d.xid in w.hist.undone }

  /** Every debt is on the ledger. While one is unsettled the subscription is off and stays off: the
      migration under way is the debt's own, or it began with the subscription off. So no copy runs then,
      and no halt has a subscription to turn back on. */
  ghost predicate Honest(w: World) {
    var db, hist := w.db, w.hist;
    && (forall d :: d in hist.debts ==> d.key in db.owed)
    && (forall d :: Unsettled(w, d) ==>
          && !db.enabled
          && (Current(db).Some? ==> OwnCarry(Current(db).value, d) || !Current(db).value.wasEnabled))
    && (db.copy.Copying? ==> AllSettled(w))
    && (db.status.Halted? && db.status.disabledByHalt ==> AllSettled(w))
    && (db.copy.Copying? && db.copy.stage.Written? ==> forall d :: d in hist.debts ==> !Covers(db.copy, d.key))
  }

  predicate OwnCarry(now: Detail, d: Debt) { now.xid == d.xid && !now.step.Enabling? }

  lemma ResolveKeepsHonest(pub: Publisher, w: World, t: Target)
    requires Safe(pub, w) && Honest(w) && CanResolve(w.db, t)
    ensures Honest(ResolveWorld(w, t))
  {
    var w' := ResolveWorld(w, t);
    assert !w.db.enabled && !w.db.status.disabledByHalt;
    forall d | d in w'.hist.debts ensures d.key in w'.db.owed {}
    assert w'.db.status == w.db.status && w'.db.copy == w.db.copy && w'.db.enabled == w.db.enabled;
    forall d | Unsettled(w', d) ensures OwnCarry(Current(w'.db).value, d) || !Current(w'.db).value.wasEnabled {
      assert d in w.hist.debts ==> Unsettled(w, d);
    }
  }

  lemma UndoKeepsHonest(pub: Publisher, w: World)
    requires Safe(pub, w) && Honest(w) && CanUndo(pub, w.db)
    ensures Honest(UndoWorld(pub, w))
  {
    var w' := UndoWorld(pub, w);
    var xid := w.db.status.detail.xid;
    assert w'.hist.undone[|w.hist.undone|] == xid && forall p :: p in w.hist.undone ==> p in w'.hist.undone;
    forall d | Unsettled(w', d) ensures !w'.db.enabled && !Current(w'.db).value.wasEnabled {
      assert Unsettled(w, d) && d.xid != xid;
    }
  }

  lemma IdleIsSettled(w: World)
    requires Honest(w) && w.db.enabled
    ensures AllSettled(w)
  {
    forall d | d in w.hist.debts ensures d.xid in w.hist.undone { assert !Unsettled(w, d); }
  }

  lemma CopyKeepsHonest(pub: Publisher, w: World, e: Event)
    requires Separate(w) && Honest(w) && OfCopy(e) && CanCopy(pub, w.db, e)
    ensures Honest(NextCopy(pub, w, e))
  {
    var w' := NextCopy(pub, w, e);
    assert w'.hist.debts <= w.hist.debts && w'.hist.undone == w.hist.undone;
    if e.CopyBegin? { IdleIsSettled(w); }
    assert AllSettled(w) && AllSettled(w');
  }

  /** The same debts, and no debt is settled or unsettled. */
  ghost predicate SameDebts(w: World, w': World) {
    && w'.hist.debts == w.hist.debts && w'.hist.undone == w.hist.undone
    && w'.db.owed == w.db.owed && w'.db.copy == w.db.copy
  }

  lemma ApplyKeepsHonest(pub: Publisher, w: World, e: Event)
    requires Honest(w) && OfApply(e) && CanApply(pub, w.db, e)
    ensures Honest(NextApply(pub, w, e))
  {
    var w' := NextApply(pub, w, e);
    assert SameDebts(w, w') && forall d :: Unsettled(w', d) <==> Unsettled(w, d);
  }

  lemma StartKeepsHonest(pub: Publisher, w: World, e: Event)
    requires Safe(pub, w) && Honest(w) && OfStart(e) && CanStart(pub, w.db, e)
    ensures Honest(NextStart(pub, w, e))
  {
    var w' := NextStart(pub, w, e);
    assert SameDebts(w, w') && forall d :: Unsettled(w', d) <==> Unsettled(w, d);
  }

  lemma MigrateKeepsHonest(w: World, script: seq<R.Stmt>, versionOps: seq<VersionOp>, catalog: Catalog)
    requires Honest(w) && CanMigrate(w.db, script)
    ensures Honest(MigrateWorld(w, script, versionOps, catalog))
  {
    var w' := MigrateWorld(w, script, versionOps, catalog);
    assert SameDebts(w, w') && forall d :: Unsettled(w', d) <==> Unsettled(w, d);
  }

  lemma CarryKeepsHonest(w: World, e: Event)
    requires Honest(w) && OfCarry(e) && CanCarry(w.db, e)
    ensures Honest(NextCarry(w, e))
  {
    var w' := NextCarry(w, e);
    assert SameDebts(w, w') && forall d :: Unsettled(w', d) <==> Unsettled(w, d);
  }

  lemma HaltKeepsHonest(w: World, e: Event)
    requires Honest(w) && Halts(e) && CanHalt(w.db, e)
    ensures Honest(NextHalt(w, e))
  {
    var w' := NextHalt(w, e);
    assert SameDebts(w, w') && forall d :: Unsettled(w', d) <==> Unsettled(w, d);
    if w.db.enabled { IdleIsSettled(w); }
  }

  lemma OperatorKeepsHonest(w: World, e: Event)
    requires Honest(w) && OfOperator(e) && CanOperate(w.db, e)
    ensures Honest(NextOperator(w, e))
  {
    var w' := NextOperator(w, e);
    assert SameDebts(w, w') && forall d :: Unsettled(w', d) <==> Unsettled(w, d);
  }

  lemma KeepsHonest(pub: Publisher, w: World, e: Event)
    requires Safe(pub, w) && Honest(w) && Can(pub, w, e)
    ensures Honest(Next(pub, w, e))
  {
    if OfApply(e) { ApplyKeepsHonest(pub, w, e); }
    else if OfStart(e) { StartKeepsHonest(pub, w, e); }
    else if e.MigrateTx? { MigrateKeepsHonest(w, e.script, e.versionOps, e.catalog); }
    else if OfCarry(e) { CarryKeepsHonest(w, e); }
    else if e.UndoCommit? { UndoKeepsHonest(pub, w); }
    else if Halts(e) { HaltKeepsHonest(w, e); }
    else if OfOperator(e) { OperatorKeepsHonest(w, e); }
    else if e.ResolveTarget? { ResolveKeepsHonest(pub, w, e.target); }
    else { CopyKeepsHonest(pub, w, e); }
  }

  lemma {:induction false} HonestThroughout(pub: Publisher, w: World, es: seq<Event>)
    requires Safe(pub, w) && Honest(w) && Run(pub, w, es)
    ensures Honest(After(pub, w, es))
    decreases |es|
  {
    if es != [] {
      KeepsSafe(pub, w, es[0]);
      KeepsHonest(pub, w, es[0]);
      HonestThroughout(pub, Next(pub, w, es[0]), es[1..]);
    }
  }

  /** No owed entry is ever missing, on any run: a debt leaves the ledger only after a copy that covered
      it, and that copy ran while the follower was idle, after the debt's migration had been carried
      through. */
  lemma DebtsAreOwed(pub: Publisher, w: World, es: seq<Event>)
    requires Initial(pub, w) && Run(pub, w, es)
    ensures var end := After(pub, w, es);
      && (forall d :: d in end.hist.debts ==> d.key in end.db.owed)
      && (end.db.copy.Copying? ==> end.db.status.Idle? && AllSettled(end))
      && ((exists d :: Unsettled(end, d)) ==> !end.db.enabled)
  {
    InitiallySafe(pub, w);
    HonestThroughout(pub, w, es);
    SafeThroughout(pub, w, es);
  }

  /** A debt appears only when an operator resolves a case that leaves rows to copy. */
  lemma DebtsAppear(pub: Publisher, w: World, e: Event, d: Debt)
    requires Can(pub, w, e) && d in Next(pub, w, e).hist.debts && d !in w.hist.debts
    ensures e.ResolveTarget? && w.db.status.Halted? && OwedBy(w.db.status.named.kase, e.target) == Some(d.key)
  {
    if OfCopy(e) { CopySettles(pub, w, e, d); }
  }

  lemma CopySettles(pub: Publisher, w: World, e: Event, d: Debt)
    requires OfCopy(e) && CanCopy(pub, w.db, e)
    ensures d in NextCopy(pub, w, e).hist.debts <==>
      d in w.hist.debts && !(e.CopyWrite? && Covers(w.db.copy, d.key) && d.xid in w.hist.undone)
  {
  }

  lemma OthersKeepDebts(pub: Publisher, w: World, e: Event)
    requires Can(pub, w, e) && !OfCopy(e)
    ensures w.hist.debts <= Next(pub, w, e).hist.debts
  {
  }

  /** It goes exactly when a copy covering it commits, after its migration was carried through. */
  lemma DebtsGo(pub: Publisher, w: World, e: Event, d: Debt)
    requires Separate(w) && Honest(w) && Can(pub, w, e) && d in w.hist.debts
    ensures d !in Next(pub, w, e).hist.debts <==> e.CopyWrite? && Covers(w.db.copy, d.key)
    ensures e.CopyWrite? ==> w.db.status.Idle? && d.xid in w.hist.undone
  {
    if OfCopy(e) { CopySettles(pub, w, e, d); } else { OthersKeepDebts(pub, w, e); }
  }

  /** Somewhere in the run a copy that covers the debt commits, on an idle follower that has carried
      the debt's migration through. */
  ghost predicate CopiedOn(pub: Publisher, w: World, es: seq<Event>, d: Debt)
    requires Run(pub, w, es)
    decreases |es|
  {
    es != [] && (
      || (es[0].CopyWrite? && w.db.status.Idle? && Covers(w.db.copy, d.key) && d.xid in w.hist.undone)
      || CopiedOn(pub, Next(pub, w, es[0]), es[1..], d))
  }

  lemma {:induction false} DebtStaysUntilCopied(pub: Publisher, w: World, es: seq<Event>, d: Debt)
    requires Safe(pub, w) && Honest(w) && Run(pub, w, es) && d in w.hist.debts
    ensures d in After(pub, w, es).hist.debts || CopiedOn(pub, w, es, d)
    decreases |es|
  {
    if es != [] {
      var w' := Next(pub, w, es[0]);
      DebtsGo(pub, w, es[0], d);
      KeepsSafe(pub, w, es[0]);
      KeepsHonest(pub, w, es[0]);
      if d in w'.hist.debts { DebtStaysUntilCopied(pub, w', es[1..], d); }
    }
  }

  /** The ledger over every run: once a resolve has owed an entry, at every later point of the run
      the entry is there, or a copy covering it has committed since, after that resolve's migration had
      been carried through to idle. */
  lemma ClearedMeansCopied(pub: Publisher, w: World, before: seq<Event>, target: Target, since: seq<Event>)
    requires Initial(pub, w) && Run(pub, w, before) && Can(pub, After(pub, w, before), ResolveTarget(target))
    requires Run(pub, Next(pub, After(pub, w, before), ResolveTarget(target)), since)
    ensures var mid := After(pub, w, before);
      var next := Next(pub, mid, ResolveTarget(target));
      match OwedBy(mid.db.status.named.kase, target)
      case None => true
      case Some(k) =>
        k in After(pub, next, since).db.owed || CopiedOn(pub, next, since, Debt(k, mid.db.status.prior.value.xid))
  {
    var mid, e := After(pub, w, before), ResolveTarget(target);
    var next := Next(pub, mid, e);
    InitiallySafe(pub, w);
    SafeThroughout(pub, w, before);
    HonestThroughout(pub, w, before);
    KeepsSafe(pub, mid, e);
    KeepsHonest(pub, mid, e);
    HonestThroughout(pub, next, since);
    match OwedBy(mid.db.status.named.kase, target)
    case None =>
    case Some(k) => DebtStaysUntilCopied(pub, next, since, Debt(k, mid.db.status.prior.value.xid));
  }
}
