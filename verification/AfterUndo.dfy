/** The stall marker over runs: how far apply gets, and what happens between the undo of a migration and
    the moment apply has passed it. */
module AfterUndo {
  import opened Common
  import opened UndoApply
  import opened ReplayShape
  import opened StallMarker
  import opened Protocol
  import opened ExactlyOnce
  import opened LogComplete
  import R = Rewrites

  // ---------------------------------------------------------------- how far apply gets

  /** The version rows of the transactions from position `a` on. */
  function OpsFrom(pub: Publisher, a: nat): seq<seq<VersionOp>>
    requires a <= |pub.txs|
  {
    seq(|pub.txs| - a, i requires 0 <= i < |pub.txs| - a => pub.txs[a + i].versionOps)
  }

  /** The events that change version rows or arm versions, apply's own aside. */
  predicate Rearms(e: Event) { e.Seed? || e.MigrateTx? || e.UndoCommit? }

  lemma StartKeepsMarker(pub: Publisher, w: World, e: Event)
    requires OfStart(e) && CanStart(pub, w.db, e)
    ensures NextStart(pub, w, e).db.marker == w.db.marker && NextStart(pub, w, e).db.progress == w.db.progress
  {
  }

  lemma QuietKeepsMarker(pub: Publisher, w: World, e: Event)
    requires Can(pub, w, e) && !Rearms(e) && !e.ApplyTx? && !OfStart(e) && !OfCopy(e)
    ensures Next(pub, w, e).db.marker == w.db.marker && Next(pub, w, e).db.progress == w.db.progress
  {
  }

  lemma CopyKeepsMarker(pub: Publisher, w: World, e: Event)
    requires OfCopy(e) && CanCopy(pub, w.db, e)
    ensures NextCopy(pub, w, e).db.marker == w.db.marker && NextCopy(pub, w, e).db.progress == w.db.progress
  {
  }

  lemma OthersKeepMarker(pub: Publisher, w: World, e: Event)
    requires Can(pub, w, e) && !Rearms(e) && !e.ApplyTx?
    ensures Next(pub, w, e).db.marker == w.db.marker && Next(pub, w, e).db.progress == w.db.progress
  {
    if OfCopy(e) { CopyKeepsMarker(pub, w, e); }
    else if OfStart(e) { StartKeepsMarker(pub, w, e); }
    else { QuietKeepsMarker(pub, w, e); }
  }

  lemma ApplyMovesMarker(pub: Publisher, w: World)
    requires CanApply(pub, w.db, ApplyTx)
    ensures var w' := NextApply(pub, w, ApplyTx);
      && ApplyOps(w.db.marker, pub.txs[w.db.progress].versionOps).Passed?
      && w'.db.marker == ApplyOps(w.db.marker, pub.txs[w.db.progress].versionOps).marker
      && w'.db.progress == w.db.progress + 1 <= |pub.txs|
  {
  }

  /** Where the marker has let apply get to from `m` and position `a`. */
  ghost predicate Reached(pub: Publisher, m: Marker, a: nat, db: Db)
    requires a <= |pub.txs|
  {
    var n := db.progress - a;
    && 0 <= n <= ApplyPrefix(m, OpsFrom(pub, a)).count <= |pub.txs| - a
    && db.marker == ApplyPrefix(m, OpsFrom(pub, a)[..n]).marker
  }

  lemma ReachedAtOnce(pub: Publisher, db: Db)
    requires db.progress <= |pub.txs|
    ensures Reached(pub, db.marker, db.progress, db)
  {
    PrefixStopsAtStall(db.marker, OpsFrom(pub, db.progress));
    assert OpsFrom(pub, db.progress)[..0] == [];
  }

  lemma {:induction false} ReachedThroughout(pub: Publisher, w: World, es: seq<Event>)
    requires w.db.progress <= |pub.txs| && Run(pub, w, es) && forall i :: 0 <= i < |es| ==> !Rearms(es[i])
    ensures Reached(pub, w.db.marker, w.db.progress, After(pub, w, es).db)
    decreases |es|
  {
    if es == [] {
      ReachedAtOnce(pub, w.db);
    } else {
      var w' := Next(pub, w, es[0]);
      assert forall i :: 0 <= i < |es[1..]| ==> es[1..][i] == es[i + 1];
      if es[0].ApplyTx? { ApplyMovesMarker(pub, w); } else { OthersKeepMarker(pub, w, es[0]); }
      ReachedThroughout(pub, w', es[1..]);
      if es[0].ApplyTx? {
        ReachedOneLater(pub, w.db.marker, w.db.progress, w'.db.marker, After(pub, w', es[1..]).db);
      }
    }
  }

  lemma ReachedOneLater(pub: Publisher, m: Marker, a: nat, m': Marker, db: Db)
    requires a < |pub.txs| && ApplyOps(m, pub.txs[a].versionOps).Passed?
    requires m' == ApplyOps(m, pub.txs[a].versionOps).marker && Reached(pub, m', a + 1, db)
    ensures Reached(pub, m, a, db)
  {
    var all, rest := OpsFrom(pub, a), OpsFrom(pub, a + 1);
    assert all[1..] == rest && all[0] == pub.txs[a].versionOps;
    var n := db.progress - a;
    assert all[..n][0] == all[0] && all[..n][1..] == rest[..n - 1];
  }

  lemma PrefixStopsExactly(m: Marker, all: seq<seq<VersionOp>>, n: nat)
    requires n <= ApplyPrefix(m, all).count && n < |all|
    ensures var at := ApplyPrefix(m, all[..n]).marker;
      && (Stops(at, all[n]) <==> n == ApplyPrefix(m, all).count)
      && (n == ApplyPrefix(m, all).count ==> at == ApplyPrefix(m, all).marker)
  {
    PrefixStopsAtStall(m, all);
  }

  lemma ReachedStops(pub: Publisher, m: Marker, a: nat, db: Db)
    requires a <= |pub.txs| && Reached(pub, m, a, db) && db.progress < |pub.txs|
    ensures var p := ApplyPrefix(m, OpsFrom(pub, a));
      && (Stops(db.marker, pub.txs[db.progress].versionOps) <==> db.progress == a + p.count)
      && (MarkerStops(pub, db, db.progress) <==> db.progress == a + p.count)
      && (db.progress == a + p.count ==> db.marker == p.marker)
  {
    var all, n := OpsFrom(pub, a), db.progress - a;
    assert all[n] == pub.txs[db.progress].versionOps;
    PrefixStopsExactly(m, all, n);
    RaisesExactly(db.marker, all[n]);
  }

  /** While nothing arms a version or changes a version row locally, apply gets no further than the
      committed prefix: it stops at the first transaction that comes to write a version row that is not
      armed, or whose key is taken, keeps the armings that transaction would have used, and can carry
      nothing until something is replayed. */
  lemma ApplyStopsAtStall(pub: Publisher, w: World, es: seq<Event>)
    requires w.db.progress <= |pub.txs| && Run(pub, w, es) && forall i :: 0 <= i < |es| ==> !Rearms(es[i])
    ensures var p := ApplyPrefix(w.db.marker, OpsFrom(pub, w.db.progress));
      var end := After(pub, w, es);
      var stop := w.db.progress + p.count;
      && w.db.progress <= end.db.progress <= stop <= |pub.txs|
      && (end.db.progress < |pub.txs| ==>
            (Stops(end.db.marker, pub.txs[end.db.progress].versionOps) <==> end.db.progress == stop))
      && (end.db.progress == stop < |pub.txs| ==> end.db.marker == p.marker && !Can(pub, end, ApplyTx))
  {
    ReachedThroughout(pub, w, es);
    var end := After(pub, w, es);
    if end.db.progress < |pub.txs| { ReachedStops(pub, w.db.marker, w.db.progress, end.db); }
  }

  // ---------------------------------------------------------------- after the undo

  /** Nothing is undone or under way unless apply has reported an error. */
  ghost predicate Erred(w: World) { w.hist.undone != [] || Current(w.db).Some? ==> w.db.lastError.Some? }

  lemma StartKeepsErred(pub: Publisher, w: World, e: Event)
    requires Erred(w) && OfStart(e) && CanStart(pub, w.db, e)
    ensures Erred(NextStart(pub, w, e))
  {
  }

  lemma UndoKeepsErred(pub: Publisher, w: World)
    requires Erred(w) && CanUndo(pub, w.db)
    ensures Erred(UndoWorld(pub, w))
  {
  }

  lemma CarryKeepsErred(w: World, e: Event)
    requires Erred(w) && OfCarry(e) && CanCarry(w.db, e)
    ensures Erred(NextCarry(w, e))
  {
  }

  lemma HaltKeepsErred(w: World, e: Event)
    requires Erred(w) && Halts(e) && CanHalt(w.db, e)
    ensures Erred(NextHalt(w, e))
  {
  }

  lemma ApplyKeepsErred(pub: Publisher, w: World, e: Event)
    requires Erred(w) && OfApply(e) && CanApply(pub, w.db, e)
    ensures Erred(NextApply(pub, w, e))
  {
  }

  lemma OperatorKeepsErred(w: World, e: Event)
    requires Erred(w) && OfOperator(e) && CanOperate(w.db, e)
    ensures Erred(NextOperator(w, e))
  {
  }

  lemma MigrateKeepsErred(w: World, script: seq<R.Stmt>, versionOps: seq<VersionOp>, catalog: Catalog)
    requires Erred(w) && CanMigrate(w.db, script)
    ensures Erred(MigrateWorld(w, script, versionOps, catalog))
  {
  }

  lemma ResolveKeepsErred(w: World, t: Target)
    requires Erred(w) && CanResolve(w.db, t)
    ensures Erred(ResolveWorld(w, t))
  {
  }

  lemma CopyKeepsErred(pub: Publisher, w: World, e: Event)
    requires Erred(w) && OfCopy(e) && CanCopy(pub, w.db, e)
    ensures Erred(NextCopy(pub, w, e))
  {
  }

  lemma KeepsErred(pub: Publisher, w: World, e: Event)
    requires Erred(w) && Can(pub, w, e)
    ensures Erred(Next(pub, w, e))
  {
    if OfApply(e) { ApplyKeepsErred(pub, w, e); }
    else if OfStart(e) { StartKeepsErred(pub, w, e); }
    else if e.MigrateTx? { MigrateKeepsErred(w, e.script, e.versionOps, e.catalog); }
    else if OfCarry(e) { CarryKeepsErred(w, e); }
    else if e.UndoCommit? { UndoKeepsErred(pub, w); }
    else if Halts(e) { HaltKeepsErred(w, e); }
    else if OfOperator(e) { OperatorKeepsErred(w, e); }
    else if e.ResolveTarget? { ResolveKeepsErred(w, e.target); }
    else { CopyKeepsErred(pub, w, e); }
  }

  lemma {:induction false} ErredThroughout(pub: Publisher, w: World, es: seq<Event>)
    requires Erred(w) && Run(pub, w, es)
    ensures Erred(After(pub, w, es))
    decreases |es|
  {
    if es != [] {
      KeepsErred(pub, w, es[0]);
      ErredThroughout(pub, Next(pub, w, es[0]), es[1..]);
    }
  }

  /** The undo of the transaction apply stands at has committed, and no other replay has begun. */
  ghost predicate AwaitsPass(w: World, p: nat) {
    && w.db.progress == p && Last(w.hist.undone, p) && w.db.lastError.Some?
    && (Current(w.db).Some? ==> Current(w.db).value.step.Enabling?)
  }

  lemma UndoneWaits(pub: Publisher, w: World)
    requires Safe(pub, w) && Erred(w) && CanUndo(pub, w.db) && w.db.status.detail.xid == w.db.progress
    ensures AwaitsPass(UndoWorld(pub, w), w.db.status.detail.xid)
  {
    assert UndoWorld(pub, w).hist.undone[|w.hist.undone|] == w.db.status.detail.xid;
  }

  lemma WaitingRearmsNot(pub: Publisher, w: World, e: Event, p: nat)
    requires Safe(pub, w) && AwaitsPass(w, p) && Can(pub, w, e)
    ensures !Rearms(e) && !e.Stall? && !e.ResolveTarget?
  {
    assert w.hist.undone[|w.hist.undone| - 1] in w.hist.undone;
    if e.Stall? { StallIsNew(pub, w, e.xid); }
  }

  lemma CopyKeepsWaiting(pub: Publisher, w: World, e: Event, p: nat)
    requires AwaitsPass(w, p) && OfCopy(e) && CanCopy(pub, w.db, e)
    ensures AwaitsPass(NextCopy(pub, w, e), p)
  {
  }

  lemma KeepsWaiting(pub: Publisher, w: World, e: Event, p: nat)
    requires Safe(pub, w) && AwaitsPass(w, p) && Can(pub, w, e) && !e.ApplyTx? && !OfCopy(e)
    requires !Rearms(e) && !e.Stall? && !e.ResolveTarget?
    ensures AwaitsPass(Next(pub, w, e), p)
  {
  }

  /** From the undo until apply has passed the transaction, the marker stays as the undo left it, and
      nothing is replayed or armed. */
  lemma {:induction false} MarkerWaits(pub: Publisher, w: World, es: seq<Event>, p: nat)
    requires Safe(pub, w) && AwaitsPass(w, p) && Run(pub, w, es) && After(pub, w, es).db.progress == p
    ensures After(pub, w, es).db.marker == w.db.marker && Last(After(pub, w, es).hist.undone, p)
    decreases |es|
  {
    if es != [] {
      var e, w' := es[0], Next(pub, w, es[0]);
      KeepsSafe(pub, w, e);
      WaitingRearmsNot(pub, w, e, p);
      if e.ApplyTx? {
        ApplyMovesMarker(pub, w);
        ProgressGrows(pub, w', es[1..]);
      } else {
        OthersKeepMarker(pub, w, e);
        if OfCopy(e) { CopyKeepsWaiting(pub, w, e, p); } else { KeepsWaiting(pub, w, e, p); }
        MarkerWaits(pub, w', es[1..], p);
      }
    }
  }

  lemma RearmKeepsProgress(pub: Publisher, w: World, e: Event)
    requires Can(pub, w, e) && Rearms(e)
    ensures Next(pub, w, e).db.progress == w.db.progress
  {
  }

  lemma {:induction false} ProgressGrows(pub: Publisher, w: World, es: seq<Event>)
    requires Run(pub, w, es)
    ensures After(pub, w, es).db.progress >= w.db.progress
    decreases |es|
  {
    if es != [] {
      if Rearms(es[0]) { RearmKeepsProgress(pub, w, es[0]); }
      else if !es[0].ApplyTx? { OthersKeepMarker(pub, w, es[0]); }
      else { ApplyMovesMarker(pub, w); }
      ProgressGrows(pub, Next(pub, w, es[0]), es[1..]);
    }
  }

  /** What the replay did to the version rows against what the publisher's transaction did: the same rows
      inserted, and no update to a version that is or will be armed. */
  ghost predicate Comparable(pub: Publisher, w: World, p: nat) {
    p < |pub.txs| &&
    var ops := pub.txs[p].versionOps;
    && w.hist.stamps == Stamped(ops)
    && forall i :: 0 <= i < |ops| && ops[i].Restamp? ==> ops[i].row !in w.db.marker.armed + Stamped(ops)
  }

  /** What `end` shows of the migration undone in `mid`, as long as apply has not passed it. */
  ghost predicate Reapplies(pub: Publisher, mid: World, end: Db, p: nat)
    requires p < |pub.txs|
  {
    var ops := pub.txs[p].versionOps;
    && (MarkerStops(pub, end, p) <==> !(Once(ops) && AllSkipped(mid.db.marker.rows - Stamped(ops), ops)))
    && (!MarkerStops(pub, end, p) ==>
          ApplyOps(end.marker, ops).marker ==
            Marker(RowsLeft(mid.db.marker.rows - Stamped(ops), ops), mid.db.marker.armed - Stamped(ops)))
  }

  /** Re-application over runs. A run comes to the undo of a migration, and goes on in any way. Until apply
      has passed the migration, the marker stops it if and only if it inserts a version twice or one of
      its updates finds its row, among the rows the replay left and the undo kept or because the
      transaction inserts that row itself; and where it does not, the pass leaves what the migration's
      inserts and deletes leave, and none of its armings. */
  lemma ReappliesAfterUndo(pub: Publisher, w: World, before: seq<Event>, since: seq<Event>)
    requires Initial(pub, w) && CarefulRun(pub, w, before) && Run(pub, w, before)
    requires Can(pub, After(pub, w, before), UndoCommit)
    requires Run(pub, Next(pub, After(pub, w, before), UndoCommit), since)
    ensures var mid := After(pub, w, before);
      var p := mid.db.status.detail.xid;
      var end := After(pub, Next(pub, mid, UndoCommit), since).db;
      end.progress >= p && (end.progress == p && Comparable(pub, mid, p) ==> Reapplies(pub, mid, end, p))
  {
    var mid := After(pub, w, before);
    InitiallySafe(pub, w);
    SafeThroughout(pub, w, before);
    LoggedThroughout(pub, w, before);
    ErredThroughout(pub, w, before);
    AfterOneUndo(pub, mid, since);
  }

  lemma AfterOneUndo(pub: Publisher, w: World, since: seq<Event>)
    requires Safe(pub, w) && Logged(w) && Erred(w)
    requires CanUndo(pub, w.db) && Run(pub, UndoWorld(pub, w), since)
    ensures var p := w.db.status.detail.xid;
      var end := After(pub, UndoWorld(pub, w), since).db;
      end.progress >= p && (end.progress == p && Comparable(pub, w, p) ==> Reapplies(pub, w, end, p))
  {
    var p := w.db.status.detail.xid;
    var w' := UndoWorld(pub, w);
    UndoKeepsSafe(pub, w);
    ProgressGrows(pub, w', since);
    if After(pub, w', since).db.progress == p && Comparable(pub, w, p) {
      UndoneWaits(pub, w);
      MarkerWaits(pub, w', since, p);
      ReappliesExactly(w.db.marker.rows, w.db.marker.armed, pub.txs[p].versionOps);
      assert w'.db.marker == UndoVersions(w.db.marker, Stamped(pub.txs[p].versionOps));
    }
  }
}
