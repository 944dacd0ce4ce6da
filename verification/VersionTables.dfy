/** The version tables over whole runs, and what the stall marker is for: no migration gets past apply
    that has not been replayed and undone first. */
module VersionTables {
  import opened Common
  import opened UndoApply
  import opened ReplayShape
  import opened StallMarker
  import opened Protocol
  import opened ExactlyOnce
  import opened LogComplete
  import opened DataEquality
  import opened AfterUndo
  import opened Apart
  import R = Rewrites

  // ---------------------------------------------------------------- lanes

  /** Every version row the operations name is a web one, or every one is a coord one. */
  ghost predicate InLane(web: bool, ops: seq<VersionOp>) {
    forall i :: 0 <= i < |ops| ==> (Web(ops[i].row) <==> web) && (ops[i].Restamp? ==> (Web(ops[i].was) <==> web))
  }

  predicate WebTx(tx: Tx) { WebRows(tx.leaves) != {} }

  /** What the polls record of the publisher: a migration writes one lane, and of the web lane it leaves
      all the rows there are. */
  ghost predicate Lanes(pub: Publisher) {
    forall n :: 0 <= n < |pub.txs| && pub.txs[n].leaves != {} ==>
      && InLane(WebTx(pub.txs[n]), pub.txs[n].versionOps)
      && (WebTx(pub.txs[n]) ==> WebRows(pub.txs[n].leaves) == WebRows(VersionsAt(pub, n + 1)))
  }

  /** The same rows in the lane that is not `web`'s. */
  ghost predicate SameElsewhere(web: bool, a: set<VersionRow>, b: set<VersionRow>) {
    if web then CoordRows(a) == CoordRows(b) else WebRows(a) == WebRows(b)
  }

  lemma {:induction false} LaneStays(web: bool, rows: set<VersionRow>, ops: seq<VersionOp>)
    requires InLane(web, ops)
    ensures SameElsewhere(web, Migrate(rows, ops), rows)
    decreases |ops|
  {
    if ops != [] {
      assert forall i :: 0 <= i < |ops[1..]| ==> ops[1..][i] == ops[i + 1];
      LaneStays(web, MigrateBy(rows, ops[0]), ops[1..]);
      assert SameElsewhere(web, MigrateBy(rows, ops[0]), rows);
    }
  }

  lemma LanesMakeAll(a: set<VersionRow>, b: set<VersionRow>)
    requires WebRows(a) == WebRows(b) && CoordRows(a) == CoordRows(b)
    ensures a == b
  {
    assert a == WebRows(a) + CoordRows(a) && b == WebRows(b) + CoordRows(b);
  }

  // ---------------------------------------------------------------- what is asked of the replays

  /** The replay inserted the rows the publisher's transaction did; of a coord lane, which the follower
      verifies by inclusion only, it left the rows the publisher's transaction left; and that transaction
      loses none on its way (see PassLeavesRows). */
  ghost predicate SameInserts(pub: Publisher, w: World) {
    var p := w.db.progress;
    && Comparable(pub, w, p) && NothingLost(VersionsAt(pub, p + 1), pub.txs[p].versionOps)
    && (!WebTx(pub.txs[p]) ==> CoordRows(w.db.marker.rows) == CoordRows(VersionsAt(pub, p + 1)))
  }

  /** The operator seeds nothing but `seeds`, the migration command works on the migration's lane, and the
      replay inserted the same version rows. */
  ghost predicate Versed(pub: Publisher, w: World, e: Event, seeds: set<VersionRow>)
    requires Can(pub, w, e)
  {
    && (e.Seed? ==> e.row in seeds)
    && (e.MigrateTx? ==> w.db.progress < |pub.txs| ==> InLane(WebTx(pub.txs[w.db.progress]), e.versionOps))
    && (e.UndoCommit? ==> SameInserts(pub, w))
  }

  ghost predicate VersedRun(pub: Publisher, w: World, es: seq<Event>, seeds: set<VersionRow>)
    decreases |es|
  {
    es == [] || (Can(pub, w, es[0]) && Versed(pub, w, es[0], seeds) && VersedRun(pub, Next(pub, w, es[0]), es[1..], seeds))
  }

  /** A migration as the marker sees it: it writes version rows, none of them of a seeded version. */
  ghost predicate Marks(pub: Publisher, n: nat, seeds: set<VersionRow>)
    requires n < |pub.txs|
  {
    var ops := pub.txs[n].versionOps;
    && (exists i :: 0 <= i < |ops| && !ops[i].Unstamp?)
    && (forall i :: 0 <= i < |ops| && !ops[i].Unstamp? ==> ops[i].row !in seeds)
  }

  // ---------------------------------------------------------------- the invariant

  /** Between the undo and the pass: the inserted rows are gone and armed. */
  ghost predicate PendingMarker(pub: Publisher, m: Marker, p: nat, seeds: set<VersionRow>) {
    p < |pub.txs| &&
    var ops := pub.txs[p].versionOps;
    && m.rows == VersionsAt(pub, p + 1) - Stamped(ops) && NothingLost(VersionsAt(pub, p + 1), ops)
    && Stamped(ops) <= m.armed <= seeds + Stamped(ops)
    && forall i :: 0 <= i < |ops| && ops[i].Restamp? ==> ops[i].row !in m.armed
  }

  ghost predicate VersionsOk(pub: Publisher, w: World, seeds: set<VersionRow>) {
    var m, p := w.db.marker, w.db.progress;
    p <= |pub.txs| &&
    if InReplay(w) then m.armed <= seeds && p < |pub.txs| && SameElsewhere(WebTx(pub.txs[p]), m.rows, VersionsAt(pub, p))
    else if Pending(w) then PendingMarker(pub, m, p, seeds)
    else m.rows == VersionsAt(pub, p) && m.armed <= seeds
  }

  /** Every migration apply has passed had its undo. */
  ghost predicate AllCarried(pub: Publisher, w: World, seeds: set<VersionRow>) {
    w.db.progress <= |pub.txs| && forall n :: 0 <= n < w.db.progress && Marks(pub, n, seeds) ==> n in w.hist.undone
  }

  // ---------------------------------------------------------------- apply

  /** A carried migration passes into the publisher's version rows and gives back its armings. */
  lemma PendingPasses(pub: Publisher, m: Marker, p: nat, seeds: set<VersionRow>)
    requires PendingMarker(pub, m, p, seeds) && ApplyOps(m, pub.txs[p].versionOps).Passed?
    ensures var o := ApplyOps(m, pub.txs[p].versionOps).marker; o.rows == VersionsAt(pub, p + 1) && o.armed <= seeds
  {
    var ops := pub.txs[p].versionOps;
    PassesExactly(m, ops);
    LeftRows(VersionsAt(pub, p + 1), VersionsAt(pub, p), ops);
  }

  /** Anything else passes only if it writes no version row, or a seeded one. */
  lemma OthersPass(pub: Publisher, m: Marker, p: nat, seeds: set<VersionRow>)
    requires Sound(pub) && p < |pub.txs| && m.rows == VersionsAt(pub, p) && m.armed <= seeds
    ensures Marks(pub, p, seeds) ==> ApplyOps(m, pub.txs[p].versionOps).Raised?
    ensures var o := ApplyOps(m, pub.txs[p].versionOps);
      o.Passed? ==> o.marker.rows == VersionsAt(pub, p + 1) && o.marker.armed <= seeds
  {
    var ops := pub.txs[p].versionOps;
    if Marks(pub, p, seeds) { UnarmedStops(m, ops); }
    if ApplyOps(m, ops).Passed? { PassedIsMigrated(m, ops); }
  }

  /** Passing one transaction, carried or not, leaves the publisher's next version rows. */
  lemma PassFollows(pub: Publisher, m: Marker, p: nat, pending: bool, seeds: set<VersionRow>)
    requires Sound(pub) && p < |pub.txs| && ApplyOps(m, pub.txs[p].versionOps).Passed?
    requires if pending then PendingMarker(pub, m, p, seeds) else m.rows == VersionsAt(pub, p) && m.armed <= seeds
    ensures var o := ApplyOps(m, pub.txs[p].versionOps).marker; o.rows == VersionsAt(pub, p + 1) && o.armed <= seeds
    ensures pending || !Marks(pub, p, seeds)
  {
    if pending { PendingPasses(pub, m, p, seeds); } else { OthersPass(pub, m, p, seeds); }
  }

  lemma OneMoreCarried(pub: Publisher, w: World, w': World, seeds: set<VersionRow>)
    requires AllCarried(pub, w, seeds) && w'.hist.undone == w.hist.undone
    requires w.db.progress < |pub.txs| && w'.db.progress == w.db.progress + 1
    requires Pending(w) || !Marks(pub, w.db.progress, seeds)
    ensures AllCarried(pub, w', seeds)
  {
    if Pending(w) { assert w.hist.undone[|w.hist.undone| - 1] in w.hist.undone; }
  }

  lemma ApplyTxKeepsVersions(pub: Publisher, w: World, seeds: set<VersionRow>)
    requires Sound(pub) && Safe(pub, w) && CanApply(pub, w.db, ApplyTx)
    requires VersionsOk(pub, w, seeds) && AllCarried(pub, w, seeds)
    ensures var w' := NextApply(pub, w, ApplyTx); VersionsOk(pub, w', seeds) && AllCarried(pub, w', seeds)
  {
    var w' := NextApply(pub, w, ApplyTx);
    ApplyMovesMarker(pub, w);
    ApplyMoves(pub, w);
    PassedIsNotPending(pub, w, w');
    PassFollows(pub, w.db.marker, w.db.progress, Pending(w), seeds);
    OneMoreCarried(pub, w, w', seeds);
  }

  // ---------------------------------------------------------------- every other event

  ghost predicate SameStand(w: World, w': World) {
    && w'.db.marker == w.db.marker && w'.db.progress == w.db.progress && w'.hist.undone == w.hist.undone
    && (InReplay(w') <==> InReplay(w))
  }

  lemma SameKeepsVersions(pub: Publisher, w: World, w': World, seeds: set<VersionRow>)
    requires VersionsOk(pub, w, seeds) && AllCarried(pub, w, seeds) && SameStand(w, w')
    ensures VersionsOk(pub, w', seeds) && AllCarried(pub, w', seeds)
  {
  }

  lemma ApplyStands(pub: Publisher, w: World, e: Event)
    requires OfApply(e) && !e.ApplyTx? && CanApply(pub, w.db, e)
    ensures SameStand(w, NextApply(pub, w, e))
  {
  }

  lemma StartStands(pub: Publisher, w: World, e: Event)
    requires OfStart(e) && !e.PersistMigrating? && CanStart(pub, w.db, e)
    ensures SameStand(w, NextStart(pub, w, e))
  {
  }

  lemma CarryStands(w: World, e: Event)
    requires OfCarry(e) && CanCarry(w.db, e)
    ensures SameStand(w, NextCarry(w, e))
  {
  }

  lemma HaltStands(w: World, e: Event)
    requires Halts(e) && CanHalt(w.db, e) && Careful(w, e)
    ensures SameStand(w, NextHalt(w, e))
  {
  }

  lemma OperatorStands(w: World, e: Event)
    requires ScopeFits(w) && OfOperator(e) && !e.Seed? && CanOperate(w.db, e)
    ensures SameStand(w, NextOperator(w, e))
  {
  }

  lemma ResolveStands(w: World, t: Target)
    requires CanResolve(w.db, t)
    ensures SameStand(w, ResolveWorld(w, t))
  {
  }

  lemma CopyStands(pub: Publisher, w: World, e: Event)
    requires OfCopy(e) && CanCopy(pub, w.db, e)
    ensures SameStand(w, NextCopy(pub, w, e))
  {
  }

  lemma SeedKeepsVersions(pub: Publisher, w: World, v: VersionRow, seeds: set<VersionRow>)
    requires VersionsOk(pub, w, seeds) && AllCarried(pub, w, seeds) && Erred(w) && CanOperate(w.db, Seed(v)) && v in seeds
    ensures var w' := NextOperator(w, Seed(v)); VersionsOk(pub, w', seeds) && AllCarried(pub, w', seeds)
  {
  }

  lemma LoggingKeepsVersions(pub: Publisher, w: World, seeds: set<VersionRow>)
    requires Safe(pub, w) && Standing(pub, w) && VersionsOk(pub, w, seeds) && AllCarried(pub, w, seeds)
    requires CanStart(pub, w.db, PersistMigrating)
    ensures var w' := NextStart(pub, w, PersistMigrating); VersionsOk(pub, w', seeds) && AllCarried(pub, w', seeds)
  {
    NotUndoneIsNotPending(pub, w);
  }

  lemma MigrateKeepsVersions(pub: Publisher, w: World, script: seq<R.Stmt>, versionOps: seq<VersionOp>, catalog: Catalog,
                             seeds: set<VersionRow>)
    requires VersionsOk(pub, w, seeds) && AllCarried(pub, w, seeds) && CanMigrate(w.db, script)
    requires w.db.progress < |pub.txs| ==> InLane(WebTx(pub.txs[w.db.progress]), versionOps)
    ensures var w' := MigrateWorld(w, script, versionOps, catalog); VersionsOk(pub, w', seeds) && AllCarried(pub, w', seeds)
  {
    LaneStays(WebTx(pub.txs[w.db.progress]), w.db.marker.rows, versionOps);
  }

  /** The undo's version check at work: with the lanes kept apart it establishes the publisher's version
      rows, but for what a coord lane holds besides. */
  lemma UndoneRows(pub: Publisher, w: World, seeds: set<VersionRow>)
    requires Lanes(pub) && Safe(pub, w) && Standing(pub, w) && CanUndo(pub, w.db) && SameInserts(pub, w)
    requires VersionsOk(pub, w, seeds)
    ensures w.db.marker.rows == VersionsAt(pub, w.db.progress + 1)
  {
    var p, rows := w.db.progress, w.db.marker.rows;
    var tx := pub.txs[p];
    LaneStays(WebTx(tx), VersionsAt(pub, p), tx.versionOps);
    LanesMakeAll(rows, VersionsAt(pub, p + 1));
  }

  lemma UndoneMarker(pub: Publisher, w: World)
    requires Safe(pub, w) && Standing(pub, w) && Logged(w) && CanUndo(pub, w.db)
    ensures var w' := UndoWorld(pub, w);
      && w'.db.marker == UndoVersions(w.db.marker, w.hist.stamps) && w'.db.progress == w.db.progress
      && w'.hist.undone == w.hist.undone + [w.db.progress] && !InReplay(w')
  {
  }

  lemma UndoKeepsVersions(pub: Publisher, w: World, seeds: set<VersionRow>)
    requires Lanes(pub) && Safe(pub, w) && Standing(pub, w) && Logged(w) && CanUndo(pub, w.db) && SameInserts(pub, w)
    requires VersionsOk(pub, w, seeds) && AllCarried(pub, w, seeds)
    ensures var w' := UndoWorld(pub, w); VersionsOk(pub, w', seeds) && AllCarried(pub, w', seeds)
  {
    UndoneMarker(pub, w);
    UndoneRows(pub, w, seeds);
    var w' := UndoWorld(pub, w);
    assert w'.hist.undone[|w.hist.undone|] == w.db.progress;
    assert forall n :: n in w.hist.undone ==> n in w'.hist.undone;
  }

  lemma KeepsVersions(pub: Publisher, w: World, e: Event, seeds: set<VersionRow>)
    requires Lanes(pub) && Basis(pub, w) && Can(pub, w, e) && Careful(w, e) && Versed(pub, w, e, seeds)
    requires VersionsOk(pub, w, seeds) && AllCarried(pub, w, seeds)
    ensures VersionsOk(pub, Next(pub, w, e), seeds) && AllCarried(pub, Next(pub, w, e), seeds)
  {
    if e.ApplyTx? { ApplyTxKeepsVersions(pub, w, seeds); }
    else if e.PersistMigrating? { LoggingKeepsVersions(pub, w, seeds); }
    else if e.MigrateTx? { MigrateKeepsVersions(pub, w, e.script, e.versionOps, e.catalog, seeds); }
    else if e.UndoCommit? { UndoKeepsVersions(pub, w, seeds); }
    else if e.Seed? { SeedKeepsVersions(pub, w, e.row, seeds); }
    else {
      OthersStand(pub, w, e);
      SameKeepsVersions(pub, w, Next(pub, w, e), seeds);
    }
  }

  lemma OthersStand(pub: Publisher, w: World, e: Event)
    requires Placed(pub, w) && Logged(w) && Can(pub, w, e) && Careful(w, e)
    requires !e.ApplyTx? && !e.PersistMigrating? && !e.MigrateTx? && !e.UndoCommit? && !e.Seed?
    ensures SameStand(w, Next(pub, w, e))
  {
    if OfApply(e) { ApplyStands(pub, w, e); }
    else if OfStart(e) { StartStands(pub, w, e); }
    else if OfCarry(e) { CarryStands(w, e); }
    else if Halts(e) { HaltStands(w, e); }
    else if OfOperator(e) { OperatorStands(w, e); }
    else if e.ResolveTarget? { ResolveStands(w, e.target); }
    else { CopyStands(pub, w, e); }
  }

  ghost predicate Basis(pub: Publisher, w: World) {
    Sound(pub) && Safe(pub, w) && Standing(pub, w) && Logged(w) && Erred(w)
  }

  lemma KeepsBasis(pub: Publisher, w: World, e: Event)
    requires Basis(pub, w) && Can(pub, w, e) && Careful(w, e) && Steady(pub, w, e)
    ensures Basis(pub, Next(pub, w, e))
  {
    KeepsSafe(pub, w, e);
    KeepsStanding(pub, w, e);
    KeepsLogged(pub, w, e);
    KeepsErred(pub, w, e);
  }

  lemma {:induction false} VersionsThroughout(pub: Publisher, w: World, es: seq<Event>, seeds: set<VersionRow>)
    requires Lanes(pub) && Basis(pub, w) && CarefulRun(pub, w, es) && SteadyRun(pub, w, es) && VersedRun(pub, w, es, seeds)
    requires VersionsOk(pub, w, seeds) && AllCarried(pub, w, seeds)
    ensures Run(pub, w, es) && VersionsOk(pub, After(pub, w, es), seeds) && AllCarried(pub, After(pub, w, es), seeds)
    decreases |es|
  {
    if es != [] {
      KeepsBasis(pub, w, es[0]);
      KeepsVersions(pub, w, es[0], seeds);
      VersionsThroughout(pub, Next(pub, w, es[0]), es[1..], seeds);
    }
  }

  // ---------------------------------------------------------------- the marker makes stalls steady

  /** What the follower takes for a migration marks: it left a version row, so it wrote one. */
  ghost predicate LeavesMark(pub: Publisher, seeds: set<VersionRow>) {
    forall n :: 0 <= n < |pub.txs| && Leaves(pub, n) != {} ==> Marks(pub, n, seeds)
  }

  /** Every stall the follower handles is one the marker would cause, whatever the error was. */
  lemma StallIsMarked(pub: Publisher, w: World, xid: nat, seeds: set<VersionRow>)
    requires Basis(pub, w) && VersionsOk(pub, w, seeds) && LeavesMark(pub, seeds) && CanStart(pub, w.db, Stall(xid))
    ensures MarkerStops(pub, w.db, xid)
  {
    var undone := w.hist.undone;
    if undone != [] { assert undone[|undone| - 1] in undone; }
    StallIsNew(pub, w, xid);
    OthersPass(pub, w.db.marker, xid, seeds);
  }

  lemma {:induction false} MarkedStallsAreSteady(pub: Publisher, w: World, es: seq<Event>, seeds: set<VersionRow>)
    requires Lanes(pub) && Basis(pub, w) && CarefulRun(pub, w, es) && VersedRun(pub, w, es, seeds)
    requires VersionsOk(pub, w, seeds) && AllCarried(pub, w, seeds) && LeavesMark(pub, seeds)
    ensures SteadyRun(pub, w, es)
    decreases |es|
  {
    if es != [] {
      if es[0].Stall? { StallIsMarked(pub, w, es[0].xid, seeds); }
      KeepsBasis(pub, w, es[0]);
      KeepsVersions(pub, w, es[0], seeds);
      MarkedStallsAreSteady(pub, Next(pub, w, es[0]), es[1..], seeds);
    }
  }

  // ---------------------------------------------------------------- what it means

  /** A careful run from installation in which replays insert the publisher's version rows; and either
      every migration marks, or every stall is one the marker causes. */
  ghost predicate Proper(pub: Publisher, w: World, es: seq<Event>, seeds: set<VersionRow>) {
    && Initial(pub, w) && Lanes(pub) && CarefulRun(pub, w, es) && VersedRun(pub, w, es, seeds)
    && (LeavesMark(pub, seeds) || SteadyRun(pub, w, es))
  }

  /** The marker does its work: where every migration marks, every stall of the run is steady. */
  lemma ProperIsSteady(pub: Publisher, w: World, es: seq<Event>, seeds: set<VersionRow>)
    requires Proper(pub, w, es, seeds)
    ensures SteadyRun(pub, w, es)
  {
    InitiallySafe(pub, w);
    if LeavesMark(pub, seeds) { MarkedStallsAreSteady(pub, w, es, seeds); }
  }

  lemma ProperThroughout(pub: Publisher, w: World, es: seq<Event>, seeds: set<VersionRow>)
    requires Proper(pub, w, es, seeds)
    ensures Run(pub, w, es) && VersionsOk(pub, After(pub, w, es), seeds) && AllCarried(pub, After(pub, w, es), seeds)
  {
    InitiallySafe(pub, w);
    ProperIsSteady(pub, w, es, seeds);
    VersionsThroughout(pub, w, es, seeds);
  }

  /** The version tables follow: outside a replay, and but for the migration just undone, they hold the
      publisher's rows at apply's position, and no version is armed that was not seeded. */
  lemma VersionTablesFollow(pub: Publisher, w: World, es: seq<Event>, seeds: set<VersionRow>)
    requires Proper(pub, w, es, seeds)
    ensures Run(pub, w, es)
    ensures var end := After(pub, w, es);
      end.db.progress <= |pub.txs| &&
      (!InReplay(end) && !Pending(end) ==>
         end.db.marker.rows == VersionsAt(pub, end.db.progress) && end.db.marker.armed <= seeds)
  {
    ProperThroughout(pub, w, es, seeds);
  }

  /** What the marker is for. Every migration apply has passed in such a run was replayed and undone
      exactly once; and apply cannot carry the next one, either, until its undo has committed. */
  lemma EachMigrationCarriedOnce(pub: Publisher, w: World, es: seq<Event>, seeds: set<VersionRow>, n: nat)
    requires Proper(pub, w, es, seeds) && n < |pub.txs| && Marks(pub, n, seeds)
    ensures Run(pub, w, es)
    ensures var end := After(pub, w, es); var undone := end.hist.undone;
      && (n < end.db.progress || (n == end.db.progress && Can(pub, end, ApplyTx)) ==> n in undone)
      && (forall i, j :: 0 <= i < |undone| && 0 <= j < |undone| && undone[i] == undone[j] == n ==> i == j)
  {
    InitiallySafe(pub, w);
    ProperThroughout(pub, w, es, seeds);
    SafeThroughout(pub, w, es);
    var end := After(pub, w, es);
    var undone := end.hist.undone;
    if n == end.db.progress && Can(pub, end, ApplyTx) && n !in undone {
      assert !InReplay(end);
      if undone != [] { assert undone[|undone| - 1] in undone; }
      OthersPass(pub, end.db.marker, n, seeds);
      assert false;
    }
  }

  /** The migrator's promise: a transaction that changes the shape of rows marks. */
  ghost predicate ShapesMark(pub: Publisher, seeds: set<VersionRow>) {
    forall n :: 0 <= n < |pub.txs| ==> Plain(pub.txs[n].script) || Marks(pub, n, seeds)
  }

  /** So what the marker lets through applies: in a faithful run apply carries the next transaction
      whenever the subscription is on and the marker passes it, and stays faithful. */
  lemma MarkedTransactionsApply(pub: Publisher, w: World, es: seq<Event>, seeds: set<VersionRow>)
    requires Proper(pub, w, es, seeds) && ShapesMark(pub, seeds)
    ensures Run(pub, w, es)
    ensures var end := After(pub, w, es);
      && end.db.progress <= end.db.horizon <= |pub.txs|
      && (end.hist.faithful && end.db.enabled && end.db.progress < end.db.horizon ==>
            && (Can(pub, end, ApplyTx) <==> !MarkerStops(pub, end.db, end.db.progress))
            && (Can(pub, end, ApplyTx) ==> Next(pub, end, ApplyTx).hist.faithful))
  {
    ProperIsSteady(pub, w, es, seeds);
    ApplyNeverConflicts(pub, w, es);
    InitiallySafe(pub, w);
    SafeThroughout(pub, w, es);
    ProperThroughout(pub, w, es, seeds);
    var end := After(pub, w, es);
    if end.db.enabled && end.db.progress < end.db.horizon && !Pending(end) {
      assert !InReplay(end);
      OthersPass(pub, end.db.marker, end.db.progress, seeds);
    }
  }

  /** Data equality without a word about stalls: the marker makes them steady. */
  lemma MarkedSubscriberEquals(pub: Publisher, w: World, es: seq<Event>, seeds: set<VersionRow>)
    requires Proper(pub, w, es, seeds)
    ensures Run(pub, w, es)
    ensures var end := After(pub, w, es);
      end.db.progress <= |pub.txs| &&
      (end.hist.faithful && !InReplay(end) && !Pending(end) && end.hist.ahead <= end.db.progress ==>
         && SameOff(end.hist.apart, end.db.data, At(pub, end.db.progress))
         && (end.hist.apart == {} ==> end.db.data == At(pub, end.db.progress))
         && end.db.marker.rows == VersionsAt(pub, end.db.progress))
  {
    ProperIsSteady(pub, w, es, seeds);
    SubscriberEqualsPublisher(pub, w, es);
    VersionTablesFollow(pub, w, es, seeds);
  }
}
