/** Whole runs put together: how an idle follower carries a migration through, and a history of three
    that takes the applied record away from the first. */
module Carrying {
  import opened Common
  import opened Tables
  import opened CopyAhead
  import opened UndoApply
  import opened ReplayShape
  import opened StallMarker
  import opened Protocol
  import opened ExactlyOnce
  import opened LogComplete
  import opened ChecksSuffice
  import R = Rewrites

  // ---------------------------------------------------------------- one migration

  /** The subscription is on, nothing is under way, and the marker stops apply at the next transaction,
      which is a migration the follower has not processed. */
  ghost predicate Ready(pub: Publisher, w: World) {
    var db := w.db;
    && db.status.Idle? && db.enabled && db.copy.NoCopy? && db.shape.resolutions == {}
    && db.progress < db.horizon <= |pub.txs|
    && MarkerStops(pub, db, db.progress) && !AlreadyProcessed(db, db.progress) && Leaves(pub, db.progress) != {}
  }

  ghost predicate NoHalts(es: seq<Event>) { forall i :: 0 <= i < |es| ==> !Halts(es[i]) }

  ghost function Started(w: World): World {
    var p := w.db.progress;
    World(w.db.(lastError := Some(p), enabled := false, status := InProgress(Detail(p, Logging, false, true))),
          w.hist.(script := [], stamps := {}))
  }

  lemma Starts(pub: Publisher, w: World) returns (es: seq<Event>)
    requires Ready(pub, w)
    ensures Ran(pub, w, es, Started(w)) && NoHalts(es)
  {
    var p := w.db.progress;
    es := [] + [ApplyFails];
    RunApply(pub, w, [], w, ApplyFails);
    var w1 := NextApply(pub, w, ApplyFails);
    RunStart(pub, w, es, w1, Stall(p));
    var w2 := NextStart(pub, w1, Stall(p));
    es := es + [Stall(p)];
    RunStart(pub, w, es, w2, Event.Disable);
    var w3 := NextStart(pub, w2, Event.Disable);
    es := es + [Event.Disable];
    RunStart(pub, w, es, w3, PersistLogging);
    es := es + [PersistLogging];
    assert NextStart(pub, w3, PersistLogging) == Started(w);
  }

  /** The catalog as the log step leaves it: what it gains from there on is the migration's. */
  function FreshCatalog(c: Catalog): Catalog { c.(gained := {}, added := {}) }

  ghost function LoggingOn(w: World): World
    requires InStep(w.db, Logging)
  {
    var s := w.db.shape;
    World(w.db.(triggers := true, status := InProgress(w.db.status.detail.(step := Migrating, scoped := true)),
                shape := Shape(ScopeNow(s.catalog), FreshCatalog(s.catalog), [], s.resolutions)),
          w.hist)
  }

  lemma TurnsLoggingOn(pub: Publisher, w: World) returns (es: seq<Event>)
    requires InStep(w.db, Logging)
    ensures Ran(pub, w, es, LoggingOn(w)) && NoHalts(es)
  {
    es := [] + [Truncate];
    RunStart(pub, w, [], w, Truncate);
    var w1 := NextStart(pub, w, Truncate);
    RunStart(pub, w, es, w1, Install);
    var w2 := NextStart(pub, w1, Install);
    es := es + [Install];
    RunStart(pub, w, es, w2, PersistMigrating);
    es := es + [PersistMigrating];
    assert NextStart(pub, w2, PersistMigrating) == LoggingOn(w);
  }

  ghost function Migrated(w: World, script: seq<R.Stmt>, versionOps: seq<VersionOp>, catalog: Catalog): World
    requires InStep(w.db, Migrating)
  {
    var m := MigrateWorld(w, script, versionOps, catalog);
    m.(db := m.db.(triggers := false, status := InProgress(w.db.status.detail.(step := Undoing))))
  }

  lemma Migrates(pub: Publisher, w: World, script: seq<R.Stmt>, versionOps: seq<VersionOp>, catalog: Catalog)
    returns (es: seq<Event>)
    requires CanMigrate(w.db, script)
    ensures Ran(pub, w, es, Migrated(w, script, versionOps, catalog)) && NoHalts(es)
  {
    var e := MigrateTx(script, versionOps, catalog);
    es := [] + [e];
    RunOneMore(pub, w, [], w, e);
    var w1 := MigrateWorld(w, script, versionOps, catalog);
    RunCarry(pub, w, es, w1, PersistUndoing);
    var w2 := NextCarry(w1, PersistUndoing);
    es := es + [PersistUndoing];
    RunCarry(pub, w, es, w2, DropTriggers);
    es := es + [DropTriggers];
    assert NextCarry(w2, DropTriggers) == Migrated(w, script, versionOps, catalog);
  }

  ghost function Finished(pub: Publisher, w: World): World
    requires CanUndo(pub, w.db)
  {
    var u := UndoWorld(pub, w);
    u.(db := u.db.(enabled := true, status := Idle))
  }

  lemma Finishes(pub: Publisher, w: World) returns (es: seq<Event>)
    requires CanUndo(pub, w.db) && w.db.status.detail.wasEnabled
    ensures Ran(pub, w, es, Finished(pub, w)) && NoHalts(es)
  {
    es := [] + [UndoCommit];
    RunOneMore(pub, w, [], w, UndoCommit);
    var w1 := UndoWorld(pub, w);
    RunCarry(pub, w, es, w1, EnableSub);
    var w2 := NextCarry(w1, EnableSub);
    es := es + [EnableSub];
    RunCarry(pub, w, es, w2, Finish);
    es := es + [Finish];
    assert NextCarry(w2, Finish) == Finished(pub, w);
  }

  /** What the replay's checks see after a replay in one transaction. */
  function Replayed(w: World, script: seq<R.Stmt>, versionOps: seq<VersionOp>, catalog: Catalog): Shape {
    Shape(ScopeNow(w.db.shape.catalog), catalog, R.ScriptLog(script) + VersionEntries(versionOps), {})
  }

  /** What is left after the undo lets apply through. */
  ghost predicate LetsThrough(pub: Publisher, w: World, script: seq<R.Stmt>, versionOps: seq<VersionOp>)
    requires w.db.progress < |pub.txs|
  {
    var tx, rows := pub.txs[w.db.progress], Migrate(w.db.marker.rows, versionOps);
    && ApplyOps(UndoVersions(Marker(rows, w.db.marker.armed), Stamped(versionOps)), tx.versionOps).Passed?
    && ApplyAll(Undo(R.Run(script, w.db.data), R.ScriptLog(script)), Changes(tx)).Ok?
  }

  /** The local migration succeeds, leaves the versions the publisher's transaction left, and passes the
      checks; and what is left after the undo lets apply through. */
  ghost predicate Carries(pub: Publisher, w: World, script: seq<R.Stmt>, versionOps: seq<VersionOp>, catalog: Catalog)
    requires w.db.progress < |pub.txs|
  {
    && R.Runs(script, w.db.data) && Verified(Leaves(pub, w.db.progress), Migrate(w.db.marker.rows, versionOps))
    && Check(Replayed(w, script, versionOps, catalog)).Pass? && LetsThrough(pub, w, script, versionOps)
  }

  /** Where that leaves the follower: idle and on, one transaction further. */
  ghost predicate CarriedTo(pub: Publisher, w: World, script: seq<R.Stmt>, versionOps: seq<VersionOp>, end: World)
    requires w.db.progress < |pub.txs|
  {
    var p := w.db.progress;
    var tx, rows := pub.txs[p], Migrate(w.db.marker.rows, versionOps);
    var o := ApplyOps(UndoVersions(Marker(rows, w.db.marker.armed), Stamped(versionOps)), tx.versionOps);
    var data := ApplyAll(Undo(R.Run(script, w.db.data), R.ScriptLog(script)), Changes(tx));
    && end.db.status.Idle? && end.db.enabled && end.db.copy.NoCopy? && end.db.shape.resolutions == {}
    && end.db.progress == p + 1 && end.db.horizon == w.db.horizon
    && o.Passed? && end.db.marker == o.marker && data.Ok? && end.db.data == data.table
    && end.hist.undone == w.hist.undone + [p] && end.db.applied == Recorded(w.db.applied, Leaves(pub, p), p)
  }

  lemma ReplayedLog(script: seq<R.Stmt>, versionOps: seq<VersionOp>)
    ensures var log := R.ScriptLog(script) + VersionEntries(versionOps);
      VersionsLogged(log) == Stamped(versionOps) && Inserted(log) == Inserted(R.ScriptLog(script))
  {
    ScriptLogHasNoVersions(script);
    VersionEntriesOnly(versionOps);
    VersionsLoggedSplits(R.ScriptLog(script), VersionEntries(versionOps));
    InsertedSplits(R.ScriptLog(script), VersionEntries(versionOps));
  }

  /** In step undo with the triggers off, as a replay begun in `w` has come there. */
  ghost predicate ReplayIn(w: World, script: seq<R.Stmt>, versionOps: seq<VersionOp>, mid: World) {
    && mid.db.status == InProgress(Detail(w.db.progress, Undoing, true, true)) && !mid.db.triggers && mid.db.copy.NoCopy?
    && mid.db.data == R.Run(script, w.db.data)
    && mid.db.marker == Marker(Migrate(w.db.marker.rows, versionOps), w.db.marker.armed)
    && mid.db.progress == w.db.progress && mid.db.horizon == w.db.horizon && mid.db.applied == w.db.applied
    && mid.hist.undone == w.hist.undone
    && Inserted(mid.db.shape.log) == Inserted(R.ScriptLog(script)) && VersionsLogged(mid.db.shape.log) == Stamped(versionOps)
  }

  /** The replay, up to the check. */
  lemma ToTheCheck(pub: Publisher, w: World, script: seq<R.Stmt>, versionOps: seq<VersionOp>, catalog: Catalog)
    returns (es: seq<Event>, end: World)
    requires Ready(pub, w) && R.Runs(script, w.db.data)
    ensures Ran(pub, w, es, end) && NoHalts(es)
    ensures end.db.shape == Replayed(w, script, versionOps, catalog) && ReplayIn(w, script, versionOps, end)
  {
    var w1 := Started(w);
    es := Starts(pub, w);
    var w2 := LoggingOn(w1);
    var more := TurnsLoggingOn(pub, w1);
    RunJoin(pub, w, es, w1, more, w2);
    es := es + more;
    end := Migrated(w2, script, versionOps, catalog);
    more := Migrates(pub, w2, script, versionOps, catalog);
    RunJoin(pub, w, es, w2, more, end);
    es := es + more;
    assert end.db.shape == Replayed(w, script, versionOps, catalog);
    ReplayedLog(script, versionOps);
  }

  /** The undo and the pass. */
  lemma FromTheUndo(pub: Publisher, w: World, script: seq<R.Stmt>, versionOps: seq<VersionOp>, mid: World)
    returns (es: seq<Event>, end: World)
    requires Ready(pub, w) && LetsThrough(pub, w, script, versionOps)
    requires ReplayIn(w, script, versionOps, mid) && CanUndo(pub, mid.db)
    ensures Ran(pub, mid, es, end) && NoHalts(es) && CarriedTo(pub, w, script, versionOps, end)
    ensures end.db.shape.catalog == mid.db.shape.catalog
  {
    es := Finishes(pub, mid);
    var w1 := Finished(pub, mid);
    RunApply(pub, mid, es, w1, ApplyTx);
    es := es + [ApplyTx];
    end := NextApply(pub, w1, ApplyTx);
  }

  /** From the stall to the pass. Every follower that stalls on a migration, with a replay that passes the
      checks, has a run that carries it through: it ends idle, with the subscription on, the undo made
      and the transaction applied. */
  lemma CarryOne(pub: Publisher, w: World, script: seq<R.Stmt>, versionOps: seq<VersionOp>, catalog: Catalog)
    returns (es: seq<Event>, end: World)
    requires Ready(pub, w) && Carries(pub, w, script, versionOps, catalog)
    ensures Ran(pub, w, es, end) && CarriedTo(pub, w, script, versionOps, end) && end.db.shape.catalog == catalog && NoHalts(es)
  {
    var before, mid := ToTheCheck(pub, w, script, versionOps, catalog);
    var after;
    after, end := FromTheUndo(pub, w, script, versionOps, mid);
    RunJoin(pub, w, before, mid, after, end);
    es := before + after;
  }

  /** The replay did to the version rows what the publisher's transaction did, and none of its updates
      will find a row again after the undo (see ReappliesExactly). */
  ghost predicate SameRevision(w: World, mine: seq<VersionOp>, theirs: seq<VersionOp>) {
    && Once(theirs) && Stamped(mine) == Stamped(theirs)
    && (forall i :: 0 <= i < |theirs| && theirs[i].Restamp? ==> theirs[i].row !in w.db.marker.armed + Stamped(theirs))
    && AllSkipped(Migrate(w.db.marker.rows, mine) - Stamped(theirs), theirs)
  }

  /** What the replay deletes and alters, production's own changes settle. */
  ghost predicate SettlesAt(pub: Publisher, p: nat, script: seq<R.Stmt>)
    requires p < |pub.txs|
  {
    Settles(R.Reshaped(script, At(pub, p)), R.ChangesOf(script), Changes(pub.txs[p]))
  }

  lemma LogHasOnlyData(script: seq<R.Stmt>, versionOps: seq<VersionOp>)
    ensures DataEntries(R.ScriptLog(script) + VersionEntries(versionOps)) == R.ScriptLog(script)
  {
    ScriptLogHasNoVersions(script);
    VersionEntriesOnly(versionOps);
    DataEntriesConcat(R.ScriptLog(script), VersionEntries(versionOps));
    assert R.ScriptLog(script) + [] == R.ScriptLog(script);
  }

  /** The design at work. A follower whose table is the publisher's stalls on a migration; the same
      migration runs locally, passes the checks, and settles row by row. Then there is a run to the
      publisher's next state, with the migration's effects made once on either side. */
  lemma MigrationIsCarried(pub: Publisher, w: World, script: seq<R.Stmt>, versionOps: seq<VersionOp>, catalog: Catalog)
    returns (es: seq<Event>, end: World)
    requires Sound(pub) && Ready(pub, w) && w.db.data == At(pub, w.db.progress)
    requires R.Runs(script, w.db.data) && Verified(Leaves(pub, w.db.progress), Migrate(w.db.marker.rows, versionOps))
    requires Check(Replayed(w, script, versionOps, catalog)).Pass?
    requires OneMigration(Replayed(w, script, versionOps, catalog), script, pub.txs[w.db.progress].script)
    requires SettlesAt(pub, w.db.progress, script)
    requires SameRevision(w, versionOps, pub.txs[w.db.progress].versionOps)
    ensures Ran(pub, w, es, end)
    ensures var p := w.db.progress;
      && end.db.status.Idle? && end.db.enabled && end.db.progress == p + 1 && end.hist.undone == w.hist.undone + [p]
      && end.db.data == At(pub, p + 1)
  {
    var p, s := w.db.progress, Replayed(w, script, versionOps, catalog);
    var tx, t := pub.txs[p], At(pub, p);
    LogHasOnlyData(script, versionOps);
    PassingChecksSuffice(s, script, tx.script, t);
    R.UndoThenApplyAcrossRewrites(script, tx.script, t);
    UndoReadsInserts(script, R.Run(script, t));
    ReappliesExactly(Migrate(w.db.marker.rows, versionOps), w.db.marker.armed, tx.versionOps);
    es, end := CarryOne(pub, w, script, versionOps, catalog);
  }

  lemma UndoReadsInserts(script: seq<R.Stmt>, t: Table)
    ensures Undo(t, R.ScriptLog(script)) == Undo(t, LogOf(R.ChangesOf(script)))
  {
    R.ScriptLogInserts(script);
  }

  // ---------------------------------------------------------------- a copy

  /** The guarded snapshot's update, and the end of the command. */
  lemma CopyEnds(pub: Publisher, w: World, b: nat) returns (es: seq<Event>, end: World)
    requires CanCopy(pub, w.db, CopyWrite(b))
    ensures Ran(pub, w, es, end) && NoHalts(es) && CopyWrite(b) in es && end.hist.undone == w.hist.undone
    ensures var c := w.db.copy;
      end.db == w.db.(data := Merge(w.db.data, At(pub, b), c.relids, c.cols), enabled := true, copy := NoCopy,
                      owed := OwedLeft(w.db.owed, c.table, c.cols, c.all))
  {
    es := [] + [CopyWrite(b)];
    RunCopy(pub, w, [], w, CopyWrite(b));
    var w1 := WriteWorld(pub, w, b);
    RunCopy(pub, w, es, w1, CopyClear);
    es := es + [CopyClear];
    var w2 := NextCopy(pub, w1, CopyClear);
    RunCopy(pub, w, es, w2, CopyOn);
    es := es + [CopyOn];
    end := NextCopy(pub, w2, CopyOn);
    assert es[0] == CopyWrite(b);
  }

  /** A copy on a follower that has caught up. */
  lemma CopyNow(pub: Publisher, w: World, begin: Event) returns (es: seq<Event>, end: World)
    requires w.db.status.Idle? && w.db.enabled && w.db.copy.NoCopy? && begin.CopyBegin?
    requires w.db.progress == w.db.horizon <= |pub.txs| && VersionsAt(pub, w.db.horizon) == w.db.marker.rows
    ensures Ran(pub, w, es, end) && NoHalts(es) && end.hist.undone == w.hist.undone
    ensures end.db == w.db.(data := Merge(w.db.data, At(pub, w.db.horizon), begin.relids, begin.cols),
                            owed := OwedLeft(w.db.owed, begin.table, begin.cols, begin.all))
  {
    es := [] + [begin];
    RunCopy(pub, w, [], w, begin);
    var w1 := NextCopy(pub, w, begin);
    RunCopy(pub, w, es, w1, CopyOff);
    es := es + [CopyOff];
    var w2 := NextCopy(pub, w1, CopyOff);
    var more;
    more, end := CopyEnds(pub, w2, w.db.horizon);
    RunJoin(pub, w, es, w2, more, end);
    es := es + more;
  }

  // ---------------------------------------------------------------- a version that comes back

  const NO_TABLES := Catalog(map[], {}, map[], {}, {})

  /** A migration that changes nothing but the revision. */
  function Revise(was: VersionRow, row: VersionRow): Tx { Tx([], [Restamp(was, row)], {row}) }

  /** An idle follower at a revision, with such a migration next. */
  ghost predicate AtRevision(pub: Publisher, w: World, row: VersionRow) {
    var db := w.db;
    && db.status.Idle? && db.enabled && db.copy.NoCopy? && db.shape.resolutions == {} && db.shape.catalog == NO_TABLES
    && db.progress <= db.horizon <= |pub.txs| && db.marker == Marker({row}, {})
  }

  lemma RevisionPasses(w: World, was: VersionRow, row: VersionRow)
    requires w.db.shape.catalog == NO_TABLES
    ensures Check(Replayed(w, [], [Restamp(was, row)], NO_TABLES)).Pass?
  {
    var ops := [Restamp(was, row)];
    EmptyLog();
    assert ops[1..] == [] && VersionEntries(ops) == [];
    var s := Replayed(w, [], ops, NO_TABLES);
    assert s.log == [];
    assert Renames(s) == {} && KeyChanges(s) == {} && Unsafe(s, [], {}) == {} && Rewrites(s) == {} && Values(s) == {};
  }

  lemma RevisionOps(was: VersionRow, row: VersionRow)
    requires was != row
    ensures var ops := [Restamp(was, row)];
      && Stamped(ops) == {} && Migrate({was}, ops) == {row} && ValidOps({was}, ops)
      && ApplyOps(Marker({was}, {}), ops).Raised? && ApplyOps(Marker({row}, {}), ops) == Passed(Marker({row}, {}), [])
  {
    var ops := [Restamp(was, row)];
    assert ops[1..] == [] && ops[0] == Restamp(was, row);
    assert {was} - {was} + {row} == {row};
    assert Migrate({was}, ops) == Migrate({row}, []);
    assert ApplyOps(Marker({row}, {}), []) == Passed(Marker({row}, {}), []);
  }

  lemma CarryRevision(pub: Publisher, w: World, was: VersionRow, row: VersionRow) returns (es: seq<Event>, end: World)
    requires AtRevision(pub, w, was) && was != row && w.db.progress < w.db.horizon
    requires pub.txs[w.db.progress] == Revise(was, row) && !AlreadyProcessed(w.db, w.db.progress)
    ensures Ran(pub, w, es, end) && AtRevision(pub, end, row)
    ensures end.db.progress == w.db.progress + 1 && end.db.horizon == w.db.horizon
    ensures end.hist.undone == w.hist.undone + [w.db.progress]
    ensures end.db.applied == Recorded(w.db.applied, {row}, w.db.progress)
  {
    var ops := [Restamp(was, row)];
    RevisionPasses(w, was, row);
    RevisionOps(was, row);
    assert {row} - {} == {row} && UndoVersions(Marker({row}, {}), {}) == Marker({row}, {});
    assert R.ScriptLog([]) == [] && Changes(pub.txs[w.db.progress]) == [];
    es, end := CarryOne(pub, w, [], ops, NO_TABLES);
  }

  function BackAndForth(a: VersionRow, b: VersionRow): Publisher {
    Publisher(map[], {a}, [Revise(a, b), Revise(b, a), Revise(a, b)])
  }

  lemma BackAndForthIsSound(a: VersionRow, b: VersionRow)
    requires a != b
    ensures Sound(BackAndForth(a, b))
  {
    var pub := BackAndForth(a, b);
    RevisionOps(a, b);
    RevisionOps(b, a);
    assert VersionsAt(pub, 0) == {a};
    assert VersionsAt(pub, 1) == {b};
    assert VersionsAt(pub, 2) == {a};
  }

  lemma RecordSteps(a: VersionRow, b: VersionRow)
    requires a != b
    ensures Recorded(map[], {b}, 0) == map[b := 0] && Recorded(map[b := 0], {a}, 1) == map[b := 0, a := 1]
    ensures Recorded(map[b := 0, a := 1], {b}, 2) == map[b := 2, a := 1]
    ensures (map[b := 2, a := 1]).Values == {1, 2}
  {
    var m := map[b := 2, a := 1];
    assert m[a] == 1 && m[b] == 2;
  }

  /** The applied record is not the undo history. The publisher upgrades, downgrades and upgrades again,
      and the follower carries all three; the third takes over the version row that named the first, so
      the record no longer knows the first although its undo committed. */
  lemma RecordTakenOver(a: VersionRow, b: VersionRow) returns (pub: Publisher, w: World, es: seq<Event>)
    requires a != b
    ensures Initial(pub, w) && Run(pub, w, es)
    ensures var end := After(pub, w, es);
      && end.db.progress == 3 && end.hist.undone == [0, 1, 2]
      && !AlreadyProcessed(end.db, 0) && AlreadyProcessed(end.db, 1) && AlreadyProcessed(end.db, 2)
  {
    pub := BackAndForth(a, b);
    BackAndForthIsSound(a, b);
    var shape := Shape(map[], NO_TABLES, [], {});
    var db := Db(Idle, true, false, shape, map[], map[], Marker({a}, {}), map[], 0, None, 3, NoCopy);
    w := World(db, History([], [], {}, [], {}, 0, {}, true));
    var w1, w2, w3, more;
    RecordSteps(a, b);
    es, w1 := CarryRevision(pub, w, a, b);
    more, w2 := CarryRevision(pub, w1, b, a);
    RunJoin(pub, w, es, w1, more, w2);
    es := es + more;
    more, w3 := CarryRevision(pub, w2, a, b);
    RunJoin(pub, w, es, w2, more, w3);
    es := es + more;
    assert w3.db.applied == map[b := 2, a := 1];
    assert w3.db.applied.Values == {1, 2};
  }

  // ---------------------------------------------------------------- a rewrite and a backfill

  /** A migration that rewrites a table and then fills a row with a value of its own. */
  function Backfill(f: Row -> Row, k: Key, row: Row): seq<R.Stmt> {
    [R.Rewrite(k.relid, 0, f), R.Dml([k.relid], [Upd(k, k, row)])]
  }

  lemma BackfillRuns(f: Row -> Row, k: Key, r: Row, row: Row)
    ensures var t, script := map[k := r], Backfill(f, k, row);
      && R.Runs(script, t) && R.Run(script, t) == map[k := row] && R.Reshaped(script, t) == map[k := f(r)]
      && R.ChangesOf(script) == [Upd(k, k, row)] && R.ScriptLog(script) == [Rewritten(k.relid, 0), Touch(k.relid)]
  {
    var t, script, u := map[k := r], Backfill(f, k, row), Upd(k, k, row);
    var tail := [script[1]];
    assert script[1..] == tail && tail[1..] == [] && [u][1..] == [];
    assert R.Reshape(script[0], t) == map[k := f(r)];
    OneUpdate(map[k := f(r)], u);
    assert R.Step(script[1], map[k := f(r)]) == map[k := row];
    assert R.Run(tail, map[k := f(r)]) == R.Run([], map[k := row]) && R.Runs(tail, map[k := f(r)]);
    assert R.Reshaped(tail, map[k := f(r)]) == map[k := f(r)];
    assert R.ChangesOf(tail) == [u] + R.ChangesOf([]) == [u] && R.ChangesOf(script) == [] + R.ChangesOf(tail);
    assert R.TouchLog([k.relid]) == [Touch(k.relid)];
    assert R.ScriptLog(tail) == R.StmtLog(script[1]) + R.ScriptLog([]) == [Touch(k.relid)];
    assert R.ScriptLog(script) == [Rewritten(k.relid, 0)] + R.ScriptLog(tail);
  }

  lemma OneUpdate(t: Table, u: Change)
    requires u.Upd? && u.was == u.key && u.key in t && t.Keys == {u.key}
    ensures EffectAll(t, [u]) == map[u.key := u.row] && ValidAll(t, [u]) && LogOf([u]) == [] && NoKeyChange([u])
  {
    assert [u][1..] == [] && [u][..0] == [];
    assert EffectAll(t, [u]) == EffectAll(Effect(t, u), []);
    assert LogOf([u]) == LogOf([u][..0]) + RowTrigger(u);
  }

  lemma BackfillSettles(k: Key, r: Row, mine: Row, theirs: Row)
    ensures Settles(map[k := r], [Upd(k, k, mine)], [Upd(k, k, theirs)])
  {
    var u, v := Upd(k, k, mine), Upd(k, k, theirs);
    OneUpdate(map[k := r], v);
    SettlesRowByRow(map[k := r], [u], [v]);
    assert [v][0].key == k;
    assert forall q :: !Deletes([u], q);
  }

  /** The one table of the example. */
  function OneTable(k: Key, name: string): Catalog { Catalog(map[k.relid := name], {k.relid}, map[], {}, {}) }

  lemma BackfillPasses(k: Key, name: string)
    ensures var c := OneTable(k, name);
      Check(Shape(ScopeNow(c), c, [Rewritten(k.relid, 0), Touch(k.relid)], {})).Pass?
  {
    var c := OneTable(k, name);
    var log := [Rewritten(k.relid, 0), Touch(k.relid)];
    var s := Shape(ScopeNow(c), c, log, {});
    assert log[1..] == [Touch(k.relid)] && log[1..][1..] == [];
    assert Ancestors(c, k.relid) == {} && !UnsafeRewrite(s, k.relid, 0, {});
    assert Unsafe(s, log[1..], {}) == Unsafe(s, [], {k.relid}) == {};
    assert Unsafe(s, log, {}) == {};
    assert Renames(s) == {} && KeyChanges(s) == {} && Rewrites(s) == {} && Values(s) == {};
  }

  lemma SameBackfill(f: Row -> Row, k: Key, name: string, mine: Row, theirs: Row, log: seq<LogEntry>)
    ensures var c := OneTable(k, name);
      OneMigration(Shape(ScopeNow(c), c, log, {}), Backfill(f, k, mine), Backfill(f, k, theirs))
  {
    var c := OneTable(k, name);
    assert k.relid in ScopeNow(c);
    forall row: Row ensures RowsTouched(c, R.Dml([k.relid], [Upd(k, k, row)])) {
      assert k.relid in set x | x in [k.relid];
    }
  }

  function BackfillPublisher(f: Row -> Row, k: Key, r: Row, theirs: Row, a: VersionRow, b: VersionRow): Publisher {
    Publisher(map[k := r], {a}, [Tx(Backfill(f, k, theirs), [Restamp(a, b)], {b})])
  }

  /** The subscriber as installed. */
  ghost function BackfillStart(k: Key, name: string, r: Row, a: VersionRow): World {
    var shape := Shape(map[], OneTable(k, name), [], {});
    World(Db(Idle, true, false, shape, map[], map[], Marker({a}, {}), map[k := r], 0, None, 1, NoCopy),
          History([], [], {}, [], {}, 0, {}, true))
  }

  lemma BackfillStarts(f: Row -> Row, k: Key, name: string, r: Row, theirs: Row, a: VersionRow, b: VersionRow)
    requires a != b
    ensures var pub, w := BackfillPublisher(f, k, r, theirs, a, b), BackfillStart(k, name, r, a);
      && Initial(pub, w) && Ready(pub, w) && At(pub, 0) == map[k := r] && At(pub, 1) == map[k := theirs]
  {
    var pub := BackfillPublisher(f, k, r, theirs, a, b);
    BackfillRuns(f, k, r, theirs);
    RevisionOps(a, b);
    assert At(pub, 0) == map[k := r] && VersionsAt(pub, 0) == {a};
    assert At(pub, 1) == R.Run(pub.txs[0].script, At(pub, 0));
  }

  lemma BackfillFits(f: Row -> Row, k: Key, name: string, r: Row, mine: Row, theirs: Row, a: VersionRow, b: VersionRow)
    requires a != b
    ensures var w, ops, script := BackfillStart(k, name, r, a), [Restamp(a, b)], Backfill(f, k, mine);
      var s := Replayed(w, script, ops, OneTable(k, name));
      && Check(s).Pass? && OneMigration(s, script, Backfill(f, k, theirs)) && SameRevision(w, ops, ops)
      && Migrate({a}, ops) == {b}
  {
    var w, ops := BackfillStart(k, name, r, a), [Restamp(a, b)];
    BackfillRuns(f, k, r, mine);
    RevisionOps(a, b);
    assert ops[1..] == [] && VersionEntries(ops) == [];
    var s := Replayed(w, Backfill(f, k, mine), ops, OneTable(k, name));
    assert s.log == [Rewritten(k.relid, 0), Touch(k.relid)];
    BackfillPasses(k, name);
    SameBackfill(f, k, name, mine, theirs, s.log);
    assert {b} - {} == {b};
  }

  lemma BackfillSettled(f: Row -> Row, k: Key, r: Row, mine: Row, theirs: Row, a: VersionRow, b: VersionRow)
    ensures var pub := BackfillPublisher(f, k, r, theirs, a, b);
      R.Runs(Backfill(f, k, mine), map[k := r]) && SettlesAt(pub, 0, Backfill(f, k, mine))
  {
    BackfillRuns(f, k, r, mine);
    BackfillRuns(f, k, r, theirs);
    BackfillSettles(k, f(r), mine, theirs);
  }

  /** The rewriting migration, start to end. The publisher rewrites a table and fills a row with `theirs`;
      the replay rewrites alike but computes `mine`. From installation there is a run after which the
      subscriber has the publisher's value in the publisher's shape. */
  lemma BackfillIsCarried(f: Row -> Row, k: Key, name: string, r: Row, mine: Row, theirs: Row, a: VersionRow, b: VersionRow)
    returns (es: seq<Event>)
    requires a != b
    ensures var pub, w := BackfillPublisher(f, k, r, theirs, a, b), BackfillStart(k, name, r, a);
      && Initial(pub, w) && Run(pub, w, es)
      && var end := After(pub, w, es);
         && end.db.status.Idle? && end.db.enabled && end.db.progress == 1 && end.hist.undone == [0]
         && end.db.data == map[k := theirs] == At(pub, 1)
  {
    var pub, w := BackfillPublisher(f, k, r, theirs, a, b), BackfillStart(k, name, r, a);
    BackfillStarts(f, k, name, r, theirs, a, b);
    BackfillFits(f, k, name, r, mine, theirs, a, b);
    BackfillSettled(f, k, r, mine, theirs, a, b);
    var end;
    es, end := MigrationIsCarried(pub, w, Backfill(f, k, mine), [Restamp(a, b)], OneTable(k, name));
  }
}
