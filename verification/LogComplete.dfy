/** From the persisted step `log` until the undo commits, the replay log names every row the replay
    inserted. This needs halts to be complete: one that is cut short, or one that keeps no detail,
    breaks it, and the two lemmas at the end say how. */
module LogComplete {
  import opened Common
  import opened Tables
  import opened UndoApply
  import opened ReplayShape
  import opened StallMarker
  import opened Protocol
  import opened ChecksSuffice
  import opened Apart
  import opened WaivedChecks
  import R = Rewrites
  import opened ExactlyOnce

  /** Halts that keep what a replay needs: none is cut short while the migration runs, and none
      drops the detail of a replay (the configuration guard's halt does, whatever the status). */
  ghost predicate Careful(w: World, e: Event) {
    && (e.HaltTorn? && e.cleaned ==> !InStep(w.db, Migrating))
    && (e.HaltBare? ==> Current(w.db).Some? ==> !Replaying(Current(w.db).value))
  }

  ghost predicate CarefulRun(pub: Publisher, w: World, es: seq<Event>)
    decreases |es|
  {
    es == [] || (Can(pub, w, es[0]) && Careful(w, es[0]) && CarefulRun(pub, Next(pub, w, es[0]), es[1..]))
  }

  /** The log of a replay: every row and version row it inserted is there and nothing else counts as
      inserted. */
  ghost predicate Logs(log: seq<LogEntry>, hist: History) {
    Inserted(log) == Inserted(LogOf(R.ChangesOf(hist.script))) && VersionsLogged(log) == hist.stamps
  }

  /** And it is exactly what the triggers wrote of the statements run, in order, but for what resolved
      rewrites deleted. */
  ghost predicate LogsExactly(log: seq<LogEntry>, waived: set<nat>, script: seq<R.Stmt>) {
    DataEntries(log) == Without(waived, R.ScriptLog(script))
  }

  ghost predicate Logged(w: World) {
    var db, hist := w.db, w.hist;
    match Current(db)
    case None => db.shape.resolutions == {}
    case Some(d) =>
      && (d.step.Disabling? || d.step.Logging? ==> !d.scoped && hist.script == [] && hist.stamps == {})
      && (Replaying(d) ==>
            && Logs(db.shape.log, hist)
            && (!KeysWaived(db.shape) ==> LogsExactly(db.shape.log, RewritesWaived(db.shape), hist.script)))
      && (!d.step.Undoing? ==> db.shape.resolutions == {})
      && (InStep(db, Migrating) ==> db.triggers)
  }

  lemma NothingResolved(s: Shape)
    requires s.resolutions == {}
    ensures RewritesWaived(s) == {} && ValuesWaived(s) == {} && !KeysWaived(s)
  {
    assert Roots(s) == {};
  }

  lemma VersionsLoggedSplits(a: seq<LogEntry>, b: seq<LogEntry>)
    ensures VersionsLogged(a + b) == VersionsLogged(a) + VersionsLogged(b)
  {
  }

  lemma VersionEntriesOnly(ops: seq<VersionOp>)
    ensures Inserted(VersionEntries(ops)) == {} && VersionsLogged(VersionEntries(ops)) == Stamped(ops)
    ensures DataEntries(VersionEntries(ops)) == []
  {
    forall e | e in VersionEntries(ops) ensures e.VersionInsert? { VersionEntryMembers(ops, e); }
    NoneData(VersionEntries(ops));
    forall v ensures v in VersionsLogged(VersionEntries(ops)) <==> v in Stamped(ops) {
      VersionEntryMembers(ops, VersionInsert(v));
    }
  }

  lemma {:induction false} VersionEntryMembers(ops: seq<VersionOp>, e: LogEntry)
    ensures e in VersionEntries(ops) <==> e.VersionInsert? && Stamp(e.version) in ops
  {
    if ops != [] {
      VersionEntryMembers(ops[1..], e);
      assert e.VersionInsert? ==> (Stamp(e.version) in ops <==> Stamp(e.version) == ops[0] || Stamp(e.version) in ops[1..]);
    }
  }

  lemma ScriptLogHasNoVersions(script: seq<R.Stmt>)
    ensures VersionsLogged(R.ScriptLog(script)) == {} && DataEntries(R.ScriptLog(script)) == R.ScriptLog(script)
  {
    forall e | e in R.ScriptLog(script) ensures !e.VersionInsert? { ScriptLogIsData(script, e); }
    AllData(R.ScriptLog(script));
  }

  lemma MigrationIsLogged(log: seq<LogEntry>, hist: History, script: seq<R.Stmt>, versionOps: seq<VersionOp>)
    requires Logs(log, hist) && LogsExactly(log, {}, hist.script)
    ensures var log' := log + (R.ScriptLog(script) + VersionEntries(versionOps));
      && Logs(log', hist.(script := hist.script + script, stamps := hist.stamps + Stamped(versionOps)))
      && LogsExactly(log', {}, hist.script + script)
  {
    var a, b := R.ScriptLog(script), VersionEntries(versionOps);
    ScriptLogHasNoVersions(script);
    VersionEntriesOnly(versionOps);
    VersionsLoggedSplits(a, b);
    VersionsLoggedSplits(log, a + b);
    ScriptGrows(log, hist.script, script, b);
    DataEntriesConcat(log, a + b);
    DataEntriesConcat(a, b);
    R.ScriptLogConcat(hist.script, script);
    WithoutNothing(R.ScriptLog(hist.script));
    WithoutNothing(R.ScriptLog(hist.script + script));
    assert a + [] == a;
  }

  lemma ScriptGrows(log: seq<LogEntry>, before: seq<R.Stmt>, script: seq<R.Stmt>, versions: seq<LogEntry>)
    requires Inserted(log) == Inserted(LogOf(R.ChangesOf(before))) && Inserted(versions) == {}
    ensures Inserted(log + (R.ScriptLog(script) + versions)) == Inserted(LogOf(R.ChangesOf(before + script)))
  {
    var a := R.ScriptLog(script);
    R.ScriptLogInserts(script);
    R.ChangesConcat(before, script);
    LogOfConcat(R.ChangesOf(before), R.ChangesOf(script));
    InsertedSplits(LogOf(R.ChangesOf(before)), LogOf(R.ChangesOf(script)));
    InsertedSplits(a, versions);
    InsertedSplits(log, a + versions);
  }

  lemma ResolveKeepsInserts(s: Shape, r: Resolution)
    requires Resolvable(s.catalog, r)
    ensures Inserted(Resolve(s, r).log) == Inserted(s.log)
    ensures VersionsLogged(Resolve(s, r).log) == VersionsLogged(s.log)
  {
  }

  /** A resolved rewrite's entries go from the log, and the exactness with them only for its tables. */
  lemma ResolveKeepsExact(s: Shape, r: Resolution, script: seq<R.Stmt>)
    requires Resolvable(s.catalog, r) && r.kase != KeyCase && LogsExactly(s.log, RewritesWaived(s), script)
    ensures LogsExactly(Resolve(s, r).log, RewritesWaived(Resolve(s, r)), script)
  {
    var s' := Resolve(s, r);
    if r.kase == RewriteCase {
      var oid := OidOf(s.catalog, r.target.name);
      RootsGrow(s, r, oid);
      DropIsWithout(s.catalog, oid, s.log);
      WithoutTwice(Tree(s.catalog, oid), RewritesWaived(s), R.ScriptLog(script));
      assert Tree(s.catalog, oid) + RewritesWaived(s) == RewritesWaived(s');
    } else {
      assert Roots(s') == Roots(s);
    }
  }

  lemma RootsGrow(s: Shape, r: Resolution, oid: nat)
    requires Resolvable(s.catalog, r) && r.kase == RewriteCase && oid == OidOf(s.catalog, r.target.name)
    ensures Roots(Resolve(s, r)) == Roots(s) + {oid}
    ensures RewritesWaived(Resolve(s, r)) == RewritesWaived(s) + Tree(s.catalog, oid)
  {
    var s' := Resolve(s, r);
    assert r in s'.resolutions && s'.catalog == s.catalog;
    forall o ensures o in Roots(s') <==> o in Roots(s) + {oid} {
      if o in Roots(s') {
        var q :| q in s'.resolutions && q.kase == RewriteCase && q.target.Relation?
          && q.target.name in s.catalog.names.Values && o == OidOf(s.catalog, q.target.name);
        assert q in s.resolutions || q == r;
      }
    }
    assert Roots(s') == Roots(s) + {oid};
  }

  lemma ApplyKeepsLogged(pub: Publisher, w: World, e: Event)
    requires Logged(w) && OfApply(e) && CanApply(pub, w.db, e)
    ensures Logged(NextApply(pub, w, e))
  {
  }

  lemma EmptyLog()
    ensures LogOf([]) == [] && Inserted([]) == {} && VersionsLogged([]) == {} && DataEntries([]) == []
    ensures R.ChangesOf([]) == [] && R.ScriptLog([]) == []
  {
  }

  lemma StartKeepsLogged(pub: Publisher, w: World, e: Event)
    requires Safe(pub, w) && Logged(w) && OfStart(e) && CanStart(pub, w.db, e)
    ensures Logged(NextStart(pub, w, e))
  {
    EmptyLog();
    NothingResolved(w.db.shape);
    NothingResolved(NextStart(pub, w, e).db.shape);
  }

  lemma MigrateKeepsLogged(w: World, script: seq<R.Stmt>, versionOps: seq<VersionOp>, catalog: Catalog)
    requires Logged(w) && CanMigrate(w.db, script)
    ensures Logged(MigrateWorld(w, script, versionOps, catalog))
  {
    NothingResolved(w.db.shape);
    NothingResolved(MigrateWorld(w, script, versionOps, catalog).db.shape);
    MigrationIsLogged(w.db.shape.log, w.hist, script, versionOps);
  }

  lemma CarryKeepsLogged(w: World, e: Event)
    requires Logged(w) && OfCarry(e) && CanCarry(w.db, e)
    ensures Logged(NextCarry(w, e))
  {
  }

  lemma UndoKeepsLogged(pub: Publisher, w: World)
    requires CanUndo(pub, w.db)
    ensures Logged(UndoWorld(pub, w))
  {
  }

  lemma HaltKeepsLogged(w: World, e: Event)
    requires Logged(w) && Halts(e) && CanHalt(w.db, e) && Careful(w, e)
    ensures Logged(NextHalt(w, e))
  {
  }

  lemma OperatorKeepsLogged(pub: Publisher, w: World, e: Event)
    requires Safe(pub, w) && Logged(w) && OfOperator(e) && CanOperate(w.db, e)
    ensures Logged(NextOperator(w, e))
  {
  }

  lemma ResolveKeepsLogged(pub: Publisher, w: World, t: Target)
    requires Safe(pub, w) && Logged(w) && CanResolve(w.db, t)
    ensures Logged(ResolveWorld(w, t))
  {
    var r := Resolution(w.db.status.named.kase, t);
    ResolveKeepsInserts(w.db.shape, r);
    var w' := ResolveWorld(w, t);
    assert w'.db.shape == Resolve(w.db.shape, r) && w'.db.status == w.db.status;
    assert w'.hist.script == w.hist.script && w'.hist.stamps == w.hist.stamps;
    assert r in w'.db.shape.resolutions && forall q :: q in w.db.shape.resolutions ==> q in w'.db.shape.resolutions;
    if !KeysWaived(w'.db.shape) { ResolveKeepsExact(w.db.shape, r, w.hist.script); }
  }

  lemma CopyKeepsLogged(pub: Publisher, w: World, e: Event)
    requires Separate(w) && Logged(w) && OfCopy(e) && CanCopy(pub, w.db, e)
    ensures Logged(NextCopy(pub, w, e))
  {
  }

  lemma KeepsLogged(pub: Publisher, w: World, e: Event)
    requires Safe(pub, w) && Logged(w) && Can(pub, w, e) && Careful(w, e)
    ensures Logged(Next(pub, w, e))
  {
    if OfApply(e) { ApplyKeepsLogged(pub, w, e); }
    else if OfStart(e) { StartKeepsLogged(pub, w, e); }
    else if e.MigrateTx? { MigrateKeepsLogged(w, e.script, e.versionOps, e.catalog); }
    else if OfCarry(e) { CarryKeepsLogged(w, e); }
    else if e.UndoCommit? { UndoKeepsLogged(pub, w); }
    else if Halts(e) { HaltKeepsLogged(w, e); }
    else if OfOperator(e) { OperatorKeepsLogged(pub, w, e); }
    else if e.ResolveTarget? { ResolveKeepsLogged(pub, w, e.target); }
    else { CopyKeepsLogged(pub, w, e); }
  }

  lemma {:induction false} LoggedThroughout(pub: Publisher, w: World, es: seq<Event>)
    requires Safe(pub, w) && Logged(w) && CarefulRun(pub, w, es)
    ensures Run(pub, w, es) && Safe(pub, After(pub, w, es)) && Logged(After(pub, w, es))
    decreases |es|
  {
    if es != [] {
      KeepsSafe(pub, w, es[0]);
      KeepsLogged(pub, w, es[0]);
      LoggedThroughout(pub, Next(pub, w, es[0]), es[1..]);
    }
  }

  lemma {:induction false} InsertIsLogged(ops: seq<Change>, k: Key, r: Row)
    requires Ins(k, r) in ops
    ensures k in Inserted(LogOf(ops))
  {
    var n := |ops| - 1;
    if ops[n] == Ins(k, r) {
      assert Insert(k) in LogOf(ops);
    } else {
      assert ops == ops[..n] + [ops[n]];
      assert Ins(k, r) in ops[..n];
      InsertIsLogged(ops[..n], k, r);
      assert Insert(k) in LogOf(ops[..n]);
      assert Insert(k) in LogOf(ops);
    }
  }

  /** While a replay is under way, running or halted, every row it inserted is in the log, and so is
      every version row it stamped. */
  lemma ReplayLogComplete(pub: Publisher, w: World, es: seq<Event>)
    requires Initial(pub, w) && CarefulRun(pub, w, es)
    ensures Run(pub, w, es)
    ensures var end := After(pub, w, es);
      Current(end.db).Some? && Replaying(Current(end.db).value) ==>
        && (forall k, r :: Ins(k, r) in R.ChangesOf(end.hist.script) ==> k in Inserted(end.db.shape.log))
        && end.hist.stamps == VersionsLogged(end.db.shape.log)
  {
    InitiallySafe(pub, w);
    LoggedThroughout(pub, w, es);
    var end := After(pub, w, es);
    forall k, r | Ins(k, r) in R.ChangesOf(end.hist.script) ensures k in Inserted(LogOf(R.ChangesOf(end.hist.script))) {
      InsertIsLogged(R.ChangesOf(end.hist.script), k, r);
    }
  }

  /** The fail-closed check at work: at every undo in such a run for which no key change was resolved, the
      replay has changed no key; and outside the tables whose rewrites and defaults were resolved it has
      reshaped no table after writing to it, and rewritten none with a value of its own. */
  lemma UndoneMigrationsPassed(pub: Publisher, w: World, es: seq<Event>, d: set<nat>, theirs: seq<R.Stmt>, t: Table)
    requires Initial(pub, w) && CarefulRun(pub, w, es) && Run(pub, w, es)
    requires Can(pub, After(pub, w, es), UndoCommit) && !KeysWaived(After(pub, w, es).db.shape)
    ensures var end := After(pub, w, es);
      && NoKeyChange(R.ChangesOf(end.hist.script))
      && (SameOutside(end.db.shape, d, end.hist.script, theirs) ==> ShapedAlike(d, end.hist.script, theirs, t))
  {
    InitiallySafe(pub, w);
    LoggedThroughout(pub, w, es);
    UndoPassedChecks(pub, After(pub, w, es), d, theirs, t);
  }

  /** Outside `d`, which holds everything resolved, the two scripts are the same migration. */
  ghost predicate SameOutside(s: Shape, d: set<nat>, mine: seq<R.Stmt>, theirs: seq<R.Stmt>) {
    Nested(s.catalog) && Lifted(s) <= d && OneMigration(s, Trim(d, mine), Trim(d, theirs))
  }

  ghost predicate ShapedAlike(d: set<nat>, mine: seq<R.Stmt>, theirs: seq<R.Stmt>, t: Table) {
    && R.ShapesFirst(Trim(d, mine)) && R.ShapesFirst(Trim(d, theirs))
    && R.Reshaped(Trim(d, mine), t) == R.Reshaped(Trim(d, theirs), t)
  }

  lemma UndoPassedChecks(pub: Publisher, w: World, d: set<nat>, theirs: seq<R.Stmt>, t: Table)
    requires Logged(w) && CanUndo(pub, w.db) && !KeysWaived(w.db.shape)
    ensures NoKeyChange(R.ChangesOf(w.hist.script))
    ensures SameOutside(w.db.shape, d, w.hist.script, theirs) ==> ShapedAlike(d, w.hist.script, theirs, t)
  {
    var s, script := w.db.shape, w.hist.script;
    CheckReadsTargets(s);
    assert Targets(s, KeyCase) == {};
    KeysStayLogged(s, script, RewritesWaived(s));
    KeyCheckReads(s, script);
    if SameOutside(s, d, script, theirs) {
      WaivedIsClosed(s);
      PassingChecksSufficeOutside(s, RewritesWaived(s), d, script, theirs, t);
    }
  }

  // ---------------------------------------------------------------- what an incomplete halt does

  /** A crash inside halt(), after the triggers were dropped and before the state was written, at
      step `migrate`: the restarted migration may insert any row and nothing records it. */
  lemma TornHaltLosesRows(pub: Publisher, w: World, k: Key, r: Row)
    requires InStep(w.db, Migrating) && w.db.copy.NoCopy? && k !in w.db.data && k !in Inserted(w.db.shape.log)
    ensures var es := [HaltTorn(true, true), MigrateTx([R.Dml([k.relid], [Ins(k, r)])], [], w.db.shape.catalog)];
      Run(pub, w, es) && var end := After(pub, w, es).db;
        InStep(end, Migrating) && k in end.data && k !in Inserted(end.shape.log)
  {
    var script := [R.Dml([k.relid], [Ins(k, r)])];
    var m := MigrateTx(script, [], w.db.shape.catalog);
    var es := [HaltTorn(true, true), m];
    var w1 := Next(pub, w, HaltTorn(true, true));
    OneInsertRuns(w1.db.data, k, r);
    assert Can(pub, w1, m);
    assert es[1..] == [m] && es[1..][1..] == [];
    var w2 := Next(pub, w1, m);
    assert w2.db.shape.log == w.db.shape.log + [] == w.db.shape.log;
    assert After(pub, w, es) == After(pub, w1, [m]) == After(pub, w2, []);
  }

  lemma OneInsertRuns(t: Table, k: Key, r: Row)
    requires k !in t
    ensures var script := [R.Dml([k.relid], [Ins(k, r)])]; R.Runs(script, t) && R.Run(script, t) == t[k := r]
  {
    var script := [R.Dml([k.relid], [Ins(k, r)])];
    assert [Ins(k, r)][1..] == [] && script[1..] == [];
    assert EffectAll(t, [Ins(k, r)]) == EffectAll(t[k := r], []);
    assert ValidAll(t, [Ins(k, r)]);
    assert R.Run(script, t) == R.Run([], R.Step(script[0], t));
  }

  /** A halt that keeps no detail, in the middle of a replay: the next resume goes idle with the
      replayed rows still in the tables and the undo never made. */
  lemma BareHaltForgetsReplay(pub: Publisher, w: World)
    requires Safe(pub, w) && w.db.copy.NoCopy?
    requires Current(w.db).Some? && Replaying(Current(w.db).value)
    ensures var es := [HaltBare(true, true), ResumeIdle];
      Run(pub, w, es) && var end := After(pub, w, es);
        && end.db.status.Idle? && end.db.data == w.db.data && end.db.shape.log == w.db.shape.log
        && Current(w.db).value.xid !in end.hist.undone
  {
    var es := [HaltBare(true, true), ResumeIdle];
    var w1 := Next(pub, w, HaltBare(true, true));
    assert es[1..] == [ResumeIdle] && es[1..][1..] == [];
    var w2 := Next(pub, w1, ResumeIdle);
    assert After(pub, w, es) == After(pub, w1, [ResumeIdle]) == After(pub, w2, []);
  }
}
