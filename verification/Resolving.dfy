/** Whole runs through halts: the operator resolves what each one names, the migration resumes, and at the
    latest after one halt per case it is undone and applied. */
module Resolving {
  import opened Common
  import opened Tables
  import opened CopyAhead
  import opened UndoApply
  import opened ReplayShape
  import opened StallMarker
  import opened Protocol
  import opened Apart
  import opened WaivedChecks
  import opened LogComplete
  import opened Carrying
  import R = Rewrites

  // ---------------------------------------------------------------- counting halts

  function HaltsIn(es: seq<Event>): nat { if es == [] then 0 else (if Halts(es[0]) then 1 else 0) + HaltsIn(es[1..]) }

  lemma {:induction false} HaltsInConcat(a: seq<Event>, b: seq<Event>)
    ensures HaltsIn(a + b) == HaltsIn(a) + HaltsIn(b)
  {
    if a == [] {
      assert a + b == b;
    } else {
      assert (a + b)[1..] == a[1..] + b;
      HaltsInConcat(a[1..], b);
    }
  }

  lemma {:induction false} NoHaltsCount(es: seq<Event>)
    requires NoHalts(es)
    ensures HaltsIn(es) == 0
  {
    if es != [] {
      assert !Halts(es[0]) && forall i :: 0 <= i < |es[1..]| ==> es[1..][i] == es[i + 1];
      NoHaltsCount(es[1..]);
    }
  }

  // ---------------------------------------------------------------- one halt

  /** Everything a resolution leaves alone. */
  ghost predicate SameBut(w: World, w': World) {
    && w'.db == w.db.(shape := w'.db.shape, owed := w'.db.owed, status := w'.db.status,
                      enabled := w'.db.enabled, triggers := w'.db.triggers)
    && w'.hist == w.hist.(debts := w'.hist.debts)
  }

  /** Halted by the check at step undo, with the versions verified and nothing about a dropped relation. */
  ghost predicate AtHalt(pub: Publisher, w: World, d: Detail) {
    var db := w.db;
    && db.status.Halted? && db.status.prior == Some(d) && d.step.Undoing? && db.copy.NoCopy?
    && db.status.named == Check(db.shape) && db.status.named.HaltOn?
    && WellFormed(db.shape.catalog) && NoneStuck(db.shape) && Verified(Leaves(pub, d.xid), db.marker.rows)
  }

  ghost predicate Named(db: Db, r: Resolution) {
    && db.status.Halted? && db.status.prior.Some? && db.status.named.HaltOn?
    && r.kase == db.status.named.kase && r.target in db.status.named.targets && Resolvable(db.shape.catalog, r)
  }

  lemma ResolveOne(pub: Publisher, w: World, r: Resolution) returns (es: seq<Event>, end: World)
    requires Named(w.db, r)
    ensures Ran(pub, w, es, end) && NoHalts(es) && SameBut(w, end) && end.db.status == w.db.status
    ensures end.db.enabled == w.db.enabled && end.db.shape == Resolve(w.db.shape, r)
  {
    var e := ResolveTarget(r.target);
    assert r == Resolution(w.db.status.named.kase, r.target);
    RunOneMore(pub, w, [], w, e);
    es, end := [] + [e], ResolveWorld(w, r.target);
  }

  /** The targets the halt named, resolved one after another. */
  lemma {:induction false} ResolveEach(pub: Publisher, w: World, rs: seq<Resolution>) returns (es: seq<Event>, end: World)
    requires forall r :: r in rs ==> Named(w.db, r)
    requires AllResolvable(w.db.shape.catalog, rs)
    ensures Ran(pub, w, es, end) && NoHalts(es) && SameBut(w, end) && end.db.status == w.db.status
    ensures end.db.enabled == w.db.enabled && end.db.shape == ResolveAll(w.db.shape, rs)
    decreases |rs|
  {
    if rs == [] {
      es, end := [], w;
    } else {
      var first, w1;
      assert rs[0] in rs && forall r :: r in rs[1..] ==> r in rs;
      first, w1 := ResolveOne(pub, w, rs[0]);
      forall r | r in rs[1..] ensures Named(w1.db, r) { assert Named(w.db, r); }
      es, end := ResolveEach(pub, w1, rs[1..]);
      RunJoin(pub, w, first, w1, es, end);
      es := first + es;
    }
  }

  /** In step undo with the triggers off, where only the check may stand in the way. */
  ghost predicate AtCheck(pub: Publisher, w: World, d: Detail) {
    var db := w.db;
    && db.status == InProgress(d) && d.step.Undoing? && db.copy.NoCopy? && !db.triggers
    && WellFormed(db.shape.catalog) && NoneStuck(db.shape) && Verified(Leaves(pub, d.xid), db.marker.rows)
  }

  /** Answering a halt: what it named is resolved, the migration resumes, and the check comes next, later
      in its order. */
  lemma AnswerOne(pub: Publisher, w: World, d: Detail) returns (es: seq<Event>, end: World)
    requires AtHalt(pub, w, d)
    ensures Ran(pub, w, es, end) && NoHalts(es) && SameBut(w, end) && AtCheck(pub, end, d)
    ensures var v := Check(end.db.shape); v.Pass? || Order(v.kase) > Order(w.db.status.named.kase)
    ensures Inserted(end.db.shape.log) == Inserted(w.db.shape.log)
    ensures VersionsLogged(end.db.shape.log) == VersionsLogged(w.db.shape.log)
    ensures end.db.shape.catalog == w.db.shape.catalog
  {
    var rs := AnswerHalt(w.db.shape);
    HaltsMoveForward(w.db.shape, rs);
    ResolveAllProgresses(w.db.shape, rs);
    NoneGetsStuck(w.db.shape, rs);
    ResolveAllKeepsInserts(w.db.shape, rs);
    var w1;
    es, w1 := ResolveEach(pub, w, rs);
    RunOperator(pub, w, es, w1, Resume);
    var w2 := NextOperator(w1, Resume);
    es := es + [Resume];
    RunCarry(pub, w, es, w2, DropTriggers);
    es := es + [DropTriggers];
    end := NextCarry(w2, DropTriggers);
  }

  lemma {:induction false} ResolveAllKeepsInserts(s: Shape, rs: seq<Resolution>)
    requires AllResolvable(s.catalog, rs)
    ensures Inserted(ResolveAll(s, rs).log) == Inserted(s.log)
    ensures VersionsLogged(ResolveAll(s, rs).log) == VersionsLogged(s.log)
    decreases |rs|
  {
    if rs != [] {
      assert rs[0] in rs && forall r :: r in rs[1..] ==> r in rs;
      ResolveKeepsInserts(s, rs[0]);
      ResolveAllKeepsInserts(Resolve(s, rs[0]), rs[1..]);
    }
  }

  // ---------------------------------------------------------------- all of them

  function HaltsLeft(v: Verdict): nat { if v.Pass? then 0 else 4 - Order(v.kase) }

  /** From the check to a check that passes, in at most one halt per case that is left. */
  lemma {:induction false} ThroughHalts(pub: Publisher, w: World, d: Detail) returns (es: seq<Event>, end: World)
    requires AtCheck(pub, w, d)
    ensures Ran(pub, w, es, end) && SameBut(w, end) && end.db.status == InProgress(d) && CanUndo(pub, end.db)
    ensures HaltsIn(es) <= HaltsLeft(Check(w.db.shape)) && (HaltsIn(es) == 0 <==> Check(w.db.shape).Pass?)
    ensures Inserted(end.db.shape.log) == Inserted(w.db.shape.log)
    ensures VersionsLogged(end.db.shape.log) == VersionsLogged(w.db.shape.log)
    ensures end.db.shape.catalog == w.db.shape.catalog
    decreases HaltsLeft(Check(w.db.shape))
  {
    var v := Check(w.db.shape);
    if v.Pass? {
      es, end := [], w;
    } else {
      var e := Event.Halt(v, true, true);
      RunHalt(pub, w, [], w, e);
      var w1 := NextHalt(w, e);
      var more, w2 := AnswerOne(pub, w1, d);
      var rest;
      rest, end := ThroughHalts(pub, w2, d);
      RunJoin(pub, w, [] + [e], w1, more, w2);
      RunJoin(pub, w, [] + [e] + more, w2, rest, end);
      es := [] + [e] + more + rest;
      NoHaltsCount(more);
      HaltsInConcat([e], more);
      HaltsInConcat([e] + more, rest);
      assert HaltsIn([e]) == 1 + HaltsIn([e][1..]);
      assert [] + [e] == [e];
    }
  }

  /** The other half of the operator's promise: from any halt of the check that is not about a dropped
      relation there is a session to the undo, with at most three halts more. */
  lemma HaltedMigrationIsUndone(pub: Publisher, w: World, d: Detail) returns (es: seq<Event>, end: World)
    requires AtHalt(pub, w, d)
    ensures Ran(pub, w, es, end) && CanUndo(pub, end.db) && end.db.status == InProgress(d) && SameBut(w, end)
    ensures HaltsIn(es) <= 3 - Order(w.db.status.named.kase)
  {
    var w1, more;
    es, w1 := AnswerOne(pub, w, d);
    NoHaltsCount(es);
    more, end := ThroughHalts(pub, w1, d);
    RunJoin(pub, w, es, w1, more, end);
    HaltsInConcat(es, more);
    es := es + more;
  }

  // ---------------------------------------------------------------- from the stall to the pass

  /** As `Carries`, but for a check the operator still has to answer. */
  ghost predicate CarriesResolved(pub: Publisher, w: World, script: seq<R.Stmt>, versionOps: seq<VersionOp>, catalog: Catalog)
    requires w.db.progress < |pub.txs|
  {
    && R.Runs(script, w.db.data) && Verified(Leaves(pub, w.db.progress), Migrate(w.db.marker.rows, versionOps))
    && WellFormed(catalog) && NoneStuck(Replayed(w, script, versionOps, catalog)) && LetsThrough(pub, w, script, versionOps)
  }

  /** From the stall through every halt to the pass: a run that ends idle and on, with the undo made and
      the transaction applied, after at most four halts. */
  lemma CarryResolved(pub: Publisher, w: World, script: seq<R.Stmt>, versionOps: seq<VersionOp>, catalog: Catalog)
    returns (es: seq<Event>, end: World)
    requires Ready(pub, w) && CarriesResolved(pub, w, script, versionOps, catalog)
    ensures Ran(pub, w, es, end) && CarriedTo(pub, w, script, versionOps, end) && end.db.shape.catalog == catalog
    ensures HaltsIn(es) <= 4 && (HaltsIn(es) == 0 <==> Check(Replayed(w, script, versionOps, catalog)).Pass?)
  {
    var d := Detail(w.db.progress, Undoing, true, true);
    var before, w3 := ToTheCheck(pub, w, script, versionOps, catalog);
    var halts, w4 := ThroughHalts(pub, w3, d);
    var after;
    after, end := FromTheUndo(pub, w, script, versionOps, w4);
    RunJoin(pub, w, before, w3, halts, w4);
    RunJoin(pub, w, before + halts, w4, after, end);
    es := before + halts + after;
    NoHaltsCount(before);
    NoHaltsCount(after);
    HaltsInConcat(before, halts);
    HaltsInConcat(before + halts, after);
  }

  // ---------------------------------------------------------------- a rewrite after an update, remedied

  /** The migration the rewrite check is there for. */
  function LateRewrite(f: Row -> Row, k: Key, row: Row): seq<R.Stmt> {
    [R.Dml([k.relid], [Upd(k, k, row)]), R.Rewrite(k.relid, 0, f)]
  }

  function LatePublisher(f: Row -> Row, k: Key, r: Row, row: Row, a: VersionRow, b: VersionRow): Publisher {
    Publisher(map[k := r], {a}, [Tx(LateRewrite(f, k, row), [Restamp(a, b)], {b})])
  }

  lemma LateRuns(f: Row -> Row, k: Key, r: Row, row: Row)
    ensures var t, script := map[k := r], LateRewrite(f, k, row);
      && R.Runs(script, t) && R.Run(script, t) == map[k := f(row)]
      && R.ChangesOf(script) == [Upd(k, k, row)] && R.ScriptLog(script) == [Touch(k.relid), Rewritten(k.relid, 0)]
  {
    var t, script, u := map[k := r], LateRewrite(f, k, row), Upd(k, k, row);
    var tail := [script[1]];
    assert script[1..] == tail && tail[1..] == [];
    OneUpdate(t, u);
    assert R.Step(script[0], t) == map[k := row] && R.Step(script[1], map[k := row]) == map[k := f(row)];
    assert R.Run(tail, map[k := row]) == R.Run([], map[k := f(row)]) && R.Runs(tail, map[k := row]);
    assert R.ChangesOf(tail) == [] + R.ChangesOf([]) && R.ChangesOf(script) == [u] + R.ChangesOf(tail);
    assert R.TouchLog([k.relid]) == [Touch(k.relid)];
    assert R.ScriptLog(tail) == [Rewritten(k.relid, 0)] + R.ScriptLog([]);
    assert R.ScriptLog(script) == [Touch(k.relid)] + R.ScriptLog(tail);
  }

  /** Its replay halts, on the table itself. */
  lemma LateHalts(k: Key, name: string)
    ensures var c := OneTable(k, name);
      var s := Shape(ScopeNow(c), c, [Touch(k.relid), Rewritten(k.relid, 0)], {});
      !Check(s).Pass? && NoneStuck(s) && WellFormed(c)
  {
    var c := OneTable(k, name);
    var log := [Touch(k.relid), Rewritten(k.relid, 0)];
    var s := Shape(ScopeNow(c), c, log, {});
    assert log[1..] == [Rewritten(k.relid, 0)] && log[1..][1..] == [];
    assert UnsafeRewrite(s, k.relid, 0, {k.relid});
    assert Unsafe(s, log[1..], {k.relid}) == {k.relid} + Unsafe(s, [], {k.relid});
    assert Unsafe(s, log, {}) == {k.relid} by { assert {} + {k.relid} == {k.relid}; }
    assert Root(c, k.relid) == k.relid && Printed(c, k.relid) == Relation(name);
    assert Rewrites(s) == {Relation(name)};
    forall q | q in Issues(s) ensures !Stuck(q) { IssueIffTarget(s, q); }
  }

  lemma LateStarts(f: Row -> Row, k: Key, name: string, r: Row, row: Row, a: VersionRow, b: VersionRow)
    requires a != b
    ensures var pub, w := LatePublisher(f, k, r, row, a, b), BackfillStart(k, name, r, a);
      Initial(pub, w) && Ready(pub, w) && At(pub, 1) == map[k := f(row)] && VersionsAt(pub, 1) == {b}
  {
    var pub, ops := LatePublisher(f, k, r, row, a, b), [Restamp(a, b)];
    LateRuns(f, k, r, row);
    RevisionOps(a, b);
    assert At(pub, 0) == map[k := r] && VersionsAt(pub, 0) == {a};
    assert At(pub, 1) == R.Run(pub.txs[0].script, At(pub, 0)) && VersionsAt(pub, 1) == Migrate(VersionsAt(pub, 0), ops);
  }

  lemma LatePasses(f: Row -> Row, k: Key, name: string, r: Row, row: Row, a: VersionRow, b: VersionRow)
    requires a != b
    ensures var pub, w := LatePublisher(f, k, r, row, a, b), BackfillStart(k, name, r, a);
      && LetsThrough(pub, w, LateRewrite(f, k, row), [Restamp(a, b)])
      && ApplyAll(Undo(map[k := f(row)], R.ScriptLog(LateRewrite(f, k, row))), [Upd(k, k, row)]) == Ok(map[k := row])
      && UndoVersions(Marker(Migrate({a}, [Restamp(a, b)]), {}), Stamped([Restamp(a, b)])) == Marker({b}, {})
      && ApplyOps(Marker({b}, {}), [Restamp(a, b)]) == Passed(Marker({b}, {}), [])
  {
    LateRuns(f, k, r, row);
    RevisionOps(a, b);
    LateApplies(f, k, row);
    assert {b} - {} == {b};
  }

  lemma LateCarries(f: Row -> Row, k: Key, name: string, r: Row, row: Row, a: VersionRow, b: VersionRow)
    requires a != b
    ensures var pub, w := LatePublisher(f, k, r, row, a, b), BackfillStart(k, name, r, a);
      var script, ops := LateRewrite(f, k, row), [Restamp(a, b)];
      && CarriesResolved(pub, w, script, ops, OneTable(k, name))
      && !Check(Replayed(w, script, ops, OneTable(k, name))).Pass?
  {
    var w, script, ops := BackfillStart(k, name, r, a), LateRewrite(f, k, row), [Restamp(a, b)];
    LateRuns(f, k, r, row);
    RevisionOps(a, b);
    LatePasses(f, k, name, r, row, a, b);
    LateHalts(k, name);
    assert ops[1..] == [] && VersionEntries(ops) == [];
    assert Replayed(w, script, ops, OneTable(k, name)).log == [Touch(k.relid), Rewritten(k.relid, 0)];
  }

  lemma LateApplies(f: Row -> Row, k: Key, row: Row)
    ensures var log := [Touch(k.relid), Rewritten(k.relid, 0)];
      ApplyAll(Undo(map[k := f(row)], log), [Upd(k, k, row)]) == Ok(map[k := row])
  {
    var log, u := [Touch(k.relid), Rewritten(k.relid, 0)], Upd(k, k, row);
    assert Inserted(log) == {} && Undo(map[k := f(row)], log) == map[k := f(row)];
    assert [u][1..] == [] && Apply(map[k := f(row)], u) == Ok(map[k := row]);
    assert ApplyAll(map[k := f(row)], [u]) == ApplyAll(map[k := row], []);
  }

  /** Halted, resolved and carried: the row is as it was before the rewrite. */
  lemma LateIsCarried(f: Row -> Row, k: Key, name: string, r: Row, row: Row, a: VersionRow, b: VersionRow)
    returns (es: seq<Event>, end: World)
    requires a != b
    ensures var pub, w := LatePublisher(f, k, r, row, a, b), BackfillStart(k, name, r, a);
      && Ran(pub, w, es, end) && 1 <= HaltsIn(es) <= 4
      && end.db.status.Idle? && end.db.enabled && end.db.copy.NoCopy? && end.db.progress == 1 == end.db.horizon
      && end.hist.undone == [0] && end.db.data == map[k := row] && end.db.marker == Marker({b}, {})
  {
    var pub, w := LatePublisher(f, k, r, row, a, b), BackfillStart(k, name, r, a);
    LateStarts(f, k, name, r, row, a, b);
    LateCarries(f, k, name, r, row, a, b);
    LatePasses(f, k, name, r, row, a, b);
    LateRuns(f, k, r, row);
    es, end := CarryResolved(pub, w, LateRewrite(f, k, row), [Restamp(a, b)], OneTable(k, name));
  }

  /** And copied: the columns the copy takes are the publisher's. */
  lemma LateIsCopied(f: Row -> Row, k: Key, name: string, r: Row, row: Row, a: VersionRow, b: VersionRow,
                     cols: set<string>, all: bool, mid: World)
    returns (es: seq<Event>, end: World)
    requires a != b && f(row).Keys == row.Keys
    requires mid.db.status.Idle? && mid.db.enabled && mid.db.copy.NoCopy? && mid.db.progress == 1 == mid.db.horizon
    requires mid.db.data == map[k := row] && mid.db.marker == Marker({b}, {})
    ensures var pub := LatePublisher(f, k, r, row, a, b);
      && Ran(pub, mid, es, end) && NoHalts(es) && end.db.status.Idle? && end.db.enabled
      && end.db.data == map[k := Overwrite(row, f(row), cols)]
      && (end.db.data == At(pub, 1) <==> AgreeOff(row, f(row), cols))
  {
    var pub := LatePublisher(f, k, r, row, a, b);
    LateStarts(f, k, name, r, row, a, b);
    es, end := CopyNow(pub, mid, CopyBegin(name, {k.relid}, cols, all));
    assert Merge(map[k := row], map[k := f(row)], {k.relid}, cols) == map[k := Overwrite(row, f(row), cols)];
    OverwriteRepairs(row, f(row), cols);
    assert end.db.data[k] == Overwrite(row, f(row), cols) && At(pub, 1)[k] == f(row);
  }

  /** The remedy, start to end. A migration updates a row and then rewrites its table. From installation
      there is a run in which the check halts, the operator resolves and the migration is carried, which
      leaves the row as it was before the rewrite; and then copy-columns gives the publisher's row if and
      only if the rewrite changed nothing but the copied columns. */
  lemma LateRewriteRemedied(f: Row -> Row, k: Key, name: string, r: Row, row: Row, a: VersionRow, b: VersionRow,
                            cols: set<string>, all: bool)
    returns (es: seq<Event>, mid: World, more: seq<Event>)
    requires a != b && f(row).Keys == row.Keys
    ensures var pub, w := LatePublisher(f, k, r, row, a, b), BackfillStart(k, name, r, a);
      && Initial(pub, w) && Ran(pub, w, es, mid) && 1 <= HaltsIn(es) <= 4
      && mid.db.status.Idle? && mid.db.progress == 1 && mid.hist.undone == [0] && mid.db.data == map[k := row]
      && Run(pub, mid, more) && NoHalts(more)
      && var end := After(pub, mid, more).db;
         && end.status.Idle? && end.enabled && end.data == map[k := Overwrite(row, f(row), cols)]
         && (end.data == At(pub, 1) <==> AgreeOff(row, f(row), cols))
  {
    var end;
    LateStarts(f, k, name, r, row, a, b);
    es, mid := LateIsCarried(f, k, name, r, row, a, b);
    more, end := LateIsCopied(f, k, name, r, row, a, b, cols, all, mid);
  }
}
