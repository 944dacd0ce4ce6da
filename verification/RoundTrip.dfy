/** What the copy's version guard does not see. It compares version rows, not positions: a publisher that
    goes to another revision and back passes it, and a copy then carries rows across two migrations. */
module RoundTrip {
  import opened Common
  import opened Tables
  import opened UndoApply
  import opened CopyAhead
  import opened ReplayShape
  import opened StallMarker
  import opened Protocol
  import opened Carrying
  import R = Rewrites

  /** One row, reshaped by `f` on the way to revision `b` and by `g` on the way back to `a`. */
  function Reshaping(k: Key, f: Row -> Row, was: VersionRow, row: VersionRow): Tx {
    Tx([R.Rewrite(k.relid, 0, f)], [Restamp(was, row)], {row})
  }

  function ThereAndBack(k: Key, r: Row, f: Row -> Row, g: Row -> Row, a: VersionRow, b: VersionRow): Publisher {
    Publisher(map[k := r], {a}, [Reshaping(k, f, a, b), Reshaping(k, g, b, a)])
  }

  ghost function Installed(k: Key, name: string, r: Row, a: VersionRow): World {
    var shape := Shape(map[], OneTable(k, name), [], {});
    World(Db(Idle, true, false, shape, map[], map[], Marker({a}, {}), map[k := r], 0, None, 0, NoCopy),
          History([], [], {}, [], {}, 0, {}, true))
  }

  lemma ReshapingRuns(k: Key, f: Row -> Row, r: Row)
    ensures var script, t := [R.Rewrite(k.relid, 0, f)], map[k := r];
      && R.Runs(script, t) && R.Run(script, t) == map[k := f(r)]
      && R.ChangesOf(script) == [] && R.ScriptLog(script) == [Rewritten(k.relid, 0)]
  {
    var script, t := [R.Rewrite(k.relid, 0, f)], map[k := r];
    assert script[1..] == [] && R.Step(script[0], t) == map[k := f(r)];
    assert R.Run(script, t) == R.Run([], map[k := f(r)]);
    assert R.ScriptLog(script) == [Rewritten(k.relid, 0)] + R.ScriptLog([]);
  }

  lemma ThereAndBackStates(k: Key, r: Row, f: Row -> Row, g: Row -> Row, a: VersionRow, b: VersionRow)
    requires a != b
    ensures var pub := ThereAndBack(k, r, f, g, a, b);
      && Sound(pub) && At(pub, 1) == map[k := f(r)] && At(pub, 2) == map[k := g(f(r))]
      && VersionsAt(pub, 0) == {a} && VersionsAt(pub, 1) == {b} && VersionsAt(pub, 2) == {a} && !Calm(pub, 0, 2)
  {
    var pub := ThereAndBack(k, r, f, g, a, b);
    ReshapingRuns(k, f, r);
    ReshapingRuns(k, g, f(r));
    RevisionOps(a, b);
    RevisionOps(b, a);
    assert At(pub, 0) == map[k := r] && VersionsAt(pub, 0) == {a};
    assert At(pub, 1) == R.Run(pub.txs[0].script, At(pub, 0)) && VersionsAt(pub, 1) == {b};
    assert At(pub, 2) == R.Run(pub.txs[1].script, At(pub, 1));
    assert pub.txs[0].versionOps != [];
  }

  // ---------------------------------------------------------------- the copy

  lemma MergedRow(k: Key, mine: Row, theirs: Row, cols: set<string>)
    ensures Merge(map[k := mine], map[k := theirs], {k.relid}, cols) == map[k := Overwrite(mine, theirs, cols)]
  {
  }

  /** Up to the snapshot: the lock, DISABLE, and both migrations on the publisher. */
  lemma CopyBegins(pub: Publisher, w: World, begin: Event) returns (es: seq<Event>, mid: World)
    requires |pub.txs| == 2 && w.db.status.Idle? && w.db.enabled && w.db.copy.NoCopy?
    requires w.db.progress == 0 == w.db.horizon && begin.CopyBegin?
    ensures Ran(pub, w, es, mid) && NoHalts(es) && mid.hist == w.hist
    ensures mid.db == w.db.(enabled := false, horizon := 2,
                            copy := Copying(begin.table, begin.relids, begin.cols, begin.all, 0, Off))
  {
    es := [] + [begin];
    RunCopy(pub, w, [], w, begin);
    var w1 := NextCopy(pub, w, begin);
    RunCopy(pub, w, es, w1, CopyOff);
    es := es + [CopyOff];
    var w2 := NextCopy(pub, w1, CopyOff);
    RunApply(pub, w, es, w2, Commit);
    es := es + [Commit];
    var w3 := NextApply(pub, w2, Commit);
    RunApply(pub, w, es, w3, Commit);
    es := es + [Commit];
    mid := NextApply(pub, w3, Commit);
  }

  /** The copy passes the guard with both migrations between apply and the snapshot. */
  lemma CopyPasses(k: Key, name: string, r: Row, f: Row -> Row, g: Row -> Row, a: VersionRow, b: VersionRow,
                   cols: set<string>, all: bool)
    returns (es: seq<Event>, end: World)
    requires a != b
    ensures var pub, w := ThereAndBack(k, r, f, g, a, b), Installed(k, name, r, a);
      && Ran(pub, w, es, end) && NoHalts(es) && CopyWrite(2) in es && end.hist.undone == []
      && end.db == w.db.(data := map[k := Overwrite(r, g(f(r)), cols)], horizon := 2)
  {
    var pub, w := ThereAndBack(k, r, f, g, a, b), Installed(k, name, r, a);
    ThereAndBackStates(k, r, f, g, a, b);
    MergedRow(k, r, g(f(r)), cols);
    var mid, more;
    es, mid := CopyBegins(pub, w, CopyBegin(name, {k.relid}, cols, all));
    more, end := CopyEnds(pub, mid, 2);
    assert OwedLeft(map[], name, cols, all) == map[];
    RunJoin(pub, w, es, mid, more, end);
    es := es + more;
  }

  // ---------------------------------------------------------------- carrying both

  lemma ReshapingPasses(k: Key, name: string)
    ensures var c := OneTable(k, name);
      Check(Shape(ScopeNow(c), c, [Rewritten(k.relid, 0)], {})).Pass?
  {
    var c := OneTable(k, name);
    var log := [Rewritten(k.relid, 0)];
    var s := Shape(ScopeNow(c), c, log, {});
    assert log[1..] == [] && Ancestors(c, k.relid) == {} && !UnsafeRewrite(s, k.relid, 0, {});
    assert Unsafe(s, log, {}) == {};
    assert Renames(s) == {} && KeyChanges(s) == {} && Rewrites(s) == {} && Values(s) == {};
  }

  /** An idle follower with one row, at a revision. */
  ghost predicate Stands(k: Key, name: string, w: World, row: Row, v: VersionRow) {
    var db := w.db;
    && db.status.Idle? && db.enabled && db.copy.NoCopy? && db.shape.resolutions == {} && db.shape.catalog == OneTable(k, name)
    && db.data == map[k := row] && db.marker == Marker({v}, {})
  }

  lemma ReshapingCarries(pub: Publisher, w: World, k: Key, name: string, row: Row, f: Row -> Row,
                         was: VersionRow, v: VersionRow)
    requires Stands(k, name, w, row, was) && was != v && w.db.progress < |pub.txs|
    requires pub.txs[w.db.progress] == Reshaping(k, f, was, v)
    ensures var script, ops := [R.Rewrite(k.relid, 0, f)], [Restamp(was, v)];
      && Carries(pub, w, script, ops, OneTable(k, name)) && MarkerStops(pub, w.db, w.db.progress)
      && Undo(R.Run(script, w.db.data), R.ScriptLog(script)) == map[k := f(row)]
      && UndoVersions(Marker(Migrate({was}, ops), {}), Stamped(ops)) == Marker({v}, {})
  {
    var script, ops := [R.Rewrite(k.relid, 0, f)], [Restamp(was, v)];
    ReshapingRuns(k, f, row);
    RevisionOps(was, v);
    ReshapingPasses(k, name);
    assert ops[1..] == [] && VersionEntries(ops) == [];
    assert Replayed(w, script, ops, OneTable(k, name)).log == [Rewritten(k.relid, 0)];
    assert {v} - {} == {v};
    assert Inserted([Rewritten(k.relid, 0)]) == {};
    assert Undo(map[k := f(row)], [Rewritten(k.relid, 0)]) == map[k := f(row)];
  }

  lemma CarryReshaping(pub: Publisher, w: World, k: Key, name: string, row: Row, f: Row -> Row,
                       was: VersionRow, v: VersionRow)
    returns (es: seq<Event>, end: World)
    requires Stands(k, name, w, row, was) && was != v && w.db.progress < w.db.horizon <= |pub.txs|
    requires pub.txs[w.db.progress] == Reshaping(k, f, was, v) && !AlreadyProcessed(w.db, w.db.progress)
    ensures Ran(pub, w, es, end) && NoHalts(es) && Stands(k, name, end, f(row), v)
    ensures end.db.progress == w.db.progress + 1 && end.db.horizon == w.db.horizon
    ensures end.hist.undone == w.hist.undone + [w.db.progress]
    ensures end.db.applied == Recorded(w.db.applied, {v}, w.db.progress)
  {
    ReshapingCarries(pub, w, k, name, row, f, was, v);
    RevisionOps(was, v);
    ReshapingRuns(k, f, row);
    es, end := CarryOne(pub, w, [R.Rewrite(k.relid, 0, f)], [Restamp(was, v)], OneTable(k, name));
  }

  /** A whole run the guard lets through. From installation: a copy during which the publisher migrates
      to another revision and back, and then the two migrations, carried one after the other. No halt is
      raised; and at the end the subscriber has the publisher's row if and only if reshaping the copied
      row twice gives what reshaping the old one twice gives, for the copy put columns reshaped already
      under two reshapings still to come. */
  lemma GuardMissesRoundTrip(k: Key, name: string, r: Row, f: Row -> Row, g: Row -> Row, a: VersionRow, b: VersionRow,
                             cols: set<string>, all: bool)
    returns (es: seq<Event>)
    requires a != b
    ensures var pub, w := ThereAndBack(k, r, f, g, a, b), Installed(k, name, r, a);
      && Initial(pub, w) && Run(pub, w, es) && NoHalts(es) && CopyWrite(2) in es
      && var end := After(pub, w, es);
         && end.db.status.Idle? && end.db.enabled && end.db.progress == 2 && end.hist.undone == [0, 1]
         && At(pub, 2) == map[k := g(f(r))] && end.db.marker.rows == VersionsAt(pub, 2)
         && end.db.data == map[k := g(f(Overwrite(r, g(f(r)), cols)))]
         && (end.db.data == At(pub, 2) <==> g(f(Overwrite(r, g(f(r)), cols))) == g(f(r)))
  {
    var pub, w, x := ThereAndBack(k, r, f, g, a, b), Installed(k, name, r, a), Overwrite(r, g(f(r)), cols);
    ThereAndBackStates(k, r, f, g, a, b);
    var w1, w2, w3, more;
    es, w1 := CopyPasses(k, name, r, f, g, a, b, cols, all);
    more, w2 := CarryReshaping(pub, w1, k, name, x, f, a, b);
    RunJoin(pub, w, es, w1, more, w2);
    es := es + more;
    assert w2.db.applied.Values <= {0};
    more, w3 := CarryReshaping(pub, w2, k, name, f(x), g, b, a);
    RunJoin(pub, w, es, w2, more, w3);
    es := es + more;
    assert w3.db.data[k] == g(f(x)) && At(pub, 2)[k] == g(f(r));
  }

  /** Such a row: one migration appends to a column, the other appends again. */
  function Appends(row: Row): Row { row["c" := (if "c" in row then row["c"] else "") + "x"] }

  lemma RoundTripDiverges(k: Key, name: string, a: VersionRow, b: VersionRow) returns (es: seq<Event>)
    requires a != b
    ensures var r := map["c" := ""];
      var pub, w := ThereAndBack(k, r, Appends, Appends, a, b), Installed(k, name, r, a);
      && Initial(pub, w) && Run(pub, w, es) && NoHalts(es)
      && After(pub, w, es).db.status.Idle? && After(pub, w, es).db.progress == 2
      && After(pub, w, es).db.data != At(pub, 2)
  {
    var r := map["c" := ""];
    var theirs := Appends(Appends(r));
    var x := Overwrite(r, theirs, {"c"});
    assert |theirs["c"]| == 2;
    assert x["c"] == theirs["c"];
    assert |Appends(Appends(x))["c"]| == 4;
    es := GuardMissesRoundTrip(k, name, r, Appends, Appends, a, b, {"c"}, true);
  }
}
