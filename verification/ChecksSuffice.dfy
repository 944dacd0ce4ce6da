/** What the replay checks establish. The checks read the replay log and the catalog; here they are
    read back as facts about the statements the migration ran, which is what undo-then-apply needs. */
module ChecksSuffice {
  import opened Tables
  import opened UndoApply
  import opened ReplayShape
  import R = Rewrites

  type Script = seq<R.Stmt>

  // ---------------------------------------------------------------- reading the log back

  /** The log without its version rows. */
  function DataEntries(log: seq<LogEntry>): seq<LogEntry> {
    if log == [] then [] else (if log[0].VersionInsert? then [] else [log[0]]) + DataEntries(log[1..])
  }

  lemma {:induction false} DataEntriesConcat(a: seq<LogEntry>, b: seq<LogEntry>)
    ensures DataEntries(a + b) == DataEntries(a) + DataEntries(b)
  {
    if a == [] {
      assert a + b == b;
    } else {
      assert (a + b)[1..] == a[1..] + b;
      DataEntriesConcat(a[1..], b);
    }
  }

  lemma {:induction false} AllData(log: seq<LogEntry>)
    requires forall e :: e in log ==> !e.VersionInsert?
    ensures DataEntries(log) == log
  {
    if log != [] { AllData(log[1..]); }
  }

  lemma {:induction false} NoneData(log: seq<LogEntry>)
    requires forall e :: e in log ==> e.VersionInsert?
    ensures DataEntries(log) == []
  {
    if log != [] { NoneData(log[1..]); }
  }

  lemma {:induction false} DataMembers(log: seq<LogEntry>, e: LogEntry)
    ensures e in DataEntries(log) <==> e in log && !e.VersionInsert?
  {
    if log != [] { DataMembers(log[1..], e); }
  }

  lemma {:induction false} RowLogMembers(cs: seq<Change>, e: LogEntry)
    ensures e in LogOf(cs) <==> exists c :: c in cs && e in RowTrigger(c)
  {
    if cs != [] {
      var n := |cs| - 1;
      RowLogMembers(cs[..n], e);
      assert cs == cs[..n] + [cs[n]];
      if c :| c in cs && e in RowTrigger(c) { assert c in cs[..n] || c == cs[n]; }
    }
  }

  lemma {:induction false} ScriptLogIsData(script: Script, e: LogEntry)
    requires e in R.ScriptLog(script)
    ensures !e.VersionInsert?
  {
    if e in R.StmtLog(script[0]) {
      match script[0]
      case Dml(_, changes) => RowLogMembers(changes, e);
      case _ =>
    } else {
      ScriptLogIsData(script[1..], e);
    }
  }

  /** Every key change of the script is in its log. */
  lemma {:induction false} KeyChangesLogged(script: Script, c: Change)
    requires c in R.ChangesOf(script) && c.Upd? && c.key != c.was
    ensures KeyChange(c.was, c.key) in R.ScriptLog(script)
  {
    var s := script[0];
    if s.Dml? && c in s.changes {
      assert KeyChange(c.was, c.key) in RowTrigger(c);
      RowLogMembers(s.changes, KeyChange(c.was, c.key));
    } else {
      KeyChangesLogged(script[1..], c);
    }
  }

  /** And the log has no other. */
  lemma {:induction false} LoggedKeyChanges(script: Script, was: Key, key: Key)
    requires KeyChange(was, key) in R.ScriptLog(script)
    ensures exists c :: c in R.ChangesOf(script) && c.Upd? && c.was == was && c.key == key && key != was
  {
    var s := script[0];
    if KeyChange(was, key) in R.StmtLog(s) {
      RowLogMembers(s.changes, KeyChange(was, key));
      var c :| c in s.changes && KeyChange(was, key) in RowTrigger(c);
      assert c in R.ChangesOf(script);
    } else {
      LoggedKeyChanges(script[1..], was, key);
      var c :| c in R.ChangesOf(script[1..]) && c.Upd? && c.was == was && c.key == key && key != was;
      assert c in R.ChangesOf(script);
    }
  }

  lemma KeyChangeReported(s: Shape, e: LogEntry)
    requires e in s.log && e.KeyChange?
    ensures Printed(s.catalog, e.key.relid) in KeyChanges(s)
  {
  }

  /** The log tells of the script's key changes. */
  ghost predicate KeysLogged(log: seq<LogEntry>, script: Script) {
    forall e :: e in log && e.KeyChange? <==> e in R.ScriptLog(script) && e.KeyChange?
  }

  /** The key-change check is exact on it: it finds nothing if and only if the replay changed no key. */
  lemma KeyCheckReads(s: Shape, script: Script)
    requires KeysLogged(s.log, script)
    ensures KeyChanges(s) == {} <==> NoKeyChange(R.ChangesOf(script))
  {
    if KeyChanges(s) == {} {
      forall c | c in R.ChangesOf(script) && c.Upd? ensures c.key == c.was {
        if c.key != c.was {
          var e := KeyChange(c.was, c.key);
          KeyChangesLogged(script, c);
          KeyChangeReported(s, e);
        }
      }
    } else {
      var x :| x in KeyChanges(s);
      var e :| e in s.log && e.KeyChange? && x == Printed(s.catalog, e.key.relid);
      LoggedKeyChanges(script, e.was, e.key);
    }
  }

  /** No resolution having removed log rows, it is what the triggers wrote. */
  lemma KeyCheckIsExact(s: Shape, script: Script)
    requires DataEntries(s.log) == R.ScriptLog(script)
    ensures KeyChanges(s) == {} <==> NoKeyChange(R.ChangesOf(script))
  {
    forall e: LogEntry ensures e in s.log && e.KeyChange? <==> e in R.ScriptLog(script) && e.KeyChange? {
      DataMembers(s.log, e);
    }
    KeyCheckReads(s, script);
  }

  // ---------------------------------------------------------------- the rewrite check

  function TouchedBy(log: seq<LogEntry>): set<nat> { set e | e in log && e.Touch? :: e.relid }

  lemma {:induction false} UnsafeConcat(s: Shape, a: seq<LogEntry>, b: seq<LogEntry>, touched: set<nat>)
    ensures Unsafe(s, a + b, touched) == Unsafe(s, a, touched) + Unsafe(s, b, touched + TouchedBy(a))
    decreases |a|
  {
    if a == [] {
      assert a + b == b && touched + TouchedBy(a) == touched;
    } else {
      assert (a + b)[1..] == a[1..] + b;
      var more := if a[0].Touch? then touched + {a[0].relid} else touched;
      UnsafeConcat(s, a[1..], b, more);
      TouchedByFirst(a);
      assert more + TouchedBy(a[1..]) == touched + TouchedBy(a);
    }
  }

  lemma TouchedByFirst(log: seq<LogEntry>)
    requires log != []
    ensures TouchedBy(log) == (if log[0].Touch? then {log[0].relid} else {}) + TouchedBy(log[1..])
  {
    forall x ensures x in TouchedBy(log) <==> x in (if log[0].Touch? then {log[0].relid} else {}) + TouchedBy(log[1..]) {
      if x in TouchedBy(log) {
        assert Touch(x) in log;
        assert Touch(x) == log[0] || Touch(x) in log[1..];
      }
    }
  }

  /** Version rows in the log do not matter to the check. */
  lemma {:induction false} UnsafeIgnoresVersions(s: Shape, log: seq<LogEntry>, touched: set<nat>)
    ensures Unsafe(s, DataEntries(log), touched) == Unsafe(s, log, touched)
    decreases |log|
  {
    if log != [] {
      var rest := DataEntries(log[1..]);
      UnsafeIgnoresVersions(s, log[1..], if log[0].Touch? then touched + {log[0].relid} else touched);
      if log[0].VersionInsert? {
        assert [] + rest == rest;
      } else {
        assert ([log[0]] + rest)[1..] == rest;
      }
    }
  }

  lemma {:induction false} RowsAreSafe(s: Shape, log: seq<LogEntry>, touched: set<nat>)
    requires forall e :: e in log ==> !e.Rewritten?
    ensures Unsafe(s, log, touched) == {}
    decreases |log|
  {
    if log != [] { RowsAreSafe(s, log[1..], if log[0].Touch? then touched + {log[0].relid} else touched); }
  }

  /** The tables whose statement triggers fired in the first statements. */
  function Touched(script: Script): set<nat> {
    set i, x | 0 <= i < |script| && script[i].Dml? && x in script[i].touches :: x
  }

  lemma TouchedFirst(script: Script)
    requires script != []
    ensures Touched(script) == TouchedBy(R.StmtLog(script[0])) + Touched(script[1..])
  {
    StmtTouches(script[0]);
    var head, rest := TouchedBy(R.StmtLog(script[0])), Touched(script[1..]);
    forall x ensures x in Touched(script) <==> x in head + rest {
      if x in Touched(script) {
        var i :| 0 <= i < |script| && script[i].Dml? && x in script[i].touches;
        if i > 0 { assert script[1..][i - 1] == script[i]; }
      }
      if x in rest {
        var i :| 0 <= i < |script[1..]| && script[1..][i].Dml? && x in script[1..][i].touches;
        assert script[i + 1] == script[1..][i];
      }
    }
  }

  lemma StmtTouches(s: R.Stmt)
    ensures TouchedBy(R.StmtLog(s)) == set x | s.Dml? && x in s.touches
  {
    if s.Dml? {
      var log := R.StmtLog(s);
      forall x ensures x in TouchedBy(log) <==> x in s.touches {
        if x in TouchedBy(log) {
          assert Touch(x) in log;
          RowLogMembers(s.changes, Touch(x));
        }
        if x in s.touches {
          var i :| 0 <= i < |s.touches| && s.touches[i] == x;
          assert R.TouchLog(s.touches)[i] == Touch(x);
          assert Touch(x) in log;
        }
      }
    }
  }

  /** What a passing rewrite check says of each rewrite the script made. */
  lemma {:induction false} SafeRewrites(s: Shape, script: Script, touched: set<nat>, j: nat)
    requires Unsafe(s, R.ScriptLog(script), touched) == {} && j < |script| && script[j].Rewrite?
    ensures !UnsafeRewrite(s, script[j].relid, script[j].reason, touched + Touched(script[..j]))
    decreases |script|
  {
    var head, rest := R.StmtLog(script[0]), R.ScriptLog(script[1..]);
    UnsafeConcat(s, head, rest, touched);
    if j == 0 {
      assert touched + Touched(script[..0]) == touched;
      assert head == [Rewritten(script[0].relid, script[0].reason)] && head[1..] == [];
    } else {
      SafeRewrites(s, script[1..], touched + TouchedBy(head), j - 1);
      assert script[1..][..j - 1] == script[..j][1..];
      TouchedFirst(script[..j]);
      assert touched + TouchedBy(head) + Touched(script[1..][..j - 1]) == touched + Touched(script[..j]);
    }
  }

  // ---------------------------------------------------------------- two sides of one migration

  /** The same statement on both sides. Row changes may differ. A rewrite is the same function of the
      row unless it filled a volatile default or the table had gained a column, whose default each side
      computes for itself; a stored default is whatever each side computed. */
  ghost predicate SameStatement(c: Catalog, mine: R.Stmt, theirs: R.Stmt) {
    match mine
    case Dml(touches, _) => theirs.Dml? && theirs.touches == touches
    case Rewrite(o, reason, f) =>
      theirs.Rewrite? && theirs.relid == o && (Volatile(reason) || o in c.gained || forall r :: f(r) == theirs.transform(r))
    case Fill(o, column, _) => theirs.Fill? && theirs.relid == o && theirs.column == column
  }

  /** An inserted or updated row belongs to a table the statement names, or to a partition of one. */
  ghost predicate RowsTouched(c: Catalog, s: R.Stmt) {
    s.Dml? ==> forall ch :: ch in s.changes && !ch.Del? ==> TouchedBefore(c, ch.key.relid, set x | x in s.touches)
  }

  /** The catalog after the replay tells of every column added with a stored default: the table has a
      newer column and, unless a rewrite made the value part of the rows, the default is listed with
      the value stored here and, where it can be read, the one stored on the publisher. */
  ghost predicate FillsListed(c: Catalog, mine: Script, theirs: Script)
    requires |mine| == |theirs|
  {
    forall i :: 0 <= i < |mine| && mine[i].Fill? && theirs[i].Fill? ==>
      && mine[i].relid in c.gained
      && ((forall j :: i < j < |mine| && mine[j].Rewrite? ==> mine[j].relid != mine[i].relid) ==>
            exists d :: d in c.added && Lists(d, mine[i], theirs[i]))
  }

  ghost predicate Lists(d: StoredDefault, mine: R.Stmt, theirs: R.Stmt)
    requires mine.Fill? && theirs.Fill?
  {
    && d.relid == mine.relid && d.column == mine.column && d.local == mine.value
    && (d.remote.Value? ==> d.remote.text == theirs.value)
  }

  /** No stored default is added to a table after a row was written to it. This is the migration's
      business: the follower has no check for it before apply fails on it. */
  ghost predicate FillsFirst(script: Script) {
    forall i, j, ch :: 0 <= i < j < |script| && script[j].Fill? && script[i].Dml? && ch in script[i].changes && !ch.Del? ==>
      ch.key.relid != script[j].relid
  }

  /** The replay and the publisher carried out the same migration on the tables of the scope. */
  ghost predicate OneMigration(s: Shape, mine: Script, theirs: Script) {
    && |mine| == |theirs|
    && (forall i :: 0 <= i < |mine| ==> SameStatement(s.catalog, mine[i], theirs[i]))
    && (forall i :: 0 <= i < |mine| ==> RowsTouched(s.catalog, mine[i]) && RowsTouched(s.catalog, theirs[i]))
    && (forall i :: 0 <= i < |mine| && mine[i].Rewrite? ==> mine[i].relid in s.scope)
    && FillsListed(s.catalog, mine, theirs) && FillsFirst(mine) && FillsFirst(theirs)
  }

  /** A rewrite that passed the check comes before every write to its table, on either side. */
  lemma SafeIsFirst(s: Shape, mine: Script, script: Script)
    requires Unsafe(s, R.ScriptLog(mine), {}) == {} && |script| == |mine| && FillsFirst(script)
    requires forall i :: 0 <= i < |mine| ==> (script[i].Dml? <==> mine[i].Dml?) && (script[i].Rewrite? <==> mine[i].Rewrite?)
    requires forall i :: 0 <= i < |mine| && mine[i].Dml? ==> script[i].touches == mine[i].touches
    requires forall i :: 0 <= i < |mine| && mine[i].Rewrite? ==> script[i].relid == mine[i].relid && mine[i].relid in s.scope
    requires forall i :: 0 <= i < |mine| ==> RowsTouched(s.catalog, script[i])
    ensures R.ShapesFirst(script)
  {
    forall i, j, ch | 0 <= i < j < |script| && script[i].Dml? && ch in script[i].changes && !ch.Del?
      ensures !R.Reshapes(script[j], ch.key.relid)
    {
      if script[j].Rewrite? && script[j].relid == ch.key.relid {
        TouchedEarlier(s.catalog, mine, i, j, ch.key.relid);
        SafeRewrites(s, mine, {}, j);
      }
    }
  }

  lemma TouchedEarlier(c: Catalog, script: Script, i: nat, j: nat, o: nat)
    requires i < j <= |script| && script[i].Dml? && TouchedBefore(c, o, set x | x in script[i].touches)
    ensures TouchedBefore(c, o, {} + Touched(script[..j]))
  {
    forall x | x in script[i].touches ensures x in Touched(script[..j]) { assert script[..j][i] == script[i]; }
    if o !in script[i].touches {
      var x :| x in Ancestors(c, o) * (set x | x in script[i].touches);
      assert x in Ancestors(c, o) * ({} + Touched(script[..j]));
    }
  }

  /** And both sides change the shape of the old rows alike. */
  lemma {:induction false} ReshapeAlike(mine: Script, theirs: Script, t: Table)
    requires |mine| == |theirs|
    requires forall i :: 0 <= i < |mine| ==> Alike(mine[i], theirs[i])
    ensures R.Reshaped(mine, t) == R.Reshaped(theirs, t)
    decreases |mine|
  {
    if mine != [] {
      assert Alike(mine[0], theirs[0]);
      forall i | 0 <= i < |mine[1..]| ensures Alike(mine[1..][i], theirs[1..][i]) { assert Alike(mine[i + 1], theirs[i + 1]); }
      assert !mine[0].Dml? ==> R.Reshape(mine[0], t) == R.Reshape(theirs[0], t);
      ReshapeAlike(mine[1..], theirs[1..], if mine[0].Dml? then t else R.Reshape(mine[0], t));
    }
  }

  ghost predicate Alike(a: R.Stmt, b: R.Stmt) {
    (a.Dml? <==> b.Dml?) && (!a.Dml? ==> a.relid == b.relid && forall r :: R.ShapeRow(a, r) == R.ShapeRow(b, r))
  }

  lemma StatementsAlike(s: Shape, mine: Script, theirs: Script, i: nat)
    requires OneMigration(s, mine, theirs) && i < |mine| && Unsafe(s, R.ScriptLog(mine), {}) == {}
    requires mine[i].Fill? ==> forall d :: d in s.catalog.added && d.relid == mine[i].relid ==> d.remote == Value(d.local)
    ensures Alike(mine[i], theirs[i])
  {
    assert SameStatement(s.catalog, mine[i], theirs[i]);
    match mine[i]
    case Dml(_, _) =>
    case Rewrite(_, _, _) => SafeRewrites(s, mine, {}, i);
    case Fill(o, column, v) =>
      forall j | i < j < |mine| && mine[j].Rewrite? ensures mine[j].relid != o {
        if mine[j].relid == o { SafeRewrites(s, mine, {}, j); }
      }
      var d :| d in s.catalog.added && Lists(d, mine[i], theirs[i]);
  }

  /** The checks suffice. When the replay and the publisher carried out the same migration, the log is
      what the triggers wrote of it, and nothing but renames has been resolved, a passing check gives
      all that undo-then-apply across changes of shape asks of the two scripts. */
  lemma PassingChecksSuffice(s: Shape, mine: Script, theirs: Script, t: Table)
    requires Check(s).Pass? && DataEntries(s.log) == R.ScriptLog(mine) && OneMigration(s, mine, theirs)
    requires forall r :: r in s.resolutions ==> r.kase != ValueCase
    ensures NoKeyChange(R.ChangesOf(mine))
    ensures R.ShapesFirst(mine) && R.ShapesFirst(theirs) && R.Reshaped(mine, t) == R.Reshaped(theirs, t)
  {
    CheckReadsTargets(s);
    assert Targets(s, KeyCase) == {} && Targets(s, RewriteCase) == {} && Targets(s, ValueCase) == {};
    KeyCheckIsExact(s, mine);
    NothingUnsafe(s, mine);
    ValuesAgree(s);
    forall i | 0 <= i < |mine| ensures SameStatement(s.catalog, mine[i], theirs[i]) {}
    SafeIsFirst(s, mine, mine);
    SafeIsFirst(s, mine, theirs);
    forall i | 0 <= i < |mine| ensures Alike(mine[i], theirs[i]) { StatementsAlike(s, mine, theirs, i); }
    ReshapeAlike(mine, theirs, t);
  }

  lemma NothingUnsafe(s: Shape, mine: Script)
    requires Rewrites(s) == {} && DataEntries(s.log) == R.ScriptLog(mine)
    ensures Unsafe(s, R.ScriptLog(mine), {}) == {}
  {
    UnsafeIgnoresVersions(s, s.log, {});
    if o :| o in Unsafe(s, s.log, {}) { UnsafeReported(s, o); }
  }

  lemma UnsafeReported(s: Shape, o: nat)
    requires o in Unsafe(s, s.log, {})
    ensures Printed(s.catalog, Root(s.catalog, o)) in Rewrites(s)
  {
  }

  lemma DifferenceReported(s: Shape, d: StoredDefault)
    requires d in s.catalog.added && d.remote != Value(d.local)
    requires Resolution(ValueCase, Column(TableName(s, d.relid), d.column)) !in s.resolutions
    ensures Column(TableName(s, d.relid), d.column) in Values(s)
  {
  }

  lemma ValuesAgree(s: Shape)
    requires Values(s) == {} && forall r :: r in s.resolutions ==> r.kase != ValueCase
    ensures forall d :: d in s.catalog.added ==> d.remote == Value(d.local)
  {
    forall d | d in s.catalog.added ensures d.remote == Value(d.local) {
      var x := Column(TableName(s, d.relid), d.column);
      assert Resolution(ValueCase, x) !in s.resolutions;
      if d.remote != Value(d.local) { DifferenceReported(s, d); }
    }
  }
}
