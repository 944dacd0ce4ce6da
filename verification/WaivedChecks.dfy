/** What a passing check still says after an operator has resolved rewrites and stored defaults: all that
    it said before, outside the tables resolved. */
module WaivedChecks {
  import opened Tables
  import opened UndoApply
  import opened ReplayShape
  import opened ChecksSuffice
  import opened Apart
  import R = Rewrites

  // ---------------------------------------------------------------- what was resolved

  /** The table and its partitions. */
  function Tree(c: Catalog, oid: nat): set<nat> { {oid} + set x | x in c.ancestors && oid in c.ancestors[x] }

  lemma InTreeIsTree(c: Catalog, relid: nat, oid: nat)
    ensures InTree(c, relid, oid) <==> relid in Tree(c, oid)
  {
  }

  /** pg_partition_ancestors is transitive. */
  ghost predicate Nested(c: Catalog) { forall o, x :: x in Ancestors(c, o) ==> Ancestors(c, x) <= Ancestors(c, o) }

  ghost predicate ClosedDown(c: Catalog, d: set<nat>) { forall o, x :: x in d && x in Ancestors(c, o) ==> o in d }

  /** The tables whose rewrite an operator resolved. */
  ghost function Roots(s: Shape): set<nat> {
    set r | r in s.resolutions && r.kase == RewriteCase && r.target.Relation? && r.target.name in s.catalog.names.Values
      :: OidOf(s.catalog, r.target.name)
  }

  ghost function RewritesWaived(s: Shape): set<nat> { set o, x | o in Roots(s) && x in Tree(s.catalog, o) :: x }

  /** And those of whose stored defaults. */
  ghost function ValuesWaived(s: Shape): set<nat> {
    set d | d in s.catalog.added && Resolution(ValueCase, Column(TableName(s, d.relid), d.column)) in s.resolutions :: d.relid
  }

  ghost function Lifted(s: Shape): set<nat> { RewritesWaived(s) + ValuesWaived(s) }

  ghost predicate KeysWaived(s: Shape) { exists r :: r in s.resolutions && r.kase == KeyCase }

  lemma WaivedIsClosed(s: Shape)
    requires Nested(s.catalog)
    ensures ClosedDown(s.catalog, RewritesWaived(s))
  {
    var c := s.catalog;
    forall o, x | x in RewritesWaived(s) && x in Ancestors(c, o) ensures o in RewritesWaived(s) {
      var root :| root in Roots(s) && x in Tree(c, root);
      if x != root { assert root in Ancestors(c, x) && Ancestors(c, x) <= Ancestors(c, o); }
      assert o in Tree(c, root);
    }
  }

  // ---------------------------------------------------------------- the log a resolution leaves

  /** Of the entries a rewrite's resolution deletes. */
  predicate Waivable(d: set<nat>, e: LogEntry) { (e.Touch? && e.relid in d) || (e.Rewritten? && e.rel in d) }

  function Without(d: set<nat>, log: seq<LogEntry>): seq<LogEntry> {
    if log == [] then [] else (if Waivable(d, log[0]) then [] else [log[0]]) + Without(d, log[1..])
  }

  lemma {:induction false} WithoutMembers(d: set<nat>, log: seq<LogEntry>, e: LogEntry)
    ensures e in Without(d, log) <==> e in log && !Waivable(d, e)
  {
    if log != [] { WithoutMembers(d, log[1..], e); }
  }

  lemma {:induction false} WithoutNothing(log: seq<LogEntry>)
    ensures Without({}, log) == log
  {
    if log != [] { WithoutNothing(log[1..]); }
  }

  lemma {:induction false} WithoutTwice(a: set<nat>, b: set<nat>, log: seq<LogEntry>)
    ensures Without(a, Without(b, log)) == Without(a + b, log)
  {
    if log != [] {
      var rest := Without(b, log[1..]);
      WithoutTwice(a, b, log[1..]);
      if Waivable(b, log[0]) { assert [] + rest == rest; } else { assert ([log[0]] + rest)[1..] == rest; }
    }
  }

  /** The rows `resolve` deletes are those of the table's tree. */
  lemma {:induction false} DropIsWithout(c: Catalog, oid: nat, log: seq<LogEntry>)
    ensures DataEntries(DropLog(c, RewriteCase, oid, log)) == Without(Tree(c, oid), DataEntries(log))
  {
    if log != [] {
      var e, rest := log[0], DropLog(c, RewriteCase, oid, log[1..]);
      DropIsWithout(c, oid, log[1..]);
      if e.Touch? { InTreeIsTree(c, e.relid, oid); }
      if e.Rewritten? { InTreeIsTree(c, e.rel, oid); }
      var tail := DataEntries(log[1..]);
      if Dropped(c, RewriteCase, oid, e) {
        assert [] + rest == rest && ([e] + tail)[1..] == tail;
      } else {
        assert ([e] + rest)[1..] == rest;
        if e.VersionInsert? { assert [] + tail == tail; } else { assert ([e] + tail)[1..] == tail; }
      }
    }
  }

  // ---------------------------------------------------------------- the rewrite check on what is left

  function Unrewritten(d: set<nat>, log: seq<LogEntry>): seq<LogEntry> {
    if log == [] then []
    else (if log[0].Rewritten? && log[0].rel in d then [] else [log[0]]) + Unrewritten(d, log[1..])
  }

  lemma {:induction false} UnrewrittenConcat(d: set<nat>, a: seq<LogEntry>, b: seq<LogEntry>)
    ensures Unrewritten(d, a + b) == Unrewritten(d, a) + Unrewritten(d, b)
  {
    if a == [] {
      assert a + b == b;
    } else {
      assert (a + b)[0] == a[0] && (a + b)[1..] == a[1..] + b;
      UnrewrittenConcat(d, a[1..], b);
      Regroup(if a[0].Rewritten? && a[0].rel in d then [] else [a[0]], Unrewritten(d, a[1..]), Unrewritten(d, b));
    }
  }

  lemma Regroup(a: seq<LogEntry>, b: seq<LogEntry>, c: seq<LogEntry>)
    ensures a + (b + c) == (a + b) + c
  {
  }

  lemma {:induction false} NoneRewritten(d: set<nat>, log: seq<LogEntry>)
    requires forall e :: e in log ==> !e.Rewritten?
    ensures Unrewritten(d, log) == log
  {
    if log != [] { NoneRewritten(d, log[1..]); }
  }

  lemma StmtLogTrimmed(d: set<nat>, s: R.Stmt)
    ensures R.StmtLog(TrimmedStmt(d, s)) == Unrewritten(d, R.StmtLog(s))
  {
    match s
    case Dml(_, changes) =>
      forall e | e in R.StmtLog(s) ensures !e.Rewritten? { RowLogMembers(changes, e); }
      NoneRewritten(d, R.StmtLog(s));
    case Rewrite(o, reason, _) =>
      assert R.StmtLog(s)[1..] == [];
      assert LogOf([]) == [] && R.StmtLog(R.Dml([], [])) == [];
    case Fill(_, _, _) =>
      assert LogOf([]) == [] && R.StmtLog(R.Dml([], [])) == [];
  }

  lemma {:induction false} ScriptLogTrimmed(d: set<nat>, script: Script)
    ensures R.ScriptLog(Trim(d, script)) == Unrewritten(d, R.ScriptLog(script))
    decreases |script|
  {
    if script != [] {
      TrimTail(d, script);
      StmtLogTrimmed(d, script[0]);
      ScriptLogTrimmed(d, script[1..]);
      UnrewrittenConcat(d, R.StmtLog(script[0]), R.ScriptLog(script[1..]));
    }
  }

  lemma StillTouched(s: Shape, o: nat, dr: set<nat>, all: set<nat>)
    requires ClosedDown(s.catalog, dr) && o !in dr
    ensures TouchedBefore(s.catalog, o, all) ==> TouchedBefore(s.catalog, o, all - dr)
  {
    if TouchedBefore(s.catalog, o, all) && o !in all {
      var x :| x in Ancestors(s.catalog, o) * all;
      assert x in Ancestors(s.catalog, o) * (all - dr);
    }
  }

  /** With the resolved tables' entries deleted the check is as strict as ever about the others. */
  lemma {:induction false} UnsafeOutside(s: Shape, log: seq<LogEntry>, dr: set<nat>, d: set<nat>, touched: set<nat>)
    requires dr <= d && ClosedDown(s.catalog, dr)
    ensures Unsafe(s, Unrewritten(d, log), touched) <= Unsafe(s, Without(dr, log), touched - dr)
    decreases |log|
  {
    if log != [] {
      var e, a, b := log[0], Unrewritten(d, log[1..]), Without(dr, log[1..]);
      assert ([e] + a)[1..] == a && ([e] + b)[1..] == b && [] + a == a && [] + b == b;
      match e
      case Touch(x) =>
        UnsafeOutside(s, log[1..], dr, d, touched + {x});
        assert x in dr ==> (touched + {x}) - dr == touched - dr;
        assert x !in dr ==> (touched + {x}) - dr == (touched - dr) + {x};
      case Rewritten(o, _) =>
        UnsafeOutside(s, log[1..], dr, d, touched);
        if o !in d { StillTouched(s, o, dr, touched); }
      case _ =>
        UnsafeOutside(s, log[1..], dr, d, touched);
    }
  }

  lemma NothingUnsafeOutside(s: Shape, script: Script, dr: set<nat>, d: set<nat>)
    requires dr <= d && ClosedDown(s.catalog, dr) && Rewrites(s) == {} && DataEntries(s.log) == Without(dr, R.ScriptLog(script))
    ensures Unsafe(s, R.ScriptLog(Trim(d, script)), {}) == {}
  {
    ScriptLogTrimmed(d, script);
    UnsafeOutside(s, R.ScriptLog(script), dr, d, {});
    assert {} - dr == {};
    UnsafeIgnoresVersions(s, s.log, {});
    if o :| o in Unsafe(s, s.log, {}) { UnsafeReported(s, o); }
  }

  // ---------------------------------------------------------------- what passing gives

  lemma ResolvedIsWaived(s: Shape, v: StoredDefault)
    requires v in s.catalog.added
    ensures Resolution(ValueCase, Column(TableName(s, v.relid), v.column)) in s.resolutions ==> v.relid in ValuesWaived(s)
  {
  }

  lemma ValuesAgreeOutside(s: Shape, d: set<nat>)
    requires Values(s) == {} && ValuesWaived(s) <= d
    ensures forall v :: v in s.catalog.added && v.relid !in d ==> v.remote == Value(v.local)
  {
    forall v | v in s.catalog.added && v.relid !in d ensures v.remote == Value(v.local) {
      ResolvedIsWaived(s, v);
      if v.remote != Value(v.local) { DifferenceReported(s, v); }
    }
  }

  lemma KeysStayLogged(s: Shape, script: Script, dr: set<nat>)
    requires DataEntries(s.log) == Without(dr, R.ScriptLog(script))
    ensures KeysLogged(s.log, script)
  {
    forall e: LogEntry ensures e in s.log && e.KeyChange? <==> e in R.ScriptLog(script) && e.KeyChange? {
      DataMembers(s.log, e);
      WithoutMembers(dr, R.ScriptLog(script), e);
    }
  }

  /** The checks suffice outside what was resolved. The log is what the triggers wrote but for the entries
      a rewrite's resolution deleted; outside the relations `d`, which hold everything resolved, both sides
      carried out the same migration. Then a passing check gives what undo-then-apply apart from `d` asks. */
  lemma PassingChecksSufficeOutside(s: Shape, dr: set<nat>, d: set<nat>, mine: Script, theirs: Script, t: Table)
    requires Check(s).Pass? && DataEntries(s.log) == Without(dr, R.ScriptLog(mine))
    requires dr <= d && ValuesWaived(s) <= d && ClosedDown(s.catalog, dr)
    requires OneMigration(s, Trim(d, mine), Trim(d, theirs))
    ensures NoKeyChange(R.ChangesOf(mine))
    ensures R.ShapesFirst(Trim(d, mine)) && R.ShapesFirst(Trim(d, theirs))
    ensures R.Reshaped(Trim(d, mine), t) == R.Reshaped(Trim(d, theirs), t)
  {
    var a, b := Trim(d, mine), Trim(d, theirs);
    CheckReadsTargets(s);
    assert Targets(s, KeyCase) == {} && Targets(s, RewriteCase) == {} && Targets(s, ValueCase) == {};
    KeysStayLogged(s, mine, dr);
    KeyCheckReads(s, mine);
    NothingUnsafeOutside(s, mine, dr, d);
    ValuesAgreeOutside(s, d);
    forall i | 0 <= i < |a| ensures SameStatement(s.catalog, a[i], b[i]) {}
    SafeIsFirst(s, a, a);
    SafeIsFirst(s, a, b);
    forall i | 0 <= i < |a| ensures Alike(a[i], b[i]) {
      assert a[i] == TrimmedStmt(d, mine[i]);
      StatementsAlike(s, a, b, i);
    }
    ReshapeAlike(a, b, t);
  }
}
