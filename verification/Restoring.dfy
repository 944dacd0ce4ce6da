/** What the owed copies restore. A migration carried through past a resolved halt may leave the
    subscriber with other values in the columns the halt named, and nowhere else; the copies recorded as
    owed put them right, whatever apply does meanwhile. */
module Restoring {
  import opened Common
  import opened Tables
  import opened UndoApply
  import opened CopyAhead
  import opened ReplayShape
  import opened Protocol
  import opened DataEquality
  import opened Apart
  import opened ExactlyOnce
  import opened LogComplete

  /** The relations of a table, partitions included, and its columns outside the key. */
  datatype TableInfo = TableInfo(relids: set<nat>, nonkey: set<string>)

  type Schema = map<string, TableInfo>

  predicate Owes(tables: Schema, key: OwedKey, o: nat, c: string) {
    && key.relation in tables && o in tables[key.relation].relids
    && if key.column == "*" then c in tables[key.relation].nonkey else key.column == c
  }

  /** Some debt covers the column of the relation. */
  ghost predicate OwedCell(tables: Schema, debts: set<Debt>, o: nat, c: string) {
    exists d :: d in debts && Owes(tables, d.key, o, c)
  }

  /** Two versions of a row differ in owed columns only. */
  ghost predicate RowOwing(tables: Schema, debts: set<Debt>, o: nat, mine: Row, theirs: Row) {
    mine.Keys == theirs.Keys && forall c :: c in mine && mine[c] != theirs[c] ==> OwedCell(tables, debts, o, c)
  }

  /** The halt's own assumption: the publisher's rows at `a` but for owed columns, and a row that changes
      again before `b` may already show copied columns of the snapshot at `b`. */
  ghost predicate Owing(pub: Publisher, tables: Schema, debts: set<Debt>, t: Table, a: nat, b: nat)
    requires a <= |pub.txs| && b <= |pub.txs|
  {
    && t.Keys == At(pub, a).Keys
    && (forall k :: k in t && !Hits(Between(pub, a, Max(a, b)), k) ==> RowOwing(tables, debts, k.relid, t[k], At(pub, a)[k]))
  }

  lemma NothingOwedIsEqual(pub: Publisher, tables: Schema, t: Table, a: nat, b: nat)
    requires b <= a <= |pub.txs| && Owing(pub, tables, {}, t, a, b)
    ensures t == At(pub, a)
  {
    assert Between(pub, a, a) == [];
    forall k | k in t ensures t[k] == At(pub, a)[k] {
      assert !Hits([], k);
      assert RowOwing(tables, {}, k.relid, t[k], At(pub, a)[k]);
    }
  }

  // ---------------------------------------------------------------- apply

  lemma {:induction false} UnhitRowApplies(t: Table, cs: seq<Change>, k: Key)
    requires ApplyAll(t, cs).Ok? && k in t && !Hits(cs, k)
    ensures k in ApplyAll(t, cs).table && ApplyAll(t, cs).table[k] == t[k]
    decreases |cs|
  {
    if cs != [] {
      HitsStep(cs, k);
      UnhitRowApplies(Apply(t, cs[0]).table, cs[1..], k);
    }
  }

  /** Row changes carry the publisher's whole rows, so they settle what they touch and leave the rest. */
  lemma OwingApplies(pub: Publisher, tables: Schema, debts: set<Debt>, t: Table, a: nat, b: nat)
    requires Sound(pub) && a < |pub.txs| && b <= |pub.txs| && Owing(pub, tables, debts, t, a, b) && Plain(pub.txs[a].script)
    ensures var r := ApplyAll(t, Changes(pub.txs[a])); r.Ok? && Owing(pub, tables, debts, r.table, a + 1, b)
  {
    var cs := Changes(pub.txs[a]);
    var p, p' := At(pub, a), At(pub, a + 1);
    NextState(pub, a);
    ApplyTracksDivergence(p, t, cs);
    var t' := ApplyAll(t, cs).table;
    assert Missing(p, t) == {};
    NothingDiverges(cs);
    assert t'.Keys == p'.Keys by { assert forall k :: k in p' ==> k !in Missing(p', t'); }
    var rest := Between(pub, a + 1, Max(a + 1, b));
    assert Between(pub, a, a) == [];
    forall k | k in t' && !Hits(rest, k) ensures RowOwing(tables, debts, k.relid, t'[k], p'[k]) {
      StaleUntilHit(Stale(p, t), cs, k);
      if k in Stale(p, t) && !Hits(cs, k) {
        if a < b { HitsSplit(cs, rest, k); }
        UnhitRowApplies(t, cs, k);
        UnhitRowStays(p, cs, k);
      }
    }
  }

  // ---------------------------------------------------------------- copies

  /** The copy is of one table, and `all` means every column outside its key. */
  ghost predicate CopiesOneTable(tables: Schema, table: string, relids: set<nat>, cols: set<string>, all: bool) {
    "*" !in cols && (table in tables ==> tables[table].relids <= relids && (all ==> tables[table].nonkey <= cols))
  }

  /** The debts a copy settles cover nothing but the cells it copies. */
  lemma LeftCells(tables: Schema, hist: History, table: string, relids: set<nat>, cols: set<string>, all: bool,
                  o: nat, c: string)
    requires CopiesOneTable(tables, table, relids, cols, all)
    requires OwedCell(tables, hist.debts, o, c) && !(o in relids && c in cols)
    ensures OwedCell(tables, DebtsLeft(hist, table, cols, all), o, c)
  {
    var d :| d in hist.debts && Owes(tables, d.key, o, c);
    assert d in DebtsLeft(hist, table, cols, all);
  }

  /** A row that has not changed since the snapshot owes less after the copy. */
  lemma MergedRowOwing(tables: Schema, hist: History, table: string, relids: set<nat>, cols: set<string>, all: bool,
                       o: nat, mine: Row, theirs: Row)
    requires CopiesOneTable(tables, table, relids, cols, all) && RowOwing(tables, hist.debts, o, mine, theirs)
    ensures var row := if o in relids then Overwrite(mine, theirs, cols) else mine;
      RowOwing(tables, DebtsLeft(hist, table, cols, all), o, row, theirs)
  {
    var row := if o in relids then Overwrite(mine, theirs, cols) else mine;
    assert row.Keys == theirs.Keys;
    forall c | c in row && row[c] != theirs[c] ensures OwedCell(tables, DebtsLeft(hist, table, cols, all), o, c) {
      assert row[c] == mine[c];
      LeftCells(tables, hist, table, relids, cols, all, o, c);
    }
  }

  lemma MergeOwing(pub: Publisher, tables: Schema, hist: History, t: Table, a: nat, ahead: nat, b: nat,
                   table: string, relids: set<nat>, cols: set<string>, all: bool)
    requires Sound(pub) && a <= b <= |pub.txs| && ahead <= |pub.txs| && Calm(pub, a, b)
    requires Owing(pub, tables, hist.debts, t, a, ahead) && CopiesOneTable(tables, table, relids, cols, all)
    ensures Owing(pub, tables, DebtsLeft(hist, table, cols, all), Merge(t, At(pub, b), relids, cols), a, Max(b, ahead))
  {
    var c := Max(a, Max(b, ahead));
    var debts' := DebtsLeft(hist, table, cols, all);
    var t' := Merge(t, At(pub, b), relids, cols);
    forall k | k in t' && !Hits(Between(pub, a, c), k) ensures RowOwing(tables, debts', k.relid, t'[k], At(pub, a)[k]) {
      BetweenSplits(pub, a, Max(a, ahead), c);
      HitsSplit(Between(pub, a, Max(a, ahead)), Between(pub, Max(a, ahead), c), k);
      BetweenSplits(pub, a, b, c);
      HitsSplit(Between(pub, a, b), Between(pub, b, c), k);
      BetweenLeads(pub, a, b);
      UnhitRowStays(At(pub, a), Between(pub, a, b), k);
      MergedRowOwing(tables, hist, table, relids, cols, all, k.relid, t[k], At(pub, a)[k]);
    }
  }

  // ---------------------------------------------------------------- runs

  /** The follower carries no migration, and the copy under way is of one table. */
  ghost predicate Restores(pub: Publisher, tables: Schema, w: World) {
    var db, hist := w.db, w.hist;
    && Sound(pub) && Current(db).None? && db.progress <= db.horizon <= |pub.txs| && hist.ahead <= |pub.txs|
    && (db.copy.Copying? ==> CopiesOneTable(tables, db.copy.table, db.copy.relids, db.copy.cols, db.copy.all))
    && Owing(pub, tables, hist.debts, db.data, db.progress, hist.ahead)
  }

  /** No migration is started, and copies are of one table each. */
  ghost predicate Modest(tables: Schema, e: Event) {
    !e.Stall? && (e.CopyBegin? ==> CopiesOneTable(tables, e.table, e.relids, e.cols, e.all))
  }

  ghost predicate SameRows(w: World, w': World) {
    && w'.db.data == w.db.data && w'.db.progress == w.db.progress && w'.db.horizon == w.db.horizon
    && w'.hist.ahead == w.hist.ahead && w'.hist.debts == w.hist.debts
  }

  /** What apply moves of it. */
  lemma AppliedRows(pub: Publisher, w: World)
    requires CanApply(pub, w.db, ApplyTx)
    ensures var w' := NextApply(pub, w, ApplyTx);
      && ApplyAll(w.db.data, Changes(pub.txs[w.db.progress])) == Ok(w'.db.data)
      && w'.hist.debts == w.hist.debts && w'.hist.ahead == w.hist.ahead && w'.db.copy == w.db.copy
      && w'.db.progress == w.db.progress + 1 && w'.db.horizon == w.db.horizon && w'.db.status == w.db.status
  {
  }

  lemma OwingMoves(pub: Publisher, tables: Schema, debts: set<Debt>, t: Table, t': Table, a: nat, b: nat)
    requires Sound(pub) && a < |pub.txs| && b <= |pub.txs| && Owing(pub, tables, debts, t, a, b) && Plain(pub.txs[a].script)
    requires ApplyAll(t, Changes(pub.txs[a])) == Ok(t')
    ensures Owing(pub, tables, debts, t', a + 1, b)
  {
    OwingApplies(pub, tables, debts, t, a, b);
  }

  lemma OneRowOn(pub: Publisher, tables: Schema, w: World, w': World)
    requires Restores(pub, tables, w) && w.db.progress < w.db.horizon && Plain(pub.txs[w.db.progress].script)
    requires ApplyAll(w.db.data, Changes(pub.txs[w.db.progress])) == Ok(w'.db.data)
    requires w'.hist.debts == w.hist.debts && w'.hist.ahead == w.hist.ahead && w'.db.copy == w.db.copy
    requires w'.db.progress == w.db.progress + 1 && w'.db.horizon == w.db.horizon && w'.db.status == w.db.status
    ensures Restores(pub, tables, w')
  {
    OwingMoves(pub, tables, w.hist.debts, w.db.data, w'.db.data, w.db.progress, w.hist.ahead);
  }

  lemma ApplyRestores(pub: Publisher, tables: Schema, w: World, e: Event)
    requires Restores(pub, tables, w) && OfApply(e) && CanApply(pub, w.db, e)
    requires Calm(pub, w.db.progress, w.db.horizon)
    ensures var w' := NextApply(pub, w, e);
      Restores(pub, tables, w') && w'.db.horizon >= w.db.horizon && w'.db.progress >= w.db.progress
  {
    if e.ApplyTx? {
      CalmStep(pub, w.db.progress, w.db.horizon);
      AppliedRows(pub, w);
      OneRowOn(pub, tables, w, NextApply(pub, w, ApplyTx));
    }
  }

  lemma HaltRestores(pub: Publisher, tables: Schema, w: World, e: Event)
    requires Restores(pub, tables, w) && Halts(e) && CanHalt(w.db, e)
    ensures Restores(pub, tables, NextHalt(w, e)) && SameRows(w, NextHalt(w, e))
  {
  }

  lemma OperatorRestores(pub: Publisher, tables: Schema, w: World, e: Event)
    requires Restores(pub, tables, w) && OfOperator(e) && CanOperate(w.db, e)
    ensures Restores(pub, tables, NextOperator(w, e)) && SameRows(w, NextOperator(w, e))
  {
  }

  lemma WriteRestores(pub: Publisher, tables: Schema, w: World, b: nat)
    requires Restores(pub, tables, w) && CanCopy(pub, w.db, CopyWrite(b)) && Calm(pub, w.db.progress, w.db.horizon)
    ensures Restores(pub, tables, WriteWorld(pub, w, b))
  {
    var c := w.db.copy;
    MergeOwing(pub, tables, w.hist, w.db.data, w.db.progress, w.hist.ahead, b, c.table, c.relids, c.cols, c.all);
    assert WriteWorld(pub, w, b).hist.ahead == Max(b, w.hist.ahead);
  }

  lemma CopyRestores(pub: Publisher, tables: Schema, w: World, e: Event)
    requires Restores(pub, tables, w) && OfCopy(e) && CanCopy(pub, w.db, e) && Modest(tables, e)
    requires Calm(pub, w.db.progress, w.db.horizon)
    ensures var w' := NextCopy(pub, w, e);
      Restores(pub, tables, w') && w'.db.horizon == w.db.horizon && w'.db.progress == w.db.progress
  {
    if e.CopyWrite? { WriteRestores(pub, tables, w, e.snapshot); }
    else { assert SameRows(w, NextCopy(pub, w, e)); }
  }

  /** With nothing under way these are all the events there can be. */
  lemma OnlyThese(pub: Publisher, w: World, e: Event)
    requires Current(w.db).None? && Can(pub, w, e) && !e.Stall?
    ensures OfApply(e) || Halts(e) || OfOperator(e) || OfCopy(e)
  {
  }

  ghost predicate Ebbs(w: World, w': World) {
    Current(w'.db).None? && w'.db.horizon >= w.db.horizon && w'.hist.debts <= w.hist.debts
  }

  lemma CopyEbbs(pub: Publisher, w: World, e: Event)
    requires Current(w.db).None? && OfCopy(e) && CanCopy(pub, w.db, e)
    ensures Ebbs(w, NextCopy(pub, w, e))
  {
  }

  lemma OthersEbb(pub: Publisher, w: World, e: Event)
    requires Current(w.db).None? && Can(pub, w, e) && (OfApply(e) || Halts(e) || OfOperator(e))
    ensures Ebbs(w, Next(pub, w, e))
  {
  }

  lemma {:induction false} EbbsThroughout(pub: Publisher, w: World, es: seq<Event>)
    requires Current(w.db).None? && Run(pub, w, es) && forall i :: 0 <= i < |es| ==> !es[i].Stall?
    ensures Ebbs(w, After(pub, w, es))
    decreases |es|
  {
    if es != [] {
      OnlyThese(pub, w, es[0]);
      if OfCopy(es[0]) { CopyEbbs(pub, w, es[0]); } else { OthersEbb(pub, w, es[0]); }
      assert forall i :: 0 <= i < |es[1..]| ==> es[1..][i] == es[i + 1];
      EbbsThroughout(pub, Next(pub, w, es[0]), es[1..]);
    }
  }

  lemma KeepsRestoring(pub: Publisher, tables: Schema, w: World, e: Event)
    requires Restores(pub, tables, w) && Can(pub, w, e) && Modest(tables, e) && Calm(pub, w.db.progress, w.db.horizon)
    ensures var w' := Next(pub, w, e);
      Restores(pub, tables, w') && w'.db.horizon >= w.db.horizon && w'.db.progress >= w.db.progress
  {
    OnlyThese(pub, w, e);
    if OfApply(e) { ApplyRestores(pub, tables, w, e); }
    else if Halts(e) { HaltRestores(pub, tables, w, e); }
    else if OfOperator(e) { OperatorRestores(pub, tables, w, e); }
    else { CopyRestores(pub, tables, w, e); }
  }

  lemma {:induction false} RestoresThroughout(pub: Publisher, tables: Schema, w: World, es: seq<Event>)
    requires Restores(pub, tables, w) && Run(pub, w, es) && forall i :: 0 <= i < |es| ==> Modest(tables, es[i])
    requires After(pub, w, es).db.horizon <= |pub.txs| && Calm(pub, w.db.progress, After(pub, w, es).db.horizon)
    ensures Restores(pub, tables, After(pub, w, es))
    decreases |es|
  {
    if es != [] {
      EbbsThroughout(pub, w, es);
      KeepsRestoring(pub, tables, w, es[0]);
      assert forall i :: 0 <= i < |es[1..]| ==> es[1..][i] == es[i + 1];
      RestoresThroughout(pub, tables, Next(pub, w, es[0]), es[1..]);
    }
  }

  /** The remedy works. From a follower with no migration under way whose table differs from the
      publisher's in owed columns only, and until the publisher migrates again: once every debt's covering
      copy has committed and apply has passed the newest snapshot, the table is the publisher's. */
  lemma OwedCopiesRestore(pub: Publisher, tables: Schema, w: World, es: seq<Event>)
    requires Restores(pub, tables, w) && Run(pub, w, es) && forall i :: 0 <= i < |es| ==> Modest(tables, es[i])
    requires After(pub, w, es).db.horizon <= |pub.txs| && Calm(pub, w.db.progress, After(pub, w, es).db.horizon)
    ensures var end := After(pub, w, es);
      end.db.progress <= |pub.txs| && end.hist.debts <= w.hist.debts &&
      (end.hist.debts == {} && end.hist.ahead <= end.db.progress ==> end.db.data == At(pub, end.db.progress))
  {
    RestoresThroughout(pub, tables, w, es);
    EbbsThroughout(pub, w, es);
    var end := After(pub, w, es);
    if end.hist.debts == {} && end.hist.ahead <= end.db.progress {
      NothingOwedIsEqual(pub, tables, end.db.data, end.db.progress, end.hist.ahead);
    }
  }

  /** The halt's assumption about the tables it named. */
  ghost predicate OwesOnly(tables: Schema, debts: set<Debt>, apart: set<nat>, t: Table, p: Table) {
    forall k :: k in t && k in p && k.relid in apart ==> RowOwing(tables, debts, k.relid, t[k], p[k])
  }

  lemma ApartOwes(pub: Publisher, tables: Schema, debts: set<Debt>, apart: set<nat>, t: Table, a: nat, b: nat)
    requires b <= a <= |pub.txs| && SameOff(apart, t, At(pub, a)) && OwesOnly(tables, debts, apart, t, At(pub, a))
    ensures Owing(pub, tables, debts, t, a, b)
  {
    forall k | k in t ensures RowOwing(tables, debts, k.relid, t[k], At(pub, a)[k]) {
      if k.relid !in apart { assert t[k] == At(pub, a)[k]; }
    }
  }

  /** Where the two theorems meet. After any careful and steady run from installation, resolved rewrites
      and stored defaults included, an idle follower past its newest undo and copy is where the remedy
      starts: that anything beyond the resolved tables agrees is proved, and of those alone the operator's
      assumption is needed. */
  lemma ResolvedRunsRestore(pub: Publisher, tables: Schema, w: World, es: seq<Event>)
    requires Initial(pub, w) && CarefulRun(pub, w, es) && SteadyRun(pub, w, es) && Run(pub, w, es)
    requires var end := After(pub, w, es);
      && end.hist.faithful && Current(end.db).None? && end.db.copy.NoCopy? && !Pending(end)
      && end.hist.ahead <= end.db.progress <= |pub.txs|
      && OwesOnly(tables, end.hist.debts, end.hist.apart, end.db.data, At(pub, end.db.progress))
    ensures Restores(pub, tables, After(pub, w, es))
  {
    SubscriberEqualsPublisher(pub, w, es);
    InitiallySafe(pub, w);
    SafeThroughout(pub, w, es);
    var end := After(pub, w, es);
    ApartOwes(pub, tables, end.hist.debts, end.hist.apart, end.db.data, end.db.progress, end.hist.ahead);
  }
}
