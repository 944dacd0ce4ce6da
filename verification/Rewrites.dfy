/** What a migration does to rows: row changes, and changes of the rows' shape. Logical decoding hands
    out a row change as it was when it was made, before a later statement of the same transaction
    reshaped the row, so the order of the two matters. */
module Rewrites {
  import opened Tables
  import opened UndoApply

  /** A statement of a migration as one side carried it out: an insert, update or delete statement with
      the row changes it made there; a table rewrite; or a column added with a stored default, which
      changes what every row of the table reads without rewriting it. `touches` are the tables whose
      statement trigger fires: inserts and updates fire it whether or not a row was hit, deletes do not. */
  datatype Stmt =
    | Dml(touches: seq<nat>, changes: seq<Change>)
    | Rewrite(relid: nat, reason: nat, transform: Row -> Row)
    | Fill(relid: nat, column: string, value: string)

  // ---------------------------------------------------------------- running a script

  predicate Reshapes(s: Stmt, relid: nat) { !s.Dml? && s.relid == relid }

  function ShapeRow(s: Stmt, r: Row): Row {
    match s
    case Rewrite(_, _, f) => f(r)
    case Fill(_, c, v) => r[c := v]
    case Dml(_, _) => r
  }

  function Reshape(s: Stmt, t: Table): Table {
    map k | k in t :: if Reshapes(s, k.relid) then ShapeRow(s, t[k]) else t[k]
  }

  function Step(s: Stmt, t: Table): Table { if s.Dml? then EffectAll(t, s.changes) else Reshape(s, t) }

  function Run(script: seq<Stmt>, t: Table): Table
    decreases |script|
  {
    if script == [] then t else Run(script[1..], Step(script[0], t))
  }

  /** Every row change is one the database itself accepts where it is made. */
  predicate Runs(script: seq<Stmt>, t: Table)
    decreases |script|
  {
    script == [] || ((script[0].Dml? ==> ValidAll(t, script[0].changes)) && Runs(script[1..], Step(script[0], t)))
  }

  lemma {:induction false} RunConcat(a: seq<Stmt>, b: seq<Stmt>, t: Table)
    ensures Run(a + b, t) == Run(b, Run(a, t))
    ensures Runs(a + b, t) <==> Runs(a, t) && Runs(b, Run(a, t))
    decreases |a|
  {
    if a == [] {
      assert a + b == b;
    } else {
      assert (a + b)[1..] == a[1..] + b;
      RunConcat(a[1..], b, Step(a[0], t));
    }
  }

  /** The script without its changes of shape: what logical decoding hands out, in order. */
  function ChangesOf(script: seq<Stmt>): seq<Change> {
    if script == [] then [] else (if script[0].Dml? then script[0].changes else []) + ChangesOf(script[1..])
  }

  lemma {:induction false} ChangesConcat(a: seq<Stmt>, b: seq<Stmt>)
    ensures ChangesOf(a + b) == ChangesOf(a) + ChangesOf(b)
  {
    if a == [] {
      assert a + b == b;
    } else {
      assert (a + b)[1..] == a[1..] + b;
      ChangesConcat(a[1..], b);
    }
  }

  /** The script without its row changes: the rows as they stood, in the shape it leaves behind. */
  function Reshaped(script: seq<Stmt>, t: Table): Table {
    if script == [] then t else Reshaped(script[1..], if script[0].Dml? then t else Reshape(script[0], t))
  }

  // ---------------------------------------------------------------- shapes first

  /** No table is reshaped after a row was written to it. */
  ghost predicate ShapesFirst(script: seq<Stmt>) {
    forall i, j, c :: 0 <= i < j < |script| && script[i].Dml? && c in script[i].changes && !c.Del? ==>
      !Reshapes(script[j], c.key.relid)
  }

  ghost predicate Unreshaped(script: seq<Stmt>, cs: seq<Change>) {
    forall j, c :: 0 <= j < |script| && c in cs && !c.Del? ==> !Reshapes(script[j], c.key.relid)
  }

  lemma ReshapeKeys(s: Stmt, t: Table)
    ensures Reshape(s, t).Keys == t.Keys
  {
  }

  lemma {:induction false} ReshapedKeys(script: seq<Stmt>, t: Table)
    ensures Reshaped(script, t).Keys == t.Keys
  {
    if script != [] { ReshapedKeys(script[1..], if script[0].Dml? then t else Reshape(script[0], t)); }
  }

  lemma ReshapeStep(s: Stmt, t: Table, c: Change)
    requires !s.Dml? && (!c.Del? ==> !Reshapes(s, c.key.relid))
    ensures Effect(Reshape(s, t), c) == Reshape(s, Effect(t, c)) && (Valid(Reshape(s, t), c) <==> Valid(t, c))
  {
  }

  /** A change of shape commutes with row changes that write no row of that table. */
  lemma {:induction false} ReshapeCommutes(s: Stmt, t: Table, cs: seq<Change>)
    requires !s.Dml? && forall c :: c in cs && !c.Del? ==> !Reshapes(s, c.key.relid)
    ensures ValidAll(Reshape(s, t), cs) <==> ValidAll(t, cs)
    ensures EffectAll(Reshape(s, t), cs) == Reshape(s, EffectAll(t, cs))
    decreases |cs|
  {
    if cs != [] {
      assert cs[0] in cs && forall c :: c in cs[1..] ==> c in cs;
      ReshapeStep(s, t, cs[0]);
      ReshapeCommutes(s, Effect(t, cs[0]), cs[1..]);
    }
  }

  lemma {:induction false} ReshapedCommutes(script: seq<Stmt>, t: Table, cs: seq<Change>)
    requires Unreshaped(script, cs)
    ensures ValidAll(Reshaped(script, t), cs) <==> ValidAll(t, cs)
    ensures EffectAll(Reshaped(script, t), cs) == Reshaped(script, EffectAll(t, cs))
  {
    if script != [] {
      var rest := script[1..];
      assert forall j :: 0 <= j < |rest| ==> rest[j] == script[j + 1];
      if script[0].Dml? {
        ReshapedCommutes(rest, t, cs);
      } else {
        ReshapeCommutes(script[0], t, cs);
        ReshapedCommutes(rest, Reshape(script[0], t), cs);
      }
    }
  }

  lemma ShapesFirstTail(script: seq<Stmt>)
    requires ShapesFirst(script) && script != []
    ensures ShapesFirst(script[1..]) && (script[0].Dml? ==> Unreshaped(script[1..], script[0].changes))
  {
    var rest := script[1..];
    assert forall j :: 0 <= j < |rest| ==> rest[j] == script[j + 1];
  }

  /** With no table reshaped after a write to it, running the script is: reshape every row first, then
      make all the row changes as they are decoded. */
  lemma {:induction false} RewritesFirst(script: seq<Stmt>, t: Table)
    requires ShapesFirst(script)
    ensures Runs(script, t) <==> ValidAll(Reshaped(script, t), ChangesOf(script))
    ensures Run(script, t) == EffectAll(Reshaped(script, t), ChangesOf(script))
    decreases |script|
  {
    if script != [] {
      var s, rest := script[0], script[1..];
      ShapesFirstTail(script);
      RewritesFirst(rest, Step(s, t));
      if s.Dml? {
        ReshapedCommutes(rest, t, s.changes);
        EffectAllConcat(Reshaped(rest, t), s.changes, ChangesOf(rest));
      } else {
        assert ChangesOf(script) == ChangesOf(rest);
      }
    }
  }

  /** Undo-then-apply across changes of shape. `mine` is the replay's script, `theirs` the publisher's;
      both reshape the old rows alike. The publisher's changes as decoded carry the undone table to the
      publisher's final table exactly when they settle what the replay's row changes removed and altered. */
  lemma UndoThenApplyAcrossRewrites(mine: seq<Stmt>, theirs: seq<Stmt>, t: Table)
    requires ShapesFirst(mine) && ShapesFirst(theirs) && Reshaped(mine, t) == Reshaped(theirs, t)
    requires Runs(mine, t) && Runs(theirs, t) && NoKeyChange(ChangesOf(mine))
    ensures var r := ApplyAll(Undo(Run(mine, t), LogOf(ChangesOf(mine))), ChangesOf(theirs));
      && r.Ok?
      && (r.table == Run(theirs, t) <==> Settles(Reshaped(mine, t), ChangesOf(mine), ChangesOf(theirs)))
  {
    RewritesFirst(mine, t);
    RewritesFirst(theirs, t);
    UndoThenApply(Reshaped(mine, t), ChangesOf(mine), ChangesOf(theirs));
  }

  /** Why the order matters: an update followed by a rewrite, identical on both sides, leaves the
      subscriber with the row as it was before the rewrite. */
  lemma RewriteAfterUpdateDiverges(k: Key, f: Row -> Row, r: Row)
    requires f(r) != r
    ensures var script := [Dml([k.relid], [Upd(k, k, r)]), Rewrite(k.relid, 0, f)];
      var t := map[k := r];
      && !ShapesFirst(script) && Runs(script, t) && NoKeyChange(ChangesOf(script))
      && Settles(t, ChangesOf(script), ChangesOf(script))
      && ApplyAll(Undo(Run(script, t), LogOf(ChangesOf(script))), ChangesOf(script)) == Ok(map[k := r])
      && Run(script, t) == map[k := f(r)] != map[k := r]
  {
    var u := Upd(k, k, r);
    var w := Rewrite(k.relid, 0, f);
    var script := [Dml([k.relid], [u]), w];
    var t := map[k := r];
    assert script[1..] == [w] && script[1..][1..] == [] && [u][1..] == [];
    assert u in script[0].changes && Reshapes(script[1], u.key.relid);
    assert Effect(t, u) == t && EffectAll(t, [u]) == t && ValidAll(t, [u]);
    assert Reshape(w, t) == map[k := f(r)];
    assert Run([w], t) == Run([w][1..], Reshape(w, t));
    assert Runs([w], t) == Runs([w][1..], Reshape(w, t));
    assert ChangesOf([w]) == [] + ChangesOf([w][1..]) == [];
    assert ChangesOf(script) == [u] + ChangesOf(script[1..]) == [u];
    assert LogOf([u]) == [] by {
      assert [u][..0] == [];
      assert LogOf([u]) == LogOf([u][..0]) + RowTrigger(u);
    }
    var d := Reshape(w, t);
    assert Undo(d, []) == d;
    assert Apply(d, u) == Ok(map[k := r]);
    assert ApplyAll(d, [u]) == ApplyAll(Apply(d, u).table, []);
    assert Removed(t, [u]) == {} && Altered(t, [u]) == {};
    NothingDiverges([u]);
    assert d[k] == f(r) && map[k := r][k] == r;
  }

  // ---------------------------------------------------------------- the replay log of a script

  function TouchLog(touches: seq<nat>): seq<LogEntry> { seq(|touches|, i requires 0 <= i < |touches| => Touch(touches[i])) }

  /** What the triggers log of one statement: the row trigger first, then the statement trigger; the
      event trigger for a rewrite; nothing for a stored default. */
  function StmtLog(s: Stmt): seq<LogEntry> {
    match s
    case Dml(touches, changes) => LogOf(changes) + TouchLog(touches)
    case Rewrite(o, reason, _) => [Rewritten(o, reason)]
    case Fill(_, _, _) => []
  }

  function ScriptLog(script: seq<Stmt>): seq<LogEntry> {
    if script == [] then [] else StmtLog(script[0]) + ScriptLog(script[1..])
  }

  lemma {:induction false} ScriptLogConcat(a: seq<Stmt>, b: seq<Stmt>)
    ensures ScriptLog(a + b) == ScriptLog(a) + ScriptLog(b)
  {
    if a == [] {
      assert a + b == b;
    } else {
      assert (a + b)[1..] == a[1..] + b;
      ScriptLogConcat(a[1..], b);
    }
  }

  lemma {:induction false} ScriptLogInserts(script: seq<Stmt>)
    ensures Inserted(ScriptLog(script)) == Inserted(LogOf(ChangesOf(script)))
  {
    if script != [] {
      var s, rest := script[0], script[1..];
      ScriptLogInserts(rest);
      InsertedSplits(StmtLog(s), ScriptLog(rest));
      if s.Dml? {
        InsertedSplits(LogOf(s.changes), TouchLog(s.touches));
        assert Inserted(TouchLog(s.touches)) == {};
        LogOfConcat(s.changes, ChangesOf(rest));
        InsertedSplits(LogOf(s.changes), LogOf(ChangesOf(rest)));
      } else {
        assert Inserted(StmtLog(s)) == {};
        assert ChangesOf(script) == ChangesOf(rest);
      }
    }
  }
}
