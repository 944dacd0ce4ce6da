/** Two tables that agree outside some relations. A resolved halt may leave the rows of the tables it
    named different; these lemmas keep everything else equal: keys never depend on the contents of rows,
    and a row change carries the whole row. */
module Apart {
  import opened Tables
  import opened UndoApply
  import R = Rewrites

  /** The same keys, and the same rows outside the relations `d`. */
  ghost predicate SameOff(d: set<nat>, t: Table, u: Table) {
    t.Keys == u.Keys && forall k :: k in t && k.relid !in d ==> t[k] == u[k]
  }

  lemma NothingApart(t: Table, u: Table)
    ensures SameOff({}, t, u) <==> t == u
  {
  }

  lemma StillOff(d: set<nat>, more: set<nat>, t: Table, u: Table, v: Table)
    requires SameOff(d, t, u) && SameOff(more, u, v) && d <= more
    ensures SameOff(more, t, v)
  {
  }

  // ---------------------------------------------------------------- row changes

  lemma EffectOff(d: set<nat>, t: Table, u: Table, c: Change)
    requires SameOff(d, t, u)
    ensures (Valid(t, c) <==> Valid(u, c)) && SameOff(d, Effect(t, c), Effect(u, c))
  {
  }

  lemma {:induction false} EffectAllOff(d: set<nat>, t: Table, u: Table, cs: seq<Change>)
    requires SameOff(d, t, u)
    ensures (ValidAll(t, cs) <==> ValidAll(u, cs)) && SameOff(d, EffectAll(t, cs), EffectAll(u, cs))
    decreases |cs|
  {
    if cs != [] {
      EffectOff(d, t, u, cs[0]);
      EffectAllOff(d, Effect(t, cs[0]), Effect(u, cs[0]), cs[1..]);
    }
  }

  lemma ApplyOff(d: set<nat>, t: Table, u: Table, c: Change)
    requires SameOff(d, t, u)
    ensures var r, q := Apply(t, c), Apply(u, c); (r.Ok? <==> q.Ok?) && (r.Ok? ==> SameOff(d, r.table, q.table))
  {
  }

  lemma {:induction false} ApplyAllOff(d: set<nat>, t: Table, u: Table, cs: seq<Change>)
    requires SameOff(d, t, u)
    ensures var r, q := ApplyAll(t, cs), ApplyAll(u, cs); (r.Ok? <==> q.Ok?) && (r.Ok? ==> SameOff(d, r.table, q.table))
    decreases |cs|
  {
    if cs != [] {
      ApplyOff(d, t, u, cs[0]);
      if Apply(t, cs[0]).Ok? { ApplyAllOff(d, Apply(t, cs[0]).table, Apply(u, cs[0]).table, cs[1..]); }
    }
  }

  lemma UndoOff(d: set<nat>, t: Table, u: Table, log: seq<LogEntry>)
    requires SameOff(d, t, u)
    ensures SameOff(d, Undo(t, log), Undo(u, log))
  {
  }

  // ---------------------------------------------------------------- scripts

  lemma StepOff(d: set<nat>, s: R.Stmt, t: Table, u: Table)
    requires SameOff(d, t, u)
    ensures SameOff(d, R.Step(s, t), R.Step(s, u)) && (s.Dml? ==> (ValidAll(t, s.changes) <==> ValidAll(u, s.changes)))
  {
    if s.Dml? { EffectAllOff(d, t, u, s.changes); }
  }

  /** The same script on both sides keeps them together. */
  lemma {:induction false} RunOff(d: set<nat>, script: seq<R.Stmt>, t: Table, u: Table)
    requires SameOff(d, t, u)
    ensures (R.Runs(script, t) <==> R.Runs(script, u)) && SameOff(d, R.Run(script, t), R.Run(script, u))
    decreases |script|
  {
    if script != [] {
      StepOff(d, script[0], t, u);
      RunOff(d, script[1..], R.Step(script[0], t), R.Step(script[0], u));
    }
  }

  function TrimmedStmt(d: set<nat>, s: R.Stmt): R.Stmt { if !s.Dml? && s.relid in d then R.Dml([], []) else s }

  /** The script without its changes of shape of the relations `d`; every other statement stays in its
      place. */
  function Trim(d: set<nat>, script: seq<R.Stmt>): (r: seq<R.Stmt>)
    ensures |r| == |script| && forall i :: 0 <= i < |r| ==> r[i] == TrimmedStmt(d, script[i])
  {
    seq(|script|, i requires 0 <= i < |script| => TrimmedStmt(d, script[i]))
  }

  lemma TrimTail(d: set<nat>, script: seq<R.Stmt>)
    requires script != []
    ensures Trim(d, script) != [] && Trim(d, script)[0] == TrimmedStmt(d, script[0])
    ensures Trim(d, script)[1..] == Trim(d, script[1..])
  {
  }

  lemma TrimNothing(script: seq<R.Stmt>)
    ensures Trim({}, script) == script
  {
  }

  lemma TrimmedStep(d: set<nat>, s: R.Stmt, t: Table, u: Table)
    requires SameOff(d, t, u)
    ensures SameOff(d, R.Step(s, t), R.Step(TrimmedStmt(d, s), u))
    ensures (s.Dml? ==> ValidAll(t, s.changes)) <==> (TrimmedStmt(d, s).Dml? ==> ValidAll(u, TrimmedStmt(d, s).changes))
  {
    StepOff(d, s, t, u);
    var n := TrimmedStmt(d, s);
    if n != s {
      assert n == R.Dml([], []) && EffectAll(u, []) == u && ValidAll(u, []);
      assert R.Step(s, t).Keys == t.Keys;
    }
  }

  /** Reshaping those relations or not makes no difference elsewhere. */
  lemma {:induction false} TrimmedRun(d: set<nat>, script: seq<R.Stmt>, t: Table, u: Table)
    requires SameOff(d, t, u)
    ensures R.Runs(script, t) <==> R.Runs(Trim(d, script), u)
    ensures SameOff(d, R.Run(script, t), R.Run(Trim(d, script), u))
    decreases |script|
  {
    if script != [] {
      TrimTail(d, script);
      TrimmedStep(d, script[0], t, u);
      TrimmedRun(d, script[1..], R.Step(script[0], t), R.Step(TrimmedStmt(d, script[0]), u));
    }
  }

  lemma {:induction false} TrimmedChanges(d: set<nat>, script: seq<R.Stmt>)
    ensures R.ChangesOf(Trim(d, script)) == R.ChangesOf(script)
    decreases |script|
  {
    if script != [] {
      TrimTail(d, script);
      TrimmedChanges(d, script[1..]);
    }
  }

  // ---------------------------------------------------------------- undo-then-apply

  /** Everything the replay damaged is repaired by the publisher's transaction, but for rows of `d` it
      altered. */
  ghost predicate SettlesOff(d: set<nat>, t: Table, ops: seq<Change>, cs: seq<Change>) {
    && MissingAtEnd(Removed(t, ops), cs) == {}
    && forall k :: k in StaleAtEnd(Altered(t, ops), cs) ==> k.relid in d
  }

  lemma SettlesEverywhere(t: Table, ops: seq<Change>, cs: seq<Change>)
    ensures SettlesOff({}, t, ops, cs) <==> Settles(t, ops, cs)
  {
  }

  lemma OffIsMissingAndStale(d: set<nat>, p: Table, u: Table)
    requires u.Keys <= p.Keys
    ensures SameOff(d, u, p) <==> Missing(p, u) == {} && forall k :: k in Stale(p, u) ==> k.relid in d
  {
    if Missing(p, u) == {} && forall k :: k in Stale(p, u) ==> k.relid in d {
      assert forall k :: k in p ==> k !in Missing(p, u);
      forall k | k in u && k.relid !in d ensures u[k] == p[k] { assert k !in Stale(p, u); }
    }
    if SameOff(d, u, p) {
      forall k | k in Stale(p, u) ensures k.relid in d { assert u[k] != p[k]; }
    }
  }

  /** Undo-then-apply apart from the relations `d`. The replay `mine` and the publisher's `theirs` may
      reshape those as they like and whenever they like; elsewhere they reshape first and alike. Then apply
      never conflicts, and outside `d` it ends at the publisher's table exactly when the publisher's
      changes settle what the replay removed anywhere and altered outside `d`. */
  lemma UndoThenApplyApart(d: set<nat>, mine: seq<R.Stmt>, theirs: seq<R.Stmt>, t: Table)
    requires R.ShapesFirst(Trim(d, mine)) && R.ShapesFirst(Trim(d, theirs))
    requires R.Reshaped(Trim(d, mine), t) == R.Reshaped(Trim(d, theirs), t)
    requires R.Runs(mine, t) && R.Runs(theirs, t) && NoKeyChange(R.ChangesOf(mine))
    ensures var r := ApplyAll(Undo(R.Run(mine, t), LogOf(R.ChangesOf(mine))), R.ChangesOf(theirs));
      && r.Ok?
      && (SameOff(d, r.table, R.Run(theirs, t))
          <==> SettlesOff(d, R.Reshaped(Trim(d, mine), t), R.ChangesOf(mine), R.ChangesOf(theirs)))
  {
    var base, ops, cs := R.Reshaped(Trim(d, mine), t), R.ChangesOf(mine), R.ChangesOf(theirs);
    TrimmedSide(d, mine, t);
    TrimmedSide(d, theirs, t);
    var u := Undo(EffectAll(base, ops), LogOf(ops));
    UndoRestoresKeys(base, ops);
    ApplyTracksDivergence(base, u, cs);
    UndoOff(d, R.Run(mine, t), EffectAll(base, ops), LogOf(ops));
    ApplyAllOff(d, Undo(R.Run(mine, t), LogOf(ops)), u, cs);
    OffIsMissingAndStale(d, EffectAll(base, cs), ApplyAll(u, cs).table);
  }

  lemma TrimmedSide(d: set<nat>, script: seq<R.Stmt>, t: Table)
    requires R.ShapesFirst(Trim(d, script)) && R.Runs(script, t)
    ensures var base, ops := R.Reshaped(Trim(d, script), t), R.ChangesOf(script);
      ValidAll(base, ops) && SameOff(d, R.Run(script, t), EffectAll(base, ops))
  {
    TrimmedRun(d, script, t, t);
    TrimmedChanges(d, script);
    R.RewritesFirst(Trim(d, script), t);
  }
}
