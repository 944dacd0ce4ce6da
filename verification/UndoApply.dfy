/** Undoing the local replay of a migration and letting apply carry the publisher's copy of it. */
module UndoApply {
  import opened Tables

  /** One row of follower.replay_log. `Insert` and `KeyChange` come from the row trigger, `Touch`
      from the statement trigger, `Rewritten` from the event trigger; `VersionInsert` is an
      `Insert` whose table is a version table. */
  datatype LogEntry =
    | Insert(key: Key)
    | VersionInsert(version: VersionRow)
    | KeyChange(was: Key, key: Key)
    | Touch(relid: nat)
    | Rewritten(rel: nat, reason: nat)

  /** A row of a version table: the web lane's or a coord lane's. */
  datatype VersionRow = VersionRow(source: string, num: string)

  /** The row trigger follower.replay_log(): it fires after an insert or an update, never after a
      delete, and logs an update only when the key changed. */
  function RowTrigger(c: Change): seq<LogEntry> {
    match c
    case Ins(k, _) => [Insert(k)]
    case Upd(o, k, _) => if o != k then [KeyChange(o, k)] else []
    case Del(_) => []
  }

  function LogOf(ops: seq<Change>): seq<LogEntry> {
    if ops == [] then [] else LogOf(ops[..|ops| - 1]) + RowTrigger(ops[|ops| - 1])
  }

  function Inserted(log: seq<LogEntry>): set<Key> {
    set e | e in log && e.Insert? :: e.key
  }

  /** The undo: delete, by the key apply uses, every row the log names as inserted. */
  function Undo(t: Table, log: seq<LogEntry>): Table {
    t - Inserted(log)
  }

  /** Rows of the pre-migration table the replay deleted at some point. */
  function Removed(t: Table, ops: seq<Change>): set<Key> {
    set k | k in t && Deletes(ops, k)
  }

  /** Rows of the pre-migration table that survive the replay with other contents. */
  function Altered(t: Table, ops: seq<Change>): set<Key> {
    set k | k in t && k in EffectAll(t, ops) && !Deletes(ops, k) && EffectAll(t, ops)[k] != t[k]
  }

  lemma LogOfSnoc(ops: seq<Change>, c: Change)
    ensures LogOf(ops + [c]) == LogOf(ops) + RowTrigger(c)
    ensures Inserted(LogOf(ops + [c])) == Inserted(LogOf(ops)) + Inserted(RowTrigger(c))
  {
    assert (ops + [c])[..|ops + [c]| - 1] == ops;
  }

  lemma InsertedSplits(a: seq<LogEntry>, b: seq<LogEntry>)
    ensures Inserted(a + b) == Inserted(a) + Inserted(b)
  {
  }

  lemma {:induction false} LogOfConcat(a: seq<Change>, b: seq<Change>)
    ensures LogOf(a + b) == LogOf(a) + LogOf(b)
  {
    if b == [] {
      assert a + b == a;
    } else {
      var n := |b| - 1;
      assert a + b == (a + b[..n]) + [b[n]];
      assert b == b[..n] + [b[n]];
      LogOfSnoc(a + b[..n], b[n]);
      LogOfSnoc(b[..n], b[n]);
      LogOfConcat(a, b[..n]);
    }
  }

  /** The state of one key through the replay: a row of the pre-migration table stays until it is
      deleted, and a key outside it, or one deleted and inserted again, is in the log. */
  lemma {:induction false} ReplayKeyState(t: Table, ops: seq<Change>, k: Key)
    requires ValidAll(t, ops) && NoKeyChange(ops)
    ensures k in t && !Deletes(ops, k) ==> k in EffectAll(t, ops) && k !in Inserted(LogOf(ops))
    ensures !(k in t && !Deletes(ops, k)) && k in EffectAll(t, ops) ==> k in Inserted(LogOf(ops))
  {
    if ops != [] {
      var n := |ops| - 1;
      var init, c := ops[..n], ops[n];
      assert ops == init + [c];
      EffectAllConcat(t, init, [c]);
      assert forall d :: d in init ==> d in ops;
      assert c in ops;
      ReplayKeyState(t, init, k);
      LogOfSnoc(init, c);
      assert EffectAll(EffectAll(t, init), [c]) == Effect(EffectAll(t, init), c);
      assert ValidAll(EffectAll(t, init), [c]) ==> Valid(EffectAll(t, init), c);
      assert Deletes(ops, k) <==> Deletes(init, k) || c == Del(k);
      match c
      case Ins(key, _) =>
        assert RowTrigger(c) == [Insert(key)];
        assert Inserted([Insert(key)]) == {key} by { assert Insert(key) in [Insert(key)]; }
      case Upd(o, key, _) =>
        assert RowTrigger(c) == [];
      case Del(_) =>
    }
  }

  /** After the undo exactly the pre-migration rows the replay never deleted are left. */
  lemma UndoRestoresKeys(t: Table, ops: seq<Change>)
    requires ValidAll(t, ops) && NoKeyChange(ops)
    ensures var u := Undo(EffectAll(t, ops), LogOf(ops));
      && u.Keys == t.Keys - Removed(t, ops)
      && u.Keys <= t.Keys
      && Missing(t, u) == Removed(t, ops)
      && Stale(t, u) == Altered(t, ops)
  {
    forall k ensures k in Undo(EffectAll(t, ops), LogOf(ops)) <==> k in t && !Deletes(ops, k) {
      ReplayKeyState(t, ops, k);
    }
  }

  /** Everything the replay damaged is repaired by the publisher's transaction. */
  predicate Settles(t: Table, ops: seq<Change>, cs: seq<Change>) {
    MissingAtEnd(Removed(t, ops), cs) == {} && StaleAtEnd(Altered(t, ops), cs) == {}
  }

  /** The central claim. `t` is the table before the migration on both sides, `ops` the replay's
      row changes, `cs` the publisher's. With no key changed by the replay, apply never meets a
      conflict on the undone table, and it ends at the publisher's table exactly when the
      publisher's changes settle what the replay removed and altered. */
  lemma UndoThenApply(t: Table, ops: seq<Change>, cs: seq<Change>)
    requires ValidAll(t, ops) && NoKeyChange(ops)
    requires ValidAll(t, cs)
    ensures var r := ApplyAll(Undo(EffectAll(t, ops), LogOf(ops)), cs);
      r.Ok? && (r.table == EffectAll(t, cs) <==> Settles(t, ops, cs))
  {
    var u := Undo(EffectAll(t, ops), LogOf(ops));
    UndoRestoresKeys(t, ops);
    ApplyTracksDivergence(t, u, cs);
    EqualWhenSettled(EffectAll(t, cs), ApplyAll(u, cs).table);
  }

  /** When the publisher changed no key either, the condition reads row by row: each
      pre-migration row the replay deleted is deleted by the publisher, and each one it altered is
      written or deleted by the publisher. */
  lemma SettlesRowByRow(t: Table, ops: seq<Change>, cs: seq<Change>)
    requires ValidAll(t, cs) && NoKeyChange(cs)
    ensures Settles(t, ops, cs) <==>
      && (forall k :: k in t && Deletes(ops, k) ==> Deletes(cs, k))
      && (forall k :: k in Altered(t, ops) ==> Deletes(cs, k) || Writes(cs, k))
  {
    forall k ensures k in MissingAtEnd(Removed(t, ops), cs) <==> k in Removed(t, ops) && !Deletes(cs, k) {
      MissingClosesByDelete(t, Removed(t, ops), cs, k);
    }
    forall k ensures k in StaleAtEnd(Altered(t, ops), cs) <==>
        k in Altered(t, ops) && !Deletes(cs, k) && !Writes(cs, k) {
      StaleClosesByWrite(Altered(t, ops), cs, k);
    }
    assert forall k :: k in Removed(t, ops) <==> k in t && Deletes(ops, k);
  }

  /** A replay that writes and deletes the very keys production did is always carried. */
  lemma SameSelectionSettles(t: Table, ops: seq<Change>, cs: seq<Change>)
    requires ValidAll(t, ops) && NoKeyChange(ops) && ValidAll(t, cs) && NoKeyChange(cs)
    requires forall k :: Deletes(ops, k) ==> Deletes(cs, k)
    requires forall k :: Writes(ops, k) ==> Writes(cs, k) || Deletes(cs, k)
    ensures ApplyAll(Undo(EffectAll(t, ops), LogOf(ops)), cs) == Ok(EffectAll(t, cs))
  {
    UndoThenApply(t, ops, cs);
    forall k | k in Altered(t, ops) ensures Deletes(cs, k) || Writes(cs, k) {
      AlteredWasWritten(t, ops, k);
    }
    SettlesRowByRow(t, ops, cs);
  }

  lemma {:induction false} AlteredWasWritten(t: Table, ops: seq<Change>, k: Key)
    requires k in t && k in EffectAll(t, ops) && EffectAll(t, ops)[k] != t[k]
    ensures Writes(ops, k)
    decreases |ops|
  {
    if ops != [] {
      var t' := Effect(t, ops[0]);
      if !ops[0].Del? && ops[0].key == k {
        assert Writes(ops, k);
      } else if k in t' {
        assert t'[k] == t[k];
        AlteredWasWritten(t', ops[1..], k);
        var i :| 0 <= i < |ops[1..]| && !ops[1..][i].Del? && ops[1..][i].key == k;
        assert ops[i + 1] == ops[1..][i];
      } else {
        ReappearsByWrite(t', ops[1..], k);
        var i :| 0 <= i < |ops[1..]| && !ops[1..][i].Del? && ops[1..][i].key == k;
        assert ops[i + 1] == ops[1..][i];
      }
    }
  }

  lemma {:induction false} ReappearsByWrite(t: Table, ops: seq<Change>, k: Key)
    requires k !in t && k in EffectAll(t, ops)
    ensures Writes(ops, k)
    decreases |ops|
  {
    if !ops[0].Del? && ops[0].key == k {
    } else {
      ReappearsByWrite(Effect(t, ops[0]), ops[1..], k);
      var i :| 0 <= i < |ops[1..]| && !ops[1..][i].Del? && ops[1..][i].key == k;
      assert ops[i + 1] == ops[1..][i];
    }
  }

  /** The known gap: a row only the replay selected stays missing, with no error anywhere. */
  lemma DifferentSelectionDiverges(k: Key, r: Row)
    ensures var t := map[k := r];
      && ValidAll(t, [Del(k)]) && NoKeyChange([Del(k)]) && ValidAll(t, [])
      && ApplyAll(Undo(EffectAll(t, [Del(k)]), LogOf([Del(k)])), []) == Ok(map[])
      && EffectAll(t, []) == t
  {
    var t := map[k := r];
    assert [Del(k)][1..] == [];
    assert Effect(t, Del(k)) == map[];
    assert EffectAll(t, [Del(k)]) == EffectAll(Effect(t, Del(k)), []);
    assert ValidAll(t, [Del(k)]) == (Valid(t, Del(k)) && ValidAll(Effect(t, Del(k)), []));
    assert Inserted(LogOf([Del(k)])) == {} by {
      assert [Del(k)][..0] == [];
      assert LogOf([Del(k)]) == LogOf([Del(k)][..0]) + RowTrigger(Del(k));
    }
  }
}
