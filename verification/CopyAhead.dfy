/** The copy-columns remedy: overwrite chosen columns of the rows that exist locally from one
    snapshot of the publisher, which may be ahead of apply. */
module CopyAhead {
  import opened Tables

  datatype Outcome = Refused | Copied(table: Table, updated: set<Key>)

  /** UPDATE t SET c = s.c for the copied columns. */
  function Overwrite(mine: Row, theirs: Row, cols: set<string>): Row {
    map c | c in mine.Keys + theirs.Keys * cols :: if c in cols && c in theirs then theirs[c] else mine[c]
  }

  /** copy-columns writes the table it was asked for, its partitions included, and no other. */
  function Merge(t: Table, snapshot: Table, relids: set<nat>, cols: set<string>): Table {
    map k | k in t :: if k.relid in relids && k in snapshot then Overwrite(t[k], snapshot[k], cols) else t[k]
  }

  /** Rows of the copied table that the snapshot has and the subscriber lacks. */
  function UnmatchedRows(t: Table, snapshot: Table, relids: set<nat>): set<Key> {
    set k | k in snapshot && k.relid in relids && k !in t
  }

  /** follower._copy_columns: rows read but not matched locally refuse the whole copy unless
      `allowUnmatched` covers them; otherwise exactly the matched rows of the table are updated. */
  function CopyColumns(t: Table, snapshot: Table, relids: set<nat>, cols: set<string>, allowUnmatched: nat): (o: Outcome)
    ensures o.Refused? <==> |UnmatchedRows(t, snapshot, relids)| > allowUnmatched
    ensures o.Copied? ==> o.table.Keys == t.Keys
    ensures o.Copied? ==> forall k :: k in t && o.table[k] != t[k] ==> k in o.updated
    ensures o.Copied? ==> forall k :: k in o.updated <==> k in t && k in snapshot && k.relid in relids
  {
    if |UnmatchedRows(t, snapshot, relids)| > allowUnmatched then Refused
    else Copied(Merge(t, snapshot, relids, cols), set k | k in t && k in snapshot && k.relid in relids)
  }

  /** The copy changes nothing but the copied columns of matched rows, and those become the
      publisher's wherever the publisher's row has the column. */
  lemma CopyTouchesOnly(t: Table, snapshot: Table, relids: set<nat>, cols: set<string>, k: Key, c: string)
    requires k in t && c in t[k]
    ensures var m := Merge(t, snapshot, relids, cols);
      && m.Keys == t.Keys && c in m[k]
      && m[k][c] == if k.relid in relids && k in snapshot && c in cols && c in snapshot[k] then snapshot[k][c] else t[k][c]
  {
    if k in snapshot {
      assert c in Overwrite(t[k], snapshot[k], cols);
    }
  }

  /** A change that settles the row stored under `k`. */
  predicate Hits(cs: seq<Change>, k: Key) {
    exists i :: 0 <= i < |cs| && HitBy(cs[i], k)
  }

  predicate HitBy(c: Change, k: Key) {
    match c
    case Ins(key, _) => key == k
    case Upd(was, _, _) => was == k
    case Del(key) => key == k
  }

  lemma HitsStep(cs: seq<Change>, k: Key)
    requires cs != []
    ensures Hits(cs, k) <==> HitBy(cs[0], k) || Hits(cs[1..], k)
  {
    if Hits(cs, k) {
      var i :| 0 <= i < |cs| && HitBy(cs[i], k);
      if i > 0 { assert cs[1..][i - 1] == cs[i]; }
    }
    if Hits(cs[1..], k) {
      var i :| 0 <= i < |cs[1..]| && HitBy(cs[1..][i], k);
      assert cs[i + 1] == cs[1..][i];
    }
  }

  lemma {:induction false} StaleUntilHit(s: set<Key>, cs: seq<Change>, k: Key)
    ensures k in StaleAtEnd(s, cs) <==> k in s && !Hits(cs, k)
    decreases |cs|
  {
    if cs != [] {
      HitsStep(cs, k);
      StaleUntilHit(StaleAfter(s, cs[0]), cs[1..], k);
    }
  }

  /** A row no change hits is still there, unchanged. */
  lemma {:induction false} UnhitRowStays(p: Table, cs: seq<Change>, k: Key)
    requires ValidAll(p, cs) && k in p && !Hits(cs, k)
    ensures k in EffectAll(p, cs) && EffectAll(p, cs)[k] == p[k]
    decreases |cs|
  {
    if cs != [] {
      HitsStep(cs, k);
      UnhitRowStays(Effect(p, cs[0]), cs[1..], k);
    }
  }

  predicate AgreeOff(mine: Row, theirs: Row, cols: set<string>) {
    forall c :: c in theirs && c !in cols ==> c in mine && mine[c] == theirs[c]
  }

  /** The columns the copy overwrites in a row. */
  function CopiedIn(k: Key, relids: set<nat>, cols: set<string>): set<string> { if k.relid in relids then cols else {} }

  lemma OverwriteRepairs(mine: Row, theirs: Row, cols: set<string>)
    requires mine.Keys == theirs.Keys
    ensures Overwrite(mine, theirs, cols) == theirs <==> AgreeOff(mine, theirs, cols)
  {
    var o := Overwrite(mine, theirs, cols);
    assert o.Keys == theirs.Keys;
    if o == theirs {
      forall c | c in theirs && c !in cols ensures mine[c] == theirs[c] { assert o[c] == theirs[c]; }
    }
  }

  /** Copying ahead of apply converges. The subscriber `s` stands at the publisher's position `p`
      with its keys; the snapshot is taken after the changes `pre`; apply then carries `pre + post`.
      It ends at the publisher's table exactly when every row that no change hits already agreed
      with the publisher outside the copied columns. */
  lemma CopyAheadConverges(p: Table, s: Table, relids: set<nat>, cols: set<string>, pre: seq<Change>, post: seq<Change>)
    requires ValidAll(p, pre + post) && s.Keys == p.Keys
    requires forall k :: k in p ==> s[k].Keys == p[k].Keys
    ensures var r := ApplyAll(Merge(s, EffectAll(p, pre), relids, cols), pre + post);
      r.Ok? && (r.table == EffectAll(p, pre + post) <==>
                forall k :: k in p && !Hits(pre + post, k) ==> AgreeOff(s[k], p[k], CopiedIn(k, relids, cols)))
  {
    var cs := pre + post;
    var m := Merge(s, EffectAll(p, pre), relids, cols);
    EffectAllConcat(p, pre, post);
    ApplyTracksDivergence(p, m, cs);
    assert Missing(p, m) == {};
    NothingDiverges(cs);
    EqualWhenSettled(EffectAll(p, cs), ApplyAll(m, cs).table);
    forall k ensures k in StaleAtEnd(Stale(p, m), cs) <==>
        k in p && !Hits(cs, k) && !AgreeOff(s[k], p[k], CopiedIn(k, relids, cols)) {
      StaleUntilHit(Stale(p, m), cs, k);
      HitsOfPrefix(pre, post, k);
      if k in p && !Hits(cs, k) { MergedRow(p, s, relids, cols, pre, k); }
    }
  }

  /** A row that nothing hit before the snapshot is the publisher's after the copy exactly when it
      agreed outside the copied columns. */
  lemma MergedRow(p: Table, s: Table, relids: set<nat>, cols: set<string>, pre: seq<Change>, k: Key)
    requires ValidAll(p, pre) && k in p && k in s && s[k].Keys == p[k].Keys && !Hits(pre, k)
    ensures Merge(s, EffectAll(p, pre), relids, cols)[k] == p[k] <==> AgreeOff(s[k], p[k], CopiedIn(k, relids, cols))
  {
    UnhitRowStays(p, pre, k);
    OverwriteRepairs(s[k], p[k], cols);
    OverwriteRepairs(s[k], p[k], {});
    assert Overwrite(s[k], p[k], {}) == s[k];
  }

  lemma HitsOfPrefix(pre: seq<Change>, post: seq<Change>, k: Key)
    ensures Hits(pre, k) ==> Hits(pre + post, k)
  {
    if Hits(pre, k) {
      var i :| 0 <= i < |pre| && HitBy(pre[i], k);
      assert (pre + post)[i] == pre[i];
    }
  }

  /** In particular a subscriber that differs only in the copied columns converges. */
  lemma CopiedColumnsConverge(p: Table, s: Table, relids: set<nat>, cols: set<string>, pre: seq<Change>, post: seq<Change>)
    requires ValidAll(p, pre + post) && s.Keys == p.Keys
    requires forall k :: k in p ==> s[k].Keys == p[k].Keys && AgreeOff(s[k], p[k], CopiedIn(k, relids, cols))
    ensures ApplyAll(Merge(s, EffectAll(p, pre), relids, cols), pre + post) == Ok(EffectAll(p, pre + post))
  {
    CopyAheadConverges(p, s, relids, cols, pre, post);
  }

  /** A copy on a subscriber that would converge anyway keeps it converging: `pre` leads to the
      position an earlier copy read, `mid` on to the new snapshot. */
  lemma CopyKeepsConverging(p: Table, s: Table, relids: set<nat>, cols: set<string>, pre: seq<Change>)
    requires ValidAll(p, pre) && s.Keys == p.Keys
    requires forall k :: k in p && !Hits(pre, k) ==> s[k] == p[k]
    ensures var m := Merge(s, EffectAll(p, pre), relids, cols);
      m.Keys == p.Keys && forall k :: k in p && !Hits(pre, k) ==> m[k] == p[k]
  {
    forall k | k in p && !Hits(pre, k) ensures Merge(s, EffectAll(p, pre), relids, cols)[k] == p[k] {
      MergedRow(p, s, relids, cols, pre, k);
    }
  }
}
