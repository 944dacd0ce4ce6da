/** Keyed tables, the publisher's row changes, and the two ways a change takes effect: on the
    publisher, where it always succeeds, and in the subscriber's apply worker, where it may find
    another table than the one it was decoded from. */
module Tables {

  /** The replica identity apply finds a row by: the table's OID and the key columns' text. */
  datatype Key = Key(relid: nat, id: string)

  /** Column name to value, both as text. */
  type Row = map<string, string>

  type Table = map<Key, Row>

  /** A decoded row change. An update carries the old key and the whole new row. */
  datatype Change =
    | Ins(key: Key, row: Row)
    | Upd(was: Key, key: Key, row: Row)
    | Del(key: Key)

  datatype Applied = Ok(table: Table) | Conflict(key: Key)

  /** What the database that executes a statement itself checks: no key appears twice. */
  predicate Valid(t: Table, c: Change) {
    match c
    case Ins(k, _) => k !in t
    case Upd(o, k, _) => o in t && (k == o || k !in t)
    case Del(k) => k in t
  }

  function Effect(t: Table, c: Change): Table {
    match c
    case Ins(k, r) => t[k := r]
    case Upd(o, k, r) => (t - {o})[k := r]
    case Del(k) => t - {k}
  }

  predicate ValidAll(t: Table, cs: seq<Change>)
    decreases |cs|
  {
    cs == [] || (Valid(t, cs[0]) && ValidAll(Effect(t, cs[0]), cs[1..]))
  }

  function EffectAll(t: Table, cs: seq<Change>): Table
    decreases |cs|
  {
    if cs == [] then t else EffectAll(Effect(t, cs[0]), cs[1..])
  }

  /** The apply worker (section 31.5 of the PostgreSQL 16 documentation): an insert of a present
      key raises, an update or delete of an absent key is skipped. */
  function Apply(t: Table, c: Change): Applied {
    match c
    case Ins(k, r) => if k in t then Conflict(k) else Ok(t[k := r])
    case Upd(o, k, r) =>
      if o !in t then Ok(t)
      else if k != o && k in t then Conflict(k)
      else Ok((t - {o})[k := r])
    case Del(k) => Ok(t - {k})
  }

  function ApplyAll(t: Table, cs: seq<Change>): Applied
    decreases |cs|
  {
    if cs == [] then Ok(t) else
    match Apply(t, cs[0])
    case Conflict(k) => Conflict(k)
    case Ok(t') => ApplyAll(t', cs[1..])
  }

  // ---------------------------------------------------------------- concatenation

  lemma {:induction false} EffectAllConcat(t: Table, a: seq<Change>, b: seq<Change>)
    ensures EffectAll(t, a + b) == EffectAll(EffectAll(t, a), b)
    ensures ValidAll(t, a + b) <==> ValidAll(t, a) && ValidAll(EffectAll(t, a), b)
    decreases |a|
  {
    if a == [] {
      assert a + b == b;
    } else {
      assert (a + b)[1..] == a[1..] + b;
      EffectAllConcat(Effect(t, a[0]), a[1..], b);
    }
  }

  lemma {:induction false} ApplyAllConcat(t: Table, a: seq<Change>, b: seq<Change>)
    ensures ApplyAll(t, a).Ok? ==> ApplyAll(t, a + b) == ApplyAll(ApplyAll(t, a).table, b)
    decreases |a|
  {
    if a == [] {
      assert a + b == b;
    } else {
      assert (a + b)[1..] == a[1..] + b;
      if Apply(t, a[0]).Ok? {
        ApplyAllConcat(Apply(t, a[0]).table, a[1..], b);
      }
    }
  }

  // ---------------------------------------------------------------- divergence

  /** Rows the publisher has and the subscriber lacks. */
  function Missing(p: Table, u: Table): set<Key> { p.Keys - u.Keys }

  /** Rows both sides have with different contents. */
  function Stale(p: Table, u: Table): set<Key> { set k | k in u && k in p && u[k] != p[k] }

  /** How one change moves the missing rows: a delete settles one, and a key-changing update of
      one, which apply skips, moves the gap to the new key. */
  function MissingAfter(m: set<Key>, c: Change): set<Key> {
    match c
    case Ins(k, _) => m - {k}
    case Upd(o, k, _) => if o in m then m - {o} + {k} else m
    case Del(k) => m - {k}
  }

  /** Any write or delete that apply carries out settles a stale row. */
  function StaleAfter(s: set<Key>, c: Change): set<Key> {
    match c
    case Ins(k, _) => s - {k}
    case Upd(o, _, _) => s - {o}
    case Del(k) => s - {k}
  }

  function MissingAtEnd(m: set<Key>, cs: seq<Change>): set<Key>
    decreases |cs|
  {
    if cs == [] then m else MissingAtEnd(MissingAfter(m, cs[0]), cs[1..])
  }

  function StaleAtEnd(s: set<Key>, cs: seq<Change>): set<Key>
    decreases |cs|
  {
    if cs == [] then s else StaleAtEnd(StaleAfter(s, cs[0]), cs[1..])
  }

  lemma ApplyStep(p: Table, u: Table, c: Change)
    requires u.Keys <= p.Keys && Valid(p, c)
    ensures Apply(u, c).Ok?
    ensures var u' := Apply(u, c).table; var p' := Effect(p, c);
      && u'.Keys <= p'.Keys
      && Missing(p', u') == MissingAfter(Missing(p, u), c)
      && Stale(p', u') == StaleAfter(Stale(p, u), c)
  {
  }

  /** A subscriber that has no row the publisher lacks applies any publisher transaction without a
      conflict, and what it still misses and what is still stale follow from the changes alone. */
  lemma {:induction false} ApplyTracksDivergence(p: Table, u: Table, cs: seq<Change>)
    requires u.Keys <= p.Keys && ValidAll(p, cs)
    ensures ApplyAll(u, cs).Ok?
    ensures var u' := ApplyAll(u, cs).table; var p' := EffectAll(p, cs);
      && u'.Keys <= p'.Keys
      && Missing(p', u') == MissingAtEnd(Missing(p, u), cs)
      && Stale(p', u') == StaleAtEnd(Stale(p, u), cs)
    decreases |cs|
  {
    if cs != [] {
      ApplyStep(p, u, cs[0]);
      ApplyTracksDivergence(Effect(p, cs[0]), Apply(u, cs[0]).table, cs[1..]);
    }
  }

  lemma EqualWhenSettled(p: Table, u: Table)
    requires u.Keys <= p.Keys
    ensures u == p <==> Missing(p, u) == {} && Stale(p, u) == {}
  {
    if Missing(p, u) == {} && Stale(p, u) == {} {
      assert forall k :: k in p ==> k !in Missing(p, u);
      forall k | k in p ensures u[k] == p[k] {
        assert k !in Stale(p, u);
      }
    }
  }

  /** Apply reproduces the publisher's own effect on an equal table. */
  lemma ApplyOnEqualTable(p: Table, cs: seq<Change>)
    requires ValidAll(p, cs)
    ensures ApplyAll(p, cs) == Ok(EffectAll(p, cs))
  {
    ApplyTracksDivergence(p, p, cs);
    NothingDiverges(cs);
    assert Missing(p, p) == {} && Stale(p, p) == {};
    EqualWhenSettled(EffectAll(p, cs), ApplyAll(p, cs).table);
  }

  lemma {:induction false} NothingDiverges(cs: seq<Change>)
    ensures MissingAtEnd({}, cs) == {} && StaleAtEnd({}, cs) == {}
  {
    if cs != [] {
      assert MissingAfter({}, cs[0]) == {} && StaleAfter({}, cs[0]) == {};
      NothingDiverges(cs[1..]);
    }
  }

  // ---------------------------------------------------------------- no key changes

  predicate NoKeyChange(cs: seq<Change>) {
    forall c :: c in cs && c.Upd? ==> c.key == c.was
  }

  predicate Deletes(cs: seq<Change>, k: Key) { Del(k) in cs }

  predicate Writes(cs: seq<Change>, k: Key) {
    exists i :: 0 <= i < |cs| && !cs[i].Del? && cs[i].key == k
  }

  /** Without key changes the gaps close exactly by deletes, for rows the publisher held. */
  lemma {:induction false} MissingClosesByDelete(p: Table, m: set<Key>, cs: seq<Change>, k: Key)
    requires ValidAll(p, cs) && NoKeyChange(cs) && m <= p.Keys
    ensures k in MissingAtEnd(m, cs) <==> k in m && !Deletes(cs, k)
    decreases |cs|
  {
    if cs != [] {
      assert cs[0] in cs;
      assert forall c :: c in cs[1..] ==> c in cs;
      assert Deletes(cs, k) <==> cs[0] == Del(k) || Deletes(cs[1..], k);
      MissingClosesByDelete(Effect(p, cs[0]), MissingAfter(m, cs[0]), cs[1..], k);
    }
  }

  lemma {:induction false} StaleClosesByWrite(s: set<Key>, cs: seq<Change>, k: Key)
    requires NoKeyChange(cs)
    ensures k in StaleAtEnd(s, cs) <==> k in s && !Deletes(cs, k) && !Writes(cs, k)
    decreases |cs|
  {
    if cs != [] {
      assert cs[0] in cs;
      assert forall c :: c in cs[1..] ==> c in cs;
      assert Deletes(cs, k) <==> cs[0] == Del(k) || Deletes(cs[1..], k);
      assert Writes(cs, k) <==> (!cs[0].Del? && cs[0].key == k) || Writes(cs[1..], k) by {
        if Writes(cs, k) {
          var i :| 0 <= i < |cs| && !cs[i].Del? && cs[i].key == k;
          if i > 0 { assert cs[1..][i - 1] == cs[i]; }
        }
        if Writes(cs[1..], k) {
          var i :| 0 <= i < |cs[1..]| && !cs[1..][i].Del? && cs[1..][i].key == k;
          assert cs[i + 1] == cs[1..][i];
        }
      }
      StaleClosesByWrite(StaleAfter(s, cs[0]), cs[1..], k);
    }
  }
}
