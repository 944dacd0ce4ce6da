/** The undo on a table without a replica identity: nothing names a row but its whole contents, so
    the undo deletes one matching row per logged insert. */
module Keyless {
  /** The rows of a keyless table in physical order, and the logged whole-row inserts. */
  type Text = string

  function Count(s: seq<Text>, v: Text): nat { multiset(s)[v] }

  /** The undo's query: rows are numbered within their own value in physical order, and a row is
      deleted when its number does not exceed the number of logged inserts of that value.
      `seen` holds the rows already numbered. */
  function DeleteNumbered(rows: seq<Text>, seen: seq<Text>, log: seq<Text>): seq<Text>
    decreases |rows|
  {
    if rows == [] then []
    else
      var v := rows[0];
      (if Count(seen, v) + 1 <= Count(log, v) then [] else [v]) + DeleteNumbered(rows[1..], seen + [v], log)
  }

  function Undo(rows: seq<Text>, log: seq<Text>): seq<Text> { DeleteNumbered(rows, [], log) }

  function Less(a: nat, b: nat): nat { if a <= b then 0 else a - b }

  lemma {:induction false} NumberedCount(rows: seq<Text>, seen: seq<Text>, log: seq<Text>, v: Text)
    ensures Count(DeleteNumbered(rows, seen, log), v) == Less(Count(rows, v), Less(Count(log, v), Count(seen, v)))
    decreases |rows|
  {
    if rows != [] {
      NumberedCount(rows[1..], seen + [rows[0]], log, v);
      assert rows == [rows[0]] + rows[1..];
      assert multiset(rows) == multiset{rows[0]} + multiset(rows[1..]);
      assert multiset(seen + [rows[0]]) == multiset(seen) + multiset{rows[0]};
      var head := if Count(seen, rows[0]) + 1 <= Count(log, rows[0]) then [] else [rows[0]];
      assert multiset(DeleteNumbered(rows, seen, log))
          == multiset(head) + multiset(DeleteNumbered(rows[1..], seen + [rows[0]], log));
    }
  }

  /** Every row value keeps max(0, count - logged) copies: exact multiset subtraction. */
  lemma UndoSubtracts(rows: seq<Text>, log: seq<Text>)
    ensures multiset(Undo(rows, log)) == multiset(rows) - multiset(log)
  {
    forall v: Text ensures multiset(Undo(rows, log))[v] == (multiset(rows) - multiset(log))[v] {
      NumberedCount(rows, [], log, v);
    }
  }

  /** Row operations of a replay. A changed row logs a key change on such a table, since the whole
      row is its key, so a replay that passes the check only inserts and deletes. */
  datatype Op = Add(row: Text) | Remove(row: Text)

  predicate CanRun(t: multiset<Text>, ops: seq<Op>)
    decreases |ops|
  {
    ops == [] ||
    match ops[0]
    case Add(v) => CanRun(t + multiset{v}, ops[1..])
    case Remove(v) => v in t && CanRun(t - multiset{v}, ops[1..])
  }

  function RunAll(t: multiset<Text>, ops: seq<Op>): multiset<Text>
    decreases |ops|
  {
    if ops == [] then t else
    match ops[0]
    case Add(v) => RunAll(t + multiset{v}, ops[1..])
    case Remove(v) => RunAll(t - multiset{v}, ops[1..])
  }

  function Added(ops: seq<Op>): multiset<Text> {
    if ops == [] then multiset{} else (if ops[0].Add? then multiset{ops[0].row} else multiset{}) + Added(ops[1..])
  }

  function Taken(ops: seq<Op>): multiset<Text> {
    if ops == [] then multiset{} else (if ops[0].Remove? then multiset{ops[0].row} else multiset{}) + Taken(ops[1..])
  }

  lemma {:induction false} RunBalance(t: multiset<Text>, ops: seq<Op>)
    requires CanRun(t, ops)
    ensures RunAll(t, ops) + Taken(ops) == t + Added(ops)
    decreases |ops|
  {
    if ops != [] {
      match ops[0]
      case Add(v) =>
        RunBalance(t + multiset{v}, ops[1..]);
        assert Taken(ops) == Taken(ops[1..]);
      case Remove(v) =>
        RunBalance(t - multiset{v}, ops[1..]);
        assert t == (t - multiset{v}) + multiset{v};
        assert Added(ops) == Added(ops[1..]);
        var r, d, i := RunAll(t, ops), Taken(ops[1..]), Added(ops);
        assert Taken(ops) == multiset{v} + d;
        forall w: Text ensures (r + Taken(ops))[w] == (t + i)[w] {
          assert (r + d)[w] == ((t - multiset{v}) + i)[w];
        }
    }
  }

  /** Undoing a replay leaves max(0, before - deleted) copies of each row: a replay that only
      inserted is undone exactly, and one that also deleted loses what it deleted, whatever the
      order in which it inserted and deleted. */
  lemma UndoneReplay(before: seq<Text>, ops: seq<Op>, after: seq<Text>, log: seq<Text>)
    requires CanRun(multiset(before), ops) && multiset(after) == RunAll(multiset(before), ops)
    requires multiset(log) == Added(ops)
    ensures multiset(Undo(after, log)) == multiset(before) - Taken(ops)
    ensures Taken(ops) == multiset{} ==> multiset(Undo(after, log)) == multiset(before)
  {
    UndoSubtracts(after, log);
    RunBalance(multiset(before), ops);
    var b, a, d, i := multiset(before), multiset(after), Taken(ops), Added(ops);
    forall v: Text ensures (a - i)[v] == (b - d)[v] {
      assert (a + d)[v] == (b + i)[v];
    }
    assert a - i == b - d;
  }
}
