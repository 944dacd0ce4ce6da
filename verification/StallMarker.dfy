/** The stall marker: a replicated version row passes only when its version is armed, and consumes
    the arming. Version tables are sets of version rows; apply and the local migration change them
    with the same operations, but only apply fires the trigger. */
module StallMarker {
  import opened UndoApply

  datatype VersionOp =
    | Stamp(row: VersionRow)                       // INSERT
    | Restamp(was: VersionRow, row: VersionRow)    // UPDATE
    | Unstamp(row: VersionRow)                     // DELETE

  /** Rows of the one-row table alembic keeps, as against the coord lanes' history tables. */
  predicate Web(v: VersionRow) { v.source == "web" }

  function WebRows(rows: set<VersionRow>): set<VersionRow> { set v | v in rows && Web(v) }

  function CoordRows(rows: set<VersionRow>): set<VersionRow> { set v | v in rows && !Web(v) }

  /** The version tables and follower.armed_versions of the subscriber. */
  datatype Marker = Marker(rows: set<VersionRow>, armed: set<VersionRow>)

  /** The rows that passed, in order, or the row that raised. */
  datatype Outcome =
    | Passed(marker: Marker, passes: seq<VersionRow>)
    | Raised(row: VersionRow)

  /** follower.stall_marker() followed by the row change. It fires BEFORE INSERT OR UPDATE for a row
      apply found; an update or delete of an absent row is skipped without firing. A unique
      violation raises as well. */
  function ApplyOp(m: Marker, op: VersionOp): Outcome {
    match op
    case Stamp(v) =>
      if v !in m.armed || v in m.rows then Raised(v)
      else Passed(Marker(m.rows + {v}, m.armed - {v}), [v])
    case Restamp(was, v) =>
      if was !in m.rows then Passed(m, [])
      else if v !in m.armed || (v != was && v in m.rows) then Raised(v)
      else Passed(Marker(m.rows - {was} + {v}, m.armed - {v}), [v])
    case Unstamp(v) => Passed(m.(rows := m.rows - {v}), [])
  }

  /** One remote transaction's version rows: all pass, or the transaction aborts. */
  function ApplyOps(m: Marker, ops: seq<VersionOp>): Outcome
    decreases |ops|
  {
    if ops == [] then Passed(m, []) else
    match ApplyOp(m, ops[0])
    case Raised(v) => Raised(v)
    case Passed(m', p) =>
      match ApplyOps(m', ops[1..])
      case Raised(v) => Raised(v)
      case Passed(m'', q) => Passed(m'', p + q)
  }

  /** The local migration: no marker fires, and a statement that finds no row does nothing. */
  function MigrateBy(rows: set<VersionRow>, op: VersionOp): set<VersionRow> {
    match op
    case Stamp(v) => rows + {v}
    case Restamp(was, v) => if was in rows then rows - {was} + {v} else rows
    case Unstamp(v) => rows - {v}
  }

  function Migrate(rows: set<VersionRow>, ops: seq<VersionOp>): set<VersionRow>
    decreases |ops|
  {
    if ops == [] then rows else Migrate(MigrateBy(rows, ops[0]), ops[1..])
  }

  /** The version rows the replay log holds: the row trigger logs inserts only. */
  function Stamped(ops: seq<VersionOp>): set<VersionRow> {
    set op | op in ops && op.Stamp? :: op.row
  }

  // ---------------------------------------------------------------- one-shot arming over whole runs

  /** What happened to arming, in commit order: effective armings and committed passes. An aborted
      apply transaction leaves no mark, so its armings are still there. */
  datatype Mark = Armed(row: VersionRow) | Through(row: VersionRow)

  /** A record in which an effective arming is always of an unarmed version and a pass always of an
      armed one, starting with nothing armed and ending with `armed`. */
  ghost predicate OneShot(marks: seq<Mark>, armed: set<VersionRow>)
  {
    if marks == [] then armed == {}
    else
      var n := |marks| - 1;
      match marks[n]
      case Armed(v) => v in armed && OneShot(marks[..n], armed - {v})
      case Through(v) => v !in armed && OneShot(marks[..n], armed + {v})
  }

  /** An INSERT ... ON CONFLICT DO NOTHING into armed_versions is effective when nothing conflicts. */
  function Arm(armed: set<VersionRow>, v: VersionRow): seq<Mark> {
    if v in armed then [] else [Armed(v)]
  }

  function Passes(rows: seq<VersionRow>): seq<Mark> { seq(|rows|, i requires 0 <= i < |rows| => Through(rows[i])) }

  lemma OneShotArm(marks: seq<Mark>, armed: set<VersionRow>, v: VersionRow)
    requires OneShot(marks, armed)
    ensures OneShot(marks + Arm(armed, v), armed + {v})
  {
    if v in armed {
      assert marks + Arm(armed, v) == marks && armed + {v} == armed;
    } else {
      var m := marks + [Armed(v)];
      assert m[..|m| - 1] == marks && (armed + {v}) - {v} == armed;
    }
  }

  lemma {:induction false} OneShotApply(marks: seq<Mark>, m: Marker, ops: seq<VersionOp>)
    requires OneShot(marks, m.armed) && ApplyOps(m, ops).Passed?
    ensures OneShot(marks + Passes(ApplyOps(m, ops).passes), ApplyOps(m, ops).marker.armed)
    decreases |ops|
  {
    if ops == [] {
      assert marks + Passes([]) == marks;
    } else {
      var first := ApplyOp(m, ops[0]);
      OneShotStep(marks, m, ops[0]);
      OneShotApply(marks + Passes(first.passes), first.marker, ops[1..]);
      PassesConcat(marks, first.passes, ApplyOps(first.marker, ops[1..]).passes);
    }
  }

  lemma PassesConcat(marks: seq<Mark>, p: seq<VersionRow>, q: seq<VersionRow>)
    ensures marks + Passes(p) + Passes(q) == marks + Passes(p + q)
  {
    assert Passes(p) + Passes(q) == Passes(p + q);
  }

  lemma OneShotStep(marks: seq<Mark>, m: Marker, op: VersionOp)
    requires OneShot(marks, m.armed) && ApplyOp(m, op).Passed?
    ensures OneShot(marks + Passes(ApplyOp(m, op).passes), ApplyOp(m, op).marker.armed)
  {
    var o := ApplyOp(m, op);
    var marks' := marks + Passes(o.passes);
    if o.passes == [] {
      assert marks' == marks;
    } else {
      var v := o.passes[0];
      assert o.passes == [v] && Passes([v]) == [Through(v)];
      assert marks'[..|marks'| - 1] == marks;
      assert (m.armed - {v}) + {v} == m.armed;
    }
  }

  function Count(marks: seq<Mark>, k: Mark): nat {
    if marks == [] then 0 else Count(marks[..|marks| - 1], k) + if marks[|marks| - 1] == k then 1 else 0
  }

  /** Conservation: committed passes plus outstanding armings are the effective armings. */
  lemma {:induction false} ArmingsConserved(marks: seq<Mark>, armed: set<VersionRow>, v: VersionRow)
    requires OneShot(marks, armed)
    ensures Count(marks, Through(v)) + (if v in armed then 1 else 0) == Count(marks, Armed(v))
  {
    if marks != [] {
      var n := |marks| - 1;
      match marks[n]
      case Armed(w) => ArmingsConserved(marks[..n], armed - {w}, v);
      case Through(w) => ArmingsConserved(marks[..n], armed + {w}, v);
    }
  }

  lemma {:induction false} OneShotPrefix(marks: seq<Mark>, armed: set<VersionRow>, n: nat)
    requires OneShot(marks, armed) && n <= |marks|
    ensures exists a :: OneShot(marks[..n], a)
    decreases |marks|
  {
    if n == |marks| {
      assert marks[..n] == marks;
    } else {
      var k := |marks| - 1;
      assert marks[..k][..n] == marks[..n];
      match marks[k]
      case Armed(v) => OneShotPrefix(marks[..k], armed - {v}, n);
      case Through(v) => OneShotPrefix(marks[..k], armed + {v}, n);
    }
  }

  lemma {:induction false} ArmedStays(marks: seq<Mark>, armed: set<VersionRow>, n: nat, v: VersionRow, a: set<VersionRow>)
    requires OneShot(marks, armed) && n <= |marks| && OneShot(marks[..n], a) && v !in a
    requires forall j :: n <= j < |marks| ==> marks[j] != Armed(v)
    ensures v !in armed
    decreases |marks|
  {
    if n == |marks| {
      assert marks[..n] == marks;
      ArmingsConserved(marks, armed, v);
      ArmingsConserved(marks, a, v);
    } else {
      var k := |marks| - 1;
      assert marks[..k][..n] == marks[..n];
      match marks[k]
      case Armed(w) => ArmedStays(marks[..k], armed - {w}, n, v, a);
      case Through(w) => ArmedStays(marks[..k], armed + {w}, n, v, a);
    }
  }

  /** Two passes of one version always have an arming of it between them. */
  lemma ArmingBetweenPasses(marks: seq<Mark>, armed: set<VersionRow>, i: nat, j: nat, v: VersionRow)
    requires OneShot(marks, armed) && i < j < |marks| && marks[i] == Through(v) && marks[j] == Through(v)
    ensures exists k :: i < k < j && marks[k] == Armed(v)
  {
    if forall k :: i < k < j ==> marks[k] != Armed(v) {
      OneShotPrefix(marks, armed, i + 1);
      OneShotPrefix(marks, armed, j + 1);
      var a :| OneShot(marks[..i + 1], a);
      var b :| OneShot(marks[..j + 1], b);
      assert marks[..j + 1][..j] == marks[..j] && marks[..j + 1][j] == Through(v);
      assert marks[..i + 1][i] == Through(v);
      assert marks[..j][..i + 1] == marks[..i + 1];
      ArmedStays(marks[..j], b + {v}, i + 1, v, a);
      assert false;
    }
  }

  // ---------------------------------------------------------------- the committed prefix

  datatype Prefix = Prefix(count: nat, marker: Marker)

  /** Apply works through the remote transactions in commit order until one aborts. */
  function ApplyPrefix(m: Marker, txs: seq<seq<VersionOp>>): Prefix
    decreases |txs|
  {
    if txs == [] then Prefix(0, m) else
    match ApplyOps(m, txs[0])
    case Raised(_) => Prefix(0, m)
    case Passed(m', _) => var p := ApplyPrefix(m', txs[1..]); Prefix(p.count + 1, p.marker)
  }

  /** The version row an operation writes where it finds what it needs; a delete writes none, and an
      update of an absent row is skipped. */
  predicate WritesRow(rows: set<VersionRow>, op: VersionOp) { op.Stamp? || (op.Restamp? && op.was in rows) }

  /** Its key is another row's already. */
  predicate Taken(rows: set<VersionRow>, op: VersionOp)
    requires !op.Unstamp?
  {
    op.row in rows && (op.Restamp? ==> op.row != op.was)
  }

  /** Operation `n` is the first that may not pass: apply reaches it with the armings that are left, it
      writes a version row, and that version is not armed, or its key is taken. */
  ghost predicate StopsAt(m: Marker, ops: seq<VersionOp>, n: nat) {
    && n < |ops| && ApplyOps(m, ops[..n]).Passed?
    && var at := ApplyOps(m, ops[..n]).marker;
       WritesRow(at.rows, ops[n]) && (ops[n].row !in at.armed || Taken(at.rows, ops[n]))
  }

  ghost predicate Stops(m: Marker, ops: seq<VersionOp>) { exists n :: StopsAt(m, ops, n) }

  lemma {:induction false} RaisedNotArmed(m: Marker, ops: seq<VersionOp>) returns (n: nat)
    requires ApplyOps(m, ops).Raised?
    ensures StopsAt(m, ops, n) && ops[n].row == ApplyOps(m, ops).row
    decreases |ops|
  {
    match ApplyOp(m, ops[0])
    case Raised(v) =>
      assert ApplyOps(m, ops[..0]) == Passed(m, []);
      n := 0;
    case Passed(m', p) =>
      var k := RaisedNotArmed(m', ops[1..]);
      n := k + 1;
      assert ops[..n][1..] == ops[1..][..k];
      assert ops[n] == ops[1..][k];
      assert ApplyOps(m, ops[..n]).Passed?;
  }

  lemma {:induction false} StopRaises(m: Marker, ops: seq<VersionOp>, n: nat)
    requires StopsAt(m, ops, n)
    ensures ApplyOps(m, ops).Raised?
    decreases |ops|
  {
    if n == 0 {
      assert ops[..0] == [];
    } else {
      assert ops[..n][0] == ops[0] && ops[..n][1..] == ops[1..][..n - 1];
      StopRaises(ApplyOp(m, ops[0]).marker, ops[1..], n - 1);
    }
  }

  /** A transaction aborts exactly when it comes to write a version row that is not armed, or one whose
      key is taken. */
  lemma RaisesExactly(m: Marker, ops: seq<VersionOp>)
    ensures ApplyOps(m, ops).Raised? <==> Stops(m, ops)
  {
    if ApplyOps(m, ops).Raised? { var n := RaisedNotArmed(m, ops); }
    if n :| StopsAt(m, ops, n) { StopRaises(m, ops, n); }
  }

  /** The committed prefix ends at the list's end or right before the first transaction that writes a
      version row apply may not pass. A transaction that aborts gives its armings back: the marker state
      is the prefix's alone. */
  lemma {:induction false} PrefixStopsAtStall(m: Marker, txs: seq<seq<VersionOp>>)
    ensures var p := ApplyPrefix(m, txs);
      && p.count <= |txs|
      && (p.count < |txs| ==> Stops(p.marker, txs[p.count]))
      && (forall i :: 0 <= i < p.count ==>
            ApplyPrefix(m, txs[..i]).count == i && !Stops(ApplyPrefix(m, txs[..i]).marker, txs[i]))
      && ApplyPrefix(m, txs[..p.count]) == p
    decreases |txs|
  {
    var p := ApplyPrefix(m, txs);
    if txs != [] {
      RaisesExactly(m, txs[0]);
      assert txs[..0] == [];
      if ApplyOps(m, txs[0]).Passed? {
        var m', rest := ApplyOps(m, txs[0]).marker, txs[1..];
        PrefixStopsAtStall(m', rest);
        forall i | 0 < i <= p.count ensures txs[..i][1..] == rest[..i - 1] {}
        forall i | 0 < i < p.count
          ensures ApplyPrefix(m, txs[..i]).count == i && !Stops(ApplyPrefix(m, txs[..i]).marker, txs[i])
        {
          assert rest[i - 1] == txs[i] && ApplyPrefix(m', rest[..i - 1]).count == i - 1;
          assert ApplyPrefix(m, txs[..i]).marker == ApplyPrefix(m', rest[..i - 1]).marker;
        }
      }
    }
  }

  // ---------------------------------------------------------------- re-applying after the undo

  /** The undo on the version tables: delete the rows the replay inserted and arm them. */
  function UndoVersions(m: Marker, stamped: set<VersionRow>): Marker {
    Marker(m.rows - stamped, m.armed + stamped)
  }

  /** Each version is inserted at most once. */
  ghost predicate Once(ops: seq<VersionOp>) {
    forall i, j :: 0 <= i < j < |ops| && ops[i].Stamp? && ops[j].Stamp? ==> ops[i].row != ops[j].row
  }

  /** The rows the inserts and deletes alone leave. */
  function LeftBy(rows: set<VersionRow>, op: VersionOp): set<VersionRow> {
    match op
    case Stamp(v) => rows + {v}
    case Restamp(_, _) => rows
    case Unstamp(v) => rows - {v}
  }

  function RowsLeft(rows: set<VersionRow>, ops: seq<VersionOp>): set<VersionRow>
    decreases |ops|
  {
    if ops == [] then rows else RowsLeft(LeftBy(rows, ops[0]), ops[1..])
  }

  /** Update `n` finds its old row: the transaction inserted it last, or the table had it, and no delete
      took it away since. */
  ghost predicate Finds(rows: set<VersionRow>, ops: seq<VersionOp>, n: nat)
    requires n < |ops| && ops[n].Restamp?
  {
    ops[n].was in RowsLeft(rows, ops[..n])
  }

  /** No update of the transaction finds a row to update. */
  ghost predicate AllSkipped(rows: set<VersionRow>, ops: seq<VersionOp>) {
    forall n :: 0 <= n < |ops| && ops[n].Restamp? ==> !Finds(rows, ops, n)
  }

  lemma StampedTail(ops: seq<VersionOp>)
    requires ops != []
    ensures Stamped(ops) == (if ops[0].Stamp? then {ops[0].row} else {}) + Stamped(ops[1..])
  {
    var rest := ops[1..];
    assert forall i :: 0 <= i < |rest| ==> rest[i] == ops[i + 1];
    forall v ensures v in Stamped(ops) <==> v in (if ops[0].Stamp? then {ops[0].row} else {}) + Stamped(rest) {
      if v in Stamped(ops) {
        assert Stamp(v) == ops[0] || Stamp(v) in rest;
      }
    }
  }

  lemma StampedAt(ops: seq<VersionOp>, v: VersionRow)
    ensures v in Stamped(ops) <==> exists i :: 0 <= i < |ops| && ops[i] == Stamp(v)
  {
    if i :| 0 <= i < |ops| && ops[i] == Stamp(v) { assert ops[i] in ops; }
  }

  lemma OnceTail(ops: seq<VersionOp>)
    requires ops != []
    ensures Once(ops) <==> Once(ops[1..]) && (ops[0].Stamp? ==> ops[0].row !in Stamped(ops[1..]))
  {
    var rest := ops[1..];
    assert forall i :: 0 <= i < |rest| ==> rest[i] == ops[i + 1];
    if ops[0].Stamp? { StampedAt(rest, ops[0].row); }
  }

  lemma SkippedTail(rows: set<VersionRow>, ops: seq<VersionOp>)
    requires ops != []
    ensures AllSkipped(rows, ops) <==>
      (ops[0].Restamp? ==> ops[0].was !in rows) && AllSkipped(LeftBy(rows, ops[0]), ops[1..])
  {
    var rest, rows' := ops[1..], LeftBy(rows, ops[0]);
    assert ops[..0] == [];
    forall n | 0 <= n < |rest| && rest[n].Restamp? ensures Finds(rows', rest, n) <==> Finds(rows, ops, n + 1) {
      assert ops[..n + 1][0] == ops[0] && ops[..n + 1][1..] == rest[..n];
    }
    if AllSkipped(rows', rest) && (ops[0].Restamp? ==> ops[0].was !in rows) {
      forall n | 0 <= n < |ops| && ops[n].Restamp? ensures !Finds(rows, ops, n) {
        if n > 0 { assert rest[n - 1] == ops[n] && !Finds(rows', rest, n - 1); }
      }
    }
  }

  /** An insert of an unarmed version stops the transaction, wherever it stands. */
  lemma {:induction false} UnarmedInsertRaises(m: Marker, ops: seq<VersionOp>, v: VersionRow)
    requires v !in m.armed && v in Stamped(ops)
    ensures ApplyOps(m, ops).Raised?
    decreases |ops|
  {
    StampedTail(ops);
    if ApplyOp(m, ops[0]).Passed? { UnarmedInsertRaises(ApplyOp(m, ops[0]).marker, ops[1..], v); }
  }

  /** Which transactions pass the marker. For every list of inserts, updates and deletes whose inserted
      versions are absent and whose updated-to versions are not armed: it passes if and only if each
      inserted version is armed, none is inserted twice, and none of its updates finds a row; and then it
      leaves what its inserts and deletes alone leave, and has used up the armings of what it inserted. */
  lemma {:induction false} PassesExactly(m: Marker, ops: seq<VersionOp>)
    requires Stamped(ops) !! m.rows
    requires forall i :: 0 <= i < |ops| && ops[i].Restamp? ==> ops[i].row !in m.armed
    ensures var o := ApplyOps(m, ops);
      && (o.Passed? <==> Stamped(ops) <= m.armed && Once(ops) && AllSkipped(m.rows, ops))
      && (o.Passed? ==> o.marker == Marker(RowsLeft(m.rows, ops), m.armed - Stamped(ops)))
    decreases |ops|
  {
    if ops == [] {
      assert Stamped(ops) == {} && m.armed - {} == m.armed;
    } else {
      var rest := ops[1..];
      StampedTail(ops);
      OnceTail(ops);
      SkippedTail(m.rows, ops);
      assert forall i :: 0 <= i < |rest| ==> rest[i] == ops[i + 1];
      match ops[0]
      case Stamp(v) =>
        if v in m.armed {
          var m' := Marker(m.rows + {v}, m.armed - {v});
          if v in Stamped(rest) {
            UnarmedInsertRaises(m', rest, v);
          } else {
            PassesExactly(m', rest);
            assert m'.armed - Stamped(rest) == m.armed - Stamped(ops);
          }
        }
      case Restamp(was, _) =>
        if was !in m.rows { PassesExactly(m, rest); }
      case Unstamp(v) =>
        PassesExactly(Marker(m.rows - {v}, m.armed), rest);
    }
  }

  /** After a replay that left `rows` and the undo of its inserted version rows, the publisher's copy of
      the same operations passes the marker if and only if it inserts no version twice and no update among
      them finds its row: neither one the replay left behind and the undo kept, nor one the transaction
      inserts itself. */
  lemma ReappliesExactly(rows: set<VersionRow>, armed: set<VersionRow>, ops: seq<VersionOp>)
    requires forall i :: 0 <= i < |ops| && ops[i].Restamp? ==> ops[i].row !in armed + Stamped(ops)
    ensures var m := UndoVersions(Marker(rows, armed), Stamped(ops));
      var o := ApplyOps(m, ops);
      && (o.Passed? <==> Once(ops) && AllSkipped(rows - Stamped(ops), ops))
      && (o.Passed? ==> o.marker == Marker(RowsLeft(rows - Stamped(ops), ops), armed - Stamped(ops)))
  {
    var m := UndoVersions(Marker(rows, armed), Stamped(ops));
    PassesExactly(m, ops);
    assert m.armed - Stamped(ops) == armed - Stamped(ops);
  }

  // ---------------------------------------------------------------- what a pass leaves

  /** A row that is not inserted stays exactly when it is not deleted. */
  lemma {:induction false} KeptLeft(rows: set<VersionRow>, ops: seq<VersionOp>, v: VersionRow)
    requires v !in Stamped(ops)
    ensures v in RowsLeft(rows, ops) <==> v in rows && Unstamp(v) !in ops
    decreases |ops|
  {
    if ops != [] {
      StampedTail(ops);
      assert Unstamp(v) in ops <==> Unstamp(v) == ops[0] || Unstamp(v) in ops[1..];
      KeptLeft(LeftBy(rows, ops[0]), ops[1..], v);
    }
  }

  /** No update writes the version. */
  ghost predicate NoTarget(ops: seq<VersionOp>, v: VersionRow) {
    forall i :: 0 <= i < |ops| && ops[i].Restamp? ==> ops[i].row != v
  }

  lemma TailFacts(rows: set<VersionRow>, ops: seq<VersionOp>, v: VersionRow)
    requires ops != [] && AllSkipped(rows, ops) && NoTarget(ops, v)
    ensures AllSkipped(LeftBy(rows, ops[0]), ops[1..]) && NoTarget(ops[1..], v)
    ensures (ops[0].Restamp? ==> ops[0].was !in rows && ops[0].row != v)
  {
    SkippedTail(rows, ops);
    assert forall i :: 0 <= i < |ops[1..]| ==> ops[1..][i] == ops[i + 1];
  }

  /** Past its insert a version's row has the same fate on both sides. */
  lemma {:induction false} SameFate(rows: set<VersionRow>, theirs: set<VersionRow>, ops: seq<VersionOp>, v: VersionRow)
    requires AllSkipped(rows, ops) && NoTarget(ops, v) && v !in Stamped(ops) && (v in rows <==> v in theirs)
    ensures v in RowsLeft(rows, ops) <==> v in Migrate(theirs, ops)
    decreases |ops|
  {
    if ops != [] {
      TailFacts(rows, ops, v);
      StampedTail(ops);
      assert v in LeftBy(rows, ops[0]) <==> v in MigrateBy(theirs, ops[0]);
      SameFate(LeftBy(rows, ops[0]), MigrateBy(theirs, ops[0]), ops[1..], v);
    }
  }

  lemma {:induction false} InsertedFate(rows: set<VersionRow>, theirs: set<VersionRow>, ops: seq<VersionOp>, v: VersionRow)
    requires AllSkipped(rows, ops) && NoTarget(ops, v) && Once(ops) && v in Stamped(ops)
    ensures v in RowsLeft(rows, ops) <==> v in Migrate(theirs, ops)
    decreases |ops|
  {
    TailFacts(rows, ops, v);
    StampedTail(ops);
    OnceTail(ops);
    var rows', theirs' := LeftBy(rows, ops[0]), MigrateBy(theirs, ops[0]);
    if ops[0] == Stamp(v) {
      assert v in rows' && v in theirs';
      SameFate(rows', theirs', ops[1..], v);
    } else {
      InsertedFate(rows', theirs', ops[1..], v);
    }
  }

  /** A row the transaction keeps but does not insert is not one it deletes on the way. */
  ghost predicate NothingLost(rows: set<VersionRow>, ops: seq<VersionOp>) {
    forall v :: v in rows && v !in Stamped(ops) ==> Unstamp(v) !in ops
  }

  /** What the pass leaves: the replay's rows, if and only if no row the replay left without inserting it
      is one the transaction deletes. A transaction that deletes a version and then updates another row
      to it passes and silently loses that row. */
  lemma PassLeavesRows(rows: set<VersionRow>, armed: set<VersionRow>, before: set<VersionRow>, ops: seq<VersionOp>)
    requires forall i :: 0 <= i < |ops| && ops[i].Restamp? ==> ops[i].row !in armed + Stamped(ops)
    requires rows == Migrate(before, ops)
    ensures var o := ApplyOps(UndoVersions(Marker(rows, armed), Stamped(ops)), ops);
      o.Passed? ==> (o.marker.rows == rows <==> NothingLost(rows, ops))
  {
    ReappliesExactly(rows, armed, ops);
    if ApplyOps(UndoVersions(Marker(rows, armed), Stamped(ops)), ops).Passed? {
      LeftRows(rows, before, ops);
    }
  }

  lemma LeftRows(rows: set<VersionRow>, before: set<VersionRow>, ops: seq<VersionOp>)
    requires Once(ops) && AllSkipped(rows - Stamped(ops), ops) && rows == Migrate(before, ops)
    requires forall i :: 0 <= i < |ops| && ops[i].Restamp? ==> ops[i].row !in Stamped(ops)
    ensures RowsLeft(rows - Stamped(ops), ops) == rows <==> NothingLost(rows, ops)
  {
    var left := RowsLeft(rows - Stamped(ops), ops);
    forall v ensures if v in Stamped(ops) then v in left <==> v in rows else v in left <==> v in rows && Unstamp(v) !in ops {
      if v in Stamped(ops) {
        InsertedFate(rows - Stamped(ops), before, ops, v);
      } else {
        KeptLeft(rows - Stamped(ops), ops, v);
      }
    }
    if NothingLost(rows, ops) { assert forall v :: v in left <==> v in rows; }
  }

  // ---------------------------------------------------------------- the two lanes

  ghost predicate Chain(ops: seq<VersionOp>) {
    && (forall i :: 0 <= i < |ops| ==> ops[i].Restamp?)
    && (forall i :: 0 <= i < |ops| - 1 ==> ops[i].row == ops[i + 1].was)
  }

  lemma {:induction false} ChainMigrates(ops: seq<VersionOp>)
    requires Chain(ops) && ops != []
    ensures Migrate({ops[0].was}, ops) == {ops[|ops| - 1].row}
    decreases |ops|
  {
    var rows := {ops[0].was} - {ops[0].was} + {ops[0].row};
    assert rows == {ops[0].row};
    if |ops| == 1 {
      assert Migrate(rows, ops[1..]) == rows;
    } else {
      assert Chain(ops[1..]);
      ChainMigrates(ops[1..]);
    }
  }

  lemma {:induction false} UpdatesLeave(rows: set<VersionRow>, ops: seq<VersionOp>)
    requires forall i :: 0 <= i < |ops| ==> ops[i].Restamp?
    ensures RowsLeft(rows, ops) == rows
    decreases |ops|
  {
    if ops != [] { UpdatesLeave(rows, ops[1..]); }
  }

  /** The web lane: one upgrade run updates the single version row step by step. After the replay
      and its undo, apply carries the publisher's copy of the run past the marker exactly when the
      run does not return to the revision it ends at; a run that does stalls again. */
  lemma UpgradeRunReapplies(armed: set<VersionRow>, ops: seq<VersionOp>)
    requires Chain(ops) && ops != []
    requires forall i :: 0 <= i < |ops| ==> ops[i].row !in armed
    ensures var start := {ops[0].was}; var last := ops[|ops| - 1].row;
      var m := UndoVersions(Marker(Migrate(start, ops), armed), Stamped(ops));
      && m == Marker({last}, armed)
      && (ApplyOps(m, ops).Passed? <==> forall i :: 0 <= i < |ops| ==> ops[i].was != last)
      && (ApplyOps(m, ops).Passed? ==> ApplyOps(m, ops).marker == m)
  {
    ChainMigrates(ops);
    assert Stamped(ops) == {};
    var last := ops[|ops| - 1].row;
    ReappliesExactly({last}, armed, ops);
    forall i | 0 <= i <= |ops| ensures RowsLeft({last}, ops[..i]) == {last} { UpdatesLeave({last}, ops[..i]); }
    assert ops[..|ops|] == ops;
    forall i | 0 <= i < |ops| ensures Finds({last}, ops, i) <==> ops[i].was == last {}
    assert {last} - {} == {last} && armed + {} == armed && armed - {} == armed;
  }

  ghost predicate OnlyStamps(ops: seq<VersionOp>) { Once(ops) && forall i :: 0 <= i < |ops| ==> ops[i].Stamp? }

  lemma {:induction false} StampsMigrate(rows: set<VersionRow>, ops: seq<VersionOp>)
    requires OnlyStamps(ops)
    ensures Migrate(rows, ops) == rows + Stamped(ops) == RowsLeft(rows, ops)
    decreases |ops|
  {
    if ops == [] {
      assert rows + Stamped(ops) == rows;
    } else {
      StampedTail(ops);
      OnceTail(ops);
      StampsMigrate(rows + {ops[0].row}, ops[1..]);
      assert rows + {ops[0].row} + Stamped(ops[1..]) == rows + Stamped(ops);
    }
  }

  /** The coord lanes: a run that only inserts history rows is always let through once, and leaves
      the publisher's rows and no arming behind. */
  lemma HistoryRunReapplies(rows: set<VersionRow>, armed: set<VersionRow>, ops: seq<VersionOp>)
    requires OnlyStamps(ops)
    ensures var m := UndoVersions(Marker(Migrate(rows, ops), armed), Stamped(ops));
      var o := ApplyOps(m, ops);
      o.Passed? && o.marker == Marker(Migrate(rows, ops), armed - Stamped(ops))
  {
    var after := Migrate(rows, ops);
    StampsMigrate(rows, ops);
    StampsMigrate(after - Stamped(ops), ops);
    ReappliesExactly(after, armed, ops);
    assert after - Stamped(ops) + Stamped(ops) == after;
  }

  /** A run that inserts a version row and later updates that row in the same transaction stalls again:
      the undo arms the inserted version, and the update fires the marker for one that never was. */
  lemma StampThenRestampStalls(rows: set<VersionRow>, armed: set<VersionRow>, ops: seq<VersionOp>, i: nat, j: nat)
    requires i < j < |ops| && ops[i].Stamp? && ops[j].Restamp? && ops[j].was == ops[i].row
    requires forall n :: i < n < j ==> ops[n] != Unstamp(ops[i].row)
    requires forall n :: 0 <= n < |ops| && ops[n].Restamp? ==> ops[n].row !in armed + Stamped(ops)
    ensures ApplyOps(UndoVersions(Marker(rows, armed), Stamped(ops)), ops).Raised?
  {
    ReappliesExactly(rows, armed, ops);
    InsertedStays(rows - Stamped(ops), ops[..j], i, ops[i].row);
    assert Finds(rows - Stamped(ops), ops, j);
  }

  lemma {:induction false} InsertedStays(rows: set<VersionRow>, ops: seq<VersionOp>, i: nat, v: VersionRow)
    requires i < |ops| && ops[i] == Stamp(v) && forall n :: i < n < |ops| ==> ops[n] != Unstamp(v)
    ensures v in RowsLeft(rows, ops)
    decreases |ops|
  {
    var rest := ops[1..];
    assert forall n :: 0 <= n < |rest| ==> rest[n] == ops[n + 1];
    if i == 0 { StaysLeft(rows + {v}, rest, v); } else { InsertedStays(LeftBy(rows, ops[0]), rest, i - 1, v); }
  }

  lemma {:induction false} StaysLeft(rows: set<VersionRow>, ops: seq<VersionOp>, v: VersionRow)
    requires v in rows && forall n :: 0 <= n < |ops| ==> ops[n] != Unstamp(v)
    ensures v in RowsLeft(rows, ops)
    decreases |ops|
  {
    if ops != [] {
      assert forall n :: 0 <= n < |ops[1..]| ==> ops[1..][n] == ops[n + 1];
      StaysLeft(LeftBy(rows, ops[0]), ops[1..], v);
    }
  }

  // ---------------------------------------------------------------- the publisher's version rows

  /** What the database that executes the statement checks. */
  predicate ValidOp(rows: set<VersionRow>, op: VersionOp) {
    match op
    case Stamp(v) => v !in rows
    case Restamp(was, v) => was in rows && (v == was || v !in rows)
    case Unstamp(v) => v in rows
  }

  predicate ValidOps(rows: set<VersionRow>, ops: seq<VersionOp>)
    decreases |ops|
  {
    ops == [] || (ValidOp(rows, ops[0]) && ValidOps(MigrateBy(rows, ops[0]), ops[1..]))
  }

  /** Where apply starts from the publisher's own version rows and the transaction passes, it ends with
      the publisher's, and uses up armings only. */
  lemma {:induction false} PassedIsMigrated(m: Marker, ops: seq<VersionOp>)
    requires ValidOps(m.rows, ops) && ApplyOps(m, ops).Passed?
    ensures var o := ApplyOps(m, ops).marker; o.rows == Migrate(m.rows, ops) && o.armed <= m.armed
    decreases |ops|
  {
    if ops != [] {
      PassedIsMigrated(ApplyOp(m, ops[0]).marker, ops[1..]);
    }
  }

  /** From there a transaction that writes any version row is stopped, unless one of the versions it
      writes is armed. */
  lemma {:induction false} UnarmedStops(m: Marker, ops: seq<VersionOp>)
    requires ValidOps(m.rows, ops)
    requires exists i :: 0 <= i < |ops| && !ops[i].Unstamp?
    requires forall i :: 0 <= i < |ops| && !ops[i].Unstamp? ==> ops[i].row !in m.armed
    ensures ApplyOps(m, ops).Raised?
    decreases |ops|
  {
    if ops[0].Unstamp? {
      var i :| 0 <= i < |ops| && !ops[i].Unstamp?;
      assert ops[1..][i - 1] == ops[i];
      assert forall i :: 0 <= i < |ops[1..]| ==> ops[1..][i] == ops[i + 1];
      UnarmedStops(ApplyOp(m, ops[0]).marker, ops[1..]);
    }
  }
}
