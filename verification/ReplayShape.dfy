/** The replay checks (`_check_replay_shape`, `_check_rewrites`) and `resolve`, which carries an
    operator's decision past one of them. Everything here is at step `undo`: the migration has run
    and the catalog no longer moves. */
module ReplayShape {
  import opened UndoApply

  /** What a halt asks the operator to decide about: a relation's printed name, the bare number
      regclass prints for an OID that no longer exists, or a column of a table. */
  datatype Target = Relation(name: string) | Dead(oid: nat) | Column(table: string, column: string)

  datatype Case = RenameCase | KeyCase | RewriteCase | ValueCase

  datatype Resolution = Resolution(kase: Case, target: Target)

  /** A column the migration added with a stored default; `remote` is the publisher's stored value,
      None when it cannot be read there. */
  datatype StoredDefault = StoredDefault(relid: nat, column: string, local: string, remote: Readable)
  datatype Readable = Value(text: string) | Unreadable

  /** The subscriber's catalog after the replay. */
  datatype Catalog = Catalog(
    names: map<nat, string>,          // every live relation, by OID
    visible: set<nat>,                // those in the follower's schemas
    ancestors: map<nat, set<nat>>,    // pg_partition_ancestors, the relation included
    gained: set<nat>,                 // tables with a column newer than the replay's start
    added: set<StoredDefault>)

  datatype Shape = Shape(scope: map<nat, string>, catalog: Catalog, log: seq<LogEntry>, resolutions: set<Resolution>)

  datatype Verdict = Pass | HaltOn(kase: Case, targets: set<Target>)

  /** Relation names are unique, and partition ancestry is about live relations. */
  ghost predicate WellFormed(c: Catalog) {
    && (forall a, b :: a in c.names && b in c.names && c.names[a] == c.names[b] ==> a == b)
    && c.visible <= c.names.Keys
    && c.ancestors.Keys <= c.names.Keys
    && (forall o :: o in c.ancestors ==> c.ancestors[o] <= c.names.Keys)
  }

  // ---------------------------------------------------------------- partitions and names

  function Ancestors(c: Catalog, oid: nat): set<nat> { if oid in c.ancestors then c.ancestors[oid] else {} }

  predicate IsLowest(s: set<nat>, m: nat) { m in s && forall x :: x in s ==> m <= x }

  lemma {:induction false} LowestExists(s: set<nat>)
    requires s != {}
    ensures exists m :: IsLowest(s, m)
  {
    var y :| y in s;
    var t := s - {y};
    assert forall x :: x in s ==> x == y || x in t;
    if t == {} {
      assert IsLowest(s, y);
    } else {
      LowestExists(t);
      var m :| IsLowest(t, m);
      var least := if m <= y then m else y;
      assert IsLowest(s, least);
    }
  }

  function Lowest(s: set<nat>): nat
    requires s != {}
  {
    LowestExists(s);
    var m :| IsLowest(s, m);
    m
  }

  /** The table a rewrite is resolved through: the ancestor with the lowest OID, or itself. */
  function Root(c: Catalog, oid: nat): nat {
    var up := Ancestors(c, oid) - {oid};
    if up == {} then oid else Lowest(up)
  }

  /** relid = oid OR relid IN pg_partition_tree(oid). */
  predicate InTree(c: Catalog, relid: nat, oid: nat) { relid == oid || oid in Ancestors(c, relid) }

  function Printed(c: Catalog, oid: nat): Target {
    if oid in c.names then Relation(c.names[oid]) else Dead(oid)
  }

  // ---------------------------------------------------------------- the checks

  function Renames(s: Shape): set<Target> {
    set o | o in s.scope && o in s.catalog.visible && o in s.catalog.names && s.catalog.names[o] != s.scope[o]
      && Resolution(RenameCase, Relation(s.catalog.names[o])) !in s.resolutions
      :: Relation(s.catalog.names[o])
  }

  function KeyChanges(s: Shape): set<Target> {
    set e | e in s.log && e.KeyChange? :: Printed(s.catalog, e.key.relid)
  }

  predicate TouchedBefore(c: Catalog, oid: nat, touched: set<nat>) {
    oid in touched || Ancestors(c, oid) * touched != {}
  }

  /** Bit 1 of a rewrite's reason: it filled a volatile default. */
  predicate Volatile(reason: nat) { (reason / 2) % 2 == 1 }

  predicate UnsafeRewrite(s: Shape, oid: nat, reason: nat, touched: set<nat>) {
    oid in s.scope && (TouchedBefore(s.catalog, oid, touched) || Volatile(reason) || oid in s.catalog.gained)
  }

  /** The rewritten tables `_check_rewrites` refuses, reading the log in order; `touched` holds the
      tables changed so far. */
  function Unsafe(s: Shape, log: seq<LogEntry>, touched: set<nat>): set<nat> {
    if log == [] then {} else
    match log[0]
    case Touch(t) => Unsafe(s, log[1..], touched + {t})
    case Rewritten(o, reason) =>
      (if UnsafeRewrite(s, o, reason, touched) then {o} else {}) + Unsafe(s, log[1..], touched)
    case _ => Unsafe(s, log[1..], touched)
  }

  function Rewrites(s: Shape): set<Target> {
    set o | o in Unsafe(s, s.log, {}) :: Printed(s.catalog, Root(s.catalog, o))
  }

  function TableName(s: Shape, oid: nat): string {
    if oid in s.catalog.visible && oid in s.catalog.names then s.catalog.names[oid]
    else if oid in s.scope then s.scope[oid] else ""
  }

  function Values(s: Shape): set<Target> {
    set d | d in s.catalog.added && d.remote != Value(d.local)
      && Resolution(ValueCase, Column(TableName(s, d.relid), d.column)) !in s.resolutions
      :: Column(TableName(s, d.relid), d.column)
  }

  function Targets(s: Shape, kase: Case): set<Target> {
    match kase
    case RenameCase => Renames(s)
    case KeyCase => KeyChanges(s)
    case RewriteCase => Rewrites(s)
    case ValueCase => Values(s)
  }

  function Order(kase: Case): nat {
    match kase case RenameCase => 0 case KeyCase => 1 case RewriteCase => 2 case ValueCase => 3
  }

  /** `_check_replay_shape`: the first case with a target halts. */
  function Check(s: Shape): Verdict {
    if Renames(s) != {} then HaltOn(RenameCase, Renames(s))
    else if KeyChanges(s) != {} then HaltOn(KeyCase, KeyChanges(s))
    else if Rewrites(s) != {} then HaltOn(RewriteCase, Rewrites(s))
    else if Values(s) != {} then HaltOn(ValueCase, Values(s))
    else Pass
  }

  /** Everything still unresolved. */
  function Issues(s: Shape): set<Resolution> {
    (set t | t in Renames(s) :: Resolution(RenameCase, t)) + (set t | t in KeyChanges(s) :: Resolution(KeyCase, t))
    + (set t | t in Rewrites(s) :: Resolution(RewriteCase, t)) + (set t | t in Values(s) :: Resolution(ValueCase, t))
  }

  // ---------------------------------------------------------------- resolve

  /** The log rows a resolution deletes: key changes, or touches and rewrites, in the table's tree. */
  predicate Dropped(c: Catalog, kase: Case, oid: nat, e: LogEntry) {
    match e
    case KeyChange(_, k) => kase == KeyCase && InTree(c, k.relid, oid)
    case Touch(t) => kase == RewriteCase && InTree(c, t, oid)
    case Rewritten(t, _) => kase == RewriteCase && InTree(c, t, oid)
    case _ => false
  }

  function DropLog(c: Catalog, kase: Case, oid: nat, log: seq<LogEntry>): (r: seq<LogEntry>)
    ensures forall e :: e in r <==> e in log && !Dropped(c, kase, oid, e)
  {
    if log == [] then []
    else (if Dropped(c, kase, oid, log[0]) then [] else [log[0]]) + DropLog(c, kase, oid, log[1..])
  }

  /** Only rewrite and key-change targets are looked up in the live catalog; the lookup fails for
      an OID that no longer exists. */
  predicate Resolvable(c: Catalog, r: Resolution) {
    (r.kase == RewriteCase || r.kase == KeyCase) ==> r.target.Relation? && r.target.name in c.names.Values
  }

  ghost function OidOf(c: Catalog, name: string): nat
    requires name in c.names.Values
  {
    var o :| o in c.names && c.names[o] == name;
    o
  }

  ghost function Resolve(s: Shape, r: Resolution): Shape
    requires Resolvable(s.catalog, r)
  {
    var s' := s.(resolutions := s.resolutions + {r});
    if r.kase == RewriteCase || r.kase == KeyCase then
      s'.(log := DropLog(s.catalog, r.kase, OidOf(s.catalog, r.target.name), s.log))
    else s'
  }

  // ---------------------------------------------------------------- resolving makes progress

  lemma {:induction false} UnsafeShrinks(s: Shape, s': Shape, kase: Case, oid: nat, log: seq<LogEntry>,
                                         touched: set<nat>, touched': set<nat>)
    requires touched' <= touched && s'.scope == s.scope && s'.catalog == s.catalog
    ensures Unsafe(s', DropLog(s.catalog, kase, oid, log), touched') <= Unsafe(s, log, touched)
    ensures kase == RewriteCase ==>
      forall o :: o in Unsafe(s', DropLog(s.catalog, kase, oid, log), touched') ==> !InTree(s.catalog, o, oid)
    ensures kase != RewriteCase && touched' == touched ==>
      Unsafe(s', DropLog(s.catalog, kase, oid, log), touched') == Unsafe(s, log, touched)
    decreases |log|
  {
    if log != [] {
      var rest := DropLog(s.catalog, kase, oid, log[1..]);
      var dropped := Dropped(s.catalog, kase, oid, log[0]);
      assert !dropped ==> ([log[0]] + rest)[1..] == rest;
      assert dropped ==> [] + rest == rest;
      match log[0]
      case Touch(t) =>
        UnsafeShrinks(s, s', kase, oid, log[1..], touched + {t}, if dropped then touched' else touched' + {t});
      case Rewritten(o, reason) =>
        UnsafeShrinks(s, s', kase, oid, log[1..], touched, touched');
        assert TouchedBefore(s.catalog, o, touched') ==> TouchedBefore(s.catalog, o, touched);
      case _ =>
        UnsafeShrinks(s, s', kase, oid, log[1..], touched, touched');
    }
  }

  lemma PrintedIsInjective(c: Catalog, a: nat, b: nat)
    requires WellFormed(c) && Printed(c, a) == Printed(c, b)
    ensures a == b
  {
  }

  lemma TreeOfRoot(c: Catalog, o: nat)
    requires WellFormed(c)
    ensures InTree(c, o, Root(c, o))
    ensures o !in c.names ==> Root(c, o) == o
    ensures o in c.names ==> Root(c, o) in c.names
  {
  }

  /** One resolution: it settles its own target, leaves every other case alone, and never raises a
      new target. */
  lemma ResolveProgresses(s: Shape, r: Resolution)
    requires WellFormed(s.catalog) && Resolvable(s.catalog, r)
    ensures forall k :: Targets(Resolve(s, r), k) <= Targets(s, k)
    ensures forall k :: k != r.kase ==> Targets(Resolve(s, r), k) == Targets(s, k)
    ensures r.target !in Targets(Resolve(s, r), r.kase)
  {
    var s' := Resolve(s, r);
    assert Renames(s') <= Renames(s) && Values(s') <= Values(s);
    assert r.kase != RenameCase ==> Renames(s') == Renames(s);
    assert r.kase != ValueCase ==> Values(s') == Values(s);
    if r.kase == RewriteCase || r.kase == KeyCase {
      var oid := OidOf(s.catalog, r.target.name);
      assert Printed(s.catalog, oid) == r.target;
      UnsafeShrinks(s, s', r.kase, oid, s.log, {}, {});
      assert Rewrites(s') <= Rewrites(s) && KeyChanges(s') <= KeyChanges(s);
      if r.kase == KeyCase {
        if r.target in KeyChanges(s') {
          var e :| e in s'.log && e.KeyChange? && Printed(s.catalog, e.key.relid) == r.target;
          PrintedIsInjective(s.catalog, e.key.relid, oid);
          assert Dropped(s.catalog, r.kase, oid, e);
        }
        assert Rewrites(s') == Rewrites(s);
      } else {
        if r.target in Rewrites(s') {
          var o :| o in Unsafe(s', s'.log, {}) && Printed(s.catalog, Root(s.catalog, o)) == r.target;
          PrintedIsInjective(s.catalog, Root(s.catalog, o), oid);
          TreeOfRoot(s.catalog, o);
        }
        assert KeyChanges(s') == KeyChanges(s) by {
          forall e | e in s.log && e.KeyChange? ensures e in s'.log {}
        }
      }
    } else {
      UnsafeSame(s, s', s.log, {});
      assert Rewrites(s') == Rewrites(s) && KeyChanges(s') == KeyChanges(s);
    }
  }

  lemma {:induction false} UnsafeSame(s: Shape, s': Shape, log: seq<LogEntry>, touched: set<nat>)
    requires s'.scope == s.scope && s'.catalog == s.catalog
    ensures Unsafe(s', log, touched) == Unsafe(s, log, touched)
    decreases |log|
  {
    if log != [] {
      match log[0]
      case Touch(t) => UnsafeSame(s, s', log[1..], touched + {t});
      case _ => UnsafeSame(s, s', log[1..], touched);
    }
  }

  lemma IssueIffTarget(s: Shape, r: Resolution)
    ensures r in Issues(s) <==> r.target in Targets(s, r.kase)
  {
  }

  /** An issue's resolution shrinks the set of issues strictly; any resolution never grows it. */
  lemma IssuesShrink(s: Shape, r: Resolution)
    requires WellFormed(s.catalog) && Resolvable(s.catalog, r)
    ensures Issues(Resolve(s, r)) <= Issues(s) - {r}
    ensures r in Issues(s) ==> Issues(Resolve(s, r)) < Issues(s)
  {
    ResolveProgresses(s, r);
    forall q | q in Issues(Resolve(s, r)) ensures q in Issues(s) && q != r {
      IssueIffTarget(Resolve(s, r), q);
      IssueIffTarget(s, q);
    }
    IssueIffTarget(s, r);
  }

  // ---------------------------------------------------------------- whole sessions

  /** The operator's resolve commands, one after another. */
  ghost predicate AllResolvable(c: Catalog, rs: seq<Resolution>) { forall r :: r in rs ==> Resolvable(c, r) }

  ghost function ResolveAll(s: Shape, rs: seq<Resolution>): Shape
    requires AllResolvable(s.catalog, rs)
    decreases |rs|
  {
    if rs == [] then s else ResolveAll(Resolve(s, rs[0]), rs[1..])
  }

  lemma {:induction false} ResolveAllProgresses(s: Shape, rs: seq<Resolution>)
    requires WellFormed(s.catalog) && AllResolvable(s.catalog, rs)
    ensures ResolveAll(s, rs).catalog == s.catalog
    ensures forall k :: Targets(ResolveAll(s, rs), k) <= Targets(s, k)
    ensures forall r :: r in rs ==> r.target !in Targets(ResolveAll(s, rs), r.kase)
    decreases |rs|
  {
    if rs != [] {
      ResolveProgresses(s, rs[0]);
      ResolveAllProgresses(Resolve(s, rs[0]), rs[1..]);
      forall r | r in rs ensures r.target !in Targets(ResolveAll(s, rs), r.kase) {
        assert r == rs[0] || r in rs[1..];
      }
    }
  }

  /** One halt is carried through by resolving every target it named, in any order and with any
      repetitions: the next check passes or halts on a later case. So four halts are the most one
      migration can raise here. */
  lemma HaltsMoveForward(s: Shape, rs: seq<Resolution>)
    requires WellFormed(s.catalog) && AllResolvable(s.catalog, rs) && Check(s).HaltOn?
    requires forall t :: t in Check(s).targets ==> Resolution(Check(s).kase, t) in rs
    ensures var v := Check(ResolveAll(s, rs)); v.Pass? || Order(v.kase) > Order(Check(s).kase)
  {
    ResolveAllProgresses(s, rs);
    var s', k := ResolveAll(s, rs), Check(s).kase;
    CheckReadsTargets(s);
    CheckReadsTargets(s');
    forall t ensures t !in Targets(s', k) {
      if t in Targets(s, k) { assert Resolution(k, t) in rs; }
    }
    assert Targets(s', k) == {};
    forall j: Case | Order(j) < Order(k) ensures Targets(s', j) == {} {
      assert Targets(s', j) <= Targets(s, j);
    }
  }

  lemma CheckReadsTargets(s: Shape)
    ensures Check(s).Pass? ==> forall k :: Targets(s, k) == {}
    ensures var v := Check(s); v.HaltOn? ==>
      v.targets == Targets(s, v.kase) != {} && forall k :: Order(k) < Order(v.kase) ==> Targets(s, k) == {}
  {
  }

  /** The check passes exactly when nothing is unresolved. */
  lemma PassesWhenSettled(s: Shape)
    ensures Check(s).Pass? <==> Issues(s) == {}
  {
    forall k: Case, t | t in Targets(s, k) ensures Resolution(k, t) in Issues(s) {
      IssueIffTarget(s, Resolution(k, t));
    }
    assert Targets(s, RenameCase) == Renames(s) && Targets(s, KeyCase) == KeyChanges(s);
    assert Targets(s, RewriteCase) == Rewrites(s) && Targets(s, ValueCase) == Values(s);
    if Issues(s) != {} {
      var r :| r in Issues(s);
      IssueIffTarget(s, r);
    }
    if Check(s).HaltOn? {
      var t :| t in Check(s).targets;
      assert Resolution(Check(s).kase, t) in Issues(s);
    }
  }

  /** An issue about a relation that the same migration dropped again names no live table. */
  predicate Stuck(r: Resolution) { r.target.Dead? }

  /** Nothing an operator resolves removes such an issue. */
  lemma DeadIssueStays(s: Shape, r: Resolution, q: Resolution)
    requires WellFormed(s.catalog) && Resolvable(s.catalog, r) && q in Issues(s) && Stuck(q)
    ensures q in Issues(Resolve(s, r))
  {
    var s' := Resolve(s, r);
    IssueIffTarget(s, q);
    ResolveProgresses(s, r);
    if q.kase == r.kase && (r.kase == KeyCase || r.kase == RewriteCase) {
      var oid := OidOf(s.catalog, r.target.name);
      if r.kase == KeyCase {
        var e :| e in s.log && e.KeyChange? && Printed(s.catalog, e.key.relid) == q.target;
        assert !Dropped(s.catalog, KeyCase, oid, e);
        assert e in s'.log;
        assert q.target in KeyChanges(s');
      } else {
        var o :| o in Unsafe(s, s.log, {}) && Printed(s.catalog, Root(s.catalog, o)) == q.target;
        TreeOfRoot(s.catalog, o);
        UnsafeDeadStays(s, s', oid, s.log, {}, {}, o);
        assert q.target in Rewrites(s');
      }
    }
    IssueIffTarget(s', q);
  }

  lemma {:induction false} UnsafeDeadStays(s: Shape, s': Shape, oid: nat, log: seq<LogEntry>,
                                           touched: set<nat>, touched': set<nat>, o: nat)
    requires WellFormed(s.catalog) && oid in s.catalog.names && o !in s.catalog.names
    requires s'.scope == s.scope && s'.catalog == s.catalog
    requires o in Unsafe(s, log, touched) && (o in touched ==> o in touched')
    ensures o in Unsafe(s', DropLog(s.catalog, RewriteCase, oid, log), touched')
    decreases |log|
  {
    var rest := DropLog(s.catalog, RewriteCase, oid, log[1..]);
    var dropped := Dropped(s.catalog, RewriteCase, oid, log[0]);
    assert !dropped ==> ([log[0]] + rest)[1..] == rest;
    assert dropped ==> [] + rest == rest;
    assert Ancestors(s.catalog, o) == {} && !InTree(s.catalog, o, oid);
    match log[0]
    case Touch(t) =>
      UnsafeDeadStays(s, s', oid, log[1..], touched + {t}, if dropped then touched' else touched' + {t}, o);
    case Rewritten(p, reason) =>
      if p != o || !UnsafeRewrite(s, o, reason, touched) {
        UnsafeDeadStays(s, s', oid, log[1..], touched, touched', o);
      }
    case _ =>
      UnsafeDeadStays(s, s', oid, log[1..], touched, touched', o);
  }

  lemma {:induction false} DeadIssueOutlives(s: Shape, rs: seq<Resolution>, q: Resolution)
    requires WellFormed(s.catalog) && AllResolvable(s.catalog, rs) && q in Issues(s) && Stuck(q)
    ensures q in Issues(ResolveAll(s, rs))
    decreases |rs|
  {
    if rs != [] {
      DeadIssueStays(s, rs[0], q);
      DeadIssueOutlives(Resolve(s, rs[0]), rs[1..], q);
    }
  }

  /** A live issue's target can be looked up. */
  lemma LiveIssueResolvable(s: Shape, r: Resolution)
    requires WellFormed(s.catalog) && r in Issues(s)
    ensures Resolvable(s.catalog, r) <==> !Stuck(r)
  {
    IssueIffTarget(s, r);
    match r.kase
    case KeyCase =>
      var e :| e in s.log && e.KeyChange? && Printed(s.catalog, e.key.relid) == r.target;
    case RewriteCase =>
      var o :| o in Unsafe(s, s.log, {}) && Printed(s.catalog, Root(s.catalog, o)) == r.target;
    case _ =>
  }

  /** A run of halts: the operator resolves exactly the targets each halt named, in some order, and
      the check runs again. */
  ghost predicate CarriesThrough(s: Shape, halts: seq<seq<Resolution>>)
    decreases |halts|
  {
    if halts == [] then Check(s).Pass?
    else
      && Answers(Check(s), halts[0])
      && AllResolvable(s.catalog, halts[0])
      && CarriesThrough(ResolveAll(s, halts[0]), halts[1..])
  }

  ghost predicate Answers(v: Verdict, rs: seq<Resolution>) {
    v.HaltOn? && forall r :: r in rs <==> r.kase == v.kase && r.target in v.targets
  }

  lemma {:induction false} DeadIssueBlocks(s: Shape, q: Resolution, halts: seq<seq<Resolution>>)
    requires WellFormed(s.catalog) && q in Issues(s) && Stuck(q)
    ensures !CarriesThrough(s, halts)
    decreases |halts|
  {
    PassesWhenSettled(s);
    if halts != [] && AllResolvable(s.catalog, halts[0]) {
      ResolveAllProgresses(s, halts[0]);
      DeadIssueOutlives(s, halts[0], q);
      DeadIssueBlocks(ResolveAll(s, halts[0]), q, halts[1..]);
    }
  }

  lemma {:induction false} ListTargets(kase: Case, ts: set<Target>) returns (rs: seq<Resolution>)
    ensures forall r :: r in rs <==> r.kase == kase && r.target in ts
    ensures |rs| == |ts|
    decreases |ts|
  {
    if ts == {} {
      rs := [];
    } else {
      var t :| t in ts;
      rs := ListTargets(kase, ts - {t});
      rs := [Resolution(kase, t)] + rs;
    }
  }

  /** Any session: each halt's targets are all resolved, among whatever else the operator resolves,
      before the next check. */
  ghost predicate Session(s: Shape, halts: seq<seq<Resolution>>)
    decreases |halts|
  {
    halts == [] ||
      (Check(s).HaltOn? && AllResolvable(s.catalog, halts[0])
       && (forall t :: t in Check(s).targets ==> Resolution(Check(s).kase, t) in halts[0])
       && Session(ResolveAll(s, halts[0]), halts[1..]))
  }

  ghost function AfterSession(s: Shape, halts: seq<seq<Resolution>>): Shape
    requires Session(s, halts)
    decreases |halts|
  {
    if halts == [] then s else AfterSession(ResolveAll(s, halts[0]), halts[1..])
  }

  ghost predicate NoneStuck(s: Shape) { forall q :: q in Issues(s) ==> !Stuck(q) }

  lemma NoneGetsStuck(s: Shape, rs: seq<Resolution>)
    requires WellFormed(s.catalog) && AllResolvable(s.catalog, rs) && NoneStuck(s)
    ensures NoneStuck(ResolveAll(s, rs))
  {
    ResolveAllProgresses(s, rs);
    forall q | q in Issues(ResolveAll(s, rs)) ensures !Stuck(q) {
      IssueIffTarget(ResolveAll(s, rs), q);
      IssueIffTarget(s, q);
    }
  }

  /** Every session is short, whatever the operator resolves besides: at most one halt for each case from
      the first one's on. And where no issue is about a dropped relation it never ends stuck: the check
      passes, or its halt can be answered. */
  lemma {:induction false} EverySessionEnds(s: Shape, halts: seq<seq<Resolution>>)
    requires WellFormed(s.catalog) && Session(s, halts)
    ensures |halts| <= if Check(s).Pass? then 0 else 4 - Order(Check(s).kase)
    ensures NoneStuck(s) ==>
      var v := Check(AfterSession(s, halts));
      v.Pass? || exists rs :: Answers(v, rs) && AllResolvable(s.catalog, rs)
    decreases |halts|
  {
    if halts == [] {
      if Check(s).HaltOn? && NoneStuck(s) { var rs := AnswerHalt(s); }
    } else {
      var s' := ResolveAll(s, halts[0]);
      HaltsMoveForward(s, halts[0]);
      ResolveAllProgresses(s, halts[0]);
      if NoneStuck(s) { NoneGetsStuck(s, halts[0]); }
      EverySessionEnds(s', halts[1..]);
    }
  }

  lemma AnswerHalt(s: Shape) returns (rs: seq<Resolution>)
    requires WellFormed(s.catalog) && Check(s).HaltOn? && NoneStuck(s)
    ensures Answers(Check(s), rs) && AllResolvable(s.catalog, rs)
  {
    rs := ListTargets(Check(s).kase, Check(s).targets);
    CheckReadsTargets(s);
    forall r | r in rs ensures Resolvable(s.catalog, r) {
      IssueIffTarget(s, r);
      LiveIssueResolvable(s, r);
    }
  }

  lemma {:induction false} LiveIssuesCarryThrough(s: Shape) returns (halts: seq<seq<Resolution>>)
    requires WellFormed(s.catalog) && NoneStuck(s)
    ensures CarriesThrough(s, halts)
    ensures |halts| <= if Check(s).Pass? then 0 else 4 - Order(Check(s).kase)
    decreases if Check(s).Pass? then 0 else 4 - Order(Check(s).kase)
  {
    halts := [];
    if Check(s).HaltOn? {
      var rs := AnswerHalt(s);
      HaltsMoveForward(s, rs);
      ResolveAllProgresses(s, rs);
      NoneGetsStuck(s, rs);
      var rest := LiveIssuesCarryThrough(ResolveAll(s, rs));
      halts := [rs] + rest;
      assert halts[1..] == rest;
    }
  }

  /** Resolving gets the migration through the checks exactly when no issue is about a relation the
      migration itself dropped, and it then takes at most four halts. */
  lemma ResolvingTerminates(s: Shape)
    requires WellFormed(s.catalog)
    ensures NoneStuck(s) <==> exists halts :: CarriesThrough(s, halts) && |halts| <= 4
  {
    if q :| q in Issues(s) && Stuck(q) {
      forall halts ensures !CarriesThrough(s, halts) { DeadIssueBlocks(s, q, halts); }
    } else {
      var halts := LiveIssuesCarryThrough(s);
    }
  }

  /** Such a migration exists: it rewrites a table of the scope and then drops it, and no session of
      answered halts gets it through. */
  lemma RewriteThenDropIsStuck(name: string)
    ensures
      var c := Catalog(map[], {}, map[], {}, {});
      var s := Shape(map[7 := name], c, [Rewritten(7, 2)], {});
      && WellFormed(c) && Issues(s) == {Resolution(RewriteCase, Dead(7))} && Stuck(Resolution(RewriteCase, Dead(7)))
      && forall halts :: !CarriesThrough(s, halts)
  {
    var c := Catalog(map[], {}, map[], {}, {});
    var s := Shape(map[7 := name], c, [Rewritten(7, 2)], {});
    assert UnsafeRewrite(s, 7, 2, {});
    assert Unsafe(s, s.log[1..], {}) == {};
    assert Unsafe(s, s.log, {}) == {7};
    assert Rewrites(s) == {Dead(7)} by { assert Printed(c, Root(c, 7)) == Dead(7); }
    assert Renames(s) == {} && KeyChanges(s) == {} && Values(s) == {};
    forall halts ensures !CarriesThrough(s, halts) { DeadIssueBlocks(s, Resolution(RewriteCase, Dead(7)), halts); }
  }
}
