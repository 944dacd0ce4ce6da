/** The follower as a state machine. The state is what survives a crash: the rows of the follower
    schema, the subscription, the subscriber's tables and the position apply has reached. An event
    is one database transaction of one of the parties; a crash is simply that the next event is not
    the one the crashed process would have made. */
module Protocol {
  import opened Common
  import opened Tables
  import opened UndoApply
  import opened CopyAhead
  import opened ReplayShape
  import opened StallMarker
  import opened ChecksSuffice
  import opened Apart
  import opened WaivedChecks
  import R = Rewrites

  // ---------------------------------------------------------------- the publisher

  /** A publisher transaction: the statements it ran on the published tables, what it did to the version
      tables, and the version rows it left behind. Its position in commit order stands for its
      transaction id and its LSN alike. */
  datatype Tx = Tx(script: seq<R.Stmt>, versionOps: seq<VersionOp>, leaves: set<VersionRow>)

  datatype Publisher = Publisher(base: Table, versions: set<VersionRow>, txs: seq<Tx>)

  /** The row changes logical decoding hands out for a transaction. */
  function Changes(tx: Tx): seq<Change> { R.ChangesOf(tx.script) }

  /** The publisher's table after its first `n` transactions. */
  function At(pub: Publisher, n: nat): Table
    requires n <= |pub.txs|
  {
    if n == 0 then pub.base else R.Run(pub.txs[n - 1].script, At(pub, n - 1))
  }

  /** And its version tables. */
  function VersionsAt(pub: Publisher, n: nat): set<VersionRow>
    requires n <= |pub.txs|
  {
    if n == 0 then pub.versions else Migrate(VersionsAt(pub, n - 1), pub.txs[n - 1].versionOps)
  }

  /** No migration between two positions. */
  ghost predicate Calm(pub: Publisher, a: nat, b: nat)
    requires b <= |pub.txs|
  {
    forall n :: a <= n < b ==> pub.txs[n].versionOps == []
  }

  /** Nothing but row changes. */
  predicate Plain(script: seq<R.Stmt>) { forall i :: 0 <= i < |script| ==> script[i].Dml? }

  /** What the publisher's own database checked, and what the migrator promises: a transaction that
      changes the shape of a table writes the version tables too. */
  ghost predicate Sound(pub: Publisher) {
    forall n :: 0 <= n < |pub.txs| ==>
      && R.Runs(pub.txs[n].script, At(pub, n)) && ValidOps(VersionsAt(pub, n), pub.txs[n].versionOps)
      && (pub.txs[n].versionOps == [] ==> Plain(pub.txs[n].script))
  }

  // ---------------------------------------------------------------- the subscriber's state

  datatype Step = Disabling | Logging | Relogging | Migrating | Undoing | Enabling

  /** follower.state.detail of a migration under way. */
  datatype Detail = Detail(xid: nat, step: Step, scoped: bool, wasEnabled: bool)

  datatype Status =
    | Idle
    | InProgress(detail: Detail)
    | Halted(prior: Option<Detail>, disabledByHalt: bool, named: Verdict)

  datatype CopyStage = Waiting | Off | Written | Cleared

  /** A copy-columns run: it holds the follower lock for its whole life. */
  datatype Copy =
    | NoCopy
    | Copying(table: string, relids: set<nat>, cols: set<string>, all: bool, lsn: nat, stage: CopyStage)

  /** follower.owed is keyed by relation and column, or `*` for every non-key column. */
  datatype OwedKey = OwedKey(relation: string, column: string)

  datatype Db = Db(
    status: Status,
    enabled: bool,                       // the subscription
    triggers: bool,                      // the replay triggers
    shape: Shape,                        // replay log, resolutions, catalog, stored scope
    owed: map<OwedKey, nat>,
    applied: map<VersionRow, nat>,       // applied_revisions / applied_coord_versions: last remote xid
    marker: Marker,                      // version tables and armed_versions
    data: Table,
    progress: nat,                       // pg_replication_origin_progress
    lastError: Option<nat>,              // the newest apply error in the log
    horizon: nat,                        // what the publisher has committed so far
    copy: Copy)

  /** A copy an operator owes: `xid` is the migration whose halt was resolved. */
  datatype Debt = Debt(key: OwedKey, xid: nat)

  /** What happened so far; nothing in the follower reads it. */
  datatype History = History(
    undone: seq<nat>,                    // transactions whose undo committed, in order
    script: seq<R.Stmt>,                 // the current replay's committed statements
    stamps: set<VersionRow>,             // and the version rows it inserted
    marks: seq<Mark>,                    // armings and passes
    debts: set<Debt>,                    // owed copies not yet made
    ahead: nat,                          // how far the newest copied snapshot was
    apart: set<nat>,                     // relations a resolved rewrite or default may have left different
    faithful: bool)                      // nothing the data theorems assume has failed (see Next)

  datatype World = World(db: Db, hist: History)

  function Current(db: Db): Option<Detail> {
    match db.status
    case Idle => None
    case InProgress(d) => Some(d)
    case Halted(prior, _, _) => prior
  }

  function Leaves(pub: Publisher, xid: nat): set<VersionRow> {
    if xid < |pub.txs| then pub.txs[xid].leaves else {}
  }

  /** _verify_local: a web migration must end at exactly the recorded versions, a coord run at least at
      those. */
  predicate Verified(versions: set<VersionRow>, rows: set<VersionRow>) {
    versions <= rows && (WebRows(versions) != {} ==> WebRows(rows) == WebRows(versions))
  }

  /** _already_processed: some applied version row names the transaction. */
  predicate AlreadyProcessed(db: Db, xid: nat) { xid in db.applied.Values }

  predicate MarkerStops(pub: Publisher, db: Db, xid: nat) {
    xid < |pub.txs| && ApplyOps(db.marker, pub.txs[xid].versionOps).Raised?
  }

  predicate Replaying(d: Detail) { d.step.Relogging? || d.step.Migrating? || d.step.Undoing? }

  /** A copy of `cols` covers an owed column, and an owed `*` when it takes every non-key column. */
  predicate Covering(table: string, cols: set<string>, all: bool, k: OwedKey) {
    k.relation == table && (k.column in cols || (k.column == "*" && all))
  }

  predicate Covers(c: Copy, k: OwedKey) { c.Copying? && Covering(c.table, c.cols, c.all, k) }

  function OwedLeft(owed: map<OwedKey, nat>, table: string, cols: set<string>, all: bool): map<OwedKey, nat> {
    map k | k in owed && !Covering(table, cols, all, k) :: owed[k]
  }

  // ---------------------------------------------------------------- events

  datatype Event =
    // the publisher and the apply worker
    | Commit
    | ApplyTx
    | ApplyFails
    // the operator's preparation
    | Seed(row: VersionRow)
    // the cycle and its step machine
    | Stall(xid: nat)
    | Disable
    | PersistLogging
    | Truncate
    | Install
    | PersistMigrating
    | PersistRemigrating
    | MigrateTx(script: seq<R.Stmt>, versionOps: seq<VersionOp>, catalog: Catalog)
    | PersistUndoing
    | DropTriggers
    | UndoCommit
    | EnableSub
    | Finish
    // halts: a complete one, the guard's (which keeps no detail), and one cut short by a crash
    | Halt(named: Verdict, cleaned: bool, reached: bool)
    | HaltBare(cleaned: bool, reached: bool)
    | HaltTorn(cleaned: bool, reached: bool)
    // the operator
    | Resume
    | ResumeEnable
    | ResumeIdle
    | ResolveTarget(target: Target)
    // copy-columns
    | CopyBegin(table: string, relids: set<nat>, cols: set<string>, all: bool)
    | CopyOff
    | CopyWrite(snapshot: nat)
    | CopyClear
    | CopyOn
    | CopyCrash

  predicate OfApply(e: Event) { e.Commit? || e.ApplyTx? || e.ApplyFails? }

  predicate Halts(e: Event) { e.Halt? || e.HaltBare? || e.HaltTorn? }

  predicate OfOperator(e: Event) { e.Seed? || e.Resume? || e.ResumeEnable? || e.ResumeIdle? }

  predicate OfCopy(e: Event) { e.CopyBegin? || e.CopyOff? || e.CopyWrite? || e.CopyClear? || e.CopyOn? || e.CopyCrash? }

  /** The step machine before the migration command, and what it persists from there on; the command's
      own transactions and the undo are apart. */
  predicate OfStart(e: Event) {
    e.Stall? || e.Disable? || e.PersistLogging? || e.Truncate? || e.Install? || e.PersistMigrating? || e.PersistRemigrating?
  }

  predicate OfCarry(e: Event) { e.PersistUndoing? || e.DropTriggers? || e.EnableSub? || e.Finish? }

  ghost predicate InStep(db: Db, step: Step) { db.status.InProgress? && db.status.detail.step == step }

  /** The stored scope is every visible table under its present name. */
  function ScopeNow(c: Catalog): map<nat, string> { map o | o in c.names && o in c.visible :: c.names[o] }

  ghost predicate CanApply(pub: Publisher, db: Db, e: Event)
    requires OfApply(e)
  {
    match e
    case Commit => db.horizon < |pub.txs|
    case ApplyTx =>
      && db.enabled && db.progress < db.horizon <= |pub.txs|
      && ApplyOps(db.marker, pub.txs[db.progress].versionOps).Passed?
      && ApplyAll(db.data, Changes(pub.txs[db.progress])).Ok?
    case ApplyFails => db.enabled && db.progress < db.horizon
  }

  ghost predicate CanStart(pub: Publisher, db: Db, e: Event)
    requires OfStart(e)
  {
    match e
    case Stall(xid) =>
      && db.status.Idle? && db.copy.NoCopy?
      && db.lastError == Some(xid) && xid + 1 > db.progress
      && !AlreadyProcessed(db, xid) && Leaves(pub, xid) != {}
    case Disable => InStep(db, Disabling)
    case PersistLogging => InStep(db, Disabling) && !db.enabled
    case Truncate => InStep(db, Logging)
    case Install => InStep(db, Logging) || InStep(db, Relogging)
    case PersistMigrating => InStep(db, Logging) && db.triggers && db.shape.log == []
    case PersistRemigrating => InStep(db, Relogging) && db.triggers
  }

  ghost predicate CanMigrate(db: Db, script: seq<R.Stmt>) { InStep(db, Migrating) && R.Runs(script, db.data) }

  ghost predicate CanUndo(pub: Publisher, db: Db) {
    && InStep(db, Undoing) && !db.triggers && Check(db.shape).Pass?
    && Verified(Leaves(pub, db.status.detail.xid), db.marker.rows)
  }

  ghost predicate CanCarry(db: Db, e: Event)
    requires OfCarry(e)
  {
    match e
    case PersistUndoing => InStep(db, Migrating)
    case DropTriggers => InStep(db, Undoing)
    case EnableSub => InStep(db, Enabling) && db.status.detail.wasEnabled
    case Finish => InStep(db, Enabling) && (db.status.detail.wasEnabled ==> db.enabled)
  }

  ghost predicate CanHalt(db: Db, e: Event)
    requires Halts(e)
  {
    && db.copy.NoCopy?
    && (e.Halt? ==> !db.status.Halted? && (e.named.HaltOn? ==> InStep(db, Undoing) && e.named == Check(db.shape)))
  }

  ghost predicate CanOperate(db: Db, e: Event)
    requires OfOperator(e)
  {
    match e
    case Seed(_) => db.status.Idle? && db.progress == 0 && db.lastError.None?
    case Resume => db.status.Halted? && db.status.prior.Some?
    case ResumeEnable => db.status.Halted? && db.status.prior.None? && db.status.disabledByHalt
    case ResumeIdle => db.status.Halted? && db.status.prior.None? && (db.status.disabledByHalt ==> db.enabled)
  }

  ghost predicate CanResolve(db: Db, t: Target) {
    && db.status.Halted? && db.status.prior.Some? && db.status.named.HaltOn?
    && t in db.status.named.targets && Resolvable(db.shape.catalog, Resolution(db.status.named.kase, t))
  }

  ghost predicate CanCopy(pub: Publisher, db: Db, e: Event)
    requires OfCopy(e)
  {
    match e
    case CopyBegin(_, _, _, _) => db.status.Idle? && db.copy.NoCopy? && db.enabled
    case CopyOff => db.copy.Copying? && db.copy.stage.Waiting? && db.copy.lsn <= db.progress
    case CopyWrite(b) =>
      && db.copy.Copying? && db.copy.stage.Off? && db.progress <= b <= db.horizon <= |pub.txs|
      && VersionsAt(pub, b) == db.marker.rows
    case CopyClear => db.copy.Copying? && db.copy.stage.Written?
    case CopyOn => db.copy.Copying? && !db.copy.stage.Waiting?
    case CopyCrash => db.copy.Copying?
  }

  ghost predicate Can(pub: Publisher, w: World, e: Event) {
    if OfApply(e) then CanApply(pub, w.db, e)
    else if OfStart(e) then CanStart(pub, w.db, e)
    else if e.MigrateTx? then CanMigrate(w.db, e.script)
    else if OfCarry(e) then CanCarry(w.db, e)
    else if e.UndoCommit? then CanUndo(pub, w.db)
    else if Halts(e) then CanHalt(w.db, e)
    else if OfOperator(e) then CanOperate(w.db, e)
    else if e.ResolveTarget? then CanResolve(w.db, e.target)
    else CanCopy(pub, w.db, e)
  }

  function VersionsLogged(log: seq<LogEntry>): set<VersionRow> {
    set e | e in log && e.VersionInsert? :: e.version
  }

  /** The undo arms the logged version rows in log order. */
  function ArmLogged(armed: set<VersionRow>, log: seq<LogEntry>): seq<Mark>
    decreases |log|
  {
    if log == [] then []
    else if log[0].VersionInsert? then Arm(armed, log[0].version) + ArmLogged(armed + {log[0].version}, log[1..])
    else ArmLogged(armed, log[1..])
  }

  function VersionEntries(ops: seq<VersionOp>): seq<LogEntry> {
    if ops == [] then []
    else (if ops[0].Stamp? then [VersionInsert(ops[0].row)] else []) + VersionEntries(ops[1..])
  }

  function ResumeStep(d: Detail): Detail {
    if d.step.Logging? || d.step.Migrating? then d.(step := if d.scoped then Relogging else Logging) else d
  }

  function OwedBy(kase: Case, t: Target): Option<OwedKey> {
    match t
    case Relation(name) => if kase == RewriteCase || kase == KeyCase then Some(OwedKey(name, "*")) else None
    case Column(table, column) => if kase == ValueCase then Some(OwedKey(table, column)) else None
    case Dead(_) => None
  }

  /** halt(): drop the replay triggers, DISABLE the subscription, record what it was doing. */
  function HaltDb(db: Db, prior: Option<Detail>, named: Verdict, cleaned: bool, reached: bool): Db {
    db.(triggers := db.triggers && !cleaned,
        enabled := db.enabled && !reached,
        status := Halted(prior, db.enabled && reached, named))
  }

  /** A copy pays the debts it covers whose migration has been carried through. */
  function DebtsLeft(hist: History, table: string, cols: set<string>, all: bool): set<Debt> {
    set d | d in hist.debts && !(Covering(table, cols, all, d.key) && d.xid in hist.undone)
  }

  /** _record_applied_sql: every version the transaction left now names it. */
  function Recorded(applied: map<VersionRow, nat>, leaves: set<VersionRow>, xid: nat): map<VersionRow, nat> {
    applied + (map v | v in leaves :: xid)
  }

  ghost function UndoWorld(pub: Publisher, w: World): World
    requires CanUndo(pub, w.db)
  {
    var db, hist := w.db, w.hist;
    var d := db.status.detail;
    var log := db.shape.log;
    var apart := hist.apart + Lifted(db.shape);
    World(
      db.(data := Undo(db.data, log),
          marker := UndoVersions(db.marker, VersionsLogged(log)),
          shape := db.shape.(log := [], resolutions := {}),
          applied := Recorded(db.applied, Leaves(pub, d.xid), d.xid),
          status := InProgress(d.(step := Enabling))),
      hist.(undone := hist.undone + [d.xid],
            marks := hist.marks + ArmLogged(db.marker.armed, log),
            apart := apart,
            faithful := hist.faithful && d.xid < |pub.txs| && !KeysWaived(db.shape) && Nested(db.shape.catalog)
              && OneMigration(db.shape, Trim(apart, hist.script), Trim(apart, pub.txs[d.xid].script))
              && Carried(pub, d.xid, apart, hist.script)))
  }

  /** What the replay of a migration removed, and altered outside the relations `apart`, production's own
      changes settle. */
  ghost predicate Carried(pub: Publisher, xid: nat, apart: set<nat>, script: seq<R.Stmt>)
    requires xid < |pub.txs|
  {
    SettlesOff(apart, R.Reshaped(Trim(apart, script), At(pub, xid)), R.ChangesOf(script), Changes(pub.txs[xid]))
  }

  /** The newest undone migration is the next transaction apply will carry. */
  ghost predicate Pending(w: World) { w.hist.undone != [] && w.hist.undone[|w.hist.undone| - 1] == w.db.progress }

  ghost function ResolveWorld(w: World, t: Target): World
    requires CanResolve(w.db, t)
  {
    var kase := w.db.status.named.kase;
    var xid := w.db.status.prior.value.xid;
    var db := w.db.(shape := Resolve(w.db.shape, Resolution(kase, t)));
    match OwedBy(kase, t)
    case None => World(db, w.hist)
    case Some(k) =>
      World(db.(owed := if k in db.owed then db.owed else db.owed[k := xid]),
            w.hist.(debts := w.hist.debts + {Debt(k, xid)}))
  }

  ghost function NextApply(pub: Publisher, w: World, e: Event): World
    requires OfApply(e) && CanApply(pub, w.db, e)
  {
    var db, hist := w.db, w.hist;
    match e
    case Commit => w.(db := db.(horizon := db.horizon + 1))
    case ApplyTx =>
      var tx := pub.txs[db.progress];
      var o := ApplyOps(db.marker, tx.versionOps);
      World(db.(marker := o.marker, data := ApplyAll(db.data, Changes(tx)).table, progress := db.progress + 1),
            hist.(marks := hist.marks + Passes(o.passes), faithful := hist.faithful && (Pending(w) || Plain(tx.script))))
    case ApplyFails => w.(db := db.(lastError := Some(db.progress)))
  }

  ghost function NextStart(pub: Publisher, w: World, e: Event): World
    requires OfStart(e) && CanStart(pub, w.db, e)
  {
    var db, hist := w.db, w.hist;
    match e
    case Stall(xid) =>
      World(db.(status := InProgress(Detail(xid, Disabling, false, db.enabled))),
            hist.(script := [], stamps := {}))
    case Disable => w.(db := db.(enabled := false))
    case PersistLogging => w.(db := db.(status := InProgress(db.status.detail.(step := Logging))))
    case Truncate => w.(db := db.(shape := db.shape.(log := [])))
    case Install => w.(db := db.(triggers := true))
    case PersistMigrating =>
      w.(db := db.(status := InProgress(db.status.detail.(step := Migrating, scoped := true)),
                   shape := db.shape.(scope := ScopeNow(db.shape.catalog),
                                      catalog := db.shape.catalog.(gained := {}, added := {}))))
    case PersistRemigrating => w.(db := db.(status := InProgress(db.status.detail.(step := Migrating))))
  }

  ghost function MigrateWorld(w: World, script: seq<R.Stmt>, versionOps: seq<VersionOp>, catalog: Catalog): World {
    var db, hist := w.db, w.hist;
    var logged := if db.triggers then R.ScriptLog(script) + VersionEntries(versionOps) else [];
    World(db.(data := R.Run(script, db.data),
              marker := db.marker.(rows := Migrate(db.marker.rows, versionOps)),
              shape := db.shape.(log := db.shape.log + logged, catalog := catalog)),
          hist.(script := hist.script + script, stamps := hist.stamps + Stamped(versionOps)))
  }

  ghost function NextCarry(w: World, e: Event): World
    requires OfCarry(e) && CanCarry(w.db, e)
  {
    var db := w.db;
    match e
    case PersistUndoing => w.(db := db.(status := InProgress(db.status.detail.(step := Undoing))))
    case DropTriggers => w.(db := db.(triggers := false))
    case EnableSub => w.(db := db.(enabled := true))
    case Finish => w.(db := db.(status := Idle))
  }

  ghost function NextHalt(w: World, e: Event): World
    requires Halts(e) && CanHalt(w.db, e)
  {
    match e
    case Halt(named, cleaned, reached) => w.(db := HaltDb(w.db, Current(w.db), named, cleaned, reached))
    case HaltBare(cleaned, reached) => w.(db := HaltDb(w.db, None, Pass, cleaned, reached))
    case HaltTorn(cleaned, reached) =>
      w.(db := w.db.(triggers := w.db.triggers && !cleaned, enabled := w.db.enabled && !reached))
  }

  ghost function NextOperator(w: World, e: Event): World
    requires OfOperator(e) && CanOperate(w.db, e)
  {
    var db, hist := w.db, w.hist;
    match e
    case Seed(v) =>
      World(db.(marker := db.marker.(armed := db.marker.armed + {v})),
            hist.(marks := hist.marks + Arm(db.marker.armed, v)))
    case Resume => w.(db := db.(status := InProgress(ResumeStep(db.status.prior.value))))
    case ResumeEnable => w.(db := db.(enabled := true))
    case ResumeIdle => w.(db := db.(status := Idle))
  }

  /** The rows of a relation differ from the publisher's in the copied columns only. */
  ghost predicate Mends(t: Table, p: Table, o: nat, cols: set<string>) {
    forall k :: k in t && k.relid == o ==> k in p && t[k].Keys == p[k].Keys && AgreeOff(t[k], p[k], cols)
  }

  /** The relations a copy brings back. */
  ghost function Mended(pub: Publisher, w: World): set<nat>
    requires w.db.copy.Copying? && w.db.progress <= |pub.txs|
  {
    set o | o in w.hist.apart && o in w.db.copy.relids && Mends(w.db.data, At(pub, w.db.progress), o, w.db.copy.cols)
  }

  ghost function WriteWorld(pub: Publisher, w: World, b: nat): World
    requires w.db.copy.Copying? && w.db.progress <= b <= |pub.txs|
  {
    var db, hist := w.db, w.hist;
    World(db.(data := Merge(db.data, At(pub, b), db.copy.relids, db.copy.cols),
              copy := db.copy.(stage := Written)),
          hist.(debts := DebtsLeft(hist, db.copy.table, db.copy.cols, db.copy.all),
                ahead := if b <= hist.ahead then hist.ahead else b,
                apart := hist.apart - Mended(pub, w),
                faithful := hist.faithful && Calm(pub, db.progress, b)))
  }

  ghost function NextCopy(pub: Publisher, w: World, e: Event): World
    requires OfCopy(e) && CanCopy(pub, w.db, e)
  {
    var db := w.db;
    match e
    case CopyBegin(table, relids, cols, all) =>
      w.(db := db.(copy := Copying(table, relids, cols, all, db.horizon, Waiting)))
    case CopyOff => w.(db := db.(enabled := false, copy := db.copy.(stage := Off)))
    case CopyWrite(b) => WriteWorld(pub, w, b)
    case CopyClear =>
      w.(db := db.(owed := OwedLeft(db.owed, db.copy.table, db.copy.cols, db.copy.all),
                   copy := db.copy.(stage := Cleared)))
    case CopyOn => w.(db := db.(enabled := true, copy := NoCopy))
    case CopyCrash => w.(db := db.(copy := NoCopy))
  }

  ghost function Next(pub: Publisher, w: World, e: Event): World
    requires Can(pub, w, e)
  {
    if OfApply(e) then NextApply(pub, w, e)
    else if OfStart(e) then NextStart(pub, w, e)
    else if e.MigrateTx? then MigrateWorld(w, e.script, e.versionOps, e.catalog)
    else if OfCarry(e) then NextCarry(w, e)
    else if e.UndoCommit? then UndoWorld(pub, w)
    else if Halts(e) then NextHalt(w, e)
    else if OfOperator(e) then NextOperator(w, e)
    else if e.ResolveTarget? then ResolveWorld(w, e.target)
    else NextCopy(pub, w, e)
  }

  // ---------------------------------------------------------------- runs

  ghost predicate Run(pub: Publisher, w: World, es: seq<Event>)
    decreases |es|
  {
    es == [] || (Can(pub, w, es[0]) && Run(pub, Next(pub, w, es[0]), es[1..]))
  }

  ghost function After(pub: Publisher, w: World, es: seq<Event>): World
    requires Run(pub, w, es)
    decreases |es|
  {
    if es == [] then w else After(pub, Next(pub, w, es[0]), es[1..])
  }

  /** `es` is a run from `a` to `b`. */
  ghost predicate Ran(pub: Publisher, a: World, es: seq<Event>, b: World) {
    Run(pub, a, es) && After(pub, a, es) == b
  }

  lemma {:induction false} RunOneMore(pub: Publisher, a: World, es: seq<Event>, b: World, e: Event)
    requires Ran(pub, a, es, b) && Can(pub, b, e)
    ensures Ran(pub, a, es + [e], Next(pub, b, e))
    decreases |es|
  {
    if es == [] {
      assert [e][1..] == [] && es + [e] == [e];
    } else {
      assert (es + [e])[1..] == es[1..] + [e];
      RunOneMore(pub, Next(pub, a, es[0]), es[1..], b, e);
    }
  }

  lemma RunApply(pub: Publisher, a: World, es: seq<Event>, b: World, e: Event)
    requires Ran(pub, a, es, b) && OfApply(e) && CanApply(pub, b.db, e)
    ensures Ran(pub, a, es + [e], NextApply(pub, b, e))
  {
    RunOneMore(pub, a, es, b, e);
  }

  lemma RunStart(pub: Publisher, a: World, es: seq<Event>, b: World, e: Event)
    requires Ran(pub, a, es, b) && OfStart(e) && CanStart(pub, b.db, e)
    ensures Ran(pub, a, es + [e], NextStart(pub, b, e))
  {
    RunOneMore(pub, a, es, b, e);
  }

  lemma RunCarry(pub: Publisher, a: World, es: seq<Event>, b: World, e: Event)
    requires Ran(pub, a, es, b) && OfCarry(e) && CanCarry(b.db, e)
    ensures Ran(pub, a, es + [e], NextCarry(b, e))
  {
    RunOneMore(pub, a, es, b, e);
  }

  lemma RunHalt(pub: Publisher, a: World, es: seq<Event>, b: World, e: Event)
    requires Ran(pub, a, es, b) && Halts(e) && CanHalt(b.db, e)
    ensures Ran(pub, a, es + [e], NextHalt(b, e))
  {
    RunOneMore(pub, a, es, b, e);
  }

  lemma RunOperator(pub: Publisher, a: World, es: seq<Event>, b: World, e: Event)
    requires Ran(pub, a, es, b) && OfOperator(e) && CanOperate(b.db, e)
    ensures Ran(pub, a, es + [e], NextOperator(b, e))
  {
    RunOneMore(pub, a, es, b, e);
  }

  lemma RunCopy(pub: Publisher, a: World, es: seq<Event>, b: World, e: Event)
    requires Ran(pub, a, es, b) && OfCopy(e) && CanCopy(pub, b.db, e)
    ensures Ran(pub, a, es + [e], NextCopy(pub, b, e))
  {
    RunOneMore(pub, a, es, b, e);
  }

  lemma {:induction false} RunJoin(pub: Publisher, a: World, es: seq<Event>, b: World, fs: seq<Event>, c: World)
    requires Ran(pub, a, es, b) && Ran(pub, b, fs, c)
    ensures Ran(pub, a, es + fs, c)
    decreases |es|
  {
    if es == [] {
      assert es + fs == fs;
    } else {
      assert (es + fs)[1..] == es[1..] + fs;
      RunJoin(pub, Next(pub, a, es[0]), es[1..], b, fs, c);
    }
  }

  /** The follower takes any fresh apply error on a migration for a stall. A stall is steady when the
      marker would stop that transaction, so that retrying cannot get apply past it meanwhile; a
      missing column earlier in the transaction is one, a deadlock on an armed migration is not. */
  ghost predicate Steady(pub: Publisher, w: World, e: Event) {
    e.Stall? ==> MarkerStops(pub, w.db, e.xid)
  }

  ghost predicate SteadyRun(pub: Publisher, w: World, es: seq<Event>)
    decreases |es|
  {
    es == [] || (Can(pub, w, es[0]) && Steady(pub, w, es[0]) && SteadyRun(pub, Next(pub, w, es[0]), es[1..]))
  }

  /** A freshly installed follower on a subscriber that holds the publisher's first state. */
  ghost predicate Initial(pub: Publisher, w: World) {
    && Sound(pub)
    && w.db.status.Idle? && !w.db.triggers && w.db.owed == map[] && w.db.applied == map[]
    && w.db.marker == Marker(pub.versions, {}) && w.db.shape.resolutions == {} && w.db.data == pub.base
    && w.db.progress == 0 && w.db.lastError.None?
    && w.db.horizon <= |pub.txs| && w.db.copy.NoCopy?
    && w.hist == History([], [], {}, [], {}, 0, {}, true)
  }
}
