/** Sequence synchronisation: how large a margin past samples call for, and the run that moves the
    target's sequences. */
module SeqSync {
  import opened Common

  // ---------------------------------------------------------------- samples in order

  /** A value seen at an instant, in seconds. */
  datatype Sample = Sample(at: real, value: int)

  predicate Before(a: Sample, b: Sample) { a.at < b.at || (a.at == b.at && a.value <= b.value) }

  ghost predicate InOrder(s: seq<Sample>) { forall i, j :: 0 <= i < j < |s| ==> Before(s[i], s[j]) }

  function Insert(x: Sample, s: seq<Sample>): seq<Sample> {
    if s == [] || Before(x, s[0]) then [x] + s else [s[0]] + Insert(x, s[1..])
  }

  /** sorted(samples) */
  function Sorted(s: seq<Sample>): seq<Sample> { if s == [] then [] else Insert(s[0], Sorted(s[1..])) }

  lemma {:induction false} InsertKeeps(x: Sample, s: seq<Sample>)
    requires InOrder(s)
    ensures InOrder(Insert(x, s)) && multiset(Insert(x, s)) == multiset(s) + multiset{x}
  {
    if s == [] || Before(x, s[0]) {
    } else {
      InsertKeeps(x, s[1..]);
      var r := Insert(x, s[1..]);
      assert s == [s[0]] + s[1..];
      forall y | y in r ensures Before(s[0], y) {
        assert y in multiset(r);
        if y != x { assert y in multiset(s[1..]); }
      }
    }
  }

  lemma {:induction false} SortedIsOrdered(s: seq<Sample>)
    ensures InOrder(Sorted(s)) && multiset(Sorted(s)) == multiset(s)
  {
    if s != [] {
      SortedIsOrdered(s[1..]);
      InsertKeeps(s[0], Sorted(s[1..]));
      assert s == [s[0]] + s[1..];
    }
  }

  lemma {:induction false} OrderedUnique(a: seq<Sample>, b: seq<Sample>)
    requires InOrder(a) && InOrder(b) && multiset(a) == multiset(b)
    ensures a == b
  {
    if a == [] {
      assert |multiset(b)| == 0;
    } else {
      HeadsAgree(a, b);
      TailBag(a);
      TailBag(b);
      OrderedUnique(a[1..], b[1..]);
      assert a == [a[0]] + a[1..] && b == [b[0]] + b[1..];
    }
  }

  lemma TailBag(a: seq<Sample>)
    requires a != []
    ensures multiset(a[1..]) == multiset(a) - multiset{a[0]}
  {
    assert a == [a[0]] + a[1..];
  }

  lemma HeadsAgree(a: seq<Sample>, b: seq<Sample>)
    requires InOrder(a) && InOrder(b) && multiset(a) == multiset(b) && a != []
    ensures b != [] && a[0] == b[0]
  {
    assert a[0] in multiset(b);
    assert b[0] in multiset(a);
    var i :| 0 <= i < |a| && a[i] == b[0];
    var j :| 0 <= j < |b| && b[j] == a[0];
  }

  // ---------------------------------------------------------------- the largest advance

  const FIVE_MINUTES := 300.0

  function Longer(d: real): real { if d < 60.0 then 60.0 else d }

  /** The advance between consecutive samples per five minutes, pairs under a minute apart taken as a
      minute apart; none where nothing advanced or no time passed. */
  function Rate(a: Sample, b: Sample): (r: real)
    ensures r >= 0.0
  {
    if b.at - a.at <= 0.0 || b.value <= a.value then 0.0
    else
      RateIsPositive((b.value - a.value) as real, Longer(b.at - a.at));
      (b.value - a.value) as real * FIVE_MINUTES / Longer(b.at - a.at)
  }

  lemma RateIsPositive(x: real, d: real)
    requires x > 0.0 && d > 0.0
    ensures x * FIVE_MINUTES / d > 0.0
  {
  }

  function RateAt(o: seq<Sample>, k: nat): (r: real)
    requires k + 1 < |o|
    ensures r >= 0.0
  {
    Rate(o[k], o[k + 1])
  }

  /** The largest rate among the first `n` pairs of neighbours. */
  function BestUpTo(o: seq<Sample>, n: nat): (b: real)
    requires n == 0 || n < |o|
    ensures b >= 0.0
  {
    if n == 0 then 0.0
    else
      var b := BestUpTo(o, n - 1);
      if RateAt(o, n - 1) > b then RateAt(o, n - 1) else b
  }

  function Pairs(o: seq<Sample>): nat { if o == [] then 0 else |o| - 1 }

  function Best(samples: seq<Sample>): real { BestUpTo(Sorted(samples), Pairs(Sorted(samples))) }

  /** max_advance */
  method MaxAdvance(samples: seq<Sample>) returns (best: real)
    ensures best == Best(samples)
  {
    best := 0.0;
    var o := Sorted(samples);
    var k := 0;
    while k < Pairs(o)
      invariant 0 <= k <= Pairs(o) && best == BestUpTo(o, k)
    {
      var a, b := o[k], o[k + 1];
      var dt := b.at - a.at;
      if !(dt <= 0.0 || b.value <= a.value) {
        var rate := (b.value - a.value) as real * FIVE_MINUTES / Longer(dt);
        assert rate == RateAt(o, k);
        if rate > best { best := rate; }
      }
      k := k + 1;
    }
  }

  lemma {:induction false} BestIsLargest(o: seq<Sample>, n: nat)
    requires n == 0 || n < |o|
    ensures forall k :: 0 <= k < n ==> RateAt(o, k) <= BestUpTo(o, n)
    ensures BestUpTo(o, n) == 0.0 || exists k :: 0 <= k < n && RateAt(o, k) == BestUpTo(o, n)
  {
    if n > 0 {
      BestIsLargest(o, n - 1);
      assert RateAt(o, n - 1) <= BestUpTo(o, n);
    }
  }

  /** The order in which the rows are read does not matter. */
  lemma BestIgnoresOrder(a: seq<Sample>, b: seq<Sample>)
    requires multiset(a) == multiset(b)
    ensures Best(a) == Best(b)
  {
    SortedIsOrdered(a);
    SortedIsOrdered(b);
    OrderedUnique(Sorted(a), Sorted(b));
  }

  // ---------------------------------------------------------------- what the largest advance bounds

  /** The time that counts between samples `i` and `j`: at least a minute for every gap. */
  function Span(o: seq<Sample>, i: nat, j: nat): (d: real)
    requires i <= j < |o|
    ensures d >= 0.0
    decreases j - i
  {
    if i == j then 0.0
    else Span(o, i, j - 1) + if o[j].at - o[j - 1].at <= 0.0 then 0.0 else Longer(o[j].at - o[j - 1].at)
  }

  /** What the values rise by between samples of one instant, which max_advance passes over. */
  function Jumps(o: seq<Sample>, i: nat, j: nat): real
    requires i <= j < |o|
    decreases j - i
  {
    if i == j then 0.0
    else Jumps(o, i, j - 1) + if o[j].at - o[j - 1].at <= 0.0 then (o[j].value - o[j - 1].value) as real else 0.0
  }

  lemma QuotientTimesDivisor(x: real, d: real, best: real)
    requires d > 0.0 && x * FIVE_MINUTES / d <= best
    ensures x <= best / FIVE_MINUTES * d
  {
    var q := x * FIVE_MINUTES / d;
    assert q * d == x * FIVE_MINUTES;
    assert (best - q) * d >= 0.0;
  }

  lemma NotNegative(x: real, y: real)
    requires x >= 0.0 && y >= 0.0
    ensures x * y >= 0.0
  {
  }

  lemma PairBound(o: seq<Sample>, k: nat, best: real)
    requires k + 1 < |o| && RateAt(o, k) <= best && best >= 0.0
    ensures (o[k + 1].value - o[k].value) as real <= best / FIVE_MINUTES * Span(o, k, k + 1) + Jumps(o, k, k + 1)
  {
    var a, b := o[k], o[k + 1];
    var dt := b.at - a.at;
    assert Span(o, k, k) == 0.0 && Jumps(o, k, k) == 0.0;
    if dt > 0.0 {
      if b.value > a.value {
        QuotientTimesDivisor((b.value - a.value) as real, Longer(dt), best);
      } else {
        NotNegative(best / FIVE_MINUTES, Longer(dt));
      }
    }
  }

  ghost predicate Within(o: seq<Sample>, best: real, i: nat, j: nat, extra: real)
    requires i <= j < |o|
  {
    (o[j].value - o[i].value) as real <= best / FIVE_MINUTES * Span(o, i, j) + extra
  }

  /** For every list of samples: the advance between two of them is at most the largest rate over the
      time that counts, plus what jumped within single instants. */
  lemma {:induction false} AdvanceIsBounded(o: seq<Sample>, best: real, i: nat, j: nat)
    requires i <= j < |o| && best >= 0.0 && forall k :: 0 <= k < Pairs(o) ==> RateAt(o, k) <= best
    ensures Within(o, best, i, j, Jumps(o, i, j))
    decreases j - i
  {
    if i < j {
      AdvanceIsBounded(o, best, i, j - 1);
      PairBound(o, j - 1, best);
      assert Span(o, j - 1, j - 1) == 0.0 && Jumps(o, j - 1, j - 1) == 0.0;
      var r, x, y := best / FIVE_MINUTES, Span(o, i, j - 1), Span(o, j - 1, j);
      assert r * (x + y) == r * x + r * y;
    }
  }

  /** The bound max_advance is meant to give, between samples `i` and `j` in time order. */
  ghost predicate Bounded(samples: seq<Sample>, i: nat, j: nat)
    requires i <= j < |Sorted(samples)|
  {
    Within(Sorted(samples), Best(samples), i, j, 0.0)
  }

  /** No instant has two values. The primary key of the samples table says so of the stored ones. */
  ghost predicate OneValuePerInstant(samples: seq<Sample>) {
    forall a, b :: a in samples && b in samples && a.at == b.at ==> a.value == b.value
  }

  lemma {:induction false} NoJumps(samples: seq<Sample>, i: nat, j: nat)
    requires OneValuePerInstant(samples) && i <= j < |Sorted(samples)|
    ensures Jumps(Sorted(samples), i, j) == 0.0
    decreases j - i
  {
    if i < j {
      var o := Sorted(samples);
      NoJumps(samples, i, j - 1);
      SortedIsOrdered(samples);
      assert Before(o[j - 1], o[j]);
      assert o[j] in multiset(o) && o[j - 1] in multiset(o);
      assert o[j] in samples && o[j - 1] in samples;
    }
  }

  /** The bound holds between all samples exactly when no instant has two values. */
  lemma BoundHoldsExactly(samples: seq<Sample>)
    ensures (forall i, j :: 0 <= i <= j < |Sorted(samples)| ==> Bounded(samples, i, j)) <==> OneValuePerInstant(samples)
  {
    if OneValuePerInstant(samples) {
      forall i, j | 0 <= i <= j < |Sorted(samples)| ensures Bounded(samples, i, j) { NoJumpsIsBounded(samples, i, j); }
    } else {
      var a, b := TwoValues(samples);
      JumpBreaksBound(samples, a, b);
    }
  }

  lemma NoJumpsIsBounded(samples: seq<Sample>, i: nat, j: nat)
    requires OneValuePerInstant(samples) && i <= j < |Sorted(samples)|
    ensures Bounded(samples, i, j)
  {
    BestIsLargest(Sorted(samples), Pairs(Sorted(samples)));
    AdvanceIsBounded(Sorted(samples), Best(samples), i, j);
    NoJumps(samples, i, j);
  }

  lemma TwoValues(samples: seq<Sample>) returns (a: Sample, b: Sample)
    requires !OneValuePerInstant(samples)
    ensures a in samples && b in samples && a.at == b.at && a.value < b.value
  {
    a, b :| a in samples && b in samples && a.at == b.at && a.value != b.value;
    if a.value > b.value { a, b := b, a; }
  }

  lemma JumpBreaksBound(samples: seq<Sample>, a: Sample, b: Sample)
    requires a in samples && b in samples && a.at == b.at && a.value < b.value
    ensures exists i, j :: 0 <= i <= j < |Sorted(samples)| && !Bounded(samples, i, j)
  {
    var o := Sorted(samples);
    SortedIsOrdered(samples);
    assert a in multiset(o) && b in multiset(o);
    var i :| 0 <= i < |o| && o[i] == a;
    var j :| 0 <= j < |o| && o[j] == b;
    assert !Before(o[j], o[i]) && i != j;
    NoTimePasses(o, i, j);
    assert !Bounded(samples, i, j);
  }

  lemma {:induction false} NoTimePasses(o: seq<Sample>, i: nat, j: nat)
    requires InOrder(o) && i <= j < |o| && o[i].at == o[j].at
    ensures Span(o, i, j) == 0.0
    decreases j - i
  {
    if i < j {
      if i < j - 1 { assert Before(o[i], o[j - 1]); }
      assert Before(o[j - 1], o[j]);
      NoTimePasses(o, i, j - 1);
    }
  }

  // ---------------------------------------------------------------- the margin

  const ALMOST_ONE := 0.999

  /** margin_for, given the largest advance. */
  function Margin(best: real, floor: int): (m: int)
    requires best >= 0.0
    ensures m >= floor
  {
    var up := (3.0 * best + ALMOST_ONE).Floor;
    if up > floor then up else floor
  }

  /** Every whole advance of up to three times the largest is covered. */
  lemma MarginCovers(best: real, floor: int, k: int)
    requires best >= 0.0 && k as real <= 3.0 * best
    ensures k <= Margin(best, floor)
  {
    assert (3.0 * best + ALMOST_ONE).Floor as real > 3.0 * best + ALMOST_ONE - 1.0;
    assert k as real < (Margin(best, floor) + 1) as real;
  }

  /** A margin covers three times the real-valued advance unless that is above the floor and ends in
      a fraction under a thousandth. */
  lemma MarginCoversReals(best: real, floor: int)
    requires best >= 0.0
    ensures Margin(best, floor) as real >= 3.0 * best
       <==> floor as real >= 3.0 * best || (var f := 3.0 * best - (3.0 * best).Floor as real; f == 0.0 || f >= 1.0 - ALMOST_ONE)
  {
    var x := 3.0 * best;
    var n := x.Floor;
    var f := x - n as real;
    assert 0.0 <= f < 1.0;
    if f >= 1.0 - ALMOST_ONE { assert (x + ALMOST_ONE).Floor == n + 1; } else { assert (x + ALMOST_ONE).Floor == n; }
  }

  // ---------------------------------------------------------------- one run

  /** A row read from the source: no value means never called, or not readable. */
  datatype Reading = Reading(name: string, value: Option<int>, readable: bool)

  /** A row of follower.sequence_samples. */
  datatype Stored = Stored(key: string, at: real, value: int)

  datatype Action = Set | Ahead | Unused | Error

  datatype Result =
    Result(name: string, source: Option<int>, before: Option<int>, after: Option<int>, margin: int, action: Action)

  datatype Config = Config(reverse: bool, floor: int, finalFloor: int, window: real)

  /** What one run works with: the sync at cutover has a floor of its own. */
  datatype Settings = Settings(reverse: bool, floor: int, window: real)

  function ForRun(config: Config, final: bool): Settings {
    Settings(config.reverse, if final then config.finalFloor else config.floor, config.window)
  }

  type Positions = map<string, Option<int>>

  const TWO_DAYS := 172800.0

  function SampleKey(cfg: Settings, name: string): string { (if cfg.reverse then "reverse:" else "forward:") + name }

  /** The samples of one key inside the window. */
  function History(rows: seq<Stored>, key: string, since: real): seq<Sample> {
    if rows == [] then []
    else (if rows[0].key == key && rows[0].at > since then [Sample(rows[0].at, rows[0].value)] else [])
         + History(rows[1..], key, since)
  }

  function Seen(rows: seq<Stored>, cfg: Settings, name: string, value: int, now: real): seq<Sample> {
    History(rows, SampleKey(cfg, name), now - cfg.window) + [Sample(now, value)]
  }

  function Wanted(rows: seq<Stored>, cfg: Settings, name: string, value: int, now: real): int {
    value + Margin(Best(Seen(rows, cfg, name, value, now)), cfg.floor)
  }

  function Position(t: Positions, name: string): Option<int> { if name in t then t[name] else None }

  predicate Reaches(current: Option<int>, wanted: int) { current.Some? && current.value >= wanted }

  /** The setval statements for the first readings, carried out in turn on the target as first read. */
  function Moved(t: Positions, source: seq<Reading>, rows: seq<Stored>, cfg: Settings, now: real): (r: Positions)
    ensures r.Keys == t.Keys
  {
    if source == [] then t
    else
      var rest, last := Moved(t, source[..|source| - 1], rows, cfg, now), source[|source| - 1];
      if last.value.None? || last.name !in t then rest
      else
        var wanted := Wanted(rows, cfg, last.name, last.value.value, now);
        if Reaches(t[last.name], wanted) then rest else rest[last.name := Some(wanted)]
  }

  /** INSERT ... ON CONFLICT DO NOTHING, the key being (seq, sampled_at). */
  function Recorded(rows: seq<Stored>, x: Stored): seq<Stored> {
    if exists y :: y in rows && y.key == x.key && y.at == x.at then rows else rows + [x]
  }

  function RecordedAll(rows: seq<Stored>, t: Positions, source: seq<Reading>, cfg: Settings, now: real): seq<Stored> {
    if source == [] then rows
    else
      var rest, last := RecordedAll(rows, t, source[..|source| - 1], cfg, now), source[|source| - 1];
      if last.value.None? || last.name !in t then rest
      else Recorded(rest, Stored(SampleKey(cfg, last.name), now, last.value.value))
  }

  function Pruned(rows: seq<Stored>, before: real): seq<Stored> {
    if rows == [] then [] else (if rows[0].at < before then [] else [rows[0]]) + Pruned(rows[1..], before)
  }

  predicate Faulty(r: Reading, t: Positions) {
    if r.value.None? then !r.readable else r.name !in t
  }

  /** The line reported for a reading, against the target before and after its statement. */
  predicate Reported(r: Reading, line: Result, t: Positions, rows: seq<Stored>, cfg: Settings, now: real) {
    && line.name == r.name && line.source == r.value
    && (line.action == Error <==> Faulty(r, t)) && (line.action == Unused <==> r.value.None? && r.readable)
    && (line.action in {Set, Ahead} ==> r.name in t && r.value.Some?)
    && (line.action in {Set, Ahead} ==>
          var wanted := Wanted(rows, cfg, r.name, r.value.value, now);
          && line.margin == wanted - r.value.value && line.before == t[r.name]
          && (line.action == Ahead <==> Reaches(t[r.name], wanted))
          && line.after == if line.action == Set then Some(wanted) else line.before)
    && (line.action in {Error, Unused} ==> line.before == line.after && line.margin == 0)
    && (line.action == Unused ==> line.before == Position(t, r.name)) && (line.action == Error ==> line.before == None)
  }

  class SeqSync {
    const config: Config
    /** last_value of every published sequence on the side that is written. */
    var target: Positions
    var samples: seq<Stored>

    constructor (config: Config, target: Positions, samples: seq<Stored>)
      ensures this.config == config && this.target == target && this.samples == samples
    {
      this.config, this.target, this.samples := config, target, samples;
    }

    /** One turn of run's loop: the line to report, whether it is an error, and the statements. */
    method Decide(r: Reading, cfg: Settings, now: real) returns (line: Result, sample: Option<Stored>, wanted: Option<int>)
      ensures Reported(r, line, target, samples, cfg, now)
      ensures sample ==
        if r.value.Some? && r.name in target then Some(Stored(SampleKey(cfg, r.name), now, r.value.value)) else None
      ensures wanted == if line.action == Set then line.after else None
    {
      if r.value.None? {
        if r.readable {
          return Result(r.name, None, Position(target, r.name), Position(target, r.name), 0, Unused), None, None;
        }
        return Result(r.name, None, None, None, 0, Error), None, None;
      }
      if r.name !in target {
        return Result(r.name, r.value, None, None, 0, Error), None, None;
      }
      var best := MaxAdvance(Seen(samples, cfg, r.name, r.value.value, now));
      var margin := Margin(best, cfg.floor);
      var goal := r.value.value + margin;
      sample := Some(Stored(SampleKey(cfg, r.name), now, r.value.value));
      if Reaches(target[r.name], goal) {
        return Result(r.name, r.value, target[r.name], target[r.name], margin, Ahead), sample, None;
      }
      return Result(r.name, r.value, target[r.name], Some(goal), margin, Set), sample, Some(goal);
    }

    /** SeqSync.run. The statements are carried out before an error is raised, so one unreadable
        sequence does not hold the others back. */
    method Run(source: seq<Reading>, now: real, final: bool, dryRun: bool) returns (results: seq<Result>, raised: bool)
      modifies this
      ensures |results| == |source|
      ensures forall i :: 0 <= i < |source| ==>
        Reported(source[i], results[i], old(target), old(samples), ForRun(config, final), now)
      ensures raised <==> exists i :: 0 <= i < |source| && Faulty(source[i], old(target))
      ensures State(target, samples) ==
        After(State(old(target), old(samples)), Input(source, ForRun(config, final), now, dryRun))
    {
      var cfg := ForRun(config, final);
      results, raised := [], false;
      var moved, recorded := target, samples;
      var i := 0;
      while i < |source|
        invariant 0 <= i <= |source| && target == old(target) && samples == old(samples)
        invariant RunSoFar(source, i, results, raised, moved, recorded, target, samples, cfg, now)
      {
        var line, sample, wanted := Decide(source[i], cfg, now);
        OneMore(source, i, results, raised, moved, recorded, target, samples, cfg, now, line);
        if sample.Some? { recorded := Recorded(recorded, sample.value); }
        if wanted.Some? { moved := moved[source[i].name := wanted]; }
        raised := raised || line.action == Error;
        results := results + [line];
        i := i + 1;
      }
      assert source[..i] == source;
      if !dryRun {
        target := moved;
        samples := Pruned(recorded, now - TWO_DAYS);
      }
    }
  }

  /** The run after the first `i` readings. */
  ghost predicate RunSoFar(source: seq<Reading>, i: nat, results: seq<Result>, raised: bool, moved: Positions,
                           recorded: seq<Stored>, t: Positions, rows: seq<Stored>, cfg: Settings, now: real) {
    && i <= |source| && |results| == i
    && (forall j :: 0 <= j < i ==> Reported(source[j], results[j], t, rows, cfg, now))
    && (raised <==> exists j :: 0 <= j < i && Faulty(source[j], t))
    && moved == Moved(t, source[..i], rows, cfg, now) && recorded == RecordedAll(rows, t, source[..i], cfg, now)
  }

  lemma OneMore(source: seq<Reading>, i: nat, results: seq<Result>, raised: bool, moved: Positions, recorded: seq<Stored>,
                t: Positions, rows: seq<Stored>, cfg: Settings, now: real, line: Result)
    requires RunSoFar(source, i, results, raised, moved, recorded, t, rows, cfg, now)
    requires i < |source| && Reported(source[i], line, t, rows, cfg, now)
    ensures var r := source[i];
      RunSoFar(source, i + 1, results + [line], raised || line.action == Error,
               if line.action == Set then moved[r.name := line.after] else moved,
               if r.value.Some? && r.name in t then Recorded(recorded, Stored(SampleKey(cfg, r.name), now, r.value.value))
               else recorded,
               t, rows, cfg, now)
  {
    OneMoreMoved(t, source, i, rows, cfg, now, line);
    OneMoreReported(source, i, results, raised, t, rows, cfg, now, line);
  }

  lemma OneMoreReported(source: seq<Reading>, i: nat, results: seq<Result>, raised: bool, t: Positions, rows: seq<Stored>,
                        cfg: Settings, now: real, line: Result)
    requires i < |source| && |results| == i && Reported(source[i], line, t, rows, cfg, now)
    requires forall j :: 0 <= j < i ==> Reported(source[j], results[j], t, rows, cfg, now)
    requires raised <==> exists j :: 0 <= j < i && Faulty(source[j], t)
    ensures forall j :: 0 <= j < i + 1 ==> Reported(source[j], (results + [line])[j], t, rows, cfg, now)
    ensures raised || line.action == Error <==> exists j :: 0 <= j < i + 1 && Faulty(source[j], t)
  {
    if line.action == Error { assert Faulty(source[i], t); }
  }

  lemma OneMoreMoved(t: Positions, source: seq<Reading>, i: nat, rows: seq<Stored>, cfg: Settings, now: real, line: Result)
    requires i < |source| && Reported(source[i], line, t, rows, cfg, now)
    ensures var was, r := Moved(t, source[..i], rows, cfg, now), source[i];
      Moved(t, source[..i + 1], rows, cfg, now) == if line.action == Set then was[r.name := line.after] else was
    ensures var was, r := RecordedAll(rows, t, source[..i], cfg, now), source[i];
      RecordedAll(rows, t, source[..i + 1], cfg, now)
      == if r.value.Some? && r.name in t then Recorded(was, Stored(SampleKey(cfg, r.name), now, r.value.value)) else was
  {
    assert source[..i + 1][..i] == source[..i] && source[..i + 1][i] == source[i];
  }

  // ---------------------------------------------------------------- what runs guarantee

  /** Not below: a sequence never called is below every value. */
  predicate NotBelow(a: Option<int>, b: Option<int>) { a.Some? ==> b.Some? && b.value >= a.value }

  predicate DistinctNames(source: seq<Reading>) {
    forall i, j :: 0 <= i < j < |source| ==> source[i].name != source[j].name
  }

  lemma {:induction false} MovedNeverDown(t: Positions, source: seq<Reading>, rows: seq<Stored>, cfg: Settings, now: real,
                                          name: string)
    requires DistinctNames(source) && name in t
    ensures NotBelow(t[name], Moved(t, source, rows, cfg, now)[name])
    ensures (forall r :: r in source ==> r.name != name) ==> Moved(t, source, rows, cfg, now)[name] == t[name]
  {
    if source != [] {
      var rest, last := source[..|source| - 1], source[|source| - 1];
      MovedNeverDown(t, rest, rows, cfg, now, name);
      assert last in source;
    }
  }

  /** After a run the target has passed the source's value and the margin. */
  lemma {:induction false} MovedReaches(t: Positions, source: seq<Reading>, rows: seq<Stored>, cfg: Settings, now: real, i: nat)
    requires DistinctNames(source) && i < |source| && source[i].value.Some? && source[i].name in t
    ensures var r := source[i];
      Reaches(Moved(t, source, rows, cfg, now)[r.name], Wanted(rows, cfg, r.name, r.value.value, now))
  {
    var n, r := |source| - 1, source[i];
    var rest := source[..n];
    if i < n {
      assert rest[i] == r && source[n].name != r.name;
      MovedReaches(t, rest, rows, cfg, now, i);
    } else {
      forall q | q in rest ensures q.name != r.name {
        var j :| 0 <= j < n && rest[j] == q;
        assert source[j] == q;
      }
      MovedNeverDown(t, rest, rows, cfg, now, r.name);
    }
  }

  datatype State = State(target: Positions, samples: seq<Stored>)

  /** A run has settings of its own: ordinary and final ones mix, and configurations change. */
  datatype Input = Input(source: seq<Reading>, cfg: Settings, now: real, dryRun: bool)

  function After(st: State, x: Input): State {
    if x.dryRun then st
    else State(Moved(st.target, x.source, st.samples, x.cfg, x.now),
               Pruned(RecordedAll(st.samples, st.target, x.source, x.cfg, x.now), x.now - TWO_DAYS))
  }

  function Series(st: State, xs: seq<Input>): State {
    if xs == [] then st else After(Series(st, xs[..|xs| - 1]), xs[|xs| - 1])
  }

  ghost predicate DictReads(xs: seq<Input>) { forall i :: 0 <= i < |xs| ==> DistinctNames(xs[i].source) }

  /** Over any series of runs no sequence of the target goes down, and none appears or disappears. */
  lemma {:induction false} SeriesNeverGoesDown(st: State, xs: seq<Input>, name: string)
    requires DictReads(xs)
    ensures Series(st, xs).target.Keys == st.target.Keys
    ensures name in st.target ==> NotBelow(st.target[name], Series(st, xs).target[name])
  {
    if xs != [] {
      var rest, last := xs[..|xs| - 1], xs[|xs| - 1];
      SeriesNeverGoesDown(st, rest, name);
      var mid := Series(st, rest);
      if name in st.target && !last.dryRun { MovedNeverDown(mid.target, last.source, mid.samples, last.cfg, last.now, name); }
    }
  }

  /** Once a run has read a sequence at `value`, every later target, whatever the floors of the runs before
      and after, covers the source for as long as it advances by no more than that run's floor, or than
      three times the largest advance seen so far. */
  lemma SeriesCovers(st: State, xs: seq<Input>, more: seq<Input>, i: nat, advance: int)
    requires DictReads(xs + more) && xs != [] && !xs[|xs| - 1].dryRun && i < |xs[|xs| - 1].source|
    requires var r := xs[|xs| - 1].source[i]; r.value.Some? && r.name in st.target
    requires var last, r := xs[|xs| - 1], xs[|xs| - 1].source[i];
      var seen := Seen(Series(st, xs[..|xs| - 1]).samples, last.cfg, r.name, r.value.value, last.now);
      advance <= last.cfg.floor || advance as real <= 3.0 * Best(seen)
    ensures var r := xs[|xs| - 1].source[i];
      && r.name in Series(st, xs + more).target
      && Reaches(Series(st, xs + more).target[r.name], r.value.value + advance)
  {
    var last := xs[|xs| - 1];
    var r := last.source[i];
    var before, after := Series(st, xs[..|xs| - 1]), Series(st, xs);
    assert forall k :: 0 <= k < |xs| ==> xs[k] == (xs + more)[k];
    assert forall k :: 0 <= k < |more| ==> more[k] == (xs + more)[|xs| + k];
    SeriesNeverGoesDown(st, xs[..|xs| - 1], r.name);
    MovedReaches(before.target, last.source, before.samples, last.cfg, last.now, i);
    var best := Best(Seen(before.samples, last.cfg, r.name, r.value.value, last.now));
    if advance > last.cfg.floor { MarginCovers(best, last.cfg.floor, advance); }
    SeriesNeverGoesDown(after, more, r.name);
    SeriesConcat(st, xs, more);
  }

  lemma {:induction false} SeriesConcat(st: State, xs: seq<Input>, more: seq<Input>)
    ensures Series(st, xs + more) == Series(Series(st, xs), more)
  {
    if more == [] {
      assert xs + more == xs;
    } else {
      assert (xs + more)[..|xs + more| - 1] == xs + more[..|more| - 1];
      SeriesConcat(st, xs, more[..|more| - 1]);
    }
  }

  // ---------------------------------------------------------------- the stored samples

  /** The primary key of the samples table. */
  ghost predicate Keyed(rows: seq<Stored>) {
    forall a, b :: a in rows && b in rows && a.key == b.key && a.at == b.at ==> a == b
  }

  lemma {:induction false} PrunedMembers(rows: seq<Stored>, before: real, x: Stored)
    ensures x in Pruned(rows, before) <==> x in rows && x.at >= before
  {
    if rows != [] { PrunedMembers(rows[1..], before, x); }
  }

  lemma {:induction false} RecordedAllKeyed(rows: seq<Stored>, t: Positions, source: seq<Reading>, cfg: Settings, now: real)
    requires Keyed(rows)
    ensures Keyed(RecordedAll(rows, t, source, cfg, now))
  {
    if source != [] { RecordedAllKeyed(rows, t, source[..|source| - 1], cfg, now); }
  }

  lemma {:induction false} SeriesKeyed(st: State, xs: seq<Input>)
    requires Keyed(st.samples)
    ensures Keyed(Series(st, xs).samples)
  {
    if xs != [] {
      var mid, last := Series(st, xs[..|xs| - 1]), xs[|xs| - 1];
      SeriesKeyed(st, xs[..|xs| - 1]);
      var all := RecordedAll(mid.samples, mid.target, last.source, last.cfg, last.now);
      RecordedAllKeyed(mid.samples, mid.target, last.source, last.cfg, last.now);
      forall x | x in Pruned(all, last.now - TWO_DAYS) ensures x in all { PrunedMembers(all, last.now - TWO_DAYS, x); }
    }
  }

  lemma {:induction false} HistoryMembers(rows: seq<Stored>, key: string, since: real, s: Sample)
    ensures s in History(rows, key, since) <==> Stored(key, s.at, s.value) in rows && s.at > since
  {
    if rows != [] { HistoryMembers(rows[1..], key, since, s); }
  }

  /** Over any series of runs the samples behind a margin have one value per instant, so that
      max_advance bounds every advance between them, unless one was stored at the very instant of this
      read with another value. */
  lemma SamplesGiveTheBound(st: State, xs: seq<Input>, cfg: Settings, name: string, value: int, now: real)
    requires Keyed(st.samples)
    ensures var rows := Series(st, xs).samples;
      OneValuePerInstant(Seen(rows, cfg, name, value, now))
      <==> forall v: int :: Stored(SampleKey(cfg, name), now, v) in rows && cfg.window > 0.0 ==> v == value
  {
    SeriesKeyed(st, xs);
    var rows, key, since := Series(st, xs).samples, SampleKey(cfg, name), now - cfg.window;
    var seen := Seen(rows, cfg, name, value, now);
    forall s ensures s in seen <==> s == Sample(now, value) || (Stored(key, s.at, s.value) in rows && s.at > since) {
      HistoryMembers(rows, key, since, s);
    }
    forall v: int | OneValuePerInstant(seen) && Stored(key, now, v) in rows && cfg.window > 0.0 ensures v == value {
      assert Sample(now, v) in seen && Sample(now, value) in seen;
    }
  }
}
