/** The plan dependency graph: cycle detection by depth-first search and the restriction to one
    root. A stem stands for its rank in sorted order, so `sorted` and `min` are those of numbers. */
module PlanGraph {
  import opened Common

  type Stem = nat

  datatype Node = Node(stem: Stem, status: string, location: Option<string>)

  const MISSING_STATUS := "MISSING"

  // ---------------------------------------------------------------- paths and cycles

  type Edges = map<Stem, set<Stem>>

  /** graph.edges.get(node, ()) */
  function Deps(e: Edges, a: Stem): set<Stem> { if a in e then e[a] else {} }

  ghost predicate Walk(e: Edges, p: seq<Stem>) {
    p != [] && forall i :: 0 <= i < |p| - 1 ==> p[i + 1] in Deps(e, p[i])
  }

  ghost predicate ClosedWalk(e: Edges, p: seq<Stem>) {
    Walk(e, p) && |p| >= 2 && p[0] == p[|p| - 1]
  }

  ghost predicate Distinct(p: seq<Stem>) {
    forall i, j :: 0 <= i < j < |p| ==> p[i] != p[j]
  }

  /** A reported cycle: a closed path whose stems are distinct up to the closing one. */
  ghost predicate Cycle(e: Edges, c: seq<Stem>) {
    ClosedWalk(e, c) && Distinct(Loop(c))
  }

  // ---------------------------------------------------------------- rotations

  function Rotate(loop: seq<Stem>, k: nat): seq<Stem>
    requires k <= |loop|
  {
    loop[k..] + loop[..k]
  }

  /** A reported list without its closing stem. */
  function Loop(c: seq<Stem>): seq<Stem>
    requires c != []
  {
    c[..|c| - 1]
  }

  ghost predicate IsRotation(a: seq<Stem>, b: seq<Stem>, k: int) {
    0 <= k < |a| && b == Rotate(a, k)
  }

  /** The two reports are the same cycle, entered at different stems. */
  ghost predicate SameCycle(a: seq<Stem>, b: seq<Stem>) {
    |a| >= 2 && |b| >= 2 && exists k: int :: IsRotation(Loop(a), Loop(b), k)
  }

  function Wrap(i: nat, n: nat): nat { if i < n then i else i - n }

  lemma RotateAt(loop: seq<Stem>, k: nat, i: nat)
    requires k <= |loop| && i < |loop|
    ensures Rotate(loop, k)[i] == loop[Wrap(k + i, |loop|)]
  {
  }

  /** The index of the smallest stem. */
  function MinIndex(loop: seq<Stem>): (m: nat)
    requires loop != []
    ensures m < |loop| && forall i :: 0 <= i < |loop| ==> loop[m] <= loop[i]
  {
    if |loop| == 1 then 0
    else
      var m := MinIndex(loop[..|loop| - 1]);
      if loop[m] <= loop[|loop| - 1] then m else |loop| - 1
  }

  /** The rotation-invariant form: the smallest stem leads, the closing duplicate is dropped. */
  function Canonical(c: seq<Stem>): seq<Stem>
    requires |c| >= 2
  {
    Rotate(Loop(c), MinIndex(Loop(c)))
  }

  lemma CanonicalIsRotation(c: seq<Stem>)
    requires |c| >= 2
    ensures |Canonical(c)| == |c| - 1
    ensures forall s :: s in Canonical(c) <==> s in Loop(c)
  {
    var loop := Loop(c);
    var m := MinIndex(loop);
    assert loop == loop[..m] + loop[m..];
  }

  /** Rotating a loop of distinct stems does not change where its smallest stem leads to. */
  lemma CanonicalInvariant(a: seq<Stem>, b: seq<Stem>)
    requires SameCycle(a, b) && Distinct(Loop(a))
    ensures Canonical(a) == Canonical(b)
  {
    var la, lb := Loop(a), Loop(b);
    var k: int :| IsRotation(la, lb, k);
    SmallestLeads(la, lb, k);
  }

  ghost predicate Least(l: seq<Stem>, m: nat) { m < |l| && forall i :: 0 <= i < |l| ==> l[m] <= l[i] }

  lemma OneLeast(l: seq<Stem>, i: nat, j: nat)
    requires Distinct(l) && Least(l, i) && Least(l, j)
    ensures i == j
  {
    assert l[i] == l[j];
  }

  /** The smallest stem of the rotated loop is the smallest stem of the loop. */
  lemma LeastMoves(la: seq<Stem>, k: nat, mb: nat)
    requires k < |la| && Least(Rotate(la, k), mb)
    ensures Least(la, Wrap(k + mb, |la|))
  {
    RotateAt(la, k, mb);
    forall i: nat | i < |la| ensures la[Wrap(k + mb, |la|)] <= la[i] {
      var back := if i >= k then i - k else i - k + |la|;
      RotateAt(la, k, back);
    }
  }

  lemma SmallestLeads(la: seq<Stem>, lb: seq<Stem>, k: nat)
    requires Distinct(la) && IsRotation(la, lb, k)
    ensures Rotate(la, MinIndex(la)) == Rotate(lb, MinIndex(lb))
  {
    var a, b := MinIndex(la), MinIndex(lb);
    assert Least(la, a) && Least(lb, b);
    SmallestMoves(la, k, a, b);
    RotatedAgain(la, k, b);
  }

  lemma SmallestMoves(la: seq<Stem>, k: nat, a: nat, b: nat)
    requires Distinct(la) && k < |la| && Least(la, a) && Least(Rotate(la, k), b)
    ensures b < |la| && a == Wrap(k + b, |la|)
  {
    LeastMoves(la, k, b);
    OneLeast(la, a, Wrap(k + b, |la|));
  }

  lemma RotatedAgain(l: seq<Stem>, k: nat, m: nat)
    requires k < |l| && m < |l|
    ensures Rotate(Rotate(l, k), m) == Rotate(l, Wrap(k + m, |l|))
  {
    forall i: nat | i < |l| ensures Rotate(Rotate(l, k), m)[i] == Rotate(l, Wrap(k + m, |l|))[i] {
      RotatedTwice(l, k, m, i);
    }
  }

  lemma RotatedTwice(l: seq<Stem>, k: nat, m: nat, i: nat)
    requires k < |l| && m < |l| && i < |l|
    ensures Rotate(Rotate(l, k), m)[i] == Rotate(l, Wrap(k + m, |l|))[i]
  {
    RotateAt(Rotate(l, k), m, i);
    RotateAt(l, k, Wrap(m + i, |l|));
    RotateAt(l, Wrap(k + m, |l|), i);
  }

  // ---------------------------------------------------------------- closed sets of stems

  /** No edge leads out. */
  ghost predicate Closed(e: Edges, s: set<Stem>) {
    forall a, b :: a in s && b in Deps(e, a) ==> b in s
  }

  /** `s` is the least closed set with `roots`: exactly what the roots reach. */
  ghost predicate Reach(e: Edges, roots: set<Stem>, s: set<Stem>) {
    roots <= s && Closed(e, s) && forall u :: roots <= u && Closed(e, u) ==> s <= u
  }

  lemma {:induction false} WalkStaysInside(e: Edges, s: set<Stem>, p: seq<Stem>, i: nat, j: nat)
    requires Closed(e, s) && Walk(e, p) && i <= j < |p| && p[i] in s
    ensures p[j] in s
    decreases j - i
  {
    if i < j {
      assert p[i + 1] in Deps(e, p[i]);
      WalkStaysInside(e, s, p, i + 1, j);
    }
  }

  /** A closed walk that touches a closed set lies inside it. */
  lemma ClosedWalkStaysInside(e: Edges, s: set<Stem>, p: seq<Stem>, i: nat)
    requires Closed(e, s) && ClosedWalk(e, p) && i < |p| && p[i] in s
    ensures forall j :: 0 <= j < |p| ==> p[j] in s
  {
    WalkStaysInside(e, s, p, i, |p| - 1);
    forall j: nat | j < |p| ensures p[j] in s { WalkStaysInside(e, s, p, 0, j); }
  }

  /** Along a walk on which every edge leads to an earlier finished stem, positions only go down. */
  lemma {:induction false} RanksFall(e: Edges, rank: map<Stem, nat>, p: seq<Stem>, i: nat, j: nat)
    requires Walk(e, p) && i <= j < |p|
    requires forall k :: i <= k <= j ==> p[k] in rank
    requires forall k :: i <= k < j ==> rank[p[k + 1]] < rank[p[k]]
    ensures rank[p[j]] + (j - i) <= rank[p[i]]
    decreases j - i
  {
    if i < j { RanksFall(e, rank, p, i + 1, j); }
  }

  // ---------------------------------------------------------------- the search

  function SetOf(s: seq<Stem>): set<Stem> { set x | x in s }

  method Lowest(s: set<Stem>) returns (m: Stem)
    requires s != {}
    ensures m in s && forall x :: x in s ==> m <= x
  {
    m :| m in s;
    var rest := s - {m};
    while rest != {}
      invariant rest <= s && m in s && forall x :: x in s && x !in rest ==> m <= x
      decreases |rest|
    {
      var x :| x in rest;
      if x < m { m := x; }
      rest := rest - {x};
    }
  }

  lemma AppendLargest(r: seq<Stem>, m: Stem)
    requires Increasing(r) && forall x :: x in SetOf(r) ==> x < m
    ensures Increasing(r + [m]) && SetOf(r + [m]) == SetOf(r) + {m}
  {
    assert forall i :: 0 <= i < |r| ==> r[i] in SetOf(r);
  }

  /** sorted(): the elements of a set in increasing order. */
  method Sorted(s: set<Stem>) returns (r: seq<Stem>)
    ensures SetOf(r) == s && Increasing(r)
  {
    r := [];
    var left := s;
    while left != {}
      invariant SetOf(r) == s - left && left <= s && Increasing(r)
      invariant forall x, y :: x in s - left && y in left ==> x < y
      decreases |left|
    {
      var m := Lowest(left);
      AppendLargest(r, m);
      r := r + [m];
      left := left - {m};
    }
  }

  /** stack.index(nbr) */
  method IndexOf(stack: seq<Stem>, x: Stem) returns (i: nat)
    requires x in stack
    ensures i < |stack| && stack[i] == x
  {
    i := 0;
    while stack[i] != x
      invariant i < |stack| && x in stack[i..]
      decreases |stack| - i
    {
      i := i + 1;
    }
  }

  /** The reports made so far, on stems that were entered. */
  ghost predicate Reports(e: Edges, cycles: seq<seq<Stem>>, seen: set<seq<Stem>>, entered: set<Stem>) {
    && (forall c :: c in cycles ==> Cycle(e, c) && SetOf(c) <= entered && Canonical(c) in seen)
    && (forall i, j :: 0 <= i < |cycles| && 0 <= j < |cycles| && i != j ==> !SameCycle(cycles[i], cycles[j]))
    && (forall s :: s in seen ==> exists c :: c in cycles && Canonical(c) == s)
  }

  /** The stack is a path of distinct stems, none of them finished. */
  ghost predicate Stacked(e: Edges, stack: seq<Stem>, inStack: set<Stem>, visited: set<Stem>) {
    inStack == SetOf(stack) && Distinct(stack) && inStack !! visited && (stack != [] ==> Walk(e, stack))
  }

  /** A reported cycle passes through `a`. */
  ghost predicate OnCycle(cycles: seq<seq<Stem>>, a: Stem) { exists c :: c in cycles && a in c }

  /** `finished` lists the visited stems, `rank` their places; an edge of a visited stem leads to an
      earlier finished one, or the stem is on a reported cycle. */
  ghost predicate Explored(e: Edges, visited: set<Stem>, open: set<Stem>, finished: seq<Stem>, rank: map<Stem, nat>,
                           cycles: seq<seq<Stem>>) {
    && rank.Keys == visited && SetOf(finished) == visited && Distinct(finished)
    && (forall a :: a in rank ==> rank[a] < |finished|)
    && (forall a, b :: a in visited && b in Deps(e, a) ==>
          (b in visited || b in open) && ((b in rank && rank[b] < rank[a]) || OnCycle(cycles, a)))
  }

  ghost predicate Handled(visited: set<Stem>, open: set<Stem>, cycles: seq<seq<Stem>>, node: Stem, nbr: Stem) {
    nbr in visited || (nbr in open && OnCycle(cycles, node))
  }

  ghost predicate AllHandled(visited: set<Stem>, open: set<Stem>, cycles: seq<seq<Stem>>, node: Stem, nbrs: set<Stem>) {
    forall b :: b in nbrs ==> Handled(visited, open, cycles, node, b)
  }

  lemma OneMoreHandled(was: set<Stem>, visited: set<Stem>, open: set<Stem>, had: seq<seq<Stem>>, cycles: seq<seq<Stem>>,
                       node: Stem, nbrs: seq<Stem>, i: nat)
    requires i < |nbrs| && AllHandled(was, open, had, node, SetOf(nbrs[..i])) && was <= visited && had <= cycles
    requires Handled(visited, open, cycles, node, nbrs[i])
    ensures AllHandled(visited, open, cycles, node, SetOf(nbrs[..i + 1]))
  {
    ReportsStay(had, cycles);
    forall b | b in SetOf(nbrs[..i + 1]) ensures Handled(visited, open, cycles, node, b) {
      if b != nbrs[i] {
        assert b in SetOf(nbrs[..i]);
        assert Handled(was, open, had, node, b);
      }
    }
  }

  lemma NewReport(e: Edges, cycles: seq<seq<Stem>>, seen: set<seq<Stem>>, entered: set<Stem>, cycle: seq<Stem>)
    requires Reports(e, cycles, seen, entered) && Cycle(e, cycle) && SetOf(cycle) <= entered && Canonical(cycle) !in seen
    ensures Reports(e, cycles + [cycle], seen + {Canonical(cycle)}, entered)
  {
    var cycles' := cycles + [cycle];
    forall c | c in cycles ensures !SameCycle(c, cycle) && !SameCycle(cycle, c) {
      if SameCycle(c, cycle) { CanonicalInvariant(c, cycle); }
      if SameCycle(cycle, c) { CanonicalInvariant(cycle, c); }
    }
    forall i, j | 0 <= i < |cycles'| && 0 <= j < |cycles'| && i != j ensures !SameCycle(cycles'[i], cycles'[j]) {
      if i < |cycles| { assert cycles[i] in cycles; }
      if j < |cycles| { assert cycles[j] in cycles; }
    }
    forall s | s in seen + {Canonical(cycle)} ensures exists c :: c in cycles' && Canonical(c) == s {
      if s in seen {
        var c :| c in cycles && Canonical(c) == s;
        assert c in cycles';
      } else {
        assert cycle in cycles';
      }
    }
  }

  lemma OldReport(e: Edges, cycles: seq<seq<Stem>>, seen: set<seq<Stem>>, entered: set<Stem>, cycle: seq<Stem>, x: Stem)
    requires Reports(e, cycles, seen, entered) && |cycle| >= 2 && Canonical(cycle) in seen && x in Loop(cycle)
    ensures OnCycle(cycles, x)
  {
    var c :| c in cycles && Canonical(c) == Canonical(cycle);
    CanonicalIsRotation(c);
    CanonicalIsRotation(cycle);
    assert x in Loop(c);
  }

  lemma ReportsGrow(e: Edges, cycles: seq<seq<Stem>>, seen: set<seq<Stem>>, entered: set<Stem>, more: set<Stem>)
    requires Reports(e, cycles, seen, entered) && entered <= more
    ensures Reports(e, cycles, seen, more)
  {
  }

  lemma CyclesGrow(e: Edges, visited: set<Stem>, open: set<Stem>, finished: seq<Stem>, rank: map<Stem, nat>,
                   cycles: seq<seq<Stem>>, more: seq<seq<Stem>>)
    requires Explored(e, visited, open, finished, rank, cycles) && cycles <= more
    ensures Explored(e, visited, open, finished, rank, more)
  {
    ReportsStay(cycles, more);
  }

  lemma Finishes(e: Edges, visited: set<Stem>, open: set<Stem>, finished: seq<Stem>, rank: map<Stem, nat>,
                 cycles: seq<seq<Stem>>, node: Stem)
    requires Explored(e, visited, open + {node}, finished, rank, cycles) && node !in visited
    requires AllHandled(visited, open + {node}, cycles, node, Deps(e, node))
    ensures Explored(e, visited + {node}, open, finished + [node], rank[node := |finished|], cycles)
  {
    assert SetOf(finished + [node]) == SetOf(finished) + {node};
    assert node !in finished;
  }

  /** _detect_cycles: the locals of the function and its inner `dfs`. */
  class CycleSearch {
    const edges: Edges
    var stack: seq<Stem>
    var inStack: set<Stem>
    var visited: set<Stem>
    var cycles: seq<seq<Stem>>
    var seen: set<seq<Stem>>
    /** The visited stems in the order they were finished, and each one's place. */
    ghost var finished: seq<Stem>
    ghost var rank: map<Stem, nat>

    constructor (edges: Edges)
      ensures this.edges == edges && Valid() && stack == [] && inStack == {} && visited == {} && cycles == []
    {
      this.edges := edges;
      stack, inStack, visited, cycles, seen, rank, finished := [], {}, {}, [], {}, map[], [];
    }

    ghost predicate Valid()
      reads this
    {
      && Reports(edges, cycles, seen, visited + inStack)
      && Stacked(edges, stack, inStack, visited)
      && Explored(edges, visited, inStack, finished, rank, cycles)
    }

    /** A back edge to a stem on the stack closes a cycle, which is reported unless a rotation of it
        has been. */
    method ReportBackEdge(nbr: Stem)
      requires Valid() && stack != [] && nbr in inStack && nbr in Deps(edges, stack[|stack| - 1])
      modifies this`cycles, this`seen
      ensures Valid() && old(cycles) <= cycles && OnCycle(cycles, stack[|stack| - 1])
    {
      var start := IndexOf(stack, nbr);
      var cycle := stack[start..] + [nbr];
      BackEdgeCloses(edges, stack, start, cycle);
      var sig := Canonical(cycle);
      if sig !in seen {
        AddReport(cycle);
        LastIsOn(cycles, cycle, stack[|stack| - 1]);
      } else {
        OldReport(edges, cycles, seen, visited + inStack, cycle, stack[|stack| - 1]);
      }
    }

    method AddReport(cycle: seq<Stem>)
      requires Valid() && Cycle(edges, cycle) && SetOf(cycle) <= inStack && Canonical(cycle) !in seen
      modifies this`cycles, this`seen
      ensures Valid() && cycles == old(cycles) + [cycle]
    {
      NewReport(edges, cycles, seen, visited + inStack, cycle);
      CyclesGrow(edges, visited, inStack, finished, rank, cycles, cycles + [cycle]);
      seen := seen + {Canonical(cycle)};
      cycles := cycles + [cycle];
    }

    method Push(node: Stem)
      requires Valid() && node !in visited && node !in inStack
      requires stack != [] ==> node in Deps(edges, stack[|stack| - 1])
      modifies this`stack, this`inStack
      ensures Valid() && stack == old(stack) + [node] && inStack == old(inStack) + {node}
    {
      Pushed(edges, stack, node);
      ReportsGrow(edges, cycles, seen, visited + inStack, visited + inStack + {node});
      assert visited + inStack + {node} == visited + (inStack + {node});
      stack := stack + [node];
      inStack := inStack + {node};
    }

    /** The end of dfs: the stem leaves the stack and counts as visited. */
    method Pop(node: Stem)
      requires Valid() && stack != [] && stack[|stack| - 1] == node
      requires AllHandled(visited, inStack, cycles, node, Deps(edges, node))
      modifies this`stack, this`inStack, this`visited, this`finished, this`rank
      ensures Valid() && stack == old(stack)[..|old(stack)| - 1] && inStack == old(inStack) - {node}
      ensures visited == old(visited) + {node} && finished == old(finished) + [node]
    {
      var rest := stack[..|stack| - 1];
      Popped(edges, stack, inStack, visited);
      assert inStack == inStack - {node} + {node};
      Finishes(edges, visited, inStack - {node}, finished, rank, cycles, node);
      assert visited + inStack == (visited + {node}) + (inStack - {node});
      stack := rest;
      inStack := inStack - {node};
      rank := rank[node := |finished|];
      finished := finished + [node];
      visited := visited + {node};
    }

    /** dfs(node): every stem is entered once, and the search leaves the stack as it found it. */
    method Dfs(node: Stem, ghost universe: set<Stem>)
      requires Valid() && Closed(edges, universe) && node in universe && node !in visited && node !in inStack
      requires stack != [] ==> node in Deps(edges, stack[|stack| - 1])
      modifies this
      ensures Valid() && stack == old(stack) && inStack == old(inStack)
      ensures old(visited) + {node} <= visited && old(cycles) <= cycles
      ensures Bounded(old(visited), visited, node)
      decreases universe - visited - inStack, 0
    {
      Push(node);
      VisitAll(node, universe);
      Pop(node);
    }

    /** dfs's loop over the stems `node` depends on. */
    method VisitAll(node: Stem, ghost universe: set<Stem>)
      requires Valid() && Closed(edges, universe) && node in universe
      requires stack != [] && stack[|stack| - 1] == node
      modifies this
      ensures Valid() && stack == old(stack) && inStack == old(inStack)
      ensures old(visited) <= visited && old(cycles) <= cycles
      ensures AllHandled(visited, inStack, cycles, node, Deps(edges, node))
      ensures Bounded(old(visited), visited, node)
      decreases universe - visited - inStack, 2
    {
      var nbrs := Sorted(Deps(edges, node));
      var i := 0;
      while i < |nbrs|
        invariant 0 <= i <= |nbrs|
        invariant Valid() && stack == old(stack) && inStack == old(inStack)
        invariant old(visited) <= visited && old(cycles) <= cycles
        invariant Bounded(old(visited), visited, node) && AllHandled(visited, inStack, cycles, node, SetOf(nbrs[..i]))
      {
        assert nbrs[i] in SetOf(nbrs);
        ghost var was, had := visited, cycles;
        Visit(node, nbrs[i], universe);
        OneMoreHandled(was, visited, inStack, had, cycles, node, nbrs, i);
        i := i + 1;
      }
      assert nbrs[..i] == nbrs;
    }

    /** One turn of dfs's loop. */
    method Visit(node: Stem, nbr: Stem, ghost universe: set<Stem>)
      requires Valid() && Closed(edges, universe) && node in universe && nbr in Deps(edges, node)
      requires stack != [] && stack[|stack| - 1] == node
      modifies this
      ensures Valid() && stack == old(stack) && inStack == old(inStack)
      ensures old(visited) <= visited && old(cycles) <= cycles
      ensures Handled(visited, inStack, cycles, node, nbr) && Bounded(old(visited), visited, node)
      decreases universe - visited - inStack, 1
    {
      if nbr in inStack {
        ReportBackEdge(nbr);
      } else if nbr !in visited {
        Dfs(nbr, universe);
      }
    }

    /** The search from `node` adds nothing that `node` does not reach. */
    ghost predicate Bounded(before: set<Stem>, after: set<Stem>, node: Stem) {
      forall u :: node in u && Closed(edges, u) ==> after <= before + u
    }
  }

  lemma Popped(e: Edges, stack: seq<Stem>, inStack: set<Stem>, visited: set<Stem>)
    requires Stacked(e, stack, inStack, visited) && stack != []
    ensures var node := stack[|stack| - 1];
      Stacked(e, stack[..|stack| - 1], inStack - {node}, visited + {node})
  {
    var node, rest := stack[|stack| - 1], stack[..|stack| - 1];
    assert stack == rest + [node];
    assert SetOf(rest) == inStack - {node};
    assert rest != [] ==> Walk(e, rest);
  }

  lemma LastIsOn(cycles: seq<seq<Stem>>, cycle: seq<Stem>, x: Stem)
    requires cycles != [] && cycles[|cycles| - 1] == cycle && x in cycle
    ensures OnCycle(cycles, x)
  {
    assert cycle in cycles;
  }

  lemma BackEdgeCloses(e: Edges, stack: seq<Stem>, start: nat, cycle: seq<Stem>)
    requires start < |stack| && Walk(e, stack) && Distinct(stack) && stack[start] in Deps(e, stack[|stack| - 1])
    requires cycle == stack[start..] + [stack[start]]
    ensures Cycle(e, cycle) && stack[|stack| - 1] in Loop(cycle) && stack[|stack| - 1] in cycle && SetOf(cycle) <= SetOf(stack)
  {
    var n := |cycle| - 1;
    assert cycle[..n] == stack[start..];
    forall i | 0 <= i < n ensures cycle[i + 1] in Deps(e, cycle[i]) {
      assert cycle[i] == stack[start + i];
      if i + 1 < n { assert cycle[i + 1] == stack[start + i + 1]; }
    }
    assert cycle[..n][n - 1] == stack[|stack| - 1];
  }

  lemma Pushed(e: Edges, stack: seq<Stem>, node: Stem)
    requires Distinct(stack) && node !in stack && (stack != [] ==> Walk(e, stack) && node in Deps(e, stack[|stack| - 1]))
    ensures Distinct(stack + [node]) && Walk(e, stack + [node]) && SetOf(stack + [node]) == SetOf(stack) + {node}
  {
  }

  lemma ReportsStay(cycles: seq<seq<Stem>>, more: seq<seq<Stem>>)
    requires cycles <= more
    ensures forall a :: OnCycle(cycles, a) ==> OnCycle(more, a)
  {
    forall a | OnCycle(cycles, a) ensures OnCycle(more, a) {
      var c :| c in cycles && a in c;
      assert c in more;
    }
  }

  /** What the reported cycles say about any closed part of the graph: one of them touches it exactly
      when it has a cycle at all. */
  ghost predicate Verdict(e: Edges, cycles: seq<seq<Stem>>, s: set<Stem>) {
    (exists x :: x in s && OnCycle(cycles, x)) <==> (exists p :: ClosedWalk(e, p) && p[0] in s)
  }

  lemma SearchDecides(e: Edges, visited: set<Stem>, finished: seq<Stem>, rank: map<Stem, nat>, cycles: seq<seq<Stem>>,
                      s: set<Stem>)
    requires Closed(e, s) && s <= visited && Explored(e, visited, {}, finished, rank, cycles)
    requires forall c :: c in cycles ==> Cycle(e, c)
    ensures Verdict(e, cycles, s)
  {
    if x :| x in s && OnCycle(cycles, x) {
      var c :| c in cycles && x in c;
      var i :| 0 <= i < |c| && c[i] == x;
      ClosedWalkStaysInside(e, s, c, i);
      assert ClosedWalk(e, c) && c[0] in s;
    }
    if p :| ClosedWalk(e, p) && p[0] in s {
      ClosedWalkStaysInside(e, s, p, 0);
      if forall x :: x in s ==> !OnCycle(cycles, x) {
        forall k | 0 <= k < |p| - 1 ensures rank[p[k + 1]] < rank[p[k]] {
          assert p[k] in s && p[k + 1] in Deps(e, p[k]);
        }
        RanksFall(e, rank, p, 0, |p| - 1);
        assert false;
      }
    }
  }

  /** Everything an edge mentions. */
  function Endpoints(e: Edges): set<Stem> { e.Keys + set a, b | a in e && b in e[a] :: b }

  /** The search from one stem nothing has reached yet, with an empty stack. */
  method FromStem(search: CycleSearch, node: Stem, ghost nodes: set<Stem>, ghost universe: set<Stem>)
    requires search.Valid() && search.stack == [] && search.inStack == {} && node !in search.visited && node in nodes
    requires ReachedFrom(search.edges, nodes, search.visited)
    requires universe == nodes + Endpoints(search.edges)
    modifies search
    ensures search.Valid() && search.stack == [] && search.inStack == {}
    ensures old(search.visited) <= search.visited && node in search.visited
    ensures ReachedFrom(search.edges, nodes, search.visited)
  {
    ghost var before := search.visited;
    search.Dfs(node, universe);
    StillReached(search.edges, nodes, before, search.visited, node);
  }

  /** _detect_cycles. Every reported list is a closed simple path of real edges, no two are rotations
      of each other, and the report decides acyclicity: of everything the nodes reach, and of every
      part of it that no edge leaves. `visits` is the order in which stems were finished. */
  method DetectCycles(nodes: set<Stem>, edges: Edges)
    returns (cycles: seq<seq<Stem>>, ghost reached: set<Stem>, ghost visits: seq<Stem>)
    ensures forall c :: c in cycles ==> Cycle(edges, c) && SetOf(c) <= reached
    ensures forall i, j :: 0 <= i < |cycles| && 0 <= j < |cycles| && i != j ==> !SameCycle(cycles[i], cycles[j])
    ensures Reach(edges, nodes, reached) && SetOf(visits) == reached && Distinct(visits)
    ensures forall s :: s <= reached && Closed(edges, s) ==> Verdict(edges, cycles, s)
    ensures cycles == [] <==> !exists p :: ClosedWalk(edges, p) && p[0] in reached
  {
    var search := new CycleSearch(edges);
    ghost var universe := nodes + Endpoints(edges);
    var order := Sorted(nodes);
    var i := 0;
    while i < |order|
      invariant 0 <= i <= |order| && search.edges == edges && fresh(search)
      invariant search.Valid() && search.stack == [] && search.inStack == {}
      invariant forall j :: 0 <= j < i ==> order[j] in search.visited
      invariant ReachedFrom(edges, nodes, search.visited)
    {
      assert order[i] in SetOf(order);
      if order[i] !in search.visited { FromStem(search, order[i], nodes, universe); }
      i := i + 1;
    }
    cycles, reached, visits := search.cycles, search.visited, search.finished;
    AllVisited(order, nodes, reached);
    WholeSearchDecides(edges, reached, visits, search.rank, cycles, search.seen);
  }

  ghost predicate ReachedFrom(e: Edges, nodes: set<Stem>, s: set<Stem>) {
    forall u :: nodes <= u && Closed(e, u) ==> s <= u
  }

  lemma StillReached(e: Edges, nodes: set<Stem>, before: set<Stem>, after: set<Stem>, node: Stem)
    requires ReachedFrom(e, nodes, before) && node in nodes
    requires forall u :: node in u && Closed(e, u) ==> after <= before + u
    ensures ReachedFrom(e, nodes, after)
  {
  }

  lemma AllVisited(order: seq<Stem>, nodes: set<Stem>, visited: set<Stem>)
    requires SetOf(order) == nodes && forall j :: 0 <= j < |order| ==> order[j] in visited
    ensures nodes <= visited
  {
    assert forall x :: x in SetOf(order) ==> x in order;
  }

  lemma WholeSearchDecides(e: Edges, reached: set<Stem>, visits: seq<Stem>, rank: map<Stem, nat>, cycles: seq<seq<Stem>>,
                           seen: set<seq<Stem>>)
    requires Explored(e, reached, {}, visits, rank, cycles) && Reports(e, cycles, seen, reached + {})
    ensures Closed(e, reached) && forall s :: s <= reached && Closed(e, s) ==> Verdict(e, cycles, s)
    ensures cycles == [] <==> !exists p :: ClosedWalk(e, p) && p[0] in reached
  {
    assert reached + {} == reached;
    forall s | s <= reached && Closed(e, s) ensures Verdict(e, cycles, s) {
      SearchDecides(e, reached, visits, rank, cycles, s);
    }
    EmptyReportMeansAcyclic(e, cycles, reached);
  }

  lemma EmptyReportMeansAcyclic(e: Edges, cycles: seq<seq<Stem>>, s: set<Stem>)
    requires Verdict(e, cycles, s) && forall c :: c in cycles ==> Cycle(e, c) && SetOf(c) <= s
    ensures cycles == [] <==> !exists p :: ClosedWalk(e, p) && p[0] in s
  {
    if cycles != [] {
      var c := cycles[0];
      assert c in cycles && c[0] in SetOf(c) && OnCycle(cycles, c[0]);
    }
  }

  // ---------------------------------------------------------------- restriction to one root

  class Graph {
    var nodes: map<Stem, Node>
    var edges: Edges
    var missing: set<Stem>
    var cycles: seq<seq<Stem>>

    constructor ()
      ensures nodes == map[] && edges == map[] && missing == {} && cycles == []
    {
      nodes, edges, missing, cycles := map[], map[], {}, [];
    }

    /** Every node is filed under its own stem. */
    ghost predicate Valid()
      reads this
    {
      forall s :: s in nodes ==> nodes[s].stem == s
    }

    method EnsureNode(stem: Stem, status: string, location: Option<string>)
      requires Valid()
      modifies this`nodes, this`edges
      ensures Valid()
      ensures stem in old(nodes) ==> nodes == old(nodes) && edges == old(edges)
      ensures stem !in old(nodes) ==> nodes == old(nodes)[stem := Node(stem, status, location)]
      ensures stem !in old(nodes) ==> edges == if stem in old(edges) then old(edges) else old(edges)[stem := {}]
    {
      if stem !in nodes {
        nodes := nodes[stem := Node(stem, status, location)];
        if stem !in edges { edges := edges[stem := {}]; }
      }
    }

    method AddEdge(from: Stem, to: Stem)
      modifies this`edges
      ensures edges == old(edges)[from := Deps(old(edges), from) + {to}]
    {
      edges := edges[from := Deps(edges, from) + {to}];
    }
  }

  /** The part of a graph inside `seen`, with a placeholder for every stem the graph has no node for. */
  ghost predicate Restricted(nodes: map<Stem, Node>, edges: Edges, subNodes: map<Stem, Node>, subEdges: Edges,
                             subMissing: set<Stem>, seen: set<Stem>) {
    && subNodes.Keys == seen && subEdges.Keys == seen && subMissing == seen - nodes.Keys
    && (forall s :: s in seen ==> subEdges[s] == Deps(edges, s))
    && (forall s :: s in seen ==> subNodes[s] == if s in nodes then nodes[s] else Node(s, MISSING_STATUS, None))
  }

  /** The search so far: what it has seen is reachable, and what seen stems lead to is seen or queued. */
  ghost predicate Frontier(e: Edges, root: Stem, queue: seq<Stem>, seen: set<Stem>) {
    && (root in seen || root in queue)
    && (forall a, b :: a in seen && b in Deps(e, a) ==> b in seen || b in queue)
    && (forall u :: root in u && Closed(e, u) ==> seen <= u && SetOf(queue) <= u)
  }

  /** Everything a search from the root can meet. */
  ghost function Universe(e: Edges, root: Stem): set<Stem> { {root} + Endpoints(e) }

  lemma InUniverse(e: Edges, root: Stem, queue: seq<Stem>, seen: set<Stem>)
    requires Frontier(e, root, queue, seen)
    ensures seen <= Universe(e, root) && SetOf(queue) <= Universe(e, root)
  {
    assert Closed(e, Universe(e, root));
  }

  lemma FrontierAdvances(e: Edges, root: Stem, queue: seq<Stem>, seen: set<Stem>, cur: Stem, more: seq<Stem>)
    requires Frontier(e, root, queue + [cur], seen) && queue <= more && SetOf(more) == SetOf(queue) + Deps(e, cur)
    ensures Frontier(e, root, more, seen + {cur})
  {
    forall x ensures x in more <==> x in queue || x in Deps(e, cur) {
      assert x in more <==> x in SetOf(more);
      assert x in queue <==> x in SetOf(queue);
    }
    forall u | root in u && Closed(e, u) ensures seen + {cur} <= u && SetOf(more) <= u {
      assert cur in SetOf(queue + [cur]);
      forall x | x in queue ensures x in u { assert x in SetOf(queue + [cur]); }
    }
  }

  lemma FrontierSkips(e: Edges, root: Stem, queue: seq<Stem>, seen: set<Stem>, cur: Stem)
    requires Frontier(e, root, queue + [cur], seen) && cur in seen
    ensures Frontier(e, root, queue, seen)
  {
    forall u | root in u && Closed(e, u) ensures SetOf(queue) <= u {
      forall x | x in queue ensures x in u { assert x in SetOf(queue + [cur]); }
    }
  }

  lemma FrontierDone(e: Edges, root: Stem, seen: set<Stem>)
    requires Frontier(e, root, [], seen)
    ensures Reach(e, {root}, seen)
  {
  }

  /** The inner loop: `cur`'s edges are copied and their targets queued, in whatever order the set yields. */
  method CopyEdges(sub: Graph, cur: Stem, nbrs: set<Stem>, queue: seq<Stem>) returns (more: seq<Stem>)
    requires cur in sub.edges
    modifies sub`edges
    ensures sub.edges == old(sub.edges)[cur := old(sub.edges[cur]) + nbrs]
    ensures queue <= more && SetOf(more) == SetOf(queue) + nbrs
  {
    more := queue;
    var left := nbrs;
    ghost var was, done: set<Stem> := sub.edges, {};
    assert was[cur] + {} == was[cur];
    while left != {}
      invariant left <= nbrs && done == nbrs - left && queue <= more && SetOf(more) == SetOf(queue) + done
      invariant sub.edges == was[cur := was[cur] + done]
      decreases |left|
    {
      var nbr :| nbr in left;
      sub.AddEdge(cur, nbr);
      assert SetOf(more + [nbr]) == SetOf(more) + {nbr};
      more := more + [nbr];
      left := left - {nbr};
      assert was[cur] + done + {nbr} == was[cur] + (done + {nbr});
      done := done + {nbr};
    }
    assert done == nbrs;
  }

  function NodeOf(nodes: map<Stem, Node>, cur: Stem): Node {
    if cur in nodes then nodes[cur] else Node(cur, MISSING_STATUS, None)
  }

  lemma RestrictedGrows(nodes: map<Stem, Node>, edges: Edges, subNodes: map<Stem, Node>, subEdges: Edges,
                        subMissing: set<Stem>, seen: set<Stem>, cur: Stem)
    requires Restricted(nodes, edges, subNodes, subEdges, subMissing, seen) && cur !in seen
    ensures Restricted(nodes, edges, subNodes[cur := NodeOf(nodes, cur)], subEdges[cur := {}][cur := {} + Deps(edges, cur)],
                       subMissing + ({cur} - nodes.Keys), seen + {cur})
  {
  }

  method CopyNode(graph: Graph, sub: Graph, cur: Stem)
    requires graph != sub && graph.Valid() && sub.Valid() && cur !in sub.nodes && cur !in sub.edges
    modifies sub`nodes, sub`edges, sub`missing
    ensures sub.Valid() && sub.nodes == old(sub.nodes)[cur := NodeOf(graph.nodes, cur)]
    ensures sub.edges == old(sub.edges)[cur := {}] && sub.missing == old(sub.missing) + ({cur} - graph.nodes.Keys)
  {
    if cur in graph.nodes {
      var node := graph.nodes[cur];
      sub.EnsureNode(node.stem, node.status, node.location);
    } else {
      sub.EnsureNode(cur, MISSING_STATUS, None);
      sub.missing := sub.missing + {cur};
    }
  }

  /** One stem of the search: its node, or a placeholder, and its edges. */
  method CopyStem(graph: Graph, sub: Graph, cur: Stem, queue: seq<Stem>, ghost seen: set<Stem>) returns (more: seq<Stem>)
    requires graph != sub && graph.Valid() && sub.Valid() && cur !in seen
    requires Restricted(graph.nodes, graph.edges, sub.nodes, sub.edges, sub.missing, seen)
    modifies sub`nodes, sub`edges, sub`missing
    ensures sub.Valid() && Restricted(graph.nodes, graph.edges, sub.nodes, sub.edges, sub.missing, seen + {cur})
    ensures queue <= more && SetOf(more) == SetOf(queue) + Deps(graph.edges, cur)
  {
    RestrictedGrows(graph.nodes, graph.edges, sub.nodes, sub.edges, sub.missing, seen, cur);
    CopyNode(graph, sub, cur);
    more := CopyEdges(sub, cur, Deps(graph.edges, cur), queue);
  }

  /** all(stem in seen for stem in c[:-1]) */
  predicate Inside(c: seq<Stem>, seen: set<Stem>) { forall i :: 0 <= i < |c| - 1 ==> c[i] in seen }

  function KeepInside(cycles: seq<seq<Stem>>, seen: set<Stem>): seq<seq<Stem>> {
    if cycles == [] then []
    else (if Inside(cycles[0], seen) then [cycles[0]] else []) + KeepInside(cycles[1..], seen)
  }

  lemma {:induction false} KeptMembers(cycles: seq<seq<Stem>>, seen: set<Stem>, c: seq<Stem>)
    ensures c in KeepInside(cycles, seen) <==> c in cycles && Inside(c, seen)
  {
    if cycles != [] {
      KeptMembers(cycles[1..], seen, c);
      assert c in cycles <==> c == cycles[0] || c in cycles[1..];
    }
  }

  /** restrict_to_root. A root the graph does not know yields nothing but its placeholder. Otherwise
      the result is the graph restricted to exactly what the root reaches. */
  method RestrictToRoot(graph: Graph, root: Stem) returns (sub: Graph, ghost seen: set<Stem>)
    requires graph.Valid()
    ensures fresh(sub) && sub.Valid()
    ensures root !in graph.nodes ==>
              && sub.nodes == map[root := Node(root, MISSING_STATUS, None)] && sub.edges == map[root := {}]
              && sub.missing == {root} && sub.cycles == []
    ensures root in graph.nodes ==>
              && Reach(graph.edges, {root}, seen)
              && Restricted(graph.nodes, graph.edges, sub.nodes, sub.edges, sub.missing, seen)
              && sub.cycles == KeepInside(graph.cycles, seen)
  {
    sub := new Graph();
    if root !in graph.nodes {
      sub.EnsureNode(root, MISSING_STATUS, None);
      sub.missing := sub.missing + {root};
      return sub, {root};
    }
    var queue, visited := [root], {};
    while queue != []
      invariant fresh(sub) && graph != sub && sub.Valid() && sub.cycles == []
      invariant Restricted(graph.nodes, graph.edges, sub.nodes, sub.edges, sub.missing, visited)
      invariant Frontier(graph.edges, root, queue, visited)
      decreases Universe(graph.edges, root) - visited, |queue|
    {
      InUniverse(graph.edges, root, queue, visited);
      var cur, rest := queue[|queue| - 1], queue[..|queue| - 1];
      assert queue == rest + [cur] && cur in SetOf(queue);
      queue := rest;
      if cur in visited {
        FrontierSkips(graph.edges, root, rest, visited, cur);
      } else {
        queue := CopyStem(graph, sub, cur, rest, visited);
        FrontierAdvances(graph.edges, root, rest, visited, cur, queue);
        visited := visited + {cur};
      }
    }
    FrontierDone(graph.edges, root, visited);
    sub.cycles := KeepInside(graph.cycles, visited);
    seen := visited;
  }

  /** What a root reaches is what the walks from it lead to. */
  lemma ReachedByWalks(e: Edges, root: Stem, s: set<Stem>, x: Stem)
    requires Reach(e, {root}, s)
    ensures x in s <==> exists p :: WalkTo(e, root, p, x)
  {
    var u := set y | y in s && exists p :: WalkTo(e, root, p, y);
    assert WalkTo(e, root, [root], root);
    forall a, b | a in u && b in Deps(e, a) ensures b in u {
      var p :| WalkTo(e, root, p, a);
      assert WalkTo(e, root, p + [b], b);
    }
    assert Closed(e, u);
    if p :| WalkTo(e, root, p, x) { WalkStaysInside(e, s, p, 0, |p| - 1); }
  }

  ghost predicate WalkTo(e: Edges, from: Stem, p: seq<Stem>, to: Stem) {
    Walk(e, p) && p[0] == from && p[|p| - 1] == to
  }

  lemma RestrictedWalks(e: Edges, sub: Edges, seen: set<Stem>, p: seq<Stem>)
    requires Closed(e, seen) && sub.Keys == seen && forall s :: s in seen ==> sub[s] == Deps(e, s)
    ensures ClosedWalk(sub, p) <==> ClosedWalk(e, p) && p[0] in seen
  {
    if ClosedWalk(sub, p) {
      assert p[1] in Deps(sub, p[0]);
      forall i | 0 <= i < |p| - 1 ensures p[i + 1] in Deps(e, p[i]) { assert p[i + 1] in Deps(sub, p[i]); }
    }
    if ClosedWalk(e, p) && p[0] in seen { ClosedWalkStaysInside(e, seen, p, 0); }
  }

  /** Only the whole graph was searched, yet the restricted graph's cycle list is right: it keeps
      exactly the reported cycles that touch the root's part, and is empty exactly when that part is
      acyclic. `reached` and the first three hypotheses are what DetectCycles ensures. */
  lemma RestrictedCyclesDecide(nodes: set<Stem>, e: Edges, cycles: seq<seq<Stem>>, reached: set<Stem>,
                               root: Stem, seen: set<Stem>, sub: Edges)
    requires forall c :: c in cycles ==> Cycle(e, c)
    requires Reach(e, nodes, reached)
    requires forall s :: s <= reached && Closed(e, s) ==> Verdict(e, cycles, s)
    requires root in nodes && Reach(e, {root}, seen)
    requires sub.Keys == seen && forall s :: s in seen ==> sub[s] == Deps(e, s)
    ensures forall c :: c in KeepInside(cycles, seen) <==> c in cycles && SetOf(c) * seen != {}
    ensures KeepInside(cycles, seen) == [] <==> !exists p :: ClosedWalk(sub, p)
  {
    var kept := KeepInside(cycles, seen);
    forall c ensures c in kept <==> c in cycles && SetOf(c) * seen != {} {
      KeptMembers(cycles, seen, c);
      if c in cycles { TouchesOrInside(e, seen, c); }
    }
    assert Verdict(e, cycles, seen);
    if kept != [] {
      var c := kept[0];
      assert c in kept;
      var x :| x in SetOf(c) * seen;
      assert OnCycle(cycles, x);
      var p :| ClosedWalk(e, p) && p[0] in seen;
      RestrictedWalks(e, sub, seen, p);
    }
    if p :| ClosedWalk(sub, p) {
      RestrictedWalks(e, sub, seen, p);
      var x :| x in seen && OnCycle(cycles, x);
      var c :| c in cycles && x in c;
      assert x in SetOf(c) * seen;
    }
  }

  lemma TouchesOrInside(e: Edges, seen: set<Stem>, c: seq<Stem>)
    requires Closed(e, seen) && Cycle(e, c)
    ensures Inside(c, seen) <==> SetOf(c) * seen != {}
  {
    if Inside(c, seen) { assert c[0] in SetOf(c) * seen; }
    if x :| x in SetOf(c) * seen {
      var i :| 0 <= i < |c| && c[i] == x;
      ClosedWalkStaysInside(e, seen, c, i);
    }
  }
}
