/**
 * The distance oracle: shortest directed path costs over a weighted room graph.
 *
 * A graph maps each room to its neighbours and the (non-negative) cost of the
 * corridor or secret passage leading there. A distance is either a finite cost
 * or `Inf`, the sentinel for a room that cannot be reached at all.
 */
module Distances {

  type Graph = map<string, map<string, nat>>

  datatype Dist = Fin(n: nat) | Inf

  /** `d <= c`: the infinite distance exceeds every budget. */
  predicate AtMost(d: Dist, c: int) {
    d.Fin? && d.n <= c
  }

  /** `a <= b` on distances, with `Inf` the largest. */
  predicate DistLe(a: Dist, b: Dist) {
    b.Inf? || (a.Fin? && a.n <= b.n)
  }

  /** `a < b` on distances, with `Inf` the largest. */
  predicate DistLess(a: Dist, b: Dist) {
    a.Fin? && (b.Inf? || a.n < b.n)
  }

  /** The neighbours of `u`, empty for a room the graph does not list. */
  function Neighbors(g: Graph, u: string): map<string, nat> {
    if u in g then g[u] else map[]
  }

  function RoomSet(rooms: seq<string>): set<string> {
    set r | r in rooms
  }

  /** Every neighbour named in the graph is one of the rooms. */
  ghost predicate ClosedOver(g: Graph, vs: set<string>) {
    forall u, v :: u in g && v in g[u] ==> v in vs
  }

  /** A non-empty walk that follows only edges of `g`. */
  ghost predicate IsPath(g: Graph, p: seq<string>) {
    |p| > 0 && forall k :: 0 <= k < |p| - 1 ==> p[k + 1] in Neighbors(g, p[k])
  }

  ghost predicate IsPathFrom(g: Graph, p: seq<string>, a: string, b: string) {
    IsPath(g, p) && p[0] == a && p[|p| - 1] == b
  }

  /** The total weight of the edges along `p`. */
  ghost function PathCost(g: Graph, p: seq<string>): nat
    requires IsPath(g, p)
    decreases |p|
  {
    if |p| == 1 then 0
    else
      var q := p[..|p| - 1];
      assert IsPath(g, q);
      PathCost(g, q) + Neighbors(g, p[|p| - 2])[p[|p| - 1]]
  }

  /** `d` is the minimum cost of a path from `a` to `b`; `Inf` exactly when there is no path. */
  ghost predicate IsShortest(g: Graph, a: string, b: string, d: Dist) {
    (forall p :: IsPathFrom(g, p, a, b) ==> AtMost(d, PathCost(g, p))) &&
    (d.Fin? ==> exists p :: IsPathFrom(g, p, a, b) && PathCost(g, p) == d.n)
  }

  /** A table with one row per room, each row listing every room. */
  ghost predicate TableOver(rooms: seq<string>, table: map<string, map<string, Dist>>) {
    (forall a :: a in table <==> a in rooms) &&
    (forall a, b :: a in table ==> (b in table[a] <==> b in rooms))
  }

  /** A table holding, for every ordered pair of rooms, its shortest distance. */
  ghost predicate IsDistanceTable(g: Graph, rooms: seq<string>, table: map<string, map<string, Dist>>) {
    TableOver(rooms, table) &&
    forall a, b :: a in table && b in table[a] ==> IsShortest(g, a, b, table[a][b])
  }

  // ---------------------------------------------------------------------------
  // Paths

  lemma {:induction false} PrefixPath(g: Graph, p: seq<string>, i: nat)
    requires IsPath(g, p) && 0 < i <= |p|
    ensures IsPath(g, p[..i]) && PathCost(g, p[..i]) <= PathCost(g, p)
    decreases |p| - i
  {
    if i == |p| {
      assert p[..i] == p;
    } else {
      var q := p[..|p| - 1];
      assert IsPath(g, q);
      PrefixPath(g, q, i);
      assert q[..i] == p[..i];
    }
  }

  lemma ExtendPath(g: Graph, p: seq<string>, v: string)
    requires IsPath(g, p) && v in Neighbors(g, p[|p| - 1])
    ensures IsPath(g, p + [v])
    ensures PathCost(g, p + [v]) == PathCost(g, p) + Neighbors(g, p[|p| - 1])[v]
  {
    var q := p + [v];
    assert q[..|q| - 1] == p;
  }

  /** Any non-empty stretch of a walk is a walk. */
  lemma SlicePath(g: Graph, p: seq<string>, i: nat, j: nat)
    requires IsPath(g, p) && i < j <= |p|
    ensures IsPath(g, p[i..j])
  {
  }

  /** Joining a path from `a` to `b` with one from `b` to `c` adds their costs. */
  lemma {:induction false} JoinPaths(g: Graph, p: seq<string>, q: seq<string>)
    requires IsPath(g, p) && IsPath(g, q) && p[|p| - 1] == q[0]
    ensures IsPath(g, p + q[1..])
    ensures PathCost(g, p + q[1..]) == PathCost(g, p) + PathCost(g, q)
    decreases |q|
  {
    if |q| == 1 {
      assert p + q[1..] == p;
    } else {
      var q' := q[..|q| - 1];
      assert IsPath(g, q');
      JoinPaths(g, p, q');
      var r := p + q'[1..];
      assert p + q[1..] == r + [q[|q| - 1]];
      assert r[|r| - 1] == q[|q| - 2];
      ExtendPath(g, r, q[|q| - 1]);
    }
  }

  /** On a closed walk, every place on it reaches every other, going round once if need be. */
  lemma CycleConnects(g: Graph, lap: seq<string>, i: nat, j: nat)
    requires IsPath(g, lap) && lap[0] == lap[|lap| - 1] && i < |lap| && j < |lap|
    ensures exists p :: IsPathFrom(g, p, lap[i], lap[j])
  {
    var p;
    if i <= j {
      SlicePath(g, lap, i, j + 1);
      p := lap[i..j + 1];
      assert p[|p| - 1] == lap[j];
    } else {
      SlicePath(g, lap, i, |lap|);
      SlicePath(g, lap, 0, j + 1);
      var back, on := lap[i..], lap[..j + 1];
      assert back[|back| - 1] == on[0];
      JoinPaths(g, back, on);
      p := back + on[1..];
      assert p[|p| - 1] == lap[j] by {
        if j == 0 {
          assert p == back;
        } else {
          assert p[|p| - 1] == on[j];
        }
      }
    }
    assert IsPathFrom(g, p, lap[i], lap[j]);
  }

  // ---------------------------------------------------------------------------
  // Properties of shortest distances

  lemma ShortestUnique(g: Graph, a: string, b: string, d1: Dist, d2: Dist)
    requires IsShortest(g, a, b, d1) && IsShortest(g, a, b, d2)
    ensures d1 == d2
  {
    if d1.Fin? {
      var p :| IsPathFrom(g, p, a, b) && PathCost(g, p) == d1.n;
      assert AtMost(d2, PathCost(g, p));
    }
    if d2.Fin? {
      var p :| IsPathFrom(g, p, a, b) && PathCost(g, p) == d2.n;
      assert AtMost(d1, PathCost(g, p));
    }
  }

  /** The distance from a room to itself is zero. */
  lemma ShortestToSelf(g: Graph, a: string, d: Dist)
    requires IsShortest(g, a, a, d)
    ensures d == Fin(0)
  {
    assert IsPathFrom(g, [a], a, a);
  }

  /** A single edge bounds the distance between its ends. */
  lemma ShortestAtMostEdge(g: Graph, a: string, b: string, d: Dist)
    requires IsShortest(g, a, b, d) && b in Neighbors(g, a)
    ensures AtMost(d, Neighbors(g, a)[b])
  {
    var p := [a, b];
    assert IsPath(g, [a]);
    ExtendPath(g, [a], b);
    assert IsPathFrom(g, p, a, b);
  }

  /** The triangle inequality. */
  lemma Triangle(g: Graph, a: string, b: string, c: string, dab: Dist, dbc: Dist, dac: Dist)
    requires IsShortest(g, a, b, dab) && IsShortest(g, b, c, dbc) && IsShortest(g, a, c, dac)
    requires dab.Fin? && dbc.Fin?
    ensures AtMost(dac, dab.n + dbc.n)
  {
    var p :| IsPathFrom(g, p, a, b) && PathCost(g, p) == dab.n;
    var q :| IsPathFrom(g, q, b, c) && PathCost(g, q) == dbc.n;
    JoinPaths(g, p, q);
    assert IsPathFrom(g, p + q[1..], a, c);
  }

  /**
   * A potential that no edge decreases by more than its weight gives a lower
   * bound on the cost of every path; used to show that a distance is minimal.
   */
  ghost predicate Feasible(g: Graph, pot: map<string, int>) {
    (forall u :: u in g ==> u in pot) &&
    (forall u, v :: u in g && v in g[u] ==> v in pot && pot[v] <= pot[u] + g[u][v])
  }

  lemma {:induction false} PotentialBound(g: Graph, pot: map<string, int>, p: seq<string>)
    requires Feasible(g, pot) && IsPath(g, p) && p[0] in pot
    ensures p[|p| - 1] in pot && pot[p[|p| - 1]] - pot[p[0]] <= PathCost(g, p)
    decreases |p|
  {
    if |p| > 1 {
      var q := p[..|p| - 1];
      assert IsPath(g, q);
      PotentialBound(g, pot, q);
      assert p[|p| - 1] in Neighbors(g, p[|p| - 2]);
    }
  }

  /** A path of cost `n` from `a` to `b` together with a feasible potential rising by `n` fixes the distance. */
  lemma ShortestByPotential(g: Graph, pot: map<string, int>, p: seq<string>, a: string, b: string, n: nat)
    requires Feasible(g, pot) && a in pot && b in pot && pot[b] - pot[a] == n
    requires IsPathFrom(g, p, a, b) && PathCost(g, p) == n
    ensures IsShortest(g, a, b, Fin(n))
  {
    forall q | IsPathFrom(g, q, a, b) ensures AtMost(Fin(n), PathCost(g, q)) {
      PotentialBound(g, pot, q);
    }
  }

  // ---------------------------------------------------------------------------
  // Dijkstra's algorithm from one start room

  /** Every finite tentative distance is the cost of a recorded path. */
  ghost predicate Witnessed(g: Graph, start: string, dist: map<string, Dist>, paths: map<string, seq<string>>) {
    forall v :: v in dist && dist[v].Fin? ==>
      v in paths && IsPathFrom(g, paths[v], start, v) && PathCost(g, paths[v]) == dist[v].n
  }

  /** The distances of settled rooms are lower bounds on every path to them. */
  ghost predicate SettledOptimal(g: Graph, start: string, dist: map<string, Dist>, settled: set<string>) {
    forall u, p :: u in settled && u in dist && IsPathFrom(g, p, start, u) ==> AtMost(dist[u], PathCost(g, p))
  }

  /** The edges out of settled rooms have been relaxed. */
  ghost predicate Relaxed(g: Graph, dist: map<string, Dist>, settled: set<string>) {
    forall u, v :: u in settled && u in dist && v in Neighbors(g, u) && dist[u].Fin? ==>
      v in dist && AtMost(dist[v], dist[u].n + Neighbors(g, u)[v])
  }

  /** Settled rooms are no farther than any unsettled one. */
  ghost predicate SettledFirst(dist: map<string, Dist>, settled: set<string>, vs: set<string>) {
    forall u, v :: u in settled && v in vs && v !in settled && u in dist && v in dist ==> DistLe(dist[u], dist[v])
  }

  /** An unsettled room `u` of least tentative distance. */
  method ExtractMin(rooms: seq<string>, dist: map<string, Dist>, settled: set<string>) returns (u: string)
    requires forall r :: r in rooms ==> r in dist
    requires exists r :: r in rooms && r !in settled
    ensures u in rooms && u !in settled
    ensures forall r :: r in rooms && r !in settled ==> DistLe(dist[u], dist[r])
  {
    var found := false;
    u := "";
    var i := 0;
    while i < |rooms|
      invariant 0 <= i <= |rooms|
      invariant found ==> u in rooms && u !in settled
      invariant found ==> forall k :: 0 <= k < i && rooms[k] !in settled ==> DistLe(dist[u], dist[rooms[k]])
      invariant !found ==> forall k :: 0 <= k < i ==> rooms[k] in settled
    {
      var r := rooms[i];
      if r !in settled && (!found || DistLess(dist[r], dist[u])) {
        u, found := r, true;
      }
      i := i + 1;
    }
  }

  /**
   * Every walk from `start` that ends outside the settled set costs at least
   * the least tentative distance among unsettled rooms.
   */
  lemma {:induction false} LeavesSettled(g: Graph, vs: set<string>, start: string, dist: map<string, Dist>,
                                         settled: set<string>, u: string, p: seq<string>)
    requires ClosedOver(g, vs) && start in vs && dist.Keys == vs && settled <= vs && dist[start] == Fin(0)
    requires SettledOptimal(g, start, dist, settled) && Relaxed(g, dist, settled)
    requires u in vs && u !in settled
    requires forall y :: y in vs && y !in settled ==> DistLe(dist[u], dist[y])
    requires IsPath(g, p) && p[0] == start && p[|p| - 1] in vs && p[|p| - 1] !in settled
    ensures AtMost(dist[u], PathCost(g, p))
    decreases |p|
  {
    if |p| > 1 {
      var q := p[..|p| - 1];
      var x, y := p[|p| - 2], p[|p| - 1];
      PrefixPath(g, p, |p| - 1);
      assert q[|q| - 1] == x;
      if |p| > 2 {
        assert x in Neighbors(g, p[|p| - 3]);
      }
      assert x in vs;
      assert y in Neighbors(g, x);
      if x in settled {
        assert IsPathFrom(g, q, start, x);
        assert AtMost(dist[x], PathCost(g, q));
      } else {
        LeavesSettled(g, vs, start, dist, settled, u, q);
      }
    }
  }

  /** The least unsettled distance cannot be improved: settling `u` is safe. */
  lemma SettleMin(g: Graph, vs: set<string>, start: string, dist: map<string, Dist>, settled: set<string>, u: string)
    requires ClosedOver(g, vs) && start in vs && dist.Keys == vs && settled <= vs && dist[start] == Fin(0)
    requires SettledOptimal(g, start, dist, settled) && Relaxed(g, dist, settled)
    requires u in vs && u !in settled
    requires forall y :: y in vs && y !in settled ==> DistLe(dist[u], dist[y])
    ensures SettledOptimal(g, start, dist, settled + {u})
  {
    forall p | IsPathFrom(g, p, start, u) ensures AtMost(dist[u], PathCost(g, p)) {
      LeavesSettled(g, vs, start, dist, settled, u, p);
    }
  }

  /** The loop invariant of one Dijkstra pass from `start`. */
  ghost predicate PassInvariant(g: Graph, vs: set<string>, start: string, dist: map<string, Dist>,
                                paths: map<string, seq<string>>, settled: set<string>) {
    settled <= vs && dist.Keys == vs && start in vs && dist[start] == Fin(0) &&
    Witnessed(g, start, dist, paths) &&
    SettledOptimal(g, start, dist, settled) &&
    Relaxed(g, dist, settled) &&
    SettledFirst(dist, settled, vs)
  }

  /**
   * Settles `u`, the least unsettled room, and relaxes every edge out of it.
   * The source skips a queue entry whose distance is stale; an unreachable
   * room is never taken from its queue, so its edges are not relaxed here either.
   */
  method SettleAndRelax(g: Graph, vs: set<string>, start: string, dist: map<string, Dist>,
                        ghost paths: map<string, seq<string>>, settled: set<string>, u: string)
    returns (dist': map<string, Dist>, ghost paths': map<string, seq<string>>)
    requires ClosedOver(g, vs) && PassInvariant(g, vs, start, dist, paths, settled)
    requires u in vs && u !in settled
    requires forall y :: y in vs && y !in settled ==> DistLe(dist[u], dist[y])
    ensures PassInvariant(g, vs, start, dist', paths', settled + {u})
  {
    SettleMin(g, vs, start, dist, settled, u);
    dist', paths' := dist, paths;
    if dist[u].Fin? {
      dist', paths' := RelaxEdges(g, vs, start, dist, paths, settled, u);
      RelaxedAfter(g, vs, dist, dist', settled, u);
    }
    SettledOptimalKept(g, start, dist, dist', settled + {u});
  }

  /**
   * The invariant of the relaxation loop: `cur` is `dist` with some entries
   * lowered through `u`, and the neighbours no longer in `todo` are relaxed.
   */
  ghost predicate RelaxInvariant(g: Graph, vs: set<string>, start: string, dist: map<string, Dist>,
                                 cur: map<string, Dist>, paths: map<string, seq<string>>,
                                 settled: set<string>, u: string, todo: set<string>)
    requires u in dist && dist[u].Fin?
  {
    todo <= Neighbors(g, u).Keys &&
    cur.Keys == vs && start in vs && cur[start] == Fin(0) && u in vs && cur[u] == dist[u] &&
    (forall x :: x in settled ==> x in cur && x in dist && cur[x] == dist[x]) &&
    (forall x :: x in vs ==> x in dist && DistLe(cur[x], dist[x])) &&
    (forall y :: y in vs && y !in settled ==> DistLe(dist[u], cur[y])) &&
    (forall v :: v in Neighbors(g, u) && v !in todo ==> v in cur && AtMost(cur[v], dist[u].n + Neighbors(g, u)[v])) &&
    Witnessed(g, start, cur, paths)
  }

  /** The `for v, weight in neighbors.items()` loop: lower each neighbour's distance through `u`. */
  method RelaxEdges(g: Graph, vs: set<string>, start: string, dist: map<string, Dist>,
                    ghost paths: map<string, seq<string>>, settled: set<string>, u: string)
    returns (dist': map<string, Dist>, ghost paths': map<string, seq<string>>)
    requires ClosedOver(g, vs) && dist.Keys == vs && start in vs && dist[start] == Fin(0)
    requires Witnessed(g, start, dist, paths)
    requires u in vs && u !in settled && dist[u].Fin? && settled <= vs
    requires forall x :: x in settled ==> DistLe(dist[x], dist[u])
    requires forall y :: y in vs && y !in settled ==> DistLe(dist[u], dist[y])
    ensures dist'.Keys == vs && dist'[start] == Fin(0) && dist'[u] == dist[u]
    ensures forall x :: x in settled ==> dist'[x] == dist[x]
    ensures forall x :: x in vs ==> DistLe(dist'[x], dist[x])
    ensures forall y :: y in vs && y !in settled ==> DistLe(dist[u], dist'[y])
    ensures forall v :: v in Neighbors(g, u) ==> AtMost(dist'[v], dist[u].n + Neighbors(g, u)[v])
    ensures Witnessed(g, start, dist', paths')
  {
    dist', paths' := dist, paths;
    var du := dist[u].n;
    var neighbors := Neighbors(g, u);
    var todo := neighbors.Keys;
    while todo != {}
      invariant RelaxInvariant(g, vs, start, dist, dist', paths', settled, u, todo)
      decreases todo
    {
      var v :| v in todo;
      var distance := du + neighbors[v];
      if DistLess(Fin(distance), dist'[v]) {
        RelaxLowers(g, vs, start, dist, dist', paths', settled, u, todo, v);
        paths' := paths'[v := paths'[u] + [v]];
        dist' := dist'[v := Fin(distance)];
      } else {
        RelaxKeeps(g, vs, start, dist, dist', paths', settled, u, todo, v);
      }
      todo := todo - {v};
    }
  }

  /** A neighbour already at least as close keeps the relaxation invariant. */
  lemma RelaxKeeps(g: Graph, vs: set<string>, start: string, dist: map<string, Dist>,
                   cur: map<string, Dist>, paths: map<string, seq<string>>,
                   settled: set<string>, u: string, todo: set<string>, v: string)
    requires ClosedOver(g, vs) && u in dist && dist[u].Fin?
    requires RelaxInvariant(g, vs, start, dist, cur, paths, settled, u, todo)
    requires v in todo && !DistLess(Fin(dist[u].n + Neighbors(g, u)[v]), cur[v])
    ensures RelaxInvariant(g, vs, start, dist, cur, paths, settled, u, todo - {v})
  {
  }

  /** Lowering neighbour `v` to the distance through `u` keeps the relaxation invariant. */
  lemma RelaxLowers(g: Graph, vs: set<string>, start: string, dist: map<string, Dist>,
                    cur: map<string, Dist>, paths: map<string, seq<string>>,
                    settled: set<string>, u: string, todo: set<string>, v: string)
    requires ClosedOver(g, vs) && u in dist && dist[u].Fin? && u !in settled
    requires RelaxInvariant(g, vs, start, dist, cur, paths, settled, u, todo)
    requires forall x :: x in settled ==> DistLe(dist[x], dist[u])
    requires v in todo && DistLess(Fin(dist[u].n + Neighbors(g, u)[v]), cur[v])
    ensures RelaxInvariant(g, vs, start, dist, cur[v := Fin(dist[u].n + Neighbors(g, u)[v])],
                           paths[v := paths[u] + [v]], settled, u, todo - {v})
  {
    WitnessedUpdate(g, start, cur, paths, u, v);
  }

  lemma WitnessedUpdate(g: Graph, start: string, dist: map<string, Dist>, paths: map<string, seq<string>>,
                        u: string, v: string)
    requires Witnessed(g, start, dist, paths)
    requires u in dist && dist[u].Fin? && v in dist && v in Neighbors(g, u)
    ensures Witnessed(g, start, dist[v := Fin(dist[u].n + Neighbors(g, u)[v])], paths[v := paths[u] + [v]])
  {
    ExtendPath(g, paths[u], v);
  }

  lemma SettledOptimalKept(g: Graph, start: string, dist: map<string, Dist>, dist': map<string, Dist>,
                           settled: set<string>)
    requires SettledOptimal(g, start, dist, settled)
    requires forall x :: x in settled ==> x in dist && x in dist' && dist'[x] == dist[x]
    ensures SettledOptimal(g, start, dist', settled)
  {
  }

  lemma RelaxedAfter(g: Graph, vs: set<string>, dist: map<string, Dist>, dist': map<string, Dist>,
                     settled: set<string>, u: string)
    requires ClosedOver(g, vs) && dist.Keys == vs && dist'.Keys == vs && settled <= vs
    requires u in vs && u !in settled && dist[u].Fin? && dist'[u] == dist[u]
    requires Relaxed(g, dist, settled) && SettledFirst(dist, settled, vs)
    requires forall y :: y in vs && y !in settled ==> DistLe(dist[u], dist[y])
    requires forall x :: x in settled ==> dist'[x] == dist[x]
    requires forall x :: x in vs ==> DistLe(dist'[x], dist[x])
    requires forall y :: y in vs && y !in settled ==> DistLe(dist[u], dist'[y])
    requires forall v :: v in Neighbors(g, u) ==> AtMost(dist'[v], dist[u].n + Neighbors(g, u)[v])
    ensures Relaxed(g, dist', settled + {u})
    ensures SettledFirst(dist', settled + {u}, vs)
  {
  }

  /**
   * Shortest distances from `start` to every room: one pass of the source's
   * per-room Dijkstra, with the priority queue replaced by a scan for the
   * least unsettled room.
   */
  method ShortestFrom(g: Graph, rooms: seq<string>, start: string) returns (dist: map<string, Dist>)
    requires start in rooms && ClosedOver(g, RoomSet(rooms))
    ensures dist.Keys == RoomSet(rooms)
    ensures forall v :: v in dist ==> IsShortest(g, start, v, dist[v])
  {
    var vs := RoomSet(rooms);
    dist := map r | r in vs :: Inf;
    dist := dist[start := Fin(0)];
    var settled: set<string> := {};
    ghost var paths: map<string, seq<string>> := map[start := [start]];
    assert IsPathFrom(g, [start], start, start);
    while settled != vs
      invariant PassInvariant(g, vs, start, dist, paths, settled)
      decreases vs - settled
    {
      assert exists r :: r in rooms && r !in settled;
      var u := ExtractMin(rooms, dist, settled);
      dist, paths := SettleAndRelax(g, vs, start, dist, paths, settled, u);
      settled := settled + {u};
    }
    forall v | v in dist ensures IsShortest(g, start, v, dist[v]) {
      if dist[v].Fin? {
        assert IsPathFrom(g, paths[v], start, v);
      }
    }
  }

  /** The distance table of every room to every room, as built once when the engine is created. */
  method ComputeAllDistances(g: Graph, rooms: seq<string>) returns (table: map<string, map<string, Dist>>)
    requires ClosedOver(g, RoomSet(rooms))
    ensures IsDistanceTable(g, rooms, table)
  {
    var vs := RoomSet(rooms);
    table := map r | r in vs :: map r2 | r2 in vs :: Inf;
    ghost var done: set<string> := {};
    for i := 0 to |rooms|
      invariant table.Keys == vs && done == set k | 0 <= k < i :: rooms[k]
      invariant forall a :: a in table ==> table[a].Keys == vs
      invariant forall a :: a in done ==> forall b :: b in table[a] ==> IsShortest(g, a, b, table[a][b])
    {
      var row := ShortestFrom(g, rooms, rooms[i]);
      table := table[rooms[i] := row];
      done := done + {rooms[i]};
    }
  }
}
