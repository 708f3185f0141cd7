/** Greedy descent and the beam search of the HNSW index.

    `f` gives every item its score for one query under one kernel, as `DotItem` does. */
module HnswSearch {
  import opened Basics
  import opened Neighbors
  import opened HnswGraphs
  import opened VisitedSets

  /** Copy the links of a node into a stack buffer. */
  method CopyLinks(g: Graph, i: nat, lay: nat) returns (local: seq<nat>)
    requires Shape(g) && OnLayer(g, i, lay) && |Links(g, i, lay)| <= BUFFER
    ensures local == Links(g, i, lay)
  {
    var buffer := new nat[BUFFER];
    var deg := if DegAt(g, i, lay) <= Cap(g, lay) then DegAt(g, i, lay) else Cap(g, lay);
    var row := Row(g, i, lay);
    var j := 0;
    while j < deg
      invariant 0 <= j <= deg && buffer[..j] == row[..j]
    {
      buffer[j] := row[j];
      j := j + 1;
    }
    local := buffer[..deg];
  }

  // ------------------------------------------------------------ greedy descent --

  ghost function Better(f: nat -> real, n: nat, s: real): set<nat> {
    set x | x in Range(n) && f(x) > s
  }

  /** No neighbour on the layer scores better. */
  ghost predicate LocalBest(g: Graph, f: nat -> real, x: nat, lay: nat)
    requires Shape(g)
  {
    OnLayer(g, x, lay) && forall j :: 0 <= j < |Links(g, x, lay)| ==> f(Links(g, x, lay)[j]) <= f(x)
  }

  /** `y` is the first of the best neighbours of `x`, and better than `x`. */
  ghost predicate Climbs(g: Graph, f: nat -> real, lay: nat, x: nat, y: nat)
    requires Shape(g)
  {
    OnLayer(g, x, lay) && exists j :: FirstBest(f, Links(g, x, lay), j, f(x)) && Links(g, x, lay)[j] == y
  }

  ghost predicate FirstBest(f: nat -> real, ids: seq<nat>, j: int, bar: real) {
    && 0 <= j < |ids| && f(ids[j]) > bar
    && (forall t :: 0 <= t < |ids| ==> f(ids[t]) <= f(ids[j])) && forall t :: 0 <= t < j ==> f(ids[t]) < f(ids[j])
  }

  /** A walk that always climbs. */
  ghost predicate Climb(g: Graph, f: nat -> real, lay: nat, p: seq<nat>)
    requires Shape(g)
  {
    forall i :: 0 < i < |p| ==> Climbs(g, f, lay, p[Prior(i)], p[i])
  }

  ghost function Prior(i: nat): nat
    requires i > 0
  {
    i - 1
  }

  /** The steepest ascent from `x` ends at `y`. */
  ghost predicate Climbed(g: Graph, f: nat -> real, lay: nat, x: nat, y: nat)
    requires Shape(g)
  {
    LocalBest(g, f, y, lay) && exists p :: Climb(g, f, lay, p) && p != [] && p[0] == x && p[|p| - 1] == y
  }

  lemma ClimbMore(g: Graph, f: nat -> real, lay: nat, p: seq<nat>, y: nat)
    requires Shape(g) && Climb(g, f, lay, p) && p != [] && Climbs(g, f, lay, p[|p| - 1], y)
    ensures Climb(g, f, lay, p + [y])
  {
    var q := p + [y];
    forall i | 0 < i < |q| ensures Climbs(g, f, lay, q[Prior(i)], q[i]) {
      if i < |p| { assert q[i] == p[i] && q[Prior(i)] == p[Prior(i)]; }
    }
  }

  /** The first `n` ids are all in order with the pick so far. */
  ghost predicate BestSoFar(f: nat -> real, ids: seq<nat>, n: nat, bar: real, moved: bool, at: nat) {
    && n <= |ids|
    && if moved then FirstBest(f, ids[..n], at, bar) else forall t :: 0 <= t < n ==> f(ids[t]) <= bar
  }

  lemma BestSoFarNext(f: nat -> real, ids: seq<nat>, n: nat, bar: real, moved: bool, at: nat)
    requires BestSoFar(f, ids, n, bar, moved, at) && n < |ids|
    ensures f(ids[n]) > (if moved then f(ids[at]) else bar) ==> BestSoFar(f, ids, n + 1, bar, true, n)
    ensures f(ids[n]) <= (if moved then f(ids[at]) else bar) ==> BestSoFar(f, ids, n + 1, bar, moved, at)
  {
    assert ids[..n + 1] == ids[..n] + [ids[n]];
    assert moved ==> ids[..n][at] == ids[at];
  }

  /** One look at all neighbours of `at`: the first of the best ones, if any improves. */
  method BestNeighbor(g: Graph, f: nat -> real, at: nat, lay: nat) returns (cur: nat, curS: real, moved: bool)
    requires Searchable(g) && OnLayer(g, at, lay)
    ensures OnLayer(g, cur, lay) && curS == f(cur)
    ensures moved ==> curS > f(at) && Edge(g, lay, g.n, at, cur) && Climbs(g, f, lay, at, cur)
    ensures !moved ==> cur == at && LocalBest(g, f, at, lay)
  {
    var local := CopyLinks(g, at, lay);
    ghost var pick;
    cur, curS, moved, pick := BestOfList(f, local, at);
    if moved { assert OnLayer(g, local[pick], lay) && Edge(g, lay, g.n, at, cur); }
  }

  /** The scan of the copied list. */
  method BestOfList(f: nat -> real, local: seq<nat>, at: nat)
    returns (cur: nat, curS: real, moved: bool, ghost pick: nat)
    ensures curS == f(cur) && (!moved ==> cur == at && forall t :: 0 <= t < |local| ==> f(local[t]) <= f(at))
    ensures moved ==> FirstBest(f, local, pick, f(at)) && local[pick] == cur
  {
    cur, curS, moved, pick := at, f(at), false, 0;
    for j := 0 to |local|
      invariant curS == f(cur) && (if moved then pick < j && cur == local[pick] else cur == at)
      invariant BestSoFar(f, local, j, f(at), moved, pick)
    {
      BestSoFarNext(f, local, j, f(at), moved, pick);
      var s := f(local[j]);
      if s > curS { curS, cur, moved, pick := s, local[j], true, j; }
    }
    assert local[..|local|] == local;
  }

  /** The ef = 1 walk on one layer is the steepest ascent. */
  method GreedyDescend(g: Graph, f: nat -> real, start: nat, lay: nat) returns (cur: nat, curS: real)
    requires Searchable(g) && OnLayer(g, start, lay)
    ensures LocalBest(g, f, cur, lay) && curS == f(cur) >= f(start)
    ensures Reach(g, lay, g.n, start, cur) && Climbed(g, f, lay, start, cur)
  {
    cur, curS := start, f(start);
    ReachSelf(g, lay, g.n, start);
    ghost var path := [start];
    var moved := true;
    while moved
      invariant OnLayer(g, cur, lay) && curS == f(cur) >= f(start) && Reach(g, lay, g.n, start, cur)
      invariant Climb(g, f, lay, path) && path != [] && path[0] == start && path[|path| - 1] == cur
      invariant !moved ==> LocalBest(g, f, cur, lay)
      decreases Better(f, g.n, curS), moved
    {
      ghost var at := cur;
      cur, curS, moved := BestNeighbor(g, f, cur, lay);
      if moved {
        ReachStep(g, lay, g.n, start, at, cur);
        ClimbMore(g, f, lay, path, cur);
        path := path + [cur];
        assert cur in Better(f, g.n, f(at)) && cur !in Better(f, g.n, curS);
      }
    }
  }

  /** The nodes a descent passes through: one steepest ascent on each layer, from the top down. */
  ghost predicate Trail(g: Graph, f: nat -> real, from: nat, trail: seq<nat>)
    requires Shape(g)
  {
    1 <= |trail| <= from + 1 && forall t :: 0 < t < |trail| ==> Leg(g, f, from, trail, t)
  }

  ghost predicate Leg(g: Graph, f: nat -> real, from: nat, trail: seq<nat>, t: nat)
    requires Shape(g) && 0 < t < |trail| <= from + 1
  {
    Climbed(g, f, Layer(from, t), trail[Prior(t)], trail[t])
  }

  lemma LegKept(g: Graph, f: nat -> real, from: nat, trail: seq<nat>, more: seq<nat>, t: nat)
    requires Shape(g) && 0 < t < |trail| && trail <= more && |more| <= from + 1 && Leg(g, f, from, trail, t)
    ensures Leg(g, f, from, more, t)
  {
  }

  ghost function Layer(from: nat, t: nat): nat
    requires 0 < t <= from
  {
    from + 1 - t
  }

  lemma TrailMore(g: Graph, f: nat -> real, from: nat, trail: seq<nat>, lay: nat, next: nat)
    requires Shape(g) && Trail(g, f, from, trail) && |trail| <= from && lay == from + 1 - |trail|
    requires Climbed(g, f, lay, trail[|trail| - 1], next)
    ensures Trail(g, f, from, trail + [next])
  {
    var more := trail + [next];
    forall t | 0 < t < |more| ensures Leg(g, f, from, more, t) {
      LegMore(g, f, from, trail, more, lay, next, t);
    }
  }

  lemma LegMore(g: Graph, f: nat -> real, from: nat, trail: seq<nat>, more: seq<nat>, lay: nat, next: nat, t: nat)
    requires Shape(g) && 0 < t <= |trail| <= from && lay == from + 1 - |trail| && more == trail + [next]
    requires Trail(g, f, from, trail) && Climbed(g, f, lay, trail[|trail| - 1], next)
    ensures Leg(g, f, from, more, t)
  {
    if t < |trail| {
      assert Leg(g, f, from, trail, t);
      LegKept(g, f, from, trail, more, t);
    } else {
      LegNew(g, f, from, trail, more, lay, next);
    }
  }

  lemma LegNew(g: Graph, f: nat -> real, from: nat, trail: seq<nat>, more: seq<nat>, lay: nat, next: nat)
    requires Shape(g) && 1 <= |trail| <= from && lay == from + 1 - |trail| && more == trail + [next]
    requires Climbed(g, f, lay, trail[|trail| - 1], next)
    ensures Leg(g, f, from, more, |trail|)
  {
    assert more[Prior(|trail|)] == trail[|trail| - 1] && more[|trail|] == next && Layer(from, |trail|) == lay;
  }

  /** A descent from `start` on layer `from` comes out below layer `to + 1` at `x`. */
  ghost predicate Descended(g: Graph, f: nat -> real, start: nat, from: nat, to: nat, x: nat)
    requires Shape(g)
  {
    exists trail :: Trail(g, f, from, trail) && |trail| == from + 1 - Min(from, to) && trail[0] == start &&
                    trail[|trail| - 1] == x
  }

  /** Where the walk is before it enters layer `lay`. */
  ghost predicate Walked(g: Graph, f: nat -> real, start: nat, from: nat, lay: nat, cur: nat, region: set<nat>)
    requires Shape(g)
  {
    && lay <= from && OnLayer(g, cur, lay) && f(cur) >= f(start) && cur in region
    && (if lay < from then LocalBest(g, f, cur, lay + 1) else cur == start)
  }

  /** The region is closed on the layers above `to`. */
  ghost predicate ClosedAbove(g: Graph, region: set<nat>, from: nat, to: nat)
    requires Shape(g)
  {
    forall l: nat :: to < l <= from ==> Closed(g, l, g.n, region)
  }

  /** The walk on one layer. */
  method StepDown(g: Graph, f: nat -> real, cur: nat, lay: nat, ghost start: nat, ghost from: nat, ghost to: nat,
                  ghost region: set<nat>) returns (next: nat)
    requires Searchable(g) && to < lay && ClosedAbove(g, region, from, to)
    requires Walked(g, f, start, from, lay, cur, region)
    ensures Walked(g, f, start, from, lay - 1, next, region) && Climbed(g, f, lay, cur, next)
  {
    var score;
    next, score := GreedyDescend(g, f, cur, lay);
    ClosedReach(g, lay, g.n, region, cur, next);
  }

  /** Walk down the layers from `from` to `to + 1`. The walk never leaves a region that is
      closed on each of these layers. */
  method Descend(g: Graph, f: nat -> real, start: nat, from: nat, to: nat, ghost region: set<nat>) returns (cur: nat)
    requires Searchable(g) && OnLayer(g, start, from) && start in region && ClosedAbove(g, region, from, to)
    ensures Walked(g, f, start, from, Min(from, to), cur, region)
    ensures Descended(g, f, start, from, to, cur)
  {
    cur := start;
    var lay: nat := from;
    ghost var trail := [start];
    while lay >= to + 1
      invariant Walked(g, f, start, from, lay, cur, region) && Min(from, to) <= lay <= from
      invariant Trail(g, f, from, trail) && |trail| == from + 1 - lay && trail[0] == start && trail[|trail| - 1] == cur
    {
      var next := StepDown(g, f, cur, lay, start, from, to, region);
      TrailMore(g, f, from, trail, lay, next);
      trail := trail + [next];
      cur := next;
      lay := lay - 1;
    }
  }

  // --------------------------------------------------------------- beam search --

  /** The nodes marked so far are real nodes of the layer that the entry point reaches. */
  ghost predicate Found(g: Graph, lay: nat, limit: nat, ep: nat, seen: set<nat>)
    requires Shape(g)
  {
    ep in seen && forall x :: x in seen ==> x < limit && OnLayer(g, x, lay) && Reach(g, lay, limit, ep, x)
  }

  /** Every in-limit neighbour of an expanded node has been seen. */
  ghost predicate Expanded(g: Graph, lay: nat, limit: nat, seen: set<nat>, done: set<nat>)
    requires Shape(g)
  {
    forall x, y :: x in done && Edge(g, lay, limit, x, y) ==> y in seen
  }

  ghost predicate Covered(done: set<nat>, cand: seq<Neighbor>, x: nat) {
    x in done || Has(cand, x)
  }

  /** The two queues of the search, with `done` the nodes taken out of the candidate queue. */
  ghost predicate Beam(f: nat -> real, ef: nat, seen: set<nat>, done: set<nat>,
                       cand: seq<Neighbor>, top: seq<Neighbor>) {
    && BestOf(seen, f, ef, top)
    && Distinct(cand) && Scored(cand, f) && Within(cand, seen)
    && (forall i :: 0 <= i < |top| ==> Covered(done, cand, top[i].id))
    && (|seen| <= ef ==> forall x :: x in seen ==> Covered(done, cand, x))
  }

  lemma BeamStart(f: nat -> real, ef: nat, ep: nat)
    requires ef >= 1
    ensures Beam(f, ef, {ep}, {}, [Neighbor(ep, f(ep))], [Neighbor(ep, f(ep))])
  {
    var q := [Neighbor(ep, f(ep))];
    assert q[0].id == ep;
    assert Has(q, ep);
  }

  /** Moving a candidate from the queue to the expanded nodes. */
  lemma BeamPop(f: nat -> real, ef: nat, seen: set<nat>, done: set<nat>, cand: seq<Neighbor>, top: seq<Neighbor>,
                at: nat, rest: seq<Neighbor>)
    requires Beam(f, ef, seen, done, cand, top) && at < |cand| && rest == cand[..at] + cand[at + 1..]
    ensures Beam(f, ef, seen, done + {cand[at].id}, rest, top)
  {
    Removed(cand, rest, at, f);
    forall i | 0 <= i < |rest| ensures rest[i].id in seen {
      var j :| 0 <= j < |cand| && cand[j] == rest[i];
    }
    forall x | Covered(done, cand, x) ensures Covered(done + {cand[at].id}, rest, x) {
    }
  }

  /** A newly marked node that the beam keeps. */
  lemma BeamPush(f: nat -> real, ef: nat, seen: set<nat>, done: set<nat>, cand: seq<Neighbor>, top: seq<Neighbor>,
                 e: nat, kept: seq<Neighbor>)
    requires Beam(f, ef, seen, done, cand, top) && e !in seen
    requires BestOf(seen + {e}, f, ef, kept)
    requires forall i :: 0 <= i < |kept| ==> kept[i] in top || kept[i].id == e
    ensures Beam(f, ef, seen + {e}, done, cand + [Neighbor(e, f(e))], kept)
  {
    var more := cand + [Neighbor(e, f(e))];
    assert !Has(cand, e);
    Pushed(cand, Neighbor(e, f(e)), f);
    forall i | 0 <= i < |more| ensures more[i].id in seen + {e} {
      if i < |cand| { assert more[i] == cand[i]; }
    }
    assert |seen + {e}| == |seen| + 1;
    forall x | Covered(done, cand, x) || x == e ensures Covered(done, more, x) {
    }
  }

  /** A newly marked node that scores below a full beam. */
  lemma BeamSkip(f: nat -> real, ef: nat, seen: set<nat>, done: set<nat>, cand: seq<Neighbor>, top: seq<Neighbor>,
                 e: nat)
    requires Beam(f, ef, seen, done, cand, top) && e !in seen && |top| == ef
    requires forall i :: 0 <= i < |top| ==> f(e) <= top[i].score
    ensures Beam(f, ef, seen + {e}, done, cand, top)
  {
    BestKeep(seen, f, ef, top, e);
    assert |seen + {e}| == |seen| + 1;
  }

  lemma RestWithin(wide: seq<Neighbor>, at: nat, rest: seq<Neighbor>)
    requires at < |wide| && rest == wide[..at] + wide[at + 1..]
    ensures forall i :: 0 <= i < |rest| ==> rest[i] in wide
  {
    forall i | 0 <= i < |rest| ensures rest[i] in wide {
      assert rest[i] == wide[if i < at then i else i + 1];
    }
  }

  /** Drop a worst entry when there is one too many. */
  method KeepBest(ghost f: nat -> real, ef: int, ghost ids: set<nat>, wide: seq<Neighbor>) returns (kept: seq<Neighbor>)
    requires 2 <= |wide| <= Max(ef, 1) + 1 && BestOf(ids, f, if |wide| > ef then Max(ef, 1) + 1 else Max(ef, 1), wide)
    ensures BestOf(ids, f, Max(ef, 1), kept) && kept != []
    ensures forall i :: 0 <= i < |kept| ==> kept[i] in wide
  {
    kept := wide;
    if |wide| > ef {
      var worst, rest, at := PopWorst(wide);
      BestDrop(ids, f, Max(ef, 1), wide, at, rest);
      RestWithin(wide, at, rest);
      kept := rest;
    }
  }

  /** Offer a newly marked node to both queues. */
  method OfferNode(f: nat -> real, ef: int, ghost seen: set<nat>, ghost done: set<nat>,
                   cand: seq<Neighbor>, top: seq<Neighbor>, e: nat)
    returns (cand': seq<Neighbor>, top': seq<Neighbor>)
    requires Beam(f, Max(ef, 1), seen, done, cand, top) && e !in seen && top != []
    ensures Beam(f, Max(ef, 1), seen + {e}, done, cand', top') && top' != []
  {
    var s := f(e);
    var worst, less, at := PopWorst(top);
    if |top| < ef || s > worst.score {
      cand' := cand + [Neighbor(e, s)];
      BestPush(seen, f, Max(ef, 1), top, e);
      top' := KeepBest(f, ef, seen + {e}, top + [Neighbor(e, s)]);
      BeamPush(f, Max(ef, 1), seen, done, cand, top, e, top');
    } else {
      BeamSkip(f, Max(ef, 1), seen, done, cand, top, e);
      cand', top' := cand, top;
    }
  }

  /** What a finished search knows: `seen` holds the nodes it marked. */
  ghost predicate Window(g: Graph, f: nat -> real, lay: nat, limit: nat, ep: nat, ef: nat,
                         seen: set<nat>, out: seq<Neighbor>)
    requires Shape(g)
  {
    && Found(g, lay, limit, ep, seen) && BestOf(seen, f, ef, out)
    && (forall i, y :: 0 <= i < |out| && Edge(g, lay, limit, out[i].id, y) ==> y in seen)
    && (|seen| <= ef ==> Closed(g, lay, limit, seen))
  }

  /** No candidate left, or only candidates below a full beam: the kept nodes are all expanded. */
  lemma BeamDone(g: Graph, f: nat -> real, lay: nat, limit: nat, ep: nat, ef: nat,
                 seen: set<nat>, done: set<nat>, cand: seq<Neighbor>, top: seq<Neighbor>)
    requires Shape(g) && Found(g, lay, limit, ep, seen) && Expanded(g, lay, limit, seen, done)
    requires Beam(f, ef, seen, done, cand, top)
    requires cand == [] ||
             (|top| >= ef && forall i, j :: 0 <= i < |cand| && 0 <= j < |top| ==> cand[i].score < top[j].score)
    ensures Window(g, f, lay, limit, ep, ef, seen, top)
  {
    forall i | 0 <= i < |top| ensures top[i].id in done {
      assert Covered(done, cand, top[i].id);
    }
    if |seen| <= ef && cand != [] {
      AllKept(seen, f, ef, top);
      assert forall x :: x in seen ==> x in done;
    }
  }

  lemma Bounded(seen: set<nat>, limit: nat)
    requires forall x :: x in seen ==> x < limit
    ensures |seen| <= limit
  {
    SubsetSize(seen, Range(limit));
  }

  lemma FoundMore(g: Graph, lay: nat, limit: nat, ep: nat, seen: set<nat>, c: nat, j: nat)
    requires Searchable(g) && Found(g, lay, limit, ep, seen) && c in seen
    requires j < |Links(g, c, lay)| && Links(g, c, lay)[j] < limit
    ensures Found(g, lay, limit, ep, seen + {Links(g, c, lay)[j]})
  {
    var e := Links(g, c, lay)[j];
    assert Edge(g, lay, limit, c, e);
    ReachStep(g, lay, limit, ep, c, e);
  }

  ghost predicate AllSeen(ids: seq<nat>, limit: nat, seen: set<nat>) {
    forall t :: 0 <= t < |ids| && ids[t] < limit ==> ids[t] in seen
  }

  lemma AllSeenNext(ids: seq<nat>, j: nat, limit: nat, seen: set<nat>, more: set<nat>)
    requires j < |ids| && AllSeen(ids[..j], limit, seen) && seen <= more && (ids[j] < limit ==> ids[j] in more)
    ensures AllSeen(ids[..j + 1], limit, more)
  {
    assert ids[..j + 1] == ids[..j] + [ids[j]];
  }

  lemma ExpandedMore(g: Graph, lay: nat, limit: nat, seen: set<nat>, more: set<nat>, done: set<nat>, c: nat)
    requires Shape(g) && Expanded(g, lay, limit, seen, done) && OnLayer(g, c, lay) && seen <= more
    requires AllSeen(Links(g, c, lay), limit, more)
    ensures Expanded(g, lay, limit, more, done + {c})
  {
  }

  /** Everything known of a search between two of its steps. */
  ghost predicate Searching(g: Graph, f: nat -> real, lay: nat, limit: nat, ep: nat, ef: nat,
                            seen: set<nat>, done: set<nat>, cand: seq<Neighbor>, top: seq<Neighbor>)
    requires Shape(g)
  {
    Found(g, lay, limit, ep, seen) && Beam(f, ef, seen, done, cand, top) && top != []
  }

  /** Look at neighbour `j` of node `c`: mark it and offer it, unless it was marked before. */
  method Visit(g: Graph, vis: VisitedSet, f: nat -> real, ghost ep: nat, ef: int, ghost lay: nat, limit: nat,
               ghost c: nat, ghost j: nat, e: nat, ghost seen: set<nat>, ghost done: set<nat>, cand: seq<Neighbor>,
               top: seq<Neighbor>)
    returns (cand': seq<Neighbor>, top': seq<Neighbor>, ghost seen': set<nat>)
    requires Searchable(g) && limit <= g.n && vis.Holds(seen, g.n) && c in seen
    requires Searching(g, f, lay, limit, ep, Max(ef, 1), seen, done, cand, top)
    requires j < |Links(g, c, lay)| && e == Links(g, c, lay)[j]
    modifies vis
    ensures vis.Holds(seen', g.n) && seen <= seen' && (e < limit ==> e in seen')
    ensures Searching(g, f, lay, limit, ep, Max(ef, 1), seen', done, cand', top')
    ensures seen' == seen ==> cand' == cand
  {
    cand', top', seen' := cand, top, seen;
    if e >= limit { return; }
    var was := vis.TestAndSet(e);
    if !was {
      cand', top' := OfferNode(f, ef, seen, done, cand, top, e);
      FoundMore(g, lay, limit, ep, seen, c, j);
      seen' := seen + {e};
    }
  }

  /** Expand one candidate: visit all its neighbours. */
  method Expand(g: Graph, vis: VisitedSet, f: nat -> real, ghost ep: nat, ef: int, lay: nat, limit: nat, c: nat,
                ghost seen: set<nat>, ghost done: set<nat>, cand: seq<Neighbor>, top: seq<Neighbor>)
    returns (cand': seq<Neighbor>, top': seq<Neighbor>, ghost seen': set<nat>)
    requires Searchable(g) && limit <= g.n && vis.Holds(seen, g.n) && c in seen
    requires Searching(g, f, lay, limit, ep, Max(ef, 1), seen, done + {c}, cand, top)
    requires Expanded(g, lay, limit, seen, done)
    modifies vis
    ensures vis.Holds(seen', g.n)
    ensures Searching(g, f, lay, limit, ep, Max(ef, 1), seen', done + {c}, cand', top')
    ensures Expanded(g, lay, limit, seen', done + {c})
    ensures seen <= seen' && (seen' == seen ==> cand' == cand)
  {
    cand', top', seen' := cand, top, seen;
    var local := CopyLinks(g, c, lay);
    for j := 0 to |local|
      invariant vis.Holds(seen', g.n) && seen <= seen' && (seen' == seen ==> cand' == cand)
      invariant Searching(g, f, lay, limit, ep, Max(ef, 1), seen', done + {c}, cand', top')
      invariant AllSeen(local[..j], limit, seen')
    {
      ghost var before := seen';
      cand', top', seen' := Visit(g, vis, f, ep, ef, lay, limit, c, j, local[j], seen', done + {c}, cand', top');
      AllSeenNext(local, j, limit, before, seen');
    }
    assert local[..|local|] == local;
    ExpandedMore(g, lay, limit, seen, seen', done, c);
  }

  /** Best-first traversal of one layer keeping the `ef` best nodes seen. A beam of zero or
      less behaves like a beam of one. With a limit of zero nothing happens: `prev` stays. */
  method SearchLayer(g: Graph, vis: VisitedSet, f: nat -> real, from: nat, ef: int, lay: nat, limit: nat,
                     prev: seq<Neighbor>) returns (out: seq<Neighbor>, ghost seen: set<nat>)
    requires Searchable(g) && limit <= g.n && vis.Valid()
    requires limit > 0 ==> OnLayer(g, if from < limit then from else 0, lay)
    modifies vis
    ensures vis.Valid()
    ensures limit == 0 ==> out == prev
    ensures limit > 0 ==> Window(g, f, lay, limit, if from < limit then from else 0, Max(ef, 1), seen, out)
    ensures limit > 0 ==> Ascending(out) && out != []
  {
    if limit == 0 {
      seen := {};
      return prev, seen;
    }
    vis.Resize(g.n);
    vis.NextEpoch();
    var ep := if from < limit then from else 0;
    var known := vis.TestAndSet(ep);
    var cand, top := [Neighbor(ep, f(ep))], [Neighbor(ep, f(ep))];
    seen := {ep};
    ghost var done: set<nat> := {};
    BeamStart(f, Max(ef, 1), ep);
    ReachSelf(g, lay, limit, ep);
    while cand != []
      invariant vis.Holds(seen, g.n) && Expanded(g, lay, limit, seen, done) && |seen| <= limit
      invariant Searching(g, f, lay, limit, ep, Max(ef, 1), seen, done, cand, top)
      decreases limit - |seen|, |cand|
    {
      var c, rest, at := PopBest(cand);
      var worst, less, wat := PopWorst(top);
      if |top| >= ef && c.score < worst.score { break; }
      BeamPop(f, Max(ef, 1), seen, done, cand, top, at, rest);
      ghost var before := seen;
      cand, top, seen := Expand(g, vis, f, ep, ef, lay, limit, c.id, seen, done, rest, top);
      done := done + {c.id};
      Bounded(seen, limit);
      SubsetSize(before, seen);
    }
    BeamDone(g, f, lay, limit, ep, Max(ef, 1), seen, done, cand, top);
    out := SortAscending(top);
    ReorderWindow(g, f, lay, limit, ep, Max(ef, 1), seen, top, out);
  }

  lemma ReorderWindow(g: Graph, f: nat -> real, lay: nat, limit: nat, ep: nat, ef: nat,
                      seen: set<nat>, w: seq<Neighbor>, s: seq<Neighbor>)
    requires Shape(g) && Window(g, f, lay, limit, ep, ef, seen, w) && multiset(s) == multiset(w)
    ensures Window(g, f, lay, limit, ep, ef, seen, s) && |s| == |w|
  {
    ReorderedBest(seen, f, ef, w, s);
    forall i, y | 0 <= i < |s| && Edge(g, lay, limit, s[i].id, y) ensures y in seen {
      assert s[i] in multiset(w);
      assert s[i] in w;
    }
  }

  // ------------------------------------------------------- what a search finds --

  /** An in-limit neighbour of a result is a result or scores no higher than any of them. */
  lemma NeighborOfResult(g: Graph, f: nat -> real, lay: nat, limit: nat, ep: nat, ef: nat,
                         seen: set<nat>, out: seq<Neighbor>, i: nat, y: nat)
    requires Shape(g) && Window(g, f, lay, limit, ep, ef, seen, out) && i < |out| && Edge(g, lay, limit, out[i].id, y)
    ensures Has(out, y) || forall t :: 0 <= t < |out| ==> f(y) <= out[t].score
  {
    assert y in seen;
  }

  /** The nodes below the limit that `a` reaches on a layer. */
  ghost function Component(g: Graph, lay: nat, limit: nat, a: nat): set<nat>
    requires Shape(g)
  {
    set x | x in Range(limit) && Reach(g, lay, limit, a, x)
  }

  /** A beam as wide as the reachable component visits exactly that component. */
  lemma WideBeamSeesAll(g: Graph, f: nat -> real, lay: nat, limit: nat, ep: nat, ef: nat,
                        seen: set<nat>, out: seq<Neighbor>)
    requires Shape(g) && Window(g, f, lay, limit, ep, ef, seen, out) && |Component(g, lay, limit, ep)| <= ef
    ensures seen == Component(g, lay, limit, ep)
  {
    var all := Component(g, lay, limit, ep);
    assert seen <= all;
    SubsetSize(seen, all);
    forall x | x in all ensures x in seen {
      ClosedReach(g, lay, limit, seen, ep, x);
    }
  }

  /** Where `retrieve` starts its beam: a node the upper layers could not improve on. */
  ghost predicate Landing(g: Graph, f: nat -> real, x: nat)
    requires Shape(g)
  {
    && OnLayer(g, x, 0) && f(x) >= f(g.entry) && (if g.maxLevel >= 1 then LocalBest(g, f, x, 1) else x == g.entry)
    && Descended(g, f, g.entry, g.maxLevel, 0, x)
  }

  /** A beam of `ef` found its best among the nodes it has seen, with all their neighbours. */
  ghost predicate BeamSaw(g: Graph, f: nat -> real, land: nat, ef: int, seen: set<nat>)
    requires Shape(g)
  {
    exists beam :: Window(g, f, 0, g.n, land, Max(ef, 1), seen, beam)
  }

  /** Greedy descent through the upper layers, then one wide search of layer 0. */
  method Retrieve(g: Graph, vis: VisitedSet, f: nat -> real, k: nat, ef: int)
    returns (w: seq<Neighbor>, ghost land: nat, ghost seen: set<nat>)
    requires Searchable(g) && vis.Valid()
    modifies vis
    ensures vis.Valid()
    ensures g.n == 0 ==> w == []
    ensures g.n > 0 ==> Landing(g, f, land) && Found(g, 0, g.n, land, seen) && TopList(seen, f, k, w)
    ensures g.n > 0 && |seen| <= Max(ef, k) ==> Closed(g, 0, g.n, seen)
    ensures g.n > 0 ==> BeamSaw(g, f, land, Max(ef, k), seen)
    ensures g.n > 0 && |Component(g, 0, g.n, land)| <= Max(ef, k) ==> seen == Component(g, 0, g.n, land)
  {
    if g.n == 0 {
      land, seen := 0, {};
      return [], land, seen;
    }
    var cur := Descend(g, f, g.entry, g.maxLevel, 0, Range(g.n));
    land := cur;
    Landed(g, f, cur);
    w, seen := SearchLayer(g, vis, f, cur, Max(ef, k), 0, g.n, []);
    BeamFound(g, f, land, Max(ef, k), seen, w);
    w := FirstK(f, Max(Max(ef, k), 1), k, seen, w);
  }

  lemma Landed(g: Graph, f: nat -> real, x: nat)
    requires Shape(g) && OnLayer(g, x, 0) && f(x) >= f(g.entry) && Descended(g, f, g.entry, g.maxLevel, 0, x)
    requires if g.maxLevel >= 1 then LocalBest(g, f, x, 1) else x == g.entry
    ensures Landing(g, f, x)
  {
  }

  lemma BeamFound(g: Graph, f: nat -> real, land: nat, ef: int, seen: set<nat>, beam: seq<Neighbor>)
    requires Shape(g) && Window(g, f, 0, g.n, land, Max(ef, 1), seen, beam)
    ensures BeamSaw(g, f, land, ef, seen) && Found(g, 0, g.n, land, seen)
    ensures |seen| <= ef ==> Closed(g, 0, g.n, seen)
    ensures |Component(g, 0, g.n, land)| <= ef ==> seen == Component(g, 0, g.n, land)
  {
    if |Component(g, 0, g.n, land)| <= ef { WideBeamSeesAll(g, f, 0, g.n, land, Max(ef, 1), seen, beam); }
  }

  /** Sort the beam and cut it. */
  method FirstK(ghost f: nat -> real, ghost ef: nat, k: nat, ghost seen: set<nat>, beam: seq<Neighbor>)
    returns (w: seq<Neighbor>)
    requires BestOf(seen, f, ef, beam) && k <= ef
    ensures TopList(seen, f, k, w)
  {
    w := SortDescending(beam);
    ReorderedBest(seen, f, ef, beam, w);
    TopListPrefix(seen, f, ef, k, w);
    if |w| > k { w := w[..k]; }
  }
}
