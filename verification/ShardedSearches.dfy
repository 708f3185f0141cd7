/** One query over the shards of a catalogue: retrieve in each, make the ids global, merge. */
module ShardedSearches {
  import opened Arithmetic
  import opened Basics
  import opened Neighbors
  import opened Catalogs
  import opened HnswGraphs
  import opened HnswIndexes
  import opened Recalls
  import opened ShardPools
  import opened VisitedSets

  /** A shard: its slice of the catalogue and the index over it. */
  datatype Shard = Shard(cat: Catalog, index: Index, base: nat)

  /** Shard `s` holds its slice of the rows. */
  ghost predicate ShardOk(x: Shard, full: Catalog, shards: nat, s: nat)
    requires shards >= 1
    reads x.cat, x.index, full
  {
    && x.cat.Valid() && full.Valid() && x.cat.dim == full.dim && x.index.Valid() && x.index.g.n == x.cat.n
    && x.base == Base(full.n, shards, s) && x.cat.n == SliceSize(full.n, shards, s) && x.base + x.cat.n <= full.n
    && forall i: nat, d: nat :: i < x.cat.n && d < full.dim ==>
         Cell(x.cat.aos, x.cat.n, x.cat.dim, i, d) == Cell(full.aos, full.n, full.dim, x.base + i, d)
  }

  ghost predicate ShardsOk(xs: seq<Shard>, full: Catalog, kern: Kernel)
    requires |xs| >= 1
    reads full, set x | x in xs :: x.cat, set x | x in xs :: x.index
  {
    forall s :: 0 <= s < |xs| ==> ShardOk(xs[s], full, |xs|, s) && xs[s].cat.Ready(kern)
  }

  /** Equal rows have equal plain scores. */
  lemma SameRowScore(q: seq<real>, a: seq<real>, n: nat, i: nat, b: seq<real>, m: nat, j: nat, dim: nat)
    requires RowsOk(a, n, dim) && RowsOk(b, m, dim) && i < n && j < m && |q| == dim
    requires forall d: nat :: d < dim ==> Cell(a, n, dim, i, d) == Cell(b, m, dim, j, d)
    ensures PlainScore(q, a, n, dim, i) == PlainScore(q, b, m, dim, j)
  {
    PlainInside(a, n, dim, i);
    PlainInside(b, m, dim, j);
    forall d: nat | d < dim
      ensures i * dim + d * 1 < |a| && j * dim + d * 1 < |b| && a[i * dim + d * 1] == b[j * dim + d * 1]
    {
      CellInside(i, d, n, dim);
      CellInside(j, d, m, dim);
      assert Cell(a, n, dim, i, d) == Cell(b, m, dim, j, d);
    }
    DotLayouts(q, a, i * dim, 1, b, j * dim, 1, dim);
  }

  /** A query without codes scores a row the same in its shard and in the whole catalogue. */
  lemma SliceScore(x: Shard, full: Catalog, shards: nat, s: nat, query: Query, kern: Kernel, i: nat)
    requires shards >= 1 && ShardOk(x, full, shards, s) && |query.v| == full.dim && query.codes.Plain? && i < x.cat.n
    ensures x.cat.Scores(query, kern)(i) == full.Scores(query, Simd)(x.base + i)
  {
    SameRowScore(query.v, x.cat.aos, x.cat.n, i, full.aos, full.n, x.base + i, full.dim);
  }

  /** What one shard looked at in its slice. */
  ghost predicate ShardSaw(g: Graph, f: nat -> real, rk: nat, ef: int, land: nat, seen: set<nat>) {
    && Shape(g) && (forall x :: x in seen ==> x < g.n) && (g.n == 0 ==> seen == {})
    && (g.n > 0 ==> Saw(g, f, rk, ef, land, seen))
  }

  /** One shard's list: the best of what it looked at, by the scores of the whole catalogue. */
  method SearchShard(x: Shard, ghost full: Catalog, ghost shards: nat, ghost s: nat, query: Query, kern: Kernel,
                     rk: nat, ef: int, vis: VisitedSet)
    returns (local: seq<Neighbor>, ghost land: nat, ghost seen: set<nat>)
    requires shards >= 1 && ShardOk(x, full, shards, s) && x.cat.Ready(kern) && vis.Valid() && rk >= 1
    requires |query.v| == full.dim && query.codes.Plain?
    modifies vis
    ensures vis.Valid() && TopList(seen, Local(full.Scores(query, Simd), x.base), rk, local)
    ensures ShardSaw(x.index.g, x.cat.Scores(query, kern), rk, ef, land, seen)
  {
    local, land, seen := Retrieved(x.index, x.cat, query, kern, true, rk, ef, vis);
    SliceBest(x, full, shards, s, query, kern, rk, local, seen);
  }

  lemma SliceBest(x: Shard, full: Catalog, shards: nat, s: nat, query: Query, kern: Kernel, rk: nat, w: seq<Neighbor>,
                  seen: set<nat>)
    requires shards >= 1 && ShardOk(x, full, shards, s) && |query.v| == full.dim && query.codes.Plain?
    requires TopList(seen, x.cat.Scores(query, kern), rk, w) && forall i :: i in seen ==> i < x.cat.n
    ensures TopList(seen, Local(full.Scores(query, Simd), x.base), rk, w)
  {
    var f, g := x.cat.Scores(query, kern), Local(full.Scores(query, Simd), x.base);
    forall i | i in seen ensures f(i) == g(i) { SliceScore(x, full, shards, s, query, kern, i); }
    SameList(seen, f, g, rk, w);
  }

  lemma SameList(ids: set<nat>, f: nat -> real, g: nat -> real, k: nat, w: seq<Neighbor>)
    requires TopList(ids, f, k, w) && forall x :: x in ids ==> f(x) == g(x)
    ensures TopList(ids, g, k, w)
  {
  }

  ghost function Graphs(xs: seq<Shard>): (gs: seq<Graph>)
    reads set x | x in xs :: x.index
    ensures |gs| == |xs| && forall s :: 0 <= s < |xs| ==> gs[s] == xs[s].index.g
  {
    if xs == [] then [] else [xs[0].index.g] + Graphs(xs[1..])
  }

  /** The lists of the first shards: each is the best of what its shard looked at, made global. */
  ghost predicate Searched(gs: seq<Graph>, items: nat, shards: nat, f: nat -> real, rk: nat, seens: seq<set<nat>>,
                           local: seq<seq<Neighbor>>, lists: seq<seq<Neighbor>>)
    requires |local| == |lists| == |seens| <= |gs| && shards >= 1
  {
    forall s :: 0 <= s < |local| ==> SearchedAt(gs, items, shards, f, rk, seens, local, lists, s)
  }

  ghost predicate SearchedAt(gs: seq<Graph>, items: nat, shards: nat, f: nat -> real, rk: nat, seens: seq<set<nat>>,
                             local: seq<seq<Neighbor>>, lists: seq<seq<Neighbor>>, s: nat)
    requires s < |local| == |lists| == |seens| <= |gs| && shards >= 1
  {
    && SliceSize(items, shards, s) >= 0 && (forall x :: x in seens[s] ==> x < SliceSize(items, shards, s))
    && lists[s] == Shift(local[s], Base(items, shards, s))
    && TopList(seens[s], Local(f, Base(items, shards, s)), rk, local[s])
  }

  lemma SearchedNext(gs: seq<Graph>, items: nat, shards: nat, f: nat -> real, rk: nat, seens: seq<set<nat>>,
                     local: seq<seq<Neighbor>>, lists: seq<seq<Neighbor>>, seen: set<nat>, list: seq<Neighbor>)
    requires |local| == |lists| == |seens| < |gs| && shards >= 1
    requires Searched(gs, items, shards, f, rk, seens, local, lists)
    requires SliceSize(items, shards, |local|) >= 0 && forall x :: x in seen ==> x < SliceSize(items, shards, |local|)
    requires TopList(seen, Local(f, Base(items, shards, |local|)), rk, list)
    ensures Searched(gs, items, shards, f, rk, seens + [seen], local + [list],
                     lists + [Shift(list, Base(items, shards, |local|))])
  {
    var ls, ll, lm := seens + [seen], local + [list], lists + [Shift(list, Base(items, shards, |local|))];
    forall s | 0 <= s < |ll| ensures SearchedAt(gs, items, shards, f, rk, ls, ll, lm, s) {
      if s < |local| { assert SearchedAt(gs, items, shards, f, rk, seens, local, lists, s); }
    }
  }

  /** The scores every shard searched by. */
  ghost function ScoresOf(xs: seq<Shard>, query: Query, kern: Kernel): (fs: seq<nat -> real>)
    requires forall s :: 0 <= s < |xs| ==> xs[s].cat.Valid() && |query.v| == xs[s].cat.dim
    reads set x | x in xs :: x.cat
    ensures |fs| == |xs| && forall s :: 0 <= s < |xs| ==> fs[s] == xs[s].cat.Scores(query, kern)
  {
    if xs == [] then [] else [xs[0].cat.Scores(query, kern)] + ScoresOf(xs[1..], query, kern)
  }

  /** What every shard looked at. */
  ghost predicate AllSaw(gs: seq<Graph>, fs: seq<nat -> real>, rk: nat, ef: int, lands: seq<nat>, seens: seq<set<nat>>)
    requires |lands| == |seens| <= |gs| == |fs|
  {
    forall s :: 0 <= s < |seens| ==> SawAt(gs, fs, rk, ef, lands, seens, s)
  }

  ghost predicate SawAt(gs: seq<Graph>, fs: seq<nat -> real>, rk: nat, ef: int, lands: seq<nat>, seens: seq<set<nat>>,
                        s: nat)
    requires s < |lands| == |seens| <= |gs| == |fs|
  {
    ShardSaw(gs[s], fs[s], rk, ef, lands[s], seens[s])
  }

  lemma AllSawNext(gs: seq<Graph>, fs: seq<nat -> real>, rk: nat, ef: int, lands: seq<nat>, seens: seq<set<nat>>,
                   land: nat, seen: set<nat>)
    requires |lands| == |seens| < |gs| == |fs| && AllSaw(gs, fs, rk, ef, lands, seens)
    requires ShardSaw(gs[|seens|], fs[|seens|], rk, ef, land, seen)
    ensures AllSaw(gs, fs, rk, ef, lands + [land], seens + [seen])
  {
    var ls, ss := lands + [land], seens + [seen];
    forall s | 0 <= s < |ss| ensures SawAt(gs, fs, rk, ef, ls, ss, s) {
      if s < |seens| { assert SawAt(gs, fs, rk, ef, lands, seens, s); }
    }
  }

  /** Search the shards one after the other. */
  method Scatter(xs: seq<Shard>, ghost full: Catalog, query: Query, kern: Kernel, rk: nat, ef: int, vis: VisitedSet)
    returns (lists: seq<seq<Neighbor>>, ghost local: seq<seq<Neighbor>>, ghost lands: seq<nat>,
             ghost seens: seq<set<nat>>)
    requires |xs| >= 1 && full.Valid() && ShardsOk(xs, full, kern) && vis.Valid()
    requires |query.v| == full.dim && query.codes.Plain? && rk >= 1
    modifies vis
    ensures vis.Valid() && |lists| == |local| == |lands| == |seens| == |xs|
    ensures Searched(old(Graphs(xs)), full.n, |xs|, old(full.Scores(query, Simd)), rk, seens, local, lists)
    ensures AllSaw(old(Graphs(xs)), old(ScoresOf(xs, query, kern)), rk, ef, lands, seens)
  {
    ghost var gs, fs, f := Graphs(xs), ScoresOf(xs, query, kern), full.Scores(query, Simd);
    lists, local, lands, seens := [], [], [], [];
    for s := 0 to |xs|
      invariant vis.Valid() && |lists| == |local| == |lands| == |seens| == s
      invariant Searched(gs, full.n, |xs|, f, rk, seens, local, lists)
      invariant AllSaw(gs, fs, rk, ef, lands, seens)
    {
      assert ShardOk(xs[s], full, |xs|, s);
      ghost var land, seen;
      var list;
      list, land, seen := SearchShard(xs[s], full, |xs|, s, query, kern, rk, ef, vis);
      SearchedNext(gs, full.n, |xs|, f, rk, seens, local, lists, seen, list);
      AllSawNext(gs, fs, rk, ef, lands, seens, land, seen);
      lists, local := lists + [Shift(list, xs[s].base)], local + [list];
      lands, seens := lands + [land], seens + [seen];
    }
  }

  /** The items of the whole catalogue that some shard looked at. */
  ghost predicate SeenAnywhere(items: nat, shards: nat, seens: seq<set<nat>>, all: set<nat>)
    requires shards >= 1 && |seens| == shards
  {
    forall x: nat :: x in all <==> exists s :: 0 <= s < shards && SeenBy(items, shards, seens, s, x)
  }

  ghost predicate SeenBy(items: nat, shards: nat, seens: seq<set<nat>>, s: nat, x: nat)
    requires shards >= 1 && s < |seens|
  {
    x >= Base(items, shards, s) && x - Base(items, shards, s) in seens[s]
  }

  /** Everything any shard could find was found. */
  ghost predicate AllFound(gs: seq<Graph>, lands: seq<nat>, rk: nat, ef: int)
    requires |lands| == |gs|
  {
    forall s :: 0 <= s < |gs| && Shape(gs[s]) ==> FindsAll(gs[s], lands[s], rk, ef)
  }

  /** When every beam found all of its slice, everything was looked at and the scores are the exact ones. */
  ghost predicate WholeWhenFound(gs: seq<Graph>, lands: seq<nat>, rk: nat, ef: int, items: nat, all: set<nat>,
                                 merged: seq<Neighbor>, gold: seq<Neighbor>)
    requires |lands| == |gs|
  {
    AllFound(gs, lands, rk, ef) ==> SameScores(merged, gold) && forall x: nat :: x in all <==> x < items
  }

  /** Scatter, gather, merge. The merged list is the best k of everything the shards looked at; when
      every beam found all of its slice, it carries the scores of one exact scan of the whole catalogue,
      position by position. */
  method Search(xs: seq<Shard>, full: Catalog, query: Query, kern: Kernel, k: nat, retrieveK: nat, ef: int,
                vis: VisitedSet)
    returns (merged: seq<Neighbor>, gold: seq<Neighbor>, ghost lands: seq<nat>, ghost seens: seq<set<nat>>,
             ghost all: set<nat>)
    requires |xs| >= 1 && full.Valid() && full.Ready(Simd) && ShardsOk(xs, full, kern) && vis.Valid()
    requires |query.v| == full.dim && query.codes.Plain? && k >= 1
    modifies vis
    ensures vis.Valid() && |lands| == |seens| == |xs| && Exact(full.n, full.Scores(query, Simd), k, gold)
    ensures AllSaw(old(Graphs(xs)), old(ScoresOf(xs, query, kern)), Max(k, retrieveK), ef, lands, seens)
    ensures SeenAnywhere(full.n, |xs|, seens, all) && TopList(all, full.Scores(query, Simd), k, merged)
    ensures WholeWhenFound(old(Graphs(xs)), lands, Max(k, retrieveK), ef, full.n, all, merged, gold)
  {
    gold := Gold(full, query, k);
    Sizes(xs, full, kern);
    var lists;
    ghost var local;
    ghost var gs, fs, f, rk := Graphs(xs), ScoresOf(xs, query, kern), full.Scores(query, Simd), Max(k, retrieveK);
    lists, local, lands, seens := Scatter(xs, full, query, kern, Max(k, retrieveK), ef, vis);
    merged, all := MergeAll(lists, k, gs, fs, full.n, |xs|, f, rk, ef, lands, seens, local, gold);
  }

  /** Merge the shards' lists. */
  method MergeAll(lists: seq<seq<Neighbor>>, k: nat, ghost gs: seq<Graph>, ghost fs: seq<nat -> real>,
                  ghost items: nat, ghost shards: nat, ghost f: nat -> real, ghost rk: nat, ghost ef: int,
                  ghost lands: seq<nat>, ghost seens: seq<set<nat>>, ghost local: seq<seq<Neighbor>>,
                  ghost gold: seq<Neighbor>)
    returns (merged: seq<Neighbor>, ghost all: set<nat>)
    requires shards >= 1 && k <= rk && |gs| == |fs| == |lands| == |seens| == |local| == |lists| == shards
    requires AllSaw(gs, fs, rk, ef, lands, seens) && Searched(gs, items, shards, f, rk, seens, local, lists)
    requires SizesOk(gs, items, shards) && Exact(items, f, k, gold)
    ensures SeenAnywhere(items, shards, seens, all) && TopList(all, f, k, merged)
    ensures WholeWhenFound(gs, lands, rk, ef, items, all, merged, gold)
  {
    merged := Merge(lists, k);
    all := MergedBest(gs, items, shards, f, rk, k, seens, local, lists, merged);
    if AllFound(gs, lands, rk, ef) {
      EveryoneSeen(gs, fs, items, shards, rk, ef, lands, seens, all);
      WholeBest(items, f, k, all, merged, gold);
    }
  }

  ghost predicate SizesOk(gs: seq<Graph>, items: nat, shards: nat)
    requires shards >= 1 && |gs| == shards
  {
    forall s :: 0 <= s < shards ==> gs[s].n == SliceSize(items, shards, s) && Shape(gs[s])
  }

  lemma Sizes(xs: seq<Shard>, full: Catalog, kern: Kernel)
    requires |xs| >= 1 && ShardsOk(xs, full, kern)
    ensures SizesOk(Graphs(xs), full.n, |xs|)
  {
    forall s | 0 <= s < |xs| ensures Graphs(xs)[s].n == SliceSize(full.n, |xs|, s) && Shape(Graphs(xs)[s]) {
      assert ShardOk(xs[s], full, |xs|, s);
    }
  }

  /** A beam that reaches everything sees everything. */
  lemma FoundSeen(g: Graph, f: nat -> real, rk: nat, ef: int, land: nat, seen: set<nat>)
    requires ShardSaw(g, f, rk, ef, land, seen) && FindsAll(g, land, rk, ef)
    ensures forall x: nat :: x in seen <==> x < g.n
  {
    if g.n > 0 {
      SubsetSize(seen, Range(g.n));
      forall x: nat | x < g.n ensures x in seen { ClosedReach(g, 0, g.n, seen, land, x); }
    }
  }

  lemma EveryoneSeen(gs: seq<Graph>, fs: seq<nat -> real>, items: nat, shards: nat, rk: nat, ef: int, lands: seq<nat>,
                     seens: seq<set<nat>>, all: set<nat>)
    requires shards >= 1 && |gs| == |fs| == |lands| == |seens| == shards
    requires AllSaw(gs, fs, rk, ef, lands, seens) && AllFound(gs, lands, rk, ef)
    requires SizesOk(gs, items, shards)
    requires SeenAnywhere(items, shards, seens, all)
    ensures forall x: nat :: x < items ==> x in all
  {
    forall s | 0 <= s < shards ensures forall x: nat :: x in seens[s] <==> x < gs[s].n {
      assert SawAt(gs, fs, rk, ef, lands, seens, s);
      FoundSeen(gs[s], fs[s], rk, ef, lands[s], seens[s]);
    }
    WholeSlices(items, shards, seens, all);
  }

  lemma WholeSlices(items: nat, shards: nat, seens: seq<set<nat>>, all: set<nat>)
    requires shards >= 1 && |seens| == shards && SeenAnywhere(items, shards, seens, all)
    requires forall s :: 0 <= s < shards ==> forall x: nat :: x in seens[s] <==> x < SliceSize(items, shards, s)
    ensures forall x: nat :: x < items ==> x in all
  {
    forall x: nat | x < items ensures x in all {
      SliceHolds(items, shards, x);
      assert SeenBy(items, shards, seens, x / Per(items, shards), x);
    }
  }

  lemma WholeBest(n: nat, f: nat -> real, k: nat, all: set<nat>, merged: seq<Neighbor>, gold: seq<Neighbor>)
    requires TopList(all, f, k, merged) && Exact(n, f, k, gold)
    requires (forall x :: x in all ==> x < n) && forall x: nat :: x < n ==> x in all
    ensures SameScores(merged, gold)
  {
    assert all == Range(n);
    TopListUnique(all, f, k, merged, gold);
  }

  /** The slices the shards looked at, made global. */
  ghost function Parts(items: nat, shards: nat, seens: seq<set<nat>>): (r: seq<set<nat>>)
    requires shards >= 1 && |seens| == shards
    ensures |r| == shards && forall s :: 0 <= s < shards ==> r[s] == Shifted(seens[s], Base(items, shards, s))
  {
    seq(shards, s requires 0 <= s < shards => Shifted(seens[s], Base(items, shards, s)))
  }

  lemma PartsDisjoint(items: nat, shards: nat, seens: seq<set<nat>>)
    requires shards >= 1 && |seens| == shards
    requires forall s :: 0 <= s < shards ==>
               SliceSize(items, shards, s) >= 0 && forall x :: x in seens[s] ==> x < SliceSize(items, shards, s)
    ensures DisjointParts(Parts(items, shards, seens))
    ensures forall s, x :: 0 <= s < shards && x in Parts(items, shards, seens)[s] ==> x < items
  {
    var parts := Parts(items, shards, seens);
    forall s: nat, x: nat | s < shards && x in parts[s]
      ensures x < items && Per(items, shards) > 0 && s == x / Per(items, shards)
    {
      assert InSlice(items, shards, s, x);
      SliceUnique(items, shards, s, x);
    }
  }

  lemma InShifted(ids: set<nat>, base: nat, x: nat)
    ensures x in Shifted(ids, base) <==> x >= base && x - base in ids
  {
    if x >= base && x - base in ids { assert base + (x - base) == x; }
  }

  lemma SeenInParts(items: nat, shards: nat, seens: seq<set<nat>>, parts: seq<set<nat>>, all: set<nat>)
    requires shards >= 1 && |seens| == shards && parts == Parts(items, shards, seens)
    requires forall x :: x in all <==> exists s :: 0 <= s < shards && x in parts[s]
    ensures SeenAnywhere(items, shards, seens, all)
  {
    forall s, x: nat | 0 <= s < shards ensures x in parts[s] <==> SeenBy(items, shards, seens, s, x) {
      InShifted(seens[s], Base(items, shards, s), x);
    }
  }

  lemma MergedBest(gs: seq<Graph>, items: nat, shards: nat, f: nat -> real, rk: nat, k: nat, seens: seq<set<nat>>,
                   local: seq<seq<Neighbor>>, lists: seq<seq<Neighbor>>, merged: seq<Neighbor>) returns (all: set<nat>)
    requires shards >= 1 && k <= rk && |local| == |lists| == |seens| == |gs| == shards
    requires Searched(gs, items, shards, f, rk, seens, local, lists) && IsMerge(Joined(lists), k, merged)
    ensures SeenAnywhere(items, shards, seens, all) && TopList(all, f, k, merged) && forall x :: x in all ==> x < items
  {
    var parts := Parts(items, shards, seens);
    forall s | 0 <= s < shards
      ensures SliceSize(items, shards, s) >= 0 && BestOf(parts[s], f, rk, lists[s])
      ensures forall x :: x in seens[s] ==> x < SliceSize(items, shards, s)
    {
      assert SearchedAt(gs, items, shards, f, rk, seens, local, lists, s);
      ShiftBest(f, Base(items, shards, s), rk, local[s], seens[s]);
    }
    PartsDisjoint(items, shards, seens);
    all := set x, s | 0 <= s < shards && x in parts[s] :: x;
    SeenInParts(items, shards, seens, parts, all);
    MergeIsExact(all, parts, f, rk, k, lists, merged);
  }
}
