/** Measuring the index against the exact scan: both retrieve from one catalogue for one query. */
module Recalls {
  import opened Basics
  import opened Neighbors
  import opened Catalogs
  import opened ExactScans
  import opened HnswGraphs
  import opened HnswSearch
  import opened HnswIndexes
  import opened VisitedSets
  import Quantization

  /** The share of the gold ids among the first `k` predictions. */
  method RecallAtK(pred: seq<Neighbor>, gold: set<nat>, k: nat) returns (r: real)
    requires Distinct(pred)
    ensures 0.0 <= r <= 1.0
    ensures gold == {} ==> r == 0.0
    ensures gold != {} ==> (r == 1.0 <==> gold <= IdSet(pred[..Min(k, |pred|)]))
    ensures gold != {} ==> r * (|gold| as real) == |gold * IdSet(pred[..Min(k, |pred|)])| as real
  {
    if gold == {} { return 0.0; }
    var hit := 0;
    for i := 0 to Min(k, |pred|)
      invariant hit == |gold * IdSet(pred[..i])|
    {
      CountNext(pred, gold, i);
      if pred[i].id in gold { hit := hit + 1; }
    }
    r := (hit as real) / (|gold| as real);
    Covers(gold, IdSet(pred[..Min(k, |pred|)]));
    Share(hit, |gold|);
  }

  lemma CountNext(pred: seq<Neighbor>, gold: set<nat>, i: nat)
    requires Distinct(pred) && i < |pred|
    ensures |gold * IdSet(pred[..i + 1])| == |gold * IdSet(pred[..i])| + if pred[i].id in gold then 1 else 0
  {
    IdSetStep(pred[..i], pred[i]);
    assert pred[..i + 1] == pred[..i] + [pred[i]];
    assert pred[i].id !in IdSet(pred[..i]);
    var before, after := gold * IdSet(pred[..i]), gold * IdSet(pred[..i + 1]);
    assert after == if pred[i].id in gold then before + {pred[i].id} else before;
  }

  lemma Share(hit: nat, n: nat)
    requires hit <= n && n > 0
    ensures var r := (hit as real) / (n as real);
            0.0 <= r <= 1.0 && r * (n as real) == hit as real && (r == 1.0 <==> hit == n)
  {
    var x := n as real;
    assert (hit as real) / x * x == hit as real;
  }

  lemma Covers(gold: set<nat>, ids: set<nat>)
    ensures |gold * ids| <= |gold| && (|gold * ids| == |gold| <==> gold <= ids)
  {
    SubsetSize(gold * ids, gold);
    assert gold == gold * ids + (gold - ids);
    if gold <= ids { assert gold * ids == gold; }
  }

  /** The exact best k of all items. */
  ghost predicate Exact(n: nat, f: nat -> real, k: nat, w: seq<Neighbor>) { TopList(Range(n), f, k, w) }

  /** Two exact lists by scores that agree on all items. */
  lemma BothExact(n: nat, f: nat -> real, g: nat -> real, k: nat, a: seq<Neighbor>, b: seq<Neighbor>)
    requires Exact(n, f, k, a) && Exact(n, g, k, b) && forall x: nat :: x < n ==> f(x) == g(x)
    ensures SameScores(a, b) && |b| == Min(k, n)
    ensures NoTies(Range(n), g) ==> a == b
  {
    assert TopList(Range(n), g, k, a);
    TopListUnique(Range(n), g, k, a, b);
    if NoTies(Range(n), g) { TopListUniqueIds(Range(n), g, k, a, b); }
  }

  /** The kernel works on codes: both the catalogue and the query have them. */
  ghost predicate UsesCodes(cat: Catalog, query: Query, kern: Kernel)
    reads cat
  {
    kern == Int8 && cat.codes != [] && query.codes.Coded?
  }

  lemma PlainScores(cat: Catalog, query: Query, kern: Kernel)
    requires cat.Valid() && |query.v| == cat.dim && !UsesCodes(cat, query, kern)
    ensures forall x: nat :: x < cat.n ==> cat.Scores(query, kern)(x) == cat.Scores(query, Simd)(x)
  {
  }

  lemma FullRecall(w: seq<Neighbor>, k: nat)
    requires 0 < |w| <= k
    ensures IdSet(w) != {} && IdSet(w) <= IdSet(w[..Min(k, |w|)])
  {
    assert w[..|w|] == w;
    assert w[0].id in IdSet(w);
  }

  /** From where the descent landed the beam reaches everything. */
  ghost predicate FindsAll(g: Graph, land: nat, k: nat, ef: int)
    requires Shape(g)
  {
    Max(ef, k) >= g.n && forall x: nat :: x < g.n ==> Reach(g, 0, g.n, land, x)
  }

  /** The exact scan by the float scores. */
  method Gold(cat: Catalog, query: Query, k: nat) returns (exact: seq<Neighbor>)
    requires cat.Valid() && cat.Ready(Simd) && QueryOk(query, cat.dim) && k >= 1
    ensures Exact(cat.n, cat.Scores(query, Simd), k, exact)
  {
    exact := Brute(cat, query, k, Simd);
  }

  /** What the index looked at: the descent landed at `land`, the beam saw `seen` from there, and if that
      was no more than it can hold, it saw everything it could reach. */
  ghost predicate Saw(g: Graph, f: nat -> real, k: nat, ef: int, land: nat, seen: set<nat>)
    requires Shape(g)
  {
    && Landing(g, f, land) && Found(g, 0, g.n, land, seen) && BeamSaw(g, f, land, Max(ef, k), seen)
    && (|seen| <= Max(ef, k) ==> Closed(g, 0, g.n, seen))
  }

  /** Retrieval as configured: the k best of the items that were looked at. */
  method Retrieved(ix: Index, cat: Catalog, query: Query, kern: Kernel, useIndex: bool, k: nat, ef: int,
                   vis: VisitedSet)
    returns (got: seq<Neighbor>, ghost land: nat, ghost seen: set<nat>)
    requires cat.Valid() && cat.Ready(kern) && QueryOk(query, cat.dim) && k >= 1
    requires ix.Valid() && ix.g.n == cat.n && vis.Valid()
    modifies vis
    ensures vis.Valid() && TopList(seen, cat.Scores(query, kern), k, got) && Distinct(got) && |got| <= k
    ensures useIndex && cat.n > 0 ==> Saw(ix.g, cat.Scores(query, kern), k, ef, land, seen)
    ensures !useIndex || cat.n == 0 || FindsAll(ix.g, land, k, ef) ==> Exact(cat.n, cat.Scores(query, kern), k, got)
    ensures !useIndex || cat.n == 0 ==> forall x: nat :: x in seen <==> x < cat.n
    ensures forall x :: x in seen ==> x < cat.n
  {
    land := 0;
    if useIndex && ix.g.n > 0 {
      got, land, seen := ix.Retrieve(cat.Scores(query, kern), k, ef, vis);
    } else {
      got := Brute(cat, query, k, kern);
      seen := Range(cat.n);
    }
  }

  /** The recall of one list against another: the share of the second's ids that the first one's k best
      contain. */
  method RecallOf(got: seq<Neighbor>, exact: seq<Neighbor>, k: nat) returns (recall: real)
    requires Distinct(got)
    ensures 0.0 <= recall <= 1.0
    ensures exact != [] && |got| <= k ==>
              recall * (|IdSet(exact)| as real) == |IdSet(exact) * IdSet(got)| as real
    ensures got == exact && 0 < |exact| <= k ==> recall == 1.0
  {
    var gold := set e | e in exact :: e.id;
    assert gold == IdSet(exact);
    assert exact != [] ==> exact[0].id in gold;
    recall := RecallAtK(got, gold, k);
    assert |got| <= k ==> got[..Min(k, |got|)] == got;
    if got == exact && 0 < |exact| <= k { FullRecall(exact, k); }
  }

  /** The two lists of a probe, if both are exact by their own scores. */
  lemma BothFound(cat: Catalog, query: Query, kern: Kernel, k: nat, got: seq<Neighbor>, exact: seq<Neighbor>)
    requires cat.Valid() && cat.Ready(kern) && QueryOk(query, cat.dim) && cat.n > 0 && k >= 1
    requires Exact(cat.n, cat.Scores(query, kern), k, got) && Exact(cat.n, cat.Scores(query, Simd), k, exact)
    ensures |exact| == Min(k, cat.n)
    ensures UsesCodes(cat, query, kern) ==>
              NearScores(got, exact, Int8Bound(cat, query))
    ensures !UsesCodes(cat, query, kern) ==>
              SameScores(got, exact) && (NoTies(Range(cat.n), cat.Scores(query, Simd)) ==> got == exact)
  {
    var f, g := cat.Scores(query, kern), cat.Scores(query, Simd);
    if UsesCodes(cat, query, kern) {
      forall x: nat | x < cat.n ensures Quantization.Near(f(x) - g(x), Int8Bound(cat, query)) {
        Int8Near(cat, query, x);
      }
      BothNear(cat.n, f, g, Int8Bound(cat, query), k, got, exact);
    } else {
      PlainScores(cat, query, kern);
      BothExact(cat.n, f, g, k, got, exact);
    }
  }

  lemma BothNear(n: nat, f: nat -> real, g: nat -> real, eps: real, k: nat, a: seq<Neighbor>, b: seq<Neighbor>)
    requires Exact(n, f, k, a) && Exact(n, g, k, b) && forall x: nat :: x < n ==> Quantization.Near(f(x) - g(x), eps)
    ensures NearScores(a, b, eps) && |b| == Min(k, n)
  {
    forall x | x in Range(n) ensures g(x) - eps <= f(x) <= g(x) + eps {
      assert Quantization.Near(f(x) - g(x), eps);
    }
    TopListsNear(Range(n), f, g, eps, k, a, b);
  }

  /** One probe: the exact float top k is the gold standard for the k best of what the configured path
      looked at, and the recall is the share of it that they contain. On the exact path, or through an
      index whose landing node reaches everything with a beam as wide as the catalogue, float kernels
      retrieve the same scores, and without ties their recall is one; the int8 kernel retrieves scores
      within its error bound, position by position. */
  method Probe(ix: Index, cat: Catalog, query: Query, kern: Kernel, useIndex: bool, k: nat, ef: int, vis: VisitedSet)
    returns (recall: real, exact: seq<Neighbor>, got: seq<Neighbor>, ghost land: nat, ghost seen: set<nat>)
    requires cat.Valid() && cat.Ready(kern) && cat.Ready(Simd) && QueryOk(query, cat.dim) && cat.n > 0 && k >= 1
    requires ix.Valid() && ix.g.n == cat.n && vis.Valid()
    modifies vis
    ensures vis.Valid() && Exact(cat.n, cat.Scores(query, Simd), k, exact)
    ensures TopList(seen, cat.Scores(query, kern), k, got)
    ensures useIndex ==> Saw(ix.g, cat.Scores(query, kern), k, ef, land, seen)
    ensures !useIndex ==> forall x: nat :: x in seen <==> x < cat.n
    ensures 0.0 <= recall <= 1.0 && recall * (|IdSet(exact)| as real) == |IdSet(exact) * IdSet(got)| as real
    ensures (!useIndex || FindsAll(ix.g, land, k, ef)) && !UsesCodes(cat, query, kern) ==>
              SameScores(got, exact) &&
              (NoTies(Range(cat.n), cat.Scores(query, Simd)) ==> got == exact && recall == 1.0)
    ensures (!useIndex || FindsAll(ix.g, land, k, ef)) && UsesCodes(cat, query, kern) ==>
              NearScores(got, exact, Int8Bound(cat, query))
  {
    exact := Gold(cat, query, k);
    got, land, seen := Retrieved(ix, cat, query, kern, useIndex, k, ef, vis);
    recall := RecallOf(got, exact, k);
    ExactLength(cat.n, cat.Scores(query, Simd), k, exact);
    if !useIndex || FindsAll(ix.g, land, k, ef) { BothFound(cat, query, kern, k, got, exact); }
  }

  lemma ExactLength(n: nat, f: nat -> real, k: nat, w: seq<Neighbor>)
    requires Exact(n, f, k, w)
    ensures |w| == Min(k, n)
  {
  }
}
