/** Scoring kernels over the catalogue layouts, and the chunked exact top-k scan. */
module ExactScans {
  import opened Arithmetic
  import opened Basics
  import opened Neighbors
  import opened Catalogs
  import Q = Quantization

  /** The query has the catalogue's dimension and, if quantised, was quantised from itself. */
  ghost predicate QueryOk(query: Query, dim: nat) {
    |query.v| == dim && (query.codes.Coded? ==> query.codes.q == Q.Quantize(query.v))
  }

  // ----------------------------------------------------------------- kernels --

  /** One sweep over a block scores its eight lanes. */
  method ScoreBlock(q: seq<real>, blk: seq<real>, base: nat, dim: nat) returns (out: seq<real>)
    requires |q| == dim && base + dim * BLOCK <= |blk|
    ensures |out| == BLOCK
    ensures forall j: nat :: j < BLOCK ==> (dim > 0 ==> base + j + (dim - 1) * BLOCK < |blk|) &&
                                           out[j] == Dot(q, blk, base + j, BLOCK, dim)
  {
    out := seq(BLOCK, _ => 0.0);
    var d := 0;
    while d < dim
      invariant 0 <= d <= dim && |out| == BLOCK
      invariant forall j: nat :: j < BLOCK ==> (d > 0 ==> base + j + (d - 1) * BLOCK < |blk|) &&
                                               out[j] == Dot(q, blk, base + j, BLOCK, d)
    {
      out := ScoreRow(q, blk, base, d, out);
      d := d + 1;
    }
  }

  method ScoreRow(q: seq<real>, blk: seq<real>, base: nat, d: nat, start: seq<real>) returns (out: seq<real>)
    requires d < |q| && base + (d + 1) * BLOCK <= |blk| && |start| == BLOCK
    requires forall j: nat :: j < BLOCK ==> (d > 0 ==> base + j + (d - 1) * BLOCK < |blk|) &&
                                            start[j] == Dot(q, blk, base + j, BLOCK, d)
    ensures |out| == BLOCK
    ensures forall j: nat :: j < BLOCK ==> base + j + d * BLOCK < |blk| && out[j] == Dot(q, blk, base + j, BLOCK, d + 1)
  {
    out := start;
    var j := 0;
    while j < BLOCK
      invariant 0 <= j <= BLOCK == |out|
      invariant forall t: nat :: j <= t < BLOCK ==> out[t] == start[t]
      invariant forall t: nat :: t < j ==> base + t + d * BLOCK < |blk| && out[t] == Dot(q, blk, base + t, BLOCK, d + 1)
    {
      out := out[j := out[j] + Product(q[d], blk[base + d * BLOCK + j])];
      j := j + 1;
    }
  }

  /** Component `d` of a lane of the blocked matrix is component `d` of a row. */
  ghost predicate SameCell(blk: seq<real>, aos: seq<real>, base: nat, at: nat, d: nat) {
    base + d * BLOCK < |blk| && at + d * 1 < |aos| && blk[base + d * BLOCK] == aos[at + d * 1]
  }

  /** A lane of the blocked layout holds the components of the item it belongs to. */
  lemma LaneCell(blk: seq<real>, aos: seq<real>, n: nat, dim: nat, b: nat, j: nat, d: nat, base: nat, at: nat)
    requires RowsOk(aos, n, dim) && BlockedOk(blk, aos, n, dim)
    requires j < BLOCK && b * BLOCK + j < n && d < dim
    requires base == b * dim * BLOCK + j && at == (b * BLOCK + j) * dim
    ensures SameCell(blk, aos, base, at, d)
  {
    assert b < Blocks(n);
    assert Slot(dim, b, d, j) == base + d * BLOCK;
    assert Slot(dim, b, d, j) < |blk| && blk[Slot(dim, b, d, j)] == Cell(aos, n, dim, b * BLOCK + j, d);
    CellInside(b * BLOCK + j, d, n, dim);
  }

  lemma LaneScore(q: seq<real>, blk: seq<real>, aos: seq<real>, n: nat, dim: nat, b: nat, j: nat)
    requires RowsOk(aos, n, dim) && |q| == dim && BlockedOk(blk, aos, n, dim)
    requires j < BLOCK && b * BLOCK + j < n
    ensures dim > 0 ==> b * dim * BLOCK + j + (dim - 1) * BLOCK < |blk|
    ensures Dot(q, blk, b * dim * BLOCK + j, BLOCK, dim) == PlainScore(q, aos, n, dim, b * BLOCK + j)
  {
    var base: nat, at: nat := b * dim * BLOCK + j, (b * BLOCK + j) * dim;
    forall d: nat | d < dim ensures SameCell(blk, aos, base, at, d) { LaneCell(blk, aos, n, dim, b, j, d, base, at); }
    PlainInside(aos, n, dim, b * BLOCK + j);
    SameDot(q, blk, aos, base, at, dim);
  }

  lemma SameDot(q: seq<real>, blk: seq<real>, aos: seq<real>, base: nat, at: nat, dim: nat)
    requires |q| == dim && forall d: nat :: d < dim ==> SameCell(blk, aos, base, at, d)
    ensures dim > 0 ==> base + (dim - 1) * BLOCK < |blk| && at + (dim - 1) * 1 < |aos|
    ensures Dot(q, blk, base, BLOCK, dim) == Dot(q, aos, at, 1, dim)
  {
    if dim > 0 { assert SameCell(blk, aos, base, at, dim - 1); }
    forall d: nat | d < dim
      ensures base + d * BLOCK < |blk| && at + d * 1 < |aos| && blk[base + d * BLOCK] == aos[at + d * 1]
    {
      assert SameCell(blk, aos, base, at, d);
    }
    DotLayouts(q, blk, base, BLOCK, aos, at, 1, dim);
  }

  lemma StridedScore(q: seq<real>, soa: seq<real>, aos: seq<real>, n: nat, dim: nat, i: nat)
    requires RowsOk(aos, n, dim) && |q| == dim && SoaUpTo(soa, aos, n, dim, n, 0) && i < n
    ensures dim > 0 ==> i + (dim - 1) * n < |soa|
    ensures Dot(q, soa, i, n, dim) == PlainScore(q, aos, n, dim, i)
  {
    forall d: nat | d < dim
      ensures i + d * n < |soa| && i * dim + d * 1 < |aos| && soa[i + d * n] == aos[i * dim + d * 1]
    {
      assert SoaSlot(n, i, d) == i + d * n;
      CellInside(i, d, n, dim);
    }
    PlainInside(aos, n, dim, i);
    DotLayouts(q, soa, i, n, aos, i * dim, 1, dim);
  }

  method DotStrided(q: seq<real>, v: seq<real>, base: nat, stride: nat, dim: nat) returns (s: real)
    requires dim <= |q| && (dim > 0 ==> base + (dim - 1) * stride < |v|)
    ensures s == Dot(q, v, base, stride, dim)
  {
    s := 0.0;
    var d := 0;
    while d < dim
      invariant 0 <= d <= dim && (d > 0 ==> base + (d - 1) * stride < |v|) && s == Dot(q, v, base, stride, d)
    {
      StrideMono(base, stride, d, dim - 1);
      s := s + Product(q[d], v[base + d * stride]);
      d := d + 1;
      assert base + (d - 1) * stride < |v|;
    }
  }

  lemma StrideMono(base: nat, stride: nat, d: nat, e: nat)
    requires d <= e
    ensures base + d * stride <= base + e * stride
  {
    assert e * stride == d * stride + (e - d) * stride;
    assert (e - d) * stride >= 0;
  }

  /** Which scores the int8 kernel takes from the codes. */
  lemma CodedScore(cat: Catalog, query: Query, i: nat)
    requires cat.Valid() && cat.Ready(Int8) && QueryOk(query, cat.dim) && i < cat.n
    requires cat.codes != [] && query.codes.Coded?
    ensures (i + 1) * cat.dim <= |cat.codes| && i < |cat.scales| && i * cat.dim + cat.dim == (i + 1) * cat.dim
    ensures var row := cat.codes[i * cat.dim..i * cat.dim + cat.dim];
            && |query.codes.q.q| == |row| == cat.dim && Q.Coded(row) && Q.Coded(query.codes.q.q)
            && cat.Scores(query, Int8)(i) == Q.Score(query.codes.q.q, query.codes.q.scale, row, cat.scales[i])
  {
    RowInside(i, cat.n, cat.dim);
    assert CodesOfItem(cat.codes, cat.scales, cat.aos, cat.n, cat.dim, i);
    Q.QuantizeEncodes(query.v);
    Q.QuantizeEncodes(Row(cat.aos, cat.n, cat.dim, i));
  }

  method CodedDot(cat: Catalog, query: Query, i: nat) returns (s: real)
    requires cat.Valid() && cat.Ready(Int8) && QueryOk(query, cat.dim) && i < cat.n
    requires cat.codes != [] && query.codes.Coded?
    ensures s == cat.Scores(query, Int8)(i)
  {
    CodedScore(cat, query, i);
    var row := cat.codes[i * cat.dim..i * cat.dim + cat.dim];
    var acc := Q.DotI8Lanes(query.codes.q.q, row, cat.dim, 8, 2);
    s := Q.Rescale(acc, query.codes.q.scale, cat.scales[i]);
  }

  method PlainDot(cat: Catalog, query: Query, i: nat) returns (s: real)
    requires cat.Valid() && QueryOk(query, cat.dim) && i < cat.n
    ensures s == PlainScore(query.v, cat.aos, cat.n, cat.dim, i)
  {
    PlainInside(cat.aos, cat.n, cat.dim, i);
    s := DotStrided(query.v, cat.aos, i * cat.dim, 1, cat.dim);
  }

  /** The score of one item, read from whichever layout the kernel uses. */
  method DotItem(cat: Catalog, query: Query, i: nat, kern: Kernel) returns (s: real)
    requires cat.Valid() && cat.Ready(kern) && QueryOk(query, cat.dim) && i < cat.n
    ensures s == cat.Scores(query, kern)(i)
  {
    match kern
    case Int8 =>
      if cat.codes == [] || query.codes.Plain? {
        s := PlainDot(cat, query, i);
      } else {
        s := CodedDot(cat, query, i);
      }
    case SoaStrided =>
      StridedScore(query.v, cat.soa, cat.aos, cat.n, cat.dim, i);
      s := DotStrided(query.v, cat.soa, i, cat.n, cat.dim);
    case _ =>
      s := PlainDot(cat, query, i);
  }

  /** Contiguous scan; the blocked kernel sweeps whole blocks and drops the lanes past the end. */
  method ScoreRange(cat: Catalog, query: Query, kern: Kernel, begin: nat, count: nat) returns (out: seq<real>)
    requires cat.Valid() && cat.Ready(kern) && QueryOk(query, cat.dim) && begin + count <= cat.n
    requires kern.Blocked? ==> begin % BLOCK == 0
    ensures |out| == count
    ensures forall j: nat :: j < count ==> out[j] == cat.Scores(query, kern)(begin + j)
  {
    if kern.Blocked? {
      out := ScoreBlocks(cat, query, begin, count);
    } else {
      out := [];
      var i := 0;
      while i < count
        invariant 0 <= i <= count && |out| == i
        invariant forall j: nat :: j < i ==> out[j] == cat.Scores(query, kern)(begin + j)
      {
        var s := DotItem(cat, query, begin + i, kern);
        out := out + [s];
        i := i + 1;
      }
    }
  }

  lemma BlockInside(cat: Catalog, blkIdx: nat)
    requires cat.Valid() && cat.Ready(Blocked) && blkIdx * BLOCK < cat.n
    ensures blkIdx * cat.dim * BLOCK + cat.dim * BLOCK <= |cat.blk|
  {
    RowInside(blkIdx, Blocks(cat.n), cat.dim);
    assert (blkIdx * cat.dim + cat.dim) * BLOCK <= Blocks(cat.n) * cat.dim * BLOCK;
  }

  method ScoreBlocks(cat: Catalog, query: Query, begin: nat, count: nat) returns (out: seq<real>)
    requires cat.Valid() && cat.Ready(Blocked) && QueryOk(query, cat.dim) && begin + count <= cat.n
    requires begin % BLOCK == 0
    ensures |out| == count
    ensures forall j: nat :: j < count ==> out[j] == cat.Scores(query, Blocked)(begin + j)
  {
    out := [];
    var nb := (count + BLOCK - 1) / BLOCK;
    var b := 0;
    while b < nb
      invariant 0 <= b <= nb && |out| == Min(b * BLOCK, count)
      invariant forall j: nat :: j < |out| ==> out[j] == cat.Scores(query, Blocked)(begin + j)
    {
      var blkIdx := begin / BLOCK + b;
      var lim := if BLOCK < count - b * BLOCK then BLOCK else count - b * BLOCK;
      BlockInside(cat, blkIdx);
      var tmp := ScoreBlock(query.v, cat.blk, blkIdx * cat.dim * BLOCK, cat.dim);
      forall j: nat | j < lim ensures tmp[j] == cat.Scores(query, Blocked)(begin + b * BLOCK + j) {
        LaneScore(query.v, cat.blk, cat.aos, cat.n, cat.dim, blkIdx, j);
        assert blkIdx * BLOCK + j == begin + b * BLOCK + j;
      }
      out := out + tmp[..lim];
      b := b + 1;
    }
  }

  // ------------------------------------------------------- the exact scan --

  /** A heap's one promise: its front is a worst entry. */
  ghost predicate WorstFirst(w: seq<Neighbor>) {
    forall i :: 0 <= i < |w| ==> w[0].score <= w[i].score
  }

  method MakeHeap(w: seq<Neighbor>) returns (h: seq<Neighbor>)
    ensures multiset(h) == multiset(w) && WorstFirst(h)
  {
    if w == [] { return w; }
    var c, rest, at := PopWorst(w);
    assert w == w[..at] + [c] + w[at + 1..];
    h := [c] + rest;
    assert forall i :: 0 <= i < |rest| ==> rest[i] == w[if i < at then i else i + 1];
  }

  /** `ids` is 0 .. t - 1. */
  ghost predicate IsBelow(ids: set<nat>, t: nat) {
    forall x: nat :: x in ids <==> x < t
  }

  /** The heap holds the best k of the items offered so far, a worst one in front once full. */
  ghost predicate HeapOk(ids: set<nat>, f: nat -> real, k: nat, heap: seq<Neighbor>) {
    BestOf(ids, f, k, heap) && (|heap| == k ==> WorstFirst(heap))
  }

  /** The chunked heap scan returns the exact best k, best first. */
  method Brute(cat: Catalog, query: Query, k: nat, kern: Kernel) returns (best: seq<Neighbor>)
    requires cat.Valid() && cat.Ready(kern) && QueryOk(query, cat.dim) && k >= 1
    ensures TopList(Range(cat.n), cat.Scores(query, kern), k, best)
  {
    ghost var f := cat.Scores(query, kern);
    var heap: seq<Neighbor> := [];
    ghost var ids: set<nat> := {};
    var base := 0;
    while base < cat.n
      invariant base % BLOCK == 0 && IsBelow(ids, Min(base, cat.n)) && HeapOk(ids, f, k, heap)
      decreases cat.n - base
    {
      var cnt := Min(CHUNK, cat.n - base);
      var buf := ScoreRange(cat, query, kern, base, cnt);
      heap, ids := OfferAll(heap, f, k, ids, base, buf);
      base := base + CHUNK;
    }
    assert ids == Range(cat.n);
    best := SortDescending(heap);
    ReorderedBest(ids, f, k, heap, best);
  }

  /** Offer a chunk of consecutive items to the heap. */
  method OfferAll(start: seq<Neighbor>, ghost f: nat -> real, k: nat, ghost ids: set<nat>, base: nat, buf: seq<real>)
    returns (heap: seq<Neighbor>, ghost seen: set<nat>)
    requires k >= 1 && IsBelow(ids, base) && HeapOk(ids, f, k, start)
    requires forall j: nat :: j < |buf| ==> buf[j] == f(base + j)
    ensures IsBelow(seen, base + |buf|) && HeapOk(seen, f, k, heap)
  {
    heap, seen := start, ids;
    var j := 0;
    while j < |buf|
      invariant 0 <= j <= |buf| && IsBelow(seen, base + j) && HeapOk(seen, f, k, heap)
    {
      heap := Offer(heap, f, k, seen, base + j, buf[j]);
      seen := seen + {base + j};
      j := j + 1;
    }
  }

  /** Offer the next item to the heap of the best k so far. */
  method Offer(heap: seq<Neighbor>, ghost f: nat -> real, k: nat, ghost ids: set<nat>, t: nat, score: real)
    returns (h: seq<Neighbor>)
    requires k >= 1 && HeapOk(ids, f, k, heap) && score == f(t) && t !in ids
    ensures HeapOk(ids + {t}, f, k, h)
  {
    var nb := Neighbor(t, score);
    if |heap| < k {
      BestPush(ids, f, k, heap, t);
      h := heap + [nb];
      if |h| == k {
        ghost var full := h;
        h := MakeHeap(h);
        ReorderedBest(ids + {t}, f, k, full, h);
      }
    } else if nb.score > heap[0].score {
      ghost var kept := ReplaceWorst(ids, f, k, heap, t);
      h := MakeHeap(heap[1..] + [nb]);
      ReorderedBest(ids + {t}, f, k, kept, h);
    } else {
      BestKeep(ids, f, k, heap, t);
      h := heap;
    }
  }

  lemma ReplaceWorst(ids: set<nat>, f: nat -> real, k: nat, heap: seq<Neighbor>, t: nat) returns (kept: seq<Neighbor>)
    requires BestOf(ids, f, k, heap) && |heap| == k >= 1 && WorstFirst(heap) && t !in ids && f(t) > heap[0].score
    ensures kept == heap[1..] + [Neighbor(t, f(t))] && BestOf(ids + {t}, f, k, kept)
  {
    BestPush(ids, f, k, heap, t);
    var wide := heap + [Neighbor(t, f(t))];
    kept := wide[..0] + wide[0 + 1..];
    BestDrop(ids + {t}, f, k, wide, 0, kept);
    assert kept == heap[1..] + [Neighbor(t, f(t))];
  }

  // ------------------------------------------------- what int8 scoring loses --

  lemma {:induction false} DotIsSum(q: seq<real>, v: seq<real>, base: nat, m: nat)
    requires m <= |q| && base + m <= |v| && (m > 0 ==> base + (m - 1) * 1 < |v|)
    ensures Dot(q, v, base, 1, m) == Q.Sum(Q.Terms(q[..m], v[base..base + m]))
  {
    if m > 0 {
      DotIsSum(q, v, base, m - 1);
      var terms, shorter := Q.Terms(q[..m], v[base..base + m]), Q.Terms(q[..m - 1], v[base..base + (m - 1)]);
      assert |terms| == m && |shorter| == m - 1;
      forall i | 0 <= i < m - 1 ensures terms[i] == shorter[i] {
        assert q[..m][i] == q[i] == q[..m - 1][i];
        assert v[base..base + m][i] == v[base + i] == v[base..base + (m - 1)][i];
      }
      assert terms[..m - 1] == shorter;
      assert q[..m][m - 1] == q[m - 1] && v[base..base + m][m - 1] == v[base + (m - 1) * 1];
      assert terms[m - 1] == Product(q[m - 1], v[base + (m - 1) * 1]);
    }
  }

  /** An int8 score is off by at most dim * max|q| * max|row| / 127. */
  lemma Int8ItemError(cat: Catalog, query: Query, i: nat)
    requires cat.Valid() && cat.Ready(Int8) && QueryOk(query, cat.dim) && i < cat.n
    requires cat.codes != [] && query.codes.Coded?
    ensures Q.WithinBound(cat.Scores(query, Int8)(i), PlainScore(query.v, cat.aos, cat.n, cat.dim, i), cat.dim,
                          Q.MaxAbs(query.v), Q.MaxAbs(Row(cat.aos, cat.n, cat.dim, i)))
  {
    CodedScore(cat, query, i);
    var row := Row(cat.aos, cat.n, cat.dim, i);
    assert CodesOfItem(cat.codes, cat.scales, cat.aos, cat.n, cat.dim, i);
    Q.QuantizedScoreError(query.v, row);
    PlainInside(cat.aos, cat.n, cat.dim, i);
    RowInside(i, cat.n, cat.dim);
    DotIsSum(query.v, cat.aos, i * cat.dim, cat.dim);
    assert query.v[..cat.dim] == query.v;
  }

  /** The error bound of the largest item, which covers every item. */
  ghost function Int8Bound(cat: Catalog, query: Query): real
    reads cat
  {
    Q.Bound(cat.dim, Q.MaxAbs(query.v), Q.MaxAbs(cat.aos))
  }

  /** The bound is the dimension times the largest magnitudes of the query and of any item, over 127. */
  lemma Int8BoundIs(cat: Catalog, query: Query, mx: real, my: real)
    requires mx >= 0.0 && my >= 0.0 && query.v != [] && cat.aos != []
    requires (forall d :: 0 <= d < |query.v| ==> 0.0 - mx <= query.v[d] <= mx) &&
             exists d :: 0 <= d < |query.v| && (query.v[d] == mx || query.v[d] == 0.0 - mx)
    requires (forall d :: 0 <= d < |cat.aos| ==> 0.0 - my <= cat.aos[d] <= my) &&
             exists d :: 0 <= d < |cat.aos| && (cat.aos[d] == my || cat.aos[d] == 0.0 - my)
    ensures Int8Bound(cat, query) == cat.dim as real * (mx * my / 127.0)
  {
    Q.MaxAbsIs(query.v, mx);
    Q.MaxAbsIs(cat.aos, my);
  }

  lemma Int8Near(cat: Catalog, query: Query, i: nat)
    requires cat.Valid() && cat.Ready(Int8) && QueryOk(query, cat.dim) && i < cat.n
    requires cat.codes != [] && query.codes.Coded?
    ensures Q.Near(cat.Scores(query, Int8)(i) - cat.Scores(query, Simd)(i), Int8Bound(cat, query))
  {
    Int8ItemError(cat, query, i);
    var row := Row(cat.aos, cat.n, cat.dim, i);
    RowInside(i, cat.n, cat.dim);
    forall d | 0 <= d < |row| ensures Q.Abs(row[d]) <= Q.MaxAbs(cat.aos) {
      assert row[d] == cat.aos[i * cat.dim + d];
      Q.MaxAbsBounds(cat.aos, i * cat.dim + d);
    }
    Q.MaxAbsAtMost(row, Q.MaxAbs(cat.aos));
    Q.BoundGrows(cat.dim, Q.MaxAbs(query.v), Q.MaxAbs(row), Q.MaxAbs(cat.aos));
  }
}
