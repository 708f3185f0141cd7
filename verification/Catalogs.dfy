/** The catalogue's memory layouts, the kernels that score them, and the exact scan.

    Scores are exact reals, so every float kernel computes the plain per-item dot product. */
module Catalogs {
  import opened Arithmetic
  import Q = Quantization

  const BLOCK := 8
  const CHUNK := 1024

  datatype Kernel = Scalar | Simd | SoaStrided | Blocked | Int8

  datatype Query = Query(v: seq<real>, codes: CodedQuery)

  datatype CodedQuery = Plain | Coded(q: Q.Quantized)

  function Product(x: real, y: real): real { x * y }

  /** The strided dot product every float layout reduces to. */
  function Dot(q: seq<real>, v: seq<real>, base: nat, stride: nat, m: nat): real
    requires m <= |q| && (m > 0 ==> base + (m - 1) * stride < |v|)
  {
    if m == 0 then 0.0 else
      StrideBelow(base, stride, m);
      Dot(q, v, base, stride, m - 1) + Product(q[m - 1], v[base + (m - 1) * stride])
  }

  lemma StrideBelow(base: nat, stride: nat, m: nat)
    ensures m > 1 ==> base + (m - 2) * stride <= base + (m - 1) * stride
  {
    if m > 1 { assert (m - 1) * stride == (m - 2) * stride + stride; }
  }

  /** Component `d` is the same in both layouts. */
  ghost predicate SameCell(v: seq<real>, base: nat, stride: nat, w: seq<real>, base': nat, stride': nat, d: nat) {
    base + d * stride < |v| && base' + d * stride' < |w| && v[base + d * stride] == w[base' + d * stride']
  }

  /** Equal components give equal dots, whatever the layouts. */
  lemma DotLayouts(q: seq<real>, v: seq<real>, base: nat, stride: nat, w: seq<real>, base': nat, stride': nat, m: nat)
    requires m <= |q|
    requires m > 0 ==> base + (m - 1) * stride < |v| && base' + (m - 1) * stride' < |w|
    requires forall d: nat :: d < m ==>
               base + d * stride < |v| && base' + d * stride' < |w| && v[base + d * stride] == w[base' + d * stride']
    ensures Dot(q, v, base, stride, m) == Dot(q, w, base', stride', m)
  {
    forall d: nat | d < m ensures SameCell(v, base, stride, w, base', stride', d) { }
    DotCells(q, v, base, stride, w, base', stride', m);
  }

  lemma {:induction false} DotCells(q: seq<real>, v: seq<real>, base: nat, stride: nat,
                                    w: seq<real>, base': nat, stride': nat, m: nat)
    requires m <= |q|
    requires m > 0 ==> base + (m - 1) * stride < |v| && base' + (m - 1) * stride' < |w|
    requires forall d: nat :: d < m ==> SameCell(v, base, stride, w, base', stride', d)
    ensures Dot(q, v, base, stride, m) == Dot(q, w, base', stride', m)
  {
    if m > 0 {
      assert SameCell(v, base, stride, w, base', stride', m - 1);
      if m > 1 { assert SameCell(v, base, stride, w, base', stride', m - 2); }
      DotCells(q, v, base, stride, w, base', stride', m - 1);
    }
  }

  // -------------------------------------------------------------- the layouts --

  function Blocks(n: nat): nat { (n + BLOCK - 1) / BLOCK }

  /** Position of lane `j` of dimension `d` of block `b`. */
  function Slot(dim: nat, b: nat, d: nat, j: nat): nat { (b * dim + d) * BLOCK + j }

  lemma SlotInside(dim: nat, blocks: nat, b: nat, d: nat, j: nat)
    requires b < blocks && d < dim && j < BLOCK
    ensures b * dim + d < blocks * dim && Slot(dim, b, d, j) < blocks * dim * BLOCK
  {
    CellInside(b, d, blocks, dim);
    CellInside(b * dim + d, j, blocks * dim, BLOCK);
  }

  lemma SlotUnique(dim: nat, b: nat, d: nat, j: nat, b': nat, d': nat, j': nat)
    requires d < dim && d' < dim && j < BLOCK && j' < BLOCK && Slot(dim, b, d, j) == Slot(dim, b', d', j')
    ensures b == b' && d == d' && j == j'
  {
    RowUnique(b * dim + d, j, b' * dim + d', j', BLOCK);
    RowUnique(b, d, b', d', dim);
  }

  ghost predicate RowsOk(aos: seq<real>, n: nat, dim: nat) {
    |aos| == n * dim
  }

  /** Component `d` of item `i`. */
  function Cell(aos: seq<real>, n: nat, dim: nat, i: nat, d: nat): real
    requires RowsOk(aos, n, dim) && i < n && d < dim
  {
    CellInside(i, d, n, dim);
    aos[i * dim + d]
  }

  /** What the blocked layout holds once items below `i`, and the first `dd` components of
      item `i`, have been written: lane j of block b is item 8 b + j, zero when not written. */
  ghost predicate BlockedUpTo(blk: seq<real>, aos: seq<real>, n: nat, dim: nat, i: nat, dd: nat)
    requires RowsOk(aos, n, dim) && i <= n
  {
    && |blk| == Blocks(n) * dim * BLOCK
    && forall b: nat, d: nat, j: nat :: b < Blocks(n) && d < dim && j < BLOCK ==>
         && Slot(dim, b, d, j) < |blk|
         && blk[Slot(dim, b, d, j)] ==
              if b * BLOCK + j < n && (b * BLOCK + j < i || (b * BLOCK + j == i && d < dd))
              then Cell(aos, n, dim, b * BLOCK + j, d) else 0.0
  }

  ghost predicate BlockedOk(blk: seq<real>, aos: seq<real>, n: nat, dim: nat)
    requires RowsOk(aos, n, dim)
  {
    BlockedUpTo(blk, aos, n, dim, n, 0)
  }

  /** Position of dimension `d` of item `i` in the dimension-major layout. */
  function SoaSlot(n: nat, i: nat, d: nat): nat { d * n + i }

  ghost predicate SoaUpTo(soa: seq<real>, aos: seq<real>, n: nat, dim: nat, i: nat, dd: nat)
    requires RowsOk(aos, n, dim)
  {
    && |soa| == n * dim
    && forall k: nat, d: nat :: k < n && d < dim && (k < i || (k == i && d < dd)) ==>
         SoaSlot(n, k, d) < |soa| && soa[SoaSlot(n, k, d)] == Cell(aos, n, dim, k, d)
  }

  /** Row `i` of the catalogue. */
  function Row(aos: seq<real>, n: nat, dim: nat, i: nat): seq<real>
    requires RowsOk(aos, n, dim) && i < n
  {
    RowInside(i, n, dim);
    aos[i * dim..i * dim + dim]
  }

  /** The codes of every item are the quantisation of its row. */
  ghost predicate CodesUpTo(codes: seq<int>, scales: seq<real>, aos: seq<real>, n: nat, dim: nat, i: nat)
    requires RowsOk(aos, n, dim) && i <= n
  {
    && |codes| == i * dim && |scales| == i
    && forall k: nat :: k < i ==> CodesOfItem(codes, scales, aos, n, dim, k)
  }

  ghost predicate CodesOfItem(codes: seq<int>, scales: seq<real>, aos: seq<real>, n: nat, dim: nat, k: nat)
    requires RowsOk(aos, n, dim) && k < n
  {
    && k * dim + dim <= |codes| && k < |scales|
    && Q.Quantized(codes[k * dim..k * dim + dim], scales[k]) == Q.Quantize(Row(aos, n, dim, k))
  }

  lemma PlainInside(aos: seq<real>, n: nat, dim: nat, i: nat)
    requires RowsOk(aos, n, dim) && i < n
    ensures dim > 0 ==> i * dim + (dim - 1) * 1 < |aos|
  {
    RowInside(i, n, dim);
  }

  /** The plain score of item `i`. */
  function PlainScore(q: seq<real>, aos: seq<real>, n: nat, dim: nat, i: nat): real
    requires RowsOk(aos, n, dim) && |q| == dim && i < n
  {
    PlainInside(aos, n, dim, i);
    Dot(q, aos, i * dim, 1, dim)
  }

  /** The score a kernel gives item `i`: the plain one, unless both sides are quantised. */
  function ItemScore(query: Query, kern: Kernel, aos: seq<real>, codes: seq<int>, scales: seq<real>,
                     n: nat, dim: nat, i: nat): real
    requires RowsOk(aos, n, dim) && |query.v| == dim && i < n
  {
    if kern.Int8? && codes != [] && query.codes.Coded? && (i + 1) * dim <= |codes| && i < |scales| &&
       |query.codes.q.q| == dim
    then RowInside(i, i + 1, dim);
         Q.Score(query.codes.q.q, query.codes.q.scale, codes[i * dim..i * dim + dim], scales[i])
    else PlainScore(query.v, aos, n, dim, i)
  }

  /** Every item's score for one query and kernel. */
  function ScoreFn(query: Query, kern: Kernel, aos: seq<real>, codes: seq<int>, scales: seq<real>,
                   n: nat, dim: nat): nat -> real
    requires RowsOk(aos, n, dim) && |query.v| == dim
  {
    (i: nat) => if i < n then ItemScore(query, kern, aos, codes, scales, n, dim, i) else 0.0
  }

  class Catalog {
    var n: nat
    var dim: nat
    var aos: seq<real>
    var soa: seq<real>
    var blk: seq<real>
    var codes: seq<int>
    var scales: seq<real>

    ghost predicate Valid() reads this {
      RowsOk(aos, n, dim)
    }

    /** The layout a kernel reads has been built. */
    ghost predicate Ready(kern: Kernel)
      requires Valid()
      reads this
    {
      && (kern.SoaStrided? ==> SoaUpTo(soa, aos, n, dim, n, 0))
      && (kern.Blocked? ==> BlockedOk(blk, aos, n, dim))
      && (kern.Int8? && codes != [] ==> CodesUpTo(codes, scales, aos, n, dim, n))
    }

    function Scores(query: Query, kern: Kernel): nat -> real
      requires Valid() && |query.v| == dim
      reads this
    {
      ScoreFn(query, kern, aos, codes, scales, n, dim)
    }

    constructor (n: nat, dim: nat, aos: seq<real>)
      requires RowsOk(aos, n, dim)
      ensures Valid() && this.n == n && this.dim == dim && this.aos == aos
      ensures soa == [] && blk == [] && codes == [] && scales == []
    {
      this.n, this.dim, this.aos := n, dim, aos;
      soa, blk, codes, scales := [], [], [], [];
    }

    method RebuildSoa()
      requires Valid()
      modifies this`soa
      ensures Ready(SoaStrided)
    {
      soa := FillSoa(aos, n, dim);
    }

    /** Every slot of the blocked layout is the right component, and the tail block is zero. */
    method RebuildBlocked()
      requires Valid()
      modifies this`blk
      ensures Ready(Blocked)
    {
      blk := FillBlocked(aos, n, dim);
    }

    method QuantizeI8()
      requires Valid()
      modifies this`codes, this`scales
      ensures CodesUpTo(codes, scales, aos, n, dim, n) && Ready(Int8)
    {
      var cs: seq<int>, ss: seq<real> := [], [];
      var i := 0;
      while i < n
        invariant 0 <= i <= n && CodesUpTo(cs, ss, aos, n, dim, i)
      {
        RowInside(i, n, dim);
        var r := Q.QuantizeVector(aos[i * dim..i * dim + dim]);
        CodesAppend(cs, ss, aos, n, dim, i, r);
        cs, ss := cs + r.q, ss + [r.scale];
        i := i + 1;
      }
      codes, scales := cs, ss;
    }
  }

  // ------------------------------------------------------- filling the layouts --

  method FillSoa(aos: seq<real>, n: nat, dim: nat) returns (soa: seq<real>)
    requires RowsOk(aos, n, dim)
    ensures SoaUpTo(soa, aos, n, dim, n, 0)
  {
    soa := seq(n * dim, _ => 0.0);
    var i := 0;
    while i < n
      invariant 0 <= i <= n && SoaUpTo(soa, aos, n, dim, i, 0)
    {
      var d := 0;
      while d < dim
        invariant 0 <= d <= dim && SoaUpTo(soa, aos, n, dim, i, d)
      {
        CellInside(i, d, n, dim);
        SoaInside(n, dim, i, d);
        SoaWrite(soa, aos, n, dim, i, d);
        soa := soa[SoaSlot(n, i, d) := aos[i * dim + d]];
        d := d + 1;
      }
      i := i + 1;
    }
  }

  method FillBlocked(aos: seq<real>, n: nat, dim: nat) returns (blk: seq<real>)
    requires RowsOk(aos, n, dim)
    ensures BlockedOk(blk, aos, n, dim)
  {
    blk := seq(Blocks(n) * dim * BLOCK, _ => 0.0);
    BlockedEmpty(blk, aos, n, dim);
    var i := 0;
    while i < n
      invariant 0 <= i <= n && BlockedUpTo(blk, aos, n, dim, i, 0)
    {
      blk := FillItem(blk, aos, n, dim, i);
      BlockedNext(blk, aos, n, dim, i);
      i := i + 1;
    }
  }

  /** Write one item into its lane. */
  method FillItem(start: seq<real>, aos: seq<real>, n: nat, dim: nat, i: nat) returns (blk: seq<real>)
    requires RowsOk(aos, n, dim) && i < n && BlockedUpTo(start, aos, n, dim, i, 0)
    ensures BlockedUpTo(blk, aos, n, dim, i, dim)
  {
    blk := start;
    var b, j := i / BLOCK, i % BLOCK;
    var d := 0;
    while d < dim
      invariant 0 <= d <= dim && BlockedUpTo(blk, aos, n, dim, i, d)
    {
      CellInside(i, d, n, dim);
      BlockedWrite(blk, aos, n, dim, i, d);
      blk := blk[Slot(dim, b, d, j) := aos[i * dim + d]];
      d := d + 1;
    }
  }

  lemma SoaInside(n: nat, dim: nat, i: nat, d: nat)
    requires i < n && d < dim
    ensures SoaSlot(n, i, d) < n * dim
  {
    CellInside(d, i, dim, n);
  }

  lemma SoaWrite(soa: seq<real>, aos: seq<real>, n: nat, dim: nat, i: nat, d: nat)
    requires RowsOk(aos, n, dim) && i < n && d < dim && SoaUpTo(soa, aos, n, dim, i, d)
    requires SoaSlot(n, i, d) < |soa|
    ensures SoaUpTo(soa[SoaSlot(n, i, d) := Cell(aos, n, dim, i, d)], aos, n, dim, i, d + 1)
  {
    var w := soa[SoaSlot(n, i, d) := Cell(aos, n, dim, i, d)];
    forall k: nat, e: nat | k < n && e < dim && (k < i || (k == i && e < d + 1))
      ensures SoaSlot(n, k, e) < |w| && w[SoaSlot(n, k, e)] == Cell(aos, n, dim, k, e)
    {
      SoaInside(n, dim, k, e);
      if SoaSlot(n, k, e) == SoaSlot(n, i, d) { RowUnique(e, k, d, i, n); }
    }
  }

  lemma BlockedEmpty(blk: seq<real>, aos: seq<real>, n: nat, dim: nat)
    requires RowsOk(aos, n, dim) && |blk| == Blocks(n) * dim * BLOCK
    requires forall p :: 0 <= p < |blk| ==> blk[p] == 0.0
    ensures BlockedUpTo(blk, aos, n, dim, 0, 0)
  {
    forall b: nat, d: nat, j: nat | b < Blocks(n) && d < dim && j < BLOCK
      ensures Slot(dim, b, d, j) < |blk| && blk[Slot(dim, b, d, j)] == 0.0
    {
      SlotInside(dim, Blocks(n), b, d, j);
    }
  }

  lemma BlockedWrite(blk: seq<real>, aos: seq<real>, n: nat, dim: nat, i: nat, d: nat)
    requires RowsOk(aos, n, dim) && i < n && d < dim && BlockedUpTo(blk, aos, n, dim, i, d)
    ensures Slot(dim, i / BLOCK, d, i % BLOCK) < |blk|
    ensures BlockedUpTo(blk[Slot(dim, i / BLOCK, d, i % BLOCK) := Cell(aos, n, dim, i, d)], aos, n, dim, i, d + 1)
  {
    var b, j := i / BLOCK, i % BLOCK;
    assert b < Blocks(n);
    var at := Slot(dim, b, d, j);
    assert at < |blk|;
    var w := blk[at := Cell(aos, n, dim, i, d)];
    forall b': nat, d': nat, j': nat | b' < Blocks(n) && d' < dim && j' < BLOCK
      ensures Slot(dim, b', d', j') < |w|
      ensures w[Slot(dim, b', d', j')] ==
                if b' * BLOCK + j' < n && (b' * BLOCK + j' < i || (b' * BLOCK + j' == i && d' < d + 1))
                then Cell(aos, n, dim, b' * BLOCK + j', d') else 0.0
    {
      assert Slot(dim, b', d', j') < |blk|;
      if b' * BLOCK + j' == i { Remainder(i, BLOCK, b', j'); }
      if Slot(dim, b', d', j') == at { SlotUnique(dim, b, d, j, b', d', j'); }
    }
  }

  lemma BlockedNext(blk: seq<real>, aos: seq<real>, n: nat, dim: nat, i: nat)
    requires RowsOk(aos, n, dim) && i < n && BlockedUpTo(blk, aos, n, dim, i, dim)
    ensures BlockedUpTo(blk, aos, n, dim, i + 1, 0)
  {
  }

  lemma CodesAppend(cs: seq<int>, ss: seq<real>, aos: seq<real>, n: nat, dim: nat, i: nat, r: Q.Quantized)
    requires RowsOk(aos, n, dim) && i < n && CodesUpTo(cs, ss, aos, n, dim, i) && r == Q.Quantize(Row(aos, n, dim, i))
    ensures CodesUpTo(cs + r.q, ss + [r.scale], aos, n, dim, i + 1)
  {
    RowInside(i, n, dim);
    var cs', ss' := cs + r.q, ss + [r.scale];
    forall k: nat | k < i + 1 ensures CodesOfItem(cs', ss', aos, n, dim, k) {
      if k < i {
        assert CodesOfItem(cs, ss, aos, n, dim, k);
        assert cs'[k * dim..k * dim + dim] == cs[k * dim..k * dim + dim];
      } else {
        assert cs'[i * dim..i * dim + dim] == r.q;
      }
    }
  }
}
