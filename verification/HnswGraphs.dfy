/** The HNSW index's arrays and the layered graph they encode. */
module HnswGraphs {
  import opened Arithmetic

  /** A neighbour list is copied into a buffer of this many ids before it is scanned. */
  const BUFFER := 128

  /** The index's fields: flat layer-0 links, and one row of links per upper layer of a node. */
  datatype Graph = Graph(n: nat, dim: nat, m: nat, mMax: nat, mMax0: nat, maxLevel: nat, entry: nat,
                         links0: seq<nat>, deg0: seq<nat>, level: seq<nat>,
                         upper: seq<seq<nat>>, updeg: seq<seq<nat>>)

  ghost predicate Shape(g: Graph) {
    && |g.links0| == g.n * g.mMax0
    && |g.deg0| == |g.level| == |g.upper| == |g.updeg| == g.n
    && forall i :: 0 <= i < g.n ==> |g.updeg[i]| == g.level[i] && |g.upper[i]| == g.level[i] * g.mMax
  }

  /** Node `i` exists on layer `lay`. */
  predicate OnLayer(g: Graph, i: nat, lay: nat) {
    i < g.n && i < |g.level| && lay <= g.level[i]
  }

  function Cap(g: Graph, lay: nat): nat { if lay == 0 then g.mMax0 else g.mMax }

  lemma RowBounds(g: Graph, i: nat, lay: nat)
    requires Shape(g) && OnLayer(g, i, lay)
    ensures lay == 0 ==> i * g.mMax0 + g.mMax0 <= |g.links0|
    ensures lay > 0 ==> (lay - 1) * g.mMax + g.mMax <= |g.upper[i]|
  {
    if lay == 0 { RowInside(i, g.n, g.mMax0); } else { RowInside(lay - 1, g.level[i], g.mMax); }
  }

  /** The slots reserved for the links of node `i` on a layer. */
  function Row(g: Graph, i: nat, lay: nat): (r: seq<nat>)
    requires Shape(g) && OnLayer(g, i, lay)
    ensures |r| == Cap(g, lay)
  {
    RowBounds(g, i, lay);
    if lay == 0 then g.links0[i * g.mMax0..i * g.mMax0 + g.mMax0]
    else g.upper[i][(lay - 1) * g.mMax..(lay - 1) * g.mMax + g.mMax]
  }

  function DegAt(g: Graph, i: nat, lay: nat): nat
    requires Shape(g) && OnLayer(g, i, lay)
  {
    if lay == 0 then g.deg0[i] else g.updeg[i][lay - 1]
  }

  /** The links a traversal sees: as many slots as the degree says, never more than the row. */
  function Links(g: Graph, i: nat, lay: nat): (r: seq<nat>)
    requires Shape(g) && OnLayer(g, i, lay)
    ensures |r| <= Cap(g, lay)
  {
    Row(g, i, lay)[..if DegAt(g, i, lay) <= Cap(g, lay) then DegAt(g, i, lay) else Cap(g, lay)]
  }

  /** Every link of every layer leads to a node that exists on that layer. */
  ghost predicate LinksOk(g: Graph)
    requires Shape(g)
  {
    forall i: nat, lay: nat, j: nat ::
      OnLayer(g, i, lay) && j < |Links(g, i, lay)| ==> OnLayer(g, Links(g, i, lay)[j], lay)
  }

  /** Every list of links fits the buffer it is copied into. */
  ghost predicate ListsFit(g: Graph)
    requires Shape(g)
  {
    forall i: nat, lay: nat {:trigger Links(g, i, lay)} :: OnLayer(g, i, lay) ==> |Links(g, i, lay)| <= BUFFER
  }

  /** What a search relies on: with it every array access of a traversal is in bounds. */
  ghost predicate Searchable(g: Graph) {
    && Shape(g) && ListsFit(g)
    && (g.n > 0 ==> OnLayer(g, g.entry, g.maxLevel))
    && LinksOk(g)
  }

  // -------------------------------------------------------------- reachability --

  ghost predicate Edge(g: Graph, lay: nat, limit: nat, x: nat, y: nat)
    requires Shape(g)
  {
    OnLayer(g, x, lay) && y in Links(g, x, lay) && y < limit
  }

  ghost predicate IsPath(g: Graph, lay: nat, limit: nat, p: seq<nat>)
    requires Shape(g)
  {
    p != [] && forall i :: 0 <= i < |p| - 1 ==> Edge(g, lay, limit, p[i], p[i + 1])
  }

  /** `b` can be reached from `a` along links of one layer that stay below the limit. */
  ghost predicate Reach(g: Graph, lay: nat, limit: nat, a: nat, b: nat)
    requires Shape(g)
  {
    exists p :: IsPath(g, lay, limit, p) && p[0] == a && p[|p| - 1] == b
  }

  lemma ReachSelf(g: Graph, lay: nat, limit: nat, a: nat)
    requires Shape(g)
    ensures Reach(g, lay, limit, a, a)
  {
    assert IsPath(g, lay, limit, [a]);
  }

  lemma ReachStep(g: Graph, lay: nat, limit: nat, a: nat, x: nat, y: nat)
    requires Shape(g) && Reach(g, lay, limit, a, x) && Edge(g, lay, limit, x, y)
    ensures Reach(g, lay, limit, a, y)
  {
    var p :| IsPath(g, lay, limit, p) && p[0] == a && p[|p| - 1] == x;
    var q := p + [y];
    forall i | 0 <= i < |q| - 1 ensures Edge(g, lay, limit, q[i], q[i + 1]) {
      if i < |p| - 1 { assert Edge(g, lay, limit, p[i], p[i + 1]); }
    }
    assert IsPath(g, lay, limit, q);
  }

  ghost predicate Closed(g: Graph, lay: nat, limit: nat, s: set<nat>)
    requires Shape(g)
  {
    forall x, y :: x in s && Edge(g, lay, limit, x, y) ==> y in s
  }

  /** A closed set holding the start of a path holds its end. */
  lemma ClosedReach(g: Graph, lay: nat, limit: nat, s: set<nat>, a: nat, b: nat)
    requires Shape(g) && Closed(g, lay, limit, s) && a in s && Reach(g, lay, limit, a, b)
    ensures b in s
  {
    var p :| IsPath(g, lay, limit, p) && p[0] == a && p[|p| - 1] == b;
    ClosedPath(g, lay, limit, s, p, |p| - 1);
  }

  lemma {:induction false} ClosedPath(g: Graph, lay: nat, limit: nat, s: set<nat>, p: seq<nat>, i: nat)
    requires Shape(g) && Closed(g, lay, limit, s) && IsPath(g, lay, limit, p) && p[0] in s && i < |p|
    ensures p[i] in s
  {
    if i > 0 {
      ClosedPath(g, lay, limit, s, p, i - 1);
      assert Edge(g, lay, limit, p[i - 1], p[i]);
    }
  }

  // --------------------------------------------------------------- array writes --

  function Set(s: seq<nat>, k: nat, x: nat): seq<nat>
    requires k < |s|
  {
    s[k := x]
  }

  function PutLink(g: Graph, i: nat, lay: nat, j: nat, x: nat): Graph
    requires Shape(g) && OnLayer(g, i, lay) && j < Cap(g, lay)
  {
    RowBounds(g, i, lay);
    if lay == 0 then g.(links0 := g.links0[i * g.mMax0 + j := x])
    else g.(upper := g.upper[i := Set(g.upper[i], (lay - 1) * g.mMax + j, x)])
  }

  function PutDeg(g: Graph, i: nat, lay: nat, d: nat): Graph
    requires Shape(g) && OnLayer(g, i, lay)
  {
    if lay == 0 then g.(deg0 := g.deg0[i := d]) else g.(updeg := g.updeg[i := Set(g.updeg[i], lay - 1, d)])
  }

  /** Two graphs that differ at most in link slots and degrees. */
  ghost predicate SameNodes(g: Graph, h: Graph) {
    g.n == h.n && g.dim == h.dim && g.m == h.m && g.mMax == h.mMax && g.mMax0 == h.mMax0 &&
    g.maxLevel == h.maxLevel && g.entry == h.entry && g.level == h.level
  }

  /** `h` is `g` except, perhaps, for the row and degree of one node on one layer. */
  ghost predicate OnlyRow(g: Graph, h: Graph, i: nat, lay: nat) {
    && Shape(g) && Shape(h) && SameNodes(g, h)
    && forall a: nat, l: nat :: OnLayer(g, a, l) && (a != i || l != lay) ==>
         Row(h, a, l) == Row(g, a, l) && DegAt(h, a, l) == DegAt(g, a, l)
  }

  /** Writing one cell of one row changes no length. */
  lemma LengthsStay(t: seq<seq<nat>>, i: nat, k: nat, x: nat)
    requires i < |t| && k < |t[i]|
    ensures var u := t[i := Set(t[i], k, x)];
            |u| == |t| && forall a :: 0 <= a < |t| ==> |u[a]| == |t[a]|
  {
  }

  lemma SameShape(g: Graph, h: Graph)
    requires Shape(g) && SameNodes(g, h) && |h.links0| == |g.links0| && h.deg0 == g.deg0 && h.updeg == g.updeg
    requires |h.upper| == |g.upper| && forall a :: 0 <= a < g.n ==> |h.upper[a]| == |g.upper[a]|
    ensures Shape(h)
  {
  }

  lemma BaseShape(g: Graph, k: nat, x: nat, h: Graph)
    requires Shape(g) && k < |g.links0| && h == g.(links0 := g.links0[k := x])
    ensures Shape(h)
  {
    SameShape(g, h);
  }

  lemma UpperShape(g: Graph, i: nat, k: nat, x: nat, h: Graph)
    requires Shape(g) && i < |g.upper| && k < |g.upper[i]| && h == g.(upper := g.upper[i := Set(g.upper[i], k, x)])
    ensures Shape(h)
  {
    LengthsStay(g.upper, i, k, x);
    SameShape(g, h);
  }

  lemma PutLinkShape(g: Graph, i: nat, lay: nat, j: nat, x: nat)
    requires Shape(g) && OnLayer(g, i, lay) && j < Cap(g, lay)
    ensures Shape(PutLink(g, i, lay, j, x)) && SameNodes(g, PutLink(g, i, lay, j, x))
    ensures PutLink(g, i, lay, j, x).deg0 == g.deg0 && PutLink(g, i, lay, j, x).updeg == g.updeg
  {
    RowBounds(g, i, lay);
    if lay == 0 {
      BaseShape(g, i * g.mMax0 + j, x, PutLink(g, i, lay, j, x));
    } else {
      UpperShape(g, i, (lay - 1) * g.mMax + j, x, PutLink(g, i, lay, j, x));
    }
  }

  lemma BaseRowAfterPutLink(g: Graph, i: nat, j: nat, x: nat, a: nat)
    requires Shape(g) && i < g.n && j < g.mMax0 && a < g.n
    requires Shape(PutLink(g, i, 0, j, x))
    ensures Row(PutLink(g, i, 0, j, x), a, 0) == if a == i then Row(g, a, 0)[j := x] else Row(g, a, 0)
  {
    RowBounds(g, i, 0);
    RowBounds(g, a, 0);
    RowWrite(g.links0, g.mMax0, i, j, x, a);
  }

  lemma UpperRowAfterPutLink(g: Graph, i: nat, lay: nat, j: nat, x: nat, l: nat)
    requires Shape(g) && 0 < lay && OnLayer(g, i, lay) && j < g.mMax && 0 < l && OnLayer(g, i, l)
    requires Shape(PutLink(g, i, lay, j, x))
    ensures Row(PutLink(g, i, lay, j, x), i, l) == if l == lay then Row(g, i, l)[j := x] else Row(g, i, l)
  {
    RowBounds(g, i, lay);
    RowBounds(g, i, l);
    RowWrite(g.upper[i], g.mMax, lay - 1, j, x, l - 1);
  }

  lemma RowAfterPutLink(g: Graph, i: nat, lay: nat, j: nat, x: nat, a: nat, l: nat)
    requires Shape(g) && OnLayer(g, i, lay) && j < Cap(g, lay) && OnLayer(g, a, l)
    requires Shape(PutLink(g, i, lay, j, x))
    ensures Row(PutLink(g, i, lay, j, x), a, l) == if a == i && l == lay then Row(g, a, l)[j := x] else Row(g, a, l)
  {
    if lay == 0 && l == 0 {
      BaseRowAfterPutLink(g, i, j, x, a);
    } else if lay > 0 && l > 0 && a == i {
      UpperRowAfterPutLink(g, i, lay, j, x, l);
    }
  }

  /** Writing one cell of a row-major table changes that row alone. */
  lemma RowWrite(t: seq<nat>, width: nat, i: nat, j: nat, x: nat, a: nat)
    requires j < width && i * width + width <= |t| && a * width + width <= |t|
    ensures var u := t[i * width + j := x];
            u[a * width..a * width + width] ==
              if a == i then t[a * width..a * width + width][j := x] else t[a * width..a * width + width]
  {
    var u := t[i * width + j := x];
    var r, s := t[a * width..a * width + width], u[a * width..a * width + width];
    forall k | 0 <= k < width ensures s[k] == if a == i && k == j then x else r[k] {
      assert s[k] == u[a * width + k] && r[k] == t[a * width + k];
      if a != i { RowsApart(a, i, k, j, width); }
    }
  }

  lemma OnlyRowPutLink(g: Graph, i: nat, lay: nat, j: nat, x: nat)
    requires Shape(g) && OnLayer(g, i, lay) && j < Cap(g, lay)
    ensures OnlyRow(g, PutLink(g, i, lay, j, x), i, lay)
    ensures Row(PutLink(g, i, lay, j, x), i, lay) == Row(g, i, lay)[j := x]
    ensures DegAt(PutLink(g, i, lay, j, x), i, lay) == DegAt(g, i, lay)
  {
    var h := PutLink(g, i, lay, j, x);
    PutLinkShape(g, i, lay, j, x);
    RowAfterPutLink(g, i, lay, j, x, i, lay);
    forall a: nat, l: nat | OnLayer(g, a, l) && (a != i || l != lay)
      ensures Row(h, a, l) == Row(g, a, l) && DegAt(h, a, l) == DegAt(g, a, l)
    {
      RowAfterPutLink(g, i, lay, j, x, a, l);
    }
  }

  lemma OnlyRowPutDeg(g: Graph, i: nat, lay: nat, d: nat)
    requires Shape(g) && OnLayer(g, i, lay)
    ensures OnlyRow(g, PutDeg(g, i, lay, d), i, lay)
    ensures Row(PutDeg(g, i, lay, d), i, lay) == Row(g, i, lay) && DegAt(PutDeg(g, i, lay, d), i, lay) == d
  {
    var h := PutDeg(g, i, lay, d);
    PutDegShape(g, i, lay, d, h);
    forall a: nat, l: nat | OnLayer(g, a, l)
      ensures Row(h, a, l) == Row(g, a, l) && DegAt(h, a, l) == if a == i && l == lay then d else DegAt(g, a, l)
    {
      RowAfterPutDeg(g, i, lay, d, h, a, l);
    }
  }

  lemma PutDegShape(g: Graph, i: nat, lay: nat, d: nat, h: Graph)
    requires Shape(g) && OnLayer(g, i, lay) && h == PutDeg(g, i, lay, d)
    ensures Shape(h) && SameNodes(g, h) && h.links0 == g.links0 && h.upper == g.upper
  {
    if lay > 0 { LengthsStay(g.updeg, i, lay - 1, d); }
  }

  lemma RowAfterPutDeg(g: Graph, i: nat, lay: nat, d: nat, h: Graph, a: nat, l: nat)
    requires Shape(g) && OnLayer(g, i, lay) && h == PutDeg(g, i, lay, d) && OnLayer(g, a, l)
    requires Shape(h) && SameNodes(g, h) && h.links0 == g.links0 && h.upper == g.upper
    ensures Row(h, a, l) == Row(g, a, l) && DegAt(h, a, l) == if a == i && l == lay then d else DegAt(g, a, l)
  {
  }

  lemma OnlyRowTrans(g: Graph, h: Graph, k: Graph, i: nat, lay: nat)
    requires OnlyRow(g, h, i, lay) && OnlyRow(h, k, i, lay)
    ensures OnlyRow(g, k, i, lay)
  {
  }

  /** Unchanged rows and degrees are unchanged links. */
  lemma OnlyRowLinks(g: Graph, h: Graph, i: nat, lay: nat)
    requires OnlyRow(g, h, i, lay)
    ensures forall a: nat, l: nat :: OnLayer(g, a, l) && (a != i || l != lay) ==> Links(h, a, l) == Links(g, a, l)
  {
  }

  /** Replace the links of one node on one layer, slot by slot. */
  method WriteLinks(g: Graph, i: nat, lay: nat, ids: seq<nat>) returns (h: Graph)
    requires Shape(g) && OnLayer(g, i, lay) && |ids| <= Cap(g, lay)
    ensures OnlyRow(g, h, i, lay) && DegAt(h, i, lay) == |ids| && Links(h, i, lay) == ids
  {
    h := g;
    var d := 0;
    while d < |ids|
      invariant 0 <= d <= |ids| && OnlyRow(g, h, i, lay)
      invariant Row(h, i, lay)[..d] == ids[..d]
    {
      OnlyRowPutLink(h, i, lay, d, ids[d]);
      OnlyRowTrans(g, h, PutLink(h, i, lay, d, ids[d]), i, lay);
      h := PutLink(h, i, lay, d, ids[d]);
      d := d + 1;
    }
    OnlyRowPutDeg(h, i, lay, d);
    OnlyRowTrans(g, h, PutDeg(h, i, lay, d), i, lay);
    h := PutDeg(h, i, lay, d);
  }

  lemma OneMoreLink(g: Graph, h: Graph, i: nat, lay: nat, x: nat)
    requires Shape(g) && Shape(h) && OnLayer(g, i, lay) && OnLayer(h, i, lay) && Cap(h, lay) == Cap(g, lay)
    requires DegAt(g, i, lay) < Cap(g, lay) && DegAt(h, i, lay) == DegAt(g, i, lay) + 1
    requires Row(h, i, lay) == Row(g, i, lay)[DegAt(g, i, lay) := x]
    ensures Links(h, i, lay) == Links(g, i, lay) + [x]
  {
  }

  /** Append one link to a row with room. */
  method AppendLink(g: Graph, i: nat, lay: nat, x: nat) returns (h: Graph)
    requires Shape(g) && OnLayer(g, i, lay) && DegAt(g, i, lay) < Cap(g, lay)
    ensures OnlyRow(g, h, i, lay) && DegAt(h, i, lay) == DegAt(g, i, lay) + 1
    ensures Links(h, i, lay) == Links(g, i, lay) + [x]
  {
    var d := DegAt(g, i, lay);
    OnlyRowPutLink(g, i, lay, d, x);
    var k := PutLink(g, i, lay, d, x);
    OnlyRowPutDeg(k, i, lay, d + 1);
    h := PutDeg(k, i, lay, d + 1);
    OnlyRowTrans(g, k, h, i, lay);
    OneMoreLink(g, h, i, lay, x);
  }
}
