/** The index file, read and written as a sequence of 32-bit words. */
module IndexFiles {
  import opened Arithmetic
  import opened HnswGraphs

  const MAGIC: nat := 0x48535732
  const HEADER: nat := 8

  function Header(g: Graph): (r: seq<nat>)
    ensures |r| == HEADER
  {
    [MAGIC, g.n, g.dim, g.m, g.mMax, g.mMax0, g.maxLevel, g.entry]
  }

  /** The degrees and links above layer 0 of the first `k` nodes. */
  function UpperTo(g: Graph, k: nat): seq<nat>
    requires k <= |g.updeg| && k <= |g.upper|
  {
    if k == 0 then [] else UpperTo(g, k - 1) + (g.updeg[k - 1] + g.upper[k - 1])
  }

  /** The words before the upper layers. */
  function Front(g: Graph): seq<nat> { Header(g) + g.deg0 + g.links0 + g.level }

  function Encode(g: Graph): seq<nat>
    requires Shape(g)
  {
    Front(g) + UpperTo(g, g.n)
  }

  /** How many words the upper layers of the first `k` nodes take. */
  ghost function UpperWords(g: Graph, k: nat): nat
    requires k <= |g.updeg| && k <= |g.upper|
  {
    if k == 0 then 0 else UpperWords(g, k - 1) + |g.updeg[k - 1]| + |g.upper[k - 1]|
  }

  /** The list is what stands in the words from position `at`. */
  ghost predicate Stands(ws: seq<nat>, at: nat, list: seq<nat>) {
    at + |list| <= |ws| && ws[at..at + |list|] == list
  }

  lemma {:induction false} UpperAt(g: Graph, k: nat, a: nat)
    requires k <= |g.updeg| && k <= |g.upper| && a < k
    ensures Stands(UpperTo(g, k), UpperWords(g, a), g.updeg[a])
    ensures Stands(UpperTo(g, k), UpperWords(g, a) + |g.updeg[a]|, g.upper[a])
  {
    UpperLength(g, k - 1);
    var front, above, links := UpperTo(g, k - 1), g.updeg[k - 1], g.upper[k - 1];
    if a < k - 1 {
      UpperAt(g, k - 1, a);
      StandsBefore(front, above + links, UpperWords(g, a), g.updeg[a]);
      StandsBefore(front, above + links, UpperWords(g, a) + |g.updeg[a]|, g.upper[a]);
    } else {
      StandsHere(front, above, links);
    }
  }

  lemma StandsBefore(ws: seq<nat>, rest: seq<nat>, at: nat, list: seq<nat>)
    requires Stands(ws, at, list)
    ensures Stands(ws + rest, at, list)
  {
    assert (ws + rest)[at..at + |list|] == ws[at..at + |list|];
  }

  lemma StandsHere(ws: seq<nat>, a: seq<nat>, b: seq<nat>)
    ensures Stands(ws + (a + b), |ws|, a) && Stands(ws + (a + b), |ws| + |a|, b)
  {
  }

  lemma StandsAfter(front: seq<nat>, ws: seq<nat>, at: nat, list: seq<nat>)
    requires Stands(ws, at, list)
    ensures Stands(front + ws, |front| + at, list)
  {
    assert (front + ws)[|front| + at..|front| + at + |list|] == ws[at..at + |list|];
  }

  lemma {:induction false} UpperLength(g: Graph, k: nat)
    requires k <= |g.updeg| && k <= |g.upper|
    ensures |UpperTo(g, k)| == UpperWords(g, k)
  {
    if k > 0 { UpperLength(g, k - 1); }
  }

  /** A file is eight header words, the layer-0 degrees, links and levels, and then node by node its upper
      degrees and links. */
  lemma EncodeMeans(g: Graph)
    requires Shape(g)
    ensures var ws, n, w := Encode(g), g.n, |g.links0|;
            && |ws| == 8 + n + w + n + UpperWords(g, n)
            && ws[0] == 0x48535732 && ws[1] == g.n && ws[2] == g.dim && ws[3] == g.m && ws[4] == g.mMax
            && ws[5] == g.mMax0 && ws[6] == g.maxLevel && ws[7] == g.entry
            && ws[8..8 + n] == g.deg0 && ws[8 + n..8 + n + w] == g.links0 && ws[8 + n + w..8 + n + w + n] == g.level
  {
    UpperLength(g, g.n);
    var front, n, w := Front(g), g.n, |g.links0|;
    assert forall i :: 0 <= i < 8 ==> Encode(g)[i] == Header(g)[i];
    assert Encode(g)[8..8 + n] == g.deg0;
    assert Encode(g)[8 + n..8 + n + w] == g.links0;
    assert Encode(g)[8 + n + w..8 + n + w + n] == g.level;
  }

  /** Where the upper layers of node `a` begin: after the front and those of the nodes before it. */
  ghost function BlockAt(g: Graph, a: nat): nat
    requires a <= |g.updeg| && a <= |g.upper|
  {
    8 + g.n + |g.links0| + g.n + UpperWords(g, a)
  }

  lemma EncodedUpper(g: Graph, a: nat)
    requires Shape(g) && a < g.n
    ensures Stands(Encode(g), BlockAt(g, a), g.updeg[a])
    ensures Stands(Encode(g), BlockAt(g, a) + |g.updeg[a]|, g.upper[a])
  {
    FrontLength(g);
    assert |Front(g)| + UpperWords(g, a) == BlockAt(g, a);
    UpperAfter(g, Front(g), a);
  }

  lemma UpperAfter(g: Graph, front: seq<nat>, a: nat)
    requires a < g.n <= |g.updeg| && g.n <= |g.upper|
    ensures Stands(front + UpperTo(g, g.n), |front| + UpperWords(g, a), g.updeg[a])
    ensures Stands(front + UpperTo(g, g.n), |front| + UpperWords(g, a) + |g.updeg[a]|, g.upper[a])
  {
    UpperAt(g, g.n, a);
    BothAfter(front, UpperTo(g, g.n), UpperWords(g, a), g.updeg[a], g.upper[a]);
  }

  lemma BothAfter(front: seq<nat>, ws: seq<nat>, at: nat, a: seq<nat>, b: seq<nat>)
    requires Stands(ws, at, a) && Stands(ws, at + |a|, b)
    ensures Stands(front + ws, |front| + at, a) && Stands(front + ws, |front| + at + |a|, b)
  {
    StandsAfter(front, ws, at, a);
    StandsAfter(front, ws, at + |a|, b);
  }

  lemma FrontLength(g: Graph)
    requires Shape(g)
    ensures |Front(g)| == 8 + g.n + |g.links0| + g.n
  {
  }

  // -------------------------------------------------------- what load accepts --

  ghost predicate HeaderOk(g: Graph) {
    && 1 <= g.n <= 100_000_000 && 1 <= g.dim <= 4096 && 2 <= g.m <= 1024
    && g.mMax == g.m && g.mMax0 == 2 * g.m && g.maxLevel <= 64 && g.entry < g.n
  }

  /** The first `d` links of a row lead to nodes of the layer. */
  ghost predicate AllOnLayer(g: Graph, row: seq<nat>, d: nat, lay: nat) {
    d <= |row| && forall j :: 0 <= j < d ==> OnLayer(g, row[j], lay)
  }

  /** The layer-0 list of one node is in range. */
  ghost predicate BaseOk(g: Graph, a: nat) {
    && a < |g.level| && g.level[a] <= g.maxLevel
    && a < |g.deg0| && g.deg0[a] <= g.mMax0 && a * g.mMax0 + g.mMax0 <= |g.links0|
    && AllOnLayer(g, g.links0[a * g.mMax0..a * g.mMax0 + g.mMax0], g.deg0[a], 0)
  }

  /** One upper list of a node leads only to nodes of its layer. */
  ghost predicate UpperRowOk(g: Graph, updeg: seq<nat>, upper: seq<nat>, r: nat) {
    && r < |updeg| && updeg[r] <= g.mMax && r * g.mMax + g.mMax <= |upper|
    && AllOnLayer(g, upper[r * g.mMax..r * g.mMax + g.mMax], updeg[r], r + 1)
  }

  ghost predicate UpperOk(g: Graph, a: nat) {
    && a < |g.level| && a < |g.updeg| && a < |g.upper|
    && |g.updeg[a]| == g.level[a] && |g.upper[a]| == g.level[a] * g.mMax
    && forall r :: 0 <= r < g.level[a] ==> UpperRowOk(g, g.updeg[a], g.upper[a], r)
  }

  /** The graphs whose files load. */
  ghost predicate Loadable(g: Graph) {
    && Shape(g) && HeaderOk(g) && g.level[g.entry] == g.maxLevel
    && forall a :: 0 <= a < g.n ==> BaseOk(g, a) && UpperOk(g, a)
  }

  // ------------------------------------------------- a file determines its graph --

  lemma {:induction false} UpperUnique(g: Graph, h: Graph, k: nat)
    requires k <= |g.updeg| && k <= |g.upper| && k <= |h.updeg| && k <= |h.upper|
    requires forall a :: 0 <= a < k ==> |g.updeg[a]| == |h.updeg[a]| && |g.upper[a]| == |h.upper[a]|
    requires UpperTo(g, k) == UpperTo(h, k)
    ensures forall a :: 0 <= a < k ==> g.updeg[a] == h.updeg[a] && g.upper[a] == h.upper[a]
  {
    if k > 0 {
      SplitEqual(UpperTo(g, k - 1), g.updeg[k - 1] + g.upper[k - 1],
                 UpperTo(h, k - 1), h.updeg[k - 1] + h.upper[k - 1]);
      SplitEqual(g.updeg[k - 1], g.upper[k - 1], h.updeg[k - 1], h.upper[k - 1]);
      UpperUnique(g, h, k - 1);
    }
  }

  lemma SplitEqual(a: seq<nat>, b: seq<nat>, c: seq<nat>, d: seq<nat>)
    requires a + b == c + d && |b| == |d|
    ensures a == c && b == d
  {
    assert |a| == |c|;
    assert a == (a + b)[..|a|] && c == (c + d)[..|c|];
    assert b == (a + b)[|a|..] && d == (c + d)[|c|..];
  }

  lemma EncodeSameHeader(g: Graph, h: Graph)
    requires Shape(g) && Shape(h) && Encode(g) == Encode(h)
    ensures Header(g) == Header(h)
    ensures g.n == h.n && g.dim == h.dim && g.m == h.m && g.mMax == h.mMax && g.mMax0 == h.mMax0
    ensures g.maxLevel == h.maxLevel && g.entry == h.entry
  {
    assert Encode(g)[..HEADER] == Header(g);
    assert Encode(h)[..HEADER] == Header(h);
    assert Header(g)[1] == Header(h)[1] && Header(g)[2] == Header(h)[2] && Header(g)[3] == Header(h)[3];
    assert Header(g)[4] == Header(h)[4] && Header(g)[5] == Header(h)[5] && Header(g)[6] == Header(h)[6];
    assert Header(g)[7] == Header(h)[7];
  }

  /** Saving loses nothing: two graphs with the same file are the same graph. */
  lemma EncodeInjective(g: Graph, h: Graph)
    requires Shape(g) && Shape(h) && Encode(g) == Encode(h)
    ensures g == h
  {
    EncodeSameHeader(g, h);
    var n, w := g.n, g.n * g.mMax0;
    var fg, fh := Front(g), Front(h);
    assert |fg| == |fh| == HEADER + n + w + n;
    assert fg == Encode(g)[..|fg|] && fh == Encode(h)[..|fh|];
    assert UpperTo(g, n) == Encode(g)[|fg|..] && UpperTo(h, n) == Encode(h)[|fh|..];
    assert g.deg0 == fg[HEADER..HEADER + n] && h.deg0 == fh[HEADER..HEADER + n];
    assert g.links0 == fg[HEADER + n..HEADER + n + w] && h.links0 == fh[HEADER + n..HEADER + n + w];
    assert g.level == fg[HEADER + n + w..] && h.level == fh[HEADER + n + w..];
    UpperUnique(g, h, n);
  }

  // ----------------------------------------------------------------------- load --

  lemma {:induction false} UpperPrefix(g: Graph, i: nat, k: nat)
    requires i <= k <= |g.updeg| && k <= |g.upper|
    ensures UpperTo(g, i) <= UpperTo(g, k)
  {
    if i < k { UpperPrefix(g, i, k - 1); }
  }

  lemma {:induction false} UpperSame(g: Graph, h: Graph, k: nat)
    requires k <= |g.updeg| && k <= |g.upper| && k <= |h.updeg| && k <= |h.upper|
    requires forall a :: 0 <= a < k ==> g.updeg[a] == h.updeg[a] && g.upper[a] == h.upper[a]
    ensures UpperTo(g, k) == UpperTo(h, k)
  {
    if k > 0 { UpperSame(g, h, k - 1); }
  }

  /** `h` has everything of `t` that precedes the upper layers of node `i` in its file. */
  ghost predicate Agrees(h: Graph, t: Graph, i: nat) {
    && Header(h) == Header(t) && h.n == t.n && h.dim == t.dim && h.m == t.m && h.mMax == t.mMax && h.mMax0 == t.mMax0
    && h.maxLevel == t.maxLevel && h.entry == t.entry
    && h.deg0 == t.deg0 && h.links0 == t.links0 && h.level == t.level
    && i <= h.n == |h.updeg| == |h.upper| == |t.updeg| == |t.upper|
    && forall a :: 0 <= a < i ==> h.updeg[a] == t.updeg[a] && h.upper[a] == t.upper[a]
  }

  /** What has been read: checked nodes before `i`, nothing yet from `i` on. */
  ghost predicate ReadTo(ws: seq<nat>, h: Graph, i: nat, at: nat) {
    && HeaderOk(h) && i <= h.n == |h.updeg| == |h.upper| == |h.level| == |h.deg0| && |h.links0| == h.n * h.mMax0
    && (forall a :: 0 <= a < i ==> BaseOk(h, a) && UpperOk(h, a))
    && (forall a :: i <= a < h.n ==> h.updeg[a] == [] && h.upper[a] == [])
    && at <= |ws| && ws[..at] == Front(h) + UpperTo(h, i)
  }

  lemma PrefixSlices(ws: seq<nat>, front: seq<nat>, a: seq<nat>, b: seq<nat>)
    requires front + (a + b) <= ws
    ensures |front| + |a| + |b| <= |ws|
    ensures ws[|front|..|front| + |a|] == a && ws[|front| + |a|..|front| + |a| + |b|] == b
  {
    var next := front + (a + b);
    assert ws[..|next|] == next;
    assert forall j :: 0 <= j < |a| + |b| ==> ws[|front| + j] == next[|front| + j] == (a + b)[j];
  }

  lemma PrefixUnder(front: seq<nat>, a: seq<nat>, b: seq<nat>)
    requires a <= b
    ensures front + a <= front + b
  {
    assert b[..|a|] == a;
  }

  /** The next upper block of the file of `t` starts where the reader is. */
  lemma NextBlock(ws: seq<nat>, h: Graph, t: Graph, i: nat, at: nat)
    requires ReadTo(ws, h, i, at) && Loadable(t) && Encode(t) == ws && Agrees(h, t, i) && i < h.n
    ensures at + |t.updeg[i]| + |t.upper[i]| <= |ws|
    ensures ws[at..at + |t.updeg[i]|] == t.updeg[i]
    ensures ws[at + |t.updeg[i]|..at + |t.updeg[i]| + |t.upper[i]|] == t.upper[i]
    ensures |t.updeg[i]| == h.level[i] && |t.upper[i]| == h.level[i] * h.mMax
  {
    UpperSame(h, t, i);
    UpperPrefix(t, i + 1, t.n);
    PrefixUnder(Front(t), UpperTo(t, i + 1), UpperTo(t, t.n));
    var front := Front(t) + UpperTo(t, i);
    assert Front(t) + UpperTo(t, i + 1) == front + (t.updeg[i] + t.upper[i]);
    assert front == ws[..at];
    PrefixSlices(ws, front, t.updeg[i], t.upper[i]);
  }

  /** The layer-0 checks of one node. */
  method BaseFine(g: Graph, a: nat) returns (ok: bool)
    requires a < |g.level| == g.n && a < |g.deg0| && a * g.mMax0 + g.mMax0 <= |g.links0|
    ensures ok <==> BaseOk(g, a)
  {
    if g.level[a] > g.maxLevel || g.deg0[a] > g.mMax0 { return false; }
    var row := g.links0[a * g.mMax0..a * g.mMax0 + g.mMax0];
    for j := 0 to g.deg0[a]
      invariant AllOnLayer(g, row, j, 0)
    {
      if row[j] >= g.n { assert !AllOnLayer(g, row, g.deg0[a], 0); return false; }
    }
    return true;
  }

  /** The checks of one upper list. */
  method UpperRowFine(g: Graph, updeg: seq<nat>, upper: seq<nat>, r: nat) returns (ok: bool)
    requires r < |updeg| && r * g.mMax + g.mMax <= |upper| && |g.level| == g.n
    ensures ok <==> UpperRowOk(g, updeg, upper, r)
  {
    if updeg[r] > g.mMax { return false; }
    var row := upper[r * g.mMax..r * g.mMax + g.mMax];
    for j := 0 to updeg[r]
      invariant AllOnLayer(g, row, j, r + 1)
    {
      if row[j] >= g.n || g.level[row[j]] < r + 1 { assert !AllOnLayer(g, row, updeg[r], r + 1); return false; }
    }
    return true;
  }

  method UpperFine(g: Graph, a: nat) returns (ok: bool)
    requires a < |g.level| && a < |g.updeg| && a < |g.upper| && |g.level| == g.n
    requires |g.updeg[a]| == g.level[a] && |g.upper[a]| == g.level[a] * g.mMax
    ensures ok <==> UpperOk(g, a)
  {
    for r := 0 to g.level[a]
      invariant forall t :: 0 <= t < r ==> UpperRowOk(g, g.updeg[a], g.upper[a], t)
    {
      RowInside(r, g.level[a], g.mMax);
      var fine := UpperRowFine(g, g.updeg[a], g.upper[a], r);
      if !fine { return false; }
    }
    return true;
  }

  /** Node `i` reads as it is in `t`, so it passes the checks that `t` passes. */
  lemma NodeAgrees(h: Graph, t: Graph, i: nat)
    requires Agrees(h, t, i) && Loadable(t) && i < h.n
    ensures BaseOk(h, i)
    ensures h.updeg[i] == t.updeg[i] && h.upper[i] == t.upper[i] ==> UpperOk(h, i)
  {
    assert BaseOk(t, i) && UpperOk(t, i);
    forall row, d, lay | AllOnLayer(t, row, d, lay) ensures AllOnLayer(h, row, d, lay) { }
    if h.updeg[i] == t.updeg[i] && h.upper[i] == t.upper[i] {
      forall r | 0 <= r < h.level[i] ensures UpperRowOk(h, h.updeg[i], h.upper[i], r) {
        assert UpperRowOk(t, t.updeg[i], t.upper[i], r);
      }
    }
  }

  function PutUpper(h: Graph, i: nat, degrees: seq<nat>, links: seq<nat>): Graph
    requires i < |h.updeg| && i < |h.upper|
  {
    h.(updeg := h.updeg[i := degrees], upper := h.upper[i := links])
  }

  lemma PutUpperSizes(h: Graph, i: nat, degrees: seq<nat>, links: seq<nat>)
    requires i < |h.updeg| && i < |h.upper|
    ensures var k := PutUpper(h, i, degrees, links); |k.updeg[i]| == |degrees| && |k.upper[i]| == |links|
  {
  }

  lemma PutUpperPrefix(h: Graph, i: nat, degrees: seq<nat>, links: seq<nat>)
    requires i < |h.updeg| && i < |h.upper|
    ensures UpperTo(PutUpper(h, i, degrees, links), i + 1) == UpperTo(h, i) + (degrees + links)
  {
    UpperSame(h, PutUpper(h, i, degrees, links), i);
  }

  /** Storing the upper block of node `i` and having checked it. */
  lemma ReadNext(ws: seq<nat>, h: Graph, i: nat, at: nat, mid: nat, end: nat)
    requires ReadTo(ws, h, i, at) && i < h.n && at <= mid <= end <= |ws|
    requires var k := PutUpper(h, i, ws[at..mid], ws[mid..end]); BaseOk(k, i) && UpperOk(k, i)
    ensures ReadTo(ws, PutUpper(h, i, ws[at..mid], ws[mid..end]), i + 1, end)
  {
    var k := PutUpper(h, i, ws[at..mid], ws[mid..end]);
    PutUpperPrefix(h, i, ws[at..mid], ws[mid..end]);
    assert ws[..end] == ws[..at] + (ws[at..mid] + ws[mid..end]);
    assert Front(k) == Front(h);
    var front, above, block := Front(h), UpperTo(h, i), ws[at..mid] + ws[mid..end];
    assert (front + above) + block == front + (above + block);
    forall a | 0 <= a < i + 1 ensures BaseOk(k, a) && UpperOk(k, a) {
      if a < i {
        assert BaseOk(h, a) && UpperOk(h, a);
        forall row, d, lay | AllOnLayer(h, row, d, lay) ensures AllOnLayer(k, row, d, lay) { }
        forall r | 0 <= r < k.level[a] ensures UpperRowOk(k, k.updeg[a], k.upper[a], r) {
          assert UpperRowOk(h, h.updeg[a], h.upper[a], r);
        }
      }
    }
  }

  /** Read the upper block of node `i`, if the file is long enough. */
  method ReadBlock(ws: seq<nat>, h: Graph, i: nat, at: nat, ghost t: Graph, ghost good: bool)
    returns (ok: bool, k: Graph, ghost mid: nat, next: nat)
    requires ReadTo(ws, h, i, at) && i < h.n
    requires good ==> Loadable(t) && Encode(t) == ws && Agrees(h, t, i)
    ensures good ==> ok && Agrees(k, t, i + 1)
    ensures ok ==> at <= mid <= next <= |ws| && k == PutUpper(h, i, ws[at..mid], ws[mid..next])
    ensures ok ==> |k.updeg[i]| == h.level[i] && |k.upper[i]| == h.level[i] * h.mMax
  {
    k, mid, next := h, at, at;
    var lv := h.level[i];
    var links := lv * h.mMax;
    if good { GoodBlock(ws, h, t, i, at, lv, links); }
    if |ws| - at < lv + links { return false, k, mid, next; }
    mid, next := at + lv, at + lv + links;
    k := PutUpper(h, i, ws[at..at + lv], ws[at + lv..next]);
    PutUpperSizes(h, i, ws[at..at + lv], ws[at + lv..next]);
    ok := true;
  }

  /** The next block of a good file is there, and is the one it encodes. */
  lemma GoodBlock(ws: seq<nat>, h: Graph, t: Graph, i: nat, at: nat, lv: nat, links: nat)
    requires ReadTo(ws, h, i, at) && Loadable(t) && Encode(t) == ws && Agrees(h, t, i) && i < h.n
    requires lv == h.level[i] && links == lv * h.mMax
    ensures at + lv + links <= |ws|
    ensures Agrees(PutUpper(h, i, ws[at..at + lv], ws[at + lv..at + lv + links]), t, i + 1)
  {
    NextBlock(ws, h, t, i, at);
  }

  /** Read and check one node. A file that encodes a loadable graph never fails. */
  method ReadNode(ws: seq<nat>, h: Graph, i: nat, at: nat, ghost t: Graph, ghost good: bool)
    returns (ok: bool, k: Graph, next: nat)
    requires ReadTo(ws, h, i, at) && i < h.n
    requires good ==> Loadable(t) && Encode(t) == ws && Agrees(h, t, i)
    ensures ok ==> ReadTo(ws, k, i + 1, next) && k.n == h.n
    ensures good ==> ok && Agrees(k, t, i + 1)
  {
    if good { NodeAgrees(h, t, i); }
    RowInside(i, h.n, h.mMax0);
    ok := BaseFine(h, i);
    if !ok { return false, h, at; }
    ghost var mid;
    ok, k, mid, next := ReadBlock(ws, h, i, at, t, good);
    if !ok { return; }
    if good { BlockAgrees(k, t, i); }
    assert BaseOk(k, i);
    ok := UpperFine(k, i);
    if ok { ReadNext(ws, h, i, at, mid, next); }
  }

  lemma BlockAgrees(k: Graph, t: Graph, i: nat)
    requires Agrees(k, t, i + 1) && Loadable(t) && i < k.n
    ensures UpperOk(k, i)
  {
    assert Agrees(k, t, i);
    NodeAgrees(k, t, i);
  }

  function Cells(rows: nat, width: nat): nat { rows * width }

  /** The size of layer 0 that the header promises. */
  function BaseWords(n: nat, mMax0: nat): nat { n + Cells(n, mMax0) + n }

  /** A graph with what precedes the upper layers. */
  function FrontGraph(ws: seq<nat>): Graph
    requires |ws| >= HEADER && |ws| - HEADER >= BaseWords(ws[1], ws[5])
  {
    var n, w := ws[1], Cells(ws[1], ws[5]);
    Graph(n, ws[2], ws[3], ws[4], ws[5], ws[6], ws[7],
          ws[HEADER + n..HEADER + n + w], ws[HEADER..HEADER + n], ws[HEADER + n + w..HEADER + BaseWords(n, ws[5])],
          seq(n, _ => []), seq(n, _ => []))
  }

  lemma HeaderWords(ws: seq<nat>, t: Graph)
    requires Header(t) <= ws
    ensures |ws| >= HEADER && ws[0] == MAGIC && ws[1] == t.n && ws[2] == t.dim && ws[3] == t.m
    ensures ws[4] == t.mMax && ws[5] == t.mMax0 && ws[6] == t.maxLevel && ws[7] == t.entry
  {
    assert ws[..HEADER] == Header(t);
    assert forall i :: 0 <= i < HEADER ==> ws[i] == ws[..HEADER][i];
  }

  lemma FrontAgrees(ws: seq<nat>, t: Graph)
    requires Loadable(t) && Encode(t) == ws
    ensures |ws| >= HEADER && ws[0] == MAGIC && |ws| - HEADER >= BaseWords(ws[1], ws[5])
    ensures Agrees(FrontGraph(ws), t, 0) && HeaderOk(FrontGraph(ws))
  {
    var n, w := t.n, Cells(t.n, t.mMax0);
    HeaderWords(ws, t);
    assert ws[HEADER..HEADER + n] == t.deg0;
    assert ws[HEADER + n..HEADER + n + w] == t.links0;
    assert ws[HEADER + n + w..HEADER + n + w + n] == t.level;
  }

  lemma FourParts(ws: seq<nat>, a: nat, b: nat, c: nat, d: nat)
    requires a <= b <= c <= d <= |ws|
    ensures ws[..d] == ws[..a] + ws[a..b] + ws[b..c] + ws[c..d]
  {
  }

  lemma FrontRead(ws: seq<nat>)
    requires |ws| >= HEADER && ws[0] == MAGIC && |ws| - HEADER >= BaseWords(ws[1], ws[5]) && HeaderOk(FrontGraph(ws))
    ensures ReadTo(ws, FrontGraph(ws), 0, HEADER + BaseWords(ws[1], ws[5]))
  {
    FrontPrefix(ws, FrontGraph(ws), ws[1], Cells(ws[1], ws[5]));
  }

  lemma FrontPrefix(ws: seq<nat>, h: Graph, n: nat, w: nat)
    requires HEADER + n + w + n <= |ws| && ws[..HEADER] == Header(h)
    requires h.deg0 == ws[HEADER..HEADER + n] && h.links0 == ws[HEADER + n..HEADER + n + w]
    requires h.level == ws[HEADER + n + w..HEADER + n + w + n]
    ensures ws[..HEADER + n + w + n] == Front(h) + UpperTo(h, 0)
  {
    FourParts(ws, HEADER, HEADER + n, HEADER + n + w, HEADER + n + w + n);
    assert Front(h) + UpperTo(h, 0) == Front(h);
  }

  /** Validate and read a file. It is accepted exactly when it is the file of a loadable graph,
      and then that graph is restored. */
  method Decode(ws: seq<nat>) returns (ok: bool, h: Graph)
    ensures ok <==> exists t :: Loadable(t) && Encode(t) == ws
    ensures ok ==> Loadable(h) && Encode(h) == ws
  {
    ghost var good := exists t :: Loadable(t) && Encode(t) == ws;
    ghost var t: Graph :| good ==> Loadable(t) && Encode(t) == ws;
    h := Graph(0, 0, 0, 0, 0, 0, 0, [], [], [], [], []);
    if good { FrontAgrees(ws, t); }
    if |ws| < HEADER || ws[0] != MAGIC { return false, h; }
    var n, mMax0 := ws[1], ws[5];
    if n == 0 || n > 100_000_000 || ws[2] == 0 || ws[2] > 4096 || ws[3] < 2 || ws[3] > 1024 ||
       ws[4] != ws[3] || ws[5] != 2 * ws[3] || ws[6] > 64 || ws[7] >= n { return false, h; }
    if |ws| - HEADER < BaseWords(n, mMax0) { return false, h; }
    FrontRead(ws);
    ok, h := DecodeNodes(ws, FrontGraph(ws), HEADER + BaseWords(n, mMax0), t, good);
  }

  /** Read the upper layers and finish the checks. */
  method DecodeNodes(ws: seq<nat>, front: Graph, start: nat, ghost t: Graph, ghost good: bool)
    returns (ok: bool, h: Graph)
    requires ReadTo(ws, front, 0, start)
    requires good ==> Loadable(t) && Encode(t) == ws && Agrees(front, t, 0)
    ensures good ==> ok
    ensures ok ==> Loadable(h) && Encode(h) == ws
  {
    h := front;
    var at, i := start, 0;
    while i < h.n
      invariant 0 <= i <= h.n == front.n && ReadTo(ws, h, i, at)
      invariant good ==> Agrees(h, t, i)
    {
      var fine, k, next := ReadNode(ws, h, i, at, t, good);
      if !fine { return false, h; }
      h, at, i := k, next, i + 1;
    }
    if good { DecodeDone(ws, h, t, at); }
    ok := at == |ws| && h.level[h.entry] == h.maxLevel;
    if ok { ReadAll(ws, h); }
  }

  lemma ReadAll(ws: seq<nat>, h: Graph)
    requires ReadTo(ws, h, h.n, |ws|) && h.level[h.entry] == h.maxLevel
    ensures Loadable(h) && Encode(h) == ws
  {
    assert ws[..|ws|] == ws;
    forall a | 0 <= a < h.n ensures |h.updeg[a]| == h.level[a] && |h.upper[a]| == h.level[a] * h.mMax {
      assert UpperOk(h, a);
    }
  }

  lemma DecodeDone(ws: seq<nat>, h: Graph, t: Graph, at: nat)
    requires Loadable(t) && Encode(t) == ws && Agrees(h, t, h.n) && ReadTo(ws, h, h.n, at)
    ensures at == |ws| && h.entry < |h.level| && h.level[h.entry] == h.maxLevel
  {
    UpperSame(h, t, h.n);
    assert Front(h) == Front(t);
    assert |ws[..at]| == at;
  }
}
