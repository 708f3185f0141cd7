/** Sequential construction of the HNSW index and the graph invariant every insert keeps. */
module HnswInserts {
  import opened Basics
  import opened Neighbors
  import opened HnswGraphs
  import opened HnswSearch
  import opened HnswBuild
  import opened VisitedSets

  // -------------------------------------------------------- the graph invariant --

  /** Link capacities as `build` sets them. */
  ghost predicate Params(g: Graph) {
    g.m >= 2 && g.mMax == Min(g.m, 128) && g.mMax0 == Min(2 * g.m, 128)
  }

  /** Node `a` takes part in layer `l`: it is one of the first `i`, or node `i` and linked already. */
  predicate Active(i: nat, lo: nat, a: nat, l: nat) {
    a < i || (a == i && l >= lo)
  }

  /** A list is within capacity, without repeats, never leads back to its owner, and leads only
      to active nodes of its layer; a node that is not active yet has an empty list. */
  ghost predicate RowOk(g: Graph, i: nat, lo: nat, a: nat, l: nat)
    requires Shape(g) && OnLayer(g, a, l)
  {
    && DegAt(g, a, l) <= Cap(g, l) && NoRepeat(Links(g, a, l))
    && (!Active(i, lo, a, l) ==> Links(g, a, l) == [])
    && forall y :: y in Links(g, a, l) ==> y != a && OnLayer(g, y, l) && Active(i, lo, y, l)
  }

  ghost predicate Rows(g: Graph, i: nat, lo: nat)
    requires Shape(g)
  {
    forall a: nat, l: nat :: OnLayer(g, a, l) ==> RowOk(g, i, lo, a, l)
  }

  /** A node that shares a layer with another active node has a link there. */
  ghost predicate Linked(g: Graph, i: nat, lo: nat)
    requires Shape(g)
  {
    forall a: nat, b: nat, l: nat ::
      a != b && OnLayer(g, a, l) && OnLayer(g, b, l) && Active(i, lo, a, l) && Active(i, lo, b, l) ==>
        Links(g, a, l) != []
  }

  /** The entry node is one of the first `cnt` and none of them is on a higher layer. */
  ghost predicate EntryTop(g: Graph, cnt: nat) {
    && |g.level| == g.n && g.entry < cnt <= g.n && g.level[g.entry] == g.maxLevel
    && forall x :: 0 <= x < cnt ==> g.level[x] <= g.maxLevel
  }

  ghost predicate Levels(g: Graph, cnt: nat) {
    |g.level| == g.n && g.maxLevel <= TOP_LAYER &&
    forall x :: 0 <= x < g.n ==> g.level[x] <= TOP_LAYER && (x >= cnt ==> g.level[x] == 0)
  }

  /** Nodes 0 .. i - 1 are inserted, and node `i` is linked on layers `lo` and up. */
  ghost predicate Inserting(g: Graph, i: nat, lo: nat) {
    Shape(g) && Params(g) && Levels(g, i + 1) && EntryTop(g, i) && Rows(g, i, lo) && Linked(g, i, lo)
  }

  /** Nodes 0 .. cnt - 1 are inserted and the others have no links. */
  ghost predicate Built(g: Graph, cnt: nat) {
    && Shape(g) && Params(g) && Levels(g, cnt) && EntryTop(g, cnt)
    && Rows(g, cnt, TOP_LAYER + 1) && Linked(g, cnt, TOP_LAYER + 1)
  }

  lemma InsertingSearchable(g: Graph, i: nat, lo: nat)
    requires Inserting(g, i, lo)
    ensures Searchable(g)
  {
    forall a: nat, l: nat, j: nat | OnLayer(g, a, l) && j < |Links(g, a, l)| ensures OnLayer(g, Links(g, a, l)[j], l) {
      assert RowOk(g, i, lo, a, l);
      assert Links(g, a, l)[j] in Links(g, a, l);
    }
  }

  lemma BuiltSearchable(g: Graph, cnt: nat)
    requires Built(g, cnt)
    ensures Searchable(g)
  {
    forall a: nat, l: nat, j: nat | OnLayer(g, a, l) && j < |Links(g, a, l)| ensures OnLayer(g, Links(g, a, l)[j], l) {
      assert RowOk(g, cnt, TOP_LAYER + 1, a, l);
      assert Links(g, a, l)[j] in Links(g, a, l);
    }
  }

  // ------------------------------------------------------------- adding a node --

  function Zeros(n: nat): (r: seq<nat>)
    ensures |r| == n && forall j :: 0 <= j < n ==> r[j] == 0
  {
    seq(n, _ => 0)
  }

  /** Give node `i` its level and empty lists on the layers above 0. */
  function AddNode(g: Graph, i: nat, l: nat): Graph
    requires Shape(g) && i < g.n
  {
    g.(level := g.level[i := l], upper := g.upper[i := Zeros(l * g.mMax)], updeg := g.updeg[i := Zeros(l)])
  }

  lemma AddNodeShape(g: Graph, i: nat, l: nat)
    requires Shape(g) && i < g.n && g.level[i] == 0
    ensures Shape(AddNode(g, i, l))
  {
    var h := AddNode(g, i, l);
    forall a | 0 <= a < g.n ensures |h.updeg[a]| == h.level[a] && |h.upper[a]| == h.level[a] * h.mMax {
      if a == i { assert h.upper[a] == Zeros(l * g.mMax); }
    }
  }

  lemma AddNodeRow(g: Graph, i: nat, l: nat, a: nat, lay: nat)
    requires Shape(g) && i < g.n && g.level[i] == 0 && Shape(AddNode(g, i, l)) && OnLayer(AddNode(g, i, l), a, lay)
    requires Links(g, i, 0) == [] && DegAt(g, i, 0) <= g.mMax0
    ensures a != i ==> OnLayer(g, a, lay) && Links(AddNode(g, i, l), a, lay) == Links(g, a, lay) &&
                       DegAt(AddNode(g, i, l), a, lay) == DegAt(g, a, lay)
    ensures a == i ==> Links(AddNode(g, i, l), a, lay) == [] && DegAt(AddNode(g, i, l), a, lay) == 0
  {
    var h := AddNode(g, i, l);
    if a == i && lay == 0 {
      assert DegAt(h, a, lay) == DegAt(g, a, 0);
    }
    if a == i && lay > 0 {
      assert h.updeg[i] == Zeros(l);
    }
  }

  lemma AddNodeInserting(g: Graph, i: nat, l: nat)
    requires Built(g, i) && i < g.n && l <= TOP_LAYER
    ensures Inserting(AddNode(g, i, l), i, Min(l, g.maxLevel) + 1)
  {
    var h, lo := AddNode(g, i, l), Min(l, g.maxLevel) + 1;
    AddNodeShape(g, i, l);
    assert RowOk(g, i, TOP_LAYER + 1, i, 0);
    forall a: nat, lay: nat | OnLayer(h, a, lay) ensures RowOk(h, i, lo, a, lay) {
      AddNodeRow(g, i, l, a, lay);
      if a != i { AddNodeOther(g, i, l, a, lay); }
    }
    forall a: nat, b: nat, lay: nat | a != b && OnLayer(h, a, lay) && OnLayer(h, b, lay) &&
                                      Active(i, lo, a, lay) && Active(i, lo, b, lay)
      ensures Links(h, a, lay) != []
    {
      AddNodeRow(g, i, l, a, lay);
      AddNodeRow(g, i, l, b, lay);
    }
  }

  lemma AddNodeOther(g: Graph, i: nat, l: nat, a: nat, lay: nat)
    requires Built(g, i) && i < g.n && l <= TOP_LAYER && a != i && OnLayer(g, a, lay) && Shape(AddNode(g, i, l))
    requires Links(AddNode(g, i, l), a, lay) == Links(g, a, lay) && DegAt(AddNode(g, i, l), a, lay) == DegAt(g, a, lay)
    ensures RowOk(AddNode(g, i, l), i, Min(l, g.maxLevel) + 1, a, lay)
  {
    assert RowOk(g, i, TOP_LAYER + 1, a, lay);
  }

  // ------------------------------------------------- linking one layer keeps it --

  /** What `insert` hands to `connect`: selected nodes inserted before `i` that exist on the layer. */
  ghost predicate Choice(g: Graph, i: nat, picked: seq<Neighbor>, lay: nat) {
    && picked != [] && Distinct(picked)
    && forall t :: 0 <= t < |picked| ==> picked[t].id < i && OnLayer(g, picked[t].id, lay)
  }

  lemma ChoiceLinkable(g: Graph, i: nat, lo: nat, picked: seq<Neighbor>, lay: nat)
    requires Inserting(g, i, lo) && lay < lo && OnLayer(g, i, lay) && Choice(g, i, picked, lay)
    ensures Linkable(g, i, picked, lay)
  {
    forall t | 0 <= t < |picked| ensures CanLink(g, i, picked[t].id, lay) {
      assert RowOk(g, i, lo, picked[t].id, lay);
    }
  }

  lemma ConnectedRow(g: Graph, h: Graph, sim: (nat, nat) -> real, i: nat, lo: nat, picked: seq<Neighbor>, lay: nat,
                     a: nat, l: nat)
    requires Inserting(g, i, lo) && lay < lo && OnLayer(g, i, lay) && Choice(g, i, picked, lay)
    requires Linkable(g, i, picked, lay)
    requires Connected(g, h, sim, i, picked, lay, |picked|) && OnLayer(g, a, l)
    ensures OnLayer(h, a, l) && RowOk(h, i, lay, a, l)
    ensures Links(g, a, l) != [] ==> Links(h, a, l) != []
  {
    assert RowOk(g, i, lo, a, l);
    assert picked[..|picked|] == picked;
    if l != lay || (a != i && !Has(picked, a)) {
      assert a !in IdSet(picked) + {i} || l != lay;
      KeptRow(g, h, i, lo, lay, a, l);
    } else if a == i {
      OwnRow(g, h, i, lo, picked, lay);
    } else {
      var r :| 0 <= r < |picked| && picked[r].id == a;
      assert TookLink(g, h, sim, i, picked[r].id, lay);
      BackRow(g, h, sim, i, lo, a, lay);
    }
  }

  lemma KeptRow(g: Graph, h: Graph, i: nat, lo: nat, lay: nat, a: nat, l: nat)
    requires Shape(g) && Shape(h) && SameNodes(g, h) && lay < lo && OnLayer(g, a, l) && RowOk(g, i, lo, a, l)
    requires Links(h, a, l) == Links(g, a, l) && DegAt(h, a, l) == DegAt(g, a, l)
    requires a == i && l >= lay ==> l != lay
    ensures RowOk(h, i, lay, a, l)
  {
  }

  lemma OwnRow(g: Graph, h: Graph, i: nat, lo: nat, picked: seq<Neighbor>, lay: nat)
    requires Shape(g) && Shape(h) && SameNodes(g, h) && lay < lo && OnLayer(g, i, lay) && Choice(g, i, picked, lay)
    requires Links(h, i, lay) == Ids(picked)[..Min(|picked|, Cap(g, lay))] && DegAt(h, i, lay) <= Cap(g, lay)
    ensures RowOk(h, i, lay, i, lay)
  {
    var own := Links(h, i, lay);
    forall y | y in own ensures y != i && OnLayer(h, y, lay) && y < i {
      var t :| 0 <= t < |own| && own[t] == y;
      assert y == picked[t].id;
    }
  }

  lemma BackRow(g: Graph, h: Graph, sim: (nat, nat) -> real, i: nat, lo: nat, a: nat, lay: nat)
    requires Shape(g) && Shape(h) && SameNodes(g, h) && lay < lo && OnLayer(g, a, lay) && OnLayer(g, i, lay) && a < i
    requires RowOk(g, i, lo, a, lay) && i !in Links(g, a, lay) && Cap(g, lay) >= 1
    requires TookLink(g, h, sim, i, a, lay)
    ensures RowOk(h, i, lay, a, lay) && Links(h, a, lay) != []
  {
    BackLinkedList(sim, a, Links(g, a, lay), i, Cap(g, lay), Links(h, a, lay));
  }

  /** Linking node `i` on the next layer down keeps the invariant. */
  lemma ConnectKeeps(g: Graph, h: Graph, sim: (nat, nat) -> real, i: nat, lo: nat, picked: seq<Neighbor>, lay: nat)
    requires Inserting(g, i, lo) && lo == lay + 1 && OnLayer(g, i, lay) && Choice(g, i, picked, lay)
    requires Linkable(g, i, picked, lay)
    requires Connected(g, h, sim, i, picked, lay, |picked|)
    ensures Inserting(h, i, lay)
  {
    forall a: nat, l: nat | OnLayer(h, a, l) ensures RowOk(h, i, lay, a, l) {
      ConnectedRow(g, h, sim, i, lo, picked, lay, a, l);
    }
    forall a: nat, b: nat, l: nat | a != b && OnLayer(h, a, l) && OnLayer(h, b, l) &&
                                    Active(i, lay, a, l) && Active(i, lay, b, l)
      ensures Links(h, a, l) != []
    {
      ConnectedRow(g, h, sim, i, lo, picked, lay, a, l);
      if !(Active(i, lo, a, l) && Active(i, lo, b, l)) {
        ConnectedLinked(g, h, sim, i, lo, picked, lay, a, b);
      }
    }
  }

  /** The new node has a link, and so has the one node that was alone on the layer before. */
  lemma ConnectedLinked(g: Graph, h: Graph, sim: (nat, nat) -> real, i: nat, lo: nat, picked: seq<Neighbor>, lay: nat,
                        a: nat, b: nat)
    requires Inserting(g, i, lo) && lo == lay + 1 && OnLayer(g, i, lay) && Choice(g, i, picked, lay)
    requires Linkable(g, i, picked, lay)
    requires Connected(g, h, sim, i, picked, lay, |picked|)
    requires a != b && OnLayer(g, a, lay) && OnLayer(g, b, lay) && a <= i && b <= i && (a == i || b == i)
    ensures Links(h, a, lay) != []
  {
    if a == i {
      assert |Ids(picked)| >= 1;
    } else if Has(picked, a) {
      var r :| 0 <= r < |picked| && picked[r].id == a;
      assert TookLink(g, h, sim, i, picked[r].id, lay);
      assert RowOk(g, i, lo, a, lay);
      BackRow(g, h, sim, i, lo, a, lay);
    } else {
      var p := picked[0].id;
      assert p != a && OnLayer(g, p, lay) && Active(i, lo, p, lay) && Active(i, lo, a, lay);
      ConnectedRow(g, h, sim, i, lo, picked, lay, a, lay);
    }
  }

  // ------------------------------------------------------ what an insert changes --

  /** Item `i` as a query. */
  function From(sim: (nat, nat) -> real, i: nat): nat -> real { (x: nat) => sim(i, x) }

  ghost predicate SameLayer(g: Graph, h: Graph, l: nat) {
    && Shape(g) && Shape(h) && SameNodes(g, h)
    && forall a: nat :: OnLayer(g, a, l) ==> Links(h, a, l) == Links(g, a, l) && DegAt(h, a, l) == DegAt(g, a, l)
  }

  /** On one layer `i` was linked to `picked` and back, and no other list changed. */
  ghost predicate LayerLinked(g: Graph, h: Graph, sim: (nat, nat) -> real, i: nat, picked: seq<Neighbor>, lay: nat) {
    && Shape(g) && Shape(h) && SameNodes(g, h) && OnLayer(g, i, lay) && OnLayer(h, i, lay)
    && Links(h, i, lay) == Ids(picked)[..Min(|picked|, Cap(g, lay))]
    && (forall r :: 0 <= r < |picked| ==> TookLink(g, h, sim, i, picked[r].id, lay))
    && forall a: nat :: OnLayer(g, a, lay) && a != i && !Has(picked, a) ==> Links(h, a, lay) == Links(g, a, lay)
  }

  /** `picked` is a diverse choice among the best nodes a search of the layer found before `i` was linked. */
  ghost predicate ChosenBySearch(g: Graph, sim: (nat, nat) -> real, i: nat, ef: nat, lay: nat, ep: nat, seen: set<nat>,
                                 w: seq<Neighbor>, picked: seq<Neighbor>) {
    && Shape(g) && Window(g, From(sim, i), lay, i, ep, ef, seen, w)
    && Choice(g, i, picked, lay) && Selected(sim, w, g.m, picked)
  }

  /** One layer has grown by node `i`: the search started at `ep`, and the best choice is `next`. */
  ghost predicate Grown(g: Graph, h: Graph, sim: (nat, nat) -> real, i: nat, ef: nat, lay: nat, ep: nat, next: nat) {
    exists seen: set<nat>, w: seq<Neighbor>, picked: seq<Neighbor> ::
      ChosenBySearch(g, sim, i, ef, lay, ep, seen, w, picked) && LayerLinked(g, h, sim, i, picked, lay) &&
      picked[0].id == next
  }

  /** What growing one layer means, as a relation between the layer, the node its search started at and its
      best choice. */
  ghost function Growth(g: Graph, h: Graph, sim: (nat, nat) -> real, i: nat, ef: nat): (nat, nat, nat) -> bool {
    (lay: nat, ep: nat, next: nat) => Grown(g, h, sim, i, ef, lay, ep, next)
  }

  /** From layer `hi` down to `lo` each layer relates its node of `eps` to the next one. */
  ghost predicate Chain(rel: (nat, nat, nat) -> bool, lo: nat, hi: nat, eps: seq<nat>) {
    |eps| == hi + 2 - lo && forall l: nat :: lo <= l <= hi ==> ChainAt(rel, hi, eps, l)
  }

  ghost predicate ChainAt(rel: (nat, nat, nat) -> bool, hi: nat, eps: seq<nat>, l: nat)
    requires l <= hi && hi - l + 1 < |eps|
  {
    rel(l, eps[hi - l], eps[hi - l + 1])
  }

  lemma ChainMore(was: (nat, nat, nat) -> bool, rel: (nat, nat, nat) -> bool, lo: nat, hi: nat, eps: seq<nat>,
                  next: nat)
    requires lo <= hi && Chain(was, lo + 1, hi, eps) && rel(lo, eps[|eps| - 1], next)
    requires forall l: nat, a: nat, b: nat :: lo < l <= hi && was(l, a, b) ==> rel(l, a, b)
    ensures Chain(rel, lo, hi, eps + [next])
  {
    forall l: nat | lo <= l <= hi ensures ChainAt(rel, hi, eps + [next], l) {
      if l > lo { assert ChainAt(was, hi, eps, l); }
    }
  }

  /** Layers below `lo` are as in `g`, layers `lo` to `hi` have grown by node `i`, and so nothing above
      changed. The search of each layer started at the best choice of the layer above it: `eps` are the
      starting points from layer `hi` down. */
  ghost predicate Placed(g: Graph, h: Graph, sim: (nat, nat) -> real, i: nat, ef: nat, lo: nat, hi: nat,
                         eps: seq<nat>) {
    && lo <= hi + 1 && (forall l: nat :: l < lo || l > hi ==> SameLayer(g, h, l))
    && Chain(Growth(g, h, sim, i, ef), lo, hi, eps)
  }

  lemma SameWindow(g: Graph, h: Graph, f: nat -> real, lay: nat, limit: nat, ep: nat, ef: nat, seen: set<nat>,
                   w: seq<Neighbor>)
    requires SameLayer(g, h, lay) && Window(h, f, lay, limit, ep, ef, seen, w)
    ensures Window(g, f, lay, limit, ep, ef, seen, w)
  {
    forall x, y ensures Edge(g, lay, limit, x, y) <==> Edge(h, lay, limit, x, y) { }
    forall x | x in seen ensures Reach(g, lay, limit, ep, x) {
      var p :| IsPath(h, lay, limit, p) && p[0] == ep && p[|p| - 1] == x;
      assert IsPath(g, lay, limit, p);
    }
  }

  lemma TookLinkFrom(g: Graph, h: Graph, k: Graph, sim: (nat, nat) -> real, i: nat, p: nat, lay: nat)
    requires SameLayer(g, h, lay) && TookLink(h, k, sim, i, p, lay)
    ensures TookLink(g, k, sim, i, p, lay)
  {
  }

  lemma LinkedFrom(g: Graph, h: Graph, k: Graph, sim: (nat, nat) -> real, i: nat, picked: seq<Neighbor>, lay: nat)
    requires SameLayer(g, h, lay) && Linkable(h, i, picked, lay) && Connected(h, k, sim, i, picked, lay, |picked|)
    ensures LayerLinked(g, k, sim, i, picked, lay)
  {
    assert picked[..|picked|] == picked;
    assert OnLayer(h, i, lay);
    forall r | 0 <= r < |picked| ensures TookLink(g, k, sim, i, picked[r].id, lay) {
      TookLinkFrom(g, h, k, sim, i, picked[r].id, lay);
    }
    forall a: nat | OnLayer(g, a, lay) && a != i && !Has(picked, a) ensures Links(k, a, lay) == Links(g, a, lay) {
      assert OnLayer(h, a, lay) && a !in IdSet(picked) + {i};
    }
  }

  lemma GrownNow(g: Graph, h: Graph, k: Graph, sim: (nat, nat) -> real, i: nat, ef: nat, lay: nat, ep: nat,
                 seen: set<nat>, w: seq<Neighbor>, picked: seq<Neighbor>)
    requires SameLayer(g, h, lay) && Window(h, From(sim, i), lay, i, ep, ef, seen, w)
    requires Choice(h, i, picked, lay) && Selected(sim, w, h.m, picked)
    requires LayerLinked(g, k, sim, i, picked, lay)
    ensures picked != [] && Grown(g, k, sim, i, ef, lay, ep, picked[0].id)
  {
    SameWindow(g, h, From(sim, i), lay, i, ep, ef, seen, w);
    assert ChosenBySearch(g, sim, i, ef, lay, ep, seen, w, picked);
  }

  lemma GrownKept(g: Graph, h: Graph, k: Graph, sim: (nat, nat) -> real, i: nat, ef: nat, lay: nat, ep: nat, next: nat)
    requires Grown(g, h, sim, i, ef, lay, ep, next) && SameLayer(h, k, lay)
    ensures Grown(g, k, sim, i, ef, lay, ep, next)
  {
    var seen: set<nat>, w: seq<Neighbor>, picked: seq<Neighbor> :|
      ChosenBySearch(g, sim, i, ef, lay, ep, seen, w, picked) && LayerLinked(g, h, sim, i, picked, lay) &&
      picked[0].id == next;
    forall r | 0 <= r < |picked| ensures TookLink(g, k, sim, i, picked[r].id, lay) {
      assert TookLink(g, h, sim, i, picked[r].id, lay);
    }
    forall a: nat | OnLayer(g, a, lay) && a != i && !Has(picked, a) ensures Links(k, a, lay) == Links(g, a, lay) {
      assert OnLayer(h, a, lay);
    }
    assert LayerLinked(g, k, sim, i, picked, lay);
  }

  lemma OtherLayersStay(h: Graph, k: Graph, sim: (nat, nat) -> real, i: nat, picked: seq<Neighbor>, lay: nat)
    requires Shape(h) && Linkable(h, i, picked, lay) && Connected(h, k, sim, i, picked, lay, |picked|)
    ensures forall l: nat :: l != lay ==> SameLayer(h, k, l)
  {
  }

  lemma SameLayerTrans(g: Graph, h: Graph, k: Graph, l: nat)
    requires SameLayer(g, h, l) && SameLayer(h, k, l)
    ensures SameLayer(g, k, l)
  {
  }

  lemma PlacedNext(g: Graph, h: Graph, k: Graph, sim: (nat, nat) -> real, i: nat, ef: nat, lay: nat, hi: nat,
                   eps: seq<nat>, ep: nat, seen: set<nat>, w: seq<Neighbor>, picked: seq<Neighbor>)
    requires Placed(g, h, sim, i, ef, lay + 1, hi, eps) && lay <= hi && ep == eps[|eps| - 1]
    requires Shape(h) && Window(h, From(sim, i), lay, i, ep, ef, seen, w)
    requires Choice(h, i, picked, lay) && Selected(sim, w, h.m, picked)
    requires Linkable(h, i, picked, lay) && Connected(h, k, sim, i, picked, lay, |picked|)
    ensures picked != [] && Placed(g, k, sim, i, ef, lay, hi, eps + [picked[0].id])
  {
    OtherLayersStay(h, k, sim, i, picked, lay);
    assert SameLayer(g, h, lay);
    LinkedFrom(g, h, k, sim, i, picked, lay);
    GrownNow(g, h, k, sim, i, ef, lay, ep, seen, w, picked);
    PlacedBelow(g, h, k, sim, i, ef, lay, hi, eps, ep, picked[0].id);
  }

  lemma PlacedBelow(g: Graph, h: Graph, k: Graph, sim: (nat, nat) -> real, i: nat, ef: nat, lay: nat, hi: nat,
                    eps: seq<nat>, ep: nat, next: nat)
    requires Placed(g, h, sim, i, ef, lay + 1, hi, eps) && lay <= hi && ep == eps[|eps| - 1]
    requires Grown(g, k, sim, i, ef, lay, ep, next) && forall l: nat :: l != lay ==> SameLayer(h, k, l)
    ensures Placed(g, k, sim, i, ef, lay, hi, eps + [next])
  {
    GrowthKept(g, h, k, sim, i, ef, lay);
    ChainMore(Growth(g, h, sim, i, ef), Growth(g, k, sim, i, ef), lay, hi, eps, next);
    forall l: nat | l < lay || l > hi ensures SameLayer(g, k, l) {
      SameLayerTrans(g, h, k, l);
    }
  }

  lemma GrowthKept(g: Graph, h: Graph, k: Graph, sim: (nat, nat) -> real, i: nat, ef: nat, lay: nat)
    requires forall l: nat :: l != lay ==> SameLayer(h, k, l)
    ensures forall l: nat, a: nat, b: nat :: l != lay && Growth(g, h, sim, i, ef)(l, a, b) ==>
              Growth(g, k, sim, i, ef)(l, a, b)
  {
    forall l: nat, a: nat, b: nat | l != lay && Growth(g, h, sim, i, ef)(l, a, b)
      ensures Growth(g, k, sim, i, ef)(l, a, b)
    {
      GrownKept(g, h, k, sim, i, ef, l, a, b);
    }
  }

  /** A node on a higher layer than the entry node becomes the entry node. */
  function MoveEntry(g: Graph, i: nat): Graph
    requires i < |g.level|
  {
    if g.level[i] > g.maxLevel then g.(maxLevel := g.level[i], entry := i) else g
  }

  /** Links do not depend on the entry point. */
  lemma SameArrays(g: Graph, top: nat, entry: nat, a: nat, l: nat)
    requires Shape(g) && OnLayer(g, a, l)
    ensures var h := g.(maxLevel := top, entry := entry);
            Shape(h) && OnLayer(h, a, l) && Links(h, a, l) == Links(g, a, l) && DegAt(h, a, l) == DegAt(g, a, l)
  {
  }

  lemma MoveEntryRow(g: Graph, i: nat, a: nat, l: nat)
    requires Inserting(g, i, 0) && i < g.n && OnLayer(g, a, l)
    ensures Shape(MoveEntry(g, i)) && OnLayer(MoveEntry(g, i), a, l) && Links(MoveEntry(g, i), a, l) == Links(g, a, l)
    ensures RowOk(MoveEntry(g, i), i + 1, TOP_LAYER + 1, a, l)
  {
    var h := MoveEntry(g, i);
    SameArrays(g, h.maxLevel, h.entry, a, l);
    assert h == g.(maxLevel := h.maxLevel, entry := h.entry);
    LaterRow(g, h, i, a, l);
  }

  lemma LaterRow(g: Graph, h: Graph, i: nat, a: nat, l: nat)
    requires Shape(g) && Shape(h) && OnLayer(g, a, l) && OnLayer(h, a, l) && g.level == h.level && g.n == h.n
    requires Cap(g, l) == Cap(h, l)
    requires Links(h, a, l) == Links(g, a, l) && DegAt(h, a, l) == DegAt(g, a, l) && RowOk(g, i, 0, a, l)
    ensures RowOk(h, i + 1, TOP_LAYER + 1, a, l)
  {
  }

  lemma MoveEntryBuilt(g: Graph, i: nat)
    requires Inserting(g, i, 0) && i < g.n
    ensures Built(MoveEntry(g, i), i + 1)
  {
    var h := MoveEntry(g, i);
    assert Shape(h);
    forall a: nat, l: nat | OnLayer(h, a, l) ensures RowOk(h, i + 1, TOP_LAYER + 1, a, l) {
      MoveEntryRow(g, i, a, l);
    }
    forall a: nat, b: nat, l: nat | a != b && OnLayer(h, a, l) && OnLayer(h, b, l) &&
                                    Active(i + 1, TOP_LAYER + 1, a, l) && Active(i + 1, TOP_LAYER + 1, b, l)
      ensures Links(h, a, l) != []
    {
      MoveEntryLinked(g, i, a, b, l);
    }
  }

  lemma MoveEntryLinked(g: Graph, i: nat, a: nat, b: nat, l: nat)
    requires Inserting(g, i, 0) && i < g.n && a != b && OnLayer(g, a, l) && OnLayer(g, b, l) && Shape(MoveEntry(g, i))
    requires Active(i + 1, TOP_LAYER + 1, a, l) && Active(i + 1, TOP_LAYER + 1, b, l)
    ensures Links(MoveEntry(g, i), a, l) != []
  {
    assert l <= TOP_LAYER;
    assert Active(i, 0, a, l) && Active(i, 0, b, l);
    MoveEntryRow(g, i, a, l);
  }

  // ---------------------------------------------------------------- algorithm 1 --

  lemma WindowChoice(g: Graph, sim: (nat, nat) -> real, i: nat, ep: nat, ef: nat, lay: nat, seen: set<nat>,
                     w: seq<Neighbor>, picked: seq<Neighbor>)
    requires Shape(g) && Window(g, From(sim, i), lay, i, ep, ef, seen, w) && w != []
    requires Selected(sim, w, g.m, picked) && g.m >= 1
    ensures Choice(g, i, picked, lay)
  {
    assert w[0] in w;
    SelectedBest(sim, w, g.m, picked, w[0]);
    forall t | 0 <= t < |picked| ensures picked[t].id < i && OnLayer(g, picked[t].id, lay) {
      assert picked[t] in w;
      var j :| 0 <= j < |w| && w[j] == picked[t];
      assert w[j].id in seen;
    }
  }

  /** The beam search for node `i` on one layer. */
  method SearchNear(g: Graph, vis: VisitedSet, sim: (nat, nat) -> real, i: nat, ef: nat, cur: nat, lay: nat,
                    prev: seq<Neighbor>)
    returns (w: seq<Neighbor>, ghost seen: set<nat>)
    requires Inserting(g, i, lay + 1) && OnLayer(g, cur, lay) && cur < i && vis.Valid() && ef >= 1
    modifies vis
    ensures vis.Valid() && Window(g, From(sim, i), lay, i, cur, ef, seen, w)
  {
    InsertingSearchable(g, i, lay + 1);
    w, seen := SearchLayer(g, vis, From(sim, i), cur, ef, lay, i, prev);
  }

  /** Search a layer for node `i` and select among the finds. */
  method Candidates(g: Graph, vis: VisitedSet, sim: (nat, nat) -> real, i: nat, ef: nat, cur: nat, lay: nat,
                    prev: seq<Neighbor>)
    returns (w: seq<Neighbor>, ghost seen: set<nat>, picked: seq<Neighbor>)
    requires Inserting(g, i, lay + 1) && OnLayer(g, i, lay) && OnLayer(g, cur, lay) && cur < i && vis.Valid() && ef >= 1
    modifies vis
    ensures vis.Valid() && Window(g, From(sim, i), lay, i, cur, ef, seen, w)
    ensures Choice(g, i, picked, lay) && Selected(sim, w, g.m, picked)
  {
    w, seen := SearchNear(g, vis, sim, i, ef, cur, lay, prev);
    picked := SelectHeuristic(sim, w, g.m);
    WindowChoice(g, sim, i, cur, ef, lay, seen, w, picked);
  }

  /** Link node `i` on one layer. `base` is the graph before any of its links. */
  method LinkLayer(ghost base: Graph, g: Graph, vis: VisitedSet, sim: (nat, nat) -> real, i: nat, ef: nat, cur: nat,
                   lay: nat, ghost hi: nat, ghost eps: seq<nat>, prev: seq<Neighbor>)
    returns (h: Graph, next: nat, w: seq<Neighbor>)
    requires Inserting(g, i, lay + 1) && OnLayer(g, i, lay) && OnLayer(g, cur, lay) && cur < i && vis.Valid() && ef >= 1
    requires lay <= hi && Placed(base, g, sim, i, ef, lay + 1, hi, eps) && cur == eps[|eps| - 1]
    modifies vis
    ensures vis.Valid() && Inserting(h, i, lay) && SameNodes(g, h) && next < i && OnLayer(h, next, lay)
    ensures Placed(base, h, sim, i, ef, lay, hi, eps + [next])
  {
    ghost var seen;
    var picked;
    w, seen, picked := Candidates(g, vis, sim, i, ef, cur, lay, prev);
    ChoiceLinkable(g, i, lay + 1, picked, lay);
    h := Connect(g, sim, i, picked, lay);
    ConnectKeeps(g, h, sim, i, lay + 1, picked, lay);
    PlacedNext(base, g, h, sim, i, ef, lay, hi, eps, cur, seen, w, picked);
    next := cur;
    if picked != [] { next := picked[0].id; }
  }

  /** Above its own layer, node `i` cannot be reached from the nodes before it. */
  lemma ClosedBefore(g: Graph, i: nat, lo: nat, lay: nat)
    requires Inserting(g, i, lo) && i < g.n && lay > g.level[i]
    ensures Closed(g, lay, g.n, Range(i))
  {
    forall x, y | x in Range(i) && Edge(g, lay, g.n, x, y) ensures y in Range(i) {
      assert RowOk(g, i, lo, x, lay);
    }
  }

  lemma PlacedStart(g: Graph, sim: (nat, nat) -> real, i: nat, ef: nat, hi: nat, from: nat)
    requires Shape(g)
    ensures Placed(g, g, sim, i, ef, hi + 1, hi, [from])
  {
  }

  /** Link node `i` on layers `hi` down to 0. */
  method LinkLayers(g: Graph, vis: VisitedSet, sim: (nat, nat) -> real, i: nat, ef: nat, from: nat, hi: nat)
    returns (h: Graph, ghost eps: seq<nat>)
    requires Inserting(g, i, hi + 1) && OnLayer(g, i, hi) && OnLayer(g, from, hi) && from < i && vis.Valid() && ef >= 1
    modifies vis
    ensures vis.Valid() && Inserting(h, i, 0) && SameNodes(g, h)
    ensures Placed(g, h, sim, i, ef, 0, hi, eps) && eps[0] == from
  {
    h, eps := g, [from];
    PlacedStart(g, sim, i, ef, hi, from);
    var cur: nat, lay: nat := from, hi + 1;
    var w: seq<Neighbor> := [];
    while lay > 0
      invariant lay <= hi + 1 && vis.Valid() && Inserting(h, i, lay) && SameNodes(g, h)
      invariant Placed(g, h, sim, i, ef, lay, hi, eps) && eps[0] == from && cur == eps[|eps| - 1]
      invariant cur < i && (lay > 0 ==> OnLayer(h, cur, lay - 1))
    {
      lay := lay - 1;
      h, cur, w := LinkLayer(g, h, vis, sim, i, ef, cur, lay, hi, eps, w);
      eps := eps + [cur];
    }
  }

  /** Walk down from the entry point to the layer where the links of node `i` start. */
  method Approach(g: Graph, sim: (nat, nat) -> real, i: nat) returns (cur: nat)
    requires i < g.n && |g.level| == g.n && Inserting(g, i, Min(g.level[i], g.maxLevel) + 1)
    ensures cur < i && OnLayer(g, cur, Min(g.level[i], g.maxLevel))
    ensures Descended(g, From(sim, i), g.entry, g.maxLevel, g.level[i], cur)
  {
    var l := g.level[i];
    InsertingSearchable(g, i, Min(l, g.maxLevel) + 1);
    forall lay: nat | l < lay <= g.maxLevel ensures Closed(g, lay, g.n, Range(i)) {
      ClosedBefore(g, i, Min(l, g.maxLevel) + 1, lay);
    }
    cur := Descend(g, From(sim, i), g.entry, g.maxLevel, l, Range(i));
  }

  /** Give node `i` its level and link it on every layer it shares with the entry node. */
  method LinkNode(g: Graph, vis: VisitedSet, sim: (nat, nat) -> real, i: nat, ef: nat, l: nat)
    returns (linked: Graph, ghost eps: seq<nat>)
    requires Built(g, i) && 1 <= i < g.n && l <= TOP_LAYER && vis.Valid() && ef >= 1
    modifies vis
    ensures vis.Valid() && Inserting(linked, i, 0) && SameNodes(AddNode(g, i, l), linked)
    ensures Placed(AddNode(g, i, l), linked, sim, i, ef, 0, Min(l, g.maxLevel), eps)
    ensures Descended(AddNode(g, i, l), From(sim, i), g.entry, g.maxLevel, l, eps[0])
  {
    var base := AddNode(g, i, l);
    AddNodeInserting(g, i, l);
    var cur := Approach(base, sim, i);
    linked, eps := LinkLayers(base, vis, sim, i, ef, cur, Min(l, g.maxLevel));
  }

  /** `base` is `g` with room for node `i` on layers 0 to `l`: its level is `l`, it has no links yet, and
      no other list changed. */
  ghost predicate RoomFor(g: Graph, base: Graph, i: nat, l: nat) {
    && Shape(g) && Shape(base) && i < |g.level| && base.level == g.level[i := l]
    && base == g.(level := base.level, upper := base.upper, updeg := base.updeg)
    && (forall lay: nat :: OnLayer(base, i, lay) ==> DegAt(base, i, lay) == 0)
    && forall a: nat, lay: nat :: OnLayer(g, a, lay) && a != i ==>
         Links(base, a, lay) == Links(g, a, lay) && DegAt(base, a, lay) == DegAt(g, a, lay)
  }

  /** The step of one insertion: node `i` got the level drawn for it, at most 16. The descent from the
      entry node through the layers above it ended where the search of its top layer started; on every
      layer it shares with the entry node it was linked to a diverse choice of what the search found,
      and the search of the next layer started at the best of them. If it is on a higher layer than any
      node before, it is the new entry node, and otherwise the entry node stays. */
  ghost predicate InsertedBy(g: Graph, h: Graph, sim: (nat, nat) -> real, i: nat, ef: nat, raw: nat, base: Graph,
                             linked: Graph, eps: seq<nat>) {
    var l := Min(raw, 16);
    && RoomFor(g, base, i, l) && SameNodes(base, linked)
    && Placed(base, linked, sim, i, ef, 0, Min(l, g.maxLevel), eps)
    && Descended(base, From(sim, i), g.entry, g.maxLevel, l, eps[0])
    && h == linked.(maxLevel := if l > g.maxLevel then l else g.maxLevel,
                    entry := if l > g.maxLevel then i else g.entry)
  }

  ghost predicate Inserted(g: Graph, h: Graph, sim: (nat, nat) -> real, i: nat, ef: nat, raw: nat) {
    exists base, linked, eps :: InsertedBy(g, h, sim, i, ef, raw, base, linked, eps)
  }

  lemma RoomMade(g: Graph, i: nat, l: nat)
    requires Built(g, i) && 1 <= i < g.n && l <= TOP_LAYER
    ensures RoomFor(g, AddNode(g, i, l), i, l)
  {
    AddNodeInserting(g, i, l);
    assert OnLayer(g, i, 0);
    assert RowOk(g, i, TOP_LAYER + 1, i, 0);
    var base := AddNode(g, i, l);
    forall a: nat, lay: nat | OnLayer(base, a, lay)
      ensures if a == i then DegAt(base, a, lay) == 0
              else Links(base, a, lay) == Links(g, a, lay) && DegAt(base, a, lay) == DegAt(g, a, lay)
    {
      AddNodeRow(g, i, l, a, lay);
    }
  }

  /** Insert node `i` on its layers. `raw` is the level drawn for it before the cut. */
  method Insert(g: Graph, vis: VisitedSet, sim: (nat, nat) -> real, i: nat, ef: nat, raw: nat) returns (h: Graph)
    requires Built(g, i) && 1 <= i < g.n && vis.Valid() && ef >= 1
    modifies vis
    ensures vis.Valid() && Built(h, i + 1) && h.n == g.n && h.dim == g.dim && h.m == g.m
    ensures h.level == g.level[i := Min(raw, 16)] && Inserted(g, h, sim, i, ef, raw)
  {
    ghost var eps;
    var linked;
    linked, eps := LinkNode(g, vis, sim, i, ef, Min(raw, TOP_LAYER));
    MoveEntryBuilt(linked, i);
    h := MoveEntry(linked, i);
    RoomMade(g, i, Min(raw, TOP_LAYER));
    assert InsertedBy(g, h, sim, i, ef, raw, AddNode(g, i, Min(raw, TOP_LAYER)), linked, eps);
  }
}
