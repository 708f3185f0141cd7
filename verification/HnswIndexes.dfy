/** The index object: build, search, save and load. */
module HnswIndexes {
  import opened Basics
  import opened Neighbors
  import opened HnswGraphs
  import opened HnswSearch
  import opened HnswBuild
  import opened HnswInserts
  import opened IndexFiles
  import opened VisitedSets

  /** The arrays `build` allocates. */
  function Start(n: nat, dim: nat, m: int): Graph {
    var links := Max(2, m);
    Graph(n, dim, links, Min(links, 128), Min(links * 2, 128), 0, 0, Zeros(n * Min(links * 2, 128)), Zeros(n), Zeros(n),
          seq(n, _ => []), seq(n, _ => []))
  }

  /** Node 0 is inserted by giving it its level. */
  function FirstNode(g: Graph, l: nat): Graph
    requires Shape(g) && g.n > 0
  {
    AddNode(g, 0, l).(maxLevel := l)
  }

  lemma StartShape(n: nat, dim: nat, m: int)
    ensures Shape(Start(n, dim, m)) && Params(Start(n, dim, m)) && Searchable(Start(n, dim, m))
    ensures n > 0 ==> Built(Start(n, dim, m), 1)
  {
    var g := Start(n, dim, m);
    assert Shape(g);
    if n > 0 { EmptyBuilt(g); }
  }

  lemma EmptyBuilt(g: Graph)
    requires Shape(g) && Params(g) && Levels(g, 1) && EntryTop(g, 1)
    requires forall a: nat, l: nat :: OnLayer(g, a, l) ==> DegAt(g, a, l) == 0
    ensures Built(g, 1)
  {
    forall a: nat, l: nat | OnLayer(g, a, l) ensures RowOk(g, 1, TOP_LAYER + 1, a, l) {
      assert DegAt(g, a, l) == 0;
      assert Links(g, a, l) == [];
    }
  }

  lemma FirstNodeBuilt(n: nat, dim: nat, m: int, l: nat)
    requires n > 0 && l <= TOP_LAYER
    ensures Shape(Start(n, dim, m)) && Built(FirstNode(Start(n, dim, m), l), 1)
  {
    StartShape(n, dim, m);
    var g := Start(n, dim, m);
    var h := FirstNode(g, l);
    AddNodeShape(g, 0, l);
    forall a: nat, lay: nat | OnLayer(h, a, lay) ensures DegAt(h, a, lay) == 0 {
      if lay > 0 { assert a == 0 && h.updeg[0] == Zeros(l); }
    }
    EmptyBuilt(h);
  }

  // ---------------------------------------------------------------------- building --

  /** The graph before the first insertion: no links, node 0 on layers 0 to `l` and the entry node. */
  ghost predicate FirstGraph(g: Graph, n: nat, dim: nat, m: int, l: nat) {
    && Shape(g) && g.n == n && g.dim == dim
    && g.m == Max(2, m) && g.mMax == Min(Max(2, m), 128) && g.mMax0 == Min(2 * Max(2, m), 128)
    && g.entry == 0 && g.maxLevel == l && |g.level| == n
    && (forall a :: 0 <= a < n ==> g.level[a] == if a == 0 then l else 0)
    && forall a: nat, lay: nat :: OnLayer(g, a, lay) ==> DegAt(g, a, lay) == 0
  }

  /** One insertion with the build's own similarity, beam and levels. */
  ghost function Insertion(sim: (nat, nat) -> real, ef: nat, raw: nat -> nat): (Graph, Graph, nat) -> bool {
    (g: Graph, h: Graph, i: nat) => Inserted(g, h, sim, i, ef, raw(i))
  }

  /** Graph `i` came from the one before it by step `i`. */
  ghost predicate StepAt(step: (Graph, Graph, nat) -> bool, gs: seq<Graph>, i: nat)
    requires 0 < i < |gs|
  {
    step(gs[i - 1], gs[i], i)
  }

  ghost predicate Run(step: (Graph, Graph, nat) -> bool, gs: seq<Graph>) {
    forall i :: 0 < i < |gs| ==> StepAt(step, gs, i)
  }

  /** The graphs of a build, one after each node. */
  ghost predicate Steps(steps: seq<Graph>, sim: (nat, nat) -> real, ef: nat, raw: nat -> nat) {
    Run(Insertion(sim, ef, raw), steps)
  }

  lemma RunMore(step: (Graph, Graph, nat) -> bool, gs: seq<Graph>, h: Graph)
    requires gs != [] && Run(step, gs) && step(gs[|gs| - 1], h, |gs|)
    ensures Run(step, gs + [h])
  {
    forall i | 0 < i < |gs + [h]| ensures StepAt(step, gs + [h], i) {
      if i < |gs| { assert StepAt(step, gs, i); }
    }
  }

  lemma StepsMore(steps: seq<Graph>, sim: (nat, nat) -> real, ef: nat, raw: nat -> nat, h: Graph)
    requires steps != [] && Steps(steps, sim, ef, raw)
    requires Inserted(steps[|steps| - 1], h, sim, |steps|, ef, raw(|steps|))
    ensures Steps(steps + [h], sim, ef, raw)
  {
    RunMore(Insertion(sim, ef, raw), steps, h);
  }

  lemma {:induction false} RunLevels(step: (Graph, Graph, nat) -> bool, gs: seq<Graph>, raw: nat -> nat, n: nat, k: nat)
    requires Run(step, gs) && k < |gs| <= n
    requires forall g, h, i: nat :: step(g, h, i) ==> i < |g.level| && h.level == g.level[i := Min(raw(i), 16)]
    requires |gs[0].level| == n && gs[0].level[0] == Min(raw(0), 16)
    ensures |gs[k].level| == n && forall j :: 0 <= j <= k ==> gs[k].level[j] == Min(raw(j), 16)
  {
    if k > 0 {
      RunLevels(step, gs, raw, n, k - 1);
      assert StepAt(step, gs, k);
    }
  }

  /** Every node of a build has the level drawn for it, at most 16. */
  lemma StepsLevels(steps: seq<Graph>, sim: (nat, nat) -> real, ef: nat, raw: nat -> nat, n: nat)
    requires Steps(steps, sim, ef, raw) && 0 < |steps| == n
    requires |steps[0].level| == n && steps[0].level[0] == Min(raw(0), 16)
    ensures |steps[n - 1].level| == n && forall j :: 0 <= j < n ==> steps[n - 1].level[j] == Min(raw(j), 16)
  {
    var step := Insertion(sim, ef, raw);
    forall g, h, i: nat | step(g, h, i) ensures i < |g.level| && h.level == g.level[i := Min(raw(i), 16)] {
      InsertedLevel(g, h, sim, i, ef, raw(i));
    }
    RunLevels(step, steps, raw, n, n - 1);
  }

  lemma InsertedLevel(g: Graph, h: Graph, sim: (nat, nat) -> real, i: nat, ef: nat, raw: nat)
    requires Inserted(g, h, sim, i, ef, raw)
    ensures i < |g.level| && h.level == g.level[i := Min(raw, 16)]
  {
  }

  lemma FirstGraphs(n: nat, dim: nat, m: int, l: nat)
    requires l <= TOP_LAYER
    ensures FirstGraph(Start(n, dim, m), n, dim, m, 0)
    ensures n > 0 ==> Shape(Start(n, dim, m)) && FirstGraph(FirstNode(Start(n, dim, m), l), n, dim, m, l)
  {
    var g := Start(n, dim, m);
    StartShape(n, dim, m);
    if n > 0 {
      var h := FirstNode(g, l);
      AddNodeShape(g, 0, l);
      forall a: nat, lay: nat | OnLayer(h, a, lay) ensures DegAt(h, a, lay) == 0 {
        if lay > 0 { assert a == 0 && h.updeg[0] == Zeros(l); }
      }
    }
  }

  /** One insertion at the end of a run of them. */
  method InsertAfter(g: Graph, vis: VisitedSet, sim: (nat, nat) -> real, i: nat, ef: nat, raw: nat -> nat,
                     ghost before: seq<Graph>)
    returns (h: Graph, ghost steps: seq<Graph>)
    requires Built(g, i) && 1 <= i < g.n && vis.Valid() && ef >= 1
    requires |before| == i && before[i - 1] == g && Steps(before, sim, ef, raw)
    modifies vis
    ensures vis.Valid() && Built(h, i + 1) && h.n == g.n && h.dim == g.dim && h.m == g.m
    ensures steps == before + [h] && Steps(steps, sim, ef, raw)
  {
    h := Insert(g, vis, sim, i, ef, raw(i));
    StepsMore(before, sim, ef, raw, h);
    steps := before + [h];
  }

  class Index {
    var g: Graph

    ghost predicate Valid() reads this { Searchable(g) }

    constructor ()
      ensures Valid() && g.n == 0
    {
      g := Graph(0, 0, 16, 16, 32, 0, 0, [], [], [], [], []);
    }

    /** Sequential build over `n` items. `raw` gives the level drawn for each node; `steps` are the graphs
        after each of them. */
    method Build(n: nat, dim: nat, sim: (nat, nat) -> real, m: int, efConstruction: int, raw: nat -> nat,
                 vis: VisitedSet) returns (ghost steps: seq<Graph>)
      requires vis.Valid()
      modifies this, vis
      ensures vis.Valid() && Valid() && g.n == n && g.dim == dim && g.m == Max(2, m)
      ensures n >= 1 ==> Built(g, n)
      ensures n <= 1 ==> FirstGraph(g, n, dim, m, 0) && g == Start(n, dim, m)
      ensures n >= 2 ==> |steps| == n && g == steps[n - 1] && FirstGraph(steps[0], n, dim, m, Min(raw(0), 16))
      ensures n >= 2 ==> Steps(steps, sim, Max(efConstruction, Max(2, m)), raw)
      ensures n >= 2 ==> |g.level| == n && forall i :: 0 <= i < n ==> g.level[i] == Min(raw(i), 16)
    {
      g := Start(n, dim, m);
      steps := [];
      StartShape(n, dim, m);
      FirstGraphs(n, dim, m, Min(raw(0), TOP_LAYER));
      if n <= 1 { return; }
      var ef := Max(efConstruction, g.m);
      FirstNodeBuilt(n, dim, m, Min(raw(0), TOP_LAYER));
      g := FirstNode(g, Min(raw(0), TOP_LAYER));
      var seedN := Min(n, 512);
      steps := InsertRange(sim, 1, seedN, ef, raw, vis, [g]);
      steps := InsertRange(sim, seedN, n, ef, raw, vis, steps);
      StepsLevels(steps, sim, ef, raw, n);
      BuiltSearchable(g, n);
    }

    /** Insert nodes `from` to `to - 1`. */
    method InsertRange(sim: (nat, nat) -> real, from: nat, to: nat, ef: nat, raw: nat -> nat, vis: VisitedSet,
                       ghost before: seq<Graph>) returns (ghost steps: seq<Graph>)
      requires 1 <= from <= to <= g.n && Built(g, from) && vis.Valid() && ef >= 1
      requires |before| == from && before[from - 1] == g && Steps(before, sim, ef, raw)
      modifies this, vis
      ensures vis.Valid() && Built(g, to) && g.n == old(g.n) && g.dim == old(g.dim) && g.m == old(g.m)
      ensures |steps| == to && steps[to - 1] == g && before <= steps && Steps(steps, sim, ef, raw)
    {
      steps := before;
      for i := from to to
        invariant vis.Valid() && Built(g, i) && g.n == old(g.n) && g.dim == old(g.dim) && g.m == old(g.m)
        invariant |steps| == i && steps[i - 1] == g && before <= steps && Steps(steps, sim, ef, raw)
      {
        steps := InsertNext(sim, i, ef, raw, vis, steps);
      }
    }

    method InsertNext(sim: (nat, nat) -> real, i: nat, ef: nat, raw: nat -> nat, vis: VisitedSet,
                      ghost before: seq<Graph>)
      returns (ghost steps: seq<Graph>)
      requires 1 <= i < g.n && Built(g, i) && vis.Valid() && ef >= 1
      requires |before| == i && before[i - 1] == g && Steps(before, sim, ef, raw)
      modifies this, vis
      ensures vis.Valid() && Built(g, i + 1) && g.n == old(g.n) && g.dim == old(g.dim) && g.m == old(g.m)
      ensures steps == before + [g] && Steps(steps, sim, ef, raw)
    {
      g, steps := InsertAfter(g, vis, sim, i, ef, raw, before);
    }

    /** The `k` best of what the beam saw; see `HnswSearch.Retrieve`. */
    method Retrieve(f: nat -> real, k: nat, ef: int, vis: VisitedSet)
      returns (w: seq<Neighbor>, ghost land: nat, ghost seen: set<nat>)
      requires Valid() && vis.Valid()
      modifies vis
      ensures vis.Valid() && (g.n == 0 ==> w == [])
      ensures g.n > 0 ==> Landing(g, f, land) && Found(g, 0, g.n, land, seen) && TopList(seen, f, k, w)
      ensures g.n > 0 && |seen| <= Max(ef, k) ==> Closed(g, 0, g.n, seen)
      ensures g.n > 0 ==> BeamSaw(g, f, land, Max(ef, k), seen)
      ensures g.n > 0 && Max(ef, k) >= g.n && (forall x: nat :: x < g.n ==> Reach(g, 0, g.n, land, x))
              ==> TopList(Range(g.n), f, k, w)
    {
      w, land, seen := HnswSearch.Retrieve(g, vis, f, k, ef);
      if g.n > 0 {
        SubsetSize(Component(g, 0, g.n, land), Range(g.n));
        if forall x: nat :: x < g.n ==> Reach(g, 0, g.n, land, x) {
          assert Component(g, 0, g.n, land) == Range(g.n);
        }
      }
    }

    method Save() returns (ws: seq<nat>)
      requires Valid()
      ensures ws == Encode(g)
    {
      ws := Header(g) + g.deg0 + g.links0 + g.level;
      for i := 0 to g.n
        invariant ws == Front(g) + UpperTo(g, i)
      {
        assert (Front(g) + UpperTo(g, i)) + (g.updeg[i] + g.upper[i]) == Front(g) + UpperTo(g, i + 1);
        if g.level[i] > 0 {
          ws := ws + g.updeg[i];
          ws := ws + g.upper[i];
        } else {
          assert g.updeg[i] + g.upper[i] == [];
        }
      }
    }

    /** A file is accepted exactly when it is the file of a loadable graph, which it restores.
        Traversals of it stay in bounds exactly when no node has more links than their buffer. */
    method Load(ws: seq<nat>) returns (ok: bool)
      modifies this
      ensures ok <==> exists t :: Loadable(t) && Encode(t) == ws
      ensures ok ==> |ws| >= 8 && ws[0] == 0x48535732 && 1 <= ws[1] <= 100_000_000 && 1 <= ws[2] <= 4096 &&
                     2 <= ws[3] <= 1024 && ws[4] == ws[3] && ws[5] == 2 * ws[3] && ws[6] <= 64 && ws[7] < ws[1]
      ensures ok ==> Loadable(g) && Encode(g) == ws && (Valid() <==> DegreesFit(g)) && (g.m <= 64 ==> Valid())
    {
      ok, g := Decode(ws);
      if ok {
        LoadableSearchable(g);
        EncodeMeans(g);
      }
    }
  }

  // ------------------------------------------------------------- saving and loading --

  ghost predicate DegreesFit(g: Graph)
    requires Shape(g)
  {
    forall a: nat, lay: nat {:trigger DegAt(g, a, lay)} :: OnLayer(g, a, lay) ==> DegAt(g, a, lay) <= BUFFER
  }

  /** An accepted graph keeps every traversal in bounds if and only if no degree exceeds the buffer;
      with at most 64 links per node none does. */
  lemma LoadableSearchable(g: Graph)
    requires Loadable(g)
    ensures Searchable(g) <==> DegreesFit(g)
    ensures g.m <= 64 ==> Searchable(g)
  {
    forall i: nat, lay: nat | OnLayer(g, i, lay) ensures |Links(g, i, lay)| == DegAt(g, i, lay) <= 2 * g.m {
      LoadableRow(g, i, lay);
    }
    forall i: nat, lay: nat, j: nat | OnLayer(g, i, lay) && j < |Links(g, i, lay)|
      ensures OnLayer(g, Links(g, i, lay)[j], lay)
    {
      LoadableRow(g, i, lay);
      assert Links(g, i, lay)[j] == Row(g, i, lay)[j];
    }
  }

  lemma LoadableRow(g: Graph, i: nat, lay: nat)
    requires Loadable(g) && OnLayer(g, i, lay)
    ensures |Links(g, i, lay)| == DegAt(g, i, lay) <= 2 * g.m && AllOnLayer(g, Row(g, i, lay), DegAt(g, i, lay), lay)
  {
    assert BaseOk(g, i) && UpperOk(g, i);
    if lay > 0 { assert UpperRowOk(g, g.updeg[i], g.upper[i], lay - 1); }
  }

  /** One item that links to itself 129 times. */
  function WideFile(): Graph { Graph(1, 1, 65, 65, 130, 0, 0, Zeros(130), [129], [0], [[]], [[]]) }

  /** An accepted file bounds a degree by twice m, which with m = 65 is more than the buffer holds. */
  lemma WideFileTooWide()
    ensures Loadable(WideFile()) && !Searchable(WideFile()) && |Links(WideFile(), 0, 0)| > BUFFER
  {
    var g := WideFile();
    assert Shape(g) && BaseOk(g, 0) && UpperOk(g, 0);
    LoadableSearchable(g);
    assert OnLayer(g, 0, 0) && DegAt(g, 0, 0) == 129;
  }

  lemma BuiltBaseLoads(g: Graph, a: nat)
    requires Built(g, g.n) && a < g.n
    ensures BaseOk(g, a)
  {
    RowBounds(g, a, 0);
    assert RowOk(g, g.n, TOP_LAYER + 1, a, 0);
    RowLoads(g, a, 0);
  }

  /** The used part of a row leads to nodes of the layer. */
  lemma RowLoads(g: Graph, a: nat, lay: nat)
    requires Shape(g) && OnLayer(g, a, lay) && RowOk(g, g.n, TOP_LAYER + 1, a, lay)
    ensures AllOnLayer(g, Row(g, a, lay), DegAt(g, a, lay), lay)
  {
    var row, links := Row(g, a, lay), Links(g, a, lay);
    forall j | 0 <= j < DegAt(g, a, lay) ensures OnLayer(g, row[j], lay) {
      assert row[j] == links[j];
      assert links[j] in links;
    }
  }

  lemma BuiltUpperLoads(g: Graph, a: nat, r: nat)
    requires Built(g, g.n) && a < g.n && r < g.level[a]
    ensures UpperRowOk(g, g.updeg[a], g.upper[a], r)
  {
    RowBounds(g, a, r + 1);
    assert RowOk(g, g.n, TOP_LAYER + 1, a, r + 1);
    RowLoads(g, a, r + 1);
  }

  /** A built index within the size limits can be loaded back exactly when it keeps at most 64
      links per node: `build` cuts the layer-0 capacity at 128, and `load` insists on twice m. */
  lemma BuiltLoadable(g: Graph)
    requires Built(g, g.n)
    ensures Loadable(g) <==> g.m <= 64 && g.n <= 100_000_000 && 1 <= g.dim <= 4096
  {
    if g.m <= 64 {
      forall a | 0 <= a < g.n ensures BaseOk(g, a) && UpperOk(g, a) {
        BuiltBaseLoads(g, a);
        forall r | 0 <= r < g.level[a] ensures UpperRowOk(g, g.updeg[a], g.upper[a], r) { BuiltUpperLoads(g, a, r); }
      }
    }
  }

  /** The smallest index that saves but does not load: one item, m = 65. */
  lemma WideIndexRejected()
    ensures Built(Start(1, 1, 65), 1) && !Loadable(Start(1, 1, 65))
  {
    StartShape(1, 1, 65);
    BuiltLoadable(Start(1, 1, 65));
  }

  /** Loading a saved index accepts it exactly when it is loadable, and restores every stored field. */
  method SaveAndLoad(saved: Index, other: Index) returns (ok: bool)
    requires saved.Valid() && saved != other
    modifies other
    ensures ok <==> Loadable(saved.g)
    ensures ok ==> other.g == saved.g
  {
    var ws := saved.Save();
    ok := other.Load(ws);
    if ok { EncodeInjective(other.g, saved.g); }
  }
}
