/** Neighbour selection, linking and insertion of the HNSW index, one node at a time.

    `sim(a, b)` is the inner product of items `a` and `b`. */
module HnswBuild {
  import opened Basics
  import opened Neighbors
  import opened HnswGraphs

  /** Node levels are cut at this layer. */
  const TOP_LAYER: nat := 16

  // ------------------------------------------------------- neighbour selection --

  /** `e` is closer to an already selected, no worse neighbour than to the query. */
  ghost predicate Redundant(sim: (nat, nat) -> real, e: Neighbor, out: seq<Neighbor>) {
    exists t :: 0 <= t < |out| && out[t].score >= e.score && sim(e.id, out[t].id) > e.score
  }

  /** No selected neighbour is closer to an earlier one than to the query. */
  ghost predicate Diverse(sim: (nat, nat) -> real, out: seq<Neighbor>) {
    forall s, t :: 0 <= s < t < |out| ==> sim(out[t].id, out[s].id) <= out[t].score
  }

  /** `out` is a best-first, pairwise diverse choice of at most `m` of `w` that leaves out only
      redundant candidates and, once full, candidates no better than any it holds. */
  ghost predicate Selected(sim: (nat, nat) -> real, w: seq<Neighbor>, m: nat, out: seq<Neighbor>) {
    && |out| <= m && Descending(out) && Diverse(sim, out) && Distinct(out)
    && (forall t :: 0 <= t < |out| ==> out[t] in w)
    && forall e :: e in w ==> e in out || Redundant(sim, e, out) ||
                              (|out| == m && forall t :: 0 <= t < |out| ==> out[t].score >= e.score)
  }

  /** A selection starts with a best candidate, so it is empty only when it has to be. */
  lemma SelectedBest(sim: (nat, nat) -> real, w: seq<Neighbor>, m: nat, out: seq<Neighbor>, e: Neighbor)
    requires Selected(sim, w, m, out) && m >= 1 && e in w
    ensures out != [] && out[0].score >= e.score
  {
  }

  /** The choice made among the first `i` of the sorted candidates. */
  ghost predicate Picking(sim: (nat, nat) -> real, s: seq<Neighbor>, i: nat, m: nat, out: seq<Neighbor>) {
    && i <= |s| && |out| <= m && Descending(out) && Diverse(sim, out) && Distinct(out)
    && (forall t :: 0 <= t < |out| ==> out[t] in s[..i])
    && forall j :: 0 <= j < i ==> s[j] in out || Redundant(sim, s[j], out)
  }

  lemma PickNext(sim: (nat, nat) -> real, s: seq<Neighbor>, i: nat, m: nat, out: seq<Neighbor>)
    requires Distinct(s) && Descending(s) && Picking(sim, s, i, m, out) && i < |s| && |out| < m
    requires forall t :: 0 <= t < |out| ==> sim(s[i].id, out[t].id) <= s[i].score
    ensures Picking(sim, s, i + 1, m, out + [s[i]])
  {
    var more := out + [s[i]];
    assert s[..i + 1] == s[..i] + [s[i]];
    assert more[|out|] == s[i];
    forall t | 0 <= t < |out| ensures out[t].score >= s[i].score && out[t].id != s[i].id {
      assert out[t] in s[..i];
      var j :| 0 <= j < i && s[..i][j] == out[t];
      assert s[j] == out[t];
    }
    forall j | 0 <= j < i && s[j] !in out ensures Redundant(sim, s[j], more) {
      var t :| 0 <= t < |out| && out[t].score >= s[j].score && sim(s[j].id, out[t].id) > s[j].score;
      assert more[t] == out[t];
    }
  }

  lemma SkipNext(sim: (nat, nat) -> real, s: seq<Neighbor>, i: nat, m: nat, out: seq<Neighbor>, t: nat)
    requires Descending(s) && Picking(sim, s, i, m, out) && i < |s|
    requires t < |out| && sim(s[i].id, out[t].id) > s[i].score
    ensures Picking(sim, s, i + 1, m, out)
  {
    assert s[..i + 1] == s[..i] + [s[i]];
    assert out[t] in s[..i];
    var j :| 0 <= j < i && s[..i][j] == out[t];
    assert s[j] == out[t];
  }

  lemma Picked(sim: (nat, nat) -> real, w: seq<Neighbor>, s: seq<Neighbor>, i: nat, m: nat, out: seq<Neighbor>)
    requires multiset(s) == multiset(w) && Descending(s) && Picking(sim, s, i, m, out) && (|out| >= m || i == |s|)
    ensures Selected(sim, w, m, out)
  {
    forall t | 0 <= t < |out| ensures out[t] in w {
      assert out[t] in s[..i];
      var j :| 0 <= j < i && s[..i][j] == out[t];
      assert s[j] in multiset(w);
    }
    forall e | e in w && e !in out && !Redundant(sim, e, out)
      ensures |out| == m && forall t :: 0 <= t < |out| ==> out[t].score >= e.score
    {
      assert e in multiset(s);
      var j :| 0 <= j < |s| && s[j] == e;
      assert j >= i;
      forall t | 0 <= t < |out| ensures out[t].score >= e.score {
        assert out[t] in s[..i];
        var r :| 0 <= r < i && s[..i][r] == out[t];
        assert s[r] == out[t];
      }
    }
  }

  /** Is `e` at least as close to the query as to every neighbour kept before? */
  method KeepsApart(sim: (nat, nat) -> real, e: Neighbor, out: seq<Neighbor>) returns (keep: bool, ghost at: nat)
    ensures keep ==> forall t :: 0 <= t < |out| ==> sim(e.id, out[t].id) <= e.score
    ensures !keep ==> at < |out| && sim(e.id, out[at].id) > e.score
  {
    for t := 0 to |out|
      invariant forall r :: 0 <= r < t ==> sim(e.id, out[r].id) <= e.score
    {
      if sim(e.id, out[t].id) > e.score { return false, t; }
    }
    return true, 0;
  }

  /** Algorithm 4: best first, skip a candidate that a kept neighbour makes redundant. */
  method SelectHeuristic(sim: (nat, nat) -> real, w: seq<Neighbor>, m: nat) returns (out: seq<Neighbor>)
    requires Distinct(w)
    ensures Selected(sim, w, m, out)
  {
    var s := SortDescending(w);
    Reordered(w, s, _ => 0.0);
    out := [];
    var i := 0;
    while i < |s| && |out| < m
      invariant Picking(sim, s, i, m, out)
      decreases |s| - i
    {
      var keep, at := KeepsApart(sim, s[i], out);
      if keep {
        PickNext(sim, s, i, m, out);
        out := out + [s[i]];
      } else {
        SkipNext(sim, s, i, m, out, at);
      }
      i := i + 1;
    }
    Picked(sim, w, s, i, m, out);
  }

  // -------------------------------------------------------------------- linking --

  function Ids(w: seq<Neighbor>): (r: seq<nat>)
    ensures |r| == |w| && forall j :: 0 <= j < |w| ==> r[j] == w[j].id
  {
    seq(|w|, j requires 0 <= j < |w| => w[j].id)
  }

  /** The entries of a neighbour list with their scores against the list's owner. */
  function Against(sim: (nat, nat) -> real, p: nat, ids: seq<nat>): (r: seq<Neighbor>)
    ensures |r| == |ids| && forall j :: 0 <= j < |ids| ==> r[j] == Neighbor(ids[j], sim(p, ids[j]))
  {
    seq(|ids|, j requires 0 <= j < |ids| => Neighbor(ids[j], sim(p, ids[j])))
  }

  ghost predicate NoRepeat(s: seq<nat>) {
    forall a, b :: 0 <= a < b < |s| ==> s[a] != s[b]
  }

  /** The neighbour list `was` of node `p` after a link to `i` was added: appended if there is
      room, otherwise the whole list and `i` are re-selected, best first and diverse. */
  ghost predicate BackLinked(sim: (nat, nat) -> real, p: nat, was: seq<nat>, i: nat, cap: nat, now: seq<nat>) {
    if |was| < cap then now == was + [i]
    else exists keep :: Selected(sim, Against(sim, p, was + [i]), cap, keep) && now == Ids(keep)
  }

  /** What a back link keeps, whichever way it went. */
  lemma BackLinkedList(sim: (nat, nat) -> real, p: nat, was: seq<nat>, i: nat, cap: nat, now: seq<nat>)
    requires BackLinked(sim, p, was, i, cap, now) && NoRepeat(was) && i !in was && cap >= 1
    ensures NoRepeat(now) && 1 <= |now| <= cap
    ensures forall y :: y in now ==> y in was || y == i
  {
    if |was| >= cap {
      var w := Against(sim, p, was + [i]);
      var keep :| Selected(sim, w, cap, keep) && now == Ids(keep);
      assert w[|was|] in w;
      SelectedBest(sim, w, cap, keep, w[|was|]);
      assert NoRepeat(now);
      forall y | y in now ensures y in was || y == i { SelectedFrom(sim, p, was + [i], cap, keep, y); }
    }
  }

  lemma SelectedFrom(sim: (nat, nat) -> real, p: nat, ids: seq<nat>, cap: nat, keep: seq<Neighbor>, y: nat)
    requires Selected(sim, Against(sim, p, ids), cap, keep) && y in Ids(keep)
    ensures y in ids
  {
    var j :| 0 <= j < |keep| && keep[j].id == y;
    assert keep[j] in Against(sim, p, ids);
  }

  ghost predicate CanLink(g: Graph, i: nat, p: nat, lay: nat)
    requires Shape(g)
  {
    OnLayer(g, p, lay) && DegAt(g, p, lay) <= Cap(g, lay) && NoRepeat(Links(g, p, lay)) && i !in Links(g, p, lay)
  }

  /** Node `p` of the layer has taken a link to `i`. */
  ghost predicate TookLink(g: Graph, h: Graph, sim: (nat, nat) -> real, i: nat, p: nat, lay: nat) {
    && Shape(g) && Shape(h) && OnLayer(g, p, lay) && OnLayer(h, p, lay)
    && DegAt(h, p, lay) <= Cap(g, lay)
    && BackLinked(sim, p, Links(g, p, lay), i, Cap(g, lay), Links(h, p, lay))
  }

  /** Add `i` to the list of a picked node, re-selecting the list when it is full. */
  method LinkBack(g: Graph, sim: (nat, nat) -> real, i: nat, p: nat, lay: nat) returns (h: Graph)
    requires Shape(g) && CanLink(g, i, p, lay)
    ensures OnlyRow(g, h, p, lay) && TookLink(g, h, sim, i, p, lay)
  {
    var cap := Cap(g, lay);
    if DegAt(g, p, lay) < cap {
      h := AppendLink(g, p, lay, i);
      return;
    }
    var w := Against(sim, p, Links(g, p, lay) + [i]);
    var keep := SelectHeuristic(sim, w, cap);
    h := WriteLinks(g, p, lay, Ids(keep));
  }

  /** Graphs that agree except on some nodes of one layer. */
  ghost predicate SameElsewhere(g: Graph, h: Graph, s: set<nat>, lay: nat) {
    && Shape(g) && Shape(h) && SameNodes(g, h)
    && forall a: nat, l: nat :: OnLayer(g, a, l) && (l != lay || a !in s) ==>
         Links(h, a, l) == Links(g, a, l) && DegAt(h, a, l) == DegAt(g, a, l)
  }

  lemma RowElsewhere(g: Graph, h: Graph, k: Graph, s: set<nat>, p: nat, lay: nat)
    requires SameElsewhere(g, h, s, lay) && OnlyRow(h, k, p, lay)
    ensures SameElsewhere(g, k, s + {p}, lay)
  {
    OnlyRowLinks(h, k, p, lay);
  }

  /** Nodes that can be linked to `i` on a layer: distinct, present, with proper lists without `i`. */
  ghost predicate Linkable(g: Graph, i: nat, picked: seq<Neighbor>, lay: nat)
    requires Shape(g)
  {
    && OnLayer(g, i, lay) && Distinct(picked) && !Has(picked, i)
    && forall t :: 0 <= t < |picked| ==> CanLink(g, i, picked[t].id, lay)
  }

  /** Node `i` links to the picked nodes that fit, and each of the first `t` links back. */
  ghost predicate Connected(g: Graph, h: Graph, sim: (nat, nat) -> real, i: nat, picked: seq<Neighbor>, lay: nat,
                            t: nat)
    requires Shape(g) && Linkable(g, i, picked, lay) && t <= |picked|
  {
    && SameElsewhere(g, h, IdSet(picked[..t]) + {i}, lay)
    && Links(h, i, lay) == Ids(picked)[..Min(|picked|, Cap(g, lay))] && DegAt(h, i, lay) <= Cap(g, lay)
    && forall r :: 0 <= r < t ==> TookLink(g, h, sim, i, picked[r].id, lay)
  }

  /** Let picked node `t` link back. Its level is always high enough. */
  method ConnectBack(ghost g: Graph, h: Graph, sim: (nat, nat) -> real, i: nat, picked: seq<Neighbor>, lay: nat, t: nat)
    returns (k: Graph)
    requires Shape(g) && Linkable(g, i, picked, lay) && t < |picked| && Connected(g, h, sim, i, picked, lay, t)
    ensures Connected(g, k, sim, i, picked, lay, t + 1)
  {
    Pending(g, h, sim, i, picked, lay, t);
    if h.level[picked[t].id] < lay { return h; }
    k := LinkBack(h, sim, i, picked[t].id, lay);
    ConnectedNext(g, h, k, sim, i, picked, lay, t);
  }

  /** Link a new node and its selected neighbours, both ways. */
  method Connect(g: Graph, sim: (nat, nat) -> real, i: nat, picked: seq<Neighbor>, lay: nat) returns (h: Graph)
    requires Shape(g) && Linkable(g, i, picked, lay)
    ensures Connected(g, h, sim, i, picked, lay, |picked|)
  {
    var own := Ids(picked)[..Min(|picked|, Cap(g, lay))];
    h := WriteLinks(g, i, lay, own);
    ConnectedStart(g, h, sim, i, picked, lay);
    var t := 0;
    while t < |picked|
      invariant 0 <= t <= |picked| && Connected(g, h, sim, i, picked, lay, t)
    {
      h := ConnectBack(g, h, sim, i, picked, lay, t);
      t := t + 1;
    }
  }

  lemma ConnectedStart(g: Graph, h: Graph, sim: (nat, nat) -> real, i: nat, picked: seq<Neighbor>, lay: nat)
    requires Shape(g) && Linkable(g, i, picked, lay) && OnlyRow(g, h, i, lay)
    requires Links(h, i, lay) == Ids(picked)[..Min(|picked|, Cap(g, lay))] && DegAt(h, i, lay) <= Cap(g, lay)
    ensures Connected(g, h, sim, i, picked, lay, 0)
  {
    assert IdSet(picked[..0]) == {};
    OnlyRowLinks(g, h, i, lay);
  }

  /** A picked node whose turn has not come exists on the layer and still has its own list. */
  lemma Pending(g: Graph, h: Graph, sim: (nat, nat) -> real, i: nat, picked: seq<Neighbor>, lay: nat, t: nat)
    requires Shape(g) && Linkable(g, i, picked, lay) && t < |picked| && Connected(g, h, sim, i, picked, lay, t)
    ensures CanLink(h, i, picked[t].id, lay) && Cap(h, lay) == Cap(g, lay)
    ensures Links(h, picked[t].id, lay) == Links(g, picked[t].id, lay)
  {
    assert OnLayer(g, picked[t].id, lay);
    assert picked[t].id !in IdSet(picked[..t]) + {i};
  }

  /** A back link of another node leaves a list alone. */
  lemma TookLinkKept(g: Graph, h: Graph, k: Graph, sim: (nat, nat) -> real, i: nat, p: nat, q: nat, lay: nat)
    requires TookLink(g, h, sim, i, q, lay) && OnlyRow(h, k, p, lay) && p != q
    ensures TookLink(g, k, sim, i, q, lay)
  {
    OnlyRowLinks(h, k, p, lay);
    assert OnLayer(h, q, lay);
  }

  lemma ConnectedNext(g: Graph, h: Graph, k: Graph, sim: (nat, nat) -> real, i: nat, picked: seq<Neighbor>, lay: nat,
                      t: nat)
    requires Shape(g) && Linkable(g, i, picked, lay) && t < |picked| && Connected(g, h, sim, i, picked, lay, t)
    requires OnlyRow(h, k, picked[t].id, lay) && TookLink(h, k, sim, i, picked[t].id, lay)
    ensures Connected(g, k, sim, i, picked, lay, t + 1)
  {
    var p := picked[t].id;
    Pending(g, h, sim, i, picked, lay, t);
    assert TookLink(g, k, sim, i, p, lay);
    ElsewhereNext(g, h, k, i, picked, lay, t);
    OwnKept(h, k, i, p, lay);
    forall r | 0 <= r < t + 1 ensures TookLink(g, k, sim, i, picked[r].id, lay) {
      if r < t { TookLinkKept(g, h, k, sim, i, p, picked[r].id, lay); }
    }
  }

  lemma ElsewhereNext(g: Graph, h: Graph, k: Graph, i: nat, picked: seq<Neighbor>, lay: nat, t: nat)
    requires t < |picked| && SameElsewhere(g, h, IdSet(picked[..t]) + {i}, lay) && OnlyRow(h, k, picked[t].id, lay)
    ensures SameElsewhere(g, k, IdSet(picked[..t + 1]) + {i}, lay)
  {
    RowElsewhere(g, h, k, IdSet(picked[..t]) + {i}, picked[t].id, lay);
    assert picked[..t + 1] == picked[..t] + [picked[t]];
    IdSetStep(picked[..t], picked[t]);
    assert IdSet(picked[..t]) + {i} + {picked[t].id} == IdSet(picked[..t + 1]) + {i};
  }

  /** The new node's own list survives the back link of another node. */
  lemma OwnKept(h: Graph, k: Graph, i: nat, p: nat, lay: nat)
    requires OnlyRow(h, k, p, lay) && OnLayer(h, i, lay) && i != p
    ensures OnLayer(k, i, lay) && Links(k, i, lay) == Links(h, i, lay) && DegAt(k, i, lay) == DegAt(h, i, lay)
  {
    OnlyRowLinks(h, k, p, lay);
  }
}
