/** Ranking retrieved candidates with live features. */
module Rankings {
  import opened Neighbors
  import opened FeatureTables

  datatype Weights = Weights(dot: real, userCtr: real, itemCtr: real, recency: real)

  function RankScore(w: Weights, dot: real, userCtr: real, itemCtr: real, recency: real): real {
    w.dot * dot + w.userCtr * userCtr + w.itemCtr * itemCtr + w.recency * recency
  }

  /** The rank score of a candidate. Items without features have a zero click rate. */
  function Blend(w: Weights, u: UserFeatures, items: seq<ItemFeatures>, id: nat, dot: real): real
    requires u.nLast <= |u.lastItems|
  {
    var itemCtr := if id < |items| then items[id].ctr else 0.0;
    RankScore(w, dot, u.ctr, itemCtr, if id in u.lastItems[..u.nLast] then 1.0 else 0.0)
  }

  /** The blended score of every id, given its retrieval score. */
  function Blended(w: Weights, u: UserFeatures, items: seq<ItemFeatures>, f: nat -> real): nat -> real
    requires u.nLast <= |u.lastItems|
  {
    (id: nat) => if u.nLast <= |u.lastItems| then Blend(w, u, items, id, f(id)) else 0.0
  }

  /** The k candidates with the best rank scores, best first. */
  method RankInto(candidates: seq<Neighbor>, k: nat, w: Weights, u: UserFeatures, items: seq<ItemFeatures>,
                  ghost f: nat -> real)
    returns (ranked: seq<Neighbor>)
    requires Distinct(candidates) && Scored(candidates, f) && u.nLast <= |u.lastItems|
    ensures TopList(IdSet(candidates), Blended(w, u, items, f), k, ranked)
    ensures forall t :: 0 <= t < |ranked| ==> RankedFrom(candidates, w, u, items, ranked[t])
  {
    var scored: seq<Neighbor> := [];
    for c := 0 to |candidates|
      invariant |scored| == c
      invariant forall i :: 0 <= i < c ==>
                  scored[i] == Neighbor(candidates[i].id, Blended(w, u, items, f)(candidates[i].id))
    {
      var id := candidates[c].id;
      var itemCtr := if id < |items| then items[id].ctr else 0.0;
      var recency := 0.0;
      for i := 0 to u.nLast
        invariant recency == if id in u.lastItems[..i] then 1.0 else 0.0
      {
        assert u.lastItems[..i + 1] == u.lastItems[..i] + [u.lastItems[i]];
        if u.lastItems[i] == id { recency := 1.0; }
      }
      scored := scored + [Neighbor(id, RankScore(w, candidates[c].score, u.ctr, itemCtr, recency))];
    }
    AllOf(candidates, scored, Blended(w, u, items, f));
    var sorted := SortDescending(scored);
    ReorderedBest(IdSet(candidates), Blended(w, u, items, f), |scored|, scored, sorted);
    ranked := sorted;
    if k < |sorted| {
      TopListPrefix(IdSet(candidates), Blended(w, u, items, f), |scored|, k, sorted);
      ranked := sorted[..k];
    }
    RankedAre(candidates, w, u, items, f, k, ranked);
  }

  /** A ranked entry is a candidate, and each of the four inputs counts with its own weight: the
      retrieval score, the user's click rate, the item's, and whether the user had it among the last. */
  ghost predicate RankedFrom(candidates: seq<Neighbor>, w: Weights, u: UserFeatures, items: seq<ItemFeatures>,
                             e: Neighbor)
    requires u.nLast <= |u.lastItems|
  {
    exists c :: 0 <= c < |candidates| && candidates[c].id == e.id &&
                e.score == candidates[c].score * w.dot + u.ctr * w.userCtr +
                           (if e.id < |items| then items[e.id].ctr * w.itemCtr else 0.0) +
                           (if exists i :: 0 <= i < u.nLast && u.lastItems[i] == e.id then w.recency else 0.0)
  }

  lemma RankedAre(candidates: seq<Neighbor>, w: Weights, u: UserFeatures, items: seq<ItemFeatures>, f: nat -> real,
                  k: nat, ranked: seq<Neighbor>)
    requires Distinct(candidates) && Scored(candidates, f) && u.nLast <= |u.lastItems|
    requires TopList(IdSet(candidates), Blended(w, u, items, f), k, ranked)
    ensures forall t :: 0 <= t < |ranked| ==> RankedFrom(candidates, w, u, items, ranked[t])
  {
    forall t | 0 <= t < |ranked| ensures RankedFrom(candidates, w, u, items, ranked[t]) {
      var c :| 0 <= c < |candidates| && candidates[c].id == ranked[t].id;
      RankedAt(candidates, w, u, items, f, ranked[t], c);
    }
  }

  lemma RankedAt(candidates: seq<Neighbor>, w: Weights, u: UserFeatures, items: seq<ItemFeatures>, f: nat -> real,
                 e: Neighbor, c: nat)
    requires c < |candidates| && candidates[c].id == e.id && candidates[c].score == f(e.id)
    requires u.nLast <= |u.lastItems| && e.score == Blended(w, u, items, f)(e.id)
    ensures RankedFrom(candidates, w, u, items, e)
  {
    BlendIs(w, u, items, e.id, f(e.id));
  }

  lemma BlendIs(w: Weights, u: UserFeatures, items: seq<ItemFeatures>, id: nat, dot: real)
    requires u.nLast <= |u.lastItems|
    ensures Blend(w, u, items, id, dot) ==
            dot * w.dot + u.ctr * w.userCtr + (if id < |items| then items[id].ctr * w.itemCtr else 0.0) +
            (if exists i :: 0 <= i < u.nLast && u.lastItems[i] == id then w.recency else 0.0)
  {
    if i :| 0 <= i < u.nLast && u.lastItems[i] == id { assert u.lastItems[..u.nLast][i] == id; }
  }

  /** What one more unit of each input does to an item's score, all else equal: it moves it by that
      input's own weight. */
  lemma OneInputAlone(w: Weights, u: UserFeatures, v: UserFeatures, items: seq<ItemFeatures>,
                      more: seq<ItemFeatures>, id: nat, f: nat -> real, g: nat -> real)
    requires u.nLast <= |u.lastItems| && v.nLast <= |v.lastItems| && id < |items| == |more|
    ensures g(id) == f(id) + 1.0 ==> Blended(w, u, items, g)(id) == Blended(w, u, items, f)(id) + w.dot
    ensures v == u.(ctr := u.ctr + 1.0) ==> Blended(w, v, items, f)(id) == Blended(w, u, items, f)(id) + w.userCtr
    ensures more[id].ctr == items[id].ctr + 1.0 ==>
              Blended(w, u, more, f)(id) == Blended(w, u, items, f)(id) + w.itemCtr
    ensures v.ctr == u.ctr && id !in u.lastItems[..u.nLast] && id in v.lastItems[..v.nLast] ==>
              Blended(w, v, items, f)(id) == Blended(w, u, items, f)(id) + w.recency
  {
  }

  /** All candidates together are the best of themselves. */
  lemma AllOf(candidates: seq<Neighbor>, scored: seq<Neighbor>, g: nat -> real)
    requires Distinct(candidates) && |scored| == |candidates|
    requires forall i :: 0 <= i < |scored| ==> scored[i] == Neighbor(candidates[i].id, g(candidates[i].id))
    ensures BestOf(IdSet(candidates), g, |scored|, scored) && |IdSet(candidates)| == |scored|
  {
    IdSetSize(candidates);
    forall x | x in IdSet(candidates) ensures Has(scored, x) {
      var i :| 0 <= i < |candidates| && candidates[i].id == x;
      assert scored[i].id == x;
    }
  }
}
