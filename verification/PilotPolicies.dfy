/** The pilot's candidate replenishment and popularity fill. */
module PilotPolicies {
  import opened Basics
  import opened PilotModels

  /** One retrieval call: the scored items it returned, or a failure. */
  datatype Reply = Got(found: map<Id, real>) | Failed

  datatype Source = ColdStart | Retrieval | RetrievalWithFill | UpstreamUnavailable

  datatype Response = Response(requestId: Id, userId: Id, generation: nat, source: Source, degraded: bool,
                               lastCommittedMs: Option<int>, items: seq<Scored>, exhausted: bool)

  datatype Gathered = Gathered(candidates: map<Id, real>, failed: bool)

  /** The largest number of candidates asked for. */
  function Limit(m: Model): nat { Min(512, |m.items|) }

  /** The upstream client refuses replies that name unknown items. */
  ghost predicate UpstreamOk(m: Model, upstream: nat -> Reply) {
    forall count :: upstream(count).Got? ==> upstream(count).found.Keys <= IdsTo(m.items, |m.items|)
  }

  /** The replenishment loop from one request size on. */
  function Gather(m: Model, user: Id, snap: Snapshot, upstream: nat -> Reply, k: nat, count: nat,
                  sofar: map<Id, real>): Gathered
    requires count >= Min(1, Limit(m))
    decreases Limit(m) - count
  {
    match upstream(count)
    case Failed => Gathered(map[], true)
    case Got(found) =>
      var now := sofar + found;
      if |Rank(m, now, SeenBy(m, user), snap)| >= k || count >= Limit(m) then Gathered(now, false)
      else Gather(m, user, snap, upstream, k, Min(Min(count * 2, 512), |m.items|), now)
  }

  /** The lowest score among the first `n` items that have one. */
  function LeastTo(items: seq<Id>, scores: map<Id, real>, n: nat): Option<real>
    requires n <= |items|
  {
    if n == 0 then None
    else
      var rest := LeastTo(items, scores, n - 1);
      if items[n - 1] !in scores then rest
      else if rest.Some? && rest.value <= scores[items[n - 1]] then rest
      else Some(scores[items[n - 1]])
  }

  /** One below every retrieved score. */
  function Floor(m: Model, candidates: map<Id, real>): real {
    (match LeastTo(m.items, candidates, |m.items|) case None => 0.0 case Some(s) => s) - 1.0
  }

  function Share(position: nat, n: nat): real {
    (position as real) / ((if n == 0 then 1 else n) as real)
  }

  /** Give the first `p` popular items that have no score one below the floor, in popularity order. */
  function FillTo(popular: seq<Id>, candidates: map<Id, real>, floor: real, n: nat, p: nat): map<Id, real>
    requires p <= |popular|
  {
    if p == 0 then candidates
    else
      var rest := FillTo(popular, candidates, floor, n, p - 1);
      if popular[p - 1] in rest then rest else rest[popular[p - 1] := floor - Share(p - 1, n)]
  }

  function Filled(m: Model, candidates: map<Id, real>): map<Id, real> {
    FillTo(m.popular, candidates, Floor(m, candidates), |m.items|, |m.popular|)
  }

  /** What is gathered before any fill. */
  function Retrieved(m: Model, user: Id, snap: Snapshot, upstream: nat -> Reply, k: nat): Gathered {
    if user in m.users then Gather(m, user, snap, upstream, k, Min(64, |m.items|), map[]) else Gathered(map[], false)
  }

  function Final(m: Model, user: Id, snap: Snapshot, candidates: map<Id, real>, k: nat): seq<Scored> {
    var first := Rank(m, candidates, SeenBy(m, user), snap);
    if |first| >= k then first else Rank(m, Filled(m, candidates), SeenBy(m, user), snap)
  }

  function Cut(w: seq<Scored>, k: nat): seq<Scored> { if |w| <= k then w else w[..k] }

  function SourceOf(m: Model, user: Id, g: Gathered, filled: bool): Source {
    if user !in m.users then ColdStart
    else if g.failed then UpstreamUnavailable
    else if filled then RetrievalWithFill else Retrieval
  }

  /** The response of one attempt, as a function of the snapshot and the upstream replies. */
  function Answer(m: Model, snap: Snapshot, requestId: Id, user: Id, k: nat, upstream: nat -> Reply): Response {
    var g := Retrieved(m, user, snap, upstream, k);
    var source := SourceOf(m, user, g, |Rank(m, g.candidates, SeenBy(m, user), snap)| < k);
    var ranked := Final(m, user, snap, g.candidates, k);
    Response(requestId, user, snap.generation, source, source == UpstreamUnavailable, snap.lastCommittedMs,
             Cut(ranked, k), |ranked| < k)
  }

  // -------------------------------------------------------------- one attempt --

  /** Retrieve in growing batches until enough candidates survive or the limit is reached. */
  method Replenish(m: Model, user: Id, snap: Snapshot, upstream: nat -> Reply, k: nat)
    returns (candidates: map<Id, real>, failed: bool, ranked: seq<Scored>)
    requires k >= 1
    ensures Gathered(candidates, failed) == Gather(m, user, snap, upstream, k, Min(64, |m.items|), map[])
    ensures if failed then candidates == map[] && |ranked| < k else ranked == Rank(m, candidates, SeenBy(m, user), snap)
  {
    candidates, failed, ranked := map[], false, [];
    var count := Min(64, |m.items|);
    while true
      invariant count >= Min(1, Limit(m)) && |ranked| < k && !failed
      invariant Gather(m, user, snap, upstream, k, count, candidates) ==
                Gather(m, user, snap, upstream, k, Min(64, |m.items|), map[])
      decreases Limit(m) - count
    {
      match upstream(count)
      case Failed =>
        candidates, failed := map[], true;
        return;
      case Got(found) =>
        candidates := candidates + found;
        ranked := Rank(m, candidates, SeenBy(m, user), snap);
        if |ranked| >= k || count >= Limit(m) { return; }
        count := Min(Min(count * 2, 512), |m.items|);
    }
  }

  /** One attempt of `recommend`, between its snapshot and its publication. */
  method Respond(m: Model, snap: Snapshot, requestId: Id, user: Id, k: nat, upstream: nat -> Reply)
    returns (r: Response)
    requires k >= 1
    ensures r == Answer(m, snap, requestId, user, k, upstream)
  {
    var candidates: map<Id, real> := map[];
    var ranked: seq<Scored> := [];
    var source := ColdStart;
    ghost var g := Retrieved(m, user, snap, upstream, k);
    if user in m.users {
      var failed;
      candidates, failed, ranked := Replenish(m, user, snap, upstream, k);
      source := if failed then UpstreamUnavailable else Retrieval;
    }
    RankNothing(m, user, snap);
    if |ranked| < k {
      var floor := Floor(m, candidates);
      var all := candidates;
      for position := 0 to |m.popular|
        invariant all == FillTo(m.popular, candidates, floor, |m.items|, position)
      {
        if m.popular[position] !in all { all := all[m.popular[position] := floor - Share(position, |m.items|)]; }
      }
      ranked := Rank(m, all, SeenBy(m, user), snap);
      if source == Retrieval { source := RetrievalWithFill; }
    }
    r := Response(requestId, user, snap.generation, source, source == UpstreamUnavailable, snap.lastCommittedMs,
                  Cut(ranked, k), |ranked| < k);
  }

  lemma RankNothing(m: Model, user: Id, snap: Snapshot)
    ensures Rank(m, map[], SeenBy(m, user), snap) == []
  {
    RankNothingTo(m.items, Adjusted(map[], snap.features), SeenBy(m, user), snap, |m.items|);
  }

  lemma {:induction false} RankNothingTo(items: seq<Id>, scores: map<Id, real>, seen: set<Id>, snap: Snapshot, n: nat)
    requires n <= |items| && scores == map[]
    ensures RankTo(items, scores, seen, snap, n) == []
  {
    if n > 0 { RankNothingTo(items, scores, seen, snap, n - 1); }
  }

  // ------------------------------------------------------------ what it promises --

  lemma {:induction false} GatherWithin(m: Model, user: Id, snap: Snapshot, upstream: nat -> Reply, k: nat,
                                        count: nat, sofar: map<Id, real>)
    requires UpstreamOk(m, upstream) && sofar.Keys <= IdsTo(m.items, |m.items|) && count >= Min(1, Limit(m))
    ensures Gather(m, user, snap, upstream, k, count, sofar).candidates.Keys <= IdsTo(m.items, |m.items|)
    decreases Limit(m) - count
  {
    match upstream(count)
    case Failed =>
    case Got(found) =>
      assert upstream(count).found == found;
      var now := sofar + found;
      if !(|Rank(m, now, SeenBy(m, user), snap)| >= k || count >= Limit(m)) {
        GatherWithin(m, user, snap, upstream, k, Min(Min(count * 2, 512), |m.items|), now);
      }
  }

  lemma RetrievedWithin(m: Model, user: Id, snap: Snapshot, upstream: nat -> Reply, k: nat)
    requires UpstreamOk(m, upstream)
    ensures Retrieved(m, user, snap, upstream, k).candidates.Keys <= IdsTo(m.items, |m.items|)
  {
    if user in m.users { GatherWithin(m, user, snap, upstream, k, Min(64, |m.items|), map[]); }
  }

  /** Filling adds every item, keeps every retrieved score, and stays at or below the floor. */
  lemma {:induction false} FillFacts(popular: seq<Id>, candidates: map<Id, real>, floor: real, n: nat, p: nat)
    requires p <= |popular|
    ensures FillTo(popular, candidates, floor, n, p).Keys == candidates.Keys + IdsTo(popular, p)
    ensures forall x :: x in candidates ==> FillTo(popular, candidates, floor, n, p)[x] == candidates[x]
    ensures forall x :: x in FillTo(popular, candidates, floor, n, p) && x !in candidates ==>
              FillTo(popular, candidates, floor, n, p)[x] <= floor
  {
    if p > 0 {
      FillFacts(popular, candidates, floor, n, p - 1);
      assert popular[..p] == popular[..p - 1] + [popular[p - 1]];
      assert Share(p - 1, n) >= 0.0;
    }
  }

  lemma FilledAll(m: Model, candidates: map<Id, real>)
    requires ModelOk(m) && candidates.Keys <= IdsTo(m.items, |m.items|)
    ensures Filled(m, candidates).Keys == IdsTo(m.items, |m.items|)
  {
    FillFacts(m.popular, candidates, Floor(m, candidates), |m.items|, |m.popular|);
    assert m.popular[..|m.popular|] == m.popular && m.items[..|m.items|] == m.items;
  }

  /** Every response lists distinct eligible items, best first, as many as exist up to k, and says
      `exhausted` exactly when fewer than k items of the whole catalogue are eligible. */
  lemma AnswerItems(m: Model, snap: Snapshot, requestId: Id, user: Id, k: nat, upstream: nat -> Reply)
    requires ModelOk(m) && UpstreamOk(m, upstream)
    ensures var r := Answer(m, snap, requestId, user, k, upstream);
            && Once(r.items) && BestFirst(r.items)
            && (forall i :: 0 <= i < |r.items| ==> r.items[i].item in Catalogue(m, user, snap))
            && |r.items| == Min(k, |Catalogue(m, user, snap)|)
            && (r.exhausted <==> |Catalogue(m, user, snap)| < k)
  {
    var g := Retrieved(m, user, snap, upstream, k).candidates;
    RetrievedWithin(m, user, snap, upstream, k);
    RankIsRanking(m, g, user, snap);
    FinalIsRanking(m, user, snap, g, k);
    var all, w := Catalogue(m, user, snap), Final(m, user, snap, g, k);
    if |Rank(m, g, SeenBy(m, user), snap)| >= k {
      CutFacts(all * g.Keys, all, w, k);
    } else {
      CutFacts(all, all, w, k);
    }
  }

  /** The first k of a ranking that is complete or long enough. */
  lemma CutFacts(ids: set<Id>, all: set<Id>, w: seq<Scored>, k: nat)
    requires Once(w) && BestFirst(w) && |w| == |ids| && ids <= all && (ids == all || |w| >= k)
    requires forall i :: 0 <= i < |w| ==> w[i].item in ids
    ensures Once(Cut(w, k)) && BestFirst(Cut(w, k)) && |Cut(w, k)| == Min(k, |all|) && (|w| < k <==> |all| < k)
    ensures forall i :: 0 <= i < |Cut(w, k)| ==> Cut(w, k)[i].item in all
  {
    assert all == ids + (all - ids);
  }

  /** The final list ranks the retrieved items, or all of them. */
  lemma FinalIsRanking(m: Model, user: Id, snap: Snapshot, candidates: map<Id, real>, k: nat)
    requires ModelOk(m) && candidates.Keys <= IdsTo(m.items, |m.items|)
    ensures var first := Rank(m, candidates, SeenBy(m, user), snap);
            if |first| >= k then Final(m, user, snap, candidates, k) == first
            else IsRanking(Adjusted(Filled(m, candidates), snap.features), Catalogue(m, user, snap),
                           Final(m, user, snap, candidates, k))
  {
    RankIsRanking(m, Filled(m, candidates), user, snap);
    FilledAll(m, candidates);
    assert Catalogue(m, user, snap) * IdsTo(m.items, |m.items|) == Catalogue(m, user, snap);
  }

  lemma {:induction false} LeastBelow(items: seq<Id>, scores: map<Id, real>, n: nat, x: Id)
    requires n <= |items| && x in IdsTo(items, n) && x in scores
    ensures LeastTo(items, scores, n).Some? && LeastTo(items, scores, n).value <= scores[x]
  {
    assert items[..n] == items[..n - 1] + [items[n - 1]];
    if x in items[..n - 1] { LeastBelow(items, scores, n - 1, x); }
  }

  /** After the bonus, every retrieved item still outscores every fill item. */
  lemma FillScoresLower(m: Model, features: map<Id, Counts>, candidates: map<Id, real>, a: Id, b: Id)
    requires candidates.Keys <= IdsTo(m.items, |m.items|) && Plausible(features)
    requires a in candidates && b !in candidates && b in Filled(m, candidates) && a in Filled(m, candidates)
    ensures Adjusted(Filled(m, candidates), features)[a] > Adjusted(Filled(m, candidates), features)[b]
  {
    FillFacts(m.popular, candidates, Floor(m, candidates), |m.items|, |m.popular|);
    LeastBelow(m.items, candidates, |m.items|, a);
    BonusRange(features, a);
    BonusRange(features, b);
  }

  /** No fill item stands before an eligible retrieved one: when a response shows a fill item,
      every eligible retrieved item stands before it. */
  lemma FillBelowRetrieved(m: Model, snap: Snapshot, requestId: Id, user: Id, k: nat, upstream: nat -> Reply, a: Id,
                           j: nat)
    requires ModelOk(m) && UpstreamOk(m, upstream) && Plausible(snap.features)
    requires var g := Retrieved(m, user, snap, upstream, k).candidates;
             var r := Answer(m, snap, requestId, user, k, upstream);
             j < |r.items| && r.items[j].item !in g && a in g && a in Catalogue(m, user, snap)
    ensures exists i :: 0 <= i < j && Answer(m, snap, requestId, user, k, upstream).items[i].item == a
  {
    var g := Retrieved(m, user, snap, upstream, k).candidates;
    RetrievedWithin(m, user, snap, upstream, k);
    var i := FillBelowFinal(m, user, snap, g, k, Final(m, user, snap, g, k), a, j);
  }

  lemma FillBelowFinal(m: Model, user: Id, snap: Snapshot, g: map<Id, real>, k: nat, w: seq<Scored>, a: Id, j: nat)
    returns (i: nat)
    requires ModelOk(m) && Plausible(snap.features) && g.Keys <= IdsTo(m.items, |m.items|)
    requires w == Final(m, user, snap, g, k) && j < |Cut(w, k)| && Cut(w, k)[j].item !in g
    requires a in g && a in Catalogue(m, user, snap)
    ensures i < j && Cut(w, k)[i].item == a
  {
    RankIsRanking(m, g, user, snap);
    FinalIsRanking(m, user, snap, g, k);
    i := RetrievedAhead(m, snap.features, g, Catalogue(m, user, snap), w, a, j);
  }

  /** In a ranking of the filled scores. */
  lemma RetrievedAhead(m: Model, features: map<Id, Counts>, g: map<Id, real>, all: set<Id>, w: seq<Scored>, a: Id,
                       j: nat)
    returns (i: nat)
    requires ModelOk(m) && g.Keys <= IdsTo(m.items, |m.items|) && Plausible(features)
    requires all <= IdsTo(m.items, |m.items|) && IsRanking(Adjusted(Filled(m, g), features), all, w)
    requires j < |w| && w[j].item !in g && a in g && a in all
    ensures i < j && w[i].item == a
  {
    FilledAll(m, g);
    FillScoresLower(m, features, g, a, w[j].item);
    i := Ahead(Adjusted(Filled(m, g), features), all, w, a, j);
  }

  /** An id that outscores entry `j` of a ranking stands before it. */
  lemma Ahead(scores: map<Id, real>, ids: set<Id>, w: seq<Scored>, a: Id, j: nat) returns (i: nat)
    requires IsRanking(scores, ids, w) && j < |w| && a in ids && a in scores && scores[a] > scores[w[j].item]
    ensures i < j && w[i].item == a
  {
    assert Listed(w, a);
    i :| 0 <= i < |w| && w[i].item == a;
  }
}
