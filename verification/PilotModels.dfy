/** Eligibility and ranking of the single-host pilot. */
module PilotModels {
  import opened Basics

  /** User, item, request and event identifiers. Zero stands for every value that is refused
      as an identifier: not a string, empty, too long, or with a blank or control character. */
  type Id = nat

  predicate Identifier(x: Id) { x != 0 }

  /** Feature counters of an item. */
  datatype Counts = Counts(shown: nat, saved: nat)

  /** What a recommendation reads from the store in one transaction. */
  datatype Snapshot = Snapshot(generation: nat, blocked: set<Id>, unavailable: set<Id>, features: map<Id, Counts>,
                               lastCommittedMs: Option<int>)

  /** The immutable inputs of a verified bundle. `popular` orders all items by popularity;
      `guests` are the ids with the prefix that marks a cold start. */
  datatype Model = Model(users: set<Id>, guests: set<Id>, items: seq<Id>, popular: seq<Id>, seen: map<Id, set<Id>>)

  datatype Scored = Scored(item: Id, score: real)

  ghost predicate NoDuplicates(s: seq<Id>) {
    forall i, j :: 0 <= i < j < |s| ==> s[i] != s[j]
  }

  /** Bundle verification rejects repeated item ids; popularity only reorders them. */
  ghost predicate ModelOk(m: Model) {
    NoDuplicates(m.items) && NoDuplicates(m.popular) && forall x :: x in m.items <==> x in m.popular
  }

  function SeenBy(m: Model, user: Id): set<Id> {
    if user in m.seen then m.seen[user] else {}
  }

  predicate Eligible(item: Id, seen: set<Id>, snap: Snapshot) {
    item !in seen && item !in snap.blocked && item !in snap.unavailable
  }

  /** The share of saves, damped by two impressions and weighted by a twentieth. */
  function Bonus(features: map<Id, Counts>, item: Id): real {
    var c := if item in features then features[item] else Counts(0, 0);
    0.05 * (c.saved as real) / ((c.shown + 2) as real)
  }

  /** No item was saved more often than it was shown. */
  ghost predicate Plausible(features: map<Id, Counts>) {
    forall x :: x in features ==> features[x].saved <= features[x].shown
  }

  lemma BonusRange(features: map<Id, Counts>, item: Id)
    requires Plausible(features)
    ensures 0.0 <= Bonus(features, item) < 0.05
  {
    var c := if item in features then features[item] else Counts(0, 0);
    var a, b := c.saved as real, (c.shown + 2) as real;
    assert a < b;
    SmallShare(a, b);
  }

  lemma SmallShare(a: real, b: real)
    requires 0.0 <= a < b
    ensures 0.0 <= 0.05 * a / b < 0.05
  {
    assert 0.05 * a < 0.05 * b;
  }

  // ----------------------------------------------------------------------- rank --

  /** Insert behind every entry that scores at least as well. */
  function Insert(w: seq<Scored>, e: Scored): (r: seq<Scored>)
    ensures |r| == |w| + 1
  {
    if w == [] || w[|w| - 1].score >= e.score then w + [e]
    else Insert(w[..|w| - 1], e) + [w[|w| - 1]]
  }

  /** The scores candidates are ranked by. */
  function Adjusted(candidates: map<Id, real>, features: map<Id, Counts>): map<Id, real> {
    map x | x in candidates :: candidates[x] + Bonus(features, x)
  }

  /** Rank one more item, if it is eligible and has a score. */
  function RankOne(x: Id, scores: map<Id, real>, seen: set<Id>, snap: Snapshot, w: seq<Scored>): seq<Scored> {
    if x in scores && Eligible(x, seen, snap) then Insert(w, Scored(x, scores[x])) else w
  }

  /** The eligible ones among the first `n` items that have a score, best first, ties in item order. */
  function RankTo(items: seq<Id>, scores: map<Id, real>, seen: set<Id>, snap: Snapshot, n: nat): seq<Scored>
    requires n <= |items|
  {
    if n == 0 then [] else RankOne(items[n - 1], scores, seen, snap, RankTo(items, scores, seen, snap, n - 1))
  }

  function Rank(m: Model, candidates: map<Id, real>, seen: set<Id>, snap: Snapshot): seq<Scored> {
    RankTo(m.items, Adjusted(candidates, snap.features), seen, snap, |m.items|)
  }

  ghost predicate BestFirst(w: seq<Scored>) {
    forall i, j :: 0 <= i < j < |w| ==> w[i].score >= w[j].score
  }

  /** The row of an item. */
  function RowOf(items: seq<Id>, x: Id): (r: nat)
    requires x in items
    ensures r < |items| && items[r] == x
  {
    if items[|items| - 1] == x then |items| - 1 else RowOf(items[..|items| - 1], x)
  }

  /** Where scores tie, entries stand in item order. */
  ghost predicate TiesInOrder(items: seq<Id>, w: seq<Scored>) {
    forall i, j :: 0 <= i < j < |w| && w[i].score == w[j].score && w[i].item in items && w[j].item in items
      ==> RowOf(items, w[i].item) < RowOf(items, w[j].item)
  }

  /** Where entry `i` came from when position `at` was filled. */
  function Origin(at: nat, i: nat): nat { if i <= at then i else i - 1 }

  /** `r` is `w` with `e` put behind the entries that score at least as well. */
  ghost predicate PutAt(w: seq<Scored>, e: Scored, at: nat, r: seq<Scored>) {
    && at <= |w| && |r| == |w| + 1
    && (forall i :: 0 <= i < |r| && i != at ==> r[i] == w[Origin(at, i)])
    && r[at] == e
    && forall i :: 0 <= i < |w| ==> if i < at then w[i].score >= e.score else w[i].score < e.score
  }

  lemma {:induction false} InsertAt(w: seq<Scored>, e: Scored) returns (at: nat)
    requires BestFirst(w)
    ensures PutAt(w, e, at, Insert(w, e))
  {
    if w == [] || w[|w| - 1].score >= e.score {
      at := |w|;
    } else {
      var n := |w| - 1;
      at := InsertAt(w[..n], e);
      var r := Insert(w[..n], e);
      assert Insert(w, e) == r + [w[n]];
      forall i | 0 <= i <= |w| && i != at ensures (r + [w[n]])[i] == w[Origin(at, i)] {
        if i < |r| { assert (r + [w[n]])[i] == r[i]; }
      }
    }
  }

  /** The ids a ranking of the first `n` items contains. */
  ghost function EligibleTo(items: seq<Id>, scores: map<Id, real>, seen: set<Id>, snap: Snapshot, n: nat): set<Id>
    requires n <= |items|
  {
    set x | x in IdsTo(items, n) && x in scores && Eligible(x, seen, snap)
  }

  ghost predicate Once(w: seq<Scored>) {
    forall i, j :: 0 <= i < j < |w| ==> w[i].item != w[j].item
  }

  ghost predicate Listed(w: seq<Scored>, x: Id) {
    exists i :: 0 <= i < |w| && w[i].item == x
  }

  /** A ranking lists exactly the eligible scores, each once with its adjusted score, best first. */
  ghost predicate IsRanking(scores: map<Id, real>, ids: set<Id>, w: seq<Scored>) {
    && BestFirst(w) && Once(w) && |w| == |ids|
    && (forall i :: 0 <= i < |w| ==> w[i].item in ids && w[i].item in scores)
    && (forall i :: 0 <= i < |w| && w[i].item in scores ==> w[i].score == scores[w[i].item])
    && (forall x :: x in ids ==> Listed(w, x))
  }

  lemma {:induction false} RankToIsRanking(items: seq<Id>, scores: map<Id, real>, seen: set<Id>, snap: Snapshot, n: nat)
    requires n <= |items| && NoDuplicates(items)
    ensures IsRanking(scores, EligibleTo(items, scores, seen, snap, n), RankTo(items, scores, seen, snap, n))
    ensures TiesInOrder(items, RankTo(items, scores, seen, snap, n))
  {
    if n == 0 {
      assert EligibleTo(items, scores, seen, snap, 0) == {};
    } else {
      RankToIsRanking(items, scores, seen, snap, n - 1);
      RankOneKeeps(items, scores, seen, snap, n, RankTo(items, scores, seen, snap, n - 1));
    }
  }

  lemma RankOneKeeps(items: seq<Id>, scores: map<Id, real>, seen: set<Id>, snap: Snapshot, n: nat, w: seq<Scored>)
    requires 0 < n <= |items| && NoDuplicates(items)
    requires IsRanking(scores, EligibleTo(items, scores, seen, snap, n - 1), w) && TiesInOrder(items, w)
    ensures IsRanking(scores, EligibleTo(items, scores, seen, snap, n), RankOne(items[n - 1], scores, seen, snap, w))
    ensures TiesInOrder(items, RankOne(items[n - 1], scores, seen, snap, w))
  {
    EligibleStep(items, scores, seen, snap, n);
    if items[n - 1] in scores && Eligible(items[n - 1], seen, snap) {
      RankStep(items, scores, EligibleTo(items, scores, seen, snap, n - 1), w, n - 1,
               RankOne(items[n - 1], scores, seen, snap, w));
    }
  }

  lemma RankStep(items: seq<Id>, scores: map<Id, real>, ids: set<Id>, w: seq<Scored>, n: nat, r: seq<Scored>)
    requires n < |items| && NoDuplicates(items) && items[n] in scores && items[n] !in ids
    requires IsRanking(scores, ids, w) && TiesInOrder(items, w)
    requires ids <= IdsTo(items, n) && r == Insert(w, Scored(items[n], scores[items[n]]))
    ensures IsRanking(scores, ids + {items[n]}, r) && TiesInOrder(items, r)
  {
    var at := InsertAt(w, Scored(items[n], scores[items[n]]));
    RankPut(scores, ids, w, items[n], at, r);
    TiesPut(items, scores, ids, w, n, at, r);
  }

  ghost function IdsTo(items: seq<Id>, n: nat): set<Id>
    requires n <= |items|
  {
    set x | x in items[..n]
  }

  lemma EligibleStep(items: seq<Id>, scores: map<Id, real>, seen: set<Id>, snap: Snapshot, n: nat)
    requires 0 < n <= |items| && NoDuplicates(items)
    ensures items[n - 1] !in EligibleTo(items, scores, seen, snap, n - 1)
    ensures EligibleTo(items, scores, seen, snap, n) == EligibleTo(items, scores, seen, snap, n - 1) +
              if items[n - 1] in scores && Eligible(items[n - 1], seen, snap) then {items[n - 1]} else {}
  {
    assert items[..n] == items[..n - 1] + [items[n - 1]];
  }

  lemma BestPut(w: seq<Scored>, e: Scored, at: nat, r: seq<Scored>)
    requires BestFirst(w) && PutAt(w, e, at, r)
    ensures BestFirst(r)
  {
  }

  lemma OncePut(w: seq<Scored>, e: Scored, at: nat, r: seq<Scored>)
    requires Once(w) && PutAt(w, e, at, r) && !Listed(w, e.item)
    ensures Once(r)
    ensures forall y :: Listed(r, y) <==> Listed(w, y) || y == e.item
  {
    forall y ensures Listed(r, y) <==> Listed(w, y) || y == e.item {
      if y == e.item { assert r[at].item == y; }
      if Listed(w, y) { var i :| 0 <= i < |w| && w[i].item == y; assert r[if i < at then i else i + 1].item == y; }
      if Listed(r, y) && y != e.item {
        var i :| 0 <= i < |r| && r[i].item == y;
        assert w[Origin(at, i)].item == y;
      }
    }
  }

  lemma RankPut(scores: map<Id, real>, ids: set<Id>, w: seq<Scored>, x: Id, at: nat, r: seq<Scored>)
    requires x in scores && x !in ids && IsRanking(scores, ids, w) && PutAt(w, Scored(x, scores[x]), at, r)
    ensures IsRanking(scores, ids + {x}, r)
  {
    BestPut(w, Scored(x, scores[x]), at, r);
    OncePut(w, Scored(x, scores[x]), at, r);
    forall i | 0 <= i < |r| ensures r[i].item in ids + {x} && r[i].item in scores && r[i].score == scores[r[i].item] {
    }
  }

  lemma TiesPut(items: seq<Id>, scores: map<Id, real>, ids: set<Id>, w: seq<Scored>, n: nat, at: nat, r: seq<Scored>)
    requires n < |items| && NoDuplicates(items) && items[n] in scores
    requires IsRanking(scores, ids, w) && TiesInOrder(items, w) && PutAt(w, Scored(items[n], scores[items[n]]), at, r)
    requires ids <= IdsTo(items, n)
    ensures TiesInOrder(items, r)
  {
    forall i, j | 0 <= i < j < |r| && r[i].score == r[j].score && r[i].item in items && r[j].item in items
      ensures RowOf(items, r[i].item) < RowOf(items, r[j].item)
    {
      if j == at {
        assert r[i] == w[i] && w[i].item in items[..n];
        Before(items, n, RowOf(items, w[i].item));
      }
    }
  }

  lemma Before(items: seq<Id>, n: nat, a: nat)
    requires n < |items| && a < |items| && NoDuplicates(items) && items[a] in items[..n]
    ensures a < n && RowOf(items, items[n]) == n
  {
    var t :| 0 <= t < n && items[..n][t] == items[a];
  }

  /** The items of the catalogue a user may be shown. */
  ghost function Catalogue(m: Model, user: Id, snap: Snapshot): set<Id> {
    set x | x in IdsTo(m.items, |m.items|) && Eligible(x, SeenBy(m, user), snap)
  }

  lemma RankIsRanking(m: Model, candidates: map<Id, real>, user: Id, snap: Snapshot)
    requires ModelOk(m)
    ensures var scores := Adjusted(candidates, snap.features);
            IsRanking(scores, Catalogue(m, user, snap) * candidates.Keys, Rank(m, candidates, SeenBy(m, user), snap))
    ensures TiesInOrder(m.items, Rank(m, candidates, SeenBy(m, user), snap))
  {
    var scores := Adjusted(candidates, snap.features);
    RankToIsRanking(m.items, scores, SeenBy(m, user), snap, |m.items|);
    assert EligibleTo(m.items, scores, SeenBy(m, user), snap, |m.items|) == Catalogue(m, user, snap) * candidates.Keys;
  }
}
