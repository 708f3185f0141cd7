/** Scored ids, the orderings the retrieval code relies on, and the theory of "the k best".

    The library heaps and sorts used by the original promise an order but not how ties
    are broken, so every result here is stated up to ties. */
module Neighbors {
  import opened Basics

  datatype Neighbor = Neighbor(id: nat, score: real)

  // ------------------------------------------------------------ vocabulary --

  ghost predicate Has(w: seq<Neighbor>, x: nat) {
    exists i :: 0 <= i < |w| && w[i].id == x
  }

  ghost predicate Distinct(w: seq<Neighbor>) {
    forall i, j :: 0 <= i < j < |w| ==> w[i].id != w[j].id
  }

  ghost predicate Scored(w: seq<Neighbor>, f: nat -> real) {
    forall i :: 0 <= i < |w| ==> w[i].score == f(w[i].id)
  }

  ghost predicate Within(w: seq<Neighbor>, ids: set<nat>) {
    forall i :: 0 <= i < |w| ==> w[i].id in ids
  }

  ghost predicate Descending(w: seq<Neighbor>) {
    forall i, j :: 0 <= i < j < |w| ==> w[i].score >= w[j].score
  }

  ghost predicate Ascending(w: seq<Neighbor>) {
    forall i, j :: 0 <= i < j < |w| ==> w[i].score <= w[j].score
  }

  /** `w` holds the best min(k, |ids|) members of `ids`, in some order. */
  ghost predicate BestOf(ids: set<nat>, f: nat -> real, k: nat, w: seq<Neighbor>) {
    && Distinct(w) && Scored(w, f) && Within(w, ids)
    && |w| == Min(k, |ids|)
    && forall x, i :: x in ids && !Has(w, x) && 0 <= i < |w| ==> f(x) <= w[i].score
  }

  /** `BestOf`, best first. */
  ghost predicate TopList(ids: set<nat>, f: nat -> real, k: nat, w: seq<Neighbor>) {
    BestOf(ids, f, k, w) && Descending(w)
  }

  ghost predicate SameScores(a: seq<Neighbor>, b: seq<Neighbor>) {
    |a| == |b| && forall i :: 0 <= i < |a| ==> a[i].score == b[i].score
  }

  ghost predicate NoTies(ids: set<nat>, f: nat -> real) {
    forall x, y :: x in ids && y in ids && x != y ==> f(x) != f(y)
  }

  ghost function IdSet(w: seq<Neighbor>): set<nat> {
    set i | 0 <= i < |w| :: w[i].id
  }

  /** The ids 0 .. n - 1. */
  ghost function Range(n: nat): (r: set<nat>)
    ensures forall x: nat :: x in r <==> x < n
    ensures |r| == n
  {
    if n == 0 then {} else Range(n - 1) + {n - 1}
  }

  // ---------------------------------------------------------- cardinalities --

  lemma IdSetStep(front: seq<Neighbor>, e: Neighbor)
    ensures IdSet(front + [e]) == IdSet(front) + {e.id}
  {
    var w := front + [e];
    assert forall i :: 0 <= i < |front| ==> w[i] == front[i];
    assert w[|front|] == e;
    forall x | x in IdSet(front) ensures x in IdSet(w) {
      var i :| 0 <= i < |front| && front[i].id == x;
      assert w[i].id == x;
    }
  }

  lemma {:induction false} IdSetSize(w: seq<Neighbor>)
    ensures |IdSet(w)| <= |w|
    ensures |IdSet(w)| == |w| <==> Distinct(w)
  {
    if w == [] {
      assert IdSet(w) == {};
    } else {
      var n := |w| - 1;
      var front := w[..n];
      assert w == front + [w[n]];
      IdSetStep(front, w[n]);
      IdSetSize(front);
      DistinctStep(front, w[n]);
      if w[n].id in IdSet(front) { assert IdSet(w) == IdSet(front); }
    }
  }

  lemma DistinctStep(front: seq<Neighbor>, e: Neighbor)
    ensures Distinct(front + [e]) <==> Distinct(front) && e.id !in IdSet(front)
  {
    var w := front + [e];
    assert forall i :: 0 <= i < |front| ==> w[i] == front[i];
    assert w[|front|] == e;
    if e.id in IdSet(front) {
      var i :| 0 <= i < |front| && front[i].id == e.id;
      assert w[i].id == w[|front|].id;
    } else {
      assert forall i :: 0 <= i < |front| ==> front[i].id in IdSet(front);
    }
  }

  /** Reordering keeps the ids, their distinctness and their scores. */
  lemma Reordered(w: seq<Neighbor>, s: seq<Neighbor>, f: nat -> real)
    requires multiset(w) == multiset(s)
    ensures |w| == |s| && IdSet(w) == IdSet(s)
    ensures forall x :: Has(w, x) <==> Has(s, x)
    ensures Distinct(w) ==> Distinct(s)
    ensures Scored(w, f) ==> Scored(s, f)
  {
    assert |multiset(w)| == |w| && |multiset(s)| == |s|;
    assert forall i :: 0 <= i < |w| ==> w[i] in multiset(s);
    assert forall i :: 0 <= i < |s| ==> s[i] in multiset(w);
    assert forall i :: 0 <= i < |w| ==> w[i] in s;
    assert forall i :: 0 <= i < |s| ==> s[i] in w;
    forall x ensures Has(w, x) <==> Has(s, x) {
      if Has(w, x) { var i :| 0 <= i < |w| && w[i].id == x; assert w[i] in s; }
      if Has(s, x) { var i :| 0 <= i < |s| && s[i].id == x; assert s[i] in w; }
    }
    assert forall x :: x in IdSet(w) <==> Has(w, x);
    assert forall x :: x in IdSet(s) <==> Has(s, x);
    IdSetSize(w);
    IdSetSize(s);
  }

  lemma ReorderedBest(ids: set<nat>, f: nat -> real, k: nat, w: seq<Neighbor>, s: seq<Neighbor>)
    requires BestOf(ids, f, k, w) && multiset(w) == multiset(s)
    ensures BestOf(ids, f, k, s)
  {
    Reordered(w, s, f);
    assert forall i :: 0 <= i < |s| ==> s[i] in multiset(w);
    assert forall i :: 0 <= i < |s| ==> s[i] in w;
  }

  // ------------------------------------------------------------ uniqueness --

  /** Two best-first lists over the same ids carry the same scores, position by position. */
  lemma TopListUnique(ids: set<nat>, f: nat -> real, k: nat, a: seq<Neighbor>, b: seq<Neighbor>)
    requires TopList(ids, f, k, a) && TopList(ids, f, k, b)
    ensures SameScores(a, b)
  {
    forall i | 0 <= i < |a| ensures a[i].score == b[i].score {
      NotAbove(ids, f, f, 0.0, k, a, b, i);
      NotAbove(ids, f, f, 0.0, k, b, a, i);
    }
  }

  /** Where `f` is at most `eps` above `g`, so is every position of their best-first lists: the i + 1
      best of `a` cannot all fit strictly before position i of `b`. */
  lemma NotAbove(ids: set<nat>, f: nat -> real, g: nat -> real, eps: real, k: nat, a: seq<Neighbor>, b: seq<Neighbor>,
                 i: nat)
    requires TopList(ids, f, k, a) && TopList(ids, g, k, b) && i < |a|
    requires forall x :: x in ids ==> f(x) <= g(x) + eps
    ensures i < |b| && a[i].score <= b[i].score + eps
  {
    if a[i].score > b[i].score + eps {
      var head, tail := a[..i + 1], b[..i];
      forall x | x in IdSet(head) ensures x in IdSet(tail) {
        var j :| 0 <= j < |head| && head[j].id == x;
        assert head[j] == a[j];
        AheadOf(ids, g, k, b, i, x);
      }
      IdSetSize(head);
      IdSetSize(tail);
      SubsetSize(IdSet(head), IdSet(tail));
      assert false;
    }
  }

  /** The scores of the lists differ by at most `eps` at every position. */
  ghost predicate NearScores(a: seq<Neighbor>, b: seq<Neighbor>, eps: real) {
    |a| == |b| && forall i :: 0 <= i < |a| ==> b[i].score - eps <= a[i].score <= b[i].score + eps
  }

  /** Scores that differ by at most `eps` on every id give lists that do so at every position. */
  lemma TopListsNear(ids: set<nat>, f: nat -> real, g: nat -> real, eps: real, k: nat, a: seq<Neighbor>,
                     b: seq<Neighbor>)
    requires TopList(ids, f, k, a) && TopList(ids, g, k, b)
    requires forall x :: x in ids ==> g(x) - eps <= f(x) <= g(x) + eps
    ensures NearScores(a, b, eps)
  {
    forall i | 0 <= i < |a| ensures b[i].score - eps <= a[i].score <= b[i].score + eps {
      NotAbove(ids, f, g, eps, k, a, b, i);
      NotAbove(ids, g, f, eps, k, b, a, i);
    }
  }

  /** An id that beats position i of a best-first list stands before it. */
  lemma AheadOf(ids: set<nat>, f: nat -> real, k: nat, b: seq<Neighbor>, i: nat, x: nat)
    requires TopList(ids, f, k, b) && i < |b| && x in ids && f(x) > b[i].score
    ensures x in IdSet(b[..i])
  {
    assert Has(b, x);
    var t :| 0 <= t < |b| && b[t].id == x;
    assert b[t].score == f(x);
    assert b[..i][t].id == x;
  }

  /** When no two ids tie, the list itself is determined, not just its scores. */
  lemma TopListUniqueIds(ids: set<nat>, f: nat -> real, k: nat, a: seq<Neighbor>, b: seq<Neighbor>)
    requires TopList(ids, f, k, a) && TopList(ids, f, k, b)
    requires NoTies(ids, f)
    ensures a == b
  {
    TopListUnique(ids, f, k, a, b);
  }

  /** Cutting a best-first list at a smaller k gives the best-first list for that k. */
  lemma TopListPrefix(ids: set<nat>, f: nat -> real, wide: nat, k: nat, w: seq<Neighbor>)
    requires TopList(ids, f, wide, w) && k <= wide
    ensures Min(k, |ids|) <= |w|
    ensures TopList(ids, f, k, w[..Min(k, |ids|)])
  {
    var cut := w[..Min(k, |ids|)];
    assert forall t :: 0 <= t < |cut| ==> cut[t] == w[t];
    forall x, i | x in ids && !Has(cut, x) && 0 <= i < |cut| ensures f(x) <= cut[i].score {
      if Has(w, x) {
        var j :| 0 <= j < |w| && w[j].id == x;
      }
    }
  }

  // ------------------------------------------------------------ partitions --

  /** The best k over a partition are found among the best `wide` >= k of every part:
      if `out` is a best-first k over the ids the parts kept, it is one over all ids. */
  lemma MergeTopLists(all: set<nat>, parts: seq<set<nat>>, f: nat -> real, wide: nat, k: nat,
                      lists: seq<seq<Neighbor>>, kept: set<nat>, out: seq<Neighbor>)
    requires |lists| == |parts| && k <= wide
    requires forall x :: x in all <==> exists s :: 0 <= s < |parts| && x in parts[s]
    requires forall s :: 0 <= s < |parts| ==> BestOf(parts[s], f, wide, lists[s])
    requires forall x :: x in kept <==> exists s :: 0 <= s < |parts| && Has(lists[s], x)
    requires TopList(kept, f, k, out)
    ensures TopList(all, f, k, out)
  {
    assert kept <= all by {
      forall x | x in kept ensures x in all {
        var s :| 0 <= s < |parts| && Has(lists[s], x);
        assert x in parts[s];
      }
    }
    SubsetSize(kept, all);
    forall x, i | x in all && !Has(out, x) && 0 <= i < |out| ensures f(x) <= out[i].score {
      if x !in kept {
        MergeOmitted(all, parts, f, wide, k, lists, kept, out, x, i);
      }
    }
    if |kept| < |all| {
      if all <= kept { SubsetSize(all, kept); }
      var x :| x in all && x !in kept;
      var s :| 0 <= s < |parts| && x in parts[s];
      FullPart(parts[s], f, wide, lists[s], kept, x);
    }
  }

  lemma FullPart(part: set<nat>, f: nat -> real, wide: nat, list: seq<Neighbor>, kept: set<nat>, x: nat)
    requires BestOf(part, f, wide, list) && x in part && !Has(list, x)
    requires forall y :: Has(list, y) ==> y in kept
    ensures |list| == wide && |IdSet(list)| == wide && IdSet(list) <= kept && wide <= |kept|
  {
    IdSetSize(list);
    assert forall y :: y in IdSet(list) <==> Has(list, y);
    assert IdSet(list) <= part - {x};
    SubsetSize(IdSet(list), part - {x});
    SubsetSize(IdSet(list), kept);
  }

  lemma MergeOmitted(all: set<nat>, parts: seq<set<nat>>, f: nat -> real, wide: nat, k: nat,
                     lists: seq<seq<Neighbor>>, kept: set<nat>, out: seq<Neighbor>, x: nat, i: nat)
    requires |lists| == |parts| && k <= wide
    requires forall x :: x in all <==> exists s :: 0 <= s < |parts| && x in parts[s]
    requires forall s :: 0 <= s < |parts| ==> BestOf(parts[s], f, wide, lists[s])
    requires forall x :: x in kept <==> exists s :: 0 <= s < |parts| && Has(lists[s], x)
    requires TopList(kept, f, k, out)
    requires x in all && x !in kept && i < |out|
    ensures f(x) <= out[i].score
  {
    var s :| 0 <= s < |parts| && x in parts[s];
    var list := lists[s];
    assert !Has(list, x);
    FullPart(parts[s], f, wide, list, kept, x);
    if f(x) > out[i].score {
      // Every entry of the full part beats out[i], so all of them are in `out` beside it.
      forall y | y in IdSet(list) ensures y in IdSet(out) - {out[i].id} {
        var j :| 0 <= j < |list| && list[j].id == y;
        assert f(y) >= f(x) > out[i].score;
        assert Has(out, y);
      }
      IdSetSize(out);
      assert out[i].id in IdSet(out);
      SubsetSize(IdSet(list), IdSet(out) - {out[i].id});
      assert false;
    }
  }

  // ------------------------------------------------------- heaps and sorts --

  /** Take the best entry out of a priority queue. */
  method PopBest(q: seq<Neighbor>) returns (c: Neighbor, rest: seq<Neighbor>, ghost at: nat)
    requires q != []
    ensures at < |q| && c == q[at] && rest == q[..at] + q[at + 1..]
    ensures forall j :: 0 <= j < |q| ==> q[j].score <= c.score
  {
    var best := 0;
    for j := 1 to |q|
      invariant best < |q|
      invariant forall t :: 0 <= t < j ==> q[t].score <= q[best].score
    {
      if q[j].score > q[best].score { best := j; }
    }
    at := best;
    c, rest := q[best], q[..best] + q[best + 1..];
  }

  /** Take the worst entry out of a priority queue. */
  method PopWorst(q: seq<Neighbor>) returns (c: Neighbor, rest: seq<Neighbor>, ghost at: nat)
    requires q != []
    ensures at < |q| && c == q[at] && rest == q[..at] + q[at + 1..]
    ensures forall j :: 0 <= j < |q| ==> q[j].score >= c.score
  {
    var worst := 0;
    for j := 1 to |q|
      invariant worst < |q|
      invariant forall t :: 0 <= t < j ==> q[t].score >= q[worst].score
    {
      if q[j].score < q[worst].score { worst := j; }
    }
    at := worst;
    c, rest := q[worst], q[..worst] + q[worst + 1..];
  }

  /** What is left after taking entry `at` out of a queue of distinct ids. */
  lemma Removed(q: seq<Neighbor>, rest: seq<Neighbor>, at: nat, f: nat -> real)
    requires at < |q| && rest == q[..at] + q[at + 1..]
    requires Distinct(q) && Scored(q, f)
    ensures |rest| == |q| - 1 && Distinct(rest) && Scored(rest, f)
    ensures forall x :: Has(rest, x) <==> Has(q, x) && x != q[at].id
    ensures forall i :: 0 <= i < |rest| ==> rest[i] in q
    ensures IdSet(rest) == IdSet(q) - {q[at].id}
  {
    assert forall i :: 0 <= i < |rest| ==> rest[i] == q[if i < at then i else i + 1];
    forall x ensures Has(rest, x) <==> Has(q, x) && x != q[at].id {
      if Has(q, x) && x != q[at].id {
        var i :| 0 <= i < |q| && q[i].id == x;
        assert rest[if i < at then i else i - 1].id == x;
      }
    }
    assert forall x :: x in IdSet(rest) <==> Has(rest, x);
    assert forall x :: x in IdSet(q) <==> Has(q, x);
  }

  lemma Pushed(q: seq<Neighbor>, e: Neighbor, f: nat -> real)
    requires Distinct(q) && Scored(q, f) && !Has(q, e.id) && e.score == f(e.id)
    ensures Distinct(q + [e]) && Scored(q + [e], f)
    ensures forall x :: Has(q + [e], x) <==> Has(q, x) || x == e.id
    ensures IdSet(q + [e]) == IdSet(q) + {e.id}
  {
    var p := q + [e];
    assert forall i :: 0 <= i < |q| ==> p[i] == q[i];
    assert p[|q|] == e;
    forall x ensures Has(p, x) <==> Has(q, x) || x == e.id {
      if Has(q, x) { var i :| 0 <= i < |q| && q[i].id == x; assert p[i].id == x; }
    }
    assert forall x :: x in IdSet(p) <==> Has(p, x);
    assert forall x :: x in IdSet(q) <==> Has(q, x);
  }

  // ---------------------------------------------------- growing a best-of list --

  /** When fewer than k are kept, everything is kept. */
  lemma AllKept(ids: set<nat>, f: nat -> real, k: nat, w: seq<Neighbor>)
    requires BestOf(ids, f, k, w) && |w| == |ids|
    ensures forall x :: x in ids ==> Has(w, x)
  {
    IdSetSize(w);
    assert forall x :: x in IdSet(w) <==> Has(w, x);
    assert IdSet(w) <= ids;
    SubsetSize(IdSet(w), ids);
  }

  /** Keep a new id that scores at least as well as everything left out. */
  lemma BestPush(ids: set<nat>, f: nat -> real, k: nat, w: seq<Neighbor>, x: nat)
    requires BestOf(ids, f, k, w) && x !in ids
    requires |w| < k || exists i :: 0 <= i < |w| && w[i].score <= f(x)
    ensures BestOf(ids + {x}, f, if |w| < k then k else k + 1, w + [Neighbor(x, f(x))])
  {
    var e := Neighbor(x, f(x));
    var p := w + [e];
    assert !Has(w, x);
    Pushed(w, e, f);
    assert |ids + {x}| == |ids| + 1;
    forall i | 0 <= i < |p| ensures p[i].id in ids + {x} {
      assert i < |w| ==> p[i] == w[i];
    }
    forall y, i | y in ids + {x} && !Has(p, y) && 0 <= i < |p| ensures f(y) <= p[i].score {
      PushOmitted(ids, f, k, w, x, y, i);
    }
  }

  /** What a push leaves out scores no higher than anything it keeps. */
  lemma PushOmitted(ids: set<nat>, f: nat -> real, k: nat, w: seq<Neighbor>, x: nat, y: nat, i: nat)
    requires BestOf(ids, f, k, w) && (|w| < k || exists i :: 0 <= i < |w| && w[i].score <= f(x))
    requires y in ids + {x} && !Has(w + [Neighbor(x, f(x))], y) && i < |w| + 1
    ensures f(y) <= (w + [Neighbor(x, f(x))])[i].score
  {
    var p := w + [Neighbor(x, f(x))];
    assert p[|w|].id == x;
    assert forall t :: 0 <= t < |w| ==> p[t] == w[t];
    assert y in ids && !Has(w, y);
    if i == |w| { OmittedBelow(ids, f, k, w, x, y); }
  }

  lemma OmittedBelow(ids: set<nat>, f: nat -> real, k: nat, w: seq<Neighbor>, x: nat, y: nat)
    requires BestOf(ids, f, k, w) && y in ids && !Has(w, y)
    requires |w| < k || exists i :: 0 <= i < |w| && w[i].score <= f(x)
    ensures f(y) <= f(x)
  {
    if |w| < k { AllKept(ids, f, k, w); }
  }

  /** Leave out a new id that scores no better than anything kept. */
  lemma BestKeep(ids: set<nat>, f: nat -> real, k: nat, w: seq<Neighbor>, x: nat)
    requires BestOf(ids, f, k, w) && x !in ids && |w| == k
    requires forall i :: 0 <= i < |w| ==> f(x) <= w[i].score
    ensures BestOf(ids + {x}, f, k, w)
  {
    assert |ids + {x}| == |ids| + 1;
  }

  /** Dropping a worst entry of the best k + 1 leaves the best k. */
  lemma BestDrop(ids: set<nat>, f: nat -> real, k: nat, w: seq<Neighbor>, at: nat, rest: seq<Neighbor>)
    requires BestOf(ids, f, k + 1, w) && |w| == k + 1 && at < |w| && rest == w[..at] + w[at + 1..]
    requires forall i :: 0 <= i < |w| ==> w[at].score <= w[i].score
    ensures BestOf(ids, f, k, rest)
  {
    Removed(w, rest, at, f);
    forall x, i | x in ids && !Has(rest, x) && 0 <= i < |rest| ensures f(x) <= rest[i].score {
      var j :| 0 <= j < |w| && w[j] == rest[i];
      if x == w[at].id {
        assert f(x) == w[at].score;
      } else {
        assert !Has(w, x);
      }
    }
    forall i | 0 <= i < |rest| ensures rest[i].id in ids {
      var j :| 0 <= j < |w| && w[j] == rest[i];
    }
  }

  /** One entry leaves a queue; the others stay, in their order. */
  lemma TakenOut(q: seq<Neighbor>, at: nat, rest: seq<Neighbor>)
    requires at < |q| && rest == q[..at] + q[at + 1..]
    ensures multiset(q) == multiset(rest) + multiset{q[at]}
    ensures forall j :: 0 <= j < |rest| ==> rest[j] == q[if j < at then j else j + 1]
  {
    assert q == q[..at] + [q[at]] + q[at + 1..];
  }

  /** Sort best first. */
  method SortDescending(w: seq<Neighbor>) returns (s: seq<Neighbor>)
    ensures Descending(s) && multiset(s) == multiset(w)
  {
    s := [];
    var rest := w;
    while rest != []
      invariant multiset(s) + multiset(rest) == multiset(w)
      invariant Descending(s)
      invariant forall i, j :: 0 <= i < |s| && 0 <= j < |rest| ==> s[i].score >= rest[j].score
      decreases |rest|
    {
      var c, less, at := PopBest(rest);
      TakenOut(rest, at, less);
      s, rest := s + [c], less;
    }
  }

  /** Empty a worst-first queue into a list. */
  method SortAscending(w: seq<Neighbor>) returns (s: seq<Neighbor>)
    ensures Ascending(s) && multiset(s) == multiset(w)
  {
    s := [];
    var rest := w;
    while rest != []
      invariant multiset(s) + multiset(rest) == multiset(w)
      invariant Ascending(s)
      invariant forall i, j :: 0 <= i < |s| && 0 <= j < |rest| ==> s[i].score <= rest[j].score
      decreases |rest|
    {
      var c, less, at := PopWorst(rest);
      TakenOut(rest, at, less);
      s, rest := s + [c], less;
    }
  }
}
