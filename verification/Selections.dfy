/** The web application's candidate replenishment and popularity completion. */
module Selections {

  type Id = nat

  datatype Movie = Movie(id: Id, available: bool)

  /** A verified bundle: distinct movie ids, and a popularity order that is a permutation of them. */
  datatype Catalog = Catalog(movies: seq<Movie>, popularity: seq<Id>)

  /** One retrieval call: catalogue rows, best first, or any of the failures it can end with. */
  datatype Reply = Found(rows: seq<nat>) | Failed

  /** A selected movie and whether retrieval or the popularity list supplied it. */
  datatype Pick = Pick(id: Id, retrieved: bool)

  datatype Selection = Selection(items: seq<Pick>, degraded: bool, fromModel: bool, exhausted: bool)

  ghost predicate CatalogOk(c: Catalog) {
    && (forall i, j :: 0 <= i < j < |c.movies| ==> c.movies[i].id != c.movies[j].id)
    && forall x :: x in c.popularity <==> Known(c, x)
  }

  predicate Known(c: Catalog, x: Id) {
    exists i :: 0 <= i < |c.movies| && c.movies[i].id == x
  }

  /** The movie with this id is in the catalogue and available. */
  predicate Available(c: Catalog, x: Id) {
    exists i :: 0 <= i < |c.movies| && c.movies[i] == Movie(x, true)
  }

  predicate Eligible(c: Catalog, blocked: set<Id>, x: Id) {
    x !in blocked && Available(c, x)
  }

  ghost function AllEligible(c: Catalog, blocked: set<Id>): set<Id> {
    set i | 0 <= i < |c.movies| && Eligible(c, blocked, c.movies[i].id) :: c.movies[i].id
  }

  predicate Chosen(w: seq<Pick>, x: Id) {
    exists i :: 0 <= i < |w| && w[i].id == x
  }

  /** Add a movie unless it is blocked, unavailable or there already. */
  function Add(c: Catalog, blocked: set<Id>, w: seq<Pick>, x: Id, retrieved: bool): seq<Pick> {
    if Eligible(c, blocked, x) && !Chosen(w, x) then w + [Pick(x, retrieved)] else w
  }

  predicate RowsKnown(c: Catalog, rows: seq<nat>) {
    forall i :: 0 <= i < |rows| ==> rows[i] < |c.movies|
  }

  /** The eligible movies among the first `n` retrieved rows, each once, in retrieval order. */
  function AddRows(c: Catalog, blocked: set<Id>, rows: seq<nat>, n: nat): seq<Pick>
    requires n <= |rows| && RowsKnown(c, rows)
  {
    if n == 0 then [] else Add(c, blocked, AddRows(c, blocked, rows, n - 1), c.movies[rows[n - 1]].id, true)
  }

  /** Complete a list from the first `n` popular movies until it has `k`. */
  function AddPopular(c: Catalog, blocked: set<Id>, w: seq<Pick>, k: nat, n: nat): seq<Pick>
    requires n <= |c.popularity|
  {
    if n == 0 then w
    else
      var rest := AddPopular(c, blocked, w, k, n - 1);
      if |rest| >= k then rest else Add(c, blocked, rest, c.popularity[n - 1], false)
  }

  /** The sizes a retrieval is asked for, one after the other. */
  const COUNTS: seq<nat> := [128, 256, 512]

  datatype Round = Round(picks: seq<Pick>, failed: bool)

  /** The retrieval rounds from round `r` on: the last one that was made decides. */
  function Rounds(c: Catalog, blocked: set<Id>, k: nat, query: nat -> Reply, r: nat, last: seq<Pick>): Round
    requires r <= |COUNTS|
    decreases |COUNTS| - r
  {
    if r == |COUNTS| then Round(last, false)
    else match query(COUNTS[r])
      case Failed => Round([], true)
      case Found(rows) =>
        if !RowsKnown(c, rows) then Round([], true)
        else
          var now := AddRows(c, blocked, rows, |rows|);
          if |now| >= k then Round(now, false) else Rounds(c, blocked, k, query, r + 1, now)
  }

  function Retrieved(c: Catalog, blocked: set<Id>, k: nat, hasVector: bool, query: nat -> Reply): Round {
    if hasVector then Rounds(c, blocked, k, query, 0, []) else Round([], false)
  }

  function Cut(w: seq<Pick>, k: nat): seq<Pick> { if |w| <= k then w else w[..k] }

  /** The selection as a function of the replies. */
  function Select(c: Catalog, blocked: set<Id>, k: nat, hasVector: bool, query: nat -> Reply): Selection {
    var r := Retrieved(c, blocked, k, hasVector, query);
    var all := AddPopular(c, blocked, r.picks, k, |c.popularity|);
    Selection(Cut(all, k), r.failed, hasVector && !r.failed, |all| < k)
  }

  method AddMovie(c: Catalog, blocked: set<Id>, w: seq<Pick>, seen: set<Id>, x: Id, retrieved: bool)
    returns (w': seq<Pick>, seen': set<Id>)
    requires forall y :: y in seen <==> Chosen(w, y)
    ensures w' == Add(c, blocked, w, x, retrieved)
    ensures forall y :: y in seen' <==> Chosen(w', y)
  {
    w', seen' := w, seen;
    if Eligible(c, blocked, x) && x !in seen {
      w', seen' := w + [Pick(x, retrieved)], seen + {x};
      ChosenAppend(w, Pick(x, retrieved));
    }
  }

  lemma ChosenAppend(w: seq<Pick>, e: Pick)
    ensures forall y :: Chosen(w + [e], y) <==> Chosen(w, y) || y == e.id
  {
    var v := w + [e];
    assert v[|w|] == e;
    forall y | Chosen(w, y) ensures Chosen(v, y) {
      var i :| 0 <= i < |w| && w[i].id == y;
      assert v[i].id == y;
    }
  }

  method SelectItems(c: Catalog, blocked: set<Id>, k: nat, hasVector: bool, query: nat -> Reply) returns (s: Selection)
    ensures s == Select(c, blocked, k, hasVector, query)
    ensures CatalogOk(c) ==> Full(c, blocked, k, s) && Supplied(c, blocked, k, hasVector, query, s)
  {
    var selected: seq<Pick>, seen: set<Id> := [], {};
    var degraded, fromModel := false, hasVector;
    if hasVector {
      var r := 0;
      while r < |COUNTS|
        invariant r <= |COUNTS| && !degraded && fromModel
        invariant forall y :: y in seen <==> Chosen(selected, y)
        invariant Rounds(c, blocked, k, query, 0, []) == Rounds(c, blocked, k, query, r, selected)
      {
        var reply := query(COUNTS[r]);
        if reply.Failed? || !RowsKnown(c, reply.rows) {
          selected, seen, degraded, fromModel := [], {}, true, false;
          break;
        }
        selected, seen := [], {};
        for i := 0 to |reply.rows|
          invariant selected == AddRows(c, blocked, reply.rows, i)
          invariant forall y :: y in seen <==> Chosen(selected, y)
        {
          selected, seen := AddMovie(c, blocked, selected, seen, c.movies[reply.rows[i]].id, true);
        }
        if |selected| >= k { break; }
        r := r + 1;
      }
    }
    ghost var kept := selected;
    assert Round(kept, degraded) == Retrieved(c, blocked, k, hasVector, query);
    for p := 0 to |c.popularity|
      invariant selected == AddPopular(c, blocked, kept, k, p)
      invariant forall y :: y in seen <==> Chosen(selected, y)
    {
      if |selected| < k { selected, seen := AddMovie(c, blocked, selected, seen, c.popularity[p], false); }
    }
    s := Selection(Cut(selected, k), degraded, fromModel, |selected| < k);
    if CatalogOk(c) {
      SelectPromises(c, blocked, k, hasVector, query);
      SelectSupplies(c, blocked, k, hasVector, query);
    }
  }

  // ------------------------------------------------------------- what it promises --

  /** Distinct eligible movies, whatever supplied them. */
  ghost predicate Proper(c: Catalog, blocked: set<Id>, w: seq<Pick>) {
    && (forall i, j :: 0 <= i < j < |w| ==> w[i].id != w[j].id)
    && forall i :: 0 <= i < |w| ==> Eligible(c, blocked, w[i].id)
  }

  lemma ProperAdd(c: Catalog, blocked: set<Id>, w: seq<Pick>, x: Id, retrieved: bool)
    requires Proper(c, blocked, w)
    ensures Proper(c, blocked, Add(c, blocked, w, x, retrieved))
    ensures Eligible(c, blocked, x) ==> Chosen(Add(c, blocked, w, x, retrieved), x)
    ensures forall y :: Chosen(w, y) ==> Chosen(Add(c, blocked, w, x, retrieved), y)
  {
    ChosenAppend(w, Pick(x, retrieved));
  }

  lemma {:induction false} ProperRows(c: Catalog, blocked: set<Id>, rows: seq<nat>, n: nat)
    requires n <= |rows| && RowsKnown(c, rows)
    ensures Proper(c, blocked, AddRows(c, blocked, rows, n))
  {
    if n > 0 {
      ProperRows(c, blocked, rows, n - 1);
      ProperAdd(c, blocked, AddRows(c, blocked, rows, n - 1), c.movies[rows[n - 1]].id, true);
    }
  }

  lemma {:induction false} ProperRounds(c: Catalog, blocked: set<Id>, k: nat, query: nat -> Reply, r: nat,
                                        last: seq<Pick>)
    requires r <= |COUNTS| && Proper(c, blocked, last)
    ensures Proper(c, blocked, Rounds(c, blocked, k, query, r, last).picks)
    decreases |COUNTS| - r
  {
    if r < |COUNTS| && query(COUNTS[r]).Found? && RowsKnown(c, query(COUNTS[r]).rows) {
      var rows := query(COUNTS[r]).rows;
      ProperRows(c, blocked, rows, |rows|);
      var now := AddRows(c, blocked, rows, |rows|);
      if |now| < k { ProperRounds(c, blocked, k, query, r + 1, now); }
    }
  }

  /** A completion that stays short of k has taken every eligible movie of the list. */
  lemma {:induction false} ProperPopular(c: Catalog, blocked: set<Id>, w: seq<Pick>, k: nat, n: nat)
    requires n <= |c.popularity| && Proper(c, blocked, w)
    ensures Proper(c, blocked, AddPopular(c, blocked, w, k, n))
    ensures |AddPopular(c, blocked, w, k, n)| < k ==>
              forall p :: 0 <= p < n && Eligible(c, blocked, c.popularity[p]) ==>
                Chosen(AddPopular(c, blocked, w, k, n), c.popularity[p])
  {
    if n > 0 {
      ProperPopular(c, blocked, w, k, n - 1);
      ProperAdd(c, blocked, AddPopular(c, blocked, w, k, n - 1), c.popularity[n - 1], false);
    }
  }

  ghost function IdsOf(w: seq<Pick>): set<Id> {
    set i | 0 <= i < |w| :: w[i].id
  }

  lemma {:induction false} IdsOfSize(w: seq<Pick>)
    requires forall i, j :: 0 <= i < j < |w| ==> w[i].id != w[j].id
    ensures |IdsOf(w)| == |w|
  {
    if w == [] {
      assert IdsOf(w) == {};
    } else {
      var front, last := w[..|w| - 1], w[|w| - 1];
      IdsOfSize(front);
      assert w == front + [last];
      assert IdsOf(w) == IdsOf(front) + {last.id} by {
        assert forall i :: 0 <= i < |front| ==> w[i] == front[i];
        assert w[|front|] == last;
      }
    }
  }

  /** Every selection lists distinct eligible movies, as many as exist up to k, and is `exhausted`
      exactly when fewer than k movies of the whole catalogue are eligible. */
  lemma SelectPromises(c: Catalog, blocked: set<Id>, k: nat, hasVector: bool, query: nat -> Reply)
    requires CatalogOk(c)
    ensures Full(c, blocked, k, Select(c, blocked, k, hasVector, query))
  {
    var start := Retrieved(c, blocked, k, hasVector, query).picks;
    if hasVector { ProperRounds(c, blocked, k, query, 0, []); }
    ProperPopular(c, blocked, start, k, |c.popularity|);
    var w := AddPopular(c, blocked, start, k, |c.popularity|);
    Enough(c, blocked, w, k);
  }

  // ------------------------------------------------------------- who supplied what --

  /** The retrieval answered, and only with rows of the catalogue. */
  ghost predicate Usable(c: Catalog, reply: Reply) {
    reply.Found? && forall i :: 0 <= i < |reply.rows| ==> reply.rows[i] < |c.movies|
  }

  /** The ids of the retrieved rows, in order. */
  ghost function IdsAt(c: Catalog, rows: seq<nat>): (r: seq<Id>)
    requires forall i :: 0 <= i < |rows| ==> rows[i] < |c.movies|
    ensures |r| == |rows| && forall i :: 0 <= i < |rows| ==> r[i] == c.movies[rows[i]].id
  {
    seq(|rows|, i requires 0 <= i < |rows| => c.movies[rows[i]].id)
  }

  /** The members of a list that are eligible. */
  ghost function EligibleIn(c: Catalog, blocked: set<Id>, list: seq<Id>): set<Id> {
    set x | x in list && Eligible(c, blocked, x)
  }

  /** Round `r` of 128, 256 and 512 decides: it failed or has k eligible movies, or it is the last, and
      every round before answered with fewer. */
  ghost predicate Decides(c: Catalog, blocked: set<Id>, k: nat, query: nat -> Reply, r: nat) {
    && r < 3 && (forall t :: 0 <= t < r ==> Short(c, blocked, k, query(Size(t))))
    && (r < 2 ==> !Short(c, blocked, k, query(Size(r))))
  }

  ghost function Size(r: nat): nat { if r == 0 then 128 else if r == 1 then 256 else 512 }

  ghost predicate Short(c: Catalog, blocked: set<Id>, k: nat, reply: Reply) {
    Usable(c, reply) && |EligibleIn(c, blocked, IdsAt(c, reply.rows))| < k
  }

  /** `w` lists members of `ok` in the order of `list`: before each of them the list has only members
      that come earlier in `w`. */
  ghost predicate InOrderOf(list: seq<Id>, ok: set<Id>, w: seq<Pick>, retrieved: bool) {
    forall i :: 0 <= i < |w| ==> w[i].retrieved == retrieved && w[i].id in ok && FirstAfter(list, ok, w, i)
  }

  ghost predicate FirstAfter(list: seq<Id>, ok: set<Id>, w: seq<Pick>, i: nat)
    requires i < |w|
  {
    exists p :: 0 <= p < |list| && list[p] == w[i].id && !Chosen(w[..i], w[i].id) &&
                forall q :: 0 <= q < p && list[q] in ok ==> Chosen(w[..i], list[q])
  }

  /** A selection: the eligible movies of `list` in its order, then popular ones in theirs, up to k. */
  ghost predicate SuppliedBy(c: Catalog, blocked: set<Id>, k: nat, list: seq<Id>, items: seq<Pick>) {
    var own := EligibleIn(c, blocked, list);
    var n := if |own| <= k then |own| else k;
    && n <= |items| && InOrderOf(list, own, items[..n], true)
    && InOrderOf(c.popularity, AllEligible(c, blocked) - own, items[n..], false)
  }

  lemma FirstAfterPrefix(list: seq<Id>, ok: set<Id>, w: seq<Pick>, v: seq<Pick>, i: nat)
    requires i < |w| && w <= v && FirstAfter(list, ok, w, i)
    ensures FirstAfter(list, ok, v, i)
  {
    assert v[..i] == w[..i] && v[i] == w[i];
  }

  lemma InOrderCut(list: seq<Id>, ok: set<Id>, w: seq<Pick>, retrieved: bool, n: nat)
    requires InOrderOf(list, ok, w, retrieved) && n <= |w|
    ensures InOrderOf(list, ok, w[..n], retrieved)
  {
    forall i | 0 <= i < n ensures FirstAfter(list, ok, w[..n], i) {
      assert FirstAfter(list, ok, w, i);
      assert w[..n][..i] == w[..i] && w[..n][i] == w[i];
    }
  }

  /** The next pick of a list, if it comes first among what is left. */
  lemma InOrderMore(list: seq<Id>, ok: set<Id>, w: seq<Pick>, e: Pick, p: nat)
    requires InOrderOf(list, ok, w, e.retrieved) && e.id in ok && !Chosen(w, e.id)
    requires p < |list| && list[p] == e.id && forall q :: 0 <= q < p && list[q] in ok ==> Chosen(w, list[q])
    ensures InOrderOf(list, ok, w + [e], e.retrieved)
  {
    var v := w + [e];
    forall i | 0 <= i < |v| ensures v[i].retrieved == e.retrieved && v[i].id in ok && FirstAfter(list, ok, v, i) {
      if i < |w| { FirstAfterPrefix(list, ok, w, v, i); } else { assert v[..i] == w; }
    }
  }

  /** The rows of one reply, as picks. */
  lemma {:induction false} RowsInOrder(c: Catalog, blocked: set<Id>, rows: seq<nat>, n: nat, list: seq<Id>, ok: set<Id>)
    requires n <= |rows| && RowsKnown(c, rows) && list == IdsAt(c, rows) && ok == EligibleIn(c, blocked, list)
    ensures InOrderOf(list, ok, AddRows(c, blocked, rows, n), true)
    ensures forall x :: Chosen(AddRows(c, blocked, rows, n), x) <==> x in list[..n] && x in ok
  {
    if n > 0 {
      RowsInOrder(c, blocked, rows, n - 1, list, ok);
      var w, x := AddRows(c, blocked, rows, n - 1), list[n - 1];
      assert list[..n] == list[..n - 1] + [x];
      ChosenAppend(w, Pick(x, true));
      if Eligible(c, blocked, x) && !Chosen(w, x) {
        forall q | 0 <= q < n - 1 && list[q] in ok ensures Chosen(w, list[q]) { assert list[q] in list[..n - 1]; }
        InOrderMore(list, ok, w, Pick(x, true), n - 1);
      }
    }
  }

  lemma RowsAre(c: Catalog, blocked: set<Id>, rows: seq<nat>)
    requires RowsKnown(c, rows)
    ensures var w, list := AddRows(c, blocked, rows, |rows|), IdsAt(c, rows);
            && InOrderOf(list, EligibleIn(c, blocked, list), w, true) && Proper(c, blocked, w)
            && IdsOf(w) == EligibleIn(c, blocked, list) && |w| == |EligibleIn(c, blocked, list)|
  {
    var w, list := AddRows(c, blocked, rows, |rows|), IdsAt(c, rows);
    RowsInOrder(c, blocked, rows, |rows|, list, EligibleIn(c, blocked, list));
    ProperRows(c, blocked, rows, |rows|);
    assert list[..|rows|] == list;
    forall x ensures x in IdsOf(w) <==> x in EligibleIn(c, blocked, list) { assert x in IdsOf(w) <==> Chosen(w, x); }
    IdsOfSize(w);
  }

  /** What a deciding round leaves. */
  ghost predicate LeftBy(c: Catalog, blocked: set<Id>, k: nat, query: nat -> Reply, r: nat, left: Round) {
    && Decides(c, blocked, k, query, r)
    && var reply := query(Size(r));
       left == if Usable(c, reply) then Round(AddRows(c, blocked, reply.rows, |reply.rows|), false) else Round([], true)
  }

  lemma {:induction false} RoundsDecide(c: Catalog, blocked: set<Id>, k: nat, query: nat -> Reply, r: nat,
                                        last: seq<Pick>) returns (d: nat)
    requires r <= 3 && forall t :: 0 <= t < r ==> Short(c, blocked, k, query(Size(t)))
    requires r == 3 ==> Usable(c, query(512)) && last == AddRows(c, blocked, query(512).rows, |query(512).rows|)
    ensures LeftBy(c, blocked, k, query, d, Rounds(c, blocked, k, query, r, last))
    decreases 3 - r
  {
    if r == 3 {
      assert Short(c, blocked, k, query(Size(2)));
      return 2;
    }
    assert COUNTS[r] == Size(r);
    d := r;
    if Usable(c, query(Size(r))) {
      RowsAre(c, blocked, query(Size(r)).rows);
      var now := AddRows(c, blocked, query(Size(r)).rows, |query(Size(r)).rows|);
      if |now| < k { d := RoundsDecide(c, blocked, k, query, r + 1, now); }
    }
  }

  /** The first `n` popular movies were appended to `w` in popularity order, and none was left out while
      there was room. */
  ghost predicate Completed(c: Catalog, blocked: set<Id>, w: seq<Pick>, k: nat, n: nat, v: seq<Pick>)
    requires n <= |c.popularity|
  {
    && w <= v && (|w| >= k ==> v == w) && (|w| < k ==> |v| <= k)
    && InOrderOf(c.popularity, AllEligible(c, blocked) - IdsOf(w), v[|w|..], false)
    && (|v| < k ==> forall q :: 0 <= q < n && Eligible(c, blocked, c.popularity[q]) ==> Chosen(v, c.popularity[q]))
  }

  lemma {:induction false} PopularInOrder(c: Catalog, blocked: set<Id>, w: seq<Pick>, k: nat, n: nat)
    requires n <= |c.popularity| && CatalogOk(c) && Proper(c, blocked, w)
    ensures Completed(c, blocked, w, k, n, AddPopular(c, blocked, w, k, n))
  {
    if n > 0 {
      PopularInOrder(c, blocked, w, k, n - 1);
      PopularNext(c, blocked, w, k, n - 1, AddPopular(c, blocked, w, k, n - 1), AddPopular(c, blocked, w, k, n));
    }
  }

  lemma PopularNext(c: Catalog, blocked: set<Id>, w: seq<Pick>, k: nat, p: nat, v: seq<Pick>,
                    next: seq<Pick>)
    requires p < |c.popularity| && CatalogOk(c) && Completed(c, blocked, w, k, p, v)
    requires var x := c.popularity[p];
             next == if |v| < k && Eligible(c, blocked, x) && !Chosen(v, x) then v + [Pick(x, false)] else v
    ensures Completed(c, blocked, w, k, p + 1, next)
  {
    var x := c.popularity[p];
    if |v| < k {
      ChosenAppend(v, Pick(x, false));
      if Eligible(c, blocked, x) && !Chosen(v, x) { PopularMore(c, blocked, w, v, p); }
    }
  }

  lemma PopularMore(c: Catalog, blocked: set<Id>, w: seq<Pick>, v: seq<Pick>, p: nat)
    requires CatalogOk(c) && p < |c.popularity| && w <= v
    requires Eligible(c, blocked, c.popularity[p]) && !Chosen(v, c.popularity[p])
    requires InOrderOf(c.popularity, AllEligible(c, blocked) - IdsOf(w), v[|w|..], false)
    requires forall q :: 0 <= q < p && Eligible(c, blocked, c.popularity[q]) ==> Chosen(v, c.popularity[q])
    ensures var longer := v + [Pick(c.popularity[p], false)];
            InOrderOf(c.popularity, AllEligible(c, blocked) - IdsOf(w), longer[|w|..], false)
  {
    var x, tail, ok := c.popularity[p], v[|w|..], AllEligible(c, blocked) - IdsOf(w);
    assert v == w + tail && (v + [Pick(x, false)])[|w|..] == tail + [Pick(x, false)];
    ChosenSplit(w, tail);
    EligibleListed(c, blocked, x);
    forall q | 0 <= q < p && c.popularity[q] in ok ensures Chosen(tail, c.popularity[q]) {
      assert Eligible(c, blocked, c.popularity[q]);
    }
    InOrderMore(c.popularity, ok, tail, Pick(x, false), p);
  }

  lemma ChosenSplit(w: seq<Pick>, tail: seq<Pick>)
    ensures forall x :: Chosen(w + tail, x) <==> Chosen(w, x) || Chosen(tail, x)
    ensures forall x :: Chosen(w, x) <==> x in IdsOf(w)
  {
    forall x ensures Chosen(w + tail, x) <==> Chosen(w, x) || Chosen(tail, x) {
      if i :| 0 <= i < |w| && w[i].id == x { assert (w + tail)[i].id == x; }
      if i :| 0 <= i < |tail| && tail[i].id == x { assert (w + tail)[|w| + i].id == x; }
      if i :| 0 <= i < |w + tail| && (w + tail)[i].id == x { assert i < |w| || tail[i - |w|].id == x; }
    }
  }

  lemma EligibleListed(c: Catalog, blocked: set<Id>, x: Id)
    requires Eligible(c, blocked, x)
    ensures x in AllEligible(c, blocked)
  {
    var i :| 0 <= i < |c.movies| && c.movies[i] == Movie(x, true);
    assert c.movies[i].id == x;
  }

  /** The retrieved part and the completion of a selection. */
  lemma CompletionIs(c: Catalog, blocked: set<Id>, k: nat, list: seq<Id>, w: seq<Pick>, all: seq<Pick>)
    requires CatalogOk(c) && Proper(c, blocked, w) && IdsOf(w) == EligibleIn(c, blocked, list)
    requires |w| == |EligibleIn(c, blocked, list)| && InOrderOf(list, EligibleIn(c, blocked, list), w, true)
    requires all == AddPopular(c, blocked, w, k, |c.popularity|)
    ensures SuppliedBy(c, blocked, k, list, Cut(all, k))
  {
    PopularInOrder(c, blocked, w, k, |c.popularity|);
    var n, items := if |w| <= k then |w| else k, Cut(all, k);
    InOrderCut(list, EligibleIn(c, blocked, list), w, true, n);
    if |w| >= k {
      assert items == w[..k] && items[..n] == w[..n] && items[n..] == [];
    } else {
      assert items == all && items[..n] == w[..n] && items[n..] == all[|w|..];
    }
  }

  /** Who supplied what: after a round that answered, its eligible movies come first, in retrieval
      order, up to k, and popular ones only after all of them; without a vector, or after a failure,
      popularity alone decides. */
  ghost predicate Supplied(c: Catalog, blocked: set<Id>, k: nat, hasVector: bool, query: nat -> Reply, s: Selection) {
    if !hasVector then SuppliedBy(c, blocked, k, [], s.items) && !s.degraded && !s.fromModel
    else exists r :: Decides(c, blocked, k, query, r) &&
           if Usable(c, query(Size(r)))
           then SuppliedBy(c, blocked, k, IdsAt(c, query(Size(r)).rows), s.items) && !s.degraded && s.fromModel
           else SuppliedBy(c, blocked, k, [], s.items) && s.degraded && !s.fromModel
  }

  /** Distinct eligible movies, as many as exist up to k, and an exact exhausted flag. */
  ghost predicate Full(c: Catalog, blocked: set<Id>, k: nat, s: Selection) {
    && Proper(c, blocked, s.items)
    && |s.items| == (if |AllEligible(c, blocked)| <= k then |AllEligible(c, blocked)| else k)
    && (s.exhausted <==> |AllEligible(c, blocked)| < k)
  }

  lemma SelectSupplies(c: Catalog, blocked: set<Id>, k: nat, hasVector: bool, query: nat -> Reply)
    requires CatalogOk(c)
    ensures Supplied(c, blocked, k, hasVector, query, Select(c, blocked, k, hasVector, query))
  {
    var left := Retrieved(c, blocked, k, hasVector, query);
    var all := AddPopular(c, blocked, left.picks, k, |c.popularity|);
    if hasVector {
      var r := RoundsDecide(c, blocked, k, query, 0, []);
      if Usable(c, query(Size(r))) {
        RowsAre(c, blocked, query(Size(r)).rows);
        CompletionIs(c, blocked, k, IdsAt(c, query(Size(r)).rows), left.picks, all);
      } else {
        NothingRetrieved(c, blocked, k, all);
      }
    } else {
      NothingRetrieved(c, blocked, k, all);
    }
  }

  lemma NothingRetrieved(c: Catalog, blocked: set<Id>, k: nat, all: seq<Pick>)
    requires CatalogOk(c) && all == AddPopular(c, blocked, [], k, |c.popularity|)
    ensures SuppliedBy(c, blocked, k, [], Cut(all, k))
  {
    assert EligibleIn(c, blocked, []) == {} && IdsOf([]) == {};
    CompletionIs(c, blocked, k, [], [], all);
  }

  lemma Enough(c: Catalog, blocked: set<Id>, w: seq<Pick>, k: nat)
    requires CatalogOk(c) && Proper(c, blocked, w)
    requires |w| < k ==>
               forall p :: 0 <= p < |c.popularity| && Eligible(c, blocked, c.popularity[p]) ==>
                 Chosen(w, c.popularity[p])
    ensures |w| <= |AllEligible(c, blocked)| && (|w| < k ==> |w| == |AllEligible(c, blocked)|)
  {
    IdsOfSize(w);
    var all := AllEligible(c, blocked);
    forall x | x in IdsOf(w) ensures x in all {
      var i :| 0 <= i < |c.movies| && c.movies[i] == Movie(x, true);
      assert c.movies[i].id == x;
    }
    assert all == IdsOf(w) + (all - IdsOf(w));
    if |w| < k {
      forall x | x in all ensures x in IdsOf(w) { AllChosen(c, blocked, w, x); }
    }
  }

  lemma AllChosen(c: Catalog, blocked: set<Id>, w: seq<Pick>, x: Id)
    requires CatalogOk(c) && x in AllEligible(c, blocked)
    requires forall p :: 0 <= p < |c.popularity| && Eligible(c, blocked, c.popularity[p]) ==> Chosen(w, c.popularity[p])
    ensures x in IdsOf(w)
  {
    assert Known(c, x);
    var p :| 0 <= p < |c.popularity| && c.popularity[p] == x;
    assert Chosen(w, c.popularity[p]);
  }
}
