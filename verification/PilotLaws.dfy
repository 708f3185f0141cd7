/** What the pilot's transactions and rankings come to, said of their inputs and effects alone. */
module PilotLaws {
  import opened Basics
  import opened PilotModels
  import opened PilotPolicies
  import opened PilotStores
  import opened PilotRuns

  // ---------------------------------------------------------------- what is blocked --

  /** The row records an outcome, not a display, of an item for a user. */
  ghost predicate Outcome(e: Row, u: Id, x: Id) {
    e.user == u && e.item == x && e.kind != Shown
  }

  lemma {:induction false} ReplayBlocks(events: seq<Row>, u: Id, x: Id)
    ensures (u, x) in Replay(events).blocked <==> exists i :: 0 <= i < |events| && Outcome(events[i], u, x)
  {
    if events != [] {
      var n := |events| - 1;
      ReplayBlocks(events[..n], u, x);
      if i :| 0 <= i < n && Outcome(events[i], u, x) { assert Outcome(events[..n][i], u, x); }
      if i :| 0 <= i < n && Outcome(events[..n][i], u, x) { assert Outcome(events[i], u, x); }
      assert Outcome(events[n], u, x) ==> (u, x) in Replay(events).blocked;
    }
  }

  /** In every reachable store an item is blocked for a user exactly when the journal holds an outcome
      of it: saved, dismissed or watched. */
  lemma BlockedByOutcome(m: Model, run: seq<State>, acts: seq<Action>, i: nat, u: Id, x: Id)
    requires IsRun(m, run, acts) && i < |run|
    ensures (u, x) in run[i].db.blocked <==>
            exists t :: 0 <= t < |run[i].db.events| && Outcome(run[i].db.events[t], u, x)
  {
    ProjectionIsReplay(m, run, acts, i);
    ReplayBlocks(run[i].db.events, u, x);
  }

  // ----------------------------------------------------------------------- feedback --

  /** A complete event of the one schema version. */
  ghost predicate Complete(p: Payload) {
    && p.Fields? && p.schemaVersion == 1 && p.kind.Some? && p.timeMs.Some?
    && p.eventId != 0 && p.user != 0 && p.item != 0 && p.request != 0
  }

  ghost predicate HasRow(db: Db, request: Id, item: Id, kind: Kind) {
    exists i :: 0 <= i < |db.events| && db.events[i].request == request && db.events[i].item == item &&
                db.events[i].kind == kind
  }

  ghost predicate Known(db: Db, eventId: Id) {
    exists i :: 0 <= i < |db.events| && db.events[i].eventId == eventId
  }

  /** The event is about an item of a response issued to its user, at a credible time: at most a day
      old, at most half a minute ahead, and no more than that before the response. */
  ghost predicate Credible(db: Db, p: Payload, now: int)
    requires Complete(p)
  {
    && now - 86_400_000 <= p.timeMs.value <= now + 30_000
    && p.request in db.impressions && db.impressions[p.request].user == p.user
    && (exists j :: 0 <= j < |db.impressions[p.request].response.items| &&
                    db.impressions[p.request].response.items[j].item == p.item)
    && p.timeMs.value >= db.impressions[p.request].createdMs - 30_000
  }

  /** An outcome needs its display, and nothing is recorded twice. */
  ghost predicate InTurn(db: Db, p: Payload)
    requires Complete(p)
  {
    && (p.kind.value != Shown ==> HasRow(db, p.request, p.item, Shown))
    && !HasRow(db, p.request, p.item, p.kind.value)
  }

  lemma RecordedIs(db: Db, request: Id, item: Id, kind: Kind)
    ensures Recorded(db.events, request, item, kind) <==> HasRow(db, request, item, kind)
  {
    if i :| 0 <= i < |db.events| && Matches(db.events[i], request, item, kind) {
      assert db.events[i].request == request;
    }
    if i :| 0 <= i < |db.events| && db.events[i].request == request && db.events[i].item == item &&
            db.events[i].kind == kind {
      assert Matches(db.events[i], request, item, kind);
    }
  }

  lemma RefusalIs(db: Db, p: Payload, now: int)
    requires Sound(db) && Complete(p)
    ensures Refusal(db, p, now) == if !Credible(db, p, now) then Some(Invalid)
                                   else if !InTurn(db, p) then Some(Conflict) else None
  {
    RecordedIs(db, p.request, p.item, Shown);
    RecordedIs(db, p.request, p.item, p.kind.value);
    if p.request in db.impressions {
      assert (p.request, p.item) in db.exposures <==> p.item in ItemsOf(db.impressions[p.request].response);
    }
  }

  /** Which events are refused, and how; which are duplicates; and which are accepted. */
  lemma ApplyMeans(db: Db, p: Payload, now: int)
    requires Sound(db)
    ensures var r := ApplyTo(db, p, now).1;
            && (r == Invalid <==> !Complete(p) || (!Known(db, p.eventId) && !Credible(db, p, now)))
            && (r.Done? && r.value.duplicate <==>
                  Complete(p) && exists i :: 0 <= i < |db.events| && db.events[i].payload == p)
            && (r.Done? && r.value.duplicate ==> 1 <= r.value.sequence <= |db.events| &&
                                                 db.events[r.value.sequence - 1].payload == p)
            && (r.Done? && !r.value.duplicate <==>
                  Complete(p) && !Known(db, p.eventId) && Credible(db, p, now) && InTurn(db, p))
            && (r == Invalid || r == Conflict || r.Done?)
  {
    if Complete(p) {
      RefusalIs(db, p, now);
      KnownPayload(db, p);
    }
  }

  /** A payload is on record exactly when its id is on record with it. */
  lemma KnownPayload(db: Db, p: Payload)
    requires Sound(db) && Complete(p)
    ensures Known(db, p.eventId) <==> FindEvent(db.events, p.eventId).Some?
    ensures (exists i :: 0 <= i < |db.events| && db.events[i].payload == p) <==>
            FindEvent(db.events, p.eventId).Some? && db.events[FindEvent(db.events, p.eventId).value].payload == p
  {
    if i :| 0 <= i < |db.events| && db.events[i].payload == p {
      assert RowFits(db.events[i]);
      OnePosition(db.events, i, FindEvent(db.events, p.eventId).value);
    }
  }

  /** What an accepted event leaves: its row at the end, its own item's counter one up, its item
      blocked for its user unless it was a display, and the next generation. Anything else changes nothing. */
  ghost predicate Effect(s: Db, p: Payload, now: int, t: Db)
    requires Complete(p)
  {
    && t.events == s.events + [Row(p.eventId, p, p.user, p.request, p.item, p.kind.value, now)]
    && t.generation == s.generation + 1 && t.impressions == s.impressions && t.exposures == s.exposures
    && t.unavailable == s.unavailable
    && t.blocked == s.blocked + (if p.kind.value == Shown then {} else {(p.user, p.item)})
    && t.features.Keys == s.features.Keys + {p.item}
    && (forall x :: x in s.features && x != p.item ==> t.features[x] == s.features[x])
    && var c := if p.item in s.features then s.features[p.item] else Counts(0, 0);
       t.features[p.item].shown == c.shown + (if p.kind.value == Shown then 1 else 0) &&
       t.features[p.item].saved == c.saved + (if p.kind.value == Save then 1 else 0)
  }

  lemma ApplyEffect(db: Db, p: Payload, now: int)
    ensures var (t, r) := ApplyTo(db, p, now);
            if r.Done? && !r.value.duplicate
            then Complete(p) && Effect(db, p, now, t) && r.value.sequence == |t.events| else t == db
  {
  }

  // ------------------------------------------------------------ the other transactions --

  /** A response is stored exactly when its id is free and the generation stands; a stored one is
      returned to its own inputs and to no others. */
  lemma PublishMeans(db: Db, r: Response, k: int, now: int)
    ensures var (t, outcome) := PublishTo(db, r, k, now);
            && (outcome == Changed <==> r.requestId !in db.impressions && db.generation != r.generation)
            && (outcome == Conflict <==>
                  r.requestId in db.impressions &&
                  (db.impressions[r.requestId].user != r.userId || db.impressions[r.requestId].k != k))
            && (if r.requestId !in db.impressions && db.generation == r.generation then
                  && outcome == Done(r)
                  && t.impressions == db.impressions[r.requestId := Impression(r.userId, k, now, r)]
                  && (forall q :: q in t.exposures <==>
                        (q in db.exposures ||
                         (q.0 == r.requestId && exists j :: 0 <= j < |r.items| && r.items[j].item == q.1)))
                  && t == db.(impressions := t.impressions, exposures := t.exposures)
                else t == db && (outcome.Done? ==> outcome == Done(db.impressions[r.requestId].response)))
  {
  }

  /** A snapshot is the state a user's ranking depends on. */
  lemma SnapshotMeans(db: Db, user: Id)
    ensures var s := SnapshotOf(db, user);
            && s.generation == db.generation && s.unavailable == db.unavailable && s.features == db.features
            && (forall x :: x in s.blocked <==> (user, x) in db.blocked)
            && (s.lastCommittedMs.None? <==> db.events == [])
            && (s.lastCommittedMs.Some? ==>
                  (exists i :: 0 <= i < |db.events| && db.events[i].committedMs == s.lastCommittedMs.value) &&
                  forall i :: 0 <= i < |db.events| ==> db.events[i].committedMs <= s.lastCommittedMs.value)
  {
    LastIsMax(db.events);
    forall x ensures x in SnapshotOf(db, user).blocked <==> (user, x) in db.blocked {
      BlockedPair(db.blocked, user, x);
    }
  }

  lemma {:induction false} LastIsMax(events: seq<Row>)
    ensures LastCommitted(events).None? <==> events == []
    ensures LastCommitted(events).Some? ==>
              (exists i :: 0 <= i < |events| && events[i].committedMs == LastCommitted(events).value) &&
              forall i :: 0 <= i < |events| ==> events[i].committedMs <= LastCommitted(events).value
  {
    if events != [] {
      var n := |events| - 1;
      LastIsMax(events[..n]);
      if LastCommitted(events[..n]).Some? {
        var i :| 0 <= i < n && events[..n][i].committedMs == LastCommitted(events[..n]).value;
        assert events[i] == events[..n][i];
      }
      forall i | 0 <= i <= n ensures events[i].committedMs <= LastCommitted(events).value {
        if i < n { assert events[i] == events[..n][i]; }
      }
      assert LastCommitted(events).value == events[n].committedMs || LastCommitted(events[..n]).Some?;
    }
  }

  // ------------------------------------------------------------------------ ranking --

  /** The items a user may be shown: in the catalogue, and neither seen in training, nor blocked, nor
      unavailable. */
  lemma CatalogueMeans(m: Model, user: Id, snap: Snapshot, x: Id)
    ensures x in Catalogue(m, user, snap) <==>
            && x in m.items && (user in m.seen ==> x !in m.seen[user])
            && x !in snap.blocked && x !in snap.unavailable
  {
    assert m.items[..|m.items|] == m.items;
  }

  /** An item's score is its retrieval score and a twentieth of its saves over its displays and two. */
  lemma AdjustedMeans(candidates: map<Id, real>, features: map<Id, Counts>, x: Id)
    requires x in candidates
    ensures x in Adjusted(candidates, features)
    ensures var shown := if x in features then features[x].shown else 0;
            var saved := if x in features then features[x].saved else 0;
            Adjusted(candidates, features)[x] == candidates[x] + 0.05 * (saved as real) / ((shown + 2) as real)
  {
  }

  // ------------------------------------------------------------------ replenishment --

  /** The sizes of successive requests: 64, doubling, and never above 512 or the catalogue. */
  ghost predicate Sizes(m: Model, sizes: seq<nat>) {
    && |sizes| >= 1 && sizes[0] == Min(64, |m.items|)
    && forall t :: 0 < t < |sizes| ==> sizes[t] == Min(Min(2 * sizes[Before(t)], 512), |m.items|)
  }

  ghost function Before(t: nat): nat
    requires t > 0
  {
    t - 1
  }

  /** All replies of the first `n` requests, later ones replacing earlier scores. */
  ghost function Merged(upstream: nat -> Reply, sizes: seq<nat>, n: nat): map<Id, real>
    requires n <= |sizes|
  {
    if n == 0 then map[]
    else Merged(upstream, sizes, n - 1) + (match upstream(sizes[n - 1]) case Got(found) => found case Failed => map[])
  }

  /** That many of the candidates may be shown. */
  ghost predicate Enough(m: Model, user: Id, snap: Snapshot, candidates: map<Id, real>, k: nat) {
    |Catalogue(m, user, snap) * candidates.Keys| >= k
  }

  /** When the loop goes on after a reply: it did not fail, what was returned so far is not enough,
      and there is more to ask for. */
  ghost function Continues(m: Model, user: Id, snap: Snapshot, k: nat): (Reply, map<Id, real>, nat) -> bool {
    (reply: Reply, now: map<Id, real>, size: nat) =>
      reply.Got? && !Enough(m, user, snap, now, k) && size < Min(512, |m.items|)
  }

  /** The loop went on after request `t`. */
  ghost predicate GoesOn(goes: (Reply, map<Id, real>, nat) -> bool, upstream: nat -> Reply, sizes: seq<nat>, t: nat)
    requires t < |sizes|
  {
    goes(upstream(sizes[t]), Merged(upstream, sizes, t + 1), sizes[t])
  }

  /** The loop went on after all requests but the last one. */
  ghost predicate WentOn(goes: (Reply, map<Id, real>, nat) -> bool, upstream: nat -> Reply, sizes: seq<nat>) {
    forall t :: 0 <= t < |sizes| - 1 ==> GoesOn(goes, upstream, sizes, t)
  }

  /** The requests so far. */
  ghost predicate Asked(m: Model, user: Id, snap: Snapshot, upstream: nat -> Reply, k: nat, sizes: seq<nat>) {
    Sizes(m, sizes) && WentOn(Continues(m, user, snap, k), upstream, sizes)
  }

  /** `sizes` are the requests that were made and `g` is what came of them: everything they returned,
      or nothing after a failure. */
  ghost predicate GatheredBy(m: Model, user: Id, snap: Snapshot, upstream: nat -> Reply, k: nat, sizes: seq<nat>,
                             g: Gathered)
  {
    && Asked(m, user, snap, upstream, k, sizes)
    && !GoesOn(Continues(m, user, snap, k), upstream, sizes, |sizes| - 1)
    && g == if upstream(sizes[|sizes| - 1]).Failed? then Gathered(map[], true)
            else Gathered(Merged(upstream, sizes, |sizes|), false)
  }

  lemma RankLength(m: Model, candidates: map<Id, real>, user: Id, snap: Snapshot)
    requires ModelOk(m)
    ensures |Rank(m, candidates, SeenBy(m, user), snap)| == |Catalogue(m, user, snap) * candidates.Keys|
  {
    RankIsRanking(m, candidates, user, snap);
  }

  ghost function NextSize(m: Model, size: nat): nat { Min(Min(2 * size, 512), |m.items|) }

  lemma AskedMore(m: Model, user: Id, snap: Snapshot, upstream: nat -> Reply, k: nat, sizes: seq<nat>, more: seq<nat>)
    requires Asked(m, user, snap, upstream, k, sizes) && GoesOn(Continues(m, user, snap, k), upstream, sizes, |sizes| - 1)
    requires more == sizes + [NextSize(m, sizes[|sizes| - 1])]
    ensures Asked(m, user, snap, upstream, k, more)
  {
    WentMore(Continues(m, user, snap, k), upstream, sizes, more);
    SizesMore(m, sizes, more);
  }

  lemma WentMore(goes: (Reply, map<Id, real>, nat) -> bool, upstream: nat -> Reply, sizes: seq<nat>, more: seq<nat>)
    requires WentOn(goes, upstream, sizes) && |sizes| >= 1 && GoesOn(goes, upstream, sizes, |sizes| - 1)
    requires sizes <= more && |more| == |sizes| + 1
    ensures WentOn(goes, upstream, more)
  {
    forall t | 0 <= t < |more| - 1 ensures GoesOn(goes, upstream, more, t) {
      assert GoesOn(goes, upstream, sizes, t);
      MergedSame(upstream, sizes, more, t + 1);
    }
  }

  lemma SizesMore(m: Model, sizes: seq<nat>, more: seq<nat>)
    requires Sizes(m, sizes) && more == sizes + [NextSize(m, sizes[|sizes| - 1])]
    ensures Sizes(m, more)
  {
    forall t | 0 < t < |more| ensures more[t] == Min(Min(2 * more[Before(t)], 512), |m.items|) {
      if t < |sizes| { assert more[t] == sizes[t] && more[Before(t)] == sizes[Before(t)]; }
    }
  }

  /** The last turn of the loop. */
  lemma GatherTurn(m: Model, user: Id, snap: Snapshot, upstream: nat -> Reply, k: nat, sizes: seq<nat>, count: nat)
    requires ModelOk(m) && |sizes| >= 1 && count == sizes[|sizes| - 1] >= Min(1, Limit(m))
    requires !GoesOn(Continues(m, user, snap, k), upstream, sizes, |sizes| - 1)
    ensures Gather(m, user, snap, upstream, k, count, Merged(upstream, sizes, |sizes| - 1)) ==
              if upstream(count).Failed? then Gathered(map[], true)
              else Gathered(Merged(upstream, sizes, |sizes|), false)
  {
    var n := |sizes| - 1;
    match upstream(count)
    case Failed =>
    case Got(found) =>
      assert Merged(upstream, sizes, |sizes|) == Merged(upstream, sizes, n) + found;
      RankLength(m, Merged(upstream, sizes, n) + found, user, snap);
  }

  /** What the loop comes to from the last of the requests on. */
  ghost function Rest(m: Model, user: Id, snap: Snapshot, upstream: nat -> Reply, k: nat, sizes: seq<nat>): Gathered
    requires |sizes| >= 1 && sizes[|sizes| - 1] >= Min(1, Limit(m))
  {
    Gather(m, user, snap, upstream, k, sizes[|sizes| - 1], Merged(upstream, sizes, |sizes| - 1))
  }

  lemma GatherEnds(m: Model, user: Id, snap: Snapshot, upstream: nat -> Reply, k: nat, sizes: seq<nat>)
    requires ModelOk(m) && Asked(m, user, snap, upstream, k, sizes) && sizes[|sizes| - 1] >= Min(1, Limit(m))
    requires !GoesOn(Continues(m, user, snap, k), upstream, sizes, |sizes| - 1)
    ensures GatheredBy(m, user, snap, upstream, k, sizes, Rest(m, user, snap, upstream, k, sizes))
  {
    GatherTurn(m, user, snap, upstream, k, sizes, sizes[|sizes| - 1]);
  }

  lemma ShortRank(m: Model, user: Id, snap: Snapshot, upstream: nat -> Reply, k: nat, sizes: seq<nat>)
    requires ModelOk(m) && |sizes| >= 1 && GoesOn(Continues(m, user, snap, k), upstream, sizes, |sizes| - 1)
    ensures |Rank(m, Merged(upstream, sizes, |sizes|), SeenBy(m, user), snap)| < k
  {
    RankLength(m, Merged(upstream, sizes, |sizes|), user, snap);
  }

  lemma GatherMore(m: Model, user: Id, snap: Snapshot, upstream: nat -> Reply, k: nat, sizes: seq<nat>, more: seq<nat>)
    requires |sizes| >= 1 && Min(1, Limit(m)) <= sizes[|sizes| - 1] < Limit(m) && upstream(sizes[|sizes| - 1]).Got?
    requires |Rank(m, Merged(upstream, sizes, |sizes|), SeenBy(m, user), snap)| < k
    requires |more| == |sizes| + 1 && more[|sizes|] == NextSize(m, sizes[|sizes| - 1]) >= Min(1, Limit(m))
    requires Merged(upstream, more, |sizes|) == Merged(upstream, sizes, |sizes|)
    ensures Rest(m, user, snap, upstream, k, more) == Rest(m, user, snap, upstream, k, sizes)
  {
  }

  lemma NextIsMore(m: Model, size: nat)
    requires Min(1, Limit(m)) <= size < Limit(m)
    ensures size < NextSize(m, size) <= Limit(m)
  {
  }

  lemma {:induction false} GatherFrom(m: Model, user: Id, snap: Snapshot, upstream: nat -> Reply, k: nat,
                                      sizes: seq<nat>) returns (all: seq<nat>)
    requires ModelOk(m) && Asked(m, user, snap, upstream, k, sizes) && sizes[|sizes| - 1] >= Min(1, Limit(m))
    ensures GatheredBy(m, user, snap, upstream, k, all, Rest(m, user, snap, upstream, k, sizes))
    decreases Limit(m) - sizes[|sizes| - 1]
  {
    if GoesOn(Continues(m, user, snap, k), upstream, sizes, |sizes| - 1) {
      var more := sizes + [NextSize(m, sizes[|sizes| - 1])];
      AskedMore(m, user, snap, upstream, k, sizes, more);
      NextIsMore(m, sizes[|sizes| - 1]);
      MergedSame(upstream, sizes, more, |sizes|);
      ShortRank(m, user, snap, upstream, k, sizes);
      GatherMore(m, user, snap, upstream, k, sizes, more);
      all := GatherFrom(m, user, snap, upstream, k, more);
    } else {
      all := sizes;
      GatherEnds(m, user, snap, upstream, k, sizes);
    }
  }

  lemma {:induction false} MergedSame(upstream: nat -> Reply, s: seq<nat>, t: seq<nat>, n: nat)
    requires n <= |s| && s <= t
    ensures Merged(upstream, s, n) == Merged(upstream, t, n)
  {
    if n > 0 { MergedSame(upstream, s, t, n - 1); }
  }

  /** A known user's candidates are everything that was returned to requests of 64, 128, 256 and 512
      items, until enough of them may be shown or there is nothing more to ask for; a failure leaves
      none, and an unknown user has none. */
  lemma RetrievedMeans(m: Model, user: Id, snap: Snapshot, upstream: nat -> Reply, k: nat)
    requires ModelOk(m)
    ensures user !in m.users ==> Retrieved(m, user, snap, upstream, k) == Gathered(map[], false)
    ensures user in m.users ==>
              exists sizes :: GatheredBy(m, user, snap, upstream, k, sizes, Retrieved(m, user, snap, upstream, k))
  {
    if user in m.users {
      var all := GatherFrom(m, user, snap, upstream, k, [Min(64, |m.items|)]);
      assert GatheredBy(m, user, snap, upstream, k, all, Retrieved(m, user, snap, upstream, k));
    }
  }

  // --------------------------------------------------------------------------- fill --

  /** The lowest retrieved score, or zero if nothing was retrieved. */
  ghost predicate Lowest(candidates: map<Id, real>, low: real) {
    if candidates == map[] then low == 0.0
    else (exists y :: y in candidates && candidates[y] == low) && forall z :: z in candidates ==> candidates[z] >= low
  }

  lemma {:induction false} LeastAttained(items: seq<Id>, scores: map<Id, real>, n: nat)
    requires n <= |items|
    ensures LeastTo(items, scores, n).Some? ==>
              exists y :: y in scores && y in items[..n] && scores[y] == LeastTo(items, scores, n).value
    ensures LeastTo(items, scores, n).None? <==> forall y :: y in items[..n] ==> y !in scores
  {
    if n > 0 {
      LeastAttained(items, scores, n - 1);
      assert items[..n] == items[..n - 1] + [items[n - 1]];
    }
  }

  /** A fill item scores one below the lowest retrieved score, and lower the less popular it is; every
      retrieved item keeps its score. */
  lemma FilledMeans(m: Model, candidates: map<Id, real>, low: real)
    requires ModelOk(m) && candidates.Keys <= IdsTo(m.items, |m.items|) && Lowest(candidates, low)
    ensures Filled(m, candidates).Keys == IdsTo(m.items, |m.items|)
    ensures forall x :: x in candidates ==> Filled(m, candidates)[x] == candidates[x]
    ensures forall p :: 0 <= p < |m.popular| && m.popular[p] !in candidates ==>
              m.popular[p] in Filled(m, candidates) && Filled(m, candidates)[m.popular[p]] == FillScore(m, low, p)
  {
    FilledAll(m, candidates);
    FloorIs(m, candidates, low);
    FillFacts(m.popular, candidates, Floor(m, candidates), |m.items|, |m.popular|);
    forall p | 0 <= p < |m.popular| && m.popular[p] !in candidates
      ensures m.popular[p] in Filled(m, candidates) && Filled(m, candidates)[m.popular[p]] == FillScore(m, low, p)
    {
      FillAt(m.popular, candidates, low - 1.0, |m.items|, |m.popular|, p);
    }
  }

  /** The fill score of the p-th popular item. */
  ghost function FillScore(m: Model, low: real, p: nat): real {
    low - 1.0 - (p as real) / (Max(1, |m.items|) as real)
  }

  lemma FloorIs(m: Model, candidates: map<Id, real>, low: real)
    requires candidates.Keys <= IdsTo(m.items, |m.items|) && Lowest(candidates, low)
    ensures Floor(m, candidates) == low - 1.0
  {
    LeastAttained(m.items, candidates, |m.items|);
    assert m.items[..|m.items|] == m.items;
    if candidates != map[] {
      var y :| y in candidates && candidates[y] == low;
      LeastBelow(m.items, candidates, |m.items|, y);
    }
  }

  lemma {:induction false} FillAt(popular: seq<Id>, candidates: map<Id, real>, floor: real, n: nat, p: nat, at: nat)
    requires at < p <= |popular| && NoDuplicates(popular) && popular[at] !in candidates
    ensures popular[at] in FillTo(popular, candidates, floor, n, p)
    ensures FillTo(popular, candidates, floor, n, p)[popular[at]] == floor - Share(at, n)
  {
    FillFacts(popular, candidates, floor, n, p - 1);
    if at < p - 1 {
      FillAt(popular, candidates, floor, n, p - 1, at);
    } else {
      assert popular[at] !in popular[..at];
    }
  }

  // ------------------------------------------------------------------------ answers --

  /** How the items of a response are scored, given what was retrieved: `enough` retrieved items may be
      shown, or the others fill up below them. */
  ghost predicate ScoredFrom(m: Model, snap: Snapshot, g: map<Id, real>, low: real, enough: bool, e: Scored) {
    var shown := if e.item in snap.features then snap.features[e.item].shown else 0;
    var saved := if e.item in snap.features then snap.features[e.item].saved else 0;
    var bonus := 0.05 * (saved as real) / ((shown + 2) as real);
    if e.item in g then e.score == g[e.item] + bonus
    else !enough && exists p :: 0 <= p < |m.popular| && m.popular[p] == e.item &&
                                e.score == FillScore(m, low, p) + bonus
  }

  /** Everything a response says, in terms of the snapshot and what was retrieved. */
  lemma AnswerMeans(m: Model, snap: Snapshot, requestId: Id, user: Id, k: nat, upstream: nat -> Reply, low: real)
    requires ModelOk(m) && UpstreamOk(m, upstream) && Lowest(Retrieved(m, user, snap, upstream, k).candidates, low)
    ensures var r, g := Answer(m, snap, requestId, user, k, upstream), Retrieved(m, user, snap, upstream, k);
            var enough := Enough(m, user, snap, g.candidates, k);
            && r.requestId == requestId && r.userId == user && r.generation == snap.generation
            && r.lastCommittedMs == snap.lastCommittedMs
            && (r.source == ColdStart <==> user !in m.users)
            && (r.source == UpstreamUnavailable <==> user in m.users && g.failed)
            && (r.source == Retrieval <==> user in m.users && !g.failed && enough)
            && (r.degraded <==> user in m.users && g.failed)
            && forall i :: 0 <= i < |r.items| ==> ScoredFrom(m, snap, g.candidates, low, enough, r.items[i])
  {
    var g := Retrieved(m, user, snap, upstream, k);
    RetrievedWithin(m, user, snap, upstream, k);
    RankLength(m, g.candidates, user, snap);
    FinalScores(m, user, snap, g.candidates, k, Final(m, user, snap, g.candidates, k), low);
  }

  /** No eligible item that could be shown and is not would score higher than one that is. */
  lemma AnswerBest(m: Model, snap: Snapshot, requestId: Id, user: Id, k: nat, upstream: nat -> Reply, low: real,
                   e: Scored)
    requires ModelOk(m) && UpstreamOk(m, upstream) && Lowest(Retrieved(m, user, snap, upstream, k).candidates, low)
    requires e.item in Catalogue(m, user, snap)
    requires var g := Retrieved(m, user, snap, upstream, k).candidates;
             ScoredFrom(m, snap, g, low, Enough(m, user, snap, g, k), e)
    ensures var r := Answer(m, snap, requestId, user, k, upstream);
            Listed(r.items, e.item) || forall i :: 0 <= i < |r.items| ==> r.items[i].score >= e.score
  {
    var g := Retrieved(m, user, snap, upstream, k).candidates;
    RetrievedWithin(m, user, snap, upstream, k);
    var j := FinalHas(m, user, snap, g, k, low, e);
    CutBest(Final(m, user, snap, g, k), k, e, j);
  }

  lemma CutBest(w: seq<Scored>, k: nat, e: Scored, j: nat)
    requires BestFirst(w) && j < |w| && w[j].item == e.item && w[j].score == e.score
    ensures Listed(Cut(w, k), e.item) || forall i :: 0 <= i < |Cut(w, k)| ==> Cut(w, k)[i].score >= e.score
  {
    if j < k { assert Cut(w, k)[j].item == e.item; }
  }

  lemma InRanking(scores: map<Id, real>, ids: set<Id>, w: seq<Scored>, e: Scored) returns (j: nat)
    requires IsRanking(scores, ids, w) && e.item in ids && e.item in scores && scores[e.item] == e.score
    ensures j < |w| && w[j].item == e.item && w[j].score == e.score
  {
    assert Listed(w, e.item);
    j :| 0 <= j < |w| && w[j].item == e.item;
  }

  /** An eligible item that may be shown is in the final ranking, with its score. */
  lemma FinalHas(m: Model, user: Id, snap: Snapshot, g: map<Id, real>, k: nat, low: real, e: Scored) returns (j: nat)
    requires ModelOk(m) && g.Keys <= IdsTo(m.items, |m.items|) && Lowest(g, low)
    requires e.item in Catalogue(m, user, snap) && ScoredFrom(m, snap, g, low, Enough(m, user, snap, g, k), e)
    ensures BestFirst(Final(m, user, snap, g, k)) && j < |Final(m, user, snap, g, k)|
    ensures Final(m, user, snap, g, k)[j].item == e.item && Final(m, user, snap, g, k)[j].score == e.score
  {
    FinalIsRanking(m, user, snap, g, k);
    RankLength(m, g, user, snap);
    if Enough(m, user, snap, g, k) {
      j := RetrievedHas(m, user, snap, g, low, e);
    } else {
      ScoreIs(m, snap, g, low, e);
      j := InRanking(Adjusted(Filled(m, g), snap.features), Catalogue(m, user, snap), Final(m, user, snap, g, k), e);
    }
  }

  lemma RetrievedHas(m: Model, user: Id, snap: Snapshot, g: map<Id, real>, low: real, e: Scored) returns (j: nat)
    requires ModelOk(m) && e.item in Catalogue(m, user, snap) && ScoredFrom(m, snap, g, low, true, e)
    ensures var w := Rank(m, g, SeenBy(m, user), snap);
            BestFirst(w) && j < |w| && w[j].item == e.item && w[j].score == e.score
  {
    RankIsRanking(m, g, user, snap);
    AdjustedMeans(g, snap.features, e.item);
    j := InRanking(Adjusted(g, snap.features), Catalogue(m, user, snap) * g.Keys, Rank(m, g, SeenBy(m, user), snap), e);
  }

  lemma ScoreIs(m: Model, snap: Snapshot, g: map<Id, real>, low: real, e: Scored)
    requires ModelOk(m) && g.Keys <= IdsTo(m.items, |m.items|) && Lowest(g, low)
    requires ScoredFrom(m, snap, g, low, false, e)
    ensures e.item in Adjusted(Filled(m, g), snap.features)
    ensures Adjusted(Filled(m, g), snap.features)[e.item] == e.score
  {
    FilledMeans(m, g, low);
    if e.item !in g {
      var p :| 0 <= p < |m.popular| && m.popular[p] == e.item;
      assert Filled(m, g)[m.popular[p]] == FillScore(m, low, p);
    }
    AdjustedMeans(Filled(m, g), snap.features, e.item);
  }

  lemma FinalScores(m: Model, user: Id, snap: Snapshot, g: map<Id, real>, k: nat, w: seq<Scored>, low: real)
    requires ModelOk(m) && g.Keys <= IdsTo(m.items, |m.items|) && w == Final(m, user, snap, g, k) && Lowest(g, low)
    ensures forall i :: 0 <= i < |w| ==> ScoredFrom(m, snap, g, low, Enough(m, user, snap, g, k), w[i])
  {
    RankIsRanking(m, g, user, snap);
    FinalIsRanking(m, user, snap, g, k);
    RankLength(m, g, user, snap);
    forall i | 0 <= i < |w| ensures ScoredFrom(m, snap, g, low, Enough(m, user, snap, g, k), w[i]) {
      if Enough(m, user, snap, g, k) {
        RankedScore(m, snap, g, low, w[i]);
      } else {
        FilledScore(m, snap, g, low, w[i]);
      }
    }
  }

  lemma RankedScore(m: Model, snap: Snapshot, g: map<Id, real>, low: real, e: Scored)
    requires e.item in g && e.score == Adjusted(g, snap.features)[e.item]
    ensures ScoredFrom(m, snap, g, low, true, e)
  {
    AdjustedMeans(g, snap.features, e.item);
  }

  lemma FilledScore(m: Model, snap: Snapshot, g: map<Id, real>, low: real, e: Scored)
    requires ModelOk(m) && g.Keys <= IdsTo(m.items, |m.items|) && Lowest(g, low)
    requires e.item in Filled(m, g) && e.score == Adjusted(Filled(m, g), snap.features)[e.item]
    ensures ScoredFrom(m, snap, g, low, false, e)
  {
    AdjustedMeans(Filled(m, g), snap.features, e.item);
    if e.item in g {
      KeptScore(m, g, low, e.item);
    } else {
      var p := FillIs(m, g, low, e.item);
    }
  }

  lemma KeptScore(m: Model, g: map<Id, real>, low: real, x: Id)
    requires ModelOk(m) && g.Keys <= IdsTo(m.items, |m.items|) && Lowest(g, low) && x in g
    ensures x in Filled(m, g) && Filled(m, g)[x] == g[x]
  {
    FilledMeans(m, g, low);
  }

  lemma FillIs(m: Model, g: map<Id, real>, low: real, x: Id) returns (p: nat)
    requires ModelOk(m) && g.Keys <= IdsTo(m.items, |m.items|) && Lowest(g, low) && x !in g && x in Filled(m, g)
    ensures p < |m.popular| && m.popular[p] == x && Filled(m, g)[x] == FillScore(m, low, p)
  {
    FilledMeans(m, g, low);
    PopularAt(m, x);
    p :| 0 <= p < |m.popular| && m.popular[p] == x;
    assert Filled(m, g)[m.popular[p]] == FillScore(m, low, p);
  }

  lemma PopularAt(m: Model, x: Id)
    requires ModelOk(m) && x in IdsTo(m.items, |m.items|)
    ensures exists p :: 0 <= p < |m.popular| && m.popular[p] == x
  {
    assert m.items[..|m.items|] == m.items;
    assert x in m.popular;
  }
}
