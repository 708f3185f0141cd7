/** Many clients, feedback and availability changes interleaving over one pilot store. */
module PilotRuns {
  import opened Basics
  import opened PilotModels
  import opened PilotPolicies
  import opened PilotStores

  // ------------------------------------------------------- journal and projection --

  datatype Projection = Projection(features: map<Id, Counts>, blocked: set<(Id, Id)>)

  /** The projection rebuilt from the journal alone. */
  function Replay(events: seq<Row>): Projection {
    if events == [] then Projection(map[], {})
    else
      var before, e := Replay(events[..|events| - 1]), events[|events| - 1];
      Projection(Count(before.features, e), Block(before.blocked, e))
  }

  /** A journal row: its columns repeat its payload. */
  ghost predicate RowFits(e: Row) {
    WellFormed(e.payload) && e == RowFor(e.payload, e.committedMs)
  }

  /** No event id occurs twice, and no action on an item of a response. */
  ghost predicate OncePerAction(events: seq<Row>) {
    forall i, j :: 0 <= i < j < |events| ==>
      events[i].eventId != events[j].eventId && !Matches(events[i], events[j].request, events[j].item, events[j].kind)
  }

  /** Every outcome refers to an item that was acknowledged as shown in the same response. */
  ghost predicate ShownFirst(events: seq<Row>) {
    forall i :: 0 <= i < |events| ==> Recorded(events, events[i].request, events[i].item, Shown)
  }

  /** Every row refers to an item of a stored response for the same user. */
  ghost predicate Issued(db: Db, e: Row) {
    e.request in db.impressions && db.impressions[e.request].user == e.user && (e.request, e.item) in db.exposures
  }

  ghost predicate Exposures(db: Db) {
    forall p :: p in db.exposures <==> p.0 in db.impressions && p.1 in ItemsOf(db.impressions[p.0].response)
  }

  ghost predicate Sound(db: Db) {
    && (forall i :: 0 <= i < |db.events| ==> RowFits(db.events[i]) && Issued(db, db.events[i]))
    && OncePerAction(db.events) && ShownFirst(db.events)
    && Projection(db.features, db.blocked) == Replay(db.events)
    && Exposures(db)
    && forall r :: r in db.impressions ==>
         db.impressions[r].response.requestId == r && db.impressions[r].response.userId == db.impressions[r].user
  }

  lemma JournalAppend(events: seq<Row>, e: Row)
    requires OncePerAction(events) && ShownFirst(events)
    requires FindEvent(events, e.eventId).None? && !Recorded(events, e.request, e.item, e.kind)
    requires e.kind == Shown || Recorded(events, e.request, e.item, Shown)
    ensures OncePerAction(events + [e]) && ShownFirst(events + [e])
  {
    var after := events + [e];
    assert after[|events|] == e;
    forall i | 0 <= i < |after| ensures Recorded(after, after[i].request, after[i].item, Shown) {
      if i == |events| && e.kind == Shown {
        assert Matches(after[i], e.request, e.item, Shown);
      } else {
        assert Recorded(events, after[i].request, after[i].item, Shown);
        var t :| 0 <= t < |events| && Matches(events[t], after[i].request, after[i].item, Shown);
        assert Matches(after[t], after[i].request, after[i].item, Shown);
      }
    }
  }

  lemma SoundAppend(db: Db, p: Payload, now: int)
    requires Sound(db) && WellFormed(p) && FindEvent(db.events, p.eventId).None? && Refusal(db, p, now).None?
    ensures Sound(Append(db, RowFor(p, now)))
  {
    var e := RowFor(p, now);
    JournalAppend(db.events, e);
    ReplayAppend(db.events, e);
  }

  lemma ReplayAppend(events: seq<Row>, e: Row)
    ensures Replay(events + [e]) == Projection(Count(Replay(events).features, e), Block(Replay(events).blocked, e))
  {
    assert (events + [e])[..|events|] == events;
  }

  lemma SoundApply(db: Db, p: Payload, now: int)
    requires Sound(db)
    ensures Sound(ApplyTo(db, p, now).0)
  {
    if WellFormed(p) && FindEvent(db.events, p.eventId).None? && Refusal(db, p, now).None? { SoundAppend(db, p, now); }
  }

  lemma SoundPublish(db: Db, r: Response, k: int, now: int)
    requires Sound(db)
    ensures Sound(PublishTo(db, r, k, now).0)
  {
    var after := PublishTo(db, r, k, now).0;
    forall i | 0 <= i < |db.events| ensures Issued(after, db.events[i]) { assert Issued(db, db.events[i]); }
    if after != db { ExposuresPublish(db, after, r); }
  }

  lemma ExposuresPublish(db: Db, after: Db, r: Response)
    requires Exposures(db) && r.requestId !in db.impressions && r.requestId in after.impressions
    requires after.impressions[r.requestId].response == r && after.exposures == db.exposures + Exposed(r)
    requires after.impressions.Keys == db.impressions.Keys + {r.requestId}
    requires forall x :: x in db.impressions ==> after.impressions[x] == db.impressions[x]
    ensures Exposures(after)
  {
  }

  // ------------------------------------------------------------ what counters mean --

  /** The responses in which an item received an action, over the first `n` rows. */
  ghost function Requests(events: seq<Row>, item: Id, kind: Kind, n: nat): set<Id>
    requires n <= |events|
  {
    if n == 0 then {}
    else if events[n - 1].item == item && events[n - 1].kind == kind
    then Requests(events, item, kind, n - 1) + {events[n - 1].request}
    else Requests(events, item, kind, n - 1)
  }

  lemma {:induction false} RequestsAre(events: seq<Row>, item: Id, kind: Kind, n: nat, r: Id)
    requires n <= |events|
    ensures r in Requests(events, item, kind, n) <==> exists i :: 0 <= i < n && Matches(events[i], r, item, kind)
  {
    if n > 0 { RequestsAre(events, item, kind, n - 1, r); }
  }

  ghost function CountOf(features: map<Id, Counts>, item: Id): Counts {
    if item in features then features[item] else Counts(0, 0)
  }

  /** A counter is the number of responses in which the action was recorded: each counts once. */
  lemma {:induction false} ReplayCounts(events: seq<Row>, item: Id, n: nat)
    requires n <= |events| && OncePerAction(events)
    ensures CountOf(Replay(events[..n]).features, item) ==
            Counts(|Requests(events, item, Shown, n)|, |Requests(events, item, Save, n)|)
  {
    if n > 0 {
      ReplayCounts(events, item, n - 1);
      assert events[..n][..n - 1] == events[..n - 1];
      var e := events[n - 1];
      RequestsAre(events, item, e.kind, n - 1, e.request);
    }
  }

  /** In every sound store an item was saved at most as often as it was shown. */
  lemma SavedAtMostShown(db: Db)
    requires Sound(db)
    ensures Plausible(db.features)
  {
    var n := |db.events|;
    assert db.events[..n] == db.events;
    forall x | x in db.features ensures db.features[x].saved <= db.features[x].shown {
      ReplayCounts(db.events, x, n);
      var shown, saved := Requests(db.events, x, Shown, n), Requests(db.events, x, Save, n);
      forall r | r in saved ensures r in shown {
        RequestsAre(db.events, x, Save, n, r);
        RequestsAre(db.events, x, Shown, n, r);
        var i :| 0 <= i < n && Matches(db.events[i], r, x, Save);
        assert Recorded(db.events, db.events[i].request, db.events[i].item, Shown);
      }
      assert shown == saved + (shown - saved);
    }
  }

  lemma OnePosition(events: seq<Row>, i: nat, j: nat)
    requires OncePerAction(events) && i < |events| && j < |events| && events[i].eventId == events[j].eventId
    ensures i == j
  {
  }

  /** Sending an accepted event again at any later time returns its number and changes nothing. */
  lemma DuplicateChangesNothing(db: Db, p: Payload, now: int, later: Db, clock: int)
    requires Sound(db) && ApplyTo(db, p, now).1.Done? && Sound(later) && ApplyTo(db, p, now).0.events <= later.events
    ensures ApplyTo(later, p, clock) == (later, Done(Receipt(true, ApplyTo(db, p, now).1.value.sequence)))
  {
    AcceptedAgain(db, p, now, later, clock);
  }

  lemma AcceptedAgain(db: Db, p: Payload, now: int, later: Db, clock: int)
    requires ApplyTo(db, p, now).1.Done? && forall i :: 0 <= i < |db.events| ==> RowFits(db.events[i])
    requires OncePerAction(later.events) && ApplyTo(db, p, now).0.events <= later.events
    ensures ApplyTo(later, p, clock) == (later, Done(Receipt(true, ApplyTo(db, p, now).1.value.sequence)))
  {
    var at := AcceptedAt(db, p, now);
    assert later.events[at] == ApplyTo(db, p, now).0.events[at];
    AnswersDuplicate(later, p, clock, at);
  }

  lemma AnswersDuplicate(db: Db, p: Payload, now: int, at: nat)
    requires OncePerAction(db.events) && WellFormed(p) && at < |db.events|
    requires db.events[at].payload == p && db.events[at].eventId == p.eventId
    ensures ApplyTo(db, p, now) == (db, Done(Receipt(true, at + 1)))
  {
    OnePosition(db.events, FindEvent(db.events, p.eventId).value, at);
  }

  /** An accepted event stands in the journal at its sequence number. */
  lemma AcceptedAt(db: Db, p: Payload, now: int) returns (at: nat)
    requires ApplyTo(db, p, now).1.Done? && forall i :: 0 <= i < |db.events| ==> RowFits(db.events[i])
    ensures at < |ApplyTo(db, p, now).0.events| && at + 1 == ApplyTo(db, p, now).1.value.sequence
    ensures ApplyTo(db, p, now).0.events[at].payload == p && ApplyTo(db, p, now).0.events[at].eventId == p.eventId
    ensures WellFormed(p)
  {
    at := ApplyTo(db, p, now).1.value.sequence - 1;
  }

  // ------------------------------------------------------------- clients and runs --

  /** What the other side of a recommendation call is doing. */
  datatype Client = Idle
    | Ready(request: Id, user: Id, k: int, attempt: nat)
    | Holding(request: Id, user: Id, k: int, attempt: nat, snap: Snapshot)
    | Finished(request: Id, user: Id, k: int, outcome: Outcome<Response>)

  datatype State = State(db: Db, clients: map<nat, Client>)

  datatype Action =
    | Begin(client: nat, request: Id, user: Id, k: int)
    | Read(client: nat)
    | Commit(client: nat, upstream: nat -> Reply, now: int)
    | Feed(payload: Payload, now: int)
    | Toggle(item: Id, value: bool)

  const ATTEMPTS: nat := 3

  predicate Acceptable(m: Model, request: Id, user: Id, k: int) {
    Identifier(request) && Identifier(user) && 1 <= k <= 50 && (user in m.users || user in m.guests)
  }

  /** Validate the request and look for a stored response. */
  function BeginStep(m: Model, db: Db, request: Id, user: Id, k: int): Client {
    if !Acceptable(m, request, user, k) then Finished(request, user, k, Invalid)
    else match Cached(db.impressions, request, user, k)
      case Done(Some(r)) => Finished(request, user, k, Done(r))
      case Done(None) => Ready(request, user, k, 0)
      case _ => Finished(request, user, k, Conflict)
  }

  /** The client's next state after its response was offered to the store. */
  function CommitStep(c: Client, r: Outcome<Response>): Client
    requires c.Holding?
  {
    if r == Changed && c.attempt + 1 < ATTEMPTS then Ready(c.request, c.user, c.k, c.attempt + 1)
    else Finished(c.request, c.user, c.k, r)
  }

  function ClientOf(s: State, c: nat): Client { if c in s.clients then s.clients[c] else Idle }

  /** One transaction. A client that is not at the right point does nothing. */
  function Step(m: Model, s: State, a: Action): State {
    match a
    case Begin(c, request, user, k) =>
      if ClientOf(s, c).Idle? || ClientOf(s, c).Finished?
      then s.(clients := s.clients[c := BeginStep(m, s.db, request, user, k)]) else s
    case Read(c) =>
      var x := ClientOf(s, c);
      if x.Ready?
      then s.(clients := s.clients[c := Holding(x.request, x.user, x.k, x.attempt, SnapshotOf(s.db, x.user))]) else s
    case Commit(c, upstream, now) =>
      var x := ClientOf(s, c);
      if x.Holding? && x.k >= 0
      then
        var r := Answer(m, x.snap, x.request, x.user, x.k, upstream);
        var p := PublishTo(s.db, r, x.k, now);
        State(p.0, s.clients[c := CommitStep(x, p.1)])
      else s
    case Feed(payload, now) => s.(db := ApplyTo(s.db, payload, now).0)
    case Toggle(item, value) => s.(db := SetUnavailableTo(s.db, item, value).0)
  }

  ghost predicate ActionOk(m: Model, a: Action) {
    a.Commit? ==> UpstreamOk(m, a.upstream)
  }

  ghost predicate Start(s: State) {
    s == State(Db(0, map[], {}, [], {}, map[], {}), map[])
  }

  /** Step `i` of a run. */
  ghost predicate StepAt(m: Model, run: seq<State>, acts: seq<Action>, i: nat)
    requires |run| == |acts| + 1 && i < |acts|
  {
    ActionOk(m, acts[i]) && run[i + 1] == Step(m, run[i], acts[i])
  }

  ghost predicate IsRun(m: Model, run: seq<State>, acts: seq<Action>) {
    && |run| == |acts| + 1 && Start(run[0])
    && forall i :: 0 <= i < |acts| ==> StepAt(m, run, acts, i)
  }

  // -------------------------------------------------------------- what never changes --

  /** How a later store relates to an earlier one. */
  ghost predicate Later(a: Db, b: Db) {
    && a.generation <= b.generation && a.events <= b.events
    && (forall r :: r in a.impressions ==> r in b.impressions && b.impressions[r] == a.impressions[r])
    && (a.generation == b.generation ==>
          a.blocked == b.blocked && a.features == b.features && a.unavailable == b.unavailable && a.events == b.events)
  }

  lemma LaterStep(m: Model, s: State, a: Action, t: State)
    requires t == Step(m, s, a)
    ensures Later(s.db, t.db)
  {
  }

  lemma LaterTrans(a: Db, b: Db, c: Db)
    requires Later(a, b) && Later(b, c)
    ensures Later(a, c)
  {
  }

  lemma {:induction false} RunLater(m: Model, run: seq<State>, acts: seq<Action>, i: nat, j: nat)
    requires IsRun(m, run, acts) && i <= j < |run|
    ensures Later(run[i].db, run[j].db)
  {
    if i < j {
      RunLater(m, run, acts, i, j - 1);
      assert StepAt(m, run, acts, j - 1);
      LaterStep(m, run[j - 1], acts[j - 1], run[j]);
      LaterTrans(run[i].db, run[j - 1].db, run[j].db);
    }
  }

  /** Equal generation means an equal snapshot, for every user and wherever in a run it is taken. */
  lemma SameGenerationSameSnapshot(m: Model, run: seq<State>, acts: seq<Action>, i: nat, j: nat, user: Id)
    requires IsRun(m, run, acts) && i < |run| && j < |run| && run[i].db.generation == run[j].db.generation
    ensures SnapshotOf(run[i].db, user) == SnapshotOf(run[j].db, user)
  {
    if i <= j { RunLater(m, run, acts, i, j); } else { RunLater(m, run, acts, j, i); }
  }

  // -------------------------------------------------------------------- invariant --

  /** A snapshot in flight is out of date unless its generation still stands, and then it is exact. */
  ghost predicate ClientOk(db: Db, c: Client) {
    && (c.Holding? ==> c.k >= 1 && c.snap.generation <= db.generation &&
                       (c.snap.generation == db.generation ==> c.snap == SnapshotOf(db, c.user)))
    && (c.Ready? ==> c.k >= 1)
    && (c.Finished? && c.outcome.Done? ==>
          c.request in db.impressions && db.impressions[c.request].user == c.user &&
          db.impressions[c.request].k == c.k &&
          db.impressions[c.request].response == c.outcome.value)
  }

  ghost predicate Inv(s: State) {
    Sound(s.db) && forall c :: c in s.clients ==> ClientOk(s.db, s.clients[c])
  }

  lemma ClientKept(a: Db, b: Db, c: Client)
    requires Later(a, b) && ClientOk(a, c)
    ensures ClientOk(b, c)
  {
  }

  lemma SoundToggle(db: Db, item: Id, value: bool)
    requires Sound(db)
    ensures Sound(SetUnavailableTo(db, item, value).0)
  {
    var after := SetUnavailableTo(db, item, value).0;
    forall i | 0 <= i < |db.events| ensures Issued(after, db.events[i]) { assert Issued(db, db.events[i]); }
  }

  lemma SoundStep(m: Model, s: State, a: Action)
    requires Inv(s)
    ensures Sound(Step(m, s, a).db)
  {
    match a
    case Commit(c, upstream, now) =>
      var x := ClientOf(s, c);
      if x.Holding? { SoundPublish(s.db, Answer(m, x.snap, x.request, x.user, x.k, upstream), x.k, now); }
    case Feed(payload, now) => SoundApply(s.db, payload, now);
    case Toggle(item, value) => SoundToggle(s.db, item, value);
    case _ =>
  }

  /** The acting client's own new state. */
  lemma ActorOk(m: Model, s: State, a: Action, c: nat)
    requires Inv(s) && Later(s.db, Step(m, s, a).db) && c in Step(m, s, a).clients
    requires (a.Begin? || a.Read? || a.Commit?) && a.client == c
    ensures ClientOk(Step(m, s, a).db, Step(m, s, a).clients[c])
  {
    if c in s.clients { assert ClientOk(s.db, s.clients[c]); ClientKept(s.db, Step(m, s, a).db, s.clients[c]); }
  }

  lemma InvStep(m: Model, s: State, a: Action)
    requires Inv(s)
    ensures Inv(Step(m, s, a))
  {
    var t := Step(m, s, a);
    LaterStep(m, s, a, t);
    SoundStep(m, s, a);
    forall c | c in t.clients ensures ClientOk(t.db, t.clients[c]) {
      if (a.Begin? || a.Read? || a.Commit?) && a.client == c {
        ActorOk(m, s, a, c);
      } else {
        assert c in s.clients && t.clients[c] == s.clients[c];
        ClientKept(s.db, t.db, s.clients[c]);
      }
    }
  }

  lemma {:induction false} RunInv(m: Model, run: seq<State>, acts: seq<Action>, i: nat)
    requires IsRun(m, run, acts) && i < |run|
    ensures Inv(run[i])
  {
    if i > 0 {
      RunInv(m, run, acts, i - 1);
      assert StepAt(m, run, acts, i - 1);
      InvStep(m, run[i - 1], acts[i - 1]);
    }
  }

  // --------------------------------------------------------------------- theorems --

  /** In every reachable store the shown, saved and blocked projection is the replay of the
      journal, and no item was saved more often than it was shown. */
  lemma ProjectionIsReplay(m: Model, run: seq<State>, acts: seq<Action>, i: nat)
    requires IsRun(m, run, acts) && i < |run|
    ensures Projection(run[i].db.features, run[i].db.blocked) == Replay(run[i].db.events)
    ensures OncePerAction(run[i].db.events) && Plausible(run[i].db.features)
  {
    RunInv(m, run, acts, i);
    SavedAtMostShown(run[i].db);
  }

  /** A response that a step stores for the first time is exactly the answer for the snapshot of
      the instant it commits, however long ago it was computed. */
  lemma StoredAnswerIsCurrent(m: Model, run: seq<State>, acts: seq<Action>, i: nat, request: Id)
    requires IsRun(m, run, acts) && i < |acts|
    requires request !in run[i].db.impressions && request in run[i + 1].db.impressions
    ensures acts[i].Commit?
    ensures var row := run[i + 1].db.impressions[request];
            && row.k >= 1
            && row.response == Answer(m, SnapshotOf(run[i].db, row.user), request, row.user, row.k, acts[i].upstream)
  {
    RunInv(m, run, acts, i);
    assert StepAt(m, run, acts, i);
    var x := ClientOf(run[i], acts[i].client);
    assert ClientOk(run[i].db, x);
  }

  /** So a newly stored response holds no item that is blocked for its user or unavailable at its
      commit instant, is full unless the catalogue is exhausted, and never ranks a fill item above
      an eligible retrieved one. */
  lemma StoredItemsAreEligible(m: Model, run: seq<State>, acts: seq<Action>, i: nat, request: Id)
    requires ModelOk(m) && IsRun(m, run, acts) && i < |acts|
    requires request !in run[i].db.impressions && request in run[i + 1].db.impressions
    ensures acts[i].Commit?
    ensures var row := run[i + 1].db.impressions[request];
            var snap := SnapshotOf(run[i].db, row.user);
            var all := Catalogue(m, row.user, snap);
            && row.k >= 1 && Plausible(snap.features)
            && Once(row.response.items) && |row.response.items| == Min(row.k, |all|)
            && (forall j :: 0 <= j < |row.response.items| ==>
                  row.response.items[j].item in all && (row.user, row.response.items[j].item) !in run[i].db.blocked &&
                  row.response.items[j].item !in run[i].db.unavailable)
            && (row.response.exhausted <==> |all| < row.k)
            && FillsBelow(row.response.items, Retrieved(m, row.user, snap, acts[i].upstream, row.k).candidates.Keys,
                          all)
  {
    StoredAnswerIsCurrent(m, run, acts, i, request);
    assert StepAt(m, run, acts, i);
    ProjectionIsReplay(m, run, acts, i);
    var row := run[i + 1].db.impressions[request];
    var snap := SnapshotOf(run[i].db, row.user);
    AnswerItems(m, snap, request, row.user, row.k, acts[i].upstream);
    forall j | 0 <= j < |row.response.items| ensures (row.user, row.response.items[j].item) !in run[i].db.blocked {
      BlockedPair(run[i].db.blocked, row.user, row.response.items[j].item);
    }
    var retrieved := Retrieved(m, row.user, snap, acts[i].upstream, row.k).candidates.Keys;
    forall j, x | 0 <= j < |row.response.items| && row.response.items[j].item !in retrieved && x in retrieved &&
      x in Catalogue(m, row.user, snap) ensures ListedBefore(row.response.items, j, x)
    {
      FillBelowRetrieved(m, snap, request, row.user, row.k, acts[i].upstream, x, j);
    }
  }

  ghost predicate ListedBefore(w: seq<Scored>, j: nat, x: Id) { exists i :: 0 <= i < j && i < |w| && w[i].item == x }

  /** Every eligible retrieved item stands before any item that was not retrieved. */
  ghost predicate FillsBelow(w: seq<Scored>, retrieved: set<Id>, eligible: set<Id>) {
    forall j, x :: 0 <= j < |w| && w[j].item !in retrieved && x in retrieved && x in eligible ==> ListedBefore(w, j, x)
  }

  lemma BlockedPair(blocked: set<(Id, Id)>, user: Id, item: Id)
    ensures item in BlockedFor(blocked, user) <==> (user, item) in blocked
  {
    if (user, item) in blocked {
      var p := (user, item);
      assert p in blocked && p.0 == user && p.1 == item;
    }
  }

  /** Whoever asks, and however often, a request id with the same inputs gets one response: two
      clients that finished it successfully, at any two instants, hold the same one. */
  lemma OneResponsePerRequest(m: Model, run: seq<State>, acts: seq<Action>, i: nat, j: nat, c: nat, d: nat)
    requires IsRun(m, run, acts) && i <= j < |run| && c in run[i].clients && d in run[j].clients
    requires run[i].clients[c].Finished? && run[i].clients[c].outcome.Done?
    requires run[j].clients[d].Finished? && run[j].clients[d].outcome.Done?
    requires run[i].clients[c].request == run[j].clients[d].request
    ensures run[i].clients[c].outcome == run[j].clients[d].outcome
  {
    RunInv(m, run, acts, i);
    RunInv(m, run, acts, j);
    RunLater(m, run, acts, i, j);
    assert ClientOk(run[i].db, run[i].clients[c]) && ClientOk(run[j].db, run[j].clients[d]);
  }

  /** Once a response is stored, asking again returns it, or conflicts if the inputs differ. */
  lemma RepeatReturnsStored(m: Model, run: seq<State>, acts: seq<Action>, i: nat, j: nat, request: Id, user: Id, k: int)
    requires IsRun(m, run, acts) && i <= j < |run|
    requires request in run[i].db.impressions && Acceptable(m, request, user, k)
    ensures var row := run[i].db.impressions[request];
            BeginStep(m, run[j].db, request, user, k) ==
              Finished(request, user, k, if row.user == user && row.k == k then Done(row.response) else Conflict)
  {
    RunLater(m, run, acts, i, j);
  }
}
