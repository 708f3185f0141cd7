/** The pilot's store, and the recommendation call with other calls running between its transactions. */
module PilotServices {
  import opened Basics
  import opened PilotModels
  import opened PilotPolicies
  import opened PilotStores
  import opened PilotRuns
  import opened PilotLaws

  /** No response computed up to this generation can be stored any more. */
  ghost predicate Fenced(db: Db, generation: nat) {
    forall r: Response, k: int, now: int :: r.requestId !in db.impressions && r.generation <= generation ==>
      PublishTo(db, r, k, now) == (db, Changed)
  }

  /** The response is stored under its request for these inputs. */
  ghost predicate StoredFor(db: Db, request: Id, user: Id, k: int, r: Response) {
    && request in db.impressions && db.impressions[request].user == user && db.impressions[request].k == k
    && db.impressions[request].response == r
  }

  class Store {
    var generation: nat
    var impressions: map<Id, Impression>
    var exposures: set<(Id, Id)>
    var events: seq<Row>
    var blocked: set<(Id, Id)>
    var features: map<Id, Counts>
    var unavailable: set<Id>

    ghost function View(): Db reads this {
      Db(generation, impressions, exposures, events, blocked, features, unavailable)
    }

    /** The projection is the replay of a journal that records every action once. */
    ghost predicate Valid() reads this { Sound(View()) }

    constructor ()
      ensures Valid() && View() == Db(0, map[], {}, [], {}, map[], {})
    {
      generation, impressions, exposures, events, blocked, features, unavailable := 0, map[], {}, [], {}, map[], {};
    }

    /** What a request id stands for: nothing yet, a response for the same inputs, or a conflict. */
    method Existing(request: Id, user: Id, k: int) returns (r: Outcome<Option<Response>>)
      ensures r.Done? || r == Conflict
      ensures r == Done(None) <==> request !in impressions
      ensures r == Conflict <==>
                request in impressions && (impressions[request].user != user || impressions[request].k != k)
      ensures forall x :: r == Done(Some(x)) <==> StoredFor(View(), request, user, k, x)
    {
      if request !in impressions { return Done(None); }
      var row := impressions[request];
      if row.user != user || row.k != k { return Conflict; }
      return Done(Some(row.response));
    }

    method TakeSnapshot(user: Id) returns (s: Snapshot)
      ensures s == SnapshotOf(View(), user)
    {
      var mine := set p | p in blocked && p.0 == user :: p.1;
      var last: Option<int> := None;
      for i := 0 to |events|
        invariant last == LastCommitted(events[..i])
      {
        assert events[..i + 1][..i] == events[..i];
        if last.None? || last.value < events[i].committedMs { last := Some(events[i].committedMs); }
      }
      assert events[..|events|] == events;
      return Snapshot(generation, mine, unavailable, features, last);
    }

    /** Store a response, or return the stored one. The exposure table has one row per request and
        item, so a response never repeats an item. */
    method Publish(response: Response, k: int, now: int) returns (r: Outcome<Response>)
      requires Valid() && Once(response.items)
      modifies this
      ensures Valid() && (View(), r) == PublishTo(old(View()), response, k, now)
    {
      SoundPublish(View(), response, k, now);
      r := Expose(response, k, now);
    }

    method Expose(response: Response, k: int, now: int) returns (r: Outcome<Response>)
      requires Once(response.items)
      modifies this
      ensures (View(), r) == PublishTo(old(View()), response, k, now)
    {
      var cached := Existing(response.requestId, response.userId, k);
      if cached == Conflict { return Conflict; }
      if cached.value.Some? { return Done(cached.value.value); }
      if generation != response.generation { return Changed; }
      impressions := impressions[response.requestId := Impression(response.userId, k, now, response)];
      for i := 0 to |response.items|
        invariant impressions == old(impressions)[response.requestId := Impression(response.userId, k, now, response)]
        invariant View() == old(View()).(impressions := impressions, exposures := exposures)
        invariant exposures == old(exposures) + set x | x in ItemsTo(response.items, i) :: (response.requestId, x)
      {
        exposures := exposures + {(response.requestId, response.items[i].item)};
      }
      assert ItemsTo(response.items, |response.items|) == ItemsOf(response);
      return Done(response);
    }

    /** Journal an event and project it; a new one fences every response computed before it. */
    method Apply(p: Payload, now: int) returns (r: Outcome<Receipt>)
      requires Valid()
      modifies this
      ensures Valid() && (View(), r) == ApplyTo(old(View()), p, now)
      ensures r.Done? && !r.value.duplicate ==> Fenced(View(), old(generation))
      ensures if r.Done? && !r.value.duplicate
              then Complete(p) && Effect(old(View()), p, now, View()) && r.value.sequence == |events|
              else View() == old(View())
      ensures r.Done? && !r.value.duplicate && p.kind.value != Shown ==> (p.user, p.item) in blocked
    {
      ApplyFences(View(), p, now);
      ApplyEffect(View(), p, now);
      r := Journal(p, now);
    }

    method Journal(p: Payload, now: int) returns (r: Outcome<Receipt>)
      modifies this
      ensures (View(), r) == ApplyTo(old(View()), p, now)
    {
      if !WellFormed(p) { return Invalid; }
      var found := FindEvent(events, p.eventId);
      if found.Some? {
        if events[found.value].payload != p { return Conflict; }
        return Done(Receipt(true, found.value + 1));
      }
      if !(now - DAY_MS <= p.timeMs.value <= now + SKEW_MS) { return Invalid; }
      if p.request !in impressions || impressions[p.request].user != p.user || (p.request, p.item) !in exposures {
        return Invalid;
      }
      if p.timeMs.value < impressions[p.request].createdMs - SKEW_MS { return Invalid; }
      if p.kind.value != Shown && !Recorded(events, p.request, p.item, Shown) { return Conflict; }
      if Recorded(events, p.request, p.item, p.kind.value) { return Conflict; }
      events := events + [Row(p.eventId, p, p.user, p.request, p.item, p.kind.value, now)];
      var sequence := |events|;
      if p.item !in features { features := features[p.item := Counts(0, 0)]; }
      var c := features[p.item];
      if p.kind.value == Shown {
        features := features[p.item := c.(shown := c.shown + 1)];
      } else {
        blocked := blocked + {(p.user, p.item)};
        if p.kind.value == Save { features := features[p.item := c.(saved := c.saved + 1)]; }
      }
      generation := generation + 1;
      assert features == Count(old(features), RowFor(p, now));
      return Done(Receipt(false, sequence));
    }

    /** Change an item's availability and fence every response computed before. */
    method SetUnavailable(item: Id, value: bool) returns (r: Outcome<()>)
      requires Valid()
      modifies this
      ensures Valid() && (View(), r) == SetUnavailableTo(old(View()), item, value)
      ensures r.Done? ==> Fenced(View(), old(generation)) && (item in unavailable <==> value)
      ensures (r == Invalid <==> item == 0) && forall x :: x != item ==> (x in unavailable <==> x in old(unavailable))
      ensures View() == old(View()).(unavailable := unavailable, generation := generation)
    {
      SoundToggle(View(), item, value);
      if !Identifier(item) { return Invalid; }
      if value { unavailable := unavailable + {item}; } else { unavailable := unavailable - {item}; }
      generation := generation + 1;
      return Done(());
    }
  }

  ghost function ItemsTo(items: seq<Scored>, n: nat): set<Id>
    requires n <= |items|
  {
    set i | 0 <= i < n :: items[i].item
  }

  /** What other calls do between two transactions of a recommendation. */
  datatype Traffic = Event(payload: Payload, now: int) | Switch(item: Id, value: bool)
    | Offer(response: Response, k: int, now: int)

  ghost predicate TrafficOk(traffic: seq<Traffic>) {
    forall i :: 0 <= i < |traffic| && traffic[i].Offer? ==> Once(traffic[i].response.items)
  }

  predicate Offers(traffic: seq<Traffic>, request: Id) {
    exists i :: 0 <= i < |traffic| && traffic[i].Offer? && traffic[i].response.requestId == request
  }

  class Pilot {
    const model: Model
    const store: Store

    constructor (model: Model, store: Store)
      ensures this.model == model && this.store == store
    {
      this.model, this.store := model, store;
    }

    method Meanwhile(traffic: seq<Traffic>)
      requires store.Valid() && TrafficOk(traffic)
      modifies store
      ensures store.Valid() && Later(old(store.View()), store.View())
      ensures traffic == [] ==> store.View() == old(store.View())
      ensures forall x :: x !in old(store.View()).impressions && !Offers(traffic, x) ==> x !in store.View().impressions
    {
      for i := 0 to |traffic|
        invariant store.Valid() && Later(old(store.View()), store.View())
        invariant traffic == [] ==> store.View() == old(store.View())
        invariant forall x ::
                    x !in old(store.View()).impressions && !Offers(traffic, x) ==> x !in store.View().impressions
      {
        ghost var before := store.View();
        match traffic[i] {
          case Event(payload, now) => var _ := store.Apply(payload, now);
          case Switch(item, value) => var _ := store.SetUnavailable(item, value);
          case Offer(response, k, now) => var _ := store.Publish(response, k, now);
        }
        TrafficLater(before, traffic[i], store.View());
        PilotRuns.LaterTrans(old(store.View()), before, store.View());
      }
    }

    /** One attempt: compute from a snapshot while others run, then offer the response. */
    method Attempt(request: Id, user: Id, k: int, others: seq<Traffic>, upstream: nat -> Reply,
                   now: int) returns (r: Outcome<Response>)
      requires ModelOk(model) && UpstreamOk(model, upstream) && k >= 1 && store.Valid() && TrafficOk(others)
      modifies store
      ensures store.Valid() && Outcomes(model, old(store.View()), store.View(), request, user, k, upstream, r)
      ensures r == Changed && request !in old(store.View()).impressions && !Offers(others, request) ==>
                request !in store.View().impressions
      ensures r.Done? && request !in old(store.View()).impressions && !Offers(others, request) ==>
                r.value == Answer(model, SnapshotOf(store.View(), user), request, user, k, upstream)
      ensures others == [] ==>
                (store.View(), r) == PublishTo(old(store.View()),
                  Answer(model, SnapshotOf(old(store.View()), user), request, user, k, upstream), k, now)
    {
      ghost var before := store.View();
      var snap := store.TakeSnapshot(user);
      Meanwhile(others);
      var response := Respond(model, snap, request, user, k, upstream);
      AnswerItems(model, snap, request, user, k, upstream);
      ghost var at := store.View();
      r := store.Publish(response, k, now);
      PublishOutcome(model, before, at, request, user, k, upstream, now);
    }

    /** Three attempts, others running in between. A success is what is stored under the request; if
        it was nobody else's, it is the answer for the snapshot as it is now, so nothing that happened
        meanwhile is ignored; and `Changed` means feedback moved under every attempt. */
    method Recommend(request: Id, user: Id, k: int, upstream: nat -> nat -> Reply, others: nat -> seq<Traffic>,
                     clock: nat -> int) returns (r: Outcome<Response>)
      requires ModelOk(model) && store.Valid()
      requires forall attempt :: UpstreamOk(model, upstream(attempt)) && TrafficOk(others(attempt))
      modifies store
      ensures store.Valid() && Later(old(store.View()), store.View())
      ensures r == Invalid <==>
                request == 0 || user == 0 || k < 1 || k > 50 || (user !in model.users && user !in model.guests)
      ensures r.Done? ==> StoredFor(store.View(), request, user, k, r.value)
      ensures r == Conflict ==>
                request in store.impressions && forall x :: !StoredFor(store.View(), request, user, k, x)
      ensures r == Changed ==> store.generation >= old(store.generation) + ATTEMPTS
      ensures r.Done? && request !in old(store.impressions) && (forall n :: !Offers(others(n), request)) ==>
                exists n: nat :: n < ATTEMPTS &&
                  r.value == Answer(model, SnapshotOf(store.View(), user), request, user, k, upstream(n))
      ensures Acceptable(model, request, user, k) && others(0) == [] ==>
                (store.View(), r) == PublishTo(old(store.View()),
                  Answer(model, SnapshotOf(old(store.View()), user), request, user, k, upstream(0)), k, clock(0))
    {
      if !Acceptable(model, request, user, k) { return Invalid; }
      var known := store.Existing(request, user, k);
      if known == Conflict { return Conflict; }
      if known.value.Some? { return Done(known.value.value); }
      for attempt := 0 to ATTEMPTS
        invariant store.Valid() && Later(old(store.View()), store.View())
        invariant store.generation >= old(store.generation) + attempt
        invariant (forall n :: !Offers(others(n), request)) ==> request !in store.impressions
        invariant attempt > 0 ==> others(0) != []
        invariant attempt == 0 ==> store.View() == old(store.View())
      {
        ghost var before := store.View();
        r := Attempt(request, user, k, others(attempt), upstream(attempt), clock(attempt));
        PilotRuns.LaterTrans(old(store.View()), before, store.View());
        if r != Changed { return; }
      }
      return Changed;
    }
  }

  lemma ApplyFences(db: Db, p: Payload, now: int)
    requires Sound(db)
    ensures Sound(ApplyTo(db, p, now).0)
    ensures var r := ApplyTo(db, p, now).1;
            r.Done? && !r.value.duplicate ==> Fenced(ApplyTo(db, p, now).0, db.generation)
  {
    SoundApply(db, p, now);
  }

  lemma TrafficLater(s: Db, a: Traffic, t: Db)
    requires match a case Event(payload, now) => t == ApplyTo(s, payload, now).0
                     case Switch(item, value) => t == SetUnavailableTo(s, item, value).0
                     case Offer(response, k, now) => t == PublishTo(s, response, k, now).0
    ensures Later(s, t)
    ensures forall x :: x !in s.impressions && !(a.Offer? && a.response.requestId == x) ==> x !in t.impressions
  {
  }

  /** What an attempt may come to between two states of the store. */
  ghost predicate Outcomes(m: Model, s: Db, t: Db, request: Id, user: Id, k: int, upstream: nat -> Reply,
                           r: Outcome<Response>)
  {
    && Later(s, t) && r != Invalid
    && (r.Done? ==> StoredFor(t, request, user, k, r.value))
    && (r == Conflict ==>
          request in t.impressions && (t.impressions[request].user != user || t.impressions[request].k != k))
    && (r == Changed ==> s.generation < t.generation)
  }

  /** The publication of an answer computed from an earlier snapshot. */
  lemma PublishOutcome(m: Model, before: Db, at: Db, request: Id, user: Id, k: nat, upstream: nat -> Reply, now: int)
    requires Later(before, at)
    ensures var p := PublishTo(at, Answer(m, SnapshotOf(before, user), request, user, k, upstream), k, now);
            && Outcomes(m, before, p.0, request, user, k, upstream, p.1)
            && (p.1 == Changed ==> p.0 == at)
            && (p.1.Done? && request !in at.impressions ==>
                  p.1.value == Answer(m, SnapshotOf(p.0, user), request, user, k, upstream))
  {
  }
}
