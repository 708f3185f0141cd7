/** The web application's policy object: its transactions, and the recommendation call made of them. */
module AppServices {
  import opened Basics
  import opened Selections
  import opened AppPolicies
  import opened AppRuns
  import V = VectorCaches

  /** What other calls do between two steps of a recommendation. A recommendation among them looks up
      its vector, and then offers its response to the store. */
  datatype Traffic = ChangeBy(user: Id, changes: PreferenceChanges, now: int)
    | EventBy(user: Id, feedback: Feedback, now: int)
    | LookupBy(user: Id)
    | OfferBy(user: Id, k: nat, response: Response, now: int)
    | StatusOf(user: Id, enabled: bool, consented: bool)
    | MaintainAt(now: int)

  predicate Offers(a: Traffic, u: Id, requestId: Id) {
    a.OfferBy? && a.user == u && a.response.requestId == requestId
  }

  predicate AnyOffers(traffic: seq<Traffic>, u: Id, requestId: Id) {
    exists i :: 0 <= i < |traffic| && Offers(traffic[i], u, requestId)
  }

  /** The user has no response stored under this id. */
  ghost predicate Free(accounts: map<Id, Account>, u: Id, requestId: Id) {
    u in accounts ==> requestId !in accounts[u].requests
  }

  /** The preferences behind every revision a user has had. */
  type History = map<V.Key, map<Id, int>>

  ghost predicate HistoryOk(history: History, accounts: map<Id, Account>) {
    && (forall u :: u in accounts ==>
          V.Key(u, accounts[u].revision) in history && history[V.Key(u, accounts[u].revision)] == accounts[u].prefs)
    && (forall key :: key in history ==> key.user in accounts && key.revision <= accounts[key.user].revision)
  }

  ghost function PrefsIn(history: History): V.Key -> map<Id, int> {
    (key: V.Key) => if key in history then history[key] else map[]
  }

  ghost predicate Filed(entries: seq<V.Entry>, history: History) {
    forall e :: V.Holds(entries, e) ==> e.key in history
  }

  ghost function Extended(history: History, u: Id, a: Account): History {
    history[V.Key(u, a.revision) := a.prefs]
  }

  ghost predicate Grows(history: History, later: History) {
    forall key :: key in history ==> key in later && later[key] == history[key]
  }

  /** A later state of one account makes one more history entry at most, and spoils no cached vector. */
  lemma ExtendedOk(history: History, accounts: map<Id, Account>, u: Id, a: Account, entries: seq<V.Entry>,
                   foldIn: map<Id, int> -> Vector)
    requires HistoryOk(history, accounts) && u in accounts && Later(accounts[u], a)
    requires Filed(entries, history) && V.Faithful(entries, PrefsIn(history), foldIn)
    ensures HistoryOk(Extended(history, u, a), accounts[u := a]) && Grows(history, Extended(history, u, a))
    ensures Filed(entries, Extended(history, u, a)) && V.Faithful(entries, PrefsIn(Extended(history, u, a)), foldIn)
  {
    var t := Extended(history, u, a);
    assert forall key :: key in history ==> key in t && t[key] == history[key];
  }

  class Service {
    const catalog: Catalog
    const foldIn: map<Id, int> -> Vector
    const cache: V.VectorCache
    var accounts: map<Id, Account>
    ghost var history: History

    /** No action is recorded twice, and every cached vector folds in what its user preferred. */
    ghost predicate Valid() reads this, cache {
      && AllOnce(accounts) && HistoryOk(history, accounts) && cache.Valid()
      && Filed(cache.entries, history) && V.Faithful(cache.entries, PrefsIn(history), foldIn)
    }

    ghost function WorldOf(): World { World(catalog, foldIn) }

    constructor (catalog: Catalog, foldIn: map<Id, int> -> Vector, accounts: map<Id, Account>)
      requires AllOnce(accounts)
      ensures Valid() && fresh(cache) && this.catalog == catalog && this.foldIn == foldIn && this.accounts == accounts
    {
      this.catalog, this.foldIn, this.accounts := catalog, foldIn, accounts;
      cache := new V.VectorCache();
      history := map key: V.Key | key in (set u | u in accounts :: V.Key(u, accounts[u].revision)) ::
        accounts[key.user].prefs;
    }

    /** Write back one account. */
    method Write(uid: Id, a: Account)
      requires Valid() && uid in accounts && Later(accounts[uid], a) && OncePerAction(a.events)
      modifies this
      ensures Valid() && accounts == old(accounts)[uid := a] && Grows(old(history), history)
    {
      ExtendedOk(history, accounts, uid, a, cache.entries, foldIn);
      history := Extended(history, uid, a);
      accounts := accounts[uid := a];
    }

    /** Write the changes one by one until an unknown movie turns up. */
    method ApplyChanges(before: map<Id, int>, changes: seq<Change>) returns (known: bool, prefs: map<Id, int>)
      ensures known <==> AllKnown(catalog, changes)
      ensures known ==> prefs == Changed(before, changes, |changes|)
    {
      prefs := before;
      for i := 0 to |changes|
        invariant prefs == Changed(before, changes, i)
        invariant forall j :: 0 <= j < i ==> Known(catalog, changes[j].item)
      {
        var change := changes[i];
        if !Known(catalog, change.item) { return false, prefs; }
        if change.value == 0 { prefs := prefs - {change.item}; } else { prefs := prefs[change.item := change.value]; }
      }
      known := true;
    }

    /** Apply the changes in a transaction; a refusal half way leaves nothing behind. */
    method ChangePreferences(uid: Id, p: PreferenceChanges, now: int) returns (r: Outcome<PreferenceResult>)
      requires Valid()
      modifies this
      ensures Valid() && (accounts, r) == ChangeFor(catalog, old(accounts), uid, p, now)
      ensures Grows(old(history), history)
    {
      if uid !in accounts { return Http(NO_ACCOUNT); }
      var user;
      user, r := Changes(accounts[uid], p, now);
      ChangeMovesOn(catalog, accounts[uid], p, now);
      Write(uid, user);
    }

    /** The account after a change, and the answer. */
    method Changes(before: Account, p: PreferenceChanges, now: int)
      returns (user: Account, r: Outcome<PreferenceResult>)
      ensures (user, r) == ChangeTo(catalog, before, p, now)
    {
      user := before;
      var refused := Refused(user);
      if refused.Some? { return user, Http(refused.value); }
      if p.requestId in user.mutations {
        if user.mutations[p.requestId].payload != p { return user, Http(409); }
        return user, Ok(user.mutations[p.requestId].response);
      }
      if Repeats(p.changes) { return user, Http(422); }
      var known, prefs := ApplyChanges(user.prefs, p.changes);
      if !known || |prefs| > PREFERENCE_LIMIT { return user, Http(422); }
      var response := PreferenceResult(user.revision + 1, |prefs|);
      user := user.(prefs := prefs, revision := user.revision + 1,
                    mutations := user.mutations[p.requestId := Mutation(p, response, now)]);
      return user, Ok(response);
    }

    method Event(uid: Id, p: Feedback, now: int) returns (r: Outcome<bool>)
      requires Valid()
      modifies this
      ensures Valid() && (accounts, r) == EventFor(old(accounts), uid, p, now)
      ensures Grows(old(history), history)
    {
      if uid !in accounts { return Http(NO_ACCOUNT); }
      var user;
      user, r := Records(accounts[uid], p, now);
      EventMovesOn(accounts[uid], p, now);
      Write(uid, user);
    }

    /** The account after an event, and the answer. */
    method Records(before: Account, p: Feedback, now: int) returns (user: Account, r: Outcome<bool>)
      ensures (user, r) == EventTo(before, p, now)
    {
      user := before;
      var refused := Refused(user);
      if refused.Some? { return user, Http(refused.value); }
      if p.eventId in user.events {
        if user.events[p.eventId].payload != p { return user, Http(409); }
        return user, Ok(true);
      }
      if p.requestId !in user.requests || p.item !in IssuedIds(user.requests[p.requestId].response) {
        return user, Http(422);
      }
      var created := user.requests[p.requestId].createdMs;
      if !(Max(now - DAY_MS, created - SKEW_MS) <= p.timeMs <= now + SKEW_MS) { return user, Http(422); }
      if Recorded(user.events, p.requestId, p.item, p.kind) { return user, Http(409); }
      if p.kind != Shown && !Recorded(user.events, p.requestId, p.item, Shown) { return user, Http(409); }
      user := user.(events := user.events[p.eventId := EventRow(p, now)]);
      if p.kind != Shown {
        user := user.(states := MarkItem(user.states, p), revision := user.revision + 1);
      }
      return user, Ok(false);
    }

    method Maintain(now: int)
      requires Valid()
      modifies this
      ensures Valid() && accounts == PurgeAll(old(accounts), now) && history == old(history)
    {
      PurgeOnce(accounts, now);
      accounts := PurgeAll(accounts, now);
    }

    /** An account is disabled, enabled again, or changes its consent. */
    method SetStatus(uid: Id, enabled: bool, consented: bool)
      requires Valid()
      modifies this
      ensures Valid() && accounts == StatusFor(old(accounts), uid, enabled, consented) && Grows(old(history), history)
    {
      if uid in accounts { Write(uid, accounts[uid].(enabled := enabled, consented := consented)); }
    }

    method ReadInputs(uid: Id, requestId: Id, k: nat, now: int) returns (r: Reading)
      ensures r == ReadFor(accounts, uid, requestId, k, now)
    {
      if uid !in accounts { return Refusal(NO_ACCOUNT); }
      var user := accounts[uid];
      var refused := Refused(user);
      if refused.Some? { return Refusal(refused.value); }
      if requestId in user.requests {
        var known := user.requests[requestId];
        if known.k != k || now - known.createdMs >= DAY_MS { return Refusal(409); }
        return Answered(known.response);
      }
      return Fresh(Inputs(user.revision, user.prefs, user.prefs.Keys + Marked(user.states)));
    }

    method Store(uid: Id, k: nat, response: Response, now: int) returns (r: Option<Outcome<Response>>)
      requires Valid()
      modifies this
      ensures Valid() && (accounts, r) == CommitFor(old(accounts), uid, k, response, now)
      ensures Grows(old(history), history)
    {
      if uid !in accounts { return Some(Http(NO_ACCOUNT)); }
      assert accounts[uid := accounts[uid]] == accounts;
      var user := accounts[uid];
      var refused := Refused(user);
      if refused.Some? { return Some(Http(refused.value)); }
      if response.requestId in user.requests {
        if user.requests[response.requestId].k != k { return Some(Http(409)); }
        return Some(Ok(user.requests[response.requestId].response));
      }
      if user.revision != response.revision { return None; }
      Write(uid, user.(requests := user.requests[response.requestId := Stored(k, now, response)]));
      return Some(Ok(response));
    }

    /** Whatever the others do, accounts only move forward, and only an offer takes a request id. */
    method Meanwhile(traffic: seq<Traffic>)
      requires Valid()
      modifies this, cache
      ensures Valid() && AllLater(old(accounts), accounts) && Grows(old(history), history)
      ensures forall u, x :: Free(old(accounts), u, x) && !AnyOffers(traffic, u, x) ==> Free(accounts, u, x)
    {
      for i := 0 to |traffic|
        invariant Valid() && AllLater(old(accounts), accounts) && Grows(old(history), history)
        invariant forall u, x :: Free(old(accounts), u, x) && !AnyOffers(traffic, u, x) ==> Free(accounts, u, x)
      {
        ghost var before := accounts;
        Interfere(traffic[i]);
        LaterTrans(old(accounts), before, accounts);
      }
    }

    method Interfere(a: Traffic)
      requires Valid()
      modifies this, cache
      ensures Valid() && AllLater(old(accounts), accounts) && Grows(old(history), history)
      ensures forall u, x :: Free(old(accounts), u, x) && !Offers(a, u, x) ==> Free(accounts, u, x)
    {
      match a {
        case ChangeBy(u, changes, now) => var _ := ChangePreferences(u, changes, now);
        case EventBy(u, feedback, now) => var _ := Event(u, feedback, now);
        case LookupBy(u) => if u in accounts { var _ := VectorOf(u, InputsOf(accounts[u])); }
        case OfferBy(u, k, response, now) => var _ := Store(u, k, response, now);
        case StatusOf(u, enabled, consented) => SetStatus(u, enabled, consented);
        case MaintainAt(now) => Maintain(now);
      }
      TrafficLater(catalog, old(accounts), a, accounts);
    }

    /** The query vector of preferences the user had at some revision, cached or folded in. */
    method VectorOf(uid: Id, inputs: Inputs) returns (v: V.Vector)
      requires Valid() && V.Key(uid, inputs.revision) in history
      requires history[V.Key(uid, inputs.revision)] == inputs.prefs
      modifies cache
      ensures Valid() && v == foldIn(inputs.prefs)
    {
      v := cache.Vector(uid, inputs.revision, inputs.prefs, foldIn, PrefsIn(history));
    }

    /** One attempt: two transactions and a lookup, others running in between. `None` asks for another. */
    method Attempt(uid: Id, requestId: Id, k: nat, readAt: int, early: seq<Traffic>, late: seq<Traffic>,
                   query: nat -> Reply, storeAt: int) returns (r: Option<Outcome<Response>>)
      requires Valid()
      modifies this, cache
      ensures Valid()
      ensures Outcomes(WorldOf(), old(accounts), accounts, uid, requestId, k, query, r,
                       !AnyOffers(early, uid, requestId) && !AnyOffers(late, uid, requestId))
    {
      var reading := ReadInputs(uid, requestId, k, readAt);
      if reading.Refusal? { return Some(Http(reading.status)); }
      if reading.Answered? { return Some(Ok(reading.response)); }
      var inputs := reading.inputs;
      ghost var before := accounts;
      Meanwhile(early);
      ghost var between := accounts;
      var vector := VectorOf(uid, inputs);
      Meanwhile(late);
      LaterTrans(before, between, accounts);
      var selection := SelectItems(catalog, inputs.blocked, k, vector != V.NoTaste, query);
      var response := Response(requestId, inputs.revision, selection);
      ghost var now := accounts;
      r := Store(uid, k, response, storeAt);
      CommitOutcome(WorldOf(), before, now, uid, k, response, storeAt, query,
                    !AnyOffers(early, uid, requestId) && !AnyOffers(late, uid, requestId));
    }

    /** Three attempts, others running before and during each. A success is what is stored under the
        request; if it was not stored before and nobody else offered one, it is the selection for the
        account as it is now; and giving up means that the account moved under every attempt. */
    method Recommend(uid: Id, requestId: Id, k: nat, clock: nat -> int, query: nat -> nat -> Reply,
                     others: nat -> seq<Traffic>) returns (r: Outcome<Response>)
      requires Valid()
      modifies this, cache
      ensures Valid() && AllLater(old(accounts), accounts)
      ensures r.Ok? ==> AnswerHeld(accounts, uid, requestId, k, r.value)
      ensures r.Ok? && Free(old(accounts), uid, requestId) && Quiet(others, uid, requestId) ==>
                exists n: nat :: n < ATTEMPTS && AnswerFits(WorldOf(), accounts[uid], requestId, k, query(n), r.value)
      ensures r == Http(503) ==>
                uid in old(accounts) && accounts[uid].revision >= old(accounts)[uid].revision + ATTEMPTS
    {
      for attempt := 0 to ATTEMPTS
        invariant Valid() && Retrying(old(accounts), accounts, uid, attempt)
        invariant Free(old(accounts), uid, requestId) && Quiet(others, uid, requestId) ==>
                    Free(accounts, uid, requestId)
      {
        ghost var start := accounts;
        Meanwhile(others(3 * attempt));
        RetryLater(old(accounts), start, accounts, uid, attempt);
        ghost var before := accounts;
        var early, late := others(3 * attempt + 1), others(3 * attempt + 2);
        var readAt, storeAt := clock(2 * attempt), clock(2 * attempt + 1);
        var outcome := Attempt(uid, requestId, k, readAt, early, late, query(attempt), storeAt);
        RetryNext(WorldOf(), old(accounts), before, accounts, uid, attempt, requestId, k, query(attempt), outcome,
                  !AnyOffers(early, uid, requestId) && !AnyOffers(late, uid, requestId));
        if outcome.Some? { return outcome.value; }
      }
      return Http(503);
    }
  }

  /** None of the others offers a response under this id. */
  ghost predicate Quiet(others: nat -> seq<Traffic>, u: Id, requestId: Id) {
    forall n: nat :: !AnyOffers(others(n), u, requestId)
  }

  lemma ChangeMovesOn(c: Catalog, a: Account, p: PreferenceChanges, now: int)
    ensures Later(a, ChangeTo(c, a, p, now).0) && ChangeTo(c, a, p, now).0.events == a.events
  {
  }

  lemma EventMovesOn(a: Account, p: Feedback, now: int)
    requires OncePerAction(a.events)
    ensures Later(a, EventTo(a, p, now).0) && OncePerAction(EventTo(a, p, now).0.events)
  {
    EventKeepsOnce(a, p, now);
  }

  ghost predicate Moved(s: map<Id, Account>, t: map<Id, Account>, u: Id) {
    u in s && u in t && s[u].revision < t[u].revision
  }

  ghost predicate AnswerHeld(accounts: map<Id, Account>, u: Id, requestId: Id, k: nat, r: Response) {
    && u in accounts && requestId in accounts[u].requests
    && accounts[u].requests[requestId].k == k && accounts[u].requests[requestId].response == r
  }

  /** The response is the selection for the account. */
  ghost predicate AnswerFits(w: World, a: Account, requestId: Id, k: nat, query: nat -> Reply, r: Response) {
    && r.requestId == requestId && r.revision == a.revision
    && r.selection == Select(w.catalog, Blocked(a), k, w.foldIn(a.prefs) != V.NoTaste, query)
  }

  /** What an attempt may come to between two states of the accounts. `quiet` says that nobody else
      offered a response under its id. */
  ghost predicate Outcomes(w: World, s: map<Id, Account>, t: map<Id, Account>, u: Id, requestId: Id, k: nat,
                           query: nat -> Reply, r: Option<Outcome<Response>>, quiet: bool)
  {
    && AllLater(s, t)
    && (r.None? ==> Moved(s, t, u) && Free(t, u, requestId))
    && (r.Some? ==> r.value != Http(503))
    && (r.Some? && r.value.Ok? ==>
          AnswerHeld(t, u, requestId, k, r.value.value) &&
          (quiet && Free(s, u, requestId) ==> AnswerFits(w, t[u], requestId, k, query, r.value.value)))
  }

  /** After `n` attempts that all found the account moved. */
  ghost predicate Retrying(s: map<Id, Account>, t: map<Id, Account>, u: Id, n: nat) {
    AllLater(s, t) && (n > 0 ==> u in s && u in t && t[u].revision >= s[u].revision + n)
  }

  lemma RetryLater(s: map<Id, Account>, t: map<Id, Account>, v: map<Id, Account>, u: Id, n: nat)
    requires Retrying(s, t, u, n) && AllLater(t, v)
    ensures Retrying(s, v, u, n)
  {
    LaterTrans(s, t, v);
    if n > 0 { assert Later(t[u], v[u]); }
  }

  lemma RetryNext(w: World, s: map<Id, Account>, t: map<Id, Account>, v: map<Id, Account>, u: Id, n: nat, requestId: Id,
                  k: nat, query: nat -> Reply, r: Option<Outcome<Response>>, quiet: bool)
    requires Retrying(s, t, u, n) && Outcomes(w, t, v, u, requestId, k, query, r, quiet)
    ensures AllLater(s, v) && (r.None? ==> Retrying(s, v, u, n + 1))
  {
    LaterTrans(s, t, v);
    if r.None? && u in s { assert Later(s[u], t[u]); }
  }

  /** A second transaction, given what its first one read. */
  lemma CommitOutcome(w: World, before: map<Id, Account>, now: map<Id, Account>, u: Id, k: nat, r: Response,
                      storeAt: int, query: nat -> Reply, quiet: bool)
    requires AllLater(before, now) && u in before && AnswerFits(w, before[u], r.requestId, k, query, r)
    requires quiet ==> Free(now, u, r.requestId)
    ensures var t := CommitFor(now, u, k, r, storeAt);
            Outcomes(w, before, t.0, u, r.requestId, k, query, t.1, quiet)
  {
    var t := CommitFor(now, u, k, r, storeAt);
    assert Later(before[u], now[u]);
    assert now[u := now[u]] == now;
    assert AllLater(now, t.0);
    LaterTrans(before, now, t.0);
    assert t.1.Some? && t.1.value.Ok? && quiet ==> InputsOf(t.0[u]) == InputsOf(before[u]);
  }

  ghost predicate Frees(s: map<Id, Account>, t: map<Id, Account>) {
    forall u, x :: Free(s, u, x) ==> Free(t, u, x)
  }

  lemma TrafficLater(c: Catalog, s: map<Id, Account>, a: Traffic, t: map<Id, Account>)
    requires match a case ChangeBy(u, p, now) => t == ChangeFor(c, s, u, p, now).0
                     case EventBy(u, p, now) => t == EventFor(s, u, p, now).0
                     case LookupBy(_) => t == s
                     case OfferBy(u, k, r, now) => t == CommitFor(s, u, k, r, now).0
                     case StatusOf(u, enabled, consented) => t == StatusFor(s, u, enabled, consented)
                     case MaintainAt(now) => t == PurgeAll(s, now)
    ensures AllLater(s, t) && forall u, x :: Free(s, u, x) && !Offers(a, u, x) ==> Free(t, u, x)
  {
    match a
    case ChangeBy(u, p, now) => ChangeLater(c, s, u, p, now);
    case EventBy(u, p, now) => EventLater(s, u, p, now);
    case LookupBy(_) =>
    case OfferBy(u, k, r, now) => OfferLater(s, u, k, r, now);
    case StatusOf(u, enabled, consented) =>
    case MaintainAt(now) =>
  }

  lemma ChangeLater(c: Catalog, s: map<Id, Account>, u: Id, p: PreferenceChanges, now: int)
    ensures AllLater(s, ChangeFor(c, s, u, p, now).0) && Frees(s, ChangeFor(c, s, u, p, now).0)
  {
  }

  lemma EventLater(s: map<Id, Account>, u: Id, p: Feedback, now: int)
    ensures AllLater(s, EventFor(s, u, p, now).0) && Frees(s, EventFor(s, u, p, now).0)
  {
  }

  lemma OfferLater(s: map<Id, Account>, u: Id, k: nat, r: Response, now: int)
    ensures AllLater(s, CommitFor(s, u, k, r, now).0)
    ensures forall v, x :: Free(s, v, x) && !(v == u && x == r.requestId) ==> Free(CommitFor(s, u, k, r, now).0, v, x)
  {
  }
}
