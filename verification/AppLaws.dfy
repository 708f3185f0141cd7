/** What the web application's transactions come to, said of their inputs and effects alone. */
module AppLaws {
  import opened Basics
  import opened Selections
  import opened AppPolicies

  /** The account may act. */
  ghost predicate Admitted(a: Account) { a.enabled && a.consented }

  // -------------------------------------------------------------------- preferences --

  ghost predicate Listed(c: Catalog, x: Id) { exists m :: 0 <= m < |c.movies| && c.movies[m].id == x }

  /** Every change names its own movie of the catalogue. */
  ghost predicate Sensible(c: Catalog, changes: seq<Change>) {
    && (forall i, j :: 0 <= i < j < |changes| ==> changes[i].item != changes[j].item)
    && forall i :: 0 <= i < |changes| ==> Listed(c, changes[i].item)
  }

  /** Each change decides its movie, zero by removing it; no other preference moves. */
  ghost predicate PrefsAfter(before: map<Id, int>, changes: seq<Change>, after: map<Id, int>) {
    && (forall i :: 0 <= i < |changes| ==>
          if changes[i].value == 0 then changes[i].item !in after
          else changes[i].item in after && after[changes[i].item] == changes[i].value)
    && forall x :: (forall i :: 0 <= i < |changes| ==> changes[i].item != x) ==>
         (x in after <==> x in before) && (x in before ==> after[x] == before[x])
  }

  lemma ChangedIsAfter(before: map<Id, int>, changes: seq<Change>)
    requires forall i, j :: 0 <= i < j < |changes| ==> changes[i].item != changes[j].item
    ensures PrefsAfter(before, changes, Changed(before, changes, |changes|))
  {
    forall i | 0 <= i < |changes| ensures
      var after := Changed(before, changes, |changes|);
      if changes[i].value == 0 then changes[i].item !in after
      else changes[i].item in after && after[changes[i].item] == changes[i].value
    {
      ChangedExactly(before, changes, |changes|, changes[i].item);
    }
    forall x | forall i :: 0 <= i < |changes| ==> changes[i].item != x
      ensures var after := Changed(before, changes, |changes|);
              (x in after <==> x in before) && (x in before ==> after[x] == before[x])
    {
      ChangedExactly(before, changes, |changes|, x);
    }
  }

  /** Which changes are accepted, and how the others are refused; only an accepted one changes the
      account, which then has the preferences asked for under the next revision. */
  lemma ChangeMeans(c: Catalog, a: Account, p: PreferenceChanges, now: int)
    ensures var (t, r) := ChangeTo(c, a, p, now);
            && (r == Http(401) <==> !a.enabled) && (r == Http(403) <==> a.enabled && !a.consented)
            && (Admitted(a) && p.requestId in a.mutations ==>
                  t == a && r == if a.mutations[p.requestId].payload == p then Ok(a.mutations[p.requestId].response)
                                 else Http(409))
            && (Admitted(a) && p.requestId !in a.mutations && !Sensible(c, p.changes) ==> t == a && r == Http(422))
            && (r.Http? ==> t == a)
  {
    if Admitted(a) && p.requestId !in a.mutations && !Sensible(c, p.changes) { SensibleIs(c, p.changes); }
  }

  lemma SensibleIs(c: Catalog, changes: seq<Change>)
    ensures Sensible(c, changes) <==> !Repeats(changes) && AllKnown(c, changes)
  {
    if Repeats(changes) {
      var i, j :| 0 <= i < j < |changes| && changes[i].item == changes[j].item;
    } else {
      forall i, j | 0 <= i < j < |changes| ensures changes[i].item != changes[j].item { }
    }
    forall i | 0 <= i < |changes| ensures Listed(c, changes[i].item) <==> Known(c, changes[i].item) { }
  }

  lemma NewChangeMeans(c: Catalog, a: Account, p: PreferenceChanges, now: int) returns (after: map<Id, int>)
    requires Admitted(a) && p.requestId !in a.mutations && Sensible(c, p.changes)
    ensures PrefsAfter(a.prefs, p.changes, after)
    ensures var result := PreferenceResult(a.revision + 1, |after|);
            ChangeTo(c, a, p, now) ==
              if |after| > 500 then (a, Http(422))
              else (a.(prefs := after, revision := a.revision + 1,
                       mutations := a.mutations[p.requestId := Mutation(p, result, now)]), Ok(result))
  {
    SensibleIs(c, p.changes);
    ChangedIsAfter(a.prefs, p.changes);
    after := Changed(a.prefs, p.changes, |p.changes|);
  }

  // ------------------------------------------------------------------- exclusions --

  /** A recommendation must not contain what is preferred, saved, watched or dismissed, and may contain
      everything else. */
  lemma BlockedMeans(a: Account, x: Id)
    ensures x in Blocked(a) <==>
            x in a.prefs || (x in a.states && (a.states[x].saved || a.states[x].watched || a.states[x].dismissed))
  {
  }

  lemma EligibleMeans(c: Catalog, blocked: set<Id>, x: Id)
    ensures Eligible(c, blocked, x) <==>
            x !in blocked && exists i :: 0 <= i < |c.movies| && c.movies[i].id == x && c.movies[i].available
  {
    var ms := c.movies;
    if i :| 0 <= i < |ms| && ms[i].id == x && ms[i].available { assert ms[i] == Movie(x, true); }
    if i :| 0 <= i < |ms| && ms[i] == Movie(x, true) { assert ms[i].id == x && ms[i].available; }
  }

  // ------------------------------------------------------------- recommendations --

  /** The first transaction: a stored response is returned to the same size within a day, and conflicts
      otherwise; a new request gets the account's inputs. */
  lemma ReadMeans(a: Account, requestId: Id, k: nat, now: int)
    ensures var r := Read(a, requestId, k, now);
            var kept := requestId in a.requests;
            var good := kept && a.requests[requestId].k == k && now < a.requests[requestId].createdMs + 86_400_000;
            && (r == Refusal(401) <==> !a.enabled) && (r == Refusal(403) <==> a.enabled && !a.consented)
            && (r == Refusal(409) <==> Admitted(a) && kept && !good) && (r.Answered? <==> Admitted(a) && good)
            && (r.Answered? ==> r.response == a.requests[requestId].response)
            && (r.Fresh? <==> Admitted(a) && requestId !in a.requests)
            && (r.Fresh? ==> r.inputs == Inputs(a.revision, a.prefs, Blocked(a)))
  {
  }

  /** The second transaction: a response is stored exactly when its id is still free and the revision
      unmoved; a moved revision asks for another attempt. */
  lemma CommitMeans(a: Account, k: nat, r: Response, now: int)
    ensures var (t, o) := Commit(a, k, r, now);
            && (o == Some(Http(401)) <==> !a.enabled) && (o == Some(Http(403)) <==> a.enabled && !a.consented)
            && (o == Some(Http(409)) <==> Admitted(a) && r.requestId in a.requests && a.requests[r.requestId].k != k)
            && (o.None? <==> Admitted(a) && r.requestId !in a.requests && a.revision != r.revision)
            && (if Admitted(a) && r.requestId !in a.requests && a.revision == r.revision
                then o == Some(Ok(r)) && t == a.(requests := a.requests[r.requestId := Stored(k, now, r)])
                else t == a && (o.Some? && o.value.Ok? ==> o == Some(Ok(a.requests[r.requestId].response))))
  {
  }

  // ------------------------------------------------------------------------ feedback --

  ghost predicate HasRow(a: Account, requestId: Id, item: Id, kind: Kind) {
    exists e :: e in a.events && a.events[e].payload.requestId == requestId && a.events[e].payload.item == item &&
                a.events[e].payload.kind == kind
  }

  /** The event is about a movie of a stored response, at a credible time: at most a day old, at most half
      a minute ahead, and no more than that before the response. */
  ghost predicate Credible(a: Account, p: Feedback, now: int) {
    && p.requestId in a.requests
    && (exists j :: 0 <= j < |a.requests[p.requestId].response.selection.items| &&
                    a.requests[p.requestId].response.selection.items[j].id == p.item)
    && now - 86_400_000 <= p.timeMs <= now + 30_000
    && a.requests[p.requestId].createdMs - 30_000 <= p.timeMs
  }

  /** An outcome needs its display, and nothing is recorded twice. */
  ghost predicate InTurn(a: Account, p: Feedback) {
    (p.kind != Shown ==> HasRow(a, p.requestId, p.item, Shown)) && !HasRow(a, p.requestId, p.item, p.kind)
  }

  lemma RecordedIs(a: Account, requestId: Id, item: Id, kind: Kind)
    ensures Recorded(a.events, requestId, item, kind) <==> HasRow(a, requestId, item, kind)
  {
  }

  lemma CredibleIs(a: Account, p: Feedback, now: int)
    ensures Credible(a, p, now) <==>
            && p.requestId in a.requests && p.item in IssuedIds(a.requests[p.requestId].response)
            && Max(now - DAY_MS, a.requests[p.requestId].createdMs - SKEW_MS) <= p.timeMs <= now + SKEW_MS
  {
  }

  /** What a new event leaves: its row, and for an outcome its own mark on the movie under the next
      revision. */
  ghost predicate Effect(a: Account, p: Feedback, now: int, t: Account) {
    && t.events == a.events[p.eventId := EventRow(p, now)]
    && t == a.(events := t.events, states := t.states, revision := t.revision)
    && if p.kind == Shown then t.states == a.states && t.revision == a.revision
       else
         && t.revision == a.revision + 1 && t.states.Keys == a.states.Keys + {p.item}
         && (forall x :: x in a.states && x != p.item ==> t.states[x] == a.states[x])
         && var was := if p.item in a.states then a.states[p.item] else ItemState(false, false, false);
            && (t.states[p.item].saved <==> was.saved || p.kind == Save)
            && (t.states[p.item].watched <==> was.watched || p.kind == Watched)
            && (t.states[p.item].dismissed <==> was.dismissed || p.kind == Dismiss)
  }

  /** Which events are accepted, which are duplicates, and how the others are refused; only an accepted
      one changes anything. */
  lemma EventMeans(a: Account, p: Feedback, now: int)
    ensures var (t, r) := EventTo(a, p, now);
            && (r == Http(401) <==> !a.enabled) && (r == Http(403) <==> a.enabled && !a.consented)
            && (r == Ok(true) <==> Admitted(a) && p.eventId in a.events && a.events[p.eventId].payload == p)
            && (r == Http(422) <==> Admitted(a) && p.eventId !in a.events && !Credible(a, p, now))
            && (r == Ok(false) <==> Admitted(a) && p.eventId !in a.events && Credible(a, p, now) && InTurn(a, p))
            && (r == Http(409) <==> r != Http(401) && r != Http(403) && r != Http(422) && !r.Ok?)
            && if r == Ok(false) then Effect(a, p, now, t) else t == a
  {
    CredibleIs(a, p, now);
    RecordedIs(a, p.requestId, p.item, p.kind);
    RecordedIs(a, p.requestId, p.item, Shown);
  }

  // -------------------------------------------------------------------- all accounts --

  /** Every transaction refuses a user without a row, and otherwise touches that user's row alone. */
  lemma OwnRowOnly(c: Catalog, accounts: map<Id, Account>, u: Id, p: PreferenceChanges, e: Feedback, k: nat,
                   r: Response, now: int)
    ensures u !in accounts ==>
              && ChangeFor(c, accounts, u, p, now) == (accounts, Http(401))
              && EventFor(accounts, u, e, now) == (accounts, Http(401))
              && ReadFor(accounts, u, r.requestId, k, now) == Refusal(401)
              && CommitFor(accounts, u, k, r, now) == (accounts, Some(Http(401)))
    ensures u in accounts ==>
              && ChangeFor(c, accounts, u, p, now) ==
                   (accounts[u := ChangeTo(c, accounts[u], p, now).0], ChangeTo(c, accounts[u], p, now).1)
              && EventFor(accounts, u, e, now) ==
                   (accounts[u := EventTo(accounts[u], e, now).0], EventTo(accounts[u], e, now).1)
              && ReadFor(accounts, u, r.requestId, k, now) == Read(accounts[u], r.requestId, k, now)
              && CommitFor(accounts, u, k, r, now) ==
                   (accounts[u := Commit(accounts[u], k, r, now).0], Commit(accounts[u], k, r, now).1)
  {
  }

  // --------------------------------------------------------------------- maintenance --

  /** Maintenance keeps exactly the journal rows of the last ninety days, and everything else. */
  lemma PurgeMeans(a: Account, now: int)
    ensures var t, horizon := Purge(a, now), now - 7_776_000_000;
            && t == a.(events := t.events, requests := t.requests, mutations := t.mutations)
            && (forall e :: e in t.events <==> e in a.events && a.events[e].createdMs >= horizon)
            && (forall e :: e in t.events ==> t.events[e] == a.events[e])
            && (forall r :: r in t.requests <==> r in a.requests && a.requests[r].createdMs >= horizon)
            && (forall r :: r in t.requests ==> t.requests[r] == a.requests[r])
            && (forall m :: m in t.mutations <==> m in a.mutations && a.mutations[m].createdMs >= horizon)
            && (forall m :: m in t.mutations ==> t.mutations[m] == a.mutations[m])
  {
  }
}
