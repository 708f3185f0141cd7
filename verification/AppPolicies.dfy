/** The web application's transactions on one account: preferences, recommendations and feedback.

    Every transaction locks the row of its user first, so the transactions of one user run one
    after the other, and none touches another user's rows. */
module AppPolicies {
  import opened Basics
  import opened Selections
  import VectorCaches

  type Vector = VectorCaches.Vector

  /** A result, or the HTTP status of the refusal. */
  datatype Outcome<T> = Ok(value: T) | Http(status: int)

  datatype Kind = Shown | Save | Dismiss | Watched

  datatype ItemState = ItemState(saved: bool, watched: bool, dismissed: bool)

  datatype Change = Change(item: Id, value: int)

  datatype PreferenceChanges = PreferenceChanges(requestId: Id, changes: seq<Change>)

  datatype PreferenceResult = PreferenceResult(revision: nat, count: nat)

  datatype Response = Response(requestId: Id, revision: nat, selection: Selection)

  datatype Feedback = Feedback(eventId: Id, requestId: Id, item: Id, kind: Kind, timeMs: int)

  datatype Stored = Stored(k: nat, createdMs: int, response: Response)
  datatype EventRow = EventRow(payload: Feedback, createdMs: int)
  datatype Mutation = Mutation(payload: PreferenceChanges, response: PreferenceResult, createdMs: int)

  /** The rows of one user. */
  datatype Account = Account(enabled: bool, consented: bool, revision: nat,
                             prefs: map<Id, int>, states: map<Id, ItemState>,
                             requests: map<Id, Stored>, events: map<Id, EventRow>, mutations: map<Id, Mutation>)

  const DAY_MS: int := 86_400_000
  const SKEW_MS: int := 30_000
  const PREFERENCE_LIMIT: nat := 500

  /** Why an account is refused, if it is. */
  function Refused(a: Account): Option<int> {
    if !a.enabled then Some(401) else if !a.consented then Some(403) else None
  }

  // ------------------------------------------------------------- preference changes --

  predicate Repeats(changes: seq<Change>) {
    exists i, j :: 0 <= i < j < |changes| && changes[i].item == changes[j].item
  }

  predicate AllKnown(c: Catalog, changes: seq<Change>) {
    forall i :: 0 <= i < |changes| ==> Known(c, changes[i].item)
  }

  /** The preferences after the first `n` changes; zero deletes. */
  function Changed(prefs: map<Id, int>, changes: seq<Change>, n: nat): map<Id, int>
    requires n <= |changes|
  {
    if n == 0 then prefs
    else
      var before, x := Changed(prefs, changes, n - 1), changes[n - 1];
      if x.value == 0 then before - {x.item} else before[x.item := x.value]
  }

  function ChangeTo(c: Catalog, a: Account, p: PreferenceChanges, now: int): (Account, Outcome<PreferenceResult>) {
    if Refused(a).Some? then (a, Http(Refused(a).value))
    else if p.requestId in a.mutations then
      (a, if a.mutations[p.requestId].payload == p then Ok(a.mutations[p.requestId].response) else Http(409))
    else if Repeats(p.changes) || !AllKnown(c, p.changes) then (a, Http(422))
    else
      var prefs := Changed(a.prefs, p.changes, |p.changes|);
      var r := PreferenceResult(a.revision + 1, |prefs|);
      if |prefs| > PREFERENCE_LIMIT then (a, Http(422))
      else (a.(prefs := prefs, revision := a.revision + 1,
               mutations := a.mutations[p.requestId := Mutation(p, r, now)]), Ok(r))
  }

  /** With no item repeated, each change decides its item, and no other preference moves. */
  lemma {:induction false} ChangedExactly(prefs: map<Id, int>, changes: seq<Change>, n: nat, x: Id)
    requires n <= |changes| && !Repeats(changes)
    ensures forall i :: 0 <= i < n && changes[i].item == x ==>
              (x in Changed(prefs, changes, n) <==> changes[i].value != 0) &&
              (changes[i].value != 0 ==> Changed(prefs, changes, n)[x] == changes[i].value)
    ensures (forall i :: 0 <= i < n ==> changes[i].item != x) ==>
              (x in Changed(prefs, changes, n) <==> x in prefs) &&
              (x in prefs ==> Changed(prefs, changes, n)[x] == prefs[x])
  {
    if n > 0 { ChangedExactly(prefs, changes, n - 1, x); }
  }

  // --------------------------------------------------------------- recommendations --

  function Marked(states: map<Id, ItemState>): set<Id> {
    set x | x in states && (states[x].saved || states[x].watched || states[x].dismissed)
  }

  /** What a recommendation must not contain. */
  function Blocked(a: Account): set<Id> { a.prefs.Keys + Marked(a.states) }

  /** The first transaction: refuse, answer from the store, or hand out the inputs. */
  datatype Reading = Refusal(status: int) | Answered(response: Response) | Fresh(inputs: Inputs)

  datatype Inputs = Inputs(revision: nat, prefs: map<Id, int>, blocked: set<Id>)

  function InputsOf(a: Account): Inputs { Inputs(a.revision, a.prefs, Blocked(a)) }

  function Read(a: Account, requestId: Id, k: nat, now: int): Reading {
    if Refused(a).Some? then Refusal(Refused(a).value)
    else if requestId in a.requests then
      var r := a.requests[requestId];
      if r.k != k || now - r.createdMs >= DAY_MS then Refusal(409) else Answered(r.response)
    else Fresh(InputsOf(a))
  }

  /** The second transaction: `None` asks for another attempt. Expiry is not checked again. */
  function Commit(a: Account, k: nat, r: Response, now: int): (Account, Option<Outcome<Response>>) {
    if Refused(a).Some? then (a, Some(Http(Refused(a).value)))
    else if r.requestId in a.requests then
      (a, Some(if a.requests[r.requestId].k != k then Http(409) else Ok(a.requests[r.requestId].response)))
    else if a.revision != r.revision then (a, None)
    else (a.(requests := a.requests[r.requestId := Stored(k, now, r)]), Some(Ok(r)))
  }

  // --------------------------------------------------------------------- feedback --

  function IssuedIds(r: Response): set<Id> {
    set i | 0 <= i < |r.selection.items| :: r.selection.items[i].id
  }

  predicate Recorded(events: map<Id, EventRow>, requestId: Id, item: Id, kind: Kind) {
    exists e :: e in events && events[e].payload.requestId == requestId && events[e].payload.item == item &&
                events[e].payload.kind == kind
  }

  function MarkItem(states: map<Id, ItemState>, p: Feedback): map<Id, ItemState> {
    var s := if p.item in states then states[p.item] else ItemState(false, false, false);
    match p.kind
    case Shown => states
    case Save => states[p.item := s.(saved := true)]
    case Dismiss => states[p.item := s.(dismissed := true)]
    case Watched => states[p.item := s.(watched := true)]
  }

  function EventTo(a: Account, p: Feedback, now: int): (Account, Outcome<bool>) {
    if Refused(a).Some? then (a, Http(Refused(a).value))
    else if p.eventId in a.events then (a, if a.events[p.eventId].payload == p then Ok(true) else Http(409))
    else if p.requestId !in a.requests || p.item !in IssuedIds(a.requests[p.requestId].response) then (a, Http(422))
    else if !(Max(now - DAY_MS, a.requests[p.requestId].createdMs - SKEW_MS) <= p.timeMs <= now + SKEW_MS)
    then (a, Http(422))
    else if Recorded(a.events, p.requestId, p.item, p.kind) then (a, Http(409))
    else if p.kind != Shown && !Recorded(a.events, p.requestId, p.item, Shown) then (a, Http(409))
    else (a.(events := a.events[p.eventId := EventRow(p, now)], states := MarkItem(a.states, p),
             revision := if p.kind == Shown then a.revision else a.revision + 1), Ok(false))
  }

  /** No action on an item of a response is recorded under two event ids. */
  ghost predicate OncePerAction(events: map<Id, EventRow>) {
    forall d, e :: d in events && e in events && d != e ==>
      events[d].payload.requestId != events[e].payload.requestId || events[d].payload.item != events[e].payload.item ||
      events[d].payload.kind != events[e].payload.kind
  }

  lemma EventKeepsOnce(a: Account, p: Feedback, now: int)
    requires OncePerAction(a.events)
    ensures OncePerAction(EventTo(a, p, now).0.events)
  {
  }

  // ------------------------------------------------------------------ maintenance --

  const RETENTION_MS: int := 90 * 86_400_000

  /** Drop journal rows past their retention. Preferences, item states and revisions stay. */
  function Purge(a: Account, now: int): Account {
    a.(events := map e | e in a.events && a.events[e].createdMs >= now - RETENTION_MS :: a.events[e],
       requests := map r | r in a.requests && a.requests[r].createdMs >= now - RETENTION_MS :: a.requests[r],
       mutations := map m | m in a.mutations && a.mutations[m].createdMs >= now - RETENTION_MS :: a.mutations[m])
  }

  // ------------------------------------------------------- transactions on all accounts --

  /** A request for a user without a row is refused like one for a disabled account. */
  const NO_ACCOUNT: int := 401

  function ChangeFor(c: Catalog, accounts: map<Id, Account>, u: Id, p: PreferenceChanges,
                     now: int): (map<Id, Account>, Outcome<PreferenceResult>)
  {
    if u !in accounts then (accounts, Http(NO_ACCOUNT))
    else var r := ChangeTo(c, accounts[u], p, now); (accounts[u := r.0], r.1)
  }

  function EventFor(accounts: map<Id, Account>, u: Id, p: Feedback, now: int): (map<Id, Account>, Outcome<bool>) {
    if u !in accounts then (accounts, Http(NO_ACCOUNT))
    else var r := EventTo(accounts[u], p, now); (accounts[u := r.0], r.1)
  }

  function ReadFor(accounts: map<Id, Account>, u: Id, requestId: Id, k: nat, now: int): Reading {
    if u !in accounts then Refusal(NO_ACCOUNT) else Read(accounts[u], requestId, k, now)
  }

  function CommitFor(accounts: map<Id, Account>, u: Id, k: nat, r: Response,
                     now: int): (map<Id, Account>, Option<Outcome<Response>>)
  {
    if u !in accounts then (accounts, Some(Http(NO_ACCOUNT)))
    else var p := Commit(accounts[u], k, r, now); (accounts[u := p.0], p.1)
  }

  function PurgeAll(accounts: map<Id, Account>, now: int): map<Id, Account> {
    map u | u in accounts :: Purge(accounts[u], now)
  }

  function StatusFor(accounts: map<Id, Account>, u: Id, enabled: bool, consented: bool): map<Id, Account> {
    if u !in accounts then accounts else accounts[u := accounts[u].(enabled := enabled, consented := consented)]
  }
}
