/** The transactions of the pilot's feedback journal and its projection, as functions of the store.

    Every transaction runs alone: the database takes the write lock first. */
module PilotStores {
  import opened Basics
  import opened PilotModels
  import opened PilotPolicies

  datatype Kind = Shown | Save | Dismiss | Watched

  /** A feedback request. `None` stands for a value of the wrong type or outside the known kinds. */
  datatype Payload = NotAnEvent
    | Fields(schemaVersion: int, eventId: Id, timeMs: Option<int>, user: Id, item: Id, kind: Option<Kind>, request: Id)

  /** A journal row; its sequence number is one more than its position. */
  datatype Row = Row(eventId: Id, payload: Payload, user: Id, request: Id, item: Id, kind: Kind, committedMs: int)

  datatype Impression = Impression(user: Id, k: int, createdMs: int, response: Response)

  datatype Receipt = Receipt(duplicate: bool, sequence: nat)

  datatype Outcome<T> = Done(value: T) | Conflict | Invalid | Changed

  datatype Db = Db(generation: nat, impressions: map<Id, Impression>, exposures: set<(Id, Id)>, events: seq<Row>,
                   blocked: set<(Id, Id)>, features: map<Id, Counts>, unavailable: set<Id>)

  const DAY_MS: int := 86_400_000
  const SKEW_MS: int := 30_000

  // ------------------------------------------------------------------- queries --

  /** The position of the event with an id. */
  function FindEvent(events: seq<Row>, id: Id): (r: Option<nat>)
    ensures r.Some? ==> r.value < |events| && events[r.value].eventId == id
    ensures r.None? ==> forall i :: 0 <= i < |events| ==> events[i].eventId != id
  {
    if events == [] then None
    else if events[|events| - 1].eventId == id then Some(|events| - 1)
    else FindEvent(events[..|events| - 1], id)
  }

  predicate Recorded(events: seq<Row>, request: Id, item: Id, kind: Kind) {
    exists i :: 0 <= i < |events| && Matches(events[i], request, item, kind)
  }

  predicate Matches(e: Row, request: Id, item: Id, kind: Kind) {
    e.request == request && e.item == item && e.kind == kind
  }

  function LastCommitted(events: seq<Row>): Option<int> {
    if events == [] then None
    else
      var rest, last := LastCommitted(events[..|events| - 1]), events[|events| - 1].committedMs;
      if rest.Some? && rest.value >= last then rest else Some(last)
  }

  function BlockedFor(blocked: set<(Id, Id)>, user: Id): set<Id> {
    set p | p in blocked && p.0 == user :: p.1
  }

  function SnapshotOf(db: Db, user: Id): Snapshot {
    Snapshot(db.generation, BlockedFor(db.blocked, user), db.unavailable, db.features, LastCommitted(db.events))
  }

  /** A stored response is returned to the same inputs; other inputs conflict. */
  function Cached(impressions: map<Id, Impression>, request: Id, user: Id, k: int): Outcome<Option<Response>> {
    if request !in impressions then Done(None)
    else if impressions[request].user != user || impressions[request].k != k then Conflict
    else Done(Some(impressions[request].response))
  }

  function ItemsOf(r: Response): set<Id> {
    set i | 0 <= i < |r.items| :: r.items[i].item
  }

  function Exposed(r: Response): set<(Id, Id)> {
    set x | x in ItemsOf(r) :: (r.requestId, x)
  }

  // -------------------------------------------------------- transactions on values --

  /** Store a response, unless its request was answered before or feedback has moved on. */
  function PublishTo(db: Db, r: Response, k: int, now: int): (Db, Outcome<Response>) {
    match Cached(db.impressions, r.requestId, r.userId, k)
    case Done(Some(stored)) => (db, Done(stored))
    case Done(None) =>
      if db.generation != r.generation then (db, Changed)
      else (db.(impressions := db.impressions[r.requestId := Impression(r.userId, k, now, r)],
                exposures := db.exposures + Exposed(r)), Done(r))
    case _ => (db, Conflict)
  }

  predicate WellFormed(p: Payload) {
    && p.Fields? && p.schemaVersion == 1
    && Identifier(p.eventId) && Identifier(p.user) && Identifier(p.item) && Identifier(p.request)
    && p.kind.Some? && p.timeMs.Some?
  }

  function RowFor(p: Payload, now: int): Row
    requires WellFormed(p)
  {
    Row(p.eventId, p, p.user, p.request, p.item, p.kind.value, now)
  }

  /** What one journal row adds to the counters. */
  function Count(features: map<Id, Counts>, e: Row): map<Id, Counts> {
    var c := if e.item in features then features[e.item] else Counts(0, 0);
    features[e.item := match e.kind
                       case Shown => c.(shown := c.shown + 1)
                       case Save => c.(saved := c.saved + 1)
                       case _ => c]
  }

  function Block(blocked: set<(Id, Id)>, e: Row): set<(Id, Id)> {
    if e.kind == Shown then blocked else blocked + {(e.user, e.item)}
  }

  function Append(db: Db, e: Row): Db {
    db.(events := db.events + [e], features := Count(db.features, e), blocked := Block(db.blocked, e),
        generation := db.generation + 1)
  }

  /** Why an event that is new to the journal is refused, if it is. */
  function Refusal(db: Db, p: Payload, now: int): Option<Outcome<Receipt>>
    requires WellFormed(p)
  {
    if !(now - DAY_MS <= p.timeMs.value <= now + SKEW_MS) then Some(Invalid)
    else if p.request !in db.impressions || db.impressions[p.request].user != p.user ||
            (p.request, p.item) !in db.exposures then Some(Invalid)
    else if p.timeMs.value < db.impressions[p.request].createdMs - SKEW_MS then Some(Invalid)
    else if p.kind.value != Shown && !Recorded(db.events, p.request, p.item, Shown) then Some(Conflict)
    else if Recorded(db.events, p.request, p.item, p.kind.value) then Some(Conflict)
    else None
  }

  function ApplyTo(db: Db, p: Payload, now: int): (Db, Outcome<Receipt>) {
    if !WellFormed(p) then (db, Invalid)
    else match FindEvent(db.events, p.eventId)
      case Some(i) => (db, if db.events[i].payload == p then Done(Receipt(true, i + 1)) else Conflict)
      case None =>
        match Refusal(db, p, now)
        case Some(why) => (db, why)
        case None => (Append(db, RowFor(p, now)), Done(Receipt(false, |db.events| + 1)))
  }

  function SetUnavailableTo(db: Db, item: Id, value: bool): (Db, Outcome<()>) {
    if !Identifier(item) then (db, Invalid)
    else (db.(unavailable := if value then db.unavailable + {item} else db.unavailable - {item},
              generation := db.generation + 1), Done(()))
  }
}
