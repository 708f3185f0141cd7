/** Many requests, preference changes and feedback interleaving over the accounts and the shared
    vector cache. */
module AppRuns {
  import opened Basics
  import opened Selections
  import opened AppPolicies
  import V = VectorCaches

  /** Where a recommendation call stands between two of its atomic steps. */
  datatype Client = Idle
    | Reading(uid: Id, request: Id, k: nat, attempt: nat)
    | Holding(uid: Id, request: Id, k: nat, attempt: nat, readAt: int, inputs: Inputs)
    | Missed(uid: Id, request: Id, k: nat, attempt: nat, readAt: int, inputs: Inputs)
    | Folded(uid: Id, request: Id, k: nat, attempt: nat, readAt: int, inputs: Inputs, vector: Vector)
    | Finished(uid: Id, request: Id, k: nat, outcome: Outcome<Response>)

  datatype State = State(accounts: map<Id, Account>, cache: seq<V.Entry>, clients: map<nat, Client>)

  datatype Action =
    | Begin(client: nat, user: Id, request: Id, k: nat)
    | ReadTx(client: nat, now: int)
    | Lookup(client: nat)
    | FoldIn(client: nat)
    | StoreTx(client: nat, query: nat -> Reply, now: int)
    | ChangeTx(user: Id, changes: PreferenceChanges, now: int)
    | EventTx(user: Id, feedback: Feedback, now: int)
    | Maintain(now: int)
    | SetStatus(user: Id, enabled: bool, consented: bool)

  const ATTEMPTS: nat := 3

  /** The immutable surroundings: the catalogue and how preferences fold in. */
  datatype World = World(catalog: Catalog, foldIn: map<Id, int> -> Vector)

  function ClientOf(s: State, c: nat): Client { if c in s.clients then s.clients[c] else Idle }

  /** The response computed from the inputs of one attempt. */
  function Answer(w: World, request: Id, k: nat, inputs: Inputs, vector: Vector, query: nat -> Reply): Response {
    Response(request, inputs.revision, Select(w.catalog, inputs.blocked, k, vector != V.NoTaste, query))
  }

  function AfterRead(x: Client, r: Reading, now: int): Client
    requires x.Reading?
  {
    match r
    case Refusal(status) => Finished(x.uid, x.request, x.k, Http(status))
    case Answered(response) => Finished(x.uid, x.request, x.k, Ok(response))
    case Fresh(inputs) => Holding(x.uid, x.request, x.k, x.attempt, now, inputs)
  }

  function AfterStore(x: Client, r: Option<Outcome<Response>>): Client
    requires x.Folded?
  {
    match r
    case Some(outcome) => Finished(x.uid, x.request, x.k, outcome)
    case None =>
      if x.attempt + 1 < ATTEMPTS then Reading(x.uid, x.request, x.k, x.attempt + 1)
      else Finished(x.uid, x.request, x.k, Http(503))
  }

  /** A client's step; one that is not at the right point does nothing. */
  function ClientStep(w: World, s: State, a: Action): State {
    match a
    case Begin(c, user, request, k) =>
      if ClientOf(s, c).Idle? || ClientOf(s, c).Finished?
      then s.(clients := s.clients[c := Reading(user, request, k, 0)]) else s
    case ReadTx(c, now) =>
      var x := ClientOf(s, c);
      if x.Reading? then
        s.(clients := s.clients[c := AfterRead(x, ReadFor(s.accounts, x.uid, x.request, x.k, now), now)])
      else s
    case Lookup(c) =>
      var x := ClientOf(s, c);
      if x.Holding? then
        var g := V.Get(s.cache, V.Key(x.uid, x.inputs.revision));
        s.(cache := g.0, clients := s.clients[c :=
          match g.1
          case Some(v) => Folded(x.uid, x.request, x.k, x.attempt, x.readAt, x.inputs, v)
          case None => Missed(x.uid, x.request, x.k, x.attempt, x.readAt, x.inputs)])
      else s
    case FoldIn(c) =>
      var x := ClientOf(s, c);
      if x.Missed? then
        var v := w.foldIn(x.inputs.prefs);
        s.(cache := V.Put(s.cache, V.Key(x.uid, x.inputs.revision), v),
           clients := s.clients[c := Folded(x.uid, x.request, x.k, x.attempt, x.readAt, x.inputs, v)])
      else s
    case StoreTx(c, query, now) =>
      var x := ClientOf(s, c);
      if x.Folded? then
        var p := CommitFor(s.accounts, x.uid, x.k, Answer(w, x.request, x.k, x.inputs, x.vector, query), now);
        s.(accounts := p.0, clients := s.clients[c := AfterStore(x, p.1)])
      else s
    case _ => s
  }

  /** A step that is not part of a recommendation. */
  function OtherStep(w: World, s: State, a: Action): State {
    match a
    case ChangeTx(u, changes, now) => s.(accounts := ChangeFor(w.catalog, s.accounts, u, changes, now).0)
    case EventTx(u, feedback, now) => s.(accounts := EventFor(s.accounts, u, feedback, now).0)
    case Maintain(now) => s.(accounts := PurgeAll(s.accounts, now))
    case SetStatus(u, enabled, consented) => s.(accounts := StatusFor(s.accounts, u, enabled, consented))
    case _ => s
  }

  predicate IsClientAction(a: Action) { a.Begin? || a.ReadTx? || a.Lookup? || a.FoldIn? || a.StoreTx? }

  function Step(w: World, s: State, a: Action): State {
    if IsClientAction(a) then ClientStep(w, s, a) else OtherStep(w, s, a)
  }

  /** Step `i` of a run. */
  ghost predicate Next(w: World, run: seq<State>, acts: seq<Action>, i: nat)
    requires |run| == |acts| + 1 && i < |acts|
  {
    run[i + 1] == Step(w, run[i], acts[i])
  }

  /** Runs start with accounts in any state, an empty cache and no calls under way. */
  ghost predicate IsRun(w: World, run: seq<State>, acts: seq<Action>) {
    && |run| == |acts| + 1 && run[0].cache == [] && run[0].clients == map[]
    && forall i :: 0 <= i < |acts| ==> Next(w, run, acts, i)
  }

  // --------------------------------------------- an account is what its revision says --

  /** Preferences and item states move only together with the revision. */
  ghost predicate Later(a: Account, b: Account) {
    a.revision <= b.revision && (a.revision == b.revision ==> a.prefs == b.prefs && a.states == b.states)
  }

  ghost predicate AllLater(s: map<Id, Account>, t: map<Id, Account>) {
    s.Keys == t.Keys && forall u :: u in s ==> Later(s[u], t[u])
  }

  lemma ClientStepLater(w: World, s: State, a: Action, t: State)
    requires t == ClientStep(w, s, a)
    ensures AllLater(s.accounts, t.accounts)
  {
  }

  lemma OtherStepLater(w: World, s: State, a: Action, t: State)
    requires t == OtherStep(w, s, a)
    ensures AllLater(s.accounts, t.accounts)
  {
  }

  lemma StepLater(w: World, s: State, a: Action, t: State)
    requires t == Step(w, s, a)
    ensures AllLater(s.accounts, t.accounts)
  {
    if IsClientAction(a) { ClientStepLater(w, s, a, t); } else { OtherStepLater(w, s, a, t); }
  }

  lemma LaterTrans(s: map<Id, Account>, t: map<Id, Account>, u: map<Id, Account>)
    requires AllLater(s, t) && AllLater(t, u)
    ensures AllLater(s, u)
  {
    forall x | x in s ensures Later(s[x], u[x]) { assert Later(s[x], t[x]) && Later(t[x], u[x]); }
  }

  lemma RunStepLater(w: World, run: seq<State>, acts: seq<Action>, j: nat)
    requires IsRun(w, run, acts) && j + 1 < |run|
    ensures AllLater(run[j].accounts, run[j + 1].accounts)
  {
    assert Next(w, run, acts, j);
    StepLater(w, run[j], acts[j], run[j + 1]);
  }

  lemma {:induction false} RunLater(w: World, run: seq<State>, acts: seq<Action>, i: nat, j: nat)
    requires IsRun(w, run, acts) && i <= j < |run|
    ensures AllLater(run[i].accounts, run[j].accounts)
  {
    if i < j {
      RunLater(w, run, acts, i, j - 1);
      RunStepLater(w, run, acts, j - 1);
      LaterTrans(run[i].accounts, run[j - 1].accounts, run[j].accounts);
    }
  }

  /** In every interleaving, a user's preferences and item states are a function of the revision. */
  lemma RevisionDecides(w: World, run: seq<State>, acts: seq<Action>, i: nat, j: nat, u: Id)
    requires IsRun(w, run, acts) && i < |run| && j < |run| && u in run[i].accounts
    ensures u in run[j].accounts
    ensures run[i].accounts[u].revision == run[j].accounts[u].revision ==>
              InputsOf(run[i].accounts[u]) == InputsOf(run[j].accounts[u]) &&
              run[i].accounts[u].states == run[j].accounts[u].states
  {
    if i <= j { RunLater(w, run, acts, i, j); } else { RunLater(w, run, acts, j, i); }
    assert Later(run[i].accounts[u], run[j].accounts[u]) || Later(run[j].accounts[u], run[i].accounts[u]);
  }

  // ------------------------------------------------------------- cache and clients --

  /** At some instant up to `j` the user had these inputs. */
  ghost predicate Was(run: seq<State>, j: nat, u: Id, inputs: Inputs)
    requires j < |run|
  {
    exists i :: 0 <= i <= j && u in run[i].accounts && InputsOf(run[i].accounts[u]) == inputs
  }

  ghost predicate Makes(w: World, inputs: Inputs, e: V.Entry) {
    inputs.revision == e.key.revision && e.vector == w.foldIn(inputs.prefs)
  }

  /** A cached vector folds in preferences its user really had at its revision. */
  ghost predicate EntryOk(w: World, run: seq<State>, j: nat, e: V.Entry)
    requires j < |run|
  {
    exists inputs :: Was(run, j, e.key.user, inputs) && Makes(w, inputs, e)
  }

  predicate InFlight(x: Client) { x.Holding? || x.Missed? || x.Folded? }

  ghost predicate ClientOk(w: World, run: seq<State>, j: nat, x: Client)
    requires j < |run|
  {
    && (InFlight(x) ==> Was(run, j, x.uid, x.inputs))
    && (x.Folded? ==> x.vector == w.foldIn(x.inputs.prefs))
  }

  ghost predicate CacheOk(w: World, run: seq<State>, j: nat, cache: seq<V.Entry>)
    requires j < |run|
  {
    V.UniqueKeys(cache) && |cache| <= V.CAPACITY && forall e :: V.Holds(cache, e) ==> EntryOk(w, run, j, e)
  }

  ghost predicate ClientsOk(w: World, run: seq<State>, j: nat, clients: map<nat, Client>)
    requires j < |run|
  {
    forall c :: c in clients ==> ClientOk(w, run, j, clients[c])
  }

  ghost predicate Inv(w: World, run: seq<State>, j: nat)
    requires j < |run|
  {
    CacheOk(w, run, j, run[j].cache) && ClientsOk(w, run, j, run[j].clients)
  }

  lemma WasKept(run: seq<State>, i: nat, j: nat, u: Id, inputs: Inputs)
    requires i <= j < |run| && Was(run, i, u, inputs)
    ensures Was(run, j, u, inputs)
  {
  }

  /** One revision, one set of inputs. */
  lemma WasUnique(w: World, run: seq<State>, acts: seq<Action>, j: nat, u: Id, p: Inputs, q: Inputs)
    requires IsRun(w, run, acts) && j < |run| && Was(run, j, u, p) && Was(run, j, u, q) && p.revision == q.revision
    ensures p == q
  {
    var i :| 0 <= i <= j && u in run[i].accounts && InputsOf(run[i].accounts[u]) == p;
    var t :| 0 <= t <= j && u in run[t].accounts && InputsOf(run[t].accounts[u]) == q;
    RevisionDecides(w, run, acts, i, t, u);
  }

  /** A cache hit equals folding in the caller's own preferences again. */
  lemma HitIsFresh(w: World, run: seq<State>, acts: seq<Action>, j: nat, x: Client)
    requires IsRun(w, run, acts) && j < |run| && Inv(w, run, j) && x.Holding? && ClientOk(w, run, j, x)
    ensures var hit := V.Get(run[j].cache, V.Key(x.uid, x.inputs.revision)).1;
            hit.Some? ==> hit.value == w.foldIn(x.inputs.prefs)
  {
    var key := V.Key(x.uid, x.inputs.revision);
    V.GetKeeps(run[j].cache, key);
    var hit := V.Get(run[j].cache, key).1;
    if hit.Some? {
      var e := V.Entry(key, hit.value);
      assert EntryOk(w, run, j, e);
      var inputs :| Was(run, j, e.key.user, inputs) && Makes(w, inputs, e);
      WasUnique(w, run, acts, j, x.uid, inputs, x.inputs);
    }
  }

  lemma EntryKept(w: World, run: seq<State>, j: nat, e: V.Entry)
    requires j + 1 < |run| && EntryOk(w, run, j, e)
    ensures EntryOk(w, run, j + 1, e)
  {
    var inputs :| Was(run, j, e.key.user, inputs) && Makes(w, inputs, e);
    WasKept(run, j, j + 1, e.key.user, inputs);
  }

  lemma ClientKept(w: World, run: seq<State>, j: nat, x: Client)
    requires j + 1 < |run| && ClientOk(w, run, j, x)
    ensures ClientOk(w, run, j + 1, x)
  {
    if InFlight(x) { WasKept(run, j, j + 1, x.uid, x.inputs); }
  }

  lemma CacheStep(w: World, run: seq<State>, acts: seq<Action>, j: nat)
    requires IsRun(w, run, acts) && j + 1 < |run| && Inv(w, run, j)
    ensures CacheOk(w, run, j + 1, run[j + 1].cache)
  {
    assert Next(w, run, acts, j);
    var s, t, a := run[j], run[j + 1], acts[j];
    if a.Lookup? && ClientOf(s, a.client).Holding? {
      var x := ClientOf(s, a.client);
      V.GetKeeps(s.cache, V.Key(x.uid, x.inputs.revision));
      forall e | V.Holds(t.cache, e) ensures EntryOk(w, run, j + 1, e) { EntryKept(w, run, j, e); }
    } else if a.FoldIn? && ClientOf(s, a.client).Missed? {
      var x := ClientOf(s, a.client);
      var e0 := V.Entry(V.Key(x.uid, x.inputs.revision), w.foldIn(x.inputs.prefs));
      V.PutKeeps(s.cache, e0.key, e0.vector);
      assert ClientOk(w, run, j, x);
      WasKept(run, j, j + 1, x.uid, x.inputs);
      assert EntryOk(w, run, j + 1, e0);
      forall e | V.Holds(t.cache, e) ensures EntryOk(w, run, j + 1, e) {
        if e != e0 { EntryKept(w, run, j, e); }
      }
    } else {
      assert t.cache == s.cache;
      forall e | V.Holds(t.cache, e) ensures EntryOk(w, run, j + 1, e) { EntryKept(w, run, j, e); }
    }
  }

  /** The client that moved. */
  lemma ActorOk(w: World, run: seq<State>, acts: seq<Action>, j: nat)
    requires IsRun(w, run, acts) && j + 1 < |run| && Inv(w, run, j) && IsClientAction(acts[j])
    requires acts[j].client in run[j + 1].clients
    ensures ClientOk(w, run, j + 1, run[j + 1].clients[acts[j].client])
  {
    assert Next(w, run, acts, j);
    var s, t, a := run[j], run[j + 1], acts[j];
    var x, y := ClientOf(s, a.client), t.clients[a.client];
    if a.client in s.clients { ClientKept(w, run, j, x); }
    if a.Lookup? && x.Holding? {
      HitIsFresh(w, run, acts, j, x);
    } else if a.ReadTx? && x.Reading? && y.Holding? {
      assert t.accounts == s.accounts;
      assert Was(run, j + 1, x.uid, y.inputs) by {
        assert x.uid in run[j + 1].accounts && InputsOf(run[j + 1].accounts[x.uid]) == y.inputs;
      }
    }
  }

  lemma InvStep(w: World, run: seq<State>, acts: seq<Action>, j: nat)
    requires IsRun(w, run, acts) && j + 1 < |run| && Inv(w, run, j)
    ensures Inv(w, run, j + 1)
  {
    assert Next(w, run, acts, j);
    CacheStep(w, run, acts, j);
    var before, after := run[j].clients, run[j + 1].clients;
    forall c | c in after ensures ClientOk(w, run, j + 1, after[c]) {
      if IsClientAction(acts[j]) && acts[j].client == c {
        ActorOk(w, run, acts, j);
      } else {
        assert c in before && after[c] == before[c];
        ClientKept(w, run, j, before[c]);
      }
    }
  }

  lemma {:induction false} RunInv(w: World, run: seq<State>, acts: seq<Action>, j: nat)
    requires IsRun(w, run, acts) && j < |run|
    ensures Inv(w, run, j)
  {
    if j > 0 {
      RunInv(w, run, acts, j - 1);
      InvStep(w, run, acts, j - 1);
    }
  }

  // --------------------------------------------------------------------- theorems --

  /** Whatever interleaves, a lookup that hits returns the fold-in of the preferences its caller read. */
  lemma CacheHitIsFoldIn(w: World, run: seq<State>, acts: seq<Action>, j: nat, c: nat)
    requires IsRun(w, run, acts) && j < |run| && c in run[j].clients && run[j].clients[c].Holding?
    ensures var x := run[j].clients[c];
            var hit := V.Get(run[j].cache, V.Key(x.uid, x.inputs.revision)).1;
            hit.Some? ==> hit.value == w.foldIn(x.inputs.prefs)
  {
    RunInv(w, run, acts, j);
    HitIsFresh(w, run, acts, j, run[j].clients[c]);
  }

  /** A response stored by a step is the selection for the account as it is at that instant: its
      vector folds in the current preferences, cached or not, and it excludes everything preferred,
      saved, watched or dismissed by then. */
  lemma StoredIsCurrent(w: World, run: seq<State>, acts: seq<Action>, j: nat, u: Id, request: Id)
    requires IsRun(w, run, acts) && j + 1 < |run| && u in run[j].accounts && u in run[j + 1].accounts
    requires request !in run[j].accounts[u].requests && request in run[j + 1].accounts[u].requests
    ensures acts[j].StoreTx?
    ensures var a, row := run[j].accounts[u], run[j + 1].accounts[u].requests[request];
            var tasted := w.foldIn(a.prefs) != V.NoTaste;
            && row.response.requestId == request && row.response.revision == a.revision
            && row.createdMs == acts[j].now
            && row.response.selection == Select(w.catalog, Blocked(a), row.k, tasted, acts[j].query)
            && (CatalogOk(w.catalog) ==>
                  Full(w.catalog, Blocked(a), row.k, row.response.selection) &&
                  Supplied(w.catalog, Blocked(a), row.k, tasted, acts[j].query, row.response.selection))
  {
    RunInv(w, run, acts, j);
    assert Next(w, run, acts, j);
    NewRequest(w, run[j], acts[j], u, request);
    var x := ClientOf(run[j], acts[j].client);
    assert ClientOk(w, run, j, x);
    var a := run[j].accounts[u];
    assert Was(run, j, u, InputsOf(a));
    WasUnique(w, run, acts, j, u, x.inputs, InputsOf(a));
    if CatalogOk(w.catalog) {
      SelectPromises(w.catalog, Blocked(a), x.k, w.foldIn(a.prefs) != V.NoTaste, acts[j].query);
      SelectSupplies(w.catalog, Blocked(a), x.k, w.foldIn(a.prefs) != V.NoTaste, acts[j].query);
    }
  }

  /** Only the second transaction of a recommendation stores a response, and only at an unmoved revision. */
  lemma NewRequest(w: World, s: State, a: Action, u: Id, request: Id)
    requires u in s.accounts && u in Step(w, s, a).accounts
    requires request !in s.accounts[u].requests && request in Step(w, s, a).accounts[u].requests
    ensures a.StoreTx? && ClientOf(s, a.client).Folded?
    ensures var x, row := ClientOf(s, a.client), Step(w, s, a).accounts[u].requests[request];
            && x.uid == u && x.inputs.revision == s.accounts[u].revision && row.k == x.k && row.createdMs == a.now
            && row.response == Answer(w, request, x.k, x.inputs, x.vector, a.query)
  {
  }

  lemma StoredExcludesBlocked(w: World, run: seq<State>, acts: seq<Action>, j: nat, u: Id, request: Id, i: nat)
    requires CatalogOk(w.catalog) && IsRun(w, run, acts) && j + 1 < |run| && u in run[j].accounts
    requires u in run[j + 1].accounts
    requires request !in run[j].accounts[u].requests && request in run[j + 1].accounts[u].requests
    requires i < |run[j + 1].accounts[u].requests[request].response.selection.items|
    ensures var a, x := run[j].accounts[u], run[j + 1].accounts[u].requests[request].response.selection.items[i].id;
            x !in a.prefs && (x in a.states ==> !a.states[x].saved && !a.states[x].watched && !a.states[x].dismissed) &&
            Available(w.catalog, x)
  {
    StoredIsCurrent(w, run, acts, j, u, request);
    var a, row := run[j].accounts[u], run[j + 1].accounts[u].requests[request];
    assert Eligible(w.catalog, Blocked(a), row.response.selection.items[i].id);
  }

  // ------------------------------------------------------------- what stays stored --

  /** Rows younger than the horizon `h` are still there, unchanged. */
  ghost predicate Keeps(a: Account, b: Account, h: int) {
    && (forall x :: x in a.requests && a.requests[x].createdMs >= h ==>
          x in b.requests && b.requests[x] == a.requests[x])
    && (forall x :: x in a.events && a.events[x].createdMs >= h ==>
          x in b.events && b.events[x] == a.events[x])
    && (forall x :: x in a.mutations && a.mutations[x].createdMs >= h ==>
          x in b.mutations && b.mutations[x] == a.mutations[x])
  }

  ghost predicate AllKeep(s: map<Id, Account>, t: map<Id, Account>, h: int) {
    s.Keys == t.Keys && forall u :: u in s ==> Keeps(s[u], t[u], h)
  }

  /** No maintenance from step `i` to step `j` reaches the horizon. */
  ghost predicate NoPurgePast(acts: seq<Action>, i: nat, j: nat, h: int)
    requires j <= |acts|
  {
    forall m :: i <= m < j && acts[m].Maintain? ==> acts[m].now - RETENTION_MS <= h
  }

  lemma StepKeeps(w: World, s: State, a: Action, t: State, h: int)
    requires t == Step(w, s, a) && (a.Maintain? ==> a.now - RETENTION_MS <= h)
    ensures AllKeep(s.accounts, t.accounts, h)
  {
    if IsClientAction(a) {
      ClientStepKeeps(w, s, a, t, h);
    } else {
      forall u | u in s.accounts ensures Keeps(s.accounts[u], t.accounts[u], h) {
        match a
        case ChangeTx(_, p, now) => ChangeKeeps(w.catalog, s.accounts[u], p, now, h);
        case EventTx(_, p, now) => EventKeeps(s.accounts[u], p, now, h);
        case Maintain(now) => PurgeKeeps(s.accounts[u], now, h);
        case _ =>
      }
    }
  }

  lemma ClientStepKeeps(w: World, s: State, a: Action, t: State, h: int)
    requires t == ClientStep(w, s, a)
    ensures AllKeep(s.accounts, t.accounts, h)
  {
    if a.StoreTx? && ClientOf(s, a.client).Folded? {
      var x := ClientOf(s, a.client);
      CommitKeeps(s.accounts, x.uid, x.k, Answer(w, x.request, x.k, x.inputs, x.vector, a.query), a.now, h);
    } else {
      assert t.accounts == s.accounts;
    }
  }

  lemma CommitKeeps(accounts: map<Id, Account>, u: Id, k: nat, r: Response, now: int, h: int)
    ensures AllKeep(accounts, CommitFor(accounts, u, k, r, now).0, h)
  {
  }

  lemma PurgeKeeps(a: Account, now: int, h: int)
    requires now - RETENTION_MS <= h
    ensures Keeps(a, Purge(a, now), h)
  {
  }

  lemma ChangeKeeps(c: Catalog, a: Account, p: PreferenceChanges, now: int, h: int)
    ensures Keeps(a, ChangeTo(c, a, p, now).0, h)
  {
  }

  lemma EventKeeps(a: Account, p: Feedback, now: int, h: int)
    ensures Keeps(a, EventTo(a, p, now).0, h)
  {
  }

  lemma KeepTrans(s: map<Id, Account>, t: map<Id, Account>, u: map<Id, Account>, h: int)
    requires AllKeep(s, t, h) && AllKeep(t, u, h)
    ensures AllKeep(s, u, h)
  {
    forall x | x in s ensures Keeps(s[x], u[x], h) { assert Keeps(s[x], t[x], h) && Keeps(t[x], u[x], h); }
  }

  lemma {:induction false} RunKeeps(w: World, run: seq<State>, acts: seq<Action>, i: nat, j: nat, h: int)
    requires IsRun(w, run, acts) && i <= j < |run| && NoPurgePast(acts, i, j, h)
    ensures AllKeep(run[i].accounts, run[j].accounts, h)
  {
    if i < j {
      RunKeeps(w, run, acts, i, j - 1, h);
      assert Next(w, run, acts, j - 1);
      StepKeeps(w, run[j - 1], acts[j - 1], run[j], h);
      KeepTrans(run[i].accounts, run[j - 1].accounts, run[j].accounts, h);
    }
  }

  /** A stored response stays as it is until a maintenance finds it older than the retention. */
  lemma StoredStays(w: World, run: seq<State>, acts: seq<Action>, i: nat, j: nat, u: Id, request: Id)
    requires IsRun(w, run, acts) && i <= j < |run| && u in run[i].accounts && request in run[i].accounts[u].requests
    requires NoPurgePast(acts, i, j, run[i].accounts[u].requests[request].createdMs)
    ensures u in run[j].accounts && request in run[j].accounts[u].requests
    ensures run[j].accounts[u].requests[request] == run[i].accounts[u].requests[request]
  {
    RunKeeps(w, run, acts, i, j, run[i].accounts[u].requests[request].createdMs);
    assert Keeps(run[i].accounts[u], run[j].accounts[u], run[i].accounts[u].requests[request].createdMs);
  }

  lemma MutationStays(w: World, run: seq<State>, acts: seq<Action>, i: nat, j: nat, u: Id, id: Id)
    requires IsRun(w, run, acts) && i <= j < |run| && u in run[i].accounts && id in run[i].accounts[u].mutations
    requires NoPurgePast(acts, i, j, run[i].accounts[u].mutations[id].createdMs)
    ensures u in run[j].accounts && id in run[j].accounts[u].mutations
    ensures run[j].accounts[u].mutations[id] == run[i].accounts[u].mutations[id]
  {
    RunKeeps(w, run, acts, i, j, run[i].accounts[u].mutations[id].createdMs);
    assert Keeps(run[i].accounts[u], run[j].accounts[u], run[i].accounts[u].mutations[id].createdMs);
  }

  lemma EventStays(w: World, run: seq<State>, acts: seq<Action>, i: nat, j: nat, u: Id, id: Id)
    requires IsRun(w, run, acts) && i <= j < |run| && u in run[i].accounts && id in run[i].accounts[u].events
    requires NoPurgePast(acts, i, j, run[i].accounts[u].events[id].createdMs)
    ensures u in run[j].accounts && id in run[j].accounts[u].events
    ensures run[j].accounts[u].events[id] == run[i].accounts[u].events[id]
  {
    RunKeeps(w, run, acts, i, j, run[i].accounts[u].events[id].createdMs);
    assert Keeps(run[i].accounts[u], run[j].accounts[u], run[i].accounts[u].events[id].createdMs);
  }

  lemma ChangeStep(w: World, run: seq<State>, acts: seq<Action>, i: nat)
    requires IsRun(w, run, acts) && i < |acts| && acts[i].ChangeTx?
    ensures run[i + 1].accounts == ChangeFor(w.catalog, run[i].accounts, acts[i].user, acts[i].changes, acts[i].now).0
  {
    assert Next(w, run, acts, i);
  }

  lemma EventStep(w: World, run: seq<State>, acts: seq<Action>, i: nat)
    requires IsRun(w, run, acts) && i < |acts| && acts[i].EventTx?
    ensures run[i + 1].accounts == EventFor(run[i].accounts, acts[i].user, acts[i].feedback, acts[i].now).0
  {
    assert Next(w, run, acts, i);
  }

  lemma ChangeRecorded(c: Catalog, accounts: map<Id, Account>, u: Id, p: PreferenceChanges, now: int)
    requires ChangeFor(c, accounts, u, p, now).1.Ok?
    ensures var t, result := ChangeFor(c, accounts, u, p, now).0, ChangeFor(c, accounts, u, p, now).1;
            && u in accounts && u in t && p.requestId in t[u].mutations
            && t[u].mutations[p.requestId].payload == p && Ok(t[u].mutations[p.requestId].response) == result
            && (p.requestId !in accounts[u].mutations ==> t[u].mutations[p.requestId].createdMs == now)
  {
  }

  lemma ChangeAgain(c: Catalog, accounts: map<Id, Account>, u: Id, q: PreferenceChanges, now: int)
    requires u in accounts && Refused(accounts[u]).None? && q.requestId in accounts[u].mutations
    ensures var row := accounts[u].mutations[q.requestId];
            ChangeFor(c, accounts, u, q, now) == (accounts, if q == row.payload then Ok(row.response) else Http(409))
  {
    assert accounts[u := accounts[u]] == accounts;
  }

  /** An accepted change is on record, and while its record is kept the same change returns the same
      result at any later instant and changes nothing; its key with other changes conflicts. */
  lemma ChangeRepeats(w: World, run: seq<State>, acts: seq<Action>, i: nat, j: nat, q: PreferenceChanges, later: int)
    requires IsRun(w, run, acts) && i < j < |run| && acts[i].ChangeTx? && q.requestId == acts[i].changes.requestId
    requires ChangeFor(w.catalog, run[i].accounts, acts[i].user, acts[i].changes, acts[i].now).1.Ok?
    ensures var u, id := acts[i].user, acts[i].changes.requestId;
            var result := ChangeFor(w.catalog, run[i].accounts, u, acts[i].changes, acts[i].now).1;
            && u in run[i + 1].accounts && u in run[j].accounts && id in run[i + 1].accounts[u].mutations
            && (id !in run[i].accounts[u].mutations ==> run[i + 1].accounts[u].mutations[id].createdMs == acts[i].now)
            && (NoPurgePast(acts, i + 1, j, run[i + 1].accounts[u].mutations[id].createdMs) &&
                Refused(run[j].accounts[u]).None? ==>
                  ChangeFor(w.catalog, run[j].accounts, u, q, later) ==
                  (run[j].accounts, if q == acts[i].changes then result else Http(409)))
  {
    var u, id := acts[i].user, acts[i].changes.requestId;
    ChangeStep(w, run, acts, i);
    RunLater(w, run, acts, i, j);
    ChangeRecorded(w.catalog, run[i].accounts, u, acts[i].changes, acts[i].now);
    var row := run[i + 1].accounts[u].mutations[id];
    if NoPurgePast(acts, i + 1, j, row.createdMs) {
      MutationStays(w, run, acts, i + 1, j, u, id);
      if Refused(run[j].accounts[u]).None? { ChangeAgain(w.catalog, run[j].accounts, u, q, later); }
    }
  }

  lemma EventRecorded(accounts: map<Id, Account>, u: Id, p: Feedback, now: int)
    requires EventFor(accounts, u, p, now).1.Ok?
    ensures var t := EventFor(accounts, u, p, now).0;
            && u in accounts && u in t && p.eventId in t[u].events && t[u].events[p.eventId].payload == p
            && (p.eventId !in accounts[u].events ==> t[u].events[p.eventId].createdMs == now)
  {
  }

  lemma EventAgain(accounts: map<Id, Account>, u: Id, q: Feedback, now: int)
    requires u in accounts && Refused(accounts[u]).None? && q.eventId in accounts[u].events
    ensures EventFor(accounts, u, q, now) ==
            (accounts, if q == accounts[u].events[q.eventId].payload then Ok(true) else Http(409))
  {
    assert accounts[u := accounts[u]] == accounts;
  }

  /** An accepted event is on record, and while its record is kept the same event is a duplicate at
      any later instant and changes nothing; its id with another payload conflicts. */
  lemma EventRepeats(w: World, run: seq<State>, acts: seq<Action>, i: nat, j: nat, q: Feedback, later: int)
    requires IsRun(w, run, acts) && i < j < |run| && acts[i].EventTx? && q.eventId == acts[i].feedback.eventId
    requires EventFor(run[i].accounts, acts[i].user, acts[i].feedback, acts[i].now).1.Ok?
    ensures var u, id := acts[i].user, acts[i].feedback.eventId;
            && u in run[i + 1].accounts && u in run[j].accounts && id in run[i + 1].accounts[u].events
            && (id !in run[i].accounts[u].events ==> run[i + 1].accounts[u].events[id].createdMs == acts[i].now)
            && (NoPurgePast(acts, i + 1, j, run[i + 1].accounts[u].events[id].createdMs) &&
                Refused(run[j].accounts[u]).None? ==>
                  EventFor(run[j].accounts, u, q, later) ==
                  (run[j].accounts, if q == acts[i].feedback then Ok(true) else Http(409)))
  {
    var u, id := acts[i].user, acts[i].feedback.eventId;
    EventStep(w, run, acts, i);
    RunLater(w, run, acts, i, j);
    EventRecorded(run[i].accounts, u, acts[i].feedback, acts[i].now);
    var row := run[i + 1].accounts[u].events[id];
    if NoPurgePast(acts, i + 1, j, row.createdMs) {
      EventStays(w, run, acts, i + 1, j, u, id);
      if Refused(run[j].accounts[u]).None? { EventAgain(run[j].accounts, u, q, later); }
    }
  }

  ghost predicate AllOnce(accounts: map<Id, Account>) {
    forall u :: u in accounts ==> OncePerAction(accounts[u].events)
  }

  lemma StepOnce(w: World, s: State, a: Action, t: State)
    requires t == Step(w, s, a) && AllOnce(s.accounts)
    ensures AllOnce(t.accounts)
  {
    if a.EventTx? {
      EventOnce(s.accounts, a.user, a.feedback, a.now);
    } else if a.Maintain? {
      PurgeOnce(s.accounts, a.now);
    } else {
      EventsStay(w, s, a, t);
    }
  }

  lemma EventsStay(w: World, s: State, a: Action, t: State)
    requires t == Step(w, s, a) && !a.EventTx? && !a.Maintain?
    ensures forall u :: u in t.accounts ==> u in s.accounts && t.accounts[u].events == s.accounts[u].events
  {
  }

  lemma EventOnce(accounts: map<Id, Account>, u: Id, p: Feedback, now: int)
    requires AllOnce(accounts)
    ensures AllOnce(EventFor(accounts, u, p, now).0)
  {
    if u in accounts { EventKeepsOnce(accounts[u], p, now); }
  }

  lemma PurgeOnce(accounts: map<Id, Account>, now: int)
    requires AllOnce(accounts)
    ensures AllOnce(PurgeAll(accounts, now))
  {
  }

  /** Accounts that start without doubles never record an action on an item of a response twice. */
  lemma {:induction false} EveryActionOnce(w: World, run: seq<State>, acts: seq<Action>, j: nat)
    requires IsRun(w, run, acts) && AllOnce(run[0].accounts) && j < |run|
    ensures AllOnce(run[j].accounts)
  {
    if j > 0 {
      EveryActionOnce(w, run, acts, j - 1);
      assert Next(w, run, acts, j - 1);
      StepOnce(w, run[j - 1], acts[j - 1], run[j]);
    }
  }

  /** Step `i` finishes a call with a response. */
  ghost predicate Finishes(w: World, s: State, a: Action, t: State, u: Id, request: Id, r: Response) {
    && t == Step(w, s, a) && IsClientAction(a)
    && (ClientOf(s, a.client).Reading? || ClientOf(s, a.client).Folded?)
    && exists k :: ClientOf(t, a.client) == Finished(u, request, k, Ok(r))
  }

  /** Whatever a successful call returns is what is stored under its request. */
  lemma FinishesStored(w: World, s: State, a: Action, t: State, u: Id, request: Id, r: Response)
    requires Finishes(w, s, a, t, u, request, r)
    ensures u in t.accounts && request in t.accounts[u].requests && t.accounts[u].requests[request].response == r
  {
  }

  /** Two calls of one user that succeed with one request id return the same response, as long as no
      maintenance drops it in between. */
  lemma OneResponsePerRequest(w: World, run: seq<State>, acts: seq<Action>, i: nat, j: nat, u: Id, request: Id,
                              r: Response, q: Response)
    requires IsRun(w, run, acts) && i <= j < |acts|
    requires Finishes(w, run[i], acts[i], run[i + 1], u, request, r)
    requires Finishes(w, run[j], acts[j], run[j + 1], u, request, q)
    ensures u in run[i + 1].accounts && request in run[i + 1].accounts[u].requests
    ensures NoPurgePast(acts, i + 1, j, run[i + 1].accounts[u].requests[request].createdMs) ==> q == r
  {
    FinishesStored(w, run[i], acts[i], run[i + 1], u, request, r);
    FinishesStored(w, run[j], acts[j], run[j + 1], u, request, q);
    if NoPurgePast(acts, i + 1, j, run[i + 1].accounts[u].requests[request].createdMs) {
      StoredStays(w, run, acts, i + 1, j + 1, u, request);
    }
  }

  // ------------------------------------------------------------------------ expiry --

  predicate Timed(a: Action) { a.ReadTx? || a.StoreTx? || a.ChangeTx? || a.EventTx? || a.Maintain? }

  /** From step `i` on no clock reading is below `time`. */
  ghost predicate NotBefore(acts: seq<Action>, i: nat, time: int) {
    forall m :: i <= m < |acts| && Timed(acts[m]) ==> time <= acts[m].now
  }

  /** The clock never goes backwards. */
  ghost predicate ClockRises(acts: seq<Action>) {
    forall i :: 0 <= i < |acts| && Timed(acts[i]) ==> NotBefore(acts, i, acts[i].now)
  }

  /** A call in flight found no response, so one that is stored by now was created since. */
  ghost predicate YoungerRow(s: State, acts: seq<Action>, j: nat, x: Client) {
    InFlight(x) ==>
      && NotBefore(acts, j, x.readAt)
      && (x.uid in s.accounts && x.request in s.accounts[x.uid].requests ==>
            s.accounts[x.uid].requests[x.request].createdMs >= x.readAt)
  }

  ghost predicate YoungerRows(s: State, acts: seq<Action>, j: nat) {
    forall c :: c in s.clients ==> YoungerRow(s, acts, j, s.clients[c])
  }

  /** A row of the next state was there before or is created by this step, at its time. */
  ghost predicate RowsFrom(s: State, a: Action, t: State) {
    forall u, x :: u in t.accounts && x in t.accounts[u].requests ==>
      (u in s.accounts && x in s.accounts[u].requests && t.accounts[u].requests[x] == s.accounts[u].requests[x]) ||
      (a.StoreTx? && t.accounts[u].requests[x].createdMs == a.now)
  }

  lemma StepRows(w: World, s: State, a: Action, t: State)
    requires t == Step(w, s, a)
    ensures RowsFrom(s, a, t)
  {
  }

  /** A client that is not the one that moved. */
  lemma YoungerKept(s: State, acts: seq<Action>, j: nat, t: State, x: Client)
    requires j < |acts| && RowsFrom(s, acts[j], t) && YoungerRow(s, acts, j, x)
    ensures YoungerRow(t, acts, j + 1, x)
  {
  }

  lemma YoungerActor(w: World, s: State, acts: seq<Action>, j: nat, t: State)
    requires j < |acts| && ClockRises(acts) && YoungerRows(s, acts, j)
    requires IsClientAction(acts[j]) && t == Step(w, s, acts[j])
    ensures YoungerRow(t, acts, j + 1, ClientOf(t, acts[j].client))
  {
    var a, x := acts[j], ClientOf(s, acts[j].client);
    StepRows(w, s, a, t);
    if InFlight(x) { YoungerKept(s, acts, j, t, x); }
    if Timed(a) { assert NotBefore(acts, j, a.now); }
  }

  lemma {:induction false} RunYounger(w: World, run: seq<State>, acts: seq<Action>, j: nat)
    requires IsRun(w, run, acts) && ClockRises(acts) && j < |run|
    ensures YoungerRows(run[j], acts, j)
  {
    if j > 0 {
      var s, t := run[j - 1], run[j];
      RunYounger(w, run, acts, j - 1);
      assert Next(w, run, acts, j - 1);
      StepRows(w, s, acts[j - 1], t);
      if IsClientAction(acts[j - 1]) { YoungerActor(w, s, acts, j - 1, t); }
      forall c | c in t.clients ensures YoungerRow(t, acts, j, t.clients[c]) {
        if !(IsClientAction(acts[j - 1]) && acts[j - 1].client == c) {
          assert c in s.clients && t.clients[c] == s.clients[c];
          YoungerKept(s, acts, j - 1, t, s.clients[c]);
        }
      }
    }
  }

  /** Step `j` is a second transaction that answers with a response stored by another call. */
  ghost predicate AnswersStored(run: seq<State>, acts: seq<Action>, j: nat)
    requires |run| == |acts| + 1 && j < |acts|
  {
    && acts[j].StoreTx? && ClientOf(run[j], acts[j].client).Folded?
    && var x := ClientOf(run[j], acts[j].client);
       && x.uid in run[j].accounts && x.request in run[j].accounts[x.uid].requests
       && Refused(run[j].accounts[x.uid]).None? && run[j].accounts[x.uid].requests[x.request].k == x.k
  }

  /** The age of that response. */
  ghost function AgeAt(run: seq<State>, acts: seq<Action>, j: nat): int
    requires |run| == |acts| + 1 && j < |acts| && AnswersStored(run, acts, j)
  {
    var x := ClientOf(run[j], acts[j].client);
    acts[j].now - run[j].accounts[x.uid].requests[x.request].createdMs
  }

  /** The time since the first transaction of the same attempt. */
  ghost function GapAt(run: seq<State>, acts: seq<Action>, j: nat): int
    requires |run| == |acts| + 1 && j < |acts| && AnswersStored(run, acts, j)
  {
    acts[j].now - ClientOf(run[j], acts[j].client).readAt
  }

  /** A response answered by the second transaction is no older than its attempt. */
  lemma AnswerWithinGap(w: World, run: seq<State>, acts: seq<Action>, j: nat)
    requires IsRun(w, run, acts) && ClockRises(acts) && j < |acts| && AnswersStored(run, acts, j)
    ensures AgeAt(run, acts, j) <= GapAt(run, acts, j)
  {
    RunYounger(w, run, acts, j);
    assert YoungerRow(run[j], acts, j, ClientOf(run[j], acts[j].client));
  }

  /** Attempts of at most this length between their transactions never answer an expired response. */
  ghost predicate NeverExpired(w: World, gap: int) {
    forall run, acts, j: nat ::
      IsRun(w, run, acts) && ClockRises(acts) && j < |acts| && AnswersStored(run, acts, j) &&
      GapAt(run, acts, j) <= gap ==>
        AgeAt(run, acts, j) < DAY_MS
  }

  const EMPTY_ACCOUNT := Account(true, true, 0, map[], map[], map[], map[], map[])

  /** Two calls of user 0 with one request; the second stores at once, the first a day later. */
  function SlowCall(query: nat -> Reply): seq<Action> {
    [Begin(0, 0, 0, 1), ReadTx(0, 0), Begin(1, 0, 0, 1), ReadTx(1, 0), Lookup(1), FoldIn(1), StoreTx(1, query, 0),
     Lookup(0), StoreTx(0, query, DAY_MS)]
  }

  /** Its states, with the inputs and the vector both calls work with. */
  function SlowRun(w: World, query: nat -> Reply): seq<State> {
    var a, inputs := EMPTY_ACCOUNT, InputsOf(EMPTY_ACCOUNT);
    var v := w.foldIn(inputs.prefs);
    var r := Answer(w, 0, 1, inputs, v, query);
    var b, cache := a.(requests := map[0 := Stored(1, 0, r)]), [V.Entry(V.Key(0, 0), v)];
    var reading, held, folded := Reading(0, 0, 1, 0), Holding(0, 0, 1, 0, 0, inputs), Folded(0, 0, 1, 0, 0, inputs, v);
    var done := Finished(0, 0, 1, Ok(r));
    [State(map[0 := a], [], map[]),
     State(map[0 := a], [], map[0 := reading]),
     State(map[0 := a], [], map[0 := held]),
     State(map[0 := a], [], map[0 := held, 1 := reading]),
     State(map[0 := a], [], map[0 := held, 1 := held]),
     State(map[0 := a], [], map[0 := held, 1 := Missed(0, 0, 1, 0, 0, inputs)]),
     State(map[0 := a], cache, map[0 := held, 1 := folded]),
     State(map[0 := b], cache, map[0 := held, 1 := done]),
     State(map[0 := b], cache, map[0 := folded, 1 := done]),
     State(map[0 := b], cache, map[0 := done, 1 := done])]
  }

  lemma OneEntry(key: V.Key, v: Vector)
    ensures V.Get([], key) == ([], None) && V.Put([], key, v) == [V.Entry(key, v)]
    ensures V.Get([V.Entry(key, v)], key) == ([V.Entry(key, v)], Some(v))
  {
    var c := [V.Entry(key, v)];
    assert V.Find(c, key) == Some(0) && V.Without(c, 0) == [];
  }

  lemma SlowCallBegins(w: World, query: nat -> Reply, i: nat)
    requires i < 6
    ensures SlowRun(w, query)[i + 1] == Step(w, SlowRun(w, query)[i], SlowCall(query)[i])
  {
    OneEntry(V.Key(0, 0), w.foldIn(map[]));
    assert InputsOf(EMPTY_ACCOUNT) == Inputs(0, map[], {});
  }

  lemma SlowCallEnds(w: World, query: nat -> Reply, i: nat)
    requires 6 <= i < 9
    ensures SlowRun(w, query)[i + 1] == Step(w, SlowRun(w, query)[i], SlowCall(query)[i])
  {
    OneEntry(V.Key(0, 0), w.foldIn(map[]));
    assert InputsOf(EMPTY_ACCOUNT) == Inputs(0, map[], {});
  }

  /** The first call answers the response of the second, which has just expired. */
  lemma SlowCallExpired(w: World, query: nat -> Reply)
    ensures var run, acts := SlowRun(w, query), SlowCall(query);
            IsRun(w, run, acts) && ClockRises(acts) && AnswersStored(run, acts, 8) &&
            GapAt(run, acts, 8) == DAY_MS && AgeAt(run, acts, 8) == DAY_MS
  {
    var run, acts := SlowRun(w, query), SlowCall(query);
    forall i | 0 <= i < |acts| ensures Next(w, run, acts, i) {
      if i < 6 { SlowCallBegins(w, query, i); } else { SlowCallEnds(w, query, i); }
    }
  }

  /** The second transaction checks no expiry, so how long a call may take is the exact condition:
      it never answers an expired response if and only if its transactions are less than a day apart. */
  lemma ExpiryNeedsAShortCall(w: World, gap: int)
    ensures NeverExpired(w, gap) <==> gap < DAY_MS
  {
    if gap < DAY_MS {
      forall run, acts, j: nat | IsRun(w, run, acts) && ClockRises(acts) && j < |acts| && AnswersStored(run, acts, j) &&
        GapAt(run, acts, j) <= gap ensures AgeAt(run, acts, j) < DAY_MS
      {
        AnswerWithinGap(w, run, acts, j);
      }
    } else {
      SlowCallExpired(w, (n: nat) => Failed);
    }
  }
}
