/** The batching scheduler as an object over a catalogue and its CPU fallback.

    Its methods take the steps of the protocol; each keeps everything the protocol promises of a
    run, so what the object served is exact and what it still owes is accounted for. */
module GpuServers {
  import opened Basics
  import opened Neighbors
  import opened Catalogs
  import opened ExactScans
  import opened FeatureTables
  import opened Rankings
  import opened GpuRows
  import opened GpuBatchers

  /** What one delivery meets: two clock readings, the engine's own trouble, and the features read. */
  datatype Moment = Moment(before: int, fault: Fault, after: int, user: UserFeatures, items: seq<ItemFeatures>)

  datatype Fault = NoFault | Throws | Refuses(status: Status)

  predicate MomentOk(m: Moment) {
    m.user.nLast <= |m.user.lastItems| && (m.fault.Refuses? ==> m.fault.status != Served)
  }

  /** Everything a state of the protocol keeps. */
  ghost predicate StateOk(c: Config, w: World, s: State) {
    Inv(c, s) && BufferOk(w, s) && ResultsOk(w, s.results) && Legal(c, s.queue) && Legal(c, s.batch)
  }

  lemma StepKeeps(c: Config, w: World, s: State, a: Action, t: State)
    requires ConfigOk(c) && StateOk(c, w, s) && ActionOk(w, s, a) && Moves(c, w, s, a, t)
    ensures StateOk(c, w, t) && (!a.Stop? ==> t.stopping == s.stopping)
    ensures s.stopping ==> t.stopping && Measure(c, t) <= Measure(c, s)
    ensures s.stopping && IsWorkerStep(a) && Enabled(s, a) ==> Measure(c, t) < Measure(c, s)
  {
    InvStep(c, w, s, a, t);
    ExactStep(c, w, s, a, t);
    LegalStep(c, w, s, a, t);
    if s.stopping {
      StopMakesProgress(c, w, s, a, t);
    } else if !a.Stop? {
      StoppingStays(c, w, s, a, t);
    }
  }

  lemma StoppingStays(c: Config, w: World, s: State, a: Action, t: State)
    requires Inv(c, s) && Moves(c, w, s, a, t) && !a.Stop?
    ensures t.stopping == s.stopping
  {
    if Enabled(s, a) && a.Resume? { PullKeeps(c, s, s.phase.until, a.clock, Pull(c, s, s.phase.until, a.clock).0); }
    if Enabled(s, a) && a.WakeUp? && !s.stopping && s.queue != [] {
      var until := s.queue[0].submitted + c.waitUs;
      PullKeeps(c, s, until, a.clock, Pull(c, s, until, a.clock).0);
    }
  }

  predicate UsersKnown(batch: seq<Job>, users: nat) {
    forall i :: 0 <= i < |batch| ==> batch[i].request.user < users
  }

  /** The queries of a batch, row by row. */
  function QueriesOf(queries: seq<Query>, batch: seq<Job>): (r: seq<Query>)
    requires UsersKnown(batch, |queries|)
    ensures |r| == |batch|
  {
    seq(|batch|, i requires 0 <= i < |batch| => queries[batch[i].request.user])
  }

  type Scorer = (seq<Query>, nat) -> Option<seq<Neighbor>>

  ghost predicate OutputOk(output: Option<seq<Neighbor>>, batch: seq<Job>, w: World, k: nat) {
    output.Some? ==> RowsExact(output.value, batch, w.scores, w.ids, k)
  }

  /** The scorer's promise: it fails, or every row is exact. */
  ghost predicate ScorerOk(topk: Scorer, w: World, queries: seq<Query>) {
    forall batch: seq<Job>, k: nat :: UsersKnown(batch, |queries|) && k <= |w.ids| ==>
      OutputOk(topk(QueriesOf(queries, batch), k), batch, w, k)
  }

  /** The world is the catalogue: its items, and their scores for every user's query. */
  ghost predicate WorldFits(w: World, cat: Catalog, queries: seq<Query>)
    reads cat
  {
    && cat.Valid() && cat.Ready(Simd) && w.ids == Range(cat.n)
    && forall u: nat :: u < |queries| ==> QueryOk(queries[u], cat.dim) && w.scores(u) == cat.Scores(queries[u], Simd)
  }

  /** The result answers the job, and serves it exactly when nothing failed and it was in time. */
  ghost predicate Answered(j: Job, r: Result, m: Moment, weights: Weights, w: World)
    requires MomentOk(m)
  {
    && r.id == j.id && r.request == j.request
    && r.status == (if m.before >= j.submitted + j.request.timeoutUs then Timeout
                    else if m.fault.Throws? then Unavailable
                    else if m.after >= j.submitted + j.request.timeoutUs then Timeout
                    else if m.fault.Refuses? then m.fault.status else Served)
    && (r.status != Served ==> r.items == [])
    && (r.status == Served ==> r.blend == Blended(weights, m.user, m.items, w.scores(j.request.user)))
  }

  /** One delivery: the next open job got its one result, and the worker is at the one after it. */
  ghost predicate NextAnswered(s: State, t: State, m: Moment, weights: Weights, w: World)
    requires MomentOk(m) && s.phase.Delivering? && s.phase.next < |s.batch|
  {
    && |t.results| == |s.results| + 1 && t.results[..|s.results|] == s.results
    && Answered(s.batch[s.phase.next], t.results[|s.results|], m, weights, w)
    && (if s.phase.next + 1 == |s.batch| then t.phase.Waiting?
        else t.phase == Delivering(s.phase.next + 1, s.phase.usedGpu) && t.batch == s.batch)
  }

  lemma NextIs(s: State, r: Result, m: Moment, weights: Weights, w: World)
    requires MomentOk(m) && s.phase.Delivering? && s.phase.next < |s.batch|
    requires Answered(s.batch[s.phase.next], r, m, weights, w)
    ensures NextAnswered(s, AnswerNext(s, r), m, weights, w)
  {
  }

  class GpuBatcher {
    const config: Config
    const cat: Catalog
    const queries: seq<Query>
    const weights: Weights
    ghost const w: World
    var s: State

    ghost predicate WorldOk() reads this, cat {
      config.users == |queries| && WorldFits(w, cat, queries)
    }

    ghost predicate Valid() reads this, cat {
      ConfigOk(config) && WorldOk() && StateOk(config, w, s)
    }

    constructor (config: Config, cat: Catalog, queries: seq<Query>, weights: Weights, ghost w: World)
      requires ConfigOk(config) && config.users == |queries| && WorldFits(w, cat, queries)
      ensures Valid() && s == Start() && this.config == config && this.cat == cat
    {
      this.config, this.cat, this.queries, this.weights, this.w := config, cat, queries, weights, w;
      s := Start();
      StartInv(config);
    }

    /** The promise is set at once exactly when the request is invalid or shed; otherwise the worker
        owes it. */
    method Submit(request: Request, now: int) returns (id: nat)
      requires Valid()
      modifies this
      ensures Valid() && id == old(s).submitted && s.submitted == id + 1
      ensures var refusal := if Acceptable(config, request) then LoadShed else BadRequest;
              if Acceptable(config, request) && !old(s).stopping && |old(s).queue| < config.capacity
              then s.results == old(s).results && s.queue == old(s).queue + [Job(id, request, now)]
              else s.queue == old(s).queue &&
                   s.results == old(s).results + [Bare(id, request, refusal)]
    {
      ghost var a := Action.Submit(request, now);
      StepKeeps(config, w, s, a, SubmitTo(config, s, request, now));
      id := Submits(request, now);
    }

    method Submits(request: Request, now: int) returns (id: nat)
      modifies this
      ensures id == old(s).submitted && s == SubmitTo(config, old(s), request, now)
    {
      id := s.submitted;
      if request.k == 0 || request.k > MAX_K || request.retrieveK > MAX_K || request.timeoutUs == 0 ||
         request.user >= config.users {
        Finish(Bare(id, request, BadRequest));
      } else if s.stopping || |s.queue| >= config.capacity {
        Finish(Bare(id, request, LoadShed));
      } else {
        s := s.(queue := s.queue + [Job(id, request, now)]);
      }
      s := s.(submitted := id + 1);
    }

    method Finish(r: Result)
      modifies this
      ensures s == old(s).(results := old(s).results + [r])
    {
      s := s.(results := s.results + [r]);
    }

    method RequestStop()
      requires Valid()
      modifies this
      ensures Valid() && s.stopping && s == old(s).(stopping := true)
    {
      StepKeeps(config, w, s, Action.Stop, Step(config, w, s, Action.Stop));
      s := s.(stopping := true);
    }

    /** One critical section of batch formation. */
    method CollectBatch(until: int, clock: nat -> int, now: int)
      requires |s.batch| <= config.maxBatch
      modifies this
      ensures s == Collect(config, old(s), until, clock, now)
    {
      var deadline := until;
      while s.queue != [] && |s.batch| < config.maxBatch
        invariant |s.batch| <= config.maxBatch
        invariant Pull(config, s, deadline, clock) == Pull(config, old(s), until, clock)
        decreases |s.queue|
      {
        var job := s.queue[0];
        s := s.(queue := s.queue[1..], left := s.left + [job.id]);
        if clock(job.id) - job.submitted >= job.request.timeoutUs {
          Finish(Bare(job.id, job.request, Timeout));
        } else {
          if job.submitted + job.request.timeoutUs < deadline { deadline := job.submitted + job.request.timeoutUs; }
          s := s.(batch := s.batch + [job]);
        }
      }
      if s.stopping || now >= deadline || |s.batch| == config.maxBatch {
        s := s.(phase := if s.batch == [] then Waiting else Scoring);
      } else {
        s := s.(phase := Collecting(deadline));
      }
    }

    /** Fail every queued job and leave. */
    method Leave()
      modifies this
      ensures s == Exit(old(s))
    {
      for i := 0 to |s.queue|
        invariant s == old(s).(results := old(s).results + Refuse(old(s).queue)[..i])
      {
        var refused := Bare(s.queue[i].id, s.queue[i].request, Unavailable);
        Finish(refused);
        assert Refuse(old(s).queue)[..i + 1] == Refuse(old(s).queue)[..i] + [refused];
      }
      assert Refuse(s.queue)[..|s.queue|] == Refuse(s.queue);
      s := s.(left := s.left + IdsOf(s.queue), queue := [], phase := Exited);
    }

    method Wakes(clock: nat -> int, now: int)
      requires |s.batch| <= config.maxBatch
      modifies this
      ensures s == Wake(config, old(s), clock, now)
    {
      if s.stopping {
        Leave();
      } else if s.queue != [] {
        CollectBatch(s.queue[0].submitted + config.waitUs, clock, now);
      }
    }

    /** The worker wakes up with work or a stop request. */
    method Awake(clock: nat -> int, now: int)
      requires Valid() && s.phase.Waiting?
      modifies this
      ensures Valid() && s.stopping == old(s).stopping
      ensures s.stopping ==> Measure(config, s) < Measure(config, old(s))
    {
      ghost var a := Action.WakeUp(clock, now);
      StepKeeps(config, w, s, a, Wake(config, s, clock, now));
      Wakes(clock, now);
    }

    /** The worker's timed wait for more jobs is over. */
    method Resume(clock: nat -> int, now: int)
      requires Valid() && s.phase.Collecting?
      modifies this
      ensures Valid() && s.stopping == old(s).stopping
      ensures s.stopping ==> Measure(config, s) < Measure(config, old(s))
    {
      ghost var a := Action.Resume(clock, now);
      StepKeeps(config, w, s, a, Collect(config, s, s.phase.until, clock, now));
      CollectBatch(s.phase.until, clock, now);
    }

    /** Score the batch outside the lock. A scorer that fails is never called again. */
    method ScoreBatch(topk: Scorer)
      requires Valid() && s.phase.Scoring? && ScorerOk(topk, w, queries)
      modifies this
      ensures Valid() && s.stopping == old(s).stopping && s.batch == old(s).batch
      ensures s.phase.Delivering? && s.phase.next == 0 && (s.phase.usedGpu ==> old(s).healthy)
      ensures s.results == old(s).results && s.queue == old(s).queue
      ensures s.stopping ==> Measure(config, s) < Measure(config, old(s))
    {
      var k := WidthOf(s.batch, cat.n);
      KnownUsers(config, s.batch, |queries|);
      var output := if s.healthy then topk(QueriesOf(queries, s.batch), k) else None;
      ghost var a := Action.ScoreBatch(output.Some?, if output.Some? then output.value else []);
      assert OutputOk(topk(QueriesOf(queries, s.batch), k), s.batch, w, k);
      StepKeeps(config, w, s, a, Score(w, s, a.works, a.output));
      s := s.(phase := Delivering(0, output.Some?), healthy := output.Some?, width := k,
              output := if output.Some? then output.value else []);
    }

    /** The candidates of the next open job, from its row or by its own exact scan: either way the
        exact top list of its query for the size it asks for. */
    method Candidates() returns (candidates: seq<Neighbor>)
      requires Valid() && s.phase.Delivering?
      ensures var r := s.batch[s.phase.next].request;
              TopList(w.ids, w.scores(r.user), Max(r.k, r.retrieveK), candidates) &&
              candidates == NextCandidates(s, candidates)
    {
      var r := s.batch[s.phase.next].request;
      assert Acceptable(config, r);
      if s.phase.usedGpu {
        candidates := CutRow(s.output, s.batch, w.scores, w.ids, s.width, s.phase.next);
      } else {
        candidates := Brute(cat, queries[r.user], Max(r.k, r.retrieveK), Simd);
      }
    }

    /** Retrieve and rank for the next open job. */
    method Serve(m: Moment) returns (r: Result)
      requires Valid() && s.phase.Delivering? && MomentOk(m)
      ensures var j := s.batch[s.phase.next]; r.id == j.id && r.request == j.request && r.status == Served
      ensures TopList(w.ids, w.scores(r.request.user), Want(r.request), r.candidates)
      ensures r.candidates == NextCandidates(s, r.candidates)
      ensures TopList(IdSet(r.candidates), r.blend, r.request.k, r.items)
      ensures r.blend == Blended(weights, m.user, m.items, w.scores(r.request.user))
      ensures forall t :: 0 <= t < |r.items| ==> RankedFrom(r.candidates, weights, m.user, m.items, r.items[t])
    {
      var j := s.batch[s.phase.next];
      assert Acceptable(config, j.request);
      var candidates := Candidates();
      var f := cat.Scores(queries[j.request.user], Simd);
      var ranked := RankInto(candidates, j.request.k, weights, m.user, m.items, f);
      r := Result(j.id, j.request, Served, ranked, candidates, Blended(weights, m.user, m.items, f));
    }

    /** The answer for the next open job: served exactly when nothing fails and it is still in time
        after ranking, and then from exact candidates with the live features. */
    method Compose(m: Moment) returns (r: Result, ghost engine: Engine, ghost scan: seq<Neighbor>)
      requires Valid() && s.phase.Delivering? && MomentOk(m)
      ensures JobOk(w, s, engine, scan)
      ensures r == Answer(s.batch[s.phase.next], NextCandidates(s, scan), m.before, engine, m.after)
      ensures Answered(s.batch[s.phase.next], r, m, weights, w)
    {
      var j := s.batch[s.phase.next];
      engine, scan := Threw, [];
      if m.before - j.submitted >= j.request.timeoutUs {
        r := Bare(j.id, j.request, Timeout);
      } else if m.fault.Throws? {
        r := Bare(j.id, j.request, Unavailable);
      } else if m.fault.Refuses? {
        engine := Refused(m.fault.status);
        r := Bare(j.id, j.request, if m.after - j.submitted >= j.request.timeoutUs then Timeout else m.fault.status);
      } else {
        r := Serve(m);
        engine, scan := Ranked(r.items, r.blend), r.candidates;
        if m.after - j.submitted >= j.request.timeoutUs { r := Bare(j.id, j.request, Timeout); }
      }
    }

    /** Answer the next open job. */
    method DeliverJob(m: Moment)
      requires Valid() && s.phase.Delivering? && MomentOk(m)
      modifies this
      ensures Valid() && s.stopping == old(s).stopping
      ensures NextAnswered(old(s), s, m, weights, w)
      ensures s.stopping ==> Measure(config, s) < Measure(config, old(s))
    {
      ghost var engine, scan;
      var r;
      r, engine, scan := Compose(m);
      DeliverIs(config, w, s, m.before, engine, m.after, scan, r);
      NextIs(s, r, m, weights, w);
      SetNext(r);
    }

    method SetNext(r: Result)
      requires s.phase.Delivering?
      modifies this
      ensures s == AnswerNext(old(s), r)
    {
      var last := s.phase.next + 1 == |s.batch|;
      Finish(r);
      if last {
        s := s.(batch := [], phase := Waiting);
      } else {
        s := s.(phase := Delivering(s.phase.next + 1, s.phase.usedGpu));
      }
    }

    method DeliverNext(m: Moment, ghost before: State, ghost batch: seq<Job>, ghost i: nat)
      requires Valid() && MomentOk(m) && i < |batch| && Delivered(before, s, batch, i)
      modifies this
      ensures Valid() && s.stopping == old(s).stopping && Delivered(before, s, batch, i + 1)
      ensures s.stopping ==> Measure(config, s) < Measure(config, old(s))
    {
      ghost var was := s;
      DeliverJob(m);
      DeliveredKeeps(before, was, s, batch, i, m, weights, w);
    }

    /** Answer every job of the batch in turn. */
    method DeliverBatch(moments: nat -> Moment)
      requires Valid() && s.phase.Delivering? && s.phase.next == 0
      requires forall id :: MomentOk(moments(id))
      modifies this
      ensures Valid() && s.phase.Waiting? && s.stopping == old(s).stopping
      ensures ResultIds(s.results) == ResultIds(old(s).results) + IdsOf(old(s).batch)
      ensures s.stopping ==> Measure(config, s) < Measure(config, old(s))
    {
      var batch := s.batch;
      ghost var before := s;
      for i := 0 to |batch|
        invariant Valid() && s.stopping == before.stopping && Delivered(before, s, batch, i)
        invariant s.stopping ==> Measure(config, s) + i <= Measure(config, before)
      {
        DeliverNext(moments(batch[i].id), before, batch, i);
      }
    }

    /** Stop: nothing is accepted any more, and the worker runs to its end. Afterwards the promise of
        every submission has been set exactly once. */
    method Stop(topk: Scorer, moments: nat -> Moment, clock: nat -> int, now: int)
      requires Valid() && ScorerOk(topk, w, queries) && forall id :: MomentOk(moments(id))
      modifies this
      ensures Valid() && s.phase.Exited?
      ensures forall id: nat :: multiset(ResultIds(s.results))[id] == if id < s.submitted then 1 else 0
    {
      RequestStop();
      while !s.phase.Exited?
        invariant Valid() && s.stopping
        decreases Measure(config, s)
      {
        match s.phase
        case Waiting => Awake(clock, now);
        case Collecting(_) => Resume(clock, now);
        case Scoring => ScoreBatch(topk);
        case Delivering(_, _) => DeliverJob(moments(s.batch[s.phase.next].id));
      }
      forall id: nat ensures multiset(ResultIds(s.results))[id] == if id < s.submitted then 1 else 0 {
        UptoCounts(s.submitted, id);
      }
    }
  }

  lemma KnownUsers(c: Config, batch: seq<Job>, users: nat)
    requires Legal(c, batch) && c.users == users
    ensures UsersKnown(batch, users)
  {
  }

  /** The answer a delivery composed is the one of the protocol's step. */
  lemma DeliverIs(c: Config, w: World, s: State, before: int, engine: Engine, after: int, scan: seq<Neighbor>,
                  r: Result)
    requires ConfigOk(c) && StateOk(c, w, s) && s.phase.Delivering? && JobOk(w, s, engine, scan)
    requires r == Answer(s.batch[s.phase.next], NextCandidates(s, scan), before, engine, after)
    ensures StateOk(c, w, AnswerNext(s, r)) && AnswerNext(s, r).stopping == s.stopping
    ensures s.stopping ==> Measure(c, AnswerNext(s, r)) < Measure(c, s)
  {
    StepKeeps(c, w, s, Action.Deliver(before, engine, after, scan), AnswerNext(s, r));
  }

  /** `i` jobs of the batch are answered, in order. */
  ghost predicate Delivered(before: State, s: State, batch: seq<Job>, i: nat)
    requires i <= |batch|
  {
    && ResultIds(s.results) == ResultIds(before.results) + IdsOf(batch)[..i]
    && if i < |batch| then s.phase.Delivering? && s.phase.next == i && s.batch == batch else s.phase.Waiting?
  }

  lemma DeliveredKeeps(before: State, s: State, t: State, batch: seq<Job>, i: nat, m: Moment, weights: Weights,
                       w: World)
    requires MomentOk(m) && i < |batch| && Delivered(before, s, batch, i) && NextAnswered(s, t, m, weights, w)
    ensures Delivered(before, t, batch, i + 1)
  {
    assert forall x :: 0 <= x < |s.results| ==> t.results[x] == t.results[..|s.results|][x];
    assert ResultIds(t.results) == ResultIds(s.results) + [batch[i].id];
    assert IdsOf(batch)[..i + 1] == IdsOf(batch)[..i] + [batch[i].id];
  }
}
