/** The bounded batching scheduler in front of the GPU scorer.

    Submissions, the stop request and the worker's critical sections are atomic steps that
    interleave freely; every clock reading is an arbitrary number. */
module GpuBatchers {
  import opened Basics
  import opened Neighbors
  import opened GpuRows

  /** What is scored: the catalogue's ids and the score every item has for a user's query. */
  datatype World = World(ids: set<nat>, scores: nat -> nat -> real)

  datatype Status = Served | Timeout | LoadShed | BadRequest | Unavailable

  /** A promise that was set. A served one carries the ranked items of its response; the request,
      the candidates and the rank score they were ranked by are history. */
  datatype Result = Result(id: nat, request: Request, status: Status, items: seq<Neighbor>,
                           candidates: seq<Neighbor>, blend: nat -> real)

  datatype Config = Config(maxBatch: nat, waitUs: nat, capacity: nat, users: nat)

  /** Where the worker is between two of its steps. */
  datatype Phase = Waiting | Collecting(until: int) | Scoring | Delivering(next: nat, usedGpu: bool) | Exited

  /** What the engine makes of one request and its candidates: it throws, refuses, or ranks them by
      the blended score of that moment. */
  datatype Engine = Threw | Refused(status: Status) | Ranked(items: seq<Neighbor>, blend: nat -> real)

  /** `output` and `width` are the scorer's buffer and the row width of the batch in it. */
  datatype State = State(submitted: nat, queue: seq<Job>, batch: seq<Job>, results: seq<Result>, left: seq<nat>,
                         phase: Phase, stopping: bool, healthy: bool, output: seq<Neighbor>, width: nat)

  function Start(): State { State(0, [], [], [], [], Waiting, false, true, [], 0) }

  ghost predicate ConfigOk(c: Config) { 1 <= c.maxBatch <= 64 && 1 <= c.capacity <= 4096 }

  // ----------------------------------------------------------------------- steps --

  predicate Acceptable(c: Config, r: Request) {
    0 < r.k <= MAX_K && r.retrieveK <= MAX_K && 0 < r.timeoutUs && r.user < c.users
  }

  /** A response without items. */
  function Bare(id: nat, request: Request, status: Status): Result {
    Result(id, request, status, [], [], (x: nat) => 0.0)
  }

  function AnswerNow(s: State, r: Request, status: Status): State {
    s.(submitted := s.submitted + 1, results := s.results + [Bare(s.submitted, r, status)])
  }

  function Enqueue(s: State, j: Job): State {
    s.(submitted := s.submitted + 1, queue := s.queue + [j])
  }

  function SubmitTo(c: Config, s: State, r: Request, now: int): State {
    if !Acceptable(c, r) then AnswerNow(s, r, BadRequest)
    else if s.stopping || |s.queue| >= c.capacity then AnswerNow(s, r, LoadShed)
    else Enqueue(s, Job(s.submitted, r, now))
  }

  /** Fail every queued job. */
  function Refuse(jobs: seq<Job>): (r: seq<Result>)
    ensures |r| == |jobs|
  {
    seq(|jobs|, i requires 0 <= i < |jobs| => Bare(jobs[i].id, jobs[i].request, Unavailable))
  }

  function IdsOf(jobs: seq<Job>): (r: seq<nat>)
    ensures |r| == |jobs|
  {
    seq(|jobs|, i requires 0 <= i < |jobs| => jobs[i].id)
  }

  predicate Expired(j: Job, now: int) { now - j.submitted >= j.request.timeoutUs }

  /** The front job, answered or moved to the batch. */
  function PullOne(s: State, expired: bool): State
    requires s.queue != []
  {
    var j := s.queue[0];
    var t := s.(queue := s.queue[1..], left := s.left + [j.id]);
    if expired then t.(results := s.results + [Bare(j.id, j.request, Timeout)]) else t.(batch := s.batch + [j])
  }

  /** Take jobs off the front of the queue until it is empty or the batch is full. A job that has
      expired is answered at once; the others pull the batch's deadline forward. */
  function Pull(c: Config, s: State, until: int, clock: nat -> int): (State, int)
    decreases |s.queue|
  {
    if s.queue == [] || |s.batch| >= c.maxBatch then (s, until)
    else
      var j := s.queue[0];
      var expired := Expired(j, clock(j.id));
      Pull(c, PullOne(s, expired), if expired then until else Min(until, j.submitted + j.request.timeoutUs), clock)
  }

  /** One critical section of batch formation: pull, then wait again or go on. */
  function Collect(c: Config, s: State, until: int, clock: nat -> int, now: int): State {
    var (t, deadline) := Pull(c, s, until, clock);
    if t.stopping || now >= deadline || |t.batch| >= c.maxBatch
    then t.(phase := if t.batch == [] then Waiting else Scoring)
    else t.(phase := Collecting(deadline))
  }

  /** Fail what is queued and leave. */
  function Exit(s: State): State {
    s.(results := s.results + Refuse(s.queue), left := s.left + IdsOf(s.queue), queue := [], phase := Exited)
  }

  /** Woken with work or a stop request. */
  function Wake(c: Config, s: State, clock: nat -> int, now: int): State {
    if s.stopping then Exit(s)
    else if s.queue == [] then s
    else Collect(c, s, s.queue[0].submitted + c.waitUs, clock, now)
  }

  /** Score the batch. The first failure switches the GPU off for good. */
  function Score(w: World, s: State, works: bool, output: seq<Neighbor>): State {
    s.(phase := Delivering(0, s.healthy && works), healthy := s.healthy && works, output := output,
       width := Width(s.batch, |w.ids|))
  }

  /** The candidates of the next open job: cut out of its row, or those of its own exact scan. */
  function NextCandidates(s: State, scan: seq<Neighbor>): seq<Neighbor>
    requires s.phase.Delivering? && s.phase.next < |s.batch|
  {
    if s.phase.usedGpu then CutAt(s.output, s.phase.next, s.width, Want(s.batch[s.phase.next].request)) else scan
  }

  /** How one job is answered: late, failed, refused, late after ranking, or served. */
  function Answer(j: Job, candidates: seq<Neighbor>, before: int, engine: Engine, after: int): Result {
    if Expired(j, before) then Bare(j.id, j.request, Timeout)
    else match engine
      case Threw => Bare(j.id, j.request, Unavailable)
      case Refused(status) => Bare(j.id, j.request, if Expired(j, after) then Timeout else status)
      case Ranked(items, blend) =>
        if Expired(j, after) then Bare(j.id, j.request, Timeout)
        else Result(j.id, j.request, Served, items, candidates, blend)
  }

  function DeliverOne(s: State, before: int, engine: Engine, after: int, scan: seq<Neighbor>): State
    requires s.phase.Delivering? && s.phase.next < |s.batch|
  {
    var r := Answer(s.batch[s.phase.next], NextCandidates(s, scan), before, engine, after);
    AnswerNext(s, r)
  }

  /** Set the promise of the next open job. */
  function AnswerNext(s: State, r: Result): State
    requires s.phase.Delivering?
  {
    var t := s.(results := s.results + [r]);
    if s.phase.next + 1 == |s.batch| then t.(batch := [], phase := Waiting)
    else t.(phase := Delivering(s.phase.next + 1, s.phase.usedGpu))
  }

  datatype Action =
    | Submit(request: Request, now: int)
    | Stop
    | WakeUp(clock: nat -> int, now: int)
    | Resume(clock: nat -> int, now: int)
    | ScoreBatch(works: bool, output: seq<Neighbor>)
    | Deliver(before: int, engine: Engine, after: int, scan: seq<Neighbor>)

  /** The worker is where this step of its starts. */
  predicate Enabled(s: State, a: Action) {
    match a
    case WakeUp(_, _) => s.phase.Waiting?
    case Resume(_, _) => s.phase.Collecting?
    case ScoreBatch(_, _) => s.phase.Scoring?
    case Deliver(_, _, _, _) => s.phase.Delivering? && s.phase.next < |s.batch|
    case _ => true
  }

  /** One step; a worker step at the wrong point does nothing. */
  function Step(c: Config, w: World, s: State, a: Action): State {
    if !Enabled(s, a) then s
    else match a
      case Submit(r, now) => SubmitTo(c, s, r, now)
      case Stop => s.(stopping := true)
      case WakeUp(clock, now) => Wake(c, s, clock, now)
      case Resume(clock, now) => Collect(c, s, s.phase.until, clock, now)
      case ScoreBatch(works, output) => Score(w, s, works, output)
      case Deliver(before, engine, after, scan) => DeliverOne(s, before, engine, after, scan)
  }

  ghost predicate Moves(c: Config, w: World, s: State, a: Action, t: State) { t == Step(c, w, s, a) }

  /** Step `i` of a run. */
  ghost predicate StepAt(c: Config, w: World, run: seq<State>, acts: seq<Action>, i: nat)
    requires |run| == |acts| + 1 && i < |acts|
  {
    Moves(c, w, run[i], acts[i], run[i + 1])
  }

  ghost predicate IsRun(c: Config, w: World, run: seq<State>, acts: seq<Action>) {
    && |run| == |acts| + 1 && run[0] == Start()
    && forall i :: 0 <= i < |acts| ==> StepAt(c, w, run, acts, i)
  }

  // ------------------------------------------------------------------- invariant --

  function ResultIds(rs: seq<Result>): (r: seq<nat>)
    ensures |r| == |rs|
  {
    seq(|rs|, i requires 0 <= i < |rs| => rs[i].id)
  }

  /** The jobs of the batch whose promises are still open. */
  function Open(s: State): seq<Job> {
    if s.phase.Delivering? && s.phase.next <= |s.batch| then s.batch[s.phase.next..] else s.batch
  }

  /** The ids 0 .. n - 1, each once. */
  ghost function Upto(n: nat): multiset<nat> {
    if n == 0 then multiset{} else Upto(n - 1) + multiset{n - 1}
  }

  /** Every submission is in exactly one place, exactly once: answered, queued or in the batch. */
  ghost predicate Accounted(s: State) {
    multiset(ResultIds(s.results)) + multiset(IdsOf(s.queue)) + multiset(IdsOf(Open(s))) == Upto(s.submitted)
  }

  ghost predicate Increasing(w: seq<nat>) {
    forall i, j :: 0 <= i < j < |w| ==> w[i] < w[j]
  }

  /** Jobs left the queue, and will leave it, in submission order. */
  ghost predicate InOrder(s: State) {
    Increasing(s.left + IdsOf(s.queue)) && forall i :: 0 <= i < |s.queue| ==> s.queue[i].id < s.submitted
  }

  ghost predicate Bounded(c: Config, s: State) {
    && |s.queue| <= c.capacity && |s.batch| <= c.maxBatch
    && (s.phase.Waiting? || s.phase.Exited? ==> s.batch == [])
    && (s.phase.Delivering? ==> s.phase.next < |s.batch|)
    && (s.phase.Scoring? ==> s.batch != [])
    && (s.phase.Exited? ==> s.stopping && s.queue == [])
    && LeftBounded(s)
  }

  ghost predicate Inv(c: Config, s: State) { Accounted(s) && InOrder(s) && Bounded(c, s) }

  // ------------------------------------------------------------- every step keeps it --

  lemma IdsAppend(a: seq<Job>, j: Job)
    ensures IdsOf(a + [j]) == IdsOf(a) + [j.id]
  {
  }

  lemma ResultsAppend(a: seq<Result>, r: Result)
    ensures ResultIds(a + [r]) == ResultIds(a) + [r.id]
  {
  }

  lemma IdsFront(a: seq<Job>)
    requires a != []
    ensures IdsOf(a) == [a[0].id] + IdsOf(a[1..])
  {
  }

  /** Taking the front job off the queue, towards the batch or an answer. */
  lemma PopAccounted(s: State, t: State)
    requires Accounted(s) && s.queue != [] && !s.phase.Delivering?
    requires t.queue == s.queue[1..] && t.submitted == s.submitted && t.phase == s.phase
    requires || (t.batch == s.batch + [s.queue[0]] && t.results == s.results)
             || (t.batch == s.batch && t.results == s.results + [Bare(s.queue[0].id, s.queue[0].request, Timeout)])
    ensures Accounted(t)
  {
    IdsFront(s.queue);
    IdsAppend(s.batch, s.queue[0]);
    ResultsAppend(s.results, Bare(s.queue[0].id, s.queue[0].request, Timeout));
  }

  lemma PopInOrder(s: State, t: State)
    requires InOrder(s) && s.queue != []
    requires t.queue == s.queue[1..] && t.left == s.left + [s.queue[0].id] && t.submitted == s.submitted
    ensures InOrder(t)
  {
    IdsFront(s.queue);
    assert t.left + IdsOf(t.queue) == s.left + IdsOf(s.queue);
  }

  ghost predicate LeftBounded(s: State) {
    forall i :: 0 <= i < |s.left| ==> s.left[i] < s.submitted
  }

  /** What holds between two pulls of one critical section. */
  ghost predicate Pulling(c: Config, s: State) {
    && Accounted(s) && InOrder(s) && LeftBounded(s) && !s.phase.Delivering?
    && |s.batch| <= c.maxBatch && |s.queue| <= c.capacity
  }

  ghost predicate SameControl(s: State, t: State) {
    t.submitted == s.submitted && t.phase == s.phase && t.stopping == s.stopping && t.healthy == s.healthy
  }

  lemma PopKeeps(c: Config, s: State, expired: bool)
    requires Pulling(c, s) && s.queue != [] && |s.batch| < c.maxBatch
    ensures Pulling(c, PullOne(s, expired)) && SameControl(s, PullOne(s, expired))
  {
    PopAccounted(s, PullOne(s, expired));
    PopInOrder(s, PullOne(s, expired));
  }

  lemma {:induction false} PullKeeps(c: Config, s: State, until: int, clock: nat -> int, t: State)
    requires Pulling(c, s) && t == Pull(c, s, until, clock).0
    ensures Pulling(c, t) && SameControl(s, t)
    decreases |s.queue|
  {
    if s.queue != [] && |s.batch| < c.maxBatch {
      var j := s.queue[0];
      var expired := Expired(j, clock(j.id));
      PopKeeps(c, s, expired);
      var deadline := if expired then until else Min(until, j.submitted + j.request.timeoutUs);
      PullKeeps(c, PullOne(s, expired), deadline, clock, t);
    }
  }

  /** Moving on to the next phase. */
  lemma NextPhase(c: Config, t: State, phase: Phase)
    requires Pulling(c, t)
    requires phase.Collecting? || (phase.Waiting? && t.batch == []) || (phase.Scoring? && t.batch != [])
    ensures Inv(c, t.(phase := phase))
  {
    assert Open(t.(phase := phase)) == Open(t);
  }

  lemma CollectKeeps(c: Config, s: State, until: int, clock: nat -> int, now: int, t: State)
    requires Inv(c, s) && (s.phase.Waiting? || s.phase.Collecting?) && t == Collect(c, s, until, clock, now)
    ensures Inv(c, t) && t.healthy == s.healthy
  {
    PullKeeps(c, s, until, clock, Pull(c, s, until, clock).0);
    NextPhase(c, Pull(c, s, until, clock).0, t.phase);
  }

  lemma RefuseIds(jobs: seq<Job>, rs: seq<Result>)
    ensures ResultIds(rs + Refuse(jobs)) == ResultIds(rs) + IdsOf(jobs)
  {
  }

  lemma ExitKeeps(c: Config, s: State, t: State)
    requires Inv(c, s) && s.phase.Waiting? && s.stopping
    requires t == Exit(s)
    ensures Inv(c, t)
  {
    RefuseIds(s.queue, s.results);
    assert t.left + IdsOf(t.queue) == s.left + IdsOf(s.queue);
    forall i | 0 <= i < |t.left| ensures t.left[i] < t.submitted {
      if i >= |s.left| { assert t.left[i] == s.queue[i - |s.left|].id; }
    }
  }

  lemma WakeKeeps(c: Config, s: State, clock: nat -> int, now: int, t: State)
    requires Inv(c, s) && s.phase.Waiting? && t == Wake(c, s, clock, now)
    ensures Inv(c, t) && t.healthy == s.healthy
  {
    if s.stopping {
      ExitKeeps(c, s, t);
    } else if s.queue != [] {
      CollectKeeps(c, s, s.queue[0].submitted + c.waitUs, clock, now, t);
    }
  }

  lemma AnswerKeeps(c: Config, s: State, r: Request, status: Status)
    requires Inv(c, s)
    ensures Inv(c, AnswerNow(s, r, status))
  {
    ResultsAppend(s.results, Bare(s.submitted, r, status));
    assert Open(AnswerNow(s, r, status)) == Open(s);
  }

  lemma EnqueueAccounted(s: State, j: Job)
    requires Accounted(s) && j.id == s.submitted
    ensures Accounted(Enqueue(s, j))
  {
    IdsAppend(s.queue, j);
    assert Open(Enqueue(s, j)) == Open(s);
  }

  lemma EnqueueInOrder(s: State, j: Job)
    requires InOrder(s) && LeftBounded(s) && j.id == s.submitted
    ensures InOrder(Enqueue(s, j))
  {
    IdsAppend(s.queue, j);
    var all := s.left + IdsOf(s.queue);
    assert s.left + IdsOf(s.queue + [j]) == all + [j.id];
    forall i | 0 <= i < |all| ensures all[i] < j.id {
      if i >= |s.left| { assert all[i] == s.queue[i - |s.left|].id; }
    }
  }

  lemma EnqueueKeeps(c: Config, s: State, j: Job)
    requires Inv(c, s) && j.id == s.submitted && !s.stopping && |s.queue| < c.capacity
    ensures Inv(c, Enqueue(s, j))
  {
    EnqueueAccounted(s, j);
    EnqueueInOrder(s, j);
  }

  lemma SubmitKeeps(c: Config, s: State, r: Request, now: int)
    requires Inv(c, s)
    ensures Inv(c, SubmitTo(c, s, r, now))
  {
    if !Acceptable(c, r) {
      AnswerKeeps(c, s, r, BadRequest);
    } else if s.stopping || |s.queue| >= c.capacity {
      AnswerKeeps(c, s, r, LoadShed);
    } else {
      EnqueueKeeps(c, s, Job(s.submitted, r, now));
    }
  }

  /** Answering the next open job. */
  lemma AnswerNextKeeps(c: Config, s: State, r: Result)
    requires Inv(c, s) && s.phase.Delivering? && r.id == s.batch[s.phase.next].id
    ensures Inv(c, AnswerNext(s, r))
  {
    AnswerAccounted(s, AnswerNext(s, r), r);
  }

  lemma AnswerAccounted(s: State, t: State, r: Result)
    requires Accounted(s) && s.phase.Delivering? && s.phase.next < |s.batch| && r.id == s.batch[s.phase.next].id
    requires t.submitted == s.submitted && t.queue == s.queue && t.results == s.results + [r]
    requires if s.phase.next + 1 == |s.batch| then t.batch == [] && t.phase.Waiting?
             else t.batch == s.batch && t.phase.Delivering? && t.phase.next == s.phase.next + 1
    ensures Accounted(t)
  {
    ResultsAppend(s.results, r);
    IdsFront(Open(s));
    assert Open(s)[1..] == s.batch[s.phase.next + 1..];
    assert Open(t) == Open(s)[1..];
  }

  lemma ScoreKeeps(c: Config, w: World, s: State, works: bool, output: seq<Neighbor>)
    requires Inv(c, s) && s.phase.Scoring?
    ensures Inv(c, Score(w, s, works, output))
  {
    assert Open(Score(w, s, works, output)) == s.batch;
  }

  lemma InvStep(c: Config, w: World, s: State, a: Action, t: State)
    requires ConfigOk(c) && Inv(c, s) && Moves(c, w, s, a, t)
    ensures Inv(c, t) && (t.healthy ==> s.healthy)
  {
    if Enabled(s, a) {
      match a
      case Submit(r, now) => SubmitKeeps(c, s, r, now);
      case Stop => assert Open(t) == Open(s);
      case WakeUp(clock, now) => WakeKeeps(c, s, clock, now, t);
      case Resume(clock, now) => CollectKeeps(c, s, s.phase.until, clock, now, t);
      case ScoreBatch(works, output) => ScoreKeeps(c, w, s, works, output);
      case Deliver(before, engine, after, scan) =>
        AnswerNextKeeps(c, s, Answer(s.batch[s.phase.next], NextCandidates(s, scan), before, engine, after));
    }
  }

  lemma StartInv(c: Config)
    ensures Inv(c, Start())
  {
  }

  lemma {:induction false} RunInv(c: Config, w: World, run: seq<State>, acts: seq<Action>, i: nat)
    requires ConfigOk(c) && IsRun(c, w, run, acts) && i < |run|
    ensures Inv(c, run[i])
  {
    if i == 0 {
      StartInv(c);
    } else {
      RunInv(c, w, run, acts, i - 1);
      assert StepAt(c, w, run, acts, i - 1);
      InvStep(c, w, run[i - 1], acts[i - 1], run[i]);
    }
  }

  // -------------------------------------------------------------------- theorems --

  /** `Upto` counts every id below its bound once. */
  lemma {:induction false} UptoCounts(n: nat, id: nat)
    ensures Upto(n)[id] == if id < n then 1 else 0
  {
    if n > 0 { UptoCounts(n - 1, id); }
  }

  /** Once the worker has gone, the promise of every submission has been set exactly once, also of
      those submitted after the stop. */
  lemma EveryPromiseSetOnce(c: Config, w: World, run: seq<State>, acts: seq<Action>, i: nat, id: nat)
    requires ConfigOk(c) && IsRun(c, w, run, acts) && i < |run| && run[i].phase.Exited?
    ensures multiset(ResultIds(run[i].results))[id] == if id < run[i].submitted then 1 else 0
  {
    RunInv(c, w, run, acts, i);
    UptoCounts(run[i].submitted, id);
  }

  /** At no instant of any run is a promise set twice, or one set that was never submitted. */
  lemma NoPromiseSetTwice(c: Config, w: World, run: seq<State>, acts: seq<Action>, i: nat, id: nat)
    requires ConfigOk(c) && IsRun(c, w, run, acts) && i < |run|
    ensures multiset(ResultIds(run[i].results))[id] <= if id < run[i].submitted then 1 else 0
  {
    RunInv(c, w, run, acts, i);
    UptoCounts(run[i].submitted, id);
  }

  /** Jobs leave the queue in submission order; the queue and the batch keep their bounds. */
  lemma OrderAndBounds(c: Config, w: World, run: seq<State>, acts: seq<Action>, i: nat)
    requires ConfigOk(c) && IsRun(c, w, run, acts) && i < |run|
    ensures Increasing(run[i].left) && |run[i].queue| <= c.capacity && |run[i].batch| <= c.maxBatch
  {
    RunInv(c, w, run, acts, i);
    var all := run[i].left + IdsOf(run[i].queue);
    assert forall j :: 0 <= j < |run[i].left| ==> run[i].left[j] == all[j];
  }

  lemma HealthStep(c: Config, w: World, run: seq<State>, acts: seq<Action>, j: nat)
    requires ConfigOk(c) && IsRun(c, w, run, acts) && j < |acts|
    ensures run[j + 1].healthy ==> run[j].healthy
  {
    RunInv(c, w, run, acts, j);
    assert StepAt(c, w, run, acts, j);
    InvStep(c, w, run[j], acts[j], run[j + 1]);
  }

  lemma {:induction false} HealthIsMonotone(c: Config, w: World, run: seq<State>, acts: seq<Action>, i: nat, j: nat)
    requires ConfigOk(c) && IsRun(c, w, run, acts) && i <= j < |run| && !run[i].healthy
    ensures !run[j].healthy
  {
    if i < j {
      HealthIsMonotone(c, w, run, acts, i, j - 1);
      HealthStep(c, w, run, acts, j - 1);
    }
  }

  /** After the first failure no batch is delivered from the GPU any more. */
  lemma GpuStaysOff(c: Config, w: World, run: seq<State>, acts: seq<Action>, i: nat, j: nat)
    requires ConfigOk(c) && IsRun(c, w, run, acts) && i <= j < |acts| && !run[i].healthy
    requires acts[j].ScoreBatch? && run[j].phase.Scoring?
    ensures run[j + 1].phase == Delivering(0, false)
  {
    HealthIsMonotone(c, w, run, acts, i, j);
    assert StepAt(c, w, run, acts, j);
  }

  // ------------------------------------------------------------ what a job is served --

  /** The engine's and the scans' side of a delivery: only a ranking serves; it ranks by some blended
      score, and without the GPU it ranks an exact scan. */
  ghost predicate JobOk(w: World, s: State, engine: Engine, scan: seq<Neighbor>)
    requires s.phase.Delivering? && s.phase.next < |s.batch|
  {
    var r := s.batch[s.phase.next].request;
    && (engine.Refused? ==> engine.status != Served)
    && (engine.Ranked? ==>
          && (!s.phase.usedGpu ==> TopList(w.ids, w.scores(r.user), Want(r), scan))
          && TopList(IdSet(NextCandidates(s, scan)), engine.blend, r.k, engine.items))
  }

  /** A scorer that does not fail returns exact rows, and deliveries are as `JobOk` says. */
  ghost predicate ActionOk(w: World, s: State, a: Action) {
    match a
    case ScoreBatch(works, output) =>
      s.phase.Scoring? && s.healthy && works ==> RowsExact(output, s.batch, w.scores, w.ids, Width(s.batch, |w.ids|))
    case Deliver(_, engine, _, scan) => Enabled(s, a) ==> JobOk(w, s, engine, scan)
    case _ => true
  }

  ghost predicate ActionsOk(w: World, run: seq<State>, acts: seq<Action>) {
    |run| == |acts| + 1 && forall i :: 0 <= i < |acts| ==> ActionOk(w, run[i], acts[i])
  }

  /** A served result: exact candidates of its own request, and the best of them. */
  ghost predicate ResultOk(w: World, r: Result) {
    r.status == Served ==>
      && TopList(w.ids, w.scores(r.request.user), Want(r.request), r.candidates)
      && TopList(IdSet(r.candidates), r.blend, r.request.k, r.items)
  }

  ghost predicate ResultsOk(w: World, rs: seq<Result>) {
    forall i :: 0 <= i < |rs| ==> ResultOk(w, rs[i])
  }

  /** While a batch is delivered from the GPU, the buffer holds its exact rows. */
  ghost predicate BufferOk(w: World, s: State) {
    s.phase.Delivering? && s.phase.usedGpu ==>
      s.width == Width(s.batch, |w.ids|) && RowsExact(s.output, s.batch, w.scores, w.ids, s.width)
  }

  lemma {:induction false} PullServesNobody(c: Config, w: World, s: State, until: int, clock: nat -> int, t: State)
    requires ResultsOk(w, s.results) && t == Pull(c, s, until, clock).0
    ensures ResultsOk(w, t.results) && t.phase == s.phase
    decreases |s.queue|
  {
    if s.queue != [] && |s.batch| < c.maxBatch {
      var j := s.queue[0];
      var expired := Expired(j, clock(j.id));
      var deadline := if expired then until else Min(until, j.submitted + j.request.timeoutUs);
      PullServesNobody(c, w, PullOne(s, expired), deadline, clock, t);
    }
  }

  /** The next job's candidates are exact on either path. */
  lemma CandidatesExact(w: World, s: State, scan: seq<Neighbor>, engine: Engine)
    requires s.phase.Delivering? && s.phase.next < |s.batch| && BufferOk(w, s) && JobOk(w, s, engine, scan)
    requires engine.Ranked?
    ensures var r := s.batch[s.phase.next].request; TopList(w.ids, w.scores(r.user), Want(r), NextCandidates(s, scan))
  {
    if s.phase.usedGpu { CutIsExact(s.output, s.batch, w.scores, w.ids, s.width, s.phase.next); }
  }

  lemma DeliverExact(w: World, s: State, before: int, engine: Engine, after: int, scan: seq<Neighbor>, t: State)
    requires s.phase.Delivering? && s.phase.next < |s.batch| && BufferOk(w, s) && JobOk(w, s, engine, scan)
    requires ResultsOk(w, s.results) && t == DeliverOne(s, before, engine, after, scan)
    ensures ResultsOk(w, t.results) && BufferOk(w, t)
  {
    if engine.Ranked? { CandidatesExact(w, s, scan, engine); }
  }

  lemma ExactStep(c: Config, w: World, s: State, a: Action, t: State)
    requires BufferOk(w, s) && ResultsOk(w, s.results) && ActionOk(w, s, a) && Moves(c, w, s, a, t)
    ensures BufferOk(w, t) && ResultsOk(w, t.results)
  {
    if Enabled(s, a) {
      match a
      case WakeUp(clock, now) =>
        if !s.stopping && s.queue != [] {
          var until := s.queue[0].submitted + c.waitUs;
          PullServesNobody(c, w, s, until, clock, Pull(c, s, until, clock).0);
        }
      case Resume(clock, now) => PullServesNobody(c, w, s, s.phase.until, clock, Pull(c, s, s.phase.until, clock).0);
      case Deliver(before, engine, after, scan) => DeliverExact(w, s, before, engine, after, scan, t);
      case _ =>
    }
  }

  lemma {:induction false} RunExact(c: Config, w: World, run: seq<State>, acts: seq<Action>, i: nat)
    requires IsRun(c, w, run, acts) && ActionsOk(w, run, acts) && i < |run|
    ensures BufferOk(w, run[i]) && ResultsOk(w, run[i].results)
  {
    if i > 0 {
      RunExact(c, w, run, acts, i - 1);
      assert StepAt(c, w, run, acts, i - 1);
      ExactStep(c, w, run[i - 1], acts[i - 1], run[i]);
    }
  }

  /** In every run, whatever shared its batch and whatever the GPU's health, a served job was
      answered from the exact top list of its own query at its own size, with the best of it. */
  lemma ServedIsExact(c: Config, w: World, run: seq<State>, acts: seq<Action>, i: nat, n: nat)
    requires IsRun(c, w, run, acts) && ActionsOk(w, run, acts) && i < |run|
    requires n < |run[i].results| && run[i].results[n].status == Served
    ensures var r := run[i].results[n];
            && TopList(w.ids, w.scores(r.request.user), Want(r.request), r.candidates)
            && TopList(IdSet(r.candidates), r.blend, r.request.k, r.items)
  {
    RunExact(c, w, run, acts, i);
    assert ResultOk(w, run[i].results[n]);
  }

  /** Batching is transparent: the same request served in any two runs, in any company, from the GPU
      in one and by the CPU scan in the other, gets candidates with the same scores; and when no two
      items tie, the same candidates, and ranked items with the same scores under the same features. */
  lemma BatchingIsTransparent(c: Config, d: Config, w: World, run: seq<State>, acts: seq<Action>, i: nat, n: nat,
                              run': seq<State>, acts': seq<Action>, i': nat, n': nat)
    requires IsRun(c, w, run, acts) && ActionsOk(w, run, acts) && i < |run| && n < |run[i].results|
    requires IsRun(d, w, run', acts') && ActionsOk(w, run', acts') && i' < |run'| && n' < |run'[i'].results|
    requires run[i].results[n].status == Served && run'[i'].results[n'].status == Served
    requires var r, r' := run[i].results[n].request, run'[i'].results[n'].request;
             r.user == r'.user && r.k == r'.k && Want(r) == Want(r')
    ensures var a, b := run[i].results[n].candidates, run'[i'].results[n'].candidates;
            |a| == Min(Want(run[i].results[n].request), |w.ids|) && SameScores(a, b)
    ensures NoTies(w.ids, w.scores(run[i].results[n].request.user)) ==>
              run[i].results[n].candidates == run'[i'].results[n'].candidates &&
              (run[i].results[n].blend == run'[i'].results[n'].blend ==>
                 SameScores(run[i].results[n].items, run'[i'].results[n'].items))
  {
    ServedIsExact(c, w, run, acts, i, n);
    ServedIsExact(d, w, run', acts', i', n');
    var r, r' := run[i].results[n], run'[i'].results[n'];
    SameRequest(w.ids, w.scores(r.request.user), Want(r.request), r.request.k, r.candidates, r'.candidates,
                r.blend, r'.blend, r.items, r'.items);
  }

  lemma SameRequest(ids: set<nat>, f: nat -> real, want: nat, k: nat, a: seq<Neighbor>, b: seq<Neighbor>,
                    g: nat -> real, h: nat -> real, ra: seq<Neighbor>, rb: seq<Neighbor>)
    requires TopList(ids, f, want, a) && TopList(ids, f, want, b)
    requires TopList(IdSet(a), g, k, ra) && TopList(IdSet(b), h, k, rb)
    ensures |a| == Min(want, |ids|) && SameScores(a, b)
    ensures NoTies(ids, f) ==> a == b && (g == h ==> SameScores(ra, rb))
  {
    TopListUnique(ids, f, want, a, b);
    if NoTies(ids, f) {
      TopListUniqueIds(ids, f, want, a, b);
      if g == h { TopListUnique(IdSet(a), g, k, ra, rb); }
    }
  }

  // --------------------------------------------------------------------- stopping --

  /** How many steps the worker is away from its end once it has to stop. */
  function Measure(c: Config, s: State): nat {
    match s.phase
    case Exited => 0
    case Waiting => 1
    case Delivering(next, _) => if next <= |s.batch| then 1 + (|s.batch| - next) else 1
    case Scoring => 2 + |s.batch|
    case Collecting(_) => 3 + c.maxBatch
  }

  predicate IsWorkerStep(a: Action) { !a.Submit? && !a.Stop? }

  /** After a stop request every enabled worker step, whatever the clocks, the scorer and the engine
      do, brings the worker closer to its end; nothing else moves it away; and until it has gone
      some worker step is enabled. */
  lemma StopMakesProgress(c: Config, w: World, s: State, a: Action, t: State)
    requires ConfigOk(c) && Inv(c, s) && s.stopping && Moves(c, w, s, a, t)
    ensures t.stopping && Measure(c, t) <= Measure(c, s)
    ensures IsWorkerStep(a) && Enabled(s, a) ==> Measure(c, t) < Measure(c, s)
    ensures Measure(c, s) == 0 <==> s.phase.Exited?
    ensures !s.phase.Exited? ==> exists b :: IsWorkerStep(b) && Enabled(s, b)
  {
    StopLowers(c, w, s, a, t);
    MeasureZero(c, s);
    if !s.phase.Exited? {
      var b := NextStep(s);
      assert IsWorkerStep(b) && Enabled(s, b);
    }
  }

  lemma StopLowers(c: Config, w: World, s: State, a: Action, t: State)
    requires ConfigOk(c) && Inv(c, s) && s.stopping && Moves(c, w, s, a, t)
    ensures t.stopping && Measure(c, t) <= Measure(c, s)
    ensures IsWorkerStep(a) && Enabled(s, a) ==> Measure(c, t) < Measure(c, s)
  {
    if Enabled(s, a) && a.Resume? {
      CollectStops(c, s, s.phase.until, a.clock, a.now, t);
    } else {
      StopLowersHere(c, w, s, a, t);
    }
  }

  lemma StopLowersHere(c: Config, w: World, s: State, a: Action, t: State)
    requires Bounded(c, s) && s.stopping && Moves(c, w, s, a, t) && (a.Resume? ==> !Enabled(s, a))
    ensures t.stopping && Measure(c, t) <= Measure(c, s)
    ensures IsWorkerStep(a) && Enabled(s, a) ==> Measure(c, t) < Measure(c, s)
  {
  }

  lemma CollectStops(c: Config, s: State, until: int, clock: nat -> int, now: int, t: State)
    requires Inv(c, s) && s.phase.Collecting? && s.stopping && t == Collect(c, s, until, clock, now)
    ensures t.stopping && (t.phase.Waiting? || t.phase.Scoring?) && |t.batch| <= c.maxBatch
  {
    PullKeeps(c, s, until, clock, Pull(c, s, until, clock).0);
  }

  /** A step the worker can take. */
  function NextStep(s: State): Action
    requires !s.phase.Exited?
  {
    match s.phase
    case Waiting => WakeUp(_ => 0, 0)
    case Collecting(_) => Resume(_ => 0, 0)
    case Scoring => ScoreBatch(false, [])
    case Delivering(_, _) => Deliver(0, Threw, 0, [])
  }

  /** How many of the steps from `i` to `j` were enabled steps of the worker. */
  function WorkerSteps(run: seq<State>, acts: seq<Action>, i: nat, j: nat): nat
    requires i <= j < |run| == |acts| + 1
  {
    if i == j then 0
    else WorkerSteps(run, acts, i, j - 1) +
         if IsWorkerStep(acts[j - 1]) && Enabled(run[j - 1], acts[j - 1]) then 1 else 0
  }

  lemma StopStep(c: Config, w: World, run: seq<State>, acts: seq<Action>, j: nat)
    requires ConfigOk(c) && IsRun(c, w, run, acts) && j < |acts| && run[j].stopping
    ensures run[j + 1].stopping && Measure(c, run[j + 1]) <= Measure(c, run[j])
    ensures IsWorkerStep(acts[j]) && Enabled(run[j], acts[j]) ==> Measure(c, run[j + 1]) < Measure(c, run[j])
  {
    RunInv(c, w, run, acts, j);
    assert StepAt(c, w, run, acts, j);
    StopMakesProgress(c, w, run[j], acts[j], run[j + 1]);
  }

  lemma MeasureZero(c: Config, s: State)
    ensures Measure(c, s) == 0 <==> s.phase.Exited?
  {
  }

  /** So in every run a worker that is scheduled often enough after a stop request has gone. */
  lemma {:induction false} StopTerminates(c: Config, w: World, run: seq<State>, acts: seq<Action>, i: nat, j: nat)
    requires ConfigOk(c) && IsRun(c, w, run, acts) && i <= j < |run| && run[i].stopping
    ensures run[j].stopping && Measure(c, run[j]) + WorkerSteps(run, acts, i, j) <= Measure(c, run[i])
    ensures WorkerSteps(run, acts, i, j) >= Measure(c, run[i]) ==> run[j].phase.Exited?
  {
    MeasureZero(c, run[j]);
    if i < j {
      StopTerminates(c, w, run, acts, i, j - 1);
      StopStep(c, w, run, acts, j - 1);
    }
  }

  // ------------------------------------------------------------------ legal jobs --

  predicate Legal(c: Config, jobs: seq<Job>) {
    forall i :: 0 <= i < |jobs| ==> Acceptable(c, jobs[i].request)
  }

  lemma {:induction false} PullLegal(c: Config, s: State, until: int, clock: nat -> int, t: State)
    requires Legal(c, s.queue) && Legal(c, s.batch) && t == Pull(c, s, until, clock).0
    ensures Legal(c, t.queue) && Legal(c, t.batch)
    decreases |s.queue|
  {
    if s.queue != [] && |s.batch| < c.maxBatch {
      var j := s.queue[0];
      var expired := Expired(j, clock(j.id));
      var deadline := if expired then until else Min(until, j.submitted + j.request.timeoutUs);
      PullLegal(c, PullOne(s, expired), deadline, clock, t);
    }
  }

  /** Only valid requests are ever queued or scored. */
  lemma LegalStep(c: Config, w: World, s: State, a: Action, t: State)
    requires Legal(c, s.queue) && Legal(c, s.batch) && Moves(c, w, s, a, t)
    ensures Legal(c, t.queue) && Legal(c, t.batch)
  {
    if Enabled(s, a) {
      match a
      case WakeUp(clock, now) =>
        if !s.stopping && s.queue != [] {
          var until := s.queue[0].submitted + c.waitUs;
          PullLegal(c, s, until, clock, Pull(c, s, until, clock).0);
        }
      case Resume(clock, now) => PullLegal(c, s, s.phase.until, clock, Pull(c, s, s.phase.until, clock).0);
      case _ =>
    }
  }
}
