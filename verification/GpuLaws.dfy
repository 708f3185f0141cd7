/** What the batching scheduler's steps come to, said of its queue, batch and answers alone. */
module GpuLaws {
  import opened Basics
  import opened Neighbors
  import opened GpuRows
  import opened GpuBatchers

  // --------------------------------------------------------------------- submission --

  /** A request is answered at once if its sizes, its timeout or its user are out of range, or if the
      scheduler is stopping or full; otherwise it is queued last, and nothing else changes. */
  lemma SubmitMeans(c: Config, s: State, r: Request, now: int)
    ensures var t := SubmitTo(c, s, r, now);
            var legal := 1 <= r.k <= 512 && r.retrieveK <= 512 && r.timeoutUs >= 1 && r.user < c.users;
            && t == s.(submitted := s.submitted + 1, queue := t.queue, results := t.results)
            && if legal && !s.stopping && |s.queue| < c.capacity
               then t.queue == s.queue + [Job(s.submitted, r, now)] && t.results == s.results
               else
                 && t.queue == s.queue && |t.results| == |s.results| + 1 && t.results[..|s.results|] == s.results
                 && var answer := t.results[|s.results|];
                    answer.id == s.submitted && answer.request == r && answer.items == [] &&
                    answer.status == if legal then LoadShed else BadRequest
  {
  }

  // ---------------------------------------------------------------- batch formation --

  /** The job's time is up. */
  ghost predicate Late(j: Job, clock: nat -> int) {
    clock(j.id) >= j.submitted + j.request.timeoutUs
  }

  /** The jobs that are still in time, in order. */
  ghost function InTime(jobs: seq<Job>, clock: nat -> int): (r: seq<Job>)
    ensures forall j :: j in r <==> j in jobs && !Late(j, clock)
  {
    if jobs == [] then [] else (if Late(jobs[0], clock) then [] else [jobs[0]]) + InTime(jobs[1..], clock)
  }

  /** The answers to the others, in order. */
  ghost function TimedOut(jobs: seq<Job>, clock: nat -> int): seq<Result> {
    if jobs == [] then [] else
      (if Late(jobs[0], clock) then [Bare(jobs[0].id, jobs[0].request, Timeout)] else []) + TimedOut(jobs[1..], clock)
  }

  ghost predicate Earliest(until: int, jobs: seq<Job>, deadline: int) {
    && deadline <= until && (forall j :: j in jobs ==> deadline <= j.submitted + j.request.timeoutUs)
    && (deadline == until || exists j :: j in jobs && deadline == j.submitted + j.request.timeoutUs)
  }

  /** The first `n` jobs were pulled: those in time joined the batch, the others were answered, and the
      deadline is the earliest of the old one and those of the jobs that joined. */
  ghost predicate Pulled(c: Config, s: State, until: int, clock: nat -> int, n: nat, t: State, deadline: int) {
    && n <= |s.queue| && t.queue == s.queue[n..] && (n == |s.queue| || |t.batch| >= c.maxBatch)
    && t.batch == s.batch + InTime(s.queue[..n], clock) && t.results == s.results + TimedOut(s.queue[..n], clock)
    && t == s.(queue := t.queue, batch := t.batch, results := t.results, left := t.left)
    && Earliest(until, InTime(s.queue[..n], clock), deadline)
  }

  /** The job in front of those that are pulled next. */
  lemma FrontJob(jobs: seq<Job>, m: nat, clock: nat -> int)
    requires jobs != [] && m <= |jobs| - 1
    ensures InTime(jobs[..m + 1], clock) ==
            (if Late(jobs[0], clock) then [] else [jobs[0]]) + InTime(jobs[1..][..m], clock)
    ensures TimedOut(jobs[..m + 1], clock) ==
            (if Late(jobs[0], clock) then [Bare(jobs[0].id, jobs[0].request, Timeout)] else []) +
            TimedOut(jobs[1..][..m], clock)
  {
    assert jobs[..m + 1][0] == jobs[0] && jobs[..m + 1][1..] == jobs[1..][..m];
  }

  lemma SoonerFirst(until: int, j: Job, jobs: seq<Job>, deadline: int)
    requires Earliest(Min(until, j.submitted + j.request.timeoutUs), jobs, deadline)
    ensures Earliest(until, [j] + jobs, deadline)
  {
    assert j in [j] + jobs;
  }

  lemma Behind<T>(a: seq<T>, x: seq<T>, b: seq<T>)
    ensures a + x + b == a + (x + b)
  {
  }

  /** A late job was in front. */
  lemma LateInFront(c: Config, s: State, next: State, until: int, clock: nat -> int, m: nat, t: State, deadline: int)
    requires s.queue != [] && Late(s.queue[0], clock) && next == PullOne(s, true)
    requires Pulled(c, next, until, clock, m, t, deadline)
    ensures Pulled(c, s, until, clock, m + 1, t, deadline)
  {
    FrontJob(s.queue, m, clock);
    var j, rest := s.queue[0], s.queue[1..][..m];
    assert next.queue[..m] == rest && next.queue[m..] == s.queue[m + 1..];
    assert InTime(s.queue[..m + 1], clock) == InTime(rest, clock);
    Behind(s.results, [Bare(j.id, j.request, Timeout)], TimedOut(rest, clock));
  }

  /** A job in time was in front. */
  lemma InTimeInFront(c: Config, s: State, next: State, until: int, sooner: int, clock: nat -> int, m: nat, t: State,
                      deadline: int)
    requires s.queue != [] && !Late(s.queue[0], clock) && next == PullOne(s, false)
    requires sooner == Min(until, s.queue[0].submitted + s.queue[0].request.timeoutUs)
    requires Pulled(c, next, sooner, clock, m, t, deadline)
    ensures Pulled(c, s, until, clock, m + 1, t, deadline)
  {
    FrontJob(s.queue, m, clock);
    var j, rest := s.queue[0], s.queue[1..][..m];
    assert next.queue[..m] == rest && next.queue[m..] == s.queue[m + 1..];
    assert TimedOut(s.queue[..m + 1], clock) == TimedOut(rest, clock);
    assert InTime(s.queue[..m + 1], clock) == [j] + InTime(rest, clock);
    Behind(s.batch, [j], InTime(rest, clock));
    SoonerFirst(until, j, InTime(rest, clock), deadline);
  }

  lemma NothingPulled(c: Config, s: State, until: int, clock: nat -> int)
    requires s.queue == [] || |s.batch| >= c.maxBatch
    ensures Pulled(c, s, until, clock, 0, s, until)
  {
    assert s.queue[..0] == [] && s.queue[0..] == s.queue;
  }

  lemma InFront(c: Config, s: State, next: State, expired: bool, until: int, sooner: int, clock: nat -> int, m: nat,
                t: State, deadline: int)
    requires s.queue != [] && expired == Expired(s.queue[0], clock(s.queue[0].id)) && next == PullOne(s, expired)
    requires sooner == if expired then until else Min(until, s.queue[0].submitted + s.queue[0].request.timeoutUs)
    requires Pulled(c, next, sooner, clock, m, t, deadline)
    ensures Pulled(c, s, until, clock, m + 1, t, deadline)
  {
    assert expired <==> Late(s.queue[0], clock);
    if expired {
      LateInFront(c, s, next, until, clock, m, t, deadline);
    } else {
      InTimeInFront(c, s, next, until, sooner, clock, m, t, deadline);
    }
  }

  lemma {:induction false} PullMeans(c: Config, s: State, until: int, clock: nat -> int, t: State, deadline: int)
    returns (n: nat)
    requires Pull(c, s, until, clock) == (t, deadline)
    ensures Pulled(c, s, until, clock, n, t, deadline)
    decreases |s.queue|
  {
    if s.queue == [] || |s.batch| >= c.maxBatch {
      NothingPulled(c, s, until, clock);
      return 0;
    }
    var expired := Expired(s.queue[0], clock(s.queue[0].id));
    var next := PullOne(s, expired);
    var sooner := if expired then until else Min(until, s.queue[0].submitted + s.queue[0].request.timeoutUs);
    var m := PullMeans(c, next, sooner, clock, t, deadline);
    InFront(c, s, next, expired, until, sooner, clock, m, t, deadline);
    n := m + 1;
  }

  /** One critical section: jobs are pulled, and then the worker waits again until the deadline, or goes
      on: when it is stopping, the deadline has come, or the batch is full. */
  lemma CollectMeans(c: Config, s: State, until: int, clock: nat -> int, now: int)
    returns (n: nat, pulled: State, deadline: int)
    ensures Pulled(c, s, until, clock, n, pulled, deadline)
    ensures var t := Collect(c, s, until, clock, now);
            && t == pulled.(phase := t.phase)
            && (t.phase.Collecting? <==> !s.stopping && now < deadline && |pulled.batch| < c.maxBatch)
            && (t.phase.Collecting? ==> t.phase.until == deadline)
            && (!t.phase.Collecting? ==> t.phase == if pulled.batch == [] then Waiting else Scoring)
  {
    pulled, deadline := Pull(c, s, until, clock).0, Pull(c, s, until, clock).1;
    n := PullMeans(c, s, until, clock, pulled, deadline);
  }

  /** A worker that wakes up with work starts a batch whose deadline is the first job's waiting time; one
      that is stopping fails every queued job and leaves. */
  lemma WakeMeans(c: Config, s: State, clock: nat -> int, now: int)
    ensures var t := Wake(c, s, clock, now);
            && (s.stopping ==>
                  && t.phase == Exited && t.queue == [] && t.batch == s.batch && |t.results| == |s.results| + |s.queue|
                  && t.results[..|s.results|] == s.results
                  && forall i :: 0 <= i < |s.queue| ==>
                       var answer := t.results[|s.results| + i];
                       answer.id == s.queue[i].id && answer.status == Unavailable && answer.items == [])
            && (!s.stopping && s.queue == [] ==> t == s)
            && (!s.stopping && s.queue != [] ==> t == Collect(c, s, s.queue[0].submitted + c.waitUs, clock, now))
  {
  }

  // ------------------------------------------------------------------------ scoring --

  /** The row width is the largest number of candidates any request of the batch asks for, at least one
      and at most the catalogue. */
  lemma WidthMeans(batch: seq<Job>, n: nat)
    ensures Width(batch, n) <= n
    ensures forall j :: j in batch ==> Width(batch, n) >= Min(Max(j.request.k, j.request.retrieveK), n)
    ensures Width(batch, n) == Min(1, n) ||
            exists j :: j in batch && Width(batch, n) == Min(Max(j.request.k, j.request.retrieveK), n)
  {
    forall j | j in batch ensures Width(batch, n) >= Min(Max(j.request.k, j.request.retrieveK), n) {
      var i :| 0 <= i < |batch| && batch[i] == j;
      WidestCovers(batch, i);
    }
    WidestAttained(batch);
  }

  lemma {:induction false} WidestAttained(batch: seq<Job>)
    ensures Widest(batch) == 1 || exists j :: j in batch && Widest(batch) == Max(j.request.k, j.request.retrieveK)
  {
    if batch != [] {
      WidestAttained(batch[..|batch| - 1]);
      assert batch[|batch| - 1] in batch;
    }
  }

  /** The GPU delivers a batch exactly when it was healthy and worked, and stays healthy exactly then. */
  lemma ScoreMeans(w: World, s: State, works: bool, output: seq<Neighbor>)
    ensures var t := Score(w, s, works, output);
            && t.phase == Delivering(0, s.healthy && works) && (t.healthy <==> s.healthy && works)
            && t == s.(phase := t.phase, healthy := t.healthy, output := output, width := Width(s.batch, |w.ids|))
  {
  }

  // ----------------------------------------------------------------------- delivery --

  /** The answer to the next open job, and where the worker goes from there. */
  lemma DeliverMeans(s: State, before: int, engine: Engine, after: int, scan: seq<Neighbor>)
    requires s.phase.Delivering? && s.phase.next < |s.batch|
    ensures var t, j := DeliverOne(s, before, engine, after, scan), s.batch[s.phase.next];
            && |t.results| == |s.results| + 1 && t.results[..|s.results|] == s.results
            && (if s.phase.next + 1 < |s.batch|
                then t.phase == Delivering(s.phase.next + 1, s.phase.usedGpu) && t.batch == s.batch
                else t.phase == Waiting && t.batch == [])
            && var answer := t.results[|s.results|];
               && answer.id == j.id && answer.request == j.request
               && answer.status == (if before >= j.submitted + j.request.timeoutUs then Timeout
                                    else if engine.Threw? then Unavailable
                                    else if after >= j.submitted + j.request.timeoutUs then Timeout
                                    else if engine.Refused? then engine.status else Served)
               && if engine.Ranked? && before < j.submitted + j.request.timeoutUs &&
                     after < j.submitted + j.request.timeoutUs
                  then answer.items == engine.items && answer.blend == engine.blend &&
                       (!s.phase.usedGpu ==> answer.candidates == scan)
                  else answer.items == []
  {
  }
}
