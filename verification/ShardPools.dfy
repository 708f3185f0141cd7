/** The sharded runner: a generation barrier over worker threads, the slicing of the catalogue and
    the merge of the shards' lists. */
module ShardPools {
  import opened Arithmetic
  import opened Basics
  import opened Neighbors

  // ---------------------------------------------------------------- the barrier --

  /** A worker sleeps, holds the job it picked up, or has run it and not reported yet. */
  datatype Phase = Sleeping | Holding(job: Option<nat>) | Ran | Exited

  /** `ran` lists the runs whose job the worker has executed, by generation. */
  datatype Worker = Worker(seen: nat, phase: Phase, ran: seq<nat>)

  /** A job is identified by the run that posted it. `waiting` is set while `run` has not returned. */
  datatype State = State(workers: seq<Worker>, generation: nat, pending: int, job: Option<nat>, stop: bool,
                         waiting: bool)

  function Start(n: nat): State {
    State(seq(n, _ => Worker(0, Sleeping, [])), 0, 0, None, false, false)
  }

  datatype Action = Post | Return | Stop | PickUp(worker: nat) | Execute(worker: nat) | Report(worker: nat)

  function Put(s: State, i: nat, w: Worker): State
    requires i < |s.workers|
  {
    s.(workers := s.workers[i := w])
  }

  /** A worker's step under the lock, or its run of the job outside it. */
  function WorkerStep(s: State, a: Action): State {
    match a
    case PickUp(i) =>
      if i < |s.workers| && s.workers[i].phase.Sleeping? && (s.stop || s.generation != s.workers[i].seen) then
        if s.stop then Put(s, i, s.workers[i].(phase := Exited))
        else Put(s, i, s.workers[i].(seen := s.generation, phase := Holding(s.job)))
      else s
    case Execute(i) =>
      if i < |s.workers| && s.workers[i].phase.Holding? then
        var w := s.workers[i];
        Put(s, i, w.(phase := Ran, ran := if w.phase.job.Some? then w.ran + [w.phase.job.value] else w.ran))
      else s
    case Report(i) =>
      if i < |s.workers| && s.workers[i].phase.Ran?
      then Put(s, i, s.workers[i].(phase := Sleeping)).(pending := s.pending - 1)
      else s
    case _ => s
  }

  /** One atomic step. One thread owns the pool: it runs jobs one after the other, then stops it. */
  function Step(s: State, a: Action): State {
    match a
    case Post =>
      if !s.waiting && !s.stop
      then s.(job := Some(s.generation + 1), pending := |s.workers|, generation := s.generation + 1, waiting := true)
      else s
    case Return => if s.waiting && s.pending == 0 then s.(job := None, waiting := false) else s
    case Stop => if !s.waiting then s.(stop := true) else s
    case _ => WorkerStep(s, a)
  }

  /** Step `i` of a run. */
  ghost predicate StepAt(run: seq<State>, acts: seq<Action>, i: nat)
    requires |run| == |acts| + 1 && i < |acts|
  {
    run[i + 1] == Step(run[i], acts[i])
  }

  ghost predicate IsRun(n: nat, run: seq<State>, acts: seq<Action>) {
    && |run| == |acts| + 1 && run[0] == Start(n)
    && forall i :: 0 <= i < |acts| ==> StepAt(run, acts, i)
  }

  /** The generations 1 .. g. */
  function Upto(g: nat): (r: seq<nat>)
    ensures |r| == g
  {
    seq(g, i => i + 1)
  }

  /** The worker has finished everything posted up to generation `g`. */
  ghost predicate Done(w: Worker, g: nat) {
    (w.phase.Sleeping? || w.phase.Exited?) && w.seen == g && w.ran == Upto(g)
  }

  /** While generation `g` runs, a worker has not started it, holds it, has run it, or is done. */
  ghost predicate InRun(w: Worker, g: nat) {
    || Done(w, g)
    || (w.phase.Sleeping? && g > 0 && w.seen == g - 1 && w.ran == Upto(g - 1))
    || (w.phase == Holding(Some(g)) && g > 0 && w.seen == g && w.ran == Upto(g - 1))
    || (w.phase.Ran? && w.seen == g && w.ran == Upto(g))
  }

  /** How many of the first `k` workers are not done. */
  ghost function Left(workers: seq<Worker>, g: nat, k: nat): nat
    requires k <= |workers|
  {
    if k == 0 then 0 else Left(workers, g, k - 1) + if Done(workers[k - 1], g) then 0 else 1
  }

  ghost predicate Inv(s: State) {
    && (forall i :: 0 <= i < |s.workers| ==>
          InRun(s.workers[i], s.generation) && (s.workers[i].phase.Exited? ==> s.stop))
    && s.pending == Left(s.workers, s.generation, |s.workers|)
    && (if s.waiting then s.generation > 0 && s.job == Some(s.generation) && !s.stop
        else s.pending == 0 && s.job == None)
  }

  lemma {:induction false} LeftZero(workers: seq<Worker>, g: nat, k: nat)
    requires k <= |workers|
    ensures Left(workers, g, k) == 0 <==> forall i :: 0 <= i < k ==> Done(workers[i], g)
  {
    if k > 0 { LeftZero(workers, g, k - 1); }
  }

  lemma {:induction false} LeftAll(workers: seq<Worker>, g: nat, k: nat)
    requires k <= |workers| && forall i :: 0 <= i < k ==> !Done(workers[i], g)
    ensures Left(workers, g, k) == k
  {
    if k > 0 { LeftAll(workers, g, k - 1); }
  }

  lemma {:induction false} LeftPut(workers: seq<Worker>, g: nat, i: nat, w: Worker, k: nat)
    requires i < |workers| && k <= |workers|
    ensures Left(workers[i := w], g, k) == Left(workers, g, k) +
              if i >= k then 0 else (if Done(w, g) then 0 else 1) - (if Done(workers[i], g) then 0 else 1)
  {
    if k > 0 { LeftPut(workers, g, i, w, k - 1); }
  }

  lemma UptoNext(g: nat)
    ensures Upto(g + 1) == Upto(g) + [g + 1]
  {
  }

  lemma PutKeeps(s: State, i: nat, w: Worker)
    requires Inv(s) && i < |s.workers| && InRun(w, s.generation)
    ensures var t := Put(s, i, w);
            (forall j :: 0 <= j < |t.workers| ==> InRun(t.workers[j], t.generation)) &&
            Left(t.workers, t.generation, |t.workers|) ==
              s.pending + (if Done(w, s.generation) then 0 else 1) - (if Done(s.workers[i], s.generation) then 0 else 1)
  {
    LeftPut(s.workers, s.generation, i, w, |s.workers|);
  }

  lemma WorkerKeeps(s: State, a: Action)
    requires Inv(s)
    ensures Inv(WorkerStep(s, a))
  {
    if a.PickUp? || a.Execute? || a.Report? {
      var i := a.worker;
      var t := WorkerStep(s, a);
      if t != s {
        assert InRun(s.workers[i], s.generation);
        LeftZero(s.workers, s.generation, |s.workers|);
        if s.generation > 0 { UptoNext(s.generation - 1); }
        PutKeeps(s, i, t.workers[i]);
      }
    }
  }

  lemma InvStep(s: State, a: Action)
    requires Inv(s)
    ensures Inv(Step(s, a))
  {
    match a
    case Post =>
      var t := Step(s, a);
      LeftZero(s.workers, s.generation, |s.workers|);
      if t != s { PostKeeps(s, t); }
    case Return =>
    case Stop =>
    case _ => WorkerKeeps(s, a);
  }

  lemma PostKeeps(s: State, t: State)
    requires Inv(s) && !s.waiting && !s.stop && t == Step(s, Post)
    requires forall i :: 0 <= i < |s.workers| ==> Done(s.workers[i], s.generation)
    ensures Inv(t)
  {
    LeftAll(t.workers, t.generation, |t.workers|);
  }

  lemma {:induction false} RunInv(n: nat, run: seq<State>, acts: seq<Action>, i: nat)
    requires IsRun(n, run, acts) && i < |run|
    ensures Inv(run[i]) && |run[i].workers| == n
  {
    if i == 0 {
      LeftZero(run[0].workers, 0, n);
    } else {
      RunInv(n, run, acts, i - 1);
      assert StepAt(run, acts, i - 1);
      InvStep(run[i - 1], acts[i - 1]);
    }
  }

  /** `run` returns only when every worker has executed the job of every run so far, this one
      included, each exactly once and in order. */
  lemma ReturnMeansAllRan(n: nat, run: seq<State>, acts: seq<Action>, i: nat, w: nat)
    requires IsRun(n, run, acts) && i < |acts| && acts[i].Return? && run[i].waiting && !run[i + 1].waiting
    requires w < n
    ensures |run[i].workers| == n && run[i].workers[w].ran == Upto(run[i].generation)
    ensures run[i].job == Some(run[i].generation)
  {
    RunInv(n, run, acts, i);
    assert StepAt(run, acts, i);
    LeftZero(run[i].workers, run[i].generation, |run[i].workers|);
  }

  /** At every instant a worker has executed each job at most once, in order, and never a job
      that was not posted. */
  lemma NoJobTwice(n: nat, run: seq<State>, acts: seq<Action>, i: nat, w: nat)
    requires IsRun(n, run, acts) && i < |run| && w < n
    ensures |run[i].workers| == n
    ensures run[i].workers[w].ran == Upto(|run[i].workers[w].ran|) && |run[i].workers[w].ran| <= run[i].generation
  {
    RunInv(n, run, acts, i);
    assert InRun(run[i].workers[w], run[i].generation);
  }

  // -------------------------------------------------------------------- progress --

  /** How many steps a worker has to take before it is done with generation `g`. */
  function StepsLeft(w: Worker, g: nat): nat {
    match w.phase
    case Sleeping => if w.seen == g then 0 else 3
    case Holding(_) => 2
    case Ran => 1
    case Exited => 0
  }

  ghost function AllLeft(workers: seq<Worker>, g: nat, k: nat): nat
    requires k <= |workers|
  {
    if k == 0 then 0 else AllLeft(workers, g, k - 1) + StepsLeft(workers[k - 1], g)
  }

  ghost function Measure(s: State): nat { AllLeft(s.workers, s.generation, |s.workers|) }

  lemma {:induction false} AllLeftPut(workers: seq<Worker>, g: nat, i: nat, w: Worker, k: nat)
    requires i < |workers| && k <= |workers|
    ensures AllLeft(workers[i := w], g, k) ==
            AllLeft(workers, g, k) + if i >= k then 0 else StepsLeft(w, g) - StepsLeft(workers[i], g)
  {
    if k > 0 { AllLeftPut(workers, g, i, w, k - 1); }
  }

  lemma {:induction false} AllLeftBound(workers: seq<Worker>, g: nat, k: nat)
    requires k <= |workers|
    ensures AllLeft(workers, g, k) <= 3 * k
  {
    if k > 0 { AllLeftBound(workers, g, k - 1); }
  }

  /** Nothing is left to do exactly when nobody has to report. */
  lemma {:induction false} AllLeftZero(workers: seq<Worker>, g: nat, k: nat)
    requires k <= |workers| && forall i :: 0 <= i < k ==> InRun(workers[i], g)
    ensures AllLeft(workers, g, k) == 0 <==> Left(workers, g, k) == 0
  {
    if k > 0 { AllLeftZero(workers, g, k - 1); }
  }

  /** While `run` waits, every step that changes anything is one step of one worker towards its end. */
  lemma WaitingStep(s: State, a: Action)
    requires Inv(s) && s.waiting && !a.Return? && Step(s, a) != s
    ensures Measure(Step(s, a)) == Measure(s) - 1 && Step(s, a).waiting
  {
    assert a.PickUp? || a.Execute? || a.Report?;
    var i, t := a.worker, Step(s, a);
    assert InRun(s.workers[i], s.generation);
    AllLeftPut(s.workers, s.generation, i, t.workers[i], |s.workers|);
  }

  /** The next step of a worker that is not done. */
  function NextOf(w: Worker, i: nat): Action {
    match w.phase
    case Holding(_) => Execute(i)
    case Ran => Report(i)
    case _ => PickUp(i)
  }

  lemma WaitingWorks(s: State) returns (a: Action)
    requires Inv(s) && s.waiting && s.pending != 0
    ensures (a.PickUp? || a.Execute? || a.Report?) && Step(s, a) != s
  {
    LeftZero(s.workers, s.generation, |s.workers|);
    var i :| 0 <= i < |s.workers| && !Done(s.workers[i], s.generation);
    assert InRun(s.workers[i], s.generation);
    a := NextOf(s.workers[i], i);
    assert Step(s, a).workers[i].phase != s.workers[i].phase;
  }

  function After(s: State, acts: seq<Action>): State
    decreases |acts|
  {
    if acts == [] then s else After(Step(s, acts[0]), acts[1..])
  }

  /** From every state in which `run` waits, as many worker steps as there are left let it return. */
  lemma {:induction false} WaitingReturns(s: State) returns (acts: seq<Action>)
    requires Inv(s) && s.waiting
    ensures |acts| == Measure(s) + 1 && !After(s, acts).waiting
    decreases Measure(s)
  {
    AllLeftZero(s.workers, s.generation, |s.workers|);
    if s.pending == 0 { return [Return]; }
    var a := WaitingWorks(s);
    WaitingStep(s, a);
    InvStep(s, a);
    var rest := WaitingReturns(Step(s, a));
    acts := [a] + rest;
    assert acts[1..] == rest;
  }

  /** No `run` waits in vain: at every instant of a run it can return after at most three steps of each
      worker, and while it waits a worker has a step to take unless everybody has reported. */
  lemma RunCanReturn(n: nat, run: seq<State>, acts: seq<Action>, i: nat) returns (more: seq<Action>)
    requires IsRun(n, run, acts) && i < |run| && run[i].waiting
    ensures |more| <= 3 * n + 1 && !After(run[i], more).waiting
    ensures run[i].pending == 0 ||
            exists a: Action :: (a.PickUp? || a.Execute? || a.Report?) && Step(run[i], a) != run[i]
  {
    RunInv(n, run, acts, i);
    AllLeftBound(run[i].workers, run[i].generation, n);
    more := WaitingReturns(run[i]);
    if run[i].pending != 0 { var a := WaitingWorks(run[i]); }
  }

  // --------------------------------------------------------------------- slicing --

  /** The slice width. */
  function Per(items: nat, shards: nat): nat
    requires shards >= 1
  {
    (items + shards - 1) / shards
  }

  function Base(items: nat, shards: nat, s: nat): nat
    requires shards >= 1
  {
    s * Per(items, shards)
  }

  /** The size the program computes for shard `s`; negative when its base lies past the end. */
  function SliceSize(items: nat, shards: nat, s: nat): int
    requires shards >= 1
  {
    if Per(items, shards) <= items - Base(items, shards, s) then Per(items, shards) else items - Base(items, shards, s)
  }

  lemma MulMono(a: nat, b: nat, d: nat)
    requires a <= b
    ensures a * d <= b * d
  {
    assert b * d == a * d + (b - a) * d;
  }

  /** All slices have a size exactly when the last one starts inside the catalogue. */
  lemma SlicesFit(items: nat, shards: nat)
    requires shards >= 1
    ensures (forall s :: 0 <= s < shards ==> SliceSize(items, shards, s) >= 0) <==>
            Base(items, shards, shards - 1) <= items
  {
    forall s | 0 <= s < shards ensures Base(items, shards, s) <= Base(items, shards, shards - 1) {
      MulMono(s, shards - 1, Per(items, shards));
    }
    if Base(items, shards, shards - 1) > items { assert SliceSize(items, shards, shards - 1) < 0; }
  }

  /** Five items over four shards: the last slice would have minus one item. */
  lemma SliceCanBeNegative()
    ensures SliceSize(5, 4, 3) == -1
  {
    assert Per(5, 4) == 2;
  }

  lemma PerCovers(items: nat, shards: nat)
    requires shards >= 1
    ensures items <= shards * Per(items, shards)
  {
    var total := items + shards - 1;
    assert total == Per(items, shards) * shards + total % shards;
  }

  /** The global ids of one slice. */
  ghost predicate InSlice(items: nat, shards: nat, s: nat, x: nat)
    requires shards >= 1
  {
    Base(items, shards, s) <= x < Base(items, shards, s) + SliceSize(items, shards, s)
  }

  /** Every item is in the slice its quotient names. */
  lemma SliceHolds(items: nat, shards: nat, x: nat)
    requires shards >= 1 && x < items
    ensures Per(items, shards) > 0 && x / Per(items, shards) < shards
    ensures InSlice(items, shards, x / Per(items, shards), x)
  {
    var per := Per(items, shards);
    PerCovers(items, shards);
    assert per > 0 by { assert 0 < shards * per; }
    var s := x / per;
    assert x == s * per + x % per;
    if s >= shards { MulMono(shards, s, per); }
  }

  /** No item is in two slices. */
  lemma SliceUnique(items: nat, shards: nat, s: nat, x: nat)
    requires shards >= 1 && InSlice(items, shards, s, x)
    ensures x < items && Per(items, shards) > 0 && s == x / Per(items, shards)
  {
    Remainder(x, Per(items, shards), s, x - Base(items, shards, s));
  }

  /** The slices partition the catalogue: every item is in exactly one, and nothing else is. */
  lemma SlicesPartition(items: nat, shards: nat, x: nat)
    requires shards >= 1
    ensures x < items <==> exists s: nat :: s < shards && InSlice(items, shards, s, x)
    ensures forall s: nat, t: nat :: InSlice(items, shards, s, x) && InSlice(items, shards, t, x) ==> s == t
  {
    if x < items { SliceHolds(items, shards, x); }
    forall s: nat | InSlice(items, shards, s, x)
      ensures x < items && Per(items, shards) > 0 && s == x / Per(items, shards)
    {
      SliceUnique(items, shards, s, x);
    }
  }

  // ----------------------------------------------------------------------- merge --

  /** One shard's list with its ids made global. */
  function Shift(list: seq<Neighbor>, base: nat): (r: seq<Neighbor>)
    ensures |r| == |list| && forall i :: 0 <= i < |list| ==> r[i] == Neighbor(list[i].id + base, list[i].score)
  {
    seq(|list|, i requires 0 <= i < |list| => Neighbor(list[i].id + base, list[i].score))
  }

  function Joined(lists: seq<seq<Neighbor>>): seq<Neighbor> {
    if lists == [] then [] else Joined(lists[..|lists| - 1]) + lists[|lists| - 1]
  }

  /** `merged` is the first k of everything, sorted best first. */
  ghost predicate IsMerge(all: seq<Neighbor>, k: nat, merged: seq<Neighbor>) {
    |merged| == Min(k, |all|) && Descending(merged) && exists sorted :: CutOfSorted(all, k, sorted, merged)
  }

  ghost predicate CutOfSorted(all: seq<Neighbor>, k: nat, sorted: seq<Neighbor>, merged: seq<Neighbor>) {
    multiset(sorted) == multiset(all) && |sorted| == |all| && Descending(sorted) && merged == sorted[..Min(k, |sorted|)]
  }

  /** Concatenate the lists, sort and cut. */
  method Merge(lists: seq<seq<Neighbor>>, k: nat) returns (merged: seq<Neighbor>)
    ensures IsMerge(Joined(lists), k, merged)
  {
    var all: seq<Neighbor> := [];
    for s := 0 to |lists|
      invariant all == Joined(lists[..s])
    {
      assert lists[..s + 1][..s] == lists[..s];
      all := all + lists[s];
    }
    assert lists[..|lists|] == lists;
    var best := SortDescending(all);
    assert |best| == |multiset(best)| == |multiset(all)| == |all|;
    merged := best[..Min(k, |best|)];
    assert CutOfSorted(all, k, best, merged);
  }

  /** An id is in one of the first `n` lists. */
  ghost predicate InLists(lists: seq<seq<Neighbor>>, n: nat, x: nat)
    requires n <= |lists|
  {
    exists s :: 0 <= s < n && Has(lists[s], x)
  }

  ghost predicate DisjointParts(parts: seq<set<nat>>) {
    forall s, t, x :: 0 <= s < t < |parts| && x in parts[s] ==> x !in parts[t]
  }

  lemma JoinTwo(a: seq<Neighbor>, b: seq<Neighbor>, f: nat -> real)
    requires Distinct(a) && Distinct(b) && Scored(a, f) && Scored(b, f) && forall x :: Has(a, x) ==> !Has(b, x)
    ensures Distinct(a + b) && Scored(a + b, f)
    ensures forall x :: Has(a + b, x) <==> Has(a, x) || Has(b, x)
  {
    var w := a + b;
    forall i, j | 0 <= i < j < |w| ensures w[i].id != w[j].id {
      if i < |a| <= j { assert Has(a, a[i].id) && b[j - |a|] == w[j]; }
    }
    forall x ensures Has(w, x) <==> Has(a, x) || Has(b, x) {
      if Has(a, x) { var i :| 0 <= i < |a| && a[i].id == x; assert w[i].id == x; }
      if Has(b, x) { var i :| 0 <= i < |b| && b[i].id == x; assert w[|a| + i].id == x; }
      if Has(w, x) {
        var i :| 0 <= i < |w| && w[i].id == x;
        assert if i < |a| then a[i].id == x else b[i - |a|].id == x;
      }
    }
  }

  /** Lists over disjoint parts join to a list without repeats. */
  lemma {:induction false} JoinedFacts(lists: seq<seq<Neighbor>>, parts: seq<set<nat>>, f: nat -> real, wide: nat,
                                       n: nat)
    requires n <= |lists| == |parts| && DisjointParts(parts)
    requires forall s :: 0 <= s < |parts| ==> BestOf(parts[s], f, wide, lists[s])
    ensures Distinct(Joined(lists[..n])) && Scored(Joined(lists[..n]), f)
    ensures forall x :: Has(Joined(lists[..n]), x) <==> InLists(lists, n, x)
  {
    if n > 0 {
      JoinedFacts(lists, parts, f, wide, n - 1);
      var a, b := Joined(lists[..n - 1]), lists[n - 1];
      assert lists[..n][..n - 1] == lists[..n - 1];
      assert BestOf(parts[n - 1], f, wide, b);
      forall x | Has(a, x) ensures !Has(b, x) {
        var s :| 0 <= s < n - 1 && Has(lists[s], x);
        assert BestOf(parts[s], f, wide, lists[s]);
        assert x in parts[s];
      }
      JoinTwo(a, b, f);
    }
  }

  /** Merging the exact lists of disjoint parts gives the exact list of their union. */
  lemma MergeIsExact(all: set<nat>, parts: seq<set<nat>>, f: nat -> real, wide: nat, k: nat,
                     lists: seq<seq<Neighbor>>, merged: seq<Neighbor>)
    requires |lists| == |parts| && k <= wide && DisjointParts(parts)
    requires forall x :: x in all <==> exists s :: 0 <= s < |parts| && x in parts[s]
    requires forall s :: 0 <= s < |parts| ==> BestOf(parts[s], f, wide, lists[s])
    requires IsMerge(Joined(lists), k, merged)
    ensures TopList(all, f, k, merged)
  {
    var join := Joined(lists);
    var sorted :| CutOfSorted(join, k, sorted, merged);
    assert lists[..|lists|] == lists;
    JoinedFacts(lists, parts, f, wide, |lists|);
    var kept := IdSet(join);
    IdSetSize(join);
    assert forall x :: x in kept <==> Has(join, x);
    ReorderedBest(kept, f, |join|, join, sorted);
    TopListPrefix(kept, f, |join|, Min(k, |join|), sorted);
    assert TopList(kept, f, k, merged);
    forall x ensures x in kept <==> exists s :: 0 <= s < |parts| && Has(lists[s], x) {
      assert x in kept <==> InLists(lists, |lists|, x);
    }
    MergeTopLists(all, parts, f, wide, k, lists, kept, merged);
  }

  // ------------------------------------------------------ sharded equals unsharded --

  /** The ids base .. base + size - 1. */
  ghost function Interval(base: nat, size: nat): (r: set<nat>)
    ensures forall x: nat :: x in r <==> base <= x < base + size
    ensures |r| == size
  {
    if size == 0 then {} else Interval(base, size - 1) + {base + size - 1}
  }

  /** The score of a local id. */
  function Local(f: nat -> real, base: nat): nat -> real { (x: nat) => f(base + x) }

  /** Local ids made global. */
  ghost function Shifted(local: set<nat>, base: nat): (r: set<nat>)
    ensures forall x: nat :: x in r <==> x >= base && x - base in local
  {
    set x | x in local :: x + base
  }

  lemma {:induction false} ShiftedSize(local: set<nat>, base: nat)
    ensures |Shifted(local, base)| == |local|
  {
    if local == {} {
      assert Shifted(local, base) == {};
    } else {
      var x :| x in local;
      ShiftedSize(local - {x}, base);
      assert Shifted(local, base) == Shifted(local - {x}, base) + {x + base};
    }
  }

  /** Making a shard's ids global keeps its list exact. */
  lemma ShiftBest(f: nat -> real, base: nat, wide: nat, list: seq<Neighbor>, local: set<nat>)
    requires BestOf(local, Local(f, base), wide, list)
    ensures BestOf(Shifted(local, base), f, wide, Shift(list, base))
  {
    ShiftedSize(local, base);
    ShiftedBest(f, base, wide, list, local, Shift(list, base), Shifted(local, base));
  }

  lemma ShiftedBest(f: nat -> real, base: nat, wide: nat, list: seq<Neighbor>, local: set<nat>, w: seq<Neighbor>,
                    global: set<nat>)
    requires BestOf(local, Local(f, base), wide, list) && w == Shift(list, base) && |global| == |local|
    requires forall x: nat :: x in global <==> x >= base && x - base in local
    ensures BestOf(global, f, wide, w)
  {
    forall i | 0 <= i < |w| ensures w[i].id in global && w[i].score == f(w[i].id) {
      assert list[i].id in local;
    }
    forall x, i | x in global && !Has(w, x) && 0 <= i < |w| ensures f(x) <= w[i].score {
      ShiftedOmitted(f, base, wide, list, local, x, i);
    }
  }

  lemma ShiftedOmitted(f: nat -> real, base: nat, wide: nat, list: seq<Neighbor>, local: set<nat>, x: nat, i: nat)
    requires BestOf(local, Local(f, base), wide, list) && x >= base && x - base in local && i < |list|
    requires !Has(Shift(list, base), x)
    ensures f(x) <= list[i].score
  {
    ShiftHas(list, base, x - base);
  }

  lemma ShiftHas(list: seq<Neighbor>, base: nat, y: nat)
    ensures Has(list, y) ==> Has(Shift(list, base), y + base)
  {
    if Has(list, y) {
      var j :| 0 <= j < |list| && list[j].id == y;
      assert Shift(list, base)[j].id == y + base;
    }
  }

  ghost function Slices(items: nat, shards: nat): seq<set<nat>>
    requires shards >= 1 && forall s :: 0 <= s < shards ==> SliceSize(items, shards, s) >= 0
  {
    seq(shards, s requires 0 <= s < shards => Interval(Base(items, shards, s), SliceSize(items, shards, s)))
  }

  /** When the slices fit and every shard returns its exact best rk >= k, the merge is the exact
      global top k. */
  lemma ShardedIsExact(items: nat, shards: nat, f: nat -> real, rk: nat, k: nat, local: seq<seq<Neighbor>>,
                       lists: seq<seq<Neighbor>>, merged: seq<Neighbor>)
    requires shards >= 1 && k <= rk && |local| == |lists| == shards
    requires forall s :: 0 <= s < shards ==> SliceSize(items, shards, s) >= 0
    requires forall s :: 0 <= s < shards ==>
               BestOf(Range(SliceSize(items, shards, s)), Local(f, Base(items, shards, s)), rk, local[s]) &&
               lists[s] == Shift(local[s], Base(items, shards, s))
    requires IsMerge(Joined(lists), k, merged)
    ensures TopList(Range(items), f, k, merged)
  {
    var parts := Slices(items, shards);
    forall s | 0 <= s < shards ensures BestOf(parts[s], f, rk, lists[s]) {
      var base, size := Base(items, shards, s), SliceSize(items, shards, s);
      ShiftBest(f, base, rk, local[s], Range(size));
      assert parts[s] == Shifted(Range(size), base);
    }
    SlicesCover(items, shards, Range(items));
    MergeIsExact(Range(items), parts, f, rk, k, lists, merged);
  }

  lemma SlicesCover(items: nat, shards: nat, all: set<nat>)
    requires shards >= 1
    requires forall s :: 0 <= s < shards ==> SliceSize(items, shards, s) >= 0
    requires forall x: nat :: x in all <==> x < items
    ensures DisjointParts(Slices(items, shards))
    ensures forall x :: x in all <==> exists s :: 0 <= s < |Slices(items, shards)| && x in Slices(items, shards)[s]
  {
    var parts := Slices(items, shards);
    forall s, x: nat | 0 <= s < shards ensures x in parts[s] <==> InSlice(items, shards, s, x) { }
    forall s, t, x | 0 <= s < t < |parts| && x in parts[s] ensures x !in parts[t] {
      SlicesPartition(items, shards, x);
      assert InSlice(items, shards, s, x);
    }
    forall x ensures x in all <==> exists s :: 0 <= s < |parts| && x in parts[s] {
      SlicesPartition(items, shards, x);
      if x in all {
        var s: nat :| s < shards && InSlice(items, shards, s, x);
        assert x in parts[s];
      }
      if s :| 0 <= s < |parts| && x in parts[s] {
        assert InSlice(items, shards, s, x);
      }
    }
  }
}
