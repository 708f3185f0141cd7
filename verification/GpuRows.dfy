/** The requests of a batch and the rows the GPU scorer returns for them. */
module GpuRows {
  import opened Basics
  import opened Neighbors

  const MAX_K: nat := 512

  datatype Request = Request(user: nat, k: nat, retrieveK: nat, timeoutUs: nat)

  /** A job carries its promise; `id` is the number of its submission. */
  datatype Job = Job(id: nat, request: Request, submitted: int)

  /** How many candidates a request asks for. */
  function Want(r: Request): nat {
    if r.k >= r.retrieveK then r.k else r.retrieveK
  }

  /** The row width of a batch: the widest request, at least one, at most the catalogue. */
  function Width(batch: seq<Job>, n: nat): nat {
    Min(Widest(batch), n)
  }

  function Widest(batch: seq<Job>): nat {
    if batch == [] then 1 else Max(Widest(batch[..|batch| - 1]), Want(batch[|batch| - 1].request))
  }

  lemma {:induction false} WidestCovers(batch: seq<Job>, i: nat)
    requires i < |batch|
    ensures Want(batch[i].request) <= Widest(batch)
  {
    if i < |batch| - 1 { WidestCovers(batch[..|batch| - 1], i); }
  }

  lemma {:induction false} WidestBound(batch: seq<Job>)
    requires forall i :: 0 <= i < |batch| ==> Want(batch[i].request) <= MAX_K
    ensures 1 <= Widest(batch) <= MAX_K
  {
    if batch != [] { WidestBound(batch[..|batch| - 1]); }
  }

  /** Where row `i` of the scorer's output starts. */
  function RowStart(i: nat, k: nat): nat { i * k }

  /** One row is the exact, sorted top k of the catalogue `ids` for the request's own query. */
  ghost predicate RowExact(output: seq<Neighbor>, at: nat, f: nat -> real, ids: set<nat>, k: nat) {
    at + k <= |output| && TopList(ids, f, k, output[at..at + k])
  }

  /** The scorer's promise. */
  ghost predicate RowsExact(output: seq<Neighbor>, batch: seq<Job>, scores: nat -> nat -> real, ids: set<nat>, k: nat) {
    forall i :: 0 <= i < |batch| ==> RowExact(output, RowStart(i, k), scores(batch[i].request.user), ids, k)
  }

  /** The candidates cut out of row `i` for a request that wants `want`. */
  function CutAt(output: seq<Neighbor>, i: nat, k: nat, want: nat): seq<Neighbor> {
    if RowStart(i, k) + Min(k, want) <= |output| then output[RowStart(i, k)..RowStart(i, k) + Min(k, want)] else []
  }

  /** The row width the worker computes. */
  method WidthOf(batch: seq<Job>, n: nat) returns (k: nat)
    ensures k == Width(batch, n)
  {
    k := 1;
    for i := 0 to |batch|
      invariant k == Widest(batch[..i])
    {
      assert batch[..i + 1][..i] == batch[..i];
      k := Max(k, Max(batch[i].request.k, batch[i].request.retrieveK));
    }
    assert batch[..|batch|] == batch;
    k := Min(k, n);
  }

  /** The output buffer has room for every row of every legal batch. */
  lemma RowsFit(maxBatch: nat, size: nat, i: nat, k: nat, room: nat)
    requires i < size <= maxBatch && k <= MAX_K && room == maxBatch * MAX_K
    ensures RowStart(i, k) + k <= room
  {
    assert i * k + k == (i + 1) * k;
    assert (i + 1) * k <= (i + 1) * MAX_K <= maxBatch * MAX_K;
  }

  /** Whatever else is in the batch, the cut is the exact top list of the request's own query for
      its own size. `ids` is the catalogue. */
  lemma CutIsExact(output: seq<Neighbor>, batch: seq<Job>, scores: nat -> nat -> real, ids: set<nat>, k: nat, i: nat)
    requires i < |batch| && k == Width(batch, |ids|) && RowsExact(output, batch, scores, ids, k)
    ensures RowStart(i, k) + Min(k, Want(batch[i].request)) <= |output|
    ensures TopList(ids, scores(batch[i].request.user), Want(batch[i].request),
                    CutAt(output, i, k, Want(batch[i].request)))
  {
    var want := Want(batch[i].request);
    WidestCovers(batch, i);
    assert RowExact(output, RowStart(i, k), scores(batch[i].request.user), ids, k);
    RowCut(output, RowStart(i, k), k, want, ids, scores(batch[i].request.user), CutAt(output, i, k, want));
  }

  /** Cut the candidates of one request out of its row. */
  method CutRow(output: seq<Neighbor>, batch: seq<Job>, ghost scores: nat -> nat -> real, ghost ids: set<nat>,
                k: nat, i: nat)
    returns (candidates: seq<Neighbor>)
    requires i < |batch| && k == Width(batch, |ids|) && RowsExact(output, batch, scores, ids, k)
    ensures candidates == CutAt(output, i, k, Want(batch[i].request))
    ensures TopList(ids, scores(batch[i].request.user), Want(batch[i].request), candidates)
  {
    CutIsExact(output, batch, scores, ids, k, i);
    var want := Max(batch[i].request.k, batch[i].request.retrieveK);
    candidates := CopyFrom(output, RowStart(i, k), Min(k, want));
  }

  lemma RowCut(output: seq<Neighbor>, at: nat, k: nat, want: nat, ids: set<nat>, f: nat -> real, cut: seq<Neighbor>)
    requires RowExact(output, at, f, ids, k) && Min(want, |ids|) <= k <= |ids| && cut == output[at..at + Min(k, want)]
    ensures TopList(ids, f, want, cut)
  {
    var row := output[at..at + k];
    assert cut == row[..Min(k, want)];
    TopListPrefix(ids, f, k, Min(k, want), row);
  }

  method CopyFrom(output: seq<Neighbor>, at: nat, count: nat) returns (copy: seq<Neighbor>)
    requires at + count <= |output|
    ensures copy == output[at..at + count]
  {
    copy := [];
    for j := 0 to count
      invariant copy == output[at..at + j]
    {
      copy := copy + [output[at + j]];
    }
  }
}
