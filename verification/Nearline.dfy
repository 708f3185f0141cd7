/** The nearline pipeline: consume events, publish them on an interval, account for both. */
module Nearline {
  import opened FeatureTables
  import opened FeatureSnapshots

  const TWO64 := 0x1_0000_0000_0000_0000

  datatype EventRecord = EventRecord(eventTimeMs: nat, userId: nat, itemId: nat, kind: nat)

  datatype Stats = Stats(consumed: nat, published: nat, publishes: nat, freshness: seq<nat>, watermarkMs: nat)

  /** Unsigned 64-bit difference. */
  function Elapsed(now: nat, last: nat): nat { (now - last) % TWO64 }

  function Ages(clock: nat, times: seq<nat>): seq<nat> {
    if times == [] then [] else
      var front := Ages(clock, times[..|times| - 1]);
      var t := times[|times| - 1];
      if clock >= t then front + [clock - t] else front
  }

  function Latest(from: nat, times: seq<nat>): nat {
    if times == [] then from else
      var front := Latest(from, times[..|times| - 1]);
      if times[|times| - 1] > front then times[|times| - 1] else front
  }

  /** The difference is the time passed, and wraps around when the clock reads less than the last time. */
  lemma ElapsedIs(now: nat, last: nat)
    requires now < 0x1_0000_0000_0000_0000 && last < 0x1_0000_0000_0000_0000
    ensures Elapsed(now, last) == if now >= last then now - last else now - last + 0x1_0000_0000_0000_0000
  {
  }

  /** Ages are charged one by one, in order, each for a stamp that is not in the future. */
  lemma {:induction false} AgesOf(clock: nat, a: seq<nat>, t: nat, b: seq<nat>)
    ensures Ages(clock, a + [t] + b) ==
            Ages(clock, a) + (if t <= clock then [(clock - t) as nat] else []) + Ages(clock, b)
    ensures Ages(clock, []) == []
    decreases |b|
  {
    var all, n := a + [t] + b, |a + [t] + b| - 1;
    if b == [] {
      assert all[..n] == a;
    } else {
      AgesOf(clock, a, t, b[..|b| - 1]);
      assert all[..n] == a + [t] + b[..|b| - 1];
    }
  }

  /** The watermark is the largest of its old value and the stamps. */
  lemma {:induction false} LatestIsMax(from: nat, times: seq<nat>)
    ensures Latest(from, times) >= from && forall t :: t in times ==> Latest(from, times) >= t
    ensures Latest(from, times) == from || Latest(from, times) in times
  {
    if times != [] {
      LatestIsMax(from, times[..|times| - 1]);
      assert times == times[..|times| - 1] + [times[|times| - 1]];
    }
  }

  function StampsOf(ds: seq<Delta>): seq<nat> { seq(|ds|, i requires 0 <= i < |ds| => ds[i].eventMs) }

  function DeltaOf(e: EventRecord): Delta { Delta(e.eventTimeMs, e.userId, e.itemId, e.kind) }

  function DeltasOf(batch: seq<EventRecord>): seq<Delta> {
    seq(|batch|, i requires 0 <= i < |batch| => DeltaOf(batch[i]))
  }

  class NearlinePipeline {
    const store: FeatureSnapshotStore
    const interval: nat
    var lastPublishMs: nat
    var stagedTimes: seq<nat>
    var stats: Stats
    ghost var base: nat  // what the store had staged before the pipeline was attached

    /** Everything consumed is either published or still pending, in the store and in the
        time list alike, and every publish was counted. */
    ghost predicate Valid() reads this, store {
      && store.Valid()
      && base <= |store.w.staged| && |store.w.pending| <= |store.w.staged| - base
      && stats.consumed == |store.w.staged| - base
      && stats.consumed == stats.published + |store.w.pending|
      && stats.publishes <= store.w.publishes
      && stagedTimes == StampsOf(store.w.pending)
    }

    constructor (store: FeatureSnapshotStore, interval: nat)
      requires store.Valid() && store.w.pending == []
      ensures Valid() && this.store == store && this.interval == interval
      ensures stats == Stats(0, 0, 0, [], 0) && lastPublishMs == 0
    {
      this.store, this.interval := store, interval;
      lastPublishMs, stagedTimes, stats := 0, [], Stats(0, 0, 0, [], 0);
      base := |store.w.staged|;
    }

    method Stage(e: EventRecord, ts: nat)
      requires Valid()
      modifies this, store`w
      ensures Valid() && lastPublishMs == old(lastPublishMs) && base == old(base)
      ensures stats == old(stats).(consumed := old(stats.consumed) + 1)
      ensures store.w.staged == old(store.w.staged) + [Delta(ts, e.userId, e.itemId, e.kind)]
      ensures store.w == old(store.w).(staged := store.w.staged, pending := store.w.pending)
    {
      store.Stage(Delta(ts, e.userId, e.itemId, e.kind));
      stagedTimes := stagedTimes + [ts];
      stats := stats.(consumed := stats.consumed + 1);
    }

    /** Charge the age of every staged event at the instant it becomes visible. */
    method Charge(clock: nat)
      modifies this`stats
      ensures stats == old(stats).(freshness := old(stats.freshness) + Ages(clock, stagedTimes),
                                   watermarkMs := Latest(old(stats.watermarkMs), stagedTimes))
    {
      for i := 0 to |stagedTimes|
        invariant stats == old(stats).(freshness := old(stats.freshness) + Ages(clock, stagedTimes[..i]),
                                       watermarkMs := Latest(old(stats.watermarkMs), stagedTimes[..i]))
      {
        var ts := stagedTimes[i];
        assert stagedTimes[..i + 1][..i] == stagedTimes[..i];
        if clock >= ts { stats := stats.(freshness := stats.freshness + [clock - ts]); }
        stats := stats.(watermarkMs := if ts > stats.watermarkMs then ts else stats.watermarkMs);
      }
      assert stagedTimes[..|stagedTimes|] == stagedTimes;
    }

    /** The readers of the table that a publish would retire let go of it in the end. */
    ghost predicate ReadersLeave(readers: nat -> seq<Slot>, quiet: nat) reads store {
      Settles(readers, |store.slots|, store.w.live, quiet)
    }

    /** Everything pending becomes visible at `clock`; its age is charged at that instant. */
    method DoPublish(clock: nat, readers: nat -> seq<Slot>, ghost quiet: nat)
      requires Valid() && store.w.pending != [] && ReadersLeave(readers, quiet)
      modifies this, store
      ensures Valid() && base == old(base) && lastPublishMs == clock
      ensures store.w.pending == [] && store.w.staged == old(store.w.staged)
      ensures store.w.tables.Get(store.w.live).log == store.w.staged
      ensures store.w.publishes == old(store.w.publishes) + 1
      ensures stats == Stats(old(stats.consumed), old(stats.consumed), old(stats.publishes) + 1,
                             old(stats.freshness) + Ages(clock, StampsOf(old(store.w.pending))),
                             Latest(old(stats.watermarkMs), StampsOf(old(store.w.pending))))
    {
      var n := store.Publish(readers, quiet);
      Account(n, clock);
    }

    /** Account for one publish of `n` deltas. */
    method Account(n: nat, clock: nat)
      modifies this
      ensures stats == Stats(old(stats.consumed), old(stats.published) + n, old(stats.publishes) + 1,
                             old(stats.freshness) + Ages(clock, old(stagedTimes)),
                             Latest(old(stats.watermarkMs), old(stagedTimes)))
      ensures stagedTimes == [] && lastPublishMs == clock && base == old(base)
    {
      Charge(clock);
      stagedTimes := [];
      stats := stats.(published := stats.published + n, publishes := stats.publishes + 1);
      lastPublishMs := clock;
    }

    /** Publish exactly when something is pending and the interval has elapsed since the
        last publish, counting from the first call. */
    method PublishIfDue(clock: nat, readers: nat -> seq<Slot>, ghost quiet: nat) returns (due: bool)
      requires Valid() && ReadersLeave(readers, quiet)
      modifies this, store
      ensures Valid() && base == old(base) && stats.consumed == old(stats.consumed)
      ensures due <==> old(store.w.pending) != [] &&
                       Elapsed(clock, if old(lastPublishMs) == 0 then clock else old(lastPublishMs)) >= interval
      ensures due ==> stats.published == stats.consumed && stats.publishes == old(stats.publishes) + 1
                      && lastPublishMs == clock && store.w.pending == []
      ensures store.w.staged == old(store.w.staged)
      ensures !due ==> stats == old(stats) && store.w == old(store.w)
                       && lastPublishMs == if old(lastPublishMs) == 0 then clock else old(lastPublishMs)
    {
      if lastPublishMs == 0 { lastPublishMs := clock; }
      if Elapsed(clock, lastPublishMs) < interval || |store.w.pending| == 0 { return false; }
      DoPublish(clock, readers, quiet);
      due := true;
    }

    /** After a flush nothing is pending: everything consumed has been published. */
    method Flush(clock: nat, readers: nat -> seq<Slot>, ghost quiet: nat)
      requires Valid() && ReadersLeave(readers, quiet)
      modifies this, store
      ensures Valid() && base == old(base) && stats.consumed == old(stats.consumed)
      ensures store.w.pending == [] && stats.published == stats.consumed
      ensures stats.publishes == old(stats.publishes) + (if old(store.w.pending) == [] then 0 else 1)
    {
      if |store.w.pending| > 0 { DoPublish(clock, readers, quiet); }
    }

    method StageAll(batch: seq<EventRecord>)
      requires Valid()
      modifies this, store`w
      ensures Valid() && base == old(base) && lastPublishMs == old(lastPublishMs)
      ensures store.w == old(store.w).(staged := old(store.w.staged) + DeltasOf(batch), pending := store.w.pending)
      ensures stats == old(stats).(consumed := old(stats.consumed) + |batch|)
      ensures store.w.pending == [] <==> old(store.w.pending) == [] && batch == []
    {
      for i := 0 to |batch|
        invariant Valid() && base == old(base) && lastPublishMs == old(lastPublishMs)
        invariant store.w == old(store.w).(staged := old(store.w.staged) + DeltasOf(batch)[..i],
                                           pending := store.w.pending)
        invariant stats == old(stats).(consumed := old(stats.consumed) + i)
        invariant |store.w.pending| == |old(store.w.pending)| + i
      {
        Stage(batch[i], batch[i].eventTimeMs);
        assert DeltasOf(batch)[..i + 1] == DeltasOf(batch)[..i] + [DeltaOf(batch[i])];
      }
      assert DeltasOf(batch)[..|batch|] == DeltasOf(batch);
    }

    /** Stage one batch from the source, then publish if due: the interval decides whether everything
        consumed so far, this batch included, becomes visible now. */
    method PollAndPublish(clock: nat, batch: seq<EventRecord>, readers: nat -> seq<Slot>, ghost quiet: nat)
      returns (n: nat)
      requires Valid() && ReadersLeave(readers, quiet)
      modifies this, store
      ensures Valid() && base == old(base) && n == |batch|
      ensures store.w.staged == old(store.w.staged) + DeltasOf(batch)
      ensures stats.consumed == old(stats.consumed) + |batch|
      ensures var due := (old(store.w.pending) != [] || batch != []) &&
                         Elapsed(clock, if old(lastPublishMs) == 0 then clock else old(lastPublishMs)) >= interval;
              && stats.published == (if due then stats.consumed else old(stats.published))
              && stats.publishes == old(stats.publishes) + (if due then 1 else 0)
    {
      StageAll(batch);
      var _ := PublishIfDue(clock, readers, quiet);
      n := |batch|;
    }
  }
}
