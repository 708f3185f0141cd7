/** The lock-free feature snapshot: two tables, a live pointer, and one hazard slot per guard.

    Every step below is one atomic access by one participant. Any number of guards run
    against one writer, and any number of slots exist. A table is carried as the deltas
    applied to it; `Rows` gives the rows those deltas leave. `staged`, `bounds` and the
    fields `seen` and `stamp` of a reading guard are history: no step tests them. */
module FeatureSnapshots {
  import opened FeatureTables

  datatype Side = A | B

  function Other(t: Side): Side { if t == A then B else A }

  datatype Copy = Copy(log: seq<Delta>, generation: nat)

  datatype Copies = Copies(a: Copy, b: Copy) {
    function Get(t: Side): Copy { if t == A then a else b }

    function Put(t: Side, x: Copy): Copies { if t == A then this.(a := x) else this.(b := x) }
  }

  /** The ingest thread. `front` is the table that was live when the publish began and
      `stamp` the generation being published. */
  datatype Phase =
    | Resting
    | FillingBack(front: Side, done: nat)
    | StoringGen(front: Side, stamp: nat)
    | Flipping(front: Side, stamp: nat)
    | Scanning(front: Side, stamp: nat, next: nat)
    | FillingFront(front: Side, stamp: nat, done: nat)
    | Finishing(front: Side)

  datatype Writer = Writer(
    tables: Copies, live: Side, back: Side, gen: nat, pending: seq<Delta>, publishes: nat, phase: Phase,
    staged: seq<Delta>, bounds: seq<nat>)

  datatype HazardPtr = Null | To(table: Side)

  datatype Slot = Slot(hazard: HazardPtr, claimed: bool)

  /** One guard. It claims a slot by trying them in order, then loops load / store hazard /
      recheck until the pointer it published is still the live one. */
  datatype Reader =
    | Outside
    | Probing(next: nat)
    | Refused
    | Claimed(slot: nat)
    | Loaded(slot: nat, table: Side)
    | Stored(slot: nat, table: Side)
    | Reading(slot: nat, table: Side, seen: nat, stamp: nat)
    | Leaving(slot: nat)

  datatype State = State(w: Writer, slots: seq<Slot>, readers: seq<Reader>)

  datatype WriterStep =
    | Stage(d: Delta)
    | BeginPublish | ApplyBack | StampBack | StoreGen | Flip | ScanSlot | ApplyFront | StampFront | EndPublish

  datatype ReaderStep =
    | Enter | TryClaim | Load | StoreHazard | Recheck | ClearHazard | Unclaim

  datatype Action = Write(step: WriterStep) | Read(r: nat, act: ReaderStep)

  function FreshWriter(): Writer {
    Writer(Copies(Copy([], 1), Copy([], 0)), A, B, 1, [], 0, Resting, [], [0])
  }

  /** The rows a table holds. */
  function Rows(nItems: nat, nUsers: nat, c: Copy): Table {
    Fold(Fresh(nItems, nUsers), c.log)
  }

  // ------------------------------------------------------------- the steps --

  predicate WriterEnabled(w: Writer, slots: seq<Slot>, a: WriterStep) {
    match a
    case Stage(_) => w.phase.Resting?
    case BeginPublish => w.phase.Resting? && w.pending != []
    case ApplyBack => w.phase.FillingBack? && w.phase.done < |w.pending|
    case StampBack => w.phase.FillingBack? && w.phase.done == |w.pending|
    case StoreGen => w.phase.StoringGen?
    case Flip => w.phase.Flipping?
    case ScanSlot => w.phase.Scanning? && w.phase.next <= |slots|
    case ApplyFront => w.phase.FillingFront? && w.phase.done < |w.pending|
    case StampFront => w.phase.FillingFront? && w.phase.done == |w.pending|
    case EndPublish => w.phase.Finishing?
  }

  function Applied(c: Copy, d: Delta): Copy { c.(log := c.log + [d]) }

  function WriterMove(w: Writer, slots: seq<Slot>, a: WriterStep): Writer
    requires WriterEnabled(w, slots, a)
  {
    match a
    case Stage(d) => w.(pending := w.pending + [d], staged := w.staged + [d])
    case BeginPublish => w.(phase := FillingBack(w.live, 0))
    case ApplyBack =>
      var FillingBack(front, done) := w.phase;
      w.(tables := w.tables.Put(w.back, Applied(w.tables.Get(w.back), w.pending[done])),
         phase := FillingBack(front, done + 1))
    case StampBack =>
      var stamp := w.tables.Get(w.phase.front).generation + 1;
      w.(tables := w.tables.Put(w.back, w.tables.Get(w.back).(generation := stamp)),
         phase := StoringGen(w.phase.front, stamp))
    case StoreGen => w.(gen := w.phase.stamp, phase := Flipping(w.phase.front, w.phase.stamp))
    case Flip =>
      w.(live := w.back, phase := Scanning(w.phase.front, w.phase.stamp, 0), bounds := w.bounds + [|w.staged|])
    case ScanSlot =>
      // One pass over the slots; a busy slot sends the scan back to the first one.
      var Scanning(front, stamp, next) := w.phase;
      w.(phase := if next == |slots| then FillingFront(front, stamp, 0)
                  else if slots[next].hazard == To(front) then Scanning(front, stamp, 0)
                  else Scanning(front, stamp, next + 1))
    case ApplyFront =>
      var FillingFront(front, stamp, done) := w.phase;
      w.(tables := w.tables.Put(front, Applied(w.tables.Get(front), w.pending[done])),
         phase := FillingFront(front, stamp, done + 1))
    case StampFront =>
      var front := w.phase.front;
      w.(tables := w.tables.Put(front, w.tables.Get(front).(generation := w.phase.stamp)), phase := Finishing(front))
    case EndPublish => w.(back := w.phase.front, pending := [], publishes := w.publishes + 1, phase := Resting)
  }

  predicate ReaderEnabled(slots: seq<Slot>, x: Reader, a: ReaderStep) {
    match a
    case Enter => x.Outside?
    case TryClaim => x.Probing? && x.next <= |slots|
    case Load => x.Claimed?
    case StoreHazard => x.Loaded? && x.slot < |slots|
    case Recheck => x.Stored?
    case ClearHazard => x.Reading? && x.slot < |slots|
    case Unclaim => x.Leaving? && x.slot < |slots|
  }

  function ReaderMove(w: Writer, slots: seq<Slot>, x: Reader, a: ReaderStep): (Reader, seq<Slot>)
    requires ReaderEnabled(slots, x, a)
  {
    match a
    case Enter => (Probing(0), slots)
    case TryClaim =>
      var i := x.next;
      if i == |slots| then (Refused, slots)
      else if slots[i].claimed then (Probing(i + 1), slots)
      else (Claimed(i), slots[i := slots[i].(claimed := true)])
    case Load => (Loaded(x.slot, w.live), slots)
    case StoreHazard => (Stored(x.slot, x.table), slots[x.slot := slots[x.slot].(hazard := To(x.table))])
    case Recheck =>
      if x.table == w.live
      then (Reading(x.slot, x.table, Published(w), w.tables.Get(x.table).generation), slots)
      else (Claimed(x.slot), slots)
    case ClearHazard => (Leaving(x.slot), slots[x.slot := slots[x.slot].(hazard := Null)])
    case Unclaim => (Outside, slots[x.slot := slots[x.slot].(claimed := false)])
  }

  predicate Enabled(s: State, a: Action) {
    match a
    case Write(step) => WriterEnabled(s.w, s.slots, step)
    case Read(r, act) => r < |s.readers| && ReaderEnabled(s.slots, s.readers[r], act)
  }

  function Step(s: State, a: Action): State
    requires Enabled(s, a)
  {
    match a
    case Write(step) => s.(w := WriterMove(s.w, s.slots, step))
    case Read(r, act) =>
      var (x, slots) := ReaderMove(s.w, s.slots, s.readers[r], act);
      s.(slots := slots, readers := s.readers[r := x])
  }

  /** How many staged deltas the last flip made visible. */
  function Published(w: Writer): nat {
    if w.bounds == [] then 0 else w.bounds[|w.bounds| - 1]
  }

  // ------------------------------------------------- what the writer keeps --

  predicate BeforeFlip(p: Phase) {
    p.Resting? || p.FillingBack? || p.StoringGen? || p.Flipping?
  }

  /** How many staged deltas the table that is not live has absorbed. */
  function Absorbed(w: Writer): int {
    match w.phase
    case Resting => Published(w)
    case FillingBack(_, d) => Published(w) + d
    case StoringGen(_, _) => |w.staged|
    case Flipping(_, _) => |w.staged|
    case Scanning(_, _, _) => |w.staged| - |w.pending|
    case FillingFront(_, _, d) => |w.staged| - |w.pending| + d
    case Finishing(_) => |w.staged|
  }

  ghost predicate Rising(bounds: seq<nat>) {
    forall i, j :: 0 <= i <= j < |bounds| ==> bounds[i] <= bounds[j]
  }

  ghost predicate IsTail(pending: seq<Delta>, staged: seq<Delta>) {
    |pending| <= |staged| && pending == staged[|staged| - |pending|..]
  }

  ghost predicate BoundsOk(w: Writer) {
    && w.bounds != [] && w.bounds[0] == 0 && Rising(w.bounds) && IsTail(w.pending, w.staged)
    && |w.bounds| == w.publishes + (if BeforeFlip(w.phase) then 1 else 2)
    && (if BeforeFlip(w.phase) then Published(w) == |w.staged| - |w.pending|
        else Published(w) == |w.staged| && w.bounds[|w.bounds| - 2] == |w.staged| - |w.pending|)
  }

  ghost predicate PhaseOk(w: Writer, slots: nat) {
    && (!w.phase.Resting? ==> w.phase.front == if BeforeFlip(w.phase) then w.live else Other(w.live))
    && w.back == (if BeforeFlip(w.phase) then Other(w.live) else w.live)
    && (w.phase.FillingBack? || w.phase.FillingFront? ==> w.phase.done <= |w.pending|)
    && (w.phase.Scanning? ==> w.phase.next <= slots)
    && w.gen == |w.bounds| + (if w.phase.Flipping? then 1 else 0)
    && w.tables.Get(w.live).generation == |w.bounds|
    && (w.phase.StoringGen? || w.phase.Flipping? ==>
          w.phase.stamp == |w.bounds| + 1 == w.tables.Get(w.back).generation)
    && (w.phase.Scanning? || w.phase.FillingFront? ==>
          w.phase.stamp == |w.bounds| && w.tables.Get(w.phase.front).generation == |w.bounds| - 1)
    && (w.phase.Finishing? ==> w.tables.Get(w.phase.front).generation == |w.bounds|)
    && (w.phase.Resting? && w.publishes > 0 ==> w.tables.Get(w.back).generation == |w.bounds|)
  }

  ghost predicate LogsOk(w: Writer) {
    && Published(w) <= |w.staged| && w.tables.Get(w.live).log == w.staged[..Published(w)]
    && 0 <= Absorbed(w) <= |w.staged| && w.tables.Get(Other(w.live)).log == w.staged[..Absorbed(w)]
  }

  ghost predicate WriterOk(w: Writer, slots: nat) {
    BoundsOk(w) && PhaseOk(w, slots) && LogsOk(w)
  }

  lemma RisingMore(bounds: seq<nat>, x: nat)
    requires Rising(bounds) && (bounds != [] ==> bounds[|bounds| - 1] <= x)
    ensures Rising(bounds + [x])
  {
    var more := bounds + [x];
    forall i, j | 0 <= i <= j < |more| ensures more[i] <= more[j] {
      if j == |bounds| && i < j { assert bounds[i] <= bounds[|bounds| - 1]; }
    }
  }

  lemma TailMore(pending: seq<Delta>, staged: seq<Delta>, d: Delta)
    requires IsTail(pending, staged)
    ensures IsTail(pending + [d], staged + [d])
  {
    var at := |staged| - |pending|;
    assert (staged + [d])[at..] == staged[at..] + [d];
  }

  lemma NoTail(staged: seq<Delta>)
    ensures IsTail([], staged)
  {
    assert staged[|staged|..] == [];
  }

  lemma BoundsKept(w: Writer, slots: seq<Slot>, a: WriterStep)
    requires WriterOk(w, |slots|) && WriterEnabled(w, slots, a)
    ensures BoundsOk(WriterMove(w, slots, a))
  {
    match a
    case Stage(d) => BoundsStaged(w, slots, d, WriterMove(w, slots, a));
    case Flip => BoundsFlipped(w, slots, WriterMove(w, slots, a));
    case EndPublish => BoundsEnded(w, slots, WriterMove(w, slots, a));
    case _ => SameBounds(w, slots, a, WriterMove(w, slots, a));
  }

  lemma BoundsStaged(w: Writer, slots: seq<Slot>, d: Delta, v: Writer)
    requires BoundsOk(w) && WriterEnabled(w, slots, WriterStep.Stage(d))
    requires v == WriterMove(w, slots, WriterStep.Stage(d))
    ensures BoundsOk(v)
  {
    TailMore(w.pending, w.staged, d);
  }

  lemma BoundsFlipped(w: Writer, slots: seq<Slot>, v: Writer)
    requires BoundsOk(w) && WriterEnabled(w, slots, Flip) && v == WriterMove(w, slots, Flip)
    ensures BoundsOk(v)
  {
    RisingMore(w.bounds, |w.staged|);
  }

  lemma BoundsEnded(w: Writer, slots: seq<Slot>, v: Writer)
    requires BoundsOk(w) && WriterEnabled(w, slots, EndPublish) && v == WriterMove(w, slots, EndPublish)
    ensures BoundsOk(v)
  {
    NoTail(w.staged);
  }

  /** The other steps change no boundary and neither delta list. */
  lemma SameBounds(w: Writer, slots: seq<Slot>, a: WriterStep, v: Writer)
    requires WriterEnabled(w, slots, a) && !a.Stage? && !a.Flip? && !a.EndPublish? && v == WriterMove(w, slots, a)
    ensures v.bounds == w.bounds && v.staged == w.staged && v.pending == w.pending && v.publishes == w.publishes
    ensures BeforeFlip(v.phase) == BeforeFlip(w.phase)
  {
  }

  lemma PhaseKept(w: Writer, slots: seq<Slot>, a: WriterStep)
    requires WriterOk(w, |slots|) && WriterEnabled(w, slots, a)
    ensures PhaseOk(WriterMove(w, slots, a), |slots|)
  {
    match a
    case Stage(d) =>
    case BeginPublish =>
    case ApplyBack =>
    case StampBack =>
    case StoreGen =>
    case Flip =>
    case ScanSlot =>
    case ApplyFront =>
    case StampFront =>
    case EndPublish =>
  }

  /** The next delta to apply is the next staged one. */
  lemma NextStaged(w: Writer, done: nat)
    requires IsTail(w.pending, w.staged) && done < |w.pending|
    ensures var at := |w.staged| - |w.pending| + done; w.staged[..at] + [w.pending[done]] == w.staged[..at + 1]
  {
  }

  lemma StagedLater(w: Writer, d: Delta, n: nat)
    requires n <= |w.staged|
    ensures (w.staged + [d])[..n] == w.staged[..n]
  {
  }

  lemma LogsKeptByStage(w: Writer, slots: seq<Slot>, d: Delta)
    requires WriterOk(w, |slots|) && w.phase.Resting?
    ensures LogsOk(WriterMove(w, slots, WriterStep.Stage(d)))
  {
    StagedLater(w, d, Published(w));
    StagedLater(w, d, Absorbed(w));
  }

  lemma LogsKeptByApply(w: Writer, slots: seq<Slot>, a: WriterStep)
    requires WriterOk(w, |slots|) && WriterEnabled(w, slots, a) && (a.ApplyBack? || a.ApplyFront?)
    ensures LogsOk(WriterMove(w, slots, a))
  {
    NextStaged(w, w.phase.done);
  }

  lemma LogsKept(w: Writer, slots: seq<Slot>, a: WriterStep)
    requires WriterOk(w, |slots|) && WriterEnabled(w, slots, a)
    ensures LogsOk(WriterMove(w, slots, a))
  {
    match a
    case Stage(d) => LogsKeptByStage(w, slots, d);
    case ApplyBack => LogsKeptByApply(w, slots, a);
    case ApplyFront => LogsKeptByApply(w, slots, a);
    case BeginPublish =>
    case StampBack =>
    case StoreGen =>
    case Flip =>
    case ScanSlot =>
    case StampFront =>
    case EndPublish =>
  }

  lemma WriterKeeps(w: Writer, slots: seq<Slot>, a: WriterStep, v: Writer)
    requires WriterOk(w, |slots|) && WriterEnabled(w, slots, a) && v == WriterMove(w, slots, a)
    ensures WriterOk(v, |slots|)
  {
    BoundsKept(w, slots, a);
    PhaseKept(w, slots, a);
    LogsKept(w, slots, a);
  }

  // ------------------------------------------------- what the guards keep --

  predicate Owns(x: Reader, i: nat) {
    (x.Claimed? || x.Loaded? || x.Stored? || x.Reading? || x.Leaving?) && x.slot == i
  }

  ghost predicate ReaderOk(slots: seq<Slot>, x: Reader) {
    match x
    case Outside => true
    case Refused => true
    case Probing(n) => n <= |slots|
    case Claimed(i) => i < |slots| && slots[i].claimed
    case Loaded(i, _) => i < |slots| && slots[i].claimed
    case Stored(i, t) => i < |slots| && slots[i] == Slot(To(t), true)
    case Reading(i, t, _, _) => i < |slots| && slots[i] == Slot(To(t), true)
    case Leaving(i) => i < |slots| && slots[i] == Slot(Null, true)
  }

  ghost predicate Exclusive(readers: seq<Reader>) {
    forall r, q, i: nat :: 0 <= r < q < |readers| && Owns(readers[r], i) ==> !Owns(readers[q], i)
  }

  /** Every claimed slot belongs to some guard, and an unclaimed one is empty. */
  ghost predicate SlotOk(readers: seq<Reader>, slots: seq<Slot>, i: nat)
    requires i < |slots|
  {
    if slots[i].claimed then exists r :: 0 <= r < |readers| && Owns(readers[r], i) else slots[i].hazard == Null
  }

  ghost predicate OwnersOk(s: State) {
    && (forall r :: 0 <= r < |s.readers| ==> ReaderOk(s.slots, s.readers[r]))
    && Exclusive(s.readers)
    && (forall i :: 0 <= i < |s.slots| ==> SlotOk(s.readers, s.slots, i))
  }

  /** What one step of guard `r` may touch: itself, and a slot it owns before or after. */
  ghost predicate OwnStep(s: State, t: State, r: nat) {
    && r < |s.readers| == |t.readers| && |s.slots| == |t.slots|
    && (forall q :: 0 <= q < |s.readers| && q != r ==> t.readers[q] == s.readers[q])
    && ReaderOk(s.slots, s.readers[r]) && ReaderOk(t.slots, t.readers[r])
    && (forall i :: 0 <= i < |s.slots| && t.slots[i] != s.slots[i] ==> Owns(s.readers[r], i) || Owns(t.readers[r], i))
    // A slot is taken only while free, and given up only when empty.
    && (forall i: nat :: Owns(t.readers[r], i) && !Owns(s.readers[r], i) ==> i < |s.slots| && !s.slots[i].claimed)
    && (forall i :: 0 <= i < |s.slots| && t.slots[i].claimed && !s.slots[i].claimed ==> Owns(t.readers[r], i))
    && (forall i :: 0 <= i < |s.slots| && Owns(s.readers[r], i) && !Owns(t.readers[r], i) ==>
          t.slots[i] == Slot(Null, false))
  }

  lemma StepIsOwn(s: State, r: nat, act: ReaderStep)
    requires OwnersOk(s) && Enabled(s, Read(r, act))
    ensures OwnStep(s, Step(s, Read(r, act)), r)
  {
    assert ReaderOk(s.slots, s.readers[r]);
  }

  lemma OthersOk(s: State, t: State, r: nat, q: nat)
    requires OwnersOk(s) && OwnStep(s, t, r) && q < |s.readers| && q != r
    ensures ReaderOk(t.slots, t.readers[q])
    ensures forall i: nat :: Owns(t.readers[r], i) ==> !Owns(t.readers[q], i)
  {
    assert ReaderOk(s.slots, s.readers[q]);
    forall i: nat | Owns(s.readers[q], i)
      ensures !Owns(s.readers[r], i) && !Owns(t.readers[r], i) && t.slots[i] == s.slots[i] { }
  }

  lemma SlotKept(s: State, t: State, r: nat, i: nat)
    requires OwnersOk(s) && OwnStep(s, t, r) && i < |s.slots|
    ensures SlotOk(t.readers, t.slots, i)
  {
    assert SlotOk(s.readers, s.slots, i);
    if t.slots[i].claimed {
      if s.slots[i].claimed {
        var q :| 0 <= q < |s.readers| && Owns(s.readers[q], i);
        assert Owns(t.readers[q], i);
      } else {
        assert Owns(t.readers[r], i);
      }
    }
  }

  lemma OwnersKept(s: State, r: nat, act: ReaderStep)
    requires OwnersOk(s) && Enabled(s, Read(r, act))
    ensures OwnersOk(Step(s, Read(r, act)))
  {
    var t := Step(s, Read(r, act));
    StepIsOwn(s, r, act);
    forall q | 0 <= q < |t.readers| && q != r
      ensures ReaderOk(t.slots, t.readers[q]) && forall i: nat :: Owns(t.readers[r], i) ==> !Owns(t.readers[q], i)
    {
      OthersOk(s, t, r, q);
    }
    forall i | 0 <= i < |t.slots| ensures SlotOk(t.readers, t.slots, i) { SlotKept(s, t, r, i); }
  }

  /** Slots below this one cannot hold a guard that validated the table that is not live. */
  function Swept(w: Writer, slots: nat): nat {
    if w.phase.Scanning? then w.phase.next else slots
  }

  ghost predicate GuardOk(w: Writer, slots: nat, x: Reader) {
    x.Reading? ==>
      && (x.table == Other(w.live) ==> x.slot >= Swept(w, slots))
      && x.stamp == w.tables.Get(x.table).generation
      && 1 <= x.stamp <= |w.bounds| && x.seen == w.bounds[x.stamp - 1] <= |w.staged|
      && w.tables.Get(x.table).log == w.staged[..x.seen]
  }

  ghost predicate GuardsOk(s: State) {
    forall r :: 0 <= r < |s.readers| ==> GuardOk(s.w, |s.slots|, s.readers[r])
  }

  /** The table whose contents a step writes, if any. */
  function Written(w: Writer, a: WriterStep): HazardPtr {
    match a
    case ApplyBack => To(w.back)
    case StampBack => To(w.back)
    case ApplyFront => if w.phase.FillingFront? then To(w.phase.front) else Null
    case StampFront => if w.phase.FillingFront? then To(w.phase.front) else Null
    case _ => Null
  }

  /** Steps that do not write a table leave its contents alone. */
  lemma OnlyWrittenChanges(w: Writer, slots: seq<Slot>, a: WriterStep, t: Side)
    requires WriterEnabled(w, slots, a) && Written(w, a) != To(t)
    ensures WriterMove(w, slots, a).tables.Get(t) == w.tables.Get(t)
  {
  }

  lemma HistoryStep(w: Writer, slots: seq<Slot>, a: WriterStep, v: Writer)
    requires WriterEnabled(w, slots, a) && v == WriterMove(w, slots, a)
    ensures w.staged <= v.staged && w.bounds <= v.bounds
  {
  }

  /** The writer never writes what a guard has validated. */
  lemma GuardKeepsWriterOff(w: Writer, slots: seq<Slot>, a: WriterStep, x: Reader)
    requires WriterOk(w, |slots|) && WriterEnabled(w, slots, a)
    requires x.Reading? && ReaderOk(slots, x) && GuardOk(w, |slots|, x)
    ensures Written(w, a) != To(x.table)
  {
  }

  /** The scan never gets past a slot that holds the table it waits for. */
  lemma ScanKeptBehind(w: Writer, slots: seq<Slot>, a: WriterStep, x: Reader, v: Writer)
    requires WriterOk(w, |slots|) && WriterEnabled(w, slots, a) && v == WriterMove(w, slots, a)
    requires x.Reading? && ReaderOk(slots, x) && GuardOk(w, |slots|, x)
    ensures x.table == Other(v.live) ==> x.slot >= Swept(v, |slots|)
  {
  }

  lemma PrefixStays(s: seq<Delta>, t: seq<Delta>, n: nat)
    requires s <= t && n <= |s|
    ensures t[..n] == s[..n]
  {
  }

  lemma GuardKeptByWriter(s: State, a: WriterStep, x: Reader)
    requires WriterOk(s.w, |s.slots|) && WriterEnabled(s.w, s.slots, a)
    requires ReaderOk(s.slots, x) && GuardOk(s.w, |s.slots|, x)
    ensures GuardOk(WriterMove(s.w, s.slots, a), |s.slots|, x)
  {
    if x.Reading? {
      var v := WriterMove(s.w, s.slots, a);
      GuardKeepsWriterOff(s.w, s.slots, a, x);
      OnlyWrittenChanges(s.w, s.slots, a, x.table);
      HistoryStep(s.w, s.slots, a, v);
      ScanKeptBehind(s.w, s.slots, a, x, v);
      PrefixStays(s.w.staged, v.staged, x.seen);
    }
  }

  /** A guard that has just validated the live table. */
  lemma NewGuardOk(w: Writer, slots: nat, x: Reader)
    requires WriterOk(w, slots) && x.Reading? && x.table == w.live
    requires x.seen == Published(w) && x.stamp == w.tables.Get(w.live).generation
    ensures GuardOk(w, slots, x)
  {
    assert x.stamp == |w.bounds| && x.seen == w.bounds[|w.bounds| - 1];
  }

  /** Only a successful recheck makes a guard a reading one. */
  lemma GuardKeptByReader(s: State, r: nat, act: ReaderStep, t: State)
    requires WriterOk(s.w, |s.slots|) && Enabled(s, Read(r, act)) && t == Step(s, Read(r, act))
    ensures GuardOk(s.w, |s.slots|, t.readers[r])
  {
    if act.Recheck? && s.readers[r].table == s.w.live {
      NewGuardOk(s.w, |s.slots|, t.readers[r]);
    } else {
      assert !t.readers[r].Reading?;
    }
  }

  // ------------------------------------------------------------- the invariant --

  ghost predicate Inv(s: State) {
    WriterOk(s.w, |s.slots|) && OwnersOk(s) && GuardsOk(s)
  }

  lemma StartWriter(w: Writer, slots: nat)
    requires w == FreshWriter()
    ensures WriterOk(w, slots)
  {
    StartBounds(w);
    StartLogs(w);
  }

  lemma StartBounds(w: Writer)
    requires w == FreshWriter()
    ensures BoundsOk(w)
  {
    NoTail(w.staged);
  }

  lemma StartLogs(w: Writer)
    requires w == FreshWriter()
    ensures LogsOk(w)
  {
    assert w.staged[..0] == [];
  }

  lemma StartOwners(s: State)
    requires forall i :: 0 <= i < |s.slots| ==> s.slots[i] == Slot(Null, false)
    requires forall r :: 0 <= r < |s.readers| ==> s.readers[r] == Outside
    ensures OwnersOk(s)
  {
  }

  lemma StartInv(s: State)
    requires Initial(s)
    ensures Inv(s)
  {
    StartWriter(s.w, |s.slots|);
    StartOwners(s);
  }

  lemma WriteKeeps(s: State, step: WriterStep, t: State)
    requires Inv(s) && Enabled(s, Write(step)) && t == Step(s, Write(step))
    ensures Inv(t)
  {
    WriterKeeps(s.w, s.slots, step, t.w);
    forall r | 0 <= r < |t.readers| ensures GuardOk(t.w, |t.slots|, t.readers[r]) {
      assert ReaderOk(s.slots, s.readers[r]) && GuardOk(s.w, |s.slots|, s.readers[r]);
      GuardKeptByWriter(s, step, s.readers[r]);
    }
  }

  /** A guard's step leaves the writer, the number of slots and the other guards alone. */
  lemma OthersStay(s: State, r: nat, act: ReaderStep, t: State)
    requires Enabled(s, Read(r, act)) && t == Step(s, Read(r, act))
    ensures t.w == s.w && |t.slots| == |s.slots| && |t.readers| == |s.readers|
    ensures forall q :: 0 <= q < |s.readers| && q != r ==> t.readers[q] == s.readers[q]
  {
  }

  lemma ReadKeeps(s: State, r: nat, act: ReaderStep, t: State)
    requires Inv(s) && Enabled(s, Read(r, act)) && t == Step(s, Read(r, act))
    ensures Inv(t)
  {
    OwnersKept(s, r, act);
    OthersStay(s, r, act, t);
    forall q | 0 <= q < |t.readers| ensures GuardOk(t.w, |t.slots|, t.readers[q]) {
      if q == r {
        GuardKeptByReader(s, r, act, t);
      } else {
        assert GuardOk(s.w, |s.slots|, s.readers[q]);
      }
    }
  }

  lemma InvStep(s: State, a: Action)
    requires Inv(s) && Enabled(s, a)
    ensures Inv(Step(s, a))
  {
    match a
    case Write(step) => WriteKeeps(s, step, Step(s, a));
    case Read(r, act) => ReadKeeps(s, r, act, Step(s, a));
  }

  // ------------------------------------------------------------ whole runs --

  /** A freshly initialised store: both tables empty, every slot free, no guard yet. */
  ghost predicate Initial(s: State) {
    && s.w == FreshWriter()
    && (forall i :: 0 <= i < |s.slots| ==> s.slots[i] == Slot(Null, false))
    && (forall r :: 0 <= r < |s.readers| ==> s.readers[r] == Outside)
  }

  ghost predicate Moves(s: State, a: Action, t: State) {
    Enabled(s, a) && t == Step(s, a)
  }

  /** Step `i` of a run. */
  ghost predicate StepAt(ss: seq<State>, acts: seq<Action>, i: nat)
    requires |ss| == |acts| + 1 && i < |acts|
  {
    Moves(ss[i], acts[i], ss[i + 1])
  }

  ghost predicate IsRun(ss: seq<State>, acts: seq<Action>) {
    && |ss| == |acts| + 1
    && Initial(ss[0])
    && (forall i :: 0 <= i < |acts| ==> StepAt(ss, acts, i))
  }

  lemma {:induction false} RunInv(ss: seq<State>, acts: seq<Action>, i: nat)
    requires IsRun(ss, acts) && i < |ss|
    ensures Inv(ss[i])
  {
    if i == 0 {
      StartInv(ss[0]);
    } else {
      RunInv(ss, acts, i - 1);
      assert StepAt(ss, acts, i - 1);
      InvStep(ss[i - 1], acts[i - 1]);
    }
  }

  /** In every interleaving, no step writes a table that some guard has validated. */
  lemma NoWriteUnderGuard(ss: seq<State>, acts: seq<Action>, i: nat, r: nat)
    requires IsRun(ss, acts) && i < |acts| && acts[i].Write?
    requires r < |ss[i].readers| && ss[i].readers[r].Reading?
    ensures Written(ss[i].w, acts[i].step) != To(ss[i].readers[r].table)
  {
    RunInv(ss, acts, i);
    assert StepAt(ss, acts, i);
    assert GuardOk(ss[i].w, |ss[i].slots|, ss[i].readers[r]);
    assert ReaderOk(ss[i].slots, ss[i].readers[r]);
    GuardKeepsWriterOff(ss[i].w, ss[i].slots, acts[i].step, ss[i].readers[r]);
  }

  /** From validation until the guard lets go, the table under it does not change at all. */
  lemma {:induction false} GuardIsStable(ss: seq<State>, acts: seq<Action>, i: nat, j: nat, r: nat)
    requires IsRun(ss, acts) && i <= j < |ss|
    requires r < |ss[i].readers| && ss[i].readers[r].Reading?
    requires forall n :: i <= n < j ==> acts[n] != Read(r, ClearHazard)
    ensures r < |ss[j].readers| && ss[j].readers[r] == ss[i].readers[r]
    ensures ss[j].w.tables.Get(ss[i].readers[r].table) == ss[i].w.tables.Get(ss[i].readers[r].table)
    decreases j
  {
    if i < j {
      GuardIsStable(ss, acts, i, j - 1, r);
      assert StepAt(ss, acts, j - 1);
      if acts[j - 1].Write? {
        NoWriteUnderGuard(ss, acts, j - 1, r);
        OnlyWrittenChanges(ss[j - 1].w, ss[j - 1].slots, acts[j - 1].step, ss[i].readers[r].table);
      }
    }
  }

  /** What a guard reads is the fold of the deltas staged before one publish boundary: the
      boundary numbered by the generation it read. */
  lemma GuardReadsAPrefix(ss: seq<State>, acts: seq<Action>, i: nat, r: nat, nItems: nat, nUsers: nat)
    requires IsRun(ss, acts) && i < |ss| && r < |ss[i].readers| && ss[i].readers[r].Reading?
    ensures var w, x := ss[i].w, ss[i].readers[r];
            && 1 <= w.tables.Get(x.table).generation <= |w.bounds|
            && x.seen == w.bounds[w.tables.Get(x.table).generation - 1] <= |w.staged|
            && Rows(nItems, nUsers, w.tables.Get(x.table)) == Fold(Fresh(nItems, nUsers), w.staged[..x.seen])
  {
    RunInv(ss, acts, i);
    assert GuardOk(ss[i].w, |ss[i].slots|, ss[i].readers[r]);
  }

  lemma HistoryRunStep(ss: seq<State>, acts: seq<Action>, j: nat)
    requires IsRun(ss, acts) && j < |acts|
    ensures ss[j].w.staged <= ss[j + 1].w.staged && ss[j].w.bounds <= ss[j + 1].w.bounds
  {
    assert StepAt(ss, acts, j);
    match acts[j]
    case Write(step) => HistoryStep(ss[j].w, ss[j].slots, step, ss[j + 1].w);
    case Read(r, act) => OthersStay(ss[j], r, act, ss[j + 1]);
  }

  lemma {:induction false} HistoryGrows(ss: seq<State>, acts: seq<Action>, i: nat, j: nat)
    requires IsRun(ss, acts) && i <= j < |ss|
    ensures ss[i].w.staged <= ss[j].w.staged && ss[i].w.bounds <= ss[j].w.bounds
    decreases j
  {
    if i < j {
      HistoryGrows(ss, acts, i, j - 1);
      HistoryRunStep(ss, acts, j - 1);
    }
  }

  /** A recheck that succeeds sees everything published. */
  lemma RecheckSeesAll(s: State, q: nat, t: State)
    requires WriterOk(s.w, |s.slots|) && Moves(s, Read(q, Recheck), t) && t.readers[q].Reading?
    ensures t.readers[q].seen == Published(s.w) && t.readers[q].stamp == |s.w.bounds|
  {
  }

  lemma EarlierBoundary(early: Writer, late: Writer, slots: nat, x: Reader)
    requires WriterOk(late, slots) && early.bounds <= late.bounds && early.bounds != []
    requires x.Reading? && 1 <= x.stamp <= |early.bounds| && x.seen == early.bounds[x.stamp - 1]
    ensures x.seen <= Published(late) && x.stamp <= |late.bounds|
  {
    assert x.seen == late.bounds[x.stamp - 1] <= late.bounds[|late.bounds| - 1];
  }

  /** A guard validated later never sees fewer deltas than one already reading. */
  lemma LaterGuardsSeeMore(ss: seq<State>, acts: seq<Action>, i: nat, j: nat, r: nat, q: nat)
    requires IsRun(ss, acts) && i <= j < |acts|
    requires r < |ss[i].readers| && ss[i].readers[r].Reading?
    requires acts[j] == Read(q, Recheck) && q < |ss[j + 1].readers| && ss[j + 1].readers[q].Reading?
    ensures ss[i].readers[r].seen <= ss[j + 1].readers[q].seen
    ensures ss[i].readers[r].stamp <= ss[j + 1].readers[q].stamp
    ensures ss[i].w.staged <= ss[j + 1].w.staged
  {
    RunInv(ss, acts, i);
    RunInv(ss, acts, j);
    HistoryGrows(ss, acts, i, j);
    HistoryRunStep(ss, acts, j);
    assert StepAt(ss, acts, j);
    RecheckSeesAll(ss[j], q, ss[j + 1]);
    assert GuardOk(ss[i].w, |ss[i].slots|, ss[i].readers[r]);
    EarlierBoundary(ss[i].w, ss[j].w, |ss[j].slots|, ss[i].readers[r]);
  }

  /** Between publishes the live generation is one more than the number of publishes and the
      published counter agrees; once anything was published the two tables are identical. */
  lemma TablesAgree(ss: seq<State>, acts: seq<Action>, i: nat)
    requires IsRun(ss, acts) && i < |ss| && ss[i].w.phase.Resting?
    ensures var w := ss[i].w;
            && w.tables.Get(w.live).generation == w.gen == w.publishes + 1
            && |w.pending| <= |w.staged| && w.tables.a.log == w.tables.b.log == w.staged[..|w.staged| - |w.pending|]
            && (w.publishes > 0 ==> w.tables.a == w.tables.b)
  {
    RunInv(ss, acts, i);
    var w := ss[i].w;
    assert w.tables.Get(w.live).log == w.tables.Get(Other(w.live)).log;
  }

  /** The grace period only ever waits for a guard that owns the busy slot and can still move. */
  lemma BusySlotHasAMover(ss: seq<State>, acts: seq<Action>, i: nat, slot: nat)
    requires IsRun(ss, acts) && i < |ss| && slot < |ss[i].slots| && ss[i].slots[slot].hazard != Null
    ensures exists r: nat, act :: Enabled(ss[i], Read(r, act)) && Owns(ss[i].readers[r], slot)
                                  && !ss[i].readers[r].Leaving?
  {
    RunInv(ss, acts, i);
    var s := ss[i];
    assert SlotOk(s.readers, s.slots, slot);
    var r :| 0 <= r < |s.readers| && Owns(s.readers[r], slot);
    assert ReaderOk(s.slots, s.readers[r]);
    var act := match s.readers[r]
      case Claimed(_) => Load
      case Loaded(_, _) => StoreHazard
      case Stored(_, _) => Recheck
      case _ => ClearHazard;
    assert Enabled(s, Read(r, act));
  }

  // -------------------------------------------------------------- the grace period --

  /** How many steps a guard may take before its slot no longer names table `t`, and it is no longer
      about to store it. */
  function Claim(x: Reader, slots: seq<Slot>, t: Side): nat {
    match x
    case Loaded(i, u) => if u == t then 5 else if i < |slots| && slots[i].hazard == To(t) then 2 else 0
    case Stored(_, u) => if u == t then 4 else 0
    case Claimed(i) => if i < |slots| && slots[i].hazard == To(t) then 3 else 0
    case Reading(_, u, _, _) => if u == t then 1 else 0
    case _ => 0
  }

  /** The claims of the first `n` guards. */
  function Claims(readers: seq<Reader>, slots: seq<Slot>, t: Side, n: nat): nat
    requires n <= |readers|
  {
    if n == 0 then 0 else Claims(readers, slots, t, n - 1) + Claim(readers[n - 1], slots, t)
  }

  /** Everything that can still hold up the scan. */
  function Holdups(s: State): nat
    requires s.w.phase.Scanning?
  {
    Claims(s.readers, s.slots, s.w.phase.front, |s.readers|)
  }

  /** A step of the guard itself uses up its claim; without one it makes none, since what it loads is
      the live table. */
  lemma OwnClaim(s: State, r: nat, act: ReaderStep, u: State, t: Side)
    requires OwnersOk(s) && Enabled(s, Read(r, act)) && u == Step(s, Read(r, act)) && t != s.w.live
    ensures Claim(u.readers[r], u.slots, t) < Claim(s.readers[r], s.slots, t) ||
            Claim(u.readers[r], u.slots, t) == Claim(s.readers[r], s.slots, t) == 0
  {
    assert ReaderOk(s.slots, s.readers[r]);
    if act.TryClaim? && s.readers[r].next < |s.slots| { assert SlotOk(s.readers, s.slots, s.readers[r].next); }
  }

  /** Nobody else's claim changes. */
  lemma OtherClaim(s: State, r: nat, u: State, t: Side, q: nat)
    requires OwnersOk(s) && OwnStep(s, u, r) && q < |s.readers| && q != r
    ensures Claim(u.readers[q], u.slots, t) == Claim(s.readers[q], s.slots, t)
  {
    OthersOk(s, u, r, q);
    assert ReaderOk(s.slots, s.readers[q]);
    forall i: nat | Owns(s.readers[q], i) ensures u.slots[i] == s.slots[i] {
      assert !Owns(s.readers[r], i) && !Owns(u.readers[r], i);
    }
    var i := SlotOf(s.readers[q]);
    if Owns(s.readers[q], i) { assert u.slots[i] == s.slots[i]; }
  }

  function SlotOf(x: Reader): nat {
    if x.Claimed? || x.Loaded? || x.Stored? || x.Reading? || x.Leaving? then x.slot else 0
  }

  lemma {:induction false} ClaimsStep(s: State, r: nat, act: ReaderStep, u: State, t: Side, n: nat)
    requires OwnersOk(s) && Enabled(s, Read(r, act)) && u == Step(s, Read(r, act)) && t != s.w.live
    requires OwnStep(s, u, r) && n <= |s.readers|
    ensures Claims(u.readers, u.slots, t, n) <= Claims(s.readers, s.slots, t, n)
    ensures r < n && Claim(s.readers[r], s.slots, t) > 0 ==>
              Claims(u.readers, u.slots, t, n) < Claims(s.readers, s.slots, t, n)
  {
    if n > 0 {
      ClaimsStep(s, r, act, u, t, n - 1);
      if n - 1 == r { OwnClaim(s, r, act, u, t); } else { OtherClaim(s, r, u, t, n - 1); }
    }
  }

  lemma {:induction false} ClaimsBound(readers: seq<Reader>, slots: seq<Slot>, t: Side, n: nat)
    requires n <= |readers|
    ensures Claims(readers, slots, t, n) <= 5 * n
    ensures Claims(readers, slots, t, n) == 0 ==> forall r :: 0 <= r < n ==> Claim(readers[r], slots, t) == 0
    ensures Claims(readers, slots, t, n) > 0 ==> exists r :: 0 <= r < n && Claim(readers[r], slots, t) > 0
  {
    if n > 0 { ClaimsBound(readers, slots, t, n - 1); }
  }

  /** A slot names the retired table only while its owner has a claim. */
  lemma NoClaimNoHazard(s: State, t: Side)
    requires OwnersOk(s) && Claims(s.readers, s.slots, t, |s.readers|) == 0
    ensures forall i :: 0 <= i < |s.slots| ==> s.slots[i].hazard != To(t)
  {
    ClaimsBound(s.readers, s.slots, t, |s.readers|);
    forall i | 0 <= i < |s.slots| ensures s.slots[i].hazard != To(t) {
      assert SlotOk(s.readers, s.slots, i);
      if s.slots[i].claimed {
        var r :| 0 <= r < |s.readers| && Owns(s.readers[r], i);
        assert ReaderOk(s.slots, s.readers[r]) && Claim(s.readers[r], s.slots, t) == 0;
      }
    }
  }

  /** This step is taken by a guard with a claim on the retired table. */
  predicate ClaimantMoves(s: State, a: Action) {
    && s.w.phase.Scanning? && a.Read? && a.r < |s.readers|
    && Claim(s.readers[a.r], s.slots, s.w.phase.front) > 0
  }

  /** How many of the steps from `i` to `j` were taken by such guards. */
  function ClaimantSteps(ss: seq<State>, acts: seq<Action>, i: nat, j: nat): nat
    requires i <= j < |ss| == |acts| + 1
  {
    if i == j then 0 else ClaimantSteps(ss, acts, i, j - 1) + if ClaimantMoves(ss[j - 1], acts[j - 1]) then 1 else 0
  }

  /** From step `i` to `j` the writer is in one and the same scan. */
  ghost predicate Scans(ss: seq<State>, i: nat, j: nat)
    requires i <= j < |ss|
  {
    forall m :: i <= m <= j ==> ss[m].w.phase.Scanning?
  }

  lemma ScanStep(ss: seq<State>, acts: seq<Action>, j: nat)
    requires IsRun(ss, acts) && j < |acts| && ss[j].w.phase.Scanning? && ss[j + 1].w.phase.Scanning?
    ensures ss[j + 1].w.phase.front == ss[j].w.phase.front
    ensures Holdups(ss[j + 1]) + (if ClaimantMoves(ss[j], acts[j]) then 1 else 0) <= Holdups(ss[j])
  {
    RunInv(ss, acts, j);
    assert StepAt(ss, acts, j);
    var s, u := ss[j], ss[j + 1];
    if acts[j].Read? {
      OthersStay(s, acts[j].r, acts[j].act, u);
      StepIsOwn(s, acts[j].r, acts[j].act);
      FrontIsRetired(s.w, |s.slots|);
      ClaimsStep(s, acts[j].r, acts[j].act, u, s.w.phase.front, |s.readers|);
    } else {
      assert acts[j].step.ScanSlot?;
    }
  }

  lemma FrontIsRetired(w: Writer, slots: nat)
    requires WriterOk(w, slots) && w.phase.Scanning?
    ensures w.phase.front != w.live
  {
  }

  lemma {:induction false} HoldupsFall(ss: seq<State>, acts: seq<Action>, i: nat, j: nat)
    requires IsRun(ss, acts) && i <= j < |ss| && Scans(ss, i, j)
    ensures Holdups(ss[j]) + ClaimantSteps(ss, acts, i, j) <= Holdups(ss[i])
    ensures ss[j].w.phase.front == ss[i].w.phase.front
  {
    if i < j {
      HoldupsFall(ss, acts, i, j - 1);
      ScanStep(ss, acts, j - 1);
    }
  }

  /** During one grace period the claims on the retired table never grow, every step of a guard with
      one lowers them, and once there are none no slot names that table any more. */
  lemma HoldupsRunOut(ss: seq<State>, acts: seq<Action>, i: nat, j: nat)
    requires IsRun(ss, acts) && i <= j < |ss| && Scans(ss, i, j)
    ensures Holdups(ss[j]) + ClaimantSteps(ss, acts, i, j) <= Holdups(ss[i]) <= 5 * |ss[i].readers|
    ensures ss[j].w.phase.front == ss[i].w.phase.front
    ensures Holdups(ss[j]) == 0 ==>
              forall n :: 0 <= n < |ss[j].slots| ==> ss[j].slots[n].hazard != To(ss[j].w.phase.front)
  {
    HoldupsFall(ss, acts, i, j);
    ClaimsBound(ss[i].readers, ss[i].slots, ss[i].w.phase.front, |ss[i].readers|);
    RunInv(ss, acts, j);
    if Holdups(ss[j]) == 0 { NoClaimNoHazard(ss[j], ss[j].w.phase.front); }
  }

  /** A guard with a claim can always move. */
  lemma ClaimantCanMove(ss: seq<State>, acts: seq<Action>, i: nat)
    requires IsRun(ss, acts) && i < |ss| && ss[i].w.phase.Scanning? && Holdups(ss[i]) > 0
    ensures exists r: nat, act :: Enabled(ss[i], Read(r, act)) && ClaimantMoves(ss[i], Read(r, act))
  {
    RunInv(ss, acts, i);
    var s := ss[i];
    ClaimsBound(s.readers, s.slots, s.w.phase.front, |s.readers|);
    var r :| 0 <= r < |s.readers| && Claim(s.readers[r], s.slots, s.w.phase.front) > 0;
    assert ReaderOk(s.slots, s.readers[r]);
    var act := match s.readers[r]
      case Claimed(_) => Load
      case Loaded(_, _) => StoreHazard
      case Stored(_, _) => Recheck
      case _ => ClearHazard;
    assert Enabled(s, Read(r, act)) && ClaimantMoves(s, Read(r, act));
  }

  /** How many of the steps from `i` to `j` were steps of the scan. */
  function ScanSteps(acts: seq<Action>, i: nat, j: nat): nat
    requires i <= j <= |acts|
  {
    if i == j then 0 else ScanSteps(acts, i, j - 1) + if acts[j - 1] == Write(ScanSlot) then 1 else 0
  }

  lemma QuietStep(ss: seq<State>, acts: seq<Action>, j: nat)
    requires IsRun(ss, acts) && j < |acts| && ss[j].w.phase.Scanning? && ss[j + 1].w.phase.Scanning?
    requires Holdups(ss[j]) == 0
    ensures |ss[j + 1].slots| == |ss[j].slots| && Holdups(ss[j + 1]) == 0
    ensures ss[j + 1].w.phase.next == ss[j].w.phase.next + if acts[j] == Write(ScanSlot) then 1 else 0
    ensures ss[j + 1].w.phase.next <= |ss[j].slots|
  {
    RunInv(ss, acts, j);
    ScanStep(ss, acts, j);
    assert StepAt(ss, acts, j);
    if acts[j].Read? {
      OthersStay(ss[j], acts[j].r, acts[j].act, ss[j + 1]);
    } else {
      NoClaimNoHazard(ss[j], ss[j].w.phase.front);
    }
  }

  /** Then the writer gets through: without claims the scan never restarts, so it is over after one
      step for each slot and one more. */
  lemma {:induction false} QuietScanEnds(ss: seq<State>, acts: seq<Action>, i: nat, j: nat)
    requires IsRun(ss, acts) && i <= j < |ss| && Scans(ss, i, j) && Holdups(ss[i]) == 0
    ensures |ss[j].slots| == |ss[i].slots| && Holdups(ss[j]) == 0
    ensures ss[j].w.phase.next == ss[i].w.phase.next + ScanSteps(acts, i, j)
    ensures ScanSteps(acts, i, j) <= |ss[i].slots|
  {
    if i < j {
      QuietScanEnds(ss, acts, i, j - 1);
      QuietStep(ss, acts, j - 1);
    }
  }

  /** With nothing pending after a publish, both tables hold everything that was ever staged. */
  lemma TablesComplete(w: Writer, slots: nat)
    requires WriterOk(w, slots) && w.phase.Resting? && w.publishes > 0 && w.pending == []
    ensures w.tables.a == w.tables.b == Copy(w.staged, w.gen)
  {
    assert w.staged[..|w.staged|] == w.staged;
    assert w.tables.Get(w.live) == w.tables.Get(Other(w.live)) == Copy(w.staged, w.gen);
  }

  /** The generation about to be published is the next one. */
  lemma StampIs(w: Writer, slots: nat)
    requires WriterOk(w, slots) && w.phase.FillingBack?
    ensures w.tables.Get(w.phase.front).generation == w.gen
  {
  }

  // ------------------------------------------------------------ the store's writer --

  /** What the slots hold at the writer's successive observations: from the `quiet`-th one on none
      holds `front`. */
  ghost predicate Settles(readers: nat -> seq<Slot>, n: nat, front: Side, quiet: nat) {
    && (forall t: nat :: |readers(t)| == n)
    && forall t: nat, i: nat :: t >= quiet && i < n ==> readers(t)[i].hazard != To(front)
  }

  /** The writer's own view of the store. Its operations take the steps above in order, and what the
      readers do to the slots meanwhile is what each scan finds there. */
  class FeatureSnapshotStore {
    var w: Writer
    var slots: seq<Slot>

    ghost predicate Valid() reads this {
      WriterOk(w, |slots|) && w.phase.Resting?
    }

    constructor (slotCount: nat)
      ensures Valid() && w == FreshWriter() && |slots| == slotCount
      ensures forall i :: 0 <= i < slotCount ==> slots[i] == Slot(Null, false)
    {
      StartWriter(FreshWriter(), slotCount);
      w, slots := FreshWriter(), seq(slotCount, _ => Slot(Null, false));
    }

    method Stage(d: Delta)
      requires Valid()
      modifies this`w
      ensures Valid() && w == old(w).(pending := old(w.pending) + [d], staged := old(w.staged) + [d])
    {
      Take(WriterStep.Stage(d));
    }

    /** Returns the number of deltas made visible. Readers may hold the retiring table when the
        publish begins, and come and go while it waits; once they have let go of it the publish
        completes: everything staged is visible in both tables, under the next generation, and
        nothing is pending. */
    method Publish(readers: nat -> seq<Slot>, ghost quiet: nat) returns (n: nat)
      requires Valid() && (w.pending != [] ==> Settles(readers, |slots|, w.live, quiet))
      modifies this
      ensures Valid() && |slots| == old(|slots|) && n == |old(w.pending)|
      ensures n == 0 ==> w == old(w)
      ensures n > 0 ==>
        && w.pending == [] && w.staged == old(w.staged) && w.publishes == old(w.publishes) + 1
        && w.live == old(w.back) && w.back == old(w.live) && w.gen == old(w.gen) + 1
        && w.bounds == old(w.bounds) + [|w.staged|]
        && w.tables.a == w.tables.b == Copy(w.staged, w.gen)
    {
      n := |w.pending|;
      if n == 0 { return; }
      Swap(readers, quiet);
      TablesComplete(w, |slots|);
    }

    /** Both flips of a publish, with the grace period in between. */
    method Swap(readers: nat -> seq<Slot>, ghost quiet: nat)
      requires Valid() && w.pending != [] && Settles(readers, |slots|, w.live, quiet)
      modifies this
      ensures Valid() && |slots| == old(|slots|)
      ensures w == old(w).(tables := w.tables, live := old(w.back), back := old(w.live), gen := old(w.gen) + 1,
                           bounds := old(w.bounds) + [|w.staged|], pending := [], publishes := old(w.publishes) + 1)
    {
      Expose();
      AwaitQuiescence(readers, quiet);
      Retire();
    }

    /** Bring the back table up to date under the next generation. */
    method Prepare()
      requires WriterOk(w, |slots|) && w.phase.Resting? && w.pending != []
      modifies this`w
      ensures WriterOk(w, |slots|) && w.phase == StoringGen(old(w.live), old(w.gen) + 1)
      ensures w == old(w).(tables := w.tables, phase := w.phase)
    {
      Begin();
      FillBack();
      Stamp();
    }

    method Begin()
      requires WriterOk(w, |slots|) && w.phase.Resting? && w.pending != []
      modifies this`w
      ensures WriterOk(w, |slots|) && w == old(w).(phase := FillingBack(old(w.live), 0))
    {
      Take(BeginPublish);
    }

    method Stamp()
      requires WriterOk(w, |slots|) && w.phase.FillingBack? && w.phase.done == |w.pending|
      modifies this`w
      ensures WriterOk(w, |slots|)
      ensures w == old(w).(tables := w.tables, phase := StoringGen(old(w.phase.front), old(w.gen) + 1))
    {
      StampIs(w, |slots|);
      Take(StampBack);
    }

    /** Bring the back table up to date and make it the live one. */
    method Expose()
      requires WriterOk(w, |slots|) && w.phase.Resting? && w.pending != []
      modifies this`w
      ensures WriterOk(w, |slots|) && w.phase == Scanning(old(w.live), old(w.gen) + 1, 0)
      ensures w == old(w).(tables := w.tables, phase := w.phase, live := old(w.back), gen := old(w.gen) + 1,
                           bounds := old(w.bounds) + [|w.staged|])
    {
      Prepare();
      Take(StoreGen);
      Take(Flip);
    }

    /** Bring the retired table back into agreement. */
    method Retire()
      requires WriterOk(w, |slots|) && w.phase.FillingFront? && w.phase.done == 0
      modifies this`w
      ensures WriterOk(w, |slots|)
      ensures w == old(w).(tables := w.tables, phase := Resting, back := old(w.phase.front), pending := [],
                           publishes := old(w.publishes) + 1)
    {
      ReplayFront();
      Take(StampFront);
      Take(EndPublish);
    }

    /** One step of the writer. */
    method Take(a: WriterStep)
      requires WriterOk(w, |slots|) && WriterEnabled(w, slots, a)
      modifies this`w
      ensures WriterOk(w, |slots|) && w == WriterMove(old(w), slots, a)
    {
      var v := WriterMove(w, slots, a);
      WriterKeeps(w, slots, a, v);
      w := v;
    }

    /** Apply every pending delta to the back table. */
    method FillBack()
      requires WriterOk(w, |slots|) && w.phase.FillingBack?
      modifies this`w
      ensures WriterOk(w, |slots|) && w.phase == FillingBack(old(w.phase.front), |w.pending|)
      ensures w == old(w).(tables := w.tables, phase := w.phase)
    {
      while w.phase.done < |w.pending|
        invariant WriterOk(w, |slots|) && w.phase.FillingBack? && w.phase.front == old(w.phase.front)
        invariant w == old(w).(tables := w.tables, phase := w.phase)
        decreases |w.pending| - w.phase.done
      {
        Take(ApplyBack);
      }
    }

    /** Scan the slots until one whole pass finds none of them holding the retired table. */
    method AwaitQuiescence(readers: nat -> seq<Slot>, ghost quiet: nat)
      requires WriterOk(w, |slots|) && w.phase.Scanning? && Settles(readers, |slots|, w.phase.front, quiet)
      modifies this
      ensures WriterOk(w, |slots|) && |slots| == old(|slots|)
      ensures w == old(w).(phase := FillingFront(old(w.phase.front), old(w.phase.stamp), 0))
    {
      var t := 0;
      while w.phase.Scanning?
        invariant |slots| == old(|slots|) && WriterOk(w, |slots|) && w == old(w).(phase := w.phase)
        invariant w.phase == FillingFront(old(w.phase.front), old(w.phase.stamp), 0) ||
                  (w.phase.Scanning? && w.phase.front == old(w.phase.front) && w.phase.stamp == old(w.phase.stamp))
        decreases if t < quiet then quiet - t else 0, w.phase.Scanning?,
                  if w.phase.Scanning? then |slots| - w.phase.next else 0
      {
        slots := readers(t);
        Take(ScanSlot);
        t := t + 1;
      }
    }

    /** Replay every pending delta into the retired table. */
    method ReplayFront()
      requires WriterOk(w, |slots|) && w.phase.FillingFront?
      modifies this`w
      ensures WriterOk(w, |slots|)
      ensures w.phase == FillingFront(old(w.phase.front), old(w.phase.stamp), |w.pending|)
      ensures w == old(w).(tables := w.tables, phase := w.phase)
    {
      while w.phase.done < |w.pending|
        invariant WriterOk(w, |slots|) && w.phase.FillingFront?
        invariant w.phase.front == old(w.phase.front) && w.phase.stamp == old(w.phase.stamp)
        invariant w == old(w).(tables := w.tables, phase := w.phase)
        decreases |w.pending| - w.phase.done
      {
        Take(ApplyFront);
      }
    }
  }
}
