/** The open-addressing user map: linear probing with growth, refining a finite map. */
module FlatUserMaps {
  import opened Arithmetic
  import opened Basics
  import opened FeatureTables

  const EMPTY := 0xFFFF_FFFF
  const TWO32 := 0x1_0000_0000
  const MULTIPLIER := 2654435761

  datatype Lookup = Missing | Found(value: UserFeatures)

  /** A table's capacity, and the entries it believes to hold. */
  datatype Load = Load(cap: nat, size: nat)

  // ----------------------------------------------------------- slot arithmetic --

  ghost predicate PowerOfTwo(n: nat) {
    n == 1 || (n > 0 && n % 2 == 0 && PowerOfTwo(n / 2))
  }

  /** Bitwise and. */
  function And(x: nat, mask: nat): nat {
    if mask == 0 then 0 else 2 * And(x / 2, mask / 2) + (if x % 2 == 1 && mask % 2 == 1 then 1 else 0)
  }

  lemma HalvedRemainder(x: nat, half: nat)
    requires half > 0
    ensures x % (2 * half) == 2 * ((x / 2) % half) + x % 2
  {
    var y := x / 2;
    var q, r := y / half, y % half;
    assert y == q * half + r;
    assert q * (2 * half) == 2 * (q * half);
    Remainder(x, 2 * half, q, 2 * r + x % 2);
  }

  /** Masking with a power of two minus one is the remainder. */
  lemma {:induction false} MaskIsRemainder(x: nat, cap: nat)
    requires PowerOfTwo(cap)
    ensures And(x, cap - 1) == x % cap < cap
  {
    if cap > 1 {
      var half := cap / 2;
      MaskIsRemainder(x / 2, half);
      HalvedRemainder(x, half);
      assert (cap - 1) / 2 == half - 1 && (cap - 1) % 2 == 1;
    }
  }

  /** Where the probe sequence of a key begins. */
  function Home(u: nat, cap: nat): nat
    requires cap > 0
  {
    And((u * MULTIPLIER) % TWO32, cap - 1)
  }

  /** The slot `d` probes after slot `h`. */
  function At(h: nat, d: nat, cap: nat): nat
    requires h < cap && d < cap
  {
    if h + d < cap then h + d else h + d - cap
  }

  function Dist(h: nat, p: nat, cap: nat): nat
    requires h < cap && p < cap
  {
    if p >= h then p - h else p + cap - h
  }

  function Next(i: nat, cap: nat): nat
    requires cap > 0
  {
    And(i + 1, cap - 1)
  }

  lemma HomeInRange(u: nat, cap: nat)
    requires PowerOfTwo(cap)
    ensures Home(u, cap) < cap
  {
    MaskIsRemainder((u * MULTIPLIER) % TWO32, cap);
  }

  lemma NextWraps(h: nat, d: nat, cap: nat)
    requires PowerOfTwo(cap) && h < cap && d + 1 < cap
    ensures Next(At(h, d, cap), cap) == At(h, d + 1, cap)
  {
    var i := At(h, d, cap);
    MaskIsRemainder(i + 1, cap);
    Remainder(i + 1, cap, if i + 1 == cap then 1 else 0, if i + 1 == cap then 0 else i + 1);
  }

  // ------------------------------------------------------------- table facts --

  ghost predicate Unique(keys: seq<nat>) {
    forall p, q :: 0 <= p < q < |keys| && keys[p] != EMPTY ==> keys[p] != keys[q]
  }

  /** The entry in slot `p` can be reached: no gap lies between its home `h` and it. */
  ghost predicate Reachable(keys: seq<nat>, h: nat, p: nat)
    requires p < |keys| && h < |keys|
  {
    forall d: nat :: d < Dist(h, p, |keys|) ==> keys[At(h, d, |keys|)] != EMPTY
  }

  ghost predicate TableOk(keys: seq<nat>) {
    && PowerOfTwo(|keys|) && Unique(keys)
    && forall p :: 0 <= p < |keys| && keys[p] != EMPTY ==>
         Home(keys[p], |keys|) < |keys| && Reachable(keys, Home(keys[p], |keys|), p)
  }

  /** The table holds exactly the entries of the finite map `m`. */
  ghost predicate Represents(keys: seq<nat>, vals: seq<UserFeatures>, m: map<nat, UserFeatures>) {
    && |keys| == |vals|
    && (forall p :: 0 <= p < |keys| && keys[p] != EMPTY ==> keys[p] in m && m[keys[p]] == vals[p])
    && (forall k :: k in m ==> k != EMPTY && k in keys)
  }

  /** The probe sequence of `u` up to distance `d` meets neither a gap nor `u`. */
  ghost predicate Passed(keys: seq<nat>, h: nat, u: nat, d: nat)
    requires h < |keys| && d <= |keys|
  {
    forall e: nat :: e < d ==> keys[At(h, e, |keys|)] != EMPTY && keys[At(h, e, |keys|)] != u
  }

  ghost function KeySet(keys: seq<nat>): set<nat> {
    set p | 0 <= p < |keys| :: keys[p]
  }

  lemma {:induction false} FullTable(keys: seq<nat>)
    requires Unique(keys) && EMPTY !in keys
    ensures |KeySet(keys)| == |keys|
  {
    if keys != [] {
      var n := |keys| - 1;
      FullTable(keys[..n]);
      KeySetStep(keys[..n], keys[n]);
      assert keys[..n] + [keys[n]] == keys;
      assert keys[n] !in KeySet(keys[..n]);
    }
  }

  lemma KeySetStep(front: seq<nat>, k: nat)
    ensures KeySet(front + [k]) == KeySet(front) + {k}
  {
    var keys := front + [k];
    assert keys[|front|] == k;
    forall x | x in KeySet(front) ensures x in KeySet(keys) {
      var p :| 0 <= p < |front| && front[p] == x;
      assert keys[p] == x;
    }
  }

  lemma GapExists(keys: seq<nat>, vals: seq<UserFeatures>, m: map<nat, UserFeatures>) returns (p: nat)
    requires Unique(keys) && Represents(keys, vals, m) && |m| < |keys|
    ensures p < |keys| && keys[p] == EMPTY
  {
    if EMPTY !in keys {
      FullTable(keys);
      SubsetSize(KeySet(keys), m.Keys);
    }
    p :| 0 <= p < |keys| && keys[p] == EMPTY;
  }

  /** A stored key lies before any gap of its probe sequence. */
  lemma BeforeTheGap(keys: seq<nat>, h: nat, p: nat, d: nat)
    requires p < |keys| && h < |keys| && d < |keys| && Reachable(keys, h, p)
    requires keys[p] != EMPTY && keys[At(h, d, |keys|)] == EMPTY
    ensures Dist(h, p, |keys|) < d && At(h, Dist(h, p, |keys|), |keys|) == p
  {
  }

  /** A key not met before the first gap of its probe sequence is nowhere in the table. */
  lemma AbsentAtGap(keys: seq<nat>, h: nat, u: nat, d: nat)
    requires TableOk(keys) && u != EMPTY && h == Home(u, |keys|) < |keys| && d < |keys|
    requires keys[At(h, d, |keys|)] == EMPTY && Passed(keys, h, u, d)
    ensures u !in keys
  {
    if u in keys {
      var p :| 0 <= p < |keys| && keys[p] == u;
      BeforeTheGap(keys, h, p, d);
    }
  }

  lemma ReachableAfter(keys: seq<nat>, h: nat, p: nat, i: nat, u: nat)
    requires p < |keys| && h < |keys| && i < |keys| && u != EMPTY && Reachable(keys, h, p)
    ensures Reachable(keys[i := u], h, p)
  {
  }

  lemma ReachableNew(keys: seq<nat>, h: nat, u: nat, d: nat)
    requires h < |keys| && d < |keys| && u != EMPTY
    requires forall e: nat :: e < d ==> keys[At(h, e, |keys|)] != EMPTY
    ensures Reachable(keys[At(h, d, |keys|) := u], h, At(h, d, |keys|))
  {
    assert Dist(h, At(h, d, |keys|), |keys|) == d;
  }

  /** Filling the first gap of a key's probe sequence keeps the table sound and adds the entry. */
  lemma FillGap(keys: seq<nat>, vals: seq<UserFeatures>, m: map<nat, UserFeatures>, h: nat, u: nat, v: UserFeatures,
                d: nat)
    requires TableOk(keys) && Represents(keys, vals, m) && u !in m
    requires u != EMPTY && h == Home(u, |keys|) < |keys| && d < |keys|
    requires keys[At(h, d, |keys|)] == EMPTY
    requires forall e: nat :: e < d ==> keys[At(h, e, |keys|)] != EMPTY
    ensures var i := At(h, d, |keys|);
            TableOk(keys[i := u]) && Represents(keys[i := u], vals[i := v], m[u := v])
  {
    var i := At(h, d, |keys|);
    var after := keys[i := u];
    assert forall p :: 0 <= p < |keys| && keys[p] != EMPTY ==> keys[p] != u;
    forall p | 0 <= p < |after| && after[p] != EMPTY
      ensures Home(after[p], |after|) < |after| && Reachable(after, Home(after[p], |after|), p)
    {
      if p == i {
        ReachableNew(keys, h, u, d);
      } else {
        ReachableAfter(keys, Home(keys[p], |keys|), p, i, u);
      }
    }
    forall k | k in m[u := v] ensures k != EMPTY && k in after {
      if k == u {
        assert after[i] == u;
      } else {
        var p :| 0 <= p < |keys| && keys[p] == k;
        assert after[p] == k;
      }
    }
  }

  /** Inserting a key whose probe sequence ran into a gap. */
  lemma InsertAtGap(keys: seq<nat>, vals: seq<UserFeatures>, m: map<nat, UserFeatures>, u: nat, v: UserFeatures, d: nat)
    requires TableOk(keys) && Represents(keys, vals, m) && u != EMPTY
    requires Home(u, |keys|) < |keys| && d < |keys|
    requires keys[At(Home(u, |keys|), d, |keys|)] == EMPTY && Passed(keys, Home(u, |keys|), u, d)
    ensures var i := At(Home(u, |keys|), d, |keys|);
            u !in m && TableOk(keys[i := u]) && Represents(keys[i := u], vals[i := v], m[u := v])
  {
    AbsentAtGap(keys, Home(u, |keys|), u, d);
    FillGap(keys, vals, m, Home(u, |keys|), u, v, d);
  }

  /** A probe sequence that visits every slot without meeting `u` shows `u` is absent. */
  lemma AbsentAfterAll(keys: seq<nat>, h: nat, u: nat)
    requires h < |keys| && Passed(keys, h, u, |keys|)
    ensures u !in keys
  {
    forall p | 0 <= p < |keys| ensures keys[p] != u {
      assert At(h, Dist(h, p, |keys|), |keys|) == p;
    }
  }

  // -------------------------------------------------------------- the probes --

  /** Walk the probe sequence of `u` to the first slot that is a gap or holds `u`. */
  method Probe(keys: seq<nat>, ghost vals: seq<UserFeatures>, ghost m: map<nat, UserFeatures>, u: nat)
    returns (i: nat, ghost d: nat)
    requires TableOk(keys) && Represents(keys, vals, m) && |m| < |keys|
    ensures Home(u, |keys|) < |keys| && d < |keys| && i == At(Home(u, |keys|), d, |keys|)
    ensures Passed(keys, Home(u, |keys|), u, d)
    ensures keys[i] == EMPTY || keys[i] == u
  {
    HomeInRange(u, |keys|);
    i := Home(u, |keys|);
    ghost var h := i;
    ghost var hole := GapExists(keys, vals, m);
    ghost var gap := Dist(h, hole, |keys|);
    d := 0;
    var probe := 0;
    while probe < |keys|
      invariant probe <= gap < |keys| && i == At(h, probe, |keys|) && keys[At(h, gap, |keys|)] == EMPTY
      invariant Passed(keys, h, u, probe)
      decreases |keys| - probe
    {
      d := probe;
      if keys[i] == EMPTY { return; }
      if keys[i] == u { return; }
      NextWraps(h, probe, |keys|);
      i := Next(i, |keys|);
      probe := probe + 1;
    }
    // A gap is always met first, so running off the end cannot happen.
    assert false;
  }

  method Search(keys: seq<nat>, vals: seq<UserFeatures>, ghost m: map<nat, UserFeatures>, u: nat) returns (r: Lookup)
    requires TableOk(keys) && Represents(keys, vals, m)
    ensures r == if u in m then Found(m[u]) else Missing
  {
    HomeInRange(u, |keys|);
    var i := Home(u, |keys|);
    ghost var h := i;
    var s := 0;
    while s < |keys|
      invariant s <= |keys| && (s < |keys| ==> i == At(h, s, |keys|))
      invariant Passed(keys, h, u, s)
    {
      if keys[i] == EMPTY {
        if u != EMPTY { AbsentAtGap(keys, h, u, s); }
        return Missing;
      }
      if keys[i] == u { return Found(vals[i]); }
      if s + 1 < |keys| { NextWraps(h, s, |keys|); }
      i := Next(i, |keys|);
      s := s + 1;
    }
    AbsentAfterAll(keys, h, u);
    r := Missing;
  }

  /** Walk the probe sequence of `u` to the first gap. */
  method FirstGap(keys: seq<nat>, ghost vals: seq<UserFeatures>, ghost m: map<nat, UserFeatures>, u: nat)
    returns (i: nat, ghost d: nat)
    requires TableOk(keys) && Represents(keys, vals, m) && |m| < |keys|
    ensures Home(u, |keys|) < |keys| && d < |keys| && i == At(Home(u, |keys|), d, |keys|)
    ensures keys[i] == EMPTY && forall e: nat :: e < d ==> keys[At(Home(u, |keys|), e, |keys|)] != EMPTY
  {
    HomeInRange(u, |keys|);
    i := Home(u, |keys|);
    ghost var h := i;
    ghost var hole := GapExists(keys, vals, m);
    ghost var gap := Dist(h, hole, |keys|);
    d := 0;
    while keys[i] != EMPTY
      invariant d <= gap < |keys| && i == At(h, d, |keys|) && keys[At(h, gap, |keys|)] == EMPTY
      invariant forall e: nat :: e < d ==> keys[At(h, e, |keys|)] != EMPTY
      decreases gap - d
    {
      NextWraps(h, d, |keys|);
      i := Next(i, |keys|);
      d := d + 1;
    }
  }

  /** Put a key the table does not hold into the first gap of its probe sequence. */
  method Place(keys: seq<nat>, vals: seq<UserFeatures>, ghost m: map<nat, UserFeatures>, u: nat, v: UserFeatures)
    returns (keys': seq<nat>, vals': seq<UserFeatures>)
    requires TableOk(keys) && Represents(keys, vals, m) && |m| < |keys| && u != EMPTY && u !in m
    ensures |keys'| == |keys| && TableOk(keys') && Represents(keys', vals', m[u := v])
  {
    var i, d := FirstGap(keys, vals, m, u);
    FillGap(keys, vals, m, Home(u, |keys|), u, v, d);
    keys', vals' := keys[i := u], vals[i := v];
  }

  lemma EmptyTable(cap: nat)
    requires PowerOfTwo(cap)
    ensures TableOk(seq(cap, _ => EMPTY)) && Represents(seq(cap, _ => EMPTY), seq(cap, _ => NO_USER), map[])
  {
  }

  lemma PrefixRepresents(keys: seq<nat>, vals: seq<UserFeatures>, j: nat, m: map<nat, UserFeatures>)
    requires Unique(keys) && |keys| == |vals| && j < |keys| && Represents(keys[..j], vals[..j], m)
    ensures keys[j] == EMPTY ==> Represents(keys[..j + 1], vals[..j + 1], m)
    ensures keys[j] != EMPTY ==> keys[j] !in m && Represents(keys[..j + 1], vals[..j + 1], m[keys[j] := vals[j]])
  {
    assert keys[..j + 1] == keys[..j] + [keys[j]] && vals[..j + 1] == vals[..j] + [vals[j]];
    assert keys[j] != EMPTY ==> keys[j] !in keys[..j];
  }

  /** Re-insert every entry of an old table into an empty one of `cap` slots. */
  method Rehash(oldKeys: seq<nat>, oldVals: seq<UserFeatures>, ghost m: map<nat, UserFeatures>, cap: nat)
    returns (keys: seq<nat>, vals: seq<UserFeatures>, size: nat)
    requires Unique(oldKeys) && Represents(oldKeys, oldVals, m) && PowerOfTwo(cap) && |oldKeys| < cap
    ensures |keys| == cap && TableOk(keys) && Represents(keys, vals, m) && size == |m| <= |oldKeys|
  {
    EmptyTable(cap);
    keys, vals, size := seq(cap, _ => EMPTY), seq(cap, _ => NO_USER), 0;
    ghost var done: map<nat, UserFeatures> := map[];
    var j := 0;
    while j < |oldKeys|
      invariant 0 <= j <= |oldKeys| && |keys| == cap && TableOk(keys)
      invariant Represents(keys, vals, done) && size == |done| <= j
      invariant Represents(oldKeys[..j], oldVals[..j], done)
    {
      keys, vals, size, done := Reinsert(oldKeys, oldVals, j, keys, vals, size, done);
      j := j + 1;
    }
    assert oldKeys[..j] == oldKeys && oldVals[..j] == oldVals;
    SameMap(oldKeys, oldVals, m, done);
  }

  /** Carry slot `j` of the old table over, unless it is empty. */
  method Reinsert(oldKeys: seq<nat>, oldVals: seq<UserFeatures>, j: nat,
                  keys: seq<nat>, vals: seq<UserFeatures>, size: nat, ghost done: map<nat, UserFeatures>)
    returns (keys': seq<nat>, vals': seq<UserFeatures>, size': nat, ghost done': map<nat, UserFeatures>)
    requires Unique(oldKeys) && |oldKeys| == |oldVals| && j < |oldKeys| < |keys|
    requires TableOk(keys) && Represents(keys, vals, done) && size == |done| <= j
    requires Represents(oldKeys[..j], oldVals[..j], done)
    ensures |keys'| == |keys| && TableOk(keys') && Represents(keys', vals', done') && size' == |done'| <= j + 1
    ensures Represents(oldKeys[..j + 1], oldVals[..j + 1], done')
  {
    PrefixRepresents(oldKeys, oldVals, j, done);
    keys', vals', size', done' := keys, vals, size, done;
    if oldKeys[j] != EMPTY {
      keys', vals' := Place(keys, vals, done, oldKeys[j], oldVals[j]);
      size', done' := size + 1, done[oldKeys[j] := oldVals[j]];
    }
  }

  lemma SameMap(keys: seq<nat>, vals: seq<UserFeatures>, m: map<nat, UserFeatures>, n: map<nat, UserFeatures>)
    requires Represents(keys, vals, m) && Represents(keys, vals, n)
    ensures m == n
  {
    assert m.Keys == n.Keys;
  }

  // ------------------------------------------------------------------ the map --

  class FlatUserMap {
    var cap: nat
    var size: nat
    var keys: seq<nat>
    var vals: seq<UserFeatures>
    ghost var contents: map<nat, UserFeatures>  // the finite map this table stands for

    /** The counter may be too high, never too low. */
    ghost predicate Valid() reads this {
      && |keys| == cap && Represents(keys, vals, contents) && |contents| <= size <= cap
      && (cap > 0 ==> TableOk(keys))
    }

    constructor ()
      ensures Valid() && contents == map[] && size == 0
    {
      cap, size, keys, vals, contents := 0, 0, [], [], map[];
    }

    method ClearAndReserve(n: int)
      modifies this
      ensures Valid() && contents == map[] && size == 0 && cap >= 1 && cap >= n * 2 + 8
    {
      var c := PowerFrom(n * 2 + 8);
      Reset(c);
    }

    /** An empty table of `c` slots. */
    method Reset(c: nat)
      requires PowerOfTwo(c)
      modifies this
      ensures Valid() && contents == map[] && size == 0 && cap == c
    {
      cap := c;
      EmptyTable(c);
      keys, vals := seq(c, _ => EMPTY), seq(c, _ => NO_USER);
      size, contents := 0, map[];
    }

    /** Doubling the table changes no lookup and leaves room below the load limit. */
    method Grow()
      requires Valid()
      modifies this
      ensures Valid() && contents == old(contents)
      ensures cap == (if old(cap) * 2 < 16 then 16 else old(cap) * 2)
      ensures size == |contents| && size * 4 < cap * 3
    {
      DoublePower(cap);
      cap := if cap * 2 < 16 then 16 else cap * 2;
      keys, vals, size := Rehash(keys, vals, contents, cap);
    }

    /** Keep the load below three quarters before an insert. */
    method MakeRoom()
      requires Valid()
      modifies this
      ensures Valid() && contents == old(contents) && size * 4 < cap * 3
      ensures old(size) == |old(contents)| ==> size == |contents|
      ensures old(cap) > 0 ==> Load(cap, size) == Roomy(Load(old(cap), old(size)), |contents|)
    {
      if cap == 0 { ClearAndReserve(16); }
      if size * 4 >= cap * 3 { Grow(); }
    }

    /** Find the slot of `u`, inserting a default entry if there is none. The reserved key is the one id
        for which this does not hold: it is counted without being stored, so that the counter is exact
        as long as it is never asked for. */
    method Get(u: nat) returns (i: nat)
      requires Valid() && u < TWO32
      modifies this
      ensures Valid() && i < cap == |keys| == |vals| && keys[i] == u
      ensures u != EMPTY ==> contents == old(contents)[u := if u in old(contents) then old(contents)[u] else NO_USER]
      ensures u == EMPTY ==> contents == old(contents) && vals[i] == NO_USER
      ensures old(size) == |old(contents)| ==> (size == |contents| <==> u != EMPTY)
      ensures u == EMPTY && old(cap) > 0 ==>
                Load(cap, size) == AfterReserved(Load(old(cap), old(size)), |contents|, 1)
    {
      MakeRoom();
      ghost var d;
      i, d := Probe(keys, vals, contents, u);
      if keys[i] == EMPTY { Occupy(i, u, d); }
    }

    /** Write a default entry for `u` into the gap its probe ended at. */
    method Occupy(i: nat, u: nat, ghost d: nat)
      requires Valid() && size < cap && TableOk(keys) && Home(u, cap) < cap && d < cap
      requires i == At(Home(u, cap), d, cap) && keys[i] == EMPTY && Passed(keys, Home(u, cap), u, d)
      modifies this
      ensures Valid() && cap == old(cap) == |keys| == |vals| && size == old(size) + 1
      ensures keys[i] == u && vals[i] == NO_USER
      ensures if u != EMPTY then u !in old(contents) && contents == old(contents)[u := NO_USER]
              else contents == old(contents)
    {
      if u != EMPTY {
        InsertAtGap(keys, vals, contents, u, NO_USER, d);
        contents := contents[u := NO_USER];
      } else {
        assert keys[i := u] == keys;
        OverwriteGap(keys, vals, contents, i, NO_USER);
      }
      keys, vals, size := keys[i := u], vals[i := NO_USER], size + 1;
    }

    method Find(u: nat) returns (r: Lookup)
      requires Valid()
      ensures r == if u in contents then Found(contents[u]) else Missing
    {
      if cap == 0 { return Missing; }
      r := Search(keys, vals, contents, u);
    }

    /** Write through the reference `Get` handed out. */
    method Put(i: nat, v: UserFeatures)
      requires Valid() && i < cap && keys[i] != EMPTY
      modifies this`vals, this`contents
      ensures Valid() && contents == old(contents)[keys[i] := v]
    {
      Overwrite(keys, vals, contents, i, v);
      vals, contents := vals[i := v], contents[keys[i] := v];
    }

    /** Ask for the reserved key `n` times. Nothing is stored, but the table grows and grows. */
    method GetReserved(n: nat)
      requires Valid() && cap > 0
      modifies this
      ensures Valid() && contents == old(contents)
      ensures Load(cap, size) == AfterReserved(Load(old(cap), old(size)), |contents|, n)
    {
      for i := 0 to n
        invariant Valid() && contents == old(contents) && cap > 0
        invariant Load(cap, size) == AfterReserved(Load(old(cap), old(size)), |contents|, i)
      {
        var _ := Get(EMPTY);
      }
    }

    /** Record an event against its user. One of the reserved id is lost. */
    method ApplyEvent(d: Delta)
      requires Valid() && d.user < TWO32 && UsersOk(contents)
      modifies this
      ensures Valid() && contents == if d.user != EMPTY then Recorded(old(contents), d) else old(contents)
    {
      var i := Get(d.user);
      if d.user != EMPTY {
        RecordedAfterGet(old(contents), contents, d);
        Overwrite(keys, vals, contents, i, NO_USER);
        Put(i, Remember(vals[i], d).(ctr := 0.0));
      } else {
        OverwriteGap(keys, vals, contents, i, Remember(vals[i], d).(ctr := 0.0));
        vals := vals[i := Remember(vals[i], d).(ctr := 0.0)];
      }
    }
  }

  lemma RecordedAfterGet(m: map<nat, UserFeatures>, n: map<nat, UserFeatures>, d: Delta)
    requires UsersOk(m) && n == m[d.user := if d.user in m then m[d.user] else NO_USER]
    ensures UsersOk(n) && Recorded(m, d) == n[d.user := Remember(n[d.user], d).(ctr := 0.0)]
  {
  }

  ghost predicate UsersOk(m: map<nat, UserFeatures>) {
    forall u :: u in m ==> |m[u].lastItems| == HISTORY && m[u].nLast <= HISTORY
  }

  /** One event appended to its user's row, which starts out empty. */
  ghost function Recorded(m: map<nat, UserFeatures>, d: Delta): (r: map<nat, UserFeatures>)
    requires UsersOk(m)
    ensures UsersOk(r)
  {
    m[d.user := Remember(if d.user in m then m[d.user] else NO_USER, d).(ctr := 0.0)]
  }

  lemma Overwrite(keys: seq<nat>, vals: seq<UserFeatures>, m: map<nat, UserFeatures>, i: nat, v: UserFeatures)
    requires Unique(keys) && Represents(keys, vals, m) && i < |keys| && keys[i] != EMPTY
    ensures keys[i] in m && m[keys[i]] == vals[i] && |m[keys[i] := v]| == |m|
    ensures Represents(keys, vals[i := v], m[keys[i] := v])
  {
    assert m[keys[i] := v].Keys == m.Keys;
  }

  lemma OverwriteGap(keys: seq<nat>, vals: seq<UserFeatures>, m: map<nat, UserFeatures>, i: nat, v: UserFeatures)
    requires Represents(keys, vals, m) && i < |keys| && keys[i] == EMPTY
    ensures Represents(keys, vals[i := v], m)
  {
  }

  // ----------------------------------------------------------- the reserved key --

  /** The load after making room: growing counts what is really stored. */
  function Roomy(l: Load, entries: nat): Load {
    if l.size * 4 >= l.cap * 3 then Load(if l.cap * 2 < 16 then 16 else l.cap * 2, entries) else l
  }

  /** The load after `n` requests for the reserved key. */
  function AfterReserved(l: Load, entries: nat, n: nat): Load {
    if n == 0 then l
    else
      var before := Roomy(AfterReserved(l, entries, n - 1), entries);
      before.(size := before.size + 1)
  }

  lemma {:induction false} UntilFull(l: Load, entries: nat, n: nat)
    requires n > 0 ==> (l.size + n - 1) * 4 < l.cap * 3
    ensures AfterReserved(l, entries, n) == Load(l.cap, l.size + n)
  {
    if n > 0 { UntilFull(l, entries, n - 1); }
  }

  /** Within `cap` requests for the reserved key the table doubles, whatever it holds. */
  lemma ReservedDoubles(l: Load, entries: nat) returns (n: nat)
    requires l.cap >= 8 && entries <= l.size <= l.cap
    ensures n <= l.cap && AfterReserved(l, entries, n) == Load(2 * l.cap, entries + 1)
  {
    var full := (l.cap * 3 + 3) / 4;
    n := if l.size >= full then 0 else full - l.size;
    UntilFull(l, entries, n);
    n := n + 1;
  }

  lemma {:induction false} AfterMore(l: Load, entries: nat, m: nat, n: nat)
    ensures AfterReserved(AfterReserved(l, entries, m), entries, n) == AfterReserved(l, entries, m + n)
  {
    if n > 0 { AfterMore(l, entries, m, n - 1); }
  }

  /** So a table of any content outgrows every bound by such requests alone. */
  lemma {:induction false} ReservedOutgrows(l: Load, entries: nat, bound: nat) returns (n: nat)
    requires l.cap >= 8 && entries <= l.size <= l.cap && entries < l.cap
    ensures AfterReserved(l, entries, n).cap > bound
    decreases bound - l.cap
  {
    n := 0;
    if l.cap <= bound {
      var m := ReservedDoubles(l, entries);
      var more := ReservedOutgrows(AfterReserved(l, entries, m), entries, bound);
      AfterMore(l, entries, m, more);
      n := m + more;
    }
  }

  /** The first power of two that is large enough. */
  method PowerFrom(least: int) returns (c: nat)
    ensures PowerOfTwo(c) && c >= 1 && c >= least
  {
    c := 1;
    while c < least
      invariant PowerOfTwo(c) && c >= 1
      decreases least - c
    {
      TwicePower(c);
      c := c * 2;
    }
  }

  lemma TwicePower(c: nat)
    requires PowerOfTwo(c) && c >= 1
    ensures PowerOfTwo(c * 2)
  {
    assert c * 2 / 2 == c;
  }

  lemma DoublePower(n: nat)
    requires n == 0 || PowerOfTwo(n)
    ensures PowerOfTwo(if n * 2 < 16 then 16 else n * 2)
  {
    assert PowerOfTwo(2) && PowerOfTwo(4) && PowerOfTwo(8) && PowerOfTwo(16);
    assert (n * 2) / 2 == n;
  }
}
