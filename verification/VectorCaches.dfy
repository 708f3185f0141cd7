/** The least-recently-used cache of folded-in preference vectors. */
module VectorCaches {
  import opened Basics

  /** Cache keys: a user at a preference revision. The model digest is the same for all. */
  datatype Key = Key(user: nat, revision: nat)

  /** What folding in preferences yields: nothing to go by, or a query vector. */
  datatype Vector = NoTaste | Taste(coords: seq<real>)

  datatype Entry = Entry(key: Key, vector: Vector)

  const CAPACITY: nat := 512

  ghost predicate UniqueKeys(c: seq<Entry>) {
    forall i, j :: 0 <= i < j < |c| ==> c[i].key != c[j].key
  }

  /** Where a key stands, least recently used first. */
  function Find(c: seq<Entry>, key: Key): (r: Option<nat>)
    ensures r.Some? ==> r.value < |c| && c[r.value].key == key
    ensures r.None? ==> forall i :: 0 <= i < |c| ==> c[i].key != key
  {
    if c == [] then None
    else if c[|c| - 1].key == key then Some(|c| - 1)
    else Find(c[..|c| - 1], key)
  }

  function Without(c: seq<Entry>, i: nat): seq<Entry>
    requires i < |c|
  {
    c[..i] + c[i + 1..]
  }

  /** A lookup: the vector, and the cache with the key moved to the recent end. */
  function Get(c: seq<Entry>, key: Key): (seq<Entry>, Option<Vector>) {
    match Find(c, key)
    case None => (c, None)
    case Some(i) => (Without(c, i) + [c[i]], Some(c[i].vector))
  }

  /** Drop from the old end what exceeds the capacity. */
  function Trim(c: seq<Entry>): seq<Entry> {
    if |c| > CAPACITY then c[|c| - CAPACITY..] else c
  }

  /** An insertion: the key holds the vector and is the most recent; the oldest key goes if there is no room. */
  function Put(c: seq<Entry>, key: Key, v: Vector): seq<Entry> {
    match Find(c, key)
    case None => Trim(c + [Entry(key, v)])
    case Some(i) => Trim(Without(c, i) + [Entry(key, v)])
  }

  ghost predicate Holds(c: seq<Entry>, e: Entry) { exists i :: 0 <= i < |c| && c[i] == e }

  lemma WithoutHolds(c: seq<Entry>, i: nat)
    requires UniqueKeys(c) && i < |c|
    ensures UniqueKeys(Without(c, i)) && |Without(c, i)| == |c| - 1
    ensures forall e :: Holds(Without(c, i), e) <==> Holds(c, e) && e.key != c[i].key
  {
    var w := Without(c, i);
    assert forall j :: 0 <= j < |w| ==> w[j] == c[if j < i then j else j + 1];
    forall e | Holds(c, e) && e.key != c[i].key ensures Holds(w, e) {
      var j :| 0 <= j < |c| && c[j] == e;
      assert w[if j < i then j else j - 1] == e;
    }
  }

  lemma AppendHolds(c: seq<Entry>, e: Entry)
    requires UniqueKeys(c) && forall d :: Holds(c, d) ==> d.key != e.key
    ensures UniqueKeys(c + [e])
    ensures forall d :: Holds(c + [e], d) <==> Holds(c, d) || d == e
  {
    var w := c + [e];
    assert w[|c|] == e;
    forall i | 0 <= i < |c| ensures w[i].key != e.key { assert Holds(c, c[i]); }
    forall d | Holds(c, d) ensures Holds(w, d) {
      var i :| 0 <= i < |c| && c[i] == d;
      assert w[i] == d;
    }
  }

  /** A lookup returns what the cache holds for the key, if anything, and keeps every entry. */
  lemma GetKeeps(c: seq<Entry>, key: Key)
    requires UniqueKeys(c)
    ensures UniqueKeys(Get(c, key).0) && |Get(c, key).0| == |c|
    ensures forall e :: Holds(Get(c, key).0, e) <==> Holds(c, e)
    ensures Get(c, key).1.Some? ==> Holds(c, Entry(key, Get(c, key).1.value))
    ensures Get(c, key).1.None? ==> forall e :: Holds(c, e) ==> e.key != key
  {
    var at := Find(c, key);
    if at.Some? {
      var i := at.value;
      WithoutHolds(c, i);
      AppendHolds(Without(c, i), c[i]);
      assert Holds(c, c[i]);
      assert c[i] == Entry(key, c[i].vector);
      forall e | Holds(c, e) && e.key == key ensures e == c[i] {
        var j :| 0 <= j < |c| && c[j] == e;
      }
    }
  }

  lemma TrimHolds(c: seq<Entry>)
    requires UniqueKeys(c)
    ensures UniqueKeys(Trim(c)) && |Trim(c)| == if |c| > CAPACITY then CAPACITY else |c|
    ensures forall e :: Holds(Trim(c), e) ==> Holds(c, e)
    ensures |c| > 0 ==> Holds(Trim(c), c[|c| - 1])
  {
    var w := Trim(c);
    var off := |c| - |w|;
    assert w == c[off..];
    forall e | Holds(w, e) ensures Holds(c, e) {
      var i :| 0 <= i < |w| && w[i] == e;
      assert c[off + i] == e;
    }
    if |c| > 0 { assert w[|w| - 1] == c[|c| - 1]; }
  }

  /** An insertion adds one entry, drops at most the oldest, never exceeds the capacity, and keeps
      everything else. */
  lemma PutKeeps(c: seq<Entry>, key: Key, v: Vector)
    requires UniqueKeys(c) && |c| <= CAPACITY
    ensures UniqueKeys(Put(c, key, v)) && |Put(c, key, v)| <= CAPACITY
    ensures Holds(Put(c, key, v), Entry(key, v))
    ensures forall e :: Holds(Put(c, key, v), e) ==> e == Entry(key, v) || (Holds(c, e) && e.key != key)
    ensures forall e :: Holds(c, e) && e.key != key && e != c[0] ==> Holds(Put(c, key, v), e)
    ensures |c| < CAPACITY || Find(c, key).Some? ==>
              forall e :: Holds(c, e) && e.key != key ==> Holds(Put(c, key, v), e)
  {
    var at := Find(c, key);
    var base := if at.Some? then Without(c, at.value) else c;
    if at.Some? { WithoutHolds(c, at.value); }
    AppendHolds(base, Entry(key, v));
    var all := base + [Entry(key, v)];
    TrimHolds(all);
    assert all[|all| - 1] == Entry(key, v);
    if |all| > CAPACITY {
      assert Trim(all) == c[1..] + [Entry(key, v)];
      forall e | Holds(c, e) && e != c[0] ensures Holds(Trim(all), e) {
        var i :| 0 <= i < |c| && c[i] == e;
        assert Trim(all)[i - 1] == e;
      }
    }
  }

  /** Recency is the order of the list: a hit and an insertion put their key last and keep the others in
      their order; an insertion into a full cache drops the first of 512. */
  lemma RecencyOrder(c: seq<Entry>, key: Key, v: Vector, i: nat)
    requires UniqueKeys(c) && |c| <= 512 && (if i < |c| then c[i].key == key else forall e :: e in c ==> e.key != key)
    ensures i < |c| ==> Get(c, key) == (c[..i] + c[i + 1..] + [c[i]], Some(c[i].vector))
    ensures i < |c| ==> Put(c, key, v) == c[..i] + c[i + 1..] + [Entry(key, v)]
    ensures i >= |c| ==> Get(c, key) == (c, None)
    ensures i >= |c| && |c| < 512 ==> Put(c, key, v) == c + [Entry(key, v)]
    ensures i >= |c| && |c| == 512 ==> Put(c, key, v) == c[1..] + [Entry(key, v)]
  {
    if i < |c| {
      FindUnique(c, i);
    } else {
      FindNone(c, key);
    }
  }

  lemma FindNone(c: seq<Entry>, key: Key)
    requires forall e :: e in c ==> e.key != key
    ensures Find(c, key) == None
  {
  }

  /** Every cached vector is the fold-in of the preferences its key stands for. */
  ghost predicate Faithful(c: seq<Entry>, prefsAt: Key -> map<nat, int>, foldIn: map<nat, int> -> Vector) {
    forall e :: Holds(c, e) ==> e.vector == foldIn(prefsAt(e.key))
  }

  class VectorCache {
    var entries: seq<Entry>

    ghost predicate Valid() reads this { UniqueKeys(entries) && |entries| <= CAPACITY }

    constructor ()
      ensures Valid() && entries == []
    {
      entries := [];
    }

    method MoveToEnd(i: nat)
      requires Valid() && i < |entries|
      modifies this
      ensures Valid() && entries == Without(old(entries), i) + [old(entries)[i]]
    {
      GetKeeps(entries, entries[i].key);
      FindUnique(entries, i);
      entries := Without(entries, i) + [entries[i]];
    }

    /** Look up, or fold in outside the lock and insert. On a faithful cache the result equals
        folding in the preferences again, hit or miss, and the cache stays faithful. */
    method Vector(user: nat, revision: nat, preferences: map<nat, int>, foldIn: map<nat, int> -> Vector,
                  ghost prefsAt: Key -> map<nat, int>) returns (v: Vector)
      requires Valid() && Faithful(entries, prefsAt, foldIn) && prefsAt(Key(user, revision)) == preferences
      modifies this
      ensures Valid() && Faithful(entries, prefsAt, foldIn)
      ensures v == foldIn(preferences)
      ensures Holds(entries, Entry(Key(user, revision), v))
      ensures forall e :: Holds(entries, e) ==> Holds(old(entries), e) || e.key == Key(user, revision)
      ensures entries == if Get(old(entries), Key(user, revision)).1.Some? then Get(old(entries), Key(user, revision)).0
                         else Put(old(entries), Key(user, revision), v)
    {
      var key := Key(user, revision);
      var at := Find(entries, key);
      GetKeeps(entries, key);
      if at.Some? {
        v := entries[at.value].vector;
        MoveToEnd(at.value);
        return;
      }
      v := foldIn(preferences);
      PutKeeps(entries, key, v);
      entries := entries + [Entry(key, v)];
      while |entries| > CAPACITY
        invariant |entries| <= CAPACITY + 1 && Trim(entries) == Put(old(entries), key, v)
      {
        entries := entries[1..];
      }
    }
  }

  lemma FindUnique(c: seq<Entry>, i: nat)
    requires UniqueKeys(c) && i < |c|
    ensures Find(c, c[i].key) == Some(i)
  {
  }
}
