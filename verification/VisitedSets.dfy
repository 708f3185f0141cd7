/** The epoch-stamped visited set a search reuses from query to query. */
module VisitedSets {

  /** Epochs are 32-bit: the counter wraps to zero after this many queries. */
  const EPOCHS: nat := 0x1_0000_0000

  class VisitedSet {
    var stamp: seq<nat>
    var cur: nat

    /** No cell carries a stamp of a later epoch. */
    ghost predicate Valid() reads this {
      cur < EPOCHS && forall i :: 0 <= i < |stamp| ==> stamp[i] <= cur
    }

    /** The nodes marked in the current epoch. */
    ghost predicate Marked(i: nat) reads this {
      i < |stamp| && stamp[i] == cur
    }

    /** The set holds exactly the nodes of `s`, and has a cell for each of 0 .. n - 1. */
    ghost predicate Holds(s: set<nat>, n: nat) reads this {
      Valid() && |stamp| >= n && forall i :: Marked(i) <==> i in s
    }

    constructor ()
      ensures Valid() && stamp == [] && cur == 0
    {
      stamp, cur := [], 0;
    }

    /** Grow to `n` cells; a set that is large enough already is left alone. */
    method Resize(n: nat)
      requires Valid()
      modifies this
      ensures Valid() && |stamp| >= n && |stamp| >= |old(stamp)|
      ensures |old(stamp)| >= n ==> stamp == old(stamp) && cur == old(cur)
    {
      if |stamp| < n {
        stamp := seq(n, _ => 0);
        cur := 0;
      }
    }

    /** Empty the set. It is empty afterwards even when the epoch counter wraps and
        stamps written 2^32 epochs ago would come back to life. */
    method NextEpoch()
      requires Valid()
      modifies this
      ensures Valid() && |stamp| == |old(stamp)| && 1 <= cur
      ensures forall i :: !Marked(i)
      ensures old(cur) + 1 < EPOCHS ==> stamp == old(stamp)
    {
      cur := (cur + 1) % EPOCHS;
      if cur == 0 {
        stamp := seq(|stamp|, _ => 0);
        cur := 1;
      }
    }

    method TestAndSet(i: nat) returns (seen: bool)
      requires Valid() && i < |stamp|
      modifies this
      ensures Valid() && |stamp| == |old(stamp)| && cur == old(cur)
      ensures seen <==> old(Marked(i))
      ensures forall x :: Marked(x) <==> old(Marked(x)) || x == i
    {
      if stamp[i] == cur { return true; }
      stamp := stamp[i := cur];
      return false;
    }
  }
}
