/** The feature table a snapshot publishes, and what a whole history of deltas leaves in it. */
module FeatureTables {

  const HISTORY := 8

  datatype UserFeatures = UserFeatures(ctr: real, recency: real, lastItems: seq<nat>, nLast: nat, lastEventMs: nat)

  datatype ItemFeatures = ItemFeatures(ctr: real, views: nat, likes: nat, lastEventMs: nat)

  datatype Delta = Delta(eventMs: nat, user: nat, item: nat, kind: nat)

  datatype Table = Table(items: seq<ItemFeatures>, users: seq<UserFeatures>, generation: nat, watermarkMs: nat)

  const NO_USER := UserFeatures(0.0, 0.0, [0, 0, 0, 0, 0, 0, 0, 0], 0, 0)
  const NO_ITEM := ItemFeatures(0.0, 0, 0, 0)

  function Fresh(nItems: nat, nUsers: nat): Table {
    Table(seq(nItems, _ => NO_ITEM), seq(if nUsers < 1 then 1 else nUsers, _ => NO_USER), 0, 0)
  }

  ghost predicate WellFormed(t: Table) {
    && |t.users| > 0
    && forall u :: 0 <= u < |t.users| ==> |t.users[u].lastItems| == HISTORY && t.users[u].nLast <= HISTORY
  }

  function Remember(u: UserFeatures, d: Delta): UserFeatures
    requires |u.lastItems| == HISTORY && u.nLast <= HISTORY
  {
    var seen := u.(lastEventMs := d.eventMs, recency := 1.0);
    if u.nLast < HISTORY
    then seen.(lastItems := u.lastItems[u.nLast := d.item], nLast := u.nLast + 1)
    else seen.(lastItems := u.lastItems[1..] + [d.item])
  }

  function Count(f: ItemFeatures, d: Delta): ItemFeatures {
    var likes := if d.kind == 1 then f.likes + 1 else f.likes;
    ItemFeatures(likes as real / (f.views + 1) as real, f.views + 1, likes, d.eventMs)
  }

  function ApplyDelta(t: Table, d: Delta): (r: Table)
    requires WellFormed(t)
    ensures WellFormed(r)
  {
    var row := d.user % |t.users|;
    t.(users := t.users[row := Remember(t.users[row], d)],
       items := if d.item < |t.items| then t.items[d.item := Count(t.items[d.item], d)] else t.items,
       watermarkMs := if d.eventMs > t.watermarkMs then d.eventMs else t.watermarkMs)
  }

  function Fold(t: Table, ds: seq<Delta>): (r: Table)
    requires WellFormed(t)
    ensures WellFormed(r)
    decreases |ds|
  {
    if ds == [] then t else ApplyDelta(Fold(t, ds[..|ds| - 1]), ds[|ds| - 1])
  }

  // ------------------------------------------------ what a fold amounts to --

  function Touching(ds: seq<Delta>, row: nat, users: nat): (r: seq<nat>)
    requires users > 0
  {
    if ds == [] then [] else
      var front := Touching(ds[..|ds| - 1], row, users);
      if ds[|ds| - 1].user % users == row then front + [ds[|ds| - 1].item] else front
  }

  function Matching(ds: seq<Delta>, item: nat, likesOnly: bool): nat {
    if ds == [] then 0 else
      var d := ds[|ds| - 1];
      Matching(ds[..|ds| - 1], item, likesOnly) + if d.item == item && (likesOnly ==> d.kind == 1) then 1 else 0
  }

  function Newest(ds: seq<Delta>): nat {
    if ds == [] then 0 else
      var before := Newest(ds[..|ds| - 1]);
      if ds[|ds| - 1].eventMs > before then ds[|ds| - 1].eventMs else before
  }

  function LastTouch(ds: seq<Delta>, item: nat): nat {
    if ds == [] then 0 else
      if ds[|ds| - 1].item == item then ds[|ds| - 1].eventMs else LastTouch(ds[..|ds| - 1], item)
  }

  function LastOf(s: seq<nat>, n: nat): seq<nat> {
    if |s| <= n then s else s[|s| - n..]
  }

  /** After any history of deltas a user row holds its last eight items in arrival order. */
  lemma {:induction false} FoldUsers(nItems: nat, nUsers: nat, ds: seq<Delta>, row: nat)
    requires row < |Fresh(nItems, nUsers).users|
    ensures var t := Fold(Fresh(nItems, nUsers), ds);
            && |t.users| == |Fresh(nItems, nUsers).users|
            && t.users[row].lastItems[..t.users[row].nLast] == LastOf(Touching(ds, row, |t.users|), HISTORY)
    decreases |ds|
  {
    if ds != [] {
      var front, d := ds[..|ds| - 1], ds[|ds| - 1];
      FoldUsers(nItems, nUsers, front, row);
      var u := Fold(Fresh(nItems, nUsers), front).users[row];
      var v := Fold(Fresh(nItems, nUsers), ds).users[row];
      if d.user % |Fresh(nItems, nUsers).users| == row {
        assert v == Remember(u, d);
        if u.nLast < HISTORY {
          assert v.lastItems[..v.nLast] == u.lastItems[..u.nLast] + [d.item];
        } else {
          assert v.lastItems[..v.nLast] == u.lastItems[..u.nLast][1..] + [d.item];
        }
      }
    }
  }

  /** The time of the last delta of a row's users. */
  function LastSeen(ds: seq<Delta>, row: nat, users: nat): nat
    requires users > 0
  {
    if ds == [] then 0
    else if ds[|ds| - 1].user % users == row then ds[|ds| - 1].eventMs else LastSeen(ds[..|ds| - 1], row, users)
  }

  /** A user row also holds the time of its last delta, and its recency says whether there was one; its
      click rate is not touched. */
  lemma {:induction false} FoldUserRest(nItems: nat, nUsers: nat, ds: seq<Delta>, row: nat)
    requires row < |Fresh(nItems, nUsers).users|
    ensures var t := Fold(Fresh(nItems, nUsers), ds);
            && |t.users| == |Fresh(nItems, nUsers).users| && t.users[row].ctr == 0.0
            && t.users[row].lastEventMs == LastSeen(ds, row, |t.users|)
            && t.users[row].recency == if Touching(ds, row, |t.users|) == [] then 0.0 else 1.0
    decreases |ds|
  {
    if ds != [] {
      var front, d := ds[..|ds| - 1], ds[|ds| - 1];
      FoldUserRest(nItems, nUsers, front, row);
      assert d.user % |Fresh(nItems, nUsers).users| != row ==>
               Fold(Fresh(nItems, nUsers), ds).users[row] == Fold(Fresh(nItems, nUsers), front).users[row];
    }
  }

  /** After any history an item row counts exactly the deltas that named it, and the
      watermark is the newest event time. */
  lemma {:induction false} FoldItems(nItems: nat, nUsers: nat, ds: seq<Delta>, item: nat)
    requires item < nItems
    ensures var t := Fold(Fresh(nItems, nUsers), ds);
            && |t.items| == nItems && t.watermarkMs == Newest(ds)
            && t.items[item].views == Matching(ds, item, false)
            && t.items[item].likes == Matching(ds, item, true) <= t.items[item].views
            && t.items[item].lastEventMs == LastTouch(ds, item)
            && Ratio(t.items[item])
    decreases |ds|
  {
    if ds != [] {
      var front, d := ds[..|ds| - 1], ds[|ds| - 1];
      FoldItems(nItems, nUsers, front, item);
      var before := Fold(Fresh(nItems, nUsers), front).items[item];
      CountRatio(before, d);
      assert Fold(Fresh(nItems, nUsers), ds).items[item] == if d.item == item then Count(before, d) else before;
    }
  }

  /** The click-through rate is likes over views, and zero before the first view. */
  ghost predicate Ratio(f: ItemFeatures) {
    if f.views == 0 then f.ctr == 0.0 else f.ctr * f.views as real == f.likes as real
  }

  lemma CountRatio(f: ItemFeatures, d: Delta)
    ensures Ratio(Count(f, d))
  {
    var c := Count(f, d);
    var v, l := c.views as real, c.likes as real;
    assert c.ctr == l / v && v > 0.0;
    assert (l / v) * v == l;
  }

  // ------------------------------------------------------- the mutable table --

  /** The table the ingest thread updates in place. */
  class FeatureTable {
    var items: seq<ItemFeatures>
    var users: seq<UserFeatures>
    var generation: nat
    var watermarkMs: nat

    ghost function View(): Table reads this {
      Table(items, users, generation, watermarkMs)
    }

    constructor (nItems: nat, nUsers: nat)
      ensures View() == Fresh(nItems, nUsers) && WellFormed(View())
    {
      items := seq(nItems, _ => NO_ITEM);
      users := seq(if nUsers < 1 then 1 else nUsers, _ => NO_USER);
      generation, watermarkMs := 0, 0;
    }

    method Apply(d: Delta)
      requires WellFormed(View())
      modifies this
      ensures View() == ApplyDelta(old(View()), d)
    {
      if |users| > 0 {
        var row := d.user % |users|;
        var uf := users[row];
        uf := uf.(lastEventMs := d.eventMs);
        if uf.nLast < HISTORY {
          uf := uf.(lastItems := uf.lastItems[uf.nLast := d.item], nLast := uf.nLast + 1);
        } else {
          ghost var before := uf.lastItems;
          var k := 0;
          while k < HISTORY - 1
            invariant 0 <= k <= HISTORY - 1 && |uf.lastItems| == HISTORY
            invariant uf == old(users)[row].(lastEventMs := d.eventMs, lastItems := uf.lastItems)
            invariant forall j :: 0 <= j < k ==> uf.lastItems[j] == before[j + 1]
            invariant forall j :: k <= j < HISTORY ==> uf.lastItems[j] == before[j]
          {
            uf := uf.(lastItems := uf.lastItems[k := uf.lastItems[k + 1]]);
            k := k + 1;
          }
          uf := uf.(lastItems := uf.lastItems[HISTORY - 1 := d.item]);
          assert uf.lastItems == before[1..] + [d.item];
        }
        users := users[row := uf.(recency := 1.0)];
      }
      if d.item < |items| {
        var f := items[d.item];
        f := f.(lastEventMs := d.eventMs, views := f.views + 1);
        if d.kind == 1 { f := f.(likes := f.likes + 1); }
        f := f.(ctr := if f.views != 0 then f.likes as real / f.views as real else 0.0);
        items := items[d.item := f];
      }
      if d.eventMs > watermarkMs { watermarkMs := d.eventMs; }
    }
  }
}
