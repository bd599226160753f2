/** Which generations a prune keeps: the latest few, the newest of every account, and pins. */
module Retention {
  import opened Words

  type Id = nat

  /** A ready generation: what its manifest records and the rows it commits to. */
  datatype Generation = Generation(
    accounts: set<Address>, number: nat, createdAt: nat, accountRows: set<nat>, storageRows: set<nat>)

  /** g is listed before h: a later block, or a later publication of the same block. */
  predicate Newer(g: Generation, h: Generation) {
    g.number > h.number || (g.number == h.number && g.createdAt > h.createdAt)
  }

  predicate AtLeast(g: Generation, h: Generation) {
    !Newer(h, g)
  }

  /** A listing of the ready generations, newest first; the order of ties is the database's. */
  ghost predicate Listing(records: seq<Id>, ready: map<Id, Generation>) {
    && (forall i :: 0 <= i < |records| ==> records[i] in ready)
    && (forall id :: id in ready ==> id in records)
    && (forall i, j :: 0 <= i < j < |records| ==> records[i] != records[j])
    && (forall i, j :: 0 <= i < j < |records| ==> AtLeast(ready[records[i]], ready[records[j]]))
  }

  /** The i-th generation is the first listed one that holds account a. */
  predicate FirstWith(records: seq<Id>, ready: map<Id, Generation>, i: nat, a: Address)
    requires i < |records| && forall j :: 0 <= j < |records| ==> records[j] in ready
  {
    a in ready[records[i]].accounts && forall j :: 0 <= j < i ==> a !in ready[records[j]].accounts
  }

  ghost predicate KeptBecause(records: seq<Id>, ready: map<Id, Generation>, keepLatest: nat, pinned: set<Id>, id: Id)
    requires forall j :: 0 <= j < |records| ==> records[j] in ready
  {
    || id in pinned
    || exists i ::
         0 <= i < |records| && records[i] == id && (i < keepLatest || exists a :: FirstWith(records, ready, i, a))
  }

  datatype Plan = Plan(keep: set<Id>, remove: set<Id>)

  /** The first listed generation of every account. */
  method LatestForAccount(records: seq<Id>, ready: map<Id, Generation>) returns (latest: map<Address, Id>)
    requires forall j :: 0 <= j < |records| ==> records[j] in ready
    ensures forall j, a :: 0 <= j < |records| && a in ready[records[j]].accounts ==> a in latest
    ensures forall a :: a in latest ==>
            exists j :: 0 <= j < |records| && records[j] == latest[a] && FirstWith(records, ready, j, a)
  {
    latest := map[];
    for i := 0 to |records|
      invariant forall j, a :: 0 <= j < i && a in ready[records[j]].accounts ==> a in latest
      invariant forall a :: a in latest ==>
                exists j :: 0 <= j < i && records[j] == latest[a] && FirstWith(records, ready, j, a)
    {
      var accounts := ready[records[i]].accounts;
      forall a | a in accounts && a !in latest ensures FirstWith(records, ready, i, a) {
      }
      latest := map a | a in latest.Keys + accounts :: if a in latest then latest[a] else records[i];
    }
  }

  /** The keep set is exactly: the first keepLatest, the first of every account, the pins;
      everything else that has a partition goes. A missing pinned generation stops retention. */
  method PlanRetention(records: seq<Id>, ready: map<Id, Generation>, keepLatest: nat, pinned: set<Id>,
                       partitions: set<Id>)
    returns (r: Result<Plan>)
    requires Listing(records, ready)
    ensures r.Ok? <==> keepLatest >= 1 && pinned <= ready.Keys
    ensures r.Ok? ==> forall id :: id in r.value.keep <==> KeptBecause(records, ready, keepLatest, pinned, id)
    ensures r.Ok? ==> r.value.remove == partitions - r.value.keep
  {
    if keepLatest < 1 {
      return Err("keep_latest must be at least one");
    }
    var latest := LatestForAccount(records, ready);
    if !(pinned <= ready.Keys) {
      return Err("a pinned checkpoint is missing; retention stopped");
    }
    var first := set i | 0 <= i < |records| && i < keepLatest :: records[i];
    forall i, a | 0 <= i < |records| && FirstWith(records, ready, i, a) ensures records[i] in latest.Values {
      assert a in latest;
      var j :| 0 <= j < |records| && records[j] == latest[a] && FirstWith(records, ready, j, a);
      assert i == j;
    }
    var keep := first + latest.Values + pinned;
    return Ok(Plan(keep, partitions - keep));
  }

  // ---------------------------------------------------------------- what a plan guarantees

  /** Every account of a ready generation keeps a generation that is at least as new. */
  lemma {:induction false} KeepsNewest(records: seq<Id>, ready: map<Id, Generation>, keepLatest: nat, pinned: set<Id>,
                                       i: nat, a: Address)
    requires Listing(records, ready) && i < |records| && a in ready[records[i]].accounts
    ensures exists id | id in ready && KeptBecause(records, ready, keepLatest, pinned, id) ::
      a in ready[id].accounts && AtLeast(ready[id], ready[records[i]])
    decreases i
  {
    if FirstWith(records, ready, i, a) {
      assert KeptBecause(records, ready, keepLatest, pinned, records[i]);
    } else {
      var j :| 0 <= j < i && a in ready[records[j]].accounts;
      KeepsNewest(records, ready, keepLatest, pinned, j, a);
    }
  }

  /** Listings are in descending order of block number, and of publication time at equal numbers. */
  lemma ListedByNumber(records: seq<Id>, ready: map<Id, Generation>, i: nat, j: nat)
    requires Listing(records, ready) && i < j < |records|
    ensures var g, h := ready[records[i]], ready[records[j]];
            g.number > h.number || (g.number == h.number && g.createdAt >= h.createdAt)
  {
    assert AtLeast(ready[records[i]], ready[records[j]]);
  }

  /** The generation of greatest block number among those that hold an account, the last published
      one at that number, is kept. */
  lemma GreatestIsKept(records: seq<Id>, ready: map<Id, Generation>, keepLatest: nat, pinned: set<Id>, id: Id,
                       a: Address)
    requires Listing(records, ready) && id in ready && a in ready[id].accounts
    requires forall x :: x in ready && x != id && a in ready[x].accounts ==>
             ready[x].number < ready[id].number
             || (ready[x].number == ready[id].number && ready[x].createdAt < ready[id].createdAt)
    ensures KeptBecause(records, ready, keepLatest, pinned, id)
  {
    var i :| 0 <= i < |records| && records[i] == id;
    forall j | 0 <= j < i ensures a !in ready[records[j]].accounts { ListedByNumber(records, ready, j, i); }
    assert FirstWith(records, ready, i, a);
  }

  /** Whatever a plan does not keep is superseded, account by account, by a kept generation of a block
      number at least as great, published no earlier at the same number. */
  lemma RemovedIsSuperseded(records: seq<Id>, ready: map<Id, Generation>, keepLatest: nat, pinned: set<Id>, id: Id,
                            a: Address)
    returns (x: Id)
    requires Listing(records, ready) && id in ready && a in ready[id].accounts
    requires !KeptBecause(records, ready, keepLatest, pinned, id)
    ensures x in ready && x != id && a in ready[x].accounts && KeptBecause(records, ready, keepLatest, pinned, x)
    ensures ready[x].number > ready[id].number
            || (ready[x].number == ready[id].number && ready[x].createdAt >= ready[id].createdAt)
  {
    var i :| 0 <= i < |records| && records[i] == id;
    KeepsNewest(records, ready, keepLatest, pinned, i, a);
    x :| x in ready && KeptBecause(records, ready, keepLatest, pinned, x) && a in ready[x].accounts
      && AtLeast(ready[x], ready[id]);
  }

  /** The ready generations of a greater number than id's, or published later at that number. */
  function After(ready: map<Id, Generation>, id: Id): set<Id>
    requires id in ready
  {
    set x | x in ready && (ready[x].number > ready[id].number
                           || (ready[x].number == ready[id].number && ready[x].createdAt > ready[id].createdAt))
  }

  /** What a plan keeps for another reason than a pin is among the latest few or the latest for some
      account: the rest goes. */
  lemma KeptIsRecent(records: seq<Id>, ready: map<Id, Generation>, keepLatest: nat, pinned: set<Id>, id: Id)
    requires Listing(records, ready) && id in ready && id !in pinned
    requires KeptBecause(records, ready, keepLatest, pinned, id)
    ensures |After(ready, id)| < keepLatest
            || exists a :: a in ready[id].accounts && forall x :: x in After(ready, id) ==> a !in ready[x].accounts
  {
    var i :| 0 <= i < |records| && records[i] == id
      && (i < keepLatest || exists a :: FirstWith(records, ready, i, a));
    forall x | x in After(ready, id) ensures exists j :: 0 <= j < i && records[j] == x {
      var j :| 0 <= j < |records| && records[j] == x;
    }
    if i < keepLatest {
      Preceding(records, i, After(ready, id));
    } else {
      var a :| FirstWith(records, ready, i, a);
      assert a in ready[id].accounts && forall x :: x in After(ready, id) ==> a !in ready[x].accounts;
    }
  }

  lemma Preceding(records: seq<Id>, i: nat, s: set<Id>)
    requires i <= |records| && forall x :: x in s ==> exists j :: 0 <= j < i && records[j] == x
    ensures |s| <= i
  {
    var front := set j | 0 <= j < |records[..i]| :: records[..i][j];
    forall x | x in s ensures x in front {
      var j :| 0 <= j < i && records[j] == x;
      assert records[..i][j] == x;
    }
    SeqCount(records[..i]);
    Smaller(s, front);
  }

  lemma {:induction false} Smaller(s: set<Id>, t: set<Id>)
    requires s <= t
    ensures |s| <= |t|
  {
    if s != {} {
      var x :| x in s;
      Smaller(s - {x}, t - {x});
    }
  }

  ghost predicate DistinctRanks(ready: map<Id, Generation>) {
    forall x, y :: x in ready && y in ready && x != y ==> Newer(ready[x], ready[y]) || Newer(ready[y], ready[x])
  }

  lemma {:induction false} DistinctCount(xs: seq<Id>, s: set<Id>)
    requires forall i, j :: 0 <= i < j < |xs| ==> xs[i] != xs[j]
    requires forall i :: 0 <= i < |xs| ==> xs[i] in s
    ensures |xs| <= |s|
  {
    if xs != [] { DistinctCount(xs[..|xs| - 1], s - {xs[|xs| - 1]}); }
  }

  lemma {:induction false} SeqCount(xs: seq<Id>)
    ensures |set i | 0 <= i < |xs| :: xs[i]| <= |xs|
  {
    if xs != [] {
      var all, front := set i | 0 <= i < |xs| :: xs[i], xs[..|xs| - 1];
      var fewer := set i | 0 <= i < |front| :: front[i];
      SeqCount(front);
      assert all == fewer + {xs[|xs| - 1]};
    }
  }

  /** Removing other generations never moves a kept one down the listing. */
  lemma PositionOnlyRises(records: seq<Id>, ready: map<Id, Generation>, after: seq<Id>, rest: map<Id, Generation>,
                          i: nat, j: nat)
    requires Listing(records, ready) && DistinctRanks(ready) && Listing(after, rest)
    requires forall id :: id in rest ==> id in ready && rest[id] == ready[id]
    requires i < |records| && j < |after| && records[i] == after[j]
    ensures j <= i
    ensures forall n :: 0 <= n < j ==> exists m :: 0 <= m < i && records[m] == after[n]
  {
    forall n | 0 <= n < j ensures exists m :: 0 <= m < i && records[m] == after[n] {
      assert AtLeast(rest[after[n]], rest[after[j]]) && after[n] != after[j];
      assert after[n] in records;
      var m :| 0 <= m < |records| && records[m] == after[n];
    }
    var s := set m | 0 <= m < |records[..i]| :: records[..i][m];
    forall n | 0 <= n < j ensures after[..j][n] in s {
      var m :| 0 <= m < i && records[m] == after[n];
      assert records[..i][m] in s;
    }
    DistinctCount(after[..j], s);
    SeqCount(records[..i]);
  }

  /** Planning again right after a completed prune keeps everything that is left, as long as
      no two ready generations share block number and publication time. */
  lemma ReplanRemovesNothing(records: seq<Id>, ready: map<Id, Generation>, keepLatest: nat, pinned: set<Id>,
                             after: seq<Id>, rest: map<Id, Generation>, id: Id)
    requires Listing(records, ready) && DistinctRanks(ready) && Listing(after, rest)
    requires forall x :: x in rest <==> x in ready && KeptBecause(records, ready, keepLatest, pinned, x)
    requires forall x :: x in rest ==> rest[x] == ready[x]
    requires id in rest
    ensures KeptBecause(after, rest, keepLatest, pinned, id)
  {
    if id !in pinned {
      var i :| 0 <= i < |records| && records[i] == id
        && (i < keepLatest || exists a :: FirstWith(records, ready, i, a));
      assert id in after;
      var j :| 0 <= j < |after| && after[j] == id;
      PositionOnlyRises(records, ready, after, rest, i, j);
      if i >= keepLatest {
        var a :| FirstWith(records, ready, i, a);
        forall n | 0 <= n < j ensures a !in rest[after[n]].accounts {
          var m :| 0 <= m < i && records[m] == after[n];
        }
        assert FirstWith(after, rest, j, a);
      }
    }
  }

  /** With tied ranks the database may list survivors in another order, and a second plan
      then drops a generation that the first one kept. */
  lemma TiedRanksCanReplan(a: Address, b: Address)
    requires a != b
    ensures var x, y := Generation({a}, 1, 1, {}, {}), Generation({a, b}, 1, 1, {}, {});
            var ready := map[10 := x, 20 := y];
            && Listing([10, 20], ready) && Listing([20, 10], ready)
            && KeptBecause([10, 20], ready, 1, {}, 10) && KeptBecause([10, 20], ready, 1, {}, 20)
            && !KeptBecause([20, 10], ready, 1, {}, 10)
  {
    var x, y := Generation({a}, 1, 1, {}, {}), Generation({a, b}, 1, 1, {}, {});
    var ready := map[10 := x, 20 := y];
    assert FirstWith([10, 20], ready, 0, a) && FirstWith([10, 20], ready, 1, b);
    assert Listing([10, 20], ready) && Listing([20, 10], ready);
  }

  // ---------------------------------------------------------------- exactly when replanning is stable

  /** The other generations that some listing may put before id. */
  ghost function Rivals(ready: map<Id, Generation>, id: Id): set<Id>
    requires id in ready
  {
    set x | x in ready && x != id && AtLeast(ready[x], ready[id])
  }

  /** Kept whatever order the database gives to ties. */
  ghost predicate Safe(ready: map<Id, Generation>, keepLatest: nat, pinned: set<Id>, id: Id)
    requires id in ready
  {
    || id in pinned || |Rivals(ready, id)| < keepLatest
    || exists a :: a in ready[id].accounts && forall x :: x in Rivals(ready, id) ==> a !in ready[x].accounts
  }

  lemma SafeIsKept(ready: map<Id, Generation>, keepLatest: nat, pinned: set<Id>, id: Id, records: seq<Id>)
    requires id in ready && Safe(ready, keepLatest, pinned, id) && Listing(records, ready)
    ensures KeptBecause(records, ready, keepLatest, pinned, id)
  {
    assert id in records;
    var j :| 0 <= j < |records| && records[j] == id;
    assert forall n :: 0 <= n < j ==> records[..j][n] in Rivals(ready, id);
    DistinctCount(records[..j], Rivals(ready, id));
    if a :| a in ready[id].accounts && forall x :: x in Rivals(ready, id) ==> a !in ready[x].accounts {
      forall n | 0 <= n < j ensures a !in ready[records[n]].accounts { assert records[..j][n] == records[n]; }
      assert FirstWith(records, ready, j, a);
    }
  }

  /** An order of these generations, newest first. */
  ghost predicate Ordered(records: seq<Id>, ids: set<Id>, ready: map<Id, Generation>) {
    && ids <= ready.Keys && (forall i :: 0 <= i < |records| ==> records[i] in ids)
    && (forall x :: x in ids ==> x in records)
    && |records| == |ids|
    && forall i, j :: 0 <= i < j < |records| ==>
       records[i] != records[j] && AtLeast(ready[records[i]], ready[records[j]])
  }

  lemma {:induction false} NewestOf(ids: set<Id>, ready: map<Id, Generation>) returns (m: Id)
    requires ids != {} && ids <= ready.Keys
    ensures m in ids && forall x :: x in ids ==> AtLeast(ready[m], ready[x])
  {
    var y :| y in ids;
    if ids == {y} {
      m := y;
    } else {
      var z := NewestOf(ids - {y}, ready);
      m := if AtLeast(ready[y], ready[z]) then y else z;
    }
  }

  lemma {:induction false} SomeOrder(ids: set<Id>, ready: map<Id, Generation>) returns (records: seq<Id>)
    requires ids <= ready.Keys
    ensures Ordered(records, ids, ready)
  {
    if ids == {} {
      records := [];
    } else {
      var m := NewestOf(ids, ready);
      var rest := SomeOrder(ids - {m}, ready);
      records := [m] + rest;
      forall x | x in ids ensures x in records { assert x == m || x in rest; }
    }
  }

  /** Two stretches of an order, with id between them. */
  ghost predicate Around(ready: map<Id, Generation>, id: Id, high: seq<Id>, low: seq<Id>)
    requires id in ready
  {
    Ordered(high, Rivals(ready, id), ready) && Ordered(low, ready.Keys - Rivals(ready, id) - {id}, ready)
  }

  lemma AroundMembers(ready: map<Id, Generation>, id: Id, high: seq<Id>, low: seq<Id>)
    requires id in ready && Around(ready, id, high, low)
    ensures forall i :: 0 <= i < |high + [id] + low| ==> (high + [id] + low)[i] in ready
    ensures forall x :: x in ready ==> x in high + [id] + low
  {
    AroundOnly(ready, id, high, low);
    AroundSome(ready, id, high, low);
  }

  lemma AroundOnly(ready: map<Id, Generation>, id: Id, high: seq<Id>, low: seq<Id>)
    requires id in ready && Around(ready, id, high, low)
    ensures forall i :: 0 <= i < |high + [id] + low| ==> (high + [id] + low)[i] in ready
  {
    var records := high + [id] + low;
    forall i | 0 <= i < |records| ensures records[i] in ready {
      if i < |high| { assert records[i] == high[i]; }
      else if i > |high| { assert records[i] == low[i - |high| - 1]; }
    }
  }

  lemma AroundSome(ready: map<Id, Generation>, id: Id, high: seq<Id>, low: seq<Id>)
    requires id in ready && Around(ready, id, high, low)
    ensures forall x :: x in ready ==> x in high + [id] + low
  {
    forall x | x in ready ensures x in high + [id] + low {
      if x in Rivals(ready, id) { assert x in high; } else if x != id { assert x in low; }
    }
  }

  lemma AroundOrder(ready: map<Id, Generation>, id: Id, high: seq<Id>, low: seq<Id>, m: nat, n: nat)
    requires id in ready && Around(ready, id, high, low) && m < n < |high + [id] + low|
    ensures var x, y := (high + [id] + low)[m], (high + [id] + low)[n];
            x in ready && y in ready && x != y && AtLeast(ready[x], ready[y])
  {
    var records := high + [id] + low;
    assert m < |high| ==> records[m] == high[m];
    assert m > |high| ==> records[m] == low[m - |high| - 1];
    assert n < |high| ==> records[n] == high[n];
    assert n > |high| ==> records[n] == low[n - |high| - 1];
  }

  /** Some listing puts every rival before id. */
  lemma WorstListing(ready: map<Id, Generation>, id: Id) returns (records: seq<Id>, j: nat)
    requires id in ready
    ensures Listing(records, ready) && j == |Rivals(ready, id)| < |records| && records[j] == id
    ensures forall x :: x in Rivals(ready, id) ==> exists n :: 0 <= n < j && records[n] == x
  {
    var high := SomeOrder(Rivals(ready, id), ready);
    var low := SomeOrder(ready.Keys - Rivals(ready, id) - {id}, ready);
    records, j := high + [id] + low, |high|;
    AroundMembers(ready, id, high, low);
    forall m, n | 0 <= m < n < |records|
      ensures records[m] != records[n] && AtLeast(ready[records[m]], ready[records[n]])
    {
      AroundOrder(ready, id, high, low, m, n);
    }
    assert forall n :: 0 <= n < |high| ==> records[n] == high[n];
  }

  /** A generation is kept under every possible listing exactly when it is safe. */
  lemma KeptUnderEveryListing(ready: map<Id, Generation>, keepLatest: nat, pinned: set<Id>, id: Id)
    requires id in ready
    ensures (forall records :: Listing(records, ready) ==> KeptBecause(records, ready, keepLatest, pinned, id))
            <==> Safe(ready, keepLatest, pinned, id)
  {
    if Safe(ready, keepLatest, pinned, id) {
      forall records | Listing(records, ready) ensures KeptBecause(records, ready, keepLatest, pinned, id) {
        SafeIsKept(ready, keepLatest, pinned, id, records);
      }
    } else {
      var records, j := WorstListing(ready, id);
      UnsafeIsDropped(ready, keepLatest, pinned, id, records, j);
    }
  }

  lemma UnsafeIsDropped(ready: map<Id, Generation>, keepLatest: nat, pinned: set<Id>, id: Id, records: seq<Id>, j: nat)
    requires id in ready && !Safe(ready, keepLatest, pinned, id) && Listing(records, ready)
    requires j == |Rivals(ready, id)| < |records| && records[j] == id
    requires forall x :: x in Rivals(ready, id) ==> exists n :: 0 <= n < j && records[n] == x
    ensures !KeptBecause(records, ready, keepLatest, pinned, id)
  {
    forall a ensures !FirstWith(records, ready, j, a) {
      if a in ready[id].accounts {
        var x :| x in Rivals(ready, id) && a in ready[x].accounts;
        var n :| 0 <= n < j && records[n] == x;
      }
    }
  }
}
