/**
The health service's record keeper: a list sorted by importance that evicts its least
important record when it is full. Its reference is to sort everything ever offered and
keep the front of it.
*/
module HealthRecords {

  /** A memory usage record: the heap in use when it was taken, and its number in the order of arrival. */
  datatype Record = Record(heapInuse: nat, arrival: nat)

  predicate IsMoreImportantThan(a: Record, b: Record) { a.heapInuse > b.heapInuse }

  // ------------------------------------------------------------------------
  // Reference: sort all keys, keep the front
  // ------------------------------------------------------------------------

  /** The place of the first key smaller than x. */
  function Place(keys: seq<nat>, x: nat): (p: nat)
    ensures p <= |keys|
  {
    if keys == [] || x > keys[0] then 0 else 1 + Place(keys[1..], x)
  }

  function Insert(keys: seq<nat>, x: nat): seq<nat> {
    keys[..Place(keys, x)] + [x] + keys[Place(keys, x)..]
  }

  function SortDescending(keys: seq<nat>): seq<nat> {
    if keys == [] then [] else Insert(SortDescending(keys[..|keys| - 1]), keys[|keys| - 1])
  }

  function Min(a: nat, b: nat): nat { if a < b then a else b }

  /** The k largest keys in descending order, fewer if there are not that many. */
  function Largest(k: nat, keys: seq<nat>): seq<nat> {
    SortDescending(keys)[..Min(k, |SortDescending(keys)|)]
  }

  ghost predicate Descending(keys: seq<nat>) {
    forall i, j :: 0 <= i < j < |keys| ==> keys[i] >= keys[j]
  }

  lemma {:induction false} PlaceMeaning(keys: seq<nat>, x: nat)
    ensures forall i :: 0 <= i < Place(keys, x) ==> keys[i] >= x
    ensures Place(keys, x) < |keys| ==> x > keys[Place(keys, x)]
  {
    if keys != [] && x <= keys[0] {
      PlaceMeaning(keys[1..], x);
    }
  }

  lemma PlaceUnique(keys: seq<nat>, x: nat, p: nat)
    requires p <= |keys| && (forall i :: 0 <= i < p ==> keys[i] >= x) && (p < |keys| ==> x > keys[p])
    ensures Place(keys, x) == p
  {
    PlaceMeaning(keys, x);
  }

  lemma InsertAddsOne<T>(items: seq<T>, p: nat, x: T)
    requires p <= |items|
    ensures multiset(items[..p] + [x] + items[p..]) == multiset(items) + multiset{x}
  {
    assert items == items[..p] + items[p..];
  }

  lemma InsertKeepsOrder(keys: seq<nat>, x: nat)
    requires Descending(keys)
    ensures Descending(Insert(keys, x)) && multiset(Insert(keys, x)) == multiset(keys) + multiset{x}
  {
    PlaceMeaning(keys, x);
    InsertAddsOne(keys, Place(keys, x), x);
  }

  lemma {:induction false} SortIsSorted(keys: seq<nat>)
    ensures Descending(SortDescending(keys))
    ensures multiset(SortDescending(keys)) == multiset(keys)
    ensures |SortDescending(keys)| == |keys|
  {
    if keys != [] {
      var n := |keys| - 1;
      SortIsSorted(keys[..n]);
      InsertKeepsOrder(SortDescending(keys[..n]), keys[n]);
      assert keys == keys[..n] + [keys[n]];
    }
  }

  lemma FrontsAgree(a: seq<nat>, b: seq<nat>)
    requires Descending(a) && Descending(b) && multiset(a) == multiset(b) && a != [] && b != []
    ensures a[0] == b[0]
  {
    assert a[0] in multiset(a) && b[0] in multiset(b);
    assert a[0] in b && b[0] in a;
  }

  /** A descending list is determined by what it holds. */
  lemma {:induction false} DescendingUnique(a: seq<nat>, b: seq<nat>)
    requires Descending(a) && Descending(b) && multiset(a) == multiset(b)
    ensures a == b
  {
    assert |a| == |multiset(a)| && |b| == |multiset(b)|;
    if a != [] {
      FrontsAgree(a, b);
      assert a == [a[0]] + a[1..] && b == [b[0]] + b[1..];
      assert multiset(a[1..]) == multiset(a) - multiset{a[0]};
      assert multiset(b[1..]) == multiset(b) - multiset{b[0]};
      DescendingUnique(a[1..], b[1..]);
    }
  }

  // ------------------------------------------------------------------------
  // The record list
  // ------------------------------------------------------------------------

  function Keys(items: seq<Record>): seq<nat> {
    seq(|items|, i requires 0 <= i < |items| => items[i].heapInuse)
  }

  function InsertRecord(items: seq<Record>, r: Record): seq<Record> {
    var p := Place(Keys(items), r.heapInuse);
    items[..p] + [r] + items[p..]
  }

  /** A full list turns away what is less important than all it has. */
  predicate Rejected(capacity: nat, items: seq<Record>, r: Record)
    requires capacity > 0
  {
    |items| >= capacity && IsMoreImportantThan(items[|items| - 1], r)
  }

  /** One record offered to a list of this capacity. */
  function Offered(capacity: nat, items: seq<Record>, r: Record): seq<Record>
    requires capacity > 0
  {
    if Rejected(capacity, items, r) then items
    else if |items| < capacity then InsertRecord(items, r)
    else InsertRecord(items[..|items| - 1], r)
  }

  /** The list after records with these keys were offered, one after the other. */
  function Kept(capacity: nat, keys: seq<nat>): seq<Record>
    requires capacity > 0
  {
    if keys == [] then []
    else Offered(capacity, Kept(capacity, keys[..|keys| - 1]), Record(keys[|keys| - 1], |keys| - 1))
  }

  lemma KeptStep(capacity: nat, keys: seq<nat>, x: nat)
    requires capacity > 0
    ensures Kept(capacity, keys + [x]) == Offered(capacity, Kept(capacity, keys), Record(x, |keys|))
  {
  }

  lemma InsertRecordKeys(items: seq<Record>, r: Record)
    ensures Keys(InsertRecord(items, r)) == Insert(Keys(items), r.heapInuse)
  {
  }

  /** Inserting into the front of a sorted list is the front of inserting into all of it. */
  lemma InsertIntoFront(all: seq<nat>, k: nat, x: nat)
    requires Descending(all) && k <= |all| && (k < |all| ==> x >= all[k])
    ensures Insert(all[..k], x) == Insert(all, x)[..k + 1]
  {
    PlaceMeaning(all, x);
    var p := Place(all, x);
    if p <= k {
      PlaceUnique(all[..k], x, p);
    } else {
      PlaceUnique(all[..k], x, k);
      assert all[k] == x;
    }
  }

  lemma RejectFromFront(all: seq<nat>, k: nat, x: nat)
    requires Descending(all) && 0 < k <= |all| && all[k - 1] > x
    ensures Insert(all, x)[..k] == all[..k]
  {
    PlaceMeaning(all, x);
    assert Place(all, x) >= k;
  }

  lemma OfferedKeys(capacity: nat, items: seq<Record>, r: Record, all: seq<nat>)
    requires capacity > 0 && Descending(all) && Keys(items) == all[..Min(capacity, |all|)]
    ensures Keys(Offered(capacity, items, r)) == Insert(all, r.heapInuse)[..Min(capacity, |all| + 1)]
  {
    var n, x := |items|, r.heapInuse;
    assert |Keys(items)| == n;
    if n < capacity {
      InsertRecordKeys(items, r);
      assert all[..n] == all && Insert(all, x)[..n + 1] == Insert(all, x);
    } else {
      assert Keys(items)[n - 1] == all[n - 1];
      if IsMoreImportantThan(items[n - 1], r) {
        RejectFromFront(all, n, x);
      } else {
        InsertRecordKeys(items[..n - 1], r);
        assert Keys(items[..n - 1]) == all[..n - 1];
        InsertIntoFront(all, n - 1, x);
      }
    }
  }

  /** The list keeps exactly the largest keys ever offered, in descending order. */
  lemma {:induction false} KeepsTheLargest(capacity: nat, keys: seq<nat>)
    requires capacity > 0
    ensures Keys(Kept(capacity, keys)) == Largest(capacity, keys)
  {
    SortIsSorted(keys);
    if keys == [] {
      assert Keys(Kept(capacity, keys)) == [];
    } else {
      var n := |keys| - 1;
      SortIsSorted(keys[..n]);
      KeepsTheLargest(capacity, keys[..n]);
      OfferedKeys(capacity, Kept(capacity, keys[..n]), Record(keys[n], n), SortDescending(keys[..n]));
    }
  }

  /** What is kept does not depend on the order in which the records came. */
  lemma {:induction false} OrderDoesNotMatter(capacity: nat, a: seq<nat>, b: seq<nat>)
    requires capacity > 0 && multiset(a) == multiset(b)
    ensures Keys(Kept(capacity, a)) == Keys(Kept(capacity, b))
  {
    KeepsTheLargest(capacity, a);
    KeepsTheLargest(capacity, b);
    SortIsSorted(a);
    SortIsSorted(b);
    DescendingUnique(SortDescending(a), SortDescending(b));
  }

  /** Records keep their keys, and equal ones stand in the order they arrived. */
  ghost predicate InArrivalOrder(items: seq<Record>, keys: seq<nat>) {
    && (forall i :: 0 <= i < |items| ==> items[i].arrival < |keys| && items[i].heapInuse == keys[items[i].arrival])
    && (forall i, j :: 0 <= i < j < |items| ==>
          items[i].heapInuse > items[j].heapInuse
            || (items[i].heapInuse == items[j].heapInuse && items[i].arrival < items[j].arrival))
  }

  lemma PlaceSplits(items: seq<Record>, keys: seq<nat>, x: nat, i: nat)
    requires InArrivalOrder(items, keys) && i < |items|
    ensures i < Place(Keys(items), x) ==> items[i].heapInuse >= x
    ensures i >= Place(Keys(items), x) ==> items[i].heapInuse < x
  {
    PlaceMeaning(Keys(items), x);
    assert Keys(items)[i] == items[i].heapInuse;
    var p := Place(Keys(items), x);
    if p <= i {
      assert Keys(items)[p] == items[p].heapInuse;
    }
  }

  lemma InsertKeepsArrivals(items: seq<Record>, keys: seq<nat>, x: nat)
    requires InArrivalOrder(items, keys)
    ensures InArrivalOrder(InsertRecord(items, Record(x, |keys|)), keys + [x])
  {
    forall i | 0 <= i < |items|
      ensures i < Place(Keys(items), x) ==> items[i].heapInuse >= x
      ensures i >= Place(Keys(items), x) ==> items[i].heapInuse < x
    {
      PlaceSplits(items, keys, x, i);
    }
  }

  lemma OfferKeepsArrivals(capacity: nat, items: seq<Record>, keys: seq<nat>, x: nat)
    requires capacity > 0 && InArrivalOrder(items, keys)
    ensures InArrivalOrder(Offered(capacity, items, Record(x, |keys|)), keys + [x])
  {
    if !Rejected(capacity, items, Record(x, |keys|)) {
      InsertKeepsArrivals(if |items| < capacity then items else items[..|items| - 1], keys, x);
    }
  }

  lemma {:induction false} TiesInArrivalOrder(capacity: nat, keys: seq<nat>)
    requires capacity > 0
    ensures InArrivalOrder(Kept(capacity, keys), keys)
  {
    if keys != [] {
      var n := |keys| - 1;
      TiesInArrivalOrder(capacity, keys[..n]);
      OfferKeepsArrivals(capacity, Kept(capacity, keys[..n]), keys[..n], keys[n]);
      assert keys == keys[..n] + [keys[n]];
    }
  }

  /** The size, the front, and what was turned away: nothing left out is larger than anything kept. */
  lemma {:induction false} KeptMeaning(capacity: nat, keys: seq<nat>)
    requires capacity > 0
    ensures var items := Kept(capacity, keys);
            && |items| == Min(capacity, |keys|)
            && multiset(Keys(items)) <= multiset(keys)
            && (forall x, i :: x in multiset(keys) - multiset(Keys(items)) && 0 <= i < |items| ==>
              x <= items[i].heapInuse)
            && (keys != [] ==> forall x :: x in keys ==> x <= items[0].heapInuse)
  {
    var all, items := SortDescending(keys), Kept(capacity, keys);
    SortIsSorted(keys);
    KeepsTheLargest(capacity, keys);
    PrefixDominates(all, Min(capacity, |keys|));
    assert |Keys(items)| == |items| && Keys(items) == all[..|items|];
    assert forall i :: 0 <= i < |items| ==> Keys(items)[i] == items[i].heapInuse;
    assert forall x :: x in keys <==> x in multiset(all);
  }

  lemma PrefixDominates(all: seq<nat>, k: nat)
    requires Descending(all) && k <= |all|
    ensures multiset(all[..k]) <= multiset(all)
    ensures forall x, i :: x in multiset(all) - multiset(all[..k]) && 0 <= i < k ==> x <= all[i]
    ensures forall x :: x in multiset(all) ==> x <= all[0]
  {
    assert all == all[..k] + all[k..];
    assert multiset(all) - multiset(all[..k]) == multiset(all[k..]);
  }

  // Which of several equal records survive.

  /** How many of the keys are larger than x. */
  function CountLarger(keys: seq<nat>, x: nat): nat {
    if keys == [] then 0 else CountLarger(keys[..|keys| - 1], x) + if keys[|keys| - 1] > x then 1 else 0
  }

  lemma {:induction false} CountLargerInserted(keys: seq<nat>, p: nat, y: nat, x: nat)
    requires p <= |keys|
    ensures CountLarger(keys[..p] + [y] + keys[p..], x) == CountLarger(keys, x) + if y > x then 1 else 0
    decreases |keys|
  {
    var all := keys[..p] + [y] + keys[p..];
    if p == |keys| {
      assert all[..|all| - 1] == keys;
    } else {
      var n := |keys| - 1;
      assert all[..|all| - 1] == keys[..n][..p] + [y] + keys[..n][p..];
      CountLargerInserted(keys[..n], p, y, x);
    }
  }

  lemma {:induction false} CountLargerSorted(keys: seq<nat>, x: nat)
    ensures CountLarger(SortDescending(keys), x) == CountLarger(keys, x)
  {
    if keys != [] {
      var n := |keys| - 1;
      var sorted := SortDescending(keys[..n]);
      CountLargerSorted(keys[..n], x);
      CountLargerInserted(sorted, Place(sorted, keys[n]), keys[n], x);
    }
  }

  /** In a descending list the larger keys come first, so the k-th is larger exactly if k or more are. */
  lemma {:induction false} CountLargerAt(all: seq<nat>, k: nat, x: nat)
    requires Descending(all) && 0 < k <= |all|
    ensures all[k - 1] > x <==> CountLarger(all, x) >= k
  {
    var n := |all| - 1;
    CountAtMost(all[..n], x);
    if k <= n {
      CountLargerAt(all[..n], k, x);
    } else if n > 0 {
      CountLargerAt(all[..n], n, x);
    }
  }

  lemma {:induction false} CountAtMost(keys: seq<nat>, x: nat)
    ensures CountLarger(keys, x) <= |keys|
  {
    if keys != [] {
      CountAtMost(keys[..|keys| - 1], x);
    }
  }

  /**
  A record just offered is kept exactly if fewer than `capacity` of the earlier ones were
  strictly larger: a tie with the least important one kept gets in.
  */
  lemma {:induction false} NewestIsKeptExactly(capacity: nat, keys: seq<nat>, x: nat)
    requires capacity > 0
    ensures Record(x, |keys|) in Kept(capacity, keys + [x]) <==> CountLarger(keys, x) < capacity
  {
    var items, all, r := Kept(capacity, keys), SortDescending(keys), Record(x, |keys|);
    KeptStep(capacity, keys, x);
    KeptMeaning(capacity, keys);
    KeepsTheLargest(capacity, keys);
    TiesInArrivalOrder(capacity, keys);
    SortIsSorted(keys);
    CountLargerSorted(keys, x);
    assert r !in items;
    if |keys| >= capacity {
      assert Keys(items)[capacity - 1] == all[capacity - 1];
      CountLargerAt(all, capacity, x);
    } else {
      CountAtMost(keys, x);
    }
  }

  /**
  Among equal records the earliest stay and the newest of them makes way: offered a record
  as important as the least important one, a full list drops its last, which is the one
  among those equals that arrived last, and puts the new one in its place.
  */
  lemma {:induction false} TieReplacesTheNewest(capacity: nat, keys: seq<nat>, x: nat)
    requires capacity > 0 && |keys| >= capacity
    requires Kept(capacity, keys) != [] && Kept(capacity, keys)[|Kept(capacity, keys)| - 1].heapInuse == x
    ensures var items := Kept(capacity, keys);
            && |items| == capacity
            && Kept(capacity, keys + [x]) == items[..capacity - 1] + [Record(x, |keys|)]
            && forall i :: 0 <= i < capacity && items[i].heapInuse == x ==>
                 items[i].arrival <= items[capacity - 1].arrival
  {
    var items := Kept(capacity, keys);
    KeptStep(capacity, keys, x);
    KeptMeaning(capacity, keys);
    TiesInArrivalOrder(capacity, keys);
    var front := items[..capacity - 1];
    forall i | 0 <= i < |front|
      ensures Keys(front)[i] >= x
    {
      assert Keys(front)[i] == items[i].heapInuse;
    }
    PlaceUnique(Keys(front), x, |front|);
  }

  // ------------------------------------------------------------------------
  // The class
  // ------------------------------------------------------------------------

  class Records {
    const capacity: nat
    var items: seq<Record>
    ghost var offered: seq<nat>
    ghost var saved: multiset<Record>
    ghost var deleted: multiset<Record>

    ghost predicate Valid()
      reads this
    {
      && capacity > 0
      && items == Kept(capacity, offered)
      && saved == multiset(items) + deleted
    }

    constructor (capacity: nat)
      requires capacity > 0
      ensures Valid() && this.capacity == capacity && offered == [] && saved == deleted == multiset{}
    {
      this.capacity := capacity;
      items, offered, saved, deleted := [], [], multiset{}, multiset{};
    }

    /** Adds a record, numbered by its arrival; the profiles on disk are always those of the kept records. */
    method AddRecord(incoming: Record)
      requires Valid() && incoming.arrival == |offered|
      modifies this
      ensures Valid() && offered == old(offered) + [incoming.heapInuse]
      ensures items == Offered(capacity, old(items), incoming)
      ensures saved == old(saved) + if Rejected(capacity, old(items), incoming) then multiset{} else multiset{incoming}
    {
      KeptStep(capacity, offered, incoming.heapInuse);
      OfferNoLock(incoming);
      offered := offered + [incoming.heapInuse];
    }

    /** The work done under the lock. */
    method OfferNoLock(incoming: Record)
      requires capacity > 0 && saved == multiset(items) + deleted
      modifies this`items, this`saved, this`deleted
      ensures items == Offered(capacity, old(items), incoming)
      ensures saved == multiset(items) + deleted
      ensures saved == old(saved) + if Rejected(capacity, old(items), incoming) then multiset{} else multiset{incoming}
    {
      var room := MakeRoomForRecord(incoming);
      if !room {
        return;
      }
      var place := FindInsertionPlace(incoming);
      InsertAddsOne(items, place, incoming);
      items := items[..place] + [incoming] + items[place..];
      saved := saved + multiset{incoming};
    }

    method MakeRoomForRecord(incoming: Record) returns (room: bool)
      requires capacity > 0 && saved == multiset(items) + deleted
      modifies this`items, this`deleted
      ensures saved == multiset(items) + deleted
      ensures room <==> !Rejected(capacity, old(items), incoming)
      ensures items == if room && |old(items)| >= capacity then old(items)[..|old(items)| - 1] else old(items)
    {
      var capacityReached := |items| >= capacity;
      if capacityReached {
        if IsMoreImportantThan(items[|items| - 1], incoming) {
          return false;
        }
        EvictLeastImportant();
      }
      return true;
    }

    method EvictLeastImportant()
      requires items != [] && saved == multiset(items) + deleted
      modifies this`items, this`deleted
      ensures items == old(items)[..|old(items)| - 1]
      ensures saved == multiset(items) + deleted
    {
      assert items == items[..|items| - 1] + [items[|items| - 1]];
      deleted := deleted + multiset{items[|items| - 1]};
      items := items[..|items| - 1];
    }

    method FindInsertionPlace(incoming: Record) returns (place: nat)
      ensures place == Place(Keys(items), incoming.heapInuse)
    {
      place := 0;
      while place < |items|
        invariant place <= |items|
        invariant forall i :: 0 <= i < place ==> Keys(items)[i] >= incoming.heapInuse
      {
        if IsMoreImportantThan(incoming, items[place]) {
          PlaceUnique(Keys(items), incoming.heapInuse, place);
          return;
        }
        place := place + 1;
      }
      PlaceUnique(Keys(items), incoming.heapInuse, place);
    }

    method GetMostImportant() returns (r: Record)
      requires Valid() && offered != []
      ensures r.heapInuse in offered && forall x :: x in offered ==> x <= r.heapInuse
    {
      KeptMeaning(capacity, offered);
      TiesInArrivalOrder(capacity, offered);
      r := items[0];
    }
  }
}
