/** Tallies kept in an object literal by a `reduce`: `acc[key]` is created on first sight (so
    keys keep their first-occurrence order) and its counters are bumped for every item. */
module Tally {

  /** The counters under one key: items seen, and those among them that were hits. */
  datatype Entry<K> = Entry(key: K, correct: nat, total: nat)

  /** A counter that exists has been bumped at least once, and never has more hits than items. */
  predicate Sane<K>(e: Entry<K>)
  {
    1 <= e.total && e.correct <= e.total
  }

  /** The number of entries under key `k`. */
  function KeyCount<K(==,!new)>(acc: seq<Entry<K>>, k: K): nat
  {
    if acc == [] then 0 else (if acc[0].key == k then 1 else 0) + KeyCount(acc[1..], k)
  }

  /** The items counted under `k`, over all entries with that key. */
  function TotalFor<K(==,!new)>(acc: seq<Entry<K>>, k: K): nat
  {
    if acc == [] then 0 else (if acc[0].key == k then acc[0].total else 0) + TotalFor(acc[1..], k)
  }

  /** The hits counted under `k`. */
  function CorrectFor<K(==,!new)>(acc: seq<Entry<K>>, k: K): nat
  {
    if acc == [] then 0 else (if acc[0].key == k then acc[0].correct else 0) + CorrectFor(acc[1..], k)
  }

  function SumTotals<K>(acc: seq<Entry<K>>): nat
  {
    if acc == [] then 0 else acc[0].total + SumTotals(acc[1..])
  }

  function HitValue(hit: bool): nat
  {
    if hit then 1 else 0
  }

  /** One step of the `reduce`: create the key's counters if missing, then count the item. */
  function Bump<K(==,!new)>(acc: seq<Entry<K>>, key: K, hit: bool): (r: seq<Entry<K>>)
    ensures forall k :: KeyCount(r, k) == KeyCount(acc, k) + (if k == key && KeyCount(acc, k) == 0 then 1 else 0)
    ensures forall k :: TotalFor(r, k) == TotalFor(acc, k) + (if k == key then 1 else 0)
    ensures forall k :: CorrectFor(r, k) == CorrectFor(acc, k) + (if k == key then HitValue(hit) else 0)
    ensures SumTotals(r) == SumTotals(acc) + 1
    ensures (forall e :: e in acc ==> Sane(e)) ==> forall e :: e in r ==> Sane(e)
  {
    if acc == [] then [Entry(key, HitValue(hit), 1)]
    else
      assert acc[0] in acc && forall e :: e in acc[1..] ==> e in acc;
      if acc[0].key == key then
        [Entry(key, acc[0].correct + HitValue(hit), acc[0].total + 1)] + acc[1..]
      else
        [acc[0]] + Bump(acc[1..], key, hit)
  }

  /** `items.reduce(...)` from `{}`: each item is a key and whether it is a hit. */
  function TallyBy<K(==,!new)>(items: seq<(K, bool)>): seq<Entry<K>>
  {
    if items == [] then []
    else
      var last := items[|items| - 1];
      Bump(TallyBy(items[..|items| - 1]), last.0, last.1)
  }

  /** The number of items with key `k`. */
  function ItemsWith<K(==,!new)>(items: seq<(K, bool)>, k: K): nat
  {
    if items == [] then 0
    else ItemsWith(items[..|items| - 1], k) + (if items[|items| - 1].0 == k then 1 else 0)
  }

  /** The number of hits with key `k`. */
  function HitsWith<K(==,!new)>(items: seq<(K, bool)>, k: K): nat
  {
    if items == [] then 0
    else
      var last := items[|items| - 1];
      HitsWith(items[..|items| - 1], k) + (if last.0 == k && last.1 then 1 else 0)
  }

  /** The tally has one entry per key that occurs, each entry counts exactly the items and the hits
      with its key, every entry is sane, and the entries' totals add up to the number of items. */
  lemma {:induction false} TallyByCounts<K(!new)>(items: seq<(K, bool)>)
    ensures forall k :: KeyCount(TallyBy(items), k) == (if ItemsWith(items, k) > 0 then 1 else 0)
    ensures forall k :: TotalFor(TallyBy(items), k) == ItemsWith(items, k)
    ensures forall k :: CorrectFor(TallyBy(items), k) == HitsWith(items, k)
    ensures forall e :: e in TallyBy(items) ==> Sane(e)
    ensures SumTotals(TallyBy(items)) == |items|
  {
    if items != [] {
      TallyByCounts(items[..|items| - 1]);
    }
  }

  /** With one entry per key, the entry under `k` carries the totals for `k`. */
  lemma {:induction false} EntryCarriesCounts<K(!new)>(acc: seq<Entry<K>>, i: nat)
    requires i < |acc| && KeyCount(acc, acc[i].key) == 1
    ensures acc[i].total == TotalFor(acc, acc[i].key)
    ensures acc[i].correct == CorrectFor(acc, acc[i].key)
  {
    if i > 0 {
      KeyPresent(acc[1..], i - 1);
      EntryCarriesCounts(acc[1..], i - 1);
    } else {
      AbsentKeyHasNoCounts(acc[1..], acc[0].key);
    }
  }

  lemma {:induction false} KeyPresent<K(!new)>(acc: seq<Entry<K>>, i: nat)
    requires i < |acc|
    ensures KeyCount(acc, acc[i].key) >= 1
  {
    if i > 0 {
      KeyPresent(acc[1..], i - 1);
    }
  }

  lemma {:induction false} AbsentKeyHasNoCounts<K(!new)>(acc: seq<Entry<K>>, k: K)
    requires KeyCount(acc, k) == 0
    ensures TotalFor(acc, k) == 0 && CorrectFor(acc, k) == 0
  {
    if acc != [] {
      AbsentKeyHasNoCounts(acc[1..], k);
    }
  }

  /** A key counted at least once has an entry. */
  lemma {:induction false} KeyHasEntry<K(!new)>(acc: seq<Entry<K>>, k: K) returns (i: nat)
    requires KeyCount(acc, k) >= 1
    ensures i < |acc| && acc[i].key == k
  {
    if acc[0].key == k {
      i := 0;
    } else {
      var j := KeyHasEntry(acc[1..], k);
      i := j + 1;
    }
  }

  /** The index of the first item with key `k`, or `|items|` when there is none. */
  function FirstSeen<K(==)>(items: seq<(K, bool)>, k: K): (n: nat)
    ensures n <= |items|
    ensures n < |items| ==> items[n].0 == k
    ensures forall j :: 0 <= j < n ==> items[j].0 != k
  {
    if items == [] then 0
    else
      var m := |items| - 1;
      var p := FirstSeen(items[..m], k);
      if p < m then p else if items[m].0 == k then m else |items|
  }

  /** `Bump` keeps the existing keys in place and appends a new key at the end. */
  lemma {:induction false} BumpKeys<K(!new)>(acc: seq<Entry<K>>, key: K, hit: bool)
    ensures |Bump(acc, key, hit)| == |acc| + (if KeyCount(acc, key) == 0 then 1 else 0)
    ensures forall i :: 0 <= i < |acc| ==> Bump(acc, key, hit)[i].key == acc[i].key
    ensures KeyCount(acc, key) == 0 ==> Bump(acc, key, hit)[|acc|].key == key
  {
    if acc != [] && acc[0].key != key {
      BumpKeys(acc[1..], key, hit);
    }
  }

  /** A key is first seen somewhere exactly when some item has it. */
  lemma {:induction false} FirstSeenIffOccurs<K(!new)>(items: seq<(K, bool)>, k: K)
    ensures FirstSeen(items, k) < |items| <==> ItemsWith(items, k) > 0
  {
    if items != [] {
      FirstSeenIffOccurs(items[..|items| - 1], k);
    }
  }

  /** Appending an item leaves the first sighting of a key already seen where it was. */
  lemma FirstSeenKept<K(!new)>(items: seq<(K, bool)>, k: K)
    requires items != [] && FirstSeen(items[..|items| - 1], k) < |items| - 1
    ensures FirstSeen(items, k) == FirstSeen(items[..|items| - 1], k)
  {
  }

  /** A key seen in the tally of the items so far was first seen among them. */
  lemma EntrySeen<K(!new)>(items: seq<(K, bool)>, i: nat)
    requires i < |TallyBy(items)|
    ensures FirstSeen(items, TallyBy(items)[i].key) < |items|
  {
    var k := TallyBy(items)[i].key;
    KeyPresent(TallyBy(items), i);
    assert ItemsWith(items, k) > 0 by { TallyByCounts(items); }
    FirstSeenIffOccurs(items, k);
  }

  /** The tally's entries come in the order of their keys' first occurrence. */
  lemma {:induction false} TallyOrdered<K(!new)>(items: seq<(K, bool)>)
    ensures forall i, j :: 0 <= i < j < |TallyBy(items)| ==>
      FirstSeen(items, TallyBy(items)[i].key) < FirstSeen(items, TallyBy(items)[j].key)
  {
    if items != [] {
      var m := |items| - 1;
      var pre := items[..m];
      var x := items[m];
      var acc0 := TallyBy(pre);
      var acc := TallyBy(items);
      assert acc == Bump(acc0, x.0, x.1);
      TallyOrdered(pre);
      BumpKeys(acc0, x.0, x.1);
      forall i | 0 <= i < |acc0|
        ensures FirstSeen(items, acc[i].key) == FirstSeen(pre, acc0[i].key) < m
      {
        EntrySeen(pre, i);
        FirstSeenKept(items, acc0[i].key);
      }
      if KeyCount(acc0, x.0) == 0 {
        assert FirstSeen(pre, x.0) == m by {
          TallyByCounts(pre);
          FirstSeenIffOccurs(pre, x.0);
        }
        assert FirstSeen(items, acc[|acc0|].key) == m;
      }
    }
  }

  /** The tally has an entry for exactly the keys that occur, in the order of their first
      occurrence: this is the order `Object.keys` returns them in. */
  lemma TallyInFirstSeenOrder<K(!new)>(items: seq<(K, bool)>)
    ensures forall k :: KeyCount(TallyBy(items), k) > 0 <==> FirstSeen(items, k) < |items|
    ensures forall i, j :: 0 <= i < j < |TallyBy(items)| ==>
      FirstSeen(items, TallyBy(items)[i].key) < FirstSeen(items, TallyBy(items)[j].key)
  {
    TallyByCounts(items);
    forall k
      ensures KeyCount(TallyBy(items), k) > 0 <==> FirstSeen(items, k) < |items|
    {
      FirstSeenIffOccurs(items, k);
    }
    TallyOrdered(items);
  }
}
