/** The index of io/hash_table.cc: buckets, each a doubly linked chain of entries.  A chain refines a
    map, and the table refines the map from pages to slots.  Removing a head leaves the next entry's
    `prev` stale, so back links are promised only behind the head.
 */
module HashTable {
  import opened Pool

  class Entry {
    const key: Key
    const slot: nat
    var prev: Entry?
    var next: Entry?

    constructor (key: Key, slot: nat, next: Entry?)
      ensures this.key == key && this.slot == slot && prev == null && this.next == next
    {
      this.key, this.slot := key, slot;
      prev, this.next := null, next;
    }
  }

  ghost predicate Linked(head: Entry?, chain: seq<Entry>)
    reads chain
  {
    && head == (if chain == [] then null else chain[0])
    && (forall i {:trigger chain[i].next} :: 0 <= i < |chain| ==> chain[i].next == if i + 1 < |chain| then chain[i + 1] else null)
    && (forall i {:trigger chain[i].prev} :: 1 <= i < |chain| ==> chain[i].prev == chain[i - 1])
  }

  ghost predicate DistinctKeys(chain: seq<Entry>) {
    forall i, j :: 0 <= i < j < |chain| ==> chain[i].key != chain[j].key
  }

  /** What a chain maps. */
  ghost function ChainMap(chain: seq<Entry>): map<Key, nat> {
    if chain == [] then map[]
    else ChainMap(chain[1..])[chain[0].key := chain[0].slot]
  }

  lemma {:induction false} ChainMapAt(chain: seq<Entry>, i: nat)
    requires DistinctKeys(chain) && i < |chain|
    ensures chain[i].key in ChainMap(chain) && ChainMap(chain)[chain[i].key] == chain[i].slot
  {
    if i > 0 {
      assert chain[1..][i - 1] == chain[i];
      ChainMapAt(chain[1..], i - 1);
    }
  }

  lemma {:induction false} ChainMapLacks(chain: seq<Entry>, k: Key)
    requires forall i :: 0 <= i < |chain| ==> chain[i].key != k
    ensures k !in ChainMap(chain)
  {
    if chain != [] {
      ChainMapLacks(chain[1..], k);
    }
  }

  /** Taking an entry out of a chain takes its key out of the map. */
  lemma {:induction false} ChainMapWithout(chain: seq<Entry>, i: nat)
    requires DistinctKeys(chain) && i < |chain|
    ensures ChainMap(chain[..i] + chain[i + 1..]) == ChainMap(chain) - {chain[i].key}
  {
    var rest := chain[1..];
    if i == 0 {
      assert chain[..0] + chain[1..] == rest;
      ChainMapLacks(rest, chain[0].key);
      PutThenRemove(ChainMap(rest), chain[0].key, chain[0].slot);
    } else {
      ChainMapWithout(rest, i - 1);
      assert rest[i - 1] == chain[i] && chain[0].key != chain[i].key;
      var less := chain[..i] + chain[i + 1..];
      assert less[1..] == rest[..i - 1] + rest[i..] && less[0] == chain[0];
      hide DistinctKeys;
      PutAndRemove(ChainMap(rest), chain[0].key, chain[0].slot, chain[i].key);
    }
  }

  lemma PutThenRemove(m: map<Key, nat>, k: Key, v: nat)
    requires k !in m
    ensures m[k := v] - {k} == m
  {
  }

  lemma PutAndRemove(m: map<Key, nat>, k: Key, v: nat, x: Key)
    requires k != x
    ensures (m - {x})[k := v] == m[k := v] - {x}
  {
  }

  lemma DistinctWithout(chain: seq<Entry>, i: nat)
    requires DistinctKeys(chain) && i < |chain|
    ensures DistinctKeys(chain[..i] + chain[i + 1..])
  {
  }

  /** One bucket: the head pointer and the entries linked from it. */
  class Bucket {
    var head: Entry?
    ghost var chain: seq<Entry>
    ghost var Repr: set<object>

    ghost predicate Valid()
      reads this, Repr
    {
      && this in Repr
      && (forall i :: 0 <= i < |chain| ==> chain[i] in Repr)
      && Linked(head, chain)
      && DistinctKeys(chain)
    }

    constructor ()
      ensures Valid() && fresh(Repr) && Map() == map[]
    {
      head, chain := null, [];
      Repr := {this};
    }

    /** The map that the chain stands for. */
    ghost function Map(): map<Key, nat>
      reads this
    {
      ChainMap(chain)
    }

    /** Walk the chain to the entry for `k`; null if there is none. */
    method Locate(k: Key) returns (entry: Entry?, ghost i: nat)
      requires Valid()
      ensures entry == null ==> k !in Map()
      ensures entry != null ==> i < |chain| && entry == chain[i] && entry.key == k && k in Map() && Map()[k] == entry.slot
    {
      entry, i := head, 0;
      while entry != null && entry.key != k
        invariant i <= |chain| && entry == if i < |chain| then chain[i] else null
        invariant forall j :: 0 <= j < i ==> chain[j].key != k
        decreases |chain| - i
      {
        entry := entry.next;
        i := i + 1;
      }
      if entry == null {
        ChainMapLacks(chain, k);
      } else {
        ChainMapAt(chain, i);
      }
    }

    method PushFront(k: Key, slot: nat)
      requires Valid() && k !in Map()
      modifies Repr
      ensures Valid() && fresh(Repr - old(Repr))
      ensures Map() == old(Map())[k := slot]
    {
      forall i | 0 <= i < |chain|
        ensures chain[i].key != k
      {
        ChainMapAt(chain, i);
      }
      var entry := new Entry(k, slot, head);
      if head != null {
        head.prev := entry;
      }
      head := entry;
      ghost var was := chain;
      chain := [entry] + chain;
      assert chain[1..] == was;
      Repr := Repr + {entry};
    }

    /** The three cases of `remove`: the head, the last entry, an entry in between. */
    method Unlink(entry: Entry, ghost i: nat)
      requires Valid() && i < |chain| && entry == chain[i]
      modifies Repr
      ensures Valid() && Repr == old(Repr)
      ensures Map() == old(Map()) - {entry.key}
    {
      ChainMapWithout(chain, i);
      DistinctWithout(chain, i);
      hide ChainMap, DistinctKeys;
      if entry == head {
        head := entry.next;
      } else if entry.next == null {
        entry.prev.next := null;
      } else {
        entry.next.prev := entry.prev;
        entry.prev.next := entry.next;
      }
      chain := chain[..i] + chain[i + 1..];
    }
  }

  /** Descriptors and page numbers are not negative, so the remainder is a bucket number. */
  predicate Hashable(k: Key) {
    k.fd + k.page >= 0
  }

  function Hash(k: Key, n: nat): (b: nat)
    requires Hashable(k) && n > 0
    ensures b < n
  {
    (k.fd + k.page) % n
  }

  /** Every page is in the bucket its hash names, and the contents are what the buckets map. */
  ghost predicate Filed(maps: seq<map<Key, nat>>, contents: map<Key, nat>) {
    && maps != []
    && (forall b, k :: 0 <= b < |maps| && k in maps[b] ==>
          Hashable(k) && Hash(k, |maps|) == b && k in contents && contents[k] == maps[b][k])
    && (forall k :: k in contents ==> Hashable(k) && k in maps[Hash(k, |maps|)])
  }

  function Put(m: map<Key, nat>, k: Key, slot: nat): map<Key, nat> {
    m[k := slot]
  }

  lemma FiledInsert(maps: seq<map<Key, nat>>, contents: map<Key, nat>, k: Key, slot: nat)
    requires Filed(maps, contents) && Hashable(k) && k !in contents
    ensures |maps| > 0 && var b := Hash(k, |maps|); Filed(maps[b := Put(maps[b], k, slot)], contents[k := slot])
  {
    hide Hash;
  }

  lemma FiledLacks(maps: seq<map<Key, nat>>, contents: map<Key, nat>, k: Key)
    requires Filed(maps, contents) && Hashable(k)
    ensures |maps| > 0 && (k in contents <==> k in maps[Hash(k, |maps|)])
  {
    hide Hash;
  }

  lemma FiledRemove(maps: seq<map<Key, nat>>, contents: map<Key, nat>, k: Key)
    requires Filed(maps, contents) && Hashable(k)
    ensures |maps| > 0 && var b := Hash(k, |maps|); Filed(maps[b := maps[b] - {k}], contents - {k})
  {
    hide Hash;
  }

  class Table {
    const buckets: seq<Bucket>
    ghost var Repr: set<object>
    ghost var Contents: map<Key, nat>

    ghost predicate Shape()
      reads this, Repr
    {
      && this in Repr && buckets != []
      && (forall b :: 0 <= b < |buckets| ==> buckets[b] in Repr && buckets[b].Repr <= Repr && this !in buckets[b].Repr)
      && (forall b, c :: 0 <= b < c < |buckets| ==> buckets[b].Repr !! buckets[c].Repr)
      && (forall b :: 0 <= b < |buckets| ==> buckets[b].Valid())
    }

    ghost function Maps(): (m: seq<map<Key, nat>>)
      reads this, Repr
      requires Shape()
      ensures |m| == |buckets|
      ensures forall b :: 0 <= b < |m| ==> m[b] == buckets[b].Map()
    {
      seq(|buckets|, b requires 0 <= b < |buckets| && buckets[b] in Repr reads this, Repr => buckets[b].Map())
    }

    ghost predicate Valid()
      reads this, Repr
    {
      Shape() && Filed(Maps(), Contents)
    }

    constructor (n: nat)
      requires n > 0
      ensures Valid() && fresh(Repr) && Contents == map[]
    {
      hide Hash, ChainMap, Linked, DistinctKeys;
      var bs: seq<Bucket> := [];
      ghost var all: set<object> := {};
      while |bs| < n
        invariant |bs| <= n && fresh(all)
        invariant forall b :: 0 <= b < |bs| ==> bs[b] in all && bs[b].Repr <= all && bs[b].Valid() && bs[b].Map() == map[]
        invariant forall b, c :: 0 <= b < c < |bs| ==> bs[b].Repr !! bs[c].Repr
      {
        var bucket := new Bucket();
        bs := bs + [bucket];
        all := all + bucket.Repr;
      }
      buckets := bs;
      Contents := map[];
      Repr := {this} + all;
    }

    method Find(k: Key) returns (slot: int)
      requires Valid() && Hashable(k)
      ensures slot == if k in Contents then Contents[k] else -1
    {
      hide Hash;
      var bucket := buckets[Hash(k, |buckets|)];
      var entry, i := bucket.Locate(k);
      slot := if entry == null then -1 else entry.slot;
    }

    method Insert(k: Key, slot: nat)
      requires Valid() && Hashable(k)
      modifies Repr
      ensures Valid() && fresh(Repr - old(Repr))
      ensures Contents == if k in old(Contents) then old(Contents) else old(Contents)[k := slot]
    {
      hide Hash, ChainMap, Linked, DistinctKeys, Filed;
      var exist := Find(k);
      if exist != -1 {
        return;
      }
      var b := Hash(k, |buckets|);
      var bucket := buckets[b];
      FiledLacks(Maps(), Contents, k);
      FiledInsert(Maps(), Contents, k, slot);
      bucket.PushFront(k, slot);
      Repr := Repr + bucket.Repr;
      Contents := Contents[k := slot];
      assert Shape();
      assert Maps() == old(Maps())[b := Put(old(Maps())[b], k, slot)];
    }

    method Remove(k: Key)
      requires Valid() && Hashable(k)
      modifies Repr
      ensures Valid() && fresh(Repr - old(Repr))
      ensures Contents == old(Contents) - {k}
    {
      hide Hash, ChainMap, Linked, DistinctKeys, Filed;
      var b := Hash(k, |buckets|);
      var bucket := buckets[b];
      FiledLacks(Maps(), Contents, k);
      FiledRemove(Maps(), Contents, k);
      var entry, i := bucket.Locate(k);
      if entry == null {
        return;
      }
      bucket.Unlink(entry, i);
      Contents := Contents - {k};
      assert Shape();
      assert Maps() == old(Maps())[b := old(Maps())[b] - {k}];
    }
  }
}
