/**
 The factorizer's cache: a map into a doubly linked ring between two sentinels. Every
 operation refines the list specification in module Lru.
 */
module LruRing {
  import opened Collections
  import opened Lru
  import opened FactorTypes

  class CacheNode {
    const key: int64
    var value: Factorization
    var prev: CacheNode?
    var next: CacheNode?

    constructor (key: int64, value: Factorization)
      ensures this.key == key && this.value == value
    {
      this.key := key;
      this.value := value;
      prev, next := null, null;
    }
  }

  // ---------- sequences with one place filled ----------

  // x goes to the second place, behind the head sentinel.
  ghost function Inserted<T>(s: seq<T>, x: T): (r: seq<T>)
    requires |s| >= 1
    ensures |r| == |s| + 1 && r[0] == s[0] && r[1] == x
    ensures forall j :: 1 < j < |r| ==> r[j] == s[j - 1]
  {
    [s[0], x] + s[1..]
  }

  lemma InsertedDistinct<T>(s: seq<T>, x: T)
    requires |s| >= 1 && Distinct(s) && forall j :: 0 <= j < |s| ==> s[j] != x
    ensures Distinct(Inserted(s, x))
  {
    hide Inserted;
  }

  // ---------- the ring ----------

  // Each node points to its neighbours.
  ghost predicate Linked(s: seq<CacheNode>)
    reads s
  {
    forall i :: 0 <= i < |s| - 1 ==> s[i].next == s[i + 1] && s[i + 1].prev == s[i]
  }

  // The inner nodes of the ring carry these entries, in this order.
  ghost predicate Carries(ring: seq<CacheNode>, entries: seq<Entry<int64, Factorization>>)
    reads ring
  {
    && |ring| == |entries| + 2
    && forall i :: 0 <= i < |entries| ==> entries[i].key == ring[i + 1].key && entries[i].value == ring[i + 1].value
  }

  lemma CarriesMoved(ring: seq<CacheNode>, c: seq<Entry<int64, Factorization>>, i: nat)
    requires Carries(ring, c) && i < |c|
    ensures Carries(Inserted(Removed(ring, i + 1), ring[i + 1]), [c[i]] + Removed(c, i))
  {
    hide Removed;
    hide Inserted;
  }

  lemma CarriesInserted(ring: seq<CacheNode>, c: seq<Entry<int64, Factorization>>, n: CacheNode)
    requires Carries(ring, c)
    ensures Carries(Inserted(ring, n), [Entry(n.key, n.value)] + c)
  {
    hide Inserted;
  }

  lemma CarriesEvicted(ring: seq<CacheNode>, c: seq<Entry<int64, Factorization>>)
    requires Carries(ring, c) && c != []
    ensures Carries(Removed(ring, |ring| - 2), Removed(c, |c| - 1))
  {
    hide Removed;
  }

  // The map holds exactly the inner nodes of the ring, each under its own key.
  ghost predicate Indexed(items: map<int64, CacheNode>, ring: seq<CacheNode>) {
    && |ring| == |items| + 2
    && (forall i :: 1 <= i < |ring| - 1 ==> ring[i].key in items && items[ring[i].key] == ring[i])
    && (forall k :: k in items ==> items[k].key == k && exists i :: 1 <= i < |ring| - 1 && ring[i] == items[k])
  }

  lemma IndexMoved(items: map<int64, CacheNode>, ring: seq<CacheNode>, i: nat)
    requires Indexed(items, ring) && 1 <= i < |ring| - 1
    ensures Indexed(items, Inserted(Removed(ring, i), ring[i]))
  {
    hide Removed;
    hide Inserted;
    var moved := Inserted(Removed(ring, i), ring[i]);
    forall k | k in items ensures exists j :: 1 <= j < |moved| - 1 && moved[j] == items[k] {
      var j :| 1 <= j < |ring| - 1 && ring[j] == items[k];
      assert moved[if j == i then 1 else if j < i then j + 1 else j] == items[k];
    }
  }

  lemma IndexInserted(items: map<int64, CacheNode>, ring: seq<CacheNode>, n: CacheNode)
    requires Indexed(items, ring) && n.key !in items
    ensures Indexed(items[n.key := n], Inserted(ring, n))
  {
    hide Inserted;
    var more, longer := items[n.key := n], Inserted(ring, n);
    forall k | k in more ensures exists j :: 1 <= j < |longer| - 1 && longer[j] == more[k] {
      if k == n.key {
        assert longer[1] == more[k];
      } else {
        var j :| 1 <= j < |ring| - 1 && ring[j] == items[k];
        assert longer[j + 1] == more[k];
      }
    }
  }

  lemma LastIsApart(ring: seq<CacheNode>)
    requires Distinct(ring) && |ring| >= 3
    ensures forall j :: 0 <= j < |ring| && j != |ring| - 2 ==> ring[j] != ring[|ring| - 2]
  {
  }

  lemma IndexEvicted(items: map<int64, CacheNode>, ring: seq<CacheNode>)
    requires Indexed(items, ring) && Distinct(ring) && |ring| >= 3
    ensures Indexed(items - {ring[|ring| - 2].key}, Removed(ring, |ring| - 2))
  {
    hide Removed;
    var last := |ring| - 2;
    var lru := ring[last];
    var less, shorter := items - {lru.key}, Removed(ring, last);
    RemovalShrinks(items, lru.key);
    hide Distinct;
    LastIsApart(ring);
    forall k | k in less
      ensures less[k].key == k && exists j :: 1 <= j < |shorter| - 1 && shorter[j] == less[k]
    {
      var j :| 1 <= j < |ring| - 1 && ring[j] == items[k];
      assert ring[j] != lru;
      assert shorter[j] == less[k];
    }
    forall j | 1 <= j < |shorter| - 1
      ensures shorter[j].key in less && less[shorter[j].key] == shorter[j]
    {
      assert shorter[j] == ring[j] && items[ring[j].key] == ring[j] && ring[j] != lru;
    }
  }

  // No two inner nodes share a key.
  lemma IndexKeys(items: map<int64, CacheNode>, ring: seq<CacheNode>, ks: seq<int64>)
    requires Indexed(items, ring) && Distinct(ring)
    requires |ks| == |ring| - 2 && forall i :: 0 <= i < |ks| ==> ks[i] == ring[i + 1].key
    ensures Distinct(ks) && forall k :: k in items <==> k in ks
  {
    forall i, j | 0 <= i < j < |ks| ensures ks[i] != ks[j] {
      assert items[ks[i]] == ring[i + 1] && items[ks[j]] == ring[j + 1] && ring[i + 1] != ring[j + 1];
    }
    forall k | k in items ensures k in ks {
      var i :| 1 <= i < |ring| - 1 && ring[i] == items[k];
      assert ks[i - 1] == k;
    }
    forall k | k in ks ensures k in items {
      var i :| 0 <= i < |ks| && ks[i] == k;
      assert ring[i + 1].key in items;
    }
  }

  lemma InKeysMeansHasKey(s: seq<Entry<int64, Factorization>>, k: int64)
    ensures HasKey(s, k) <==> k in Keys(s)
  {
    if HasKey(s, k) {
      var i :| 0 <= i < |s| && s[i].key == k;
      assert Keys(s)[i] == k;
    }
  }

  class LruCache {
    const cap: int
    const head: CacheNode
    const tail: CacheNode
    var items: map<int64, CacheNode>
    var hits: nat
    var misses: nat

    // The ring from the head sentinel to the tail sentinel, most recent entry first.
    ghost var ring: seq<CacheNode>

    // All nodes ever linked in.
    ghost var Repr: set<CacheNode>

    // The abstract cache: what the inner nodes hold.
    ghost var Contents: seq<Entry<int64, Factorization>>

    ghost predicate WellLinked()
      reads `ring, `Repr, Repr
    {
      && |ring| >= 2 && ring[0] == head && ring[|ring| - 1] == tail
      && (forall i :: 0 <= i < |ring| ==> ring[i] in Repr)
      && Distinct(ring) && Linked(ring)
    }

    // The ring, the map and the abstract contents agree.
    ghost predicate Consistent()
      reads `ring, `Repr, `items, `Contents, Repr
    {
      WellLinked() && Indexed(items, ring) && Carries(ring, Contents)
    }

    ghost predicate Valid()
      reads `ring, `Repr, `items, `Contents, Repr
    {
      Consistent() && 1 <= cap && |Contents| <= cap
    }

    constructor (capacity: int)
      requires capacity >= 1
      ensures Valid() && fresh(Repr) && cap == capacity
      ensures Contents == [] && hits == 0 && misses == 0
    {
      var h := new CacheNode(0, Factorization(0, [], false));
      var t := new CacheNode(0, Factorization(0, [], false));
      h.next := t;
      t.prev := h;
      cap, items, head, tail := capacity, map[], h, t;
      hits, misses, ring, Repr, Contents := 0, 0, [h, t], {h, t}, [];
    }

    // ---------- the ring operations ----------

    method RemoveNode(n: CacheNode, ghost i: nat)
      requires WellLinked() && 1 <= i < |ring| - 1 && ring[i] == n
      modifies `ring, Repr
      ensures WellLinked() && ring == Removed(old(ring), i)
      ensures forall m :: m in Repr ==> m.value == old(m.value)
    {
      hide Removed;
      RemovedDistinct(ring, i);
      assert ring[i - 1].next == ring[i] && ring[i].prev == ring[i - 1];
      assert ring[i].next == ring[i + 1] && ring[i + 1].prev == ring[i];
      n.prev.next := n.next;
      n.next.prev := n.prev;
      ring := Removed(ring, i);
    }

    method AddToFront(n: CacheNode)
      requires WellLinked() && n in Repr && forall j :: 0 <= j < |ring| ==> ring[j] != n
      modifies `ring, Repr
      ensures WellLinked() && ring == Inserted(old(ring), n)
      ensures forall m :: m in Repr ==> m.value == old(m.value)
    {
      hide Inserted;
      InsertedDistinct(ring, n);
      assert ring[0].next == ring[1] && ring[1].prev == ring[0];
      n.next := head.next;
      n.prev := head;
      head.next.prev := n;
      head.next := n;
      ring := Inserted(ring, n);
    }

    method MoveToFront(n: CacheNode, ghost i: nat)
      requires WellLinked() && 1 <= i < |ring| - 1 && ring[i] == n
      modifies `ring, Repr
      ensures WellLinked() && ring == Inserted(Removed(old(ring), i), n)
      ensures forall m :: m in Repr ==> m.value == old(m.value)
    {
      hide Removed;
      hide Inserted;
      RemovedDistinct(ring, i);
      RemoveNode(n, i);
      AddToFront(n);
    }

    // ---------- walking the ring ----------

    // The node reached from the head sentinel by k next pointers.
    ghost function Forward(k: nat): CacheNode?
      reads Repr, this`Repr
    {
      if k == 0 then head else
        var n := Forward(k - 1);
        if n == null || n !in Repr then null else n.next
    }

    // The node reached from the tail sentinel by k prev pointers.
    ghost function Backward(k: nat): CacheNode?
      reads Repr, this`Repr
    {
      if k == 0 then tail else
        var n := Backward(k - 1);
        if n == null || n !in Repr then null else n.prev
    }

    lemma {:induction false} ForwardIs(k: nat)
      requires WellLinked() && k < |ring|
      ensures Forward(k) == ring[k]
    {
      if k > 0 {
        ForwardIs(k - 1);
      }
    }

    lemma {:induction false} BackwardIs(k: nat)
      requires WellLinked() && k < |ring|
      ensures Backward(k) == ring[|ring| - 1 - k]
    {
      if k > 0 {
        BackwardIs(k - 1);
        assert ring[|ring| - 1 - k + 1] == Backward(k - 1);
      }
    }

    /** The forward walk is the reverse of the backward walk, and between the sentinels it
        meets exactly the nodes of the map, in order of recency. */
    lemma WalksMirror(k: nat)
      requires Valid() && k <= |Contents| + 1
      ensures Forward(k) != null && Forward(k) == Backward(|Contents| + 1 - k)
      ensures Forward(0) == head && Forward(|Contents| + 1) == tail
      ensures 1 <= k <= |Contents| ==>
        var e := Contents[k - 1]; e.key in items && Forward(k) == items[e.key] && items[e.key].value == e.value
    {
      ForwardIs(k);
      BackwardIs(|Contents| + 1 - k);
      ForwardIs(|Contents| + 1);
    }

    // ---------- get and put ----------

    lemma KeysAreDistinct()
      requires Consistent()
      ensures Distinct(Keys(Contents)) && forall k :: k in items <==> HasKey(Contents, k)
    {
      IndexKeys(items, ring, Keys(Contents));
      forall k ensures k in items <==> HasKey(Contents, k) {
        InKeysMeansHasKey(Contents, k);
      }
    }

    // Where a present key is.
    lemma Locate(key: int64) returns (i: nat)
      requires Consistent() && key in items
      ensures i < |Contents| && ring[i + 1] == items[key] && Contents[i].key == key
      ensures HasKey(Contents, key) && Lookup(Contents, key) == Contents[i].value
      ensures Drop(Contents, key) == Removed(Contents, i)
    {
      KeysAreDistinct();
      var j :| 1 <= j < |ring| - 1 && ring[j] == items[key];
      i := j - 1;
      LookupAt(Contents, i);
    }

    // moveToFront on the node of entry i, as both get and put use it.
    method Refresh(n: CacheNode, ghost i: nat)
      requires Consistent() && i < |Contents| && ring[i + 1] == n
      modifies `ring, `Contents, Repr
      ensures Consistent() && Contents == [old(Contents)[i]] + Removed(old(Contents), i)
      ensures n.value == old(n.value)
    {
      hide Consistent;
      hide WellLinked;
      hide Indexed;
      hide Distinct;
      hide Linked;
      hide Removed;
      hide Inserted;
      EntryNode(i);
      IndexMoved(items, ring, i + 1);
      MoveToFront(n, i + 1);
      assert Carries(old(ring), Contents);
      hide Carries;
      CarriesMoved(old(ring), Contents, i);
      Contents := [Contents[i]] + Removed(Contents, i);
      Reassemble();
    }

    // What consistency says about the node of one entry.
    lemma EntryNode(i: nat)
      requires Consistent() && i < |Contents|
      ensures |ring| == |Contents| + 2 && ring[i + 1] in Repr
      ensures forall j :: 0 <= j < |ring| ==> ring[j] in Repr
      ensures WellLinked() && Indexed(items, ring) && Carries(ring, Contents)
      ensures i == |Contents| - 1 ==> tail.prev == ring[i + 1] && Distinct(ring)
    {
    }

    lemma Reassemble()
      requires WellLinked() && Indexed(items, ring) && Carries(ring, Contents)
      ensures Consistent()
    {
    }

    // get on a key that is present.
    method Hit(key: int64) returns (v: Factorization)
      requires Consistent() && key in items && HasKey(Contents, key)
      modifies `ring, `Contents, Repr
      ensures Consistent() && v == Lookup(old(Contents), key)
      ensures Contents == [Entry(key, v)] + Drop(old(Contents), key)
    {
      var node := items[key];
      ghost var i := Locate(key);
      hide *;
      Refresh(node, i);
      v := node.value;
    }

    // What validity says about one key.
    lemma AboutKey(key: int64)
      requires Valid()
      ensures Consistent() && (key in items <==> HasKey(Contents, key))
      ensures HasKey(Contents, key) ==> |Drop(Contents, key)| < |Contents|
      ensures !HasKey(Contents, key) ==> Drop(Contents, key) == Contents
      ensures 1 <= cap && |Contents| <= cap
    {
      KeysAreDistinct();
      hide Consistent;
      hide HasKey;
      DropIsShorter(Contents, key);
      if !HasKey(Contents, key) {
        DropAbsent(Contents, key);
      }
    }

    lemma Revalidate()
      requires Consistent() && 1 <= cap && |Contents| <= cap
      ensures Valid()
    {
    }

    /** get: the specification's Get, and the hit and miss counters. */
    method Get(key: int64) returns (r: Option<Factorization>)
      requires Valid()
      modifies this, Repr
      ensures Valid() && Repr == old(Repr)
      ensures Contents == Lru.Get(old(Contents), key)
      ensures r == if HasKey(old(Contents), key) then Some(Lookup(old(Contents), key)) else None
      ensures hits == old(hits) + (if HasKey(old(Contents), key) then 1 else 0)
      ensures misses == old(misses) + (if HasKey(old(Contents), key) then 0 else 1)
    {
      hide *;
      AboutKey(key);
      GetMeans(Contents, key);
      if key !in items {
        misses := misses + 1;
        return None;
      }
      hits := hits + 1;
      var v := Hit(key);
      Revalidate();
      r := Some(v);
    }

    // node.value = val, for the node of entry i.
    method Overwrite(n: CacheNode, ghost i: nat, val: Factorization)
      requires Consistent() && i < |Contents| && ring[i + 1] == n
      modifies `Contents, n`value
      ensures Consistent() && Contents == old(Contents)[i := Entry(n.key, val)]
    {
      hide Indexed;
      assert forall j :: 0 <= j < |ring| && j != i + 1 ==> ring[j] != n;
      n.value := val;
      Contents := Contents[i := Entry(n.key, val)];
    }

    // put on a key that is present.
    method PutPresent(key: int64, val: Factorization)
      requires Consistent() && key in items
      modifies `ring, `Contents, Repr
      ensures Consistent() && Contents == [Entry(key, val)] + Drop(old(Contents), key)
    {
      var node := items[key];
      ghost var i := Locate(key);
      assert node.key == key && node in Repr;
      hide *;
      Overwrite(node, i, val);
      SameRest(old(Contents), Contents, i);
      Refresh(node, i);
    }

    // put on a new key, up to the capacity check.
    method Insert(key: int64, val: Factorization)
      requires Consistent() && key !in items
      modifies `ring, `Contents, `items, `Repr, Repr
      ensures Consistent() && fresh(Repr - old(Repr))
      ensures Contents == [Entry(key, val)] + old(Contents)
    {
      hide Indexed;
      hide Distinct;
      hide Linked;
      hide Inserted;
      var node := new CacheNode(key, val);
      IndexInserted(items, ring, node);
      items := items[key := node];
      Repr := Repr + {node};
      StillLinked();
      assert forall j :: 0 <= j < |ring| ==> ring[j] != node;
      hide WellLinked;
      AddToFront(node);
      assert Carries(old(ring), Contents);
      hide Carries;
      CarriesInserted(old(ring), Contents, node);
      Contents := [Entry(key, val)] + Contents;
    }

    // A new node in Repr does not disturb the ring.
    twostate lemma StillLinked()
      requires old(WellLinked()) && ring == old(ring) && old(Repr) <= Repr
      requires forall m :: m in old(Repr) ==> unchanged(m)
      ensures WellLinked()
    {
    }

    // Dropping the node before the tail sentinel, and its key from the map.
    method EvictLast()
      requires Consistent() && Contents != []
      modifies `ring, `Contents, `items, Repr
      ensures Consistent() && Contents == old(Contents)[..|old(Contents)| - 1]
    {
      hide *;
      ghost var last := |Contents| - 1;
      EntryNode(last);
      IndexEvicted(items, ring);
      RemovedLast(Contents);
      var lru := UnlinkLast(last);
      items := items - {lru.key};
      Contents := Removed(Contents, last);
      Reassemble();
    }

    // The node before the tail leaves the ring.
    method UnlinkLast(ghost last: nat) returns (lru: CacheNode)
      requires Consistent() && last == |Contents| - 1
      modifies `ring, Repr
      ensures WellLinked() && lru == old(ring)[last + 1] && |old(ring)| == |Contents| + 2
      ensures ring == Removed(old(ring), last + 1) && Carries(ring, Removed(Contents, last))
    {
      hide Consistent, WellLinked, Indexed, Distinct, Linked, Removed, Inserted;
      EntryNode(last);
      lru := tail.prev;
      RemoveNode(lru, last + 1);
      assert Carries(old(ring), Contents);
      hide Carries;
      CarriesEvicted(old(ring), Contents);
    }

    /** put: the specification's Put. The entry put is always the first one held. */
    method Put(key: int64, val: Factorization)
      requires Valid()
      modifies this, Repr
      ensures Valid() && fresh(Repr - old(Repr))
      ensures Contents == Lru.Put(old(Contents), key, val, cap)
      ensures Contents != [] && Contents[0] == Entry(key, val)
      ensures hits == old(hits) && misses == old(misses)
    {
      hide *;
      AboutKey(key);
      PutMeans(Contents, key, val, cap);
      if key in items {
        PutPresent(key, val);
        Revalidate();
      } else {
        PutAbsent(key, val);
      }
    }

    // put on a new key: insert, then evict beyond capacity.
    method PutAbsent(key: int64, val: Factorization)
      requires Valid() && key !in items
      modifies `ring, `Contents, `items, `Repr, Repr
      ensures Valid() && fresh(Repr - old(Repr))
      ensures Contents == Truncate([Entry(key, val)] + old(Contents), cap)
    {
      hide Consistent;
      hide Truncate;
      TruncateByOne([Entry(key, val)] + Contents, cap);
      Insert(key, val);
      SizesAgree();
      if |items| > cap {
        EvictLast();
      }
    }

    lemma SizesAgree()
      requires Consistent()
      ensures |items| == |Contents|
    {
    }
  }

  lemma GetMeans(s: seq<Entry<int64, Factorization>>, k: int64)
    ensures HasKey(s, k) ==> Lru.Get(s, k) == [Entry(k, Lookup(s, k))] + Drop(s, k)
    ensures !HasKey(s, k) ==> Lru.Get(s, k) == s
  {
  }

  lemma PutMeans(s: seq<Entry<int64, Factorization>>, k: int64, v: Factorization, cap: nat)
    ensures Lru.Put(s, k, v, cap) == Truncate([Entry(k, v)] + Drop(s, k), cap)
    ensures cap >= 1 ==> Lru.Put(s, k, v, cap) != [] && Lru.Put(s, k, v, cap)[0] == Entry(k, v)
    ensures |Drop(s, k)| < cap ==> Lru.Put(s, k, v, cap) == [Entry(k, v)] + Drop(s, k)
  {
  }

  lemma TruncateByOne<T>(s: seq<T>, n: nat)
    requires |s| <= n + 1
    ensures Truncate(s, n) == if |s| > n then s[..|s| - 1] else s
  {
  }

  lemma SameRest<T>(s: seq<T>, t: seq<T>, i: nat)
    requires i < |s| && |t| == |s| && forall j :: 0 <= j < |s| && j != i ==> t[j] == s[j]
    ensures Removed(t, i) == Removed(s, i)
  {
  }
}
