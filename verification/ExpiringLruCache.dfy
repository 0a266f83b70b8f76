/**
 The class behind module ExpiringLru: a list of shared entries, most recent first, and a
 map from keys to the same entries.
 */
module ExpiringLruCache {
  import opened Collections
  import opened Lru
  import opened ExpiringLru

  class CacheEntry {
    const key: string
    var value: Embedding
    var expiresAt: int

    constructor (key: string, value: Embedding, expiresAt: int)
      ensures this.key == key && this.value == value && this.expiresAt == expiresAt
    {
      this.key, this.value, this.expiresAt := key, value, expiresAt;
    }
  }

  // The list and the map hold the same entries, each under its own key.
  ghost predicate Indexed(items: map<string, CacheEntry>, list: seq<CacheEntry>) {
    && Distinct(list) && |items| == |list|
    && (forall i :: 0 <= i < |list| ==> list[i].key in items && items[list[i].key] == list[i])
    && (forall k :: k in items ==> items[k].key == k && exists i :: 0 <= i < |list| && list[i] == items[k])
  }

  ghost predicate Carries(list: seq<CacheEntry>, slots: Slots)
    reads list
  {
    && |list| == |slots|
    && forall i :: 0 <= i < |list| ==>
         slots[i] == Entry(list[i].key, Timed(list[i].value, list[i].expiresAt))
  }

  ghost predicate Owned(list: seq<CacheEntry>, nodes: set<CacheEntry>) {
    forall i :: 0 <= i < |list| ==> list[i] in nodes
  }

  // No two slots share a key, and the map knows exactly the keys of the slots.
  lemma IndexKeys(items: map<string, CacheEntry>, list: seq<CacheEntry>, slots: Slots, k: string)
    requires Indexed(items, list) && Carries(list, slots)
    ensures Distinct(Keys(slots)) && (k in items <==> HasKey(slots, k))
  {
    forall i, j | 0 <= i < j < |slots| ensures Keys(slots)[i] != Keys(slots)[j] {
      assert items[list[i].key] == list[i] && items[list[j].key] == list[j] && list[i] != list[j];
    }
    if k in items {
      var i :| 0 <= i < |list| && list[i] == items[k];
      assert slots[i].key == k;
    }
    forall i | 0 <= i < |slots| ensures slots[i].key in items {
      assert list[i].key in items;
    }
  }

  // list.Remove and delete(items, key).
  lemma IndexRemoved(items: map<string, CacheEntry>, list: seq<CacheEntry>, i: nat)
    requires Indexed(items, list) && i < |list|
    ensures list[i].key in items && Indexed(items - {list[i].key}, Removed(list, i))
  {
    RemovedDistinct(list, i);
    hide Removed;
    var e := list[i];
    var less, rest := items - {e.key}, Removed(list, i);
    RemovalShrinks(items, e.key);
    forall k | k in less ensures exists j :: 0 <= j < |rest| && rest[j] == less[k] {
      var j :| 0 <= j < |list| && list[j] == items[k];
      assert rest[if j < i then j else j - 1] == less[k];
    }
    forall j | 0 <= j < |rest| ensures rest[j].key in less && less[rest[j].key] == rest[j] {
      assert items[rest[j].key] == rest[j] && items[e.key] == e;
    }
  }

  // list.MoveToFront.
  lemma IndexMoved(items: map<string, CacheEntry>, list: seq<CacheEntry>, i: nat)
    requires Indexed(items, list) && i < |list|
    ensures Indexed(items, [list[i]] + Removed(list, i))
  {
    RemovedDistinct(list, i);
    hide Removed;
    var moved := [list[i]] + Removed(list, i);
    forall k | k in items ensures exists j :: 0 <= j < |moved| && moved[j] == items[k] {
      var j :| 0 <= j < |list| && list[j] == items[k];
      assert moved[if j == i then 0 else if j < i then j + 1 else j] == items[k];
    }
  }

  // list.PushFront of a new entry.
  lemma IndexPushed(items: map<string, CacheEntry>, list: seq<CacheEntry>, e: CacheEntry)
    requires Indexed(items, list) && e.key !in items
    ensures Indexed(items[e.key := e], [e] + list)
  {
    var more, pushed := items[e.key := e], [e] + list;
    forall k | k in more ensures exists j :: 0 <= j < |pushed| && pushed[j] == more[k] {
      if k == e.key {
        assert pushed[0] == more[k];
      } else {
        var j :| 0 <= j < |list| && list[j] == items[k];
        assert pushed[j + 1] == more[k];
      }
    }
  }

  lemma CarriesFront(e: CacheEntry, list: seq<CacheEntry>, slots: Slots)
    requires Carries(list, slots)
    ensures Carries([e] + list, [Entry(e.key, Timed(e.value, e.expiresAt))] + slots)
  {
  }

  lemma CarriesRemoved(list: seq<CacheEntry>, slots: Slots, i: nat)
    requires Carries(list, slots) && i < |list|
    ensures Carries(Removed(list, i), Removed(slots, i))
  {
    hide Removed;
  }

  lemma ReplaceFirst(e: Entry<string, Timed>, s: Slots, e': Entry<string, Timed>)
    ensures ([e] + s)[0 := e'] == [e'] + s
  {
  }

  lemma GetMeans(s: Slots, k: string, now: int)
    ensures !HasKey(s, k) ==> AfterGet(s, k, now) == s && GetResult(s, k, now) == Miss
    ensures HasKey(s, k) && now > Lookup(s, k).expiresAt ==>
      AfterGet(s, k, now) == Drop(s, k) && GetResult(s, k, now) == Miss
    ensures HasKey(s, k) && now <= Lookup(s, k).expiresAt ==>
      AfterGet(s, k, now) == [Entry(k, Lookup(s, k))] + Drop(s, k) && GetResult(s, k, now) == Hit(Lookup(s, k).value)
  {
  }

  lemma SetMeans(s: Slots, k: string, v: Embedding, now: int, ttl: int, capacity: int)
    ensures var e := Entry(k, Timed(v, now + ttl));
      && (HasKey(s, k) ==> AfterSet(s, k, v, now, ttl, capacity) == [e] + Drop(s, k))
      && (!HasKey(s, k) && |s| >= capacity && s != [] ==> AfterSet(s, k, v, now, ttl, capacity) == [e] + Cut(s))
      && (!HasKey(s, k) && (|s| < capacity || s == []) ==> AfterSet(s, k, v, now, ttl, capacity) == [e] + s)
  {
    hide Drop, Cut, HasKey;
  }

  class LRUCache {
    const capacity: int
    const ttl: int
    var list: seq<CacheEntry>
    var items: map<string, CacheEntry>

    ghost var Repr: set<CacheEntry>
    ghost var Contents: Slots

    ghost predicate Valid()
      reads this, Repr
    {
      Owned(list, Repr) && Indexed(items, list) && Carries(list, Contents)
    }

    constructor (capacity: int, ttl: int)
      ensures Valid() && Contents == [] && this.capacity == capacity && this.ttl == ttl
      ensures fresh(Repr)
    {
      this.capacity, this.ttl := capacity, ttl;
      list, items, Repr, Contents := [], map[], {}, [];
    }

    // Where a present key is, and what removing or moving its entry amounts to.
    lemma Locate(key: string) returns (i: nat)
      requires Valid() && key in items
      ensures i < |list| == |Contents| && list[i] == items[key] && list[i].key == key && list[i] in Repr
      ensures HasKey(Contents, key)
      ensures Lookup(Contents, key) == Timed(list[i].value, list[i].expiresAt)
      ensures Drop(Contents, key) == Removed(Contents, i)
      ensures Without(list, list[i]) == Removed(list, i)
      ensures Indexed(items - {key}, Removed(list, i))
      ensures Indexed(items, [list[i]] + Removed(list, i))
      ensures Carries(Removed(list, i), Removed(Contents, i))
      ensures Owned(Removed(list, i), Repr) && Owned([list[i]] + Removed(list, i), Repr)
      ensures list[i] !in Removed(list, i)
    {
      IndexKeys(items, list, Contents, key);
      i :| 0 <= i < |list| && list[i] == items[key];
      assert Contents[i].key == key;
      LookupAt(Contents, i);
      WithoutAt(list, i);
      IndexRemoved(items, list, i);
      IndexMoved(items, list, i);
      CarriesRemoved(list, Contents, i);
      RemovedDistinct(list, i);
    }

    lemma Reassemble()
      requires Owned(list, Repr) && Indexed(items, list) && Carries(list, Contents)
      ensures Valid()
    {
    }

    lemma AboutKey(key: string)
      requires Valid()
      ensures key in items <==> HasKey(Contents, key)
      ensures |list| == |Contents| == |items|
    {
      IndexKeys(items, list, Contents, key);
    }

    /** Get: the specification's result and new contents. */
    method Get(key: string, now: int) returns (r: Found)
      requires Valid()
      modifies this
      ensures Valid() && Repr == old(Repr)
      ensures Contents == AfterGet(old(Contents), key, now)
      ensures r == GetResult(old(Contents), key, now)
    {
      hide *;
      AboutKey(key);
      GetMeans(Contents, key, now);
      if key !in items {
        return Miss;
      }
      var elem := items[key];
      ghost var i := Locate(key);
      if now > elem.expiresAt {
        list := Without(list, elem);
        items := items - {key};
        Contents := Drop(Contents, key);
        Reassemble();
        return Miss;
      }
      MoveToFront(key);
      r := Hit(elem.value);
    }

    // list.MoveToFront(c.items[key]).
    method MoveToFront(key: string)
      requires Valid() && key in items
      modifies `list, `Contents
      ensures Valid() && list != [] && list[0] == items[key]
      ensures HasKey(old(Contents), key)
      ensures Contents == [Entry(key, Lookup(old(Contents), key))] + Drop(old(Contents), key)
    {
      hide *;
      var elem := items[key];
      ghost var i := Locate(key);
      CarriesFront(elem, Without(list, elem), Drop(Contents, key));
      list := [elem] + Without(list, elem);
      Contents := [Entry(key, Lookup(Contents, key))] + Drop(Contents, key);
      Reassemble();
    }

    // The fields of the first entry.
    method OverwriteFirst(value: Embedding, now: int)
      requires Valid() && list != []
      modifies list[0], `Contents
      ensures Valid() && old(Contents) != []
      ensures Contents == old(Contents)[0 := Entry(old(list[0].key), Timed(value, now + ttl))]
    {
      OnlyFirst();
      hide Indexed;
      hide Owned;
      var e := list[0];
      e.value := value;
      e.expiresAt := now + ttl;
      Contents := Contents[0 := Entry(e.key, Timed(value, now + ttl))];
    }

    lemma OnlyFirst()
      requires Valid() && list != []
      ensures Contents != [] && forall j :: 1 <= j < |list| ==> list[j] != list[0]
    {
    }

    // Set on a key that is present.
    method Overwrite(key: string, value: Embedding, now: int)
      requires Valid() && key in items
      modifies `list, `Contents, Repr
      ensures Valid()
      ensures Contents == [Entry(key, Timed(value, now + ttl))] + Drop(old(Contents), key)
    {
      hide *;
      var e := items[key];
      ghost var i := Locate(key);
      MoveToFront(key);
      OverwriteFirst(value, now);
      ReplaceFirst(Entry(key, Lookup(old(Contents), key)), Drop(old(Contents), key),
                   Entry(key, Timed(value, now + ttl)));
    }

    // list.Remove(list.Back()) and the deletion of its key.
    method EvictOldest()
      requires Valid() && list != []
      modifies `list, `items, `Contents
      ensures Valid() && Contents == Cut(old(Contents))
      ensures items.Keys <= old(items).Keys
    {
      hide *;
      LastEntry();
      var oldest := list[|list| - 1];
      list := list[..|list| - 1];
      items := items - {oldest.key};
      Contents := Cut(Contents);
      Reassemble();
    }

    lemma LastEntry()
      requires Valid() && list != []
      ensures var last := |list| - 1;
        && Contents != [] && Indexed(items - {list[last].key}, list[..last])
        && Carries(list[..last], Cut(Contents)) && Owned(list[..last], Repr)
      ensures (items - {list[|list| - 1].key}).Keys <= items.Keys
    {
      hide Indexed;
      hide Removed;
      IndexRemoved(items, list, |list| - 1);
      CarriesRemoved(list, Contents, |list| - 1);
      hide Carries;
      RemovedLast(list);
      RemovedLast(Contents);
    }

    method PushFront(key: string, value: Embedding, now: int)
      requires Valid() && key !in items
      modifies `list, `items, `Contents, `Repr
      ensures Valid() && fresh(Repr - old(Repr))
      ensures Contents == [Entry(key, Timed(value, now + ttl))] + old(Contents)
    {
      hide Indexed;
      var entry := new CacheEntry(key, value, now + ttl);
      IndexPushed(items, list, entry);
      list := [entry] + list;
      items := items[key := entry];
      Repr := Repr + {entry};
      Contents := [Entry(key, Timed(value, now + ttl))] + Contents;
    }

    /** Set: the specification's new contents. */
    method Set(key: string, value: Embedding, now: int)
      requires Valid()
      modifies this, Repr
      ensures Valid() && fresh(Repr - old(Repr))
      ensures Contents == AfterSet(old(Contents), key, value, now, ttl, capacity)
    {
      AboutKey(key);
      SetMeans(Contents, key, value, now, ttl, capacity);
      hide HasKey, Valid, Drop, Cut, AfterSet, MakeRoom;
      if key in items {
        Overwrite(key, value, now);
        return;
      }
      if |list| >= capacity {
        if list != [] {
          EvictOldest();
        }
      }
      PushFront(key, value, now);
    }

    /** Len. */
    method Len() returns (n: nat)
      requires Valid()
      ensures n == |Contents| == |items|
    {
      n := |list|;
    }
  }
}
