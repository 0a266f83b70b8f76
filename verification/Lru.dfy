/**
 A least-recently-used cache as a list of entries, most recent first: the
 specification that the pointer ring refines, and its inclusion property.
 */
module Lru {

  datatype Entry<+K, +V> = Entry(key: K, value: V)

  function Keys<K, V>(s: seq<Entry<K, V>>): (ks: seq<K>)
    ensures |ks| == |s| && forall i :: 0 <= i < |s| ==> ks[i] == s[i].key
  {
    seq(|s|, i requires 0 <= i < |s| => s[i].key)
  }

  ghost predicate Distinct<T>(s: seq<T>) {
    forall i, j :: 0 <= i < j < |s| ==> s[i] != s[j]
  }

  function HasKey<K(==), V>(s: seq<Entry<K, V>>, k: K): bool {
    exists i :: 0 <= i < |s| && s[i].key == k
  }

  function Lookup<K(==), V>(s: seq<Entry<K, V>>, k: K): (v: V)
    requires HasKey(s, k)
  {
    if s[0].key == k then s[0].value else Lookup(s[1..], k)
  }

  // The list without the entry of key k.
  function Drop<K(==), V>(s: seq<Entry<K, V>>, k: K): (r: seq<Entry<K, V>>) {
    if s == [] then [] else if s[0].key == k then Drop(s[1..], k) else [s[0]] + Drop(s[1..], k)
  }

  // The first n entries, or all of them.
  function Truncate<T>(s: seq<T>, n: nat): (r: seq<T>)
    ensures |r| == if |s| < n then |s| else n
  {
    if |s| <= n then s else s[..n]
  }

  /** get: a hit moves the entry to the front. */
  function Get<K(==), V>(s: seq<Entry<K, V>>, k: K): seq<Entry<K, V>> {
    if HasKey(s, k) then [Entry(k, Lookup(s, k))] + Drop(s, k) else s
  }

  /** put: the entry goes to the front, and the last one falls out beyond capacity. */
  function Put<K(==), V>(s: seq<Entry<K, V>>, k: K, v: V, cap: nat): seq<Entry<K, V>> {
    Truncate([Entry(k, v)] + Drop(s, k), cap)
  }

  // ---------- facts about lists ----------

  lemma LookupUnfolds<K, V>(s: seq<Entry<K, V>>, k: K)
    requires s != []
    ensures s[0].key == k ==> HasKey(s, k) && Lookup(s, k) == s[0].value && Drop(s, k) == Drop(s[1..], k)
    ensures s[0].key != k && HasKey(s[1..], k) ==> HasKey(s, k) && Lookup(s, k) == Lookup(s[1..], k)
    ensures s[0].key != k ==> Drop(s, k) == [s[0]] + Drop(s[1..], k)
  {
    if HasKey(s[1..], k) {
      var i :| 0 <= i < |s[1..]| && s[1..][i].key == k;
      assert s[i + 1].key == k;
    }
  }

  lemma NotAmong<K, V>(s: seq<Entry<K, V>>, k: K)
    requires s != [] && forall j :: 0 < j < |s| ==> s[j].key != k
    ensures !HasKey(s[1..], k)
  {
  }

  lemma {:induction false} LookupAt<K, V>(s: seq<Entry<K, V>>, i: nat)
    requires i < |s| && Distinct(Keys(s))
    ensures HasKey(s, s[i].key) && Lookup(s, s[i].key) == s[i].value
    ensures Drop(s, s[i].key) == s[..i] + s[i + 1..]
  {
    var k := s[i].key;
    hide Lookup, Drop, HasKey;
    LookupUnfolds(s, k);
    if i == 0 {
      assert forall j :: 0 < j < |s| ==> s[j].key == Keys(s)[j] != Keys(s)[0];
      NotAmong(s, k);
      DropAbsent(s[1..], k);
    } else {
      assert Keys(s)[0] != Keys(s)[i];
      assert Keys(s[1..]) == Keys(s)[1..];
      LookupAt(s[1..], i - 1);
      assert s[1..][i - 1] == s[i];
      WithoutInTail(s, i);
    }
  }

  lemma WithoutInTail<T>(s: seq<T>, i: nat)
    requires 0 < i < |s|
    ensures s[..i] + s[i + 1..] == [s[0]] + (s[1..][..i - 1] + s[1..][i..])
  {
  }

  lemma {:induction false} DropAbsent<K, V>(s: seq<Entry<K, V>>, k: K)
    requires !HasKey(s, k)
    ensures Drop(s, k) == s
  {
    if s != [] {
      assert s[0].key != k;
      assert forall j :: 0 <= j < |s[1..]| ==> s[1..][j] == s[j + 1];
      DropAbsent(s[1..], k);
    }
  }

  lemma {:induction false} DropIsSublist<K, V>(s: seq<Entry<K, V>>, k: K)
    ensures |Drop(s, k)| <= |s|
    ensures forall e :: e in Drop(s, k) <==> e in s && e.key != k
  {
    if s != [] {
      DropIsSublist(s[1..], k);
      assert s == [s[0]] + s[1..];
    }
  }

  lemma {:induction false} LookupIsHeld<K, V>(s: seq<Entry<K, V>>, k: K)
    requires HasKey(s, k)
    ensures Entry(k, Lookup(s, k)) in s
  {
    if s[0].key != k {
      var i :| 0 <= i < |s| && s[i].key == k;
      assert s[1..][i - 1] == s[i];
      LookupIsHeld(s[1..], k);
    }
  }

  // A present key leaves a shorter list behind.
  lemma DropIsShorter<K, V>(s: seq<Entry<K, V>>, k: K)
    requires Distinct(Keys(s))
    ensures |Drop(s, k)| <= |s| && (HasKey(s, k) ==> |Drop(s, k)| < |s|)
  {
    DropIsSublist(s, k);
    if HasKey(s, k) {
      var i :| 0 <= i < |s| && s[i].key == k;
      LookupAt(s, i);
    }
  }

  lemma DropKeepsDistinct<K, V>(s: seq<Entry<K, V>>, k: K)
    requires Distinct(Keys(s))
    ensures Distinct(Keys(Drop(s, k))) && k !in Keys(Drop(s, k))
  {
    KeysOfDrop(s, k);
    WithoutIsSublist(Keys(s), k);
  }

  // ---------- lists with one place removed ----------

  ghost function Removed<T>(s: seq<T>, i: nat): (r: seq<T>)
    requires i < |s|
    ensures |r| == |s| - 1
    ensures forall j :: 0 <= j < |r| ==> r[j] == s[if j < i then j else j + 1]
  {
    s[..i] + s[i + 1..]
  }

  lemma RemovedDistinct<T>(s: seq<T>, i: nat)
    requires i < |s| && Distinct(s)
    ensures Distinct(Removed(s, i))
    ensures forall j :: 0 <= j < |s| - 1 ==> Removed(s, i)[j] != s[i]
  {
    hide Removed;
  }

  lemma RemovedLast<T>(s: seq<T>)
    requires s != []
    ensures Removed(s, |s| - 1) == s[..|s| - 1]
  {
  }

  lemma RemovedFromTail<T>(s: seq<T>, i: nat)
    requires 0 < i < |s|
    ensures Removed(s, i) == [s[0]] + Removed(s[1..], i - 1)
  {
    hide Removed;
  }

  lemma RemovedFirst<T>(s: seq<T>)
    requires s != []
    ensures Removed(s, 0) == s[1..]
  {
  }

  lemma {:induction false} WithoutAt<T>(s: seq<T>, i: nat)
    requires i < |s| && Distinct(s)
    ensures Without(s, s[i]) == Removed(s, i)
  {
    DistinctTail(s);
    hide Removed;
    if i == 0 {
      RemovedFirst(s);
      WithoutAbsent(s[1..], s[0]);
    } else {
      assert s[0] != s[i];
      hide Distinct;
      WithoutAt(s[1..], i - 1);
      RemovedFromTail(s, i);
    }
  }

  // ---------- inclusion, on the keys alone ----------

  function Without<T(==)>(s: seq<T>, x: T): (r: seq<T>) {
    if s == [] then [] else if s[0] == x then Without(s[1..], x) else [s[0]] + Without(s[1..], x)
  }

  /** What one lookup-or-insert of key k does to the recency list. */
  function Touch<T(==)>(s: seq<T>, k: T, cap: nat): seq<T> {
    Truncate([k] + Without(s, k), cap)
  }

  lemma {:induction false} KeysOfDrop<K, V>(s: seq<Entry<K, V>>, k: K)
    ensures Keys(Drop(s, k)) == Without(Keys(s), k)
  {
    if s != [] {
      KeysOfDrop(s[1..], k);
      assert Keys(s)[1..] == Keys(s[1..]);
      if s[0].key != k {
        assert Keys([s[0]] + Drop(s[1..], k)) == [s[0].key] + Keys(Drop(s[1..], k));
      }
    }
  }

  lemma {:induction false} WithoutAbsent<T>(s: seq<T>, x: T)
    requires x !in s
    ensures Without(s, x) == s
  {
    if s != [] {
      WithoutAbsent(s[1..], x);
    }
  }

  lemma {:induction false} WithoutIsSublist<T>(s: seq<T>, x: T)
    ensures |Without(s, x)| <= |s|
    ensures forall y :: y in Without(s, x) <==> y in s && y != x
    ensures Distinct(s) ==> Distinct(Without(s, x))
    ensures Distinct(s) && x in s ==> |Without(s, x)| == |s| - 1
  {
    if s != [] {
      WithoutIsSublist(s[1..], x);
      assert s == [s[0]] + s[1..];
      if Distinct(s) {
        DistinctTail(s);
        if s[0] == x {
          WithoutAbsent(s[1..], x);
        } else {
          DistinctCons(s[0], Without(s[1..], x));
        }
      }
    }
  }

  lemma DistinctTail<T>(s: seq<T>)
    requires s != [] && Distinct(s)
    ensures Distinct(s[1..]) && s[0] !in s[1..]
  {
  }

  lemma DistinctCons<T>(x: T, s: seq<T>)
    requires Distinct(s) && x !in s
    ensures Distinct([x] + s)
  {
  }

  lemma TruncateCons<T>(x: T, s: seq<T>, n: nat)
    requires n >= 1
    ensures Truncate([x] + s, n) == [x] + Truncate(s, n - 1)
  {
  }

  // Cutting a list to n + 1 first changes nothing in the first n places after removing x.
  lemma {:induction false} TruncateThenRemove<T>(s: seq<T>, x: T, n: nat)
    requires Distinct(s)
    ensures Truncate(Without(s, x), n) == Truncate(Without(Truncate(s, n + 1), x), n)
    decreases |s|
  {
    if s != [] {
      var h, t := s[0], s[1..];
      DistinctTail(s);
      assert s == [h] + t;
      TruncateCons(h, t, n + 1);
      assert (Truncate(s, n + 1))[1..] == Truncate(t, n);
      if h == x {
        WithoutAbsent(t, x);
        WithoutAbsent(Truncate(t, n), x);
      } else if n > 0 {
        TruncateThenRemove(t, x, n - 1);
        TruncateCons(h, Without(t, x), n);
        TruncateCons(h, Without(Truncate(t, n), x), n);
      }
    }
  }

  lemma TruncateTwice<T>(s: seq<T>, small: nat, large: nat)
    requires small <= large
    ensures Truncate(Truncate(s, large), small) == Truncate(s, small)
  {
  }

  /** Touching commutes with cutting to a smaller capacity. */
  lemma TouchCommutes<T>(s: seq<T>, k: T, small: nat, large: nat)
    requires Distinct(s) && 1 <= small <= large
    ensures Touch(Truncate(s, small), k, small) == Truncate(Touch(s, k, large), small)
  {
    hide Truncate, Distinct, Without;
    TruncateThenRemove(s, k, small - 1);
    TruncateCons(k, Without(s, k), small);
    TruncateCons(k, Without(Truncate(s, small), k), small);
    TruncateTwice([k] + Without(s, k), small, large);
  }

  lemma TouchKeepsDistinct<T>(s: seq<T>, k: T, cap: nat)
    requires Distinct(s) && cap >= 1
    ensures Distinct(Touch(s, k, cap)) && |Touch(s, k, cap)| <= cap
    ensures Touch(s, k, cap)[0] == k
  {
    WithoutIsSublist(s, k);
    DistinctCons(k, Without(s, k));
  }

  /** The recency list after a sequence of lookups. */
  function Run<T(==)>(ks: seq<T>, cap: nat): (s: seq<T>) {
    if ks == [] then [] else Touch(Run(ks[..|ks| - 1], cap), ks[|ks| - 1], cap)
  }

  function Hits<T(==)>(ks: seq<T>, cap: nat): nat {
    if ks == [] then 0 else
      Hits(ks[..|ks| - 1], cap) + if ks[|ks| - 1] in Run(ks[..|ks| - 1], cap) then 1 else 0
  }

  lemma {:induction false} RunIsDistinct<T>(ks: seq<T>, cap: nat)
    requires cap >= 1
    ensures Distinct(Run(ks, cap)) && |Run(ks, cap)| <= cap
  {
    if ks != [] {
      RunIsDistinct(ks[..|ks| - 1], cap);
      TouchKeepsDistinct(Run(ks[..|ks| - 1], cap), ks[|ks| - 1], cap);
    }
  }

  /** LRU inclusion: the smaller cache always holds exactly the front of the larger one. */
  lemma {:induction false} Inclusion<T>(ks: seq<T>, small: nat, large: nat)
    requires 1 <= small <= large
    ensures Run(ks, small) == Truncate(Run(ks, large), small)
    ensures Run(ks, small) <= Run(ks, large)
  {
    if ks != [] {
      var init, k := ks[..|ks| - 1], ks[|ks| - 1];
      Inclusion(init, small, large);
      RunIsDistinct(init, large);
      TouchCommutes(Run(init, large), k, small, large);
    }
  }

  /** So a larger cache never has fewer hits. */
  lemma {:induction false} MoreCapacityMoreHits<T>(ks: seq<T>, small: nat, large: nat)
    requires 1 <= small <= large
    ensures Hits(ks, small) <= Hits(ks, large)
  {
    if ks != [] {
      MoreCapacityMoreHits(ks[..|ks| - 1], small, large);
      Inclusion(ks[..|ks| - 1], small, large);
    }
  }

  // ---------- where a key is ----------

  // The elements in front of x.
  function Ahead<T(==)>(s: seq<T>, x: T): set<T> {
    if s == [] || s[0] == x then {} else {s[0]} + Ahead(s[1..], x)
  }

  // The elements of a list.
  function Members<T(==)>(s: seq<T>): set<T> {
    set x | x in s
  }

  lemma MembersSnoc<T>(s: seq<T>, x: T)
    ensures Members(s + [x]) == Members(s) + {x}
    ensures Members<T>([]) == {}
  {
  }

  // In a list without repetition as many elements are in front of a place as there are places.
  lemma {:induction false} AheadAt<T>(s: seq<T>, i: nat)
    requires Distinct(s) && i < |s|
    ensures Ahead(s, s[i]) == Members(s[..i]) && |Ahead(s, s[i])| == i
  {
    hide *;
    AheadUnfolds(s, s[i]);
    if i == 0 {
      assert s[..0] == [];
      MembersCons(s[0], []);
    } else {
      var t := s[1..];
      DistinctTail(s);
      assert t[i - 1] == s[i];
      AheadAt(t, i - 1);
      assert s[..i] == [s[0]] + t[..i - 1];
      assert s[0] !in t[..i - 1];
      MembersCons(s[0], t[..i - 1]);
      SetGrowsByOne(Members(t[..i - 1]), s[0]);
    }
  }

  lemma AheadUnfolds<T>(s: seq<T>, x: T)
    requires s != []
    ensures Ahead(s, x) == if s[0] == x then {} else {s[0]} + Ahead(s[1..], x)
  {
  }

  lemma MembersCons<T>(x: T, s: seq<T>)
    ensures Members([x] + s) == {x} + Members(s)
    ensures x !in s ==> x !in Members(s)
    ensures Members<T>([]) == {}
  {
  }

  lemma {:induction false} AheadAfterWithout<T>(s: seq<T>, x: T, k: T)
    requires x != k
    ensures Ahead(Without(s, k), x) == Ahead(s, x) - {k}
  {
    if s != [] {
      AheadAfterWithout(s[1..], x, k);
      if s[0] != k {
        AheadOfCons(s[0], Without(s[1..], k), x);
      }
    }
  }

  lemma AheadOfCons<T>(k: T, s: seq<T>, x: T)
    ensures Ahead([k] + s, x) == if k == x then {} else {k} + Ahead(s, x)
  {
    assert ([k] + s)[1..] == s;
  }

  // Cutting to n keeps exactly the elements with fewer than n in front of them, in order.
  lemma AheadAfterTruncate<T>(s: seq<T>, x: T, n: nat)
    requires Distinct(s) && x in s
    ensures x in Truncate(s, n) <==> |Ahead(s, x)| < n
    ensures x in Truncate(s, n) ==> Ahead(Truncate(s, n), x) == Ahead(s, x)
  {
    var i :| 0 <= i < |s| && s[i] == x;
    AheadAt(s, i);
    hide Ahead, Members;
    if n < |s| {
      PrefixIsDistinct(s, n);
      if i < n {
        AheadAt(s[..n], i);
        assert s[..n][..i] == s[..i] && s[..n][i] == x;
      } else {
        assert forall j :: 0 <= j < n ==> s[..n][j] == s[j] != s[i];
      }
    }
  }

  lemma PrefixIsDistinct<T>(s: seq<T>, n: nat)
    requires Distinct(s) && n <= |s|
    ensures Distinct(s[..n])
  {
  }

  lemma SetGrowsByOne<T>(s: set<T>, x: T)
    ensures x !in s ==> |{x} + s| == |s| + 1
    ensures x in s ==> s + {x} == s
    ensures |s| <= |s + {x}|
  {
    assert {x} + s == s + {x};
    if x in s {
      assert s + {x} == s;
    }
  }

  // One touch of another key.
  lemma AheadAfterTouch<T>(s: seq<T>, x: T, k: T, cap: nat)
    requires Distinct(s) && cap >= 1 && x != k
    ensures x !in s ==> x !in Touch(s, k, cap)
    ensures x in s ==> (x in Touch(s, k, cap) <==> |Ahead(s, x) + {k}| < cap)
    ensures x in Touch(s, k, cap) ==> Ahead(Touch(s, k, cap), x) == Ahead(s, x) + {k}
  {
    var all := [k] + Without(s, k);
    WithoutIsSublist(s, k);
    DistinctCons(k, Without(s, k));
    AheadAfterWithout(s, x, k);
    AheadOfCons(k, Without(s, k), x);
    assert {k} + (Ahead(s, x) - {k}) == Ahead(s, x) + {k};
    hide Ahead, Without, Distinct;
    if x in s {
      AheadAfterTruncate(all, x, cap);
    }
  }

  /** A key that was looked up last at place i is held exactly when fewer than cap other keys were
      looked up since, and then exactly these are in front of it. */
  lemma {:induction false} HeldIffRecent<T>(ks: seq<T>, i: nat, cap: nat)
    requires cap >= 1 && i < |ks| && ks[i] !in ks[i + 1..]
    ensures var x, s, since := ks[i], Run(ks, cap), Members(ks[i + 1..]);
      && (x in s <==> |since| < cap)
      && (x in s ==> Ahead(s, x) == since && |since| < |s| && s[|since|] == x)
    decreases |ks|
  {
    hide *;
    var n, x := |ks| - 1, ks[i];
    var init, k := ks[..n], ks[n];
    RunIsDistinct(init, cap);
    RunUnfolds(ks, cap);
    if i == n {
      assert ks[i + 1..] == [];
      JustTouched(Run(init, cap), x, cap);
    } else {
      assert ks[i + 1..] == init[i + 1..] + [k];
      NotInEither(init[i + 1..], k, x);
      HeldIffRecent(init, i, cap);
      AheadAfterTouch(Run(init, cap), x, k, cap);
      MembersSnoc(init[i + 1..], k);
      SetGrowsByOne(Members(init[i + 1..]), k);
      TouchKeepsDistinct(Run(init, cap), k, cap);
    }
    WhereHeld(Run(ks, cap), x);
  }

  lemma JustTouched<T>(s: seq<T>, x: T, cap: nat)
    requires Distinct(s) && cap >= 1
    ensures var t := Touch(s, x, cap); Distinct(t) && x in t && Ahead(t, x) == {} == Members<T>([])
  {
    TouchKeepsDistinct(s, x, cap);
    hide Touch;
  }

  lemma NotInEither<T>(s: seq<T>, k: T, x: T)
    requires x !in s + [k]
    ensures x !in s && x != k
  {
    assert (s + [k])[|s|] == k;
    forall i | 0 <= i < |s|
      ensures s[i] != x
    {
      assert (s + [k])[i] == s[i];
    }
  }

  lemma WhereHeld<T>(s: seq<T>, x: T)
    requires Distinct(s)
    ensures x in s ==> |Ahead(s, x)| < |s| && s[|Ahead(s, x)|] == x
  {
    if x in s {
      var i :| 0 <= i < |s| && s[i] == x;
      AheadAt(s, i);
    }
  }

  lemma RunUnfolds<T>(ks: seq<T>, cap: nat)
    requires ks != []
    ensures Run(ks, cap) == Touch(Run(ks[..|ks| - 1], cap), ks[|ks| - 1], cap)
  {
  }

  /** A key that was never looked up is not held. */
  lemma {:induction false} OnlyLookedUpIsHeld<T>(ks: seq<T>, x: T, cap: nat)
    requires x in Run(ks, cap)
    ensures x in ks
  {
    var init, k := ks[..|ks| - 1], ks[|ks| - 1];
    WithoutIsSublist(Run(init, cap), k);
    if x != k {
      OnlyLookedUpIsHeld(init, x, cap);
    }
  }
}
