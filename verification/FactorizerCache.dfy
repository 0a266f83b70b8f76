/**
 Factorizer.Factorize (internal/mathutil/factorizer.go) with its cache, called in sequence.
 */
module FactorizerCache {
  import opened Collections
  import opened FactorTypes
  import opened Lru
  import opened RhoDraws
  import Go = GoFactorizer
  import LruRing

  datatype Response =
    | Answer(value: Factorization, fromCache: bool)
    | InputOutOfRange(got: int64)
    | InputTooLarge(got: int64)
    | OutOfRandomness

  // ---------- cached values are right ----------

  ghost predicate AllCorrect(entries: seq<Entry<int64, Factorization>>) {
    forall e :: e in entries ==> Go.Correct(e.value, e.key)
  }

  lemma GetKeepsCorrect(entries: seq<Entry<int64, Factorization>>, k: int64)
    requires AllCorrect(entries)
    ensures AllCorrect(Lru.Get(entries, k))
    ensures HasKey(entries, k) ==> Go.Correct(Lookup(entries, k), k)
  {
    hide Go.Correct;
    DropIsSublist(entries, k);
    if HasKey(entries, k) {
      LookupIsHeld(entries, k);
    }
  }

  lemma PutKeepsCorrect(entries: seq<Entry<int64, Factorization>>, k: int64, v: Factorization, cap: nat)
    requires AllCorrect(entries) && Go.Correct(v, k)
    ensures AllCorrect(Lru.Put(entries, k, v, cap))
  {
    hide Go.Correct;
    DropIsSublist(entries, k);
  }

  // On keys, a hit and an insertion are the same step.
  lemma GetTouches(entries: seq<Entry<int64, Factorization>>, k: int64, cap: nat)
    requires Distinct(Keys(entries)) && |entries| <= cap && HasKey(entries, k)
    ensures Keys(Lru.Get(entries, k)) == Touch(Keys(entries), k, cap)
    ensures k in Keys(entries)
  {
    var i :| 0 <= i < |entries| && entries[i].key == k;
    assert Keys(entries)[i] == k;
    KeysOfDrop(entries, k);
    WithoutIsSublist(Keys(entries), k);
    KeysOfCons(Entry(k, Lookup(entries, k)), Drop(entries, k));
  }

  lemma PutTouches(entries: seq<Entry<int64, Factorization>>, k: int64, v: Factorization, cap: nat)
    ensures Keys(Lru.Put(entries, k, v, cap)) == Touch(Keys(entries), k, cap)
    ensures !HasKey(entries, k) ==> k !in Keys(entries)
  {
    KeysOfDrop(entries, k);
    var all := [Entry(k, v)] + Drop(entries, k);
    KeysOfCons(Entry(k, v), Drop(entries, k));
    assert Keys(Truncate(all, cap)) == Truncate(Keys(all), cap);
  }

  lemma KeysOfCons(e: Entry<int64, Factorization>, s: seq<Entry<int64, Factorization>>)
    ensures Keys([e] + s) == [e.key] + Keys(s)
  {
  }

  // ---------- the service, one call at a time ----------

  class Factorizer {
    const cache: LruRing.LruCache

    // The numbers looked up so far, of calls that returned an answer.
    ghost var log: seq<int64>

    ghost predicate Valid()
      reads this, cache, cache.Repr
    {
      && cache.Valid()
      && AllCorrect(cache.Contents)
      && Keys(cache.Contents) == Run(log, cache.cap)
      && cache.hits == Hits(log, cache.cap)
    }

    constructor (cacheSize: int)
      ensures Valid() && log == [] && cache.cap == (if cacheSize <= 0 then 1 else cacheSize)
      ensures fresh(cache) && fresh(cache.Repr)
    {
      var size := cacheSize;
      if size <= 0 {
        size := 1;
      }
      cache := new LruRing.LruCache(size);
      log := [];
    }

    /** Factorize: errors exactly outside 2..10^15, and otherwise the correct value, from the
        cache exactly when the run of earlier lookups left n in it. */
    method Factorize(n: int64, test: Go.PrimalityTest, draws: seq<Draw>) returns (r: Response)
      requires Valid() && Go.ExactBelow64(test)
      modifies this, cache, cache.Repr
      ensures Valid() && fresh(cache.Repr - old(cache.Repr))
      ensures n < 2 <==> r == InputOutOfRange(n)
      ensures n > 1_000_000_000_000_000 <==> r == InputTooLarge(n)
      ensures r.Answer? ==> Go.Correct(r.value, n) && log == old(log) + [n]
      ensures r.Answer? ==> (r.fromCache <==> n in Run(old(log), cache.cap))
      ensures r.OutOfRandomness? <==>
        2 <= n <= 1_000_000_000_000_000 && n !in Run(old(log), cache.cap) && Go.Starved(n as int, draws)
      ensures !r.Answer? ==> log == old(log) && cache.Contents == old(cache.Contents)
      ensures cache.hits + cache.misses == old(cache.hits + cache.misses)
                                         + (if 2 <= n <= 1_000_000_000_000_000 then 1 else 0)
    {
      hide Go.ExactBelow64;
      hide Go.Correct;
      hide Go.Starved;
      hide LruRing.LruCache.Valid;
      hide AllCorrect;
      hide HasKey;
      hide Lookup;
      hide Run;
      hide Hits;
      hide Lru.Get;
      hide Lru.Put;
      if n < 2 {
        return InputOutOfRange(n);
      }
      if n > Go.MAX_SAFE_INPUT {
        return InputTooLarge(n);
      }
      LookupStep(n);
      var cached := cache.Get(n);
      if cached.Some? {
        log := log + [n];
        return Answer(cached.value, true);
      }
      var computed := Go.Compute(n, test, draws);
      if computed.None? {
        return OutOfRandomness;
      }
      InsertStep(n, computed.value);
      cache.Put(n, computed.value);
      log := log + [n];
      r := Answer(computed.value, false);
    }

    // What a lookup does to the contents and to the log's predictions.
    lemma LookupStep(n: int64)
      requires Valid()
      ensures var c := cache.Contents;
        && (HasKey(c, n) <==> n in Run(log, cache.cap))
        && AllCorrect(Lru.Get(c, n))
        && (HasKey(c, n) ==> Go.Correct(Lookup(c, n), n))
        && (HasKey(c, n) ==> Keys(Lru.Get(c, n)) == Run(log + [n], cache.cap))
        && (HasKey(c, n) ==> Hits(log + [n], cache.cap) == cache.hits + 1)
        && (!HasKey(c, n) ==> Lru.Get(c, n) == c)
    {
      hide Go.Correct;
      cache.KeysAreDistinct();
      GetKeepsCorrect(cache.Contents, n);
      RunSnoc(log, n, cache.cap);
      LruRing.InKeysMeansHasKey(cache.Contents, n);
      hide AllCorrect;
      if HasKey(cache.Contents, n) {
        GetTouches(cache.Contents, n, cache.cap);
      }
    }

    lemma InsertStep(n: int64, v: Factorization)
      requires Valid() && !HasKey(cache.Contents, n) && Go.Correct(v, n)
      ensures var c := cache.Contents;
        && AllCorrect(Lru.Put(c, n, v, cache.cap))
        && Keys(Lru.Put(c, n, v, cache.cap)) == Run(log + [n], cache.cap)
        && Hits(log + [n], cache.cap) == cache.hits
    {
      hide Go.Correct;
      PutKeepsCorrect(cache.Contents, n, v, cache.cap);
      RunSnoc(log, n, cache.cap);
      PutTouches(cache.Contents, n, v, cache.cap);
    }
  }

  lemma RunSnoc<T>(ks: seq<T>, k: T, cap: nat)
    ensures Run(ks + [k], cap) == Touch(Run(ks, cap), k, cap)
    ensures Hits(ks + [k], cap) == Hits(ks, cap) + if k in Run(ks, cap) then 1 else 0
  {
    assert (ks + [k])[..|ks|] == ks;
  }
}
