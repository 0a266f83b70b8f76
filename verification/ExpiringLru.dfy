/**
 The embedding cache (internal/embed/lru_cache.go): least recently used with a time to
 live per entry. First the list that the cache stands for, with whole-run theorems about
 hits and misses; then the class, proved to maintain that list.
 */
module ExpiringLru {
  import opened Collections
  import opened Lru

  type Embedding = seq<real>

  datatype Timed = Timed(value: Embedding, expiresAt: int)

  type Slots = seq<Entry<string, Timed>>

  datatype Found = Hit(value: Embedding) | Miss

  // ---------- one operation ----------

  /** Get: an entry is dropped when the clock is past its expiry, else moved to the front. */
  function AfterGet(s: Slots, k: string, now: int): Slots {
    if !HasKey(s, k) then s
    else if now > Lookup(s, k).expiresAt then Drop(s, k)
    else [Entry(k, Lookup(s, k))] + Drop(s, k)
  }

  function GetResult(s: Slots, k: string, now: int): Found {
    if HasKey(s, k) && now <= Lookup(s, k).expiresAt then Hit(Lookup(s, k).value) else Miss
  }

  // The back entry makes room when a new key arrives at capacity.
  function MakeRoom(s: Slots, capacity: int): Slots {
    if |s| >= capacity && s != [] then Cut(s) else s
  }

  /** Set: overwrite in front, or insert in front after making room. */
  function AfterSet(s: Slots, k: string, v: Embedding, now: int, ttl: int, capacity: int): Slots {
    var e := Entry(k, Timed(v, now + ttl));
    if HasKey(s, k) then [e] + Drop(s, k) else [e] + MakeRoom(s, capacity)
  }

  // ---------- runs ----------

  datatype Op = Get(key: string) | Set(key: string, value: Embedding)

  datatype Event = Event(op: Op, now: int)

  ghost predicate ClockMonotone(h: seq<Event>) {
    forall i, j :: 0 <= i < j < |h| ==> h[i].now <= h[j].now
  }

  function After(s: Slots, e: Event, ttl: int, capacity: int): Slots {
    match e.op
    case Get(k) => AfterGet(s, k, e.now)
    case Set(k, v) => AfterSet(s, k, v, e.now, ttl, capacity)
  }

  function Run(h: seq<Event>, ttl: int, capacity: int): Slots {
    if h == [] then [] else After(Run(h[..|h| - 1], ttl, capacity), h[|h| - 1], ttl, capacity)
  }

  datatype LastSet = Never | At(value: Embedding, time: int)

  // The latest Set of a key.
  function Latest(h: seq<Event>, k: string): LastSet {
    if h == [] then Never
    else
      var e := h[|h| - 1];
      if e.op.Set? && e.op.key == k then At(e.op.value, e.now) else Latest(h[..|h| - 1], k)
  }

  // A key is touched by a Set, or by a Get that hits, and dropped by a Get that finds it expired.
  predicate Touches(s: Slots, e: Event) {
    e.op.Set? || GetResult(s, e.op.key, e.now).Hit?
  }

  predicate Drops(s: Slots, e: Event) {
    e.op.Get? && HasKey(s, e.op.key) && e.now > Lookup(s, e.op.key).expiresAt
  }

  /** The other keys touched since k was last touched. */
  function TouchedSince(h: seq<Event>, k: string, ttl: int, capacity: int): set<string> {
    if h == [] then {} else
      var init, e := h[..|h| - 1], h[|h| - 1];
      if !Touches(Run(init, ttl, capacity), e) then TouchedSince(init, k, ttl, capacity)
      else if e.op.key == k then {}
      else TouchedSince(init, k, ttl, capacity) + {e.op.key}
  }

  // The same without those that were dropped after they were touched.
  function Ahead(h: seq<Event>, k: string, ttl: int, capacity: int): set<string> {
    if h == [] then {} else
      var init, e := h[..|h| - 1], h[|h| - 1];
      NextAhead(Run(init, ttl, capacity), e, k, Ahead(init, k, ttl, capacity))
  }

  function NextAhead(s: Slots, e: Event, k: string, ahead: set<string>): set<string> {
    if Touches(s, e) then (if e.op.key == k then {} else ahead + {e.op.key})
    else if Drops(s, e) then ahead - {e.op.key}
    else ahead
  }

  // How many entries the cache really holds: a Set always leaves its own.
  function Room(capacity: int): (n: nat)
    ensures n >= 1
  {
    if capacity < 1 then 1 else capacity
  }

  /** At some moment since k was last touched, as many other keys were ahead as the cache holds. */
  predicate Crowded(h: seq<Event>, k: string, ttl: int, capacity: int) {
    && h != []
    && var init, e := h[..|h| - 1], h[|h| - 1];
       && !(e.op.key == k && Touches(Run(init, ttl, capacity), e))
       && (Crowded(init, k, ttl, capacity) || |Ahead(h, k, ttl, capacity)| >= Room(capacity))
  }

  predicate NothingDropped(h: seq<Event>, ttl: int, capacity: int) {
    h == [] || (
      var init := h[..|h| - 1];
      NothingDropped(init, ttl, capacity) && !Drops(Run(init, ttl, capacity), h[|h| - 1]))
  }

  // ---------- what every run keeps ----------

  lemma {:induction false} RunIsDistinct(h: seq<Event>, ttl: int, capacity: int)
    ensures Distinct(Keys(Run(h, ttl, capacity)))
    ensures |Run(h, ttl, capacity)| <= Room(capacity) == if capacity < 1 then 1 else capacity
  {
    if h != [] {
      RunIsDistinct(h[..|h| - 1], ttl, capacity);
      StepIsDistinct(Run(h[..|h| - 1], ttl, capacity), h[|h| - 1], ttl, capacity);
    }
  }

  /** Keys stay distinct, and the length never exceeds max(1, capacity). */
  lemma StepIsDistinct(s: Slots, e: Event, ttl: int, capacity: int)
    requires Distinct(Keys(s)) && |s| <= Room(capacity)
    ensures Distinct(Keys(After(s, e, ttl, capacity)))
    ensures |After(s, e, ttl, capacity)| <= Room(capacity)
  {
    var k := e.op.key;
    DropKeepsDistinct(s, k);
    DropIsShorter(s, k);
    if HasKey(s, k) {
      KeysOfFront(Entry(k, Lookup(s, k)), Drop(s, k));
      if e.op.Set? {
        KeysOfFront(Entry(k, Timed(e.op.value, e.now + ttl)), Drop(s, k));
      }
    } else if e.op.Set? {
      var room := MakeRoom(s, capacity);
      assert Keys(room) == Keys(s)[..|room|];
      AbsentKey(s, k);
      KeysOfFront(Entry(k, Timed(e.op.value, e.now + ttl)), room);
    }
  }

  lemma KeysOfFront(e: Entry<string, Timed>, s: Slots)
    requires Distinct(Keys(s)) && e.key !in Keys(s)
    ensures Keys([e] + s) == [e.key] + Keys(s) && Distinct(Keys([e] + s))
  {
    DistinctCons(e.key, Keys(s));
  }

  lemma AbsentKey(s: Slots, k: string)
    requires !HasKey(s, k)
    ensures k !in Keys(s)
  {
  }

  // ---------- a hit returns the latest value, not yet expired ----------

  ghost predicate Fresh(h: seq<Event>, e: Entry<string, Timed>, ttl: int) {
    Latest(h, e.key).At? && e.value == Timed(Latest(h, e.key).value, Latest(h, e.key).time + ttl)
  }

  lemma {:induction false} EntriesAreLatest(h: seq<Event>, ttl: int, capacity: int)
    ensures forall e :: e in Run(h, ttl, capacity) ==> Fresh(h, e, ttl)
  {
    if h != [] {
      var init, last := h[..|h| - 1], h[|h| - 1];
      EntriesAreLatest(init, ttl, capacity);
      var s, k := Run(init, ttl, capacity), last.op.key;
      DropIsSublist(s, k);
      forall e | e in Run(h, ttl, capacity) ensures Fresh(h, e, ttl) {
        if e.key != k {
          assert e in s;
        } else if last.op.Get? {
          AbsentOrHeld(s, k, e);
        } else {
          AbsentOrHeld(s, k, e);
        }
      }
    }
  }

  lemma AbsentOrHeld(s: Slots, k: string, e: Entry<string, Timed>)
    ensures HasKey(s, k) ==> Entry(k, Lookup(s, k)) in s
    ensures e in s && e.key == k ==> HasKey(s, k)
  {
    if HasKey(s, k) {
      LookupIsHeld(s, k);
    }
    if e in s && e.key == k {
      var i :| 0 <= i < |s| && s[i] == e;
      assert s[i].key == k;
    }
  }

  /** Get(k) hits only with the value of the latest Set(k), made no more than ttl ago. */
  lemma HitsAreLatest(h: seq<Event>, k: string, now: int, ttl: int, capacity: int)
    requires GetResult(Run(h, ttl, capacity), k, now).Hit?
    ensures Latest(h, k).At? && now <= Latest(h, k).time + ttl
    ensures GetResult(Run(h, ttl, capacity), k, now) == Hit(Latest(h, k).value)
  {
    HeldEntry(h, k, ttl, capacity);
  }

  // ---------- a fresh key is held until too many others are ahead of it ----------

  // The keys in front of k.
  function InFront(s: Slots, k: string): set<string> {
    if s == [] || s[0].key == k then {} else {s[0].key} + InFront(s[1..], k)
  }

  lemma {:induction false} InFrontAfterDrop(s: Slots, k: string, other: string)
    requires other != k
    ensures HasKey(Drop(s, other), k) <==> HasKey(s, k)
    ensures InFront(Drop(s, other), k) == InFront(s, k) - {other}
  {
    if s != [] {
      InFrontAfterDrop(s[1..], k, other);
      HasKeyCons(s[0], s[1..], k);
      assert s == [s[0]] + s[1..];
      if s[0].key != other {
        HasKeyCons(s[0], Drop(s[1..], other), k);
      }
    }
  }

  lemma HasKeyCons(e: Entry<string, Timed>, s: Slots, k: string)
    ensures HasKey([e] + s, k) <==> e.key == k || HasKey(s, k)
    ensures InFront([e] + s, k) == if e.key == k then {} else {e.key} + InFront(s, k)
  {
    var t := [e] + s;
    assert t[1..] == s;
    if HasKey(s, k) {
      var i :| 0 <= i < |s| && s[i].key == k;
      assert t[i + 1].key == k;
    }
    if HasKey(t, k) && e.key != k {
      var i :| 0 <= i < |t| && t[i].key == k;
      assert s[i - 1].key == k;
    }
    assert t[0].key == e.key;
  }

  lemma {:induction false} InFrontAreKeys(s: Slots, k: string, x: string)
    requires x in InFront(s, k)
    ensures x != k && x in Keys(s)
  {
    if s[0].key == x {
      assert Keys(s)[0] == x;
    } else {
      InFrontAreKeys(s[1..], k, x);
      var i :| 0 <= i < |s[1..]| && Keys(s[1..])[i] == x;
      assert Keys(s)[i + 1] == x;
    }
  }

  // The part of a list before its last entry.
  function Cut(s: Slots): Slots
    requires s != []
  {
    s[..|s| - 1]
  }

  lemma CutOfCons(e: Entry<string, Timed>, s: Slots)
    ensures s != [] ==> Cut([e] + s) == [e] + Cut(s)
    ensures s == [] ==> Cut([e] + s) == []
  {
  }

  // Cutting the last entry loses k only if k is last, with all other keys in front of it.
  lemma {:induction false} InFrontAfterCut(s: Slots, k: string)
    requires s != [] && HasKey(s, k) && Distinct(Keys(s))
    ensures HasKey(Cut(s), k) ==> InFront(Cut(s), k) == InFront(s, k)
    ensures !HasKey(Cut(s), k) ==> |InFront(s, k)| == |s| - 1
    decreases |s|
  {
    var e, rest := s[0], s[1..];
    assert s == [e] + rest;
    CutOfCons(e, rest);
    HasKeyCons(e, rest, k);
    if rest != [] {
      HasKeyCons(e, Cut(rest), k);
    }
    if e.key != k {
      DistinctRest(e, rest, k);
      hide HasKey;
      hide Distinct;
      hide Cut;
      InFrontAfterCut(rest, k);
    }
  }

  lemma DistinctRest(e: Entry<string, Timed>, rest: Slots, k: string)
    requires Distinct(Keys([e] + rest))
    ensures Distinct(Keys(rest)) && e.key !in InFront(rest, k)
  {
    var s := [e] + rest;
    assert Keys(rest) == Keys(s)[1..] && Keys(s)[0] == e.key;
    DistinctTail(Keys(s));
    if e.key in InFront(rest, k) {
      InFrontAreKeys(rest, k, e.key);
    }
  }

  lemma {:induction false} InFrontIsShorter(s: Slots, k: string)
    requires HasKey(s, k)
    ensures |InFront(s, k)| < |s|
  {
    if s[0].key != k {
      assert s == [s[0]] + s[1..];
      HasKeyCons(s[0], s[1..], k);
      InFrontIsShorter(s[1..], k);
    }
  }

  // An operation on another key moves the keys in front of k as NextAhead says, and pushes k out
  // only if that makes them as many as the cache holds.
  ghost predicate KeepsTrack(s: Slots, e: Event, k: string, ttl: int, capacity: int) {
    var t, ahead := After(s, e, ttl, capacity), NextAhead(s, e, k, InFront(s, k));
    && (HasKey(t, k) ==> HasKey(s, k) && InFront(t, k) == ahead)
    && (HasKey(s, k) && !HasKey(t, k) ==> |ahead| >= Room(capacity))
  }

  lemma OtherKey(s: Slots, e: Event, k: string, ttl: int, capacity: int)
    requires Distinct(Keys(s)) && e.op.key != k
    ensures KeepsTrack(s, e, k, ttl, capacity)
  {
    match e.op
    case Get(other) => OtherGet(s, e, k, ttl, capacity);
    case Set(other, v) =>
      if HasKey(s, other) {
        OtherOverwrite(s, e, k, ttl, capacity);
      } else {
        OtherInsert(s, e, k, ttl, capacity);
      }
  }

  lemma OtherGet(s: Slots, e: Event, k: string, ttl: int, capacity: int)
    requires e.op.Get? && e.op.key != k
    ensures KeepsTrack(s, e, k, ttl, capacity)
  {
    var other := e.op.key;
    InFrontAfterDrop(s, k, other);
    if HasKey(s, other) {
      HasKeyCons(Entry(other, Lookup(s, other)), Drop(s, other), k);
    }
    hide HasKey, InFront, Lookup, Drop;
  }

  lemma OtherOverwrite(s: Slots, e: Event, k: string, ttl: int, capacity: int)
    requires e.op.Set? && e.op.key != k && HasKey(s, e.op.key)
    ensures KeepsTrack(s, e, k, ttl, capacity)
  {
    var other := e.op.key;
    InFrontAfterDrop(s, k, other);
    HasKeyCons(Entry(other, Timed(e.op.value, e.now + ttl)), Drop(s, other), k);
    hide HasKey, InFront, Drop;
  }

  lemma OtherInsert(s: Slots, e: Event, k: string, ttl: int, capacity: int)
    requires Distinct(Keys(s)) && e.op.Set? && e.op.key != k && !HasKey(s, e.op.key)
    ensures KeepsTrack(s, e, k, ttl, capacity)
  {
    var other, room := e.op.key, MakeRoom(s, capacity);
    AfterInsert(s, e, ttl, capacity);
    hide KeepsTrack;
    KeepsTrackOfInsert(s, e, k, ttl, capacity, room);
  }

  lemma AfterInsert(s: Slots, e: Event, ttl: int, capacity: int)
    requires e.op.Set? && !HasKey(s, e.op.key)
    ensures After(s, e, ttl, capacity)
         == [Entry(e.op.key, Timed(e.op.value, e.now + ttl))] + MakeRoom(s, capacity)
  {
    hide HasKey;
  }

  lemma KeepsTrackOfInsert(s: Slots, e: Event, k: string, ttl: int, capacity: int, room: Slots)
    requires Distinct(Keys(s)) && e.op.Set? && e.op.key != k && !HasKey(s, e.op.key) && room == MakeRoom(s, capacity)
    requires After(s, e, ttl, capacity) == [Entry(e.op.key, Timed(e.op.value, e.now + ttl))] + room
    ensures KeepsTrack(s, e, k, ttl, capacity)
  {
    var other := e.op.key;
    HasKeyCons(Entry(other, Timed(e.op.value, e.now + ttl)), room, k);
    CutKeepsOrder(s, k);
    hide HasKey, InFront, Distinct, Cut, After, Keys;
    assert {other} + InFront(s, k) == InFront(s, k) + {other};
    if HasKey(s, k) && !HasKey(room, k) {
      PushedOut(s, k, other);
    }
  }

  // When k is last and falls out, the keys in front of it and the new one are as many as the entries.
  lemma PushedOut(s: Slots, k: string, other: string)
    requires s != [] && Distinct(Keys(s)) && HasKey(s, k) && !HasKey(Cut(s), k) && !HasKey(s, other)
    ensures |InFront(s, k) + {other}| == |s|
  {
    InFrontAfterCut(s, k);
    AbsentKey(s, other);
    hide HasKey, Distinct, Cut;
    if other in InFront(s, k) {
      InFrontAreKeys(s, k, other);
    }
  }

  lemma CutKeepsOrder(s: Slots, k: string)
    requires Distinct(Keys(s))
    ensures s != [] && HasKey(Cut(s), k) ==> HasKey(s, k) && InFront(Cut(s), k) == InFront(s, k)
  {
    if s != [] && HasKey(Cut(s), k) {
      var i :| 0 <= i < |s| - 1 && Cut(s)[i].key == k;
      assert s[i].key == k;
      InFrontAfterCut(s, k);
    }
  }

  // k is held exactly when it never was crowded, and then these are the keys in front of it.
  ghost predicate Tracked(s: Slots, k: string, ahead: set<string>, crowded: bool) {
    (HasKey(s, k) <==> !crowded) && (HasKey(s, k) ==> InFront(s, k) == ahead)
  }

  lemma OtherKeyTracked(s: Slots, e: Event, k: string, ahead: set<string>, crowded: bool, ttl: int, capacity: int)
    requires Distinct(Keys(s)) && |s| <= Room(capacity) && e.op.key != k
    requires Tracked(s, k, ahead, crowded)
    ensures var next := NextAhead(s, e, k, ahead);
      Tracked(After(s, e, ttl, capacity), k, next, crowded || |next| >= Room(capacity))
  {
    StepIsDistinct(s, e, ttl, capacity);
    OtherKey(s, e, k, ttl, capacity);
    var t := After(s, e, ttl, capacity);
    hide After, NextAhead, HasKey, InFront, Room;
    if HasKey(t, k) {
      InFrontIsShorter(t, k);
    }
  }

  // An operation on k itself, within its time to live.
  lemma SameKeyTracked(s: Slots, e: Event, k: string, ahead: set<string>, crowded: bool, ttl: int, capacity: int)
    requires e.op.key == k && (e.op.Get? ==> Tracked(s, k, ahead, crowded))
    requires e.op.Get? && HasKey(s, k) ==> e.now <= Lookup(s, k).expiresAt
    ensures Touches(s, e) ==> Tracked(After(s, e, ttl, capacity), k, {}, false)
    ensures !Touches(s, e) ==> e.op.Get? && !Drops(s, e) && crowded && After(s, e, ttl, capacity) == s
  {
    if e.op.Set? {
      var front := Entry(k, Timed(e.op.value, e.now + ttl));
      HasKeyCons(front, Drop(s, k), k);
      HasKeyCons(front, MakeRoom(s, capacity), k);
    } else if HasKey(s, k) {
      HasKeyCons(Entry(k, Lookup(s, k)), Drop(s, k), k);
    }
    hide HasKey, InFront, Drop, MakeRoom;
  }

  // The list, the keys ahead and the latest Set after one more event.
  lemma OneMoreEvent(h: seq<Event>, e: Event, k: string, ttl: int, capacity: int)
    ensures Run(h + [e], ttl, capacity) == After(Run(h, ttl, capacity), e, ttl, capacity)
    ensures var s, ahead := Run(h, ttl, capacity), Ahead(h, k, ttl, capacity);
      var next := NextAhead(s, e, k, ahead);
      && Ahead(h + [e], k, ttl, capacity) == next
      && (Crowded(h + [e], k, ttl, capacity) <==>
            !(e.op.key == k && Touches(s, e)) && (Crowded(h, k, ttl, capacity) || |next| >= Room(capacity)))
    ensures Latest(h + [e], k) ==
      if e.op.Set? && e.op.key == k then At(e.op.value, e.now) else Latest(h, k)
  {
    assert (h + [e])[..|h|] == h;
    hide After, NextAhead, Touches, Room;
  }

  // A held entry of a key whose latest Set is known.
  lemma HeldEntry(h: seq<Event>, k: string, ttl: int, capacity: int)
    requires HasKey(Run(h, ttl, capacity), k)
    ensures Latest(h, k).At?
    ensures Lookup(Run(h, ttl, capacity), k) == Timed(Latest(h, k).value, Latest(h, k).time + ttl)
  {
    var s := Run(h, ttl, capacity);
    EntriesAreLatest(h, ttl, capacity);
    LookupIsHeld(s, k);
    assert Fresh(h, Entry(k, Lookup(s, k)), ttl);
  }

  lemma EarlierClock(h: seq<Event>)
    requires ClockMonotone(h) && h != []
    ensures ClockMonotone(h[..|h| - 1])
    ensures |h| > 1 ==> h[..|h| - 1][|h| - 2].now <= h[|h| - 1].now
  {
    assert |h| > 1 ==> h[|h| - 2].now <= h[|h| - 1].now;
  }

  lemma {:induction false} FreshKeysAreTracked(h: seq<Event>, k: string, ttl: int, capacity: int)
    requires ClockMonotone(h) && Latest(h, k).At?
    requires h != [] && h[|h| - 1].now <= Latest(h, k).time + ttl
    ensures Tracked(Run(h, ttl, capacity), k, Ahead(h, k, ttl, capacity), Crowded(h, k, ttl, capacity))
    decreases |h|
  {
    hide *;
    var init, e := h[..|h| - 1], h[|h| - 1];
    assert h == init + [e];
    OneMoreEvent(init, e, k, ttl, capacity);
    EarlierClock(h);
    var s, ahead := Run(init, ttl, capacity), Ahead(init, k, ttl, capacity);
    if e.op.key != k || e.op.Get? {
      NeverBefore(init, k);
      FreshKeysAreTracked(init, k, ttl, capacity);
    }
    if e.op.key != k {
      RunIsDistinct(init, ttl, capacity);
      OtherKeyTracked(s, e, k, ahead, Crowded(init, k, ttl, capacity), ttl, capacity);
    } else {
      if HasKey(s, k) {
        HeldEntry(init, k, ttl, capacity);
      }
      SameKeyTracked(s, e, k, ahead, Crowded(init, k, ttl, capacity), ttl, capacity);
      NextAheadOfItself(s, e, k, ahead);
    }
  }

  lemma NextAheadOfItself(s: Slots, e: Event, k: string, ahead: set<string>)
    requires e.op.key == k
    ensures Touches(s, e) ==> NextAhead(s, e, k, ahead) == {}
    ensures !Touches(s, e) && !Drops(s, e) ==> NextAhead(s, e, k, ahead) == ahead
  {
  }

  lemma NeverBefore(h: seq<Event>, k: string)
    ensures Latest(h, k).At? ==> h != []
  {
  }

  /** While the latest Set(k) is at most ttl old, Get(k) hits exactly when at no moment since k was
      last touched as many other keys were ahead of it as the cache holds. */
  lemma FreshKeysHitIff(h: seq<Event>, k: string, now: int, ttl: int, capacity: int)
    requires ClockMonotone(h + [Event(Get(k), now)])
    requires Latest(h, k).At? && now <= Latest(h, k).time + ttl
    ensures GetResult(Run(h, ttl, capacity), k, now).Hit? <==> !Crowded(h, k, ttl, capacity)
  {
    var all := h + [Event(Get(k), now)];
    assert h != [];
    assert all[|h| - 1].now <= all[|h|].now;
    assert forall i :: 0 <= i < |h| ==> h[i] == all[i];
    FreshKeysAreTracked(h, k, ttl, capacity);
    hide Run, Ahead, Crowded, Latest;
    if HasKey(Run(h, ttl, capacity), k) {
      HeldEntry(h, k, ttl, capacity);
    }
  }

  // The keys ahead are among those touched; without a drop they are the same.
  lemma {:induction false} AheadIsTouched(h: seq<Event>, k: string, ttl: int, capacity: int)
    ensures var touched := TouchedSince(h, k, ttl, capacity);
      && Ahead(h, k, ttl, capacity) <= touched
      && (Crowded(h, k, ttl, capacity) ==> |touched| >= Room(capacity))
      && (NothingDropped(h, ttl, capacity) ==>
            Ahead(h, k, ttl, capacity) == touched
            && (Crowded(h, k, ttl, capacity) <==> |touched| >= Room(capacity)))
    decreases |h|
  {
    if h != [] {
      var init, e := h[..|h| - 1], h[|h| - 1];
      AheadIsTouched(init, k, ttl, capacity);
      hide Run, Touches, Drops, Room;
      var touched := TouchedSince(h, k, ttl, capacity);
      SubsetIsSmaller(Ahead(h, k, ttl, capacity), touched);
      if e.op.key != k || !Touches(Run(init, ttl, capacity), e) {
        SubsetIsSmaller(TouchedSince(init, k, ttl, capacity), touched);
      }
    }
  }

  /** So Get(k) must hit, with the latest value, when the latest Set(k) is at most ttl old and fewer
      distinct other keys were touched since k was than the cache holds; and as long as no Get has
      dropped an expired entry, exactly then. */
  lemma FreshKeysHit(h: seq<Event>, k: string, now: int, ttl: int, capacity: int)
    requires ClockMonotone(h + [Event(Get(k), now)])
    requires Latest(h, k).At? && now <= Latest(h, k).time + ttl
    ensures var room := if capacity < 1 then 1 else capacity;
      && (|TouchedSince(h, k, ttl, capacity)| < room ==>
            GetResult(Run(h, ttl, capacity), k, now) == Hit(Latest(h, k).value))
      && (NothingDropped(h, ttl, capacity) ==>
            (GetResult(Run(h, ttl, capacity), k, now).Hit? <==> |TouchedSince(h, k, ttl, capacity)| < room))
  {
    FreshKeysHitIff(h, k, now, ttl, capacity);
    AheadIsTouched(h, k, ttl, capacity);
    hide Run, Crowded, TouchedSince, Latest;
    if GetResult(Run(h, ttl, capacity), k, now).Hit? {
      HitsAreLatest(h, k, now, ttl, capacity);
    }
  }

  // The keys other than k that some events name.
  function OtherKeys(events: seq<Event>, k: string): set<string> {
    set e | e in events && e.op.key != k :: e.op.key
  }

  lemma {:induction false} TouchedAreNamed(before: seq<Event>, later: seq<Event>, k: string, ttl: int, capacity: int)
    requires TouchedSince(before, k, ttl, capacity) == {}
    ensures TouchedSince(before + later, k, ttl, capacity) <= OtherKeys(later, k)
    decreases |later|
  {
    if later == [] {
      assert before + later == before;
    } else {
      var n := |later| - 1;
      var init, e := later[..n], later[n];
      assert later == init + [e];
      assert (before + later)[..|before| + n] == before + init;
      TouchedAreNamed(before, init, k, ttl, capacity);
      assert OtherKeys(init, k) <= OtherKeys(later, k);
      hide Run, Touches;
    }
  }

  // k has just been used: set, or found by a Get.
  predicate Uses(h: seq<Event>, e: Event, k: string, ttl: int, capacity: int) {
    e.op.key == k && (e.op.Get? ==> GetResult(Run(h, ttl, capacity), k, e.now).Hit?)
  }

  /** Using a key, by a Set or by a Get that hits, protects it: until it expires it hits as long as the
      later operations name fewer other keys than the capacity. */
  lemma UseProtects(before: seq<Event>, e: Event, later: seq<Event>, k: string, now: int, ttl: int, capacity: int)
    requires ClockMonotone(before + [e] + later + [Event(Get(k), now)])
    requires Uses(before, e, k, ttl, capacity) && |OtherKeys(later, k)| < capacity
    requires var h := before + [e] + later; Latest(h, k).At? && now <= Latest(h, k).time + ttl
    ensures var h := before + [e] + later;
      GetResult(Run(h, ttl, capacity), k, now) == Hit(Latest(h, k).value)
  {
    var h := before + [e] + later;
    assert (before + [e])[..|before|] == before;
    assert TouchedSince(before + [e], k, ttl, capacity) == {};
    TouchedAreNamed(before + [e], later, k, ttl, capacity);
    SubsetIsSmaller(TouchedSince(h, k, ttl, capacity), OtherKeys(later, k));
    hide Run, TouchedSince, Latest, OtherKeys;
    FreshKeysHit(h, k, now, ttl, capacity);
  }
}
