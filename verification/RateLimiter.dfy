/**
 The distributed rate limiter (internal/security/ratelimit.go): a Redis counter per API
 key and 60-second window, incremented and given its expiry by one atomic script.
 Times are in milliseconds; reading the clock and running the script are one step.
 */
module RateLimiter {

  const RATE_LIMIT_PER_MIN: nat := 60
  const WINDOW_SECONDS: nat := 60
  const WINDOW_MS: nat := 60_000

  // ---------- the Redis script ----------

  datatype Counter = Counter(count: nat, expiresAt: int)

  type Store = map<string, Counter>

  predicate Live(s: Store, key: string, now: int) {
    key in s && now < s[key].expiresAt
  }

  // INCR, and EXPIRE when the counter is new.
  function AfterIncr(s: Store, key: string, now: int): Store {
    var current := if Live(s, key, now) then s[key].count + 1 else 1;
    s[key := Counter(current, if current == 1 then now + 1000 * WINDOW_SECONDS else s[key].expiresAt)]
  }

  predicate Allows(s: Store, key: string, now: int) {
    AfterIncr(s, key, now)[key].count <= RATE_LIMIT_PER_MIN
  }

  class Redis {
    var counters: Store

    /** The script as it runs: 1 if the request is allowed, 0 if the limit is exceeded. */
    method RunScript(key: string, limit: nat, window: nat, now: int) returns (result: int)
      requires limit == RATE_LIMIT_PER_MIN && window == WINDOW_SECONDS
      modifies this
      ensures counters == AfterIncr(old(counters), key, now)
      ensures result == if Allows(old(counters), key, now) then 1 else 0
    {
      if key in counters && now >= counters[key].expiresAt {
        counters := counters - {key};
      }
      var current := if key in counters then counters[key].count + 1 else 1;
      if key in counters {
        counters := counters[key := counters[key].(count := current)];
      } else {
        counters := counters[key := Counter(current, 0)];
      }
      if current == 1 {
        counters := counters[key := counters[key].(expiresAt := now + 1000 * window)];
      }
      if current > limit {
        return 0;
      }
      return 1;
    }
  }

  // ---------- the key format ----------

  function Digit(d: nat): char
    requires d < 10
  {
    "0123456789"[d]
  }

  // %d of a non-negative number.
  function Decimal(n: nat): (s: string)
    ensures s != [] && forall i :: 0 <= i < |s| ==> s[i] != ':'
  {
    if n < 10 then [Digit(n)] else Decimal(n / 10) + [Digit(n % 10)]
  }

  function CounterKey(apiKey: string, windowTs: nat): string {
    "caw:rate:" + apiKey + ":" + Decimal(windowTs)
  }

  lemma {:induction false} DecimalIsInjective(m: nat, n: nat)
    requires Decimal(m) == Decimal(n)
    ensures m == n
  {
    var s := Decimal(m);
    assert |s| == 1 <==> m < 10 by {
      if m >= 10 { assert |Decimal(m / 10)| >= 1; }
    }
    assert |s| == 1 <==> n < 10 by {
      if n >= 10 { assert |Decimal(n / 10)| >= 1; }
    }
    if m < 10 {
      SameDigit(m, n);
    } else {
      assert s[..|s| - 1] == Decimal(m / 10) && s[..|s| - 1] == Decimal(n / 10);
      assert s[|s| - 1] == Digit(m % 10) && s[|s| - 1] == Digit(n % 10);
      SameDigit(m % 10, n % 10);
      DecimalIsInjective(m / 10, n / 10);
    }
  }

  lemma SameDigit(c: nat, d: nat)
    requires c < 10 && d < 10 && Digit(c) == Digit(d)
    ensures c == d
  {
  }

  /** The key format never mixes two (API key, window) pairs, even if keys contain colons. */
  lemma KeysAreInjective(k1: string, w1: nat, k2: string, w2: nat)
    ensures CounterKey(k1, w1) == CounterKey(k2, w2) <==> k1 == k2 && w1 == w2
  {
    if CounterKey(k1, w1) == CounterKey(k2, w2) {
      LastColon(k1, Decimal(w1), k2, Decimal(w2), CounterKey(k1, w1));
      DecimalIsInjective(w1, w2);
    }
  }

  // The number that a string of digits denotes.
  function ReadDecimal(s: string): int {
    if s == "" then 0 else 10 * ReadDecimal(s[..|s| - 1]) + (s[|s| - 1] as int - '0' as int)
  }

  /** The window is written in decimal digits, without leading zeros. */
  lemma {:induction false} DecimalReadsBack(n: nat)
    ensures ReadDecimal(Decimal(n)) == n
    ensures forall i :: 0 <= i < |Decimal(n)| ==> '0' <= Decimal(n)[i] <= '9'
    ensures n > 0 ==> Decimal(n)[0] != '0'
  {
    var s := Decimal(n);
    DigitReadsBack(n % 10);
    if n >= 10 {
      DecimalReadsBack(n / 10);
      assert s[..|s| - 1] == Decimal(n / 10) && s[|s| - 1] == Digit(n % 10);
    } else {
      assert s == [Digit(n)] && s[..0] == "";
    }
  }

  lemma DigitReadsBack(d: nat)
    requires d < 10
    ensures Digit(d) as int - '0' as int == d && '0' <= Digit(d) <= '9' && (Digit(d) == '0' <==> d == 0)
  {
  }

  /** A key as the program writes it. */
  lemma KeyExample()
    ensures CounterKey("tenant", 7) == "caw:rate:tenant:7"
  {
    assert Decimal(7) == "7";
  }

  // Text after the last colon: both readings of a key split at the same place.
  lemma LastColon(k1: string, d1: string, k2: string, d2: string, key: string)
    requires key == "caw:rate:" + k1 + ":" + d1 && key == "caw:rate:" + k2 + ":" + d2
    requires forall i :: 0 <= i < |d1| ==> d1[i] != ':'
    requires forall i :: 0 <= i < |d2| ==> d2[i] != ':'
    ensures k1 == k2 && d1 == d2
  {
    var p1, p2 := 9 + |k1|, 9 + |k2|;
    assert key[p1] == ':' && key[p2] == ':';
    assert forall i :: p1 < i < |key| ==> key[i] == d1[i - p1 - 1];
    assert forall i :: p2 < i < |key| ==> key[i] == d2[i - p2 - 1];
    assert p1 == p2;
    assert k1 == key[9..p1] && k2 == key[9..p2];
    assert d1 == key[p1 + 1..] && d2 == key[p2 + 1..];
  }

  // ---------- runs ----------

  // What became of the round trip to Redis: the script may run without its reply arriving.
  datatype Trip = Delivered | ReplyLost | NotExecuted

  datatype Request = Request(apiKey: string, now: nat, trip: Trip)

  function WindowOf(now: nat): nat {
    now / WINDOW_MS
  }

  function After(s: Store, r: Request): Store {
    if r.apiKey == "" || r.trip == NotExecuted then s
    else AfterIncr(s, CounterKey(r.apiKey, WindowOf(r.now)), r.now)
  }

  /** The middleware: requests without an API key pass; an error or a 0 is a 429. */
  predicate Admits(s: Store, r: Request) {
    r.apiKey == "" || (r.trip == Delivered && Allows(s, CounterKey(r.apiKey, WindowOf(r.now)), r.now))
  }

  /** The middleware around the script; true is a request let through. */
  method Middleware(rdb: Redis, r: Request) returns (admitted: bool)
    modifies rdb
    ensures rdb.counters == After(old(rdb.counters), r)
    ensures admitted <==> Admits(old(rdb.counters), r)
    ensures r.apiKey == "" ==> admitted && rdb.counters == old(rdb.counters)
    ensures r.apiKey != "" && r.trip != Delivered ==> !admitted
  {
    if r.apiKey == "" {
      return true;
    }
    var windowTs := r.now / 1000 / WINDOW_SECONDS;
    WindowInSeconds(r.now);
    if r.trip == NotExecuted {
      return false;
    }
    var result := rdb.RunScript(CounterKey(r.apiKey, windowTs), RATE_LIMIT_PER_MIN, WINDOW_SECONDS, r.now);
    return r.trip == Delivered && result != 0;
  }

  lemma WindowInSeconds(now: nat)
    ensures now / 1000 / WINDOW_SECONDS == WindowOf(now)
  {
  }

  function Run(h: seq<Request>): Store {
    if h == [] then map[] else After(Run(h[..|h| - 1]), h[|h| - 1])
  }

  ghost predicate ClockMonotone(h: seq<Request>) {
    forall i, j :: 0 <= i < j < |h| ==> h[i].now <= h[j].now
  }

  predicate Counts(r: Request, apiKey: string, w: nat) {
    r.apiKey == apiKey && WindowOf(r.now) == w && r.trip != NotExecuted
  }

  // Requests of one API key that reached the script in one window.
  function Executed(h: seq<Request>, apiKey: string, w: nat): nat {
    if h == [] then 0 else
      Executed(h[..|h| - 1], apiKey, w) + if Counts(h[|h| - 1], apiKey, w) then 1 else 0
  }

  function Admitted(h: seq<Request>, apiKey: string, w: nat): nat {
    if h == [] then 0 else
      Admitted(h[..|h| - 1], apiKey, w)
      + if Counts(h[|h| - 1], apiKey, w) && Admits(Run(h[..|h| - 1]), h[|h| - 1]) then 1 else 0
  }

  // Of those, the ones among the first 60 whose reply arrived.
  function DeliveredInFirst60(h: seq<Request>, apiKey: string, w: nat): nat {
    if h == [] then 0 else
      var init, r := h[..|h| - 1], h[|h| - 1];
      DeliveredInFirst60(init, apiKey, w)
      + if Counts(r, apiKey, w) && r.trip == Delivered && Executed(init, apiKey, w) < RATE_LIMIT_PER_MIN then 1 else 0
  }

  ghost predicate CounterIsExact(s: Store, h: seq<Request>, apiKey: string, w: nat) {
    var key, n := CounterKey(apiKey, w), Executed(h, apiKey, w);
    if n == 0 then key !in s
    else key in s && s[key].count == n && s[key].expiresAt >= (w + 1) * WINDOW_MS
  }

  lemma WindowBounds(now: nat)
    ensures WindowOf(now) * WINDOW_MS <= now < (WindowOf(now) + 1) * WINDOW_MS
  {
  }

  /** The counter of a window counts its requests exactly, and its expiry never falls
      inside that window. */
  lemma {:induction false} CountersAreExact(h: seq<Request>, apiKey: string, w: nat)
    requires apiKey != ""
    ensures CounterIsExact(Run(h), h, apiKey, w)
  {
    if h != [] {
      var init, r := h[..|h| - 1], h[|h| - 1];
      CountersAreExact(init, apiKey, w);
      KeysAreInjective(apiKey, w, r.apiKey, WindowOf(r.now));
      WindowBounds(r.now);
      hide CounterKey;
      hide WindowOf;
    }
  }

  lemma AdmitsIffEarly(h: seq<Request>, r: Request)
    requires r.apiKey != ""
    ensures Admits(Run(h), r) <==> r.trip == Delivered && Executed(h, r.apiKey, r.now / 60_000) < 60
  {
    CountersAreExact(h, r.apiKey, WindowOf(r.now));
    WindowBounds(r.now);
    hide CounterKey;
  }

  /** Each window admits, per key, exactly the delivered requests among its first 60. */
  lemma {:induction false} WindowAdmitsFirst60(h: seq<Request>, apiKey: string, w: nat)
    requires apiKey != ""
    ensures Admitted(h, apiKey, w) == DeliveredInFirst60(h, apiKey, w)
    ensures Admitted(h, apiKey, w) <= 60
  {
    if h != [] {
      WindowAdmitsFirst60(h[..|h| - 1], apiKey, w);
      FirstDeliveredBound(h, apiKey, w);
      if h[|h| - 1].apiKey == apiKey {
        AdmitsIffEarly(h[..|h| - 1], h[|h| - 1]);
      }
    }
  }

  lemma {:induction false} FirstDeliveredBound(h: seq<Request>, apiKey: string, w: nat)
    ensures DeliveredInFirst60(h, apiKey, w) <= Executed(h, apiKey, w)
    ensures DeliveredInFirst60(h, apiKey, w) <= RATE_LIMIT_PER_MIN
  {
    if h != [] {
      FirstDeliveredBound(h[..|h| - 1], apiKey, w);
    }
  }

  /** With every round trip completed, each window admits exactly min(60, requests). */
  lemma {:induction false} WindowAdmitsExactly(h: seq<Request>, apiKey: string, w: nat)
    requires apiKey != "" && forall r :: r in h ==> r.trip == Delivered
    ensures var n := Executed(h, apiKey, w);
      Admitted(h, apiKey, w) == if n < 60 then n else 60
  {
    WindowAdmitsFirst60(h, apiKey, w);
    if h != [] {
      assert forall r :: r in h[..|h| - 1] ==> r in h;
      WindowAdmitsExactly(h[..|h| - 1], apiKey, w);
      WindowAdmitsFirst60(h[..|h| - 1], apiKey, w);
      assert h[|h| - 1] in h;
    }
  }

  // ---------- any minute ----------

  // Admitted requests of one key with from <= now <= from + 60 s.
  function AdmittedBetween(h: seq<Request>, apiKey: string, from: nat): nat {
    if h == [] then 0 else
      var init, r := h[..|h| - 1], h[|h| - 1];
      AdmittedBetween(init, apiKey, from)
      + if r.apiKey == apiKey && r.trip != NotExecuted && from <= r.now <= from + WINDOW_MS && Admits(Run(init), r)
        then 1 else 0
  }

  lemma {:induction false} MinuteTouchesTwoWindows(h: seq<Request>, apiKey: string, from: nat)
    ensures AdmittedBetween(h, apiKey, from)
         <= Admitted(h, apiKey, WindowOf(from)) + Admitted(h, apiKey, WindowOf(from) + 1)
  {
    if h != [] {
      MinuteTouchesTwoWindows(h[..|h| - 1], apiKey, from);
      var r := h[|h| - 1];
      if from <= r.now <= from + WINDOW_MS {
        WindowsOfMinute(from, r.now);
      }
    }
  }

  lemma WindowsOfMinute(from: nat, now: nat)
    requires from <= now <= from + WINDOW_MS
    ensures WindowOf(now) == WindowOf(from) || WindowOf(now) == WindowOf(from) + 1
  {
  }

  /** Any 60 seconds, wherever they start, admit at most 120 requests per key. */
  lemma AnyMinuteAdmits120(h: seq<Request>, apiKey: string, from: nat)
    requires apiKey != ""
    ensures AdmittedBetween(h, apiKey, from) <= 120
  {
    MinuteTouchesTwoWindows(h, apiKey, from);
    WindowAdmitsFirst60(h, apiKey, WindowOf(from));
    WindowAdmitsFirst60(h, apiKey, WindowOf(from) + 1);
  }

  // n requests at one instant.
  function Burst(apiKey: string, now: nat, n: nat): seq<Request> {
    seq(n, _ => Request(apiKey, now, Delivered))
  }

  // After a burst in each of two windows.
  lemma {:induction false} BurstIsAdmitted(h: seq<Request>, apiKey: string, now: nat, n: nat, from: nat)
    requires apiKey != "" && Executed(h, apiKey, WindowOf(now)) == 0 && n <= RATE_LIMIT_PER_MIN
    requires from <= now <= from + WINDOW_MS
    ensures AdmittedBetween(h + Burst(apiKey, now, n), apiKey, from) == AdmittedBetween(h, apiKey, from) + n
    ensures forall w :: Executed(h + Burst(apiKey, now, n), apiKey, w)
                     == Executed(h, apiKey, w) + if w == WindowOf(now) then n else 0
  {
    if n == 0 {
      assert h + Burst(apiKey, now, 0) == h;
    } else {
      BurstIsAdmitted(h, apiKey, now, n - 1, from);
      var r := Request(apiKey, now, Delivered);
      var shorter := h + Burst(apiKey, now, n - 1);
      assert h + Burst(apiKey, now, n) == shorter + [r];
      assert WindowOf(now) == now / 60_000;
      AdmitsIffEarly(shorter, r);
      hide Burst, Run, Admits;
      OneAdmitted(shorter, r, apiKey, from);
    }
  }

  // One request more, which is admitted.
  lemma OneAdmitted(h: seq<Request>, r: Request, apiKey: string, from: nat)
    requires r.apiKey == apiKey && r.trip == Delivered && from <= r.now <= from + WINDOW_MS && Admits(Run(h), r)
    ensures AdmittedBetween(h + [r], apiKey, from) == AdmittedBetween(h, apiKey, from) + 1
    ensures forall w :: Executed(h + [r], apiKey, w) == Executed(h, apiKey, w) + if w == WindowOf(r.now) then 1 else 0
  {
    assert (h + [r])[..|h|] == h;
    hide Admits, Run;
  }

  lemma TwoBursts(apiKey: string, n: nat, h: seq<Request>)
    requires apiKey != "" && n <= RATE_LIMIT_PER_MIN
    requires h == Burst(apiKey, 59_999, n) + Burst(apiKey, 60_000, n)
    ensures ClockMonotone(h) && AdmittedBetween(h, apiKey, 59_999) == 2 * n
  {
    var first := Burst(apiKey, 59_999, n);
    NothingYet(apiKey);
    hide *;
    BurstIsAdmitted([], apiKey, 59_999, n, 59_999);
    assert [] + first == first;
    BurstIsAdmitted(first, apiKey, 60_000, n, 59_999);
    BurstsAreInOrder(apiKey, n);
  }

  lemma NothingYet(apiKey: string)
    ensures WindowOf(59_999) == 0 && WindowOf(60_000) == 1 && AdmittedBetween([], apiKey, 59_999) == 0
    ensures Executed([], apiKey, 0) == 0 && Executed([], apiKey, 1) == 0
    ensures RATE_LIMIT_PER_MIN == 60 && WINDOW_MS == 60_000
  {
  }

  lemma BurstsAreInOrder(apiKey: string, n: nat)
    ensures ClockMonotone(Burst(apiKey, 59_999, n) + Burst(apiKey, 60_000, n))
  {
  }

  /** The bound is sharp: 60 requests at the end of one window and 60 at the start of the
      next, one millisecond later, are all admitted. */
  lemma BoundIsSharp(apiKey: string, h: seq<Request>)
    requires apiKey != "" && h == Burst(apiKey, 59_999, 60) + Burst(apiKey, 60_000, 60)
    ensures ClockMonotone(h) && AdmittedBetween(h, apiKey, 59_999) == 120
  {
    TwoBursts(apiKey, RATE_LIMIT_PER_MIN, h);
  }
}
