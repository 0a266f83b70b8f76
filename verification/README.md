# Verified model of the gateway's algorithms and shared-state protocols

This project models the parts of the gateway that do real mathematics, keep a heap structure
consistent, or follow a protocol over shared state, and proves what they promise. Run
`dafny verify dfyconfig.toml` to check everything.

**Prime factorization, in Go and in Python.** `NumberTheory` builds Bezout, Euclid's lemma and
unique factorization; `Bags` multiplies bags of numbers; `Fermat` proves Fermat's little
theorem; `MillerRabin` models the Python primality test, `Pseudoprime` exhibits a composite that
passes it and `Rejections` composites that only its later witnesses reject (`ModularPowers` holds
the squarings for both); `PollardRho` proves that rho's inner loop ends (pigeonhole and Floyd's cycle detection);
`RhoDraws` is its retry loop and `RhoSearch` the recursion that both programs build around it,
as functions of the random draws; `Wheel` is the 2/3/5 wheel. `GoFactorizer` is the Go code on a 64-bit type
whose arithmetic is checked not to overflow, `PythonFactorizer` the Python code with its shared
dictionary. `Agreement` runs both: whatever either of them draws, the answers are the same,
because `CanonicalForm` shows that a canonical factorization is unique.

**Two caches.** `LruRing` is the factorizer's hand-written ring of nodes with sentinels and a
map, refined to a sequence whose laws are in `Lru` (inclusion between capacities).
`FactorizerCache` is the service with its cache, `ConcurrentFactorizer` the same service under
every interleaving of any number of goroutines. `ExpiringLru` and `ExpiringLruCache` are the
embedding cache with per-entry expiry.

**The history-compression lock.** `CompressionLock` is a transition system in which every Redis
command and backend call of any number of callers is one step that may fail, with or without
having taken effect. `ContextManager` is the code of `LoadAndManage` itself: with other callers
moving before each of its commands, it goes through exactly the run of that system which the
outcomes of its commands determine. `CompressionRuns` has the undisturbed runs and those that
reach the bound on compressions; `CompressionResults` says what callers get and what the
session list holds, `CompressionOutcomes` what each single step decides for its caller. `History`
holds the token count and the hard truncation.

**Machines that read a clock.** `CircuitBreaker` is the inference breaker with late results
included; `RateLimiter` is the fixed-window limiter with its script and key format.

**Three smaller cores.** `Rrf` (reciprocal rank fusion), `SemanticCache` (cosine similarity and
the bounded cache) and `ShellQuote` (quoting, against sections 2.2.1 to 2.2.3 of the POSIX.1-2017
Shell Command Language).

## Hypotheses

Each is a predicate that the members using it require or state.

- `GoFactorizer.ExactBelow64`: `big.Int.ProbablyPrime` is exact below 2^64.
- `MillerRabin.WitnessesSuffice(bound)`: below the bound, a number that passes all twelve
  witnesses is prime. Only "prime" verdicts rest on it; "composite" verdicts are proved. No
  contract requires it: `PythonFactorizer.FactoredIffNoPseudoprime` says for every n when the
  answers are right, and `Agreement.BothFactorize` what follows from it up to 10^15.
- Random numbers are a finite list of draws, as long as one likes; `OutOfDraws` means that every
  draw on it failed. When a search runs out of draws is stated exactly, and further draws always
  help (`GoFactorizer.OneMoreDrawHelps`, `PythonFactorizer.SomeDrawsSuffice`).
- Scores and vectors are exact reals; the square root is any function with `sqrt(x) >= 0` and
  `sqrt(x) * sqrt(x) == x`.
- The clock does not go backwards (`ClockMonotone`), where a member says so.
- The compression lock does not expire and nobody appends to the session while it is managed.

## What turned out different from what one might expect

- `Pseudoprime.DocumentedBoundFails`: the docstring at prime_service.py:36 calls the test
  deterministic below 3317044064679887385961981. It is not: 318665857834031151167461, which is
  399165290221 * 798330580441, passes all twelve witnesses, and factorize returns it as its own
  only factor (`PythonFactorizer.DocumentedInputIsNotFactored`). The documented bound is the one
  published for thirteen witnesses.
- `PythonFactorizer.FactoredIffNoPseudoprime`: factorize returns the prime factorization of n
  whatever it draws exactly when no composite divisor of n passes all twelve witnesses. With such
  a divisor some draws split n into parts of which one is composite (`PseudoprimeIsNotFactored`),
  because rho can be made to return any proper divisor (`RhoDraws.EveryDivisorIsDrawn`).
- `CompressionLock.CompressionsAreBounded`: "one compression per session" holds up to one extra
  compression per failed operation and one per summary that is itself at the threshold or above;
  `CompressionRuns.BoundIsReached` shows that no smaller bound holds.
- `CompressionResults.EmptyResults`: a caller can return an empty history although the session
  has one, in exactly two ways. It read an empty list (`EmptyReads`): while nothing fails, that is
  between the DEL and the RPUSH of a write-back, which is a pipeline and not a transaction
  (`EmptyWhileWriting`). Or it truncated a history whose newest message alone has more than 2500
  words (`EmptyByTruncation`).
- `CompressionResults.ListIsEmptyIffCleared`: the error of the write-back is ignored, so the
  session is lost exactly when the last of all DEL and RPUSH commands that took effect is a DEL.
  `WriteBackIsUndisturbed` says what one write-back leaves, whatever the others do meanwhile, and
  `FailedPushLosesSession` shows a caller that returns the summary while the session is lost.
- `CompressionLock.LockIsTakenIffKept`: a caller that panics keeps the lock for good; while nothing
  fails, that and being between winning and releasing are the only ways in which it is taken.
- `ExpiringLru.FreshKeysHitIff`: which unexpired keys hit depends on what was dropped on the way. A
  Get that drops an expired entry makes room for one key more, so counting the other keys touched
  since is exact only as long as nothing was dropped (`FreshKeysHit`).
- `Rrf.DominanceIsSharp`: a document found by both searches beats every document found by one
  exactly for lists of lengths m and k with m*k < 3720 + m + k; for equal lengths, up to 61.
- `SemanticCache.SemanticCache.Store` panics exactly when the maximum size is 0.
- `ShellQuote.QuoteRoundTripIffNulFree` and `PythonCommandWords`: the round trip holds exactly for
  NUL-free strings.

## Model

| member | source | states |
|---|---|---|
| Fermat.FermatLittle | prime_service.py:25-27 | a^(p-1) leaves 1 modulo a prime p that does not divide a: why a prime passes its first check |
| Fermat.SquareRootsOfOne | prime_service.py:28-31 | modulo a prime only 1 and -1 square to 1: why a prime passes the squaring loop |
| MillerRabin.OddPartTimesPower | prime_service.py:21-24 | the halving loop writes n-1 as an odd number times a power of two |
| MillerRabin.MillerRabin | prime_service.py:19-32 | the witness check passes exactly when a^d is 1 or some a^(d*2^i), i < r, is -1 modulo n, with d and r read off n-1 |
| MillerRabin.PrimePasses | prime_service.py:19-32 | every prime passes every witness it does not divide |
| MillerRabin.PrimePassesAllWitnesses | prime_service.py:43-48 | every prime passes the whole list of twelve |
| MillerRabin.RejectionIsSound | prime_service.py:46-47 | a number rejected by one witness different from it is not prime |
| MillerRabin.PseudoprimesAvoidWitnesses | prime_service.py:25-27 | no witness divides a composite that the test accepts, so the trial divisors never touch one |
| MillerRabin.IsPrime | prime_service.py:35-48 | True exactly for the primes and the composites, coprime to 6, that pass all twelve witnesses; so False is never said of a prime |
| MillerRabin.WitnessesAreThePrimes | prime_service.py:43 | the witnesses are exactly the primes up to 37 |
| Rejections.FailsAtOnce | prime_service.py:25-32 | a base whose power a^d is neither 1 nor -1 fails a number that is 3 modulo 4 |
| Rejections.SixBasesDoNotSuffice | prime_service.py:43-48 | 3474749660383 = 1303 * 16927 * 157543 is rejected, by the witness 17 |
| Rejections.EightBasesDoNotSuffice | prime_service.py:43-48 | 341550071728321 = 10670053 * 32010157 is rejected, by the witness 23 |
| Rejections.ElevenBasesDoNotSuffice | prime_service.py:43-48 | 3825123056546413051 = 149491 * 747451 * 34233211 is rejected, by the last witness |
| Pseudoprime.PseudoprimeIsAccepted | prime_service.py:35-48 | 318665857834031151167461 is composite, coprime to 6, and passes all twelve witnesses |
| Pseudoprime.WitnessesFailAbove | prime_service.py:36 | so the witnesses suffice up to no bound above it |
| Pseudoprime.DocumentedBoundFails | prime_service.py:36 | in particular not up to the documented bound |
| PollardRho.WalkRepeats | internal/mathutil/factorizer.go:221-225 | among the first n+1 values of the walk two are equal |
| PollardRho.WalksMeet | internal/mathutil/factorizer.go:221-225 | the single-speed and double-speed walks meet within n rounds, for every start and constant |
| PollardRho.InnerLoopEnds | internal/mathutil/factorizer.go:221-230 | the inner loop stops, within n rounds, with a gcd other than 1 |
| PollardRho.AttemptDivides | internal/mathutil/factorizer.go:221-232 | what the inner loop stops with is a divisor of n above 1 |
| RhoDraws.RhoFindsProperDivisor | prime_service.py:51-66 | for composite n any value returned is a divisor strictly between 1 and n |
| RhoDraws.RhoNeverSplitsAPrime | prime_service.py:51-66 | called with an odd prime no draw ever succeeds, which is why both callers test first |
| RhoDraws.EveryDivisorIsDrawn | prime_service.py:51-66 | for every proper divisor of an odd number some start and constant make the next attempt return exactly that divisor |
| RhoDraws.SomeDrawSucceeds | internal/mathutil/factorizer.go:216-234 | for every odd composite n some start and constant succeed, so the retry loop is never hopeless |
| RhoSearch.RhoSplits | internal/mathutil/factorizer.go:206-207 | rho's divisor and its cofactor carry together exactly the prime factors of n |
| RhoSearch.RhoExtends | internal/mathutil/factorizer.go:216-234 | a call that succeeded leaves later draws alone; to one that failed only later draws matter |
| RhoSearch.SearchExtends | internal/mathutil/factorizer.go:199-208 | the same for the whole recursion: draws it did not need are left over and change nothing of what it found |
| RhoSearch.PartsMakeUp | prime_service.py:69-88 | whatever was drawn, the parts of a finished recursion are accepted by the test and multiply to n |
| RhoSearch.StripsAll | prime_service.py:78-81 | dividing out one prime takes out every factor of it and loses nothing else |
| RhoSearch.MoreDrawsHelp | internal/mathutil/factorizer.go:199-208 | whatever has been drawn, some further draws let the recursion finish, for every n |
| Wheel.NothingSkipped | internal/mathutil/factorizer.go:179-188 | the wheel's values are coprime to 30 and nothing coprime to 30 lies between two of them |
| Wheel.EveryCandidateIsVisited | internal/mathutil/factorizer.go:179-188 | every number from 7 on that is coprime to 30 is a value of the wheel |
| Wheel.DivideOut | internal/mathutil/factorizer.go:182-185 | a wheel value that divides what is left is prime, and dividing it out removes exactly that prime |
| Wheel.CofactorShape | internal/mathutil/factorizer.go:190-195 | below 10^15, what trial division leaves is a prime or a product of two primes above 10^6 |
| Wheel.CofactorHasAtMostTwoFactors | internal/mathutil/factorizer.go:190-195 | so rho has at most two prime factors left to separate |
| CanonicalForm.CanonicalIsUnique | internal/mathutil/factorizer.go:258-273 | increasing prime bases with positive exponents and product n: there is only one such list |
| CanonicalForm.CountsOfNumberAreCanonical | internal/mathutil/factorizer.go:264-272 | an increasing list that counts exactly the prime factors of n is the canonical one |
| CanonicalForm.SingleFactorIffPrime | internal/mathutil/factorizer.go:155 | one factor with exponent 1 exactly when n is prime |
| GoFactorizer.MulMod | internal/mathutil/factorizer.go:237-240 | the product modulo m of any two 64-bit values, computed without overflow |
| GoFactorizer.AddMod | internal/mathutil/factorizer.go:242-248 | the sum modulo m for arguments below m up to 2^62: one conditional subtraction is enough and nothing overflows |
| GoFactorizer.GcdLoop | internal/mathutil/factorizer.go:250-255 | the loop computes the greatest common divisor |
| GoFactorizer.RhoAttempt | internal/mathutil/factorizer.go:220-230 | the 64-bit inner loop terminates with the value the specification gives for its start and constant |
| GoFactorizer.PollardRhoLoop | internal/mathutil/factorizer.go:211-235 | the 64-bit loop returns what the specification Rho gives for the same draws |
| GoFactorizer.PollardFactors | internal/mathutil/factorizer.go:198-208 | exactly the prime factors of n with multiplicity, one split fewer than factors, and the draws that the recursion leaves; no answer exactly when it runs out of them |
| GoFactorizer.TrialDivide | internal/mathutil/factorizer.go:172-188 | the primes found and what is left make up n, and what is left is 1, prime, or free of divisors up to 10^6; the squares compared never overflow |
| GoFactorizer.CollectPrimes | internal/mathutil/factorizer.go:162-196 | exactly the prime factors of n with multiplicity, after at most one split by rho; no answer exactly when n has two prime factors above 10^6 and every draw fails on their product |
| GoFactorizer.StarvedIffCofactorIs | internal/mathutil/factorizer.go:190-195 | what trial division leaves is that product, so rho is short of draws exactly when it fails on it |
| GoFactorizer.PrimesNeverStarve | internal/mathutil/factorizer.go:168-170 | a prime is answered without any draw |
| GoFactorizer.InsertionSort | internal/mathutil/factorizer.go:259-263 | the in-place swaps end in a sorted permutation |
| GoFactorizer.BuildFactors | internal/mathutil/factorizer.go:257-273 | strictly increasing bases, exponents at least 1, and each base counted as often as it occurred in the array |
| GoFactorizer.Compute | internal/mathutil/factorizer.go:149-155 | the factors are canonical for n and IsPrime is set exactly when n is prime; no answer exactly when n has two prime factors above 10^6 and every draw fails on their product |
| GoFactorizer.OneMoreDrawHelps | internal/mathutil/factorizer.go:216-234 | whatever has been drawn for an n from 2 to 10^15, some one more draw makes the computation answer |
| GoFactorizer.CorrectIsUnique | internal/mathutil/factorizer.go:149-155 | correctness leaves no choice: two correct factorizations of n are equal |
| PythonFactorizer.GcdLoop | prime_service.py:13-16 | the loop computes the greatest common divisor |
| PythonFactorizer.RhoAttempt | prime_service.py:59-64 | the inner loop terminates with the value the specification gives |
| PythonFactorizer.PollardRhoLoop | prime_service.py:51-66 | the loop returns what the specification Rho gives for the same draws |
| PythonFactorizer.TakeOutAll | prime_service.py:78-81 | dividing out one small prime counts it in the dictionary exactly as often as it divides n, and leaves a number it does not divide |
| PythonFactorizer.SmallPrimesAreThePrimes | prime_service.py:77 | the trial divisors are exactly the primes up to 13 |
| PythonFactorizer.FactorRecursive | prime_service.py:69-88 | for every n, the shared dictionary gains numbers that the test accepts and whose product is n, on top of what it held: the parts that the draws determine; no answer exactly when the recursion runs out of draws |
| PythonFactorizer.PySearch | prime_service.py:69-88 | the recursion as a function of the draws: whatever they are, when it finishes it has split n into accepted numbers |
| PythonFactorizer.SomeDrawsSuffice | prime_service.py:69-88 | whatever has been drawn, some further draws let the recursion finish, for every n |
| PythonFactorizer.SplitsIntoPrimes | prime_service.py:69-88 | these are exactly the prime factors of n unless a composite divisor of n passes all twelve witnesses |
| PythonFactorizer.SufficientWitnesses | prime_service.py:36 | below a bound up to which the witnesses suffice, no number has such a divisor |
| PythonFactorizer.SortedItems | prime_service.py:110 | sorting the items gives strictly increasing bases with unchanged counts |
| PythonFactorizer.Factorize | prime_service.py:92-110 | ValueError exactly below 2; no answer exactly when the recursion runs out of draws; otherwise increasing accepted bases with product n, counting exactly the parts found; canonical exactly when these are the prime factors, so whenever no pseudoprime divides n; an accepted n comes back whole |
| PythonFactorizer.FactoredIffNoPseudoprime | prime_service.py:69-88 | every answer for n is its prime factorization exactly when no composite divisor of n passes all twelve witnesses |
| PythonFactorizer.PseudoprimeIsNotFactored | prime_service.py:69-88 | for any n that such a composite divides, however else it is made up, some draws make the recursion finish without the prime factors |
| PythonFactorizer.DocumentedInputIsNotFactored | prime_service.py:36 | that number is below the documented bound, and whatever is drawn factorize returns it as its own only factor, which is not canonical |
| PythonFactorizer.FactorizeList | prime_service.py:113-118 | the parts found, ascending, accepted and with product n; the prime factors whenever no pseudoprime divides n; the same error and the same draws |
| Agreement.BothFactorize | prime_service.py:92-110 | for every n from 2 to 10^15 and all draws, Go's factor list equals Python's sorted items exactly when Python found the prime factors: always when no pseudoprime divides n, so for all n if the witnesses suffice up to 10^15; each program answers exactly unless its draws run out in the way stated for it |
| Agreement.TwoRunsAgree | internal/mathutil/factorizer.go:138-158 | two Go runs with different draws return the same factorization, and each answers exactly unless every draw fails |
| Agreement.BothCanAnswer | internal/mathutil/factorizer.go:211-235 | whatever has been drawn, some further draws make both programs answer |
| Lru.TouchCommutes | internal/mathutil/factorizer.go:89-105 | using a key and then keeping the front equals keeping the front and then using the key |
| Lru.Inclusion | internal/mathutil/factorizer.go:76-111 | for every sequence of arguments the keys held at a smaller capacity are a prefix of those held at a larger one |
| Lru.MoreCapacityMoreHits | internal/mathutil/factorizer.go:76-111 | so a larger cache never has fewer hits |
| Lru.HeldIffRecent | internal/mathutil/factorizer.go:76-111 | a key is held exactly when fewer distinct other keys than the capacity were looked up since it last was, and then exactly those are in front of it |
| Lru.OnlyLookedUpIsHeld | internal/mathutil/factorizer.go:76-111 | a key that was never looked up is not held |
| LruRing.LruCache.constructor | internal/mathutil/factorizer.go:68-74 | two sentinels linked to each other, no entries, counters at 0 |
| LruRing.LruCache.RemoveNode | internal/mathutil/factorizer.go:107 | unlinking takes exactly that node out of the ring and leaves the links consistent both ways |
| LruRing.LruCache.AddToFront | internal/mathutil/factorizer.go:108-110 | linking puts the node right behind the head sentinel |
| LruRing.LruCache.MoveToFront | internal/mathutil/factorizer.go:111 | the node moves right behind the head, the order of the others stays |
| LruRing.LruCache.Get | internal/mathutil/factorizer.go:76-87 | the value and the new recency order of the sequence law, and one hit or one miss counted |
| LruRing.LruCache.Put | internal/mathutil/factorizer.go:89-105 | the new recency order of the sequence law; the entry just put is in front, so it is never the one evicted |
| LruRing.LruCache.EvictLast | internal/mathutil/factorizer.go:100-104 | the node before the tail sentinel leaves both the ring and the map |
| LruRing.LruCache.WalksMirror | internal/mathutil/factorizer.go:107-111 | the forward walk is the reverse of the backward walk, and its inner nodes are the map's values under their own keys |
| FactorizerCache.Factorizer.constructor | internal/mathutil/factorizer.go:124-129 | a capacity of 0 or less becomes 1 |
| FactorizerCache.Factorizer.Factorize | internal/mathutil/factorizer.go:138-158 | both range errors exactly where the code raises them; otherwise a correct factorization, from the cache exactly when the number is among those the recency law keeps; no answer exactly on a miss whose every draw fails; one lookup counted per in-range call |
| ConcurrentFactorizer.EveryInterleaving | internal/mathutil/factorizer.go:76-105 | in every interleaving the cached values are correct, the keys distinct and within capacity, and hits plus misses is the number of lookups begun |
| ConcurrentFactorizer.CachingIsInvisible | internal/mathutil/factorizer.go:138-158 | every returned value is the one a direct computation gives |
| ExpiringLru.RunIsDistinct | internal/embed/lru_cache.go:70-85 | over whole runs keys are distinct and the length is at most max(1, capacity) |
| ExpiringLru.HitsAreLatest | internal/embed/lru_cache.go:37-55 | a hit returns the value of the latest Set of that key, made no more than ttl ago |
| ExpiringLru.FreshKeysHitIff | internal/embed/lru_cache.go:37-85 | a key set no more than ttl ago hits exactly when at no moment since it was last touched as many other keys were ahead of it as the cache holds |
| ExpiringLru.FreshKeysHit | internal/embed/lru_cache.go:37-85 | so it must hit when fewer distinct other keys were touched since it was than the cache holds, and as long as no Get has dropped an expired entry, exactly then |
| ExpiringLru.UseProtects | internal/embed/lru_cache.go:37-85 | after a Set of a key or a Get that hits it, it keeps hitting until it expires while the operations that follow name fewer other keys than the capacity |
| ExpiringLruCache.LRUCache.constructor | internal/embed/lru_cache.go:27-34 | an empty cache with the given capacity and ttl |
| ExpiringLruCache.LRUCache.Get | internal/embed/lru_cache.go:37-55 | result and new order of the sequence law, with list and map in agreement |
| ExpiringLruCache.LRUCache.Set | internal/embed/lru_cache.go:58-85 | new order of the sequence law, overwriting in place or evicting the last entry |
| ExpiringLruCache.LRUCache.Len | internal/embed/lru_cache.go:88-92 | the length of the list, of the sequence and of the map are one number |
| CircuitBreaker.CircuitBreaker.constructor | internal/adapter/circuit_breaker.go:35-41 | closed, no failures, threshold 3 |
| CircuitBreaker.CircuitBreaker.Allow | internal/adapter/circuit_breaker.go:48-69 | the whole new state and the answer, in each of the three states |
| CircuitBreaker.CircuitBreaker.RecordSuccess | internal/adapter/circuit_breaker.go:72-77 | closed with no failures; the reopening time stays |
| CircuitBreaker.CircuitBreaker.RecordFailure | internal/adapter/circuit_breaker.go:81-89 | one failure more; at the threshold open until the cooldown from now |
| CircuitBreaker.ClosedIffFewFailures | internal/adapter/circuit_breaker.go:72-89 | over all runs, late results included, closed exactly when fewer than 3 failures were recorded since the last success |
| CircuitBreaker.LastFailureDecides | internal/adapter/circuit_breaker.go:55-89 | with 3 or more failures since the last success the breaker reopens the cooldown after the last of them, and is half-open exactly when a call came later than that |
| CircuitBreaker.AdmittedIffDue | internal/adapter/circuit_breaker.go:48-69 | over all runs a call is admitted exactly when fewer than 3 failures were recorded since the last success, or it comes more than the cooldown after the last failure and no call since did |
| CircuitBreaker.AdmissionIsProbe | internal/adapter/circuit_breaker.go:55-66 | in the second case it becomes the probe, and no other call passes until a result is recorded |
| CircuitBreaker.ProbesAreApart | internal/adapter/circuit_breaker.go:56-61 | any two probes of a run are more than the cooldown apart |
| CircuitBreaker.ProbesInSpan | internal/adapter/circuit_breaker.go:56-61 | a span L holds at most 1 + L / cooldown probes |
| CircuitBreaker.HalfOpenIsWaiting | internal/adapter/ollama.go:37-52 | half-open always has its probe outstanding, since each admitted call records once; even if the clock goes backwards |
| CircuitBreaker.AnyResultEndsHalfOpen | internal/adapter/ollama.go:45-51 | any result that arrives leaves half-open: success closes, failure opens |
| CircuitBreaker.OneProbeAtATime | internal/adapter/ollama.go:42-51 | if calls record within the cooldown, two probes are never outstanding together |
| RateLimiter.Redis.RunScript | internal/security/ratelimit.go:19-31 | the counter after INCR and, when it is new, EXPIRE; 1 exactly when it is at most the limit |
| RateLimiter.Middleware | internal/security/ratelimit.go:46-70 | no key passes without a counter; otherwise admitted exactly when the script ran, its reply arrived and it allowed |
| RateLimiter.KeysAreInjective | internal/security/ratelimit.go:54 | the key format never mixes two (API key, window) pairs, colons in the API key included |
| RateLimiter.DecimalReadsBack | internal/security/ratelimit.go:54 | the window is written in decimal digits without leading zeros |
| RateLimiter.KeyExample | internal/security/ratelimit.go:54 | a key as the program writes it |
| RateLimiter.CountersAreExact | internal/security/ratelimit.go:23-26 | each counter equals the number of scripts run for its key and window, and its expiry never falls inside that window |
| RateLimiter.AdmitsIffEarly | internal/security/ratelimit.go:27-30 | a request is admitted exactly when its reply arrives and fewer than 60 ran before it in its window |
| RateLimiter.WindowAdmitsFirst60 | internal/security/ratelimit.go:53-69 | a window admits, per key, exactly the delivered ones of its first 60 requests |
| RateLimiter.WindowAdmitsExactly | internal/security/ratelimit.go:53-69 | without Redis errors a window admits exactly min(60, requests) |
| RateLimiter.AnyMinuteAdmits120 | internal/security/ratelimit.go:53-69 | any 60-second interval admits at most 120 per key |
| RateLimiter.BoundIsSharp | internal/security/ratelimit.go:53-69 | a run in which such an interval admits exactly 120 |
| Rrf.AddLeg | internal/rag/rrf.go:13-19 | one accumulating loop adds to each document the sum of 1/(60+rank) over all its occurrences and keeps the first result seen |
| Rrf.Collect | internal/rag/rrf.go:28-33 | whatever the map order, each document once, with its accumulated score |
| Rrf.SortByScore | internal/rag/rrf.go:34-36 | a descending permutation, with nothing promised about ties |
| Rrf.RRFMerge | internal/rag/rrf.go:8-41 | the result is a cut at topK of some ranking: every document once, first result kept, fused score, descending |
| Rrf.ScoreSequenceIsUnique | internal/rag/rrf.go:28-40 | the score sequence is the same for every map order and every tie-break |
| Rrf.NothingDroppedOutscores | internal/rag/rrf.go:37-39 | a document that is left out was cut by topK, and everything kept scores at least as much |
| Rrf.ScoreAtRank | internal/rag/rrf.go:14-15 | with distinct ids a list contributes the share of the document's rank |
| Rrf.ShareIsInverse | internal/rag/rrf.go:14-15 | that share is the inverse of 60 plus the rank |
| Rrf.FirstInOne | internal/rag/rrf.go:8-26 | a document that one search puts first and the other does not find scores 1/61 |
| Rrf.FirstWithIsFirst | internal/rag/rrf.go:16-18 | the result kept for a document is its first one, the vector search's before the text search's |
| Rrf.TopSize | internal/rag/rrf.go:37-39 | every document is kept without topK, otherwise as many as topK allows |
| Rrf.DominanceIsSharp | internal/rag/rrf.go:5-26 | with distinct ids, for lists of lengths up to m and k, a document in both always outscores one in only one exactly when m*k < 3720 + m + k |
| Rrf.DominanceAtEqualLengths | internal/rag/rrf.go:5-26 | for lists of one length that is at most 61, with a tie at 62 |
| Rrf.BothComeFirst | internal/rag/retriever.go:28 | in lists of such lengths (each search is asked for 10) the documents found by both searches take the first places |
| Rrf.CutKeepsAgreement | internal/rag/rrf.go:37-39 | the cut keeps all of them when they fit and nothing else when they do not |
| SemanticCache.CosineSimilarity | internal/gateway/semantic_cache.go:63-80 | the loop computes the quotient of dot product and norms, 0 for different lengths, empty and zero vectors |
| SemanticCache.CauchySchwarz | internal/gateway/semantic_cache.go:67-73 | dot^2 is at most the product of the squared norms, for vectors of any length |
| SemanticCache.SimilarityIsBounded | internal/gateway/semantic_cache.go:63-80 | the similarity lies in [-1, 1] |
| SemanticCache.SimilarityIsCosine | internal/gateway/semantic_cache.go:63-80 | its square times both squared norms is the squared dot product, and it has the sign of the dot product |
| SemanticCache.SimilarityExample | internal/gateway/semantic_cache.go:63-80 | the similarity of (1, 0) and (24, 7) is 0.96 |
| SemanticCache.DotOfConcat | internal/gateway/semantic_cache.go:67-70 | the dot product adds up over the parts of the vectors, wherever they are split |
| SemanticCache.SimilarityIsSymmetric | internal/gateway/semantic_cache.go:63-80 | swapping the vectors changes nothing |
| SemanticCache.SimilarityIgnoresLength | internal/gateway/semantic_cache.go:63-80 | stretching either vector by a positive factor changes nothing |
| SemanticCache.SimilarityIsOneIffParallel | internal/gateway/semantic_cache.go:63-80 | the similarity is 1 exactly when neither vector is zero and both point the same way |
| SemanticCache.AboveThreshold | internal/gateway/semantic_cache.go:35-39 | at a positive threshold the similarity suffices exactly when the lengths agree, the dot product is positive and the squared cosine is at least the squared threshold |
| SemanticCache.SemanticCache.constructor | internal/gateway/semantic_cache.go:23-28 | empty, with the given maximum size |
| SemanticCache.SemanticCache.Store | internal/gateway/semantic_cache.go:45-52 | the entries are always the last maxSize stores in order; panics, changing nothing, exactly at maximum size 0 |
| SemanticCache.SemanticCache.Lookup | internal/gateway/semantic_cache.go:32-41 | a hit exactly when some entry reaches the threshold, and then the response of the oldest such entry |
| SemanticCache.SemanticCache.Len | internal/gateway/semantic_cache.go:55-59 | the number of stores, up to maxSize |
| SemanticCache.StoredIsFound | internal/gateway/semantic_cache.go:32-52 | a nonzero embedding among the last maxSize stores is held and matches itself at every threshold up to 1 |
| SemanticCache.EntriesAreInOrder | internal/gateway/semantic_cache.go:45-52 | the i-th entry from the end is the i-th store from the end |
| ShellQuote.QuoteRoundTrip | internal/gateway/virtual_tools.go:270-272 | a POSIX shell reads the quoted string as one word equal to it, with no unquoted character |
| ShellQuote.QuoteRoundTripIffNulFree | internal/gateway/virtual_tools.go:270-272 | exactly when the string has no NUL |
| ShellQuote.PythonCommandWords | internal/gateway/virtual_tools.go:152-159 | the generated command is the three words python3, -c and the code, character for character, exactly when the code has no NUL |
| ShellQuote.QuoteExample | internal/gateway/virtual_tools.go:270-272 | the five characters that stand for a single quote |
| History.CountTokens | internal/orchestration/context_manager.go:174-180 | the total number of words of the messages |
| History.SpacesAre | internal/orchestration/context_manager.go:177 | the white space characters of strings.Fields, listed |
| History.WordsAreFields | internal/orchestration/context_manager.go:177 | the number of words of a string is the number of nonempty pieces without white space that make it up with white space only, some of it between any two |
| History.FieldsExist | internal/orchestration/context_manager.go:177 | every string has such pieces |
| History.FieldsAreUnique | internal/orchestration/context_manager.go:177 | and only one list of them |
| History.SpaceSeparates | internal/orchestration/context_manager.go:177 | words do not run across white space |
| History.TokensOfConcat | internal/orchestration/context_manager.go:174-180 | the tokens of two histories in a row add up |
| History.TokensOfOne | internal/orchestration/context_manager.go:177 | the tokens of one message are the words of its content |
| History.HardTruncate | internal/orchestration/context_manager.go:142-154 | the longest suffix within the target, in order: one more message would exceed it; nothing for a negative target |
| CompressionLock.CompressionsAreBounded | internal/orchestration/context_manager.go:41-106 | in every interleaving of any number of callers, compressions are at most 1 + failed operations + over-long summaries |
| CompressionOutcomes.BackendCallsAreBounded | internal/orchestration/context_manager.go:41-106 | counted on the steps of the run: backend calls are at most 1 + failing steps + summaries of at least 3000 tokens |
| CompressionRuns.BoundIsReached | internal/orchestration/context_manager.go:41-106 | for any number of backend errors and over-long summaries there is a run that meets the bound |
| CompressionLock.LockIsExclusive | internal/orchestration/context_manager.go:54-81 | only one caller at a time is between winning the lock and releasing it |
| CompressionLock.LockIsTakenIffKept | internal/orchestration/context_manager.go:54-134 | at most one caller is there or has panicked there, and while nothing fails the lock is taken exactly when some caller is or has |
| CompressionRuns.SoleCallerSummarizes | internal/orchestration/context_manager.go:61-86 | a caller alone replaces the session list by the summary, returns it and frees the lock |
| CompressionRuns.SoleCallerFallsBack | internal/orchestration/context_manager.go:75-79 | after a backend error it returns the truncated history, leaves the list and frees the lock |
| CompressionRuns.SoleCallerPanics | internal/orchestration/context_manager.go:134 | without choices in the reply the caller panics and the lock stays taken |
| CompressionResults.ResultsAreJustified | internal/orchestration/context_manager.go:41-106 | every result is a loaded history under 3000 tokens, the longest suffix within 2500 of a loaded one over it, or the one-message summary of a loaded one |
| CompressionResults.LoadsAreSnapshots | internal/orchestration/context_manager.go:42-66 | what a caller loaded was the session list at some point of the run |
| CompressionOutcomes.FirstLoadDecides | internal/orchestration/context_manager.go:42-52 | an error exactly when the first load fails; under 3000 tokens what was read is returned, otherwise the caller goes for the lock |
| CompressionOutcomes.LockDecides | internal/orchestration/context_manager.go:55-61 | a failed SET NX returns the truncation of the first load; otherwise the lock it met decides between winning and waiting |
| CompressionOutcomes.ReloadDecides | internal/orchestration/context_manager.go:64-73 | a reload under 3000 tokens is what the winner will return; otherwise it has the reloaded history summarized, or the first one when the reload failed |
| CompressionOutcomes.AnswerDecides | internal/orchestration/context_manager.go:75-80 | the reply is about the history loaded last: truncated on an error, one system message with the text, a panic without choices |
| CompressionOutcomes.WriteBackDecides | internal/orchestration/context_manager.go:80-85 | after the write-back, whether it worked or not, the winner is going to return the one summary |
| CompressionOutcomes.ReleaseReturns | internal/orchestration/context_manager.go:70-85 | releasing, whether it works or not, returns what was decided before |
| CompressionOutcomes.PollDecides | internal/orchestration/context_manager.go:91-92 | the caller goes on waiting exactly when EXISTS succeeds and the lock is taken; a failure counts as a release |
| CompressionOutcomes.LoserReturns | internal/orchestration/context_manager.go:93-105 | a loser that reloads returns what it reads exactly when that is under 3000 tokens; otherwise, and when the reload fails or it gives up, the longest suffix within 2500 of its first load |
| CompressionOutcomes.LoserGetsSummary | internal/orchestration/context_manager.go:88-101 | a run without failures in which a caller waits for another and returns its summary |
| CompressionResults.ListKeepsShape | internal/orchestration/context_manager.go:157-171 | in every run, whatever fails, the list is the original one with summaries appended, or holds summaries only |
| CompressionResults.ListIsEmptyIffCleared | internal/orchestration/context_manager.go:157-171 | in every run, whatever fails, the list is empty exactly when the last DEL or RPUSH that took effect was a DEL, or none did and it was empty before |
| CompressionResults.WriteBackIsUndisturbed | internal/orchestration/context_manager.go:80-81 | what one write-back leaves, whatever the others do between its two commands: the list as it was, or empty if the DEL took effect, and then the summary exactly if the RPUSH did |
| CompressionResults.FailedPushLosesSession | internal/orchestration/context_manager.go:80-85 | a run in which the DEL works and the RPUSH does not: the list is empty while the caller returns the summary |
| CompressionResults.ListStaysWhole | internal/orchestration/context_manager.go:157-171 | while nothing fails the list is the original, one summary, or empty; over the threshold it is empty exactly between the two commands of a write-back |
| CompressionResults.TruncatedToNothing | internal/orchestration/context_manager.go:142-154 | truncation keeps nothing exactly when the newest message alone is over the target |
| CompressionResults.EmptyResults | internal/orchestration/context_manager.go:41-106 | in every run a result is empty exactly when the caller read an empty list or truncated a loaded history whose newest message alone is over the target |
| CompressionResults.LoadIsEmptyIffCleared | internal/orchestration/context_manager.go:42-102 | in every run each of the three loads, when it succeeds, reads an empty history exactly when the last such command that took effect was a DEL |
| CompressionResults.FirstLoadIsEmpty | internal/orchestration/context_manager.go:42-52 | while nothing fails, a newcomer to a session over the threshold reads an empty history exactly between the two commands of a write-back |
| CompressionResults.EmptyReads | internal/orchestration/context_manager.go:42-102 | so in every run an empty history that is returned as read was read after such a DEL; without failures, between the two commands of a write-back |
| CompressionResults.EmptyWhileWriting | internal/orchestration/context_manager.go:159-169 | a run without failures in which that happens |
| CompressionResults.EmptyByTruncation | internal/orchestration/context_manager.go:88-105 | a run without failures in which a caller that gives up truncates to nothing |
| ContextManager.Session.Perform | internal/orchestration/context_manager.go:41-106 | the others take exactly the steps the script names, if they are possible, then this caller takes its own, at the state it saw |
| ContextManager.Session.Take | internal/orchestration/context_manager.go:41-106 | the same for the step the code takes here, which uses up one moment of the script |
| ContextManager.Win | internal/orchestration/context_manager.go:61-86 | the winner's code takes exactly the steps that the script and the reply determine, and returns the result of that run; it panics only without choices |
| ContextManager.WriteBackHistory | internal/orchestration/context_manager.go:157-171 | the two commands of the pipeline, in order, whatever their outcomes |
| ContextManager.Lose | internal/orchestration/context_manager.go:88-105 | the same for at most as many polls as the deadline allows, the single reload and the fallback |
| ContextManager.LoadAndManage | internal/orchestration/context_manager.go:41-106 | the script, the reply and the number of polls determine the whole run and the result; an error exactly when the first load fails, a panic only without choices |
| ContextManager.Guarantees | internal/orchestration/context_manager.go:41-106 | when a call is over, its result is justified and the bound on compressions holds |
| ContextManager.UndisturbedCall | internal/orchestration/context_manager.go:41-106 | with a free lock, a history over the threshold and no disturbance: exactly the commands of `Attempt` and `Finish` in order, and the summary, the truncation or the panic as the reply says |
| ContextManager.LoserPolls | internal/orchestration/context_manager.go:88-105 | with the lock taken until the deadline: load, one attempt at the lock, all the polls, and then giving up |

## Left out

- Termination of rho's retry loop: it is probabilistic. The loop takes a finite list of draws; where the program would go on drawing, the model returns without an answer, and some further draws always give one.
- That no smaller composite passes the twelve witnesses is published, not proved: it takes a large computation. It enters as the hypothesis `MillerRabin.WitnessesSuffice`.
- `TypeError` for non-integers and the memo around `factorize` (prime_service.py:91, 103-104): the first has no counterpart in a typed model, the second does not change a pure result.
- The `ComputedAt` timestamp, wrap-around of the 64-bit hit and miss counters, and aliasing of the `Factors` slice between cached results: factorizations are immutable values here.
- Mutexes: each locked method is one atomic step. The library's doubly linked list behind the embedding cache is a sequence of entry objects.
- Go's sort library, big integers and `strings.Fields`: modelled by what they promise.
- SemanticCache.SemanticCache.constructor: requires a size of at least 0; making a slice with a negative capacity panics.
- LruRing.LruCache.constructor: requires a capacity of at least 1, which its only caller, `NewFactorizer`, guarantees.
- Rounding of floating-point scores and vectors, and the narrowing to float32 of the similarity.
- `CompressHistory`'s prompt text: the backend may answer anything; what is kept is which history it was asked to summarize.
- Expiry of the compression lock after 2 seconds: the release is not owner-checked and a compression can outlast the expiry, so mutual exclusion does not hold then. Appends by `SaveMessage` while a history is being managed.
- The time-to-live of the session keys, and the two-second and half-second durations themselves: a caller may give up polling at any moment.
- The streaming path of the adapter, and the embedding client's own breaker (internal/embed/circuit_breaker.go), whose half-open state admits every caller.
- Trimming and regular-expression matching around the Python block; the shell's expansions, operators and comments are rejected by the tokenizer rather than modelled.
- Adapters, HTTP handlers, sandbox, plugins, ingest and its dead-letter queue, the retrieval cache, the agent loop, intent classification and configuration: input and output, library calls, or easy members.
