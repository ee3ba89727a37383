# Football standings backend: TTL cache and read-through service

This project models, in Dafny, the caching core of a Spring backend that proxies a
football data API (countries, leagues, teams, league standings):

- `CustomCacheManager<K, V>`, a generic in-memory cache whose entries carry an absolute
  expiry time. `put` overwrites. `get` expires lazily: an expired entry is removed when
  it is read. `contains` goes through `get`. `clear` empties the cache. `evictExpired`
  sweeps out every expired entry and counts them. `size` counts every stored entry,
  expired or not.
- `FootballService`, which puts that cache in front of the upstream client. A cache hit
  is served without a request. A miss in offline mode is answered with an empty list
  without a request. Otherwise the upstream answer is served, and it is cached with the
  resource's TTL when it is non-empty. Standings are then filtered by team name
  (case-insensitive substring), and the filtered view is never cached.

The filter is not trimmed. `getStandings` uses `isBlank` only to decide whether to
filter, then matches the untrimmed string, so " arse" does not match "Arsenal"
(`Football.FilterByTeamName`).

Files and modules:

| file | module | models |
|---|---|---|
| `wrappers.dfy` | `Wrappers` | `Optional` and nullable references as `Option` |
| `cache.dfy` | `Cache` | `CustomCacheManager` as class `CacheManager` over a `map<K, Entry<V>>`, with the pure functions that specify it (`Lookup`, `AfterGet`, `Unexpired`, `ExpiredKeys`) and lemmas about them |
| `text.dfy` | `Text` | the `String` operations the filter uses: `isBlank`, `toLowerCase`, `contains` |
| `upstream.dfy` | `Upstream` | the DTO records, each reduced to one or two identifying fields, and `FootballApiService` as class `FootballApi`, reduced to its contract |
| `football.dfy` | `Football` | cache keys, the tagged cache value, the read-through policy as the function `ReadThrough`, the standings filter, and `FootballService` as a class |

The wall clock becomes explicit arguments. Each cache operation that reads the clock
(`put`, `get`, `contains`, `evictExpired`) takes `now`. Each service read takes `now`,
the time it reads the cache, and `doneAt`, the time the upstream answer is stored. The source reads the clock again after the fetch returns,
so these can differ. The upstream client answers from maps it holds. A request it has
no answer for yields the empty list, just as a failed request does in the source. The
ghost counter `FootballApi.Calls` counts requests, so "no upstream call" can be stated.

The source keeps one cache of `List<?>` and casts on every hit. The model keeps one
shared cache of a tagged `Payload`. The invariant `WellTyped` says every key is the key
of some resource and holds that resource's element type. It is required of the
cache the service is given, kept by every service method (`ReadThroughWellTyped`), and it is what
makes the casts safe (`LookupFits`).

## Model

| member | source | states |
|---|---|---|
| `Cache.IsExpired` | backend/src/main/java/com/sapient/football/cache/CustomCacheManager.java:119-121 | an entry is expired exactly when the clock is strictly past its expiry time, so an entry whose expiry time equals the clock is still live |
| `Cache.NewEntry` | backend/src/main/java/com/sapient/football/cache/CustomCacheManager.java:28 | the stored entry keeps the value; it is unexpired at the moment of storage exactly when the TTL is non-negative, and expired at time t exactly when more than the TTL has elapsed |
| `Cache.Lookup` | backend/src/main/java/com/sapient/football/cache/CustomCacheManager.java:39-55 | `get` returns a value exactly when the key has an entry whose expiry time the clock has not passed, and then returns that entry's value |
| `Cache.AfterGet` | backend/src/main/java/com/sapient/football/cache/CustomCacheManager.java:47-51 | the map after `get` loses the key exactly when its entry is expired, and every remaining entry is unchanged |
| `Cache.ExpiredKeys` | backend/src/main/java/com/sapient/football/cache/CustomCacheManager.java:82-86 | the keys the sweep removes are exactly the stored keys whose entries are expired |
| `Cache.Unexpired` | backend/src/main/java/com/sapient/football/cache/CustomCacheManager.java:80-92 | after a sweep, a key remains exactly when it was stored and unexpired, and it keeps its entry |
| `Cache.PutThenGet` | backend/src/main/java/com/sapient/football/cache/CustomCacheManager.java:27-31 | a value put at t with a TTL is returned by `get` at every time up to t + TTL and at no later time |
| `Cache.ZeroTtl` | backend/src/main/java/com/sapient/football/cache/CustomCacheManager.java:119-121 | expiry is strict: a TTL of 0 is still served at the instant of the put and is expired one millisecond later |
| `Cache.PutOverwrites` | backend/src/main/java/com/sapient/football/cache/CustomCacheManager.java:29 | `put` replaces the key's entry, adds no second entry for it, leaves every other entry alone, and grows the size only for a new key |
| `Cache.GetMiss` | backend/src/main/java/com/sapient/football/cache/CustomCacheManager.java:40-45 | `get` of a key with no entry returns nothing and leaves the map unchanged |
| `Cache.GetExpired` | backend/src/main/java/com/sapient/football/cache/CustomCacheManager.java:47-51 | `get` of an expired entry returns nothing, removes exactly that key, keeps every other entry, and the size drops by one |
| `Cache.AfterGetInvisible` | backend/src/main/java/com/sapient/football/cache/CustomCacheManager.java:47-51 | the removal `get` makes never changes what any `get` at the same or a later time returns |
| `Cache.SweepInvisible` | backend/src/main/java/com/sapient/football/cache/CustomCacheManager.java:80-92 | the sweep never changes what any `get` at the same or a later time returns, so it is not needed for correctness |
| `Cache.SweepIdempotent` | backend/src/main/java/com/sapient/football/cache/CustomCacheManager.java:80-92 | a second sweep at the same time removes nothing more |
| `Cache.SweepCount` | backend/src/main/java/com/sapient/football/cache/CustomCacheManager.java:80-92 | the number of expired keys is the size before the sweep minus the size after it |
| `Cache.ClearedMisses` | backend/src/main/java/com/sapient/football/cache/CustomCacheManager.java:70-73 | after `clear`, every `get` returns nothing |
| `Cache.CacheManager.constructor` | backend/src/main/java/com/sapient/football/cache/CustomCacheManager.java:18 | a new cache holds no entries |
| `Cache.CacheManager.Put` | backend/src/main/java/com/sapient/football/cache/CustomCacheManager.java:27-31 | the new map is the old one with the key bound to the value and expiry time now + TTL |
| `Cache.CacheManager.Get` | backend/src/main/java/com/sapient/football/cache/CustomCacheManager.java:39-55 | returns `Lookup` of the old map, and the new map is the old one less the key when its entry was expired |
| `Cache.CacheManager.Contains` | backend/src/main/java/com/sapient/football/cache/CustomCacheManager.java:63-65 | true exactly when `get` would return a value, with the same removal of an expired entry |
| `Cache.CacheManager.Clear` | backend/src/main/java/com/sapient/football/cache/CustomCacheManager.java:70-73 | the map is empty afterwards |
| `Cache.CacheManager.EvictExpired` | backend/src/main/java/com/sapient/football/cache/CustomCacheManager.java:80-92 | the loop leaves exactly the unexpired entries, with their values, and returns the number of expired keys, which is the old size minus the new size |
| `Cache.CacheManager.Size` | backend/src/main/java/com/sapient/football/cache/CustomCacheManager.java:99-101 | the number of stored entries, expired ones not yet removed included |
| `Text.IsWhitespace` | backend/src/main/java/com/sapient/football/service/FootballService.java:174 | Java's `Character.isWhitespace`: no ASCII letter is whitespace, while space, tab, newline and carriage return are |
| `Text.IsBlank` | backend/src/main/java/com/sapient/football/service/FootballService.java:174 | an empty string is blank, and a blank string holds no ASCII letter |
| `Text.ToLower` | backend/src/main/java/com/sapient/football/service/FootballService.java:177 | an upper-case ASCII letter maps to its lower-case letter; every other character is unchanged |
| `Text.Lower` | backend/src/main/java/com/sapient/football/service/FootballService.java:177 | lower-casing keeps the length and lower-cases each character in place |
| `Text.LowerIdempotent` | backend/src/main/java/com/sapient/football/service/FootballService.java:177 | lower-casing a lower-cased string changes nothing |
| `Text.LowerKeepsBlank` | backend/src/main/java/com/sapient/football/service/FootballService.java:174-177 | a string is blank exactly when its lower-cased form is blank |
| `Text.Contains` | backend/src/main/java/com/sapient/football/service/FootballService.java:177 | `contains` holds exactly when the needle occurs at some index of the haystack; proved by induction through the recursive calls' contracts |
| `Text.ContainsShift` | backend/src/main/java/com/sapient/football/service/FootballService.java:177 | when the needle is not a prefix of a non-empty haystack, it occurs in the haystack exactly when it occurs in the tail |
| `Text.MissingCharNotContained` | backend/src/main/java/com/sapient/football/service/FootballService.java:177 | a needle with a character the haystack lacks is not contained in it |
| `Upstream.FootballApi.GetCountries` | backend/src/main/java/com/sapient/football/service/FootballApiService.java:38-54 | returns the upstream's current list without failing and counts one request |
| `Upstream.FootballApi.GetLeagues` | backend/src/main/java/com/sapient/football/service/FootballApiService.java:62-79 | returns the upstream's list for the country, or the empty list when it has none, and counts one request |
| `Upstream.FootballApi.GetTeams` | backend/src/main/java/com/sapient/football/service/FootballApiService.java:87-104 | returns the upstream's list for the league, or the empty list, and counts one request |
| `Upstream.FootballApi.GetStandings` | backend/src/main/java/com/sapient/football/service/FootballApiService.java:112-129 | returns the upstream's table for the league, or the empty list, and counts one request |
| `Football.CacheKeyInjective` | backend/src/main/java/com/sapient/football/service/FootballService.java:85 | two resources share a cache key exactly when they are equal, within one kind and across kinds |
| `Football.CacheKey` | backend/src/main/java/com/sapient/football/service/FootballService.java:53 | the keys "countries", "leagues_" + id, "teams_" + id and "standings_" + id each parse back to the resource they were built for |
| `Football.CacheKeyOfParse` | backend/src/main/java/com/sapient/football/service/FootballService.java:117 | every key that parses is rebuilt exactly from the resource it parses to |
| `Football.EmptyList` | backend/src/main/java/com/sapient/football/service/FootballService.java:62-66 | the offline answer is an empty list of the resource's element type |
| `Football.IsEmptyList` | backend/src/main/java/com/sapient/football/service/FootballService.java:70 | an answer is empty exactly when it is the empty list of one of the four element types; only a non-empty answer is cached |
| `Football.DefaultTtls` | backend/src/main/java/com/sapient/football/service/FootballService.java:27-37 | the default TTLs: one day for countries, one hour for leagues and for teams, five minutes for standings |
| `Football.TtlOf` | backend/src/main/java/com/sapient/football/service/FootballService.java:71 | the countries, leagues, teams or standings TTL for each resource kind, the one each read passes to `put` |
| `Football.LookupFits` | backend/src/main/java/com/sapient/football/service/FootballService.java:56-60 | in a well-typed cache, a hit under a resource's key holds that resource's element type, so the cast cannot fail |
| `Football.ReadThrough` | backend/src/main/java/com/sapient/football/service/FootballService.java:52-75 | upstream is asked exactly when the cache misses and offline mode is off, and then its answer is what is served |
| `Football.HitServesCached` | backend/src/main/java/com/sapient/football/service/FootballService.java:56-60 | a hit serves the cached list, makes no request, and leaves the cache unchanged |
| `Football.OfflineMissServesEmpty` | backend/src/main/java/com/sapient/football/service/FootballService.java:62-66 | an offline miss serves the empty list, makes no request, and changes no later answer of the cache |
| `Football.OnlineMissCaches` | backend/src/main/java/com/sapient/football/service/FootballService.java:69-74 | an online miss with a non-empty answer serves it and caches it under the resource's key, expiring TTL after the store, with every other key unchanged |
| `Football.EmptyAnswerNotCached` | backend/src/main/java/com/sapient/football/service/FootballService.java:70 | an empty answer is served but not cached, so the next online read asks upstream again |
| `Football.SecondReadHits` | backend/src/main/java/com/sapient/football/service/FootballService.java:52-75 | after an online miss caches a non-empty answer, any read within the TTL, online or offline, serves it without a request |
| `Football.ReadThroughWellTyped` | backend/src/main/java/com/sapient/football/service/FootballService.java:59 | reads keep the cache well typed and serve a list of the resource's element type |
| `Football.MatchesTeam` | backend/src/main/java/com/sapient/football/service/FootballService.java:176-177 | an entry matches exactly when it has a team name and the lower-cased filter occurs at some index of the lower-cased name |
| `Football.SelectByTeam` | backend/src/main/java/com/sapient/football/service/FootballService.java:175-178 | the result is a subsequence of the standings (order kept) holding every matching entry as often as the input does and no other entry |
| `Football.FilterByTeamName` | backend/src/main/java/com/sapient/football/service/FootballService.java:174-179 | the result is a subsequence of the standings (order kept); with an absent or blank filter it keeps every entry as often as the input, otherwise exactly the matching entries |
| `Football.FilterMeaning` | backend/src/main/java/com/sapient/football/service/FootballService.java:174-179 | an absent or blank filter returns the list unchanged; otherwise exactly the entries whose non-null team name, lower-cased, contains the lower-cased filter, in order, each as often as in the input |
| `Football.FilterIgnoresCase` | backend/src/main/java/com/sapient/football/service/FootballService.java:177 | filtering with a string and with its lower-cased form gives the same result |
| `Football.ArsenalExample` | backend/src/main/java/com/sapient/football/service/FootballService.java:174-179 | "ARSE" keeps only Arsenal out of Arsenal, Chelsea and an unnamed entry; a blank or absent filter keeps all three |
| `Football.ArseMatches` | backend/src/main/java/com/sapient/football/service/FootballService.java:176-177 | "ARSE" matches the team name "Arsenal" and not "Chelsea" |
| `Football.FootballService.constructor` | backend/src/main/java/com/sapient/football/service/FootballService.java:39-44 | the service starts online, with the given client, cache and TTLs |
| `Football.FootballService.GetCountries` | backend/src/main/java/com/sapient/football/service/FootballService.java:52-75 | result, new cache and request count are those `ReadThrough` gives for the key "countries" with the countries TTL |
| `Football.FootballService.GetLeagues` | backend/src/main/java/com/sapient/football/service/FootballService.java:84-107 | the same, for the key "leagues_" + country id and the leagues TTL |
| `Football.FootballService.GetTeams` | backend/src/main/java/com/sapient/football/service/FootballService.java:116-139 | the same, for the key "teams_" + league id and the teams TTL |
| `Football.FootballService.GetStandings` | backend/src/main/java/com/sapient/football/service/FootballService.java:149-182 | the cache and request count follow `ReadThrough` for "standings_" + league id, whatever the filter, so only the unfiltered list is cached; the result is that list after `FilterByTeamName` |
| `Football.FootballService.SetOfflineMode` | backend/src/main/java/com/sapient/football/service/FootballService.java:189-192 | the flag takes the given value; the cache and the client are unchanged |
| `Football.FootballService.IsOfflineMode` | backend/src/main/java/com/sapient/football/service/FootballService.java:199-201 | returns the current flag |
| `Football.FootballService.ClearCache` | backend/src/main/java/com/sapient/football/service/FootballService.java:206-209 | the cache is empty afterwards and the offline flag is unchanged |

`Football.ReadThroughScenario` mirrors the service's unit tests as a client of these
contracts. A first read asks upstream once. A second read within the TTL is served from
the cache. After the cache is cleared in offline mode, reads answer empty lists with no
further request.

## Left out

- Concurrency: `ConcurrentHashMap`, races between `put` and `get`, and the sweep
  iterating over a map that is being modified. Every operation is modelled as one
  sequential step.
- Cache.NewEntry, Cache.CacheManager.Put: do not model the 64-bit wrap-around of
  `now + ttlMillis` on Java `long`. With unbounded integers a huge TTL never wraps to a
  past expiry time, so "unexpired when stored exactly when the TTL is not negative"
  holds here but not in Java for a TTL near `Long.MAX_VALUE`.
- Cache.CacheManager.Get, Cache.CacheManager.Contains: do not model Java `null`.
  `ConcurrentHashMap` throws `NullPointerException` for a null key, and `Optional.of`
  throws for a stored null value. Keys and values here are never null, so `Get` returns
  `Some` in that case, and `Contains`, which calls `get`, returns true.
- Cache.CacheManager.EvictExpired: uses one `now` for the whole sweep. The source reads
  the clock again for each entry it tests, so an entry that expires during the sweep may
  also be removed. The model removes exactly the entries expired at `now`.
- Cache.CacheManager.Size: returns an unbounded natural. The Java `int` result's cap at
  `Integer.MAX_VALUE` is not modelled.
- Cache.CacheManager.EvictExpired: counts with an unbounded natural. Java's `int` counter
  is not modelled.
- The wall clock `System.currentTimeMillis()` is replaced by explicit time arguments.
  Nothing constrains two readings to be ordered, just as the source does not.
- `FootballApiService`'s HTTP requests, JSON decoding and error logging. Only its
  contract is kept: an answer that may be empty and never an exception. A null answer
  is not modelled: `block()` yields null for an empty response body, and the service
  would then throw `NullPointerException` at `isEmpty()`. The model's client always
  returns a list.
- Text.ToLower, Text.Lower: lower-case ASCII letters only, one character at a time.
  Java's `toLowerCase` follows the full Unicode case mapping of the default locale,
  which can change a string's length ('İ' becomes "i" followed by a combining dot).
- Java `null` identifiers: `"leagues_" + null` yields the key `leagues_null`. Identifiers
  here are always strings. A null filter is the `None` of `Option`.
- Logging, metrics, controllers, exception mapping, configuration and the frontend.
- Each DTO keeps one or two identifying fields. Of these, the core reads only
  `StandingDTO.teamName`, which is optional.
