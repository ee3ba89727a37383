/**
 * The read-through service (`FootballService`): it combines the shared TTL cache, the
 * upstream client, an offline flag and one TTL per resource kind.  A cached, unexpired
 * list is served without a request; on a miss in offline mode the empty list is served
 * without a request; otherwise the upstream answer is served and, when non-empty, cached.
 * Standings are filtered by team name after they are resolved, and the filtered view
 * is never cached.
 */
module Football {
  import opened Wrappers
  import opened Cache
  import opened Text
  import opened Upstream

  // ---------------------------------------------------------------------------
  // Resources and cache keys
  // ---------------------------------------------------------------------------

  /** The four requests the service answers, with their identifying parameter. */
  datatype Resource =
    | AllCountries
    | LeaguesOf(countryId: string)
    | TeamsOf(leagueId: string)
    | StandingsOf(leagueId: string)

  const CountriesKey: string := "countries"
  const LeaguesPrefix: string := "leagues_"
  const TeamsPrefix: string := "teams_"
  const StandingsPrefix: string := "standings_"

  /** The key a resource is cached under; it parses back to the resource. */
  function CacheKey(res: Resource): (key: string)
    ensures ParseKey(key) == Some(res)
  {
    match res
    case AllCountries => CountriesKey
    case LeaguesOf(id) =>
      var key := LeaguesPrefix + id;
      assert key[0] == 'l' && LeaguesPrefix <= key && key[|LeaguesPrefix|..] == id;
      key
    case TeamsOf(id) =>
      var key := TeamsPrefix + id;
      assert key[0] == 't' && TeamsPrefix <= key && key[|TeamsPrefix|..] == id;
      key
    case StandingsOf(id) =>
      var key := StandingsPrefix + id;
      assert key[0] == 's' && StandingsPrefix <= key && key[|StandingsPrefix|..] == id;
      key
  }

  /** Recovers the resource a key was built for; `None` for a string no resource uses. */
  function ParseKey(key: string): Option<Resource>
  {
    if key == CountriesKey then Some(AllCountries)
    else if LeaguesPrefix <= key then Some(LeaguesOf(key[|LeaguesPrefix|..]))
    else if TeamsPrefix <= key then Some(TeamsOf(key[|TeamsPrefix|..]))
    else if StandingsPrefix <= key then Some(StandingsOf(key[|StandingsPrefix|..]))
    else None
  }

  /** Every key that parses is the key of the resource it parses to. */
  lemma CacheKeyOfParse(key: string)
    requires ParseKey(key).Some?
    ensures CacheKey(ParseKey(key).value) == key
  {
  }

  /** Distinct resources, of one kind or of two, never share a cache key. */
  lemma CacheKeyInjective(a: Resource, b: Resource)
    ensures CacheKey(a) == CacheKey(b) <==> a == b
  {
    if CacheKey(a) == CacheKey(b) {
      assert Some(a) == ParseKey(CacheKey(a)) == ParseKey(CacheKey(b)) == Some(b);
    }
  }

  // ---------------------------------------------------------------------------
  // Cached values
  // ---------------------------------------------------------------------------

  /** The one cache holds lists of four element types; the tag says which. */
  datatype Payload =
    | CountryList(countries: seq<Country>)
    | LeagueList(leagues: seq<League>)
    | TeamList(teams: seq<Team>)
    | StandingList(standings: seq<Standing>)

  /** The `isEmpty()` test that decides whether an upstream answer is cached. */
  predicate IsEmptyList(p: Payload): (empty: bool)
    ensures empty <==> p in {CountryList([]), LeagueList([]), TeamList([]), StandingList([])}
  {
    match p
    case CountryList(xs) => |xs| == 0
    case LeagueList(xs) => |xs| == 0
    case TeamList(xs) => |xs| == 0
    case StandingList(xs) => |xs| == 0
  }

  /** The payload holds the element type the resource's list has. */
  predicate Fits(res: Resource, p: Payload)
  {
    match res
    case AllCountries => p.CountryList?
    case LeaguesOf(_) => p.LeagueList?
    case TeamsOf(_) => p.TeamList?
    case StandingsOf(_) => p.StandingList?
  }

  /** The empty list the service answers for a resource in offline mode. */
  function EmptyList(res: Resource): (p: Payload)
    ensures Fits(res, p) && IsEmptyList(p)
  {
    match res
    case AllCountries => CountryList([])
    case LeaguesOf(_) => LeagueList([])
    case TeamsOf(_) => TeamList([])
    case StandingsOf(_) => StandingList([])
  }

  type Entries = map<string, Entry<Payload>>

  /** Every entry sits under a resource's key and holds that resource's element type,
      so reading it back as that type cannot fail. */
  predicate WellTyped(m: Entries)
  {
    forall key :: key in m ==> ParseKey(key).Some? && Fits(ParseKey(key).value, m[key].value)
  }

  /** What is read under a resource's key from a well-typed cache has the resource's type. */
  lemma LookupFits(m: Entries, res: Resource, now: int)
    requires WellTyped(m)
    requires Lookup(m, CacheKey(res), now).Some?
    ensures Fits(res, Lookup(m, CacheKey(res), now).value)
  {
  }

  // ---------------------------------------------------------------------------
  // The read-through policy
  // ---------------------------------------------------------------------------

  /** The configured time-to-live of each resource kind, in milliseconds. */
  datatype Ttls = Ttls(countries: int, leagues: int, teams: int, standings: int)

  /** The defaults used when no TTL is configured. */
  function DefaultTtls(): (ttls: Ttls)
    ensures ttls.countries == 24 * 60 * 60 * 1000
    ensures ttls.leagues == ttls.teams == 60 * 60 * 1000
    ensures ttls.standings == 5 * 60 * 1000
  {
    Ttls(86_400_000, 3_600_000, 3_600_000, 300_000)
  }

  /** The TTL a read of `res` passes to the cache. */
  function TtlOf(ttls: Ttls, res: Resource): int
  {
    match res
    case AllCountries => ttls.countries
    case LeaguesOf(_) => ttls.leagues
    case TeamsOf(_) => ttls.teams
    case StandingsOf(_) => ttls.standings
  }

  /** The outcome of one read: the list served, the cache afterwards, and whether the
      upstream client was asked. */
  datatype Served = Served(value: Payload, entries: Entries, fetched: bool)

  /**
   * One read of `res` against the cache `m`.  The cache is read at `now`; `answer` is
   * what the upstream client would return, and `doneAt` the clock when it has returned.
   */
  function ReadThrough(m: Entries, res: Resource, ttl: int, offline: bool,
                       now: int, doneAt: int, answer: Payload): (s: Served)
    ensures s.fetched <==> Lookup(m, CacheKey(res), now).None? && !offline
    ensures s.fetched ==> s.value == answer
  {
    var key := CacheKey(res);
    var afterGet := AfterGet(m, key, now);
    match Lookup(m, key, now)
    case Some(v) => Served(v, afterGet, false)
    case None =>
      if offline then Served(EmptyList(res), afterGet, false)
      else if IsEmptyList(answer) then Served(answer, afterGet, true)
      else Served(answer, afterGet[key := NewEntry(answer, doneAt, ttl)], true)
  }

  /** A hit serves the cached list, makes no request and leaves the cache as it was. */
  lemma HitServesCached(m: Entries, res: Resource, ttl: int, offline: bool,
                        now: int, doneAt: int, answer: Payload, v: Payload)
    requires Lookup(m, CacheKey(res), now) == Some(v)
    ensures var s := ReadThrough(m, res, ttl, offline, now, doneAt, answer);
      s.value == v && !s.fetched && s.entries == m
  {
  }

  /** A miss in offline mode serves the empty list, makes no request, and changes no
      answer the cache gives from now on (it only drops an expired entry). */
  lemma OfflineMissServesEmpty(m: Entries, res: Resource, ttl: int,
                               now: int, doneAt: int, answer: Payload)
    requires Lookup(m, CacheKey(res), now).None?
    ensures var s := ReadThrough(m, res, ttl, true, now, doneAt, answer);
      && s.value == EmptyList(res) && !s.fetched
      && s.entries == AfterGet(m, CacheKey(res), now)
      && forall k, later :: now <= later ==> Lookup(s.entries, k, later) == Lookup(m, k, later)
  {
  }

  /** A miss online with a non-empty answer serves the answer and caches it under the
      resource's key with the resource's TTL; no other key changes. */
  lemma OnlineMissCaches(m: Entries, res: Resource, ttl: int,
                         now: int, doneAt: int, answer: Payload)
    requires Lookup(m, CacheKey(res), now).None?
    requires !IsEmptyList(answer)
    ensures var s := ReadThrough(m, res, ttl, false, now, doneAt, answer);
      && s.value == answer && s.fetched
      && CacheKey(res) in s.entries
      && s.entries[CacheKey(res)] == Entry(answer, doneAt + ttl)
      && (forall k :: k != CacheKey(res) ==> (k in s.entries <==> k in m))
      && (forall k :: k != CacheKey(res) && k in m ==> s.entries[k] == m[k])
  {
  }

  /** An empty answer is served but never cached, so the next online read asks again. */
  lemma EmptyAnswerNotCached(m: Entries, res: Resource, ttl: int,
                             now: int, doneAt: int, answer: Payload,
                             ttl2: int, now2: int, doneAt2: int, answer2: Payload)
    requires Lookup(m, CacheKey(res), now).None?
    requires IsEmptyList(answer)
    ensures var s := ReadThrough(m, res, ttl, false, now, doneAt, answer);
      && s.value == answer && s.fetched
      && CacheKey(res) !in s.entries
      && s.entries == AfterGet(m, CacheKey(res), now)
      && ReadThrough(s.entries, res, ttl2, false, now2, doneAt2, answer2).fetched
  {
  }

  /** After an online miss cached a non-empty answer, a read of the same resource within
      the TTL is a hit: it serves that answer without a request, online or offline. */
  lemma SecondReadHits(m: Entries, res: Resource, ttl: int,
                       now: int, doneAt: int, answer: Payload,
                       offline2: bool, now2: int, doneAt2: int, answer2: Payload)
    requires Lookup(m, CacheKey(res), now).None?
    requires !IsEmptyList(answer)
    requires now2 <= doneAt + ttl
    ensures var s := ReadThrough(m, res, ttl, false, now, doneAt, answer);
      var s2 := ReadThrough(s.entries, res, ttl, offline2, now2, doneAt2, answer2);
      s.fetched && s2.value == answer && !s2.fetched && s2.entries == s.entries
  {
  }

  /** Reads keep the cache well typed and serve a list of the resource's type. */
  lemma ReadThroughWellTyped(m: Entries, res: Resource, ttl: int, offline: bool,
                             now: int, doneAt: int, answer: Payload)
    requires WellTyped(m)
    requires Fits(res, answer)
    ensures var s := ReadThrough(m, res, ttl, offline, now, doneAt, answer);
      WellTyped(s.entries) && Fits(res, s.value)
  {
  }

  // ---------------------------------------------------------------------------
  // The standings filter
  // ---------------------------------------------------------------------------

  /** `s` has a team name, and it contains `filter`, both lower-cased. */
  function MatchesTeam(s: Standing, filter: string): (matches: bool)
    ensures matches <==> s.teamName.Some? && exists i :: OccursAt(Lower(s.teamName.value), Lower(filter), i)
  {
    s.teamName.Some? && Contains(Lower(s.teamName.value), Lower(filter))
  }

  /** `a` is `b` with some elements left out, the rest in their order. */
  ghost predicate IsSubsequence<T>(a: seq<T>, b: seq<T>)
  {
    if a == [] then true
    else if b == [] then false
    else if a[0] == b[0] then IsSubsequence(a[1..], b[1..])
    else IsSubsequence(a, b[1..])
  }

  /** The standings whose team matches `filter`, in their original order. */
  function SelectByTeam(standings: seq<Standing>, filter: string): (r: seq<Standing>)
    ensures IsSubsequence(r, standings)
    ensures forall s :: multiset(r)[s] == if MatchesTeam(s, filter) then multiset(standings)[s] else 0
  {
    if standings == [] then []
    else
      var rest := SelectByTeam(standings[1..], filter);
      assert standings == [standings[0]] + standings[1..];
      if MatchesTeam(standings[0], filter) then [standings[0]] + rest else rest
  }

  /** The view `getStandings` returns: all standings for an absent or blank filter,
      otherwise those whose team matches it. */
  function FilterByTeamName(standings: seq<Standing>, teamName: Option<string>): (r: seq<Standing>)
    ensures IsSubsequence(r, standings)
    ensures forall s :: (multiset(r)[s] ==
                           if teamName.Some? && !IsBlank(teamName.value) && !MatchesTeam(s, teamName.value)
                           then 0 else multiset(standings)[s])
  {
    if teamName.None? || IsBlank(teamName.value) then
      SubsequenceOfItself(standings);
      standings
    else
      SelectByTeam(standings, teamName.value)
  }

  /** Every sequence is a subsequence of itself. */
  lemma {:induction false} SubsequenceOfItself<T>(s: seq<T>)
    ensures IsSubsequence(s, s)
  {
    if s != [] {
      SubsequenceOfItself(s[1..]);
    }
  }

  /** An absent or blank filter returns the list; otherwise exactly the matching entries,
      in order, and an entry without a team name never survives. */
  lemma FilterMeaning(standings: seq<Standing>, teamName: Option<string>)
    ensures teamName.None? || IsBlank(teamName.value) ==> FilterByTeamName(standings, teamName) == standings
    ensures teamName.Some? && !IsBlank(teamName.value) ==>
      var r := FilterByTeamName(standings, teamName);
      && IsSubsequence(r, standings)
      && (forall s :: s in r ==> s.teamName.Some? && MatchesTeam(s, teamName.value))
      && (forall s :: s in standings && MatchesTeam(s, teamName.value) ==> s in r)
      && (forall s :: multiset(r)[s] == if MatchesTeam(s, teamName.value) then multiset(standings)[s] else 0)
  {
    if teamName.Some? && !IsBlank(teamName.value) {
      var r := FilterByTeamName(standings, teamName);
      forall s | s in r ensures MatchesTeam(s, teamName.value) {
        assert multiset(r)[s] > 0;
      }
      forall s | s in standings && MatchesTeam(s, teamName.value) ensures s in r {
        assert multiset(standings)[s] > 0;
      }
    }
  }

  /** The filter ignores the case of its argument. */
  lemma FilterIgnoresCase(standings: seq<Standing>, f: string)
    ensures FilterByTeamName(standings, Some(f)) == FilterByTeamName(standings, Some(Lower(f)))
  {
    LowerKeepsBlank(f);
    LowerIdempotent(f);
    assert forall s :: MatchesTeam(s, f) == MatchesTeam(s, Lower(f));
    SelectSameFilter(standings, f, Lower(f));
  }

  lemma {:induction false} SelectSameFilter(standings: seq<Standing>, f: string, g: string)
    requires forall s :: MatchesTeam(s, f) == MatchesTeam(s, g)
    ensures SelectByTeam(standings, f) == SelectByTeam(standings, g)
  {
    if standings != [] {
      SelectSameFilter(standings[1..], f, g);
    }
  }

  /** Filtering "Arsenal" and "Chelsea" with "ARSE" keeps only Arsenal; a blank filter
      keeps both; an entry without a team name is dropped by any non-blank filter. */
  lemma ArsenalExample()
    ensures var arsenal := Standing("1", Some("Arsenal"));
      var chelsea := Standing("2", Some("Chelsea"));
      var unnamed := Standing("3", None);
      && FilterByTeamName([arsenal, chelsea, unnamed], Some("ARSE")) == [arsenal]
      && FilterByTeamName([arsenal, chelsea, unnamed], Some("  ")) == [arsenal, chelsea, unnamed]
      && FilterByTeamName([arsenal, chelsea, unnamed], None) == [arsenal, chelsea, unnamed]
  {
    var arsenal := Standing("1", Some("Arsenal"));
    var chelsea := Standing("2", Some("Chelsea"));
    var unnamed := Standing("3", None);
    var all := [arsenal, chelsea, unnamed];
    assert IsBlank("  ");
    assert !IsBlank("ARSE") by {
      assert !IsWhitespace("ARSE"[0]);
    }
    ArseMatches();
    assert SelectByTeam([], "ARSE") == [];
    assert [unnamed][1..] == [];
    assert SelectByTeam([unnamed], "ARSE") == [];
    assert [chelsea, unnamed][1..] == [unnamed];
    assert SelectByTeam([chelsea, unnamed], "ARSE") == [];
    assert all[1..] == [chelsea, unnamed];
    assert SelectByTeam(all, "ARSE") == [arsenal];
  }

  /** "ARSE" matches the team "Arsenal" and not the team "Chelsea". */
  lemma ArseMatches()
    ensures MatchesTeam(Standing("1", Some("Arsenal")), "ARSE")
    ensures !MatchesTeam(Standing("2", Some("Chelsea")), "ARSE")
  {
    assert Lower("ARSE") == "arse";
    assert Lower("Arsenal") == "arsenal";
    assert Lower("Chelsea") == "chelsea";
    assert "arse" <= "arsenal";
    MissingCharNotContained("chelsea", "arse", 1);
  }

  // ---------------------------------------------------------------------------
  // The service object
  // ---------------------------------------------------------------------------

  class FootballService
  {
    const api: FootballApi
    const cacheManager: CacheManager<string, Payload>
    const ttls: Ttls
    /** When set, a miss is answered with an empty list instead of a request. */
    var offlineMode: bool

    /** Every cached value can be read back as its resource's type. */
    ghost predicate Valid()
      reads cacheManager
    {
      WellTyped(cacheManager.entries)
    }

    constructor (api: FootballApi, cacheManager: CacheManager<string, Payload>, ttls: Ttls)
      requires WellTyped(cacheManager.entries)
      ensures Valid()
      ensures this.api == api && this.cacheManager == cacheManager && this.ttls == ttls
      ensures !offlineMode
    {
      this.api := api;
      this.cacheManager := cacheManager;
      this.ttls := ttls;
      offlineMode := false;
    }

    method GetCountries(now: int, doneAt: int) returns (r: seq<Country>)
      requires Valid()
      modifies cacheManager, api`Calls
      ensures Valid()
      ensures var s := ReadThrough(old(cacheManager.entries), AllCountries, TtlOf(ttls, AllCountries),
                                   offlineMode, now, doneAt, CountryList(api.countries));
        && s.value == CountryList(r)
        && cacheManager.entries == s.entries
        && api.Calls == old(api.Calls) + if s.fetched then 1 else 0
    {
      ghost var m := cacheManager.entries;
      ReadThroughWellTyped(m, AllCountries, TtlOf(ttls, AllCountries), offlineMode, now, doneAt, CountryList(api.countries));
      var cached := cacheManager.Get(CacheKey(AllCountries), now);
      if cached.Some? {
        LookupFits(m, AllCountries, now);
        return cached.value.countries;
      }
      if offlineMode {
        return [];
      }
      var countries := api.GetCountries();
      if |countries| != 0 {
        cacheManager.Put(CacheKey(AllCountries), CountryList(countries), TtlOf(ttls, AllCountries), doneAt);
      }
      return countries;
    }

    method GetLeagues(countryId: string, now: int, doneAt: int) returns (r: seq<League>)
      requires Valid()
      modifies cacheManager, api`Calls
      ensures Valid()
      ensures var s := ReadThrough(old(cacheManager.entries), LeaguesOf(countryId), TtlOf(ttls, LeaguesOf(countryId)),
                                   offlineMode, now, doneAt, LeagueList(Answer(api.leagues, countryId)));
        && s.value == LeagueList(r)
        && cacheManager.entries == s.entries
        && api.Calls == old(api.Calls) + if s.fetched then 1 else 0
    {
      ghost var m := cacheManager.entries;
      var res := LeaguesOf(countryId);
      ReadThroughWellTyped(m, res, TtlOf(ttls, res), offlineMode, now, doneAt, LeagueList(Answer(api.leagues, countryId)));
      var cached := cacheManager.Get(CacheKey(res), now);
      if cached.Some? {
        LookupFits(m, res, now);
        return cached.value.leagues;
      }
      if offlineMode {
        return [];
      }
      var leagues := api.GetLeagues(countryId);
      if |leagues| != 0 {
        cacheManager.Put(CacheKey(res), LeagueList(leagues), TtlOf(ttls, res), doneAt);
      }
      return leagues;
    }

    method GetTeams(leagueId: string, now: int, doneAt: int) returns (r: seq<Team>)
      requires Valid()
      modifies cacheManager, api`Calls
      ensures Valid()
      ensures var s := ReadThrough(old(cacheManager.entries), TeamsOf(leagueId), TtlOf(ttls, TeamsOf(leagueId)),
                                   offlineMode, now, doneAt, TeamList(Answer(api.teams, leagueId)));
        && s.value == TeamList(r)
        && cacheManager.entries == s.entries
        && api.Calls == old(api.Calls) + if s.fetched then 1 else 0
    {
      ghost var m := cacheManager.entries;
      var res := TeamsOf(leagueId);
      ReadThroughWellTyped(m, res, TtlOf(ttls, res), offlineMode, now, doneAt, TeamList(Answer(api.teams, leagueId)));
      var cached := cacheManager.Get(CacheKey(res), now);
      if cached.Some? {
        LookupFits(m, res, now);
        return cached.value.teams;
      }
      if offlineMode {
        return [];
      }
      var teams := api.GetTeams(leagueId);
      if |teams| != 0 {
        cacheManager.Put(CacheKey(res), TeamList(teams), TtlOf(ttls, res), doneAt);
      }
      return teams;
    }

    /** The league's standings, read through the cache, then filtered by team name;
        only the unfiltered list is ever cached. */
    method GetStandings(leagueId: string, teamName: Option<string>, now: int, doneAt: int)
      returns (r: seq<Standing>)
      requires Valid()
      modifies cacheManager, api`Calls
      ensures Valid()
      ensures var s := ReadThrough(old(cacheManager.entries), StandingsOf(leagueId), TtlOf(ttls, StandingsOf(leagueId)),
                                   offlineMode, now, doneAt, StandingList(Answer(api.standings, leagueId)));
        && s.value.StandingList?
        && r == FilterByTeamName(s.value.standings, teamName)
        && cacheManager.entries == s.entries
        && api.Calls == old(api.Calls) + if s.fetched then 1 else 0
    {
      ghost var m := cacheManager.entries;
      var res := StandingsOf(leagueId);
      ReadThroughWellTyped(m, res, TtlOf(ttls, res), offlineMode, now, doneAt,
                           StandingList(Answer(api.standings, leagueId)));
      var cached := cacheManager.Get(CacheKey(res), now);
      var standings: seq<Standing>;
      if cached.Some? {
        LookupFits(m, res, now);
        standings := cached.value.standings;
      } else {
        if offlineMode {
          return [];
        }
        standings := api.GetStandings(leagueId);
        if |standings| != 0 {
          cacheManager.Put(CacheKey(res), StandingList(standings), TtlOf(ttls, res), doneAt);
        }
      }
      if teamName.Some? && !IsBlank(teamName.value) {
        standings := SelectByTeam(standings, teamName.value);
      }
      return standings;
    }

    method SetOfflineMode(enabled: bool)
      modifies this
      ensures offlineMode == enabled
      ensures unchanged(cacheManager) && unchanged(api)
    {
      offlineMode := enabled;
    }

    method IsOfflineMode() returns (b: bool)
      ensures b == offlineMode
    {
      b := offlineMode;
    }

    /** Empties the shared cache; the offline flag stays as it was. */
    method ClearCache()
      requires Valid()
      modifies cacheManager
      ensures Valid()
      ensures cacheManager.entries == map[]
      ensures offlineMode == old(offlineMode)
    {
      cacheManager.Clear();
    }
  }

  /** A client of the service's contracts: a first read asks upstream and caches,
      a second read within the TTL is served from the cache without a request, and after
      the cache is cleared an offline read answers the empty list without a request. */
  method ReadThroughScenario(england: Country, spain: Country)
  {
    var api := new FootballApi([england, spain], map[], map[], map[]);
    var cache := new CacheManager<string, Payload>();
    var service := new FootballService(api, cache, DefaultTtls());

    var first := service.GetCountries(1_000, 1_050);
    assert first == [england, spain] && api.Calls == 1;

    var second := service.GetCountries(2_000, 2_000);
    assert second == [england, spain] && api.Calls == 1;

    service.SetOfflineMode(true);
    var offline := service.IsOfflineMode();
    assert offline;

    service.ClearCache();
    var third := service.GetCountries(3_000, 3_000);
    assert third == [] && api.Calls == 1;

    var leagues := service.GetLeagues("44", 3_000, 3_000);
    assert leagues == [] && api.Calls == 1;
  }
}
