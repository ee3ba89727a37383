/**
 * The records the football API returns and the client that fetches them
 * (`FootballApiService`).  The client is represented only by its contract: each call
 * answers with the list the remote service currently holds for the request, an empty
 * list when it holds nothing or the request fails, and never raises.  A ghost counter
 * records how many requests were made.
 */
module Upstream {
  import opened Wrappers

  datatype Country = Country(countryId: string, countryName: string)

  datatype League = League(leagueId: string, leagueName: string)

  datatype Team = Team(teamKey: string, teamName: string)

  /** One row of a league table; the team name may be missing from the response. */
  datatype Standing = Standing(teamId: string, teamName: Option<string>)

  /** The answer held under `id`, or the empty list a failed or unknown request yields. */
  function Answer<T>(answers: map<string, seq<T>>, id: string): (r: seq<T>)
    ensures id !in answers ==> r == []
    ensures id in answers ==> r == answers[id]
  {
    if id in answers then answers[id] else []
  }

  class FootballApi
  {
    /** What the remote service currently answers to each request. */
    var countries: seq<Country>
    var leagues: map<string, seq<League>>
    var teams: map<string, seq<Team>>
    var standings: map<string, seq<Standing>>

    /** The number of requests sent upstream so far. */
    ghost var Calls: nat

    constructor (countries: seq<Country>, leagues: map<string, seq<League>>,
                 teams: map<string, seq<Team>>, standings: map<string, seq<Standing>>)
      ensures this.countries == countries && this.leagues == leagues
      ensures this.teams == teams && this.standings == standings
      ensures Calls == 0
    {
      this.countries := countries;
      this.leagues := leagues;
      this.teams := teams;
      this.standings := standings;
      Calls := 0;
    }

    method GetCountries() returns (r: seq<Country>)
      modifies this`Calls
      ensures r == countries
      ensures Calls == old(Calls) + 1
    {
      r := countries;
      Calls := Calls + 1;
    }

    method GetLeagues(countryId: string) returns (r: seq<League>)
      modifies this`Calls
      ensures r == Answer(leagues, countryId)
      ensures Calls == old(Calls) + 1
    {
      r := Answer(leagues, countryId);
      Calls := Calls + 1;
    }

    method GetTeams(leagueId: string) returns (r: seq<Team>)
      modifies this`Calls
      ensures r == Answer(teams, leagueId)
      ensures Calls == old(Calls) + 1
    {
      r := Answer(teams, leagueId);
      Calls := Calls + 1;
    }

    method GetStandings(leagueId: string) returns (r: seq<Standing>)
      modifies this`Calls
      ensures r == Answer(standings, leagueId)
      ensures Calls == old(Calls) + 1
    {
      r := Answer(standings, leagueId);
      Calls := Calls + 1;
    }
  }
}
