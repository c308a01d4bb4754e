/** The driver profile page: finds the driver in the latest race sessions, then folds every
    race session's position records into career and per-season statistics and race lists. */
module DriverProfilePage {
  import opened Wrappers
  import opened Records
  import opened Seqs
  import opened SessionOrder
  import opened Stats
  import opened Aggregation
  import opened RecentSessions
  import opened Toggles

  const DriverNotFound: string := "Driver not found in any recent race sessions."
  const LoadErrorPrefix: string := "Error loading driver data: "

  /** The profile page takes the sessions named exactly "Race". */
  predicate IsNamedRace(s: Session)
  {
    s.sessionName == Some("Race")
  }

  /** The race sessions, latest first (equally dated ones keep their order). */
  function RaceSessionsOf(sessions: seq<Session>): seq<Session>
  {
    OrderByDateDescending(Filter(sessions, IsNamedRace))
  }

  /** The race sessions are exactly the sessions named "Race", each as often as it occurs,
      and are sorted latest first. */
  lemma RaceSessionsAreTheRacesLatestFirst(sessions: seq<Session>)
    ensures SortedByDateDesc(RaceSessionsOf(sessions))
    ensures forall s :: multiset(RaceSessionsOf(sessions))[s] == if IsNamedRace(s) then multiset(sessions)[s] else 0
  {
    FilterMultiset(sessions, IsNamedRace);
  }

  class DriverProfile {
    const driverNumber: int
    var driver: Option<Driver>
    var allStats: DriverStats
    var seasonStats: map<int, DriverStats>
    var seasonRaces: map<int, seq<RaceResult>>
    var expandedSeasons: set<int>
    var errorMessage: Option<string>

    /** The career record and the season records are distinct objects, one per season,
        and every season has a race list. */
    ghost predicate Valid()
      reads this
    {
      && (forall y :: y in seasonStats ==> seasonStats[y] != allStats)
      && (forall y, z :: y in seasonStats && z in seasonStats && y != z ==> seasonStats[y] != seasonStats[z])
      && (forall y :: y in seasonStats <==> y in seasonRaces)
    }

    /** The page shows the totals `t`: the career record holds `t.career`, there is a season
        record for exactly the seasons of `t`, each holding its season's values, and the race
        lists are `t.races`. */
    ghost predicate Shows(t: Totals)
      reads this, allStats, seasonStats.Values
    {
      allStats.Value() == t.career && SeasonsShow(t.seasons) && seasonRaces == t.races
    }

    /** There is a season record for exactly the seasons of `seasons`, each holding its values. */
    ghost predicate SeasonsShow(seasons: map<int, StatsValue>)
      reads this, seasonStats.Values
    {
      && (forall y :: y in seasonStats <==> y in seasons)
      && forall y :: y in seasonStats ==> seasonStats[y].Value() == seasons[y]
    }

    constructor (number: int)
      ensures driverNumber == number && driver.None? && errorMessage.None?
      ensures expandedSeasons == {}
      ensures Valid() && Shows(NoTotals())
    {
      driverNumber := number;
      driver := None;
      allStats := new DriverStats();
      seasonStats := map[];
      seasonRaces := map[];
      expandedSeasons := {};
      errorMessage := None;
    }

    /** Finds the driver in the five latest race sessions and, when found, loads the statistics;
        a thrown session fetch ends with the error text, a driver missing from those sessions with
        the not-found text. */
    method LoadDriverData(sessionsFetch: Result<seq<Session>, string>,
                          fetchDrivers: int -> Result<seq<Driver>, string>,
                          fetchPositions: int -> Result<seq<PositionData>, string>)
      modifies this
      ensures expandedSeasons == old(expandedSeasons)
      ensures sessionsFetch.Failure? ==>
        errorMessage == Some(LoadErrorPrefix + sessionsFetch.error) && unchanged(this`driver, this`allStats, this`seasonStats, this`seasonRaces)
      ensures sessionsFetch.Success? ==>
        var raceSessions := RaceSessionsOf(sessionsFetch.value);
        && (errorMessage.Some? <==>
              forall j :: 0 <= j < |raceSessions| && j < RecentLimit ==> DriverIn(raceSessions[j], fetchDrivers, ByNumber(driverNumber)).None?)
        && (errorMessage.Some? ==> errorMessage == Some(DriverNotFound) && unchanged(this`driver, this`allStats, this`seasonStats, this`seasonRaces))
        && (errorMessage.None? ==>
              && driver.Some? && driver.value.driverNumber == driverNumber
              && (var hit := FirstHit(Take(raceSessions, RecentLimit), fetchDrivers, ByNumber(driverNumber));
                  hit.Some? && driver == Some(hit.value.0))
              && Valid() && Shows(Accumulate(raceSessions, fetchPositions, driverNumber)))
    {
      errorMessage := None;
      if sessionsFetch.Failure? {
        errorMessage := Some(LoadErrorPrefix + sessionsFetch.error);
        return;
      }
      var raceSessions := RaceSessionsOf(sessionsFetch.value);
      var foundDriver, driverSession := ScanRecentSessions(raceSessions, fetchDrivers, ByNumber(driverNumber));
      ScanOutcomeSpec(raceSessions, fetchDrivers, ByNumber(driverNumber));
      if foundDriver.None? || driverSession.None? {
        errorMessage := Some(DriverNotFound);
        return;
      }
      driver := foundDriver;
      LoadDriverStatsAndRaces(raceSessions, fetchPositions);
    }

    /** The statistics loop: every race session whose positions can be fetched and include the
        driver adds one race to its season (created on first use) and to the career. */
    method LoadDriverStatsAndRaces(raceSessions: seq<Session>, fetchPositions: int -> Result<seq<PositionData>, string>)
      modifies this
      ensures Valid()
      ensures Shows(Accumulate(raceSessions, fetchPositions, driverNumber))
      ensures fresh(allStats) && forall o :: o in seasonStats.Values ==> fresh(o)
      ensures driver == old(driver) && errorMessage == old(errorMessage) && expandedSeasons == old(expandedSeasons)
    {
      seasonStats := map[];
      seasonRaces := map[];
      allStats := new DriverStats();
      var index := 0;
      ghost var totals := NoTotals();
      while index < |raceSessions|
        invariant 0 <= index <= |raceSessions|
        invariant totals == Accumulate(raceSessions[..index], fetchPositions, driverNumber)
        invariant Valid() && Shows(totals)
        invariant fresh(allStats) && forall o :: o in seasonStats.Values ==> fresh(o)
        invariant driver == old(driver) && errorMessage == old(errorMessage) && expandedSeasons == old(expandedSeasons)
      {
        var session := raceSessions[index];
        CountSession(session, fetchPositions, totals);
        AccumulateNext(raceSessions, index, fetchPositions, driverNumber);
        totals := Step(totals, session.year, RaceOutcome(session, fetchPositions(session.sessionKey), driverNumber));
        index := index + 1;
      }
      assert raceSessions[..index] == raceSessions;
    }

    /** One turn of the statistics loop: fetch the session's positions and, when that succeeds
        and the driver has records, build the race's result and count it. */
    method CountSession(session: Session, fetchPositions: int -> Result<seq<PositionData>, string>, ghost t: Totals)
      requires Valid() && Shows(t)
      modifies this, allStats, seasonStats.Values
      ensures Valid() && Shows(Step(t, session.year, RaceOutcome(session, fetchPositions(session.sessionKey), driverNumber)))
      ensures allStats == old(allStats)
      ensures forall o :: o in seasonStats.Values ==> o in old(seasonStats.Values) || fresh(o)
      ensures driver == old(driver) && errorMessage == old(errorMessage) && expandedSeasons == old(expandedSeasons)
    {
      var fetched := fetchPositions(session.sessionKey);
      ghost var outcome := RaceOutcome(session, fetched, driverNumber);
      if fetched.Success? {
        var driverPositions := ForDriver(fetched.value, driverNumber);
        if |driverPositions| > 0 {
          var startPosition := driverPositions[EarliestIndex(driverPositions)].position;
          var finalPosition := driverPositions[LatestIndex(driverPositions)].position;
          var points := GetRacePoints(finalPosition);
          var result := RaceResult(session.countryName + " Grand Prix", session.dateStart,
                                   startPosition, finalPosition, startPosition - finalPosition, points);
          CountRace(session.year, result, t);
          assert outcome == Some(result);
        }
      }
    }

    /** The body of the loop for one counted race: the season's record is created when the
        season is new, then the season's record and the career record each take the race,
        and the race joins the season's list. */
    method CountRace(year: int, result: RaceResult, ghost t: Totals)
      requires Valid() && Shows(t)
      requires result.points == GetRacePoints(result.finishPosition)
      modifies this, allStats, seasonStats.Values
      ensures Valid() && Shows(Step(t, year, Some(result)))
      ensures allStats == old(allStats)
      ensures forall o :: o in seasonStats.Values ==> o in old(seasonStats.Values) || fresh(o)
      ensures driver == old(driver) && errorMessage == old(errorMessage) && expandedSeasons == old(expandedSeasons)
    {
      ghost var withSeason := t;
      if year !in seasonStats {
        OpenSeason(year, t);
        withSeason := Totals(t.career, t.seasons[year := Initial()], t.races[year := []]);
        StepAfterOpeningSeason(t, year, result);
      }
      CountInSeason(year, result, withSeason);
    }

    /** A season's first counted race creates its record and its empty race list. */
    method OpenSeason(year: int, ghost t: Totals)
      requires Valid() && Shows(t) && year !in seasonStats
      modifies this
      ensures Valid() && Shows(Totals(t.career, t.seasons[year := Initial()], t.races[year := []]))
      ensures allStats == old(allStats) && year in seasonStats
      ensures forall o :: o in seasonStats.Values ==> o in old(seasonStats.Values) || fresh(o)
      ensures driver == old(driver) && errorMessage == old(errorMessage) && expandedSeasons == old(expandedSeasons)
    {
      var created := new DriverStats();
      seasonStats := seasonStats[year := created];
      seasonRaces := seasonRaces[year := []];
    }

    /** A race of a season that has a record: the season's record and the career record
        each take the race, and the race joins the season's list. */
    method CountInSeason(year: int, result: RaceResult, ghost t: Totals)
      requires Valid() && Shows(t) && year in seasonStats
      requires result.points == GetRacePoints(result.finishPosition)
      modifies this`seasonRaces, allStats, seasonStats.Values
      ensures Valid() && Shows(Step(t, year, Some(result)))
      ensures seasonStats == old(seasonStats)
    {
      var stats := seasonStats[year];
      stats.Count(result.finishPosition, result.points);
      allStats.Count(result.finishPosition, result.points);
      seasonRaces := seasonRaces[year := seasonRaces[year] + [result]];
      ghost var seasons := Step(t, year, Some(result)).seasons;
      forall y | y in seasonStats
        ensures seasonStats[y].Value() == seasons[y]
      {
        if y != year {
          assert seasonStats[y] != stats;
        }
      }
    }

    /** Expands a collapsed season or collapses an expanded one. */
    method ToggleSeason(year: int)
      modifies this`expandedSeasons
      ensures expandedSeasons == Toggle(old(expandedSeasons), year)
    {
      if year in expandedSeasons {
        expandedSeasons := expandedSeasons - {year};
      } else {
        expandedSeasons := expandedSeasons + {year};
      }
    }
  }
}
