/** The home page: gathers the 2022-2025 meetings and regular races, lets the user search a
    driver by name or number, pick a year and a race, and open a track card's race results. */
module HomePage {
  import opened Wrappers
  import opened Records
  import opened Seqs
  import opened Text
  import opened SessionOrder
  import opened RecentSessions
  import opened Toggles
  import opened Flags
  import opened HomeData

  const InitiallyExpandedYear: int := 2025

  const NoRaceSessions: string := "No race sessions available."
  const SelectYearAndRace: string := "Please select both year and race."
  const RaceSessionNotFound: string := "Race session not found."
  const YearOutOfRange: string := "Please select a year between 2022 and 2025."
  const RacesErrorPrefix: string := "Error loading races: "

  const BorderGray: string := "border-gray-600"
  const BorderGreen: string := "border-green-500"
  const BorderRed: string := "border-red-500"

  function NoDriverMatching(query: string): string
  {
    "No driver found matching '" + query + "'."
  }

  function NoRaceSessionFor(circuitShortName: string): string
  {
    "No race session found for " + circuitShortName
  }

  function DriverPath(driverNumber: int): string
  {
    "/driver/" + IntToString(driverNumber)
  }

  function RacePath(sessionKey: int): string
  {
    "race/" + IntToString(sessionKey)
  }

  /** The search box's border: gray while it holds only white space, green otherwise; the red
      border is never shown, since a text that is not all white space is never empty. */
  function BorderClassFor(search: string): (r: string)
    ensures r == BorderGray <==> IsNullOrWhiteSpace(search)
    ensures r == BorderGreen <==> !IsNullOrWhiteSpace(search)
    ensures r != BorderRed
  {
    if IsNullOrWhiteSpace(search) then BorderGray
    else if |search| >= 1 then BorderGreen
    else BorderRed
  }

  /** The search looks at every gathered session of type "Race". */
  predicate IsRaceType(s: Session)
  {
    s.sessionType == "Race"
  }

  /** The search's race sessions, latest first. */
  function SearchSessionsOf(sessions: seq<Session>): seq<Session>
  {
    OrderByDateDescending(Filter(sessions, IsRaceType))
  }

  /** The first gathered session of the meeting `meetingKey` whose type is "Race". */
  function RaceSessionOf(sessions: seq<Session>, meetingKey: int): (r: Option<Session>)
    ensures r.Some? ==> exists i :: 0 <= i < |sessions| && sessions[i] == r.value
                          && sessions[i].meetingKey == meetingKey && sessions[i].sessionType == "Race"
                          && forall j :: 0 <= j < i ==> !(sessions[j].meetingKey == meetingKey && sessions[j].sessionType == "Race")
    ensures r.None? <==> forall i :: 0 <= i < |sessions| ==> !(sessions[i].meetingKey == meetingKey && sessions[i].sessionType == "Race")
  {
    FindFirst(sessions, (s: Session) => s.meetingKey == meetingKey && s.sessionType == "Race")
  }

  /** The loop of `LoadAllData`: year after year from 2022 to 2025, the year's meetings and
      its regular races are appended. */
  method GatherYears(fetchMeetings: int -> seq<Meeting>, fetchSessions: int -> seq<Session>)
    returns (allMeetings: seq<Meeting>, allSessions: seq<Session>)
    ensures allMeetings == MeetingsUpTo(fetchMeetings, LastYear + 1)
    ensures allSessions == RegularRacesUpTo(fetchSessions, LastYear + 1)
  {
    allMeetings, allSessions := [], [];
    var year := FirstYear;
    while year <= LastYear
      invariant FirstYear <= year <= LastYear + 1
      invariant allMeetings == MeetingsUpTo(fetchMeetings, year)
      invariant allSessions == RegularRacesUpTo(fetchSessions, year)
    {
      var meetings := fetchMeetings(year);
      var sessions := fetchSessions(year);
      var regularRaces := Filter(sessions, IsRegularRace);
      allMeetings := allMeetings + meetings;
      allSessions := allSessions + regularRaces;
      year := year + 1;
    }
  }

  /** A session named with "sprint" in any letter case is never a regular race. */
  lemma SprintSessionsAreDropped(s: Session)
    requires s.sessionName.Some? && ContainsIgnoreCase(s.sessionName.value, "sprint")
    ensures !IsRegularRace(s)
  {
    assert Fold("sprint") == Fold("Sprint");
  }

  class Home {
    var tracksByYear: map<int, seq<TrackInfo>>
    var expandedYears: set<int>
    var errorMessage: Option<string>
    var allSessions: seq<Session>
    var driverSearch: string
    var searchError: Option<string>
    var selectedDriver: Option<Driver>
    var selectedYear: int
    var selectedRaceKey: int
    var races: seq<Meeting>
    var raceError: Option<string>

    /** A page that has loaded nothing yet, with the latest season expanded. */
    constructor ()
      ensures expandedYears == {InitiallyExpandedYear}
      ensures tracksByYear == map[] && allSessions == [] && races == []
      ensures driverSearch == "" && selectedYear == 0 && selectedRaceKey == 0
      ensures errorMessage.None? && searchError.None? && raceError.None? && selectedDriver.None?
    {
      tracksByYear := map[];
      expandedYears := {InitiallyExpandedYear};
      errorMessage := None;
      allSessions := [];
      driverSearch := "";
      searchError := None;
      selectedDriver := None;
      selectedYear := 0;
      selectedRaceKey := 0;
      races := [];
      raceError := None;
    }

    /** Fetches the meetings and sessions of 2022 to 2025, keeps the regular races, and groups
        the meetings by year into track cards. */
    method LoadAllData(fetchMeetings: int -> seq<Meeting>, fetchSessions: int -> seq<Session>)
      modifies this`errorMessage, this`allSessions, this`tracksByYear
      ensures errorMessage.None?
      ensures allSessions == RegularRacesUpTo(fetchSessions, LastYear + 1)
      ensures tracksByYear == GroupByYear(MeetingsUpTo(fetchMeetings, LastYear + 1), GetCountryFlagUrl)
    {
      errorMessage := None;
      var allMeetings, regularRaces := GatherYears(fetchMeetings, fetchSessions);
      allSessions := regularRaces;
      tracksByYear := GroupByYear(allMeetings, GetCountryFlagUrl);
    }

    /** Looks the search text up in the five latest race sessions' driver lists and, on a hit,
        returns the driver's profile address; otherwise sets the matching error. */
    method SearchDriver(fetchDrivers: int -> Result<seq<Driver>, string>) returns (navigateTo: Option<string>)
      modifies this`searchError, this`selectedDriver
      ensures selectedDriver.None?
      ensures searchError.Some? <==> navigateTo.None?
      ensures var raceSessions := SearchSessionsOf(allSessions);
        && (|raceSessions| == 0 ==> searchError == Some(NoRaceSessions))
        && (|raceSessions| > 0 && navigateTo.None? ==>
              && searchError == Some(NoDriverMatching(driverSearch))
              && forall j :: 0 <= j < |raceSessions| && j < RecentLimit ==> DriverIn(raceSessions[j], fetchDrivers, BySearch(driverSearch)).None?)
        && (navigateTo.Some? ==>
              exists k :: 0 <= k < |raceSessions| && k < RecentLimit
                && DriverIn(raceSessions[k], fetchDrivers, BySearch(driverSearch)).Some?
                && MatchesSearch(DriverIn(raceSessions[k], fetchDrivers, BySearch(driverSearch)).value, driverSearch)
                && navigateTo == Some(DriverPath(DriverIn(raceSessions[k], fetchDrivers, BySearch(driverSearch)).value.driverNumber))
                && forall j :: 0 <= j < k ==> DriverIn(raceSessions[j], fetchDrivers, BySearch(driverSearch)).None?)
    {
      searchError := None;
      selectedDriver := None;
      var raceSessions := SearchSessionsOf(allSessions);
      if |raceSessions| == 0 {
        searchError := Some(NoRaceSessions);
        return None;
      }
      var foundDriver, sessionWithDriver := ScanRecentSessions(raceSessions, fetchDrivers, BySearch(driverSearch));
      ScanOutcomeSpec(raceSessions, fetchDrivers, BySearch(driverSearch));
      if foundDriver.None? {
        searchError := Some(NoDriverMatching(driverSearch));
        return None;
      }
      navigateTo := Some(DriverPath(foundDriver.value.driverNumber));
    }

    /** The search box's border for the text typed so far. */
    function GetSearchBorderClass(): string
      reads this
    {
      BorderClassFor(driverSearch)
    }

    /** A year being chosen: nothing happens for no year; otherwise the race choice is reset
        and the year's meetings become the race list, or the matching error is set. */
    method OnYearChanged(fetchMeetings: int -> Result<seq<Meeting>, string>)
      modifies this`raceError, this`selectedRaceKey, this`races
      ensures selectedYear == 0 ==> unchanged(this`raceError, this`selectedRaceKey, this`races)
      ensures selectedYear != 0 ==> selectedRaceKey == 0
      ensures selectedYear != 0 && (selectedYear < FirstYear || selectedYear > LastYear) ==>
        raceError == Some(YearOutOfRange) && races == []
      ensures FirstYear <= selectedYear <= LastYear ==>
        match fetchMeetings(selectedYear)
        case Failure(msg) => raceError == Some(RacesErrorPrefix + msg) && races == []
        case Success(meetings) => raceError.None? && races == meetings
    {
      if selectedYear == 0 {
        return;
      }
      raceError := None;
      selectedRaceKey := 0;
      races := [];
      if selectedYear < FirstYear || selectedYear > LastYear {
        raceError := Some(YearOutOfRange);
        return;
      }
      var fetched := fetchMeetings(selectedYear);
      match fetched {
        case Failure(msg) =>
          raceError := Some(RacesErrorPrefix + msg);
        case Success(meetings) =>
          races := meetings;
      }
    }

    /** Opens the chosen race: both a year and a race must be chosen, and the race's meeting
        must have a gathered race session. */
    method LoadRace() returns (navigateTo: Option<string>)
      modifies this`raceError
      ensures selectedYear == 0 || selectedRaceKey == 0 ==> raceError == Some(SelectYearAndRace) && navigateTo.None?
      ensures selectedYear != 0 && selectedRaceKey != 0 ==>
        match RaceSessionOf(allSessions, selectedRaceKey)
        case Some(s) => navigateTo == Some(RacePath(s.sessionKey)) && raceError == old(raceError)
        case None => navigateTo.None? && raceError == Some(RaceSessionNotFound)
    {
      if selectedYear == 0 || selectedRaceKey == 0 {
        raceError := Some(SelectYearAndRace);
        return None;
      }
      var raceSession := RaceSessionOf(allSessions, selectedRaceKey);
      if raceSession.Some? {
        navigateTo := Some(RacePath(raceSession.value.sessionKey));
      } else {
        raceError := Some(RaceSessionNotFound);
        navigateTo := None;
      }
    }

    /** Expands a collapsed year or collapses an expanded one. */
    method ToggleYear(year: int)
      modifies this`expandedYears
      ensures expandedYears == Toggle(old(expandedYears), year)
    {
      if year in expandedYears {
        expandedYears := expandedYears - {year};
      } else {
        expandedYears := expandedYears + {year};
      }
    }

    /** Opens a track card's race results when its meeting has a gathered race session;
        otherwise sets the page's error. */
    method ViewRaceResults(track: TrackInfo) returns (navigateTo: Option<string>)
      modifies this`errorMessage
      ensures match RaceSessionOf(allSessions, track.meetingKey)
        case Some(s) => navigateTo == Some(RacePath(s.sessionKey)) && errorMessage == old(errorMessage)
        case None => navigateTo.None? && errorMessage == Some(NoRaceSessionFor(track.circuitShortName))
    {
      var raceSession := RaceSessionOf(allSessions, track.meetingKey);
      if raceSession.Some? {
        navigateTo := Some(RacePath(raceSession.value.sessionKey));
      } else {
        errorMessage := Some(NoRaceSessionFor(track.circuitShortName));
        navigateTo := None;
      }
    }
  }
}
