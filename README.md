# F1 race analytics dashboard — a verified model of its two pages

The dashboard reads Formula 1 data from the OpenF1 API and shows two pages. This project models
their logic in Dafny and proves what that logic promises.

- **Home page** (`Pages/Home.razor.cs`):
  - It gathers the meetings and the regular (non-sprint) race sessions of 2022 to 2025.
  - It groups the meetings by year into track cards, each with a flag picture address.
  - It searches a driver by name, acronym or car number in the five latest race sessions.
  - It lets the user pick a year and a race, and it opens race results.
  - It expands and collapses years.
- **Driver profile page** (`Pages/DriverProfile.razor.cs`):
  - It finds the driver in the five latest sessions named "Race".
  - It then folds the driver's position records of every race session into statistics (`Models/DriverStats.cs`), one record per season and one for the career, and into a race list per season.
  - It expands and collapses seasons.

How the model is built:
- The fetches of the OpenF1 service are parameters of the operations.
- A fetch that can throw is a function to `Result`, where `Failure(message)` stands for the exception and its message.
- The home page's year-by-year fetches (meetings, sessions) never throw in the cases modelled, so they are plain functions.
- Navigation is the address the operation returns (`Some(path)`). `None` means the page stays.
- Dates are integers; only their order matters.

Modules:

- `Wrappers` has `Option` and `Result`. `Seqs` has the LINQ operators that the pages use: `Where`, `FirstOrDefault` and `Take`. `Maps` has sums over a dictionary in key order.
- `Text`:
  - `Contains(…, OrdinalIgnoreCase)`.
  - `string.IsNullOrWhiteSpace`.
  - The decimal form of an `int`, proved injective through its parse.
- `Records` holds the API records and the records the pages build. `SessionOrder` is `OrderByDescending(DateStart)`: a stable sort, latest first.
- `RecentSessions` is the five-latest-sessions driver scan, which both pages share. `Toggles` is the `HashSet` add-or-remove that both pages share.
- `Stats` is the `DriverStats` class. `Aggregation` is the specification of the statistics loop, with the properties proved about it. `DriverProfilePage` is the profile page class.
- `Flags` is the flag table and its lookup. `HomeData` holds the home page's gathering and grouping. `HomePage` is the home page class.

The statistics loop is an imperative method on the page object. Each season record is a separate `DriverStats` object. The loop is proved to leave the page showing `Accumulate(raceSessions, …)`, the fold of the sessions in order. `Aggregation` proves the following about that fold:
- Each season's record and the career record summarize exactly the races that count. The counts, podiums and points are the sums over those races. Best and worst are their minimum and maximum, with the 999 and 0 sentinels.
- The career totals are the sums over the seasons.
- Every listed race is consistent.
- A skipped session changes nothing.

The search box's red border (`Pages/Home.razor.cs:154`) can never be shown. A text that is not all white space is never empty, so the green border is always chosen first. `HomePage.BorderClassFor` proves this.

## Model

| member | source | states |
|---|---|---|
| Aggregation.GetRacePoints | Pages/DriverProfile.razor.cs:188-203 | points lie in 0..25 and are positive exactly for positions 1 to 10 |
| Aggregation.PointsFollowTable | Pages/DriverProfile.razor.cs:190-202 | positions 1 to 10 earn 25, 18, 15, 12, 10, 8, 6, 4, 2, 1 and every other position 0 |
| Aggregation.PointsNonIncreasing | Pages/DriverProfile.razor.cs:190-202 | a better finishing position never earns fewer points |
| Aggregation.EarliestIndex | Pages/DriverProfile.razor.cs:111 | the start record is the earliest by date and the first among equally early ones (stable `OrderBy(...).First()`) |
| Aggregation.LatestIndex | Pages/DriverProfile.razor.cs:112 | the finish record is the latest by date and the last among equally late ones (stable `OrderBy(...).Last()`) |
| Aggregation.RaceOutcomeSpec | Pages/DriverProfile.razor.cs:106-113 | a session counts iff its positions were fetched and contain a record of the driver; then start and finish are the earliest and latest records, the position change is start minus finish, and the points follow the finish |
| Aggregation.FirstRaceReplacesSentinels | Pages/DriverProfile.razor.cs:137-145 | the first real finish replaces both sentinels 999 and 0 |
| Aggregation.AccumulateNext | Pages/DriverProfile.razor.cs:97-167 | the loop's totals after one more session are one `Step` from the previous totals |
| Aggregation.AccumulateSummarizes | Pages/DriverProfile.razor.cs:86-167 | after the loop the career record summarizes every counted race, each season's record and race list summarize that season's counted races, and a season exists iff one of its races counted |
| Aggregation.StepKeepsTotals | Pages/DriverProfile.razor.cs:116-159 | counting one race keeps the totals in step with the counted list |
| Aggregation.RecordSummarizes | Pages/DriverProfile.razor.cs:123-148 | adding one race updates count, podiums, best, worst and points as the statistics of the longer race list |
| Aggregation.SeasonRaceCountsMatchLists | Pages/DriverProfile.razor.cs:116-159 | each season's race list is as long as its TotalRaces |
| Aggregation.SummaryBounds | Models/DriverStats.cs:5-10 | a record with no races is fresh; with at least one race, whatever its finishes, best <= worst; with finishes in 1..998, best and worst are attained finishes |
| Aggregation.BestAndWorstPositions | Pages/DriverProfile.razor.cs:137-145 | best and worst are the minimum and maximum finish (or the sentinels while nothing counted), for the career and every season; once a race counted, best <= worst for the career and for every season |
| Aggregation.SkippedSessionChangesNothing | Pages/DriverProfile.razor.cs:103-109 | a session that does not count can be removed from the loop without changing any total |
| Aggregation.CountedSessionAddsOneRace | Pages/DriverProfile.razor.cs:116-159 | a counted session adds one race to its season (created when new) and to the career, and leaves every other season unchanged |
| Aggregation.RaceResultsAreConsistent | Pages/DriverProfile.razor.cs:150-159 | every listed race has PositionChange = StartPosition - FinishPosition and the points of its finish |
| Aggregation.StepKeepsSums | Pages/DriverProfile.razor.cs:123-148 | counting one race keeps the career counters equal to the sums over the seasons |
| Aggregation.CareerIsSumOfSeasons | Pages/DriverProfile.razor.cs:123-148 | after the loop the career's race count, podiums and points are the sums of the seasons' values, each season taken once |
| Stats.InitialBestAboveWorst | Models/DriverStats.cs:5-10 | a fresh record has no races, podiums or points, and its best position (999) lies above its worst (0) |
| Stats.DriverStats.constructor | Models/DriverStats.cs:5-10 | a new record has BestPosition 999, WorstPosition 0 and zero counters |
| Stats.DriverStats.Count | Pages/DriverProfile.razor.cs:123-148 | one counted race moves the record's fields as `AddRace` says |
| SessionOrder.OrderByDateDescending | Pages/DriverProfile.razor.cs:40 | the ordered sessions are sorted latest first and are a permutation of the input |
| SessionOrder.OrderByDateDescendingIsStable | Pages/DriverProfile.razor.cs:40 | sessions with the same date keep their input order |
| DriverProfilePage.RaceSessionsAreTheRacesLatestFirst | Pages/DriverProfile.razor.cs:40 | the race sessions are exactly the sessions named "Race", each as often as it occurs, latest first |
| DriverProfilePage.DriverProfile.constructor | Pages/DriverProfile.razor.cs:15-25 | a new page has no driver, no error, no expanded season and shows empty statistics |
| DriverProfilePage.DriverProfile.LoadDriverData | Pages/DriverProfile.razor.cs:32-84 | a thrown session fetch gives "Error loading driver data: " and the message; a driver missing from the five latest race sessions gives "Driver not found in any recent race sessions."; otherwise the kept driver is the first driver with that number in the first of those sessions that lists one, and the page shows the statistics of all race sessions |
| DriverProfilePage.DriverProfile.LoadDriverStatsAndRaces | Pages/DriverProfile.razor.cs:86-167 | the page shows exactly `Accumulate` of the sessions: career record, one fresh record per season, race lists |
| DriverProfilePage.DriverProfile.CountSession | Pages/DriverProfile.razor.cs:97-165 | one turn of the loop moves the page from showing `t` to showing `Step(t, …)` |
| DriverProfilePage.DriverProfile.CountRace | Pages/DriverProfile.razor.cs:116-159 | one counted race moves the page from showing `t` to showing `Step(t, year, race)` |
| DriverProfilePage.DriverProfile.OpenSeason | Pages/DriverProfile.razor.cs:116-121 | a new season gets a fresh record and an empty race list |
| DriverProfilePage.DriverProfile.CountInSeason | Pages/DriverProfile.razor.cs:123-159 | the season's record, the career record and the season's list each take the race |
| DriverProfilePage.DriverProfile.ToggleSeason | Pages/DriverProfile.razor.cs:180-186 | the season is removed when expanded and added otherwise |
| Toggles.ToggleFlipsOnlyYear | Pages/Home.razor.cs:209-213 | toggling flips the year's membership and no other |
| Toggles.ToggleTwiceIsIdentity | Pages/Home.razor.cs:209-213 | toggling a year twice restores the set |
| RecentSessions.FirstWanted | Pages/DriverProfile.razor.cs:51 | `FirstOrDefault` returns the first driver that is wanted, and nothing exactly when none is |
| RecentSessions.ScanRecentSessions | Pages/DriverProfile.razor.cs:46-62 | the scan returns the first of the five latest sessions that yields a driver, with that driver |
| RecentSessions.FirstHitNone | Pages/Home.razor.cs:109-131 | no hit exactly when no scanned session yields a driver |
| RecentSessions.FirstHitSome | Pages/Home.razor.cs:109-131 | a hit is the first session yielding a driver, every earlier one yielding none |
| RecentSessions.ScanOutcomeSpec | Pages/Home.razor.cs:109-131 | the scan's hit lies among the five latest sessions, is the first that yields a wanted driver, and there is none iff none of them yields one |
| RecentSessions.EmptySearchMatchesEveryone | Pages/Home.razor.cs:115-119 | an empty search text matches every driver |
| RecentSessions.SearchByNumberIsExact | Pages/Home.razor.cs:119 | a car number's decimal text matches its driver, and only drivers with that number match on the number |
| Text.ContainsIgnoreCaseIff | Pages/Home.razor.cs:116-118 | the case-insensitive search succeeds iff some block of the text equals the query up to letter case |
| Text.ContainsIgnoresQueryCase | Pages/Home.razor.cs:116-118 | the letter case of the query does not matter |
| Text.IntToStringInjective | Pages/Home.razor.cs:119 | different numbers have different decimal texts |
| Text.ParseIntToString | Pages/Home.razor.cs:119 | the decimal text of an int parses back to it |
| HomeData.RegularRacesKeptInOrder | Pages/Home.razor.cs:53-56 | the sprint filter keeps exactly the regular races, each as often as it occurs and in order |
| HomeData.RegularRacesUpToSpec | Pages/Home.razor.cs:44-60 | the gathered sessions are exactly the regular races fetched for one of 2022..2025 |
| HomeData.MeetingsUpToSpec | Pages/Home.razor.cs:44-60 | the gathered meetings are exactly those fetched for one of 2022..2025 |
| HomeData.GroupByYearSpec | Pages/Home.razor.cs:62-75 | the track dictionary has a key for exactly the years of the meetings, and under each year the cards of that year's meetings in their order |
| HomeData.CardsSitUnderTheirYear | Pages/Home.razor.cs:62-75 | every card sits under its meeting's year and carries the flag address of its country |
| HomeData.GroupByYearCountsEveryMeeting | Pages/Home.razor.cs:62-75 | summing the cards over the years, in key order, gives one card per meeting |
| HomePage.GatherYears | Pages/Home.razor.cs:44-60 | the loop over 2022..2025 appends each year's meetings and regular races |
| HomePage.SprintSessionsAreDropped | Pages/Home.razor.cs:53-56 | a session whose name contains "sprint" in any letter case is dropped |
| HomePage.RaceSessionOf | Pages/Home.razor.cs:195-197 | the first gathered session of the meeting with type "Race", and nothing exactly when there is none |
| HomePage.BorderClassFor | Pages/Home.razor.cs:151-155 | gray iff the search text is all white space, green otherwise, never red |
| HomePage.Home.constructor | Pages/Home.razor.cs:15-30 | the page starts with the year 2025 expanded, nothing loaded and no error |
| HomePage.Home.LoadAllData | Pages/Home.razor.cs:37-85 | the page holds the regular races of 2022..2025 and the meetings of those years grouped by year, with no error |
| HomePage.Home.SearchDriver | Pages/Home.razor.cs:87-149 | no race session gives "No race sessions available."; no match in the five latest gives "No driver found matching '…'."; otherwise the first match's "/driver/{number}" address |
| HomePage.Home.OnYearChanged | Pages/Home.razor.cs:157-185 | no year changes nothing; otherwise the race choice is reset and an out-of-range year, a thrown fetch or the fetched meetings decide the error and the race list |
| HomePage.Home.LoadRace | Pages/Home.razor.cs:187-207 | a missing year or race gives "Please select both year and race."; the meeting's race session gives its "race/{key}" address; none gives "Race session not found." |
| HomePage.Home.ToggleYear | Pages/Home.razor.cs:209-213 | the year is removed when expanded and added otherwise |
| HomePage.Home.ViewRaceResults | Pages/Home.razor.cs:215-229 | the card's race session gives its "race/{key}" address; none gives "No race session found for" the circuit |
| Flags.FlagUrlSpec | Pages/Home.razor.cs:231-273 | the flag address is empty iff no table fragment occurs in the country name, and otherwise is the flagcdn address of the first fragment that does |
| Flags.CodesAreTwoLowerCaseLetters | Pages/Home.razor.cs:233-262 | every code of the table is two lower-case letters |
| Flags.AustriaGetsItsOwnFlag | Pages/Home.razor.cs:235-236 | "Austria" gets "at", not the earlier "Australia" entry's "au" |
| Flags.NoNameNoFlag | Pages/Home.razor.cs:264-272 | an empty country name gets no flag |
| Aggregation.RaceOutcome | Pages/DriverProfile.razor.cs:106-113 | the outcome of one session (start, finish, change and points, or nothing); its contract is stated by `Aggregation.RaceOutcomeSpec` |
| Aggregation.Step | Pages/DriverProfile.razor.cs:116-159 | one turn of the statistics loop on the totals; `Aggregation.StepKeepsTotals`, `Aggregation.StepKeepsSums` and `Aggregation.CountedSessionAddsOneRace` state what it keeps and changes |
| Aggregation.Accumulate | Pages/DriverProfile.razor.cs:97-167 | the statistics loop over all race sessions, in order; `Aggregation.AccumulateSummarizes`, `Aggregation.BestAndWorstPositions` and `Aggregation.CareerIsSumOfSeasons` state what it computes |
| Stats.AddRace | Pages/DriverProfile.razor.cs:123-148 | one counted race applied to a record's values; `Aggregation.RecordSummarizes` states that it moves the record to the statistics of the longer race list |
| Toggles.Toggle | Pages/Home.razor.cs:209-213 | the `HashSet` remove-or-add of one year; `Toggles.ToggleFlipsOnlyYear` and `Toggles.ToggleTwiceIsIdentity` state its contract |
| RecentSessions.MatchesSearch | Pages/Home.razor.cs:115-119 | the search predicate; `Text.ContainsIgnoreCaseIff`, `RecentSessions.EmptySearchMatchesEveryone` and `RecentSessions.SearchByNumberIsExact` state what it accepts |
| HomeData.IsRegularRace | Pages/Home.razor.cs:53-56 | the sprint filter's predicate; `HomeData.RegularRacesKeptInOrder` and `HomePage.SprintSessionsAreDropped` state what the filter keeps |
| HomeData.GroupByYear | Pages/Home.razor.cs:62-75 | the grouping of meetings into track cards by year; `HomeData.GroupByYearSpec`, `HomeData.CardsSitUnderTheirYear` and `HomeData.GroupByYearCountsEveryMeeting` state its contract |
| Flags.GetCountryFlagUrl | Pages/Home.razor.cs:231-273 | the flag address of a country name; `Flags.FlagUrlSpec` states its contract |
| HomePage.Home.GetSearchBorderClass | Pages/Home.razor.cs:151-155 | the border for the page's search text, given by `HomePage.BorderClassFor`, whose contract is gray iff the text is all white space, green otherwise, never red |

## Left out

- Asynchrony, `StateHasChanged`, `Task.Delay`: the model is sequential. The progress and loading fields are not modelled: `isLoading`, `isLoadingStats`, `isSearching`, `isLoadingRaces`, `currentRaceIndex`, `currentRaceName` and the page's `totalRaces`.
- `AveragePosition` and the `seasonPositions` / `allPositions` lists behind it: floating point.
- The OpenF1 HTTP service is not part of this model. Its fetches are parameters. An HTTP error becomes an empty list. A deserialization error is an exception.
- Session and Driver classes are not part of this model; their fields are inferred from how the pages use them.
- RecentSessions.MatchesSearch: the driver's `FullName`, `BroadcastName` and `NameAcronym` are taken as never null. In C# a null one makes the search predicate throw, and the inner catch then skips the whole session (`Pages/Home.razor.cs:115-130`).
- HomePage.Home.LoadAllData: the catch of `HttpRequestException` (`Pages/Home.razor.cs:77-80`) is not modelled. The service already turns those errors into empty lists, so its fetches are taken as never throwing. A deserialization exception thrown part-way through the loop is not modelled either.
- HomePage.Home.SearchDriver: the outer "Error searching driver" catch is not modelled. Every fetch inside it already has its own catch.
- DriverProfilePage.DriverProfile.LoadDriverData: the sessions come in as a parameter. As written, the call `GetSessionsAsync(2023, 2025)` passes a number where the service takes a country name.
- Text.ContainsIgnoreCaseIff: `OrdinalIgnoreCase` is modelled as folding the ASCII letters only.
- Aggregation.AccumulateSummarizes: counters are unbounded integers; 32-bit overflow cannot occur at F1 race counts.
- The `[Inject]` services and `NavigationManager`: a navigation is the returned address.
- The dictionary order of `tracksByYear` is not kept: it is a map. The key order used in the count lemma is the order of first appearance.
- `GetCountryFlag`, the Playwright tests and the other models and pages are outside the modelled core.
