/** What the driver profile computes from the position records of each race session:
    start and finish of each race, its points, and the per-season and career totals. */
module Aggregation {
  import opened Wrappers
  import opened Records
  import opened Seqs
  import opened Maps
  import opened Stats

  /** Championship points for finishing positions 1 to 10. */
  const PointsTable: seq<int> := [25, 18, 15, 12, 10, 8, 6, 4, 2, 1]

  /** The points a finishing position earns. */
  function GetRacePoints(position: int): (r: int)
    ensures 0 <= r <= 25
    ensures r > 0 <==> 1 <= position <= 10
  {
    match position
    case 1 => 25
    case 2 => 18
    case 3 => 15
    case 4 => 12
    case 5 => 10
    case 6 => 8
    case 7 => 6
    case 8 => 4
    case 9 => 2
    case 10 => 1
    case _ => 0
  }

  /** Positions 1 to 10 earn the table's points and every other position none. */
  lemma PointsFollowTable(position: int)
    ensures GetRacePoints(position) == if 1 <= position <= 10 then PointsTable[position - 1] else 0
  {
  }

  /** A better finish never earns fewer points. */
  lemma PointsNonIncreasing(better: int, worse: int)
    requires 1 <= better <= worse
    ensures GetRacePoints(better) >= GetRacePoints(worse)
  {
  }

  /** The position records of one driver, in input order. */
  function ForDriver(positions: seq<PositionData>, driverNumber: int): seq<PositionData>
  {
    Filter(positions, (p: PositionData) => p.driverNumber == driverNumber)
  }

  /** `OrderBy(p => p.Date).First()`: the earliest record; among equally early ones the first. */
  function EarliestIndex(ps: seq<PositionData>): (k: nat)
    requires |ps| > 0
    ensures k < |ps|
    ensures forall j :: 0 <= j < |ps| ==> ps[k].date <= ps[j].date
    ensures forall j :: 0 <= j < k ==> ps[j].date > ps[k].date
    decreases |ps|
  {
    if |ps| == 1 then 0
    else
      var k := EarliestIndex(ps[..|ps| - 1]);
      if ps[|ps| - 1].date < ps[k].date then |ps| - 1 else k
  }

  /** `OrderBy(p => p.Date).Last()`: the latest record; among equally late ones the last. */
  function LatestIndex(ps: seq<PositionData>): (k: nat)
    requires |ps| > 0
    ensures k < |ps|
    ensures forall j :: 0 <= j < |ps| ==> ps[j].date <= ps[k].date
    ensures forall j :: k < j < |ps| ==> ps[j].date < ps[k].date
    decreases |ps|
  {
    if |ps| == 1 then 0
    else
      var k := LatestIndex(ps[..|ps| - 1]);
      if ps[|ps| - 1].date >= ps[k].date then |ps| - 1 else k
  }

  /** What one race session contributes: nothing when fetching its positions threw or
      when it holds no record of the driver, and otherwise the driver's race result. */
  function RaceOutcome(session: Session, fetched: Result<seq<PositionData>, string>, driverNumber: int): Option<RaceResult>
  {
    match fetched
    case Failure(_) => None
    case Success(positions) =>
      var mine := ForDriver(positions, driverNumber);
      if |mine| == 0 then None
      else
        var start := mine[EarliestIndex(mine)].position;
        var finish := mine[LatestIndex(mine)].position;
        Some(RaceResult(session.countryName + " Grand Prix", session.dateStart,
                        start, finish, start - finish, GetRacePoints(finish)))
  }

  /** A session counts exactly when its positions were fetched and include one of the driver;
      then the start is the driver's earliest record (the first of equally early ones) and the
      finish the latest (the last of equally late ones). */
  lemma {:induction false} RaceOutcomeSpec(session: Session, fetched: Result<seq<PositionData>, string>, driverNumber: int)
    ensures RaceOutcome(session, fetched, driverNumber).Some? <==>
      fetched.Success? && exists i :: 0 <= i < |fetched.value| && fetched.value[i].driverNumber == driverNumber
    ensures RaceOutcome(session, fetched, driverNumber).Some? ==>
      var r := RaceOutcome(session, fetched, driverNumber).value;
      var mine := ForDriver(fetched.value, driverNumber);
      && (forall j :: 0 <= j < |mine| ==> mine[j].driverNumber == driverNumber)
      && (exists i :: 0 <= i < |mine| && mine[i].position == r.startPosition
            && (forall j :: 0 <= j < |mine| ==> mine[i].date <= mine[j].date)
            && (forall j :: 0 <= j < i ==> mine[j].date > mine[i].date))
      && (exists i :: 0 <= i < |mine| && mine[i].position == r.finishPosition
            && (forall j :: 0 <= j < |mine| ==> mine[j].date <= mine[i].date)
            && (forall j :: i < j < |mine| ==> mine[j].date < mine[i].date))
      && r.positionChange == r.startPosition - r.finishPosition
      && r.points == GetRacePoints(r.finishPosition)
  {
    if fetched.Success? {
      var p := (q: PositionData) => q.driverNumber == driverNumber;
      var mine := ForDriver(fetched.value, driverNumber);
      FilterMultiset(fetched.value, p);
      if exists i :: 0 <= i < |fetched.value| && fetched.value[i].driverNumber == driverNumber {
        var i :| 0 <= i < |fetched.value| && fetched.value[i].driverNumber == driverNumber;
        assert multiset(fetched.value)[fetched.value[i]] > 0;
        assert multiset(mine)[fetched.value[i]] > 0;
      }
      if |mine| > 0 {
        assert mine[0] in multiset(mine);
        assert multiset(fetched.value)[mine[0]] > 0;
        var e, l := EarliestIndex(mine), LatestIndex(mine);
        assert mine[e].position == RaceOutcome(session, fetched, driverNumber).value.startPosition;
        assert mine[l].position == RaceOutcome(session, fetched, driverNumber).value.finishPosition;
      }
    }
  }

  /** One counted race folded into a record, with the points its finish earns. */
  function Record(v: StatsValue, finish: int): StatsValue
  {
    AddRace(v, finish, GetRacePoints(finish))
  }

  /** A first finish below 999 and above 0 replaces both sentinels. */
  lemma FirstRaceReplacesSentinels(finish: int)
    requires InitialWorstPosition < finish < InitialBestPosition
    ensures Record(Initial(), finish).bestPosition == finish
    ensures Record(Initial(), finish).worstPosition == finish
    ensures Record(Initial(), finish).totalRaces == 1
  {
  }

  /** The career record, the per-season records and the per-season race lists. */
  datatype Totals = Totals(
    career: StatsValue,
    seasons: map<int, StatsValue>,
    races: map<int, seq<RaceResult>>)

  /** The totals before any session: a fresh career record and no seasons. */
  function NoTotals(): Totals
  {
    Totals(Initial(), map[], map[])
  }

  function SeasonOr(seasons: map<int, StatsValue>, year: int): StatsValue
  {
    if year in seasons then seasons[year] else Initial()
  }

  function RacesOr(races: map<int, seq<RaceResult>>, year: int): seq<RaceResult>
  {
    if year in races then races[year] else []
  }

  /** One session of the loop: a counted race updates its season (created fresh when new), the career and its season's race list. */
  function Step(t: Totals, year: int, outcome: Option<RaceResult>): Totals
  {
    match outcome
    case None => t
    case Some(r) =>
      Totals(
        Record(t.career, r.finishPosition),
        t.seasons[year := Record(SeasonOr(t.seasons, year), r.finishPosition)],
        t.races[year := RacesOr(t.races, year) + [r]])
  }

  /** The totals after the loop has visited `sessions` in order. */
  function Accumulate(sessions: seq<Session>, fetchPositions: int -> Result<seq<PositionData>, string>, driverNumber: int): Totals
    decreases |sessions|
  {
    if sessions == [] then NoTotals()
    else
      var s := sessions[|sessions| - 1];
      Step(Accumulate(sessions[..|sessions| - 1], fetchPositions, driverNumber), s.year,
           RaceOutcome(s, fetchPositions(s.sessionKey), driverNumber))
  }

  lemma AccumulateAppend(sessions: seq<Session>, s: Session, fetchPositions: int -> Result<seq<PositionData>, string>, driverNumber: int)
    ensures Accumulate(sessions + [s], fetchPositions, driverNumber)
         == Step(Accumulate(sessions, fetchPositions, driverNumber), s.year, RaceOutcome(s, fetchPositions(s.sessionKey), driverNumber))
  {
    assert (sessions + [s])[..|sessions|] == sessions;
  }

  /** The totals after one more session of the loop. */
  lemma AccumulateNext(sessions: seq<Session>, index: int, fetchPositions: int -> Result<seq<PositionData>, string>, driverNumber: int)
    requires 0 <= index < |sessions|
    ensures Accumulate(sessions[..index + 1], fetchPositions, driverNumber)
         == Step(Accumulate(sessions[..index], fetchPositions, driverNumber), sessions[index].year,
                 RaceOutcome(sessions[index], fetchPositions(sessions[index].sessionKey), driverNumber))
  {
    assert sessions[..index + 1][..index] == sessions[..index];
  }

  // ---------------------------------------------------------------------------------------
  // The races that count, and what the totals say about them

  datatype Counted = Counted(year: int, result: RaceResult)

  /** The sessions that count, in loop order, with their season and result. */
  function CountedRaces(sessions: seq<Session>, fetchPositions: int -> Result<seq<PositionData>, string>, driverNumber: int): seq<Counted>
    decreases |sessions|
  {
    if sessions == [] then []
    else
      var s := sessions[|sessions| - 1];
      var rest := CountedRaces(sessions[..|sessions| - 1], fetchPositions, driverNumber);
      match RaceOutcome(s, fetchPositions(s.sessionKey), driverNumber)
      case None => rest
      case Some(r) => rest + [Counted(s.year, r)]
  }

  function ResultsOf(cs: seq<Counted>): seq<RaceResult>
    decreases |cs|
  {
    if cs == [] then [] else ResultsOf(cs[..|cs| - 1]) + [cs[|cs| - 1].result]
  }

  /** The counted results of one season, in loop order. */
  function ResultsIn(cs: seq<Counted>, year: int): seq<RaceResult>
    decreases |cs|
  {
    if cs == [] then []
    else ResultsIn(cs[..|cs| - 1], year) + (if cs[|cs| - 1].year == year then [cs[|cs| - 1].result] else [])
  }

  function YearsOf(cs: seq<Counted>): seq<int>
    decreases |cs|
  {
    if cs == [] then [] else YearsOf(cs[..|cs| - 1]) + [cs[|cs| - 1].year]
  }

  /** How many of `rs` finished third or better. */
  function Podiums(rs: seq<RaceResult>): int
    decreases |rs|
  {
    if rs == [] then 0
    else Podiums(rs[..|rs| - 1]) + (if rs[|rs| - 1].finishPosition <= 3 then 1 else 0)
  }

  /** The points the finishes of `rs` earn. */
  function PointsOf(rs: seq<RaceResult>): int
    decreases |rs|
  {
    if rs == [] then 0
    else PointsOf(rs[..|rs| - 1]) + GetRacePoints(rs[|rs| - 1].finishPosition)
  }

  /** `b` is the least of the sentinel 999 and the finishes of `rs`. */
  ghost predicate IsBest(b: int, rs: seq<RaceResult>)
  {
    && b <= InitialBestPosition
    && (forall i :: 0 <= i < |rs| ==> b <= rs[i].finishPosition)
    && (b == InitialBestPosition || exists i :: 0 <= i < |rs| && rs[i].finishPosition == b)
  }

  /** `w` is the greatest of the sentinel 0 and the finishes of `rs`. */
  ghost predicate IsWorst(w: int, rs: seq<RaceResult>)
  {
    && w >= InitialWorstPosition
    && (forall i :: 0 <= i < |rs| ==> rs[i].finishPosition <= w)
    && (w == InitialWorstPosition || exists i :: 0 <= i < |rs| && rs[i].finishPosition == w)
  }

  /** `v` holds the statistics of exactly the races `rs`. */
  ghost predicate Summarizes(v: StatsValue, rs: seq<RaceResult>)
  {
    && v.totalRaces == |rs|
    && v.podiums == Podiums(rs)
    && v.points == PointsOf(rs)
    && IsBest(v.bestPosition, rs)
    && IsWorst(v.worstPosition, rs)
  }

  /** Folding one more race into a record that summarizes `rs` summarizes `rs` and that race. */
  lemma {:induction false} RecordSummarizes(v: StatsValue, rs: seq<RaceResult>, r: RaceResult)
    requires Summarizes(v, rs)
    ensures Summarizes(Record(v, r.finishPosition), rs + [r])
  {
    var rs' := rs + [r];
    assert rs'[..|rs|] == rs;
    assert forall i :: 0 <= i < |rs| ==> rs'[i] == rs[i];
    var v' := Record(v, r.finishPosition);
    if v'.bestPosition != InitialBestPosition {
      if r.finishPosition < v.bestPosition {
        assert rs'[|rs|].finishPosition == v'.bestPosition;
      } else {
        var i :| 0 <= i < |rs| && rs[i].finishPosition == v.bestPosition;
        assert rs'[i].finishPosition == v'.bestPosition;
      }
    }
    if v'.worstPosition != InitialWorstPosition {
      if r.finishPosition > v.worstPosition {
        assert rs'[|rs|].finishPosition == v'.worstPosition;
      } else {
        var i :| 0 <= i < |rs| && rs[i].finishPosition == v.worstPosition;
        assert rs'[i].finishPosition == v'.worstPosition;
      }
    }
  }

  lemma {:induction false} ResultsInAbsent(cs: seq<Counted>, year: int)
    requires year !in YearsOf(cs)
    ensures ResultsIn(cs, year) == []
    decreases |cs|
  {
    if cs != [] {
      assert YearsOf(cs) == YearsOf(cs[..|cs| - 1]) + [cs[|cs| - 1].year];
      ResultsInAbsent(cs[..|cs| - 1], year);
    }
  }

  /** `t` holds the totals of exactly the counted races `cs`: the career record summarizes
      all of them, each season's record and race list those of that season, and a season
      exists exactly when one of its races counted. */
  ghost predicate TotalsOf(t: Totals, cs: seq<Counted>)
  {
    && Summarizes(t.career, ResultsOf(cs))
    && (forall y :: y in t.seasons <==> y in t.races)
    && (forall y :: y in t.seasons <==> y in YearsOf(cs))
    && (forall y :: y in t.seasons ==> Summarizes(t.seasons[y], ResultsIn(cs, y)) && t.races[y] == ResultsIn(cs, y))
  }

  lemma {:induction false} CountedAppend(cs: seq<Counted>, c: Counted)
    ensures ResultsOf(cs + [c]) == ResultsOf(cs) + [c.result]
    ensures YearsOf(cs + [c]) == YearsOf(cs) + [c.year]
    ensures forall y :: ResultsIn(cs + [c], y) == ResultsIn(cs, y) + (if c.year == y then [c.result] else [])
  {
    assert (cs + [c])[..|cs|] == cs;
  }

  /** A counted race keeps the totals in step with the counted list. */
  lemma {:induction false} StepKeepsTotals(t: Totals, cs: seq<Counted>, c: Counted)
    requires TotalsOf(t, cs)
    ensures TotalsOf(Step(t, c.year, Some(c.result)), cs + [c])
  {
    var t' := Step(t, c.year, Some(c.result));
    var cs' := cs + [c];
    CountedAppend(cs, c);
    RecordSummarizes(t.career, ResultsOf(cs), c.result);
    assert forall y :: y in YearsOf(cs') <==> y in YearsOf(cs) || y == c.year;
    StepKeepsSeason(t, cs, c);
    forall y | y in t'.seasons && y != c.year
      ensures Summarizes(t'.seasons[y], ResultsIn(cs', y)) && t'.races[y] == ResultsIn(cs', y)
    {
      StepKeepsOtherSeason(t, cs, c, y);
    }
  }

  /** Any other season is left as it was, and so are its counted results. */
  lemma {:induction false} StepKeepsOtherSeason(t: Totals, cs: seq<Counted>, c: Counted, y: int)
    requires TotalsOf(t, cs)
    requires y in Step(t, c.year, Some(c.result)).seasons && y != c.year
    ensures var t' := Step(t, c.year, Some(c.result));
      Summarizes(t'.seasons[y], ResultsIn(cs + [c], y)) && t'.races[y] == ResultsIn(cs + [c], y)
  {
    CountedAppend(cs, c);
    assert ResultsIn(cs + [c], y) == ResultsIn(cs, y);
  }

  /** The counted race's own season: its record and list take the race. */
  lemma {:induction false} StepKeepsSeason(t: Totals, cs: seq<Counted>, c: Counted)
    requires TotalsOf(t, cs)
    ensures var t' := Step(t, c.year, Some(c.result));
      Summarizes(t'.seasons[c.year], ResultsIn(cs + [c], c.year)) && t'.races[c.year] == ResultsIn(cs + [c], c.year)
  {
    CountedAppend(cs, c);
    if c.year !in t.seasons {
      ResultsInAbsent(cs, c.year);
    }
    RecordSummarizes(SeasonOr(t.seasons, c.year), ResultsIn(cs, c.year), c.result);
  }

  /** Opening a season with a fresh record and an empty list first does not change what
      counting a race of that season gives. */
  lemma StepAfterOpeningSeason(t: Totals, year: int, r: RaceResult)
    requires year !in t.seasons && year !in t.races
    ensures Step(Totals(t.career, t.seasons[year := Initial()], t.races[year := []]), year, Some(r)) == Step(t, year, Some(r))
  {
  }

  /** The loop's totals are those of exactly the sessions that count. */
  lemma {:induction false} AccumulateSummarizes(sessions: seq<Session>, fetchPositions: int -> Result<seq<PositionData>, string>, driverNumber: int)
    ensures TotalsOf(Accumulate(sessions, fetchPositions, driverNumber), CountedRaces(sessions, fetchPositions, driverNumber))
    decreases |sessions|
  {
    if sessions != [] {
      var init, s := sessions[..|sessions| - 1], sessions[|sessions| - 1];
      AccumulateSummarizes(init, fetchPositions, driverNumber);
      var outcome := RaceOutcome(s, fetchPositions(s.sessionKey), driverNumber);
      if outcome.Some? {
        StepKeepsTotals(Accumulate(init, fetchPositions, driverNumber),
                        CountedRaces(init, fetchPositions, driverNumber), Counted(s.year, outcome.value));
      }
    }
  }

  /** Each season's race list is as long as its race count. */
  lemma SeasonRaceCountsMatchLists(sessions: seq<Session>, fetchPositions: int -> Result<seq<PositionData>, string>, driverNumber: int)
    ensures var t := Accumulate(sessions, fetchPositions, driverNumber);
      forall y :: y in t.seasons ==> y in t.races && |t.races[y]| == t.seasons[y].totalRaces
  {
    AccumulateSummarizes(sessions, fetchPositions, driverNumber);
  }

  /** A record with no races is a fresh one; with at least one race, whatever its finishes,
      best <= worst; and when the finishes are real positions (1 to 998) the best and worst
      positions are attained finishes. */
  lemma {:induction false} SummaryBounds(v: StatsValue, rs: seq<RaceResult>)
    requires Summarizes(v, rs)
    ensures |rs| == 0 ==> v == Initial()
    ensures |rs| > 0 ==> v.bestPosition <= v.worstPosition
    ensures |rs| > 0 && (forall i :: 0 <= i < |rs| ==> InitialWorstPosition < rs[i].finishPosition < InitialBestPosition) ==>
      && (exists i :: 0 <= i < |rs| && v.bestPosition == rs[i].finishPosition)
      && (exists i :: 0 <= i < |rs| && v.worstPosition == rs[i].finishPosition)
  {
    if |rs| > 0 {
      assert v.bestPosition <= rs[0].finishPosition <= v.worstPosition;
      if forall i :: 0 <= i < |rs| ==> InitialWorstPosition < rs[i].finishPosition < InitialBestPosition {
        assert rs[0].finishPosition < InitialBestPosition;
        assert rs[0].finishPosition > InitialWorstPosition;
      }
    }
  }

  /** Best and worst positions of the career and of every season: the sentinels while nothing
      counted, and the minimum and maximum finish once something did. */
  lemma BestAndWorstPositions(sessions: seq<Session>, fetchPositions: int -> Result<seq<PositionData>, string>, driverNumber: int)
    ensures var t := Accumulate(sessions, fetchPositions, driverNumber);
      var cs := CountedRaces(sessions, fetchPositions, driverNumber);
      && (cs == [] ==> t.career == Initial() && t.seasons == map[])
      && (forall y :: y in t.seasons ==> IsBest(t.seasons[y].bestPosition, ResultsIn(cs, y)) && IsWorst(t.seasons[y].worstPosition, ResultsIn(cs, y)))
      && IsBest(t.career.bestPosition, ResultsOf(cs)) && IsWorst(t.career.worstPosition, ResultsOf(cs))
      && (cs != [] ==> t.career.bestPosition <= t.career.worstPosition)
      && (forall y :: y in t.seasons ==> t.seasons[y].bestPosition <= t.seasons[y].worstPosition)
  {
    var t := Accumulate(sessions, fetchPositions, driverNumber);
    var cs := CountedRaces(sessions, fetchPositions, driverNumber);
    AccumulateSummarizes(sessions, fetchPositions, driverNumber);
    ResultsOfIndex(cs);
    SummaryBounds(t.career, ResultsOf(cs));
    forall y | y in t.seasons
      ensures t.seasons[y].bestPosition <= t.seasons[y].worstPosition
    {
      SummaryBounds(t.seasons[y], ResultsIn(cs, y));
    }
  }

  lemma {:induction false} ResultsOfIndex(cs: seq<Counted>)
    ensures |ResultsOf(cs)| == |cs|
    ensures forall i :: 0 <= i < |cs| ==> ResultsOf(cs)[i] == cs[i].result
    decreases |cs|
  {
    if cs != [] {
      ResultsOfIndex(cs[..|cs| - 1]);
    }
  }

  /** A session that does not count can be dropped from anywhere in the loop without changing any total. */
  lemma {:induction false} SkippedSessionChangesNothing(before: seq<Session>, x: Session, after: seq<Session>,
                                                      fetchPositions: int -> Result<seq<PositionData>, string>, driverNumber: int)
    requires RaceOutcome(x, fetchPositions(x.sessionKey), driverNumber).None?
    ensures Accumulate(before + [x] + after, fetchPositions, driverNumber) == Accumulate(before + after, fetchPositions, driverNumber)
    decreases |after|
  {
    if after == [] {
      assert before + [x] + after == before + [x];
      assert before + after == before;
      AccumulateAppend(before, x, fetchPositions, driverNumber);
    } else {
      var init, z := after[..|after| - 1], after[|after| - 1];
      SkippedSessionChangesNothing(before, x, init, fetchPositions, driverNumber);
      assert before + [x] + after == (before + [x] + init) + [z];
      assert before + after == (before + init) + [z];
      AccumulateAppend(before + [x] + init, z, fetchPositions, driverNumber);
      AccumulateAppend(before + init, z, fetchPositions, driverNumber);
    }
  }

  /** A counted session adds exactly one race to its season and to the career, and leaves the other seasons alone. */
  lemma CountedSessionAddsOneRace(sessions: seq<Session>, s: Session, fetchPositions: int -> Result<seq<PositionData>, string>, driverNumber: int)
    requires RaceOutcome(s, fetchPositions(s.sessionKey), driverNumber).Some?
    ensures var before := Accumulate(sessions, fetchPositions, driverNumber);
      var after := Accumulate(sessions + [s], fetchPositions, driverNumber);
      && after.career.totalRaces == before.career.totalRaces + 1
      && s.year in after.seasons
      && after.seasons[s.year].totalRaces == SeasonOr(before.seasons, s.year).totalRaces + 1
      && |after.races[s.year]| == |RacesOr(before.races, s.year)| + 1
      && (forall y :: y != s.year ==> (y in after.seasons <==> y in before.seasons))
      && (forall y :: y != s.year && y in before.seasons ==> after.seasons[y] == before.seasons[y])
  {
    AccumulateAppend(sessions, s, fetchPositions, driverNumber);
  }

  /** A race result whose position change and points agree with its start and finish. */
  ghost predicate ConsistentResult(r: RaceResult)
  {
    r.positionChange == r.startPosition - r.finishPosition && r.points == GetRacePoints(r.finishPosition)
  }

  /** Every race in every season's list is consistent. */
  ghost predicate AllConsistent(races: map<int, seq<RaceResult>>)
  {
    forall y, i :: y in races && 0 <= i < |races[y]| ==> ConsistentResult(races[y][i])
  }

  lemma {:induction false} AppendKeepsConsistent(races: map<int, seq<RaceResult>>, y: int, r: RaceResult)
    requires AllConsistent(races)
    requires ConsistentResult(r)
    ensures AllConsistent(races[y := RacesOr(races, y) + [r]])
  {
    var list := RacesOr(races, y) + [r];
    forall i | 0 <= i < |list| ensures ConsistentResult(list[i]) {
      if i < |list| - 1 {
        assert list[i] == races[y][i];
      }
    }
  }

  /** Every listed race has `PositionChange = StartPosition - FinishPosition` and the points of its finish. */
  lemma {:induction false} RaceResultsAreConsistent(sessions: seq<Session>, fetchPositions: int -> Result<seq<PositionData>, string>, driverNumber: int)
    ensures AllConsistent(Accumulate(sessions, fetchPositions, driverNumber).races)
    decreases |sessions|
  {
    if sessions != [] {
      var init, s := sessions[..|sessions| - 1], sessions[|sessions| - 1];
      RaceResultsAreConsistent(init, fetchPositions, driverNumber);
      var t0 := Accumulate(init, fetchPositions, driverNumber);
      var outcome := RaceOutcome(s, fetchPositions(s.sessionKey), driverNumber);
      if outcome.Some? {
        RaceOutcomeSpec(s, fetchPositions(s.sessionKey), driverNumber);
        AppendKeepsConsistent(t0.races, s.year, outcome.value);
      }
    }
  }

  function TotalRacesOf(v: StatsValue): int { v.totalRaces }
  function PodiumsOf(v: StatsValue): int { v.podiums }
  function PointsOfStats(v: StatsValue): int { v.points }

  /** The order in which the seasons enter the season dictionary: first counted race first. */
  function SeasonOrder(sessions: seq<Session>, fetchPositions: int -> Result<seq<PositionData>, string>, driverNumber: int): seq<int>
  {
    Distinct(YearsOf(CountedRaces(sessions, fetchPositions, driverNumber)))
  }

  /** The career counters are the sums of the seasons' counters over `order`. */
  ghost predicate CareerIsSum(t: Totals, order: seq<int>)
  {
    && (forall i :: 0 <= i < |order| ==> order[i] in t.seasons)
    && t.career.totalRaces == SumAt(t.seasons, order, TotalRacesOf)
    && t.career.podiums == SumAt(t.seasons, order, PodiumsOf)
    && t.career.points == SumAt(t.seasons, order, PointsOfStats)
  }

  /** Storing `v` under `y` (appending `y` to the key order when new) moves the sum by the change at `y`. */
  lemma {:induction false} SumAfterStore(m: map<int, StatsValue>, order: seq<int>, y: int, v: StatsValue, f: StatsValue -> int)
    requires forall i :: 0 <= i < |order| ==> order[i] in m
    requires forall i, j :: 0 <= i < j < |order| ==> order[i] != order[j]
    requires y in m <==> y in order
    ensures var order' := if y in order then order else order + [y];
      && (forall i :: 0 <= i < |order'| ==> order'[i] in m[y := v])
      && SumAt(m[y := v], order', f) == SumAt(m, order, f) - (if y in m then f(m[y]) else 0) + f(v)
  {
    if y in order {
      SumAtUpdate(m, order, f, y, v);
    } else {
      SumAtUnaffected(m, order, f, y, v);
      var order' := order + [y];
      assert order'[..|order'| - 1] == order;
    }
  }

  lemma {:induction false} DistinctYearsAppend(cs: seq<Counted>, c: Counted)
    ensures var order := Distinct(YearsOf(cs));
      Distinct(YearsOf(cs + [c])) == if c.year in order then order else order + [c.year]
  {
    CountedAppend(cs, c);
    var ys' := YearsOf(cs + [c]);
    assert ys'[..|ys'| - 1] == YearsOf(cs);
  }

  /** One counter: recording a race adds `delta` to the season's counter and so to the sum. */
  lemma {:induction false} SumAfterRecord(seasons: map<int, StatsValue>, order: seq<int>, y: int, finish: int,
                                         f: StatsValue -> int, delta: int)
    requires forall i :: 0 <= i < |order| ==> order[i] in seasons
    requires forall i, j :: 0 <= i < j < |order| ==> order[i] != order[j]
    requires y in seasons <==> y in order
    requires f(Initial()) == 0
    requires f(Record(SeasonOr(seasons, y), finish)) == f(SeasonOr(seasons, y)) + delta
    ensures var order' := if y in order then order else order + [y];
      var seasons' := seasons[y := Record(SeasonOr(seasons, y), finish)];
      && (forall i :: 0 <= i < |order'| ==> order'[i] in seasons')
      && SumAt(seasons', order', f) == SumAt(seasons, order, f) + delta
  {
    SumAfterStore(seasons, order, y, Record(SeasonOr(seasons, y), finish), f);
  }

  /** Recording one counted race keeps the career counters equal to the sums over the seasons. */
  lemma {:induction false} StepKeepsSums(t: Totals, order: seq<int>, y: int, r: RaceResult)
    requires forall k :: k in t.seasons <==> k in order
    requires forall i, j :: 0 <= i < j < |order| ==> order[i] != order[j]
    requires CareerIsSum(t, order)
    ensures CareerIsSum(Step(t, y, Some(r)), if y in order then order else order + [y])
  {
    var finish := r.finishPosition;
    var order' := if y in order then order else order + [y];
    var t' := Step(t, y, Some(r));
    SumAfterRecord(t.seasons, order, y, finish, TotalRacesOf, 1);
    assert t'.career.totalRaces == SumAt(t'.seasons, order', TotalRacesOf);
    SumAfterRecord(t.seasons, order, y, finish, PodiumsOf, if finish <= 3 then 1 else 0);
    assert t'.career.podiums == SumAt(t'.seasons, order', PodiumsOf);
    SumAfterRecord(t.seasons, order, y, finish, PointsOfStats, GetRacePoints(finish));
    assert t'.career.points == SumAt(t'.seasons, order', PointsOfStats);
  }

  /** After the loop the career's race count, podiums and points are the sums of the
      seasons' values, taken over every season exactly once. */
  lemma {:induction false} CareerIsSumOfSeasons(sessions: seq<Session>, fetchPositions: int -> Result<seq<PositionData>, string>, driverNumber: int)
    ensures var t := Accumulate(sessions, fetchPositions, driverNumber);
      var order := SeasonOrder(sessions, fetchPositions, driverNumber);
      && (forall y :: y in t.seasons <==> y in order)
      && (forall i, j :: 0 <= i < j < |order| ==> order[i] != order[j])
      && CareerIsSum(t, order)
    decreases |sessions|
  {
    AccumulateSummarizes(sessions, fetchPositions, driverNumber);
    if sessions != [] {
      var init, s := sessions[..|sessions| - 1], sessions[|sessions| - 1];
      CareerIsSumOfSeasons(init, fetchPositions, driverNumber);
      AccumulateSummarizes(init, fetchPositions, driverNumber);
      var outcome := RaceOutcome(s, fetchPositions(s.sessionKey), driverNumber);
      if outcome.Some? {
        var cs := CountedRaces(init, fetchPositions, driverNumber);
        DistinctYearsAppend(cs, Counted(s.year, outcome.value));
        StepKeepsSums(Accumulate(init, fetchPositions, driverNumber), Distinct(YearsOf(cs)), s.year, outcome.value);
      }
    }
  }
}
