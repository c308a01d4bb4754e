/** What the home page computes from the fetched meetings and sessions: the regular (non-sprint)
    races of 2022 to 2025, and the meetings grouped by year as track cards. */
module HomeData {
  import opened Records
  import opened Seqs
  import opened Text
  import opened Maps

  const FirstYear: int := 2022
  const LastYear: int := 2025

  /** A race session that is not a sprint: its type is "Race" and its name, when it has one,
      does not contain "Sprint" in any letter case. */
  predicate IsRegularRace(s: Session)
  {
    s.sessionType == "Race" && (s.sessionName.None? || !ContainsIgnoreCase(s.sessionName.value, "Sprint"))
  }

  /** The sprint filter keeps every regular race as often as it occurs and in its order, and drops the rest. */
  lemma RegularRacesKeptInOrder(sessions: seq<Session>)
    ensures forall s :: multiset(Filter(sessions, IsRegularRace))[s] == if IsRegularRace(s) then multiset(sessions)[s] else 0
    ensures IsSubsequence(Filter(sessions, IsRegularRace), sessions)
  {
    FilterMultiset(sessions, IsRegularRace);
    FilterIsSubsequence(sessions, IsRegularRace);
  }

  /** The meetings of the years `FirstYear` up to `upTo - 1`, year after year. */
  function MeetingsUpTo(fetchMeetings: int -> seq<Meeting>, upTo: int): seq<Meeting>
    decreases upTo - FirstYear
  {
    if upTo <= FirstYear then [] else MeetingsUpTo(fetchMeetings, upTo - 1) + fetchMeetings(upTo - 1)
  }

  /** The regular races of the years `FirstYear` up to `upTo - 1`, year after year. */
  function RegularRacesUpTo(fetchSessions: int -> seq<Session>, upTo: int): seq<Session>
    decreases upTo - FirstYear
  {
    if upTo <= FirstYear then [] else RegularRacesUpTo(fetchSessions, upTo - 1) + Filter(fetchSessions(upTo - 1), IsRegularRace)
  }

  /** The gathered sessions are exactly the regular races fetched for one of the years. */
  lemma {:induction false} RegularRacesUpToSpec(fetchSessions: int -> seq<Session>, upTo: int)
    ensures forall s :: s in RegularRacesUpTo(fetchSessions, upTo) <==>
      IsRegularRace(s) && exists y :: FirstYear <= y < upTo && s in fetchSessions(y)
    decreases upTo - FirstYear
  {
    if upTo > FirstYear {
      RegularRacesUpToSpec(fetchSessions, upTo - 1);
      forall s
        ensures s in RegularRacesUpTo(fetchSessions, upTo) <==>
          IsRegularRace(s) && exists y :: FirstYear <= y < upTo && s in fetchSessions(y)
      {
        FilterContains(fetchSessions(upTo - 1), IsRegularRace, s);
        if IsRegularRace(s) && exists y :: FirstYear <= y < upTo && s in fetchSessions(y) {
          var y :| FirstYear <= y < upTo && s in fetchSessions(y);
          if y < upTo - 1 {
            assert s in RegularRacesUpTo(fetchSessions, upTo - 1);
          }
        }
      }
    }
  }

  /** The gathered meetings are exactly those fetched for one of the years. */
  lemma {:induction false} MeetingsUpToSpec(fetchMeetings: int -> seq<Meeting>, upTo: int)
    ensures forall m :: m in MeetingsUpTo(fetchMeetings, upTo) <==> exists y :: FirstYear <= y < upTo && m in fetchMeetings(y)
    decreases upTo - FirstYear
  {
    if upTo > FirstYear {
      MeetingsUpToSpec(fetchMeetings, upTo - 1);
      forall m
        ensures m in MeetingsUpTo(fetchMeetings, upTo) <==> exists y :: FirstYear <= y < upTo && m in fetchMeetings(y)
      {
        if exists y :: FirstYear <= y < upTo && m in fetchMeetings(y) {
          var y :| FirstYear <= y < upTo && m in fetchMeetings(y);
          if y < upTo - 1 {
            assert m in MeetingsUpTo(fetchMeetings, upTo - 1);
          }
        }
      }
    }
  }

  /** The card shown for a meeting, its flag address given by `flagOf` from the country name
      (the page passes `GetCountryFlagUrl`). */
  function TrackOf(m: Meeting, flagOf: string -> string): TrackInfo
  {
    TrackInfo(m.meetingKey, m.meetingOfficialName, m.circuitShortName, m.countryName, m.year, flagOf(m.countryName))
  }

  /** LINQ `GroupBy(m => m.Year).ToDictionary(g => g.Key, g => g.Select(TrackOf).ToList())`,
      built meeting by meeting. */
  function GroupByYear(ms: seq<Meeting>, flagOf: string -> string): map<int, seq<TrackInfo>>
    decreases |ms|
  {
    if ms == [] then map[]
    else
      var groups := GroupByYear(ms[..|ms| - 1], flagOf);
      var m := ms[|ms| - 1];
      groups[m.year := (if m.year in groups then groups[m.year] else []) + [TrackOf(m, flagOf)]]
  }

  /** The meetings of year `y`, in order. */
  function MeetingsOfYear(ms: seq<Meeting>, y: int): (r: seq<Meeting>)
    decreases |ms|
  {
    if ms == [] then []
    else (if ms[0].year == y then [ms[0]] else []) + MeetingsOfYear(ms[1..], y)
  }

  /** The cards of `ms`, one per meeting, in order. */
  function TracksOf(ms: seq<Meeting>, flagOf: string -> string): (r: seq<TrackInfo>)
    ensures |r| == |ms|
    ensures forall i :: 0 <= i < |ms| ==> r[i] == TrackOf(ms[i], flagOf)
    decreases |ms|
  {
    if ms == [] then [] else [TrackOf(ms[0], flagOf)] + TracksOf(ms[1..], flagOf)
  }

  lemma {:induction false} MeetingsOfYearAppend(ms: seq<Meeting>, m: Meeting, y: int)
    ensures MeetingsOfYear(ms + [m], y) == MeetingsOfYear(ms, y) + (if m.year == y then [m] else [])
    decreases |ms|
  {
    var t := ms + [m];
    if ms == [] {
      assert t == [m] && t[1..] == [];
    } else {
      assert t[0] == ms[0] && t[1..] == ms[1..] + [m];
      MeetingsOfYearAppend(ms[1..], m, y);
    }
  }

  lemma {:induction false} TracksOfAppend(ms: seq<Meeting>, m: Meeting, flagOf: string -> string)
    ensures TracksOf(ms + [m], flagOf) == TracksOf(ms, flagOf) + [TrackOf(m, flagOf)]
  {
  }

  lemma {:induction false} MeetingsOfYearNone(ms: seq<Meeting>, y: int)
    requires forall i :: 0 <= i < |ms| ==> ms[i].year != y
    ensures MeetingsOfYear(ms, y) == []
    decreases |ms|
  {
    if ms != [] {
      MeetingsOfYearNone(ms[1..], y);
    }
  }

  /** The dictionary has a key for exactly the years some meeting has, and under each year
      the cards of that year's meetings, in their order. */
  lemma {:induction false} GroupByYearSpec(ms: seq<Meeting>, flagOf: string -> string)
    ensures forall y :: y in GroupByYear(ms, flagOf) <==> exists i :: 0 <= i < |ms| && ms[i].year == y
    ensures forall y :: y in GroupByYear(ms, flagOf) ==> GroupByYear(ms, flagOf)[y] == TracksOf(MeetingsOfYear(ms, y), flagOf)
    decreases |ms|
  {
    if ms != [] {
      var init, m := ms[..|ms| - 1], ms[|ms| - 1];
      assert ms == init + [m];
      GroupByYearSpec(init, flagOf);
      var groups := GroupByYear(init, flagOf);
      forall y
        ensures y in GroupByYear(ms, flagOf) <==> exists i :: 0 <= i < |ms| && ms[i].year == y
      {
        if y in groups {
          var i :| 0 <= i < |init| && init[i].year == y;
          assert ms[i].year == y;
        }
        if exists i :: 0 <= i < |ms| && ms[i].year == y {
          var i :| 0 <= i < |ms| && ms[i].year == y;
          if i < |init| {
            assert init[i].year == y;
          }
        }
      }
      forall y | y in GroupByYear(ms, flagOf)
        ensures GroupByYear(ms, flagOf)[y] == TracksOf(MeetingsOfYear(ms, y), flagOf)
      {
        MeetingsOfYearAppend(init, m, y);
        if y == m.year {
          if y !in groups {
            MeetingsOfYearNone(init, y);
          }
          TracksOfAppend(MeetingsOfYear(init, y), m, flagOf);
        } else {
          assert MeetingsOfYear(ms, y) == MeetingsOfYear(init, y) + [];
        }
      }
    }
  }

  /** Every card sits under its own meeting's year and shows that meeting's flag. */
  lemma CardsSitUnderTheirYear(ms: seq<Meeting>, flagOf: string -> string)
    ensures forall y, i :: y in GroupByYear(ms, flagOf) && 0 <= i < |GroupByYear(ms, flagOf)[y]| ==>
      GroupByYear(ms, flagOf)[y][i].year == y
      && GroupByYear(ms, flagOf)[y][i].flagUrl == flagOf(GroupByYear(ms, flagOf)[y][i].countryName)
  {
    GroupByYearSpec(ms, flagOf);
    forall y | y in GroupByYear(ms, flagOf)
      ensures forall i :: 0 <= i < |MeetingsOfYear(ms, y)| ==> MeetingsOfYear(ms, y)[i].year == y
    {
      MeetingsOfYearAreOfYear(ms, y);
    }
  }

  lemma {:induction false} MeetingsOfYearAreOfYear(ms: seq<Meeting>, y: int)
    ensures forall i :: 0 <= i < |MeetingsOfYear(ms, y)| ==> MeetingsOfYear(ms, y)[i].year == y
    decreases |ms|
  {
    if ms != [] {
      MeetingsOfYearAreOfYear(ms[1..], y);
    }
  }

  function YearsOfMeetings(ms: seq<Meeting>): seq<int>
    decreases |ms|
  {
    if ms == [] then [] else YearsOfMeetings(ms[..|ms| - 1]) + [ms[|ms| - 1].year]
  }

  function CardCount(ts: seq<TrackInfo>): int
  {
    |ts|
  }

  /** Counting the cards year by year, in the dictionary's key order, gives one card per meeting. */
  lemma {:induction false} GroupByYearCountsEveryMeeting(ms: seq<Meeting>, flagOf: string -> string)
    ensures forall i :: 0 <= i < |Distinct(YearsOfMeetings(ms))| ==> Distinct(YearsOfMeetings(ms))[i] in GroupByYear(ms, flagOf)
    ensures SumAt(GroupByYear(ms, flagOf), Distinct(YearsOfMeetings(ms)), CardCount) == |ms|
    decreases |ms|
  {
    if ms != [] {
      var init, m := ms[..|ms| - 1], ms[|ms| - 1];
      GroupByYearCountsEveryMeeting(init, flagOf);
      var groups, order := GroupByYear(init, flagOf), Distinct(YearsOfMeetings(init));
      var groups', order' := GroupByYear(ms, flagOf), Distinct(YearsOfMeetings(ms));
      assert YearsOfMeetings(ms) == YearsOfMeetings(init) + [m.year];
      assert order' == if m.year in order then order else order + [m.year];
      assert forall y :: y in groups <==> y in order by {
        GroupByYearSpec(init, flagOf);
        YearsOfMeetingsSpec(init);
      }
      var value := (if m.year in groups then groups[m.year] else []) + [TrackOf(m, flagOf)];
      assert groups' == groups[m.year := value];
      if m.year in order {
        SumAtUpdate(groups, order, CardCount, m.year, value);
      } else {
        SumAtUnaffected(groups, order, CardCount, m.year, value);
        assert order'[..|order'| - 1] == order;
      }
    }
  }

  lemma {:induction false} YearsOfMeetingsSpec(ms: seq<Meeting>)
    ensures forall y :: y in YearsOfMeetings(ms) <==> exists i :: 0 <= i < |ms| && ms[i].year == y
    decreases |ms|
  {
    if ms != [] {
      var init := ms[..|ms| - 1];
      YearsOfMeetingsSpec(init);
      forall y
        ensures y in YearsOfMeetings(ms) <==> exists i :: 0 <= i < |ms| && ms[i].year == y
      {
        if exists i :: 0 <= i < |init| && init[i].year == y {
          var i :| 0 <= i < |init| && init[i].year == y;
          assert ms[i].year == y;
        }
        if exists i :: 0 <= i < |ms| && ms[i].year == y {
          var i :| 0 <= i < |ms| && ms[i].year == y;
          if i < |init| {
            assert init[i].year == y;
          }
        }
      }
    }
  }
}
