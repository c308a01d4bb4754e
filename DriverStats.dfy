/** The mutable statistics record that the profile page fills in, one per season and one for the career. */
module Stats {

  /** A fresh record's best position: larger than any real finishing position. */
  const InitialBestPosition: int := 999

  /** A fresh record's worst position: smaller than any real finishing position. */
  const InitialWorstPosition: int := 0

  /** The values of a `DriverStats` at one moment. */
  datatype StatsValue = StatsValue(
    totalRaces: int,
    podiums: int,
    bestPosition: int,
    worstPosition: int,
    points: int)

  /** The values of a freshly constructed `DriverStats`. */
  function Initial(): StatsValue
  {
    StatsValue(0, 0, InitialBestPosition, InitialWorstPosition, 0)
  }

  /** Before any race is counted the best position lies above the worst one. */
  lemma InitialBestAboveWorst()
    ensures Initial().bestPosition > Initial().worstPosition
    ensures Initial().totalRaces == 0 && Initial().podiums == 0 && Initial().points == 0
  {
  }

  /** One counted race added to a record: one more race, a podium when the finish is third
      or better, the best and worst positions moved to include the finish, and the race's points added. */
  function AddRace(v: StatsValue, finalPosition: int, racePoints: int): StatsValue
  {
    StatsValue(
      v.totalRaces + 1,
      v.podiums + (if finalPosition <= 3 then 1 else 0),
      if finalPosition < v.bestPosition then finalPosition else v.bestPosition,
      if finalPosition > v.worstPosition then finalPosition else v.worstPosition,
      v.points + racePoints)
  }

  class DriverStats {
    var totalRaces: int
    var podiums: int
    var bestPosition: int
    var worstPosition: int
    var points: int

    constructor ()
      ensures totalRaces == 0 && podiums == 0 && points == 0
      ensures bestPosition == InitialBestPosition && worstPosition == InitialWorstPosition
      ensures Value() == Initial()
    {
      totalRaces, podiums, points := 0, 0, 0;
      bestPosition, worstPosition := InitialBestPosition, InitialWorstPosition;
    }

    function Value(): StatsValue
      reads this
    {
      StatsValue(totalRaces, podiums, bestPosition, worstPosition, points)
    }

    /** Takes one counted race: the fields move as `AddRace` says. */
    method Count(finalPosition: int, racePoints: int)
      modifies this
      ensures Value() == AddRace(old(Value()), finalPosition, racePoints)
    {
      totalRaces := totalRaces + 1;
      if finalPosition <= 3 {
        podiums := podiums + 1;
      }
      if finalPosition < bestPosition {
        bestPosition := finalPosition;
      }
      if finalPosition > worstPosition {
        worstPosition := finalPosition;
      }
      points := points + racePoints;
    }
  }
}
