/** The records the pages read from the OpenF1 API and the ones they build. Dates are
    integer timestamps (only their order matters); floating-point fields are dropped. */
module Records {
  import opened Wrappers

  /** A session of a meeting (a race, a sprint, a qualifying, ...). `sessionName` may be null. */
  datatype Session = Session(
    sessionKey: int,
    meetingKey: int,
    sessionName: Option<string>,
    sessionType: string,
    dateStart: int,
    year: int,
    countryName: string)

  /** A driver as listed for one session. */
  datatype Driver = Driver(
    driverNumber: int,
    fullName: string,
    broadcastName: string,
    nameAcronym: string)

  /** One position sample: the driver's place at a moment of the session. */
  datatype PositionData = PositionData(date: int, driverNumber: int, position: int)

  /** A Grand Prix weekend. */
  datatype Meeting = Meeting(
    meetingKey: int,
    meetingName: string,
    meetingOfficialName: string,
    location: string,
    countryName: string,
    circuitShortName: string,
    dateStart: int,
    year: int)

  /** What the home page lists for one meeting. */
  datatype TrackInfo = TrackInfo(
    meetingKey: int,
    meetingOfficialName: string,
    circuitShortName: string,
    countryName: string,
    year: int,
    flagUrl: string)

  /** One race of a driver's profile. */
  datatype RaceResult = RaceResult(
    raceName: string,
    raceDate: int,
    startPosition: int,
    finishPosition: int,
    positionChange: int,
    points: int)
}
