/** Finding a driver in the driver lists of the most recent race sessions: both pages look
    at no more than the five latest sessions and stop at the first session listing a
    matching driver; a session whose driver list cannot be fetched is passed over. */
module RecentSessions {
  import opened Wrappers
  import opened Records
  import opened Seqs
  import opened Text

  /** How many of the latest race sessions are looked at. */
  const RecentLimit: nat := 5

  /** What the driver is looked up by: the profile page knows the number, the home page
      has the text typed into the search box. */
  datatype DriverQuery = ByNumber(number: int) | BySearch(text: string)

  /** The home page's search: the text occurs, ignoring case, in the full name, the
      broadcast name or the acronym, or it is exactly the decimal car number. */
  predicate MatchesSearch(d: Driver, query: string)
  {
    || ContainsIgnoreCase(d.fullName, query)
    || ContainsIgnoreCase(d.broadcastName, query)
    || ContainsIgnoreCase(d.nameAcronym, query)
    || IntToString(d.driverNumber) == query
  }

  predicate Wants(q: DriverQuery, d: Driver)
  {
    match q
    case ByNumber(n) => d.driverNumber == n
    case BySearch(text) => MatchesSearch(d, text)
  }

  /** `FirstOrDefault` over one session's driver list. */
  function FirstWanted(drivers: seq<Driver>, q: DriverQuery): (r: Option<Driver>)
    ensures r.Some? ==> exists i :: 0 <= i < |drivers| && drivers[i] == r.value && Wants(q, drivers[i])
                          && forall j :: 0 <= j < i ==> !Wants(q, drivers[j])
    ensures r.None? <==> forall i :: 0 <= i < |drivers| ==> !Wants(q, drivers[i])
  {
    FindFirst(drivers, (d: Driver) => Wants(q, d))
  }

  /** The driver a session yields: none when its driver list cannot be fetched,
      otherwise the first driver of the list that is wanted. */
  function DriverIn(session: Session, fetchDrivers: int -> Result<seq<Driver>, string>, q: DriverQuery): Option<Driver>
  {
    match fetchDrivers(session.sessionKey)
    case Failure(_) => None
    case Success(drivers) => FirstWanted(drivers, q)
  }

  /** The first of `sessions` that yields a driver, with the driver it yields. */
  function FirstHit(sessions: seq<Session>, fetchDrivers: int -> Result<seq<Driver>, string>, q: DriverQuery): Option<(Driver, Session)>
    decreases |sessions|
  {
    if sessions == [] then None
    else match DriverIn(sessions[0], fetchDrivers, q)
      case Some(d) => Some((d, sessions[0]))
      case None => FirstHit(sessions[1..], fetchDrivers, q)
  }

  /** `FirstHit` finds nothing exactly when no session yields a driver. */
  lemma {:induction false} FirstHitNone(sessions: seq<Session>, fetchDrivers: int -> Result<seq<Driver>, string>, q: DriverQuery)
    ensures FirstHit(sessions, fetchDrivers, q).None? <==>
      forall j :: 0 <= j < |sessions| ==> DriverIn(sessions[j], fetchDrivers, q).None?
    decreases |sessions|
  {
    if sessions != [] && DriverIn(sessions[0], fetchDrivers, q).None? {
      var rest := sessions[1..];
      FirstHitNone(rest, fetchDrivers, q);
      assert forall j :: 1 <= j < |sessions| ==> sessions[j] == rest[j - 1];
    }
  }

  /** `FirstHit` finds the first session yielding a driver, with that driver. */
  lemma {:induction false} FirstHitSome(sessions: seq<Session>, fetchDrivers: int -> Result<seq<Driver>, string>, q: DriverQuery)
    requires FirstHit(sessions, fetchDrivers, q).Some?
    ensures var hit := FirstHit(sessions, fetchDrivers, q).value;
      exists k :: 0 <= k < |sessions| && sessions[k] == hit.1 && DriverIn(sessions[k], fetchDrivers, q) == Some(hit.0)
        && forall j :: 0 <= j < k ==> DriverIn(sessions[j], fetchDrivers, q).None?
    decreases |sessions|
  {
    var hit := FirstHit(sessions, fetchDrivers, q).value;
    if DriverIn(sessions[0], fetchDrivers, q).Some? {
      assert sessions[0] == hit.1 && DriverIn(sessions[0], fetchDrivers, q) == Some(hit.0);
    } else {
      var rest := sessions[1..];
      assert FirstHit(rest, fetchDrivers, q) == FirstHit(sessions, fetchDrivers, q);
      FirstHitSome(rest, fetchDrivers, q);
      var k :| 0 <= k < |rest| && rest[k] == hit.1 && DriverIn(rest[k], fetchDrivers, q) == Some(hit.0)
        && forall j :: 0 <= j < k ==> DriverIn(rest[j], fetchDrivers, q).None?;
      assert forall j :: 1 <= j < k + 1 ==> sessions[j] == rest[j - 1];
      assert sessions[k + 1] == rest[k];
    }
  }

  /** A yielded driver is a wanted one. */
  lemma DriverInIsWanted(session: Session, fetchDrivers: int -> Result<seq<Driver>, string>, q: DriverQuery)
    ensures DriverIn(session, fetchDrivers, q).Some? ==> Wants(q, DriverIn(session, fetchDrivers, q).value)
  {
  }

  /** The loop `foreach (var session in raceSessions.Take(5))`: fetch the session's drivers
      (skipping the session when that throws), take the first wanted one, and stop at the
      first session that yields one. */
  method ScanRecentSessions(raceSessions: seq<Session>, fetchDrivers: int -> Result<seq<Driver>, string>, q: DriverQuery)
    returns (found: Option<Driver>, session: Option<Session>)
    ensures match FirstHit(Take(raceSessions, RecentLimit), fetchDrivers, q)
      case None => found.None? && session.None?
      case Some(hit) => found == Some(hit.0) && session == Some(hit.1)
  {
    found, session := None, None;
    var recent := Take(raceSessions, RecentLimit);
    var i := 0;
    while i < |recent|
      invariant 0 <= i <= |recent|
      invariant found.None? && session.None?
      invariant FirstHit(recent, fetchDrivers, q) == FirstHit(recent[i..], fetchDrivers, q)
    {
      var current := recent[i];
      var fetched := fetchDrivers(current.sessionKey);
      if fetched.Success? {
        var candidate := FirstWanted(fetched.value, q);
        if candidate.Some? {
          found, session := candidate, Some(current);
          break;
        }
      }
      assert recent[i..][1..] == recent[i + 1..];
      i := i + 1;
    }
  }

  /** What the scan's outcome means: a hit is the first of the (at most five) latest sessions
      yielding a driver, the driver is a wanted one, and there is no hit exactly when none of
      those sessions yields a driver. */
  lemma ScanOutcomeSpec(raceSessions: seq<Session>, fetchDrivers: int -> Result<seq<Driver>, string>, q: DriverQuery)
    ensures var hit := FirstHit(Take(raceSessions, RecentLimit), fetchDrivers, q);
      && (hit.Some? ==>
            && Wants(q, hit.value.0)
            && exists k :: 0 <= k < |raceSessions| && k < RecentLimit && raceSessions[k] == hit.value.1
                 && DriverIn(raceSessions[k], fetchDrivers, q) == Some(hit.value.0)
                 && forall j :: 0 <= j < k ==> DriverIn(raceSessions[j], fetchDrivers, q).None?)
      && (hit.None? <==>
            forall j :: 0 <= j < |raceSessions| && j < RecentLimit ==> DriverIn(raceSessions[j], fetchDrivers, q).None?)
  {
    var recent := Take(raceSessions, RecentLimit);
    FirstHitNone(recent, fetchDrivers, q);
    assert |recent| <= RecentLimit && forall j :: 0 <= j < |recent| ==> recent[j] == raceSessions[j];
    assert |recent| == |raceSessions| || |recent| == RecentLimit;
    var hit := FirstHit(recent, fetchDrivers, q);
    if hit.Some? {
      FirstHitSome(recent, fetchDrivers, q);
      var k :| 0 <= k < |recent| && recent[k] == hit.value.1
        && DriverIn(recent[k], fetchDrivers, q) == Some(hit.value.0)
        && forall j :: 0 <= j < k ==> DriverIn(recent[j], fetchDrivers, q).None?;
      DriverInIsWanted(recent[k], fetchDrivers, q);
    }
  }

  /** An empty search box matches every driver. */
  lemma EmptySearchMatchesEveryone(d: Driver)
    ensures Wants(BySearch(""), d)
  {
    ContainsEmpty(d.fullName);
  }

  /** A search that is the decimal form of a car number matches that car's driver, and
      the number alone matches no other car: a text is the decimal form of one number at most. */
  lemma {:induction false} SearchByNumberIsExact(d: Driver, e: Driver)
    ensures Wants(BySearch(IntToString(d.driverNumber)), d)
    ensures IntToString(e.driverNumber) == IntToString(d.driverNumber) ==> e.driverNumber == d.driverNumber
  {
    if IntToString(e.driverNumber) == IntToString(d.driverNumber) {
      IntToStringInjective(e.driverNumber, d.driverNumber);
    }
  }
}
