/**
 * The matching rules of the OpenF1 integration: which OpenF1 driver number
 * stands for an Ergast driver id, and which OpenF1 race session stands for an
 * Ergast race. The HTTP requests themselves are not modelled; their decoded
 * responses are parameters, and a failed request is `None`.
 */
module OpenF1 {
  import opened Wrappers
  import opened Text

  datatype Driver = Driver(driverNumber: int, fullName: string, nameAcronym: string)

  datatype Session = Session(sessionKey: int, location: string, countryName: string)

  /** The common mappings from Ergast driver ids to OpenF1 search terms. */
  const Mapping: map<string, seq<string>> := map[
    "max_verstappen" := ["VER", "VERSTAPPEN"],
    "norris" := ["NOR", "NORRIS"],
    "leclerc" := ["LEC", "LECLERC"],
    "hamilton" := ["HAM", "HAMILTON"],
    "russell" := ["RUS", "RUSSELL"],
    "piastri" := ["PIA", "PIASTRI"],
    "sainz" := ["SAI", "SAINZ"],
    "alonso" := ["ALO", "ALONSO"],
    "stroll" := ["STR", "STROLL"],
    "perez" := ["PER", "PEREZ"]
  ]

  /** `mapping[driverId] || [driverId.toUpperCase()]`. */
  function SearchTerms(driverId: string): (terms: seq<string>)
    ensures terms != []
    ensures driverId in Mapping ==> terms == Mapping[driverId]
    ensures driverId !in Mapping ==> terms == [ToUpper(driverId)]
  {
    if driverId in Mapping then Mapping[driverId] else [ToUpper(driverId)]
  }

  /** `d.name_acronym === term || d.full_name.toUpperCase().includes(term)`. */
  predicate MatchesTerm(d: Driver, term: string)
  {
    d.nameAcronym == term || Contains(ToUpper(d.fullName), term)
  }

  /** `searchTerms.some(...)`. */
  predicate MatchesAny(d: Driver, terms: seq<string>)
  {
    terms != [] && (MatchesTerm(d, terms[0]) || MatchesAny(d, terms[1..]))
  }

  lemma {:induction false} MatchesAnyIff(d: Driver, terms: seq<string>)
    ensures MatchesAny(d, terms) <==> exists j :: 0 <= j < |terms| && MatchesTerm(d, terms[j])
  {
    if terms != [] {
      MatchesAnyIff(d, terms[1..]);
      assert forall j :: 1 <= j < |terms| ==> terms[1..][j - 1] == terms[j];
      if exists j :: 0 <= j < |terms| && MatchesTerm(d, terms[j]) {
        var j :| 0 <= j < |terms| && MatchesTerm(d, terms[j]);
        if j > 0 {
          assert MatchesTerm(d, terms[1..][j - 1]);
        }
      }
    }
  }

  /** `openf1Drivers.find(...)`. */
  function FindDriver(drivers: seq<Driver>, terms: seq<string>): (r: Option<Driver>)
    ensures r.Some? ==> r.value in drivers && MatchesAny(r.value, terms)
  {
    if drivers == [] then None
    else if MatchesAny(drivers[0], terms) then Some(drivers[0])
    else FindDriver(drivers[1..], terms)
  }

  /** `mapDriverToNumber`: the number of the matching driver, or null when none matches. */
  function MapDriverToNumber(driverId: string, drivers: seq<Driver>): Option<int>
  {
    var d := FindDriver(drivers, SearchTerms(driverId));
    if d.Some? then Some(d.value.driverNumber) else None
  }

  /**
   * The number returned is that of the first driver matching some search
   * term; there is none only when no driver matches any term.
   */
  lemma {:induction false} MapDriverToNumberFirst(driverId: string, drivers: seq<Driver>)
    ensures MapDriverToNumber(driverId, drivers).None? <==>
              forall i :: 0 <= i < |drivers| ==> !MatchesAny(drivers[i], SearchTerms(driverId))
    ensures MapDriverToNumber(driverId, drivers).Some? ==>
              exists i :: 0 <= i < |drivers| && MatchesAny(drivers[i], SearchTerms(driverId))
                && MapDriverToNumber(driverId, drivers).value == drivers[i].driverNumber
                && forall j :: 0 <= j < i ==> !MatchesAny(drivers[j], SearchTerms(driverId))
  {
    if drivers != [] && !MatchesAny(drivers[0], SearchTerms(driverId)) {
      var rest := drivers[1..];
      MapDriverToNumberFirst(driverId, rest);
      assert forall i :: 1 <= i < |drivers| ==> drivers[i] == rest[i - 1];
      if MapDriverToNumber(driverId, rest).Some? {
        var i :| 0 <= i < |rest| && MatchesAny(rest[i], SearchTerms(driverId))
                 && MapDriverToNumber(driverId, rest).value == rest[i].driverNumber
                 && forall j :: 0 <= j < i ==> !MatchesAny(rest[j], SearchTerms(driverId));
        assert drivers[i + 1] == rest[i];
        forall j | 0 <= j < i + 1 ensures !MatchesAny(drivers[j], SearchTerms(driverId)) {
          if j > 0 {
            assert drivers[j] == rest[j - 1];
          }
        }
      }
    }
  }

  /** A driver known to the table is found by acronym: "hamilton" maps to the driver whose acronym is "HAM". */
  lemma KnownDriverByAcronym(n: int, fullName: string, others: seq<Driver>)
    ensures MapDriverToNumber("hamilton", [Driver(n, fullName, "HAM")] + others) == Some(n)
  {
    assert SearchTerms("hamilton") == ["HAM", "HAMILTON"];
  }

  /** An id outside the table is searched for in upper case, so "bottas" finds the driver named "Valtteri BOTTAS". */
  lemma UnknownDriverByName(n: int)
    ensures MapDriverToNumber("bottas", [Driver(n, "Valtteri BOTTAS", "BOT")]) == Some(n)
  {
    assert "bottas" !in Mapping;
    UpperCaseNames();
    ContainsAt("VALTTERI BOTTAS", "BOTTAS", 9);
  }

  lemma UpperCaseNames()
    ensures ToUpper("bottas") == "BOTTAS"
    ensures ToUpper("Valtteri BOTTAS") == "VALTTERI BOTTAS"
  {
  }

  // ---------------------------------------------------------------------------
  // Session matching

  /** The race name mentions the session's location or country, case-insensitively. */
  predicate NameMatches(s: Session, raceName: string)
  {
    Contains(ToLower(raceName), ToLower(s.location)) || Contains(ToLower(raceName), ToLower(s.countryName))
  }

  /** `sessions.find(...)` on the name test. */
  function FindByName(sessions: seq<Session>, raceName: string): (r: Option<Session>)
    ensures r.Some? ==> r.value in sessions && NameMatches(r.value, raceName)
  {
    if sessions == [] then None
    else if NameMatches(sessions[0], raceName) then Some(sessions[0])
    else FindByName(sessions[1..], raceName)
  }

  /**
   * The session key `findOpenF1Session` settles on once the sessions of the
   * season are fetched (`None` for a failed request): the first session the
   * race name matches, otherwise the session at position `round` when that
   * is a valid 1-based position, otherwise null.
   */
  function MatchSession(response: Option<seq<Session>>, round: string, raceName: string): Option<int>
  {
    if response.None? then None
    else
      var sessions := response.value;
      var nameMatch := FindByName(sessions, raceName);
      if nameMatch.Some? then Some(nameMatch.value.sessionKey)
      else
        var roundNum := ParseInt(round);
        if roundNum.Some? && roundNum.value > 0 && roundNum.value <= |sessions| then Some(sessions[roundNum.value - 1].sessionKey)
        else None
  }

  lemma {:induction false} FindByNameFirst(sessions: seq<Session>, raceName: string)
    ensures FindByName(sessions, raceName).None? <==> forall i :: 0 <= i < |sessions| ==> !NameMatches(sessions[i], raceName)
    ensures FindByName(sessions, raceName).Some? ==>
              exists i :: 0 <= i < |sessions| && sessions[i] == FindByName(sessions, raceName).value
                && forall j :: 0 <= j < i ==> !NameMatches(sessions[j], raceName)
  {
    if sessions != [] && !NameMatches(sessions[0], raceName) {
      var rest := sessions[1..];
      FindByNameFirst(rest, raceName);
      assert forall i :: 1 <= i < |sessions| ==> sessions[i] == rest[i - 1];
      if FindByName(rest, raceName).Some? {
        var i :| 0 <= i < |rest| && rest[i] == FindByName(rest, raceName).value
                 && forall j :: 0 <= j < i ==> !NameMatches(rest[j], raceName);
        assert sessions[i + 1] == rest[i];
        forall j | 0 <= j < i + 1 ensures !NameMatches(sessions[j], raceName) {
          if j > 0 {
            assert sessions[j] == rest[j - 1];
          }
        }
      }
    }
  }

  /** A name match wins over the round number: the first matching session is chosen. */
  lemma NameMatchWins(sessions: seq<Session>, round: string, raceName: string, i: int)
    requires 0 <= i < |sessions| && NameMatches(sessions[i], raceName)
    requires forall j :: 0 <= j < i ==> !NameMatches(sessions[j], raceName)
    ensures MatchSession(Some(sessions), round, raceName) == Some(sessions[i].sessionKey)
  {
    FindByNameFirst(sessions, raceName);
    var k :| 0 <= k < |sessions| && sessions[k] == FindByName(sessions, raceName).value
             && forall j :: 0 <= j < k ==> !NameMatches(sessions[j], raceName);
    assert k == i;
  }

  /** Without a name match the session is the round's, when the round is a position in the list, and none otherwise. */
  lemma RoundFallback(sessions: seq<Session>, round: string, raceName: string)
    requires forall j :: 0 <= j < |sessions| ==> !NameMatches(sessions[j], raceName)
    ensures var n := ParseInt(round);
            MatchSession(Some(sessions), round, raceName) ==
              if n.Some? && 1 <= n.value <= |sessions| then Some(sessions[n.value - 1].sessionKey) else None
  {
    FindByNameFirst(sessions, raceName);
  }

  /** A session with an empty location matches every race name, because every string contains "". */
  lemma EmptyLocationMatchesAll(s: Session, raceName: string)
    requires s.location == ""
    ensures NameMatches(s, raceName)
  {
    assert ToLower(s.location) == "";
    ContainsEmpty(ToLower(raceName));
  }
}
