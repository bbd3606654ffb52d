/** `GeocodingService`: a rate limiter over an abstract clock, and the
    interpretation of Nominatim replies for reverse and forward lookups.
    The clock keeps a log of what happened on it (sleeps and requests sent),
    so the order "rate limit, then request" and the spacing of requests can
    be stated. What the server answers is a parameter of each lookup. */
module Geocoding {
  import opened Text

  /** A request sent to Nominatim. */
  datatype Query =
    | ReverseQuery(latitude: real, longitude: real)
    | SearchQuery(q: string)

  datatype Event =
    | Slept(duration: real)
    | Sent(query: Query, at: real)

  /** The times at which requests were sent, in order. */
  function SentTimes(log: seq<Event>): (ts: seq<real>)
    ensures |ts| <= |log|
  {
    if log == [] then []
    else
      var ts := SentTimes(log[..|log| - 1]);
      match log[|log| - 1]
      case Sent(_, at) => ts + [at]
      case Slept(_) => ts
  }

  /** Consecutive entries of `ts` are at least `gap` apart. */
  predicate SpacedBy(ts: seq<real>, gap: real) {
    forall i :: 0 < i < |ts| ==> ts[i] - ts[i - 1] >= gap
  }

  /** The wall clock that `time.time()` reads and `time.sleep` waits on.
      It never runs backwards, and a sleep lasts at least what was asked. */
  class Clock {
    var now: real
    var log: seq<Event>

    constructor(start: real)
      ensures now == start && log == []
    {
      now := start;
      log := [];
    }

    /** `time.sleep(d)`: the scheduler may add `extra` on top of `d`. */
    method Sleep(d: real, extra: real)
      requires d >= 0.0 && extra >= 0.0
      modifies this
      ensures now == old(now) + d + extra
      ensures log == old(log) + [Slept(d)]
    {
      now := now + d + extra;
      log := log + [Slept(d)];
    }

    /** A request leaving at the current time. */
    method Send(q: Query)
      modifies this
      ensures now == old(now)
      ensures log == old(log) + [Sent(q, now)]
    {
      log := log + [Sent(q, now)];
    }
  }

  /** The log entries `_rate_limit` adds: one sleep, or nothing. */
  function PauseLog(elapsed: real, interval: real): seq<Event>
  {
    if elapsed < interval then [Slept(interval - elapsed)] else []
  }

  /** The stamp `_rate_limit` records: the clock after the pause. */
  function NextStamp(last: real, now: real, interval: real, extra: real): real
  {
    if now - last < interval then now + (interval - (now - last)) + extra else now
  }

  /** Whatever the clock reads, the next stamp is at least one interval
      after the previous one and never before the reading. */
  lemma NextStampSpaced(last: real, now: real, interval: real, extra: real)
    requires extra >= 0.0
    ensures NextStamp(last, now, interval, extra) >= last + interval
    ensures NextStamp(last, now, interval, extra) >= now
  {
  }

  /** The stamps of a run of rate-limited requests, each step giving the
      clock's advance since the previous stamp and the oversleep. */
  function Stamps(last: real, interval: real, steps: seq<(real, real)>): (ts: seq<real>)
    ensures |ts| == |steps|
    decreases |steps|
  {
    if steps == [] then []
    else
      var t := NextStamp(last, last + steps[0].0, interval, steps[0].1);
      [t] + Stamps(t, interval, steps[1..])
  }

  /** With a clock that does not run backwards and sleeps that last at least
      what was asked, successive stamps are at least one interval apart. */
  lemma {:induction false} StampsSpaced(last: real, interval: real, steps: seq<(real, real)>)
    requires forall i :: 0 <= i < |steps| ==> steps[i].0 >= 0.0 && steps[i].1 >= 0.0
    ensures SpacedBy(Stamps(last, interval, steps), interval)
    ensures steps != [] ==> Stamps(last, interval, steps)[0] >= last + interval
    decreases |steps|
  {
    if steps != [] {
      var t := NextStamp(last, last + steps[0].0, interval, steps[0].1);
      NextStampSpaced(last, last + steps[0].0, interval, steps[0].1);
      var rest := Stamps(t, interval, steps[1..]);
      StampsSpaced(t, interval, steps[1..]);
      assert Stamps(last, interval, steps) == [t] + rest;
      forall i | 0 < i < |rest| + 1
        ensures ([t] + rest)[i] - ([t] + rest)[i - 1] >= interval
      {
        if i > 1 {
          assert ([t] + rest)[i] == rest[i - 1] && ([t] + rest)[i - 1] == rest[i - 2];
        }
      }
    }
  }

  // ---------------------------------------------------------------------
  // Replies and results

  /** The address record of a reply: string fields by name. */
  type Address = map<string, string>

  /** The decoded body of a 200 reply to a reverse lookup. */
  datatype Record = Record(address: Option<Address>, displayName: Option<string>)

  /** Which `except` clause an exception falls under. */
  datatype Fault = RequestFault | OtherFault

  /** The server's answer to a reverse lookup, or the exception raised
      while sending it or decoding it. */
  datatype Reply =
    | Raised(fault: Fault, message: string)
    | Answered(status: int, record: Record)

  /** The dictionary `reverse_geocode` returns. `Rejected` is the one without
      a `success` key. */
  datatype GeoResult =
    | Located(city: string, state: string, stateCode: string, county: string,
              latitude: real, longitude: real, fullAddress: string, raw: Address)
    | Rejected(error: string, state: string, stateCode: string)
    | Failed(error: string)

  /** The `success` entry of a result, if it has one. */
  function SuccessKey(r: GeoResult): Option<bool>
  {
    match r
    case Located(_, _, _, _, _, _, _, _) => Some(true)
    case Rejected(_, _, _) => None
    case Failed(_) => Some(false)
  }

  const CountySuffix: string := " County"
  const FloridaCode: string := "FL"
  const FloridaWord: string := "florida"
  const NotInFloridaMessage: string := "Location is not in Florida"
  const FailedMessage: string := "Geocoding failed"
  const NetworkPrefix: string := "Network error: "
  const ErrorPrefix: string := "Geocoding error: "
  const CityNotFound: string := "City not found"

  /** The fields tried for the city, in order. */
  const CityKeys: seq<string> := ["city", "town", "village", "municipality"]

  /** A field of the address, with the empty string standing for a missing one;
      a missing field and an empty one are both falsy. */
  function Field(a: Address, k: string): string {
    if k in a then a[k] else ""
  }

  /** Every occurrence of " County" removed. */
  function StripCounty(s: string): (r: string)
    ensures |r| <= |s|
  {
    RemoveAll(s, CountySuffix)
  }

  /** The first non-empty field among `keys`, else `fallback`. */
  function FirstField(a: Address, keys: seq<string>, fallback: string): (c: string)
    ensures (exists k :: 0 <= k < |keys| && Field(a, keys[k]) != "" && c == Field(a, keys[k]) &&
               forall j :: 0 <= j < k ==> Field(a, keys[j]) == "")
            || ((forall k :: 0 <= k < |keys| ==> Field(a, keys[k]) == "") && c == fallback)
  {
    if keys == [] then fallback
    else if Field(a, keys[0]) != "" then Field(a, keys[0])
    else
      var c := FirstField(a, keys[1..], fallback);
      assert forall k :: 0 < k < |keys| ==> keys[k] == keys[1..][k - 1];
      c
  }

  /** The city of the `or` chain: city, town, village, municipality, else
      the county without " County". */
  function CityOf(a: Address): string {
    FirstField(a, CityKeys, StripCounty(Field(a, "county")))
  }

  /** The Florida check: the upper-cased state code is "FL", or the
      lower-cased state name contains "florida". */
  predicate InFlorida(state: string, stateCode: string) {
    Upper(stateCode) == FloridaCode || Contains(Lower(state), FloridaWord)
  }

  /** The address interpretation of a 200 reply carrying an address. */
  function Interpret(a: Address, displayName: Option<string>, latitude: real, longitude: real): GeoResult {
    var state := Field(a, "state");
    var stateCode := Field(a, "state_code");
    if !InFlorida(state, stateCode) then Rejected(NotInFloridaMessage, state, stateCode)
    else
      Located(CityOf(a), state, stateCode, StripCounty(Field(a, "county")), latitude, longitude,
              if displayName.Some? then displayName.value else "", a)
  }

  /** The result of `reverse_geocode` for the server's reply. */
  function ReverseResult(latitude: real, longitude: real, reply: Reply): GeoResult {
    match reply
    case Raised(RequestFault, m) => Failed(NetworkPrefix + m)
    case Raised(OtherFault, m) => Failed(ErrorPrefix + m)
    case Answered(status, record) =>
      if status == 200 && record.address.Some? then
        Interpret(record.address.value, record.displayName, latitude, longitude)
      else Failed(FailedMessage)
  }

  /** One entry of a forward lookup's reply list. */
  datatype Place = Place(lat: real, lon: real, displayName: Option<string>)

  datatype CityReply =
    | CityRaised(fault: Fault, message: string)
    | CityAnswered(status: int, results: seq<Place>)

  /** The dictionary `geocode_city` returns. */
  datatype CityResult =
    | CityFound(latitude: real, longitude: real, displayName: string, city: string)
    | CityFailed(error: string)

  /** The result of `geocode_city` for the server's reply. */
  function CityLookupResult(cityName: string, reply: CityReply): CityResult {
    match reply
    case CityRaised(_, m) => CityFailed(ErrorPrefix + m)
    case CityAnswered(status, results) =>
      if status == 200 && results != [] then
        var p := results[0];
        CityFound(p.lat, p.lon, if p.displayName.Some? then p.displayName.value else "", cityName)
      else CityFailed(CityNotFound)
  }

  /** The search text: the city, the state and "USA", comma separated. */
  function SearchText(cityName: string, state: string): string {
    cityName + ", " + state + ", USA"
  }

  // ---------------------------------------------------------------------
  // What the interpretation promises

  /** A lookup succeeds exactly when a 200 reply carries an address whose
      state code or state name says Florida. */
  lemma ReverseLocatedIff(latitude: real, longitude: real, reply: Reply)
    ensures ReverseResult(latitude, longitude, reply).Located? <==>
            reply.Answered? && reply.status == 200 && reply.record.address.Some? &&
            InFlorida(Field(reply.record.address.value, "state"), Field(reply.record.address.value, "state_code"))
    ensures SuccessKey(ReverseResult(latitude, longitude, reply)) == Some(true) <==>
            ReverseResult(latitude, longitude, reply).Located?
  {
  }

  /** An address outside Florida gives the error result without a
      `success` key, echoing the state fields. */
  lemma ReverseRejectedIff(latitude: real, longitude: real, reply: Reply)
    ensures SuccessKey(ReverseResult(latitude, longitude, reply)) == None <==>
            reply.Answered? && reply.status == 200 && reply.record.address.Some? &&
            !InFlorida(Field(reply.record.address.value, "state"), Field(reply.record.address.value, "state_code"))
    ensures var r := ReverseResult(latitude, longitude, reply);
            r.Rejected? ==> r.error == NotInFloridaMessage &&
                            r.state == Field(reply.record.address.value, "state") &&
                            r.stateCode == Field(reply.record.address.value, "state_code")
  {
  }

  /** The failure results: a non-200 reply or one without an address, a
      request exception, any other exception. */
  lemma ReverseFailures(latitude: real, longitude: real, reply: Reply)
    ensures reply.Answered? && (reply.status != 200 || reply.record.address.None?) ==>
            ReverseResult(latitude, longitude, reply) == Failed(FailedMessage)
    ensures reply.Raised? && reply.fault == RequestFault ==>
            ReverseResult(latitude, longitude, reply) == Failed(NetworkPrefix + reply.message)
    ensures reply.Raised? && reply.fault == OtherFault ==>
            ReverseResult(latitude, longitude, reply) == Failed(ErrorPrefix + reply.message)
    ensures SuccessKey(ReverseResult(latitude, longitude, reply)) == Some(false) <==>
            reply.Raised? || reply.status != 200 || reply.record.address.None?
  {
  }

  /** A successful result reports the chosen city, the stripped county, the
      coordinates asked for and the whole address. */
  lemma ReverseLocatedFields(latitude: real, longitude: real, reply: Reply)
    requires ReverseResult(latitude, longitude, reply).Located?
    ensures var r := ReverseResult(latitude, longitude, reply);
            var a := reply.record.address.value;
            r.city == CityOf(a) && r.county == StripCounty(Field(a, "county")) &&
            r.latitude == latitude && r.longitude == longitude && r.raw == a &&
            r.state == Field(a, "state") && r.stateCode == Field(a, "state_code")
  {
  }

  /** The city field wins whenever it is non-empty. */
  lemma CityFieldFirst(a: Address)
    requires Field(a, "city") != ""
    ensures CityOf(a) == a["city"]
  {
  }

  /** With none of the four city fields set, the county stands in. */
  lemma CityFromCounty(a: Address)
    requires forall k :: 0 <= k < |CityKeys| ==> Field(a, CityKeys[k]) == ""
    ensures CityOf(a) == StripCounty(Field(a, "county"))
  {
  }

  /** The chosen city is always one of the four fields or the stripped county. */
  lemma CityIsAField(a: Address)
    ensures (exists k :: 0 <= k < |CityKeys| && CityOf(a) == Field(a, CityKeys[k]) && CityOf(a) != "") ||
            CityOf(a) == StripCounty(Field(a, "county"))
  {
  }

  /** `name + " County"` loses its suffix when `name` has no " County" of its own. */
  lemma {:induction false} CountySuffixRemoved(name: string)
    requires !Contains(name, CountySuffix)
    ensures StripCounty(name + CountySuffix) == name
    decreases |name|
  {
    var p := CountySuffix;
    var s := name + p;
    if name == [] {
      assert s[..|p|] == p;
      assert s[|p|..] == [];
    } else {
      assert s[1..] == name[1..] + p;
      assert !Contains(name[1..], p) by {
        if Contains(name[1..], p) {
          var i := ContainsWitness(name[1..], p);
          assert name[1..][i..i + |p|] == name[i + 1..i + 1 + |p|];
          ContainsAt(name, p, i + 1);
        }
      }
      CountySuffixRemoved(name[1..]);
      assert s[..|p|] != p by {
        if |name| >= |p| {
          assert s[..|p|] == name[..|p|];
        } else {
          assert s[|name|] == ' ' && p[|name|] != ' ';
        }
      }
      assert StripCounty(s) == [s[0]] + StripCounty(s[1..]);
      assert [s[0]] + name[1..] == name;
    }
  }

  /** Python's str.upper() gives "FL" for exactly the four spellings of fl. */
  lemma FloridaCodeSpellings(stateCode: string)
    ensures Upper(stateCode) == FloridaCode <==>
            |stateCode| == 2 && (stateCode[0] == 'F' || stateCode[0] == 'f') &&
            (stateCode[1] == 'L' || stateCode[1] == 'l')
  {
    if Upper(stateCode) == FloridaCode {
      assert UpperChar(stateCode[0]) == 'F' && UpperChar(stateCode[1]) == 'L';
    }
  }

  /** Lower-casing keeps an occurrence, lower-cased. */
  lemma LowerKeepsOccurrence(s: string, p: string)
    requires Contains(s, p)
    ensures Contains(Lower(s), Lower(p))
  {
    var i := ContainsWitness(s, p);
    forall j | 0 <= j < |p|
      ensures Lower(s)[i..i + |p|][j] == Lower(p)[j]
    {
      assert s[i + j] == s[i..i + |p|][j];
    }
    ContainsAt(Lower(s), Lower(p), i);
  }

  /** A state name spelling Florida in any case passes the check, whatever
      the state code. */
  lemma FloridaByName(state: string, stateCode: string, k: nat)
    requires k + 7 <= |state| && Lower(state[k..k + 7]) == FloridaWord
    ensures InFlorida(state, stateCode)
  {
    forall j | 0 <= j < 7
      ensures Lower(state)[k..k + 7][j] == FloridaWord[j]
    {
      assert state[k..k + 7][j] == state[k + j];
      assert Lower(state[k..k + 7])[j] == LowerChar(state[k + j]);
    }
    ContainsAt(Lower(state), FloridaWord, k);
  }

  /** The forward lookup succeeds exactly on a 200 reply with at least one
      place, and then reports the first place under the name asked for. */
  lemma CityLookupFoundIff(cityName: string, reply: CityReply)
    ensures CityLookupResult(cityName, reply).CityFound? <==>
            reply.CityAnswered? && reply.status == 200 && reply.results != []
    ensures CityLookupResult(cityName, reply).CityFound? ==>
            var r := CityLookupResult(cityName, reply);
            r.latitude == reply.results[0].lat && r.longitude == reply.results[0].lon && r.city == cityName
  {
  }

  /** Every exception of the forward lookup, network ones included, is
      reported as a geocoding error. */
  lemma CityLookupFailures(cityName: string, reply: CityReply)
    ensures reply.CityRaised? ==> CityLookupResult(cityName, reply) == CityFailed(ErrorPrefix + reply.message)
    ensures reply.CityAnswered? && (reply.status != 200 || reply.results == []) ==>
            CityLookupResult(cityName, reply) == CityFailed(CityNotFound)
  {
  }

  // ---------------------------------------------------------------------
  // The service

  class GeocodingService {
    var lastRequestTime: real
    const minRequestInterval: real

    constructor()
      ensures lastRequestTime == 0.0 && minRequestInterval == 1.0
    {
      lastRequestTime := 0.0;
      minRequestInterval := 1.0;
    }

    /** Every request on the clock's log is at least one interval after the
        previous one, and none is later than the last stamp. */
    predicate Coherent(clock: Clock)
      reads this, clock
    {
      var ts := SentTimes(clock.log);
      SpacedBy(ts, minRequestInterval) && (ts != [] ==> ts[|ts| - 1] <= lastRequestTime)
    }

    /** `_rate_limit`: sleep for what is left of the interval, then stamp. */
    method RateLimit(clock: Clock, extra: real)
      requires extra >= 0.0
      modifies this, clock
      ensures old(clock.now) - old(lastRequestTime) < minRequestInterval ==>
              clock.log == old(clock.log) + [Slept(minRequestInterval - (old(clock.now) - old(lastRequestTime)))]
      ensures old(clock.now) - old(lastRequestTime) >= minRequestInterval ==>
              clock.log == old(clock.log) && clock.now == old(clock.now)
      ensures clock.now == NextStamp(old(lastRequestTime), old(clock.now), minRequestInterval, extra)
      ensures lastRequestTime == clock.now
      ensures lastRequestTime >= old(lastRequestTime) + minRequestInterval
      ensures clock.now >= old(clock.now)
    {
      var currentTime := clock.now;
      var timeSinceLast := currentTime - lastRequestTime;
      if timeSinceLast < minRequestInterval {
        clock.Sleep(minRequestInterval - timeSinceLast, extra);
      }
      lastRequestTime := clock.now;
    }

    /** `reverse_geocode`: rate limit, send the lookup, read the reply. */
    method ReverseGeocode(clock: Clock, latitude: real, longitude: real, reply: Reply, extra: real)
      returns (r: GeoResult)
      requires extra >= 0.0 && Coherent(clock)
      modifies this, clock
      ensures r == ReverseResult(latitude, longitude, reply)
      ensures clock.log == old(clock.log)
                           + PauseLog(old(clock.now) - old(lastRequestTime), minRequestInterval)
                           + [Sent(ReverseQuery(latitude, longitude), lastRequestTime)]
      ensures lastRequestTime >= old(lastRequestTime) + minRequestInterval
      ensures Coherent(clock)
    {
      ghost var before := clock.log;
      RateLimit(clock, extra);
      ghost var paused := clock.log;
      clock.Send(ReverseQuery(latitude, longitude));
      SentAfterPause(before, paused, clock.log, ReverseQuery(latitude, longitude), lastRequestTime, minRequestInterval);
      r := ReverseResult(latitude, longitude, reply);
    }

    /** `geocode_city`: rate limit, send the search, read the reply. */
    method GeocodeCity(clock: Clock, cityName: string, state: string, reply: CityReply, extra: real)
      returns (r: CityResult)
      requires extra >= 0.0 && Coherent(clock)
      modifies this, clock
      ensures r == CityLookupResult(cityName, reply)
      ensures clock.log == old(clock.log)
                           + PauseLog(old(clock.now) - old(lastRequestTime), minRequestInterval)
                           + [Sent(SearchQuery(SearchText(cityName, state)), lastRequestTime)]
      ensures lastRequestTime >= old(lastRequestTime) + minRequestInterval
      ensures Coherent(clock)
    {
      ghost var before := clock.log;
      RateLimit(clock, extra);
      ghost var paused := clock.log;
      var query := SearchQuery(SearchText(cityName, state));
      clock.Send(query);
      SentAfterPause(before, paused, clock.log, query, lastRequestTime, minRequestInterval);
      r := CityLookupResult(cityName, reply);
    }
  }

  /** A clock with nothing logged yet meets the service's invariant, so a
      fresh clock and a fresh service can make the first lookup. */
  lemma FreshCoherent(service: GeocodingService, clock: Clock)
    requires clock.log == []
    ensures service.Coherent(clock)
  {
  }

  /** A request sent at a stamp one interval after the previous requests
      keeps the log spaced. */
  lemma SentAfterPause(before: seq<Event>, paused: seq<Event>, after: seq<Event>, q: Query, stamp: real, gap: real)
    requires SpacedBy(SentTimes(before), gap)
    requires SentTimes(before) != [] ==> SentTimes(before)[|SentTimes(before)| - 1] + gap <= stamp
    requires paused == before || (|paused| == |before| + 1 && paused[..|before|] == before && paused[|before|].Slept?)
    requires after == paused + [Sent(q, stamp)]
    ensures SentTimes(after) == SentTimes(before) + [stamp]
    ensures SpacedBy(SentTimes(after), gap)
  {
    assert after[..|after| - 1] == paused;
    if paused != before {
      assert paused[..|paused| - 1] == before;
    }
  }
}
