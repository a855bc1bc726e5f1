/** The two HTTP endpoints of the proxy: the query validators of
    `/get_forecast`, the cache key each endpoint builds, and what each
    endpoint answers once the cached fetch is done. */
module Endpoints {
  import opened Results
  import opened Forecast
  import opened ForecastCaching

  /** `check_longitude`: the value itself when it lies in -180..180, both
      bounds included; ValueError otherwise. */
  function CheckLongitude(pos: real): (r: Result<real>)
    ensures r.Success? <==> -180.0 <= pos <= 180.0
    ensures r.Success? ==> r.value == pos
    ensures r.Failure? ==> r.error == ValueError
  {
    if -180.0 <= pos <= 180.0 then Success(pos) else Failure(ValueError)
  }

  /** `check_latitude`: the value itself when it lies in -90..90, both bounds
      included; ValueError otherwise. */
  function CheckLatitude(pos: real): (r: Result<real>)
    ensures r.Success? <==> -90.0 <= pos <= 90.0
    ensures r.Success? ==> r.value == pos
    ensures r.Failure? ==> r.error == ValueError
  {
    if -90.0 <= pos <= 90.0 then Success(pos) else Failure(ValueError)
  }

  /** The cache key of `/get_forecast?lat=..&lon=..`: the query values pass
      through the validators after-validation; when either refuses, the
      request is invalid (a ValidationError, answered with status 422) and
      the handler is not called; otherwise the key holds the validated
      values. */
  function QueryKey(lat: real, lon: real): (r: Result<Coordinates>)
    ensures r.Success? <==> CheckLatitude(lat).Success? && CheckLongitude(lon).Success?
    ensures r.Success? ==> r.value == Coordinates(CheckLatitude(lat).value, CheckLongitude(lon).value)
    ensures r.Failure? ==> r.error == ValidationError
  {
    var la := CheckLatitude(lat);
    var lo := CheckLongitude(lon);
    if la.Failure? || lo.Failure? then Failure(ValidationError)
    else Success(Coordinates(la.value, lo.value))
  }

  /** The key of `/get_forecast` is the pair of query values itself exactly
      when both lie in range, and two in-range queries share a cache entry
      exactly when they ask for the same point. */
  lemma QueryKeyIsQuery(lat: real, lon: real, lat2: real, lon2: real)
    ensures QueryKey(lat, lon) == Success(Coordinates(lat, lon))
            <==> -90.0 <= lat <= 90.0 && -180.0 <= lon <= 180.0
    ensures QueryKey(lat, lon).Success? && QueryKey(lat2, lon2).Success? ==>
              (QueryKey(lat, lon) == QueryKey(lat2, lon2) <==> lat == lat2 && lon == lon2)
  {
  }

  /** The key `/get_forecast_belgrade` uses whatever the request. */
  lemma BelgradeKey()
    ensures BelgradeCoordinates.lat == 44.81 && BelgradeCoordinates.lon == 20.46
    ensures QueryKey(44.81, 20.46) == Success(BelgradeCoordinates)
  {
  }

  /** What a client sees: status 200 with the list, 422 for a query the
      validators refuse, or 500 when the handler raises. */
  datatype Response =
    | Ok(forecasts: seq<DayTempForecast>)
    | UnprocessableEntity
    | InternalServerError(error: Exception)

  function Render(r: Result<seq<DayTempForecast>>): (resp: Response)
    ensures r.Success? <==> resp.Ok?
    ensures r.Success? ==> resp == Ok(r.value)
    ensures r.Failure? ==> resp == InternalServerError(r.error)
  {
    match r
    case Success(forecasts) => Ok(forecasts)
    case Failure(error) => InternalServerError(error)
  }

  /** `app_get_forecast`: validate the query, build the key, answer with
      the cached fetch for that key. */
  method AppGetForecast(cache: ForecastCache, client: HttpClient, lat: real, lon: real, now: real, later: real)
    returns (resp: Response)
    requires cache.Valid() && now <= later
    modifies cache, client
    ensures cache.Valid()
    ensures QueryKey(lat, lon).Failure? ==>
      && resp == UnprocessableEntity
      && cache.entries == old(cache.entries) && client.requests == old(client.requests)
    ensures QueryKey(lat, lon).Success? ==> Served(cache, client, Coordinates(lat, lon), now, later, resp)
  {
    var key := QueryKey(lat, lon);
    if key.Failure? {
      return UnprocessableEntity;
    }
    var r := cache.GetForecasts(key.value, client, now, later);
    resp := Render(r);
  }

  /** `app_get_forecast_belgrade`: the cached fetch for the fixed key. */
  method AppGetForecastBelgrade(cache: ForecastCache, client: HttpClient, now: real, later: real)
    returns (resp: Response)
    requires cache.Valid() && now <= later
    modifies cache, client
    ensures cache.Valid()
    ensures Served(cache, client, BelgradeCoordinates, now, later, resp)
  {
    var r := cache.GetForecasts(BelgradeCoordinates, client, now, later);
    resp := Render(r);
  }

  /** The answer of the cached fetch for key `c` looked up at `now`: the
      stored list, with no request and no change to the cache, when the entry
      is alive; otherwise the rendered result of exactly one new request for
      `c`, stored at `later` when it is a list and leaving the cache as it
      was when it raised. */
  twostate predicate Served(cache: ForecastCache, client: HttpClient, c: Coordinates, now: real, later: real,
                            resp: Response)
    reads cache, client
  {
    && (old(cache.Contains(c, now)) ==>
          && resp == Ok(old(cache.entries)[c].forecasts)
          && client.requests == old(client.requests) && cache.entries == old(cache.entries))
    && (!old(cache.Contains(c, now)) ==>
          && client.requests == old(client.requests) + [c]
          && resp == Render(Fetched(client.respond(c, |old(client.requests)|)))
          && (resp.Ok? ==> cache.Stored(c, resp.forecasts, later))
          && (!resp.Ok? ==> cache.entries == old(cache.entries)))
  }

  /** Two requests for the same key, the second `t1 - t0` seconds after the
      first, on a cache that does not hold the key: the second request is
      served from the cache, without a request to the provider and with the
      same answer, exactly when it comes less than 60 seconds later and the
      first fetch did not raise. A failed request leaves the empty list,
      which is cached like any other. */
  method RepeatedRequest(cache: ForecastCache, client: HttpClient, c: Coordinates, t0: real, t1: real)
    returns (first: Result<seq<DayTempForecast>>, second: Result<seq<DayTempForecast>>)
    requires cache.Valid() && !cache.Contains(c, t0) && t0 <= t1
    modifies cache, client
    ensures first == Fetched(client.respond(c, |old(client.requests)|))
    ensures client.respond(c, |old(client.requests)|).Failed? ==> first == Success([])
    ensures first.Success? && t1 < t0 + Ttl ==>
      second == first && client.requests == old(client.requests) + [c]
    ensures first.Failure? || t0 + Ttl <= t1 ==>
      && client.requests == old(client.requests) + [c, c]
      && second == Fetched(client.respond(c, |old(client.requests)| + 1))
  {
    first := cache.GetForecasts(c, client, t0, t0);
    ghost var between := client.requests;
    assert between == old(client.requests) + [c];
    second := cache.GetForecasts(c, client, t1, t1);
    if !(first.Success? && t1 < t0 + Ttl) {
      assert client.requests == between + [c];
    }
  }

  /** A cached fetch for key `b` leaves the live entry of every other key
      `a` in place, unchanged, as long as the cache is not full of live
      entries. */
  method OtherKeyRequest(cache: ForecastCache, client: HttpClient, b: Coordinates, now: real, later: real,
                         ghost a: Coordinates)
    returns (r: Result<seq<DayTempForecast>>)
    requires cache.Valid() && now <= later && a != b
    requires cache.Contains(a, later) && |Live(cache.entries, later)| < MaxSize
    modifies cache, client
    ensures cache.Valid()
    ensures a in cache.entries && cache.entries[a] == old(cache.entries)[a]
    ensures !old(cache.Contains(b, now)) ==>
      client.requests == old(client.requests) + [b] && r == Fetched(client.respond(b, |old(client.requests)|))
  {
    r := cache.GetForecasts(b, client, now, later);
    if !old(cache.Contains(b, now)) && r.Success? {
      assert a in Live(old(cache.entries), later);
    }
  }

  /** A cached fetch for key `b` does not bring back another key `a` that is
      not alive: no lookup for `a` from then on is a hit. */
  method OtherKeyAfterExpiry(cache: ForecastCache, client: HttpClient, b: Coordinates, now: real, later: real,
                             ghost a: Coordinates)
    returns (r: Result<seq<DayTempForecast>>)
    requires cache.Valid() && now <= later && a != b && !cache.Contains(a, later)
    modifies cache, client
    ensures cache.Valid()
    ensures a !in cache.entries || cache.entries[a].expires <= later
    ensures !old(cache.Contains(b, now)) ==>
      client.requests == old(client.requests) + [b] && r == Fetched(client.respond(b, |old(client.requests)|))
  {
    r := cache.GetForecasts(b, client, now, later);
  }

  /** A cached fetch on an empty cache: one request to the provider, and
      the cache then holds the answer under `c` alone when it is a list and
      stays empty when it raised. */
  method FreshRequest(cache: ForecastCache, client: HttpClient, c: Coordinates, now: real)
    returns (r: Result<seq<DayTempForecast>>)
    requires cache.Valid() && cache.entries == map[]
    modifies cache, client
    ensures cache.Valid()
    ensures client.requests == old(client.requests) + [c]
    ensures r == Fetched(client.respond(c, |old(client.requests)|))
    ensures cache.entries == if r.Success? then map[c := Entry(r.value, now + Ttl)] else map[]
  {
    r := cache.GetForecasts(c, client, now, now);
  }

  /** A request for `a`, then one for another key `b`, on a fresh cache:
      each is sent to the provider, and afterwards a lookup for `a` at any
      time from the second request on is a hit exactly when it comes less
      than 60 seconds after the first request and that one did not raise. The
      request for `b` in between does not push `a` out. */
  method InterleavedRequests(cache: ForecastCache, client: HttpClient, a: Coordinates, b: Coordinates,
                             t0: real, t1: real)
    returns (first: Result<seq<DayTempForecast>>, second: Result<seq<DayTempForecast>>)
    requires cache.Valid() && cache.entries == map[] && a != b && t0 <= t1
    modifies cache, client
    ensures cache.Valid()
    ensures client.requests == old(client.requests) + [a, b]
    ensures first == Fetched(client.respond(a, |old(client.requests)|))
    ensures second == Fetched(client.respond(b, |old(client.requests)| + 1))
    ensures first.Success? && t1 < t0 + Ttl ==> a in cache.entries && cache.entries[a] == Entry(first.value, t0 + Ttl)
    ensures first.Failure? || t0 + Ttl <= t1 ==> a !in cache.entries || cache.entries[a].expires <= t1
  {
    first := FreshRequest(cache, client, a, t0);
    ghost var requests1 := client.requests;
    assert !cache.Contains(b, t1);
    if first.Success? && t1 < t0 + Ttl {
      second := OtherKeyRequest(cache, client, b, t1, t1, a);
    } else {
      second := OtherKeyAfterExpiry(cache, client, b, t1, t1, a);
    }
    assert client.requests == requests1 + [b] && requests1 == old(client.requests) + [a];
    assert requests1 + [b] == old(client.requests) + [a, b];
  }
}
