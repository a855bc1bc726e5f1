/** The cached fetch `get_forecasts`: a time-to-live cache of 1024 entries
    that keeps each result for 60 seconds, keyed by the coordinates alone, in
    front of one request to the forecast provider. */
module ForecastCaching {
  import opened Results
  import opened Json
  import opened Forecast

  /** What `request_external_forecast` comes back with: the decoded body, or
      any exception raised by the request, by `raise_for_status` or by the
      decoding of the body. */
  datatype Reply = Failed | Received(body: Json)

  /** The HTTP client, seen from the cache: the provider's answer to the
      `index`-th request is `respond(coordinates, index)`, and the client
      records every request it is asked to send. */
  class HttpClient {
    const respond: (Coordinates, nat) -> Reply
    var requests: seq<Coordinates>

    constructor (respond: (Coordinates, nat) -> Reply)
      ensures this.respond == respond && requests == []
    {
      this.respond := respond;
      requests := [];
    }

    /** One GET to the provider for `coordinates`. */
    method Get(coordinates: Coordinates) returns (reply: Reply)
      modifies this
      ensures requests == old(requests) + [coordinates]
      ensures reply == respond(coordinates, |old(requests)|)
    {
      reply := respond(coordinates, |requests|);
      requests := requests + [coordinates];
    }
  }

  /** The body of `get_forecasts` once the reply is in: a failed request
      yields the empty list; a body yields its daily slices, or raises. */
  function Fetched(reply: Reply): (r: Result<seq<DayTempForecast>>)
    ensures r.Success? ==> forall f :: f in r.value ==> FilterDayTempForecast(f)
    ensures reply.Failed? ==> r == Success([])
    ensures reply.Received? ==>
      (r.Success? <==> FormatTimeseries(reply.body).Success? &&
                       forall f :: f in FormatTimeseries(reply.body).value ==> AstimezoneDefined(f.timestamp))
    ensures reply.Received? && r.Success? ==> r.value == DailySlices(FormatTimeseries(reply.body).value)
  {
    match reply
    case Failed => Success([])
    case Received(body) =>
      SelectDailyPointsIsFilter(body);
      SelectDailyPoints(body)
  }

  /** The time to live, in seconds, and the capacity of the cache. */
  const Ttl: real := 60.0
  const MaxSize := 1024

  /** A stored result and the clock reading at which it stops being served. */
  datatype Entry = Entry(forecasts: seq<DayTempForecast>, expires: real)

  /** The entries still alive at time `now`: those whose expiry lies ahead. */
  function Live(entries: map<Coordinates, Entry>, now: real): (live: map<Coordinates, Entry>)
    ensures forall c :: c in live <==> c in entries && now < entries[c].expires
    ensures forall c :: c in live ==> live[c] == entries[c]
    ensures |live| <= |entries|
  {
    var live := map c | c in entries && now < entries[c].expires :: entries[c];
    SubsetCardinality(live.Keys, entries.Keys);
    live
  }

  lemma {:induction false} SubsetCardinality<T>(a: set<T>, b: set<T>)
    requires a <= b
    ensures |a| <= |b|
    decreases |b|
  {
    if a != {} {
      var x :| x in a;
      SubsetCardinality(a - {x}, b - {x});
    }
  }

  class ForecastCache {
    var entries: map<Coordinates, Entry>

    /** The cache never holds more than its capacity, and what it holds are
        daily slices. */
    predicate Valid()
      reads this
    {
      && |entries| <= MaxSize
      && forall c :: c in entries ==> forall f :: f in entries[c].forecasts ==> FilterDayTempForecast(f)
    }

    constructor ()
      ensures Valid() && entries == map[]
    {
      entries := map[];
    }

    /** Whether a lookup for `c` at time `now` is served from the cache. */
    predicate Contains(c: Coordinates, now: real)
      reads this
    {
      c in entries && now < entries[c].expires
    }

    /** The entries after `cache[c] = forecasts` at time `t`, against those
        before: the result is stored until `t + 60`; every other entry that
        remains was alive at `t` and is unchanged; every live entry remains
        unless the cache was full of live entries other than `c`; and at most
        one live entry is gone. */
    twostate predicate Stored(c: Coordinates, forecasts: seq<DayTempForecast>, t: real)
      reads this
    {
      var live := Live(old(entries), t);
      && c in entries && entries[c] == Entry(forecasts, t + Ttl)
      && (forall k :: k in entries && k != c ==> k in live && entries[k] == old(entries)[k])
      && (|live| < MaxSize || c in live ==> forall k :: k in live ==> k in entries)
      && (forall k, j :: k in live && k !in entries && j in live && j !in entries ==> k == j)
    }

    /** `cache[c] = forecasts` at time `now`: expired entries are dropped
        first; when the live entries fill the cache, one of them, other than
        `c`, is evicted; then the result is stored until `now + 60`. */
    method Store(c: Coordinates, forecasts: seq<DayTempForecast>, now: real)
      requires Valid() && forall f :: f in forecasts ==> FilterDayTempForecast(f)
      modifies this
      ensures Valid()
      ensures Stored(c, forecasts, now)
    {
      var live := Live(entries, now);
      if c !in live && |live| >= MaxSize {
        var victim :| victim in live;
        SubsetCardinality((live - {victim}).Keys, live.Keys - {victim});
        live := live - {victim};
      }
      entries := live[c := Entry(forecasts, now + Ttl)];
    }

    /** `get_forecasts(c, client)` behind the cache decorator. The lookup
        reads the clock at `now`; the store, after the request, at `later`
        (assumed of the decorator).
        A live entry is returned without a request. Otherwise one request is
        sent; its result is stored and returned, as Store leaves it, or, when
        it raises, the exception propagates and nothing is stored. */
    method GetForecasts(c: Coordinates, client: HttpClient, now: real, later: real)
      returns (r: Result<seq<DayTempForecast>>)
      requires Valid() && now <= later
      modifies this, client
      ensures Valid()
      ensures old(Contains(c, now)) ==>
        && r == Success(old(entries)[c].forecasts)
        && entries == old(entries) && client.requests == old(client.requests)
      ensures !old(Contains(c, now)) ==>
        && client.requests == old(client.requests) + [c]
        && r == Fetched(client.respond(c, |old(client.requests)|))
      ensures !old(Contains(c, now)) && r.Success? ==> Stored(c, r.value, later)
      ensures r.Failure? ==> entries == old(entries)
      ensures r.Success? ==> forall f :: f in r.value ==> FilterDayTempForecast(f)
    {
      if Contains(c, now) {
        return Success(entries[c].forecasts);
      }
      var reply := client.Get(c);
      r := Fetched(reply);
      if r.Success? {
        Store(c, r.value, later);
      }
    }
  }
}
