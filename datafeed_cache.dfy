/**
 * The datafeed cache: a single slot holding the most recent fetch of the VATSIM feed
 * (its timestamp and its outcome, success or error). `GetAtis` refreshes the slot when
 * it is stale, replacing it wholesale, and then answers from whatever the slot holds.
 *
 * Clock readings and the outcome of the feed request are parameters; times are
 * nanoseconds of a monotonic clock.
 */
module DatafeedCache {
  import opened Wrappers
  import opened Feed
  import opened AtisResolver

  /** `Duration::from_secs(30)`, in nanoseconds. */
  const StaleAfter: nat := 30_000_000_000

  const CouldNotRetrieve: string := "Could not retrieve datafeed"

  /** One fetch of the feed: when it completed, and what it returned. */
  datatype VatsimDataFetch = VatsimDataFetch(fetchedTime: int, data: Result<V3ResponseData, FetchError>)

  /** `Instant::elapsed`: time since `since`, saturating at zero. */
  function Elapsed(since: int, now: int): (d: nat)
    ensures since + d >= now
    ensures d == 0 || since + d == now
  {
    if now <= since then 0 else now - since
  }

  /** `datafeed_is_stale`: an empty slot is stale; a filled one once strictly more than
      30 seconds have elapsed since its fetch, whether the fetch succeeded or failed. */
  function IsStale(slot: Option<VatsimDataFetch>, now: int): (stale: bool)
    ensures slot.None? ==> stale
    ensures slot.Some? ==> (stale <==> now - slot.value.fetchedTime > StaleAfter)
  {
    match slot
    case None => true
    case Some(fetch) => Elapsed(fetch.fetchedTime, now) > StaleAfter
  }

  /** The boundary is strict: an entry exactly 30 s old is still fresh, one a nanosecond
      older is stale, and an entry is fresh at every moment up to then. */
  lemma StaleBoundary(fetch: VatsimDataFetch, now: int)
    ensures !IsStale(Some(fetch), fetch.fetchedTime + StaleAfter)
    ensures IsStale(Some(fetch), fetch.fetchedTime + StaleAfter + 1)
    ensures IsStale(Some(fetch), now) <==> now > fetch.fetchedTime + StaleAfter
  {
  }

  /** Once stale, a slot stays stale as the clock advances. */
  lemma StaleIsMonotone(slot: Option<VatsimDataFetch>, now: int, later: int)
    requires now <= later && IsStale(slot, now)
    ensures IsStale(slot, later)
  {
  }

  /** The answer served from a filled slot: the cached error becomes the generic message,
      a cached snapshot is resolved for `icaoId`. */
  function Serve(fetch: VatsimDataFetch, icaoId: string): (r: Result<FetchAtisResponse, string>)
    ensures fetch.data.Failure? <==> r == Failure(CouldNotRetrieve)
    ensures fetch.data.Success? ==> r == Success(ResolveAtis(fetch.data.value, icaoId))
  {
    match fetch.data
    case Failure(_) => Failure(CouldNotRetrieve)
    case Success(datafeed) => Success(ResolveAtis(datafeed, icaoId))
  }

  /** The application state that owns the cache slot. */
  class AppState {
    /** `latest_vatsim_data`: the most recent fetch, if any. */
    var latestVatsimData: Option<VatsimDataFetch>
    /** How many times the feed client has been asked for data. */
    ghost var fetchCount: nat

    /** `AppState::new`: the slot starts empty. */
    constructor ()
      ensures latestVatsimData == None && fetchCount == 0
    {
      latestVatsimData := None;
      fetchCount := 0;
    }

    /** `datafeed_is_stale`, reading the slot. */
    method DatafeedIsStale(now: int) returns (stale: bool)
      ensures stale == IsStale(latestVatsimData, now)
    {
      stale := IsStale(latestVatsimData, now);
    }

    /** `get_atis`. `now` is the clock when staleness is checked; `fetchedTime` is the
        clock when the refresh has completed (`VatsimDataFetch::new` runs after the request
        is awaited); `fetched` is what the feed client returns if it is asked. */
    method GetAtis(icaoId: string, now: int, fetchedTime: int, fetched: Result<V3ResponseData, FetchError>)
      returns (r: Result<FetchAtisResponse, string>)
      modifies this
      ensures old(IsStale(latestVatsimData, now)) ==>
                latestVatsimData == Some(VatsimDataFetch(fetchedTime, fetched)) &&
                fetchCount == old(fetchCount) + 1
      ensures !old(IsStale(latestVatsimData, now)) ==>
                latestVatsimData == old(latestVatsimData) && fetchCount == old(fetchCount)
      ensures latestVatsimData.Some? && r == Serve(latestVatsimData.value, icaoId)
    {
      var stale := DatafeedIsStale(now);
      if stale {
        fetchCount := fetchCount + 1;
        latestVatsimData := Some(VatsimDataFetch(fetchedTime, fetched));
      }
      match latestVatsimData
      case Some(fetch) =>
        r := Serve(fetch, icaoId);
      case None =>
        r := Failure(CouldNotRetrieve);
    }
  }

  /** A failed refresh is cached: every request within the window that follows gets the
      same error, and the feed client is asked only once, whatever it would now return. */
  method FailedRefreshIsCached(state: AppState, e: FetchError,
                               icao1: string, now1: int, done1: int,
                               icao2: string, now2: int, done2: int, later: Result<V3ResponseData, FetchError>)
    returns (r1: Result<FetchAtisResponse, string>, r2: Result<FetchAtisResponse, string>)
    requires IsStale(state.latestVatsimData, now1)
    requires now2 <= done1 + StaleAfter
    modifies state
    ensures r1 == Failure(CouldNotRetrieve) && r2 == Failure(CouldNotRetrieve)
    ensures state.latestVatsimData == Some(VatsimDataFetch(done1, Failure(e)))
    ensures state.fetchCount == old(state.fetchCount) + 1
  {
    r1 := state.GetAtis(icao1, now1, done1, Failure(e));
    r2 := state.GetAtis(icao2, now2, done2, later);
  }

  /** Once the window has passed, the next request asks the feed again and is answered
      from the new outcome. */
  method RefreshAfterWindow(state: AppState, icao: string, now1: int, done1: int, first: Result<V3ResponseData, FetchError>,
                            now2: int, done2: int, second: Result<V3ResponseData, FetchError>)
    returns (r2: Result<FetchAtisResponse, string>)
    requires IsStale(state.latestVatsimData, now1)
    requires now2 > done1 + StaleAfter
    modifies state
    ensures state.latestVatsimData == Some(VatsimDataFetch(done2, second))
    ensures r2 == Serve(VatsimDataFetch(done2, second), icao)
    ensures state.fetchCount == old(state.fetchCount) + 2
  {
    var r1 := state.GetAtis(icao, now1, done1, first);
    r2 := state.GetAtis(icao, now2, done2, second);
  }
}
