/** The reading service: the daily-reading request, its two-key cache in the local store, the
    calendar-day freshness test and explicit invalidation. */
module Api {
  import opened Wrappers
  import opened Text
  import opened Clock
  import opened Storage

  /** The store key of the last reading (its JSON text). */
  const READING_DATA: string := "astro_daily_reading"
  /** The store key of the time of the last successful fetch. */
  const LAST_UPDATE: string := "astro_last_update"
  /** The store key under which the application keeps the user's profile. */
  const BIRTH_DATE: string := "astro_app_birth_date"

  /** The endpoint of the reading service. */
  const API_BASE_URL: string := "http://localhost:3001/api"

  datatype BirthTime = BirthTime(hour: int, minute: int)

  datatype UserProfile = UserProfile(
    birthYear: int,
    birthMonth: int,
    birthDay: int,
    birthTime: Option<BirthTime>,
    gender: Option<string>,
    birthPlace: Option<string>,
    relationshipStatus: Option<string>)

  /** A reading, carried as its JSON text; a JSON text is never empty. */
  type ReadingJson = s: string | s != "" witness "{}"

  /** What the GET request came back with: a 2xx response whose body has a `success` flag and a
      `data` reading, a response with another status and a body text, or no response at all
      (`fetch` rejects, with the message of its error, when the server cannot be reached). */
  datatype FetchOutcome =
    | Ok(success: bool, data: ReadingJson)
    | NotOk(status: int, body: string)
    | Rejected(message: string)

  /** The errors `fetchDailyReading` throws: `API error (<status>): <body>`,
      `API response indicates failure`, and the rejection of `fetch` passed on as it is. */
  datatype ApiError = HttpStatus(status: int, body: string) | Unsuccessful | NoResponse(message: string)

  /** `shouldRefreshReading(lastUpdateTime)` read against the clock `now`: a new day, month or
      year, or an unparseable text. An invalid date's getters give `NaN`, which differs from
      everything, so the day test already fires for it; the source's trailing `isNaN` test repeats
      it and is not written here. */
  function ShouldRefreshReading(lastUpdateTime: string, now: Date): bool {
    match ParseTimestamp(lastUpdateTime)
    case Invalid => true
    case Valid(d) => d.day != now.day || d.month != now.month || d.year != now.year
  }

  /** A timestamp is fresh exactly when it parses to today's date. */
  lemma FreshIff(lastUpdateTime: string, now: Date)
    ensures !ShouldRefreshReading(lastUpdateTime, now) <==> ParseTimestamp(lastUpdateTime) == Valid(now)
  {
  }

  /** An unparseable timestamp always asks for a refresh. */
  lemma InvalidTimestampRefreshes(lastUpdateTime: string, now: Date)
    requires ParseTimestamp(lastUpdateTime) == Invalid
    ensures ShouldRefreshReading(lastUpdateTime, now)
  {
  }

  /** The timestamp written for `now` is fresh for the rest of that local day. */
  lemma WrittenTimestampIsFresh(now: Date)
    requires IsClockDate(now)
    ensures !ShouldRefreshReading(FormatTimestamp(now), now)
  {
    ParseFormat(now);
  }

  /** The query parameters of the reading request, in the order they are appended. The birth
      minute is not sent. */
  function QueryParams(p: UserProfile): seq<(string, string)> {
    [("birthYear", IntToString(p.birthYear)),
     ("birthMonth", IntToString(p.birthMonth)),
     ("birthDay", IntToString(p.birthDay))]
    + (if p.birthTime.Some? then [("birthHour", IntToString(p.birthTime.value.hour))] else [])
  }

  /** The parameters joined as `key=value&...`; their keys and values are letters, digits and
      `-`, which form encoding leaves as they are. */
  function QueryString(params: seq<(string, string)>): string {
    if params == [] then ""
    else if |params| == 1 then params[0].0 + "=" + params[0].1
    else params[0].0 + "=" + params[0].1 + "&" + QueryString(params[1..])
  }

  /** The URL the reading is fetched from. */
  function ReadingUrl(p: UserProfile): string {
    API_BASE_URL + "/daily-reading?" + QueryString(QueryParams(p))
  }

  /** The keys of the request, in order: year, month and day, then the hour only when a birth
      time is present; no minute is ever sent. */
  lemma QueryKeys(p: UserProfile)
    ensures var q := QueryParams(p);
      && |q| == (if p.birthTime.Some? then 4 else 3)
      && q[0].0 == "birthYear" && q[1].0 == "birthMonth" && q[2].0 == "birthDay"
      && (p.birthTime.Some? ==> q[3].0 == "birthHour")
      && forall i :: 0 <= i < |q| ==> q[i].0 != "birthMinute"
  {
  }

  /** Each value of the request reads back as the profile's number. */
  lemma QueryValues(p: UserProfile)
    ensures var q := QueryParams(p);
      && ParseInt(q[0].1) == Some(p.birthYear)
      && ParseInt(q[1].1) == Some(p.birthMonth)
      && ParseInt(q[2].1) == Some(p.birthDay)
      && (p.birthTime.Some? ==> ParseInt(q[3].1) == Some(p.birthTime.value.hour))
  {
    var q := QueryParams(p);
    assert q[0].1 == IntToString(p.birthYear);
    assert q[1].1 == IntToString(p.birthMonth);
    assert q[2].1 == IntToString(p.birthDay);
    ParseIntOfIntToString(p.birthYear);
    ParseIntOfIntToString(p.birthMonth);
    ParseIntOfIntToString(p.birthDay);
    if p.birthTime.Some? {
      assert q[3].1 == IntToString(p.birthTime.value.hour);
      ParseIntOfIntToString(p.birthTime.value.hour);
    }
  }

  /** The fetch step alone: what it returns and what the store holds afterwards. */
  datatype FetchStep = FetchStep(result: Result<ReadingJson, ApiError>, items: map<string, string>)

  /** `fetchDailyReading`: a failed response throws before the store is touched; a successful
      one writes the reading and the time of `now`, in that order. */
  function FetchSpec(items: map<string, string>, now: Date, outcome: FetchOutcome): FetchStep
    requires IsClockDate(now)
  {
    match outcome
    case NotOk(status, body) => FetchStep(Failure(HttpStatus(status, body)), items)
    case Rejected(message) => FetchStep(Failure(NoResponse(message)), items)
    case Ok(success, data) =>
      if !success then FetchStep(Failure(Unsuccessful), items)
      else FetchStep(Success(data), items[READING_DATA := data][LAST_UPDATE := FormatTimestamp(now)])
  }

  /** One call of `getDailyReading`: its result, the store afterwards, and the URL it fetched
      (`None` when it answered from the cache). */
  datatype DailyStep = DailyStep(result: Result<ReadingJson, ApiError>, items: map<string, string>, request: Option<string>)

  /** The cache is usable: a truthy, fresh timestamp and a truthy reading. */
  predicate CacheUsable(items: map<string, string>, now: Date) {
    var lastUpdate := Lookup(items, LAST_UPDATE);
    var needsRefresh := !Truthy(lastUpdate) || ShouldRefreshReading(lastUpdate.value, now);
    !needsRefresh && Truthy(Lookup(items, READING_DATA))
  }

  /** `getDailyReading(profile)` over the store `items`, with the clock reading `now` and the
      outcome `outcome` of the fetch it may make. */
  function DailySpec(items: map<string, string>, profile: UserProfile, now: Date, outcome: FetchOutcome): DailyStep
    requires IsClockDate(now)
  {
    if CacheUsable(items, now) then
      DailyStep(Success(items[READING_DATA]), items, None)
    else
      var f := FetchSpec(items, now, outcome);
      var result :=
        if f.result.Success? then f.result
        else if Truthy(Lookup(f.items, READING_DATA)) then Success(f.items[READING_DATA])
        else f.result;
      DailyStep(result, f.items, Some(ReadingUrl(profile)))
  }

  /** A cache hit returns the stored reading, makes no request and leaves the store alone. */
  lemma CacheHit(items: map<string, string>, profile: UserProfile, now: Date, outcome: FetchOutcome)
    requires IsClockDate(now)
    requires LAST_UPDATE in items && ParseTimestamp(items[LAST_UPDATE]) == Valid(now)
    requires READING_DATA in items && items[READING_DATA] != ""
    ensures DailySpec(items, profile, now, outcome) == DailyStep(Success(items[READING_DATA]), items, None)
  {
  }

  /** A request is made exactly when the timestamp is missing, unparseable or from another day,
      or when it is fresh but the reading is missing. */
  lemma FetchIff(items: map<string, string>, profile: UserProfile, now: Date, outcome: FetchOutcome)
    requires IsClockDate(now)
    ensures DailySpec(items, profile, now, outcome).request.Some?
      <==> (|| !Truthy(Lookup(items, LAST_UPDATE))
            || ParseTimestamp(items[LAST_UPDATE]) != Valid(now)
            || !Truthy(Lookup(items, READING_DATA)))
    ensures DailySpec(items, profile, now, outcome).request.Some? ==>
      DailySpec(items, profile, now, outcome).request == Some(ReadingUrl(profile))
  {
    if Truthy(Lookup(items, LAST_UPDATE)) {
      FreshIff(items[LAST_UPDATE], now);
    }
  }

  /** A successful fetch writes exactly the reading and the timestamp and returns the reading. */
  lemma FetchSuccessWrites(items: map<string, string>, profile: UserProfile, now: Date, data: ReadingJson)
    requires IsClockDate(now)
    requires !CacheUsable(items, now)
    ensures var s := DailySpec(items, profile, now, Ok(true, data));
      && s.result == Success(data)
      && s.items.Keys == items.Keys + {READING_DATA, LAST_UPDATE}
      && s.items[READING_DATA] == data
      && s.items[LAST_UPDATE] == FormatTimestamp(now)
      && forall k :: k in items && k != READING_DATA && k != LAST_UPDATE ==> s.items[k] == items[k]
  {
  }

  /** A failed fetch writes nothing; the call then answers with the stored reading if there is
      one, and otherwise fails with the fetch's error. */
  lemma FetchFailureFallsBack(items: map<string, string>, profile: UserProfile, now: Date, outcome: FetchOutcome)
    requires IsClockDate(now)
    requires !CacheUsable(items, now)
    requires !(outcome.Ok? && outcome.success)
    ensures var s := DailySpec(items, profile, now, outcome);
      && s.items == items
      && s.request.Some?
      && (Truthy(Lookup(items, READING_DATA)) ==> s.result == Success(items[READING_DATA]))
      && (!Truthy(Lookup(items, READING_DATA)) ==>
            && (outcome.NotOk? ==> s.result == Failure(HttpStatus(outcome.status, outcome.body)))
            && (outcome.Rejected? ==> s.result == Failure(NoResponse(outcome.message)))
            && (outcome.Ok? ==> s.result == Failure(Unsuccessful)))
  {
  }

  /** `getDailyReading` fails only when the store holds no reading afterwards. */
  lemma FailureMeansNoReading(items: map<string, string>, profile: UserProfile, now: Date, outcome: FetchOutcome)
    requires IsClockDate(now)
    ensures DailySpec(items, profile, now, outcome).result.Failure? ==>
      !Truthy(Lookup(DailySpec(items, profile, now, outcome).items, READING_DATA))
  {
  }

  /** After a call that answered from the cache or fetched successfully, a second call on the same
      local day returns the same reading without a request, whatever the network would say. */
  lemma SameDayRepeatsReading(items: map<string, string>, profile: UserProfile, now: Date, first: FetchOutcome, second: FetchOutcome)
    requires IsClockDate(now)
    requires CacheUsable(items, now) || (first.Ok? && first.success)
    ensures var s1 := DailySpec(items, profile, now, first);
      var s2 := DailySpec(s1.items, profile, now, second);
      && s2.request == None
      && s2.result == s1.result
      && s2.items == s1.items
  {
    if !CacheUsable(items, now) {
      WrittenTimestampIsFresh(now);
    }
  }

  /** The store after `clearCachedReading`. */
  function ClearedItems(items: map<string, string>): map<string, string> {
    items - {READING_DATA} - {LAST_UPDATE}
  }

  /** Invalidation removes both reading keys and keeps every other entry, the stored profile
      among them. */
  lemma ClearKeepsOthers(items: map<string, string>)
    ensures READING_DATA !in ClearedItems(items) && LAST_UPDATE !in ClearedItems(items)
    ensures forall k :: k in items && k != READING_DATA && k != LAST_UPDATE ==>
      k in ClearedItems(items) && ClearedItems(items)[k] == items[k]
    ensures BIRTH_DATE in items ==> ClearedItems(items)[BIRTH_DATE] == items[BIRTH_DATE]
  {
  }

  /** Right after invalidation, `getDailyReading` always makes a request, and it can only come
      back with the fetched reading: no stale reading is left to fall back on. */
  lemma ClearThenFetch(items: map<string, string>, profile: UserProfile, now: Date, outcome: FetchOutcome)
    requires IsClockDate(now)
    ensures var s := DailySpec(ClearedItems(items), profile, now, outcome);
      && s.request == Some(ReadingUrl(profile))
      && (s.result.Success? <==> outcome.Ok? && outcome.success)
  {
  }

  /** `fetchDailyReading(userProfile)`: builds the request URL, and on success caches the reading
      and the time. */
  method FetchDailyReading(store: LocalStorage, profile: UserProfile, now: Date, outcome: FetchOutcome)
    returns (result: Result<ReadingJson, ApiError>, url: string)
    requires IsClockDate(now)
    modifies store
    ensures url == ReadingUrl(profile)
    ensures FetchStep(result, store.items) == FetchSpec(old(store.items), now, outcome)
  {
    url := API_BASE_URL + "/daily-reading?";
    url := url + QueryString(QueryParams(profile));
    match outcome
    case NotOk(status, body) =>
      result := Failure(HttpStatus(status, body));
    case Rejected(message) =>
      result := Failure(NoResponse(message));
    case Ok(success, data) =>
      if !success {
        result := Failure(Unsuccessful);
      } else {
        store.SetItem(READING_DATA, data);
        store.SetItem(LAST_UPDATE, FormatTimestamp(now));
        result := Success(data);
      }
  }

  /** `getDailyReading(userProfile)`: the cached reading when it is usable, otherwise a fetch,
      falling back to the stored reading when the fetch fails. */
  method GetDailyReading(store: LocalStorage, profile: UserProfile, now: Date, outcome: FetchOutcome)
    returns (result: Result<ReadingJson, ApiError>, request: Option<string>)
    requires IsClockDate(now)
    modifies store
    ensures DailyStep(result, store.items, request) == DailySpec(old(store.items), profile, now, outcome)
  {
    var lastUpdate := store.GetItem(LAST_UPDATE);
    var needsRefresh := !Truthy(lastUpdate) || ShouldRefreshReading(lastUpdate.value, now);
    if !needsRefresh {
      var cachedData := store.GetItem(READING_DATA);
      if Truthy(cachedData) {
        return Success(cachedData.value), None;
      }
    }
    var fetched, url := FetchDailyReading(store, profile, now, outcome);
    request := Some(url);
    if fetched.Success? {
      result := fetched;
    } else {
      var cachedData := store.GetItem(READING_DATA);
      if Truthy(cachedData) {
        result := Success(cachedData.value);
      } else {
        result := fetched;
      }
    }
  }

  /** `clearCachedReading()`. */
  method ClearCachedReading(store: LocalStorage)
    modifies store
    ensures store.items == ClearedItems(old(store.items))
  {
    store.RemoveItem(READING_DATA);
    store.RemoveItem(LAST_UPDATE);
  }
}
