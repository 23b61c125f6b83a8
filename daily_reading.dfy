/** The daily-reading screen: its refresh handler on top of the cached reading protocol, the
    check for a new calendar day, and the element colours it draws. */
module DailyReadingView {
  import opened Wrappers
  import opened Text
  import opened Clock
  import opened Storage
  import opened Api
  import Zodiac

  const REFRESH_ADVISORY: string := "Could not refresh data. Showing last saved reading."
  const CONNECT_ERROR: string := "Could not connect to the server."

  /** The state the screen's refresh handler leaves, with the store it leaves and the request it
      made. */
  datatype ViewStep = ViewStep(
    data: Option<string>,
    error: Option<string>,
    lastUpdate: string,
    items: map<string, string>,
    request: Option<string>)

  /** The component's `fetchDailyReading(forceRefresh)`, on the store's table `items`, the shown
      `lastUpdate`, the clock's date `now` and the network's `outcome`. */
  function FetchView(items: map<string, string>, lastUpdate: string, profile: UserProfile, now: Date,
                     outcome: FetchOutcome, forceRefresh: bool): ViewStep
    requires IsClockDate(now)
  {
    var start := if forceRefresh then ClearedItems(items) else items;
    var d := DailySpec(start, profile, now, outcome);
    if d.result.Success? then
      ViewStep(Some(d.result.value), None, FormatTimestamp(now), d.items, d.request)
    else if Truthy(Lookup(d.items, READING_DATA)) then
      ViewStep(Some(d.items[READING_DATA]), Some(REFRESH_ADVISORY), lastUpdate, d.items, d.request)
    else
      ViewStep(None, Some(CONNECT_ERROR), lastUpdate, d.items, d.request)
  }

  /** A forced refresh always asks the server, because both cache keys are cleared first. */
  lemma ForcedRefreshFetches(items: map<string, string>, lastUpdate: string, profile: UserProfile, now: Date,
                             outcome: FetchOutcome)
    requires IsClockDate(now)
    ensures FetchView(items, lastUpdate, profile, now, outcome, true).request == Some(ReadingUrl(profile))
  {
    ClearKeepsOthers(items);
    FetchIff(ClearedItems(items), profile, now, outcome);
  }

  /** A forced refresh whose fetch fails ends with no reading shown and the connection error:
      the cache was cleared, and a failed fetch writes nothing. */
  lemma ForcedFailureShowsNothing(items: map<string, string>, lastUpdate: string, profile: UserProfile, now: Date,
                                  outcome: FetchOutcome)
    requires IsClockDate(now)
    requires !(outcome.Ok? && outcome.success)
    ensures var v := FetchView(items, lastUpdate, profile, now, outcome, true);
      v.data == None && v.error == Some(CONNECT_ERROR) && v.lastUpdate == lastUpdate
      && READING_DATA !in v.items && LAST_UPDATE !in v.items
  {
    ClearKeepsOthers(items);
    FetchFailureFallsBack(ClearedItems(items), profile, now, outcome);
  }

  /** A successful refresh shows the response with no error and marks it as updated now. */
  lemma SuccessShowsResponse(items: map<string, string>, lastUpdate: string, profile: UserProfile, now: Date,
                             data: ReadingJson, forceRefresh: bool)
    requires IsClockDate(now)
    requires forceRefresh || !CacheUsable(items, now)
    ensures var v := FetchView(items, lastUpdate, profile, now, Ok(true, data), forceRefresh);
      v.data == Some(data) && v.error == None && v.lastUpdate == FormatTimestamp(now)
      && v.items == (if forceRefresh then ClearedItems(items) else items)[READING_DATA := data][LAST_UPDATE := FormatTimestamp(now)]
  {
    var start := if forceRefresh then ClearedItems(items) else items;
    if forceRefresh {
      ClearKeepsOthers(items);
    }
    FetchSuccessWrites(start, profile, now, data);
  }

  /** The "showing last saved reading" advisory is never shown: the protocol already answered
      with the saved reading whenever there is one, so a failure reaching the screen means the
      store holds none. */
  lemma AdvisoryUnreachable(items: map<string, string>, lastUpdate: string, profile: UserProfile, now: Date,
                            outcome: FetchOutcome, forceRefresh: bool)
    requires IsClockDate(now)
    ensures FetchView(items, lastUpdate, profile, now, outcome, forceRefresh).error != Some(REFRESH_ADVISORY)
  {
    var start := if forceRefresh then ClearedItems(items) else items;
    FailureMeansNoReading(start, profile, now, outcome);
  }

  /** A failed refresh with a saved reading shows that reading with no error, and marks it as
      updated now. */
  lemma StaleReadingShownAsFresh(items: map<string, string>, lastUpdate: string, profile: UserProfile, now: Date,
                                 outcome: FetchOutcome)
    requires IsClockDate(now)
    requires !CacheUsable(items, now) && !(outcome.Ok? && outcome.success)
    requires Truthy(Lookup(items, READING_DATA))
    ensures var v := FetchView(items, lastUpdate, profile, now, outcome, false);
      v.data == Some(items[READING_DATA]) && v.error == None && v.lastUpdate == FormatTimestamp(now)
      && v.items == items
  {
    FetchFailureFallsBack(items, profile, now, outcome);
  }

  /** The check of `checkMidnight`: the stored date's day, month or year differs from now;
      every comparison with the getters of an invalid date is a difference. */
  function MidnightCrossed(lastStoredUpdate: string, now: Date): bool {
    match ParseTimestamp(lastStoredUpdate)
    case Invalid => true
    case Valid(last) => now.day != last.day || now.month != last.month || now.year != last.year
  }

  /** The screen's midnight check and the protocol's freshness test agree on every text. */
  lemma MidnightCrossedIsStale(lastStoredUpdate: string, now: Date)
    ensures MidnightCrossed(lastStoredUpdate, now) == ShouldRefreshReading(lastStoredUpdate, now)
    ensures MidnightCrossed(lastStoredUpdate, now) <==>
      !(ParseTimestamp(lastStoredUpdate).Valid? && ParseTimestamp(lastStoredUpdate).date == now)
  {
    FreshIff(lastStoredUpdate, now);
  }

  /** The reading screen's state; `store` is the device's local store and `profile` the
      user's profile. */
  class ReadingView {
    const store: LocalStorage
    const profile: UserProfile
    var data: Option<string>
    var error: Option<string>
    var loading: bool
    var lastUpdate: string

    /** The screen as it mounts: loading, nothing shown yet. */
    constructor (store: LocalStorage, profile: UserProfile)
      ensures this.store == store && this.profile == profile
      ensures data == None && error == None && loading && lastUpdate == ""
    {
      this.store := store;
      this.profile := profile;
      data := None;
      error := None;
      loading := true;
      lastUpdate := "";
    }

    /** The component's `fetchDailyReading(forceRefresh)`: clear the cache when forced, ask the
        protocol for the reading, and show it or the matching error; `loading` ends false. */
    method FetchDailyReading(forceRefresh: bool, now: Date, outcome: FetchOutcome) returns (request: Option<string>)
      requires IsClockDate(now)
      modifies this, store
      ensures FetchView(old(store.items), old(lastUpdate), profile, now, outcome, forceRefresh)
        == ViewStep(data, error, lastUpdate, store.items, request)
      ensures !loading
    {
      loading := true;
      error := None;
      if forceRefresh {
        ClearCachedReading(store);
      }
      var result;
      result, request := GetDailyReading(store, profile, now, outcome);
      if result.Success? {
        data := Some(result.value);
        lastUpdate := FormatTimestamp(now);
      } else {
        var cachedData := store.GetItem(READING_DATA);
        if Truthy(cachedData) {
          data := Some(cachedData.value);
          error := Some(REFRESH_ADVISORY);
        } else {
          data := None;
          error := Some(CONNECT_ERROR);
        }
      }
      loading := false;
    }

    /** `checkMidnight()`: a forced refresh exactly when a truthy timestamp is stored and names
        another day than now; otherwise nothing changes. */
    method CheckMidnight(now: Date, outcome: FetchOutcome) returns (fired: bool)
      requires IsClockDate(now)
      modifies this, store
      ensures fired <==>
        (Truthy(Lookup(old(store.items), LAST_UPDATE)) && MidnightCrossed(old(store.items)[LAST_UPDATE], now))
      ensures fired ==>
        (FetchView(old(store.items), old(lastUpdate), profile, now, outcome, true)
         == ViewStep(data, error, lastUpdate, store.items, Some(ReadingUrl(profile)))
         && !loading)
      ensures !fired ==>
        (store.items == old(store.items) && data == old(data) && error == old(error)
         && lastUpdate == old(lastUpdate) && loading == old(loading))
    {
      fired := false;
      var lastStoredUpdate := store.GetItem(LAST_UPDATE);
      if Truthy(lastStoredUpdate) {
        if MidnightCrossed(lastStoredUpdate.value, now) {
          ForcedRefreshFetches(store.items, lastUpdate, profile, now, outcome);
          var request := FetchDailyReading(true, now, outcome);
          fired := true;
        }
      }
    }
  }

  /** After a forced refresh that succeeds, the stored timestamp names today, so the next
      midnight check on the same day does nothing. */
  lemma RefreshSettlesMidnight(items: map<string, string>, lastUpdate: string, profile: UserProfile, now: Date,
                               data: ReadingJson)
    requires IsClockDate(now)
    ensures var v := FetchView(items, lastUpdate, profile, now, Ok(true, data), true);
      Truthy(Lookup(v.items, LAST_UPDATE)) && !MidnightCrossed(v.items[LAST_UPDATE], now)
  {
    SuccessShowsResponse(items, lastUpdate, profile, now, data, true);
    WrittenTimestampIsFresh(now);
    MidnightCrossedIsStale(FormatTimestamp(now), now);
  }

  /** The colour of a reading card's element when it is not one of the five. */
  const GRAY: string := "#808080"

  /** The five element names `getElementColor` knows, in lower case. */
  const ELEMENT_NAMES: seq<string> := ["wood", "fire", "earth", "metal", "water"]

  /** `getElementColor(element)`: the element's colour, whatever the letter case, and gray for
      anything else. */
  function GetElementColor(element: string): string {
    var e := ToLower(element);
    if e == "wood" then Zodiac.WOOD
    else if e == "fire" then Zodiac.FIRE
    else if e == "earth" then Zodiac.EARTH
    else if e == "metal" then Zodiac.METAL
    else if e == "water" then Zodiac.WATER
    else GRAY
  }

  /** Letter case does not matter. */
  lemma ElementColorIgnoresCase(element: string)
    ensures GetElementColor(ToLower(element)) == GetElementColor(element)
  {
    ToLowerIdempotent(element);
  }

  /** Gray is given exactly to the texts that are not an element name in any letter case. */
  lemma ElementColorGrayIff(element: string)
    ensures GetElementColor(element) == GRAY <==> ToLower(element) !in ELEMENT_NAMES
  {
  }

  /** Each of the five element names is given its own colour. */
  lemma ElementNameColors(k: nat)
    requires k < 5
    ensures GetElementColor(ELEMENT_NAMES[k]) == [Zodiac.WOOD, Zodiac.FIRE, Zodiac.EARTH, Zodiac.METAL, Zodiac.WATER][k]
  {
    var e := ELEMENT_NAMES[k];
    assert ToLower(e) == e;
  }

  /** The colour of every zodiac animal is the colour of some element, so the animal badge and
      the element card use one palette. */
  lemma AnimalColorsAreElementColors(i: nat)
    requires i < 12
    ensures exists e :: e in ELEMENT_NAMES && GetElementColor(e) == Zodiac.GetZodiacColor(Zodiac.ZODIAC_ANIMALS[i])
  {
    Zodiac.ColorByPair(i);
    var k := [4, 0, 1, 2, 3, 2][i / 2];
    ElementNameColors(k);
    assert ELEMENT_NAMES[k] in ELEMENT_NAMES;
  }
}
