# Astro web client: verified model of its logic

The astro web client is a React single-page application. It shows a daily Chinese-zodiac
reading fetched from a reading service and lets the user chat with an "Astro Master"
webhook. This project models the parts of the client that hold real logic and proves
properties of them in Dafny.

- **Zodiac tables** (`zodiac.dfy`, module `Zodiac`): the animal of a birth year, the
  traits of an animal and the element colour of an animal. The animal uses JavaScript's
  truncated `%` with its fix-up for negative remainders.
- **Daily-reading cache protocol** (`api.dfy`, module `Api`, over `storage.dfy` and
  `clock.dfy`):
  - The local store keeps the last reading under `astro_daily_reading` and the time of
    the last successful fetch under `astro_last_update`.
  - A calendar-day freshness test decides whether the cached reading may be reused.
  - The fetch outcome (a 2xx response, another status, or a rejected `fetch` with no
    response) decides whether the store is written.
  - A failed fetch falls back to the stored reading.
  - `clearCachedReading` removes the two keys.
  - The store is a class with a `map` field that the methods change in place. Each method
    is proved equal to a specification function (`FetchSpec`, `DailySpec`,
    `ClearedItems`), and the protocol's properties are lemmas about those functions.
- **Daily-reading screen** (`daily_reading.dfy`, module `DailyReadingView`):
  - the component's refresh handler, with its forced refresh and its two error texts;
  - the midnight check;
  - the element colours of a reading card.

  The screen's state is a class (`ReadingView`) whose methods are proved against the
  function `FetchView`.
- **Chat delivery** (`chat.dfy`, module `Chat`):
  - error-text classification;
  - the bounded retry, which retries only failures that brought no response;
  - the keyword-priority canned replies;
  - the two-flag escalation from the direct webhook URL to the CORS relay and then to
    local replies;
  - the reset of both flags.

  The screen's state is the class `ChatSession`, whose message list grows by appending.
  Every POST is one entry of a function `net: nat -> Attempt` supplied by the caller, and
  the pauses and POSTs of a send are returned as a sequence of effects.
- **Birth-date form** (`birth_date_form.dfy`, module `BirthDateForm`): the submit handler's
  ordered checks, which yield the first error or the user's profile. A round trip shows
  that a form opened on a profile and submitted unchanged gives that profile back.
- **JavaScript built-ins** (`text.dfy`, module `Text`), stated explicitly:
  - `parseInt` returns `None` for `NaN`;
  - `Number.prototype.toString`;
  - `trim`, over the full set of characters JavaScript counts as white space or line
    terminators;
  - `toLowerCase` on ASCII letters;
  - `includes`;
  - `encodeURIComponent` as UTF-8 percent-encoding.

  `wrappers.dfy` holds `Option` and `Result`.

All clocks, network outcomes and the current year are parameters.

- **Refresh advisory.** The screen's refresh handler has a branch that shows "Could not
  refresh data. Showing last saved reading.". Read against `getDailyReading`, that branch
  can never run. `getDailyReading` itself already answers with the stored reading whenever
  one exists, so a failure only reaches the screen when the store holds none.
  `DailyReadingView.AdvisoryUnreachable` proves this. `DailyReadingView.StaleReadingShownAsFresh`
  states what happens instead: a stale reading is shown with no error and marked as updated now.
- **Invalid timestamps.** `shouldRefreshReading` ends with an `isNaN` test. It never decides
  anything, because for an invalid date the first comparison (`NaN !== day`) is already true.

## Model

| member | source | states |
|---|---|---|
| Zodiac.GetZodiacSign | src/utils/zodiacUtils.ts:43-47 | every integer year, before 1900 as well, gets one of the twelve animals |
| Zodiac.AnimalIndex | src/utils/zodiacUtils.ts:44-45 | the cycle position `getZodiacSign` computes, with the truncated `%` and the +12 fix-up; `Zodiac.AnimalIndexIsResidue` states that it is the residue modulo 12 |
| Zodiac.JsRem | src/utils/zodiacUtils.ts:44 | the truncated remainder has the dividend's sign and lies strictly within the divisor's magnitude |
| Zodiac.AnimalIndexIsResidue | src/utils/zodiacUtils.ts:44-45 | the remainder fixed up by +12 when negative is the mathematical residue of `year - 1900` modulo 12 |
| Zodiac.GetZodiacSignIsCycle | src/utils/zodiacUtils.ts:43-47 | the animal of a year is the table entry at that year's residue modulo 12 |
| Zodiac.AnchorYears | src/utils/zodiacUtils.ts:8-11 | 1900 is the Rat, 2000 the Dragon and 1899 the Pig |
| Zodiac.ZodiacPeriodic | src/utils/zodiacUtils.ts:43-47 | the animal of `y + 12` is the animal of `y` |
| Zodiac.ZodiacSuccessor | src/utils/zodiacUtils.ts:43-47 | the year after is the next animal in the cycle, and the Pig wraps round to the Rat |
| Zodiac.GetZodiacTraits | src/utils/zodiacUtils.ts:54-56 | a sign of the table gets its entry and every other sign gets `mysterious` (the own-property lookup the source intends) |
| Zodiac.TraitsCoverAnimals | src/utils/zodiacUtils.ts:14-27 | the traits table's keys are exactly the twelve animals |
| Zodiac.TraitsOfEverySign | src/utils/zodiacUtils.ts:14-27 | no birth year's animal gets the default traits |
| Zodiac.GetZodiacTraitsAsWritten | src/utils/zodiacUtils.ts:54-56 | the lookup as written returns an inherited non-string member exactly for the `Object.prototype` member names |
| Zodiac.TraitsAsWrittenLeakInheritedMember | src/utils/zodiacUtils.ts:55 | the sign `constructor` gets the inherited constructor as written, and `mysterious` once corrected |
| Zodiac.TraitsAsWrittenAgreeElsewhere | src/utils/zodiacUtils.ts:55 | on every other sign the lookup as written and the corrected lookup agree |
| Zodiac.ColorByPair | src/utils/zodiacUtils.ts:123-142 | consecutive animals share a colour: water, wood, fire, earth, metal, earth for the six pairs |
| Zodiac.ColorDefaultIff | src/utils/zodiacUtils.ts:143-145 | the default purple is given exactly to the signs that are not animals |
| Zodiac.NoYearGetsPurple | src/utils/zodiacUtils.ts:123-145 | no birth year's animal is drawn in the default purple |
| Zodiac.GetZodiacColor | src/utils/zodiacUtils.ts:123-145 | the colour `getZodiacColor` gives a sign; `Zodiac.ColorByPair` and `Zodiac.ColorDefaultIff` state its values |
| Clock.ParseFormat | src/services/api.ts:136 | the timestamp written for a date parses back to that date |
| Clock.FormatParse | src/services/api.ts:163 | a text that parses to a valid date is the text written for it |
| Clock.FormatTimestamp | src/services/api.ts:136 | the timestamp text written for a date: four-digit year, two-digit month and day; its contract gives its length of ten characters |
| Clock.ParseTimestamp | src/services/api.ts:163 | `new Date(text)` on the model's own encoding of the stored timestamp, read back as a calendar date or as invalid; `Clock.ParseFormat` and `Clock.FormatParse` make it the inverse of `FormatTimestamp` |
| Text.ParseIntOfIntToString | src/services/api.ts:95-100 | `parseInt` of an integer's decimal text gives the integer back |
| Text.ParseInt | src/components/settings/BirthDateForm.tsx:213-215 | `parseInt(s, 10)`; its values are stated by `Text.ParseIntOfDigits`, `Text.ParseIntOfNegatedDigits` and `Text.ParseIntOfIntToString` |
| Text.IntToString | src/services/api.ts:95-97 | `Number.prototype.toString` on integers; `Text.ParseIntOfIntToString` states that `parseInt` inverts it |
| Text.ParseIntOfDigits | src/components/settings/BirthDateForm.tsx:213-215 | `parseInt` of a non-empty run of digits is its decimal value |
| Text.ParseIntOfNegatedDigits | src/components/settings/BirthDateForm.tsx:213-215 | `parseInt` of `-` and a non-empty run of digits is minus its decimal value |
| Text.TrimEmptyIff | src/components/settings/BirthDateForm.tsx:254 | a text trims to empty exactly when it is all white space |
| Text.TrimIsTrimmed | src/components/settings/BirthDateForm.tsx:271 | what `trim` returns has no white space at either end |
| Text.Trim | src/components/settings/BirthDateForm.tsx:254 | `trim`; `Text.TrimEmptyIff` and `Text.TrimIsTrimmed` state what it returns |
| Text.ContainsIff | src/components/ChatScreen.tsx:221 | `includes` holds exactly when the pattern occurs at some position |
| Text.ToLowerIdempotent | src/components/DailyReading.tsx:283 | lower-casing twice is lower-casing once |
| Text.ToLower | src/components/ChatScreen.tsx:218 | `toLowerCase` on ASCII letters: same length, each character lower-cased |
| Text.Contains | src/components/ChatScreen.tsx:221 | `includes`; `Text.ContainsIff` states it is an occurrence at some index |
| Text.EncodeUriComponent | src/components/ChatScreen.tsx:296 | the escaped text holds only unreserved characters and escapes, and a text of unreserved characters is left as it is |
| Storage.LocalStorage.SetItem | src/services/api.ts:135-136 | the key maps to the value and every other entry stays |
| Storage.LocalStorage.RemoveItem | src/services/api.ts:147-148 | the key is gone and every other entry stays |
| Api.FreshIff | src/services/api.ts:162-173 | a timestamp is fresh exactly when it parses to today's date |
| Api.InvalidTimestampRefreshes | src/services/api.ts:166-171 | an unparseable timestamp always asks for a refresh |
| Api.ShouldRefreshReading | src/services/api.ts:162-173 | `shouldRefreshReading` against the clock `now`; `Api.FreshIff` states that it holds exactly when the text does not parse to today |
| Api.WrittenTimestampIsFresh | src/services/api.ts:136 | the timestamp written on a successful fetch is fresh for the rest of that day |
| Api.QueryKeys | src/services/api.ts:94-105 | the keys are birthYear, birthMonth and birthDay in order, then birthHour exactly when a birth time is present; the minute is never sent |
| Api.QueryValues | src/services/api.ts:95-100 | each query value reads back as the profile's number |
| Api.QueryParams | src/services/api.ts:94-101 | the query parameters in the order they are appended; `Api.QueryKeys` and `Api.QueryValues` state their keys and values |
| Api.ReadingUrl | src/services/api.ts:94-107 | the reading URL: the base, the path and the joined parameters |
| Api.CacheHit | src/services/api.ts:55-66 | a fresh timestamp with a stored reading returns that reading, makes no request and leaves the store alone |
| Api.FetchIff | src/services/api.ts:56-69 | a request to the profile's URL is made exactly when the timestamp is missing, unparseable or from another day, or the reading is missing |
| Api.FetchSuccessWrites | src/services/api.ts:129-138 | a successful fetch returns the data, writes the reading and the timestamp, and keeps every other key |
| Api.FetchFailureFallsBack | src/services/api.ts:70-85 | a failed fetch (a non-2xx status, `success` false, or a rejected `fetch`) writes nothing, then answers with the stored reading or fails with that fetch's own error |
| Api.FailureMeansNoReading | src/services/api.ts:73-84 | `getDailyReading` fails only when no reading is stored afterwards |
| Api.SameDayRepeatsReading | src/services/api.ts:55-66 | after a cache hit or a successful fetch, a second call on the same day returns the same reading with no request |
| Api.FetchSpec | src/services/api.ts:109-138 | `fetchDailyReading` on the store and the fetch outcome; `Api.FetchDailyReading` is proved equal to it |
| Api.DailySpec | src/services/api.ts:50-86 | `getDailyReading` on the store, clock and fetch outcome; `Api.GetDailyReading` is proved equal to it and the lemmas above state its behaviour |
| Api.ClearKeepsOthers | src/services/api.ts:145-150 | invalidation removes both reading keys and keeps every other entry, the stored profile among them |
| Api.ClearThenFetch | src/services/api.ts:145-150 | right after invalidation a request is always made, and the call succeeds exactly when the fetch does |
| Api.ClearedItems | src/services/api.ts:145-149 | the store after `clearCachedReading`; `Api.ClearKeepsOthers` states what it keeps |
| Api.FetchDailyReading | src/services/api.ts:91-139 | the URL is the profile's reading URL, and the result and the new store are those of `FetchSpec` |
| Api.GetDailyReading | src/services/api.ts:50-86 | the result, the request made and the new store are those of `DailySpec` on the old store |
| Api.ClearCachedReading | src/services/api.ts:145-154 | the new store is the old one without the two reading keys |
| DailyReadingView.ForcedRefreshFetches | src/components/DailyReading.tsx:254-259 | a forced refresh always asks the server for the profile's reading |
| DailyReadingView.FetchView | src/components/DailyReading.tsx:249-279 | the reading screen's `fetchDailyReading(forceRefresh)`; `DailyReadingView.ReadingView.FetchDailyReading` is proved equal to it |
| DailyReadingView.ForcedFailureShowsNothing | src/components/DailyReading.tsx:254-274 | a forced refresh whose fetch fails shows no reading and the connection error, and leaves both keys absent |
| DailyReadingView.SuccessShowsResponse | src/components/DailyReading.tsx:259-262 | a successful refresh shows the response with no error, marks it updated now and writes the two keys |
| DailyReadingView.AdvisoryUnreachable | src/components/DailyReading.tsx:265-269 | the "showing last saved reading" advisory is never shown |
| DailyReadingView.StaleReadingShownAsFresh | src/components/DailyReading.tsx:259-262 | a failed refresh with a stored reading shows it with no error, marked as updated now |
| DailyReadingView.MidnightCrossedIsStale | src/components/DailyReading.tsx:358-362 | the midnight test agrees with the freshness test, and fires exactly when the stored date is not today |
| DailyReadingView.MidnightCrossed | src/components/DailyReading.tsx:359-362 | the day, month and year comparison of `checkMidnight`; `DailyReadingView.MidnightCrossedIsStale` states when it fires |
| DailyReadingView.ReadingView.constructor | src/components/DailyReading.tsx:223-226 | the screen mounts loading, with no data, no error and an empty update time |
| DailyReadingView.ReadingView.FetchDailyReading | src/components/DailyReading.tsx:249-279 | data, error, update time, store and request are those of `FetchView`, and loading ends false |
| DailyReadingView.ReadingView.CheckMidnight | src/components/DailyReading.tsx:355-367 | a forced refresh happens exactly when a truthy timestamp is stored and names another day; otherwise nothing changes |
| DailyReadingView.RefreshSettlesMidnight | src/components/DailyReading.tsx:355-367 | after a successful forced refresh the next midnight check on the same day does nothing |
| DailyReadingView.ElementColorIgnoresCase | src/components/DailyReading.tsx:283 | letter case does not change the element colour |
| DailyReadingView.ElementColorGrayIff | src/components/DailyReading.tsx:282-291 | gray is given exactly to texts that are no element name in any letter case |
| DailyReadingView.GetElementColor | src/components/DailyReading.tsx:282-291 | `getElementColor`; `DailyReadingView.ElementNameColors`, `ElementColorIgnoresCase` and `ElementColorGrayIff` state its values |
| DailyReadingView.ElementNameColors | src/components/DailyReading.tsx:284-288 | each of the five element names gets its own colour |
| DailyReadingView.AnimalColorsAreElementColors | src/components/DailyReading.tsx:284-288 | every animal's colour is the colour of some element name |
| Chat.ErrorTextDeterminesKind | src/components/ChatScreen.tsx:163-183 | the error text alone tells which of the five rules made it, and a response takes precedence over the message |
| Chat.ErrorTextOfResponse | src/components/ChatScreen.tsx:164-172 | 404 with a hint gives the awakening text plus the hint, 404 without one the meditation text, any other status the server-error text; the message is ignored |
| Chat.ErrorTextWithoutResponse | src/components/ChatScreen.tsx:173-182 | with no response, "Network Error" gives the diagnostic text and any other message gives `Connection error: ` and the message |
| Chat.GetErrorMessage | src/components/ChatScreen.tsx:163-183 | `getErrorMessage`; `Chat.ErrorTextOfResponse`, `Chat.ErrorTextWithoutResponse` and `Chat.ErrorTextDeterminesKind` state its texts |
| Chat.RetryRequest | src/components/ChatScreen.tsx:188-214 | one to `retries + 1` POSTs, every attempt before the last a response-less failure, an earlier stop only at a non-retriable outcome, POSTs and pauses alternating |
| Chat.RetryPostCount | src/components/ChatScreen.tsx:188-214 | the number of POST effects of a request is its number of attempts |
| Chat.ServerAnswerNotRetried | src/components/ChatScreen.tsx:199-203 | a failure that carries a response ends the request after one POST with that error |
| Chat.RetryBound | src/components/ChatScreen.tsx:159-160 | at most four POSTs, and four only after three response-less failures |
| Chat.LocalResponseIsFixed | src/components/ChatScreen.tsx:217-234 | the local reply is always one of the six fixed replies, and distinct topics get distinct replies |
| Chat.ReplyDeterminesTopic | src/components/ChatScreen.tsx:222-233 | each topic's canned reply tells which topic it answers |
| Chat.GreetingIff | src/components/ChatScreen.tsx:218-222 | the greeting is chosen exactly when "hello" or "hi" occurs somewhere in the lower-cased query |
| Chat.FirstMatchWins | src/components/ChatScreen.tsx:221-233 | a later topic is chosen only when no keyword of an earlier group occurs |
| Chat.TopicIgnoresCase | src/components/ChatScreen.tsx:218 | letter case does not change the reply |
| Chat.HiInsideWordGreets | src/components/ChatScreen.tsx:221 | any query containing "this" gets the greeting |
| Chat.TopicOf | src/components/ChatScreen.tsx:218-233 | the keyword group `generateLocalResponse` picks; `Chat.GreetingIff` and `Chat.FirstMatchWins` state the first-match rule |
| Chat.GenerateLocalResponse | src/components/ChatScreen.tsx:217-234 | `generateLocalResponse`; `Chat.LocalResponseIsFixed` states its range |
| Chat.TargetUrlsDiffer | src/components/ChatScreen.tsx:294-300 | the relay URL differs from the direct one, starts with the relay prefix and carries the escaped webhook URL |
| Chat.TargetUrl | src/components/ChatScreen.tsx:294-300 | the URL the relay flag selects; `Chat.TargetUrlsDiffer` states how the two differ |
| Chat.DeliverKeepsFlags | src/components/ChatScreen.tsx:339-347 | every send keeps "local fallback only together with the relay" |
| Chat.LocalModeMakesNoRequest | src/components/ChatScreen.tsx:269-280 | in local mode no POST is made and the reply is the canned reply plus the fixed suffix |
| Chat.PostsGoToTarget | src/components/ChatScreen.tsx:294-312 | every POST of a send goes to the URL the relay flag selects and carries the user's text; there are at most seven effects |
| Chat.DeliverOutcomes | src/components/ChatScreen.tsx:318-347 | output or apology on delivery; on failure an error reply, escalating one step on "Network Error" and leaving both flags on any other error |
| Chat.ServerErrorSendsOnce | src/components/ChatScreen.tsx:197-203 | a server answer on the first POST ends the send after exactly one POST |
| Chat.DirectFailuresSwitchToRelay | src/components/ChatScreen.tsx:339-341 | four network errors on the direct URL switch the relay on, and the next send posts only to the relay URL |
| Chat.ResetSendsDirect | src/components/ChatScreen.tsx:388-390 | with both flags off, a send posts to the direct webhook URL first |
| Chat.Deliver | src/components/ChatScreen.tsx:269-347 | one send after the input check: the reply, the new flags and the effects; `Chat.DeliverOutcomes`, `Chat.DeliverKeepsFlags` and `Chat.PostsGoToTarget` state them |
| Chat.ChatSession.constructor | src/components/ChatScreen.tsx:237-247 | the screen opens with the welcome message, an empty input and both flags off |
| Chat.ChatSession.SetInput | src/components/ChatScreen.tsx:464 | the input changes and nothing else does |
| Chat.ChatSession.HandleSend | src/components/ChatScreen.tsx:255-385 | a blank input changes nothing; otherwise the user's message and then exactly one reply are appended, the input is cleared and the flags move as `Deliver` says |
| Chat.ChatSession.SendInput | src/components/ChatScreen.tsx:258-385 | the messages grow by the user's message and the reply of `Deliver`, the flag invariant is kept |
| Chat.ChatSession.ResetNetworkSettings | src/components/ChatScreen.tsx:388-398 | both flags off and exactly one system message appended |
| BirthDateForm.FirstViolationReported | src/components/settings/BirthDateForm.tsx:218-245 | submission fails exactly when some check fails, and reports the first check that fails in the order month, day, year, hour, minute |
| BirthDateForm.DecideReportsFirst | src/components/settings/BirthDateForm.tsx:218-245 | on the parsed numbers, the checks fail exactly when some range check fails, with the first failing check's message |
| BirthDateForm.AcceptedIff | src/components/settings/BirthDateForm.tsx:218-263 | accepted exactly when month 1..12, day 1..31, year 1900..current year, and hour and minute in range when both are filled in; gender, place and status never block |
| BirthDateForm.ProfileContents | src/components/settings/BirthDateForm.tsx:265-275 | the profile carries the parsed numbers, a birth time exactly when both time fields are filled in, the trimmed place, and absent optional fields for empty ones |
| BirthDateForm.DecideProfile | src/components/settings/BirthDateForm.tsx:265-273 | on the parsed numbers, an accepted submission builds the profile from those numbers, the time exactly when entered, and absent fields for empty texts |
| BirthDateForm.ThirtyFirstFebruaryAccepted | src/components/settings/BirthDateForm.tsx:218-225 | 31 February passes, because the day is not checked against the month |
| BirthDateForm.FebruaryTexts | src/components/settings/BirthDateForm.tsx:213-214 | the texts "2" and "31" parse to 2 and 31 |
| BirthDateForm.HalfTimeIgnored | src/components/settings/BirthDateForm.tsx:247-251 | with only one time field filled in, the time is dropped without an error, even when that field is out of range |
| BirthDateForm.DecideIgnoresTime | src/components/settings/BirthDateForm.tsx:237-251 | when the time is not entered, its parses change nothing and the profile has no birth time |
| BirthDateForm.ParseIntOfPadStart2 | src/components/settings/BirthDateForm.tsx:202-203 | `toString().padStart(2, '0')` of any integer parses back to that integer |
| BirthDateForm.InitialFieldsParse | src/components/settings/BirthDateForm.tsx:199-203 | the initial numeric fields of a profile parse back to its numbers |
| BirthDateForm.InitialFieldsOptional | src/components/settings/BirthDateForm.tsx:204-206 | the initial optional fields of a submittable profile give back its optional fields |
| BirthDateForm.SubmitParsed | src/components/settings/BirthDateForm.tsx:213-275 | the handler depends on the fields only through what they parse to |
| BirthDateForm.DecideBuildsProfile | src/components/settings/BirthDateForm.tsx:218-273 | numbers in range and texts that match a profile's fields are accepted and give exactly that profile |
| BirthDateForm.SubmitInitialFields | src/components/settings/BirthDateForm.tsx:199-275 | submitting the form opened on a submittable profile unchanged gives that profile back |
| BirthDateForm.SubmittedIsSubmittable | src/components/settings/BirthDateForm.tsx:265-273 | every submitted profile is in range, with non-empty optional texts and a trimmed place |
| BirthDateForm.ResubmitIsStable | src/components/settings/BirthDateForm.tsx:199-275 | reopening the form on a submitted profile and submitting again gives the same profile |
| BirthDateForm.HandleSubmit | src/components/settings/BirthDateForm.tsx:209-276 | `handleSubmit`: the first error or the profile; `BirthDateForm.FirstViolationReported`, `AcceptedIff` and `ProfileContents` state its behaviour |
| BirthDateForm.Decide | src/components/settings/BirthDateForm.tsx:218-273 | the ordered checks and the profile construction on the parsed numbers; the `Decide…` lemmas state them |
| BirthDateForm.InitialFields | src/components/settings/BirthDateForm.tsx:199-206 | the fields the form opens with for a profile; `BirthDateForm.InitialFieldsParse` and `InitialFieldsOptional` state them |

## Left out

- Real HTTP (`fetch`, `axios`) and the request timeout. Each POST or GET is a classified outcome supplied by the caller, and the reading service's JSON body is an opaque text.
- `sleep` and `setTimeout` are effects with a duration (`Chat.Effect.Sleep`); no time passes.
- The `setInterval` that repeats `checkMidnight`, and the races between it and fetches in flight. These are timers and concurrency.
- The intermediate `isTyping = true` state of a send and the interleaving of React state updates across the `await`s. Only the state after a send is modelled.
- `JSON.parse`, `JSON.stringify` and their failure paths. A stored reading is kept and returned as its text.
- The catch blocks for a store that throws (src/services/api.ts:80-82, 150-153). The modelled store never throws.
- The development-only debug details and stack traces of a chat error (src/components/ChatScreen.tsx:349-372), and all `console` output.
- `getZodiacAnimationProps`, because it is floating-point animation data.
- The theme values other than the gray of an unknown element.
- The render-only components: the zodiac icon, the showcase and the elemental chart.
- `App.tsx`: routing, and loading the profile from the store.
- From the reading screen: `dataURLtoBlob`, `triggerDownload`, `formatLastUpdated` and the online/offline listeners. These are DOM, locale and browser code.
- `toLowerCase` beyond ASCII letters, because Unicode case mapping tables are outside the model.
- Numbers beyond 2^53 and non-integer years.
- Chat message timestamps.
- Clock.FormatTimestamp: the stored timestamp is the local calendar date only, with years 0..9999. The UTC time of day that `toISOString` adds, and the time-zone shift between it and the local date, are not modelled; the screen's `lastUpdate` is that same text.
- Clock.ParseTimestamp: only the model's own date text is read as a valid date. The other formats `new Date` accepts are not modelled, among them the real `toISOString` text such as `2024-05-01T10:00:00.000Z`, which the source reads back as a valid date and the model would count as invalid. Each call also reads the clock once (`now`) for the freshness test, the timestamp written after the fetch and the screen's `lastUpdate`, where the source reads it separately each time. So a fetch that crosses midnight stores the start date here, where the source stores the new day.
- Chat.ChatSession.HandleSend: the webhook URL is a constant of the session (`webhookUrl`, set to `WEBHOOK_URL` by the constructor), because escaping the literal URL inside proofs is too costly.
- DailyReadingView.GetElementColor: it reuses the colour constants of `Zodiac`. The source repeats the same literals.

## Findings

| source | as written | input that shows it | evidently intended | confidence | as-written member | corrected member |
|---|---|---|---|---|---|---|
| src/utils/zodiacUtils.ts:54-56 | `ZODIAC_TRAITS[zodiacSign]` on an object literal also finds the members inherited from `Object.prototype`. These are truthy, so they are returned instead of `'mysterious'` and are not strings. | `getZodiacTraits('constructor')` returns the `Object` function (`Zodiac.TraitsAsWrittenLeakInheritedMember`) | `'mysterious'` for every sign that is not one of the twelve animals | not executed | Zodiac.GetZodiacTraitsAsWritten | Zodiac.GetZodiacTraits |
