# Bitebook core in Dafny

Bitebook keeps a list of restaurants, bars and cafes. Each place can be marked
visited, rated and annotated. This project models the rules that sit between the
React views and the Spring backend, and proves properties about them:

- **Client root view** (`App`). The session cache of the fetched list has a
  five-minute lifetime and can be bypassed by a forced refresh. The view also has
  three local list mutations (add in front, flip `visited`, delete by id), the
  "Visited" / "To Visit" counts, and the filter of the displayed list (search,
  type, visited status).
- **Place details dialog** (`PlaceDetailsDialog`). It has the "open now" check over
  the current day's periods and the 12-hour rendering of a day's opening hours. It
  also has the edit / unsaved-changes state machine, as a class whose methods are
  the handlers and effects.
- **Add-place dialog** (`AddPlaceDialog`). It covers the clean-up of an address
  picked from the Google search, the form state, and the submit guard, payload and
  reset.
- **Rate-and-note dialog** (`RateAndNoteDialog`). It covers the submit guard, the
  `isSubmitting` flag around the awaited call, clear-on-success versus
  keep-on-failure, and the close handlers.
- **Backend feed service** (`FeedService`). It covers:
  - the feed filter and the two request-string parsers;
  - the copy of the opening-hours map;
  - the enrichment of a stored place with Google details (the closed flag and the
    opening hours);
  - the add / update / delete rules over a repository, modelled as a map from id
    to place.
- **Google opening-hours deserializer** (`PlaceDetailsResponse`). It turns the
  weekly `periods` array into a map from weekday name to that day's periods.

Support modules:
- `Wrappers`: `Option`, `Result` and the errors the code throws.
- `Seqs`: order-preserving filter and subsequence.
- `Text`: JavaScript and Java trimming, lower-casing, substring search,
  split/join at a separator, and decimal text.
- `ClientPlaces`: the client's place record and JSON values.
- `PlaceEntity`: the backend's place entity and the `PlaceType` enum.

Everything the code reads from its environment is a parameter:
- the clock (milliseconds, weekday name, hour and minute);
- fresh ids;
- the response of the feed request;
- the Google details returned by the proxy;
- the outcome of awaited callbacks;
- the `parseFloat` of a rating text.

A callback the code invokes is recorded in a log field of the class (for example
`openRequests`, `updateCalls`, `submitted`, `submitCalls`, `closeCalls`).

## Model

| member | source | states |
|---|---|---|
| App.PlacesView.constructor | frontend/bitebook/src/App.tsx:8-21 | The view starts with an empty list, not loading, with no error and with no cached list. |
| App.PlacesView.FetchPlaces | frontend/bitebook/src/App.tsx:23-46 | The network is asked exactly when a refresh is forced or the cache is missing or at least 300000 ms old. On a cache hit the cached list is shown, the cache is unchanged and there is no error. A successful response caches `{now, data}` and shows it. A non-ok response sets "Failed to fetch places"; a rejection sets its message, or "Unknown error" without one. On both failures the list and the cache stay. `loading` is false afterwards on every path. |
| App.PlacesView.AddPlace | frontend/bitebook/src/App.tsx:54-62 | The new list is the place, with the clock's decimal text as its id, in front of the old list, and the cache holds it. |
| App.PlacesView.ToggleVisited | frontend/bitebook/src/App.tsx:64-70 | The new list is the toggled list and the cache holds it. |
| App.PlacesView.DeletePlace | frontend/bitebook/src/App.tsx:72-76 | The new list keeps the places whose id differs from the given one, and the cache holds it. |
| App.AddThenDeleteRestores | frontend/bitebook/src/App.tsx:54-76 | Deleting the id an add just handed out gives back the list as it was before the add, provided no place in it already had that id. |
| App.ToggledAt | frontend/bitebook/src/App.tsx:65-67 | Toggling keeps length and order. On a place whose id matches, `visited` becomes the boolean negation of its truthiness, and every other field is unchanged. Every other place is unchanged. |
| App.ToggleTwice | frontend/bitebook/src/App.tsx:64-69 | When every `visited` is a boolean, toggling the same id twice restores the list. |
| App.DeleteKeepsOthers | frontend/bitebook/src/App.tsx:72-75 | The list after a delete is an order-preserving subsequence, and a place is in it exactly when it was in the list with another id. |
| App.StatsAddUp | frontend/bitebook/src/App.tsx:164-176 | The "Visited" and "To Visit" counts add up to the total. |
| App.FilteredSpec | frontend/bitebook/src/App.tsx:78-128 | The displayed list is an order-preserving subsequence of the list. A place is shown exactly when it meets all three conditions: the normalised search is in its lowercased name or location; the type matches (equal, plural or containing); its normalised visited flag agrees with "visited" or the to-visit spellings. |
| App.DefaultFiltersShowAll | frontend/bitebook/src/App.tsx:80-127 | With an empty search and both selectors on "all", the displayed list is the whole list. |
| App.TypeMatchIsContainment | frontend/bitebook/src/App.tsx:96-105 | The type condition holds exactly when the filter is "all" or occurs in the trimmed, lowercased type. The equal and plural alternatives add nothing. |
| App.VisitedExamples | frontend/bitebook/src/App.tsx:109-117 | The string "YES" reads as visited; the number 0 does not. |
| App.VisitedVersusTruthy | frontend/bitebook/src/App.tsx:109-117 | On booleans, numbers and null, the filter's visited reading equals the truthiness the counts and the toggle use. On strings, whatever reads as visited is truthy. |
| App.FalseStringDisagrees | frontend/bitebook/src/App.tsx:111-114 | The string "false" is counted as visited by the statistics but filtered as not visited. |
| AppScenarios.ReloadWithinTtl | frontend/bitebook/src/App.tsx:27-31 | A second load four minutes after a successful one asks nothing of the network and shows the first list. |
| AppScenarios.ReloadAfterTtl | frontend/bitebook/src/App.tsx:27-36 | A second load six minutes later asks the network again. A non-ok answer then sets "Failed to fetch places". |
| PlaceDetailsDialog.IsCurrentlyOpen | frontend/bitebook/src/components/PlaceDetailsDialog.tsx:173-203 | The result is true exactly when there are opening hours, the day is a key, and some period of the day has `open*60+openMin <= now <= close*60+closeMin`, both ends inclusive. It is false otherwise, including for an empty list. |
| PlaceDetailsDialog.OvernightNeverCovers | frontend/bitebook/src/components/PlaceDetailsDialog.tsx:192-195 | A period whose closing minute is before its opening minute covers no minute. |
| PlaceDetailsDialog.OvernightReportedClosed | frontend/bitebook/src/components/PlaceDetailsDialog.tsx:189-202 | With Friday 18:00-02:00 as the only period, 23:00 on Friday is not open. |
| PlaceDetailsDialog.OvernightOpenAcrossMidnight | frontend/bitebook/src/components/PlaceDetailsDialog.tsx:192-195 | Under the corrected check, an overnight period keeps the place open from its opening minute to midnight, and on the next day up to its closing minute. |
| PlaceDetailsDialog.AcrossMidnightAgreesWithoutOvernight | frontend/bitebook/src/components/PlaceDetailsDialog.tsx:189-202 | Without overnight periods, the corrected check and `isCurrentlyOpen` agree. |
| PlaceDetailsDialog.TwoDigitMinute | frontend/bitebook/src/components/PlaceDetailsDialog.tsx:356 | A minute 0..59 is written as exactly two digits that read back as the minute. |
| PlaceDetailsDialog.FormatTimeRoundTrip | frontend/bitebook/src/components/PlaceDetailsDialog.tsx:353-358 | Every hour 0..23 and minute 0..59 is read back from its 12-hour text: 0 is "12 AM", 1-11 are AM, 12 is "12 PM", and 13-23 are the hour minus 12, PM. |
| PlaceDetailsDialog.RenderedPeriods | frontend/bitebook/src/components/PlaceDetailsDialog.tsx:360-370 | One text per complete period; periods with an undefined field are dropped. |
| PlaceDetailsDialog.IncompleteOnlyRendersEmpty | frontend/bitebook/src/components/PlaceDetailsDialog.tsx:349-370 | A non-empty list with no complete period renders as the empty string, not as "Closed". |
| PlaceDetailsDialog.FormatHoursPieces | frontend/bitebook/src/components/PlaceDetailsDialog.tsx:348-371 | Splitting a day's text at its commas gives one piece per complete period, in order: "open - close", with a leading space on all but the first. |
| PlaceDetailsDialog.DetailsDialog.constructor | frontend/bitebook/src/components/PlaceDetailsDialog.tsx:76-83 | The dialog starts out of edit mode with no prompt, and its buffers hold the place's values. |
| PlaceDetailsDialog.DetailsDialog.OpenChanged | frontend/bitebook/src/components/PlaceDetailsDialog.tsx:89-94 | Closing the dialog clears edit mode and the unsaved-changes prompt; opening changes neither. |
| PlaceDetailsDialog.DetailsDialog.PlaceChanged | frontend/bitebook/src/components/PlaceDetailsDialog.tsx:97-106 | A new place resets the buffers to its values, except during editing, when the buffers are kept. |
| PlaceDetailsDialog.DetailsDialog.StartEdit | frontend/bitebook/src/components/PlaceDetailsDialog.tsx:110-118 | Edit mode begins with the buffers copied from the place; notes, cuisine and full address default to "". |
| PlaceDetailsDialog.DetailsDialog.SaveEdit | frontend/bitebook/src/components/PlaceDetailsDialog.tsx:120-130 | `onUpdatePlace` is called once with the place id and exactly the six edited fields, and edit mode ends. |
| PlaceDetailsDialog.DetailsDialog.CancelEdit | frontend/bitebook/src/components/PlaceDetailsDialog.tsx:449-455 | The Cancel button of edit mode leaves edit mode. |
| PlaceDetailsDialog.DetailsDialog.DialogOpenChange | frontend/bitebook/src/components/PlaceDetailsDialog.tsx:132-139 | A close request while editing only raises the prompt and is not passed on. Any other request is passed to `onOpenChange` and the prompt is unchanged. |
| PlaceDetailsDialog.DetailsDialog.DiscardChanges | frontend/bitebook/src/components/PlaceDetailsDialog.tsx:141-145 | Discarding leaves edit mode, hides the prompt and asks to close. |
| PlaceDetailsDialog.DetailsDialog.SaveAndClose | frontend/bitebook/src/components/PlaceDetailsDialog.tsx:147-151 | The edits are sent as by a save, then edit mode ends, the prompt is hidden and the dialog asks to close. |
| PlaceDetailsDialog.DetailsDialog.CancelClose | frontend/bitebook/src/components/PlaceDetailsDialog.tsx:153-155 | Keep-editing hides only the prompt. |
| AddPlaceDialog.CleanAddressFailsIff | frontend/bitebook/src/components/AddPlaceDialog.tsx:78-79 | The clean-up fails, because the second-to-last segment does not exist, exactly on addresses without a comma. |
| AddPlaceDialog.CleanCityShape | frontend/bitebook/src/components/AddPlaceDialog.tsx:79 | The cleaned city holds only letters, the two Latin ranges and white space, has no comma, and is trimmed. |
| AddPlaceDialog.CleanAddressSplits | frontend/bitebook/src/components/AddPlaceDialog.tsx:78-80 | The cleaned address is the cleaned second-to-last segment, then ", " and the trimmed last segment. It splits back into exactly those two parts. |
| AddPlaceDialog.CleanAddressIdempotent | frontend/bitebook/src/components/AddPlaceDialog.tsx:78-80 | Cleaning a cleaned address gives it back unchanged. |
| AddPlaceDialog.PayloadOf | frontend/bitebook/src/components/AddPlaceDialog.tsx:95-103 | The payload location is the cleaned address when that is non-empty, and the typed location otherwise. The rating is absent exactly when its text is empty, and otherwise is the parsed text. The other fields are copied from the form. |
| AddPlaceDialog.AddPlaceForm.constructor | frontend/bitebook/src/components/AddPlaceDialog.tsx:35-56 | The dialog starts closed, with the default form (Restaurant, unvisited, empty strings) and no cleaned address. |
| AddPlaceDialog.AddPlaceForm.OpenChange | frontend/bitebook/src/components/AddPlaceDialog.tsx:58-72 | Closing resets the form to its defaults; the cleaned address is kept. |
| AddPlaceDialog.AddPlaceForm.Edit | frontend/bitebook/src/components/AddPlaceDialog.tsx:139-191 | An input's change handler replaces the form with the edited value; open state, cleaned address and sent payloads stay. |
| AddPlaceDialog.AddPlaceForm.SelectGooglePlace | frontend/bitebook/src/components/AddPlaceDialog.tsx:77-89 | On an address with a comma, the cleaned address is remembered, and only name, location and Google id change in the form. Otherwise nothing changes. |
| AddPlaceDialog.AddPlaceForm.Submit | frontend/bitebook/src/components/AddPlaceDialog.tsx:91-121 | Nothing is sent while name or location is empty. Otherwise the payload is sent. Success resets the form and closes the dialog; failure leaves the form and the open state unchanged. The cleaned address is never reset. |
| AddPlaceDialog.StaleAddressOverridesTypedLocation | frontend/bitebook/src/components/AddPlaceDialog.tsx:56-116 | After a place is picked, the dialog closed and a location typed by hand, the next submit still sends the old cleaned address. |
| RateAndNoteDialog.RateDialog.constructor | frontend/bitebook/src/components/RateAndNoteDialog.tsx:17-19 | Rating and notes start empty, and the dialog is not submitting. |
| RateAndNoteDialog.RateDialog.Type | frontend/bitebook/src/components/RateAndNoteDialog.tsx:60-75 | Typing sets rating and notes to the typed text and changes nothing else. |
| RateAndNoteDialog.RateDialog.BeginSubmit | frontend/bitebook/src/components/RateAndNoteDialog.tsx:21-27 | With an empty rating or place id nothing happens. Otherwise `isSubmitting` becomes true and `onSubmit` is called with the id, the parsed rating and the notes. |
| RateAndNoteDialog.RateDialog.FinishSubmit | frontend/bitebook/src/components/RateAndNoteDialog.tsx:26-35 | On success rating and notes are cleared and `onClose` is called once. On failure both are kept and `onClose` is not called. `isSubmitting` is false either way. |
| RateAndNoteDialog.RateDialog.OpenChange | frontend/bitebook/src/components/RateAndNoteDialog.tsx:41-47 | Closing clears rating and notes and calls `onClose`; opening changes nothing. |
| RateAndNoteDialog.RateDialog.Cancel | frontend/bitebook/src/components/RateAndNoteDialog.tsx:81-88 | Cancel calls `onClose` without clearing the fields, and does nothing while submitting. |
| RateAndNoteDialog.SubmitOnce | frontend/bitebook/src/components/RateAndNoteDialog.tsx:21-36 | Over a whole submit, the flag is up during the call and down after it whatever the outcome. Success clears the fields and closes; failure keeps them and does not close. |
| RateAndNoteDialog.EnabledMeansSubmits | frontend/bitebook/src/components/RateAndNoteDialog.tsx:89-94 | For a place with an id, the Submit button is enabled exactly when a submit goes through. |
| PlaceDetailsResponse.FormattedDayString | backend/src/main/java/com/bitebook/Models/PlaceDetailsResponse.java:113-116 | 0..6 give Sunday..Saturday; any other index fails with an out-of-bounds error. |
| PlaceDetailsResponse.DayIndex | backend/src/main/java/com/bitebook/Models/PlaceDetailsResponse.java:114 | A recognised name maps to the index whose name it is. |
| PlaceDetailsResponse.DayNameRoundTrip | backend/src/main/java/com/bitebook/Models/PlaceDetailsResponse.java:113-116 | Naming an index 0..6 and looking the name up gives the index back, so the seven names are distinct. |
| PlaceDetailsResponse.Deserialize | backend/src/main/java/com/bitebook/Models/PlaceDetailsResponse.java:77-111 | The loop builds the day-to-periods map that the grouping function describes, or fails with the first bad day index. |
| PlaceDetailsResponse.GroupedErrorPersists | backend/src/main/java/com/bitebook/Models/PlaceDetailsResponse.java:87-91 | Once a period with a bad day index has been read, the whole result is that error. |
| PlaceDetailsResponse.GroupedOkIff | backend/src/main/java/com/bitebook/Models/PlaceDetailsResponse.java:87-91 | Grouping succeeds exactly when every period with "open" has a day in 0..6. Periods without "open" are never inspected. |
| PlaceDetailsResponse.GroupedByDay | backend/src/main/java/com/bitebook/Models/PlaceDetailsResponse.java:88-105 | Each day's list holds exactly the periods that open on that day, in input order. A day is a key exactly when at least one period opens on it. A missing "close" leaves the closing time at 0:00. |
| PlaceDetailsResponse.StoredAfterAppend | backend/src/main/java/com/bitebook/Models/PlaceDetailsResponse.java:103-105 | Appending a period under one day adds one to that day's count and to no other day's count. |
| PlaceDetailsResponse.StoredCount | backend/src/main/java/com/bitebook/Models/PlaceDetailsResponse.java:86-107 | The seven lists together hold as many periods as there are period nodes with "open". |
| PlaceDetailsResponse.DeserializedDefaults | backend/src/main/java/com/bitebook/Models/PlaceDetailsResponse.java:80-86 | Without "periods" the map is empty, not null. `openNow` is false unless given as true. |
| PlaceEntity.PlaceTypeValueOf | backend/src/main/java/com/bitebook/Services/FeedService.java:92 | `PlaceType.valueOf` returns the constant with exactly the given name, or fails with that name. |
| FeedService.ParsePlaceType | backend/src/main/java/com/bitebook/Services/FeedService.java:190-197 | Null or blank text gives no type. Otherwise the trimmed text names the constant. An unknown name is an "Invalid place type" error carrying the text as given. |
| FeedService.ParsePlaceTypeName | backend/src/main/java/com/bitebook/Services/FeedService.java:190-197 | A constant's name, with or without a leading space, parses back to the constant. |
| FeedService.ParsePlaceTypeIsCaseSensitive | backend/src/main/java/com/bitebook/Services/FeedService.java:193-195 | "bar" is rejected as an invalid place type. |
| FeedService.ParseVisited | backend/src/main/java/com/bitebook/Services/FeedService.java:199-202 | Null or blank text gives null. Otherwise the result is true exactly when the trimmed text equals "true" ignoring case. |
| FeedService.ParseVisitedTrueText | backend/src/main/java/com/bitebook/Services/FeedService.java:199-202 | "true" and "TRUE" give true. |
| FeedService.ParseVisitedOtherWords | backend/src/main/java/com/bitebook/Services/FeedService.java:199-202 | "false" and "yes" give false, not null. |
| FeedService.GetFeed | backend/src/main/java/com/bitebook/Services/FeedService.java:87-106 | "all" in any case returns every place, whatever `visited` is. The call fails exactly when the name is not "all" in any case and is not a constant's exact name, and the error carries that name. A filtered feed is never longer than the list. |
| FeedService.GetFeedSpec | backend/src/main/java/com/bitebook/Services/FeedService.java:92-105 | A filtered feed is an order-preserving subsequence. A place is in it exactly when it has the named type and, unless the filter is null, the same visited flag. |
| FeedService.GetFeedNullVisitedExcluded | backend/src/main/java/com/bitebook/Services/FeedService.java:93-101 | Places with a null visited flag are in neither the visited nor the unvisited feed. Those two feeds together count exactly the places of the type whose flag is set. |
| FeedService.GetFeedAllIgnoresVisited | backend/src/main/java/com/bitebook/Services/FeedService.java:88-91 | "all" and "All" return every place, for any visited filter. |
| FeedService.ConvertToOpeningHoursMap | backend/src/main/java/com/bitebook/Services/FeedService.java:141-162 | The copy has exactly the input's day keys, or is empty when the inner map is null. Each list has the same length and order, with all four fields copied. |
| FeedService.TemporarilyClosedFlaggedPermanent | backend/src/main/java/com/bitebook/Services/FeedService.java:48 | "CLOSED_TEMPORARILY" sets the closed flag; "OPERATIONAL" does not. |
| FeedService.PermanentlyClosedOnlyWhenPermanent | backend/src/main/java/com/bitebook/Services/FeedService.java:128 | Among the three business statuses, the corrected flag is set only by "CLOSED_PERMANENTLY", and it implies the flag as written. |
| FeedService.Enriched | backend/src/main/java/com/bitebook/Services/FeedService.java:46-57 | The closed flag is derived from "contains CLOSED" only when it was null, and a null business status then throws. Opening hours are replaced only when the details carry some. No other field changes. |
| FeedService.EnrichedIdempotent | backend/src/main/java/com/bitebook/Services/FeedService.java:46-55 | Enriching a place a second time with the same details changes nothing. |
| FeedService.FeedStore.constructor | backend/src/main/java/com/bitebook/Models/Place.java:70-71 | The repository holds the given places without their opening hours, which are never stored. |
| FeedService.FeedStore.GetPlace | backend/src/main/java/com/bitebook/Services/FeedService.java:34-58 | An unknown id is "Place not found". With a Google id, the result is the stored place enriched with the details fetched by id, and the repository is not written. Without one, the first match of the name search overwrites the Google id, address, website and closed flag. That record is saved before it is enriched, and a failed search leaves the repository unchanged. |
| FeedService.MatchedRecord | backend/src/main/java/com/bitebook/Services/FeedService.java:65-83 | An empty search result is "No place found with name", and a first match without a business status throws. Otherwise only the Google id, address, website and closed flag change, and the flag is overwritten even when it was set. |
| FeedService.ByNameOverwritesClosedFlag | backend/src/main/java/com/bitebook/Services/FeedService.java:42-49 | On the by-name path, a place stored as open whose match is "CLOSED_TEMPORARILY" comes back flagged closed. |
| FeedService.AddedHoursNotKept | backend/src/main/java/com/bitebook/Models/Place.java:70-71 | A place added with opening hours and read back with details that carry none comes back with no hours, because the hours are not stored. |
| FeedService.NewPlaceRecord | backend/src/main/java/com/bitebook/Services/FeedService.java:108-139 | The new entity has: the fresh id; both timestamps at `now`; the parsed type and visited flag; the request's name, cuisine, location, influence, notes, rating, social media and Google id. Without details, the address is null and the website is the request's. With details, the closed flag is "status contains CLOSED", and address and website come from the details. A closed place gets no hours. An open place gets the converted hours of its details, and if the details lack hours the call throws. |
| FeedService.AddPlaceWithoutHoursFails | backend/src/main/java/com/bitebook/Services/FeedService.java:125-131 | An operational bar whose details carry no opening hours cannot be added. |
| FeedService.GuardedNewPlaceRecord | backend/src/main/java/com/bitebook/Services/FeedService.java:125-135 | With hours copied only when present, adding succeeds exactly when the type parses and the details, if any, carry a business status. |
| FeedService.GuardedAgreesWhereWrittenSucceeds | backend/src/main/java/com/bitebook/Services/FeedService.java:125-135 | Wherever the code as written succeeds, the guarded record is the same entity. |
| FeedService.FeedStore.AddPlace | backend/src/main/java/com/bitebook/Services/FeedService.java:108-139 | The record is saved under the fresh id, without its opening hours, unless building it threw. In that case the repository is unchanged. |
| FeedService.Updated | backend/src/main/java/com/bitebook/Services/FeedService.java:170-173 | Rating and notes are overwritten with the request's values, nulls included. The place is marked visited and stamped with `now`; no other field changes. |
| FeedService.UpdatedTwice | backend/src/main/java/com/bitebook/Services/FeedService.java:170-173 | Repeating an update later changes only the timestamp. |
| FeedService.FeedStore.UpdatePlace | backend/src/main/java/com/bitebook/Services/FeedService.java:164-175 | An unknown id is "Place not found" and nothing changes. Otherwise only that place is replaced by its update. |
| FeedService.FeedStore.DeletePlace | backend/src/main/java/com/bitebook/Services/FeedService.java:177-181 | The id is no longer stored and every other place stays. Deleting an unknown id changes nothing. |

## Left out

- Network and JSON I/O: `fetch` and `res.json()`, the Google proxy, RestTemplate. Responses are parameters. The JSON node of the deserializer is a datatype, so "day", "hour" and "minute" are always present integers; a missing one, which throws in Java, is not modelled.
- Persistence: the repository is a map from id to place. `findAll`'s order is the order of the list handed to `GetFeed`. UUID parsing of ids is not modelled; ids are strings.
- Spring and Caffeine caching (`@Cacheable`, `@CachePut`, `@CacheEvict`, `invalidateCache`) is library behaviour and is not modelled.
- `UpdateDb` is not modelled. For each id it calls `GetPlace` and then the by-name lookup; that lookup's effect on one place is `MatchedRecord` followed by a save. The Google lookups by id and by name are parameters of `GetPlace`: the details, and the list the name search returned. A null list is treated like an empty one.
- `GetAllPlaces` only prints and returns `findAll`.
- Browser and Google SDK glue (`GooglePlacesSearch`, `useLoadGoogleMaps`, `useMediaQuery`), JSX and icons.
- Clock and ids: `Date.now()`, `new Date()`, the weekday name and `UUID.randomUUID()` are parameters.
- App.PlacesView.ToggleVisited: the list handlers compare the client's `id`, and the model's `id` is always a string. In the program, places fetched from the backend carry only `placeId`, and the cards pass `place.placeId`. Toggling or deleting a fetched place then matches nothing. Toggling a locally added place, whose `placeId` is undefined, flips every fetched place (`undefined === undefined`). The model does not show either effect.
- App.PlacesView.DeletePlace: the same key mismatch applies. Deleting a locally added place removes every fetched place. The model does not show this.
- FeedService.NewPlaceRecord: `AddPlace` reads `new Date()` twice, for the update and the creation stamps; the model uses one instant for both.
- App.PlacesView.AddPlace: `handleAddPlace` reads `Date.now()` twice, for the id and for the cache stamp; the model uses one instant for both.
- App.PlacesView.FetchPlaces: the fetch is one atomic step, so interleavings of concurrent fetches and React's batching of state updates are not modelled.
- Floating point: ratings are reals. `parseFloat` is a function parameter, and NaN and Infinity are not modelled. A `visited` number is a real, so NaN is not among them.
- Text: Java's `equalsIgnoreCase` folds ASCII letters only. JavaScript's `toLowerCase` folds ASCII and Latin-1 capitals only. JavaScript strings are modelled as sequences of code points rather than UTF-16 units.
- `PlaceType.java` is not part of this model. Its constants are taken to be Restaurant, Bar and Cafe, the values the forms offer.
- App.PlacesView: the module-level `placesCache` is a field of the view, so it is shared by one view rather than by every mount.
- RateAndNoteDialog.RateDialog.FinishSubmit: it requires that a submit is in flight. The await is split into a before and an after step, so other handlers may run between them.
- PlaceDetailsDialog.IsCurrentlyOpen: a period field that is `undefined` makes the comparison false (NaN). Other non-numeric JSON values are not modelled.

## Findings

| source | as written | input that shows it | evidently intended | confidence | as-written member | corrected member |
|---|---|---|---|---|---|---|
| frontend/bitebook/src/components/PlaceDetailsDialog.tsx:192-195 | A period is open when the opening minute is at most now and now is at most the closing minute, within one day. | Friday 18:00-02:00, asked on Friday at 23:00 | A period that closes after midnight is open until midnight and on the next day up to its closing time. | medium, not executed | PlaceDetailsDialog.OvernightReportedClosed | PlaceDetailsDialog.OvernightOpenAcrossMidnight |
| backend/src/main/java/com/bitebook/Services/FeedService.java:129-131 | An open place always copies the details' opening hours, even when they are null, and the copy dereferences them. | Details with businessStatus "OPERATIONAL" and no regularOpeningHours | Copy the hours only when present, as `GetPlace` does at line 51. | high, not executed | FeedService.AddPlaceWithoutHoursFails | FeedService.GuardedNewPlaceRecord |
| backend/src/main/java/com/bitebook/Services/FeedService.java:128 | `isPermanentlyClosed` is "businessStatus contains CLOSED". | businessStatus "CLOSED_TEMPORARILY" | Only "CLOSED_PERMANENTLY" sets the flag, which the details dialog shows as "Permanently Closed". | medium, not executed | FeedService.TemporarilyClosedFlaggedPermanent | FeedService.PermanentlyClosedOnlyWhenPermanent |

The operations themselves (`IsCurrentlyOpen`, `NewPlaceRecord` and `FeedStore.AddPlace`, `Enriched`) follow the code as written. The corrected definitions (`OpenAtAcrossMidnight`, `GuardedNewPlaceRecord`, `PermanentlyClosedFromStatus`) sit beside them, with their properties proved.
