/** The place record as the browser client holds it (the `Place` of the frontend),
    with the JSON value shapes the client has to cope with. */
module ClientPlaces {
  import opened Wrappers

  /** A JSON value as JavaScript sees it after `res.json()`: the backend may send
      `visited` as a boolean, a string, a number or nothing. */
  datatype JsValue = JsBool(b: bool) | JsString(s: string) | JsNumber(n: real) | JsNull

  /** JavaScript truthiness: what `!v`, `if (v)` and `filter(p => p.visited)` test. */
  predicate Truthy(v: JsValue) {
    match v
    case JsBool(b) => b
    case JsString(s) => s != ""
    case JsNumber(n) => n != 0.0
    case JsNull => false
  }

  /** One opening period of a day; a field missing from the JSON is `None` (`undefined`). */
  datatype HoursPeriod = HoursPeriod(
    openingHour: Option<int>,
    openingMinute: Option<int>,
    closingHour: Option<int>,
    closingMinute: Option<int>)

  /** Weekday name ("Monday" ... "Sunday") to the periods of that day. */
  type OpeningHours = map<string, seq<HoursPeriod>>

  /** A place in the client's list. `id` is the key the list handlers compare;
      the backend's `placeId` is not carried as a second key. */
  datatype Place = Place(
    id: string,
    name: string,
    placeType: string,
    location: string,
    visited: JsValue,
    rating: Option<real>,
    notes: Option<string>,
    cuisine: Option<string>,
    fullAddress: Option<string>,
    googlePlaceId: Option<string>,
    openingHours: Option<OpeningHours>,
    isPermanentlyClosed: Option<bool>)
}
