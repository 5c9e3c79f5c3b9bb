/** The backend's place entity and its nested opening-hours period, as stored
    by the repository. Java's nullable references are `Option`s. */
module PlaceEntity {
  import opened Wrappers

  /** The kinds of place. */
  datatype PlaceType = Restaurant | Bar | Cafe

  /** The enum constant's name. */
  function PlaceTypeName(t: PlaceType): string {
    match t
    case Restaurant => "Restaurant"
    case Bar => "Bar"
    case Cafe => "Cafe"
  }

  /** `PlaceType.valueOf(name)`: the constant with exactly that name, or an
      IllegalArgumentException. */
  function PlaceTypeValueOf(name: string): (r: Result<PlaceType>)
    ensures r.Ok? ==> PlaceTypeName(r.value) == name
    ensures r.Err? ==> r.error == UnknownEnumConstant(name)
  {
    if name == "Restaurant" then Ok(Restaurant)
    else if name == "Bar" then Ok(Bar)
    else if name == "Cafe" then Ok(Cafe)
    else Err(UnknownEnumConstant(name))
  }

  /** Every constant is found under its own name. */
  lemma ValueOfName(t: PlaceType)
    ensures PlaceTypeValueOf(PlaceTypeName(t)) == Ok(t)
  {
  }

  /** Every constant's name begins with a capital, so a name that begins with a
      lower-case letter is unknown. */
  lemma LowerCaseNameUnknown(name: string)
    requires |name| > 0 && 'a' <= name[0] <= 'z'
    ensures PlaceTypeValueOf(name) == Err(UnknownEnumConstant(name))
  {
    assert "Restaurant"[0] == 'R' && "Bar"[0] == 'B' && "Cafe"[0] == 'C';
  }

  /** `Place.OpeningHoursPeriod`. */
  datatype HoursPeriod = HoursPeriod(openingHour: int, openingMinute: int, closingHour: int, closingMinute: int)

  /** `Place`; timestamps are milliseconds since the epoch. */
  datatype Place = Place(
    placeId: string,
    name: Option<string>,
    cuisine: Option<string>,
    placeType: Option<PlaceType>,
    location: Option<string>,
    influence: Option<string>,
    visited: Option<bool>,
    notes: Option<string>,
    rating: Option<real>,
    website: Option<string>,
    socialMedia: Option<string>,
    googlePlaceId: Option<string>,
    lastUpdatedDateTime: Option<int>,
    createdDateTime: Option<int>,
    fullAddress: Option<string>,
    isPermanentlyClosed: Option<bool>,
    openingHours: map<string, seq<HoursPeriod>>)
}
