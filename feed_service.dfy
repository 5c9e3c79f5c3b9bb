/** The backend feed service: feed filtering, the request-string parsers, the
    opening-hours copy, the enrichment of a stored place with Google details, and
    the add / update / delete rules over the repository, modelled as a map from id
    to place. */
module FeedService {
  import opened Wrappers
  import opened Text
  import opened Seqs
  import opened PlaceEntity
  import Details = PlaceDetailsResponse

  /** `AddPlaceRequest`: every field may be null. */
  datatype AddPlaceRequest = AddPlaceRequest(
    name: Option<string>,
    cuisine: Option<string>,
    placeType: Option<string>,
    location: Option<string>,
    influence: Option<string>,
    visited: Option<string>,
    notes: Option<string>,
    website: Option<string>,
    socialMedia: Option<string>,
    rating: Option<real>,
    googlePlaceId: Option<string>)

  /** `UpdatePlaceRequest`. */
  datatype UpdatePlaceRequest = UpdatePlaceRequest(rating: Option<real>, notes: Option<string>)

  // ---------------------------------------------------------------------------
  // Parsers
  // ---------------------------------------------------------------------------

  /** `parsePlaceType`: null or blank is no type; otherwise the trimmed text must be
      a constant's exact name, and any other text is an "Invalid place type" error
      carrying the text as given. */
  function ParsePlaceType(text: Option<string>): (r: Result<Option<PlaceType>>)
    ensures r == Ok(None) <==> text.None? || IsBlank(text.value)
    ensures r.Ok? && r.value.Some? ==> text.Some? && PlaceTypeName(r.value.value) == JavaTrim(text.value)
    ensures r.Err? ==> text.Some? && r.error == InvalidPlaceType(text.value)
  {
    if text.None? || IsBlank(text.value) then Ok(None)
    else
      match PlaceTypeValueOf(JavaTrim(text.value))
      case Ok(t) => Ok(Some(t))
      case Err(_) => Err(InvalidPlaceType(text.value))
  }

  /** A word of letters is not blank and is its own trim. */
  lemma LetterWord(s: string)
    requires |s| > 0 && forall i :: 0 <= i < |s| ==> 'A' <= s[i] <= 'z'
    ensures !IsBlank(s) && JavaTrim(s) == s
    ensures !IsBlank(" " + s) && JavaTrim(" " + s) == s
  {
    assert !IsJavaWhitespace(s[0]);
    TrimmedIsFixed(s, IsJavaTrimmable);
    TrimLeadingSpace(' ', s, IsJavaTrimmable);
    assert [' '] + s == " " + s;
    assert (" " + s)[1] == s[0];
  }

  /** A word of letters, with or without a leading space, is looked up as it is. */
  lemma ParsePlaceTypeWord(word: string)
    requires |word| > 0 && forall i :: 0 <= i < |word| ==> 'A' <= word[i] <= 'z'
    ensures PlaceTypeValueOf(word).Ok? ==> ParsePlaceType(Some(word)) == Ok(Some(PlaceTypeValueOf(word).value))
    ensures PlaceTypeValueOf(word).Ok? ==> ParsePlaceType(Some(" " + word)) == Ok(Some(PlaceTypeValueOf(word).value))
    ensures PlaceTypeValueOf(word).Err? ==> ParsePlaceType(Some(word)) == Err(InvalidPlaceType(word))
  {
    LetterWord(word);
  }

  /** A constant's name, with or without a leading space, parses back to the constant. */
  lemma ParsePlaceTypeName(t: PlaceType)
    ensures ParsePlaceType(Some(PlaceTypeName(t))) == Ok(Some(t))
    ensures ParsePlaceType(Some(" " + PlaceTypeName(t))) == Ok(Some(t))
  {
    ValueOfName(t);
    match t
    case Restaurant => ParsePlaceTypeWord("Restaurant");
    case Bar => ParsePlaceTypeWord("Bar");
    case Cafe => ParsePlaceTypeWord("Cafe");
  }

  /** Constant names are case-sensitive: the lower-case "bar" is rejected. */
  lemma ParsePlaceTypeIsCaseSensitive()
    ensures ParsePlaceType(Some("bar")) == Err(InvalidPlaceType("bar"))
  {
    LowerCaseNameUnknown("bar");
    ParsePlaceTypeWord("bar");
  }

  /** `parseVisited`: null or blank is unknown; otherwise `Boolean.valueOf` of the
      trimmed text, true exactly for "true" in any case. */
  function ParseVisited(text: Option<string>): (r: Option<bool>)
    ensures r.None? <==> text.None? || IsBlank(text.value)
    ensures r.Some? ==> (r.value <==> EqualsIgnoreCase(JavaTrim(text.value), "true"))
  {
    if text.None? || IsBlank(text.value) then None
    else Some(EqualsIgnoreCase(JavaTrim(text.value), "true"))
  }

  /** A word of letters parses to whether it is "true" ignoring case. */
  lemma ParseVisitedWord(s: string)
    requires |s| > 0 && forall i :: 0 <= i < |s| ==> 'A' <= s[i] <= 'z'
    ensures ParseVisited(Some(s)) == Some(EqualsIgnoreCase(s, "true"))
  {
    LetterWord(s);
  }

  /** A four-letter word that folds to "TRUE" parses to true. */
  lemma ParseVisitedTrueWord(word: string)
    requires |word| == 4
    requires UpperAscii(word[0]) == 'T' && UpperAscii(word[1]) == 'R'
    requires UpperAscii(word[2]) == 'U' && UpperAscii(word[3]) == 'E'
    ensures ParseVisited(Some(word)) == Some(true)
  {
    var lower := "true";
    forall i | 0 <= i < 4
      ensures 'A' <= word[i] <= 'z' && UpperAscii(word[i]) == UpperAscii(lower[i])
    {
    }
    ParseVisitedWord(word);
  }

  /** "true" parses to true in any case. */
  lemma ParseVisitedTrueText()
    ensures ParseVisited(Some("true")) == Some(true)
    ensures ParseVisited(Some("TRUE")) == Some(true)
  {
    ParseVisitedTrueWord("true");
    ParseVisitedTrueWord("TRUE");
  }

  /** Other words, "yes" among them, parse to false rather than to unknown. */
  lemma ParseVisitedOtherWords()
    ensures ParseVisited(Some("false")) == Some(false)
    ensures ParseVisited(Some("yes")) == Some(false)
  {
    ParseVisitedWord("false");
    ParseVisitedWord("yes");
  }

  // ---------------------------------------------------------------------------
  // The feed
  // ---------------------------------------------------------------------------

  /** The stream filter of `GetFeed` for a type and a visited filter. */
  predicate InFeed(p: Place, t: PlaceType, visited: Option<bool>) {
    p.placeType == Some(t) && (visited.None? || p.visited == visited)
  }

  /** `GetFeed` over the repository's places `all`, in their order: "all" in any
      case returns everything; otherwise the type must be a constant's exact name. */
  function GetFeed(all: seq<Place>, typeName: string, visited: Option<bool>): (r: Result<seq<Place>>)
    ensures EqualsIgnoreCase(typeName, "ALL") ==> r == Ok(all)
    ensures r.Err? <==> !EqualsIgnoreCase(typeName, "ALL") && PlaceTypeValueOf(typeName).Err?
    ensures r.Err? ==> r.error == UnknownEnumConstant(typeName)
    ensures r.Ok? ==> |r.value| <= |all|
  {
    if EqualsIgnoreCase(typeName, "ALL") then Ok(all)
    else
      match PlaceTypeValueOf(typeName)
      case Err(e) => Err(e)
      case Ok(t) => Ok(Filter(all, p => InFeed(p, t, visited)))
  }

  /** A filtered feed is an order-preserving subsequence of the places, and holds
      exactly the places of the named type whose visited flag equals the filter
      (any flag when the filter is null). */
  lemma GetFeedSpec(all: seq<Place>, typeName: string, visited: Option<bool>, p: Place)
    requires !EqualsIgnoreCase(typeName, "ALL") && GetFeed(all, typeName, visited).Ok?
    ensures IsSubsequence(GetFeed(all, typeName, visited).value, all)
    ensures p in GetFeed(all, typeName, visited).value <==>
      p in all && PlaceTypeName(p.placeType.GetOr(Restaurant)) == typeName && p.placeType.Some?
      && (visited.None? || p.visited == visited)
  {
    var t := PlaceTypeValueOf(typeName).value;
    var keep := (q: Place) => InFeed(q, t, visited);
    FilterIsSubsequence(all, keep);
    FilterMembership(all, keep, p);
    if p.placeType.Some? && PlaceTypeName(p.placeType.value) == typeName {
      ValueOfName(p.placeType.value);
    }
  }

  /** Filtering on visited true or false leaves out every place whose flag is null;
      the two filtered feeds together hold exactly the places of the type whose flag
      is set. */
  lemma GetFeedNullVisitedExcluded(all: seq<Place>, t: PlaceType)
    ensures var yes := GetFeed(all, PlaceTypeName(t), Some(true));
            var no := GetFeed(all, PlaceTypeName(t), Some(false));
      yes.Ok? && no.Ok?
      && (forall p :: p in yes.value || p in no.value ==> p.visited.Some?)
      && |yes.value| + |no.value| == |Filter(all, (p: Place) => InFeed(p, t, None) && p.visited.Some?)|
  {
    ValueOfName(t);
    assert !EqualsIgnoreCase(PlaceTypeName(t), "ALL") by {
      assert UpperAscii(PlaceTypeName(t)[0]) != UpperAscii("ALL"[0]);
    }
    var keepYes := (p: Place) => InFeed(p, t, Some(true));
    var keepNo := (p: Place) => InFeed(p, t, Some(false));
    forall p | p in Filter(all, keepYes) || p in Filter(all, keepNo)
      ensures p.visited.Some?
    {
      FilterMembership(all, keepYes, p);
      FilterMembership(all, keepNo, p);
    }
    var keepSet := (p: Place) => InFeed(p, t, None) && p.visited.Some?;
    assert forall p :: keepSet(p) == (keepYes(p) || keepNo(p)) by {
      forall p ensures keepSet(p) == (keepYes(p) || keepNo(p)) {
        if keepSet(p) {
          if p.visited.value {
            assert p.visited == Some(true);
            assert keepYes(p);
          } else {
            assert p.visited == Some(false);
            assert keepNo(p);
          }
        }
      }
    }
    FilterSplit(all, keepYes, keepNo, keepSet);
  }

  /** "all" is recognised whatever its case, and then the visited filter is ignored. */
  lemma GetFeedAllIgnoresVisited(all: seq<Place>, visited: Option<bool>)
    ensures GetFeed(all, "all", visited) == Ok(all)
    ensures GetFeed(all, "All", visited) == Ok(all)
  {
    assert EqualsIgnoreCase("all", "ALL");
    assert EqualsIgnoreCase("All", "ALL");
  }

  // ---------------------------------------------------------------------------
  // Opening hours copy
  // ---------------------------------------------------------------------------

  /** One period copied into the entity's period type. */
  function CopyPeriod(p: Details.Period): HoursPeriod {
    HoursPeriod(p.openingHour, p.openingMinute, p.closingHour, p.closingMinute)
  }

  /** The map `convertToOpeningHoursMap` builds. */
  function ConvertedHours(hours: Details.OpeningHour): map<string, seq<HoursPeriod>> {
    if hours.openingHours.None? then map[]
    else
      var source := hours.openingHours.value;
      map day | day in source :: seq(|source[day]|, i requires 0 <= i < |source[day]| => CopyPeriod(source[day][i]))
  }

  /** `convertToOpeningHoursMap`: day by day, the periods copied in order. The days
      are visited in no particular order, as a hash map's are. */
  method ConvertToOpeningHoursMap(hours: Details.OpeningHour) returns (result: map<string, seq<HoursPeriod>>)
    ensures hours.openingHours.None? ==> result == map[]
    ensures hours.openingHours.Some? ==> result.Keys == hours.openingHours.value.Keys
    ensures forall day :: day in result ==>
      var periods := hours.openingHours.value[day];
      |result[day]| == |periods|
      && forall i :: 0 <= i < |periods| ==>
        result[day][i].openingHour == periods[i].openingHour
        && result[day][i].openingMinute == periods[i].openingMinute
        && result[day][i].closingHour == periods[i].closingHour
        && result[day][i].closingMinute == periods[i].closingMinute
    ensures result == ConvertedHours(hours)
  {
    result := map[];
    if hours.openingHours.Some? {
      var source := hours.openingHours.value;
      var remaining := source.Keys;
      while remaining != {}
        invariant remaining <= source.Keys
        invariant result.Keys == source.Keys - remaining
        invariant forall day :: day in result ==> result[day] == ConvertedHours(hours)[day]
        decreases remaining
      {
        var day :| day in remaining;
        var periodList := source[day];
        var hoursPeriods: seq<HoursPeriod> := [];
        var i := 0;
        while i < |periodList|
          invariant 0 <= i <= |periodList|
          invariant |hoursPeriods| == i
          invariant forall k :: 0 <= k < i ==> hoursPeriods[k] == CopyPeriod(periodList[k])
        {
          var period := periodList[i];
          var hoursPeriod := HoursPeriod(0, 0, 0, 0);
          hoursPeriod := hoursPeriod.(openingHour := period.openingHour);
          hoursPeriod := hoursPeriod.(openingMinute := period.openingMinute);
          hoursPeriod := hoursPeriod.(closingHour := period.closingHour);
          hoursPeriod := hoursPeriod.(closingMinute := period.closingMinute);
          hoursPeriods := hoursPeriods + [hoursPeriod];
          i := i + 1;
        }
        assert hoursPeriods == ConvertedHours(hours)[day];
        result := result[day := hoursPeriods];
        remaining := remaining - {day};
      }
    }
  }

  // ---------------------------------------------------------------------------
  // The closed flag
  // ---------------------------------------------------------------------------

  /** The closed flag as written: the business status contains "CLOSED". */
  predicate ClosedFromStatus(status: string) {
    Contains(status, "CLOSED")
  }

  /** A status that begins with "CLOSED" sets the flag. */
  lemma StartsClosed(status: string)
    requires |status| >= 6
    requires status[0] == 'C' && status[1] == 'L' && status[2] == 'O'
    requires status[3] == 'S' && status[4] == 'E' && status[5] == 'D'
    ensures ClosedFromStatus(status)
  {
    assert status[..6] == "CLOSED";
    assert StartsWith(status, "CLOSED");
  }

  /** A temporarily closed business is flagged as permanently closed. */
  lemma TemporarilyClosedFlaggedPermanent()
    ensures ClosedFromStatus("CLOSED_TEMPORARILY")
    ensures !ClosedFromStatus("OPERATIONAL")
  {
    StartsClosed("CLOSED_TEMPORARILY");
    NotContainsWithoutFirstChar("OPERATIONAL", "CLOSED");
  }

  /** The permanently-closed flag the field's name promises. */
  predicate PermanentlyClosedFromStatus(status: string) {
    status == "CLOSED_PERMANENTLY"
  }

  /** Of the three business statuses, only "CLOSED_PERMANENTLY" sets the corrected
      flag, and whatever sets it also sets the flag as written. */
  lemma PermanentlyClosedOnlyWhenPermanent(status: string)
    requires status in {"OPERATIONAL", "CLOSED_TEMPORARILY", "CLOSED_PERMANENTLY"}
    ensures PermanentlyClosedFromStatus(status) ==> ClosedFromStatus(status)
    ensures status == "CLOSED_TEMPORARILY" ==> !PermanentlyClosedFromStatus(status) && ClosedFromStatus(status)
  {
    StartsClosed("CLOSED_PERMANENTLY");
    TemporarilyClosedFlaggedPermanent();
  }

  // ---------------------------------------------------------------------------
  // GetPlace enrichment
  // ---------------------------------------------------------------------------

  /** What `GetPlace` makes of a stored place and its Google details: the closed
      flag is derived only when it was null (a null business status then throws),
      and the opening hours are replaced only when the details carry some. */
  function Enriched(place: Place, details: Details.PlaceDetails): (r: Result<Place>)
    ensures r.Err? <==> place.isPermanentlyClosed.None? && details.businessStatus.None?
    ensures r.Err? ==> r.error == NullPointer
    ensures r.Ok? && place.isPermanentlyClosed.Some? ==> r.value.isPermanentlyClosed == place.isPermanentlyClosed
    ensures r.Ok? && place.isPermanentlyClosed.None? ==>
      r.value.isPermanentlyClosed == Some(ClosedFromStatus(details.businessStatus.value))
    ensures r.Ok? && details.openingHours.None? ==> r.value.openingHours == place.openingHours
    ensures r.Ok? ==> r.value.(isPermanentlyClosed := place.isPermanentlyClosed, openingHours := place.openingHours) == place
  {
    var closed :=
      if place.isPermanentlyClosed.Some? then Ok(place.isPermanentlyClosed)
      else if details.businessStatus.None? then Err(NullPointer)
      else Ok(Some(ClosedFromStatus(details.businessStatus.value)));
    if closed.Err? then Err(closed.error)
    else
      var hours := if details.openingHours.Some? then ConvertedHours(details.openingHours.value) else place.openingHours;
      Ok(place.(isPermanentlyClosed := closed.value, openingHours := hours))
  }

  /** Enriching a place a second time with the same details changes nothing more. */
  lemma EnrichedIdempotent(place: Place, details: Details.PlaceDetails)
    requires Enriched(place, details).Ok?
    ensures Enriched(Enriched(place, details).value, details) == Enriched(place, details)
  {
  }

  // ---------------------------------------------------------------------------
  // AddPlace record
  // ---------------------------------------------------------------------------

  /** The entity `AddPlace` builds from a request, before any details are merged. */
  function RequestRecord(request: AddPlaceRequest, placeType: Option<PlaceType>, newId: string, now: int): Place {
    Place(newId, request.name, request.cuisine, placeType, request.location, request.influence,
      ParseVisited(request.visited), request.notes, request.rating, request.website, request.socialMedia,
      request.googlePlaceId, Some(now), Some(now), None, None, map[])
  }

  /** The entity `AddPlace` saves, as written: with details, a null business status
      throws, and so do null opening hours of a place not flagged closed. */
  function NewPlaceRecord(request: AddPlaceRequest, newId: string, now: int, details: Option<Details.PlaceDetails>): (r: Result<Place>)
    ensures ParsePlaceType(request.placeType).Err? ==> r == Err(ParsePlaceType(request.placeType).error)
    ensures r.Ok? ==>
      && r.value.placeId == newId && r.value.createdDateTime == Some(now)
      && r.value.lastUpdatedDateTime == Some(now)
      && r.value.placeType == ParsePlaceType(request.placeType).value
      && r.value.visited == ParseVisited(request.visited)
      && r.value.name == request.name && r.value.rating == request.rating
    ensures r.Ok? ==>
      r.value.(isPermanentlyClosed := None, openingHours := map[], fullAddress := None, website := request.website)
        == RequestRecord(request, ParsePlaceType(request.placeType).value, newId, now)
    ensures r.Ok? && details.None? ==>
      r.value.isPermanentlyClosed.None? && r.value.openingHours == map[] && r.value.website == request.website
    ensures r.Ok? && details.Some? ==>
      details.value.businessStatus.Some?
      && r.value.isPermanentlyClosed == Some(ClosedFromStatus(details.value.businessStatus.value))
      && r.value.fullAddress == details.value.formattedAddress
      && r.value.website == details.value.website
    ensures r.Ok? && details.Some? && ClosedFromStatus(details.value.businessStatus.value) ==> r.value.openingHours == map[]
    ensures r.Ok? && details.Some? && !ClosedFromStatus(details.value.businessStatus.value) ==>
      details.value.openingHours.Some? && r.value.openingHours == ConvertedHours(details.value.openingHours.value)
    ensures (details.Some? && details.value.businessStatus.Some? && !ClosedFromStatus(details.value.businessStatus.value)
      && details.value.openingHours.None?) ==> r.Err?
  {
    match ParsePlaceType(request.placeType)
    case Err(e) => Err(e)
    case Ok(placeType) =>
      var record := RequestRecord(request, placeType, newId, now);
      if details.None? then Ok(record)
      else
        var d := details.value;
        if d.businessStatus.None? then Err(NullPointer)
        else
          var closed := ClosedFromStatus(d.businessStatus.value);
          if !closed && d.openingHours.None? then Err(NullPointer)
          else
            var hours := if closed then record.openingHours else ConvertedHours(d.openingHours.value);
            Ok(record.(isPermanentlyClosed := Some(closed), openingHours := hours,
              fullAddress := d.formattedAddress, website := d.website))
  }

  /** An open business whose details carry no opening hours cannot be added. */
  lemma AddPlaceWithoutHoursFails(newId: string, now: int)
    ensures var request := AddPlaceRequest(Some("Corner Bar"), None, Some("Bar"), Some("Soho"), None,
              None, None, None, None, None, Some("g1"));
            var details := Details.PlaceDetails(Some("Corner Bar"), Some("g1"), None, None, None, None,
              Some("OPERATIONAL"), None);
      ParsePlaceType(request.placeType) == Ok(Some(Bar))
      && NewPlaceRecord(request, newId, now, Some(details)) == Err(NullPointer)
  {
    ParsePlaceTypeName(Bar);
    TemporarilyClosedFlaggedPermanent();
  }

  /** The entity `AddPlace` evidently means to save: opening hours are copied only
      when the details carry some, as `GetPlace` does. */
  function GuardedNewPlaceRecord(request: AddPlaceRequest, newId: string, now: int, details: Option<Details.PlaceDetails>): (r: Result<Place>)
    ensures r.Ok? <==> ParsePlaceType(request.placeType).Ok? && (details.None? || details.value.businessStatus.Some?)
    ensures r.Ok? && details.Some? && !ClosedFromStatus(details.value.businessStatus.value) ==>
      r.value.openingHours == (if details.value.openingHours.Some? then ConvertedHours(details.value.openingHours.value) else map[])
    ensures r.Ok? && details.Some? && ClosedFromStatus(details.value.businessStatus.value) ==> r.value.openingHours == map[]
  {
    match ParsePlaceType(request.placeType)
    case Err(e) => Err(e)
    case Ok(placeType) =>
      var record := RequestRecord(request, placeType, newId, now);
      if details.None? then Ok(record)
      else
        var d := details.value;
        if d.businessStatus.None? then Err(NullPointer)
        else
          var closed := ClosedFromStatus(d.businessStatus.value);
          var hours := if !closed && d.openingHours.Some? then ConvertedHours(d.openingHours.value) else record.openingHours;
          Ok(record.(isPermanentlyClosed := Some(closed), openingHours := hours,
            fullAddress := d.formattedAddress, website := d.website))
  }

  /** Wherever the code as written succeeds, the guarded record is the same entity. */
  lemma GuardedAgreesWhereWrittenSucceeds(request: AddPlaceRequest, newId: string, now: int, details: Option<Details.PlaceDetails>)
    requires NewPlaceRecord(request, newId, now, details).Ok?
    ensures GuardedNewPlaceRecord(request, newId, now, details) == NewPlaceRecord(request, newId, now, details)
  {
  }

  // ---------------------------------------------------------------------------
  // UpdatePlace
  // ---------------------------------------------------------------------------

  /** The entity after `UpdatePlace`: rating and notes overwritten with the request's
      values (nulls included), marked visited, stamped with `now`. */
  function Updated(place: Place, request: UpdatePlaceRequest, now: int): (r: Place)
    ensures r.rating == request.rating && r.notes == request.notes
    ensures r.visited == Some(true) && r.lastUpdatedDateTime == Some(now)
    ensures r.(rating := place.rating, notes := place.notes, visited := place.visited,
      lastUpdatedDateTime := place.lastUpdatedDateTime) == place
  {
    place.(rating := request.rating, notes := request.notes, lastUpdatedDateTime := Some(now), visited := Some(true))
  }

  /** Repeating an update at a later instant changes only the timestamp. */
  lemma UpdatedTwice(place: Place, request: UpdatePlaceRequest, now: int, later: int)
    ensures Updated(Updated(place, request, now), request, later) == Updated(place, request, later)
  {
  }

  // ---------------------------------------------------------------------------
  // Lookup by name
  // ---------------------------------------------------------------------------

  /** What `GetPlaceDetailsByName` does to the place before saving it, given the
      places the name search found: the first match supplies the Google id, the
      address, the website and the closed flag, the flag overwritten even when it
      was set. No match is an error, and so is a match without a business status. */
  function MatchedRecord(place: Place, matches: seq<Details.PlaceDetails>): (r: Result<Place>)
    ensures r.Err? <==> |matches| == 0 || matches[0].businessStatus.None?
    ensures |matches| == 0 ==> r == Err(NoPlaceNamed(place.name))
    ensures |matches| > 0 && matches[0].businessStatus.None? ==> r == Err(NullPointer)
    ensures r.Ok? ==>
      && r.value.googlePlaceId == matches[0].googlePlaceId
      && r.value.fullAddress == matches[0].formattedAddress
      && r.value.website == matches[0].website
      && r.value.isPermanentlyClosed == Some(ClosedFromStatus(matches[0].businessStatus.value))
    ensures r.Ok? ==>
      r.value.(googlePlaceId := place.googlePlaceId, fullAddress := place.fullAddress,
        website := place.website, isPermanentlyClosed := place.isPermanentlyClosed) == place
  {
    if |matches| == 0 then Err(NoPlaceNamed(place.name))
    else
      var m := matches[0];
      if m.businessStatus.None? then Err(NullPointer)
      else
        Ok(place.(googlePlaceId := m.googlePlaceId, fullAddress := m.formattedAddress,
          website := m.website, isPermanentlyClosed := Some(ClosedFromStatus(m.businessStatus.value))))
  }

  /** On the by-name path the stored closed flag does not survive: a place saved as
      open becomes flagged when its match is temporarily closed, and the enrichment
      that follows keeps that flag. */
  lemma ByNameOverwritesClosedFlag(place: Place, m: Details.PlaceDetails)
    requires place.isPermanentlyClosed == Some(false)
    requires m.businessStatus == Some("CLOSED_TEMPORARILY")
    ensures MatchedRecord(place, [m]).Ok?
    ensures Enriched(MatchedRecord(place, [m]).value, m).Ok?
    ensures Enriched(MatchedRecord(place, [m]).value, m).value.isPermanentlyClosed == Some(true)
  {
    TemporarilyClosedFlaggedPermanent();
  }

  /** The row `save` writes: `openingHours` is `@Transient` and is not persisted. */
  function Stored(place: Place): Place {
    place.(openingHours := map[])
  }

  // ---------------------------------------------------------------------------
  // The repository
  // ---------------------------------------------------------------------------

  /** The service over its repository of places keyed by id. */
  class FeedStore {
    var repo: map<string, Place>

    /** No stored row carries opening hours. */
    predicate Valid()
      reads this
    {
      forall id :: id in repo ==> repo[id].openingHours == map[]
    }

    constructor(initial: map<string, Place>)
      ensures repo == map id | id in initial :: Stored(initial[id])
      ensures Valid()
    {
      repo := map id | id in initial :: Stored(initial[id]);
    }

    /** `GetPlace`: the stored place enriched with Google details; an unknown id is
        "Place not found". With a Google id the details are fetched by id and the
        repository is not written. Without one the details are the first place the
        name search found: the place takes its id, address, website and closed flag
        and is saved before it is enriched. */
    method GetPlace(placeId: string, details: Details.PlaceDetails, matches: seq<Details.PlaceDetails>)
      returns (r: Result<Place>)
      requires Valid()
      modifies this
      ensures Valid()
      ensures placeId !in old(repo) ==> r == Err(PlaceNotFound(placeId)) && repo == old(repo)
      ensures placeId in old(repo) && old(repo)[placeId].googlePlaceId.Some? ==>
        r == Enriched(old(repo)[placeId], details) && repo == old(repo)
      ensures placeId in old(repo) && old(repo)[placeId].googlePlaceId.None? ==>
        var matched := MatchedRecord(old(repo)[placeId], matches);
        && (matched.Err? ==> r == Err(matched.error) && repo == old(repo))
        && (matched.Ok? ==> r == Enriched(matched.value, matches[0]) && repo == old(repo)[placeId := Stored(matched.value)])
    {
      if placeId !in repo {
        return Err(PlaceNotFound(placeId));
      }
      var place := repo[placeId];
      var placeDetails := details;
      if place.googlePlaceId.None? {
        var matched := MatchedRecord(place, matches);
        if matched.Err? {
          return Err(matched.error);
        }
        place := matched.value;
        placeDetails := matches[0];
        repo := repo[placeId := Stored(place)];
      }
      if place.isPermanentlyClosed.None? {
        if placeDetails.businessStatus.None? {
          return Err(NullPointer);
        }
        place := place.(isPermanentlyClosed := Some(ClosedFromStatus(placeDetails.businessStatus.value)));
      }
      if placeDetails.openingHours.Some? {
        var openingHoursMap := ConvertToOpeningHoursMap(placeDetails.openingHours.value);
        place := place.(openingHours := openingHoursMap);
      }
      r := Ok(place);
    }

    /** `AddPlace` with the fresh id, the current instant and the details the
        proxy returned: the record is saved, without its opening hours, unless
        building it threw. */
    method AddPlace(request: AddPlaceRequest, newId: string, now: int, details: Option<Details.PlaceDetails>)
      returns (r: Result<Place>)
      requires Valid()
      modifies this
      ensures Valid()
      ensures r == NewPlaceRecord(request, newId, now, details)
      ensures r.Ok? ==> repo == old(repo)[newId := Stored(r.value)]
      ensures r.Err? ==> repo == old(repo)
    {
      r := NewPlaceRecord(request, newId, now, details);
      if r.Ok? {
        repo := repo[newId := Stored(r.value)];
      }
    }

    /** `UpdatePlace`: an unknown id is "Place not found" and nothing changes;
        otherwise only that place is replaced by its update. */
    method UpdatePlace(placeId: string, request: UpdatePlaceRequest, now: int) returns (r: Result<Place>)
      requires Valid()
      modifies this
      ensures Valid()
      ensures placeId !in old(repo) ==> r == Err(PlaceNotFound(placeId)) && repo == old(repo)
      ensures placeId in old(repo) ==>
        r == Ok(Updated(old(repo)[placeId], request, now)) && repo == old(repo)[placeId := r.value]
    {
      if placeId !in repo {
        return Err(PlaceNotFound(placeId));
      }
      var existingPlace := repo[placeId];
      existingPlace := existingPlace.(rating := request.rating);
      existingPlace := existingPlace.(notes := request.notes);
      existingPlace := existingPlace.(lastUpdatedDateTime := Some(now));
      existingPlace := existingPlace.(visited := Some(true));
      repo := repo[placeId := existingPlace];
      r := Ok(existingPlace);
    }

    /** `DeletePlace`: the id is no longer stored; deleting an unknown id is a no-op. */
    method DeletePlace(placeId: string)
      requires Valid()
      modifies this
      ensures Valid()
      ensures repo == old(repo) - {placeId}
    {
      repo := repo - {placeId};
    }
  }

  /** Opening hours are not stored: a place added with its hours and then read
      back with details that carry none comes back with no hours. */
  method AddedHoursNotKept(request: AddPlaceRequest, newId: string, now: int,
                           details: Details.PlaceDetails, later: Details.PlaceDetails)
    returns (added: Result<Place>, fetched: Result<Place>)
    requires request.googlePlaceId.Some?
    requires later.openingHours.None?
    ensures added == NewPlaceRecord(request, newId, now, Some(details))
    ensures added.Ok? ==> fetched.Ok? && fetched.value.openingHours == map[] && fetched.value.placeId == newId
  {
    var store := new FeedStore(map[]);
    added := store.AddPlace(request, newId, now, Some(details));
    fetched := store.GetPlace(newId, later, []);
  }
}
