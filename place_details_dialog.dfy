/** The details dialog of a place: the "open now" check over the day's periods,
    the rendering of opening hours, and the edit / unsaved-changes state machine. */
module PlaceDetailsDialog {
  import opened Wrappers
  import opened Text
  import opened Seqs
  import opened ClientPlaces

  // ---------------------------------------------------------------------------
  // Open now
  // ---------------------------------------------------------------------------

  /** `hour * 60 + minute`; `None` when either is undefined (the product is NaN). */
  function MinuteOfDay(hour: Option<int>, minute: Option<int>): Option<int> {
    if hour.Some? && minute.Some? then Some(hour.value * 60 + minute.value) else None
  }

  /** The period covers the minute, both ends included. A NaN end compares false. */
  predicate Covers(p: HoursPeriod, current: int) {
    var opening := MinuteOfDay(p.openingHour, p.openingMinute);
    var closing := MinuteOfDay(p.closingHour, p.closingMinute);
    opening.Some? && closing.Some? && opening.value <= current <= closing.value
  }

  /** What `isCurrentlyOpen` is meant to compute: some period of the current day covers
      the current minute. */
  predicate OpenAt(hours: Option<OpeningHours>, dayName: string, current: int) {
    hours.Some? && dayName in hours.value
    && exists i :: 0 <= i < |hours.value[dayName]| && Covers(hours.value[dayName][i], current)
  }

  /** `isCurrentlyOpen`, with the clock's weekday name, hour and minute passed in. */
  method IsCurrentlyOpen(hours: Option<OpeningHours>, dayName: string, nowHour: int, nowMinute: int)
    returns (open: bool)
    ensures open <==> OpenAt(hours, dayName, nowHour * 60 + nowMinute)
  {
    if hours.None? {
      return false;
    }
    if dayName !in hours.value {
      return false;
    }
    var periods := hours.value[dayName];
    var currentMinutes := nowHour * 60 + nowMinute;
    var resultList: seq<bool> := [];
    var i := 0;
    while i < |periods|
      invariant 0 <= i <= |periods|
      invariant forall k :: 0 <= k < |resultList| ==> resultList[k]
      invariant resultList != [] <==> exists j :: 0 <= j < i && Covers(periods[j], currentMinutes)
    {
      var period := periods[i];
      var openingMinutes := MinuteOfDay(period.openingHour, period.openingMinute);
      var closingMinutes := MinuteOfDay(period.closingHour, period.closingMinute);
      if openingMinutes.Some? && closingMinutes.Some?
         && currentMinutes >= openingMinutes.value && currentMinutes <= closingMinutes.value {
        resultList := resultList + [true];
      }
      i := i + 1;
    }
    assert resultList != [] ==> resultList[0];
    open := true in resultList;
  }

  /** A period whose closing minute comes before its opening minute never covers any
      minute: an overnight period is never "open now". */
  lemma OvernightNeverCovers(p: HoursPeriod, current: int)
    requires MinuteOfDay(p.openingHour, p.openingMinute).Some?
    requires MinuteOfDay(p.closingHour, p.closingMinute).Some?
    requires MinuteOfDay(p.closingHour, p.closingMinute).value < MinuteOfDay(p.openingHour, p.openingMinute).value
    ensures !Covers(p, current)
  {
  }

  /** Friday 18:00 until 02:00 is reported closed at 23:00 on Friday. */
  lemma OvernightReportedClosed()
    ensures var hours := map["Friday" := [HoursPeriod(Some(18), Some(0), Some(2), Some(0))]];
      !OpenAt(Some(hours), "Friday", 23 * 60)
  {
    var hours := map["Friday" := [HoursPeriod(Some(18), Some(0), Some(2), Some(0))]];
    assert hours["Friday"] == [HoursPeriod(Some(18), Some(0), Some(2), Some(0))];
  }

  /** A period running past midnight: its closing minute is before its opening minute. */
  predicate Overnight(p: HoursPeriod) {
    var opening := MinuteOfDay(p.openingHour, p.openingMinute);
    var closing := MinuteOfDay(p.closingHour, p.closingMinute);
    opening.Some? && closing.Some? && closing.value < opening.value
  }

  /** The part of a period that falls on its own day: from opening to closing, or to
      the end of the day when the period runs past midnight. */
  predicate CoversSameDay(p: HoursPeriod, current: int) {
    var opening := MinuteOfDay(p.openingHour, p.openingMinute);
    var closing := MinuteOfDay(p.closingHour, p.closingMinute);
    opening.Some? && closing.Some? && opening.value <= current
    && (current <= closing.value || closing.value < opening.value)
  }

  /** The part of an overnight period that falls on the next day: up to its closing minute. */
  predicate CoversNextDay(p: HoursPeriod, current: int) {
    Overnight(p) && 0 <= current <= MinuteOfDay(p.closingHour, p.closingMinute).value
  }

  /** "Open now" with overnight periods: a period of today covers the minute on
      today's side of midnight, or an overnight period of yesterday still runs. */
  predicate OpenAtAcrossMidnight(hours: Option<OpeningHours>, dayName: string, previousDayName: string, current: int) {
    hours.Some?
    && ((dayName in hours.value
         && exists i :: 0 <= i < |hours.value[dayName]| && CoversSameDay(hours.value[dayName][i], current))
        || (previousDayName in hours.value
            && exists i :: 0 <= i < |hours.value[previousDayName]| && CoversNextDay(hours.value[previousDayName][i], current)))
  }

  /** An overnight period of `day` keeps the place open from its opening minute to the
      end of `day` and from midnight to its closing minute on `nextDay`. */
  lemma OvernightOpenAcrossMidnight(hours: OpeningHours, day: string, nextDay: string, i: int, current: int)
    requires day in hours && 0 <= i < |hours[day]| && Overnight(hours[day][i])
    ensures var p := hours[day][i];
      (MinuteOfDay(p.openingHour, p.openingMinute).value <= current ==> OpenAtAcrossMidnight(Some(hours), day, "", current))
      && (0 <= current <= MinuteOfDay(p.closingHour, p.closingMinute).value ==> OpenAtAcrossMidnight(Some(hours), nextDay, day, current))
  {
    var p := hours[day][i];
    if MinuteOfDay(p.openingHour, p.openingMinute).value <= current {
      assert CoversSameDay(hours[day][i], current);
    }
    if 0 <= current <= MinuteOfDay(p.closingHour, p.closingMinute).value {
      assert CoversNextDay(hours[day][i], current);
    }
  }

  /** Without overnight periods the corrected check and `isCurrentlyOpen` agree. */
  lemma AcrossMidnightAgreesWithoutOvernight(hours: OpeningHours, dayName: string, previousDayName: string, current: int)
    requires dayName in hours ==> forall i :: 0 <= i < |hours[dayName]| ==> !Overnight(hours[dayName][i])
    requires previousDayName in hours ==> forall i :: 0 <= i < |hours[previousDayName]| ==> !Overnight(hours[previousDayName][i])
    ensures OpenAtAcrossMidnight(Some(hours), dayName, previousDayName, current) <==> OpenAt(Some(hours), dayName, current)
  {
    if previousDayName in hours {
      forall i | 0 <= i < |hours[previousDayName]|
        ensures !CoversNextDay(hours[previousDayName][i], current)
      {
        assert !Overnight(hours[previousDayName][i]);
      }
    }
    if dayName in hours {
      forall i | 0 <= i < |hours[dayName]|
        ensures CoversSameDay(hours[dayName][i], current) <==> Covers(hours[dayName][i], current)
      {
        assert !Overnight(hours[dayName][i]);
      }
    }
  }

  // ---------------------------------------------------------------------------
  // Rendering the opening hours
  // ---------------------------------------------------------------------------

  /** `formatTime`: 12-hour clock, minutes padded to two digits. */
  function FormatTime(hour: int, minute: int): string {
    var period := if hour >= 12 then "PM" else "AM";
    var displayHour := if hour == 0 then 12 else if hour > 12 then hour - 12 else hour;
    var displayMinute := PadStart(IntToString(minute), 2, '0');
    IntToString(displayHour) + ":" + displayMinute + " " + period
  }

  /** Reads a `FormatTime` text back into a 24-hour hour and a minute. */
  function ParseTime(s: string): Option<(int, int)> {
    if |s| < 7 || s[|s| - 6] != ':' || s[|s| - 3] != ' '
       || !AllDigits(s[..|s| - 6]) || !AllDigits(s[|s| - 5..|s| - 3])
    then None
    else
      var displayHour := ParseNat(s[..|s| - 6]);
      var minute := ParseNat(s[|s| - 5..|s| - 3]);
      var period := s[|s| - 2..];
      if period == "AM" then Some((if displayHour == 12 then 0 else displayHour, minute))
      else if period == "PM" then Some((if displayHour == 12 then 12 else displayHour + 12, minute))
      else None
  }

  /** The minute of a valid time is written as exactly two digits. */
  lemma TwoDigitMinute(minute: int)
    requires 0 <= minute < 60
    ensures var m := PadStart(IntToString(minute), 2, '0');
      |m| == 2 && AllDigits(m) && ParseNat(m) == minute
  {
    ParseNatToString(minute);
    var t := IntToString(minute);
    if minute < 10 {
      var m := PadStart(t, 2, '0');
      assert m == ['0'] + t;
      assert m[..1] == ['0'];
      assert ParseNat(['0']) == ParseNat([]) * 10 + 0;
    }
  }

  /** The pieces of a `FormatTime`-shaped text sit where `ParseTime` looks for them. */
  lemma TimeTextPieces(h: string, m: string, period: string)
    requires |h| >= 1 && |m| == 2 && |period| == 2
    ensures var s := h + ":" + m + " " + period;
      && |s| == |h| + 6 && s[|s| - 6] == ':' && s[|s| - 3] == ' '
      && s[..|s| - 6] == h && s[|s| - 5..|s| - 3] == m && s[|s| - 2..] == period
  {
    var s := h + ":" + m + " " + period;
    assert s == h + (":" + m + " " + period);
    assert (":" + m + " " + period)[1..3] == m;
    assert (":" + m + " " + period)[4..] == period;
  }

  /** `FormatTime` loses nothing: every hour 0..23 and minute 0..59 is read back as
      written, so midnight shows as 12 AM, noon as 12 PM, 13..23 as 1..11 PM. */
  lemma {:induction false} FormatTimeRoundTrip(hour: int, minute: int)
    requires 0 <= hour < 24 && 0 <= minute < 60
    ensures ParseTime(FormatTime(hour, minute)) == Some((hour, minute))
  {
    var displayHour := if hour == 0 then 12 else if hour > 12 then hour - 12 else hour;
    var h := IntToString(displayHour);
    var m := PadStart(IntToString(minute), 2, '0');
    var period := if hour >= 12 then "PM" else "AM";
    assert FormatTime(hour, minute) == h + ":" + m + " " + period;
    TwoDigitMinute(minute);
    ParseNatToString(displayHour);
    TimeTextPieces(h, m, period);
  }

  /** A period is rendered only when all four of its fields are defined. */
  predicate Complete(p: HoursPeriod) {
    p.openingHour.Some? && p.openingMinute.Some? && p.closingHour.Some? && p.closingMinute.Some?
  }

  function FormatPeriod(p: HoursPeriod): string
    requires Complete(p)
  {
    FormatTime(p.openingHour.value, p.openingMinute.value) + " - "
      + FormatTime(p.closingHour.value, p.closingMinute.value)
  }

  /** The rendering of each complete period, in order. */
  function RenderedPeriods(periods: seq<HoursPeriod>): (r: seq<string>)
    ensures |r| == |Filter(periods, Complete)|
  {
    var complete := Filter(periods, Complete);
    seq(|complete|, i requires 0 <= i < |complete| => FormatPeriod(complete[i]))
  }

  /** `formatHours`: "Closed" for a missing or empty list, otherwise the complete
      periods as "open - close", separated by ", ". */
  function FormatHours(periods: Option<seq<HoursPeriod>>): string {
    if periods.None? || |periods.value| == 0 then "Closed"
    else Join(RenderedPeriods(periods.value), ", ")
  }

  /** A list of periods none of which is complete renders as the empty string,
      not as "Closed". */
  lemma IncompleteOnlyRendersEmpty(periods: seq<HoursPeriod>)
    requires |periods| > 0
    requires forall i :: 0 <= i < |periods| ==> !Complete(periods[i])
    ensures FormatHours(Some(periods)) == ""
  {
    var complete := Filter(periods, Complete);
    if complete != [] {
      FilterMembership(periods, Complete, complete[0]);
    }
  }

  lemma IntToStringHasNoComma(i: int)
    ensures Free(IntToString(i), ',')
  {
    var d := NatToString(if i < 0 then -i else i);
    assert forall j :: 0 <= j < |d| ==> IsDigit(d[j]);
  }

  lemma FormatTimeHasNoComma(hour: int, minute: int)
    ensures Free(FormatTime(hour, minute), ',')
  {
    var displayHour := if hour == 0 then 12 else if hour > 12 then hour - 12 else hour;
    IntToStringHasNoComma(displayHour);
    IntToStringHasNoComma(minute);
  }

  /** The rendered list with the space after each comma moved onto the next piece. */
  function Spaced(xs: seq<string>): seq<string> {
    if |xs| <= 1 then xs else [xs[0]] + seq(|xs| - 1, i requires 0 <= i < |xs| - 1 => " " + xs[i + 1])
  }

  /** `Join` of a list with a head and a non-empty tail. */
  lemma JoinCons(head: string, rest: seq<string>, sep: string)
    requires |rest| >= 1
    ensures Join([head] + rest, sep) == head + sep + Join(rest, sep)
  {
    assert ([head] + rest)[1..] == rest;
  }

  /** The spaced list of a list of two or more: its head, the second piece with a
      space, then the spaced tail's own rest. */
  lemma SpacedSplit(xs: seq<string>)
    requires |xs| > 1
    ensures Spaced(xs) == [xs[0]] + ([" " + xs[1]] + Spaced(xs[1..])[1..])
    ensures Spaced(xs[1..]) == [xs[1]] + Spaced(xs[1..])[1..]
  {
    SpacedAt(xs);
    SpacedAt(xs[1..]);
  }

  /** Joining with ", " is joining the spaced list with ",". */
  lemma {:induction false} JoinCommaSpace(xs: seq<string>)
    ensures Join(xs, ", ") == Join(Spaced(xs), ",")
  {
    if |xs| > 1 {
      JoinCommaSpace(xs[1..]);
      var rest := Spaced(xs[1..])[1..];
      SpacedSplit(xs);
      JoinCons(xs[0], [" " + xs[1]] + rest, ",");
      JoinCons(xs[0], xs[1..], ", ");
      assert xs == [xs[0]] + xs[1..];
      if |rest| == 0 {
        assert [" " + xs[1]] + rest == [" " + xs[1]];
        assert Spaced(xs[1..]) == [xs[1]];
        assert xs[0] + "," + (" " + xs[1]) == xs[0] + ", " + xs[1];
      } else {
        JoinCons(" " + xs[1], rest, ",");
        JoinCons(xs[1], rest, ",");
        var j := Join(rest, ",");
        assert xs[0] + "," + (" " + xs[1] + "," + j) == xs[0] + ", " + (xs[1] + "," + j);
      }
    }
  }

  lemma SpacedAt(xs: seq<string>)
    ensures |Spaced(xs)| == |xs|
    ensures |xs| > 0 ==> Spaced(xs)[0] == xs[0]
    ensures forall k :: 1 <= k < |xs| ==> Spaced(xs)[k] == " " + xs[k]
  {
  }

  lemma FormatPeriodHasNoComma(p: HoursPeriod)
    requires Complete(p)
    ensures Free(FormatPeriod(p), ',') && Free(" " + FormatPeriod(p), ',')
  {
    FormatTimeHasNoComma(p.openingHour.value, p.openingMinute.value);
    FormatTimeHasNoComma(p.closingHour.value, p.closingMinute.value);
  }

  /** No rendered period, with or without its leading space, holds a comma. */
  lemma SpacedRenderingHasNoComma(periods: seq<HoursPeriod>)
    ensures var spaced := Spaced(RenderedPeriods(periods));
      forall k :: 0 <= k < |spaced| ==> Free(spaced[k], ',')
  {
    var complete := Filter(periods, Complete);
    var rendered := RenderedPeriods(periods);
    SpacedAt(rendered);
    forall k | 0 <= k < |rendered|
      ensures Free(rendered[k], ',') && Free(" " + rendered[k], ',')
    {
      assert rendered[k] == FormatPeriod(complete[k]);
      FormatPeriodHasNoComma(complete[k]);
    }
  }

  /** Splitting a rendered day at its commas recovers one piece per complete period,
      in order: the period's "open - close" text, after a space for all but the first. */
  lemma FormatHoursPieces(periods: seq<HoursPeriod>)
    requires exists i :: 0 <= i < |periods| && Complete(periods[i])
    ensures var complete := Filter(periods, Complete);
      var pieces := Split(FormatHours(Some(periods)), ',');
      |pieces| == |complete| >= 1
      && pieces[0] == FormatPeriod(complete[0])
      && forall k :: 1 <= k < |pieces| ==> pieces[k] == " " + FormatPeriod(complete[k])
  {
    var i :| 0 <= i < |periods| && Complete(periods[i]);
    FilterMembership(periods, Complete, periods[i]);
    var rendered := RenderedPeriods(periods);
    assert FormatHours(Some(periods)) == Join(rendered, ", ");
    JoinCommaSpace(rendered);
    SpacedRenderingHasNoComma(periods);
    SpacedAt(rendered);
    SplitJoin(Spaced(rendered), ',');
  }

  // ---------------------------------------------------------------------------
  // Edit state machine
  // ---------------------------------------------------------------------------

  /** The six fields `handleSaveEdit` passes to `onUpdatePlace`. */
  datatype Edits = Edits(
    name: string, placeType: string, notes: string, rating: Option<real>,
    cuisine: string, fullAddress: string)

  /** One call of `onUpdatePlace(id, edits)`. */
  datatype UpdateCall = UpdateCall(id: string, edits: Edits)

  /** The dialog's state. `openRequests` logs the calls of `onOpenChange` and
      `updateCalls` those of `onUpdatePlace`, oldest first. */
  class DetailsDialog {
    var place: Place
    var open: bool
    var isEditing: bool
    var showUnsavedChanges: bool
    var editedNotes: string
    var editedRating: Option<real>
    var editedName: string
    var editedType: string
    var editedCuisine: string
    var editedFullAddress: string
    var openRequests: seq<bool>
    var updateCalls: seq<UpdateCall>

    /** The edit buffers hold the place's current values. */
    predicate BuffersFromPlace()
      reads this
    {
      editedNotes == place.notes.GetOr("") && editedRating == place.rating
      && editedName == place.name && editedType == place.placeType
      && editedCuisine == place.cuisine.GetOr("") && editedFullAddress == place.fullAddress.GetOr("")
    }

    function CurrentEdits(): Edits
      reads this
    {
      Edits(editedName, editedType, editedNotes, editedRating, editedCuisine, editedFullAddress)
    }

    /** First render with a place: the sync effect has filled the buffers. */
    constructor (place: Place, open: bool)
      ensures this.place == place && this.open == open
      ensures !isEditing && !showUnsavedChanges && BuffersFromPlace()
      ensures openRequests == [] && updateCalls == []
    {
      this.place := place;
      this.open := open;
      isEditing := false;
      showUnsavedChanges := false;
      editedNotes := place.notes.GetOr("");
      editedRating := place.rating;
      editedName := place.name;
      editedType := place.placeType;
      editedCuisine := place.cuisine.GetOr("");
      editedFullAddress := place.fullAddress.GetOr("");
      openRequests := [];
      updateCalls := [];
    }

    /** The effect on `open`: closing the dialog leaves edit mode and hides the prompt. */
    method OpenChanged(newOpen: bool)
      modifies this
      ensures open == newOpen
      ensures !newOpen ==> !isEditing && !showUnsavedChanges
      ensures newOpen ==> isEditing == old(isEditing) && showUnsavedChanges == old(showUnsavedChanges)
      ensures place == old(place) && CurrentEdits() == old(CurrentEdits())
      ensures openRequests == old(openRequests) && updateCalls == old(updateCalls)
    {
      open := newOpen;
      if !newOpen {
        isEditing := false;
        showUnsavedChanges := false;
      }
    }

    /** The effect on `place` and `isEditing`: outside edit mode the buffers follow the place. */
    method PlaceChanged(newPlace: Place)
      modifies this
      ensures place == newPlace
      ensures !isEditing ==> BuffersFromPlace()
      ensures isEditing ==> CurrentEdits() == old(CurrentEdits())
      ensures isEditing == old(isEditing) && showUnsavedChanges == old(showUnsavedChanges) && open == old(open)
      ensures openRequests == old(openRequests) && updateCalls == old(updateCalls)
    {
      place := newPlace;
      if !isEditing {
        editedNotes := place.notes.GetOr("");
        editedRating := place.rating;
        editedName := place.name;
        editedType := place.placeType;
        editedCuisine := place.cuisine.GetOr("");
        editedFullAddress := place.fullAddress.GetOr("");
      }
    }

    /** `handleStartEdit`: copy the place into the buffers and enter edit mode. */
    method StartEdit()
      modifies this
      ensures isEditing && BuffersFromPlace()
      ensures place == old(place) && open == old(open) && showUnsavedChanges == old(showUnsavedChanges)
      ensures openRequests == old(openRequests) && updateCalls == old(updateCalls)
    {
      editedNotes := place.notes.GetOr("");
      editedRating := place.rating;
      editedName := place.name;
      editedType := place.placeType;
      editedCuisine := place.cuisine.GetOr("");
      editedFullAddress := place.fullAddress.GetOr("");
      isEditing := true;
    }

    /** `handleSaveEdit`: hand the six edited fields to `onUpdatePlace`, leave edit mode. */
    method SaveEdit()
      modifies this
      ensures updateCalls == old(updateCalls) + [UpdateCall(place.id, old(CurrentEdits()))]
      ensures !isEditing
      ensures place == old(place) && open == old(open) && showUnsavedChanges == old(showUnsavedChanges)
      ensures CurrentEdits() == old(CurrentEdits()) && openRequests == old(openRequests)
    {
      updateCalls := updateCalls + [UpdateCall(place.id, CurrentEdits())];
      isEditing := false;
    }

    /** The Cancel button of edit mode. */
    method CancelEdit()
      modifies this`isEditing
      ensures !isEditing
    {
      isEditing := false;
    }

    /** `handleDialogOpenChange`: a close request while editing only raises the
        unsaved-changes prompt; any other request is passed on. */
    method DialogOpenChange(newOpen: bool)
      modifies this
      ensures !newOpen && old(isEditing) ==>
        showUnsavedChanges && openRequests == old(openRequests)
      ensures !(!newOpen && old(isEditing)) ==>
        showUnsavedChanges == old(showUnsavedChanges) && openRequests == old(openRequests) + [newOpen]
      ensures place == old(place) && open == old(open) && isEditing == old(isEditing)
      ensures CurrentEdits() == old(CurrentEdits()) && updateCalls == old(updateCalls)
    {
      if !newOpen && isEditing {
        showUnsavedChanges := true;
      } else {
        openRequests := openRequests + [newOpen];
      }
    }

    /** `handleDiscardChanges`: leave edit mode, hide the prompt, ask to close. */
    method DiscardChanges()
      modifies this
      ensures !isEditing && !showUnsavedChanges
      ensures openRequests == old(openRequests) + [false]
      ensures place == old(place) && open == old(open)
      ensures CurrentEdits() == old(CurrentEdits()) && updateCalls == old(updateCalls)
    {
      isEditing := false;
      showUnsavedChanges := false;
      openRequests := openRequests + [false];
    }

    /** `handleSaveAndClose`: save, hide the prompt, ask to close. */
    method SaveAndClose()
      modifies this
      ensures updateCalls == old(updateCalls) + [UpdateCall(place.id, old(CurrentEdits()))]
      ensures !isEditing && !showUnsavedChanges
      ensures openRequests == old(openRequests) + [false]
      ensures place == old(place) && open == old(open) && CurrentEdits() == old(CurrentEdits())
    {
      SaveEdit();
      showUnsavedChanges := false;
      openRequests := openRequests + [false];
    }

    /** `handleCancelClose` ("Keep Editing"): hide the prompt, nothing else. */
    method CancelClose()
      modifies this`showUnsavedChanges
      ensures !showUnsavedChanges
    {
      showUnsavedChanges := false;
    }
  }
}
