/** The add-place dialog: the clean-up of an address picked from the Google search,
    the form state, and the submit guard, payload and reset. */
module AddPlaceDialog {
  import opened Wrappers
  import opened Text
  import opened Seqs

  // ---------------------------------------------------------------------------
  // Address clean-up
  // ---------------------------------------------------------------------------

  /** The characters the city clean-up keeps: ASCII letters, the Latin ranges
      U+00C0-U+024F and U+1EA0-U+1EF9, and white space (`\s`). */
  predicate KeptByCityPattern(c: char) {
    ('a' <= c <= 'z') || ('A' <= c <= 'Z') || ('\U{00C0}' <= c <= '\U{024F}')
    || ('\U{1EA0}' <= c <= '\U{1EF9}') || IsJsSpace(c)
  }

  /** The city part: the kept characters of a segment, trimmed. */
  function CleanCity(segment: string): string {
    JsTrim(Filter(segment, KeptByCityPattern))
  }

  /** The clean-up of `handleSelectGooglePlace`: the second-to-last comma segment
      as a city, then ", " and the trimmed last segment. With fewer than two
      segments the second-to-last does not exist and the handler throws. */
  function CleanAddress(address: string): (r: Option<string>)
    ensures r.Some? ==> |r.value| >= 2
  {
    var segments := Split(address, ',');
    if |segments| < 2 then None
    else Some(CleanCity(segments[|segments| - 2]) + ", " + JsTrim(segments[|segments| - 1]))
  }

  /** The clean-up fails exactly on addresses without a comma. */
  lemma CleanAddressFailsIff(address: string)
    ensures CleanAddress(address).None? <==> Free(address, ',')
  {
    SplitOnePiece(address, ',');
  }

  /** A cleaned city has no comma, consists of kept characters only and is trimmed. */
  lemma CleanCityShape(segment: string)
    ensures Free(CleanCity(segment), ',')
    ensures forall i :: 0 <= i < |CleanCity(segment)| ==> KeptByCityPattern(CleanCity(segment)[i])
    ensures JsTrim(CleanCity(segment)) == CleanCity(segment)
  {
    var kept := Filter(segment, KeptByCityPattern);
    TrimKeeps(kept, IsJsSpace, KeptByCityPattern);
    TrimKeeps(kept, IsJsSpace, c => c != ',');
    TrimIdempotent(kept, IsJsSpace);
  }

  /** Two comma-free parts joined by ", " split back into the first part and the
      space-led second part. */
  lemma SplitCommaSpace(city: string, last: string)
    requires Free(city, ',') && Free(last, ',')
    ensures Split(city + ", " + last, ',') == [city, " " + last]
  {
    assert Free(" " + last, ',');
    SplitFree(" " + last, ',');
    SplitAfterPiece(city, " " + last, ',');
    assert city + [','] + (" " + last) == city + ", " + last;
  }

  /** A cleaned address splits at its one comma into the city and the space-led
      last segment. */
  lemma CleanAddressSplits(address: string)
    requires CleanAddress(address).Some?
    ensures var segments := Split(address, ',');
      Split(CleanAddress(address).value, ',')
        == [CleanCity(segments[|segments| - 2]), " " + JsTrim(segments[|segments| - 1])]
  {
    var segments := Split(address, ',');
    CleanCityShape(segments[|segments| - 2]);
    TrimKeeps(segments[|segments| - 1], IsJsSpace, c => c != ',');
    SplitCommaSpace(CleanCity(segments[|segments| - 2]), JsTrim(segments[|segments| - 1]));
  }

  /** Cleaning an address already cleaned leaves it as it is. */
  lemma CleanAddressIdempotent(address: string)
    requires CleanAddress(address).Some?
    ensures CleanAddress(CleanAddress(address).value) == CleanAddress(address)
  {
    var segments := Split(address, ',');
    var city := CleanCity(segments[|segments| - 2]);
    var last := JsTrim(segments[|segments| - 1]);
    CleanAddressSplits(address);
    CleanCityShape(segments[|segments| - 2]);
    FilterKeepsAll(city, KeptByCityPattern);
    TrimLeadingSpace(' ', last, IsJsSpace);
    assert [' '] + last == " " + last;
    TrimIdempotent(segments[|segments| - 1], IsJsSpace);
  }

  // ---------------------------------------------------------------------------
  // Form
  // ---------------------------------------------------------------------------

  /** The values of the type select. */
  datatype FormType = Restaurant | Bar | Cafe

  function FormTypeName(t: FormType): string {
    match t
    case Restaurant => "Restaurant"
    case Bar => "Bar"
    case Cafe => "Cafe"
  }

  /** `PlaceFormData`; the rating is kept as the text typed. */
  datatype FormData = FormData(
    name: string,
    placeType: FormType,
    location: string,
    visited: bool,
    rating: string,
    notes: string,
    googlePlaceId: string)

  /** The form's initial and reset value. */
  const EmptyForm := FormData("", Restaurant, "", false, "", "", "")

  /** What the Google search hands back for a chosen place (coordinates unused). */
  datatype PlaceResult = PlaceResult(name: string, address: string, placeId: string)

  /** The place handed to `onAddPlace`. */
  datatype Payload = Payload(
    name: string,
    placeType: string,
    location: string,
    visited: bool,
    rating: Option<real>,
    notes: string,
    googlePlaceId: string)

  /** The payload built from the form: a non-empty cleaned address wins over the
      location field, and an empty rating text is no rating. */
  function PayloadOf(form: FormData, cleanedAddress: string, parseFloat: string -> real): (r: Payload)
    ensures r.location == (if cleanedAddress != "" then cleanedAddress else form.location)
    ensures r.rating.None? <==> form.rating == ""
    ensures r.rating.Some? ==> r.rating.value == parseFloat(form.rating)
    ensures r.name == form.name && r.placeType == FormTypeName(form.placeType) && r.visited == form.visited
    ensures r.notes == form.notes && r.googlePlaceId == form.googlePlaceId
  {
    Payload(form.name, FormTypeName(form.placeType),
      if cleanedAddress != "" then cleanedAddress else form.location,
      form.visited,
      if form.rating != "" then Some(parseFloat(form.rating)) else None,
      form.notes, form.googlePlaceId)
  }

  /** The dialog's state; `submitted` records each call of `onAddPlace`. */
  class AddPlaceForm {
    var open: bool
    var form: FormData
    var cleanedAddress: string
    var submitted: seq<Payload>

    constructor()
      ensures !open && form == EmptyForm && cleanedAddress == "" && submitted == []
    {
      open := false;
      form := EmptyForm;
      cleanedAddress := "";
      submitted := [];
    }

    /** `handleOpenChange`: closing resets the form, but not the cleaned address. */
    method OpenChange(isOpen: bool)
      modifies this
      ensures open == isOpen
      ensures form == (if isOpen then old(form) else EmptyForm)
      ensures cleanedAddress == old(cleanedAddress) && submitted == old(submitted)
    {
      open := isOpen;
      if !isOpen {
        form := EmptyForm;
      }
    }

    /** One of the inputs' change handlers: the form takes the edited value. */
    method Edit(edited: FormData)
      modifies this
      ensures form == edited
      ensures open == old(open) && cleanedAddress == old(cleanedAddress) && submitted == old(submitted)
    {
      form := edited;
    }

    /** `handleSelectGooglePlace`: on an address with a comma, the cleaned address
        is remembered and becomes the location; name and Google id are taken from the
        place, and type, visited, rating and notes stay. An address without a comma
        throws before any state changes. */
    method SelectGooglePlace(place: PlaceResult) returns (ok: bool)
      modifies this
      ensures ok <==> CleanAddress(place.address).Some?
      ensures !ok ==> form == old(form) && cleanedAddress == old(cleanedAddress)
      ensures ok ==> (cleanedAddress == CleanAddress(place.address).value
        && form == old(form).(name := place.name, location := cleanedAddress, googlePlaceId := place.placeId))
      ensures open == old(open) && submitted == old(submitted)
    {
      var cleaned := CleanAddress(place.address);
      if cleaned.None? {
        return false;
      }
      cleanedAddress := cleaned.value;
      form := form.(name := place.name, location := cleaned.value, googlePlaceId := place.placeId);
      ok := true;
    }

    /** `handleSubmit` with the outcome of `onAddPlace`: nothing happens while name
        or location is empty; otherwise the payload is sent, and only a successful
        call resets the form and closes the dialog. */
    method Submit(parseFloat: string -> real, succeeds: bool) returns (sent: bool)
      modifies this
      ensures sent <==> old(form).name != "" && old(form).location != ""
      ensures !sent ==> submitted == old(submitted)
      ensures sent ==> submitted == old(submitted) + [PayloadOf(old(form), old(cleanedAddress), parseFloat)]
      ensures sent && succeeds ==> form == EmptyForm && !open
      ensures !(sent && succeeds) ==> form == old(form) && open == old(open)
      ensures cleanedAddress == old(cleanedAddress)
    {
      if form.name == "" || form.location == "" {
        return false;
      }
      var placeData := PayloadOf(form, cleanedAddress, parseFloat);
      submitted := submitted + [placeData];
      sent := true;
      if succeeds {
        form := EmptyForm;
        open := false;
      }
    }
  }

  /** A cleaned address outlives the dialog: after picking a place, closing, and
      typing a location by hand, the next submit still sends the old cleaned address. */
  method StaleAddressOverridesTypedLocation(place: PlaceResult, typed: FormData, parseFloat: string -> real)
    returns (sent: Payload)
    requires CleanAddress(place.address).Some?
    requires typed.name != "" && typed.location != ""
    ensures sent.location == CleanAddress(place.address).value
    ensures typed.location != CleanAddress(place.address).value ==> sent.location != typed.location
  {
    var dialog := new AddPlaceForm();
    dialog.OpenChange(true);
    var picked := dialog.SelectGooglePlace(place);
    dialog.OpenChange(false);
    dialog.OpenChange(true);
    dialog.Edit(typed);
    var ok := dialog.Submit(parseFloat, true);
    sent := dialog.submitted[0];
  }
}
