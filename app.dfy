/** The root view of the client: the canonical place list, the session cache of
    the last fetched list, the three local list mutations, and the filter that
    derives the displayed list. */
module App {
  import opened Wrappers
  import opened Text
  import opened Seqs
  import opened ClientPlaces

  /** Five minutes, in milliseconds. */
  const CacheTtlMs: int := 1000 * 60 * 5

  /** The single cache slot: when the list was stored and the list itself. */
  datatype CacheEntry = CacheEntry(ts: int, data: seq<Place>)

  /** What the request for the feed produced: a parsed list from an ok response,
      a response whose status was not ok, or a rejected promise (network failure,
      unreadable body) carrying an error message if it had one. */
  datatype FeedResponse = Received(data: seq<Place>) | NotOk | Thrown(message: Option<string>)

  /** The filter bar's state, as free strings. */
  datatype Filters = Filters(search: string, placeType: string, visitedStatus: string)

  /** The cache holds a list stored less than the TTL before `now`. */
  predicate CacheFresh(cache: Option<CacheEntry>, now: int) {
    cache.Some? && now - cache.value.ts < CacheTtlMs
  }

  /** The root view's state. `cache` stands for the module-level `placesCache`. */
  class PlacesView {
    var places: seq<Place>
    var loading: bool
    var error: Option<string>
    var cache: Option<CacheEntry>

    constructor ()
      ensures places == [] && !loading && error == None && cache == None
    {
      places := [];
      loading := false;
      error := None;
      cache := None;
    }

    /** Load the list: from the cache when it is fresh and no refresh is forced,
        otherwise from `response`. `fetched` tells whether the network was asked. */
    method FetchPlaces(forceRefresh: bool, now: int, response: FeedResponse) returns (fetched: bool)
      modifies this
      ensures fetched <==> forceRefresh || !CacheFresh(old(cache), now)
      ensures !loading
      ensures !fetched ==> places == old(cache).value.data && cache == old(cache) && error == None
      ensures fetched && response.Received? ==>
        places == response.data && cache == Some(CacheEntry(now, response.data)) && error == None
      ensures fetched && response.NotOk? ==>
        places == old(places) && cache == old(cache) && error == Some("Failed to fetch places")
      ensures fetched && response.Thrown? ==>
        places == old(places) && cache == old(cache) && error == Some(response.message.GetOr("Unknown error"))
    {
      loading := true;
      error := None;
      if !forceRefresh && cache.Some? && now - cache.value.ts < CacheTtlMs {
        places := cache.value.data;
        loading := false;
        return false;
      }
      fetched := true;
      match response {
        case Received(data) =>
          cache := Some(CacheEntry(now, data));
          places := data;
        case NotOk =>
          error := Some("Failed to fetch places");
        case Thrown(message) =>
          error := Some(message.GetOr("Unknown error"));
      }
      loading := false;
    }

    /** Put a new place, keyed by the clock, in front of the list and cache the result. */
    method AddPlace(newPlace: Place, now: nat)
      modifies this`places, this`cache
      ensures places == [newPlace.(id := NatToString(now))] + old(places)
      ensures cache == Some(CacheEntry(now, places))
    {
      var place := newPlace.(id := NatToString(now));
      var updated := [place] + places;
      places := updated;
      cache := Some(CacheEntry(now, updated));
    }

    /** Flip `visited` on the places with the given id and cache the result. */
    method ToggleVisited(id: string, now: int)
      modifies this`places, this`cache
      ensures places == Toggled(old(places), id)
      ensures cache == Some(CacheEntry(now, places))
    {
      var updated := Toggled(places, id);
      places := updated;
      cache := Some(CacheEntry(now, updated));
    }

    /** Drop the places with the given id and cache the result. */
    method DeletePlace(id: string, now: int)
      modifies this`places, this`cache
      ensures places == Filter(old(places), p => OtherId(p, id))
      ensures cache == Some(CacheEntry(now, places))
    {
      var updated := Filter(places, p => OtherId(p, id));
      places := updated;
      cache := Some(CacheEntry(now, updated));
    }

    /** The list on display. */
    function Displayed(filters: Filters): seq<Place>
      reads this
    {
      FilteredPlaces(places, filters)
    }
  }

  // ---------------------------------------------------------------------------
  // Local list mutations
  // ---------------------------------------------------------------------------

  predicate OtherId(p: Place, id: string) {
    p.id != id
  }

  /** Deleting the id an add just gave out restores the list, when no place in it
      had that id already. */
  lemma AddThenDeleteRestores(newPlace: Place, now: nat, ps: seq<Place>)
    requires forall i :: 0 <= i < |ps| ==> ps[i].id != NatToString(now)
    ensures Filter([newPlace.(id := NatToString(now))] + ps, p => OtherId(p, NatToString(now))) == ps
  {
    var id := NatToString(now);
    var keep := (p: Place) => OtherId(p, id);
    var added := [newPlace.(id := id)] + ps;
    assert added[1..] == ps;
    FilterKeepsAll(ps, keep);
  }

  /** The place with its `visited` flag negated (by truthiness) when its id matches. */
  function Flip(p: Place, id: string): Place {
    if p.id == id then p.(visited := JsBool(!Truthy(p.visited))) else p
  }

  /** `places.map(...)` in `handleToggleVisited`. */
  function Toggled(ps: seq<Place>, id: string): seq<Place> {
    if ps == [] then [] else [Flip(ps[0], id)] + Toggled(ps[1..], id)
  }

  /** Toggling keeps length and order, negates `visited` exactly on the matching
      places and changes nothing else. */
  lemma {:induction false} ToggledAt(ps: seq<Place>, id: string, i: int)
    requires 0 <= i < |ps|
    ensures |Toggled(ps, id)| == |ps|
    ensures Toggled(ps, id)[i].(visited := ps[i].visited) == ps[i]
    ensures ps[i].id == id ==> Toggled(ps, id)[i].visited == JsBool(!Truthy(ps[i].visited))
    ensures ps[i].id == id ==> Truthy(Toggled(ps, id)[i].visited) == !Truthy(ps[i].visited)
    ensures ps[i].id != id ==> Toggled(ps, id)[i] == ps[i]
  {
    if i > 0 {
      ToggledAt(ps[1..], id, i - 1);
    } else {
      ToggledLength(ps[1..], id);
    }
  }

  lemma {:induction false} ToggledLength(ps: seq<Place>, id: string)
    ensures |Toggled(ps, id)| == |ps|
  {
    if ps != [] {
      ToggledLength(ps[1..], id);
    }
  }

  predicate AllBooleanVisited(ps: seq<Place>) {
    forall i :: 0 <= i < |ps| ==> ps[i].visited.JsBool?
  }

  /** Toggling the same id twice restores every place whose `visited` is a boolean. */
  lemma {:induction false} ToggleTwice(ps: seq<Place>, id: string)
    requires AllBooleanVisited(ps)
    ensures Toggled(Toggled(ps, id), id) == ps
  {
    if ps != [] {
      ToggleTwice(ps[1..], id);
      assert Toggled(ps, id)[1..] == Toggled(ps[1..], id);
    }
  }

  /** Deleting keeps, in order, exactly the places with another id. */
  lemma DeleteKeepsOthers(ps: seq<Place>, id: string, p: Place)
    ensures IsSubsequence(Filter(ps, q => OtherId(q, id)), ps)
    ensures p in Filter(ps, q => OtherId(q, id)) <==> p in ps && p.id != id
  {
    FilterIsSubsequence(ps, q => OtherId(q, id));
    FilterMembership(ps, q => OtherId(q, id), p);
  }

  // ---------------------------------------------------------------------------
  // Statistics
  // ---------------------------------------------------------------------------

  predicate CountsAsVisited(p: Place) {
    Truthy(p.visited)
  }

  predicate CountsAsToVisit(p: Place) {
    !Truthy(p.visited)
  }

  /** The "Visited" and "To Visit" tiles together count every place once. */
  lemma StatsAddUp(places: seq<Place>)
    ensures |Filter(places, CountsAsVisited)| + |Filter(places, CountsAsToVisit)| == |places|
  {
    FilterPartition(places, CountsAsVisited, CountsAsToVisit);
  }

  // ---------------------------------------------------------------------------
  // Filter
  // ---------------------------------------------------------------------------

  /** `(value || default).trim().toLowerCase()`. */
  function NormaliseFilter(value: string, default: string): string {
    ToLower(JsTrim(if value == "" then default else value))
  }

  /** The visited flag read from a boolean, a string or a number. */
  predicate IsVisited(v: JsValue) {
    match v
    case JsBool(b) => b
    case JsString(s) =>
      var t := JsTrim(ToLower(s));
      t == "true" || t == "1" || t == "visited" || t == "yes"
    case JsNumber(n) => n != 0.0
    case JsNull => false
  }

  /** The search condition, for an already normalised search string. */
  predicate MatchesSearch(p: Place, search: string) {
    search == "" || Contains(ToLower(p.name), search) || Contains(ToLower(p.location), search)
  }

  function NormalisedType(p: Place): string {
    JsTrim(ToLower(p.placeType))
  }

  /** The type condition, for an already normalised type filter. */
  predicate MatchesType(p: Place, typeFilter: string) {
    var placeType := NormalisedType(p);
    typeFilter == "all"
    || placeType == typeFilter || placeType == typeFilter + "s" || Contains(placeType, typeFilter)
  }

  /** The status condition, for an already normalised status filter. */
  predicate MatchesStatus(p: Place, visitedFilter: string) {
    visitedFilter == "all"
    || (!(visitedFilter == "visited" && !IsVisited(p.visited))
        && !((visitedFilter == "tovisit" || visitedFilter == "toVisit" || visitedFilter == "to-visit")
             && IsVisited(p.visited)))
  }

  predicate Keep(p: Place, search: string, typeFilter: string, visitedFilter: string) {
    MatchesSearch(p, search) && MatchesType(p, typeFilter) && MatchesStatus(p, visitedFilter)
  }

  /** `filteredPlaces`: the places that satisfy all three conditions, in list order. */
  function FilteredPlaces(places: seq<Place>, filters: Filters): seq<Place> {
    var search := NormaliseFilter(filters.search, "");
    var typeFilter := NormaliseFilter(filters.placeType, "all");
    var visitedFilter := NormaliseFilter(filters.visitedStatus, "all");
    Filter(places, p => Keep(p, search, typeFilter, visitedFilter))
  }

  /** The displayed list is an order-preserving subsequence of the list, and a
      place is displayed exactly when it is in the list and meets all three conditions. */
  lemma FilteredSpec(places: seq<Place>, filters: Filters, p: Place)
    ensures IsSubsequence(FilteredPlaces(places, filters), places)
    ensures p in FilteredPlaces(places, filters) <==>
      p in places
      && MatchesSearch(p, NormaliseFilter(filters.search, ""))
      && MatchesType(p, NormaliseFilter(filters.placeType, "all"))
      && MatchesStatus(p, NormaliseFilter(filters.visitedStatus, "all"))
  {
    var search := NormaliseFilter(filters.search, "");
    var typeFilter := NormaliseFilter(filters.placeType, "all");
    var visitedFilter := NormaliseFilter(filters.visitedStatus, "all");
    FilterIsSubsequence(places, q => Keep(q, search, typeFilter, visitedFilter));
    FilterMembership(places, q => Keep(q, search, typeFilter, visitedFilter), p);
  }

  /** The default filter values are already normalised. */
  lemma DefaultFiltersNormalise()
    ensures NormaliseFilter("", "") == ""
    ensures NormaliseFilter("all", "all") == "all"
  {
    TrimmedIsFixed("", IsJsSpace);
    LowerWordNormalised("all", "all");
  }

  /** A word of lower-case ASCII letters is its own normal form. */
  lemma LowerWordNormalised(word: string, default: string)
    requires |word| > 0 && forall i :: 0 <= i < |word| ==> 'a' <= word[i] <= 'z'
    ensures NormaliseFilter(word, default) == word
  {
    TrimmedIsFixed(word, IsJsSpace);
    assert ToLower(word) == word;
  }

  /** With no search and both selectors on "all", every place is displayed. */
  lemma DefaultFiltersShowAll(places: seq<Place>)
    ensures FilteredPlaces(places, Filters("", "all", "all")) == places
  {
    DefaultFiltersNormalise();
    FilterKeepsAll(places, p => Keep(p, "", "all", "all"));
  }

  /** The equal and plural alternatives of the type condition are special cases of
      containment: the condition is "all", or the filter occurs in the type. */
  lemma TypeMatchIsContainment(p: Place, typeFilter: string)
    ensures MatchesType(p, typeFilter) <==> typeFilter == "all" || Contains(NormalisedType(p), typeFilter)
  {
    ContainsPrefix(typeFilter, "");
    assert typeFilter + "" == typeFilter;
    ContainsPrefix(typeFilter, "s");
  }

  /** A string "YES" counts as visited; the number 0 does not. */
  lemma VisitedExamples()
    ensures IsVisited(JsString("YES"))
    ensures !IsVisited(JsNumber(0.0))
  {
    assert ToLower("YES") == "yes";
    TrimmedIsFixed("yes", IsJsSpace);
  }

  /** The filter's reading of `visited` agrees with the truthiness the statistics
      and the toggle use on booleans, numbers and null; on strings it is stricter:
      whatever it reads as visited is truthy. */
  lemma VisitedVersusTruthy(v: JsValue)
    ensures !v.JsString? ==> (IsVisited(v) <==> Truthy(v))
    ensures IsVisited(v) ==> Truthy(v)
  {
    if v.JsString? && v.s == "" {
      var t := JsTrim(ToLower(v.s));
      assert ToLower(v.s) == "";
      assert t == "";
    }
  }

  /** The string "false" is truthy, so the statistics count it as visited, while the
      filter reads it as not visited. */
  lemma FalseStringDisagrees()
    ensures Truthy(JsString("false")) && !IsVisited(JsString("false"))
  {
    assert JsTrim(ToLower("false")) == "false" by {
      assert ToLower("false") == "false";
      TrimmedIsFixed("false", IsJsSpace);
    }
  }
}

/** A client of `PlacesView`: a second load within the TTL is served from the cache. */
module AppScenarios {
  import opened Wrappers
  import opened ClientPlaces
  import opened App

  /** Load at `t`, load again four minutes later without forcing: the second load
      asks nothing of the network and shows the first load's list. */
  method ReloadWithinTtl(data: seq<Place>, t: int, later: FeedResponse)
    returns (secondFetched: bool, shown: seq<Place>)
    ensures !secondFetched && shown == data
  {
    var view := new PlacesView();
    var first := view.FetchPlaces(false, t, Received(data));
    secondFetched := view.FetchPlaces(false, t + 4 * 60 * 1000, later);
    shown := view.places;
  }

  /** Six minutes later the cache has expired and the network is asked again. */
  method ReloadAfterTtl(data: seq<Place>, t: int, later: FeedResponse)
    returns (secondFetched: bool, error: Option<string>)
    ensures secondFetched
    ensures later.NotOk? ==> error == Some("Failed to fetch places")
  {
    var view := new PlacesView();
    var first := view.FetchPlaces(false, t, Received(data));
    secondFetched := view.FetchPlaces(false, t + 6 * 60 * 1000, later);
    error := view.error;
  }
}
