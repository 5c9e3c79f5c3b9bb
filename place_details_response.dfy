/** The Google place-details response and the custom deserializer of its
    `regularOpeningHours` node, which groups the weekly periods by the weekday on
    which they open. */
module PlaceDetailsResponse {
  import opened Wrappers

  /** `PlaceDetailsResponse.Period`; Java's `int` fields default to 0. */
  datatype Period = Period(openingHour: int, openingMinute: int, closingHour: int, closingMinute: int)

  /** `PlaceDetailsResponse.OpeningHour`: weekday name to that day's periods. */
  datatype OpeningHour = OpeningHour(openingHours: Option<map<string, seq<Period>>>, openNow: bool)

  /** The fields of the response the service reads. */
  datatype PlaceDetails = PlaceDetails(
    name: Option<string>,
    googlePlaceId: Option<string>,
    formattedAddress: Option<string>,
    phoneNumber: Option<string>,
    openingHours: Option<OpeningHour>,
    website: Option<string>,
    businessStatus: Option<string>,
    types: Option<seq<string>>)

  // ---------------------------------------------------------------------------
  // The JSON being read
  // ---------------------------------------------------------------------------

  /** An "open" or "close" object: weekday index, hour and minute. */
  datatype TimeNode = TimeNode(day: int, hour: int, minute: int)

  /** One element of "periods"; either member may be missing. */
  datatype PeriodNode = PeriodNode(open: Option<TimeNode>, close: Option<TimeNode>)

  /** The "regularOpeningHours" object; "openNow" and "periods" may be missing. */
  datatype HoursNode = HoursNode(openNow: Option<bool>, periods: Option<seq<PeriodNode>>)

  // ---------------------------------------------------------------------------
  // Day names
  // ---------------------------------------------------------------------------

  const DayNames: seq<string> := ["Sunday", "Monday", "Tuesday", "Wednesday", "Thursday", "Friday", "Saturday"]

  /** `formattedDayString`: the name at that index of the week starting on Sunday,
      or the array's out-of-bounds error. */
  function FormattedDayString(day: int): (r: Result<string>)
    ensures r.Ok? <==> 0 <= day < 7
    ensures r.Ok? ==> r.value == DayNames[day]
    ensures r.Err? ==> r.error == IndexOutOfBounds(day)
  {
    if 0 <= day < |DayNames| then Ok(DayNames[day]) else Err(IndexOutOfBounds(day))
  }

  /** The index of a day name, the inverse of `FormattedDayString`. */
  function DayIndex(name: string): (r: Option<int>)
    ensures r.Some? ==> 0 <= r.value < 7 && DayNames[r.value] == name
  {
    if name == "Sunday" then Some(0)
    else if name == "Monday" then Some(1)
    else if name == "Tuesday" then Some(2)
    else if name == "Wednesday" then Some(3)
    else if name == "Thursday" then Some(4)
    else if name == "Friday" then Some(5)
    else if name == "Saturday" then Some(6)
    else None
  }

  /** Naming a day index and looking the name up again gives the index back: the
      seven names are distinct. */
  lemma DayNameRoundTrip(day: int)
    requires 0 <= day < 7
    ensures DayIndex(FormattedDayString(day).value) == Some(day)
  {
  }

  // ---------------------------------------------------------------------------
  // Grouping
  // ---------------------------------------------------------------------------

  /** The period a node with an "open" member becomes; without "close" the closing
      time keeps its default 0:00. */
  function ToPeriod(n: PeriodNode): Period
    requires n.open.Some?
  {
    var closing := if n.close.Some? then n.close.value else TimeNode(0, 0, 0);
    Period(n.open.value.hour, n.open.value.minute, closing.hour, closing.minute)
  }

  /** `computeIfAbsent(day, ...).add(p)`. */
  function Append(m: map<string, seq<Period>>, day: string, p: Period): map<string, seq<Period>> {
    m[day := (if day in m then m[day] else []) + [p]]
  }

  /** The map the loop builds from the period nodes, read left to right; the first
      node with an "open" member and a day outside 0..6 aborts it. */
  function Grouped(nodes: seq<PeriodNode>): Result<map<string, seq<Period>>>
    decreases |nodes|
  {
    if nodes == [] then Ok(map[])
    else
      var prefix := Grouped(nodes[..|nodes| - 1]);
      var last := nodes[|nodes| - 1];
      if prefix.Err? || last.open.None? then prefix
      else
        match FormattedDayString(last.open.value.day)
        case Err(e) => Err(e)
        case Ok(day) => Ok(Append(prefix.value, day, ToPeriod(last)))
  }

  /** What the deserializer returns for a node. */
  function Deserialized(node: HoursNode): Result<OpeningHour> {
    var openNow := node.openNow.GetOr(false);
    if node.periods.None? then Ok(OpeningHour(Some(map[]), openNow))
    else
      match Grouped(node.periods.value)
      case Err(e) => Err(e)
      case Ok(m) => Ok(OpeningHour(Some(m), openNow))
  }

  /** Once a prefix has failed, the whole input fails the same way. */
  lemma {:induction false} GroupedErrorPersists(nodes: seq<PeriodNode>, k: int)
    requires 0 <= k <= |nodes| && Grouped(nodes[..k]).Err?
    ensures Grouped(nodes) == Grouped(nodes[..k])
    decreases |nodes| - k
  {
    if k < |nodes| {
      assert nodes[..k + 1][..k] == nodes[..k];
      GroupedErrorPersists(nodes, k + 1);
    } else {
      assert nodes[..k] == nodes;
    }
  }

  /** `OpeningHourDeserializer.deserialize`. */
  method Deserialize(node: HoursNode) returns (r: Result<OpeningHour>)
    ensures r == Deserialized(node)
  {
    var openingHours: map<string, seq<Period>> := map[];
    var openNow := false;
    if node.openNow.Some? {
      openNow := node.openNow.value;
    }
    if node.periods.Some? {
      var periods := node.periods.value;
      var i := 0;
      while i < |periods|
        invariant 0 <= i <= |periods|
        invariant Grouped(periods[..i]) == Ok(openingHours)
      {
        assert periods[..i + 1][..i] == periods[..i];
        var periodNode := periods[i];
        if periodNode.open.Some? {
          var openNode := periodNode.open.value;
          var dayName := FormattedDayString(openNode.day);
          if dayName.Err? {
            GroupedErrorPersists(periods, i + 1);
            return Err(dayName.error);
          }
          var period := Period(openNode.hour, openNode.minute, 0, 0);
          if periodNode.close.Some? {
            var closeNode := periodNode.close.value;
            period := period.(closingHour := closeNode.hour, closingMinute := closeNode.minute);
          }
          var list := if dayName.value in openingHours then openingHours[dayName.value] else [];
          openingHours := openingHours[dayName.value := list + [period]];
        }
        i := i + 1;
      }
      assert periods[..i] == periods;
    }
    r := Ok(OpeningHour(Some(openingHours), openNow));
  }

  // ---------------------------------------------------------------------------
  // What the grouping promises
  // ---------------------------------------------------------------------------

  /** The node opens on a valid weekday with this name. */
  predicate OpensOn(n: PeriodNode, day: string) {
    n.open.Some? && FormattedDayString(n.open.value.day) == Ok(day)
  }

  /** The periods of the nodes that open on `day`, in input order. */
  function PeriodsOn(nodes: seq<PeriodNode>, day: string): seq<Period>
    decreases |nodes|
  {
    if nodes == [] then []
    else
      var last := nodes[|nodes| - 1];
      PeriodsOn(nodes[..|nodes| - 1], day) + (if OpensOn(last, day) then [ToPeriod(last)] else [])
  }

  /** The number of nodes with an "open" member. */
  function CountOpen(nodes: seq<PeriodNode>): nat
    decreases |nodes|
  {
    if nodes == [] then 0
    else CountOpen(nodes[..|nodes| - 1]) + (if nodes[|nodes| - 1].open.Some? then 1 else 0)
  }

  /** The grouping succeeds exactly when every node with an "open" member names a
      day index in 0..6; nodes without "open" are never looked at. */
  lemma {:induction false} GroupedOkIff(nodes: seq<PeriodNode>)
    ensures Grouped(nodes).Ok? <==>
      forall i :: 0 <= i < |nodes| && nodes[i].open.Some? ==> 0 <= nodes[i].open.value.day < 7
    decreases |nodes|
  {
    if nodes != [] {
      var prefix := nodes[..|nodes| - 1];
      GroupedOkIff(prefix);
      assert forall i :: 0 <= i < |prefix| ==> prefix[i] == nodes[i];
    }
  }

  /** Each day's list holds, in input order, exactly the periods that open that day,
      and a day is a key exactly when at least one period opens on it. */
  lemma {:induction false} GroupedByDay(nodes: seq<PeriodNode>, day: string)
    requires Grouped(nodes).Ok?
    ensures var m := Grouped(nodes).value;
      (day in m <==> PeriodsOn(nodes, day) != [])
      && (day in m ==> m[day] == PeriodsOn(nodes, day))
    decreases |nodes|
  {
    if nodes != [] {
      var prefix := nodes[..|nodes| - 1];
      var last := nodes[|nodes| - 1];
      assert Grouped(prefix).Ok?;
      GroupedByDay(prefix, day);
    }
  }

  /** The number of stored periods, summed over the week's day names from index `k`. */
  function StoredFrom(m: map<string, seq<Period>>, k: nat): nat
    requires k <= 7
    decreases 7 - k
  {
    if k == 7 then 0
    else (if DayNames[k] in m then |m[DayNames[k]]| else 0) + StoredFrom(m, k + 1)
  }

  /** Appending one period under day `j` adds one to the sum over the days from `k`
      when `k <= j`, and nothing otherwise. */
  lemma {:induction false} StoredAfterAppend(m: map<string, seq<Period>>, j: int, p: Period, k: nat)
    requires 0 <= j < 7 && k <= 7
    ensures StoredFrom(Append(m, DayNames[j], p), k) == StoredFrom(m, k) + (if k <= j then 1 else 0)
    decreases 7 - k
  {
    if k < 7 {
      StoredAfterAppend(m, j, p, k + 1);
      if k != j {
        DayNameRoundTrip(k);
        DayNameRoundTrip(j);
        assert DayNames[k] != DayNames[j];
      }
    }
  }

  /** Every period node with an "open" member is stored exactly once: the lists of
      the seven days together hold as many periods as there are such nodes. */
  lemma {:induction false} StoredCount(nodes: seq<PeriodNode>)
    requires Grouped(nodes).Ok?
    ensures StoredFrom(Grouped(nodes).value, 0) == CountOpen(nodes)
    decreases |nodes|
  {
    if nodes != [] {
      var prefix := nodes[..|nodes| - 1];
      var last := nodes[|nodes| - 1];
      assert Grouped(prefix).Ok?;
      StoredCount(prefix);
      if last.open.Some? {
        var j := last.open.value.day;
        StoredAfterAppend(Grouped(prefix).value, j, ToPeriod(last), 0);
      }
    }
  }

  /** Without "periods" the map is empty, not absent; "openNow" is false unless given. */
  lemma DeserializedDefaults(node: HoursNode)
    requires Deserialized(node).Ok?
    ensures node.periods.None? ==> Deserialized(node).value.openingHours == Some(map[])
    ensures Deserialized(node).value.openNow <==> node.openNow == Some(true)
  {
  }
}
