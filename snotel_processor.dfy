/**
 * The SNOTEL station processor (snotel/snotel_processor.py): the single
 * region of a station (first containing polygon, otherwise the nearest
 * one), the per-region station rosters, the date window of a time-series
 * update, the merge of fetched values into one record per (date, station)
 * and the projection of station metadata onto the CSV columns.
 *
 * Polygons are given by oracle functions (containment and distance to a
 * polygon's exterior); HTTP responses, CSV files and the clock are inputs.
 */
module SnotelProcessor {
  import opened Wrappers
  import opened Sequences

  // ---------------------------------------------------------------------
  // Region of a station
  // ---------------------------------------------------------------------

  /** A shapely point; the processor builds it as `Point(lat, lon)`. */
  datatype Point = Point(x: real, y: real)

  /**
   * The region polygons: the region names in the boundary file's order
   * and, per region, whether its polygon contains a point and the distance
   * from a point to the polygon's exterior ring.
   */
  datatype Shapes = Shapes(
    names: seq<string>,
    contains: (string, Point) -> bool,
    exteriorDistance: (string, Point) -> real)

  /** The smallest distance seen so far; `float('inf')` before any region. */
  datatype Distance = Infinity | Finite(value: real)

  predicate Below(d: real, m: Distance)
  {
    m.Infinity? || d < m.value
  }

  const UNKNOWN := "Unknown"

  /** The first region, in order, whose polygon contains the point. */
  function FirstContaining(s: Shapes, names: seq<string>, pt: Point): (r: Option<string>)
    ensures r.Some? ==> r.value in names && s.contains(r.value, pt)
    ensures r.None? <==> forall i :: 0 <= i < |names| ==> !s.contains(names[i], pt)
  {
    if names == [] then None
    else if s.contains(names[0], pt) then Some(names[0])
    else FirstContaining(s, names[1..], pt)
  }

  /**
   * The state of the nearest-region scan after the regions `names`: the
   * smallest distance and its region, replaced only by a strictly smaller
   * distance.
   */
  function Scan(s: Shapes, names: seq<string>, pt: Point): (Distance, string)
  {
    if names == [] then (Infinity, UNKNOWN)
    else
      var (minDistance, closest) := Scan(s, names[..|names| - 1], pt);
      var region := names[|names| - 1];
      var d := s.exteriorDistance(region, pt);
      if Below(d, minDistance) then (Finite(d), region) else (minDistance, closest)
  }

  /** Region `k` has the smallest distance, and every earlier region a strictly larger one. */
  predicate IsEarliestNearest(s: Shapes, names: seq<string>, pt: Point, k: int)
  {
    0 <= k < |names| &&
    (forall j :: 0 <= j < |names| ==> s.exteriorDistance(names[k], pt) <= s.exteriorDistance(names[j], pt)) &&
    (forall j :: 0 <= j < k ==> s.exteriorDistance(names[k], pt) < s.exteriorDistance(names[j], pt))
  }

  /** The index the scan settles on; the scan's state is that region and its distance. */
  function NearestIndex(s: Shapes, names: seq<string>, pt: Point): (k: nat)
    requires names != []
    ensures IsEarliestNearest(s, names, pt, k)
    ensures Scan(s, names, pt) == (Finite(s.exteriorDistance(names[k], pt)), names[k])
  {
    var n := |names|;
    var init := names[..n - 1];
    var d := s.exteriorDistance(names[n - 1], pt);
    if n == 1 then 0
    else
      var k := NearestIndex(s, init, pt);
      assert init[k] == names[k];
      if d < s.exteriorDistance(init[k], pt) then
        assert forall j :: 0 <= j < n - 1 ==> init[j] == names[j];
        n - 1
      else
        assert forall j :: 0 <= j < n - 1 ==> init[j] == names[j];
        k
  }

  /** `determine_region`: the region the processor gives a station at `(lat, lon)`. */
  function RegionOf(s: Shapes, lat: real, lon: real): string
  {
    var pt := Point(lat, lon);
    match FirstContaining(s, s.names, pt)
    case Some(r) => r
    case None => Scan(s, s.names, pt).1
  }

  /** A region whose polygon contains the point, with no containing region before it, is chosen. */
  lemma {:induction false} FirstContainingWins(s: Shapes, names: seq<string>, pt: Point, i: int)
    requires 0 <= i < |names| && s.contains(names[i], pt)
    requires forall j :: 0 <= j < i ==> !s.contains(names[j], pt)
    ensures FirstContaining(s, names, pt) == Some(names[i])
  {
    if i > 0 {
      FirstContainingWins(s, names[1..], pt, i - 1);
    }
  }

  /**
   * The selection rule: the first containing region if any; otherwise the
   * region of smallest exterior distance, the earliest one on a tie;
   * "Unknown" exactly when there are no regions at all.
   */
  lemma RegionOfRule(s: Shapes, lat: real, lon: real)
    ensures forall i :: 0 <= i < |s.names| && s.contains(s.names[i], Point(lat, lon)) &&
                        (forall j :: 0 <= j < i ==> !s.contains(s.names[j], Point(lat, lon)))
                        ==> RegionOf(s, lat, lon) == s.names[i]
    ensures (forall i :: 0 <= i < |s.names| ==> !s.contains(s.names[i], Point(lat, lon))) && s.names != []
            ==> exists k :: IsEarliestNearest(s, s.names, Point(lat, lon), k) && RegionOf(s, lat, lon) == s.names[k]
    ensures s.names == [] ==> RegionOf(s, lat, lon) == UNKNOWN
    ensures s.names != [] ==> RegionOf(s, lat, lon) in s.names
  {
    var pt := Point(lat, lon);
    forall i | 0 <= i < |s.names| && s.contains(s.names[i], pt) &&
               (forall j :: 0 <= j < i ==> !s.contains(s.names[j], pt))
      ensures RegionOf(s, lat, lon) == s.names[i]
    {
      FirstContainingWins(s, s.names, pt, i);
    }
    if s.names != [] && FirstContaining(s, s.names, pt).None? {
      var k := NearestIndex(s, s.names, pt);
      assert IsEarliestNearest(s, s.names, pt, k) && RegionOf(s, lat, lon) == s.names[k];
    }
  }

  /** `determine_region`: a containment pass, then the nearest-region scan. */
  method DetermineRegion(s: Shapes, lat: real, lon: real) returns (region: string)
    ensures region == RegionOf(s, lat, lon)
  {
    var pt := Point(lat, lon);
    for i := 0 to |s.names|
      invariant FirstContaining(s, s.names, pt) == FirstContaining(s, s.names[i..], pt)
    {
      assert s.names[i..][1..] == s.names[i + 1..];
      if s.contains(s.names[i], pt) {
        return s.names[i];
      }
    }
    assert s.names[|s.names|..] == [];
    var minDistance := Infinity;
    var closest := UNKNOWN;
    for i := 0 to |s.names|
      invariant (minDistance, closest) == Scan(s, s.names[..i], pt)
    {
      assert s.names[..i + 1][..i] == s.names[..i];
      var d := s.exteriorDistance(s.names[i], pt);
      if Below(d, minDistance) {
        minDistance := Finite(d);
        closest := s.names[i];
      }
    }
    assert s.names[..|s.names|] == s.names;
    region := closest;
  }

  // ---------------------------------------------------------------------
  // Rosters per region
  // ---------------------------------------------------------------------

  /** The columns of a station kept in a roster. */
  datatype Station = Station(stationId: int, name: string, elevation: real, latitude: real, longitude: real)

  /** The `region` column: the region of every station, row by row. */
  function RegionColumn(s: Shapes, stations: seq<Station>): (column: seq<string>)
    ensures |column| == |stations|
    ensures forall k :: 0 <= k < |stations| ==> column[k] == RegionOf(s, stations[k].latitude, stations[k].longitude)
  {
    seq(|stations|, k requires 0 <= k < |stations| => RegionOf(s, stations[k].latitude, stations[k].longitude))
  }

  /** The rows whose `region` cell equals `region`, in file order. */
  function Select(stations: seq<Station>, column: seq<string>, region: string): seq<Station>
    requires |column| == |stations|
  {
    if stations == [] then []
    else (if column[0] == region then [stations[0]] else []) + Select(stations[1..], column[1..], region)
  }

  /** The roster of a region: the stations assigned to it, in file order. */
  function Roster(s: Shapes, stations: seq<Station>, region: string): seq<Station>
  {
    Select(stations, RegionColumn(s, stations), region)
  }

  /**
   * `map_stations_to_regions` after the CSV has been read: no result
   * (`False`) without regions, otherwise one roster per region and the
   * region names.
   */
  method MapStationsToRegions(s: Shapes, stations: seq<Station>)
    returns (result: Option<(map<string, seq<Station>>, seq<string>)>)
    ensures s.names == [] ==> result.None?
    ensures s.names != [] ==> result.Some? && result.value.1 == s.names
    ensures result.Some? ==> result.value.0.Keys == set r | r in s.names
    ensures result.Some? ==> forall r :: r in result.value.0 ==> result.value.0[r] == Roster(s, stations, r)
  {
    if s.names == [] {
      return None;
    }
    var column := [];
    for k := 0 to |stations|
      invariant column == RegionColumn(s, stations)[..k]
    {
      var region := DetermineRegion(s, stations[k].latitude, stations[k].longitude);
      column := column + [region];
    }
    assert column == RegionColumn(s, stations);
    var rosters := map[];
    for i := 0 to |s.names|
      invariant rosters.Keys == set r | r in s.names[..i]
      invariant forall r :: r in rosters ==> rosters[r] == Roster(s, stations, r)
    {
      assert forall r :: r in s.names[..i + 1] <==> r in s.names[..i] || r == s.names[i];
      rosters := rosters[s.names[i] := Select(stations, column, s.names[i])];
    }
    assert s.names[..|s.names|] == s.names;
    return Some((rosters, s.names));
  }

  /** A station is in a region's roster exactly when that region is the one chosen for it. */
  lemma {:induction false} SelectIff(stations: seq<Station>, column: seq<string>, region: string, st: Station)
    requires |column| == |stations|
    ensures st in Select(stations, column, region) <==>
            exists k :: 0 <= k < |stations| && stations[k] == st && column[k] == region
  {
    if stations != [] {
      SelectIff(stations[1..], column[1..], region, st);
      var rest := Select(stations[1..], column[1..], region);
      assert Select(stations, column, region) == (if column[0] == region then [stations[0]] else []) + rest;
      if exists k :: 1 <= k < |stations| && stations[k] == st && column[k] == region {
        var k :| 1 <= k < |stations| && stations[k] == st && column[k] == region;
        assert stations[1..][k - 1] == st && column[1..][k - 1] == region;
      }
      if exists k :: 0 <= k < |stations| - 1 && stations[1..][k] == st && column[1..][k] == region {
        var k :| 0 <= k < |stations| - 1 && stations[1..][k] == st && column[1..][k] == region;
        assert stations[k + 1] == st && column[k + 1] == region;
      }
    }
  }

  /** A roster keeps its stations in file order. */
  lemma {:induction false} SelectIsSubsequence(stations: seq<Station>, column: seq<string>, region: string)
    requires |column| == |stations|
    ensures IsSubsequence(Select(stations, column, region), stations)
  {
    if stations != [] {
      SelectIsSubsequence(stations[1..], column[1..], region);
      var rest := Select(stations[1..], column[1..], region);
      if column[0] == region {
        assert Select(stations, column, region) == [stations[0]] + rest;
        assert ([stations[0]] + rest)[1..] == rest;
      } else {
        assert Select(stations, column, region) == rest;
        SubsequenceOfTail(rest, stations);
      }
    }
  }

  /** The number of rows whose `region` cell equals `region`. */
  function CountOf(column: seq<string>, region: string): nat
  {
    if column == [] then 0
    else (if column[0] == region then 1 else 0) + CountOf(column[1..], region)
  }

  /** The total size of the rosters of `names`. */
  function TotalSize(stations: seq<Station>, column: seq<string>, names: seq<string>): nat
    requires |column| == |stations|
  {
    if names == [] then 0
    else |Select(stations, column, names[0])| + TotalSize(stations, column, names[1..])
  }

  lemma {:induction false} SelectSize(stations: seq<Station>, column: seq<string>, region: string)
    requires |column| == |stations|
    ensures |Select(stations, column, region)| == CountOf(column, region)
  {
    if stations != [] {
      SelectSize(stations[1..], column[1..], region);
    }
  }

  /** Each row is counted once per occurrence of its region among `names`. */
  lemma {:induction false} TotalSizeCounts(stations: seq<Station>, column: seq<string>, names: seq<string>)
    requires |column| == |stations|
    requires forall i, j :: 0 <= i < j < |names| ==> names[i] != names[j]
    requires forall k :: 0 <= k < |column| ==> column[k] in names
    ensures TotalSize(stations, column, names) == |stations|
  {
    if stations == [] {
      EmptyTotal(stations, column, names);
    } else {
      TotalSizeCounts(stations[1..], column[1..], names);
      TotalSizeStep(stations, column, names);
    }
  }

  lemma {:induction false} EmptyTotal(stations: seq<Station>, column: seq<string>, names: seq<string>)
    requires |column| == |stations| == 0
    ensures TotalSize(stations, column, names) == 0
  {
    if names != [] {
      EmptyTotal(stations, column, names[1..]);
    }
  }

  /** Removing the first row lowers the total by the number of times its region occurs in `names`. */
  lemma {:induction false} TotalSizeStep(stations: seq<Station>, column: seq<string>, names: seq<string>)
    requires |column| == |stations| > 0
    requires forall i, j :: 0 <= i < j < |names| ==> names[i] != names[j]
    ensures TotalSize(stations, column, names)
         == TotalSize(stations[1..], column[1..], names) + (if column[0] in names then 1 else 0)
  {
    if names != [] {
      TotalSizeStep(stations, column, names[1..]);
      assert column[0] == names[0] ==> column[0] !in names[1..];
      assert column[0] in names <==> column[0] == names[0] || column[0] in names[1..];
    }
  }

  /**
   * With at least one region, every station lands in exactly one roster:
   * it is in the roster of the region chosen for it, in no other, and the
   * rosters together hold as many rows as the station file.
   */
  lemma EveryStationInOneRoster(s: Shapes, stations: seq<Station>, k: int)
    requires s.names != []
    requires forall i, j :: 0 <= i < j < |s.names| ==> s.names[i] != s.names[j]
    requires 0 <= k < |stations|
    ensures RegionOf(s, stations[k].latitude, stations[k].longitude) in s.names
    ensures stations[k] in Roster(s, stations, RegionOf(s, stations[k].latitude, stations[k].longitude))
    ensures TotalSize(stations, RegionColumn(s, stations), s.names) == |stations|
  {
    var column := RegionColumn(s, stations);
    forall i | 0 <= i < |column|
      ensures column[i] in s.names
    {
      RegionOfRule(s, stations[i].latitude, stations[i].longitude);
    }
    SelectIff(stations, column, column[k], stations[k]);
    TotalSizeCounts(stations, column, s.names);
  }

  // ---------------------------------------------------------------------
  // The date window of a time-series update
  // ---------------------------------------------------------------------

  /**
   * What the time-series file says about earlier runs: no usable history
   * (no file, an empty or unreadable file, no `Date` column), or the days
   * of its `Date` column (an empty table gives no days).
   */
  datatype Stored = NoHistory | History(days: seq<int>)

  /** Nothing to fetch (the function returns `True` at once), or the days `[start, end]` to fetch. */
  datatype Window = UpToDate | Fetch(start: int, end: int)

  const DEFAULT_LOOKBACK := 30

  /** The latest stored day (`pd.to_datetime(df['Date']).max()`). */
  function Latest(days: seq<int>): (m: int)
    requires days != []
    ensures m in days
    ensures forall i :: 0 <= i < |days| ==> days[i] <= m
  {
    if |days| == 1 then days[0]
    else
      var rest := Latest(days[1..]);
      assert forall i :: 1 <= i < |days| ==> days[i] == days[1..][i - 1];
      if days[0] >= rest then days[0] else rest
  }

  /**
   * The window of `fetch_and_process_time_series_data`, days counted as
   * integers: the end is the given end day or today; the start is the
   * given start day, else the day after the latest stored day, else 30
   * days before the end.
   */
  function FetchWindow(start: Option<int>, end: Option<int>, today: int, stored: Stored): Window
  {
    var last := if end.Some? then end.value else today;
    var first :=
      if start.Some? then start.value
      else if stored.History? && stored.days != [] then Latest(stored.days) + 1
      else last - DEFAULT_LOOKBACK;
    if first >= last then UpToDate else Fetch(first, last)
  }

  /**
   * The start-day rule: a given start wins; otherwise the update resumes
   * the day after the latest stored day, so no stored day is fetched
   * again; without history it looks back 30 days; a window is fetched
   * only when it is non-empty.
   */
  lemma FetchWindowRules(start: Option<int>, end: Option<int>, today: int, stored: Stored)
    ensures var last := if end.Some? then end.value else today;
            start.Some? ==> FetchWindow(start, end, today, stored)
                            == if start.value < last then Fetch(start.value, last) else UpToDate
    ensures var last := if end.Some? then end.value else today;
            start.None? && stored.History? && stored.days != [] ==>
              FetchWindow(start, end, today, stored)
              == if Latest(stored.days) + 1 < last then Fetch(Latest(stored.days) + 1, last) else UpToDate
    ensures var last := if end.Some? then end.value else today;
            start.None? && (stored.NoHistory? || stored.days == []) ==>
              FetchWindow(start, end, today, stored) == Fetch(last - DEFAULT_LOOKBACK, last)
    ensures FetchWindow(start, end, today, stored).Fetch? ==>
              FetchWindow(start, end, today, stored).start < FetchWindow(start, end, today, stored).end
    ensures start.None? && stored.History? && FetchWindow(start, end, today, stored).Fetch? ==>
              forall i :: 0 <= i < |stored.days| ==> stored.days[i] < FetchWindow(start, end, today, stored).start
  {
    if start.None? && stored.History? && stored.days != [] {
      var m := Latest(stored.days);
    }
  }

  // ---------------------------------------------------------------------
  // Merging fetched values into one record per (date, station)
  // ---------------------------------------------------------------------

  /** A JSON scalar of the response: `null` (or an absent key) or a number. */
  datatype Cell = Null | Num(x: real)

  /** One entry of an element's `values`: its date, its `value`, and its `average` when the key is present. */
  datatype ValueItem = ValueItem(date: string, value: Cell, average: Option<Cell>)

  /** One entry of a site's `data`: the element code and its values. */
  datatype ElementData = ElementData(elementCode: string, values: seq<ValueItem>)

  /** One site of a response (an absent `data` list is empty). */
  datatype SiteData = SiteData(data: seq<ElementData>)

  /** A record of `snotel_data_list`: its metadata and its element columns. */
  datatype Record = Record(
    date: string, stationName: string, region: string,
    elevation: real, latitude: real, longitude: real,
    fields: map<string, Cell>)

  /** One value as the merge sees it: the region and station it was fetched for, its element code and the value. */
  datatype Reading = Reading(region: string, station: Station, code: string, item: ValueItem)

  /** The element columns and their AWDB element codes, in declaration order. */
  const ELEMENTS: seq<(string, string)> := [
    ("Snow_Depth", "SNWD"),
    ("Snow_Water_Equivalent", "WTEQ"),
    ("Snow_Temperature", "SNTMP"),
    ("Air_Temperature_Max", "TMAX"),
    ("Air_Temperature_Min", "TMIN"),
    ("Air_Temperature_Avg", "TAVG"),
    ("Precipitation_Accumulation", "PRCP"),
    ("Precipitation_Increment", "PREC")
  ]

  function Key(r: Record): (string, string)
  {
    (r.date, r.stationName)
  }

  function KeyOf(x: Reading): (string, string)
  {
    (x.item.date, x.station.name)
  }

  /** The metadata a record is created with. */
  function Header(r: Record): (string, string, string, real, real, real)
  {
    (r.date, r.stationName, r.region, r.elevation, r.latitude, r.longitude)
  }

  function HeaderOf(x: Reading): (string, string, string, real, real, real)
  {
    (x.item.date, x.station.name, x.region, x.station.elevation, x.station.latitude, x.station.longitude)
  }

  /** The first record with key `key` (the `next(...)` search). */
  function FindIndex(records: seq<Record>, key: (string, string)): (r: Option<nat>)
    ensures r.Some? ==> r.value < |records| && Key(records[r.value]) == key &&
                        forall j :: 0 <= j < r.value ==> Key(records[j]) != key
    ensures r.None? ==> forall j :: 0 <= j < |records| ==> Key(records[j]) != key
  {
    if records == [] then None
    else if Key(records[0]) == key then Some(0)
    else match FindIndex(records[1..], key)
      case None => None
      case Some(i) => Some(i + 1)
  }

  /** `find_record`: the linear search over the records. */
  method FindRecord(records: seq<Record>, date: string, name: string) returns (index: Option<nat>)
    ensures index == FindIndex(records, (date, name))
  {
    var i := 0;
    while i < |records|
      invariant 0 <= i <= |records|
      invariant forall j :: 0 <= j < i ==> Key(records[j]) != (date, name)
    {
      if records[i].date == date && records[i].stationName == name {
        return Some(i);
      }
      i := i + 1;
    }
    index := None;
  }

  /** The columns set by one value of element `name`: the value, and `<name>_avg` when it has an average. */
  function WithValue(fields: map<string, Cell>, name: string, item: ValueItem): (r: map<string, Cell>)
    ensures name in r && r[name] == item.value
    ensures item.average.Some? ==> name + "_avg" in r && r[name + "_avg"] == item.average.value
    ensures item.average.None? ==>
              (name + "_avg" in r <==> name + "_avg" in fields) &&
              (name + "_avg" in fields ==> r[name + "_avg"] == fields[name + "_avg"])
    ensures forall k :: k != name && k != name + "_avg" ==>
              (k in r <==> k in fields) && (k in fields ==> r[k] == fields[k])
  {
    var updated := fields[name := item.value];
    if item.average.Some? then updated[name + "_avg" := item.average.value] else updated
  }

  /** The element loop after the entries `elements`: every entry whose code matches sets its columns. */
  function Updated(fields: map<string, Cell>, elements: seq<(string, string)>, code: string, item: ValueItem)
    : map<string, Cell>
  {
    if elements == [] then fields
    else
      var before := Updated(fields, elements[..|elements| - 1], code, item);
      var (name, api) := elements[|elements| - 1];
      if api == code then WithValue(before, name, item) else before
  }

  predicate DistinctCodes(elements: seq<(string, string)>)
  {
    forall i, j :: 0 <= i < j < |elements| ==> elements[i].1 != elements[j].1
  }

  /** An element code that matches no entry sets nothing. */
  lemma {:induction false} UnknownCodeSetsNothing(fields: map<string, Cell>, elements: seq<(string, string)>,
                                                 code: string, item: ValueItem)
    requires forall i :: 0 <= i < |elements| ==> elements[i].1 != code
    ensures Updated(fields, elements, code, item) == fields
  {
    if elements != [] {
      UnknownCodeSetsNothing(fields, elements[..|elements| - 1], code, item);
    }
  }

  /** With distinct codes, a matching code sets exactly the columns of its one entry. */
  lemma {:induction false} KnownCodeSetsItsColumns(fields: map<string, Cell>, elements: seq<(string, string)>,
                                                  code: string, item: ValueItem, e: nat)
    requires DistinctCodes(elements)
    requires e < |elements| && elements[e].1 == code
    ensures Updated(fields, elements, code, item) == WithValue(fields, elements[e].0, item)
  {
    var n := |elements|;
    var init := elements[..n - 1];
    if e == n - 1 {
      UnknownCodeSetsNothing(fields, init, code, item);
    } else {
      KnownCodeSetsItsColumns(fields, init, code, item, e);
      assert elements[n - 1].1 != code;
    }
  }

  lemma ElementCodesDistinct()
    ensures DistinctCodes(ELEMENTS)
  {
  }

  /** `snotel_elements.items()` loop: sets the columns of the element whose code matches. */
  method SetFields(fields: map<string, Cell>, code: string, item: ValueItem) returns (result: map<string, Cell>)
    ensures result == Updated(fields, ELEMENTS, code, item)
  {
    result := fields;
    for i := 0 to |ELEMENTS|
      invariant result == Updated(fields, ELEMENTS[..i], code, item)
    {
      assert ELEMENTS[..i + 1][..i] == ELEMENTS[..i];
      var (name, api) := ELEMENTS[i];
      if api == code {
        result := WithValue(result, name, item);
      }
    }
    assert ELEMENTS[..|ELEMENTS|] == ELEMENTS;
  }

  /** The record a value of a (date, station) not seen before starts. */
  function NewRecord(x: Reading): (r: Record)
    ensures Key(r) == KeyOf(x) && Header(r) == HeaderOf(x) && r.fields == map[]
  {
    Record(x.item.date, x.station.name, x.region, x.station.elevation, x.station.latitude, x.station.longitude, map[])
  }

  /** One value merged: found or appended record, then its element columns set. */
  function Absorb(records: seq<Record>, x: Reading): seq<Record>
  {
    match FindIndex(records, KeyOf(x))
    case None =>
      var r := NewRecord(x);
      records + [r.(fields := Updated(r.fields, ELEMENTS, x.code, x.item))]
    case Some(i) =>
      records[i := records[i].(fields := Updated(records[i].fields, ELEMENTS, x.code, x.item))]
  }

  /** The records after merging the values `xs`, in order, into `records`. */
  function MergeAll(records: seq<Record>, xs: seq<Reading>): seq<Record>
  {
    if xs == [] then records
    else Absorb(MergeAll(records, xs[..|xs| - 1]), xs[|xs| - 1])
  }

  /** Merging `a + b` is merging `a`, then `b`. */
  lemma {:induction false} MergeAllConcat(records: seq<Record>, a: seq<Reading>, b: seq<Reading>)
    ensures MergeAll(records, a + b) == MergeAll(MergeAll(records, a), b)
  {
    if b == [] {
      assert a + b == a;
    } else {
      var n := |b|;
      MergeAllConcat(records, a, b[..n - 1]);
      assert (a + b)[..|a + b| - 1] == a + b[..n - 1];
    }
  }

  /** The body of the value loop: find or create the record, then set the matching element's columns. */
  method MergeReading(records: seq<Record>, x: Reading) returns (result: seq<Record>)
    ensures result == Absorb(records, x)
  {
    var index := FindRecord(records, x.item.date, x.station.name);
    if index.None? {
      var record := NewRecord(x);
      var fields := SetFields(record.fields, x.code, x.item);
      result := records + [record.(fields := fields)];
    } else {
      var i := index.value;
      var fields := SetFields(records[i].fields, x.code, x.item);
      result := records[i := records[i].(fields := fields)];
    }
  }

  // ---------------------------------------------------------------------
  // The loops of the merge, and the values they visit
  // ---------------------------------------------------------------------

  /** The values of one element, as readings of `station` in `region`. */
  function ValueReadings(region: string, station: Station, code: string, values: seq<ValueItem>): seq<Reading>
  {
    if values == [] then []
    else ValueReadings(region, station, code, values[..|values| - 1])
         + [Reading(region, station, code, values[|values| - 1])]
  }

  /** The values of the elements of one site, element by element. */
  function ElementReadings(region: string, station: Station, elements: seq<ElementData>): seq<Reading>
  {
    if elements == [] then []
    else
      var e := elements[|elements| - 1];
      ElementReadings(region, station, elements[..|elements| - 1]) + ValueReadings(region, station, e.elementCode, e.values)
  }

  /** The values of a station's response, site by site. */
  function SiteReadings(region: string, station: Station, sites: seq<SiteData>): seq<Reading>
  {
    if sites == [] then []
    else SiteReadings(region, station, sites[..|sites| - 1]) + ElementReadings(region, station, sites[|sites| - 1].data)
  }

  /** The values of the stations of one roster, each fetched with `fetch`. */
  function RosterReadings(region: string, roster: seq<Station>, fetch: Station -> seq<SiteData>): seq<Reading>
  {
    if roster == [] then []
    else
      var st := roster[|roster| - 1];
      RosterReadings(region, roster[..|roster| - 1], fetch) + SiteReadings(region, st, fetch(st))
  }

  /** The values of every region in order; a region without a roster contributes none. */
  function AllReadings(regions: seq<string>, rosters: map<string, seq<Station>>, fetch: Station -> seq<SiteData>)
    : seq<Reading>
  {
    if regions == [] then []
    else
      var r := regions[|regions| - 1];
      AllReadings(regions[..|regions| - 1], rosters, fetch)
      + (if r in rosters then RosterReadings(r, rosters[r], fetch) else [])
  }

  /** The loop over one element's values. */
  method MergeValues(records: seq<Record>, region: string, station: Station, code: string, values: seq<ValueItem>)
    returns (result: seq<Record>)
    ensures result == MergeAll(records, ValueReadings(region, station, code, values))
  {
    result := records;
    for i := 0 to |values|
      invariant result == MergeAll(records, ValueReadings(region, station, code, values[..i]))
    {
      assert values[..i + 1][..i] == values[..i];
      var x := Reading(region, station, code, values[i]);
      assert ValueReadings(region, station, code, values[..i + 1])
          == ValueReadings(region, station, code, values[..i]) + [x];
      result := MergeReading(result, x);
    }
    assert values[..|values|] == values;
  }

  /** The loops over the sites of a response and the elements of each site. */
  method MergeResponse(records: seq<Record>, region: string, station: Station, sites: seq<SiteData>)
    returns (result: seq<Record>)
    ensures result == MergeAll(records, SiteReadings(region, station, sites))
  {
    result := records;
    for i := 0 to |sites|
      invariant result == MergeAll(records, SiteReadings(region, station, sites[..i]))
    {
      assert sites[..i + 1][..i] == sites[..i];
      var before := result;
      var elements := sites[i].data;
      for j := 0 to |elements|
        invariant result == MergeAll(before, ElementReadings(region, station, elements[..j]))
      {
        assert elements[..j + 1][..j] == elements[..j];
        var e := elements[j];
        result := MergeValues(result, region, station, e.elementCode, e.values);
        MergeAllConcat(before, ElementReadings(region, station, elements[..j]),
                       ValueReadings(region, station, e.elementCode, e.values));
      }
      assert elements[..|elements|] == elements;
      MergeAllConcat(records, SiteReadings(region, station, sites[..i]), ElementReadings(region, station, elements));
    }
    assert sites[..|sites|] == sites;
  }

  /**
   * The merge of `fetch_and_process_time_series_data`: for each region in
   * order that has a roster, for each of its stations, the station's
   * response (`fetch`; a failed request gives no sites) merged value by
   * value into `snotel_data_list`, which starts empty.
   */
  method CollectTimeSeries(regions: seq<string>, rosters: map<string, seq<Station>>, fetch: Station -> seq<SiteData>)
    returns (records: seq<Record>)
    ensures records == MergeAll([], AllReadings(regions, rosters, fetch))
  {
    records := [];
    for i := 0 to |regions|
      invariant records == MergeAll([], AllReadings(regions[..i], rosters, fetch))
    {
      assert regions[..i + 1][..i] == regions[..i];
      var region := regions[i];
      if region in rosters {
        var roster := rosters[region];
        var before := records;
        for k := 0 to |roster|
          invariant records == MergeAll(before, RosterReadings(region, roster[..k], fetch))
        {
          assert roster[..k + 1][..k] == roster[..k];
          var station := roster[k];
          records := MergeResponse(records, region, station, fetch(station));
          MergeAllConcat(before, RosterReadings(region, roster[..k], fetch), SiteReadings(region, station, fetch(station)));
        }
        assert roster[..|roster|] == roster;
        MergeAllConcat([], AllReadings(regions[..i], rosters, fetch), RosterReadings(region, roster, fetch));
      } else {
        assert AllReadings(regions[..i + 1], rosters, fetch) == AllReadings(regions[..i], rosters, fetch) + [];
        assert AllReadings(regions[..i], rosters, fetch) + [] == AllReadings(regions[..i], rosters, fetch);
      }
    }
    assert regions[..|regions|] == regions;
  }

  // ---------------------------------------------------------------------
  // What the merge guarantees
  // ---------------------------------------------------------------------

  /** The (date, station) keys of the records. */
  function Keys(records: seq<Record>): set<(string, string)>
  {
    set i | 0 <= i < |records| :: Key(records[i])
  }

  /** The (date, station) keys of the values. */
  function ReadingKeys(xs: seq<Reading>): set<(string, string)>
  {
    set i | 0 <= i < |xs| :: KeyOf(xs[i])
  }

  /** No two records share a (date, station) key. */
  predicate Unique(records: seq<Record>)
  {
    forall i, j :: 0 <= i < j < |records| ==> Key(records[i]) != Key(records[j])
  }

  /** An element column that a value with element code `code` sets. */
  predicate Touches(code: string, column: string)
  {
    exists e :: 0 <= e < |ELEMENTS| && ELEMENTS[e].1 == code && (column == ELEMENTS[e].0 || column == ELEMENTS[e].0 + "_avg")
  }

  /**
   * One value: the record of its key is updated in place, or a record
   * with the value's metadata is appended when the key is new; the other
   * records, and the metadata of every existing record, stay as they were.
   */
  lemma AbsorbEffect(records: seq<Record>, x: Reading)
    ensures var after := Absorb(records, x);
            |after| == |records| + (if KeyOf(x) in Keys(records) then 0 else 1) &&
            (forall i :: 0 <= i < |records| ==> Key(after[i]) == Key(records[i]) && Header(after[i]) == Header(records[i])) &&
            (forall i :: 0 <= i < |records| && Key(records[i]) != KeyOf(x) ==> after[i] == records[i]) &&
            (KeyOf(x) !in Keys(records) ==> Key(after[|records|]) == KeyOf(x) && Header(after[|records|]) == HeaderOf(x))
  {
    match FindIndex(records, KeyOf(x))
    case None =>
      assert KeyOf(x) !in Keys(records);
    case Some(k) =>
      assert Key(records[k]) == KeyOf(x);
  }

  /** Merging never removes or reorders records, and never changes a record's metadata. */
  lemma {:induction false} MergeAllKeepsPrefix(records: seq<Record>, xs: seq<Reading>)
    ensures var after := MergeAll(records, xs);
            |records| <= |after| &&
            forall i :: 0 <= i < |records| ==> Key(after[i]) == Key(records[i]) && Header(after[i]) == Header(records[i])
  {
    if xs != [] {
      var before := MergeAll(records, xs[..|xs| - 1]);
      MergeAllKeepsPrefix(records, xs[..|xs| - 1]);
      AbsorbEffect(before, xs[|xs| - 1]);
    }
  }

  lemma AbsorbKeys(records: seq<Record>, x: Reading)
    ensures Keys(Absorb(records, x)) == Keys(records) + {KeyOf(x)}
  {
    AbsorbEffect(records, x);
    var after := Absorb(records, x);
    forall k | k in Keys(after) ensures k in Keys(records) + {KeyOf(x)} {
      var i :| 0 <= i < |after| && Key(after[i]) == k;
      if i < |records| {
        assert Key(records[i]) == k;
      }
    }
    forall k | k in Keys(records) + {KeyOf(x)} ensures k in Keys(after) {
      if k in Keys(records) {
        var i :| 0 <= i < |records| && Key(records[i]) == k;
        assert Key(after[i]) == k;
      } else if KeyOf(x) !in Keys(records) {
        assert Key(after[|records|]) == k;
      }
    }
  }

  lemma ReadingKeysSnoc(xs: seq<Reading>)
    requires xs != []
    ensures ReadingKeys(xs) == ReadingKeys(xs[..|xs| - 1]) + {KeyOf(xs[|xs| - 1])}
  {
    var init := xs[..|xs| - 1];
    forall k | k in ReadingKeys(xs) ensures k in ReadingKeys(init) + {KeyOf(xs[|xs| - 1])} {
      var i :| 0 <= i < |xs| && KeyOf(xs[i]) == k;
      if i < |init| {
        assert KeyOf(init[i]) == k;
      }
    }
    forall k | k in ReadingKeys(init) ensures k in ReadingKeys(xs) {
      var i :| 0 <= i < |init| && KeyOf(init[i]) == k;
      assert KeyOf(xs[i]) == k;
    }
  }

  /** The merged keys are the old keys and the keys of the values: every value has its record. */
  lemma {:induction false} MergeAllKeys(records: seq<Record>, xs: seq<Reading>)
    ensures Keys(MergeAll(records, xs)) == Keys(records) + ReadingKeys(xs)
  {
    if xs == [] {
      assert ReadingKeys(xs) == {};
    } else {
      var init := xs[..|xs| - 1];
      MergeAllKeys(records, init);
      AbsorbKeys(MergeAll(records, init), xs[|xs| - 1]);
      ReadingKeysSnoc(xs);
    }
  }

  /** There is at most one record per (date, station). */
  lemma {:induction false} MergeAllUnique(records: seq<Record>, xs: seq<Reading>)
    requires Unique(records)
    ensures Unique(MergeAll(records, xs))
  {
    if xs != [] {
      var before := MergeAll(records, xs[..|xs| - 1]);
      var x := xs[|xs| - 1];
      MergeAllUnique(records, xs[..|xs| - 1]);
      AbsorbEffect(before, x);
      var after := Absorb(before, x);
      forall i, j | 0 <= i < j < |after| ensures Key(after[i]) != Key(after[j]) {
        if j == |before| {
          assert Key(before[i]) != KeyOf(x);
        }
      }
    }
  }

  /** Once the prefix of a record list is kept, the first record of a key keeps its place. */
  lemma FindIndexStable(a: seq<Record>, b: seq<Record>, key: (string, string))
    requires |a| <= |b|
    requires forall i :: 0 <= i < |a| ==> Key(b[i]) == Key(a[i])
    requires FindIndex(a, key).Some?
    ensures FindIndex(b, key) == FindIndex(a, key)
  {
    var i := FindIndex(a, key).value;
    assert Key(b[i]) == key;
  }

  /**
   * A record is created by the first value of its (date, station) and
   * keeps that value's region, elevation, latitude and longitude.
   */
  lemma FirstSightMetadata(records: seq<Record>, xs: seq<Reading>, j: nat)
    requires j < |xs|
    requires KeyOf(xs[j]) !in Keys(records)
    requires forall i :: 0 <= i < j ==> KeyOf(xs[i]) != KeyOf(xs[j])
    ensures var after := MergeAll(records, xs);
            FindIndex(after, KeyOf(xs[j])).Some? &&
            Header(after[FindIndex(after, KeyOf(xs[j])).value]) == HeaderOf(xs[j])
  {
    var key := KeyOf(xs[j]);
    var made := MergeAll(records, xs[..j + 1]);
    FirstSightMade(records, xs, j);
    var rest := xs[j + 1..];
    assert xs == xs[..j + 1] + rest;
    MergeAllConcat(records, xs[..j + 1], rest);
    MergeAllKeepsPrefix(made, rest);
    FindIndexStable(made, MergeAll(records, xs), key);
  }

  /** Right after the first value of a key, the record of that key carries the value's metadata. */
  lemma {:induction false} FirstSightMade(records: seq<Record>, xs: seq<Reading>, j: nat)
    requires j < |xs|
    requires KeyOf(xs[j]) !in Keys(records)
    requires forall i :: 0 <= i < j ==> KeyOf(xs[i]) != KeyOf(xs[j])
    ensures var made := MergeAll(records, xs[..j + 1]);
            FindIndex(made, KeyOf(xs[j])).Some? &&
            Header(made[FindIndex(made, KeyOf(xs[j])).value]) == HeaderOf(xs[j])
  {
    var before := MergeAll(records, xs[..j]);
    MergeAllKeys(records, xs[..j]);
    assert KeyOf(xs[j]) !in ReadingKeys(xs[..j]);
    MergeAllSnoc(records, xs, j);
    AbsorbCreates(before, xs[j]);
  }

  /** Merging one value more is absorbing it. */
  lemma {:induction false} MergeAllSnoc(records: seq<Record>, xs: seq<Reading>, j: nat)
    requires j < |xs|
    ensures MergeAll(records, xs[..j + 1]) == Absorb(MergeAll(records, xs[..j]), xs[j])
  {
    assert xs[..j + 1][..j] == xs[..j];
    assert xs[..j + 1][j] == xs[j];
  }

  /** A value of a new key appends a record carrying the value's metadata. */
  lemma AbsorbCreates(records: seq<Record>, x: Reading)
    requires KeyOf(x) !in Keys(records)
    ensures var after := Absorb(records, x);
            FindIndex(after, KeyOf(x)) == Some(|records|) && Header(after[|records|]) == HeaderOf(x)
  {
    AbsorbEffect(records, x);
  }

  /** A value that does not touch column `column` leaves that column of every record as it was. */
  lemma UpdatedFrame(fields: map<string, Cell>, code: string, item: ValueItem, column: string)
    requires !Touches(code, column)
    ensures var after := Updated(fields, ELEMENTS, code, item);
            (column in after <==> column in fields) && (column in fields ==> after[column] == fields[column])
  {
    if e :| 0 <= e < |ELEMENTS| && ELEMENTS[e].1 == code {
      ElementCodesDistinct();
      KnownCodeSetsItsColumns(fields, ELEMENTS, code, item, e);
    } else {
      UnknownCodeSetsNothing(fields, ELEMENTS, code, item);
    }
  }

  /** Later values that do not touch a record's column leave it as it was. */
  lemma {:induction false} ColumnKept(records: seq<Record>, xs: seq<Reading>, i: nat, column: string, v: Cell)
    requires i < |records| && column in records[i].fields && records[i].fields[column] == v
    requires forall k :: 0 <= k < |xs| && KeyOf(xs[k]) == Key(records[i]) ==> !Touches(xs[k].code, column)
    ensures var after := MergeAll(records, xs);
            i < |after| && column in after[i].fields && after[i].fields[column] == v
  {
    if xs != [] {
      var init := xs[..|xs| - 1];
      var x := xs[|xs| - 1];
      ColumnKept(records, init, i, column, v);
      var before := MergeAll(records, init);
      MergeAllKeepsPrefix(records, init);
      match FindIndex(before, KeyOf(x))
      case None =>
      case Some(k) =>
        if k == i {
          UpdatedFrame(before[i].fields, x.code, x.item, column);
        }
    }
  }

  /** A value sets its element's column in the record of its key, found or appended. */
  lemma AbsorbSetsColumn(records: seq<Record>, x: Reading, e: nat)
    requires e < |ELEMENTS| && ELEMENTS[e].1 == x.code
    ensures var after := Absorb(records, x);
            var found := FindIndex(after, KeyOf(x));
            found.Some? && ELEMENTS[e].0 in after[found.value].fields &&
            after[found.value].fields[ELEMENTS[e].0] == x.item.value
  {
    ElementCodesDistinct();
    AbsorbEffect(records, x);
    var after := Absorb(records, x);
    match FindIndex(records, KeyOf(x))
    case None =>
      KnownCodeSetsItsColumns(NewRecord(x).fields, ELEMENTS, x.code, x.item, e);
      assert FindIndex(after, KeyOf(x)) == Some(|records|);
    case Some(k) =>
      KnownCodeSetsItsColumns(records[k].fields, ELEMENTS, x.code, x.item, e);
      assert Key(after[k]) == KeyOf(x);
      assert FindIndex(after, KeyOf(x)) == Some(k);
  }

  /**
   * The last value of an element for a (date, station) wins: after the
   * merge, the record of that key holds it in the element's column, as
   * long as no later value of the same key touches that column.
   */
  lemma LastValueWins(records: seq<Record>, xs: seq<Reading>, j: nat, e: nat)
    requires j < |xs| && e < |ELEMENTS| && ELEMENTS[e].1 == xs[j].code
    requires forall k :: j < k < |xs| && KeyOf(xs[k]) == KeyOf(xs[j]) ==> !Touches(xs[k].code, ELEMENTS[e].0)
    ensures var after := MergeAll(records, xs);
            var found := FindIndex(after, KeyOf(xs[j]));
            found.Some? && ELEMENTS[e].0 in after[found.value].fields &&
            after[found.value].fields[ELEMENTS[e].0] == xs[j].item.value
  {
    var key := KeyOf(xs[j]);
    assert xs[..j + 1][..j] == xs[..j];
    var made := MergeAll(records, xs[..j + 1]);
    assert made == Absorb(MergeAll(records, xs[..j]), xs[j]);
    AbsorbSetsColumn(MergeAll(records, xs[..j]), xs[j], e);
    var i := FindIndex(made, key).value;
    var rest := xs[j + 1..];
    assert xs == xs[..j + 1] + rest;
    MergeAllConcat(records, xs[..j + 1], rest);
    forall k | 0 <= k < |rest| && KeyOf(rest[k]) == Key(made[i]) ensures !Touches(rest[k].code, ELEMENTS[e].0) {
      assert rest[k] == xs[j + 1 + k];
    }
    ColumnKept(made, rest, i, ELEMENTS[e].0, xs[j].item.value);
    MergeAllKeepsPrefix(made, rest);
    FindIndexStable(made, MergeAll(records, xs), key);
  }

  // ---------------------------------------------------------------------
  // The station metadata file
  // ---------------------------------------------------------------------

  /** The metadata columns kept from a station of the AWDB response, in order. */
  const KEYS: seq<string> :=
    ["stationId", "stateCode", "networkCode", "name", "countyName", "elevation", "latitude", "longitude", "beginDate"]

  /** The header of the metadata file: the kept columns, then the update day. */
  const FIELDNAMES: seq<string> := KEYS + ["date"]

  /** A station object of the response, its values as they are written to the CSV file. */
  type StationObject = map<string, string>

  /** `station.get(key, "")`. */
  function Get(station: StationObject, key: string): string
  {
    if key in station then station[key] else ""
  }

  /** The row dict built for one station: its kept columns (missing ones empty) and the update day. */
  function RowData(station: StationObject, currentDate: string): (row: map<string, string>)
    ensures row.Keys == set k | k in FIELDNAMES
  {
    (map k | k in KEYS :: Get(station, k))["date" := currentDate]
  }

  /** `DictWriter.writerow` raises `ValueError` for a key that is not a column. */
  datatype WriterError = ValueError

  /**
   * `csv.DictWriter(fieldnames=...).writerow(row)` with the default
   * settings: a key outside the columns is an error; otherwise the row's
   * values in column order, an absent column written as "".
   */
  function WriteRow(fieldnames: seq<string>, row: map<string, string>): (r: Result<seq<string>, WriterError>)
    ensures r.Err? <==> exists k :: k in row && k !in fieldnames
    ensures r.Ok? ==> |r.value| == |fieldnames|
  {
    if exists k :: k in row && k !in fieldnames then Err(ValueError)
    else Ok(seq(|fieldnames|, i requires 0 <= i < |fieldnames| => if fieldnames[i] in row then row[fieldnames[i]] else ""))
  }

  /** The line of a station in the metadata file: the nine kept columns, missing ones empty, then the day. */
  function Projected(station: StationObject, currentDate: string): seq<string>
  {
    seq(|FIELDNAMES|, i requires 0 <= i < |FIELDNAMES| => if i < |KEYS| then Get(station, KEYS[i]) else currentDate)
  }

  /**
   * The row dict fits the header exactly, so writing it never raises and
   * gives the station's nine kept columns, in order, then the day; keys
   * of the response outside the nine are dropped.
   */
  lemma ProjectionWritesCleanly(station: StationObject, currentDate: string)
    ensures WriteRow(FIELDNAMES, RowData(station, currentDate)) == Ok(Projected(station, currentDate))
    ensures |Projected(station, currentDate)| == |KEYS| + 1
    ensures forall i :: 0 <= i < |KEYS| ==> Projected(station, currentDate)[i] == Get(station, KEYS[i])
    ensures Projected(station, currentDate)[|KEYS|] == currentDate
  {
    var row := RowData(station, currentDate);
    assert "date" !in KEYS;
    assert forall k :: k in row ==> k in FIELDNAMES;
    var written := WriteRow(FIELDNAMES, row).value;
    var line := Projected(station, currentDate);
    forall i | 0 <= i < |FIELDNAMES| ensures written[i] == line[i] {
      if i < |KEYS| {
        assert FIELDNAMES[i] == KEYS[i] != "date";
        assert row[KEYS[i]] == Get(station, KEYS[i]);
      } else {
        assert FIELDNAMES[i] == "date";
      }
    }
    assert written == line;
  }

  /** Two stations that agree on the nine kept columns get the same line. */
  lemma ProjectionIgnoresOtherKeys(a: StationObject, b: StationObject, currentDate: string)
    requires forall k :: k in KEYS ==> (k in a <==> k in b) && (k in a ==> a[k] == b[k])
    ensures Projected(a, currentDate) == Projected(b, currentDate)
  {
    assert forall i :: 0 <= i < |KEYS| ==> Get(a, KEYS[i]) == Get(b, KEYS[i]);
  }

  /** `save_to_csv`: the header, then one line per station of the response, in order. */
  method SaveToCsv(data: seq<StationObject>, currentDate: string) returns (lines: seq<seq<string>>)
    ensures |lines| == |data| + 1 && lines[0] == FIELDNAMES
    ensures forall i :: 0 <= i < |data| ==> lines[i + 1] == Projected(data[i], currentDate)
  {
    lines := [FIELDNAMES];
    for i := 0 to |data|
      invariant |lines| == i + 1 && lines[0] == FIELDNAMES
      invariant forall k :: 0 <= k < i ==> lines[k + 1] == Projected(data[k], currentDate)
    {
      var row := RowData(data[i], currentDate);
      ProjectionWritesCleanly(data[i], currentDate);
      var line := WriteRow(FIELDNAMES, row).value;
      lines := lines + [line];
    }
  }

  // ---------------------------------------------------------------------
  // One time-series update
  // ---------------------------------------------------------------------

  /**
   * How `fetch_and_process_time_series_data` ends: nothing to fetch, the
   * merged records (handed on to be sorted and written), or a `TypeError`
   * from unpacking the `False` that the grouping returns without regions.
   */
  datatype Update = NothingNew | Collected(records: seq<Record>) | UnpackError

  /** The rosters of every region. */
  function RosterMap(s: Shapes, stations: seq<Station>): (m: map<string, seq<Station>>)
    ensures m.Keys == set r | r in s.names
  {
    map r | r in s.names :: Roster(s, stations, r)
  }

  /**
   * The update after the date window has been chosen: the stations of the
   * metadata file grouped by region, then every value `fetch` returns for
   * them merged in region and roster order.
   */
  method UpdateTimeSeries(start: Option<int>, end: Option<int>, today: int, stored: Stored,
                          s: Shapes, stations: seq<Station>, fetch: Station -> seq<SiteData>)
    returns (outcome: Update)
    ensures outcome.NothingNew? <==> FetchWindow(start, end, today, stored).UpToDate?
    ensures outcome.UnpackError? <==> FetchWindow(start, end, today, stored).Fetch? && s.names == []
    ensures outcome.Collected? ==> outcome.records == MergeAll([], AllReadings(s.names, RosterMap(s, stations), fetch))
  {
    var window := FetchWindow(start, end, today, stored);
    if window.UpToDate? {
      return NothingNew;
    }
    var grouped := MapStationsToRegions(s, stations);
    if grouped.None? {
      return UnpackError;
    }
    var (rosters, regions) := grouped.value;
    assert rosters == RosterMap(s, stations);
    var records := CollectTimeSeries(regions, rosters, fetch);
    return Collected(records);
  }

  /** The records of an update have one record per (date, station) value fetched, and no two share a key. */
  lemma UpdateRecords(s: Shapes, stations: seq<Station>, fetch: Station -> seq<SiteData>)
    ensures var xs := AllReadings(s.names, RosterMap(s, stations), fetch);
            Unique(MergeAll([], xs)) && Keys(MergeAll([], xs)) == ReadingKeys(xs)
  {
    var xs := AllReadings(s.names, RosterMap(s, stations), fetch);
    MergeAllUnique([], xs);
    MergeAllKeys([], xs);
    assert Keys([]) == {};
  }
}
